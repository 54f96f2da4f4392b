/**
 The bounded-integer reward accounting: one global per-stake index, with a
 credit and a debt per account, so that a post touches only its payer.

 State is the accounting as a value. Every operation is a function from the
 state to the state it leaves behind and its result, because a rejected
 operation may, in principle, leave a partly written state.
 */
module StakingFixed {
  import opened Sums
  import opened Wrappers

  const MAX: int := 0xffffffff_ffffffff_ffffffff_ffffffff_ffffffff_ffffffff_ffffffff_ffffffff
  const Q: int := 0x1_00000000_00000000
  const STAKE_CAP: int := 0xffffffff_ffffffff_ffffffff
  const TOTAL_CAP: int := 0xffffffff_ffffffff_ffffffff_ffffffff
  const INDEX_CAP: int := MAX / STAKE_CAP

  datatype Error = StakeRange | TotalStake | FeeRange | Uint256 | NoEligibleStake | ZeroIncrement | IndexCap

  datatype State = State(
    stakes: seq<int>, total: int, index: int,
    credit: seq<int>, debt: seq<int>,
    funded: int, paid: int, unassigned: int)

  datatype Op = SetStake(account: nat, stake: int) | Post(account: nat, fee: int) | Claim(account: nat)

  predicate IsUint(value: int) {
    0 <= value <= MAX
  }

  predicate WellShaped(s: State) {
    |s.stakes| == |s.credit| == |s.debt|
  }

  predicate Names(s: State, i: nat) {
    WellShaped(s) && i < |s.stakes|
  }

  /** The stakes a pool may open with. */
  ghost predicate Admissible(stakes: seq<int>) {
    stakes != [] && (forall i :: 0 <= i < |stakes| ==> 0 <= stakes[i] <= STAKE_CAP) && Sum(stakes) <= TOTAL_CAP
  }

  function Fresh(stakes: seq<int>): (r: Result<State, Error>)
    ensures r.Ok? <==> Admissible(stakes)
  {
    if stakes == [] || exists i :: 0 <= i < |stakes| && !(0 <= stakes[i] <= STAKE_CAP) then Err(StakeRange)
    else if Sum(stakes) > TOTAL_CAP then Err(TotalStake)
    else
      var zeros := seq(|stakes|, _ => 0);
      Ok(State(stakes, Sum(stakes), 0, zeros, zeros, 0, 0, 0))
  }

  function Pending(s: State, i: nat): (r: Result<int, Error>)
    requires Names(s, i)
  {
    var gained := s.stakes[i] * s.index - s.debt[i];
    if !IsUint(gained) || !IsUint(s.credit[i] + gained) then Err(Uint256) else Ok(s.credit[i] + gained)
  }

  function SetStakeStep(s: State, i: nat, value: int): (r: (State, Result<int, Error>))
    requires Names(s, i)
    ensures WellShaped(r.0) && |r.0.stakes| == |s.stakes|
  {
    if !(0 <= value <= STAKE_CAP) then (s, Err(StakeRange)) else
    var total := s.total - s.stakes[i] + value;
    if total > TOTAL_CAP then (s, Err(TotalStake)) else
    var accrued := Pending(s, i);
    if accrued.Err? then (s, accrued) else
    var debt := value * s.index;
    if !IsUint(debt) then (s, Err(Uint256)) else
    (s.(credit := s.credit[i := accrued.value], debt := s.debt[i := debt],
        total := total, stakes := s.stakes[i := value]), Ok(0))
  }

  function PostStep(s: State, payer: nat, fee: int): (r: (State, Result<int, Error>))
    requires Names(s, payer)
    ensures WellShaped(r.0) && |r.0.stakes| == |s.stakes|
  {
    if fee <= 0 then (s, Err(FeeRange)) else
    var scaled := fee * Q;
    if !IsUint(scaled) then (s, Err(Uint256)) else
    var eligible := s.total - s.stakes[payer];
    if eligible <= 0 then (s, Err(NoEligibleStake)) else
    var delta := scaled / eligible;
    if delta <= 0 then (s, Err(ZeroIncrement)) else
    var index := s.index + delta;
    if index > INDEX_CAP then (s, Err(IndexCap)) else
    if !IsUint(s.funded + scaled) then (s, Err(Uint256)) else
    if !IsUint(s.unassigned + scaled - delta * eligible) then (s, Err(Uint256)) else
    var accrued := Pending(s, payer);
    if accrued.Err? then (s, accrued) else
    var debt := s.stakes[payer] * index;
    if !IsUint(debt) then (s, Err(Uint256)) else
    (s.(index := index, funded := s.funded + scaled, unassigned := s.unassigned + scaled - delta * eligible,
        credit := s.credit[payer := accrued.value], debt := s.debt[payer := debt]), Ok(0))
  }

  /** The credit is written before the last check, so that check can reject a half-written claim. */
  function ClaimStep(s: State, i: nat): (r: (State, Result<int, Error>))
    requires Names(s, i)
    ensures WellShaped(r.0) && |r.0.stakes| == |s.stakes|
  {
    var accrued := Pending(s, i);
    if accrued.Err? then (s, accrued) else
    var whole, remainder := accrued.value / Q, accrued.value % Q;
    if !IsUint(s.paid + whole * Q) then (s, Err(Uint256)) else
    var written := s.(credit := s.credit[i := remainder]);
    var debt := s.stakes[i] * s.index;
    if !IsUint(debt) then (written, Err(Uint256)) else
    (written.(debt := s.debt[i := debt], paid := s.paid + whole * Q), Ok(whole))
  }

  function Step(s: State, op: Op): (r: (State, Result<int, Error>))
    requires Names(s, op.account)
    ensures WellShaped(r.0) && |r.0.stakes| == |s.stakes|
  {
    match op
    case SetStake(i, value) => SetStakeStep(s, i, value)
    case Post(payer, fee) => PostStep(s, payer, fee)
    case Claim(i) => ClaimStep(s, i)
  }

  // Runs. RunAll carries on after a rejection, as a caller that catches the error
  // does; Accepts and Run describe the sequences in which nothing is rejected.

  predicate AccountsBelow(ops: seq<Op>, n: nat) {
    forall k :: 0 <= k < |ops| ==> ops[k].account < n
  }

  function RunAll(s: State, ops: seq<Op>): (r: State)
    requires WellShaped(s) && AccountsBelow(ops, |s.stakes|)
    ensures WellShaped(r) && |r.stakes| == |s.stakes|
  {
    if ops == [] then s else Step(RunAll(s, ops[..|ops| - 1]), ops[|ops| - 1]).0
  }

  predicate Accepts(s: State, ops: seq<Op>)
    requires WellShaped(s) && AccountsBelow(ops, |s.stakes|)
  {
    ops == [] ||
    (Accepts(s, ops[..|ops| - 1]) && Step(RunAll(s, ops[..|ops| - 1]), ops[|ops| - 1]).1.Ok?)
  }

  /** The result of every operation of a run, in order. */
  function Results(s: State, ops: seq<Op>): (r: seq<Result<int, Error>>)
    requires WellShaped(s) && AccountsBelow(ops, |s.stakes|)
    ensures |r| == |ops|
  {
    if ops == [] then []
    else Results(s, ops[..|ops| - 1]) + [Step(RunAll(s, ops[..|ops| - 1]), ops[|ops| - 1]).1]
  }

  // Entitlements without the overflow checks, and the solvency invariant.

  function Entitlement(s: State, i: nat): int
    requires Names(s, i)
  {
    s.credit[i] + s.stakes[i] * s.index - s.debt[i]
  }

  function Entitlements(s: State): (r: seq<int>)
    requires WellShaped(s)
    ensures |r| == |s.stakes|
  {
    seq(|s.stakes|, i requires 0 <= i < |s.stakes| => Entitlement(s, i))
  }

  ghost predicate AccountSound(s: State, i: nat)
    requires Names(s, i)
  {
    0 <= s.stakes[i] <= STAKE_CAP && 0 <= s.credit[i] && 0 <= s.debt[i] <= s.stakes[i] * s.index
  }

  ghost predicate Solvent(s: State) {
    && WellShaped(s)
    && (forall i: nat :: i < |s.stakes| ==> AccountSound(s, i))
    && s.total == Sum(s.stakes) <= TOTAL_CAP
    && 0 <= s.index <= INDEX_CAP
    && 0 <= s.paid && s.paid % Q == 0 && 0 <= s.unassigned
    && s.funded <= MAX
    && s.funded == s.paid + Sum(Entitlements(s)) + s.unassigned
  }

  // Arithmetic facts used below, each stated once so that no step has to find them.

  lemma StakeTimesIndex(stake: int, index: int)
    requires 0 <= stake <= STAKE_CAP && 0 <= index <= INDEX_CAP
    ensures 0 <= stake * index <= MAX
  {
    assert stake * index <= STAKE_CAP * index;
    assert STAKE_CAP * index <= STAKE_CAP * INDEX_CAP;
  }

  lemma Quotient(scaled: int, eligible: int)
    requires 0 <= scaled && 0 < eligible
    ensures 0 <= scaled - (scaled / eligible) * eligible < eligible
    ensures 0 <= (scaled / eligible) * eligible
  {
  }

  lemma Distribute(stake: int, index: int, delta: int)
    ensures stake * (index + delta) == stake * index + stake * delta
  {
  }

  /** In a solvent state no entitlement check can fail, and the whole pool covers each account. */
  lemma SolventPending(s: State, i: nat)
    requires Solvent(s) && i < |s.stakes|
    ensures Pending(s, i) == Ok(Entitlement(s, i))
    ensures 0 <= Entitlement(s, i) <= s.funded - s.paid - s.unassigned
    ensures 0 <= s.funded - s.paid - s.unassigned
  {
    var es := Entitlements(s);
    forall j | 0 <= j < |es| ensures 0 <= es[j] {
      assert AccountSound(s, j);
    }
    SumNonNegative(es);
    assert es[i] == Entitlement(s, i);
    assert AccountSound(s, i);
    StakeTimesIndex(s.stakes[i], s.index);
  }

  /** A pool opens exactly with one or more stakes, each within its cap and together within theirs, and then owes nothing. */
  lemma FreshDecision(stakes: seq<int>)
    ensures Fresh(stakes).Ok?
       <==> stakes != [] && (forall i :: 0 <= i < |stakes| ==> 0 <= stakes[i] <= STAKE_CAP) && Sum(stakes) <= TOTAL_CAP
    ensures Fresh(stakes) == Err(StakeRange) <==> stakes == [] || exists i :: 0 <= i < |stakes| && !(0 <= stakes[i] <= STAKE_CAP)
    ensures Fresh(stakes).Err? ==> Fresh(stakes).error in {StakeRange, TotalStake}
    ensures Fresh(stakes).Ok? ==> Opened(Fresh(stakes).value, stakes)
  {
  }

  /** These stakes, and zero everywhere else. */
  ghost predicate Opened(s: State, stakes: seq<int>) {
    && s.stakes == stakes && s.total == Sum(stakes) && (s.index, s.funded, s.paid, s.unassigned) == (0, 0, 0, 0)
    && |s.credit| == |s.debt| == |stakes| && forall i :: 0 <= i < |stakes| ==> s.credit[i] == s.debt[i] == 0
  }

  lemma FreshSolvent(stakes: seq<int>)
    requires Admissible(stakes)
    ensures Solvent(Fresh(stakes).value)
    ensures forall i: nat :: i < |stakes| ==> Entitlement(Fresh(stakes).value, i) == 0
  {
    var s := Fresh(stakes).value;
    forall i: nat | i < |stakes| ensures AccountSound(s, i) && Entitlement(s, i) == 0 {
    }
    SumZero(Entitlements(s));
  }

  /** A rewritten account whose entitlement is e leaves the others' sum alone. */
  lemma OneAccountRewritten(s: State, t: State, i: nat)
    requires Names(s, i) && Names(t, i) && |s.stakes| == |t.stakes|
    requires s.index == t.index
    requires forall j: nat :: j < |s.stakes| && j != i ==>
      s.stakes[j] == t.stakes[j] && s.credit[j] == t.credit[j] && s.debt[j] == t.debt[j]
    ensures Entitlements(t) == Entitlements(s)[i := Entitlement(t, i)]
    ensures Sum(Entitlements(t)) == Sum(Entitlements(s)) - Entitlement(s, i) + Entitlement(t, i)
  {
    assert Entitlements(t) == Entitlements(s)[i := Entitlement(t, i)];
    SumUpdate(Entitlements(s), i, Entitlement(t, i));
  }

  /**
   A stake change within the two caps is never refused: the accrued entitlement is
   moved into the credit, no entitlement changes, and the state stays solvent.
   */
  lemma SetStakeSolvent(s: State, i: nat, value: int)
    requires Solvent(s) && i < |s.stakes|
    ensures var (t, r) := SetStakeStep(s, i, value);
      && (r.Ok? <==> 0 <= value <= STAKE_CAP && s.total - s.stakes[i] + value <= TOTAL_CAP)
      && (r.Err? ==> t == s)
      && (r.Ok? ==>
           && Solvent(t) && Entitlements(t) == Entitlements(s)
           && t.stakes == s.stakes[i := value] && t.index == s.index
           && (t.funded, t.paid, t.unassigned) == (s.funded, s.paid, s.unassigned))
  {
    var (t, r) := SetStakeStep(s, i, value);
    SolventPending(s, i);
    if 0 <= value <= STAKE_CAP {
      StakeTimesIndex(value, s.index);
    }
    if r.Ok? {
      OneAccountRewritten(s, t, i);
      assert Entitlements(t) == Entitlements(s);
      SumUpdate(s.stakes, i, value);
      forall j: nat | j < |t.stakes| ensures AccountSound(t, j) {
        assert AccountSound(s, j);
      }
    }
  }

  lemma ClaimSolvent(s: State, i: nat)
    requires Solvent(s) && i < |s.stakes|
    ensures var (t, r) := ClaimStep(s, i);
      && r == Ok(Entitlement(s, i) / Q)
      && Solvent(t)
      && Entitlements(t) == Entitlements(s)[i := Entitlement(s, i) % Q]
      && t.stakes == s.stakes && t.index == s.index
      && (t.funded, t.unassigned) == (s.funded, s.unassigned)
      && t.paid == s.paid + Entitlement(s, i) / Q * Q
  {
    var (t, r) := ClaimStep(s, i);
    SolventPending(s, i);
    assert AccountSound(s, i);
    StakeTimesIndex(s.stakes[i], s.index);
    var e := Entitlement(s, i);
    assert e == e / Q * Q + e % Q && 0 <= e / Q;
    assert s.paid + e / Q * Q <= s.funded;
    OneAccountRewritten(s, t, i);
    assert Entitlement(t, i) == e % Q;
    forall j: nat | j < |t.stakes| ensures AccountSound(t, j) {
      assert AccountSound(s, j);
    }
    WholeMultiple(s.paid, e / Q);
  }

  lemma WholeMultiple(paid: int, whole: int)
    requires paid % Q == 0
    ensures (paid + whole * Q) % Q == 0
  {
  }

  /** What a post of a given fee adds to the index, from the stakes alone. */
  function Increment(stakes: seq<int>, payer: nat, fee: int): int
    requires payer < |stakes|
  {
    var eligible := Sum(stakes) - stakes[payer];
    if eligible <= 0 then 0 else fee * Q / eligible
  }

  /** Every account but the payer gains its stake times the increment. */
  function Credited(es: seq<int>, stakes: seq<int>, payer: nat, delta: int): (r: seq<int>)
    requires |es| == |stakes|
    ensures |r| == |es|
  {
    seq(|es|, i requires 0 <= i < |es| => es[i] + (if i == payer then 0 else stakes[i] * delta))
  }

  lemma CreditedSum(es: seq<int>, stakes: seq<int>, payer: nat, delta: int)
    requires |es| == |stakes| && payer < |es|
    ensures Sum(Credited(es, stakes, payer, delta)) == Sum(es) + (Sum(stakes) - stakes[payer]) * delta
  {
    hide Credited, Sum;
    var others := stakes[payer := 0];
    SumUpdate(stakes, payer, 0);
    forall i | 0 <= i < |es| ensures Credited(es, stakes, payer, delta)[i] == es[i] + others[i] * delta {
      CreditedAt(es, stakes, payer, delta, i);
    }
    SumAffine(es, others, delta, Credited(es, stakes, payer, delta));
  }

  lemma CreditedAt(es: seq<int>, stakes: seq<int>, payer: nat, delta: int, i: nat)
    requires |es| == |stakes| && payer < |es| && i < |es|
    ensures Credited(es, stakes, payer, delta)[i] == es[i] + stakes[payer := 0][i] * delta
  {
  }

  /** The condition a caller can read off the state before posting. */
  predicate Postable(s: State, payer: nat, fee: int)
    requires Names(s, payer)
  {
    var eligible := s.total - s.stakes[payer];
    && 0 < fee && fee * Q <= MAX && 0 < eligible && 0 < fee * Q / eligible
    && s.index + fee * Q / eligible <= INDEX_CAP
    && s.funded + fee * Q <= MAX
  }

  /** The entitlements after an accepted post: the payer's is untouched, the others' grow by stake * increment. */
  lemma PostEntitlements(s: State, t: State, payer: nat, delta: int)
    requires Names(s, payer) && WellShaped(t) && |t.stakes| == |s.stakes|
    requires t.stakes == s.stakes && t.index == s.index + delta
    requires t.credit == s.credit[payer := Entitlement(s, payer)]
    requires t.debt == s.debt[payer := s.stakes[payer] * t.index]
    ensures Entitlements(t) == Credited(Entitlements(s), s.stakes, payer, delta)
  {
    forall j: nat | j < |s.stakes|
      ensures Entitlement(t, j) == Entitlement(s, j) + if j == payer then 0 else s.stakes[j] * delta
    {
      Distribute(s.stakes[j], s.index, delta);
    }
  }

  /** The state a post commits once every check has passed. */
  function Posted(s: State, payer: nat, fee: int): (t: State)
    requires Names(s, payer)
  {
    var delta := Increment(s.stakes, payer, fee);
    s.(index := s.index + delta, funded := s.funded + fee * Q,
       unassigned := s.unassigned + fee * Q - delta * (s.total - s.stakes[payer]),
       credit := s.credit[payer := Entitlement(s, payer)],
       debt := s.debt[payer := s.stakes[payer] * (s.index + delta)])
  }

  /**
   A post is accepted exactly when the fee, the eligible stake, the increment and the
   two counters allow it. The dust, entitlement and debt checks never decide anything.
   */
  lemma PostDecision(s: State, payer: nat, fee: int)
    requires Solvent(s) && payer < |s.stakes|
    ensures PostStep(s, payer, fee).1.Ok? <==> Postable(s, payer, fee)
    ensures PostStep(s, payer, fee).0 == if Postable(s, payer, fee) then Posted(s, payer, fee) else s
  {
    SolventPending(s, payer);
    if Postable(s, payer, fee) {
      PostNumbers(s, payer, fee);
    }
  }

  /** The dust and the payer's new debt of an acceptable post are words. */
  lemma PostNumbers(s: State, payer: nat, fee: int)
    requires Solvent(s) && payer < |s.stakes| && Postable(s, payer, fee)
    ensures var eligible := s.total - s.stakes[payer];
      var delta := fee * Q / eligible;
      IsUint(s.unassigned + fee * Q - delta * eligible) && IsUint(s.stakes[payer] * (s.index + delta))
  {
    SolventPending(s, payer);
    assert AccountSound(s, payer);
    var eligible, scaled := s.total - s.stakes[payer], fee * Q;
    Quotient(scaled, eligible);
    StakeTimesIndex(s.stakes[payer], s.index + scaled / eligible);
    hide *;
    DustFits(s.unassigned, s.funded, scaled, scaled / eligible * eligible);
  }

  lemma DustFits(unassigned: int, funded: int, scaled: int, handedOut: int)
    requires 0 <= unassigned <= funded && 0 <= handedOut <= scaled && funded + scaled <= MAX
    ensures IsUint(unassigned + scaled - handedOut)
  {
  }

  lemma PostSound(s: State, payer: nat, fee: int)
    requires Solvent(s) && payer < |s.stakes| && Postable(s, payer, fee)
    ensures forall j: nat :: j < |s.stakes| ==> AccountSound(Posted(s, payer, fee), j)
  {
    var t := Posted(s, payer, fee);
    var delta := Increment(s.stakes, payer, fee);
    SolventPending(s, payer);
    forall j: nat | j < |s.stakes| ensures AccountSound(t, j) {
      assert AccountSound(s, j);
      StakeTimesIndex(s.stakes[j], t.index);
      Distribute(s.stakes[j], s.index, delta);
      StakeTimesIndex(s.stakes[j], delta);
    }
  }

  /** An accepted post pays every account but the payer, and keeps the pool solvent. */
  lemma PostSolvent(s: State, payer: nat, fee: int)
    requires Solvent(s) && payer < |s.stakes| && Postable(s, payer, fee)
    ensures Solvent(Posted(s, payer, fee))
    ensures Entitlements(Posted(s, payer, fee))
         == Credited(Entitlements(s), s.stakes, payer, Increment(s.stakes, payer, fee))
    ensures 0 < Increment(s.stakes, payer, fee)
  {
    var t := Posted(s, payer, fee);
    var delta := Increment(s.stakes, payer, fee);
    PostSound(s, payer, fee);
    PostEntitlements(s, t, payer, delta);
    CreditedSum(Entitlements(s), s.stakes, payer, delta);
    Quotient(fee * Q, s.total - s.stakes[payer]);
  }

  /** Solvency is kept by every operation, and a rejected one writes nothing at all. */
  lemma StepSolvent(s: State, op: Op)
    requires Solvent(s) && op.account < |s.stakes|
    ensures Solvent(Step(s, op).0)
    ensures Step(s, op).1.Err? ==> Step(s, op).0 == s
    ensures op.Claim? ==> Step(s, op).1.Ok?
  {
    match op
    case SetStake(i, value) => SetStakeSolvent(s, i, value);
    case Post(payer, fee) =>
      PostDecision(s, payer, fee);
      if Postable(s, payer, fee) {
        PostSolvent(s, payer, fee);
      }
    case Claim(i) => ClaimSolvent(s, i);
  }

  /**
   No lock-out: whatever is attempted, rejected attempts included, every account's
   entitlement stays readable and claimable, and what was funded is accounted for.
   */
  lemma {:induction false} NoLockOut(stakes: seq<int>, ops: seq<Op>)
    requires Admissible(stakes) && AccountsBelow(ops, |stakes|)
    ensures var s := RunAll(Fresh(stakes).value, ops);
      && Solvent(s)
      && s.funded == s.paid + Sum(Entitlements(s)) + s.unassigned
      && forall i: nat :: i < |stakes| ==>
           && s.debt[i] <= s.stakes[i] * s.index
           && Pending(s, i) == Ok(Entitlement(s, i))
           && ClaimStep(s, i).1 == Ok(Entitlement(s, i) / Q)
  {
    var start := Fresh(stakes).value;
    FreshSolvent(stakes);
    RunSolvent(start, ops);
    var s := RunAll(start, ops);
    forall i: nat | i < |stakes|
      ensures s.debt[i] <= s.stakes[i] * s.index && Pending(s, i) == Ok(Entitlement(s, i))
      ensures ClaimStep(s, i).1 == Ok(Entitlement(s, i) / Q)
    {
      assert AccountSound(s, i);
      SolventPending(s, i);
      ClaimSolvent(s, i);
    }
  }

  lemma {:induction false} RunSolvent(s: State, ops: seq<Op>)
    requires Solvent(s) && AccountsBelow(ops, |s.stakes|)
    ensures Solvent(RunAll(s, ops))
  {
    if ops != [] {
      RunSolvent(s, ops[..|ops| - 1]);
      StepSolvent(RunAll(s, ops[..|ops| - 1]), ops[|ops| - 1]);
    }
  }

  /**
   The write order of a claim does matter outside the reachable states: this state
   passes the entitlement check, is rejected by the last check, and keeps the new credit.
   */
  lemma UnsoundClaimIsTorn()
    ensures var s := State([2], 2, MAX, [Q], [2 * MAX], 0, 0, 0);
      && !Solvent(s)
      && ClaimStep(s, 0) == (s.(credit := [0]), Err(Uint256))
  {
    var s := State([2], 2, MAX, [Q], [2 * MAX], 0, 0, 0);
    assert INDEX_CAP < MAX;
    assert s.credit[0 := 0] == [0];
  }
}
