/**
 The reference accounting, which pays every recipient on every post, and the proof
 that the indexed accounting of StakingFixed agrees with it on every run.
 */
module StakingEager {
  import opened Sums
  import opened StakingFixed
  import opened Wrappers

  datatype EagerState = EagerState(
    stakes: seq<int>, rewards: seq<int>, unassigned: int, funded: int, paid: int)

  datatype EagerResult = Paid(units: int) | DivisionByZero

  /** Division that rounds towards minus infinity whatever the sign of the divisor. */
  function FloorDiv(a: int, b: int): (r: int)
    requires b != 0
    ensures 0 < b ==> r * b <= a < (r + 1) * b
  {
    if 0 < b then a / b else (-a) / (-b)
  }

  function Others(stakes: seq<int>, payer: nat): (r: seq<int>)
    ensures |r| == |stakes|
  {
    if payer < |stakes| then stakes[payer := 0] else stakes
  }

  function EagerFresh(stakes: seq<int>): EagerState {
    EagerState(stakes, seq(|stakes|, _ => 0), 0, 0, 0)
  }

  /** Recipients are paid one by one; the payer is skipped, and so are no others. */
  function EagerPost(e: EagerState, payer: nat, fee: int): (r: (EagerState, EagerResult))
    requires |e.stakes| == |e.rewards|
    ensures |r.0.rewards| == |r.0.stakes| == |e.stakes|
  {
    var eligible := Sum(Others(e.stakes, payer));
    if eligible == 0 then (e, DivisionByZero) else
    var increment := FloorDiv(fee * Q, eligible);
    (e.(rewards := Credited(e.rewards, e.stakes, payer, increment),
        unassigned := e.unassigned + fee * Q - eligible * increment,
        funded := e.funded + fee * Q), Paid(0))
  }

  function EagerStep(e: EagerState, op: Op): (r: (EagerState, EagerResult))
    requires |e.stakes| == |e.rewards| && op.account < |e.stakes|
    ensures |r.0.rewards| == |r.0.stakes| == |e.stakes|
  {
    match op
    case SetStake(i, value) => (e.(stakes := e.stakes[i := value]), Paid(0))
    case Post(payer, fee) => EagerPost(e, payer, fee)
    case Claim(i) =>
      var amount := e.rewards[i] / Q;
      (e.(rewards := e.rewards[i := e.rewards[i] - amount * Q], paid := e.paid + amount * Q), Paid(amount))
  }

  function EagerRun(e: EagerState, ops: seq<Op>): (r: EagerState)
    requires |e.stakes| == |e.rewards| && AccountsBelow(ops, |e.stakes|)
    ensures |r.rewards| == |r.stakes| == |e.stakes|
  {
    if ops == [] then e else EagerStep(EagerRun(e, ops[..|ops| - 1]), ops[|ops| - 1]).0
  }

  function EagerResults(e: EagerState, ops: seq<Op>): (r: seq<EagerResult>)
    requires |e.stakes| == |e.rewards| && AccountsBelow(ops, |e.stakes|)
    ensures |r| == |ops|
  {
    if ops == [] then []
    else EagerResults(e, ops[..|ops| - 1]) + [EagerStep(EagerRun(e, ops[..|ops| - 1]), ops[|ops| - 1]).1]
  }

  /** The eager state keeps each entitlement outright where the indexed one derives it. */
  ghost predicate Refines(s: State, e: EagerState) {
    && Solvent(s)
    && e.stakes == s.stakes && e.rewards == Entitlements(s)
    && (e.funded, e.paid, e.unassigned) == (s.funded, s.paid, s.unassigned)
  }

  lemma EagerPostPays(e: EagerState, payer: nat, fee: int)
    requires |e.stakes| == |e.rewards| && payer < |e.stakes|
    requires 0 < Sum(e.stakes) - e.stakes[payer]
    ensures var delta, eligible := Increment(e.stakes, payer, fee), Sum(e.stakes) - e.stakes[payer];
      EagerPost(e, payer, fee) ==
      (e.(rewards := Credited(e.rewards, e.stakes, payer, delta),
          unassigned := e.unassigned + fee * Q - eligible * delta,
          funded := e.funded + fee * Q), Paid(0))
  {
    SumUpdate(e.stakes, payer, 0);
  }

  lemma Commutes(a: int, b: int)
    ensures a * b == b * a
  {
  }

  lemma PostRefines(s: State, e: EagerState, payer: nat, fee: int)
    requires Refines(s, e) && payer < |s.stakes| && Postable(s, payer, fee)
    ensures Refines(Posted(s, payer, fee), EagerPost(e, payer, fee).0)
    ensures EagerPost(e, payer, fee).1 == Paid(0)
  {
    PostSolvent(s, payer, fee);
    EagerPostPays(e, payer, fee);
    hide Increment, Credited, EagerPost, Entitlement;
    Commutes(s.total - s.stakes[payer], Increment(s.stakes, payer, fee));
  }

  lemma ClaimRefines(s: State, e: EagerState, i: nat)
    requires Refines(s, e) && i < |s.stakes|
    ensures Refines(ClaimStep(s, i).0, EagerStep(e, Claim(i)).0)
    ensures ClaimStep(s, i).1.Ok? && EagerStep(e, Claim(i)).1 == Paid(ClaimStep(s, i).1.value)
  {
    ClaimSolvent(s, i);
    assert Entitlement(s, i) == e.rewards[i];
    assert e.rewards[i] - e.rewards[i] / Q * Q == e.rewards[i] % Q;
  }

  lemma StepRefines(s: State, e: EagerState, op: Op)
    requires Refines(s, e) && op.account < |s.stakes| && Step(s, op).1.Ok?
    ensures Refines(Step(s, op).0, EagerStep(e, op).0)
    ensures EagerStep(e, op).1 == Paid(Step(s, op).1.value)
  {
    match op
    case SetStake(i, value) => SetStakeSolvent(s, i, value);
    case Post(payer, fee) =>
      PostDecision(s, payer, fee);
      PostRefines(s, e, payer, fee);
    case Claim(i) => ClaimRefines(s, e, i);
  }

  lemma {:induction false} RunRefines(s: State, e: EagerState, ops: seq<Op>)
    requires Refines(s, e) && AccountsBelow(ops, |s.stakes|) && Accepts(s, ops)
    ensures Refines(RunAll(s, ops), EagerRun(e, ops))
    ensures forall k :: 0 <= k < |ops| ==>
      Results(s, ops)[k].Ok? && EagerResults(e, ops)[k] == Paid(Results(s, ops)[k].value)
  {
    if ops != [] {
      var before, op := ops[..|ops| - 1], ops[|ops| - 1];
      RunRefines(s, e, before);
      StepRefines(RunAll(s, before), EagerRun(e, before), op);
    }
  }

  /**
   Lazy refines eager: after any accepted sequence, on any number of accounts, each
   readable entitlement is the eager reward, the three pools and every claim agree.
   */
  lemma LazyRefinesEager(stakes: seq<int>, ops: seq<Op>)
    requires Admissible(stakes) && AccountsBelow(ops, |stakes|) && Accepts(Fresh(stakes).value, ops)
    ensures var s, e := RunAll(Fresh(stakes).value, ops), EagerRun(EagerFresh(stakes), ops);
      && e.stakes == s.stakes
      && (forall i: nat :: i < |stakes| ==> Pending(s, i) == Ok(e.rewards[i]))
      && (e.funded, e.paid, e.unassigned) == (s.funded, s.paid, s.unassigned)
      && forall k :: 0 <= k < |ops| ==>
           Results(Fresh(stakes).value, ops)[k].Ok? &&
           EagerResults(EagerFresh(stakes), ops)[k] == Paid(Results(Fresh(stakes).value, ops)[k].value)
  {
    var start := Fresh(stakes).value;
    FreshSolvent(stakes);
    assert EagerFresh(stakes).rewards == Entitlements(start);
    RunRefines(start, EagerFresh(stakes), ops);
    var s := RunAll(start, ops);
    forall i: nat | i < |stakes| ensures Pending(s, i) == Ok(Entitlements(s)[i]) {
      SolventPending(s, i);
    }
  }

  /** Nobody earns from a fee they paid: a post, accepted or not, leaves its payer's readable entitlement alone. */
  lemma PayerEarnsNothing(s: State, payer: nat, fee: int)
    requires Solvent(s) && payer < |s.stakes|
    ensures Pending(PostStep(s, payer, fee).0, payer) == Pending(s, payer)
  {
    PostDecision(s, payer, fee);
    if Postable(s, payer, fee) {
      hide PostStep;
      PostSolvent(s, payer, fee);
      SolventPending(s, payer);
      var t := Posted(s, payer, fee);
      SolventPending(t, payer);
      assert Entitlements(t)[payer] == Entitlements(s)[payer];
    }
  }

  // When an account claims does not matter.

  function StakesAfter(stakes: seq<int>, ops: seq<Op>): (r: seq<int>)
    requires AccountsBelow(ops, |stakes|)
    ensures |r| == |stakes|
  {
    if ops == [] then stakes else
    var before, op := StakesAfter(stakes, ops[..|ops| - 1]), ops[|ops| - 1];
    if op.SetStake? then before[op.account := op.stake] else before
  }

  /** What one operation earns an account, given the stakes it happens under. */
  function Earned(stakes: seq<int>, op: Op, i: nat): int
    requires op.account < |stakes| && i < |stakes|
  {
    if op.Post? && op.account != i then stakes[i] * Increment(stakes, op.account, op.fee) else 0
  }

  /** All that an account has earned over a run, computed from posts and stakes alone. */
  function Accrued(stakes: seq<int>, ops: seq<Op>, i: nat): int
    requires AccountsBelow(ops, |stakes|) && i < |stakes|
  {
    if ops == [] then 0 else
    var before := ops[..|ops| - 1];
    Accrued(stakes, before, i) + Earned(StakesAfter(stakes, before), ops[|ops| - 1], i)
  }

  /** The base units an account has been paid by its claims during a run. */
  function ClaimedBy(s: State, ops: seq<Op>, i: nat): int
    requires WellShaped(s) && AccountsBelow(ops, |s.stakes|)
  {
    if ops == [] then 0 else
    var before, op := ops[..|ops| - 1], ops[|ops| - 1];
    ClaimedBy(s, before, i) +
    match Step(RunAll(s, before), op).1
    case Ok(units) => if op == Claim(i) then units else 0
    case Err(_) => 0
  }

  lemma {:induction false} EarnedIsHeldOrClaimed(stakes: seq<int>, ops: seq<Op>, i: nat)
    requires Admissible(stakes) && AccountsBelow(ops, |stakes|) && i < |stakes|
    requires Accepts(Fresh(stakes).value, ops)
    ensures var start := Fresh(stakes).value; var s := RunAll(start, ops);
      && Solvent(s) && s.stakes == StakesAfter(stakes, ops)
      && Entitlement(s, i) + ClaimedBy(start, ops, i) * Q == Accrued(stakes, ops, i)
  {
    var start := Fresh(stakes).value;
    FreshSolvent(stakes);
    if ops != [] {
      var before, op := ops[..|ops| - 1], ops[|ops| - 1];
      EarnedIsHeldOrClaimed(stakes, before, i);
      var s := RunAll(start, before);
      StepMovesEntitlement(s, op, i);
    }
  }

  lemma StepMovesEntitlement(s: State, op: Op, i: nat)
    requires Solvent(s) && op.account < |s.stakes| && i < |s.stakes| && Step(s, op).1.Ok?
    ensures var (t, r) := Step(s, op);
      && Solvent(t)
      && t.stakes == (if op.SetStake? then s.stakes[op.account := op.stake] else s.stakes)
      && Entitlement(t, i) == Entitlement(s, i) + Earned(s.stakes, op, i) - if op == Claim(i) then r.value * Q else 0
  {
    var t := Step(s, op).0;
    match op
    case SetStake(j, value) =>
      SetStakeSolvent(s, j, value);
      assert Entitlements(t)[i] == Entitlements(s)[i];
    case Post(payer, fee) =>
      PostDecision(s, payer, fee);
      PostSolvent(s, payer, fee);
      assert Entitlements(t)[i] == Credited(Entitlements(s), s.stakes, payer, Increment(s.stakes, payer, fee))[i];
    case Claim(j) =>
      ClaimSolvent(s, j);
      assert Entitlements(t)[i] == Entitlements(s)[j := Entitlement(s, j) % Q][i];
  }

  function WithoutClaims(ops: seq<Op>): (r: seq<Op>)
    ensures forall k :: 0 <= k < |r| ==> r[k] in ops
  {
    if ops == [] then []
    else if ops[|ops| - 1].Claim? then WithoutClaims(ops[..|ops| - 1])
    else WithoutClaims(ops[..|ops| - 1]) + [ops[|ops| - 1]]
  }

  lemma WithoutClaimsLast(ops: seq<Op>)
    requires ops != [] && !ops[|ops| - 1].Claim?
    ensures var kept := WithoutClaims(ops);
      kept != [] && kept[..|kept| - 1] == WithoutClaims(ops[..|ops| - 1]) && kept[|kept| - 1] == ops[|ops| - 1]
  {
  }

  lemma {:induction false} StakesIgnoreClaims(stakes: seq<int>, ops: seq<Op>)
    requires AccountsBelow(ops, |stakes|)
    ensures AccountsBelow(WithoutClaims(ops), |stakes|)
    ensures StakesAfter(stakes, WithoutClaims(ops)) == StakesAfter(stakes, ops)
  {
    if ops != [] {
      StakesIgnoreClaims(stakes, ops[..|ops| - 1]);
      if !ops[|ops| - 1].Claim? {
        WithoutClaimsLast(ops);
      }
    }
  }

  lemma {:induction false} AccruedIgnoresClaims(stakes: seq<int>, ops: seq<Op>, i: nat)
    requires AccountsBelow(ops, |stakes|) && i < |stakes|
    ensures AccountsBelow(WithoutClaims(ops), |stakes|)
    ensures Accrued(stakes, WithoutClaims(ops), i) == Accrued(stakes, ops, i)
  {
    StakesIgnoreClaims(stakes, ops);
    if ops != [] {
      var before := ops[..|ops| - 1];
      AccruedIgnoresClaims(stakes, before, i);
      StakesIgnoreClaims(stakes, before);
      if !ops[|ops| - 1].Claim? {
        WithoutClaimsLast(ops);
      }
    }
  }

  /** After one last claim, the units paid are the floor of everything earned. */
  lemma FinalClaimTotal(stakes: seq<int>, ops: seq<Op>, i: nat)
    requires Admissible(stakes) && AccountsBelow(ops, |stakes|) && i < |stakes|
    requires Accepts(Fresh(stakes).value, ops)
    ensures Accepts(Fresh(stakes).value, ops + [Claim(i)])
    ensures ClaimedBy(Fresh(stakes).value, ops + [Claim(i)], i) == Accrued(stakes, ops, i) / Q
  {
    var start, all := Fresh(stakes).value, ops + [Claim(i)];
    assert all[..|all| - 1] == ops;
    EarnedIsHeldOrClaimed(stakes, ops, i);
    ClaimSolvent(RunAll(start, ops), i);
    var held := Entitlement(RunAll(start, ops), i);
    FloorOfShifted(held, ClaimedBy(start, ops, i));
  }

  lemma FloorOfShifted(held: int, units: int)
    ensures (held + units * Q) / Q == held / Q + units
  {
  }

  /**
   Two accepted runs with the same posts and stake changes pay an account the same
   total after a final claim, however many claims were made and wherever they fall.
   */
  lemma ClaimTimingIrrelevant(stakes: seq<int>, ops1: seq<Op>, ops2: seq<Op>, i: nat)
    requires Admissible(stakes) && i < |stakes|
    requires AccountsBelow(ops1, |stakes|) && Accepts(Fresh(stakes).value, ops1)
    requires AccountsBelow(ops2, |stakes|) && Accepts(Fresh(stakes).value, ops2)
    requires WithoutClaims(ops1) == WithoutClaims(ops2)
    ensures ClaimedBy(Fresh(stakes).value, ops1 + [Claim(i)], i) == ClaimedBy(Fresh(stakes).value, ops2 + [Claim(i)], i)
  {
    FinalClaimTotal(stakes, ops1, i);
    FinalClaimTotal(stakes, ops2, i);
    AccruedIgnoresClaims(stakes, ops1, i);
    AccruedIgnoresClaims(stakes, ops2, i);
  }

  /** Claiming again at once pays zero and writes nothing new. */
  lemma RepeatedClaimPaysZero(s: State, i: nat)
    requires Solvent(s) && i < |s.stakes|
    ensures var t := ClaimStep(s, i).0; ClaimStep(t, i) == (t, Ok(0))
  {
    var t := ClaimStep(s, i).0;
    ClaimSolvent(s, i);
    ClaimSolvent(t, i);
    assert Entitlements(t)[i] == Entitlement(s, i) % Q;
    assert Entitlement(t, i) == Entitlement(s, i) % Q;
    var u := ClaimStep(t, i).0;
    assert u.credit == t.credit && u.debt == t.debt;
  }
}
