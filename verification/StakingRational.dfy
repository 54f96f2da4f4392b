/**
 The exact-rational ideal: the indexed and the eager form agree exactly, they hand out
 the fees and nothing else, and the bounded-integer form is a round-down of them whose
 loss is bounded account by account and is, in total, the unassigned remainder.
 */
module StakingRational {
  import opened Sums
  import opened StakingFixed
  import opened StakingEager
  import opened Wrappers

  datatype Lazy = Lazy(stakes: seq<int>, total: int, index: real, credits: seq<real>, debt: seq<real>,
                       lastPostAccountsWritten: int)

  datatype Exact = Exact(stakes: seq<int>, credits: seq<real>)

  predicate Shaped(z: Lazy) {
    |z.stakes| == |z.credits| == |z.debt|
  }

  function LazyFresh(stakes: seq<int>): (z: Lazy)
    ensures Shaped(z)
  {
    var zeros := seq(|stakes|, _ => 0.0);
    Lazy(stakes, Sum(stakes), 0.0, zeros, zeros, 0)
  }

  function ExactFresh(stakes: seq<int>): Exact {
    Exact(stakes, seq(|stakes|, _ => 0.0))
  }

  /** A whole stake times a rational index. */
  function Weighted(stake: int, index: real): real {
    stake as real * index
  }

  function LazyPending(z: Lazy, i: nat): real
    requires Shaped(z) && i < |z.stakes|
  {
    z.credits[i] + Weighted(z.stakes[i], z.index) - z.debt[i]
  }

  function Settle(z: Lazy, i: nat): (r: Lazy)
    requires Shaped(z) && i < |z.stakes|
    ensures Shaped(r) && r.stakes == z.stakes
  {
    z.(credits := z.credits[i := LazyPending(z, i)], debt := z.debt[i := Weighted(z.stakes[i], z.index)])
  }

  /** The new state and whether the operation went through; claims are no part of this model. */
  function LazyStep(z: Lazy, op: Op): (r: (Lazy, bool))
    requires Shaped(z) && op.account < |z.stakes|
    ensures Shaped(r.0) && |r.0.stakes| == |z.stakes|
  {
    var i := op.account;
    match op
    case SetStake(_, value) =>
      if value < 0 then (z, false) else
      var settled := Settle(z, i);
      (settled.(total := z.total + (value - z.stakes[i]), stakes := z.stakes[i := value],
                debt := settled.debt[i := Weighted(value, z.index)]), true)
    case Post(_, fee) =>
      var eligible := z.total - z.stakes[i];
      if fee <= 0 || eligible == 0 then (z, false) else
      var settled := Settle(z, i);
      var index := z.index + fee as real / eligible as real;
      (settled.(index := index, debt := settled.debt[i := Weighted(z.stakes[i], index)],
                lastPostAccountsWritten := 1), true)
    case Claim(_) => (z, true)
  }

  function FeeShare(fee: int, stake: int, eligible: int): real
    requires eligible != 0
  {
    (fee * stake) as real / eligible as real
  }

  function ExactShare(stakes: seq<int>, i: nat, payer: nat, fee: int, eligible: int): real
    requires i < |stakes| && eligible != 0
  {
    if i == payer then 0.0 else FeeShare(fee, stakes[i], eligible)
  }

  function ExactCredited(credits: seq<real>, stakes: seq<int>, payer: nat, fee: int, eligible: int): (r: seq<real>)
    requires |credits| == |stakes| && eligible != 0
    ensures |r| == |credits|
  {
    seq(|credits|, i requires 0 <= i < |credits| =>
      credits[i] + ExactShare(stakes, i, payer, fee, eligible))
  }

  function ExactStep(e: Exact, op: Op): (r: (Exact, bool))
    requires |e.stakes| == |e.credits| && op.account < |e.stakes|
    ensures |r.0.stakes| == |r.0.credits| == |e.stakes|
  {
    match op
    case SetStake(i, value) => (e.(stakes := e.stakes[i := value]), true)
    case Post(payer, fee) =>
      var eligible := Sum(Others(e.stakes, payer));
      if eligible == 0 then (e, false)
      else (e.(credits := ExactCredited(e.credits, e.stakes, payer, fee, eligible)), true)
    case Claim(_) => (e, true)
  }

  function LazyRun(z: Lazy, ops: seq<Op>): (r: Lazy)
    requires Shaped(z) && AccountsBelow(ops, |z.stakes|)
    ensures Shaped(r) && |r.stakes| == |z.stakes|
  {
    if ops == [] then z else LazyStep(LazyRun(z, ops[..|ops| - 1]), ops[|ops| - 1]).0
  }

  predicate LazyAccepts(z: Lazy, ops: seq<Op>)
    requires Shaped(z) && AccountsBelow(ops, |z.stakes|)
  {
    ops == [] || (LazyAccepts(z, ops[..|ops| - 1]) && LazyStep(LazyRun(z, ops[..|ops| - 1]), ops[|ops| - 1]).1)
  }

  function ExactRun(e: Exact, ops: seq<Op>): (r: Exact)
    requires |e.stakes| == |e.credits| && AccountsBelow(ops, |e.stakes|)
    ensures |r.stakes| == |r.credits| == |e.stakes|
  {
    if ops == [] then e else ExactStep(ExactRun(e, ops[..|ops| - 1]), ops[|ops| - 1]).0
  }

  function FeesPaid(ops: seq<Op>): int {
    if ops == [] then 0 else
    FeesPaid(ops[..|ops| - 1]) + if ops[|ops| - 1].Post? then ops[|ops| - 1].fee else 0
  }

  ghost predicate NonNegative(stakes: seq<int>) {
    forall i :: 0 <= i < |stakes| ==> 0 <= stakes[i]
  }

  ghost predicate ExactlyRefines(z: Lazy, e: Exact) {
    && Shaped(z) && NonNegative(z.stakes) && z.total == Sum(z.stakes)
    && e.stakes == z.stakes && |e.credits| == |z.stakes|
    && (forall i: nat :: i < |z.stakes| ==> LazyPending(z, i) == e.credits[i])
    && forall i :: 0 <= i < |e.credits| ==> 0.0 <= e.credits[i]
  }

  lemma EligibleNonNegative(stakes: seq<int>, payer: nat)
    requires NonNegative(stakes) && payer < |stakes|
    ensures 0 <= Sum(stakes) - stakes[payer] == Sum(Others(stakes, payer))
  {
    SumNonNegative(stakes);
    SumUpdate(stakes, payer, 0);
  }

  lemma Share(stake: int, index: real, fee: int, eligible: int)
    requires 0 <= stake && 0 < fee && 0 < eligible
    ensures stake as real * (index + fee as real / eligible as real)
         == stake as real * index + (fee * stake) as real / eligible as real
    ensures 0.0 <= (fee * stake) as real / eligible as real
         == stake as real * (fee as real / eligible as real)
  {
    var s, f, e := stake as real, fee as real, eligible as real;
    assert (fee * stake) as real == f * s;
    assert s * (f / e) == (f * s) / e;
    assert 0.0 <= f * s;
    assert s * (index + f / e) == s * index + s * (f / e);
  }

  lemma ShareOfOthers(stakes: seq<int>, i: nat, payer: nat, fee: int, eligible: int)
    requires i < |stakes| && 0 <= stakes[i] && payer < |stakes| && 0 < fee && 0 < eligible
    ensures 0.0 <= ExactShare(stakes, i, payer, fee, eligible)
         == Others(stakes, payer)[i] as real * (fee as real / eligible as real)
  {
    if i != payer {
      Share(stakes[i], 0.0, fee, eligible);
    }
  }

  /** The shares of one post add up to the fee. */
  lemma ExactCreditedSum(credits: seq<real>, stakes: seq<int>, payer: nat, fee: int)
    requires |credits| == |stakes| && payer < |stakes| && NonNegative(stakes)
    requires 0 < fee && 0 < Sum(stakes) - stakes[payer]
    ensures var shared := ExactCredited(credits, stakes, payer, fee, Sum(stakes) - stakes[payer]);
      && SumReal(shared) == SumReal(credits) + fee as real
      && forall i :: 0 <= i < |credits| ==> credits[i] <= shared[i]
  {
    var eligible, others := Sum(stakes) - stakes[payer], Others(stakes, payer);
    var shared := ExactCredited(credits, stakes, payer, fee, eligible);
    var share := fee as real / eligible as real;
    SumUpdate(stakes, payer, 0);
    forall i: nat | i < |credits| ensures shared[i] == credits[i] + others[i] as real * share && credits[i] <= shared[i] {
      ShareOfOthers(stakes, i, payer, fee, eligible);
    }
    SumRealAffine(credits, others, share, shared);
    WholeFee(fee, eligible);
  }

  lemma ExactPostRefines(z: Lazy, e: Exact, payer: nat, fee: int)
    requires ExactlyRefines(z, e) && payer < |z.stakes| && LazyStep(z, Post(payer, fee)).1
    ensures var (e', ok) := ExactStep(e, Post(payer, fee));
      ok && ExactlyRefines(LazyStep(z, Post(payer, fee)).0, e') && SumReal(e'.credits) == SumReal(e.credits) + fee as real
  {
    EligibleNonNegative(z.stakes, payer);
    PostPending(z, payer, fee);
    ExactCreditedSum(e.credits, z.stakes, payer, fee);
  }

  lemma ExactStepRefines(z: Lazy, e: Exact, op: Op)
    requires ExactlyRefines(z, e) && op.account < |z.stakes| && LazyStep(z, op).1
    ensures ExactStep(e, op).1 && ExactlyRefines(LazyStep(z, op).0, ExactStep(e, op).0)
    ensures SumReal(ExactStep(e, op).0.credits) == SumReal(e.credits) + if op.Post? then op.fee as real else 0.0
  {
    match op
    case SetStake(i, value) => SumUpdate(z.stakes, i, value);
    case Post(payer, fee) => ExactPostRefines(z, e, payer, fee);
    case Claim(_) =>
  }

  lemma WholeFee(fee: int, eligible: int)
    requires 0 < eligible
    ensures eligible as real * (fee as real / eligible as real) == fee as real
  {
  }

  /** A post adds each other account its share and leaves the payer's pending amount alone. */
  lemma PostPending(z: Lazy, payer: nat, fee: int)
    requires Shaped(z) && NonNegative(z.stakes) && z.total == Sum(z.stakes)
    requires payer < |z.stakes| && LazyStep(z, Post(payer, fee)).1
    ensures var t, eligible := LazyStep(z, Post(payer, fee)).0, z.total - z.stakes[payer];
      && 0 < eligible && t.stakes == z.stakes && t.total == z.total
      && forall i: nat :: i < |z.stakes| ==>
           LazyPending(t, i) == LazyPending(z, i) + ExactShare(z.stakes, i, payer, fee, eligible)
  {
    EligibleNonNegative(z.stakes, payer);
    var eligible := z.total - z.stakes[payer];
    forall i: nat | i < |z.stakes|
      ensures LazyPending(LazyStep(z, Post(payer, fee)).0, i)
           == LazyPending(z, i) + ExactShare(z.stakes, i, payer, fee, eligible)
    {
      Share(z.stakes[i], z.index, fee, eligible);
    }
  }

  lemma {:induction false} ExactRunRefines(stakes: seq<int>, ops: seq<Op>)
    requires NonNegative(stakes) && AccountsBelow(ops, |stakes|) && LazyAccepts(LazyFresh(stakes), ops)
    ensures ExactlyRefines(LazyRun(LazyFresh(stakes), ops), ExactRun(ExactFresh(stakes), ops))
    ensures SumReal(ExactRun(ExactFresh(stakes), ops).credits) == FeesPaid(ops) as real
  {
    if ops == [] {
      SumRealAffine(ExactFresh(stakes).credits, seq(|stakes|, _ => 0), 0.0, ExactFresh(stakes).credits);
      ZeroSum(ExactFresh(stakes).credits);
    } else {
      var before, op := ops[..|ops| - 1], ops[|ops| - 1];
      ExactRunRefines(stakes, before);
      ExactStepRefines(LazyRun(LazyFresh(stakes), before), ExactRun(ExactFresh(stakes), before), op);
    }
  }

  lemma {:induction false} ZeroSum(s: seq<real>)
    requires forall i :: 0 <= i < |s| ==> s[i] == 0.0
    ensures SumReal(s) == 0.0
  {
    if s != [] {
      ZeroSum(s[..|s| - 1]);
    }
  }

  function LazyPendings(z: Lazy): (r: seq<real>)
    requires Shaped(z)
    ensures |r| == |z.stakes|
  {
    seq(|z.stakes|, i requires 0 <= i < |z.stakes| => LazyPending(z, i))
  }

  /** On every accepted run the two exact forms agree, and what is pending is exactly the fees paid in. */
  lemma ExactFormsAgree(stakes: seq<int>, ops: seq<Op>)
    requires NonNegative(stakes) && AccountsBelow(ops, |stakes|) && LazyAccepts(LazyFresh(stakes), ops)
    ensures LazyPendings(LazyRun(LazyFresh(stakes), ops)) == ExactRun(ExactFresh(stakes), ops).credits
    ensures SumReal(LazyPendings(LazyRun(LazyFresh(stakes), ops))) == FeesPaid(ops) as real
    ensures forall i: nat :: i < |stakes| ==> 0.0 <= LazyPending(LazyRun(LazyFresh(stakes), ops), i)
  {
    ExactRunRefines(stakes, ops);
  }

  // The rounding gap.

  /** The account's stake, summed over the posts of a run that others paid for. */
  function StakeOverOthersPosts(stakes: seq<int>, ops: seq<Op>, i: nat): int
    requires AccountsBelow(ops, |stakes|) && i < |stakes|
  {
    if ops == [] then 0 else
    var before, op := ops[..|ops| - 1], ops[|ops| - 1];
    StakeOverOthersPosts(stakes, before, i) +
    if op.Post? && op.account != i then StakesAfter(stakes, before)[i] else 0
  }

  lemma OrderFromProduct(a: real, b: real, e: real)
    requires 0.0 < e && a * e <= b * e
    ensures a <= b
  {
  }

  lemma DivideBounds(x: real, e: real, low: real, high: real)
    requires 0.0 < e && low * e <= x <= high * e
    ensures low <= x / e <= high
  {
    assert x / e * e == x;
    OrderFromProduct(low, x / e, e);
    OrderFromProduct(x / e, high, e);
  }

  lemma FloorRatio(x: int, eligible: int, d: int)
    requires 0 < eligible && d * eligible <= x < d * eligible + eligible
    ensures d as real <= x as real / eligible as real <= d as real + 1.0
  {
    RealProduct(d, eligible);
    RealProduct(d + 1, eligible);
    assert (d + 1) * eligible == d * eligible + eligible;
    DivideBounds(x as real, eligible as real, d as real, (d + 1) as real);
  }

  lemma RealProduct(a: int, b: int)
    ensures (a * b) as real == a as real * b as real
  {
  }

  lemma ScaleBounds(s: real, low: real, mid: real, high: real)
    requires 0.0 <= s && low <= mid <= high
    ensures s * low <= s * mid <= s * high
  {
  }

  lemma ScaledRatio(s: real, f: real, e: real)
    requires e != 0.0
    ensures s * ((f * Q as real) / e) == Q as real * ((f * s) / e)
  {
    assert (f * Q as real) / e == Q as real * (f / e);
    assert (f * s) / e == s * (f / e);
  }

  /** One post: flooring the global increment costs an account less than its stake. */
  lemma FlooredShare(stake: int, fee: int, eligible: int)
    requires 0 <= stake && 0 < fee && 0 < eligible
    ensures var exact := Q as real * ((fee * stake) as real / eligible as real);
      var floored := (stake * (fee * Q / eligible)) as real;
      floored <= exact <= floored + stake as real
  {
    var x, d := fee * Q, fee * Q / eligible;
    Quotient(x, eligible);
    FloorRatio(x, eligible, d);
    var s := stake as real;
    ScaleBounds(s, d as real, x as real / eligible as real, d as real + 1.0);
    ScaledRatio(s, fee as real, eligible as real);
    assert x as real == fee as real * Q as real;
    assert (fee * stake) as real == fee as real * s;
    assert (stake * d) as real == s * d as real;
    assert s * (d as real + 1.0) == s * d as real + s;
  }

  /** What the bounded-integer model accepts, the exact one accepts too. */
  lemma {:induction false} AcceptedExactly(stakes: seq<int>, ops: seq<Op>)
    requires Admissible(stakes) && AccountsBelow(ops, |stakes|) && Accepts(Fresh(stakes).value, ops)
    ensures NonNegative(stakes) && LazyAccepts(LazyFresh(stakes), ops)
    ensures var z := LazyRun(LazyFresh(stakes), ops);
      z.stakes == StakesAfter(stakes, ops) && z.total == Sum(z.stakes) && NonNegative(z.stakes)
  {
    var start := Fresh(stakes).value;
    if ops != [] {
      var before, op := ops[..|ops| - 1], ops[|ops| - 1];
      AcceptedExactly(stakes, before);
      if stakes != [] {
        EarnedIsHeldOrClaimed(stakes, before, 0);
      }
      var s := RunAll(start, before);
      assert Solvent(s);
      match op
      case SetStake(i, value) =>
        SetStakeSolvent(s, i, value);
        SumUpdate(s.stakes, i, value);
      case Post(payer, fee) => PostDecision(s, payer, fee);
      case Claim(_) =>
    }
  }

  /** The bounds survive one operation, whatever it is. */
  lemma GapStep(z: Lazy, op: Op, i: nat, accrued: int, slack: int)
    requires Shaped(z) && NonNegative(z.stakes) && z.total == Sum(z.stakes)
    requires op.account < |z.stakes| && i < |z.stakes| && LazyStep(z, op).1
    requires accrued as real <= Q as real * LazyPending(z, i) <= (accrued + slack) as real
    ensures var exact := Q as real * LazyPending(LazyStep(z, op).0, i);
      var more := slack + if op.Post? && op.account != i then z.stakes[i] else 0;
      (accrued + Earned(z.stakes, op, i)) as real <= exact <= (accrued + Earned(z.stakes, op, i) + more) as real
  {
    if op.Post? {
      PostPending(z, op.account, op.fee);
      var eligible := z.total - z.stakes[op.account];
      FlooredShare(z.stakes[i], op.fee, eligible);
      assert Q as real * (LazyPending(z, i) + ExactShare(z.stakes, i, op.account, op.fee, eligible))
          == Q as real * LazyPending(z, i) + Q as real * ExactShare(z.stakes, i, op.account, op.fee, eligible);
    } else if op.SetStake? {
      assert LazyPending(LazyStep(z, op).0, i) == LazyPending(z, i);
    }
  }

  lemma {:induction false} AccruedWithinGap(stakes: seq<int>, ops: seq<Op>, i: nat)
    requires Admissible(stakes) && AccountsBelow(ops, |stakes|) && Accepts(Fresh(stakes).value, ops) && i < |stakes|
    ensures LazyAccepts(LazyFresh(stakes), ops)
    ensures var exact := Q as real * LazyPending(LazyRun(LazyFresh(stakes), ops), i);
      Accrued(stakes, ops, i) as real <= exact
      <= (Accrued(stakes, ops, i) + StakeOverOthersPosts(stakes, ops, i)) as real
  {
    AcceptedExactly(stakes, ops);
    if ops != [] {
      var before, op := ops[..|ops| - 1], ops[|ops| - 1];
      AccruedWithinGap(stakes, before, i);
      AcceptedExactly(stakes, before);
      GapStep(LazyRun(LazyFresh(stakes), before), op, i,
              Accrued(stakes, before, i), StakeOverOthersPosts(stakes, before, i));
    }
  }

  lemma AccruedTotalPost(s: State, payer: nat, fee: int, accrued: seq<int>)
    requires Solvent(s) && payer < |s.stakes| == |accrued| && Postable(s, payer, fee)
    ensures Sum(Credited(accrued, s.stakes, payer, Increment(s.stakes, payer, fee))) + Posted(s, payer, fee).unassigned
         == Sum(accrued) + s.unassigned + fee * Q
  {
    var delta := Increment(s.stakes, payer, fee);
    CreditedSum(accrued, s.stakes, payer, delta);
    assert (Sum(s.stakes) - s.stakes[payer]) * delta == delta * (s.total - s.stakes[payer]);
  }

  lemma AccruedTotalStep(s: State, op: Op, accrued: seq<int>)
    requires Solvent(s) && op.account < |s.stakes| && Step(s, op).1.Ok? && |accrued| == |s.stakes|
    ensures var earned := seq(|accrued|, i requires 0 <= i < |accrued| => accrued[i] + Earned(s.stakes, op, i));
      Sum(earned) + Step(s, op).0.unassigned
      == Sum(accrued) + s.unassigned + if op.Post? then op.fee * Q else 0
  {
    var earned := seq(|accrued|, i requires 0 <= i < |accrued| => accrued[i] + Earned(s.stakes, op, i));
    match op
    case SetStake(i, value) =>
      SetStakeSolvent(s, i, value);
      assert earned == accrued;
    case Post(payer, fee) =>
      PostDecision(s, payer, fee);
      AccruedTotalPost(s, payer, fee, accrued);
      assert earned == Credited(accrued, s.stakes, payer, Increment(s.stakes, payer, fee));
    case Claim(i) =>
      ClaimSolvent(s, i);
      assert earned == accrued;
  }

  lemma AllAccruedSnoc(stakes: seq<int>, ops: seq<Op>)
    requires AccountsBelow(ops, |stakes|) && ops != []
    ensures var before, op := ops[..|ops| - 1], ops[|ops| - 1];
      AllAccrued(stakes, ops) == seq(|stakes|, i requires 0 <= i < |stakes| =>
        AllAccrued(stakes, before)[i] + Earned(StakesAfter(stakes, before), op, i))
  {
  }

  /** The stakes are the same on both sides, so the floored earnings and the remainder make up the fees. */
  lemma {:induction false} AccruedTotal(stakes: seq<int>, ops: seq<Op>)
    requires Admissible(stakes) && AccountsBelow(ops, |stakes|) && Accepts(Fresh(stakes).value, ops)
    ensures Sum(AllAccrued(stakes, ops)) + RunAll(Fresh(stakes).value, ops).unassigned == FeesPaid(ops) * Q
  {
    if ops == [] {
      SumZero(AllAccrued(stakes, ops));
    } else {
      var before, op := ops[..|ops| - 1], ops[|ops| - 1];
      AccruedTotal(stakes, before);
      EarnedIsHeldOrClaimed(stakes, before, 0);
      var s, accrued := RunAll(Fresh(stakes).value, before), AllAccrued(stakes, before);
      AccruedTotalStep(s, op, accrued);
      AllAccruedSnoc(stakes, ops);
      OneMoreFee(FeesPaid(before), if op.Post? then op.fee else 0);
    }
  }

  lemma OneMoreFee(fees: int, fee: int)
    ensures (fees + fee) * Q == fees * Q + fee * Q
  {
  }

  function AllAccrued(stakes: seq<int>, ops: seq<Op>): (r: seq<int>)
    requires AccountsBelow(ops, |stakes|)
    ensures |r| == |stakes|
  {
    seq(|stakes|, i requires 0 <= i < |stakes| => Accrued(stakes, ops, i))
  }

  /** How far the held and claimed entitlement of an account falls short of the exact ideal, in scaled units. */
  function Gap(stakes: seq<int>, ops: seq<Op>, i: nat): real
    requires Admissible(stakes) && AccountsBelow(ops, |stakes|) && i < |stakes|
  {
    var start := Fresh(stakes).value;
    Q as real * LazyPending(LazyRun(LazyFresh(stakes), ops), i)
    - (Entitlement(RunAll(start, ops), i) + ClaimedBy(start, ops, i) * Q) as real
  }

  lemma GapIsShortfall(stakes: seq<int>, ops: seq<Op>, i: nat)
    requires Admissible(stakes) && AccountsBelow(ops, |stakes|) && Accepts(Fresh(stakes).value, ops) && i < |stakes|
    ensures Gap(stakes, ops, i) ==
      Q as real * LazyPending(LazyRun(LazyFresh(stakes), ops), i) - Accrued(stakes, ops, i) as real
    ensures 0.0 <= Gap(stakes, ops, i) <= StakeOverOthersPosts(stakes, ops, i) as real
  {
    EarnedIsHeldOrClaimed(stakes, ops, i);
    AccruedWithinGap(stakes, ops, i);
  }

  function Gaps(stakes: seq<int>, ops: seq<Op>): (r: seq<real>)
    requires Admissible(stakes) && AccountsBelow(ops, |stakes|)
    ensures |r| == |stakes|
  {
    seq(|stakes|, i requires 0 <= i < |stakes| => Gap(stakes, ops, i))
  }

  /**
   The bounded-integer model only ever rounds down, never by more than the account's
   stake per post it did not pay for, and the losses add up to the unassigned remainder.
   */
  lemma RoundingGap(stakes: seq<int>, ops: seq<Op>)
    requires Admissible(stakes) && AccountsBelow(ops, |stakes|) && Accepts(Fresh(stakes).value, ops)
    ensures forall i: nat :: i < |stakes| ==>
      0.0 <= Gap(stakes, ops, i) <= StakeOverOthersPosts(stakes, ops, i) as real
    ensures SumReal(Gaps(stakes, ops)) == RunAll(Fresh(stakes).value, ops).unassigned as real
  {
    forall i: nat | i < |stakes|
      ensures 0.0 <= Gap(stakes, ops, i) <= StakeOverOthersPosts(stakes, ops, i) as real
    {
      GapIsShortfall(stakes, ops, i);
    }
    var pendings, accrued := LazyPendings(LazyRun(LazyFresh(stakes), ops)), AllAccrued(stakes, ops);
    GapsAreShortfalls(stakes, ops, pendings, accrued);
    AcceptedExactly(stakes, ops);
    ExactFormsAgree(stakes, ops);
    AccruedTotal(stakes, ops);
    ShortfallsTotal(pendings, accrued, FeesPaid(ops), RunAll(Fresh(stakes).value, ops).unassigned);
  }

  /** The gaps, from the exact ideal and the floored earnings alone. */
  function Shortfalls(pendings: seq<real>, accrued: seq<int>, scale: real): (r: seq<real>)
    requires |pendings| == |accrued|
    ensures |r| == |pendings|
  {
    seq(|pendings|, i requires 0 <= i < |pendings| => scale * pendings[i] - accrued[i] as real)
  }

  lemma ShortfallsTotal(pendings: seq<real>, accrued: seq<int>, fees: int, unassigned: int)
    requires |pendings| == |accrued|
    requires SumReal(pendings) == fees as real && Sum(accrued) + unassigned == fees * Q
    ensures SumReal(Shortfalls(pendings, accrued, Q as real)) == unassigned as real
  {
    SumRealMinus(pendings, accrued, Shortfalls(pendings, accrued, Q as real), Q as real);
    RealProduct(fees, Q);
  }

  lemma GapsAreShortfalls(stakes: seq<int>, ops: seq<Op>, pendings: seq<real>, accrued: seq<int>)
    requires Admissible(stakes) && AccountsBelow(ops, |stakes|) && Accepts(Fresh(stakes).value, ops)
    requires pendings == LazyPendings(LazyRun(LazyFresh(stakes), ops)) && accrued == AllAccrued(stakes, ops)
    ensures Gaps(stakes, ops) == Shortfalls(pendings, accrued, Q as real)
  {
    forall i: nat | i < |stakes|
      ensures Gap(stakes, ops, i) == Q as real * pendings[i] - accrued[i] as real
    {
      GapIsShortfall(stakes, ops, i);
    }
  }
}
