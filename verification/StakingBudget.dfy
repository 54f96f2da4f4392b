/** The closed-form post horizon, and the proof that it is neither too long nor too short. */
module StakingBudget {
  import opened StakingFixed
  import opened StakingCheckpoint
  import opened Wrappers

  datatype BudgetError = NonnegativeInteger | FeeOrEligibleRange | CounterRange

  datatype Counter = IndexCounter | FundedCounter

  datatype Report =
    | NoIncrement
    | Horizon(admitted: bool, increment: int, unassignedPerPost: int, unassignedUnits: real, unassignedShare: real,
              indexPosts: int, fundingPosts: int, posts: int, limiting: seq<Counter>)

  datatype BudgetResult = Budgeted(report: Report) | OutOfRange(error: BudgetError)

  function Min(a: int, b: int): int {
    if a <= b then a else b
  }

  function Budget(fee: int, eligible: int, index: int, funded: int): (r: BudgetResult) {
    if fee < 0 || eligible < 0 || index < 0 || funded < 0 then OutOfRange(NonnegativeInteger)
    else if !(0 < fee <= MAX / Q) || !(0 < eligible <= TOTAL_CAP) then OutOfRange(FeeOrEligibleRange)
    else if index > INDEX_CAP || funded > MAX then OutOfRange(CounterRange)
    else
      var scaled := fee * Q;
      var increment, remainder := scaled / eligible, scaled % eligible;
      if increment == 0 then Budgeted(NoIncrement) else
      var indexPosts, fundingPosts := (INDEX_CAP - index) / increment, (MAX - funded) / scaled;
      var posts := Min(indexPosts, fundingPosts);
      Budgeted(Horizon(posts > 0, increment, remainder, remainder as real / Q as real, remainder as real / scaled as real,
        indexPosts, fundingPosts, posts,
        (if indexPosts == posts then [IndexCounter] else []) +
        (if fundingPosts == posts then [FundedCounter] else [])))
  }

  /** Every post of a run has the same fee, and at its moment leaves the same eligible stake. */
  predicate Steady(s: State, ops: seq<Op>, fee: int, eligible: int)
    requires WellShaped(s) && AccountsBelow(ops, |s.stakes|)
  {
    ops == [] ||
    var last := |ops| - 1;
    Steady(s, ops[..last], fee, eligible) && SteadyOp(RunAll(s, ops[..last]), ops[last], fee, eligible)
  }

  predicate SteadyOp(t: State, op: Op, fee: int, eligible: int)
    requires Names(t, op.account)
  {
    op.Post? ==> op.fee == fee && t.total - t.stakes[op.account] == eligible
  }

  /** The posts a run attempts, and those among them that are accepted. */
  function Attempted(ops: seq<Op>): (r: nat)
    ensures r <= |ops|
  {
    if ops == [] then 0 else Attempted(ops[..|ops| - 1]) + if ops[|ops| - 1].Post? then 1 else 0
  }

  function Admitted(s: State, ops: seq<Op>): (r: nat)
    requires WellShaped(s) && AccountsBelow(ops, |s.stakes|)
  {
    if ops == [] then 0 else
    var last := |ops| - 1;
    Admitted(s, ops[..last]) + if ops[last].Post? && Step(RunAll(s, ops[..last]), ops[last]).1.Ok? then 1 else 0
  }

  lemma FloorBound(room: int, unit: int, k: int)
    requires 0 < unit
    ensures k <= room / unit <==> k * unit <= room
  {
    var q := room / unit;
    assert q * unit <= room < q * unit + unit;
    if k <= q {
      assert k * unit <= q * unit;
    } else {
      assert (q + 1) * unit <= k * unit;
    }
  }

  lemma NextPost(t: State, payer: nat, fee: int, eligible: int)
    requires Solvent(t) && payer < |t.stakes| && t.total - t.stakes[payer] == eligible
    requires 0 < fee <= MAX / Q && 0 < eligible && 0 < fee * Q / eligible
    requires t.index + fee * Q / eligible <= INDEX_CAP && t.funded + fee * Q <= MAX
    ensures var (u, r) := PostStep(t, payer, fee);
      && r.Ok? && u.index == t.index + fee * Q / eligible && u.funded == t.funded + fee * Q
      && u.unassigned == t.unassigned + fee * Q % eligible
  {
    PostDecision(t, payer, fee);
    assert fee * Q == fee * Q / eligible * eligible + fee * Q % eligible;
  }

  /** A state k posts later: three counters have moved by k equal steps. */
  ghost predicate Later(s: State, t: State, k: nat, increment: int, scaled: int, remainder: int) {
    && Solvent(t)
    && t.index == s.index + k * increment
    && t.funded == s.funded + k * scaled
    && t.unassigned == s.unassigned + k * remainder
  }

  /** Claims and stake changes leave the counters alone. */
  lemma CountersStay(t: State, op: Op)
    requires Solvent(t) && op.account < |t.stakes| && !op.Post?
    ensures var u := Step(t, op).0;
      Solvent(u) && (u.index, u.funded, u.unassigned) == (t.index, t.funded, t.unassigned)
  {
    match op
    case SetStake(i, value) => SetStakeSolvent(t, i, value);
    case Claim(i) => ClaimSolvent(t, i);
  }

  lemma OneMore(k: nat, unit: int)
    ensures (k + 1) * unit == k * unit + unit
  {
  }

  lemma CounterHorizon(room: int, unit: int, posts: int)
    requires 0 < unit && posts <= room / unit
    ensures posts * unit <= room
    ensures room / unit < posts + 1 <==> room < (posts + 1) * unit
  {
    FloorBound(room, unit, posts);
    FloorBound(room, unit, posts + 1);
  }

  lemma HorizonFields(fee: int, eligible: int, index: int, funded: int)
    requires Budget(fee, eligible, index, funded).Budgeted? && Budget(fee, eligible, index, funded).report.Horizon?
    ensures var report := Budget(fee, eligible, index, funded).report;
      && 0 < fee <= MAX / Q && 0 < eligible && 0 <= index <= INDEX_CAP && 0 <= funded <= MAX
      && 0 < report.increment == fee * Q / eligible && report.unassignedPerPost == fee * Q % eligible
      && report.unassignedUnits * Q as real == report.unassignedPerPost as real
      && 0.0 <= report.unassignedShare < 1.0 && report.unassignedShare * fee as real == report.unassignedUnits
      && report.indexPosts == (INDEX_CAP - index) / report.increment
      && report.fundingPosts == (MAX - funded) / (fee * Q)
      && 0 <= report.posts == Min(report.indexPosts, report.fundingPosts) && (report.admitted <==> 0 < report.posts)
      && (IndexCounter in report.limiting <==> report.indexPosts < report.posts + 1)
      && (FundedCounter in report.limiting <==> report.fundingPosts < report.posts + 1)
      && report.limiting != []
  {
    var report := Budget(fee, eligible, index, funded).report;
    LimitingMeaning(report.indexPosts, report.fundingPosts);
    UnassignedFractions(fee, eligible);
    FloorBound(INDEX_CAP - index, report.increment, 0);
    FloorBound(MAX - funded, fee * Q, 0);
  }

  /** What a post leaves unassigned is less than its fee, once the increment is positive. */
  lemma UnassignedFractions(fee: int, eligible: int)
    requires 0 < fee && 0 < eligible && 0 < fee * Q / eligible
    ensures var remainder, scaled := (fee * Q % eligible) as real, (fee * Q) as real;
      && 0.0 <= remainder / scaled < 1.0
      && remainder / scaled * fee as real == remainder / Q as real && remainder / Q as real * Q as real == remainder
  {
    var remainder, scaled := fee * Q % eligible, fee * Q;
    assert eligible <= scaled;
    var r, f, q := remainder as real, fee as real, Q as real;
    assert scaled as real == f * q;
    Cancel(r, f, q);
    Below(r, scaled as real);
  }

  lemma Cancel(r: real, f: real, q: real)
    requires 0.0 < f && 0.0 < q
    ensures f * q != 0.0 && r / (f * q) * f == r / q && r / q * q == r
  {
    var x := r / q;
    assert r == x * q;
    assert r / (f * q) * (f * q) == r;
    assert (r / (f * q) * f) * q == r / (f * q) * (f * q);
  }

  lemma Below(r: real, s: real)
    requires 0.0 <= r < s
    ensures 0.0 <= r / s < 1.0
  {
    assert r / s * s == r;
  }

  /** What the horizon promises in terms of the index counter, both ways. */
  lemma IndexHorizon(fee: int, eligible: int, index: int, funded: int, report: Report)
    requires Budget(fee, eligible, index, funded) == Budgeted(report) && report.Horizon?
    ensures index + report.posts * report.increment <= INDEX_CAP
    ensures IndexCounter in report.limiting <==> index + (report.posts + 1) * report.increment > INDEX_CAP
  {
    HorizonFields(fee, eligible, index, funded);
    CounterHorizon(INDEX_CAP - index, report.increment, report.posts);
  }

  /** The same for the funded counter. */
  lemma FundedHorizon(fee: int, eligible: int, index: int, funded: int, report: Report)
    requires Budget(fee, eligible, index, funded) == Budgeted(report) && report.Horizon?
    ensures funded + report.posts * (fee * Q) <= MAX
    ensures FundedCounter in report.limiting <==> funded + (report.posts + 1) * (fee * Q) > MAX
  {
    HorizonFields(fee, eligible, index, funded);
    CounterHorizon(MAX - funded, fee * Q, report.posts);
  }

  lemma LimitingMeaning(indexPosts: int, fundingPosts: int)
    ensures var posts := Min(indexPosts, fundingPosts);
      var limiting := (if indexPosts == posts then [IndexCounter] else []) +
                      (if fundingPosts == posts then [FundedCounter] else []);
      && (IndexCounter in limiting <==> indexPosts < posts + 1)
      && (FundedCounter in limiting <==> fundingPosts < posts + 1)
      && limiting != []
  {
  }

  /** The first half of exactness: short of the horizon a post is accepted, and moves the counters by the reported steps. */
  lemma HorizonIsReached(s: State, t: State, k: nat, payer: nat, fee: int, eligible: int, report: Report)
    requires Budget(fee, eligible, s.index, s.funded) == Budgeted(report) && report.Horizon? && k < report.posts
    requires Later(s, t, k, report.increment, fee * Q, report.unassignedPerPost)
    requires payer < |t.stakes| && t.total - t.stakes[payer] == eligible
    ensures PostStep(t, payer, fee).1.Ok?
    ensures Later(s, PostStep(t, payer, fee).0, k + 1, report.increment, fee * Q, report.unassignedPerPost)
  {
    HorizonFields(fee, eligible, s.index, s.funded);
    IndexHorizon(fee, eligible, s.index, s.funded, report);
    FundedHorizon(fee, eligible, s.index, s.funded, report);
    AtMost(k + 1, report.posts, report.increment);
    AtMost(k + 1, report.posts, fee * Q);
    OneMore(k, report.increment);
    OneMore(k, fee * Q);
    OneMore(k, report.unassignedPerPost);
    NextPost(t, payer, fee, eligible);
    StepSolvent(t, Post(payer, fee));
  }

  lemma AtMost(k: int, m: int, unit: int)
    requires k <= m && 0 <= unit
    ensures k * unit <= m * unit
  {
  }

  /** The second half: the state the horizon ends in refuses one more post, and why. */
  lemma HorizonEnds(s: State, t: State, payer: nat, fee: int, eligible: int, report: Report)
    requires Budget(fee, eligible, s.index, s.funded) == Budgeted(report) && report.Horizon? && 0 <= report.posts
    requires Later(s, t, report.posts, report.increment, fee * Q, report.unassignedPerPost)
    requires payer < |t.stakes| && t.total - t.stakes[payer] == eligible
    ensures IndexCounter in report.limiting <==> t.index + report.increment > INDEX_CAP
    ensures FundedCounter in report.limiting <==> t.funded + fee * Q > MAX
    ensures PostStep(t, payer, fee) == (t, Err(if IndexCounter in report.limiting then IndexCap else Uint256))
  {
    HorizonFields(fee, eligible, s.index, s.funded);
    IndexHorizon(fee, eligible, s.index, s.funded, report);
    FundedHorizon(fee, eligible, s.index, s.funded, report);
    OneMore(report.posts, report.increment);
    OneMore(report.posts, fee * Q);
    RejectedPost(t, payer, fee);
  }

  lemma NothingYet(s: State, fee: int, report: Report)
    requires Solvent(s) && report.Horizon? && 0 <= report.posts
    ensures Counted(s, [], fee, report)
  {
  }

  lemma OtherCounts(s: State, ops: seq<Op>, fee: int, report: Report)
    requires Solvent(s) && AccountsBelow(ops, |s.stakes|) && ops != [] && !ops[|ops| - 1].Post? && report.Horizon?
    requires AccountsBelow(ops[..|ops| - 1], |s.stakes|) && Counted(s, ops[..|ops| - 1], fee, report)
    ensures Counted(s, ops, fee, report)
  {
    hide AccountSound, Entitlements, Step;
    CountersStay(RunAll(s, ops[..|ops| - 1]), ops[|ops| - 1]);
    assert Admitted(s, ops) == Admitted(s, ops[..|ops| - 1]);
  }

  lemma PostCounts(s: State, ops: seq<Op>, fee: int, eligible: int, report: Report)
    requires Solvent(s) && AccountsBelow(ops, |s.stakes|) && ops != [] && ops[|ops| - 1].Post?
    requires Budget(fee, eligible, s.index, s.funded) == Budgeted(report) && report.Horizon? && 0 <= report.posts
    requires AccountsBelow(ops[..|ops| - 1], |s.stakes|) && Counted(s, ops[..|ops| - 1], fee, report)
    requires Steady(s, ops, fee, eligible)
    ensures Counted(s, ops, fee, report)
  {
    hide AccountSound, Budget, PostStep;
    var last := |ops| - 1;
    var t, before := RunAll(s, ops[..last]), ops[..last];
    if Admitted(s, before) < report.posts {
      HorizonIsReached(s, t, Admitted(s, before), ops[last].account, fee, eligible, report);
    } else {
      HorizonEnds(s, t, ops[last].account, fee, eligible, report);
    }
  }

  ghost predicate Counted(s: State, ops: seq<Op>, fee: int, report: Report)
    requires WellShaped(s) && AccountsBelow(ops, |s.stakes|) && report.Horizon?
  {
    && Admitted(s, ops) == Min(Attempted(ops), report.posts)
    && Later(s, RunAll(s, ops), Admitted(s, ops), report.increment, fee * Q, report.unassignedPerPost)
  }

  lemma {:induction false} EveryRunCounts(s: State, ops: seq<Op>, fee: int, eligible: int, report: Report)
    requires Solvent(s) && AccountsBelow(ops, |s.stakes|) && Steady(s, ops, fee, eligible)
    requires Budget(fee, eligible, s.index, s.funded) == Budgeted(report) && report.Horizon?
    ensures Counted(s, ops, fee, report)
  {
    hide AccountSound, Entitlements, Budget, Counted, Step, SteadyOp;
    HorizonFields(fee, eligible, s.index, s.funded);
    if ops == [] {
      NothingYet(s, fee, report);
    } else {
      EveryRunCounts(s, ops[..|ops| - 1], fee, eligible, report);
      if ops[|ops| - 1].Post? {
        PostCounts(s, ops, fee, eligible, report);
      } else {
        OtherCounts(s, ops, fee, report);
      }
    }
  }

  /**
   The horizon is exact. From any solvent state, through any posts of one fee and one
   eligible stake, with claims and stake changes among them, accepted or not: the posts
   accepted are as many as were attempted, up to the reported number and no further, and
   the counters have moved by the reported steps for each of them.
   */
  lemma HorizonIsExact(s: State, ops: seq<Op>, fee: int, eligible: int, report: Report)
    requires Solvent(s) && AccountsBelow(ops, |s.stakes|) && Steady(s, ops, fee, eligible)
    requires Budget(fee, eligible, s.index, s.funded) == Budgeted(report) && report.Horizon?
    ensures Admitted(s, ops) == Min(Attempted(ops), report.posts)
    ensures Later(s, RunAll(s, ops), Admitted(s, ops), report.increment, fee * Q, report.unassignedPerPost)
  {
    EveryRunCounts(s, ops, fee, eligible, report);
  }

  /** Once the horizon is used up the next post is refused, by the index cap if that counter is a limiting one and by the funded cap otherwise. */
  lemma PastTheHorizon(s: State, ops: seq<Op>, next: nat, fee: int, eligible: int, report: Report)
    requires Solvent(s) && AccountsBelow(ops, |s.stakes|) && Steady(s, ops, fee, eligible) && next < |s.stakes|
    requires Budget(fee, eligible, s.index, s.funded) == Budgeted(report) && report.Horizon?
    requires SteadyOp(RunAll(s, ops), Post(next, fee), fee, eligible)
    ensures var t := RunAll(s, ops);
      && (PostStep(t, next, fee).1.Ok? <==> Attempted(ops) < report.posts)
      && (report.posts <= Attempted(ops) ==>
           PostStep(t, next, fee) == (t, Err(if IndexCounter in report.limiting then IndexCap else Uint256)))
  {
    hide AccountSound, Entitlements, Budget, Later, PostStep;
    HorizonFields(fee, eligible, s.index, s.funded);
    HorizonIsExact(s, ops, fee, eligible, report);
    if Attempted(ops) < report.posts {
      HorizonIsReached(s, RunAll(s, ops), Attempted(ops), next, fee, eligible, report);
    } else {
      HorizonEnds(s, RunAll(s, ops), next, fee, eligible, report);
    }
  }

  /** Which inputs the budget refuses, and which of its three reasons it gives. */
  lemma BudgetDecision(fee: int, eligible: int, index: int, funded: int)
    ensures var negative := fee < 0 || eligible < 0 || index < 0 || funded < 0;
      var unusable := fee == 0 || fee * Q > MAX || eligible == 0 || eligible > TOTAL_CAP;
      var b := Budget(fee, eligible, index, funded);
      && (b.OutOfRange? <==> negative || unusable || index > INDEX_CAP || funded > MAX)
      && (b == OutOfRange(NonnegativeInteger) <==> negative)
      && (b == OutOfRange(FeeOrEligibleRange) <==> !negative && unusable)
      && (b.Budgeted? ==> (b.report == NoIncrement <==> fee * Q < eligible))
  {
    FloorBound(MAX, Q, fee);
    if 0 < fee && 0 < eligible {
      BelowOne(fee * Q, eligible);
    }
  }

  lemma BelowOne(n: int, d: int)
    requires 0 <= n && 0 < d
    ensures n / d == 0 <==> n < d
  {
    FloorBound(n, d, 1);
    FloorBound(n, d, 0);
  }

  /** What the budget says of a state is what becomes of the next post: it goes through exactly if it is admitted. */
  lemma AdmittedIsAccepted(s: State, payer: nat, fee: int)
    requires Solvent(s) && payer < |s.stakes|
    ensures var b := Budget(fee, s.total - s.stakes[payer], s.index, s.funded);
      PostStep(s, payer, fee).1.Ok? <==> b.Budgeted? && b.report.Horizon? && b.report.admitted
  {
    var eligible := s.total - s.stakes[payer];
    BudgetDecision(fee, eligible, s.index, s.funded);
    PostDecision(s, payer, fee);
    SolventPending(s, payer);
    assert AccountSound(s, payer);
    if Budget(fee, eligible, s.index, s.funded).Budgeted? && fee * Q >= eligible {
      var increment := fee * Q / eligible;
      BelowOne(fee * Q, eligible);
      HorizonFields(fee, eligible, s.index, s.funded);
      FloorBound(INDEX_CAP - s.index, increment, 1);
      FloorBound(MAX - s.funded, fee * Q, 1);
    }
  }

  /** A report without an increment means that no post at all goes through. */
  lemma NoIncrementMeansNoPost(s: State, payer: nat, fee: int, eligible: int)
    requires Solvent(s) && payer < |s.stakes| && s.total - s.stakes[payer] == eligible
    ensures Budget(fee, eligible, s.index, s.funded) == Budgeted(NoIncrement)
            <==> PostStep(s, payer, fee) == (s, Err(ZeroIncrement))
  {
    FloorBound(MAX, Q, fee);
    SolventPending(s, payer);
    assert AccountSound(s, payer);
    if Postable(s, payer, fee) {
      AcceptedPost(s, payer, fee);
    } else {
      RejectedPost(s, payer, fee);
      BudgetRefusesLikePost(s, payer, fee, eligible);
    }
  }

  lemma BudgetRefusesLikePost(s: State, payer: nat, fee: int, eligible: int)
    requires Names(s, payer) && s.total - s.stakes[payer] == eligible <= TOTAL_CAP
    requires 0 <= s.index <= INDEX_CAP && 0 <= s.funded <= MAX
    requires fee <= MAX / Q <==> fee * Q <= MAX
    ensures Budget(fee, eligible, s.index, s.funded) == Budgeted(NoIncrement)
            <==> 0 < fee && fee * Q <= MAX && 0 < eligible && fee * Q / eligible == 0
    ensures PostRefusal(s, payer, fee) == ZeroIncrement
            <==> 0 < fee && fee * Q <= MAX && 0 < eligible && fee * Q / eligible <= 0
    ensures 0 < fee && 0 < eligible ==> 0 <= fee * Q / eligible
  {
    if 0 < fee && 0 < eligible {
      QuotientNonNegative(fee * Q, eligible);
    }
  }

  lemma QuotientNonNegative(n: int, d: int)
    requires 0 <= n && 0 < d
    ensures 0 <= n / d
  {
  }
}
