/**
 Resetting the index to zero: a frozen copy of the accounting is settled account by
 account, in batches, and continues without anybody's future having changed.
 */
module StakingCheckpoint {
  import opened StakingFixed
  import opened Wrappers

  const BATCH_CAP: int := 64

  datatype CheckpointError = Empty | WrongCursor | BatchLimit | Complete | Incomplete | Overflow

  datatype Outcome<+T> = Done(value: T) | Refused(error: CheckpointError)

  /** source is the frozen copy that is read; target the copy that is settled. */
  datatype Progress = Progress(source: State, target: State, cursor: nat)

  ghost predicate Aligned(p: Progress) {
    && WellShaped(p.source) && WellShaped(p.target)
    && |p.target.stakes| == |p.source.stakes| && p.cursor <= |p.source.stakes|
  }

  function Start(source: State): Outcome<Progress> {
    if source.stakes == [] then Refused(Empty) else Done(Progress(source, source, 0))
  }

  predicate Readable(s: State, from: nat, to: nat)
    requires WellShaped(s) && to <= |s.stakes|
  {
    forall i :: from <= i < to ==> Pending(s, i).Ok?
  }

  /** The target with the accounts of one batch settled: entitlement in the credit, debt cleared. */
  function Settled(p: Progress, end: nat): (t: State)
    requires Aligned(p) && p.cursor <= end <= |p.source.stakes| && Readable(p.source, p.cursor, end)
    ensures WellShaped(t) && |t.stakes| == |p.target.stakes|
  {
    var n := |p.target.stakes|;
    p.target.(
      credit := seq(n, i requires 0 <= i < n =>
        if p.cursor <= i < end then Pending(p.source, i).value else p.target.credit[i]),
      debt := seq(n, i requires 0 <= i < n => if p.cursor <= i < end then 0 else p.target.debt[i]))
  }

  function BatchEnd(p: Progress, limit: int): int {
    if p.cursor + limit < |p.source.stakes| then p.cursor + limit else |p.source.stakes|
  }

  function Advance(p: Progress, expectedCursor: int, limit: int): (r: Outcome<Progress>)
    requires Aligned(p)
    ensures r.Done? ==> Aligned(r.value) && r.value.source == p.source
  {
    if expectedCursor != p.cursor then Refused(WrongCursor)
    else if !(1 <= limit <= BATCH_CAP) then Refused(BatchLimit)
    else if p.cursor == |p.source.stakes| then Refused(Complete)
    else
      var end := BatchEnd(p, limit);
      if !Readable(p.source, p.cursor, end) then Refused(Overflow)
      else Done(Progress(p.source, Settled(p, end), end))
  }

  function Finish(p: Progress): (r: Outcome<State>) {
    if p.cursor != |p.source.stakes| then Refused(Incomplete) else Done(p.target.(index := 0))
  }

  /** The same batches one after another; a refused request leaves the progress as it was. */
  function AdvanceAll(p: Progress, requests: seq<(int, int)>): (r: Progress)
    requires Aligned(p)
    ensures Aligned(r) && r.source == p.source
  {
    if requests == [] then p else
    var before := AdvanceAll(p, requests[..|requests| - 1]);
    var last := requests[|requests| - 1];
    match Advance(before, last.0, last.1)
    case Done(next) => next
    case Refused(_) => before
  }

  /** What a checkpoint of a state has to be, with no mention of batches or cursors. */
  function Normalized(s: State): (t: State)
    requires WellShaped(s)
    ensures WellShaped(t) && |t.stakes| == |s.stakes|
  {
    s.(credit := Entitlements(s), debt := seq(|s.stakes|, _ => 0), index := 0)
  }

  ghost predicate SettledUpTo(p: Progress) {
    && Aligned(p)
    && p.target.(credit := p.source.credit, debt := p.source.debt) == p.source
    && forall i :: 0 <= i < |p.source.stakes| ==>
      if i < p.cursor then p.target.credit[i] == Entitlement(p.source, i) && p.target.debt[i] == 0
      else p.target.credit[i] == p.source.credit[i] && p.target.debt[i] == p.source.debt[i]
  }

  /** From a solvent source a request is refused for its cursor, its size or completion only. */
  lemma AdvanceSettles(p: Progress, expectedCursor: int, limit: int)
    requires SettledUpTo(p) && Solvent(p.source)
    ensures Advance(p, expectedCursor, limit).Done? <==>
            expectedCursor == p.cursor && 1 <= limit <= BATCH_CAP && p.cursor < |p.source.stakes|
    ensures Advance(p, expectedCursor, limit).Done? ==>
            && SettledUpTo(Advance(p, expectedCursor, limit).value)
            && p.cursor < Advance(p, expectedCursor, limit).value.cursor <= p.cursor + limit
            && (Advance(p, expectedCursor, limit).value.cursor < p.cursor + limit ==>
                  Advance(p, expectedCursor, limit).value.cursor == |p.source.stakes|)
    ensures Advance(p, expectedCursor, limit).Refused? ==>
            Advance(p, expectedCursor, limit).error == if expectedCursor != p.cursor then WrongCursor
              else if limit < 1 || limit > 64 then BatchLimit else Complete
  {
    forall i: nat | i < |p.source.stakes| ensures Pending(p.source, i) == Ok(Entitlement(p.source, i)) {
      SolventPending(p.source, i);
    }
  }

  lemma {:induction false} AdvanceAllSettles(p: Progress, requests: seq<(int, int)>)
    requires SettledUpTo(p) && Solvent(p.source)
    ensures SettledUpTo(AdvanceAll(p, requests))
  {
    if requests != [] {
      AdvanceAllSettles(p, requests[..|requests| - 1]);
      var last := requests[|requests| - 1];
      AdvanceSettles(AdvanceAll(p, requests[..|requests| - 1]), last.0, last.1);
    }
  }

  /** However the accounts were split, and whatever was refused on the way, a finished checkpoint is the same. */
  lemma FinishIgnoresBatches(s: State, requests: seq<(int, int)>)
    requires Solvent(s) && s.stakes != []
    ensures Start(s).Done?
    ensures var p := AdvanceAll(Start(s).value, requests);
      Finish(p) == if p.cursor == |s.stakes| then Done(Normalized(s)) else Refused(Incomplete)
  {
    var p := AdvanceAll(Start(s).value, requests);
    AdvanceAllSettles(Start(s).value, requests);
    if p.cursor == |s.stakes| {
      assert p.target.credit == Entitlements(s);
      assert p.target.debt == seq(|s.stakes|, _ => 0);
    }
  }

  /** The requests of one who always asks for the same number of accounts, from where the last request ended. */
  function EvenRequests(limit: nat, count: nat): (r: seq<(int, int)>)
    ensures |r| == count
  {
    seq(count, i requires 0 <= i < count => (i * limit, limit))
  }

  /** Such requests settle exactly so many accounts each, and are accepted for as long as any are left. */
  lemma {:induction false} EvenBatches(s: State, limit: nat, count: nat)
    requires Solvent(s) && s.stakes != [] && 1 <= limit <= 64 && (count - 1) * limit < |s.stakes|
    ensures Start(s).Done?
    ensures AdvanceAll(Start(s).value, EvenRequests(limit, count)).cursor
         == if count * limit < |s.stakes| then count * limit else |s.stakes|
  {
    var start, requests := Start(s).value, EvenRequests(limit, count);
    if count != 0 {
      assert (count - 2) * limit + limit == (count - 1) * limit && (count - 1) * limit + limit == count * limit;
      EvenBatches(s, limit, count - 1);
      assert requests[..count - 1] == EvenRequests(limit, count - 1);
      AdvanceAllSettles(start, requests[..count - 1]);
      AdvanceSettles(AdvanceAll(start, requests[..count - 1]), (count - 1) * limit, limit);
    }
  }

  /** Two states nobody can tell apart, except that the second has at least as much index left. */
  ghost predicate SameFuture(s: State, t: State) {
    && Solvent(s) && Solvent(t)
    && t.stakes == s.stakes && Entitlements(t) == Entitlements(s)
    && (t.funded, t.paid, t.unassigned) == (s.funded, s.paid, s.unassigned)
    && t.index <= s.index
  }

  lemma NormalizedSameFuture(s: State)
    requires Solvent(s)
    ensures SameFuture(s, Normalized(s))
  {
    var t := Normalized(s);
    forall i: nat | i < |s.stakes| ensures AccountSound(t, i) && Entitlement(t, i) == Entitlement(s, i) {
      assert AccountSound(s, i);
      SolventPending(s, i);
    }
    assert Entitlements(t) == Entitlements(s);
  }

  /** Which reason a solvent state gives for refusing a post. */
  function PostRefusal(s: State, payer: nat, fee: int): Error
    requires Names(s, payer)
  {
    var eligible := s.total - s.stakes[payer];
    if fee <= 0 then FeeRange
    else if fee * Q > MAX then Uint256
    else if eligible <= 0 then NoEligibleStake
    else if fee * Q / eligible <= 0 then ZeroIncrement
    else if s.index + fee * Q / eligible > INDEX_CAP then IndexCap
    else Uint256
  }

  lemma AcceptedPost(s: State, payer: nat, fee: int)
    requires Solvent(s) && payer < |s.stakes| && Postable(s, payer, fee)
    ensures PostStep(s, payer, fee) == (Posted(s, payer, fee), Ok(0))
  {
    PostDecision(s, payer, fee);
  }

  lemma RejectedPost(s: State, payer: nat, fee: int)
    requires Solvent(s) && payer < |s.stakes| && !Postable(s, payer, fee)
    ensures PostStep(s, payer, fee) == (s, Err(PostRefusal(s, payer, fee)))
  {
    PostDecision(s, payer, fee);
    SolventPending(s, payer);
  }

  lemma PostedSameFuture(s: State, t: State, payer: nat, fee: int)
    requires SameFuture(s, t) && payer < |s.stakes| && Postable(s, payer, fee)
    ensures Postable(t, payer, fee) && SameFuture(Posted(s, payer, fee), Posted(t, payer, fee))
  {
    PostSolvent(s, payer, fee);
    PostSolvent(t, payer, fee);
  }

  lemma RefusalSameFuture(s: State, t: State, payer: nat, fee: int)
    requires SameFuture(s, t) && payer < |s.stakes| && !Postable(s, payer, fee)
    ensures PostRefusal(s, payer, fee) == IndexCap ||
            (!Postable(t, payer, fee) && PostRefusal(s, payer, fee) == PostRefusal(t, payer, fee))
  {
  }

  lemma PostSameFuture(s: State, t: State, payer: nat, fee: int)
    requires SameFuture(s, t) && payer < |s.stakes|
    ensures PostStep(s, payer, fee).1 == PostStep(t, payer, fee).1 || PostStep(s, payer, fee).1 == Err(IndexCap)
    ensures PostStep(s, payer, fee).1.Ok? ==> SameFuture(PostStep(s, payer, fee).0, PostStep(t, payer, fee).0)
  {
    if Postable(s, payer, fee) {
      PostedSameFuture(s, t, payer, fee);
      AcceptedPost(s, payer, fee);
      AcceptedPost(t, payer, fee);
    } else {
      RefusalSameFuture(s, t, payer, fee);
      RejectedPost(s, payer, fee);
      if !Postable(t, payer, fee) {
        RejectedPost(t, payer, fee);
      }
    }
  }

  /** One operation gets the same answer on both sides, unless the older index was used up. */
  lemma StepSameFuture(s: State, t: State, op: Op)
    requires SameFuture(s, t) && op.account < |s.stakes|
    ensures Step(s, op).1 == Step(t, op).1 || (op.Post? && Step(s, op).1 == Err(IndexCap))
    ensures Step(s, op).1.Ok? ==> SameFuture(Step(s, op).0, Step(t, op).0)
  {
    match op
    case SetStake(i, value) =>
      hide Entitlement;
      SetStakeSolvent(s, i, value);
      SetStakeSolvent(t, i, value);
    case Post(payer, fee) =>
      hide PostStep;
      PostSameFuture(s, t, payer, fee);
    case Claim(i) =>
      ClaimSolvent(s, i);
      ClaimSolvent(t, i);
      assert Entitlement(s, i) == Entitlements(s)[i] == Entitlements(t)[i];
  }

  lemma {:induction false} RunSameFuture(s: State, t: State, ops: seq<Op>)
    requires SameFuture(s, t) && AccountsBelow(ops, |s.stakes|) && Accepts(s, ops)
    ensures Accepts(t, ops) && Results(t, ops) == Results(s, ops)
    ensures SameFuture(RunAll(s, ops), RunAll(t, ops))
  {
    if ops != [] {
      var before, op := ops[..|ops| - 1], ops[|ops| - 1];
      RunSameFuture(s, t, before);
      StepSameFuture(RunAll(s, before), RunAll(t, before), op);
    }
  }

  /**
   Continuing after a checkpoint is safe: whatever the source would have accepted, the
   finished state accepts with the same results, entitlements and pools throughout.
   */
  lemma ContinuingIsSafe(s: State, requests: seq<(int, int)>, ops: seq<Op>)
    requires Solvent(s) && s.stakes != [] && AccountsBelow(ops, |s.stakes|) && Accepts(s, ops)
    requires Finish(AdvanceAll(Start(s).value, requests)).Done?
    ensures var t := Finish(AdvanceAll(Start(s).value, requests)).value;
      && WellShaped(t) && |t.stakes| == |s.stakes|
      && Accepts(t, ops) && Results(t, ops) == Results(s, ops)
      && (var s', t' := RunAll(s, ops), RunAll(t, ops);
          && (forall i: nat :: i < |s.stakes| ==> Pending(t', i) == Pending(s', i))
          && t'.stakes == s'.stakes && (t'.funded, t'.paid, t'.unassigned) == (s'.funded, s'.paid, s'.unassigned))
  {
    FinishIgnoresBatches(s, requests);
    NormalizedSameFuture(s);
    RunSameFuture(s, Normalized(s), ops);
    var s', t' := RunAll(s, ops), RunAll(Normalized(s), ops);
    forall i: nat | i < |s.stakes| ensures Pending(t', i) == Pending(s', i) {
      SolventPending(s', i);
      SolventPending(t', i);
      assert Entitlements(s')[i] == Entitlements(t')[i];
    }
  }
}
