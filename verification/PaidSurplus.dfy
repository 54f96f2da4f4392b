/**
 The surplus: tokens the probe holds beyond all credits and dust. Probe calls do not touch
 it, unless the probe itself owns the account; other transactions move it by exactly the
 tokens they send to and from the probe.
 */
module PaidSurplus {
  import opened PaidAbi
  import opened PaidHistory
  import opened PaidLedger
  import opened Wrappers

  function Surplus(l: Ledger): int {
    l.balance - l.total - l.dust
  }

  /** Nothing but the token balance and the registry has changed. */
  predicate SameBooks(l: Ledger, next: Ledger) {
    (next.credits, next.stakes, next.nonces, next.messages) == (l.credits, l.stakes, l.nonces, l.messages)
    && (next.total, next.dust) == (l.total, l.dust)
  }

  /** What a token movement brings the probe. */
  function Gain(probe: Address, m: Move): int {
    (if m.to == probe then m.amount else 0) - (if m.from == probe then m.amount else 0)
  }

  function Gains(probe: Address, moves: seq<Move>): int {
    if moves == [] then 0 else Gains(probe, moves[..|moves| - 1]) + Gain(probe, moves[|moves| - 1])
  }

  /** The tokens one event moves to the probe, read from the event alone. */
  function TokensIn(env: Env, log: Log): int {
    if log.emitter != env.registry && log.emitter == env.token && log.signature.Transfer?
       && |log.topics| == 2 && |log.data| == 32
    then Gain(env.probe, Move(log.topics[0], log.topics[1], ReadWord(log.data, 0)))
    else 0
  }

  function AllTokensIn(env: Env, logs: seq<Log>): int {
    if logs == [] then 0 else AllTokensIn(env, logs[..|logs| - 1]) + TokensIn(env, logs[|logs| - 1])
  }

  predicate IsProbeEvent(env: Env, log: Log) {
    log.emitter == env.probe && log.emitter != env.registry && log.emitter != env.token
  }

  /** A deposit or withdrawal by an account that the probe itself owns. */
  predicate OwnAccount(env: Env, log: Log) {
    && IsProbeEvent(env, log) && (log.signature.Deposited? || log.signature.Withdrawn?)
    && |log.topics| == 2 && |log.data| == 96 && log.topics[1] == env.probe && 0 < ReadWord(log.data, 0)
  }

  /** What such an event does to the surplus: its tokens move from the probe to itself. */
  function OwnChange(env: Env, log: Log): int {
    if !OwnAccount(env, log) then 0
    else if log.signature.Deposited? then -(ReadWord(log.data, 0) as int)
    else ReadWord(log.data, 0)
  }

  function OwnChanges(env: Env, logs: seq<Log>): int {
    if logs == [] then 0 else OwnChanges(env, logs[..|logs| - 1]) + OwnChange(env, logs[|logs| - 1])
  }

  lemma GainsAppend(probe: Address, moves: seq<Move>, m: Move)
    ensures Gains(probe, moves + [m]) == Gains(probe, moves) + Gain(probe, m)
  {
    assert (moves + [m])[..|moves|] == moves;
  }

  lemma GainsOne(probe: Address, m: Move)
    ensures Gains(probe, [m]) == Gain(probe, m)
  {
    assert [m] == [] + [m];
    GainsAppend(probe, [], m);
  }

  lemma TokenStep(env: Env, l: Ledger, ctx: Context, log: Log)
    requires Shaped(l) && log.emitter == env.token != env.registry && TokenEvent(env, l, ctx, log).Some?
    ensures var (next, after) := TokenEvent(env, l, ctx, log).value;
      && Surplus(next) == Surplus(l) + TokensIn(env, log) && SameBooks(l, next)
      && Gains(env.probe, after.tokenMoves) == Gains(env.probe, ctx.tokenMoves) + TokensIn(env, log)
      && !ctx.probeSeen && !after.probeSeen && after.call == ctx.call
  {
    if log.signature.Transfer? {
      GainsAppend(env.probe, ctx.tokenMoves, Move(log.topics[0], log.topics[1], ReadWord(log.data, 0)));
    }
  }

  lemma RegistryStep(env: Env, l: Ledger, ctx: Context, log: Log)
    requires Shaped(l) && RegistryEvent(env, l, ctx, log).Some?
    ensures var (next, after) := RegistryEvent(env, l, ctx, log).value;
      && Surplus(next) == Surplus(l) && SameBooks(l, next) && ctx.call.None? && after.tokenMoves == ctx.tokenMoves
      && after.probeSeen == ctx.probeSeen && after.call == ctx.call
  {
  }

  lemma AmountStep(env: Env, l: Ledger, ctx: Context, kind: Kind, d: AmountData)
    requires Shaped(l) && d.index < 3 && ApplyAmount(env, l, ctx, kind, d).Some?
    ensures var next := ApplyAmount(env, l, ctx, kind, d).value;
      Surplus(next) == Surplus(l) - Gains(env.probe, ctx.tokenMoves)
                       + (if d.owner != env.probe then 0
                          else if kind.Deposit? then -(d.amount as int) else if kind.Withdraw? then d.amount else 0)
      && 0 < d.amount
  {
    if kind.Deposit? {
      GainsOne(env.probe, Move(d.owner, env.probe, d.amount));
    } else if kind.Withdraw? {
      GainsOne(env.probe, Move(env.probe, d.owner, d.amount));
    }
  }

  lemma PostStep(env: Env, l: Ledger, ctx: Context, d: PostData)
    requires Shaped(l) && d.index < 3 && |d.allocations| == 3 && ApplyPost(env, l, ctx, d).Some?
    ensures Surplus(ApplyPost(env, l, ctx, d).value) == Surplus(l) && ctx.tokenMoves == []
  {
    hide Split, Eligible, Added;
  }

  lemma ProbeStep(env: Env, l: Ledger, ctx: Context, log: Log)
    requires Shaped(l) && IsProbeEvent(env, log) && ProbeEvent(env, l, ctx, log).Some?
    ensures var (next, after) := ProbeEvent(env, l, ctx, log).value;
      && Surplus(next) == Surplus(l) - Gains(env.probe, ctx.tokenMoves) + OwnChange(env, log)
      && ctx.call.Some? && !ctx.probeSeen && after.probeSeen && after.call == ctx.call
  {
    if log.signature.Posted? {
      PostStep(env, l, ctx, ReadPosted(env.format, log).value);
    } else {
      AmountStep(env, l, ctx, KindOfEvent(log.signature).value, ReadAmount(log).value);
    }
    hide ApplyPost, ApplyAmount, ReadDynamic, Gains, Invariants;
  }

  predicate AnyOwnAccount(env: Env, logs: seq<Log>) {
    exists k :: 0 <= k < |logs| && OwnAccount(env, logs[k])
  }

  /** How far a transaction has come, as its events are read. */
  ghost predicate Custody(env: Env, l: Ledger, next: Ledger, after: Context, logs: seq<Log>) {
    if after.probeSeen then
      && after.call.Some? && Surplus(next) == Surplus(l) + OwnChanges(env, logs)
      && (AnyOwnAccount(env, logs) <==> OwnChanges(env, logs) != 0)
    else
      && Surplus(next) == Surplus(l) + AllTokensIn(env, logs) && SameBooks(l, next)
      && OwnChanges(env, logs) == 0 && !AnyOwnAccount(env, logs)
      && Gains(env.probe, after.tokenMoves) == AllTokensIn(env, logs)
  }

  lemma AnyAppend(env: Env, logs: seq<Log>, log: Log)
    ensures AnyOwnAccount(env, logs + [log]) <==> AnyOwnAccount(env, logs) || OwnAccount(env, log)
  {
    assert (logs + [log])[|logs|] == log;
    assert forall k :: 0 <= k < |logs| ==> (logs + [log])[k] == logs[k];
  }

  /** Tokens in, as the last of some events. */
  lemma TokenCustody(env: Env, l: Ledger, mid: Ledger, during: Context, before: seq<Log>, log: Log, next: Ledger, after: Context)
    requires Custody(env, l, mid, during, before) && !during.probeSeen && !after.probeSeen
    requires Surplus(next) == Surplus(mid) + TokensIn(env, log) && SameBooks(mid, next)
    requires Gains(env.probe, after.tokenMoves) == Gains(env.probe, during.tokenMoves) + TokensIn(env, log)
    requires !IsProbeEvent(env, log)
    ensures Custody(env, l, next, after, before + [log])
  {
    hide Gains, AnyOwnAccount, TokensIn, Surplus;
    AnyAppend(env, before, log);
    assert (before + [log])[..|before|] == before;
  }

  /** A registry event, which moves no tokens. */
  lemma RegistryCustody(env: Env, l: Ledger, mid: Ledger, during: Context, before: seq<Log>, log: Log, next: Ledger, after: Context)
    requires Custody(env, l, mid, during, before) && !during.probeSeen && !after.probeSeen && log.emitter == env.registry
    requires Surplus(next) == Surplus(mid) && SameBooks(mid, next) && after.tokenMoves == during.tokenMoves
    ensures Custody(env, l, next, after, before + [log])
  {
    hide Gains, AnyOwnAccount, Surplus;
    AnyAppend(env, before, log);
    assert (before + [log])[..|before|] == before;
  }

  /** The probe event, which settles what the tokens before it brought. */
  lemma ProbeCustody(env: Env, l: Ledger, mid: Ledger, during: Context, before: seq<Log>, log: Log, next: Ledger, after: Context)
    requires Custody(env, l, mid, during, before) && !during.probeSeen && after.probeSeen && after.call.Some?
    requires Surplus(next) == Surplus(mid) - Gains(env.probe, during.tokenMoves) + OwnChange(env, log)
    ensures Custody(env, l, next, after, before + [log])
  {
    hide Gains, AnyOwnAccount, Surplus;
    AnyAppend(env, before, log);
    assert (before + [log])[..|before|] == before;
  }

  lemma CustodyStep(env: Env, l: Ledger, mid: Ledger, during: Context, before: seq<Log>, log: Log, next: Ledger, after: Context)
    requires Shaped(mid) && Custody(env, l, mid, during, before) && ApplyLog(env, mid, during, log) == Some((next, after))
    requires during.probeSeen ==> during.call.Some?
    ensures Custody(env, l, next, after, before + [log]) && after.call == during.call
    ensures after.probeSeen ==> after.call.Some?
  {
    hide RegistryEvent, TokenEvent, ProbeEvent, Custody, Gains, Surplus, TokensIn, OwnChange, SameBooks;
    if log.emitter == env.registry {
      RegistryStep(env, mid, during, log);
      RegistryCustody(env, l, mid, during, before, log, next, after);
    } else if log.emitter == env.token {
      TokenStep(env, mid, during, log);
      TokenCustody(env, l, mid, during, before, log, next, after);
    } else {
      ProbeStep(env, mid, during, log);
      ProbeCustody(env, l, mid, during, before, log, next, after);
    }
  }

  lemma {:induction false} LogsCustody(env: Env, l: Ledger, ctx: Context, logs: seq<Log>, next: Ledger, after: Context)
    requires Shaped(l) && !ctx.probeSeen && ctx.tokenMoves == [] && ApplyLogs(env, l, ctx, logs) == Some((next, after))
    ensures Custody(env, l, next, after, logs) && after.call == ctx.call
    ensures after.probeSeen ==> after.call.Some?
  {
    hide ApplyLog, Custody;
    if logs == [] {
      NothingYet(env, l, ctx);
    } else {
      var before, log := logs[..|logs| - 1], logs[|logs| - 1];
      var (mid, during) := ApplyLogs(env, l, ctx, before).value;
      LogsCustody(env, l, ctx, before, mid, during);
      CustodyStep(env, l, mid, during, before, log, next, after);
      assert logs == before + [log];
    }
  }

  lemma NothingYet(env: Env, l: Ledger, ctx: Context)
    requires !ctx.probeSeen && ctx.tokenMoves == []
    ensures Custody(env, l, l, ctx, [])
  {
  }

  /** A transaction that calls the probe. */
  predicate CallsProbe(env: Env, tx: Transaction) {
    tx.success && tx.target == Some(env.probe)
  }

  /**
   A probe call changes the surplus only by what it does to accounts the probe itself owns,
   and leaves it unchanged exactly when it deposits and withdraws for no such account.
   */
  lemma CallSurplus(env: Env, l: Ledger, tx: Transaction)
    requires Shaped(l) && ApplyTransaction(env, l, tx).Some? && CallsProbe(env, tx)
    ensures var next := ApplyTransaction(env, l, tx).value;
      && Surplus(next) == Surplus(l) + OwnChanges(env, tx.logs)
      && (Surplus(next) == Surplus(l) <==> !AnyOwnAccount(env, tx.logs))
  {
    var created := RecordCreation(env, l, tx.creation).value;
    var opening := Opening(tx, CallOf(env, created, tx).value);
    var (next, after) := ApplyLogs(env, created, opening, tx.logs).value;
    LogsCustody(env, created, opening, tx.logs, next, after);
  }

  /** Any other transaction leaves the books alone and moves the surplus by the tokens it sends. */
  lemma OtherSurplus(env: Env, l: Ledger, tx: Transaction)
    requires Shaped(l) && ApplyTransaction(env, l, tx).Some? && !CallsProbe(env, tx)
    ensures var next := ApplyTransaction(env, l, tx).value;
      Surplus(next) == Surplus(l) + AllTokensIn(env, tx.logs) && SameBooks(l, next)
  {
    var created := RecordCreation(env, l, tx.creation).value;
    var opening := Opening(tx, CallOf(env, created, tx).value);
    var (next, after) := ApplyLogs(env, created, opening, tx.logs).value;
    LogsCustody(env, created, opening, tx.logs, next, after);
  }

  /** What the transactions of a history add to the surplus, read from their events alone. */
  function HistoryChange(env: Env, txs: seq<Transaction>): int {
    if txs == [] then 0 else
    var tx := txs[|txs| - 1];
    HistoryChange(env, txs[..|txs| - 1]) + if CallsProbe(env, tx) then OwnChanges(env, tx.logs) else AllTokensIn(env, tx.logs)
  }

  lemma SurplusStep(env: Env, txs: seq<Transaction>, l: Ledger, next: Ledger)
    requires txs != [] && Shaped(l) && Surplus(l) == HistoryChange(env, txs[..|txs| - 1])
    requires ApplyTransaction(env, l, txs[|txs| - 1]) == Some(next)
    ensures 0 <= Surplus(next) == HistoryChange(env, txs)
  {
    if CallsProbe(env, txs[|txs| - 1]) {
      CallSurplus(env, l, txs[|txs| - 1]);
    } else {
      OtherSurplus(env, l, txs[|txs| - 1]);
    }
  }

  /** Over a whole history the surplus is what was sent to the probe outside its calls, and it is never negative. */
  lemma {:induction false} HistorySurplus(env: Env, txs: seq<Transaction>, l: Ledger)
    requires Replay(env, txs) == Some(l)
    ensures 0 <= Surplus(l) == HistoryChange(env, txs)
  {
    hide ApplyTransaction;
    if txs == [] {
      assert l == EMPTY;
    } else {
      var before := Replay(env, txs[..|txs| - 1]);
      ReplayLast(env, txs);
      HistorySurplus(env, txs[..|txs| - 1], before.value);
      SurplusStep(env, txs, before.value, l);
    }
  }
}
