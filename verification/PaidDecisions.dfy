/**
 When the reader accepts an event, said in the words of the event and of the state a run
 has reached, without the checks that can never reject.
 */
module PaidDecisions {
  import opened Bytes
  import opened PaidAbi
  import opened PaidBooks
  import opened PaidHistory
  import opened PaidLedger
  import opened Sums
  import opened Wrappers

  // Every state met in the middle of an accepted history.

  ghost predicate Met(l: Ledger, a: Audit) {
    Sound(l, a) && CountersFit(l)
  }

  lemma LogCounters(env: Env, l: Ledger, ctx: Context, log: Log)
    requires Shaped(l) && CountersFit(l) && ApplyLog(env, l, ctx, log).Some?
    ensures CountersFit(ApplyLog(env, l, ctx, log).value.0)
  {
    if log.emitter == env.registry {
      RegistryCounters(env, l, ctx, log);
    } else if log.emitter == env.token {
      TokenCounters(env, l, ctx, log);
    } else {
      CountersStayWords(env, l, ctx, log);
    }
    hide RegistryEvent, TokenEvent, ProbeBranch, Invariants;
  }

  lemma RegistryCounters(env: Env, l: Ledger, ctx: Context, log: Log)
    requires Shaped(l) && CountersFit(l) && RegistryEvent(env, l, ctx, log).Some?
    ensures CountersFit(RegistryEvent(env, l, ctx, log).value.0)
  {
  }

  lemma TokenCounters(env: Env, l: Ledger, ctx: Context, log: Log)
    requires Shaped(l) && CountersFit(l) && TokenEvent(env, l, ctx, log).Some?
    ensures CountersFit(TokenEvent(env, l, ctx, log).value.0)
  {
  }

  /** The decisions below hold of every such state. */
  lemma {:induction false} LogsMeet(env: Env, l: Ledger, ctx: Context, logs: seq<Log>, a: Audit)
    requires Met(l, a) && ApplyLogs(env, l, ctx, logs).Some?
    ensures Met(ApplyLogs(env, l, ctx, logs).value.0, NoteLogs(env, a, logs))
  {
    hide ApplyLog, Backed, NumberedAt, CurrentOrPast, Note, CountersFit;
    if logs != [] {
      var before := ApplyLogs(env, l, ctx, logs[..|logs| - 1]).value;
      LogsMeet(env, l, ctx, logs[..|logs| - 1], a);
      LogKeeps(env, before.0, before.1, logs[|logs| - 1], NoteLogs(env, a, logs[..|logs| - 1]));
      LogCounters(env, before.0, before.1, logs[|logs| - 1]);
    }
  }

  lemma {:induction false} ReplayMeets(env: Env, txs: seq<Transaction>, l: Ledger)
    requires Replay(env, txs) == Some(l)
    ensures Met(l, AuditOf(env, txs))
  {
    ReplaySound(env, txs, l);
    if txs == [] {
      EmptyCounters();
    } else {
      ReplayLast(env, txs);
      ClosingCounters(env, Replay(env, txs[..|txs| - 1]).value, txs[|txs| - 1], l);
    }
    hide *;
  }

  lemma EmptyCounters()
    ensures Shaped(EMPTY) && CountersFit(EMPTY)
  {
  }

  lemma ClosingCounters(env: Env, l: Ledger, tx: Transaction, next: Ledger)
    requires Shaped(l) && ApplyTransaction(env, l, tx) == Some(next)
    ensures Shaped(next) && CountersFit(next)
  {
    hide ApplyLogs, CreationConfirmed, RecordCreation, CallOf;
  }

  // Deposits, withdrawals and stake changes.

  function EventOf(kind: Kind): Signature {
    match kind
    case Deposit => Deposited
    case Withdraw => Withdrawn
    case Stake => Staked
    case Unstake => Unstaked
  }

  predicate OpenToProbe(env: Env, l: Ledger, ctx: Context) {
    l.probeCreated && l.mintCount == 3 && ctx.target == Some(env.probe) && !ctx.probeSeen
  }

  predicate AmountShaped(log: Log) {
    |log.topics| == 2 && |log.data| == 96 && 1 <= log.topics[0] <= 3 && log.topics[1] < ADDRESS_BOUND
  }

  /** The words of such an event: account, owner, amount, result and epoch. */
  function AmountWords(log: Log): (d: AmountData)
    requires AmountShaped(log)
    ensures d.index < 3
  {
    AmountData(log.topics[0] - 1, log.topics[1], ReadWord(log.data, 0), ReadWord(log.data, 1), ReadWord(log.data, 2))
  }

  /** The account's present owner asked for it, in the account's present epoch, for just this amount. */
  predicate AskedFor(l: Ledger, ctx: Context, kind: Kind, d: AmountData)
    requires Shaped(l) && d.index < 3
  {
    && 0 < d.amount && ctx.call == Some(AmountCall(kind, d.index + 1, d.epoch, d.amount)) && ctx.sender == d.owner
    && l.owners[d.index] == Some(d.owner) && l.epochs[d.index] == d.epoch
  }

  /** The amount is there to be moved, the tokens have moved with it, and the event reports what comes of it. */
  predicate Affordable(env: Env, l: Ledger, ctx: Context, kind: Kind, d: AmountData)
    requires Shaped(l) && d.index < 3
  {
    var i, owed := d.index, l.total + l.dust;
    match kind
    case Deposit =>
      && ctx.tokenMoves == [Move(d.owner, env.probe, d.amount)] && d.result == l.credits[i] + d.amount
      && owed + d.amount <= MAX && owed + d.amount <= l.balance
    case Withdraw =>
      && ctx.tokenMoves == [Move(env.probe, d.owner, d.amount)] && d.result == l.credits[i] - d.amount
      && d.amount <= l.credits[i] - l.stakes[i] && owed - d.amount <= MAX && owed - d.amount <= l.balance
    case Stake =>
      && ctx.tokenMoves == [] && d.result == l.stakes[i] + d.amount
      && d.result <= l.credits[i] && d.result <= MAX_STAKE && owed <= MAX && owed <= l.balance
    case Unstake =>
      && ctx.tokenMoves == [] && d.result == l.stakes[i] - d.amount
      && d.amount <= l.stakes[i] && owed <= MAX && owed <= l.balance
  }

  /** The branch alone, before the closing check. */
  predicate BranchAffordable(env: Env, l: Ledger, ctx: Context, kind: Kind, d: AmountData)
    requires Shaped(l) && d.index < 3
  {
    var i := d.index;
    match kind
    case Deposit =>
      && ctx.tokenMoves == [Move(d.owner, env.probe, d.amount)] && d.result == l.credits[i] + d.amount
      && l.total + d.amount <= MAX
    case Withdraw =>
      && ctx.tokenMoves == [Move(env.probe, d.owner, d.amount)] && d.result == l.credits[i] - d.amount
      && d.amount <= l.credits[i] - l.stakes[i]
    case Stake =>
      ctx.tokenMoves == [] && d.result == l.stakes[i] + d.amount && d.result <= l.credits[i] && d.result <= MAX
    case Unstake =>
      ctx.tokenMoves == [] && d.result == l.stakes[i] - d.amount && d.amount <= l.stakes[i]
  }

  lemma CreditWithinTotal(l: Ledger, a: Audit, i: nat)
    requires Sound(l, a) && i < 3
    ensures 0 <= l.stakes[i] <= l.credits[i] <= l.total
  {
    SumNonNegative(l.credits);
  }

  lemma BranchDecision(env: Env, l: Ledger, ctx: Context, kind: Kind, d: AmountData, a: Audit)
    requires Sound(l, a) && d.index < 3
    ensures ApplyAmount(env, l, ctx, kind, d).Some? <==>
      && ctx.call.Some? && ctx.call.value.AmountCall? && ctx.call.value.kind == kind && ctx.call.value.amount == d.amount
      && 0 < d.amount && ctx.sender == d.owner && BranchAffordable(env, l, ctx, kind, d)
    ensures ApplyAmount(env, l, ctx, kind, d).Some? ==>
      var next := ApplyAmount(env, l, ctx, kind, d).value;
      && next.owners == l.owners && next.epochs == l.epochs && next.balance == l.balance && next.dust == l.dust
      && next.stakes == l.stakes[d.index := l.stakes[d.index]
           + (if kind.Stake? then d.amount else 0) - (if kind.Unstake? then d.amount else 0)]
      && next.total == l.total + (if kind.Deposit? then d.amount else 0) - (if kind.Withdraw? then d.amount else 0)
  {
    CreditWithinTotal(l, a, d.index);
  }

  lemma AmountBranchMeans(env: Env, l: Ledger, ctx: Context, log: Log, kind: Kind)
    requires Shaped(l) && log.signature == EventOf(kind)
    ensures ReadAmount(log).Some? <==> AmountShaped(log)
    ensures AmountShaped(log) ==> ReadAmount(log).value == AmountWords(log)
    ensures ProbeBranch(env, l, ctx, log).Some? <==>
      && OpenToProbe(env, l, ctx) && ctx.call.Some? && AmountShaped(log)
      && var d := AmountWords(log);
      && ApplyAmount(env, l, ctx, kind, d).Some?
      && Authorized(ApplyAmount(env, l, ctx, kind, d).value, ctx.call.value, d.index, d.owner, d.epoch)
    ensures ProbeBranch(env, l, ctx, log).Some? ==>
              Some(ProbeBranch(env, l, ctx, log).value.0) == ApplyAmount(env, l, ctx, kind, AmountWords(log))
  {
    hide ApplyAmount;
  }

  /** What is left of the closing check once the branch has gone through. */
  lemma AffordableMeans(env: Env, l: Ledger, ctx: Context, kind: Kind, d: AmountData, a: Audit, next: Ledger)
    requires Sound(l, a) && d.index < 3 && 0 < d.amount && Shaped(next)
    requires next.balance == l.balance && next.dust == l.dust
    requires next.stakes == l.stakes[d.index := l.stakes[d.index]
      + (if kind.Stake? then d.amount else 0) - (if kind.Unstake? then d.amount else 0)]
    requires next.total == l.total + (if kind.Deposit? then d.amount else 0) - (if kind.Withdraw? then d.amount else 0)
    ensures Affordable(env, l, ctx, kind, d) <==>
      && BranchAffordable(env, l, ctx, kind, d) && (forall i :: 0 <= i < 3 ==> next.stakes[i] <= MAX_STAKE)
      && next.total + next.dust <= MAX && next.total + next.dust <= next.balance
  {
    assert next.stakes[d.index] == l.stakes[d.index]
      + (if kind.Stake? then d.amount else 0) - (if kind.Unstake? then d.amount else 0);
  }

  lemma AffordableBranch(env: Env, l: Ledger, ctx: Context, kind: Kind, d: AmountData, a: Audit)
    requires Sound(l, a) && d.index < 3 && Affordable(env, l, ctx, kind, d)
    ensures BranchAffordable(env, l, ctx, kind, d)
  {
  }

  /** A deposit, withdrawal or stake change is accepted exactly if it was asked for and is affordable. */
  lemma AmountDecision(env: Env, l: Ledger, ctx: Context, log: Log, kind: Kind, a: Audit)
    requires Met(l, a) && log.signature == EventOf(kind)
    ensures ProbeEvent(env, l, ctx, log).Some? <==>
      && OpenToProbe(env, l, ctx) && AmountShaped(log)
      && AskedFor(l, ctx, kind, AmountWords(log)) && Affordable(env, l, ctx, kind, AmountWords(log))
  {
    AmountBranchMeans(env, l, ctx, log, kind);
    if AmountShaped(log) {
      var d := AmountWords(log);
      BranchDecision(env, l, ctx, kind, d, a);
      if ProbeBranch(env, l, ctx, log).Some? {
        InvariantCheckReduces(env, l, ctx, log, a);
        AffordableMeans(env, l, ctx, kind, d, a, ProbeBranch(env, l, ctx, log).value.0);
      } else if Affordable(env, l, ctx, kind, d) {
        AffordableBranch(env, l, ctx, kind, d, a);
      }
      hide ApplyAmount, ProbeBranch, Invariants, CountersFit, Affordable, BranchAffordable, Backed, Numbered, Owned, AmountWords;
    }
  }

  /** No other event of the probe is ever accepted, but for posts. */
  lemma OtherEventsRefused(env: Env, l: Ledger, ctx: Context, log: Log)
    requires Shaped(l) && log.signature in {Transfer, Approval, ApprovalForAll, Unknown}
    ensures ProbeEvent(env, l, ctx, log).None?
  {
  }

  // Posts.

  predicate PostShaped(log: Log) {
    |log.topics| == 3 && |log.data| >= 320 && 1 <= log.topics[1] <= 3 && log.topics[2] < ADDRESS_BOUND
  }

  /** The fixed words of a post; its text is what follows them. */
  function PostWords(log: Log, text: bytes): (d: PostData)
    requires PostShaped(log)
    ensures d.index < 3 && |d.allocations| == 3
  {
    PostData(log.topics[0], log.topics[1] - 1, log.topics[2], ReadWord(log.data, 0), ReadWord(log.data, 1),
             ReadWord(log.data, 3), log.data[128..160],
             [ReadWord(log.data, 5), ReadWord(log.data, 6), ReadWord(log.data, 7)], ReadWord(log.data, 8), text)
  }

  /** Texts are one to 1680 bytes of well-formed UTF-8 with at most 420 scalars, and end the event's data. */
  predicate TextSpelled(f: Format, log: Log, text: bytes) {
    && |log.data| >= 320 && ReadWord(log.data, 2) == 288 && log.data[288..] == Blob(text)
    && 0 < |text| <= 1680 && f.scalars(text).Some? && f.scalars(text).value <= 420
  }

  lemma TextDecision(f: Format, log: Log, text: bytes)
    requires PostShaped(log)
    ensures ReadPosted(f, log) == Some(PostWords(log, text)) <==> TextSpelled(f, log, text)
  {
    var data := log.data;
    assert data[288..|data|] == data[288..];
    if ReadDynamic(data, 288, MAX_TEXT).Some? {
      BlobSpelled(data, 288, MAX_TEXT);
    }
    if TextSpelled(f, log, text) {
      assert data[288..288 + |Blob(text)|] == data[288..];
      BlobBack(data, 288, text, MAX_TEXT);
    }
    hide ReadDynamic, Blob, ReadWord;
  }

  lemma PostedShape(f: Format, log: Log)
    requires ReadPosted(f, log).Some?
    ensures PostShaped(log) && ReadPosted(f, log).value == PostWords(log, ReadPosted(f, log).value.text)
  {
    hide ReadDynamic, ReadWord;
  }

  /** The owner asked for this text in this epoch under this nonce, signed over these stakes, and within the time allowed. */
  predicate PostAskedFor(env: Env, l: Ledger, ctx: Context, d: PostData)
    requires Shaped(l) && d.index < 3
  {
    && ctx.call.Some? && ctx.call.value.PostCall? && ctx.tokenMoves == []
    && var call := ctx.call.value;
    && call.accountId == d.index + 1 && call.epoch == d.epoch && call.nonce == d.nonce && call.text == d.text
    && call.distributionHash == d.distributionHash && call.validAfter <= ctx.timestamp < call.deadline
    && l.owners[d.index] == Some(d.owner) && l.epochs[d.index] == d.epoch
  }

  /** The next message and nonce, the one fee, the hash of the three stakes, and the shares in proportion to them. */
  predicate PostDue(env: Env, l: Ledger, d: PostData)
    requires Shaped(l) && d.index < 3 && |d.allocations| == 3
  {
    var eligible := l.stakes[0] + l.stakes[1] + l.stakes[2] - l.stakes[d.index];
    && d.messageId == |l.messages| + 1 && d.nonce == l.nonces[d.index] < MAX && d.fee == FEE
    && (forall i :: 0 <= i < 3 ==> 0 <= l.stakes[i])
    && d.distributionHash == env.keccak(Word(l.stakes[0]) + Word(l.stakes[1]) + Word(l.stakes[2]))
    && FEE <= l.credits[d.index] - l.stakes[d.index] && 0 < eligible && d.allocations[d.index] == 0
    && (forall i :: 0 <= i < 3 && i != d.index ==> IsShare(d.allocations[i], l.stakes[i], eligible))
    && d.dust == FEE - d.allocations[0] - d.allocations[1] - d.allocations[2]
  }

  lemma StakesSpelled(stakes: seq<int>)
    requires |stakes| == 3 && 0 <= stakes[0] && 0 <= stakes[1] && 0 <= stakes[2]
    ensures StakeWords(stakes) == Word(stakes[0]) + Word(stakes[1]) + Word(stakes[2])
  {
    assert StakeWords(stakes[3..]) == [];
    assert StakeWords(stakes[2..]) == Word(stakes[2]) + StakeWords(stakes[3..]) by {
      assert stakes[2..][1..] == stakes[3..];
    }
    assert StakeWords(stakes[1..]) == Word(stakes[1]) + StakeWords(stakes[2..]) by {
      assert stakes[1..][1..] == stakes[2..];
    }
    assert stakes[0..] == stakes;
  }

  lemma StakesWithinCap(l: Ledger, a: Audit)
    requires Sound(l, a)
    ensures forall i :: 0 <= i < 3 ==> 0 <= l.stakes[i] <= MAX_STAKE
    ensures forall i :: 0 <= i < 3 ==> l.stakes[0] + l.stakes[1] + l.stakes[2] - l.stakes[i] <= MAX
  {
  }

  lemma AdmittedMeans(env: Env, l: Ledger, ctx: Context, d: PostData, a: Audit)
    requires Sound(l, a) && d.index < 3 && |d.allocations| == 3 && ctx.call.Some?
    ensures var call := ctx.call.value;
      PostAdmitted(env, l, ctx, call, d) && l.nonces[d.index] < MAX && l.owners[d.index] == Some(d.owner)
      && l.epochs[d.index] == d.epoch && call.accountId == d.index + 1 && call.epoch == d.epoch
      <==> PostAskedFor(env, l, ctx, d) && PostDue(env, l, d)
  {
    StakesWithinCap(l, a);
    StakesSpelled(l.stakes);
    hide Backed, Numbered, Owned, IsShare;
    SumThree(l.stakes[d.index := 0]);
    if 0 < Eligible(l.stakes, d.index) {
      SharesInProportion(l.stakes, d.index, d.allocations);
      SumThree(d.allocations);
    }
    hide Split, StakeWords, Sum;
  }

  lemma AddedCredits(l: Ledger, a: Audit, index: nat, allocations: seq<int>)
    requires Sound(l, a) && l.total <= MAX && index < 3 && 0 < Eligible(l.stakes, index) && FEE <= l.credits[index] - l.stakes[index]
    requires allocations == Split(l.stakes, index)
    ensures var credits := Added(l.credits[index := l.credits[index] - FEE], allocations);
      && (forall i :: 0 <= i < 3 ==> 0 <= credits[i] <= MAX) && 0 <= l.total - (FEE - Sum(allocations)) <= MAX
      && 0 <= FEE - Sum(allocations) <= 1
  {
    FeeSplit(l.stakes, index);
    hide Split, Eligible;
    SumThree(allocations);
    SumThree(l.credits);
  }

  /** Of the checks on a post's new numbers, none rejects: they follow from what is known before. */
  lemma PostFits(env: Env, l: Ledger, ctx: Context, d: PostData, a: Audit)
    requires Met(l, a) && l.total + l.dust <= MAX && d.index < 3 && |d.allocations| == 3 && ctx.call.Some?
    ensures ApplyPost(env, l, ctx, d).Some?
       <==> PostAdmitted(env, l, ctx, ctx.call.value, d) && l.nonces[d.index] < MAX && l.dust + d.dust <= MAX
  {
    if PostAdmitted(env, l, ctx, ctx.call.value, d) {
      AddedCredits(l, a, d.index, d.allocations);
    }
    hide Split, Eligible, Added, Backed, Numbered, Owned, StakeWords;
  }

  lemma PostBranchMeans(env: Env, l: Ledger, ctx: Context, log: Log)
    requires Shaped(l) && log.signature.Posted?
    ensures ProbeBranch(env, l, ctx, log).Some? <==>
      && OpenToProbe(env, l, ctx) && ctx.call.Some? && ReadPosted(env.format, log).Some?
      && var d := ReadPosted(env.format, log).value;
      && ApplyPost(env, l, ctx, d).Some? && Authorized(ApplyPost(env, l, ctx, d).value, ctx.call.value, d.index, d.owner, d.epoch)
    ensures ProbeBranch(env, l, ctx, log).Some? ==>
              Some(ProbeBranch(env, l, ctx, log).value.0) == ApplyPost(env, l, ctx, ReadPosted(env.format, log).value)
  {
    hide ApplyPost;
  }

  /** The authority of a post is that of the state before it, and what the probe owes stays the same. */
  lemma PostKeepsOwed(env: Env, l: Ledger, ctx: Context, d: PostData)
    requires Shaped(l) && d.index < 3 && |d.allocations| == 3 && ApplyPost(env, l, ctx, d).Some?
    ensures var next := ApplyPost(env, l, ctx, d).value;
      && next.owners == l.owners && next.epochs == l.epochs && next.stakes == l.stakes
      && next.total + next.dust == l.total + l.dust && next.balance == l.balance
  {
    hide Split, Eligible, Added;
  }

  lemma DustFits(l: Ledger, a: Audit, d: PostData)
    requires Met(l, a) && l.total + l.dust <= MAX && d.index < 3 && |d.allocations| == 3
    requires FEE <= l.credits[d.index] - l.stakes[d.index] && d.dust <= FEE
    ensures l.dust + d.dust <= MAX
  {
    CreditWithinTotal(l, a, d.index);
  }

  lemma DueDust(env: Env, l: Ledger, d: PostData)
    requires Shaped(l) && d.index < 3 && |d.allocations| == 3 && PostDue(env, l, d)
    ensures d.dust <= FEE && FEE <= l.credits[d.index] - l.stakes[d.index]
  {
  }

  lemma ApplyPostDecision(env: Env, l: Ledger, ctx: Context, d: PostData, a: Audit)
    requires Met(l, a) && l.total + l.dust <= MAX && d.index < 3 && |d.allocations| == 3 && ctx.call.Some?
    ensures (ApplyPost(env, l, ctx, d).Some?
             && Authorized(ApplyPost(env, l, ctx, d).value, ctx.call.value, d.index, d.owner, d.epoch))
       <==> PostAskedFor(env, l, ctx, d) && PostDue(env, l, d)
  {
    PostFits(env, l, ctx, d, a);
    AdmittedMeans(env, l, ctx, d, a);
    if ApplyPost(env, l, ctx, d).Some? {
      PostKeepsOwed(env, l, ctx, d);
    }
    if PostDue(env, l, d) {
      DueDust(env, l, d);
      DustFits(l, a, d);
    }
    hide ApplyPost, PostAdmitted, PostDue, PostAskedFor, Backed, Numbered, Owned, CountersFit;
  }

  lemma OwedBounded(env: Env, l: Ledger, ctx: Context, log: Log, a: Audit)
    requires Met(l, a) && log.signature.Posted? && ProbeBranch(env, l, ctx, log).Some?
    ensures Invariants(ProbeBranch(env, l, ctx, log).value.0) <==> l.total + l.dust <= MAX && l.total + l.dust <= l.balance
  {
    PostBranchMeans(env, l, ctx, log);
    PostKeepsOwed(env, l, ctx, ReadPosted(env.format, log).value);
    InvariantCheckReduces(env, l, ctx, log, a);
    StakesWithinCap(l, a);
    hide ProbeBranch, ReadPosted, ApplyPost, Invariants, Numbered, Owned, Backed, CountersFit;
  }

  /**
   A post is accepted exactly if its text is the one asked for, the present owner asked for
   it in time, its numbers are the ones due, and the probe's tokens back what it owes.
   */
  lemma PostDecision(env: Env, l: Ledger, ctx: Context, log: Log, a: Audit)
    requires Met(l, a) && log.signature.Posted?
    ensures ProbeEvent(env, l, ctx, log).Some? <==>
      && OpenToProbe(env, l, ctx) && PostShaped(log) && ctx.call.Some? && ctx.call.value.PostCall?
      && l.total + l.dust <= MAX && l.total + l.dust <= l.balance
      && var text := ctx.call.value.text;
      && TextSpelled(env.format, log, text)
      && PostAskedFor(env, l, ctx, PostWords(log, text)) && PostDue(env, l, PostWords(log, text))
  {
    PostBranchMeans(env, l, ctx, log);
    if ProbeBranch(env, l, ctx, log).Some? {
      OwedBounded(env, l, ctx, log, a);
    }
    var read := ReadPosted(env.format, log);
    if read.Some? {
      PostedShape(env.format, log);
      TextDecision(env.format, log, read.value.text);
    }
    if PostShaped(log) && ctx.call.Some? && ctx.call.value.PostCall? {
      TextDecision(env.format, log, ctx.call.value.text);
    }
    if read.Some? && ctx.call.Some? && l.total + l.dust <= MAX {
      ApplyPostDecision(env, l, ctx, read.value, a);
    }
    hide ProbeBranch, ReadPosted, ApplyPost, Invariants, Numbered, Owned, Backed, CountersFit, PostDue, TextSpelled, PostWords,
         Authorized, OpenToProbe, PostShaped;
  }

  // The registry and the token.

  /** A transfer is accepted exactly as a mint in order while the registry is created, or as a move from the owner after its clearing. */
  lemma TransferDecision(env: Env, l: Ledger, ctx: Context, log: Log, a: Audit)
    requires Met(l, a) && log.signature.Transfer?
    ensures RegistryEvent(env, l, ctx, log).Some? <==>
      && l.registryCreated && ctx.call.None? && |log.topics| == 3 && log.data == []
      && log.topics[0] < ADDRESS_BOUND && 0 < log.topics[1] < ADDRESS_BOUND && 1 <= log.topics[2] <= 3
      && var from, i := log.topics[0], log.topics[2] - 1;
      if from == 0 then ctx.creation == Some(env.registry) && l.owners[i].None? && l.mintCount == i
      else l.mintCount == 3 && l.owners[i] == Some(from) && ctx.lastRegistry == Some((Clear, i, from)) && l.epochs[i] < MAX
    ensures RegistryEvent(env, l, ctx, log).Some? ==>
      var (next, after) := RegistryEvent(env, l, ctx, log).value;
      var minted, i := log.topics[0] == 0, log.topics[2] - 1;
      && next == l.(owners := l.owners[i := Some(log.topics[1])], mintCount := l.mintCount + (if minted then 1 else 0),
                    epochs := if minted then l.epochs else l.epochs[i := l.epochs[i] + 1])
      && after == ctx.(lastRegistry := Some((Transferred, i, log.topics[0])))
  {
  }

  /** Approvals change nothing but what the next transfer may rely on: only the owner's clearing, right before it, lets it through. */
  lemma ApprovalDecision(env: Env, l: Ledger, ctx: Context, log: Log)
    requires Shaped(l) && log.signature.Approval?
    ensures RegistryEvent(env, l, ctx, log).Some? <==>
      && l.registryCreated && ctx.call.None? && |log.topics| == 3 && log.data == []
      && log.topics[0] < ADDRESS_BOUND && log.topics[1] < ADDRESS_BOUND && 1 <= log.topics[2] <= 3
      && l.owners[log.topics[2] - 1] == Some(log.topics[0])
    ensures RegistryEvent(env, l, ctx, log).Some? ==>
      RegistryEvent(env, l, ctx, log).value
      == (l, ctx.(lastRegistry := Some((if log.topics[1] == 0 then Clear else Approve, log.topics[2] - 1, log.topics[0]))))
  {
  }

  /** A token event is accepted exactly before any probe event of its transaction, between parties that are not zero, with the balance covering it. */
  lemma TokenDecision(env: Env, l: Ledger, ctx: Context, log: Log, a: Audit)
    requires Met(l, a) && log.signature in {Transfer, Approval}
    ensures TokenEvent(env, l, ctx, log).Some? <==>
      && !ctx.probeSeen && |log.topics| == 2 && |log.data| == 32
      && 0 < log.topics[0] < ADDRESS_BOUND && 0 < log.topics[1] < ADDRESS_BOUND
      && var from, to, amount := log.topics[0], log.topics[1], ReadWord(log.data, 0);
      log.signature.Transfer? && env.probe in {from, to} ==>
        && l.probeCreated && (from == env.probe ==> amount <= l.balance)
        && (from != env.probe ==> l.balance + amount <= MAX)
    ensures TokenEvent(env, l, ctx, log).Some? ==>
      var (next, after) := TokenEvent(env, l, ctx, log).value;
      var from, to, amount := log.topics[0], log.topics[1], ReadWord(log.data, 0);
      var moved := log.signature.Transfer? && env.probe in {from, to};
      && next == (if !moved then l else
           l.(balance := l.balance + (if to == env.probe then amount else 0) - (if from == env.probe then amount else 0)))
      && after == if moved then ctx.(tokenMoves := ctx.tokenMoves + [Move(from, to, amount)]) else ctx
  {
  }

  // The two creations.

  function Creations(txs: seq<Transaction>, address: Address): nat {
    if txs == [] then 0 else
    Creations(txs[..|txs| - 1], address) + if txs[|txs| - 1].creation == Some(address) then 1 else 0
  }

  lemma LogKeepsMints(env: Env, l: Ledger, ctx: Context, log: Log)
    requires Shaped(l) && ApplyLog(env, l, ctx, log).Some?
    ensures var (next, after) := ApplyLog(env, l, ctx, log).value;
      && next.registryCreated == l.registryCreated && next.probeCreated == l.probeCreated && after.creation == ctx.creation
      && (ctx.creation != Some(env.registry) ==> next.mintCount == l.mintCount)
  {
    hide ReadPosted, ReadAmount, PostAdmitted, Split, Eligible, Added, Invariants, ReadWord;
  }

  lemma {:induction false} LogsKeepMints(env: Env, l: Ledger, ctx: Context, logs: seq<Log>)
    requires Shaped(l) && ApplyLogs(env, l, ctx, logs).Some?
    ensures var (next, after) := ApplyLogs(env, l, ctx, logs).value;
      && next.registryCreated == l.registryCreated && next.probeCreated == l.probeCreated && after.creation == ctx.creation
      && (ctx.creation != Some(env.registry) ==> next.mintCount == l.mintCount)
  {
    hide ApplyLog;
    if logs != [] {
      LogsKeepMints(env, l, ctx, logs[..|logs| - 1]);
      var (mid, during) := ApplyLogs(env, l, ctx, logs[..|logs| - 1]).value;
      LogKeepsMints(env, mid, during, logs[|logs| - 1]);
    }
  }

  /** What a ledger says of the creations behind it. */
  ghost predicate CreatedAs(env: Env, txs: seq<Transaction>, l: Ledger) {
    && Creations(txs, env.registry) == (if l.registryCreated then 1 else 0)
    && Creations(txs, env.probe) == (if l.probeCreated then 1 else 0)
    && (l.registryCreated || l.probeCreated ==> l.mintCount == 3)
  }

  lemma CreationStep(env: Env, l: Ledger, tx: Transaction, next: Ledger)
    requires Shaped(l) && ApplyTransaction(env, l, tx) == Some(next) && (l.registryCreated || l.probeCreated ==> l.mintCount == 3)
    ensures tx.creation == Some(env.registry) ==> !l.registryCreated && next.mintCount == 3
    ensures tx.creation == Some(env.probe) ==> !l.probeCreated && l.mintCount == 3 && ProbeBound(env, tx)
    ensures next.registryCreated == (l.registryCreated || tx.creation == Some(env.registry))
    ensures next.probeCreated == (l.probeCreated || tx.creation == Some(env.probe))
    ensures tx.creation != Some(env.registry) ==> next.mintCount == l.mintCount
  {
    hide ApplyLogs, Invariants, ReadCall;
    var created := RecordCreation(env, l, tx.creation).value;
    LogsKeepMints(env, created, Opening(tx, CallOf(env, created, tx).value), tx.logs);
  }

  /** The probe is created without events, and its calldata ends in the registry and the hash of its runtime. */
  predicate ProbeBound(env: Env, tx: Transaction) {
    var n := |tx.calldata|;
    && tx.logs == [] && 64 <= n
    && FromBig(tx.calldata[n - 64..n - 32]) == env.registry && tx.calldata[n - 32..] == env.registryRuntimeHash
  }

  /** In an accepted history either contract is created at most once, the registry with all three accounts, and the probe bound to it. */
  lemma {:induction false} CreatedOnce(env: Env, txs: seq<Transaction>, l: Ledger)
    requires Replay(env, txs) == Some(l)
    ensures CreatedAs(env, txs, l)
    ensures forall k :: 0 <= k < |txs| && txs[k].creation == Some(env.probe) ==> ProbeBound(env, txs[k])
  {
    hide ApplyTransaction, ProbeBound;
    if txs != [] {
      ReplayLast(env, txs);
      var before := Replay(env, txs[..|txs| - 1]).value;
      CreatedOnce(env, txs[..|txs| - 1], before);
      CreationStep(env, before, txs[|txs| - 1], l);
    }
  }

  lemma RegistryBound(env: Env, l: Ledger, tx: Transaction, next: Ledger)
    requires Shaped(l) && ApplyTransaction(env, l, tx) == Some(next) && tx.creation == Some(env.registry)
    ensures var n := |tx.calldata|;
      && |tx.logs| == 3 && 64 <= n && next.owners[0] == next.owners[1] == Some(FromBig(tx.calldata[n - 64..n - 32]))
      && next.owners[2] == Some(FromBig(tx.calldata[n - 32..]))
  {
    hide ApplyLogs, Invariants, ReadCall;
  }

  /** The registry is created with three events, which give the first two accounts to the one owner and the third to the other that its calldata ends in. */
  lemma RegistryOwners(env: Env, txs: seq<Transaction>)
    requires txs != [] && Replay(env, txs).Some? && txs[|txs| - 1].creation == Some(env.registry)
    ensures var data := txs[|txs| - 1].calldata; var n := |data|;
      && |txs[|txs| - 1].logs| == 3 && 64 <= n
      && BookOf(env, txs, 0).owner == BookOf(env, txs, 1).owner == Some(FromBig(data[n - 64..n - 32]))
      && BookOf(env, txs, 2).owner == Some(FromBig(data[n - 32..]))
  {
    hide ApplyTransaction, NoteBooks, MessagesOf;
    ReplayLast(env, txs);
    var l := Replay(env, txs).value;
    RegistryBound(env, Replay(env, txs[..|txs| - 1]).value, txs[|txs| - 1], l);
    BooksKept(env, txs, l, 0);
    BooksKept(env, txs, l, 1);
    BooksKept(env, txs, l, 2);
  }
}
