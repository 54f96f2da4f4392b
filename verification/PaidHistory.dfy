/**
 What holds of every accepted event history. The history is audited on its own, event by
 event, without a ledger; the theorems relate the audit to the ledger the reader ends with.
 */
module PaidHistory {
  import opened Sums
  import opened PaidAbi
  import opened PaidLedger
  import opened Wrappers

  datatype Action = Action(index: nat, epoch: nat, owner: Address)

  /** Totals and records taken from the events alone. */
  datatype Audit = Audit(
    deposited: int, withdrawn: int, tokenIn: int, tokenOut: int,
    transfers: seq<int>, posts: seq<int>, actions: seq<Action>)

  const BLANK: Audit := Audit(0, 0, 0, 0, [0, 0, 0], [0, 0, 0], [])

  predicate IsAccount(id: nat) {
    1 <= id <= 3
  }

  function Note(env: Env, a: Audit, log: Log): (r: Audit)
    requires |a.transfers| == |a.posts| == 3
    ensures |r.transfers| == |r.posts| == 3
  {
    if log.emitter == env.registry then NoteRegistry(a, log)
    else if log.emitter == env.token then NoteToken(env, a, log)
    else if log.emitter == env.probe then NoteProbe(a, log)
    else a
  }

  function NoteRegistry(a: Audit, log: Log): (r: Audit)
    requires |a.transfers| == |a.posts| == 3
    ensures |r.transfers| == |r.posts| == 3
  {
    if log.signature.Transfer? && |log.topics| == 3 && log.topics[0] != ZERO && IsAccount(log.topics[2])
    then a.(transfers := a.transfers[log.topics[2] - 1 := a.transfers[log.topics[2] - 1] + 1])
    else a
  }

  function NoteToken(env: Env, a: Audit, log: Log): (r: Audit)
    requires |a.transfers| == |a.posts| == 3
    ensures |r.transfers| == |r.posts| == 3
  {
    if log.signature.Transfer? && |log.topics| == 2 && |log.data| == 32 then
      var amount := ReadWord(log.data, 0);
      a.(tokenOut := a.tokenOut + (if log.topics[0] == env.probe then amount else 0),
         tokenIn := a.tokenIn + (if log.topics[1] == env.probe then amount else 0))
    else a
  }

  function NoteProbe(a: Audit, log: Log): (r: Audit)
    requires |a.transfers| == |a.posts| == 3
    ensures |r.transfers| == |r.posts| == 3
  {
    if log.signature.Posted? then
      if |log.topics| == 3 && |log.data| >= 32 && IsAccount(log.topics[1]) then
        var i := log.topics[1] - 1;
        a.(posts := a.posts[i := a.posts[i] + 1],
           actions := a.actions + [Action(i, ReadWord(log.data, 0), log.topics[2])])
      else a
    else if |log.topics| == 2 && |log.data| == 96 && IsAccount(log.topics[0]) then
      var amount := ReadWord(log.data, 0);
      a.(deposited := a.deposited + (if log.signature.Deposited? then amount else 0),
         withdrawn := a.withdrawn + (if log.signature.Withdrawn? then amount else 0),
         actions := a.actions + [Action(log.topics[0] - 1, ReadWord(log.data, 2), log.topics[1])])
    else a
  }

  function NoteLogs(env: Env, a: Audit, logs: seq<Log>): (r: Audit)
    requires |a.transfers| == |a.posts| == 3
    ensures |r.transfers| == |r.posts| == 3
  {
    if logs == [] then a else Note(env, NoteLogs(env, a, logs[..|logs| - 1]), logs[|logs| - 1])
  }

  function AuditOf(env: Env, txs: seq<Transaction>): (r: Audit)
    ensures |r.transfers| == |r.posts| == 3
  {
    if txs == [] then BLANK else NoteLogs(env, AuditOf(env, txs[..|txs| - 1]), txs[|txs| - 1].logs)
  }

  // The invariants, in three independent parts.

  /** The money: every unit is accounted for, and stakes are backed. */
  ghost predicate Backed(l: Ledger, a: Audit) {
    && Shaped(l)
    && (forall i :: 0 <= i < 3 ==> 0 <= l.stakes[i] <= l.credits[i] && l.stakes[i] <= MAX_STAKE)
    && l.total == Sum(l.credits) && 0 <= l.dust <= |l.messages|
    && l.total + l.dust == a.deposited - a.withdrawn
    && l.balance == a.tokenIn - a.tokenOut
  }

  /** The messages: numbered in order, and each account's nonces used up one by one. */
  ghost predicate Numbered(l: Ledger, a: Audit) {
    && Shaped(l) && |a.posts| == 3
    && (forall i :: 0 <= i < 3 ==> l.nonces[i] == a.posts[i] == By(l.messages, i + 1))
    && (forall k :: 0 <= k < |l.messages| ==> NumberedAt(l.messages, k))
  }

  ghost predicate NumberedAt(messages: seq<Message>, k: nat)
    requires k < |messages|
  {
    && messages[k].id == k + 1 && IsAccount(messages[k].accountId)
    && messages[k].nonce == By(messages[..k], messages[k].accountId)
  }

  function By(messages: seq<Message>, accountId: nat): nat {
    if messages == [] then 0
    else By(messages[..|messages| - 1], accountId) + if messages[|messages| - 1].accountId == accountId then 1 else 0
  }

  /** The authority: epochs count transfers, and an epoch has had one owner only. */
  ghost predicate Owned(l: Ledger, a: Audit) {
    && Shaped(l) && |a.transfers| == 3
    && (forall i :: 0 <= i < 3 ==> l.epochs[i] == a.transfers[i])
    && (forall k :: 0 <= k < |a.actions| ==> CurrentOrPast(l, a.actions[k]))
    && (forall j, k | 0 <= j < |a.actions| && 0 <= k < |a.actions| ::
         a.actions[j].index == a.actions[k].index && a.actions[j].epoch == a.actions[k].epoch
         ==> a.actions[j].owner == a.actions[k].owner)
  }

  ghost predicate CurrentOrPast(l: Ledger, action: Action)
    requires Shaped(l)
  {
    && action.index < 3 && action.epoch <= l.epochs[action.index]
    && (action.epoch == l.epochs[action.index] ==> l.owners[action.index] == Some(action.owner))
  }

  ghost predicate Sound(l: Ledger, a: Audit) {
    Backed(l, a) && Numbered(l, a) && Owned(l, a)
  }

  // One fee split.

  lemma OrderFromProduct(a: int, b: int, e: int)
    requires 0 < e && a * e < (b + 1) * e
    ensures a <= b
  {
  }

  lemma Distribute(f: int, x: int, y: int)
    requires 0 <= f && 0 <= x && 0 <= y
    ensures f * x + f * y == f * (x + y) && 0 <= f * x && 0 <= f * y
  {
  }

  lemma FloorsOfParts(n: int, m: int, f: int, e: int)
    requires 0 < e && n + m == f * e
    ensures f - 1 <= n / e + m / e <= f
    ensures 0 <= n && 0 <= m ==> 0 <= n / e && 0 <= m / e
  {
    var missing := f - n / e - m / e;
    assert n == n / e * e + n % e && m == m / e * e + m % e;
    assert missing * e == f * e - n / e * e - m / e * e;
    OrderFromProduct(missing, 1, e);
    OrderFromProduct(0, missing, e);
  }

  lemma FloorTwo(f: int, x: int, y: int)
    requires 0 < f && 0 <= x && 0 <= y && 0 < x + y
    ensures 0 <= f * x / (x + y) && 0 <= f * y / (x + y)
    ensures f - 1 <= f * x / (x + y) + f * y / (x + y) <= f
  {
    Distribute(f, x, y);
    FloorsOfParts(f * x, f * y, f, x + y);
  }

  lemma SumThree(s: seq<int>)
    requires |s| == 3
    ensures Sum(s) == s[0] + s[1] + s[2]
  {
    assert Sum(s[..1]) == s[0] by {
      assert s[..1][..0] == [];
    }
    assert Sum(s[..2]) == Sum(s[..1]) + s[1] by {
      assert s[..2][..1] == s[..1];
    }
    assert s[..3] == s;
  }

  /** A share of one fee in proportion to a stake among the eligible stake, rounded down. */
  predicate IsShare(share: int, stake: int, eligible: int) {
    share * eligible <= FEE * stake < (share + 1) * eligible
  }

  /**
   One post hands out its fee to the other two accounts: the allocations and the dust make
   up the fee, and the dust is at most one unit.
   */
  lemma FeeSplit(stakes: seq<int>, index: nat)
    requires |stakes| == 3 && index < 3 && (forall i :: 0 <= i < 3 ==> 0 <= stakes[i]) && 0 < Eligible(stakes, index)
    ensures var allocations := Split(stakes, index);
      && FEE - 1 <= Sum(allocations) <= FEE && allocations[index] == 0
      && forall i :: 0 <= i < 3 ==> 0 <= allocations[i] <= FEE
  {
    var j, k := if index == 0 then 1 else 0, if index == 2 then 1 else 2;
    SumThree(stakes[index := 0]);
    SumThree(Split(stakes, index));
    FloorTwo(FEE, stakes[j], stakes[k]);
  }

  lemma ShareIsFloor(share: int, stake: int, eligible: int)
    requires 0 < eligible
    ensures IsShare(share, stake, eligible) <==> share == FEE * stake / eligible
  {
    FloorIsOne(FEE * stake, share, eligible);
  }

  lemma FloorIsOne(n: int, k: int, e: int)
    requires 0 < e
    ensures k * e <= n < (k + 1) * e <==> k == n / e
  {
    var q := n / e;
    assert n == q * e + n % e;
    if k * e <= n < (k + 1) * e {
      OrderFromProduct(k, q, e);
      OrderFromProduct(q, k, e);
    }
  }

  /** The allocations are the ones in proportion to the stakes: nothing for the payer, and for the others their share. */
  lemma SharesInProportion(stakes: seq<int>, index: nat, allocations: seq<int>)
    requires |stakes| == |allocations| == 3 && index < 3 && 0 < Eligible(stakes, index)
    ensures Eligible(stakes, index) == stakes[0] + stakes[1] + stakes[2] - stakes[index]
    ensures allocations == Split(stakes, index)
       <==> allocations[index] == 0
            && forall i :: 0 <= i < 3 && i != index ==> IsShare(allocations[i], stakes[i], Eligible(stakes, index))
  {
    SumThree(stakes[index := 0]);
    hide IsShare, Eligible;
    forall i | 0 <= i < 3
      ensures IsShare(allocations[i], stakes[i], Eligible(stakes, index))
         <==> allocations[i] == FEE * stakes[i] / Eligible(stakes, index)
    {
      ShareIsFloor(allocations[i], stakes[i], Eligible(stakes, index));
    }
  }

  /** The stake cap is what keeps the arithmetic of a post within 256 bits; its overflow test never fires. */
  lemma PostFitsWord(l: Ledger, a: Audit, index: nat)
    requires Backed(l, a) && index < 3
    ensures Eligible(l.stakes, index) <= MAX
    ensures forall i :: 0 <= i < 3 ==> FEE * l.stakes[i] <= MAX
  {
    SumThree(l.stakes[index := 0]);
    forall i | 0 <= i < 3 ensures FEE * l.stakes[i] <= MAX {
      assert FEE * l.stakes[i] <= FEE * MAX_STAKE;
    }
  }

  // Each event keeps each part.

  /** What a transfer of one account does to the parts of the invariant that see it. */
  lemma TransferKeeps(l: Ledger, next: Ledger, a: Audit, b: Audit, index: nat)
    requires Owned(l, a) && Shaped(next) && index < 3 && |b.transfers| == 3 && b.actions == a.actions
    requires next.epochs == l.epochs[index := l.epochs[index] + 1] && b.transfers == a.transfers[index := a.transfers[index] + 1]
    requires forall i :: 0 <= i < 3 && i != index ==> next.owners[i] == l.owners[i]
    ensures Owned(next, b)
  {
    forall k | 0 <= k < |b.actions| ensures CurrentOrPast(next, b.actions[k]) {
      assert CurrentOrPast(l, a.actions[k]);
    }
  }

  lemma MintKeeps(l: Ledger, next: Ledger, a: Audit, index: nat)
    requires Owned(l, a) && Shaped(next) && index < 3 && l.owners[index].None? && next.epochs == l.epochs
    requires forall i :: 0 <= i < 3 && i != index ==> next.owners[i] == l.owners[i]
    ensures Owned(next, a)
  {
    forall k | 0 <= k < |a.actions| ensures CurrentOrPast(next, a.actions[k]) {
      assert CurrentOrPast(l, a.actions[k]);
    }
  }

  lemma RegistryKeeps(env: Env, l: Ledger, ctx: Context, log: Log, a: Audit)
    requires Sound(l, a) && RegistryEvent(env, l, ctx, log).Some?
    ensures Sound(RegistryEvent(env, l, ctx, log).value.0, NoteRegistry(a, log))
  {
    var next, b := RegistryEvent(env, l, ctx, log).value.0, NoteRegistry(a, log);
    if log.signature.Transfer? {
      if log.topics[0] == ZERO {
        MintKeeps(l, next, a, log.topics[2] - 1);
      } else {
        TransferKeeps(l, next, a, b, log.topics[2] - 1);
      }
    }
  }

  lemma TokenKeeps(env: Env, l: Ledger, ctx: Context, log: Log, a: Audit)
    requires Sound(l, a) && TokenEvent(env, l, ctx, log).Some?
    ensures Sound(TokenEvent(env, l, ctx, log).value.0, NoteToken(env, a, log))
  {
    var next := TokenEvent(env, l, ctx, log).value.0;
    forall k | 0 <= k < |a.actions| ensures CurrentOrPast(next, a.actions[k]) {
      assert CurrentOrPast(l, a.actions[k]);
    }
  }

  /** The audit a probe event of one account, epoch and owner leads to. */
  function Acted(a: Audit, action: Action): Audit {
    a.(actions := a.actions + [action])
  }

  lemma ActionKeeps(l: Ledger, next: Ledger, a: Audit, action: Action)
    requires Owned(l, a) && Shaped(next) && next.owners == l.owners && next.epochs == l.epochs
    requires action.index < 3 && l.owners[action.index] == Some(action.owner) && l.epochs[action.index] == action.epoch
    ensures Owned(next, Acted(a, action))
  {
    var b := Acted(a, action);
    forall k | 0 <= k < |b.actions| ensures CurrentOrPast(next, b.actions[k]) {
      if k < |a.actions| {
        assert CurrentOrPast(l, a.actions[k]);
      }
    }
    forall j, k | 0 <= j < |b.actions| && 0 <= k < |b.actions|
        && b.actions[j].index == b.actions[k].index && b.actions[j].epoch == b.actions[k].epoch
      ensures b.actions[j].owner == b.actions[k].owner
    {
      assert CurrentOrPast(next, b.actions[j]) && CurrentOrPast(next, b.actions[k]);
    }
  }

  lemma AmountMoney(env: Env, l: Ledger, ctx: Context, kind: Kind, d: AmountData, a: Audit)
    requires Backed(l, a) && d.index < 3 && ApplyAmount(env, l, ctx, kind, d).Some?
    ensures var next := ApplyAmount(env, l, ctx, kind, d).value;
      && next.total == Sum(next.credits) && next.messages == l.messages && next.nonces == l.nonces
      && next.owners == l.owners && next.epochs == l.epochs && next.balance == l.balance && next.dust == l.dust
      && (forall i :: 0 <= i < 3 ==> 0 <= next.stakes[i] <= next.credits[i])
      && next.total == l.total + (if kind.Deposit? then d.amount else 0) - (if kind.Withdraw? then d.amount else 0)
  {
    SumUpdate(l.credits, d.index, ApplyAmount(env, l, ctx, kind, d).value.credits[d.index]);
  }

  lemma AddedSum(credits: seq<int>, amounts: seq<int>)
    requires |credits| == |amounts| == 3
    ensures Sum(Added(credits, amounts)) == Sum(credits) + Sum(amounts)
  {
    SumThree(credits);
    SumThree(amounts);
    SumThree(Added(credits, amounts));
  }

  lemma PostMoney(env: Env, l: Ledger, ctx: Context, d: PostData, a: Audit)
    requires Backed(l, a) && d.index < 3 && |d.allocations| == 3 && ApplyPost(env, l, ctx, d).Some?
    ensures var next := ApplyPost(env, l, ctx, d).value;
      && next.total == Sum(next.credits) && next.total + next.dust == l.total + l.dust
      && 0 <= next.dust <= |next.messages| && next.balance == l.balance
      && next.stakes == l.stakes && next.owners == l.owners && next.epochs == l.epochs
      && (forall i :: 0 <= i < 3 ==> 0 <= next.stakes[i] <= next.credits[i])
  {
    var i, split := d.index, Split(l.stakes, d.index);
    FeeSplit(l.stakes, i);
    SumUpdate(l.credits, i, l.credits[i] - FEE);
    AddedSum(l.credits[i := l.credits[i] - FEE], split);
  }

  lemma ByAppend(messages: seq<Message>, m: Message, accountId: nat)
    ensures By(messages + [m], accountId) == By(messages, accountId) + if m.accountId == accountId then 1 else 0
  {
    assert (messages + [m])[..|messages|] == messages;
  }

  lemma MessageKeeps(l: Ledger, next: Ledger, a: Audit, index: nat, m: Message)
    requires Numbered(l, a) && Shaped(next) && index < 3
    requires next.messages == l.messages + [m] && next.nonces == l.nonces[index := l.nonces[index] + 1]
    requires m.id == |l.messages| + 1 && m.accountId == index + 1 && m.nonce == l.nonces[index]
    ensures Numbered(next, a.(posts := a.posts[index := a.posts[index] + 1]))
  {
    ByAppend(l.messages, m, 1);
    ByAppend(l.messages, m, 2);
    ByAppend(l.messages, m, 3);
    forall k | 0 <= k < |next.messages| ensures NumberedAt(next.messages, k) {
      assert next.messages[..k] == l.messages[..k];
      if k == |l.messages| {
        assert l.messages[..k] == l.messages;
      } else {
        assert NumberedAt(l.messages, k);
      }
    }
  }

  /** The audit after one post. */
  function PostNoted(a: Audit, d: PostData): Audit
    requires d.index < 3 && |a.posts| == 3
  {
    a.(posts := a.posts[d.index := a.posts[d.index] + 1], actions := a.actions + [Action(d.index, d.epoch, d.owner)])
  }

  lemma PostNumbers(env: Env, l: Ledger, ctx: Context, d: PostData, a: Audit)
    requires Numbered(l, a) && d.index < 3 && |d.allocations| == 3 && ApplyPost(env, l, ctx, d).Some?
    ensures Numbered(ApplyPost(env, l, ctx, d).value, PostNoted(a, d))
  {
    var next := ApplyPost(env, l, ctx, d).value;
    PostMessage(env, l, ctx, d);
    hide ApplyPost;
    MessageKeeps(l, next, a, d.index, next.messages[|l.messages|]);
  }

  lemma PostMessage(env: Env, l: Ledger, ctx: Context, d: PostData)
    requires Shaped(l) && d.index < 3 && |d.allocations| == 3 && ApplyPost(env, l, ctx, d).Some?
    ensures var next, n := ApplyPost(env, l, ctx, d).value, |l.messages|;
      && |next.messages| == n + 1 && next.messages == l.messages + [next.messages[n]]
      && next.messages[n].id == n + 1 && next.messages[n].accountId == d.index + 1
      && next.messages[n].nonce == l.nonces[d.index]
      && next.nonces == l.nonces[d.index := l.nonces[d.index] + 1]
  {
    hide Split, Eligible, Added;
  }

  lemma PostNotes(env: Env, l: Ledger, ctx: Context, log: Log, a: Audit)
    requires Shaped(l) && |a.transfers| == |a.posts| == 3 && log.signature.Posted? && ProbeBranch(env, l, ctx, log).Some?
    ensures var next, d := ProbeBranch(env, l, ctx, log).value.0, ReadPosted(env.format, log).value;
      && ApplyPost(env, l, ctx, d) == Some(next) && NoteProbe(a, log) == PostNoted(a, d)
      && next.owners[d.index] == Some(d.owner) && next.epochs[d.index] == d.epoch
  {
    hide ApplyPost, ReadDynamic;
  }

  lemma BranchPostKeeps(env: Env, l: Ledger, ctx: Context, log: Log, a: Audit)
    requires Sound(l, a) && log.signature.Posted? && ProbeBranch(env, l, ctx, log).Some?
    ensures var next, b := ProbeBranch(env, l, ctx, log).value.0, NoteProbe(a, log);
      && Numbered(next, b) && Owned(next, b) && next.total == Sum(next.credits)
      && next.total + next.dust == b.deposited - b.withdrawn && 0 <= next.dust <= |next.messages|
      && next.balance == l.balance && (b.tokenIn, b.tokenOut) == (a.tokenIn, a.tokenOut)
      && (forall i :: 0 <= i < 3 ==> 0 <= next.stakes[i] <= next.credits[i])
  {
    PostNotes(env, l, ctx, log, a);
    PostKeeps(env, l, ctx, ReadPosted(env.format, log).value, a, ProbeBranch(env, l, ctx, log).value.0);
  }

  lemma PostKeeps(env: Env, l: Ledger, ctx: Context, d: PostData, a: Audit, next: Ledger)
    requires Sound(l, a) && d.index < 3 && |d.allocations| == 3 && ApplyPost(env, l, ctx, d) == Some(next)
    requires next.owners[d.index] == Some(d.owner) && next.epochs[d.index] == d.epoch
    ensures var b := PostNoted(a, d);
      && Numbered(next, b) && Owned(next, b) && next.total == Sum(next.credits)
      && next.total + next.dust == b.deposited - b.withdrawn && 0 <= next.dust <= |next.messages|
      && next.balance == l.balance && (forall i :: 0 <= i < 3 ==> 0 <= next.stakes[i] <= next.credits[i])
  {
    PostMoney(env, l, ctx, d, a);
    PostNumbers(env, l, ctx, d, a);
    ActionKeeps(l, next, a, Action(d.index, d.epoch, d.owner));
  }

  lemma BranchAmountKeeps(env: Env, l: Ledger, ctx: Context, log: Log, a: Audit)
    requires Sound(l, a) && !log.signature.Posted? && ProbeBranch(env, l, ctx, log).Some?
    ensures var next, b := ProbeBranch(env, l, ctx, log).value.0, NoteProbe(a, log);
      && Numbered(next, b) && Owned(next, b) && next.total == Sum(next.credits)
      && next.total + next.dust == b.deposited - b.withdrawn && 0 <= next.dust <= |next.messages|
      && next.balance == l.balance && (b.tokenIn, b.tokenOut) == (a.tokenIn, a.tokenOut)
      && (forall i :: 0 <= i < 3 ==> 0 <= next.stakes[i] <= next.credits[i])
  {
    var next := ProbeBranch(env, l, ctx, log).value.0;
    var d := ReadAmount(log).value;
    AmountMoney(env, l, ctx, KindOfEvent(log.signature).value, d, a);
    ActionKeeps(l, next, a, Action(d.index, d.epoch, d.owner));
  }

  /** The counters are words, which no accepted event changes. */
  ghost predicate CountersFit(l: Ledger)
    requires Shaped(l)
  {
    && (forall i :: 0 <= i < 3 ==> IsUint(l.nonces[i]) && IsUint(l.epochs[i]))
    && IsUint(l.balance) && IsUint(l.dust)
  }

  /**
   The branch arithmetic alone keeps the credits summed and the stakes backed, so of the
   closing invariant check only the stake cap and the token backing can ever reject.
   */
  lemma InvariantCheckReduces(env: Env, l: Ledger, ctx: Context, log: Log, a: Audit)
    requires Sound(l, a) && CountersFit(l) && ProbeBranch(env, l, ctx, log).Some?
    ensures var next := ProbeBranch(env, l, ctx, log).value.0;
      && next.total == Sum(next.credits)
      && (forall i :: 0 <= i < 3 ==> 0 <= next.stakes[i] <= next.credits[i])
      && (Invariants(next) <==>
           && (forall i :: 0 <= i < 3 ==> next.stakes[i] <= MAX_STAKE)
           && next.total + next.dust <= MAX && next.total + next.dust <= next.balance)
  {
    var next := ProbeBranch(env, l, ctx, log).value.0;
    if log.signature.Posted? {
      BranchPostKeeps(env, l, ctx, log, a);
    } else {
      BranchAmountKeeps(env, l, ctx, log, a);
    }
    SumNonNegative(next.credits);
    CountersStayWords(env, l, ctx, log);
  }

  lemma PostCounters(env: Env, l: Ledger, ctx: Context, d: PostData)
    requires Shaped(l) && CountersFit(l) && d.index < 3 && |d.allocations| == 3 && ApplyPost(env, l, ctx, d).Some?
    ensures CountersFit(ApplyPost(env, l, ctx, d).value)
  {
  }

  lemma AmountCounters(env: Env, l: Ledger, ctx: Context, kind: Kind, d: AmountData)
    requires Shaped(l) && CountersFit(l) && d.index < 3 && ApplyAmount(env, l, ctx, kind, d).Some?
    ensures CountersFit(ApplyAmount(env, l, ctx, kind, d).value)
  {
  }

  lemma CountersStayWords(env: Env, l: Ledger, ctx: Context, log: Log)
    requires Shaped(l) && CountersFit(l) && ProbeBranch(env, l, ctx, log).Some?
    ensures CountersFit(ProbeBranch(env, l, ctx, log).value.0)
  {
    if log.signature.Posted? {
      PostCounters(env, l, ctx, ReadPosted(env.format, log).value);
    } else {
      AmountCounters(env, l, ctx, KindOfEvent(log.signature).value, ReadAmount(log).value);
    }
  }

  lemma ProbeKeeps(env: Env, l: Ledger, ctx: Context, log: Log, a: Audit)
    requires Sound(l, a) && ProbeEvent(env, l, ctx, log).Some?
    ensures Sound(ProbeEvent(env, l, ctx, log).value.0, NoteProbe(a, log))
  {
    if log.signature.Posted? {
      BranchPostKeeps(env, l, ctx, log, a);
    } else {
      BranchAmountKeeps(env, l, ctx, log, a);
    }
  }

  lemma LogKeeps(env: Env, l: Ledger, ctx: Context, log: Log, a: Audit)
    requires Sound(l, a) && ApplyLog(env, l, ctx, log).Some?
    ensures Sound(ApplyLog(env, l, ctx, log).value.0, Note(env, a, log))
  {
    if log.emitter == env.registry {
      RegistryKeeps(env, l, ctx, log, a);
    } else if log.emitter == env.token {
      TokenKeeps(env, l, ctx, log, a);
    } else {
      ProbeKeeps(env, l, ctx, log, a);
    }
  }

  lemma {:induction false} LogsKeep(env: Env, l: Ledger, ctx: Context, logs: seq<Log>, a: Audit)
    requires Sound(l, a) && ApplyLogs(env, l, ctx, logs).Some?
    ensures Sound(ApplyLogs(env, l, ctx, logs).value.0, NoteLogs(env, a, logs))
  {
    if logs != [] {
      var before := ApplyLogs(env, l, ctx, logs[..|logs| - 1]).value;
      LogsKeep(env, l, ctx, logs[..|logs| - 1], a);
      LogKeeps(env, before.0, before.1, logs[|logs| - 1], NoteLogs(env, a, logs[..|logs| - 1]));
    }
  }

  lemma CreationKeeps(env: Env, l: Ledger, creation: Option<Address>, a: Audit)
    requires Sound(l, a) && RecordCreation(env, l, creation).Some?
    ensures Sound(RecordCreation(env, l, creation).value, a)
  {
    var next := RecordCreation(env, l, creation).value;
    forall k | 0 <= k < |a.actions| ensures CurrentOrPast(next, a.actions[k]) {
      assert CurrentOrPast(l, a.actions[k]);
    }
  }

  lemma TransactionKeeps(env: Env, l: Ledger, tx: Transaction, a: Audit)
    requires Sound(l, a) && ApplyTransaction(env, l, tx).Some?
    ensures Sound(ApplyTransaction(env, l, tx).value, NoteLogs(env, a, tx.logs))
  {
    CreationKeeps(env, l, tx.creation, a);
    var created := RecordCreation(env, l, tx.creation).value;
    LogsKeep(env, created, Opening(tx, CallOf(env, created, tx).value), tx.logs, a);
  }

  lemma ZeroesSound(l: Ledger, a: Audit, zeroes: seq<int>)
    requires |zeroes| == 3 && zeroes[0] == zeroes[1] == zeroes[2] == 0
    requires |l.owners| == 3 && l.messages == [] && l.total == l.dust == l.balance == 0
    requires l.epochs == l.credits == l.stakes == l.nonces == a.transfers == a.posts == zeroes && a.actions == []
    requires a.deposited == a.withdrawn == a.tokenIn == a.tokenOut == 0
    ensures Sound(l, a)
  {
    SumThree(zeroes);
  }

  lemma EmptySound()
    ensures Sound(EMPTY, BLANK)
  {
    ZeroesSound(EMPTY, BLANK, [0, 0, 0]);
  }

  lemma ReplayLast(env: Env, txs: seq<Transaction>)
    requires txs != [] && Replay(env, txs).Some?
    ensures var before := Replay(env, txs[..|txs| - 1]);
      before.Some? && Replay(env, txs) == ApplyTransaction(env, before.value, txs[|txs| - 1])
  {
    hide ApplyTransaction;
  }

  lemma {:induction false} ReplaySound(env: Env, txs: seq<Transaction>, l: Ledger)
    requires Replay(env, txs) == Some(l)
    ensures Sound(l, AuditOf(env, txs))
  {
    hide ApplyTransaction, Sound, NoteLogs;
    if txs == [] {
      EmptySound();
    } else {
      ReplayLast(env, txs);
      var last := |txs| - 1;
      var before := Replay(env, txs[..last]).value;
      ReplaySound(env, txs[..last], before);
      TransactionKeeps(env, before, txs[last], AuditOf(env, txs[..last]));
    }
  }

  // The theorems.

  /**
   Conservation over whole histories: credits and dust are what was deposited and not
   withdrawn, the total is the sum of the credits, stakes are backed by credits, and the
   dust is at most one unit per message.
   */
  lemma Conservation(env: Env, txs: seq<Transaction>)
    requires Replay(env, txs).Some?
    ensures var l, a := Replay(env, txs).value, AuditOf(env, txs);
      && l.total + l.dust == a.deposited - a.withdrawn && l.total == Sum(l.credits)
      && l.balance == a.tokenIn - a.tokenOut && 0 <= l.dust <= |l.messages|
      && forall i :: 0 <= i < 3 ==> 0 <= l.stakes[i] <= l.credits[i]
  {
    ReplaySound(env, txs, Replay(env, txs).value);
  }

  lemma {:induction false} ByMonotone(messages: seq<Message>, k: nat, accountId: nat)
    requires k <= |messages|
    ensures By(messages[..k], accountId) <= By(messages, accountId)
  {
    if k < |messages| {
      ByMonotone(messages[..|messages| - 1], k, accountId);
      assert messages[..|messages| - 1][..k] == messages[..k];
    } else {
      assert messages[..k] == messages;
    }
  }

  lemma LaterNonceLarger(messages: seq<Message>, j: nat, k: nat)
    requires j < k < |messages| && NumberedAt(messages, j) && NumberedAt(messages, k)
    requires messages[j].accountId == messages[k].accountId
    ensures messages[j].nonce < messages[k].nonce
  {
    var id := messages[j].accountId;
    assert messages[..j + 1][..j] == messages[..j];
    assert messages[..k][..j + 1] == messages[..j + 1];
    ByMonotone(messages[..k], j + 1, id);
  }

  /**
   Replay protection over whole histories: a nonce counts its account's messages, so no
   two messages share an account and a nonce, and message numbers run from one upwards.
   */
  lemma NoncesNeverRepeat(env: Env, txs: seq<Transaction>)
    requires Replay(env, txs).Some?
    ensures var l := Replay(env, txs).value;
      && (forall i :: 0 <= i < 3 ==> l.nonces[i] == By(l.messages, i + 1) == AuditOf(env, txs).posts[i])
      && (forall k :: 0 <= k < |l.messages| ==> l.messages[k].id == k + 1)
      && forall j, k | 0 <= j < k < |l.messages| ::
           l.messages[j].accountId != l.messages[k].accountId || l.messages[j].nonce < l.messages[k].nonce
  {
    ReplaySound(env, txs, Replay(env, txs).value);
    hide Replay, AuditOf, By;
    var l := Replay(env, txs).value;
    forall k | 0 <= k < |l.messages| ensures l.messages[k].id == k + 1 {
      assert NumberedAt(l.messages, k);
    }
    forall j, k | 0 <= j < k < |l.messages| && l.messages[j].accountId == l.messages[k].accountId
      ensures l.messages[j].nonce < l.messages[k].nonce
    {
      LaterNonceLarger(l.messages, j, k);
    }
  }

  /** Epochs count transfers after minting, and within one epoch all actions of an account were its one owner's. */
  lemma OneOwnerPerEpoch(env: Env, txs: seq<Transaction>)
    requires Replay(env, txs).Some?
    ensures var l, a := Replay(env, txs).value, AuditOf(env, txs);
      && (forall i :: 0 <= i < 3 ==> l.epochs[i] == a.transfers[i])
      && forall j, k | 0 <= j < |a.actions| && 0 <= k < |a.actions| ::
           a.actions[j].index == a.actions[k].index && a.actions[j].epoch == a.actions[k].epoch
           ==> a.actions[j].owner == a.actions[k].owner
  {
    ReplaySound(env, txs, Replay(env, txs).value);
  }
}
