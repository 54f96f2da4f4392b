/**
 The books of each account, kept from the words of the events alone, and the messages as
 the events spell them: what the reader's ledger holds is what they add up to.
 */
module PaidBooks {
  import opened Bytes
  import opened PaidAbi
  import opened PaidHistory
  import opened PaidLedger
  import opened Wrappers

  /** What the events say of one account; shares are what it was allotted out of the posts of others. */
  datatype Book = Book(deposited: nat, withdrawn: nat, staked: nat, unstaked: nat, posts: nat, shares: nat,
                       owner: Option<Address>)

  const NO_BOOK: Book := Book(0, 0, 0, 0, 0, 0, None)

  /** One event in the book of the account with the given position. */
  function NoteBook(env: Env, b: Book, log: Log, i: nat): Book
    requires i < 3
  {
    if log.emitter == env.registry then
      if log.signature.Transfer? && |log.topics| == 3 && log.topics[2] == i + 1 then b.(owner := Some(log.topics[1])) else b
    else if log.emitter == env.token || log.emitter != env.probe then b
    else if log.signature.Posted? then
      if |log.topics| == 3 && |log.data| >= 320 then
        b.(posts := b.posts + (if log.topics[1] == i + 1 then 1 else 0), shares := b.shares + ReadWord(log.data, 5 + i))
      else b
    else if |log.topics| == 2 && |log.data| == 96 && log.topics[0] == i + 1 then
      var amount := ReadWord(log.data, 0);
      match log.signature
      case Deposited => b.(deposited := b.deposited + amount)
      case Withdrawn => b.(withdrawn := b.withdrawn + amount)
      case Staked => b.(staked := b.staked + amount)
      case Unstaked => b.(unstaked := b.unstaked + amount)
      case _ => b
    else b
  }

  function NoteBooks(env: Env, b: Book, logs: seq<Log>, i: nat): Book
    requires i < 3
  {
    if logs == [] then b else NoteBook(env, NoteBooks(env, b, logs[..|logs| - 1], i), logs[|logs| - 1], i)
  }

  function BookOf(env: Env, txs: seq<Transaction>, i: nat): Book
    requires i < 3
  {
    if txs == [] then NO_BOOK else NoteBooks(env, BookOf(env, txs[..|txs| - 1], i), txs[|txs| - 1].logs, i)
  }

  /** The message a posted event spells: fixed words first, the text after its length. */
  function Spelled(log: Log): Message
    requires |log.topics| == 3 && |log.data| >= 320 && 320 + ReadWord(log.data, 9) <= |log.data|
  {
    var d := log.data;
    Message(log.topics[0], log.topics[1], log.topics[2], ReadWord(d, 0), ReadWord(d, 1), d[320..320 + ReadWord(d, 9)],
            ReadWord(d, 3), d[128..160], [ReadWord(d, 5), ReadWord(d, 6), ReadWord(d, 7)], ReadWord(d, 8))
  }

  predicate SpellsMessage(env: Env, log: Log) {
    && log.emitter == env.probe && log.emitter != env.registry && log.emitter != env.token && log.signature.Posted?
    && |log.topics| == 3 && |log.data| >= 320 && 320 + ReadWord(log.data, 9) <= |log.data|
  }

  function SpelledMessages(env: Env, logs: seq<Log>): seq<Message> {
    if logs == [] then [] else
    var log := logs[|logs| - 1];
    SpelledMessages(env, logs[..|logs| - 1]) + if SpellsMessage(env, log) then [Spelled(log)] else []
  }

  function MessagesOf(env: Env, txs: seq<Transaction>): seq<Message> {
    if txs == [] then [] else MessagesOf(env, txs[..|txs| - 1]) + SpelledMessages(env, txs[|txs| - 1].logs)
  }

  // One event.

  /** The ledger holds what the book adds up to. */
  ghost predicate Kept(l: Ledger, b: Book, i: nat) {
    && Shaped(l) && i < 3
    && l.credits[i] == b.deposited - b.withdrawn - FEE * b.posts + b.shares
    && l.stakes[i] == b.staked - b.unstaked && l.nonces[i] == b.posts && l.owners[i] == b.owner
  }

  lemma RegistryBook(env: Env, l: Ledger, ctx: Context, log: Log, b: Book, i: nat)
    requires Kept(l, b, i) && log.emitter == env.registry && RegistryEvent(env, l, ctx, log).Some?
    ensures var next := RegistryEvent(env, l, ctx, log).value.0;
      Kept(next, NoteBook(env, b, log, i), i) && next.messages == l.messages
  {
  }

  lemma TokenBook(env: Env, l: Ledger, ctx: Context, log: Log, b: Book, i: nat)
    requires Kept(l, b, i) && log.emitter == env.token != env.registry && TokenEvent(env, l, ctx, log).Some?
    ensures var next := TokenEvent(env, l, ctx, log).value.0;
      Kept(next, NoteBook(env, b, log, i), i) && next.messages == l.messages
  {
  }

  lemma AmountApplied(env: Env, l: Ledger, ctx: Context, kind: Kind, d: AmountData)
    requires Shaped(l) && d.index < 3 && ApplyAmount(env, l, ctx, kind, d).Some?
    ensures var next := ApplyAmount(env, l, ctx, kind, d).value;
      && next.credits == l.credits[d.index := l.credits[d.index]
           + (if kind.Deposit? then d.amount else 0) - (if kind.Withdraw? then d.amount else 0)]
      && next.stakes == l.stakes[d.index := l.stakes[d.index]
           + (if kind.Stake? then d.amount else 0) - (if kind.Unstake? then d.amount else 0)]
      && next.owners == l.owners && next.nonces == l.nonces && next.messages == l.messages
  {
  }

  lemma AmountRead(env: Env, l: Ledger, ctx: Context, log: Log)
    requires Shaped(l) && !log.signature.Posted? && ProbeBranch(env, l, ctx, log).Some?
    ensures var kind, d := KindOfEvent(log.signature), ReadAmount(log);
      kind.Some? && d.Some? && ApplyAmount(env, l, ctx, kind.value, d.value) == Some(ProbeBranch(env, l, ctx, log).value.0)
  {
    hide ApplyAmount;
  }

  lemma AmountBook(env: Env, l: Ledger, ctx: Context, log: Log, b: Book, i: nat)
    requires Kept(l, b, i) && log.emitter == env.probe && log.emitter != env.registry && log.emitter != env.token
    requires !log.signature.Posted? && ProbeBranch(env, l, ctx, log).Some?
    ensures var next := ProbeBranch(env, l, ctx, log).value.0;
      Kept(next, NoteBook(env, b, log, i), i) && next.messages == l.messages
  {
    AmountRead(env, l, ctx, log);
    AmountApplied(env, l, ctx, KindOfEvent(log.signature).value, ReadAmount(log).value);
    hide ApplyAmount, ProbeBranch;
  }

  /** What an accepted post does to the ledger. */
  lemma PostApplied(env: Env, l: Ledger, ctx: Context, d: PostData, i: nat)
    requires Shaped(l) && d.index < 3 && |d.allocations| == 3 && i < 3 && ApplyPost(env, l, ctx, d).Some?
    ensures var next := ApplyPost(env, l, ctx, d).value;
      && next.credits[i] == l.credits[i] - (if d.index == i then FEE else 0) + d.allocations[i]
      && next.stakes == l.stakes && next.owners == l.owners
      && next.nonces == l.nonces[d.index := l.nonces[d.index] + 1]
      && next.messages == l.messages + [Message(d.messageId, d.index + 1, d.owner, d.epoch, d.nonce, d.text, d.fee,
                                                d.distributionHash, d.allocations, d.dust)]
  {
    hide Split, Eligible;
  }

  /** The words of a posted event, read one by one. */
  lemma PostedWords(f: Format, log: Log)
    requires ReadPosted(f, log).Some?
    ensures |log.topics| == 3 && |log.data| >= 320 && 320 + ReadWord(log.data, 9) <= |log.data|
    ensures var d := ReadPosted(f, log).value;
      && d.index + 1 == log.topics[1]
      && d.allocations == [ReadWord(log.data, 5), ReadWord(log.data, 6), ReadWord(log.data, 7)]
      && Spelled(log) == Message(d.messageId, d.index + 1, d.owner, d.epoch, d.nonce, d.text, d.fee, d.distributionHash,
                                 d.allocations, d.dust)
  {
    var (text, end) := ReadDynamic(log.data, 288, MAX_TEXT).value;
    assert 32 * 9 == 288;
    assert ReadWord(log.data, 9) == FromBig(log.data[288..320]);
  }

  lemma PostRead(env: Env, l: Ledger, ctx: Context, log: Log)
    requires Shaped(l) && log.signature.Posted? && ProbeBranch(env, l, ctx, log).Some?
    ensures ReadPosted(env.format, log).Some?
    ensures ApplyPost(env, l, ctx, ReadPosted(env.format, log).value) == Some(ProbeBranch(env, l, ctx, log).value.0)
  {
    hide ApplyPost, ReadDynamic;
  }

  lemma PostNoted(env: Env, l: Ledger, next: Ledger, log: Log, b: Book, i: nat, index: nat, allocations: seq<nat>)
    requires Kept(l, b, i) && log.emitter == env.probe && log.emitter != env.registry && log.emitter != env.token
    requires log.signature.Posted? && |log.topics| == 3 && |log.data| >= 320 && index + 1 == log.topics[1]
    requires allocations == [ReadWord(log.data, 5), ReadWord(log.data, 6), ReadWord(log.data, 7)] && Shaped(next)
    requires next.credits[i] == l.credits[i] - (if index == i then FEE else 0) + allocations[i]
    requires next.stakes == l.stakes && next.owners == l.owners
    requires next.nonces[i] == l.nonces[i] + (if index == i then 1 else 0)
    ensures Kept(next, NoteBook(env, b, log, i), i)
  {
    hide ReadWord;
    OneMorePost(b.posts);
  }

  lemma PostBook(env: Env, l: Ledger, ctx: Context, log: Log, b: Book, i: nat)
    requires Kept(l, b, i) && log.emitter == env.probe && log.emitter != env.registry && log.emitter != env.token
    requires log.signature.Posted? && ProbeBranch(env, l, ctx, log).Some?
    ensures var next := ProbeBranch(env, l, ctx, log).value.0;
      Kept(next, NoteBook(env, b, log, i), i) && SpellsMessage(env, log) && next.messages == l.messages + [Spelled(log)]
  {
    var next, d := ProbeBranch(env, l, ctx, log).value.0, ReadPosted(env.format, log).value;
    PostRead(env, l, ctx, log);
    PostedWords(env.format, log);
    PostApplied(env, l, ctx, d, i);
    hide ApplyPost, ProbeBranch, ReadPosted, ReadWord, Spelled, NoteBook;
    PostNoted(env, l, next, log, b, i, d.index, d.allocations);
  }

  lemma OneMorePost(posts: nat)
    ensures FEE * (posts + 1) == FEE * posts + FEE
  {
  }

  /** The messages of one event, if it is one. */
  function MessagesIn(env: Env, log: Log): seq<Message> {
    if SpellsMessage(env, log) then [Spelled(log)] else []
  }

  lemma LogBook(env: Env, l: Ledger, ctx: Context, log: Log, b: Book, i: nat)
    requires Kept(l, b, i) && ApplyLog(env, l, ctx, log).Some?
    ensures var next := ApplyLog(env, l, ctx, log).value.0;
      Kept(next, NoteBook(env, b, log, i), i) && next.messages == l.messages + MessagesIn(env, log)
  {
    hide Kept, NoteBook, RegistryEvent, TokenEvent, ProbeBranch, Invariants, Spelled;
    if log.emitter == env.registry {
      RegistryBook(env, l, ctx, log, b, i);
    } else if log.emitter == env.token {
      TokenBook(env, l, ctx, log, b, i);
    } else if log.signature.Posted? {
      PostBook(env, l, ctx, log, b, i);
    } else {
      AmountBook(env, l, ctx, log, b, i);
    }
  }

  // Whole histories.

  lemma {:induction false} LogsBook(env: Env, l: Ledger, ctx: Context, logs: seq<Log>, b: Book, i: nat)
    requires Kept(l, b, i) && ApplyLogs(env, l, ctx, logs).Some?
    ensures var next := ApplyLogs(env, l, ctx, logs).value.0;
      Kept(next, NoteBooks(env, b, logs, i), i) && next.messages == l.messages + SpelledMessages(env, logs)
  {
    hide ApplyLog, NoteBook, Spelled;
    if logs != [] {
      var before, log := logs[..|logs| - 1], logs[|logs| - 1];
      var (mid, during) := ApplyLogs(env, l, ctx, before).value;
      LogsBook(env, l, ctx, before, b, i);
      LogBook(env, mid, during, log, NoteBooks(env, b, before, i), i);
      var spelled := SpelledMessages(env, before);
      assert l.messages + spelled + MessagesIn(env, log) == l.messages + (spelled + MessagesIn(env, log));
    }
  }

  lemma TransactionBook(env: Env, l: Ledger, tx: Transaction, b: Book, i: nat)
    requires Kept(l, b, i) && ApplyTransaction(env, l, tx).Some?
    ensures var next := ApplyTransaction(env, l, tx).value;
      Kept(next, NoteBooks(env, b, tx.logs, i), i) && next.messages == l.messages + SpelledMessages(env, tx.logs)
  {
    hide ApplyLogs, Invariants, CreationConfirmed, ReadCall, NoteBooks, SpelledMessages;
    var created := RecordCreation(env, l, tx.creation).value;
    LogsBook(env, created, Opening(tx, CallOf(env, created, tx).value), tx.logs, b, i);
  }

  /**
   The ledger of every accepted history, account by account: credits are deposits less
   withdrawals and fees plus shares, stakes are what was staked less what was unstaked, the
   nonce is the number of posts, the owner is the receiver of the last transfer, and the messages are those the events spell.
   */
  lemma {:induction false} BooksKept(env: Env, txs: seq<Transaction>, l: Ledger, i: nat)
    requires Replay(env, txs) == Some(l) && i < 3
    ensures var b := BookOf(env, txs, i);
      && Shaped(l) && l.credits[i] == b.deposited - b.withdrawn - FEE * b.posts + b.shares
      && l.stakes[i] == b.staked - b.unstaked && l.nonces[i] == b.posts && l.owners[i] == b.owner
    ensures l.messages == MessagesOf(env, txs)
  {
    hide ApplyTransaction, NoteBooks, SpelledMessages;
    if txs != [] {
      ReplayLast(env, txs);
      var before, tx := txs[..|txs| - 1], txs[|txs| - 1];
      var mid := Replay(env, before).value;
      BooksKept(env, before, mid, i);
      TransactionBook(env, mid, tx, BookOf(env, before, i), i);
    }
  }
}
