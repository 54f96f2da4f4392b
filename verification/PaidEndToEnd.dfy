/** From the chain to the account books: collecting a history, reading it, and what its end state then says. */
module PaidEndToEnd {
  import opened Sums
  import opened PaidLedger
  import opened PaidBooks
  import opened PaidHistory
  import opened PaidReconstruct
  import C = Chain
  import Collectors
  import CollectorsReadable
  import PaidSurplus
  import opened Wrappers

  /** An end state that is what the events add up to, account by account and in all. */
  ghost predicate EndsAsBooked(env: Env, txs: seq<Transaction>, e: C.Endpoint) {
    var a := AuditOf(env, txs);
    && |e.owners| == |e.epochs| == |e.credits| == |e.stakes| == |e.nonces| == 3
    && (forall i | 0 <= i < 3 :: AccountEndsAs(BookOf(env, txs, i), e, i) && e.epochs[i] == a.transfers[i])
    && e.total == e.credits[0] + e.credits[1] + e.credits[2] && e.total + e.dust == a.deposited - a.withdrawn
    && e.balance == a.tokenIn - a.tokenOut && e.messageCount == |MessagesOf(env, txs)|
  }

  ghost predicate AccountEndsAs(b: Book, e: C.Endpoint, i: nat)
    requires i < |e.owners| == |e.credits| == |e.stakes| == |e.nonces|
  {
    && b.owner == Some(e.owners[i]) && e.credits[i] == b.deposited - b.withdrawn - FEE * b.posts + b.shares
    && e.stakes[i] == b.staked - b.unstaked && e.nonces[i] == b.posts
  }

  /** What is known of the ledger a replay ends with. */
  ghost predicate Accounted(env: Env, txs: seq<Transaction>, l: Ledger) {
    var a := AuditOf(env, txs);
    && Shaped(l)
    && l.total == Sum(l.credits) && l.total + l.dust == a.deposited - a.withdrawn && l.balance == a.tokenIn - a.tokenOut
    && l.total + l.dust <= l.balance && l.dust <= |l.messages| && l.messages == MessagesOf(env, txs)
    && forall i | 0 <= i < 3 ::
         l.stakes[i] <= l.credits[i] && l.epochs[i] == a.transfers[i] && Kept(l, BookOf(env, txs, i), i)
  }

  lemma LedgerAccounted(env: Env, txs: seq<Transaction>, l: Ledger)
    requires Replay(env, txs) == Some(l)
    ensures Accounted(env, txs, l)
  {
    hide Replay, AuditOf, BookOf, MessagesOf;
    Conservation(env, txs);
    OneOwnerPerEpoch(env, txs);
    PaidSurplus.HistorySurplus(env, txs, l);
    BooksKept(env, txs, l, 0);
    BooksKept(env, txs, l, 1);
    BooksKept(env, txs, l, 2);
  }

  lemma MatchesAsBooked(env: Env, txs: seq<Transaction>, l: Ledger, e: C.Endpoint)
    requires Accounted(env, txs, l)
    ensures MatchesEndpoint(l, e) <==> EndsAsBooked(env, txs, e)
    ensures MatchesEndpoint(l, e) ==> e.total + e.dust <= e.balance && e.dust <= e.messageCount
    ensures MatchesEndpoint(l, e) ==> forall i :: 0 <= i < 3 ==> e.stakes[i] <= e.credits[i]
  {
    hide AuditOf, BookOf, MessagesOf;
    SumThree(l.credits);
  }

  /**
   A history is accepted exactly if it has the shape, its events are accepted one after the
   other, and its end state is the one the events add up to.
   */
  lemma AcceptedAsBooked(rules: Rules, h: C.History, c: C.Config)
    ensures var env, txs := EnvOf(rules, h, c), Flat(rules, h.blocks, |h.blocks|);
      Reconstruct(rules, h, c).Some? <==>
        C.Readable(h, c, rules.digest) && Rebuild(env, txs).Some? && EndsAsBooked(env, txs, h.endpoint)
  {
    hide C.Readable, Replay, Flat, MatchesEndpoint, EndsAsBooked, Accounted;
    var env, txs := EnvOf(rules, h, c), Flat(rules, h.blocks, |h.blocks|);
    if Replay(env, txs).Some? {
      LedgerAccounted(env, txs, Replay(env, txs).value);
      MatchesAsBooked(env, txs, Replay(env, txs).value, h.endpoint);
    }
  }

  /**
   The end state of every history the reader accepts is accounted for by the events alone:
   each account's credit, stake, nonce, epoch and owner, the totals, the dust and the balance;
   and it is solvent.
   */
  lemma EndStateAccounted(rules: Rules, h: C.History, c: C.Config)
    requires Reconstruct(rules, h, c).Some?
    ensures var e := h.endpoint;
      && EndsAsBooked(EnvOf(rules, h, c), Flat(rules, h.blocks, |h.blocks|), e)
      && e.total + e.dust <= e.balance && e.dust <= e.messageCount && forall i :: 0 <= i < 3 ==> e.stakes[i] <= e.credits[i]
  {
    hide *;
    Accepted(rules, h, c);
    var env, txs := EnvOf(rules, h, c), Flat(rules, h.blocks, |h.blocks|);
    LedgerAccounted(env, txs, Replay(env, txs).value);
    MatchesAsBooked(env, txs, Replay(env, txs).value, h.endpoint);
  }

  lemma Accepted(rules: Rules, h: C.History, c: C.Config)
    requires Reconstruct(rules, h, c).Some?
    ensures var l := Replay(EnvOf(rules, h, c), Flat(rules, h.blocks, |h.blocks|));
      l.Some? && MatchesEndpoint(l.value, h.endpoint)
  {
    hide Replay, Flat, C.Readable, MatchesEndpoint;
  }

  // What the reader makes of the entries.

  /** A transaction says what its entry does: the fields, the outcome, the block's time, and its logs in order. */
  ghost predicate Says(rules: Rules, header: C.Header, e: C.Entry, tx: Transaction) {
    && tx.sender == e.body.sender && tx.target == e.body.to && tx.creation == e.receipt.creation
    && (tx.success <==> e.receipt.status == 1) && tx.calldata == e.body.data && tx.timestamp == header.timestamp
    && |tx.logs| == |e.receipt.logs| && forall j :: 0 <= j < |tx.logs| ==> SaysLog(rules, e.receipt.logs[j], tx.logs[j])
  }

  /** The first topic names the event, the others are its indexed words. */
  ghost predicate SaysLog(rules: Rules, entry: C.LogEntry, log: Log) {
    && log.emitter == entry.emitter && log.data == entry.data
    && (entry.topics != [] ==> log.signature == rules.signature(entry.topics[0]) && log.topics == entry.topics[1..])
  }

  lemma {:induction false} OneForEachEntry(rules: Rules, blocks: seq<C.Block>, n: nat)
    requires n <= |blocks|
    ensures |Flat(rules, blocks, n)| == C.EntryCount(blocks, n)
  {
    if n != 0 {
      OneForEachEntry(rules, blocks, n - 1);
    }
  }

  /** The reader reads every entry of every block once, in chain order. */
  lemma {:induction false} EveryEntryIsRead(rules: Rules, blocks: seq<C.Block>, n: nat, i: nat, k: nat)
    requires i < n <= |blocks| && k < |blocks[i].entries|
    ensures |Flat(rules, blocks, n)| == C.EntryCount(blocks, n)
    ensures C.EntryCount(blocks, i) + k < |Flat(rules, blocks, n)|
    ensures Says(rules, blocks[i].header, blocks[i].entries[k], Flat(rules, blocks, n)[C.EntryCount(blocks, i) + k])
  {
    hide Says;
    OneForEachEntry(rules, blocks, n);
    OneForEachEntry(rules, blocks, n - 1);
    if i == n - 1 {
      EntrySays(rules, blocks[i], k);
    } else {
      EveryEntryIsRead(rules, blocks, n - 1, i, k);
    }
  }

  lemma EntrySays(rules: Rules, b: C.Block, k: nat)
    requires k < |b.entries|
    ensures Says(rules, b.header, b.entries[k], TransactionsOf(rules, b)[k])
  {
  }

  /** Whether the reader accepts what the forward collector returns depends on the events and the end state only. */
  lemma CollectedIsJudgedByEvents(rules: Rules, store: Collectors.Store, c: C.Config, h: C.History)
    requires Collectors.Forward(store, c, rules.digest) && h == Collectors.ForwardHistory(store, c, rules.digest)
    ensures var l := Rebuild(EnvOf(rules, h, c), Flat(rules, h.blocks, |h.blocks|));
      Reconstruct(rules, h, c).Some? <==> l.Some? && MatchesEndpoint(l.value, h.endpoint)
  {
    CollectorsReadable.ForwardIsReadable(store, c, rules.digest, h);
    hide C.Readable, Rebuild, Flat, MatchesEndpoint, Collectors.ForwardHistory;
  }
}
