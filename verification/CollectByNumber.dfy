/** The forward collector as it runs: full blocks by number, receipts, then one query for all logs. */
module CollectByNumber {
  import opened Bytes
  import opened Chain
  import opened Collectors
  import opened Wrappers

  /** The logs of one receipt, in order and each in its place. */
  method CheckLogs(r: Receipt, header: Header, k: nat, before: nat) returns (ok: bool, logs: seq<LogEntry>)
    ensures ok <==> ForwardLogs(r, header, k, before)
    ensures ok ==> logs == AllProjected(r.logs)
  {
    ok, logs := true, [];
    for at := 0 to |r.logs|
      invariant forall j :: 0 <= j < at ==> ForwardLog(r.logs[j], header, r.txHash, k, before + j)
      invariant logs == AllProjected(r.logs)[..at]
    {
      if !ForwardLog(r.logs[at], header, r.txHash, k, before + at) {
        ok := false;
        return;
      }
      logs := logs + [Projected(r.logs[at])];
    }
  }

  /** What the block loop keeps across blocks. */
  datatype Seen = Seen(transactions: set<Hash>, logs: seq<LogEntry>)

  /** What one block adds is new and within bounds. */
  predicate Fresh(seen: Seen, header: Header, entries: seq<Entry>) {
    && (forall k :: 0 <= k < |header.transactions| ==> header.transactions[k] !in seen.transactions)
    && |seen.transactions| + |header.transactions| <= MAX_TRANSACTIONS
    && |seen.logs| + LogsThrough(entries, |entries|) <= MAX_LOGS
  }

  method CheckTransaction(store: Store, header: Header, tx: ChainTx, k: nat, cumulative: nat, next: nat)
      returns (ok: bool, entry: Entry, logs: seq<LogEntry>)
    requires ForwardTransaction(tx, header, k)
    ensures var r := ReceiptOf(store, tx.hash);
      && (ok <==> store.receipt(tx.hash).Some? && ReceiptChecks(header, BodyOf(tx), r, k, cumulative)
                  && ForwardCreation(tx, r) && ForwardLogs(r, header, k, next))
      && (ok ==> entry == Entry(BodyOf(tx), r) && logs == AllProjected(r.logs))
  {
    ok, entry, logs := false, Entry(BodyOf(tx), NO_RECEIPT), [];
    match store.receipt(tx.hash)
    case None =>
    case Some(r) =>
      if ReceiptChecks(header, BodyOf(tx), r, k, cumulative) && ForwardCreation(tx, r) {
        ok, logs := CheckLogs(r, header, k, next);
        entry := Entry(BodyOf(tx), r);
      }
  }

  /** One transaction of a block and its receipt, with the counters as they stand before it. */
  method CheckEntry(store: Store, header: Header, txs: seq<ChainTx>, k: nat, cumulative: nat, next: nat, seen: Seen)
      returns (ok: bool, entry: Entry, after: Seen, calls: nat)
    requires k < |txs| && header.transactions == Hashes(txs)
    requires cumulative == GasThrough(EntriesOf(store, txs), k) && next == LogsThrough(EntriesOf(store, txs), k)
    ensures ok <==> ForwardEntry(store, header, txs, k) && txs[k].hash !in seen.transactions
                    && |seen.transactions| + 1 <= MAX_TRANSACTIONS
                    && |seen.logs| + |ReceiptOf(store, txs[k].hash).logs| <= MAX_LOGS
    ensures ok ==> entry == EntriesOf(store, txs)[k] && entry.receipt == ReceiptOf(store, txs[k].hash)
                   && after == Seen(seen.transactions + {txs[k].hash}, seen.logs + AllProjected(entry.receipt.logs))
    ensures calls <= 1 && (ok ==> calls == 1) && (calls == 1 ==> |seen.transactions| + 1 <= MAX_TRANSACTIONS)
  {
    hide GasThrough, LogsThrough, ReceiptChecks, ForwardCreation, ForwardLogs;
    var tx := txs[k];
    ok, entry, after, calls := false, Entry(BodyOf(tx), NO_RECEIPT), seen, 0;
    if !ForwardTransaction(tx, header, k) || tx.hash in seen.transactions {
      return;
    }
    var transactions := seen.transactions + {tx.hash};
    if |transactions| > MAX_TRANSACTIONS {
      return;
    }
    var logs;
    calls := 1;
    ok, entry, logs := CheckTransaction(store, header, tx, k, cumulative, next);
    after := Seen(transactions, seen.logs + logs);
    ok := ok && |after.logs| <= MAX_LOGS;
  }

  lemma BlockRefused(store: Store, header: Header, txs: seq<ChainTx>, seen: Seen, k: nat)
    requires k < |txs| && header.transactions == Hashes(txs)
    requires !ForwardEntry(store, header, txs, k) || header.transactions[k] in seen.transactions
             || |seen.transactions| + k + 1 > MAX_TRANSACTIONS
             || |seen.logs| + LogsThrough(EntriesOf(store, txs), k + 1) > MAX_LOGS
    ensures !ForwardFull(store, header.number, header, txs) || !Fresh(seen, header, EntriesOf(store, txs))
  {
    hide ForwardEntry, HeaderFits;
    LogsThroughGrows(EntriesOf(store, txs), k + 1);
  }

  /** The first entries of a block are done: all in order, and the counters say so. */
  ghost predicate EntriesDone(store: Store, header: Header, txs: seq<ChainTx>, seen: Seen, k: nat,
                              entries: seq<Entry>, after: Seen, cumulative: nat, next: nat)
    requires header.transactions == Hashes(txs) && k <= |txs|
  {
    var all := EntriesOf(store, txs);
    && (forall i :: 0 <= i < k ==> ForwardEntry(store, header, txs, i))
    && (forall i :: 0 <= i < k ==> header.transactions[i] !in seen.transactions)
    && entries == all[..k] && cumulative == GasThrough(all, k) && next == LogsThrough(all, k)
    && SeenWith(seen.transactions, after.transactions, header.transactions[..k])
    && |after.transactions| == |seen.transactions| + k <= MAX_TRANSACTIONS
    && after.logs == seen.logs + BlockLogs(all, k) && |after.logs| <= MAX_LOGS
  }

  lemma HashAt(txs: seq<ChainTx>, k: nat)
    requires k < |txs|
    ensures Hashes(txs)[k] == txs[k].hash
  {
  }

  lemma LogsAt(store: Store, txs: seq<ChainTx>, k: nat)
    requires k < |txs|
    ensures EntriesOf(store, txs)[k].receipt == ReceiptOf(store, txs[k].hash)
  {
  }

  lemma EntriesStep(store: Store, header: Header, txs: seq<ChainTx>, seen: Seen, k: nat, entries: seq<Entry>, after: Seen,
                    entry: Entry, more: Seen, cumulative: nat, next: nat)
    requires HeaderFits(header) && header.transactions == Hashes(txs) && k < |txs|
    requires EntriesDone(store, header, txs, seen, k, entries, after, cumulative, next)
    requires ForwardEntry(store, header, txs, k) && txs[k].hash !in after.transactions
    requires |after.transactions| + 1 <= MAX_TRANSACTIONS && |after.logs| + |entry.receipt.logs| <= MAX_LOGS
    requires entry == EntriesOf(store, txs)[k]
    requires more == Seen(after.transactions + {txs[k].hash}, after.logs + AllProjected(entry.receipt.logs))
    ensures EntriesDone(store, header, txs, seen, k + 1, entries + [entry], more,
                        cumulative + entry.receipt.gasUsed, next + |entry.receipt.logs|)
  {
    hide ForwardEntry, AllProjected, SeenWith, EntriesOf, Hashes;
    HashAt(txs, k);
    var all := EntriesOf(store, txs);
    SeenOneMore(seen.transactions, after.transactions, header.transactions, k);
    assert all[..k + 1] == all[..k] + [all[k]];
  }

  lemma EntryRefused(store: Store, header: Header, txs: seq<ChainTx>, seen: Seen, k: nat, entries: seq<Entry>, after: Seen,
                     cumulative: nat, next: nat)
    requires HeaderFits(header) && header.transactions == Hashes(txs) && k < |txs|
    requires EntriesDone(store, header, txs, seen, k, entries, after, cumulative, next)
    requires !ForwardEntry(store, header, txs, k) || txs[k].hash in after.transactions
             || |after.transactions| + 1 > MAX_TRANSACTIONS
             || |after.logs| + |ReceiptOf(store, txs[k].hash).logs| > MAX_LOGS
    ensures !ForwardFull(store, header.number, header, txs) || !Fresh(seen, header, EntriesOf(store, txs))
  {
    hide ForwardEntry, ForwardFull, Fresh, SeenWith, Hashes, EntriesOf;
    HashAt(txs, k);
    LogsAt(store, txs, k);
    SeenOneMore(seen.transactions, after.transactions, header.transactions, k);
    BlockRefused(store, header, txs, seen, k);
  }

  lemma EntriesStart(store: Store, header: Header, txs: seq<ChainTx>, seen: Seen)
    requires header.transactions == Hashes(txs) && |seen.transactions| <= MAX_TRANSACTIONS && |seen.logs| <= MAX_LOGS
    ensures EntriesDone(store, header, txs, seen, 0, [], seen, 0, 0)
  {
  }

  lemma EntriesEnd(store: Store, header: Header, txs: seq<ChainTx>, seen: Seen, entries: seq<Entry>, after: Seen,
                   cumulative: nat, next: nat)
    requires HeaderFits(header) && header.transactions == Hashes(txs)
    requires EntriesDone(store, header, txs, seen, |txs|, entries, after, cumulative, next)
    ensures entries == EntriesOf(store, txs) && SeenWith(seen.transactions, after.transactions, header.transactions)
    ensures |after.transactions| == |seen.transactions| + |txs| <= MAX_TRANSACTIONS
    ensures after.logs == seen.logs + BlockLogs(entries, |entries|)
    ensures Fresh(seen, header, entries)
    ensures ForwardFull(store, header.number, header, txs) <==> cumulative == header.gasUsed
    ensures |after.logs| <= MAX_LOGS
  {
    hide ForwardEntry;
    assert EntriesOf(store, txs)[..|txs|] == EntriesOf(store, txs);
    assert header.transactions[..|txs|] == header.transactions;
  }

  /** The transactions of one block, with their receipts; everything new is noted. */
  method CheckBlock(store: Store, header: Header, txs: seq<ChainTx>, seen: Seen)
      returns (ok: bool, entries: seq<Entry>, after: Seen, calls: nat)
    requires HeaderFits(header) && header.transactions == Hashes(txs)
    requires |seen.transactions| <= MAX_TRANSACTIONS && |seen.logs| <= MAX_LOGS
    ensures ok <==> ForwardFull(store, header.number, header, txs) && Fresh(seen, header, EntriesOf(store, txs))
    ensures ok ==> entries == EntriesOf(store, txs) && SeenWith(seen.transactions, after.transactions, header.transactions)
                   && |after.transactions| == |seen.transactions| + |txs| <= MAX_TRANSACTIONS
                   && after.logs == seen.logs + BlockLogs(entries, |entries|) && |after.logs| <= MAX_LOGS
    ensures |seen.transactions| + calls <= MAX_TRANSACTIONS && (ok ==> calls == |txs|)
  {
    hide ForwardFull, Fresh, EntriesOf, SeenWith, BlockLogs, Hashes, HeaderFits, ForwardEntry;
    var cumulative: nat, next: nat := 0, 0;
    ok, entries, after, calls := false, [], seen, 0;
    EntriesStart(store, header, txs, seen);
    for k := 0 to |txs|
      invariant EntriesDone(store, header, txs, seen, k, entries, after, cumulative, next) && calls == k
    {
      var fits, entry, more, made := CheckEntry(store, header, txs, k, cumulative, next, after);
      calls := calls + made;
      if !fits {
        EntryRefused(store, header, txs, seen, k, entries, after, cumulative, next);
        return;
      }
      EntriesStep(store, header, txs, seen, k, entries, after, entry, more, cumulative, next);
      cumulative, next := cumulative + entry.receipt.gasUsed, next + |entry.receipt.logs|;
      entries, after := entries + [entry], more;
    }
    EntriesEnd(store, header, txs, seen, entries, after, cumulative, next);
    ok := cumulative == header.gasUsed;
  }

  // The walk over block numbers.

  /** Every block of the interval, the start block included. */
  function Interval(store: Store, c: Config): (r: seq<Block>)
    requires ForwardConfig(c)
    ensures |r| == c.endNumber - c.startNumber + 1
  {
    BlocksAt(store, c.startNumber, c.endNumber - c.startNumber + 1)
  }

  datatype Walk = Walk(reported: seq<Block>, lookup: map<Hash, Header>, seen: Seen, previous: Option<Header>)

  ghost predicate LookupHolds(lookup: map<Hash, Header>, all: seq<Block>, m: nat)
    requires m <= |all|
  {
    && (forall h :: h in lookup ==> exists i :: 0 <= i < m && all[i].header.hash == h)
    && (forall i :: 0 <= i < m ==> all[i].header.hash in lookup && lookup[all[i].header.hash] == all[i].header)
  }

  ghost predicate SeenHolds(seen: Seen, all: seq<Block>, m: nat)
    requires m <= |all|
  {
    && (forall h :: h in seen.transactions <==> exists i :: 0 <= i < m && h in all[i].header.transactions)
    && |seen.transactions| == EntryCount(all, m) <= MAX_TRANSACTIONS
    && seen.logs == IntervalLogs(all, m) && |seen.logs| <= MAX_LOGS
  }

  /** The header is where the walk expects it. */
  predicate InPlace(header: Header, n: int, c: Config, first: Header, last: Header, w: Walk) {
    && header.hash !in w.lookup && (w.previous.Some? ==> Linked(w.previous.value, header))
    && (n == c.startNumber ==> header == first) && (n == c.endNumber ==> header == last)
  }

  ghost predicate WalkDone(store: Store, c: Config, first: Header, last: Header, m: nat, w: Walk)
    requires ForwardConfig(c) && m <= |Interval(store, c)|
  {
    var all := Interval(store, c);
    && (forall n :: 0 <= n < m ==> ForwardPlace(store, c, all, n))
    && (m != 0 ==> all[0].header == first) && (m == |all| ==> all[m - 1].header == last)
    && w.reported == (if m == 0 then [] else all[1..m])
    && w.previous == (if m == 0 then None else Some(all[m - 1].header))
    && LookupHolds(w.lookup, all, m) && SeenHolds(w.seen, all, m)
  }

  /** One block of the walk. */
  method CheckNumber(store: Store, c: Config, n: nat, first: Header, last: Header, w: Walk)
      returns (ok: bool, block: Block, after: Seen, calls: nat)
    requires |w.seen.transactions| <= MAX_TRANSACTIONS && |w.seen.logs| <= MAX_LOGS
    ensures ok <==> ForwardBlock(store, n) && InPlace(BlockAt(store, n).header, n, c, first, last, w)
                    && Fresh(w.seen, BlockAt(store, n).header, BlockAt(store, n).entries)
    ensures ok ==> block == BlockAt(store, n)
                   && SeenWith(w.seen.transactions, after.transactions, block.header.transactions)
                   && |after.transactions| == |w.seen.transactions| + |block.entries| <= MAX_TRANSACTIONS
                   && after.logs == w.seen.logs + BlockLogs(block.entries, |block.entries|) && |after.logs| <= MAX_LOGS
    ensures |w.seen.transactions| + calls <= MAX_TRANSACTIONS + 1 && (ok ==> calls == 1 + |block.entries|)
  {
    hide InPlace, Fresh, HeaderFits, EntriesOf, SeenWith, BlockLogs, ForwardEntry, GasThrough;
    ok, block, after, calls := false, Block(NO_HEADER, []), w.seen, 1;
    match store.full(n)
    case None =>
    case Some(full) =>
      var header := HeaderOf(full);
      if header.number == n && HeaderFits(header) && InPlace(header, n, c, first, last, w) {
        var entries, made;
        ok, entries, after, made := CheckBlock(store, header, full.txs, w.seen);
        calls := calls + made;
        block := Block(header, entries);
      }
  }

  lemma FreshMeans(seen: Seen, all: seq<Block>, m: nat)
    requires m < |all| && SeenHolds(seen, all, m) && |all[m].entries| == |all[m].header.transactions|
    ensures Fresh(seen, all[m].header, all[m].entries)
       <==> (forall i :: 0 <= i < m ==> Disjoint(all[i].header.transactions, all[m].header.transactions))
            && EntryCount(all, m + 1) <= MAX_TRANSACTIONS && LogCount(all, m + 1) <= MAX_LOGS
  {
    hide IntervalLogs;
    var txs := all[m].header.transactions;
    assert EntryCount(all, m + 1) == EntryCount(all, m) + |txs|;
    if k :| 0 <= k < |txs| && txs[k] in seen.transactions {
      var i :| 0 <= i < m && txs[k] in all[i].header.transactions;
      assert !Disjoint(all[i].header.transactions, txs);
    }
    forall k, i, j | 0 <= k < |txs| && 0 <= i < m && 0 <= j < |all[i].header.transactions|
        && all[i].header.transactions[j] == txs[k]
      ensures txs[k] in seen.transactions
    {
      assert txs[k] in all[i].header.transactions;
    }
  }

  lemma PlaceMeans(c: Config, first: Header, last: Header, all: seq<Block>, m: nat, w: Walk)
    requires ForwardConfig(c) && m < |all| == c.endNumber - c.startNumber + 1 && LookupHolds(w.lookup, all, m)
    requires w.previous == (if m == 0 then None else Some(all[m - 1].header))
    ensures InPlace(all[m].header, c.startNumber + m, c, first, last, w)
       <==> (forall i :: 0 <= i < m ==> all[i].header.hash != all[m].header.hash)
            && (m != 0 ==> Linked(all[m - 1].header, all[m].header))
            && (m == 0 ==> all[m].header == first) && (m == |all| - 1 ==> all[m].header == last)
  {
  }

  /** Whether the next block is accepted, in the words of the specification. */
  ghost predicate NextFits(store: Store, c: Config, first: Header, last: Header, m: nat)
    requires ForwardConfig(c) && m < |Interval(store, c)|
  {
    var all := Interval(store, c);
    && ForwardPlace(store, c, all, m)
    && (m == 0 ==> all[m].header == first) && (m == |all| - 1 ==> all[m].header == last)
    && EntryCount(all, m + 1) <= MAX_TRANSACTIONS && LogCount(all, m + 1) <= MAX_LOGS
  }

  lemma EntriesMatch(store: Store, n: nat)
    ensures |BlockAt(store, n).entries| == |BlockAt(store, n).header.transactions|
  {
  }

  lemma IntervalAt(store: Store, c: Config, m: nat)
    requires ForwardConfig(c) && m < |Interval(store, c)|
    ensures Interval(store, c)[m] == BlockAt(store, c.startNumber + m)
  {
  }

  lemma NextMeans(store: Store, c: Config, first: Header, last: Header, m: nat, w: Walk)
    requires ForwardConfig(c) && m < |Interval(store, c)| && WalkDone(store, c, first, last, m, w)
    ensures var n := c.startNumber + m;
      (ForwardBlock(store, n) && InPlace(BlockAt(store, n).header, n, c, first, last, w)
       && Fresh(w.seen, BlockAt(store, n).header, BlockAt(store, n).entries))
      <==> NextFits(store, c, first, last, m)
  {
    hide ForwardBlock, BlockAt, Interval, LookupHolds, SeenHolds, InPlace, Fresh, EntryCount, LogCount, Linked, Disjoint;
    var all := Interval(store, c);
    IntervalAt(store, c, m);
    EntriesMatch(store, c.startNumber + m);
    FreshMeans(w.seen, all, m);
    PlaceMeans(c, first, last, all, m, w);
  }

  lemma LookupStep(lookup: map<Hash, Header>, all: seq<Block>, m: nat)
    requires m < |all| && LookupHolds(lookup, all, m) && (forall i :: 0 <= i < m ==> all[i].header.hash != all[m].header.hash)
    ensures LookupHolds(lookup[all[m].header.hash := all[m].header], all, m + 1)
  {
  }

  lemma SeenStep(seen: Seen, after: Seen, all: seq<Block>, m: nat)
    requires m < |all| && SeenHolds(seen, all, m) && SeenWith(seen.transactions, after.transactions, all[m].header.transactions)
    requires |after.transactions| == |seen.transactions| + |all[m].entries| <= MAX_TRANSACTIONS
    requires after.logs == seen.logs + BlockLogs(all[m].entries, |all[m].entries|) && |after.logs| <= MAX_LOGS
    ensures SeenHolds(after, all, m + 1)
  {
    hide BlockLogs;
    forall h ensures h in after.transactions <==> exists i :: 0 <= i < m + 1 && h in all[i].header.transactions {
      if h in seen.transactions {
        var i :| 0 <= i < m && h in all[i].header.transactions;
      }
    }
  }

  lemma WalkStep(store: Store, c: Config, first: Header, last: Header, m: nat, w: Walk, after: Seen)
    requires ForwardConfig(c) && m < |Interval(store, c)| && WalkDone(store, c, first, last, m, w)
    requires NextFits(store, c, first, last, m)
    requires var block := Interval(store, c)[m];
      && SeenWith(w.seen.transactions, after.transactions, block.header.transactions)
      && |after.transactions| == |w.seen.transactions| + |block.entries| <= MAX_TRANSACTIONS
      && after.logs == w.seen.logs + BlockLogs(block.entries, |block.entries|) && |after.logs| <= MAX_LOGS
    ensures var block := Interval(store, c)[m];
      WalkDone(store, c, first, last, m + 1,
        Walk(if m == 0 then [] else w.reported + [block], w.lookup[block.header.hash := block.header], after, Some(block.header)))
  {
    hide ForwardBlock, Interval, LookupHolds, SeenHolds, SeenWith, BlockLogs, EntryCount, LogCount, Linked, Disjoint;
    var all := Interval(store, c);
    LookupStep(w.lookup, all, m);
    SeenStep(w.seen, after, all, m);
    if m != 0 {
      assert all[1..m + 1] == all[1..m] + [all[m]];
    }
  }

  /** A block that does not fit refuses the whole interval. */
  lemma ChainNext(store: Store, c: Config, m: nat)
    requires ForwardConfig(c) && Boundaries(store, c) && m < |Interval(store, c)|
    ensures ForwardChain(store, c)
        ==> NextFits(store, c, store.byNumber(c.startNumber).value, store.byNumber(c.endNumber).value, m)
  {
    hide ForwardBlock, EntryCount, LogCount, RangeAgrees;
    if ForwardChain(store, c) {
      CountsGrow(Interval(store, c), m + 1);
      assert ForwardPlace(store, c, Interval(store, c), m);
    }
  }

  lemma WalkEndsWith(store: Store, c: Config, first: Header, last: Header, all: seq<Block>, w: Walk)
    requires ForwardConfig(c) && all == Interval(store, c) && WalkDone(store, c, first, last, |all|, w)
    ensures w.reported == all[1..] && LookupHolds(w.lookup, all, |all|) && w.seen.logs == IntervalLogs(all, |all|)
    ensures forall n :: 0 <= n < |all| ==> ForwardPlace(store, c, all, n)
    ensures |w.seen.transactions| == EntryCount(all, |all|) <= MAX_TRANSACTIONS && LogCount(all, |all|) <= MAX_LOGS
    ensures first == all[0].header && last == all[|all| - 1].header
  {
    hide ForwardPlace, LookupHolds;
    assert all[1..|all|] == all[1..];
  }

  /** After the last block, all that is left of the chain conditions is the range query. */
  lemma WalkEnds(store: Store, c: Config, all: seq<Block>, w: Walk)
    requires ForwardConfig(c) && Boundaries(store, c) && all == Interval(store, c)
    requires WalkDone(store, c, store.byNumber(c.startNumber).value, store.byNumber(c.endNumber).value, |all|, w)
    ensures var queried := store.logsBetween(c.startNumber, c.endNumber);
      ForwardChain(store, c) <==> queried.Some? && RangeAgrees(all, queried.value)
  {
    hide ForwardPlace, RangeAgrees, LookupHolds, IntervalLogs, EntryCount, LogCount, WalkDone;
    WalkEndsWith(store, c, store.byNumber(c.startNumber).value, store.byNumber(c.endNumber).value, all, w);
  }

  // The range query.

  lemma {:induction false} BlockLogAt(store: Store, n: nat, k: nat, j: nat)
    requires ForwardBlock(store, n)
    requires k <= |BlockAt(store, n).entries| && j < LogsThrough(BlockAt(store, n).entries, k)
    ensures BlockLogs(BlockAt(store, n).entries, k)[j].blockHash == BlockAt(store, n).header.hash
    ensures BlockLogs(BlockAt(store, n).entries, k)[j].logIndex == j
  {
    var entries := BlockAt(store, n).entries;
    if j < LogsThrough(entries, k - 1) {
      BlockLogAt(store, n, k - 1, j);
    } else {
      var i := j - LogsThrough(entries, k - 1);
      assert ForwardEntry(store, HeaderOf(store.full(n).value), store.full(n).value.txs, k - 1);
      assert ForwardLog(entries[k - 1].receipt.logs[i], BlockAt(store, n).header, entries[k - 1].receipt.txHash, k - 1,
                        LogsThrough(entries, k - 1) + i);
    }
  }

  /** A log of the first m blocks is a log of one of them. */
  lemma {:induction false} IntervalLogAt(store: Store, c: Config, all: seq<Block>, m: nat, i: nat) returns (n: nat)
    requires 0 <= c.startNumber && m <= |all| && (forall k :: 0 <= k < |all| ==> ForwardPlace(store, c, all, k))
    requires (forall k :: 0 <= k < |all| ==> all[k] == BlockAt(store, c.startNumber + k)) && i < LogCount(all, m)
    ensures n < m && IntervalLogs(all, m)[i].blockHash == all[n].header.hash
  {
    hide ForwardBlock, BlockLogs, BlockAt, Follows, LogsThrough;
    if i < LogCount(all, m - 1) {
      n := IntervalLogAt(store, c, all, m - 1, i);
    } else {
      n := m - 1;
      assert ForwardPlace(store, c, all, n);
      BlockLogAt(store, c.startNumber + n, |all[n].entries|, i - LogCount(all, n));
    }
  }

  /** No two logs of an interval claim the same block and position, so the duplicate check never fires. */
  lemma {:induction false} LogsApart(store: Store, c: Config, all: seq<Block>, m: nat, i: nat, j: nat)
    requires 0 <= c.startNumber && m <= |all| && (forall k :: 0 <= k < |all| ==> ForwardPlace(store, c, all, k))
    requires (forall k :: 0 <= k < |all| ==> all[k] == BlockAt(store, c.startNumber + k)) && i < j < LogCount(all, m)
    ensures var logs := IntervalLogs(all, m); logs[i].blockHash != logs[j].blockHash || logs[i].logIndex != logs[j].logIndex
  {
    hide ForwardBlock, BlockLogs, BlockAt;
    assert ForwardPlace(store, c, all, m - 1);
    var before, entries := LogCount(all, m - 1), all[m - 1].entries;
    if j < before {
      LogsApart(store, c, all, m - 1, i, j);
    } else {
      BlockLogAt(store, c.startNumber + (m - 1), |entries|, j - before);
      if i < before {
        var n := IntervalLogAt(store, c, all, m - 1, i);
      } else {
        BlockLogAt(store, c.startNumber + (m - 1), |entries|, i - before);
      }
    }
  }

  /** Compares the logs of the range query with those of the receipts, one by one. */
  method CheckRange(store: Store, c: Config, ghost all: seq<Block>, lookup: map<Hash, Header>, logs: seq<LogEntry>,
                    queried: seq<LogEntry>) returns (ok: bool)
    requires 0 <= c.startNumber && (forall k :: 0 <= k < |all| ==> ForwardPlace(store, c, all, k))
    requires forall k :: 0 <= k < |all| ==> all[k] == BlockAt(store, c.startNumber + k)
    requires LookupHolds(lookup, all, |all|) && logs == IntervalLogs(all, |all|)
    ensures ok <==> RangeAgrees(all, queried)
  {
    hide ForwardPlace, ForwardLog, BlockAt, IntervalLogs;
    ok := |queried| <= MAX_LOGS && |queried| == |logs|;
    if !ok {
      return;
    }
    var seen: set<(Hash, Hash, nat)> := {};
    for i := 0 to |logs|
      invariant forall j :: 0 <= j < i ==> RangeLogFits(all, queried[j], logs[j])
      invariant forall identity <- seen :: exists j :: 0 <= j < i && identity == (logs[j].blockHash, logs[j].txHash, logs[j].logIndex)
    {
      var log, expected := queried[i], logs[i];
      var identity := (log.blockHash, log.txHash, log.logIndex);
      ok := log.blockHash in lookup
            && ForwardLog(log, lookup[log.blockHash], expected.txHash, expected.txIndex, expected.logIndex)
            && Projected(log) == expected;
      RangeMeans(all, lookup, log, expected);
      if !ok {
        return;
      }
      if identity in seen {
        var j: nat :| j < i && identity == (logs[j].blockHash, logs[j].txHash, logs[j].logIndex);
        LogsApart(store, c, all, |all|, j, i);
        assert false;
      }
      seen := seen + {identity};
    }
  }

  lemma RangeMeans(all: seq<Block>, lookup: map<Hash, Header>, log: LogEntry, expected: LogEntry)
    requires LookupHolds(lookup, all, |all|)
    ensures RangeLogFits(all, log, expected)
       <==> log.blockHash in lookup && Projected(log) == expected
            && ForwardLog(log, lookup[log.blockHash], expected.txHash, expected.txIndex, expected.logIndex)
  {
    hide ForwardLog;
    if log.blockHash in lookup {
      var i :| 0 <= i < |all| && all[i].header.hash == log.blockHash;
    }
  }

  method CheckEndpoints(store: Store, c: Config) returns (ok: bool, calls: nat)
    requires 0 <= c.startNumber <= c.endNumber
    ensures ok <==> Boundaries(store, c)
    ensures calls <= 3 && (ok ==> calls == 3)
  {
    ok, calls := store.chainId == CHAIN_ID, 1;
    if ok {
      var made;
      ok, made := CheckBoundaries(store, c);
      calls := calls + made;
    }
  }

  /**
   The forward collector: accepts exactly what the specification accepts, and returns the
   blocks after the start block, with the state at the end block. It makes one request for
   every block and every transaction and twenty-five more, so the bound on requests never refuses.
   */
  method Collect(store: Store, c: Config, digest: bytes -> bytes) returns (r: Option<History>, calls: nat)
    ensures r == if Forward(store, c, digest) then Some(ForwardHistory(store, c, digest)) else None
    ensures calls <= 281 < MAX_FORWARD_CALLS
    ensures r.Some? ==> calls == |Interval(store, c)| + EntryCount(Interval(store, c), |Interval(store, c)|) + 25
  {
    hide ForwardChain, Boundaries, EndReads, NextFits, WalkDone, BlockAt, SeenHolds, LookupHolds, RangeAgrees, InPlace, Fresh,
         EntryCount, LogCount, SeenWith, BlockLogs, ForwardBlock, BlocksAt;
    r, calls := None, 0;
    if !ForwardConfig(c) {
      return;
    }
    var endpoints, made;
    endpoints, calls := CheckEndpoints(store, c);
    if !endpoints {
      return;
    }
    BoundariesRead(store, c);
    var first, last := store.byNumber(c.startNumber).value, store.byNumber(c.endNumber).value;
    var w := Walk([], map[], Seen({}, []), None);
    WalkStarts(store, c, first, last, w);
    var size: nat := c.endNumber - c.startNumber + 1;
    for m := 0 to size
      invariant WalkDone(store, c, first, last, m, w) && calls == 3 + m + |w.seen.transactions|
    {
      WalkBounds(store, c, first, last, m, w);
      NextMeans(store, c, first, last, m, w);
      ChainNext(store, c, m);
      var ok, block, after;
      ok, block, after, made := CheckNumber(store, c, c.startNumber + m, first, last, w);
      calls := calls + made;
      if !ok {
        return;
      }
      IntervalAt(store, c, m);
      WalkStep(store, c, first, last, m, w, after);
      w := Walk(if m == 0 then [] else w.reported + [block], w.lookup[block.header.hash := block.header], after, Some(block.header));
    }
    ghost var all := Interval(store, c);
    WalkEnds(store, c, all, w);
    WalkEndsWith(store, c, first, last, all, w);
    calls := calls + 1;
    if store.logsBetween(c.startNumber, c.endNumber).None? {
      return;
    }
    IntervalBlocks(store, c);
    var agrees := CheckRange(store, c, all, w.lookup, w.seen.logs, store.logsBetween(c.startNumber, c.endNumber).value);
    if !agrees {
      return;
    }
    var ended;
    ended, made := CheckEnds(store, c, 24576, digest);
    calls := calls + made;
    if !ended {
      return;
    }
    endpoints, made := CheckEndpoints(store, c);
    calls := calls + made;
    if endpoints {
      r := Some(Report(store, c, digest, first, w.reported));
    }
  }

  lemma WalkStarts(store: Store, c: Config, first: Header, last: Header, w: Walk)
    requires ForwardConfig(c) && w == Walk([], map[], Seen({}, []), None)
    ensures WalkDone(store, c, first, last, 0, w)
  {
  }

  lemma WalkBounds(store: Store, c: Config, first: Header, last: Header, m: nat, w: Walk)
    requires ForwardConfig(c) && m <= |Interval(store, c)| && WalkDone(store, c, first, last, m, w)
    ensures |w.seen.transactions| <= MAX_TRANSACTIONS && |w.seen.logs| <= MAX_LOGS
  {
  }

  lemma BoundariesRead(store: Store, c: Config)
    requires 0 <= c.startNumber <= c.endNumber && Boundaries(store, c)
    ensures store.byNumber(c.startNumber).Some? && store.byNumber(c.endNumber).Some?
  {
  }

  lemma IntervalBlocks(store: Store, c: Config)
    requires ForwardConfig(c)
    ensures forall k :: 0 <= k < |Interval(store, c)| ==> Interval(store, c)[k] == BlockAt(store, c.startNumber + k)
  {
    hide BlockAt;
  }

  function Report(store: Store, c: Config, digest: bytes -> bytes, start: Header, reported: seq<Block>): History
    requires 0 <= c.endNumber && reported != [] && EndReads(store, c, 24576, digest)
  {
    Reported(store, c, start, reported)
  }
}
