/** The backward collector as it runs: parent hashes down to the start block, then every block behind them. */
module CollectByHash {
  import opened Bytes
  import opened Chain
  import opened Collectors
  import opened Wrappers

  // One block.

  /** What the block loop keeps: the transactions met, the start block's among them, and two counts. */
  datatype Tally = Tally(transactions: set<Hash>, count: nat, logs: nat)

  function EntriesBehind(store: Store, header: Header): (r: seq<Entry>)
    ensures |r| == |header.transactions|
  {
    EntriesOf(store, Transactions(store, header.transactions))
  }

  predicate NewHere(tally: Tally, header: Header, entries: seq<Entry>) {
    && (forall k :: 0 <= k < |header.transactions| ==> header.transactions[k] !in tally.transactions)
    && tally.count + |header.transactions| <= MAX_TRANSACTIONS
    && tally.logs + LogsThrough(entries, |entries|) <= MAX_LOGS
  }

  method CheckLogsBack(r: Receipt, header: Header, k: nat, before: nat) returns (ok: bool, logs: seq<LogEntry>)
    ensures ok <==> BackwardLogs(r, header, k, before)
    ensures ok ==> logs == AllProjected(r.logs)
  {
    hide BackwardLog, LogPlaced;
    ok, logs := true, [];
    for at := 0 to |r.logs|
      invariant forall j | 0 <= j < at ::
        BackwardLog(r.logs[j], header) && LogPlaced(r.logs[j], header, r.txHash, k, before + j)
      invariant logs == AllProjected(r.logs)[..at]
    {
      if !BackwardLog(r.logs[at], header) || !LogPlaced(r.logs[at], header, r.txHash, k, before + at) {
        ok := false;
        return;
      }
      logs := logs + [Projected(r.logs[at])];
    }
  }

  /** One transaction and its receipt, both looked up by hash. */
  method CheckPair(store: Store, header: Header, k: nat, cumulative: nat, next: nat)
      returns (ok: bool, entry: Entry, logs: seq<LogEntry>, calls: nat)
    requires k < |header.transactions|
    requires cumulative == GasThrough(EntriesBehind(store, header), k)
    requires next == LogsThrough(EntriesBehind(store, header), k)
    ensures ok <==> BackwardEntry(store, header, Transactions(store, header.transactions), k)
    ensures ok ==> entry == EntriesBehind(store, header)[k] && logs == AllProjected(entry.receipt.logs)
    ensures calls <= 2 && (ok ==> calls == 2)
  {
    hide GasThrough, LogsThrough, ReceiptChecks, BackwardLogs;
    var hash := header.transactions[k];
    ok, entry, logs, calls := false, Entry(BodyOf(NO_TRANSACTION), NO_RECEIPT), [], 1;
    if store.transaction(hash).None? {
      return;
    }
    var tx := store.transaction(hash).value;
    if !BackwardTransaction(tx, header, k) {
      return;
    }
    calls := calls + 1;
    if store.receipt(hash).None? {
      return;
    }
    var r := store.receipt(hash).value;
    if !ReceiptChecks(header, BodyOf(tx), r, k, cumulative) || (tx.to.Some? && r.creation.Some?) {
      return;
    }
    entry := Entry(BodyOf(tx), r);
    ok, logs := CheckLogsBack(r, header, k, next);
  }

  method CheckEntryBack(store: Store, header: Header, k: nat, cumulative: nat, next: nat, tally: Tally)
      returns (ok: bool, entry: Entry, logs: seq<LogEntry>, after: Tally, calls: nat)
    requires k < |header.transactions|
    requires cumulative == GasThrough(EntriesBehind(store, header), k)
    requires next == LogsThrough(EntriesBehind(store, header), k)
    ensures ok <==> BackwardEntry(store, header, Transactions(store, header.transactions), k)
                    && header.transactions[k] !in tally.transactions && tally.count + 1 <= MAX_TRANSACTIONS
                    && tally.logs + |EntriesBehind(store, header)[k].receipt.logs| <= MAX_LOGS
    ensures ok ==> entry == EntriesBehind(store, header)[k] && logs == AllProjected(entry.receipt.logs)
                   && after == Tally(tally.transactions + {header.transactions[k]}, tally.count + 1, tally.logs + |logs|)
    ensures calls <= 2 && (ok ==> calls == 2) && (0 < calls ==> tally.count + 1 <= MAX_TRANSACTIONS)
  {
    hide BackwardEntry, EntriesBehind;
    var hash := header.transactions[k];
    ok, entry, logs, after, calls := false, Entry(BodyOf(NO_TRANSACTION), NO_RECEIPT), [], tally, 0;
    if hash in tally.transactions || tally.count + 1 > MAX_TRANSACTIONS {
      return;
    }
    ok, entry, logs, calls := CheckPair(store, header, k, cumulative, next);
    after := Tally(tally.transactions + {hash}, tally.count + 1, tally.logs + |logs|);
    ok := ok && after.logs <= MAX_LOGS;
  }

  ghost predicate EntriesBack(store: Store, header: Header, tally: Tally, k: nat, entries: seq<Entry>,
                              logs: seq<LogEntry>, after: Tally, cumulative: nat)
    requires k <= |header.transactions|
  {
    var all := EntriesBehind(store, header);
    && (forall i :: 0 <= i < k ==> BackwardEntry(store, header, Transactions(store, header.transactions), i))
    && (forall i :: 0 <= i < k ==> header.transactions[i] !in tally.transactions)
    && entries == all[..k] && cumulative == GasThrough(all, k) && logs == BlockLogs(all, k)
    && SeenWith(tally.transactions, after.transactions, header.transactions[..k])
    && after.count == tally.count + k <= MAX_TRANSACTIONS && after.logs == tally.logs + |logs| <= MAX_LOGS
  }

  lemma EntriesBackStep(store: Store, header: Header, tally: Tally, k: nat, entries: seq<Entry>, logs: seq<LogEntry>,
                        after: Tally, cumulative: nat, entry: Entry, more: Tally)
    requires k < |header.transactions| && HeaderFits(header)
    requires EntriesBack(store, header, tally, k, entries, logs, after, cumulative)
    requires BackwardEntry(store, header, Transactions(store, header.transactions), k)
    requires header.transactions[k] !in after.transactions && after.count + 1 <= MAX_TRANSACTIONS
    requires after.logs + |entry.receipt.logs| <= MAX_LOGS && entry == EntriesBehind(store, header)[k]
    requires more == Tally(after.transactions + {header.transactions[k]}, after.count + 1, after.logs + |entry.receipt.logs|)
    ensures EntriesBack(store, header, tally, k + 1, entries + [entry], logs + AllProjected(entry.receipt.logs), more,
                        cumulative + entry.receipt.gasUsed)
  {
    hide BackwardEntry, AllProjected, SeenWith, EntriesBehind, Transactions;
    var all := EntriesBehind(store, header);
    SeenOneMore(tally.transactions, after.transactions, header.transactions, k);
    assert all[..k + 1] == all[..k] + [all[k]];
  }

  /** The entries of a block are in order, whatever its own log query says. */
  predicate EntriesFit(store: Store, header: Header) {
    && (forall k | 0 <= k < |header.transactions| ::
         BackwardEntry(store, header, Transactions(store, header.transactions), k))
    && GasThrough(EntriesBehind(store, header), |header.transactions|) == header.gasUsed
  }

  lemma EntryRefusedBack(store: Store, header: Header, tally: Tally, k: nat, entries: seq<Entry>, logs: seq<LogEntry>,
                         after: Tally, cumulative: nat)
    requires k < |header.transactions| && HeaderFits(header)
    requires EntriesBack(store, header, tally, k, entries, logs, after, cumulative)
    requires !BackwardEntry(store, header, Transactions(store, header.transactions), k)
             || header.transactions[k] in after.transactions || after.count + 1 > MAX_TRANSACTIONS
             || after.logs + |EntriesBehind(store, header)[k].receipt.logs| > MAX_LOGS
    ensures !EntriesFit(store, header) || !NewHere(tally, header, EntriesBehind(store, header))
  {
    hide BackwardEntry, SeenWith, EntriesBehind, Transactions;
    SeenOneMore(tally.transactions, after.transactions, header.transactions, k);
    LogsThroughGrows(EntriesBehind(store, header), k + 1);
  }

  lemma EntriesBackEnd(store: Store, header: Header, tally: Tally, entries: seq<Entry>, logs: seq<LogEntry>, after: Tally,
                       cumulative: nat)
    requires EntriesBack(store, header, tally, |header.transactions|, entries, logs, after, cumulative)
    ensures entries == EntriesBehind(store, header) && logs == BlockLogs(entries, |entries|)
    ensures SeenWith(tally.transactions, after.transactions, header.transactions)
    ensures after.count == tally.count + |entries| <= MAX_TRANSACTIONS
    ensures after.logs == tally.logs + LogsThrough(entries, |entries|) <= MAX_LOGS
    ensures NewHere(tally, header, entries) && (EntriesFit(store, header) <==> cumulative == header.gasUsed)
  {
    hide BackwardEntry;
    assert EntriesBehind(store, header)[..|header.transactions|] == EntriesBehind(store, header);
    assert header.transactions[..|header.transactions|] == header.transactions;
  }

  method CheckEntriesBack(store: Store, header: Header, tally: Tally)
      returns (ok: bool, entries: seq<Entry>, logs: seq<LogEntry>, after: Tally, calls: nat)
    requires HeaderFits(header) && tally.count <= MAX_TRANSACTIONS && tally.logs <= MAX_LOGS
    ensures ok <==> EntriesFit(store, header) && NewHere(tally, header, EntriesBehind(store, header))
    ensures ok ==> entries == EntriesBehind(store, header) && logs == BlockLogs(entries, |entries|)
                   && SeenWith(tally.transactions, after.transactions, header.transactions)
                   && after.count == tally.count + |entries| <= MAX_TRANSACTIONS
                   && after.logs == tally.logs + LogsThrough(entries, |entries|) <= MAX_LOGS
    ensures 2 * tally.count + calls <= 2 * MAX_TRANSACTIONS && (ok ==> calls == 2 * |entries|)
  {
    hide EntriesFit, NewHere, EntriesBehind, SeenWith, BackwardEntry, HeaderFits, AllProjected;
    var cumulative: nat := 0;
    ok, entries, logs, after, calls := false, [], [], tally, 0;
    assert header.transactions[..0] == [];
    SeenNothing(tally.transactions);
    for k := 0 to |header.transactions|
      invariant EntriesBack(store, header, tally, k, entries, logs, after, cumulative) && calls == 2 * k
    {
      var fits, entry, found, more, made := CheckEntryBack(store, header, k, cumulative, |logs|, after);
      calls := calls + made;
      if !fits {
        EntryRefusedBack(store, header, tally, k, entries, logs, after, cumulative);
        return;
      }
      EntriesBackStep(store, header, tally, k, entries, logs, after, cumulative, entry, more);
      cumulative := cumulative + entry.receipt.gasUsed;
      entries, logs, after := entries + [entry], logs + found, more;
    }
    EntriesBackEnd(store, header, tally, entries, logs, after, cumulative);
    ok := cumulative == header.gasUsed;
  }

  lemma SeenNothing(transactions: set<Hash>)
    ensures SeenWith(transactions, transactions, [])
  {
  }

  // The block query, which may list the logs in any order.

  function UpTo(n: nat): (r: set<nat>)
    ensures |r| == n && forall i :: i in r <==> 0 <= i < n
  {
    if n == 0 then {} else UpTo(n - 1) + {n - 1}
  }

  lemma SameSize(s: set<nat>, n: nat)
    requires |s| == n && forall i <- s :: i < n
    ensures s == UpTo(n)
  {
    var rest := UpTo(n) - s;
    assert UpTo(n) == s + rest;
    assert |s + rest| == |s| + |rest|;
  }

  /** The first logs, filed under their positions. */
  function ByIndex(queried: seq<LogEntry>, k: nat): (r: map<nat, LogEntry>)
    requires k <= |queried|
  {
    if k == 0 then map[] else ByIndex(queried, k - 1)[queried[k - 1].logIndex := Projected(queried[k - 1])]
  }

  ghost predicate DistinctPositions(queried: seq<LogEntry>, k: nat)
    requires k <= |queried|
  {
    forall i, j :: 0 <= i < j < k ==> queried[i].logIndex != queried[j].logIndex
  }

  lemma {:induction false} FiledAt(queried: seq<LogEntry>, k: nat, i: nat)
    requires i < k <= |queried| && DistinctPositions(queried, k)
    ensures queried[i].logIndex in ByIndex(queried, k)
    ensures ByIndex(queried, k)[queried[i].logIndex] == Projected(queried[i])
  {
    if i < k - 1 {
      FiledAt(queried, k - 1, i);
    }
  }

  lemma {:induction false} FiledFrom(queried: seq<LogEntry>, k: nat, n: nat) returns (i: nat)
    requires k <= |queried| && n in ByIndex(queried, k)
    ensures i < k && queried[i].logIndex == n
  {
    if queried[k - 1].logIndex == n {
      i := k - 1;
    } else {
      i := FiledFrom(queried, k - 1, n);
    }
  }

  lemma {:induction false} FiledCount(queried: seq<LogEntry>, k: nat)
    requires k <= |queried| && DistinctPositions(queried, k)
    ensures |ByIndex(queried, k).Keys| == k
  {
    if k != 0 {
      FiledCount(queried, k - 1);
      var n := queried[k - 1].logIndex;
      if n in ByIndex(queried, k - 1) {
        var i := FiledFrom(queried, k - 1, n);
      }
      assert ByIndex(queried, k).Keys == ByIndex(queried, k - 1).Keys + {n};
    }
  }

  /** The filed logs fill the positions from zero on, as the receipts' logs do. */
  predicate Filled(byIndex: map<nat, LogEntry>, logs: seq<LogEntry>) {
    byIndex.Keys == UpTo(|logs|) && forall n :: 0 <= n < |logs| ==> n in byIndex && byIndex[n] == logs[n]
  }

  lemma AgreeingIsFilled(header: Header, queried: seq<LogEntry>, logs: seq<LogEntry>)
    requires BlockLogsAgree(header, queried, logs)
    ensures Filled(ByIndex(queried, |queried|), logs)
  {
    hide BackwardLog, Projected;
    var byIndex := ByIndex(queried, |queried|);
    FiledCount(queried, |queried|);
    forall n <- byIndex.Keys ensures n < |logs| && byIndex[n] == logs[n] {
      var i := FiledFrom(queried, |queried|, n);
      FiledAt(queried, |queried|, i);
    }
    SameSize(byIndex.Keys, |logs|);
  }

  lemma FilledAt(queried: seq<LogEntry>, logs: seq<LogEntry>, i: nat)
    requires i < |queried| && DistinctPositions(queried, |queried|) && Filled(ByIndex(queried, |queried|), logs)
    ensures queried[i].logIndex < |logs| && Projected(queried[i]) == logs[queried[i].logIndex]
  {
    hide ByIndex, Projected, DistinctPositions;
    FiledAt(queried, |queried|, i);
    assert queried[i].logIndex in ByIndex(queried, |queried|).Keys;
  }

  lemma FilledIsAgreeing(header: Header, queried: seq<LogEntry>, logs: seq<LogEntry>)
    requires |queried| <= MAX_LOGS && DistinctPositions(queried, |queried|) && Filled(ByIndex(queried, |queried|), logs)
    requires forall i :: 0 <= i < |queried| ==> BackwardLog(queried[i], header)
    ensures BlockLogsAgree(header, queried, logs)
  {
    hide BackwardLog, Projected, ByIndex, Filled;
    FilledLength(queried, logs);
    forall i | 0 <= i < |queried| ensures queried[i].logIndex < |logs| && Projected(queried[i]) == logs[queried[i].logIndex] {
      FilledAt(queried, logs, i);
    }
  }

  lemma FilledLength(queried: seq<LogEntry>, logs: seq<LogEntry>)
    requires DistinctPositions(queried, |queried|) && Filled(ByIndex(queried, |queried|), logs)
    ensures |queried| == |logs|
  {
    hide ByIndex, DistinctPositions;
    FiledCount(queried, |queried|);
  }

  method CheckBlockLogs(header: Header, queried: seq<LogEntry>, logs: seq<LogEntry>) returns (ok: bool)
    ensures ok <==> BlockLogsAgree(header, queried, logs)
  {
    hide BackwardLog, Filled;
    ok := |queried| <= MAX_LOGS;
    if !ok {
      return;
    }
    var byIndex: map<nat, LogEntry> := map[];
    for k := 0 to |queried|
      invariant byIndex == ByIndex(queried, k) && DistinctPositions(queried, k)
      invariant forall i :: 0 <= i < k ==> BackwardLog(queried[i], header)
    {
      ok := BackwardLog(queried[k], header) && queried[k].logIndex !in byIndex;
      if !ok {
        if queried[k].logIndex in byIndex {
          var i := FiledFrom(queried, k, queried[k].logIndex);
        }
        return;
      }
      forall i | 0 <= i < k ensures queried[i].logIndex != queried[k].logIndex {
        FiledAt(queried, k, i);
      }
      byIndex := byIndex[queried[k].logIndex := Projected(queried[k])];
    }
    ok := Filled(byIndex, logs);
    if ok {
      FilledIsAgreeing(header, queried, logs);
    } else if BlockLogsAgree(header, queried, logs) {
      AgreeingIsFilled(header, queried, logs);
      assert false;
    }
  }

  lemma BehindMeans(store: Store, header: Header)
    ensures BackwardBlock(store, header) <==>
      EntriesFit(store, header) && store.logsOf(header.hash).Some?
      && BlockLogsAgree(header, store.logsOf(header.hash).value,
           BlockLogs(EntriesBehind(store, header), |header.transactions|))
    ensures BlockBehind(store, header) == Block(header, EntriesBehind(store, header))
  {
    hide BackwardEntry, BlockLogsAgree, BlockLogs, GasThrough;
  }

  method CheckBlockBack(store: Store, header: Header, tally: Tally)
      returns (ok: bool, block: Block, after: Tally, calls: nat)
    requires HeaderFits(header) && tally.count <= MAX_TRANSACTIONS && tally.logs <= MAX_LOGS
    ensures ok <==> BackwardBlock(store, header) && NewHere(tally, header, EntriesBehind(store, header))
    ensures ok ==> block == BlockBehind(store, header)
                   && SeenWith(tally.transactions, after.transactions, header.transactions)
                   && after.count == tally.count + |block.entries| <= MAX_TRANSACTIONS
                   && after.logs == tally.logs + LogsThrough(block.entries, |block.entries|) <= MAX_LOGS
    ensures 2 * tally.count + calls <= 2 * MAX_TRANSACTIONS + 1 && (ok ==> calls == 2 * |block.entries| + 1)
  {
    hide BackwardBlock, EntriesFit, NewHere, EntriesBehind, SeenWith, BlockLogsAgree, BlockBehind, HeaderFits, BlockLogs, LogsThrough;
    BehindMeans(store, header);
    var entries, logs;
    ok, entries, logs, after, calls := CheckEntriesBack(store, header, tally);
    block := Block(header, entries);
    if !ok {
      return;
    }
    calls := calls + 1;
    match store.logsOf(header.hash)
    case None => ok := false;
    case Some(queried) => ok := CheckBlockLogs(header, queried, logs);
  }

  // The descent along parent hashes.

  function Steps(c: Config): (r: nat)
    requires BackwardConfig(c)
    ensures r == c.endNumber - c.startNumber && 0 < r <= MAX_BLOCKS
  {
    c.endNumber - c.startNumber
  }

  ghost predicate Descended(store: Store, c: Config, k: nat, descending: seq<Header>, requested: Hash, seen: set<Hash>) {
    && |descending| == k && requested == RequestedHash(store, c.endHash, k)
    && (forall j :: 0 <= j < k ==> StepBack(store, c, j) && descending[j] == HeaderBack(store, c.endHash, j))
    && (forall h :: h in seen <==> exists j :: 0 <= j < k && RequestedHash(store, c.endHash, j) == h)
  }

  lemma AncestorAt(store: Store, hash: Hash, k: nat)
    requires k != 0 ==> Ancestor(store, hash, k - 1).Some?
    ensures Ancestor(store, hash, k) == store.byHash(RequestedHash(store, hash, k))
  {
  }

  /** The checks of one step, in the words of the specification. */
  lemma StepMeans(store: Store, c: Config, k: nat, descending: seq<Header>, requested: Hash, seen: set<Hash>)
    requires Descended(store, c, k, descending, requested, seen)
    ensures var read := store.byHash(requested);
      StepBack(store, c, k) <==>
        && requested !in seen && read.Some? && HeaderFits(read.value) && read.value.hash == requested
        && read.value.number == c.endNumber - k && (k != 0 ==> read.value.timestamp <= descending[k - 1].timestamp)
    ensures store.byHash(requested).Some? ==> HeaderBack(store, c.endHash, k) == store.byHash(requested).value
  {
    hide HeaderFits, RequestedHash;
    if k != 0 {
      assert StepBack(store, c, k - 1);
    }
    AncestorAt(store, c.endHash, k);
  }

  lemma DescendStep(store: Store, c: Config, k: nat, descending: seq<Header>, requested: Hash, seen: set<Hash>, header: Header)
    requires Descended(store, c, k, descending, requested, seen) && StepBack(store, c, k)
    requires header == HeaderBack(store, c.endHash, k)
    ensures Descended(store, c, k + 1, descending + [header], header.parent, seen + {requested})
  {
    hide StepBack, HeaderBack;
    forall h ensures h in seen + {requested} <==> exists j :: 0 <= j < k + 1 && RequestedHash(store, c.endHash, j) == h {
      if h in seen {
        var j :| 0 <= j < k && RequestedHash(store, c.endHash, j) == h;
      }
    }
  }

  /** Follows parent hashes from the end block down to the height of the start block. */
  method Descend(store: Store, c: Config) returns (ok: bool, descending: seq<Header>, calls: nat)
    requires BackwardConfig(c)
    ensures ok <==> forall k :: 0 <= k <= Steps(c) ==> StepBack(store, c, k)
    ensures ok ==> |descending| == Steps(c) + 1
                   && forall k :: 0 <= k <= Steps(c) ==> descending[k] == HeaderBack(store, c.endHash, k)
    ensures calls <= Steps(c) + 1 && (ok ==> calls == Steps(c) + 1)
  {
    hide StepBack, HeaderFits;
    ok, descending, calls := false, [], 0;
    var requested, seen := c.endHash, {};
    for k := 0 to Steps(c) + 1
      invariant Descended(store, c, k, descending, requested, seen) && calls == k
    {
      StepMeans(store, c, k, descending, requested, seen);
      if requested in seen {
        return;
      }
      calls := calls + 1;
      if store.byHash(requested).None? {
        return;
      }
      var header := store.byHash(requested).value;
      if !HeaderFits(header) || header.hash != requested || header.number != c.endNumber - k
         || (descending != [] && header.timestamp > descending[|descending| - 1].timestamp) {
        return;
      }
      DescendStep(store, c, k, descending, requested, seen, header);
      descending, requested, seen := descending + [header], header.parent, seen + {requested};
    }
    ok := true;
  }

  // The blocks behind the headers.

  ghost predicate TalliedBack(store: Store, c: Config, k: nat, tally: Tally)
    requires BackwardConfig(c) && k <= Steps(c)
  {
    && (forall h :: h in tally.transactions <==>
         h in HeaderBack(store, c.endHash, Steps(c)).transactions
         || exists j :: 0 <= j < k && h in HeaderBack(store, c.endHash, j).transactions)
    && tally.count == EntryCount(BlocksBack(store, c.endHash, Steps(c)), k) <= MAX_TRANSACTIONS
    && tally.logs == LogCount(BlocksBack(store, c.endHash, Steps(c)), k) <= MAX_LOGS
  }

  /** Whether the next block back is accepted, in the words of the specification. */
  ghost predicate NextBackFits(store: Store, c: Config, k: nat)
    requires BackwardConfig(c) && k < Steps(c)
  {
    && BackPlace(store, c, k)
    && EntryCount(BlocksBack(store, c.endHash, Steps(c)), k + 1) <= MAX_TRANSACTIONS
    && LogCount(BlocksBack(store, c.endHash, Steps(c)), k + 1) <= MAX_LOGS
  }

  lemma BackAt(store: Store, hash: Hash, count: nat, k: nat)
    requires k < count
    ensures BlocksBack(store, hash, count)[k] == BlockBehind(store, HeaderBack(store, hash, k))
    ensures BlockBehind(store, HeaderBack(store, hash, k)).entries == EntriesBehind(store, HeaderBack(store, hash, k))
  {
  }

  /** Whether a block shares no transaction with the start block or a block already passed. */
  lemma NewMeans(store: Store, c: Config, k: nat, tally: Tally)
    requires BackwardConfig(c) && k < Steps(c) && TalliedBack(store, c, k, tally)
    ensures var txs := HeaderBack(store, c.endHash, k).transactions;
      (forall i :: 0 <= i < |txs| ==> txs[i] !in tally.transactions) <==> FreshBack(store, c, k)
  {
    hide HeaderBack, EntryCount, LogCount;
    var txs, start := HeaderBack(store, c.endHash, k).transactions, HeaderBack(store, c.endHash, Steps(c)).transactions;
    if i :| 0 <= i < |txs| && txs[i] in tally.transactions {
      if txs[i] !in start {
        var j :| 0 <= j < k && txs[i] in HeaderBack(store, c.endHash, j).transactions;
        assert !Apart(store, c, j, k);
      }
    } else {
      forall i, n | 0 <= i < |txs| && 0 <= n < |start| ensures start[n] != txs[i] {
        assert start[n] in start && txs[i] !in tally.transactions;
      }
      forall j | 0 <= j < k ensures Apart(store, c, j, k) {
        var other := HeaderBack(store, c.endHash, j).transactions;
        forall i, n | 0 <= i < |txs| && 0 <= n < |other| ensures other[n] != txs[i] {
          assert other[n] in other && txs[i] !in tally.transactions;
        }
      }
    }
  }

  lemma NextBackMeans(store: Store, c: Config, k: nat, tally: Tally)
    requires BackwardConfig(c) && k < Steps(c) && TalliedBack(store, c, k, tally)
    ensures var header := HeaderBack(store, c.endHash, k);
      BackwardBlock(store, header) && NewHere(tally, header, EntriesBehind(store, header)) <==> NextBackFits(store, c, k)
  {
    hide BackwardBlock, HeaderBack, BlocksBack, FreshBack, EntriesBehind, BlockBehind;
    NewMeans(store, c, k, tally);
    BackAt(store, c.endHash, Steps(c), k);
  }

  lemma TallyStep(store: Store, c: Config, k: nat, tally: Tally, block: Block, after: Tally)
    requires BackwardConfig(c) && k < Steps(c) && TalliedBack(store, c, k, tally)
    requires block == BlockBehind(store, HeaderBack(store, c.endHash, k))
    requires SeenWith(tally.transactions, after.transactions, block.header.transactions)
    requires after.count == tally.count + |block.entries| <= MAX_TRANSACTIONS
    requires after.logs == tally.logs + LogsThrough(block.entries, |block.entries|) <= MAX_LOGS
    ensures TalliedBack(store, c, k + 1, after)
  {
    hide HeaderBack, BlocksBack, LogsThrough;
    BackAt(store, c.endHash, Steps(c), k);
    assert block.header == HeaderBack(store, c.endHash, k);
    forall h ensures h in after.transactions <==>
        h in HeaderBack(store, c.endHash, Steps(c)).transactions
        || exists j :: 0 <= j < k + 1 && h in HeaderBack(store, c.endHash, j).transactions
    {
      if h in tally.transactions && h !in HeaderBack(store, c.endHash, Steps(c)).transactions {
        var j :| 0 <= j < k && h in HeaderBack(store, c.endHash, j).transactions;
      }
    }
  }

  /** A block that does not fit refuses the whole walk. */
  lemma ChainNextBack(store: Store, c: Config, k: nat)
    requires BackwardConfig(c) && k < Steps(c)
    ensures BackwardChain(store, c) ==> NextBackFits(store, c, k)
  {
    hide BackPlace, HeaderBack, StepBack, BlocksBack, EntryCount, LogCount;
    if BackwardChain(store, c) {
      CountsGrow(BlocksBack(store, c.endHash, Steps(c)), k + 1);
    }
  }

  /** The start block ends the descent where the numbered reads say it should. */
  predicate Anchored(store: Store, c: Config, descending: seq<Header>)
    requires 0 <= c.startNumber && 0 <= c.endNumber && descending != []
  {
    && descending[|descending| - 1].hash == c.startHash
    && store.byNumber(c.startNumber) == Some(descending[|descending| - 1])
    && store.byNumber(c.endNumber) == Some(descending[0])
  }

  ghost predicate PassedBack(store: Store, c: Config, k: nat, blocks: seq<Block>, tally: Tally)
    requires BackwardConfig(c) && k <= Steps(c)
  {
    && TalliedBack(store, c, k, tally) && blocks == BlocksBack(store, c.endHash, Steps(c))[..k]
    && forall j :: 0 <= j < k ==> NextBackFits(store, c, j)
  }

  lemma PassedAll(store: Store, c: Config, descending: seq<Header>, blocks: seq<Block>, tally: Tally)
    requires BackwardConfig(c) && |descending| == Steps(c) + 1 && Anchored(store, c, descending)
    requires forall k :: 0 <= k <= Steps(c) ==> StepBack(store, c, k) && descending[k] == HeaderBack(store, c.endHash, k)
    requires PassedBack(store, c, Steps(c), blocks, tally)
    ensures BackwardChain(store, c) && blocks == BlocksBack(store, c.endHash, Steps(c))
    ensures tally.count == EntryCount(blocks, |blocks|) <= MAX_TRANSACTIONS
  {
    hide BackPlace, HeaderBack, StepBack, EntryCount, LogCount;
    forall k | 0 <= k < Steps(c) ensures BackPlace(store, c, k) {
      assert NextBackFits(store, c, k);
    }
  }

  /** Every block behind the descent, newest first. */
  method CheckBlocksBack(store: Store, c: Config, descending: seq<Header>) returns (ok: bool, blocks: seq<Block>, calls: nat)
    requires BackwardConfig(c) && |descending| == Steps(c) + 1 && Anchored(store, c, descending)
    requires forall k :: 0 <= k <= Steps(c) ==> StepBack(store, c, k) && descending[k] == HeaderBack(store, c.endHash, k)
    ensures ok <==> BackwardChain(store, c)
    ensures ok ==> blocks == BlocksBack(store, c.endHash, Steps(c)) && calls == Steps(c) + 2 * EntryCount(blocks, |blocks|)
    ensures calls <= Steps(c) + 2 * MAX_TRANSACTIONS
  {
    hide BackwardChain, StepBack, HeaderBack, BlocksBack, NextBackFits, TalliedBack, Anchored, NewHere, EntriesBehind, BlockBehind,
         SeenWith, HeaderFits, BackwardBlock;
    var anchor := descending[Steps(c)];
    var tally := Tally(set h | h in anchor.transactions, 0, 0);
    ok, blocks, calls := false, [], 0;
    TallyStarts(store, c, tally);
    for k := 0 to Steps(c)
      invariant PassedBack(store, c, k, blocks, tally) && calls == k + 2 * tally.count
    {
      FitsAt(store, c, k);
      TallyBounds(store, c, k, tally);
      NextBackMeans(store, c, k, tally);
      ChainNextBack(store, c, k);
      var fits, block, after, made := CheckBlockBack(store, descending[k], tally);
      calls := calls + made;
      if !fits {
        return;
      }
      BehindHeader(store, descending[k]);
      TallyStep(store, c, k, tally, block, after);
      BackAt(store, c.endHash, Steps(c), k);
      TakeOneMore(BlocksBack(store, c.endHash, Steps(c)), k);
      blocks, tally := blocks + [block], after;
    }
    PassedAll(store, c, descending, blocks, tally);
    ok := true;
  }

  lemma TakeOneMore<T>(s: seq<T>, k: nat)
    requires k < |s|
    ensures s[..k + 1] == s[..k] + [s[k]]
  {
  }

  lemma FitsAt(store: Store, c: Config, k: nat)
    requires StepBack(store, c, k)
    ensures HeaderFits(HeaderBack(store, c.endHash, k))
  {
  }

  lemma TallyBounds(store: Store, c: Config, k: nat, tally: Tally)
    requires BackwardConfig(c) && k <= Steps(c) && TalliedBack(store, c, k, tally)
    ensures tally.count <= MAX_TRANSACTIONS && tally.logs <= MAX_LOGS
  {
  }

  lemma TallyStarts(store: Store, c: Config, tally: Tally)
    requires BackwardConfig(c)
    requires tally == Tally(set h | h in HeaderBack(store, c.endHash, Steps(c)).transactions, 0, 0)
    ensures PassedBack(store, c, 0, [], tally)
  {
    hide HeaderBack;
  }

  /**
   The backward collector: accepts exactly what the specification accepts, and returns the
   walked blocks in chain order, with the state at the end block. It makes two requests for
   every walked block and every transaction and twenty-four more, so the bound on requests never refuses.
   */
  method Collect(store: Store, c: Config, digest: bytes -> bytes) returns (r: Option<History>, calls: nat)
    ensures r == if Backward(store, c, digest) then Some(BackwardHistory(store, c, digest)) else None
    ensures calls <= 536 < MAX_BACKWARD_CALLS
    ensures r.Some? ==> calls == 2 * Steps(c) + 2 * EntryCount(BlocksBack(store, c.endHash, Steps(c)), Steps(c)) + 24
  {
    hide BackwardChain, BoundaryFits, EndReads, StepBack, HeaderBack, BlocksBack, Anchored;
    r, calls := None, 0;
    if !BackwardConfig(c) {
      return;
    }
    calls := 1;
    if store.chainId != CHAIN_ID {
      return;
    }
    var bounded, made := CheckBoundaries(store, c);
    calls := calls + made;
    if !bounded {
      return;
    }
    var descended, descending;
    descended, descending, made := Descend(store, c);
    calls := calls + made;
    ChainDescends(store, c, descended, descending);
    if !descended || !Anchored(store, c, descending) {
      return;
    }
    var ok, blocks;
    ok, blocks, made := CheckBlocksBack(store, c, descending);
    calls := calls + made;
    if !ok {
      return;
    }
    ok, made := CheckEnds(store, c, 65536, digest);
    calls := calls + made;
    if !ok {
      return;
    }
    bounded, made := CheckBoundaries(store, c);
    calls := calls + made;
    if bounded {
      EndsRead(store, c, digest);
      r := Some(Reported(store, c, descending[|descending| - 1], Reversed(blocks)));
    }
  }

  lemma EndsRead(store: Store, c: Config, digest: bytes -> bytes)
    requires 0 <= c.endNumber && EndReads(store, c, 65536, digest)
    ensures store.code(c.registry, c.endNumber).Some? && store.code(c.probe, c.endNumber).Some?
    ensures store.endpoint(c.endNumber).Some?
  {
  }

  lemma ChainDescends(store: Store, c: Config, descended: bool, descending: seq<Header>)
    requires BackwardConfig(c) && (descended <==> forall k :: 0 <= k <= Steps(c) ==> StepBack(store, c, k))
    requires descended ==> |descending| == Steps(c) + 1
    requires descended ==> forall k :: 0 <= k <= Steps(c) ==> descending[k] == HeaderBack(store, c.endHash, k)
    ensures BackwardChain(store, c) ==> descended && Anchored(store, c, descending)
  {
    hide StepBack, HeaderBack, BackPlace, EntryCount, LogCount;
  }
}
