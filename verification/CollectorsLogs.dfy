/**
 The logs of a collected history are the ones the chain store lists on its own: the range
 query of the forward collector lists each receipt log at its place, and the block queries
 of the backward collector list each of them, wherever it stands.
 */
module CollectorsLogs {
  import opened Chain
  import opened Collectors
  import opened CollectorsAgree
  import opened CollectorsReadable
  import CollectByHash
  import opened Bytes
  import opened Wrappers

  /** The two logs are one, but for the timestamp that either may leave out. */
  predicate SameLog(a: LogEntry, b: LogEntry) {
    a.(timestamp := None) == b.(timestamp := None)
  }

  // Where a log stands among the logs of its block and of its interval.

  lemma {:induction false} PlaceInBlock(entries: seq<Entry>, n: nat, k: nat, j: nat)
    requires k < n <= |entries| && j < |entries[k].receipt.logs|
    ensures LogsThrough(entries, k) + j < LogsThrough(entries, n)
    ensures BlockLogs(entries, n)[LogsThrough(entries, k) + j] == entries[k].receipt.logs[j].(timestamp := None)
  {
    if k < n - 1 {
      PlaceInBlock(entries, n - 1, k, j);
    }
  }

  lemma {:induction false} PlaceInInterval(blocks: seq<Block>, n: nat, i: nat, p: nat)
    requires i < n <= |blocks| && p < LogsThrough(blocks[i].entries, |blocks[i].entries|)
    ensures LogCount(blocks, i) + p < LogCount(blocks, n)
    ensures IntervalLogs(blocks, n)[LogCount(blocks, i) + p] == BlockLogs(blocks[i].entries, |blocks[i].entries|)[p]
  {
    hide BlockLogs, LogsThrough;
    if i < n - 1 {
      PlaceInInterval(blocks, n - 1, i, p);
    }
  }

  // Forward.

  lemma QueriedAt(blocks: seq<Block>, queried: seq<LogEntry>, at: nat)
    requires RangeAgrees(blocks, queried) && at < |queried|
    ensures |queried| == LogCount(blocks, |blocks|)
    ensures queried[at].(timestamp := None) == IntervalLogs(blocks, |blocks|)[at]
  {
    hide ForwardLog;
    assert RangeLogFits(blocks, queried[at], IntervalLogs(blocks, |blocks|)[at]);
  }

  lemma RangeRead(store: Store, c: Config, digest: bytes -> bytes)
    requires Forward(store, c, digest)
    ensures 0 <= c.startNumber < c.endNumber && store.logsBetween(c.startNumber, c.endNumber).Some?
    ensures RangeAgrees(BlocksAt(store, c.startNumber, c.endNumber - c.startNumber + 1),
                        store.logsBetween(c.startNumber, c.endNumber).value)
  {
    hide RangeAgrees, BlocksAt, ForwardPlace, EntryCount, LogCount;
  }

  /**
   The range query lists exactly the logs of all receipts of the interval, the start block's
   included: the log of a place in the chain is the log at that place in the list.
   */
  lemma RangeListsEveryLog(store: Store, c: Config, digest: bytes -> bytes, blocks: seq<Block>, i: nat, k: nat, j: nat)
      returns (queried: seq<LogEntry>)
    requires Forward(store, c, digest) && 0 <= c.startNumber <= c.endNumber
    requires blocks == BlocksAt(store, c.startNumber, c.endNumber - c.startNumber + 1)
    requires i < |blocks| && k < |blocks[i].entries| && j < |blocks[i].entries[k].receipt.logs|
    ensures store.logsBetween(c.startNumber, c.endNumber) == Some(queried) && |queried| == LogCount(blocks, |blocks|)
    ensures var at := LogCount(blocks, i) + LogsThrough(blocks[i].entries, k) + j;
      at < |queried| && SameLog(queried[at], blocks[i].entries[k].receipt.logs[j])
  {
    RangeRead(store, c, digest);
    hide *;
    queried := store.logsBetween(c.startNumber, c.endNumber).value;
    QueriedPlace(blocks, queried, i, k, j);
  }

  lemma QueriedPlace(blocks: seq<Block>, queried: seq<LogEntry>, i: nat, k: nat, j: nat)
    requires RangeAgrees(blocks, queried)
    requires i < |blocks| && k < |blocks[i].entries| && j < |blocks[i].entries[k].receipt.logs|
    ensures |queried| == LogCount(blocks, |blocks|)
    ensures var at := LogCount(blocks, i) + LogsThrough(blocks[i].entries, k) + j;
      at < |queried| && SameLog(queried[at], blocks[i].entries[k].receipt.logs[j])
  {
    hide RangeAgrees, LogsThrough, LogCount, IntervalLogs, BlockLogs;
    var entries := blocks[i].entries;
    PlaceInBlock(entries, |entries|, k, j);
    PlaceInInterval(blocks, |blocks|, i, LogsThrough(entries, k) + j);
    QueriedLength(blocks, queried);
    QueriedAt(blocks, queried, LogCount(blocks, i) + (LogsThrough(entries, k) + j));
  }

  lemma QueriedLength(blocks: seq<Block>, queried: seq<LogEntry>)
    requires RangeAgrees(blocks, queried)
    ensures |queried| == LogCount(blocks, |blocks|)
  {
    hide RangeLogFits;
  }

  // Backward.

  lemma Listed(header: Header, queried: seq<LogEntry>, logs: seq<LogEntry>, p: nat) returns (m: nat)
    requires BlockLogsAgree(header, queried, logs) && p < |logs|
    ensures m < |queried| == |logs| && queried[m].logIndex == p && queried[m].(timestamp := None) == logs[p]
  {
    CollectByHash.AgreeingIsFilled(header, queried, logs);
    hide BackwardLog;
    m := CollectByHash.FiledFrom(queried, |queried|, p);
    assert queried[m].(timestamp := None) == Projected(queried[m]);
  }

  lemma BlockQueried(store: Store, header: Header)
    requires BackwardBlock(store, header)
    ensures store.logsOf(header.hash).Some?
    ensures var entries := BlockBehind(store, header).entries;
      BlockLogsAgree(header, store.logsOf(header.hash).value, BlockLogs(entries, |entries|))
  {
    hide BackwardEntry, BlockLogsAgree, BlockLogs, GasThrough;
  }

  /** The query of a walked block lists exactly the logs of its receipts: as many, and each of them under its own index. */
  lemma BlockListsEveryLog(header: Header, entries: seq<Entry>, queried: seq<LogEntry>, k: nat, j: nat) returns (m: nat)
    requires BlockLogsAgree(header, queried, BlockLogs(entries, |entries|))
    requires k < |entries| && j < |entries[k].receipt.logs|
    ensures |queried| == LogsThrough(entries, |entries|) && m < |queried|
    ensures queried[m].logIndex == LogsThrough(entries, k) + j && SameLog(queried[m], entries[k].receipt.logs[j])
  {
    hide BlockLogsAgree, LogsThrough, BlockLogs;
    PlaceInBlock(entries, |entries|, k, j);
    m := Listed(header, queried, BlockLogs(entries, |entries|), LogsThrough(entries, k) + j);
  }

  lemma WalkedBehind(store: Store, c: Config, h: History, i: nat)
    requires BackwardConfig(c) && BackwardChain(store, c) && WalkedHistory(store, c, h) && i < |h.blocks|
    ensures BackwardBlock(store, h.blocks[i].header) && h.blocks[i] == BlockBehind(store, h.blocks[i].header)
  {
    hide *;
    WalkedBlock(store, c, h, i);
    StepOf(store, c, |h.blocks| - 1 - i);
    BehindHeader(store, HeaderBack(store, c.endHash, |h.blocks| - 1 - i));
  }

  /** So it is for every block of a backward history. */
  lemma HistoryListsEveryLog(store: Store, c: Config, digest: bytes -> bytes, h: History, i: nat, k: nat, j: nat)
      returns (queried: seq<LogEntry>, m: nat)
    requires Backward(store, c, digest) && h == BackwardHistory(store, c, digest) && i < |h.blocks|
    requires k < |h.blocks[i].entries| && j < |h.blocks[i].entries[k].receipt.logs|
    ensures store.logsOf(h.blocks[i].header.hash) == Some(queried)
    ensures |queried| == LogsThrough(h.blocks[i].entries, |h.blocks[i].entries|) && m < |queried|
    ensures queried[m].logIndex == LogsThrough(h.blocks[i].entries, k) + j
    ensures SameLog(queried[m], h.blocks[i].entries[k].receipt.logs[j])
  {
    BackwardRead(store, c, digest, h);
    hide *;
    WalkedBehind(store, c, h, i);
    var b := h.blocks[i];
    BlockQueried(store, b.header);
    queried := store.logsOf(b.header.hash).value;
    m := BlockListsEveryLog(b.header, b.entries, queried, k, j);
  }
}
