/**
 The forward collector is complete: any store that serves a history of the shape the
 reader demands, within the collector's own bounds, is accepted, and that history returned.
 */
module CollectorsAccept {
  import opened Bytes
  import opened Chain
  import opened Collectors
  import opened CollectorsContents
  import opened Wrappers

  /** The transaction says where it stands. */
  ghost predicate Placed(tx: ChainTx, header: Header, k: nat) {
    && k < |header.transactions| && tx.hash == header.transactions[k] && tx.blockHash == header.hash
    && tx.blockNumber == header.number && tx.index == k
  }

  /** What the forward collector demands of an entry beyond what the reader demands. */
  ghost predicate Tighter(header: Header, e: Entry) {
    && |e.body.data| <= 24576 && 0 < e.receipt.gasUsed && |e.receipt.logs| <= 1024
    && (e.receipt.gasPrice.Some? ==> e.receipt.gasPrice.value == e.body.gasPrice)
    && Timely(e.receipt.timestamp, header) && forall j :: 0 <= j < |e.receipt.logs| ==> Timely(e.receipt.logs[j].timestamp, header)
  }

  /** The forward collector accepts exactly the readable entries that are placed, answered and within its tighter demands. */
  lemma ForwardEntryDecision(store: Store, header: Header, txs: seq<ChainTx>, k: nat)
    requires k < |txs|
    ensures ForwardEntry(store, header, txs, k) <==>
      && Placed(txs[k], header, k) && store.receipt(txs[k].hash).Some?
      && ReadableEntry(header, EntriesOf(store, txs), k) && Tighter(header, EntriesOf(store, txs)[k])
  {
    hide LogsThrough;
    var entries := EntriesOf(store, txs);
    var r, before := entries[k].receipt, LogsThrough(entries, k);
    forall j | 0 <= j < |r.logs|
      ensures ForwardLog(r.logs[j], header, r.txHash, k, before + j)
         <==> ReadableLog(r.logs[j], header, r.txHash, k, before + j) && Timely(r.logs[j].timestamp, header)
    {
    }
    if ForwardEntry(store, header, txs, k) {
      forall j | 0 <= j < |r.logs| ensures Timely(r.logs[j].timestamp, header) {
        assert ForwardLog(r.logs[j], header, r.txHash, k, before + j);
      }
    }
  }

  // One block.

  /** The store serves a block under its number: all of it, readable and within the tighter demands. */
  ghost predicate ServesBlock(store: Store, n: nat, b: Block) {
    && HoldsNumber(store, n, b) && b.header.number == n && b.header.gasUsed <= b.header.gasLimit
    && |b.entries| <= 128 && Distinct(b.header.transactions) && GasThrough(b.entries, |b.entries|) == b.header.gasUsed
    && forall k :: 0 <= k < |b.entries| ==> ServesEntry(store.full(n).value.txs[k], b, k)
  }

  ghost predicate ServesEntry(tx: ChainTx, b: Block, k: nat)
    requires k < |b.entries|
  {
    Placed(tx, b.header, k) && ReadableEntry(b.header, b.entries, k) && Tighter(b.header, b.entries[k])
  }

  lemma ServedAsHeld(store: Store, n: nat, b: Block)
    requires HoldsNumber(store, n, b)
    ensures b.header == HeaderOf(store.full(n).value) && b.entries == EntriesOf(store, store.full(n).value.txs)
    ensures BlockAt(store, n) == b
  {
    var full := store.full(n).value;
    assert b.header.transactions == Hashes(full.txs);
    forall k | 0 <= k < |full.txs| ensures b.entries[k] == EntriesOf(store, full.txs)[k] {
      assert Records(b.entries[k], full.txs[k], store.receipt(full.txs[k].hash));
    }
  }

  lemma ServedBlock(store: Store, n: nat, b: Block)
    requires ServesBlock(store, n, b)
    ensures BlockAt(store, n) == b && ForwardBlock(store, n)
  {
    ServedAsHeld(store, n, b);
    hide GasThrough, ReadableEntry, Tighter, ForwardEntry, EntriesOf;
    var txs := store.full(n).value.txs;
    forall k | 0 <= k < |txs| ensures ForwardEntry(store, b.header, txs, k) {
      assert ServesEntry(txs[k], b, k);
      assert Records(b.entries[k], txs[k], store.receipt(txs[k].hash));
      ForwardEntryDecision(store, b.header, txs, k);
    }
  }

  // The range query.

  /** A log that stands where it says, under one header. */
  ghost predicate Stands(log: LogEntry, header: Header) {
    log.blockHash == header.hash && log.timestamp.None? && ForwardLog(log, header, log.txHash, log.txIndex, log.logIndex)
  }

  lemma {:induction false} BlockLogStands(store: Store, n: nat, k: nat, j: nat)
    requires ForwardBlock(store, n) && k <= |BlockAt(store, n).entries| && j < LogsThrough(BlockAt(store, n).entries, k)
    ensures Stands(BlockLogs(BlockAt(store, n).entries, k)[j], BlockAt(store, n).header)
  {
    var entries, header := BlockAt(store, n).entries, BlockAt(store, n).header;
    if j < LogsThrough(entries, k - 1) {
      BlockLogStands(store, n, k - 1, j);
    } else {
      var i, r := j - LogsThrough(entries, k - 1), entries[k - 1].receipt;
      assert ForwardEntry(store, header, store.full(n).value.txs, k - 1);
      assert ForwardLog(r.logs[i], header, r.txHash, k - 1, LogsThrough(entries, k - 1) + i);
      assert BlockLogs(entries, k)[j] == Projected(r.logs[i]);
    }
  }

  /** The n-th block is the one read under its number, and fits there. */
  ghost predicate ForwardAt(store: Store, first: nat, blocks: seq<Block>, n: nat)
    requires n < |blocks|
  {
    ForwardBlock(store, first + n) && blocks[n] == BlockAt(store, first + n)
  }

  lemma {:induction false} IntervalLogStands(store: Store, first: nat, blocks: seq<Block>, m: nat, i: nat) returns (n: nat)
    requires m <= |blocks| && i < LogCount(blocks, m)
    requires forall n: nat :: n < m ==> ForwardAt(store, first, blocks, n)
    ensures n < m && Stands(IntervalLogs(blocks, m)[i], blocks[n].header)
  {
    hide ForwardBlock, BlockLogs, BlockAt, LogsThrough, Stands;
    assert ForwardAt(store, first, blocks, m - 1);
    if i < LogCount(blocks, m - 1) {
      n := IntervalLogStands(store, first, blocks, m - 1, i);
    } else {
      n := m - 1;
      BlockLogStands(store, first + n, |blocks[n].entries|, i - LogCount(blocks, n));
    }
  }

  lemma StandsFits(blocks: seq<Block>, n: nat, log: LogEntry)
    requires n < |blocks| && Stands(log, blocks[n].header)
    ensures RangeLogFits(blocks, log, log)
  {
  }

  lemma OwnLogFits(store: Store, first: nat, blocks: seq<Block>, i: nat)
    requires i < LogCount(blocks, |blocks|) && forall n: nat :: n < |blocks| ==> ForwardAt(store, first, blocks, n)
    ensures RangeLogFits(blocks, IntervalLogs(blocks, |blocks|)[i], IntervalLogs(blocks, |blocks|)[i])
  {
    hide ForwardAt, RangeLogFits, Stands;
    var n := IntervalLogStands(store, first, blocks, |blocks|, i);
    StandsFits(blocks, n, IntervalLogs(blocks, |blocks|)[i]);
  }

  lemma OwnLogsAgree(store: Store, first: nat, blocks: seq<Block>)
    requires LogCount(blocks, |blocks|) <= MAX_LOGS && forall n: nat :: n < |blocks| ==> ForwardAt(store, first, blocks, n)
    ensures RangeAgrees(blocks, IntervalLogs(blocks, |blocks|))
  {
    forall i | 0 <= i < LogCount(blocks, |blocks|)
      ensures RangeLogFits(blocks, IntervalLogs(blocks, |blocks|)[i], IntervalLogs(blocks, |blocks|)[i])
    {
      OwnLogFits(store, first, blocks, i);
    }
    hide ForwardAt, RangeLogFits, LogCount;
  }

  // Whole intervals.

  /** The blocks are a chain in which no block and no transaction comes twice. */
  ghost predicate InChain(blocks: seq<Block>) {
    && (forall n :: 0 < n < |blocks| ==> Linked(blocks[n - 1].header, blocks[n].header))
    && (forall m, n :: 0 <= m < n < |blocks| ==>
         blocks[m].header.hash != blocks[n].header.hash
         && Disjoint(blocks[m].header.transactions, blocks[n].header.transactions))
  }

  /** The store serves these blocks, the start block first, with the ends, the logs of all receipts in order, and the end state. */
  ghost predicate Serves(store: Store, c: Config, blocks: seq<Block>, digest: bytes -> bytes) {
    && ConfigFits(c) && store.chainId == c.chainId && 2 <= |blocks| <= 128
    && 0 <= c.startNumber && c.startNumber + |blocks| - 1 == c.endNumber <= MAX_UINT
    && (forall n: nat :: n < |blocks| ==> ServesBlock(store, c.startNumber + n, blocks[n])) && InChain(blocks)
    && EntryCount(blocks, |blocks|) <= 128 && LogCount(blocks, |blocks|) <= 1024
    && ServesEnd(store, c.startNumber, c.startHash, blocks[0].header)
    && ServesEnd(store, c.endNumber, c.endHash, blocks[|blocks| - 1].header)
    && store.logsBetween(c.startNumber, c.endNumber) == Some(IntervalLogs(blocks, |blocks|))
    && ServesCode(store.code(c.registry, c.endNumber), c.registryPin, digest)
    && ServesCode(store.code(c.probe, c.endNumber), c.probePin, digest)
    && store.endpoint(c.endNumber).Some? && EndpointFits(store.endpoint(c.endNumber).value)
  }

  ghost predicate ServesEnd(store: Store, number: nat, hash: Hash, header: Header) {
    store.byNumber(number) == Some(header) && header.hash == hash
  }

  ghost predicate ServesCode(code: Option<bytes>, pin: bytes, digest: bytes -> bytes) {
    code.Some? && 0 < |code.value| <= 24576 && digest(code.value) == pin
  }

  lemma EveryBlockServed(store: Store, c: Config, blocks: seq<Block>, digest: bytes -> bytes)
    requires Serves(store, c, blocks, digest)
    ensures blocks == BlocksAt(store, c.startNumber, c.endNumber - c.startNumber + 1)
    ensures forall n: nat :: n < |blocks| ==> ForwardAt(store, c.startNumber, blocks, n)
  {
    hide ServesBlock, BlockAt, ForwardBlock, InChain, EntryCount, LogCount, IntervalLogs, ConfigFits;
    forall n: nat | n < |blocks|
      ensures ForwardAt(store, c.startNumber, blocks, n) && blocks[n] == BlockAt(store, c.startNumber + n)
    {
      ServedBlock(store, c.startNumber + n, blocks[n]);
    }
  }

  lemma InPlace(store: Store, c: Config, blocks: seq<Block>, n: nat)
    requires 0 <= c.startNumber && n < |blocks| && InChain(blocks) && ForwardAt(store, c.startNumber, blocks, n)
    ensures ForwardPlace(store, c, blocks, n)
  {
    hide ForwardBlock, BlockAt, Linked, Disjoint;
  }

  /** The walk's conditions, put together from its parts. */
  lemma WalkFits(store: Store, c: Config, blocks: seq<Block>)
    requires ForwardConfig(c) && blocks == BlocksAt(store, c.startNumber, c.endNumber - c.startNumber + 1)
    requires forall n :: 0 <= n < |blocks| ==> ForwardPlace(store, c, blocks, n)
    requires store.byNumber(c.startNumber) == Some(blocks[0].header)
    requires store.byNumber(c.endNumber) == Some(blocks[|blocks| - 1].header)
    requires EntryCount(blocks, |blocks|) <= 128 && LogCount(blocks, |blocks|) <= 1024
    requires store.logsBetween(c.startNumber, c.endNumber) == Some(IntervalLogs(blocks, |blocks|))
    requires RangeAgrees(blocks, IntervalLogs(blocks, |blocks|))
    ensures ForwardChain(store, c)
  {
    hide ForwardPlace, RangeAgrees, EntryCount, LogCount, IntervalLogs, BlocksAt;
  }

  lemma ConfigServed(store: Store, c: Config, blocks: seq<Block>, digest: bytes -> bytes)
    requires Serves(store, c, blocks, digest)
    ensures ForwardConfig(c) && |blocks| == c.endNumber - c.startNumber + 1 && InChain(blocks)
    ensures ServesBlock(store, c.startNumber, blocks[0]) && ServesBlock(store, c.endNumber, blocks[|blocks| - 1])
    ensures ServesEnd(store, c.startNumber, c.startHash, blocks[0].header) && store.chainId == CHAIN_ID
    ensures ServesEnd(store, c.endNumber, c.endHash, blocks[|blocks| - 1].header)
    ensures EntryCount(blocks, |blocks|) <= 128 && LogCount(blocks, |blocks|) <= 1024
    ensures store.logsBetween(c.startNumber, c.endNumber) == Some(IntervalLogs(blocks, |blocks|))
  {
    hide ServesBlock, EntryCount, LogCount, IntervalLogs;
    assert c.startNumber + (|blocks| - 1) == c.endNumber;
    assert ServesBlock(store, c.startNumber + 0, blocks[0]) && ServesBlock(store, c.startNumber + (|blocks| - 1), blocks[|blocks| - 1]);
  }

  lemma ServedChain(store: Store, c: Config, blocks: seq<Block>, digest: bytes -> bytes)
    requires Serves(store, c, blocks, digest)
    ensures ForwardConfig(c) && ForwardChain(store, c) && Boundaries(store, c)
  {
    EveryBlockServed(store, c, blocks, digest);
    ConfigServed(store, c, blocks, digest);
    hide Serves, ServesBlock, ServesEnd, InChain, ForwardAt, RangeAgrees, BoundaryFits, EntryCount, LogCount, IntervalLogs, BlocksAt,
         ForwardPlace, ForwardChain;
    OwnLogsAgree(store, c.startNumber, blocks);
    EndFits(store, c.startNumber, blocks[0], c.startHash);
    EndFits(store, c.endNumber, blocks[|blocks| - 1], c.endHash);
    forall n | 0 <= n < |blocks| ensures ForwardPlace(store, c, blocks, n) {
      InPlace(store, c, blocks, n);
    }
    EndsServed(store, c, blocks);
    WalkFits(store, c, blocks);
  }

  lemma EndsServed(store: Store, c: Config, blocks: seq<Block>)
    requires 0 <= c.startNumber <= c.endNumber && blocks != []
    requires ServesEnd(store, c.startNumber, c.startHash, blocks[0].header)
    requires ServesEnd(store, c.endNumber, c.endHash, blocks[|blocks| - 1].header)
    ensures store.byNumber(c.startNumber) == Some(blocks[0].header)
    ensures store.byNumber(c.endNumber) == Some(blocks[|blocks| - 1].header)
  {
  }

  lemma EndFits(store: Store, number: nat, b: Block, hash: Hash)
    requires ServesBlock(store, number, b) && ServesEnd(store, number, hash, b.header)
    ensures BoundaryFits(store, number, hash)
  {
    hide GasThrough;
  }

  /** What is served is collected: the forward collector accepts it and returns the blocks after the start block. */
  lemma ServedIsCollected(store: Store, c: Config, blocks: seq<Block>, digest: bytes -> bytes)
    requires Serves(store, c, blocks, digest)
    ensures Forward(store, c, digest)
    ensures var h := ForwardHistory(store, c, digest);
      && h.start == blocks[0].header && h.end == blocks[|blocks| - 1].header && h.blocks == blocks[1..]
      && store.code(c.registry, c.endNumber) == Some(h.registryRuntime)
      && store.code(c.probe, c.endNumber) == Some(h.probeRuntime) && store.endpoint(c.endNumber) == Some(h.endpoint)
  {
    ServedChain(store, c, blocks, digest);
    EveryBlockServed(store, c, blocks, digest);
    hide ForwardChain, Boundaries, ServesBlock, InChain, EntryCount, LogCount, IntervalLogs, BlockAt, BlocksAt;
  }
}
