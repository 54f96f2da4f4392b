/**
 The two collectors against one chain store: by number, forwards over full blocks, and by
 hash, backwards along parent links. What each accepts and what it then returns.
 */
module Collectors {
  import opened Bytes
  import opened Chain
  import opened Wrappers

  const MAX_BLOCKS: int := 128
  const MAX_TRANSACTIONS: nat := 128
  const MAX_LOGS: nat := 1024
  const MAX_UINT: int := 0xffffffff_ffffffff_ffffffff_ffffffff_ffffffff_ffffffff_ffffffff_ffffffff

  /** A block with its transactions in full; the header lists no hashes of its own. */
  datatype FullBlock = FullBlock(header: Header, txs: seq<ChainTx>)

  /** Every read a collector makes, as a function of what it asks for. */
  datatype Store = Store(
    chainId: int, full: nat -> Option<FullBlock>, byNumber: nat -> Option<Header>, byHash: Hash -> Option<Header>,
    transaction: Hash -> Option<ChainTx>, receipt: Hash -> Option<Receipt>,
    logsBetween: (nat, nat) -> Option<seq<LogEntry>>, logsOf: Hash -> Option<seq<LogEntry>>,
    code: (Address, nat) -> Option<bytes>, endpoint: nat -> Option<Endpoint>)

  function Hashes(txs: seq<ChainTx>): (r: seq<Hash>)
    ensures |r| == |txs|
  {
    seq(|txs|, i requires 0 <= i < |txs| => txs[i].hash)
  }

  function HeaderOf(b: FullBlock): Header {
    b.header.(transactions := Hashes(b.txs))
  }

  /** Without the optional timestamp, which two reads of one log need not both carry. */
  function Projected(log: LogEntry): LogEntry {
    log.(timestamp := None)
  }

  function AllProjected(logs: seq<LogEntry>): (r: seq<LogEntry>)
    ensures |r| == |logs|
  {
    seq(|logs|, i requires 0 <= i < |logs| => Projected(logs[i]))
  }

  predicate HeaderFits(h: Header) {
    h.gasUsed <= h.gasLimit && |h.transactions| <= MAX_TRANSACTIONS && Distinct(h.transactions)
  }

  predicate Timely(timestamp: Option<nat>, header: Header) {
    timestamp.Some? ==> timestamp.value == header.timestamp
  }

  const NO_RECEIPT: Receipt := Receipt(0, 0, 0, 0, 0, None, 0, 0, 0, None, [], None, None)

  function ReceiptOf(store: Store, hash: Hash): Receipt {
    if store.receipt(hash).Some? then store.receipt(hash).value else NO_RECEIPT
  }

  function EntriesOf(store: Store, txs: seq<ChainTx>): (r: seq<Entry>)
    ensures |r| == |txs|
  {
    seq(|txs|, k requires 0 <= k < |txs| => Entry(BodyOf(txs[k]), ReceiptOf(store, txs[k].hash)))
  }

  /** The logs of the first entries of a block, in order. */
  function BlockLogs(entries: seq<Entry>, k: nat): (r: seq<LogEntry>)
    requires k <= |entries|
    ensures |r| == LogsThrough(entries, k)
  {
    if k == 0 then [] else BlockLogs(entries, k - 1) + AllProjected(entries[k - 1].receipt.logs)
  }

  predicate EndpointFits(e: Endpoint) {
    |e.owners| == 3 && forall i :: 0 <= i < 3 ==> 0 < e.owners[i] < 0x1_00000000_00000000_00000000_00000000_00000000
  }

  predicate CodeFits(code: Option<bytes>, pin: bytes, maximum: nat, digest: bytes -> bytes) {
    code.Some? && 0 < |code.value| <= maximum && digest(code.value) == pin
  }

  /** What a receipt has to say of its transaction, given the gas used before it; both collectors check it alike. */
  predicate ReceiptChecks(header: Header, body: Body, r: Receipt, k: nat, before: nat) {
    && ReceiptPlaced(r, header, k) && r.sender == body.sender && r.to == body.to && r.status in {0, 1}
    && 0 < r.gasUsed <= body.gas && r.cumulative == before + r.gasUsed
    && (r.gasPrice.Some? ==> r.gasPrice.value == body.gasPrice) && Timely(r.timestamp, header)
    && (body.to.None? && r.status == 1 ==> r.creation.Some?)
    && |r.logs| <= MAX_LOGS && (r.status == 1 || r.logs == [])
  }

  predicate ReceiptFits(header: Header, entries: seq<Entry>, k: nat)
    requires k < |entries|
  {
    ReceiptChecks(header, entries[k].body, entries[k].receipt, k, GasThrough(entries, k))
  }

  predicate TransactionFits(tx: ChainTx, header: Header, k: nat) {
    && k < |header.transactions| && tx.hash == header.transactions[k] && tx.blockHash == header.hash
    && tx.blockNumber == header.number && tx.index == k && 0 < tx.gas <= MAX_GAS && tx.value == 0
  }

  // By number.

  predicate ForwardConfig(c: Config) {
    && ConfigFits(c) && 0 <= c.startNumber < c.endNumber <= MAX_UINT && c.endNumber - c.startNumber + 1 <= MAX_BLOCKS
    && c.startHash != c.endHash
  }

  predicate ForwardLog(log: LogEntry, header: Header, txHash: Hash, txIndex: nat, logIndex: nat) {
    && LogPlaced(log, header, txHash, txIndex, logIndex) && log.emitter != 0
    && 1 <= |log.topics| <= 4 && |log.data| <= 4096 && Timely(log.timestamp, header)
  }

  predicate ForwardTransaction(tx: ChainTx, header: Header, k: nat) {
    TransactionFits(tx, header, k) && tx.sender != 0 && tx.to != Some(0) && |tx.input| <= 24576
  }

  predicate ForwardCreation(tx: ChainTx, r: Receipt) {
    r.creation.Some? ==> r.creation.value != 0 && tx.to.None? && r.status == 1
  }

  /** The logs of a receipt are numbered on from those before it in the block. */
  predicate ForwardLogs(r: Receipt, header: Header, k: nat, before: nat) {
    forall j :: 0 <= j < |r.logs| ==> ForwardLog(r.logs[j], header, r.txHash, k, before + j)
  }

  predicate ForwardEntry(store: Store, header: Header, txs: seq<ChainTx>, k: nat)
    requires k < |txs|
  {
    var entries := EntriesOf(store, txs);
    var r := entries[k].receipt;
    && ForwardTransaction(txs[k], header, k)
    && store.receipt(txs[k].hash).Some? && ReceiptFits(header, entries, k)
    && ForwardCreation(txs[k], r) && ForwardLogs(r, header, k, LogsThrough(entries, k))
  }

  predicate ForwardBlock(store: Store, n: nat) {
    store.full(n).Some? && ForwardFull(store, n, HeaderOf(store.full(n).value), store.full(n).value.txs)
  }

  predicate ForwardFull(store: Store, n: nat, header: Header, txs: seq<ChainTx>) {
    && header.number == n && HeaderFits(header)
    && (forall k :: 0 <= k < |txs| ==> ForwardEntry(store, header, txs, k))
    && GasThrough(EntriesOf(store, txs), |txs|) == header.gasUsed
  }

  const NO_HEADER: Header := Header(0, 0, 0, 0, [], 0, 0, [])

  /** The block of a number, as the forward collector sees it. */
  function BlockAt(store: Store, n: nat): Block {
    if store.full(n).None? then Block(NO_HEADER, [])
    else Block(HeaderOf(store.full(n).value), EntriesOf(store, store.full(n).value.txs))
  }

  function BlocksAt(store: Store, first: nat, count: nat): (r: seq<Block>)
    ensures |r| == count
  {
    seq(count, i requires 0 <= i < count => BlockAt(store, first + i))
  }

  function IntervalLogs(blocks: seq<Block>, n: nat): (r: seq<LogEntry>)
    requires n <= |blocks|
    ensures |r| == LogCount(blocks, n)
  {
    if n == 0 then [] else IntervalLogs(blocks, n - 1) + BlockLogs(blocks[n - 1].entries, |blocks[n - 1].entries|)
  }

  predicate Linked(previous: Header, next: Header) {
    next.parent == previous.hash && previous.timestamp <= next.timestamp
  }

  /** Blocks in chain order: linked, none twice, no transaction twice. */
  predicate Follows(blocks: seq<Block>, n: nat)
    requires n < |blocks|
  {
    && (n != 0 ==> Linked(blocks[n - 1].header, blocks[n].header))
    && (forall m | 0 <= m < n ::
         blocks[m].header.hash != blocks[n].header.hash
         && Disjoint(blocks[m].header.transactions, blocks[n].header.transactions))
  }

  predicate BoundaryFits(store: Store, number: nat, hash: Hash) {
    && store.byNumber(number).Some? && HeaderFits(store.byNumber(number).value)
    && store.byNumber(number).value.number == number && store.byNumber(number).value.hash == hash
  }

  predicate Boundaries(store: Store, c: Config)
    requires 0 <= c.startNumber <= c.endNumber
  {
    store.chainId == CHAIN_ID && BoundaryFits(store, c.startNumber, c.startHash) && BoundaryFits(store, c.endNumber, c.endHash)
  }

  /** A log of the range query agrees with the receipt log at the same place. */
  predicate RangeLogFits(blocks: seq<Block>, log: LogEntry, expected: LogEntry) {
    && Projected(log) == expected
    && exists n :: 0 <= n < |blocks| && blocks[n].header.hash == log.blockHash
                   && ForwardLog(log, blocks[n].header, expected.txHash, expected.txIndex, expected.logIndex)
  }

  predicate RangeAgrees(blocks: seq<Block>, queried: seq<LogEntry>) {
    var logs := IntervalLogs(blocks, |blocks|);
    |queried| <= MAX_LOGS && |queried| == |logs| && forall i :: 0 <= i < |logs| ==> RangeLogFits(blocks, queried[i], logs[i])
  }

  predicate ForwardPlace(store: Store, c: Config, blocks: seq<Block>, n: nat)
    requires 0 <= c.startNumber && n < |blocks|
  {
    ForwardBlock(store, c.startNumber + n) && Follows(blocks, n)
  }

  /** The forward walk: every block in place, and every log once in the range query. */
  predicate ForwardChain(store: Store, c: Config)
    requires ForwardConfig(c)
  {
    var blocks := BlocksAt(store, c.startNumber, c.endNumber - c.startNumber + 1);
    && (forall n :: 0 <= n < |blocks| ==> ForwardPlace(store, c, blocks, n))
    && store.byNumber(c.startNumber) == Some(blocks[0].header)
    && store.byNumber(c.endNumber) == Some(blocks[|blocks| - 1].header)
    && EntryCount(blocks, |blocks|) <= MAX_TRANSACTIONS && LogCount(blocks, |blocks|) <= MAX_LOGS
    && store.logsBetween(c.startNumber, c.endNumber).Some?
    && RangeAgrees(blocks, store.logsBetween(c.startNumber, c.endNumber).value)
  }

  /** The two runtimes and the contract state at the end block. */
  predicate EndReads(store: Store, c: Config, maximum: nat, digest: bytes -> bytes)
    requires 0 <= c.endNumber
  {
    && CodeFits(store.code(c.registry, c.endNumber), c.registryPin, maximum, digest)
    && CodeFits(store.code(c.probe, c.endNumber), c.probePin, maximum, digest)
    && store.endpoint(c.endNumber).Some? && EndpointFits(store.endpoint(c.endNumber).value)
  }

  // Requests. A getter of the end state is one request, and there are sixteen.

  const MAX_FORWARD_CALLS: nat := 512
  const MAX_BACKWARD_CALLS: nat := 800
  const GETTERS: nat := 16

  method CheckEnds(store: Store, c: Config, maximum: nat, digest: bytes -> bytes) returns (ok: bool, calls: nat)
    requires 0 <= c.endNumber
    ensures ok <==> EndReads(store, c, maximum, digest)
    ensures calls <= 2 + GETTERS && (ok ==> calls == 2 + GETTERS)
  {
    calls := 1;
    ok := CodeFits(store.code(c.registry, c.endNumber), c.registryPin, maximum, digest);
    if !ok {
      return;
    }
    calls := calls + 1;
    ok := CodeFits(store.code(c.probe, c.endNumber), c.probePin, maximum, digest);
    if !ok {
      return;
    }
    calls := calls + GETTERS;
    ok := store.endpoint(c.endNumber).Some? && EndpointFits(store.endpoint(c.endNumber).value);
  }

  /** Both boundary blocks, read by number. */
  method CheckBoundaries(store: Store, c: Config) returns (ok: bool, calls: nat)
    requires 0 <= c.startNumber <= c.endNumber
    ensures ok <==> BoundaryFits(store, c.startNumber, c.startHash) && BoundaryFits(store, c.endNumber, c.endHash)
    ensures calls <= 2 && (ok ==> calls == 2)
  {
    calls := 1;
    ok := BoundaryFits(store, c.startNumber, c.startHash);
    if ok {
      calls := calls + 1;
      ok := BoundaryFits(store, c.endNumber, c.endHash);
    }
  }

  /** What the forward collector accepts. */
  predicate Forward(store: Store, c: Config, digest: bytes -> bytes) {
    ForwardConfig(c) && Boundaries(store, c) && ForwardChain(store, c) && EndReads(store, c, 24576, digest)
  }

  function Reported(store: Store, c: Config, start: Header, blocks: seq<Block>): History
    requires blocks != [] && 0 <= c.endNumber
    requires store.code(c.registry, c.endNumber).Some? && store.code(c.probe, c.endNumber).Some?
    requires store.endpoint(c.endNumber).Some?
  {
    History(start, blocks[|blocks| - 1].header, blocks, store.code(c.registry, c.endNumber).value,
            store.code(c.probe, c.endNumber).value, store.endpoint(c.endNumber).value)
  }

  function ForwardHistory(store: Store, c: Config, digest: bytes -> bytes): History
    requires Forward(store, c, digest)
  {
    var blocks := BlocksAt(store, c.startNumber, c.endNumber - c.startNumber + 1);
    Reported(store, c, blocks[0].header, blocks[1..])
  }

  // By hash.

  predicate BackwardConfig(c: Config) {
    ConfigFits(c) && 0 <= c.startNumber < c.endNumber <= MAX_UINT && c.endNumber - c.startNumber <= MAX_BLOCKS
  }

  /** The k-th ancestor of a block, following parent hashes. */
  function Ancestor(store: Store, hash: Hash, k: nat): Option<Header> {
    if k == 0 then store.byHash(hash) else
    var child :- Ancestor(store, hash, k - 1);
    store.byHash(child.parent)
  }

  function HeaderBack(store: Store, hash: Hash, k: nat): Header {
    if Ancestor(store, hash, k).Some? then Ancestor(store, hash, k).value else NO_HEADER
  }

  function RequestedHash(store: Store, hash: Hash, k: nat): Hash {
    if k == 0 then hash else HeaderBack(store, hash, k - 1).parent
  }

  const NO_TRANSACTION: ChainTx := ChainTx(0, 0, 0, 0, 0, None, [], 0, 0, 0)

  function TransactionOf(store: Store, hash: Hash): ChainTx {
    if store.transaction(hash).Some? then store.transaction(hash).value else NO_TRANSACTION
  }

  function Transactions(store: Store, hashes: seq<Hash>): (r: seq<ChainTx>)
    ensures |r| == |hashes|
  {
    seq(|hashes|, k requires 0 <= k < |hashes| => TransactionOf(store, hashes[k]))
  }

  /** The block behind a header, its transactions looked up one by one. */
  function BlockBehind(store: Store, h: Header): Block {
    Block(h, EntriesOf(store, Transactions(store, h.transactions)))
  }

  lemma BehindHeader(store: Store, header: Header)
    ensures BlockBehind(store, header).header == header
  {
  }

  predicate BackwardLog(log: LogEntry, header: Header) {
    && log.blockHash == header.hash && log.blockNumber == header.number && !log.removed
    && log.txIndex < |header.transactions| && log.txHash == header.transactions[log.txIndex]
    && |log.topics| <= 4 && |log.data| <= 4096 && Timely(log.timestamp, header)
  }

  predicate BackwardTransaction(tx: ChainTx, header: Header, k: nat) {
    TransactionFits(tx, header, k) && |tx.input| <= 65536
  }

  predicate BackwardLogs(r: Receipt, header: Header, k: nat, before: nat) {
    forall j | 0 <= j < |r.logs| ::
      BackwardLog(r.logs[j], header) && LogPlaced(r.logs[j], header, r.txHash, k, before + j)
  }

  predicate BackwardEntry(store: Store, header: Header, txs: seq<ChainTx>, k: nat)
    requires k < |txs| == |header.transactions|
  {
    var entries := EntriesOf(store, txs);
    var r := entries[k].receipt;
    && store.transaction(header.transactions[k]).Some? && BackwardTransaction(txs[k], header, k)
    && store.receipt(txs[k].hash).Some? && ReceiptFits(header, entries, k)
    && (txs[k].to.Some? ==> r.creation.None?) && BackwardLogs(r, header, k, LogsThrough(entries, k))
  }

  /** The block query lists exactly the receipt logs, in any order. */
  predicate BlockLogsAgree(header: Header, queried: seq<LogEntry>, logs: seq<LogEntry>) {
    && |queried| <= MAX_LOGS && |queried| == |logs|
    && (forall i | 0 <= i < |queried| ::
         BackwardLog(queried[i], header) && queried[i].logIndex < |logs|
         && Projected(queried[i]) == logs[queried[i].logIndex])
    && (forall i, j :: 0 <= i < j < |queried| ==> queried[i].logIndex != queried[j].logIndex)
  }

  predicate BackwardBlock(store: Store, header: Header) {
    var txs := Transactions(store, header.transactions);
    var entries := EntriesOf(store, txs);
    && (forall k :: 0 <= k < |txs| ==> BackwardEntry(store, header, txs, k))
    && GasThrough(entries, |entries|) == header.gasUsed
    && store.logsOf(header.hash).Some?
    && BlockLogsAgree(header, store.logsOf(header.hash).value, BlockLogs(entries, |entries|))
  }

  /** The header k steps back is what it should be, and is no header met before. */
  predicate StepBack(store: Store, c: Config, k: nat) {
    var h := HeaderBack(store, c.endHash, k);
    && Ancestor(store, c.endHash, k).Some? && HeaderFits(h)
    && h.hash == RequestedHash(store, c.endHash, k) && h.number == c.endNumber - k
    && (k != 0 ==> h.timestamp <= HeaderBack(store, c.endHash, k - 1).timestamp)
    && (forall j :: 0 <= j < k ==> RequestedHash(store, c.endHash, j) != RequestedHash(store, c.endHash, k))
  }

  /** The blocks behind a walk of so many steps from the end, newest first. */
  function BlocksBack(store: Store, hash: Hash, count: nat): (r: seq<Block>)
    ensures |r| == count
  {
    seq(count, k requires 0 <= k < count => BlockBehind(store, HeaderBack(store, hash, k)))
  }

  function Reversed<T>(s: seq<T>): (r: seq<T>)
    ensures |r| == |s|
    ensures forall i :: 0 <= i < |s| ==> r[i] == s[|s| - 1 - i]
  {
    seq(|s|, i requires 0 <= i < |s| => s[|s| - 1 - i])
  }

  predicate Apart(store: Store, c: Config, j: nat, k: nat) {
    Disjoint(HeaderBack(store, c.endHash, j).transactions, HeaderBack(store, c.endHash, k).transactions)
  }

  /** No transaction of one walked block, or of the start block, comes again in another. */
  predicate FreshBack(store: Store, c: Config, k: nat)
    requires 0 <= c.startNumber < c.endNumber
  {
    var steps := c.endNumber - c.startNumber;
    && Disjoint(HeaderBack(store, c.endHash, steps).transactions, HeaderBack(store, c.endHash, k).transactions)
    && forall j :: 0 <= j < k ==> Apart(store, c, j, k)
  }

  predicate BackPlace(store: Store, c: Config, k: nat)
    requires 0 <= c.startNumber < c.endNumber
  {
    BackwardBlock(store, HeaderBack(store, c.endHash, k)) && FreshBack(store, c, k)
  }

  /** The backward walk: a path of parents down to the start block, and every block behind it checked. */
  predicate BackwardChain(store: Store, c: Config)
    requires BackwardConfig(c)
  {
    var steps := c.endNumber - c.startNumber;
    && (forall k :: 0 <= k <= steps ==> StepBack(store, c, k))
    && HeaderBack(store, c.endHash, steps).hash == c.startHash
    && store.byNumber(c.startNumber) == Some(HeaderBack(store, c.endHash, steps))
    && store.byNumber(c.endNumber) == Some(HeaderBack(store, c.endHash, 0))
    && (forall k :: 0 <= k < steps ==> BackPlace(store, c, k))
    && EntryCount(BlocksBack(store, c.endHash, steps), steps) <= MAX_TRANSACTIONS
    && LogCount(BlocksBack(store, c.endHash, steps), steps) <= MAX_LOGS
  }

  /** What the backward collector accepts. */
  predicate Backward(store: Store, c: Config, digest: bytes -> bytes) {
    BackwardConfig(c) && Boundaries(store, c) && BackwardChain(store, c) && EndReads(store, c, 65536, digest)
  }

  function BackwardHistory(store: Store, c: Config, digest: bytes -> bytes): History
    requires Backward(store, c, digest)
  {
    var steps := c.endNumber - c.startNumber;
    Reported(store, c, HeaderBack(store, c.endHash, steps), Reversed(BlocksBack(store, c.endHash, steps)))
  }
}
