/**
 What a node reports of its chain, and the histories collected from it. Quantities and
 addresses are numbers, block contents beyond the named fields are one opaque string.
 */
module Chain {
  import opened Bytes
  import opened Wrappers

  type Address = nat
  type Hash = nat

  datatype Header = Header(hash: Hash, parent: Hash, number: nat, timestamp: nat, transactions: seq<Hash>,
                           gasUsed: nat, gasLimit: nat, rest: bytes)

  datatype ChainTx = ChainTx(hash: Hash, blockHash: Hash, blockNumber: nat, index: nat, sender: Address,
                             to: Option<Address>, input: bytes, gas: nat, gasPrice: nat, value: nat)

  datatype LogEntry = LogEntry(emitter: Address, topics: seq<nat>, data: bytes, blockHash: Hash, blockNumber: nat,
                               txHash: Hash, txIndex: nat, logIndex: nat, removed: bool, timestamp: Option<nat>)

  datatype Receipt = Receipt(txHash: Hash, blockHash: Hash, blockNumber: nat, txIndex: nat, sender: Address,
                             to: Option<Address>, status: nat, gasUsed: nat, cumulative: nat, creation: Option<Address>,
                             logs: seq<LogEntry>, gasPrice: Option<nat>, timestamp: Option<nat>)

  /** A transaction as a history records it. */
  datatype Body = Body(sender: Address, to: Option<Address>, data: bytes, gas: nat, gasPrice: nat, value: nat)

  datatype Entry = Entry(body: Body, receipt: Receipt)

  datatype Block = Block(header: Header, entries: seq<Entry>)

  /** The contract state at the end block: three accounts and four totals. */
  datatype Endpoint = Endpoint(owners: seq<Address>, epochs: seq<nat>, credits: seq<nat>, stakes: seq<nat>,
                               nonces: seq<nat>, total: nat, dust: nat, messageCount: nat, balance: nat)

  datatype History = History(start: Header, end: Header, blocks: seq<Block>,
                             registryRuntime: bytes, probeRuntime: bytes, endpoint: Endpoint)

  datatype Config = Config(chainId: int, registry: Address, probe: Address, token: Address,
                           startHash: Hash, endHash: Hash, startNumber: int, endNumber: int,
                           registryPin: bytes, probePin: bytes)

  const CHAIN_ID: int := 31337
  const TOKEN: Address := 0xf3b9569f_82b18aef_890de263_b84189bd_33ebe452
  const MAX_GAS: nat := 4000000

  predicate Distinct<T(==)>(s: seq<T>) {
    forall i, j :: 0 <= i < j < |s| ==> s[i] != s[j]
  }

  predicate Disjoint<T(==)>(s: seq<T>, t: seq<T>) {
    forall i, j | 0 <= i < |s| && 0 <= j < |t| :: s[i] != t[j]
  }

  predicate ConfigFits(c: Config) {
    && c.chainId == CHAIN_ID && c.registry != 0 && c.probe != 0 && c.token == TOKEN
    && c.registry != c.probe && c.registry != c.token && c.probe != c.token
  }

  function BodyOf(tx: ChainTx): Body {
    Body(tx.sender, tx.to, tx.input, tx.gas, tx.gasPrice, tx.value)
  }

  /** The gas used by the first entries of a block. */
  function GasThrough(entries: seq<Entry>, k: nat): nat
    requires k <= |entries|
  {
    if k == 0 then 0 else GasThrough(entries, k - 1) + entries[k - 1].receipt.gasUsed
  }

  /** How many logs the first entries of a block emitted. */
  function LogsThrough(entries: seq<Entry>, k: nat): nat
    requires k <= |entries|
  {
    if k == 0 then 0 else LogsThrough(entries, k - 1) + |entries[k - 1].receipt.logs|
  }

  /** The entries and the logs of the first blocks. */
  function EntryCount(blocks: seq<Block>, n: nat): nat
    requires n <= |blocks|
  {
    if n == 0 then 0 else EntryCount(blocks, n - 1) + |blocks[n - 1].entries|
  }

  function LogCount(blocks: seq<Block>, n: nat): nat
    requires n <= |blocks|
  {
    if n == 0 then 0 else LogCount(blocks, n - 1) + LogsThrough(blocks[n - 1].entries, |blocks[n - 1].entries|)
  }

  /** A log says where it stands: its block, its transaction and its position in the block. */
  predicate LogPlaced(log: LogEntry, header: Header, txHash: Hash, txIndex: nat, logIndex: nat) {
    && log.blockHash == header.hash && log.blockNumber == header.number && log.txHash == txHash
    && log.txIndex == txIndex && log.logIndex == logIndex && !log.removed
  }

  predicate ReceiptPlaced(r: Receipt, header: Header, k: nat) {
    && k < |header.transactions| && r.txHash == header.transactions[k]
    && r.blockHash == header.hash && r.blockNumber == header.number && r.txIndex == k
  }

  // What the reader demands of the shape of a history.

  predicate ReadableLog(log: LogEntry, header: Header, txHash: Hash, txIndex: nat, logIndex: nat) {
    && LogPlaced(log, header, txHash, txIndex, logIndex)
    && log.emitter != 0 && 1 <= |log.topics| <= 4 && |log.data| <= 4096
  }

  predicate ReadableCreation(body: Body, r: Receipt) {
    && (r.creation.Some? ==> r.creation.value != 0 && body.to.None? && r.status == 1)
    && (body.to.None? && r.status == 1 ==> r.creation.Some?)
  }

  predicate ReadableEntry(header: Header, entries: seq<Entry>, k: nat)
    requires k < |entries|
  {
    var body, r := entries[k].body, entries[k].receipt;
    && body.sender != 0 && body.to != Some(0) && |body.data| <= 65536
    && 0 < body.gas <= MAX_GAS && body.value == 0
    && ReceiptPlaced(r, header, k) && r.sender == body.sender && r.to == body.to
    && r.gasUsed <= body.gas && r.cumulative == GasThrough(entries, k + 1)
    && r.status in {0, 1} && (r.status == 1 || r.logs == []) && ReadableCreation(body, r)
    && (forall j :: 0 <= j < |r.logs| ==> ReadableLog(r.logs[j], header, r.txHash, k, LogsThrough(entries, k) + j))
  }

  predicate ReadableHeader(h: Header) {
    |h.transactions| <= 256 && Distinct(h.transactions)
  }

  predicate ReadableBlock(previous: Header, b: Block) {
    && ReadableHeader(b.header) && b.header.parent == previous.hash && b.header.number == previous.number + 1
    && previous.timestamp <= b.header.timestamp && |b.entries| == |b.header.transactions|
    && GasThrough(b.entries, |b.entries|) == b.header.gasUsed
    && (forall k :: 0 <= k < |b.entries| ==> ReadableEntry(b.header, b.entries, k))
  }

  /** The header before a block of the history. */
  function Before(h: History, i: nat): Header
    requires i <= |h.blocks|
  {
    if i == 0 then h.start else h.blocks[i - 1].header
  }

  /** No block comes back, and no transaction comes back after the start block. */
  predicate ReadableOnce(h: History) {
    && (forall i, j :: 0 <= i < j <= |h.blocks| ==> Before(h, i).hash != Before(h, j).hash)
    && (forall i, j :: 0 <= i < j < |h.blocks| ==>
         Disjoint(h.blocks[i].header.transactions, h.blocks[j].header.transactions))
  }

  /** The trusted context: addresses, end hashes and runtime pins. */
  predicate ReadableContext(h: History, c: Config, digest: bytes -> bytes) {
    && ConfigFits(c) && h.start.hash == c.startHash && h.end.hash == c.endHash
    && 0 < |h.registryRuntime| <= 24576 && digest(h.registryRuntime) == c.registryPin
    && 0 < |h.probeRuntime| <= 24576 && digest(h.probeRuntime) == c.probePin
  }

  predicate ReadableBounds(h: History) {
    && ReadableHeader(h.start) && 0 < |h.blocks| <= 512 && h.end.number - h.start.number == |h.blocks|
    && EntryCount(h.blocks, |h.blocks|) <= 256 && LogCount(h.blocks, |h.blocks|) <= 2048
    && h.blocks[|h.blocks| - 1].header == h.end
  }

  predicate ReadableChain(h: History) {
    (forall i :: 0 <= i < |h.blocks| ==> ReadableBlock(Before(h, i), h.blocks[i])) && ReadableOnce(h)
  }

  predicate Readable(h: History, c: Config, digest: bytes -> bytes) {
    ReadableContext(h, c, digest) && ReadableBounds(h) && ReadableChain(h)
  }

  // Counting and noting, as the collectors and the reader do it.

  lemma {:induction false} LogsThroughGrows(entries: seq<Entry>, k: nat)
    requires k <= |entries|
    ensures LogsThrough(entries, k) <= LogsThrough(entries, |entries|)
    decreases |entries| - k
  {
    if k < |entries| {
      LogsThroughGrows(entries, k + 1);
    }
  }

  lemma {:induction false} CountsGrow(blocks: seq<Block>, n: nat)
    requires n <= |blocks|
    ensures EntryCount(blocks, n) <= EntryCount(blocks, |blocks|) && LogCount(blocks, n) <= LogCount(blocks, |blocks|)
    decreases |blocks| - n
  {
    if n < |blocks| {
      CountsGrow(blocks, n + 1);
    }
  }

  ghost predicate SeenWith(before: set<Hash>, after: set<Hash>, hashes: seq<Hash>) {
    forall h :: h in after <==> h in before || h in hashes
  }

  lemma SeenOneMore(before: set<Hash>, now: set<Hash>, hashes: seq<Hash>, k: nat)
    requires k < |hashes| && SeenWith(before, now, hashes[..k]) && Distinct(hashes)
    ensures SeenWith(before, now + {hashes[k]}, hashes[..k + 1])
    ensures hashes[k] in now <==> hashes[k] in before
  {
    assert hashes[..k + 1] == hashes[..k] + [hashes[k]];
  }
}
