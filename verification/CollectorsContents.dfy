/**
 What a collected history holds: every field of every entry is the one the chain store
 gives, and so are the receipts, the boundary headers, the runtimes and the end state.
 */
module CollectorsContents {
  import opened Bytes
  import opened Chain
  import opened Collectors
  import opened CollectorsAgree
  import opened CollectorsReadable
  import opened Wrappers

  /** An entry records this transaction and the receipt read for it. */
  ghost predicate Records(e: Entry, tx: ChainTx, receipt: Option<Receipt>) {
    && e.body.sender == tx.sender && e.body.to == tx.to && e.body.data == tx.input
    && e.body.gas == tx.gas && e.body.gasPrice == tx.gasPrice && e.body.value == tx.value
    && receipt == Some(e.receipt)
  }

  /** The block holds the full block of a number: its header, listing the hashes, and its transactions. */
  ghost predicate HoldsNumber(store: Store, n: nat, b: Block) {
    && store.full(n).Some?
    && var full := store.full(n).value;
    && b.header == full.header.(transactions := b.header.transactions)
    && |b.entries| == |b.header.transactions| == |full.txs|
    && forall k :: 0 <= k < |full.txs| ==>
         b.header.transactions[k] == full.txs[k].hash && Records(b.entries[k], full.txs[k], store.receipt(full.txs[k].hash))
  }

  /** The block holds what its header and the hashes in it name. */
  ghost predicate HoldsHash(store: Store, b: Block) {
    && store.byHash(b.header.hash) == Some(b.header) && |b.entries| == |b.header.transactions|
    && forall k :: 0 <= k < |b.entries| ==> HoldsByHash(store, b.header.transactions[k], b.entries[k])
  }

  ghost predicate HoldsByHash(store: Store, hash: Hash, e: Entry) {
    && store.transaction(hash).Some? && store.transaction(hash).value.hash == hash
    && Records(e, store.transaction(hash).value, store.receipt(hash))
  }

  /** The boundaries, the runtimes and the end state are those the store gives. */
  ghost predicate HoldsEnds(store: Store, c: Config, h: History)
    requires 0 <= c.startNumber < c.endNumber
  {
    && store.byNumber(c.startNumber) == Some(h.start) && store.byNumber(c.endNumber) == Some(h.end)
    && store.code(c.registry, c.endNumber) == Some(h.registryRuntime)
    && store.code(c.probe, c.endNumber) == Some(h.probeRuntime)
    && store.endpoint(c.endNumber) == Some(h.endpoint) && |h.blocks| == c.endNumber - c.startNumber
    && store.chainId == 31337 && h.start.hash == c.startHash && h.end.hash == c.endHash
    && |h.endpoint.owners| == 3 && forall i :: 0 <= i < 3 ==> 0 < h.endpoint.owners[i] < 0x1_00000000_00000000_00000000_00000000_00000000
  }

  // Forward.

  lemma NumberHeld(store: Store, n: nat)
    requires ForwardBlock(store, n)
    ensures HoldsNumber(store, n, BlockAt(store, n))
  {
    hide GasThrough, LogsThrough, ReceiptFits, ForwardLogs, ForwardCreation;
    var txs, b := store.full(n).value.txs, BlockAt(store, n);
    forall k | 0 <= k < |txs|
      ensures b.header.transactions[k] == txs[k].hash && Records(b.entries[k], txs[k], store.receipt(txs[k].hash))
    {
      assert ForwardEntry(store, HeaderOf(store.full(n).value), txs, k);
    }
  }

  lemma ForwardEnds(store: Store, c: Config, digest: bytes -> bytes, h: History)
    requires Forward(store, c, digest) && h == ForwardHistory(store, c, digest)
    ensures 0 <= c.startNumber < c.endNumber && HoldsEnds(store, c, h)
  {
    hide BlockAt, ForwardPlace, RangeAgrees, EntryCount, LogCount;
  }

  lemma BlocksFrom(store: Store, first: nat, count: nat, i: nat)
    requires i < count
    ensures BlocksAt(store, first, count)[i] == BlockAt(store, first + i)
  {
  }

  /**
   Every history of the forward collector holds the chain: its blocks are the full blocks
   after the start number, in order and entry by entry, its ends what the store gives there.
   */
  lemma ForwardHoldsTheChain(store: Store, c: Config, digest: bytes -> bytes, h: History)
    requires Forward(store, c, digest) && h == ForwardHistory(store, c, digest)
    ensures 0 <= c.startNumber < c.endNumber && HoldsEnds(store, c, h)
    ensures forall i :: 0 <= i < |h.blocks| ==> HoldsNumber(store, c.startNumber + 1 + i, h.blocks[i])
  {
    ForwardEnds(store, c, digest, h);
    ForwardContext(store, c, digest, h);
    hide BlockAt, ForwardChain, HoldsNumber, ForwardBlock, BlocksAt;
    forall i | 0 <= i < |h.blocks| ensures HoldsNumber(store, c.startNumber + 1 + i, h.blocks[i]) {
      ForwardHeld(store, c, BlocksAt(store, c.startNumber, c.endNumber - c.startNumber + 1), i + 1);
    }
  }

  lemma ForwardHeld(store: Store, c: Config, blocks: seq<Block>, i: nat)
    requires ForwardConfig(c) && ForwardChain(store, c) && i <= c.endNumber - c.startNumber && 0 <= c.startNumber
    requires blocks == BlocksAt(store, c.startNumber, c.endNumber - c.startNumber + 1)
    ensures HoldsNumber(store, c.startNumber + i, blocks[i])
  {
    hide *;
    ForwardFacts(store, c, c.startNumber + i);
    NumberHeld(store, c.startNumber + i);
    BlocksFrom(store, c.startNumber, c.endNumber - c.startNumber + 1, i);
  }

  // Backward.

  lemma HashHeld(store: Store, header: Header)
    requires BackwardBlock(store, header) && store.byHash(header.hash) == Some(header)
    ensures HoldsHash(store, BlockBehind(store, header))
  {
    hide GasThrough, LogsThrough, ReceiptFits, BackwardLogs, BlockLogs, BlockLogsAgree;
    var txs, b := Transactions(store, header.transactions), BlockBehind(store, header);
    forall k | 0 <= k < |txs| ensures HoldsByHash(store, header.transactions[k], b.entries[k]) {
      assert BackwardEntry(store, header, txs, k);
    }
  }

  lemma ReadByRequest(store: Store, hash: Hash, k: nat)
    requires Ancestor(store, hash, k).Some?
    ensures store.byHash(RequestedHash(store, hash, k)) == Some(HeaderBack(store, hash, k))
  {
  }

  lemma BackwardEnds(store: Store, c: Config, digest: bytes -> bytes, h: History)
    requires Backward(store, c, digest) && h == BackwardHistory(store, c, digest)
    ensures 0 <= c.startNumber < c.endNumber && BackwardChain(store, c) && WalkedHistory(store, c, h) && HoldsEnds(store, c, h)
  {
    BackwardRead(store, c, digest, h);
    StepOf(store, c, 0);
    hide BackPlace, StepBack, EntryCount, LogCount, HeaderBack, BlocksBack;
  }

  /**
   Every history of the backward collector holds the chain: each block is found again by its
   hash, each entry is the transaction and receipt its hash names, and the ends are the store's.
   */
  lemma BackwardHoldsTheChain(store: Store, c: Config, digest: bytes -> bytes, h: History)
    requires Backward(store, c, digest) && h == BackwardHistory(store, c, digest)
    ensures 0 <= c.startNumber < c.endNumber && HoldsEnds(store, c, h)
    ensures forall i :: 0 <= i < |h.blocks| ==> HoldsHash(store, h.blocks[i])
  {
    BackwardEnds(store, c, digest, h);
    forall i | 0 <= i < |h.blocks| ensures HoldsHash(store, h.blocks[i]) {
      BackwardHeld(store, c, h, i);
    }
  }

  lemma BackwardHeld(store: Store, c: Config, h: History, i: nat)
    requires BackwardConfig(c) && BackwardChain(store, c) && WalkedHistory(store, c, h) && i < |h.blocks|
    ensures HoldsHash(store, h.blocks[i])
  {
    hide *;
    WalkedBlock(store, c, h, i);
    var k := |h.blocks| - 1 - i;
    StepOf(store, c, k);
    ReadByRequest(store, c.endHash, k);
    HashHeld(store, HeaderBack(store, c.endHash, k));
  }
}
