/** What the shape the reader demands of a history means, block by block and entry by entry. */
module HistoryShape {
  import opened Bytes
  import opened Chain
  import opened Wrappers

  /** The block continues the one before, and its gas is what its receipts count up to. */
  ghost predicate Continues(previous: Header, b: Block) {
    && b.header.parent == previous.hash && b.header.number == previous.number + 1 && previous.timestamp <= b.header.timestamp
    && |b.entries| == |b.header.transactions|
    && b.header.gasUsed == if b.entries == [] then 0 else b.entries[|b.entries| - 1].receipt.cumulative
  }

  /** The receipt is that of its transaction in its place, its gas counts on, and a failed one has no logs and created nothing. */
  ghost predicate Fits(b: Block, k: nat)
    requires k < |b.entries| == |b.header.transactions|
  {
    var body, r := b.entries[k].body, b.entries[k].receipt;
    && r.txHash == b.header.transactions[k] && r.blockHash == b.header.hash && r.blockNumber == b.header.number && r.txIndex == k
    && r.sender == body.sender != 0 && r.to == body.to != Some(0) && body.value == 0 && r.gasUsed <= body.gas <= 4000000
    && r.cumulative == r.gasUsed + (if k == 0 then 0 else b.entries[k - 1].receipt.cumulative)
    && (r.status == 0 || r.status == 1) && (r.status == 0 ==> r.logs == [] && r.creation.None?)
    && (r.status == 1 ==> (r.creation.Some? <==> body.to.None?))
  }

  /** The log belongs to its receipt, and is numbered on from those before it in the block. */
  ghost predicate Belongs(b: Block, k: nat, j: nat)
    requires k < |b.entries| && j < |b.entries[k].receipt.logs|
  {
    var r := b.entries[k].receipt;
    && r.logs[j].blockHash == b.header.hash && r.logs[j].txHash == r.txHash && r.logs[j].txIndex == k && !r.logs[j].removed
    && r.logs[j].emitter != 0 && 1 <= |r.logs[j].topics| <= 4
    && r.logs[j].logIndex == LogsThrough(b.entries, k) + j
  }

  lemma GasCountsOn(b: Block, k: nat)
    requires k <= |b.entries| == |b.header.transactions|
    requires forall i :: 0 <= i < |b.entries| ==> ReadableEntry(b.header, b.entries, i)
    ensures GasThrough(b.entries, k) == if k == 0 then 0 else b.entries[k - 1].receipt.cumulative
  {
    if k != 0 {
      assert ReadableEntry(b.header, b.entries, k - 1);
    }
  }

  lemma EntryShape(b: Block, k: nat)
    requires k < |b.entries| == |b.header.transactions|
    requires forall i :: 0 <= i < |b.entries| ==> ReadableEntry(b.header, b.entries, i)
    ensures Fits(b, k) && forall j :: 0 <= j < |b.entries[k].receipt.logs| ==> Belongs(b, k, j)
  {
    hide LogsThrough;
    GasCountsOn(b, k);
    assert ReadableEntry(b.header, b.entries, k);
  }

  lemma BlockShape(previous: Header, b: Block)
    requires ReadableBlock(previous, b)
    ensures ShapedBlock(previous, b)
  {
    hide LogsThrough, ReadableEntry, Fits, Belongs;
    GasCountsOn(b, |b.entries|);
    forall k | 0 <= k < |b.entries| ensures EntryHolds(b, k) {
      EntryShape(b, k);
    }
  }

  ghost predicate EntryHolds(b: Block, k: nat)
    requires k < |b.entries| == |b.header.transactions|
  {
    Fits(b, k) && forall j :: 0 <= j < |b.entries[k].receipt.logs| ==> Belongs(b, k, j)
  }

  ghost predicate ShapedBlock(previous: Header, b: Block) {
    Continues(previous, b) && forall k :: 0 <= k < |b.entries| ==> EntryHolds(b, k)
  }

  /** No block and no transaction comes twice. */
  ghost predicate NothingTwice(h: History) {
    && (forall i, j :: 0 <= i < j < |h.blocks| ==> h.blocks[i].header.hash != h.blocks[j].header.hash)
    && (forall i :: 0 <= i < |h.blocks| ==> h.blocks[i].header.hash != h.start.hash)
    && (forall i, k, m :: 0 <= i < |h.blocks| && 0 <= k < m < |h.blocks[i].header.transactions| ==>
         h.blocks[i].header.transactions[k] != h.blocks[i].header.transactions[m])
    && (forall i, j, k, m | 0 <= i < j < |h.blocks| && 0 <= k < |h.blocks[i].header.transactions|
                            && 0 <= m < |h.blocks[j].header.transactions| ::
         h.blocks[i].header.transactions[k] != h.blocks[j].header.transactions[m])
  }

  lemma OnceMeans(h: History)
    requires ReadableOnce(h) && forall i :: 0 <= i < |h.blocks| ==> ReadableHeader(h.blocks[i].header)
    ensures NothingTwice(h)
  {
    forall i | 0 <= i < |h.blocks| ensures h.blocks[i].header.hash != h.start.hash {
      assert Before(h, 0).hash != Before(h, i + 1).hash;
    }
    forall i, j | 0 <= i < j < |h.blocks| ensures h.blocks[i].header.hash != h.blocks[j].header.hash {
      assert Before(h, i + 1).hash != Before(h, j + 1).hash;
    }
  }

  /** A readable history runs from the start to the end of its manifest, block on block, and meets nothing twice. */
  lemma ReadableSays(h: History, c: Config, digest: bytes -> bytes)
    requires Readable(h, c, digest)
    ensures h.start.hash == c.startHash && h.end.hash == c.endHash && h.blocks != [] && h.end == h.blocks[|h.blocks| - 1].header
    ensures digest(h.registryRuntime) == c.registryPin && digest(h.probeRuntime) == c.probePin
    ensures forall i :: 0 <= i < |h.blocks| ==> ShapedBlock(if i == 0 then h.start else h.blocks[i - 1].header, h.blocks[i])
    ensures NothingTwice(h)
  {
    forall i | 0 <= i < |h.blocks|
      ensures ShapedBlock(Before(h, i), h.blocks[i]) && ReadableHeader(h.blocks[i].header)
    {
      BlockShape(Before(h, i), h.blocks[i]);
    }
    hide ReadableBlock, ShapedBlock, ReadableOnce, ReadableHeader, NothingTwice;
    OnceMeans(h);
  }
}
