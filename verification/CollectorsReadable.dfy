/**
 From collector to reader: the forward collector's histories always have the shape the
 paid-action reader demands, the backward collector's exactly when they meet the few
 demands that the backward collector does not make.
 */
module CollectorsReadable {
  import opened Bytes
  import opened Chain
  import opened Collectors
  import opened CollectorsAgree
  import opened Wrappers

  // Forward.

  lemma ForwardEntryReadable(store: Store, header: Header, txs: seq<ChainTx>, k: nat)
    requires k < |txs| && ForwardEntry(store, header, txs, k)
    ensures ReadableEntry(header, EntriesOf(store, txs), k)
  {
    hide LogsThrough;
  }

  lemma ForwardBlockReadable(store: Store, n: nat, previous: Header)
    requires ForwardBlock(store, n) && Linked(previous, HeaderAt(store, n)) && previous.number + 1 == n
    ensures ReadableBlock(previous, BlockAt(store, n))
  {
    hide ForwardEntry, ReadableEntry, GasThrough;
    var header, txs := HeaderOf(store.full(n).value), store.full(n).value.txs;
    forall k | 0 <= k < |txs| ensures ReadableEntry(header, EntriesOf(store, txs), k) {
      ForwardEntryReadable(store, header, txs, k);
    }
  }

  lemma NumberAt(store: Store, n: nat)
    requires ForwardBlock(store, n)
    ensures HeaderAt(store, n).number == n && HeaderFits(HeaderAt(store, n)) && |BlockAt(store, n).entries| == |HeaderAt(store, n).transactions|
  {
  }

  lemma {:induction false} CountsAfterFirst(blocks: seq<Block>, n: nat)
    requires n < |blocks|
    ensures EntryCount(blocks[1..], n) <= EntryCount(blocks, n + 1) && LogCount(blocks[1..], n) <= LogCount(blocks, n + 1)
  {
    if n != 0 {
      CountsAfterFirst(blocks, n - 1);
    }
  }

  /** The chain order of the forward blocks, in the reader's terms. */
  lemma ForwardOnce(blocks: seq<Block>, h: History)
    requires blocks != [] && h.start == blocks[0].header && h.blocks == blocks[1..]
    requires forall n :: 0 <= n < |blocks| ==> Follows(blocks, n)
    ensures ReadableOnce(h)
  {
    forall i, j | 0 <= i < j <= |h.blocks| ensures Before(h, i).hash != Before(h, j).hash {
      assert Follows(blocks, j);
    }
    forall i, j | 0 <= i < j < |h.blocks|
      ensures Disjoint(h.blocks[i].header.transactions, h.blocks[j].header.transactions)
    {
      assert Follows(blocks, j + 1);
    }
  }

  lemma ForwardBlocks(store: Store, c: Config, h: History)
    requires ForwardConfig(c) && ForwardChain(store, c)
    requires var blocks := BlocksAt(store, c.startNumber, c.endNumber - c.startNumber + 1);
      h.start == blocks[0].header && h.blocks == blocks[1..]
    ensures forall i :: 0 <= i < |h.blocks| ==> ReadableBlock(Before(h, i), h.blocks[i])
    ensures h.start.number == c.startNumber && ReadableHeader(h.start)
  {
    hide ForwardChain, BlockAt, ReadableBlock, ForwardBlock;
    ForwardFacts(store, c, c.startNumber);
    NumberAt(store, c.startNumber);
    forall i | 0 <= i < |h.blocks| ensures ReadableBlock(Before(h, i), h.blocks[i]) {
      var n := c.startNumber + i + 1;
      ForwardFacts(store, c, n - 1);
      ForwardFacts(store, c, n);
      NumberAt(store, n - 1);
      ForwardBlockReadable(store, n, HeaderAt(store, n - 1));
    }
  }

  lemma ForwardOrder(store: Store, c: Config)
    requires ForwardConfig(c) && ForwardChain(store, c)
    ensures var blocks := BlocksAt(store, c.startNumber, c.endNumber - c.startNumber + 1);
      && (forall n :: 0 <= n < |blocks| ==> Follows(blocks, n))
      && EntryCount(blocks, |blocks|) <= MAX_TRANSACTIONS && LogCount(blocks, |blocks|) <= MAX_LOGS
  {
    hide ForwardBlock, EntryCount, LogCount, Follows, BlocksAt;
    var blocks := BlocksAt(store, c.startNumber, c.endNumber - c.startNumber + 1);
    forall n | 0 <= n < |blocks| ensures Follows(blocks, n) {
      assert ForwardPlace(store, c, blocks, n);
    }
  }

  lemma ForwardContext(store: Store, c: Config, digest: bytes -> bytes, h: History)
    requires Forward(store, c, digest) && h == ForwardHistory(store, c, digest)
    ensures ReadableContext(h, c, digest)
    ensures h.start == HeaderAt(store, c.startNumber) && h.end == HeaderAt(store, c.endNumber)
    ensures h.blocks == BlocksAt(store, c.startNumber, c.endNumber - c.startNumber + 1)[1..]
  {
    hide ForwardChain, BlockAt;
    ForwardFacts(store, c, c.startNumber);
  }

  /** Every history the forward collector returns has the shape the reader demands. */
  lemma ForwardIsReadable(store: Store, c: Config, digest: bytes -> bytes, h: History)
    requires Forward(store, c, digest) && h == ForwardHistory(store, c, digest)
    ensures Readable(h, c, digest)
  {
    ForwardContext(store, c, digest, h);
    ForwardShape(store, c, h);
    hide Forward, ForwardHistory, ReadableContext, ReadableBounds, ReadableChain;
  }

  lemma ForwardShape(store: Store, c: Config, h: History)
    requires ForwardConfig(c) && ForwardChain(store, c)
    requires h.start == HeaderAt(store, c.startNumber) && h.end == HeaderAt(store, c.endNumber)
    requires h.blocks == BlocksAt(store, c.startNumber, c.endNumber - c.startNumber + 1)[1..]
    ensures ReadableBounds(h) && ReadableChain(h)
  {
    hide ForwardChain, ReadableBlock, ReadableHeader, EntryCount, LogCount, BlockAt, ReadableOnce, Follows, ForwardBlock;
    var blocks := BlocksAt(store, c.startNumber, c.endNumber - c.startNumber + 1);
    ForwardBlocks(store, c, h);
    ForwardOrder(store, c);
    ForwardOnce(blocks, h);
    CountsAfterFirst(blocks, |blocks| - 1);
    ForwardFacts(store, c, c.endNumber);
    NumberAt(store, c.endNumber);
  }

  // Backward.

  /** What the reader demands of an entry and the backward collector does not. */
  predicate StricterEntry(e: Entry) {
    && e.body.sender != 0 && e.body.to != Some(0)
    && (e.receipt.creation.Some? ==> e.receipt.creation.value != 0 && e.receipt.status == 1)
    && forall j :: 0 <= j < |e.receipt.logs| ==> e.receipt.logs[j].emitter != 0 && e.receipt.logs[j].topics != []
  }

  predicate Stricter(h: History) {
    && |h.registryRuntime| <= 24576 && |h.probeRuntime| <= 24576
    && forall i, k | 0 <= i < |h.blocks| && 0 <= k < |h.blocks[i].entries| :: StricterEntry(h.blocks[i].entries[k])
  }

  lemma BackwardEntryReadable(store: Store, header: Header, txs: seq<ChainTx>, k: nat)
    requires k < |txs| == |header.transactions| && BackwardEntry(store, header, txs, k)
    ensures var entries := EntriesOf(store, txs); ReadableEntry(header, entries, k) <==> StricterEntry(entries[k])
  {
    hide LogsThrough;
    var entries := EntriesOf(store, txs);
    var r := entries[k].receipt;
    if ReadableEntry(header, entries, k) {
      forall j | 0 <= j < |r.logs| ensures r.logs[j].emitter != 0 && r.logs[j].topics != [] {
        assert ReadableLog(r.logs[j], header, r.txHash, k, LogsThrough(entries, k) + j);
      }
    }
  }

  lemma BackwardBlockReadable(store: Store, header: Header, previous: Header)
    requires BackwardBlock(store, header) && HeaderFits(header)
    requires header.parent == previous.hash && previous.number + 1 == header.number && previous.timestamp <= header.timestamp
    ensures var b := BlockBehind(store, header);
      ReadableBlock(previous, b) <==> forall k :: 0 <= k < |b.entries| ==> StricterEntry(b.entries[k])
  {
    hide BackwardEntry, ReadableEntry, GasThrough, StricterEntry, BlockLogsAgree;
    var txs := Transactions(store, header.transactions);
    forall k | 0 <= k < |txs|
      ensures ReadableEntry(header, EntriesOf(store, txs), k) <==> StricterEntry(EntriesOf(store, txs)[k])
    {
      BackwardEntryReadable(store, header, txs, k);
    }
  }

  /** Two headers next to each other on the walk. */
  lemma StepLinks(store: Store, c: Config, k: nat)
    requires BackwardConfig(c) && BackwardChain(store, c) && k < c.endNumber - c.startNumber
    ensures var header, previous := HeaderBack(store, c.endHash, k), HeaderBack(store, c.endHash, k + 1);
      && header.parent == previous.hash && previous.number + 1 == header.number == c.endNumber - k
      && previous.timestamp <= header.timestamp && HeaderFits(header) && HeaderFits(previous)
  {
    StepOf(store, c, k);
    StepOf(store, c, k + 1);
    hide BackwardChain, HeaderBack, Ancestor;
  }

  ghost predicate WalkedHistory(store: Store, c: Config, h: History)
    requires BackwardConfig(c)
  {
    var steps := c.endNumber - c.startNumber;
    && h.start == HeaderBack(store, c.endHash, steps) && h.end == HeaderBack(store, c.endHash, 0)
    && h.blocks == Reversed(BlocksBack(store, c.endHash, steps))
  }

  lemma WalkedBlock(store: Store, c: Config, h: History, i: nat)
    requires BackwardConfig(c) && WalkedHistory(store, c, h) && i <= |h.blocks|
    ensures |h.blocks| == c.endNumber - c.startNumber
    ensures Before(h, i) == HeaderBack(store, c.endHash, |h.blocks| - i)
    ensures i < |h.blocks| ==> h.blocks[i] == BlockBehind(store, HeaderBack(store, c.endHash, |h.blocks| - 1 - i))
  {
    hide HeaderBack, EntriesOf, Transactions;
  }

  lemma BackwardChainReadable(store: Store, c: Config, h: History, i: nat)
    requires BackwardConfig(c) && BackwardChain(store, c) && WalkedHistory(store, c, h) && i < |h.blocks|
    ensures ReadableBlock(Before(h, i), h.blocks[i])
       <==> forall k :: 0 <= k < |h.blocks[i].entries| ==> StricterEntry(h.blocks[i].entries[k])
  {
    hide *;
    WalkedBlock(store, c, h, i);
    StepOf(store, c, |h.blocks| - 1 - i);
    StepLinks(store, c, |h.blocks| - 1 - i);
    BackwardBlockReadable(store, HeaderBack(store, c.endHash, |h.blocks| - 1 - i), Before(h, i));
  }

  lemma BackwardOnce(store: Store, c: Config, h: History)
    requires BackwardConfig(c) && BackwardChain(store, c) && WalkedHistory(store, c, h)
    ensures ReadableOnce(h)
  {
    hide BackwardChain, WalkedHistory, HeaderBack, Before, BlockBehind, StepBack, RequestedHash, BackwardBlock;
    var steps := c.endNumber - c.startNumber;
    WalkedBlock(store, c, h, 0);
    forall i, j | 0 <= i < j <= |h.blocks| ensures Before(h, i).hash != Before(h, j).hash {
      WalkedBlock(store, c, h, i);
      WalkedBlock(store, c, h, j);
      StepOf(store, c, steps - i);
      StepOf(store, c, steps - j);
    }
    forall i, j | 0 <= i < j < |h.blocks|
      ensures Disjoint(h.blocks[i].header.transactions, h.blocks[j].header.transactions)
    {
      WalkedBlock(store, c, h, i);
      WalkedBlock(store, c, h, j);
      WalkedApart(store, c, steps - 1 - j, steps - 1 - i);
      BehindHeader(store, HeaderBack(store, c.endHash, steps - 1 - i));
      BehindHeader(store, HeaderBack(store, c.endHash, steps - 1 - j));
    }
  }

  lemma WalkedApart(store: Store, c: Config, j: nat, k: nat)
    requires BackwardConfig(c) && BackwardChain(store, c) && j < k < c.endNumber - c.startNumber
    ensures Disjoint(HeaderBack(store, c.endHash, k).transactions, HeaderBack(store, c.endHash, j).transactions)
  {
    StepOf(store, c, k);
    hide BackwardChain, HeaderBack, StepBack, BackwardBlock;
    assert Apart(store, c, j, k);
  }

  lemma {:induction false} CountsReversed(blocks: seq<Block>, i: nat)
    requires i <= |blocks|
    ensures EntryCount(Reversed(blocks), i) == EntryCount(blocks, |blocks|) - EntryCount(blocks, |blocks| - i)
    ensures LogCount(Reversed(blocks), i) == LogCount(blocks, |blocks|) - LogCount(blocks, |blocks| - i)
  {
    if i != 0 {
      CountsReversed(blocks, i - 1);
    }
  }

  lemma FitsIsReadable(h: Header)
    requires HeaderFits(h)
    ensures ReadableHeader(h)
  {
  }

  lemma BackwardBounds(store: Store, c: Config, h: History)
    requires BackwardConfig(c) && BackwardChain(store, c) && WalkedHistory(store, c, h)
    ensures ReadableBounds(h)
  {
    hide BackwardChain, HeaderBack, BlockBehind, EntryCount, LogCount, ReadableHeader, HeaderFits, BlocksBack, Reversed;
    var steps := c.endNumber - c.startNumber;
    BackwardCounts(store, c, BlocksBack(store, c.endHash, steps));
    CountsReversed(BlocksBack(store, c.endHash, steps), steps);
    CountsNothing(BlocksBack(store, c.endHash, steps));
    StepOf(store, c, 0);
    StepOf(store, c, steps);
    FitsIsReadable(h.start);
    WalkedBlock(store, c, h, steps - 1);
    BehindHeader(store, HeaderBack(store, c.endHash, 0));
  }

  lemma CountsNothing(blocks: seq<Block>)
    ensures EntryCount(blocks, 0) == LogCount(blocks, 0) == 0
  {
  }

  lemma BackwardCounts(store: Store, c: Config, blocks: seq<Block>)
    requires BackwardConfig(c) && BackwardChain(store, c)
    requires blocks == BlocksBack(store, c.endHash, c.endNumber - c.startNumber)
    ensures EntryCount(blocks, |blocks|) <= MAX_TRANSACTIONS && LogCount(blocks, |blocks|) <= MAX_LOGS
  {
    hide EntryCount, LogCount, BackPlace, HeaderBack, BlocksBack, StepBack;
  }

  lemma BackwardContext(store: Store, c: Config, digest: bytes -> bytes, h: History)
    requires Backward(store, c, digest) && h == BackwardHistory(store, c, digest)
    ensures WalkedHistory(store, c, h)
    ensures ReadableContext(h, c, digest) <==> |h.registryRuntime| <= 24576 && |h.probeRuntime| <= 24576
  {
    hide BackPlace, StepBack, EntryCount, LogCount;
    BehindHeader(store, HeaderBack(store, c.endHash, 0));
    StepOf(store, c, 0);
  }

  lemma HistoryReadable(store: Store, c: Config, digest: bytes -> bytes, h: History)
    requires Backward(store, c, digest) && h == BackwardHistory(store, c, digest)
    ensures Readable(h, c, digest) <==> Stricter(h)
  {
    BackwardContext(store, c, digest, h);
    hide BackwardChain, BackwardHistory, EndReads, WalkedHistory, ReadableContext, ReadableBounds, ReadableOnce,
         ReadableBlock, StricterEntry;
    BackwardBounds(store, c, h);
    BackwardOnce(store, c, h);
    forall i | 0 <= i < |h.blocks|
      ensures ReadableBlock(Before(h, i), h.blocks[i])
         <==> forall k :: 0 <= k < |h.blocks[i].entries| ==> StricterEntry(h.blocks[i].entries[k])
    {
      BackwardChainReadable(store, c, h, i);
    }
  }

  // The same demands, on what the store answers.

  predicate ShortCode(code: Option<bytes>) {
    code.Some? ==> |code.value| <= 24576
  }

  /** One transaction and its receipt, both read by hash. */
  predicate StricterRead(store: Store, hash: Hash) {
    var tx, r := TransactionOf(store, hash), ReceiptOf(store, hash);
    && tx.sender != 0 && tx.to != Some(0)
    && (r.creation.Some? ==> r.creation.value != 0 && r.status == 1)
    && forall j :: 0 <= j < |r.logs| ==> r.logs[j].emitter != 0 && r.logs[j].topics != []
  }

  predicate StricterHeader(store: Store, header: Header) {
    forall k :: 0 <= k < |header.transactions| ==> StricterRead(store, header.transactions[k])
  }

  /** Short runtimes, and on the walk from the end hash no zero address, failed creation with an address, or log without topics. */
  predicate StricterStore(store: Store, c: Config)
    requires BackwardConfig(c)
  {
    && ShortCode(store.code(c.registry, c.endNumber)) && ShortCode(store.code(c.probe, c.endNumber))
    && forall k :: 0 <= k < c.endNumber - c.startNumber ==> StricterHeader(store, HeaderBack(store, c.endHash, k))
  }

  lemma ReadByHash(store: Store, header: Header, k: nat)
    requires BackwardBlock(store, header) && k < |header.transactions|
    ensures StricterRead(store, header.transactions[k]) <==> StricterEntry(BlockBehind(store, header).entries[k])
  {
    hide GasThrough, LogsThrough, ReceiptFits, BackwardLogs, BlockLogsAgree, BlockLogs;
    var txs := Transactions(store, header.transactions);
    assert BackwardEntry(store, header, txs, k);
  }

  lemma BlockByHash(store: Store, header: Header)
    requires BackwardBlock(store, header)
    ensures var entries := BlockBehind(store, header).entries;
      StricterHeader(store, header) <==> forall k :: 0 <= k < |entries| ==> StricterEntry(entries[k])
  {
    hide BackwardBlock, StricterRead, StricterEntry, EntriesOf;
    forall k | 0 <= k < |header.transactions|
      ensures StricterRead(store, header.transactions[k]) <==> StricterEntry(BlockBehind(store, header).entries[k])
    {
      ReadByHash(store, header, k);
    }
  }

  predicate StricterBlock(b: Block) {
    forall k :: 0 <= k < |b.entries| ==> StricterEntry(b.entries[k])
  }

  lemma WalkedStricter(store: Store, c: Config, h: History, i: nat)
    requires BackwardConfig(c) && BackwardChain(store, c) && WalkedHistory(store, c, h) && i < |h.blocks|
    ensures |h.blocks| == c.endNumber - c.startNumber
    ensures StricterBlock(h.blocks[i]) <==> StricterHeader(store, HeaderBack(store, c.endHash, |h.blocks| - 1 - i))
  {
    WalkedBlock(store, c, h, i);
    StepOf(store, c, |h.blocks| - 1 - i);
    BlockByHash(store, HeaderBack(store, c.endHash, |h.blocks| - 1 - i));
    hide BackwardChain, WalkedHistory, HeaderBack, BlockBehind, StricterHeader, StricterEntry, BackwardBlock, StepBack;
  }

  lemma StricterAgrees(store: Store, c: Config, h: History)
    requires BackwardConfig(c) && BackwardChain(store, c) && WalkedHistory(store, c, h)
    requires store.code(c.registry, c.endNumber) == Some(h.registryRuntime) && store.code(c.probe, c.endNumber) == Some(h.probeRuntime)
    ensures Stricter(h) <==> StricterStore(store, c)
  {
    hide BackwardChain, HeaderBack, WalkedHistory, StricterHeader, StricterEntry;
    WalkedBlock(store, c, h, 0);
    var steps := c.endNumber - c.startNumber;
    forall i | 0 <= i < steps
      ensures StricterBlock(h.blocks[i]) <==> StricterHeader(store, HeaderBack(store, c.endHash, steps - 1 - i))
    {
      WalkedStricter(store, c, h, i);
    }
    if forall i :: 0 <= i < steps ==> StricterBlock(h.blocks[i]) {
      forall k | 0 <= k < steps ensures StricterHeader(store, HeaderBack(store, c.endHash, k)) {
        assert StricterBlock(h.blocks[steps - 1 - k]);
      }
    }
  }

  lemma BackwardRead(store: Store, c: Config, digest: bytes -> bytes, h: History)
    requires Backward(store, c, digest) && h == BackwardHistory(store, c, digest)
    ensures BackwardChain(store, c) && WalkedHistory(store, c, h)
    ensures store.code(c.registry, c.endNumber) == Some(h.registryRuntime) && store.code(c.probe, c.endNumber) == Some(h.probeRuntime)
  {
    hide BackwardChain, BlocksBack, HeaderBack;
    BackwardContext(store, c, digest, h);
  }

  /**
   A history the backward collector returns has the shape the reader demands exactly when
   the store meets the demands that collector leaves out: runtimes of at most 24576 bytes, and
   along the walk no zero addresses, no address from a failed creation, and no log without topics.
   */
  lemma BackwardIsReadable(store: Store, c: Config, digest: bytes -> bytes, h: History)
    requires Backward(store, c, digest) && h == BackwardHistory(store, c, digest)
    ensures Readable(h, c, digest) <==> StricterStore(store, c)
  {
    HistoryReadable(store, c, digest, h);
    BackwardRead(store, c, digest, h);
    StricterAgrees(store, c, h);
    hide Backward, BackwardChain, Readable, Stricter, StricterStore;
  }

  // A store on which the two part ways.

  const FIRST: Header := Header(1, 0, 1, 0, [], 0, 0, [])
  const SECOND: Header := Header(2, 1, 2, 0, [], 0, 0, [])

  /** Two empty blocks, and one runtime for both contracts. */
  function TwoBlocks(runtime: bytes): Store {
    var header := (n: nat) => if n == 1 then Some(FIRST) else if n == 2 then Some(SECOND) else None;
    Store(CHAIN_ID, (n: nat) => None, header, header, (hash: Hash) => None, (hash: Hash) => None,
          (first: nat, last: nat) => None, (hash: Hash) => Some([]), (address: Address, n: nat) => Some(runtime),
          (n: nat) => Some(Endpoint([1, 1, 1], [0, 0, 0], [0, 0, 0], [0, 0, 0], [0, 0, 0], 0, 0, 0, 0)))
  }

  function TwoBlocksConfig(runtime: bytes, digest: bytes -> bytes): Config {
    Config(CHAIN_ID, 1, 2, TOKEN, 1, 2, 1, 2, digest(runtime), digest(runtime))
  }

  lemma TwoBlocksWalk(runtime: bytes, digest: bytes -> bytes)
    ensures var store, c := TwoBlocks(runtime), TwoBlocksConfig(runtime, digest);
      BackwardConfig(c) && BackwardChain(store, c)
  {
    var store, c := TwoBlocks(runtime), TwoBlocksConfig(runtime, digest);
    assert Ancestor(store, c.endHash, 0) == Some(SECOND);
    assert Ancestor(store, c.endHash, 1) == Some(FIRST);
    assert StepBack(store, c, 0) && StepBack(store, c, 1);
    assert BackPlace(store, c, 0);
    var blocks := BlocksBack(store, c.endHash, 1);
    assert blocks[0] == Block(SECOND, []);
    assert EntryCount(blocks, 0) == 0 && EntryCount(blocks, 1) == 0;
    assert LogCount(blocks, 0) == 0 && LogCount(blocks, 1) == 0;
  }

  /** With any runtime of more than 24576 bytes the backward collector returns a history the reader refuses. */
  lemma LongRuntimeIsRefused(runtime: bytes, digest: bytes -> bytes)
    requires 24576 < |runtime| <= 65536
    ensures var store, c := TwoBlocks(runtime), TwoBlocksConfig(runtime, digest);
      Backward(store, c, digest) && !Readable(BackwardHistory(store, c, digest), c, digest)
  {
    TwoBlocksWalk(runtime, digest);
    var store, c := TwoBlocks(runtime), TwoBlocksConfig(runtime, digest);
    hide BackwardChain;
    assert Backward(store, c, digest);
    BackwardIsReadable(store, c, digest, BackwardHistory(store, c, digest));
  }
}
