/**
 From forward to backward: over a store that also answers by hash, whatever the forward
 collector accepts the backward collector accepts too.
 */
module CollectorsCarryOver {
  import opened Bytes
  import opened Chain
  import opened Collectors
  import opened CollectorsAgree
  import opened CollectorsReadable
  import opened Wrappers

  /** The block of a number can be found again by hash: its header, its transactions, its logs. */
  ghost predicate AnswersByHash(store: Store, n: nat) {
    var b := BlockAt(store, n);
    && store.byHash(b.header.hash) == Some(b.header)
    && (forall k :: 0 <= k < |b.header.transactions| ==> FoundAgain(store, n, k))
    && store.logsOf(b.header.hash).Some?
    && BlockLogsAgree(b.header, store.logsOf(b.header.hash).value, BlockLogs(b.entries, |b.entries|))
  }

  ghost predicate FoundAgain(store: Store, n: nat, k: nat) {
    store.full(n).Some? && k < |store.full(n).value.txs|
    && store.transaction(store.full(n).value.txs[k].hash) == Some(store.full(n).value.txs[k])
  }

  ghost predicate AllAnswerByHash(store: Store, c: Config) {
    forall n: nat :: c.startNumber <= n <= c.endNumber ==> AnswersByHash(store, n)
  }

  lemma {:induction false} BackIsForward(store: Store, c: Config, k: nat)
    requires ForwardConfig(c) && Boundaries(store, c) && ForwardChain(store, c) && AllAnswerByHash(store, c)
    requires k <= c.endNumber - c.startNumber
    ensures Ancestor(store, c.endHash, k) == Some(HeaderAt(store, c.endNumber - k))
    ensures RequestedHash(store, c.endHash, k) == HeaderAt(store, c.endNumber - k).hash
  {
    hide ForwardChain, BlockAt;
    ForwardFacts(store, c, c.endNumber - k);
    assert AnswersByHash(store, c.endNumber - k);
    if k != 0 {
      BackIsForward(store, c, k - 1);
      ForwardFacts(store, c, c.endNumber - k + 1);
    }
  }

  lemma HeaderBackIs(store: Store, c: Config, k: nat)
    requires ForwardConfig(c) && Boundaries(store, c) && ForwardChain(store, c) && AllAnswerByHash(store, c)
    requires k <= c.endNumber - c.startNumber
    ensures HeaderBack(store, c.endHash, k) == HeaderAt(store, c.endNumber - k) && Ancestor(store, c.endHash, k).Some?
    ensures RequestedHash(store, c.endHash, k) == HeaderAt(store, c.endNumber - k).hash
  {
    hide ForwardChain, AllAnswerByHash, HeaderAt, RequestedHash;
    BackIsForward(store, c, k);
  }

  /** Two heights of the interval have different hashes and share no transaction. */
  lemma HeightsApart(store: Store, c: Config, m: nat, n: nat)
    requires ForwardConfig(c) && ForwardChain(store, c) && c.startNumber <= m < n <= c.endNumber
    ensures HeaderAt(store, m).hash != HeaderAt(store, n).hash
    ensures Disjoint(HeaderAt(store, m).transactions, HeaderAt(store, n).transactions)
  {
    hide BlockAt, Disjoint, ForwardChain;
    ForwardOrder(store, c);
    var blocks := BlocksAt(store, c.startNumber, c.endNumber - c.startNumber + 1);
    assert Follows(blocks, n - c.startNumber);
    assert blocks[m - c.startNumber] == BlockAt(store, m) && blocks[n - c.startNumber] == BlockAt(store, n);
  }

  lemma DisjointFlips(s: seq<Hash>, t: seq<Hash>)
    requires Disjoint(s, t)
    ensures Disjoint(t, s)
  {
  }

  lemma StepHolds(store: Store, c: Config, k: nat)
    requires ForwardConfig(c) && Boundaries(store, c) && ForwardChain(store, c) && AllAnswerByHash(store, c)
    requires k <= c.endNumber - c.startNumber
    ensures StepBack(store, c, k)
  {
    hide ForwardChain, AllAnswerByHash, HeaderAt, RequestedHash, HeaderBack, Ancestor, HeaderFits;
    HeaderBackIs(store, c, k);
    ForwardFacts(store, c, c.endNumber - k);
    NumberAt(store, c.endNumber - k);
    if k != 0 {
      HeaderBackIs(store, c, k - 1);
      ForwardFacts(store, c, c.endNumber - k + 1);
    }
    forall j | 0 <= j < k ensures RequestedHash(store, c.endHash, j) != RequestedHash(store, c.endHash, k) {
      HeaderBackIs(store, c, j);
      HeightsApart(store, c, c.endNumber - k, c.endNumber - j);
    }
  }

  lemma EntryCarriesOver(store: Store, header: Header, txs: seq<ChainTx>, k: nat)
    requires k < |txs| == |header.transactions| && ForwardEntry(store, header, txs, k)
    requires store.transaction(header.transactions[k]).Some?
    ensures BackwardEntry(store, header, txs, k)
  {
    hide LogsThrough, GasThrough;
    var r := EntriesOf(store, txs)[k].receipt;
    forall j | 0 <= j < |r.logs|
      ensures BackwardLog(r.logs[j], header)
              && LogPlaced(r.logs[j], header, r.txHash, k, LogsThrough(EntriesOf(store, txs), k) + j)
    {
      assert ForwardLog(r.logs[j], header, r.txHash, k, LogsThrough(EntriesOf(store, txs), k) + j);
    }
  }

  lemma TransactionsFound(store: Store, n: nat)
    requires ForwardBlock(store, n) && AnswersByHash(store, n)
    ensures Transactions(store, HeaderAt(store, n).transactions) == store.full(n).value.txs
    ensures forall k :: 0 <= k < |HeaderAt(store, n).transactions| ==>
      store.transaction(HeaderAt(store, n).transactions[k]).Some?
  {
    var header, txs := HeaderAt(store, n), store.full(n).value.txs;
    forall k | 0 <= k < |header.transactions|
      ensures store.transaction(header.transactions[k]).Some? && Transactions(store, header.transactions)[k] == txs[k]
    {
      assert FoundAgain(store, n, k);
    }
  }

  lemma BlockCarriesOver(store: Store, n: nat)
    requires ForwardBlock(store, n) && AnswersByHash(store, n)
    ensures BackwardBlock(store, HeaderAt(store, n)) && BlockBehind(store, HeaderAt(store, n)) == BlockAt(store, n)
  {
    hide ForwardEntry, BackwardEntry, GasThrough, BlockLogs, BlockLogsAgree;
    TransactionsFound(store, n);
    var header, txs := HeaderAt(store, n), store.full(n).value.txs;
    forall k | 0 <= k < |txs| ensures BackwardEntry(store, header, txs, k) {
      EntryCarriesOver(store, header, txs, k);
    }
  }

  lemma PlaceCarriesOver(store: Store, c: Config, k: nat)
    requires ForwardConfig(c) && Boundaries(store, c) && ForwardChain(store, c) && AllAnswerByHash(store, c)
    requires k < c.endNumber - c.startNumber
    ensures BackPlace(store, c, k)
    ensures BlockBehind(store, HeaderBack(store, c.endHash, k)) == BlockAt(store, c.endNumber - k)
  {
    hide ForwardChain, HeaderAt, HeaderBack, Ancestor, BackwardBlock, BlockBehind, BlockAt, Disjoint, AnswersByHash, ForwardBlock;
    var n, steps := c.endNumber - k, c.endNumber - c.startNumber;
    HeaderBackIs(store, c, k);
    ForwardFacts(store, c, n);
    assert AnswersByHash(store, n);
    BlockCarriesOver(store, n);
    HeaderBackIs(store, c, steps);
    HeightsApart(store, c, c.startNumber, n);
    forall j | 0 <= j < k ensures Apart(store, c, j, k) {
      HeaderBackIs(store, c, j);
      HeightsApart(store, c, n, c.endNumber - j);
      DisjointFlips(HeaderAt(store, n).transactions, HeaderAt(store, c.endNumber - j).transactions);
    }
  }

  lemma BlocksCarryOver(store: Store, c: Config)
    requires ForwardConfig(c) && Boundaries(store, c) && ForwardChain(store, c) && AllAnswerByHash(store, c)
    ensures var steps := c.endNumber - c.startNumber;
      BlocksBack(store, c.endHash, steps) == Reversed(BlocksAt(store, c.startNumber, steps + 1)[1..])
  {
    hide ForwardChain, AllAnswerByHash, HeaderBack, BlockBehind, BlockAt, Boundaries;
    var steps := c.endNumber - c.startNumber;
    var back, forth := BlocksBack(store, c.endHash, steps), BlocksAt(store, c.startNumber, steps + 1);
    forall i | 0 <= i < steps ensures back[i] == Reversed(forth[1..])[i] {
      PlaceCarriesOver(store, c, i);
    }
  }

  /** The two walks have the same blocks, so the same counts. */
  lemma CountsCarryOver(store: Store, c: Config, forth: seq<Block>, steps: nat)
    requires ForwardConfig(c) && ForwardChain(store, c) && steps == c.endNumber - c.startNumber
    requires forth == BlocksAt(store, c.startNumber, steps + 1)
    ensures EntryCount(Reversed(forth[1..]), steps) <= MAX_TRANSACTIONS
    ensures LogCount(Reversed(forth[1..]), steps) <= MAX_LOGS
  {
    hide ForwardChain, BlocksAt, EntryCount, LogCount, Follows, Reversed;
    CountsReversed(forth[1..], steps);
    CountsNothing(forth[1..]);
    CountsAfterFirst(forth, steps);
    ForwardOrder(store, c);
  }

  /** What the forward collector accepts, the backward collector accepts too. */
  lemma CarriesOver(store: Store, c: Config, digest: bytes -> bytes)
    requires Forward(store, c, digest) && AllAnswerByHash(store, c)
    ensures Backward(store, c, digest)
  {
    hide ForwardChain, AllAnswerByHash, HeaderAt, HeaderBack, BackPlace, StepBack, EntryCount, LogCount, Boundaries,
         BlocksAt, BlocksBack, Reversed;
    var steps := c.endNumber - c.startNumber;
    forall k | 0 <= k <= steps ensures StepBack(store, c, k) {
      StepHolds(store, c, k);
    }
    forall k | 0 <= k < steps ensures BackPlace(store, c, k) {
      PlaceCarriesOver(store, c, k);
    }
    BlocksCarryOver(store, c);
    CountsCarryOver(store, c, BlocksAt(store, c.startNumber, steps + 1), steps);
    HeaderBackIs(store, c, 0);
    HeaderBackIs(store, c, steps);
    ForwardFacts(store, c, c.startNumber);
    BoundaryHash(store, c);
  }

  lemma BoundaryHash(store: Store, c: Config)
    requires 0 <= c.startNumber <= c.endNumber && Boundaries(store, c)
    ensures store.byNumber(c.startNumber).Some? && store.byNumber(c.startNumber).value.hash == c.startHash
  {
  }

  /** And it returns the same history. */
  lemma SameHistory(store: Store, c: Config, digest: bytes -> bytes)
    requires Forward(store, c, digest) && AllAnswerByHash(store, c) && Backward(store, c, digest)
    ensures ForwardHistory(store, c, digest) == BackwardHistory(store, c, digest)
  {
    hide ForwardChain, BackwardChain, AllAnswerByHash, HeaderBack, BlocksAt, BlocksBack, Boundaries, EndReads, HeaderAt, Reversed,
         ForwardHistory, BackwardHistory;
    var steps := c.endNumber - c.startNumber;
    BlocksCarryOver(store, c);
    HeaderBackIs(store, c, steps);
    TwiceReversed(BlocksAt(store, c.startNumber, steps + 1)[1..]);
    HistoriesAgree(store, c, digest, steps);
  }

  lemma TwiceReversed(blocks: seq<Block>)
    ensures Reversed(Reversed(blocks)) == blocks
  {
  }

  /** So what the forward collector emits is the one parent path as well. */
  lemma ForwardEmitsTheParentPath(store: Store, c: Config, digest: bytes -> bytes, path: seq<Header>)
    requires Forward(store, c, digest) && AllAnswerByHash(store, c)
    ensures ParentPath(store, c.endHash, c.startHash, path)
       <==> path == NewestFirst(ForwardHistory(store, c, digest).blocks)
  {
    hide *;
    CarriesOver(store, c, digest);
    SameHistory(store, c, digest);
    EmitsTheParentPath(store, c, digest, path);
  }
}
