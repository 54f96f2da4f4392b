/**
 The two collectors agree: over a store in which a hash names one content, histories they
 both accept are identical, and their headers are the one parent path from end to start.
 */
module CollectorsAgree {
  import opened Bytes
  import opened Chain
  import opened Collectors
  import opened Wrappers

  /** Reading by hash what was read by number gives the same header, the same transaction. */
  ghost predicate OneContentPerHash(store: Store) {
    && (forall n :: store.full(n).Some? ==> SameHeader(store, HeaderOf(store.full(n).value)))
    && (forall n, k :: store.full(n).Some? && 0 <= k < |store.full(n).value.txs|
         ==> SameTransaction(store, store.full(n).value.txs[k]))
  }

  predicate SameHeader(store: Store, h: Header) {
    store.byHash(h.hash).Some? ==> store.byHash(h.hash).value == h
  }

  predicate SameTransaction(store: Store, tx: ChainTx) {
    store.transaction(tx.hash).Some? ==> store.transaction(tx.hash).value == tx
  }

  function HeaderAt(store: Store, n: nat): Header {
    BlockAt(store, n).header
  }

  /** The facts of an accepted forward walk, block by block. */
  lemma ForwardFacts(store: Store, c: Config, n: nat)
    requires ForwardConfig(c) && ForwardChain(store, c) && c.startNumber <= n <= c.endNumber
    ensures ForwardBlock(store, n) && store.full(n).Some?
    ensures n != c.startNumber ==> HeaderAt(store, n).parent == HeaderAt(store, n - 1).hash
    ensures n != c.startNumber ==> Linked(HeaderAt(store, n - 1), HeaderAt(store, n))
    ensures store.byNumber(c.endNumber) == Some(HeaderAt(store, c.endNumber))
    ensures store.byNumber(c.startNumber) == Some(HeaderAt(store, c.startNumber))
  {
    hide ForwardBlock, RangeAgrees, EntryCount, LogCount, BlockAt;
    var blocks := BlocksAt(store, c.startNumber, c.endNumber - c.startNumber + 1);
    assert ForwardPlace(store, c, blocks, n - c.startNumber);
    FullRead(store, n);
  }

  lemma FullRead(store: Store, n: nat)
    requires ForwardBlock(store, n)
    ensures store.full(n).Some?
  {
  }

  lemma Bounds(c: Config)
    requires ForwardConfig(c) || BackwardConfig(c)
    ensures 0 <= c.startNumber < c.endNumber
  {
  }

  lemma StepOf(store: Store, c: Config, k: nat)
    requires BackwardConfig(c) && BackwardChain(store, c) && k <= c.endNumber - c.startNumber
    ensures StepBack(store, c, k) && Ancestor(store, c.endHash, k).Some?
    ensures HeaderBack(store, c.endHash, k).number == c.endNumber - k && HeaderFits(HeaderBack(store, c.endHash, k))
    ensures HeaderBack(store, c.endHash, k).hash == RequestedHash(store, c.endHash, k)
    ensures forall j :: 0 <= j < k ==> RequestedHash(store, c.endHash, j) != RequestedHash(store, c.endHash, k)
    ensures store.byNumber(c.endNumber) == Some(HeaderBack(store, c.endHash, 0))
    ensures store.byNumber(c.startNumber) == Some(HeaderBack(store, c.endHash, c.endNumber - c.startNumber))
    ensures HeaderBack(store, c.endHash, c.endNumber - c.startNumber).hash == c.startHash
    ensures k < c.endNumber - c.startNumber ==> BackwardBlock(store, HeaderBack(store, c.endHash, k)) && FreshBack(store, c, k)
  {
    hide BackwardBlock, HeaderBack, Ancestor, EntryCount, LogCount, FreshBack, RequestedHash, HeaderFits;
    assert StepBack(store, c, k);
    assert k < c.endNumber - c.startNumber ==> BackPlace(store, c, k);
  }

  lemma SameParent(store: Store, n: nat, child: Header)
    requires OneContentPerHash(store) && store.full(n).Some?
    requires child.parent == HeaderAt(store, n).hash && store.byHash(child.parent).Some?
    ensures store.byHash(child.parent) == Some(HeaderAt(store, n))
  {
    assert SameHeader(store, HeaderOf(store.full(n).value));
  }

  /** Walking back from the end meets the same headers as walking forward. */
  lemma {:induction false} SameHeaders(store: Store, c: Config, k: nat)
    requires OneContentPerHash(store) && ForwardConfig(c) && ForwardChain(store, c)
    requires BackwardConfig(c) && BackwardChain(store, c) && k <= c.endNumber - c.startNumber
    ensures HeaderBack(store, c.endHash, k) == HeaderAt(store, c.endNumber - k)
  {
    hide *;
    Bounds(c);
    StepOf(store, c, k);
    ForwardFacts(store, c, c.endNumber - k);
    if k != 0 {
      SameHeaders(store, c, k - 1);
      ForwardFacts(store, c, c.endNumber - k + 1);
      AncestorStep(store, c.endHash, k);
      SameParent(store, c.endNumber - k, HeaderBack(store, c.endHash, k - 1));
    }
  }

  lemma AncestorStep(store: Store, hash: Hash, k: nat)
    requires k != 0 && Ancestor(store, hash, k).Some?
    ensures Ancestor(store, hash, k) == Some(HeaderBack(store, hash, k))
    ensures store.byHash(HeaderBack(store, hash, k - 1).parent) == Some(HeaderBack(store, hash, k))
  {
  }

  /** The transactions looked up one by one are those of the full block. */
  lemma SameBlock(store: Store, n: nat)
    requires OneContentPerHash(store) && ForwardBlock(store, n) && BackwardBlock(store, HeaderAt(store, n))
    ensures BlockBehind(store, HeaderAt(store, n)) == BlockAt(store, n)
  {
    var header, txs := HeaderAt(store, n), store.full(n).value.txs;
    var found := Transactions(store, header.transactions);
    forall k | 0 <= k < |txs| ensures found[k] == txs[k] {
      assert BackwardEntry(store, header, found, k);
      assert SameTransaction(store, txs[k]);
    }
    assert found == txs;
  }

  lemma SameBlockBack(store: Store, c: Config, k: nat)
    requires OneContentPerHash(store) && ForwardConfig(c) && ForwardChain(store, c)
    requires BackwardConfig(c) && BackwardChain(store, c) && k < c.endNumber - c.startNumber
    ensures BlockBehind(store, HeaderBack(store, c.endHash, k)) == BlockAt(store, c.endNumber - k)
  {
    hide *;
    Bounds(c);
    StepOf(store, c, k);
    SameHeaders(store, c, k);
    ForwardFacts(store, c, c.endNumber - k);
    SameBlock(store, c.endNumber - k);
  }

  lemma SameBlocks(store: Store, c: Config)
    requires OneContentPerHash(store) && ForwardConfig(c) && ForwardChain(store, c)
    requires BackwardConfig(c) && BackwardChain(store, c)
    ensures var steps := c.endNumber - c.startNumber;
      Reversed(BlocksBack(store, c.endHash, steps)) == BlocksAt(store, c.startNumber, steps + 1)[1..]
  {
    hide ForwardChain, BackwardChain, BlockAt, BlockBehind, HeaderBack, OneContentPerHash;
    var steps := c.endNumber - c.startNumber;
    var back, forth := BlocksBack(store, c.endHash, steps), BlocksAt(store, c.startNumber, steps + 1);
    forall i | 0 <= i < steps ensures Reversed(back)[i] == forth[1..][i] {
      SameBlockBack(store, c, steps - 1 - i);
    }
  }

  /** The same blocks and the same start header make the same history. */
  lemma HistoriesAgree(store: Store, c: Config, digest: bytes -> bytes, steps: nat)
    requires Forward(store, c, digest) && Backward(store, c, digest) && steps == c.endNumber - c.startNumber
    requires Reversed(BlocksBack(store, c.endHash, steps)) == BlocksAt(store, c.startNumber, steps + 1)[1..]
    requires HeaderBack(store, c.endHash, steps) == HeaderAt(store, c.startNumber)
    ensures ForwardHistory(store, c, digest) == BackwardHistory(store, c, digest)
  {
    hide ForwardChain, BackwardChain, EndReads, Boundaries, HeaderBack, BlockAt, BlocksBack, Reversed;
  }

  /** Opposite traversals agree: if both collectors accept, they report the same history. */
  lemma {:induction false} TraversalsAgree(store: Store, c: Config, digest: bytes -> bytes)
    requires OneContentPerHash(store) && Forward(store, c, digest) && Backward(store, c, digest)
    ensures ForwardHistory(store, c, digest) == BackwardHistory(store, c, digest)
  {
    hide ForwardChain, BackwardChain, EndReads, Boundaries, HeaderBack, BlockAt, BlocksBack, Reversed, ForwardHistory,
         BackwardHistory, OneContentPerHash;
    SameBlocks(store, c);
    SameHeaders(store, c, c.endNumber - c.startNumber);
    HistoriesAgree(store, c, digest, c.endNumber - c.startNumber);
  }

  // The parent path.

  /** Headers from one hash down to, but not including, another: each the parent of the one before. */
  ghost predicate ParentPath(store: Store, from: Hash, to: Hash, path: seq<Header>) {
    && path != [] && store.byHash(from) == Some(path[0]) && path[|path| - 1].parent == to
    && (forall i :: 0 <= i < |path| - 1 ==> path[i].parent != to && store.byHash(path[i].parent) == Some(path[i + 1]))
  }

  lemma {:induction false} SamePrefix(store: Store, from: Hash, to: Hash, p: seq<Header>, q: seq<Header>, i: nat)
    requires ParentPath(store, from, to, p) && ParentPath(store, from, to, q) && i < |p| && i < |q|
    ensures p[i] == q[i]
  {
    if i != 0 {
      SamePrefix(store, from, to, p, q, i - 1);
    }
  }

  /** There is at most one such path. */
  lemma OnePath(store: Store, from: Hash, to: Hash, p: seq<Header>, q: seq<Header>)
    requires ParentPath(store, from, to, p) && ParentPath(store, from, to, q)
    ensures p == q
  {
    if |p| < |q| {
      SamePrefix(store, from, to, p, q, |p| - 1);
    } else if |q| < |p| {
      SamePrefix(store, from, to, p, q, |q| - 1);
    } else {
      forall i | 0 <= i < |p| ensures p[i] == q[i] {
        SamePrefix(store, from, to, p, q, i);
      }
    }
  }

  /** The headers of a history, newest first. */
  function NewestFirst(blocks: seq<Block>): (r: seq<Header>)
    ensures |r| == |blocks|
  {
    seq(|blocks|, k requires 0 <= k < |blocks| => blocks[|blocks| - 1 - k].header)
  }

  lemma RequestedNext(store: Store, hash: Hash, k: nat)
    ensures RequestedHash(store, hash, k + 1) == HeaderBack(store, hash, k).parent
  {
  }

  /** One step of the walk, which meets the start hash at its last step only. */
  lemma ParentOf(store: Store, c: Config, i: nat)
    requires BackwardConfig(c) && BackwardChain(store, c) && i < c.endNumber - c.startNumber
    ensures var parent := HeaderBack(store, c.endHash, i).parent;
      && store.byHash(parent) == Some(HeaderBack(store, c.endHash, i + 1))
      && (parent == c.startHash <==> i + 1 == c.endNumber - c.startNumber)
  {
    hide *;
    Bounds(c);
    var steps := c.endNumber - c.startNumber;
    StepOf(store, c, steps);
    StepOf(store, c, i + 1);
    AncestorStep(store, c.endHash, i + 1);
    RequestedNext(store, c.endHash, i);
    RequestedNext(store, c.endHash, steps - 1);
  }

  lemma WalkIsPath(store: Store, c: Config)
    requires BackwardConfig(c) && BackwardChain(store, c)
    ensures ParentPath(store, c.endHash, c.startHash,
      NewestFirst(Reversed(BlocksBack(store, c.endHash, c.endNumber - c.startNumber))))
  {
    hide BackwardChain, HeaderBack, NewestFirst, Reversed, BlocksBack, StepBack, BackwardBlock, FreshBack;
    var steps := c.endNumber - c.startNumber;
    var path := NewestFirst(Reversed(BlocksBack(store, c.endHash, steps)));
    StepOf(store, c, 0);
    BehindHeaders(store, c.endHash, steps);
    FirstStep(store, c.endHash);
    forall i | 0 <= i < steps
      ensures path[i].parent == c.startHash <==> i + 1 == steps
      ensures i + 1 < steps ==> store.byHash(path[i].parent) == Some(path[i + 1])
    {
      ParentOf(store, c, i);
    }
  }

  lemma FirstStep(store: Store, hash: Hash)
    ensures Ancestor(store, hash, 0).Some? ==> store.byHash(hash) == Some(HeaderBack(store, hash, 0))
  {
  }

  lemma BehindHeaders(store: Store, hash: Hash, steps: nat)
    ensures forall i :: 0 <= i < steps ==>
      NewestFirst(Reversed(BlocksBack(store, hash, steps)))[i] == HeaderBack(store, hash, i)
  {
    hide HeaderBack;
  }

  /**
   What the backward collector emits is exactly the parent path from the end hash to the
   start hash, the start block left out: it is such a path and there is no other.
   */
  lemma {:induction false} EmitsTheParentPath(store: Store, c: Config, digest: bytes -> bytes, path: seq<Header>)
    requires Backward(store, c, digest)
    ensures ParentPath(store, c.endHash, c.startHash, path)
       <==> path == NewestFirst(BackwardHistory(store, c, digest).blocks)
  {
    WalkIsPath(store, c);
    if ParentPath(store, c.endHash, c.startHash, path) {
      OnePath(store, c.endHash, c.startHash, path, NewestFirst(BackwardHistory(store, c, digest).blocks));
    }
  }
}
