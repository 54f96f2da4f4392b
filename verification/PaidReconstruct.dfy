/**
 The reconstruction of a whole history: blocks, transactions and events in nested loops, the
 shape of the history checked as it goes and the ledger compared with the end state.
 */
module PaidReconstruct {
  import opened Bytes
  import opened PaidAbi
  import opened PaidLedger
  import opened PaidReader
  import C = Chain
  import opened Wrappers

  /** The parameters of a reading: two digests, the calldata format, and what a topic stands for. */
  datatype Rules = Rules(digest: bytes -> bytes, keccak: bytes -> bytes, format: Format, signature: nat -> Signature)

  function EnvOf(rules: Rules, h: C.History, c: C.Config): Env {
    Env(c.registry, c.probe, c.token, rules.keccak(h.registryRuntime), rules.format, rules.keccak)
  }

  function LogOf(rules: Rules, e: C.LogEntry): Log {
    if e.topics == [] then Log(e.emitter, Unknown, [], e.data)
    else Log(e.emitter, rules.signature(e.topics[0]), e.topics[1..], e.data)
  }

  function TransactionOf(rules: Rules, header: C.Header, e: C.Entry): Transaction {
    var logs := seq(|e.receipt.logs|, j requires 0 <= j < |e.receipt.logs| => LogOf(rules, e.receipt.logs[j]));
    Transaction(e.body.sender, e.body.to, e.receipt.creation, e.receipt.status == 1, e.body.data, header.timestamp, logs)
  }

  function TransactionsOf(rules: Rules, b: C.Block): (r: seq<Transaction>)
    ensures |r| == |b.entries|
  {
    seq(|b.entries|, k requires 0 <= k < |b.entries| => TransactionOf(rules, b.header, b.entries[k]))
  }

  /** The transactions of the first blocks, in chain order. */
  function Flat(rules: Rules, blocks: seq<C.Block>, n: nat): seq<Transaction>
    requires n <= |blocks|
  {
    if n == 0 then [] else Flat(rules, blocks, n - 1) + TransactionsOf(rules, blocks[n - 1])
  }

  predicate MatchesEndpoint(l: Ledger, e: C.Endpoint)
    requires Shaped(l)
  {
    && |e.owners| == |e.epochs| == |e.credits| == |e.stakes| == |e.nonces| == 3
    && (forall i | 0 <= i < 3 ::
         l.owners[i] == Some(e.owners[i]) && l.epochs[i] == e.epochs[i] && l.credits[i] == e.credits[i]
         && l.stakes[i] == e.stakes[i] && l.nonces[i] == e.nonces[i])
    && l.total == e.total && l.dust == e.dust && |l.messages| == e.messageCount && l.balance == e.balance
  }

  /** What a reading of a history gives: the final ledger, or nothing. */
  function Reconstruct(rules: Rules, h: C.History, c: C.Config): (r: Option<Ledger>) {
    var _ :- Check(C.Readable(h, c, rules.digest));
    var l :- Rebuild(EnvOf(rules, h, c), Flat(rules, h.blocks, |h.blocks|));
    var _ :- Check(MatchesEndpoint(l, h.endpoint));
    Some(l)
  }

  // Reading further.

  lemma ReplayAppend(env: Env, done: seq<Transaction>, tx: Transaction)
    ensures Replay(env, done + [tx])
         == if Replay(env, done).None? then None else ApplyTransaction(env, Replay(env, done).value, tx)
  {
    hide ApplyTransaction;
    assert (done + [tx])[..|done|] == done;
  }

  lemma {:induction false} ReplayPrefix(env: Env, done: seq<Transaction>, rest: seq<Transaction>)
    ensures Replay(env, done + rest).Some? ==> Replay(env, done).Some?
  {
    hide ApplyTransaction;
    if rest == [] {
      assert done + rest == done;
    } else {
      ReplayPrefix(env, done, rest[..|rest| - 1]);
      assert done + rest == done + rest[..|rest| - 1] + [rest[|rest| - 1]];
      ReplayAppend(env, done + rest[..|rest| - 1], rest[|rest| - 1]);
    }
  }

  /** The logs of one receipt are where they say they are. */
  method CheckLogs(header: C.Header, r: C.Receipt, k: nat, next: nat) returns (ok: bool)
    ensures ok <==> forall j :: 0 <= j < |r.logs| ==> C.ReadableLog(r.logs[j], header, r.txHash, k, next + j)
  {
    hide C.ReadableLog;
    ok := true;
    for j := 0 to |r.logs|
      invariant ok <==> forall i :: 0 <= i < j ==> C.ReadableLog(r.logs[i], header, r.txHash, k, next + i)
    {
      ok := ok && C.ReadableLog(r.logs[j], header, r.txHash, k, next + j);
    }
  }

  method CheckEntry(header: C.Header, entries: seq<C.Entry>, k: nat, cumulative: nat, next: nat) returns (ok: bool)
    requires k < |entries| && cumulative == C.GasThrough(entries, k) && next == C.LogsThrough(entries, k)
    ensures ok <==> C.ReadableEntry(header, entries, k)
  {
    var body, r := entries[k].body, entries[k].receipt;
    ok := false;
    if body.sender == 0 || body.to == Some(0) || |body.data| > 65536 || !(0 < body.gas <= C.MAX_GAS) || body.value != 0 {
      return;
    }
    if !C.ReceiptPlaced(r, header, k) || r.sender != body.sender || r.to != body.to || r.gasUsed > body.gas
       || r.cumulative != cumulative + r.gasUsed || r.status !in {0, 1} {
      return;
    }
    if (r.status != 1 && r.logs != []) || !C.ReadableCreation(body, r) {
      return;
    }
    ok := CheckLogs(header, r, k, next);
  }

  /** What the block loop keeps of the blocks before. */
  datatype Passed = Passed(transactions: set<C.Hash>, count: nat, logs: nat)

  predicate Adds(passed: Passed, b: C.Block) {
    && (forall k :: 0 <= k < |b.header.transactions| ==> b.header.transactions[k] !in passed.transactions)
    && passed.count + |b.entries| <= 256 && passed.logs + C.LogsThrough(b.entries, |b.entries|) <= 2048
  }

  ghost predicate EntriesRead(rules: Rules, env: Env, b: C.Block, done: seq<Transaction>, passed: Passed, k: nat,
                              l: Ledger, after: Passed, cumulative: nat, next: nat)
    requires k <= |b.entries| == |b.header.transactions|
  {
    && (forall i :: 0 <= i < k ==> C.ReadableEntry(b.header, b.entries, i))
    && (forall i :: 0 <= i < k ==> b.header.transactions[i] !in passed.transactions)
    && cumulative == C.GasThrough(b.entries, k) && next == C.LogsThrough(b.entries, k)
    && C.SeenWith(passed.transactions, after.transactions, b.header.transactions[..k])
    && after.count == passed.count + |b.entries| <= 256 && after.logs == passed.logs + next <= 2048
    && Replay(env, done + TransactionsOf(rules, b)[..k]) == Some(l)
  }

  lemma EntryRead(rules: Rules, env: Env, b: C.Block, done: seq<Transaction>, passed: Passed, k: nat, l: Ledger,
                  after: Passed, cumulative: nat, next: nat, read: Ledger, more: Passed)
    requires k < |b.entries| == |b.header.transactions| && C.Distinct(b.header.transactions)
    requires EntriesRead(rules, env, b, done, passed, k, l, after, cumulative, next)
    requires C.ReadableEntry(b.header, b.entries, k) && b.header.transactions[k] !in after.transactions
    requires after.logs + |b.entries[k].receipt.logs| <= 2048 && Shaped(l)
    requires ApplyTransaction(env, l, TransactionOf(rules, b.header, b.entries[k])) == Some(read)
    requires more == Passed(after.transactions + {b.header.transactions[k]}, after.count, after.logs + |b.entries[k].receipt.logs|)
    ensures EntriesRead(rules, env, b, done, passed, k + 1, read, more,
                        cumulative + b.entries[k].receipt.gasUsed, next + |b.entries[k].receipt.logs|)
  {
    hide C.ReadableEntry, ApplyTransaction, Replay, C.SeenWith, TransactionOf;
    C.SeenOneMore(passed.transactions, after.transactions, b.header.transactions, k);
    var txs := TransactionsOf(rules, b);
    assert done + txs[..k + 1] == (done + txs[..k]) + [txs[k]];
    ReplayAppend(env, done + txs[..k], txs[k]);
  }

  lemma EntryRefused(rules: Rules, env: Env, b: C.Block, done: seq<Transaction>, passed: Passed, k: nat, l: Ledger,
                     after: Passed, cumulative: nat, next: nat)
    requires k < |b.entries| == |b.header.transactions| && C.Distinct(b.header.transactions) && Shaped(l)
    requires EntriesRead(rules, env, b, done, passed, k, l, after, cumulative, next)
    requires !C.ReadableEntry(b.header, b.entries, k) || b.header.transactions[k] in after.transactions
             || after.logs + |b.entries[k].receipt.logs| > 2048
             || ApplyTransaction(env, l, TransactionOf(rules, b.header, b.entries[k])).None?
    ensures !(forall i :: 0 <= i < |b.entries| ==> C.ReadableEntry(b.header, b.entries, i)) || !Adds(passed, b)
            || Replay(env, done + TransactionsOf(rules, b)).None?
  {
    hide C.ReadableEntry, ApplyTransaction, Replay, C.SeenWith, TransactionOf;
    C.SeenOneMore(passed.transactions, after.transactions, b.header.transactions, k);
    C.LogsThroughGrows(b.entries, k + 1);
    var txs := TransactionsOf(rules, b);
    assert done + txs == (done + txs[..k]) + [txs[k]] + txs[k + 1..];
    ReplayAppend(env, done + txs[..k], txs[k]);
    ReplayPrefix(env, (done + txs[..k]) + [txs[k]], txs[k + 1..]);
  }

  lemma EntriesEnd(rules: Rules, env: Env, b: C.Block, done: seq<Transaction>, passed: Passed, l: Ledger,
                   after: Passed, cumulative: nat, next: nat)
    requires |b.entries| == |b.header.transactions|
    requires EntriesRead(rules, env, b, done, passed, |b.entries|, l, after, cumulative, next)
    ensures Adds(passed, b) && forall i :: 0 <= i < |b.entries| ==> C.ReadableEntry(b.header, b.entries, i)
    ensures Replay(env, done + TransactionsOf(rules, b)) == Some(l) && cumulative == C.GasThrough(b.entries, |b.entries|)
    ensures C.SeenWith(passed.transactions, after.transactions, b.header.transactions)
    ensures after.count == passed.count + |b.entries| <= 256
    ensures after.logs == passed.logs + C.LogsThrough(b.entries, |b.entries|) <= 2048
  {
    hide C.ReadableEntry, Replay;
    assert TransactionsOf(rules, b)[..|b.entries|] == TransactionsOf(rules, b);
    assert b.header.transactions[..|b.entries|] == b.header.transactions;
  }

  lemma EntriesStart(rules: Rules, env: Env, b: C.Block, done: seq<Transaction>, passed: Passed, l: Ledger)
    requires |b.entries| == |b.header.transactions| && Replay(env, done) == Some(l)
    requires passed.count + |b.entries| <= 256 && passed.logs <= 2048
    ensures EntriesRead(rules, env, b, done, passed, 0, l, passed.(count := passed.count + |b.entries|), 0, 0)
  {
    hide Replay;
    assert done + TransactionsOf(rules, b)[..0] == done;
  }

  /** One block: its place in the chain, its entries in order, and the ledger brought up to date. */
  method ReadBlock(rules: Rules, env: Env, ledger: LiveLedger, previous: C.Header, b: C.Block,
                   ghost done: seq<Transaction>, passed: Passed) returns (ok: bool, after: Passed)
    requires Shaped(ledger.State()) && Replay(env, done) == Some(ledger.State()) && passed.logs <= 2048
    modifies ledger
    ensures Shaped(ledger.State())
    ensures ok <==> C.ReadableBlock(previous, b) && Adds(passed, b) && Replay(env, done + TransactionsOf(rules, b)).Some?
    ensures ok ==> Replay(env, done + TransactionsOf(rules, b)) == Some(ledger.State())
                   && C.SeenWith(passed.transactions, after.transactions, b.header.transactions)
                   && after.count == passed.count + |b.entries| <= 256
                   && after.logs == passed.logs + C.LogsThrough(b.entries, |b.entries|) <= 2048
  {
    hide Replay, ApplyTransaction, C.ReadableEntry, C.SeenWith, TransactionOf, TransactionsOf;
    ok, after := false, passed;
    if !C.ReadableHeader(b.header) || b.header.parent != previous.hash || b.header.number != previous.number + 1
       || b.header.timestamp < previous.timestamp || |b.entries| != |b.header.transactions| {
      return;
    }
    after := passed.(count := passed.count + |b.entries|);
    if after.count > 256 {
      return;
    }
    var cumulative: nat, next: nat := 0, 0;
    EntriesStart(rules, env, b, done, passed, ledger.State());
    for k := 0 to |b.entries|
      invariant Shaped(ledger.State())
      invariant EntriesRead(rules, env, b, done, passed, k, ledger.State(), after, cumulative, next)
    {
      ghost var l, during := ledger.State(), after;
      var entry, hash := b.entries[k], b.header.transactions[k];
      var fits := CheckEntry(b.header, b.entries, k, cumulative, next);
      fits := fits && hash !in after.transactions && after.logs + |entry.receipt.logs| <= 2048;
      if fits {
        fits := ledger.ReadTransaction(env, TransactionOf(rules, b.header, entry));
      }
      if !fits {
        EntryRefused(rules, env, b, done, passed, k, l, during, cumulative, next);
        return;
      }
      after := Passed(after.transactions + {hash}, after.count, after.logs + |entry.receipt.logs|);
      EntryRead(rules, env, b, done, passed, k, l, during, cumulative, next, ledger.State(), after);
      cumulative, next := cumulative + entry.receipt.gasUsed, next + |entry.receipt.logs|;
    }
    EntriesEnd(rules, env, b, done, passed, ledger.State(), after, cumulative, next);
    ok := cumulative == b.header.gasUsed;
  }

  // The blocks of a history.

  ghost predicate BlockFits(h: C.History, i: nat)
    requires i < |h.blocks|
  {
    && C.ReadableBlock(C.Before(h, i), h.blocks[i])
    && (forall j :: 0 <= j <= i ==> C.Before(h, j).hash != C.Before(h, i + 1).hash)
    && (forall j :: 0 <= j < i ==> C.Disjoint(h.blocks[j].header.transactions, h.blocks[i].header.transactions))
    && C.EntryCount(h.blocks, i + 1) <= 256 && C.LogCount(h.blocks, i + 1) <= 2048
  }

  ghost predicate BlocksRead(rules: Rules, env: Env, h: C.History, i: nat, l: Ledger, seen: set<C.Hash>, passed: Passed)
    requires i <= |h.blocks|
  {
    && (forall j :: 0 <= j < i ==> BlockFits(h, j))
    && (forall x :: x in seen <==> exists j :: 0 <= j <= i && C.Before(h, j).hash == x)
    && (forall x :: x in passed.transactions <==> exists j :: 0 <= j < i && x in h.blocks[j].header.transactions)
    && passed.count == C.EntryCount(h.blocks, i) && passed.logs == C.LogCount(h.blocks, i) <= 2048
    && Replay(env, Flat(rules, h.blocks, i)) == Some(l)
  }

  lemma AddsMeans(h: C.History, i: nat, passed: Passed)
    requires i < |h.blocks| && |h.blocks[i].entries| == |h.blocks[i].header.transactions|
    requires forall x :: x in passed.transactions <==> exists j :: 0 <= j < i && x in h.blocks[j].header.transactions
    requires passed.count == C.EntryCount(h.blocks, i) && passed.logs == C.LogCount(h.blocks, i)
    ensures Adds(passed, h.blocks[i])
       <==> (forall j :: 0 <= j < i ==> C.Disjoint(h.blocks[j].header.transactions, h.blocks[i].header.transactions))
            && C.EntryCount(h.blocks, i + 1) <= 256 && C.LogCount(h.blocks, i + 1) <= 2048
  {
    var txs := h.blocks[i].header.transactions;
    if k :| 0 <= k < |txs| && txs[k] in passed.transactions {
      var j :| 0 <= j < i && txs[k] in h.blocks[j].header.transactions;
      assert !C.Disjoint(h.blocks[j].header.transactions, txs);
    } else {
      forall j | 0 <= j < i ensures C.Disjoint(h.blocks[j].header.transactions, txs) {
        var other := h.blocks[j].header.transactions;
        forall n, k | 0 <= n < |other| && 0 <= k < |txs| ensures other[n] != txs[k] {
          assert other[n] in other && txs[k] !in passed.transactions;
        }
      }
    }
  }

  lemma BlockMeans(rules: Rules, env: Env, h: C.History, i: nat, l: Ledger, seen: set<C.Hash>, passed: Passed)
    requires i < |h.blocks| && BlocksRead(rules, env, h, i, l, seen, passed)
    ensures BlockFits(h, i) <==>
      C.ReadableBlock(C.Before(h, i), h.blocks[i]) && h.blocks[i].header.hash !in seen && Adds(passed, h.blocks[i])
  {
    hide C.Disjoint, Adds, C.EntryCount, C.LogCount, C.ReadableEntry, C.GasThrough;
    if C.ReadableBlock(C.Before(h, i), h.blocks[i]) {
      AddsMeans(h, i, passed);
    }
    assert C.Before(h, i + 1) == h.blocks[i].header;
  }

  lemma BlocksStep(rules: Rules, env: Env, h: C.History, i: nat, l: Ledger, seen: set<C.Hash>, passed: Passed,
                   read: Ledger, after: Passed)
    requires i < |h.blocks| && BlocksRead(rules, env, h, i, l, seen, passed) && BlockFits(h, i)
    requires Replay(env, Flat(rules, h.blocks, i) + TransactionsOf(rules, h.blocks[i])) == Some(read)
    requires C.SeenWith(passed.transactions, after.transactions, h.blocks[i].header.transactions)
    requires after.count == passed.count + |h.blocks[i].entries|
    requires after.logs == passed.logs + C.LogsThrough(h.blocks[i].entries, |h.blocks[i].entries|) <= 2048
    ensures BlocksRead(rules, env, h, i + 1, read, seen + {h.blocks[i].header.hash}, after)
  {
    hide BlockFits, Replay, TransactionsOf, C.LogsThrough;
    var more := seen + {h.blocks[i].header.hash};
    forall x ensures x in more <==> exists j :: 0 <= j <= i + 1 && C.Before(h, j).hash == x {
      if x in seen {
        var j :| 0 <= j <= i && C.Before(h, j).hash == x;
      }
      assert C.Before(h, i + 1) == h.blocks[i].header;
    }
    forall x ensures x in after.transactions <==> exists j :: 0 <= j < i + 1 && x in h.blocks[j].header.transactions {
      if x in passed.transactions {
        var j :| 0 <= j < i && x in h.blocks[j].header.transactions;
      }
    }
  }

  /** The blocks are in order exactly when each fits those before it. */
  lemma ChainMeans(h: C.History)
    ensures C.ReadableChain(h) && C.EntryCount(h.blocks, |h.blocks|) <= 256 && C.LogCount(h.blocks, |h.blocks|) <= 2048
       ==> forall i :: 0 <= i < |h.blocks| ==> BlockFits(h, i)
    ensures h.blocks != [] && (forall i :: 0 <= i < |h.blocks| ==> BlockFits(h, i))
       ==> C.ReadableChain(h) && C.EntryCount(h.blocks, |h.blocks|) <= 256 && C.LogCount(h.blocks, |h.blocks|) <= 2048
  {
    hide C.ReadableBlock, C.Disjoint, C.Before, C.EntryCount, C.LogCount;
    if C.ReadableChain(h) && C.EntryCount(h.blocks, |h.blocks|) <= 256 && C.LogCount(h.blocks, |h.blocks|) <= 2048 {
      forall i | 0 <= i < |h.blocks| ensures BlockFits(h, i) {
        C.CountsGrow(h.blocks, i + 1);
      }
    }
    if h.blocks != [] && forall i :: 0 <= i < |h.blocks| ==> BlockFits(h, i) {
      assert BlockFits(h, |h.blocks| - 1);
      forall i | 0 <= i < |h.blocks| ensures C.ReadableBlock(C.Before(h, i), h.blocks[i]) {
        assert BlockFits(h, i);
      }
      forall i, j | 0 <= i < j <= |h.blocks| ensures C.Before(h, i).hash != C.Before(h, j).hash {
        assert BlockFits(h, j - 1);
      }
      forall i, j | 0 <= i < j < |h.blocks|
        ensures C.Disjoint(h.blocks[i].header.transactions, h.blocks[j].header.transactions)
      {
        assert BlockFits(h, j);
      }
    }
  }

  lemma {:induction false} FlatPrefix(rules: Rules, env: Env, blocks: seq<C.Block>, i: nat)
    requires i <= |blocks|
    ensures Replay(env, Flat(rules, blocks, |blocks|)).Some? ==> Replay(env, Flat(rules, blocks, i)).Some?
    decreases |blocks| - i
  {
    hide Replay, TransactionsOf;
    if i < |blocks| {
      FlatPrefix(rules, env, blocks, i + 1);
      ReplayPrefix(env, Flat(rules, blocks, i), TransactionsOf(rules, blocks[i]));
    }
  }

  lemma StartsRead(rules: Rules, env: Env, h: C.History)
    ensures BlocksRead(rules, env, h, 0, EMPTY, {h.start.hash}, Passed({}, 0, 0))
  {
    hide ApplyTransaction;
    assert C.Before(h, 0) == h.start;
  }

  /** Reads every block of the history into a new ledger. */
  method ReadBlocks(rules: Rules, env: Env, h: C.History) returns (ok: bool, ledger: LiveLedger)
    ensures Shaped(ledger.State())
    ensures ok <==> (forall i :: 0 <= i < |h.blocks| ==> BlockFits(h, i)) && Replay(env, Flat(rules, h.blocks, |h.blocks|)).Some?
    ensures ok ==> Replay(env, Flat(rules, h.blocks, |h.blocks|)) == Some(ledger.State())
  {
    hide Replay, BlockFits, C.ReadableBlock, Adds, C.SeenWith, TransactionsOf, ApplyTransaction;
    ledger := new LiveLedger();
    var seen, passed := {h.start.hash}, Passed({}, 0, 0);
    StartsRead(rules, env, h);
    ok := false;
    for i := 0 to |h.blocks|
      invariant Shaped(ledger.State()) && fresh(ledger)
      invariant BlocksRead(rules, env, h, i, ledger.State(), seen, passed)
    {
      ghost var l, before := ledger.State(), passed;
      var hash, fits := h.blocks[i].header.hash, false;
      BlockMeans(rules, env, h, i, l, seen, passed);
      FlatPrefix(rules, env, h.blocks, i + 1);
      if hash !in seen {
        fits, passed := ReadBlock(rules, env, ledger, C.Before(h, i), h.blocks[i], Flat(rules, h.blocks, i), passed);
      }
      if !fits {
        return;
      }
      BlocksStep(rules, env, h, i, l, seen, before, ledger.State(), passed);
      seen := seen + {hash};
    }
    ok := true;
  }

  /**
   The reconstruction: accepts exactly the histories of readable shape whose events the
   ledger accepts and whose end state is the ledger's, and returns that ledger.
   */
  method ReconstructHistory(rules: Rules, h: C.History, c: C.Config) returns (r: Option<Ledger>)
    ensures r == Reconstruct(rules, h, c)
  {
    hide C.ReadableContext, C.ReadableChain, BlockFits, Replay, Flat, C.EntryCount, C.LogCount, MatchesEndpoint, C.ReadableHeader;
    r := None;
    ChainMeans(h);
    if !C.ReadableContext(h, c, rules.digest) || !C.ReadableHeader(h.start)
       || h.blocks == [] || |h.blocks| > 512 || h.end.number - h.start.number != |h.blocks| {
      return;
    }
    var ok, ledger := ReadBlocks(rules, EnvOf(rules, h, c), h);
    if !ok || h.blocks[|h.blocks| - 1].header != h.end
       || !ledger.registryCreated || !ledger.probeCreated || ledger.mintCount != 3 || !MatchesEndpoint(ledger.State(), h.endpoint) {
      return;
    }
    r := Some(ledger.State());
  }
}
