/**
 The paid-action reader as it runs: a ledger updated event by event, and the reconstruction
 that feeds it a history. A rejected event ends the reading, so a method that returns false
 promises nothing of the ledger it leaves behind.
 */
module PaidReader {
  import opened Sums
  import opened PaidAbi
  import opened PaidLedger
  import opened Wrappers

  lemma {:induction false} LogsPrefix(env: Env, l: Ledger, ctx: Context, logs: seq<Log>, k: nat)
    requires Shaped(l) && k <= |logs| && ApplyLogs(env, l, ctx, logs).Some?
    ensures ApplyLogs(env, l, ctx, logs[..k]).Some?
  {
    hide ApplyLog;
    if k < |logs| {
      LogsPrefix(env, l, ctx, logs[..|logs| - 1], k);
      assert logs[..|logs| - 1][..k] == logs[..k];
    } else {
      assert logs[..k] == logs;
    }
  }

  lemma LogsStep(env: Env, l: Ledger, ctx: Context, logs: seq<Log>, k: nat)
    requires Shaped(l) && k < |logs| && ApplyLogs(env, l, ctx, logs[..k]).Some?
    ensures var (mid, during) := ApplyLogs(env, l, ctx, logs[..k]).value;
      ApplyLogs(env, l, ctx, logs[..k + 1]) == ApplyLog(env, mid, during, logs[k])
  {
    hide ApplyLog;
    assert logs[..k + 1][..k] == logs[..k];
  }

  /** One account's part of the closing check. */
  predicate AccountHolds(l: Ledger, i: nat)
    requires Shaped(l) && i < 3
  {
    IsUint(l.credits[i]) && IsUint(l.stakes[i]) && IsUint(l.nonces[i]) && IsUint(l.epochs[i])
    && l.stakes[i] <= l.credits[i] && l.stakes[i] <= MAX_STAKE
  }

  lemma InvariantsByAccount(l: Ledger)
    requires Shaped(l)
    ensures Invariants(l) <==>
      && IsUint(l.total) && IsUint(l.dust) && IsUint(l.balance)
      && AccountHolds(l, 0) && AccountHolds(l, 1) && AccountHolds(l, 2)
      && l.total == Sum(l.credits) && l.total + l.dust <= MAX && l.balance >= l.total + l.dust
  {
    assert Invariants(l) ==> AccountHolds(l, 0) && AccountHolds(l, 1) && AccountHolds(l, 2);
    if AccountHolds(l, 0) && AccountHolds(l, 1) && AccountHolds(l, 2) {
      forall i | 0 <= i < 3
        ensures IsUint(l.credits[i]) && IsUint(l.stakes[i]) && IsUint(l.nonces[i]) && IsUint(l.epochs[i])
      {
        assert i == 0 || i == 1 || i == 2;
      }
      forall i | 0 <= i < 3 ensures l.stakes[i] <= l.credits[i] && l.stakes[i] <= MAX_STAKE {
        assert i == 0 || i == 1 || i == 2;
      }
    }
  }

  lemma PostNonce(env: Env, l: Ledger, ctx: Context, call: ProbeCall, d: PostData)
    requires Shaped(l) && d.index < 3 && PostAdmitted(env, l, ctx, call, d)
    ensures d.nonce == l.nonces[d.index]
  {
  }

  /** An accepted post leaves every credit within a word. */
  lemma CreditsFit(env: Env, l: Ledger, ctx: Context, d: PostData, credits: seq<int>)
    requires Shaped(l) && d.index < 3 && |d.allocations| == 3
    requires credits == Added(l.credits[d.index := l.credits[d.index] - FEE], d.allocations)
    ensures ApplyPost(env, l, ctx, d).Some? ==> forall i :: 0 <= i < 3 ==> IsUint(credits[i])
  {
    hide PostAdmitted, Added;
    var next := ApplyPost(env, l, ctx, d);
    if next.Some? {
      assert next.value.credits == credits;
      forall i | 0 <= i < 3 ensures IsUint(credits[i]) {
        assert IsUint(next.value.credits[i]);
      }
    }
  }

  class LiveLedger {
    var owners: seq<Option<Address>>
    var epochs: seq<int>
    var credits: seq<int>
    var stakes: seq<int>
    var nonces: seq<int>
    var total: int
    var dust: int
    var balance: int
    var messages: seq<Message>
    var registryCreated: bool
    var probeCreated: bool
    var mintCount: int

    function State(): Ledger
      reads this
    {
      Ledger(owners, epochs, credits, stakes, nonces, total, dust, balance, messages, registryCreated, probeCreated, mintCount)
    }

    constructor ()
      ensures State() == EMPTY
    {
      owners, epochs, credits := [None, None, None], [0, 0, 0], [0, 0, 0];
      stakes, nonces := [0, 0, 0], [0, 0, 0];
      total, dust, balance, messages, mintCount := 0, 0, 0, [], 0;
      registryCreated, probeCreated := false, false;
    }

    method CheckInvariants() returns (ok: bool)
      requires Shaped(State())
      ensures ok <==> Invariants(State())
    {
      var sum := 0;
      ok := IsUint(total) && IsUint(dust) && IsUint(balance);
      for i := 0 to 3
        invariant sum == Sum(credits[..i])
        invariant ok <==> IsUint(total) && IsUint(dust) && IsUint(balance) && forall j :: 0 <= j < i ==> AccountHolds(State(), j)
      {
        assert credits[..i + 1][..i] == credits[..i];
        ok := ok && AccountHolds(State(), i);
        sum := sum + credits[i];
      }
      assert credits[..3] == credits;
      InvariantsByAccount(State());
      ok := ok && total == sum && total + dust <= MAX && balance >= total + dust;
    }

    method RegistryTransfer(env: Env, ctx: Context, index: nat, first: Address, second: Address) returns (ok: bool)
      requires Shaped(State()) && index < 3
      modifies this
      ensures Shaped(State())
      ensures var r := PaidLedger.RegistryTransfer(env, old(State()), ctx, index, first, second);
        (ok <==> r.Some?) && (ok ==> State() == r.value)
    {
      ok := false;
      if second == ZERO {
        return;
      }
      if first == ZERO {
        if ctx.creation != Some(env.registry) || owners[index].Some? || index != mintCount {
          return;
        }
        owners, mintCount := owners[index := Some(second)], mintCount + 1;
      } else {
        if mintCount != 3 || owners[index] != Some(first) || ctx.lastRegistry != Some((Clear, index, first)) {
          return;
        }
        owners := owners[index := Some(second)];
        if !IsUint(epochs[index] + 1) {
          return;
        }
        epochs := epochs[index := epochs[index] + 1];
      }
      ok := true;
    }

    method RegistryEvent(env: Env, ctx: Context, log: Log) returns (ok: bool, after: Context)
      requires Shaped(State())
      modifies this
      ensures Shaped(State())
      ensures var r := PaidLedger.RegistryEvent(env, old(State()), ctx, log);
        (ok <==> r.Some?) && (ok ==> (State(), after) == r.value)
    {
      ok, after := false, ctx;
      if !registryCreated || ctx.call.Some? {
        return;
      }
      if log.signature.ApprovalForAll? {
        ok := |log.topics| == 2 && |log.data| == 32 && log.topics[0] < ADDRESS_BOUND && log.topics[1] < ADDRESS_BOUND
              && log.topics[0] != ZERO && log.topics[0] != log.topics[1] && ReadWord(log.data, 0) in {0, 1};
        after := ctx.(lastRegistry := None);
        return;
      }
      if !(log.signature.Transfer? || log.signature.Approval?) || |log.topics| != 3 || log.data != [] {
        return;
      }
      var first, second := log.topics[0], log.topics[1];
      if first >= ADDRESS_BOUND || second >= ADDRESS_BOUND || Account(log.topics[2]).None? {
        return;
      }
      var index := log.topics[2] - 1;
      if log.signature.Approval? {
        ok := owners[index] == Some(first);
        after := ctx.(lastRegistry := Some((if second == ZERO then Clear else Approve, index, first)));
      } else {
        ok := RegistryTransfer(env, ctx, index, first, second);
        after := ctx.(lastRegistry := Some((Transferred, index, first)));
      }
    }

    method TokenEvent(env: Env, ctx: Context, log: Log) returns (ok: bool, after: Context)
      requires Shaped(State())
      modifies this
      ensures Shaped(State())
      ensures var r := PaidLedger.TokenEvent(env, old(State()), ctx, log);
        (ok <==> r.Some?) && (ok ==> (State(), after) == r.value)
    {
      ok, after := false, ctx;
      if ctx.probeSeen || |log.topics| != 2 || |log.data| != 32 || !(log.signature.Transfer? || log.signature.Approval?) {
        return;
      }
      var first, second := log.topics[0], log.topics[1];
      if first >= ADDRESS_BOUND || second >= ADDRESS_BOUND || first == ZERO || second == ZERO {
        return;
      }
      var amount := ReadWord(log.data, 0);
      if log.signature.Transfer? && (first == env.probe || second == env.probe) {
        if !probeCreated {
          return;
        }
        if first == env.probe {
          balance := balance - amount;
          if !IsUint(balance) {
            return;
          }
        }
        if second == env.probe {
          balance := balance + amount;
          if !IsUint(balance) {
            return;
          }
        }
        after := ctx.(tokenMoves := ctx.tokenMoves + [Move(first, second, amount)]);
      }
      ok := true;
    }

    method CheckPost(env: Env, ctx: Context, call: ProbeCall, d: PostData) returns (ok: bool)
      requires Shaped(State()) && d.index < 3
      ensures ok <==> PostAdmitted(env, State(), ctx, call, d)
    {
      hide StakeWords, Split, Eligible, Sum;
      ok := false;
      if !call.PostCall? || d.messageId != |messages| + 1 || d.nonce != nonces[d.index]
         || d.fee != FEE || d.distributionHash != env.keccak(StakeWords(stakes))
         || call.nonce != d.nonce || call.text != d.text || call.distributionHash != d.distributionHash {
        return;
      }
      if !(call.validAfter < call.deadline && call.validAfter <= ctx.timestamp < call.deadline)
         || credits[d.index] - stakes[d.index] < FEE {
        return;
      }
      var eligible := Eligible(stakes, d.index);
      if !(0 < eligible <= MAX) {
        return;
      }
      var expected := Split(stakes, d.index);
      ok := d.allocations == expected && d.dust == FEE - Sum(expected) && ctx.tokenMoves == [];
    }

    /** The body of a post event, once its words are read. */
    method PostBranch(env: Env, ctx: Context, d: PostData) returns (ok: bool)
      requires Shaped(State()) && d.index < 3 && |d.allocations| == 3
      modifies this
      ensures Shaped(State())
      ensures var r := ApplyPost(env, old(State()), ctx, d);
        (ok <==> r.Some?) && (ok ==> State() == r.value)
    {
      hide PostAdmitted, Added;
      ok := false;
      if ctx.call.None? {
        return;
      }
      var admitted := CheckPost(env, ctx, ctx.call.value, d);
      if !admitted {
        return;
      }
      PostNonce(env, State(), ctx, ctx.call.value, d);
      credits := credits[d.index := credits[d.index] - FEE];
      credits := Added(credits, d.allocations);
      CreditsFit(env, old(State()), ctx, d, credits);
      if exists i :: 0 <= i < 3 && !IsUint(credits[i]) {
        return;
      }
      dust, total := dust + d.dust, total - d.dust;
      if !IsUint(dust) || !IsUint(total) || !IsUint(d.nonce + 1) {
        return;
      }
      nonces := nonces[d.index := d.nonce + 1];
      messages := messages + [Message(d.messageId, d.index + 1, d.owner, d.epoch, d.nonce, d.text, d.fee,
                                      d.distributionHash, d.allocations, d.dust)];
      ok := true;
    }

    /** The body of a deposit, withdrawal or stake event, once its words are read. */
    method AmountBranch(env: Env, ctx: Context, kind: Kind, d: AmountData) returns (ok: bool)
      requires Shaped(State()) && d.index < 3
      modifies this
      ensures Shaped(State())
      ensures var r := ApplyAmount(env, old(State()), ctx, kind, d);
        (ok <==> r.Some?) && (ok ==> State() == r.value)
    {
      ok := false;
      if ctx.call.None? || !ctx.call.value.AmountCall? || ctx.call.value.kind != kind {
        return;
      }
      var i, unlocked := d.index, credits[d.index] - stakes[d.index];
      if d.amount == 0 || ctx.call.value.amount != d.amount || ctx.sender != d.owner {
        return;
      }
      if kind.Deposit? || kind.Withdraw? {
        var move := if kind.Deposit? then Move(d.owner, env.probe, d.amount) else Move(env.probe, d.owner, d.amount);
        if ctx.tokenMoves != [move] {
          return;
        }
        if kind.Deposit? {
          credits, total := credits[i := credits[i] + d.amount], total + d.amount;
          if !IsUint(credits[i]) || !IsUint(total) {
            return;
          }
        } else {
          if d.amount > unlocked {
            return;
          }
          credits, total := credits[i := credits[i] - d.amount], total - d.amount;
        }
        ok := d.result == credits[i];
      } else {
        if ctx.tokenMoves != [] {
          return;
        }
        if kind.Stake? {
          if d.amount > unlocked || !IsUint(stakes[i] + d.amount) {
            return;
          }
          stakes := stakes[i := stakes[i] + d.amount];
        } else {
          if d.amount > stakes[i] {
            return;
          }
          stakes := stakes[i := stakes[i] - d.amount];
        }
        ok := d.result == stakes[i];
      }
    }

    method ProbeEvent(env: Env, ctx: Context, log: Log) returns (ok: bool, after: Context)
      requires Shaped(State())
      modifies this
      ensures Shaped(State())
      ensures var r := PaidLedger.ProbeEvent(env, old(State()), ctx, log);
        (ok <==> r.Some?) && (ok ==> (State(), after) == r.value)
    {
      hide ApplyPost, ApplyAmount, ReadDynamic, Invariants;
      ok, after := false, ctx.(probeSeen := true);
      if !probeCreated || mintCount != 3 || ctx.target != Some(env.probe) || ctx.probeSeen || ctx.call.None? {
        return;
      }
      var index, owner, epoch;
      if log.signature.Posted? {
        var read := ReadPosted(env.format, log);
        if read.None? {
          return;
        }
        ok := PostBranch(env, ctx, read.value);
        index, owner, epoch := read.value.index, read.value.owner, read.value.epoch;
      } else {
        var kind, read := KindOfEvent(log.signature), ReadAmount(log);
        if kind.None? || read.None? {
          return;
        }
        ok := AmountBranch(env, ctx, kind.value, read.value);
        index, owner, epoch := read.value.index, read.value.owner, read.value.epoch;
      }
      if !ok {
        return;
      }
      ok := Authorized(State(), ctx.call.value, index, owner, epoch);
      if ok {
        ok := CheckInvariants();
      }
    }

    method ReadLog(env: Env, ctx: Context, log: Log) returns (ok: bool, after: Context)
      requires Shaped(State())
      modifies this
      ensures Shaped(State())
      ensures var r := ApplyLog(env, old(State()), ctx, log);
        (ok <==> r.Some?) && (ok ==> (State(), after) == r.value)
    {
      hide PaidLedger.RegistryEvent, PaidLedger.TokenEvent, PaidLedger.ProbeEvent;
      if log.emitter == env.registry {
        ok, after := RegistryEvent(env, ctx, log);
      } else if log.emitter == env.token {
        ok, after := TokenEvent(env, ctx, log);
      } else if log.emitter == env.probe {
        ok, after := ProbeEvent(env, ctx, log);
      } else {
        ok, after := false, ctx;
      }
    }

    /** One transaction of the history: its creation, its call, its events in order, the closing check. */
    method ReadTransaction(env: Env, tx: Transaction) returns (ok: bool)
      requires Shaped(State())
      modifies this
      ensures Shaped(State())
      ensures var r := ApplyTransaction(env, old(State()), tx);
        (ok <==> r.Some?) && (ok ==> State() == r.value)
    {
      hide ApplyLog, Invariants, CreationConfirmed;
      ok := false;
      if !(tx.success || tx.logs == []) || (tx.creation.Some? && (tx.target.Some? || !tx.success))
         || (tx.target.None? && tx.success && tx.creation.None?) {
        return;
      }
      if tx.creation == Some(env.registry) {
        if registryCreated {
          return;
        }
        registryCreated := true;
      }
      if tx.creation == Some(env.probe) {
        if probeCreated || mintCount != 3 {
          return;
        }
        probeCreated := true;
      }
      var call := CallOf(env, State(), tx);
      if call.None? {
        return;
      }
      var ctx := Opening(tx, call.value);
      ghost var created, opening := State(), ctx;
      assert RecordCreation(env, old(State()), tx.creation) == Some(created);
      for k := 0 to |tx.logs|
        invariant Shaped(State()) && ApplyLogs(env, created, opening, tx.logs[..k]) == Some((State(), ctx))
      {
        LogsStep(env, created, opening, tx.logs, k);
        var fits, after := ReadLog(env, ctx, tx.logs[k]);
        if !fits {
          if ApplyLogs(env, created, opening, tx.logs).Some? {
            LogsPrefix(env, created, opening, tx.logs, k + 1);
          }
          return;
        }
        ctx := after;
      }
      assert tx.logs[..|tx.logs|] == tx.logs;
      if (call.value.Some? && !ctx.probeSeen) || !CreationConfirmed(env, State(), tx) {
        return;
      }
      ok := CheckInvariants();
    }
  }
}
