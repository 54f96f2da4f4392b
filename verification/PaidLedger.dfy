/**
 The ledger that the paid-action reader rebuilds from registry, token and probe events.
 Event signatures are an enumeration in place of their hashes, and topics are numbers;
 event data is bytes. A rejected event ends the reading, so it has no resulting ledger.
 */
module PaidLedger {
  import opened Bytes
  import opened Sums
  import opened PaidAbi
  import opened Wrappers

  type Address = nat

  const MAX: int := 0xffffffff_ffffffff_ffffffff_ffffffff_ffffffff_ffffffff_ffffffff_ffffffff
  const FEE: int := 5000_000000000_000000000
  const MAX_STAKE: int := MAX / FEE
  const ADDRESS_BOUND: nat := 0x1_00000000_00000000_00000000_00000000_00000000
  const ZERO: Address := 0

  datatype Signature =
    | Transfer | Approval | ApprovalForAll | Deposited | Withdrawn | Staked | Unstaked | Posted | Unknown

  /** topics are the indexed words after the signature. */
  datatype Log = Log(emitter: Address, signature: Signature, topics: seq<nat>, data: bytes)

  datatype Transaction = Transaction(sender: Address, target: Option<Address>, creation: Option<Address>,
                                     success: bool, calldata: bytes, timestamp: nat, logs: seq<Log>)

  datatype Env = Env(registry: Address, probe: Address, token: Address, registryRuntimeHash: bytes,
                     format: Format, keccak: bytes -> bytes)

  datatype Message = Message(id: nat, accountId: nat, owner: Address, epoch: nat, nonce: nat, text: bytes,
                             fee: nat, distributionHash: bytes, allocations: seq<nat>, dust: nat)

  datatype Move = Move(from: Address, to: Address, amount: nat)

  datatype RegistryNote = Clear | Approve | Transferred

  datatype Ledger = Ledger(
    owners: seq<Option<Address>>, epochs: seq<int>, credits: seq<int>, stakes: seq<int>, nonces: seq<int>,
    total: int, dust: int, balance: int, messages: seq<Message>,
    registryCreated: bool, probeCreated: bool, mintCount: int)

  datatype Context = Context(
    sender: Address, target: Option<Address>, creation: Option<Address>, call: Option<ProbeCall>, timestamp: nat,
    probeSeen: bool, tokenMoves: seq<Move>, lastRegistry: Option<(RegistryNote, nat, Address)>)

  const EMPTY: Ledger :=
    Ledger([None, None, None], [0, 0, 0], [0, 0, 0], [0, 0, 0], [0, 0, 0], 0, 0, 0, [], false, false, 0)

  predicate Shaped(l: Ledger) {
    |l.owners| == |l.epochs| == |l.credits| == |l.stakes| == |l.nonces| == 3
  }

  predicate IsUint(n: int) {
    0 <= n <= MAX
  }

  function ReadAddress(word: nat): (r: Option<Address>)
    ensures r.Some? ==> r.value == word < ADDRESS_BOUND
  {
    if word < ADDRESS_BOUND then Some(word) else None
  }

  /** An account identifier as a list position. */
  function Account(id: nat): (r: Option<nat>)
    ensures r.Some? <==> 1 <= id <= 3
    ensures r.Some? ==> r.value == id - 1
  {
    if 1 <= id <= 3 then Some(id - 1) else None
  }

  predicate Invariants(l: Ledger)
    requires Shaped(l)
  {
    && (forall i :: 0 <= i < 3 ==> IsUint(l.credits[i]) && IsUint(l.stakes[i]) && IsUint(l.nonces[i]) && IsUint(l.epochs[i]))
    && IsUint(l.total) && IsUint(l.dust) && IsUint(l.balance)
    && l.total == Sum(l.credits)
    && (forall i :: 0 <= i < 3 ==> l.stakes[i] <= l.credits[i] && l.stakes[i] <= MAX_STAKE)
    && l.total + l.dust <= MAX && l.balance >= l.total + l.dust
  }

  // Registry and token events.

  function RegistryTransfer(env: Env, l: Ledger, ctx: Context, index: nat, first: Address, second: Address): (r: Option<Ledger>)
    requires Shaped(l) && index < 3
    ensures r.Some? ==> Shaped(r.value)
  {
    var _ :- Check(second != ZERO);
    if first == ZERO then
      var _ :- Check(ctx.creation == Some(env.registry) && l.owners[index].None? && index == l.mintCount);
      Some(l.(owners := l.owners[index := Some(second)], mintCount := l.mintCount + 1))
    else
      var _ :- Check(l.mintCount == 3 && l.owners[index] == Some(first));
      var _ :- Check(ctx.lastRegistry == Some((Clear, index, first)));
      var _ :- Check(IsUint(l.epochs[index] + 1));
      Some(l.(owners := l.owners[index := Some(second)], epochs := l.epochs[index := l.epochs[index] + 1]))
  }

  function RegistryEvent(env: Env, l: Ledger, ctx: Context, log: Log): (r: Option<(Ledger, Context)>)
    requires Shaped(l)
    ensures r.Some? ==> Shaped(r.value.0)
  {
    var _ :- Check(l.registryCreated && ctx.call.None?);
    if log.signature.ApprovalForAll? then
      var _ :- Check(|log.topics| == 2 && |log.data| == 32);
      var owner :- ReadAddress(log.topics[0]);
      var operator :- ReadAddress(log.topics[1]);
      var _ :- Check(owner != ZERO && owner != operator && ReadWord(log.data, 0) in {0, 1});
      Some((l, ctx.(lastRegistry := None)))
    else
      var _ :- Check((log.signature.Transfer? || log.signature.Approval?) && |log.topics| == 3 && log.data == []);
      var first :- ReadAddress(log.topics[0]);
      var second :- ReadAddress(log.topics[1]);
      var index :- Account(log.topics[2]);
      if log.signature.Approval? then
        var _ :- Check(l.owners[index] == Some(first));
        Some((l, ctx.(lastRegistry := Some((if second == ZERO then Clear else Approve, index, first)))))
      else
        var moved :- RegistryTransfer(env, l, ctx, index, first, second);
        Some((moved, ctx.(lastRegistry := Some((Transferred, index, first)))))
  }

  function TokenEvent(env: Env, l: Ledger, ctx: Context, log: Log): (r: Option<(Ledger, Context)>)
    requires Shaped(l)
    ensures r.Some? ==> Shaped(r.value.0)
  {
    var _ :- Check(!ctx.probeSeen);
    var _ :- Check(|log.topics| == 2 && |log.data| == 32 && (log.signature.Transfer? || log.signature.Approval?));
    var first :- ReadAddress(log.topics[0]);
    var second :- ReadAddress(log.topics[1]);
    var _ :- Check(first != ZERO && second != ZERO);
    var amount := ReadWord(log.data, 0);
    if log.signature.Approval? || (first != env.probe && second != env.probe) then Some((l, ctx)) else
    var _ :- Check(l.probeCreated);
    var spent := l.balance - if first == env.probe then amount else 0;
    var _ :- Check(first == env.probe ==> IsUint(spent));
    var gained := spent + if second == env.probe then amount else 0;
    var _ :- Check(second == env.probe ==> IsUint(gained));
    Some((l.(balance := gained), ctx.(tokenMoves := ctx.tokenMoves + [Move(first, second, amount)])))
  }

  // Probe events.

  datatype PostData = PostData(messageId: nat, index: nat, owner: Address, epoch: nat, nonce: nat, fee: nat,
                               distributionHash: bytes, allocations: seq<nat>, dust: nat, text: bytes)

  datatype AmountData = AmountData(index: nat, owner: Address, amount: nat, result: nat, epoch: nat)

  function ReadPosted(f: Format, log: Log): (r: Option<PostData>)
    ensures r.Some? ==> r.value.index < 3 && |r.value.allocations| == 3
  {
    var _ :- Check(|log.topics| == 3 && |log.data| >= 320);
    var index :- Account(log.topics[1]);
    var owner :- ReadAddress(log.topics[2]);
    var _ :- Check(ReadWord(log.data, 2) == 288);
    var (text, end) :- ReadDynamic(log.data, 288, MAX_TEXT);
    var _ :- Check(end == |log.data| && ReadableText(f, text));
    Some(PostData(log.topics[0], index, owner, ReadWord(log.data, 0), ReadWord(log.data, 1), ReadWord(log.data, 3),
                  log.data[128..160], [ReadWord(log.data, 5), ReadWord(log.data, 6), ReadWord(log.data, 7)],
                  ReadWord(log.data, 8), text))
  }

  function ReadAmount(log: Log): (r: Option<AmountData>)
    ensures r.Some? ==> r.value.index < 3
  {
    var _ :- Check(|log.topics| == 2 && |log.data| == 96);
    var index :- Account(log.topics[0]);
    var owner :- ReadAddress(log.topics[1]);
    Some(AmountData(index, owner, ReadWord(log.data, 0), ReadWord(log.data, 1), ReadWord(log.data, 2)))
  }

  function StakeWords(stakes: seq<int>): bytes {
    if stakes == [] then [] else Word(if stakes[0] < 0 then 0 else stakes[0]) + StakeWords(stakes[1..])
  }

  /** The stake that shares in a post: everybody's but the payer's. */
  function Eligible(stakes: seq<int>, index: nat): int
    requires index < |stakes|
  {
    Sum(stakes[index := 0])
  }

  /** What each account is paid out of one fee. */
  function Split(stakes: seq<int>, index: nat): (r: seq<int>)
    requires index < |stakes| && Eligible(stakes, index) != 0
    ensures |r| == |stakes|
  {
    seq(|stakes|, i requires 0 <= i < |stakes| =>
      if i == index then 0 else FEE * stakes[i] / Eligible(stakes, index))
  }

  function Added(credits: seq<int>, amounts: seq<int>): (r: seq<int>)
    requires |credits| == |amounts|
    ensures |r| == |credits|
  {
    seq(|credits|, i requires 0 <= i < |credits| => credits[i] + amounts[i])
  }

  /** A post event says what the calldata asked for and what the ledger owes for it. */
  predicate PostAdmitted(env: Env, l: Ledger, ctx: Context, call: ProbeCall, d: PostData)
    requires Shaped(l) && d.index < 3
  {
    && call.PostCall? && d.messageId == |l.messages| + 1 && d.nonce == l.nonces[d.index]
    && d.fee == FEE && d.distributionHash == env.keccak(StakeWords(l.stakes))
    && call.nonce == d.nonce && call.text == d.text && call.distributionHash == d.distributionHash
    && call.validAfter < call.deadline && call.validAfter <= ctx.timestamp < call.deadline
    && l.credits[d.index] - l.stakes[d.index] >= FEE
    && 0 < Eligible(l.stakes, d.index) <= MAX && d.allocations == Split(l.stakes, d.index)
    && d.dust == FEE - Sum(Split(l.stakes, d.index)) && ctx.tokenMoves == []
  }

  function ApplyPost(env: Env, l: Ledger, ctx: Context, d: PostData): (r: Option<Ledger>)
    requires Shaped(l) && d.index < 3 && |d.allocations| == 3
    ensures r.Some? ==> Shaped(r.value)
  {
    var call :- ctx.call;
    var _ :- Check(PostAdmitted(env, l, ctx, call, d));
    var charged := l.credits[d.index := l.credits[d.index] - FEE];
    var credits := Added(charged, d.allocations);
    var _ :- Check((forall i :: 0 <= i < 3 ==> IsUint(credits[i])) && IsUint(l.dust + d.dust)
                   && IsUint(l.total - d.dust) && IsUint(l.nonces[d.index] + 1));
    Some(l.(credits := credits, dust := l.dust + d.dust, total := l.total - d.dust,
            nonces := l.nonces[d.index := l.nonces[d.index] + 1],
            messages := l.messages + [Message(d.messageId, d.index + 1, d.owner, d.epoch, d.nonce, d.text, d.fee,
                                              d.distributionHash, d.allocations, d.dust)]))
  }

  function ApplyAmount(env: Env, l: Ledger, ctx: Context, kind: Kind, d: AmountData): (r: Option<Ledger>)
    requires Shaped(l) && d.index < 3
    ensures r.Some? ==> Shaped(r.value)
  {
    var call :- ctx.call;
    var _ :- Check(call.AmountCall? && call.kind == kind);
    var _ :- Check(d.amount > 0 && call.amount == d.amount && ctx.sender == d.owner);
    var i := d.index;
    var unlocked := l.credits[i] - l.stakes[i];
    match kind
    case Deposit =>
      var _ :- Check(ctx.tokenMoves == [Move(d.owner, env.probe, d.amount)]);
      var _ :- Check(IsUint(l.credits[i] + d.amount) && IsUint(l.total + d.amount));
      var _ :- Check(d.result == l.credits[i] + d.amount);
      Some(l.(credits := l.credits[i := l.credits[i] + d.amount], total := l.total + d.amount))
    case Withdraw =>
      var _ :- Check(ctx.tokenMoves == [Move(env.probe, d.owner, d.amount)] && d.amount <= unlocked);
      var _ :- Check(d.result == l.credits[i] - d.amount);
      Some(l.(credits := l.credits[i := l.credits[i] - d.amount], total := l.total - d.amount))
    case Stake =>
      var _ :- Check(ctx.tokenMoves == [] && d.amount <= unlocked && IsUint(l.stakes[i] + d.amount));
      var _ :- Check(d.result == l.stakes[i] + d.amount);
      Some(l.(stakes := l.stakes[i := l.stakes[i] + d.amount]))
    case Unstake =>
      var _ :- Check(ctx.tokenMoves == [] && d.amount <= l.stakes[i]);
      var _ :- Check(d.result == l.stakes[i] - d.amount);
      Some(l.(stakes := l.stakes[i := l.stakes[i] - d.amount]))
  }

  function KindOfEvent(s: Signature): Option<Kind> {
    match s
    case Deposited => Some(Deposit)
    case Withdrawn => Some(Withdraw)
    case Staked => Some(Stake)
    case Unstaked => Some(Unstake)
    case _ => None
  }

  /** The probe acted for the account's owner, in the account's epoch, as the calldata asked. */
  predicate Authorized(l: Ledger, call: ProbeCall, index: nat, owner: Address, epoch: nat)
    requires Shaped(l) && index < 3
  {
    l.owners[index] == Some(owner) && l.epochs[index] == epoch && call.accountId == index + 1 && call.epoch == epoch
  }

  /** The branch arithmetic of a probe event, before the closing invariant check. */
  function ProbeBranch(env: Env, l: Ledger, ctx: Context, log: Log): (r: Option<(Ledger, Context)>)
    requires Shaped(l)
    ensures r.Some? ==> Shaped(r.value.0)
  {
    var _ :- Check(l.probeCreated && l.mintCount == 3 && ctx.target == Some(env.probe) && !ctx.probeSeen);
    var call :- ctx.call;
    if log.signature.Posted? then
      var d :- ReadPosted(env.format, log);
      var next :- ApplyPost(env, l, ctx, d);
      var _ :- Check(Authorized(next, call, d.index, d.owner, d.epoch));
      Some((next, ctx.(probeSeen := true)))
    else
      var kind :- KindOfEvent(log.signature);
      var d :- ReadAmount(log);
      var next :- ApplyAmount(env, l, ctx, kind, d);
      var _ :- Check(Authorized(next, call, d.index, d.owner, d.epoch));
      Some((next, ctx.(probeSeen := true)))
  }

  function ProbeEvent(env: Env, l: Ledger, ctx: Context, log: Log): (r: Option<(Ledger, Context)>)
    requires Shaped(l)
    ensures r.Some? ==> Shaped(r.value.0)
  {
    var next :- ProbeBranch(env, l, ctx, log);
    var _ :- Check(Invariants(next.0));
    Some(next)
  }

  function ApplyLog(env: Env, l: Ledger, ctx: Context, log: Log): (r: Option<(Ledger, Context)>)
    requires Shaped(l)
    ensures r.Some? ==> Shaped(r.value.0)
  {
    if log.emitter == env.registry then RegistryEvent(env, l, ctx, log)
    else if log.emitter == env.token then TokenEvent(env, l, ctx, log)
    else if log.emitter == env.probe then ProbeEvent(env, l, ctx, log)
    else None
  }

  function ApplyLogs(env: Env, l: Ledger, ctx: Context, logs: seq<Log>): (r: Option<(Ledger, Context)>)
    requires Shaped(l)
    ensures r.Some? ==> Shaped(r.value.0)
  {
    if logs == [] then Some((l, ctx)) else
    var before :- ApplyLogs(env, l, ctx, logs[..|logs| - 1]);
    ApplyLog(env, before.0, before.1, logs[|logs| - 1])
  }

  // Transactions.

  /** The creations a transaction records before its events are read. */
  function RecordCreation(env: Env, l: Ledger, creation: Option<Address>): (r: Option<Ledger>)
    requires Shaped(l)
    ensures r.Some? ==> Shaped(r.value)
  {
    var _ :- Check(creation == Some(env.registry) ==> !l.registryCreated);
    var l1 := if creation == Some(env.registry) then l.(registryCreated := true) else l;
    var _ :- Check(creation == Some(env.probe) ==> !l.probeCreated && l.mintCount == 3);
    Some(if creation == Some(env.probe) then l1.(probeCreated := true) else l1)
  }

  predicate CreationConfirmed(env: Env, l: Ledger, tx: Transaction)
    requires Shaped(l)
  {
    var n := |tx.calldata|;
    && (tx.creation == Some(env.registry) ==>
         && l.mintCount == 3 && l.owners[0] == l.owners[1] && |tx.logs| == 3 && 64 <= n
         && Some(FromBig(tx.calldata[n - 64..n - 32])) == l.owners[0] && Some(FromBig(tx.calldata[n - 32..])) == l.owners[2])
    && (tx.creation == Some(env.probe) ==>
         && tx.logs == [] && 64 <= n
         && FromBig(tx.calldata[n - 64..n - 32]) == env.registry && tx.calldata[n - 32..] == env.registryRuntimeHash)
  }

  /** The probe call a transaction makes, if it makes one and it can be read. */
  function CallOf(env: Env, l: Ledger, tx: Transaction): (r: Option<Option<ProbeCall>>) {
    if !tx.success || tx.target != Some(env.probe) then Some(None) else
    var _ :- Check(l.probeCreated);
    var call :- ReadCall(env.format, tx.calldata);
    Some(Some(call))
  }

  function Opening(tx: Transaction, call: Option<ProbeCall>): Context {
    Context(tx.sender, tx.target, tx.creation, call, tx.timestamp, false, [], None)
  }

  function ApplyTransaction(env: Env, l: Ledger, tx: Transaction): (r: Option<Ledger>)
    requires Shaped(l)
    ensures r.Some? ==> Shaped(r.value)
  {
    var _ :- Check(tx.success || tx.logs == []);
    var _ :- Check(tx.creation.Some? ==> tx.target.None? && tx.success);
    var _ :- Check(tx.target.None? && tx.success ==> tx.creation.Some?);
    var created :- RecordCreation(env, l, tx.creation);
    var call :- CallOf(env, created, tx);
    var done :- ApplyLogs(env, created, Opening(tx, call), tx.logs);
    var _ :- Check(call.Some? ==> done.1.probeSeen);
    var _ :- Check(CreationConfirmed(env, done.0, tx) && Invariants(done.0));
    Some(done.0)
  }

  function Replay(env: Env, txs: seq<Transaction>): (r: Option<Ledger>)
    ensures r.Some? ==> Shaped(r.value)
  {
    if txs == [] then Some(EMPTY) else
    var before :- Replay(env, txs[..|txs| - 1]);
    ApplyTransaction(env, before, txs[|txs| - 1])
  }

  /** A whole history, which has to contain both creations and all three accounts. */
  function Rebuild(env: Env, txs: seq<Transaction>): (r: Option<Ledger>)
    ensures r.Some? ==> Shaped(r.value)
  {
    var l :- Replay(env, txs);
    var _ :- Check(l.registryCreated && l.probeCreated && l.mintCount == 3);
    Some(l)
  }
}
