/**
 A history the reader accepts in which a probe call does move the surplus: the probe owns
 the accounts, is sent some tokens, and then deposits them for itself.
 */
module PaidOwnAccount {
  import opened Bytes
  import opened PaidAbi
  import opened PaidHistory
  import opened PaidLedger
  import opened PaidSurplus
  import opened Wrappers

  const STRANGER: Address := 1

  /** Three different contracts, none of them the stranger, and readable selectors. */
  predicate Ordinary(env: Env) {
    && STRANGER < env.registry < ADDRESS_BOUND && STRANGER < env.probe < ADDRESS_BOUND && env.token != ZERO
    && env.registry != env.probe && env.registry != env.token && env.probe != env.token
    && |env.registryRuntimeHash| == 32 && PaidAbi.Distinct(env.format)
  }

  function Mint(env: Env, id: nat): Log {
    Log(env.registry, Transfer, [ZERO, env.probe, id], [])
  }

  function Creation(address: Address, calldata: bytes, logs: seq<Log>): Transaction {
    Transaction(STRANGER, None, Some(address), true, calldata, 0, logs)
  }

  /** The registry is created with the probe as the owner of all three accounts. */
  function CreateRegistry(env: Env): Transaction {
    Creation(env.registry, Word(env.probe) + Word(env.probe), [Mint(env, 1), Mint(env, 2), Mint(env, 3)])
  }

  function CreateProbe(env: Env): Transaction {
    Creation(env.probe, Word(env.registry) + env.registryRuntimeHash, [])
  }

  function TokenTransfer(env: Env, from: Address, amount: nat): Log {
    Log(env.token, Transfer, [from, env.probe], Word(amount))
  }

  function Gift(env: Env, amount: nat): Transaction {
    Transaction(STRANGER, Some(env.token), None, true, [], 0, [TokenTransfer(env, STRANGER, amount)])
  }

  function OwnCall(amount: nat): ProbeCall {
    AmountCall(Deposit, 1, 0, amount)
  }

  function OwnDeposited(env: Env, amount: nat): Log {
    Log(env.probe, Deposited, [1, env.probe], Word(amount) + Word(amount) + Word(0))
  }

  function OwnDeposit(env: Env, amount: nat): Transaction {
    Transaction(env.probe, Some(env.probe), None, true, WriteAmount(env.format, OwnCall(amount)), 0,
                [TokenTransfer(env, env.probe, amount), OwnDeposited(env, amount)])
  }

  function Story(env: Env, amount: nat): seq<Transaction> {
    [CreateRegistry(env), CreateProbe(env), Gift(env, amount)]
  }

  // The ledgers the story passes through.

  function Minted(env: Env): Ledger {
    var owner := Some(env.probe);
    EMPTY.(owners := [owner, owner, owner], registryCreated := true, mintCount := 3)
  }

  function Given(env: Env, amount: nat): Ledger {
    Minted(env).(probeCreated := true, balance := amount)
  }

  function Deposits(env: Env, amount: nat): Ledger {
    Given(env, amount).(credits := [amount as int, 0, 0], total := amount)
  }

  lemma LogsAppend(env: Env, l: Ledger, ctx: Context, logs: seq<Log>, log: Log, mid: Ledger, during: Context)
    requires Shaped(l) && ApplyLogs(env, l, ctx, logs) == Some((mid, during))
    ensures Shaped(mid) && ApplyLogs(env, l, ctx, logs + [log]) == ApplyLog(env, mid, during, log)
  {
    assert (logs + [log])[..|logs|] == logs;
  }

  lemma ReplayAppend(env: Env, txs: seq<Transaction>, tx: Transaction, l: Ledger)
    requires Replay(env, txs) == Some(l)
    ensures Shaped(l) && Replay(env, txs + [tx]) == ApplyTransaction(env, l, tx)
  {
    assert (txs + [tx])[..|txs|] == txs;
  }

  lemma MintRead(env: Env, l: Ledger, ctx: Context, id: nat)
    requires Ordinary(env) && Shaped(l) && l.registryCreated && ctx.call.None? && ctx.creation == Some(env.registry)
    requires 1 <= id <= 3 && l.mintCount == id - 1 && l.owners[id - 1].None?
    ensures ApplyLog(env, l, ctx, Mint(env, id))
         == Some((l.(owners := l.owners[id - 1 := Some(env.probe)], mintCount := id),
                  ctx.(lastRegistry := Some((Transferred, id - 1, ZERO)))))
  {
  }

  lemma MintsRead(env: Env, ctx: Context)
    requires Ordinary(env) && ctx.call.None? && ctx.creation == Some(env.registry)
    ensures ApplyLogs(env, EMPTY.(registryCreated := true), ctx, CreateRegistry(env).logs)
         == Some((Minted(env), ctx.(lastRegistry := Some((Transferred, 2, ZERO)))))
  {
    hide ApplyLog;
    var start, owner := EMPTY.(registryCreated := true), Some(env.probe);
    var l1 := start.(owners := start.owners[0 := owner], mintCount := 1);
    var l2 := l1.(owners := l1.owners[1 := owner], mintCount := 2);
    var c1 := ctx.(lastRegistry := Some((Transferred, 0, ZERO)));
    var c2 := ctx.(lastRegistry := Some((Transferred, 1, ZERO)));
    LogsAppend(env, start, ctx, [], Mint(env, 1), start, ctx);
    MintRead(env, start, ctx, 1);
    assert [] + [Mint(env, 1)] == [Mint(env, 1)];
    LogsAppend(env, start, ctx, [Mint(env, 1)], Mint(env, 2), l1, c1);
    MintRead(env, l1, c1, 2);
    assert [Mint(env, 1)] + [Mint(env, 2)] == [Mint(env, 1), Mint(env, 2)];
    LogsAppend(env, start, ctx, [Mint(env, 1), Mint(env, 2)], Mint(env, 3), l2, c2);
    MintRead(env, l2, c2, 3);
    assert [Mint(env, 1), Mint(env, 2)] + [Mint(env, 3)] == CreateRegistry(env).logs;
    assert l2.owners[2 := owner] == Minted(env).owners;
  }

  lemma RegistryCreated(env: Env)
    requires Ordinary(env)
    ensures ApplyTransaction(env, EMPTY, CreateRegistry(env)) == Some(Minted(env))
  {
    hide ApplyLogs;
    MintsRead(env, Opening(CreateRegistry(env), None));
    WordBound();
    BigValue(env.probe, 32);
    var calldata := CreateRegistry(env).calldata;
    assert calldata[0..32] == Word(env.probe) && calldata[32..] == Word(env.probe);
    SumThree(Minted(env).credits);
  }

  lemma ProbeCreated(env: Env)
    requires Ordinary(env)
    ensures ApplyTransaction(env, Minted(env), CreateProbe(env)) == Some(Minted(env).(probeCreated := true))
  {
    WordBound();
    BigValue(env.registry, 32);
    var calldata := CreateProbe(env).calldata;
    assert calldata[0..32] == Word(env.registry) && calldata[32..] == env.registryRuntimeHash;
    SumThree(Minted(env).credits);
  }

  /** Tokens sent to the probe arrive, unless it is the probe that sends them. */
  lemma TransferRead(env: Env, l: Ledger, ctx: Context, from: Address, amount: nat)
    requires Ordinary(env) && Shaped(l) && l.probeCreated && !ctx.probeSeen && from in {STRANGER, env.probe}
    requires amount < WORD_BOUND && l.balance == (if from == env.probe then amount else 0)
    ensures ApplyLog(env, l, ctx, TokenTransfer(env, from, amount))
         == Some((l.(balance := amount), ctx.(tokenMoves := ctx.tokenMoves + [Move(from, env.probe, amount)])))
  {
    WordBack(Word(amount), 0, amount);
  }

  lemma OneLog(env: Env, l: Ledger, ctx: Context, log: Log)
    requires Shaped(l)
    ensures ApplyLogs(env, l, ctx, [log]) == ApplyLog(env, l, ctx, log)
  {
    LogsAppend(env, l, ctx, [], log, l, ctx);
    assert [] + [log] == [log];
  }

  lemma GiftReceived(env: Env, amount: nat)
    requires Ordinary(env) && amount < WORD_BOUND
    ensures ApplyTransaction(env, Minted(env).(probeCreated := true), Gift(env, amount)) == Some(Given(env, amount))
  {
    hide ApplyLogs, ApplyLog;
    var l, ctx := Minted(env).(probeCreated := true), Opening(Gift(env, amount), None);
    OneLog(env, l, ctx, TokenTransfer(env, STRANGER, amount));
    TransferRead(env, l, ctx, STRANGER, amount);
    SumThree(l.credits);
  }

  lemma DepositRead(env: Env, ctx: Context, amount: nat)
    requires Ordinary(env) && 0 < amount < WORD_BOUND && ctx.sender == env.probe && ctx.target == Some(env.probe)
    requires ctx.call == Some(OwnCall(amount)) && !ctx.probeSeen && ctx.tokenMoves == [Move(env.probe, env.probe, amount)]
    ensures ApplyLog(env, Given(env, amount), ctx, OwnDeposited(env, amount))
         == Some((Deposits(env, amount), ctx.(probeSeen := true)))
  {
    var l, log := Given(env, amount), OwnDeposited(env, amount);
    ThreeWords(log.data, amount, amount, 0);
    var d := AmountData(0, env.probe, amount, amount, 0);
    assert ReadAmount(log) == Some(d);
    assert l.credits[0 := l.credits[0] + amount] == Deposits(env, amount).credits;
    assert ApplyAmount(env, l, ctx, Deposit, d) == Some(Deposits(env, amount));
    DepositsSound(env, amount);
    hide ApplyAmount, ReadAmount, Invariants;
  }

  lemma DepositsSound(env: Env, amount: nat)
    requires amount < WORD_BOUND
    ensures Invariants(Deposits(env, amount))
  {
    SumThree(Deposits(env, amount).credits);
  }

  lemma DepositAccepted(env: Env, amount: nat)
    requires Ordinary(env) && 0 < amount < WORD_BOUND
    ensures ApplyTransaction(env, Given(env, amount), OwnDeposit(env, amount)) == Some(Deposits(env, amount))
  {
    hide ApplyLog, Invariants, ReadCall, Writable, WriteAmount;
    var l, ctx := Given(env, amount), Opening(OwnDeposit(env, amount), Some(OwnCall(amount)));
    OwnCallRead(env, amount);
    var transfer, deposited := TokenTransfer(env, env.probe, amount), OwnDeposited(env, amount);
    var moved := ctx.(tokenMoves := ctx.tokenMoves + [Move(env.probe, env.probe, amount)]);
    OneLog(env, l, ctx, transfer);
    TransferRead(env, l, ctx, env.probe, amount);
    LogsAppend(env, l, ctx, [transfer], deposited, l, moved);
    DepositRead(env, moved, amount);
    DepositsSound(env, amount);
    assert [transfer] + [deposited] == OwnDeposit(env, amount).logs;
    hide ApplyLogs;
  }

  lemma OwnCallRead(env: Env, amount: nat)
    requires Ordinary(env) && amount < WORD_BOUND
    ensures ReadCall(env.format, WriteAmount(env.format, OwnCall(amount))) == Some(OwnCall(amount))
  {
    AmountBack(env.format, OwnCall(amount));
  }

  lemma StoryRead(env: Env, amount: nat)
    requires Ordinary(env) && amount < WORD_BOUND
    ensures Replay(env, Story(env, amount)) == Some(Given(env, amount))
  {
    hide ApplyTransaction, CreateRegistry, CreateProbe, Gift;
    var a, b, c := CreateRegistry(env), CreateProbe(env), Gift(env, amount);
    RegistryCreated(env);
    ReplayAppend(env, [], a, EMPTY);
    assert [] + [a] == [a] && [a] + [b] == [a, b] && [a, b] + [c] == Story(env, amount);
    ProbeCreated(env);
    ReplayAppend(env, [a], b, Minted(env));
    GiftReceived(env, amount);
    ReplayAppend(env, [a, b], c, Minted(env).(probeCreated := true));
  }

  /**
   With any contracts and any amount the reader accepts the story, and the deposit at its end
   moves the whole surplus into the probe's own credit.
   */
  lemma OwnDepositMovesTheSurplus(env: Env, amount: nat)
    requires Ordinary(env) && 0 < amount < WORD_BOUND
    ensures var before, after := Replay(env, Story(env, amount)), Replay(env, Story(env, amount) + [OwnDeposit(env, amount)]);
      && before.Some? && after.Some? && CallsProbe(env, OwnDeposit(env, amount))
      && Surplus(before.value) == amount && Surplus(after.value) == 0 && after.value.credits[0] == amount
      && AnyOwnAccount(env, OwnDeposit(env, amount).logs)
  {
    hide ApplyTransaction;
    StoryRead(env, amount);
    DepositAccepted(env, amount);
    ReplayAppend(env, Story(env, amount), OwnDeposit(env, amount), Given(env, amount));
    CallSurplus(env, Given(env, amount), OwnDeposit(env, amount));
  }
}
