/**
 The four staking models as the objects they are: fields updated in place, checks in
 the order they are made. Each method is tied to the step function proved about above.
 */
module StakingModels {
  import opened Sums
  import opened StakingFixed
  import opened StakingEager
  import StakingCheckpoint
  import StakingRational
  import opened Wrappers

  /** The integers of a list are all in the range a stake may have. */
  method AllStakes(stakes: seq<int>) returns (ok: bool)
    ensures ok <==> forall i :: 0 <= i < |stakes| ==> 0 <= stakes[i] <= STAKE_CAP
  {
    for i := 0 to |stakes|
      invariant forall j :: 0 <= j < i ==> 0 <= stakes[j] <= STAKE_CAP
    {
      if !(0 <= stakes[i] <= STAKE_CAP) {
        return false;
      }
    }
    return true;
  }

  method Total(stakes: seq<int>) returns (total: int)
    ensures total == Sum(stakes)
  {
    total := 0;
    for i := 0 to |stakes|
      invariant total == Sum(stakes[..i])
    {
      SumPrefix(stakes, i);
      total := total + stakes[i];
    }
    assert stakes[..|stakes|] == stakes;
  }

  class Fixed {
    var stakes: seq<int>
    var total: int
    var index: int
    var credit: seq<int>
    var debt: seq<int>
    var funded: int
    var paid: int
    var unassigned: int

    ghost function State(): State
      reads this
    {
      StakingFixed.State(stakes, total, index, credit, debt, funded, paid, unassigned)
    }

    constructor FromChecked(stakes: seq<int>, total: int)
      ensures State() == StakingFixed.State(stakes, total, 0, seq(|stakes|, _ => 0), seq(|stakes|, _ => 0), 0, 0, 0)
    {
      this.stakes, this.total, index := stakes, total, 0;
      credit, debt := seq(|stakes|, _ => 0), seq(|stakes|, _ => 0);
      funded, paid, unassigned := 0, 0, 0;
    }

    /** Construction, which refuses stakes out of range and too large a total. */
    static method Create(stakes: seq<int>) returns (model: Fixed?, r: Result<int, Error>)
      ensures r == (if stakes == [] || exists i :: 0 <= i < |stakes| && !(0 <= stakes[i] <= STAKE_CAP) then Err(StakeRange)
                    else if Sum(stakes) > TOTAL_CAP then Err(TotalStake) else Ok(0))
      ensures r.Ok? <==> model != null
      ensures model != null ==> fresh(model) && Opened(model.State(), stakes) && Fresh(stakes) == Ok(model.State())
    {
      var inRange := AllStakes(stakes);
      if stakes == [] || !inRange {
        return null, Err(StakeRange);
      }
      var total := Total(stakes);
      if total > TOTAL_CAP {
        return null, Err(TotalStake);
      }
      model := new Fixed.FromChecked(stakes, total);
      r := Ok(0);
    }

    method ReadPending(i: nat) returns (r: Result<int, Error>)
      requires Names(State(), i)
      ensures r == Pending(State(), i)
    {
      var gained := stakes[i] * index - debt[i];
      if !IsUint(gained) {
        return Err(Uint256);
      }
      if !IsUint(credit[i] + gained) {
        return Err(Uint256);
      }
      r := Ok(credit[i] + gained);
    }

    method SetStake(i: nat, value: int) returns (r: Result<int, Error>)
      requires Names(State(), i)
      modifies this
      ensures (State(), r) == SetStakeStep(old(State()), i, value)
    {
      if !(0 <= value <= STAKE_CAP) {
        return Err(StakeRange);
      }
      var newTotal := total - stakes[i] + value;
      if newTotal > TOTAL_CAP {
        return Err(TotalStake);
      }
      var accrued := ReadPending(i);
      if accrued.Err? {
        return accrued;
      }
      var newDebt := value * index;
      if !IsUint(newDebt) {
        return Err(Uint256);
      }
      credit := credit[i := accrued.value];
      debt := debt[i := newDebt];
      total := newTotal;
      stakes := stakes[i := value];
      r := Ok(0);
    }

    method Post(payer: nat, fee: int) returns (r: Result<int, Error>)
      requires Names(State(), payer)
      modifies this
      ensures (State(), r) == PostStep(old(State()), payer, fee)
    {
      if fee <= 0 {
        return Err(FeeRange);
      }
      var scaled := fee * Q;
      if !IsUint(scaled) {
        return Err(Uint256);
      }
      var eligible := total - stakes[payer];
      if eligible <= 0 {
        return Err(NoEligibleStake);
      }
      var delta := scaled / eligible;
      if delta <= 0 {
        return Err(ZeroIncrement);
      }
      var newIndex := index + delta;
      if newIndex > INDEX_CAP {
        return Err(StakingFixed.Error.IndexCap);
      }
      var newFunded, dust := funded + scaled, unassigned + scaled - delta * eligible;
      if !IsUint(newFunded) || !IsUint(dust) {
        return Err(Uint256);
      }
      var accrued := ReadPending(payer);
      if accrued.Err? {
        return accrued;
      }
      var newDebt := stakes[payer] * newIndex;
      if !IsUint(newDebt) {
        return Err(Uint256);
      }
      index, funded, unassigned := newIndex, newFunded, dust;
      credit := credit[payer := accrued.value];
      debt := debt[payer := newDebt];
      r := Ok(0);
    }

    /** The credit is written before the debt is checked, as the original does. */
    method Claim(i: nat) returns (r: Result<int, Error>)
      requires Names(State(), i)
      modifies this
      ensures (State(), r) == ClaimStep(old(State()), i)
      ensures old(Solvent(State())) ==> r.Ok? && Solvent(State())
    {
      if Solvent(State()) {
        ClaimSolvent(State(), i);
      }
      var accrued := ReadPending(i);
      if accrued.Err? {
        return accrued;
      }
      var whole, remainder := accrued.value / Q, accrued.value % Q;
      var newPaid := paid + whole * Q;
      if !IsUint(newPaid) {
        return Err(Uint256);
      }
      credit := credit[i := remainder];
      var newDebt := stakes[i] * index;
      if !IsUint(newDebt) {
        return Err(Uint256);
      }
      debt := debt[i := newDebt];
      paid := newPaid;
      r := Ok(whole);
    }
  }

  class Eager {
    var stakes: seq<int>
    var rewards: seq<int>
    var unassigned: int
    var funded: int
    var paid: int

    ghost function State(): EagerState
      reads this
    {
      EagerState(stakes, rewards, unassigned, funded, paid)
    }

    constructor (stakes: seq<int>)
      ensures State() == EagerFresh(stakes)
    {
      this.stakes, rewards := stakes, seq(|stakes|, _ => 0);
      unassigned, funded, paid := 0, 0, 0;
    }

    method EligibleStake(payer: nat) returns (eligible: int)
      requires |stakes| == |rewards|
      ensures eligible == Sum(Others(stakes, payer))
    {
      eligible := 0;
      var others := Others(stakes, payer);
      for i := 0 to |stakes|
        invariant eligible == Sum(others[..i])
      {
        SumPrefix(others, i);
        if i != payer {
          eligible := eligible + stakes[i];
        }
      }
      assert others[..|stakes|] == others;
    }

    /** Pays the recipients one at a time, counting what has been handed out. */
    method PayRecipients(payer: nat, increment: int) returns (handedOut: int)
      requires |stakes| == |rewards|
      modifies this`rewards
      ensures rewards == Credited(old(rewards), stakes, payer, increment)
      ensures handedOut == Sum(Others(stakes, payer)) * increment
    {
      handedOut := 0;
      ghost var others := Others(stakes, payer);
      for i := 0 to |stakes|
        invariant |rewards| == |stakes|
        invariant forall j :: 0 <= j < i ==> rewards[j] == Credited(old(rewards), stakes, payer, increment)[j]
        invariant forall j :: i <= j < |stakes| ==> rewards[j] == old(rewards)[j]
        invariant handedOut == Sum(others[..i]) * increment
      {
        SumPrefix(others, i);
        SharedIncrement(Sum(others[..i]), others[i], increment);
        if i != payer {
          var amount := stakes[i] * increment;
          rewards := rewards[i := rewards[i] + amount];
          handedOut := handedOut + amount;
        }
      }
      assert others[..|stakes|] == others;
    }

    method Post(payer: nat, fee: int) returns (r: EagerResult)
      requires |stakes| == |rewards|
      modifies this
      ensures (State(), r) == EagerPost(old(State()), payer, fee)
    {
      var eligible := EligibleStake(payer);
      if eligible == 0 {
        return DivisionByZero;
      }
      var increment := FloorDiv(fee * Q, eligible);
      var handedOut := PayRecipients(payer, increment);
      unassigned := unassigned + fee * Q - handedOut;
      funded := funded + fee * Q;
      r := Paid(0);
    }

    method Claim(i: nat) returns (units: int)
      requires i < |stakes| == |rewards|
      modifies this
      ensures (State(), Paid(units)) == EagerStep(old(State()), Op.Claim(i))
    {
      units := rewards[i] / Q;
      rewards := rewards[i := rewards[i] - units * Q];
      paid := paid + units * Q;
    }
  }

  lemma SharedIncrement(sum: int, stake: int, increment: int)
    ensures (sum + stake) * increment == sum * increment + stake * increment
  {
  }

  class Checkpoint {
    var source: State
    var target: State
    var cursor: nat

    ghost function Progress(): StakingCheckpoint.Progress
      reads this
    {
      StakingCheckpoint.Progress(source, target, cursor)
    }

    ghost predicate Valid()
      reads this
    {
      StakingCheckpoint.Aligned(Progress())
    }

    constructor (source: State)
      requires source.stakes != [] && WellShaped(source)
      ensures Valid() && Progress() == StakingCheckpoint.Start(source).value
    {
      this.source, this.target, cursor := source, source, 0;
    }

    /** Reads a whole batch before writing any of it, so a refused batch writes nothing. */
    method Step(expectedCursor: int, limit: int) returns (r: StakingCheckpoint.Outcome<nat>)
      requires Valid()
      modifies this
      ensures Valid()
      ensures match StakingCheckpoint.Advance(old(Progress()), expectedCursor, limit)
        case Done(next) => Progress() == next && r == StakingCheckpoint.Done(next.cursor)
        case Refused(e) => Progress() == old(Progress()) && r == StakingCheckpoint.Refused(e)
    {
      if expectedCursor != cursor {
        return StakingCheckpoint.Refused(StakingCheckpoint.WrongCursor);
      }
      if !(1 <= limit <= StakingCheckpoint.BATCH_CAP) {
        return StakingCheckpoint.Refused(StakingCheckpoint.BatchLimit);
      }
      if cursor == |source.stakes| {
        return StakingCheckpoint.Refused(StakingCheckpoint.Complete);
      }
      var end: nat := if cursor + limit < |source.stakes| then cursor + limit else |source.stakes|;
      var accrued: seq<int> := [];
      for i := cursor to end
        invariant |accrued| == i - cursor
        invariant forall j :: cursor <= j < i ==> Pending(source, j) == Ok(accrued[j - cursor])
      {
        var pending := Pending(source, i);
        if pending.Err? {
          return StakingCheckpoint.Refused(StakingCheckpoint.Overflow);
        }
        accrued := accrued + [pending.value];
      }
      for i := cursor to end
        invariant (source, cursor) == old((source, cursor)) && Valid()
        invariant target.(credit := [], debt := []) == old(target).(credit := [], debt := [])
        invariant forall j :: 0 <= j < |target.stakes| ==>
          (target.credit[j], target.debt[j]) ==
          if cursor <= j < i then (accrued[j - cursor], 0) else (old(target).credit[j], old(target).debt[j])
      {
        target := target.(credit := target.credit[i := accrued[i - cursor]], debt := target.debt[i := 0]);
      }
      ghost var settled := StakingCheckpoint.Settled(old(Progress()), end);
      assert target.credit == settled.credit && target.debt == settled.debt;
      cursor := end;
      r := StakingCheckpoint.Done(cursor);
    }

    method Finish() returns (r: StakingCheckpoint.Outcome<State>)
      requires Valid()
      ensures r == StakingCheckpoint.Finish(Progress())
      ensures r.Done? ==> r.value.index == 0
    {
      if cursor != |source.stakes| {
        return StakingCheckpoint.Refused(StakingCheckpoint.Incomplete);
      }
      var result := target;
      result := result.(index := 0);
      r := StakingCheckpoint.Done(result);
    }
  }

  class LazyRational {
    var stakes: seq<int>
    var total: int
    var index: real
    var credits: seq<real>
    var debt: seq<real>
    var lastPostAccountsWritten: int

    ghost function State(): StakingRational.Lazy
      reads this
    {
      StakingRational.Lazy(stakes, total, index, credits, debt, lastPostAccountsWritten)
    }

    constructor (stakes: seq<int>)
      ensures State() == StakingRational.LazyFresh(stakes)
    {
      this.stakes, index, lastPostAccountsWritten := stakes, 0.0, 0;
      credits, debt := seq(|stakes|, _ => 0.0), seq(|stakes|, _ => 0.0);
      new;
      var sum := Total(stakes);
      total := sum;
    }

    method ReadPending(i: nat) returns (pending: real)
      requires StakingRational.Shaped(State()) && i < |stakes|
      ensures pending == StakingRational.LazyPending(State(), i)
    {
      pending := credits[i] + StakingRational.Weighted(stakes[i], index) - debt[i];
    }

    method Settle(i: nat)
      requires StakingRational.Shaped(State()) && i < |stakes|
      modifies this
      ensures State() == StakingRational.Settle(old(State()), i)
    {
      var pending := ReadPending(i);
      credits := credits[i := pending];
      debt := debt[i := StakingRational.Weighted(stakes[i], index)];
    }

    method SetStake(i: nat, value: int) returns (ok: bool)
      requires StakingRational.Shaped(State()) && i < |stakes|
      modifies this
      ensures (State(), ok) == StakingRational.LazyStep(old(State()), Op.SetStake(i, value))
    {
      if value < 0 {
        return false;
      }
      Settle(i);
      total := total + (value - stakes[i]);
      stakes := stakes[i := value];
      debt := debt[i := StakingRational.Weighted(value, index)];
      ok := true;
    }

    method Post(payer: nat, fee: int) returns (ok: bool)
      requires StakingRational.Shaped(State()) && payer < |stakes|
      modifies this
      ensures (State(), ok) == StakingRational.LazyStep(old(State()), Op.Post(payer, fee))
    {
      if fee <= 0 {
        return false;
      }
      var eligible := total - stakes[payer];
      if eligible == 0 {
        return false;
      }
      Settle(payer);
      index := index + fee as real / eligible as real;
      debt := debt[payer := StakingRational.Weighted(stakes[payer], index)];
      lastPostAccountsWritten := 1;
      ok := true;
    }
  }

  class EagerRational {
    var stakes: seq<int>
    var credits: seq<real>

    ghost function State(): StakingRational.Exact
      reads this
    {
      StakingRational.Exact(stakes, credits)
    }

    constructor (stakes: seq<int>)
      ensures State() == StakingRational.ExactFresh(stakes)
    {
      this.stakes, credits := stakes, seq(|stakes|, _ => 0.0);
    }

    method SetStake(i: nat, value: int)
      requires i < |stakes| == |credits|
      modifies this
      ensures (State(), true) == StakingRational.ExactStep(old(State()), Op.SetStake(i, value))
    {
      stakes := stakes[i := value];
    }

    method Post(payer: nat, fee: int) returns (ok: bool)
      requires payer < |stakes| == |credits|
      modifies this
      ensures (State(), ok) == StakingRational.ExactStep(old(State()), Op.Post(payer, fee))
    {
      var eligible := Total(Others(stakes, payer));
      if eligible == 0 {
        return false;
      }
      ghost var shared := StakingRational.ExactCredited(credits, stakes, payer, fee, eligible);
      for i := 0 to |stakes|
        invariant stakes == old(stakes) && |credits| == |stakes|
        invariant forall j :: 0 <= j < i ==> credits[j] == shared[j]
        invariant forall j :: i <= j < |stakes| ==> credits[j] == old(credits)[j]
      {
        if i != payer {
          credits := credits[i := credits[i] + StakingRational.FeeShare(fee, stakes[i], eligible)];
        }
      }
      assert credits == shared;
      ok := true;
    }
  }
}
