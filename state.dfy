/**
 * The state of one rewards distribution and the accrual helpers the contract
 * calls: the emission rate, the active epoch, the distribution record, a
 * participant's reward ledger, the per-unit-voting-power accumulator
 * (`get_active_total_earned_puvp`), the total a finished epoch paid out
 * (`get_total_rewards`), the epoch transition on a rate change
 * (`transition_epoch`) and the lazy reconciliation of one participant
 * (`update_rewards`).
 */
module RewardsState {
  import opened Wrappers
  import opened Chain

  /** The fixed-point factor that keeps per-unit-voting-power values exact: 10^39. */
  const SCALE: nat := 1_000_000_000_000_000_000_000_000_000_000_000_000_000

  /**
   * How fast a distribution releases its funds: not at all, all at once when
   * funded, or `amount` per block or per second. A `continuous` linear rate
   * back-fills the time it was underfunded when it is topped up.
   */
  datatype EmissionRate =
    | Paused
    | Immediate
    | Linear(amount: Uint128, unit: Unit, continuous: bool)

  datatype ContractError =
    | Std(std: StdError)
    | Payment(payment: PaymentError)
    | NotOwner
    | DistributionNotFound(id: nat)
    | InvalidFunds
    | InvalidCw20
    | NoFundsOnCw20Create
    | UnexpectedDuplicateDistributionId(id: nat)
    | NoRewardsClaimable
    | RewardsAlreadyDistributed
    | InvalidEmissionRateFieldZero

  /** `EmissionRate::validate`: a linear rate must release a non-zero amount per unit. */
  function Validate(rate: EmissionRate): (r: Result<(), ContractError>)
    ensures r.Ok? <==> !(rate.Linear? && rate.amount == 0)
  {
    if rate.Linear? && rate.amount == 0 then Err(InvalidEmissionRateFieldZero) else Ok(())
  }

  /**
   * `get_funded_period_duration`: how long `funded` lasts at a linear rate (the
   * whole units it pays for), and no period for a paused or immediate rate.
   */
  function FundedPeriodDuration(rate: EmissionRate, funded: nat): (r: Result<Option<Duration>, StdError>)
    ensures !rate.Linear? ==> r == Ok(None)
    ensures rate.Linear? ==> (r.Ok? <==> rate.amount > 0)
    ensures rate.Linear? && r.Ok? ==>
      && r.value.Some? && r.value.value.unit == rate.unit
      && rate.amount * r.value.value.length <= funded < rate.amount * (r.value.value.length + 1)
  {
    match rate
    case Paused => Ok(None)
    case Immediate => Ok(None)
    case Linear(amount, unit, _) =>
      if amount == 0 then Err(DivideByZero)
      else
        var n := funded / amount;
        assert amount * n <= funded < amount * (n + 1) by { DivBounds(funded, amount); }
        Ok(Some(Duration(unit, n)))
  }

  lemma DivBounds(x: nat, y: nat)
    requires y > 0
    ensures y * (x / y) <= x < y * (x / y + 1)
  {
  }

  lemma QuotientBounds(x: nat, y: nat)
    requires y > 0
    ensures (x / y) * y <= x < (x / y + 1) * y
  {
    DivBounds(x, y);
  }

  /** The current block on the rate's clock; `Never` for a paused or immediate rate. */
  function StartOf(rate: EmissionRate, block: Block): (e: Expiration)
    ensures rate.Linear? ==> e.CountsIn(rate.unit) && e.IsExpired(block)
    ensures !rate.Linear? ==> e == Never
  {
    match rate
    case Linear(_, unit, _) => Now(unit, block)
    case _ => Never
  }

  /**
   * One emission window under a single rate. `totalEarnedPuvp` is the reward
   * earned per unit of voting power (scaled by SCALE) since the epoch began, as
   * of `lastUpdatedTotalEarnedPuvp`.
   */
  datatype Epoch = Epoch(
    startedAt: Expiration,
    endsAt: Expiration,
    emissionRate: EmissionRate,
    totalEarnedPuvp: nat,
    lastUpdatedTotalEarnedPuvp: Expiration)

  /**
   * One distribution. `historicalEarnedPuvp` is the sum of the earned-per-unit
   * values of all epochs before the active one.
   */
  datatype DistributionState = DistributionState(
    id: nat,
    denom: Denom,
    activeEpoch: Epoch,
    vpContract: Addr,
    hookCaller: Addr,
    fundedAmount: Uint128,
    withdrawDestination: Addr,
    historicalEarnedPuvp: nat)

  /**
   * The shape every stored distribution keeps: a validated rate; no window for
   * a paused or immediate rate; for a linear rate either no window yet (and
   * nothing funded) or a window on the rate's clock whose emission at the rate
   * is covered by the funded amount.
   */
  ghost predicate Inv(d: DistributionState) {
    var e := d.activeEpoch;
    match e.emissionRate
    case Linear(amount, unit, _) =>
      && amount > 0
      && (if e.startedAt.Never? then e.endsAt.Never? && d.fundedAmount == 0
          else e.startedAt.CountsIn(unit) && e.endsAt.CountsIn(unit)
               && amount * Elapsed(e.endsAt, e.startedAt) <= d.fundedAmount)
    case _ => e.startedAt.Never? && e.endsAt.Never?
  }

  /**
   * The moments a record remembers (the window's start and the accumulator's
   * last update) have all come by `block`: the chain's clock does not run
   * backwards past them.
   */
  ghost predicate NotInFuture(d: DistributionState, block: Block) {
    var e := d.activeEpoch;
    && (e.startedAt.Never? || e.startedAt.IsExpired(block))
    && (e.lastUpdatedTotalEarnedPuvp.Never? || e.lastUpdatedTotalEarnedPuvp.IsExpired(block))
  }

  /**
   * The accumulator's last update lies inside the window: between its start and
   * its end on the window's clock, and `Never` while there is no window.
   */
  ghost predicate MarkInWindow(d: DistributionState) {
    var e := d.activeEpoch;
    if e.startedAt.Never? then e.lastUpdatedTotalEarnedPuvp.Never?
    else NoLaterThan(e.startedAt, e.lastUpdatedTotalEarnedPuvp) && NoLaterThan(e.lastUpdatedTotalEarnedPuvp, e.endsAt)
  }

  /**
   * `Epoch::bump_last_updated`: the accumulator is now current as of this
   * block, which is never later than the window's end; nothing else changes.
   */
  function BumpLastUpdated(e: Epoch, block: Block): (r: Epoch)
    ensures r == e.(lastUpdatedTotalEarnedPuvp := r.lastUpdatedTotalEarnedPuvp)
    ensures UnaccountedPeriod(r, block) == 0
    ensures r.lastUpdatedTotalEarnedPuvp.Never? <==> e.endsAt.Never?
    ensures NoLaterThan(r.lastUpdatedTotalEarnedPuvp, e.endsAt)
    ensures r.lastUpdatedTotalEarnedPuvp.Never? || r.lastUpdatedTotalEarnedPuvp.IsExpired(block)
  {
    e.(lastUpdatedTotalEarnedPuvp := LatestDistributionTime(e, block))
  }

  /** The last moment rewards were released up to: now, or the window's end if that is earlier. */
  function LatestDistributionTime(e: Epoch, block: Block): (t: Expiration)
    ensures e.endsAt.Never? <==> t.Never?
    ensures e.endsAt.AtHeight? ==>
      && t.AtHeight? && t.height <= block.height && t.height <= e.endsAt.height
      && (t.height == block.height || t.height == e.endsAt.height)
    ensures e.endsAt.AtTime? ==>
      && t.AtTime? && t.time <= block.time && t.time <= e.endsAt.time
      && (t.time == block.time || t.time == e.endsAt.time)
  {
    match e.endsAt
    case Never => Never
    case AtHeight(h) => AtHeight(if block.height < h then block.height else h)
    case AtTime(t) => AtTime(if block.time < t then block.time else t)
  }

  /** The blocks or seconds of emission not yet folded into the accumulator. */
  function UnaccountedPeriod(e: Epoch, block: Block): nat {
    Elapsed(LatestDistributionTime(e, block), e.lastUpdatedTotalEarnedPuvp)
  }

  /**
   * `get_active_total_earned_puvp`: the active epoch's accumulator brought up to
   * `block` without storing it. A linear rate adds what it released since the
   * last update, per unit of the total voting power; nothing is added while the
   * total voting power is zero.
   */
  function ActiveTotalEarnedPuvp(d: DistributionState, block: Block, totalPower: nat): (r: nat)
    ensures r >= d.activeEpoch.totalEarnedPuvp
    ensures !d.activeEpoch.emissionRate.Linear? || totalPower == 0 ==> r == d.activeEpoch.totalEarnedPuvp
    ensures d.activeEpoch.emissionRate.Linear? && totalPower > 0 ==>
      var released := UnaccountedPeriod(d.activeEpoch, block) * d.activeEpoch.emissionRate.amount * SCALE;
      var delta := r - d.activeEpoch.totalEarnedPuvp;
      delta * totalPower <= released < (delta + 1) * totalPower
  {
    var e := d.activeEpoch;
    match e.emissionRate
    case Paused => e.totalEarnedPuvp
    case Immediate => e.totalEarnedPuvp
    case Linear(amount, _, _) =>
      var elapsed := UnaccountedPeriod(e, block);
      if elapsed == 0 || totalPower == 0 then e.totalEarnedPuvp
      else
        var released := elapsed * amount * SCALE;
        DivBounds(released, totalPower);
        e.totalEarnedPuvp + released / totalPower
  }

  /**
   * `get_total_rewards`: what the active epoch pays out over its whole window;
   * on a well-formed record it never fails and never exceeds the funded amount.
   */
  function TotalRewards(d: DistributionState): (r: Result<Uint128, StdError>)
    ensures Inv(d) ==> r.Ok? && r.value <= d.fundedAmount
    ensures d.activeEpoch.emissionRate.Paused? ==> r == Ok(0)
    ensures d.activeEpoch.emissionRate.Immediate? ==> r == Ok(d.fundedAmount)
  {
    match d.activeEpoch.emissionRate
    case Paused => Ok(0)
    case Immediate => Ok(d.fundedAmount)
    case Linear(amount, _, _) =>
      var total := amount * Elapsed(d.activeEpoch.endsAt, d.activeEpoch.startedAt);
      if total <= MAX_U128 then Ok(total) else Err(Overflow)
  }

  /**
   * `update_immediate_emission_total_earned_puvp`: an immediate rate releases
   * `amount` at once, per unit of the total voting power (nothing while it is zero).
   */
  function WithImmediateEmission(d: DistributionState, amount: nat, totalPower: nat): (r: DistributionState)
    ensures r == d.(activeEpoch := d.activeEpoch.(totalEarnedPuvp := r.activeEpoch.totalEarnedPuvp))
    ensures r.activeEpoch.totalEarnedPuvp >= d.activeEpoch.totalEarnedPuvp
    ensures totalPower == 0 ==> r == d
    ensures totalPower > 0 ==>
      var delta := r.activeEpoch.totalEarnedPuvp - d.activeEpoch.totalEarnedPuvp;
      delta * totalPower <= amount * SCALE < (delta + 1) * totalPower
  {
    if totalPower == 0 then d
    else
      var released := amount * SCALE;
      var q := released / totalPower;
      assert q * totalPower <= released < (q + 1) * totalPower by { QuotientBounds(released, totalPower); }
      d.(activeEpoch := d.activeEpoch.(totalEarnedPuvp := d.activeEpoch.totalEarnedPuvp + q))
  }

  /** Where the window of `funded` starting at `start` ends; `Never` when the rate has no window. */
  function PeriodEnd(start: Expiration, rate: EmissionRate, funded: nat): Result<Expiration, StdError> {
    var duration :- FundedPeriodDuration(rate, funded);
    match duration
    case Some(dur) => AddDuration(start, dur)
    case None => Ok(Never)
  }

  /**
   * `transition_epoch`: a new rate closes the active epoch at the current block,
   * adds what it earned per unit of voting power to the historical total, keeps
   * only the funds it did not release, and opens a fresh epoch from now with a
   * zero accumulator. The same rate changes nothing.
   */
  function TransitionEpoch(d: DistributionState, rate: EmissionRate, block: Block, totalPower: nat)
    : (r: Result<DistributionState, StdError>)
    ensures d.activeEpoch.emissionRate == rate ==> r == Ok(d)
    ensures r.Ok? && d.activeEpoch.emissionRate != rate ==>
      var e := r.value.activeEpoch;
      && e.emissionRate == rate
      && e.startedAt == StartOf(rate, block) && e.lastUpdatedTotalEarnedPuvp == e.startedAt
      && (rate != Immediate ==> e.totalEarnedPuvp == 0)
      && r.value.historicalEarnedPuvp == d.historicalEarnedPuvp + ActiveTotalEarnedPuvp(d, block, totalPower)
      && r.value.fundedAmount <= d.fundedAmount
    ensures r.Ok? && d.activeEpoch.emissionRate != rate ==>
      var e := r.value.activeEpoch;
      var funded := r.value.fundedAmount;
      && (rate.Linear? ==>
            var n := Elapsed(e.endsAt, e.startedAt);
            e.endsAt.CountsIn(rate.unit) && rate.amount * n <= funded < rate.amount * (n + 1))
      && (!rate.Linear? ==> e.endsAt.Never?)
      && (rate == Immediate && totalPower > 0 ==>
            e.totalEarnedPuvp * totalPower <= funded * SCALE < (e.totalEarnedPuvp + 1) * totalPower)
      && (rate == Immediate && totalPower == 0 ==> e.totalEarnedPuvp == 0)
  {
    if d.activeEpoch.emissionRate == rate then Ok(d)
    else
      var earned := ActiveTotalEarnedPuvp(d, block, totalPower);
      var closed := d.activeEpoch.(totalEarnedPuvp := earned, endsAt := LatestDistributionTime(d.activeEpoch, block));
      var d1 := d.(activeEpoch := closed, historicalEarnedPuvp := d.historicalEarnedPuvp + earned);
      var released :- TotalRewards(d1);
      if released > d1.fundedAmount then Err(Overflow)
      else
        var remaining: Uint128 := d1.fundedAmount - released;
        var start := StartOf(rate, block);
        var ends :- PeriodEnd(start, rate, remaining);
        assert rate.Linear? ==> NoLaterThan(start, ends) && ends.CountsIn(rate.unit)
                                && Elapsed(ends, start) == FundedPeriodDuration(rate, remaining).value.value.length by {
          if rate.Linear? {
            ElapsedUndoesAdd(start, FundedPeriodDuration(rate, remaining).value.value);
          }
        }
        var d2 := d1.(fundedAmount := remaining, activeEpoch := Epoch(start, ends, rate, 0, start));
        Ok(if rate == Immediate then WithImmediateEmission(d2, remaining, totalPower) else d2)
  }

  /**
   * One participant's ledger: per distribution id, the rewards owed but not
   * claimed, and the earned-per-unit value they were last reconciled at.
   */
  datatype UserRewardState = UserRewardState(
    pendingRewards: map<nat, Uint128>,
    accountedForRewardsPuvp: map<nat, nat>)

  /** The value stored at `k`, or the default when there is none (`unwrap_or_default`). */
  function Lookup(m: map<nat, nat>, k: nat): nat {
    if k in m then m[k] else 0
  }

  /**
   * `get_accrued_rewards_not_yet_accounted_for`: what `votingPower` earned between
   * the participant's last reconciliation and `totalEarnedPuvp`, rounded down.
   */
  function AccruedRewardsNotYetAccountedFor(totalEarnedPuvp: nat, id: nat, user: UserRewardState, votingPower: nat)
    : (r: Result<Uint128, StdError>)
    ensures r.Ok? <==>
      var last := Lookup(user.accountedForRewardsPuvp, id);
      last <= totalEarnedPuvp && (totalEarnedPuvp - last) * votingPower / SCALE <= MAX_U128
    ensures r.Ok? ==>
      var earned := (totalEarnedPuvp - Lookup(user.accountedForRewardsPuvp, id)) * votingPower;
      r.value * SCALE <= earned < (r.value + 1) * SCALE
  {
    var last := Lookup(user.accountedForRewardsPuvp, id);
    if last > totalEarnedPuvp then Err(Overflow)
    else
      var earned := (totalEarnedPuvp - last) * votingPower;
      DivBounds(earned, SCALE);
      if earned / SCALE > MAX_U128 then Err(Overflow) else Ok(earned / SCALE)
  }

  /**
   * `update_rewards`: bring the distribution's accumulator up to `block` (and
   * store it), credit the participant with what they earned since their last
   * reconciliation, and record the value they are now reconciled at.
   */
  function UpdateRewards(d: DistributionState, user: UserRewardState, block: Block, votingPower: nat, totalPower: nat)
    : (r: Result<(DistributionState, UserRewardState), StdError>)
    ensures var applicable := ActiveTotalEarnedPuvp(d, block, totalPower) + d.historicalEarnedPuvp;
      var last := Lookup(user.accountedForRewardsPuvp, d.id);
      r.Ok? <==> last <= applicable
                 && Lookup(user.pendingRewards, d.id) + (applicable - last) * votingPower / SCALE <= MAX_U128
    ensures r.Ok? ==>
      var (d1, user1) := r.value;
      var applicable := d1.activeEpoch.totalEarnedPuvp + d.historicalEarnedPuvp;
      var last := Lookup(user.accountedForRewardsPuvp, d.id);
      var credited := Lookup(user1.pendingRewards, d.id) - Lookup(user.pendingRewards, d.id);
      && UnaccountedPeriod(d1.activeEpoch, block) == 0
      && d1.activeEpoch.totalEarnedPuvp == ActiveTotalEarnedPuvp(d, block, totalPower)
      && Lookup(user1.accountedForRewardsPuvp, d.id) == applicable
      && Lookup(user1.pendingRewards, d.id) >= Lookup(user.pendingRewards, d.id)
      && last <= applicable
      && credited * SCALE <= (applicable - last) * votingPower < (credited + 1) * SCALE
  {
    var earned := ActiveTotalEarnedPuvp(d, block, totalPower);
    var d1 := d.(activeEpoch := BumpLastUpdated(d.activeEpoch.(totalEarnedPuvp := earned), block));
    var applicable := earned + d.historicalEarnedPuvp;
    var accrued :- AccruedRewardsNotYetAccountedFor(applicable, d.id, user, votingPower);
    var owed := accrued + Lookup(user.pendingRewards, d.id);
    if owed > MAX_U128 then Err(Overflow)
    else
      Ok((d1, UserRewardState(user.pendingRewards[d.id := owed], user.accountedForRewardsPuvp[d.id := applicable])))
  }
}
