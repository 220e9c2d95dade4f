/**
 * The pure transitions of the rewards distributor: what funding, withdrawing,
 * creating and querying do to one distribution record, and the properties that
 * hold of them. The stateful contract in `RewardsDistributor` applies these to
 * its tables.
 */
module RewardsContract {
  import opened Wrappers
  import opened Chain
  import opened RewardsState

  const DEFAULT_LIMIT: nat := 10
  const MAX_LIMIT: nat := 50

  /** Only a linear rate with `continuous` set back-fills underfunded time. */
  predicate IsContinuous(rate: EmissionRate) {
    rate.Linear? && rate.continuous
  }

  /**
   * Funding starts the distribution over when it was never funded (or was
   * drained to zero), or when a non-continuous window has already ended.
   */
  predicate ShouldRestart(d: DistributionState, block: Block)
    ensures d.fundedAmount == 0 ==> ShouldRestart(d, block)
    ensures d.fundedAmount > 0 && IsContinuous(d.activeEpoch.emissionRate) ==> !ShouldRestart(d, block)
    ensures d.fundedAmount > 0 && !d.activeEpoch.endsAt.IsExpired(block) ==> !ShouldRestart(d, block)
    ensures Inv(d) && d.fundedAmount > 0 && !d.activeEpoch.emissionRate.Linear? ==> !ShouldRestart(d, block)
    ensures d.activeEpoch.endsAt.IsExpired(block) && !IsContinuous(d.activeEpoch.emissionRate) ==> ShouldRestart(d, block)
  {
    d.fundedAmount == 0 || (!IsContinuous(d.activeEpoch.emissionRate) && d.activeEpoch.endsAt.IsExpired(block))
  }

  /** `execute_fund` applied to one distribution record. */
  function Funded(d: DistributionState, amount: Uint128, block: Block, totalPower: nat)
    : (r: Result<DistributionState, ContractError>)
    ensures r.Ok? ==>
      var rate := d.activeEpoch.emissionRate;
      var e := r.value.activeEpoch;
      && r.value == d.(activeEpoch := e, fundedAmount := r.value.fundedAmount)
      && e.emissionRate == rate
      && (ShouldRestart(d, block) ==> r.value.fundedAmount == amount && e.startedAt == StartOf(rate, block))
      && (!ShouldRestart(d, block) ==> r.value.fundedAmount == d.fundedAmount + amount && e.startedAt == d.activeEpoch.startedAt)
      && e.lastUpdatedTotalEarnedPuvp == LatestDistributionTime(e, block)
  {
    var rate := d.activeEpoch.emissionRate;
    var continuous := IsContinuous(rate);
    var restart := ShouldRestart(d, block);
    if !restart && d.fundedAmount + amount > MAX_U128 then Err(Std(Overflow))
    else
      var funded: Uint128 := if restart then amount else d.fundedAmount + amount;
      var started := if restart then StartOf(rate, block) else d.activeEpoch.startedAt;
      match PeriodEnd(started, rate, funded)
      case Err(e) => Err(Std(e))
      case Ok(ends) =>
        var d1 := d.(fundedAmount := funded, activeEpoch := d.activeEpoch.(startedAt := started, endsAt := ends));
        var d2 :=
          if rate == Immediate then WithImmediateEmission(d1, amount, totalPower)
          else if !restart && continuous then
            d1.(activeEpoch := d1.activeEpoch.(totalEarnedPuvp := ActiveTotalEarnedPuvp(d1, block, totalPower)))
          else d1;
        Ok(d2.(activeEpoch := BumpLastUpdated(d2.activeEpoch, block)))
  }

  /** The window's end moved to the current block, on the clock the window started on. */
  function EndedNow(startedAt: Expiration, block: Block): Expiration {
    match startedAt
    case Never => Never
    case AtHeight(_) => AtHeight(block.height)
    case AtTime(_) => AtTime(block.time)
  }

  /**
   * `execute_withdraw` applied to one distribution record: the new record and
   * the amount clawed back to the withdraw destination.
   */
  function Withdrawn(d: DistributionState, block: Block): (r: Result<(DistributionState, Uint128), ContractError>)
    ensures d.activeEpoch.endsAt.IsExpired(block) <==> r == Err(RewardsAlreadyDistributed)
    ensures r.Ok? ==>
      var (d1, clawback) := r.value;
      && d1 == d.(activeEpoch := d.activeEpoch.(endsAt := EndedNow(d.activeEpoch.startedAt, block)),
                  fundedAmount := d1.fundedAmount)
      && TotalRewards(d1) == Ok(d1.fundedAmount)
      && clawback == d.fundedAmount - d1.fundedAmount
  {
    if d.activeEpoch.endsAt.IsExpired(block) then Err(RewardsAlreadyDistributed)
    else
      var d1 := d.(activeEpoch := d.activeEpoch.(endsAt := EndedNow(d.activeEpoch.startedAt, block)));
      match TotalRewards(d1)
      case Err(e) => Err(Std(e))
      case Ok(distributed) =>
        if distributed > d.fundedAmount then Err(Std(Overflow))
        else Ok((d1.(fundedAmount := distributed), d.fundedAmount - distributed))
  }

  /** The record `execute_create` stores for a new id: no window, nothing funded, nothing earned. */
  function NewDistribution(id: nat, denom: Denom, rate: EmissionRate, vpContract: Addr, hookCaller: Addr,
                           withdrawDestination: Addr): (d: DistributionState)
    ensures d.id == id && d.denom == denom && d.activeEpoch.emissionRate == rate
    ensures d.activeEpoch.startedAt.Never? && d.activeEpoch.endsAt.Never? && d.activeEpoch.lastUpdatedTotalEarnedPuvp.Never?
    ensures d.activeEpoch.totalEarnedPuvp == 0 && d.historicalEarnedPuvp == 0 && d.fundedAmount == 0
    ensures Validate(rate).Ok? ==> Inv(d)
    ensures MarkInWindow(d)
  {
    DistributionState(id, denom, Epoch(Never, Never, rate, 0, Never), vpContract, hookCaller, 0, withdrawDestination, 0)
  }

  /**
   * One entry of `query_pending_rewards`: what the participant has banked for
   * the distribution plus what they earned since, computed as of `block`
   * without storing anything.
   */
  function PendingRewardsFor(d: DistributionState, user: UserRewardState, block: Block, votingPower: nat, totalPower: nat)
    : (r: Result<Uint128, StdError>)
    ensures var total := ActiveTotalEarnedPuvp(d, block, totalPower) + d.historicalEarnedPuvp;
      var last := Lookup(user.accountedForRewardsPuvp, d.id);
      r.Ok? <==> last <= total && Lookup(user.pendingRewards, d.id) + (total - last) * votingPower / SCALE <= MAX_U128
    ensures r.Ok? ==>
      var total := ActiveTotalEarnedPuvp(d, block, totalPower) + d.historicalEarnedPuvp;
      var last := Lookup(user.accountedForRewardsPuvp, d.id);
      var banked := Lookup(user.pendingRewards, d.id);
      && last <= total && banked <= r.value
      && (r.value - banked) * SCALE <= (total - last) * votingPower < (r.value - banked + 1) * SCALE
  {
    var total := ActiveTotalEarnedPuvp(d, block, totalPower) + d.historicalEarnedPuvp;
    var unaccounted :- AccruedRewardsNotYetAccountedFor(total, d.id, user, votingPower);
    var owed := unaccounted + Lookup(user.pendingRewards, d.id);
    if owed > MAX_U128 then Err(Overflow) else Ok(owed)
  }

  /** A page's size: the requested limit or the default, capped at the maximum. */
  function EffectiveLimit(limit: Option<nat>): (n: nat)
    ensures n <= MAX_LIMIT
    ensures limit.None? ==> n == DEFAULT_LIMIT
    ensures limit.Some? ==> n == if limit.value < MAX_LIMIT then limit.value else MAX_LIMIT
  {
    var requested := match limit case Some(l) => l case None => DEFAULT_LIMIT;
    if requested < MAX_LIMIT then requested else MAX_LIMIT
  }

  /**
   * The ids of a page over the ids 1..count in ascending order: those after
   * `startAfter`, at most `EffectiveLimit(limit)` of them.
   */
  function PageIds(count: nat, startAfter: Option<nat>, limit: Option<nat>): (ids: seq<nat>)
    ensures |ids| <= EffectiveLimit(limit)
    ensures forall i :: 0 <= i < |ids| ==> 1 <= ids[i] <= count
    ensures forall i :: 0 <= i < |ids| ==> startAfter.Some? ==> ids[i] > startAfter.value
    ensures forall i, j :: 0 <= i < j < |ids| ==> ids[i] < ids[j]
    ensures forall k :: 1 <= k <= count && (startAfter.None? || k > startAfter.value) && k !in ids ==>
      |ids| == EffectiveLimit(limit)
    ensures forall k, i :: 1 <= k <= count && (startAfter.None? || k > startAfter.value) && k !in ids && 0 <= i < |ids| ==>
      ids[i] < k
  {
    var lo := match startAfter case Some(s) => s + 1 case None => 1;
    var available := if count >= lo then count - lo + 1 else 0;
    var n := if available < EffectiveLimit(limit) then available else EffectiveLimit(limit);
    var ids := seq(n, i requires 0 <= i < n => lo + i);
    assert forall k :: lo <= k < lo + n ==> k in ids by {
      forall k | lo <= k < lo + n ensures k in ids { assert ids[k - lo] == k; }
    }
    ids
  }
}
