/**
 * What the rewards distributor promises, proved about the transitions in
 * `RewardsContract` and the helpers in `RewardsState`: funding, withdrawing and
 * rate changes keep every distribution well formed; withdrawing returns exactly
 * the unreleased funds and stops accrual; reconciliation is idempotent and pays
 * what the pending-rewards query reports; and no reconciliation step hands out
 * more than the rate released.
 */
module RewardsProperties {
  import opened Wrappers
  import opened Chain
  import opened RewardsState
  import opened RewardsContract

  // ---------------------------------------------------------------- arithmetic

  lemma MulLeftMono(a: nat, b: nat, c: nat)
    requires a <= b
    ensures c * a <= c * b
  {
  }

  lemma MulRightMono(a: nat, b: nat, c: nat)
    requires a <= b
    ensures a * c <= b * c
  {
  }

  /** A positive common factor can be cancelled from both sides of `<=`. */
  lemma CancelFactor(a: nat, b: nat, c: nat)
    requires c > 0 && a * c <= b * c
    ensures a <= b
  {
    if a > b {
      MulRightMono(b + 1, a, c);
    }
  }

  /** Rounding a quotient down never overshoots: `(x / y) * y <= x`. */
  lemma FloorTimesDivisor(x: nat, y: nat)
    requires y > 0
    ensures (x / y) * y <= x
  {
    DivBounds(x, y);
  }

  /** Dividing by a positive divisor keeps the order of the dividends. */
  lemma DivMono(x: nat, x': nat, y: nat)
    requires y > 0 && x <= x'
    ensures x / y <= x' / y
  {
    DivBounds(x, y);
    DivBounds(x', y);
    if x / y > x' / y {
      MulLeftMono(x' / y + 1, x / y, y);
    }
  }

  // ---------------------------------------------------------------- funding

  /**
   * Funding sets the window's end from the funded amount: on a linear rate the
   * window counts on the rate's clock and lasts the whole units the new funded
   * amount pays for; on a paused or immediate rate it never ends.
   */
  lemma FundSetsEnd(d: DistributionState, amount: Uint128, block: Block, totalPower: nat)
    requires Inv(d) && Funded(d, amount, block, totalPower).Ok?
    ensures var d' := Funded(d, amount, block, totalPower).value;
      match d.activeEpoch.emissionRate
      case Linear(rate, unit, _) =>
        var n := Elapsed(d'.activeEpoch.endsAt, d'.activeEpoch.startedAt);
        && d'.activeEpoch.startedAt.CountsIn(unit) && d'.activeEpoch.endsAt.CountsIn(unit)
        && rate * n <= d'.fundedAmount < rate * (n + 1)
      case _ => d'.activeEpoch.endsAt.Never? && d'.activeEpoch.startedAt.Never?
  {
    var d' := Funded(d, amount, block, totalPower).value;
    var rate := d.activeEpoch.emissionRate;
    var restart := ShouldRestart(d, block);
    var started := if restart then StartOf(rate, block) else d.activeEpoch.startedAt;
    assert d'.activeEpoch.startedAt == started;
    if rate.Linear? {
      assert started.CountsIn(rate.unit);
      var dur := FundedPeriodDuration(rate, d'.fundedAmount).value.value;
      assert PeriodEnd(started, rate, d'.fundedAmount) == AddDuration(started, dur);
      assert d'.activeEpoch.endsAt == AddDuration(started, dur).value;
      assert Elapsed(d'.activeEpoch.endsAt, started) == dur.length;
    }
  }

  /**
   * How funding moves the accumulator: an immediate rate adds only the new
   * amount per unit of voting power; a continuous top-up that does not restart
   * first credits the time since the last update under the extended window;
   * every other funding leaves it alone.
   */
  lemma FundMovesAccumulator(d: DistributionState, amount: Uint128, block: Block, totalPower: nat)
    requires Funded(d, amount, block, totalPower).Ok?
    ensures var d' := Funded(d, amount, block, totalPower).value;
      var rate := d.activeEpoch.emissionRate;
      var before := d.activeEpoch.totalEarnedPuvp;
      && (rate == Immediate ==>
            d'.activeEpoch.totalEarnedPuvp == before + (if totalPower == 0 then 0 else amount * SCALE / totalPower))
      && (IsContinuous(rate) && !ShouldRestart(d, block) ==>
            var extended := d'.activeEpoch.(totalEarnedPuvp := before,
                                            lastUpdatedTotalEarnedPuvp := d.activeEpoch.lastUpdatedTotalEarnedPuvp);
            d'.activeEpoch.totalEarnedPuvp == ActiveTotalEarnedPuvp(d'.(activeEpoch := extended), block, totalPower))
      && (rate != Immediate && !(IsContinuous(rate) && !ShouldRestart(d, block)) ==>
            d'.activeEpoch.totalEarnedPuvp == before)
  {
  }

  /** Funding keeps a distribution well formed. */
  lemma FundPreservesInv(d: DistributionState, amount: Uint128, block: Block, totalPower: nat)
    requires Inv(d) && Funded(d, amount, block, totalPower).Ok?
    ensures Inv(Funded(d, amount, block, totalPower).value)
  {
    FundSetsEnd(d, amount, block, totalPower);
  }

  /**
   * On a well-formed distribution the only way funding fails is a top-up that
   * would overflow the 128-bit funded amount.
   */
  lemma FundFailsOnlyOnOverflow(d: DistributionState, amount: Uint128, block: Block, totalPower: nat)
    requires Inv(d)
    ensures Funded(d, amount, block, totalPower).Err? <==>
      !ShouldRestart(d, block) && d.fundedAmount + amount > MAX_U128
  {
    var rate := d.activeEpoch.emissionRate;
    var restart := ShouldRestart(d, block);
    if restart || d.fundedAmount + amount <= MAX_U128 {
      var funded: Uint128 := if restart then amount else d.fundedAmount + amount;
      var started := if restart then StartOf(rate, block) else d.activeEpoch.startedAt;
      if rate.Linear? {
        assert started.CountsIn(rate.unit);
      }
      assert PeriodEnd(started, rate, funded).Ok?;
    }
  }

  /** Funding a well-formed record that holds nothing restarts it, so it always succeeds and stays well formed. */
  lemma FirstFundSucceeds(d: DistributionState, amount: Uint128, block: Block, totalPower: nat)
    requires Inv(d) && d.fundedAmount == 0
    ensures Funded(d, amount, block, totalPower).Ok?
    ensures Inv(Funded(d, amount, block, totalPower).value)
    ensures Funded(d, amount, block, totalPower).value.fundedAmount == amount
  {
    FundFailsOnlyOnOverflow(d, amount, block, totalPower);
    FundPreservesInv(d, amount, block, totalPower);
  }

  // ---------------------------------------------------------------- withdrawing

  /**
   * Withdrawing ends the window now and splits the old funded amount exactly
   * into what stays (what the window released) and what is clawed back; the
   * accumulators are untouched.
   */
  lemma WithdrawSplitsFunds(d: DistributionState, block: Block)
    requires Withdrawn(d, block).Ok?
    ensures var (d', clawback) := Withdrawn(d, block).value;
      && clawback + d'.fundedAmount == d.fundedAmount
      && d'.fundedAmount <= d.fundedAmount
      && d' == d.(activeEpoch := d.activeEpoch.(endsAt := EndedNow(d.activeEpoch.startedAt, block)),
                  fundedAmount := d'.fundedAmount)
  {
  }

  /**
   * On a linear window that started no later than now, what stays funded after
   * a withdrawal is the rate times the blocks or seconds elapsed since the
   * start, on whichever clock the window counts; nothing stays funded when the
   * window never started.
   */
  lemma WithdrawKeepsReleased(d: DistributionState, block: Block)
    requires Inv(d) && NotInFuture(d, block) && Withdrawn(d, block).Ok? && d.activeEpoch.emissionRate.Linear?
    ensures var kept := Withdrawn(d, block).value.0.fundedAmount;
      var start := d.activeEpoch.startedAt;
      var amount := d.activeEpoch.emissionRate.amount;
      && (start.AtHeight? ==> kept == amount * (block.height - start.height))
      && (start.AtTime? ==> kept == amount * (block.time - start.time))
      && (start.Never? ==> kept == 0)
  {
  }

  /** A well-formed distribution can be withdrawn from exactly while its window is open. */
  lemma WithdrawSucceedsWhileOpen(d: DistributionState, block: Block)
    requires Inv(d)
    ensures Withdrawn(d, block).Ok? <==> !d.activeEpoch.endsAt.IsExpired(block)
  {
    if !d.activeEpoch.endsAt.IsExpired(block) {
      var e := d.activeEpoch;
      var ended := EndedNow(e.startedAt, block);
      var d1 := d.(activeEpoch := e.(endsAt := ended));
      if e.emissionRate.Linear? && !e.startedAt.Never? {
        assert Elapsed(ended, e.startedAt) <= Elapsed(e.endsAt, e.startedAt);
        MulLeftMono(Elapsed(ended, e.startedAt), Elapsed(e.endsAt, e.startedAt), e.emissionRate.amount);
      }
      assert TotalRewards(d1).Ok? && TotalRewards(d1).value <= d.fundedAmount;
    }
  }

  /** Withdrawing keeps a distribution well formed. */
  lemma WithdrawPreservesInv(d: DistributionState, block: Block)
    requires Inv(d) && Withdrawn(d, block).Ok?
    ensures Inv(Withdrawn(d, block).value.0)
  {
  }

  /**
   * A second withdrawal in the same block achieves nothing: it is rejected
   * because the window has ended, or it claws back zero and changes nothing.
   */
  lemma WithdrawTwiceClawsBackNothing(d: DistributionState, block: Block)
    requires Inv(d) && Withdrawn(d, block).Ok?
    ensures var d' := Withdrawn(d, block).value.0;
      Withdrawn(d', block) == Err(RewardsAlreadyDistributed) || Withdrawn(d', block) == Ok((d', 0))
  {
    var d' := Withdrawn(d, block).value.0;
    if !d.activeEpoch.startedAt.Never? {
      assert d'.activeEpoch.endsAt.IsExpired(block);
    } else {
      assert d'.activeEpoch == d'.activeEpoch.(endsAt := EndedNow(d'.activeEpoch.startedAt, block));
    }
  }

  /**
   * After a withdrawal the accumulator stops growing: at any later block it
   * stands where it stood when the withdrawal happened.
   */
  lemma WithdrawStopsAccrual(d: DistributionState, block: Block, later: Block, totalPower: nat)
    requires Inv(d) && Withdrawn(d, block).Ok? && NotBefore(later, block)
    ensures ActiveTotalEarnedPuvp(Withdrawn(d, block).value.0, later, totalPower)
         == ActiveTotalEarnedPuvp(d, block, totalPower)
  {
    var d' := Withdrawn(d, block).value.0;
    assert LatestDistributionTime(d'.activeEpoch, later) == LatestDistributionTime(d.activeEpoch, block);
  }

  /**
   * Withdrawing in the block that freshly funded a paused distribution, or a
   * linear one with at least one unit's worth, returns the whole deposit and
   * leaves nothing funded.
   */
  lemma WithdrawUndoesFreshFund(d: DistributionState, amount: Uint128, block: Block, totalPower: nat)
    requires Inv(d) && d.fundedAmount == 0
    requires d.activeEpoch.emissionRate.Paused?
          || (d.activeEpoch.emissionRate.Linear? && amount >= d.activeEpoch.emissionRate.amount)
    ensures Funded(d, amount, block, totalPower).Ok?
    ensures var d1 := Funded(d, amount, block, totalPower).value;
      Withdrawn(d1, block).Ok? && Withdrawn(d1, block).value.1 == amount
      && Withdrawn(d1, block).value.0.fundedAmount == 0
  {
    FundFailsOnlyOnOverflow(d, amount, block, totalPower);
    var d1 := Funded(d, amount, block, totalPower).value;
    FundSetsEnd(d, amount, block, totalPower);
    FundPreservesInv(d, amount, block, totalPower);
    if d.activeEpoch.emissionRate.Linear? {
      var rate := d.activeEpoch.emissionRate.amount;
      var n := Elapsed(d1.activeEpoch.endsAt, d1.activeEpoch.startedAt);
      if n == 0 {
        assert false;
      }
      assert !d1.activeEpoch.endsAt.IsExpired(block);
    }
    WithdrawSucceedsWhileOpen(d1, block);
  }

  // ---------------------------------------------------------------- accrual

  /** The accumulator never runs backwards as blocks go by. */
  lemma AccumulatorMonotone(d: DistributionState, block: Block, later: Block, totalPower: nat)
    requires NotBefore(later, block)
    ensures ActiveTotalEarnedPuvp(d, block, totalPower) <= ActiveTotalEarnedPuvp(d, later, totalPower)
  {
    var e := d.activeEpoch;
    if e.emissionRate.Linear? && totalPower > 0 {
      var p := UnaccountedPeriod(e, block);
      var p' := UnaccountedPeriod(e, later);
      assert p <= p';
      var k := e.emissionRate.amount * SCALE;
      MulRightMono(p, p', k);
      assert p * e.emissionRate.amount * SCALE == p * k;
      assert p' * e.emissionRate.amount * SCALE == p' * k;
      if p > 0 {
        DivMono(p * k, p' * k, totalPower);
      }
    }
  }

  function SumOf(s: seq<nat>): nat {
    if s == [] then 0 else s[0] + SumOf(s[1..])
  }

  /** What participants of the given voting powers are credited for an accumulator increase `delta`. */
  function Credited(powers: seq<nat>, delta: nat): nat {
    if powers == [] then 0 else powers[0] * delta / SCALE + Credited(powers[1..], delta)
  }

  lemma {:induction false} CreditedBound(powers: seq<nat>, delta: nat)
    ensures Credited(powers, delta) * SCALE <= SumOf(powers) * delta
  {
    if powers != [] {
      CreditedBound(powers[1..], delta);
      FloorTimesDivisor(powers[0] * delta, SCALE);
      calc {
        Credited(powers, delta) * SCALE;
        == (powers[0] * delta / SCALE) * SCALE + Credited(powers[1..], delta) * SCALE;
        <= powers[0] * delta + SumOf(powers[1..]) * delta;
        == SumOf(powers) * delta;
      }
    }
  }

  /**
   * Conservation in one step of a linear rate: however the accumulator's
   * increase is shared among participants whose voting powers add up to at most
   * the total voting power, the rewards credited do not exceed what the rate
   * released over the unaccounted period.
   */
  lemma LinearStepConserves(d: DistributionState, block: Block, totalPower: nat, powers: seq<nat>)
    requires d.activeEpoch.emissionRate.Linear? && SumOf(powers) <= totalPower
    ensures Credited(powers, ActiveTotalEarnedPuvp(d, block, totalPower) - d.activeEpoch.totalEarnedPuvp)
         <= UnaccountedPeriod(d.activeEpoch, block) * d.activeEpoch.emissionRate.amount
  {
    var delta := ActiveTotalEarnedPuvp(d, block, totalPower) - d.activeEpoch.totalEarnedPuvp;
    var released := UnaccountedPeriod(d.activeEpoch, block) * d.activeEpoch.emissionRate.amount;
    CreditedBound(powers, delta);
    if totalPower > 0 {
      MulRightMono(SumOf(powers), totalPower, delta);
      assert delta * totalPower <= released * SCALE;
      CancelFactor(Credited(powers, delta), released, SCALE);
    } else {
      assert delta == 0;
    }
  }

  /**
   * Conservation for an immediate rate: the shares of a freshly funded `amount`
   * credited to participants whose powers add up to at most the total voting
   * power do not exceed `amount`.
   */
  lemma ImmediateStepConserves(d: DistributionState, amount: nat, totalPower: nat, powers: seq<nat>)
    requires SumOf(powers) <= totalPower
    ensures Credited(powers, WithImmediateEmission(d, amount, totalPower).activeEpoch.totalEarnedPuvp
                             - d.activeEpoch.totalEarnedPuvp) <= amount
  {
    var delta := WithImmediateEmission(d, amount, totalPower).activeEpoch.totalEarnedPuvp - d.activeEpoch.totalEarnedPuvp;
    CreditedBound(powers, delta);
    if totalPower > 0 {
      assert delta == amount * SCALE / totalPower;
      FloorTimesDivisor(amount * SCALE, totalPower);
      MulRightMono(SumOf(powers), totalPower, delta);
      assert delta * totalPower <= amount * SCALE;
      CancelFactor(Credited(powers, delta), amount, SCALE);
    } else {
      assert delta == 0;
    }
  }

  // ---------------------------------------------------------------- reconciliation

  /**
   * Reconciling twice in the same block with the same voting powers changes
   * nothing the second time: no new accrual, the same records.
   */
  lemma UpdateRewardsIdempotent(d: DistributionState, user: UserRewardState, block: Block, votingPower: nat, totalPower: nat)
    requires UpdateRewards(d, user, block, votingPower, totalPower).Ok?
    ensures var (d1, user1) := UpdateRewards(d, user, block, votingPower, totalPower).value;
      UpdateRewards(d1, user1, block, votingPower, totalPower) == Ok((d1, user1))
  {
    var (d1, user1) := UpdateRewards(d, user, block, votingPower, totalPower).value;
    assert UnaccountedPeriod(d1.activeEpoch, block) == 0;
    assert ActiveTotalEarnedPuvp(d1, block, totalPower) == d1.activeEpoch.totalEarnedPuvp;
    assert BumpLastUpdated(d1.activeEpoch, block) == d1.activeEpoch;
    var applicable := d1.activeEpoch.totalEarnedPuvp + d1.historicalEarnedPuvp;
    assert Lookup(user1.accountedForRewardsPuvp, d.id) == applicable;
    assert AccruedRewardsNotYetAccountedFor(applicable, d1.id, user1, votingPower) == Ok(0);
    assert user1.pendingRewards[d.id := Lookup(user1.pendingRewards, d.id)] == user1.pendingRewards;
    assert user1.accountedForRewardsPuvp[d.id := applicable] == user1.accountedForRewardsPuvp;
  }

  /**
   * The pending-rewards query reports exactly what reconciling would leave
   * owed for the distribution, and fails exactly when reconciling would.
   */
  lemma QueryMatchesReconciliation(d: DistributionState, user: UserRewardState, block: Block, votingPower: nat, totalPower: nat)
    ensures PendingRewardsFor(d, user, block, votingPower, totalPower).Ok?
        <==> UpdateRewards(d, user, block, votingPower, totalPower).Ok?
    ensures PendingRewardsFor(d, user, block, votingPower, totalPower).Ok? ==>
      UpdateRewards(d, user, block, votingPower, totalPower).value.1.pendingRewards[d.id]
        == PendingRewardsFor(d, user, block, votingPower, totalPower).value
  {
  }

  /** Reconciliation only touches the reconciled distribution's entries and its accumulator. */
  lemma UpdateRewardsIsLocal(d: DistributionState, user: UserRewardState, block: Block, votingPower: nat, totalPower: nat)
    requires UpdateRewards(d, user, block, votingPower, totalPower).Ok?
    ensures var (d1, user1) := UpdateRewards(d, user, block, votingPower, totalPower).value;
      && (forall id :: id != d.id ==> Lookup(user1.pendingRewards, id) == Lookup(user.pendingRewards, id))
      && (forall id :: id != d.id ==> Lookup(user1.accountedForRewardsPuvp, id) == Lookup(user.accountedForRewardsPuvp, id))
      && d.id in user1.pendingRewards
      && d1 == d.(activeEpoch := d1.activeEpoch)
      && d1.activeEpoch.(totalEarnedPuvp := d.activeEpoch.totalEarnedPuvp,
                         lastUpdatedTotalEarnedPuvp := d.activeEpoch.lastUpdatedTotalEarnedPuvp) == d.activeEpoch
      && (Inv(d) ==> Inv(d1))
  {
  }

  /** Nobody is owed anything by a distribution that was just created. */
  lemma NewDistributionOwesNothing(id: nat, denom: Denom, rate: EmissionRate, vp: Addr, hook: Addr, dest: Addr,
                                   user: UserRewardState, block: Block, votingPower: nat, totalPower: nat)
    requires id !in user.pendingRewards && id !in user.accountedForRewardsPuvp
    ensures PendingRewardsFor(NewDistribution(id, denom, rate, vp, hook, dest), user, block, votingPower, totalPower) == Ok(0)
  {
  }

  /**
   * Ten per block shared by voting powers 100, 50 and 50: after one block the
   * members are owed 5, 2 and 2. The accumulator keeps the fraction, so only
   * the final share is rounded down.
   */
  lemma SmallRewardsSplit()
    ensures var created := NewDistribution(1, Native("ujuno"), Linear(10, Height, false), "vp", "hook", "owner");
      var funded := Funded(created, 1_000_000, Block(0, 0), 200);
      var ledger := UserRewardState(map[], map[]);
      && funded.Ok? && funded.value.activeEpoch.endsAt == AtHeight(100_000)
      && PendingRewardsFor(funded.value, ledger, Block(1, 1), 100, 200) == Ok(5)
      && PendingRewardsFor(funded.value, ledger, Block(1, 1), 50, 200) == Ok(2)
  {
  }

  /**
   * 100,000,000 funded at block 1000 at a thousand per block, shared by voting
   * powers 100, 50 and 50: the window ends at block 101,000, and each block
   * owes the members 500, 250 and 250.
   */
  lemma ThreeStakerAccrual()
    ensures var created := NewDistribution(1, Native("ujuno"), Linear(1000, Height, false), "vp", "hook", "owner");
      var funded := Funded(created, 100_000_000, Block(1000, 0), 200);
      var ledger := UserRewardState(map[], map[]);
      && funded.Ok? && funded.value.activeEpoch.endsAt == AtHeight(101_000)
      && PendingRewardsFor(funded.value, ledger, Block(1001, 0), 100, 200) == Ok(500)
      && PendingRewardsFor(funded.value, ledger, Block(1001, 0), 50, 200) == Ok(250)
      && PendingRewardsFor(funded.value, ledger, Block(1002, 0), 100, 200) == Ok(1000)
      && PendingRewardsFor(funded.value, ledger, Block(1002, 0), 50, 200) == Ok(500)
  {
  }

  // ---------------------------------------------------------------- rate changes

  /** A rate change on a well-formed distribution with a valid new rate always succeeds and stays well formed. */
  lemma TransitionPreservesInv(d: DistributionState, rate: EmissionRate, block: Block, totalPower: nat)
    requires Inv(d) && Validate(rate).Ok?
    ensures TransitionEpoch(d, rate, block, totalPower).Ok?
    ensures Inv(TransitionEpoch(d, rate, block, totalPower).value)
    ensures var d' := TransitionEpoch(d, rate, block, totalPower).value;
      d' == d.(activeEpoch := d'.activeEpoch, fundedAmount := d'.fundedAmount,
               historicalEarnedPuvp := d'.historicalEarnedPuvp)
  {
    if d.activeEpoch.emissionRate != rate {
      var e := d.activeEpoch;
      var closed := e.(totalEarnedPuvp := ActiveTotalEarnedPuvp(d, block, totalPower),
                       endsAt := LatestDistributionTime(e, block));
      if e.emissionRate.Linear? && !e.startedAt.Never? {
        assert Elapsed(closed.endsAt, e.startedAt) <= Elapsed(e.endsAt, e.startedAt);
        MulLeftMono(Elapsed(closed.endsAt, e.startedAt), Elapsed(e.endsAt, e.startedAt), e.emissionRate.amount);
      }
      var start := StartOf(rate, block);
      if rate.Linear? {
        assert start.CountsIn(rate.unit);
      }
    }
  }

  /**
   * A rate change neither creates nor loses earned rewards: at the block of the
   * change, the historical plus active earned-per-unit values are the same
   * before and after (an immediate new rate then releases the remaining funds
   * on top).
   */
  lemma TransitionKeepsEarned(d: DistributionState, rate: EmissionRate, block: Block, totalPower: nat)
    requires TransitionEpoch(d, rate, block, totalPower).Ok? && rate != Immediate
    ensures var d' := TransitionEpoch(d, rate, block, totalPower).value;
      d'.historicalEarnedPuvp + ActiveTotalEarnedPuvp(d', block, totalPower)
        == d.historicalEarnedPuvp + ActiveTotalEarnedPuvp(d, block, totalPower)
  {
    var d' := TransitionEpoch(d, rate, block, totalPower).value;
    if d.activeEpoch.emissionRate != rate && rate.Linear? {
      assert UnaccountedPeriod(d'.activeEpoch, block) == 0;
    }
  }

  /**
   * A rate change keeps exactly the funds the closed epoch did not release: the
   * new funded amount plus the closed epoch's total is the old funded amount.
   */
  lemma TransitionKeepsUnreleasedFunds(d: DistributionState, rate: EmissionRate, block: Block, totalPower: nat)
    requires TransitionEpoch(d, rate, block, totalPower).Ok? && d.activeEpoch.emissionRate != rate
    ensures var closed := d.(activeEpoch := d.activeEpoch.(endsAt := LatestDistributionTime(d.activeEpoch, block)));
      TotalRewards(closed).Ok?
      && TransitionEpoch(d, rate, block, totalPower).value.fundedAmount + TotalRewards(closed).value == d.fundedAmount
  {
  }

  // ---------------------------------------------------------------- the last-update mark

  /** The moments a record remembers stay in the past as the chain moves on. */
  lemma NotInFutureLater(d: DistributionState, block: Block, later: Block)
    requires NotInFuture(d, block) && NotBefore(later, block)
    ensures NotInFuture(d, later)
  {
  }

  /** Funding leaves the accumulator's mark inside the (possibly new) window, and not in the future. */
  lemma FundKeepsMarkInWindow(d: DistributionState, amount: Uint128, block: Block, totalPower: nat)
    requires Inv(d) && MarkInWindow(d) && NotInFuture(d, block) && Funded(d, amount, block, totalPower).Ok?
    ensures MarkInWindow(Funded(d, amount, block, totalPower).value)
    ensures NotInFuture(Funded(d, amount, block, totalPower).value, block)
  {
    FundSetsEnd(d, amount, block, totalPower);
  }

  /** Withdrawing ends the window at the current block, which the mark has not passed. */
  lemma WithdrawKeepsMarkInWindow(d: DistributionState, block: Block)
    requires Inv(d) && MarkInWindow(d) && NotInFuture(d, block) && Withdrawn(d, block).Ok?
    ensures MarkInWindow(Withdrawn(d, block).value.0)
    ensures NotInFuture(Withdrawn(d, block).value.0, block)
  {
  }

  /** Reconciling moves the mark to the earlier of now and the window's end, inside the window. */
  lemma UpdateRewardsKeepsMarkInWindow(d: DistributionState, user: UserRewardState, block: Block,
                                       votingPower: nat, totalPower: nat)
    requires Inv(d) && MarkInWindow(d) && NotInFuture(d, block)
    requires UpdateRewards(d, user, block, votingPower, totalPower).Ok?
    ensures MarkInWindow(UpdateRewards(d, user, block, votingPower, totalPower).value.0)
    ensures NotInFuture(UpdateRewards(d, user, block, votingPower, totalPower).value.0, block)
  {
  }

  /** A rate change opens the new window with its mark at its start. */
  lemma TransitionKeepsMarkInWindow(d: DistributionState, rate: EmissionRate, block: Block, totalPower: nat)
    requires Inv(d) && MarkInWindow(d) && NotInFuture(d, block) && TransitionEpoch(d, rate, block, totalPower).Ok?
    ensures MarkInWindow(TransitionEpoch(d, rate, block, totalPower).value)
    ensures NotInFuture(TransitionEpoch(d, rate, block, totalPower).value, block)
  {
  }

  // ---------------------------------------------------------------- reconciling before a top-up

  /**
   * Two roundings down lose at most one unit against rounding the sum once:
   * if `q1`, `q2` and `q` are the quotients of `x`, `y` and `x + y` by `p`,
   * then `q` is `q1 + q2` or one more.
   */
  lemma QuotientsOfSum(x: nat, y: nat, p: nat, q1: nat, q2: nat, q: nat)
    requires q1 * p <= x < (q1 + 1) * p && q2 * p <= y < (q2 + 1) * p && q * p <= x + y < (q + 1) * p
    ensures q1 + q2 <= q <= q1 + q2 + 1
  {
    Distribute(p, q1, q2);
    if q1 + q2 > q {
      MulRightMono(q + 1, q1 + q2, p);
    }
    Distribute(p, q1 + 1, q2 + 1);
    if q > q1 + q2 + 1 {
      MulRightMono(q1 + q2 + 2, q, p);
    }
  }

  lemma Distribute(p: nat, a: nat, b: nat)
    ensures p * (a + b) == p * a + p * b
  {
  }

  lemma SplitProduct(a: nat, b: nat, c: nat, k: nat)
    ensures (a + b) * c * k == a * c * k + b * c * k
  {
    Distribute(c * k, a, b);
    assert (a + b) * c * k == (c * k) * (a + b);
  }

  /** A continuous top-up that does not restart only moves the window's end later. */
  lemma TopUpExtendsWindow(d: DistributionState, amount: Uint128, block: Block, totalPower: nat)
    requires Inv(d) && MarkInWindow(d) && d.activeEpoch.emissionRate.Linear? && !ShouldRestart(d, block)
    requires Funded(d, amount, block, totalPower).Ok?
    ensures NoLaterThan(d.activeEpoch.endsAt, Funded(d, amount, block, totalPower).value.activeEpoch.endsAt)
  {
    var d' := Funded(d, amount, block, totalPower).value;
    var e := d.activeEpoch;
    var rate := e.emissionRate;
    FundSetsEnd(d, amount, block, totalPower);
    var dur := FundedPeriodDuration(rate, d'.fundedAmount).value.value;
    assert d'.activeEpoch.endsAt == AddDuration(e.startedAt, dur).value;
    ElapsedUndoesAdd(e.startedAt, dur);
    var n, n' := Elapsed(e.endsAt, e.startedAt), Elapsed(d'.activeEpoch.endsAt, e.startedAt);
    assert rate.amount * n < rate.amount * (n' + 1);
    if n > n' {
      MulLeftMono(n' + 1, n, rate.amount);
    }
  }

  /** The mark never passes the earlier of now and the window's end, and that point only moves forward. */
  lemma LatestMovesForward(e: Epoch, e': Epoch, block: Block, later: Block)
    requires NoLaterThan(e.lastUpdatedTotalEarnedPuvp, e.endsAt)
    requires e.lastUpdatedTotalEarnedPuvp.Never? || e.lastUpdatedTotalEarnedPuvp.IsExpired(block)
    requires NoLaterThan(e.endsAt, e'.endsAt) && NotBefore(later, block)
    ensures NoLaterThan(e.lastUpdatedTotalEarnedPuvp, LatestDistributionTime(e, block))
    ensures NoLaterThan(LatestDistributionTime(e, block), LatestDistributionTime(e', later))
  {
  }

  /** Measured across a point in between, the time from `a` to `c` is the sum of its two parts. */
  lemma ElapsedSplits(a: Expiration, b: Expiration, c: Expiration)
    requires NoLaterThan(a, b) && NoLaterThan(b, c)
    ensures Elapsed(c, a) == Elapsed(b, a) + Elapsed(c, b)
  {
  }

  /**
   * A continuous top-up that does not restart treats two records alike when
   * they differ only in the accumulator and its mark, except for the
   * accumulator it produces.
   */
  lemma TopUpIgnoresAccumulator(d: DistributionState, d1: DistributionState, amount: Uint128, block: Block,
                                totalPower: nat)
    requires IsContinuous(d.activeEpoch.emissionRate) && d.fundedAmount > 0
    requires d1 == d.(activeEpoch := d.activeEpoch.(totalEarnedPuvp := d1.activeEpoch.totalEarnedPuvp,
                                                    lastUpdatedTotalEarnedPuvp := d1.activeEpoch.lastUpdatedTotalEarnedPuvp))
    ensures Funded(d, amount, block, totalPower).Ok? <==> Funded(d1, amount, block, totalPower).Ok?
    ensures Funded(d, amount, block, totalPower).Ok? ==>
      var e := Funded(d, amount, block, totalPower).value.activeEpoch;
      Funded(d1, amount, block, totalPower).value
        == Funded(d, amount, block, totalPower).value.(activeEpoch := e.(totalEarnedPuvp :=
             Funded(d1, amount, block, totalPower).value.activeEpoch.totalEarnedPuvp))
  {
    assert !ShouldRestart(d, block) && !ShouldRestart(d1, block);
  }

  /**
   * Accruing a period in two steps, the first from `d` at `reconciled` and the
   * rest from `x1` at `funded`, ends at most one unit below accruing it in one
   * step from `x` at `funded`.
   */
  lemma AccrualInTwoSteps(d: DistributionState, x: DistributionState, x1: DistributionState,
                          reconciled: Block, funded: Block, totalPower: nat)
    requires d.activeEpoch.emissionRate.Linear? && totalPower > 0
    requires x.activeEpoch.emissionRate == d.activeEpoch.emissionRate == x1.activeEpoch.emissionRate
    requires x.activeEpoch.totalEarnedPuvp == d.activeEpoch.totalEarnedPuvp
    requires x1.activeEpoch.totalEarnedPuvp == ActiveTotalEarnedPuvp(d, reconciled, totalPower)
    requires UnaccountedPeriod(x.activeEpoch, funded)
          == UnaccountedPeriod(d.activeEpoch, reconciled) + UnaccountedPeriod(x1.activeEpoch, funded)
    ensures ActiveTotalEarnedPuvp(x1, funded, totalPower) <= ActiveTotalEarnedPuvp(x, funded, totalPower)
         <= ActiveTotalEarnedPuvp(x1, funded, totalPower) + 1
  {
    var amount := d.activeEpoch.emissionRate.amount;
    var p1, p2 := UnaccountedPeriod(d.activeEpoch, reconciled), UnaccountedPeriod(x1.activeEpoch, funded);
    var r1, r2 := p1 * amount * SCALE, p2 * amount * SCALE;
    var acc0, acc1 := d.activeEpoch.totalEarnedPuvp, x1.activeEpoch.totalEarnedPuvp;
    var q1 := acc1 - acc0;
    var q2 := ActiveTotalEarnedPuvp(x1, funded, totalPower) - acc1;
    var q := ActiveTotalEarnedPuvp(x, funded, totalPower) - acc0;
    assert q1 + q2 <= q <= q1 + q2 + 1 by {
      assert q1 * totalPower <= r1 < (q1 + 1) * totalPower;
      assert q2 * totalPower <= r2 < (q2 + 1) * totalPower;
      assert q * totalPower <= r1 + r2 < (q + 1) * totalPower by {
        SplitProduct(p1, p2, amount, SCALE);
      }
      QuotientsOfSum(r1, r2, totalPower, q1, q2, q);
    }
  }

  /**
   * The period a top-up back-fills from the mark is the period a reconciliation
   * before it accounted plus the period the top-up then accounts from the new mark.
   */
  lemma PeriodSplitsAtReconcile(e: Epoch, ends: Expiration, reconciled: Block, funded: Block)
    requires NoLaterThan(e.lastUpdatedTotalEarnedPuvp, e.endsAt)
    requires e.lastUpdatedTotalEarnedPuvp.Never? || e.lastUpdatedTotalEarnedPuvp.IsExpired(reconciled)
    requires NoLaterThan(e.endsAt, ends) && NotBefore(funded, reconciled)
    ensures UnaccountedPeriod(e.(endsAt := ends), funded)
         == UnaccountedPeriod(e, reconciled)
          + UnaccountedPeriod(e.(endsAt := ends, lastUpdatedTotalEarnedPuvp := LatestDistributionTime(e, reconciled)), funded)
  {
    var t := LatestDistributionTime(e.(endsAt := ends), funded);
    LatestMovesForward(e, e.(endsAt := ends), reconciled, funded);
    ElapsedSplits(e.lastUpdatedTotalEarnedPuvp, LatestDistributionTime(e, reconciled), t);
  }

  /**
   * Reconciling a participant before a continuous top-up loses nothing of the
   * back-filled time: the top-up then credits the rest of the same period, so
   * the record it produces is the one the top-up alone would produce, except
   * that the accumulator can be one unit lower from rounding the period's
   * release in two parts instead of one.
   */
  lemma ReconcileBeforeTopUp(d: DistributionState, user: UserRewardState, reconciled: Block, funded: Block,
                             amount: Uint128, votingPower: nat, totalPower: nat)
    requires Inv(d) && MarkInWindow(d) && NotInFuture(d, reconciled) && NotBefore(funded, reconciled)
    requires IsContinuous(d.activeEpoch.emissionRate) && d.fundedAmount > 0
    requires UpdateRewards(d, user, reconciled, votingPower, totalPower).Ok?
    ensures var d1 := UpdateRewards(d, user, reconciled, votingPower, totalPower).value.0;
      var direct := Funded(d, amount, funded, totalPower);
      var after := Funded(d1, amount, funded, totalPower);
      && (direct.Ok? <==> after.Ok?)
      && (direct.Ok? ==>
            var e := direct.value.activeEpoch;
            var e' := after.value.activeEpoch;
            && after.value == direct.value.(activeEpoch := e.(totalEarnedPuvp := e'.totalEarnedPuvp))
            && e'.totalEarnedPuvp <= e.totalEarnedPuvp <= e'.totalEarnedPuvp + 1)
  {
    var d1 := UpdateRewards(d, user, reconciled, votingPower, totalPower).value.0;
    UpdateRewardsIsLocal(d, user, reconciled, votingPower, totalPower);
    TopUpIgnoresAccumulator(d, d1, amount, funded, totalPower);
    if Funded(d, amount, funded, totalPower).Ok? && totalPower > 0 {
      TopUpAfterReconcileAccrues(d, d1, amount, reconciled, funded, totalPower);
    }
  }

  /**
   * The one unit in `ReconcileBeforeTopUp` can be lost: one per block over two
   * blocks, shared by a total power of 7, accrues one unit less per unit of
   * power when reconciled after the first block than in one go.
   */
  lemma ReconcilingCanRoundDown()
    ensures var d := DistributionState(1, Native("ujuno"),
                                       Epoch(AtHeight(0), AtHeight(10), Linear(1, Height, true), 0, AtHeight(0)),
                                       "vp", "hook", 10, "owner", 0);
      var d1 := d.(activeEpoch := BumpLastUpdated(d.activeEpoch.(totalEarnedPuvp := ActiveTotalEarnedPuvp(d, Block(1, 1), 7)),
                                                  Block(1, 1)));
      ActiveTotalEarnedPuvp(d1, Block(2, 2), 7) + 1 == ActiveTotalEarnedPuvp(d, Block(2, 2), 7)
  {
  }

  /** The accumulator half of `ReconcileBeforeTopUp`, for the record `d1` a reconciliation at `reconciled` leaves. */
  lemma TopUpAfterReconcileAccrues(d: DistributionState, d1: DistributionState, amount: Uint128,
                                   reconciled: Block, funded: Block, totalPower: nat)
    requires Inv(d) && MarkInWindow(d) && NotInFuture(d, reconciled) && NotBefore(funded, reconciled)
    requires IsContinuous(d.activeEpoch.emissionRate) && d.fundedAmount > 0 && totalPower > 0
    requires d1 == d.(activeEpoch := d.activeEpoch.(
      totalEarnedPuvp := ActiveTotalEarnedPuvp(d, reconciled, totalPower),
      lastUpdatedTotalEarnedPuvp := LatestDistributionTime(d.activeEpoch, reconciled)))
    requires Funded(d, amount, funded, totalPower).Ok? && Funded(d1, amount, funded, totalPower).Ok?
    ensures Funded(d1, amount, funded, totalPower).value.activeEpoch.totalEarnedPuvp
         <= Funded(d, amount, funded, totalPower).value.activeEpoch.totalEarnedPuvp
         <= Funded(d1, amount, funded, totalPower).value.activeEpoch.totalEarnedPuvp + 1
  {
    var e := d.activeEpoch;
    var direct := Funded(d, amount, funded, totalPower).value;
    var after := Funded(d1, amount, funded, totalPower).value;
    FundMovesAccumulator(d, amount, funded, totalPower);
    FundMovesAccumulator(d1, amount, funded, totalPower);
    TopUpExtendsWindow(d, amount, funded, totalPower);
    var ends := direct.activeEpoch.endsAt;
    assert after.activeEpoch.endsAt == ends;
    PeriodSplitsAtReconcile(e, ends, reconciled, funded);
    var x := direct.(activeEpoch := direct.activeEpoch.(totalEarnedPuvp := e.totalEarnedPuvp,
                                                       lastUpdatedTotalEarnedPuvp := e.lastUpdatedTotalEarnedPuvp));
    var x1 := after.(activeEpoch := after.activeEpoch.(totalEarnedPuvp := d1.activeEpoch.totalEarnedPuvp,
                                                      lastUpdatedTotalEarnedPuvp := d1.activeEpoch.lastUpdatedTotalEarnedPuvp));
    assert x.activeEpoch == e.(endsAt := ends);
    assert x1.activeEpoch == d1.activeEpoch.(endsAt := ends);
    AccrualInTwoSteps(d, x, x1, reconciled, funded, totalPower);
  }
}
