/**
 * Conservation over a history: while the voting powers stay fixed and the rate
 * does not change, any sequence of reconciliations and claims by the members of
 * a linear distribution leaves what they have claimed plus what they are still
 * owed within what the rate has released, and so within the funded amount.
 */
module RewardsConservation {
  import opened Wrappers
  import opened Chain
  import opened RewardsState
  import opened RewardsContract
  import opened RewardsProperties

  /** A member of the voting-power contract: their voting power, their ledger, and what they have claimed so far. */
  datatype Member = Member(power: nat, ledger: UserRewardState, claimed: nat)

  /** What the member has claimed from distribution `id` plus what they are still owed by it. */
  function Owed(id: nat, m: Member): nat {
    Lookup(m.ledger.pendingRewards, id) + m.claimed
  }

  /** The earned-per-unit value the member was last reconciled at. */
  function ReconciledAt(id: nat, m: Member): nat {
    Lookup(m.ledger.accountedForRewardsPuvp, id)
  }

  function PowerOf(members: seq<Member>): nat {
    if members == [] then 0 else members[0].power + PowerOf(members[1..])
  }

  function OwedTo(id: nat, members: seq<Member>): nat {
    if members == [] then 0 else Owed(id, members[0]) + OwedTo(id, members[1..])
  }

  /** What a linear rate has released from the window's start up to the accumulator's mark. */
  function Released(d: DistributionState): nat
    requires d.activeEpoch.emissionRate.Linear?
  {
    d.activeEpoch.emissionRate.amount * Elapsed(d.activeEpoch.lastUpdatedTotalEarnedPuvp, d.activeEpoch.startedAt)
  }

  /**
   * The conservation invariant of a linear distribution whose rate never
   * changed, shared by members whose powers add up to at most `totalPower`:
   * the accumulator has handed out per unit of power no more than the rate
   * released, every member is reconciled at no more than the accumulator, and
   * each member has been credited no more than their power times the value
   * they are reconciled at.
   */
  ghost predicate Conserved(d: DistributionState, totalPower: nat, members: seq<Member>) {
    && d.activeEpoch.emissionRate.Linear? && d.historicalEarnedPuvp == 0
    && d.activeEpoch.totalEarnedPuvp * totalPower <= Released(d) * SCALE
    && PowerOf(members) <= totalPower
    && forall i :: 0 <= i < |members| ==>
         && ReconciledAt(d.id, members[i]) <= d.activeEpoch.totalEarnedPuvp
         && Owed(d.id, members[i]) * SCALE <= members[i].power * ReconciledAt(d.id, members[i])
  }

  // ---------------------------------------------------------------- the bound

  lemma {:induction false} OwedWithinPower(id: nat, members: seq<Member>, acc: nat)
    requires forall i :: 0 <= i < |members| ==>
      ReconciledAt(id, members[i]) <= acc && Owed(id, members[i]) * SCALE <= members[i].power * ReconciledAt(id, members[i])
    ensures OwedTo(id, members) * SCALE <= PowerOf(members) * acc
  {
    if members != [] {
      var m := members[0];
      var owed, rest := Owed(id, m), OwedTo(id, members[1..]);
      OwedWithinPower(id, members[1..], acc);
      assert owed * SCALE <= m.power * acc by {
        assert 0 < |members|;
        MulLeftMono(ReconciledAt(id, m), acc, m.power);
      }
      AddTimes(owed, rest, SCALE);
      AddTimes(m.power, PowerOf(members[1..]), acc);
    }
  }

  lemma AddTimes(a: nat, b: nat, c: nat)
    ensures (a + b) * c == a * c + b * c
  {
  }

  /**
   * Under the invariant, the members have together claimed and are owed no
   * more than the rate released, and on a well-formed record whose mark lies in
   * its window, no more than the funded amount.
   */
  lemma ConservedBound(d: DistributionState, totalPower: nat, members: seq<Member>)
    requires Conserved(d, totalPower, members)
    ensures OwedTo(d.id, members) <= Released(d)
    ensures Inv(d) && MarkInWindow(d) ==> OwedTo(d.id, members) <= d.fundedAmount
  {
    var acc := d.activeEpoch.totalEarnedPuvp;
    OwedWithinPower(d.id, members, acc);
    MulRightMono(PowerOf(members), totalPower, acc);
    CancelFactor(OwedTo(d.id, members), Released(d), SCALE);
    if Inv(d) && MarkInWindow(d) {
      var e := d.activeEpoch;
      if !e.startedAt.Never? {
        ElapsedSplits(e.startedAt, e.lastUpdatedTotalEarnedPuvp, e.endsAt);
        MulLeftMono(Elapsed(e.lastUpdatedTotalEarnedPuvp, e.startedAt), Elapsed(e.endsAt, e.startedAt),
                    e.emissionRate.amount);
      }
    }
  }

  /** Members who never interacted with a distribution that has accrued nothing satisfy the invariant. */
  lemma FreshMembersConserved(d: DistributionState, totalPower: nat, members: seq<Member>)
    requires d.activeEpoch.emissionRate.Linear? && d.historicalEarnedPuvp == 0 && d.activeEpoch.totalEarnedPuvp == 0
    requires PowerOf(members) <= totalPower
    requires forall i :: 0 <= i < |members| ==>
      d.id !in members[i].ledger.pendingRewards && d.id !in members[i].ledger.accountedForRewardsPuvp
      && members[i].claimed == 0
    ensures Conserved(d, totalPower, members)
  {
  }

  // ---------------------------------------------------------------- one step

  /** Splitting the release at the new mark: what was released plus what the step accounts is what is released now. */
  lemma ReleaseGrows(amount: nat, before: nat, step: nat, acc: nat, delta: nat, totalPower: nat)
    requires acc * totalPower <= amount * before * SCALE
    requires delta * totalPower <= step * amount * SCALE
    ensures (acc + delta) * totalPower <= amount * (before + step) * SCALE
  {
    assert (acc + delta) * totalPower == acc * totalPower + delta * totalPower;
    assert amount * (before + step) * SCALE == amount * before * SCALE + step * amount * SCALE;
  }

  /** A reconciliation credits a member up to their power times the accumulator it reconciles them at. */
  lemma CreditWithinPower(owed: nat, credited: nat, power: nat, last: nat, acc: nat)
    requires owed * SCALE <= power * last && last <= acc
    requires credited * SCALE <= (acc - last) * power
    ensures (owed + credited) * SCALE <= power * acc
  {
    assert (acc - last) * power + power * last == power * acc;
  }

  /**
   * Reconciling the accumulator to `block` keeps it within the rate's release:
   * the mark moves forward, and the increase is at most the release over the
   * period between the two marks.
   */
  lemma ReconcileKeepsAccumulatorBound(d: DistributionState, block: Block, totalPower: nat)
    requires d.activeEpoch.emissionRate.Linear? && Inv(d) && MarkInWindow(d) && NotInFuture(d, block)
    requires d.activeEpoch.totalEarnedPuvp * totalPower <= Released(d) * SCALE
    ensures var e := d.activeEpoch;
      var d1 := d.(activeEpoch := BumpLastUpdated(e.(totalEarnedPuvp := ActiveTotalEarnedPuvp(d, block, totalPower)), block));
      d1.activeEpoch.totalEarnedPuvp * totalPower <= Released(d1) * SCALE
  {
    var e := d.activeEpoch;
    var mark1 := LatestDistributionTime(e, block);
    var before := Elapsed(e.lastUpdatedTotalEarnedPuvp, e.startedAt);
    var step := UnaccountedPeriod(e, block);
    if !e.startedAt.Never? {
      LatestMovesForward(e, e, block, block);
      ElapsedSplits(e.startedAt, e.lastUpdatedTotalEarnedPuvp, mark1);
    }
    var delta := ActiveTotalEarnedPuvp(d, block, totalPower) - e.totalEarnedPuvp;
    ReleaseGrows(e.emissionRate.amount, before, step, e.totalEarnedPuvp, delta, totalPower);
  }

  /** One member's reconciliation, applied to the members: only their ledger changes. */
  function Reconciled(d: DistributionState, totalPower: nat, members: seq<Member>, who: nat, block: Block)
    : (r: Result<(DistributionState, seq<Member>), StdError>)
    requires who < |members|
    ensures r.Ok? ==> |r.value.1| == |members| && PowerOf(r.value.1) == PowerOf(members)
  {
    var m := members[who];
    var (d1, ledger) :- UpdateRewards(d, m.ledger, block, m.power, totalPower);
    SamePowers(members, who, m.(ledger := ledger));
    Ok((d1, members[who := m.(ledger := ledger)]))
  }

  /**
   * One member's claim, applied to the members: reconcile, then move everything
   * they are owed from pending to claimed; nothing owed is an error.
   */
  function Claimed(d: DistributionState, totalPower: nat, members: seq<Member>, who: nat, block: Block)
    : (r: Result<(DistributionState, seq<Member>), ContractError>)
    requires who < |members|
    ensures r.Ok? ==> |r.value.1| == |members| && PowerOf(r.value.1) == PowerOf(members)
    ensures r.Ok? ==> Reconciled(d, totalPower, members, who, block).Ok?
    ensures r.Ok? ==> OwedTo(d.id, r.value.1) == OwedTo(d.id, Reconciled(d, totalPower, members, who, block).value.1)
  {
    match Reconciled(d, totalPower, members, who, block)
    case Err(e) => Err(Std(e))
    case Ok((d1, reconciled)) =>
      var m := reconciled[who];
      var amount := Lookup(m.ledger.pendingRewards, d.id);
      if amount == 0 then Err(NoRewardsClaimable)
      else
        var paid := m.(ledger := m.ledger.(pendingRewards := m.ledger.pendingRewards[d.id := 0]), claimed := m.claimed + amount);
        SamePowers(reconciled, who, paid);
        SameOwed(d.id, reconciled, who, paid);
        Ok((d1, reconciled[who := paid]))
  }

  lemma {:induction false} SamePowers(members: seq<Member>, who: nat, m: Member)
    requires who < |members| && m.power == members[who].power
    ensures PowerOf(members[who := m]) == PowerOf(members)
  {
    if who > 0 {
      assert members[who := m][1..] == members[1..][who - 1 := m];
      SamePowers(members[1..], who - 1, m);
    }
  }

  lemma {:induction false} SameOwed(id: nat, members: seq<Member>, who: nat, m: Member)
    requires who < |members| && Owed(id, m) == Owed(id, members[who])
    ensures OwedTo(id, members[who := m]) == OwedTo(id, members)
  {
    if who > 0 {
      assert members[who := m][1..] == members[1..][who - 1 := m];
      SameOwed(id, members[1..], who - 1, m);
    }
  }

  /** A reconciliation keeps the invariant, the record well formed, and its mark in the window. */
  lemma ReconcileConserves(d: DistributionState, totalPower: nat, members: seq<Member>, who: nat, block: Block)
    requires who < |members| && Conserved(d, totalPower, members)
    requires Inv(d) && MarkInWindow(d) && NotInFuture(d, block)
    requires Reconciled(d, totalPower, members, who, block).Ok?
    ensures var (d1, members1) := Reconciled(d, totalPower, members, who, block).value;
      Conserved(d1, totalPower, members1) && Inv(d1) && MarkInWindow(d1) && NotInFuture(d1, block) && d1.id == d.id
  {
    var m := members[who];
    var (d1, members1) := Reconciled(d, totalPower, members, who, block).value;
    var ledger := members1[who].ledger;
    UpdateRewardsIsLocal(d, m.ledger, block, m.power, totalPower);
    UpdateRewardsKeepsMarkInWindow(d, m.ledger, block, m.power, totalPower);
    ReconcileKeepsAccumulatorBound(d, block, totalPower);
    var acc1 := d1.activeEpoch.totalEarnedPuvp;
    var last := ReconciledAt(d.id, m);
    var credited := Lookup(ledger.pendingRewards, d.id) - Lookup(m.ledger.pendingRewards, d.id);
    CreditWithinPower(Owed(d.id, m), credited, m.power, last, acc1);
    forall i | 0 <= i < |members1|
      ensures ReconciledAt(d1.id, members1[i]) <= acc1
      ensures Owed(d1.id, members1[i]) * SCALE <= members1[i].power * ReconciledAt(d1.id, members1[i])
    {
      if i != who {
        assert members1[i] == members[i];
      }
    }
  }

  lemma {:induction false} MemberPowerWithin(members: seq<Member>, who: nat)
    requires who < |members|
    ensures members[who].power <= PowerOf(members)
  {
    if who > 0 {
      MemberPowerWithin(members[1..], who - 1);
    }
  }

  /**
   * A member owed at most their power times the value they were reconciled at,
   * credited their share of the accumulator's growth, is owed at most the
   * funded amount when the accumulator is within a release that is.
   */
  lemma CreditWithinFunds(owed: nat, power: nat, totalPower: nat, last: nat, acc: nat, released: nat, funded: nat)
    requires owed * SCALE <= power * last && last <= acc && power <= totalPower
    requires acc * totalPower <= released * SCALE && released <= funded
    ensures owed + (acc - last) * power / SCALE <= funded
  {
    var credited := (acc - last) * power / SCALE;
    FloorTimesDivisor((acc - last) * power, SCALE);
    CreditWithinPower(owed, credited, power, last, acc);
    MulRightMono(power, totalPower, acc);
    MulRightMono(released, funded, SCALE);
    assert (owed + credited) * SCALE <= funded * SCALE;
    CancelFactor(owed + credited, funded, SCALE);
  }

  /** After reconciling to `block`, a well-formed record whose mark was in its window has released no more than it was funded. */
  lemma ReleaseWithinFunds(d: DistributionState, block: Block, totalPower: nat)
    requires d.activeEpoch.emissionRate.Linear? && Inv(d) && MarkInWindow(d) && NotInFuture(d, block)
    ensures var e := d.activeEpoch;
      var d1 := d.(activeEpoch := BumpLastUpdated(e.(totalEarnedPuvp := ActiveTotalEarnedPuvp(d, block, totalPower)), block));
      Released(d1) <= d.fundedAmount
  {
    var e := d.activeEpoch;
    if !e.startedAt.Never? {
      var mark1 := LatestDistributionTime(e, block);
      LatestMovesForward(e, e, block, block);
      ElapsedSplits(e.startedAt, mark1, e.endsAt);
      MulLeftMono(Elapsed(mark1, e.startedAt), Elapsed(e.endsAt, e.startedAt), e.emissionRate.amount);
    }
  }

  /**
   * Under the invariant, reconciling a member of a well-formed record whose
   * mark is in its window never overflows: what the member would be owed is
   * within the funded amount, a 128-bit number. So reconciliation always
   * succeeds, and a claim fails only when nothing is owed.
   */
  lemma ReconcileSucceeds(d: DistributionState, totalPower: nat, members: seq<Member>, who: nat, block: Block)
    requires who < |members| && Conserved(d, totalPower, members)
    requires Inv(d) && MarkInWindow(d) && NotInFuture(d, block)
    ensures Reconciled(d, totalPower, members, who, block).Ok?
    ensures Claimed(d, totalPower, members, who, block).Err? ==>
      Claimed(d, totalPower, members, who, block) == Err(NoRewardsClaimable)
  {
    var m := members[who];
    var e := d.activeEpoch;
    var acc1 := ActiveTotalEarnedPuvp(d, block, totalPower);
    var d1 := d.(activeEpoch := BumpLastUpdated(e.(totalEarnedPuvp := acc1), block));
    ReconcileKeepsAccumulatorBound(d, block, totalPower);
    ReleaseWithinFunds(d, block, totalPower);
    MemberPowerWithin(members, who);
    CreditWithinFunds(Owed(d.id, m), m.power, totalPower, ReconciledAt(d.id, m), acc1, Released(d1), d.fundedAmount);
    assert UpdateRewards(d, m.ledger, block, m.power, totalPower).Ok?;
  }

  /** A claim keeps the invariant: it only moves what is owed from pending to claimed. */
  lemma ClaimConserves(d: DistributionState, totalPower: nat, members: seq<Member>, who: nat, block: Block)
    requires who < |members| && Conserved(d, totalPower, members)
    requires Inv(d) && MarkInWindow(d) && NotInFuture(d, block)
    requires Claimed(d, totalPower, members, who, block).Ok?
    ensures var (d1, members1) := Claimed(d, totalPower, members, who, block).value;
      Conserved(d1, totalPower, members1) && Inv(d1) && MarkInWindow(d1) && NotInFuture(d1, block) && d1.id == d.id
  {
    ReconcileConserves(d, totalPower, members, who, block);
    var (d1, reconciled) := Reconciled(d, totalPower, members, who, block).value;
    var members1 := Claimed(d, totalPower, members, who, block).value.1;
    forall i | 0 <= i < |members1|
      ensures ReconciledAt(d1.id, members1[i]) <= d1.activeEpoch.totalEarnedPuvp
      ensures Owed(d1.id, members1[i]) * SCALE <= members1[i].power * ReconciledAt(d1.id, members1[i])
    {
      if i != who {
        assert members1[i] == reconciled[i];
      }
    }
  }

  // ---------------------------------------------------------------- a history

  /** A member's action at a block. */
  datatype Event = Reconcile(who: nat, block: Block) | Claim(who: nat, block: Block)

  /** Every event names a member, and the blocks never go backwards. */
  predicate WellOrdered(events: seq<Event>, count: nat) {
    && (forall i :: 0 <= i < |events| ==> events[i].who < count)
    && (forall i :: 0 < i < |events| ==> NotBefore(events[i].block, events[i - 1].block))
  }

  /**
   * The state after a history of events, each applied in turn; an event that
   * fails leaves the state as it was (its transaction aborts).
   */
  function Run(d: DistributionState, totalPower: nat, members: seq<Member>, events: seq<Event>)
    : (r: (DistributionState, seq<Member>))
    requires WellOrdered(events, |members|)
    ensures |r.1| == |members| && PowerOf(r.1) == PowerOf(members)
    decreases |events|
  {
    if events == [] then (d, members)
    else
      var ev := events[0];
      var next := match ev
        case Reconcile(who, block) =>
          (match Reconciled(d, totalPower, members, who, block) case Ok(s) => s case Err(_) => (d, members))
        case Claim(who, block) =>
          (match Claimed(d, totalPower, members, who, block) case Ok(s) => s case Err(_) => (d, members));
      Run(next.0, totalPower, next.1, events[1..])
  }

  /**
   * Across any history of reconciliations and claims at fixed voting powers,
   * in block order and starting no earlier than the record's marks, the
   * invariant holds at the end, so the members have together claimed and are
   * owed no more than the distribution's funded amount.
   */
  lemma {:induction false} HistoryConserves(d: DistributionState, totalPower: nat, members: seq<Member>,
                                            events: seq<Event>)
    requires Conserved(d, totalPower, members) && Inv(d) && MarkInWindow(d)
    requires WellOrdered(events, |members|) && (events != [] ==> NotInFuture(d, events[0].block))
    ensures var (d', members') := Run(d, totalPower, members, events);
      && Conserved(d', totalPower, members') && Inv(d') && MarkInWindow(d') && d'.id == d.id
      && OwedTo(d.id, members') <= d'.fundedAmount
    decreases |events|
  {
    if events == [] {
      ConservedBound(d, totalPower, members);
    } else {
      var ev := events[0];
      var next := match ev
        case Reconcile(who, block) =>
          (match Reconciled(d, totalPower, members, who, block) case Ok(s) => s case Err(_) => (d, members))
        case Claim(who, block) =>
          (match Claimed(d, totalPower, members, who, block) case Ok(s) => s case Err(_) => (d, members));
      match ev {
        case Reconcile(who, block) =>
          if Reconciled(d, totalPower, members, who, block).Ok? {
            ReconcileConserves(d, totalPower, members, who, block);
          }
        case Claim(who, block) =>
          if Claimed(d, totalPower, members, who, block).Ok? {
            ClaimConserves(d, totalPower, members, who, block);
          }
      }
      assert NotInFuture(next.0, ev.block);
      if |events| > 1 {
        NotInFutureLater(next.0, ev.block, events[1].block);
      }
      assert WellOrdered(events[1..], |next.1|);
      HistoryConserves(next.0, totalPower, next.1, events[1..]);
    }
  }
}
