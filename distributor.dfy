/**
 * The rewards distributor contract's storage and entry points: a counter of
 * distributions created, the distributions by id, each participant's ledger,
 * and the hook subscriptions. Each entry point checks what the contract checks,
 * in the same order, and either fails leaving storage as it was or applies the
 * record transitions of `RewardsContract`.
 */
module RewardsDistributor {
  import opened Wrappers
  import opened Chain
  import opened RewardsState
  import opened RewardsContract
  import opened RewardsProperties

  /**
   * What the voting-power contracts answer at the current block: a member's
   * power and the total power, by voting-power contract address.
   */
  datatype VotingPower = VotingPower(powerOf: (Addr, Addr) -> nat, totalOf: Addr -> nat)

  /** Who sent a message and the native coins attached to it. */
  datatype MessageInfo = MessageInfo(sender: Addr, funds: seq<Coin>)

  /** One entry of the pending-rewards query. */
  datatype PendingEntry = PendingEntry(id: nat, denom: Denom, pendingRewards: Uint128)

  /** A participant's ledger, or the empty one for someone who never interacted. */
  function LedgerOf(users: map<Addr, UserRewardState>, addr: Addr): (u: UserRewardState)
    ensures addr !in users ==> u.pendingRewards == map[] && u.accountedForRewardsPuvp == map[]
    ensures addr in users ==> u == users[addr]
  {
    if addr in users then users[addr] else UserRewardState(map[], map[])
  }

  /** The record a successful create stores under `id`. */
  function CreatedRecord(id: nat, info: MessageInfo, denom: Denom, rate: EmissionRate, vpContract: Addr,
                         hookCaller: Addr, withdrawDestination: Option<Addr>): DistributionState
  {
    var destination := match withdrawDestination case Some(a) => a case None => info.sender;
    NewDistribution(id, denom, rate, vpContract, hookCaller, destination)
  }

  /** The entries of a pending-rewards page computed one id at a time, or the first failure. */
  function PendingPage(ids: seq<nat>, distributions: map<nat, DistributionState>, user: UserRewardState,
                       addr: Addr, block: Block, vp: VotingPower): Result<seq<PendingEntry>, StdError>
    requires forall i :: 0 <= i < |ids| ==> ids[i] in distributions
  {
    if ids == [] then Ok([])
    else
      var prefix :- PendingPage(ids[..|ids| - 1], distributions, user, addr, block, vp);
      var d := distributions[ids[|ids| - 1]];
      var owed :- PendingRewardsFor(d, user, block, vp.powerOf(d.vpContract, addr), vp.totalOf(d.vpContract));
      Ok(prefix + [PendingEntry(ids[|ids| - 1], d.denom, owed)])
  }

  /** The loop of `query_pending_rewards`: each id's pending amount in turn, stopping at the first error. */
  method CollectPending(ids: seq<nat>, distributions: map<nat, DistributionState>, user: UserRewardState,
                        addr: Addr, block: Block, vp: VotingPower)
    returns (r: Result<seq<PendingEntry>, StdError>)
    requires forall i :: 0 <= i < |ids| ==> ids[i] in distributions
    ensures r == PendingPage(ids, distributions, user, addr, block, vp)
  {
    var entries: seq<PendingEntry> := [];
    var i := 0;
    while i < |ids|
      invariant 0 <= i <= |ids|
      invariant PendingPage(ids[..i], distributions, user, addr, block, vp) == Ok(entries)
    {
      var d := distributions[ids[i]];
      var owed := PendingRewardsFor(d, user, block, vp.powerOf(d.vpContract, addr), vp.totalOf(d.vpContract));
      assert ids[..i + 1][..i] == ids[..i];
      if owed.Err? {
        PendingPageFailurePersists(ids, i + 1, distributions, user, addr, block, vp);
        return Err(owed.error);
      }
      entries := entries + [PendingEntry(ids[i], d.denom, owed.value)];
      i := i + 1;
    }
    assert ids[..i] == ids;
    r := Ok(entries);
  }

  /**
   * Ids run from 1 to the counter, every record is stored under its own id and
   * is well formed, and each distribution is subscribed to exactly its own
   * hook caller.
   */
  ghost predicate ValidTables(count: nat, distributions: map<nat, DistributionState>, hooks: set<(Addr, nat)>) {
    && (forall id :: id in distributions <==> 1 <= id <= count)
    && (forall id :: id in distributions ==> distributions[id].id == id && Inv(distributions[id]))
    && (forall caller, id :: (caller, id) in hooks <==> id in distributions && distributions[id].hookCaller == caller)
  }

  /** Replacing a record by a well-formed one with the same id and hook caller keeps the tables valid. */
  lemma ReplaceKeepsValid(count: nat, distributions: map<nat, DistributionState>, hooks: set<(Addr, nat)>,
                          d: DistributionState)
    requires ValidTables(count, distributions, hooks)
    requires d.id in distributions && Inv(d) && d.hookCaller == distributions[d.id].hookCaller
    ensures ValidTables(count, distributions[d.id := d], hooks)
  {
  }

  /** Moving a record to a new hook caller, and its subscription with it, keeps the tables valid. */
  lemma RehookKeepsValid(count: nat, distributions: map<nat, DistributionState>, hooks: set<(Addr, nat)>,
                         d: DistributionState)
    requires ValidTables(count, distributions, hooks)
    requires d.id in distributions && Inv(d)
    ensures ValidTables(count, distributions[d.id := d],
                        hooks - {(distributions[d.id].hookCaller, d.id)} + {(d.hookCaller, d.id)})
  {
  }

  /** Storing a well-formed record under the next id, subscribed to its hook caller, keeps the tables valid. */
  lemma AppendKeepsValid(count: nat, distributions: map<nat, DistributionState>, hooks: set<(Addr, nat)>,
                         d: DistributionState)
    requires ValidTables(count, distributions, hooks)
    requires d.id == count + 1 && Inv(d)
    ensures ValidTables(count + 1, distributions[d.id := d], hooks + {(d.hookCaller, d.id)})
  {
  }

  /**
   * `execute_fund`, step by step on a local copy of the record: decide whether
   * to restart, set the funded amount and start, recompute the end of the
   * window, update the accumulator, and mark it current. The result is the
   * record transition `Funded`.
   */
  method FundRecord(d: DistributionState, amount: Uint128, block: Block, totalPower: nat)
    returns (r: Result<DistributionState, ContractError>)
    ensures r == Funded(d, amount, block, totalPower)
  {
    var dist := d;
    var rate := dist.activeEpoch.emissionRate;
    var continuous := match rate case Linear(_, _, c) => c case _ => false;
    var restart := if dist.fundedAmount == 0 then true else !continuous && dist.activeEpoch.endsAt.IsExpired(block);
    if restart {
      dist := dist.(fundedAmount := amount);
      var started := match rate
        case Paused => Never
        case Immediate => Never
        case Linear(_, Height, _) => AtHeight(block.height)
        case Linear(_, Time, _) => AtTime(block.time);
      dist := dist.(activeEpoch := dist.activeEpoch.(startedAt := started));
    } else {
      if dist.fundedAmount + amount > MAX_U128 {
        return Err(Std(Overflow));
      }
      dist := dist.(fundedAmount := dist.fundedAmount + amount);
    }
    var duration := FundedPeriodDuration(rate, dist.fundedAmount);
    if duration.Err? {
      return Err(Std(duration.error));
    }
    var ends := Never;
    if duration.value.Some? {
      var added := AddDuration(dist.activeEpoch.startedAt, duration.value.value);
      if added.Err? {
        return Err(Std(added.error));
      }
      ends := added.value;
    }
    dist := dist.(activeEpoch := dist.activeEpoch.(endsAt := ends));
    if rate == Immediate {
      dist := WithImmediateEmission(dist, amount, totalPower);
    } else if !restart && continuous {
      dist := dist.(activeEpoch := dist.activeEpoch.(totalEarnedPuvp := ActiveTotalEarnedPuvp(dist, block, totalPower)));
    }
    dist := dist.(activeEpoch := BumpLastUpdated(dist.activeEpoch, block));
    r := Ok(dist);
  }

  /** The records stored under `ids`, in the same order. */
  function RecordsAt(ids: seq<nat>, stored: map<nat, DistributionState>): (page: seq<DistributionState>)
    requires forall i :: 0 <= i < |ids| ==> ids[i] in stored
    ensures |page| == |ids| && forall i :: 0 <= i < |ids| ==> page[i] == stored[ids[i]]
  {
    seq(|ids|, i requires 0 <= i < |ids| => stored[ids[i]])
  }

  class Distributor {
    var owner: Addr
    var count: nat
    var distributions: map<nat, DistributionState>
    var userRewards: map<Addr, UserRewardState>
    /** `(hook caller, id)`: the distributions each hook caller's notifications reconcile. */
    var hookSubscriptions: set<(Addr, nat)>

    /** The tables are consistent with each other (see `ValidTables`). */
    ghost predicate Valid()
      reads this
    {
      ValidTables(count, distributions, hookSubscriptions)
    }

    /** `instantiate`: the owner defaults to the instantiator; no distributions yet. */
    constructor(info: MessageInfo, owner: Option<Addr>)
      ensures Valid()
      ensures this.owner == (if owner.Some? then owner.value else info.sender)
      ensures count == 0 && distributions == map[] && userRewards == map[] && hookSubscriptions == {}
    {
      this.owner := if owner.Some? then owner.value else info.sender;
      count := 0;
      distributions := map[];
      userRewards := map[];
      hookSubscriptions := {};
    }

    /**
     * `execute_create`: owner only; the rate must be valid; the next id is
     * taken from the counter; attached native coins must be exactly one coin of
     * the distribution's denom and fund it at once, while a cw20 distribution
     * cannot be funded on creation.
     */
    method Create(info: MessageInfo, denom: Denom, rate: EmissionRate, vpContract: Addr, hookCaller: Addr,
                  withdrawDestination: Option<Addr>, block: Block, vp: VotingPower)
      returns (r: Result<nat, ContractError>)
      requires Valid()
      modifies this
      ensures Valid()
      ensures r.Err? ==> unchanged(this)
      ensures info.sender != old(owner) ==> r == Err(NotOwner)
      ensures info.sender == old(owner) && Validate(rate).Err? ==> r == Err(Validate(rate).error)
      ensures info.sender == old(owner) && Validate(rate).Ok? && info.funds != [] && denom.Cw20? ==>
        r == Err(NoFundsOnCw20Create)
      ensures (info.sender == old(owner) && Validate(rate).Ok? && info.funds != [] && denom.Native?
               && MustPay(info.funds, denom.name).Err?) ==> r == Err(Payment(MustPay(info.funds, denom.name).error))
      ensures r.Ok? ==> r.value == count == old(count) + 1
      ensures r.Ok? ==> userRewards == old(userRewards) && owner == old(owner)
      ensures r.Ok? ==> hookSubscriptions == old(hookSubscriptions) + {(hookCaller, r.value)}
      ensures r.Ok? && info.funds != [] ==>
        denom.Native? && MustPay(info.funds, denom.name).Ok?
        && Funded(CreatedRecord(r.value, info, denom, rate, vpContract, hookCaller, withdrawDestination),
                  MustPay(info.funds, denom.name).value, block, vp.totalOf(vpContract)).Ok?
      ensures r.Ok? ==>
        var created := CreatedRecord(r.value, info, denom, rate, vpContract, hookCaller, withdrawDestination);
        distributions == old(distributions)[r.value :=
          if info.funds == [] then created
          else Funded(created, MustPay(info.funds, denom.name).value, block, vp.totalOf(vpContract)).value]
      ensures info.sender == old(owner) && Validate(rate).Ok? && info.funds == [] ==> r.Ok?
      ensures (info.sender == old(owner) && Validate(rate).Ok? && denom.Native?
               && MustPay(info.funds, denom.name).Ok?) ==> r.Ok?
    {
      if info.sender != owner {
        return Err(NotOwner);
      }
      var id := count + 1;
      var valid := Validate(rate);
      if valid.Err? {
        return Err(valid.error);
      }
      var created := CreatedRecord(id, info, denom, rate, vpContract, hookCaller, withdrawDestination);
      // the id is fresh because ids run from 1 to the counter
      assert id !in distributions;
      if info.funds != [] {
        match denom {
          case Cw20(_) =>
            return Err(NoFundsOnCw20Create);
          case Native(name) =>
            var paid := MustPay(info.funds, name);
            if paid.Err? {
              return Err(Payment(paid.error));
            }
            FirstFundSucceeds(created, paid.value, block, vp.totalOf(vpContract));
            var funded := FundRecord(created, paid.value, block, vp.totalOf(vpContract));
            created := funded.value;
        }
      }
      AppendKeepsValid(count, distributions, hookSubscriptions, created);
      distributions := distributions[id := created];
      count := id;
      hookSubscriptions := hookSubscriptions + {(hookCaller, id)};
      r := Ok(id);
    }

    /**
     * `execute_fund_native`: the distribution must exist and pay out in a
     * native denom, and exactly one coin of that denom must be attached.
     */
    method FundNative(info: MessageInfo, id: nat, block: Block, vp: VotingPower)
      returns (r: Result<(), ContractError>)
      requires Valid()
      modifies this
      ensures Valid()
      ensures r.Err? ==> unchanged(this)
      ensures id !in old(distributions) ==> r == Err(DistributionNotFound(id))
      ensures id in old(distributions) && old(distributions)[id].denom.Cw20? ==> r == Err(InvalidFunds)
      ensures (id in old(distributions) && old(distributions)[id].denom.Native?
               && MustPay(info.funds, old(distributions)[id].denom.name).Err?) ==> r == Err(InvalidFunds)
      ensures r.Ok? ==> (id in old(distributions) && old(distributions)[id].denom.Native?
                         && MustPay(info.funds, old(distributions)[id].denom.name).Ok?)
      ensures (id in old(distributions) && old(distributions)[id].denom.Native?
               && MustPay(info.funds, old(distributions)[id].denom.name).Ok?) ==>
        var d := old(distributions)[id];
        var paid := MustPay(info.funds, d.denom.name).value;
        && (r.Ok? <==> ShouldRestart(d, block) || d.fundedAmount + paid <= MAX_U128)
        && (r.Err? ==> r == Err(Std(Overflow)))
      ensures r.Ok? ==>
        var d := old(distributions)[id];
        var f := Funded(d, MustPay(info.funds, d.denom.name).value, block, vp.totalOf(d.vpContract));
        f.Ok? && distributions == old(distributions)[id := f.value]
      ensures r.Ok? ==> count == old(count) && userRewards == old(userRewards)
      ensures r.Ok? ==> hookSubscriptions == old(hookSubscriptions) && owner == old(owner)
    {
      if id !in distributions {
        return Err(DistributionNotFound(id));
      }
      var d := distributions[id];
      if d.denom.Cw20? {
        return Err(InvalidFunds);
      }
      var paid := MustPay(info.funds, d.denom.name);
      if paid.Err? {
        return Err(InvalidFunds);
      }
      FundFailsOnlyOnOverflow(d, paid.value, block, vp.totalOf(d.vpContract));
      var funded := FundRecord(d, paid.value, block, vp.totalOf(d.vpContract));
      if funded.Err? {
        return Err(funded.error);
      }
      FundPreservesInv(d, paid.value, block, vp.totalOf(d.vpContract));
      ReplaceKeepsValid(count, distributions, hookSubscriptions, funded.value);
      distributions := distributions[id := funded.value];
      r := Ok(());
    }

    /**
     * `execute_receive_cw20` with a fund message: no native coins may be
     * attached, the distribution must exist and pay out in cw20 tokens, and the
     * tokens must come from that distribution's own token contract (the sender).
     */
    method ReceiveCw20(info: MessageInfo, amount: Uint128, id: nat, block: Block, vp: VotingPower)
      returns (r: Result<(), ContractError>)
      requires Valid()
      modifies this
      ensures Valid()
      ensures r.Err? ==> unchanged(this)
      ensures info.funds != [] ==> r == Err(Payment(NonPayable))
      ensures info.funds == [] && id !in old(distributions) ==> r == Err(DistributionNotFound(id))
      ensures info.funds == [] && id in old(distributions) && old(distributions)[id].denom.Native? ==>
        r == Err(InvalidFunds)
      ensures (info.funds == [] && id in old(distributions) && old(distributions)[id].denom.Cw20?
               && old(distributions)[id].denom.token != info.sender) ==> r == Err(InvalidCw20)
      ensures r.Ok? ==> id in old(distributions)
      ensures info.funds == [] && id in old(distributions) && old(distributions)[id].denom == Cw20(info.sender) ==>
        var d := old(distributions)[id];
        && (r.Ok? <==> ShouldRestart(d, block) || d.fundedAmount + amount <= MAX_U128)
        && (r.Err? ==> r == Err(Std(Overflow)))
      ensures r.Ok? ==>
        var d := old(distributions)[id];
        var f := Funded(d, amount, block, vp.totalOf(d.vpContract));
        d.denom == Cw20(info.sender) && f.Ok? && distributions == old(distributions)[id := f.value]
      ensures r.Ok? ==> count == old(count) && userRewards == old(userRewards)
      ensures r.Ok? ==> hookSubscriptions == old(hookSubscriptions) && owner == old(owner)
    {
      var payable := Nonpayable(info.funds);
      if payable.Err? {
        return Err(Payment(payable.error));
      }
      if id !in distributions {
        return Err(DistributionNotFound(id));
      }
      var d := distributions[id];
      match d.denom {
        case Native(_) =>
          return Err(InvalidFunds);
        case Cw20(token) =>
          if token != info.sender {
            return Err(InvalidCw20);
          }
      }
      FundFailsOnlyOnOverflow(d, amount, block, vp.totalOf(d.vpContract));
      var funded := FundRecord(d, amount, block, vp.totalOf(d.vpContract));
      if funded.Err? {
        return Err(funded.error);
      }
      FundPreservesInv(d, amount, block, vp.totalOf(d.vpContract));
      ReplaceKeepsValid(count, distributions, hookSubscriptions, funded.value);
      distributions := distributions[id := funded.value];
      r := Ok(());
    }

    /**
     * `execute_claim`: no coins attached; reconcile the sender's ledger for the
     * distribution, then pay out and zero everything they are owed, which is
     * exactly what the pending-rewards query reports; nothing owed is an error.
     */
    method Claim(info: MessageInfo, id: nat, block: Block, vp: VotingPower)
      returns (r: Result<Transfer, ContractError>)
      requires Valid()
      modifies this
      ensures Valid()
      ensures r.Err? ==> unchanged(this)
      ensures info.funds != [] ==> r == Err(Payment(NonPayable))
      ensures info.funds == [] && id !in old(distributions) ==> r == Err(DistributionNotFound(id))
      ensures info.funds == [] && id in old(distributions) ==>
        var d := old(distributions)[id];
        var pending := PendingRewardsFor(d, LedgerOf(old(userRewards), info.sender), block,
                                         vp.powerOf(d.vpContract, info.sender), vp.totalOf(d.vpContract));
        && (pending.Err? ==> r == Err(Std(pending.error)))
        && (pending == Ok(0) ==> r == Err(NoRewardsClaimable))
        && (pending.Ok? && pending.value > 0 ==> r == Ok(Transfer(info.sender, pending.value, d.denom)))
      ensures r.Ok? ==> id in old(distributions)
      ensures r.Ok? ==>
        var d := old(distributions)[id];
        UpdateRewards(d, LedgerOf(old(userRewards), info.sender), block,
                      vp.powerOf(d.vpContract, info.sender), vp.totalOf(d.vpContract)).Ok?
      ensures r.Ok? ==>
        var d := old(distributions)[id];
        var (d1, user1) := UpdateRewards(d, LedgerOf(old(userRewards), info.sender), block,
                                         vp.powerOf(d.vpContract, info.sender), vp.totalOf(d.vpContract)).value;
        && distributions == old(distributions)[id := d1]
        && userRewards == old(userRewards)[info.sender := user1.(pendingRewards := user1.pendingRewards[id := 0])]
      ensures r.Ok? ==> count == old(count) && hookSubscriptions == old(hookSubscriptions) && owner == old(owner)
    {
      var payable := Nonpayable(info.funds);
      if payable.Err? {
        return Err(Payment(payable.error));
      }
      if id !in distributions {
        return Err(DistributionNotFound(id));
      }
      var d := distributions[id];
      var user := LedgerOf(userRewards, info.sender);
      var votingPower := vp.powerOf(d.vpContract, info.sender);
      var totalPower := vp.totalOf(d.vpContract);
      QueryMatchesReconciliation(d, user, block, votingPower, totalPower);
      var updated := UpdateRewards(d, user, block, votingPower, totalPower);
      if updated.Err? {
        return Err(Std(updated.error));
      }
      var (d1, user1) := updated.value;
      var claimAmount := user1.pendingRewards[id];
      if claimAmount == 0 {
        return Err(NoRewardsClaimable);
      }
      UpdateRewardsIsLocal(d, user, block, votingPower, totalPower);
      ReplaceKeepsValid(count, distributions, hookSubscriptions, d1);
      distributions := distributions[id := d1];
      userRewards := userRewards[info.sender := user1.(pendingRewards := user1.pendingRewards[id := 0])];
      r := Ok(Transfer(info.sender, claimAmount, d.denom));
    }

    /**
     * `execute_withdraw`: owner only, no coins attached, and only while the
     * window is open; ends the window now, keeps funded only what it released,
     * and sends the rest to the withdraw destination.
     */
    method Withdraw(info: MessageInfo, id: nat, block: Block)
      returns (r: Result<Transfer, ContractError>)
      requires Valid()
      modifies this
      ensures Valid()
      ensures r.Err? ==> unchanged(this)
      ensures info.funds != [] ==> r == Err(Payment(NonPayable))
      ensures info.funds == [] && info.sender != old(owner) ==> r == Err(NotOwner)
      ensures info.funds == [] && info.sender == old(owner) && id !in old(distributions) ==>
        r == Err(DistributionNotFound(id))
      ensures info.funds == [] && info.sender == old(owner) && id in old(distributions) ==>
        var d := old(distributions)[id];
        && (d.activeEpoch.endsAt.IsExpired(block) <==> r == Err(RewardsAlreadyDistributed))
        && (!d.activeEpoch.endsAt.IsExpired(block) ==> r.Ok?)
      ensures r.Ok? ==> id in old(distributions) && Withdrawn(old(distributions)[id], block).Ok?
      ensures r.Ok? ==>
        var (d1, clawback) := Withdrawn(old(distributions)[id], block).value;
        && distributions == old(distributions)[id := d1]
        && r.value == Transfer(old(distributions)[id].withdrawDestination, clawback, old(distributions)[id].denom)
        && clawback + d1.fundedAmount == old(distributions)[id].fundedAmount
      ensures r.Ok? ==> count == old(count) && userRewards == old(userRewards)
      ensures r.Ok? ==> hookSubscriptions == old(hookSubscriptions) && owner == old(owner)
    {
      var payable := Nonpayable(info.funds);
      if payable.Err? {
        return Err(Payment(payable.error));
      }
      if info.sender != owner {
        return Err(NotOwner);
      }
      if id !in distributions {
        return Err(DistributionNotFound(id));
      }
      var d := distributions[id];
      WithdrawSucceedsWhileOpen(d, block);
      var withdrawn := Withdrawn(d, block);
      if withdrawn.Err? {
        return Err(withdrawn.error);
      }
      var (d1, clawback) := withdrawn.value;
      WithdrawSplitsFunds(d, block);
      WithdrawPreservesInv(d, block);
      ReplaceKeepsValid(count, distributions, hookSubscriptions, d1);
      distributions := distributions[id := d1];
      r := Ok(Transfer(d1.withdrawDestination, clawback, d1.denom));
    }

    /**
     * `execute_update`: owner only, no coins attached, the distribution must
     * exist; a new rate must be valid and closes the active epoch; a new hook
     * caller replaces the old one's subscription.
     */
    method Update(info: MessageInfo, id: nat, rate: Option<EmissionRate>, vpContract: Option<Addr>,
                  hookCaller: Option<Addr>, withdrawDestination: Option<Addr>, block: Block, vp: VotingPower)
      returns (r: Result<(), ContractError>)
      requires Valid()
      modifies this
      ensures Valid()
      ensures r.Err? ==> unchanged(this)
      ensures info.funds != [] ==> r == Err(Payment(NonPayable))
      ensures info.funds == [] && info.sender != old(owner) ==> r == Err(NotOwner)
      ensures info.funds == [] && info.sender == old(owner) && id !in old(distributions) ==>
        r == Err(DistributionNotFound(id))
      ensures info.funds == [] && info.sender == old(owner) && id in old(distributions) ==>
        (r.Err? <==> rate.Some? && Validate(rate.value).Err?)
      ensures r.Ok? ==> id in old(distributions)
      ensures r.Ok? && rate.Some? ==>
        TransitionEpoch(old(distributions)[id], rate.value, block, vp.totalOf(old(distributions)[id].vpContract)).Ok?
      ensures r.Ok? ==>
        var d := old(distributions)[id];
        var d1 := if rate.Some?
          then TransitionEpoch(d, rate.value, block, vp.totalOf(d.vpContract)).value else d;
        var d2 := d1.(vpContract := if vpContract.Some? then vpContract.value else d1.vpContract,
                      hookCaller := if hookCaller.Some? then hookCaller.value else d1.hookCaller,
                      withdrawDestination := if withdrawDestination.Some? then withdrawDestination.value
                                             else d1.withdrawDestination);
        && distributions == old(distributions)[id := d2]
        && hookSubscriptions == (if hookCaller.Some?
             then old(hookSubscriptions) - {(d.hookCaller, id)} + {(hookCaller.value, id)}
             else old(hookSubscriptions))
      ensures r.Ok? ==> count == old(count) && userRewards == old(userRewards) && owner == old(owner)
    {
      var payable := Nonpayable(info.funds);
      if payable.Err? {
        return Err(Payment(payable.error));
      }
      if info.sender != owner {
        return Err(NotOwner);
      }
      if id !in distributions {
        return Err(DistributionNotFound(id));
      }
      var d := distributions[id];
      var updated := d;
      if rate.Some? {
        var valid := Validate(rate.value);
        if valid.Err? {
          return Err(valid.error);
        }
        TransitionPreservesInv(d, rate.value, block, vp.totalOf(d.vpContract));
        updated := TransitionEpoch(d, rate.value, block, vp.totalOf(d.vpContract)).value;
      }
      if vpContract.Some? {
        updated := updated.(vpContract := vpContract.value);
      }
      ghost var hooksBefore := hookSubscriptions;
      if hookCaller.Some? {
        // the old hook caller is unsubscribed before the new one is subscribed
        hookSubscriptions := hookSubscriptions - {(updated.hookCaller, id)};
        updated := updated.(hookCaller := hookCaller.value);
        hookSubscriptions := hookSubscriptions + {(updated.hookCaller, id)};
      }
      if withdrawDestination.Some? {
        updated := updated.(withdrawDestination := withdrawDestination.value);
      }
      if hookCaller.Some? {
        RehookKeepsValid(count, distributions, hooksBefore, updated);
      } else {
        ReplaceKeepsValid(count, distributions, hooksBefore, updated);
      }
      distributions := distributions[id := updated];
      r := Ok(());
    }

    /**
     * `query_pending_rewards`: for a page of distributions in ascending id
     * order, what `addr` could claim from each right now; nothing is stored.
     */
    method QueryPendingRewards(addr: Addr, startAfter: Option<nat>, limit: Option<nat>, block: Block, vp: VotingPower)
      returns (r: Result<seq<PendingEntry>, StdError>)
      requires Valid()
      ensures var ids := PageIds(count, startAfter, limit);
        r == PendingPage(ids, distributions, LedgerOf(userRewards, addr), addr, block, vp)
      ensures r.Ok? ==>
        var ids := PageIds(count, startAfter, limit);
        |r.value| == |ids|
        && forall i :: 0 <= i < |ids| ==>
             var d := distributions[ids[i]];
             && r.value[i].id == ids[i] && r.value[i].denom == d.denom
             && PendingRewardsFor(d, LedgerOf(userRewards, addr), block, vp.powerOf(d.vpContract, addr),
                                  vp.totalOf(d.vpContract)) == Ok(r.value[i].pendingRewards)
    {
      var ids := PageIds(count, startAfter, limit);
      var user := LedgerOf(userRewards, addr);
      r := CollectPending(ids, distributions, user, addr, block, vp);
      if r.Ok? {
        PendingPageEntries(ids, distributions, user, addr, block, vp);
      }
    }

    /** `query_distributions`: a page of the stored records in ascending id order. */
    function QueryDistributions(startAfter: Option<nat>, limit: Option<nat>): (page: seq<DistributionState>)
      requires Valid()
      reads this
      ensures |page| <= EffectiveLimit(limit)
      ensures forall i :: 0 <= i < |page| ==> 1 <= page[i].id <= count && page[i] == distributions[page[i].id]
      ensures forall i :: 0 <= i < |page| ==> startAfter.Some? ==> page[i].id > startAfter.value
      ensures forall i, j :: 0 <= i < j < |page| ==> page[i].id < page[j].id
      ensures forall id :: id in distributions && (startAfter.None? || id > startAfter.value) ==>
        distributions[id] in page || |page| == EffectiveLimit(limit)
    {
      var ids := PageIds(count, startAfter, limit);
      var page := RecordsAt(ids, distributions);
      assert forall k :: k in ids ==> distributions[k] in page by {
        forall k | k in ids ensures distributions[k] in page {
          var i :| 0 <= i < |ids| && ids[i] == k;
          assert page[i] == distributions[k];
        }
      }
      page
    }

    /** The `Distribution` query: one stored record, or not found. */
    function QueryDistribution(id: nat): (r: Result<DistributionState, StdError>)
      requires Valid()
      reads this
      ensures r.Ok? <==> 1 <= id <= count
      ensures r.Ok? ==> r.value.id == id && r.value == distributions[id]
    {
      if id in distributions then Ok(distributions[id]) else Err(NotFound)
    }
  }

  lemma {:induction false} PendingPageFailurePersists(ids: seq<nat>, n: nat, distributions: map<nat, DistributionState>,
                                                      user: UserRewardState, addr: Addr, block: Block, vp: VotingPower)
    requires forall i :: 0 <= i < |ids| ==> ids[i] in distributions
    requires n <= |ids| && PendingPage(ids[..n], distributions, user, addr, block, vp).Err?
    ensures PendingPage(ids, distributions, user, addr, block, vp) == PendingPage(ids[..n], distributions, user, addr, block, vp)
    decreases |ids| - n
  {
    if n < |ids| {
      assert ids[..n + 1][..n] == ids[..n];
      PendingPageFailurePersists(ids, n + 1, distributions, user, addr, block, vp);
    } else {
      assert ids[..n] == ids;
    }
  }

  lemma {:induction false} PendingPageEntries(ids: seq<nat>, distributions: map<nat, DistributionState>,
                                              user: UserRewardState, addr: Addr, block: Block, vp: VotingPower)
    requires forall i :: 0 <= i < |ids| ==> ids[i] in distributions
    requires PendingPage(ids, distributions, user, addr, block, vp).Ok?
    ensures var page := PendingPage(ids, distributions, user, addr, block, vp).value;
      |page| == |ids|
      && forall i :: 0 <= i < |ids| ==>
           var d := distributions[ids[i]];
           && page[i].id == ids[i] && page[i].denom == d.denom
           && PendingRewardsFor(d, user, block, vp.powerOf(d.vpContract, addr), vp.totalOf(d.vpContract))
                == Ok(page[i].pendingRewards)
  {
    if ids != [] {
      PendingPageEntries(ids[..|ids| - 1], distributions, user, addr, block, vp);
    }
  }
}
