# Rewards distributor and mass distribution, modelled in Dafny

This project models two pieces of a DAO contract suite.

**The rewards distributor** (`dao-rewards-distributor`) holds any number of
reward distributions. Each distribution pays out one denomination, a native
coin or a cw20 token, to the members of a voting-power contract, in proportion
to their voting power. Its emission rate is one of three kinds:

- paused;
- immediate: funds are released at once;
- linear: a fixed amount per so many blocks or seconds, optionally
  back-filling underfunded time ("continuous").

The owner creates, funds, updates and withdraws distributions. Members claim
what they earned. A per-unit-voting-power accumulator, scaled by 10^39,
records what one unit of voting power has earned so far. Each member's ledger
keeps, per distribution, the rewards owed and the accumulator value last
accounted for.

The model has four layers:

- `Chain` (chain.dfy): blocks, expirations and durations on the height or the
  time clock, coin checks (`must_pay`, `nonpayable`) and transfer messages.
- `RewardsState` (state.dfy): the distribution record, its active epoch, and
  the record helpers the contract calls. These are `get_funded_period_duration`,
  `get_active_total_earned_puvp`, `get_total_rewards`, `bump_last_updated`,
  `transition_epoch`, `get_accrued_rewards_not_yet_accounted_for` and
  `update_rewards`.
- `RewardsContract` (contract.rs's record transitions, in contract.dfy):
  funding, withdrawing, a new record, the pending amount and query pagination,
  as functions on one record.
- `RewardsDistributor` (distributor.dfy): the contract's storage as a class.
  Its fields are the owner, the id counter, the distributions by id, the
  ledgers by address and the hook subscriptions. Each entry point is a method
  that makes the contract's checks in the contract's order. On an error it
  leaves storage unchanged (the transaction aborts); otherwise it applies the
  record transition.

`RewardsProperties` (contract_properties.dfy) proves what the contract promises
about these transitions. `RewardsConservation` (conservation.dfy) follows the
members of one linear distribution through a history of reconciliations and
claims, and bounds what they are paid and owed by what was funded.

**The mass distribution helper** (`cw-vesting`'s `mass_distribute.rs`),
`MassDistribution` in mass_distribute.dfy, is a store of weights by address.
A weight is a `Decimal`: a 128-bit numerator over 10^18.

- `set_weights` writes a list of weights only if they add up to exactly one.
- `distribute` splits an amount among the stored addresses, in ascending
  address order, each address getting `amount * weight` rounded down. The
  split goes out as bank sends or cw20 transfers.

The store is modelled as a list of entries in strictly ascending address
order. The class's `SetWeights` is the imperative method. The share and the
distributions are pure functions.

## Model

Source paths below are relative to the repository root.
`contract.rs` is `contracts/distribution/dao-rewards-distributor/src/contract.rs`;
`mass_distribute.rs` is `contracts/external/cw-vesting/src/mass_distribute.rs`.

| member | source | states |
|---|---|---|
| `Chain.Now` | contracts/distribution/dao-rewards-distributor/src/contract.rs:314-321 | the current block on a clock counts on that clock, is already reached, and stays reached in every later block |
| `Chain.AddDuration` | contracts/distribution/dao-rewards-distributor/src/contract.rs:330-333 | adding a duration fails exactly when a finite expiration and the duration count on different clocks |
| `Chain.Elapsed` | contracts/distribution/dao-rewards-distributor/src/contract.rs:437-445 | the blocks or seconds from an earlier expiration to a later one on the same clock; zero when not later, on different clocks or for `Never` |
| `Chain.ElapsedUndoesAdd` | contracts/distribution/dao-rewards-distributor/src/contract.rs:326-333 | measuring from a start to the start plus a duration gives back the duration, and the end is no earlier than the start |
| `Chain.MustPay` | contracts/distribution/dao-rewards-distributor/src/contract.rs:272-277 | accepts exactly one coin of the expected denomination with a non-zero amount, and yields that amount |
| `Chain.Nonpayable` | contracts/distribution/dao-rewards-distributor/src/contract.rs:370 | accepts exactly a message with no coins attached |
| `RewardsState.Validate` | contracts/distribution/dao-rewards-distributor/src/contract.rs:153 | a rate is valid exactly when it is not a linear rate releasing zero per unit |
| `RewardsState.FundedPeriodDuration` | contracts/distribution/dao-rewards-distributor/src/contract.rs:326-329 | paused and immediate rates have no window; a linear rate's window is the whole number of units the funds pay for, on the rate's clock |
| `RewardsState.StartOf` | contracts/distribution/dao-rewards-distributor/src/contract.rs:314-321 | a restart starts a linear window now on the rate's clock, and never for paused or immediate rates |
| `RewardsState.LatestDistributionTime` | contracts/distribution/dao-rewards-distributor/src/contract.rs:345-353 | the release horizon is the earlier of the current block and the window's end, on the window's clock, and unbounded exactly when the window never ends |
| `RewardsState.BumpLastUpdated` | contracts/distribution/dao-rewards-distributor/src/contract.rs:353 | only the accumulator's mark changes; it moves to the earlier of now and the window's end, so nothing is left unaccounted at this block and the mark never passes the end |
| `RewardsState.ActiveTotalEarnedPuvp` | contracts/distribution/dao-rewards-distributor/src/contract.rs:345-351 | the accumulator never decreases; only a linear rate with voting power advances it, by released amount times 10^39 over total power |
| `RewardsState.TotalRewards` | contracts/distribution/dao-rewards-distributor/src/contract.rs:445 | on a well-formed record the total released over the window is defined and within the funded amount; zero for a paused rate, the funded amount for an immediate one |
| `RewardsState.WithImmediateEmission` | contracts/distribution/dao-rewards-distributor/src/contract.rs:339-343 | only the accumulator changes; it grows by the amount times 10^39 over the total power, rounded down, and not at all without voting power |
| `RewardsState.TransitionEpoch` | contracts/distribution/dao-rewards-distributor/src/contract.rs:233 | the same rate changes nothing; a new rate opens a window from now with a fresh accumulator, adds the closed epoch's earned value to the historical one, and never adds funds; a linear window lasts the whole units the remaining funds pay for, other rates never end, and an immediate rate releases the remaining funds at once per unit of total power |
| `RewardsState.UpdateRewards` | contracts/distribution/dao-rewards-distributor/src/contract.rs:374 | succeeds exactly when the member's ledger is not ahead of the accumulator and their banked plus newly earned rewards fit in 128 bits; the accumulator is brought up to this block; the member is reconciled at active plus historical, and credited their power times the growth since their last reconciliation over 10^39, rounded down |
| `RewardsState.AccruedRewardsNotYetAccountedFor` | contracts/distribution/dao-rewards-distributor/src/contract.rs:558-565 | a member is owed their voting power times the accumulator growth since they were last accounted for, over 10^39, rounded down; it fails exactly when the ledger is ahead of the accumulator or the result exceeds 128 bits |
| `RewardsContract.Funded` | contracts/distribution/dao-rewards-distributor/src/contract.rs:282-362 | a restart resets the funded amount to the deposit and starts the window now; otherwise the deposit is added and the start kept; only the epoch and the funded amount change, and the rate is kept; the accumulator's mark is the earlier of now and the window's end |
| `RewardsContract.ShouldRestart` | contracts/distribution/dao-rewards-distributor/src/contract.rs:301-305 | nothing funded means a restart; a continuous rate, or an open window, with funds never restarts; an expired non-continuous window restarts |
| `RewardsContract.Withdrawn` | contracts/distribution/dao-rewards-distributor/src/contract.rs:431-450 | fails exactly when the window has expired; otherwise only the window's end (moved to now) and the funded amount change; it keeps funded exactly what the shortened window releases, and claws back the rest |
| `RewardsContract.PendingRewardsFor` | contracts/distribution/dao-rewards-distributor/src/contract.rs:545-570 | succeeds exactly when the ledger is not ahead of the accumulator and the result fits in 128 bits; the pending amount is what the member already had plus their power times the accumulator growth since their reconciliation, over 10^39, rounded down |
| `RewardsContract.NewDistribution` | contracts/distribution/dao-rewards-distributor/src/contract.rs:156-171 | a new record has no window, nothing funded and nothing earned, and is well formed when its rate is valid |
| `RewardsContract.EffectiveLimit` | contracts/distribution/dao-rewards-distributor/src/contract.rs:526 | the page size is the requested limit or 10, capped at 50 |
| `RewardsContract.PageIds` | contracts/distribution/dao-rewards-distributor/src/contract.rs:535-538 | a page holds ascending existing ids after the cursor, at most the limit; it skips no id unless it is full |
| `RewardsProperties.FundSetsEnd` | contracts/distribution/dao-rewards-distributor/src/contract.rs:326-333 | after funding, a linear window counts on the rate's clock and spans exactly the units the funded amount pays for; other rates never end |
| `RewardsProperties.FundMovesAccumulator` | contracts/distribution/dao-rewards-distributor/src/contract.rs:335-351 | immediate funding adds only the new amount per unit of power; a continuous top-up back-fills accrual; otherwise the accumulator is untouched |
| `RewardsProperties.FundPreservesInv` | contracts/distribution/dao-rewards-distributor/src/contract.rs:282-362 | funding keeps a distribution well formed |
| `RewardsProperties.FundFailsOnlyOnOverflow` | contracts/distribution/dao-rewards-distributor/src/contract.rs:301-324 | on a well-formed distribution, funding fails exactly when a non-restarting top-up overflows the 128-bit funded amount |
| `RewardsProperties.FirstFundSucceeds` | contracts/distribution/dao-rewards-distributor/src/contract.rs:301-324 | the first funding of a well-formed distribution always succeeds, funds exactly the deposit, and keeps the record well formed |
| `RewardsProperties.WithdrawSplitsFunds` | contracts/distribution/dao-rewards-distributor/src/contract.rs:437-450 | withdrawing ends the window now; what stays funded plus the clawback is the old funded amount; nothing else in the record changes |
| `RewardsProperties.WithdrawKeepsReleased` | contracts/distribution/dao-rewards-distributor/src/contract.rs:444-450 | after a withdrawal, a linear window stays funded with exactly the rate times the blocks or seconds since its start; a window that never started keeps nothing |
| `RewardsProperties.WithdrawSucceedsWhileOpen` | contracts/distribution/dao-rewards-distributor/src/contract.rs:431-435 | withdrawing succeeds exactly while the window has not expired |
| `RewardsProperties.WithdrawPreservesInv` | contracts/distribution/dao-rewards-distributor/src/contract.rs:416-467 | withdrawing keeps a distribution well formed |
| `RewardsProperties.WithdrawTwiceClawsBackNothing` | contracts/distribution/dao-rewards-distributor/src/contract.rs:411-415 | a second withdrawal in the same block is rejected, or claws back zero and leaves the record as it was |
| `RewardsProperties.WithdrawStopsAccrual` | contracts/distribution/dao-rewards-distributor/src/contract.rs:411-415 | after a withdrawal the accumulator stays where it was at every later block |
| `RewardsProperties.WithdrawUndoesFreshFund` | contracts/distribution/dao-rewards-distributor/src/contract.rs:411-415 | withdrawing in the block of a fresh funding returns the whole deposit and leaves nothing funded |
| `RewardsProperties.AccumulatorMonotone` | contracts/distribution/dao-rewards-distributor/src/contract.rs:545-546 | the accumulator never runs backwards as blocks go by |
| `RewardsProperties.CreditedBound` | contracts/distribution/dao-rewards-distributor/src/contract.rs:558-570 | the rounded-down credits of an accumulator increase, summed over members, are at most the summed powers times the increase over 10^39 |
| `RewardsProperties.LinearStepConserves` | contracts/distribution/dao-rewards-distributor/src/contract.rs:345-351 | members whose powers add up to at most the total are credited no more than the linear rate released in the unaccounted period |
| `RewardsProperties.ImmediateStepConserves` | contracts/distribution/dao-rewards-distributor/src/contract.rs:335-343 | members whose powers add up to at most the total are credited no more than an immediate funding added |
| `RewardsProperties.UpdateRewardsIdempotent` | contracts/distribution/dao-rewards-distributor/src/contract.rs:372-374 | reconciling again in the same block with the same powers changes nothing |
| `RewardsProperties.QueryMatchesReconciliation` | contracts/distribution/dao-rewards-distributor/src/contract.rs:543-571 | the pending query reports exactly what reconciling would leave owed, and fails exactly when reconciling would |
| `RewardsProperties.UpdateRewardsIsLocal` | contracts/distribution/dao-rewards-distributor/src/contract.rs:372-374 | reconciling touches only the reconciled distribution's ledger entries and its accumulator, and keeps it well formed |
| `RewardsProperties.NewDistributionOwesNothing` | contracts/distribution/dao-rewards-distributor/src/contract.rs:156-171 | a just-created distribution owes nobody anything |
| `RewardsProperties.SmallRewardsSplit` | contracts/distribution/dao-rewards-distributor/src/contract.rs:545-570 | ten per block shared by powers 100, 50 and 50 owes 5, 2 and 2 after one block: only the final share is rounded down |
| `RewardsProperties.ThreeStakerAccrual` | contracts/distribution/dao-rewards-distributor/src/contract.rs:282-353 | 100,000,000 funded at block 1000 at a thousand per block ends at block 101,000 and owes powers 100, 50 and 50 exactly 500, 250 and 250 per block |
| `RewardsProperties.TransitionPreservesInv` | contracts/distribution/dao-rewards-distributor/src/contract.rs:229-234 | a valid rate change always succeeds, keeps the record well formed, and changes only the epoch, the funded amount and the historical value |
| `RewardsProperties.TransitionKeepsEarned` | contracts/distribution/dao-rewards-distributor/src/contract.rs:229-234 | a change to a paused or linear rate keeps historical plus active earned per unit at the block of the change |
| `RewardsProperties.TransitionKeepsUnreleasedFunds` | contracts/distribution/dao-rewards-distributor/src/contract.rs:229-234 | after a rate change the funded amount plus what the closed epoch released is the old funded amount |
| `RewardsProperties.NotInFutureLater` | contracts/distribution/dao-rewards-distributor/src/contract.rs:353 | moments already reached stay reached in every later block |
| `RewardsProperties.FundKeepsMarkInWindow` | contracts/distribution/dao-rewards-distributor/src/contract.rs:282-353 | funding leaves the accumulator's mark between the window's start and end, and not in the future |
| `RewardsProperties.WithdrawKeepsMarkInWindow` | contracts/distribution/dao-rewards-distributor/src/contract.rs:437-450 | withdrawing leaves the mark inside the shortened window |
| `RewardsProperties.UpdateRewardsKeepsMarkInWindow` | contracts/distribution/dao-rewards-distributor/src/contract.rs:374 | reconciling leaves the mark inside the window |
| `RewardsProperties.TransitionKeepsMarkInWindow` | contracts/distribution/dao-rewards-distributor/src/contract.rs:233 | a rate change puts the mark at the new window's start |
| `RewardsProperties.TopUpExtendsWindow` | contracts/distribution/dao-rewards-distributor/src/contract.rs:326-333 | a top-up that does not restart a linear window never moves its end earlier |
| `RewardsProperties.LatestMovesForward` | contracts/distribution/dao-rewards-distributor/src/contract.rs:353 | the mark is no later than the release horizon, which only moves forward as blocks pass and windows grow |
| `RewardsProperties.ElapsedSplits` | contracts/distribution/dao-rewards-distributor/src/contract.rs:345-351 | the time from start to end is the time to an intermediate point plus the rest |
| `RewardsProperties.TopUpIgnoresAccumulator` | contracts/distribution/dao-rewards-distributor/src/contract.rs:282-353 | a continuous top-up produces the same record from two records that differ only in the accumulator and its mark, apart from the accumulator |
| `RewardsProperties.ReconcileBeforeTopUp` | contracts/distribution/dao-rewards-distributor/src/contract.rs:345-353 | reconciling before a continuous top-up leaves the top-up's outcome unchanged, except that the accumulator can be one unit lower from rounding twice |
| `RewardsProperties.ReconcilingCanRoundDown` | contracts/distribution/dao-rewards-distributor/src/contract.rs:345-351 | a concrete record on which reconciling after one block leaves the accumulator one unit below accruing both blocks at once, so the rounding loss is real |
| `RewardsDistributor.FundRecord` | contracts/distribution/dao-rewards-distributor/src/contract.rs:282-362 | the field-by-field update of `execute_fund` computes exactly `Funded` |
| `RewardsDistributor.CollectPending` | contracts/distribution/dao-rewards-distributor/src/contract.rs:540-574 | the loop over a page yields the pending entries of the page, or the first error |
| `RewardsDistributor.PendingPageEntries` | contracts/distribution/dao-rewards-distributor/src/contract.rs:543-572 | a successful page has one entry per id, in order, with its denom and its pending amount |
| `RewardsDistributor.PendingPageFailurePersists` | contracts/distribution/dao-rewards-distributor/src/contract.rs:543-565 | a failure on an earlier distribution fails the whole query |
| `RewardsDistributor.AppendKeepsValid` | contracts/distribution/dao-rewards-distributor/src/contract.rs:175-181 | storing a new record under the next id and subscribing its hook caller keeps the tables consistent |
| `RewardsDistributor.RehookKeepsValid` | contracts/distribution/dao-rewards-distributor/src/contract.rs:240-248 | moving a distribution from its old hook caller to a new one keeps the tables consistent |
| `RewardsDistributor.Distributor.constructor` | contracts/distribution/dao-rewards-distributor/src/contract.rs:38-56 | the owner is the given one or the instantiator; no distributions, ledgers or subscriptions |
| `RewardsDistributor.Distributor.Create` | contracts/distribution/dao-rewards-distributor/src/contract.rs:130-206 | owner only, valid rate, next id, hook subscribed; attached coins must pay the native denom and fund at once; a cw20 distribution cannot be funded on creation; the owner with a valid rate and a valid payment always succeeds |
| `RewardsDistributor.Distributor.FundNative` | contracts/distribution/dao-rewards-distributor/src/contract.rs:262-280 | only an existing native distribution paid with exactly one coin of its denom is funded, by `Funded`; such a payment succeeds exactly unless a non-restarting top-up overflows 128 bits |
| `RewardsDistributor.Distributor.ReceiveCw20` | contracts/distribution/dao-rewards-distributor/src/contract.rs:94-125 | no coins attached, an existing cw20 distribution, sent by its own token contract; then funded by `Funded`, which succeeds exactly unless a non-restarting top-up overflows 128 bits |
| `RewardsDistributor.Distributor.Claim` | contracts/distribution/dao-rewards-distributor/src/contract.rs:364-409 | pays the sender exactly what the pending query reports and zeroes it; nothing owed is an error |
| `RewardsDistributor.Distributor.Withdraw` | contracts/distribution/dao-rewards-distributor/src/contract.rs:416-467 | owner only, while the window is open; sends the clawback to the stored withdraw destination in the distribution's denom and keeps funded what was released |
| `RewardsDistributor.Distributor.Update` | contracts/distribution/dao-rewards-distributor/src/contract.rs:210-260 | owner only; a new rate must be valid and transitions the epoch; a new hook caller replaces the old subscription |
| `RewardsDistributor.Distributor.QueryPendingRewards` | contracts/distribution/dao-rewards-distributor/src/contract.rs:517-575 | one entry per page id, in order, each the amount reconciliation would leave owed |
| `RewardsDistributor.Distributor.QueryDistributions` | contracts/distribution/dao-rewards-distributor/src/contract.rs:577-592 | the stored records after the cursor in ascending id order, at most the limit, skipping none unless full |
| `RewardsDistributor.Distributor.QueryDistribution` | contracts/distribution/dao-rewards-distributor/src/contract.rs:500-503 | found exactly for ids 1 to the counter, and then the stored record |
| `RewardsConservation.ConservedBound` | contracts/distribution/dao-rewards-distributor/src/contract.rs:364-409 | under the conservation invariant the members' claimed plus pending rewards are within what the rate released, and within the funded amount |
| `RewardsConservation.FreshMembersConserved` | contracts/distribution/dao-rewards-distributor/src/contract.rs:156-171 | members who never touched a distribution that has accrued nothing satisfy the invariant |
| `RewardsConservation.Reconciled` | contracts/distribution/dao-rewards-distributor/src/contract.rs:372-374 | one member's reconciliation keeps the number of members and their powers |
| `RewardsConservation.Claimed` | contracts/distribution/dao-rewards-distributor/src/contract.rs:364-409 | a claim keeps the members' powers and moves owed rewards from pending to claimed without changing their total |
| `RewardsConservation.ReconcileConserves` | contracts/distribution/dao-rewards-distributor/src/contract.rs:374 | a reconciliation keeps the conservation invariant, the record well formed and its mark in the window |
| `RewardsConservation.ReconcileSucceeds` | contracts/distribution/dao-rewards-distributor/src/contract.rs:364-391 | under the conservation invariant a member's reconciliation never overflows and so succeeds, and a claim fails only when nothing is owed |
| `RewardsConservation.CreditWithinFunds` | contracts/distribution/dao-rewards-distributor/src/contract.rs:558-570 | a member's banked rewards plus their rounded-down share of the accumulator's growth stay within the funded amount when the accumulator is within a funded release |
| `RewardsConservation.ClaimConserves` | contracts/distribution/dao-rewards-distributor/src/contract.rs:364-395 | a claim keeps the conservation invariant, the record well formed and its mark in the window |
| `RewardsConservation.Run` | contracts/distribution/dao-rewards-distributor/src/contract.rs:364-409 | a history of reconciliations and claims keeps the number of members and their powers |
| `RewardsConservation.HistoryConserves` | contracts/distribution/dao-rewards-distributor/src/contract.rs:364-409 | across any history of reconciliations and claims in block order at fixed voting powers, what members claimed plus what they are owed stays within the funded amount |
| `MassDistribution.BelowTotal` | contracts/external/cw-vesting/src/mass_distribute.rs:35 | two different addresses are ordered one way or the other |
| `MassDistribution.Save` | contracts/external/cw-vesting/src/mass_distribute.rs:24 | saving one entry grows the store by at most one entry |
| `MassDistribution.SaveUpdates` | contracts/external/cw-vesting/src/mass_distribute.rs:24 | saving an entry makes the address hold the weight and touches no other address |
| `MassDistribution.SaveSorted` | contracts/external/cw-vesting/src/mass_distribute.rs:24 | saving keeps the store in ascending address order |
| `MassDistribution.SaveSum` | contracts/external/cw-vesting/src/mass_distribute.rs:24 | saving changes the total weight by the new weight minus the address's old one |
| `MassDistribution.SaveAll` | contracts/external/cw-vesting/src/mass_distribute.rs:23-25 | saving a list in order gives the old store overridden by the list, later entries winning |
| `MassDistribution.MassDistribute.constructor` | contracts/external/cw-vesting/src/mass_distribute.rs:11-15 | a new store is empty |
| `MassDistribution.MassDistribute.SetWeights` | contracts/external/cw-vesting/src/mass_distribute.rs:17-27 | succeeds exactly when the weights add up to one; the sum overflowing is its own error; on failure nothing is stored; on success the list is saved over the old weights |
| `MassDistribution.GetShare` | contracts/external/cw-vesting/src/mass_distribute.rs:29-32 | the share is `amount * weight` rounded down, zero for an address with no weight, never more than the amount |
| `MassDistribution.DistributeCw20` | contracts/external/cw-vesting/src/mass_distribute.rs:34-51 | one cw20 transfer per stored address, in ascending order, each of its share, executed on the token with no funds |
| `MassDistribution.DistributeNative` | contracts/external/cw-vesting/src/mass_distribute.rs:53-68 | one bank send per stored address, in ascending order, each one coin of its share in the denom |
| `MassDistribution.Distribute` | contracts/external/cw-vesting/src/mass_distribute.rs:70-75 | the denom picks bank sends or cw20 transfers; either way each stored address is paid its share in order |
| `MassDistribution.RecipientIsKey` | contracts/external/cw-vesting/src/mass_distribute.rs:35-38 | in any list paying each share in ascending order, the k-th message pays the k-th stored address |
| `MassDistribution.SortedOrderIsUnique` | contracts/external/cw-vesting/src/mass_distribute.rs:35-38 | two lists that both pay each share in ascending order pay the same address at each position |
| `MassDistribution.DenomOnlyChangesShape` | contracts/external/cw-vesting/src/mass_distribute.rs:70-75 | native and cw20 distributions pay the same addresses the same amounts in the same order |
| `MassDistribution.PaidPrefixBound` | contracts/external/cw-vesting/src/mass_distribute.rs:29-32 | rounded-down shares of a prefix, scaled by one, stay within the amount times the prefix's weights |
| `MassDistribution.SharesWithinAmount` | contracts/external/cw-vesting/src/mass_distribute.rs:29-32 | while the stored weights add up to at most one, the transfers pay out at most the amount |
| `MassDistribution.FreshWeightsNeverOverpay` | contracts/external/cw-vesting/src/mass_distribute.rs:17-27 | after a successful first `set_weights` the transfers pay out at most the amount |
| `MassDistribution.SplitThree` | contracts/external/cw-vesting/src/mass_distribute.rs:143-146 | three ascending addresses whose weights add up to one are paid in that order their rounded-down parts |
| `MassDistribution.SplitSixtyThirtyTen` | contracts/external/cw-vesting/src/mass_distribute.rs:111-188 | 60%, 30% and 10% of 100 pay addr1, addr2 and addr3 exactly 60, 30 and 10, in that order |
| `MassDistribution.OverweightRejected` | contracts/external/cw-vesting/src/mass_distribute.rs:99-109 | weights of 50% and 60% are rejected for not adding up to one |

## Left out

- The helper files `state.rs`, `rewards.rs`, `helpers.rs` and `hooks.rs` of the
  rewards distributor are not part of this model. Their functions are modelled
  from the behaviour the contract relies on:
  - the funded period is the funded amount divided by the amount per unit, rounded down;
  - time elapsed between expirations on different clocks, involving `Never`,
    or from a later to an earlier one, is zero;
  - no linear accrual happens while the total voting power is zero;
  - `transition_epoch` does nothing when the rate is unchanged.
- Ownership is an address field fixed at instantiation. `UpdateOwnership`
  (ownership transfer and renunciation) is left out.
- Left out because they have no bearing on rewards: `migrate`, `query_info`,
  the ownership query, contract-version storage, JSON encoding of messages, and
  response attributes.
- Not checked:
  - addresses are assumed already validated (`addr_validate`);
  - voting-power contract addresses are not validated;
  - a cw20 denom's token contract is not validated.
- The stake-, NFT- and membership-change hook handlers are left out. So is
  reconciliation on voting-power changes. Voting power is an input function of
  (voting-power contract, address), with a total per contract.
- Contract-to-contract queries are left out.
- `RewardsState.FundedPeriodDuration`, `RewardsState.ActiveTotalEarnedPuvp`,
  `RewardsState.Validate`: a linear rate's duration is its clock only, and its
  length is fixed at one block or one second. The rate is an amount per single
  unit; a rate of so much per `n` units is not modelled.
- `RewardsProperties.LinearStepConserves`, `RewardsProperties.ImmediateStepConserves`,
  `RewardsProperties.CreditedBound`: these bound one accrual step.
  `RewardsConservation.HistoryConserves` bounds claimed plus pending over any
  history of reconciliations and claims, but only at fixed voting powers on a
  linear rate that was never changed. The global bound across fundings,
  withdrawals, rate changes and voting-power changes is not proved, because
  reconciliation on voting-power changes is left out.
- `RewardsDistributor.Distributor.Valid`: it does not include
  `RewardsState.MarkInWindow`, because blocks are inputs to each entry point
  and the class does not record that they come in order. The mark staying in
  its window is proved per transition instead, for a block no earlier than the
  record's marks (`RewardsProperties.FundKeepsMarkInWindow` and its siblings).
- `RewardsConservation.HistoryConserves` proves only the upper half of
  conservation: claimed plus pending never exceeds what was funded. Equality
  once the window has elapsed and everyone has reconciled does not hold, because
  each accrual and each member's share are rounded down. Per reconciliation,
  every member can lose up to one base unit of their share, and the accumulator
  can lose up to one unit per 10^39 per unit of power. That remainder stays in the
  contract and is neither claimed nor clawed back by a later withdrawal.
- Block times are whole seconds. The source stores `Expiration::AtTime` with the
  block's nanosecond `Timestamp`, so sub-second starts, ends and marks, and the
  truncation of elapsed time to seconds, are not modelled.
- `Chain.Elapsed` returns zero when `later` is earlier than `earlier` (it
  saturates) as well as for different clocks and for `Never`. The source's own
  helper for this case is in a file that is not part of this model. On records
  whose mark lies in its window (`RewardsState.MarkInWindow`) the case does not
  arise.
- `RewardsProperties.ReconcileBeforeTopUp`: reconciling before a continuous
  top-up can leave the accumulator one unit (of 10^-39 per unit of power)
  below a top-up without it, since the release is rounded down in two parts
  instead of one. The lemma states that bound rather than equality;
  `RewardsProperties.ReconcilingCanRoundDown` shows a record where the unit is lost.
- Uint256 accumulators and u64 ids and timestamps are unbounded numbers here.
  Only the 128-bit bounds on amounts are modelled, with overflow as an error.
- `RewardsDistributor.Distributor.Create`: the duplicate-id error
  (`UnexpectedDuplicateDistributionId`) is not modelled as a branch. The
  consistency invariant proves the next id is always free, so that error
  cannot occur.
- `RewardsDistributor.Distributor.Claim`: a claim on an unknown id fails with
  `DistributionNotFound`, the error the contract reports for missing ids.
- `MassDistribution.MassDistribute.SetWeights`: the source panics when the
  weights' sum overflows the 128-bit `Decimal` range. The model returns a
  separate `SumOverflow` error instead, leaving the store unchanged, as an
  aborted transaction would.
- `MassDistribution.SharesWithinAmount` only bounds stores whose weights add up
  to at most one. `set_weights` never removes addresses, so after a second call
  with different addresses the stored weights can add up to more than one.
  The transfers can then pay out more than the amount. The model reproduces
  that (`SetWeights` states the store is merged, not replaced). Only the first
  call is covered by `FreshWeightsNeverOverpay`.
- The store's keys are `String`s compared by character. The storage layer
  compares bytes; for UTF-8 the two orders agree.
- `cosmwasm_std` message encoding is modelled as records. So are the `Binary`
  payload of a cw20 transfer and the bank message.
