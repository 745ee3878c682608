# Verified model of a savings-circle protocol

The repository is a set of Soroban contracts for rotating savings circles. This project models the
five with the richest state, together with the support code they rest on, and proves what they
promise over every run.

- **Circle** (`packages/circle`, `packages/common/src/vrf.rs`, `packages/common/src/math.rs`). Members
  take seats and contribute a fixed amount per round; a payout resolves one unpaid member at random, by
  seat, by auction or by vote, splits the recorded pool into net and fee, marks the member in a bitmap
  and moves to the next round.
- **Governance** (`packages/governance`). Votes with delegated power, tallies, an index of proposals by
  status, and timelocks on execution and configuration.
- **Staking** (`packages/staking`). Stakes for a period, top-ups, unbonding, claims and two kinds of slash.
- **Escrow swap** (`packages/escrow-swap`). Two deposits exchanged or returned.
- **Activity log** (`packages/reputation-registry`). Pages of fifty entries behind one log per user.

## How the model is laid out

For each contract one module gives the entry points as transitions on a storage value, with the
source's checks in the source's order (`CircleOps`, `Governance`, `Staking`, `EscrowSwap`), and a
class performs them in place on fields, loops included (`CircleContract`, `CircleLoops`, `Payout`,
`GovernanceContract`, `StakingContract`, `EscrowSwap.EscrowContract`, `ActivityLog.Registry`,
`Vrf.VrfStore`, `Leaderboard`). Each method is proved to commit exactly its transition, or, on an
error, to leave the storage as it found it: where the source writes before it fails, the method puts the
old values back, which is what the host's rollback does. The theorems are about the transitions and
hold for all sequences of calls, clock ticks and foreign token movements.

Ghost history (settlements, payments by batches, refunds, deposits, claims, openings, finalizations,
executions, moves) is kept where a promise speaks of runs.

- `Common`, `Tokens`, `SafeMath`, `Bitmap`, `Vrf`: integer widths, token ledgers, checked arithmetic,
  bit sets, the generator.
- `CircleInvariant`, `CircleSettlement`, `CircleProofs`: the invariant of a circle and why every call keeps
  it. Each call is a sequence of elementary changes, and each kind of change keeps the invariant.
- `CircleRuns`, `CircleRefunds`, `CircleFairness`, `CircleTerms`, `CircleStatus`, `CircleWindow`,
  `CircleConservation`, `CircleLedger`, `Leaderboard`: the theorems on runs, refunds, bids and ballots,
  deposits, strikes, exits and completion, the contribution window, the weighted split, money and the
  leaderboard.
- `CirclePayments`, `CircleSweep`, `CircleStalls`: exactly when a payment, a trigger and a deadline sweep
  succeed, and exactly when some run can still settle a round.
- `EscrowSwapProofs`, `GovernanceProofs`, `GovernanceRuns`, `StakingProofs`, `StakingSlashes`,
  `StakingRewards`: the same for the other contracts.
- `CircleExamples`, `CircleCases`, `StakingExamples`: reachable states on which plausible stronger claims fail.

## Reading the arithmetic

The release profile has no overflow checks, so unchecked operators wrap: `WrapI128` for the i128 products
of `batch_payout`, `cancel_proposal` and `execute_slash`, a u32 remainder for `round * 1000` and for the
late report's first strike. Saturating and checked operations are written out. Casts between u128 and
i128 are modelled as reinterpretations.

## Where the code does not do what one would expect

Where a plausible stronger claim fails, the exact condition is proved for all inputs, and a reachable
state shows that it occurs.

- Saturated weights make a random round record more than its pool as paid. `OverpaysExactlyWhenSaturated`
  gives the exact condition for a round, `RunsConserveUnlessARoundOverpays` for a run,
  `SaturatedRoundOverpays` a run where it happens, and `ModestCirclesConserve` a bound on the contribution
  that rules it out. The circle's own tokens do not cover the extra unit: the transfers only go through
  when tokens were sent to the contract from outside.
- A batch payment marks members only. Whoever is paid by a batch and also resolved was a stranger to the
  circle when the batch paid them (`ResolvedPayeesWereStrangers`), and that happens (`StrangerIsPaidTwice`).
- The leaderboard's totals are always zero, because the per-member counter it reads is never raised, so
  it ranks by time and address although its documentation says by contribution. This is so in every
  reachable circle (`BoardNeverShowsContributions`).
- A late report adds two strikes, one wrapping and one checked: exactly at u32::MAX it leaves one, exactly
  one below it fails (`LateReportStrikesTwice`, `ReportStartsOver`, `ReportOverflows`).
- Leaving pays a configured collateral to any caller. Members leave once; a caller without a seat can leave again and
  again (`OnlyOutsidersExitTwice`, `MembersExitOnce`).
- Closing a dispute activates a circle from whatever status it is in, a half-filled one included
  (`ActivatedIsReachable`). Completion is final exactly for a circle without a dispute entry
  (`CompletionIsFinalWithoutDispute`); a resolved entry stays and can be resolved again
  (`CompletedCircleReactivates`).
- A deadline that overflows the clock refuses every contribution while the window never closes, although
  the source says the two can never disagree; they disagree exactly then (`AcceptanceMatchesEnforcement`,
  `DeadlineOverflows`).
- The deadline counts from the circle's start and not from the round's: once it has passed, no member can
  contribute to any later round, and those rounds settle empty (`NothingIsContributedAfterTheWindow`,
  `RoundsAfterTheWindowPayNothing`, `NextRoundIsEmpty`).
- The deadline sweep is documented to keep a circle from stalling. It succeeds exactly under guards on the
  state before it (`SweepSettlesExactly`): its own strikes can leave nobody the payout type can resolve, an
  auction can lack a bid and a vote its quorum, and the fee's product or a sum can overflow. A failed sweep
  is rolled back, strikes included, so the round may settle all the same, by the organizer's trigger, which
  strikes nobody (`SweepFailsWhereTriggerSettles`), or after a later bid, ballot or fee change. What decides
  is whether there is anybody the round can still go to: with a window that closes and a pool within a
  ten-thousandth of the i128 range, some run settles the round exactly when the circle is not closed for
  good and there is (`RoundSettlesBySomeRunExactlyWhen`). When there is not, no run does, whatever the pool
  and the window (`UnsettleableRoundsNeverSettle`, `DeadCirclesNeverSettle`); a full vote circle can get
  there with an unpaid active member left, because ballots cannot be taken back (`LostVoteNeverSettles`).
- A circle with more rounds than seats can be initialized and never completes
  (`CompletedCirclesHaveRunTheirRounds`, `ThreeRoundsNeverComplete`).
- Cancelling an auction pays one contribution to the best bidder and drops all bids on the round with their
  deposits. The two amounts agree exactly when the contribution is zero, nobody has bid, or one bid stands
  on a round without a Dutch entry (`CancellingReturnsDepositsExactlyWhen`). With two bids a deposit is lost
  (`CancellingDropsADeposit`); a Dutch bidder, who deposits nothing, is paid a contribution
  (`CancellingPaysWithoutADeposit`).
- Votes do not always stop a proposer from cancelling: the unchecked sum of the tallies decides, so votes
  without power, or votes whose powers wrap to a negative sum, leave cancelling open
  (`CancelOnlyBeforeVotes`, `ZeroPowerVoteDoesNotBlockCancel`, `OverflowingVotesDoNotBlockCancel`).
- An extra For vote keeps a pass a pass unless a checked sum or product overflows, and then the proposal
  cannot be finalized (`ExtraForVoteNeverHurts`, `ExtraForVoteStopsFinalization`).
- `execute_slash` takes a stake below zero exactly when its notice asks for more than is left, which a
  direct slash or a new stake under an old notice brings about (`StakingSlashes`, `StakeBelowZero`). A
  top-up of such a stake can move its start time backward (`TopUpMovesStartForward`,
  `TopUpCanMoveStartBackward`), and its voting power can wrap (`VotingPowerIsExactUnlessItWraps`,
  `ExecuteSlashCanWrapVotingPower`).
- The time-weighted amount of a fresh stake is the whole amount for one instant, then drops to almost
  nothing; it never falls exactly for an empty stake or a term of at most one second
  (`EligibleOnlyGrowsExactlyWhen`), so it falls for every stake that is opened (`OpenedStakesDoNotOnlyGrow`).

## Model

| member | source | states |
|---|---|---|
| `CircleProofs.ReachableStatesAreSound` | packages/circle/src/contract.rs:862-1216 | Under any interleaving of all entry points and the clock: seats are list positions with distinct addresses, the bitmap is exactly the marked seats, the generator's counter and nonce match the round, caches match the log, ledgers and receipts add up, and winners, bids and refunds fit the settled rounds |
| `CircleProofs.StepTrace` | packages/circle/src/contract.rs:528-1216 | Every call of a circle decomposes into elementary changes (standings, bids on the current round, new seats, one log entry, one marked batch payment, one settled round, one refund batch), starting at its state and ending at its outcome |
| `CircleProofs.MicroKeeps` | packages/circle/src/contract.rs:528-1216 | Each kind of elementary change keeps the whole invariant |
| `CircleRuns.NobodyIsPaidTwice` | packages/circle/src/contract.rs:1060-1066 | In every reachable circle no member is the resolved recipient of two rounds, nor of a round and a batch that paid them as a member; settled rounds plus members paid by batches are the bits set, at most the member count, at most 100, and the bitmap fits a u128 |
| `CircleRuns.BatchNotesMembers` | packages/circle/src/contract.rs:2422-2435 | A batch entry is refused for a marked member, and marks its payee exactly when they are a member at that moment |
| `CircleRuns.BatchPaidMembersNeverResolve` | packages/circle/src/contract.rs:2428-2435 | A member paid by a batch is the resolved recipient of no round, before or after, whatever follows |
| `CircleRuns.BatchNotesEachPayee` | packages/circle/src/contract.rs:2411-2476 | A batch notes every payee in order: members as paid, the others as strangers |
| `CircleRuns.ResolvedPayeesWereStrangers` | packages/circle/src/contract.rs:2425-2435 | Whoever a batch pays and any round resolves, before or after, held no seat when the batch paid them, and is on record as a stranger |
| `CircleExamples.StrangerIsPaidTwice` | packages/circle/src/contract.rs:2425-2435 | Such a double payment does occur: a run in which a non-member is paid by a batch, invited afterwards and resolved as a round's recipient |
| `CircleRuns.RandomRoundsResolve` | packages/common/src/vrf.rs:270-311 | In every reachable random circle the counter is current_round * max_members, the last nonce is below current_round * 1000 (absent at round 0), so the shuffle never fails with Replay or Overflow and the resolver fails only when no active unpaid member is left |
| `CircleSettlement.AnyOrderPicksUnpaidMember` | packages/circle/src/payout.rs:15-52 | Whatever positions the shuffle draws, repeated ones included, the three passes pick an active unpaid member exactly when there is one |
| `CircleSettlement.RandomNeverReplays` | packages/circle/src/payout.rs:15-52 | In a sound state the shuffle of the current round succeeds and moves nonce and counter to the next round's start |
| `CircleSettlement.FixedPicksUnpaidMember` | packages/circle/src/payout.rs:54-72 | The fixed resolver succeeds exactly when seat round % max_members is unpaid and active, and picks its occupant |
| `CircleSettlement.BestBidIsHighest` | packages/circle/src/payout.rs:89-98 | The winning bid is on the round, none on the round is higher and no later one is as high; there is none exactly when the round has no bid |
| `CircleSettlement.VoteNeedsQuorumAndPlurality` | packages/circle/src/payout.rs:112-160 | A resolved vote has ballots from more than half the active members' number, and goes to an active unpaid candidate with the most votes |
| `CircleSettlement.EligibleMemberIsEligible` | packages/circle/src/payout.rs:5-13 | The eligibility check passes exactly for the address of an active member whose bit is clear |
| `CircleSettlement.RoundsBounded` | packages/circle/src/contract.rs:42-55 | Settled rounds plus members paid by batches equal the bits set, which are at most the members, and the bitmap is below 2^128 |
| `CircleSettlement.TriggerSettles` | packages/circle/src/contract.rs:862-1216 | A successful trigger marks one unpaid active seat, advances the round by one, and pays nothing or splits the recorded pool into net and fee and pays the larger of the net and the weighted shares; receipts, totals and ledgers grow by exactly that |
| `CircleSettlement.SettlesKeeps` | packages/circle/src/contract.rs:1060-1152 | Settling a round keeps every part of the invariant |
| `CircleSettlement.DistributionPaysNet` | packages/circle/src/contract.rs:1067-1144 | The distribution pays out the larger of the net amount and the weighted shares, and members' receipts grow by exactly what is paid |
| `CircleRuns.BooksBalance` | packages/circle/src/contract.rs:1114-1152 | In every reachable circle total payouts plus all ledger payout fees are the pools of the rounds that paid plus what saturated weights overpaid; total fees are the sum of the ledgers; receipts are total payouts plus the net batch amounts |
| `CircleLedger.RunsConserveUnlessARoundOverpays` | packages/circle/src/contract.rs:1067-1152 | Over any run of any circle: every round paid exactly its net amount, and total payouts plus payout fees are exactly the pools of the rounds that paid, if and only if no call of the run settled a round whose saturated weights overpay |
| `CircleLedger.RandomRoundsPayByWeight` | packages/circle/src/contract.rs:1067-1144 | A settled round of any reachable random circle pays at least its net amount, more exactly when saturated weights overpay, and exactly it when the weights fit; when the products fit too, the dust is below the number of contributors with weight |
| `CircleConservation.SplitConserves` | packages/circle/src/contract.rs:1067-1144 | When the weights' exact sum fits, shares plus dust equal the net amount; when the products fit too, the dust is less than the number of positive-weight contributors |
| `CircleConservation.OverpaysExactlyWhenSaturated` | packages/circle/src/contract.rs:1067-1113 | A random round pays more than its net amount if and only if the weights do not fit and either two products saturate with the first taker holding the whole total, or more products saturate than there are net units |
| `CircleConservation.WeighIsExactUpToSaturation` | packages/circle/src/contract.rs:1018-1036 | The weight map holds each contributor's own weight and the total is the exact sum saturated once |
| `CircleConservation.SeatsCarryAllWeight` | packages/circle/src/contract.rs:1079-1087 | The seats' weights add up to the whole weight map |
| `CircleExamples.SaturatedRoundOverpays` | packages/circle/src/contract.rs:1067-1113 | The condition does occur: a run whose round records one unit more than its pool as paid, given that the transfers go through, for which tokens from outside the circle must cover that unit |
| `CircleRuns.CachesAreScans` | packages/circle/src/contract.rs:242-292 | In every reachable circle the cached contributors and total of any round are a scan of the log, MemberContributed holds exactly the logged pairs, contributors are distinct, and the total is the saturated count times the fixed amount |
| `CircleInvariant.LoggedKeepsCaches` | packages/circle/src/contract.rs:666-701 | Logging a contribution keeps every cache equal to the scan, under saturating addition |
| `CircleInvariant.RecordingFeeAddsUp` | packages/circle/src/contract.rs:815-836 | Recording a fee keeps each ledger's total the sum of its parts and moves the sums over all ledgers by the deltas |
| `CircleInvariant.LogsOneKeeps` | packages/circle/src/contract.rs:528-726 | A contribution keeps the invariant |
| `CircleInvariant.GrowsKeeps` | packages/circle/src/contract.rs:187-233 | New seats by join or invitation keep the invariant: nobody new is marked as paid |
| `CircleInvariant.QuietKeeps` | packages/circle/src/contract.rs:1651-2090 | Exits, strikes, disputes and settings keep the invariant |
| `CircleRuns.SettledRoundsAreFinal` | packages/circle/src/contract.rs:930-1012 | Over any further run a settled round's recipient, pool and split stay, no contribution is added to it, and its pool stays what a scan of the log gives |
| `CircleRuns.RunsExtend` | packages/circle/src/contract.rs:862-1216 | Over any further run settlements, batch payments, payments to strangers and refunds only grow, seats, winners and terms stay, and what resolved rounds owe their losers is unchanged |
| `CircleRuns.EachLosingDepositReturnsOnce` | packages/circle/src/contract.rs:1321-1381 | From a recorded winner on, over any further run of any calls, deposits returned followed by losing deposits held is one fixed list, of which the returned part only grows: each goes back once, in order, the winner's never |
| `CircleRuns.CancellingRefundsOneContribution` | packages/circle/src/contract.rs:3138-3172 | In every reachable circle a cancelled auction pays exactly one fixed contribution to the best bidder, its sum never overflows, and no bid on the round is left |
| `CircleTerms.CancellingReturnsDepositsExactlyWhen` | packages/circle/src/contract.rs:3112-3186 | In every reachable circle what cancelling pays back equals the deposits dropped with the round's bids if and only if the contribution is zero, nobody has bid on the round, or exactly one bid stands and the round has no Dutch entry |
| `CircleCases.CancellingDropsADeposit` | packages/circle/src/contract.rs:3138-3186 | One failing case is reachable: two bids of 100 each, of which the later is paid back and the earlier dropped |
| `CircleCases.CancellingPaysWithoutADeposit` | packages/circle/src/contract.rs:1500-1515 | So is the other: an account without seat or deposit clears a Dutch round and is paid a whole contribution by the cancellation |
| `CircleTerms.ReachableTermsAreSound` | packages/circle/src/contract.rs:1391-1447 | In every reachable circle the fee is at most ten thousand basis points, every Dutch entry has floor <= start <= 10000 with positive decay and expiry, and a bid's deposit is the fixed contribution, or zero when its round has a Dutch entry |
| `CircleRuns.NothingIsRefundedBeforeResolution` | packages/circle/src/contract.rs:886-893 | Before a round has a winner nothing is refunded for it, and every settled auction round has one |
| `CircleRuns.InactiveMembersAreNeverResolvedAgain` | packages/circle/src/payout.rs:5-13 | Over any further run a member who exited or defaulted stays out and is the resolved recipient of no round settled afterwards |
| `CircleFairness.BidsAndBallotsCountOnce` | packages/circle/src/contract.rs:1240-1308 | In every reachable circle nobody has two bids or two ballots on one round, ballots come from members, and a Dutch round has at most the one bid that cleared it |
| `CircleFairness.VotedRoundsHaveAMajorityOfVoters` | packages/circle/src/payout.rs:112-160 | A round resolved by vote has more distinct voters than half the active members, all with a seat, and goes to an active unpaid member |
| `CircleTerms.ReachableDutchPricesDecay` | packages/circle/src/contract.rs:1451-1464 | For every Dutch entry of a reachable circle the price falls from start to floor by the configured decay per ledger and never leaves that range |
| `CircleFairness.RefundKeepsAuctions` | packages/circle/src/contract.rs:1353-1378 | A refund batch keeps one bid per bidder and round |
| `CircleStatus.CompletionEndsOnlyByResolution` | packages/circle/src/contract.rs:1975-2003 | A call takes a circle out of completion if and only if the admin resolves a dispute entry it carries, with a valid code and transfers that go through; and no call gives a completed circle such an entry |
| `CircleStatus.CompletionIsFinalWithoutDispute` | packages/circle/src/contract.rs:1975-2003 | A completed circle stays completed over every further run if and only if it carries no dispute entry |
| `CircleExamples.CompletedCircleReactivates` | packages/circle/src/contract.rs:1975-2003 | Such a circle is reachable: completed, with an entry whose second resolution makes it active |
| `CircleStatus.CompletedCirclesHaveRunTheirRounds` | packages/circle/src/contract.rs:1145-1158 | A reachable completed circle has settled current_round rounds, at least total_rounds of them; one with more rounds than seats, which initialization accepts, never completes |
| `CircleStatus.LateReportStrikesTwice` | packages/circle/src/contract.rs:1778-1797 | A late report of a member with any strikes: it errs exactly at u32::MAX - 1, leaves one strike at u32::MAX, and otherwise adds two; the member is set to defaulted exactly when the new count reaches max_strikes |
| `CircleCases.ReportOverflows` | packages/circle/src/contract.rs:1780-1781 | A reachable circle in which the next late report fails, at u32::MAX - 1 strikes |
| `CircleCases.ReportStartsOver` | packages/circle/src/contract.rs:1780-1781 | A reachable circle in which the next late report leaves one strike, at u32::MAX |
| `CircleStatus.OnlyOutsidersExitTwice` | packages/circle/src/contract.rs:1651-1706 | After a successful exit the same caller can exit again, and be paid the collateral again, if and only if they hold no seat; such an exit changes nothing but their cached status |
| `CircleStatus.MembersExitOnce` | packages/circle/src/contract.rs:1664-1690 | Over any further run a member who has exited never exits again |
| `CirclePayments.DistributesExactly` | packages/circle/src/contract.rs:1079-1113 | The weighted distribution fails if and only if a share overflows somebody's receipts or the sum handed out; otherwise every seat has received exactly its own share |
| `CirclePayments.PoolPaysExactly` | packages/circle/src/contract.rs:922-1167 | Once a member is resolved the payment succeeds if and only if the fee's product fits and either the net is not positive, or oracle and transfers answer and total fees, total payouts and every seat's receipts stay in range |
| `CircleSweep.TriggerSettlesExactly` | packages/circle/src/contract.rs:862-1167 | A trigger succeeds if and only if the circle is active and old enough, the round is current, the payout type finds an unpaid active member, the window is closed or nobody active still owes, and the guards on the payment hold |
| `CircleSweep.SweepSettlesExactly` | packages/circle/src/contract.rs:418-451 | In every reachable circle the deadline sweep succeeds if and only if it is due (active, a round left, window closed, old enough), its strikes leave somebody the payout type can resolve, and the guards on the payment hold in the state before the strikes |
| `CircleSweep.SweepStallsExactlyWhenStuck` | packages/circle/src/contract.rs:418-501 | In a full random or fixed circle the strikes of a due sweep leave nobody to resolve if and only if they leave no unpaid active member, or none on the round's seat; the sweep then fails with any flags and is rolled back |
| `CircleCases.SweepFailsWhereTriggerSettles` | packages/circle/src/contract.rs:418-451 | A reachable circle whose due sweep always fails, because its own strikes default everybody, while the organizer's trigger settles the same round |
| `CircleSweep.StuckRoundsNeverSettle` | packages/circle/src/contract.rs:393-451 | When all seats of a circle are taken and no unpaid active member is left, or the seat of a fixed round is not one, no further run settles the current round |
| `CircleStalls.UnsettleableRoundsNeverSettle` | packages/circle/src/contract.rs:883-897 | The same for every payout type: a vote round moreover is never settled once no unpaid active member or newcomer can lead the tally with the ballots still to come |
| `CircleStalls.DeadCirclesNeverSettle` | packages/circle/src/contract.rs:1975-2003 | A completed, cancelled or disputed circle without a dispute entry settles no round over any further run |
| `CircleStalls.RoundSettlesBySomeRunExactlyWhen` | packages/circle/src/contract.rs:393-451 | With a window that closes on the clock and a pool within a ten-thousandth of the i128 range, some run settles the current round of a reachable circle if and only if it is active, pending or has a dispute entry, and an unpaid active member is or can be had: any, the one on the round's seat, or one the ballots still to come can make lead |
| `CircleCases.LostVoteNeverSettles` | packages/circle/src/contract.rs:1590-1626 | A full vote circle that no run ever settles is reachable: both members voted for one who then left, and the other is unpaid and active |
| `CircleSettlement.ResolvesExactly` | packages/circle/src/contract.rs:883-897 | In a sound state the current round resolves exactly when its payout type finds an unpaid active member: any at all, the one on the seat, the best bidder, or the leader of a vote with quorum |
| `CircleWindow.AcceptanceMatchesEnforcement` | packages/circle/src/contract.rs:337-372 | The promise that enforcement and acceptance never disagree holds if and only if neither the deadline nor, past it, the grace period overflows; a closed window always refuses |
| `CircleWindow.OverflowingDeadlineWedges` | packages/circle/src/contract.rs:616-638 | While the deadline itself overflows, every contribution and every sweep fails, at any time |
| `CircleWindow.NothingIsContributedAfterTheWindow` | packages/circle/src/contract.rs:614-638 | Once a started circle's contributions come too late, no call over any further run ever adds one: the window counts from the circle's start, not the round's |
| `CircleWindow.RoundsAfterTheWindowPayNothing` | packages/circle/src/contract.rs:922-952 | Every round after the one open then is settled, over any further run, with a pool, net, fee and payout of zero |
| `CircleCases.DeadlineOverflows` | packages/circle/src/contract.rs:337-372 | A reachable active circle that refuses contributions at every time and whose window closes at none |
| `CircleCases.NextRoundIsEmpty` | packages/circle/src/contract.rs:922-952 | A run in which the round open at the deadline pays out both contributions and the next one settles with nothing |
| `CircleCases.ThreeRoundsNeverComplete` | packages/circle/src/contract.rs:42-55 | A reachable circle of two seats and three rounds that completes over no run |
| `CircleRefunds.RefundReturnsFirstLosers` | packages/circle/src/contract.rs:1321-1381 | One call returns the first min(limit, 20) losing deposits held, never the winner's, leaves all other bids alone, and reports exactly the losers left |
| `CircleRefunds.DrainFinishes` | packages/circle/src/contract.rs:1310-1320 | n calls in a row leave max(0, losers - n * min(limit, 20)) losers, so the drain terminates |
| `CircleRefunds.RefundKeepsOwed` | packages/circle/src/contract.rs:1353-1380 | A refund call moves deposits from held to returned without changing what any round owes altogether |
| `CircleContract.Contract.constructor` | packages/circle/src/contract.rs:36-127 | A new circle's storage is the initial one for the accepted configuration |
| `CircleContract.Contract.Join` | packages/circle/src/contract.rs:149-233 | Performs the join transition or changes nothing and returns its error |
| `CircleContract.Contract.BatchInvite` | packages/circle/src/contract.rs:2265-2359 | Performs the whole invitation list or none of it |
| `CircleContract.Contract.CheckStanding` | packages/circle/src/contract.rs:561-593 | The cached standing, falling back to the member list and filling the cache |
| `CircleContract.Contract.Admit` | packages/circle/src/contract.rs:542-610 | The contribution's checks in the source's order, with the status cache to store |
| `CircleContract.Contract.LatePenalty` | packages/circle/src/contract.rs:643-664 | The late penalty with its fee total and ledger |
| `CircleContract.Contract.Contribute` | packages/circle/src/contract.rs:528-726 | Performs the contribution transition, caches included, or changes nothing |
| `CircleContract.Contract.ContributorsOf` | packages/circle/src/contract.rs:242-264 | The cached contributors of a round, or a scan of the log |
| `CircleContract.Contract.ContributedTotal` | packages/circle/src/contract.rs:270-292 | The cached total of a round, or a scan of the log |
| `CircleContract.Contract.ResolveRecipient` | packages/circle/src/contract.rs:883-897 | Picks the recipient by payout type, moves the generator and records an auction's winner |
| `CircleContract.Contract.DistributeNet` | packages/circle/src/contract.rs:1013-1144 | Head record, weighted shares for random circles, then dust to the resolved recipient |
| `CircleContract.Contract.ClosedRound` | packages/circle/src/contract.rs:1145-1158 | The recipient's bit set and the round advanced, completed at the last one |
| `CircleContract.Contract.BookSettlement` | packages/circle/src/contract.rs:1145-1167 | Books a paid round or fails without a change |
| `CircleContract.Contract.SettlePaidRound` | packages/circle/src/contract.rs:1013-1167 | Distribution, fee ledger and booking of a paying round, or no change |
| `CircleContract.Contract.SettleRound` | packages/circle/src/contract.rs:922-1167 | An empty settlement when the net is zero, a paid one otherwise |
| `CircleContract.Contract.TriggerPayoutInternal` | packages/circle/src/contract.rs:862-1216 | Performs the settlement transition; on any error the generator and the winner are as before |
| `CircleContract.Contract.TriggerPayout` | packages/circle/src/contract.rs:838-856 | The same for organizer or admin only |
| `CircleContract.Contract.CheckContributionDeadline` | packages/circle/src/contract.rs:418-451 | Strikes the absent members and settles, or changes nothing |
| `CircleContract.Contract.PayEntry` | packages/circle/src/contract.rs:2411-2476 | One batch entry: refused when marked, otherwise marked, paid and recorded |
| `CircleContract.Contract.PayEntries` | packages/circle/src/contract.rs:2411-2494 | The batch loop: all entries, or the first error |
| `CircleContract.Contract.BatchPayout` | packages/circle/src/contract.rs:2360-2495 | Performs the whole batch or none of it |
| `CircleContract.Contract.AuctionBid` | packages/circle/src/contract.rs:1240-1308 | Places one bid per bidder and round, or changes nothing |
| `CircleContract.Contract.RefundLosingBids` | packages/circle/src/contract.rs:1321-1381 | Performs one refund batch and returns the number of losers left |
| `CircleContract.Contract.InitDutchAuction` | packages/circle/src/contract.rs:1391-1447 | Configures a Dutch round from the current ledger on when no bid is on it |
| `CircleContract.Contract.DutchAuctionBid` | packages/circle/src/contract.rs:1472-1529 | Clears at the decayed price and returns it |
| `CircleContract.Contract.RefundOnCancel` | packages/circle/src/contract.rs:3138-3172 | Whom a cancellation pays back and how much, or the overflow of the sum |
| `CircleContract.Contract.CancelAuction` | packages/circle/src/contract.rs:3112-3198 | Removes the current round's bids and only those, and reports the refund to the best bidder; changes nothing on an error |
| `CircleContract.Contract.VotePayout` | packages/circle/src/contract.rs:1555-1626 | Records one ballot per voter and round between active members |
| `CircleContract.Contract.Exit` | packages/circle/src/contract.rs:1651-1712 | Marks the member as exited |
| `CircleContract.Contract.ReportLate` | packages/circle/src/contract.rs:1740-1805 | Adds two strikes for a late contribution, or changes nothing when they overflow |
| `CircleContract.Contract.CancelCircle` | packages/circle/src/contract.rs:1823-1871 | Cancels a pending circle |
| `CircleContract.Contract.RaiseDispute` | packages/circle/src/contract.rs:1900-1948 | Opens the one dispute a circle can have |
| `CircleContract.Contract.ResolveDispute` | packages/circle/src/contract.rs:1975-2090 | Applies one of the four resolutions, from whatever status the circle is in |
| `CircleContract.Contract.SchedulePayout` | packages/circle/src/contract.rs:3069-3096 | Closes the current round to contributions |
| `CircleContract.Contract.SetFeeBps` | packages/circle/src/contract.rs:2826-2842 | Sets a fee of at most ten thousand basis points |
| `CircleContract.Contract.SetTreasury` | packages/circle/src/contract.rs:2696-2709 | Sets the treasury |
| `CircleContract.Contract.ConfigureFromFactory` | packages/circle/src/contract.rs:2739-2778 | Sets treasury and fee for the factory only, refusing the zero address and a fee out of range |
| `CircleLoops.SweepMembers` | packages/circle/src/contract.rs:457-501 | The strike loop equals the sweep over the whole list |
| `CircleLoops.WeighRound` | packages/circle/src/contract.rs:1018-1036 | The weighing loop equals the fold over the log |
| `CircleLoops.DistributeShares` | packages/circle/src/contract.rs:1079-1113 | The share loop with its inner crediting equals the distribution over all members, errors included |
| `CircleLoops.CreditMembers` | packages/circle/src/contract.rs:1102-1110 | The crediting loop equals the credit to every entry of the address, errors included |
| `CircleLoops.InviteAll` | packages/circle/src/contract.rs:2284-2320 | The invitation loop equals the list it builds, errors included |
| `CircleLoops.DrainLosers` | packages/circle/src/contract.rs:1353-1378 | The refund loop equals the split of the bids into kept, paid back and remaining |
| `CircleLoops.CountAwaiting` | packages/circle/src/contract.rs:378-390 | The number of active members without a contribution |
| `CircleLoops.RecordFee` | packages/circle/src/contract.rs:815-836 | The ledger entry after both deltas, errors included |
| `CircleLoops.SumContributions` | packages/circle/src/contract.rs:3152-3164 | The loop over the log equals the checked sum of a member's contributions to a round |
| `CircleLoops.CheckBallot` | packages/circle/src/contract.rs:1580-1598 | Voter and candidate checks in one pass |
| `Payout.PickByOrder` | packages/circle/src/payout.rs:23-51 | The three search loops equal the pick they specify |
| `Payout.PickRandom` | packages/circle/src/payout.rs:15-52 | The random resolver on the stored generator equals its specification |
| `Payout.PickFixed` | packages/circle/src/payout.rs:54-72 | The fixed resolver equals its specification |
| `Payout.PickAuction` | packages/circle/src/payout.rs:74-110 | The auction loop equals the best bid with the eligibility check |
| `Payout.FindBestBid` | packages/circle/src/payout.rs:89-98 | The search loop finds the highest bid of the round, the later one of equals |
| `Payout.PickVote` | packages/circle/src/payout.rs:112-160 | The vote loops equal quorum, leader and eligibility check |
| `Payout.FindLeader` | packages/circle/src/payout.rs:140-148 | The loop over the tally in key order finds the first candidate with the most votes |
| `Payout.CheckEligible` | packages/circle/src/payout.rs:5-13 | The eligibility loop equals its specification |
| `Vrf.ShuffleResult` | packages/common/src/vrf.rs:380-389 | A shuffle of n positions succeeds exactly when its seed range is fresh and fits and the counter has room; it then draws n positions below n and moves nonce and counter past them |
| `Vrf.VrfStore.Evaluate` | packages/common/src/vrf.rs:270-311 | One evaluation on the stored nonce and counter: replay and overflow errors, output and new state |
| `Vrf.VrfStore.Shuffle` | packages/common/src/vrf.rs:380-389 | The shuffle loop on the stored state equals its specification |
| `SafeMath.PercentageIsFlooredShare` | packages/common/src/math.rs:31-36 | A percentage of a non-negative amount exists exactly when the rate is in range and the product fits, and is the floored share |
| `SafeMath.FeeSplitsAmount` | packages/common/src/math.rs:38-40 | Net and fee of a non-negative amount are non-negative and add up to it |
| `Bitmap.PopcountAfterSet` | packages/circle/src/contract.rs:1060-1066 | Setting a clear bit raises the number of bits set by one |
| `Bitmap.BitsBelow` | packages/circle/src/contract.rs:49-55 | A bitmap with no bit at or above n has at most n bits and is below 2^n |
| `Bitmap.BitmapFitsU128` | packages/circle/src/contract.rs:49-55 | A bitmap over at most 128 positions is a u128 |
| `Leaderboard.QueryTopContributors` | packages/circle/src/contract.rs:3214-3307 | Whatever order the map is walked in, the result is the top min(n, 50, size) entries by total, time and address, each ahead of everyone left out |
| `Leaderboard.RankStandings` | packages/circle/src/contract.rs:3261-3297 | The bounded insertion loop over the three parallel lists keeps the top of what it has seen |
| `Leaderboard.InsertingKeepsTop` | packages/circle/src/contract.rs:3284-3296 | Inserting at the first beaten position and dropping the last keeps the list the top |
| `Leaderboard.TopIsUnique` | packages/circle/src/contract.rs:3208-3213 | There is only one such list, so the iteration order does not matter |
| `Leaderboard.TopIsPrefixOfRanking` | packages/circle/src/contract.rs:3208-3213 | It is the prefix of the fully sorted standings |
| `Leaderboard.CollectStandings` | packages/circle/src/contract.rs:3232-3259 | The two accumulation loops equal the standings they specify |
| `Leaderboard.BoardNeverShowsContributions` | packages/circle/src/contract.rs:3233-3252 | In every reachable circle each standing's total is zero: the board ranks by time and address only, unlike its documentation |
| `GovernanceProofs.ReachableStatesAreSound` | packages/governance/src/contract.rs:81-705 | Under any interleaving: tallies are sums of records, delegation is a depth-one forest with matching lists, the status index matches, every proposal's history is complete and the configuration is valid |
| `GovernanceRuns.TalliesAreSumsOfRecords` | packages/governance/src/contract.rs:145-259 | Each tally is the sum of the vote powers on record under it, one record per address and proposal |
| `GovernanceProofs.VoteRecordsEachOnce` | packages/governance/src/contract.rs:180-238 | A vote records the voter and each delegator without a record, under one choice, and nobody else; earlier records stand |
| `GovernanceProofs.GatherAdds` | packages/governance/src/contract.rs:204-238 | Gathering delegators raises only the chosen tally, by exactly what it adds to the total |
| `GovernanceRuns.DelegatorListsInvertDelegation` | packages/governance/src/contract.rs:261-363 | a delegates to b exactly when a occurs once in the delegators of b, and otherwise not at all; delegatees never delegate, nobody delegates to themselves |
| `GovernanceRuns.StatusListsPartitionProposals` | packages/governance/src/contract.rs:31-60 | Each id is listed once under its own status and nowhere else; a deposit entry exists exactly while its proposal is active |
| `GovernanceProofs.PassTestIsExact` | packages/governance/src/contract.rs:446-464 | The floored percentage test is for * 10000 >= threshold * (for + against) with quorum, whenever it is computed |
| `GovernanceProofs.ExtraForVoteNeverHurts` | packages/governance/src/contract.rs:446-464 | With more For votes a passing proposal passes still if and only if the sums and the product fit an i128; otherwise finalization is refused with InvalidConfig |
| `GovernanceRuns.ExtraForVoteStopsFinalization` | packages/governance/src/contract.rs:446-464 | The overflow is reachable: a passing proposal that one more For vote makes impossible to finalize |
| `GovernanceRuns.ExecutedProposalsMetTheirTerms` | packages/governance/src/contract.rs:378-495 | An executed proposal met quorum and threshold under the configuration of its finalization, after voting ended, and ran no earlier than that configuration's timelock |
| `GovernanceRuns.DecidedProposalsAreFrozen` | packages/governance/src/contract.rs:378-613 | Over any further run decided tallies and votes never change, statuses only move forward and terminal proposals never change |
| `GovernanceRuns.ConfigsChangeOnlyAfterDelay` | packages/governance/src/contract.rs:620-681 | The configuration in force is the initial one or one queued by an earlier call and adopted by a call at least 48 hours later |
| `GovernanceRuns.CancelOnlyBeforeVotes` | packages/governance/src/contract.rs:501-548 | In every reachable state the proposer can cancel an active proposal exactly when the wrapped sum of all recorded powers is not positive; so voting closes cancellation if and only if that sum is positive once there is a vote |
| `GovernanceRuns.PositiveVotesCloseCancelUntilTheyWrap` | packages/governance/src/contract.rs:516-530 | With positive powers cancelling is open exactly before the first vote and while the powers sum to more than i128::MAX but at most 2^128 |
| `GovernanceRuns.ZeroPowerVoteDoesNotBlockCancel` | packages/governance/src/contract.rs:516-530 | One failing case is reachable: a proposal with a vote of no power that can still be cancelled |
| `GovernanceRuns.OverflowingVotesDoNotBlockCancel` | packages/governance/src/contract.rs:516-530 | So is the other: two votes of the greatest power whose unchecked sum is -2, and the proposal can still be cancelled |
| `GovernanceContract.Contract.CreateProposal` | packages/governance/src/contract.rs:81-140 | Performs the transition or changes nothing |
| `GovernanceContract.Contract.GatherDelegators` | packages/governance/src/contract.rs:204-238 | The delegator loop equals the gathering fold, errors included |
| `GovernanceContract.Contract.CastVote` | packages/governance/src/contract.rs:145-259 | Performs the vote with all delegators or changes nothing |
| `GovernanceContract.Contract.Delegate` | packages/governance/src/contract.rs:261-311 | Performs the delegation, leaving a former delegatee's list, or changes nothing |
| `GovernanceContract.Contract.RevokeDelegation` | packages/governance/src/contract.rs:313-332 | Performs the revocation or changes nothing |
| `GovernanceContract.Contract.RemoveProposalFromStatusIndex` | packages/governance/src/contract.rs:43-60 | The rebuild loop equals the list without the id |
| `GovernanceContract.Contract.FinalizeProposal` | packages/governance/src/contract.rs:378-444 | Queues or defeats a proposal after its voting period, or changes nothing |
| `GovernanceContract.Contract.ExecuteProposal` | packages/governance/src/contract.rs:467-495 | Executes a queued proposal after its timelock, or changes nothing |
| `GovernanceContract.Contract.CancelProposal` | packages/governance/src/contract.rs:501-548 | Cancels the caller's active proposal while its wrapped cast total is not positive |
| `GovernanceContract.Contract.ExpireProposal` | packages/governance/src/contract.rs:555-613 | Expires an active or queued proposal past its time |
| `GovernanceContract.Contract.QueueConfigUpdate` | packages/governance/src/contract.rs:620-657 | Queues a valid configuration |
| `GovernanceContract.Contract.ExecuteConfigUpdate` | packages/governance/src/contract.rs:661-681 | Adopts the queued configuration after 48 hours |
| `StakingProofs.ReachableStatesAreSound` | packages/staking/src/contract.rs:33-295 | Under any interleaving the contract's tokens cover all positive stakes and unbonding positions, no user has claimed more than deposited, the total and the staker list match the stakes, and locks and powers are as their stake calls set them |
| `StakingProofs.ClaimIsAlwaysFunded` | packages/staking/src/contract.rs:230-295 | A claim never reaches InsufficientContractBalance, and succeeds exactly when a non-negative position's time has come |
| `StakingProofs.ClaimWaitsOutPeriodAndUnbonding` | packages/staking/src/contract.rs:147-250 | A claim comes no earlier than the stake period plus fourteen days after the stake call that opened the position |
| `StakingProofs.OpeningsComeFromStakeCalls` | packages/staking/src/contract.rs:77-98 | Each position goes back to its own successful stake call of the run |
| `StakingProofs.UnlockTimeNeverMoves` | packages/staking/src/contract.rs:614-680 | No step moves the unlock time or period of a surviving position |
| `StakingProofs.VotingPowerIsExactUnlessItWraps` | packages/staking/src/contract.rs:935-970 | A voting power is amount times multiplier exactly when that product is at least the least i128; a non-negative stake's always is |
| `StakingProofs.TopUpPreservesTimeWeight` | packages/staking/src/contract.rs:632-680 | A top-up of a non-negative stake moves its start forward, not past the unlock time, and loses less than one unit of the new amount in time weight when the product fits |
| `StakingProofs.TopUpMovesStartForward` | packages/staking/src/contract.rs:632-680 | A top-up moves the start backward exactly when it brings a stake from below zero to above it, time has been served from a start after zero, and the credit, given in closed form from amount, top-up and elapsed time, exceeds that time |
| `StakingSlashes.ExecuteSlashGoesBelowZeroExactly` | packages/staking/src/contract.rs:940-958 | An executed slash leaves a negative stake if and only if its notice asks for more than is staked by then |
| `StakingSlashes.OnlyExecuteSlashGoesBelowZero` | packages/staking/src/contract.rs:33-980 | Of all calls only that one takes a stake below zero |
| `StakingSlashes.CoveredStakesStayCovered` | packages/staking/src/contract.rs:784-980 | Over any further run a stake that covers the notice against it and is neither slashed directly nor unstaked stays, stays covered, and never goes below zero |
| `StakingSlashes.OpenedStakesAreCoveredUnlessANoticeOutlived` | packages/staking/src/contract.rs:33-140 | A new stake is covered exactly unless an older notice for the same user asks for more |
| `StakingExamples.StakeBelowZero` | packages/staking/src/contract.rs:940-958 | A stake below zero is reachable: a direct slash between notice and execution |
| `StakingExamples.TopUpCanMoveStartBackward` | packages/staking/src/contract.rs:945-953 | A reachable stake below zero whose top-up moves its start time backward |
| `StakingExamples.ExecuteSlashCanWrapVotingPower` | packages/staking/src/contract.rs:945-958 | A reachable stake whose voting power is not its amount times its multiplier |
| `StakingRewards.EligibleOnlyGrowsOnceStarted` | packages/staking/src/contract.rs:711-729 | Once time has passed since a stake's start its time-weighted amount only grows, up to the amount |
| `StakingRewards.WholeAmountIsEligibleAtUnlock` | packages/staking/src/contract.rs:711-729 | At the unlock time the whole amount counts exactly when amount times span fits a u128 |
| `StakingRewards.EligibleOnlyGrowsExactlyWhen` | packages/staking/src/contract.rs:711-729 | From its start on a non-negative stake's time-weighted amount never falls if and only if there is no amount or at most one second between start and unlock |
| `StakingRewards.OpenedStakesDoNotOnlyGrow` | packages/staking/src/contract.rs:711-729 | The time-weighted amount of every stake falls at some time after it is opened |
| `StakingContract.Contract.Stake` | packages/staking/src/contract.rs:33-140 | Performs the transition or changes nothing |
| `StakingContract.Contract.Unstake` | packages/staking/src/contract.rs:147-227 | Moves the stake to unbonding, overwriting an unclaimed position |
| `StakingContract.Contract.Claim` | packages/staking/src/contract.rs:230-295 | Pays the position out or changes nothing |
| `StakingContract.Contract.Slash` | packages/staking/src/contract.rs:504-606 | Slashes at most the stake and returns the amount slashed |
| `StakingContract.Contract.TopUp` | packages/staking/src/contract.rs:614-708 | Adds to the stake and moves its start time by weight |
| `StakingContract.Contract.CreateSlashNotice` | packages/staking/src/contract.rs:784-845 | Opens a notice for at most the stake |
| `StakingContract.Contract.ExecuteSlash` | packages/staking/src/contract.rs:910-980 | Slashes by the notice without a clamp, power in wrapping arithmetic |
| `StakingContract.Contract.StakersWithout` | packages/staking/src/contract.rs:189-203 | The rebuild loop equals the staker list without the user |
| `EscrowSwapProofs.EveryRunIsSolventAndSettlesOnce` | packages/escrow-swap/src/contract.rs:56-355 | Over every run ids are list positions, the contract's balance of every token covers what all pending and active swaps are owed, also with one token on both legs, and each swap's transfers are exactly those of its status |
| `EscrowSwapProofs.CompletionIsFunded` | packages/escrow-swap/src/contract.rs:232-293 | Either party can complete an active swap, and then exactly the two legs change hands |
| `EscrowSwapProofs.CancellationIsFunded` | packages/escrow-swap/src/contract.rs:295-355 | Either party can cancel a pending or active swap, and then exactly the deposits made return |
| `EscrowSwapProofs.SettledSwapsStaySettled` | packages/escrow-swap/src/contract.rs:232-355 | Over any further run a swap keeps its terms, and a settled one never changes nor moves tokens again |
| `EscrowSwap.EscrowContract.Create` | packages/escrow-swap/src/contract.rs:56-137 | Performs the transition or changes nothing |
| `EscrowSwap.EscrowContract.Accept` | packages/escrow-swap/src/contract.rs:161-230 | Performs the transition or changes nothing |
| `EscrowSwap.EscrowContract.Complete` | packages/escrow-swap/src/contract.rs:232-293 | Performs the transition or changes nothing |
| `EscrowSwap.EscrowContract.Cancel` | packages/escrow-swap/src/contract.rs:295-355 | Performs the transition or changes nothing |
| `EscrowSwap.EscrowContract.Find` | packages/escrow-swap/src/contract.rs:179-184 | The search loop finds the first swap with the id |
| `ActivityLog.Registry.Record` | packages/reputation-registry/src/contract.rs:14-139 | Appends exactly one entry to the user's flat log and updates their score, or changes nothing; pages keep tiling the log |
| `ActivityLog.PushKeepsPaged` | packages/reputation-registry/src/contract.rs:98-116 | Pushing on the page of the old count keeps every page of every user equal to its fifty entries of the log |
| `ActivityLog.Registry.GetHistory` | packages/reputation-registry/src/contract.rs:166-198 | Returns exactly the requested slice of the flat log clipped to its length, also where the u32 products saturate |
| `ActivityLog.Registry.Slice` | packages/reputation-registry/src/contract.rs:180-197 | The loop with its cached page equals the slice of the log |
| `ActivityLog.PagesTileLog` | packages/reputation-registry/src/contract.rs:98-112 | The pages one after another are the log |
| `ActivityLog.HistoryPagesTileLog` | packages/reputation-registry/src/contract.rs:166-198 | Reading all pages of one size gives the whole log back |
| `ActivityLog.Registry.ScoreIsEarned` | packages/reputation-registry/src/contract.rs:49-95 | In every registry state a user's score is what their log has earned: all impacts up to a thousand points, the tier those points give, the counts of circles joined, completed and defaulted, and as streak the contributions since the last default |
| `ActivityLog.ScoreStaysEarned` | packages/reputation-registry/src/contract.rs:49-95 | Recording any activity keeps the score what the longer log has earned |

## Left out

- Authorization, pause flags, reentrancy guards, events, time-to-live extension, upgrades and contract deployment: host effects or one-branch checks. Of authorization only this is kept: escrow and staking refuse a call in which the contract itself would have to sign as the user.
- Second initialization and missing storage entries: the constructors run once and set every entry.
- SHA-256 and the generator's unpredictability: hash and generator output are arbitrary functions of their inputs, so the results hold for every one of them.
- CircleStalls.RoundSettlesBySomeRunExactlyWhen: the run it finds waits for the window to close and lets the fee take the whole pool, so circles without a deadline that fits the clock, and pools whose product with ten thousand overflows, have only the other direction and, for the call at hand, `CircleSweep.TriggerSettlesExactly`.
- Token, treasury and collateral transfers of a circle: each call takes one flag saying whether all its host calls went through; a trap rolls the whole call back, and which of a trap and a later typed error comes first is not modelled.
- A circle's own token balance: late penalties leave for the treasury while the recorded pool stays gross, so only the recorded accounting is proved.
- The registry address that `configure_from_factory` stores: it is checked there, and what the registry would answer is a parameter of the calls that ask it.
- Reputation scores, the allowlist, vote powers, the oracle's answer and whether the reported exit penalty can be computed are parameters of the calls that read them.
- Tier limits at initialization, streaks, referrals, bonus sweeps, treasury withdrawals, token changes and health scores: they touch none of the modelled entries, or only move tokens.
- Configuration hash snapshots, names and slugs, the legacy contribution map and the collateral refunds of a finished circle.
- Agreement of the status cache with the member list: the dispute penalty changes only the list, so it does not hold.
- Lengths of vote, bid and contribution lists are unbounded naturals; the source counts them in u32.
- `update_admin`, `set_slash_notice_period` and clock ticks are transitions of the staking model without a method of their class.
- `query_stakers_page`, proposal pages and the other read-only lists of records.
- Key rotation and proof verification of the generator, and the fixed-point helpers of the math module.
- `packages/circle-factory`, `packages/treasury` and `packages/governance-token`: counters and ledger sums whose proofs would repeat the staking and escrow ones.
