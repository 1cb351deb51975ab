# Creditra credit engine: verified model

Dafny 4.11 proofs about the on-chain credit engine in `contracts/credit`. Check everything with
`dafny verify dfyconfig.toml`.

## What is modelled

**Arithmetic.** `Apportion` and `Splitting` hold the largest-remainder split, `Accrual` the floor-prorated interest with
the grace branches and runs of accrual calls, `Installments` the overdue count and the late fees over runs of receipts.

**Oracles.** `WeightedMedian` and `OracleRegistries` hold the registry and its median, computed by sorting an array in
place; `QuorumPrice` the K-of-N price found by a sort and a sliding window.

**The ledger.** `Ledger` states every entrypoint as a function from the stored state to a new state or an error; a run
(`Exec`) is any sequence of calls, each with its own clock value and its own configuration, where a reverted call
changes nothing. Properties of all runs: `LedgerInvariants` (aggregates), `LedgerSoundness` (bounds on each line),
`LedgerReplay` (the event log), `LedgerInterest` and `LedgerFees` (what fees are charged on and where they go),
`LedgerFunds` (token balances), `LedgerInstallments` and `LedgerPenalties` (what a late borrower pays), `LedgerReversals`
(the audit trail of draws), `LedgerLoops` (the accrual loops), `LedgerSettlement`, `LedgerLifecycle` and
`LedgerSuspension` (statuses and their stamps), `LedgerAdmission` (exactly when a call succeeds, and what it leaves),
`LedgerStall` (what a negative debt blocks), `RateChange` (when changed terms start to count) and `RateGuard` (how fast a
rate can move). `Custody` joins the
ledger with the collateral pool over the contract's one token balance, and `Reconciliation` settles both against the
event log. `Scenarios` reaches the first six differences below by calls on a fresh contract.

**The contract object.** `CreditContracts.CreditContract` holds the stored entries, which the entrypoints update in
place, loops over the index included, and a host rolls a failed call back. Each entrypoint is proved to be one step of
`Ledger`, so everything proved about runs holds of the object.

**Attestation and collateral.** `Merkle` is parametric in the hash: any function from bytes to 32-byte digests.
`Collateral` gives the exact slack that flooring leaves in the withdrawal guard, `CollateralAdmission` when a collateral
call succeeds.

A revert is an `Err` result. Amounts are integers with the source's overflow checks written out; `u32`, `u64`, `u128` and
`i128` are subset types. The contract's own token balance and that of an external liquidity source are part of the
state; callers are parameters, the clock is the `now` of a call. A draw takes the borrower's effective collateral as an
input, which `Custody` fills in from the pool.

## Where the code and what is written about it differ

The model follows the code.

- **With the default liquidity source, draws can spend fees and collateral.** `init` makes the contract its own source
  (`contracts/credit/src/config.rs:63-65`), `draw_credit` checks only the whole balance
  (`contracts/credit/src/lib.rs:609-614`), yet `docs/ARCHITECTURE.md:543-546` and `docs/ARCHITECTURE.md:563` say that
  fees and collateral stay covered and that fees are not paid out of collateral or principal. A self-sourced draw keeps
  the custody equation if and only if its amount is at most the balance less both accumulators and the collateral
  (`SelfSourcedDrawKeepsCustodyIff`); `FeesCanBeDrawn` is a run after which a mature withdrawal fails. With an external
  source the equation always holds (`ExternalSourceKeepsCustody`), and overdrawing the surplus is the only way to lose
  it (`ModestDrawsKeepSurplus`).
- **A reversal can drive a line negative.** `reverse_draw` checks the draw's audit record but not the principal still
  owed, and `checked_sub` on a signed amount does not refuse a negative result. `ReversalKeepsSoundIffCovered` gives the
  exact condition under which `0 <= accrued_interest <= utilized_amount` survives, and `UncoveredReversalIsReachable` a
  four-call run that leaves a line and `TotalUtilized` at minus the amount drawn. All other calls keep the bound.
  Together the reversals of one moment never exceed the largest single draw made at it (`ReversalsStayWithinDraw`); but a
  second draw at the same moment replaces the record of the first and not of its reversals (`BoundIsKeptIff`), so that it
  may not be reversible at all (`SecondDrawCannotBeReversed`).
- **Repaying a negative line is not in the log.** `repay_credit` stores `(utilized - paid).max(0)` and publishes a payment
  of zero (`contracts/credit/src/lib.rs:780-785`): no token moves, and line and `TotalUtilized` rise by what was negative
  (`NegativeRepaymentIsUnrecorded`). It is the only call whose events do not account for what it does to a debt
  (`StepTracks`).
- **A negative line stops others from drawing.** Its debt is cast to `u128`
  (`contracts/credit/src/accrual.rs:252-337`), so once two basis-point seconds are pending every call that accrues it
  reverts, and under an exposure cap so does every borrower's draw (`NegativeDebtBlocksIff`,
  `OneStalledLineStopsDraws`). At exactly one basis-point second the accrual succeeds and charges more than 5 * 10^26
  units (`OneSecondIsCharged`).
- **New terms can reach back.** `docs/interest-accrual-design.md:197-200` and `contracts/credit/src/risk.rs:35-38` say a
  rate change does not. `TermsAreProspectiveIff` covers every call that changes the rate or the suspension of a line:
  elapsed time escapes the new terms exactly when nothing is owed, no time has passed, or the call settles the time
  first. A re-opening settles only a closed line, closing settles none, and the other calls only when the pending
  interest reaches one unit. Hence idle time is repriced (`IdleTimeIsBackdated`), time before a re-opening always is
  (`ReopeningIsBackdated`), and a waiver is lost when the suspension ends inside it (`WaiverIsLost`). The surcharge and
  the waiver themselves are read when interest is charged and price the whole time since the checkpoint.
- **Re-opening escapes the rate-change limits.** `contracts/credit/src/risk.rs:46-49` and `docs/SECURITY.md:49` bound what
  even a compromised admin can do to a rate. `RateMovesWithinLimits` proves the bound for every run that does not re-open
  the line; `open_credit_line` writes any rate up to the global maximum and clears the stamp (`ReopeningIgnoresLimits`,
  `ReopeningEscapesLimits`).
- **The audited figure counts too little collateral.** Of the balances deposited by `deposit_collateral_token`,
  `docs/ARCHITECTURE.md:548-551` subtracts none, so the figure is too high by what is held of the liquidity token
  (`SelfSourcedAudit`).
- **The withdrawal guard can be one unit looser than its comment says** (`contracts/credit/src/collateral.rs:250-251`).
  `ReleaseSlack` says exactly when, `WithdrawalCanUndercut` gives a position of every size for which it happens. It also
  reads the debt as stored, without the interest pending on it (`ReleaseCoversAccruedIff`).
- **A health factor of 10 000 does not mean that collateral equals the requirement**
  (`contracts/credit/src/query.rs:217-220`): `HealthFactorMeaning` states what each range of the factor does mean,
  `HealthFactorHidesSurplus` gives a surplus that it hides.
- **Inner nodes verify as leaves.** The header of `contracts/credit/src/attestation.rs:44-46` says that the prefix byte
  keeps leaves and inner nodes apart, and `contracts/credit/src/attestation.rs:125` that a proof shows a leaf's
  inclusion. Leaves are not hashed by the contract, so every inner node, the root with an empty proof included,
  verifies as well (`NodesHaveProofs`); what verifies is a node of the tree, not necessarily a leaf (`RootProvesNodes`).
- **An installment count is taken modulo 2^64** (`contracts/credit/src/lifecycle.rs:1510`): paying 2^64 installments at
  once moves the schedule by none (`CastIsExactIff`).
- **Repayment never cures a restricted line**, although `contracts/credit/src/lifecycle.rs:47-50` and
  `docs/GLOSSARY.md:246-247` say so; `docs/state-machine.md:84-88` has it right (`StatusFollowsMachine`).
- **Re-opening does not clear the debt of a line that was not closed**, against edge E21 of `docs/state-machine.md:81`
  (`ReopeningClearsIff`).
- **Without debt `last_accrual_ts` does advance** (`contracts/credit/src/accrual.rs:173-176`, against its header).
- **A tie in the split goes to the lower index** (`contracts/credit/src/math_utils.rs:486`), although one test expects the
  later bucket to get the unit.

## Model

| member | source | states |
|---|---|---|
| Splitting.SplitConserving | contracts/credit/src/math_utils.rs:446-496 | The loops compute the largest-remainder allocation without overflowing `u128`, and fail exactly on an empty weight list |
| Splitting.ShareFits | contracts/credit/src/math_utils.rs:463-480 | No intermediate of `q*w + r*w/W` exceeds `u128`, for every `u128` total and every weight list |
| Splitting.ShareSplit | contracts/credit/src/math_utils.rs:463-480 | The overflow-free form has the quotient and remainder of `total*w/W` |
| Splitting.ProrateInterestConserving | contracts/credit/src/math_utils.rs:524-532 | Interest is floored once and the shares add up to exactly that floor |
| Apportion.AllocationIsUnique | contracts/credit/src/math_utils.rs:481-494 | Sum, floors and served-first order determine the split: there is only one allocation |
| Apportion.QuotaRule | contracts/credit/src/math_utils.rs:437-445 | Every part is within one unit of its exact share, and a zero weight gets nothing |
| Apportion.ExtraUnitNeedsClaim | contracts/credit/src/math_utils.rs:481-494 | Leftover units only reach buckets with a positive remainder |
| Apportion.LeftoverBound | contracts/credit/src/math_utils.rs:488-494 | The leftover loop makes fewer passes than there are buckets |
| Apportion.SplitIsOptimal | contracts/credit/src/math_utils.rs:481-494 | No other integer split of the total, not just no one-unit transfer, has a smaller total absolute error |
| Fees.TwoBuckets | contracts/credit/src/fees.rs:47-76 | With two buckets the split is rounding half up, the exact half going to the treasury |
| Fees.SplitIsMonotone | contracts/credit/src/fees.rs:47-76 | Both parts are monotone in the fee and the treasury part in the share |
| Fees.SplitProtocolFee | contracts/credit/src/fees.rs:47-76 | For every fee and share the treasury gets the closed form, the bounty the rest, nothing is lost |
| Fees.AccrueFeeKeepsVault | contracts/credit/src/fees.rs:87-112 | Crediting a fee adds exactly the fee to what the two accumulators and the payouts account for |
| Fees.VaultStepsExactly | contracts/credit/src/lib.rs:1308-1468 | Exactly when a proposal, a withdrawal and a sweep succeed: the proposal is the accumulator as it stands, locked for 24 hours, and both payouts are made in full |
| LedgerFees.FeeIsSplit | contracts/credit/src/fees.rs:87-112 | A fee reaches both accumulators with its two parts |
| LedgerFees.RepayCollects | contracts/credit/src/lib.rs:738-808 | A repayment collects the protocol fee on its interest part and the late fee, each split by the configured share |
| LedgerFees.FeesReachAccumulators | contracts/credit/src/fees.rs:87-112 | Over any run from any state, what the treasury holds and was paid grows by its part of every fee collected, and the bounty's by the other part |
| Fees.WithdrawalsKeepVault | contracts/credit/src/lib.rs:1308-1382 | Proposing, executing and sweeping keep the vault balanced, a pending amount covered by its accumulator and every payout after its time lock |
| Fees.MatureWithdrawalPaysIff | contracts/credit/src/lib.rs:1342-1370 | A mature withdrawal is never refused by the accumulator: it fails if and only if the contract's token balance is short, and never when that balance covers the accumulator |
| WeightedMedian.MedianIsUnique | contracts/credit/src/oracles.rs:254-283 | Two values cannot both be the lower weighted median |
| WeightedMedian.MedianIgnoresOrder | contracts/credit/src/oracles.rs:254-283 | The median depends on the reports only as a multiset |
| WeightedMedian.MedianIsOptimal | contracts/credit/src/oracles.rs:254-283 | It minimises the weighted absolute deviation over every value, and is the least minimiser |
| WeightedMedian.HonestMajority | contracts/credit/src/oracles.rs:254-283 | With more than half of the fresh weight honest, it lies within the honest range |
| OracleRegistries.SortReports | contracts/credit/src/oracles.rs:254-267 | The exchange sort orders the array in place and permutes it |
| OracleRegistries.ScanMedian | contracts/credit/src/oracles.rs:269-283 | The cumulative scan stops at the lower weighted median |
| OracleRegistries.OracleRegistry.AddOracle | contracts/credit/src/oracles.rs:44-75 | Registers or re-weights an oracle within the limit; otherwise nothing changes |
| OracleRegistries.OracleRegistry.RemoveOracle | contracts/credit/src/oracles.rs:77-109 | Removes exactly this oracle with its weight and report |
| OracleRegistries.OracleRegistry.ReportValue | contracts/credit/src/oracles.rs:156-189 | Accepts exactly positive values of registered oracles |
| OracleRegistries.FreshExactly | contracts/credit/src/oracles.rs:216-247 | A report counts if and only if its oracle is listed with this positive weight, it is the value on record, and it is at most the window old; each counts once |
| OracleRegistries.StaleReportsDoNotCount | contracts/credit/src/oracles.rs:225-226 | Registries that differ only in reports that are too old have the same fresh reports |
| OracleRegistries.OracleRegistry.GetMedianValue | contracts/credit/src/oracles.rs:191-283 | Returns the lower weighted median of exactly the reports that count, or the exact reason there is none; a missing quorum when all are too old |
| QuorumPrice.WithinIffTolerant | contracts/credit/src/math_utils.rs:382-394 | Division, overflow and saturation decide exactly whether the spread is below `max_deviation_bps + 1` basis points of the lower price |
| QuorumPrice.TolerantNarrows | contracts/credit/src/math_utils.rs:382-394 | A pair inside a tolerant pair is tolerant, overflow included |
| QuorumPrice.ResolvableIffQuorum | contracts/credit/src/oracles.rs:939-963 | Some contiguous window is tolerant if and only if some K of the prices, wherever they stand, agree pairwise |
| QuorumPrice.PriceIsDetermined | contracts/credit/src/oracles.rs:939-963 | The price is determined by the multiset of submitted prices |
| QuorumPrice.PriceIsLowestMedian | contracts/credit/src/oracles.rs:950-962 | The price is the lower median of a tolerant window of the sorted prices, and no other such window has a lower one |
| QuorumPrice.PriceNearHonest | contracts/credit/src/oracles.rs:939-963 | With fewer than K dishonest feeds the price is within tolerance of an honest one |
| QuorumPrice.PriceBetweenHonest | contracts/credit/src/oracles.rs:939-963 | With at most (K-1)/2 dishonest feeds it lies between two honest ones |
| QuorumPrice.SelectionSort | contracts/credit/src/oracles.rs:928-938 | The selection sort orders the buffer in place and permutes it |
| QuorumPrice.ResolveQuorumPrice | contracts/credit/src/oracles.rs:910-965 | The lower median of the first K sorted neighbours whose spread keeps that inequality, exactly when some K prices keep it pairwise; otherwise the exact error |
| Accrual.ProrateIsFloor | contracts/credit/src/math_utils.rs:253-280 | The result is the floor of principal, rate and time over a year, with no bound on the inputs |
| Accrual.ProrateFitsIff | contracts/credit/src/math_utils.rs:253-280 | An interest is refused exactly when the exact product exceeds `u128` |
| Accrual.YearAtFullRate | contracts/credit/src/math_utils.rs:253-280 | 365.25 days at 100 % cost the principal |
| Accrual.ProrateIsMonotone | contracts/credit/src/math_utils.rs:253-280 | Monotone in every argument; fitting in `u128` is downward closed |
| Accrual.PriceInterest | contracts/credit/src/accrual.rs:179-340 | The nested rate branches compute the specified interest, or its overflow |
| Accrual.ApplyAccrual | contracts/credit/src/accrual.rs:162-367 | The step-by-step update of the line equals the specification, overflow branches included |
| Accrual.AccrueGrows | contracts/credit/src/accrual.rs:162-367 | Accrual adds the same amount to both debt fields; when it adds nothing to a debt it changes nothing |
| Accrual.RateAtBranches | contracts/credit/src/accrual.rs:199-260 | The branch conditions of the code give the rate that status, stamp, waiver, delinquency and surcharge prescribe for each second |
| Accrual.GraceRefinesRate | contracts/credit/src/accrual.rs:252-337 | The branches refine that rate: the charge is the floor of its integral or one less, never above |
| Accrual.PlainCharge | contracts/credit/src/accrual.rs:213-340 | Outside a suspension the charge is the floor of debt times rate plus surcharge, capped at 100 %, over the time elapsed, and is refused exactly on overflow |
| Accrual.InterestIsMonotone | contracts/credit/src/accrual.rs:252-337 | A later accrual never charges less, across both branch boundaries |
| Accrual.GraceNeverExceedsFullRate | contracts/credit/src/accrual.rs:252-337 | With a reduced rate of at most the effective rate, the waiver never costs the borrower anything |
| Accrual.DebtTracksSimpleInterest | contracts/credit/src/accrual.rs:162-367 | Over any run of polls the debt trails simple interest by less than a unit per credit plus one, and by less than what was gained plus one |
| Accrual.DebtBelowCompounding | contracts/credit/src/accrual.rs:162-367 | Over any run of polls the debt never exceeds exact compounding over the crediting times |
| Accrual.AccrueIsIdempotent | contracts/credit/src/accrual.rs:162-178 | A second accrual at the same moment changes nothing |
| LedgerPenalties.PenaltiesOf | contracts/credit/src/accrual.rs:199-207 | A rate-based late fee gives its surcharge and no fee, a flat one its fee and no surcharge, and neither the legacy two |
| LedgerPenalties.DelinquentIffOverdue | contracts/credit/src/query.rs:260-279 | A debt is delinquent exactly while its next installment is unpaid strictly after its date plus the grace |
| LedgerPenalties.PenaltyIsCharged | contracts/credit/src/accrual.rs:199-340 | Every call that accrues an unsuspended line charges its own rate, plus the configured surcharge if and only if it is overdue |
| LedgerPenalties.BatchChargesPenalty | contracts/credit/src/accrual.rs:456-480 | The accrual batch does so for every active borrower it lists, from the stored schedule and the configuration |
| RateChange.TermsAreProspectiveIff | docs/interest-accrual-design.md:197-200 | Over every call: only eight entrypoints change a line's rate or suspension, and the new terms leave elapsed time alone if and only if nothing is owed, no time has passed, or the call settles the time first |
| RateChange.RateIsKept | contracts/credit/src/accrual.rs:252-337 | Every other call leaves the rate of every second of the line as it was |
| RateChange.AccrualMovesCheckpoint | contracts/credit/src/accrual.rs:342-367 | Accruing a debt moves its checkpoint exactly when it credits at least one unit, and otherwise changes nothing |
| RateChange.BackdatedCharge | contracts/credit/src/accrual.rs:252-337 | When new terms reach back, the next charge integrates them over the time before the change too, back to the old checkpoint |
| Scenarios.IdleTimeIsBackdated | contracts/credit/src/risk.rs:35-38 | From a fresh contract: any stretch of idle time is charged at a rate set at its end |
| Scenarios.ReopeningIsBackdated | contracts/credit/src/lifecycle.rs:446-493 | From a fresh contract: although the old rate has whole units pending, re-opening charges the whole time since the checkpoint at the new rate |
| Scenarios.WaiverIsLost | contracts/credit/src/accrual.rs:252-337 | From a fresh contract: a fully waived suspension of any length is charged in full once it ends inside its window |
| RateGuard.RateFollowsLimits | contracts/credit/src/risk.rs:305-325 | Every call but a re-opening keeps a rate and its stamp or changes it within the configured size and interval |
| RateGuard.RateMovesWithinLimits | docs/SECURITY.md:49 | Over any run with constant limits and the clock in order that does not re-open the line, its rate moves by at most one maximal change plus one per full interval |
| RateGuard.ReopeningIgnoresLimits | contracts/credit/src/lifecycle.rs:481-493 | Re-opening writes any rate whatever the limits and clears the stamp |
| Scenarios.ReopeningEscapesLimits | contracts/credit/src/risk.rs:46-49 | From a fresh contract: under any limits, suspending and re-opening at once takes a rate from one basis point to any other |
| Scenarios.FeesCanBeDrawn | contracts/credit/src/lib.rs:600-616 | From a fresh self-sourced contract: a run collects a fee of any size, one draw takes the whole balance, and the mature withdrawal of the fee then fails |
| Installments.OverdueCountIsExact | contracts/credit/src/lifecycle.rs:1451-1467 | The constant-time count is the number of paid installments due strictly before now |
| Installments.OverdueCountIsAdditive | contracts/credit/src/lifecycle.rs:1451-1467 | Paying in two steps at one moment charges what one payment would, with saturating due dates |
| Installments.ChargedIffPaidLate | contracts/credit/src/lifecycle.rs:1543-1573 | Over any run of installment counts each installment is counted overdue at most once, exactly when paid after its own due date, saturating due dates included |
| Installments.CastIsExactIff | contracts/credit/src/lifecycle.rs:1510 | The cast of the installment quotient loses nothing if and only if fewer than 2^64 installments are paid for; at exactly 2^64 it leaves none |
| Installments.FeesMatchPaidLate | contracts/credit/src/lifecycle.rs:1491-1576 | Passing any run of principal amounts through the entrypoint charges the fee times the number of installments paid late, and moves the due date past exactly the installments paid |
| LedgerInstallments.StepCharges | contracts/credit/src/lib.rs:794-808 | A repayment passes its principal through the schedule and publishes the late fee that comes out; no other call touches schedule or late fees unless it resets the schedule |
| LedgerInstallments.ResetsReplaceSchedule | contracts/credit/src/lifecycle.rs:1380-1410 | Opening and closing a line drop its schedule; setting one stores it |
| LedgerInstallments.SetScheduleSucceedsIff | contracts/credit/src/lifecycle.rs:1380-1410 | A schedule can be set for every stored line, with a positive amount and period |
| LedgerInstallments.LateFeesMatchPaidLate | contracts/credit/src/lifecycle.rs:1491-1576 | Over any run of calls without a reset of the schedule, the late fees a borrower is charged are the fee times the number of installments paid after their own due date |
| Ledger.AllocateRepayment | contracts/credit/src/lifecycle.rs:1416-1446 | A payment is clamped to the debt, interest is served first, and principal only once all interest is paid |
| LedgerInvariants.CounterIsExact | contracts/credit/src/storage.rs:547-569 | The saturating counter helpers are exact on every reachable book |
| LedgerInvariants.AuctionsFollowStatus | contracts/credit/src/lifecycle.rs:927-933 | The explicit increment or decrement of each call that rewrites a stored line is the change of that line's defaulted flag |
| LedgerInvariants.ReopenedAuctions | contracts/credit/src/lifecycle.rs:457-464 | The decrement of a re-opening is the change of its line's defaulted flag |
| LedgerInvariants.WriteKeepsBook | contracts/credit/src/storage.rs:690-715 | Writing one line keeps the index, the total and both counters exact |
| LedgerInvariants.StepKeepsAccounting | contracts/credit/src/storage.rs:437-461 | Every successful call keeps them, accrual loops included |
| LedgerInvariants.AccountingHolds | contracts/credit/src/storage.rs:437-461 | In every reachable state `TotalUtilized` is the sum of the lines, the auction counter is the number of defaulted lines, the active counter the number of active ones, and the vault balances |
| LedgerSoundness.StepKeepsSound | contracts/credit/src/lifecycle.rs:967-981 | Every call but an uncovered reversal keeps `0 <= accrued_interest <= utilized_amount` on every line |
| LedgerSoundness.SoundnessHolds | contracts/credit/src/lifecycle.rs:967-981 | The bound holds in every state reached without an uncovered reversal |
| LedgerSoundness.ReversalKeepsSoundIffCovered | contracts/credit/src/lib.rs:2464-2540 | A reversal keeps the bound if and only if it takes no more than the principal owed |
| Scenarios.UncoveredReversalIsReachable | contracts/credit/src/lib.rs:2464-2540 | From a fresh contract: open, draw, forgive, reverse leaves minus the drawn amount on an otherwise unchanged line, for every amount and rate |
| LedgerReversals.StepAudits | contracts/credit/src/lib.rs:2464-2540 | A draw replaces the entry of its moment, a reversal adds to what is on record, within an hour and within the recorded draw; no other call touches either |
| LedgerReversals.ReversalsStayWithinDraw | contracts/credit/src/lib.rs:2489-2520 | Over every run, what is on record is the sum of the successful reversals and at most the largest single draw at that moment |
| LedgerReversals.BoundIsKeptIff | contracts/credit/src/lib.rs:2489-2520 | What is on record stays within the draw on record, but for a second draw at the same moment smaller than what was already reversed |
| LedgerReversals.RunKeepsBound | contracts/credit/src/lib.rs:2489-2520 | Over every run without such a draw it stays within |
| Scenarios.SecondDrawCannotBeReversed | contracts/credit/src/lib.rs:2489-2520 | From a fresh contract: after a full reversal nothing of a further draw at the same moment can be reversed |
| Scenarios.StalledAlone | contracts/credit/src/accrual.rs:252-340 | Such a line is stalled two basis-point seconds later, whatever the configuration |
| LedgerStall.NegativeDebtBlocksIff | contracts/credit/src/accrual.rs:252-340 | A negative debt cannot be priced if and only if one of the spans of the accrual holds two or more basis-point seconds |
| LedgerStall.OneSecondIsCharged | contracts/credit/src/accrual.rs:252-340 | At exactly one basis-point second outside a grace window the charge is the wrapped debt over a year, above 2^127 over a year |
| LedgerStall.BlockedForGood | contracts/credit/src/accrual.rs:252-337 | Waiting never unblocks a blocked line |
| LedgerStall.OneStalledLineStopsDraws | contracts/credit/src/lib.rs:571-596 | While a line is stalled no call that accrues it succeeds, and under an exposure cap no borrower can draw |
| LedgerReplay.StepTracks | contracts/credit/src/lib.rs:706-793 | In any state, a successful call publishes exactly the change it makes to each debt if and only if it does not repay a negative one, and to the interest in it if and only if it does not repay a line with more interest than debt |
| LedgerReplay.LogReplaysDebt | contracts/credit/src/lib.rs:780-819 | After any run that repays no negative debt of the borrower, uncovered reversals included, the debt is draws plus credited interest minus repayments, forgiveness, recoveries, reversals and write-offs on reopening |
| LedgerReplay.RepaymentIsSplit | contracts/credit/src/lib.rs:775-784 | A repayment lowers the interest by exactly the interest part and the principal by exactly the principal part of the payment |
| LedgerReplay.LogReplaysInterest | contracts/credit/src/lib.rs:775-819 | After any run that repays no line with more interest than debt, the stored interest is what was credited less what came first in repayments, forgiveness and recoveries, and write-offs |
| LedgerInterest.InterestBalances | contracts/credit/src/lifecycle.rs:1416-1446 | In any event log, interest is credited, served by repayments, dropped, or still owed |
| LedgerInterest.FeesStayBelowInterest | contracts/credit/src/lib.rs:738-762 | Over every run whose reversals are covered, a borrower's protocol fees are at most the interest served, and that at most the interest ever credited |
| LedgerReplay.CoveredRunsFit | contracts/credit/src/lifecycle.rs:967-981 | Every run whose reversals are covered is a run of both kinds |
| Scenarios.NegativeRepaymentIsUnrecorded | contracts/credit/src/lib.rs:774-819 | From a fresh contract: after an uncovered reversal a repayment takes no token, publishes a payment of zero and raises line and total by any amount, which the log no longer explains |
| LedgerFunds.RepayMovesFunds | contracts/credit/src/lib.rs:726-808 | What the borrower pays is what the liquidity source receives plus protocol fee and late fee, which reach custody together with their accumulators |
| LedgerFunds.StepMovesFunds | contracts/credit/src/lib.rs:600-616 | Only a draw takes tokens from the source, exactly its amount; only a repayment adds any; payouts leave custody together with their accumulator; no balance is overdrawn |
| LedgerFunds.FundsAreConserved | docs/ARCHITECTURE.md:503-513 | Over every run, whichever source each call uses, both balances and all payouts are the initial balances plus payments less draws, and neither balance is overdrawn |
| Custody.WorldStepMovesSurplus | docs/ARCHITECTURE.md:526-551 | One joint call leaves the custody surplus over fees and collateral as it is, but for self-sourced draws, which take their amount, and self-sourced repayments |
| Custody.WorldStepKeepsSound | contracts/credit/src/storage.rs:474-495 | Over ledger and collateral calls in any order both halves keep exact aggregates over the one index |
| Custody.ExternalSourceKeepsCustody | docs/ARCHITECTURE.md:532-538 | With an external source the custody equation holds after every joint run, and the surplus is exactly what custody started with |
| Custody.GenesisIsLaunched | contracts/credit/src/config.rs:58-75 | A fresh contract is such a start of a joint run |
| Custody.SelfSourcedDrawKeepsCustodyIff | contracts/credit/src/lib.rs:600-616 | A self-sourced draw keeps the custody equation if and only if its amount is at most the balance less both accumulators and the collateral |
| Custody.ModestDrawsKeepSurplus | docs/ARCHITECTURE.md:540-551 | Whatever the source and however it changes, overdrawing the surplus is the only way to lose it |
| Custody.SurplusPaysCollateral | contracts/credit/src/collateral.rs:229-296 | Without a deficit a collateral transfer admitted by the accounting never fails |
| Custody.SurplusPaysFees | docs/ARCHITECTURE.md:563 | Without a deficit neither a mature treasury withdrawal nor a bounty sweep is refused for lack of tokens |
| Custody.ReleaseCoversAccruedIff | contracts/credit/src/collateral.rs:229-290 | A release leaves the position covered for the debt accrued to that moment if and only if its guard had the margin for that debt and a unit for the carry |
| Reconciliation.LogBalances | docs/ARCHITECTURE.md:547-551 | In any event log, tokens received and debts add up to interest and late fees less forgiveness, settlements, reversals and write-offs |
| Reconciliation.TotalFromLog | docs/ARCHITECTURE.md:547-551 | Where the log accounts for every line, `TotalUtilized` is what was earned and not yet paid |
| Reconciliation.AuditReconciles | docs/ARCHITECTURE.md:547-551 | Over every joint run that repays no negative debt, from whatever sources, both balances and all debts less collateral and accumulators are what they were at first plus what the log says was earned less fees set aside, plus the liquidity tokens held as per-token collateral |
| Reconciliation.SelfSourcedAudit | docs/ARCHITECTURE.md:547-551 | With the default source the documented figure, from the contract's own balance alone, is that sum |
| Reconciliation.GenesisIsDeployed | contracts/credit/src/config.rs:58-75 | A fresh contract is such a start of a joint run, with an empty log |
| LedgerLoops.AccrueEachAt | contracts/credit/src/accrual.rs:377-408 | Either loop leaves each line as if it alone had been accrued once, wherever and however often it is listed |
| LedgerLoops.CappedDrawIsExact | contracts/credit/src/lib.rs:571-624 | After a draw under a cap the stored total is the sum of the lines and at most the cap, and no other line has interest left to accrue |
| LedgerLoops.BatchTotal | contracts/credit/src/accrual.rs:456-480 | The total grows by the credited interest of each distinct listed line |
| LedgerLoops.BatchEntrypoint | contracts/credit/src/accrual.rs:456-480 | The entrypoint takes at most fifty borrowers and is otherwise the loop |
| LedgerLoops.BatchSucceedsIff | contracts/credit/src/accrual.rs:456-480 | On exact books where every line satisfies `0 <= accrued_interest <= utilized_amount`, a batch succeeds if and only if each listed line accrues and their interest fits the total |
| LedgerLoops.BatchIsOrderFree | contracts/credit/src/accrual.rs:456-480 | On such books order and repetition change neither whether a batch succeeds nor any line or aggregate |
| LedgerSettlement.SettlesAtMostOnce | contracts/credit/src/lifecycle.rs:1156-1164 | In any run a (borrower, settlement id) pair settles at most once |
| LedgerSettlement.StepOnDefaulted | contracts/credit/src/lifecycle.rs:1183-1211 | One call without other relief keeps a line defaulted with positive debt, cut by no more than the close factor |
| LedgerSettlement.PartialSettlementsNeverClear | contracts/credit/src/lifecycle.rs:1156-1226 | After n partial settlements with close factors of at most c the debt is positive and at least `(1-c)^n` of what it was |
| LedgerLifecycle.StatusFollowsMachine | docs/state-machine.md:59-81 | Every status change any call can make is an edge of the state machine, with its condition; draws, repayments and accruals change no status |
| LedgerSuspension.StepStamps | contracts/credit/src/lifecycle.rs:266-336 | A suspension is stamped with its moment, keeps that stamp while it lasts, and a line that can be drawn on carries none |
| LedgerSuspension.SuspensionIsDated | contracts/credit/src/lifecycle.rs:266-336 | In every reachable state a suspended line carries the moment of its last suspension |
| LedgerSuspension.DefaultAwaitsGrace | contracts/credit/src/lifecycle.rs:909-925 | A default waits for the liquidation grace, counted from the first of suspension, due date, rate change and accrual that is recorded |
| LedgerSuspension.SuspensionDefersDefault | contracts/credit/src/lifecycle.rs:909-925 | Over every run a suspended borrower cannot be defaulted before the grace has passed since the suspension |
| LedgerAdmission.LineOpSucceedsIff | docs/state-machine.md:59-81 | On exact books with sound lines each entrypoint that rewrites a line succeeds if and only if the line accrues, its own conditions hold, and the total has room |
| LedgerAdmission.LineOpLeaves | contracts/credit/src/lifecycle.rs:266-1345 | What each of them leaves of its line: the new status, the new terms or the lower debt, and nothing else; no other line changes |
| LedgerAdmission.StatusIsPublished | contracts/credit/src/lifecycle.rs:266-1345 | Status events carry the status the call leaves, and every call that sets one publishes it |
| LedgerAdmission.OpenSucceedsIff | contracts/credit/src/lifecycle.rs:422-456 | A line can be opened if and only if its terms are within bounds and there is none active, or none yet and room in the index |
| LedgerAdmission.OpenLeaves | contracts/credit/src/lifecycle.rs:446-494 | An opened line is active with the given terms and no stamp or schedule; its debt is what was stored, or none if it is new or was closed |
| LedgerAdmission.UnderCapSucceedsIff | contracts/credit/src/lib.rs:571-592 | The cap check passes if and only if every other line accrues and their interest, the drawer's and the draw leave the total within the cap |
| LedgerAdmission.DrawSucceedsIff | contracts/credit/src/lib.rs:440-655 | A draw succeeds if and only if the line accrues and admits it, the source holds the tokens, and the cap leaves room |
| LedgerAdmission.RepaySucceedsIff | contracts/credit/src/lib.rs:669-808 | A repayment succeeds if and only if the line accrues and is not closed, the token is configured, and neither fees nor total overflow |
| LedgerLifecycle.ReopeningClearsIff | contracts/credit/src/lifecycle.rs:446-479 | Re-opening clears the debt if and only if the line was closed or owed nothing |
| LedgerLifecycle.DrawIsWithinLimits | contracts/credit/src/lib.rs:497-549 | A draw passes its checks if and only if the line is active or restricted, the new debt is within its limit and backed at the required ratio, and nothing overflows |
| LedgerLifecycle.RecoveryIsInterestFirst | contracts/credit/src/lifecycle.rs:967-981 | A recovery or forgiveness takes exactly the clamped amount, interest before principal, and clears the line exactly when it covers the debt |
| LedgerLifecycle.ProtocolFeeIsFloor | contracts/credit/src/lib.rs:738-755 | The fee is the floor of its share of the interest and never exceeds the interest |
| Enumeration.PagesCoverAll | contracts/credit/src/lib.rs:1916-1945 | Walking the pages visits every line once in id order, whatever the page size |
| Enumeration.PageSize | contracts/credit/src/lib.rs:1916-1945 | A page holds at most 100 entries and at most the limit, and falls short of both only at the end |
| CreditContracts.CreditContract.TotalIsConserved | contracts/credit/src/storage.rs:437-461 | The recount loop decides exactly whether the stored total is conserved without an intermediate overflow |
| CreditContracts.CreditContract.PersistCreditLine | contracts/credit/src/storage.rs:690-715 | Stores one line with its index entry, total and active count as the ledger's write does, or fails with its error |
| CreditContracts.CreditContract.AccrueBatch | contracts/credit/src/accrual.rs:456-480 | The loop over stored lines is the ledger's batch |
| CreditContracts.CreditContract.AccrueAllExcept | contracts/credit/src/accrual.rs:377-408 | The loop over the index is the ledger's accrual of every other line |
| CreditContracts.CreditContract.OpenCreditLine | contracts/credit/src/lifecycle.rs:422-510 | One ledger step: a new or reopened line within the configured limit bounds, its schedule cleared |
| CreditContracts.CreditContract.DrawCredit | contracts/credit/src/lib.rs:440-655 | One ledger step, cap check and audit record included |
| CreditContracts.CreditContract.AccrueProtocolFee | contracts/credit/src/fees.rs:87-112 | Credits both accumulators with the conserving split |
| CreditContracts.CreditContract.AdvanceRepaymentSchedule | contracts/credit/src/lifecycle.rs:1491-1576 | Moves the stored due date and returns the late fee of the specification |
| CreditContracts.CreditContract.RepayCredit | contracts/credit/src/lib.rs:669-833 | One ledger step: fee, reserve, line, schedule and late fee |
| CreditContracts.CreditContract.SuspendInternal | contracts/credit/src/lifecycle.rs:266-336 | One ledger step for either origin of a suspension |
| CreditContracts.CreditContract.UnsuspendCreditLine | contracts/credit/src/lifecycle.rs:587-650 | One ledger step |
| CreditContracts.CreditContract.SelfUnsuspendCreditLine | contracts/credit/src/lifecycle.rs:671-720 | One ledger step |
| CreditContracts.CreditContract.CloseCreditLine | contracts/credit/src/lifecycle.rs:762-830 | One ledger step; only the admin may close with debt |
| CreditContracts.CreditContract.DefaultCreditLine | contracts/credit/src/lifecycle.rs:873-955 | One ledger step after the borrower's liquidation grace, the auction counter moving with the status |
| CreditContracts.CreditContract.ReinstateCreditLine | contracts/credit/src/lifecycle.rs:1281-1345 | One ledger step, the auction counter moving with the status |
| CreditContracts.CreditContract.UpdateRiskParameters | contracts/credit/src/risk.rs:244-364 | One ledger step within the limit bounds and the rate-change limits, with restriction and cure by the limit |
| CreditContracts.CreditContract.ForgiveDebt | contracts/credit/src/lifecycle.rs:1015-1085 | One ledger step, interest forgiven first |
| CreditContracts.CreditContract.SettleDefaultLiquidation | contracts/credit/src/lifecycle.rs:1127-1260 | One ledger step: recovery, marker, and closing once nothing is owed |
| CreditContracts.CreditContract.ReverseDraw | contracts/credit/src/lib.rs:2464-2540 | One ledger step, recorded against the original draw |
| CreditContracts.CreditContract.ProposeTreasuryWithdrawal | contracts/credit/src/lib.rs:1308-1339 | One vault step |
| CreditContracts.CreditContract.ExecuteTreasuryWithdrawal | contracts/credit/src/lib.rs:1342-1382 | One vault step paid out of the contract's own balance, which fails when that is short |
| CreditContracts.CreditContract.WithdrawBountyBalance | contracts/credit/src/lib.rs:1441-1468 | One vault step paid out of the contract's own balance, which fails when that is short |
| CreditContracts.CreditContract.EnumerateCreditLines | contracts/credit/src/lib.rs:1916-1945 | The loop returns one page of the index |
| CreditContracts.CreditContract.Invoke | contracts/credit/src/lib.rs:435-446 | Any call moves the object exactly as the ledger steps, leaves it untouched on error, and keeps its aggregates exact |
| Merkle.LexOrder | contracts/credit/src/attestation.rs:84-101 | The byte comparison is a total order |
| Merkle.LexMeaning | contracts/credit/src/attestation.rs:84-101 | It compares the first byte in which the digests differ |
| Merkle.PairIsUnordered | contracts/credit/src/attestation.rs:103-128 | The hashed pair does not depend on the order of its members |
| Merkle.PreimageLayout | contracts/credit/src/attestation.rs:103-119 | The hashed bytes are the prefix 1, the smaller digest and the larger |
| Merkle.PreimageIsInjective | contracts/credit/src/attestation.rs:103-128 | Equal preimages come from equal unordered pairs |
| Merkle.RecomputeRoot | contracts/credit/src/attestation.rs:130-136 | The loop folds the proof over the leaf |
| Merkle.LevelMeaning | contracts/credit/src/attestation.rs:472-491 | Neighbours are hashed together, and the last node of an odd level moves up as it is |
| Merkle.BuildTree | contracts/credit/src/attestation.rs:472-491 | The builder's loop computes all levels, odd nodes promoted |
| Merkle.TreeProof | contracts/credit/src/attestation.rs:497-512 | The builder's proof is the sibling path |
| Merkle.ProofsVerify | contracts/credit/src/attestation.rs:130-136 | For every non-empty leaf list, odd sizes included, the proof of every index recomputes the root |
| Merkle.OnlyNodesVerify | contracts/credit/src/attestation.rs:103-136 | Whatever recomputes a node of the tree is a node of the tree, unless the byte strings hashed for this proof and this tree collide or a leaf is one of the proof's pair digests |
| Merkle.RootProvesNodes | contracts/credit/src/attestation.rs:202-222 | Whatever recomputes the root of a tree is a node of the tree, barring a collision |
| Merkle.NodesHaveProofs | contracts/credit/src/attestation.rs:130-136 | Conversely every node has a proof |
| Merkle.RootDeterminesLeaf | contracts/credit/src/attestation.rs:130-136 | For a fixed proof the root determines the leaf, barring a collision between the two checks |
| Merkle.AttestationStore.Verify | contracts/credit/src/attestation.rs:202-224 | Compares with the stored root; without a batch it is an error |
| Merkle.AttestationStore.CommitTree | contracts/credit/src/attestation.rs:159-185 | After committing a tree's root each of its leaves verifies, and nothing but its nodes, barring a collision |
| Collateral.ValueIsFloor | contracts/credit/src/collateral.rs:115-127 | The credited value is the floor of the true one, exact at full weight |
| Collateral.WeightsMeaning | contracts/credit/src/collateral.rs:94-127 | A token without a weight, or with one of at least 100 %, counts in full, any other at the floor of its share; the legacy balance counts as the configured token |
| Collateral.RequiredIsCeiling | contracts/credit/src/collateral.rs:79-92 | The requirement is the least amount covering the ratio |
| Collateral.EffectiveIsFloor | contracts/credit/src/collateral.rs:133-165 | The sum of floors never exceeds the true collateral and equals it when all weights are full |
| Collateral.StepKeepsPool | contracts/credit/src/storage.rs:474-495 | Deposits, withdrawals and releases keep the global total exact and every balance non-negative |
| CollateralAdmission.EffectiveSucceedsIff | contracts/credit/src/collateral.rs:133-165 | A collateral has a value if and only if every product and the sum fit |
| CollateralAdmission.StepSucceedsIff | contracts/credit/src/collateral.rs:178-650 | A deposit, withdrawal or release succeeds if and only if amount, token, balance, guard and total allow it |
| Collateral.ReleaseSlack | contracts/credit/src/collateral.rs:252-266 | A release leaves the position covered if and only if the guard had the carry to spare; the true value stays above required minus one, and at required with full weights |
| Collateral.ReleaseCoversIff | contracts/credit/src/collateral.rs:252-266 | Judged by a debt grown since it was stored, a release leaves the position covered if and only if the guard had the margin; for the stored debt it is at most a unit short |
| Collateral.WithdrawalCanUndercut | contracts/credit/src/collateral.rs:250-251 | For every debt there is a covered position from which an admitted withdrawal leaves one unit too little |
| Collateral.SlackNeverAccumulates | contracts/credit/src/collateral.rs:229-290 | Over any run with fixed debt and configuration the slack stays below one unit, and is nil with full weights |
| Collateral.HealthFactorMeaning | contracts/credit/src/query.rs:186-250 | For every debt, ratio and collateral, saturation included, what a factor below, at and above 10 000 says about collateral and requirement; the query reverts only when the requirement overflows |
| Collateral.HealthFactorHidesSurplus | contracts/credit/src/query.rs:217-220 | A surplus of one unit reported as exactly 10 000 |
| Collateral.CollateralStore.DepositCollateral | contracts/credit/src/collateral.rs:178-226 | One step of the pool; nothing changes on error |
| Collateral.CollateralStore.WithdrawCollateral | contracts/credit/src/collateral.rs:229-296 | One step of the pool; nothing changes on error |
| Collateral.CollateralStore.PartialReleaseCollateral | contracts/credit/src/collateral.rs:401-490 | One step of the pool; nothing changes on error |
| Collateral.CollateralStore.WithdrawCollateralToken | contracts/credit/src/collateral.rs:596-650 | One step of the pool; nothing changes on error |

## Left out

- Pause and upgrade guards, and lists of frozen or blocked borrowers: single-branch guards that only turn a success into an error.
- CreditContracts.CreditContract.DrawCredit: the effective collateral is an argument, which `Custody.Priced` computes on values; freeze, blocklist, cooldown and the per-transaction, per-borrower and utilization caps are further guards that only refuse.
- CreditContracts.CreditContract.RepayCredit: the per-transaction cap and the borrower's own token balance and allowance can only refuse the call.
- CreditContracts.CreditContract.UpdateRiskParameters: the rate formula, the borrower's floor and ceiling, score commitments and the admin cooldown come before the modelled checks, so rate and score are inputs.
- CreditContracts.CreditContract.SettleDefaultLiquidation: the oracle price gate and the auction contract; the recovered amount is an input.
- Custody.WorldStep: a ledger and a pool on values, not one object; borrowers' own balances are not tracked, and the liquidity token is the same in all calls of a run.
- Closing lines in a batch: a loop over the single close, each call of which is modelled.
- Authorization, storage lifetimes, upgrades, version handshake, cross-contract calls, and the fields of events beyond borrower and amount.
- SHA-256: the hash is any function from bytes to 32-byte digests, and collision freedom is required only of the byte strings a proof and a tree actually hash.
- The collateral release that runs inside an atomic repayment: its caller chooses the amount and answers for the ratio.
- Splitting.SortOrder: the library's stable sort of the claims is written as an insertion sort.
- Ledger.EnsureId: the index holds at most 2^32 - 1 lines and a full index is an error, where the source's counter would stop growing.
- OracleRegistries.OracleRegistry.GetMedianValue: a report carries its oracle's identity, which the source's pairs do not, so that honesty can be stated.
- Collateral.SlackNeverAccumulates: the allowlist of collateral tokens has no duplicates.
- QuorumPrice.PriceNearHonest: tolerance is the contract's own test, so prices so far apart that the product overflows count as intolerant.
- Merkle.AttestationStore.CommitTree: committing an arbitrary root is modelled, but only tree roots have the guarantee.
