# StellarSpend contracts, modelled and proved in Dafny

The project models thirteen of the Soroban contract files as state machines over key/value storage and proves what
their guarantees amount to over whole runs. One module stands for one contract (`FeeMath` and `FeeWindows` hold the
arithmetic of the two fee contracts; `Base`, `Arithmetic`, `MapSums` and `Tokens` are shared).

How a contract is modelled:

- A `State` value holds the storage; `Step` gives, for each call, the storage it leaves and what it returns; `Run`
  folds a sequence of calls. The theorems are about `Run`, for every sequence of calls.
- A class has one field per storage key and one method per entry point, written with the source's branches, loops and
  order of checks. Each method's contract equates its whole effect and result with `Step`, so the theorems apply to it.
- A panic or an `Err` aborts the call and leaves the storage as it was (the host discards the writes), so the methods
  commit their fields after the last check. The build profile enables overflow checks, so plain `+` and `*` abort too.
  `u32`, `u64` and `i128` are subset types; every sum that could leave its type is checked.
- The ledger clock is an argument of each call. Runs whose guarantee needs it are required to be chronological.
- Authorization is a caller argument; token contracts are ideal balance maps (`Tokens`).

## What is proved

- **Laws of the calls.** For every main call one law says when it is accepted, what it answers and what it changes, from
  the stored values alone and without the functions that compute it (`CheckLaw`, `ChargeLaw`, `AssetLaw`,
  `ExecuteExactly`, `DistributionPays`, `ApprovesExactly` and their like). The theorems below are about runs of them.
- **Rate limiter.** In every run an interval of one window length holds at most `2 * max - 1` allowed calls of a wallet
  exactly when the penalty lasts at least a window (or a u64/u32 trap prevents a second window or any penalty). The
  bound is reached. For every other configuration there is a general bound, and a run with `2 * max` calls in one
  window length; the configuration of the file's own tests (60 s window, 30 s penalty) is of that kind. The remaining
  count, window end and penalty end that a verdict reports are exact, the throttled list mirrors the stored flags, and
  the violation counter never exceeds one.
- **Main fee ledger.** Every fee charged is in exactly one of total, treasury, escrow, recipient accounts, refunds and
  distribution dust, and is booked again by user and category. A distribution to n entries loses at most n - 1 units.
  Splitting an amount changes the fee by the stated margins per rounding mode. A refund can drive the total negative:
  exactly when it is larger than the total, and under fixed settings without distributions exactly when some deduction
  credits the treasury.
- **Asset fees.** A batch succeeds exactly when the item-by-item series does and leaves the same ledgers except for one
  credit; per-asset totals are the sums over users in every run of the five paths; accepted window lists charge the same
  in every order. The asset fallback can exceed the amount, and the check of deterministic calculation accepts amounts
  beyond 64 bits that overflow or are charged above the amount; exactly when is proved for both.
- **Conditional payments.** The contract's balance always covers the pending payments of each token, so settlement never
  lacks funds; each payment is what its creation asked, pays out exactly once, and executes only within its time limits
  and with the approvals it requires. The approval count is over list entries, which equals the number of
  distinct approvers exactly when no approver is listed twice; one approver can carry a payment that requires two.
- **Streaks.** The compact record is the longest run of consecutive days in the full deposit history, and the lifetime
  claims of a tier are at most the longest streak divided by the tier.
- **Allowances and recurring savings.** The closed-form catch-up is the stepping loop; payments fall into strictly
  increasing slots, never before a required approval and never after a cancellation; the owner index is exact; a
  schedule accepts exactly its due calls at a fixed time.
- **Transactions.** The approval counter is the number of distinct approvers, a pending transfer settles at most once and
  exactly when the threshold in force is reached; approvals of signers since removed count, and exactly when they decide
  is proved. A transfer to oneself creates its amount, so balances are conserved
  exactly when the parties differ.
- **Priority queues.** Taking a starved item leaves its id at the head of its queue. The queues list the live items if and
  only if that never happened, and after it at most one more dequeue ever succeeds.
- **Savings, dependencies, quorum.** The two-pass batch succeeds exactly under a stated condition, and over whole runs a
  goal has saved exactly what the successful batches listed for it; nothing on or before a
  dependency cycle completes; the nested counting loops compute a set cardinality.

## Model

| member | source | states |
|---|---|---|
| Throttling.WindowBoundExact | contracts/throttling.rs:219-353 | for a wallet under a fixed enabled configuration: every chronological run keeps every half-open interval of one window length to 2 * max - 1 allowed calls if and only if the penalty covers the window (or a u64/u32 trap stands in for it) |
| Throttling.WindowBound | contracts/throttling.rs:243-353 | the bound itself, per run and interval |
| Throttling.WindowBoundReached | contracts/throttling.rs:271-353 | a run with exactly 2 * max - 1 allowed calls in one window length exists for every such wallet with a window of at least two seconds that fits twice into u64 |
| Throttling.ShortPenaltyRun | contracts/throttling.rs:247-319 | with a shorter penalty, a run with 2 * max allowed calls inside one window length |
| Throttling.WindowBoundAnyPenalty | contracts/throttling.rs:247-353 | for every valid configuration, at most max * ((window - 1) / penalty + 2) - 1 allowed calls per window length |
| Throttling.RemainingIsExact | contracts/throttling.rs:321-353 | the remaining count of an allowed check: exactly that many more calls pass at that time and the next does not |
| Throttling.PenaltyEndIsExact | contracts/throttling.rs:247-319 | the throttle end of a refusal: refused as throttled before it, allowed from it on unless the new window leaves u64 |
| Throttling.MirrorRun | contracts/throttling.rs:498-521 | over all runs, resets included, the throttled list names exactly the wallets whose flag is set, once each |
| Throttling.WindowResetIsExact | contracts/throttling.rs:271-353 | the window end of an allowed check: a check before it is counted in the same window, one from then on opens a fresh window with max - 1 calls left |
| Throttling.ViolationsRun | contracts/throttling.rs:247-319 | over all runs a wallet has one violation on record while throttled and none otherwise, so the counter cannot overflow |
| Throttling.ConfigRun | contracts/throttling.rs:355-399 | over all runs the configuration stays valid, its limits are those of the admin's last valid update, and the exemptions are what the admin's calls, read alone, say |
| Throttling.CheckLaw | contracts/throttling.rs:219-353 | which verdict every check gives and what it stores, from the stored record: off, exempt, in a penalty, within the open or a fresh window, or over the maximum |
| Throttling.CheckAnswers | contracts/throttling.rs:243-353 | in every chronological run, resets and reconfigurations included, a check answers while a window and a penalty from now end within u64 |
| Throttling.ResetExactly | contracts/throttling.rs:431-450 | after a reset at t a later check passes with max - 1 left, in the window from t or a fresh one; totals start over and no other wallet is touched |
| Throttling.TotalsRun | contracts/throttling.rs:321-353 | over every run the record tells how many calls were counted since the last reset, and when the last one was |
| Throttling.ThrottleContract.CheckTransactionThrottle | contracts/throttling.rs:219-353 | the check of a wallet changes its record and the list and answers as specified, branch for branch, with the traps of its own sums |
| Throttling.ThrottleContract.ResetWalletThrottleState | contracts/throttling.rs:431-450 | admin-only reset to a fresh record, removed from the list |
| Throttling.ThrottleContract.UpdateThrottleConfig | contracts/throttling.rs:355-363 | admin-only, zero limits and durations refused |
| Throttling.ThrottleContract.AddExemptAddress | contracts/throttling.rs:365-376 | adds an exemption once |
| Throttling.ThrottleContract.RemoveExemptAddress | contracts/throttling.rs:378-399 | drops every occurrence of the exemption |
| Base.RebuildWithout | contracts/throttling.rs:508-521 | the list-rebuilding loop keeps all other entries in order and reports whether any was dropped |
| Base.WithoutInOrder | contracts/throttling.rs:508-521 | what that loop computes drops every occurrence and keeps the order of the rest |
| FeeMath.RateNotTruncated | contracts/fees.rs:747-758 | the u32 cast of an adjusted rate loses nothing exactly when the quotient fits u32, which it does for rates up to 100% |
| FeeMath.UrgentCutToZero | contracts/fees.rs:747-758 | a rate of 200% and a multiplier of 2^31 whose adjusted rate is cut to zero, below the low priority's |
| FeeMath.FeeMonotone | contracts/fees.rs:739-800 | fees grow with amount and priority, stay within the bounds, and a smaller charge succeeds whenever the larger does |
| FeeMath.RoundingError | contracts/fees.rs:690-706 | how far 10_000 fees may be from the exact product under each rounding mode, which determines the fee |
| FeeMath.FeeComputedExactly | contracts/fees.rs:675-723 | a fee is computed exactly for amounts from 1 to the largest whose product, plus a half when rounding, stays in i128 |
| FeeMath.SplittingBound | contracts/fees.rs:675-723 | paying in n parts: at most n - 1 less under Floor, at most n - 1 more under Ceiling, within n / 2 under Round |
| Fees.ConservedRun | contracts/fees.rs:816-1060 | over every run: total + treasury + escrow + recipients + refunds + dust = fees charged; users + refunds = categories = direct fees; no user balance negative |
| Fees.ChargeLaw | contracts/fees.rs:816-1030 | the three charging calls: accepted exactly for a positive amount whose sums fit, taking the amount's share at the call's rate, rounded as configured and cut to the bounds, and booking it to escrow, or to treasury and total, payer and category |
| Fees.ChargesRounded | contracts/fees.rs:675-800 | every accepted charge is such a rounded share at the percentage, or at the percentage times that priority's multiplier |
| Fees.DeductSplits | contracts/fees.rs:544-566 | the treasury gets the whole part of its percentage, the total the rest, payer and category the whole fee, nobody else anything |
| Fees.DistributionBound | contracts/fees.rs:1424-1493 | a positive total over n entries hands out between total - (n - 1) and total, each address the sum of its floored entries, and the answer is the growth of all accounts |
| Fees.DistributesExactly | contracts/fees.rs:1424-1493 | a distribution is accepted exactly when configured and either nothing is to be paid or every product and account fits |
| Fees.RefundOverdrawsTotal | contracts/fees.rs:1307-1330 | a two-call run that leaves the total at -40 while the user's balance is positive; the next five rows say exactly when that happens |
| Fees.RefundKeepsTotal | contracts/fees.rs:1289-1347 | an accepted refund keeps a non-negative total so exactly when it is at most the total read before the call |
| Fees.NegativeExactly | contracts/fees.rs:1289-1347 | over every run the total is negative at some point exactly when some accepted refund was larger than the total before it |
| Fees.BackedRun | contracts/fees.rs:544-566 | over every run total + treasury + recipients + dust is at least the sum of all user balances |
| Fees.NoTreasuryNeverNegative | contracts/fees.rs:544-566 | without treasury percentage and distributions every run keeps the total at least the sum of user balances, never negative on the way |
| Fees.NeverNegativeExactly | contracts/fees.rs:544-566 | under fixed settings and without distributions, no run ever has a negative total exactly when no deduction credits the treasury |
| Fees.RefundsExactly | contracts/fees.rs:1289-1347 | a refund is accepted exactly from the admin, of a positive amount within the user's balance, and lowers both balance and total by it |
| Fees.RefundsUpToBalance | contracts/fees.rs:1289-1347 | refunds of one user succeed, and combine to one refund of their sum, exactly as long as the sum is within the user's balance |
| Fees.HoldThenRelease | contracts/fees.rs:1010-1060 | a hold touches the payer's escrow alone; a release moves everything held for the user to the total, once |
| Fees.ReleaseExactly | contracts/fees.rs:1033-1060 | a release is accepted exactly from the admin, for a user with something held, when the total can take it |
| Fees.AcceptedExactly | contracts/fees.rs:1366-1397 | a distribution is accepted exactly when its shares sum to 100%; otherwise the answer is its first fault, or its sum |
| Fees.FeesContract.DeductFee | contracts/fees.rs:816-908 | the deduction as specified |
| Fees.FeesContract.DeductFeeWithPriority | contracts/fees.rs:926-1008 | the deduction at the priority's rate |
| Fees.FeesContract.DeductFeeToEscrow | contracts/fees.rs:1010-1030 | the fee is added to the payer's escrow only |
| Fees.FeesContract.ReleaseEscrowOf | contracts/fees.rs:1033-1060 | admin-only; a missing or zero escrow is refused, otherwise it moves to the total |
| Fees.FeesContract.RefundFee | contracts/fees.rs:1289-1347 | admin-only; checks the user's balance alone |
| Fees.FeesContract.SetFeeDistribution | contracts/fees.rs:1366-1397 | accepts exactly non-empty lists of shares up to 100% that sum to 100%; otherwise the first fault |
| Fees.FeesContract.DistributeFees | contracts/fees.rs:1424-1493 | pays the entries in order and zeroes the total, or changes nothing |
| Fees.FeesContract.PayRecipients | contracts/fees.rs:1455-1483 | the distribution loop computes the ordered credits, or reports an overflow |
| FeeWindows.ValidateFeeWindows | contracts/stellarspend-fee/fee.rs:1546-1597 | accepts exactly the lists of valid, pairwise disjoint windows |
| FeeWindows.FindRate | contracts/stellarspend-fee/fee.rs:611-629 | the scan returns the first covering window's rate, else the default |
| FeeWindows.CoverUnique | contracts/stellarspend-fee/fee.rs:1580-1594 | at most one window of an accepted list covers a time |
| FeeWindows.OrderIrrelevant | contracts/stellarspend-fee/fee.rs:621-629 | every permutation of an accepted list charges the same rate at every time |
| FeeWindows.WindowDecides | contracts/stellarspend-fee/fee.rs:611-637 | with accepted windows the rate is that of whichever window encloses the time, times the priority's multiplier, and the default exactly when none does |
| FeeWindows.RateFeeWithinAmount | contracts/stellarspend-fee/fee.rs:636 | a rate fee is at most the amount exactly while the surplus over 100% is worth less than one unit |
| FeeWindows.ValidationExactly | contracts/stellarspend-fee/fee.rs:1677-1727 | for every input: up to 64 bits the check accepts exactly positive amounts, rates up to 100% and positive multipliers whose product fits u64 and whose fee fits the amount; beyond, it looks at the low bits alone |
| FeeWindows.ValidationMissesOverflow | contracts/stellarspend-fee/fee.rs:1714-1726 | two accepted inputs that fail: 2^126 at 100% overflows, and 2^64 at 200% is charged twice the amount |
| FeeWindows.AcceptedExactly | contracts/stellarspend-fee/fee.rs:1714-1726 | for every accepted calculation: it is computed exactly when the adjusted rate a is 0 or the amount at most I128_MAX / a, its fee fits the amount exactly when amount * (a - 100%) is below one unit, and both hold up to 64 bits |
| FeeWindows.NeverOverflowsExactly | contracts/stellarspend-fee/fee.rs:1714-1726 | per rate and multiplier, no accepted calculation overflows exactly for adjusted rates up to 1 |
| FeeWindows.NeverAboveAmountExactly | contracts/stellarspend-fee/fee.rs:1714-1726 | per rate and multiplier, no accepted calculation charges above the amount exactly for adjusted rates up to 100% |
| AssetFees.AssetLaw | contracts/stellarspend-fee/fee.rs:1051-1107 | an asset deduction is accepted exactly for a positive amount whose sums fit, takes the share at the asset's rate times the priority's multiplier within its positive bounds (or at the rate in force), and books it |
| AssetFees.AssetCharges | contracts/stellarspend-fee/fee.rs:639-661 | every accepted deduction of a configured asset takes such a fee |
| AssetFees.BatchCharges | contracts/stellarspend-fee/fee.rs:1135-1267 | so does every item of an accepted batch, and the batch answers their sum |
| AssetFees.PlainLaw | contracts/stellarspend-fee/fee.rs:801-844 | the plain deduction: when accepted, the share at the rate in force cut to the bounds, and its booking |
| AssetFees.FallbackLaw | contracts/stellarspend-fee/fee.rs:1305-1386 | the plain fallback: the plain fee if within the amount, else the smaller of minimum fee and amount |
| AssetFees.AssetFallbackLaw | contracts/stellarspend-fee/fee.rs:1407-1516 | the asset fallback: the configured fee if within the amount, else the share at the rate in force |
| AssetFees.BatchRefinesSingles | contracts/stellarspend-fee/fee.rs:1135-1267 | in every reachable state a batch succeeds exactly when one asset deduction per item does, with the same results, sum and ledgers, except the credit to overall user balances |
| AssetFees.BatchCreditsPayers | contracts/stellarspend-fee/fee.rs:1222-1236 | the extra credit: each user's overall balance grows by the fees of that user's items |
| AssetFees.BalancedRun | contracts/stellarspend-fee/fee.rs:801-844 | over every run of the five paths: each asset total is the sum over its users, the grand total the sum over assets plus the asset-free fees |
| AssetFees.AssetFeeMonotone | contracts/stellarspend-fee/fee.rs:639-661 | fees of one asset grow with amount and priority and respect its positive bounds |
| AssetFees.PlainFeeMonotone | contracts/stellarspend-fee/fee.rs:801-844 | a plain deduction stays within the bounds and grows with amount and priority |
| AssetFees.SettingsRun | contracts/stellarspend-fee/fee.rs:902-1000 | over every run the settings are valid and those of the admin's last valid call |
| AssetFees.FallbackWithinAmount | contracts/stellarspend-fee/fee.rs:1305-1386 | the plain fallback charges between zero and the amount; it falls back exactly when the plain deduction would take more than the amount, and then charges less |
| AssetFees.AssetFallbackWithinAmount | contracts/stellarspend-fee/fee.rs:1407-1516 | the asset fallback reports success exactly when the asset is configured and its fee fits, and leaves a non-negative net exactly then or when amount * (default rate - 100%) is below one unit |
| AssetFees.AssetFallbackOvercharges | contracts/stellarspend-fee/fee.rs:1407-1516 | valid settings under which an urgent transfer of 100 is charged 200 |
| AssetFees.FeeContract.CalculateAssetFee | contracts/stellarspend-fee/fee.rs:1009-1044 | the quote refuses what the deduction refuses at first and is what the deduction then charges |
| AssetFees.FeeContract.DeductFeeWithPriority | contracts/stellarspend-fee/fee.rs:801-844 | the clamped default fee booked to total and user |
| AssetFees.FeeContract.DeductFeeWithFallback | contracts/stellarspend-fee/fee.rs:1305-1386 | the same with the minimum-fee fallback |
| AssetFees.FeeContract.DeductAssetFee | contracts/stellarspend-fee/fee.rs:1051-1107 | the asset fee booked to asset, total and user-asset |
| AssetFees.FeeContract.DeductAssetFeeWithFallback | contracts/stellarspend-fee/fee.rs:1407-1516 | the same with the default-rate fallback |
| AssetFees.FeeContract.ProcessItems | contracts/stellarspend-fee/fee.rs:1167-1241 | the batch loop computes the itemwise accumulation, or the first item's abort |
| AssetFees.FeeContract.DeductBatchFees | contracts/stellarspend-fee/fee.rs:1135-1267 | all items or none, with the total moved once at the end |
| ConditionalPayments.SolventRun | contracts/conditional_payment.rs:36-40 | over every run, per token, the contract's balance covers the pending amounts |
| ConditionalPayments.SettlementExact | contracts/conditional_payment.rs:542-621 | execution succeeds exactly when pending with all conditions true, the payer's cancellation exactly when pending; the transfer is never what fails |
| ConditionalPayments.ExecuteExactly | contracts/conditional_payment.rs:342-380 | in every run an execution succeeds exactly when the payment is pending and each condition is true of clock, watched balance or stamped list entries before the call; it then pays the recipient |
| ConditionalPayments.CancelExactly | contracts/conditional_payment.rs:594-621 | in every run a cancellation succeeds exactly for the payer of a pending payment and pays the payer back |
| ConditionalPayments.PaidOutOnce | contracts/conditional_payment.rs:542-621 | over every run a payment's outbound transfers are none while pending and then exactly one of its amount, to recipient or payer by status |
| ConditionalPayments.OutflowIsTransfer | contracts/conditional_payment.rs:464-469 | what each call does to token balances: creation moves the amount in, settlement moves it out to the named party, nobody else is touched |
| ConditionalPayments.ApprovalCountExact | contracts/conditional_payment.rs:647-666 | the count is at least the number of distinct approving signers, and equal exactly when none of them is listed twice |
| ConditionalPayments.EnoughDistinctExactly | contracts/conditional_payment.rs:366-378 | per signer list, whoever approves, the required number counted means as many distinct approvers exactly when it is one or no signer is listed twice |
| ConditionalPayments.OneApproverCountedTwice | contracts/conditional_payment.rs:366-378 | a run in which a payment requiring two approvals executes on the approval of one signer listed twice |
| ConditionalPayments.CreateExactly | contracts/conditional_payment.rs:306-336 | a creation succeeds exactly for a positive funded amount between two parties under one to eight well-formed conditions |
| ConditionalPayments.PaymentsAsAsked | contracts/conditional_payment.rs:421-475 | over every run each stored payment still is what a creation in the run asked for |
| ConditionalPayments.StampsRun | contracts/conditional_payment.rs:489-527 | over every run a stamp is one accepted approval, never repeated, of a signer the payment lists |
| ConditionalPayments.ApproveExactly | contracts/conditional_payment.rs:489-527 | in every run an approval is accepted exactly from a listed signer of a pending payment who has given none before |
| ConditionalPayments.ExecutedJustified | contracts/conditional_payment.rs:542-581 | over every run an executed payment was executed by a step before which all its conditions held, on balances too, at the recorded time and with the approvals still on record |
| ConditionalPayments.ConditionalPaymentsContract.CreatePayment | contracts/conditional_payment.rs:421-475 | the creation as specified, first fault first |
| ConditionalPayments.ConditionalPaymentsContract.ApprovePayment | contracts/conditional_payment.rs:489-527 | stamps once, for listed signers of pending payments |
| ConditionalPayments.ConditionalPaymentsContract.EvaluateMultiSig | contracts/conditional_payment.rs:366-378 | the early-exit loop decides whether the full count reaches the required number |
| ConditionalPayments.ConditionalPaymentsContract.EvaluateCondition | contracts/conditional_payment.rs:342-380 | each condition's truth of the clock, the watched balance or the stamped list entries |
| ConditionalPayments.ConditionalPaymentsContract.CheckConditions | contracts/conditional_payment.rs:635-643 | one such truth value per condition, in order |
| ConditionalPayments.ConditionalPaymentsContract.ApprovalCountAt | contracts/conditional_payment.rs:647-666 | the number of stamped entries of a multi-signature condition; other indexes and kinds are refused |
| ConditionalPayments.ConditionalPaymentsContract.ExecutePayment | contracts/conditional_payment.rs:542-581 | stops at the first false condition; otherwise settles to the recipient |
| ConditionalPayments.ConditionalPaymentsContract.CancelPayment | contracts/conditional_payment.rs:594-621 | payer-only; settles back to the payer |
| StreakRewards.StreakMatchesHistory | contracts/streak_reward.rs:348-398 | over every run the stored streak is the longest run of consecutive days ending at the last deposit in the full history, and the deposit counter is the number of days |
| StreakRewards.DepositExactly | contracts/streak_reward.rs:348-398 | in every run a deposit is refused as made already exactly when some recorded day is not earlier, and otherwise answers the run of days it ends |
| StreakRewards.ClaimsBound | contracts/streak_reward.rs:417-465 | over every run, resets included, the claims of a tier paid to a user are at most longest streak / tier |
| StreakRewards.ClaimsAreEpochs | contracts/streak_reward.rs:204-207 | the paid claims of a tier are as many as its stamped epochs, each between 1 and longest / tier |
| StreakRewards.ClaimExactly | contracts/streak_reward.rs:417-465 | in every run a claim succeeds exactly for a tier dividing a live streak at an unpaid epoch with the reward funded, and once |
| StreakRewards.RewardsExactly | contracts/streak_reward.rs:309-332 | rewards are accepted exactly from the admin and all positive |
| StreakRewards.RewardBound | contracts/streak_reward.rs:448-455 | under unchanged rewards the recorded lifetime reward is bounded by the longest streak |
| StreakRewards.PoolRun | contracts/streak_reward.rs:457-459 | funding not in the pool is exactly the claimed rewards of all users |
| StreakRewards.StreakRewardsContract.RecordDeposit | contracts/streak_reward.rs:348-398 | the deposit as specified, with the saturating day difference |
| StreakRewards.StreakRewardsContract.ClaimReward | contracts/streak_reward.rs:417-465 | the claim as specified |
| StreakRewards.StreakRewardsContract.IsClaimed | contracts/streak_reward.rs:476-484 | true exactly when a further claim would be refused as already claimed; a zero tier traps for a live streak |
| StreakRewards.StreakRewardsContract.SetRewards | contracts/streak_reward.rs:309-332 | admin-only, positive rewards |
| Allowances.AdvanceIsLoop | contracts/allowances/src/lib.rs:210-222 | the closed form equals adding the interval while the time is not in the future, and lands after now by at most one interval |
| Allowances.SlottedRun | contracts/allowances/src/lib.rs:147-238 | over every run: next stays on the grid of the start and the frequency's seconds, payments fall in strictly increasing slots, history length is the counter |
| Allowances.PaymentsBound | contracts/allowances/src/lib.rs:147-238 | at most one payment per slot up to the last payment, one in all for a one-time allowance, each of the fixed amount |
| Allowances.DistributionPays | contracts/allowances/src/lib.rs:185-222 | a success pays owner to recipient, records that payment, and moves a daily, weekly or monthly schedule to its first time beyond now, 86_400, 604_800 or 2_592_000 seconds apart; only a one-time allowance ends |
| Allowances.LimitRespected | contracts/allowances/src/lib.rs:172-183 | under a positive limit a success leaves amount * count within it |
| Allowances.CreatesExactly | contracts/allowances/src/lib.rs:76-143 | a creation succeeds exactly for a positive amount while ids last; the whole record, both lists and what stays |
| Allowances.OwnerCallsExactly | contracts/allowances/src/lib.rs:243-313 | when each owner's call succeeds, and the one field it changes |
| Allowances.ListsExactly | contracts/allowances/src/lib.rs:411-436 | a transfer takes the id from the old owner's list and appends it to the new owner's, a new beneficiary appends it to that list; no other list changes |
| Allowances.ApprovalCallsExactly | contracts/allowances/src/lib.rs:321-342 | when a policy and when an approval is accepted, and what it changes |
| Allowances.DistributesExactly | contracts/allowances/src/lib.rs:147-238 | a distribution succeeds exactly when active, approved, not paused, due, not expired, within the limit and funded, with the count and the next slot within u64 |
| Allowances.GrantedAsAsked | contracts/allowances/src/lib.rs:76-143 | over every run an allowance still pays the positive amount of the token and at the frequency of its creation |
| Allowances.HeldRun | contracts/allowances/src/lib.rs:98-124 | over every run nothing is paid under an allowance before its approval |
| Allowances.NewlyHeld | contracts/allowances/src/lib.rs:98-124 | a new allowance is held exactly above the threshold in force, and only the approver can activate it |
| Allowances.ClosedRun | contracts/allowances/src/lib.rs:277-289 | a cancelled or spent allowance stays closed in every later run and pays nothing more |
| Allowances.CancelCloses | contracts/allowances/src/lib.rs:277-289 | in every run a cancellation closes the allowance |
| Allowances.PauseThenResume | contracts/allowances/src/lib.rs:243-272 | a pause stops payments until a resume restores the storage; neither works twice |
| Allowances.TransferHandsOver | contracts/allowances/src/lib.rs:396-442 | after a transfer only the new owner can make them |
| Allowances.BeneficiaryTakesEffect | contracts/allowances/src/lib.rs:295-313 | the next payment after a change of beneficiary goes to the new one |
| Allowances.IndexedRun | contracts/allowances/src/lib.rs:411-436 | over every run each owner's list names exactly the owner's allowances once, and the current recipient's list names the allowance |
| Allowances.AllowancesContract.CreateAllowance | contracts/allowances/src/lib.rs:76-143 | the creation as specified |
| Allowances.AllowancesContract.DistributeTo | contracts/allowances/src/lib.rs:147-238 | the distribution as specified, first fault first |
| Allowances.AllowancesContract.NextAfter | contracts/allowances/src/lib.rs:214-221 | the schedule update computes the stepping loop's result |
| Allowances.AllowancesContract.PauseAllowance | contracts/allowances/src/lib.rs:243-256 | owner-only pause |
| Allowances.AllowancesContract.ResumeAllowance | contracts/allowances/src/lib.rs:259-272 | owner-only resume |
| Allowances.AllowancesContract.CancelAllowance | contracts/allowances/src/lib.rs:277-289 | owner-only cancellation |
| Allowances.AllowancesContract.UpdateBeneficiaryOf | contracts/allowances/src/lib.rs:295-313 | changes the recipient and appends to the new recipient's list |
| Allowances.AllowancesContract.SetApprovalConfig | contracts/allowances/src/lib.rs:321-342 | the incoming approver authorizes the first setting, the current one later settings |
| Allowances.AllowancesContract.TransferOwnership | contracts/allowances/src/lib.rs:401-442 | moves the id between owner lists, also to oneself |
| Dependencies.CompletedChain | contracts/dependencies.rs:74-115 | in every run everything a completed transaction depends on is completed, earlier than its dependents; the chain repeats nothing and is finite |
| Dependencies.CycleNeverCompletes | contracts/dependencies.rs:39-71 | a transaction on a dependency cycle, or leading into one, is completed in no run |
| Dependencies.OrderRun | contracts/dependencies.rs:74-115 | the completion order lists the completed ids once, dependencies first |
| Dependencies.CreatesExactly | contracts/dependencies.rs:39-71 | a creation succeeds exactly while ids last, whatever dependency it names, and adds one open transaction |
| Dependencies.RecordsAsAsked | contracts/dependencies.rs:39-71 | over every run the ids are 1, 2, ... in order of creation and each record keeps the dependency its creation named |
| Dependencies.ExecutesExactly | contracts/dependencies.rs:74-115 | an execution succeeds exactly when the transaction is completed or waits for nothing unfinished; it is idempotent and never undone |
| Dependencies.DependencyContract.CreateTransaction | contracts/dependencies.rs:39-71 | numbered creation without checking the dependency |
| Dependencies.DependencyContract.ExecuteTransaction | contracts/dependencies.rs:74-115 | completes once the dependency is completed; repeated execution changes nothing |
| Transactions.CountedRun | contracts/multisig.rs:217-236 | over every run the stored counter is the number of distinct approvers |
| Transactions.ApprovedWhileSigner | contracts/transactions.rs:144-146 | every recorded approval was given by an address that was a signer at that moment |
| Transactions.ApprovesExactly | contracts/transactions.rs:144-172 | in every run when an approval is accepted, and what it does below and at the threshold |
| Transactions.SettlesExactly | contracts/transactions.rs:144-172 | an approval settles exactly when it comes from a current signer who has not approved, the transfer is pending and possible, and the distinct approvers reach the threshold in force |
| Transactions.SettlesByFormerExactly | contracts/multisig.rs:217-236 | in every reachable state, when an approval settles with fewer current signers than the threshold: exactly when approvals of former signers make up the difference |
| Transactions.FormerNeedsNewSigners | contracts/multisig.rs:217-236 | over every run a transfer has approvals of former signers only if signers were set after it was queued |
| Transactions.FormerSignerSettles | contracts/multisig.rs:217-236 | a run in which one current signer settles at a threshold of two |
| Transactions.SettledOnce | contracts/transactions.rs:144-172 | over every run a pending transfer moves its funds at most once, exactly when marked executed |
| Transactions.LocksRun | contracts/transactions.rs:241-301 | a timelocked transfer is never both executed and cancelled, nor executed before its time |
| Transactions.TransferConservesExactly | contracts/transactions.rs:310-331 | the sum of balances is kept exactly when the parties differ; a transfer to oneself adds its amount; third parties are untouched |
| Transactions.BalanceRun | contracts/transactions.rs:80-331 | over every run no balance is negative and their sum is what admin corrections and self-transfers put in |
| Transactions.SignersRun | contracts/multisig.rs:122-142 | over every run the signer policy is the admin's last valid one, with distinct signers and a reachable threshold |
| Transactions.BlockedRun | contracts/transactions.rs:62-74 | over every run a destination is blocked for a caller exactly when that caller's last word on it was to block |
| Transactions.SubmitExactly | contracts/transactions.rs:80-142 | in every run a submission executes exactly when positive, below the limit, unblocked and covered, and is queued exactly at or above the limit with signers set |
| Transactions.QueuedAsSubmitted | contracts/transactions.rs:118-142 | over every run a pending transfer keeps the parties and amount of a submission at or above the limit then in force |
| Transactions.LockedAsScheduled | contracts/transactions.rs:190-235 | over every run a timelock keeps the parties, amount and time of the call that scheduled it |
| Transactions.SchedulesExactly | contracts/transactions.rs:190-235 | in every run a transfer is scheduled exactly when positive, for a later time and not blocked |
| Transactions.LockExecutesExactly | contracts/transactions.rs:241-273 | when a timelock executes, by whom, that the funds move, and that nothing can follow |
| Transactions.LockCancelsExactly | contracts/transactions.rs:278-301 | when it is cancelled, by whom, that nothing moves, and that nothing can follow |
| Transactions.ValidateSignerConfig | contracts/multisig.rs:238-259 | the nested loops report a bad threshold or a duplicate, exactly |
| Transactions.TransactionsContract.SubmitTransaction | contracts/transactions.rs:80-142 | executes below the high-value limit, queues otherwise |
| Transactions.TransactionsContract.ApproveTransaction | contracts/transactions.rs:144-172 | records the approval and settles at the threshold, or changes nothing |
| Transactions.TransactionsContract.ExecuteTransfer | contracts/transactions.rs:310-331 | both balances read before either is written |
| Transactions.TransactionsContract.ScheduleTimelocked | contracts/transactions.rs:190-235 | only for strictly future times |
| Transactions.TransactionsContract.ExecuteTimelocked | contracts/transactions.rs:241-273 | sender or admin, at or after the time, once |
| Transactions.TransactionsContract.CancelTimelocked | contracts/transactions.rs:278-301 | sender or admin, before execution |
| Transactions.TransactionsContract.SetSignersOf | contracts/multisig.rs:122-130 | admin-only, valid configurations only |
| Transactions.TransactionsContract.SetBalanceOf | contracts/transactions.rs:47-56 | admin-only, non-negative |
| Transactions.TransactionsContract.SetHighValueThreshold | contracts/multisig.rs:132-142 | admin-only, non-negative |
| Transactions.TransactionsContract.BlockDestination | contracts/transactions.rs:62-67 | blocks a destination for the caller |
| Transactions.TransactionsContract.UnblockDestination | contracts/transactions.rs:69-74 | lifts the caller's block |
| Transactions.TransactionsContract.IsSigner | contracts/multisig.rs:180-188 | the scan decides membership |
| PriorityQueues.EnqueuesExactly | contracts/priority.rs:97-128 | an item is accepted exactly with a priority up to 2, numbered, stored, and put at the back of its queue |
| PriorityQueues.SoundExactly | contracts/priority.rs:130-150 | in every chronological run the queues list exactly the live ids in order if and only if no starved item was ever taken |
| PriorityQueues.AtMostOneLateDequeue | contracts/priority.rs:134-136 | after the first starved item is taken at most one more dequeue ever succeeds |
| PriorityQueues.StarvedRunBreaks | contracts/priority.rs:134-136 | a two-call run after which the queue lists a taken id and every dequeue aborts |
| PriorityQueues.LateDequeueReached | contracts/priority.rs:134-136 | a run that reaches the bound of one late dequeue |
| PriorityQueues.MedStaleForever | contracts/priority.rs:222-233 | a stale medium head stays and makes every later dequeue abort |
| PriorityQueues.LowStaleForever | contracts/priority.rs:236-253 | a stale low head stays; only a starved medium item can still be taken, after which that head is stale too |
| PriorityQueues.StarvedExactly | contracts/priority.rs:215-256 | in a sound state the two heads decide exactly whether any medium or low item has waited more than 60 s, without trapping |
| PriorityQueues.StarvedDequeue | contracts/priority.rs:130-137 | from a sound state a starved dequeue hands out the oldest of the starved queue, medium before low, and leaves its id queued |
| PriorityQueues.DequeueInSoundRun | contracts/priority.rs:130-150 | until a starved item is taken every dequeue succeeds, takes a starved item exactly when there is one, the oldest of its queue and medium before low, and otherwise the oldest of the highest priority |
| PriorityQueues.FairDequeue | contracts/priority.rs:139-147 | it removes exactly that item and keeps the queues sound; it answers nothing only when no item is left |
| PriorityQueues.PriorityContract.EnqueueItem | contracts/priority.rs:97-128 | numbers, stores and queues the item by priority |
| PriorityQueues.PriorityContract.FindStarvedHead | contracts/priority.rs:215-256 | the head scan as specified, a head without an item traps |
| PriorityQueues.PriorityContract.PopFront | contracts/priority.rs:173-199 | the copying loop returns the head and the rest |
| PriorityQueues.PriorityContract.DequeueItem | contracts/priority.rs:130-150 | the dequeue as specified |
| Savings.BatchExactly | contracts/savings.rs:47-74 | a batch succeeds exactly when the lists match, amounts are positive, every goal exists, is the user's and has room for the sum of its entries; each goal then grows by that sum, otherwise nothing changes |
| Savings.ValidateExactly | contracts/savings.rs:52-67 | the first pass accepts exactly the affordable batches |
| Savings.ApplyExactly | contracts/savings.rs:69-71 | after an accepted first pass the second succeeds exactly when the user owns every goal |
| Savings.WithinTargetsRun | contracts/savings.rs:84-101 | in every run saved stays between zero and the target |
| Savings.CreatesExactly | contracts/savings.rs:28-44 | a goal is created exactly with a positive target under a new id, with nothing saved |
| Savings.SavedIsPaidIn | contracts/savings.rs:47-101 | over every run what a goal has saved is exactly what the successful batches listed for it |
| Savings.GoalsAsCreated | contracts/savings.rs:28-44 | over every run a goal keeps the owner and the positive target it was created with |
| Savings.GoalKept | contracts/savings.rs:84-101 | a goal changes only by saving more through its owner's batches |
| Savings.SavingsContract.Create | contracts/savings.rs:28-44 | a new goal with a positive target |
| Savings.SavingsContract.ValidatePass | contracts/savings.rs:52-67 | the validating loop |
| Savings.SavingsContract.BatchContributeTo | contracts/savings.rs:47-74 | both loops, with nothing kept on an error |
| RecurringSavings.ScheduleRun | contracts/recurring_savings.rs:360-422 | in every run next = created + (completed + 1) * interval, exhausted exactly at the cap, and amount * completed has been moved |
| RecurringSavings.ContributionPays | contracts/recurring_savings.rs:402-409 | each contribution is a transfer of the amount from owner to goal |
| RecurringSavings.DueExactly | contracts/recurring_savings.rs:371-374 | a call is due exactly while elapsed / interval exceeds the completed count |
| RecurringSavings.CatchUp | contracts/recurring_savings.rs:360-422 | in every run, n calls at one time are all accepted exactly when n is within the due calls, the cap, the owner's balance and the counters; and why the next is refused |
| RecurringSavings.CatchUpCount | contracts/recurring_savings.rs:360-422 | with money and counters to spare the number accepted is the smaller of the due calls and the calls left under the cap |
| RecurringSavings.CreatesExactly | contracts/recurring_savings.rs:296-343 | a schedule is created exactly for a positive amount, at least an hour apart, to a goal other than the owner |
| RecurringSavings.ScheduledAsAsked | contracts/recurring_savings.rs:296-343 | over every run a schedule keeps the terms of a creation in the run |
| RecurringSavings.EndedForGood | contracts/recurring_savings.rs:360-374 | a cancelled or exhausted schedule never changes again and pays nothing more |
| RecurringSavings.CancelExactly | contracts/recurring_savings.rs:429-448 | a cancellation succeeds exactly for the owner of an active schedule, which then is short of its cap |
| RecurringSavings.RecurringSavingsContract.CreateSchedule | contracts/recurring_savings.rs:296-343 | the creation as specified |
| RecurringSavings.RecurringSavingsContract.ExecuteContribution | contracts/recurring_savings.rs:360-422 | the execution as specified |
| RecurringSavings.RecurringSavingsContract.CancelSchedule | contracts/recurring_savings.rs:429-448 | owner-only, active schedules only |
| Quorum.ValidateMultisigConfig | contracts/stellarspend-fee/auth.rs:26-49 | accepts exactly duplicate-free signers with 2 <= required <= count; otherwise the first fault |
| Quorum.SignerIndex | contracts/stellarspend-fee/auth.rs:51-61 | the first position of the address, or none |
| Quorum.CountDistinctValidApprovals | contracts/stellarspend-fee/auth.rs:64-91 | the cardinality of approvals intersected with signers |
| Quorum.RequireMultisigApprovals | contracts/stellarspend-fee/auth.rs:94-105 | granted exactly for a valid policy with enough distinct valid approvals |
| Quorum.OnlySignersDecide | contracts/stellarspend-fee/auth.rs:64-105 | more approvals never revoke a grant, and order, repetition and approvals of strangers decide nothing |
| Tokens.MovedExactly | contracts/conditional_payment.rs:570-574 | the ideal token transfer: one account to the other, sum kept, third parties untouched |

Side facts, each about one call: `Throttling.AdminOnly`, `Throttling.BypassExactly`, `Fees.AdminOnly`,
`Fees.ConfiguresExactly`, `AssetFees.ConfiguresExactly`, `FeeWindows.NothingForNothing`, `ConditionalPayments.RecordStep`,
`ConditionalPayments.OppositesExclude`, `Allowances.OnlyOwner`, `Allowances.PolicyTakesEffect`,
`Allowances.ApproverHandsOver`, `Transactions.AdminSetsBalances`, `Transactions.PolicyCallsExactly`. Where a law does not
already say how a refused call is answered, these do: `AssetFees.BatchRefusal`, `ConditionalPayments.CreateRefusals`,
`Allowances.DistributeRefusals`, `Savings.BatchRefusal`, `RecurringSavings.ExecuteRefusals`.

## Left out

- Throttling.ThrottleContract.CheckTransactionThrottle: the global statistics are not stored. Before any wallet is read, the source adds the stored cleanup time and the cleanup interval in checked u64 (contracts/throttling.rs:549), and each counted check adds one to a u64 statistic; where such a sum leaves u64 the call traps, which the model does not show. The upper bounds stand, since a trap only refuses more; the exact answers and the runs that reach a bound hold where no such sum leaves u64.
- Fees.FeesContract.DeductFee: leaves out the credit call to the foreign treasury contract, whose code is not there, and the delegate who may authorize for the payer.
- Fees.FeesContract.DeductFeeWithPriority: leaves out the same two.
- ConditionalPayments.CreateExactly: the payer's token approval of the contract is not modelled; a payer without one is refused by the token.
- ConditionalPayments.ConditionalPaymentsContract.CreatePayment: the same token approval.
- Allowances.DistributesExactly: the owner's token approval of the contract is not modelled.
- Allowances.AllowancesContract.DistributeTo: the same token approval.
- RecurringSavings.RecurringSavingsContract.ExecuteContribution: the same token approval.
- RecurringSavings.CatchUp: counts the owner's balance, not a token approval.
- Fees.FeesContract.ConfigureFees: one call stands for the setters of percentage, treasury, rounding mode, category, bounds and multipliers, with the same validity checks and one common error.
- AssetFees.FeeContract.ConfigureFees: one call stands for the setters of multipliers, bounds, rate and asset configuration; the windows, which no entry point sets, are part of its argument.
- Allowances.Step: approve, spending limit and expiration are interleaved in the source by a bad merge; their steps follow their doc comments and surviving statements and have no method.
- AssetFees.AssetFeeMonotone: asks that an adjusted default rate fit u32, which rates up to 100% always do; a cut rate breaks it (FeeMath.UrgentCutToZero).
- AssetFees.PlainFeeMonotone: asks the same.
- Initialization guards: each constructor stands for a successful initialize, so NotInitialized and AlreadyInitialized do not occur.
- Events, symbols, payload and asset tags, storage lifetime extension (which would trap on a missing key) and snapshots.
- The executed and canceled flags of a timelock are read off its optional timestamps, which the source sets with them.
- The two-copy storage of the priority multipliers in the asset fee contract, which its one setter keeps equal.
- Governance, delegation, overdraft, history, preference, metadata and the other tables: the same shapes with fewer branches.
