# Verification of the sub-account service

A model in Dafny of the service that keeps an off-chain sparse-Merkle tree, its task, record, order and payment
tables and its block parser in step with a blockchain, and proofs about it. `dafny verify dfyconfig.toml` checks
everything.

| file | what it models |
|---|---|
| `smt_pipeline.dfy` | one parent account: the tree, the chain, the lagging t_smt_info, the two tables, and the update, rollback, confirm, rejection and parser loops as a state machine of 23 events |
| `pipeline_invariants.dfy`, `pipeline_safety.dfy` | the invariant over every interleaving, with as its main result that the tree differs from the chain only where something still to come accounts for it |
| `pipeline_lifecycle.dfy` | one task's statuses, one task under way at a time, a bounded number of tries |
| `stale_rollback.dfy`, `same_block.dfy`, `ignored_row.dfy`, `reachable.dfy` | inputs that lose a leaf: where the code falls short of the main result |
| `task_store.dfy`, `task_effects.dfy`, `task_dao.dfy`, `reparse.dfy`, `reparse_later.dfy`, `late_mark.dfy` | the guarded transactions on tasks and records, the closings, and parsing a block again |
| `smt_task.dfy`, `check_tx.dfy` | the bodies of the loops, as compositions of the pipeline's steps |
| `block_parser.dfy` | the reorganisation-tolerant cursor and its window of stored blocks |
| `payments.dfy`, `payment_effects.dfy`, `coupon_codes.dfy` | orders, pay hashes, disputes and refunds; drawing coupon codes |
| `fees.dfy`, `fee_bounds.dfy`, `decimals.dfy`, `payouts.dfy`, `payout_terms.dfy`, `payout_runs.dfy`, `lost_stamps.dfy` | the owner's share of an order, when the rate and when the minimum fee applies, its display, one payout run, and runs and replaced orders interleaved |
| `cell_capacity.dfy`, `price_totals.dfy`, `uint64.dfy` | prices in shannons and the sub-account cell's capacity, in 64-bit arithmetic |
| `distribution.dfy` | cutting waiting records into tasks |
| `sub_account.dfy` | a sub-account's life by replaying its records, and the parser's inverse |
| `redis_lock.dfy`, `load_balancing.dfy` | the per-account lock, and the consistent-hash lookup |

Code that changes state is a class or a loop proved against functions on values; the properties are lemmas about
those functions. Tables are maps with their unique keys, `WHERE` clauses are guards of steps, Redis is a key with a
deadline, and the node, the clock, the other service's tables and the payment service are parameters or events.

Where the code does not meet what it is for, the model keeps the code and states exactly when it does:

- `task/rollback.go` reads t_smt_info before it takes the lock. A confirmation in between is overwritten with the
  leaf read earlier (`StaleRollback.StaleRollbackLosesLeaf`); `PipelineSafety.RollbackWriteAccountedIff` says when
  the write is harmless.
- `task/other_tx.go:75-79` compares block numbers only. With two transactions of a parent in one block, a task is
  confirmed with the leaf of the first (`SameBlock.SecondLeafIsLost`). A failed query for the cell on the chain is
  only logged (lines 105 to 108), and the leaf is then written even over an equal root
  (`SameBlock.FailedQueryLosesLeaf`). `PipelineSafety.ConfirmWriteAccountedIff` and `ConfirmWriteFreshIff` say when
  neither happens.
- `dao/t_task_info.go:157-181` inserts a commit's records with IGNORE. A record of the same block whose nonce is not
  the chain's can be in the way (`IgnoredRow.IgnoredRowLosesLeaf`); `PipelineSafety.ParseAccountedIff` says when it
  is not missed. The invariant behind the main result is kept by a run exactly when all of its steps are safe in
  these three ways (`PipelineSafety.RunKeepsInvIff`). Statuses, tries, closings and everything else about the tables
  hold in every run.
- `txtool/parent_account_payment.go` reads the orders at line 33, before the transaction at line 195, and stamps them
  by id alone at line 219; two overlapping exports pay and stamp the same orders
  (`LostStamps.OverlappingRunsPayTwice`). A replaced order is saved with the stamp it had when it was read
  (`LostStamps.SaveErasesStamp`). `PayoutRuns.PayKeepsAccountedIff` and `SaveKeepsAccountedIff` are the exact
  conditions.
- `task/do_task.go:108` marks a task as sent after sending it. If its commit was parsed by then, parsing that block
  again changes the records (`LateMark.LateMarkUndoesIngestion`); `ReparseLater.StepKeepsIngestedIff` is the exact
  condition.
- `dao/t_order_info.go:328-349` marks refunds even if its status update found the order already decided, so the
  refund protocol needs a single order check (`Payments.CheckKeepsRefundsJustifiedIff`,
  `Payments.TwoChecksCanDisagree`), and a hash confirmed after the decision is never refunded
  (`Payments.LateConfirmIsNeverRefunded`).
- `http_server/handle/coupon_order_create.go:136-144` writes a whole order row back. That can undo a payment or close
  an order about to fail (`Payments.SaveUndoesPayment`, `Payments.SaveUndoesCheck`); `Payments.SaveKeepsInvIff` is the
  exact condition.
- `txtool/parent_account_payment.go:102-107` multiplies by the years a price that already includes them, and the fee
  can be negative (`Fees.MinimumFeeSign`, `Fees.FeeCanBeNegative`).
- `block_parser/block_parser.go:121` wraps below block 20 and deletes every row (`BlockParsing.TrimmedWindow`).
- `http_server/handle/service_provider_withdraw2.go:268` subtracts from the profit without a check
  (`CellCapacity.ProviderKeepsRestIff`, `CellCapacity.ProviderCanWrapProfit`).

## Model

| member | source | states |
|---|---|---|
| BlockParsing.BlockParser.constructor | block_parser/block_parser.go:24-50 | a parser starts at the configured block with an empty table |
| BlockParsing.BlockParser.FindBlockInfo | dao/t_block_parser_info.go:8-12 | the row with the highest block number |
| BlockParsing.BlockParser.InitCurrentBlockNumber | block_parser/block_parser.go:88-97 | parsing resumes from the highest stored block, else from the configured one, else from the tip |
| BlockParsing.BlockParser.CheckFork | block_parser/block_parser.go:129-141 | a fork is reported when the stored block below the cursor exists and is not the new block's parent |
| BlockParsing.BlockParser.CreateBlockInfo | dao/t_block_parser_info.go:20-29 | the block's row is inserted, or its hashes overwritten |
| BlockParsing.BlockParser.DeleteBlockInfo | dao/t_block_parser_info.go:31-34 | the rows below the bound are deleted and no others |
| BlockParsing.BlockParser.ParserSubMode | block_parser/block_parser.go:99-127 | one call refines the step of the protocol; four of its errors leave cursor and rows alone, and a failed trimming leaves the row written and the cursor moved on |
| BlockParsing.BlockParser.CatchUp | block_parser/block_parser.go:54-84 | once the chain settles the loop ends at the target with every row below it canonical, after exactly twice the mismatched rows plus the distance calls |
| BlockParsing.RunKeepsInv | block_parser/block_parser.go:99-127 | whatever chains the node serves, the stored window has no gap, holds the cursor or ends just below it, and its rows below the cursor are linked by their hashes |
| BlockParsing.TrimmedWindow | block_parser/block_parser.go:121-123 | from cursor 20 on the last twenty rows are kept; below 20 the unsigned bound wraps and every row is deleted |
| BlockParsing.RestartKeepsInvIff | block_parser/block_parser.go:88-97 | a restart above the highest row keeps the invariant exactly when no link of the window is broken |
| BlockParsing.CanonicalDownwards | block_parser/block_parser.go:108-112 | rows that disagree with the chain form a suffix of the window |
| BlockParsing.PassingCheckCertifiesWindow | block_parser/block_parser.go:129-141 | the parent-hash check of one block passes exactly when every retained row below the cursor is canonical |
| BlockParsing.StepBackRemovesMismatch | block_parser/block_parser.go:110-112 | each step back removes exactly one mismatched row, the topmost |
| BlockParsing.StepForwardStaysCanonical | block_parser/block_parser.go:113-123 | a step forward happens only with no mismatch left, and makes none |
| BlockParsing.CatchUpProgress | block_parser/block_parser.go:61-73 | (mismatched rows, distance to the target) decreases with every call |
| RedisLock.RedisCache.LockWithRedis | cache/lock.go:20-31 | the key is set with its expiry only if it is not alive, and the caller is told which; other accounts' keys are untouched |
| RedisLock.RedisCache.UnLockWithRedis | cache/lock.go:33-40 | the key is deleted, whoever holds it |
| RedisLock.RedisCache.RenewTick | cache/lock.go:68-88 | a tick extends a live key by the full lock time and cannot revive a dead one |
| RedisLock.MutualExclusion | cache/lock.go:11-40 | in every interleaving of acquire, renew, release, crash, expiry and late renewals, at most one timely client is in the section |
| RedisLock.RunKeepsInv | cache/lock.go:20-90 | a holder's key outlives its last touch by the lock time, along every run |
| RedisLock.ExclusionNeedsLiveKey | cache/lock.go:20-31 | a holder is safe from every other client exactly while its key is alive |
| RedisLock.CrashedHolderExpires | cache/lock.go:68-90 | after its holder crashes, attempts fail for less than the lock time, unless a leftover ticker renews the key |
| LoadBalance.LoadBalancing.constructor | lb/lb.go:15-31 | the servers are the configured spots, a hundred per unit of weight, sorted by spot value |
| LoadBalance.SpotsAre | lb/lb.go:17-27 | a server has a hundred spots per unit of weight, and different ones hash different texts |
| LoadBalance.DigitsValue | lb/lb.go:20-20 | a spot's number is written so that it can be read back |
| LoadBalance.LoadBalancing.Swap | lb/lb.go:55-57 | two servers change places and the rest stay |
| LoadBalance.LoadBalancing.Sort | lb/lb.go:58-58 | the servers are sorted and a permutation of what they were |
| LoadBalance.LoadBalancing.GetServer | lb/lb.go:33-38 | the first server at or above the key's checksum, else the last: the key's owner on the ring |
| LoadBalance.RingOfPermutation | lb/lb.go:29-31 | sorting does not change which server owns a key |
| LoadBalance.AddedSpots | lb/lb.go:33-38 | new spots take exactly the keys between them and their next spot below |
| LoadBalance.AddedServer | lb/lb.go:15-38 | configuring a server leaves each key or moves it to the new server, exactly when one of its spots captures the key; read backwards, removing it moves only its keys |
| SubAccountReplay.GetCurrentSubAccountNew | tables/t_smt_record_info.go:112-238 | each sub-action's result in terms of the account before it, and which of the four errors a record gets |
| SubAccountReplay.ReplayCounts | tables/t_smt_record_info.go:112-238 | after any actions the nonce counts the later actions and the expiry is the registration plus a year of seconds per paid year, in 64-bit arithmetic |
| SubAccountReplay.ReplayCountsExactly | tables/t_smt_record_info.go:124-152 | the counters are the plain sums exactly when those fit 64 bits |
| SubAccountReplay.OnApprovalWhileHeld | tables/t_smt_record_info.go:202-238 | an account is on approval exactly while it holds one, at every point of its life, if and only if each action's approval value fits the state it meets |
| SubAccountReplay.LockUntouched | tables/t_smt_record_info.go:159-221 | only owner edits, manager edits and fulfilled approvals change the lock |
| SubAccountReplay.RegisteredFor | tables/t_smt_record_info.go:114-144 | a new account belongs to whom it was registered for, with the default records and a year of seconds per paid year |
| SubAccountReplay.EditsAre | tables/t_smt_record_info.go:145-195 | whatever came before: an owner edit sets the lock and empties the records, a manager edit sets the lock, a records edit replaces the records, a renewal extends the expiry, and nothing else changes |
| SubAccountReplay.ApprovalEnds | tables/t_smt_record_info.go:202-236 | after an approval, delays, renewals and edits, fulfilling it makes the last value carried the owner, empties the records and holds nothing; revoking it keeps owner and records |
| SubAccountReplay.YearsRecovered | block_parser/das_action_update_sub_account.go:261-266 | the parser's divisions give back the years that were paid, exactly when they fit 64 bits of seconds |
| SubAccountReplay.ColumnsRecovered | block_parser/das_action_update_sub_account.go:236-277 | the other parsed columns are those of the record, and the nonce is one more than before |
| Distribution.GroupByParent | task/distribution.go:25-28 | every parent's records, in their order |
| Distribution.OfParentConcat | task/distribution.go:25-28 | a parent's records are those of the list that name it, in the list's order |
| Distribution.SelectReady | task/distribution.go:35-52 | a short list waits exactly while more than three tasks are undone or its first record is recent |
| Distribution.DistributeParent | task/distribution.go:89-141 | one parent's ids cut into its runs, with one task for each run |
| Distribution.DoUpdateDistribution | task/distribution.go:61-142 | tasks and id lists over all parents, in the order the map is walked |
| Distribution.RunsAreGood | task/distribution.go:89-141 | the runs cover the records once and in order, are not empty, fit the maximum and hold one signature per sub-action |
| Distribution.RunsAreMaximal | task/distribution.go:94-103 | a run ends before the list does only when it is full or the next record is signed differently from the last one signed before it for its sub-action, and no record inside a run is |
| Distribution.Aligned | task/distribution.go:56-146 | tasks and id lists have the same length across parents, every id belongs to its task's parent, and every task has its parent's custom-script hash |
| Distribution.GetSignInfo | txtool/update_sub_account.go:180-218 | the signature of each sub-action; the error for different signatures never occurs for records with one signature per sub-action |
| Distribution.SelectionHasOneSignature | txtool/update_sub_account.go:188-200 | whichever of a task's records are read back, they carry one signature per sub-action, so that error is unreachable |
| CellCapacity.PriceAdditive | config/config.go:165-173 | the price is additive in years modulo 2^64, and as plain numbers exactly when the sum fits |
| CellCapacity.PriceRounding | config/config.go:165-173 | the price is at most the exact quotient and less than `years` shannons below it, when nothing overflows |
| CellCapacity.AddRecord | txtool/update_sub_account.go:259-317 | what one priced record adds to the totals and to the price map |
| CellCapacity.GetAccountPrice | txtool/update_sub_account.go:247-321 | the totals are the sums over the records, modulo 2^64, of price and years, by who pays; an error is that of a record without a price |
| PriceTotals.PriceOfRecord | txtool/update_sub_account.go:261-311 | default and manual records pay the new price to create and the renewal price to renew; an automatic record pays its rule's price, or the renewal price if it renews and the distribution is the default one or no rule gives a price |
| PriceTotals.UnpricedIff | txtool/update_sub_account.go:270-309 | only a record created automatically without a rule for it has no price; the others can only overflow |
| PriceTotals.ManualTotal | txtool/update_sub_account.go:314-315 | the manager's total is the yearly shannons of the new price times the years created plus those of the renewal price times the years renewed, modulo 2^64 |
| PriceTotals.ManualYearsAre | txtool/update_sub_account.go:262-268 | with register years on creates only and renewal years on renewals only, these are the years the totals report |
| PriceTotals.AutoTotal | txtool/update_sub_account.go:316-317 | the automatic total is the sum of what the automatic records cost |
| PriceTotals.PriceMapIs | txtool/update_sub_account.go:318-318 | the price map holds for each account the cost of its last automatic record |
| CellCapacity.SubAccountCellOutput | txtool/update_sub_account.go:433-451 | capacity and recorded profit of the new cell both grow by the sum of the prices |
| CellCapacity.UpdateCell | txtool/update_sub_account.go:47-79 | pricing the records and building the cell add exactly the prices of all records to capacity and recorded profit, or fail for a record without a price |
| PriceTotals.UpdateAdds | txtool/update_sub_account.go:433-451 | an update adds to capacity and recorded profit what the manager's years and the automatic records cost, in 64-bit arithmetic |
| CellCapacity.ProfitWithdraw | http_server/handle/profit_withdraw.go:99-134 | which profits are paid out, what the cell keeps, and when a withdrawal is refused |
| CellCapacity.WithdrawalBalances | http_server/handle/profit_withdraw.go:179-229 | what the cell loses is what is paid out and the fee |
| CellCapacity.RunConserves | http_server/handle/profit_withdraw.go:132-134 | over any sequence of updates, each with its own records and prices, and withdrawals, capacity less recorded profits changes only by the fees, in 64-bit arithmetic |
| CellCapacity.RunConservesExactly | http_server/handle/profit_withdraw.go:132-134 | within stated bounds the same holds of the plain numbers, and the capacity always covers the profits |
| CellCapacity.ProviderAmount | http_server/handle/service_provider_withdraw2.go:184-197 | the amount is the sum of the statements' shares, and is refused up to the minimum cell |
| CellCapacity.ShareWithinIncome | http_server/handle/service_provider_withdraw2.go:184-192 | a provider is never paid more than the income of its statements |
| PriceTotals.ProvidersShare | http_server/handle/service_provider_withdraw2.go:184-192 | a provider's share of one income: the rate above the minimum fee of its years, unless minted here with a coupon, else what exceeds the minimum price, if anything |
| CellCapacity.ProviderKeepsRestIff | http_server/handle/service_provider_withdraw2.go:262-276 | the unguarded subtraction from the recorded profit keeps the rest exactly when the profit covers the amount, or both words wrap |
| CellCapacity.ProviderCanWrapProfit | http_server/handle/service_provider_withdraw2.go:262-276 | a cell and an amount for which the recorded profit wraps around and exceeds the capacity |
| Fees.SplitConserves | txtool/parent_account_payment.go:83-122 | without a coupon, owner share and fee add up to the net amount in every branch |
| Fees.SharesAgree | dao/t_order_info.go:262-303 | for dollar-priced orders with an amount the displayed share is less than two base units off the paid one, despite the different rounding |
| Fees.CouponSharesNear | dao/t_order_info.go:304-313 | when a coupon leaves a part of the price, the displayed share is at most two base units off the paid one |
| Fees.CouponSharesAgreeIff | dao/t_order_info.go:262-313 | when a coupon covers the price, payout and display agree exactly if the order has no amount, as those created so, or nothing but a premium was charged |
| Fees.MinimumFeeSign | txtool/parent_account_payment.go:102-107 | in the minimum-fee branch the fee is negative exactly when the price less the minimum, once per year and in base units, is more than the net amount |
| Fees.OneYearFeeSign | txtool/parent_account_payment.go:102-107 | an order for one year charged at least its price never has a negative fee |
| Fees.FeeCanBeNegative | txtool/parent_account_payment.go:102-107 | an order for three years whose fee comes out negative |
| FeeBounds.DollarsByRate | txtool/parent_account_payment.go:83-91 | a dollar-priced order whose price times the two ratios exceeds the minimum fee of its years, beyond the rounding, pays the ratios of its net amount as fee; the owner gets, and is shown, the rest |
| FeeBounds.DollarsByMinimum | txtool/parent_account_payment.go:92-109 | below that bound: nothing for the owner at the minimum fee, the rate below it, and above it the excess of the price once per year in base units, rounded up when paid and to the token's decimals when shown |
| FeeBounds.TokensByRate | txtool/parent_account_payment.go:110-114 | a token-priced order above the bound in base units is split by the rate, paid and shown |
| FeeBounds.TokensByMinimum | txtool/parent_account_payment.go:115-122 | below it the minimum fee of its years in base units is taken off, unless the net amount does not cover it: then the rate applies |
| FeeBounds.TokenSharesAgree | dao/t_order_info.go:284-303 | away from the two bounds, what is paid for a token-priced order is less than two base units off what is shown |
| FeeBounds.CouponByRate | txtool/parent_account_payment.go:123-135 | when a coupon leaves a part of the price, the split is the rate of a whole number of base units next to that part's exact worth |
| Payouts.SubAccountTxTool.FindOrderByPayment | dao/t_order_info.go:20-30 | the unpaid-out, paid, successful orders before the end of the period, of one parent or of all |
| Payouts.SubAccountTxTool.GroupOrders | txtool/parent_account_payment.go:58-142 | per parent and token, the sum of the positive shares, the ids summed and the last fee; an unknown token fails the run |
| Payouts.SubAccountTxTool.SelectPayable | txtool/parent_account_payment.go:144-189 | a group is paid exactly when it has an amount, reaches the minimum on the main net, and its owner has an address record |
| PayoutTerms.GroupsPaid | txtool/parent_account_payment.go:144-189 | a group is paid only with an amount, to its owner's address, and on the main net from the minimum dollar worth on; with these, beyond the rounding of the worth, it always is |
| PayoutTerms.PaymentRow | txtool/parent_account_payment.go:199-215 | each group walked has one payment row with its owner, token, amount, fee and address |
| PayoutTerms.LastFeeIs | txtool/parent_account_payment.go:83-135 | the fee of a payment is that of its group's last order that has one, not the sum of their fees |
| PayoutTerms.BalanceIsSum | dao/t_order_info.go:228-318 | the balance in one token is the sum of what is shown for exactly the owner's paid, successful mints and renewals in it, or those paid out; without one it has no entry |
| Payouts.SubAccountTxTool.PayRecords | txtool/parent_account_payment.go:195-229 | one payment per group, and its orders stamped with it |
| Payouts.SubAccountTxTool.StatisticsParentAccountPayment | txtool/parent_account_payment.go:28-235 | a whole run: it fails exactly on an unknown token, and changes nothing when it fails or only reports |
| Payouts.SubAccountTxTool.AmountOfOrder | dao/t_order_info.go:262-314 | the displayed share of one order |
| Payouts.SubAccountTxTool.GetOrderAmount | dao/t_order_info.go:228-318 | per token, the sum of the displayed shares of the owner's orders |
| PayoutRuns.PaymentsAddUp | txtool/parent_account_payment.go:138-229 | in every state reached by safe steps, each payment is the sum of the shares, computed from what its run read, of exactly the orders stamped with it |
| PayoutRuns.RunKeepsAccountedIff | txtool/parent_account_payment.go:33-229 | over every interleaving of reading runs, paying runs and replaced orders, payments stay accounted for throughout exactly when each step is safe |
| PayoutRuns.StepKeepsAccountedIff | txtool/parent_account_payment.go:33-229 | a step keeps payments accounted for exactly when it is safe; only paying and saving a replaced order can be unsafe |
| PayoutRuns.PayKeepsAccountedIff | txtool/parent_account_payment.go:195-229 | paying what was read earlier keeps payments accounted for exactly when none of the orders to be stamped has a stamp by then |
| PayoutRuns.SaveKeepsAccountedIff | dao/t_order_info.go:186-206 | writing back the row of a replaced order keeps payments accounted for exactly when the row has the stamp its order has now |
| PayoutRuns.LostStamp | txtool/parent_account_payment.go:219-225 | a payment that loses one of its orders and gains none is not accounted for any more |
| PayoutRuns.NeverPaidTwice | dao/t_order_info.go:20-30 | over safe steps a stamp, once set, never changes, and payments are never altered |
| PayoutRuns.StampedIff | txtool/parent_account_payment.go:33-225 | a run stamps exactly the orders that were eligible when it read them, had a share and were in a group to be paid, whatever stamp they have when it pays; all other rows stay as they are |
| LostStamps.OverlappingRunsPayTwice | txtool/parent_account_payment.go:33-225 | two requests read the same order and both pay it: two payments, and the order stamped with the second only |
| LostStamps.SaveErasesStamp | http_server/handle/coupon_order_create.go:129-144 | a replaced order read before it was paid out is saved after: the payment is left without an order |
| Payouts.PaymentNearShown | txtool/parent_account_payment.go:83-109 | a payment over dollar-priced orders is at most two base units per order off what the owner was shown |
| Payments.DbDao.UpdateOrderPayStatusOkWithSmtRecord | dao/t_order_info.go:41-92 | the confirming transaction of a mint or renewal, and the rows it affected |
| Payments.DbDao.UpdateOrderPayStatusOkWithCoupon | dao/t_order_info.go:94-149 | the confirming transaction of a coupon order, when its coupon rows can be inserted |
| Payments.DbDao.ConfirmPayHash | dao/t_order_info.go:110-132 | the hash is inserted unless there, set confirmed, and the order's other pending hashes rejected |
| Payments.DbDao.DoPaymentConfirm | unipay/confirm_status.go:144-267 | the transaction a confirmation runs, and when it stops before it |
| Payments.DbDao.UpdatePayHashStatusToFailByDispute | dao/t_payment_info.go:86-106 | a dispute fails a paid order and its confirmed hash |
| Payments.DbDao.UpdateOrderStatusForCheck | dao/t_order_info.go:328-372 | the order is decided if undecided; a failure puts its confirmed, untouched payments up for refund in either case |
| Payments.DbDao.UpdateRefundStatusToRefundIng | dao/t_payment_info.go:53-60 | the guarded step to refunding |
| Payments.DbDao.UpdateRefundStatusToRefunded | dao/t_payment_info.go:62-70 | the guarded step to refunded |
| Payments.DbDao.GetSmtRecordByOrderId | dao/t_smt_record_info.go:227-231 | the type of the order's record, if it has one |
| Payments.DbDao.CheckOrder | unipay/order_check.go:40-95 | one order checked: a mint with an account fails exactly without a record or with a closed one and else succeeds; a renewal fails with a closed record, succeeds with a chain one and else waits; payments are put up for refund exactly when it fails, and nothing else changes |
| Payments.DbDao.DoOrderCheck | unipay/order_check.go:34-98 | the check of a list is the sequence of its decisions: every listed order is decided so from the record and account it has, and only confirmed, untouched payments of failing ones are put up for refund |
| Payments.DbDao.GetPayHashStatusPendingList | dao/t_payment_info.go:72-77 | the orders of the pending hashes among those selected |
| Payments.DbDao.GetListByRefundStatus | dao/t_payment_info.go:46-51 | the confirmed hashes with a refund status among those selected |
| Payments.DbDao.HandleNotice | http_server/handle/unipay_notice.go:74-93 | what each kind of event does |
| Payments.DbDao.DoUniPayNotice | http_server/handle/unipay_notice.go:65-98 | the event loop is the sequence of its events' transactions |
| Payments.DbDao.DoConfirmStatus | unipay/confirm_status.go:45-129 | polling confirms what the service reports confirmed for pending orders, then what it reports refunded |
| Payments.DbDao.ConfirmPending | unipay/confirm_status.go:89-112 | the loop over the pending list |
| Payments.DbDao.ConfirmReported | unipay/confirm_status.go:104-111 | every confirmed payment reported for one order is confirmed |
| Payments.DbDao.ConfirmRefunded | unipay/confirm_status.go:115-126 | the loop over the hashes being refunded, by their last report |
| Payments.DbDao.IndexReports | unipay/confirm_status.go:81-86 | reports by order and by hash, the last one winning |
| Payments.DbDao.DoRefund | unipay/refund.go:35-67 | the listed hashes are marked refunding if the switch is on and the service took the request |
| PaymentEffects.ConfirmationPays | dao/t_order_info.go:41-149 | a confirmation pays its order and confirms its hash, rejects the order's other pending hashes, and changes no other row of the two tables |
| PaymentEffects.ConfirmationRecords | unipay/confirm_status.go:156-215 | the first confirmation creates a mint's record at nonce 0 or a renewal's at one past the account's nonce, if its key is free; no other confirmation creates one |
| PaymentEffects.PollingPaysIff | unipay/confirm_status.go:45-112 | an order is paid after polling exactly when it was, or it can be confirmed, one of its pending hashes was asked about and a confirmed payment of it was reported |
| PaymentEffects.PollingRefundsIff | unipay/confirm_status.go:114-126 | a payment is newly refunded by polling exactly when it was confirmed, being refunded and asked about, and the last report about it says so for its order |
| PaymentEffects.RefundLoopMarks | unipay/refund.go:35-67 | the refund loop marks exactly the confirmed payments in its window that wait for their refund |
| PaymentEffects.NoticeEffects | http_server/handle/unipay_notice.go:74-93 | a payment notice pays its order, a refund notice ends the payment's refund, a dispute notice fails a paid order and its confirmed hash, another changes nothing |
| Payments.StepAdvances | dao/t_payment_info.go:53-106 | in every step payment and failure are final, and a refund moves one stage at a time, only while its hash is confirmed |
| Payments.Safety | unipay/order_check.go:34-97 | in every interleaving with one order check and sound replacements, money on its way back belongs to a paid order that failed, and at most one record is ever created for an order, none while it is unpaid |
| Payments.RunKeepsInv | dao/t_order_info.go:41-206 | the invariant behind it, over all runs whose replacements are sound |
| Payments.RunAdvances | dao/t_order_info.go:328-349 | over a run whose replacements undo no payment and no failure, orders and refunds only move forward |
| Payments.NothingPendingAfterConfirm | dao/t_order_info.go:71-78 | right after a confirmation its hash is confirmed and no other hash of the order is pending |
| Payments.LateConfirmIsNeverRefunded | dao/t_order_info.go:337-346 | in every run a hash without a refund, of an order that is decided and not listed, is never put up for refund |
| Payments.CheckKeepsRefundsJustifiedIff | dao/t_order_info.go:328-349 | the check's write keeps refunds justified exactly when the order is still undecided or failed, or has nothing to refund |
| Payments.TwoChecksCanDisagree | dao/t_order_info.go:328-349 | two checks listing one order can let it succeed and refund it |
| Payments.SaveKeepsInvIff | http_server/handle/coupon_order_create.go:129-144 | writing back the row of a replaced order keeps the invariant exactly when no check has listed the order, none of its payments is past the start of a refund, and the row does not undo a payment that created a record |
| Payments.SaveKeepsOrdersIff | dao/t_order_info.go:186-206 | it lets orders only advance exactly when it undoes no payment and no failure |
| Payments.SaveUndoesCheck | http_server/handle/coupon_order_create.go:244-259 | a run in which a paid order passes the request's check and is replaced while listed: it ends closed with its payment put up for refund |
| Payments.SaveUndoesPayment | dao/t_order_info.go:186-206 | a run in which an order read before its payment is replaced after it: it ends unpaid with a record created for it |
| CouponCodes.CreateCoupon | unipay/confirm_status.go:269-287 | codes are drawn until there are as many as wanted |
| CouponCodes.GenerateCodes | unipay/confirm_status.go:225-238 | the codes are as many as wanted, different, and on no coupon yet; they are found exactly when enough free codes are drawn |
| TaskStore.CloseTaskSucceedsIff | dao/t_task_info.go:46-98 | closing a task keeps the records' unique key exactly when its own rows do not clash with each other, since colliding closed rows of other tasks are deleted first |
| TaskStore.CloseTaskKeepsTables | dao/t_task_info.go:46-98 | so with distributed records a closing always goes through and keeps the tables in order |
| TaskStore.CloseRecordsKeepsTables | dao/t_smt_record_info.go:105-134 | the nonce check's closing always goes through and keeps the tables in order |
| TaskStore.DistributeKeepsTables | dao/t_smt_record_info.go:26-48 | only waiting records are distributed, so a task's records differ in account or nonce |
| TaskStore.NewRecordKeepsTables | dao/t_smt_record_info.go:12-18 | a new record is waiting, without a task, and unique |
| TaskStore.ToChainKeepsTables | dao/t_task_info.go:183-205 | a task found on the chain has chain records of its block only |
| TaskStore.CreateChainKeepsTables | dao/t_task_info.go:157-181 | a foreign commit's rows and task fit the tables |
| TaskEffects.ClosedTaskIs | dao/t_task_info.go:46-98 | a closing closes all rows of its task, deletes exactly the closed rows of other tasks that share an account and nonce with the list, and leaves the rest |
| TaskEffects.ClosedRowsAre | dao/t_smt_record_info.go:105-134 | the nonce check's closing closes exactly the given rows, deletes exactly the closed rows of other tasks with their accounts and nonces, and leaves the rest |
| TaskEffects.DistributedIs | dao/t_smt_record_info.go:26-48 | a distributed task waits to be written, and exactly the given rows become its |
| TaskEffects.SentTaskIsFound | dao/t_task_info.go:133-155 | a task whose outpoints are recorded and which is marked as sent is found when its transaction commits, so the commit is taken in as the service's own |
| TaskEffects.OwnCommitIs | dao/t_task_info.go:183-205 | the service's own commit turns its task into a chain task to be confirmed and all its rows into chain rows of the block |
| TaskEffects.ForeignCommitIs | dao/t_task_info.go:157-181 | a foreign commit brings its task unless it is there and a chain row for each account unless one with the key is there; all other rows stay |
| TaskDao.DbDao.DeleteClosed | dao/t_task_info.go:55-61 | the loop deletes exactly the closed rows of other tasks that share an account and nonce with the list |
| TaskDao.DbDao.CloseTaskFrom | dao/t_task_info.go:46-98 | the closing transaction: its new state, or none of it if the unique key would break |
| TaskDao.DbDao.UpdateSmtRecordToRollbackComplete | dao/t_task_info.go:46-71 | closing after a rollback |
| TaskDao.DbDao.UpdateTaskCompleteWithDiffCustomScriptHash | dao/t_task_info.go:73-98 | closing for a changed custom script |
| TaskDao.DbDao.UpdateRecordsToClosed | dao/t_smt_record_info.go:105-134 | closing the given rows, and the task if asked |
| TaskDao.DbDao.UpdateTaskDistribution | dao/t_smt_record_info.go:26-48 | tasks created and records assigned in step, or an error and no change |
| TaskDao.DbDao.TaskIdsFree | dao/t_smt_record_info.go:34-36 | the created tasks' ids are new and different |
| TaskDao.DbDao.UpdateSmtRecordToNeedToWrite | dao/t_task_info.go:100-108 | back to waiting with a higher retry count, only from a rollback |
| TaskDao.DbDao.UpdateSmtStatus | dao/t_task_info.go:126-131 | the unguarded step to being written |
| TaskDao.DbDao.UpdateSmtRecordOutpoint | dao/t_task_info.go:133-139 | the transaction's outpoints |
| TaskDao.DbDao.UpdateTaskTxStatusToPending | dao/t_task_info.go:31-38 | the guarded step to waiting for the transaction |
| TaskDao.DbDao.UpdateSmtStatusToWriteComplete | dao/t_task_info.go:117-124 | the guarded step from (0,2) to (2,2) |
| TaskDao.DbDao.UpdateToChainTask | dao/t_task_info.go:183-205 | the service's task becomes a chain task, or nothing changes if the unique key would break |
| TaskDao.DbDao.CreateChainTask | dao/t_task_info.go:157-181 | task and rows inserted unless they exist |
| TaskDao.DbDao.GetTaskByRefOutpointAndOutpoint | dao/t_task_info.go:150-155 | a task that waits for the transaction, if there is one |
| TaskDao.DbDao.DasActionUpdateSubAccount | block_parser/das_action_update_sub_account.go:51-76 | one commit taken in: as the service's own task or as a foreign one |
| Reparse.ReparseKeepsRecordsIff | dao/t_task_info.go:169-178 | a parse that finds no waiting task leaves the records alone exactly when every row of the commit is there |
| Reparse.ThirdParseChangesNothing | dao/t_task_info.go:169-178 | a third parse changes neither table |
| Reparse.OwnParsePresentIff | dao/t_task_info.go:183-205 | after the service's own commit its rows are all there exactly when its records' nonces are the chain's |
| Reparse.ParseIngests | block_parser/das_action_update_sub_account.go:51-76 | a successful parse leaves nothing waiting for the commit and all its rows there |
| Reparse.AllIngested | block_parser/das_action_update_sub_account.go:51-76 | after the first commits of a block are parsed, nothing waits for any of them and all their rows are there |
| Reparse.ParseKeepsIngested | block_parser/das_action_update_sub_account.go:51-76 | parsing another commit keeps it so |
| Reparse.ReparseBlock | block_parser/das_action_update_sub_account.go:51-76 | a block parsed again from its start, after stopping anywhere, ends with the records of one parse, and at most one more chain task per commit parsed twice, without records and still to be confirmed |
| Reparse.ReparseIngestedBlock | block_parser/das_action_update_sub_account.go:51-76 | the same from any state in which the first commits are ingested |
| ReparseLater.StepKeepsIngestedIff | task/do_task.go:101-112 | a step of the loops keeps a commit ingested exactly when it is not the mark of a sent task for its transaction |
| ReparseLater.RunKeepsIngested | dao/t_task_info.go:12-205 | so does every interleaving without such a late mark |
| ReparseLater.ReparseAfterRun | block_parser/das_action_update_sub_account.go:51-76 | a step back after any such interleaving: parsing the block again leaves the records as going on would, and brings at most one recordless chain task per commit ingested before |
| LateMark.LateMarkUndoesIngestion | task/do_task.go:101-112 | a task marked as sent after its commit was parsed: the commit is no longer ingested, and parsing it again changes the records |
| CheckTx.SmtTask.DoCheckTx | task/check_tx.go:10-43 | which tasks are rolled back, when the node has to be asked, and that an unanswered question changes nothing |
| CheckTx.DoomedIff | task/check_tx.go:15-38 | with parents listed first, exactly the tasks at the end of a chain of spends from a rejected transaction are rejected |
| PipelineSafety.TreeIsAccounted | task/do_task.go:67-80 | in every state reached by safe steps, an account whose leaf differs from the chain's is in an unparsed commit or has an open record in a task in progress |
| PipelineSafety.RunKeepsInvIff | dao/t_task_info.go:12-205 | over every interleaving of the loops, the parser and the chain, without the lock, the invariant behind it holds throughout exactly when each step is safe |
| PipelineSafety.StepKeepsInvIff | dao/t_task_info.go:12-205 | an event keeps it exactly when it is safe; only a rollback's write, a confirmation's write and the first parse of a foreign commit can be unsafe |
| PipelineSafety.RootsAgree | txtool/check.go:34-63 | when nothing is in progress and the cell on the chain is known, the tree's root is the chain's |
| PipelineSafety.CheckedTaskStarts | task/do_task.go:67-80 | so a task that passed the checks passes the root comparison and is started |
| PipelineSafety.KnownIsParsed | txtool/check.go:212-240 | the live-cell check succeeds only when every commit has been parsed |
| PipelineSafety.RollbackWriteAccountedIff | task/rollback.go:36-97 | a rollback's write leaves the tree accounted for exactly when each leaf it read before the lock is still the current one, or the account is in an unparsed commit or another open task |
| PipelineSafety.ConfirmWriteAccountedIff | task/other_tx.go:64-147 | a confirmation's write leaves the tree accounted for exactly when its query for the cell is answered and the roots are equal, or each row it read gives the leaf its account has at the end of the row's block, or the account is in an unparsed commit or another open task |
| PipelineSafety.ConfirmWriteFreshIff | task/other_tx.go:70-79 | it leaves something still to come for every row of t_smt_info that is behind, exactly when each row is the last of its block or the last commit is left to the parser or another task |
| PipelineSafety.ParseStaysAccounted | block_parser/das_action_update_sub_account.go:51-76 | taking in a commit hands its accounts to a chain task that answers for them, if no row it needs is missed |
| PipelineSafety.ParseAccountedIff | dao/t_task_info.go:157-181 | a foreign commit's first parse keeps every account accounted for exactly when no account depends on a row that INSERT IGNORE drops |
| PipelineSafety.IgnoredNotConfirmed | dao/t_task_info.go:169-178 | an account whose rows are dropped gets no task that confirms the commit |
| PipelineSafety.ChainNoncesMissNothing | dao/t_task_info.go:169-178 | no row is dropped when chain records have the nonces of the chain |
| PipelineSafety.TreeWriteStaysAccounted | txtool/update_sub_account.go:331-412 | writing a task to the tree changes only accounts the task answers for |
| PipelineSafety.CommitStaysAccounted | txtool/check.go:212-240 | a commit's accounts are accounted for until it is parsed |
| PipelineSafety.SyncStaysAccounted | task/other_tx.go:64-79 | rows of t_smt_info arriving late or out of step lose nothing |
| PipelineInvariants.ClosingsSucceed | dao/t_task_info.go:46-98 | in every reachable state each of the three closings keeps the unique key |
| PipelineSafety.RecordlessTaskDrains | task/other_tx.go:54-158 | a chain task without records passes the sync check, leaves the tree alone and ends in (2,2) |
| PipelineSafety.ReparsedTasksDrain | task/other_tx.go:54-158 | the tasks that parsing a block again brought in addition end in (2,2) and change no leaf |
| StaleRollback.StaleRollbackLosesLeaf | task/rollback.go:46-97 | a run after which a rollback writes back an old leaf: nothing is in progress, the cell is known, and the roots differ |
| SameBlock.SecondLeafIsLost | task/other_tx.go:70-79 | two transactions of a parent in one block: both tasks are confirmed with the first leaf, nothing is in progress, the cell is known, and the roots differ |
| SameBlock.FailedQueryLosesLeaf | task/other_tx.go:105-120 | a state with equal roots in which an answered query leaves the tree alone, and a failed one writes an old leaf over the chain's |
| IgnoredRow.IgnoredRowLosesLeaf | dao/t_task_info.go:157-181 | a record with another nonce than the chain gave takes the place of the next transaction's row: all tasks end confirmed, and the roots differ |
| PipelineInvariants.RunKeepsCore | dao/t_task_info.go:12-205 | whatever happens to the tree, the tables, the chain and the jobs stay in order over every interleaving |
| PipelineInvariants.OthersUntouched | dao/t_task_info.go:12-205 | each event touches only the tasks named, and their rows |
| PipelineInvariants.TasksMove | dao/t_task_info.go:12-205 | each event leaves a task where it is or moves it along one of the listed edges |
| PipelineInvariants.StatusesStay | dao/t_task_info.go:12-205 | tasks stay in the nine pairs of statuses |
| PipelineInvariants.PendingStays | txtool/update_sub_account.go:331-412 | a task waiting for its transaction has an open record for each account the transaction changes |
| PipelineInvariants.OriginsStay | dao/t_task_info.go:157-205 | chain tasks come from parsed commits, with their outpoint and block |
| PipelineInvariants.DigestsStay | dao/t_task_info.go:169-178 | every row a foreign commit brought stays |
| PipelineInvariants.ConfirmStays | task/other_tx.go:70-79 | what the sync check found stays true until the confirmation ends |
| PipelineInvariants.RollbackStays | task/rollback.go:36-53 | what a rollback read covers the task's open records until it ends |
| PipelineLifecycle.OneTaskUnderWay | task/update_sub_account.go:59-146 | in every reachable state statuses are the nine pairs and no two tasks of the service are in (1,0) or (2,1) |
| PipelineLifecycle.RunKeepsOneUnderWay | task/update_sub_account.go:59-146 | every interleaving keeps that, from wherever it holds |
| PipelineLifecycle.CommitsAreExpected | block_parser/das_action_update_sub_account.go:51-76 | so what parsing a block again needs of the tables holds in every reachable state exactly when the waiting records have the nonces of the chain |
| PipelineLifecycle.TriesAreBounded | task/rollback.go:105-113 | a task is written at most maxRetry + 1 times, changes status at most 4 maxRetry + 4 times, and its retry count never exceeds maxRetry |
| PipelineLifecycle.RunDescends | task/rollback.go:105-113 | over any run the status changes made and those left never exceed those left at its start |
| PipelineLifecycle.EndsIff | dao/t_task_info.go:46-108 | a task has no further status to go to exactly when it is confirmed, rolled back for good, or closed |
| SmtTasks.SmtTask.constructor | task/task.go:19-28 | the loops start with an empty tree |
| SmtTasks.SmtTask.GetSmtRecordListByTaskId | dao/t_smt_record_info.go:50-53 | the rows of a task, each once |
| SmtTasks.SmtTask.RecordsAt | task/rollback.go:41-44 | the records and their accounts, in step |
| SmtTasks.SmtTask.GetSmtValues | task/rollback.go:46-54 | the leaves t_smt_info has for the accounts |
| SmtTasks.SmtTask.RollbackKvs | task/rollback.go:74-90 | each account with its leaf, the zero leaf if it has none |
| SmtTasks.SmtTask.UpdateSmt | task/rollback.go:91-97 | the tree after setting the leaves in order |
| SmtTasks.SmtTask.RetryOrClose | task/rollback.go:105-113 | retry below the maximum, close otherwise |
| SmtTasks.SmtTask.ReadForRollback | task/rollback.go:36-90 | the leaves built are those of the task's accounts in t_smt_info |
| SmtTasks.SmtTask.Rollback | task/rollback.go:33-116 | an undisturbed rollback is the three steps of the rollback job: each account of the task gets its leaf of t_smt_info or the zero leaf, the others keep theirs; nothing if the lock is taken |
| SmtTasks.SmtTask.BlockIsSync | task/other_tx.go:70-79 | as many rows as records, none older than the task's block |
| SmtTasks.SmtTask.CheckSync | task/other_tx.go:54-79 | the counting check and the block comparison are the sync check |
| SmtTasks.SmtTask.ConfirmKvs | task/other_tx.go:122-139 | each synced account with its leaf |
| SmtTasks.SmtTask.WriteConfirmed | task/other_tx.go:122-158 | the tree and the task after a confirmation |
| SmtTasks.SmtTask.ConfirmOtherTx | task/other_tx.go:51-160 | an undisturbed confirmation is the three steps of the confirm job, whether or not its query for the cell is answered: with equal roots the tree stays, else each account of the task gets its leaf of t_smt_info; when it reports a block that is not synced |
| SmtTasks.SyncIff | task/other_tx.go:70-79 | the count matches exactly when accounts are different and each has a row |
| SmtTasks.SmtTask.GetTaskMap | task/do_task.go:18-30 | the waiting records of the given tasks, task by task, and their accounts |
| SmtTasks.SmtTask.UpdateTaskSmt | txtool/update_sub_account.go:331-412 | the task is marked as being written; each account gets the leaf made by its own record (the last one about it), and every other account keeps its leaf |
| SmtTasks.SmtTask.DoTaskDetail | task/do_task.go:42-115 | where each failure leaves the service, before the tree is written and after; once it is written each account has the leaf made by its own record; success is the four steps of the update job |
| SmtTasks.SmtTask.DiffNonces | task/update_sub_account.go:269-279 | the rows whose accounts exist already or have used the nonce |
| SmtTasks.SmtTask.CheckNonce | task/update_sub_account.go:268-287 | of the task's rows exactly those are closed whose account exists and was to be created, or has a nonce at or past theirs; and the task when they are all its rows |
| SmtTasks.GroupByParentAccountIdNew | task/update_sub_account.go:240-254 | the first task of each parent account and no other |

## Left out

- PipelineSafety.TreeIsAccounted: is about runs of safe steps, because other steps can lose a leaf, at once or later; RunKeepsInvIff says that these are exactly the runs that keep the invariant behind it, which is more than the tree being accounted for, and the three conditions are RollbackWriteAccountedIff, ConfirmWriteAccountedIff with ConfirmWriteFreshIff, and ParseAccountedIff.
- PipelineSafety.RunKeepsInvIff: one parent account, no chain reorganisation below the parser, and only tasks of the update action; profit withdrawals and configuration changes, which create tasks of their own, are not among the events.
- PipelineLifecycle.TriesAreBounded: bounds the steps a task takes; that the loops keep running is not modelled.
- Reparse.ReparseBlock: assumes that commits of the block have different outpoints and that records waiting for one of them have the nonces the chain gave; OwnParsePresentIff says what other nonces do.
- FeeBounds.TokenSharesAgree: leaves out amounts within the rounding of its two bounds, where payout and display compare with differently rounded numbers and can take different branches.
- FeeBounds.DollarsByRate: says nothing of prices within the rounding of the bound, one unit of the sixteenth digit per year.
- CellCapacity.PriceRounding: is stated under the bounds without overflow that PriceToCKB needs to be a quotient at all.
- PayoutRuns.PaymentsAddUp: is about runs of safe steps, because other steps break it; RunKeepsAccountedIff says that these are exactly the runs that keep payments accounted for.
- PayoutRuns.NeverPaidTwice: is about the same runs; overlapping requests and saved rows that change a stamp are the other ones.
- ReparseLater.ReparseAfterRun: is about runs in which no task is marked as sent after its commit was parsed; StepKeepsIngestedIff is the exact condition.
- Payments.Safety: is about runs in which every replaced order is saved soundly, because other saves break it; SaveKeepsInvIff is the exact condition.
- Payments.DbDao.UpdateOrderPayStatusOkWithCoupon: leaves out the coupon set and coupon rows it also writes, whose insertion can fail and undo the transaction.
- CouponCodes.GenerateCodes: takes the coupons that exist as fixed while codes are drawn.
- SubAccountReplay.GetCurrentSubAccountNew: leaves out recycling, which returns an empty account.
- The closing of records when a parent has no sub-account cell, recycled accounts and custom-script prices, which only add exceptions.
- parserConcurrencyMode of the block parser, which makes no fork check, and its distance to the tip when that is below the confirmations.
- The md5 of a task id and of an automatic payment id are taken as injective, a checksum as an arbitrary function, and a tree's root as its leaves.
- The queries' time windows and limits: the selected rows are parameters, in the table's order.
- The columns' decimal precision; amounts are exact reals, and only the library's divisions round.
- The columns of an automatic payment that only report: fee rate, original amount, date.
- Which of several tasks waiting for one transaction a query returns; the model takes any.
- The exact values of OneYearSec, OneCkb and the minimum cell sizes belong to another library: the first two are written out, the others are parameters.
- The sorting algorithm of the standard library, of which LoadBalancing.Sort models an insertion sort with the same result.
- Transaction building, witnesses, signatures, notifications, HTTP handling and the read-only endpoints.
