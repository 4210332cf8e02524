# Courier back end: bookkeeping model

The repository is the back end of a courier company: orders move between branches, clients, delivery agents and
other companies, and every order carries a handful of money columns that reports, wallets, dashboards and the daily
profit snapshot are computed from. This project models that bookkeeping and proves what keeps it consistent.

| module | what it holds |
|---|---|
| Schema, Sums | the shared rows; sums and selections over lists, with the exchange of a sum over branches for a sum over orders |
| DailyProfit, DailySnapshot | the three order groups of a branch and day, company-wide conservation, the upsert loop, days that tile time |
| Pricing | `getDeliverCost`, `getProfits`, the cost part of `updateOrder`, runs of updates, prices that come back out of the daily split |
| Settlement | `updateOrdersCosts2`: computed rows written back in chunks |
| Keyset, Reprice | keyset paging over text ids, and the batch re-pricer on top of it |
| ReportFlags | the six report flags as an index over report links: creation, deletion, backfill, reconcile, filters |
| Wallets | guarded wallet writes interleaved with transaction creation; listing and export of transactions |
| ReceivingManager | the receiving manager's dashboards, drill-downs and tiles |
| Commission | employee commission reports and what reports take from each other |
| OrderScope | the Prisma condition tree and the SQL condition list of one user's order scope |
| Decimal, ReceiptNumbers | decimal text, receipt numbers and the id loop |
| JsonText, LocationCache | JSON text of flat objects, and the cached location list |

Each database statement or transaction is one atomic step over maps and sequences. Amounts are exact numbers, a sum over
no rows counts as 0, ids are unbounded. Clock readings, request users, prices and the database's ordering of text ids are
parameters. An empty Prisma object condition matches every row, as `tests/receiving-agent-manager.test.cjs` assumes.
Objects the source changes in place are classes; each of their methods is proved equal to a function on the old state,
and the theorems are about those functions and about runs of them.

## What came out

Where the code does not do what was expected of it, the code is kept and the exact condition is proved.

- Company profit is conserved exactly when the company has one main-repository branch or the main margins cancel
  (`DailyProfit.ConservationIff`); with k main branches the difference is k - 1 times the margin.
- The comment at src/cron-jobs/computeProfit.job.ts:122-125 calls the snapshot safe to re-run. It is exactly on the same local day
  (`DailySnapshot.SnapshotRerunIff`), but the call changes the Date object it is given: passing that object again is never on the same day
  (`DailySnapshot.SnapshotTwiceWithOneDate`). The code is followed.
- The repository's own README, line 136, says the wallets module does not post transactions; `createOwnTransaction` does. The code is followed.
- The general transaction editor (src/app/transactions/transaction.repository.ts) can move a wallet's transaction to another branch; a wallet's
  lists are complete exactly when its edits did not (`Wallets.ExportHidesNothingIff`).
- A keyset script ends on every table except the one whose only matching row has the empty id (`Keyset.TerminatesIff`).
- The re-pricer agrees with `getProfits` under all prices exactly on the shapes of `Reprice.SameRule`.
- `updateOrder` leaves clientNet = paidAmount - deliveryCost except where two fallbacks on zeros do not cancel
  (`Pricing.NetMatchesCostIff`).
- Hard deletion of a report recomputes no flags (`ReportFlags.EraseKeepsExactIff`), and reactivation repeats no uniqueness check
  (`ReportFlags.StepKeepsOnePerTypeIff`).
- A deactivated commission report can lose its orders to a later one; reactivated, it is whole exactly when it has as many orders as it
  counted (`Commission.ReactivateWholeIff`, `Commission.RetakenReportIsHollow`).
- Overlapping commission requests take each other's orders exactly when they fetched a common one (`Commission.OverlapSafeIff`), and one
  request's two queries agree exactly when they saw the same taken orders (`Commission.SplitQueriesBalanceIff`).
- Hard deletion of an order that a commission report counts leaves the report short (`Commission.EraseOrderKeepsInvIff`).
- A removed wallet transaction comes back exactly when a report it has is reactivated (`Wallets.StepKeepsRemovedIff`).
- The two scope builders differ outside `OrderScope.SameScope`, for instance for an inquiry employee with a company list.
- A delivery-agent report over no orders fails: it joins an empty list of values (`Settlement.OrdersTable.UpdateOrdersCosts2`).
- Receipt numbers repeat within a year exactly when the clock returns to a second (`ReceiptNumbers.RunDistinctIff`), and across years exactly
  on equal dates and equal seconds modulo 100000 (`ReceiptNumbers.SameNumberIff`).
- A cached full location list asked for with size 0 comes back with another page count (`LocationCache.HitIsExactIff`); deleting an agent and a
  late reader leave stale pages under exact conditions (`LocationCache.AgentDeletionFreshIff`, `LocationCache.LateSetFreshIff`).

## Model

| member | source | states |
|---|---|---|
| DailyProfit.GroupsAreSums | src/cron-jobs/computeProfit.job.ts:39-119 | each profit column of a branch's result is a sum over all orders of that order's own part, nulls and empty groups counting as 0 |
| DailyProfit.CountsAreSums | src/cron-jobs/computeProfit.job.ts:39-119 | each count column is a sum of ones over the orders of its group |
| DailyProfit.BranchTotalIsSum | src/cron-jobs/computeProfit.job.ts:97-119 | a branch's total profit is the sum over all orders of the three shares the branch has in each |
| DailyProfit.SharesAreLegs | src/cron-jobs/computeProfit.job.ts:51-110 | for a cross-branch order the groups of main and ordinary branches regroup into a forwarding, a receiving and a main leg |
| DailyProfit.OrderSharesTelescope | src/cron-jobs/computeProfit.job.ts:51-110 | over distinct branches the shares of one order add up to its legs, the main margin once per main branch |
| DailyProfit.CompanyProfitIsSumOverOrders | src/cron-jobs/computeProfit.job.ts:150-177 | the sum of branch totals equals a sum over orders: summing by branch and by order agree |
| DailyProfit.ConservationDefect | src/cron-jobs/computeProfit.job.ts:51-110 | with k main branches, reported profit plus one main margin equals order value plus k main margins |
| DailyProfit.ConservationIff | src/cron-jobs/computeProfit.job.ts:51-110 | company profit equals delivery cost minus agent pay over cross-branch orders plus inside nets of ordinary branches, if and only if there is one main branch or the margins cancel |
| DailyProfit.WindowsTile | src/cron-jobs/computeProfit.job.ts:31-119 | two adjacent half-open windows add up, in every profit and count column, to the window that spans them |
| DailyProfit.AgreeingProfits | src/cron-jobs/computeProfit.job.ts:31-119 | a branch's result depends only on what was delivered in the window and on those clients' branches |
| DailyProfit.UncountedOrder | src/cron-jobs/computeProfit.job.ts:31-96 | an order that is deleted, unconfirmed, not delivered, partially returned or replaced, of another company, without client row or outside the window changes no column |
| DailyProfit.CountedOrder | src/cron-jobs/computeProfit.job.ts:31-119 | any other order adds one to exactly the counts its branch and its client's branch name, and its net columns to those profits, for main and ordinary branches |
| DailySnapshot.DayBeforeMidnight | src/cron-jobs/computeProfit.job.ts:127-134 | the day before a local midnight is again a midnight, one UTC day earlier |
| DailySnapshot.UpsertBranches | src/cron-jobs/computeProfit.job.ts:150-196 | the branch loop upserts one row per branch under the run's day and counts every branch |
| DailySnapshot.SnapshotDailyProfits | src/cron-jobs/computeProfit.job.ts:126-200 | the table after a run, the returned day and count, and that a passed Date is left one day before its midnight |
| DailySnapshot.UpsertedRows | src/cron-jobs/computeProfit.job.ts:150-196 | after a run every branch has exactly its fresh row under that day and every row of another key is unchanged |
| DailySnapshot.StoredColumns | src/cron-jobs/computeProfit.job.ts:150-196 | a branch's stored row is its result over the 24 hours before the midnight, main when it owns a main repository, with the three profits as total |
| DailySnapshot.MidnightIsLast | src/cron-jobs/computeProfit.job.ts:127-134 | the midnight of a run is the latest one not after its instant |
| DailySnapshot.SnapshotRerunIff | src/cron-jobs/computeProfit.job.ts:122-200 | a second run, at whatever later instant, over the same orders changes no table if and only if it falls on the same local day or there are no branches |
| DailySnapshot.SnapshotTwiceWithOneDate | src/cron-jobs/computeProfit.job.ts:126-134 | two calls with one Date object are never on the same day: they leave the rows of the day and of the day before |
| DailySnapshot.StoredTotalsConserve | src/cron-jobs/computeProfit.job.ts:150-196 | after a run for any day the stored totals of a company's branches add up to its orders' value, with one main branch and closed orders |
| DailySnapshot.DayStored | src/cron-jobs/computeProfit.job.ts:126-200 | after runs on consecutive nights, each over the database of its night, every day has the row the final database gives for it |
| DailySnapshot.DailyRowsTileTheRange | src/cron-jobs/computeProfit.job.ts:97-200 | the rows stored by n consecutive nightly runs sum, column by column, to the formulas of the final database on the whole range |
| Pricing.OrdersRepository.UpdateOrder | src/app/orders/orders.repository.ts:3303-3398 | the addressed row becomes the updated one, with the cost the price lists give and the columns that follow from it, an error writes nothing, no other row changes |
| Pricing.DeliverCostColumns | src/app/orders/orders.repository.ts:222-288 | fails if and only if the client is missing; else the first list entry for the governorate, or the four parts of the active-profit row of the branch, or 0 where there is none |
| Pricing.ProfitsColumns | src/app/orders/orders.repository.ts:290-432 | the four amounts, case by case: own branch, forwarded by another company, active-profit row, the two branches' price lists |
| Pricing.UpdatedColumns | src/app/orders/orders.repository.ts:3303-3398 | every column an update writes: the cost is the one the price lists give for the new governorate and branch, and net and old cost follow |
| Pricing.UpdatedProfits | src/app/orders/orders.repository.ts:3321-3364 | an update that looks prices up overwrites the branch nets and the agent's pay with the looked-up ones, any other keeps them |
| Pricing.UpdateFailsIff | src/app/orders/orders.repository.ts:3321-3364 | an update fails if and only if it looks prices up for an order without client row or branch, or for a forwarded one without branch |
| Pricing.RunKeepsLastPrice | src/app/orders/orders.repository.ts:3321-3364 | over any successful run of updates the cost an order can restore is the last non-zero price set on it |
| Pricing.ReturnedRun | src/app/orders/orders.repository.ts:3321-3364 | after one or more RETURNED updates the cost and the client's net are 0 and the old cost is the one from before |
| Pricing.ReturnThenRestore | src/app/orders/orders.repository.ts:3321-3364 | the next update that neither returns nor re-prices restores the cost, and the net is right unless a 0 is paid explicitly over a non-zero amount |
| Pricing.NetMatchesCostIff | src/app/orders/orders.repository.ts:3337-3398 | clientNet = paidAmount - deliveryCost after a non-RETURNED update if and only if the two fallbacks on zeros cancel |
| Pricing.DeliveryWritesActivePrice | src/app/orders/orders.repository.ts:245-374 | delivering, replacing or partially returning a non-forwarded cross-branch order of an active-profit client writes its row's prices and the agent's pay |
| Pricing.SplitReturnsActivePrices | src/cron-jobs/computeProfit.job.ts:101-110 | over any set of such orders the daily split pays the client's branch forwardedBranchProfit, the main branch mainBranchProfit and the delivering branch the rest less agent pay |
| Settlement.WrittenInChunks | src/app/orders/orders.repository.ts:3036-3061 | writing two chunks of distinct orders one after the other is one write of both |
| Settlement.OrdersTable.WriteChunks | src/app/orders/orders.repository.ts:3036-3061 | the 5000-row loop writes each computed row exactly once |
| Settlement.OrdersTable.UpdateOrdersCosts2 | src/app/orders/orders.repository.ts:2957-3264 | the returned rows are the computed ones and exactly these are stored; the unguarded empty agent report fails |
| Settlement.SettledRow | src/app/orders/orders.repository.ts:2957-3264 | for distinct orders the stored row of each is its own computed row applied to it |
| Settlement.OthersUntouched | src/app/orders/orders.repository.ts:2957-3264 | an order outside the report keeps its row |
| Settlement.ClientColumns | src/app/orders/orders.repository.ts:2974-3061 | the cost a client report takes: active-profit row, the client's own price, the cost named for the governorate or the order's own, and the two nets |
| Settlement.BranchColumns | src/app/orders/orders.repository.ts:3066-3205 | the cost a branch report takes in each direction and the column it is written to |
| Settlement.AgentColumns | src/app/orders/orders.repository.ts:3210-3264 | the agent's pay: named or own price, capped by the receiving profit of the forwarder's or client's row and lowered by 250 |
| Settlement.ClientReportSettles | src/app/orders/orders.repository.ts:2974-3061 | clientNet + deliveryCost = paidAmount, and a same-branch order keeps cost less agent pay inside |
| Settlement.BranchReportSettles | src/app/orders/orders.repository.ts:3066-3205 | branchNet plus the net the direction writes = paidAmount, and the other direction's net stays |
| Settlement.AgentReportSettles | src/app/orders/orders.repository.ts:3210-3264 | companyNet + deliveryAgentNet = paidAmount, and a capped pay is the smaller of base pay and receiving profit, less 250 |
| Settlement.SettlementKeepsActivePrices | src/app/orders/orders.repository.ts:2974-3205 | client and branch reports rewrite an active-profit order's nets to the values pricing gave it |
| Keyset.AfterRow | src/lib/backfillReportFlags.ts:12-35 | a non-empty cursor resumes right behind the row it names |
| Keyset.KeysetPages | src/lib/backfillReportFlags.ts:12-35 | on every table but the one listing only the empty id, each fetch is the next stretch of the listing |
| Keyset.StuckOnEmptyId | src/lib/recomputeOrderProfits.ts:48-82 | on that table the cursor never moves |
| Keyset.TerminatesIff | src/lib/recomputeOrderProfits.ts:48-174 | the endless loop reaches an empty fetch if and only if the listing is not just the empty id |
| Reprice.RepricePage | src/lib/recomputeOrderProfits.ts:84-165 | the inner loop reprices exactly the page, and nothing in a dry run |
| Reprice.Recompute | src/lib/recomputeOrderProfits.ts:25-178 | every matching order is visited and repriced exactly once in id order, no other row changes, a dry run writes nothing |
| Reprice.MatchesColumns | src/lib/recomputeOrderProfits.ts:48-60 | which orders are matched: live ones of the company, delivered since the start, of clients of the two branches |
| Reprice.RepricedColumns | src/lib/recomputeOrderProfits.ts:84-163 | the three nets a matched order is given from the price lists, and that no other column changes |
| Reprice.RepricerAgreesIff | src/lib/recomputeOrderProfits.ts:84-132 | batch and per-order nets agree under every price list if and only if the order has one of the named shapes |
| ReportFlags.RecomputeKeepsExact | src/app/orders/helpers/recomputeReportFlags.ts:12-62 | a change of reports and links followed by recomputing the touched orders keeps every flag equal to its EXISTS clause |
| ReportFlags.CreateKeepsExact | src/app/reports/reports.repository.ts:22-224 | creating a report keeps the flags exact |
| ReportFlags.FlagColumns | src/cron-jobs/reconcileReportFlags.job.ts:9-52 | which flag stands for a live linked report of which kind |
| ReportFlags.CreationColumns | src/app/reports/reports.repository.ts:22-224 | when a client or branch report is refused, and the kind, links and flags it is created with |
| ReportFlags.DeletedColumns | src/app/reports/reports.repository.ts:881-1002 | deactivation and reactivation set one column of one report and recompute exactly its orders |
| ReportFlags.EraseAndAddColumns | src/app/reports/reports.repository.ts:871-879 | a hard delete takes the report and its links and no flag; a new order starts with every flag down |
| ReportFlags.DeletedSetKeepsExact | src/app/reports/reports.repository.ts:881-1002 | deactivating and reactivating a report keep the flags exact |
| ReportFlags.EraseKeepsExactIff | src/app/reports/reports.repository.ts:871-879 | a hard delete keeps the flags exact if and only if every order the report flagged is in another live report of its kind |
| ReportFlags.RunKeepsExact | src/app/reports/reports.repository.ts:22-1002 | over every run of report steps and new orders with covered hard deletes, every flag says what the joins say |
| ReportFlags.StepKeepsOnePerTypeIff | src/app/reports/reports.repository.ts:74-170 | one live client report per order and type survives a step if and only if the step is not a reactivation of a report one of whose orders has moved on |
| ReportFlags.ReactivateOnePerTypeIff | src/app/reports/reports.repository.ts:960-1002 | reactivation keeps that rule if and only if no order of the report is in another live one of its type |
| ReportFlags.FlagStore.RecomputeReportFlags | src/app/orders/helpers/recomputeReportFlags.ts:12-62 | afterwards the given orders' flags say what the joins say, every other order, report and link is unchanged, and the touched orders are counted |
| ReportFlags.FlagStore.BackfillLoop | src/lib/backfillReportFlags.ts:12-35 | the cursor loop visits the listing in order and recomputes all of it |
| ReportFlags.FlagStore.Backfill | src/lib/backfillReportFlags.ts:1-44 | every order id is visited exactly once and afterwards every flag is exact, whatever the flags held before |
| ReportFlags.FlagStore.ReconcileReportFlags | src/cron-jobs/reconcileReportFlags.job.ts:54-95 | one run repairs min(1000, mismatches) recent orders exactly, adds no mismatch and touches no other flag |
| ReportFlags.MismatchColumns | src/cron-jobs/reconcileReportFlags.job.ts:9-52 | a mismatch is a recently touched order one of whose six flags disagrees with the live linked reports |
| ReportFlags.RepairedMismatches | src/cron-jobs/reconcileReportFlags.job.ts:9-52 | recomputing a set of mismatching orders removes exactly these from the mismatches |
| ReportFlags.ClientFilterMeansRelation | src/app/orders/orders.repository.ts:91-117 | with exact flags the client-report filter selects an order if and only if it is, or is not, in a live client report of that type |
| ReportFlags.BranchFilterMeansRelation | src/app/orders/orders.repository.ts:136-183 | with exact flags every value of the branch-report filter selects what the join test of that value selects |
| ReportFlags.FlagFieldMeansRelation | src/app/orders/orders.repository.ts:119-134 | the chosen flag is up if and only if a live branch report of that direction and kind is linked |
| Wallets.WalletsRepository.GetWallet | src/app/employeeWallets/employeeWallets.repository.ts:308-315 | the stored row is returned for exactly the wallets of the manager's company, or of the branch manager's branch |
| Wallets.WalletsRepository.UpdateWalletRead | src/app/employeeWallets/employeeWallets.repository.ts:317-338 | goes on, with the row it read, if and only if the user manages the wallet and does not reassign one with transactions |
| Wallets.WalletsRepository.UpdateWalletWrite | src/app/employeeWallets/employeeWallets.repository.ts:340-366 | the guarded write half: new state on success, nothing on conflict |
| Wallets.WalletsRepository.DeleteWalletWrite | src/app/employeeWallets/employeeWallets.repository.ts:373-394 | the guarded delete: the wallet goes, or nothing changes |
| Wallets.WalletsRepository.CreateOwnTransaction | src/app/employeeWallets/employeeWallets.repository.ts:169-242 | succeeds if and only if a live employee owns the wallet and the targets are the company's; then one transaction with the given kind, amount and targets and the wallet's company and branch is appended, else nothing changes |
| Wallets.GuardedWriteActsOnReadRow | src/app/employeeWallets/employeeWallets.repository.ts:340-394 | a write or delete that passes its guard acts on exactly the row that was read |
| Wallets.StepSafe | src/app/employeeWallets/employeeWallets.repository.ts:169-394 | every step of every interleaving, edits of transactions and changes of their reports included, keeps the invariant, settles wallets that have transactions and keeps the transactions in them |
| Wallets.RunSafe | src/app/employeeWallets/employeeWallets.repository.ts:169-394 | in every interleaving a wallet with a transaction is never deleted and never changes company, branch or employee, and no transaction is lost or leaves its wallet |
| Wallets.StepKeepsRemovedIff | src/app/reports/reports.repository.ts:911-979 | a step keeps every removed transaction removed if and only if it is not the reactivation of a report that some removed transaction has |
| Wallets.RemovedComesBack | src/app/transactions/transaction.repository.ts:2457-2493 | a transaction edited onto a report and then removed is live again once the report is reactivated |
| Wallets.InitSafe | src/app/employeeWallets/employeeWallets.repository.ts:264-284 | the empty table satisfies the invariant |
| Wallets.BeginColumns | src/app/employeeWallets/employeeWallets.repository.ts:317-377 | whom the reading half of an update and of a delete turn away, and what they carry to the write |
| Wallets.CommitColumns | src/app/employeeWallets/employeeWallets.repository.ts:340-394 | when a guarded write or delete gets through, and the rows it leaves |
| Wallets.TransactionColumns | src/app/employeeWallets/employeeWallets.repository.ts:169-242 | who may add a transaction for which targets, and every column of the appended row |
| Wallets.CreationColumns | src/app/employeeWallets/employeeWallets.repository.ts:264-284 | who may create a wallet for whom, and the row that is created |
| Wallets.AssignableColumns | src/app/employeeWallets/employeeWallets.repository.ts:244-262 | a wallet goes to a branch of the company and to a live employee of that branch |
| Wallets.EditColumns | src/app/transactions/transaction.repository.ts:2457-2493 | what an edit makes of every column of a transaction |
| Wallets.ChangeColumns | src/app/transactions/transaction.repository.ts:2457-2493 | an edit reaches the row of its id, and takes the report from the row that had it |
| Wallets.ReportChangeColumns | src/app/reports/reports.repository.ts:911-979 | a change of a report reaches exactly the transaction that has it |
| Wallets.StaleWriteFails | src/app/employeeWallets/employeeWallets.repository.ts:340-394 | of the updates and deletes that read one version of a wallet at most one gets through, whatever happens in between |
| Wallets.PagesPartitionExport | src/app/employeeWallets/employeeWallets.repository.ts:427-466 | pages 1 to pagesCount concatenate to the export list and every later page is empty |
| Wallets.RunAccounted | src/app/transactions/transaction.repository.ts:2457-2475 | over any run a transaction has its wallet's branch and employee except for what the latest edits gave it |
| Wallets.ExportSelects | src/app/employeeWallets/employeeWallets.repository.ts:396-442 | the list is strictly descending and holds exactly what the condition selects |
| Wallets.ExportColumns | src/app/employeeWallets/employeeWallets.repository.ts:396-442 | which transactions a wallet's list holds under which filters |
| Wallets.LastPageIsNeeded | src/app/employeeWallets/employeeWallets.repository.ts:427-466 | the last page is not empty |
| Wallets.ExportHidesNothingIff | src/app/employeeWallets/employeeWallets.repository.ts:396-442 | after any run a wallet's lists hide none of its matching transactions, whatever the filters, if and only if the edits left its live transactions in its branch |
| Wallets.EditedTransactionListedIff | src/app/transactions/transaction.repository.ts:2457-2475 | a transaction edited in any of its members is still listed if and only if it passes the filters as edited and was not given another branch |
| Wallets.DateRangesSplit | src/app/employeeWallets/employeeWallets.repository.ts:396-425 | two adjacent date ranges split the matching transactions disjointly and completely |
| ReceivingManager.ReadyAgents | src/app/orders/receivingAgentManager.ts:238-282 | the loops over assignments and counts compute entries, total, unassigned count and the shared flag |
| ReceivingManager.ReportAgents | src/app/orders/receivingAgentManager.ts:161-197 | the loop over reports computes entries and total |
| ReceivingManager.GetReceivingManagerAgents | src/app/orders/receivingAgentManager.ts:156-283 | the endpoint returns the dashboard of the status in the manager's scope, counting exactly the orders or reports of that status, company and branch, or the scope's refusal |
| ReceivingManager.SortAgentsSorts | src/app/orders/receivingAgentManager.ts:153-154 | sorting puts larger counts first, then smaller ids, and permutes the entries |
| ReceivingManager.AgentDrillDown | src/app/orders/receivingAgentManager.ts:37-74 | an agent's filter selects exactly as many orders as the loaded assignments give that agent |
| ReceivingManager.UnassignedDrillDown | src/app/orders/receivingAgentManager.ts:37-74 | the unassigned filter selects exactly the orders the unassigned count counts |
| ReceivingManager.SharedIffExcess | src/app/orders/receivingAgentManager.ts:238-282 | hasSharedClients is true if and only if some counted order has a client with more than one agent |
| ReceivingManager.OrderDashboardCounts | src/app/orders/receivingAgentManager.ts:37-74 | total, tile, entries and unassigned count of both order dashboards count exactly the orders of that status, company, branch and agent |
| ReceivingManager.ReportDashboardCounts | src/app/orders/receivingAgentManager.ts:76-93 | total, tile and entries of both report dashboards add up the saved counts of exactly the unconfirmed live reports of that type, company, branch and agent |
| ReceivingManager.ClientsColumns | src/app/orders/receivingAgentManager.ts:95-145 | a drill-down lists exactly the clients of the counted orders, each with their number, in order |
| ReceivingManager.ClientsRefusedIff | src/app/orders/receivingAgentManager.ts:24-35 | who is refused a drill-down |
| ReceivingManager.ReadyDashboardAdds | src/app/orders/receivingAgentManager.ts:238-282 | entries plus unassigned equal the total plus the excess of assignments, hence the total if and only if no client is shared; every number equals its drill-down |
| ReceivingManager.WithAgentDashboardAdds | src/app/orders/receivingAgentManager.ts:199-236 | entries agree with their drill-downs and add up to the total |
| ReceivingManager.ReportDashboardAdds | src/app/orders/receivingAgentManager.ts:161-197 | an entry is the saved counts of the agent's reports, and the entries add up to the total |
| ReceivingManager.TilesAgree | src/app/orders/receivingAgentManager.ts:285-310 | the statistics tile of every status equals that status's total |
| ReceivingManager.ClientsAddUpToEntry | src/app/orders/receivingAgentManager.ts:95-145 | the clients of a drill-down add up to the number the agent list shows for that agent, for nobody, or in all, and to 0 for an agent it does not show |
| Commission.CommissionRepository.UpsertEmployeeClient | src/app/employeeCommissions/employeeCommission.repository.ts:31-60 | a client assigned elsewhere is refused, otherwise its one row is created or overwritten |
| Commission.CommissionRepository.ConnectOrders | src/app/employeeCommissions/employeeCommission.repository.ts:233-250 | the batches of 1000 together link exactly the given orders |
| Commission.CommissionRepository.CreateReport | src/app/employeeCommissions/employeeCommission.repository.ts:176-258 | the report saves the amount the due orders earn and their number in and outside Baghdad, and links exactly them |
| Commission.TotalIsSumOfWorth | src/app/employeeCommissions/employeeCommission.repository.ts:62-139 | counts times rates, clients without orders dropped, equal the sum over orders of each one's worth; the counts count the fetched ids |
| Commission.FetchedIffTaken | src/app/employeeCommissions/employeeCommission.repository.ts:141-174 | the second query fetches an order if and only if the first one counted it |
| Commission.FetchedCount | src/app/employeeCommissions/employeeCommission.repository.ts:141-174 | the second query fetches no order twice |
| Commission.WorthIsRate | src/app/employeeCommissions/employeeCommission.repository.ts:62-139 | a taken order is worth its own client's rate for its governorate, any other nothing |
| Commission.EarnedIsRate | src/app/employeeCommissions/employeeCommission.repository.ts:62-139 | a due order earns its active assignment's baghdadOrderCost in Baghdad and its govOrderCost elsewhere |
| Commission.CalculatedColumns | src/app/employeeCommissions/employeeCommission.repository.ts:62-139 | the two counts count the due orders of their own governorate, and the total adds up what each due order earns |
| Commission.LinkedColumns | src/app/employeeCommissions/employeeCommission.repository.ts:176-258 | exactly the due orders are linked to a new report and nothing else about orders changes |
| Commission.DetailColumns | src/app/employeeCommissions/employeeCommission.repository.ts:105-139 | one line of the details: a client's due orders by governorate, times the rates |
| Commission.DetailsColumns | src/app/employeeCommissions/employeeCommission.repository.ts:105-139 | the details hold a line for exactly the held clients with due orders |
| Commission.UpsertColumns | src/app/employeeCommissions/employeeCommission.repository.ts:31-60 | an assignment is refused if and only if another employee holds the client; otherwise the client has the given row and no other |
| Commission.NoOrderTakenFromLive | src/app/employeeCommissions/employeeCommission.repository.ts:84-101 | an order linked to a live report keeps its link through any new report |
| Commission.ReportKeepsInv | src/app/employeeCommissions/employeeCommission.repository.ts:176-258 | a new report keeps every report's saved amount and counts equal to its linked orders plus what was taken since, and live reports whole |
| Commission.CompleteIff | src/app/employeeCommissions/employeeCommission.repository.ts:201-231 | nothing was taken from a report if and only if as many orders are linked to it as its stored counts say |
| Commission.LatePlanSafeIff | src/app/employeeCommissions/employeeCommission.repository.ts:187-258 | a plan committed on whatever database leaves every order of a live report in place if and only if it names none |
| Commission.OverlapSafeIff | src/app/employeeCommissions/employeeCommission.repository.ts:187-258 | of two overlapping requests the later one leaves all live reports' orders in place if and only if the two fetched no common order |
| Commission.OverlapLoses | src/app/employeeCommissions/employeeCommission.repository.ts:187-258 | after an overlap the first report's saved amount is the worth of the orders it has left plus that of the common ones |
| Commission.SplitMoney | src/app/employeeCommissions/employeeCommission.repository.ts:187-258 | when the two queries saw different databases the saved amount is the worth of the linked orders plus that of those only the first query saw |
| Commission.SplitQueriesBalanceIff | src/app/employeeCommissions/employeeCommission.repository.ts:187-258 | with positive rates counts and amount are those of the linked orders if and only if both queries saw the same taken orders |
| Commission.SecondReportIsEmpty | src/app/employeeCommissions/employeeCommission.repository.ts:176-258 | an immediate second report for the same window fetches nothing and totals 0 |
| Commission.ReactivateWholeIff | src/app/reports/reports.repository.ts:960-1002 | a reactivated report keeps the books if and only if its linked orders are as many as it counted, and where lost orders cost money only then is its amount theirs |
| Commission.RetakenReportIsHollow | src/app/reports/reports.repository.ts:881-1002 | report, deactivate and report again: the first report has lost all it saved and cannot be reactivated whole unless it counted no order |
| Commission.EventKeepsLossesCost | src/app/employeeCommissions/employeeCommission.repository.ts:31-302 | with positive rates no report ever loses orders without money |
| Commission.EventKeepsInv | src/app/employeeCommissions/employeeCommission.repository.ts:31-302 | reports, deletions, assignments, order edits and harmless reactivations and erasures keep the books |
| Commission.EraseOrderKeepsInvIff | src/app/orders/orders.repository.ts:3642-3649 | the hard delete of an order keeps the books if and only if the order is linked to no report |
| Commission.RunKeepsBooks | src/app/employeeCommissions/employeeCommission.repository.ts:31-302 | over every sequential run whose reactivated reports still have all their orders and whose erased orders are unlinked, each live report has as many orders as it counted and its saved amount is their worth |
| Commission.OverlappingRequestsEmptyTheFirst | src/app/employeeCommissions/employeeCommission.repository.ts:187-258 | two overlapping requests for one employee and window leave the first report live, with its full amount and no orders |
| OrderScope.ResolvedLimitsNotEmpty | src/app/messages/messages.controller.ts:22-53 | a resolved limit of any kind that is present is not an empty list |
| OrderScope.ResolvedColumns | src/app/messages/messages.controller.ts:22-53 | every limit is the stored list, or absent when that is empty |
| OrderScope.InquirySqlColumns | src/app/messages/messages.controller.ts:225-354 | the orders the SQL selects for an inquiry employee, column by column |
| OrderScope.OtherSqlColumns | src/app/messages/messages.controller.ts:225-354 | the orders the SQL selects for every other role, column by column |
| OrderScope.InquiryTreeColumns | src/app/messages/messages.controller.ts:55-184 | the orders the tree selects for an inquiry employee, column by column |
| OrderScope.OtherTreeColumns | src/app/messages/messages.controller.ts:80-184 | the orders the tree selects for every other role, column by column |
| OrderScope.BuildOrderScopeSql | src/app/messages/messages.controller.ts:225-354 | the pushed conditions joined with AND accept exactly the orders within the stated limits of the user's role |
| OrderScope.InquiryBranches | src/app/messages/messages.controller.ts:55-78 | which orders the branch member of the tree and of the SQL accepts |
| OrderScope.InquiryTreeSelects | src/app/messages/messages.controller.ts:55-184 | the rows the condition tree accepts for an inquiry employee, in words |
| OrderScope.OtherTreeSelects | src/app/messages/messages.controller.ts:80-184 | the rows the tree accepts for every other role |
| OrderScope.BuildersAgreeIff | src/app/messages/messages.controller.ts:55-354 | tree and list select the same orders, for every role, status and flag, if and only if the stated guard holds |
| ReceiptNumbers.SameNumberIff | src/app/clientReceipts/clientReceipts.controller.ts:15-32 | in whatever years two readings give one number if and only if month and day, the second modulo 100000 and the counter are the same |
| ReceiptNumbers.NumberColumns | src/app/clientReceipts/clientReceipts.controller.ts:15-32 | the digits of a number: two of the month, two of the day, the last five of the second, then the counter |
| ReceiptNumbers.DateColumns | src/app/clientReceipts/clientReceipts.controller.ts:15-22 | the month and day are those whose days add up to the day of the year |
| ReceiptNumbers.BranchColumns | src/app/clientReceipts/clientReceipts.controller.ts:78-97 | which branch a receipt gets, and when it is refused |
| ReceiptNumbers.ReceiptNumberInjective | src/app/clientReceipts/clientReceipts.controller.ts:15-32 | within a year a number determines the second and the counter it was made from |
| ReceiptNumbers.RunDistinctIff | src/app/clientReceipts/clientReceipts.controller.ts:12-32 | all numbers one process issues in a year are distinct if and only if its clock never returns to a second it has left |
| ReceiptNumbers.SteadyClockNeverRepeats | src/app/clientReceipts/clientReceipts.controller.ts:12-32 | over any run with non-decreasing readings in a year all numbers are distinct |
| ReceiptNumbers.BackwardClockRepeats | src/app/clientReceipts/clientReceipts.controller.ts:23-26 | readings t, t + 1, t issue the first number twice |
| ReceiptNumbers.NextYearRepeatsIff | src/app/clientReceipts/clientReceipts.controller.ts:19-31 | between two common years a number comes again in the second one if and only if it was issued from ten in the morning on or before 06:13:20 |
| ReceiptNumbers.ClientReceiptController.GenerateOrderId | src/app/clientReceipts/clientReceipts.controller.ts:15-32 | the number is the one of the run's last reading: the counter is how often in a row that second was read |
| ReceiptNumbers.ClientReceiptController.FastUniqueId | src/app/clientReceipts/clientReceipts.controller.ts:61-71 | the do/while takes one reading and returns an unused number |
| ReceiptNumbers.ClientReceiptController.CreateReceipts | src/app/clientReceipts/clientReceipts.controller.ts:58-114 | one row per receipt with its branch and distinct numbers, or the error of the first bad receipt |
| JsonText.MembersInjective | src/app/locations/locations.repository.ts:41-50 | two objects with the same member names have the same JSON text only if their values are equal |
| LocationCache.EqualKeysIff | src/app/locations/locations.repository.ts:31-51 | two filter sets have the same key text if and only if they differ at most in an absent against a false minified |
| LocationCache.EqualKeysEqualQueries | src/app/locations/locations.repository.ts:115-214 | equal keys give equal query results on every database |
| LocationCache.ListedColumns | src/app/locations/locations.repository.ts:115-150 | which locations a list holds under which filters |
| LocationCache.ShownColumns | src/app/locations/locations.repository.ts:152-214 | what a list shows of a location and of the agents assigned to it |
| LocationCache.QueryColumns | src/app/locations/locations.repository.ts:152-214 | the answer is the asked-for stretch of all listed locations, latest first, with the number of pages it takes |
| LocationCache.ReadColumns | src/app/locations/locations.repository.ts:152-217 | a miss stores the answer under its key, an infinite page count as null, and a hit stores nothing |
| LocationCache.CreationColumns | src/app/locations/locations.repository.ts:53-103 | the row and the assignments a creation adds |
| LocationCache.PatchColumns | src/app/locations/locations.repository.ts:232-285 | what an update makes of every column of the location, and that no other row changes |
| LocationCache.UpdateColumns | src/app/locations/locations.repository.ts:232-285 | what an update needs and what it leaves alone |
| LocationCache.AssignOkIff | src/app/locations/locations.repository.ts:252-275 | when the given agents can be assigned |
| LocationCache.DeletionColumns | src/app/locations/locations.repository.ts:287-298 | a deletion takes exactly the location and what is assigned to it |
| LocationCache.ClearedColumns | src/app/locations/locations.repository.ts:98-101 | clearing takes exactly the keys that begin with "locations:" |
| LocationCache.HitIsExactIff | src/app/locations/locations.repository.ts:152-217 | the stored text reads back as the query's answer if and only if it is not a non-empty full list of size 0 |
| LocationCache.UpdateReplacesOwnAgents | src/app/locations/locations.repository.ts:252-275 | an update gives the caller's company exactly the given agents at the location and leaves all other assignments |
| LocationCache.StoringKeepsFresh | src/app/locations/locations.repository.ts:217 | storing an answer makes no other cached filter set wrong |
| LocationCache.StepKeepsFresh | src/app/locations/locations.repository.ts:53-298 | reads, creations, updates, deletions, their failures and expiries keep every cached page equal to the query on the current rows |
| LocationCache.RunReadsCurrentRows | src/app/locations/locations.repository.ts:53-298 | after any sequential run every read, hit or miss, answers from the current rows |
| LocationCache.AgentDeletionFreshIff | src/app/employees/employees.repository.ts:717-741 | deleting an employee leaves the cache right if and only if no cached page shows that agent and those asked for the agent's locations are empty |
| LocationCache.MutatedSplits | src/app/locations/locations.repository.ts:53-298 | a creation, update or deletion changes a list only in what the list shows of the written location |
| LocationCache.RemovalShowsIff | src/app/locations/locations.repository.ts:176-214 | a list without one row gives another page if and only if the page reaches the row's place or the stored page count changes |
| LocationCache.LateSetFreshIff | src/app/locations/locations.repository.ts:164-298 | a page stored after a creation, update or deletion keeps the cache right if and only if that write's row, and any row it moved, is not to be seen on the page and the page count stays |
| LocationCache.LateSetAfterDeletion | src/app/locations/locations.repository.ts:287-298 | a location deleted between a reader's query and its store is listed by the hits that follow |
| LocationCache.LocationsRepository.GetAllLocationsPaginated | src/app/locations/locations.repository.ts:105-220 | a hit or the query's answer, and the cache afterwards |
| LocationCache.LocationsRepository.CreateLocation | src/app/locations/locations.repository.ts:53-103 | rows and cache after creating, or nothing changed on an error |
| LocationCache.LocationsRepository.UpdateLocation | src/app/locations/locations.repository.ts:232-285 | rows and cache after updating, or nothing changed on an error |
| LocationCache.LocationsRepository.DeleteLocation | src/app/locations/locations.repository.ts:287-298 | the location and its assignments are gone and the keys cleared, or nothing changed on an error |

## Left out

- Reprice.Recompute: requires a listing other than the single empty id, on which the loop never ends (`Keyset.TerminatesIff`); the constant DRY_RUN is a parameter.
- ReportFlags.FlagStore.Backfill: requires the same, for the same reason.
- ReceiptNumbers.ClientReceiptController.CreateReceipts: requires a clock that never returns to a second, without which the do/while need not end; the row insert and the PDF are not modelled.
- ReceiptNumbers.RunDistinctIff: assumes one calendar year (`SameNumberIff` says what other years do), a fixed offset and readings after the first 10000 seconds of 1970.
- Commission.RunKeepsBooks: assumes requests do not overlap, reactivated reports still have all their orders and erased orders are unlinked; the lemmas beside it give the exact cost otherwise. The withdrawal transaction booked after a report is not modelled.
- LocationCache.RunReadsCurrentRows: sequential runs only; a minified list, which the query does not order, is taken in table order; a result is compared as a value, not as text.
- LocationCache.LateSetFreshIff: takes location ids as keys and assignments to name existing locations, as the schema has it.
- LocationCache.UpdateReplacesOwnAgents: takes the nested deletion to run before the nested creation, in the order the update writes them.
- ReceivingManager.SortAgentsSorts: the in-place sort is modelled on values. Names and phones shown beside the ids are left out.
- ReportFlags.FlagStore.ReconcileReportFlags: the recent-activity window is a given set of orders.
- OrderScope.BuildersAgreeIff: users belong to a company; administrators without one are not modelled. The tree's lists are padded to eight members.
- Wallets.RunSafe: hard deletion of a company, which deletes all its transactions, and of an employee, which clears the wallet's and the transactions' employee, are not steps; connecting a report to a transaction is taken to disconnect the one that had it; `getWallets`, targets and totals are not modelled.
- Settlement.OrdersTable.UpdateOrdersCosts2: COMPANY reports are not modelled, since the stored and the returned rows differ there.
- `getReceivingManagerReports`: a listing of the reports the dashboard already counts.
- `normalizeArabic` and `createOrderV2`: text replacement tables, and a loop over calls whose effects are elsewhere.
- `getAllOrdersPaginated` and the statistics filters: wide conditions without state.
- Isolation below one statement or transaction, floating point, real time zones, locale formatting and query engines.
- Routes, middlewares, validation, notifications, rendering and file handling.
