# Stratoclave's money machinery, modelled and proved

Stratoclave admits requests against a tenant's monthly budget. What makes that safe is a
set of small guarded writes on a key-value table, issued by many processes at once: the
request path, the settle path, the reaper of crashed requests, the fencer, the reconciler,
administrators, membership changes and the grant sweeper. This project states those writes
as Dafny steps, keeps a read and the conditional write computed from it as two separate
moments, and proves what every interleaving keeps.

Each component follows one pattern. A specification gives every write as a function on a
value. A class whose fields change in place carries one method per operation of the
original, and each method is proved to take exactly the specified step. Lemmas then prove,
over all runs, what the specification promises. The `Answers` modules say when each operation
gives each of its answers and what it then leaves, in terms of the stored figures and not of
the specification's own conditions.

| files | component |
|---|---|
| `PendingProtocol`, `PendingLedger`, `PendingRuns`, `PendingAnswers` | the reference PENDING protocol: status machine, its class, safety and recovery of every run, each step's answers |
| `MarkerItems`, `MarkerTable`, `MarkerRuns`, `MarkerAnswers`, `MarkerRecovery` | the shipped PENDING protocol: hold rows, marker items, transactions, reconcilers between their steps, when each write commits and how far a pool can be over, and the clean-up that is always possible |
| `PoolRow`, `PoolHistory`, `PoolLoops`, `PoolCommits`, `PoolAnswers` | the pool row: ceiling rule, every conditional write, histories with reads and writes apart, the compare-and-set loops and what their answers mean |
| `BillingRules`, `BillingLedger`, `PoolRefinement` | the abstract accounting machine, its class, and the pool row as a refinement of it |
| `CreditEvents`, `CreditRuns`, `CreditTable`, `CreditAnswers`, `CreditRecovery`, `DerivedTotals`, `CreditReconciliation` | the event-sourced ledger, its transactions, the settle's routing and which answer it gives when, the recovery of owed charges, the fold, and the fold against the counters |
| `GrantRows`, `GrantRuns`, `GrantAnswers` | limit-raise grants across two tables, and the cap on them |
| `TenantDefaults`, `SealRuns`, `TenantItem`, `TenantAnswers` | the per-user money default and its seal |
| `StreamRecords`, `LedgerProjector`, `ProjectorAnswers` | the at-least-once stream projector |
| `PricingStore`, `PricingConfig`, `PricingReads`, `PricingRuns` | immutable rate documents: the store, the writer, the loader over reads of any age, and runs of writers that race and crash |
| `SortKeys`, `HoldReaper` | the order of sort keys and the bounded reaper |
| `CeilingMigration`, `MigrationAnswers` | the migration of the pool row to the ceiling rule |
| `RateLimiter`, `LimiterRuns`, `LimiterAnswers` | the fixed-window rate limiter |
| `Sums`, `Options` | sums over finite maps; values that may be absent |

`dafny verify dfyconfig.toml` checks everything.

## How interleavings are modelled

- A write computed from an earlier read carries the row that was read. In a history
  (`PoolHistory.dfy`) that row must be what the row was at some earlier moment, however
  stale; anything may have landed since. The seal and the reconciler of markers are treated
  the same way, with every row ever stored remembered, or with a ticket held between steps.
- A compare-and-set loop is a method that takes the writes of all other processes as a
  plan: what lands before each of its reads and between each read and its write. The trace
  of a loop is the exact sequence of writes that lands while it runs.
- Time, clocks and the outcome of a network call are parameters. A crash is a step that is
  never taken.

## Where a promise holds only under a condition

Every condition below is proved, with a concrete run on the other side of it where there is one.

- The reference protocol oversells if a client activates a hold without having been told
  that its commit was committed (`UncheckedActivateOversells`); the reap of an ACTIVE hold is
  sound exactly when its debit had applied (`ReapSoundIff`). Breaking the rule that only a
  definite refusal may be marked failed does not oversell, but clean-up then empties the pool
  exactly when no debited hold was marked failed (`RecoveryLeavesTheFailed`,
  `LostReplyMarkedFailed`, `FailedDebitIsStranded`).
- The shipped commit does not look at the hold's status. Safety survives a debit that lands
  after the fence; recovery is full exactly when no such debit is left stranded
  (`RecoveryIsFullIff`, `LateCommitStrands`), and the background jobs can always finish
  (`RecoveryFinishes`). A hold id put again after it ended would have its
  amount returned twice (`RemintReturnsTwice`), which the permanent idempotency intent prevents.
- `pool_limit = baseline + granted` is kept by a write exactly under `KeepsIdentity`:
  the figure writers do not compare the seat rate, the seat delta's manual branch does not
  compare the figure, and the rate recompute writes `seats x rate` without the granted term.
  `RateMovesInsideASet`, `ClearInsideASeatDelta` and `GrantBeforeARecompute` are interleavings that
  break it. `assert_no_grants_present` scans before the rows are read, so it does not close the last.
- `reconcile_headroom` reads with the default, eventually consistent, read. Its comparison on
  the headroom value alone is still sufficient, even against a stale read, as long as one
  repair is in flight (`RepairIsRaceSafe`); two overlapping repairs can undo each other
  (`TwoRepairsClobber`), and in general the repair is right exactly when the row it writes to has
  the drift of the row it read (`HealHealsIff`).
- With the granted attribute absent, the cap condition of a grant tests nothing, so the
  caller's refusal of a negative difference is what bounds it (`CapHoldsIff`). With that refusal
  what is granted on a row is within the cap its latest approval read (`GrantedWithinLastCap`);
  a cap lowered since then takes nothing back.
- The fold `derived_totals` counts OWED_SETTLE rows and shadow RESERVE rows; the totals differ
  from the counters by exactly their sums, and by the holds that have no RESERVE event
  (`FoldRederivesCounters`). The settle's legacy branch can never commit for a recorded hold
  (`LegacyBranchIsDead`).
- Once the reaper is done, an owed charge is posted exactly when the reaper looked for the note
  after it was written, or the settler finished, or somebody else tried a late settle after
  the reclaim (`TheChargeIsPostedIff`). Both finishing is enough (`TheChargeIsRecovered`); a settler
  that stops between its note and its look can leave it unposted
  (`AStopBeforeTheLookLosesTheCharge`).
- Pruning of defaults is invisible when no writer's clock is ahead (`PruningNeverShows`). A setter
  of any clock that wrote on the row it read changes an earlier period's default exactly when
  the row had a later default up to its clock (`SetterLeavesPeriodIff`); from a stale reading the
  key in force is lost exactly when that reading had it and a later one in effect by that
  clock only (`KeyInForceIsLostIff`, `FastClockPrunesTheDefaultInForce`).
- A projector record without a sequence number that fails is dropped (`UnnumberedIsDropped`): a
  branch of the handler, not an observed input, since nothing here shows that the stream
  delivers such a record. One whose amount does not parse blocks its stream
  (`UnparseableBlocks`).
- The rate manifest compares only a row count, and checks nothing if the count is not found.
  With consistent reads that is enough (`ConsistentLoadsAreWhole`). The loader asks for none:
  neither the query of a version's rows nor the read of the count is a consistent read. Over
  reads of any age a load can only return the document exactly when it found the count and
  no row of the version is outside the document (`CurrentVersionLoadsWholeIff`). Otherwise one
  writer and a count read too early give an empty document (`UnseenCountLoadsNothing`), and two
  writers of one version give a mixture that neither wrote (`StaleReadsMixDocuments`).
- A document with an empty pricing key is accepted, made current and never readable again;
  without one, a load through consistent reads succeeds (`EmptyKeyIsAccepted`,
  `EmptyKeyIsUnreadable`, `LoadSucceedsIff`).
- Rows the reaper may not reclaim fill its page: it makes progress exactly when its page holds
  a reclaimable row (`PageReclaimsIff`), and a full page of rows it may not touch stops it for good
  (`BlockedPageStarves`).
- The ceiling migration moves no effective limit exactly under `LimitSurvives`. The cutover
  takes a seat count as proof of migration, so a `fixed` row that was given a seat count before
  the backfill reached it is neither repaired nor refused, and its ceiling becomes the seat
  term (`CountedFixedRowMoves`).
- The shared rate counter's key has no window length: one scope under two windows shares a
  counter and its expiry. The limit still holds in every run exactly when the other window's
  expiry, grace included, cannot come before the rule's own window is over, or the limit is at
  most one (`TwoWindowsShareACounterIff`, `TwoWindowsBreakTheBound`).

## Model

| member | source | states |
|---|---|---|
| PendingLedgers.PendingLedger.DoPutPending | backend/billing/pending_protocol.py:147-168 | a put inserts a PENDING hold once; a repeated id or a bad amount changes nothing |
| PendingLedgers.PendingLedger.DoCommitDebit | backend/billing/pending_protocol.py:170-220 | the commit debits pool and marker together, at most once, in each of the four outcomes and on replay |
| PendingLedgers.PendingLedger.Activate | backend/billing/pending_protocol.py:222-231 | PENDING becomes ACTIVE, or nothing happens; the debit is not checked |
| PendingLedgers.PendingLedger.DoReturnReservation | backend/billing/pending_protocol.py:233-258 | settle and release return a debited hold once, and raise rather than credit an undebited one |
| PendingLedgers.PendingLedger.ReapActiveExpired | backend/billing/pending_protocol.py:260-274 | an ACTIVE hold is credited and ended; any other is left |
| PendingLedgers.PendingLedger.FencePendingExpired | backend/billing/pending_protocol.py:276-281 | a PENDING hold is fenced without touching the pool |
| PendingLedgers.PendingLedger.MarkFailed | backend/billing/pending_protocol.py:283-295 | a PENDING hold is failed without touching the pool |
| PendingLedgers.PendingLedger.Reconcile | backend/billing/pending_protocol.py:297-321 | one loop recovers exactly the outstanding leak and retires every fenced hold |
| PendingLedgers.PendingLedger.CheckI1 | backend/billing/pending_protocol.py:133-145 | the check passes if and only if the counter is the sum of debited holds not given back |
| PendingLedgers.PendingLedger.LeakNow | backend/billing/pending_protocol.py:333-341 | the leak is the sum of debited holds that were fenced |
| PendingLedgers.PendingLedger.IsQuiescent | backend/billing/pending_protocol.py:343-346 | quiescent means no leak and nothing PENDING, both ways |
| PendingRuns.StepKeepsInv | backend/billing/pending_protocol.py:147-321 | every allowed step keeps the protocol's invariant |
| PendingRuns.NoOversell | backend/billing/pending_protocol.py:325-331 | in every run, whether or not clients keep the mark-failed rule, the counter is the sum of what is out, lies between zero and the limit the pool was opened with, and the oversell guard is never reached |
| PendingAnswers.CommitAnswers | backend/billing/pending_protocol.py:170-220 | in every reachable world: the answer to a replay, to a hold not PENDING and to each of the four outcomes, and a debit if and only if the write arrives, the pool is active and all that is out, with this hold, fits the limit |
| PendingAnswers.ReturnAnswers | backend/billing/pending_protocol.py:233-258 | when a settle or release returns, raises or does not apply, and what each leaves |
| PendingAnswers.MovesAnswer | backend/billing/pending_protocol.py:222-295 | the status moves act from PENDING alone and leave the pool; the reap acts from ACTIVE alone and credits it |
| PendingAnswers.ReconcileAnswers | backend/billing/pending_protocol.py:297-321 | hold by hold: fenced ones are retired and unmarked, others untouched, and the pool gets back what the fenced ones had out |
| PendingAnswers.QuiescentIff | backend/billing/pending_protocol.py:333-346 | in every reachable world: quiescent if and only if nothing is PENDING and no fenced hold is debited |
| PendingRuns.ReapSoundIff | backend/billing/pending_protocol.py:260-274 | reaping an ACTIVE hold keeps the invariant if and only if its debit had applied |
| PendingRuns.UncheckedActivateOversells | backend/billing/pending_protocol.py:222-231 | without the client rule a three-step run drives the counter negative |
| PendingRuns.ReconcileRecoversOnce | backend/billing/pending_protocol.py:297-321 | reconcile returns the leak, a second call nothing |
| PendingRuns.ProgressDecreases | backend/billing/pending_protocol.py:68-87 | statuses only fall in one order: a measure never rises and strictly falls with each transition |
| PendingRuns.RecoveryIsComplete | backend/billing/pending_protocol.py:276-346 | from the end of any legal run, fence, reap and one reconcile reach quiescence with an empty pool |
| PendingRuns.RecoveryLeavesTheFailed | backend/billing/pending_protocol.py:276-346 | from the end of any run in which the mark-failed rule may be broken, recovery leaves exactly the debited holds marked failed: an empty pool if and only if there are none |
| PendingRuns.LostReplyMarkedFailed | backend/billing/pending_protocol.py:170-295 | the run that makes one: the commit applies, its reply is lost, the client marks the hold failed |
| PendingRuns.FailedDebitIsStranded | backend/billing/pending_protocol.py:283-295 | a debited hold marked failed stays so, and out of the pool, whatever is done next |
| MarkerTable.BudgetTable.Reserve | backend/dynamo/tenant_budgets.py:1340-1402 | the transactional reserve debits and puts the hold, or does neither |
| MarkerTable.BudgetTable.ReserveCommit | backend/dynamo/tenant_budgets.py:1701-1754 | the commit point debits and puts the marker together; a marker already there wins over exhaustion |
| MarkerTable.BudgetTable.StatusTransition | backend/dynamo/tenant_budgets.py:1970-2003 | a status write lands only from the status it names |
| MarkerTable.BudgetTable.HoldRetain | backend/dynamo/tenant_budgets.py:2038-2074 | only an ACTIVE or status-less hold is retained, and no counter moves |
| MarkerTable.BudgetTable.EndReservation | backend/dynamo/tenant_budgets.py:2167-2223 | settle or release ends an ACTIVE, RETAINED or status-less hold with its share of the counters |
| MarkerTable.BudgetTable.ReclaimHold | backend/dynamo/tenant_budgets.py:2225-2260 | the reaper ends an ACTIVE or status-less hold only |
| MarkerTable.BudgetTable.PoolCreditBack | backend/dynamo/tenant_budgets.py:1898-1968 | a marker read RESERVED is credited once if it still is when the transaction lands, whatever landed in between |
| MarkerRuns.MovesAtMostOnce | backend/dynamo/tenant_budgets.py:1701-1754 | over every interleaving each amount is added at most once, returned at most once and never returned unless added; the counter is exactly what is out |
| MarkerRuns.LocalKeepsConsistent | backend/dynamo/tenant_budgets.py:1873-2074 | per hold: a fenced hold stays fenced and a marker stays, under every action of every actor |
| MarkerRuns.StepKeepsInv | backend/dynamo/tenant_budgets.py:1615-2260 | every enabled step of the shipped protocol keeps the invariant, reconcilers between their steps included |
| MarkerAnswers.CommitAnswers | backend/dynamo/tenant_budgets.py:1701-1754 | in every reachable world each of the commit's three answers has its condition both ways: it debits if and only if there is no marker, the pool is active and reserved + settled + amount is within the limit |
| MarkerAnswers.ReserveAnswers | backend/dynamo/tenant_budgets.py:1340-1402 | the same for the transactional reserve |
| MarkerAnswers.OvershootIsBounded | backend/dynamo/tenant_budgets.py:1340-1458 | in every interleaving reserved + settled is over the limit by at most what settles beyond their holds, spend without a hold and lowerings added since the last admission |
| MarkerAnswers.NoOversell | backend/dynamo/tenant_budgets.py:1701-1754 | without those, reserved + settled is within the limit at every moment |
| MarkerAnswers.StatusFollows | backend/dynamo/tenant_budgets.py:1970-2074 | every step moves its hold's status by one table and keeps its amount |
| MarkerAnswers.EndsIff | backend/dynamo/tenant_budgets.py:2167-2223 | a settle or release ends a hold, with its share of the counters, if and only if it is ACTIVE, RETAINED or without a status |
| MarkerAnswers.ReclaimsIff | backend/dynamo/tenant_budgets.py:2225-2260 | the reaper if and only if it is ACTIVE or without a status |
| MarkerAnswers.EndingTransactions | backend/dynamo/tenant_budgets.py:2167-2260 | the same of the transactions themselves, with whatever amounts their callers pass |
| MarkerAnswers.CreditsBackIff | backend/dynamo/tenant_budgets.py:1898-1968 | a reconciler returns exactly what was minted, if and only if the marker is still RESERVED when it writes |
| MarkerRuns.DrainedPool | backend/mvp/_pipeline.py:1725-1790 | once fencer, reaper and reconciler have nothing left, what is out is what is retained and what is stranded |
| MarkerRuns.RecoveryIsFullIff | backend/mvp/_pipeline.py:1725-1790 | with nothing retained the drained pool is empty if and only if no debit is stranded; a run without late debits strands none |
| MarkerRecovery.RecoveryFinishes | backend/mvp/_pipeline.py:1725-1790 | from every reachable world fence, reap and reconcile steps alone reach one with nothing left to do; without late debits only retained holds are then out |
| MarkerRuns.StrandedForever | backend/mvp/_pipeline.py:1742-1790 | no later step moves a stranded hold or its marker |
| MarkerRuns.LateCommitStrands | backend/dynamo/tenant_budgets.py:1717-1754 | a concrete run in which a debit lands after the fence and its amount stays out |
| MarkerRuns.RemintReturnsTwice | backend/dynamo/tenant_budgets.py:1701-1754 | putting an ended hold id again returns its amount twice |
| PoolHistories.IdentityKeptIff | backend/dynamo/tenant_budgets.py:791-1064 | on a balanced row a write keeps `limit = baseline + granted` if and only if its named condition holds |
| PoolHistories.WriteSlips | backend/dynamo/tenant_budgets.py:791-1167 | every write moves the identity's gap by exactly its stated slip |
| PoolHistories.GapAccounting | backend/dynamo/tenant_budgets.py:791-1167 | over any run the gap is the initial gap plus every landed slip |
| PoolHistories.IdentityOverHistories | backend/dynamo/tenant_budgets.py:139-180 | the identity holds at the end of every well-timed history of sets, clears, seat deltas, grants, recomputes, reserves, settles and seeds |
| PoolHistories.RollForwardKeepsBaseline | backend/dynamo/tenant_budgets.py:1195-1253 | a rolled-forward row is balanced, keeps mode, baseline and effective cap, and drops only the granted term |
| PoolHistories.RateMovesInsideASet | backend/dynamo/tenant_budgets.py:842-872 | a history in which the rate moves inside a set's window and the comparison passes |
| PoolHistories.ClearInsideASeatDelta | backend/dynamo/tenant_budgets.py:1010-1022 | a history in which a seat arrives without its money |
| PoolHistories.GrantBeforeARecompute | backend/migrations/pool_ceiling_migration.py:564-600 | a history in which a recompute loses a grant's amount from the ceiling |
| PoolHistories.RepairIsRaceSafe | backend/dynamo/tenant_budgets.py:1274-1333 | the repair's write leaves no drift if no other repair landed since its read, even a stale one, even if the value came back |
| PoolHistories.RepairIsRightIff | backend/dynamo/tenant_budgets.py:1274-1333 | one landed repair is right if and only if the drift it saw is the drift it lands on; the condition a caller can keep, one repair at a time, is in `RepairIsRaceSafe` |
| PoolHistories.HeadroomOverHistories | backend/dynamo/tenant_budgets.py:1340-1443 | `headroom = limit - reserved - settled` at the end of every history with one repair at a time |
| PoolHistories.RepairHealsForGood | backend/dynamo/tenant_budgets.py:1274-1333 | one landed repair heals any drift and it stays healed |
| PoolHistories.TwoRepairsClobber | backend/dynamo/tenant_budgets.py:1274-1333 | two overlapping repairs: the second undoes the first |
| PoolHistories.ReserveAdmittedIff | backend/dynamo/tenant_budgets.py:1340-1402 | after any such history a reserve is admitted if and only if the pool is active and reserved + settled + amount fits the limit |
| PoolHistories.AdmittedReserveFits | backend/dynamo/tenant_budgets.py:1340-1402 | an admitted reserve leaves reserved + settled within the limit |
| PoolLoops.PoolItem.SetManualLimit | backend/dynamo/tenant_budgets.py:791-889 | the loop leaves exactly the writes of its trace: the others' and at most one set or seed of its own, eight attempts |
| PoolLoops.PoolItem.ClearManualLimit | backend/dynamo/tenant_budgets.py:891-951 | the same for a clear |
| PoolLoops.PoolItem.AdjustPoolForSeatDelta | backend/dynamo/tenant_budgets.py:953-1064 | the same for a seat delta, its manual branch and its zero case |
| PoolLoops.PoolItem.ReconcileHeadroom | backend/dynamo/tenant_budgets.py:1274-1333 | the same for the headroom repair, whose reads may return any row at all |
| PoolCommits.CommittedLoop | backend/dynamo/tenant_budgets.py:791-1064 | a loop that reports success left what it asked for, added no gap and no drift, and touched neither counters nor granted term, if no recompute landed inside its windows |
| PoolCommits.LosingLandsNothing | backend/dynamo/tenant_budgets.py:1052-1064 | a seat delta or repair that gives up has landed nothing of its own |
| PoolCommits.AloneItCommits | backend/dynamo/tenant_budgets.py:819-889 | with nobody else writing, no operation gives up |
| PoolCommits.HealHeals | backend/dynamo/tenant_budgets.py:1295-1328 | a repair that returns normally leaves the headroom exact, whoever else wrote, if since each of its reads nobody else repaired |
| PoolCommits.HealHealsIff | backend/dynamo/tenant_budgets.py:1295-1328 | with no condition on the others or on the age of its reads: exact in the end if and only if the row it met has the drift of the row it read |
| PoolAnswers.LoopAnswers | backend/dynamo/tenant_budgets.py:953-1064 | whatever lands around a loop: `CountedOnly` means that the row read had an operator's figure, `Nothing` that there was no row or no seat to move, and nothing was written |
| PoolAnswers.CountedOnlyLeaves | backend/dynamo/tenant_budgets.py:1010-1022 | a seat delta that was counted only has moved the seats and nothing else |
| PoolAnswers.LoopReadsFigures | backend/dynamo/tenant_budgets.py:1010-1022 | every seats-only write of every loop carries a row read with a figure, as the timing hypothesis of `IdentityOverHistories` asks |
| PoolAnswers.AloneSeatDelta | backend/dynamo/tenant_budgets.py:1024-1064 | with nobody else writing, a seat on a row that follows its seats comes with its money in ceiling and headroom, and one on a row with a figure is counted only |
| PoolAnswers.AloneSetAndClear | backend/dynamo/tenant_budgets.py:791-951 | a set leaves the figure plus the granted term as ceiling, a clear seats times rate plus the granted term, headroom moved alike |
| PoolAnswers.AloneHeal | backend/dynamo/tenant_budgets.py:1274-1333 | a repair leaves headroom = limit - reserved - settled and all else |
| PoolAnswers.AloneRepairsFirst | backend/dynamo/tenant_budgets.py:829-841 | on a row without its headroom a set or clear repairs it first and goes on from the repaired row |
| PoolAnswers.RepairedStaysExact | backend/dynamo/tenant_budgets.py:829-889 | and leaves the headroom exact |
| PoolAnswers.LostRepairGivesUp | backend/dynamo/tenant_budgets.py:829-841 | a set or clear whose repair gives up gives up with it |
| PoolAnswers.TheCeilingIsAsComputed | backend/dynamo/tenant_budgets.py:842-889 | the comparisons make the ceiling a figure writer leaves the one it computed from the row it read |
| PoolAnswers.AloneOnNothing | backend/dynamo/tenant_budgets.py:819-840 | with no row a set seeds one, and nothing else does anything |
| BillingLedgers.BillingLedger.ReserveHold | backend/billing/ledger.py:97-111 | admits exactly under the ceiling and mints the next id |
| BillingLedgers.BillingLedger.SettleHold | backend/billing/ledger.py:113-131 | returns the hold and books the spend, overruns included |
| BillingLedgers.BillingLedger.ReapExpired | backend/billing/ledger.py:150-168 | the loop reclaims exactly the expired holds and returns their amounts |
| BillingRules.RunKeepsInv | backend/billing/ledger.py:64-175 | in every run the headroom identity holds and reserved is the sum of the live holds |
| BillingRules.EndedStaysEnded | backend/billing/ledger.py:113-168 | a hold that ended is never settled, released or reaped again |
| BillingRules.ReapIsARun | backend/billing/ledger.py:150-168 | reaping the pool is reaping its holds one by one, in any order |
| BillingRules.OvershootIsBounded | backend/billing/ledger.py:116-131 | reserved + settled exceeds the limit by at most the overruns and lowerings since the last admitted reserve |
| PoolRefinement.StepRefines | backend/dynamo/tenant_budgets.py:1340-1443 | each transaction or ceiling write on the row is one step of the accounting machine, or none |
| PoolRefinement.SameAdmission | backend/dynamo/tenant_budgets.py:1382-1400 | the row's gate admits if and only if the machine's ceiling check does and the pool is active |
| PoolRefinement.RunRefines | backend/billing/ledger.py:1-36 | every run of transactions is a run of the accounting machine |
| PoolRefinement.RowCountsItsHolds | backend/billing/ledger.py:64-175 | so the row's reserved counter is the sum of its open holds after any run |
| PoolRefinement.SeededPoolKeepsItsPromises | backend/dynamo/tenant_budgets.py:706-789 | from any seed, over any run: a matching run of the machine, its invariant, and the bound on how far the row is over its limit |
| CreditEvents.KeysNeverAlias | backend/dynamo/credit_ledger.py:81-128 | no two records share a sort key, whatever the hold ids contain |
| CreditRuns.StepKeepsInv | backend/dynamo/credit_ledger.py:214-569 | every transaction keeps counters, holds and ledger in agreement |
| CreditRuns.OneChargePerHold | backend/dynamo/credit_ledger.py:81-104 | a late settle stands only beside a RECLAIM, so a hold is charged from one observation; its reserved deltas sum to what it still holds |
| CreditRuns.TerminalIsFinal | backend/dynamo/credit_ledger.py:380-387 | after a terminal no settle, release, reclaim or legacy settle commits |
| CreditRuns.RowsAreForever | backend/dynamo/credit_ledger.py:380-387 | a row, once written, never changes |
| CreditRuns.LateSettleChargesOnce | backend/dynamo/credit_ledger.py:389-487 | a settle that lost to a reclaim is charged its figure once: after any transactions by anybody the charge stands, and a second late settle changes nothing |
| CreditRuns.LegacyBranchIsDead | backend/mvp/_pipeline.py:6596-6650 | the settled-only fallback never commits for a hold with a RESERVE event |
| CreditTables.CreditTable.SettleReservation | backend/mvp/_pipeline.py:6456-6650 | the settle with its retries, its routing of a refusal, its late attempts and its owed note lands exactly the transactions of its trace among everybody else's, and answers as the trace says |
| CreditTables.TheAnswerIsTrue | backend/mvp/_pipeline.py:6456-6650 | whatever lands around it, each answer of a settle says what the tables hold: charged at its figure, charged late, ended otherwise, or noted as owed |
| CreditTables.RecordedNeverFallsBack | backend/mvp/_pipeline.py:6596-6650 | a settle of a hold with a RESERVE event never takes the settled-only fallback, whatever lands around it |
| CreditAnswers.TheAnswerIsDecided | backend/mvp/_pipeline.py:6456-6680 | the tables at a settle's first clear attempt decide its answer and exactly what lands: booked, recovered late, refused as external, final, released or fallen back |
| CreditAnswers.AbandonedIff | backend/mvp/_pipeline.py:6456-6700 | a settle gives up, with its note as its only write, if and only if all four attempts were cancelled transiently |
| CreditAnswers.LateIsDecided | backend/mvp/_pipeline.py:5512-5670 | a late settle is booked if and only if one of four attempts is clear and meets no late settle; with none clear it writes nothing |
| CreditAnswers.ExternalIsNeverLate | backend/mvp/_pipeline.py:6525-6545 | an external settle is never charged late; after a RECLAIM it leaves the tables as the others did |
| CreditAnswers.OpenIsBooked | backend/mvp/_pipeline.py:6456-6480 | an open hold with one clear attempt is booked: its reservation returned, its figure settled, the hold gone |
| CreditTables.CreditTable.EndTransaction | backend/mvp/_pipeline.py:735-800 | counters, hold and terminal end together or not at all, for settle, release and reclaim |
| CreditTables.CreditTable.LateSettleTransaction | backend/mvp/_pipeline.py:5539-5570 | a late settle commits once, and only against a RECLAIM |
| CreditTables.CreditTable.PutOwedSettle | backend/dynamo/credit_ledger.py:749-798 | the first observation is kept |
| CreditTables.CreditTable.PutRetainedRecord | backend/dynamo/credit_ledger.py:689-734 | a retention is recorded once and moves nothing |
| CreditRecovery.TheChargeIsRecovered | backend/mvp/_pipeline.py:1194-1235 | in every interleaving of an abandoned settle, a reclaim and any other transactions, the same hold's included, once both have looked an owed charge is posted, at the figure first noted unless somebody else's late settle came first |
| CreditRecovery.TheChargeIsPostedIff | backend/mvp/_pipeline.py:1194-1235 | with the reaper done, an owed charge is posted if and only if its look came after the note, or the settler finished, or another late settle was tried after the reclaim |
| CreditRecovery.AStopBeforeTheLookLosesTheCharge | backend/mvp/_pipeline.py:1194-1203 | the run on the other side: reclaim, look, note, stop |
| DerivedTotals.Derive | backend/dynamo/credit_ledger.py:927-1007 | the paged walk computes the fold of the concatenated pages |
| CreditReconciliation.FoldOfListing | backend/dynamo/credit_ledger.py:957-1000 | the fold depends on the ledger's contents only, not on the order of its rows |
| CreditReconciliation.FoldRederivesCounters | backend/dynamo/credit_ledger.py:927-1007 | the three totals equal the three counters up to owed notes, shadow rows and unrecorded holds, each as an exact sum |
| CreditReconciliation.FreshRunsReconcile | backend/dynamo/credit_ledger.py:927-1007 | from an empty pool, over every run, order and page cut: exact but for owed notes and shadow rows |
| GrantRows.QuotaEvents.ApproveRequest | backend/mvp/grants.py:1291-1470 | the checks on amount, row, status and cap, then deciding the request, putting the grant and raising the row together or not at all |
| GrantRows.QuotaEvents.EndGrant | backend/dynamo/quota_events.py:446-491 | a grant ends and its capacity goes back in one transaction, compared on status and amount |
| GrantRows.QuotaEvents.BumpRevokeAttempts | backend/dynamo/quota_events.py:500-522 | counts an attempt on an ACTIVE grant only |
| GrantRows.QuotaEvents.MarkRevokeBlocked | backend/dynamo/quota_events.py:524-574 | blocks an ACTIVE grant at the attempt bound and takes it out of the index, pool untouched |
| GrantRows.QuotaEvents.ClearRevokeBlock | backend/dynamo/quota_events.py:576-613 | restores status, index and attempt count, pool untouched |
| GrantRuns.GrantedIsTheSum | backend/mvp/grants.py:339-355 | in every run each row's granted term is the sum of the ACTIVE and REVOKE_BLOCKED grants pinned to it; the index attribute is there exactly when ACTIVE |
| GrantRuns.SubtractedAtMostOnce | backend/dynamo/quota_events.py:446-491 | each grant is taken off its row at most once, exactly once iff it ended |
| GrantRuns.FloorNeverRefuses | backend/dynamo/tenant_budgets.py:1132-1167 | the floor condition never refuses the revoke of a live grant |
| GrantRuns.PinnedForLife | backend/dynamo/quota_events.py:374-444 | target, amount and request of a grant never change and an ending is final |
| GrantRuns.OneGrantPerRequest | backend/dynamo/quota_events.py:319-369 | a request is decided once: one grant at most |
| GrantRuns.BlockedThenRepaired | backend/dynamo/quota_events.py:524-613 | block and unblock move no money; blocked refuses every revoke, cleared accepts it |
| GrantRuns.CapHoldsIff | backend/dynamo/tenant_budgets.py:1082-1130 | an approval stays within the cap if and only if the attribute was there or the amount alone fits |
| GrantAnswers.ApprovedIff | backend/mvp/grants.py:1376-1470 | an approval commits if and only if it is well asked, its request is pending as read, its grant id is new and the live grants of the row, with this one, fit the cap of the row that was read |
| GrantAnswers.RefusedIff | backend/mvp/grants.py:1380-1485 | when it is refused for the cap and when for a request decided meanwhile |
| GrantAnswers.ApprovalRaises | backend/dynamo/tenant_budgets.py:1082-1130 | limit, headroom and granted term rise together by the amount; a refused approval leaves everything |
| GrantAnswers.GrantedWithinLastCap | backend/dynamo/tenant_budgets.py:1092-1100 | over every run, whatever the age of the rows read, what is granted on a row is within the cap its latest committed approval read |
| GrantAnswers.OneCapHolds | backend/dynamo/tenant_budgets.py:198-213 | so with one cap nothing is ever granted over it |
| GrantAnswers.DecidedIff | backend/dynamo/quota_events.py:319-369 | a request is decided if and only if it is pending at the revision read |
| GrantAnswers.EndedIff | backend/dynamo/quota_events.py:446-491 | a grant ends if and only if it is ACTIVE with the amount read, and its amount leaves limit, headroom and granted term |
| GrantAnswers.FloorHolds | backend/dynamo/tenant_budgets.py:1132-1167 | taking a grant off a row never leaves its granted term below zero |
| GrantAnswers.CountedIff | backend/dynamo/quota_events.py:500-522 | an attempt is counted, and the new count answered, if and only if the grant is ACTIVE |
| GrantAnswers.BlockedIff | backend/dynamo/quota_events.py:524-574 | a grant is blocked if and only if it is ACTIVE and has used its attempts |
| GrantAnswers.ClearedIff | backend/dynamo/quota_events.py:576-613 | clearing a block undoes it, with no attempts used |
| TenantItems.TenantItem.SetUserDollarDefault | backend/dynamo/tenants.py:435-542 | the setter's loop leaves exactly its trace and answers as the trace says |
| TenantItems.TenantItem.SealUserDollarBase | backend/dynamo/tenants.py:544-630 | the same for the sealer |
| TenantItems.ResolveUserDollarDefault | backend/dynamo/tenants.py:674-682 | the default with the greatest key at or before the period |
| TenantItems.DefaultsPeriodsToPrune | backend/dynamo/tenants.py:713-725 | every key in effect but the latest |
| TenantItems.SealerReturnsTheSeal | backend/dynamo/tenants.py:565-626 | a value returned is the seal on the row at the return |
| TenantItems.SetterWritesOnce | backend/dynamo/tenants.py:469-538 | an accepted setter landed one write, read from a row of the run, on a row with no seal for the period |
| TenantAnswers.SealerAnswers | backend/dynamo/tenants.py:544-630 | whatever lands around a sealer: absent means no tenant, or no seal and no default in effect on the row read; a value is the seal read or the default it sealed |
| TenantAnswers.SealedIsAnswered | backend/dynamo/tenants.py:568-571 | a sealed period is answered its seal |
| TenantAnswers.SealerAlone | backend/dynamo/tenants.py:565-626 | alone, an unsealed period with a default is answered it and sealed at it, and seals within the horizon stay |
| TenantAnswers.SealLandsIff | backend/dynamo/tenants.py:580-606 | when a seal's write lands |
| TenantAnswers.SetterAnswers | backend/dynamo/tenants.py:435-542 | a refusal saw a seal, and each other answer what it says |
| TenantAnswers.SetterAlone | backend/dynamo/tenants.py:469-538 | alone, an unsealed period is set, the version counts it, and of the defaults only the superseded go |
| TenantAnswers.SetLandsIff | backend/dynamo/tenants.py:478-512 | when a setter's write lands |
| SealRuns.StepKeepsInv | backend/dynamo/tenants.py:435-630 | every setter and sealer write keeps the invariant, with stale reads and slow clocks |
| SealRuns.PruningNeverShows | backend/dynamo/tenants.py:700-725 | from now on every period resolves as from the whole history |
| SealRuns.SealFixesWhatIsInForce | backend/dynamo/tenants.py:551-561 | a seal commits the default in force at that instant |
| SealRuns.NoAcceptedDefaultIsLost | backend/dynamo/tenants.py:551-561 | a period with an accepted default is sealed at it |
| SealRuns.SetterComesBeforeSeal | backend/dynamo/tenants.py:445-449 | a setter lands for a period only before any seal of it |
| SealRuns.SealNeverChanges | backend/dynamo/tenants.py:544-630 | within the retention horizon a seal never changes, over any run |
| SealRuns.ReturnsAgree | backend/dynamo/tenants.py:544-552 | every seal anyone ever read for a period is the same |
| SealRuns.NewTenantRun | backend/dynamo/tenants.py:435-630 | the invariant holds at the end of every run from a new tenant |
| SealRuns.SetterLeavesPeriodIff | backend/dynamo/tenants.py:713-725 | a setter of any clock leaves an earlier period's default alone if and only if the row had none there, or no default after the period and up to the clock |
| SealRuns.KeyInForceIsLostIff | backend/dynamo/tenants.py:713-725 | from any reading, however stale, the key in force is lost if and only if the reading had it and a later key that is in effect by the setter's clock only |
| SealRuns.FastClockPrunesTheDefaultInForce | backend/dynamo/tenants.py:713-725 | a run from a new tenant in which a setter whose clock is ahead removes the default in force |
| SortKeys.PeriodOrder | backend/dynamo/tenants.py:693-697 | comparing period texts compares months |
| LedgerProjector.Projector.Handler | backend/billing/ledger_projector.py:142-220 | the batch loop writes and reports exactly what the specification does, fault by fault |
| LedgerProjector.AppliedIsAPrefixPerKey | backend/billing/ledger_projector.py:142-220 | after a failure no later record of the key is applied and each is reported |
| LedgerProjector.EveryScheduleConverges | backend/billing/ledger_projector.py:9-21 | redelivery until nothing is left ends in one table for every schedule of faults: one event per enriched hold |
| LedgerProjector.DeliveryIsSound | backend/billing/ledger_projector.py:142-220 | at any point nothing was invented or changed, and every passed record is there |
| LedgerProjector.FaultFreeRoundCompletes | backend/billing/ledger_projector.py:142-220 | one round without faults completes the stream |
| LedgerProjector.UnparseableBlocks | backend/billing/ledger_projector.py:47-49 | a record that cannot be parsed is never passed |
| LedgerProjector.UnnumberedIsDropped | backend/billing/ledger_projector.py:214-219 | a failing record without a sequence number is lost: a branch of the handler, not an observed input |
| StreamRecords.DerivesIff | backend/billing/ledger_projector.py:61-86 | which records derive an event, and which cannot be parsed, attribute by attribute |
| StreamRecords.DerivedEventIsTheHolds | backend/billing/ledger_projector.py:88-120 | the event's cell, hold, run, amount and details are the hold's own |
| StreamRecords.AmountReadsBack | backend/billing/ledger_projector.py:47-49 | an amount written as a number is read back as that number |
| ProjectorAnswers.FailedIff | backend/billing/ledger_projector.py:177-220 | a record of a batch fails if and only if one of its key failed before it, it cannot be parsed, or its write faulted |
| ProjectorAnswers.BatchWritesIff | backend/billing/ledger_projector.py:186-214 | a batch fills exactly the cells of records whose turn came and whose write worked or was applied all the same |
| ProjectorAnswers.ReportedIff | backend/billing/ledger_projector.py:214-220 | the report is the numbers of the failed records that have one |
| ProjectorAnswers.CheckpointIsFirstReported | backend/billing/ledger_projector.py:9-21 | delivery resumes at the first number reported |
| PricingStore.QueryIsOneVersion | backend/dynamo/pricing_config.py:272-287 | the prefix query of a version picks up that version's rows only |
| PricingStore.RatesAreImmutable | backend/dynamo/pricing_config.py:230-240 | no sequence of puts changes or removes a rate row or a manifest |
| PricingConfigs.PricingConfig.SetRates | backend/dynamo/pricing_config.py:241-413 | complete and current when finished, refusals and conflicts as coded, nothing existing changed, among any other writers; an acceptable document that nobody contradicts is finished |
| PricingConfigs.RefusedUpFrontIff | backend/dynamo/pricing_config.py:267-302 | a document is refused before anything is written for exactly these mistakes in its version, keys, costs and default |
| PricingConfigs.AcceptedDocumentsAreApart | backend/dynamo/pricing_config.py:267-302 | accepted documents of different versions never meet in a query, and every cost passed is on its row |
| PricingStore.ValidIff | backend/dynamo/pricing_config.py:64-112 | a rate is valid if and only if none of its legs is negative |
| PricingReads.LoadRates | backend/dynamo/pricing_config.py:130-187 | the page walk returns the pages' rows, or refuses for an empty key or a count that differs |
| PricingReads.LoadIsTheDocument | backend/dynamo/pricing_config.py:130-207 | through consistent reads, a load that succeeds is the document of every writer whose manifest check had passed when it began |
| PricingReads.TwoDocumentsAreRefused | backend/dynamo/pricing_config.py:189-207 | two passed documents with different keys: every load through consistent reads refuses |
| PricingReads.EmptyKeyIsUnreadable | backend/dynamo/pricing_config.py:152-156 | once a document with an empty key is written, every load through consistent reads refuses |
| PricingReads.EmptyKeyIsAccepted | backend/dynamo/pricing_config.py:241-302 | and no check before the writing refuses an empty key |
| PricingReads.LoadSucceedsIff | backend/dynamo/pricing_config.py:130-207 | with no row outside the document, every load through consistent reads returns the document, or refuses if and only if the empty key is in it |
| PricingReads.StaleLoadIsTheDocument | backend/dynamo/pricing_config.py:146-207 | however stale the pages, with the count found and no foreign row a load that succeeds is the document |
| PricingRuns.StepKeepsInv | backend/dynamo/pricing_config.py:241-413 | with writers stopped anywhere, a version made current has a complete document |
| PricingRuns.CurrentVersionLoadsWholeIff | backend/dynamo/pricing_config.py:146-207 | reads of any age: of a version written in this run, every load that succeeds is the document if and only if it found the count and no row of the version is outside the document (for a document with no rows, either) |
| PricingRuns.ConsistentLoadsAreWhole | backend/dynamo/pricing_config.py:304-413 | through consistent reads, a load of a current version, during any steps of any writers, returns the whole document or refuses |
| PricingRuns.UnseenCountLoadsNothing | backend/dynamo/pricing_config.py:189-207 | one writer, no crash: a load that read the count too early takes nothing at all for the document |
| PricingRuns.StaleReadsMixDocuments | backend/dynamo/pricing_config.py:146-176 | a run of two writers of one version, both passed, and a load over earlier moments of it whose count matches a document nobody wrote |
| SortKeys.HoldOrderIsExpiryOrder | backend/dynamo/tenant_budgets.py:440-452 | key order is expiry order for ten-digit epochs |
| SortKeys.CeilingIsExpiry | backend/dynamo/tenant_budgets.py:455-462 | the scan's ceiling admits a hold if and only if its expiry has come |
| SortKeys.ScanStaysInPeriod | backend/dynamo/tenant_budgets.py:2281-2287 | the scan's range holds only this period's hold rows |
| HoldReaper.ScanReturnsTheOldestExpired | backend/dynamo/tenant_budgets.py:2262-2289 | only expired holds, oldest first, none older left out |
| HoldReaper.HoldTable.SweepOnePeriod | backend/mvp/_pipeline.py:1481-1537 | one sweep leaves and reclaims exactly what the specification says, counters included |
| HoldReaper.TheBacklogDrains | backend/mvp/_pipeline.py:1481-1537 | a reclaimable backlog is gone after as many sweeps as it has caps, each hold returned once |
| HoldReaper.NoFewerSweeps | backend/mvp/_pipeline.py:1481-1537 | and not sooner |
| HoldReaper.PageReclaimsIff | backend/mvp/_pipeline.py:1510-1525 | a sweep reclaims something if and only if its page has a reclaimable hold |
| HoldReaper.SweepGoesByStatus | backend/mvp/_pipeline.py:1510-1537 | a sweep reclaims only ACTIVE holds and holds without a status, of a positive amount, and leaves every other hold as it was |
| HoldReaper.BlockedPageStarves | backend/mvp/_pipeline.py:1523-1525 | a full page of expired rows it may not touch is never passed: any number of sweeps at any later times, whatever arrives or goes behind it, reclaim nothing |
| CeilingMigration.LimitSurvivesIff | backend/migrations/pool_ceiling_migration.py:197-472 | M1, any passes of M2, and M3 keep a row's effective limit if and only if the row meets the stated condition |
| CeilingMigration.MigrationMovesNoLimitIff | backend/migrations/pool_ceiling_migration.py:11-13 | over a whole table and any passes of M2, each row keeps its effective limit if and only if it meets that condition |
| CeilingMigration.BackfillLandsRight | backend/migrations/pool_ceiling_migration.py:325-364 | a backfill that lands agrees with the rule however stale its scan |
| CeilingMigration.BackfillIsIdempotent | backend/migrations/pool_ceiling_migration.py:358-364 | a second pass of the backfill over a row it reached changes nothing |
| CeilingMigration.ModeSurvivesIff | backend/migrations/pool_ceiling_migration.py:253-288 | when a seat-tracked row is still one afterwards |
| CeilingMigration.CountedFixedRowMoves | backend/migrations/pool_ceiling_migration.py:444-447 | a fixed row already counted, missed by the backfill, changes its ceiling at the cutover |
| CeilingMigration.CutoverRefusesWhileAdjudicated | backend/migrations/pool_ceiling_migration.py:436-442 | a row nobody could classify stays and makes the cutover refuse |
| MigrationAnswers.ClassifiedIff | backend/migrations/pool_ceiling_migration.py:253-288 | each of the four decisions about a row, both ways, with whole seat counts as products |
| MigrationAnswers.BackfillLandsIff | backend/migrations/pool_ceiling_migration.py:325-364 | the comparison of the backfill's write |
| MigrationAnswers.ReachedRow | backend/migrations/pool_ceiling_migration.py:330-364 | what a pass that reaches a row writes, and that nothing else moves |
| MigrationAnswers.SeededAndCutOver | backend/migrations/pool_ceiling_migration.py:197-247 | the seeded rate and the cutover's figure, row by row |
| MigrationAnswers.AbortedRows | backend/migrations/pool_ceiling_migration.py:220-247 | a seeding that lost a race: rows before it seeded, its row at the other's rate, the rest as they were |
| CeilingMigration.BudgetRows.PhaseM1 | backend/migrations/pool_ceiling_migration.py:197-247 | seeds absent rates in place and records the rate, or refuses; a seed that another process got in before stops the phase there, rate unrecorded |
| CeilingMigration.BudgetRows.PhaseM2 | backend/migrations/pool_ceiling_migration.py:291-376 | backfills every row its comparison wins and lists exactly the unclassifiable ones |
| CeilingMigration.BudgetRows.PhaseM3 | backend/migrations/pool_ceiling_migration.py:416-469 | refuses if and only if a grant or an unclassifiable row is there, else repairs stragglers |
| RateLimiter.LocalWindows.OverLimit | backend/core/rate_limit_ddb.py:135-154 | prunes, counts and compares |
| RateLimiter.Limiter.Check | backend/core/rate_limit_ddb.py:234-285 | shared count, refusal or local fallback by the way the write answers |
| RateLimiter.LiveWindowsAreNeverForgotten | backend/core/rate_limit_ddb.py:135-154 | a live window's local count is the number of its calls, whatever was pruned |
| RateLimiter.VerdictIsTheCount | backend/core/rate_limit_ddb.py:150-154 | the local verdict is over if and only if that number plus this call exceeds the limit |
| RateLimiter.PruningTakesTheEnded | backend/core/rate_limit_ddb.py:143-149 | a map of more than 4096 windows loses exactly those that have ended, a smaller one none |
| RateLimiter.PruningBoundsTheMap | backend/core/rate_limit_ddb.py:121-149 | a task's map has at most 4097 windows, or only live ones |
| LimiterAnswers.TheVerdictIsTheCount | backend/core/rate_limit_ddb.py:234-285 | over every run, a call is admitted if and only if the calls its window has counted, with it, are within the limit; a refusal counts nothing |
| LimiterRuns.WindowBound | backend/core/rate_limit_ddb.py:118-125 | one window admits at most the limit through the shared counter and limit x (tasks + 1) in all |
| LimiterRuns.IntervalBound | backend/core/rate_limit_ddb.py:16-19 | any interval of one window's length admits at most twice that; twice the limit without outages; other windows on the scope are admitted where they do no harm |
| LimiterRuns.TwoWindowsShareACounterIff | backend/core/rate_limit_ddb.py:242-252 | beside a second window on its scope a rule keeps its limit in every run if and only if that window's expiry plus grace cannot end before its own window, or the limit is at most one |
| LimiterRuns.TwoWindowsBreakTheBound | backend/core/rate_limit_ddb.py:242-252 | otherwise a run from an empty table in which one window admits one less than twice the limit |

## Left out

- The DynamoDB client, pagination tokens as data, ISO timestamps, logging, metrics and environment reads: only atomic guarded steps, an explicit clock and parameters remain.
- Throttling and transport errors: a step that did not happen, or one of the ambiguous outcomes the code names.
- Deletion of pool rows and of tenants: a pool row, once seeded, stays.
- A marker store spans one tenant and period; markers of another period and the age test of the orphan-marker audit are not modelled, only that a marker is cleaned up when its hold row is gone.
- Expiry of SETTLED markers by TTL: assumed to outlive every retry.
- Holds of zero or negative amount in the shipped PENDING protocol; the reaper's deletion of them is modelled in `HoldReaper.dfy` only.
- Numbers in stream images other than plain decimal integers, which that store does not hold.
- Outcome strings of the reference commit other than the four it documents.
- The reference fence's timeout argument, which that code ignores.
- `settle_txn_item` as a fragment on its own has no condition; the pool update the pipeline composes requires the row to exist, and that is what is modelled.
- Per-user counters that ride along in the same transactions, and the rating arithmetic that produces an amount.
- The hard-limit check on a maximum pool size, the boot-time rate check and rate recording on the settings row.
- The reaper's switch that retains an unobserved hold instead of returning it: `HoldReaper.dfy` has RETAINED rows but not the transition, which `MarkerRuns.dfy` has.
- Concurrent endings inside one sweep of the reaper; they are interleaved in `MarkerRuns.dfy` and `CreditRuns.dfy`.
- Seat count equal to active memberships: the code does not promise it.
- Listing and inventory queries of grants, limit-raise submission and its daily slot, authority checks; of an approval, its window, its comment, the closing of a request of an earlier period and the per-user wall.
- The projector's reconciler report and its lag budget.
- Whole-value checks of a rate on read: rows are taken as written, with all four legs, and only a missing key is read as damage.
- Report-only and dry-run output of the migration phases, and the deletion of `sizing`.
- The async decorators of the limiter, and parsing of its specification strings.
- CreditTables.CreditTable.SettleReservation: takes a refusal and the read of the terminal that follows it as one moment; a terminal never changes (`RowsAreForever`) and a hold id is never put again, so a settle refused then is refused when it reads. Others may land before each attempt, after the read and before each late attempt.
- CreditRecovery.TheChargeIsPostedIff: one settler's note and one reaper's reclaim of the hold; everything else about the hold may be written by anybody.
- PoolHistories.IdentityOverHistories: takes the timing of the windows as a hypothesis, because the writes do not compare the seat rate or the figure; `IdentityKeptIff` gives the exact condition write by write.
- SealRuns.SealNeverChanges: within the retention horizon, because a pruned seal may be made again.
- LimiterRuns.IntervalBound: clocks that agree, and other windows on the scope only where they coexist with the rule's; `TwoWindowsShareACounterIff` gives that condition both ways for the shared counter.
