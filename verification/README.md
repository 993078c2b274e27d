# A verified model of the options trader's safety kernel

The program runs a cycle every few minutes. A cycle reads the broker, brings its order ledger up to
date, moves the daily-loss control, repairs or reprices working orders, submits closes, compiles option
structures from quotes, lets a model pick one, and lets a deterministic risk engine decide whether and in
what size it may be opened. This project models that kernel and proves what it guarantees.

| file | what it holds |
|---|---|
| `Common`, `Money`, `Schemas`, `Clock`, `Orders` | shared types; cent rounding; the calendar; order rows and statuses |
| `Options` | payoff of a structure at expiry, and when its declared loss bounds it |
| `Candidates`, `Ranking`, `Compiler` | the structure compiler, the order of its report, and what every compiled structure satisfies |
| `Execution`, `Repricing` | repricing, close pricing and exits, and what they add up to over an order's life |
| `Events`, `Holding` | scheduled releases and holding intervals |
| `Risk`, `Sizing` | the risk engine, and the exactness and antitonicity of its sizing |
| `Inventory`, `ReconcileLaws` | matching signed broker positions to multi-leg structures |
| `Ledger`, `Repository` | the order tables as a value, and the class that updates them in place |
| `Lifecycle`, `LifecycleLaws`, `EntryLaws`, `BoundaryLaws`, `Service` | one maintenance pass as a transition, what it keeps, what it leaves working, what it closes at the session boundary, and the loops that run it |
| `Equity` | the stored equity marks and the session figures read from them |
| `DailyLoss` | the daily-loss control, its rows and its mark check |
| `Policy` | which candidates enter the auction |
| `Cycle`, `CycleLaws`, `AuthorityLaws`, `SessionLaws`, `ExposureLaws`, `BoundaryRunLaws`, `ChainLaws`, `Agent` | one whole cycle, theorems over every run of cycles, and the service object that runs it |
| `Scheduler` | any number of schedulers sharing one lease |
| `Folds` | drawdown and reconstructed fill price |

Code that updates state in place is a class or a method with loops (`AuditRepository`,
`BrokerInventory`, `LossControlTable`, `EquityHistory`, `LifecyclePass`, `AgentService`, `LeaseTable`), and each such
method is proved to leave exactly what a function of the old state says. The theorems are lemmas about
those functions, so `AgentService.RunCycle` inherits every theorem about `Cycle.RunCycle`.

## Conventions

Dollar amounts are `real`; rounding to a cent is `Money.RoundCent`. Times are integer seconds UTC, and New
York is four hours behind UTC, as on every date the program runs. A client order id is the tuple the
program hashes, so hashing is taken to be injective; the broker's own id for an order is identified with
it. What comes from outside (broker answers, quotes, the model's choice) is an argument: a missing answer is
a raised exception, and it ends the cycle as it does in the program.

Runs are sequences of cycles and operator switches, and theorems over runs quantify over all of them: they
are about cycles that happen one after another. Nothing in the program enforces that beyond the lease.
`Scheduler.CyclesExcludeIff` gives the exact condition under which interleaved schedulers stay apart (no
lease is taken over while its holder is still inside), `Scheduler.TimelyCyclesExclude` derives it from
cycles ending before their lease expires, and `Scheduler.CyclesCanOverlap` shows that it can fail.

Runs start from a sound ledger (`CycleLaws.Sane`; where order ids matter, one whose orders all belong to begun
cycles, `BoundaryRunLaws.KeysBegun`; the empty ledger is both), and stay sound.

`CycleLaws.Honest` is everything asked of the outside world: a fresh run identifier; between cycles orders
only end; every order that may still execute is listed by the broker with a working status; and a polled
order is unfinished only if it may still execute.

Where the program's design document and its code differ the code is followed. Examples: the document gives an
8% drawdown stop in one place, the code 12%; it gives sizing tiers of 1.5% and 4%, the code 3% and 6%; it asks
for a neutral or opposite signal before a stopped setup returns, and `Policy.AdmittedAfterStopIff` and
`Policy.ReadmittedWithoutReset` show that the code does not need one.

Properties that turn out false carry a concrete input and the exact condition.

- A geometry check that accepts a condor does not bound its loss (`Options.CrossedCondorLosesMore`,
  `Options.CondorLossBoundedIff`). The compiler never emits such a condor, from any chain
  (`CompilerLaws.EmittedCondorIsSound`), so this is a fact about the geometry function alone.
- All-or-nothing consumption can over-claim (`InventoryLaws.RepeatedLegOverclaims`,
  `InventoryLaws.ConsumeStaysWithinIff`). A validated structure never repeats a symbol, so the claims of
  approved orders cannot do this (`ExposureLaws.RunsNormalizeOnce`); only other callers of the helper could.
- Cycles of two schedulers can overlap (`Scheduler.CyclesCanOverlap`, `Scheduler.CyclesExcludeIff`).
- Without entry authority an opening order can stay live at the broker (`EntryLaws.MatchedEntryKeepsWorking`):
  exactly when the broker still lists it while the positions, after all established claims and what earlier rows
  took, cover its legs in full (`AuthorityLaws.CycleLeavesMatched`, `AuthorityLaws.MatchedIsFilled`).
- On the final day a latch can be released (`DailyLossLaws.HigherBaselineReleasesLatch`), only by a higher
  opening equity (`DailyLossLaws.ReleaseNeedsHigherBaseline`), and so never once the session has its first
  clean mark (`SessionLaws.LatchAfterMarkHolds`).

## Model

| member | source | states |
|---|---|---|
| CycleLaws.PortfolioCapOverRuns | src/money_machine/service.py:537-616 | In every run of cycles, one after another: at every entry submission the awards of all distinct runs with a live opening order, the new one included, are within the cluster cap and the total cap of that cycle's equity; a completed cycle leaves at most one working close per opening order and, when it lacks entry authority, no opening order pending in the ledger |
| CycleLaws.CycleTheorem | src/money_machine/service.py:101-718 | Every cycle keeps the ledger invariant; a begun key changes nothing; an incomplete cycle turns the kill switch on; an entry needs a completed cycle with authority and no kill switch |
| CycleLaws.RunStaysSane | src/money_machine/service.py:101-718 | The ledger invariant (valid requests, closes linked to one opening order of their candidate, entries on their award's concession schedule) and one open close per opening order hold after every run |
| AuthorityLaws.NothingOpensAfterCutoff | src/money_machine/domain/clock.py:92-115 | Outside development, a cycle after the entry cutoff submits no entry; once completed it leaves no opening order pending in the ledger, however many were, and live at the broker exactly those whose legs the positions left for them cover in full |
| AuthorityLaws.NoAuthorityOverRuns | src/money_machine/service.py:181-208 | In every run, a cycle without entry authority submits no entry; once completed it leaves no opening order pending, and live at the broker exactly those whose legs the positions left for them cover in full |
| AuthorityLaws.CycleLeavesMatched | src/money_machine/service.py:720-943 | After a completed cycle without authority an opening order may still execute exactly when the broker still listed it and the positions, after all established claims and what earlier rows took, cover its legs in full |
| AuthorityLaws.MatchedIsFilled | src/money_machine/persistence/repository.py:1400-1426 | Of the opening orders the broker still lists, matching records as filled exactly those that the inventory left by established claims and earlier promotions covers |
| AuthorityLaws.ReentryIsConfirmed | src/money_machine/service.py:1462-1590 | In every run a production cycle opens no condor; its entry has two consecutive cycles in its direction and, after a debit stop of the setup in the session, the earlier of the two after that stop |
| CycleLaws.AuthorityIsBounded | src/money_machine/service.py:181-208 | Entry authority implies an open market, the scoring window up to the cutoff, the session's entry hours in production, and a clear daily-loss control outside the final day |
| CycleLaws.OneEntryPerKey | src/money_machine/persistence/repository.py:104-126 | However many cycles of one bucket are due, at most one submits an entry |
| CycleLaws.FailureStopsEntries | src/money_machine/service.py:659-718 | After a cycle that did not complete no later cycle submits an entry until an operator clears the kill switch |
| CycleLaws.CapFromSummary | src/money_machine/domain/risk.py:301-319 | A new award within the headroom left by the ledger's sum keeps the awards of all distinct live runs within both caps |
| CycleLaws.SyncKeepsSane | src/money_machine/persistence/repository.py:1323-1426 | After the broker sync every close the broker still works is pending in the ledger, rows keep their identity, and the invariant holds |
| SessionLaws.LatchStopsSession | src/money_machine/service.py:400-416 | Once a session outside the final day is latched, no later cycle of it submits an entry; each that completes leaves no opening order pending in the ledger, and live at the broker exactly those whose legs the positions left for them cover in full |
| SessionLaws.RunFollowsTrace | src/money_machine/service.py:217-348 | Over every run of cycles the control rows are those of the daily-loss machine on the run's own trace of checks and awards |
| SessionLaws.EveryLatchWasConfirmed | src/money_machine/service.py:264-321 | A latch found after any run has behind it a confirmed breach of its own session |
| SessionLaws.EnvelopeOnlyGrows | src/money_machine/persistence/repository.py:172-244 | A session's envelope never decreases over a run |
| SessionLaws.BaselineNeverMoves | src/money_machine/persistence/repository.py:985-1021 | In every run of cycles in order of time a session's opening equity never changes again once the session has its first clean regular mark |
| SessionLaws.MarkedLatchHolds | src/money_machine/service.py:229-247 | From then on a latch whose loss meets the limit of that mark holds over every run, on the final day too |
| SessionLaws.LatchAfterMarkHolds | src/money_machine/service.py:229-247 | In runs in order of time, a latch made after its session's first clean mark is still there after every later cycle, on the final day too |
| ExposureLaws.EveryRunIsBounded | src/money_machine/domain/options.py:42-77 | In every run, for any chains and any market, every opening order ever recorded, first or replacement, filled at its limit loses at expiry at most the declared loss awarded per contract plus $15.01, at every underlying price |
| ExposureLaws.RunsNormalizeOnce | src/money_machine/persistence/repository.py:1360-1426 | In every run, for any chains, matching the same positions a second time changes nothing in the ledger |
| Agent.AgentService.RunCycle | src/money_machine/service.py:101-718 | The stateful cycle leaves the repository, the broker, the control rows, the keys and the kill switch exactly as the cycle transition says, with the same outcome |
| LifecycleLaws.PassKeeps | src/money_machine/service.py:720-1046 | For any ledger, any pending orders and any answers: the pass keeps the invariant and one open close per opening order, brings no run to life, adds no entry without authority; completed, it leaves one working close per opening order at most and, without authority, no opening order pending in the ledger |
| LifecycleLaws.HandlePendingKeeps | src/money_machine/service.py:757-943 | Settling, cancelling or replacing one pending order keeps the pass invariant, and replacements take over the cancelled order's slot |
| LifecycleLaws.HandleManagedKeeps | src/money_machine/service.py:945-1044 | Reviewing one open structure keeps the pass invariant; a fresh close is submitted only where no open close exists |
| LifecycleLaws.ReplacementRowOk | src/money_machine/service.py:895-927 | A replacement is always a valid request and stays on its award's schedule or linked to its parent, so its construction never fails |
| LifecycleLaws.UrgentPassIsVisit | src/money_machine/service.py:831-928 | What the pass decides and writes for an urgent close is one visit of the repricing laws, with the same debit cap afterwards |
| ChainRunLaws.UrgentChainSettles | src/money_machine/service.py:831-928 | In every run: along any chain of ledger rows in which each close took the place of the one before, which the broker could execute and which was urgent by mark, by a forced exit or by the session boundary, there are at most three replacements plus one per change of side |
| ChainLaws.PassSourced | src/money_machine/service.py:831-928 | Every close a pass adds beyond a first attempt is the replacement it builds for a pending close that the broker could execute |
| ChainRunLaws.RunStands | src/money_machine/persistence/repository.py:518-689 | No row is lost in a run and none ever changes what it asked for |
| EntryLaws.PassLeavesEntries | src/money_machine/service.py:757-1044 | After a completed pass without entry authority an opening order may still execute exactly when it could before and was not pending in the ledger |
| EntryLaws.MatchedEntryKeepsWorking | src/money_machine/persistence/repository.py:1414-1426 | A concrete sound ledger in which matching records a live entry as filled and the pass then leaves it live |
| BoundaryLaws.BoundaryPassCloses | src/money_machine/service.py:945-1044 | For a completed pass of a fresh cycle at or after the session boundary without entry authority: every structure whose legs are all held has a close of its candidate live at the broker, unless its entry filled only now, or a disputed fill of its close, nothing to close or no executable quote is noted; and where the pending orders did not stand in its way, that close is one this pass submitted, urgent and for all that can be closed, of it or of the structure sharing its close id |
| BoundaryLaws.ReviewsAttend | src/money_machine/service.py:945-1044 | The reviews alone, with or without authority: a structure all of whose legs are held, not just filled, not blocked, and whose close id was not in the ledger before them, ends with a submitted urgent close under that id, or the obstacle noted |
| BoundaryRunLaws.BoundaryOverRuns | src/money_machine/service.py:945-1044 | In every run, a completed production cycle at or after the session boundary with the market open leaves no established structure whose legs are all held without a close of its candidate live at the broker, unless its entry filled only in that cycle, or a disputed fill of its close, nothing to close or no executable quote is noted |
| BoundaryRunLaws.RunKeepsKeys | src/money_machine/persistence/repository.py:104-126 | In every run each order in the ledger belongs to a begun cycle, so the ids of a new cycle are never taken beforehand |
| BoundaryRunLaws.NoAuthorityAtBoundary | src/money_machine/domain/clock.py:92-115 | From the session boundary on a production cycle has no entry authority |
| LifecycleLaws.CloseQuantityIsLargest | src/money_machine/service.py:1002-1006 | A close takes the most contracts that the structure has and the position of every leg holds |
| Service.LifecyclePass.MaintainOrderLifecycle | src/money_machine/service.py:720-1046 | The two loops over pending orders and open structures do exactly what the pass transition says, up to the exception that ends them |
| Service.LifecyclePass.SettleOrder | src/money_machine/service.py:759-821 | A finished order is settled exactly as specified: partial fills kept, mismatches reported, the parent closed only when quantities and residual positions agree |
| LedgerLaws.LedgerSumNeverUndercounts | src/money_machine/persistence/repository.py:1026-1050 | The ledger's open-loss sum, which may count a run several times, is at least the awards of all distinct live runs |
| LedgerLaws.EveryEntryIsBounded | src/money_machine/persistence/repository.py:747-768 | An opening order in a sound ledger loses at most its award per contract plus $15.01 |
| LedgerLaws.FillsIdempotent | src/money_machine/persistence/repository.py:646-689 | Fill rows are recorded once per order and activity: replaying the same activities adds none |
| Repository.AuditRepository.ReconcileBrokerState | src/money_machine/persistence/repository.py:1323-1454 | Sync, position matching and authoritative absence leave exactly the specified tables; clean exactly when nothing at the broker is unknown |
| Repository.AuditRepository.PromoteCovered | src/money_machine/persistence/repository.py:1414-1426 | Pending rows are filled in order, each exactly when the remaining inventory covers it in full |
| Repository.AuditRepository.PendingManagedOrders | src/money_machine/persistence/repository.py:691-771 | Returns exactly the pending rows, in order, a close that names no parent with the one the established rows single out |
| Repository.AuditRepository.OpenManagedStructures | src/money_machine/persistence/repository.py:773-847 | Returns exactly the established structures joined with their run's decision, each with the price its recorded fills amount to when they fill it in full |
| Repository.AuditRepository.MarkManagedStructureClosed | src/money_machine/persistence/repository.py:859-895 | Closes a parent exactly when one row is eligible and its candidate and quantity agree |
| Repository.AuditRepository.ReconcileFilledClosingParents | src/money_machine/persistence/repository.py:914-942 | Closes the single established parent of each filled close, and nothing else |
| Repository.AuditRepository.PersistFills | src/money_machine/persistence/repository.py:646-689 | Records each activity not yet on record, once, and applies all of them in order, each to its own order |
| Repository.AuditRepository.TotalOpenDefinedLoss | src/money_machine/persistence/repository.py:1026-1050 | The loop computes the joined sum over exposed rows |
| InventoryLaws.ReserveClosedForm | src/money_machine/persistence/repository.py:1863-1875 | Reserving leaves, per symbol, its sign times max(0, magnitude less all claims on that side) |
| InventoryLaws.ReserveIgnoresOrder | src/money_machine/persistence/repository.py:1409-1413 | The reserve pass does not depend on the order of the structures |
| InventoryLaws.ConsumeIsReserve | src/money_machine/persistence/repository.py:1878-1890 | With unique leg symbols a complete consumption takes what a reservation would, so it never over-claims or flips a sign |
| InventoryLaws.ConsumeStaysWithinIff | src/money_machine/persistence/repository.py:1878-1890 | A complete consumption stays within the inventory exactly when no symbol is claimed beyond what it holds |
| InventoryLaws.RepeatedLegOverclaims | src/money_machine/persistence/repository.py:1878-1890 | Two legs on one symbol pass the check together and flip a long contract short |
| InventoryLaws.NormalizeIdempotent | src/money_machine/persistence/repository.py:1360-1426 | Repeating the whole matching on the same positions promotes no further order |
| InventoryLaws.NormalizeConserves | src/money_machine/persistence/repository.py:1360-1426 | What remains of a symbol after matching is exactly its closed-form residual under the established rows |
| ReconcileLaws.BySubmissionSorts | src/money_machine/persistence/repository.py:1400 | Matching visits a permutation of the rows, earlier submissions first |
| ReconcileLaws.NormalizeBookIdempotent | src/money_machine/persistence/repository.py:1360-1426 | Matching the same positions again changes nothing in the ledger rows |
| ReconcileLaws.NormalizedBookConserves | src/money_machine/persistence/repository.py:1360-1426 | The ledger's established rows after matching account for exactly what the matching took |
| Inventory.BrokerInventory.Reserve | src/money_machine/persistence/repository.py:1863-1875 | The in-place loop reserves each leg up to what is available |
| Inventory.BrokerInventory.Consume | src/money_machine/persistence/repository.py:1878-1890 | All or nothing: complete exactly when every leg is covered, otherwise the inventory is untouched |
| SizingLaws.VerdictIsExact | src/money_machine/domain/risk.py:62-496 | Approval exactly when every hard gate passes and one contract fits; the quantity is the largest that fits budget, headrooms and displayed depth; a rejection carries nothing |
| SizingLaws.VerdictAntitone | src/money_machine/domain/risk.py:320-367 | More open loss never raises the quantity or turns a rejection into an approval, across the switch of tiers too |
| SizingLaws.QuantityIsLargest | src/money_machine/domain/risk.py:445-496 | A number of contracts is at most the computed quantity exactly when it fits |
| SizingLaws.ApprovalRespectsCaps | src/money_machine/domain/risk.py:448-491 | Open loss plus an approved award is within both caps |
| Risk.EvaluateRisk | src/money_machine/domain/risk.py:62-496 | The check list and the verdict agree: approved exactly when all checks pass, otherwise the reasons are exactly those of the failing checks, each once |
| Risk.Rejected | src/money_machine/domain/risk.py:498-507 | A rejection has no quantity and no award, and its reasons are those of the failing checks |
| Risk.EntryExecutableDepth | src/money_machine/domain/risk.py:516-524 | The least displayed capacity over the legs, none when a leg shows no size |
| SizingLaws.DepthIsDisplayed | src/money_machine/domain/risk.py:516-524 | The depth is at least n exactly when every leg displays n contracts per ratio unit |
| Options.CondorLossBoundedIff | src/money_machine/domain/options.py:42-64 | A condor's declared loss bounds its payoff at every price exactly when the short strikes cross by no more than the wider wing or one wing has no width |
| Options.CrossedCondorLosesMore | src/money_machine/domain/options.py:42-64 | A crossed condor the geometry check accepts declares $300 and can lose $800 |
| Options.CondorGainBounded | src/money_machine/domain/options.py:42-64 | A condor never earns more than its credit |
| Options.DebitLossBoundedIff | src/money_machine/domain/options.py:67-77 | A debit spread loses at most its debit at every price exactly when its long leg is the inner one, and then gains at most the rest of its width |
| Options.DeclaredLossBounds | src/money_machine/domain/options.py:10-39 | With prices on whole cents the declared loss of any validated, well-oriented structure bounds its loss at every price, compiled or not |
| Options.LossAtPriceBounded | src/money_machine/domain/options.py:58-77 | Filled at another price, it loses at most the declared loss plus the concession plus a cent |
| Options.CondorPayoffIsDeclared | src/money_machine/domain/options.py:42-64 | A condor of sound geometry loses at most its declared loss, plus the half cent of its rounding when strikes are not whole cents, and gains at most its declared profit, at every price |
| Options.SpreadPayoffIsDeclared | src/money_machine/domain/options.py:67-77 | A debit spread of sound geometry loses at most its declared loss and gains at most its declared profit, at every price |
| CompilerLaws.CompiledCandidatesAreSound | src/money_machine/domain/candidates.py:41-81 | From any chains every compiled candidate is a valid record with a sound geometry; the structure check accepts it exactly when its quotes are of one underlying with unique symbols, which proper chains guarantee |
| CompilerLaws.CompiledPayoffIsDeclared | src/money_machine/domain/candidates.py:41-81 | From any chains, at every expiry price a compiled structure loses at most its declared maximum loss (for a condor on strikes that are not whole cents, plus the half cent of its rounding) and gains at most its declared maximum profit |
| CompilerLaws.CompiledDeadlinesAvoidEvents | src/money_machine/domain/candidates.py:187-271 | From any chains, every directional candidate compiled against the competition's calendar may be held to its deadline without meeting an event of it |
| CompilerLaws.ShortStrikesStayApart | src/money_machine/domain/candidates.py:97-128 | Where neither long leg is nearer its target than the short leg chosen, the short strikes cross by at most half the two wing widths together |
| CompilerLaws.EmittedCondorIsSound | src/money_machine/domain/candidates.py:84-184 | From any chain a compiled condor has a sound geometry with its wings apart, promises no better reward/risk at the touch than at the midpoint, passes the structure check exactly when its quotes are one chain's, and on coinciding ladders does not cross at all |
| CompilerLaws.EmittedDirectionalIsSound | src/money_machine/domain/candidates.py:187-271 | From any chain a compiled spread has its long leg inner and its declared width, debit and rest of width, carries its window's deadline, and passes the structure check exactly when its quotes are one chain's |
| CompilerLaws.SpreadGateProtectsExecutable | src/money_machine/domain/candidates.py:130-147 | Past the spread gate the executable credit of two-sided quotes is between 0.55 and 1 times the midpoint credit, so the second geometry call cannot raise if the first did not |
| CompilerLaws.ExecutableRewardBelowMidpoint | src/money_machine/domain/candidates.py:143-150 | Executable reward/risk never exceeds midpoint reward/risk |
| Candidates.NearestMonotone | src/money_machine/domain/candidates.py:289-296 | On coinciding ladders a higher target never selects a lower strike, ties going to the lower strike |
| Candidates.NearestIsLeast | src/money_machine/domain/candidates.py:289-296 | The chosen quote is of the right kind and no other is nearer, or as near with a lower strike |
| Candidates.BuildCandidates | src/money_machine/domain/candidates.py:41-81 | The loop over snapshots and the final sort yield every underlying's candidates, highest score first and equal scores by id, or the first error |
| Ranking.RankedSorts | src/money_machine/domain/candidates.py:76 | The report is a permutation of the compiled candidates in which none outranks an earlier one |
| Candidates.FreshExpiryGroups | src/money_machine/domain/candidates.py:274-286 | Groups exactly the fresh, unexpired quotes by expiration |
| RepricingLaws.UrgentCloseSettles | src/money_machine/execution.py:163-207 | Over any sequence of visits an urgent close is replaced at most three times plus once per change of side |
| RepricingLaws.UrgentConcession | src/money_machine/execution.py:163-207 | An urgent close concedes ten cents more per attempt from the fresh price, never below a cent, and finally all the structure can cost |
| RepricingLaws.SettledForGood | src/money_machine/execution.py:163-207 | After three replacements on one side it rests at its hard cap and every later visit on that side waits |
| RepricingLaws.DebitCapIsDefinedRisk | src/money_machine/execution.py:278-284 | The debit cap of a close is (maximum loss + maximum profit)/100 |
| RepricingLaws.EntryConcession | src/money_machine/execution.py:208-220 | A stale entry moves along 0.05 then 0.10, at most twice, never to a non-positive limit |
| RepricingLaws.ChainLossBounded | src/money_machine/execution.py:208-220 | A contract filled anywhere on that schedule loses at most the declared loss plus $15.01 |
| RepricingLaws.ReplacementIsValid | src/money_machine/execution.py:223-246 | A replacement of a valid request is valid |
| RepricingLaws.CloseRequestIsValid | src/money_machine/execution.py:354-404 | A close built from an open structure is a valid request for exactly that structure |
| RepricingLaws.CloseCancelsOpening | src/money_machine/execution.py:354-404 | Opening legs and their close cancel on every symbol |
| RepricingLaws.FreshCloseAgreesWithRefresh | src/money_machine/execution.py:249-294 | At unchanged quotes the refreshed terms of a fresh close are its own, and its quote has not materially changed |
| Execution.RefreshedCloseTerms | src/money_machine/execution.py:249-275 | Fresh terms are the net cash at the touch and its side, none when a leg is unquoted or the net is zero |
| Execution.ClosingCashRequired | src/money_machine/execution.py:339-351 | Computed on opening legs, equals the net cash of the mirrored legs |
| Execution.ClosingQuoteMateriallyChanged | src/money_machine/execution.py:287-294 | Computed with the opposite sign, compares the same net cash with the resting limit |
| Execution.DirectionalMarkMultiple | src/money_machine/service.py:1446-1459 | The mark is the negated net closing cash, floored at zero, over the price paid |
| Execution.UrgentCloseDebitCap | src/money_machine/execution.py:278-284 | The cap is the wider strike span of one right |
| Holding.AcceptedHoldIsSafe | src/money_machine/domain/events.py:53-96 | An accepted directional entry's holding interval avoids every event of a time-sorted list and stays inside the session |
| Holding.ExitByDeadline | src/money_machine/execution.py:297-312 | From that deadline on every exit evaluation closes, whatever the quotes |
| Holding.PriceExitIff | src/money_machine/execution.py:309-336 | Before its deadlines a quoted structure is closed exactly when closing now meets its target gain (half the credit; 35%, 50% or the stored target of a debit) or its stop (the whole credit; 35% of a debit), urgently only at the stop |
| Events.AcceptedWindowAvoidsEvents | src/money_machine/domain/events.py:53-96 | An accepted window is clear of every event: its cooldown is over or the deadline is 15 minutes before its release |
| DailyLossLaws.StatusIsExact | src/money_machine/service.py:229-348 | Which observations lead to which status: latched exactly on a clean, twice observed, marked and credible breach or an unreleased latch |
| DailyLossLaws.LatchPersists | src/money_machine/service.py:229-247 | Outside the final day a latch holds to the end of its session over every run |
| DailyLossLaws.LatchPersistsFromFixedBaseline | src/money_machine/service.py:229-247 | On the final day too, as long as the session's opening equity is the same throughout |
| DailyLossLaws.HigherBaselineReleasesLatch | src/money_machine/service.py:229-247 | A concrete final-day latch made before the session has a clean mark, released when the present equity, standing in for the opening one, rises |
| DailyLossLaws.ReleaseNeedsHigherBaseline | src/money_machine/service.py:229-247 | A latch is released only by an opening equity above the one whose limit it met |
| DailyLossLaws.NewLatchMeetsLimit | src/money_machine/service.py:264-321 | Every latch made against one opening equity has a loss that meets its limit |
| Equity.EquityHistory.PortfolioEquity | src/money_machine/persistence/repository.py:985-1021 | The loop over stored marks finds the session's earliest regular mark, or the larger of present equity and the competition's baseline, and the peak |
| Equity.FirstIsEarliest | src/money_machine/persistence/repository.py:997-1017 | The opening mark is one of the session's regular marks and none of them is earlier |
| DailyLossLaws.EnvelopeNeverDecreases | src/money_machine/persistence/repository.py:172-244 | Over every run of checks and awards a session's envelope never decreases |
| DailyLossLaws.LatchHasCause | src/money_machine/service.py:264-321 | A latch that was not there at the start has a confirmed breach behind it |
| DailyLossLaws.NotClearNothingApproved | src/money_machine/domain/risk.py:173-179 | Outside the final day a control that is not clear lets nothing through the risk engine |
| DailyLossLaws.PassedMarksAreCovered | src/money_machine/domain/daily_loss.py:68-85 | Once the marks pass, the price at which an urgent close finally rests covers what closing costs at those marks |
| DailyLoss.ValidateManagedBookMarks | src/money_machine/domain/daily_loss.py:28-85 | Passes exactly when the book is what the broker holds, freshly and fully quoted, and closable within its width; a failing reason names what is wrong |
| DailyLoss.LossControlTable.Transition | src/money_machine/service.py:217-348 | The branch-by-branch updates of the row amount to the transition, and it fails exactly when the confirming read does |
| DailyLoss.LossControlTable.Update | src/money_machine/persistence/repository.py:196-234 | Writes the row, keeping the first breach and the larger envelope |
| Ledger.ExpectedInventory | src/money_machine/domain/daily_loss.py:40-46 | The nested loops compute the book's signed inventory |
| Policy.ExclusionRefinesGates | src/money_machine/service.py:1228-1258 | A candidate excluded before the auction fails the pending or the existing gate whatever is decided; outside the final hour a survivor passes both |
| Policy.PortfolioCandidateExclusions | src/money_machine/service.py:1228-1258 | Excludes exactly the ids of candidates on a pending or an occupied underlying |
| Policy.DirectionalPolicyExclusions | src/money_machine/service.py:1462-1590 | The loop excludes exactly the ids of the candidates the directional policy refuses: condors, unconfirmed directions, and setups stopped since |
| Policy.AdmittedAfterStopIff | src/money_machine/service.py:1496-1522 | After a debit stop a candidate is admitted exactly when it is confirmed and the prior cycle came after the stop |
| Policy.ReadmittedWithoutReset | src/money_machine/service.py:1502-1522 | A stopped setup is admitted again with no reset on record |
| Policy.ResetLiesAfterStop | src/money_machine/persistence/repository.py:347-379 | Any reset found lies strictly after the stop and before the present cycle |
| Policy.LatestStopIsLatest | src/money_machine/persistence/repository.py:309-345 | The stop found is one of the session's and none of the setup is later |
| Scheduler.LeasePassesAfterExpiry | src/money_machine/persistence/repository.py:1456-1475 | However schedulers interleave, a different owner gets the lease only once the last holder's has expired |
| Scheduler.OneEntryPerBucket | src/money_machine/scheduler.py:26-77 | Each cycle bucket leads to at most one entry even when cycles overlap past a lease |
| Scheduler.CyclesExcludeIff | src/money_machine/scheduler.py:26-103 | In every interleaving of any number of schedulers, at most one is ever past its lease exactly when no lease is taken over, at or after its expiry, while its holder is still inside |
| Scheduler.OverlapHasOvertaking | src/money_machine/scheduler.py:26-103 | Two schedulers are both inside only if a lease was granted at or after the expiry of one of theirs while that one was inside |
| Scheduler.TimelyCyclesExclude | src/money_machine/scheduler.py:26-103 | Cycles that end before their lease expires never overlap |
| Scheduler.CyclesCanOverlap | src/money_machine/scheduler.py:26-77 | Two schedulers can both be inside a cycle, on different keys |
| Scheduler.HolderKeepsLease | src/money_machine/scheduler.py:91-103 | A holder that returns after its own interval still has the lease, and nobody took it meanwhile |
| Scheduler.KeyIsBucketStart | src/money_machine/service.py:1048-1053 | A key is the start of the bucket its time lies in, five minutes long, one from the final hour on |
| Scheduler.KeysFollowTime | src/money_machine/service.py:1048-1053 | Keys are monotone in time and never name two separate buckets, across the switch of width |
| Scheduler.LeaseTable.AcquireSchedulerLease | src/money_machine/persistence/repository.py:1456-1475 | Grants exactly a free, own or expired lease, and leaves other leases alone |
| Folds.MaximumDrawdown | src/money_machine/persistence/repository.py:1274-1278 | The one-pass loop computes the largest fall from an earlier value, the baseline included, to a later one |
| Folds.FilledStructurePrice | src/money_machine/persistence/repository.py:1825-1847 | A price exists exactly when every leg is filled in full, and is the net cash per structure |
| Folds.PriceIgnoresOrder | src/money_machine/persistence/repository.py:1825-1847 | Permuting the fills does not change it |
| Folds.PriceIgnoresSplits | src/money_machine/persistence/repository.py:1825-1847 | Splitting a fill at its price does not change it |

## Left out

- Transport, payload unwrapping and model calls: foreign calls; their answers are arguments.
- Web pages, charts, reports, credentials, settings and account identity checks: no risk decision.
- Operator scripts (assignment recovery, development and acceptance round trips): their rows are not in the ledger model.
- Evidence strings, passports, and strategy rotation with its progress history: ids excluded by rotation and by repetition are an arbitrary set. The portfolio and directional exclusions are modelled; stored market observations and the model's own answers are arguments.
- Candidates.BuildCandidates: the rejection texts recorded beside the candidates are omitted, and candidates of one underlying, action and date with equal scores keep their order, where the code compares their strikes as text.
- Decimal precision and database numeric scale: amounts are exact except where the code rounds to a cent.
- The time-zone database: daylight time is assumed, as on all dates concerned.
- Row order of queries without an order: rows are listed in the order they were inserted; position matching goes by submission time, as the code does.
- Fractional contracts: quantities of orders, fills and positions are whole.
- Accounts in another role than competition: the fallback profit target of a stored order assumes the competition account.
- Two run modes on one database: cycle keys are buckets of one mode.
- Ledgers with closes that name no parent: the guess of a parent is modelled, but the run theorems are about ledgers whose closes name one, as every close the program submits does.
- An order the broker accepted while its answer was lost: it never reaches the ledger, so it counts as unknown at the next sync and is outside the per-order theorems.
- CycleLaws.PortfolioCapOverRuns: about cycles that happen one after another (see `Scheduler.CyclesExcludeIff`); two that overlap could each find the same headroom. The cap is stated at submission, on awards; later it may be exceeded if equity falls or the broker reports a settled order as live again.
- ExposureLaws.EveryRunIsBounded: per contract, because a replacement's quantity is whatever the broker reports as remaining.
- Two structures sharing a leg and closing in the same pass: each close is sized against the whole position, so `LifecycleLaws.CloseQuantityIsLargest` is about one close.
