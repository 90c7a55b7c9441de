# Multi-academy control plane: a verified model

A school platform bills its tenants, repairs their timetables, delivers events to them and, in the end,
wipes their data. This project models the parts of it that carry state or arithmetic worth a proof, and
proves what they keep over whole runs.

- **Calendar, Periods, CatchUp, TermSchedule, Interleaving, InterleavingLaws**: month arithmetic, the periods a subscription
  is billed for, the capped catch-up pass, the schedules of term deals, and several replicas and consoles
  billing the same subscription at once.
- **Ledger, LedgerLaws, Dunning, BillingStore**: payments, gateway callbacks, settling, the dunning steps and
  courtesy unlocks, as specification functions on values, with their laws, and as a store whose methods
  update its tables.
- **Timetable, TimetableLaws, TimetableSolver, TimetableOverload, TimetableOverlap**: timetable repair as a boolean constraint
  problem, with the solver as a function that returns a satisfying, possibly optimal, assignment.
- **Outbox, OutboxWorker**: retry, backoff and dead-lettering under a bounded batch.
- **PdfReader, InvoicePdf, PdfRoundTrip, PdfFile, PdfDocument, InvoiceLines**: the invoice page writer and a reader for it, after
  ISO 32000-1 sections 7.3.4.2, 7.3.8, 7.5.4 and 7.5.5.
- **Lockout, DualControl, DualControlDesk, Offboarding, OffboardRegister, Chunking, FeeSplit**: the login
  lockout, two-person approval, offboarding with its data wipe, cutting documents into chunks, and splitting
  fees by basis points.
- **Text, Whitespace, Numbers, Counting, Iteration, InvoiceTable** hold what several of these share.

Code that assigns fields is modelled by classes whose methods are proved against specification functions; the
laws are lemmas about those functions. Each route and each worker pass is one transaction, and an exception
leaves the state as it was, except where a module says otherwise: `Interleaving` splits billing transactions
into begin and commit, and `DualControl` splits listing into reading and writing. Times are counted in
microseconds for billing and login and in seconds elsewhere.

## Where the code differs from what is said about it

- `_add_months` is described as keeping the billing anchor day. The callers re-anchor on the current day, so
  a 31st drifts to 28 and stays there; `Calendar.ChainedAdvanceVersusJump` says exactly when.
- The worker's comment on dead letters says operators can requeue them. No route does; in the model they stay.
- If other classes already double-book a teacher who has a movable slot, the constraint model has no solution at
  all, even where the class's own timetable can be repaired
  (`TimetableSolver.FeasibleMeansResolvable`, `TimetableOverload.OverloadBlocksRepair`).
- Clashes are excluded per period, which excludes them all exactly when different periods do not overlap
  (`TimetableOverlap.ClashesExcludedExactly`); periods that already hold two immovable slots of the class are skipped.
- A deal over given term dates starts billing at its contract start. It has one period per term exactly when that lies
  in the first term (`TermSchedule.AcceptedDealIsBilledPerTerm`): an earlier start adds a period, a later one skips terms.
- Two schedule dates on one day share an invoice; the second period is never billed
  (`Periods.EveryDateIsInvoiced`).
- An invoice over zero or a negative amount is opened and can never be paid (`LedgerLaws.SettleableExactly`).
- Paying everything lifts a suspension only if dunning was its reason (`Dunning.LastDebtReadmitsExactly`). A tenant
  whose courtesy unlock ends while it owes can stay suspended after it has paid
  (`Dunning.PayingAfterUnlockReadmitsExactly`).
- Part-paid invoices are not dunned, so one unit paid on an invoice stops its dunning (`Dunning.OneUnitStopsDunning`).
- The invoice page is written in Latin-1, which has neither the arrow between the dates of a period nor the dash for
  a missing one: they become question marks (`InvoiceLines.DatesSurviveExactly`).
- Staff may not pay a void or written-off invoice, but a gateway callback settles one
  (`LedgerLaws.GatewayPaysVoidInvoices`).
- An acknowledged export is accepted in any job state, so a cancelled offboarding can be revived and wiped
  (`Offboarding.AcknowledgementKeepsTheBound` has the guard that would exclude it).
- Without a next billing date, two invoices created by hand at once can move that date back
  (`InterleavingLaws.CycleAnchorHoldsExactly`, `InterleavingLaws.TwoCreationsMoveBackExactly`).
- Cancelling an offboarding makes the tenant active, whatever it was before.
- Listing dual-control requests takes no row lock and can overwrite `executed` with `expired`
  (`DualControl.SettledIsAbsorbing`).

## Model

| member | source | states |
|---|---|---|
| `Calendar.StampOrder` | control-system-server/app/services/billing.py:39-59 | dates compare as the instants they denote: earlier in the calendar is the smaller number of microseconds |
| `Calendar.GregorianMonths` | control-system-server/app/services/billing.py:47-59 | the lengths of the twelve months, and which years are leap years |
| `Calendar.SecondBeforeIsOneSecond` | control-system-server/app/services/billing.py:103-106 | a second before a date is exactly 1 000 000 microseconds earlier, across days, months and leap years |
| `Calendar.AddMonthsFields` | control-system-server/app/services/billing.py:47-59 | adding months moves the month index by exactly that many, clamps the day to the month reached, and drops the fraction of a second |
| `Calendar.AddMonthsIsLater` | control-system-server/app/services/billing.py:39-59 | adding at least one month always gives a strictly later date, whatever the anchor day |
| `Calendar.MonthStartMonotone` | control-system-server/app/services/billing.py:47-50 | month starts are ordered as their month indices |
| `Calendar.ChainedAdvance` | control-system-server/app/services/billing.py:130-141 | after k advances of c months the month index is start + k*c and the day is the smallest of the starting day and the lengths of the months visited |
| `Calendar.SmallestDayIsMinimum` | control-system-server/app/services/billing.py:130-141 | that smallest day is a lower bound for every month visited and is attained by one of them or by the start |
| `Calendar.ChainedAdvanceVersusJump` | control-system-server/app/services/billing.py:130-141 | k advances equal one jump of k*c months exactly when no shorter month was passed on the way; for days up to 28 always |
| `Calendar.AnchorDriftExample` | control-system-server/app/services/billing.py:42-46 | the anchor is not kept: a 31st becomes a 28th in February and stays one in March |
| `InvoiceTable.AddAllKeys` | control-system-server/app/services/billing.py:422-430 | after adding several invoices a key is billed exactly if it was before or one of them has it |
| `InvoiceTable.AddAllAppendsTheMissing` | control-system-server/app/services/billing.py:422-430 | adding invoices with distinct keys appends precisely those whose key was missing, in order |
| `Periods.PeriodKeyIdentifiesUnit` | control-system-server/app/services/billing.py:87-93 | two period keys agree exactly when the starts share the day (schedule), the year (yearly) or the month |
| `Periods.InvoiceNumberInjective` | control-system-server/app/services/billing.py:81-84 | equal invoice numbers mean equal tenant, period key and subscription |
| `Periods.PeriodKeyReads` | control-system-server/app/services/billing.py:87-93 | the numerals of a key are the year, month and day of the start, four, two and two digits, in that order |
| `Periods.InvoiceNumberReads` | control-system-server/app/services/billing.py:81-84 | an invoice number is SAAS, the tenant, the key and the subscription, in that order |
| `Periods.LatenessFalls` | control-system-server/app/services/billing.py:137-141 | the time by which a due date is late strictly falls with every step, so catching up terminates |
| `Periods.DueChainLinks` | control-system-server/app/services/billing.py:354-370 | each element of the chain of due dates is the step of the one before it |
| `Periods.DueChainIsExactlyWhatIsDue` | control-system-server/app/services/billing.py:354-370 | the chain holds due dates only, and the date after its last is not due or does not exist |
| `Periods.AnchorAfterDropsDates` | control-system-server/app/services/billing.py:354-370 | after k steps the chain that is left is the original without its first k dates |
| `Periods.DueChainContinues` | control-system-server/app/services/billing.py:354-370 | what is due at a later time is what k turns at an earlier time billed, followed by what is due from the anchor they left |
| `Periods.CycleChainIsChainedAdvance` | control-system-server/app/services/billing.py:130-141 | on a fixed cycle the i-th due date is the start advanced i times |
| `Periods.CycleSteps` | control-system-server/app/services/billing.py:62-63 | the next date lies one, three or twelve months on, by cycle, on the same day or the last of its month |
| `Periods.CycleDueMonths` | control-system-server/app/services/billing.py:62-63 | the i-th due date lies i, 3*i or 12*i months after the first, for monthly, termly and yearly cycles |
| `Periods.EveryMonthIsDueOnce` | control-system-server/app/services/billing.py:130-141 | on a monthly cycle every calendar month from the anchor to the last due date has exactly one due date |
| `Periods.CycleChainKeysDistinct` | control-system-server/app/services/billing.py:87-93 | on a fixed cycle the due dates have pairwise different period keys |
| `Periods.ScheduleKeysDistinct` | control-system-server/app/services/billing.py:87-93 | a schedule's period keys are pairwise different when no two dates share a day |
| `Periods.WindowsTile` | control-system-server/app/services/billing.py:96-107 | the computed last second of each invoice's window is one second before the next due period begins |
| `Periods.OpenWindowsLastACycle` | control-system-server/app/services/billing.py:96-107 | a window that no scheduled date ends lasts one, three or twelve months, by cycle, and its last second is the one before |
| `Periods.SuccessivePassesTile` | control-system-server/app/services/billing.py:96-107 | the windows billed by k turns at one time and by a pass at a later time tile too, and on a fixed cycle share no key |
| `Periods.NextScheduledInOrder` | control-system-server/app/services/billing.py:75-78 | in an increasing schedule the next date after the i-th is the (i+1)-th, and none after the last |
| `Periods.ScheduleVisitedOnce` | control-system-server/app/services/billing.py:130-135 | a schedule is visited once per date, in order, and then has no next date |
| `Periods.SameDayDatesShareAnInvoice` | control-system-server/app/services/billing.py:88-89 | two schedule dates on one day share a key, so the second period is never invoiced |
| `Periods.EveryDateIsInvoiced` | control-system-server/app/services/billing.py:422-430 | the dates of a schedule each get their own invoice exactly when no two of them fall on one day |
| `CatchUp.TurnsBillTheFirst` | control-system-server/app/services/billing.py:354-370 | k turns of the loop bill exactly the first k due dates, or all of them, and leave the anchor after the last one billed |
| `CatchUp.TurnsAddExactlyTheMissing` | control-system-server/app/services/billing.py:354-370 | when their keys differ, k turns append one invoice for each of the first k due dates that had none, in date order, and nothing else |
| `CatchUp.PassBillsTheFirst24` | control-system-server/app/services/billing.py:322-380 | one pass bills the first 24 due dates, appends exactly what they were missing, and leaves the chain without them due |
| `CatchUp.BacklogLength` | control-system-server/app/services/billing.py:354-370 | something is still due after k turns exactly when k is less than the length of the chain of due dates |
| `CatchUp.CatchUpRefinesUncapped` | control-system-server/app/services/billing.py:322-380 | n passes bill the first 24*n due dates; they reach the uncapped result exactly when n is at least a 24th of the backlog rounded up, and further passes change nothing |
| `CatchUp.EarlierPassesDoNotMatter` | control-system-server/app/services/billing.py:322-380 | whenever and however often capped passes ran before, billing what is due in the end gives what billing everything at once in the end would have given |
| `CatchUp.UncappedAddsExactlyTheMissing` | control-system-server/app/services/billing.py:322-380 | the result appends one invoice per due period that had none, in date order, and changes nothing else |
| `CatchUp.PassIsSafe` | control-system-server/app/services/billing.py:322-380 | after any number of steps keys stay unique, earlier invoices stay in place, the anchor does not move back, and it is given up only when a date with nothing after it in the schedule is invoiced |
| `CatchUp.Subscription.CreateInvoice` | control-system-server/app/services/billing.py:404-478 | adds the invoice of the period given, of the anchor's or of now, and gives a subscription without an anchor one; a period already invoiced changes nothing |
| `CatchUp.FirstAnchorIsNext` | control-system-server/app/services/billing.py:110-121 | the anchor given to a subscription without one is the billing date after now, or now when the schedule has none left |
| `CatchUp.Subscription.AdvanceNextInvoiceAt` | control-system-server/app/services/billing.py:130-141 | the anchor becomes the next scheduled date, or the same day one, three or twelve months later by cycle, cut to the month's length |
| `CatchUp.Subscription.BillPeriod` | control-system-server/app/services/billing.py:356-370 | bills the period at the anchor and moves on exactly when the anchor is due |
| `CatchUp.Subscription.CatchUpPeriods` | control-system-server/app/services/billing.py:354-370 | so many turns of the loop bill the first so many due dates, and the list of invoices it created is what was appended |
| `CatchUp.GenerateDueInvoices` | control-system-server/app/services/billing.py:322-392 | exactly the current, active or past-due, approved and due subscriptions that are not locked and whose transaction does not fail get their first 24 due dates billed; every other is as it was; the list returned holds what each pass created, also before it failed |
| `CatchUp.BillableIsServed` | control-system-server/app/services/billing.py:322-352 | which subscriptions a batch serves, leaves out or rolls back, from their own fields |
| `CatchUp.ReportedIsAppended` | control-system-server/app/services/billing.py:354-392 | what the batch reports of a subscription is what it appended, and of a failed one what it had appended before |
| `TermSchedule.AdjacentIncreaseIsIncreasing` | control-system-server/app/routers/deals.py:58-60 | comparing neighbours decides whether the whole list increases |
| `TermSchedule.ExplicitDatesAcceptedExactly` | control-system-server/app/routers/deals.py:47-65 | a list of dates is accepted exactly when billing is termly, no interval is given, the count matches, it has at most 24 dates and they increase |
| `TermSchedule.IntervalDatesAcceptedExactly` | control-system-server/app/routers/deals.py:66-78 | without dates of its own, a termly deal with a start is scheduled every so many months, three if it does not say, on the start's day or the last of the month |
| `TermSchedule.RefusedBecause` | control-system-server/app/routers/deals.py:35-78 | the reason each refused request is given, and which requests ask for no schedule |
| `TermSchedule.AcceptedScheduleIncreases` | control-system-server/app/routers/deals.py:35-78 | every accepted schedule has the asked number of strictly increasing dates; interval dates fall on different days |
| `TermSchedule.IntervalDatesIncrease` | control-system-server/app/routers/deals.py:71-77 | dates at a positive interval increase and fall on different days |
| `TermSchedule.WholeContractIsBilled` | control-system-server/app/services/billing.py:130-135 | wherever billing starts, the start and then every later scheduled date is billed, with no next date after that; one period per term exactly when the start lies in the first term, more exactly when it comes before |
| `TermSchedule.AcceptedDealIsBilledPerTerm` | control-system-server/app/routers/deals.py:364-378 | an accepted deal has one period per term exactly when its contract starts in the first term; so do interval deals and those without a contract start |
| `TermSchedule.EarlyDealHasOneMore` | control-system-server/app/routers/deals.py:364-378 | a deal over three given dates that starts a month early is accepted and has four periods |
| `TermSchedule.LateDealSkips` | control-system-server/app/routers/deals.py:364-378 | one that starts after its second date is accepted and skips a term |
| `TermSchedule.IntervalDealStartsItsSchedule` | control-system-server/app/routers/deals.py:72-76 | the contract start of an interval deal lies between its first and second scheduled date |
| `Interleaving.OneInvoicePerPeriod` | control-system-server/app/services/billing.py:395-430 | over every interleaving of worker passes, retries and creations by hand, each on its own snapshot, there is one invoice per period key and none is lost |
| `InterleavingLaws.NoDoubleBilling` | control-system-server/app/services/billing.py:322-478 | where a creation by hand begins with an anchor in place or with nothing left to move to, in addition the anchor only moves forward, and becomes none only once the end of the schedule is invoiced |
| `InterleavingLaws.StepKeepsSafe` | control-system-server/app/services/billing.py:322-478 | every begin, commit and abort keeps the invariant: one worker, snapshots behind the table, and stale transactions unable to write |
| `InterleavingLaws.MoverReadTheAnchor` | control-system-server/app/services/billing.py:404-430 | a transaction that commits and moves the anchor had read the current one |
| `InterleavingLaws.MoveDisarmsOthers` | control-system-server/app/models/billing.py:24-28 | once one transaction moved the anchor, the others that read the old one conflict with the unique constraint |
| `InterleavingLaws.AloneIsSequential` | control-system-server/app/services/billing.py:322-478 | a transaction that meets no other does what it would do alone: a worker bills the first 24 due dates |
| `InterleavingLaws.CreatingByHand` | control-system-server/app/routers/billing.py:246-261 | a creation by hand bills the period at the anchor, or now without one, and moves past it, unless it is invoiced |
| `InterleavingLaws.CycleAnchorHoldsExactly` | control-system-server/app/services/billing.py:322-478 | on a fixed cycle, every run from unique keys and nothing under way keeps the anchor from moving back and from being lost exactly when there is an anchor to begin with |
| `InterleavingLaws.TwoCreationsMoveBackExactly` | control-system-server/app/routers/billing.py:246-261 | for any cycle or schedule, two creations by hand that begin together without an anchor move it back exactly when both periods are unbilled and differ and the later one leads to the later date |
| `InterleavingLaws.UnanchoredCreationCanMoveBack` | control-system-server/app/routers/billing.py:246-261 | on a fixed cycle without an anchor, whatever the table holds, some run of two creations by hand moves the anchor back |
| `InterleavingLaws.ScheduledCreationCanMoveBack` | control-system-server/app/routers/billing.py:246-261 | on a schedule without an anchor, between any three successive dates of which the first two are not invoiced, some run moves it back |
| `LedgerLaws.NextKeepsSound` | control-system-server/app/services/billing.py:481-525 | each payment, callback, dunning pass, unlock and new invoice keeps the ledger invariant |
| `LedgerLaws.RunKeepsSound` | control-system-server/app/services/billing.py:481-525 | in every run the payments recorded for an invoice sum to its paid amount, at most its total, and its status is paid, partially paid or unpaid accordingly; invoices over nothing stay open without payments |
| `LedgerLaws.SettleableExactly` | control-system-server/app/routers/billing.py:331-343 | an unpaid invoice can be settled by some run exactly when its amount exceeds what is paid; a new one exactly when it is over something |
| `LedgerLaws.PayingTheRestSettles` | control-system-server/app/routers/billing.py:322-374 | paying what is outstanding settles any unpaid invoice that has something outstanding, in whatever books |
| `LedgerLaws.UnpayableStaysUnpaid` | control-system-server/app/routers/billing.py:336-343 | an unpaid invoice with nothing outstanding, as one over zero or a negative amount, stays unpaid in every run |
| `LedgerLaws.DeliveredIsInert` | control-system-server/app/routers/internal.py:311-329 | a callback once delivered, accepted or rejected, changes nothing when delivered again |
| `LedgerLaws.NextKeepsInert` | control-system-server/app/routers/internal.py:311-329 | a callback that changes nothing keeps changing nothing, because what is outstanding only falls and references stay used, unless the invoice it waits for is created |
| `LedgerLaws.DeliveredForGoodExactly` | control-system-server/app/routers/internal.py:300-349 | after a delivery no run makes the callback count again exactly when it was answered: its invoice existed, its reference was used, or no invoice could make it acceptable |
| `LedgerLaws.GatewayReplaySafe` | control-system-server/app/routers/internal.py:300-349 | in every run, dropping all repeats of callbacks leaves the same books; only repeats of a callback that came before the invoice it names are kept |
| `LedgerLaws.ReplayIsAnswered` | control-system-server/app/routers/internal.py:318-326 | whatever happened since a callback was accepted, its reference is answered as a duplicate for the same invoice and as a conflict for another, and changes nothing |
| `LedgerLaws.GatewayIsAnswered` | control-system-server/app/routers/internal.py:308-329 | what the gateway is answered, from invoice and message: not found, refused, or accepted within the balance |
| `LedgerLaws.ReusedReference` | control-system-server/app/routers/internal.py:318-326 | a recorded reference is a duplicate exactly for the tenant and invoice of its first payment, and a conflict otherwise |
| `LedgerLaws.StaffIsAnswered` | control-system-server/app/routers/billing.py:328-357 | what staff is answered, from invoice and message: not found, conflict for void, written-off and reused, refused beyond the balance |
| `LedgerLaws.RunSpendsReferencesOnce` | control-system-server/app/routers/billing.py:345-357 | in every run, staff and gateway together record each reference at most once |
| `LedgerLaws.GatewayPaysVoidInvoices` | control-system-server/app/routers/internal.py:312-343 | a callback settles a void or written-off invoice, which staff may not pay |
| `LedgerLaws.RecordingCredits` | control-system-server/app/services/billing.py:481-525 | a payment within the balance adds itself to the paid amount of its invoice, makes it paid with the time when that reaches the total and part-paid otherwise, and touches no other invoice |
| `LedgerLaws.AcceptedPaymentCredits` | control-system-server/app/routers/billing.py:358-371 | both routes record and credit so, and only what lies within the balance |
| `LedgerLaws.SettlingWritesUp` | control-system-server/app/services/billing.py:528-541 | settling without a payment writes the paid amount up to the total and never down |
| `LedgerLaws.PassMarksInvoices` | control-system-server/app/services/billing.py:653-660 | a pass marks past due exactly the open invoices of a subscription whose episode it opens |
| `LedgerLaws.GraceKeepsItsDate` | control-system-server/app/services/billing.py:662-665 | entering grace sets a date only where none is set |
| `LedgerLaws.GraceEndsOnItsDate` | control-system-server/app/services/billing.py:827-836 | in grace, a pass with something overdue advances the subscription exactly from the grace date on |
| `LedgerLaws.GraceEndsInSuspension` | control-system-server/app/services/billing.py:666-675 | the advance out of grace suspends the subscription and its tenant, for dunning |
| `LedgerLaws.NewestExists` | control-system-server/app/routers/billing.py:141-170 | every tenant has a newest current subscription, or none at all |
| `LedgerLaws.NewestIsOne` | control-system-server/app/routers/billing.py:164-168 | and only one |
| `LedgerLaws.UnlockOpens` | control-system-server/app/routers/billing.py:141-192 | an unlock opens the tenant until its date and forgets the dunning of its newest current subscription only |
| `LedgerLaws.ExpiryWaits` | control-system-server/app/services/billing.py:728-738 | an unlock is left alone before its date |
| `LedgerLaws.ExpiryDecides` | control-system-server/app/services/billing.py:707-774 | from its date on it ends: a tenant that is paid up and in good standing keeps its status and loses billing reasons, another is suspended, under its old reason if that was a billing one |
| `Dunning.RunFollowsDebt` | control-system-server/app/services/billing.py:528-606 | at every point of a run of payments, callbacks, passes and new invoices, a tenant is shut out by dunning only while it owes, and a subscription that owes nothing is active with no trace of dunning |
| `Dunning.PayingUpReactivates` | control-system-server/app/services/billing.py:528-606 | a dunning-suspended tenant is active once nothing of its is unpaid, in any order and instalments, stays suspended as long as it owes, and without new invoices is suspended exactly while it owes; its billed subscriptions are then active with dunning cleared |
| `Dunning.LastDebtReadmitsExactly` | control-system-server/app/services/billing.py:578-606 | in runs of all events, when the last debt of a tenant is cleared it is active afterwards exactly if it was active before or suspended by dunning |
| `Dunning.UnlockThenExpiry` | control-system-server/app/services/billing.py:758-774 | an unlock that ends while the tenant owes suspends it, keeping a billing reason and replacing any other |
| `Dunning.PayingAfterUnlockReadmitsExactly` | control-system-server/app/services/billing.py:578-606 | a tenant that pays its only debt after a courtesy unlock has ended is let in exactly if dunning was its reason before the unlock |
| `Dunning.EpisodeHistory` | control-system-server/app/services/billing.py:648-668 | a past-due subscription was opened by an earlier pass and one in grace was moved there by a later one; its dates are those of the opening |
| `Dunning.SuspensionIsTimely` | control-system-server/app/services/billing.py:797-842 | a pass suspends only after two earlier passes saw the subscription overdue, and not before the recorded past-due time plus its grace period |
| `Dunning.TenantSuspensionIsTimely` | control-system-server/app/services/billing.py:669-675 | a tenant newly suspended by a pass has a subscription with such a history |
| `Dunning.SuspensionComesExactly` | control-system-server/app/services/billing.py:648-684 | once a pass opened an episode and an invoice stays overdue, the subscription is in grace after the next pass and suspended, its tenant shut out, exactly when a further pass came at or after the grace date |
| `Dunning.DunnableExactly` | control-system-server/app/services/billing.py:803-842 | some pass would advance a subscription exactly when it is current, not suspended yet and has an open or past-due invoice |
| `Dunning.NeverDunned` | control-system-server/app/services/billing.py:803-842 | a subscription whose unpaid invoices are all part-paid is advanced by no pass in any run that does not bill it again |
| `Dunning.OneUnitStopsDunning` | control-system-server/app/services/billing.py:481-525 | one unit paid on the only open invoice of a subscription stops its dunning for good, until it is billed again |
| `BillingStore.Store.SettleInvoice` | control-system-server/app/services/billing.py:528-616 | leaves the books that settling specifies: invoice, subscription and tenant |
| `BillingStore.Store.ApplyPaymentToInvoice` | control-system-server/app/services/billing.py:481-525 | refuses amounts that are not positive, and otherwise credits and settles as specified |
| `BillingStore.Store.PayInvoice` | control-system-server/app/routers/billing.py:322-374 | the guards in order, and the books and verdict that the specification gives |
| `BillingStore.Store.SettleTenantInvoice` | control-system-server/app/routers/internal.py:300-349 | the callback's guards and duplicate handling in order, and the books and verdict that the specification gives |
| `BillingStore.Store.AdvanceDunning` | control-system-server/app/services/billing.py:629-684 | one dunning step of subscription, invoices and tenant as specified |
| `BillingStore.Store.RunDunningPass` | control-system-server/app/services/billing.py:797-842 | scanning the invoices in any order advances each eligible subscription exactly once |
| `BillingStore.Store.RunCourtesyUnlockExpiryPass` | control-system-server/app/services/billing.py:728-794 | every tenant whose unlock ended is re-suspended or cleared, the others are untouched |
| `BillingStore.PartialPassAll` | control-system-server/app/services/billing.py:797-842 | the subscriptions advanced by a scan that covers every overdue invoice are those of the pass said at once |
| `BillingStore.PartialPassAdvances` | control-system-server/app/services/billing.py:797-842 | advancing one more subscription inside a pass gives the pass over one more subscription |
| `TimetableLaws.ClashCountMeaning` | ai-service/app/services/timetable_solver.py:27-40 | a slot's clash count is zero after the move exactly when no other slot of its teacher overlaps it |
| `TimetableLaws.OverlapMeansCommonTime` | ai-service/app/services/timetable_solver.py:27-30 | periods that last overlap exactly when they are on one day and share a moment, ends excluded |
| `TimetableLaws.CrowdedMeaning` | ai-service/app/services/timetable_solver.py:114-122 | the class capacity is skipped exactly for periods that hold two different immovable class slots |
| `TimetableLaws.ClassRoomMeaning` | ai-service/app/services/timetable_solver.py:113-125 | the class constraint of a period holds exactly when the period is crowded or ends up with at most one class slot |
| `TimetableLaws.TeacherRoomMeaning` | ai-service/app/services/timetable_solver.py:141-153 | a teacher's constraint holds exactly when the teacher has nothing movable or ends up with at most one slot in the period |
| `TimetableLaws.EncodingIsExact` | ai-service/app/services/timetable_solver.py:106-153 | whatever the periods, an assignment that encodes a placement meets the capacities exactly when the class is booked once wherever possible and no teacher with a movable slot is in a period twice |
| `TimetableLaws.OneAtATimeMeaning` | ai-service/app/services/timetable_solver.py:27-40 | where the class is part of the school, that excludes clashes where periods do not overlap, and where they last demands nothing more than that, except that other classes do not double-book such a teacher |
| `TimetableLaws.UncrowdedMeansBookedOnce` | ai-service/app/services/timetable_solver.py:121-122 | without crowded periods, booked once wherever possible is the same as no double booking at all |
| `TimetableSolver.CollectPeriods` | ai-service/app/services/timetable_solver.py:43-54 | the periods that occur, each once, in order of day, start and end |
| `TimetableSolver.PlacedOnceIsEncoding` | ai-service/app/services/timetable_solver.py:106-110 | satisfying the exactly-one constraints is the same as encoding the placement that the decoder reads |
| `TimetableSolver.ModelIsExact` | ai-service/app/services/timetable_solver.py:106-153 | soundness: an assignment satisfies the model exactly when it encodes an admissible placement, whatever the periods |
| `TimetableSolver.ModelIsComplete` | ai-service/app/services/timetable_solver.py:106-153 | completeness: a placement is an assignment of the model exactly when it is admissible |
| `TimetableSolver.AdmissibleResolves` | ai-service/app/services/timetable_solver.py:27-40 | where periods do not overlap an admissible placement resolves every clash; where they last, a placement that does is admissible unless other classes double-book a teacher with a movable slot |
| `TimetableSolver.FeasibleExactlyWhen` | ai-service/app/services/timetable_solver.py:106-153 | the model has a solution exactly when some placement is admissible |
| `TimetableSolver.FeasibleMeansResolvable` | ai-service/app/services/timetable_solver.py:106-153 | where periods last and do not overlap: exactly when some placement resolves the clashes and there is no external overload |
| `TimetableSolver.ObjectiveCountsMoves` | ai-service/app/services/timetable_solver.py:155-165 | the objective of an assignment is the number of movable slots that end up in another period than they are in |
| `TimetableSolver.CountExternal` | ai-service/app/services/timetable_solver.py:128-139 | the counter holds each teacher's bookings by other classes per period |
| `TimetableSolver.PlacementConstraints` | ai-service/app/services/timetable_solver.py:106-110 | the constraints built are satisfied exactly when every movable slot is placed once |
| `TimetableSolver.ClassConstraints` | ai-service/app/services/timetable_solver.py:112-125 | the constraints built are satisfied exactly when every period has room for the class |
| `TimetableSolver.TeacherConstraints` | ai-service/app/services/timetable_solver.py:127-153 | the constraints built are satisfied exactly when every teacher has room in every period |
| `TimetableSolver.BuildModel` | ai-service/app/services/timetable_solver.py:102-165 | the whole model accepts exactly the assignments that meet all demands, with the move penalties as objective |
| `TimetableSolver.SolveProblem` | ai-service/app/services/timetable_solver.py:93-202 | the answer is admissible; with an optimal solver it is found whenever there is one, and no admissible placement leaves more slots in the period they are in |
| `TimetableSolver.SolveTimetable` | ai-service/app/services/timetable_solver.py:65-202 | from the request's slots, whatever their times: every slot's period has an index, the answer resolves every clash if periods do not overlap, and an optimal solver finds a repair if periods last and nobody is overloaded elsewhere |
| `TimetableOverload.OverloadBlocksRepair` | ai-service/app/services/timetable_solver.py:131-153 | a concrete timetable that can be repaired and whose model has no solution, because two external bookings collide in a period nobody needs |
| `TimetableOverlap.OverlapDefeatsTheModel` | ai-service/app/services/timetable_solver.py:127-153 | any two different periods that overlap occur in a timetable whose clash the model leaves in place and calls solved |
| `TimetableOverlap.ClashesExcludedExactly` | ai-service/app/services/timetable_solver.py:127-153 | over given periods, what the model accepts is always free of clashes exactly when no two different periods overlap |
| `Outbox.AttemptsBoundPosts` | control-system-server/app/services/outbox_worker.py:70-87 | an event is posted at most as often as it has attempts left |
| `Outbox.LifeOfAnEvent` | control-system-server/app/services/outbox_worker.py:70-96 | a new event ends delivered exactly when its last post was accepted and dead-lettered exactly when it was rejected or was the eighth; pending ones carry the attempt count and retry date |
| `Outbox.AnswerDecides` | control-system-server/app/services/outbox_worker.py:166-185 | an answer below 300 delivers, 400, 401, 403 and 422 end the event, anything else is retried after 30 seconds doubled with each attempt, up to the eighth |
| `Outbox.DueExactly` | control-system-server/app/services/outbox_worker.py:104-108 | an event is due from the time of its next attempt on, at once without one, and never when it is done |
| `Outbox.ArrivalIsDue` | control-system-server/app/services/outbox_worker.py:102-111 | a new event joins at the end and is due at once |
| `Outbox.CapIsNeverReached` | control-system-server/app/services/outbox_worker.py:26-44 | the delay is 30 doubled per attempt, and reaches the cap only from the eighth failure on, which is not retried |
| `Outbox.RetrySpacing` | control-system-server/app/services/outbox_worker.py:84-87 | retry k comes no sooner than 30*2^(k-1) seconds after the failure before it |
| `Outbox.RetriesTakeTime` | control-system-server/app/services/outbox_worker.py:84-87 | n retries take at least 30*(2^n - 1) seconds |
| `Outbox.LastPostIsAnHourLater` | control-system-server/app/services/outbox_worker.py:26-28 | the eighth post comes at least 3810 seconds after the first |
| `Outbox.RunIsReplay` | control-system-server/app/services/outbox_worker.py:99-185 | a run does to each row exactly what its own posts do, and posts it only when due |
| `Outbox.PostedAtMostEightTimes` | control-system-server/app/services/outbox_worker.py:24-26 | over any run of arrivals and passes each event is posted at most eight times |
| `Outbox.FinishedIsAbsorbing` | control-system-server/app/services/outbox_worker.py:104-108 | delivered and dead-lettered events are never posted or changed again |
| `Outbox.BatchUsesAttempts` | control-system-server/app/services/outbox_worker.py:99-111 | a batch uses up at least as many attempts as it posts rows |
| `Outbox.DueEventIsReached` | control-system-server/app/services/outbox_worker.py:99-111 | with k older unfinished events a due event is passed over at most 8k/limit times, whatever the older ones return and however many newer arrive |
| `OutboxWorker.OutboxEvent.MarkFailed` | control-system-server/app/services/outbox_worker.py:70-87 | counts the attempt and schedules the retry or dead-letters the row |
| `OutboxWorker.OutboxEvent.Record` | control-system-server/app/services/outbox_worker.py:166-185 | marks the row as the receiver's answer demands |
| `OutboxWorker.ProcessOutboxBatch` | control-system-server/app/services/outbox_worker.py:99-192 | the batch leaves the table of the specification and reports how many rows were processed, published and failed |
| `OutboxWorker.SelectedAre` | control-system-server/app/services/outbox_worker.py:102-111 | the rows picked are the due ones with fewer than the limit of due rows before them |
| `PdfRoundTrip.EscapeIsPerCharacter` | control-system-server/app/services/invoice_pdf.py:8-13 | the three replacements in their order escape every character on its own |
| `PdfRoundTrip.LiteralRoundTrip` | control-system-server/app/services/invoice_pdf.py:8-13 | a printed string reads back, by the rules for literal strings, as itself with line ends as line feeds |
| `PdfRoundTrip.EolOfCrFree` | control-system-server/app/services/invoice_pdf.py:8-13 | normalising line ends changes a text exactly when it has a carriage return |
| `PdfRoundTrip.Latin1Escape` | control-system-server/app/services/invoice_pdf.py:80 | encoding after escaping is escaping after encoding |
| `PdfRoundTrip.ShowPrinted` | control-system-server/app/services/invoice_pdf.py:68-79 | executing the printed text operators shows the lines in consecutive rows |
| `InvoicePdf.BuildContent` | control-system-server/app/services/invoice_pdf.py:67-80 | the loop over the lines produces the content stream of the specification |
| `InvoicePdf.WriteObjects` | control-system-server/app/services/invoice_pdf.py:96-100 | the objects are written in order and each offset noted is where its object starts |
| `InvoicePdf.WriteInvoicePdf` | control-system-server/app/services/invoice_pdf.py:67-110 | header, objects, table and trailer as specified, for any lines |
| `InvoiceLines.AmountRoundTrip` | control-system-server/app/services/invoice_pdf.py:16-18 | what is printed for an amount, with its sign, grouping commas and two decimals, denotes exactly that amount |
| `InvoiceLines.AmountShape` | control-system-server/app/services/invoice_pdf.py:16-18 | an amount has two decimals after a point and a comma before every third digit; below zero it has a sign |
| `InvoiceLines.DateReads` | control-system-server/app/services/invoice_pdf.py:39-44 | a printed date is its year, month and day |
| `InvoiceLines.IssuedReads` | control-system-server/app/services/invoice_pdf.py:37-37 | the time of issue shows as its date and then its hour and minute |
| `InvoiceLines.TitlesAndContents` | control-system-server/app/services/invoice_pdf.py:46-66 | which title stands before which content: subtotal, tax and total, due and paid, number, status, issue and customer |
| `InvoiceLines.PrintedAmountsReadBack` | control-system-server/app/services/invoice_pdf.py:47-61 | whatever the names, currency and notes are, the amounts read back from the page are subtotal, tax and total, and the first two add up to the third |
| `InvoiceLines.DatesSurviveExactly` | control-system-server/app/services/invoice_pdf.py:39-46 | the due and paid rows come back unchanged exactly when their dates are given; the period row never does |
| `InvoiceLines.BuildInvoicePdf` | control-system-server/app/services/invoice_pdf.py:21-110 | a reader of the file built from an invoice's fields gets a page of eighteen rows that say, under these titles, these fields: subtotal, tax and total in rows 11 to 13, due and paid dates in rows 8 and 9 |
| `InvoiceLines.PageOfInvoice` | control-system-server/app/services/invoice_pdf.py:46-66 | what each titled row of the page says |
| `PdfFile.LocateFinds` | control-system-server/app/services/invoice_pdf.py:101-109 | following the end of the file and the table gives the recorded offset of every object whose offset fits ten digits |
| `PdfFile.TableLeadsToObjects` | control-system-server/app/services/invoice_pdf.py:96-109 | and that offset is where the object stands in the file |
| `PdfFile.ContentIsFound` | control-system-server/app/services/invoice_pdf.py:89-93 | the reader finds the content stream whole, by its declared length, whatever it contains |
| `PdfFile.PageRoundTrip` | control-system-server/app/services/invoice_pdf.py:67-110 | the reader recovers every line in its row, after Latin-1 replacement and with line ends as line feeds, for any list of lines |
| `PdfFile.LineSurvives` | control-system-server/app/services/invoice_pdf.py:80 | a line comes back unchanged exactly when it has no carriage return and no character beyond Latin-1 |
| `PdfDocument.DocumentRoundTrip` | control-system-server/app/services/invoice_pdf.py:83-110 | a reader that walks from the trailer over catalogue and page tree gets the page with every line in its row |
| `PdfDocument.FontIsFound` | control-system-server/app/services/invoice_pdf.py:86-97 | the font that the page names is the one in the file, while the table's fields are wide enough |
| `PdfDocument.FreeEntryComesFirst` | control-system-server/app/services/invoice_pdf.py:102-104 | the table begins with the free entry |
| `Lockout.PlatformUser.Login` | control-system-server/app/routers/auth.py:99-138 | the checks in order, the new counter, lock and login time, and the response |
| `Lockout.FiveGuessesPerWindow` | control-system-server/app/routers/auth.py:99-127 | any fifteen minutes without a sign-in hold at most five evaluated wrong passwords |
| `Lockout.GuessesAreCounted` | control-system-server/app/routers/auth.py:107-113 | within a window the counter covers the guesses until one locks the account past the window's end |
| `Lockout.GuessingRate` | control-system-server/app/routers/auth.py:99-127 | n quarters of an hour without a sign-in hold at most 5n |
| `Lockout.EveryFifthLocks` | control-system-server/app/routers/auth.py:107-113 | the counter is the number of wrong passwords since the last sign-in modulo five, and the lock starts exactly at every fifth |
| `Lockout.LockLastsAQuarterHour` | control-system-server/app/routers/auth.py:99-127 | the fifth wrong password shuts the account for exactly fifteen minutes, the ones before do not |
| `Lockout.UnheardAttempts` | control-system-server/app/routers/auth.py:99-127 | an inactive or locked account does not count or accept anything |
| `Lockout.SecondFactorDecides` | control-system-server/app/routers/auth.py:99-127 | a right password opens the account exactly with a right second factor or none enabled, and changes nothing otherwise |
| `Lockout.TenGuessesInAClosedWindow` | control-system-server/app/routers/auth.py:104-105 | the window must be half open: the lock ends at the moment it was set for |
| `Lockout.EightGuessesAroundASignIn` | control-system-server/app/routers/auth.py:125-126 | a sign-in inside the window resets the counter |
| `Chunking.NormalizingKeepsInk` | ai-service/app/services/ingestion.py:15 | normalising drops nothing but white space and keeps the rest in order |
| `Chunking.NormalizedLines` | ai-service/app/services/ingestion.py:15 | the lines of the normalised text are the stripped lines that were not blank, and normalising it again changes nothing |
| `Chunking.ChunkText` | ai-service/app/services/ingestion.py:14-26 | the loop terminates and returns the stripped non-empty windows of the normalised text |
| `Chunking.ChunksAreShort` | ai-service/app/services/ingestion.py:16-26 | a chunk is a non-empty stretch of the text no longer than the chunk size |
| `Chunking.NothingIsLost` | ai-service/app/services/ingestion.py:20-26 | every position that is not white space lies in a returned chunk |
| `Chunking.WindowsRebuildTheText` | ai-service/app/services/ingestion.py:20-25 | the raw windows without their overlaps are the normalised text |
| `Chunking.WindowCountFrom` | ai-service/app/services/ingestion.py:20-25 | from any start, for any overlap, the number of windows is the rest divided by the step, rounded up |
| `Chunking.WindowCount` | ai-service/app/services/ingestion.py:20-25 | for overlap < size < n there are (n - overlap)/(size - overlap) windows, rounded up |
| `Whitespace.StripKeeps` | ai-service/app/services/ingestion.py:15-24 | only blanks are cut at the two ends, and none are left there |
| `Whitespace.AsciiBlanks` | ai-service/app/services/ingestion.py:15 | which ASCII characters are white space, and which of them end a line |
| `Whitespace.StripBlank` | control-system-server/app/routers/dual_control.py:280-283 | nothing is left exactly of a text that is all white space |
| `DualControl.AtMostOnce` | control-system-server/app/routers/dual_control.py:259-327 | over every interleaving, with listings that write late included, each request is carried out at most once |
| `DualControl.EffectsAreAuthorized` | control-system-server/app/routers/dual_control.py:273-288 | each effect came from a pending, unexpired request, with a stated reason, by somebody other than the requester |
| `DualControl.SettledHasNoEffect` | control-system-server/app/routers/dual_control.py:278-279 | a request that is not pending causes no effect any more |
| `DualControl.DecisionOutcome` | control-system-server/app/routers/dual_control.py:273-327 | what each decision does, from request and message: rejected with who, why and when; executed with the action carried out; unchanged when that fails or a guard refuses; expired when it comes too late |
| `DualControl.DecisionAnswer` | control-system-server/app/routers/dual_control.py:273-288 | which guard answers, in their order |
| `DualControl.RejectedIsNeverCarriedOut` | control-system-server/app/routers/dual_control.py:290-309 | a rejection is on record, and in no run from there is the request carried out |
| `DualControl.ListingMarksOverdue` | control-system-server/app/routers/dual_control.py:231-247 | listing marks exactly the listed pending requests whose time is over |
| `DualControl.CreatedPending` | control-system-server/app/services/dual_control.py:31-42 | a request is born pending and undecided with its date |
| `DualControl.WorldIsItsHistory` | control-system-server/app/routers/dual_control.py:33-228 | the state acted upon is what the recorded effects made of it, in their order, and nothing else |
| `DualControl.TasksAreTheRequests` | control-system-server/app/routers/dual_control.py:33-36 | what was carried out is what was requested |
| `DualControl.SettledFate` | control-system-server/app/routers/dual_control.py:231-247 | in any run, all that can happen to a request that is not pending is that a listing marks it as expired |
| `DualControl.SettledIsAbsorbing` | control-system-server/app/routers/dual_control.py:231-247 | a request that is not pending never changes again, in every run, exactly when it is expired already or no open listing holds it |
| `DualControl.ListingAtOnceKeepsSettled` | control-system-server/app/routers/dual_control.py:231-247 | where listing reads and writes at once, a request that is not pending never changes and a pending one ends executed exactly when it was carried out |
| `DualControl.ExecutedMeansDone` | control-system-server/app/routers/dual_control.py:226-228 | in any run a pending request ends executed exactly when its effect happened and no listing wrote it; approved is never left behind |
| `DualControl.ExecutionIsOnRecord` | control-system-server/app/routers/dual_control.py:290-293 | in any run, what is on record for a request carried out is who approved it, why and when, and its status is executed unless a listing wrote it |
| `DualControl.LateListingHidesTheExecution` | control-system-server/app/routers/dual_control.py:240-246 | a listing that read before an approval committed overwrites executed with expired |
| `DualControlDesk.DualControlRequest.ExpireIfNeeded` | control-system-server/app/routers/dual_control.py:21-30 | expires exactly the pending requests whose time is over |
| `DualControlDesk.Desk.Execute` | control-system-server/app/routers/dual_control.py:312-325 | carries out an approved request; when the effect fails, the row that was assigned and the state are as before |
| `DualControlDesk.Desk.Decide` | control-system-server/app/routers/dual_control.py:259-327 | the guards in order, and the rows, state and verdict of the specification, rollback included |
| `DualControlDesk.Desk.ListRequests` | control-system-server/app/routers/dual_control.py:240-246 | expires the listed rows that need it and leaves the others |
| `DualControlDesk.Desk.CreateRequest` | control-system-server/app/services/dual_control.py:20-55 | a pending request that expires after the configured time |
| `Offboarding.WipeExactlyWhenDue` | control-system-server/app/services/offboarding.py:119-194 | a step asks for a job's wipe exactly when it is a pass that finds it armed, due, within the batch, its tenant known and not on hold |
| `Offboarding.WipesNeedExports` | control-system-server/app/routers/internal.py:379-380 | in every run the wipes asked for a job never outnumber the export acknowledgements received for it |
| `Offboarding.UnarmedIsNotWiped` | control-system-server/app/services/offboarding.py:128-133 | a job that is not armed is not wiped unless another acknowledgement comes |
| `Offboarding.WipesAreDue` | control-system-server/app/services/offboarding.py:125-191 | every wipe was asked for at or after its job's date with no legal hold at that moment |
| `Offboarding.InTurnMeansOnce` | control-system-server/app/routers/internal.py:378-380 | where acknowledgements, repeated ones included, come only for active jobs, each job is wiped at most once and a settled one never |
| `Offboarding.InTurnMeansOneActive` | control-system-server/app/services/offboarding.py:41-48 | and a tenant has at most one active job |
| `Offboarding.AcknowledgementKeepsTheBound` | control-system-server/app/routers/internal.py:378-380 | an accepted acknowledgement keeps the bound on wipes, whatever follows in turn, exactly when its job is active or has no wipe date |
| `Offboarding.AcknowledgementKeepsOneActive` | control-system-server/app/routers/internal.py:378-380 | it keeps one active job per tenant exactly when its job is active or the tenant has no active job |
| `Offboarding.LateExportRevivesACancelledJob` | control-system-server/app/routers/internal.py:378-380 | a late acknowledgement revives a cancelled job beside a new one |
| `Offboarding.CancelledJobIsWiped` | control-system-server/app/routers/internal.py:378-380 | and the cancelled job is wiped |
| `Offboarding.CancelUndoesOffboard` | control-system-server/app/services/offboarding.py:84-98 | cancelling a fresh offboarding restores the tenant exactly when it was active without message or reason |
| `Offboarding.OffboardingStarts` | control-system-server/app/services/offboarding.py:32-81 | a free tenant is archived, its job waits for the export and is due so many whole days later, and the export is asked for |
| `Offboarding.OffboardingRefused` | control-system-server/app/routers/tenants.py:453-501 | an unknown tenant, a legal hold or an active job leave everything as it was, but for a blocked job that the route records |
| `Offboarding.WipeWaitsForItsDays` | control-system-server/app/services/offboarding.py:125-133 | in every run the wipe is asked for no earlier than so many times 86 400 seconds after the offboarding |
| `Offboarding.ReportDecidesCancelling` | control-system-server/app/routers/internal.py:377-389 | what each report makes of a job: cancelling is refused after a completed wipe and possible after a failed one |
| `Offboarding.CancellingRestores` | control-system-server/app/services/offboarding.py:84-98 | cancelling restores a tenant archived for offboarding and leaves another reason alone |
| `Offboarding.ForeignJobsAreLeft` | control-system-server/app/routers/tenants.py:524-547 | cancelling or reporting on a job of another tenant, or on none, changes nothing |
| `Offboarding.DispatchDecides` | control-system-server/app/services/offboarding.py:125-191 | a due job within the batch is sent to be wiped, cancelled when its tenant is gone, blocked under legal hold |
| `Offboarding.DispatchLeaves` | control-system-server/app/services/offboarding.py:125-135 | a pass leaves what is not armed or not due |
| `OffboardRegister.Register.ScheduleOffboardJob` | control-system-server/app/services/offboarding.py:32-81 | returns the active job or creates one, archives the tenant and asks for the export |
| `OffboardRegister.Register.CancelOffboard` | control-system-server/app/routers/tenants.py:524-547 | refuses completed and dispatched jobs, leaves cancelled ones, cancels the others and restores the tenant |
| `OffboardRegister.Register.OffboardResult` | control-system-server/app/routers/internal.py:363-401 | accepts a result in any job state and sets the status it implies |
| `OffboardRegister.Register.DispatchDueWipes` | control-system-server/app/services/offboarding.py:119-194 | the pass leaves the jobs and emits the events of the specification |
| `FeeSplit.BuildSplitAmounts` | control-system-server/app/services/payment_adapters.py:41-56 | shares sum to the amount, all but the last are exact floors, the last exceeds its exact part by less than one unit per other destination, and none is negative for rules that are not |
| `FeeSplit.FloorsLoseLittle` | control-system-server/app/services/payment_adapters.py:49-54 | rounding down n shares loses less than n units |

## Left out

- Dates beyond the civil calendar: time zones other than UTC, the year limits of `datetime` (the second before its
  first one among them), the ISO text form in which schedules are stored, and the normalisation of cycle names.
- What an invoice costs: plan prices, per-student pricing, tax, currency and notes; an amount is an input.
- The deal approval route, which opens the first invoice at once and moves the anchor the same way, status
  changes by hand, the manual dunning advance, and the void, draft and written-off invoices that no code path creates.
- The commit or rollback choice of the billing worker, audit rows, configuration versions, and the outbox rows
  written by billing.
- InterleavingLaws.NoDoubleBilling: asks creations by hand to begin with an anchor, or when the schedule has no later
  date; on a fixed cycle that condition is exact, on a schedule it is sufficient.
- InterleavingLaws.StepKeepsSafe: the same condition on the step.
- Interleaving: a transaction works on the snapshot of its begin, where the database reads statement by statement, and
  clocks of different transactions are not ordered.
- LedgerLaws.RunKeepsSound: no event makes an invoice void, draft or written off, and the invariant has none.
- Dunning.PayingUpReactivates: courtesy unlocks do not take part in such a run; what holds with them is
  `Dunning.LastDebtReadmitsExactly`.
- The courtesy unlock route itself is a specification function only; the store has the pass that ends unlocks.
- Tenant lookup by external reference and the allow-list of service clients: callbacks carry the tenant.
- The search inside the OR-Tools solver, its time limit, and the texts of its suggestions.
- Outbox: two workers draining one table at a time, a crash between posting and committing, the signature, and the
  delivery log; a pass is committed as a whole.
- TimetableSolver.SolveTimetable: slot ids are unique within the class and within the school; what an answer means for
  clashes is stated for a class that is part of the school.
- TimetableSolver.SolveProblem: slot ids are unique, as above.
- InvoiceLines: amounts are divided by a hundred exactly, not in binary floating point, which agrees up to some 10^15
  minor units; years are printed with four digits.
- Periods.PeriodKeyReads: years up to 9999, the last that `datetime` has; the same holds of the next two.
- InvoiceLines.DateReads: as above.
- InvoiceLines.IssuedReads: as above.
- PdfFile.TableLeadsToObjects: offsets of ten digits or fewer, as the table's fixed field allows; the page itself is found without any bound.
- PdfDocument: the reader takes the keys of a dictionary in the order in which they are written.
- PdfDocument.FontIsFound: streams of up to nine thousand million bytes, as the table's fixed field allows.
- Lockout: password hashing, second-factor codes and sessions are boolean inputs or absent, and two simultaneous
  logins of one account are taken one after the other.
- DualControl: the effects of the actions are one function of an abstract state that may fail as a whole.
- Offboarding: two dispatch passes at a time; each pass is one transaction.
- Embedding and storing the chunks, and the rest of ingestion.
- Provider health, mail, tokens, provisioning, usage metering, rate limits, reports, role tables and seed data.
