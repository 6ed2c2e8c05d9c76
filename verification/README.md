# School administration server: ledger, reports, identifiers

A Dafny model of the stateful core of a school administration server (TypeScript,
MongoDB, Redis) with proofs of what it keeps over all inputs and all runs.
`dafny verify dfyconfig.toml` checks everything.

What is modelled, by module:

- `Ledger`, `PaymentService`, `DailyReset`, `Rebuild`, `Runs`, `ServiceRun`,
  `LedgerTheorems`, `LedgerEffects`: the payment ledger. Its state is the payments collection, each student's
  `paymentHistory` and `version`, the Redis daily counter and the saved money-flow
  totals. `Ledger` says what each operation does as a function from state to state;
  `PaymentService` holds the operations as methods that update the collections, each
  proved equal to its function; `Runs` has the interleavings, with single creates and batch
  inserts split into read and commit and the nightly offload into read, save and reset; `Rebuild`
  is the recovery script with its two batched loops; `ServiceRun` serves whole requests by
  the methods; `LedgerEffects` says field by field what each operation records.
- `Billing`, `CycleReport`, `CycleFigures`: MMYY billing months and the report on one
  cycle, with its accumulating loops, and what its figures are in terms of the payments.
- `RollNumbers`, `RollGenerator`: registration numbers, the legacy generator on the same
  tracker, batch reservation and preview.
- `Invoices`, `InvoiceIdGenerator`, `InvoiceRace`: invoice ids, also from calls that
  overlap.
- `RequestTracker`, `RequestTrackerService`, `RequestAgreement`, `RequestRace`: the
  request log, its nested counters, and what happens when updates overlap.
- `Subjects`, `SubjectBuilder`: subject codes and the builder of the subject list.
- `Offers`, `WebRTCSignalingService`: pending WebRTC offers and their cleanup timer.
- `RouteOrder`: the check of the route order with its stable sort.
- `Sequences`, `Decimal`, `Records`: shared vocabulary.

A transaction is all-or-nothing over the collections; a method that returns `Err` has
thrown, and its transaction's view is dropped. The Redis counter is outside the
transaction and is changed as the last act of the callback. The clock, random bytes,
invoice ids and the supply of document ids are parameters.

Where the code falls short of what its names or comments promise, the code is kept and
the exact condition is proved:

- A batch insert pushes every new payment into every listed student's history. Histories
  stay exact if and only if the batch lists one student (`MultiInsertExactIff`); coverage
  and the insert/delete round trip hold regardless.
- What is added to the daily counter between the offload's read and its reset is lost
  from the totals; the books balance if and only if that sum is zero
  (`SplitOffloadBalancesIff`), as when nothing else moves the counter meanwhile
  (`QuietOffloadBalances`).
- `parsePayId` accepts any string: month 13 rolls over, characters after the fourth are
  ignored, and a word is no month at all. Regular, arrear and advance payments add up to
  all payments if and only if no fetched payment is labelled otherwise than the cycle but
  with the cycle's month or with none (`SummaryBalancesIff`; `StrayLabels` has inputs).
- The preview shows the next ids if and only if the tracker is absent or below 99
  (`PreviewIsRealityIff`).
- A reservation can return one id twice: its ids are distinct if and only if it asks for
  no more than the day's 990 ids that no student holds (`ReservedDistinctIff`); 991 ids
  on an empty day repeat one (`LargeReservationRepeats`). It succeeds if and only if it
  meets no three held ids in a row on its way (`ReservationSucceedsIff`). A collision
  outside a caller's session is retried with the same id, so it always fails
  (`GenerateUniqueRollNumber`).
- The comment in `roll.generator.ts` gives the sequence part as 00-99; the generator
  prints 01-99 and only the legacy one prints 00.
- Subject sequences above 35 are not always refused: character codes wrap at 16 bits,
  so 65546 gets the code of 10 (`LargeSequenceAccepted`); `CodeAcceptedIff` has the
  exact condition. A decoded `isComponent` only says that the identifier is a letter.
- Offer cleanup can be seen on a clock that is set back (`ClockSetBackShows`): on any
  clock, if and only if a process call would find an offer live that a cleanup has
  dropped (`CleanupUnobservableIff`).
- Invoice numbers can recur when the clock goes back (`BackwardClockRepeats`) or after a
  century (`CenturyRepeats`): on any clock, if and only if two calls that find a new
  month draw the same prefix (`NoRepeatsIff`). When calls overlap, one that increments
  after a restart it has not seen can repeat a number even on a forward clock
  (`StaleIncrementRepeats`): in any interleaving, numbers repeat if and only if two calls
  that increment between different restarts overlap under one prefix
  (`NumbersDistinctIff`).
- Tracked requests that overlap can lose each other's updates: log and summary stay
  complete if and only if no write overwrites another that came after its read
  (`DayIsCompleteIff`). The summary may then count other requests than the log holds
  (`OverlapDisagrees`, `LateSummaryDisagrees`): it is the histogram of the log if and only
  if the log that its own accesses would have left is alike, that is, has the same counts
  and last times (`SummaryAgreesIff`).

## Model

| member | source | states |
|---|---|---|
| `PaymentService.PaymentService.constructor` | src/modules/school/payments/services/payments.service.ts:88-385 | a ledger without payments starts sound, with exact histories and balanced |
| `PaymentService.PaymentService.CreatePayment` | src/modules/school/payments/services/payments.service.ts:140-218 | the regular create keeps soundness and the balance and has exactly the effect of its specification, whatever it returns |
| `PaymentService.PaymentService.CreateOffBillCyclePayment` | src/modules/school/payments/services/payments.service.ts:88-138 | the same for the off-cycle create, which takes month and type from the caller |
| `PaymentService.PaymentService.CommitMultiInsert` | src/modules/school/payments/services/payments.service.ts:220-306 | the same for the batch insert, with its loops over students, invoice ids, documents and amounts |
| `PaymentService.PaymentService.DeletePayment` | src/modules/school/payments/services/payments.service.ts:309-333 | the same for the deletion of one payment |
| `PaymentService.PaymentService.DeleteMultiplePayments` | src/modules/school/payments/services/payments.service.ts:336-385 | the same for the deletion of the month's payments of many students |
| `PaymentService.FetchStudents` | src/modules/school/payments/services/payments.service.ts:245-253 | the students come back in the order asked for, and an unknown id fails the request |
| `PaymentService.BuildDocuments` | src/modules/school/payments/services/payments.service.ts:255-272 | each document pairs a student's own data with his invoice id |
| `PaymentService.InsertMany` | src/modules/school/payments/payment.model.ts:135-143 | an ordered insert goes through exactly when no document clashes with the collection or an earlier document |
| `PaymentService.TotalAmount` | src/modules/school/payments/services/payments.service.ts:294-297 | the counter moves by the sum of the documents' amounts |
| `LedgerTheorems.CommitKeeps` | src/data/database/db.utils.ts:7-50 | a commit of any ticket, however old, keeps the unique indexes, coverage, exactness and the balance; a throw changes nothing |
| `LedgerTheorems.CommitAdvances` | src/modules/school/payments/services/payments.service.ts:186-206 | versions only grow, and the student's own passes the expected one |
| `LedgerEffects.CreatePaymentEffect` | src/modules/school/payments/services/payments.service.ts:140-218 | the regular create succeeds if and only if the student is known with complete data, has paid neither today nor for the month, and the invoice id is unused; it then records a Standard payment of his fee with every field as given, moves counter, history and version once, and nothing else; otherwise it throws for the first check that fails |
| `LedgerEffects.CreateOffBillCycleEffect` | src/modules/school/payments/services/payments.service.ts:88-138 | the same for the off-cycle create with the month and type it is given, which does not ask for payments of the day |
| `LedgerEffects.CommitEffect` | src/modules/school/payments/services/payments.service.ts:168-214 | a commit records what its ticket has read, in any state that it finds |
| `LedgerEffects.ReadRegularEffect` | src/modules/school/payments/services/payments.service.ts:143-166 | a regular create is refused after a payment of the day, and remembers the version it has seen |
| `LedgerTheorems.CreatePaymentKeeps` | src/modules/school/payments/services/payments.service.ts:140-218 | it keeps soundness, exact histories and the balance |
| `LedgerTheorems.CreateOffBillCycleKeeps` | src/modules/school/payments/services/payments.service.ts:88-138 | the off-cycle create keeps soundness, exact histories and the balance too |
| `LedgerTheorems.PullCommutes` | src/modules/school/payments/services/payments.service.ts:358-370 | pulling dead ids from an exact history gives the exact history of the surviving payments |
| `LedgerTheorems.RemoveKeeps` | src/modules/school/payments/services/payments.service.ts:347-381 | removing any selection of payments keeps soundness, exactness, balance and versions, and removes just that selection |
| `LedgerTheorems.DeletePaymentKeeps` | src/modules/school/payments/services/payments.service.ts:309-333 | the deletion throws exactly for an unknown id; otherwise that payment alone is gone, and all invariants stay |
| `LedgerTheorems.DeleteMultipleKeeps` | src/modules/school/payments/services/payments.service.ts:336-385 | it throws exactly when there is nothing to delete; otherwise all and only the listed students' payments of the month are gone |
| `LedgerEffects.DeletePaymentEffect` | src/modules/school/payments/services/payments.service.ts:309-333 | the payment of that id is gone, its amount taken off the counter, and its entries out of the owner's history; order, other students, other fields and the records stay |
| `LedgerEffects.DeleteMultipleEffect` | src/modules/school/payments/services/payments.service.ts:336-385 | the same for all payments of the listed students for the month, the counter falling by what they were worth |
| `LedgerTheorems.CommitMultiInsertKeeps` | src/modules/school/payments/services/payments.service.ts:220-306 | the batch insert keeps indexes, coverage and balance; a throw changes nothing |
| `LedgerTheorems.CommitMultiInsertSucceedsIff` | src/modules/school/payments/services/payments.service.ts:220-276 | the exact condition for a batch to go through: distinct known students, none paid today or for the month, fresh distinct invoice ids |
| `LedgerEffects.CommitMultiInsertEffect` | src/modules/school/payments/services/payments.service.ts:220-300 | each listed student is charged his own fee, with every field of his payment as given; the counter moves by their sum, each listed history grows by an entry for every payment of the batch, and nothing else changes; otherwise it throws for the first check that fails |
| `LedgerEffects.CommitBatchEffect` | src/modules/school/payments/services/payments.service.ts:255-300 | a batch that commits later charges what it has read |
| `LedgerTheorems.BatchKeysFreeIff` | src/modules/school/payments/payment.model.ts:135-143 | what the two unique indexes ask of a batch, in terms of the request |
| `LedgerTheorems.MultiInsertThenDelete` | src/modules/school/payments/services/payments.service.ts:220-385 | deleting the same students' payments in the same month undoes a batch insert: payments, every history and the counter are as before |
| `LedgerTheorems.PullUndoesPush` | src/modules/school/payments/services/payments.service.ts:278-292 | the pull takes back the whole push, in each listed history and no other |
| `LedgerTheorems.MultiInsertExactIff` | src/modules/school/payments/services/payments.service.ts:278-292 | a batch keeps histories exact if and only if it lists a single student |
| `DailyReset.OffloadAndResetTotalAmount` | src/services/cron/daily-reset.cron.ts:8-29 | a positive counter becomes a record and is set to 0; otherwise, or when the save throws, both stay; payments and students always stay |
| `Runs.OffloadKeeps` | src/modules/moneyLog/index.ts:15-33 | the record saved is worth what the counter loses |
| `Runs.OffloadEffect` | src/services/cron/daily-reset.cron.ts:13-18 | the same of the offload as a step of the ledger |
| `Runs.SplitOffloadIsWhole` | src/services/cron/daily-reset.cron.ts:10-18 | read, save and reset following each other at once are the undisturbed job |
| `Runs.SplitCreateIsWhole` | src/modules/school/payments/services/payments.service.ts:140-218 | read and commit following each other at once are the regular create |
| `Runs.SplitOffCycleIsWhole` | src/modules/school/payments/services/payments.service.ts:88-138 | and the off-cycle create |
| `Runs.SplitBatchIsWhole` | src/modules/school/payments/services/payments.service.ts:220-306 | and the batch insert |
| `Runs.ServeKeeps` | src/modules/school/payments/services/payments.service.ts:88-385 | every request, the offload and the recovery included, keeps soundness and balance; all but batch insert and recovery keep exact histories |
| `Runs.MoneyIsConserved` | src/modules/school/payments/services/payments.service.ts:88-385 | over every run from balanced books, counter plus saved totals equals the live payments |
| `ServiceRun.ServeRequest` | src/modules/school/payments/services/payments.service.ts:88-385 | each request of a run is what the method that handles it does |
| `ServiceRun.ServeRequests` | src/modules/school/payments/services/payments.service.ts:88-385 | any requests from a balanced object leave it balanced |
| `Runs.ExactWithoutBatches` | src/modules/school/payments/services/payments.service.ts:115-129 | over every run without batch insert or recovery, each history lists exactly its student's payments |
| `Runs.NextKeepsSafe` | src/modules/school/payments/services/payments.service.ts:140-218 | each step of an interleaving keeps soundness and the order of committed versions |
| `Runs.RunKeepsSafe` | src/modules/school/payments/services/payments.service.ts:140-218 | so does every run |
| `Runs.InterleavingsAreSafe` | src/modules/school/payments/payment.model.ts:143 | in every interleaving, batch inserts included, no two live payments share student and month, each is in its student's history, and of the creates that read one version at most one commits |
| `Runs.SecondOfTwoFails` | src/modules/school/payments/services/payments.service.ts:186-210 | after one of two rival creates commits, the other fails without effect, whatever runs in between |
| `Runs.RivalReadsFail` | src/modules/school/payments/services/payments.service.ts:140-210 | in particular of two regular creates for one student that read the same state |
| `LedgerTheorems.ReadThenCommitBatch` | src/modules/school/payments/services/payments.service.ts:220-300 | a batch that commits right after its read is the batch insert |
| `LedgerTheorems.CommitBatchKeeps` | src/modules/school/payments/services/payments.service.ts:255-300 | a batch commits without harm to indexes, coverage and balance whatever has happened since it was read |
| `Runs.NextGap` | src/services/cron/daily-reset.cron.ts:8-29 | a step changes the gap in the books only by what a reset overwrites |
| `Runs.GapIsOverwritten` | src/services/cron/daily-reset.cron.ts:10-18 | over every interleaving the gap grows by exactly the counter changes between each read and its reset (less a saved total when the reset fails) |
| `Runs.SplitOffloadBalancesIff` | src/services/cron/daily-reset.cron.ts:10-18 | the books still balance if and only if nothing was overwritten in all |
| `Runs.QuietOffloadBalances` | src/services/cron/daily-reset.cron.ts:10-18 | they do when no step moves the counter between a read and its reset and no reset fails |
| `Runs.PaymentDuringOffloadIsLost` | src/services/cron/daily-reset.cron.ts:10-18 | one payment committed between read and reset is missing with its whole amount |
| `Rebuild.ClearHistories` | src/migrations/scripts/recoverPayId.ts:62-97 | the batches of 100 cover every student once |
| `Rebuild.GroupPayments` | src/migrations/scripts/recoverPayId.ts:99-129 | each group holds its student's payments with a payId, in cursor order, and the groups are listed once |
| `Rebuild.GroupsAreOfStudents` | src/migrations/scripts/recoverPayId.ts:99-129 | the groups are those of the students with such a payment, and other students have nothing to write |
| `Rebuild.WriteBatch` | src/migrations/scripts/recoverPayId.ts:138-167 | one batch of updates, with its successes and errors |
| `Rebuild.WriteGroups` | src/migrations/scripts/recoverPayId.ts:131-176 | every group is written or counted as an error exactly once |
| `Rebuild.RebuildPaymentHistories` | src/migrations/scripts/recoverPayId.ts:15-199 | whatever the histories were, each student ends with an entry for each of his own payments that have a payId, in cursor order, or none, and nothing else of him changes; successes and errors add up to the grouped students, and successes are the known ones whose update did not throw |
| `Rebuild.RebuildRestores` | src/migrations/scripts/recoverPayId.ts:15-199 | from any well-formed books the script restores coverage, with each history a permutation of the student's live payments in createdAt order |
| `Rebuild.RepairKeeps` | src/migrations/scripts/recoverPayId.ts:15-199 | as a step of the ledger it keeps soundness, balance and versions |
| `Billing.PayIdRoundTrip` | src/modules/school/payments/payment.utils.ts:141-147 | parsing a printed month gives the month back, up to whole centuries |
| `Billing.ProperPayIdIsPrinted` | src/modules/school/payments/payment.utils.ts:7-13 | every identifier with month 01 to 12 is printed by the month it parses to |
| `Billing.ParseFourDigits` | src/modules/school/payments/payment.utils.ts:141-147 | four digits always parse, month numbers outside 1 to 12 into another year |
| `Billing.ParseIgnoresTail` | src/modules/school/payments/payment.utils.ts:142-143 | only the first four characters of an identifier count |
| `Billing.ParseWord` | src/modules/school/payments/payment.utils.ts:144-146 | an identifier that starts like a word is no month |
| `Billing.ParseSigned` | src/modules/school/payments/payment.utils.ts:141-147 | signs and white space before a digit are read, other characters end the number |
| `Billing.PayIdCollidesIff` | src/modules/school/payments/payment.utils.ts:7-13 | two months share an identifier if and only if they are whole centuries apart |
| `Billing.UtcIsValid` | src/modules/school/payments/services/payments.service.ts:393-395 | the Gregorian calendar in UTC is an instance of the abstract one |
| `Billing.UtcMonths` | src/modules/school/payments/services/payments.service.ts:393-395 | its months have their lengths |
| `Billing.UtcYears` | src/modules/school/payments/services/payments.service.ts:393-395 | its years have 365 days, and leap years 366 |
| `Billing.UtcWeeks` | src/modules/school/payments/services/payments.service.ts:496-504 | its weeks have seven days and start on Mondays, the first in the week that the month starts in |
| `CycleReport.Enhance` | src/modules/school/payments/services/payments.service.ts:446-478 | the loop with its cache labels each payment by its own month, and as neither arrear nor advance if it has none |
| `CycleReport.RowsAreByTime` | src/modules/school/payments/services/payments.service.ts:469-477 | a row is an arrear if and only if it was created after the month of its label, an advance if and only if before, and on cycle if and only if it has the cycle's label and was created in its month |
| `CycleReport.CycleRowHeads` | src/modules/school/payments/services/payments.service.ts:469-477 | created in the cycle's month, it is an arrear if and only if its label is an earlier month, an advance if and only if a later one |
| `CycleReport.RowsAreFetched` | src/modules/school/payments/services/payments.service.ts:433-444 | the rows are the payments labelled with the cycle or created in its month, in collection order |
| `CycleReport.OffCycleIff` | src/modules/school/payments/services/payments.service.ts:469-477 | arrear and advance exclude each other, and a fetched payment is off cycle exactly when it is one of them, if and only if its label is not stray: another string with the cycle's month or with no month |
| `CycleReport.ProperAreNotStray` | src/modules/school/payments/payment.utils.ts:141-147 | identifiers as getPayId prints them are not stray |
| `CycleReport.StrayLabels` | src/modules/school/payments/payment.utils.ts:141-147 | "1325", "01261" and "cash" are stray in January 2026: payments labelled so are off cycle without being arrear or advance |
| `CycleReport.SumWhere` | src/modules/school/payments/services/payments.service.ts:481-492 | the reduce and filter expressions give sums and counts of the selected rows |
| `CycleReport.TotalsShareOut` | src/modules/school/payments/services/payments.service.ts:480-492 | arrears, advances and stray labels share out the off-cycle rows; collected, advances and stray labels share out the money |
| `CycleReport.WeeklyCollections` | src/modules/school/payments/services/payments.service.ts:494-518 | the nested loop puts each amount in the first week that holds it |
| `CycleReport.WeeksCountOnce` | src/modules/school/payments/services/payments.service.ts:494-518 | despite shared endpoints the four amounts add up to exactly the payments between the first start and the last end |
| `CycleReport.EnrolStudents` | src/modules/school/payments/services/payments.service.ts:400-430 | the accumulators hold each section once, with its fees and students, and the total of all fees |
| `CycleReport.AddPayments` | src/modules/school/payments/services/payments.service.ts:520-537 | afterwards they also hold the tallies of each section's payments |
| `CycleReport.SectionsInOrder` | src/modules/school/payments/services/payments.service.ts:539-577 | one entry per section, in order of appearance |
| `CycleReport.SectionsConserveMoney` | src/modules/school/payments/services/payments.service.ts:400-430 | section fees add up to the expected total; section receipts plus payments of sections without students add up to everything fetched |
| `CycleReport.SectionHeads` | src/modules/school/payments/services/payments.service.ts:521-537 | in each section regular and off-cycle make up all payments, and arrears, advances and stray labels the off-cycle ones |
| `CycleReport.SummaryBalancesIff` | src/modules/school/payments/services/payments.service.ts:592-610 | regular, arrear and advance counts add up to all payments if and only if no stray label was fetched, and collected plus advances to the total if and only if those are worth nothing |
| `CycleReport.ProperSummaryBalances` | src/modules/school/payments/services/payments.service.ts:592-610 | in particular with proper identifiers |
| `CycleReport.GetPaymentsForCycle` | src/modules/school/payments/services/payments.service.ts:392-620 | for any payId that parses to a month: the rows, their labels by time, and every figure in terms of students and rows |
| `CycleReport.ReportAgrees` | src/modules/school/payments/services/payments.service.ts:579-614 | the figures agree with each other: heads, sections and weeks |
| `CycleFigures.SummaryIsByTime` | src/modules/school/payments/services/payments.service.ts:579-614 | heads and revenues of the summary are those of the payments late, early or in time for their labels |
| `CycleFigures.WeeksAreDuring` | src/modules/school/payments/services/payments.service.ts:494-518 | each week has the payments created in it, an instant between two weeks counting for the earlier |
| `CycleFigures.SectionsHaveFigures` | src/modules/school/payments/services/payments.service.ts:400-577 | each section of the current students has one entry, with its fees, receipts, students, payers and heads |
| `RollNumbers.DrawClosedForm` | src/services/generators/roll.generator.ts:39-84 | draw n of a day, from 0, has sequence n mod 99 + 1 and check digit (n div 99) mod 10 |
| `RollNumbers.IdLayout` | src/services/generators/roll.generator.ts:65-84 | an id is the date, one check digit and two sequence digits, joined by dashes; the legacy generator prints 00 at a wrap |
| `RollNumbers.FirstIdsOfDay` | src/services/generators/roll.generator.ts:65-84 | the first ids of a day and of its second cycle |
| `RollNumbers.TrackerLayout` | src/services/generators/roll.generator.ts:40-81 | the tracker holds sequence and check digit of the last draw |
| `RollNumbers.SameIdIff` | src/services/generators/roll.generator.ts:84 | two draws print the same id if and only if day and index modulo 990 agree |
| `RollNumbers.MixedRunAt` | src/modules/school/students/student.utils.ts:12-58 | the k-th id of any interleaving of both generators, in closed form |
| `RollNumbers.MixedRunDistinct` | src/modules/school/students/student.utils.ts:43-57 | any 990 consecutive ids of both generators are distinct, although they print a wrap differently |
| `RollNumbers.OverlappingWrapsCollideIff` | src/modules/school/students/student.utils.ts:25-54 | two draws of which the second comes before the first has reset the tracker print the same id if and only if one generator made both |
| `RollNumbers.ReservationTakes` | src/services/generators/roll.generator.ts:151-175 | a reservation takes the free draws in order, skipping none and at most two taken ids in a row |
| `RollNumbers.ReservedDistinctIff` | src/services/generators/roll.generator.ts:151-175 | reserved ids are distinct if and only if they are no more than the day's ids that no student holds |
| `RollNumbers.ReservationSucceedsIff` | src/services/generators/roll.generator.ts:26-104 | a reservation succeeds if and only if no three held ids in a row come before the free ones it needs |
| `RollNumbers.DayHas990Ids` | src/services/generators/roll.generator.ts:65-84 | a day has 990 ids |
| `RollNumbers.LargeReservationRepeats` | src/services/generators/roll.generator.ts:151-175 | on a day without held ids a reservation of more than 990 succeeds and repeats an id |
| `RollNumbers.ReservationSizes` | src/services/generators/roll.generator.ts:151-175 | whoever holds ids, up to 330 reserved ones are always distinct, more than 990 never |
| `RollNumbers.SimulateIdGeneration` | src/services/generators/roll.generator.ts:187-252 | the loop prints first and wraps afterwards |
| `RollNumbers.SimulationFollows` | src/services/generators/roll.generator.ts:187-296 | from any position but the last of a cycle the simulation goes through the real positions |
| `RollNumbers.SimulationLags` | src/services/generators/roll.generator.ts:281-295 | from the last it prints a sequence of 100 and then lags one draw behind |
| `RollNumbers.PreviewIsRealityIff` | src/services/generators/roll.generator.ts:261-296 | the preview is the next draws if and only if the tracker is absent or below 99 |
| `RollGenerator.RollGenerator.Draw` | src/services/generators/roll.generator.ts:52-84 | an update of the tracker is one step of the closed form |
| `RollGenerator.RollGenerator.GenerateUniqueId` | src/modules/school/students/student.utils.ts:12-58 | the legacy generator makes the next draw of the same tracker |
| `RollGenerator.RollGenerator.GenerateUniqueRollNumber` | src/services/generators/roll.generator.ts:19-144 | under a session the first free of three draws, the tracker kept advanced; otherwise the next draw or a failure that leaves the tracker alone |
| `RollGenerator.RollGenerator.ReserveUniqueIds` | src/services/generators/roll.generator.ts:151-175 | all or nothing, by the exact condition on the held ids: on success count ids that no student has, in draw order, distinct if and only if count is at most the day's unheld ids; on failure the tracker is as it was |
| `RollGenerator.RollGenerator.PreviewNextIds` | src/services/generators/roll.generator.ts:261-296 | the preview as a method, which changes nothing, with date, index, sequence and check digit of its results |
| `Invoices.ServedIssues` | src/services/generators/invoice.generator.ts:120-196 | one call issues new numbers of its month, none of which the counter can reach again |
| `Invoices.NeverIssuedAgain` | src/services/generators/invoice.generator.ts:94-109 | what is behind the counter is never issued again on a forward clock |
| `Invoices.NumbersNeverRepeat` | src/services/generators/invoice.generator.ts:68-196 | over every run of single and batch calls no prefix and sequence repeat |
| `Invoices.NoRepeatsIff` | src/services/generators/invoice.generator.ts:68-196 | on any clock numbers do not repeat if and only if the calls that find a new month get pairwise distinct prefixes |
| `Invoices.NoRepeatsWithinCentury` | src/services/generators/invoice.generator.ts:68-196 | so they do not within any hundred years of a forward clock, whatever the random parts |
| `Invoices.BackwardClockRepeats` | src/services/generators/invoice.generator.ts:94-107 | with a clock that goes back a whole id can be issued twice |
| `Invoices.CenturyRepeats` | src/services/generators/invoice.generator.ts:69-75 | numbers can recur after 1200 months, as the prefix has two year digits |
| `Invoices.BatchIsSingles` | src/services/generators/invoice.generator.ts:157-196 | a batch of k gives the numbers and the counter of k single calls of the month |
| `Invoices.ParsePrint` | src/services/generators/invoice.generator.ts:145 | a printed id parses back to prefix, sequence and random part |
| `Invoices.PrefixHasNoDash` | src/services/generators/invoice.generator.ts:50-75 | the prefixes that are made meet the condition for parsing |
| `Invoices.NewPrefixShows` | src/services/generators/invoice.generator.ts:69-75 | a new prefix is two characters without 0, 1, I and O, two digits of the year and two of the month |
| `Invoices.PrintSpells` | src/services/generators/invoice.generator.ts:137-145 | an id is INV, prefix, sequence in at least the padded width, and random end, joined by dashes in this order |
| `Invoices.PrintedIdsNeverRepeat` | src/services/generators/invoice.generator.ts:120-196 | the printed ids of every run on a forward clock are distinct |
| `InvoiceIdGenerator.InvoiceIdGenerator.EnsureCounter` | src/services/generators/invoice.generator.ts:68-114 | a counter of the month is kept; a missing one or one of another month starts from 0 under a prefix that shows the month |
| `InvoiceIdGenerator.InvoiceIdGenerator.GenerateId` | src/services/generators/invoice.generator.ts:120-150 | the next number of the month, spelled out with year and month at their places; on a forward clock it is new among everything issued |
| `InvoiceIdGenerator.InvoiceIdGenerator.GenerateBatch` | src/services/generators/invoice.generator.ts:157-196 | the next count numbers in the same way, each printed once; a non-positive count throws and changes nothing |
| `InvoiceIdGenerator.IssueKeepsValid` | src/services/generators/invoice.generator.ts:120-196 | a call on a forward clock adds only numbers that are new |
| `InvoiceRace.DistinctIffApart` | src/services/generators/invoice.generator.ts:178-189 | the numbers of a run are distinct if and only if no two of its allocations overlap under one prefix |
| `InvoiceRace.NumbersDistinctIff` | src/services/generators/invoice.generator.ts:120-196 | with the two steps of calls interleaved in any way and on any clock, numbers are distinct if and only if no two allocations between different restarts overlap under one prefix |
| `InvoiceRace.UndividedCall` | src/services/generators/invoice.generator.ts:120-150 | a call whose two steps follow each other at once is the call in one step |
| `InvoiceRace.FreshNumbersDistinctIff` | src/services/generators/invoice.generator.ts:120-196 | if no call increments after a restart it has not seen: if and only if the restarts that issue numbers have different prefixes |
| `InvoiceRace.StaleIncrementRepeats` | src/services/generators/invoice.generator.ts:122-130 | a call that increments after another's restart repeats number 1 of the old month, on a forward clock |
| `RequestTracker.StatusKeyIff` | src/services/request-tracker/index.ts:104-105 | status codes are counted together if and only if they agree in hundreds |
| `RequestTracker.StatusKeyBounds` | src/services/request-tracker/index.ts:104-105 | a status key prints the bounds of its hundred |
| `RequestTracker.HistogramTotal` | src/services/request-tracker/index.ts:100-106 | the counters of a level add up to the entries they count |
| `RequestTracker.RequestPush` | src/services/request-tracker/index.ts:86-141 | counting a logged request keeps all four levels equal to the histogram of the log |
| `RequestTracker.SummaryUnique` | src/services/request-tracker/index.ts:86-141 | a log has only one summary that agrees with it |
| `RequestTracker.DayCounts` | src/services/request-tracker/index.ts:100-120 | the day's counters are the numbers of its requests in all, of each method, status group and user |
| `RequestTracker.UserCounts` | src/services/request-tracker/index.ts:119-124 | a user's counters are the numbers of his requests of each method and status group |
| `RequestTracker.PathCounts` | src/services/request-tracker/index.ts:127-135 | a path's counters are the numbers of the user's requests to it, in all and of each method |
| `RequestTracker.DayAddsUp` | src/services/request-tracker/index.ts:100-120 | users, methods and status groups each add up to the day's total |
| `RequestTracker.UserAddsUp` | src/services/request-tracker/index.ts:119-135 | methods, status groups and paths each add up to the user's total |
| `RequestTracker.PathAddsUp` | src/services/request-tracker/index.ts:133-135 | methods add up to the path's count |
| `RequestTrackerService.RequestTrackerService.UpdateLogs` | src/services/request-tracker/index.ts:76-84 | the log grows by the request |
| `RequestTrackerService.RequestTrackerService.UpdateSummary` | src/services/request-tracker/index.ts:86-141 | the nested updates in place are the four-level count |
| `RequestTrackerService.RequestTrackerService.TrackRequest` | src/services/request-tracker/index.ts:51-74 | after any request tracked in one step every day's summary still is the histogram of its log |
| `RequestTrackerService.RequestTrackerService.DropDay` | src/services/request-tracker/index.ts:206-210 | the offload drops log and summary of a day together |
| `RequestTrackerService.RequestTrackerService.GetUserActivity` | src/services/request-tracker/index.ts:239-245 | a user has a summary if and only if he made a request, and it is the histogram of his part of the log |
| `RequestTrackerService.RequestTrackerService.GetUserRecentPaths` | src/services/request-tracker/index.ts:247-263 | one row for each path in the user's part of the log, with the true counts, most requested first |
| `RequestTrackerService.RequestTrackerService.GetUserLogs` | src/services/request-tracker/index.ts:273-276 | the user's entries, as many as his summary counts |
| `RequestAgreement.HistogramIff` | src/services/request-tracker/index.ts:100-106 | the counters of one log serve for another if and only if it has as many entries of every key |
| `RequestAgreement.NestedIff` | src/services/request-tracker/index.ts:109-132 | the same for a level of nested summaries |
| `RequestAgreement.SummaryServesIff` | src/services/request-tracker/index.ts:86-141 | the summary of one log is that of another if and only if the two are alike: the same counts at all four levels and the same last time of each user |
| `RequestRace.RunProjects` | src/services/request-tracker/index.ts:61-70 | the two entries of a day do not affect each other, however their accesses interleave |
| `RequestRace.LogKeepsAllIff` | src/services/request-tracker/index.ts:76-80 | the log keeps every request written if and only if no write is stale, and then in the order of the writes |
| `RequestRace.SummaryIsOfItsOwnLog` | src/services/request-tracker/index.ts:93-137 | however its updates overlap, the summary is the histogram of the log that the same accesses would have made |
| `RequestRace.SummaryKeepsAllIff` | src/services/request-tracker/index.ts:93-137 | it counts every request written if and only if no write is stale |
| `RequestRace.DayIsCompleteIff` | src/services/request-tracker/index.ts:51-141 | log and summary are both complete if and only if no write is stale in either |
| `RequestRace.SummaryAgreesIff` | src/services/request-tracker/index.ts:51-141 | in any interleaving the summary is the histogram of the log if and only if the log is alike to the one that the summary's own accesses would have left |
| `RequestRace.FreshDayAgreesIff` | src/services/request-tracker/index.ts:51-141 | without stale writes: if and only if the requests written to the one are alike to those written to the other |
| `RequestRace.OverlapDisagrees` | src/services/request-tracker/index.ts:61-70 | two overlapping requests can leave one in the log and the other in the summary |
| `RequestRace.LateSummaryDisagrees` | src/services/request-tracker/index.ts:61-70 | without any reordering of writes, a request that reads both entries between the other's two writes makes them disagree |
| `RequestRace.LateSummaryIsOne` | src/services/request-tracker/index.ts:61-70 | the steps of such a run |
| `RequestRace.InTurnIsFresh` | src/services/request-tracker/index.ts:61-70 | updates of which each finishes before the next begins lose nothing |
| `Subjects.CodeAcceptedIff` | src/modules/school/subjects/subject.utils.ts:25-63 | a code comes out if and only if type and class are known and the identifier has an index; it spells just these three |
| `Subjects.CodeErrors` | src/modules/school/subjects/subject.utils.ts:32-60 | what a refused code is refused for |
| `Subjects.TypeTable` | src/lib/constants/classOrder.ts:37-46 | the codes of the eight types |
| `Subjects.NoOtherTypes` | src/lib/constants/classOrder.ts:37-46 | there are no other types |
| `Subjects.ClassTable` | src/lib/constants/classOrder.ts:3-16 | the numbers of the twelve classes |
| `Subjects.NoOtherClasses` | src/lib/constants/classOrder.ts:3-16 | there are no other classes |
| `Subjects.SampleDigitCode` | src/modules/school/subjects/subject.utils.ts:25-63 | the third subject of mathematics in the 9th class has the code MA113 |
| `Subjects.SampleLetterCode` | src/modules/school/subjects/subject.utils.ts:25-63 | the tenth language of the nursery has the code LN01A |
| `Subjects.SampleComponentCode` | src/modules/school/subjects/subject.utils.ts:44-46 | a component of index 1 has the letter B |
| `Subjects.ComponentLetters` | src/modules/school/subjects/subject.utils.ts:44-46 | the identifier of every component index, negative ones included |
| `Subjects.SequenceSymbols` | src/modules/school/subjects/subject.utils.ts:47-53 | the identifier of every sequence above 9 |
| `Subjects.DecodeGenerated` | src/modules/school/subjects/subject.utils.ts:100-126 | decoding recovers type, class and identifier of every generated code |
| `Subjects.GenerateDecoded` | src/modules/school/subjects/subject.utils.ts:100-126 | a code that decodes to a known type and class is generated by the sequence its identifier stands for |
| `Subjects.SequencesUpTo35` | src/modules/school/subjects/subject.utils.ts:48-53 | of the sequences below 65529 exactly 0 to 35 get an identifier |
| `Subjects.LargeSequenceAccepted` | src/modules/school/subjects/subject.utils.ts:49-52 | larger ones that wrap into the letters get a code that is already another's |
| `Subjects.SameCodeIff` | src/modules/school/subjects/subject.utils.ts:25-63 | two codes are equal if and only if type, class and identifier index are |
| `Subjects.ValidIff` | src/modules/school/subjects/subject.utils.ts:65-97 | validation accepts exactly the codes that the generator gives type and class for 0 to 35, with a label that is not blank and a group for components |
| `Decimal.SpaceCodes` | src/modules/school/subjects/subject.utils.ts:87-89 | the characters that trim removes, by code point |
| `Subjects.ValidationErrors` | src/modules/school/subjects/subject.utils.ts:65-97 | what an invalid subject is refused for |
| `Subjects.BuiltIff` | src/modules/school/subjects/subject.data.ts:10-34 | a script can be built if and only if types and classes are known, labels and groups given, and no type and class occurs more than 35 times |
| `Subjects.BuiltFields` | src/modules/school/subjects/subject.data.ts:16-30 | a built subject's code counts the earlier calls for its type and class, and its other fields are the call's or their defaults |
| `Subjects.BuiltIsSound` | src/modules/school/subjects/subject.data.ts:10-34 | what is built is valid, codes are pairwise distinct, and orderIndex is 1..n where no call overrides it |
| `SubjectBuilder.SubjectBuilder.AddSubject` | src/modules/school/subjects/subject.data.ts:10-34 | the call succeeds exactly when it extends the script properly, and then the list is the closed form of the longer script; on a throw nothing is pushed |
| `SubjectBuilder.GenerateSubjectsData` | src/modules/school/subjects/subject.data.ts:6-34 | a whole script is built or throws, exactly by that condition |
| `Offers.LiveLater` | src/sockets/utils/signalUtils.ts:73-75 | an offer that is dropped now would not be sent later |
| `Offers.CleanupUnobservable` | src/sockets/utils/signalUtils.ts:69-84 | on a forward clock a run sends the same messages in the same order as without its cleanups |
| `Offers.CleanupUnobservableIff` | src/sockets/utils/signalUtils.ts:38-84 | on any clock a run sends the same as without its cleanups if and only if no process call would find an offer live that a cleanup has dropped since it was made |
| `Offers.ClockSetBackShows` | src/sockets/utils/signalUtils.ts:69-84 | on a clock that is set back it need not |
| `Offers.ProcessSendsLive` | src/sockets/utils/signalUtils.ts:38-54 | a process call sends exactly the offers added since the user's last one that are at most 30000 ms old |
| `WebRTCSignalingService.WebRTCSignalingService.AddPendingOffer` | src/sockets/utils/signalUtils.ts:22-36 | the offer joins the end of the receiver's queue, and other queues stay |
| `WebRTCSignalingService.WebRTCSignalingService.ProcessPendingOffers` | src/sockets/utils/signalUtils.ts:38-54 | the queue is gone and its offers of at most 30000 ms are sent in order, one message each; other queues stay |
| `WebRTCSignalingService.WebRTCSignalingService.CleanUpOffers` | src/sockets/utils/signalUtils.ts:69-84 | each queue keeps exactly its offers of at most 30000 ms in order, and empty queues are dropped, in any visiting order |
| `RouteOrder.StableSort` | src/services/route-builder/routeBuilder.ts:18-24 | nothing is out of order, and paths that compare equal keep their order |
| `RouteOrder.StableSortIsStaticFirst` | src/services/route-builder/routeBuilder.ts:18-24 | any stable sort under the comparator gives the static paths and then the dynamic ones, in original order |
| `RouteOrder.SortedUnchangedIff` | src/services/route-builder/routeBuilder.ts:26-29 | the comparison succeeds if and only if no dynamic path precedes a static one |
| `RouteOrder.GroupByVerb` | src/services/route-builder/routeBuilder.ts:8-15 | each method's list holds its paths in definition order, and the methods are listed once, in order of appearance |
| `RouteOrder.ValidateRouteOrder` | src/services/route-builder/routeBuilder.ts:7-37 | it throws if and only if some path with a colon comes before one of the same method without, and names the first such method in order of appearance |
| `RouteOrder.MisplacedIff` | src/services/route-builder/routeBuilder.ts:7-37 | the same condition read off the route list itself |

## Left out

Ledger:

- Failing commits, write conflicts and failures or overflow of the Redis counter: a callback that returns commits, and amounts are unbounded integers.
- In `Runs` deletions and the recovery script run as one step each, because a deletion between its read and its write is guarded by the database's conflict detection alone; students are neither added nor removed.
- `paymentMethod`, `paymentStatus` and the document version of a payment, which are always their defaults.
- A missing `paymentHistory` reads as the empty list, and the student schema stores `paymentId` and `payId` only, so `invoiceId` is no part of a history entry. Document ids are numbers from a supply that never repeats.
- RebuildPaymentHistories: does not model an update that fails on the server, because that aborts the session's transaction, so that all later updates and the commit fail as well and nothing changes; the students in `faulty` are those whose update is rejected before it is sent.
- Retries of the recovery script on lock errors and its count of cleared documents; payments with equal `createdAt` come in any order. In `Runs` all its updates succeed.
- `recoverPaymentIds`, `generateSerial`, payment controllers that bypass the service, and the per-section Redis hash, which do not maintain the ledger's totals.
- SectionsInOrder: does not give the class and section names beside their joint key, nor the rounded percentages and the average, which are easy members.
- GetPaymentsForCycle: does not give the rounded percentage and the echoed cycle bounds; a requested cycle that parses to no month is taken to fail, as its query has invalid dates for bounds. Months and weeks are abstract increasing instants with the UTC calendar as an instance, daylight saving does not appear, and strings hold whole characters where JavaScript slices UTF-16 units.

Identifiers:

- GenerateUniqueRollNumber: does not model database errors, which are caught and retried after a wait.
- GenerateUniqueId: does not split the legacy generator's two updates over whole runs; `OverlappingWrapsCollideIff` has the one case in which two draws wrap at once.
- ReserveUniqueIds: does not cross midnight, although each id of a reservation reads the date anew.
- NumbersNeverRepeat: does not cover a counter from before 2000 or after 2099, nor calls that overlap; `NoRepeatsIff` covers all years from the first call on, and `InvoiceRace` the overlap.
- PrintedIdsNeverRepeat: does not cover them either. `resetCounter` does not occur, and in `InvoiceRace` making sure of the counter is one step.

Others:

- TrackRequest: does not let updates overlap, because that is the subject of `RequestRace`; there a day's entries are followed from their creation, and the expiry of cache entries after 24 hours does not occur.
- GetUserRecentPaths: does not say in which order paths with equal counts come, because the model's maps have no insertion order.
- Property names that JavaScript objects inherit, here as users, paths, types or classes.
- The session documents that the request tracker's offload fills in, except that it drops both cache entries.
- ProcessPendingOffers: does not read the clock again for each offer of a call; tracks and other signalling messages are left out.
- The concrete list of subjects in `generateSubjectsData`, which is one script.
- HTTP routing, authentication, mail, caching, aggregation pipelines, promotion of students, and file handling.
