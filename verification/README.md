# Attendance and payroll: a verified model

A Dafny model of a single-store attendance and payroll system. It follows one pipeline: kiosk punches become event
sequences, event sequences become payable segments, segments are attributed to Seoul months and rated with dated hourly
wages, and a month's payroll is closed into immutable, versioned snapshots and exported. Each part is proved on its own
and the parts are then composed.

| file | what it models |
|---|---|
| `TimeCalculation.dfy`, `Sorting.dfy` | the payable-time engine: stable sort by time, punch automaton, breaks, employment clipping, cuts at midnights and rate points |
| `Attribution.dfy`, `PaidTime.dfy`, `MonthScope.dfy` | what paid time means instant by instant, where it is cut, and which months a shift belongs to |
| `AttendanceDb.dfy`, `AttendanceRun.dfy` | the attendance tables, and every writer of them (kiosk punches, manual entries and weekly batches, approvals, time corrections) as concurrent jobs that advance one database statement at a time |
| `AttendanceSafety.dfy`, `AttendanceWords.dfy`, `AttendanceCorrections.dfy`, `AttendanceManual.dfy` | what every schedule of those jobs keeps |
| `AttendanceSaves.dfy`, `AttendanceBatches.dfy` | what overlapping corrections and approvals of one shift do, and what a batch commits |
| `AttendanceStore.dfy` | the same services as methods that update the tables in place, each proved to do what its job does when undisturbed |
| `AttendanceAnswers.dfy` | what an undisturbed call answers and writes, in terms of rows and instants alone |
| `Calendar.dfy`, `WeeklyAllowance.dfy` | the Gregorian calendar, Seoul midnights, and the labour week across a month's end |
| `BasePay.dfy` | decimal pay with a rounding context, rounded up to whole won once |
| `Wages.dfy` | wage rows under an exclusion constraint, and the service that rewrites them from a month on |
| `WageSteps.dfy` | the same histories without ranges: steps, of which the last one before a day decides |
| `Preview.dfy`, `PreviewMeaning.dfy`, `PreviewRuns.dfy` | the monthly payroll lines, what they pay, and what can block them |
| `SeoulMonths.dfy`, `LineFacts.dfy` | months, dates and wages of counted time in Seoul's hours, and whose lines read what, in terms of rows and days |
| `CloseGate.dfy`, `CloseReasons.dfy`, `MonthPayload.dfy`, `PayrollPeriods.dfy` | the gate before a close, the payload, and one period's close / reopen / automatic close in place |
| `Close.dfy`, `CloseSafety.dfy` | the same services as concurrent jobs under a row lock, and what every schedule of them keeps |
| `Statements.dfy` | statement and summary sheets as maps from cells to values, and the exported package |
| `MonthUntouched.dfy`, `MonthActivity.dfy` | what a month's payload reads, and that attendance of other months leaves it alone |
| `MonthClose.dfy` | the pipeline end to end: what a stored snapshot and its export pay |
| `PinThrottle.dfy`, `PinRun.dfy` | the PIN failure counter and lockout, one call after another and as interleaved calls, and the rate of guesses they let through |
| `Text.dfy` | blank text |

Instants are integer microseconds and dates are day ordinals. An event carries the UTC offset of the datetime it was
read from, because midnights are taken in that offset. Clock readings, generated keys, the decimal context and the
ordering of employee codes are parameters. A service that the application runs concurrently exists twice: as a job of a
state machine, for properties of all interleavings, and as a method of a class, for what one call does.

## What the proofs found

Where the code and its own documentation disagree, the model follows the code. Each finding is a lemma.

- **Months and UTC.** The engine cuts at midnights of the event's own offset. Events typed in a correction carry Seoul
  time, but raw punches come back from the database in UTC, so a raw shift worked through a Seoul midnight is counted
  wholly in the day and month in which it began (`Attribution.UtcPunchesMisattributed`), although the month scope relies
  on segments being split at local midnight. Attribution is exact if and only if no worked stretch crosses the boundary
  uncut (`Attribution.AttributionExactIffAligned`); otherwise the stretch is counted before it up to its end or the next
  midnight of its own offset (`Attribution.UncutReachIs`).
- **Mid-month hires.** An employee's first wage starts on the hire date, while a line asks for the wage on the first of
  the month. Whoever is hired later in a month blocks that month, and setting a wage for it is always refused by the
  exclusion constraint (`PreviewRuns.MidMonthHireCannotBePaid`, `MonthPayload.BuildableIff`).
- **Clock before lock.** A punch reads the clock before it takes the row lock, so readings can be stored out of order.
  Punch sequences stay legal along a run if and only if every committed reading is timely
  (`AttendanceWords.WordsIffTimely`, `AttendanceStore.EarlyReadingBreaksTheWord`).
- **Overlapping corrections.** Saving a correction reads the current one, inserts, reads again and stores the approval,
  with no lock on the shift. When two saves of one shift overlap, both can supersede the same row and leave the shift
  stale although each was saved "and approved" (`AttendanceSaves.OverlappingSavesGoStale`). A saved correction leaves the
  shift approved if and only if no correction that comes before the one it pinned was committed since its second read; it
  takes effect if and only if none of the shift was created later (`AttendanceSaves.SavedCorrectionOutcome`); and the
  corrections of every shift form one chain if and only if each save was committed in turn
  (`AttendanceSaves.ChainedIffInTurn`).
- **Approvals of unseen events.** An approval evaluates the effective events and then pins a second, later read. A
  correction saved in between is approved without having been evaluated (`AttendanceSaves.ApprovalOfUnseenEvents`);
  `AttendanceSafety.ApprovedMeansSeenIff` says exactly when the approved events are the evaluated ones. Both schedules
  start from jobs that have passed their guards, as every acceptable request does (`AttendanceSaves.SaveReachesLinking`,
  `AttendanceSaves.ApprovalReachesPin`).
- **Overlapping PIN calls.** A verification saves what it computed from its own reading of the counter, without a lock.
  Calls that read before one of them saves count as one failure, so any number of guesses can be checked at once
  (`PinRun.OverlappingCallsCountOnce`), and a late save erases a lock (`PinRun.LateSaveErasesLock`). A run does to the
  record what its checked guesses do one after another if and only if each save is what its guess would do to the record
  it finds (`PinRun.SequentialIffInOrder`). Then the documented rate holds (`PinRun.RateLimitedInOrder`), as when calls do
  not overlap (`PinRun.OneAtATimeLosesNothing`); and in every run each other save lets through at most one more stretch
  of that many guesses (`PinRun.EveryRunIsLimited`).
- **The age of a payload.** A payload is built before the gate is read. A change in between passes the gate and is not in
  the snapshot (`CloseSafety.LateChangeIsNotPaid`): a snapshot pays what the books of the moment of its building say
  (`MonthClose.StoredSnapshotsPayOwedPlusDrift`). It is still right while the month has the same employees, with the same
  wages on its dates and the same shifts that touch it (`MonthClose.UntouchedMonthIsCurrent`); the punches, entries and
  corrections of other months do not matter (`MonthActivity.ElsewhereLeavesThePayload`).
- **Order of events.** The documented independence of input order holds when events at the same time are equal
  (`TimeCalculation.OrderIndependent`) and fails when they differ (`TimeCalculation.OrderMattersOnTies`). `UNPAIRED_BREAK` never
  appears without `ILLEGAL_SEQUENCE` (`TimeCalculation.AcceptedIffLegal`).
- **Exact decimals.** Pay is documented as exact, but hours are quotients in a 28-digit context: one hour and forty
  minutes at 18,000 won is paid 30,001 won (`BasePay.OneWonTooMuch`). One won more than the ceiling of the exact pay is
  the worst case, and only when that pay is whole (`BasePay.GrossIsCeilingOrOneMore`).
- **Closing a closed period** is documented as idempotent, but the gate is consulted first: while any blocker is present
  the call is refused even then (`PayrollPeriods.PayrollPeriod.ClosePeriod`).
- **The automatic close** leaves reopened months to the manager only if nobody closes and reopens the month between its
  look and its write (`CloseSafety.UndisturbedAutomaticWritesVersionOne`, `CloseSafety.LateAutomaticRunSupersedes`).

## Model

| member | source | states |
|---|---|---|
| TimeCalculation.WorkIntervals | apps/attendance/services/time_calculation/core.py:80-119 | the automaton reports exactly the blockers of the time-sorted word and, when there are none, its consecutive working pairs of positive length |
| TimeCalculation.CompleteIsRegular | apps/attendance/services/time_calculation/core.py:92-119 | the accepted words are exactly CLOCK_IN (BREAK_START BREAK_END)* CLOCK_OUT |
| TimeCalculation.LegalStep | apps/attendance/services/time_calculation/core.py:97-111 | one more event keeps a prefix legal exactly when the state machine allows it, and adds a worked stretch exactly when it ends work |
| TimeCalculation.MidnightsBetween | apps/attendance/services/time_calculation/core.py:69-77 | walking day by day finds all midnights of the start's own offset strictly inside the stretch, each once and in order |
| TimeCalculation.OrderedCuts | apps/attendance/services/time_calculation/core.py:122-128 | midnights and rate points merged without duplicates equal the cuts found by trying every instant |
| TimeCalculation.Split | apps/attendance/services/time_calculation/core.py:122-135 | the pieces are those between consecutive cuts |
| TimeCalculation.Calculate | apps/attendance/services/time_calculation/core.py:138-170 | blockers, clipping, cutting and final sort together: the result is the calculation defined on the sorted word |
| TimeCalculation.SegmentsDisjointAndExhaustive | apps/attendance/services/time_calculation/core.py:157-170 | segments are sorted, non-empty, pairwise disjoint, and their lengths sum to the clipped worked stretches |
| TimeCalculation.SegmentsRespectBoundaries | apps/attendance/services/time_calculation/core.py:122-170 | each segment lies in one clipped worked stretch and strictly contains none of its midnights and no rate point |
| TimeCalculation.SegmentsWithinEmployment | apps/attendance/services/time_calculation/core.py:159-168 | no segment leaves the employment window |
| TimeCalculation.AcceptedIffLegal | apps/attendance/services/time_calculation/core.py:138-156 | no blocker if and only if the sorted word is legal and a scheduled break was taken; UNPAIRED_BREAK never without ILLEGAL_SEQUENCE |
| TimeCalculation.OrderIndependent | apps/attendance/services/time_calculation/core.py:80-85 | when events at the same time are equal events, every permutation of the input gives the same result |
| TimeCalculation.OrderMattersOnTies | apps/attendance/services/time_calculation/core.py:82-85 | with tied timestamps two orders of the same events are accepted and rejected |
| PaidTime.EmployedWorkIsPaid | apps/attendance/services/time_calculation/core.py:138-170 | under any terms an instant is paid if and only if the word is complete, a scheduled break was taken, the punches leave the worker working, and it is within employment |
| PaidTime.SegmentsCutExactly | apps/attendance/services/time_calculation/core.py:69-135 | each segment lies in one stretch clipped to employment and is cut there exactly at midnights of its offset and at rate points |
| Sorting.SortIsStable | apps/attendance/services/time_calculation/core.py:82-85 | the sort by time keeps the input order of events with equal times |
| Attribution.AttributionLaw | apps/attendance/services/time_calculation/core.py:69-170 | paid time of a window = instants of it at which replaying the punches leaves the worker working − what was counted before it + what reaches beyond it |
| Attribution.SpillIffMisaligned | apps/attendance/services/time_calculation/core.py:69-77 | nothing reaches over an instant if and only if no worked stretch strictly contains it, or it is a midnight of that stretch's offset |
| Attribution.SpillIsUncutReach | apps/attendance/services/time_calculation/core.py:69-135 | for all events, what the segments reach over an instant is what the worked stretches between the punches reach over it uncut |
| Attribution.UncutReachIs | apps/attendance/services/time_calculation/core.py:69-77 | and that is, of the one stretch strictly containing the instant, the time to its end or to the next midnight of its offset, unless the instant is one |
| Attribution.AttributionExactIffAligned | apps/attendance/services/time_calculation/core.py:69-135 | everything up to an instant is paid for exactly the time worked up to it if and only if the instant is aligned |
| Attribution.StoreOffsetIsExact | apps/payroll/services/preview.py:54-57 | events in the store's own offset are attributed exactly by windows between store midnights |
| Attribution.WindowsPartition | apps/payroll/services/preview.py:82-90 | for any list of segments, counting by start partitions the time over consecutive windows: nothing is lost or paid twice |
| Attribution.UtcPunchesMisattributed | apps/attendance/services/corrections.py:20-25 | a UTC night shift across a Seoul midnight is counted wholly before it, two hours too early |
| Attribution.TotalIsSpanMinusBreaks | apps/attendance/services/time_calculation/core.py:80-119 | the paid total of every accepted shift is clock-out − clock-in − the recorded breaks |
| MonthScope.PaidTimeTouches | apps/attendance/services/month_scope.py:45-46 | a shift with paid time in a window touches it |
| MonthScope.WorkTouches | apps/attendance/services/month_scope.py:29-58 | work done in an aligned window is never overlooked |
| MonthScope.TouchesIff | apps/attendance/services/month_scope.py:29-58 | a shift touches a window if and only if a segment starts in it, an event is in it, or it is unclosed with a clock-in before its end |
| MonthScope.OpenShiftTouchesIff | apps/attendance/services/month_scope.py:53-57 | an unclosed shift touches a window if and only if its earliest clock-in precedes the window's end |
| MonthScope.OpenShiftBlocksEveryLaterMonth | apps/attendance/services/month_scope.py:53-57 | once it touches a window it touches, and blocks, every window that ends later |
| AttendanceStore.Store.RecordPunch | apps/attendance/services/punches.py:62-109 | one undisturbed call changes the tables and answers exactly as the punch job does: known key, no open shift, illegal transition, or a recorded event |
| AttendanceStore.Store.ExistingOr | apps/attendance/services/punches.py:112-117 | answers with a recorded event if and only if some event carries the key, and then with the first that does |
| AttendanceStore.Store.ClockInNow | apps/attendance/services/punches.py:120-134 | opens a shift with its first event, or refuses when one is open |
| AttendanceStore.PunchAlone | apps/attendance/services/punches.py:81-109 | the outcome and the final tables of an undisturbed punch, case by case |
| AttendanceStore.EarlyReadingBreaksTheWord | apps/attendance/services/punches.py:70-109 | a break whose clock reading is earlier than the clock-in is recorded, and the calculation then rejects the shift |
| AttendanceStore.Store.RecordManualShift | apps/attendance/services/manual_shifts.py:71-127 | one undisturbed entry: replayed key, overlap conflict, or one closed shift with its two events |
| AttendanceStore.Store.ApproveShift | apps/attendance/manager_views.py:64-81 | approves exactly closed shifts whose effective events are accepted |
| AttendanceStore.Store.Approve | apps/attendance/services/approvals.py:20-35 | pins the correction that is current and leaves the shift approved |
| AttendanceStore.RewriteEvents | apps/attendance/manager_views.py:109-120 | the loop moves the first CLOCK_IN and every CLOCK_OUT, keeps the rest, and reports whether it saw both |
| AttendanceStore.Store.CorrectShiftTimes | apps/attendance/manager_views.py:86-138 | one undisturbed correction: refused (shift, times, blank reason, missing punches, rejected events), or saved and approved, ending as its job does |
| AttendanceStore.Store.SaveAndApprove | apps/attendance/manager_views.py:130-138 | the transaction, undisturbed: one more correction that supersedes the current one, pinned by the approval if it is then current |
| AttendanceStore.ReadWeek | apps/attendance/manual_views.py:51-96 | the weekly form: refused exactly when a day is malformed or all are blank; otherwise positive shifts shorter than a day, each starting on its own day |
| AttendanceAnswers.UndisturbedEntry | apps/attendance/services/manual_shifts.py:71-112 | an entry with new keys is refused if and only if a shift of that same employee has an instant in common with it (an open one lasting for ever) or is empty and lies inside it; otherwise one closed shift with its two punches is written |
| AttendanceAnswers.BatchCheckRefusesIff | apps/attendance/services/manual_shifts.py:87-92 | in any state of the system a batch's check refuses exactly for such a shift of its employee or an entry of the batch that has an instant in common |
| AttendanceAnswers.DayOfTheForm | apps/attendance/manual_views.py:70-86 | a filled day is a shift from its start on that day to its end on that day, or on the next when the end is the earlier time |
| AttendanceAnswers.WeekOfTheForm | apps/attendance/manual_views.py:63-92 | every filled day gives its entry, under its own key and counted from its own midnight |
| AttendanceAnswers.UndisturbedClockIn | apps/attendance/services/punches.py:120-134 | a new clock-in is refused exactly while the employee has an open shift; otherwise one shift and one event are added |
| AttendanceAnswers.PunchWithoutShift | apps/attendance/services/punches.py:81-91 | any other new punch of somebody without an open shift is answered NO_OPEN_SHIFT and writes nothing |
| AttendanceAnswers.UndisturbedPunch | apps/attendance/services/punches.py:81-109 | a new punch is recorded on the employee's only open shift exactly when it may follow that shift's last punch; a clock-out closes it |
| AttendanceAnswers.UndisturbedFirstPunch | apps/attendance/services/punches.py:45-53 | an open shift without punches counts as clocked in: a break start or a clock-out is recorded, nothing else |
| AttendanceAnswers.UndisturbedApproval | apps/attendance/manager_views.py:64-81 | an approval is given exactly to a closed shift whose effective events raise nothing, and points to the current correction |
| AttendanceAnswers.UndisturbedCorrection | apps/attendance/manager_views.py:86-138 | a time correction is refused exactly when the shift is open, the reason says nothing, the times do not follow each other, a punch is missing or the rewritten events are not accepted; otherwise one linked correction is added and pinned |
| AttendanceDb.CurrentIndex | apps/attendance/services/corrections.py:28-29 | the current correction is a row of the shift that no other comes before by creation time, then id; there is none only without rows of the shift |
| AttendanceDb.AddPunchRaw | apps/attendance/services/corrections.py:20-25 | a new punch enters the raw events of its shift at its place in time and touches no other shift |
| AttendanceSafety.StepKeeps | apps/attendance/services/punches.py:62-134 | every step of every job keeps the invariant (unique keys, one open shift, held locks, pinned approvals) and only adds rows |
| AttendanceSafety.AnySchedule | apps/attendance/models.py:36-64 | for every interleaving each key has at most one event, each employee at most one open shift, events and corrections are never altered, closed shifts and their punches are frozen |
| AttendanceSafety.SameKeySameEvent | apps/attendance/services/punches.py:72-117 | callers that are given an event for the same key are given the same event |
| AttendanceSafety.ApprovedMeansSeenIff | apps/attendance/manager_views.py:64-81 | in every run an approval that is not stale covers the events of the correction it points to; that is the correction its guard has read, so that they are the events it evaluated, if and only if no correction preceding that one was committed between guard and pin |
| AttendanceWords.InsertedLegalIffTimely | apps/attendance/services/punches.py:93-105 | a punch its state allows keeps the sorted word legal if and only if it is not earlier than the last one |
| AttendanceWords.StepKeepsWordsIffTimely | apps/attendance/services/punches.py:62-134 | a step keeps all words legal, and complete exactly for closed shifts, if and only if it is timely |
| AttendanceWords.WordsIffTimely | apps/attendance/services/punches.py:62-134 | along a whole run all words stay legal if and only if every committed punch was timely |
| AttendanceWords.ClosedShiftIsPayable | apps/attendance/services/punches.py:93-109 | a shift closed by a timely run is accepted without blockers and paid closing time − clock-in − recorded breaks |
| AttendanceCorrections.OnlyOpenShiftsBlock | apps/attendance/services/corrections.py:32-35 | in a timely run of all services together the effective events raise OPEN_SHIFT exactly while the shift is open, and nothing else ever |
| AttendanceCorrections.CorrectedTotal | apps/attendance/manager_views.py:109-131 | accepted rewritten events are paid ended − started − the unchanged breaks, for any number of breaks |
| AttendanceCorrections.RewrittenIs | apps/attendance/manager_views.py:109-120 | the first clock-in and every clock-out are written with Seoul's offset; every other event stays as it is |
| AttendanceCorrections.CorrectedMidnightIsExact | apps/attendance/manager_views.py:29-31 | at a Seoul midnight outside the stretches after a break, the accepted rewritten events are paid on each side for the time worked on that side |
| AttendanceCorrections.CorrectedWithoutBreaksIsExact | apps/attendance/manager_views.py:29-31 | without breaks that is every Seoul midnight |
| AttendanceSaves.SavedCorrectionOutcome | apps/attendance/manager_views.py:130-138 | in every run a saved correction leaves the shift approved if and only if its pin was undisturbed, and becomes current if and only if no committed correction of the shift was created later |
| AttendanceSaves.SavedCorrectionTouchesNothingElse | apps/attendance/services/corrections.py:61-99 | raw punches and every other shift's events and approval status stay as they were |
| AttendanceSaves.ChainedIffInTurn | apps/attendance/services/corrections.py:73-84 | along every run the supersedes links of every shift form one chain if and only if each save linked the correction committed last and was committed before any other |
| AttendanceSaves.ChainDoesNotFork | apps/attendance/services/corrections.py:73-84 | in a chain no two corrections of a shift supersede the same one |
| AttendanceSaves.OverlappingSavesGoStale | apps/attendance/services/approvals.py:22-26 | two overlapping saves of one shift can both supersede nothing and leave it stale |
| AttendanceSaves.ApprovalOfUnseenEvents | apps/attendance/manager_views.py:75-79 | a correction saved between an approval's guard and its pin is approved without having been evaluated |
| AttendanceManual.ManualShiftsDisjoint | apps/attendance/services/manual_shifts.py:83-112 | for every interleaving an employee's manual shifts are non-empty, pairwise disjoint, and disjoint from every shift their overlap check could see |
| AttendanceBatches.BatchIsAllOrNothing | apps/attendance/manual_views.py:97-107 | in every run a batch writes nothing before its last step, which adds one shift for each new entry and leaves all entries recorded and, for the weekly form, with an approval |
| AttendanceBatches.BatchApprovesIff | apps/attendance/manual_views.py:97-107 | its new shifts end up approved; a shift it found recorded does if and only if no preceding correction was committed between the batch's read and its commit |
| AttendanceBatches.ReplayNeverWrites | apps/attendance/services/manual_shifts.py:74-82 | a batch that arrives when all its entries are recorded never adds a shift, an event or a correction at any later point of any schedule |
| Calendar.MonthsAdjoin | apps/payroll/services/preview.py:48-51 | months follow each other without gap or overlap, and the previous month undoes the next |
| Calendar.LocalDateBounds | apps/payroll/services/preview.py:54-57 | an instant falls on a date exactly when it lies between that date's Seoul midnights |
| Calendar.MonthsInUtc | apps/payroll/services/preview.py:54-57 | a month starts nine hours before the UTC midnight of its first day and ends nine hours before that of the next month's |
| Calendar.LocalDateIs | apps/payroll/services/preview.py:92 | an instant's date is k exactly when nine hours later it is between the UTC midnights of day k and day k + 1 |
| Calendar.DaysFollow | apps/payroll/services/preview.py:48-51 | ordinals count days from 0001-01-01, across months and years |
| Calendar.WeekdaysGoRound | apps/payroll/services/earnings/weekly_allowance.py:83-85 | day 1 was a Monday and the seven weekdays go round |
| WeeklyAllowance.IsMonthBoundaryWeekComplete | apps/payroll/services/earnings/weekly_allowance.py:65-89 | the day-by-day loop equals the closed form on the week of the month's last rest day |
| WeeklyAllowance.LastRestIsLatest | apps/payroll/services/earnings/weekly_allowance.py:78-88 | of all rest days the last one has the latest Sunday |
| WeeklyAllowance.MonotoneInAsOf | apps/payroll/services/earnings/weekly_allowance.py:65-89 | a week once complete stays complete |
| WeeklyAllowance.WhenItBlocks | apps/payroll/services/earnings/weekly_allowance.py:65-89 | a Sunday rest day never blocks, no rest day blocks six days after month end, and which rest days do on the last day |
| WeeklyAllowance.ElapsedIffNoneRuns | apps/payroll/services/earnings/weekly_allowance.py:65-89 | complete if and only if no rest day of the month has its Sunday in the next month and still to come |
| BasePay.CalculateBasePay | apps/payroll/services/earnings/base.py:30-41 | raises exactly on negative hours; otherwise the rounded running total, rounded up once, with one explanation line for each segment |
| BasePay.TotalDrift | apps/payroll/services/earnings/base.py:31-36 | with every operation within half a unit in the 28th digit the total stays within 2.5e-16 won for each segment of the exact pay |
| BasePay.GrossIsCeilingOrOneMore | apps/core/money.py:22-24 | up to a million segments and 10^11 won the gross is the ceiling of the exact pay, or one won more when that pay is whole |
| BasePay.ExactGross | apps/core/money.py:22-24 | with exact arithmetic exact ≤ gross < exact + 1 |
| BasePay.Round28IsHalfUlp | apps/attendance/services/time_calculation/core.py:41-43 | rounding to 28 significant digits, half to even, is one of the contexts the results are about |
| BasePay.RoundsTo | apps/payroll/services/earnings/base.py:32-41 | in the default decimal context every product and sum becomes the nearest number of 28 digits, of two equally near the one with an even last digit |
| BasePay.OneWonTooMuch | apps/payroll/services/earnings/base.py:30-41 | 1 h 40 min at 18,000 won is 30,000 won and is paid 30,001 |
| Wages.OneInForce | apps/payroll/models/policies.py:70-79 | at most one wage row of an employee is in force on a day, so lowest-id and highest-id lookups agree |
| Wages.ClashIsCommonDay | apps/payroll/models/policies.py:70-79 | the constraint's overlap on bounds is having a common day |
| Wages.WageTable.Create | apps/payroll/services/preview.py:130-134 | an insert is refused and changes nothing exactly when it overlaps a row of the employee; otherwise the rows stay apart |
| Wages.WageTable.Save | apps/payroll/services/preview.py:135-142 | the same for the update of a row |
| Wages.WageTable.SetHourlyWage | apps/payroll/services/preview.py:120-147 | insert, amend or split, with the rows apart after every single write; the two writes of a split are never refused |
| Wages.SetOverwrites | apps/payroll/services/preview.py:120-147 | an accepted change overwrites the date → wage function of one employee from the month to the end of the range in force, and nowhere else |
| Wages.RefusedIff | apps/payroll/services/preview.py:129-134 | a change is refused if and only if no wage is in force on the month's first day and a later range exists |
| Wages.WagesCoverEmployment | apps/identity/manager_views.py:74-78 | along every history of hirings and changes an employee has a wage exactly from the hire date on, and a change is refused exactly when its month begins before that date |
| WageSteps.WagesAreSteps | apps/payroll/services/preview.py:120-147 | after every history of hirings and changes the wage of a day is that of the last step not after it: hirings and accepted changes make or replace one step each, and splitting ranges does the same |
| Preview.RateSegments | apps/payroll/services/preview.py:89-104 | the segment loop adds to hours, rated work and the missing-wage flag exactly the segments that start in the month |
| Preview.OutOfScopeCountsNothing | apps/payroll/services/preview.py:84-86 | skipping a shift that does not touch the month loses nothing |
| Preview.LineOf | apps/payroll/services/preview.py:68-116 | one employee's line: hours, wage at the month's start, gross pay and blockers over all shifts; the base pay never raises |
| Preview.MonthlyPayrollLines | apps/payroll/services/preview.py:60-117 | one such line for each employee of the month |
| SeoulMonths.CountedStartsInTheMonth | apps/payroll/services/preview.py:82-91 | every counted segment starts, by Seoul's clock, on a day of the month |
| SeoulMonths.StartsInTheMonthCounted | apps/payroll/services/preview.py:82-91 | every segment of the employee's shifts that does is counted |
| SeoulMonths.RatedAtItsDay | apps/payroll/services/preview.py:92-101 | each is rated, at its length, at the wage of the Seoul day on which it starts |
| SeoulMonths.UnpaidOnItsDay | apps/payroll/services/preview.py:92-100 | a segment on a Seoul day without a wage leaves its line without one |
| SeoulMonths.WageOnIs | apps/payroll/services/preview.py:93-97 | the wage on a day is that of the employee's row whose half-open range contains it |
| SeoulMonths.SeoulEventsAreExact | apps/attendance/services/time_calculation/core.py:69-135 | events with Seoul's offset are paid between any two Seoul midnights exactly for the time worked |
| SeoulMonths.UtcNightAtMonthEnd | apps/payroll/services/preview.py:88-91 | a UTC night shift two hours either side of a month's end counts four hours before it and none after |
| SeoulMonths.SeoulNightAtMonthEnd | apps/payroll/services/preview.py:88-91 | typed with Seoul's offset it counts two hours on each side |
| LineFacts.EmployedOnSomeDay | apps/payroll/services/preview.py:63-65 | an employee belongs to a month exactly when some day of it is from the hire date on and not after the leave date |
| LineFacts.OneLineEach | apps/payroll/services/preview.py:63-68 | each such employee has one line and nobody else has one |
| LineFacts.ShiftsRead | apps/payroll/services/preview.py:77 | a line reads each shift of its employee once, in the order in which they were opened |
| LineFacts.RawHolds | apps/attendance/services/corrections.py:20-25 | each punch of a shift is read back as one event in UTC |
| LineFacts.LineShowsFirstWage | apps/payroll/services/preview.py:69-73 | the wage shown on a line is the one in force on the first of the month |
| LineFacts.HoursAddUp | apps/payroll/services/preview.py:80-91 | the hours of a line are the running total, rounded after each addition, of its segments' rounded hours |
| LineFacts.ExplanationIs | apps/payroll/services/earnings/base.py:30-41 | each rated segment is explained by its hours, its wage and their rounded product |
| LineFacts.ExplanationAddsUp | apps/payroll/services/earnings/base.py:30-41 | the running rounded total of the explained subtotals is the gross |
| PreviewMeaning.LineRatesOwedPlusDrift | apps/payroll/services/preview.py:82-104 | the rated work of every line = the wage of the Seoul date of each instant of the month at which the punches say working + the drift of stretches that reach over a Seoul midnight uncut, both read off the punches, over all shifts, offsets, corrections and wage changes |
| PreviewMeaning.LinePaysOwedPlusDrift | apps/payroll/services/preview.py:82-116 | so, up to a million segments and 10^11 won, the gross pay is that amount rounded up once, or one won more when that is whole |
| PreviewMeaning.LineCountsWork | apps/payroll/services/preview.py:82-92 | the counted microseconds of every line are those worked in the month − what the month before counted already + what reaches beyond the month's end |
| PreviewMeaning.LineHoursLaw | apps/payroll/services/preview.py:82-92 | with exact arithmetic these are the line's hours |
| PreviewMeaning.LineHoursNear | apps/payroll/services/preview.py:82-92 | in a 28-digit context the hours differ from them by at most 2.5e-16 for each of up to a million segments |
| PreviewMeaning.AlignedShiftsOweTheirInstants | apps/payroll/services/preview.py:82-104 | without shifts worked across an uncut Seoul midnight there is no drift |
| PreviewMeaning.LineReadsItsMonth | apps/payroll/services/preview.py:60-117 | a line depends on wages only on the dates of its month |
| PreviewMeaning.EarlierLinesUnchanged | apps/payroll/services/preview.py:120-147 | setting a wage from a month on leaves every earlier month's lines unchanged, for everyone |
| PreviewRuns.EveryEmployeeHasALine | apps/payroll/services/preview.py:63-68 | exactly those hired before the next month and not left before this one get a line, ordered by code |
| PreviewRuns.OnlyOpenShiftsBlockLines | apps/payroll/services/preview.py:82-88 | after any timely run a line's time blocker is OPEN_SHIFT or none, raised exactly by a shift of the employee clocked in before the month's end and still open |
| PreviewRuns.WageMissingIff | apps/payroll/services/preview.py:69-106 | after any history MISSING_HOURLY_WAGE is raised if and only if the employee was hired after the first of the month or worked before the hire date |
| PreviewRuns.MidMonthHireCannotBePaid | apps/payroll/services/preview.py:69-147 | a mid-month hire's line is blocked for want of a wage, and no wage for that month is ever accepted |
| PreviewRuns.LineBlockersAre | apps/payroll/services/preview.py:82-106 | a line is only ever blocked by OPEN_SHIFT or MISSING_HOURLY_WAGE |
| CloseGate.CollectBlockers | apps/payroll/services/close.py:83-134 | each blocker is reported if and only if its condition holds, and none if and only if the month may close |
| CloseGate.CheckOpenShifts | apps/payroll/services/close.py:85-103 | the period-not-ended and open-shift checks |
| CloseGate.CheckApprovals | apps/payroll/services/close.py:105-110 | the approval check that stops at the first unapproved shift of the month |
| CloseGate.CheckLines | apps/payroll/services/close.py:112-132 | the payload checks, including the labour week by the employee's terms or the caller's values |
| CloseReasons.BlockersAre | apps/payroll/services/close.py:83-134 | each of the nine blockers is raised if and only if its condition holds of the date, the shift rows, or some payload line |
| CloseReasons.TermWeekdayIs | apps/payroll/services/close.py:70-80 | the terms' rest day is that of the last row of the same employee covering the day; there is none exactly without such a row |
| CloseReasons.OthersTermsDoNotMatter | apps/payroll/services/close.py:70-80 | rows of other employees change nothing |
| CloseReasons.WeekBlocksIff | apps/payroll/services/close.py:121-130 | the labour week blocks if and only if the week of a rest day of that weekday still runs, or there is no rest day and the caller has not vouched |
| MonthPayload.BuildMonthPayload | apps/payroll/services/month_close.py:14-50 | a payload is built exactly when there are lines and none is blocked, with each line's net, earnings and blockers taken from it; otherwise every reason is reported |
| LineFacts.BuiltLineCarries | apps/payroll/services/month_close.py:33-47 | the i-th line carries the code of the month's i-th employee, its gross as net and only earning, and nothing that blocks |
| MonthPayload.BuildableIff | apps/payroll/services/month_close.py:21-28 | after any timely history a month can be built if and only if it has an employee, each was hired by its first day, and none is still clocked in from before its end |
| MonthPayload.BuiltPayloadIsReady | apps/payroll/services/close.py:112-132 | six days after month end no line of a built payload can block the close |
| MonthPayload.FromTheSixthOnlyShiftsBlock | apps/payroll/management/commands/finalize_previous_payroll.py:30-76 | from the sixth on only an open or unapproved shift can hold back the previous month's built payload |
| MonthPayload.MidMonthHireBlocksTheMonth | apps/payroll/services/month_close.py:21-28 | a month in which anyone is hired after its first day can never be built |
| Close.LatestSnapshot | apps/payroll/services/close.py:145 | the snapshot of the highest version |
| PayrollPeriods.PayrollPeriod.ClosePeriod | apps/payroll/services/close.py:137-170 | an undisturbed close: refused exactly when the gate is, with every blocker, unchanged while closed, otherwise the next version superseding the last |
| PayrollPeriods.PayrollPeriod.StoreNext | apps/payroll/services/close.py:143-158 | the locked transaction; the version constraint never fires |
| PayrollPeriods.PayrollPeriod.ReopenPeriod | apps/payroll/services/close.py:173-189 | needs a reason that is not blank, returns the period to draft and keeps every snapshot |
| PayrollPeriods.PayrollPeriod.CloseMonth | apps/payroll/views.py:112-128 | the manager's close: a draft month gets its next version exactly when its payload can be built and passes the gate |
| PayrollPeriods.PayrollPeriod.FinalizeAutomatically | apps/payroll/management/commands/finalize_previous_payroll.py:30-77 | an undisturbed automatic close stores version 1 of the previous month's payload exactly when it is switched on with a pay day, nothing is stored yet, and the month can be built and passes the gate; otherwise nothing changes |
| CloseSafety.StepKeeps | apps/payroll/services/close.py:137-189 | every step of every close, reopen and automatic run keeps the invariant and changes no stored snapshot |
| CloseSafety.SnapshotsFormAChain | apps/payroll/models/close.py:38-51 | for every interleaving versions are 1..n, each superseding the one before; closed implies 1 ≤ n ≤ reopens + 1, draft implies n ≤ reopens |
| CloseSafety.SnapshotsAreImmutable | apps/payroll/models/close.py:56-62 | what is stored at any point of a run is still there at its end |
| CloseSafety.SnapshotsCarryTheirReason | apps/payroll/services/close.py:137-159 | every snapshot stored by a run carries the reason some arrived close was asked for with, and counts as automatic exactly when that request was the finalizer's |
| CloseSafety.ReopenedOnlyWithReason | apps/payroll/services/close.py:173-180 | only a reopening whose reason says something returns a closed period to draft, and it keeps the snapshots |
| CloseSafety.AutomaticVersions | apps/payroll/management/commands/finalize_previous_payroll.py:43-55 | what an automatic run writes is version 1 if and only if nothing was stored between its look and its write |
| CloseSafety.UndisturbedAutomaticWritesVersionOne | apps/payroll/management/commands/finalize_previous_payroll.py:42-65 | however many of its steps run in a row, it writes version 1 of an empty period or nothing |
| CloseSafety.LateAutomaticRunSupersedes | apps/payroll/management/commands/finalize_previous_payroll.py:43-65 | with a close and a reopen in between it writes version 2 |
| CloseSafety.LateChangeIsNotPaid | apps/payroll/views.py:112-120 | a month can be closed in one state of the books with the payload of an earlier one |
| PinThrottle.PinDesk.Verify | apps/identity/auth/services.py:76-123 | unknown code, DEBUG master PIN, lock, employment, success and failure with their answer; a checked right PIN clears the record, a checked wrong one counts and the tenth locks for fifteen minutes, anything else changes nothing |
| PinThrottle.PinDesk.SetPin | apps/identity/auth/services.py:53-61 | a new PIN creates the record or clears its counter and lock |
| PinThrottle.RightGuessStartsAfresh | apps/identity/auth/services.py:110-123 | after any run ending in a checked right guess nine further wrong guesses are all checked and lock nothing; the tenth locks for fifteen minutes |
| PinRun.CallsWrite | apps/identity/auth/services.py:110-123 | under any interleaving a call with a checked right PIN writes a clear record, or finds it clear; a wrong one writes one failure more than it has read; no other call writes, and each is answered right, wrong or to wait |
| PinRun.CounterStaysBelowTheLimitAlways | apps/identity/auth/services.py:117-122 | under every interleaving of calls the failure counter, and what any call is about to save, stays below ten |
| PinRun.SequentialIffInOrder | apps/identity/auth/services.py:76-123 | interleaved calls do to the record what their checked guesses do one after another, throughout a run, if and only if every save is what its guess would do to the record it finds |
| PinRun.RateLimitedInOrder | apps/identity/auth/services.py:29-30 | in such runs at most 10·(⌊T / 15 min⌋ + 1) wrong guesses of a span of length T are checked |
| PinRun.EveryRunIsLimited | apps/identity/auth/services.py:76-123 | in every run of wrong guesses, however calls overlap, at most (d + 1)·(10·(⌊T / 15 min⌋ + 1) + 1) − 1 are checked, d being the number of other saves |
| PinRun.NothingLostIsInOrder | apps/identity/auth/services.py:76-123 | a save that finds the record its call has read is in order |
| PinRun.OneAtATimeLosesNothing | apps/identity/auth/services.py:76-123 | calls that do not overlap lose nothing |
| PinRun.OverlappingCallsCountOnce | apps/identity/auth/services.py:117-122 | any number of overlapping wrong guesses can all be checked at one instant and count as one failure |
| PinRun.LateSaveErasesLock | apps/identity/auth/services.py:117-122 | a call that saves after another one has locked writes the lock away |
| PinThrottle.KeepLedger | apps/identity/auth/services.py:117-121 | checked wrong guesses are ten for each lock plus the counter, and the k-th lock ends at least k lockouts after the start |
| PinThrottle.GuessesAreRateLimited | apps/identity/auth/services.py:76-123 | one after another, in a span of length T at most 10·(⌊T / 15 min⌋ + 1) wrong guesses are checked, less the failures already counted, whatever the order of clock readings |
| PinThrottle.BoundIsReached | apps/identity/auth/services.py:29-30 | for every whole number of lockouts that bound is met exactly |
| PinThrottle.MfaThrottle.RecordFailure | apps/identity/auth/services.py:186-195 | the fifth failure locks, and only it |
| Statements.BuildStatement | apps/exports/statement.py:74-136 | refused exactly when items exceed sixteen rows; otherwise every cell of the sheet is the one the layout gives it |
| Statements.TotalsMatchCells | apps/exports/statement.py:102-117 | the printed totals are the sums of the printed item cells and the net is their difference |
| Statements.StatementSays | apps/exports/statement.py:85-134 | every label, name and item of the statement is in its cell, and the item rows below the last are empty |
| Statements.BuildSummary | apps/exports/summary.py:11-43 | every cell of the sheet is the one the layout gives it: titles, one row for each statement, accumulated totals, and nothing else |
| Statements.SummaryTotalsMatchCells | apps/exports/summary.py:26-43 | the three printed totals are the sums of the printed rows above them, and the net total is pay − deductions |
| Statements.SummarySays | apps/exports/summary.py:17-41 | titles, and for each statement its employee, pay, deductions and net in their cells |
| Statements.BuildExport | apps/exports/package.py:31-81 | the whole package is made exactly when every line can be printed: a statement and a manifest entry for each line, and the summary of them all |
| Statements.ExportPrintsPayloadNets | apps/exports/package.py:31-78 | every net of a balanced payload is printed on its statement, in its summary row and in the manifest, and the printed net total is the sum of the payload's nets |
| Statements.ExportNamesEmployees | apps/exports/package.py:31-78 | each statement, summary row and manifest entry names the employee of its payload line, and the statement lists that line's items |
| Statements.BuiltPayloadsFit | apps/payroll/services/month_close.py:30-49 | every line of a built payload balances, can be printed, and carries its employee's gross pay |
| MonthClose.StoredPayloadsWereReady | apps/payroll/services/close.py:139-141 | in every run each stored payload was built from the books of one moment and then passed each check of the gate, one after another, at later moments; the month was over |
| MonthClose.StoredSnapshotsPayOwedPlusDrift | apps/payroll/views.py:112-120 | in every run the i-th line of every stored snapshot pays the month's i-th employee, within the bounds of a line's pay, what the books it was built from owe plus the drift of stretches worked over an uncut Seoul midnight |
| MonthUntouched.UntouchedMonthSamePayload | apps/payroll/services/preview.py:60-117 | books with the same employees of the month, the same wages of each on its dates, and for each the same shifts that touch it, build the same payload or none, whatever other shifts appear, close or change |
| MonthUntouched.LaterHire | apps/payroll/services/preview.py:63-68 | someone hired for a later month changes nothing about the month's employees |
| MonthActivity.ElsewhereLeavesTheMonth | apps/payroll/services/preview.py:77-85 | along every timely run, punches made after the month's end on shifts that do not touch it, and entries and corrections that do not, leave every shift of the month as it is |
| MonthActivity.ElsewhereLeavesThePayload | apps/payroll/services/month_close.py:14-50 | so they leave its payload as it is |
| MonthClose.UntouchedMonthIsCurrent | apps/payroll/services/month_close.py:14-50 | a stored payload is the one any other moment of the run would build, if the two agree on what concerns the month |
| MonthClose.ExportsPrintOwedPlusDrift | apps/payroll/views.py:85-96 | the export of a stored snapshot never fails, and the nets it prints everywhere are those amounts |
| MonthClose.ClosesFromTheSixthIff | apps/payroll/management/commands/finalize_previous_payroll.py:30-65 | after any timely history, from the sixth on, the previous month can be closed if and only if it has an employee, each was hired by its first day and has clocked out, and no shift of it is open or unapproved |

## Left out

- HTTP, templates, messages, the front end, device pairing, session handling, authorization, retention and logging: user interface and plumbing.
- Parsing of dates and times, timezone databases, hashing, TOTP, encryption, checksums and uuid5: events start as instants with an offset, a PIN guess is right or wrong, and manual keys are injective in their id and never equal a kiosk key.
- AttendanceStore.Store.RecordPunch: does not model what a failed punch insert returns; the insert leaves the tables as they were and nothing is claimed about the answer.
- AttendanceManual.ManualShiftsDisjoint: says nothing about kiosk shifts opened after the overlap check, because clock-ins make none.
- AttendanceBatches.BatchIsAllOrNothing: rows of a batch become visible in one step, at its commit, as a transaction is for its readers; its reads and locks are steps of their own.
- In the attendance jobs a row lock is dropped when a refusal is decided, slightly before the transaction ends, and jobs that wait for each other's rows wait for ever instead of one of them being aborted; neither removes a schedule in which both commit.
- BasePay.GrossIsCeilingOrOneMore: bounds the number of segments and the pay, because the drift of a decimal context grows with both; the error the decimal module raises beyond 28 digits is not modelled.
- PreviewMeaning.LinePaysOwedPlusDrift: has the same bounds, and so have PreviewMeaning.LineHoursNear and MonthClose.StoredSnapshotsPayOwedPlusDrift.
- The seconds of a segment pass through a float and its decimal text; that is exact for shifts of any realistic length and taken as exact.
- MonthClose.StoredPayloadsWereReady: the payload is built at one moment and the gate read at three (open shifts, approvals, lines); the single queries inside each are taken together.
- PinRun.CounterStaysBelowTheLimitAlways: the interleaved calls are verifications of one code; a new PIN set at the same time and the manager's MFA counter are modelled one call at a time only.
- Wage rows without a lower bound, which nothing in the application creates, and concurrent wage changes.
- Employees' own correction requests and their resolution, creating the period row, saving the store's settings, audit records, the pay date and the text of detail lines.
- Insurance premium estimates, manual earnings and deductions, weekly allowance amounts and insurance reconciliation: correct by reading one branch, and not part of the built payload.
- openpyxl and zip formats: a sheet is a map from cells to values; fonts, widths, print setup and file names are dropped.
