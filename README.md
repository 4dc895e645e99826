# HR system core in Dafny

A model of the business rules of a Flask HR application for an academic institution. Its
employees are faculty and staff who teach units, are paid through payrolls, take leave,
enrol in trainings, and are reported on by HR. Database reads are sequences, `today` and
`now` are parameters, and money and hours are exact `real` numbers.

Modules, one per part of the application:

- `Calendar`, `Text`, `Common`, `Users`: the Python behaviour the rules rely on.
  - `Calendar`: dates with `toordinal`, `weekday` and `calendar.monthrange`.
  - `Text`: `int()`, `str()`, `strip`, `split` and `join`.
  - `Common`: sums and counts over sequences.
  - `Users`: the user record and its role tests.
- `TeachingUnits` (`models.py`): the `TeachingUnit` class.
  - Attendance factors and the weighted attendance rate.
  - `duration_weeks`, and the date-driven status.
  - The typed relationship graph of `link_unit` and `unlink_unit`.
- `PayrollLedger` (`models.py`, `routes/payroll.py`): the `Payroll` class with its
  deduction and unit rows, and the handlers that create, edit, add or delete
  deductions, process and generate payrolls, and list them. The invariant kept
  throughout is that the stored totals equal the sums of the rows.
- `AttendanceReports` (`routes/attendance.py`): per-unit and overall status counts, the
  payroll deduction policy, and the hour-weighted report with its per-teacher breakdown.
- `TeachingRoutes` (`routes/teaching.py`): the teaching earnings fed to payroll, the rule
  for deleting attendance, and the link candidates.
- `Leaves`, `Trainings`, `Employees`, `Accounts`: the leave workflow; training enrolment
  and feedback; salary history and the employee list; the login rate limit, signup and
  profile pictures.
- `Forms` (`forms.py`): the validators of the form classes that take effect. Three classes
  are defined twice, and the later definition wins.
- `SalaryReports`, `Demographics`, `TimeOff` (`routes/reports.py`): the aggregations behind
  the salary, demographics and time-off reports.
- `DbConfig` (`supabase_client.py`): how the database URL is chosen from the environment.

Where the code departs from what the rest of the code evidently intends, the model follows
the code as written:

- `TeachingUnit.update_status` overwrites a `cancelled` status (models.py:579-588), while
  `TrainingProgram.update_status` keeps a cancelled program cancelled (models.py:360-372).
- `process` moves a payroll of any status, including `paid` and `cancelled`, to `paid` or
  `approved` (routes/payroll.py:297-324), while `edit` touches only draft and pending payrolls.
- The teaching-unit form that takes effect (forms.py:416-449) has no end-date check, so a
  unit may end before it starts (`Forms.TeachingUnitEndBeforeStartAccepted`). The earlier,
  overridden definition (forms.py:242-266) refuses an end before the start.
- `link_unit` never stores a link: the association row it queues has no
  `relationship_type`, which is NOT NULL, so the route's commit fails
  (`TeachingUnits.LinkAsWritten`, see Findings). `TeachingUnits.UnitRelationships.LinkUnit`
  is the intended typed link.
- `payroll.new` raises on every valid submission: it reads `form.deductions`, which the
  effective `PayrollForm` does not have, and an empty base pay would give `None + unit_pay`
  (`PayrollLedger.NewAsWritten`, see Findings). `PayrollLedger.Payroll.New` is the computation
  the handler evidently intends. That payroll stores manual deductions in its total without a
  matching row, so its totals agree with its rows only when there are none
  (`PayrollLedger.NewPayrollBalancedIff`).

## Model

| member | source | states |
|---|---|---|
| TeachingUnits.AttendanceFactor | models.py:613-623 | the weight of a record lies in [0, 1]; it is 1 exactly for `present` and 0 exactly for a status that is none of present, late and excused |
| TeachingUnits.AttendanceRate | models.py:553-577 | the weighted rate lies in [0, 100] and is 0 for a unit without records |
| TeachingUnits.AttendanceRateFull | models.py:553-577 | the rate is 100 exactly when the unit has records and all of them are `present` |
| TeachingUnits.AttendanceRateZero | models.py:553-577 | the rate is 0 exactly when no record is present, late or excused |
| TeachingUnits.NearestWeeks | models.py:535-541 | `round(days / 7)` is a whole number of weeks within 3 days of `days` |
| TeachingUnits.NearestWeeksUnique | models.py:535-541 | that number of weeks is unique, so a rounding tie never arises |
| TeachingUnits.DurationWeeks | models.py:535-541 | 0 exactly when a date is missing; otherwise at least 1 (also for an end before the start), 1 below 4 days, else the nearest whole number of weeks |
| TeachingUnits.UnitStatusOn | models.py:579-588 | pending iff today is before the start; active iff not before the start and not after the end; completed iff after the end; the stored status is not consulted |
| TeachingUnits.UnitStatusProgresses | models.py:579-588 | as the day advances the status never goes back (pending, then active, then completed) |
| TeachingUnits.TeachingUnit.constructor | models.py:459-481 | a new unit keeps its fields, is `pending` and has no attendance records |
| TeachingUnits.TeachingUnit.TotalHours | models.py:543-546 | total hours are at least the weekly hours (non-negative weekly hours) and 0 exactly when the weekly hours are 0 |
| TeachingUnits.TeachingUnit.TotalPayment | models.py:548-551 | the payment is non-negative for non-negative inputs and 0 exactly when the unit value or the rate is 0 |
| TeachingUnits.TeachingUnit.UpdateStatus | models.py:579-588 | the stored status becomes the date-driven status (overwriting `cancelled`) and is returned |
| TeachingUnits.Related | models.py:524-533 | a target is related exactly when the pair is linked and, when a type is given, the link carries that type |
| TeachingUnits.LinkAsWritten | models.py:494-514 | as written, linking the unit to itself or re-linking a pair is refused, and any other link ends in the integrity error of the commit, so the table never changes |
| TeachingUnits.LinkNeverStored | models.py:494-514 | for every pair the intended link would add, the as-written commit fails and the target stays unrelated, where the intended table relates it |
| TeachingUnits.UnitRelationships.constructor | models.py:484-491 | the association table starts empty |
| TeachingUnits.UnitRelationships.LinkUnit | models.py:494-514 | the intended link: succeeds exactly when the target is another unit and the pair is not yet linked; then exactly that typed pair is added, otherwise the table is unchanged |
| TeachingUnits.UnitRelationships.UnlinkUnit | models.py:516-522 | refuses only the unit itself; a pair that is not linked is the stale-data error of the commit, and the table is unchanged; otherwise exactly the pair is removed |
| TeachingUnits.UnitRelationships.RelatedUnits | models.py:524-533 | every unit returned is linked from the source |
| TeachingUnits.LinkedIsRelated | models.py:494-533 | after the intended link, the target is found both unfiltered and under its own type |
| TeachingUnits.LinkKeepsOthers | models.py:494-514 | linking leaves every other target's membership unchanged |
| TeachingUnits.LinkUnlinkRoundTrip | models.py:494-522 | unlinking a pair that was just linked restores the original table |
| TeachingUnits.UnlinkedIsUnrelated | models.py:516-533 | after unlinking, the target is no longer related under any type filter |
| PayrollLedger.Without | routes/payroll.py:277-292 | deleting a row removes exactly one occurrence of it (multiset difference) and leaves a table without it unchanged |
| PayrollLedger.WithoutSum | routes/payroll.py:277-292 | deleting a row takes exactly its amount off the sum of the deduction rows |
| PayrollLedger.AddDeleteRoundTrip | routes/payroll.py:246-292 | adding a deduction row and deleting it restores the rows and their sum |
| PayrollLedger.PayrollFormDates | forms.py:451-483 | a valid payroll form has both period dates in order, a base pay that is empty or a non-negative number, and a payment method that is empty or one of the four offered |
| PayrollLedger.UnlistedPaymentMethodRejected | forms.py:458-463 | a non-empty payment method outside the four choices makes the form invalid |
| PayrollLedger.NewAsWritten | routes/payroll.py:85-165 | the form is shown again exactly when it does not validate; otherwise the handler raises, a `TypeError` exactly when base pay was left empty and the `AttributeError` of `form.deductions` otherwise |
| PayrollLedger.ValidNewSubmissionRaises | routes/payroll.py:93-113 | for any employee list and period start there is a valid submission, and it raises the `AttributeError` instead of storing a payroll |
| PayrollLedger.AttendanceItems | routes/payroll.py:136-145 | one deduction row per attendance deduction, with its type, description and amount, on the new payroll |
| PayrollLedger.AttendanceItemsSum | routes/payroll.py:136-145 | the created rows sum to the attendance `total_deduction` |
| PayrollLedger.EarningItems | routes/payroll.py:146-158 | a unit row only for a unit that earned more than 0, and one for each such unit, carrying its hours, rate and earnings |
| PayrollLedger.EarningItemsSum | routes/payroll.py:146-158 | with no negative earnings the unit rows carry all the teaching earnings |
| PayrollLedger.NewPayrollBalancedIff | routes/payroll.py:104-158 | the stored totals of a new payroll agree with its rows exactly when there are no manual deductions |
| PayrollLedger.GeneratedUnitPay | routes/payroll.py:385-388 | the generated pay lies between 0 and the unit's total payment, and is 0 for a unit without records |
| PayrollLedger.GeneratedPayFull | routes/payroll.py:385-388 | the generated pay is the full payment exactly when the unit has records and all are present |
| PayrollLedger.Payroll.TotalPay | models.py:651-654 | total pay is base pay plus unit pay, at least each of them when both are non-negative; none when base pay is missing, as `None + x` raises |
| PayrollLedger.Payroll.NetPay | models.py:656-659 | net pay plus the deductions is the total pay; net does not exceed total iff deductions are non-negative; none when base pay is missing |
| PayrollLedger.Payroll.BalancedNetPay | models.py:651-683 | on a payroll with a base pay whose totals agree with its rows, net pay is base pay plus the unit rows minus the deduction rows |
| PayrollLedger.Payroll.New | routes/payroll.py:104-163 | the evidently intended payroll: gross is base pay plus teaching earnings, deductions are manual plus attendance deductions, net is their difference, and the rows are the attendance and earning rows |
| PayrollLedger.Payroll.FromUnit | routes/payroll.py:372-422 | a draft paid by direct deposit over the unit's dates, with no base pay or deductions, the note `Automatically generated from teaching unit: ` followed by the unit's title, unit pay = total payment × rate / 100, and one unit row carrying that amount; totals agree with rows |
| PayrollLedger.Payroll.UpdateTotals | models.py:673-683 | the totals become the sums of the rows; a payroll already in agreement does not change |
| PayrollLedger.Payroll.Edit | routes/payroll.py:202-224 | succeeds exactly for a draft or pending payroll with a valid form; then the form fields are copied: a submitted base pay is stored, an empty one stores none (so total and net pay become undefined), an absent one keeps the old value, and the payment method is empty or offered; otherwise nothing changes; stored totals and rows never change |
| PayrollLedger.Payroll.AddDeduction | routes/payroll.py:246-272 | with a valid form and a successful commit, one row is appended and the stored deductions grow by exactly its amount; otherwise nothing changes; agreement of totals and rows is preserved |
| PayrollLedger.Payroll.DeleteDeduction | routes/payroll.py:277-292 | a missing row or one of another payroll changes nothing; otherwise the row is removed and the stored deductions drop by its amount; agreement is preserved |
| PayrollLedger.Payroll.Process | routes/payroll.py:297-324 | whatever the prior status, it becomes paid or approved; a given date is stored, no date keeps the old one; an unparsable date changes nothing |
| PayrollLedger.EmployeeFilter | routes/payroll.py:36-42 | non-staff are held to their own id; staff see all or the chosen employee; a non-numeric choice is the `int()` error |
| PayrollLedger.PeriodWindow | routes/payroll.py:44-65 | the three named periods give the current month, the previous month and the current year; anything else gives no window |
| PayrollLedger.PreviousMonthAdjacent | routes/payroll.py:44-65 | the previous-month window ends the day before the current-month window starts |
| PayrollLedger.ShownOf | routes/payroll.py:34-78 | the listed payrolls are exactly those that pass every filter |
| PayrollLedger.Index | routes/payroll.py:23-80 | the list holds only stored payrolls, or the filter error |
| PayrollLedger.IndexOwnOnly | routes/payroll.py:36-39 | someone who is neither HR nor admin is only ever shown their own payrolls |
| PayrollLedger.IndexStaffSeesAll | routes/payroll.py:29-42 | with no search fields, HR and administrators see every payroll |
| AttendanceReports.TallyPartition | routes/attendance.py:430-444 | a unit's total is its number of records; the four status counts never exceed it and equal it exactly when every status is present, absent, late or excused |
| AttendanceReports.Percent | routes/attendance.py:454 | 0 when the whole is not positive; in [0, 100] for a part within the whole; 100 exactly when part equals whole |
| AttendanceReports.Rate | routes/attendance.py:446-447 | the present rate is 0 with no records, lies in [0, 100] and is 100 exactly when every record counts as present |
| AttendanceReports.UnitRecords | routes/attendance.py:424-428 | a record is selected exactly when it belongs to the unit and its date lies in the inclusive window |
| AttendanceReports.TotalsPartition | routes/attendance.py:432-454 | the overall status counts never exceed the overall total |
| AttendanceReports.CountStatuses | routes/attendance.py:430-444 | the unit counters are the counts of its records, and the overall counters grow by the same status counts |
| AttendanceReports.CalculateAttendanceStats | routes/attendance.py:398-456 | overall counters are the sums of the unit counters, every unit of the employee gets an entry with its counts and rate, and the rates lie in [0, 100] |
| AttendanceReports.AttendanceDeductions | routes/attendance.py:612-631 | an absence line exists iff there are absences, with 100 per absence; a late line exists iff there are more than 2 late arrivals, with 25 per extra one; the total is the sum of the lines; none and 0 otherwise |
| AttendanceReports.GetAttendanceForPayroll | routes/attendance.py:596-638 | the statistics of the window (present rate, and one entry per requested unit with its counts and rate) together with at most two deduction lines: an absence line iff there are absences, at 100 each, and a late line iff there are more than 2 late arrivals, at 25 per extra one; the total is their sum, equal to the policy amount and never negative |
| AttendanceReports.Summarize | routes/attendance.py:172-180 | the report counts every row; the rate is 0 without hours and lies in [0, 100] for non-negative hours |
| AttendanceReports.SummaryWeighted | routes/attendance.py:172-180 | the weighted hours of the summary are the hours weighted by `attendance_factor` |
| AttendanceReports.BreakdownMatchesSummary | routes/attendance.py:182-222 | a teacher's breakdown entry has the same hours and the same weighted rate as the summary over that teacher's rows alone |
| AttendanceReports.HoursOfSums | routes/attendance.py:182-209 | each hour column of a teacher's breakdown entry is the matching sum over that teacher's rows, late and excused hours once weighted |
| AttendanceReports.FacultyBreakdown | routes/attendance.py:182-222 | one entry per teacher with rows, holding that teacher's hours per status and weighted rate |
| AttendanceReports.NoRowsNoHours | routes/attendance.py:182-210 | a teacher without rows has no hours |
| AttendanceReports.ReportWindow | routes/attendance.py:132-143 | a custom range applies only with both dates; the current month runs from its first to its last day; otherwise no date filter |
| AttendanceReports.AttendanceReport | routes/attendance.py:94-226 | a posted form is shown again exactly when it does not validate, so the `All` choice (0) is never reported through it; an export link whose range is not `current_month` and lacks a date raises at the summary label; otherwise the rows are exactly those the window, teacher and unit filters select, and the summary is theirs |
| AttendanceReports.CurrentMonthReport | routes/attendance.py:135-143 | under `current_month` a record is kept exactly when it is dated in today's month |
| TeachingRoutes.ActiveUnits | routes/teaching.py:254-257 | a unit is considered exactly when it belongs to the employee and its status is `active` |
| TeachingRoutes.TaughtHoursOverUnitRecords | routes/teaching.py:268-273 | the hours taught are the present-or-late hours of exactly the unit's records in the window; absent and excused records add nothing |
| TeachingRoutes.TaughtHoursNonNegative | routes/teaching.py:268-273 | with non-negative record hours no unit is taught for negative hours |
| TeachingRoutes.GetTeachingDataForPayroll | routes/teaching.py:248-292 | one entry per active unit, in order and even with no hours, whose earnings are hours taught × rate; total earnings and total hours are the sums of the entries |
| TeachingRoutes.CanDeleteAttendance | routes/teaching.py:179-182 | deletion is allowed exactly for HR or admin, or for a user who owns the unit and recorded the entry |
| TeachingRoutes.WithoutId | routes/teaching.py:185 | the remaining rows are exactly those with another id |
| TeachingRoutes.AttendanceTable.constructor | routes/teaching.py:173-176 | the table holds the given rows |
| TeachingRoutes.AttendanceTable.DeleteAttendance | routes/teaching.py:173-188 | the row goes exactly when the permission rule allows it, and nothing else changes; otherwise the table is left alone |
| TeachingRoutes.LinkCandidates | routes/teaching.py:215-220 | a unit is offered exactly when it is another unit not yet linked from the source |
| TeachingRoutes.CandidatesCanBeLinked | routes/teaching.py:215-220 | every offered unit is one that `link_unit` accepts |
| Leaves.DurationDays | models.py:266-272 | 0 when a date is missing; at least 1 exactly when the end is not before the start; 1 for a single day |
| Leaves.DurationSplits | models.py:266-272 | cutting a leave after a given day splits its days exactly between the two parts |
| Leaves.LeaveFormCheck | forms.py:104-124 | accepted exactly for a listed type, both dates with the end not before the start, and a non-blank reason of at most 500 characters; a missing start with an end given raises |
| Leaves.AcceptedLeaveLasts | forms.py:121-124 | an accepted request lasts at least one day |
| Leaves.Find | routes/leaves.py:79 | a found position holds the id; no position means no request has it |
| Leaves.LeaveBook.constructor | models.py:247-264 | the table starts empty |
| Leaves.LeaveBook.New | routes/leaves.py:42-59 | an accepted form appends one request of the current user, `pending`, without approver; otherwise nothing is stored |
| Leaves.LeaveBook.Process | routes/leaves.py:77-98 | only staff; missing is a 404; a request no longer pending is refused; a valid decision sets status, comment and approver of exactly that request; every refusal leaves the table unchanged |
| Leaves.Select | routes/leaves.py:19-34 | a request is selected exactly when its status is among those asked for and, when an owner is given, it is theirs |
| Leaves.Index | routes/leaves.py:17-38 | staff see every pending request and the first ten decided ones (all of them when there are at most ten); a non-staff user sees all their own pending and all their own decided requests; every listed request is stored and has the list's status |
| Leaves.IndexOwnOnly | routes/leaves.py:26-34 | someone who is neither HR nor admin sees only their own requests |
| Trainings.TrainingStatusOn | models.py:360-372 | upcoming iff today is before the start; in progress iff not before the start and not after the end; completed iff after the end |
| Trainings.TrainingStatusProgresses | models.py:360-372 | as the day advances the status never goes back |
| Trainings.TrainingProgram.constructor | models.py:296-312 | a new program keeps its dates and capacity and is upcoming |
| Trainings.TrainingProgram.DurationDays | models.py:314-319 | at least one day exactly when the end is not before the start; one for a single day |
| Trainings.TrainingProgram.UpdateStatus | models.py:360-372 | a cancelled program stays cancelled; any other takes the date-driven status |
| Trainings.UnlimitedNeverFull | models.py:326-331 | a capacity of 0 is never full, however many are enrolled |
| Trainings.EnrolledCount | models.py:321-324 | the count never exceeds the number of rows, and equals it exactly when every row belongs to the program |
| Trainings.EnrolledCountAppend | models.py:321-324 | appending rows of the program raises its count by their number |
| Trainings.FindEnrollment | routes/trainings.py:146-148 | a found position holds an enrollment of that employee in that program; none means there is none |
| Trainings.Available | routes/trainings.py:124-128 | an employee is offered exactly when not yet enrolled in the program |
| Trainings.NewEnrollments | routes/trainings.py:130-137 | one `enrolled` row per selected employee, in order |
| Trainings.NewEnrollmentsInProgram | routes/trainings.py:130-137 | every new row belongs to the program, so the program's count grows by the number selected |
| Trainings.BulkEnrollmentCanExceedCapacity | routes/trainings.py:116-137 | the capacity is checked once: a program with one place left is not full, and after the rows for two selected employees are added its count is one over capacity |
| Trainings.Enrollments.constructor | models.py:374-391 | the table starts empty |
| Trainings.Enrollments.Enroll | routes/trainings.py:106-163 | refused unless upcoming or in progress, then refused when full; staff get the form back exactly when nothing valid was submitted, add one row per selected employee exactly when every one is offered and none is repeated, and hit the unique-constraint error on a repeated one; anyone else adds their own row exactly when not already enrolled; the program's count grows by the rows added; refusals change nothing |
| Trainings.Enrollments.Unenroll | routes/trainings.py:167-188 | unenrolling someone else needs HR or admin; a missing enrollment is a 404; otherwise exactly that row is removed and the others stay in order |
| Trainings.Enrollments.Feedback | routes/trainings.py:213-245 | a non-enrolled user gets a 404; feedback is refused unless the program is completed and the enrollment is not; then a valid form, and only a valid form, records rating and feedback and completes that enrollment only, and an invalid one changes nothing |
| Forms.RangeAfter | forms.py:270 | a chain ending in `NumberRange` passes exactly when the first validator lets the value through and the value is in range |
| Forms.AttendanceHoursRule | forms.py:388 | attendance hours are accepted exactly when given and within [0.5, 12] |
| Forms.HoursPerWeekRule | forms.py:431 | weekly hours are accepted exactly when given and within [0.5, 40] |
| Forms.UnitValueRule | forms.py:432 | academic units are accepted exactly when given and within [0.5, 10] |
| Forms.PositiveAmountRule | forms.py:313 | deduction amount, rate per unit and salary amount are accepted exactly when given and positive, since `DataRequired` refuses 0 |
| Forms.BasePayRule | forms.py:456 | base pay may be left empty and otherwise must not be negative |
| Forms.EndDateCheck | forms.py:121-124 | accepted exactly when both dates are given and the end is not before the start; a missing start with an end raises |
| Forms.EndDateSameDay | forms.py:159-162 | an end on the start day is accepted |
| Forms.PeriodEndValid | forms.py:475-478 | the period end is required and an error only when both dates are present and the end comes first |
| Forms.PaymentDateValid | forms.py:480-483 | the payment date is an error exactly when both dates are present and it comes before the period end |
| Forms.TeachingUnitEndBeforeStartAccepted | forms.py:416-449 | the effective teaching-unit form accepts a unit that ends before it starts |
| Employees.AnnualizedAmount | models.py:432-449 | a non-negative amount never shrinks; the annual figure equals the amount exactly when it is 0 or the type is neither hourly, monthly nor stipend; full-time monthly pay is 12 times the amount |
| Employees.FullTimeEarnsMost | models.py:434-444 | for any non-negative amount and salary type, the full-time annual figure is at least that of any other contract type |
| Employees.AcademicYear | routes/employees.py:103-108 | the label is the academic year's first year, a dash, and the next year; the year starts in August |
| Employees.AcademicYearWindow | routes/employees.py:105-108 | every valid day lies on or after 1 August of its academic year's first year and before 1 August of the next |
| Employees.AcademicYearLabel | routes/employees.py:106-108 | splitting the label at its dash gives back the two years as text |
| Employees.CurrentSalary | routes/employees.py:77-80 | the position found is the employee's first row with no end date; none is found exactly when the employee has no such row |
| Employees.SalaryHistory.constructor | models.py:404-420 | the salary table starts empty |
| Employees.SalaryHistory.ManageSalary | routes/employees.py:73-122 | a salary is saved iff the employee exists and the form is valid (positive amount, listed choices, a date); the new row is current and carries the academic year; the employee's current salary is closed the day before the new date only when it took effect strictly earlier; no other row changes; dates stay valid |
| Employees.EmployeeList | routes/employees.py:20-54 | a user is listed iff an administrator views, or the user is not an administrator, and, when the search form validates with a department, the department matches |
| Employees.DepartmentFilter | routes/employees.py:31-46 | a department filter applies exactly when the search form validates and names a department |
| Employees.InvalidSearchListsEveryone | routes/employees.py:31-54 | an invalid search form (an unlisted department or an over-long search) filters nothing: the list is everyone the viewer may open |
| Employees.ListMatchesDetail | routes/employees.py:49-67 | without a department filter, a user is listed exactly when the viewer may open their detail page |
| Employees.RecordsOf | routes/employees.py:317-321 | exactly the attendance records of the unit, at most all of them |
| Employees.Presence | routes/employees.py:316-326 | total is the unit's record count and present at most that; the rate lies in 0..100, is 0 with no records, and is 100 exactly when there are records and all are present |
| Employees.AttendanceStats | routes/employees.py:313-326 | one entry per unit of the employee and nothing else, each equal to the unit's presence |
| Accounts.FailedSince | models.py:105-110 | the count of failures from the address at or after the window start never exceeds the number of attempts |
| Accounts.LatestFailure | models.py:113-117 | the time of a failed attempt from the address that no other failure from it exceeds; none exactly when the address never failed |
| Accounts.IsRateLimited | models.py:89-132 | locked iff the address has at least `max` failures in the window and its latest failure is less than a window old; locked means no attempts remaining; otherwise `max` minus the recent failures remain |
| Accounts.FailureCounts | routes/auth.py:41-44 | a failure logged now adds exactly one to the failures counted in the window |
| Accounts.RecentFailuresLock | models.py:112-128 | enough recent failures, one of them younger than the window, always lock the address |
| Accounts.AttemptLog.constructor | models.py:81-87 | the attempt table starts empty |
| Accounts.AttemptLog.Login | routes/auth.py:22-49 | right credentials sign in and append two successes, whatever the lock; wrong ones append one failure and report the lock exactly when the earlier recent failures plus this one reach 5, otherwise the 1..4 attempts that remain |
| Accounts.SignupRole | routes/auth.py:85-97 | the first user keeps the requested role; anyone later asking for admin or hr becomes an employee; the result is always the request or employee |
| Accounts.UserTable.constructor | models.py:12-18 | the user table starts empty |
| Accounts.UserTable.Signup | routes/auth.py:56-113 | a signed-in visitor is turned away; an invalid form (admin no longer offered once an administrator exists) adds nothing; a taken email, then a taken username, is refused; otherwise exactly one user is appended with the role SignupRole gives |
| Accounts.LaterSignupsAreEmployees | routes/auth.py:62-97 | once any user exists, a valid signup always yields an employee |
| Accounts.EmployeeProfile.constructor | models.py:153-172 | a new profile holds no Cloudinary identifiers |
| Accounts.EmployeeProfile.SetProfileImage | models.py:184-205 | without a public id nothing changes and the answer is false; otherwise the folder is the text before the first slash and folder, slash and id give back the public id (or the default folder and the whole id), the version is stored as text, and a slash-free id counts as a picture iff it is non-empty and not the placeholder |
| SalaryReports.LatestSalary | routes/reports.py:68-72 | the chosen row belongs to the employee and no row of theirs has a later effective date; none exactly when the employee has no salary |
| SalaryReports.EquivalentsAgree | routes/reports.py:84-85 | the annual equivalent is twelve monthly equivalents iff the type is monthly or annual (or the amount is 0); for any other type it is 144 of them |
| SalaryReports.ReportRows | routes/reports.py:53-94 | no more rows than employees, each of the chosen department and carrying the amount of its employee's latest salary |
| SalaryReports.ReportRowsNameEmployees | routes/reports.py:64-94 | every row names an employee of the list, by id and department |
| SalaryReports.ReportRowsDistinct | routes/reports.py:64-94 | with distinct employee ids, no two rows name the same employee: at most one row per employee |
| SalaryReports.EveryPaidEmployeeReported | routes/reports.py:57-94 | every employee of the department who has a salary gets a row built from their latest salary |
| SalaryReports.CollectRows | routes/reports.py:64-94 | the rows are ReportRows and the two totals are the sums of the monthly and annual equivalents over them |
| SalaryReports.Summarize | routes/reports.py:107-115 | the employee count is the row count; the departments are the distinct row departments, no more than the rows; the averages times the row count give the totals, and everything is 0 with no rows |
| SalaryReports.GroupKey | routes/reports.py:99-100 | a group key exists exactly for department and salary type |
| SalaryReports.RowsWithKey | routes/reports.py:99-103 | exactly the rows whose group is the key |
| SalaryReports.Group | routes/reports.py:96-105 | `none` gives the single group `all`; otherwise an unusable grouping fails iff there are rows, and on success each group holds exactly its key's rows, none is empty, and every row's key is a group |
| Demographics.Tenure | routes/reports.py:297-301 | no hire date gives 0; otherwise the tenure is positive iff hiring was before today, and 365.25 times it is the days between the two |
| Demographics.TenureBucket | routes/reports.py:354-370 | one of the five ranges, whose lower threshold the tenure has reached and whose upper threshold it has not |
| Demographics.BucketMonotone | routes/reports.py:361-370 | a longer tenure never falls in an earlier range |
| Demographics.BucketCount | routes/reports.py:358-370 | a range holds at most all the tenures |
| Demographics.BucketsPartition | routes/reports.py:355-370 | the five range counts add up to the number of employees |
| Demographics.TenureCounts | routes/reports.py:355-370 | five counts, each the number of tenures in its range |
| Demographics.Tenures | routes/reports.py:293-301 | one tenure per employee, in order, each that employee's tenure |
| Demographics.DeptOf | routes/reports.py:320-334 | a department's employees with positive tenure are no more than its employees, who are no more than all; the tenure total is non-negative and 0 exactly when nobody has a positive tenure |
| Demographics.AvgTenure | routes/reports.py:346-351 | 0 when nobody has a positive tenure, otherwise the average that, times their number, gives the total |
| Demographics.AvgTenurePositive | routes/reports.py:346-351 | a department with someone of positive tenure has a positive average |
| Demographics.EducationCount | routes/reports.py:310-318 | a level is counted for at most all employees |
| Demographics.HireYearCount | routes/reports.py:303-308 | a hire year is counted for at most all employees |
| Demographics.GatherStats | routes/reports.py:293-334 | the department, education and hire-year dictionaries have one key per group that occurs and nothing else, each holding that group's tallies |
| Demographics.DepartmentsIn | routes/reports.py:320-334 | every employee's department is among the keys |
| Demographics.LevelsIn | routes/reports.py:310-318 | every employee's education level, `Unknown` when missing, is among the keys |
| Demographics.YearsIn | routes/reports.py:303-308 | every hire year that occurs is among the keys |
| Demographics.AbsentDept | routes/reports.py:320-334 | a department no employee has gets empty tallies |
| Demographics.AbsentLevel | routes/reports.py:310-318 | a level no employee has is counted 0 times |
| Demographics.AbsentYear | routes/reports.py:303-308 | a year nobody was hired in is counted 0 times |
| Demographics.MaxTenure | routes/reports.py:383-385 | at least every positive tenure, never negative, and one of the tenures when positive |
| Demographics.OverallTenure | routes/reports.py:382-385 | the maximum is that of the positive tenures; with none both figures are 0; the average lies between 0 and the maximum |
| Demographics.MeanBelow | routes/reports.py:384 | a non-negative total of n values each at most m has a mean between 0 and m |
| TimeOff.SelectedYearRoundTrip | routes/reports.py:751-757 | a year written as text is read back as that year, whatever the current year |
| TimeOff.YearBounds | routes/reports.py:771-772 | the year's first and last days exist exactly for years 1 to 9999 (otherwise the error), and both lie in that year |
| TimeOff.InYearByYear | routes/reports.py:773-778 | for real dates, the year filter holds iff the leave starts or ends in the selected year |
| TimeOff.Selected | routes/reports.py:760-781 | a leave is selected iff it passes the year filter and the department and leave-type filters that are given |
| TimeOff.TotalDaysAtLeastCount | routes/reports.py:841-842 | when every leave ends on or after its start, the total leave days are at least the number of leaves |
| TimeOff.StatusCount | routes/reports.py:844-850 | a status is counted for at most all leaves |
| TimeOff.StatusCountsBound | routes/reports.py:844-850 | approved, pending and denied together never exceed the leaves, and equal them iff every status is one of the three |
| TimeOff.TypeTally | routes/reports.py:852-861 | a leave type is counted for at most all leaves |
| TimeOff.DeptTally | routes/reports.py:863-875 | a department's distinct employees are no more than its leaves, which are no more than all; it has leaves iff it has employees |
| TimeOff.AddLeave | routes/reports.py:865-875 | one more leave adds at most one employee |
| TimeOff.AvgDays | routes/reports.py:914-918 | 0 with no employees, otherwise the average that, times the employees, gives the department's days |
| TimeOff.MonthShare | routes/reports.py:877-901 | a leave within one month adds its whole duration to that month only; months outside its start and end months get nothing; months strictly between get their full length |
| TimeOff.SpreadAddsDuration | routes/reports.py:877-901 | a leave starting and ending, in order, in the selected year adds exactly its duration over the twelve months |
| TimeOff.ShareSumSingle | routes/reports.py:882-884 | the running sum of a one-month leave is 0 before its month and its duration from then on |
| TimeOff.ShareSumSpread | routes/reports.py:886-901 | the running sum of a multi-month leave in its own year, in closed form from the days before each month |
| TimeOff.MonthsAddUpToTotal | routes/reports.py:839-901 | when every leave starts and ends, in order, in the selected year, the twelve monthly figures add up to the total leave days |
| TimeOff.Analyse | routes/reports.py:829-901 | the total days and status counts are those of all selected leaves; the type and department dictionaries have exactly the occurring keys, each with its tally; each month holds the leaves' shares of it |
| TimeOff.SpreadLeave | routes/reports.py:877-901 | each month's figure grows by exactly the leave's share of it |
| TimeOff.DayCount | routes/reports.py:801-803 | a day is covered by at most all leaves |
| TimeOff.HeatLevel | routes/reports.py:805-817 | a level from 0 to 5: 0 exactly with no leave, 5 exactly beyond 15 |
| TimeOff.HeatMonotone | routes/reports.py:805-817 | more leave on a day never lowers its heat level |
| TimeOff.LeadingBlanks | routes/reports.py:790-797 | fewer than seven blank cells |
| TimeOff.GridColumns | routes/reports.py:790-801 | every day of the month lands in the column of its weekday, with Sunday first |
| TimeOff.MonthGrid | routes/reports.py:786-824 | the month's blank cells, then one cell per day in order, holding the day, the number of leaves that include it and its heat level |
| TimeOff.CalendarData | routes/reports.py:784-826 | exactly the months 1 to 12, each holding that month's grid |
| DbConfig.Setting | supabase_client.py:28 | a variable counts exactly when it is set to a non-empty value |
| DbConfig.NormalizeScheme | supabase_client.py:31-33 | a `postgres://` prefix becomes `postgresql://` and the rest is kept; any other URL is unchanged |
| DbConfig.NormalizedHasNoOldScheme | supabase_client.py:31-33 | a normalized URL never starts with `postgres://` |
| DbConfig.NormalizeIdempotent | supabase_client.py:31-33 | normalizing twice is normalizing once |
| DbConfig.PortSetting | supabase_client.py:39-42 | any integer written into the port variable is the port used; without the variable the port is 5432 |
| DbConfig.GetDbUrl | supabase_client.py:23-52 | the non-pooling URL wins, then the pooled one, both normalized; the error arises exactly when neither URL nor a host is set; a result never has the old scheme |
| DbConfig.NonPoolingWins | supabase_client.py:28 | with the non-pooling URL set, every other variable is irrelevant |
| DbConfig.ComposedFromParts | supabase_client.py:44-52 | without URLs, a host gives the URL built from user, password, host, the configured port and database |
| Calendar.DaysInMonth | routes/reports.py:787 | a month has 28 to 31 days, and 29 exactly for February of a leap year |
| Calendar.Weekday | routes/reports.py:791 | a weekday from 0 (Monday) to 6 |
| Text.IntRoundTrip | routes/reports.py:751-755 | parsing the text of any integer gives that integer back |
| Text.Split | models.py:190-191 | at least one part, none holding the separator, and two or more exactly when the separator occurs |
| Text.SplitJoin | models.py:191-193 | joining the parts of a split with the same separator gives back the original text |
| Text.NoBreakSpaceIsBlank | forms.py:118 | a reason made only of no-break spaces strips to nothing, so `DataRequired` refuses it as Python does |

## Left out

- Rendering and export are not modelled, only the numbers and rows fed to them. This covers templates, `flash` messages and their wording, redirects, and the PDF, CSV and Excel writers.
- `export_time_off_analysis` repeats the aggregation loop of `time_off_analysis` (routes/reports.py:1009-1104), which `TimeOff.Analyse` models. Its file output is not modelled.
- The ORM is replaced by in-memory data: queries are sequences in stored order and sessions are field updates. `order_by` sorting is not modelled.
- The raw-SQL helpers `add_deduction_safe` and `safe_deduction_items`, and the migrations, are not part of this model.
- The wall clock is a parameter (`today`, `now`), and times in the rate limit are whole seconds.
- Money and hours are exact reals. IEEE rounding and `strftime` formatting are not modelled.
- Network and foreign services are not modelled: Cloudinary uploads, the Supabase client creation (supabase_client.py:9-20), e-mail and password-reset tokens, the chatbot.
- Argon2 password hashing is not modelled. `User.authenticate` is the `authenticated` input of `Accounts.AttemptLog.Login`.
- Session gatekeeping is assumed to have let the caller in: `login_required` and `hr_required` in utils/decorators.py. Role checks made inside the handlers are modelled.
- The dashboard, the JSON API, the admin routes and the sample-data seeder are not part of this model. Their arithmetic repeats rules covered here.
- PayrollLedger.Payroll.New: as written `payroll.new` raises on every valid submission (see Findings). The method models the evidently intended payroll. It takes the manual deductions as an input, since the form has no such field. It also maps each unit's hours, rate and earnings onto the row's columns, where the source passes keyword arguments that are not columns.
- Accounts.AttemptLog.Login: starts after the signed-in redirect and a valid `LoginForm`, which change nothing.
- Accounts.AttemptLog.Login: the user name and user agent stored with each attempt, and the minutes and seconds in the lock message, are not modelled.
- Accounts.SignupFormValid: whether the address passes WTForms' `Email()` check is an input.
- Accounts.EmployeeProfile.constructor: the database defaults `hr_profile_pictures` and `default-profile` apply only once the row is stored, so a fresh object holds none.
- Text.ParseInt: Python's `int()` also accepts digit-group underscores and non-ASCII digits; the model accepts ASCII digits, with the whitespace of `str.isspace` around them.
- Employees.EmployeeList: the search box's `LIKE` filter over names and e-mail is not modelled. Its 100-character limit is part of the form's validation, which decides whether the department filter applies.
- Demographics.GatherStats: takes the employees the department-filtered query returns. Not modelled: the chart colours, and the longest-tenured employee, largest department and highest degree picked after the loop.
- SalaryReports.ReportRows: a row keeps the raw department name, not the title-cased label; display name and position are not modelled. `date_range` and `include_inactive` are read by the handler but never used.
- TeachingUnits.LinkedIsRelated: holds of the intended link (`TeachingUnits.UnitRelationships.LinkUnit`); as written no link is stored, so the target is never found (`TeachingUnits.LinkNeverStored`).
- AttendanceReports.AttendanceReport: takes the export link's employee, unit and dates already parsed, so the `ValueError` of a non-numeric id or a malformed date is not modelled; the CSV, PDF and HTML output is not modelled.
- SalaryReports.GroupKey: only the grouping choices of the form are modelled. `department` and `salary_type` work and `contract_type` is the KeyError. A GET request naming another row column, such as `currency`, would also group in the source, but the model treats it as the KeyError.
- The teaching routes' list, view, create, edit and attendance-recording handlers are not modelled. They only copy form fields into rows behind simple role checks. Of `link_unit` and `unlink_unit`, the candidate filter is `TeachingRoutes.LinkCandidates`, and the table changes are `TeachingUnits.UnitRelationships`.
- TeachingUnits.AttendanceRate: the mean is taken over exact reals, so the source's float rounding is not modelled.

## Findings

| source | as written | input that shows it | evidently intended | confidence | as-written member | corrected member |
|---|---|---|---|---|---|---|
| routes/payroll.py:110-113 | a valid form reaches `form.base_pay.data + unit_pay` and `form.deductions.data`; `PayrollForm` has no `deductions` field, and an empty base pay is `None` | any valid submission, such as a one-day period of a listed employee with base pay 1000, payment method `cash` and status `draft` | store the payroll with its base pay, teaching earnings and manual plus attendance deductions, and its attendance and earning rows | not executed | PayrollLedger.ValidNewSubmissionRaises | PayrollLedger.Payroll.New |
| models.py:505-512 | `link_unit` appends an association row with only the two unit ids and then sets its type with a Core UPDATE, which runs before the row is flushed and matches nothing; the commit inserts a null `relationship_type` into a NOT NULL column | linking unit 1 to unit 2 when they are not yet linked | store the link with its relationship type | not executed | TeachingUnits.LinkNeverStored | TeachingUnits.UnitRelationships.LinkUnit |
