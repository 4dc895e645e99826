/**
 * Attendance aggregation of the attendance routes: per-unit and overall status counts
 * over an inclusive date window (`calculate_attendance_stats`), the fixed deduction
 * policy applied to them (`get_attendance_for_payroll`), and the hour-weighted summary
 * and per-teacher breakdown of the attendance report.
 */
module AttendanceReports {
  import opened Common
  import opened Calendar
  import opened Text
  import opened TeachingUnits

  /** Status counts: `total` counts every record, the others one status each. */
  datatype Tally = Tally(total: nat, present: nat, absent: nat, late: nat, excused: nat)

  /** One entry of `stats['units']`. */
  datatype UnitStats = UnitStats(tally: Tally, rate: real)

  /** The dictionary `calculate_attendance_stats` returns. */
  datatype Stats = Stats(totals: Tally, rate: real, units: map<int, UnitStats>)

  const NoRecords := Tally(0, 0, 0, 0, 0)

  predicate KnownStatus(status: string)
  {
    status == "present" || status == "absent" || status == "late" || status == "excused"
  }

  function Bump(b: bool): nat { if b then 1 else 0 }

  /** The counters after one more record: the total always grows, at most one status does. */
  function Count(t: Tally, r: Attendance): Tally
  {
    Tally(t.total + 1,
          t.present + Bump(r.status == "present"),
          t.absent + Bump(r.status == "absent"),
          t.late + Bump(r.status == "late"),
          t.excused + Bump(r.status == "excused"))
  }

  /** The counters over a sequence of records. */
  function TallyOf(rs: seq<Attendance>): Tally
  {
    if |rs| == 0 then NoRecords else Count(TallyOf(rs[..|rs| - 1]), rs[|rs| - 1])
  }

  function AddTally(a: Tally, b: Tally): Tally
  {
    Tally(a.total + b.total, a.present + b.present, a.absent + b.absent, a.late + b.late, a.excused + b.excused)
  }

  function StatusSum(t: Tally): nat { t.present + t.absent + t.late + t.excused }

  /**
   * The four status counts never exceed the number of records; they add up to it exactly
   * when every record has one of the four known statuses (any other status is counted
   * only in the total).
   */
  lemma {:induction false} TallyPartition(rs: seq<Attendance>)
    ensures TallyOf(rs).total == |rs|
    ensures StatusSum(TallyOf(rs)) <= |rs|
    ensures StatusSum(TallyOf(rs)) == |rs| <==> forall r :: r in rs ==> KnownStatus(r.status)
  {
    if |rs| > 0 {
      var rs', r := rs[..|rs| - 1], rs[|rs| - 1];
      assert rs == rs' + [r];
      TallyPartition(rs');
      assert forall x :: x in rs' ==> x in rs;
      assert r in rs;
      if StatusSum(TallyOf(rs)) == |rs| {
        forall x | x in rs ensures KnownStatus(x.status) {
          if x != r {
            assert x in rs';
          }
        }
      }
    }
  }

  /** `part / whole * 100`, or 0 when the whole is not positive. */
  function Percent(part: real, whole: real): (r: real)
    ensures whole <= 0.0 ==> r == 0.0
    ensures 0.0 <= part <= whole ==> 0.0 <= r <= 100.0
    ensures whole > 0.0 ==> (r == 100.0 <==> part == whole)
  {
    if whole > 0.0 then
      assert part <= whole ==> part / whole <= 1.0;
      part / whole * 100.0
    else 0.0
  }

  /** `present / total * 100` on counts, or 0 when there is nothing to divide by. */
  function Rate(part: nat, total: nat): (r: real)
    ensures total == 0 ==> r == 0.0
    ensures part <= total ==> 0.0 <= r <= 100.0
    ensures total > 0 ==> (r == 100.0 <==> part == total)
  {
    Percent(part as real, total as real)
  }

  /** The records of one unit dated inside the inclusive window: the query of the source. */
  function UnitRecords(records: seq<Attendance>, unitId: int, start: Date, end: Date): (rs: seq<Attendance>)
    ensures forall r :: r in rs <==> r in records && r.unitId == unitId && InWindow(r.date, start, end)
  {
    if |records| == 0 then []
    else
      var rest := UnitRecords(records[..|records| - 1], unitId, start, end);
      var r := records[|records| - 1];
      assert records == records[..|records| - 1] + [r];
      if r.unitId == unitId && InWindow(r.date, start, end) then rest + [r] else rest
  }

  function UnitTally(records: seq<Attendance>, unitId: int, start: Date, end: Date): Tally
  {
    TallyOf(UnitRecords(records, unitId, start, end))
  }

  /** The overall counters: the unit counters added up over the employee's units. */
  function TotalsOver(records: seq<Attendance>, unitIds: seq<int>, start: Date, end: Date): Tally
  {
    if |unitIds| == 0 then NoRecords
    else AddTally(TotalsOver(records, unitIds[..|unitIds| - 1], start, end),
                  UnitTally(records, unitIds[|unitIds| - 1], start, end))
  }

  /** Taking one more unit adds its counters to the overall ones. */
  lemma TotalsOverStep(records: seq<Attendance>, unitIds: seq<int>, i: nat, start: Date, end: Date)
    requires i < |unitIds|
    ensures TotalsOver(records, unitIds[..i + 1], start, end) ==
      AddTally(TotalsOver(records, unitIds[..i], start, end), UnitTally(records, unitIds[i], start, end))
  {
    assert unitIds[..i + 1][..i] == unitIds[..i];
  }

  /** The overall counters keep the partition property of the unit counters. */
  lemma {:induction false} TotalsPartition(records: seq<Attendance>, unitIds: seq<int>, start: Date, end: Date)
    ensures StatusSum(TotalsOver(records, unitIds, start, end)) <= TotalsOver(records, unitIds, start, end).total
  {
    if |unitIds| > 0 {
      TotalsPartition(records, unitIds[..|unitIds| - 1], start, end);
      TallyPartition(UnitRecords(records, unitIds[|unitIds| - 1], start, end));
    }
  }

  /**
   * The inner loop of `calculate_attendance_stats`: the unit's total is the number of its
   * records, and each known status bumps both the unit counter and the overall counter.
   */
  method CountStatuses(rs: seq<Attendance>, totals: Tally) returns (unit: Tally, totals': Tally)
    ensures unit == TallyOf(rs)
    ensures totals' == AddTally(totals, TallyOf(rs).(total := 0))
  {
    unit := Tally(|rs|, 0, 0, 0, 0);
    totals' := totals;
    var j := 0;
    while j < |rs|
      invariant 0 <= j <= |rs|
      invariant unit == TallyOf(rs[..j]).(total := |rs|)
      invariant totals' == AddTally(totals, TallyOf(rs[..j]).(total := 0))
    {
      var r := rs[j];
      assert rs[..j + 1][..j] == rs[..j];
      assert TallyOf(rs[..j + 1]) == Count(TallyOf(rs[..j]), r);
      if r.status == "present" {
        unit := unit.(present := unit.present + 1);
        totals' := totals'.(present := totals'.present + 1);
      } else if r.status == "absent" {
        unit := unit.(absent := unit.absent + 1);
        totals' := totals'.(absent := totals'.absent + 1);
      } else if r.status == "late" {
        unit := unit.(late := unit.late + 1);
        totals' := totals'.(late := totals'.late + 1);
      } else if r.status == "excused" {
        unit := unit.(excused := unit.excused + 1);
        totals' := totals'.(excused := totals'.excused + 1);
      }
      j := j + 1;
    }
    assert rs[..j] == rs;
    TallyPartition(rs);
  }

  /**
   * `calculate_attendance_stats`: for each unit of the employee, counts the statuses of
   * its records in the window and its present rate; the overall counters are the sums
   * of the unit counters and the overall rate is computed from them.
   */
  method CalculateAttendanceStats(unitIds: seq<int>, records: seq<Attendance>, start: Date, end: Date)
    returns (stats: Stats)
    ensures stats.totals == TotalsOver(records, unitIds, start, end)
    ensures stats.rate == Rate(stats.totals.present, stats.totals.total)
    ensures 0.0 <= stats.rate <= 100.0
    ensures forall id :: id in stats.units <==> id in unitIds
    ensures forall id :: id in stats.units ==>
      var t := UnitTally(records, id, start, end);
      stats.units[id] == UnitStats(t, Rate(t.present, t.total))
  {
    var totals := NoRecords;
    var units: map<int, UnitStats> := map[];
    var i := 0;
    while i < |unitIds|
      invariant 0 <= i <= |unitIds|
      invariant totals == TotalsOver(records, unitIds[..i], start, end)
      invariant UnitsCovered(units, unitIds[..i], records, start, end)
    {
      var id := unitIds[i];
      var rs := UnitRecords(records, id, start, end);
      var before := totals;
      var unit;
      unit, totals := CountStatuses(rs, totals);
      totals := totals.(total := totals.total + unit.total);
      assert totals == AddTally(before, unit);
      TotalsOverStep(records, unitIds, i, start, end);
      UnitsCoveredStep(units, unitIds[..i], id, records, start, end);
      assert unitIds[..i + 1] == unitIds[..i] + [id];
      units := units[id := UnitStats(unit, Rate(unit.present, unit.total))];
      i := i + 1;
    }
    assert unitIds[..i] == unitIds;
    TotalsPartition(records, unitIds, start, end);
    stats := Stats(totals, Rate(totals.present, totals.total), units);
  }

  /** `units` holds an entry for exactly the units `ids`, each with its tally and rate. */
  ghost predicate UnitsCovered(units: map<int, UnitStats>, ids: seq<int>, records: seq<Attendance>, start: Date, end: Date)
  {
    (forall id :: id in units <==> id in ids) &&
    forall id :: id in units ==>
      var t := UnitTally(records, id, start, end);
      units[id] == UnitStats(t, Rate(t.present, t.total))
  }

  /** Recording one more unit's entry covers that unit too. */
  lemma UnitsCoveredStep(units: map<int, UnitStats>, ids: seq<int>, id: int, records: seq<Attendance>, start: Date, end: Date)
    requires UnitsCovered(units, ids, records, start, end)
    ensures var t := UnitTally(records, id, start, end);
      UnitsCovered(units[id := UnitStats(t, Rate(t.present, t.total))], ids + [id], records, start, end)
  {
  }

  /** One entry of the `deductions` list handed to payroll. */
  datatype DeductionLine = DeductionLine(kind: string, description: string, amount: real)

  function Amount(d: DeductionLine): real { d.amount }

  /** The late arrivals the policy tolerates in one period. */
  const ToleratedLate := 2

  const AbsencePenalty := 100.0

  const LatePenalty := 25.0

  /**
   * The deduction lines of `get_attendance_for_payroll`: 100 per absence, and 25 per
   * late arrival beyond the second; each line appears only when its amount is due.
   */
  method AttendanceDeductions(absentDays: nat, lateDays: nat) returns (lines: seq<DeductionLine>, total: real)
    ensures |lines| <= 2
    ensures (exists i :: 0 <= i < |lines| && lines[i].kind == "absence") <==> absentDays > 0
    ensures (exists i :: 0 <= i < |lines| && lines[i].kind == "late") <==> lateDays > ToleratedLate
    ensures forall i :: 0 <= i < |lines| ==>
      (lines[i].kind == "absence" && lines[i].amount == absentDays as real * AbsencePenalty) ||
      (lines[i].kind == "late" && lines[i].amount == (lateDays - ToleratedLate) as real * LatePenalty)
    ensures total == SumOf(lines, Amount)
    ensures total == absentDays as real * AbsencePenalty + Max(0, lateDays - ToleratedLate) as real * LatePenalty
    ensures absentDays == 0 && lateDays <= ToleratedLate ==> lines == [] && total == 0.0
  {
    assert |"late"| != |"absence"|;
    lines := [];
    if absentDays > 0 {
      var line := DeductionLine("absence", "Absence deduction (" + NatToString(absentDays) + " days)",
                                absentDays as real * AbsencePenalty);
      lines := lines + [line];
    }
    ghost var first := lines;
    assert |first| == (if absentDays > 0 then 1 else 0);
    assert forall i :: 0 <= i < |first| ==> first[i].kind == "absence" && first[i].amount == absentDays as real * AbsencePenalty;
    assert SumOf(first, Amount) == absentDays as real * AbsencePenalty;
    if lateDays > ToleratedLate {
      var excess := lateDays - ToleratedLate;
      var line := DeductionLine("late", "Late arrival deduction (" + NatToString(excess) + " excess days)",
                                excess as real * LatePenalty);
      SumOfAppend(lines, line, Amount);
      lines := lines + [line];
      assert lines[|lines| - 1].kind == "late";
    }
    total := SumOf(lines, Amount);
  }

  /** What `get_attendance_for_payroll` hands to payroll. */
  datatype PayrollAttendance = PayrollAttendance(stats: Stats, deductions: seq<DeductionLine>, totalDeduction: real)

  /**
   * `get_attendance_for_payroll`: the statistics of the period, as `calculate_attendance_stats`
   * gives them, and the deduction lines the policy calls for on the overall counters.
   */
  method GetAttendanceForPayroll(unitIds: seq<int>, records: seq<Attendance>, start: Date, end: Date)
    returns (data: PayrollAttendance)
    ensures data.stats.totals == TotalsOver(records, unitIds, start, end)
    ensures data.stats.rate == Rate(data.stats.totals.present, data.stats.totals.total)
    ensures forall id :: id in data.stats.units <==> id in unitIds
    ensures forall id :: id in data.stats.units ==>
      var t := UnitTally(records, id, start, end);
      data.stats.units[id] == UnitStats(t, Rate(t.present, t.total))
    ensures var t := data.stats.totals;
      |data.deductions| <= 2 &&
      ((exists i :: 0 <= i < |data.deductions| && data.deductions[i].kind == "absence") <==> t.absent > 0) &&
      ((exists i :: 0 <= i < |data.deductions| && data.deductions[i].kind == "late") <==> t.late > ToleratedLate) &&
      forall i :: 0 <= i < |data.deductions| ==>
        (data.deductions[i].kind == "absence" && data.deductions[i].amount == t.absent as real * AbsencePenalty) ||
        (data.deductions[i].kind == "late" && data.deductions[i].amount == (t.late - ToleratedLate) as real * LatePenalty)
    ensures data.totalDeduction == SumOf(data.deductions, Amount)
    ensures data.totalDeduction ==
      data.stats.totals.absent as real * AbsencePenalty + Max(0, data.stats.totals.late - ToleratedLate) as real * LatePenalty
    ensures data.totalDeduction >= 0.0
  {
    var stats := CalculateAttendanceStats(unitIds, records, start, end);
    var lines, total := AttendanceDeductions(stats.totals.absent, stats.totals.late);
    data := PayrollAttendance(stats, lines, total);
  }

  /** A report row: an attendance record with the id of the teacher who owns its unit. */
  datatype ReportRow = ReportRow(record: Attendance, teacherId: int)

  function Hours(r: ReportRow): real { r.record.hours }

  function PresentHours(r: ReportRow): real { if r.record.status == "present" then r.record.hours else 0.0 }

  function WeightedLateHours(r: ReportRow): real { if r.record.status == "late" then r.record.hours * 0.75 else 0.0 }

  function WeightedExcusedHours(r: ReportRow): real { if r.record.status == "excused" then r.record.hours * 0.5 else 0.0 }

  function AbsentHours(r: ReportRow): real { if r.record.status == "absent" then r.record.hours else 0.0 }

  /** The hours of a record weighted by the attendance factor of its status. */
  function WeightedHours(r: ReportRow): real { r.record.hours * AttendanceFactor(r.record.status) }

  /** The report's `summary`; late and excused hours are stored already weighted. */
  datatype Summary = Summary(totalRecords: nat, presentHours: real, lateHours: real, excusedHours: real,
                             absentHours: real, totalHours: real, rate: real)

  predicate NonNegativeHours(rows: seq<ReportRow>) { forall r :: r in rows ==> r.record.hours >= 0.0 }

  /** The summary statistics of the attendance report over the selected rows. */
  function Summarize(rows: seq<ReportRow>): (s: Summary)
    ensures s.totalRecords == |rows|
    ensures s.totalHours <= 0.0 ==> s.rate == 0.0
    ensures NonNegativeHours(rows) ==> 0.0 <= s.rate <= 100.0
  {
    var present := SumOf(rows, PresentHours);
    var late := SumOf(rows, WeightedLateHours);
    var excused := SumOf(rows, WeightedExcusedHours);
    var total := SumOf(rows, Hours);
    SummaryWeighted(rows);
    if NonNegativeHours(rows) then
      SumOfLower(rows, WeightedHours, 0.0);
      SumOfMonotone(rows, WeightedHours, Hours);
      Summary(|rows|, present, late, excused, SumOf(rows, AbsentHours), total, Percent(present + late + excused, total))
    else
      Summary(|rows|, present, late, excused, SumOf(rows, AbsentHours), total, Percent(present + late + excused, total))
  }

  /**
   * The summary's weighted hours are the hours weighted by `attendance_factor`, so the
   * report rate is an hour-weighted version of the unit attendance rate.
   */
  lemma {:induction false} SummaryWeighted(rows: seq<ReportRow>)
    ensures SumOf(rows, PresentHours) + SumOf(rows, WeightedLateHours) + SumOf(rows, WeightedExcusedHours)
         == SumOf(rows, WeightedHours)
  {
    if |rows| > 0 {
      SummaryWeighted(rows[..|rows| - 1]);
    }
  }

  /** One teacher's entry of `faculty_breakdown`; hours are unweighted until `rate` is set. */
  datatype FacultyHours = FacultyHours(total: real, present: real, late: real, excused: real, absent: real, rate: real)

  const NoHours := FacultyHours(0.0, 0.0, 0.0, 0.0, 0.0, 0.0)

  /** The breakdown entry after adding one record's hours. */
  function AddHours(h: FacultyHours, r: Attendance): FacultyHours
  {
    var x := r.hours;
    if r.status == "present" then h.(total := h.total + x, present := h.present + x)
    else if r.status == "late" then h.(total := h.total + x, late := h.late + x)
    else if r.status == "excused" then h.(total := h.total + x, excused := h.excused + x)
    else if r.status == "absent" then h.(total := h.total + x, absent := h.absent + x)
    else h.(total := h.total + x)
  }

  /** The rows of one teacher, in order. */
  function TeacherRows(rows: seq<ReportRow>, teacherId: int): seq<ReportRow>
  {
    if |rows| == 0 then []
    else
      var rest := TeacherRows(rows[..|rows| - 1], teacherId);
      if rows[|rows| - 1].teacherId == teacherId then rest + [rows[|rows| - 1]] else rest
  }

  /** The unweighted hours of one teacher's rows. */
  function HoursOf(rows: seq<ReportRow>, teacherId: int): FacultyHours
  {
    if |rows| == 0 then NoHours
    else
      var h := HoursOf(rows[..|rows| - 1], teacherId);
      if rows[|rows| - 1].teacherId == teacherId then AddHours(h, rows[|rows| - 1].record) else h
  }

  /** The weighted rate of a breakdown entry, 0 without hours. */
  function FacultyRate(h: FacultyHours): real
  {
    Percent(h.present + h.late * 0.75 + h.excused * 0.5, h.total)
  }

  /**
   * A teacher's breakdown entry agrees with the report summary computed over that
   * teacher's rows alone: same hours, and the same weighted rate.
   */
  lemma BreakdownMatchesSummary(rows: seq<ReportRow>, teacherId: int)
    ensures var h, s := HoursOf(rows, teacherId), Summarize(TeacherRows(rows, teacherId));
      h.total == s.totalHours && h.present == s.presentHours && h.absent == s.absentHours &&
      h.late * 0.75 == s.lateHours && h.excused * 0.5 == s.excusedHours &&
      FacultyRate(h) == s.rate
  {
    HoursOfSums(rows, teacherId);
  }

  /** Each column of a breakdown entry is the matching sum over the teacher's rows. */
  lemma {:induction false} HoursOfSums(rows: seq<ReportRow>, teacherId: int)
    ensures var h, t := HoursOf(rows, teacherId), TeacherRows(rows, teacherId);
      h.total == SumOf(t, Hours) && h.present == SumOf(t, PresentHours) && h.absent == SumOf(t, AbsentHours) &&
      h.late * 0.75 == SumOf(t, WeightedLateHours) && h.excused * 0.5 == SumOf(t, WeightedExcusedHours)
  {
    if |rows| > 0 {
      var rows', r := rows[..|rows| - 1], rows[|rows| - 1];
      HoursOfSums(rows', teacherId);
      var t' := TeacherRows(rows', teacherId);
      if r.teacherId == teacherId {
        SumOfAppend(t', r, Hours);
        SumOfAppend(t', r, PresentHours);
        SumOfAppend(t', r, WeightedLateHours);
        SumOfAppend(t', r, WeightedExcusedHours);
        SumOfAppend(t', r, AbsentHours);
      }
    }
  }

  /** The keys of the breakdown: every teacher with at least one row. */
  function Teachers(rows: seq<ReportRow>): set<int>
  {
    set r | r in rows :: r.teacherId
  }

  /**
   * The `faculty_breakdown` loops of the attendance report: hours per teacher and status,
   * then each teacher's weighted rate.
   */
  method FacultyBreakdown(rows: seq<ReportRow>) returns (faculty: map<int, FacultyHours>)
    ensures faculty.Keys == Teachers(rows)
    ensures forall t :: t in faculty ==>
      faculty[t] == HoursOf(rows, t).(rate := FacultyRate(HoursOf(rows, t)))
  {
    var hours: map<int, FacultyHours> := map[];
    var i := 0;
    while i < |rows|
      invariant 0 <= i <= |rows|
      invariant hours.Keys == Teachers(rows[..i])
      invariant forall t :: t in hours ==> hours[t] == HoursOf(rows[..i], t)
    {
      var r := rows[i];
      assert rows[..i + 1] == rows[..i] + [r];
      assert rows[..i + 1][..i] == rows[..i];
      var h := if r.teacherId in hours then hours[r.teacherId] else NoHours;
      assert r.teacherId !in hours ==> HoursOf(rows[..i], r.teacherId) == NoHours by {
        if r.teacherId !in hours {
          NoRowsNoHours(rows[..i], r.teacherId);
        }
      }
      hours := hours[r.teacherId := AddHours(h, r.record)];
      i := i + 1;
    }
    assert rows[..i] == rows;
    faculty := map t | t in hours :: hours[t].(rate := FacultyRate(hours[t]));
  }

  /** A teacher without rows has no hours. */
  lemma {:induction false} NoRowsNoHours(rows: seq<ReportRow>, teacherId: int)
    requires teacherId !in Teachers(rows)
    ensures HoursOf(rows, teacherId) == NoHours
  {
    if |rows| > 0 {
      assert Teachers(rows[..|rows| - 1]) <= Teachers(rows);
      NoRowsNoHours(rows[..|rows| - 1], teacherId);
    }
  }

  /**
   * The date filter of the report: a custom range needs both dates, the current month
   * runs from its first to its last day, and any other choice applies no date filter.
   */
  function ReportWindow(dateRange: string, start: Option<Date>, end: Option<Date>, today: Date): (w: Option<(Date, Date)>)
    ensures w.Some? <==> (dateRange == "custom" && start.Some? && end.Some?) || dateRange == "current_month"
    ensures dateRange == "custom" && start.Some? && end.Some? ==> w == Some((start.value, end.value))
    ensures dateRange == "current_month" ==> w == Some((MonthStart(today), MonthEnd(today)))
  {
    if dateRange == "custom" && start.Some? && end.Some? then Some((start.value, end.value))
    else if dateRange == "current_month" then Some((MonthStart(today), MonthEnd(today)))
    else None
  }

  /** The report's query: date window, then teacher and unit when they are chosen (id > 0). */
  predicate ReportSelects(r: ReportRow, window: Option<(Date, Date)>, employeeId: int, unitId: int)
  {
    (window.None? || InWindow(r.record.date, window.value.0, window.value.1)) &&
    (employeeId <= 0 || r.teacherId == employeeId) &&
    (unitId <= 0 || r.record.unitId == unitId)
  }

  /**
   * Where the report's parameters come from: the query string of an export link (a GET
   * with `format`), whose dates may be missing, or the posted `AttendanceReportForm`,
   * whose date fields fall back to their defaults when left out and so are always set.
   */
  datatype ReportRequest =
    | Export(employeeId: int, unitId: int, dateRange: string, start: Option<Date>, end: Option<Date>)
    | Posted(employeeId: int, unitId: int, dateRange: string, startDate: Date, endDate: Date, format: string)

  /** The `date_range` choices of `AttendanceReportForm`. */
  predicate DateRangeChoice(d: string)
  {
    d == "current_month" || d == "previous_month" || d == "current_term" || d == "last_term" || d == "custom"
  }

  /**
   * `AttendanceReportForm` on a POST: `DataRequired` refuses the integer 0, so the `All`
   * entry of the employee and unit lists never validates; every other value must be listed.
   */
  predicate ReportFormValid(employeeId: int, unitId: int, dateRange: string, format: string,
                            employees: set<int>, units: set<int>)
  {
    employeeId != 0 && employeeId in employees && unitId != 0 && unitId in units &&
    DateRangeChoice(dateRange) && (format == "html" || format == "csv" || format == "pdf")
  }

  /** How the report handler ends. */
  datatype ReportOutcome =
    | ReportFormShown
    | ReportCrashed
    | Reported(window: Option<(Date, Date)>, rows: seq<ReportRow>, summary: Summary)

  /**
   * `report`: a posted form that does not validate is shown again; otherwise the window is
   * applied, the employee and unit filters, and the summary is built. The summary's
   * `date_range` label formats both dates, so an export link whose range is not
   * `current_month` and lacks a date raises there (an AttributeError on `None`).
   */
  function AttendanceReport(req: ReportRequest, rows: seq<ReportRow>, employees: set<int>, units: set<int>,
                            today: Date): (o: ReportOutcome)
    ensures o == ReportFormShown <==>
      req.Posted? && !ReportFormValid(req.employeeId, req.unitId, req.dateRange, req.format, employees, units)
    ensures o == ReportCrashed <==>
      req.Export? && req.dateRange != "current_month" && (req.start.None? || req.end.None?)
    ensures o.Reported? && req.Posted? ==> req.employeeId != 0 && req.unitId != 0
    ensures o.Reported? && req.Export? ==> o.window == ReportWindow(req.dateRange, req.start, req.end, today)
    ensures o.Reported? && req.Posted? ==> o.window == ReportWindow(req.dateRange, Some(req.startDate), Some(req.endDate), today)
    ensures o.Reported? ==>
      |o.rows| <= |rows| &&
      (forall r :: r in o.rows <==> r in rows && ReportSelects(r, o.window, req.employeeId, req.unitId)) &&
      o.summary == Summarize(o.rows)
  {
    if req.Posted? && !ReportFormValid(req.employeeId, req.unitId, req.dateRange, req.format, employees, units) then
      ReportFormShown
    else
      var start := if req.Export? then req.start else Some(req.startDate);
      var end := if req.Export? then req.end else Some(req.endDate);
      if req.dateRange != "current_month" && (start.None? || end.None?) then ReportCrashed
      else
        var w := ReportWindow(req.dateRange, start, end, today);
        var p := (r: ReportRow) => ReportSelects(r, w, req.employeeId, req.unitId);
        var selected := Filter(rows, p);
        FilterMembers(rows, p);
        FilterLength(rows, p);
        CountOfBound(rows, p);
        Reported(w, selected, Summarize(selected))
  }

  /** With `current_month` the report keeps exactly the (valid) records dated in today's month. */
  lemma CurrentMonthReport(r: ReportRow, start: Option<Date>, end: Option<Date>, today: Date)
    requires Valid(r.record.date) && Valid(today)
    ensures ReportSelects(r, ReportWindow("current_month", start, end, today), 0, 0) <==>
      r.record.date.year == today.year && r.record.date.month == today.month
  {
    MonthWindow(r.record.date, today);
  }
}
