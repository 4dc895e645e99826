/**
 * The aggregation behind `time_off_analysis` and `export_time_off_analysis`: the leaves of
 * the selected year, their lengths and status counts, the per-type and per-department
 * tallies, the spreading of each leave over the months, and the heat-map calendar.
 */
module TimeOff {
  import opened Common
  import opened Calendar
  import opened Text

  /** A leave request as the report reads it, with its employee's department. */
  datatype LeaveRow = LeaveRow(employeeId: int, department: string, leaveType: string, start: Date, end: Date, status: string)

  /** The `year` argument: the integer it spells, or the current year when it spells none. */
  function SelectedYear(year: string, currentYear: int): int
  {
    match ParseInt(year)
    case Some(y) => y
    case None => currentYear
  }

  /** A year written out by the report's own links is read back unchanged. */
  lemma SelectedYearRoundTrip(y: int, currentYear: int)
    ensures SelectedYear(IntToString(y), currentYear) == y
  {
    IntRoundTrip(y);
  }

  /**
   * The first and last day of the selected year; Python's `datetime` raises for a year
   * outside 1 to 9999, before anything is aggregated.
   */
  function YearBounds(y: int): (r: Result<(Date, Date), string>)
    ensures r.Ok? <==> 1 <= y <= 9999
    ensures r.Ok? ==> Valid(r.value.0) && Valid(r.value.1) && r.value.0.year == y && r.value.1.year == y
  {
    if 1 <= y <= 9999 then Ok((Date(y, 1, 1), Date(y, 12, 31))) else Err("ValueError: year " + IntToString(y) + " is out of range")
  }

  /** The year filter of the query: the leave starts or ends inside the year. */
  predicate InYear(l: LeaveRow, y: int)
  {
    InWindow(l.start, Date(y, 1, 1), Date(y, 12, 31)) || InWindow(l.end, Date(y, 1, 1), Date(y, 12, 31))
  }

  /** For real dates, the year filter means the leave starts or ends in that year. */
  lemma InYearByYear(l: LeaveRow, y: int)
    requires Valid(l.start) && Valid(l.end) && 1 <= y <= 9999
    ensures InYear(l, y) <==> l.start.year == y || l.end.year == y
  {
    MonthWindow(l.start, Date(y, 1, 1));
    MonthWindow(l.end, Date(y, 1, 1));
    YearWindow(l.start, y);
    YearWindow(l.end, y);
  }

  lemma YearWindow(d: Date, y: int)
    requires Valid(d) && 1 <= y <= 9999
    ensures InWindow(d, Date(y, 1, 1), Date(y, 12, 31)) <==> d.year == y
  {
    if d.year < y {
      DateOrder(d, Date(y, 1, 1));
    } else if d.year > y {
      DateOrder(Date(y, 12, 31), d);
    } else {
      if d.month > 1 {
        DateOrder(Date(y, 1, 1), d);
      }
      if d.month < 12 {
        DateOrder(d, Date(y, 12, 31));
      }
    }
  }

  /** The query: the year filter, and the department and leave-type filters when given. */
  function Selected(leaves: seq<LeaveRow>, department: string, leaveType: string, y: int): (rs: seq<LeaveRow>)
    ensures forall l :: l in rs <==>
      l in leaves && InYear(l, y) && (department == "" || l.department == department) && (leaveType == "" || l.leaveType == leaveType)
  {
    if |leaves| == 0 then []
    else
      var l := leaves[|leaves| - 1];
      var rest := Selected(leaves[..|leaves| - 1], department, leaveType, y);
      assert leaves == leaves[..|leaves| - 1] + [l];
      if InYear(l, y) && (department == "" || l.department == department) && (leaveType == "" || l.leaveType == leaveType)
      then rest + [l] else rest
  }

  /** `duration`: both ends count. */
  function Duration(l: LeaveRow): int
  {
    DaysBetween(l.start, l.end) + 1
  }

  /** `total_leave_days`. */
  function TotalDays(leaves: seq<LeaveRow>): int
  {
    if |leaves| == 0 then 0 else TotalDays(leaves[..|leaves| - 1]) + Duration(leaves[|leaves| - 1])
  }

  /** A leave that ends on or after it starts lasts at least a day, so then the total is at least the count. */
  lemma {:induction false} TotalDaysAtLeastCount(leaves: seq<LeaveRow>)
    requires forall k :: 0 <= k < |leaves| ==> NotAfter(leaves[k].start, leaves[k].end)
    ensures TotalDays(leaves) >= |leaves|
  {
    if |leaves| > 0 {
      TotalDaysAtLeastCount(leaves[..|leaves| - 1]);
    }
  }

  function StatusCount(leaves: seq<LeaveRow>, status: string): (n: nat)
    ensures n <= |leaves|
  {
    if |leaves| == 0 then 0
    else StatusCount(leaves[..|leaves| - 1], status) + (if leaves[|leaves| - 1].status == status then 1 else 0)
  }

  /**
   * Each leave adds to at most one of the approved, pending and denied counts, and to
   * exactly one when its status is one of the three.
   */
  lemma {:induction false} StatusCountsBound(leaves: seq<LeaveRow>)
    ensures StatusCount(leaves, "approved") + StatusCount(leaves, "pending") + StatusCount(leaves, "denied") <= |leaves|
    ensures StatusCount(leaves, "approved") + StatusCount(leaves, "pending") + StatusCount(leaves, "denied") == |leaves| <==>
      forall k :: 0 <= k < |leaves| ==> leaves[k].status in {"approved", "pending", "denied"}
  {
    if |leaves| > 0 {
      var rest := leaves[..|leaves| - 1];
      StatusCountsBound(rest);
      assert forall k :: 0 <= k < |rest| ==> rest[k] == leaves[k];
    }
  }

  /** A leave-type entry: how many leaves and how many days. */
  datatype Tally = Tally(count: nat, days: int)

  function TypeTally(leaves: seq<LeaveRow>, leaveType: string): (t: Tally)
    ensures t.count <= |leaves|
  {
    if |leaves| == 0 then Tally(0, 0)
    else
      var l := leaves[|leaves| - 1];
      var rest := TypeTally(leaves[..|leaves| - 1], leaveType);
      if l.leaveType == leaveType then Tally(rest.count + 1, rest.days + Duration(l)) else rest
  }

  /** A department entry: its leaves, their days, and the employees who took them. */
  datatype DeptLeave = DeptLeave(count: nat, days: int, employees: set<int>)

  function DeptTally(leaves: seq<LeaveRow>, department: string): (d: DeptLeave)
    ensures |d.employees| <= d.count <= |leaves|
    ensures d.count > 0 <==> d.employees != {}
  {
    if |leaves| == 0 then DeptLeave(0, 0, {})
    else
      var l := leaves[|leaves| - 1];
      var rest := DeptTally(leaves[..|leaves| - 1], department);
      if l.department == department then AddLeave(rest, l) else rest
  }

  /** One more leave in a department. */
  function AddLeave(d: DeptLeave, l: LeaveRow): (r: DeptLeave)
    ensures |r.employees| <= |d.employees| + 1
  {
    CardinalityStep(d.employees, l.employeeId);
    DeptLeave(d.count + 1, d.days + Duration(l), d.employees + {l.employeeId})
  }

  lemma CardinalityStep(s: set<int>, x: int)
    ensures |s + {x}| <= |s| + 1
  {
    if x !in s {
      assert |s + {x}| == |s| + 1;
    } else {
      assert s + {x} == s;
    }
  }

  /** `avg_days`: the department's days per employee who took leave, 0 when nobody did. */
  function AvgDays(d: DeptLeave): (a: real)
    ensures d.employees == {} ==> a == 0.0
    ensures d.employees != {} ==> a * |d.employees| as real == d.days as real
  {
    if |d.employees| > 0 then d.days as real / |d.employees| as real else 0.0
  }

  /**
   * The days a leave adds to month `i` (0 for January) of the selected year `y`. A leave
   * within one calendar month adds all its days to it, whatever its year. Otherwise the
   * months from the start month to the end month get, in turn, the days up to the end of
   * the start month, whole months, and the days from the first of the end month; the month
   * ends are taken in `y`. A leave whose end month comes before its start month (it crosses
   * the new year) adds nothing.
   */
  function MonthShare(l: LeaveRow, y: int, i: int): (days: int)
    requires 0 <= i < 12
    ensures l.start.month == l.end.month ==> days == (if i + 1 == l.start.month then Duration(l) else 0)
    ensures i + 1 < l.start.month || i + 1 > l.end.month ==> days == 0
    ensures l.start.month < i + 1 < l.end.month ==> days == DaysInMonth(y, i + 1)
  {
    var s, e := l.start.month - 1, l.end.month - 1;
    if s == e then (if i == s then Duration(l) else 0)
    else if i < s || i > e then 0
    else if i == s then DaysBetween(l.start, Date(y, i + 1, DaysInMonth(y, i + 1))) + 1
    else if i == e then DaysBetween(Date(y, i + 1, 1), l.end) + 1
    else DaysInMonth(y, i + 1)
  }

  /** What a leave adds to the months before month `n`. */
  function ShareSum(l: LeaveRow, y: int, n: int): int
    requires 0 <= n <= 12
  {
    if n == 0 then 0 else ShareSum(l, y, n - 1) + MonthShare(l, y, n - 1)
  }

  /**
   * A leave that starts and ends in the selected year adds exactly its duration over the
   * twelve months: the month pieces fit together.
   */
  lemma SpreadAddsDuration(l: LeaveRow, y: int)
    requires Valid(l.start) && Valid(l.end) && l.start.year == y && l.end.year == y
    requires NotAfter(l.start, l.end)
    ensures ShareSum(l, y, 12) == Duration(l)
  {
    var s, e := l.start.month, l.end.month;
    if s > e {
      DateOrder(l.end, l.start);
    }
    if s == e {
      ShareSumSingle(l, y, 12);
    } else {
      ShareSumSpread(l, y, 12);
    }
  }

  lemma {:induction false} ShareSumSingle(l: LeaveRow, y: int, n: int)
    requires l.start.month == l.end.month && 0 <= n <= 12
    ensures ShareSum(l, y, n) == if n >= l.start.month then Duration(l) else 0
  {
    if n > 0 {
      ShareSumSingle(l, y, n - 1);
    }
  }

  /** The running sum of a leave spread over months `s` to `e` of its own year. */
  lemma {:induction false} ShareSumSpread(l: LeaveRow, y: int, n: int)
    requires l.start.year == y && l.end.year == y && l.start.month < l.end.month && 0 <= n <= 12
    ensures var s, e := l.start.month, l.end.month;
      ShareSum(l, y, n) ==
        if n < s then 0
        else if n < e then DaysBeforeMonth(y, n + 1) - DaysBeforeMonth(y, s) - l.start.day + 1
        else DaysBeforeMonth(y, e) - DaysBeforeMonth(y, s) - l.start.day + 1 + l.end.day
  {
    if n > 0 {
      ShareSumSpread(l, y, n - 1);
    }
  }

  /** What all `leaves` add to month `i`. */
  function MonthTotal(leaves: seq<LeaveRow>, y: int, i: int): int
    requires 0 <= i < 12
  {
    if |leaves| == 0 then 0 else MonthTotal(leaves[..|leaves| - 1], y, i) + MonthShare(leaves[|leaves| - 1], y, i)
  }

  /** What all `leaves` add to the months before month `n`. */
  function MonthsTotal(leaves: seq<LeaveRow>, y: int, n: int): int
    requires 0 <= n <= 12
  {
    if n == 0 then 0 else MonthsTotal(leaves, y, n - 1) + MonthTotal(leaves, y, n - 1)
  }

  lemma {:induction false} MonthsTotalEmpty(y: int, n: int)
    requires 0 <= n <= 12
    ensures MonthsTotal([], y, n) == 0
  {
    if n > 0 {
      MonthsTotalEmpty(y, n - 1);
    }
  }

  lemma {:induction false} MonthsTotalStep(leaves: seq<LeaveRow>, y: int, n: int)
    requires |leaves| > 0 && 0 <= n <= 12
    ensures MonthsTotal(leaves, y, n) == MonthsTotal(leaves[..|leaves| - 1], y, n) + ShareSum(leaves[|leaves| - 1], y, n)
  {
    if n > 0 {
      MonthsTotalStep(leaves, y, n - 1);
    }
  }

  /**
   * When every selected leave starts and ends, in order, inside the selected year, the
   * twelve months of the chart hold exactly the total leave days.
   */
  lemma {:induction false} MonthsAddUpToTotal(leaves: seq<LeaveRow>, y: int)
    requires forall k :: 0 <= k < |leaves| ==>
      Valid(leaves[k].start) && Valid(leaves[k].end) && leaves[k].start.year == y && leaves[k].end.year == y &&
      NotAfter(leaves[k].start, leaves[k].end)
    ensures MonthsTotal(leaves, y, 12) == TotalDays(leaves)
  {
    if |leaves| == 0 {
      MonthsTotalEmpty(y, 12);
    } else {
      var init := leaves[..|leaves| - 1];
      assert forall k :: 0 <= k < |init| ==> init[k] == leaves[k];
      MonthsAddUpToTotal(init, y);
      MonthsTotalStep(leaves, y, 12);
      SpreadAddsDuration(leaves[|leaves| - 1], y);
    }
  }

  /** Everything `time_off_analysis` computes from the selected leaves besides the calendar. */
  datatype Analysis = Analysis(totalDays: int, approved: nat, pending: nat, denied: nat,
                               types: map<string, Tally>, departments: map<string, DeptLeave>, monthly: seq<int>)

  function TypesIn(leaves: seq<LeaveRow>): set<string>
  {
    if |leaves| == 0 then {} else TypesIn(leaves[..|leaves| - 1]) + {leaves[|leaves| - 1].leaveType}
  }

  function DepartmentsIn(leaves: seq<LeaveRow>): set<string>
  {
    if |leaves| == 0 then {} else DepartmentsIn(leaves[..|leaves| - 1]) + {leaves[|leaves| - 1].department}
  }

  predicate TypesHold(m: map<string, Tally>, leaves: seq<LeaveRow>)
  {
    m.Keys == TypesIn(leaves) && forall t :: t in m ==> m[t] == TypeTally(leaves, t)
  }

  predicate DepartmentsHold(m: map<string, DeptLeave>, leaves: seq<LeaveRow>)
  {
    m.Keys == DepartmentsIn(leaves) && forall d :: d in m ==> m[d] == DeptTally(leaves, d)
  }

  predicate MonthsHold(monthly: seq<int>, leaves: seq<LeaveRow>, y: int)
  {
    |monthly| == 12 && forall i :: 0 <= i < 12 ==> monthly[i] == MonthTotal(leaves, y, i)
  }

  /** The tallies after one more leave. */
  lemma TallyStep(leaves: seq<LeaveRow>, k: nat, leaveType: string, department: string)
    requires k < |leaves|
    ensures TypeTally(leaves[..k + 1], leaveType) ==
      if leaves[k].leaveType == leaveType then Tally(TypeTally(leaves[..k], leaveType).count + 1, TypeTally(leaves[..k], leaveType).days + Duration(leaves[k]))
      else TypeTally(leaves[..k], leaveType)
    ensures DeptTally(leaves[..k + 1], department) ==
      if leaves[k].department == department then AddLeave(DeptTally(leaves[..k], department), leaves[k])
      else DeptTally(leaves[..k], department)
    ensures TypesIn(leaves[..k + 1]) == TypesIn(leaves[..k]) + {leaves[k].leaveType}
    ensures DepartmentsIn(leaves[..k + 1]) == DepartmentsIn(leaves[..k]) + {leaves[k].department}
  {
    assert leaves[..k + 1][..k] == leaves[..k];
  }

  lemma MonthStep(leaves: seq<LeaveRow>, k: nat, y: int, i: int)
    requires k < |leaves| && 0 <= i < 12
    ensures MonthTotal(leaves[..k + 1], y, i) == MonthTotal(leaves[..k], y, i) + MonthShare(leaves[k], y, i)
  {
    assert leaves[..k + 1][..k] == leaves[..k];
  }

  /** The total days and the three status counts of `leaves`. */
  predicate Counted(totalDays: int, approved: nat, pending: nat, denied: nat, leaves: seq<LeaveRow>)
  {
    totalDays == TotalDays(leaves) && approved == StatusCount(leaves, "approved") &&
    pending == StatusCount(leaves, "pending") && denied == StatusCount(leaves, "denied")
  }

  lemma CountedStep(totalDays: int, approved: nat, pending: nat, denied: nat, leaves: seq<LeaveRow>, k: nat)
    requires k < |leaves| && Counted(totalDays, approved, pending, denied, leaves[..k])
    ensures var l := leaves[k];
      Counted(totalDays + Duration(l),
              approved + (if l.status == "approved" then 1 else 0),
              pending + (if l.status == "pending" then 1 else 0),
              denied + (if l.status == "denied" then 1 else 0), leaves[..k + 1])
  {
    assert leaves[..k + 1][..k] == leaves[..k];
  }

  lemma {:induction false} AbsentType(leaves: seq<LeaveRow>, leaveType: string)
    requires leaveType !in TypesIn(leaves)
    ensures TypeTally(leaves, leaveType) == Tally(0, 0)
  {
    if |leaves| > 0 {
      AbsentType(leaves[..|leaves| - 1], leaveType);
    }
  }

  lemma {:induction false} AbsentDepartment(leaves: seq<LeaveRow>, department: string)
    requires department !in DepartmentsIn(leaves)
    ensures DeptTally(leaves, department) == DeptLeave(0, 0, {})
  {
    if |leaves| > 0 {
      AbsentDepartment(leaves[..|leaves| - 1], department);
    }
  }

  lemma TypesStep(m: map<string, Tally>, bumped: map<string, Tally>, leaves: seq<LeaveRow>, k: nat)
    requires k < |leaves| && TypesHold(m, leaves[..k])
    requires var l := leaves[k];
      var entry := if l.leaveType in m then m[l.leaveType] else Tally(0, 0);
      bumped == m[l.leaveType := Tally(entry.count + 1, entry.days + Duration(l))]
    ensures TypesHold(bumped, leaves[..k + 1])
  {
    if leaves[k].leaveType !in m {
      AbsentType(leaves[..k], leaves[k].leaveType);
    }
    forall t | t in bumped
      ensures bumped[t] == TypeTally(leaves[..k + 1], t)
    {
      TallyStep(leaves, k, t, "");
    }
    TallyStep(leaves, k, "", "");
  }

  lemma DepartmentsStep(m: map<string, DeptLeave>, bumped: map<string, DeptLeave>, leaves: seq<LeaveRow>, k: nat)
    requires k < |leaves| && DepartmentsHold(m, leaves[..k])
    requires var l := leaves[k];
      var entry := if l.department in m then m[l.department] else DeptLeave(0, 0, {});
      bumped == m[l.department := AddLeave(entry, l)]
    ensures DepartmentsHold(bumped, leaves[..k + 1])
  {
    if leaves[k].department !in m {
      AbsentDepartment(leaves[..k], leaves[k].department);
    }
    forall d | d in bumped
      ensures bumped[d] == DeptTally(leaves[..k + 1], d)
    {
      TallyStep(leaves, k, "", d);
    }
    TallyStep(leaves, k, "", "");
  }

  /** The status counters after leave `k`. */
  method CountLeave(totalDays: int, approved: nat, pending: nat, denied: nat, leaves: seq<LeaveRow>, k: nat)
    returns (totalDays': int, approved': nat, pending': nat, denied': nat)
    requires k < |leaves| && Counted(totalDays, approved, pending, denied, leaves[..k])
    ensures Counted(totalDays', approved', pending', denied', leaves[..k + 1])
  {
    var l := leaves[k];
    CountedStep(totalDays, approved, pending, denied, leaves, k);
    totalDays', approved', pending', denied' := totalDays + Duration(l), approved, pending, denied;
    if l.status == "approved" {
      approved' := approved + 1;
    } else if l.status == "pending" {
      pending' := pending + 1;
    } else if l.status == "denied" {
      denied' := denied + 1;
    }
  }

  /** `leave_types[type]` after leave `k`. */
  method AddToTypes(types: map<string, Tally>, leaves: seq<LeaveRow>, k: nat) returns (next: map<string, Tally>)
    requires k < |leaves| && TypesHold(types, leaves[..k])
    ensures TypesHold(next, leaves[..k + 1])
  {
    var l := leaves[k];
    var entry := if l.leaveType in types then types[l.leaveType] else Tally(0, 0);
    next := types[l.leaveType := Tally(entry.count + 1, entry.days + Duration(l))];
    TypesStep(types, next, leaves, k);
  }

  /** `departments[department]` after leave `k`. */
  method AddToDepartments(departments: map<string, DeptLeave>, leaves: seq<LeaveRow>, k: nat)
    returns (next: map<string, DeptLeave>)
    requires k < |leaves| && DepartmentsHold(departments, leaves[..k])
    ensures DepartmentsHold(next, leaves[..k + 1])
  {
    var l := leaves[k];
    var entry := if l.department in departments then departments[l.department] else DeptLeave(0, 0, {});
    next := departments[l.department := AddLeave(entry, l)];
    DepartmentsStep(departments, next, leaves, k);
  }

  /**
   * The loop over the selected leaves: the total days, the three status counts, the
   * per-type and per-department tallies, and each month's share of the leave days.
   */
  method Analyse(leaves: seq<LeaveRow>, y: int) returns (a: Analysis)
    ensures Counted(a.totalDays, a.approved, a.pending, a.denied, leaves)
    ensures TypesHold(a.types, leaves)
    ensures DepartmentsHold(a.departments, leaves)
    ensures MonthsHold(a.monthly, leaves, y)
  {
    var totalDays, approved, pending, denied := 0, 0, 0, 0;
    var types: map<string, Tally> := map[];
    var departments: map<string, DeptLeave> := map[];
    var monthly := [0, 0, 0, 0, 0, 0, 0, 0, 0, 0, 0, 0];
    var k := 0;
    while k < |leaves|
      invariant 0 <= k <= |leaves|
      invariant Counted(totalDays, approved, pending, denied, leaves[..k])
      invariant TypesHold(types, leaves[..k])
      invariant DepartmentsHold(departments, leaves[..k])
      invariant MonthsHold(monthly, leaves[..k], y)
    {
      var l := leaves[k];
      totalDays, approved, pending, denied := CountLeave(totalDays, approved, pending, denied, leaves, k);
      types := AddToTypes(types, leaves, k);
      departments := AddToDepartments(departments, leaves, k);
      monthly := SpreadLeave(monthly, l, y);
      forall i | 0 <= i < 12
        ensures monthly[i] == MonthTotal(leaves[..k + 1], y, i)
      {
        MonthStep(leaves, k, y, i);
      }
      k := k + 1;
    }
    assert leaves[..k] == leaves;
    a := Analysis(totalDays, approved, pending, denied, types, departments, monthly);
  }

  /** Adding one leave to `monthly_data`, month by month as the report does. */
  method SpreadLeave(monthly: seq<int>, l: LeaveRow, y: int) returns (r: seq<int>)
    requires |monthly| == 12
    ensures |r| == 12
    ensures forall i :: 0 <= i < 12 ==> r[i] == monthly[i] + MonthShare(l, y, i)
  {
    r := monthly;
    var s, e := l.start.month - 1, l.end.month - 1;
    if s == e {
      r := r[s := r[s] + Duration(l)];
      return;
    }
    var m := s;
    while m <= e
      invariant s <= m && (e >= s ==> m <= e + 1)
      invariant |r| == 12
      invariant forall i :: 0 <= i < 12 ==> r[i] == monthly[i] + (if s <= i < m then MonthShare(l, y, i) else 0)
    {
      var days;
      if m == s {
        var monthEnd := Date(y, m + 1, DaysInMonth(y, m + 1));
        days := DaysBetween(l.start, monthEnd) + 1;
      } else if m == e {
        var monthStart := Date(y, m + 1, 1);
        days := DaysBetween(monthStart, l.end) + 1;
      } else {
        days := DaysInMonth(y, m + 1);
      }
      r := r[m := r[m] + days];
      m := m + 1;
    }
  }

  /** One day of the heat-map calendar, or a blank cell before the first. */
  datatype Cell = Blank | Day(day: int, count: nat, heat: nat)

  /** The number of leaves that include day `d`. */
  function DayCount(leaves: seq<LeaveRow>, d: Date): (n: nat)
    ensures n <= |leaves|
  {
    if |leaves| == 0 then 0
    else
      var l := leaves[|leaves| - 1];
      DayCount(leaves[..|leaves| - 1], d) + (if InWindow(d, l.start, l.end) then 1 else 0)
  }

  /** The heat level of a day: 0 for no leave, then 1 up to 2, 2 up to 5, 3 up to 9, 4 up to 15, and 5 beyond. */
  function HeatLevel(count: nat): (h: nat)
    ensures h <= 5
    ensures h == 0 <==> count == 0
    ensures h == 5 <==> count > 15
  {
    if count == 0 then 0 else if count <= 2 then 1 else if count <= 5 then 2 else if count <= 9 then 3
    else if count <= 15 then 4 else 5
  }

  /** More leave on a day never shows a cooler colour. */
  lemma HeatMonotone(a: nat, b: nat)
    requires a <= b
    ensures HeatLevel(a) <= HeatLevel(b)
  {
  }

  /** The blank cells before the first of the month: its weekday counted from Sunday. */
  function LeadingBlanks(y: int, m: Month): (n: nat)
    ensures n < 7
  {
    (Weekday(Date(y, m, 1)) + 1) % 7
  }

  /** Every day of the month sits in the column of its weekday, Sunday first. */
  lemma GridColumns(y: int, m: Month, d: int)
    requires 1 <= d <= DaysInMonth(y, m)
    ensures (LeadingBlanks(y, m) + d - 1) % 7 == (Weekday(Date(y, m, d)) + 1) % 7
  {
    SameMonthDistance(Date(y, m, 1), Date(y, m, d));
    var o := Ordinal(Date(y, m, 1));
    assert Weekday(Date(y, m, d)) == (o + d + 5) % 7;
    ModAdd(o + 6, 1);
    assert LeadingBlanks(y, m) == (o + 7) % 7;
    ModAdd(o + 7, d - 1);
    ModAdd(o + d + 5, 1);
  }

  /** Reducing before adding gives the same remainder. */
  lemma ModAdd(a: int, k: int)
    ensures (a % 7 + k) % 7 == (a + k) % 7
  {
    ModShift(a % 7, a, k);
  }

  /** Adding the same amount to two numbers with equal remainders keeps them equal. */
  lemma ModShift(a: int, b: int, k: int)
    requires a % 7 == b % 7
    ensures (a + k) % 7 == (b + k) % 7
  {
    var qa, qb := a / 7, b / 7;
    assert a == 7 * qa + a % 7;
    assert b == 7 * qb + b % 7;
    assert a + k == b + k + 7 * (qa - qb);
  }

  /**
   * One month of the calendar: the blank cells before the first, then each day of the month
   * with the number of leaves that include it and its heat level.
   */
  predicate MonthCells(cells: seq<Cell>, leaves: seq<LeaveRow>, y: int, m: int)
  {
    1 <= m <= 12 &&
    |cells| == LeadingBlanks(y, m) + DaysInMonth(y, m) &&
    (forall k :: 0 <= k < LeadingBlanks(y, m) ==> cells[k] == Blank) &&
    forall d :: 1 <= d <= DaysInMonth(y, m) ==>
      cells[LeadingBlanks(y, m) + d - 1] == Day(d, DayCount(leaves, Date(y, m, d)), HeatLevel(DayCount(leaves, Date(y, m, d))))
  }

  /** One month of `calendar_data`. */
  method MonthGrid(leaves: seq<LeaveRow>, y: int, m: Month) returns (cells: seq<Cell>)
    ensures MonthCells(cells, leaves, y, m)
  {
    var blanks := LeadingBlanks(y, m);
    cells := [];
    var k := 0;
    while k < blanks
      invariant 0 <= k <= blanks
      invariant cells == seq(k, _ => Blank)
    {
      cells := cells + [Blank];
      k := k + 1;
    }
    var d := 1;
    while d <= DaysInMonth(y, m)
      invariant 1 <= d <= DaysInMonth(y, m) + 1
      invariant |cells| == blanks + d - 1
      invariant forall j :: 0 <= j < blanks ==> cells[j] == Blank
      invariant forall j :: 1 <= j < d ==>
        cells[blanks + j - 1] == Day(j, DayCount(leaves, Date(y, m, j)), HeatLevel(DayCount(leaves, Date(y, m, j))))
    {
      var count := DayCount(leaves, Date(y, m, d));
      cells := cells + [Day(d, count, HeatLevel(count))];
      d := d + 1;
    }
  }

  /** `calendar_data`: the twelve month grids of the selected year. */
  method CalendarData(leaves: seq<LeaveRow>, y: int) returns (grid: map<int, seq<Cell>>)
    ensures forall m :: m in grid <==> 1 <= m <= 12
    ensures forall m :: m in grid ==> MonthCells(grid[m], leaves, y, m)
  {
    grid := map[];
    var m := 1;
    while m <= 12
      invariant 1 <= m <= 13
      invariant forall j :: j in grid <==> 1 <= j < m
      invariant forall j :: j in grid ==> MonthCells(grid[j], leaves, y, j)
    {
      var cells := MonthGrid(leaves, y, m);
      grid := grid[m := cells];
      m := m + 1;
    }
  }
}
