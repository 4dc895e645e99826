/**
 * Employees: the `EmployeeSalary` history and its annual equivalent, the salary form of
 * `manage_salary` (closing the current salary and deriving the academic year), which
 * employees HR may see, and the per-unit presence rates of `attendance`.
 */
module Employees {
  import opened Common
  import opened Calendar
  import opened Text
  import opened Users
  import opened Forms
  import opened TeachingUnits
  import opened AttendanceReports
  import Accounts

  /** One `EmployeeSalary` row; `end` is `None` while it is the current salary. */
  datatype Salary = Salary(id: int, employeeId: int, amount: real, currency: string, effective: Date,
                           end: Option<Date>, salaryType: string, contractType: string, academicYear: string)

  /**
   * `EmployeeSalary.annualized_amount`: hourly pay over 1440 teaching hours (720 unless
   * full time), monthly pay over 12 months (10 unless full time), a stipend twice, and an
   * annual or contract amount (or any other type) as it is.
   */
  function AnnualizedAmount(amount: real, salaryType: string, contractType: string): (a: real)
    ensures amount >= 0.0 ==> a >= amount
    ensures a == amount <==> amount == 0.0 || (salaryType != "hourly" && salaryType != "monthly" && salaryType != "stipend")
    ensures salaryType == "monthly" && contractType == "full_time" ==> a == 12.0 * amount
  {
    if salaryType == "hourly" then amount * (if contractType == "full_time" then 1440.0 else 720.0)
    else if salaryType == "monthly" then amount * (if contractType == "full_time" then 12.0 else 10.0)
    else if salaryType == "stipend" then amount * 2.0
    else amount
  }

  /** Full-time staff never earn less per year than anyone else paid the same hourly or monthly amount. */
  lemma FullTimeEarnsMost(amount: real, salaryType: string, contractType: string)
    requires amount >= 0.0
    ensures AnnualizedAmount(amount, salaryType, contractType) <= AnnualizedAmount(amount, salaryType, "full_time")
  {
  }

  /** The first year of the academic year a day belongs to: years run from August to July. */
  function AcademicYearStart(d: Date): int
  {
    if d.month >= 8 then d.year else d.year - 1
  }

  /** The `academic_year` label of `manage_salary`, such as `2023-2024`. */
  function AcademicYear(d: Date): (name: string)
    ensures name == IntToString(AcademicYearStart(d)) + "-" + IntToString(AcademicYearStart(d) + 1)
  {
    var y := AcademicYearStart(d);
    IntToString(y) + "-" + IntToString(y + 1)
  }

  /** A day lies between the 1st of August of its academic year's first year and the next 1st of August. */
  lemma AcademicYearWindow(d: Date)
    requires Valid(d) && 2 <= d.year <= 9998
    ensures var y := AcademicYearStart(d);
      NotAfter(Date(y, 8, 1), d) && Before(d, Date(y + 1, 8, 1))
  {
    var y := AcademicYearStart(d);
    if d.month >= 8 {
      if d.month > 8 {
        DateOrder(Date(y, 8, 1), d);
      }
      DateOrder(d, Date(y + 1, 8, 1));
    } else {
      DateOrder(Date(y, 8, 1), d);
      DateOrder(d, Date(y + 1, 8, 1));
    }
  }

  /** The first part of the label is the academic year's first year. */
  lemma AcademicYearLabel(d: Date)
    requires d.year >= 1
    ensures var parts := Split(AcademicYear(d), '-');
      |parts| == 2 && ParseInt(parts[0]) == Some(AcademicYearStart(d)) && ParseInt(parts[1]) == Some(AcademicYearStart(d) + 1)
  {
    var y := AcademicYearStart(d);
    var a, b := IntToString(y), IntToString(y + 1);
    NoDash(y);
    NoDash(y + 1);
    SplitAround(a, b, '-');
    IntRoundTrip(y);
    IntRoundTrip(y + 1);
  }

  lemma NoDash(n: nat)
    ensures '-' !in IntToString(n)
  {
    var s := IntToString(n);
    assert forall i :: 0 <= i < |s| ==> IsDigit(s[i]);
  }

  /** Splitting `a + [sep] + b` at `sep`, when neither part contains it, gives back the two parts. */
  lemma {:induction false} SplitAround(a: string, b: string, sep: char)
    requires sep !in a && sep !in b
    ensures Split(a + [sep] + b, sep) == [a, b]
  {
    if |a| == 0 {
      assert a + [sep] + b == [sep] + b;
      assert ([sep] + b)[1..] == b;
      SplitNone(b, sep);
    } else {
      assert (a + [sep] + b)[1..] == a[1..] + [sep] + b;
      assert (a + [sep] + b)[0] == a[0];
      SplitAround(a[1..], b, sep);
      assert [a[0]] + a[1..] == a;
    }
  }

  lemma {:induction false} SplitNone(s: string, sep: char)
    requires sep !in s
    ensures Split(s, sep) == [s]
  {
    if |s| > 0 {
      SplitNone(s[1..], sep);
      assert [s[0]] + s[1..] == s;
    }
  }

  /** The choices of the select fields of `SalaryForm`. */
  predicate Currency(c: string) { c == "USD" || c == "EUR" || c == "GBP" || c == "JPY" || c == "CAD" || c == "AUD" }

  predicate SalaryType(t: string) { t == "annual" || t == "monthly" || t == "hourly" || t == "contract" || t == "stipend" }

  predicate ContractType(t: string) { t == "full_time" || t == "part_time" || t == "adjunct" || t == "temporary" }

  /** A `SalaryForm` submission; `None` is a field left empty. */
  datatype SalaryFields = SalaryFields(amount: Option<real>, currency: string, salaryType: string, contractType: string,
                                       effective: Option<Date>)

  /** `SalaryForm.validate_on_submit()`: a positive amount, listed choices and an effective date. */
  predicate SalaryFormValid(f: SalaryFields)
  {
    FieldValid(f.amount, SalaryAmount) && Currency(f.currency) && SalaryType(f.salaryType) &&
    ContractType(f.contractType) && f.effective.Some?
  }

  /** The position of the employee's first current salary (no end date), if there is one. */
  function CurrentSalary(rows: seq<Salary>, employeeId: int): (k: Option<nat>)
    ensures k.Some? ==> k.value < |rows| && rows[k.value].employeeId == employeeId && rows[k.value].end.None?
    ensures k.Some? ==> forall i :: 0 <= i < k.value ==> !(rows[i].employeeId == employeeId && rows[i].end.None?)
    ensures k.None? ==> forall i :: 0 <= i < |rows| ==> !(rows[i].employeeId == employeeId && rows[i].end.None?)
  {
    if |rows| == 0 then None
    else if rows[0].employeeId == employeeId && rows[0].end.None? then Some(0)
    else match CurrentSalary(rows[1..], employeeId)
      case None => None
      case Some(k) => Some(k + 1)
  }

  /** The `EmployeeSalary` table. */
  class SalaryHistory {
    var rows: seq<Salary>

    /** Dates are real calendar days. */
    predicate DatesValid()
      reads this
    {
      forall i :: 0 <= i < |rows| ==> Valid(rows[i].effective)
    }

    constructor ()
      ensures rows == []
    {
      rows := [];
    }

    /**
     * `manage_salary`: an unknown employee is a 404; otherwise a valid form adds a current salary labelled with its academic year.
     * The employee's current salary is closed on the day before the new effective date, but
     * only if it took effect strictly earlier; otherwise it stays open beside the new one.
     */
    method ManageSalary(employees: set<int>, employeeId: int, f: SalaryFields, newId: int) returns (saved: bool)
      requires DatesValid()
      requires f.effective.Some? ==> Valid(f.effective.value)
      modifies this
      ensures saved <==> employeeId in employees && SalaryFormValid(f)
      ensures !saved ==> rows == old(rows)
      ensures saved ==> |rows| == |old(rows)| + 1
      ensures saved ==> (
        rows[|old(rows)|] == Salary(newId, employeeId, f.amount.value, f.currency, f.effective.value, None,
                                    f.salaryType, f.contractType, AcademicYear(f.effective.value)))
      ensures saved ==> f.amount.value > 0.0
      ensures saved ==> forall i :: 0 <= i < |old(rows)| && Some(i) != CurrentSalary(old(rows), employeeId) ==> rows[i] == old(rows)[i]
      ensures saved && CurrentSalary(old(rows), employeeId).Some? ==>
        var k := CurrentSalary(old(rows), employeeId).value;
        if Before(old(rows)[k].effective, f.effective.value) then
          rows[k].end.Some? && Ordinal(rows[k].end.value) + 1 == Ordinal(f.effective.value) && Valid(rows[k].end.value) &&
          rows[k] == old(rows)[k].(end := rows[k].end)
        else rows[k] == old(rows)[k]
      ensures DatesValid()
    {
      if employeeId !in employees || !SalaryFormValid(f) {
        return false;
      }
      PositiveAmountRule(f.amount);
      var effective := f.effective.value;
      var current := CurrentSalary(rows, employeeId);
      if current.Some? && Before(rows[current.value].effective, effective) {
        var k := current.value;
        OrdinalPositive(rows[k].effective);
        assert effective != Date(1, 1, 1);
        rows := rows[k := rows[k].(end := Some(PrevDay(effective)))];
      }
      rows := rows + [Salary(newId, employeeId, f.amount.value, f.currency, effective, None, f.salaryType,
                             f.contractType, AcademicYear(effective))];
      saved := true;
    }
  }

  /**
   * `EmployeeSearchForm.validate()` on the query string: the search is at most 100
   * characters and the department one of the choices, "All Departments" (`""`) included.
   */
  predicate SearchFormValid(department: string, search: string)
  {
    |search| <= 100 && (department == "" || Accounts.Department(department))
  }

  /** The department the list is narrowed to: only a validated, non-empty choice filters. */
  function DepartmentFilter(department: string, search: string): (d: Option<string>)
    ensures d.Some? <==> department != "" && SearchFormValid(department, search)
    ensures d.Some? ==> d.value == department
  {
    if department != "" && SearchFormValid(department, search) then Some(department) else None
  }

  /**
   * The `list` of employees (HR and administrators only): an administrator sees everyone,
   * anyone else no administrator; a department filter, applied only when the search form
   * validates, keeps that department only.
   */
  function EmployeeList(users: seq<User>, viewer: User, department: string, search: string): (shown: seq<User>)
    ensures forall u :: u in shown <==>
      u in users && (IsAdmin(viewer) || u.role != "admin") &&
      (DepartmentFilter(department, search).None? || u.department == department)
  {
    if |users| == 0 then []
    else
      var u := users[|users| - 1];
      var rest := EmployeeList(users[..|users| - 1], viewer, department, search);
      assert users == users[..|users| - 1] + [u];
      if (IsAdmin(viewer) || u.role != "admin") && (DepartmentFilter(department, search).None? || u.department == department)
      then rest + [u] else rest
  }

  /**
   * A department outside the choices, or a search over 100 characters, fails validation
   * and so filters nothing: the viewer sees everyone they may see.
   */
  lemma InvalidSearchListsEveryone(users: seq<User>, viewer: User, department: string, search: string, u: User)
    requires !SearchFormValid(department, search) && u in users
    ensures u in EmployeeList(users, viewer, department, search) <==> CanViewDetail(viewer, u)
  {
  }

  /** `detail`: an administrator's page is shown to administrators only. */
  predicate CanViewDetail(viewer: User, employee: User)
  {
    !(employee.role == "admin" && !IsAdmin(viewer))
  }

  /** What a non-administrator may open and what they are listed always agree. */
  lemma ListMatchesDetail(users: seq<User>, viewer: User, u: User)
    requires u in users
    ensures u in EmployeeList(users, viewer, "", "") <==> CanViewDetail(viewer, u)
  {
  }

  /** One entry of the `attendance_stats` dictionary of `attendance`. */
  datatype UnitPresence = UnitPresence(total: nat, present: nat, rate: real)

  /** All records of one unit, whatever their date. */
  function RecordsOf(records: seq<Attendance>, unitId: int): (rs: seq<Attendance>)
    ensures |rs| <= |records|
    ensures forall r :: r in rs <==> r in records && r.unitId == unitId
  {
    if |records| == 0 then []
    else
      var r := records[|records| - 1];
      var rest := RecordsOf(records[..|records| - 1], unitId);
      assert records == records[..|records| - 1] + [r];
      if r.unitId == unitId then rest + [r] else rest
  }

  function IsPresent(r: Attendance): bool { r.status == "present" }

  /**
   * A unit's entry: its records, the `present` ones among them, and their share as a
   * percentage (0 with no records): 100 exactly when every record is `present`.
   */
  function Presence(records: seq<Attendance>, unitId: int): (p: UnitPresence)
    ensures p.total == |RecordsOf(records, unitId)| && p.present <= p.total
    ensures 0.0 <= p.rate <= 100.0
    ensures p.total == 0 ==> p.rate == 0.0
    ensures p.rate == 100.0 <==> p.total > 0 && forall r :: r in records && r.unitId == unitId ==> r.status == "present"
  {
    var rs := RecordsOf(records, unitId);
    CountOfBound(rs, IsPresent);
    CountOfAll(rs, IsPresent);
    UnitPresence(|rs|, CountOf(rs, IsPresent), Rate(CountOf(rs, IsPresent), |rs|))
  }

  /** `attendance`: one entry per unit of the employee. */
  method AttendanceStats(unitIds: seq<int>, records: seq<Attendance>) returns (stats: map<int, UnitPresence>)
    ensures stats.Keys == set u | u in unitIds
    ensures forall u :: u in stats ==> stats[u] == Presence(records, u)
  {
    stats := map[];
    var i := 0;
    while i < |unitIds|
      invariant 0 <= i <= |unitIds|
      invariant stats.Keys == set u | u in unitIds[..i]
      invariant forall u :: u in stats ==> stats[u] == Presence(records, u)
    {
      assert unitIds[..i + 1] == unitIds[..i] + [unitIds[i]];
      stats := stats[unitIds[i] := Presence(records, unitIds[i])];
      i := i + 1;
    }
    assert unitIds[..i] == unitIds;
  }
}
