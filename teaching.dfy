/**
 * The teaching routes: the teaching earnings handed to payroll
 * (`get_teaching_data_for_payroll`), who may delete an attendance record, and which
 * units are offered as link targets.
 */
module TeachingRoutes {
  import opened Common
  import opened Calendar
  import opened Users
  import opened TeachingUnits
  import opened AttendanceReports

  /** The columns of a `TeachingUnit` row that the payroll query reads. */
  datatype UnitRow = UnitRow(id: int, employeeId: int, status: string, ratePerUnit: real)

  /** One entry of the `units` list: hours taught in the period and what they earn. */
  datatype UnitEarnings = UnitEarnings(id: int, hoursTaught: real, ratePerUnit: real, earnings: real)

  /** The dictionary `get_teaching_data_for_payroll` returns. */
  datatype TeachingPay = TeachingPay(units: seq<UnitEarnings>, totalHours: real, totalEarnings: real)

  function HoursTaughtOf(u: UnitEarnings): real { u.hoursTaught }

  function EarningsOf(u: UnitEarnings): real { u.earnings }

  /** The employee's units whose status is `active`, in query order. */
  function ActiveUnits(units: seq<UnitRow>, employeeId: int): (active: seq<UnitRow>)
    ensures forall u :: u in active <==> u in units && u.employeeId == employeeId && u.status == "active"
  {
    if |units| == 0 then []
    else
      var rest := ActiveUnits(units[..|units| - 1], employeeId);
      var u := units[|units| - 1];
      assert units == units[..|units| - 1] + [u];
      if u.employeeId == employeeId && u.status == "active" then rest + [u] else rest
  }

  /** Teaching time counts only when the teacher was present or late. */
  predicate Taught(status: string) { status == "present" || status == "late" }

  function PresentOrLateHours(r: Attendance): real { if Taught(r.status) then r.hours else 0.0 }

  /** `hours_taught`: the hours of the unit's records in the window that were present or late. */
  function TaughtHours(records: seq<Attendance>, unitId: int, start: Date, end: Date): real
  {
    if |records| == 0 then 0.0
    else
      var r := records[|records| - 1];
      TaughtHours(records[..|records| - 1], unitId, start, end) +
        (if r.unitId == unitId && InWindow(r.date, start, end) && Taught(r.status) then r.hours else 0.0)
  }

  /**
   * The hours taught are the present-or-late hours of exactly the records the attendance
   * statistics count for that unit and window: absent and excused records add nothing.
   */
  lemma {:induction false} TaughtHoursOverUnitRecords(records: seq<Attendance>, unitId: int, start: Date, end: Date)
    ensures TaughtHours(records, unitId, start, end) == SumOf(UnitRecords(records, unitId, start, end), PresentOrLateHours)
  {
    if |records| > 0 {
      var rest := records[..|records| - 1];
      var r := records[|records| - 1];
      TaughtHoursOverUnitRecords(rest, unitId, start, end);
      if r.unitId == unitId && InWindow(r.date, start, end) {
        SumOfAppend(UnitRecords(rest, unitId, start, end), r, PresentOrLateHours);
      }
    }
  }

  /** With non-negative hours, no unit is taught for a negative number of hours. */
  lemma {:induction false} TaughtHoursNonNegative(records: seq<Attendance>, unitId: int, start: Date, end: Date)
    requires forall r :: r in records ==> r.hours >= 0.0
    ensures TaughtHours(records, unitId, start, end) >= 0.0
  {
    if |records| > 0 {
      assert records[|records| - 1] in records;
      assert forall r :: r in records[..|records| - 1] ==> r in records;
      TaughtHoursNonNegative(records[..|records| - 1], unitId, start, end);
    }
  }

  /** The entry of `unit`: its hours taught in the window, its rate, and their product. */
  predicate Describes(e: UnitEarnings, unit: UnitRow, records: seq<Attendance>, start: Date, end: Date)
  {
    e.id == unit.id && e.ratePerUnit == unit.ratePerUnit &&
    e.hoursTaught == TaughtHours(records, unit.id, start, end) &&
    e.earnings == e.hoursTaught * unit.ratePerUnit
  }

  /**
   * `get_teaching_data_for_payroll`: one entry per active unit of the employee, even
   * with no hours, earning hours taught times the unit's rate; the totals add them up.
   */
  method GetTeachingDataForPayroll(employeeId: int, units: seq<UnitRow>, records: seq<Attendance>, start: Date, end: Date)
    returns (pay: TeachingPay)
    ensures var active := ActiveUnits(units, employeeId);
      |pay.units| == |active| &&
      forall k :: 0 <= k < |active| ==> Describes(pay.units[k], active[k], records, start, end)
    ensures pay.totalEarnings == SumOf(pay.units, EarningsOf)
    ensures pay.totalHours == SumOf(pay.units, HoursTaughtOf)
  {
    var active := ActiveUnits(units, employeeId);
    var unitData: seq<UnitEarnings> := [];
    var totalEarnings := 0.0;
    var i := 0;
    while i < |active|
      invariant 0 <= i <= |active|
      invariant |unitData| == i
      invariant forall k :: 0 <= k < i ==> Describes(unitData[k], active[k], records, start, end)
      invariant totalEarnings == SumOf(unitData, EarningsOf)
    {
      var unit := active[i];
      var hoursTaught := TaughtHours(records, unit.id, start, end);
      var unitEarnings := hoursTaught * unit.ratePerUnit;
      var entry := UnitEarnings(unit.id, hoursTaught, unit.ratePerUnit, unitEarnings);
      assert Describes(entry, unit, records, start, end);
      SumOfAppend(unitData, entry, EarningsOf);
      totalEarnings := totalEarnings + unitEarnings;
      unitData := unitData + [entry];
      i := i + 1;
    }
    pay := TeachingPay(unitData, SumOf(unitData, HoursTaughtOf), totalEarnings);
  }

  /**
   * The permission check of `delete_attendance`: HR and administrators may delete any
   * record; anyone else only a record they both own the unit of and recorded themselves.
   */
  function CanDeleteAttendance(user: User, unitEmployeeId: int, recordedBy: int): (ok: bool)
    ensures ok <==> IsStaff(user) || (user.id == unitEmployeeId && user.id == recordedBy)
    ensures !IsStaff(user) && user.id != recordedBy ==> !ok
  {
    IsHr(user) || IsAdmin(user) || (user.id == unitEmployeeId && user.id == recordedBy)
  }

  /** The rows left after deleting the row with the given id. */
  function WithoutId(rows: seq<Attendance>, id: int): (kept: seq<Attendance>)
    ensures forall a :: a in kept <==> a in rows && a.id != id
  {
    if |rows| == 0 then []
    else
      var rest := WithoutId(rows[..|rows| - 1], id);
      var a := rows[|rows| - 1];
      assert rows == rows[..|rows| - 1] + [a];
      if a.id != id then rest + [a] else rest
  }

  /** The `UnitAttendance` table, from which `delete_attendance` removes a row. */
  class AttendanceTable {
    var rows: seq<Attendance>

    constructor (rows: seq<Attendance>)
      ensures this.rows == rows
    {
      this.rows := rows;
    }

    /**
     * `delete_attendance`: when the user may delete the record, every row with its id
     * disappears and nothing else changes; otherwise the table is left alone.
     */
    method DeleteAttendance(user: User, unitEmployeeId: int, record: Attendance) returns (deleted: bool)
      modifies this
      ensures deleted == CanDeleteAttendance(user, unitEmployeeId, record.recordedBy)
      ensures !deleted ==> rows == old(rows)
      ensures deleted ==> forall a :: a in rows <==> a in old(rows) && a.id != record.id
    {
      deleted := CanDeleteAttendance(user, unitEmployeeId, record.recordedBy);
      if deleted {
        rows := WithoutId(rows, record.id);
      }
    }
  }

  /**
   * The units offered by `link_unit`: every unit but the unit itself and those it is
   * already linked to.
   */
  function LinkCandidates(unitIds: seq<int>, source: int, kinds: map<(int, int), string>): (candidates: seq<int>)
    ensures forall t :: t in candidates <==> t in unitIds && t != source && t !in Related(kinds, source, None)
  {
    if |unitIds| == 0 then []
    else
      var rest := LinkCandidates(unitIds[..|unitIds| - 1], source, kinds);
      var t := unitIds[|unitIds| - 1];
      assert unitIds == unitIds[..|unitIds| - 1] + [t];
      if t != source && t !in Related(kinds, source, None) then rest + [t] else rest
  }

  /** Every offered candidate is one that `link_unit` accepts. */
  lemma CandidatesCanBeLinked(unitIds: seq<int>, source: int, kinds: map<(int, int), string>, t: int)
    requires t in LinkCandidates(unitIds, source, kinds)
    ensures t != source && (source, t) !in kinds
  {
  }
}
