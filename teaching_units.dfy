/**
 * Teaching units: the `TeachingUnit` and `UnitAttendance` rows, their derived values
 * (attendance rate, duration in weeks, total hours and payment), the date-driven status
 * update, and the `teaching_unit_relationships` association table between units.
 */
module TeachingUnits {
  import opened Common
  import opened Calendar

  /** One `UnitAttendance` row. */
  datatype Attendance = Attendance(id: int, unitId: int, date: Date, status: string, hours: real, recordedBy: int)

  /**
   * `UnitAttendance.attendance_factor`: present weighs 1, late 0.75, excused 0.5 and
   * every other status (absent or unknown) 0.
   */
  function AttendanceFactor(status: string): (f: real)
    ensures 0.0 <= f <= 1.0
    ensures f == 1.0 <==> status == "present"
    ensures f == 0.0 <==> status != "present" && status != "late" && status != "excused"
  {
    if status == "present" then 1.0
    else if status == "late" then 0.75
    else if status == "excused" then 0.5
    else 0.0
  }

  function Factor(a: Attendance): real { AttendanceFactor(a.status) }

  /** `TeachingUnit.attendance_rate`: the mean factor of the unit's records, as a percentage. */
  function AttendanceRate(records: seq<Attendance>): (r: real)
    ensures 0.0 <= r <= 100.0
    ensures |records| == 0 ==> r == 0.0
  {
    if |records| == 0 then 0.0
    else
      SumOfUpper(records, Factor, 1.0);
      SumOfLower(records, Factor, 0.0);
      var n := |records| as real;
      assert 0.0 <= SumOf(records, Factor) / n <= 1.0;
      SumOf(records, Factor) / n * 100.0
  }

  /** The rate is 100 exactly when the unit has records and every one of them is `present`. */
  lemma AttendanceRateFull(records: seq<Attendance>)
    ensures AttendanceRate(records) == 100.0 <==> |records| > 0 && forall a :: a in records ==> a.status == "present"
  {
    if |records| > 0 {
      var n := |records| as real;
      var sum := SumOf(records, Factor);
      assert AttendanceRate(records) == sum / n * 100.0;
      if AttendanceRate(records) == 100.0 {
        assert sum == n * 1.0;
        SumOfTop(records, Factor, 1.0);
      }
      if forall a :: a in records ==> a.status == "present" {
        SumOfConstant(records, Factor, 1.0);
      }
    }
  }

  /** The rate is 0 exactly when no record is present, late or excused (or there are none). */
  lemma AttendanceRateZero(records: seq<Attendance>)
    ensures AttendanceRate(records) == 0.0 <==>
      forall a :: a in records ==> a.status != "present" && a.status != "late" && a.status != "excused"
  {
    if |records| > 0 {
      var n := |records| as real;
      var sum := SumOf(records, Factor);
      assert AttendanceRate(records) == sum / n * 100.0;
      if AttendanceRate(records) == 0.0 {
        assert sum == n * 0.0;
        SumOfBottom(records, Factor, 0.0);
      }
      if forall a :: a in records ==> Factor(a) == 0.0 {
        SumOfConstant(records, Factor, 0.0);
      }
    }
  }

  /**
   * Python's `round(days / 7)`: the whole number of weeks nearest to `days`. A tie
   * cannot occur, because `days / 7` never has a fractional part of exactly one half.
   */
  function NearestWeeks(days: int): (w: int)
    ensures -3 <= days - 7 * w <= 3
  {
    (2 * days + 7) / 14
  }

  /** No other whole number of weeks is as close, so the rounding mode does not matter. */
  lemma NearestWeeksUnique(days: int, w: int)
    requires -3 <= days - 7 * w <= 3
    ensures w == NearestWeeks(days)
  {
  }

  /**
   * `TeachingUnit.duration_weeks`: 0 when a date is missing, otherwise the nearest number
   * of weeks between the dates but never less than 1, also when the end precedes the start.
   */
  function DurationWeeks(start: Option<Date>, end: Option<Date>): (w: int)
    ensures w == 0 <==> start.None? || end.None?
    ensures start.Some? && end.Some? ==> w >= 1
    ensures start.Some? && end.Some? && DaysBetween(start.value, end.value) < 4 ==> w == 1
    ensures start.Some? && end.Some? && DaysBetween(start.value, end.value) >= 4 ==>
      -3 <= DaysBetween(start.value, end.value) - 7 * w <= 3
  {
    if start.None? || end.None? then 0
    else Max(1, NearestWeeks(DaysBetween(start.value, end.value)))
  }

  /**
   * `TeachingUnit.update_status` as a function of the day: pending before the start,
   * active up to and including the end, completed afterwards. The stored status plays no
   * part, so a cancelled unit is overwritten too.
   */
  function UnitStatusOn(start: Date, end: Date, today: Date): (s: string)
    ensures s == "pending" <==> Before(today, start)
    ensures s == "active" <==> !Before(today, start) && NotAfter(today, end)
    ensures s == "completed" <==> !Before(today, start) && !NotAfter(today, end)
  {
    if Before(today, start) then "pending"
    else if NotAfter(today, end) then "active"
    else "completed"
  }

  function StatusRank(s: string): int
  {
    if s == "pending" then 0 else if s == "active" then 1 else 2
  }

  /** As days pass a unit only moves forward: pending, then active, then completed. */
  lemma UnitStatusProgresses(start: Date, end: Date, d1: Date, d2: Date)
    requires NotAfter(d1, d2)
    ensures StatusRank(UnitStatusOn(start, end, d1)) <= StatusRank(UnitStatusOn(start, end, d2))
  {
  }

  /** A `TeachingUnit` row; `update_status` assigns its status in place. */
  class TeachingUnit {
    const id: int
    var title: string
    var employeeId: int
    var startDate: Date
    var endDate: Date
    var hoursPerWeek: real
    var unitValue: real
    var ratePerUnit: real
    var status: string
    var attendances: seq<Attendance>

    /** A new unit starts out `pending` with no attendance records. */
    constructor (id: int, title: string, employeeId: int, startDate: Date, endDate: Date,
                 hoursPerWeek: real, unitValue: real, ratePerUnit: real)
      ensures this.id == id && this.title == title && this.employeeId == employeeId
      ensures this.startDate == startDate && this.endDate == endDate
      ensures this.hoursPerWeek == hoursPerWeek && this.unitValue == unitValue
      ensures this.ratePerUnit == ratePerUnit
      ensures status == "pending" && attendances == []
    {
      this.id := id;
      this.title := title;
      this.employeeId := employeeId;
      this.startDate := startDate;
      this.endDate := endDate;
      this.hoursPerWeek := hoursPerWeek;
      this.unitValue := unitValue;
      this.ratePerUnit := ratePerUnit;
      status := "pending";
      attendances := [];
    }

    /** `total_hours`: the weekly hours over the unit's duration, at least one week's worth. */
    function TotalHours(): (h: real)
      reads this
      ensures hoursPerWeek >= 0.0 ==> h >= hoursPerWeek
      ensures h == 0.0 <==> hoursPerWeek == 0.0
    {
      DurationWeeks(Some(startDate), Some(endDate)) as real * hoursPerWeek
    }

    /** `total_payment`: units times the rate per unit, regardless of attendance. */
    function TotalPayment(): (p: real)
      reads this
      ensures unitValue >= 0.0 && ratePerUnit >= 0.0 ==> p >= 0.0
      ensures p == 0.0 <==> unitValue == 0.0 || ratePerUnit == 0.0
    {
      unitValue * ratePerUnit
    }

    /** `update_status`: the status is recomputed from the dates alone and returned. */
    method UpdateStatus(today: Date) returns (s: string)
      modifies this`status
      ensures status == UnitStatusOn(startDate, endDate, today)
      ensures s == status
    {
      if Before(today, startDate) {
        status := "pending";
      } else if NotAfter(today, endDate) {
        status := "active";
      } else {
        status := "completed";
      }
      s := status;
    }
  }

  /** The targets linked from `source`, optionally only those with relationship `kind`. */
  function Related(kinds: map<(int, int), string>, source: int, kind: Option<string>): (targets: set<int>)
    ensures forall t :: t in targets <==>
      (source, t) in kinds && (kind.None? || kind.value == "" || kinds[(source, t)] == kind.value)
  {
    set p | p in kinds && p.0 == source && (kind.None? || kind.value == "" || kinds[p] == kind.value) :: p.1
  }

  /** How the `link_unit` route ends as written: a refusal, or the failing commit. */
  datatype LinkCommit = SelfLink | AlreadyLinked | IntegrityError

  /**
   * `link_unit` followed by the route's commit, as written. The appended association row
   * carries only the two unit ids and `created_at`; the Core UPDATE meant to set its type
   * runs before that row is flushed and matches nothing; so the commit inserts a row whose
   * `relationship_type` is null, which the NOT NULL column refuses. The transaction is
   * rolled back and the table keeps what it had.
   */
  function LinkAsWritten(kinds: map<(int, int), string>, source: int, target: int): (r: LinkCommit)
    ensures r == SelfLink <==> source == target
    ensures r == AlreadyLinked <==> source != target && (source, target) in kinds
    ensures r == IntegrityError <==> source != target && (source, target) !in kinds
  {
    if source == target then SelfLink
    else if (source, target) in kinds then AlreadyLinked
    else IntegrityError
  }

  /**
   * As written no link is ever stored: for every pair the intended `LinkUnit` would add,
   * the commit fails and the target stays unrelated, where the intended table relates it.
   */
  lemma LinkNeverStored(kinds: map<(int, int), string>, source: int, target: int, kind: string)
    requires source != target && (source, target) !in kinds
    ensures LinkAsWritten(kinds, source, target) == IntegrityError
    ensures target !in Related(kinds, source, None)
    ensures target in Related(kinds[(source, target) := kind], source, None)
  {
  }

  /** How unlinking ends: refused for the unit itself, the failing commit, or the pair removed. */
  datatype UnlinkResult = SelfRefused | StaleData | Unlinked

  /**
   * The `teaching_unit_relationships` table: each `(source, target)` pair, its primary
   * key, carries one relationship type.
   */
  class UnitRelationships {
    var kinds: map<(int, int), string>

    constructor ()
      ensures kinds == map[]
    {
      kinds := map[];
    }

    /**
     * `TeachingUnit.link_unit` as evidently intended: refuses a link to the unit itself and
     * a pair that is already linked (whatever its type); otherwise adds exactly one typed
     * edge. As written the route's commit fails instead (`LinkAsWritten`).
     */
    method LinkUnit(source: int, target: int, kind: string) returns (linked: bool)
      modifies this
      ensures linked <==> source != target && (source, target) !in old(kinds)
      ensures kinds == if linked then old(kinds)[(source, target) := kind] else old(kinds)
    {
      if source == target {
        return false;
      }
      if (source, target) in kinds {
        return false;
      }
      kinds := kinds[(source, target) := kind];
      linked := true;
    }

    /**
     * `TeachingUnit.unlink_unit` followed by the commit of the `unlink_unit` route: the unit
     * itself is refused; a linked pair is dropped; for a pair that is not linked the
     * collection removal still queues a DELETE of the association row, which matches no row,
     * so the commit raises a stale-data error and the table stays as it was.
     */
    method UnlinkUnit(source: int, target: int) returns (r: UnlinkResult)
      modifies this
      ensures r == SelfRefused <==> source == target
      ensures r == StaleData <==> source != target && (source, target) !in old(kinds)
      ensures r == Unlinked <==> source != target && (source, target) in old(kinds)
      ensures kinds == if r == Unlinked then old(kinds) - {(source, target)} else old(kinds)
    {
      if source == target {
        return SelfRefused;
      }
      if (source, target) !in kinds {
        return StaleData;
      }
      kinds := kinds - {(source, target)};
      r := Unlinked;
    }

    /** `TeachingUnit.get_related_units`; an empty type string filters nothing. */
    function RelatedUnits(source: int, kind: Option<string>): (targets: set<int>)
      reads this
      ensures forall t :: t in targets ==> (source, t) in kinds
    {
      Related(kinds, source, kind)
    }
  }

  /** A fresh link is found among the related units, both unfiltered and under its own type. */
  lemma LinkedIsRelated(kinds: map<(int, int), string>, source: int, target: int, kind: string)
    ensures target in Related(kinds[(source, target) := kind], source, None)
    ensures target in Related(kinds[(source, target) := kind], source, Some(kind))
  {
  }

  /** Linking leaves every other pair and its type as it was. */
  lemma LinkKeepsOthers(kinds: map<(int, int), string>, source: int, target: int, kind: string, t: int)
    requires t != target
    ensures t in Related(kinds[(source, target) := kind], source, None) <==> t in Related(kinds, source, None)
  {
  }

  /** Unlinking a pair that link_unit just added restores the table it started from. */
  lemma LinkUnlinkRoundTrip(kinds: map<(int, int), string>, source: int, target: int, kind: string)
    requires (source, target) !in kinds
    ensures kinds[(source, target) := kind] - {(source, target)} == kinds
  {
  }

  /** After unlinking, the target is no longer related to the source. */
  lemma UnlinkedIsUnrelated(kinds: map<(int, int), string>, source: int, target: int, kind: Option<string>)
    ensures target !in Related(kinds - {(source, target)}, source, kind)
  {
  }
}
