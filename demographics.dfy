/**
 * The aggregation behind `employee_demographics`: each employee's tenure in years, the
 * five tenure ranges, the per-department, per-education and per-hire-year tallies, and
 * the guarded averages.
 */
module Demographics {
  import opened Common
  import opened Calendar

  /** What the report reads about one employee: department, profile hire date and education level. */
  datatype EmployeeFacts = EmployeeFacts(department: string, hire: Option<Date>, education: Option<string>)

  /** Tenure in years: days since hiring over 365.25, and 0 without a hire date. */
  function Tenure(hire: Option<Date>, today: Date): (t: real)
    ensures hire.None? ==> t == 0.0
    ensures hire.Some? ==> (t > 0.0 <==> Before(hire.value, today))
    ensures hire.Some? ==> t * 365.25 == DaysBetween(hire.value, today) as real
  {
    if hire.Some? then DaysBetween(hire.value, today) as real / 365.25 else 0.0
  }

  /** The lower bounds of the ranges `<1`, `1-2`, `2-5`, `5-10` and `10+` years. */
  const Thresholds: seq<real> := [1.0, 2.0, 5.0, 10.0]

  /** The tenure range of a tenure: the number of thresholds it has reached. */
  function TenureBucket(t: real): (b: nat)
    ensures b < 5
    ensures b > 0 ==> t >= Thresholds[b - 1]
    ensures b < 4 ==> t < Thresholds[b]
  {
    if t < 1.0 then 0 else if t < 2.0 then 1 else if t < 5.0 then 2 else if t < 10.0 then 3 else 4
  }

  /** A longer tenure never falls in an earlier range. */
  lemma BucketMonotone(s: real, t: real)
    requires s <= t
    ensures TenureBucket(s) <= TenureBucket(t)
  {
  }

  /** How many tenures fall in range `b`. */
  function BucketCount(tenures: seq<real>, b: nat): (n: nat)
    ensures n <= |tenures|
  {
    if |tenures| == 0 then 0
    else BucketCount(tenures[..|tenures| - 1], b) + (if TenureBucket(tenures[|tenures| - 1]) == b then 1 else 0)
  }

  /** The five ranges split the employees: their counts add up to the number of employees. */
  lemma {:induction false} BucketsPartition(tenures: seq<real>)
    ensures BucketCount(tenures, 0) + BucketCount(tenures, 1) + BucketCount(tenures, 2) +
            BucketCount(tenures, 3) + BucketCount(tenures, 4) == |tenures|
  {
    if |tenures| > 0 {
      BucketsPartition(tenures[..|tenures| - 1]);
    }
  }

  /** The `tenure_counts` loop: one count per range. */
  method TenureCounts(tenures: seq<real>) returns (counts: seq<nat>)
    ensures |counts| == 5
    ensures forall b :: 0 <= b < 5 ==> counts[b] == BucketCount(tenures, b)
  {
    counts := [0, 0, 0, 0, 0];
    var i := 0;
    while i < |tenures|
      invariant 0 <= i <= |tenures|
      invariant |counts| == 5
      invariant forall b :: 0 <= b < 5 ==> counts[b] == BucketCount(tenures[..i], b)
    {
      assert tenures[..i + 1][..i] == tenures[..i];
      var b := TenureBucket(tenures[i]);
      counts := counts[b := counts[b] + 1];
      i := i + 1;
    }
    assert tenures[..i] == tenures;
  }

  /** The tenures of a list of employees on `today`. */
  function Tenures(emps: seq<EmployeeFacts>, today: Date): (ts: seq<real>)
    ensures |ts| == |emps|
    ensures forall k :: 0 <= k < |emps| ==> ts[k] == Tenure(emps[k].hire, today)
  {
    if |emps| == 0 then [] else Tenures(emps[..|emps| - 1], today) + [Tenure(emps[|emps| - 1].hire, today)]
  }

  /** A department's entry: its employees, and the total and number of positive tenures among them. */
  datatype DeptTenure = DeptTenure(count: nat, totalTenure: real, withTenure: nat)

  function DeptOf(emps: seq<EmployeeFacts>, dept: string, today: Date): (d: DeptTenure)
    ensures d.withTenure <= d.count <= |emps|
    ensures d.withTenure == 0 <==> d.totalTenure == 0.0
    ensures d.totalTenure >= 0.0
  {
    if |emps| == 0 then DeptTenure(0, 0.0, 0)
    else
      var e := emps[|emps| - 1];
      var rest := DeptOf(emps[..|emps| - 1], dept, today);
      var t := Tenure(e.hire, today);
      if e.department != dept then rest else AddTenure(rest, t)
  }

  /** One more employee in a department: counted, and their tenure added when positive. */
  function AddTenure(d: DeptTenure, t: real): DeptTenure
  {
    if t > 0.0 then DeptTenure(d.count + 1, d.totalTenure + t, d.withTenure + 1)
    else DeptTenure(d.count + 1, d.totalTenure, d.withTenure)
  }

  /** `avg_tenure` of a department: the mean positive tenure, 0 when nobody has one. */
  function AvgTenure(d: DeptTenure): (a: real)
    ensures d.withTenure == 0 ==> a == 0.0
    ensures d.withTenure > 0 ==> a * d.withTenure as real == d.totalTenure
  {
    if d.withTenure > 0 then d.totalTenure / d.withTenure as real else 0.0
  }

  /** A department with someone of positive tenure has a positive average. */
  lemma AvgTenurePositive(emps: seq<EmployeeFacts>, dept: string, today: Date)
    requires DeptOf(emps, dept, today).withTenure > 0
    ensures AvgTenure(DeptOf(emps, dept, today)) > 0.0
  {
  }

  /** The education level a profile counts under: `Unknown` when it has none. */
  function EducationOf(e: EmployeeFacts): string
  {
    if e.education.Some? then e.education.value else "Unknown"
  }

  function EducationCount(emps: seq<EmployeeFacts>, level: string): (n: nat)
    ensures n <= |emps|
  {
    if |emps| == 0 then 0
    else EducationCount(emps[..|emps| - 1], level) + (if EducationOf(emps[|emps| - 1]) == level then 1 else 0)
  }

  function HireYearCount(emps: seq<EmployeeFacts>, year: int): (n: nat)
    ensures n <= |emps|
  {
    if |emps| == 0 then 0
    else
      var e := emps[|emps| - 1];
      HireYearCount(emps[..|emps| - 1], year) + (if e.hire.Some? && e.hire.value.year == year then 1 else 0)
  }

  /**
   * The main loop of `employee_demographics`: one entry per department, per education
   * level and per hire year that occurs, each holding that group's tallies.
   */
  method GatherStats(emps: seq<EmployeeFacts>, today: Date)
    returns (departments: map<string, DeptTenure>, education: map<string, nat>, hireYears: map<int, nat>)
    ensures DepartmentsHold(departments, emps, today)
    ensures LevelsHold(education, emps)
    ensures YearsHold(hireYears, emps)
  {
    departments, education, hireYears := map[], map[], map[];
    var i := 0;
    while i < |emps|
      invariant 0 <= i <= |emps|
      invariant DepartmentsHold(departments, emps[..i], today)
      invariant LevelsHold(education, emps[..i])
      invariant YearsHold(hireYears, emps[..i])
    {
      var e := emps[i];
      var t := Tenure(e.hire, today);
      var years := hireYears;
      if e.hire.Some? {
        var y := e.hire.value.year;
        hireYears := hireYears[y := if y in hireYears then hireYears[y] + 1 else 1];
      }
      YearsStep(years, hireYears, emps, i);
      var levels := education;
      var level := EducationOf(e);
      education := education[level := if level in education then education[level] + 1 else 1];
      LevelsStep(levels, education, emps, i);
      var depts := departments;
      var dept := e.department;
      var entry := if dept in departments then departments[dept] else DeptTenure(0, 0.0, 0);
      departments := departments[dept := AddTenure(entry, t)];
      DepartmentsStep(depts, departments, emps, i, today);
      i := i + 1;
    }
    assert emps[..i] == emps;
  }

  /** The departments, education levels and hire years that occur in `emps`. */
  function DepartmentsIn(emps: seq<EmployeeFacts>): (ds: set<string>)
    ensures forall e :: e in emps ==> e.department in ds
  {
    if |emps| == 0 then {} else DepartmentsIn(emps[..|emps| - 1]) + {emps[|emps| - 1].department}
  }

  function LevelsIn(emps: seq<EmployeeFacts>): (ls: set<string>)
    ensures forall e :: e in emps ==> EducationOf(e) in ls
  {
    if |emps| == 0 then {} else LevelsIn(emps[..|emps| - 1]) + {EducationOf(emps[|emps| - 1])}
  }

  function YearsIn(emps: seq<EmployeeFacts>): (ys: set<int>)
    ensures forall e :: e in emps && e.hire.Some? ==> e.hire.value.year in ys
  {
    if |emps| == 0 then {}
    else
      var e := emps[|emps| - 1];
      YearsIn(emps[..|emps| - 1]) + (if e.hire.Some? then {e.hire.value.year} else {})
  }

  /** The department tallies of `emps`. */
  predicate DepartmentsHold(m: map<string, DeptTenure>, emps: seq<EmployeeFacts>, today: Date)
  {
    m.Keys == DepartmentsIn(emps) && forall d :: d in m ==> m[d] == DeptOf(emps, d, today)
  }

  /** The education tallies of `emps`. */
  predicate LevelsHold(m: map<string, nat>, emps: seq<EmployeeFacts>)
  {
    m.Keys == LevelsIn(emps) && forall l :: l in m ==> m[l] == EducationCount(emps, l)
  }

  /** The hire-year tallies of `emps`. */
  predicate YearsHold(m: map<int, nat>, emps: seq<EmployeeFacts>)
  {
    m.Keys == YearsIn(emps) && forall y :: y in m ==> m[y] == HireYearCount(emps, y)
  }

  lemma YearsStep(m: map<int, nat>, bumped: map<int, nat>, emps: seq<EmployeeFacts>, i: nat)
    requires i < |emps| && YearsHold(m, emps[..i])
    requires var e := emps[i];
      bumped == if e.hire.Some? then m[e.hire.value.year := if e.hire.value.year in m then m[e.hire.value.year] + 1 else 1] else m
    ensures YearsHold(bumped, emps[..i + 1])
  {
    var e := emps[i];
    assert emps[..i + 1] == emps[..i] + [e];
    if e.hire.Some? {
      var y := e.hire.value.year;
      if y !in m {
        AbsentYear(emps[..i], y);
      }
      var next := m[y := if y in m then m[y] + 1 else 1];
      forall z | z in next
        ensures next[z] == HireYearCount(emps[..i + 1], z)
      {
        StepCounts(emps, i, z, "", "", Date(1, 1, 1));
      }
    } else {
      forall z | z in m
        ensures m[z] == HireYearCount(emps[..i + 1], z)
      {
        StepCounts(emps, i, z, "", "", Date(1, 1, 1));
      }
    }
  }

  lemma LevelsStep(m: map<string, nat>, bumped: map<string, nat>, emps: seq<EmployeeFacts>, i: nat)
    requires i < |emps| && LevelsHold(m, emps[..i])
    requires var level := EducationOf(emps[i]);
      bumped == m[level := if level in m then m[level] + 1 else 1]
    ensures LevelsHold(bumped, emps[..i + 1])
  {
    var level := EducationOf(emps[i]);
    assert emps[..i + 1] == emps[..i] + [emps[i]];
    if level !in m {
      AbsentLevel(emps[..i], level);
    }
    var next := m[level := if level in m then m[level] + 1 else 1];
    forall l | l in next
      ensures next[l] == EducationCount(emps[..i + 1], l)
    {
      StepCounts(emps, i, 0, l, "", Date(1, 1, 1));
    }
  }

  lemma DepartmentsStep(m: map<string, DeptTenure>, bumped: map<string, DeptTenure>, emps: seq<EmployeeFacts>, i: nat,
                        today: Date)
    requires i < |emps| && DepartmentsHold(m, emps[..i], today)
    requires var dept := emps[i].department;
      var t := Tenure(emps[i].hire, today);
      var entry := if dept in m then m[dept] else DeptTenure(0, 0.0, 0);
      bumped == m[dept := AddTenure(entry, t)]
    ensures DepartmentsHold(bumped, emps[..i + 1], today)
  {
    var dept := emps[i].department;
    assert emps[..i + 1][..i] == emps[..i];
    if dept !in m {
      AbsentDept(emps[..i], dept, today);
    }
    forall d | d in bumped
      ensures bumped[d] == DeptOf(emps[..i + 1], d, today)
    {
      StepCounts(emps, i, 0, "", d, today);
    }
  }

  /** Taking one more employee into the tallies. */
  lemma StepCounts(emps: seq<EmployeeFacts>, i: nat, year: int, level: string, dept: string, today: Date)
    requires i < |emps|
    ensures HireYearCount(emps[..i + 1], year) ==
      HireYearCount(emps[..i], year) + (if emps[i].hire.Some? && emps[i].hire.value.year == year then 1 else 0)
    ensures EducationCount(emps[..i + 1], level) ==
      EducationCount(emps[..i], level) + (if EducationOf(emps[i]) == level then 1 else 0)
    ensures DeptOf(emps[..i + 1], dept, today) ==
      if emps[i].department != dept then DeptOf(emps[..i], dept, today)
      else AddTenure(DeptOf(emps[..i], dept, today), Tenure(emps[i].hire, today))
  {
    assert emps[..i + 1][..i] == emps[..i];
  }

  lemma {:induction false} AbsentDept(emps: seq<EmployeeFacts>, dept: string, today: Date)
    requires dept !in DepartmentsIn(emps)
    ensures DeptOf(emps, dept, today) == DeptTenure(0, 0.0, 0)
  {
    if |emps| > 0 {
      AbsentDept(emps[..|emps| - 1], dept, today);
    }
  }

  lemma {:induction false} AbsentLevel(emps: seq<EmployeeFacts>, level: string)
    requires level !in LevelsIn(emps)
    ensures EducationCount(emps, level) == 0
  {
    if |emps| > 0 {
      AbsentLevel(emps[..|emps| - 1], level);
    }
  }

  lemma {:induction false} AbsentYear(emps: seq<EmployeeFacts>, year: int)
    requires year !in YearsIn(emps)
    ensures HireYearCount(emps, year) == 0
  {
    if |emps| > 0 {
      AbsentYear(emps[..|emps| - 1], year);
    }
  }

  predicate IsPositive(t: real) { t > 0.0 }

  function Identity(t: real): real { t }

  /** The largest of some tenures, 0 for none. */
  function MaxTenure(ts: seq<real>): (m: real)
    ensures forall k :: 0 <= k < |ts| && ts[k] > 0.0 ==> ts[k] <= m
    ensures m >= 0.0
    ensures m > 0.0 ==> m in ts
  {
    if |ts| == 0 then 0.0
    else
      var rest := MaxTenure(ts[..|ts| - 1]);
      var last := ts[|ts| - 1];
      assert forall k :: 0 <= k < |ts| - 1 ==> ts[k] == ts[..|ts| - 1][k];
      if last > rest then last else rest
  }

  /** `avg_tenure` and `max_tenure` over the positive tenures, both 0 when there are none. */
  datatype Overall = Overall(avg: real, max: real)

  /** The overall figures: the average positive tenure never exceeds the longest one. */
  function OverallTenure(ts: seq<real>): (o: Overall)
    ensures o.max == MaxTenure(Filter(ts, IsPositive))
    ensures |Filter(ts, IsPositive)| == 0 ==> o.avg == 0.0 && o.max == 0.0
    ensures 0.0 <= o.avg <= o.max
  {
    var pos := Filter(ts, IsPositive);
    FilterMembers(ts, IsPositive);
    var m := MaxTenure(pos);
    if |pos| == 0 then Overall(0.0, m)
    else
      assert forall x :: x in pos ==> Identity(x) <= m by {
        forall x | x in pos ensures Identity(x) <= m {
          var k :| 0 <= k < |pos| && pos[k] == x;
        }
      }
      SumOfUpper(pos, Identity, m);
      SumOfLower(pos, Identity, 0.0);
      var n := |pos| as real;
      MeanBelow(SumOf(pos, Identity), n, m);
      Overall(SumOf(pos, Identity) / n, m)
  }

  /** A total of `n` values each at most `m` has a mean of at most `m`. */
  lemma MeanBelow(total: real, n: real, m: real)
    requires n > 0.0 && 0.0 <= total <= n * m
    ensures 0.0 <= total / n <= m
  {
    var q := total / n;
    assert q * n == total;
    if q > m {
      assert q * n > m * n;
    }
  }
}
