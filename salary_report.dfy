/**
 * The aggregation behind `salary_report`: one row per employee of the chosen department
 * who has a salary, taken from their latest salary; the monthly and annual totals and
 * guarded averages; and the grouping of the rows.
 */
module SalaryReports {
  import opened Common
  import opened Calendar
  import opened Users
  import opened Employees

  /**
   * The salary `salary_report` reports for an employee: the one with the latest effective
   * date (the earliest such row when several share it), or none.
   */
  function LatestSalary(salaries: seq<Salary>, employeeId: int): (s: Option<Salary>)
    ensures s.Some? ==> s.value in salaries && s.value.employeeId == employeeId
    ensures s.Some? ==> forall k :: 0 <= k < |salaries| && salaries[k].employeeId == employeeId ==>
      Ordinal(salaries[k].effective) <= Ordinal(s.value.effective)
    ensures s.None? <==> forall k :: 0 <= k < |salaries| ==> salaries[k].employeeId != employeeId
  {
    if |salaries| == 0 then None
    else
      var x := salaries[0];
      var rest := LatestSalary(salaries[1..], employeeId);
      assert forall k :: 1 <= k < |salaries| ==> salaries[k] == salaries[1..][k - 1];
      if x.employeeId != employeeId then rest
      else if rest.None? || Ordinal(rest.value.effective) <= Ordinal(x.effective) then Some(x)
      else rest
  }

  /** The figures of one report row. */
  datatype SalaryRow = SalaryRow(employeeId: int, department: string, salaryType: string, currency: string, amount: real)

  /** `monthly_equivalent`: a monthly amount as it is, anything else divided by 12. */
  function MonthlyEquivalent(r: SalaryRow): real
  {
    if r.salaryType == "monthly" then r.amount else r.amount / 12.0
  }

  /** `annual_equivalent`: an annual amount as it is, anything else multiplied by 12. */
  function AnnualEquivalent(r: SalaryRow): real
  {
    if r.salaryType == "annual" then r.amount else r.amount * 12.0
  }

  /**
   * The two equivalents are twelve months apart only for monthly and annual salaries: an
   * hourly, contract or stipend amount is divided by 12 for the month but multiplied by
   * 12 for the year.
   */
  lemma EquivalentsAgree(r: SalaryRow)
    ensures AnnualEquivalent(r) == 12.0 * MonthlyEquivalent(r) <==>
      r.salaryType == "monthly" || r.salaryType == "annual" || r.amount == 0.0
    ensures r.salaryType != "monthly" && r.salaryType != "annual" ==> AnnualEquivalent(r) == 144.0 * MonthlyEquivalent(r)
  {
  }

  /** The rows for `employees`, in their order. */
  function ReportRows(employees: seq<User>, salaries: seq<Salary>, department: string): (rows: seq<SalaryRow>)
    ensures |rows| <= |employees|
    ensures forall k :: 0 <= k < |rows| ==> department == "" || rows[k].department == department
    ensures forall k :: 0 <= k < |rows| ==>
      LatestSalary(salaries, rows[k].employeeId).Some? && rows[k].amount == LatestSalary(salaries, rows[k].employeeId).value.amount
  {
    if |employees| == 0 then []
    else
      var n := |employees| - 1;
      var e := employees[n];
      var rest := ReportRows(employees[..n], salaries, department);
      assert forall i :: 0 <= i < n ==> employees[..n][i] == employees[i];
      var latest := LatestSalary(salaries, e.id);
      if (department == "" || e.department == department) && latest.Some? then
        rest + [SalaryRow(e.id, e.department, latest.value.salaryType, latest.value.currency, latest.value.amount)]
      else rest
  }

  /** Every row names an employee of the list, by id and department. */
  lemma {:induction false} ReportRowsNameEmployees(employees: seq<User>, salaries: seq<Salary>, department: string)
    ensures var rows := ReportRows(employees, salaries, department);
      forall k :: 0 <= k < |rows| ==>
        exists i :: 0 <= i < |employees| && employees[i].id == rows[k].employeeId && employees[i].department == rows[k].department
  {
    if |employees| > 0 {
      var n := |employees| - 1;
      var prefix := employees[..n];
      var rest := ReportRows(prefix, salaries, department);
      var rows := ReportRows(employees, salaries, department);
      ReportRowsNameEmployees(prefix, salaries, department);
      ReportRowsLast(employees, salaries, department);
      forall k | 0 <= k < |rows|
        ensures exists i :: 0 <= i < |employees| && employees[i].id == rows[k].employeeId && employees[i].department == rows[k].department
      {
        if k < |rest| {
          assert rows[k] == rows[..|rest|][k] == rest[k];
          var i :| 0 <= i < |prefix| && prefix[i].id == rest[k].employeeId && prefix[i].department == rest[k].department;
          assert prefix[i] == employees[i];
        } else {
          assert employees[n].id == rows[k].employeeId && employees[n].department == rows[k].department;
        }
      }
    }
  }

  /** Employees with distinct ids get rows with distinct ids: at most one row per employee. */
  lemma {:induction false} ReportRowsDistinct(employees: seq<User>, salaries: seq<Salary>, department: string)
    requires forall i, j :: 0 <= i < j < |employees| ==> employees[i].id != employees[j].id
    ensures var rows := ReportRows(employees, salaries, department);
      forall i, j :: 0 <= i < j < |rows| ==> rows[i].employeeId != rows[j].employeeId
  {
    if |employees| > 0 {
      var n := |employees| - 1;
      var prefix := employees[..n];
      var rest := ReportRows(prefix, salaries, department);
      var rows := ReportRows(employees, salaries, department);
      ReportRowsDistinct(prefix, salaries, department);
      ReportRowsNameEmployees(prefix, salaries, department);
      ReportRowsLast(employees, salaries, department);
      forall k | 0 <= k < |rest|
        ensures rest[k].employeeId != employees[n].id
      {
        var i :| 0 <= i < |prefix| && prefix[i].id == rest[k].employeeId && prefix[i].department == rest[k].department;
        assert prefix[i] == employees[i];
      }
      forall i, j | 0 <= i < j < |rows|
        ensures rows[i].employeeId != rows[j].employeeId
      {
        assert rows[i] == rows[..|rest|][i] == rest[i];
        if j < |rest| {
          assert rows[j] == rows[..|rest|][j] == rest[j];
        }
      }
    }
  }

  /** The last employee adds at most one row, and it carries their id. */
  lemma ReportRowsLast(employees: seq<User>, salaries: seq<Salary>, department: string)
    requires |employees| > 0
    ensures var n := |employees| - 1;
      var rows, rest := ReportRows(employees, salaries, department), ReportRows(employees[..n], salaries, department);
      |rest| <= |rows| <= |rest| + 1 && rows[..|rest|] == rest &&
      (|rows| > |rest| ==> rows[|rest|].employeeId == employees[n].id && rows[|rest|].department == employees[n].department)
  {
  }

  /** Every employee of the department who has a salary gets a row, from their latest salary. */
  lemma {:induction false} EveryPaidEmployeeReported(employees: seq<User>, salaries: seq<Salary>, department: string, k: nat)
    requires k < |employees| && (department == "" || employees[k].department == department)
    requires LatestSalary(salaries, employees[k].id).Some?
    ensures var s := LatestSalary(salaries, employees[k].id).value;
      SalaryRow(employees[k].id, employees[k].department, s.salaryType, s.currency, s.amount) in
        ReportRows(employees, salaries, department)
    decreases |employees|
  {
    if k < |employees| - 1 {
      EveryPaidEmployeeReported(employees[..|employees| - 1], salaries, department, k);
    }
  }

  /**
   * The loop of `salary_report`: the rows in employee order and the running totals of
   * their monthly and annual equivalents.
   */
  method CollectRows(employees: seq<User>, salaries: seq<Salary>, department: string)
    returns (data: seq<SalaryRow>, totalMonthly: real, totalAnnual: real)
    ensures data == ReportRows(employees, salaries, department)
    ensures totalMonthly == SumOf(data, MonthlyEquivalent)
    ensures totalAnnual == SumOf(data, AnnualEquivalent)
  {
    data, totalMonthly, totalAnnual := [], 0.0, 0.0;
    var i := 0;
    while i < |employees|
      invariant 0 <= i <= |employees|
      invariant Collected(employees[..i], salaries, department, data, totalMonthly, totalAnnual)
    {
      var e := employees[i];
      var latest := LatestSalary(salaries, e.id);
      CollectedStep(employees, salaries, department, i, data, totalMonthly, totalAnnual);
      if (department == "" || e.department == department) && latest.Some? {
        var row := SalaryRow(e.id, e.department, latest.value.salaryType, latest.value.currency, latest.value.amount);
        totalMonthly := totalMonthly + MonthlyEquivalent(row);
        totalAnnual := totalAnnual + AnnualEquivalent(row);
        data := data + [row];
      }
      i := i + 1;
    }
    assert employees[..i] == employees;
  }

  /** The rows of `employees` and their two running totals. */
  predicate Collected(employees: seq<User>, salaries: seq<Salary>, department: string,
                      data: seq<SalaryRow>, totalMonthly: real, totalAnnual: real)
  {
    data == ReportRows(employees, salaries, department) &&
    totalMonthly == SumOf(data, MonthlyEquivalent) && totalAnnual == SumOf(data, AnnualEquivalent)
  }

  /** One more employee: their row, when they get one, joins the rows and the totals. */
  lemma CollectedStep(employees: seq<User>, salaries: seq<Salary>, department: string, i: nat,
                      data: seq<SalaryRow>, totalMonthly: real, totalAnnual: real)
    requires i < |employees| && Collected(employees[..i], salaries, department, data, totalMonthly, totalAnnual)
    ensures var e := employees[i];
      var latest := LatestSalary(salaries, e.id);
      if (department == "" || e.department == department) && latest.Some? then
        var row := SalaryRow(e.id, e.department, latest.value.salaryType, latest.value.currency, latest.value.amount);
        Collected(employees[..i + 1], salaries, department, data + [row],
                  totalMonthly + MonthlyEquivalent(row), totalAnnual + AnnualEquivalent(row))
      else Collected(employees[..i + 1], salaries, department, data, totalMonthly, totalAnnual)
  {
    ReportRowsStep(employees, salaries, department, i);
    var e := employees[i];
    var latest := LatestSalary(salaries, e.id);
    if (department == "" || e.department == department) && latest.Some? {
      var row := SalaryRow(e.id, e.department, latest.value.salaryType, latest.value.currency, latest.value.amount);
      SumOfAppend(data, row, MonthlyEquivalent);
      SumOfAppend(data, row, AnnualEquivalent);
    }
  }

  /** Taking one more employee adds at most their row. */
  lemma ReportRowsStep(employees: seq<User>, salaries: seq<Salary>, department: string, i: nat)
    requires i < |employees|
    ensures var e := employees[i];
      var latest := LatestSalary(salaries, e.id);
      ReportRows(employees[..i + 1], salaries, department) ==
        ReportRows(employees[..i], salaries, department) +
        (if (department == "" || e.department == department) && latest.Some?
         then [SalaryRow(e.id, e.department, latest.value.salaryType, latest.value.currency, latest.value.amount)]
         else [])
  {
    assert employees[..i + 1][..i] == employees[..i];
  }

  /** The `summary` of the report. */
  datatype Summary = Summary(totalEmployees: nat, totalMonthly: real, totalAnnual: real, departments: nat,
                             avgMonthly: real, avgAnnual: real)

  /** The summary: the averages are the totals shared over the rows, and 0 with no rows. */
  function Summarize(data: seq<SalaryRow>, totalMonthly: real, totalAnnual: real): (s: Summary)
    ensures s.totalEmployees == |data|
    ensures s.departments == |set r | r in data :: r.department|
    ensures s.departments <= |data|
    ensures |data| == 0 ==> s.avgMonthly == 0.0 && s.avgAnnual == 0.0 && s.departments == 0
    ensures |data| > 0 ==> s.avgMonthly * |data| as real == totalMonthly && s.avgAnnual * |data| as real == totalAnnual
  {
    DistinctBound(data);
    var n := |data| as real;
    Summary(|data|, totalMonthly, totalAnnual, |set r | r in data :: r.department|,
            if |data| > 0 then totalMonthly / n else 0.0, if |data| > 0 then totalAnnual / n else 0.0)
  }

  /** There are no more departments than rows. */
  lemma {:induction false} DistinctBound(data: seq<SalaryRow>)
    ensures |set r | r in data :: r.department| <= |data|
  {
    if |data| > 0 {
      var rest := data[..|data| - 1];
      DistinctBound(rest);
      assert data == rest + [data[|data| - 1]];
      assert (set r | r in data :: r.department) == (set r | r in rest :: r.department) + {data[|data| - 1].department};
    }
  }

  /**
   * The group of a row under `group_by`. The rows carry no `contract_type`, so grouping by
   * it (or by anything but department or salary type) is the row lookup's KeyError.
   */
  function GroupKey(r: SalaryRow, groupBy: string): (key: Option<string>)
    ensures key.Some? <==> KnownGroup(groupBy)
  {
    if groupBy == "department" then Some(r.department)
    else if groupBy == "salary_type" then Some(r.salaryType)
    else None
  }

  predicate KnownGroup(groupBy: string) { groupBy == "department" || groupBy == "salary_type" }

  /** The rows whose group is `key`, in report order. */
  function RowsWithKey(data: seq<SalaryRow>, groupBy: string, key: string): (rs: seq<SalaryRow>)
    ensures forall r :: r in rs <==> r in data && GroupKey(r, groupBy) == Some(key)
  {
    if |data| == 0 then []
    else
      var r := data[|data| - 1];
      var rest := RowsWithKey(data[..|data| - 1], groupBy, key);
      assert data == data[..|data| - 1] + [r];
      if GroupKey(r, groupBy) == Some(key) then rest + [r] else rest
  }

  /**
   * The `grouped_data` of `salary_report`: with `none`, one group `all` of every row;
   * otherwise one group per key, each holding exactly the rows with that key, so every
   * row lands in exactly one group. An unusable key fails on the first row, so with no
   * rows even that gives no groups and no error.
   */
  method Group(data: seq<SalaryRow>, groupBy: string) returns (r: Result<map<string, seq<SalaryRow>>, string>)
    ensures groupBy == "none" ==> r == Ok(map["all" := data])
    ensures r.Err? <==> groupBy != "none" && |data| > 0 && !KnownGroup(groupBy)
    ensures groupBy != "none" && r.Ok? ==>
      (forall key :: key in r.value ==> r.value[key] == RowsWithKey(data, groupBy, key) && |r.value[key]| > 0)
    ensures groupBy != "none" && r.Ok? ==>
      forall k :: 0 <= k < |data| ==> GroupKey(data[k], groupBy).Some? && GroupKey(data[k], groupBy).value in r.value
  {
    if groupBy == "none" {
      return Ok(map["all" := data]);
    }
    var grouped: map<string, seq<SalaryRow>> := map[];
    var i := 0;
    while i < |data|
      invariant 0 <= i <= |data|
      invariant i > 0 ==> KnownGroup(groupBy)
      invariant forall key :: key in grouped ==> grouped[key] == RowsWithKey(data[..i], groupBy, key) && |grouped[key]| > 0
      invariant forall k :: 0 <= k < i ==> GroupKey(data[k], groupBy).Some? && GroupKey(data[k], groupBy).value in grouped
    {
      var key := GroupKey(data[i], groupBy);
      if key.None? {
        return Err("KeyError: " + groupBy);
      }
      var members := if key.value in grouped then grouped[key.value] else [];
      if key.value !in grouped {
        NoRowsWithKey(data[..i], groupBy, key.value);
      }
      var next := grouped[key.value := members + [data[i]]];
      forall k | k in next
        ensures next[k] == RowsWithKey(data[..i + 1], groupBy, k) && |next[k]| > 0
      {
        RowsWithKeyStep(data, groupBy, k, i);
      }
      grouped := next;
      i := i + 1;
    }
    assert data[..i] == data;
    r := Ok(grouped);
  }

  /** Taking one more row adds it to its own group only. */
  lemma RowsWithKeyStep(data: seq<SalaryRow>, groupBy: string, key: string, i: nat)
    requires i < |data|
    ensures GroupKey(data[i], groupBy) == Some(key) ==>
      RowsWithKey(data[..i + 1], groupBy, key) == RowsWithKey(data[..i], groupBy, key) + [data[i]]
    ensures GroupKey(data[i], groupBy) != Some(key) ==>
      RowsWithKey(data[..i + 1], groupBy, key) == RowsWithKey(data[..i], groupBy, key)
  {
    assert data[..i + 1][..i] == data[..i];
  }

  /** A key no earlier row has yields no rows. */
  lemma {:induction false} NoRowsWithKey(data: seq<SalaryRow>, groupBy: string, key: string)
    requires forall x :: x in data ==> GroupKey(x, groupBy) != Some(key)
    ensures RowsWithKey(data, groupBy, key) == []
  {
    if |data| > 0 {
      NoRowsWithKey(data[..|data| - 1], groupBy, key);
    }
  }
}
