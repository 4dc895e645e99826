/**
 * The payroll ledger: a `Payroll` record with its deduction lines and teaching-unit
 * lines, the handlers of the payroll routes that change it (create, edit, add and delete
 * a deduction, process, generate from a teaching unit) and the filter of the payroll list.
 */
module PayrollLedger {
  import opened Common
  import opened Calendar
  import opened Text
  import opened Users
  import opened Forms
  import opened TeachingUnits
  import opened AttendanceReports
  import opened TeachingRoutes

  /** One `PayrollDeduction` row. */
  datatype DeductionItem = DeductionItem(id: int, payrollId: int, kind: string, description: string, amount: real)

  /** One `PayrollUnit` row. */
  datatype UnitItem = UnitItem(id: int, payrollId: int, teachingUnitId: int, unitValue: real,
                               ratePerUnit: real, attendanceFactor: real, totalAmount: real)

  function ItemAmount(d: DeductionItem): real { d.amount }

  function UnitAmount(u: UnitItem): real { u.totalAmount }

  /** The stored totals agree with the lines: what `update_totals` establishes. */
  predicate Balances(unitPay: real, deductions: real, unitItems: seq<UnitItem>, deductionItems: seq<DeductionItem>)
  {
    unitPay == SumOf(unitItems, UnitAmount) && deductions == SumOf(deductionItems, ItemAmount)
  }

  /** `items` with the first occurrence of `d` removed: the table after `d`'s row is deleted. */
  function Without(items: seq<DeductionItem>, d: DeductionItem): (rest: seq<DeductionItem>)
    ensures d !in items ==> rest == items
    ensures d in items ==> |rest| == |items| - 1
    ensures multiset(rest) == multiset(items) - multiset{d}
    ensures forall x :: x in rest ==> x in items
  {
    if |items| == 0 then []
    else
      assert items == [items[0]] + items[1..];
      if items[0] == d then items[1..] else [items[0]] + Without(items[1..], d)
  }

  /** Deleting a line takes exactly its amount off the sum of the lines. */
  lemma {:induction false} WithoutSum(items: seq<DeductionItem>, d: DeductionItem)
    requires d in items
    ensures SumOf(Without(items, d), ItemAmount) == SumOf(items, ItemAmount) - d.amount
  {
    assert items == [items[0]] + items[1..];
    SumOfConcat([items[0]], items[1..], ItemAmount);
    assert SumOf([items[0]], ItemAmount) == items[0].amount by {
      assert [items[0]] == [] + [items[0]];
      SumOfAppend([], items[0], ItemAmount);
    }
    if items[0] != d {
      WithoutSum(items[1..], d);
      SumOfConcat([items[0]], Without(items[1..], d), ItemAmount);
    }
  }

  /** Adding a line and then deleting it gives back the lines and their sum. */
  lemma AddDeleteRoundTrip(items: seq<DeductionItem>, d: DeductionItem)
    requires d !in items
    ensures Without(items + [d], d) == items
    ensures SumOf(Without(items + [d], d), ItemAmount) == SumOf(items, ItemAmount)
  {
    AddThenRemove(items, d);
  }

  lemma {:induction false} AddThenRemove(items: seq<DeductionItem>, d: DeductionItem)
    requires d !in items
    ensures Without(items + [d], d) == items
  {
    if |items| > 0 {
      assert (items + [d])[1..] == items[1..] + [d];
      AddThenRemove(items[1..], d);
      assert items == [items[0]] + items[1..];
    }
  }

  /** The deduction types `PayrollDeductionForm` offers. */
  predicate DeductionKind(kind: string)
  {
    kind == "tax" || kind == "insurance" || kind == "retirement" || kind == "other"
  }

  /** `PayrollDeductionForm`: a listed type, a description of 1 to 100 characters that is not blank, and a positive amount. */
  predicate DeductionFormValid(kind: string, description: string, amount: Option<real>)
  {
    DeductionKind(kind) && Strip(description) != "" && |description| <= 100 && FieldValid(amount, DeductionAmount)
  }

  /** The status choices of `PayrollForm`. */
  predicate PayrollStatus(s: string)
  {
    s == "draft" || s == "pending" || s == "approved" || s == "paid" || s == "cancelled"
  }

  /**
   * The `base_pay` entry of a submission: not sent at all, sent empty (the field's data
   * becomes `None`), a number, or text `float()` rejects.
   */
  datatype BasePayInput = NotSent | SentEmpty | Sent(amount: real) | Unparsable

  /** The payment methods `PayrollForm` offers. */
  predicate PaymentMethod(m: string)
  {
    m == "direct_deposit" || m == "check" || m == "cash" || m == "bank_transfer"
  }

  /** The fields a `PayrollForm` submission carries; `None` and `""` are fields left empty. */
  datatype PayrollFields = PayrollFields(employeeId: int, periodStart: Option<Date>, periodEnd: Option<Date>,
                                         paymentDate: Option<Date>, basePay: BasePayInput, paymentMethod: string,
                                         referenceNumber: string, status: string, notes: string)

  /**
   * `base_pay` under `Optional` and `NumberRange(min=0)`: an entry that is absent or empty
   * stops the chain without error, a number goes to the range test, and text that is no
   * number keeps the conversion error.
   */
  predicate BasePayAccepted(b: BasePayInput)
  {
    match b
      case NotSent => FieldValid(None, BasePay)
      case SentEmpty => FieldValid(None, BasePay)
      case Sent(x) => FieldValid(Some(x), BasePay)
      case Unparsable => false
  }

  /**
   * `PayrollForm.validate_on_submit()`, for a submission naming one of the listed employees.
   * The payment method is a `SelectField` under `Optional`: empty, or one of the choices.
   */
  predicate PayrollFormValid(f: PayrollFields, employees: set<int>)
  {
    f.employeeId in employees && f.employeeId != 0 &&
    f.periodStart.Some? && PeriodEndValid(f.periodStart, f.periodEnd) &&
    PaymentDateValid(f.periodEnd, f.paymentDate) && BasePayAccepted(f.basePay) &&
    (f.paymentMethod == "" || PaymentMethod(f.paymentMethod)) &&
    |f.referenceNumber| <= 50 && PayrollStatus(f.status) && |f.notes| <= 1000
  }

  /**
   * A valid submission has both period dates, in order, no negative base pay, and a
   * payment method that is empty or offered.
   */
  lemma PayrollFormDates(f: PayrollFields, employees: set<int>)
    requires PayrollFormValid(f, employees)
    ensures f.periodStart.Some? && f.periodEnd.Some? && NotAfter(f.periodStart.value, f.periodEnd.value)
    ensures !f.basePay.Unparsable? && (f.basePay.Sent? ==> f.basePay.amount >= 0.0)
    ensures f.paymentMethod == "" || PaymentMethod(f.paymentMethod)
  {
    if f.basePay.Sent? {
      BasePayRule(Some(f.basePay.amount));
    }
  }

  /** An unlisted payment method such as `wire` makes the form invalid. */
  lemma UnlistedPaymentMethodRejected(f: PayrollFields, employees: set<int>)
    requires f.paymentMethod != "" && !PaymentMethod(f.paymentMethod)
    ensures !PayrollFormValid(f, employees)
  {
  }

  /** How `new` ends as written: the form shown again, or an exception before anything is stored. */
  datatype NewOutcome = FormShown | Raised(error: string)

  /**
   * `new` as written: a valid submission computes `base_pay + unit_pay`, which raises a
   * TypeError when the base pay was sent empty (its data is `None`), and otherwise reads
   * `form.deductions`, a field `PayrollForm` does not have, which raises an AttributeError.
   * Either way nothing is committed.
   */
  function NewAsWritten(f: PayrollFields, employees: set<int>): (r: NewOutcome)
    ensures r == FormShown <==> !PayrollFormValid(f, employees)
    ensures r.Raised? ==> (r.error == "TypeError" <==> f.basePay == SentEmpty)
  {
    if !PayrollFormValid(f, employees) then FormShown
    else if f.basePay == SentEmpty then Raised("TypeError")
    else Raised("AttributeError")
  }

  /** A valid submission exists for any listed employee and period start, and it makes `new` raise. */
  lemma ValidNewSubmissionRaises(employees: set<int>, employeeId: int, start: Date)
    requires employeeId in employees && employeeId != 0
    ensures var f := PayrollFields(employeeId, Some(start), Some(start), None, Sent(1000.0), "cash", "", "draft", "");
      PayrollFormValid(f, employees) && NewAsWritten(f, employees) == Raised("AttributeError")
  {
    var f := PayrollFields(employeeId, Some(start), Some(start), None, Sent(1000.0), "cash", "", "draft", "");
    BasePayRule(Some(1000.0));
    assert PeriodEndValid(f.periodStart, f.periodEnd);
  }

  /** Only draft and pending payrolls may be edited. */
  predicate Editable(status: string) { status == "draft" || status == "pending" }

  /** The `payment_date` of the process form: empty, a `%Y-%m-%d` date, or text `strptime` rejects. */
  datatype DateInput = Blank | Parsed(date: Date) | Malformed

  /** The deduction rows `new` creates from the attendance deductions, ids counted up from `firstId`. */
  function AttendanceItems(lines: seq<DeductionLine>, payrollId: int, firstId: int): (items: seq<DeductionItem>)
    ensures |items| == |lines|
    ensures forall k :: 0 <= k < |lines| ==>
      items[k] == DeductionItem(firstId + k, payrollId, lines[k].kind, lines[k].description, lines[k].amount)
  {
    if |lines| == 0 then []
    else
      var k := |lines| - 1;
      AttendanceItems(lines[..k], payrollId, firstId) +
        [DeductionItem(firstId + k, payrollId, lines[k].kind, lines[k].description, lines[k].amount)]
  }

  /** The deduction rows carry exactly the attendance deduction total. */
  lemma {:induction false} AttendanceItemsSum(lines: seq<DeductionLine>, payrollId: int, firstId: int)
    ensures SumOf(AttendanceItems(lines, payrollId, firstId), ItemAmount) == SumOf(lines, Amount)
  {
    if |lines| > 0 {
      var k := |lines| - 1;
      AttendanceItemsSum(lines[..k], payrollId, firstId);
      var item := DeductionItem(firstId + k, payrollId, lines[k].kind, lines[k].description, lines[k].amount);
      SumOfAppend(AttendanceItems(lines[..k], payrollId, firstId), item, ItemAmount);
    }
  }

  /**
   * The unit rows `new` creates: one per teaching unit that earned more than 0, holding
   * its hours as the unit value, its rate, a factor of 1 and its earnings.
   */
  function EarningItems(units: seq<UnitEarnings>, payrollId: int, firstId: int): (items: seq<UnitItem>)
    ensures |items| <= |units|
    ensures forall it :: it in items ==> it.totalAmount > 0.0 && it.attendanceFactor == 1.0 && it.payrollId == payrollId
    ensures forall u :: u in units && u.earnings > 0.0 ==>
      exists it :: it in items && it.teachingUnitId == u.id && it.unitValue == u.hoursTaught &&
        it.ratePerUnit == u.ratePerUnit && it.totalAmount == u.earnings
  {
    if |units| == 0 then []
    else
      var k := |units| - 1;
      var rest := EarningItems(units[..k], payrollId, firstId);
      var u := units[k];
      assert units == units[..k] + [u];
      if u.earnings > 0.0 then
        var it := UnitItem(firstId + k, payrollId, u.id, u.hoursTaught, u.ratePerUnit, 1.0, u.earnings);
        assert it in rest + [it];
        rest + [it]
      else rest
  }

  /** With no negative earnings, dropping the zero ones loses nothing: the rows carry all the teaching pay. */
  lemma {:induction false} EarningItemsSum(units: seq<UnitEarnings>, payrollId: int, firstId: int)
    requires forall u :: u in units ==> u.earnings >= 0.0
    ensures SumOf(EarningItems(units, payrollId, firstId), UnitAmount) == SumOf(units, EarningsOf)
  {
    if |units| > 0 {
      var k := |units| - 1;
      var init, u := units[..k], units[k];
      var rest := EarningItems(init, payrollId, firstId);
      assert forall v :: v in init ==> v in units;
      EarningItemsSum(init, payrollId, firstId);
      EarningItemsLast(units, payrollId, firstId);
      assert SumOf(units, EarningsOf) == SumOf(init, EarningsOf) + u.earnings;
      if u.earnings > 0.0 {
        SumOfAppend(rest, UnitItem(firstId + k, payrollId, u.id, u.hoursTaught, u.ratePerUnit, 1.0, u.earnings), UnitAmount);
      } else {
        assert u in units;
        assert rest + [] == rest;
      }
    }
  }

  /** The last unit adds its row only when it earned something. */
  lemma EarningItemsLast(units: seq<UnitEarnings>, payrollId: int, firstId: int)
    requires |units| > 0
    ensures var k := |units| - 1;
      var u := units[k];
      EarningItems(units, payrollId, firstId) ==
        EarningItems(units[..k], payrollId, firstId) +
        (if u.earnings > 0.0 then [UnitItem(firstId + k, payrollId, u.id, u.hoursTaught, u.ratePerUnit, 1.0, u.earnings)] else [])
  {
  }

  /**
   * The totals `new` stores balance its lines exactly when there are no manual deductions:
   * those go into `deductions` without a line, so a later `update_totals` would drop them.
   */
  lemma NewPayrollBalancedIff(manual: real, attendance: PayrollAttendance, teaching: TeachingPay, payrollId: int,
                              firstDeductionId: int, firstUnitId: int)
    requires attendance.totalDeduction == SumOf(attendance.deductions, Amount)
    requires teaching.totalEarnings == SumOf(teaching.units, EarningsOf)
    requires forall u :: u in teaching.units ==> u.earnings >= 0.0
    ensures manual == 0.0 <==>
      Balances(teaching.totalEarnings, manual + attendance.totalDeduction,
               EarningItems(teaching.units, payrollId, firstUnitId),
               AttendanceItems(attendance.deductions, payrollId, firstDeductionId))
  {
    AttendanceItemsSum(attendance.deductions, payrollId, firstDeductionId);
    EarningItemsSum(teaching.units, payrollId, firstUnitId);
  }

  /** `unit.total_payment * unit.attendance_rate / 100`, the pay `generate_from_unit` assigns. */
  function GeneratedUnitPay(totalPayment: real, records: seq<Attendance>): (p: real)
    ensures totalPayment >= 0.0 ==> 0.0 <= p <= totalPayment
    ensures |records| == 0 ==> p == 0.0
  {
    var factor := AttendanceRate(records) / 100.0;
    assert 0.0 <= factor <= 1.0;
    assert totalPayment >= 0.0 ==> totalPayment * factor <= totalPayment * 1.0;
    totalPayment * factor
  }

  /** A generated payroll pays the unit's full payment exactly when every one of its records is `present`. */
  lemma GeneratedPayFull(totalPayment: real, records: seq<Attendance>)
    requires totalPayment > 0.0
    ensures GeneratedUnitPay(totalPayment, records) == totalPayment <==>
      |records| > 0 && forall a :: a in records ==> a.status == "present"
  {
    AttendanceRateFull(records);
    var r := AttendanceRate(records);
    if totalPayment * (r / 100.0) == totalPayment {
      assert totalPayment * (r / 100.0 - 1.0) == 0.0;
    }
  }

  /** A `Payroll` row with its own deduction and unit lines. */
  class Payroll {
    const id: int
    var employeeId: int
    var periodStart: Date
    var periodEnd: Date
    var basePay: Option<real>
    var unitPay: real
    var deductions: real
    var paymentDate: Option<Date>
    var status: string
    var paymentMethod: string
    var referenceNumber: string
    var notes: string
    var deductionItems: seq<DeductionItem>
    var unitItems: seq<UnitItem>

    /** Every line refers to this payroll. */
    predicate Owned()
      reads this
    {
      (forall d :: d in deductionItems ==> d.payrollId == id) && (forall u :: u in unitItems ==> u.payrollId == id)
    }

    predicate Balanced()
      reads this
    {
      Balances(unitPay, deductions, unitItems, deductionItems)
    }

    /** `total_pay`; with no base pay stored, `None + unit_pay` raises, modelled as `None`. */
    function TotalPay(): (t: Option<real>)
      reads this
      ensures t.None? <==> basePay.None?
      ensures t.Some? ==> t.value - unitPay == basePay.value
      ensures t.Some? && basePay.value >= 0.0 && unitPay >= 0.0 ==> t.value >= basePay.value && t.value >= unitPay
    {
      if basePay.None? then None else Some(basePay.value + unitPay)
    }

    /** `net_pay`: what is left of the total pay once the deductions are taken off; it raises when `total_pay` does. */
    function NetPay(): (n: Option<real>)
      reads this
      ensures n.None? <==> TotalPay().None?
      ensures n.Some? ==> n.value + deductions == TotalPay().value
      ensures n.Some? ==> (n.value <= TotalPay().value <==> deductions >= 0.0)
    {
      if TotalPay().None? then None else Some(TotalPay().value - deductions)
    }

    /** On a balanced payroll the net pay is the base pay plus the unit lines minus the deduction lines. */
    lemma BalancedNetPay()
      requires Balanced() && basePay.Some?
      ensures NetPay() == Some(basePay.value + SumOf(unitItems, UnitAmount) - SumOf(deductionItems, ItemAmount))
    {
    }

    /**
     * The payroll `new` evidently means to store (as written it raises first, see
     * `NewAsWritten`): the gross pay is the base pay plus the teaching earnings; the
     * deductions are the manual ones plus the attendance deductions; one line per
     * attendance deduction and one per unit that earned anything.
     */
    constructor New(id: int, f: PayrollFields, basePay: real, manual: real, attendance: PayrollAttendance,
                    teaching: TeachingPay, firstDeductionId: int, firstUnitId: int)
      requires f.periodStart.Some? && f.periodEnd.Some?
      ensures this.id == id && employeeId == f.employeeId
      ensures periodStart == f.periodStart.value && periodEnd == f.periodEnd.value
      ensures this.basePay == Some(basePay) && unitPay == teaching.totalEarnings
      ensures deductions == manual + attendance.totalDeduction
      ensures NetPay() == Some(basePay + teaching.totalEarnings - (manual + attendance.totalDeduction))
      ensures status == f.status && paymentMethod == f.paymentMethod && notes == f.notes
      ensures deductionItems == AttendanceItems(attendance.deductions, id, firstDeductionId)
      ensures unitItems == EarningItems(teaching.units, id, firstUnitId)
      ensures Owned()
    {
      this.id := id;
      employeeId := f.employeeId;
      periodStart := f.periodStart.value;
      periodEnd := f.periodEnd.value;
      this.basePay := Some(basePay);
      unitPay := teaching.totalEarnings;
      deductions := manual + attendance.totalDeduction;
      paymentDate := None;
      status := f.status;
      paymentMethod := f.paymentMethod;
      referenceNumber := "";
      notes := f.notes;
      deductionItems := AttendanceItems(attendance.deductions, id, firstDeductionId);
      unitItems := EarningItems(teaching.units, id, firstUnitId);
    }

    /**
     * `generate_from_unit`: a draft paid by direct deposit over the unit's dates, with no base
     * pay and no deductions, a note naming the unit, and one unit line paying the unit's total
     * payment scaled by its attendance rate.
     */
    constructor FromUnit(id: int, unit: TeachingUnit, itemId: int)
      ensures this.id == id && employeeId == unit.employeeId
      ensures periodStart == unit.startDate && periodEnd == unit.endDate
      ensures basePay == Some(0.0) && deductions == 0.0 && status == "draft" && paymentMethod == "direct_deposit"
      ensures notes == "Automatically generated from teaching unit: " + unit.title
      ensures unitPay == GeneratedUnitPay(unit.TotalPayment(), unit.attendances)
      ensures deductionItems == []
      ensures unitItems == [UnitItem(itemId, id, unit.id, unit.unitValue, unit.ratePerUnit,
                                     AttendanceRate(unit.attendances) / 100.0, unitPay)]
      ensures Balanced() && Owned()
    {
      this.id := id;
      employeeId := unit.employeeId;
      periodStart := unit.startDate;
      periodEnd := unit.endDate;
      basePay := Some(0.0);
      var pay := GeneratedUnitPay(unit.TotalPayment(), unit.attendances);
      unitPay := pay;
      deductions := 0.0;
      paymentDate := None;
      status := "draft";
      paymentMethod := "direct_deposit";
      referenceNumber := "";
      notes := "Automatically generated from teaching unit: " + unit.title;
      deductionItems := [];
      var item := UnitItem(itemId, id, unit.id, unit.unitValue, unit.ratePerUnit,
                           AttendanceRate(unit.attendances) / 100.0, pay);
      unitItems := [item];
      SumOfAppend([], item, UnitAmount);
      assert [] + [item] == [item];
    }

    /** `update_totals`: both totals are recomputed from the lines; on a balanced payroll nothing moves. */
    method UpdateTotals()
      modifies this`unitPay, this`deductions
      ensures Balanced()
      ensures old(Balanced()) ==> unitPay == old(unitPay) && deductions == old(deductions)
      ensures basePay.Some? ==> NetPay() == Some(basePay.value + SumOf(unitItems, UnitAmount) - SumOf(deductionItems, ItemAmount))
    {
      unitPay := SumOf(unitItems, UnitAmount);
      deductions := SumOf(deductionItems, ItemAmount);
    }

    /**
     * `edit`: refused with no change unless the payroll is draft or pending; a valid
     * submission then overwrites the form's fields and leaves the totals and lines alone.
     * `populate_obj` writes the base pay's data: `None` for an empty entry (after which
     * `total_pay` raises), the number when one is given, and the stored value when the
     * entry was not sent at all.
     */
    method Edit(f: PayrollFields, employees: set<int>) returns (edited: bool)
      modifies this
      ensures edited <==> Editable(old(status)) && PayrollFormValid(f, employees)
      ensures !edited ==> unchanged(this)
      ensures edited ==> (employeeId == f.employeeId && periodStart == f.periodStart.value &&
                          periodEnd == f.periodEnd.value && paymentDate == f.paymentDate && status == f.status &&
                          paymentMethod == f.paymentMethod && referenceNumber == f.referenceNumber &&
                          notes == f.notes)
      ensures edited && f.basePay.Sent? ==> basePay == Some(f.basePay.amount)
      ensures edited && f.basePay == SentEmpty ==> basePay.None? && TotalPay().None? && NetPay().None?
      ensures edited ==> paymentMethod == "" || PaymentMethod(paymentMethod)
      ensures !(edited && (f.basePay.Sent? || f.basePay == SentEmpty)) ==> basePay == old(basePay)
      ensures unitPay == old(unitPay) && deductions == old(deductions)
      ensures deductionItems == old(deductionItems) && unitItems == old(unitItems)
    {
      if !Editable(status) {
        return false;
      }
      if !PayrollFormValid(f, employees) {
        return false;
      }
      employeeId := f.employeeId;
      periodStart := f.periodStart.value;
      periodEnd := f.periodEnd.value;
      paymentDate := f.paymentDate;
      match f.basePay {
        case Sent(x) => basePay := Some(x);
        case SentEmpty => basePay := None;
        case NotSent =>
        case Unparsable =>
      }
      paymentMethod := f.paymentMethod;
      referenceNumber := f.referenceNumber;
      status := f.status;
      notes := f.notes;
      edited := true;
    }

    /**
     * `add_deduction`: a valid form appends one line to this payroll and raises the stored
     * deductions by exactly its amount; an invalid form or a failing commit (rolled back)
     * changes nothing.
     */
    method AddDeduction(kind: string, description: string, amount: Option<real>, newId: int, commitFails: bool)
      returns (added: bool)
      modifies this`deductions, this`deductionItems
      ensures added <==> DeductionFormValid(kind, description, amount) && !commitFails
      ensures added ==> amount.Some? && amount.value > 0.0
      ensures added ==> deductionItems == old(deductionItems) + [DeductionItem(newId, id, kind, description, amount.value)]
      ensures added ==> deductions == old(deductions) + amount.value
      ensures !added ==> deductionItems == old(deductionItems) && deductions == old(deductions)
      ensures old(Balanced()) ==> Balanced()
      ensures old(Owned()) ==> Owned()
    {
      if !DeductionFormValid(kind, description, amount) || commitFails {
        return false;
      }
      assert amount.Some? && amount.value > 0.0 by {
        PositiveAmountRule(amount);
      }
      ghost var wasBalanced, wasOwned := Balanced(), Owned();
      var item := DeductionItem(newId, id, kind, description, amount.value);
      var before := deductionItems;
      SumOfAppend(before, item, ItemAmount);
      assert forall x :: x in before + [item] ==> x in before || x == item;
      deductionItems := before + [item];
      deductions := deductions + amount.value;
      assert wasBalanced ==> Balanced();
      assert wasOwned ==> Owned();
      added := true;
    }

    /**
     * `delete_deduction`: `found` is the row looked up by its id. A missing row or one of
     * another payroll is a 404 with no change; otherwise the row goes and the stored
     * deductions drop by its amount.
     */
    method DeleteDeduction(found: Option<DeductionItem>) returns (deleted: bool)
      requires found.Some? && found.value.payrollId == id ==> found.value in deductionItems
      modifies this`deductions, this`deductionItems
      ensures deleted <==> found.Some? && found.value.payrollId == id
      ensures deleted ==> deductionItems == Without(old(deductionItems), found.value)
      ensures deleted ==> deductions == old(deductions) - found.value.amount
      ensures !deleted ==> deductionItems == old(deductionItems) && deductions == old(deductions)
      ensures old(Balanced()) ==> Balanced()
      ensures old(Owned()) ==> Owned()
    {
      if found.None? || found.value.payrollId != id {
        return false;
      }
      var d := found.value;
      var before := deductionItems;
      var after := Without(before, d);
      WithoutSum(before, d);
      assert SumOf(after, ItemAmount) == SumOf(before, ItemAmount) - d.amount;
      deductionItems := after;
      deductions := deductions - d.amount;
      deleted := true;
    }

    /**
     * `process`: the status becomes `paid` or `approved` whatever it was; a supplied payment
     * date replaces the stored one; a date `strptime` rejects raises and is rolled back.
     */
    method Process(date: DateInput, paymentComplete: bool) returns (processed: bool)
      modifies this`status, this`paymentDate
      ensures processed <==> !date.Malformed?
      ensures processed ==> status == (if paymentComplete then "paid" else "approved")
      ensures processed && date.Parsed? ==> paymentDate == Some(date.date)
      ensures !date.Parsed? ==> paymentDate == old(paymentDate)
      ensures !processed ==> status == old(status)
    {
      if date.Malformed? {
        return false;
      }
      if date.Parsed? {
        paymentDate := Some(date.date);
      }
      if paymentComplete {
        status := "paid";
      } else {
        status := "approved";
      }
      processed := true;
    }
  }

  /** The filters of `PayrollSearchForm`; empty strings and `None` are fields left empty. */
  datatype SearchFilters = SearchFilters(employee: string, period: string, status: string,
                                         start: Option<Date>, end: Option<Date>)

  /**
   * The employee filter of `index`: everyone but HR and administrators is held to their own
   * payrolls; staff may pick one employee, and `int()` of a non-number raises.
   */
  function EmployeeFilter(user: User, employee: string): (r: Result<Option<int>, string>)
    ensures !IsStaff(user) ==> r == Ok(Some(user.id))
    ensures IsStaff(user) && employee == "" ==> r == Ok(None)
    ensures r.Err? <==> IsStaff(user) && employee != "" && ParseInt(employee).None?
  {
    if !IsStaff(user) then Ok(Some(user.id))
    else if employee == "" then Ok(None)
    else match ParseInt(employee)
      case Some(n) => Ok(Some(n))
      case None => Err("invalid literal for int()")
  }

  /** The first day of the month before `today`'s. */
  function PreviousMonthStart(today: Date): Date
  {
    if today.month == 1 then Date(today.year - 1, 12, 1) else Date(today.year, today.month - 1, 1)
  }

  /** The period window of `index`: current month, previous month or current year, inclusive. */
  function PeriodWindow(period: string, today: Date): (w: Option<(Date, Date)>)
    ensures w.Some? <==> period == "current_month" || period == "previous_month" || period == "current_year"
    ensures period == "current_month" ==> w == Some((MonthStart(today), MonthEnd(today)))
    ensures period == "current_year" ==> w == Some((Date(today.year, 1, 1), Date(today.year, 12, 31)))
  {
    if period == "current_month" then Some((MonthStart(today), MonthEnd(today)))
    else if period == "previous_month" then
      var s := PreviousMonthStart(today);
      Some((s, MonthEnd(s)))
    else if period == "current_year" then Some((Date(today.year, 1, 1), Date(today.year, 12, 31)))
    else None
  }

  /** The previous-month window ends on the day before the current-month window starts. */
  lemma PreviousMonthAdjacent(today: Date)
    ensures var prev := PeriodWindow("previous_month", today).value;
      var cur := PeriodWindow("current_month", today).value;
      Ordinal(prev.1) + 1 == Ordinal(cur.0)
  {
    if today.month == 1 {
      YearEndNextStart(today.year - 1);
    } else {
      MonthEndNextStart(today.year, today.month - 1);
    }
  }

  /** Whether `index` lists payroll `p` under the given employee filter and search fields. */
  predicate Shown(p: Payroll, employee: Option<int>, f: SearchFilters, today: Date)
    reads p
  {
    (employee.None? || p.employeeId == employee.value) &&
    (var w := PeriodWindow(f.period, today);
     w.None? || (NotAfter(w.value.0, p.periodStart) && NotAfter(p.periodEnd, w.value.1))) &&
    (f.start.None? || NotAfter(f.start.value, p.periodStart)) &&
    (f.end.None? || NotAfter(p.periodEnd, f.end.value)) &&
    (f.status == "" || p.status == f.status)
  }

  function ShownOf(payrolls: seq<Payroll>, employee: Option<int>, f: SearchFilters, today: Date): (shown: seq<Payroll>)
    reads payrolls
    ensures forall k :: 0 <= k < |shown| ==> shown[k] in payrolls && Shown(shown[k], employee, f, today)
    ensures forall k :: 0 <= k < |payrolls| && Shown(payrolls[k], employee, f, today) ==> payrolls[k] in shown
  {
    if |payrolls| == 0 then []
    else
      var p := payrolls[|payrolls| - 1];
      var rest := ShownOf(payrolls[..|payrolls| - 1], employee, f, today);
      assert payrolls == payrolls[..|payrolls| - 1] + [p];
      if Shown(p, employee, f, today) then rest + [p] else rest
  }

  /** `index`: the payrolls listed for `user`, or the error `int()` raises on a bad employee field. */
  function Index(payrolls: seq<Payroll>, user: User, f: SearchFilters, today: Date): (r: Result<seq<Payroll>, string>)
    reads payrolls
    ensures r.Ok? ==> forall k :: 0 <= k < |r.value| ==> r.value[k] in payrolls
  {
    match EmployeeFilter(user, f.employee)
      case Ok(employee) => Ok(ShownOf(payrolls, employee, f, today))
      case Err(e) => Err(e)
  }

  /** Someone who is neither HR nor an administrator is never shown another employee's payroll. */
  lemma IndexOwnOnly(payrolls: seq<Payroll>, user: User, f: SearchFilters, today: Date)
    requires !IsStaff(user)
    ensures Index(payrolls, user, f, today).Ok?
    ensures forall p :: p in Index(payrolls, user, f, today).value ==> p.employeeId == user.id
  {
  }

  /** With no search fields, HR and administrators see every payroll. */
  lemma IndexStaffSeesAll(payrolls: seq<Payroll>, user: User, today: Date)
    requires IsStaff(user)
    ensures var r := Index(payrolls, user, SearchFilters("", "", "", None, None), today);
      r.Ok? && forall p :: p in payrolls ==> p in r.value
  {
  }
}
