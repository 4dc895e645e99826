/**
 * The field validators of the web forms, as WTForms runs them: a field's validators run
 * in order, followed by the form's `validate_<field>` method; `DataRequired` stops the
 * chain with an error when the value is missing or falsy (so a number 0 is missing),
 * `Optional` stops it without error when the field was left empty, and `NumberRange`
 * records an error for a missing or out-of-range value but lets the chain go on.
 * Where forms.py defines a form class twice, the later definition is the one modelled.
 */
module Forms {
  import opened Common
  import opened Calendar

  datatype Validator = DataRequired | OptionalField | NumberRange(min: Option<real>, max: Option<real>)

  /** `NumberRange`'s own test. */
  predicate InRange(x: Option<real>, min: Option<real>, max: Option<real>)
  {
    x.Some? && (min.None? || x.value >= min.value) && (max.None? || x.value <= max.value)
  }

  /**
   * Whether a number field (`None` when left empty) passes its validator chain, given
   * whether an earlier validator has already recorded an error.
   */
  function RunChain(x: Option<real>, chain: seq<Validator>, failed: bool): bool
  {
    if |chain| == 0 then !failed
    else match chain[0]
      case OptionalField => if x.None? then true else RunChain(x, chain[1..], failed)
      case DataRequired => if x.Some? && x.value != 0.0 then RunChain(x, chain[1..], failed) else false
      case NumberRange(min, max) => RunChain(x, chain[1..], failed || !InRange(x, min, max))
  }

  function FieldValid(x: Option<real>, chain: seq<Validator>): bool { RunChain(x, chain, false) }

  /** `hours` of `AttendanceForm` and `UnitAttendanceForm` (forms.py:270, 388). */
  const AttendanceHours := [DataRequired, NumberRange(Some(0.5), Some(12.0))]

  /** `hours_per_week` of the effective `TeachingUnitForm`. */
  const HoursPerWeek := [DataRequired, NumberRange(Some(0.5), Some(40.0))]

  /** `unit_value` of the effective `TeachingUnitForm`. */
  const UnitValue := [DataRequired, NumberRange(Some(0.5), Some(10.0))]

  /** `rate_per_unit` of the effective `TeachingUnitForm`. */
  const RatePerUnit := [DataRequired, NumberRange(Some(0.0), None)]

  /** `amount` of `PayrollDeductionForm`. */
  const DeductionAmount := [DataRequired, NumberRange(Some(0.0), None)]

  /** `amount` of `SalaryForm`. */
  const SalaryAmount := [DataRequired, NumberRange(Some(0.0), None)]

  /** `base_pay` of the effective `PayrollForm`. */
  const BasePay := [OptionalField, NumberRange(Some(0.0), None)]

  /** A chain that ends in a `NumberRange`: what the first validator leaves to the range test. */
  lemma RangeAfter(x: Option<real>, first: Validator, min: Option<real>, max: Option<real>)
    ensures FieldValid(x, [first, NumberRange(min, max)]) ==
      match first
        case OptionalField => x.None? || InRange(x, min, max)
        case DataRequired => x.Some? && x.value != 0.0 && InRange(x, min, max)
        case NumberRange(m, n) => InRange(x, m, n) && InRange(x, min, max)
  {
    var range := [NumberRange(min, max)];
    assert [first, NumberRange(min, max)][1..] == range;
    assert range[1..] == [];
    assert RunChain(x, range, false) == InRange(x, min, max);
    assert RunChain(x, range, true) == false;
  }

  /** Attendance hours are accepted exactly when given and between 0.5 and 12 inclusive. */
  lemma AttendanceHoursRule(x: Option<real>)
    ensures FieldValid(x, AttendanceHours) <==> x.Some? && 0.5 <= x.value <= 12.0
  {
    RangeAfter(x, DataRequired, Some(0.5), Some(12.0));
  }

  /** Weekly hours are accepted exactly when given and between 0.5 and 40 inclusive. */
  lemma HoursPerWeekRule(x: Option<real>)
    ensures FieldValid(x, HoursPerWeek) <==> x.Some? && 0.5 <= x.value <= 40.0
  {
    RangeAfter(x, DataRequired, Some(0.5), Some(40.0));
  }

  /** Academic units are accepted exactly when given and between 0.5 and 10 inclusive. */
  lemma UnitValueRule(x: Option<real>)
    ensures FieldValid(x, UnitValue) <==> x.Some? && 0.5 <= x.value <= 10.0
  {
    RangeAfter(x, DataRequired, Some(0.5), Some(10.0));
  }

  /**
   * `DataRequired` then `NumberRange(min=0)`: the range admits 0, but `DataRequired`
   * already refuses it, so only positive amounts, rates and salaries get through.
   */
  lemma PositiveAmountRule(x: Option<real>)
    ensures FieldValid(x, DeductionAmount) <==> x.Some? && x.value > 0.0
    ensures FieldValid(x, RatePerUnit) <==> x.Some? && x.value > 0.0
    ensures FieldValid(x, SalaryAmount) <==> x.Some? && x.value > 0.0
  {
    RangeAfter(x, DataRequired, Some(0.0), None);
  }

  /** Base pay may be left empty; when given it must not be negative. */
  lemma BasePayRule(x: Option<real>)
    ensures FieldValid(x, BasePay) <==> x.None? || x.value >= 0.0
  {
    RangeAfter(x, OptionalField, Some(0.0), None);
  }

  /** How a form's `validate_end_date` ends: the field is accepted, rejected, or the comparison raises. */
  datatype Check = Accepted | Rejected | Crashed

  /**
   * `end_date` of `LeaveRequestForm` and `TrainingProgramForm`: `DataRequired`, then
   * `end_date < start_date` is an error. With no start date the comparison with `None`
   * raises.
   */
  function EndDateCheck(start: Option<Date>, end: Option<Date>): (c: Check)
    ensures c == Accepted <==> start.Some? && end.Some? && NotAfter(start.value, end.value)
    ensures c == Crashed <==> start.None? && end.Some?
  {
    if end.None? then Rejected
    else if start.None? then Crashed
    else if Before(end.value, start.value) then Rejected
    else Accepted
  }

  /** A period ending on the day it starts is accepted. */
  lemma EndDateSameDay(d: Date)
    ensures EndDateCheck(Some(d), Some(d)) == Accepted
  {
  }

  /**
   * `period_end` of the effective `PayrollForm`: required, and an error only when both
   * dates are present and the end comes first.
   */
  function PeriodEndValid(start: Option<Date>, end: Option<Date>): (ok: bool)
    ensures ok <==> end.Some? && (start.None? || NotAfter(start.value, end.value))
  {
    end.Some? && !(start.Some? && Before(end.value, start.value))
  }

  /**
   * `payment_date` of the effective `PayrollForm`: optional, and an error only when both
   * it and the period end are present and the payment comes first.
   */
  function PaymentDateValid(periodEnd: Option<Date>, payment: Option<Date>): (ok: bool)
    ensures !ok <==> periodEnd.Some? && payment.Some? && Before(payment.value, periodEnd.value)
  {
    payment.None? || periodEnd.None? || !Before(payment.value, periodEnd.value)
  }

  /** The numeric and date fields of the effective `TeachingUnitForm`. */
  predicate TeachingUnitFormValid(hoursPerWeek: Option<real>, unitValue: Option<real>, ratePerUnit: Option<real>,
                                  start: Option<Date>, end: Option<Date>)
  {
    FieldValid(hoursPerWeek, HoursPerWeek) && FieldValid(unitValue, UnitValue) &&
    FieldValid(ratePerUnit, RatePerUnit) && start.Some? && end.Some?
  }

  /**
   * The effective `TeachingUnitForm` has no end-date check (the one at forms.py:263 is
   * on the shadowed class), so a unit ending before it starts is accepted.
   */
  lemma TeachingUnitEndBeforeStartAccepted(start: Date, end: Date)
    requires Before(end, start)
    ensures TeachingUnitFormValid(Some(2.0), Some(3.0), Some(50.0), Some(start), Some(end))
  {
    HoursPerWeekRule(Some(2.0));
    UnitValueRule(Some(3.0));
    PositiveAmountRule(Some(50.0));
  }
}
