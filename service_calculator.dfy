/**
 * The backend gratuity service: years of service from a service span, and the
 * amount payable under section 4 of the Payment of Gratuity Act, 1972, as
 * `salary * years * 15 / 26` rounded half-up to the paisa.
 */
module GratuityService {
  import opened Wrappers
  import opened Dates
  import opened CalculatorSchema
  import Text

  /**
   * The span `relativedelta(leaving_date, joining_date)` reports: whole years,
   * then whole months, then days. It is taken as given, not computed here.
   */
  datatype Delta = Delta(years: int, months: int, days: int)

  /** The shape relativedelta gives a non-negative span: months 0..11, days 0..30. */
  predicate NormalDelta(d: Delta) {
    d.years >= 0 && 0 <= d.months <= 11 && 0 <= d.days <= 30
  }

  /** Below this many years no gratuity is payable (section 4(1) of the Act). */
  const MinimumYears: int := 5

  const LessThanFiveYearsMessage: string := "No gratuity is payable as the service period is less than 5 years."

  /** The remainder after the whole years is at least five months and thirty days. */
  predicate RemainderRoundsUp(d: Delta) {
    d.months >= 6 || (d.months == 5 && d.days >= 30)
  }

  /**
   * `calculate_years_of_service`: the whole years, plus one when the months
   * part reaches six (or five months and thirty days); a smaller remainder is dropped.
   */
  function YearsOfService(d: Delta): (years: int)
    ensures d.years <= years <= d.years + 1
    ensures d.months < 5 ==> years == d.years
    ensures d.months >= 6 ==> years == d.years + 1
    ensures NormalDelta(d) ==> years >= 0
  {
    var years := d.years;
    if RemainderRoundsUp(d) then years + 1 else years
  }

  /**
   * For spans of relativedelta's shape, rounding up happens exactly when the
   * remainder, read as (months, days), is at least (5, 30) in lexicographic order.
   */
  lemma YearsRoundUpIffRemainderLarge(d: Delta)
    requires NormalDelta(d)
    ensures YearsOfService(d) == d.years + 1 <==> (d.months, d.days) == (5, 30) || d.months > 5
    ensures YearsOfService(d) == d.years <==> d.months < 5 || (d.months == 5 && d.days < 30)
  {
  }

  /** A longer span (compared by years, then months, then days) never counts fewer years. */
  lemma YearsOfServiceMonotone(d1: Delta, d2: Delta)
    requires NormalDelta(d1) && NormalDelta(d2)
    requires d1.years < d2.years
          || (d1.years == d2.years && d1.months < d2.months)
          || (d1.years == d2.years && d1.months == d2.months && d1.days <= d2.days)
    ensures YearsOfService(d1) <= YearsOfService(d2)
  {
  }

  /** Exactly five years, five years and five months, and five years and six months. */
  lemma YearsOfServiceExamples()
    ensures YearsOfService(Delta(5, 0, 0)) == 5
    ensures YearsOfService(Delta(5, 5, 0)) == 5
    ensures YearsOfService(Delta(5, 6, 0)) == 6
    ensures YearsOfService(Delta(5, 5, 29)) == 5
    ensures YearsOfService(Delta(5, 5, 30)) == 6
  {
  }

  // ----- Decimal quantization -----

  /** A whole number of hundredths (of rupees, i.e. whole paise). */
  predicate IsHundredths(x: real) {
    (x * 100.0).Floor as real == x * 100.0
  }

  /**
   * `r` is what `quantize(Decimal('0.01'), ROUND_HALF_UP)` may return for `x`:
   * within half a hundredth of `x`, a tie going away from zero.
   */
  predicate IsNearestHalfUp(x: real, r: real) {
    if x >= 0.0 then x - 0.005 < r <= x + 0.005 else x - 0.005 <= r < x + 0.005
  }

  /** Half-up rounding of a non-negative scaled value to a whole number. */
  function RoundScaled(y: real): (k: int)
    ensures y - 0.5 < k as real <= y + 0.5
  {
    (y + 0.5).Floor
  }

  /** A whole number of hundredths written as `k / 100`. */
  lemma HundredthsOf(k: int)
    ensures IsHundredths(k as real / 100.0)
    ensures (k as real / 100.0) * 100.0 == k as real
  {
    var r := k as real / 100.0;
    assert r * 100.0 == k as real;
  }

  /** `Decimal.quantize(Decimal('0.01'), rounding=ROUND_HALF_UP)` on an exact value. */
  function QuantizeHalfUp(x: real): (r: real)
    ensures IsHundredths(r)
    ensures IsNearestHalfUp(x, r)
  {
    if x >= 0.0 then
      var k := RoundScaled(x * 100.0);
      HundredthsOf(k);
      k as real / 100.0
    else
      var k := RoundScaled(-x * 100.0);
      HundredthsOf(-k);
      (-k) as real / 100.0
  }

  /** Two whole numbers of hundredths less than a hundredth apart are in order. */
  lemma HundredthsOrder(r1: real, r2: real)
    requires IsHundredths(r1) && IsHundredths(r2)
    requires r2 > r1 - 0.01
    ensures r1 <= r2
  {
    var a := (r1 * 100.0).Floor;
    var b := (r2 * 100.0).Floor;
    assert b as real > a as real - 1.0;
    assert a <= b;
  }

  /** At most one whole number of hundredths is the half-up rounding of `x`. */
  lemma NearestHalfUpUnique(x: real, r1: real, r2: real)
    requires IsHundredths(r1) && IsNearestHalfUp(x, r1)
    requires IsHundredths(r2) && IsNearestHalfUp(x, r2)
    ensures r1 == r2
  {
    HundredthsOrder(r1, r2);
    HundredthsOrder(r2, r1);
  }

  /** Rounding never reverses the order of two amounts. */
  lemma QuantizeMonotone(x: real, y: real)
    requires x <= y
    ensures QuantizeHalfUp(x) <= QuantizeHalfUp(y)
  {
    var rx, ry := QuantizeHalfUp(x), QuantizeHalfUp(y);
    assert ry > rx - 0.01;
    HundredthsOrder(rx, ry);
  }

  /** The unrounded amount `salary * years * 15 / 26`. */
  function ExactAmount(salary: real, years: int): real {
    salary * years as real * 15.0 / 26.0
  }

  /**
   * `calculate_gratuity_amount` of the service: nothing below five years,
   * otherwise the statutory formula rounded half-up to whole paise. The divisor is always 26.
   */
  function GratuityAmount(salary: real, years: int): (amount: real)
    ensures years < MinimumYears ==> amount == 0.0
    ensures years >= MinimumYears ==> IsNearestHalfUp(ExactAmount(salary, years), amount)
    ensures IsHundredths(amount)
  {
    if years < MinimumYears then 0.0
    else QuantizeHalfUp(ExactAmount(salary, years))
  }

  /** For a non-negative salary the amount is never negative. */
  lemma GratuityAmountNonNegative(salary: real, years: int)
    requires salary >= 0.0
    ensures GratuityAmount(salary, years) >= 0.0
  {
  }

  /** A larger salary never earns a smaller gratuity. */
  lemma GratuityAmountMonotoneInSalary(s1: real, s2: real, years: int)
    requires s1 <= s2
    ensures GratuityAmount(s1, years) <= GratuityAmount(s2, years)
  {
    if years >= MinimumYears {
      assert ExactAmount(s1, years) <= ExactAmount(s2, years) by {
        assert s1 * years as real <= s2 * years as real;
      }
      QuantizeMonotone(ExactAmount(s1, years), ExactAmount(s2, years));
    }
  }

  /** For a non-negative salary, longer service never earns a smaller gratuity. */
  lemma GratuityAmountMonotoneInYears(salary: real, y1: int, y2: int)
    requires salary >= 0.0 && y1 <= y2
    ensures GratuityAmount(salary, y1) <= GratuityAmount(salary, y2)
  {
    if y1 >= MinimumYears {
      assert ExactAmount(salary, y1) <= ExactAmount(salary, y2) by {
        assert salary * y1 as real <= salary * y2 as real;
      }
      QuantizeMonotone(ExactAmount(salary, y1), ExactAmount(salary, y2));
    } else {
      GratuityAmountNonNegative(salary, y2);
    }
  }

  /** The amounts the service's tests expect: 20000 and 25000 over five years, and four years. */
  lemma GratuityAmountExamples()
    ensures GratuityAmount(20000.0, 5) == 57692.31
    ensures GratuityAmount(25000.0, 5) == 72115.38
    ensures GratuityAmount(20000.0, 4) == 0.0
  {
    NearestHalfUpUnique(ExactAmount(20000.0, 5), GratuityAmount(20000.0, 5), 57692.31);
    NearestHalfUpUnique(ExactAmount(25000.0, 5), GratuityAmount(25000.0, 5), 72115.38);
  }

  /**
   * `calculate_individual_gratuity`: echoes the inputs, takes years and amount from
   * the two helpers, and carries the "less than 5 years" message exactly when no
   * gratuity is payable on tenure. `span` is relativedelta(leaving, joining).
   */
  function IndividualGratuity(name: string, joining: Date, leaving: Date, salary: real, span: Delta): (r: GratuityResult)
    ensures r.employeeName == name && r.joiningDate == joining && r.leavingDate == leaving
    ensures r.lastDrawnSalary == salary
    ensures r.yearsOfService == YearsOfService(span)
    ensures r.gratuityAmount == GratuityAmount(salary, YearsOfService(span))
    ensures r.message.Some? <==> r.yearsOfService < MinimumYears
    ensures r.message.Some? ==> r.message.value == LessThanFiveYearsMessage && r.gratuityAmount == 0.0
  {
    var years := YearsOfService(span);
    var amount := GratuityAmount(salary, years);
    var message := if years < MinimumYears then Some(LessThanFiveYearsMessage) else None;
    NewGratuityResult(name, joining, leaving, salary, years, amount, message)
  }

  /** The message text contains the phrase the service's tests look for. */
  lemma MessageMentionsFiveYears()
    ensures Text.Contains(LessThanFiveYearsMessage, "less than 5 years")
  {
    Text.ContainsAt(LessThanFiveYearsMessage, "less than 5 years", 48);
  }

  /** The two individual results the service's tests check. */
  lemma IndividualGratuityExamples()
    ensures var r := IndividualGratuity("Jane Smith", Date(2018, 1, 1), Date(2023, 1, 1), 25000.0, Delta(5, 0, 0));
            r.yearsOfService == 5 && r.gratuityAmount == 72115.38 && r.message == None
    ensures var r := IndividualGratuity("John Doe", Date(2020, 1, 1), Date(2023, 12, 31), 30000.0, Delta(3, 11, 30));
            r.gratuityAmount == 0.0 && r.message == Some(LessThanFiveYearsMessage)
  {
    GratuityAmountExamples();
  }
}
