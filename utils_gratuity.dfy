/**
 * The gratuity utility: service counted in completed half-years, a factor of
 * 15/26 for employees covered by the Payment of Gratuity Act and 15/30 for
 * those who are not, no rounding, and a fixed statutory ceiling.
 */
module GratuityUtils {
  import Text

  /** Python's `int()` on a Decimal: truncation toward zero. */
  function TruncateTowardZero(x: real): (n: int)
    ensures x >= 0.0 ==> n as real <= x < n as real + 1.0
    ensures x < 0.0 ==> n as real - 1.0 < x <= n as real
  {
    if x >= 0.0 then x.Floor else -((-x).Floor)
  }

  /** A whole number of half-years. */
  predicate IsHalves(y: real) {
    (y * 2.0).Floor as real == y * 2.0
  }

  /**
   * The years the formula counts: `int(years * 2) / 2`, floored at zero, i.e.
   * the service truncated to completed half-years.
   */
  function ConsideredYears(years: real): (c: real)
    ensures c >= 0.0
    ensures IsHalves(c)
    ensures years >= 0.0 ==> c <= years < c + 0.5
    ensures years < 0.5 ==> c == 0.0
  {
    var t := TruncateTowardZero(years * 2.0);
    var half := t as real / 2.0;
    assert half * 2.0 == t as real;
    if half >= 0.0 then half else 0.0
  }

  /** For non-negative service, the considered years are the largest half-year count not above it. */
  lemma ConsideredYearsIsGreatestHalf(years: real, k: int)
    requires years >= 0.0
    requires k as real / 2.0 <= years
    ensures k as real / 2.0 <= ConsideredYears(years)
  {
    var c := ConsideredYears(years);
    var m := (c * 2.0).Floor;
    assert c == m as real / 2.0;
    assert k as real / 2.0 < (m as real + 1.0) / 2.0;
    assert k < m + 1;
    assert k as real <= m as real;
  }

  /** For non-negative service, at most half a year is dropped. */
  lemma ConsideredYearsLoss(years: real)
    requires years >= 0.0
    ensures 0.0 <= years - ConsideredYears(years) < 0.5
  {
  }

  /** 5.7 years count as 5.5 and 10.2 years as 10.0. */
  lemma ConsideredYearsExamples()
    ensures ConsideredYears(5.7) == 5.5
    ensures ConsideredYears(10.2) == 10.0
    ensures ConsideredYears(0.0) == 0.0
    ensures ConsideredYears(-3.0) == 0.0
  {
  }

  const CoveredFormula: string := "15/26 * Last Drawn Salary * Years of Service"
  const NotCoveredFormula: string := "15/30 * Last Drawn Salary * Years of Service"

  /** The per-year factor: 15 days' pay out of 26 working days, or out of 30 days. */
  function Factor(isCoveredUnderAct: bool): (f: real)
    ensures isCoveredUnderAct ==> f == 15.0 / 26.0
    ensures !isCoveredUnderAct ==> f == 15.0 / 30.0
  {
    if isCoveredUnderAct then 15.0 / 26.0 else 15.0 / 30.0
  }

  /** The transparency record returned beside the amount. */
  datatype Breakdown = Breakdown(
    lastDrawnSalary: real,
    yearsOfServiceRaw: real,
    yearsOfServiceConsidered: real,
    factor: real,
    gratuityAmount: real)

  /** The utility's result triple: the amount, the formula text used, and the breakdown. */
  datatype Calculation = Calculation(amount: real, formula: string, breakdown: Breakdown)

  /**
   * `calculate_gratuity_amount` of the utility: salary times considered years
   * times the factor, exactly, without rounding and without the ceiling.
   */
  function CalculateGratuity(yearsOfService: real, lastDrawnSalary: real, isCoveredUnderAct: bool := true): (r: Calculation)
    ensures r.amount == lastDrawnSalary * ConsideredYears(yearsOfService) * Factor(isCoveredUnderAct)
    ensures r.formula == (if isCoveredUnderAct then CoveredFormula else NotCoveredFormula)
    ensures r.breakdown == Breakdown(lastDrawnSalary, yearsOfService, ConsideredYears(yearsOfService),
                                     Factor(isCoveredUnderAct), r.amount)
  {
    var considered := ConsideredYears(yearsOfService);
    var factor := Factor(isCoveredUnderAct);
    var formula := if isCoveredUnderAct then CoveredFormula else NotCoveredFormula;
    var amount := lastDrawnSalary * considered * factor;
    Calculation(amount, formula, Breakdown(lastDrawnSalary, yearsOfService, considered, factor, amount))
  }

  /** The formula text names "15/26" for covered employees and "15/30" otherwise. */
  lemma FormulaNamesFactor(yearsOfService: real, lastDrawnSalary: real, isCoveredUnderAct: bool)
    ensures var f := CalculateGratuity(yearsOfService, lastDrawnSalary, isCoveredUnderAct).formula;
            (isCoveredUnderAct ==> Text.Contains(f, "15/26"))
            && (!isCoveredUnderAct ==> Text.Contains(f, "15/30"))
  {
    assert "15/26" <= CoveredFormula;
    assert "15/30" <= NotCoveredFormula;
  }

  /** No service (or less than half a year) gives nothing, whatever the salary. */
  lemma ZeroYearsZeroAmount(yearsOfService: real, lastDrawnSalary: real, isCoveredUnderAct: bool)
    requires yearsOfService < 0.5
    ensures CalculateGratuity(yearsOfService, lastDrawnSalary, isCoveredUnderAct).amount == 0.0
  {
  }

  /** The covered formula pays at least as much as the non-covered one for a non-negative salary. */
  lemma CoveredPaysAtLeastNotCovered(yearsOfService: real, lastDrawnSalary: real)
    requires lastDrawnSalary >= 0.0
    ensures CalculateGratuity(yearsOfService, lastDrawnSalary, false).amount
         <= CalculateGratuity(yearsOfService, lastDrawnSalary, true).amount
  {
    var c := ConsideredYears(yearsOfService);
    assert lastDrawnSalary * c >= 0.0;
  }

  /** The utility's test cases: 50000 over 5.7 covered years, 75000 over 10.2 non-covered years. */
  lemma CalculateGratuityExamples()
    ensures CalculateGratuity(5.7, 50000.0).amount == 50000.0 * 5.5 * (15.0 / 26.0)
    ensures CalculateGratuity(10.2, 75000.0, false).amount == 375000.0
    ensures CalculateGratuity(0.0, 60000.0).amount == 0.0
  {
    ConsideredYearsExamples();
  }

  const MaximumGratuityAmount: real := 2000000.0

  /** `calculate_maximum_gratuity`: the ceiling of twenty lakh rupees, whatever the salary. */
  function MaximumGratuity(salary: real): (m: real)
    ensures m == 2000000.0
  {
    MaximumGratuityAmount
  }

  /** The ceiling is not applied: a large salary yields an amount above it. */
  lemma CeilingNotApplied()
    ensures CalculateGratuity(10.0, 1000000.0).amount > MaximumGratuity(1000000.0)
  {
    ConsideredYearsExamples();
    assert ConsideredYears(10.0) == 10.0;
  }
}
