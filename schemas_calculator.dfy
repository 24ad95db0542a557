/**
 * The request and response shapes of the individual calculator endpoint:
 * the date-order validator, the non-negative salary constraint, and the
 * result record whose message defaults to none.
 */
module CalculatorSchema {
  import opened Wrappers
  import opened Dates

  const DateOrderMessage: string := "Leaving date must be after joining date"

  /** One entry of a validation failure: where, what, and of which kind. */
  datatype FieldIssue = FieldIssue(loc: seq<string>, msg: string, kind: string)

  /**
   * `IndividualCalculatorInput.validate_dates`: `joining` is the joining date when it
   * is among the values already validated. A strictly earlier leaving date is
   * refused; otherwise the leaving date comes back unchanged.
   */
  function ValidateDates(leaving: Date, joining: Option<Date>): (r: Result<Date, string>)
    ensures r.Failure? <==> joining.Some? && Before(leaving, joining.value)
    ensures r.Success? ==> r.value == leaving
    ensures r.Failure? ==> r.error == DateOrderMessage
  {
    if joining.Some? && Before(leaving, joining.value) then Failure(DateOrderMessage)
    else Success(leaving)
  }

  /** Leaving on the joining day is accepted: the comparison is strict. */
  lemma SameDayAccepted(d: Date)
    ensures ValidateDates(d, Some(d)) == Success(d)
  {
    BeforeIsStrictTotalOrder(d, d, d);
  }

  /** With a joining date present, the leaving date passes exactly when it is not earlier. */
  lemma ValidateDatesIff(leaving: Date, joining: Date)
    ensures ValidateDates(leaving, Some(joining)).Success? <==> leaving == joining || Before(joining, leaving)
  {
    BeforeIsStrictTotalOrder(leaving, joining, leaving);
  }

  /** The message and the error type Pydantic v2 reports for a broken `ge=0` bound. */
  const NotGeMessage: string := "Input should be greater than or equal to 0"
  const NotGeKind: string := "greater_than_equal"

  /** The `ge=0` constraint on `last_drawn_salary`. */
  function ValidateSalary(salary: real): (r: Result<real, FieldIssue>)
    ensures r.Success? <==> salary >= 0.0
    ensures r.Success? ==> r.value == salary
    ensures r.Failure? ==> r.error == FieldIssue(["body", "last_drawn_salary"], NotGeMessage, NotGeKind)
  {
    if salary >= 0.0 then Success(salary)
    else Failure(FieldIssue(["body", "last_drawn_salary"], NotGeMessage, NotGeKind))
  }

  /** `GratuityResult`: what the service returns for one employee. */
  datatype GratuityResult = GratuityResult(
    employeeName: string,
    joiningDate: Date,
    leavingDate: Date,
    lastDrawnSalary: real,
    yearsOfService: int,
    gratuityAmount: real,
    message: Option<string>)

  /** Builds a `GratuityResult`; leaving out `message` gives no message. */
  function NewGratuityResult(name: string, joining: Date, leaving: Date, salary: real,
                             years: int, amount: real, message: Option<string> := None): (r: GratuityResult)
    ensures r.employeeName == name && r.joiningDate == joining && r.leavingDate == leaving
    ensures r.lastDrawnSalary == salary && r.yearsOfService == years && r.gratuityAmount == amount
    ensures r.message == message
  {
    GratuityResult(name, joining, leaving, salary, years, amount, message)
  }

  /** The message field defaults to none. */
  lemma MessageDefaultsToNone(name: string, joining: Date, leaving: Date, salary: real, years: int, amount: real)
    ensures NewGratuityResult(name, joining, leaving, salary, years, amount).message == None
  {
  }
}
