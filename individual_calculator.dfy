/**
 * The individual calculator form: its six text fields, per-field error
 * messages, the validation run before submission, the request payload,
 * and the change and reset handlers.
 */
module IndividualCalculator {
  import opened Wrappers
  import opened Text

  /** The names of the form's inputs. */
  datatype Field = EmployeeName | JoiningDate | LeavingDate | LastDrawnSalary | EmployeeType | TerminationReason

  /** What the user has typed or selected, all as text. */
  datatype FormData = FormData(
    employeeName: string,
    joiningDate: string,
    leavingDate: string,
    lastDrawnSalary: string,
    employeeType: string,
    terminationReason: string)

  /** Error messages, one optional message per validated field. */
  datatype FormErrors = FormErrors(
    employeeName: Option<string>,
    joiningDate: Option<string>,
    leavingDate: Option<string>,
    lastDrawnSalary: Option<string>)

  const NoErrors: FormErrors := FormErrors(None, None, None, None)

  /** The form as first shown and after a reset. */
  const InitialForm: FormData := FormData("", "", "", "", "standard", "resignation")

  const NameRequired: string := "Employee name is required"
  const JoiningRequired: string := "Joining date is required"
  const LeavingRequired: string := "Leaving date is required"
  const LeavingNotAfter: string := "Leaving date must be after joining date"
  const SalaryRequired: string := "Last drawn salary is required"
  const SalaryNotPositive: string := "Please enter a valid positive amount"

  function Value(f: FormData, field: Field): string {
    match field
    case EmployeeName => f.employeeName
    case JoiningDate => f.joiningDate
    case LeavingDate => f.leavingDate
    case LastDrawnSalary => f.lastDrawnSalary
    case EmployeeType => f.employeeType
    case TerminationReason => f.terminationReason
  }

  /** `{ ...prev, [name]: value }`: the named field replaced, every other kept. */
  function WithValue(f: FormData, field: Field, v: string): (g: FormData)
    ensures Value(g, field) == v
    ensures forall other :: other != field ==> Value(g, other) == Value(f, other)
  {
    match field
    case EmployeeName => f.(employeeName := v)
    case JoiningDate => f.(joiningDate := v)
    case LeavingDate => f.(leavingDate := v)
    case LastDrawnSalary => f.(lastDrawnSalary := v)
    case EmployeeType => f.(employeeType := v)
    case TerminationReason => f.(terminationReason := v)
  }

  /** The error recorded for a field; the two selects never carry one. */
  function ErrorFor(e: FormErrors, field: Field): Option<string> {
    match field
    case EmployeeName => e.employeeName
    case JoiningDate => e.joiningDate
    case LeavingDate => e.leavingDate
    case LastDrawnSalary => e.lastDrawnSalary
    case EmployeeType => None
    case TerminationReason => None
  }

  /** The error of one field removed, every other kept. */
  function WithoutError(e: FormErrors, field: Field): (d: FormErrors)
    ensures ErrorFor(d, field) == None
    ensures forall other :: other != field ==> ErrorFor(d, other) == ErrorFor(e, other)
  {
    match field
    case EmployeeName => e.(employeeName := None)
    case JoiningDate => e.(joiningDate := None)
    case LeavingDate => e.(leavingDate := None)
    case LastDrawnSalary => e.(lastDrawnSalary := None)
    case EmployeeType => e
    case TerminationReason => e
  }

  /**
   * The errors the form's rules call for. `parseDate` stands for `new Date(s)`
   * (none for an invalid date, whose comparisons are all false); `parseNumber`
   * stands for `Number(s)` (none for NaN).
   */
  function ExpectedErrors(f: FormData, parseDate: string -> Option<int>, parseNumber: string -> Option<real>): FormErrors {
    FormErrors(
      if Trim(f.employeeName) == "" then Some(NameRequired) else None,
      if f.joiningDate == "" then Some(JoiningRequired) else None,
      if f.leavingDate == "" then Some(LeavingRequired)
      else if f.joiningDate != "" && DateNotAfter(parseDate(f.leavingDate), parseDate(f.joiningDate)) then Some(LeavingNotAfter)
      else None,
      if f.lastDrawnSalary == "" then Some(SalaryRequired)
      else if parseNumber(f.lastDrawnSalary).None? || parseNumber(f.lastDrawnSalary).value <= 0.0 then Some(SalaryNotPositive)
      else None)
  }

  /** `new Date(leaving) <= new Date(joining)`: false as soon as either date is invalid. */
  predicate DateNotAfter(leaving: Option<int>, joining: Option<int>) {
    leaving.Some? && joining.Some? && leaving.value <= joining.value
  }

  /** The name error is set exactly when the name is blank after trimming, that is, all whitespace. */
  lemma NameErrorIffBlank(f: FormData, parseDate: string -> Option<int>, parseNumber: string -> Option<real>)
    ensures ExpectedErrors(f, parseDate, parseNumber).employeeName.Some? <==> AllWhitespace(f.employeeName)
  {
    TrimEmptyIff(f.employeeName);
  }

  /** The salary is accepted exactly when it is filled in and reads as a positive number. */
  lemma SalaryAcceptedIff(f: FormData, parseDate: string -> Option<int>, parseNumber: string -> Option<real>)
    ensures ExpectedErrors(f, parseDate, parseNumber).lastDrawnSalary.None?
        <==> f.lastDrawnSalary != "" && parseNumber(f.lastDrawnSalary).Some? && parseNumber(f.lastDrawnSalary).value > 0.0
  {
  }

  /** A valid form has a name, both dates in order, and a positive salary. */
  predicate FormAcceptable(f: FormData, parseDate: string -> Option<int>, parseNumber: string -> Option<real>) {
    ExpectedErrors(f, parseDate, parseNumber) == NoErrors
  }

  /** Acceptability spelled out field by field. */
  lemma FormAcceptableIff(f: FormData, parseDate: string -> Option<int>, parseNumber: string -> Option<real>)
    ensures FormAcceptable(f, parseDate, parseNumber) <==>
      && !AllWhitespace(f.employeeName)
      && f.joiningDate != "" && f.leavingDate != ""
      && !DateNotAfter(parseDate(f.leavingDate), parseDate(f.joiningDate))
      && f.lastDrawnSalary != "" && parseNumber(f.lastDrawnSalary).Some? && parseNumber(f.lastDrawnSalary).value > 0.0
  {
    TrimEmptyIff(f.employeeName);
  }

  /** The JSON body posted to the individual calculator endpoint. */
  datatype Payload = Payload(
    employeeName: string,
    joiningDate: string,
    leavingDate: string,
    lastDrawnSalary: real,
    employeeType: string,
    terminationReason: string)

  /** The response body of a successful calculation, as the component reads it. */
  datatype CalculationResult = CalculationResult(
    employeeName: string,
    joiningDate: string,
    leavingDate: string,
    lastDrawnSalary: string,
    yearsOfService: int,
    gratuityAmount: string,
    employeeType: string,
    terminationReason: string,
    isEligible: bool,
    message: Option<string>)

  /** How a request ended: a body, a refusal with an optional `detail`, or a failure to reach the server. */
  datatype Outcome =
    | Received(body: CalculationResult)
    | Refused(detail: Option<string>)
    | Unreachable(message: string)

  /** The message shown for a failed request. */
  function FailureMessage(outcome: Outcome): (m: string)
    requires !outcome.Received?
    ensures outcome.Refused? && outcome.detail.Some? && outcome.detail.value != "" ==> m == outcome.detail.value
    ensures outcome.Refused? && (outcome.detail.None? || outcome.detail.value == "") ==> m == "Failed to calculate gratuity"
    ensures outcome.Unreachable? ==> m == outcome.message
  {
    match outcome
    case Refused(detail) => if detail.Some? && detail.value != "" then detail.value else "Failed to calculate gratuity"
    case Unreachable(message) => message
  }

  /**
   * The state of the individual calculator component. `result` holds the last
   * response body, `apiError` the last request failure.
   */
  class IndividualForm {
    var formData: FormData
    var errors: FormErrors
    var isLoading: bool
    var apiError: Option<string>
    var result: Option<CalculationResult>

    /** Every field empty or at its default choice, and no errors, failure or result. */
    predicate IsInitial()
      reads this
    {
      formData == InitialForm && errors == NoErrors && !isLoading && apiError == None && result == None
    }

    constructor ()
      ensures IsInitial()
    {
      formData := InitialForm;
      errors := NoErrors;
      isLoading := false;
      apiError := None;
      result := None;
    }

    /** `handleChange`: the named field takes the new value and only that field's error is cleared. */
    method HandleChange(field: Field, value: string)
      modifies this
      ensures formData == WithValue(old(formData), field, value)
      ensures errors == (if ErrorFor(old(errors), field).Some? then WithoutError(old(errors), field) else old(errors))
      ensures isLoading == old(isLoading) && apiError == old(apiError) && result == old(result)
    {
      formData := WithValue(formData, field, value);
      if ErrorFor(errors, field).Some? {
        errors := WithoutError(errors, field);
      }
    }

    /** `validateForm`: records one message per failing field and reports whether none failed. */
    method ValidateForm(parseDate: string -> Option<int>, parseNumber: string -> Option<real>) returns (isValid: bool)
      modifies this`errors
      ensures errors == ExpectedErrors(formData, parseDate, parseNumber)
      ensures isValid <==> errors == NoErrors
    {
      var newErrors := NoErrors;
      isValid := true;

      if Trim(formData.employeeName) == "" {
        newErrors := newErrors.(employeeName := Some(NameRequired));
        isValid := false;
      }

      if formData.joiningDate == "" {
        newErrors := newErrors.(joiningDate := Some(JoiningRequired));
        isValid := false;
      }

      if formData.leavingDate == "" {
        newErrors := newErrors.(leavingDate := Some(LeavingRequired));
        isValid := false;
      } else if formData.joiningDate != "" && DateNotAfter(parseDate(formData.leavingDate), parseDate(formData.joiningDate)) {
        newErrors := newErrors.(leavingDate := Some(LeavingNotAfter));
        isValid := false;
      }

      if formData.lastDrawnSalary == "" {
        newErrors := newErrors.(lastDrawnSalary := Some(SalaryRequired));
        isValid := false;
      } else if parseNumber(formData.lastDrawnSalary).None? || parseNumber(formData.lastDrawnSalary).value <= 0.0 {
        newErrors := newErrors.(lastDrawnSalary := Some(SalaryNotPositive));
        isValid := false;
      }

      errors := newErrors;
    }

    /**
     * `handleSubmit` up to the request: clears the previous failure, validates, and
     * on a valid form returns the payload to post, with the salary as a number.
     */
    method HandleSubmit(parseDate: string -> Option<int>, parseNumber: string -> Option<real>) returns (payload: Option<Payload>)
      modifies this
      ensures apiError == None && formData == old(formData) && result == old(result)
      ensures errors == ExpectedErrors(formData, parseDate, parseNumber)
      ensures payload.None? <==> !FormAcceptable(formData, parseDate, parseNumber)
      ensures payload.None? ==> isLoading == old(isLoading)
      ensures payload.Some? ==> isLoading && payload.value == Payload(
                formData.employeeName, formData.joiningDate, formData.leavingDate,
                parseNumber(formData.lastDrawnSalary).value, formData.employeeType, formData.terminationReason)
    {
      apiError := None;
      var valid := ValidateForm(parseDate, parseNumber);
      if !valid {
        return None;
      }
      isLoading := true;
      payload := Some(Payload(
        formData.employeeName, formData.joiningDate, formData.leavingDate,
        parseNumber(formData.lastDrawnSalary).value, formData.employeeType, formData.terminationReason));
    }

    /**
     * The end of `handleSubmit`: the body on success; otherwise the failure's message,
     * which for a refused request is its `detail` or a fixed text when it has none.
     * Loading stops either way.
     */
    method FinishSubmit(outcome: Outcome)
      modifies this
      ensures !isLoading && formData == old(formData) && errors == old(errors)
      ensures outcome.Received? ==> result == Some(outcome.body) && apiError == old(apiError)
      ensures !outcome.Received? ==> result == old(result) && apiError == Some(FailureMessage(outcome))
    {
      match outcome {
        case Received(body) =>
          result := Some(body);
        case Refused(_) =>
          apiError := Some(FailureMessage(outcome));
        case Unreachable(_) =>
          apiError := Some(FailureMessage(outcome));
      }
      isLoading := false;
    }

    /** `handleReset`: the initial form, no errors, failure or result; the loading flag is left alone. */
    method HandleReset()
      modifies this
      ensures formData == InitialForm && errors == NoErrors && apiError == None && result == None
      ensures isLoading == old(isLoading)
      ensures !isLoading ==> IsInitial()
    {
      formData := InitialForm;
      errors := NoErrors;
      apiError := None;
      result := None;
    }
  }
}
