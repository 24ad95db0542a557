# Gratuity calculator — a verified model

A Dafny model of the core of a gratuity calculator for Indian employees, together with proofs about it.
The calculator covers gratuity under the Payment of Gratuity Act, 1972.

The backend has four parts:
- a **service** that turns a service span into whole years;
- the gratuity rule itself:
  - no gratuity below five years (section 4(1) of the Act);
  - `salary × years × 15 / 26`, rounded half-up to the paisa (section 4(2));
- a second **half-year utility**. It counts completed half-years and pays 15/26 or 15/30 of the salary per year, with no rounding. It also has a fixed ceiling of twenty lakh rupees;
- the two **request validators**, and the **error-response builder** with its exception handlers.

The frontend has two parts:
- the **individual calculator form**: its state, field validation, the request payload, and the change, submit and reset handlers;
- the **bulk calculator view**:
  - file acceptance;
  - the CSV preview;
  - the upload-status transitions;
  - sort selection, filtering and sorting of the results;
  - the CSV export;
  - reset.

Modules, one per file:

| file | module | models |
|---|---|---|
| `service_calculator.dfy` | `GratuityService` | `backend/app/services/calculator.py` |
| `utils_gratuity.dfy` | `GratuityUtils` | `backend/app/utils/gratuity.py` |
| `schemas_calculator.dfy` | `CalculatorSchema` | `backend/app/schemas/calculator.py` |
| `exception_handlers.dfy` | `ExceptionHandlers` | `backend/app/exceptions/handlers.py` |
| `individual_calculator.dfy` | `IndividualCalculator` | `frontend/components/calculators/IndividualCalculator.tsx` |
| `bulk_calculator.dfy` | `BulkCalculator` | `frontend/components/calculators/BulkCalculator.tsx` |
| `dates.dfy` | `Dates` | `datetime.date` and its ordering |
| `text.dfy` | `Text` | JavaScript's `trim`, `split`, `join`, `toLowerCase`, `includes`, and number-to-text conversion |
| `sorting.dfy` | `Sorting` | `Array.prototype.sort` with a comparator |
| `wrappers.dfy` | `Wrappers` | `Option` and `Result` |

Modelling choices:
- **Money and years are `real`.** These are exact rationals, like Python's `Decimal` without its 28-digit context.
  - `quantize(Decimal('0.01'), ROUND_HALF_UP)` is stated as a relation: the result is a whole number of hundredths within half a hundredth of the exact value, with ties going away from zero.
  - That relation is proved to determine the result uniquely.
- **relativedelta's span is an input.** The service's `relativedelta(leaving, joining)` is given as a `(years, months, days)` triple, `GratuityService.Delta`.
- **Browser built-ins are parameters.** `new Date(..)`, `Number(..)`, `parseFloat` and `localeCompare` are function-typed parameters. The comparison `localeCompare(a, b) <= 0` is required to be a total preorder.
- **React state becomes classes.** A component's state is a class with one field per `useState`, and each handler is a method.
  - A handler that awaits a request is split in two: the part before the request returns what would be sent, and `FinishSubmit` takes the request's `Outcome`.
  - `FileReader.onload` is treated as immediate: `HandleFileChange` receives the file's text.
- **CSV export.**
  - The CSV text is a specification function, `CsvText`, and the download loop is proved to build exactly that text.
  - `CsvTextLines` and `CsvLineCells` state its content. It reads back, line by line, as the header and one line per result in the results' original order. Each line reads back cell by cell.

Where the code and its tests or documentation disagree, the model follows the code:
- `calculate_years_of_service` rounds up only from six months, or from five months and thirty days.
  - For 2018-01-01 to 2023-06-30, relativedelta gives 5 years, 5 months, 29 days, so the code returns 5 (`YearsOfServiceExamples` states this case).
  - The test at `backend/tests/test_calculator_service.py:21` expects 6.
- The API test at `backend/tests/test_calculator_api.py:53` expects status 400 for a leaving date before the joining date.
  - The date validator raises a validation error, and `validation_exception_handler` answers every validation error with 422.
  - The model states the 422 response.
- The frontend sends `employee_type` and `termination_reason`, but the service ignores both. Its divisor is always 26.
- A rejected file does not clear the file already held (`HandleFileChange` keeps `file`). Only an accepted file replaces it.
- Reset of the individual form does not touch the loading flag.

## Model

| member | source | states |
|---|---|---|
| GratuityService.YearsOfService | backend/app/services/calculator.py:13-20 | The years are the whole years, or one more. They are unchanged below five months and one more from six months. They are never negative for a span of relativedelta's shape. |
| GratuityService.YearsRoundUpIffRemainderLarge | backend/app/services/calculator.py:16-18 | For relativedelta-shaped spans, years are rounded up exactly when (months, days) is at least (5, 30). Otherwise they stay the whole years. Both directions are stated. |
| GratuityService.YearsOfServiceMonotone | backend/app/services/calculator.py:13-20 | A longer span, compared by years, then months, then days, never counts fewer years. |
| GratuityService.YearsOfServiceExamples | backend/tests/test_calculator_service.py:12-18 | 5y0m gives 5, 5y5m gives 5, 5y6m gives 6, 5y5m29d gives 5 and 5y5m30d gives 6. |
| GratuityService.QuantizeHalfUp | backend/app/services/calculator.py:36 | The result is a whole number of hundredths, within half a hundredth of the input, with ties going away from zero. |
| GratuityService.NearestHalfUpUnique | backend/app/services/calculator.py:36 | At most one whole number of hundredths is the half-up rounding of a value. |
| GratuityService.QuantizeMonotone | backend/app/services/calculator.py:36 | Rounding preserves the order of two amounts. |
| GratuityService.GratuityAmount | backend/app/services/calculator.py:22-36 | The amount is 0 below five years. Otherwise it is the half-up rounding to hundredths of `salary*years*15/26`. It is always whole hundredths. |
| GratuityService.GratuityAmountNonNegative | backend/app/services/calculator.py:29-36 | A non-negative salary never yields a negative amount. |
| GratuityService.GratuityAmountMonotoneInSalary | backend/app/services/calculator.py:33-36 | A larger salary never yields a smaller amount. |
| GratuityService.GratuityAmountMonotoneInYears | backend/app/services/calculator.py:29-36 | More years, including crossing the five-year threshold, never yield a smaller amount. |
| GratuityService.GratuityAmountExamples | backend/tests/test_calculator_service.py:25-33 | 20000 over 5 years gives 57692.31, 25000 over 5 years gives 72115.38, and 20000 over 4 years gives 0. |
| GratuityService.IndividualGratuity | backend/app/services/calculator.py:38-63 | The result echoes the name, dates and salary. Its years and amount are the two helpers' results. The message is present exactly when years < 5; it is then the fixed text and the amount is 0. |
| GratuityService.MessageMentionsFiveYears | backend/app/services/calculator.py:54 | The message contains "less than 5 years". |
| GratuityService.IndividualGratuityExamples | backend/tests/test_calculator_service.py:37-55 | The two test employees get 72115.38 with no message, and 0 with the message. |
| GratuityUtils.TruncateTowardZero | backend/app/utils/gratuity.py:30 | Python's `int()` truncates toward zero, for both signs. |
| GratuityUtils.ConsideredYears | backend/app/utils/gratuity.py:28-33 | The considered years are never negative and are whole half-years. For non-negative service they are at most the service and less than half a year below it. Below half a year they are 0. |
| GratuityUtils.ConsideredYearsIsGreatestHalf | backend/app/utils/gratuity.py:30 | Every half-year count not above the service is at most the considered years, so the considered years are the largest such count. |
| GratuityUtils.ConsideredYearsLoss | backend/app/utils/gratuity.py:30 | For non-negative service, `0 <= years - considered < 0.5`. |
| GratuityUtils.ConsideredYearsExamples | backend/app/utils/gratuity.py:28-33 | 5.7 gives 5.5, 10.2 gives 10.0, 0 gives 0, and -3 gives 0. |
| GratuityUtils.Factor | backend/app/utils/gratuity.py:36-45 | The factor is 15/26 when covered and 15/30 otherwise. |
| GratuityUtils.CalculateGratuity | backend/app/utils/gratuity.py:30-59 | The amount is exactly salary × considered years × factor, with no rounding and no ceiling. The formula text follows coverage. The breakdown repeats the salary, the raw and considered years, the factor and the amount. |
| GratuityUtils.FormulaNamesFactor | backend/app/utils/gratuity.py:40-45 | The formula text contains "15/26" when covered and "15/30" otherwise. |
| GratuityUtils.ZeroYearsZeroAmount | backend/tests/test_utils_gratuity.py:63-73 | Less than half a year, zero included, gives amount 0 for any salary and coverage. |
| GratuityUtils.CoveredPaysAtLeastNotCovered | backend/app/utils/gratuity.py:36-48 | For a non-negative salary, the covered amount is at least the non-covered one. |
| GratuityUtils.CalculateGratuityExamples | backend/tests/test_utils_gratuity.py:11-73 | 50000 over 5.7 covered years is 50000 × 5.5 × 15/26. 75000 over 10.2 non-covered years is 375000. Zero years give 0. |
| GratuityUtils.MaximumGratuity | backend/app/utils/gratuity.py:62-76 | The ceiling is 2000000 for every salary. |
| GratuityUtils.CeilingNotApplied | backend/app/utils/gratuity.py:48 | The amount is not capped: 1000000 over 10 years exceeds the ceiling. |
| CalculatorSchema.ValidateDates | backend/app/schemas/calculator.py:15-20 | The validator fails exactly when a joining date is present and the leaving date is strictly earlier, with the fixed message. Otherwise it returns the leaving date unchanged. |
| CalculatorSchema.SameDayAccepted | backend/app/schemas/calculator.py:18 | Leaving on the joining day is accepted. |
| CalculatorSchema.ValidateDatesIff | backend/app/schemas/calculator.py:18-20 | With a joining date, validation passes exactly when the leaving date equals or follows it. |
| CalculatorSchema.ValidateSalary | backend/app/schemas/calculator.py:13 | Validation passes exactly when salary >= 0; zero is allowed, and a passing salary comes back unchanged. A failure carries one issue at `["body", "last_drawn_salary"]` with Pydantic v2's message "Input should be greater than or equal to 0" and type "greater_than_equal". |
| CalculatorSchema.NewGratuityResult | backend/app/schemas/calculator.py:22-32 | Every field of the result is the argument given for it. |
| CalculatorSchema.MessageDefaultsToNone | backend/app/schemas/calculator.py:32 | Leaving out the message gives none. |
| Dates.BeforeIsStrictTotalOrder | backend/app/schemas/calculator.py:18 | Date `<` is irreflexive, transitive, asymmetric and total on distinct dates. |
| ExceptionHandlers.Truthy | backend/app/exceptions/handlers.py:43 | Python truthiness of the `errors` argument: none, false, 0, "" and empty lists and dicts are false, everything else true. Definition only; `CreateErrorResponse` states what it decides. |
| ExceptionHandlers.CodeTruthy | backend/app/exceptions/handlers.py:40 | Truthiness of the optional `code` string: present and not empty. Definition only; `CreateErrorResponse` states what it decides. |
| ExceptionHandlers.DistinctKeysLookup | backend/app/exceptions/handlers.py:33-44 | In an object whose keys are distinct, looking up any of its keys gives that key's own value. `CreateErrorResponse` uses it for all four shapes of the error body. |
| ExceptionHandlers.CreateErrorResponse | backend/app/exceptions/handlers.py:15-46 | The body has the single key "error". Its keys are status_code and message, then code exactly when the code is truthy, then details exactly when the errors are truthy. It holds their values. |
| ExceptionHandlers.Projected | backend/app/exceptions/handlers.py:109-113 | A projected issue has exactly the keys loc, msg and type, with the issue's values. |
| ExceptionHandlers.ProjectErrors | backend/app/exceptions/handlers.py:105-113 | The loop projects issues one to one and in order. |
| ExceptionHandlers.BaseApiExceptionHandler | backend/app/exceptions/handlers.py:49-69 | The response has the exception's status and detail. The code is present exactly when it is truthy. There are never details. |
| ExceptionHandlers.HttpExceptionHandler | backend/app/exceptions/handlers.py:72-91 | The response has the exception's status and detail, and exactly the keys status_code and message, so never a code. |
| ExceptionHandlers.ValidationExceptionHandler | backend/app/exceptions/handlers.py:94-125 | The response has status 422, "Validation error" and "VALIDATION_ERROR". Details are present exactly when there are issues, and hold the projected issues in order. |
| IndividualCalculator.WithValue | frontend/components/calculators/IndividualCalculator.tsx:54-56 | The named field gets the new value, and every other field keeps its own. |
| IndividualCalculator.WithoutError | frontend/components/calculators/IndividualCalculator.tsx:58-61 | Only the named field's error is removed. |
| IndividualCalculator.ExpectedErrors | frontend/components/calculators/IndividualCalculator.tsx:64-92 | The errors `validateForm` records, one optional message per field: name blank after trimming; joining date empty; leaving date empty, or else not after a given joining date; salary empty, or else not a positive number. Definition only; `NameErrorIffBlank`, `SalaryAcceptedIff` and `FormAcceptableIff` state its meaning. |
| IndividualCalculator.DateNotAfter | frontend/components/calculators/IndividualCalculator.tsx:81 | `new Date(leaving) <= new Date(joining)`: true only when both dates parse and the leaving date is not later, so an invalid date never triggers the error. Definition only. |
| IndividualCalculator.NameErrorIffBlank | frontend/components/calculators/IndividualCalculator.tsx:68-71 | There is a name error exactly when the name is all whitespace. |
| IndividualCalculator.SalaryAcceptedIff | frontend/components/calculators/IndividualCalculator.tsx:86-92 | The salary is accepted exactly when it is non-empty and parses to a positive number. |
| IndividualCalculator.FormAcceptableIff | frontend/components/calculators/IndividualCalculator.tsx:64-95 | The form is valid exactly when all of these hold: the name is not blank, both dates are given, the leaving date is not on or before the joining date, and the salary is positive. |
| IndividualCalculator.FailureMessage | frontend/components/calculators/IndividualCalculator.tsx:124-132 | A refusal shows its non-empty detail, or "Failed to calculate gratuity". An unreachable server shows its error message. |
| IndividualCalculator.IndividualForm.constructor | frontend/components/calculators/IndividualCalculator.tsx:40-52 | The form starts with empty text fields, "standard", "resignation", no errors, no failure, no result, not loading. |
| IndividualCalculator.IndividualForm.HandleChange | frontend/components/calculators/IndividualCalculator.tsx:54-62 | Only the named field changes, and only its error is cleared. |
| IndividualCalculator.IndividualForm.ValidateForm | frontend/components/calculators/IndividualCalculator.tsx:64-96 | The recorded errors are the rules' errors, at most one per field. The result is true exactly when none is recorded. |
| IndividualCalculator.IndividualForm.HandleSubmit | frontend/components/calculators/IndividualCalculator.tsx:98-121 | The failure is cleared and the form is validated. An invalid form sends nothing. A valid one starts loading and sends all six fields, with the salary as a number. |
| IndividualCalculator.IndividualForm.FinishSubmit | frontend/components/calculators/IndividualCalculator.tsx:124-135 | Success stores the body. A failure stores its message and keeps the result. Loading stops either way. |
| IndividualCalculator.IndividualForm.HandleReset | frontend/components/calculators/IndividualCalculator.tsx:138-150 | Reset restores the initial form and clears errors, failure and result. The loading flag stays as it was. |
| BulkCalculator.FileProblem | frontend/components/calculators/BulkCalculator.tsx:68-90 | There is no problem exactly when the type is listed and the size is at most 5 MB. The type is checked first, and each check has its own message. |
| BulkCalculator.SizeLimitBoundary | frontend/components/calculators/BulkCalculator.tsx:84 | 5242880 bytes are accepted and 5242881 are not. A wrong type is reported even when the file is too large. |
| BulkCalculator.Cell | frontend/components/calculators/BulkCalculator.tsx:134 | `values[index]?.trim()` with `''` as the fallback: the trimmed cell at a column, or "" past the end of a short line. Definition only; `RowPrefixValue` states where it ends up. |
| BulkCalculator.RowOf | frontend/components/calculators/BulkCalculator.tsx:131-135 | The row built for one CSV line. Its keys are exactly the trimmed headers. |
| BulkCalculator.RowPrefixKeys | frontend/components/calculators/BulkCalculator.tsx:133-135 | A preview row's keys are exactly the trimmed headers. |
| BulkCalculator.RowPrefixValue | frontend/components/calculators/BulkCalculator.tsx:133-135 | Under a header stands the trimmed cell of its last column with that name, or "" when the line is short. |
| BulkCalculator.PreviewOfLines | frontend/components/calculators/BulkCalculator.tsx:127-138 | The rows for the data lines: blank lines skipped, the rest in order. There are never more rows than lines. |
| BulkCalculator.PreviewRowsKeys | frontend/components/calculators/BulkCalculator.tsx:126-138 | Every preview row is keyed by exactly the trimmed headers. |
| BulkCalculator.CsvPreview | frontend/components/calculators/BulkCalculator.tsx:121-138 | The preview of a CSV text: lines 1 to 5 under the headers split from line 0. It has at most five rows. |
| BulkCalculator.PreviewFor | frontend/components/calculators/BulkCalculator.tsx:118-146 | What the preview shows for an accepted file: the CSV preview for `text/csv`, otherwise exactly one row with the single key "note". Never more than five rows. |
| BulkCalculator.CsvPreviewShape | frontend/components/calculators/BulkCalculator.tsx:122-138 | A CSV preview has at most five rows, each keyed by the trimmed headers of line 0. |
| BulkCalculator.BuildRow | frontend/components/calculators/BulkCalculator.tsx:131-135 | The `forEach` loop builds the row `RowOf` defines. |
| BulkCalculator.PreviewLines | frontend/components/calculators/BulkCalculator.tsx:126-138 | The preview loop produces exactly `PreviewOfLines`: blank lines skipped, the others in order. |
| BulkCalculator.GeneratePreview | frontend/components/calculators/BulkCalculator.tsx:116-147 | A CSV file gives the rows of lines 1 to 5, at most five of them. Any other file gives the single note row. |
| BulkCalculator.FilterRows | frontend/components/calculators/BulkCalculator.tsx:297-301 | `rows.filter(...)` with the name, type or reason containing the lower-cased filter. It never has more rows than its input. |
| BulkCalculator.Filtered | frontend/components/calculators/BulkCalculator.tsx:294-302 | The filter step: the empty filter keeps the rows as they are, any other filter keeps at most as many rows. |
| BulkCalculator.FilterRowsMembership | frontend/components/calculators/BulkCalculator.tsx:297-301 | A row is kept exactly when it is among the results and its name, type or reason contains the lower-cased filter. |
| BulkCalculator.FilterRowsMultiplicity | frontend/components/calculators/BulkCalculator.tsx:297-301 | A matching row is kept as often as it occurs, duplicates included, and a row that does not match is never kept. |
| BulkCalculator.FilterRowsSubMultiset | frontend/components/calculators/BulkCalculator.tsx:297-301 | Filtering takes no row more often than it occurs. |
| BulkCalculator.EmptyFilterKeepsAll | frontend/components/calculators/BulkCalculator.tsx:295-302 | The empty filter keeps every row. |
| BulkCalculator.FieldText | frontend/components/calculators/BulkCalculator.tsx:319-320 | `String(a[field])` with `''` in place of a falsy value, for the text columns: the field's text, "true" or "" for `is_eligible`, the message or "", and "" for an unknown field. Definition only. |
| BulkCalculator.KeyOf | frontend/components/calculators/BulkCalculator.tsx:307-320 | The value the comparator looks at. It is a number exactly for `years_of_service` and `gratuity_amount`, the amount read by `parseFloat`, and otherwise the lower-cased `FieldText`. |
| BulkCalculator.RowOrder | frontend/components/calculators/BulkCalculator.tsx:305-326 | The comparator as an order: `KeyLe` of the two keys, with the arguments swapped for descending. `RowOrderTotalPreorder` and `DescIsFlippedAsc` state its properties. |
| BulkCalculator.KeyLeTotalPreorder | frontend/components/calculators/BulkCalculator.tsx:307-325 | The comparison of sort keys is total and transitive. |
| BulkCalculator.RowOrderTotalPreorder | frontend/components/calculators/BulkCalculator.tsx:305-326 | The comparator's order is a total preorder in either direction. |
| BulkCalculator.DescIsFlippedAsc | frontend/components/calculators/BulkCalculator.tsx:315-324 | The descending order is the ascending order with its arguments swapped. |
| BulkCalculator.CsvFields | frontend/components/calculators/BulkCalculator.tsx:250-261 | The ten cells of one result, as many as there are headers. `CsvLineCells` states their content. |
| BulkCalculator.CsvLine | frontend/components/calculators/BulkCalculator.tsx:263 | A result's cells joined with commas. Definition only; `CsvLineCells` states that it splits back into its cells. |
| BulkCalculator.HeaderLine | frontend/components/calculators/BulkCalculator.tsx:234-247 | The ten column names joined with commas. Definition only; `HeaderLineCells` states that it splits back into them. |
| BulkCalculator.CsvText | frontend/components/calculators/BulkCalculator.tsx:231-264 | The text `handleDownload` builds. It starts with the data-URI prefix; `CsvTextLines` states the lines after it. |
| BulkCalculator.CsvLineCells | frontend/components/calculators/BulkCalculator.tsx:250-263 | Without commas in the cells, a line splits into its ten cells. The name and the message are quoted, with no message as "". Eligibility is Yes or No. |
| BulkCalculator.HeaderLineCells | frontend/components/calculators/BulkCalculator.tsx:235-247 | The header line splits into the ten column names. |
| BulkCalculator.RowLinesAt | frontend/components/calculators/BulkCalculator.tsx:250-264 | Data line `i` is the line of result `i`. |
| BulkCalculator.CsvTextLines | frontend/components/calculators/BulkCalculator.tsx:232-264 | Without line breaks in the cells, the export after its prefix splits into the header line, then the results' lines in original order, then the empty remainder after the final newline. |
| BulkCalculator.AppendLines | frontend/components/calculators/BulkCalculator.tsx:247-264 | The loop appends the header, then every result's line, each followed by a newline. |
| BulkCalculator.NextSort | frontend/components/calculators/BulkCalculator.tsx:277-286 | The chosen field becomes the sort field. Another field starts ascending, and the same field flips the direction. |
| BulkCalculator.SortTwiceRestores | frontend/components/calculators/BulkCalculator.tsx:277-286 | Choosing the current field twice restores the direction. |
| BulkCalculator.BulkView.constructor | frontend/components/calculators/BulkCalculator.tsx:46-54 | The view starts with no file, error, preview or results, idle at 0%, sorted by employee_name ascending, with an empty filter. |
| BulkCalculator.BulkView.HandleFileChange | frontend/components/calculators/BulkCalculator.tsx:58-95 | The error, results and preview are cleared first, and any problem is reported. An accepted file is held, the status becomes preview and the preview is filled. Otherwise the file and status are kept. |
| BulkCalculator.BulkView.BeginSubmit | frontend/components/calculators/BulkCalculator.tsx:176-180 | Nothing happens without a file. Otherwise the status is uploading at 0%. |
| BulkCalculator.BulkView.FinishSubmit | frontend/components/calculators/BulkCalculator.tsx:199-224 | A result completes at 100%. A refusal records its detail or "Failed to process file" at 100%. An unreachable server records its message. Both failures end in the error status. |
| BulkCalculator.BulkView.HandleSort | frontend/components/calculators/BulkCalculator.tsx:277-286 | The new sort field and direction are `NextSort` of the old ones. |
| BulkCalculator.BulkView.SetFilter | frontend/components/calculators/BulkCalculator.tsx:587 | The filter becomes the typed value. |
| BulkCalculator.BulkView.SortedAndFilteredResults | frontend/components/calculators/BulkCalculator.tsx:289-327 | With no results the list is empty. Otherwise it is a permutation of the filtered rows, sorted by the chosen key and direction. The view's state is left unchanged. |
| BulkCalculator.BulkView.HandleDownload | frontend/components/calculators/BulkCalculator.tsx:228-264 | Without results there is nothing to download. Otherwise the text is exactly `CsvText` of the results, in their original order. |
| BulkCalculator.BulkView.HandleReset | frontend/components/calculators/BulkCalculator.tsx:330-345 | Every field returns to its initial value. |
| Sorting.SortBy | frontend/components/calculators/BulkCalculator.tsx:305 | The result is sorted by the comparison and is a permutation of the input. |
| Text.Trim | frontend/components/calculators/IndividualCalculator.tsx:68 | `String.prototype.trim`: leading, then trailing whitespace removed. Definition only; `TrimEmptyIff` and `TrimShape` state its meaning. |
| Text.TrimShape | frontend/components/calculators/BulkCalculator.tsx:134 | The trimmed text is no longer than the input and neither starts nor ends with whitespace. |
| Text.TrimEmptyIff | frontend/components/calculators/IndividualCalculator.tsx:68 | A string trims to empty exactly when it is all whitespace. |
| Text.Split | frontend/components/calculators/BulkCalculator.tsx:122-123 | `split` with a one-character separator: the pieces between separators, in order, and always at least one piece. |
| Text.Join | frontend/components/calculators/BulkCalculator.tsx:247 | `join` with a one-character separator. Definition only; `SplitJoin` and `JoinSplit` state that it undoes and is undone by `Split`. |
| Text.Contains | frontend/components/calculators/BulkCalculator.tsx:298-300 | `includes` as a recursive definition. `ContainsAt` states that an occurrence at any position makes it true. |
| Text.ContainsAt | frontend/components/calculators/BulkCalculator.tsx:298-300 | A piece found at some position is contained. |
| Text.ContainsEmpty | frontend/components/calculators/BulkCalculator.tsx:295-302 | Every text contains the empty text. |
| Text.SplitJoin | frontend/components/calculators/BulkCalculator.tsx:122-123 | Splitting the join of pieces free of the separator gives back the pieces. |
| Text.JoinSplit | frontend/components/calculators/BulkCalculator.tsx:247 | Joining the split pieces gives back the text. |
| Text.ToLower | frontend/components/calculators/BulkCalculator.tsx:296 | `toLowerCase` on ASCII letters: the same length, every upper-case ASCII letter mapped to its lower-case form, and every other character kept. |
| Text.ToLowerIdempotent | frontend/components/calculators/BulkCalculator.tsx:296 | Lower-casing twice is lower-casing once. |
| Text.NatToString | frontend/components/calculators/BulkCalculator.tsx:256 | The decimal text of a natural number: at least one digit, only digits, and no leading zero. |
| Text.IntToString | frontend/components/calculators/BulkCalculator.tsx:256 | `String(n)` for an integral number: "-" and the digits of the magnitude for a negative one. Definition only. |
| Text.NatToStringRoundTrip | frontend/components/calculators/BulkCalculator.tsx:256 | The decimal digits of a number read back as that number. |

## Left out

- dateutil's `relativedelta` is not computed. Its (years, months, days) span is an input.
- Python `Decimal`'s 28-significant-digit context is not modelled. Amounts are exact rationals, so an intermediate rounding at the 28th digit is not represented.
- GratuityUtils.CalculateGratuity: `years_of_service` is declared `Decimal` and modelled as an exact rational. A float argument would be doubled in binary floating point before `int()` truncates it, and `years_of_service_raw` in the breakdown would echo the float. Neither is modelled.
- GratuityService.GratuityAmount: `years_of_service` is declared `float`, but the model takes an `int`. The only caller passes the `int` that `calculate_years_of_service` returns, and `Decimal` of an `int` is exact. A fractional float would enter `Decimal(years_of_service)` as its exact binary value; that case is not modelled.
- `fetch`, the request URLs and JSON encoding are left out. A request's end is the `Outcome` passed to `FinishSubmit`.
- `FileReader` is asynchronous, but the model treats the read as immediate: the read text is passed to `HandleFileChange`.
- The `setInterval` progress simulation of the bulk upload is left out. Progress is set only where the handler sets it: 0, then 100.
- BulkCalculator.BulkView.FinishSubmit: after an unreachable server the real progress is whatever the timer last set. The model leaves it unchanged.
- DOM work is left out: the download link, `encodeURI`, `link.click()`, the template download, drag and drop, and the file input's reset.
- `Number`, `parseFloat` and `new Date` are parameters, not implementations. Their floating-point and date-parsing behaviour is not modelled.
- BulkCalculator.KeyOf: a `parseFloat` that yields NaN, which makes the comparator inconsistent, is not modelled. `parseAmount` returns a number.
- BulkCalculator.RowOf: a preview row is a `map`, which has no key order. The JavaScript object `generatePreview` builds keeps an order, and the preview table reads it by position (`Object.keys(previewData[0])` for the headings at BulkCalculator.tsx:509, `Object.values(row)` for the cells at :519). The model therefore leaves out two rules. A repeated trimmed header stays at its first position but holds the last column's value, which `RowPrefixValue` does state. Integer-like keys are moved to the front, in ascending order.
- `localeCompare` is an assumed total preorder, not a locale's collation.
- Text.ToLower: only ASCII letters are lower-cased; `toLowerCase` also maps other scripts.
- Text.IsWhitespace: it covers the common whitespace characters. Rarer Unicode space separators of `trim` are not included.
- Sorting.SortBy: stability of `Array.prototype.sort` is not stated. The result is a sorted permutation.
- Registering the handlers with FastAPI, the dispatch by exception type, and logging are left out.
- Pydantic's parsing of the request body into dates and decimals is left out. Only the two constraints are modelled.
- The API routes, the mock routes with float arithmetic, configuration, middleware and security helpers are outside this core.
- The bulk evaluator that the bulk tests import is not in the source, so it is not modelled.
- Rendering and presentation components are not modelled.
