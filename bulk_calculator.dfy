/**
 * The bulk calculator view: which uploaded files it accepts, the preview rows
 * it extracts from a CSV file, the upload status, sorting and filtering of the
 * returned results, their export as CSV text, and reset.
 */
module BulkCalculator {
  import opened Wrappers
  import opened Text
  import opened Sorting

  datatype UploadStatus = Idle | Uploading | Processing | Preview | Complete | Error
  datatype Direction = Asc | Desc
  datatype FileErrorType = ErrorType | WarningType
  datatype FileError = FileError(message: string, kind: FileErrorType)

  /** What the browser reports about a chosen file. */
  datatype SelectedFile = SelectedFile(name: string, mimeType: string, size: int)

  /** One employee's result as the bulk endpoint returns it. */
  datatype ResultRow = ResultRow(
    employeeName: string,
    joiningDate: string,
    leavingDate: string,
    lastDrawnSalary: string,
    yearsOfService: int,
    gratuityAmount: string,
    employeeType: string,
    terminationReason: string,
    isEligible: bool,
    message: Option<string>)

  datatype BulkResult = BulkResult(
    results: seq<ResultRow>,
    totalGratuityAmount: string,
    eligibleCount: int,
    ineligibleCount: int)

  /** A preview row: column header to cell text. */
  type PreviewRow = map<string, string>

  const ValidTypes: seq<string> := [
    "application/vnd.ms-excel",
    "application/vnd.openxmlformats-officedocument.spreadsheetml.sheet",
    "text/csv"
  ]
  const MaxFileSize: int := 5 * 1024 * 1024
  const InvalidTypeMessage: string := "Please upload a valid CSV or Excel file."
  const TooLargeMessage: string := "File size exceeds 5MB limit."
  const ExcelNote: string := "Preview not available for Excel files. File will be processed on submission."
  const SubmitFailedMessage: string := "Failed to process file"

  // ----- File acceptance -----

  /** The file is one of the three spreadsheet types and at most 5 MB. */
  predicate Accepted(f: SelectedFile) {
    f.mimeType in ValidTypes && f.size <= MaxFileSize
  }

  /** The checks of `handleFileChange`, type first, then size. */
  function FileProblem(f: SelectedFile): (e: Option<FileError>)
    ensures e.None? <==> Accepted(f)
    ensures f.mimeType !in ValidTypes ==> e == Some(FileError(InvalidTypeMessage, ErrorType))
    ensures f.mimeType in ValidTypes && f.size > MaxFileSize ==> e == Some(FileError(TooLargeMessage, ErrorType))
  {
    if f.mimeType !in ValidTypes then Some(FileError(InvalidTypeMessage, ErrorType))
    else if f.size > MaxFileSize then Some(FileError(TooLargeMessage, ErrorType))
    else None
  }

  /** The limit is 5,242,880 bytes, inclusive. */
  lemma SizeLimitBoundary(name: string)
    ensures Accepted(SelectedFile(name, "text/csv", 5242880))
    ensures !Accepted(SelectedFile(name, "text/csv", 5242881))
    ensures FileProblem(SelectedFile(name, "application/pdf", 5242881)) == Some(FileError(InvalidTypeMessage, ErrorType))
  {
  }

  // ----- CSV preview -----

  /** `values[index]?.trim() || ''`: the trimmed cell, or nothing when the line is short. */
  function Cell(values: seq<string>, k: nat): string {
    if k < |values| then Trim(values[k]) else ""
  }

  /** The row after the first `n` headers have been assigned, later headers overwriting earlier ones. */
  function RowPrefix(headers: seq<string>, values: seq<string>, n: nat): PreviewRow
    requires n <= |headers|
  {
    if n == 0 then map[] else RowPrefix(headers, values, n - 1)[Trim(headers[n - 1]) := Cell(values, n - 1)]
  }

  /** The row `generatePreview` builds for one line: keyed by exactly the trimmed headers. */
  function RowOf(headers: seq<string>, values: seq<string>): (row: PreviewRow)
    ensures row.Keys == HeaderKeys(headers, |headers|)
  {
    RowPrefixKeys(headers, values, |headers|);
    RowPrefix(headers, values, |headers|)
  }

  /** The trimmed header names. */
  function HeaderKeys(headers: seq<string>, n: nat): set<string>
    requires n <= |headers|
  {
    set k | 0 <= k < n :: Trim(headers[k])
  }

  /** A row has exactly one entry per trimmed header name. */
  lemma {:induction false} RowPrefixKeys(headers: seq<string>, values: seq<string>, n: nat)
    requires n <= |headers|
    ensures RowPrefix(headers, values, n).Keys == HeaderKeys(headers, n)
  {
    if n > 0 {
      RowPrefixKeys(headers, values, n - 1);
      assert HeaderKeys(headers, n) == HeaderKeys(headers, n - 1) + {Trim(headers[n - 1])};
    }
  }

  /** Under each header name stands the cell of its last column with that name. */
  lemma {:induction false} RowPrefixValue(headers: seq<string>, values: seq<string>, n: nat, k: nat)
    requires k < n <= |headers|
    requires forall j :: k < j < n ==> Trim(headers[j]) != Trim(headers[k])
    ensures Trim(headers[k]) in RowPrefix(headers, values, n)
    ensures RowPrefix(headers, values, n)[Trim(headers[k])] == Cell(values, k)
  {
    if k < n - 1 {
      RowPrefixValue(headers, values, n - 1, k);
    }
  }

  /** The rows for the given data lines, skipping blank ones, in order. */
  function PreviewOfLines(headers: seq<string>, lines: seq<string>): (rows: seq<PreviewRow>)
    ensures |rows| <= |lines|
    decreases |lines|
  {
    if lines == [] then []
    else
      var last := lines[|lines| - 1];
      PreviewOfLines(headers, lines[..|lines| - 1])
        + (if Trim(last) == "" then [] else [RowOf(headers, Split(last, ','))])
  }

  /** Every preview row is keyed by exactly the trimmed headers. */
  lemma {:induction false} PreviewRowsKeys(headers: seq<string>, lines: seq<string>)
    ensures forall r :: r in PreviewOfLines(headers, lines) ==> r.Keys == HeaderKeys(headers, |headers|)
    decreases |lines|
  {
    if lines != [] {
      PreviewRowsKeys(headers, lines[..|lines| - 1]);
      RowPrefixKeys(headers, Split(lines[|lines| - 1], ','), |headers|);
    }
  }

  /** One more line adds its row at the end, unless it is blank. */
  lemma PreviewOfLinesSnoc(headers: seq<string>, lines: seq<string>, line: string)
    ensures PreviewOfLines(headers, lines + [line])
         == PreviewOfLines(headers, lines) + (if Trim(line) == "" then [] else [RowOf(headers, Split(line, ','))])
  {
    assert (lines + [line])[..|lines|] == lines;
  }

  function Min(a: int, b: int): int {
    if a < b then a else b
  }

  /** The preview of a CSV text: lines 1 to 5 under the headers of line 0. */
  function CsvPreview(text: string): (rows: seq<PreviewRow>)
    ensures |rows| <= 5
  {
    var lines := Split(text, '\n');
    PreviewOfLines(Split(lines[0], ','), lines[1..Min(|lines|, 6)])
  }

  /** A CSV preview never shows more than five rows, each keyed by the trimmed headers. */
  lemma CsvPreviewShape(text: string)
    ensures |CsvPreview(text)| <= 5
    ensures var lines := Split(text, '\n');
            forall r :: r in CsvPreview(text) ==> r.Keys == HeaderKeys(Split(lines[0], ','), |Split(lines[0], ',')|)
  {
    var lines := Split(text, '\n');
    PreviewRowsKeys(Split(lines[0], ','), lines[1..Min(|lines|, 6)]);
  }

  /** What the preview of an accepted file shows: CSV rows, or a single note for Excel files. */
  function PreviewFor(f: SelectedFile, text: string): (rows: seq<PreviewRow>)
    ensures f.mimeType != "text/csv" ==> |rows| == 1 && rows[0].Keys == {"note"}
    ensures |rows| <= 5
  {
    if f.mimeType == "text/csv" then CsvPreview(text) else [map["note" := ExcelNote]]
  }

  /** The `headers.forEach` of `generatePreview`: one entry per header, later ones overwriting. */
  method BuildRow(headers: seq<string>, values: seq<string>) returns (row: PreviewRow)
    ensures row == RowOf(headers, values)
  {
    row := map[];
    var index := 0;
    while index < |headers|
      invariant 0 <= index <= |headers|
      invariant row == RowPrefix(headers, values, index)
    {
      row := row[Trim(headers[index]) := if index < |values| then Trim(values[index]) else ""];
      index := index + 1;
    }
  }

  /** The loop of `generatePreview` over the data lines: blank ones skipped, the others keyed by the headers. */
  method PreviewLines(headers: seq<string>, lines: seq<string>) returns (rows: seq<PreviewRow>)
    ensures rows == PreviewOfLines(headers, lines)
  {
    rows := [];
    var i := 0;
    while i < |lines|
      invariant 0 <= i <= |lines|
      invariant rows == PreviewOfLines(headers, lines[..i])
    {
      assert lines[..i + 1] == lines[..i] + [lines[i]];
      PreviewOfLinesSnoc(headers, lines[..i], lines[i]);
      if Trim(lines[i]) == "" {
        i := i + 1;
        continue;
      }
      var row := BuildRow(headers, Split(lines[i], ','));
      rows := rows + [row];
      i := i + 1;
    }
    assert lines[..i] == lines;
  }

  /**
   * `generatePreview`: for CSV, lines 1 to 5 of `text` (the file as FileReader
   * returns it), blank ones skipped, each as a map from trimmed header to trimmed cell.
   */
  method GeneratePreview(f: SelectedFile, text: string) returns (rows: seq<PreviewRow>)
    ensures rows == PreviewFor(f, text)
    ensures |rows| <= 5
  {
    if f.mimeType == "text/csv" {
      var lines := Split(text, '\n');
      var headers := Split(lines[0], ',');
      var stop := Min(|lines|, 6);
      rows := PreviewLines(headers, lines[1..stop]);
      CsvPreviewShape(text);
    } else {
      rows := [map["note" := ExcelNote]];
    }
  }

  // ----- Filtering and sorting -----

  /** One of the name, type or reason contains the (lower-cased) filter, ignoring case. */
  predicate Matches(r: ResultRow, lowerFilter: string) {
    || Contains(ToLower(r.employeeName), lowerFilter)
    || Contains(ToLower(r.employeeType), lowerFilter)
    || Contains(ToLower(r.terminationReason), lowerFilter)
  }

  /** `rows.filter(...)`: the matching rows, in their original order. */
  function FilterRows(rows: seq<ResultRow>, lowerFilter: string): (kept: seq<ResultRow>)
    ensures |kept| <= |rows|
  {
    if rows == [] then []
    else (if Matches(rows[0], lowerFilter) then [rows[0]] else []) + FilterRows(rows[1..], lowerFilter)
  }

  /** A row is kept exactly when it is among the rows and matches. */
  lemma {:induction false} FilterRowsMembership(rows: seq<ResultRow>, lowerFilter: string, x: ResultRow)
    ensures x in FilterRows(rows, lowerFilter) <==> x in rows && Matches(x, lowerFilter)
  {
    if rows != [] {
      FilterRowsMembership(rows[1..], lowerFilter, x);
      assert rows == [rows[0]] + rows[1..];
    }
  }

  /** Filtering keeps every occurrence of a matching row, duplicates included, and none of the others. */
  lemma {:induction false} FilterRowsMultiplicity(rows: seq<ResultRow>, lowerFilter: string)
    ensures forall x :: multiset(FilterRows(rows, lowerFilter))[x] == if Matches(x, lowerFilter) then multiset(rows)[x] else 0
  {
    if rows != [] {
      FilterRowsMultiplicity(rows[1..], lowerFilter);
      var head := if Matches(rows[0], lowerFilter) then [rows[0]] else [];
      var tail := FilterRows(rows[1..], lowerFilter);
      assert rows == [rows[0]] + rows[1..];
      assert FilterRows(rows, lowerFilter) == head + tail;
      forall x
        ensures multiset(FilterRows(rows, lowerFilter))[x] == if Matches(x, lowerFilter) then multiset(rows)[x] else 0
      {
        assert multiset(head + tail)[x] == multiset(head)[x] + multiset(tail)[x];
        assert multiset(rows)[x] == multiset([rows[0]])[x] + multiset(rows[1..])[x];
      }
    }
  }

  /** Filtering takes no row more often than it occurs. */
  lemma {:induction false} FilterRowsSubMultiset(rows: seq<ResultRow>, lowerFilter: string)
    ensures multiset(FilterRows(rows, lowerFilter)) <= multiset(rows)
  {
    if rows != [] {
      FilterRowsSubMultiset(rows[1..], lowerFilter);
      assert rows == [rows[0]] + rows[1..];
    }
  }

  /** The empty filter matches every row, so skipping it when empty changes nothing. */
  lemma {:induction false} EmptyFilterKeepsAll(rows: seq<ResultRow>)
    ensures FilterRows(rows, "") == rows
  {
    if rows != [] {
      ContainsEmpty(ToLower(rows[0].employeeName));
      EmptyFilterKeepsAll(rows[1..]);
    }
  }

  /** The filter step of `getSortedAndFilteredResults`. */
  function Filtered(rows: seq<ResultRow>, filterValue: string): (kept: seq<ResultRow>)
    ensures |kept| <= |rows|
    ensures filterValue == "" ==> kept == rows
  {
    if filterValue == "" then rows else FilterRows(rows, ToLower(filterValue))
  }

  /** `String(a[field] || '')`: the field's text, with a false, missing or unknown field as empty. */
  function FieldText(r: ResultRow, field: string): string {
    if field == "employee_name" then r.employeeName
    else if field == "joining_date" then r.joiningDate
    else if field == "leaving_date" then r.leavingDate
    else if field == "last_drawn_salary" then r.lastDrawnSalary
    else if field == "employee_type" then r.employeeType
    else if field == "termination_reason" then r.terminationReason
    else if field == "is_eligible" then (if r.isEligible then "true" else "")
    else if field == "message" then r.message.GetOr("")
    else ""
  }

  /** What the comparator looks at: a number for the two numeric columns, else lower-cased text. */
  datatype SortKey = Num(n: real) | Txt(t: string)

  /** `parseAmount` stands for `parseFloat` on the amount text. */
  function KeyOf(r: ResultRow, field: string, parseAmount: string -> real): (k: SortKey)
    ensures k.Num? <==> field == "years_of_service" || field == "gratuity_amount"
  {
    if field == "years_of_service" then Num(r.yearsOfService as real)
    else if field == "gratuity_amount" then Num(parseAmount(r.gratuityAmount))
    else Txt(ToLower(FieldText(r, field)))
  }

  /** Numbers by value, texts by `textLe` (standing for `localeCompare(a, b) <= 0`). */
  predicate KeyLe(textLe: (string, string) -> bool, a: SortKey, b: SortKey) {
    match (a, b)
    case (Num(x), Num(y)) => x <= y
    case (Txt(x), Txt(y)) => textLe(x, y)
    case (Num(_), Txt(_)) => true
    case (Txt(_), Num(_)) => false
  }

  /** The order the comparator of `getSortedAndFilteredResults` puts rows in. */
  function RowOrder(field: string, dir: Direction, textLe: (string, string) -> bool, parseAmount: string -> real)
    : (ResultRow, ResultRow) -> bool
  {
    (a: ResultRow, b: ResultRow) =>
      if dir == Asc then KeyLe(textLe, KeyOf(a, field, parseAmount), KeyOf(b, field, parseAmount))
      else KeyLe(textLe, KeyOf(b, field, parseAmount), KeyOf(a, field, parseAmount))
  }

  lemma KeyLeTotalPreorder(textLe: (string, string) -> bool, a: SortKey, b: SortKey, c: SortKey)
    requires TotalPreorder(textLe)
    ensures KeyLe(textLe, a, b) || KeyLe(textLe, b, a)
    ensures KeyLe(textLe, a, b) && KeyLe(textLe, b, c) ==> KeyLe(textLe, a, c)
  {
    if a.Txt? && b.Txt? {
      assert textLe(a.t, b.t) || textLe(b.t, a.t);
      if c.Txt? {
        assert textLe(a.t, b.t) && textLe(b.t, c.t) ==> textLe(a.t, c.t);
      }
    }
  }

  /** For a sorting comparison on text, the row order in either direction is one too. */
  lemma RowOrderTotalPreorder(field: string, dir: Direction, textLe: (string, string) -> bool, parseAmount: string -> real)
    requires TotalPreorder(textLe)
    ensures TotalPreorder(RowOrder(field, dir, textLe, parseAmount))
  {
    var le := RowOrder(field, dir, textLe, parseAmount);
    forall a, b ensures le(a, b) || le(b, a) {
      KeyLeTotalPreorder(textLe, KeyOf(a, field, parseAmount), KeyOf(b, field, parseAmount), KeyOf(a, field, parseAmount));
    }
    forall a, b, c | le(a, b) && le(b, c) ensures le(a, c) {
      var ka, kb, kc := KeyOf(a, field, parseAmount), KeyOf(b, field, parseAmount), KeyOf(c, field, parseAmount);
      if dir == Asc {
        KeyLeTotalPreorder(textLe, ka, kb, kc);
      } else {
        KeyLeTotalPreorder(textLe, kc, kb, ka);
      }
    }
  }

  /** The descending order is the ascending order read backwards. */
  lemma DescIsFlippedAsc(field: string, textLe: (string, string) -> bool, parseAmount: string -> real, a: ResultRow, b: ResultRow)
    ensures RowOrder(field, Desc, textLe, parseAmount)(a, b) == RowOrder(field, Asc, textLe, parseAmount)(b, a)
  {
  }

  // ----- CSV export -----

  const CsvPrefix: string := "data:text/csv;charset=utf-8,"
  const CsvHeaders: seq<string> := LeadingHeaders + TrailingHeaders
  const LeadingHeaders: seq<string> := ["Employee Name", "Joining Date", "Leaving Date", "Last Drawn Salary", "Years of Service"]
  const TrailingHeaders: seq<string> := ["Gratify Amount", "Employee Type", "Termination Reason", "Eligible", "Message"]

  function Quoted(s: string): string {
    "\"" + s + "\""
  }

  /** The ten cells written for one result. */
  function CsvFields(r: ResultRow): (cells: seq<string>)
    ensures |cells| == |CsvHeaders|
  {
    [ Quoted(r.employeeName), r.joiningDate, r.leavingDate, r.lastDrawnSalary,
      IntToString(r.yearsOfService), r.gratuityAmount, r.employeeType, r.terminationReason,
      if r.isEligible then "Yes" else "No", Quoted(r.message.GetOr("")) ]
  }

  function CsvLine(r: ResultRow): string {
    Join(CsvFields(r), ',')
  }

  function HeaderLine(): string {
    Join(CsvHeaders, ',')
  }

  /** The data lines, one per result, in the order of the results. */
  function RowLines(rows: seq<ResultRow>): (ls: seq<string>)
    ensures |ls| == |rows|
  {
    if rows == [] then [] else RowLines(rows[..|rows| - 1]) + [CsvLine(rows[|rows| - 1])]
  }

  /** Line `i` of the data lines is the line of result `i`. */
  lemma {:induction false} RowLinesAt(rows: seq<ResultRow>, i: nat)
    requires i < |rows|
    ensures RowLines(rows)[i] == CsvLine(rows[i])
  {
    if i < |rows| - 1 {
      RowLinesAt(rows[..|rows| - 1], i);
    }
  }

  /** Lines each followed by a newline. */
  function Terminated(lines: seq<string>): string {
    if lines == [] then "" else lines[0] + "\n" + Terminated(lines[1..])
  }

  lemma {:induction false} TerminatedSnoc(lines: seq<string>, line: string)
    ensures Terminated(lines + [line]) == Terminated(lines) + line + "\n"
  {
    if lines != [] {
      assert (lines + [line])[1..] == lines[1..] + [line];
      TerminatedSnoc(lines[1..], line);
    }
  }

  /** Terminating every line is joining them with a final empty line. */
  lemma {:induction false} TerminatedIsJoin(lines: seq<string>)
    ensures Terminated(lines) == Join(lines + [""], '\n')
  {
    if lines != [] {
      TerminatedIsJoin(lines[1..]);
      assert (lines + [""])[1..] == lines[1..] + [""];
    }
  }

  /** The text `handleDownload` builds: the data-URI prefix, the header line, then one line per result. */
  function CsvText(rows: seq<ResultRow>): (text: string)
    ensures |CsvPrefix| < |text| && text[..|CsvPrefix|] == CsvPrefix
  {
    CsvPrefix + Terminated([HeaderLine()] + RowLines(rows))
  }

  predicate CellsFreeOf(r: ResultRow, c: char) {
    forall k :: 0 <= k < |CsvFields(r)| ==> c !in CsvFields(r)[k]
  }

  /**
   * Without commas in the cells, a data line splits back into its ten cells: the
   * name and the message quoted (no message as empty), eligibility as Yes or No.
   */
  lemma CsvLineCells(r: ResultRow)
    requires CellsFreeOf(r, ',')
    ensures Split(CsvLine(r), ',') == CsvFields(r)
    ensures var cells := Split(CsvLine(r), ',');
            && |cells| == 10
            && cells[0] == "\"" + r.employeeName + "\""
            && cells[1] == r.joiningDate && cells[2] == r.leavingDate && cells[3] == r.lastDrawnSalary
            && cells[4] == IntToString(r.yearsOfService) && cells[5] == r.gratuityAmount
            && cells[6] == r.employeeType && cells[7] == r.terminationReason
            && cells[8] == (if r.isEligible then "Yes" else "No")
            && cells[9] == "\"" + r.message.GetOr("") + "\""
  {
    SplitJoin(CsvFields(r), ',');
  }

  /** Cells with neither a comma nor a line break. */
  predicate PlainCells(parts: seq<string>) {
    forall k :: 0 <= k < |parts| ==> ',' !in parts[k] && '\n' !in parts[k]
  }

  lemma PlainSplitJoin(parts: seq<string>)
    requires |parts| >= 1 && PlainCells(parts)
    ensures Split(Join(parts, ','), ',') == parts
  {
    SplitJoin(parts, ',');
  }

  lemma PlainJoinSingle(parts: seq<string>)
    requires PlainCells(parts)
    ensures '\n' !in Join(parts, ',')
  {
    JoinFreeOf(parts, ',', '\n');
  }

  /** The column names hold neither commas nor line breaks. */
  lemma HeadersPlain()
    ensures PlainCells(CsvHeaders)
  {
    LeadingHeadersPlain();
    TrailingHeadersPlain();
    PlainCellsConcat(LeadingHeaders, TrailingHeaders);
  }

  lemma PlainCellsConcat(a: seq<string>, b: seq<string>)
    requires PlainCells(a) && PlainCells(b)
    ensures PlainCells(a + b)
  {
    forall k | 0 <= k < |a + b| ensures ',' !in (a + b)[k] && '\n' !in (a + b)[k] {
      if k >= |a| {
        assert (a + b)[k] == b[k - |a|];
      }
    }
  }

  lemma LeadingHeadersPlain()
    ensures PlainCells(LeadingHeaders)
  {
  }

  lemma TrailingHeadersPlain()
    ensures PlainCells(TrailingHeaders)
  {
  }

  /** The header line splits into the ten column names. */
  lemma HeaderLineCells()
    ensures Split(HeaderLine(), ',') == CsvHeaders
  {
    HeadersPlain();
    PlainSplitJoin(CsvHeaders);
  }

  /** Lines without line breaks, each terminated, split back into those lines and a final empty one. */
  lemma TerminatedLines(lines: seq<string>)
    requires forall k :: 0 <= k < |lines| ==> '\n' !in lines[k]
    ensures Split(Terminated(lines), '\n') == lines + [""]
  {
    TerminatedIsJoin(lines);
    assert forall k :: 0 <= k < |lines + [""]| ==> '\n' !in (lines + [""])[k];
    SplitJoin(lines + [""], '\n');
  }

  /** The header line holds no line break. */
  lemma HeaderLineSingle()
    ensures '\n' !in HeaderLine()
  {
    HeadersPlain();
    PlainJoinSingle(CsvHeaders);
  }

  /** Results' lines hold no line break when their cells hold none. */
  lemma RowLinesSingle(rows: seq<ResultRow>)
    requires forall i :: 0 <= i < |rows| ==> CellsFreeOf(rows[i], '\n')
    ensures forall i :: 0 <= i < |rows| ==> '\n' !in RowLines(rows)[i]
  {
    forall i | 0 <= i < |rows| ensures '\n' !in RowLines(rows)[i] {
      RowLinesAt(rows, i);
      JoinFreeOf(CsvFields(rows[i]), ',', '\n');
    }
  }

  /**
   * Without line breaks in the cells, the export after its prefix is the header
   * line, then the results' lines in their original order, each ended by a newline.
   */
  lemma CsvTextLines(rows: seq<ResultRow>)
    requires forall i :: 0 <= i < |rows| ==> CellsFreeOf(rows[i], '\n')
    ensures |CsvPrefix| <= |CsvText(rows)|
    ensures Split(CsvText(rows)[|CsvPrefix|..], '\n') == [HeaderLine()] + RowLines(rows) + [""]
  {
    HeaderLineSingle();
    RowLinesSingle(rows);
    ExportLines(HeaderLine(), RowLines(rows));
  }

  lemma ExportLines(header: string, lines: seq<string>)
    requires '\n' !in header
    requires forall i :: 0 <= i < |lines| ==> '\n' !in lines[i]
    ensures |CsvPrefix| <= |CsvPrefix + Terminated([header] + lines)|
    ensures Split((CsvPrefix + Terminated([header] + lines))[|CsvPrefix|..], '\n') == [header] + lines + [""]
  {
    var all := [header] + lines;
    assert forall k :: 0 <= k < |all| ==> '\n' !in all[k];
    TerminatedLines(all);
    assert (CsvPrefix + Terminated(all))[|CsvPrefix|..] == Terminated(all);
  }

  /** Joining pieces free of `c` with another separator gives a string free of `c`. */
  lemma {:induction false} JoinFreeOf(parts: seq<string>, sep: char, c: char)
    requires sep != c
    requires forall k :: 0 <= k < |parts| ==> c !in parts[k]
    ensures c !in Join(parts, sep)
  {
    if |parts| > 1 {
      JoinFreeOf(parts[1..], sep, c);
    }
  }

  /** Appending row `i`'s line extends the text by one result. */
  lemma AppendLineStep(prefix: string, header: string, rows: seq<ResultRow>, i: nat)
    requires i < |rows|
    ensures prefix + Terminated([header] + RowLines(rows[..i])) + CsvLine(rows[i]) + "\n"
         == prefix + Terminated([header] + RowLines(rows[..i + 1]))
  {
    var done := [header] + RowLines(rows[..i]);
    assert rows[..i + 1][..i] == rows[..i];
    assert [header] + RowLines(rows[..i + 1]) == done + [CsvLine(rows[i])];
    TerminatedSnoc(done, CsvLine(rows[i]));
  }

  /** The loop of `handleDownload`: the header line, then each result's line, each with a newline. */
  method AppendLines(prefix: string, header: string, rows: seq<ResultRow>) returns (content: string)
    ensures content == prefix + Terminated([header] + RowLines(rows))
  {
    content := prefix;
    content := content + header + "\n";
    var i := 0;
    while i < |rows|
      invariant 0 <= i <= |rows|
      invariant content == prefix + Terminated([header] + RowLines(rows[..i]))
    {
      AppendLineStep(prefix, header, rows, i);
      content := content + CsvLine(rows[i]) + "\n";
      i := i + 1;
    }
    assert rows[..i] == rows;
  }

  // ----- Sort selection -----

  /** `handleSort`: the same field flips the direction; another field starts ascending. */
  function NextSort(current: string, dir: Direction, chosen: string): (r: (string, Direction))
    ensures r.0 == chosen
    ensures current != chosen ==> r.1 == Asc
    ensures current == chosen ==> r.1 != dir
  {
    if current == chosen then (current, if dir == Asc then Desc else Asc) else (chosen, Asc)
  }

  /** Choosing the current field twice restores the direction. */
  lemma SortTwiceRestores(field: string, dir: Direction)
    ensures var once := NextSort(field, dir, field); NextSort(once.0, once.1, field) == (field, dir)
  {
  }

  // ----- The view state -----

  /** How the upload request ended. */
  datatype Outcome =
    | Received(result: BulkResult)
    | Refused(detail: Option<string>)
    | Unreachable(message: string)

  class BulkView {
    var file: Option<SelectedFile>
    var fileError: Option<FileError>
    var uploadStatus: UploadStatus
    var uploadProgress: int
    var previewData: seq<PreviewRow>
    var results: Option<BulkResult>
    var sortField: string
    var sortDirection: Direction
    var filterValue: string

    /** A held file was accepted, progress is a percentage, and a preview always has its file. */
    predicate Valid()
      reads this
    {
      && (file.Some? ==> Accepted(file.value))
      && 0 <= uploadProgress <= 100
      && (uploadStatus == Preview ==> file.Some?)
    }

    predicate IsInitial()
      reads this
    {
      && file == None && fileError == None && uploadStatus == Idle && uploadProgress == 0
      && previewData == [] && results == None
      && sortField == "employee_name" && sortDirection == Asc && filterValue == ""
    }

    constructor ()
      ensures IsInitial() && Valid()
    {
      file, fileError, uploadStatus, uploadProgress := None, None, Idle, 0;
      previewData, results := [], None;
      sortField, sortDirection, filterValue := "employee_name", Asc, "";
    }

    /**
     * `handleFileChange`: clears the error, results and preview; then a rejected file
     * leaves the held file and status as they were, and an accepted one is held,
     * moves the status to preview and fills the preview from `text`.
     */
    method HandleFileChange(selected: Option<SelectedFile>, text: string)
      requires Valid()
      modifies this
      ensures Valid()
      ensures results == None
      ensures selected.None? ==> fileError == None
      ensures selected.Some? ==> fileError == FileProblem(selected.value)
      ensures selected.Some? && Accepted(selected.value) ==>
                file == selected && uploadStatus == Preview && previewData == PreviewFor(selected.value, text)
      ensures !(selected.Some? && Accepted(selected.value)) ==>
                file == old(file) && uploadStatus == old(uploadStatus) && previewData == []
      ensures uploadProgress == old(uploadProgress) && sortField == old(sortField)
      ensures sortDirection == old(sortDirection) && filterValue == old(filterValue)
    {
      fileError := None;
      results := None;
      previewData := [];

      if selected.None? {
        return;
      }
      var f := selected.value;
      if f.mimeType !in ValidTypes {
        fileError := Some(FileError(InvalidTypeMessage, ErrorType));
        return;
      }
      if f.size > MaxFileSize {
        fileError := Some(FileError(TooLargeMessage, ErrorType));
        return;
      }

      file := Some(f);
      uploadStatus := Preview;
      previewData := GeneratePreview(f, text);
    }

    /** `handleSubmit` up to the request: nothing without a file, otherwise uploading from 0%. */
    method BeginSubmit() returns (sent: bool)
      requires Valid()
      modifies this
      ensures Valid()
      ensures sent <==> old(file).Some?
      ensures sent ==> uploadStatus == Uploading && uploadProgress == 0
      ensures !sent ==> uploadStatus == old(uploadStatus) && uploadProgress == old(uploadProgress)
      ensures file == old(file) && fileError == old(fileError) && results == old(results)
      ensures previewData == old(previewData) && sortField == old(sortField)
      ensures sortDirection == old(sortDirection) && filterValue == old(filterValue)
    {
      if file.None? {
        return false;
      }
      uploadStatus := Uploading;
      uploadProgress := 0;
      sent := true;
    }

    /**
     * The end of `handleSubmit`: a received result completes at 100%; a refusal
     * (at 100%) or an unreachable server records the error and ends in the error status.
     */
    method FinishSubmit(outcome: Outcome)
      requires Valid()
      modifies this
      ensures Valid()
      ensures outcome.Received? ==>
                uploadStatus == Complete && uploadProgress == 100 && results == Some(outcome.result)
                && fileError == old(fileError)
      ensures outcome.Refused? ==>
                uploadStatus == Error && uploadProgress == 100 && results == old(results)
                && fileError == Some(FileError(
                     if outcome.detail.Some? && outcome.detail.value != "" then outcome.detail.value else SubmitFailedMessage,
                     ErrorType))
      ensures outcome.Unreachable? ==>
                uploadStatus == Error && uploadProgress == old(uploadProgress) && results == old(results)
                && fileError == Some(FileError(outcome.message, ErrorType))
      ensures file == old(file) && previewData == old(previewData) && sortField == old(sortField)
      ensures sortDirection == old(sortDirection) && filterValue == old(filterValue)
    {
      match outcome {
        case Received(result) =>
          uploadProgress := 100;
          uploadStatus := Processing;
          results := Some(result);
          uploadStatus := Complete;
        case Refused(detail) =>
          uploadProgress := 100;
          var message := if detail.Some? && detail.value != "" then detail.value else SubmitFailedMessage;
          fileError := Some(FileError(message, ErrorType));
          uploadStatus := Error;
        case Unreachable(message) =>
          fileError := Some(FileError(message, ErrorType));
          uploadStatus := Error;
      }
    }

    /** `handleSort`. */
    method HandleSort(field: string)
      modifies this`sortField, this`sortDirection
      ensures (sortField, sortDirection) == NextSort(old(sortField), old(sortDirection), field)
    {
      if sortField == field {
        sortDirection := if sortDirection == Asc then Desc else Asc;
      } else {
        sortField := field;
        sortDirection := Asc;
      }
    }

    /** The filter box's change handler. */
    method SetFilter(value: string)
      modifies this`filterValue
      ensures filterValue == value
    {
      filterValue := value;
    }

    /**
     * `getSortedAndFilteredResults`: nothing without results; otherwise the filtered
     * copy of the results, ordered by the chosen field and direction.
     */
    method SortedAndFilteredResults(textLe: (string, string) -> bool, parseAmount: string -> real)
      returns (rows: seq<ResultRow>)
      requires TotalPreorder(textLe)
      ensures results.None? ==> rows == []
      ensures results.Some? ==> multiset(rows) == multiset(Filtered(results.value.results, filterValue))
      ensures SortedBy(rows, RowOrder(sortField, sortDirection, textLe, parseAmount))
    {
      if results.None? {
        return [];
      }
      var filtered := results.value.results;
      if filterValue != "" {
        filtered := FilterRows(filtered, ToLower(filterValue));
      }
      RowOrderTotalPreorder(sortField, sortDirection, textLe, parseAmount);
      rows := SortBy(filtered, RowOrder(sortField, sortDirection, textLe, parseAmount));
    }

    /** `handleDownload`: nothing without results; otherwise the CSV text, built line by line. */
    method HandleDownload() returns (csv: Option<string>)
      ensures results.None? ==> csv.None?
      ensures results.Some? ==> csv == Some(CsvText(results.value.results))
    {
      if results.None? {
        return None;
      }
      var header := HeaderLine();
      var content := AppendLines(CsvPrefix, header, results.value.results);
      csv := Some(content);
    }

    /** `handleReset`: every field back to its initial value. */
    method HandleReset()
      modifies this
      ensures IsInitial() && Valid()
    {
      file := None;
      fileError := None;
      uploadStatus := Idle;
      uploadProgress := 0;
      previewData := [];
      results := None;
      sortField := "employee_name";
      sortDirection := Asc;
      filterValue := "";
    }
  }
}
