/**
 * The validation summary panel of src/components/DataValidator.tsx: row and error counts,
 * the pass/fail verdict it reports back to its parent, and the truncated error lists.
 */
module DataValidator {
  import opened Lists
  import opened Validation

  /** A file-parser error as the panel shows it. */
  datatype ParseError = ParseError(row: int, message: string)

  datatype Summary = Summary(totalRows: int, validRows: int, totalErrors: int, hasErrors: bool)

  /** The counts as the panel computes them: every validation error is taken off the row count. */
  function SummaryAsWritten(data: seq<Row>, errors: seq<ParseError>, validationErrors: seq<ValidationError>): (r: Summary)
    ensures r.hasErrors <==> r.totalErrors > 0
    ensures r.totalErrors == |errors| + |validationErrors|
  {
    var totalErrors := |errors| + |validationErrors|;
    Summary(|data|, |data| - |validationErrors|, totalErrors, totalErrors > 0)
  }

  function RowOf(e: ValidationError): int
  {
    e.row
  }

  /** The distinct rows that have at least one validation error, in order of first error. */
  function ErrorRows(validationErrors: seq<ValidationError>): (r: seq<int>)
    ensures NoDup(r)
  {
    Distinct(Map(validationErrors, RowOf))
  }

  /** The counts with a row taken off once however many errors it has. */
  function SummaryCorrected(data: seq<Row>, errors: seq<ParseError>, validationErrors: seq<ValidationError>): (r: Summary)
    ensures r.hasErrors <==> r.totalErrors > 0
    ensures r.totalErrors == |errors| + |validationErrors|
    ensures r.validRows <= |data|
  {
    var totalErrors := |errors| + |validationErrors|;
    Summary(|data|, |data| - |ErrorRows(validationErrors)|, totalErrors, totalErrors > 0)
  }

  /**
   * The verdict the panel reports to its parent: valid exactly when there is no error of
   * either kind, with the rows and the validation errors passed on.
   */
  function Verdict(data: seq<Row>, errors: seq<ParseError>, validationErrors: seq<ValidationError>): (r: (bool, seq<Row>, seq<ValidationError>))
    ensures r.0 <==> errors == [] && validationErrors == []
    ensures r.1 == data && r.2 == validationErrors
  {
    (!SummaryAsWritten(data, errors, validationErrors).hasErrors, data, validationErrors)
  }

  /** The first ten validation errors are listed, then a count of the rest. */
  function ShownValidationErrors(validationErrors: seq<ValidationError>): (r: (seq<ValidationError>, nat))
    ensures |r.0| == (if |validationErrors| < 10 then |validationErrors| else 10) && r.0 <= validationErrors && |r.0| + r.1 == |validationErrors|
  {
    (Take(validationErrors, 10), MoreCount(validationErrors, 10))
  }

  /** The first five parse errors are listed, then a count of the rest. */
  function ShownParseErrors(errors: seq<ParseError>): (r: (seq<ParseError>, nat))
    ensures |r.0| == (if |errors| < 5 then |errors| else 5) && r.0 <= errors && |r.0| + r.1 == |errors|
  {
    (Take(errors, 5), MoreCount(errors, 5))
  }

  // ---------------------------------------------------------------- the row count

  lemma TwoMembers<T>(s: seq<T>, a: T, b: T)
    requires a in s && b in s && a != b
    ensures |s| >= 2
  {
  }

  /** A blank class cell gives its row at least two issues. */
  lemma BlankClassIssueCount(row: Row)
    requires Cell(row, "class_name") != "" && Blank(Cell(row, "class_name"))
    ensures |StudentIssues(row, [])| >= 2
  {
    var required := Issue("class_name", "class_name is required", Cell(row, "class_name"));
    var empty := Issue("class_name", "Class name cannot be empty", Cell(row, "class_name"));
    BlankClassTwoErrors(row, []);
    assert |required.message| != |empty.message|;
    TwoMembers(StudentIssues(row, []), required, empty);
  }

  /** A one-row input is checked against no accepted rows and reports as row 1. */
  lemma SweepOne(row: Row, check: (Row, seq<Record>) -> seq<Issue>, clean: Row -> Record)
    ensures check(row, []) != [] ==> Sweep([row], check, clean).errors == Stamp(check(row, []), 1)
  {
    assert [row][..0] == [];
  }

  /**
   * As written, one student row whose class cell is only spaces produces two errors, so the
   * panel reports one row of which minus one are valid.
   */
  lemma ValidRowsNegativeAsWritten(row: Row)
    requires Cell(row, "class_name") != "" && Blank(Cell(row, "class_name"))
    ensures SummaryAsWritten([row], [], ValidateStudents([row]).errors).validRows < 0
  {
    BlankClassIssueCount(row);
    SweepOne(row, StudentIssues, CleanStudent);
  }

  /** Each rejected row adds its row number, which is new, to the distinct error rows. */
  lemma {:induction false} SweepErrorRows(data: seq<Row>, check: (Row, seq<Record>) -> seq<Issue>, clean: Row -> Record)
    ensures var p := Sweep(data, check, clean);
      |ErrorRows(p.errors)| + |p.validData| == |data|
    decreases |data|
  {
    if data != [] {
      var init := data[..|data| - 1];
      var before := Sweep(init, check, clean);
      SweepErrorRows(init, check, clean);
      SweepAllOrNothing(init, check, clean);
      var issues := check(data[|data| - 1], before.validData);
      if issues != [] {
        var st := Stamp(issues, |data|);
        MapAppend(before.errors, st, RowOf);
        assert |data| !in Map(before.errors, RowOf);
        DistinctAppendSame(Map(before.errors, RowOf), Map(st, RowOf), |data|);
      }
    }
  }

  /** Counting each error row once, the valid-row figure is exactly the number of accepted rows. */
  lemma ValidRowsCorrected(data: seq<Row>, kind: string, parsers: Parsers)
    requires kind == "students" || kind == "payments" || kind == "fee_items"
    ensures var v := ValidateData(data, kind, parsers);
      SummaryCorrected(data, [], v.errors).validRows == |v.validData| >= 0
  {
    if kind == "students" {
      assert ValidateData(data, kind, parsers) == Finish(Sweep(data, StudentIssues, CleanStudent));
      CorrectedForSweep(data, StudentIssues, CleanStudent);
    } else if kind == "payments" {
      assert ValidateData(data, kind, parsers) == Finish(Sweep(data, PaymentCheck(parsers), PaymentClean(parsers)));
      CorrectedForSweep(data, PaymentCheck(parsers), PaymentClean(parsers));
    } else {
      assert ValidateData(data, kind, parsers) == Finish(Sweep(data, FeeItemCheck(parsers), FeeItemClean(parsers)));
      CorrectedForSweep(data, FeeItemCheck(parsers), FeeItemClean(parsers));
    }
  }

  /** The corrected figure for any one validator's walk. */
  lemma CorrectedForSweep(data: seq<Row>, check: (Row, seq<Record>) -> seq<Issue>, clean: Row -> Record)
    ensures var v := Finish(Sweep(data, check, clean));
      SummaryCorrected(data, [], v.errors).validRows == |v.validData|
  {
    SweepErrorRows(data, check, clean);
  }
}
