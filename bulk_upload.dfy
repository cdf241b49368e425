/**
 * The generic uploader of src/components/BulkUpload.tsx: per-type configuration, the
 * validation state it keeps for a parsed file, the upload guard and the sample file it
 * offers. The database calls are parameters; a sample value such as `50` is its text.
 */
module BulkUpload {
  import opened Wrappers
  import opened Strings
  import opened Lists
  import opened Validation
  import DataValidator

  datatype UploadType = Students | Payments | FeeItems

  /** The `type` string handed to `validateData`. */
  function TypeName(t: UploadType): (r: string)
    ensures r == "students" || r == "payments" || r == "fee_items"
  {
    match t
    case Students => "students"
    case Payments => "payments"
    case FeeItems => "fee_items"
  }

  /** A sample row: its fields in declaration order. */
  type SampleRow = seq<(string, string)>

  datatype TypeConfig = TypeConfig(title: string, requiredFields: seq<string>, sampleData: seq<SampleRow>)

  /** `getTypeConfig`. */
  function Config(t: UploadType): TypeConfig
  {
    match t
    case Students => TypeConfig("Upload Students", ["name", "class_name"], [
      [("name", "Ahmed Hassan"), ("class_name", "Grade 1")],
      [("name", "Fatima Ali"), ("class_name", "Grade 2")],
      [("name", "Omar Mohamed"), ("class_name", "Grade 1")]])
    case Payments => TypeConfig("Upload Payments", ["student_name", "class_name", "fee_item", "status"], [
      [("student_name", "Ahmed Hassan"), ("class_name", "Grade 1"), ("fee_item", "Monthly Tuition"), ("status", "paid"), ("amount", "50"), ("date", "2024-01-15")],
      [("student_name", "Fatima Ali"), ("class_name", "Grade 2"), ("fee_item", "Exam Fee"), ("status", "unpaid"), ("amount", "25"), ("date", "")]])
    case FeeItems => TypeConfig("Upload Fee Items", ["name", "amount"], [
      [("name", "Monthly Tuition"), ("amount", "50")],
      [("name", "Exam Fee"), ("amount", "25")],
      [("name", "Library Fee"), ("amount", "10")]])
  }

  // ---------------------------------------------------------------- sample file

  function FieldName(f: (string, string)): string { f.0 }

  function FieldValue(f: (string, string)): string { f.1 }

  function ValueLine(row: SampleRow): string
  {
    Join(Values(row), ",")
  }

  /** `downloadSample`: the first row's keys, then each row's values, comma-joined, one line each. */
  function SampleCsv(rows: seq<SampleRow>): string
    requires |rows| > 0
  {
    Join(SampleLines(rows), "\n")
  }

  /** No field name or value holds a comma or a line break, so the unquoted file reads back unchanged. */
  predicate PlainCells(rows: seq<SampleRow>)
  {
    forall i, j :: 0 <= i < |rows| && 0 <= j < |rows[i]| ==>
      ',' !in rows[i][j].0 && '\n' !in rows[i][j].0 && ',' !in rows[i][j].1 && '\n' !in rows[i][j].1
  }

  function SplitCells(line: string): seq<string>
  {
    Split(line, ',')
  }

  function SampleLines(rows: seq<SampleRow>): seq<string>
    requires |rows| > 0
  {
    [Join(Map(rows[0], FieldName), ",")] + Map(rows, ValueLine)
  }

  function Values(row: SampleRow): seq<string>
  {
    Map(row, FieldValue)
  }

  lemma SampleLinesPlain(rows: seq<SampleRow>)
    requires |rows| > 0 && PlainCells(rows)
    ensures forall k :: 0 <= k < |SampleLines(rows)| ==> '\n' !in SampleLines(rows)[k]
  {
    JoinAvoids(Map(rows[0], FieldName), ",", '\n');
    forall i | 0 <= i < |rows|
      ensures '\n' !in ValueLine(rows[i])
    {
      JoinAvoids(Values(rows[i]), ",", '\n');
    }
  }

  lemma ValueLineCells(row: SampleRow)
    requires |row| > 0 && forall j :: 0 <= j < |row| ==> ',' !in row[j].1
    ensures SplitCells(ValueLine(row)) == Values(row)
  {
    SplitJoin(Values(row), ',');
  }

  lemma SampleCells(rows: seq<SampleRow>)
    requires |rows| > 0 && |rows[0]| > 0 && forall i :: 0 <= i < |rows| ==> |rows[i]| > 0
    requires PlainCells(rows)
    ensures Map(SampleLines(rows), SplitCells) == [Map(rows[0], FieldName)] + Map(rows, Values)
  {
    var got, want := Map(SampleLines(rows), SplitCells), [Map(rows[0], FieldName)] + Map(rows, Values);
    forall k | 0 <= k < |got|
      ensures got[k] == want[k]
    {
      if k == 0 {
        HeaderLineCells(rows);
      } else {
        ValueLineAt(rows, k - 1);
      }
    }
  }

  lemma HeaderLineCells(rows: seq<SampleRow>)
    requires |rows| > 0 && |rows[0]| > 0 && PlainCells(rows)
    ensures SplitCells(SampleLines(rows)[0]) == Map(rows[0], FieldName)
  {
    SplitJoin(Map(rows[0], FieldName), ',');
  }

  lemma ValueLineAt(rows: seq<SampleRow>, i: nat)
    requires i < |rows| && |rows[i]| > 0 && PlainCells(rows)
    ensures SplitCells(SampleLines(rows)[i + 1]) == Values(rows[i])
  {
    assert SampleLines(rows)[i + 1] == ValueLine(rows[i]);
    ValueLineCells(rows[i]);
  }

  /** Splitting the sample file into lines and cells gives back the header and every row's values. */
  lemma SampleCsvRoundTrip(rows: seq<SampleRow>)
    requires |rows| > 0 && |rows[0]| > 0 && forall i :: 0 <= i < |rows| ==> |rows[i]| > 0
    requires PlainCells(rows)
    ensures Map(Split(SampleCsv(rows), '\n'), SplitCells) == [Map(rows[0], FieldName)] + Map(rows, Values)
  {
    SampleLinesPlain(rows);
    SplitJoin(SampleLines(rows), '\n');
    SampleCells(rows);
  }

  // ---------------------------------------------------------------- state

  datatype UploadState = UploadState(
    uploadedData: seq<Row>, parseErrors: seq<DataValidator.ParseError>,
    validationErrors: seq<ValidationError>, isValid: bool, isUploading: bool)

  function Initial(): UploadState
  {
    UploadState([], [], [], false, false)
  }

  /** The validators' verdict on a file of the given type. */
  function ValidationOf(t: UploadType, data: seq<Row>, parsers: Parsers): ValidationResult
  {
    ValidateData(data, TypeName(t), parsers)
  }

  /** `handleFileProcessed`: an empty file is never valid; otherwise the validators decide. */
  function FileProcessed(s: UploadState, t: UploadType, data: seq<Row>, errors: seq<DataValidator.ParseError>, parsers: Parsers): UploadState
  {
    if |data| > 0 then
      var v := ValidationOf(t, data, parsers);
      UploadState(data, errors, v.errors, v.isValid, s.isUploading)
    else UploadState(data, errors, [], false, s.isUploading)
  }

  /** The state after a non-empty file, written with the verdict the validators returned. */
  lemma ProcessedWith(s: UploadState, t: UploadType, data: seq<Row>, errors: seq<DataValidator.ParseError>, parsers: Parsers, v: ValidationResult)
    requires |data| > 0 && v == ValidationOf(t, data, parsers)
    ensures FileProcessed(s, t, data, errors, parsers) == UploadState(data, errors, v.errors, v.isValid, s.isUploading)
  {
  }

  /** The state after an empty file: nothing to report and not valid. */
  lemma ProcessedEmpty(s: UploadState, t: UploadType, data: seq<Row>, errors: seq<DataValidator.ParseError>, parsers: Parsers)
    requires |data| == 0
    ensures FileProcessed(s, t, data, errors, parsers) == UploadState(data, errors, [], false, s.isUploading)
  {
  }

  /** `handleValidationComplete`: the panel's verdict overwrites the flag and the error list. */
  function ValidationCompleted(s: UploadState, isValid: bool, errors: seq<ValidationError>): UploadState
  {
    s.(isValid := isValid, validationErrors := errors)
  }

  /** A file is processed and, as the panel is shown for a non-empty file, its verdict comes back. */
  function FileChecked(s: UploadState, t: UploadType, data: seq<Row>, errors: seq<DataValidator.ParseError>, parsers: Parsers): UploadState
  {
    var p := FileProcessed(s, t, data, errors, parsers);
    if |data| > 0 then
      var verdict := DataValidator.Verdict(p.uploadedData, p.parseErrors, p.validationErrors);
      ValidationCompleted(p, verdict.0, verdict.2)
    else p
  }

  /**
   * Once the panel has reported, a non-empty file is valid exactly when the parser and the
   * validators both found nothing; parse errors block an upload that the validators passed.
   */
  lemma CheckedValidity(s: UploadState, t: UploadType, data: seq<Row>, errors: seq<DataValidator.ParseError>, parsers: Parsers)
    ensures var r := FileChecked(s, t, data, errors, parsers);
      && r.uploadedData == data && r.parseErrors == errors
      && (|data| == 0 ==> !r.isValid && r.validationErrors == [])
      && (|data| > 0 ==> (r.validationErrors == ValidateData(data, TypeName(t), parsers).errors
            && (r.isValid <==> errors == [] && ValidateData(data, TypeName(t), parsers).isValid)))
  {
    ValidateDataVerdict(data, TypeName(t), parsers);
  }

  /** `handleUpload`: the upload runs only for a valid, non-empty file. */
  function UploadStarts(s: UploadState): bool
  {
    s.isValid && |s.uploadedData| > 0
  }

  /** How the mutation settles: the inserted rows (`data?.length || 0`), or an error message. */
  datatype UploadOutcome = Uploaded(rowsReturned: Option<nat>) | UploadFailed(message: string)

  /** `resetUpload`. */
  function UploadReset(s: UploadState): UploadState
  {
    s.(uploadedData := [], parseErrors := [], validationErrors := [], isValid := false)
  }

  /**
   * The upload ends: with no school the call throws before reaching the database; success
   * reports the count and resets, failure reports the message and keeps the file.
   */
  function UploadSettled(s: UploadState, hasSchool: bool, outcome: UploadOutcome): (r: (UploadState, Option<nat>, Option<string>))
  {
    var s := s.(isUploading := false);
    if !hasSchool then (s, None, Some("School ID not found"))
    else match outcome
      case Uploaded(rows) => (UploadReset(s), Some(rows.GetOr(0)), None)
      case UploadFailed(message) => (s, None, Some(message))
  }

  /** Reset leaves nothing to upload, so a second upload cannot start until a new file arrives. */
  lemma ResetBlocksUpload(s: UploadState)
    ensures !UploadStarts(UploadReset(s))
    ensures UploadReset(s).isUploading == s.isUploading
  {
  }

  /** A failed upload keeps the file and its verdict, so it can be retried. */
  lemma FailureKeepsFile(s: UploadState, message: string)
    ensures var r := UploadSettled(s, true, UploadFailed(message));
      r.0 == s.(isUploading := false) && r.2 == Some(message) && r.1 == None
  {
  }

  class Uploader {
    const uploadType: UploadType
    var uploadedData: seq<Row>
    var parseErrors: seq<DataValidator.ParseError>
    var validationErrors: seq<ValidationError>
    var isValid: bool
    var isUploading: bool

    function State(): UploadState
      reads this
    {
      UploadState(uploadedData, parseErrors, validationErrors, isValid, isUploading)
    }

    constructor(t: UploadType)
      ensures State() == Initial() && uploadType == t
    {
      uploadType := t;
      uploadedData := [];
      parseErrors := [];
      validationErrors := [];
      isValid := false;
      isUploading := false;
    }

    method HandleFileProcessed(data: seq<Row>, errors: seq<DataValidator.ParseError>, parsers: Parsers)
      modifies this
      ensures State() == FileProcessed(old(State()), uploadType, data, errors, parsers)
    {
      ghost var before := State();
      uploadedData, parseErrors := data, errors;
      if |data| > 0 {
        var validation := ValidationOf(uploadType, data, parsers);
        validationErrors, isValid := validation.errors, validation.isValid;
        ProcessedWith(before, uploadType, data, errors, parsers, validation);
      } else {
        validationErrors, isValid := [], false;
        ProcessedEmpty(before, uploadType, data, errors, parsers);
      }
    }

    method HandleValidationComplete(valid: bool, errors: seq<ValidationError>)
      modifies this
      ensures State() == ValidationCompleted(old(State()), valid, errors)
    {
      isValid := valid;
      validationErrors := errors;
    }

    /** Returns the rows handed to the database, or `None` when the guard stops the upload. */
    method HandleUpload() returns (sent: Option<seq<Row>>)
      modifies this
      ensures sent.Some? <==> UploadStarts(old(State()))
      ensures sent.Some? ==> sent.value == uploadedData && State() == old(State()).(isUploading := true)
      ensures sent.None? ==> State() == old(State())
    {
      if !isValid || |uploadedData| == 0 {
        return None;
      }
      isUploading := true;
      sent := Some(uploadedData);
    }

    method OnUploadSettled(hasSchool: bool, outcome: UploadOutcome) returns (count: Option<nat>, error: Option<string>)
      modifies this
      ensures (State(), count, error) == UploadSettled(old(State()), hasSchool, outcome)
    {
      isUploading := false;
      count, error := None, None;
      if !hasSchool {
        error := Some("School ID not found");
      } else if outcome.Uploaded? {
        count := Some(outcome.rowsReturned.GetOr(0));
        uploadedData, parseErrors, validationErrors, isValid := [], [], [], false;
      } else {
        error := Some(outcome.message);
      }
    }

    method ResetUpload()
      modifies this
      ensures State() == UploadReset(old(State()))
    {
      uploadedData, parseErrors, validationErrors, isValid := [], [], [], false;
    }
  }
}
