/**
 * The row validators of src/utils/validation.ts.
 *
 * Each validator walks the parsed rows in order. For every row it collects the row's
 * errors, checking duplicates only against the rows accepted so far; a row without
 * errors is accepted in cleaned form, otherwise all its errors are reported. The walk
 * is written once, as `Validate`, and specified by the recursive function `Sweep`;
 * the three validators differ only in their per-row check and cleaning.
 *
 * Cells are text: an absent column reads as '', which the code treats like any falsy
 * cell. `parseFloat`, the `Date` validity test and `toISOString` are left to the
 * JavaScript runtime and enter as the `Parsers` argument.
 */
module Validation {
  import opened Wrappers
  import opened Strings
  import opened Lists

  /** A parsed spreadsheet row: column name to cell text. */
  type Row = map<string, string>

  /** `row[field]`, with an absent column read as ''. */
  function Cell(row: Row, field: string): string
  {
    if field in row then row[field] else ""
  }

  /**
   * `!row[f] || row[f].toString().trim() === ''`: the cell is empty or only white space
   * (`BlankIsTrimEmpty` connects the two readings).
   */
  predicate Blank(s: string)
  {
    forall i :: 0 <= i < |s| ==> IsSpace(s[i])
  }

  lemma BlankIsTrimEmpty(s: string)
    ensures Blank(s) <==> Trim(s) == ""
  {
    TrimEmptyIff(s);
  }

  /** The comparison key of the duplicate checks: lower-cased, then trimmed. */
  function Key(s: string): string
  {
    Trim(ToLower(s))
  }

  datatype ValidationError = ValidationError(row: int, field: string, message: string, value: string)

  /** A row's error before the row number is attached. */
  datatype Issue = Issue(field: string, message: string, value: string)

  /** The cleaned rows the validators accept. */
  datatype Record =
    | StudentRecord(name: string, className: string)
    | PaymentRecord(studentName: string, className: string, feeItem: string, status: string,
                    amount: Option<real>, date: Option<string>)
    | FeeItemRecord(name: string, amount: Option<real>)

  datatype ValidationResult = ValidationResult(isValid: bool, errors: seq<ValidationError>, validData: seq<Record>)

  /**
   * What the validators leave to the JavaScript runtime: `parseFloat` (`None` for NaN),
   * whether `new Date(s)` is a valid date, and the `YYYY-MM-DD` part of its ISO form.
   */
  datatype Parsers = Parsers(parseFloat: string -> Option<real>, isValidDate: string -> bool, isoDay: string -> string)

  // ---------------------------------------------------------------- the shared walk

  /** The errors and accepted rows after some prefix of the input. */
  datatype Pass = Pass(errors: seq<ValidationError>, validData: seq<Record>)

  function Stamp(issues: seq<Issue>, rowNumber: int): (r: seq<ValidationError>)
    ensures |r| == |issues|
    ensures forall k :: 0 <= k < |r| ==> r[k] == ValidationError(rowNumber, issues[k].field, issues[k].message, issues[k].value)
  {
    if issues == [] then [] else [ValidationError(rowNumber, issues[0].field, issues[0].message, issues[0].value)] + Stamp(issues[1..], rowNumber)
  }

  /** One row, numbered from 1: accept its cleaned form when it has no issues, else report them all. */
  function Visit(p: Pass, row: Row, rowNumber: int, check: (Row, seq<Record>) -> seq<Issue>, clean: Row -> Record): Pass
  {
    var issues := check(row, p.validData);
    if issues == [] then Pass(p.errors, p.validData + [clean(row)])
    else Pass(p.errors + Stamp(issues, rowNumber), p.validData)
  }

  /** The walk over all rows, in order. */
  function Sweep(data: seq<Row>, check: (Row, seq<Record>) -> seq<Issue>, clean: Row -> Record): Pass
    decreases |data|
  {
    if data == [] then Pass([], [])
    else Visit(Sweep(data[..|data| - 1], check, clean), data[|data| - 1], |data|, check, clean)
  }

  function Finish(p: Pass): ValidationResult
  {
    ValidationResult(|p.errors| == 0, p.errors, p.validData)
  }

  /** The `forEach` loop shared by the three validators. */
  method Validate(data: seq<Row>, check: (Row, seq<Record>) -> seq<Issue>, clean: Row -> Record) returns (result: ValidationResult)
    ensures result == Finish(Sweep(data, check, clean))
  {
    var errors: seq<ValidationError> := [];
    var validData: seq<Record> := [];
    var index := 0;
    while index < |data|
      invariant 0 <= index <= |data|
      invariant Pass(errors, validData) == Sweep(data[..index], check, clean)
    {
      var row := data[index];
      var rowErrors := check(row, validData);
      if |rowErrors| == 0 {
        validData := validData + [clean(row)];
      } else {
        errors := errors + Stamp(rowErrors, index + 1);
      }
      assert data[..index + 1][..index] == data[..index];
      index := index + 1;
    }
    assert data[..index] == data;
    return ValidationResult(|errors| == 0, errors, validData);
  }

  /**
   * Each row is either accepted or reports errors, never both: the result is valid
   * exactly when every row was accepted, and every error carries a 1-based input row.
   */
  lemma {:induction false} SweepAllOrNothing(data: seq<Row>, check: (Row, seq<Record>) -> seq<Issue>, clean: Row -> Record)
    ensures var p := Sweep(data, check, clean);
      && |p.validData| <= |data|
      && (p.errors == [] <==> |p.validData| == |data|)
      && forall k :: 0 <= k < |p.errors| ==> 1 <= p.errors[k].row <= |data|
    decreases |data|
  {
    if data != [] {
      SweepAllOrNothing(data[..|data| - 1], check, clean);
    }
  }

  /** The error rows are in input order. */
  lemma {:induction false} SweepRowsOrdered(data: seq<Row>, check: (Row, seq<Record>) -> seq<Issue>, clean: Row -> Record)
    ensures var e := Sweep(data, check, clean).errors;
      forall k, l :: 0 <= k < l < |e| ==> e[k].row <= e[l].row
    decreases |data|
  {
    if data != [] {
      SweepRowsOrdered(data[..|data| - 1], check, clean);
      SweepAllOrNothing(data[..|data| - 1], check, clean);
    }
  }

  /** The last row either joins the accepted rows in cleaned form or leaves them as they were. */
  lemma SweepLast(data: seq<Row>, check: (Row, seq<Record>) -> seq<Issue>, clean: Row -> Record)
    requires data != []
    ensures var before := Sweep(data[..|data| - 1], check, clean).validData;
      var row := data[|data| - 1];
      var after := Sweep(data, check, clean).validData;
      && (check(row, before) == [] ==> after == before + [clean(row)])
      && (check(row, before) != [] ==> after == before)
  {
  }

  /** Any property of the accepted list that each acceptance preserves holds of the final list. */
  lemma {:induction false} SweepKeeps(data: seq<Row>, check: (Row, seq<Record>) -> seq<Issue>, clean: Row -> Record,
                                      inv: seq<Record> -> bool)
    requires inv([])
    requires forall row, accepted :: inv(accepted) && check(row, accepted) == [] ==> inv(accepted + [clean(row)])
    ensures inv(Sweep(data, check, clean).validData)
    decreases |data|
  {
    if data != [] {
      SweepKeeps(data[..|data| - 1], check, clean, inv);
      SweepLast(data, check, clean);
    }
  }

  /** The required-field checks, in field order. */
  function RequiredIssues(row: Row, fields: seq<string>): (r: seq<Issue>)
    ensures forall k :: 0 <= k < |r| ==>
      && r[k].field in fields && Blank(Cell(row, r[k].field))
      && r[k].message == r[k].field + " is required"
    ensures forall f :: f in fields && Blank(Cell(row, f)) ==> Issue(f, f + " is required", Cell(row, f)) in r
    ensures r == [] <==> forall f :: f in fields ==> !Blank(Cell(row, f))
  {
    if fields == [] then []
    else
      var f := fields[0];
      (if Blank(Cell(row, f)) then [Issue(f, f + " is required", Cell(row, f))] else []) + RequiredIssues(row, fields[1..])
  }

  /** The amount check shared by payments and fee items: a given amount must parse to a non-negative number. */
  function AmountIssues(amount: string, parsers: Parsers): (r: seq<Issue>)
    ensures r == [] <==> amount == "" || (parsers.parseFloat(amount).Some? && parsers.parseFloat(amount).value >= 0.0)
  {
    if amount != "" && (parsers.parseFloat(amount).None? || parsers.parseFloat(amount).value < 0.0)
    then [Issue("amount", "Amount must be a valid positive number", amount)] else []
  }

  /** The duplicate report: the position in the accepted rows, counted from 1. */
  function DuplicateIssues(prefix: string, duplicateIndex: int, name: string): (r: seq<Issue>)
    requires duplicateIndex >= -1
    ensures r == [] <==> duplicateIndex == -1
  {
    if duplicateIndex != -1
    then [Issue("name", prefix + NatToString(duplicateIndex + 1) + ")", name)]
    else []
  }

  /** A row has no issues exactly when none of its checks reports one. */
  lemma NoIssues3(a: seq<Issue>, b: seq<Issue>, c: seq<Issue>)
    ensures a + b + c == [] <==> a == [] && b == [] && c == []
  {
    assert |a + b + c| == |a| + |b| + |c|;
  }

  lemma NoIssues4(a: seq<Issue>, b: seq<Issue>, c: seq<Issue>, d: seq<Issue>)
    ensures a + b + c + d == [] <==> a == [] && b == [] && c == [] && d == []
  {
    assert |a + b + c + d| == |a| + |b| + |c| + |d|;
  }

  // ---------------------------------------------------------------- students

  const StudentRequired: seq<string> := ["name", "class_name"]

  /** The duplicate test of `validateStudentData`: same name and class, compared lower-cased and trimmed. */
  predicate SameStudent(r: Record, name: string, className: string)
  {
    r.StudentRecord? && Key(r.name) == Key(name) && Key(r.className) == Key(className)
  }

  const DuplicateStudentMessage := "Duplicate student name in the same class (also found in row "

  /** The name and class checks of one student row. */
  function StudentFieldIssues(name: string, className: string): (r: seq<Issue>)
    ensures r == [] <==> (name == "" || |Trim(name)| >= 2) && (className == "" || |Trim(className)| >= 1)
  {
    (if name != "" && |Trim(name)| < 2 then [Issue("name", "Name must be at least 2 characters long", name)] else [])
    + (if className != "" && |Trim(className)| < 1 then [Issue("class_name", "Class name cannot be empty", className)] else [])
  }

  function StudentIssues(row: Row, accepted: seq<Record>): seq<Issue>
  {
    var name := Cell(row, "name");
    var className := Cell(row, "class_name");
    RequiredIssues(row, StudentRequired)
    + StudentFieldIssues(name, className)
    + DuplicateIssues(DuplicateStudentMessage, FindIndex(accepted, r => SameStudent(r, name, className)), name)
  }

  /**
   * What the student checks demand of a row: name and class not blank, the trimmed name
   * at least 2 characters long, and no accepted row with the same name and class.
   */
  predicate StudentPasses(row: Row, accepted: seq<Record>)
  {
    && !Blank(Cell(row, "name")) && !Blank(Cell(row, "class_name")) && |Trim(Cell(row, "name"))| >= 2
    && forall k :: 0 <= k < |accepted| ==> !SameStudent(accepted[k], Cell(row, "name"), Cell(row, "class_name"))
  }

  lemma StudentRequiredPresent(row: Row)
    ensures RequiredIssues(row, StudentRequired) == [] <==> !Blank(Cell(row, "name")) && !Blank(Cell(row, "class_name"))
  {
    assert forall f :: f in StudentRequired <==> f == "name" || f == "class_name";
  }

  /** A student row is accepted exactly when it passes. */
  lemma StudentAcceptedIff(row: Row, accepted: seq<Record>)
    ensures StudentIssues(row, accepted) == [] <==> StudentPasses(row, accepted)
  {
    var name := Cell(row, "name");
    var className := Cell(row, "class_name");
    StudentRequiredPresent(row);
    BlankIsTrimEmpty(className);
    NoIssues3(RequiredIssues(row, StudentRequired), StudentFieldIssues(name, className),
      DuplicateIssues(DuplicateStudentMessage, FindIndex(accepted, r => SameStudent(r, name, className)), name));
  }

  function CleanStudent(row: Row): Record
  {
    StudentRecord(Trim(Cell(row, "name")), Trim(Cell(row, "class_name")))
  }

  function ValidateStudents(data: seq<Row>): ValidationResult
  {
    Finish(Sweep(data, StudentIssues, CleanStudent))
  }

  method ValidateStudentData(data: seq<Row>) returns (result: ValidationResult)
    ensures result == ValidateStudents(data)
  {
    result := Validate(data, StudentIssues, CleanStudent);
  }

  /** The key the duplicate test compares, for an accepted student. */
  function StudentKey(r: Record): (string, string)
  {
    if r.StudentRecord? then (Key(r.name), Key(r.className)) else ("", "")
  }

  /** Trimming before the key changes nothing. */
  lemma KeyOfTrim(s: string)
    ensures Key(Trim(s)) == Key(s)
  {
    TrimToLower(s);
    TrimIdempotent(ToLower(s));
  }

  predicate GoodStudent(r: Record)
  {
    r.StudentRecord? && |r.name| >= 2 && r.className != "" && Trimmed(r.name) && Trimmed(r.className)
  }

  /** Good students, no two with the same name and class. */
  predicate GoodStudents(v: seq<Record>)
  {
    (forall k :: 0 <= k < |v| ==> GoodStudent(v[k])) && NoDup(Map(v, StudentKey))
  }

  /** The cleaned form of a passing row is a good student. */
  lemma CleanStudentGood(row: Row)
    requires !Blank(Cell(row, "name")) && !Blank(Cell(row, "class_name")) && |Trim(Cell(row, "name"))| >= 2
    ensures GoodStudent(CleanStudent(row))
  {
    TrimmedIff(Cell(row, "name"));
    TrimmedIff(Cell(row, "class_name"));
    BlankIsTrimEmpty(Cell(row, "class_name"));
  }

  lemma StudentKeysDiffer(row: Row, accepted: seq<Record>)
    requires forall k :: 0 <= k < |accepted| ==> GoodStudent(accepted[k])
    requires forall k :: 0 <= k < |accepted| ==> !SameStudent(accepted[k], Cell(row, "name"), Cell(row, "class_name"))
    ensures forall k :: 0 <= k < |accepted| ==> StudentKey(accepted[k]) != StudentKey(CleanStudent(row))
  {
    KeyOfTrim(Cell(row, "name"));
    KeyOfTrim(Cell(row, "class_name"));
  }

  /** A passing student, added to good and distinct students, keeps them so. */
  lemma AcceptStudent(row: Row, accepted: seq<Record>)
    requires GoodStudents(accepted)
    requires StudentPasses(row, accepted)
    ensures GoodStudents(accepted + [CleanStudent(row)])
  {
    CleanStudentGood(row);
    StudentKeysDiffer(row, accepted);
    GoodStudentSnoc(accepted, CleanStudent(row));
    MapSnocNoDup(accepted, CleanStudent(row), StudentKey);
  }

  lemma GoodStudentSnoc(accepted: seq<Record>, student: Record)
    requires forall k :: 0 <= k < |accepted| ==> GoodStudent(accepted[k])
    requires GoodStudent(student)
    ensures forall k :: 0 <= k < |accepted + [student]| ==> GoodStudent((accepted + [student])[k])
  {
  }

  lemma StudentStep(row: Row, accepted: seq<Record>)
    requires GoodStudents(accepted) && StudentIssues(row, accepted) == []
    ensures GoodStudents(accepted + [CleanStudent(row)])
  {
    StudentAcceptedIff(row, accepted);
    AcceptStudent(row, accepted);
  }

  /**
   * Accepted students are trimmed, with a name of at least 2 characters and a non-empty
   * class, and no two of them share a (name, class) pair compared case-insensitively.
   */
  lemma StudentsAccepted(data: seq<Row>)
    ensures GoodStudents(ValidateStudents(data).validData)
  {
    forall row, accepted | GoodStudents(accepted) && StudentIssues(row, accepted) == []
      ensures GoodStudents(accepted + [CleanStudent(row)])
    {
      StudentStep(row, accepted);
    }
    SweepKeeps(data, StudentIssues, CleanStudent, GoodStudents);
  }

  lemma InIssues3(a: seq<Issue>, b: seq<Issue>, c: seq<Issue>, x: Issue)
    requires x in a || x in b || x in c
    ensures x in a + b + c
  {
  }

  lemma BlankClassRequired(row: Row)
    requires Blank(Cell(row, "class_name"))
    ensures Issue("class_name", "class_name is required", Cell(row, "class_name")) in RequiredIssues(row, StudentRequired)
  {
    assert "class_name" in StudentRequired;
    assert "class_name" + " is required" == "class_name is required";
  }

  lemma BlankClassField(name: string, className: string)
    requires className != "" && Blank(className)
    ensures Issue("class_name", "Class name cannot be empty", className) in StudentFieldIssues(name, className)
  {
    BlankIsTrimEmpty(className);
  }

  /** A class cell of only spaces yields two errors for its row: "required" and "cannot be empty". */
  lemma BlankClassTwoErrors(row: Row, accepted: seq<Record>)
    requires Cell(row, "class_name") != "" && Blank(Cell(row, "class_name"))
    ensures Issue("class_name", "class_name is required", Cell(row, "class_name")) in StudentIssues(row, accepted)
    ensures Issue("class_name", "Class name cannot be empty", Cell(row, "class_name")) in StudentIssues(row, accepted)
  {
    var name, className := Cell(row, "name"), Cell(row, "class_name");
    var a := RequiredIssues(row, StudentRequired);
    var b := StudentFieldIssues(name, className);
    var c := DuplicateIssues(DuplicateStudentMessage, FindIndex(accepted, r => SameStudent(r, name, className)), name);
    BlankClassRequired(row);
    BlankClassField(name, className);
    InIssues3(a, b, c, Issue("class_name", "class_name is required", className));
    InIssues3(a, b, c, Issue("class_name", "Class name cannot be empty", className));
  }

  /** A student row checked against its own accepted form reports a duplicate at position 1. */
  lemma RepeatedStudentRow(row: Row)
    requires StudentIssues(row, []) == []
    ensures StudentIssues(row, [CleanStudent(row)]) == [Issue("name", DuplicateStudentMessage + "1" + ")", Cell(row, "name"))]
  {
    var name, className := Cell(row, "name"), Cell(row, "class_name");
    StudentAcceptedIff(row, []);
    PassingStudentFields(row, []);
    KeyOfTrim(name);
    KeyOfTrim(className);
    var c := CleanStudent(row);
    assert SameStudent(c, name, className);
    assert FindIndex([c], r => SameStudent(r, name, className)) == 0;
    assert NatToString(1) == "1";
    assert DuplicateIssues(DuplicateStudentMessage, 0, name) == [Issue("name", DuplicateStudentMessage + "1" + ")", name)];
  }

  lemma PassingStudentFields(row: Row, accepted: seq<Record>)
    requires StudentPasses(row, accepted)
    ensures RequiredIssues(row, StudentRequired) == []
    ensures StudentFieldIssues(Cell(row, "name"), Cell(row, "class_name")) == []
  {
    StudentRequiredPresent(row);
    BlankIsTrimEmpty(Cell(row, "class_name"));
  }

  /** Three rows: the first rejected, the second accepted, the third rejected with one issue. */
  lemma SweepThree(r1: Row, r2: Row, r3: Row, check: (Row, seq<Record>) -> seq<Issue>, clean: Row -> Record)
    requires check(r1, []) != [] && check(r2, []) == [] && |check(r3, [clean(r2)])| == 1
    ensures var errors := Sweep([r1, r2, r3], check, clean).errors;
      var x := check(r3, [clean(r2)])[0];
      |errors| > 0 && errors[|errors| - 1] == ValidationError(3, x.field, x.message, x.value)
  {
    assert [r1, r2, r3][..2] == [r1, r2];
    assert [r1, r2][..1] == [r1];
    assert [r1][..0] == [];
    assert Sweep([], check, clean) == Pass([], []);
    var p1 := Sweep([r1], check, clean);
    assert p1 == Visit(Pass([], []), r1, 1, check, clean);
    assert p1.validData == [];
    var p2 := Sweep([r1, r2], check, clean);
    assert p2 == Visit(p1, r2, 2, check, clean);
    assert p2.validData == [clean(r2)];
    assert Sweep([r1, r2, r3], check, clean) == Visit(p2, r3, 3, check, clean);
    var issues := check(r3, [clean(r2)]);
    assert Sweep([r1, r2, r3], check, clean).errors == p2.errors + Stamp(issues, 3);
  }

  /**
   * The duplicate message counts positions among the accepted rows, not input rows: after a
   * rejected first row, a student repeated in rows 2 and 3 is reported in row 3 as "also
   * found in row 1".
   */
  lemma DuplicateCountsAcceptedRows(r1: Row, r2: Row)
    requires StudentIssues(r1, []) != [] && StudentIssues(r2, []) == []
    ensures var errors := ValidateStudents([r1, r2, r2]).errors;
      |errors| > 0 && errors[|errors| - 1] == ValidationError(3, "name", DuplicateStudentMessage + "1" + ")", Cell(r2, "name"))
  {
    var issue := Issue("name", DuplicateStudentMessage + "1" + ")", Cell(r2, "name"));
    RepeatedStudentRow(r2);
    var x := StudentIssues(r2, [CleanStudent(r2)]);
    assert x == [issue];
    assert |x| == 1 && x[0] == issue;
    SweepThree(r1, r2, r2, StudentIssues, CleanStudent);
    assert ValidateStudents([r1, r2, r2]).errors == Sweep([r1, r2, r2], StudentIssues, CleanStudent).errors;
  }

  // ---------------------------------------------------------------- payments

  const PaymentRequired: seq<string> := ["student_name", "class_name", "fee_item", "status"]

  const StatusMessage := "Status must be either \"paid\" or \"unpaid\""

  function StatusIssues(status: string): (r: seq<Issue>)
    ensures r == [] <==> status == "" || Key(status) == "paid" || Key(status) == "unpaid"
  {
    if status != "" && Key(status) != "paid" && Key(status) != "unpaid"
    then [Issue("status", StatusMessage, status)] else []
  }

  function DateIssues(date: string, parsers: Parsers): (r: seq<Issue>)
    ensures r == [] <==> date == "" || parsers.isValidDate(date)
  {
    if date != "" && !parsers.isValidDate(date)
    then [Issue("date", "Date must be in a valid format (YYYY-MM-DD)", date)] else []
  }

  function PaymentIssues(row: Row, parsers: Parsers): seq<Issue>
  {
    RequiredIssues(row, PaymentRequired)
    + StatusIssues(Cell(row, "status"))
    + AmountIssues(Cell(row, "amount"), parsers)
    + DateIssues(Cell(row, "date"), parsers)
  }

  /**
   * What the payment checks demand of a row: student, class, fee item and status not
   * blank, the status "paid" or "unpaid" ignoring case and surrounding spaces, a given
   * amount parsing to a non-negative number, and a given date valid.
   */
  predicate PaymentPasses(row: Row, parsers: Parsers)
  {
    var status := Cell(row, "status");
    var amount := Cell(row, "amount");
    var date := Cell(row, "date");
    && !Blank(Cell(row, "student_name")) && !Blank(Cell(row, "class_name"))
    && !Blank(Cell(row, "fee_item")) && !Blank(status)
    && (Key(status) == "paid" || Key(status) == "unpaid")
    && (amount == "" || (parsers.parseFloat(amount).Some? && parsers.parseFloat(amount).value >= 0.0))
    && (date == "" || parsers.isValidDate(date))
  }

  lemma PaymentRequiredPresent(row: Row)
    ensures RequiredIssues(row, PaymentRequired) == [] <==>
      && !Blank(Cell(row, "student_name")) && !Blank(Cell(row, "class_name"))
      && !Blank(Cell(row, "fee_item")) && !Blank(Cell(row, "status"))
  {
    RequiredOfFour(row, PaymentRequired);
  }

  /** Four required fields are all present exactly when none of them is blank. */
  lemma RequiredOfFour(row: Row, fields: seq<string>)
    requires |fields| == 4
    ensures RequiredIssues(row, fields) == [] <==>
      !Blank(Cell(row, fields[0])) && !Blank(Cell(row, fields[1])) && !Blank(Cell(row, fields[2])) && !Blank(Cell(row, fields[3]))
  {
    var present := f => !Blank(Cell(row, f));
    FourFields(fields, present);
    assert (forall f :: f in fields ==> present(f)) <==> (forall f :: f in fields ==> !Blank(Cell(row, f)));
  }

  lemma FourFields(fields: seq<string>, ok: string -> bool)
    requires |fields| == 4
    ensures (forall f :: f in fields ==> ok(f)) <==> ok(fields[0]) && ok(fields[1]) && ok(fields[2]) && ok(fields[3])
  {
    if ok(fields[0]) && ok(fields[1]) && ok(fields[2]) && ok(fields[3]) {
      forall f | f in fields
        ensures ok(f)
      {
        var i :| 0 <= i < 4 && fields[i] == f;
      }
    }
  }

  /** A payment row is accepted exactly when it passes. */
  lemma PaymentAcceptedIff(row: Row, parsers: Parsers)
    ensures PaymentIssues(row, parsers) == [] <==> PaymentPasses(row, parsers)
  {
    PaymentRequiredPresent(row);
    NoIssues4(RequiredIssues(row, PaymentRequired), StatusIssues(Cell(row, "status")),
      AmountIssues(Cell(row, "amount"), parsers), DateIssues(Cell(row, "date"), parsers));
  }

  function CleanPayment(row: Row, parsers: Parsers): Record
  {
    var amount := Cell(row, "amount");
    var date := Cell(row, "date");
    PaymentRecord(
      Trim(Cell(row, "student_name")), Trim(Cell(row, "class_name")), Trim(Cell(row, "fee_item")),
      Key(Cell(row, "status")),
      if amount != "" then parsers.parseFloat(amount) else None,
      if date != "" then Some(parsers.isoDay(date)) else None)
  }

  /** The per-row check and cleaning of `validatePaymentData`, as the walk takes them. */
  function PaymentCheck(parsers: Parsers): (Row, seq<Record>) -> seq<Issue>
  {
    (row, accepted) => PaymentIssues(row, parsers)
  }

  function PaymentClean(parsers: Parsers): Row -> Record
  {
    row => CleanPayment(row, parsers)
  }

  function ValidatePayments(data: seq<Row>, parsers: Parsers): ValidationResult
  {
    Finish(Sweep(data, PaymentCheck(parsers), PaymentClean(parsers)))
  }

  method ValidatePaymentData(data: seq<Row>, parsers: Parsers) returns (result: ValidationResult)
    ensures result == ValidatePayments(data, parsers)
  {
    result := Validate(data, PaymentCheck(parsers), PaymentClean(parsers));
  }

  predicate GoodPayment(r: Record)
  {
    && r.PaymentRecord?
    && r.studentName != "" && r.className != "" && r.feeItem != ""
    && (r.status == "paid" || r.status == "unpaid")
    && (r.amount.Some? ==> r.amount.value >= 0.0)
  }

  predicate GoodPayments(v: seq<Record>)
  {
    forall k :: 0 <= k < |v| ==> GoodPayment(v[k])
  }

  lemma CleanPaymentGood(row: Row, parsers: Parsers)
    requires PaymentPasses(row, parsers)
    ensures GoodPayment(CleanPayment(row, parsers))
  {
    BlankIsTrimEmpty(Cell(row, "student_name"));
    BlankIsTrimEmpty(Cell(row, "class_name"));
    BlankIsTrimEmpty(Cell(row, "fee_item"));
  }

  lemma AcceptPayment(row: Row, accepted: seq<Record>, parsers: Parsers)
    requires GoodPayments(accepted) && PaymentPasses(row, parsers)
    ensures GoodPayments(accepted + [CleanPayment(row, parsers)])
  {
    CleanPaymentGood(row, parsers);
  }

  lemma PaymentStep(row: Row, accepted: seq<Record>, parsers: Parsers)
    requires GoodPayments(accepted) && PaymentIssues(row, parsers) == []
    ensures GoodPayments(accepted + [CleanPayment(row, parsers)])
  {
    PaymentAcceptedIff(row, parsers);
    AcceptPayment(row, accepted, parsers);
  }

  /**
   * Accepted payments have non-blank student, class and fee item, a status normalised
   * to "paid" or "unpaid", and a non-negative amount when one was given.
   */
  lemma PaymentsAccepted(data: seq<Row>, parsers: Parsers)
    ensures GoodPayments(ValidatePayments(data, parsers).validData)
  {
    var check, clean := PaymentCheck(parsers), PaymentClean(parsers);
    forall row, accepted | GoodPayments(accepted) && check(row, accepted) == []
      ensures GoodPayments(accepted + [clean(row)])
    {
      PaymentStep(row, accepted, parsers);
    }
    SweepKeeps(data, check, clean, GoodPayments);
  }

  // ---------------------------------------------------------------- fee items

  const FeeItemRequired: seq<string> := ["name", "amount"]

  const DuplicateFeeItemMessage := "Duplicate fee item name (also found in row "

  predicate SameFeeItem(r: Record, name: string)
  {
    r.FeeItemRecord? && Key(r.name) == Key(name)
  }

  function FeeItemNameIssues(name: string): (r: seq<Issue>)
    ensures r == [] <==> name == "" || |Trim(name)| >= 2
  {
    if name != "" && |Trim(name)| < 2 then [Issue("name", "Fee item name must be at least 2 characters long", name)] else []
  }

  function FeeItemIssues(row: Row, accepted: seq<Record>, parsers: Parsers): seq<Issue>
  {
    var name := Cell(row, "name");
    RequiredIssues(row, FeeItemRequired)
    + FeeItemNameIssues(name)
    + AmountIssues(Cell(row, "amount"), parsers)
    + DuplicateIssues(DuplicateFeeItemMessage, FindIndex(accepted, r => SameFeeItem(r, name)), name)
  }

  /**
   * What the fee item checks demand of a row: a name not blank and at least 2 characters
   * once trimmed, an amount not blank that parses to a non-negative number, and no
   * accepted item with the same name.
   */
  predicate FeeItemPasses(row: Row, accepted: seq<Record>, parsers: Parsers)
  {
    var amount := Cell(row, "amount");
    && !Blank(Cell(row, "name")) && |Trim(Cell(row, "name"))| >= 2
    && !Blank(amount) && parsers.parseFloat(amount).Some? && parsers.parseFloat(amount).value >= 0.0
    && forall k :: 0 <= k < |accepted| ==> !SameFeeItem(accepted[k], Cell(row, "name"))
  }

  lemma FeeItemRequiredPresent(row: Row)
    ensures RequiredIssues(row, FeeItemRequired) == [] <==> !Blank(Cell(row, "name")) && !Blank(Cell(row, "amount"))
  {
    assert forall f :: f in FeeItemRequired <==> f == "name" || f == "amount";
  }

  /** A fee item row is accepted exactly when it passes. */
  lemma FeeItemAcceptedIff(row: Row, accepted: seq<Record>, parsers: Parsers)
    ensures FeeItemIssues(row, accepted, parsers) == [] <==> FeeItemPasses(row, accepted, parsers)
  {
    var name := Cell(row, "name");
    FeeItemRequiredPresent(row);
    NoIssues4(RequiredIssues(row, FeeItemRequired), FeeItemNameIssues(name), AmountIssues(Cell(row, "amount"), parsers),
      DuplicateIssues(DuplicateFeeItemMessage, FindIndex(accepted, r => SameFeeItem(r, name)), name));
  }

  function CleanFeeItem(row: Row, parsers: Parsers): Record
  {
    FeeItemRecord(Trim(Cell(row, "name")), parsers.parseFloat(Cell(row, "amount")))
  }

  /** The per-row check and cleaning of `validateFeeItemData`, as the walk takes them. */
  function FeeItemCheck(parsers: Parsers): (Row, seq<Record>) -> seq<Issue>
  {
    (row, accepted) => FeeItemIssues(row, accepted, parsers)
  }

  function FeeItemClean(parsers: Parsers): Row -> Record
  {
    row => CleanFeeItem(row, parsers)
  }

  function ValidateFeeItems(data: seq<Row>, parsers: Parsers): ValidationResult
  {
    Finish(Sweep(data, FeeItemCheck(parsers), FeeItemClean(parsers)))
  }

  method ValidateFeeItemData(data: seq<Row>, parsers: Parsers) returns (result: ValidationResult)
    ensures result == ValidateFeeItems(data, parsers)
  {
    result := Validate(data, FeeItemCheck(parsers), FeeItemClean(parsers));
  }

  function FeeItemKey(r: Record): string
  {
    if r.FeeItemRecord? then Key(r.name) else ""
  }

  predicate GoodFeeItem(r: Record)
  {
    r.FeeItemRecord? && |r.name| >= 2 && Trimmed(r.name) && r.amount.Some? && r.amount.value >= 0.0
  }

  /** Good fee items, no two with the same name. */
  predicate GoodFeeItems(v: seq<Record>)
  {
    (forall k :: 0 <= k < |v| ==> GoodFeeItem(v[k])) && NoDup(Map(v, FeeItemKey))
  }

  lemma CleanFeeItemGood(row: Row, parsers: Parsers)
    requires !Blank(Cell(row, "name")) && |Trim(Cell(row, "name"))| >= 2
    requires parsers.parseFloat(Cell(row, "amount")).Some? && parsers.parseFloat(Cell(row, "amount")).value >= 0.0
    ensures GoodFeeItem(CleanFeeItem(row, parsers))
  {
    TrimmedIff(Cell(row, "name"));
  }

  lemma FeeItemKeysDiffer(row: Row, accepted: seq<Record>, parsers: Parsers)
    requires forall k :: 0 <= k < |accepted| ==> GoodFeeItem(accepted[k])
    requires forall k :: 0 <= k < |accepted| ==> !SameFeeItem(accepted[k], Cell(row, "name"))
    ensures forall k :: 0 <= k < |accepted| ==> FeeItemKey(accepted[k]) != FeeItemKey(CleanFeeItem(row, parsers))
  {
    KeyOfTrim(Cell(row, "name"));
  }

  lemma FeeItemsSnoc(accepted: seq<Record>, item: Record)
    requires GoodFeeItems(accepted) && GoodFeeItem(item)
    requires forall k :: 0 <= k < |accepted| ==> FeeItemKey(accepted[k]) != FeeItemKey(item)
    ensures GoodFeeItems(accepted + [item])
  {
    GoodFeeItemSnoc(accepted, item);
    MapSnocNoDup(accepted, item, FeeItemKey);
  }

  lemma GoodFeeItemSnoc(accepted: seq<Record>, item: Record)
    requires forall k :: 0 <= k < |accepted| ==> GoodFeeItem(accepted[k])
    requires GoodFeeItem(item)
    ensures forall k :: 0 <= k < |accepted + [item]| ==> GoodFeeItem((accepted + [item])[k])
  {
  }

  /** A passing fee item, added to good and distinct items, keeps them so. */
  lemma AcceptFeeItem(row: Row, accepted: seq<Record>, parsers: Parsers)
    requires GoodFeeItems(accepted)
    requires FeeItemPasses(row, accepted, parsers)
    ensures GoodFeeItems(accepted + [CleanFeeItem(row, parsers)])
  {
    CleanFeeItemGood(row, parsers);
    FeeItemKeysDiffer(row, accepted, parsers);
    FeeItemsSnoc(accepted, CleanFeeItem(row, parsers));
  }

  lemma FeeItemStep(row: Row, accepted: seq<Record>, parsers: Parsers)
    requires GoodFeeItems(accepted) && FeeItemIssues(row, accepted, parsers) == []
    ensures GoodFeeItems(accepted + [CleanFeeItem(row, parsers)])
  {
    FeeItemAcceptedIff(row, accepted, parsers);
    AcceptFeeItem(row, accepted, parsers);
  }

  /**
   * Accepted fee items are trimmed, named with at least 2 characters, carry a parsed
   * non-negative amount, and no two share a name compared case-insensitively.
   */
  lemma FeeItemsAccepted(data: seq<Row>, parsers: Parsers)
    ensures GoodFeeItems(ValidateFeeItems(data, parsers).validData)
  {
    var check, clean := FeeItemCheck(parsers), FeeItemClean(parsers);
    forall row, accepted | GoodFeeItems(accepted) && check(row, accepted) == []
      ensures GoodFeeItems(accepted + [clean(row)])
    {
      FeeItemStep(row, accepted, parsers);
    }
    SweepKeeps(data, check, clean, GoodFeeItems);
  }

  // ---------------------------------------------------------------- dispatch

  /** `validateData`: dispatch on the data type; an unknown type is one error at row 0. */
  function ValidateData(data: seq<Row>, kind: string, parsers: Parsers): ValidationResult
  {
    match kind
    case "students" => ValidateStudents(data)
    case "payments" => ValidatePayments(data, parsers)
    case "fee_items" => ValidateFeeItems(data, parsers)
    case _ => ValidationResult(false, [ValidationError(0, "type", "Unknown validation type", kind)], [])
  }

  /** An unknown type is one "Unknown validation type" error at row 0; every verdict is valid exactly when it has no errors. */
  lemma ValidateDataVerdict(data: seq<Row>, kind: string, parsers: Parsers)
    ensures var r := ValidateData(data, kind, parsers);
      && (kind !in ["students", "payments", "fee_items"] ==>
            r == ValidationResult(false, [ValidationError(0, "type", "Unknown validation type", kind)], []))
      && (r.isValid <==> r.errors == [])
  {
  }
}
