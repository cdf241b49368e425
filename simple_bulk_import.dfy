/**
 * The simpler student import of src/components/school-admin/SimpleBulkImport.tsx.
 *
 * No mapping step: the name column is the first header mentioning "name" or "student",
 * the class column the first mentioning "class" or "grade". Rows whose name or class cell
 * is empty are dropped without a message; the others become students that keep their
 * spreadsheet row number.
 */
module SimpleBulkImport {
  import opened Wrappers
  import opened Strings
  import opened Lists
  import BulkStudentImport

  // ---------------------------------------------------------------- header search

  predicate IsNameHeader(h: string)
  {
    Contains(ToLower(h), "name") || Contains(ToLower(h), "student")
  }

  predicate IsClassHeader(h: string)
  {
    Contains(ToLower(h), "class") || Contains(ToLower(h), "grade")
  }

  /** `headers.findIndex(...)` for the name column. */
  function NameIndex(headers: seq<string>): int
  {
    FindIndex(headers, IsNameHeader)
  }

  function ClassIndex(headers: seq<string>): int
  {
    FindIndex(headers, IsClassHeader)
  }

  /** The name column is the first header mentioning "name" or "student", and -1 when there is none. */
  lemma NameIndexRule(headers: seq<string>)
    ensures var i := NameIndex(headers);
      && (i == -1 <==> forall k :: 0 <= k < |headers| ==> !IsNameHeader(headers[k]))
      && (i >= 0 ==> IsNameHeader(headers[i]) && forall k :: 0 <= k < i ==> !IsNameHeader(headers[k]))
  {
  }

  /** A first header that mentions both a name and a class word serves as both columns. */
  lemma FirstHeaderServesBoth(headers: seq<string>)
    requires headers != []
    requires Contains(ToLower(headers[0]), "name") && Contains(ToLower(headers[0]), "class")
    ensures NameIndex(headers) == 0 && ClassIndex(headers) == 0
  {
  }

  // ---------------------------------------------------------------- rows

  /** A parsed student with its spreadsheet row number (data row `index` is row `index + 2`). */
  datatype SimpleStudent = SimpleStudent(name: string, className: string, row: int)

  /** `row[i]?.trim() || ''`. */
  function CellText(row: seq<string>, i: int): string
  {
    if 0 <= i < |row| then Trim(row[i]) else ""
  }

  /** `rows.map(...).filter(student => student.name && student.class_name)`. */
  function ParseStudents(rows: seq<seq<string>>, nameIndex: int, classIndex: int): (r: seq<SimpleStudent>)
    ensures |r| <= |rows|
  {
    if rows == [] then []
    else
      var last := rows[|rows| - 1];
      var s := SimpleStudent(CellText(last, nameIndex), CellText(last, classIndex), |rows| + 1);
      ParseStudents(rows[..|rows| - 1], nameIndex, classIndex) + (if s.name != "" && s.className != "" then [s] else [])
  }

  /** The student parsed from data row `k`, when both its cells are non-empty. */
  predicate FromRow(s: SimpleStudent, rows: seq<seq<string>>, nameIndex: int, classIndex: int)
  {
    && 2 <= s.row < |rows| + 2
    && s.name == CellText(rows[s.row - 2], nameIndex) && s.name != ""
    && s.className == CellText(rows[s.row - 2], classIndex) && s.className != ""
  }

  /** Every parsed student is the trimmed cells of the row it names, with both cells non-empty. */
  lemma {:induction false} ParsedFromRows(rows: seq<seq<string>>, nameIndex: int, classIndex: int)
    ensures forall k :: 0 <= k < |ParseStudents(rows, nameIndex, classIndex)| ==>
      FromRow(ParseStudents(rows, nameIndex, classIndex)[k], rows, nameIndex, classIndex)
  {
    if rows != [] {
      var init := rows[..|rows| - 1];
      ParsedFromRows(init, nameIndex, classIndex);
      ParsedFromRowsStep(rows, init, nameIndex, classIndex);
    }
  }

  lemma ParsedFromRowsStep(rows: seq<seq<string>>, init: seq<seq<string>>, nameIndex: int, classIndex: int)
    requires rows != [] && init == rows[..|rows| - 1]
    requires forall k :: 0 <= k < |ParseStudents(init, nameIndex, classIndex)| ==>
      FromRow(ParseStudents(init, nameIndex, classIndex)[k], init, nameIndex, classIndex)
    ensures forall k :: 0 <= k < |ParseStudents(rows, nameIndex, classIndex)| ==>
      FromRow(ParseStudents(rows, nameIndex, classIndex)[k], rows, nameIndex, classIndex)
  {
    var p := ParseStudents(init, nameIndex, classIndex);
    var last := rows[|rows| - 1];
    var st := SimpleStudent(CellText(last, nameIndex), CellText(last, classIndex), |rows| + 1);
    ParseStudentsLast(rows, init, nameIndex, classIndex);
    if st.name != "" && st.className != "" {
      assert FromRow(st, rows, nameIndex, classIndex) by {
        assert rows[st.row - 2] == last;
      }
      FromRowsSnoc(p, [st], rows, nameIndex, classIndex, ParseStudents(rows, nameIndex, classIndex));
    } else {
      FromRowsSnoc(p, [], rows, nameIndex, classIndex, ParseStudents(rows, nameIndex, classIndex));
    }
  }

  lemma FromRowsSnoc(p: seq<SimpleStudent>, extra: seq<SimpleStudent>, rows: seq<seq<string>>, nameIndex: int, classIndex: int, whole: seq<SimpleStudent>)
    requires rows != [] && whole == p + extra
    requires forall k :: 0 <= k < |p| ==> FromRow(p[k], rows[..|rows| - 1], nameIndex, classIndex)
    requires forall k :: 0 <= k < |extra| ==> FromRow(extra[k], rows, nameIndex, classIndex)
    ensures forall k :: 0 <= k < |whole| ==> FromRow(whole[k], rows, nameIndex, classIndex)
  {
    forall k | 0 <= k < |p + extra|
      ensures FromRow((p + extra)[k], rows, nameIndex, classIndex)
    {
      if k < |p| {
        assert (p + extra)[k] == p[k];
        FromRowExtends(p[k], rows, nameIndex, classIndex);
      } else {
        assert (p + extra)[k] == extra[k - |p|];
      }
    }
  }

  lemma FromRowExtends(s: SimpleStudent, rows: seq<seq<string>>, nameIndex: int, classIndex: int)
    requires rows != [] && FromRow(s, rows[..|rows| - 1], nameIndex, classIndex)
    ensures FromRow(s, rows, nameIndex, classIndex)
  {
    assert rows[s.row - 2] == rows[..|rows| - 1][s.row - 2];
  }

  predicate Ascending(r: seq<SimpleStudent>)
  {
    forall j, k :: 0 <= j < k < |r| ==> r[j].row < r[k].row
  }

  /** Row numbers increase strictly, so the students keep the file's order. */
  lemma ParsedInRowOrder(rows: seq<seq<string>>, nameIndex: int, classIndex: int)
    ensures Ascending(ParseStudents(rows, nameIndex, classIndex))
  {
    var r := ParseStudents(rows, nameIndex, classIndex);
    forall j, k | 0 <= j < k < |r|
      ensures r[j].row < r[k].row
    {
      RowOrderPair(rows, nameIndex, classIndex, j, k);
    }
  }

  lemma {:induction false} RowOrderPair(rows: seq<seq<string>>, nameIndex: int, classIndex: int, j: nat, k: nat)
    requires j < k < |ParseStudents(rows, nameIndex, classIndex)|
    ensures ParseStudents(rows, nameIndex, classIndex)[j].row < ParseStudents(rows, nameIndex, classIndex)[k].row
  {
    var init := rows[..|rows| - 1];
    var p := ParseStudents(init, nameIndex, classIndex);
    ParseStudentsExtends(rows, init, nameIndex, classIndex);
    if k < |p| {
      RowOrderPair(init, nameIndex, classIndex, j, k);
    } else {
      ParsedRowsBelow(init, nameIndex, classIndex, j);
    }
  }

  /** The students of the earlier rows come first, and the last row adds at most one, numbered after them. */
  lemma ParseStudentsExtends(rows: seq<seq<string>>, init: seq<seq<string>>, nameIndex: int, classIndex: int)
    requires rows != [] && init == rows[..|rows| - 1]
    ensures |ParseStudents(init, nameIndex, classIndex)| <= |ParseStudents(rows, nameIndex, classIndex)| <= |ParseStudents(init, nameIndex, classIndex)| + 1
    ensures forall k :: 0 <= k < |ParseStudents(init, nameIndex, classIndex)| ==>
      ParseStudents(rows, nameIndex, classIndex)[k] == ParseStudents(init, nameIndex, classIndex)[k]
    ensures |ParseStudents(rows, nameIndex, classIndex)| > |ParseStudents(init, nameIndex, classIndex)| ==>
      ParseStudents(rows, nameIndex, classIndex)[|ParseStudents(init, nameIndex, classIndex)|].row == |rows| + 1
  {
    ParseStudentsLast(rows, init, nameIndex, classIndex);
  }

  /** Every student of a file is numbered below the row after its last one. */
  lemma ParsedRowsBelow(rows: seq<seq<string>>, nameIndex: int, classIndex: int, j: nat)
    requires j < |ParseStudents(rows, nameIndex, classIndex)|
    ensures ParseStudents(rows, nameIndex, classIndex)[j].row < |rows| + 2
  {
    ParsedFromRows(rows, nameIndex, classIndex);
    assert FromRow(ParseStudents(rows, nameIndex, classIndex)[j], rows, nameIndex, classIndex);
  }

  /** The last data row adds its student, if both its cells are non-empty, after those of the earlier rows. */
  lemma ParseStudentsLast(rows: seq<seq<string>>, init: seq<seq<string>>, nameIndex: int, classIndex: int)
    requires rows != [] && init == rows[..|rows| - 1]
    ensures ParseStudents(rows, nameIndex, classIndex) == ParseStudents(init, nameIndex, classIndex) +
      (if CellText(rows[|rows| - 1], nameIndex) != "" && CellText(rows[|rows| - 1], classIndex) != ""
       then [SimpleStudent(CellText(rows[|rows| - 1], nameIndex), CellText(rows[|rows| - 1], classIndex), |rows| + 1)]
       else [])
  {
  }

  /** Every data row whose name and class cells are both non-empty yields a student. */
  lemma {:induction false} CompleteRowsKept(rows: seq<seq<string>>, nameIndex: int, classIndex: int, i: nat)
    requires i < |rows| && CellText(rows[i], nameIndex) != "" && CellText(rows[i], classIndex) != ""
    ensures SimpleStudent(CellText(rows[i], nameIndex), CellText(rows[i], classIndex), i + 2)
      in ParseStudents(rows, nameIndex, classIndex)
  {
    var init := rows[..|rows| - 1];
    if i < |rows| - 1 {
      assert init[i] == rows[i];
      CompleteRowsKept(init, nameIndex, classIndex, i);
    }
  }

  // ---------------------------------------------------------------- the importer

  datatype Step = Upload | Preview | Importing | Complete

  datatype Format = Csv | Spreadsheet

  datatype ImporterState = ImporterState(
    step: Step, students: seq<SimpleStudent>, errors: seq<string>,
    results: Option<BulkStudentImport.ImportResults>)

  const MissingColumnsMessage: string := "Please make sure your file has columns for student names and classes"

  function Initial(): ImporterState
  {
    ImporterState(Upload, [], [], None)
  }

  /** The shared part of both parser callbacks, once a header row exists. */
  function TableRead(s: ImporterState, table: seq<seq<string>>): ImporterState
    requires table != []
  {
    var headers := table[0];
    var nameIndex, classIndex := NameIndex(headers), ClassIndex(headers);
    if nameIndex == -1 || classIndex == -1 then s.(errors := [MissingColumnsMessage])
    else s.(students := ParseStudents(table[1..], nameIndex, classIndex), step := Preview)
  }

  /**
   * A parsed file. The CSV callback stops on a parser error (and an empty CSV table has no
   * header row to search, which throws); the spreadsheet callback stops on an empty sheet.
   */
  function FileParsed(s: ImporterState, format: Format, table: seq<seq<string>>, parseFailed: bool): ImporterState
  {
    match format
    case Csv => if parseFailed || table == [] then s else TableRead(s, table)
    case Spreadsheet => if table == [] then s else TableRead(s, table)
  }

  /** Both formats search the headers and map the rows the same way. */
  lemma FormatsAgree(s: ImporterState, table: seq<seq<string>>)
    ensures FileParsed(s, Csv, table, false) == FileParsed(s, Spreadsheet, table, false)
  {
  }

  /**
   * A missing column sets the one error message and stays where it was; with both columns
   * found the students are replaced and the preview opens. An earlier error message is
   * not cleared by a later successful parse.
   */
  lemma TableReadRule(s: ImporterState, table: seq<seq<string>>)
    requires table != []
    ensures var r := TableRead(s, table);
      && (NameIndex(table[0]) == -1 || ClassIndex(table[0]) == -1 ==>
            r.errors == [MissingColumnsMessage] && r.step == s.step && r.students == s.students)
      && (NameIndex(table[0]) >= 0 && ClassIndex(table[0]) >= 0 ==>
            r.step == Preview && r.errors == s.errors
            && r.students == ParseStudents(table[1..], NameIndex(table[0]), ClassIndex(table[0])))
  {
  }

  /** `handleImport`: nothing to send, nothing done. */
  function ImportStarted(s: ImporterState): ImporterState
  {
    if |s.students| == 0 then s else s.(step := Importing)
  }

  lemma ImportNeedsStudents(s: ImporterState)
    ensures ImportStarted(s) == s <==> |s.students| == 0 || s.step == Importing
    ensures |s.students| > 0 ==> ImportStarted(s).step == Importing
  {
  }

  /** The mutation settles exactly as in the mapping wizard. */
  function ImportSettled(s: ImporterState, hasSchool: bool, outcome: BulkStudentImport.InsertOutcome): ImporterState
  {
    var results :=
      if !hasSchool then BulkStudentImport.ImportResults(0, ["No school ID"])
      else match outcome
        case Inserted(count, failures) => BulkStudentImport.ImportResults(count.GetOr(0), Map(failures, BulkStudentImport.FailureLine))
        case InsertFailed(message) => BulkStudentImport.ImportResults(0, [message]);
    s.(results := Some(results), step := Complete)
  }

  /** `resetImport`. */
  function ImportReset(s: ImporterState): ImporterState
  {
    Initial()
  }

  /** The preview table: the first ten students, and how many more there are. */
  function PreviewRows(s: ImporterState): (r: (seq<SimpleStudent>, nat))
    ensures |r.0| <= 10 && r.0 <= s.students
    ensures |r.0| + r.1 == |s.students|
    ensures r.1 > 0 ==> |r.0| == 10
  {
    (Take(s.students, 10), MoreCount(s.students, 10))
  }

  class SimpleImporter {
    var step: Step
    var students: seq<SimpleStudent>
    var errors: seq<string>
    var results: Option<BulkStudentImport.ImportResults>

    function State(): ImporterState
      reads this
    {
      ImporterState(step, students, errors, results)
    }

    constructor()
      ensures State() == Initial()
    {
      step := Upload;
      students := [];
      errors := [];
      results := None;
    }

    method OnFileParsed(format: Format, table: seq<seq<string>>, parseFailed: bool)
      modifies this
      ensures State() == FileParsed(old(State()), format, table, parseFailed)
    {
      if format == Csv && parseFailed {
        return;
      }
      if |table| == 0 {
        return;
      }
      var headers := table[0];
      var nameIndex := NameIndex(headers);
      var classIndex := ClassIndex(headers);
      if nameIndex == -1 || classIndex == -1 {
        errors := [MissingColumnsMessage];
        return;
      }
      students := ParseStudents(table[1..], nameIndex, classIndex);
      step := Preview;
    }

    method HandleImport()
      modifies this
      ensures State() == ImportStarted(old(State()))
    {
      if |students| == 0 {
        return;
      }
      step := Importing;
    }

    method OnImportSettled(hasSchool: bool, outcome: BulkStudentImport.InsertOutcome)
      modifies this
      ensures State() == ImportSettled(old(State()), hasSchool, outcome)
    {
      if !hasSchool {
        results := Some(BulkStudentImport.ImportResults(0, ["No school ID"]));
      } else if outcome.Inserted? {
        results := Some(BulkStudentImport.ImportResults(outcome.insertedCount.GetOr(0), Map(outcome.failures, BulkStudentImport.FailureLine)));
      } else {
        results := Some(BulkStudentImport.ImportResults(0, [outcome.message]));
      }
      step := Complete;
    }

    method ResetImport()
      modifies this
      ensures State() == ImportReset(old(State()))
    {
      step := Upload;
      students := [];
      errors := [];
      results := None;
    }
  }
}
