/**
 * The student export dialog of src/components/school-admin/BulkExport.tsx: pick columns,
 * then export every fetched student either as a CSV text or as rows for a workbook.
 * A student row is a map from column id to text, where an absent id or "" stands for a
 * missing or falsy value; date formatting is a parameter.
 */
module BulkExport {
  import opened Wrappers
  import opened Strings
  import opened Lists
  import opened Csv

  datatype Column = Column(id: string, title: string, required: bool)

  /** `availableColumns`, in the dialog's order. */
  function AvailableColumns(): seq<Column>
  {
    [ Column("name", "Full Name", true),
      Column("student_id", "Student ID", false),
      Column("class_name", "Class/Grade", true),
      Column("email", "Email", false),
      Column("phone", "Phone", false),
      Column("date_of_birth", "Date of Birth", false),
      Column("gender", "Gender", false),
      Column("parent_name", "Parent Name", false),
      Column("parent_phone", "Parent Phone", false),
      Column("parent_email", "Parent Email", false),
      Column("home_address", "Home Address", false),
      Column("emergency_contact", "Emergency Contact", false),
      Column("admission_date", "Admission Date", false),
      Column("academic_year", "Academic Year", false),
      Column("transportation", "Transportation", false),
      Column("medical_conditions", "Medical Conditions", false),
      Column("allergies", "Allergies", false),
      Column("notes", "Notes", false) ]
  }

  /** The columns ticked when the dialog opens. */
  const InitialSelection: seq<string> := ["name", "class_name", "student_id"]

  datatype Format = CsvFormat | XlsxFormat

  /** A fetched student: column id to value. */
  type Student = map<string, string>

  /** One export row: column title to value. */
  type Row = map<string, string>

  /** Reading a key; a missing key reads as the empty text. */
  function Lookup(m: map<string, string>, key: string): string
  {
    if key in m then m[key] else ""
  }

  /** `availableColumns.find(col => col.id === id)`. */
  function FindColumn(columns: seq<Column>, id: string): (r: Option<Column>)
    ensures r.None? <==> forall i :: 0 <= i < |columns| ==> columns[i].id != id
    ensures r.Some? ==> r.value.id == id && r.value in columns
  {
    if columns == [] then None
    else if columns[0].id == id then Some(columns[0])
    else FindColumn(columns[1..], id)
  }

  /** `availableColumns.find(c => c.id === id)?.title`, with `undefined` written as "". */
  function TitleFor(columns: seq<Column>, id: string): string
  {
    match FindColumn(columns, id)
    case Some(c) => c.title
    case None => ""
  }

  /** The value written for one column: ids containing "date" have a present value reformatted. */
  function CellValue(student: Student, columnId: string, formatDate: string -> string): string
  {
    var value := Lookup(student, columnId);
    if Contains(columnId, "date") && value != "" then formatDate(value) else value
  }

  // ---------------------------------------------------------------- export rows

  /** The row the `forEach` over the selected ids builds for one student, one id at a time. */
  function RowOf(columns: seq<Column>, selected: seq<string>, student: Student, formatDate: string -> string): Row
    decreases |selected|
  {
    if selected == [] then map[]
    else
      var row := RowOf(columns, selected[..|selected| - 1], student, formatDate);
      var id := selected[|selected| - 1];
      match FindColumn(columns, id)
      case Some(c) => row[c.title := CellValue(student, id, formatDate)]
      case None => row
  }

  /** Titles tell the columns apart. */
  predicate DistinctTitles(columns: seq<Column>)
  {
    forall i, j :: 0 <= i < j < |columns| ==> columns[i].title != columns[j].title
  }

  predicate NonEmptyTitles(columns: seq<Column>)
  {
    forall k :: 0 <= k < |columns| ==> columns[k].title != ""
  }

  lemma SameTitleSameColumn(columns: seq<Column>, c: Column, d: Column)
    requires DistinctTitles(columns) && c in columns && d in columns && c.title == d.title
    ensures c == d
  {
    var i :| 0 <= i < |columns| && columns[i] == c;
    var j :| 0 <= j < |columns| && columns[j] == d;
    assert i == j by {
      if i < j { } else if j < i { }
    }
  }

  /**
   * A row holds one entry per selected id found among the columns, under that column's
   * title, and nothing else; with distinct titles the entry is that id's value.
   */
  lemma {:induction false} RowContents(columns: seq<Column>, selected: seq<string>, student: Student, formatDate: string -> string)
    ensures forall id :: id in selected && FindColumn(columns, id).Some? ==> FindColumn(columns, id).value.title in RowOf(columns, selected, student, formatDate)
    ensures forall title :: title in RowOf(columns, selected, student, formatDate) ==>
      exists id :: id in selected && FindColumn(columns, id).Some? && FindColumn(columns, id).value.title == title
    ensures DistinctTitles(columns) ==> forall id :: id in selected && FindColumn(columns, id).Some? ==>
      RowOf(columns, selected, student, formatDate)[FindColumn(columns, id).value.title] == CellValue(student, id, formatDate)
  {
    if selected != [] {
      var init := selected[..|selected| - 1];
      var last := selected[|selected| - 1];
      assert selected == init + [last];
      RowContents(columns, init, student, formatDate);
      var row := RowOf(columns, init, student, formatDate);
      var r := RowOf(columns, selected, student, formatDate);
      forall title | title in r
        ensures exists id :: id in selected && FindColumn(columns, id).Some? && FindColumn(columns, id).value.title == title
      {
        if title !in row {
          assert last in selected;
        }
      }
      if DistinctTitles(columns) {
        forall id | id in selected && FindColumn(columns, id).Some?
          ensures r[FindColumn(columns, id).value.title] == CellValue(student, id, formatDate)
        {
          var c := FindColumn(columns, id).value;
          match FindColumn(columns, last)
          case Some(d) =>
            if d.title == c.title {
              SameTitleSameColumn(columns, c, d);
            }
          case None =>
        }
      }
    }
  }

  /** `exportData[k]` for the k-th student. */
  function RowsOf(columns: seq<Column>, selected: seq<string>, students: seq<Student>, formatDate: string -> string): (r: seq<Row>)
    ensures |r| == |students|
    ensures forall k :: 0 <= k < |students| ==> r[k] == RowOf(columns, selected, students[k], formatDate)
  {
    seq(|students|, k requires 0 <= k < |students| => RowOf(columns, selected, students[k], formatDate))
  }

  /** The `forEach` building one row. */
  method BuildRow(columns: seq<Column>, selected: seq<string>, student: Student, formatDate: string -> string) returns (row: Row)
    ensures row == RowOf(columns, selected, student, formatDate)
  {
    row := map[];
    for i := 0 to |selected|
      invariant row == RowOf(columns, selected[..i], student, formatDate)
    {
      assert selected[..i + 1][..i] == selected[..i];
      var id := selected[i];
      var column := FindColumn(columns, id);
      if column.Some? {
        row := row[column.value.title := CellValue(student, id, formatDate)];
      }
    }
    assert selected[..|selected|] == selected;
  }

  /** `students.map(...)`. */
  method BuildRows(columns: seq<Column>, selected: seq<string>, students: seq<Student>, formatDate: string -> string) returns (rows: seq<Row>)
    ensures rows == RowsOf(columns, selected, students, formatDate)
  {
    rows := [];
    for k := 0 to |students|
      invariant rows == RowsOf(columns, selected, students[..k], formatDate)
    {
      var row := BuildRow(columns, selected, students[k], formatDate);
      rows := rows + [row];
    }
    assert students[..|students|] == students;
  }

  // ---------------------------------------------------------------- CSV

  /** The header: the selected ids' titles in selection order, comma-joined and not quoted. */
  function Header(columns: seq<Column>, selected: seq<string>): string
  {
    Join(HeaderCells(columns, selected), ",")
  }

  function HeaderCells(columns: seq<Column>, selected: seq<string>): (r: seq<string>)
    ensures |r| == |selected| && forall i :: 0 <= i < |selected| ==> r[i] == TitleFor(columns, selected[i])
  {
    seq(|selected|, i requires 0 <= i < |selected| => TitleFor(columns, selected[i]))
  }

  /** The values a data line carries: the row's entry under each selected id's title. */
  function LineFields(columns: seq<Column>, selected: seq<string>, row: Row): (r: seq<string>)
    ensures |r| == |selected| && forall i :: 0 <= i < |selected| ==> r[i] == Lookup(row, TitleFor(columns, selected[i]))
  {
    seq(|selected|, i requires 0 <= i < |selected| => Lookup(row, TitleFor(columns, selected[i])))
  }

  function Quoted(fields: seq<string>): (r: seq<Cell>)
    ensures |r| == |fields| && forall i :: 0 <= i < |fields| ==> r[i] == QuotedCell(fields[i])
  {
    seq(|fields|, i requires 0 <= i < |fields| => QuotedCell(fields[i]))
  }

  /** One data line: every field quoted, inner quotes doubled, comma-joined. */
  function DataLine(columns: seq<Column>, selected: seq<string>, row: Row): string
  {
    Join(Encoded(Quoted(LineFields(columns, selected, row))), ",")
  }

  function DataLines(columns: seq<Column>, selected: seq<string>, rows: seq<Row>): (r: seq<string>)
    ensures |r| == |rows| && forall k :: 0 <= k < |rows| ==> r[k] == DataLine(columns, selected, rows[k])
  {
    seq(|rows|, k requires 0 <= k < |rows| => DataLine(columns, selected, rows[k]))
  }

  /** `csvContent`: the header, then one line per row, joined by line breaks. */
  function CsvContent(columns: seq<Column>, selected: seq<string>, rows: seq<Row>): string
  {
    Join([Header(columns, selected)] + DataLines(columns, selected, rows), "\n")
  }

  /** Each data line reads back, as a record, as the row's values in selection order. */
  lemma DataLineRoundTrip(columns: seq<Column>, selected: seq<string>, row: Row)
    requires selected != []
    ensures ParseRecord(DataLine(columns, selected, row)) == Some(LineFields(columns, selected, row))
  {
    var fields := LineFields(columns, selected, row);
    var cells := Quoted(fields);
    assert Texts(cells) == fields;
    ParseRecordRoundTrip(cells);
  }

  /**
   * Read through a row, a data line carries each selected known id's value and an empty
   * field for an unknown id.
   */
  lemma LineFieldsOfRow(columns: seq<Column>, selected: seq<string>, student: Student, formatDate: string -> string, i: nat)
    requires DistinctTitles(columns) && NonEmptyTitles(columns)
    requires i < |selected|
    ensures LineFields(columns, selected, RowOf(columns, selected, student, formatDate))[i] ==
      if FindColumn(columns, selected[i]).Some? then CellValue(student, selected[i], formatDate) else ""
  {
    RowContents(columns, selected, student, formatDate);
  }

  /** With titles free of commas and quotes, the unquoted header reads back as the selected ids' titles. */
  lemma HeaderRoundTrip(columns: seq<Column>, selected: seq<string>)
    requires forall k :: 0 <= k < |columns| ==> Bare(columns[k].title)
    requires selected != []
    ensures ParseRecord(Header(columns, selected)) == Some(HeaderCells(columns, selected))
  {
    var titles := HeaderCells(columns, selected);
    var cells := seq(|titles|, i requires 0 <= i < |titles| => BareCell(titles[i]));
    forall i | 0 <= i < |cells|
      ensures WellFormed(cells[i])
    {
      match FindColumn(columns, selected[i])
      case Some(c) =>
        var k :| 0 <= k < |columns| && columns[k] == c;
      case None =>
    }
    assert Encoded(cells) == titles;
    assert Texts(cells) == titles;
    ParseRecordRoundTrip(cells);
  }

  /** Lines whose parts hold no line break split back into the header and the data lines. */
  lemma CsvContentLines(columns: seq<Column>, selected: seq<string>, rows: seq<Row>)
    requires '\n' !in Header(columns, selected)
    requires forall k :: 0 <= k < |rows| ==> '\n' !in DataLine(columns, selected, rows[k])
    ensures Split(CsvContent(columns, selected, rows), '\n') == [Header(columns, selected)] + DataLines(columns, selected, rows)
  {
    SplitJoin([Header(columns, selected)] + DataLines(columns, selected, rows), '\n');
  }

  /** No value with a line break, no line break in the line. */
  lemma DataLineSingle(columns: seq<Column>, selected: seq<string>, row: Row)
    requires forall i :: 0 <= i < |selected| ==> '\n' !in Lookup(row, TitleFor(columns, selected[i]))
    ensures '\n' !in DataLine(columns, selected, row)
  {
    var cells := Quoted(LineFields(columns, selected, row));
    EncodedAvoids(cells, '\n');
  }

  /** A title's length, first letter and eighth letter, which tell the dialog's titles apart. */
  function Key(t: string): (int, char, char)
  {
    (|t|, if |t| > 0 then t[0] else ' ', if |t| > 7 then t[7] else ' ')
  }

  /** The keys of the dialog's titles, column by column. */
  function AvailableKeys(): seq<(int, char, char)>
  {
    [(9, 'F', 'm'), (10, 'S', ' '), (11, 'C', 'r'), (5, 'E', ' '), (5, 'P', ' '), (13, 'D', ' '), (6, 'G', ' '), (11, 'P', 'N'), (12, 'P', 'P'), (12, 'P', 'E'), (12, 'H', 'd'), (17, 'E', 'c'), (14, 'A', 'o'), (13, 'A', 'c'), (14, 'T', 'r'), (18, 'M', ' '), (9, 'A', 'e'), (5, 'N', ' ')]
  }

  /** The dialog's titles have distinct keys. */
  lemma AvailableKeysDistinct()
    ensures forall i, j :: 0 <= i < j < |AvailableKeys()| ==> AvailableKeys()[i] != AvailableKeys()[j]
  {
  }

  lemma AvailableKeysOf(k: nat)
    requires k < |AvailableColumns()|
    ensures |AvailableKeys()| == |AvailableColumns()| && Key(AvailableColumns()[k].title) == AvailableKeys()[k]
  {
    if k < 9 {
      FirstKeys(k);
    } else {
      LastKeys(k);
    }
  }

  lemma FirstKeys(k: nat)
    requires k < 9
    ensures |AvailableKeys()| == |AvailableColumns()| && Key(AvailableColumns()[k].title) == AvailableKeys()[k]
  {
  }

  lemma LastKeys(k: nat)
    requires 9 <= k < 18
    ensures |AvailableKeys()| == |AvailableColumns()| && Key(AvailableColumns()[k].title) == AvailableKeys()[k]
  {
  }

  /** The dialog's columns have distinct titles. */
  lemma AvailableTitlesDistinct()
    ensures DistinctTitles(AvailableColumns())
  {
    AvailableKeysDistinct();
    var c := AvailableColumns();
    forall i, j | 0 <= i < j < |c|
      ensures c[i].title != c[j].title
    {
      AvailableKeysOf(i);
      AvailableKeysOf(j);
    }
  }

  /** The dialog's columns all have a title. */
  lemma AvailableTitlesNonEmpty()
    ensures NonEmptyTitles(AvailableColumns())
  {
  }

  /** The values a student's data line should carry, read straight from the student. */
  function ExpectedFields(columns: seq<Column>, selected: seq<string>, student: Student, formatDate: string -> string): (r: seq<string>)
    ensures |r| == |selected|
  {
    seq(|selected|, i requires 0 <= i < |selected| =>
      if FindColumn(columns, selected[i]).Some? then CellValue(student, selected[i], formatDate) else "")
  }

  /**
   * The k-th data line reads back as that student's values for the selected known ids,
   * and an empty field for an unknown one.
   */
  lemma CsvLineReadsBack(columns: seq<Column>, selected: seq<string>, students: seq<Student>, formatDate: string -> string, k: nat)
    requires DistinctTitles(columns) && NonEmptyTitles(columns)
    requires selected != [] && k < |students|
    ensures ParseRecord(DataLines(columns, selected, RowsOf(columns, selected, students, formatDate))[k])
      == Some(ExpectedFields(columns, selected, students[k], formatDate))
  {
    var row := RowOf(columns, selected, students[k], formatDate);
    DataLineRoundTrip(columns, selected, row);
    forall i | 0 <= i < |selected|
      ensures LineFields(columns, selected, row)[i] == ExpectedFields(columns, selected, students[k], formatDate)[i]
    {
      LineFieldsOfRow(columns, selected, students[k], formatDate, i);
    }
    assert LineFields(columns, selected, row) == ExpectedFields(columns, selected, students[k], formatDate);
    assert DataLines(columns, selected, RowsOf(columns, selected, students, formatDate))[k] == DataLine(columns, selected, row);
  }

  /** The same for the dialog's own columns. */
  lemma DialogCsvLineReadsBack(selected: seq<string>, students: seq<Student>, formatDate: string -> string, k: nat)
    requires selected != [] && k < |students|
    ensures ParseRecord(DataLines(AvailableColumns(), selected, RowsOf(AvailableColumns(), selected, students, formatDate))[k])
      == Some(ExpectedFields(AvailableColumns(), selected, students[k], formatDate))
  {
    AvailableTitlesDistinct();
    AvailableTitlesNonEmpty();
    CsvLineReadsBack(AvailableColumns(), selected, students, formatDate, k);
  }

  // ---------------------------------------------------------------- the dialog

  /** What an export hands over: the CSV text, or the rows a workbook is made from. */
  datatype Export = CsvFile(content: string) | Workbook(rows: seq<Row>)

  /** `handleExport`'s product, when it goes ahead. */
  function ExportOf(format: Format, selected: seq<string>, students: seq<Student>, formatDate: string -> string): Export
  {
    var rows := RowsOf(AvailableColumns(), selected, students, formatDate);
    match format
    case CsvFormat => CsvFile(CsvContent(AvailableColumns(), selected, rows))
    case XlsxFormat => Workbook(rows)
  }

  class BulkExporter {
    var selectedColumns: seq<string>
    var exportFormat: Format
    var isExporting: bool

    constructor()
      ensures selectedColumns == InitialSelection && exportFormat == XlsxFormat && !isExporting
    {
      selectedColumns := InitialSelection;
      exportFormat := XlsxFormat;
      isExporting := false;
    }

    /** `handleColumnToggle`: an id present is removed, an absent one appended. */
    method HandleColumnToggle(columnId: string)
      modifies this
      ensures selectedColumns == Toggle(old(selectedColumns), columnId)
      ensures columnId in selectedColumns <==> columnId !in old(selectedColumns)
      ensures forall c :: c != columnId ==> (c in selectedColumns <==> c in old(selectedColumns))
      ensures NoDup(old(selectedColumns)) ==> NoDup(selectedColumns)
      ensures exportFormat == old(exportFormat) && isExporting == old(isExporting)
    {
      ToggleMembership(selectedColumns, columnId);
      if NoDup(selectedColumns) {
        ToggleNoDup(selectedColumns, columnId);
      }
      selectedColumns := Toggle(selectedColumns, columnId);
    }

    method SetExportFormat(format: Format)
      modifies this
      ensures exportFormat == format
      ensures selectedColumns == old(selectedColumns) && isExporting == old(isExporting)
    {
      exportFormat := format;
    }

    /**
     * `handleExport`: nothing without fetched students or with no column selected;
     * otherwise the export is marked busy and produced in the chosen format.
     */
    method HandleExport(students: Option<seq<Student>>, formatDate: string -> string) returns (output: Option<Export>)
      modifies this
      ensures students.None? || selectedColumns == [] ==> output.None? && isExporting == old(isExporting)
      ensures students.Some? && selectedColumns != [] ==>
        isExporting && output == Some(ExportOf(exportFormat, selectedColumns, students.value, formatDate))
      ensures selectedColumns == old(selectedColumns) && exportFormat == old(exportFormat)
    {
      if students.None? || |selectedColumns| == 0 {
        return None;
      }
      isExporting := true;
      var rows := BuildRows(AvailableColumns(), selectedColumns, students.value, formatDate);
      if exportFormat == CsvFormat {
        output := Some(CsvFile(CsvContent(AvailableColumns(), selectedColumns, rows)));
      } else {
        output := Some(Workbook(rows));
      }
    }

    /** The timer after a finished export, or the failure path: the dialog is no longer busy. */
    method FinishExport()
      modifies this
      ensures !isExporting
      ensures selectedColumns == old(selectedColumns) && exportFormat == old(exportFormat)
    {
      isExporting := false;
    }
  }
}
