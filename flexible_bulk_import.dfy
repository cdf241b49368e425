/**
 * The column-flexible student import of src/components/school-admin/FlexibleBulkImport.tsx.
 *
 * A file becomes a list of records keyed by header. The user selects which columns to
 * import, maps file columns onto database columns, previews, and sends one record per
 * row holding only the mapped, non-blank values. Spreadsheet cells are read as text;
 * an empty or missing cell is ''.
 */
module FlexibleBulkImport {
  import opened Wrappers
  import opened Strings
  import opened Lists
  import BulkStudentImport

  /** A parsed row: header to cell text. */
  type Record = map<string, string>

  // ---------------------------------------------------------------- rows to records

  /** `rowArray[index] || ''`. */
  function CellOrEmpty(row: seq<string>, i: nat): string
  {
    if i < |row| then row[i] else ""
  }

  /** The record `headers.forEach((header, index) => obj[header] = ...)` builds; a repeated header keeps its last cell. */
  function RowRecord(headers: seq<string>, row: seq<string>): Record
  {
    if headers == [] then map[]
    else RowRecord(headers[..|headers| - 1], row)[headers[|headers| - 1] := CellOrEmpty(row, |headers| - 1)]
  }

  /** The `forEach` that fills the record. */
  method RowToRecord(headers: seq<string>, row: seq<string>) returns (obj: Record)
    ensures obj == RowRecord(headers, row)
  {
    obj := map[];
    for index := 0 to |headers|
      invariant obj == RowRecord(headers[..index], row)
    {
      assert headers[..index + 1][..index] == headers[..index];
      obj := obj[headers[index] := CellOrEmpty(row, index)];
    }
    assert headers[..|headers|] == headers;
  }

  /** The record has exactly the headers as keys, and each holds the cell under the header's last occurrence. */
  lemma {:induction false} RowRecordSpec(headers: seq<string>, row: seq<string>)
    ensures RowRecord(headers, row).Keys == set h | h in headers
    ensures forall i :: 0 <= i < |headers| && headers[i] !in headers[i + 1..] ==>
      RowRecord(headers, row)[headers[i]] == CellOrEmpty(row, i)
  {
    RowRecordKeys(headers, row);
    RowRecordValues(headers, row);
  }

  lemma {:induction false} RowRecordKeys(headers: seq<string>, row: seq<string>)
    ensures RowRecord(headers, row).Keys == set h | h in headers
  {
    if headers != [] {
      var n := |headers| - 1;
      var init := headers[..n];
      RowRecordKeys(init, row);
      assert headers == init + [headers[n]];
    }
  }

  lemma {:induction false} RowRecordValues(headers: seq<string>, row: seq<string>)
    ensures forall i :: 0 <= i < |headers| && headers[i] !in headers[i + 1..] ==>
      headers[i] in RowRecord(headers, row) && RowRecord(headers, row)[headers[i]] == CellOrEmpty(row, i)
  {
    if headers != [] {
      var n := |headers| - 1;
      var init := headers[..n];
      RowRecordValues(init, row);
      var r, ri := RowRecord(headers, row), RowRecord(init, row);
      assert r == ri[headers[n] := CellOrEmpty(row, n)];
      forall i | 0 <= i < |headers| && headers[i] !in headers[i + 1..]
        ensures headers[i] in r && r[headers[i]] == CellOrEmpty(row, i)
      {
        if i < n {
          assert headers[n] in headers[i + 1..] by {
            assert headers[i + 1..][n - i - 1] == headers[n];
          }
          assert init[i] == headers[i];
          assert headers[i] !in init[i + 1..] by {
            assert init[i + 1..] <= headers[i + 1..];
          }
        }
      }
    }
  }

  /** `Object.values(row).some(value => value && value.toString().trim() !== '')`. */
  predicate HasContent(r: Record)
  {
    exists h :: h in r && Trim(r[h]) != ""
  }

  /** The records of a parsed file, empty rows dropped. */
  function ContentRecords(records: seq<Record>): (r: seq<Record>)
    ensures forall x :: x in r <==> x in records && HasContent(x)
  {
    Filter(records, HasContent)
  }

  /** How the file arrives: CSV already keyed by its (trimmed) header fields, or a sheet as a table of cells. */
  datatype Upload =
    | CsvFile(fields: seq<string>, rows: seq<Record>)
    | SheetFile(table: seq<seq<string>>)

  function Headers(u: Upload): seq<string>
  {
    match u
    case CsvFile(fields, _) => fields
    case SheetFile(table) => if table == [] then [] else table[0]
  }

  function RecordMaker(headers: seq<string>): seq<string> -> Record
  {
    (row: seq<string>) => RowRecord(headers, row)
  }

  function Records(u: Upload): seq<Record>
  {
    match u
    case CsvFile(_, rows) => rows
    case SheetFile(table) => if table == [] then [] else Map(table[1..], RecordMaker(table[0]))
  }

  /** The spreadsheet branch of `parseFile`: the first row is the header row, every later row becomes a record. */
  method SheetRecords(table: seq<seq<string>>) returns (parsed: seq<Record>)
    ensures parsed == Records(SheetFile(table))
  {
    parsed := [];
    if |table| > 0 {
      var headers := table[0];
      var rows := table[1..];
      for i := 0 to |rows|
        invariant parsed == Map(rows[..i], RecordMaker(headers))
      {
        var obj := RowToRecord(headers, rows[i]);
        MapSnoc(rows[..i], rows[i], RecordMaker(headers));
        assert rows[..i + 1] == rows[..i] + [rows[i]];
        parsed := parsed + [obj];
      }
      assert rows[..|rows|] == rows;
    }
  }

  /** `col.name.toLowerCase().replace(/[^a-z0-9]/g, '_')`: the id a file column is offered under. */
  function ColumnId(name: string): (r: string)
    ensures |r| == |name|
    ensures forall i :: 0 <= i < |r| ==> IsLowerAlnum(r[i]) || r[i] == '_'
    ensures forall i :: 0 <= i < |r| && IsLowerAlnum(LowerChar(name[i])) ==> r[i] == LowerChar(name[i])
  {
    if name == [] then []
    else [if IsLowerAlnum(LowerChar(name[0])) then LowerChar(name[0]) else '_'] + ColumnId(name[1..])
  }

  // ---------------------------------------------------------------- mappings

  datatype ColumnMapping = ColumnMapping(fileColumn: string, databaseColumn: string, isMapped: bool)

  function FileColumns(ms: seq<ColumnMapping>): (r: seq<string>)
    ensures |r| == |ms| && forall i :: 0 <= i < |ms| ==> r[i] == ms[i].fileColumn
  {
    if ms == [] then [] else [ms[0].fileColumn] + FileColumns(ms[1..])
  }

  /** The entry `prev.map` writes for the changed file column. */
  function Retarget(m: ColumnMapping, fileColumn: string, databaseColumn: string): ColumnMapping
  {
    if m.fileColumn == fileColumn then m.(databaseColumn := databaseColumn, isMapped := databaseColumn != "") else m
  }

  function Retargeter(fileColumn: string, databaseColumn: string): ColumnMapping -> ColumnMapping
  {
    (m: ColumnMapping) => Retarget(m, fileColumn, databaseColumn)
  }

  /** `handleMappingChange`: update the entries of an existing file column in place, or append a new one. */
  function MappingChanged(ms: seq<ColumnMapping>, fileColumn: string, databaseColumn: string): seq<ColumnMapping>
  {
    if fileColumn in FileColumns(ms) then Map(ms, Retargeter(fileColumn, databaseColumn))
    else ms + [ColumnMapping(fileColumn, databaseColumn, databaseColumn != "")]
  }

  /**
   * After a change, the file column is mapped to the new database column (mapped exactly
   * when that is not ''), every other entry is as it was and in place, and the list of
   * file columns only grows by the new column when it was not there.
   */
  lemma MappingChangedSpec(ms: seq<ColumnMapping>, fileColumn: string, databaseColumn: string)
    ensures var r := MappingChanged(ms, fileColumn, databaseColumn);
      && (fileColumn in FileColumns(ms) ==> FileColumns(r) == FileColumns(ms))
      && (fileColumn !in FileColumns(ms) ==> FileColumns(r) == FileColumns(ms) + [fileColumn])
      && (forall i :: 0 <= i < |ms| && ms[i].fileColumn != fileColumn ==> r[i] == ms[i])
      && (forall i :: 0 <= i < |r| && r[i].fileColumn == fileColumn ==>
            r[i].databaseColumn == databaseColumn && r[i].isMapped == (databaseColumn != ""))
  {
    var r := MappingChanged(ms, fileColumn, databaseColumn);
    if fileColumn !in FileColumns(ms) {
      assert forall i :: 0 <= i < |ms| ==> ms[i].fileColumn != fileColumn;
    }
  }

  /** Changing mappings never introduces a second entry for a file column. */
  lemma MappingChangedNoDup(ms: seq<ColumnMapping>, fileColumn: string, databaseColumn: string)
    requires NoDup(FileColumns(ms))
    ensures NoDup(FileColumns(MappingChanged(ms, fileColumn, databaseColumn)))
  {
    MappingChangedSpec(ms, fileColumn, databaseColumn);
    if fileColumn !in FileColumns(ms) {
      NoDupSnoc(FileColumns(ms), fileColumn);
    }
  }

  function NotFor(fileColumn: string): ColumnMapping -> bool
  {
    (m: ColumnMapping) => m.fileColumn != fileColumn
  }

  /** `handleRemoveMapping`. */
  function MappingRemoved(ms: seq<ColumnMapping>, fileColumn: string): (r: seq<ColumnMapping>)
    ensures fileColumn !in FileColumns(r)
    ensures forall m: ColumnMapping :: m.fileColumn != fileColumn ==> (m in r <==> m in ms)
  {
    var r := Filter(ms, NotFor(fileColumn));
    assert forall i :: 0 <= i < |r| ==> r[i] in r;
    r
  }

  /** Removing a file column's mapping undoes any change made to it. */
  lemma {:induction false} RemoveAfterChange(ms: seq<ColumnMapping>, fileColumn: string, databaseColumn: string)
    ensures MappingRemoved(MappingChanged(ms, fileColumn, databaseColumn), fileColumn) == MappingRemoved(ms, fileColumn)
  {
    if fileColumn in FileColumns(ms) {
      RemoveAfterRetarget(ms, fileColumn, databaseColumn);
    } else {
      FilterSnoc(ms, ColumnMapping(fileColumn, databaseColumn, databaseColumn != ""), NotFor(fileColumn));
    }
  }

  lemma {:induction false} RemoveAfterRetarget(ms: seq<ColumnMapping>, fileColumn: string, databaseColumn: string)
    ensures Filter(Map(ms, Retargeter(fileColumn, databaseColumn)), NotFor(fileColumn)) == Filter(ms, NotFor(fileColumn))
  {
    if ms != [] {
      var m := Map(ms, Retargeter(fileColumn, databaseColumn));
      assert m[1..] == Map(ms[1..], Retargeter(fileColumn, databaseColumn));
      RemoveAfterRetarget(ms[1..], fileColumn, databaseColumn);
    }
  }

  function MappedOnly(ms: seq<ColumnMapping>): seq<ColumnMapping>
  {
    Filter(ms, (m: ColumnMapping) => m.isMapped)
  }

  // ---------------------------------------------------------------- payload

  /** The mapping sends this row's value: it is mapped, names a database column, and the cell is not blank. */
  predicate Sends(row: Record, m: ColumnMapping)
  {
    m.isMapped && m.databaseColumn != "" && m.fileColumn in row && Trim(row[m.fileColumn]) != ""
  }

  /** The record one row contributes: later mappings onto the same database column overwrite earlier ones. */
  function StudentData(row: Record, ms: seq<ColumnMapping>): Record
  {
    if ms == [] then map[]
    else
      var d := StudentData(row, ms[..|ms| - 1]);
      var m := ms[|ms| - 1];
      if Sends(row, m) then d[m.databaseColumn := Trim(row[m.fileColumn])] else d
  }

  /** The `mappings.forEach` that fills one student record. */
  method BuildStudentData(row: Record, ms: seq<ColumnMapping>) returns (data: Record)
    ensures data == StudentData(row, ms)
  {
    data := map[];
    for i := 0 to |ms|
      invariant data == StudentData(row, ms[..i])
    {
      assert ms[..i + 1][..i] == ms[..i];
      var m := ms[i];
      if m.isMapped && m.databaseColumn != "" && m.fileColumn in row {
        var value := row[m.fileColumn];
        if Trim(value) != "" {
          data := data[m.databaseColumn := Trim(value)];
        }
      }
    }
    assert ms[..|ms|] == ms;
  }

  /** Mapping `i` sends this row's value to database column `k`. */
  predicate SendsAt(row: Record, ms: seq<ColumnMapping>, i: int, k: string)
  {
    0 <= i < |ms| && Sends(row, ms[i]) && ms[i].databaseColumn == k
  }

  /** Mapping `i` is the last one that sends this row's value to database column `k`. */
  predicate LastSendsAt(row: Record, ms: seq<ColumnMapping>, i: int, k: string)
  {
    SendsAt(row, ms, i, k) && forall j :: i < j < |ms| ==> !SendsAt(row, ms, j, k)
  }

  /**
   * One database column: it is in the record exactly when some mapping sends to it, and then
   * holds the trimmed cell of the last mapping that sends to it.
   */
  lemma {:induction false} StudentDataKey(row: Record, ms: seq<ColumnMapping>, k: string)
    ensures k in StudentData(row, ms) <==> exists i :: SendsAt(row, ms, i, k)
    ensures k in StudentData(row, ms) ==>
      exists i :: LastSendsAt(row, ms, i, k) && StudentData(row, ms)[k] == Trim(row[ms[i].fileColumn])
  {
    if ms != [] {
      var n := |ms| - 1;
      var init := ms[..n];
      StudentDataKey(row, init, k);
      if SendsAt(row, ms, n, k) {
        assert StudentData(row, ms) == StudentData(row, init)[k := Trim(row[ms[n].fileColumn])];
        assert LastSendsAt(row, ms, n, k) && StudentData(row, ms)[k] == Trim(row[ms[n].fileColumn]);
      } else {
        StudentDataOtherKey(row, ms, init, k);
        if k in StudentData(row, init) {
          var i :| LastSendsAt(row, init, i, k) && StudentData(row, init)[k] == Trim(row[init[i].fileColumn]);
          LastSendsAtExtends(row, ms, init, i, k);
        }
        if exists i :: SendsAt(row, ms, i, k) {
          var i :| SendsAt(row, ms, i, k);
          SendsAtPrefix(row, ms, init, i, k);
        }
      }
    }
  }

  /** A last mapping that does not send to `k` leaves the record's `k` entry as it was. */
  lemma StudentDataOtherKey(row: Record, ms: seq<ColumnMapping>, init: seq<ColumnMapping>, k: string)
    requires ms != [] && init == ms[..|ms| - 1] && !SendsAt(row, ms, |ms| - 1, k)
    ensures (k in StudentData(row, ms)) == (k in StudentData(row, init))
    ensures k in StudentData(row, init) ==> StudentData(row, ms)[k] == StudentData(row, init)[k]
  {
  }

  /** The last sender to `k` among the first mappings stays the last when the final mapping does not send to `k`. */
  lemma LastSendsAtExtends(row: Record, ms: seq<ColumnMapping>, init: seq<ColumnMapping>, i: int, k: string)
    requires ms != [] && init == ms[..|ms| - 1] && !SendsAt(row, ms, |ms| - 1, k)
    requires LastSendsAt(row, init, i, k)
    ensures LastSendsAt(row, ms, i, k) && init[i] == ms[i]
  {
    SendsAtPrefix(row, ms, init, i, k);
    forall j | i < j < |ms|
      ensures !SendsAt(row, ms, j, k)
    {
      if j < |ms| - 1 {
        SendsAtPrefix(row, ms, init, j, k);
      }
    }
  }

  lemma SendsAtPrefix(row: Record, ms: seq<ColumnMapping>, init: seq<ColumnMapping>, i: int, k: string)
    requires ms != [] && init == ms[..|ms| - 1] && i != |ms| - 1
    ensures SendsAt(row, init, i, k) == SendsAt(row, ms, i, k)
    ensures 0 <= i < |init| ==> init[i] == ms[i]
  {
  }


  /**
   * A database column appears in a row's record exactly when some mapping sends a value to
   * it, and the value sent is the trimmed, non-blank cell of the last such mapping.
   */
  lemma StudentDataSpec(row: Record, ms: seq<ColumnMapping>)
    ensures forall k :: k in StudentData(row, ms) <==> exists i :: SendsAt(row, ms, i, k)
    ensures forall k :: k in StudentData(row, ms) ==>
      exists i :: LastSendsAt(row, ms, i, k) && StudentData(row, ms)[k] == Trim(row[ms[i].fileColumn])
  {
    forall k {
      StudentDataKey(row, ms, k);
    }
  }

  function StudentDataOf(ms: seq<ColumnMapping>): Record -> Record
  {
    (row: Record) => StudentData(row, ms)
  }

  predicate NonEmpty(d: Record)
  {
    |d| > 0
  }

  /** What the import sends: nothing without a school or without rows, else one non-empty record per row that has one. */
  function ImportPayload(hasSchool: bool, records: seq<Record>, ms: seq<ColumnMapping>): (r: Option<seq<Record>>)
    ensures r.Some? ==> |r.value| <= |records| && forall d :: d in r.value ==> NonEmpty(d)
  {
    if !hasSchool || |records| == 0 then None
    else Some(Filter(Map(records, StudentDataOf(ms)), NonEmpty))
  }

  /** Every value in a row's record is a trimmed, non-blank cell sent there by a mapped column. */
  lemma StudentDataValues(row: Record, ms: seq<ColumnMapping>)
    ensures forall k :: k in StudentData(row, ms) ==>
      exists i :: 0 <= i < |ms| && ms[i].isMapped && ms[i].databaseColumn == k
        && Trim(StudentData(row, ms)[k]) == StudentData(row, ms)[k] && StudentData(row, ms)[k] != ""
  {
    StudentDataSpec(row, ms);
    var d := StudentData(row, ms);
    forall k | k in d
      ensures exists i :: 0 <= i < |ms| && ms[i].isMapped && ms[i].databaseColumn == k && Trim(d[k]) == d[k] && d[k] != ""
    {
      var i :| SendsAt(row, ms, i, k) && d[k] == Trim(row[ms[i].fileColumn]);
      TrimIdempotent(row[ms[i].fileColumn]);
    }
  }

  /** Every record sent is a row's non-empty record: mapped database columns with trimmed, non-blank values. */
  lemma PayloadRecordsSpec(hasSchool: bool, records: seq<Record>, ms: seq<ColumnMapping>, d: Record)
    requires ImportPayload(hasSchool, records, ms).Some? && d in ImportPayload(hasSchool, records, ms).value
    ensures d != map[]
    ensures exists j :: 0 <= j < |records| && d == StudentData(records[j], ms)
    ensures forall k :: k in d ==> exists i :: 0 <= i < |ms| && ms[i].isMapped && ms[i].databaseColumn == k && Trim(d[k]) == d[k] && d[k] != ""
  {
    var all := Map(records, StudentDataOf(ms));
    assert d in all;
    var j :| 0 <= j < |all| && all[j] == d;
    StudentDataValues(records[j], ms);
  }

  // ---------------------------------------------------------------- the wizard

  datatype Step = UploadStep | Select | MappingStep | Preview | Importing | Complete

  /** The RPC's result row. */
  datatype ImportResult = ImportResult(insertedCount: int, errorCount: int, errors: seq<BulkStudentImport.RowFailure>)

  datatype WizardState = WizardState(
    step: Step, fileColumns: seq<string>, selectedColumns: seq<string>, mappings: seq<ColumnMapping>,
    records: seq<Record>, results: Option<ImportResult>)

  function Initial(): WizardState
  {
    WizardState(UploadStep, [], [], [], [], None)
  }

  /** A file read: the non-empty records and the header list replace the old ones; selections and mappings stay. */
  function FileParsed(s: WizardState, u: Upload): WizardState
  {
    s.(records := ContentRecords(Records(u)), fileColumns := Headers(u), step := Select)
  }

  /** `handleColumnToggle`. */
  function ColumnToggled(s: WizardState, columnId: string): WizardState
  {
    s.(selectedColumns := Toggle(s.selectedColumns, columnId))
  }

  /** Toggling a column flips exactly its membership; toggling an unselected column twice restores the selection. */
  lemma ColumnToggleRule(s: WizardState, columnId: string)
    ensures forall c :: c in ColumnToggled(s, columnId).selectedColumns <==> (if c == columnId then c !in s.selectedColumns else c in s.selectedColumns)
    ensures columnId !in s.selectedColumns ==> ColumnToggled(ColumnToggled(s, columnId), columnId) == s
  {
    ToggleMembership(s.selectedColumns, columnId);
    if columnId !in s.selectedColumns {
      ToggleTwice(s.selectedColumns, columnId);
    }
  }

  function MappingChangedIn(s: WizardState, fileColumn: string, databaseColumn: string): WizardState
  {
    s.(mappings := MappingChanged(s.mappings, fileColumn, databaseColumn))
  }

  function MappingRemovedIn(s: WizardState, fileColumn: string): WizardState
  {
    s.(mappings := MappingRemoved(s.mappings, fileColumn))
  }

  /** The Next button: blocked on an empty selection, and on a mapping list with nothing mapped. */
  function NextPressed(s: WizardState): WizardState
  {
    match s.step
    case Select => if |s.selectedColumns| == 0 then s else s.(step := MappingStep)
    case MappingStep => if |MappedOnly(s.mappings)| == 0 then s else s.(step := Preview)
    case Preview => s.(step := Importing)
    case _ => s
  }

  /** The Back button, shown on the select, mapping and preview steps. */
  function BackPressed(s: WizardState): WizardState
  {
    match s.step
    case Select => s.(step := UploadStep)
    case MappingStep => s.(step := Select)
    case Preview => s.(step := MappingStep)
    case _ => s
  }

  /** How the import call ended: the RPC's first result row, or an error (which only raises an alert). */
  datatype CallOutcome = CallSucceeded(result: ImportResult) | CallFailed

  /**
   * The mutation settles. Without a school or rows the function returns before calling and
   * succeeds with no result; a failed call leaves the wizard on the importing step.
   */
  function ImportSettled(s: WizardState, hasSchool: bool, outcome: CallOutcome): WizardState
  {
    if ImportPayload(hasSchool, s.records, s.mappings).None? then s.(results := None, step := Complete)
    else match outcome
      case CallSucceeded(result) => s.(results := Some(result), step := Complete)
      case CallFailed => s
  }

  /** The columns reported to the parent on success. */
  function ReportedColumns(s: WizardState): seq<string>
  {
    s.selectedColumns
  }

  function ImportReset(s: WizardState): WizardState
  {
    Initial()
  }

  /** Next never leaves the select step with no column selected, nor the mapping step with nothing mapped. */
  lemma NextGuards(s: WizardState)
    ensures s.step == Select ==> (NextPressed(s).step == MappingStep <==> |s.selectedColumns| > 0)
    ensures s.step == MappingStep ==> (NextPressed(s).step == Preview <==> |MappedOnly(s.mappings)| > 0)
    ensures NextPressed(s).selectedColumns == s.selectedColumns && NextPressed(s).mappings == s.mappings
  {
  }

  /** Back walks preview, mapping, select, upload, and changes nothing but the step. */
  lemma BackWalksBack(s: WizardState)
    requires s.step in [Select, MappingStep, Preview]
    ensures BackPressed(s) == s.(step := if s.step == Select then UploadStep else if s.step == MappingStep then Select else MappingStep)
  {
  }

  /** A failed call strands the wizard on the importing step; only a successful or skipped call completes it. */
  lemma FailureStaysImporting(s: WizardState, hasSchool: bool)
    requires hasSchool && |s.records| > 0
    ensures ImportSettled(s, hasSchool, CallFailed) == s
  {
  }

  class FlexibleImporter {
    var step: Step
    var fileColumns: seq<string>
    var selectedColumns: seq<string>
    var mappings: seq<ColumnMapping>
    var records: seq<Record>
    var results: Option<ImportResult>

    function State(): WizardState
      reads this
    {
      WizardState(step, fileColumns, selectedColumns, mappings, records, results)
    }

    constructor()
      ensures State() == Initial()
    {
      step := UploadStep;
      fileColumns := [];
      selectedColumns := [];
      mappings := [];
      records := [];
      results := None;
    }

    method OnFileParsed(u: Upload)
      modifies this
      ensures State() == FileParsed(old(State()), u)
    {
      var parsed: seq<Record>;
      if u.CsvFile? {
        parsed := u.rows;
      } else {
        parsed := SheetRecords(u.table);
      }
      records := ContentRecords(parsed);
      fileColumns := Headers(u);
      step := Select;
    }

    method HandleColumnToggle(columnId: string)
      modifies this
      ensures State() == ColumnToggled(old(State()), columnId)
    {
      selectedColumns := Toggle(selectedColumns, columnId);
    }

    method HandleMappingChange(fileColumn: string, databaseColumn: string)
      modifies this
      ensures State() == MappingChangedIn(old(State()), fileColumn, databaseColumn)
    {
      mappings := MappingChanged(mappings, fileColumn, databaseColumn);
    }

    method HandleRemoveMapping(fileColumn: string)
      modifies this
      ensures State() == MappingRemovedIn(old(State()), fileColumn)
    {
      mappings := MappingRemoved(mappings, fileColumn);
    }

    method Next()
      modifies this
      ensures State() == NextPressed(old(State()))
    {
      if step == Select && |selectedColumns| > 0 {
        step := MappingStep;
      } else if step == MappingStep && |MappedOnly(mappings)| > 0 {
        step := Preview;
      } else if step == Preview {
        step := Importing;
      }
    }

    method Back()
      modifies this
      ensures State() == BackPressed(old(State()))
    {
      if step == Select {
        step := UploadStep;
      } else if step == MappingStep {
        step := Select;
      } else if step == Preview {
        step := MappingStep;
      }
    }

    method OnImportSettled(hasSchool: bool, outcome: CallOutcome)
      modifies this
      ensures State() == ImportSettled(old(State()), hasSchool, outcome)
    {
      if !hasSchool || |records| == 0 {
        results := None;
        step := Complete;
      } else if outcome.CallSucceeded? {
        results := Some(outcome.result);
        step := Complete;
      }
    }

    method HandleReset()
      modifies this
      ensures State() == ImportReset(old(State()))
    {
      step := UploadStep;
      fileColumns := [];
      selectedColumns := [];
      mappings := [];
      records := [];
      results := None;
    }
  }
}
