/**
 * The student list of src/components/school-admin/StudentsList.tsx: fetched rows are
 * normalised, searched by name or class, and shown with the default columns followed by
 * the imported ones. Adding, editing and deleting are guarded and then handed to the
 * database; the database calls are outcomes here.
 */
module StudentsList {
  import opened Wrappers
  import opened Strings
  import opened Lists

  /** A row as the database returns it; a missing name or class is `None`. */
  datatype FetchedStudent = FetchedStudent(id: string, name: Option<string>, className: Option<string>)

  datatype Student = Student(id: string, name: string, className: string)

  /** `name || ''` and `class_name || ''`. */
  function Normalised(row: FetchedStudent): (r: Student)
    ensures r.id == row.id
    ensures row.name.Some? ==> r.name == row.name.value
    ensures row.name.None? ==> r.name == ""
    ensures row.className.Some? ==> r.className == row.className.value
    ensures row.className.None? ==> r.className == ""
  {
    Student(row.id, row.name.GetOr(""), row.className.GetOr(""))
  }

  /** The query's result: every fetched row normalised, in order. */
  function NormalisedRows(rows: seq<FetchedStudent>): (r: seq<Student>)
    ensures |r| == |rows| && forall k :: 0 <= k < |rows| ==> r[k] == Normalised(rows[k])
  {
    Map(rows, Normalised)
  }

  // ---------------------------------------------------------------- search

  /** The name or the class includes the term, ignoring case. */
  predicate SearchMatches(searchTerm: string, st: Student)
  {
    Contains(ToLower(st.name), ToLower(searchTerm)) || Contains(ToLower(st.className), ToLower(searchTerm))
  }

  function MatchesTerm(searchTerm: string): Student -> bool
  {
    (st: Student) => SearchMatches(searchTerm, st)
  }

  /** `filteredStudents`: the matching students, in list order. */
  function FilteredStudents(students: seq<Student>, searchTerm: string): (r: seq<Student>)
    ensures forall st :: st in r <==> st in students && SearchMatches(searchTerm, st)
  {
    Filter(students, MatchesTerm(searchTerm))
  }

  /** An empty term keeps the whole list. */
  lemma EmptySearchKeepsAll(students: seq<Student>)
    ensures FilteredStudents(students, "") == students
  {
    forall k | 0 <= k < |students|
      ensures SearchMatches("", students[k])
    {
      ContainsEmptyAndSelf(ToLower(students[k].name));
    }
    FilterAll(students, MatchesTerm(""));
  }

  /** Upper- and lower-case spellings of a term select the same students. */
  lemma SearchIgnoresCase(searchTerm: string, st: Student)
    ensures SearchMatches(searchTerm, st) <==> SearchMatches(ToLower(searchTerm), st)
  {
    ToLowerIdempotent(searchTerm);
  }

  // ---------------------------------------------------------------- columns

  const DefaultColumns: seq<string> := ["name", "class_name"]

  /** `getVisibleColumns`: the defaults, then the imported columns, each once, first occurrence kept. */
  function VisibleColumns(importedColumns: seq<string>): seq<string>
  {
    Distinct(DefaultColumns + importedColumns)
  }

  /**
   * The table always starts with the name and class columns, shows every imported column
   * once and nothing else, in the order of first occurrence.
   */
  lemma VisibleColumnsRule(importedColumns: seq<string>)
    ensures |VisibleColumns(importedColumns)| >= 2
    ensures VisibleColumns(importedColumns)[0] == "name" && VisibleColumns(importedColumns)[1] == "class_name"
    ensures NoDup(VisibleColumns(importedColumns))
    ensures forall c :: c in VisibleColumns(importedColumns) <==> c in DefaultColumns || c in importedColumns
    ensures forall i, j :: 0 <= i < j < |VisibleColumns(importedColumns)| ==>
      IndexOf(DefaultColumns + importedColumns, VisibleColumns(importedColumns)[i]) <
      IndexOf(DefaultColumns + importedColumns, VisibleColumns(importedColumns)[j])
  {
    DistinctOfNoDup(DefaultColumns);
    DistinctPrefix(DefaultColumns, importedColumns);
    DistinctOrder(DefaultColumns + importedColumns);
  }

  /** The Contact column appears when e-mail or phone is among the visible columns. */
  predicate ContactShown(visibleColumns: seq<string>)
  {
    "email" in visibleColumns || "phone" in visibleColumns
  }

  lemma ContactShownRule(importedColumns: seq<string>)
    ensures ContactShown(VisibleColumns(importedColumns)) <==> "email" in importedColumns || "phone" in importedColumns
  {
    assert "email" !in DefaultColumns && "phone" !in DefaultColumns;
  }

  // ---------------------------------------------------------------- add, edit, delete

  datatype NewStudent = NewStudent(name: string, className: string)

  /** A form is sent only with a name and a class that are not blank; the values go as typed. */
  predicate Filled(name: string, className: string)
  {
    Trim(name) != "" && Trim(className) != ""
  }

  /** `handleAddStudent`: the insert request, if any. */
  function AddRequested(form: NewStudent): (r: Option<NewStudent>)
    ensures r.Some? <==> Filled(form.name, form.className)
    ensures r.Some? ==> r.value == form
  {
    if Filled(form.name, form.className) then Some(form) else None
  }

  datatype UpdateRequest = UpdateRequest(id: string, name: string, className: string)

  /** `handleUpdateStudent`: nothing without a student being edited or with a blank field. */
  function UpdateRequested(editing: Option<Student>): (r: Option<UpdateRequest>)
    ensures r.Some? <==> editing.Some? && Filled(editing.value.name, editing.value.className)
    ensures r.Some? ==> r.value == UpdateRequest(editing.value.id, editing.value.name, editing.value.className)
  {
    match editing
    case None => None
    case Some(st) => if Filled(st.name, st.className) then Some(UpdateRequest(st.id, st.name, st.className)) else None
  }

  /** A blank name or class is refused even when padded with spaces. */
  lemma BlankNotFilled(name: string, className: string)
    requires forall i :: 0 <= i < |name| ==> IsSpace(name[i])
    ensures !Filled(name, className)
  {
    TrimEmptyIff(name);
  }

  /** The database writes a delete performs. */
  datatype Write = DeleteInvoicesOf(studentId: string) | DeleteStudentRow(studentId: string)

  /**
   * `handleDeleteStudent` with its mutation: nothing without an id or without the user's
   * confirmation; otherwise the student's invoices go first, and the student row only
   * when that succeeded.
   */
  function DeleteWrites(studentId: string, confirmed: bool, invoicesDeleted: bool): (r: seq<Write>)
  {
    if studentId == "" || !confirmed then []
    else if invoicesDeleted then [DeleteInvoicesOf(studentId), DeleteStudentRow(studentId)]
    else [DeleteInvoicesOf(studentId)]
  }

  /** A student row is never deleted while its invoices remain, and never without an id and a confirmation. */
  lemma DeleteOrder(studentId: string, confirmed: bool, invoicesDeleted: bool)
    ensures forall k :: 0 <= k < |DeleteWrites(studentId, confirmed, invoicesDeleted)| ==>
      DeleteWrites(studentId, confirmed, invoicesDeleted)[k].studentId == studentId
    ensures DeleteStudentRow(studentId) in DeleteWrites(studentId, confirmed, invoicesDeleted) <==>
      studentId != "" && confirmed && invoicesDeleted
    ensures DeleteWrites(studentId, confirmed, invoicesDeleted) != [] ==>
      DeleteWrites(studentId, confirmed, invoicesDeleted)[0] == DeleteInvoicesOf(studentId)
  {
  }

  // ---------------------------------------------------------------- the screen

  datatype ListState = ListState(searchTerm: string, showAddForm: bool, editing: Option<Student>,
    newStudent: NewStudent, importedColumns: seq<string>)

  function Initial(): ListState
  {
    ListState("", false, None, NewStudent("", ""), [])
  }

  /** The insert succeeded: the form is cleared and hidden. */
  function AddSucceeded(s: ListState): (r: ListState)
    ensures r.newStudent == NewStudent("", "") && !r.showAddForm
    ensures r.editing == s.editing && r.searchTerm == s.searchTerm && r.importedColumns == s.importedColumns
  {
    s.(newStudent := NewStudent("", ""), showAddForm := false)
  }

  /** The update succeeded: editing ends. */
  function UpdateSucceeded(s: ListState): (r: ListState)
    ensures r.editing.None?
    ensures r.newStudent == s.newStudent && r.showAddForm == s.showAddForm && r.searchTerm == s.searchTerm
  {
    s.(editing := None)
  }

  /** `handleImportComplete`: the imported columns replace the previous ones. */
  function ImportCompleted(s: ListState, columns: seq<string>): (r: ListState)
    ensures r.importedColumns == columns && r.editing == s.editing && r.newStudent == s.newStudent
  {
    s.(importedColumns := columns)
  }
}
