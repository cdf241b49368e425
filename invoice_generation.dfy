/**
 * The invoice-generation screen of src/components/school-admin/InvoiceGeneration.tsx: the
 * chosen fee item and due date, the set of students the invoices are for, the student
 * lists the screen derives, the generate guard with the choice between the per-student
 * and the whole-school database procedure, and the prefilled fee options.
 * Fee items and students come from queries and are parameters here; the clock-derived
 * due date of a prefilled option is a parameter too.
 */
module InvoiceGeneration {
  import opened Wrappers
  import opened Strings
  import opened Lists
  import opened StringOrder

  /** A student row; a missing name or class reads as ''. */
  datatype Student = Student(id: string, name: string, className: string)

  datatype FeeItem = FeeItem(id: string, name: string)

  // ---------------------------------------------------------------- derived lists

  /** The search matches the lower-cased name or class. */
  predicate SearchMatches(searchTerm: string, st: Student)
  {
    Contains(ToLower(st.name), ToLower(searchTerm)) || Contains(ToLower(st.className), ToLower(searchTerm))
  }

  function ShownBy(searchTerm: string, classFilter: string): Student -> bool
  {
    (st: Student) => SearchMatches(searchTerm, st) && (classFilter == "" || st.className == classFilter)
  }

  /** `filteredStudents`: search and class filter together; an empty class filter lets every class through. */
  function FilteredStudents(students: seq<Student>, searchTerm: string, classFilter: string): (r: seq<Student>)
    ensures forall st :: st in r <==> st in students && SearchMatches(searchTerm, st) && (classFilter == "" || st.className == classFilter)
  {
    Filter(students, ShownBy(searchTerm, classFilter))
  }

  /** An empty search term matches every student. */
  lemma EmptySearchMatchesAll(st: Student)
    ensures SearchMatches("", st)
  {
    ContainsEmptyAndSelf(ToLower(st.name));
  }

  function Chosen(selected: set<string>): Student -> bool
  {
    (st: Student) => st.id in selected
  }

  function Searched(searchTerm: string): Student -> bool
  {
    (st: Student) => SearchMatches(searchTerm, st)
  }

  /** `individualSelectionStudents`: nothing while hidden; the selected students once some are selected; else the search hits. */
  function IndividualSelectionStudents(show: bool, selected: set<string>, students: seq<Student>, searchTerm: string): (r: seq<Student>)
    ensures !show ==> r == []
    ensures show && selected != {} ==> forall st :: st in r <==> st in students && st.id in selected
    ensures show && selected == {} ==> forall st :: st in r <==> st in students && SearchMatches(searchTerm, st)
  {
    if !show then []
    else if selected != {} then Filter(students, Chosen(selected))
    else Filter(students, Searched(searchTerm))
  }

  function ClassOf(st: Student): string
  {
    st.className
  }

  /** `uniqueClasses`: the distinct class names, sorted. */
  function UniqueClasses(students: seq<Student>): seq<string>
  {
    Sort(Distinct(Map(students, ClassOf)))
  }

  /** The class list is sorted, repeats nothing, and holds exactly the students' classes. */
  lemma UniqueClassesSpec(students: seq<Student>)
    ensures Sorted(UniqueClasses(students)) && NoDup(UniqueClasses(students))
    ensures forall c :: c in UniqueClasses(students) <==> exists st :: st in students && st.className == c
  {
    var names := Map(students, ClassOf);
    SortSorted(Distinct(names));
    SortNoDup(Distinct(names));
    forall c
      ensures c in UniqueClasses(students) <==> exists st :: st in students && st.className == c
    {
      assert c in UniqueClasses(students) <==> c in multiset(Distinct(names));
      if c in names {
        var i :| 0 <= i < |names| && names[i] == c;
        assert students[i] in students;
      }
      if st :| st in students && st.className == c {
        var i :| 0 <= i < |students| && students[i] == st;
        assert names[i] == c;
      }
    }
  }

  // ---------------------------------------------------------------- selection

  /** The ids of a list of students, as the set the screen builds from them. */
  function IdSet(l: seq<Student>): set<string>
  {
    set st | st in l :: st.id
  }

  /** No two students share an id. */
  predicate DistinctIds(l: seq<Student>)
  {
    forall i, j :: 0 <= i < j < |l| ==> l[i].id != l[j].id
  }

  lemma {:induction false} IdSetSize(l: seq<Student>)
    requires DistinctIds(l)
    ensures |IdSet(l)| == |l|
  {
    if l != [] {
      IdSetSize(l[1..]);
      assert IdSet(l) == {l[0].id} + IdSet(l[1..]);
      assert l[0].id !in IdSet(l[1..]);
    }
  }

  lemma {:induction false} FilterDistinctIds(l: seq<Student>, p: Student -> bool)
    requires DistinctIds(l)
    ensures DistinctIds(Filter(l, p))
  {
    if l != [] {
      FilterDistinctIds(l[1..], p);
      var rest := Filter(l[1..], p);
      if p(l[0]) {
        assert forall k :: 0 <= k < |rest| ==> rest[k] in l[1..];
      }
    }
  }

  /** `handleStudentSelection`. */
  function StudentToggled(selected: set<string>, id: string): set<string>
  {
    if id in selected then selected - {id} else selected + {id}
  }

  /** Toggling flips exactly that id, and toggling twice restores the selection. */
  lemma StudentToggleRule(selected: set<string>, id: string)
    ensures id in StudentToggled(selected, id) <==> id !in selected
    ensures forall other :: other != id ==> (other in StudentToggled(selected, id) <==> other in selected)
    ensures StudentToggled(StudentToggled(selected, id), id) == selected
  {
  }

  /** `handleSelectAll`: only the sizes are compared; equal sizes clear, otherwise the shown ids replace the selection. */
  function SelectAll(selected: set<string>, shown: seq<Student>): set<string>
  {
    if |selected| == |shown| then {} else IdSet(shown)
  }

  /**
   * With some students selected and every selected id listed once, the list shows exactly
   * the selection, and Select All then works as a toggle: it clears the selection.
   */
  lemma SelectAllWithSelectionClears(selected: set<string>, students: seq<Student>, searchTerm: string)
    requires selected != {} && DistinctIds(students) && selected <= IdSet(students)
    ensures SelectAll(selected, IndividualSelectionStudents(true, selected, students, searchTerm)) == {}
  {
    var shown := IndividualSelectionStudents(true, selected, students, searchTerm);
    FilterDistinctIds(students, Chosen(selected));
    IdSetSize(shown);
    assert IdSet(shown) == selected;
  }

  /** From an empty selection with students shown, Select All selects exactly the shown students. */
  lemma SelectAllFromEmpty(students: seq<Student>, searchTerm: string)
    requires IndividualSelectionStudents(true, {}, students, searchTerm) != []
    ensures var shown := IndividualSelectionStudents(true, {}, students, searchTerm);
      forall id :: id in SelectAll({}, shown) <==> exists st :: st in students && SearchMatches(searchTerm, st) && st.id == id
  {
  }

  /** The ids of one class's students, in list order. */
  function ClassIds(students: seq<Student>, className: string): seq<string>
  {
    Map(Filter(students, KeyIs(ClassOf, className)), IdOf)
  }

  function IdOf(st: Student): string
  {
    st.id
  }

  /** `handleSelectAllInClass`: drop the class's ids when all are selected (vacuously so for an empty class), else add them. */
  function ClassSelected(selected: set<string>, classIds: seq<string>): (r: set<string>)
  {
    var ids := set id | id in classIds;
    if ids <= selected then selected - ids else selected + ids
  }

  /** Ids outside the class keep their state; the class ends all deselected or all selected; an empty class changes nothing. */
  lemma ClassSelectionRule(selected: set<string>, classIds: seq<string>)
    ensures forall id :: id !in classIds ==> (id in ClassSelected(selected, classIds) <==> id in selected)
    ensures (forall id :: id in classIds ==> id in selected) ==> forall id :: id in classIds ==> id !in ClassSelected(selected, classIds)
    ensures (exists id :: id in classIds && id !in selected) ==> forall id :: id in classIds ==> id in ClassSelected(selected, classIds)
    ensures classIds == [] ==> ClassSelected(selected, classIds) == selected
  {
  }

  /** The class button: selected only for a non-empty class whose ids are all selected. */
  function ClassButton(selected: set<string>, classIds: seq<string>, show: bool): (set<string>, bool)
  {
    var isSelected := (forall id :: id in classIds ==> id in selected) && |classIds| > 0;
    var ids := set id | id in classIds;
    if isSelected then (selected - ids, show) else (selected + ids, true)
  }

  /** The button and `handleSelectAllInClass` agree on the selection, empty classes included; only the button opens the list. */
  lemma ClassButtonAgrees(selected: set<string>, classIds: seq<string>, show: bool)
    ensures ClassButton(selected, classIds, show).0 == ClassSelected(selected, classIds)
    ensures (exists id :: id in classIds && id !in selected) ==> ClassButton(selected, classIds, show).1
  {
    if classIds == [] {
      assert (set id | id in classIds) == {};
    }
  }

  // ---------------------------------------------------------------- generating

  datatype GenerationResult = GenerationResult(success: bool, message: string, count: Option<int>)

  datatype FormState = FormState(
    selectedFeeItem: string,
    dueDate: string,
    isGenerating: bool,
    generationResult: Option<GenerationResult>,
    showPrefilledOptions: bool,
    selectedStudents: set<string>,
    searchTerm: string,
    classFilter: string,
    showStudentSelection: bool)

  function Initial(): FormState
  {
    FormState("", "", false, None, false, {}, "", "", false)
  }

  /** What the mutation is called with; `studentIds` is undefined for the whole school. */
  datatype Request = Request(feeItemId: string, dueDate: string, studentIds: Option<set<string>>)

  /** The two database procedures the mutation chooses between. */
  datatype Procedure = ForStudents(ids: set<string>) | ForSchool

  /** The mutation's branch: the per-student procedure only for a non-empty id list. */
  function ProcedureFor(req: Request): (p: Procedure)
    ensures p.ForStudents? <==> req.studentIds.Some? && req.studentIds.value != {}
  {
    match req.studentIds
    case Some(ids) => if ids != {} then ForStudents(ids) else ForSchool
    case None => ForSchool
  }

  /** `handleGenerateInvoices` up to the mutation call; the request sent, if any. */
  function GenerateRequested(s: FormState): (FormState, Option<Request>)
  {
    if s.selectedFeeItem == "" || s.dueDate == "" then
      (s.(generationResult := Some(GenerationResult(false, "Please select a fee item and due date", None))), None)
    else
      var ids := if |s.selectedStudents| > 0 then Some(s.selectedStudents) else None;
      (s.(isGenerating := true, generationResult := None), Some(Request(s.selectedFeeItem, s.dueDate, ids)))
  }

  /** The guard sends nothing without a fee item and a due date; otherwise the selection decides the procedure. */
  lemma GenerateGuard(s: FormState)
    ensures GenerateRequested(s).1.None? <==> s.selectedFeeItem == "" || s.dueDate == ""
    ensures GenerateRequested(s).1.None? ==> GenerateRequested(s).0.generationResult.Some? && !GenerateRequested(s).0.generationResult.value.success
    ensures GenerateRequested(s).1.Some? ==>
      && GenerateRequested(s).1.value.feeItemId == s.selectedFeeItem
      && (ProcedureFor(GenerateRequested(s).1.value) == if s.selectedStudents == {} then ForSchool else ForStudents(s.selectedStudents))
  {
  }

  /** The submit button is enabled exactly when a fee item and due date are chosen and nothing is in flight. */
  predicate SubmitEnabled(s: FormState)
  {
    !s.isGenerating && s.selectedFeeItem != "" && s.dueDate != ""
  }

  lemma SubmitSends(s: FormState)
    requires SubmitEnabled(s)
    ensures GenerateRequested(s).1.Some? && GenerateRequested(s).0.isGenerating
  {
  }

  /** How the mutation ends: the procedure's count, or an error message ('' when it has none). */
  datatype MutationOutcome = Generated(count: int) | GenerationFailed(message: string)

  /** The mutation throws 'No school ID' before calling anything when the admin has no school. */
  function MutationResult(hasSchool: bool, procedureOutcome: MutationOutcome): MutationOutcome
  {
    if hasSchool then procedureOutcome else GenerationFailed("No school ID")
  }

  /** `onSuccess` or `onError`, then `finally` clears the in-flight flag. */
  function GenerationSettled(s: FormState, outcome: MutationOutcome): FormState
  {
    match outcome
    case Generated(count) =>
      s.(generationResult := Some(GenerationResult(true, "Successfully generated " + IntToString(count) + " invoices!", Some(count))),
         selectedFeeItem := "", dueDate := "", selectedStudents := {}, showStudentSelection := false, isGenerating := false)
    case GenerationFailed(message) =>
      s.(generationResult := Some(GenerationResult(false, if message != "" then message else "Failed to generate invoices", None)),
         isGenerating := false)
  }

  /** Success resets the form and the selection; failure keeps them so the admin can retry; either way nothing is in flight. */
  lemma SettledRule(s: FormState, outcome: MutationOutcome)
    ensures !GenerationSettled(s, outcome).isGenerating
    ensures GenerationSettled(s, outcome).generationResult.Some?
    ensures GenerationSettled(s, outcome).generationResult.value.success <==> outcome.Generated?
    ensures outcome.Generated? ==> var t := GenerationSettled(s, outcome);
      t.selectedFeeItem == "" && t.dueDate == "" && t.selectedStudents == {} && !t.showStudentSelection
    ensures outcome.GenerationFailed? ==> var t := GenerationSettled(s, outcome);
      t.selectedFeeItem == s.selectedFeeItem && t.dueDate == s.dueDate && t.selectedStudents == s.selectedStudents
    ensures outcome.GenerationFailed? ==> GenerationSettled(s, outcome).generationResult.value.message != ""
  {
  }

  // ---------------------------------------------------------------- prefilled options

  datatype PrefilledOption = PrefilledOption(id: string, name: string, suggestedDueDays: nat)

  const PrefilledOptions: seq<PrefilledOption> := [
    PrefilledOption("monthly-tuition", "Monthly Tuition (Lacagta Waxbarashada)", 30),
    PrefilledOption("exam-fee", "Exam Fee (Lacagta Imtixaanka)", 14),
    PrefilledOption("library-fee", "Library Fee (Lacagta Maktabadda)", 7),
    PrefilledOption("sports-fee", "Sports Fee (Lacagta Ciyaaraha)", 21),
    PrefilledOption("book-fee", "Book Fee (Lacagta Buugga)", 14)
  ]

  /** `String.replace` with a string pattern: only the first '-' becomes a space. */
  function ReplaceFirstDash(s: string): (r: string)
    ensures |r| == |s|
    ensures forall i :: 0 <= i < |s| ==> (r[i] != s[i] <==> s[i] == '-' && forall j :: 0 <= j < i ==> s[j] != '-')
    ensures forall i :: 0 <= i < |s| && r[i] != s[i] ==> r[i] == ' '
  {
    if s == [] then []
    else if s[0] == '-' then [' '] + s[1..]
    else [s[0]] + ReplaceFirstDash(s[1..])
  }

  /** `split(' ')[0]`: everything before the first space. */
  function FirstWord(s: string): string
  {
    Split(s, ' ')[0]
  }

  /** An option matches a fee item whose lower-cased name contains its id with the dash spaced, or its name's first word. */
  predicate PrefilledMatches(option: PrefilledOption, item: FeeItem)
  {
    Contains(ToLower(item.name), ReplaceFirstDash(option.id)) || Contains(ToLower(item.name), FirstWord(ToLower(option.name)))
  }

  function MatchesOption(option: PrefilledOption): FeeItem -> bool
  {
    (item: FeeItem) => PrefilledMatches(option, item)
  }

  /** `feeItems.find(...)`: the first matching fee item. */
  function FindPrefilledFeeItem(items: seq<FeeItem>, option: PrefilledOption): (r: Option<FeeItem>)
    ensures r.None? <==> forall item :: item in items ==> !PrefilledMatches(option, item)
    ensures r.Some? ==> exists k :: (0 <= k < |items| && items[k] == r.value && PrefilledMatches(option, r.value)
      && forall j :: 0 <= j < k ==> !PrefilledMatches(option, items[j]))
  {
    if items == [] then None
    else if PrefilledMatches(option, items[0]) then Some(items[0])
    else
      var r := FindPrefilledFeeItem(items[1..], option);
      assert forall item :: item in items[1..] ==> item in items;
      if r.Some? then
        var k :| 0 <= k < |items[1..]| && items[1..][k] == r.value && PrefilledMatches(option, r.value)
          && forall j :: 0 <= j < k ==> !PrefilledMatches(option, items[1..][j]);
        assert items[k + 1] == r.value;
        r
      else r
  }

  /** The name match ignores the case of the fee item's name. */
  lemma PrefilledMatchIgnoresCase(option: PrefilledOption, item: FeeItem)
    ensures PrefilledMatches(option, FeeItem(item.id, ToLower(item.name))) == PrefilledMatches(option, item)
  {
    ToLowerIdempotent(item.name);
  }

  /**
   * `handlePrefilledInvoiceGeneration`: without a match it reports the missing fee item;
   * with one it asks for invoices for the whole school, due on the given date.
   */
  function PrefilledRequested(s: FormState, items: seq<FeeItem>, option: PrefilledOption, dueDateString: string): (FormState, Option<Request>)
  {
    match FindPrefilledFeeItem(items, option)
    case None =>
      (s.(generationResult := Some(GenerationResult(false, "No matching fee item found for " + option.name + ". Please create the fee item first.", None))), None)
    case Some(item) =>
      (s.(isGenerating := true, generationResult := None, showPrefilledOptions := false), Some(Request(item.id, dueDateString, None)))
  }

  /** The option card: a click on an unavailable card does nothing, so the handler's own failure message never shows from the screen. */
  function PrefilledClicked(s: FormState, items: seq<FeeItem>, option: PrefilledOption, dueDateString: string): (FormState, Option<Request>)
  {
    if FindPrefilledFeeItem(items, option).Some? then PrefilledRequested(s, items, option, dueDateString) else (s, None)
  }

  /** Prefilled requests always go to the whole-school procedure, whatever students are selected. */
  lemma PrefilledRule(s: FormState, items: seq<FeeItem>, option: PrefilledOption, dueDateString: string)
    ensures PrefilledClicked(s, items, option, dueDateString).1.Some? <==> exists item :: item in items && PrefilledMatches(option, item)
    ensures PrefilledClicked(s, items, option, dueDateString).1.Some? ==>
      ProcedureFor(PrefilledClicked(s, items, option, dueDateString).1.value) == ForSchool
    ensures PrefilledClicked(s, items, option, dueDateString).1.None? ==> PrefilledClicked(s, items, option, dueDateString).0 == s
  {
  }

  // ---------------------------------------------------------------- the screen

  class InvoiceGenerator {
    var selectedFeeItem: string
    var dueDate: string
    var isGenerating: bool
    var generationResult: Option<GenerationResult>
    var showPrefilledOptions: bool
    var selectedStudents: set<string>
    var searchTerm: string
    var classFilter: string
    var showStudentSelection: bool

    function State(): FormState
      reads this
    {
      FormState(selectedFeeItem, dueDate, isGenerating, generationResult, showPrefilledOptions,
        selectedStudents, searchTerm, classFilter, showStudentSelection)
    }

    constructor()
      ensures State() == Initial()
    {
      selectedFeeItem, dueDate, isGenerating, generationResult := "", "", false, None;
      showPrefilledOptions, selectedStudents, searchTerm, classFilter := false, {}, "", "";
      showStudentSelection := false;
    }

    /** The fee item select, the due date input and the search box; no control sets the class filter. */
    method SetFields(feeItem: string, date: string, search: string)
      modifies this
      ensures State() == old(State()).(selectedFeeItem := feeItem, dueDate := date, searchTerm := search)
    {
      selectedFeeItem, dueDate, searchTerm := feeItem, date, search;
    }

    method HandleStudentSelection(id: string)
      modifies this
      ensures State() == old(State()).(selectedStudents := StudentToggled(old(selectedStudents), id))
    {
      if id in selectedStudents {
        selectedStudents := selectedStudents - {id};
      } else {
        selectedStudents := selectedStudents + {id};
      }
    }

    method HandleSelectAll(students: seq<Student>)
      modifies this
      ensures State() == old(State()).(selectedStudents :=
        SelectAll(old(selectedStudents), IndividualSelectionStudents(old(showStudentSelection), old(selectedStudents), students, old(searchTerm))))
    {
      var shown := IndividualSelectionStudents(showStudentSelection, selectedStudents, students, searchTerm);
      if |selectedStudents| == |shown| {
        selectedStudents := {};
      } else {
        selectedStudents := IdSet(shown);
      }
    }

    /** `handleSelectAllInClass`: copies the selection and deletes or adds the class's ids one by one. */
    method HandleSelectAllInClass(students: seq<Student>, className: string)
      modifies this
      ensures State() == old(State()).(selectedStudents := ClassSelected(old(selectedStudents), ClassIds(students, className)))
    {
      var classIds := ClassIds(students, className);
      var allClassSelected := forall id :: id in classIds ==> id in selectedStudents;
      var newSelection := selectedStudents;
      if allClassSelected {
        newSelection := DeleteAll(newSelection, classIds);
      } else {
        newSelection := AddAll(newSelection, classIds);
      }
      selectedStudents := newSelection;
    }

    /** The per-class quick-select button. */
    method HandleClassButton(students: seq<Student>, className: string)
      modifies this
      ensures var r := ClassButton(old(selectedStudents), ClassIds(students, className), old(showStudentSelection));
        State() == old(State()).(selectedStudents := r.0, showStudentSelection := r.1)
    {
      var classIds := ClassIds(students, className);
      var isSelected := (forall id :: id in classIds ==> id in selectedStudents) && |classIds| > 0;
      var newSelected := selectedStudents;
      if isSelected {
        newSelected := DeleteAll(newSelected, classIds);
        selectedStudents := newSelected;
      } else {
        newSelected := AddAll(newSelected, classIds);
        selectedStudents := newSelected;
        showStudentSelection := true;
      }
    }

    /** The "All Students" button: clears the selection and opens the individual list. */
    method HandleAllStudents()
      modifies this
      ensures State() == old(State()).(selectedStudents := {}, showStudentSelection := true)
    {
      selectedStudents := {};
      showStudentSelection := true;
    }

    method ClearSelection()
      modifies this
      ensures State() == old(State()).(selectedStudents := {})
    {
      selectedStudents := {};
    }

    method ToggleStudentList()
      modifies this
      ensures State() == old(State()).(showStudentSelection := !old(showStudentSelection))
    {
      showStudentSelection := !showStudentSelection;
    }

    /** The close buttons of the prefilled panel; nothing on the screen opens it again. */
    method CloseTemplates()
      modifies this
      ensures State() == old(State()).(showPrefilledOptions := false)
    {
      showPrefilledOptions := false;
    }

    /** The form's submit; the request handed to the mutation, if any. */
    method HandleGenerateInvoices() returns (sent: Option<Request>)
      modifies this
      ensures State() == GenerateRequested(old(State())).0 && sent == GenerateRequested(old(State())).1
    {
      if selectedFeeItem == "" || dueDate == "" {
        generationResult := Some(GenerationResult(false, "Please select a fee item and due date", None));
        return None;
      }
      isGenerating := true;
      generationResult := None;
      var ids := if |selectedStudents| > 0 then Some(selectedStudents) else None;
      sent := Some(Request(selectedFeeItem, dueDate, ids));
    }

    method HandlePrefilled(items: seq<FeeItem>, option: PrefilledOption, dueDateString: string) returns (sent: Option<Request>)
      modifies this
      ensures State() == PrefilledRequested(old(State()), items, option, dueDateString).0
      ensures sent == PrefilledRequested(old(State()), items, option, dueDateString).1
    {
      var matching := FindPrefilledFeeItem(items, option);
      if matching.None? {
        generationResult := Some(GenerationResult(false, "No matching fee item found for " + option.name + ". Please create the fee item first.", None));
        return None;
      }
      isGenerating := true;
      generationResult := None;
      showPrefilledOptions := false;
      sent := Some(Request(matching.value.id, dueDateString, None));
    }

    method OnGenerationSettled(outcome: MutationOutcome)
      modifies this
      ensures State() == GenerationSettled(old(State()), outcome)
    {
      match outcome {
        case Generated(count) =>
          generationResult := Some(GenerationResult(true, "Successfully generated " + IntToString(count) + " invoices!", Some(count)));
          selectedFeeItem, dueDate := "", "";
          selectedStudents := {};
          showStudentSelection := false;
        case GenerationFailed(message) =>
          generationResult := Some(GenerationResult(false, if message != "" then message else "Failed to generate invoices", None));
      }
      isGenerating := false;
    }
  }

  /** `forEach(id => newSelection.delete(id))`. */
  method DeleteAll(selection: set<string>, ids: seq<string>) returns (r: set<string>)
    ensures r == selection - set id | id in ids
  {
    r := selection;
    for i := 0 to |ids|
      invariant r == selection - set id | id in ids[..i]
    {
      assert ids[..i + 1] == ids[..i] + [ids[i]];
      r := r - {ids[i]};
    }
    assert ids[..|ids|] == ids;
  }

  /** `forEach(id => newSelection.add(id))`. */
  method AddAll(selection: set<string>, ids: seq<string>) returns (r: set<string>)
    ensures r == selection + set id | id in ids
  {
    r := selection;
    for i := 0 to |ids|
      invariant r == selection + set id | id in ids[..i]
    {
      assert ids[..i + 1] == ids[..i] + [ids[i]];
      r := r + {ids[i]};
    }
    assert ids[..|ids|] == ids;
  }
}
