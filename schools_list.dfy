/**
 * The super administrator's school list of src/components/super-admin/SchoolsList.tsx:
 * schools searched by name or address and filtered by status, and the activation switch,
 * which deactivates only through a confirmation dialog with an optional reason. The calls
 * of the `toggle_school_active_status` procedure are recorded as requests; their success is
 * reported back by the caller.
 */
module SchoolsList {
  import opened Wrappers
  import opened Strings
  import opened Lists

  datatype School = School(id: string, name: string, address: Option<string>, isActive: bool)

  datatype StatusFilter = All | Active | Inactive

  // ---------------------------------------------------------------- filtering

  /** The name, or the address when there is one, includes the term, ignoring case. */
  predicate SearchMatches(searchTerm: string, school: School)
  {
    Contains(ToLower(school.name), ToLower(searchTerm)) ||
    (school.address.Some? && Contains(ToLower(school.address.value), ToLower(searchTerm)))
  }

  predicate StatusMatches(statusFilter: StatusFilter, school: School)
  {
    match statusFilter
    case All => true
    case Active => school.isActive
    case Inactive => !school.isActive
  }

  function Keeps(searchTerm: string, statusFilter: StatusFilter): School -> bool
  {
    (school: School) => SearchMatches(searchTerm, school) && StatusMatches(statusFilter, school)
  }

  /** `filteredSchools`: nothing before the procedure answers, then the schools passing both tests, in order. */
  function FilteredSchools(schools: Option<seq<School>>, searchTerm: string, statusFilter: StatusFilter): (r: seq<School>)
    ensures schools.None? ==> r == []
    ensures schools.Some? ==> forall school :: school in r <==>
      school in schools.value && SearchMatches(searchTerm, school) && StatusMatches(statusFilter, school)
  {
    match schools
    case None => []
    case Some(l) => Filter(l, Keeps(searchTerm, statusFilter))
  }

  /** Every school that passes the search is shown once under "All" and under exactly one of the other two filters. */
  lemma {:induction false} StatusFiltersPartition(schools: seq<School>, searchTerm: string)
    ensures |FilteredSchools(Some(schools), searchTerm, Active)| + |FilteredSchools(Some(schools), searchTerm, Inactive)| ==
      |FilteredSchools(Some(schools), searchTerm, All)|
  {
    if schools != [] {
      var init, last := schools[..|schools| - 1], schools[|schools| - 1];
      assert schools == init + [last];
      StatusFiltersPartition(init, searchTerm);
      FilterSnoc(init, last, Keeps(searchTerm, Active));
      FilterSnoc(init, last, Keeps(searchTerm, Inactive));
      FilterSnoc(init, last, Keeps(searchTerm, All));
    }
  }

  /** With an empty term the status filter alone decides. */
  lemma EmptySearchMatchesAll(school: School)
    ensures SearchMatches("", school)
  {
    ContainsEmptyAndSelf(ToLower(school.name));
  }

  // ---------------------------------------------------------------- the activation switch

  /** A call of `toggle_school_active_status`; an activation passes no reason. */
  datatype ToggleRequest = ToggleRequest(schoolId: string, isActive: bool, reason: Option<string>)

  class SchoolsScreen {
    var searchTerm: string
    var statusFilter: StatusFilter
    var showDeactivateModal: bool
    var selectedSchool: Option<School>
    var deactivateReason: string
    /** The procedure calls made so far, in order. */
    var requests: seq<ToggleRequest>

    /** The dialog is open exactly while a school is selected, and only an active school is ever selected. */
    predicate Valid()
      reads this
    {
      (showDeactivateModal <==> selectedSchool.Some?) && (selectedSchool.Some? ==> selectedSchool.value.isActive)
    }

    constructor()
      ensures Valid()
      ensures searchTerm == "" && statusFilter == All && !showDeactivateModal && selectedSchool.None?
      ensures deactivateReason == "" && requests == []
    {
      searchTerm := "";
      statusFilter := All;
      showDeactivateModal := false;
      selectedSchool := None;
      deactivateReason := "";
      requests := [];
    }

    /** `handleToggleSchoolStatus`: an active school opens the dialog; an inactive one is reactivated at once. */
    method HandleToggleSchoolStatus(school: School)
      requires Valid()
      modifies this
      ensures Valid()
      ensures school.isActive ==> selectedSchool == Some(school) && showDeactivateModal && requests == old(requests)
      ensures !school.isActive ==> requests == old(requests) + [ToggleRequest(school.id, true, None)]
      ensures !school.isActive ==> selectedSchool == old(selectedSchool) && showDeactivateModal == old(showDeactivateModal)
      ensures deactivateReason == old(deactivateReason) && searchTerm == old(searchTerm) && statusFilter == old(statusFilter)
    {
      if school.isActive {
        selectedSchool := Some(school);
        showDeactivateModal := true;
      } else {
        requests := requests + [ToggleRequest(school.id, true, None)];
      }
    }

    /** Typing the reason. */
    method SetDeactivateReason(reason: string)
      requires Valid()
      modifies this
      ensures Valid()
      ensures deactivateReason == reason && requests == old(requests)
      ensures selectedSchool == old(selectedSchool) && showDeactivateModal == old(showDeactivateModal)
    {
      deactivateReason := reason;
    }

    /** `handleConfirmDeactivation`: the selected school is deactivated with the typed reason; without one, nothing. */
    method HandleConfirmDeactivation()
      requires Valid()
      modifies this
      ensures Valid()
      ensures old(selectedSchool).None? ==> requests == old(requests)
      ensures old(selectedSchool).Some? ==>
        requests == old(requests) + [ToggleRequest(old(selectedSchool).value.id, false, Some(old(deactivateReason)))]
      ensures selectedSchool == old(selectedSchool) && showDeactivateModal == old(showDeactivateModal)
      ensures deactivateReason == old(deactivateReason)
    {
      if selectedSchool.Some? {
        requests := requests + [ToggleRequest(selectedSchool.value.id, false, Some(deactivateReason))];
      }
    }

    /** The procedure call succeeded: the dialog closes and forgets the school and the reason. */
    method ToggleSucceeded()
      requires Valid()
      modifies this
      ensures Valid()
      ensures !showDeactivateModal && selectedSchool.None? && deactivateReason == ""
      ensures requests == old(requests) && searchTerm == old(searchTerm) && statusFilter == old(statusFilter)
    {
      showDeactivateModal := false;
      selectedSchool := None;
      deactivateReason := "";
    }

    /** The dialog's Cancel button: the same reset, with no call. */
    method Cancel()
      requires Valid()
      modifies this
      ensures Valid()
      ensures !showDeactivateModal && selectedSchool.None? && deactivateReason == ""
      ensures requests == old(requests) && searchTerm == old(searchTerm) && statusFilter == old(statusFilter)
    {
      showDeactivateModal := false;
      selectedSchool := None;
      deactivateReason := "";
    }
  }

  /**
   * A school is deactivated only through the dialog: toggling an active school and then
   * confirming sends exactly one deactivation of that school, with the reason typed in
   * between, and cancelling instead sends nothing.
   */
  method DeactivationNeedsConfirm(screen: SchoolsScreen, school: School, reason: string)
    requires screen.Valid() && school.isActive
    modifies screen
    ensures screen.requests == old(screen.requests) + [ToggleRequest(school.id, false, Some(reason))]
  {
    screen.HandleToggleSchoolStatus(school);
    assert screen.requests == old(screen.requests);
    screen.SetDeactivateReason(reason);
    screen.HandleConfirmDeactivation();
  }

  method CancelSendsNothing(screen: SchoolsScreen, school: School, reason: string)
    requires screen.Valid() && school.isActive
    modifies screen
    ensures screen.requests == old(screen.requests) && screen.selectedSchool.None?
  {
    screen.HandleToggleSchoolStatus(school);
    screen.SetDeactivateReason(reason);
    screen.Cancel();
    screen.HandleConfirmDeactivation();
  }
}
