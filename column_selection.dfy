/**
 * The column-choice step of the flexible import, src/components/school-admin/ColumnSelection.tsx:
 * the known student columns grouped by category, which of them are selected, and which
 * of them the uploaded file appears to contain.
 */
module ColumnSelection {
  import opened Strings
  import opened Lists
  import FlexibleBulkImport

  datatype ColumnOption = ColumnOption(id: string, name: string, displayName: string, fieldType: string, category: string)

  const ColumnOptions: seq<ColumnOption> := [
    ColumnOption("name", "name", "Full Name", "text", "essential"),
    ColumnOption("class_name", "class_name", "Class/Grade", "text", "essential"),
    ColumnOption("email", "email", "Email", "email", "contact"),
    ColumnOption("phone", "phone", "Phone Number", "phone", "contact"),
    ColumnOption("parent_name", "parent_name", "Parent Names", "text", "contact"),
    ColumnOption("student_id", "student_id", "Student ID", "text", "essential"),
    ColumnOption("date_of_birth", "date_of_birth", "Date of Birth", "date", "personal"),
    ColumnOption("gender", "gender", "Gender", "text", "personal")
  ]

  /** `getCategoryName`: the three known categories have labels, anything else is 'Other'. */
  function CategoryName(category: string): (r: string)
    ensures r == "Other" <==> category != "essential" && category != "contact" && category != "personal"
  {
    if category == "essential" then "Essential Information"
    else if category == "contact" then "Contact Information"
    else if category == "personal" then "Personal Information"
    else "Other"
  }

  function CategoryOf(o: ColumnOption): string
  {
    o.category
  }

  /** `groupedColumns`: one bucket per category in first-appearance order; the screen groups `ColumnOptions`. */
  function GroupedColumns(options: seq<ColumnOption>): seq<(string, seq<ColumnOption>)>
  {
    GroupBy(options, CategoryOf)
  }

  /** Every option is shown in exactly one group, its own category's, and groups keep the definition order. */
  lemma GroupedColumnsRule(options: seq<ColumnOption>, o: ColumnOption)
    requires o in options
    ensures CategoryOf(o) in Keys(GroupedColumns(options)) && NoDup(Keys(GroupedColumns(options)))
    ensures forall i :: 0 <= i < |GroupedColumns(options)| ==> (o in GroupedColumns(options)[i].1 <==> GroupedColumns(options)[i].0 == o.category)
    ensures forall i :: 0 <= i < |GroupedColumns(options)| ==> GroupedColumns(options)[i].1 == Filter(options, KeyIs(CategoryOf, GroupedColumns(options)[i].0))
  {
    GroupedOnce(options, CategoryOf, o);
    GroupByCorrect(options, CategoryOf);
  }

  /** `isSelected`. */
  predicate IsSelected(selectedColumns: seq<string>, o: ColumnOption)
  {
    o.id in selectedColumns
  }

  /** One file column offers an option: its id form equals the option's id, or either lower-cased name contains the other. */
  predicate Offers(fileColumn: string, o: ColumnOption)
  {
    || FlexibleBulkImport.ColumnId(fileColumn) == o.id
    || Contains(ToLower(fileColumn), ToLower(o.name))
    || Contains(ToLower(o.name), ToLower(fileColumn))
  }

  /** `isAvailable`: some file column offers the option. */
  predicate IsAvailable(fileColumns: seq<string>, o: ColumnOption)
  {
    exists i :: 0 <= i < |fileColumns| && Offers(fileColumns[i], o)
  }

  lemma ColumnIdOfLower(s: string)
    ensures FlexibleBulkImport.ColumnId(ToLower(s)) == FlexibleBulkImport.ColumnId(s)
  {
    var a, b := FlexibleBulkImport.ColumnId(ToLower(s)), FlexibleBulkImport.ColumnId(s);
    forall i | 0 <= i < |s|
      ensures a[i] == b[i]
    {
      LowerCharIdempotent(s[i]);
    }
  }

  /** Availability ignores the case of the file's headers. */
  lemma AvailabilityIgnoresCase(fileColumns: seq<string>, o: ColumnOption)
    ensures IsAvailable(Map(fileColumns, ToLower), o) == IsAvailable(fileColumns, o)
  {
    var lowered := Map(fileColumns, ToLower);
    forall i | 0 <= i < |fileColumns|
      ensures Offers(lowered[i], o) == Offers(fileColumns[i], o)
    {
      ToLowerIdempotent(fileColumns[i]);
      ColumnIdOfLower(fileColumns[i]);
    }
  }

  /** A blank header in the file marks every option as present, since every name contains the empty string. */
  lemma BlankHeaderOffersAll(fileColumns: seq<string>, o: ColumnOption)
    requires "" in fileColumns
    ensures IsAvailable(fileColumns, o)
  {
    var i :| 0 <= i < |fileColumns| && fileColumns[i] == "";
    ContainsEmptyAndSelf(ToLower(o.name));
    assert Offers(fileColumns[i], o);
  }

  /** A header spelling exactly an option's name, in any case, marks it as present. */
  lemma SameNameOffers(fileColumns: seq<string>, o: ColumnOption, i: nat)
    requires i < |fileColumns| && ToLower(fileColumns[i]) == ToLower(o.name)
    ensures IsAvailable(fileColumns, o)
  {
    ContainsEmptyAndSelf(ToLower(o.name));
    assert Offers(fileColumns[i], o);
  }

  /** `COLUMN_OPTIONS.find(col => col.id === id)?.displayName`, which joins as '' when missing. */
  function DisplayName(id: string): string
  {
    DisplayNameIn(ColumnOptions, id)
  }

  function DisplayNameIn(options: seq<ColumnOption>, id: string): (r: string)
    ensures (forall o :: o in options ==> o.id != id) ==> r == ""
    ensures forall k :: 0 <= k < |options| && options[k].id == id && (forall j :: 0 <= j < k ==> options[j].id != id) ==> r == options[k].displayName
  {
    if options == [] then ""
    else if options[0].id == id then options[0].displayName
    else DisplayNameIn(options[1..], id)
  }

  /** The summary: how many are selected out of all options, and their display names in selection order. */
  function SelectionSummary(selectedColumns: seq<string>): (r: (nat, nat, seq<string>))
    ensures r.0 == |selectedColumns| && r.1 == |ColumnOptions|
    ensures |r.2| == |selectedColumns| && forall i :: 0 <= i < |selectedColumns| ==> r.2[i] == DisplayName(selectedColumns[i])
  {
    (|selectedColumns|, |ColumnOptions|, Map(selectedColumns, DisplayName))
  }
}
