/**
 * The fee item screen of src/components/school-admin/FeeItemsList.tsx: the school's active
 * fee items, searched by name; a form that adds an item (typed in, or copied from one of
 * the prefilled Somali fee items); an edit dialog; and a delete that only marks the item
 * inactive. The `fee_items` table is a sequence of rows, and `parseFloat` is a parameter
 * that yields `None` for NaN.
 */
module FeeItemsList {
  import opened Wrappers
  import opened Strings
  import opened Lists

  datatype FeeItem = FeeItem(id: string, name: string, amount: real, schoolId: string, isActive: bool)

  /** `parseFloat`: the number a text starts with, or `None` for NaN. */
  type ParseFloat = string -> Option<real>

  // ---------------------------------------------------------------- the table

  predicate Listed(schoolId: string, item: FeeItem)
  {
    item.schoolId == schoolId && item.isActive
  }

  function ListedBy(schoolId: string): FeeItem -> bool
  {
    (item: FeeItem) => Listed(schoolId, item)
  }

  /** The query behind the list: the school's rows with `is_active` set, in table order. */
  function ActiveItems(table: seq<FeeItem>, schoolId: string): (r: seq<FeeItem>)
    ensures forall item :: item in r <==> item in table && item.schoolId == schoolId && item.isActive
  {
    Filter(table, ListedBy(schoolId))
  }

  function Deactivated(id: string): FeeItem -> FeeItem
  {
    (item: FeeItem) => if item.id == id then item.(isActive := false) else item
  }

  /** The delete mutation: an update of `is_active` to false on the rows with that id. */
  function SoftDelete(table: seq<FeeItem>, id: string): (r: seq<FeeItem>)
    ensures |r| == |table|
    ensures forall k :: 0 <= k < |table| ==> r[k] == (if table[k].id == id then table[k].(isActive := false) else table[k])
  {
    Map(table, Deactivated(id))
  }

  /**
   * Delete is soft: every row stays, with its name, amount and school; the deleted item
   * drops out of the list and every other listed item stays listed.
   */
  lemma SoftDeleteRule(table: seq<FeeItem>, id: string, schoolId: string)
    ensures forall k :: 0 <= k < |table| ==>
      SoftDelete(table, id)[k].id == table[k].id && SoftDelete(table, id)[k].name == table[k].name &&
      SoftDelete(table, id)[k].amount == table[k].amount && SoftDelete(table, id)[k].schoolId == table[k].schoolId
    ensures forall item :: item in ActiveItems(SoftDelete(table, id), schoolId) ==> item.id != id
    ensures forall item :: item in ActiveItems(table, schoolId) && item.id != id ==> item in ActiveItems(SoftDelete(table, id), schoolId)
    ensures forall item :: item in ActiveItems(SoftDelete(table, id), schoolId) ==> item in ActiveItems(table, schoolId)
  {
    var r := SoftDelete(table, id);
    forall item | item in ActiveItems(table, schoolId) && item.id != id
      ensures item in r
    {
      var k :| 0 <= k < |table| && table[k] == item;
      assert r[k] == item;
    }
    forall item | item in ActiveItems(r, schoolId)
      ensures item in table
    {
      var k :| 0 <= k < |r| && r[k] == item;
      assert r[k] == table[k];
    }
  }

  // ---------------------------------------------------------------- search

  predicate NameMatches(searchTerm: string, item: FeeItem)
  {
    Contains(ToLower(item.name), ToLower(searchTerm))
  }

  function MatchesTerm(searchTerm: string): FeeItem -> bool
  {
    (item: FeeItem) => NameMatches(searchTerm, item)
  }

  /** `filteredFeeItems`: the listed items whose name includes the term, ignoring case; none before the query answers. */
  function FilteredFeeItems(feeItems: Option<seq<FeeItem>>, searchTerm: string): (r: seq<FeeItem>)
    ensures feeItems.None? ==> r == []
    ensures feeItems.Some? ==> forall item :: item in r <==> item in feeItems.value && NameMatches(searchTerm, item)
  {
    match feeItems
    case None => []
    case Some(items) => Filter(items, MatchesTerm(searchTerm))
  }

  /** An empty term keeps every listed item. */
  lemma EmptySearchKeepsAll(items: seq<FeeItem>)
    ensures FilteredFeeItems(Some(items), "") == items
  {
    forall k | 0 <= k < |items|
      ensures NameMatches("", items[k])
    {
      ContainsEmptyAndSelf(ToLower(items[k].name));
    }
    FilterAll(items, MatchesTerm(""));
  }

  /** A term and its lower-case spelling select the same items. */
  lemma SearchIgnoresCase(searchTerm: string, item: FeeItem)
    ensures NameMatches(searchTerm, item) <==> NameMatches(ToLower(searchTerm), item)
  {
    ToLowerIdempotent(searchTerm);
  }

  // ---------------------------------------------------------------- the add form

  /** The add form's fields, as typed. */
  datatype FeeForm = FeeForm(name: string, amount: string)

  datatype AddRequest = AddRequest(name: string, amount: real)

  /** `handleAddFeeItem`: the insert, sent with the name as typed and the parsed amount. */
  function AddRequested(form: FeeForm, parseFloat: ParseFloat): (r: Option<AddRequest>)
    ensures r.Some? <==> Trim(form.name) != "" && parseFloat(form.amount).Some? && parseFloat(form.amount).value > 0.0
    ensures r.Some? ==> r.value == AddRequest(form.name, parseFloat(form.amount).value)
  {
    var amount := parseFloat(form.amount);
    if Trim(form.name) != "" && amount.Some? && amount.value > 0.0 then Some(AddRequest(form.name, amount.value)) else None
  }

  /** A name of blanks is refused whatever the amount. */
  lemma BlankNameRefused(form: FeeForm, parseFloat: ParseFloat)
    requires forall i :: 0 <= i < |form.name| ==> IsSpace(form.name[i])
    ensures AddRequested(form, parseFloat).None?
  {
    TrimEmptyIff(form.name);
  }

  // ---------------------------------------------------------------- the edit dialog

  datatype UpdateRequest = UpdateRequest(id: string, name: string, amount: real)

  /** `handleUpdateFeeItem`: nothing unless an item is being edited with a name and a positive amount. */
  function UpdateRequested(editing: Option<FeeItem>): (r: Option<UpdateRequest>)
    ensures r.Some? <==> editing.Some? && Trim(editing.value.name) != "" && editing.value.amount > 0.0
    ensures r.Some? ==> r.value == UpdateRequest(editing.value.id, editing.value.name, editing.value.amount)
  {
    match editing
    case None => None
    case Some(item) => if Trim(item.name) != "" && item.amount > 0.0 then Some(UpdateRequest(item.id, item.name, item.amount)) else None
  }

  /** The edit dialog's amount field: `parseFloat(value) || 0`. */
  function EditAmount(text: string, parseFloat: ParseFloat): (r: real)
    ensures parseFloat(text).None? ==> r == 0.0
    ensures parseFloat(text).Some? ==> r == parseFloat(text).value
  {
    match parseFloat(text)
    case None => 0.0
    case Some(a) => a
  }

  /** Typing something that is not a number into the edit dialog leaves an amount that no update sends. */
  lemma UnparsableAmountNotSent(item: FeeItem, text: string, parseFloat: ParseFloat)
    requires parseFloat(text).None?
    ensures UpdateRequested(Some(item.(amount := EditAmount(text, parseFloat)))).None?
  {
  }

  // ---------------------------------------------------------------- prefilled items

  datatype Prefilled = Prefilled(name: string, amount: nat)

  /** `PREFILLED_FEE_ITEMS`, with the descriptions, categories and icons left out. */
  function PrefilledFeeItems(): seq<Prefilled>
  {
    [ Prefilled("Lacagta Waxbarashada (Monthly Tuition)", 50),
      Prefilled("Lacagta Imtixaanka (Exam Fee)", 20),
      Prefilled("Lacagta Buugga (Book & Materials)", 30),
      Prefilled("Lacagta Dugsiga (School Development)", 25),
      Prefilled("Lacagta Maktabadda (Library Access)", 10),
      Prefilled("Lacagta Qalabka (Equipment & Lab)", 20),
      Prefilled("Lacagta Xannaanada (Health & Medical)", 15),
      Prefilled("Lacagta Technology (Computer & Internet)", 25),
      Prefilled("Lacagta Fasalka (Classroom Materials)", 15),
      Prefilled("Lacagta Dhaqanka (Cultural Activities)", 12) ]
  }

  // ---------------------------------------------------------------- the screen

  datatype FeeItemsState = FeeItemsState(searchTerm: string, showAddForm: bool, showPrefilledOptions: bool,
    editing: Option<FeeItem>, form: FeeForm)

  function Initial(): FeeItemsState
  {
    FeeItemsState("", false, false, None, FeeForm("", ""))
  }

  /** `handleAddPrefilledFeeItem`: the name and the amount, written out in decimal, fill the form, which opens. */
  function PickPrefilled(s: FeeItemsState, item: Prefilled): (r: FeeItemsState)
    ensures r.form.name == item.name
    ensures (forall i :: 0 <= i < |r.form.amount| ==> IsDigit(r.form.amount[i])) && ParseDigits(r.form.amount) == item.amount
    ensures r.showAddForm && !r.showPrefilledOptions
    ensures r.editing == s.editing && r.searchTerm == s.searchTerm
  {
    NatToStringRoundTrip(item.amount);
    s.(form := FeeForm(item.name, NatToString(item.amount)), showPrefilledOptions := false, showAddForm := true)
  }

  /** The insert succeeded: the form is cleared and hidden. */
  function AddSucceeded(s: FeeItemsState): (r: FeeItemsState)
    ensures r.form == FeeForm("", "") && !r.showAddForm
    ensures r.editing == s.editing && r.searchTerm == s.searchTerm && r.showPrefilledOptions == s.showPrefilledOptions
  {
    s.(form := FeeForm("", ""), showAddForm := false)
  }

  /** The update succeeded: the edit dialog closes. */
  function UpdateSucceeded(s: FeeItemsState): (r: FeeItemsState)
    ensures r.editing.None?
    ensures r.form == s.form && r.showAddForm == s.showAddForm && r.searchTerm == s.searchTerm
  {
    s.(editing := None)
  }

  /** Typing into the edit dialog's amount field; without an item being edited the dialog is not shown. */
  function AmountEdited(s: FeeItemsState, text: string, parseFloat: ParseFloat): (r: FeeItemsState)
    ensures s.editing.None? ==> r == s
    ensures s.editing.Some? ==> r.editing == Some(s.editing.value.(amount := EditAmount(text, parseFloat)))
    ensures r.form == s.form && r.showAddForm == s.showAddForm && r.searchTerm == s.searchTerm
  {
    match s.editing
    case None => s
    case Some(item) => s.(editing := Some(item.(amount := EditAmount(text, parseFloat))))
  }

  /** A name that starts with a visible character is not blank. */
  lemma {:induction false} NotBlank(name: string)
    requires |name| > 0 && !IsSpace(name[0])
    ensures Trim(name) != ""
  {
    TrimEmptyIff(name);
  }

  /**
   * Any prefilled item, once picked, is accepted by the add form as it stands, with its
   * own name and amount, given a `parseFloat` that reads decimal numerals.
   */
  lemma PrefilledAccepted(s: FeeItemsState, i: nat, parseFloat: ParseFloat)
    requires i < |PrefilledFeeItems()|
    requires forall n: nat :: parseFloat(NatToString(n)) == Some(n as real)
    ensures AddRequested(PickPrefilled(s, PrefilledFeeItems()[i]).form, parseFloat) ==
      Some(AddRequest(PrefilledFeeItems()[i].name, PrefilledFeeItems()[i].amount as real))
  {
    var item := PrefilledFeeItems()[i];
    assert item.name[0] == 'L' && item.amount > 0;
    NotBlank(item.name);
  }
}
