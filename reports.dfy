/**
 * The reports screen of src/components/school-admin/Reports.tsx: invoice filters, the
 * class and fee-item pick lists, the list of invoices checked for bulk payment, the
 * single-payment dialog, and the CSV export. The invoice query and the database update
 * are parameters; the update's effect on the invoices is `MarkPaid`.
 */
module Reports {
  import opened Wrappers
  import opened Strings
  import opened Lists

  datatype Status = Paid | Unpaid

  function StatusText(s: Status): string
  {
    match s
    case Paid => "paid"
    case Unpaid => "unpaid"
  }

  /** An invoice joined with its student's name and class and its fee item's name; a missing paid date is ''. */
  datatype Invoice = Invoice(
    id: string, studentName: string, className: string, feeItemName: string,
    amount: int, status: Status, dueDate: string, paidDate: string)

  /** The status drop-down: 'all' or one status. */
  datatype StatusFilter = AnyStatus | OnlyStatus(status: Status)

  /** The four filters; the class and fee-item filters are disabled by the value 'all'. */
  datatype Filters = Filters(status: StatusFilter, className: string, feeItem: string, searchTerm: string)

  // ---------------------------------------------------------------- filtering

  /** The search: empty matches all, else a case-insensitive substring of student name, class or fee item. */
  predicate SearchMatches(searchTerm: string, inv: Invoice)
  {
    || searchTerm == ""
    || Contains(ToLower(inv.studentName), ToLower(searchTerm))
    || Contains(ToLower(inv.className), ToLower(searchTerm))
    || Contains(ToLower(inv.feeItemName), ToLower(searchTerm))
  }

  predicate Shown(f: Filters, inv: Invoice)
  {
    && (f.status.AnyStatus? || inv.status == f.status.status)
    && (f.className == "all" || inv.className == f.className)
    && (f.feeItem == "all" || inv.feeItemName == f.feeItem)
    && SearchMatches(f.searchTerm, inv)
  }

  function ShownBy(f: Filters): Invoice -> bool
  {
    (inv: Invoice) => Shown(f, inv)
  }

  /** `filteredInvoices`: the invoices passing all four filters, in query order. */
  function FilteredInvoices(invoices: seq<Invoice>, f: Filters): (r: seq<Invoice>)
    ensures forall inv :: inv in r <==> (inv in invoices
      && (f.status.AnyStatus? || inv.status == f.status.status)
      && (f.className == "all" || inv.className == f.className)
      && (f.feeItem == "all" || inv.feeItemName == f.feeItem)
      && SearchMatches(f.searchTerm, inv))
  {
    Filter(invoices, ShownBy(f))
  }

  /** With every filter off the list is the query result itself. */
  lemma NoFilterShowsAll(invoices: seq<Invoice>)
    ensures FilteredInvoices(invoices, Filters(AnyStatus, "all", "all", "")) == invoices
  {
    FilterAll(invoices, ShownBy(Filters(AnyStatus, "all", "all", "")));
  }

  /** The search ignores the case of the term. */
  lemma SearchIgnoresCase(searchTerm: string, inv: Invoice)
    ensures SearchMatches(ToLower(searchTerm), inv) == SearchMatches(searchTerm, inv)
  {
    ToLowerIdempotent(searchTerm);
  }

  function ClassOf(inv: Invoice): string
  {
    inv.className
  }

  function FeeItemOf(inv: Invoice): string
  {
    inv.feeItemName
  }

  /** `uniqueClasses`. */
  function UniqueClasses(invoices: seq<Invoice>): seq<string>
  {
    Distinct(Map(invoices, ClassOf))
  }

  /** `uniqueFeeItems`. */
  function UniqueFeeItems(invoices: seq<Invoice>): seq<string>
  {
    Distinct(Map(invoices, FeeItemOf))
  }

  /** The pick lists repeat nothing, hold exactly the values present, and keep first-occurrence order. */
  lemma PickListsRule(invoices: seq<Invoice>)
    ensures NoDup(UniqueClasses(invoices)) && NoDup(UniqueFeeItems(invoices))
    ensures forall c :: c in UniqueClasses(invoices) <==> exists inv :: inv in invoices && inv.className == c
    ensures forall n :: n in UniqueFeeItems(invoices) <==> exists inv :: inv in invoices && inv.feeItemName == n
    ensures var names, u := Map(invoices, ClassOf), UniqueClasses(invoices);
      forall i, j :: 0 <= i < j < |u| ==> IndexOf(names, u[i]) < IndexOf(names, u[j])
    ensures var names, u := Map(invoices, FeeItemOf), UniqueFeeItems(invoices);
      forall i, j :: 0 <= i < j < |u| ==> IndexOf(names, u[i]) < IndexOf(names, u[j])
  {
    DistinctOrder(Map(invoices, ClassOf));
    DistinctOrder(Map(invoices, FeeItemOf));
    ImageMembership(invoices, ClassOf);
    ImageMembership(invoices, FeeItemOf);
  }

  lemma ImageMembership(invoices: seq<Invoice>, f: Invoice -> string)
    ensures forall v :: v in Map(invoices, f) <==> exists inv :: inv in invoices && f(inv) == v
  {
    forall v | v in Map(invoices, f)
      ensures exists inv :: inv in invoices && f(inv) == v
    {
      var i :| 0 <= i < |invoices| && Map(invoices, f)[i] == v;
      assert invoices[i] in invoices;
    }
    forall inv | inv in invoices
      ensures f(inv) in Map(invoices, f)
    {
      var i :| 0 <= i < |invoices| && invoices[i] == inv;
      assert Map(invoices, f)[i] == f(inv);
    }
  }

  // ---------------------------------------------------------------- bulk selection

  /** `handleInvoiceSelection`: checking appends the id as is; unchecking removes every copy. */
  function InvoiceChecked(selected: seq<string>, id: string, checked: bool): seq<string>
  {
    if checked then selected + [id] else Remove(selected, id)
  }

  /** Checking adds one copy of exactly that id; unchecking leaves no copy and other ids as often as before. */
  lemma InvoiceCheckRule(selected: seq<string>, id: string)
    ensures multiset(InvoiceChecked(selected, id, true)) == multiset(selected) + multiset{id}
    ensures multiset(InvoiceChecked(selected, id, false))[id] == 0
    ensures forall other :: other != id ==> multiset(InvoiceChecked(selected, id, false))[other] == multiset(selected)[other]
  {
    RemoveMultiset(selected, id);
  }

  predicate IsUnpaid(inv: Invoice)
  {
    inv.status == Unpaid
  }

  function InvoiceId(inv: Invoice): string
  {
    inv.id
  }

  /** The ids of the unpaid invoices in a list, in list order. */
  function UnpaidIds(invoices: seq<Invoice>): seq<string>
  {
    Map(Filter(invoices, IsUnpaid), InvoiceId)
  }

  /** `handleSelectAll`: checked selects exactly the unpaid filtered invoices, unchecked clears. */
  function SelectAll(checked: bool, filtered: seq<Invoice>): seq<string>
  {
    if checked then UnpaidIds(filtered) else []
  }

  lemma SelectAllRule(filtered: seq<Invoice>)
    ensures forall id :: id in SelectAll(true, filtered) <==> exists inv :: inv in filtered && inv.status == Unpaid && inv.id == id
    ensures SelectAll(false, filtered) == []
  {
    var unpaid := Filter(filtered, IsUnpaid);
    forall id | id in SelectAll(true, filtered)
      ensures exists inv :: inv in filtered && inv.status == Unpaid && inv.id == id
    {
      var i :| 0 <= i < |unpaid| && unpaid[i].id == id;
      assert unpaid[i] in unpaid;
    }
    forall inv | inv in filtered && inv.status == Unpaid
      ensures inv.id in SelectAll(true, filtered)
    {
      assert inv in unpaid;
      var i :| 0 <= i < |unpaid| && unpaid[i] == inv;
      assert UnpaidIds(filtered)[i] == inv.id;
    }
  }

  /** The header checkbox: checked when the selection is as long as the unpaid filtered list, and that is not empty. */
  predicate HeaderChecked(selected: seq<string>, filtered: seq<Invoice>)
  {
    |selected| == |UnpaidIds(filtered)| && |UnpaidIds(filtered)| > 0
  }

  /** Selecting all checks the header exactly when there is an unpaid invoice to select. */
  lemma SelectAllChecksHeader(filtered: seq<Invoice>)
    ensures HeaderChecked(SelectAll(true, filtered), filtered) <==> exists inv :: inv in filtered && inv.status == Unpaid
  {
    SelectAllRule(filtered);
    if exists inv :: inv in filtered && inv.status == Unpaid {
      var inv :| inv in filtered && inv.status == Unpaid;
      assert inv.id in SelectAll(true, filtered);
    }
  }

  // ---------------------------------------------------------------- payments

  /** An update of invoices to paid on a date. */
  datatype PaymentRequest = PaymentRequest(invoiceIds: seq<string>, paymentDate: string)

  /** The update's effect: the listed invoices become paid on the date; the rest are untouched. */
  function MarkPaid(invoices: seq<Invoice>, req: PaymentRequest): (r: seq<Invoice>)
    ensures |r| == |invoices|
    ensures forall i :: 0 <= i < |invoices| ==> r[i] == if invoices[i].id in req.invoiceIds then invoices[i].(status := Paid, paidDate := req.paymentDate) else invoices[i]
  {
    if invoices == [] then []
    else
      var inv := invoices[0];
      [if inv.id in req.invoiceIds then inv.(status := Paid, paidDate := req.paymentDate) else inv] + MarkPaid(invoices[1..], req)
  }

  /** After the update none of the paid ids is offered by Select All again, whatever the filters. */
  lemma PaidLeaveSelectAll(invoices: seq<Invoice>, req: PaymentRequest, f: Filters)
    ensures forall id :: id in req.invoiceIds ==> id !in SelectAll(true, FilteredInvoices(MarkPaid(invoices, req), f))
  {
    var after := FilteredInvoices(MarkPaid(invoices, req), f);
    SelectAllRule(after);
    forall inv | inv in after && inv.id in req.invoiceIds
      ensures inv.status == Paid
    {
      MarkedArePaid(invoices, req, inv);
    }
  }

  /** An invoice of the updated list whose id was in the request is paid. */
  lemma MarkedArePaid(invoices: seq<Invoice>, req: PaymentRequest, inv: Invoice)
    requires inv in MarkPaid(invoices, req) && inv.id in req.invoiceIds
    ensures inv.status == Paid
  {
    var i :| 0 <= i < |MarkPaid(invoices, req)| && MarkPaid(invoices, req)[i] == inv;
  }

  datatype ReportsState = ReportsState(
    filters: Filters,
    selectedInvoices: seq<string>,
    showPaymentModal: bool,
    selectedInvoice: Option<Invoice>,
    customPaymentDate: string)

  function Initial(): ReportsState
  {
    ReportsState(Filters(AnyStatus, "all", "all", ""), [], false, None, "")
  }

  /** `handleBulkMarkAsPaid`: nothing on an empty selection, else every selected id, dated today. */
  function BulkPayRequested(s: ReportsState, today: string): (r: Option<PaymentRequest>)
    ensures r.None? <==> s.selectedInvoices == []
    ensures r.Some? ==> r.value.invoiceIds == s.selectedInvoices && r.value.paymentDate == today
  {
    if |s.selectedInvoices| == 0 then None else Some(PaymentRequest(s.selectedInvoices, today))
  }

  /** The bulk update's `onSuccess` clears the selection; a failure is only logged. */
  function BulkSettled(s: ReportsState, succeeded: bool): ReportsState
  {
    if succeeded then s.(selectedInvoices := []) else s
  }

  /** `handleMarkAsPaid`: opens the dialog for the invoice with today's date filled in. */
  function MarkAsPaidOpened(s: ReportsState, inv: Invoice, today: string): ReportsState
  {
    s.(selectedInvoice := Some(inv), customPaymentDate := today, showPaymentModal := true)
  }

  /** `handleConfirmPayment`: nothing without an invoice or a date. */
  function ConfirmRequested(s: ReportsState): (r: Option<PaymentRequest>)
    ensures r.None? <==> s.selectedInvoice.None? || s.customPaymentDate == ""
    ensures r.Some? ==> r.value.invoiceIds == [s.selectedInvoice.value.id] && r.value.paymentDate == s.customPaymentDate
  {
    if s.selectedInvoice.None? || s.customPaymentDate == "" then None
    else Some(PaymentRequest([s.selectedInvoice.value.id], s.customPaymentDate))
  }

  /** The single update's `onSuccess` closes and empties the dialog; a failure is only logged. */
  function PaymentSettled(s: ReportsState, succeeded: bool): ReportsState
  {
    if succeeded then s.(showPaymentModal := false, selectedInvoice := None, customPaymentDate := "") else s
  }

  /** Confirming from a freshly opened dialog pays exactly that invoice on the chosen date. */
  lemma ConfirmPaysChosenInvoice(s: ReportsState, inv: Invoice, today: string, invoices: seq<Invoice>, k: nat)
    requires today != "" && k < |invoices| && invoices[k] == inv
    ensures ConfirmRequested(MarkAsPaidOpened(s, inv, today)).Some?
    ensures MarkPaid(invoices, ConfirmRequested(MarkAsPaidOpened(s, inv, today)).value)[k] == inv.(status := Paid, paidDate := today)
  {
  }

  // ---------------------------------------------------------------- the screen

  class ReportsScreen {
    var filters: Filters
    var selectedInvoices: seq<string>
    var showPaymentModal: bool
    var selectedInvoice: Option<Invoice>
    var customPaymentDate: string

    function State(): ReportsState
      reads this
    {
      ReportsState(filters, selectedInvoices, showPaymentModal, selectedInvoice, customPaymentDate)
    }

    constructor()
      ensures State() == Initial()
    {
      filters := Filters(AnyStatus, "all", "all", "");
      selectedInvoices := [];
      showPaymentModal := false;
      selectedInvoice := None;
      customPaymentDate := "";
    }

    method SetFilters(f: Filters)
      modifies this
      ensures State() == old(State()).(filters := f)
    {
      filters := f;
    }

    method HandleInvoiceSelection(id: string, checked: bool)
      modifies this
      ensures State() == old(State()).(selectedInvoices := InvoiceChecked(old(selectedInvoices), id, checked))
    {
      if checked {
        selectedInvoices := selectedInvoices + [id];
      } else {
        selectedInvoices := Remove(selectedInvoices, id);
      }
    }

    method HandleSelectAll(checked: bool, invoices: seq<Invoice>)
      modifies this
      ensures State() == old(State()).(selectedInvoices := SelectAll(checked, FilteredInvoices(invoices, old(filters))))
    {
      if checked {
        selectedInvoices := UnpaidIds(FilteredInvoices(invoices, filters));
      } else {
        selectedInvoices := [];
      }
    }

    method HandleBulkMarkAsPaid(today: string) returns (sent: Option<PaymentRequest>)
      ensures sent == BulkPayRequested(State(), today)
    {
      if |selectedInvoices| == 0 {
        return None;
      }
      sent := Some(PaymentRequest(selectedInvoices, today));
    }

    method OnBulkSettled(succeeded: bool)
      modifies this
      ensures State() == BulkSettled(old(State()), succeeded)
    {
      if succeeded {
        selectedInvoices := [];
      }
    }

    method HandleMarkAsPaid(inv: Invoice, today: string)
      modifies this
      ensures State() == MarkAsPaidOpened(old(State()), inv, today)
    {
      selectedInvoice := Some(inv);
      customPaymentDate := today;
      showPaymentModal := true;
    }

    method SetPaymentDate(date: string)
      modifies this
      ensures State() == old(State()).(customPaymentDate := date)
    {
      customPaymentDate := date;
    }

    /** The dialog's cancel and close buttons hide it and keep the chosen invoice. */
    method CloseModal()
      modifies this
      ensures State() == old(State()).(showPaymentModal := false)
    {
      showPaymentModal := false;
    }

    method HandleConfirmPayment() returns (sent: Option<PaymentRequest>)
      ensures sent == ConfirmRequested(State())
    {
      if selectedInvoice.None? || customPaymentDate == "" {
        return None;
      }
      sent := Some(PaymentRequest([selectedInvoice.value.id], customPaymentDate));
    }

    method OnPaymentSettled(succeeded: bool)
      modifies this
      ensures State() == PaymentSettled(old(State()), succeeded)
    {
      if succeeded {
        showPaymentModal := false;
        selectedInvoice := None;
        customPaymentDate := "";
      }
    }
  }
}
