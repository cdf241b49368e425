/**
 * The print view of src/components/PrintUtils.tsx: an HTML page holding a table with one
 * header cell per column and one row per item, and a record count. Item properties are
 * looked up by the column key as a flat property name; the current date and time are
 * parameters, and the page's style sheet and indentation are not part of the model.
 */
module PrintUtils {
  import opened Wrappers
  import opened Strings
  import opened Lists

  /** A property value: text, or a nested object such as an invoice's `student`. */
  datatype Value = Scalar(text: string) | Nested(fields: map<string, string>)

  /** An item of `data`: property name to value. */
  type Item = map<string, Value>

  /** `col.render`: from the looked-up value (absent for `undefined`) and the item to text. */
  type Render = (Option<Value>, Item) -> string

  datatype PrintColumn = PrintColumn(key: string, title: string, render: Option<Render>)

  /** `item[col.key]`: one flat property lookup, with no path traversal. */
  function Lookup(item: Item, key: string): (r: Option<Value>)
    ensures r.Some? <==> key in item
  {
    if key in item then Some(item[key]) else None
  }

  /** How a value prints inside the template. */
  function Shown(v: Option<Value>): string
  {
    match v
    case None => ""
    case Some(Scalar(t)) => t
    case Some(Nested(_)) => "[object Object]"
  }

  /** One cell's text: the render's result when there is one, else the value; falsy prints as "". */
  function CellText(col: PrintColumn, item: Item): string
  {
    var value := Lookup(item, col.key);
    match col.render
    case Some(render) => render(value, item)
    case None => Shown(value)
  }

  function HeaderCell(col: PrintColumn): string
  {
    "<th>" + col.title + "</th>"
  }

  function DataCell(col: PrintColumn, item: Item): string
  {
    "<td>" + CellText(col, item) + "</td>"
  }

  /** `columns.map(col => <th>…</th>).join('')`. */
  function HeaderRow(columns: seq<PrintColumn>): string
  {
    Join(Map(columns, HeaderCell), "")
  }

  function DataCells(columns: seq<PrintColumn>, item: Item): (r: seq<string>)
    ensures |r| == |columns| && forall i :: 0 <= i < |columns| ==> r[i] == DataCell(columns[i], item)
  {
    seq(|columns|, i requires 0 <= i < |columns| => DataCell(columns[i], item))
  }

  /** One table row for one item. */
  function DataRow(columns: seq<PrintColumn>, item: Item): string
  {
    "<tr>" + Join(DataCells(columns, item), "") + "</tr>"
  }

  function DataRows(columns: seq<PrintColumn>, data: seq<Item>): (r: seq<string>)
    ensures |r| == |data| && forall k :: 0 <= k < |data| ==> r[k] == DataRow(columns, data[k])
  {
    seq(|data|, k requires 0 <= k < |data| => DataRow(columns, data[k]))
  }

  /** The footer's count line. */
  function TotalLine(data: seq<Item>): string
  {
    "Total Records: " + NatToString(|data|)
  }

  /** `printContent`, reduced to its markup and the values spliced into it. */
  function PrintContent(title: string, columns: seq<PrintColumn>, data: seq<Item>, date: string, time: string): string
  {
    "<title>" + title + "</title><h1>" + title + "</h1><p>Generated on " + date + " at " + time + "</p>"
      + "<table><thead><tr>" + HeaderRow(columns) + "</tr></thead><tbody>" + Join(DataRows(columns, data), "")
      + "</tbody></table><p>" + TotalLine(data) + "</p><p>School Finance Management System</p>"
  }

  /** The component renders its buttons only when there is something to print. */
  predicate Rendered(data: seq<Item>)
  {
    |data| != 0
  }

  /** `handlePrint` (and `handleExportPDF`, which only calls it): nothing when no window opens. */
  function HandlePrint(windowOpened: bool, title: string, columns: seq<PrintColumn>, data: seq<Item>, date: string, time: string): (r: Option<string>)
    ensures r.Some? <==> windowOpened
  {
    if windowOpened then Some(PrintContent(title, columns, data, date, time)) else None
  }

  // ---------------------------------------------------------------- properties

  lemma {:induction false} JoinContains(parts: seq<string>, k: nat)
    requires k < |parts|
    ensures Contains(Join(parts, ""), parts[k])
  {
    ContainsEmptyAndSelf(parts[k]);
    if |parts| > 1 {
      if k == 0 {
        ContainsExtend("", parts[0], "" + Join(parts[1..], ""), parts[0]);
        assert "" + parts[0] + ("" + Join(parts[1..], "")) == Join(parts, "");
      } else {
        JoinContains(parts[1..], k - 1);
        ContainsExtend(parts[0] + "", Join(parts[1..], ""), "", parts[k]);
        assert parts[0] + "" + Join(parts[1..], "") + "" == Join(parts, "");
      }
    }
  }

  /** Titles go into the header unescaped: each occurs in it verbatim, markup and all. */
  lemma TitleVerbatim(columns: seq<PrintColumn>, i: nat)
    requires i < |columns|
    ensures Contains(HeaderRow(columns), columns[i].title)
  {
    ContainsEmptyAndSelf(columns[i].title);
    ContainsExtend("<th>", columns[i].title, "</th>", columns[i].title);
    JoinContains(Map(columns, HeaderCell), i);
    ContainsTrans(HeaderRow(columns), HeaderCell(columns[i]), columns[i].title);
  }

  /** Cell texts go into their row unescaped. */
  lemma CellVerbatim(columns: seq<PrintColumn>, item: Item, i: nat)
    requires i < |columns|
    ensures Contains(DataRow(columns, item), CellText(columns[i], item))
  {
    var t := CellText(columns[i], item);
    ContainsEmptyAndSelf(t);
    ContainsExtend("<td>", t, "</td>", t);
    JoinContains(DataCells(columns, item), i);
    ContainsExtend("<tr>", Join(DataCells(columns, item), ""), "</tr>", DataCell(columns[i], item));
    ContainsTrans(DataRow(columns, item), DataCell(columns[i], item), t);
  }

  /** `includes` is transitive. */
  lemma ContainsTrans(s: string, m: string, t: string)
    requires Contains(s, m) && Contains(m, t)
    ensures Contains(s, t)
  {
    ContainsAt(s, m);
    ContainsAt(m, t);
    var i :| 0 <= i <= |s| - |m| && m <= s[i..];
    var j :| 0 <= j <= |m| - |t| && t <= m[j..];
    var k := i + j;
    assert t <= s[k..] by {
      forall p | 0 <= p < |t|
        ensures t[p] == s[k..][p]
      {
        assert t[p] == m[j + p];
        assert m[j + p] == s[i..][j + p];
      }
    }
    ContainsAt(s, t);
  }

  /** The footer's number reads back as the number of items. */
  lemma TotalLineCounts(data: seq<Item>)
    ensures |TotalLine(data)| > 15 && ParseDigits(TotalLine(data)[15..]) == |data|
  {
    assert TotalLine(data)[15..] == NatToString(|data|);
    NatToStringRoundTrip(|data|);
  }

  /** A key naming a path such as "student.name" finds nothing in an item whose property names hold no dot. */
  lemma DottedKeyFindsNothing(col: PrintColumn, item: Item)
    requires col.render.None? && '.' in col.key
    requires forall name :: name in item ==> '.' !in name
    ensures CellText(col, item) == ""
  {
  }

  // ---------------------------------------------------------------- the two printers

  /** An invoice as the invoice list passes it: a nested student and fee item. */
  datatype InvoiceRow = InvoiceRow(id: string, studentName: string, studentClass: string, feeItemName: string,
    amount: string, status: string, dueDate: string, paidDate: string)

  /** The invoice's properties, with `student` and `fee_item` as nested objects and absent dates left out. */
  function InvoiceItem(inv: InvoiceRow): Item
  {
    var base := map["id" := Scalar(inv.id),
      "student" := Nested(map["name" := inv.studentName, "class_name" := inv.studentClass]),
      "fee_item" := Nested(map["name" := inv.feeItemName]),
      "amount" := Scalar(inv.amount), "status" := Scalar(inv.status)];
    var withDue := if inv.dueDate != "" then base["due_date" := Scalar(inv.dueDate)] else base;
    if inv.paidDate != "" then withDue["paid_date" := Scalar(inv.paidDate)] else withDue
  }

  /** A date column's render: a present value reformatted, else "". */
  function DateRender(formatDate: string -> string): Render
  {
    (v: Option<Value>, item: Item) => if v.Some? && v.value.Scalar? && v.value.text != "" then formatDate(v.value.text) else ""
  }

  /** The status render. */
  function StatusRender(): Render
  {
    (v: Option<Value>, item: Item) => if v == Some(Scalar("paid")) then "\U{2705} Paid" else "\U{274C} Unpaid"
  }

  /** `InvoicePrint`'s columns; the amount render (`toFixed(2)`) is a parameter. */
  function InvoiceColumns(formatDate: string -> string, formatAmount: Render): seq<PrintColumn>
  {
    [ PrintColumn("student.name", "Student Name", None),
      PrintColumn("student.class_name", "Class", None),
      PrintColumn("fee_item.name", "Fee Item", None),
      PrintColumn("amount", "Amount", Some(formatAmount)),
      PrintColumn("status", "Status", Some(StatusRender())),
      PrintColumn("due_date", "Due Date", Some(DateRender(formatDate))),
      PrintColumn("paid_date", "Paid Date", Some(DateRender(formatDate))) ]
  }

  /**
   * The invoice printout's student name, class and fee item cells are always empty: the
   * keys are paths, and the lookup is by flat property name.
   */
  lemma InvoiceNameCellsEmpty(inv: InvoiceRow, formatDate: string -> string, formatAmount: Render, i: nat)
    requires i < 3
    ensures CellText(InvoiceColumns(formatDate, formatAmount)[i], InvoiceItem(inv)) == ""
  {
    var keys := ["id", "student", "fee_item", "amount", "status", "due_date", "paid_date"];
    InvoiceItemKeys(inv);
    var key := InvoiceColumns(formatDate, formatAmount)[i].key;
    assert key !in keys;
  }

  lemma InvoiceItemKeys(inv: InvoiceRow)
    ensures forall name :: name in InvoiceItem(inv) ==> name in ["id", "student", "fee_item", "amount", "status", "due_date", "paid_date"]
  {
  }

  /** The status cell tells paid invoices from all others. */
  lemma InvoiceStatusCell(inv: InvoiceRow, formatDate: string -> string, formatAmount: Render)
    ensures CellText(InvoiceColumns(formatDate, formatAmount)[4], InvoiceItem(inv)) ==
      if inv.status == "paid" then "\U{2705} Paid" else "\U{274C} Unpaid"
  {
    assert "status" in InvoiceItem(inv);
  }
}
