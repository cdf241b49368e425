/**
 * The Reports screen's CSV export (`exportToCSV`): a header line and one line per filtered
 * invoice. The source quotes the three name fields without doubling inner quotes; the
 * model keeps that as written and uses the RFC 4180 quoting of `Csv` for the export.
 */
module ReportExport {
  import opened Wrappers
  import opened Strings
  import opened Lists
  import opened Csv
  import opened Reports

  /** The export's column titles, in order. */
  const ExportColumns: seq<string> := ["Student Name", "Class", "Fee Item", "Amount", "Status", "Due Date", "Paid Date"]

  /** The header line: the column titles joined by commas. */
  function ExportHeader(): string
  {
    Join(ExportColumns, ",")
  }

  /** The source's quoting: the text is put between double quotes as it is. */
  function QuoteAsIs(t: string): string
  {
    "\"" + t + "\""
  }

  /** One exported line as the source writes it, inner double quotes left alone. */
  function ReportLineAsWritten(inv: Invoice): string
  {
    Join([QuoteAsIs(inv.studentName), QuoteAsIs(inv.className), QuoteAsIs(inv.feeItemName),
      IntToString(inv.amount), StatusText(inv.status), inv.dueDate, inv.paidDate], ",")
  }

  /** The line's cells: the three names quoted, the rest bare. */
  function ReportCells(inv: Invoice): seq<Cell>
  {
    [QuotedCell(inv.studentName), QuotedCell(inv.className), QuotedCell(inv.feeItemName),
      BareCell(IntToString(inv.amount)), BareCell(StatusText(inv.status)), BareCell(inv.dueDate), BareCell(inv.paidDate)]
  }

  /** One exported line with the names quoted as section 2 of RFC 4180 requires. */
  function ReportLine(inv: Invoice): string
  {
    Join(Encoded(ReportCells(inv)), ",")
  }

  /** The fields a reader should get back from one line. */
  function ReportFields(inv: Invoice): seq<string>
  {
    [inv.studentName, inv.className, inv.feeItemName, IntToString(inv.amount), StatusText(inv.status), inv.dueDate, inv.paidDate]
  }

  /** The export's text: the header, then the lines, separated by line breaks. */
  function Document(header: string, lines: seq<string>): string
  {
    Join([header] + lines, "\n")
  }

  /** `exportToCSV` as written: nothing for an empty list, else the header and one unescaped line per filtered invoice. */
  function ExportCsvAsWritten(filtered: seq<Invoice>): (r: Option<string>)
    ensures r.None? <==> filtered == []
  {
    if filtered == [] then None else Some(Document(ExportHeader(), Map(filtered, ReportLineAsWritten)))
  }

  /** `exportToCSV` with the names quoted as RFC 4180 requires; the rest of the model uses this one. */
  function ExportCsv(filtered: seq<Invoice>): (r: Option<string>)
    ensures r.None? <==> filtered == []
  {
    if filtered == [] then None else Some(Document(ExportHeader(), Map(filtered, ReportLine)))
  }

  lemma NumberIsBare(n: int)
    ensures Bare(IntToString(n))
  {
    var t := IntToString(n);
    if n < 0 {
      assert t == "-" + NatToString(-n);
      assert forall i :: 1 <= i < |t| ==> IsDigit(t[i]) by {
        forall i | 1 <= i < |t|
          ensures IsDigit(t[i])
        {
          assert t[i] == NatToString(-n)[i - 1];
        }
      }
    }
    assert forall i :: 0 <= i < |t| ==> t[i] != ',' && t[i] != '"';
  }

  lemma ReportCellsWellFormed(inv: Invoice)
    requires Bare(inv.dueDate) && Bare(inv.paidDate)
    ensures forall i :: 0 <= i < |ReportCells(inv)| ==> WellFormed(ReportCells(inv)[i])
    ensures Texts(ReportCells(inv)) == ReportFields(inv)
  {
    NumberIsBare(inv.amount);
    assert Bare(StatusText(inv.status));
    var t := Texts(ReportCells(inv));
    assert forall i :: 0 <= i < 7 ==> t[i] == ReportFields(inv)[i];
  }

  /**
   * A line reads back as its seven fields, whatever the names contain, as long as the
   * dates hold no comma or double quote.
   */
  lemma ReportLineRoundTrip(inv: Invoice)
    requires PlainDates(inv)
    ensures ParseRecord(ReportLine(inv)) == Some(ReportFields(inv))
  {
    ReportCellsWellFormed(inv);
    ParseRecordRoundTrip(ReportCells(inv));
  }

  /** No field of the invoice breaks a line. */
  predicate SingleLine(inv: Invoice)
  {
    '\n' !in inv.studentName && '\n' !in inv.className && '\n' !in inv.feeItemName
      && '\n' !in inv.dueDate && '\n' !in inv.paidDate
  }

  /** Lines without breaks come back, after the header, from splitting the document. */
  lemma DocumentLines(header: string, lines: seq<string>)
    requires '\n' !in header && forall k :: 0 <= k < |lines| ==> '\n' !in lines[k]
    ensures Split(Document(header, lines), '\n') == [header] + lines
  {
    SplitJoin([header] + lines, '\n');
  }

  /** The export's header followed by lines without breaks splits back into them. */
  lemma ExportDocumentLines(lines: seq<string>)
    requires forall k :: 0 <= k < |lines| ==> '\n' !in lines[k]
    ensures Split(Document(ExportHeader(), lines), '\n') == [ExportHeader()] + lines
  {
    HeaderHasNoBreak();
    DocumentLines(ExportHeader(), lines);
  }

  lemma LinesHaveNoBreak(filtered: seq<Invoice>)
    requires forall i :: 0 <= i < |filtered| ==> SingleLine(filtered[i])
    ensures forall k :: 0 <= k < |filtered| ==> '\n' !in Map(filtered, ReportLine)[k]
  {
    forall k | 0 <= k < |filtered|
      ensures '\n' !in Map(filtered, ReportLine)[k]
    {
      ReportLineHasNoBreak(filtered[k]);
    }
  }

  /** Without line breaks in the fields, the export splits into the header and one line per invoice, in order. */
  lemma ExportCsvLines(filtered: seq<Invoice>)
    requires filtered != [] && forall i :: 0 <= i < |filtered| ==> SingleLine(filtered[i])
    ensures Split(ExportCsv(filtered).value, '\n') == [ExportHeader()] + Map(filtered, ReportLine)
  {
    LinesHaveNoBreak(filtered);
    ExportDocumentLines(Map(filtered, ReportLine));
  }

  /** No field holds a comma or double quote where the export leaves it bare. */
  predicate PlainDates(inv: Invoice)
  {
    Bare(inv.dueDate) && Bare(inv.paidDate)
  }

  /**
   * The export reads back: after the header, line k of the document is a record holding
   * exactly the seven fields of the k-th listed invoice, whatever its names contain.
   */
  lemma ExportCsvReadsBack(filtered: seq<Invoice>)
    requires filtered != []
    requires forall i :: 0 <= i < |filtered| ==> SingleLine(filtered[i]) && PlainDates(filtered[i])
    ensures var lines := Split(ExportCsv(filtered).value, '\n');
      && |lines| == |filtered| + 1 && lines[0] == ExportHeader()
      && forall k :: 0 <= k < |filtered| ==> ParseRecord(lines[k + 1]) == Some(ReportFields(filtered[k]))
  {
    ExportCsvLines(filtered);
    var lines := Split(ExportCsv(filtered).value, '\n');
    forall k | 0 <= k < |filtered|
      ensures ParseRecord(lines[k + 1]) == Some(ReportFields(filtered[k]))
    {
      assert lines[k + 1] == ReportLine(filtered[k]);
      ReportLineRoundTrip(filtered[k]);
    }
  }

  lemma ReportLineAsWrittenHasNoBreak(inv: Invoice)
    requires SingleLine(inv)
    ensures '\n' !in ReportLineAsWritten(inv)
  {
    NumberHasNoBreak(inv.amount);
    assert '\n' !in StatusText(inv.status);
    var parts := [QuoteAsIs(inv.studentName), QuoteAsIs(inv.className), QuoteAsIs(inv.feeItemName),
      IntToString(inv.amount), StatusText(inv.status), inv.dueDate, inv.paidDate];
    assert forall k :: 0 <= k < |parts| ==> '\n' !in parts[k];
    JoinAvoids(parts, ",", '\n');
  }

  /**
   * As written, an export listing first a student named `a"` of class `c` has a second
   * line that no CSV reader accepts.
   */
  lemma ExportCsvAsWrittenBreaks(filtered: seq<Invoice>)
    requires filtered != [] && filtered[0].studentName == "a\"" && filtered[0].className == "c"
    requires forall i :: 0 <= i < |filtered| ==> SingleLine(filtered[i])
    ensures var lines := Split(ExportCsvAsWritten(filtered).value, '\n');
      |lines| > 1 && ParseRecord(lines[1]) == None
  {
    var written := Map(filtered, ReportLineAsWritten);
    forall k | 0 <= k < |written|
      ensures '\n' !in written[k]
    {
      ReportLineAsWrittenHasNoBreak(filtered[k]);
    }
    ExportDocumentLines(written);
    ReportLineAsWrittenBreaks(filtered[0]);
  }

  lemma HeaderHasNoBreak()
    ensures '\n' !in ExportHeader()
  {
    assert '\n' !in "Student Name" && '\n' !in "Class" && '\n' !in "Fee Item" && '\n' !in "Amount";
    assert '\n' !in "Status" && '\n' !in "Due Date" && '\n' !in "Paid Date";
    JoinAvoids(ExportColumns, ",", '\n');
  }

  lemma ReportLineHasNoBreak(inv: Invoice)
    requires SingleLine(inv)
    ensures '\n' !in ReportLine(inv)
  {
    var cells := ReportCells(inv);
    NumberHasNoBreak(inv.amount);
    assert forall i :: 0 <= i < |cells| ==> '\n' !in cells[i].text;
    EncodedAvoids(cells, '\n');
  }

  lemma NumberHasNoBreak(n: int)
    ensures '\n' !in IntToString(n)
  {
    var t := IntToString(n);
    if n < 0 {
      assert forall i :: 1 <= i < |t| ==> t[i] == NatToString(-n)[i - 1];
    }
  }

  lemma JoinCons(p: string, rest: seq<string>, sep: string)
    requires |rest| > 0
    ensures Join([p] + rest, sep) == p + sep + Join(rest, sep)
  {
    assert ([p] + rest)[1..] == rest;
  }

  /** A student name ending in a double quote: the line as written is not a valid record at all. */
  lemma ReportLineAsWrittenBreaks(inv: Invoice)
    requires inv.studentName == "a\"" && inv.className == "c"
    ensures ParseRecord(ReportLineAsWritten(inv)) == None
  {
    var tailParts := [QuoteAsIs(inv.feeItemName), IntToString(inv.amount), StatusText(inv.status), inv.dueDate, inv.paidDate];
    var tail := Join(tailParts, ",");
    JoinCons(QuoteAsIs(inv.className), tailParts, ",");
    JoinCons(QuoteAsIs(inv.studentName), [QuoteAsIs(inv.className)] + tailParts, ",");
    var a, b := QuoteAsIs(inv.studentName), QuoteAsIs(inv.className);
    assert ReportLineAsWritten(inv) == Join([a] + ([b] + tailParts), ",") by {
      assert [a, b, QuoteAsIs(inv.feeItemName), IntToString(inv.amount), StatusText(inv.status), inv.dueDate, inv.paidDate]
        == [a] + ([b] + tailParts);
    }
    assert ReportLineAsWritten(inv) == a + "," + (b + "," + tail);
    assert a == ['"', 'a', '"', '"'];
    assert b == ['"', 'c', '"'];
    var rest := ['"', ','] + tail;
    assert ReportLineAsWritten(inv) == ['"', 'a', '"', '"', ',', '"', 'c'] + rest;
    UnclosedQuoteFails(rest);
  }

  /** Reading `"a""` then `,"c`: the doubled quote keeps the field open, so the comma and the next quote stay inside it. */
  lemma UnclosedQuoteFails(rest: string)
    ensures Parse(['"', 'a', '"', '"', ',', '"', 'c'] + rest, "", [], Start) == None
  {
    var s6 := ['c'] + rest;
    var s5 := ['"'] + s6;
    var s4 := [','] + s5;
    var s3 := ['"'] + s4;
    var s2 := ['"'] + s3;
    var s1 := ['a'] + s2;
    assert ['"', 'a', '"', '"', ',', '"', 'c'] + rest == ['"'] + s1;
    ParseCons('"', s1, "", [], Start);
    ParseCons('a', s2, "", [], Quoted);
    assert "" + ['a'] == ['a'];
    ParseCons('"', s3, ['a'], [], Quoted);
    ParseCons('"', s4, ['a'], [], AfterQuote);
    assert ['a'] + ['"'] == ['a', '"'];
    ParseCons(',', s5, ['a', '"'], [], Quoted);
    assert ['a', '"'] + [','] == ['a', '"', ','];
    ParseCons('"', s6, ['a', '"', ','], [], Quoted);
    ParseCons('c', rest, ['a', '"', ','], [], AfterQuote);
  }
}
