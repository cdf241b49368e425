/**
 * Comma-separated records as section 2 of RFC 4180 defines them: a field is either bare
 * (no comma, no double quote) or enclosed in double quotes with every inner double quote
 * doubled. `ParseRecord` reads one record back; the exports' lines are judged against it.
 */
module Csv {
  import opened Wrappers
  import opened Strings

  /** Doubles every double quote. */
  function Escape(t: string): (r: string)
    ensures |r| >= |t|
  {
    if t == [] then []
    else if t[0] == '"' then "\"\"" + Escape(t[1..])
    else [t[0]] + Escape(t[1..])
  }

  /** `"${t.replace(/"/g, '""')}"`. */
  function QuoteField(t: string): string
  {
    "\"" + Escape(t) + "\""
  }

  /** A field that may appear bare. */
  predicate Bare(t: string)
  {
    ',' !in t && '"' !in t
  }

  /** Where the parser is within the current field. */
  datatype Mode = Start | Unquoted | Quoted | AfterQuote

  /** What one character does: fail, or continue with a new field, finished fields and mode. */
  datatype Next = Fail | Go(field: string, fields: seq<string>, mode: Mode)

  function Step(c: char, field: string, fields: seq<string>, mode: Mode): Next
  {
    match mode
    case Start =>
      if c == '"' then Go(field, fields, Quoted)
      else if c == ',' then Go("", fields + [field], Start)
      else Go(field + [c], fields, Unquoted)
    case Unquoted =>
      if c == ',' then Go("", fields + [field], Start)
      else if c == '"' then Fail
      else Go(field + [c], fields, Unquoted)
    case Quoted =>
      if c == '"' then Go(field, fields, AfterQuote)
      else Go(field + [c], fields, Quoted)
    case AfterQuote =>
      if c == '"' then Go(field + [c], fields, Quoted)
      else if c == ',' then Go("", fields + [field], Start)
      else Fail
  }

  /** The record reader: `field` is the field read so far, `fields` the finished ones. */
  function Parse(s: string, field: string, fields: seq<string>, mode: Mode): Option<seq<string>>
    decreases |s|
  {
    if s == [] then
      if mode == Quoted then None else Some(fields + [field])
    else
      match Step(s[0], field, fields, mode)
      case Fail => None
      case Go(f, fs, m) => Parse(s[1..], f, fs, m)
  }

  lemma ParseCons(c: char, s: string, field: string, fields: seq<string>, mode: Mode)
    ensures Parse([c] + s, field, fields, mode) ==
      match Step(c, field, fields, mode)
      case Fail => None
      case Go(f, fs, m) => Parse(s, f, fs, m)
  {
    assert ([c] + s)[0] == c && ([c] + s)[1..] == s;
  }

  /** The fields of one record, or `None` when it is malformed. */
  function ParseRecord(line: string): Option<seq<string>>
  {
    Parse(line, "", [], Start)
  }

  /** A cell as an export writes it: quoted, or bare. */
  datatype Cell = QuotedCell(text: string) | BareCell(text: string)

  function Encode(c: Cell): string
  {
    match c
    case QuotedCell(t) => QuoteField(t)
    case BareCell(t) => t
  }

  predicate WellFormed(c: Cell)
  {
    c.BareCell? ==> Bare(c.text)
  }

  function Texts(cells: seq<Cell>): (r: seq<string>)
    ensures |r| == |cells| && forall i :: 0 <= i < |cells| ==> r[i] == cells[i].text
  {
    if cells == [] then [] else [cells[0].text] + Texts(cells[1..])
  }

  function Encoded(cells: seq<Cell>): (r: seq<string>)
    ensures |r| == |cells| && forall i :: 0 <= i < |cells| ==> r[i] == Encode(cells[i])
  {
    if cells == [] then [] else [Encode(cells[0])] + Encoded(cells[1..])
  }

  /** Inside quotes, an escaped text is read back as the text itself, up to the closing quote. */
  lemma {:induction false} QuotedStep(t: string, rest: string, field: string, fields: seq<string>)
    ensures Parse(Escape(t) + "\"" + rest, field, fields, Quoted) == Parse(rest, field + t, fields, AfterQuote)
  {
    if t == [] {
      assert Escape(t) + "\"" + rest == ['"'] + rest;
      ParseCons('"', rest, field, fields, Quoted);
      assert field + t == field;
    } else {
      var tail := Escape(t[1..]) + "\"" + rest;
      EscapedHead(t, rest);
      if t[0] == '"' {
        calc {
          Parse(Escape(t) + "\"" + rest, field, fields, Quoted);
          Parse(['"'] + (['"'] + tail), field, fields, Quoted);
          { ParseCons('"', ['"'] + tail, field, fields, Quoted); }
          Parse(['"'] + tail, field, fields, AfterQuote);
          { ParseCons('"', tail, field, fields, AfterQuote); }
          Parse(tail, field + [t[0]], fields, Quoted);
          { QuotedStep(t[1..], rest, field + [t[0]], fields); }
          Parse(rest, field + [t[0]] + t[1..], fields, AfterQuote);
          { assert field + [t[0]] + t[1..] == field + t; }
          Parse(rest, field + t, fields, AfterQuote);
        }
      } else {
        calc {
          Parse(Escape(t) + "\"" + rest, field, fields, Quoted);
          Parse([t[0]] + tail, field, fields, Quoted);
          { ParseCons(t[0], tail, field, fields, Quoted); }
          Parse(tail, field + [t[0]], fields, Quoted);
          { QuotedStep(t[1..], rest, field + [t[0]], fields); }
          Parse(rest, field + [t[0]] + t[1..], fields, AfterQuote);
          { assert field + [t[0]] + t[1..] == field + t; }
          Parse(rest, field + t, fields, AfterQuote);
        }
      }
    }
  }

  /** The escaped form of a text followed by more: the first character's escape, then the rest. */
  lemma EscapedHead(t: string, rest: string)
    requires t != []
    ensures t[0] == '"' ==> Escape(t) + "\"" + rest == ['"'] + (['"'] + (Escape(t[1..]) + "\"" + rest))
    ensures t[0] != '"' ==> Escape(t) + "\"" + rest == [t[0]] + (Escape(t[1..]) + "\"" + rest)
  {
    var e := Escape(t[1..]);
    var tail := e + "\"" + rest;
    if t[0] == '"' {
      assert Escape(t) == ['"', '"'] + e;
      assert (['"', '"'] + e) + "\"" + rest == ['"', '"'] + tail;
      assert ['"', '"'] + tail == ['"'] + (['"'] + tail);
    } else {
      assert Escape(t) == [t[0]] + e;
      assert ([t[0]] + e) + "\"" + rest == [t[0]] + tail;
    }
  }

  /** Outside quotes, a bare text is read as itself. */
  lemma {:induction false} BareStep(t: string, rest: string, field: string, fields: seq<string>)
    requires Bare(t)
    ensures Parse(t + rest, field, fields, Unquoted) == Parse(rest, field + t, fields, Unquoted)
  {
    if t != [] {
      assert t[0] in t;
      assert t + rest == [t[0]] + (t[1..] + rest);
      ParseCons(t[0], t[1..] + rest, field, fields, Unquoted);
      assert Step(t[0], field, fields, Unquoted) == Go(field + [t[0]], fields, Unquoted);
      assert forall c :: c in t[1..] ==> c in t;
      BareStep(t[1..], rest, field + [t[0]], fields);
      assert field + [t[0]] + t[1..] == field + t;
    } else {
      assert t + rest == rest && field + t == field;
    }
  }

  /** Where a field ends: the end of the record, or a comma. */
  lemma FieldEnd(rest: string, field: string, fields: seq<string>, mode: Mode)
    requires mode == Start || mode == Unquoted || mode == AfterQuote
    requires rest == [] || rest[0] == ','
    ensures Parse(rest, field, fields, mode) ==
      if rest == [] then Some(fields + [field]) else Parse(rest[1..], "", fields + [field], Start)
  {
    if rest != [] {
      assert rest == [','] + rest[1..];
      ParseCons(',', rest[1..], field, fields, mode);
    }
  }

  lemma QuotedCellStep(t: string, rest: string, fields: seq<string>)
    requires rest == [] || rest[0] == ','
    ensures Parse(QuoteField(t) + rest, "", fields, Start) ==
      if rest == [] then Some(fields + [t]) else Parse(rest[1..], "", fields + [t], Start)
  {
    assert QuoteField(t) + rest == ['"'] + (Escape(t) + "\"" + rest);
    ParseCons('"', Escape(t) + "\"" + rest, "", fields, Start);
    QuotedStep(t, rest, "", fields);
    assert "" + t == t;
    FieldEnd(rest, t, fields, AfterQuote);
  }

  lemma BareCellStep(t: string, rest: string, fields: seq<string>)
    requires Bare(t)
    requires rest == [] || rest[0] == ','
    ensures Parse(t + rest, "", fields, Start) ==
      if rest == [] then Some(fields + [t]) else Parse(rest[1..], "", fields + [t], Start)
  {
    if t == [] {
      assert t + rest == rest;
      FieldEnd(rest, t, fields, Start);
    } else {
      assert t[0] in t;
      assert t + rest == [t[0]] + (t[1..] + rest);
      ParseCons(t[0], t[1..] + rest, "", fields, Start);
      assert "" + [t[0]] == [t[0]];
      assert Step(t[0], "", fields, Start) == Go([t[0]], fields, Unquoted);
      assert forall x :: x in t[1..] ==> x in t;
      BareStep(t[1..], rest, [t[0]], fields);
      assert [t[0]] + t[1..] == t;
      FieldEnd(rest, t, fields, Unquoted);
    }
  }

  /** One encoded cell, then the end of the record or a comma and more. */
  lemma CellStep(c: Cell, rest: string, fields: seq<string>)
    requires WellFormed(c)
    requires rest == [] || rest[0] == ','
    ensures Parse(Encode(c) + rest, "", fields, Start) ==
      if rest == [] then Some(fields + [c.text]) else Parse(rest[1..], "", fields + [c.text], Start)
  {
    match c
    case QuotedCell(t) => QuotedCellStep(t, rest, fields);
    case BareCell(t) => BareCellStep(t, rest, fields);
  }

  /** Reading back the comma-joined encoding of well-formed cells gives their texts. */
  lemma {:induction false} RecordRoundTrip(cells: seq<Cell>, fields: seq<string>)
    requires |cells| > 0 && forall i :: 0 <= i < |cells| ==> WellFormed(cells[i])
    ensures Parse(Join(Encoded(cells), ","), "", fields, Start) == Some(fields + Texts(cells))
  {
    var parts := Encoded(cells);
    if |cells| == 1 {
      CellStep(cells[0], "", fields);
      assert Join(parts, ",") == Encode(cells[0]) + "";
      assert Texts(cells) == [cells[0].text];
    } else {
      var rest := "," + Join(parts[1..], ",");
      assert Join(parts, ",") == Encode(cells[0]) + rest;
      CellStep(cells[0], rest, fields);
      assert parts[1..] == Encoded(cells[1..]);
      assert rest[1..] == Join(Encoded(cells[1..]), ",");
      RecordRoundTrip(cells[1..], fields + [cells[0].text]);
      assert Texts(cells) == [cells[0].text] + Texts(cells[1..]);
      assert fields + [cells[0].text] + Texts(cells[1..]) == fields + Texts(cells);
    }
  }

  /** The record form of the round trip. */
  lemma ParseRecordRoundTrip(cells: seq<Cell>)
    requires |cells| > 0 && forall i :: 0 <= i < |cells| ==> WellFormed(cells[i])
    ensures ParseRecord(Join(Encoded(cells), ",")) == Some(Texts(cells))
  {
    RecordRoundTrip(cells, []);
    assert [] + Texts(cells) == Texts(cells);
  }

  lemma {:induction false} EscapeAvoids(t: string, c: char)
    requires c != '"' && c !in t
    ensures c !in Escape(t)
  {
    if t != [] {
      assert c !in t[1..] by {
        assert forall x :: x in t[1..] ==> x in t;
      }
      EscapeAvoids(t[1..], c);
    }
  }

  /** A character other than a comma or a double quote appears in an encoded record only if some cell holds it. */
  lemma EncodedAvoids(cells: seq<Cell>, c: char)
    requires c != '"' && c != ','
    requires forall i :: 0 <= i < |cells| ==> c !in cells[i].text
    ensures c !in Join(Encoded(cells), ",")
  {
    var parts := Encoded(cells);
    forall k | 0 <= k < |parts|
      ensures c !in parts[k]
    {
      if cells[k].QuotedCell? {
        EscapeAvoids(cells[k].text, c);
      }
    }
    JoinAvoids(parts, ",", c);
  }
}
