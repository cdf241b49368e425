/**
 * The student import wizard of src/components/school-admin/BulkStudentImport.tsx.
 *
 * A file is parsed into a header row and data rows (the parsing itself belongs to the
 * CSV and spreadsheet libraries and is left out); the wizard guesses which headers hold
 * the student name and the class, lets the user change that guess, turns every data row
 * into a cleaned student record or an error line, and sends the records to the database
 * in one call whose outcome enters as an argument.
 */
module BulkStudentImport {
  import opened Wrappers
  import opened Strings
  import opened Lists

  // ---------------------------------------------------------------- name cleaning

  /** The characters of the class `[,_-]`. */
  predicate IsSeparator(c: char)
  {
    c == ',' || c == '_' || c == '-'
  }

  /** `.replace(/[,_-]/g, ' ')`. */
  function ReplaceSeparators(s: string): (r: string)
    ensures |r| == |s|
    ensures forall i :: 0 <= i < |s| ==> r[i] == if IsSeparator(s[i]) then ' ' else s[i]
  {
    if s == [] then [] else [if IsSeparator(s[0]) then ' ' else s[0]] + ReplaceSeparators(s[1..])
  }

  /** The only white space is the plain space, and no two spaces are adjacent. */
  predicate Collapsed(s: string)
  {
    && (forall i :: 0 <= i < |s| && IsSpace(s[i]) ==> s[i] == ' ')
    && (forall i :: 0 < i < |s| && s[i] == ' ' ==> s[i - 1] != ' ')
  }

  /** The characters other than white space, in order. */
  function NonSpace(s: string): string
  {
    if s == [] then []
    else NonSpace(s[..|s| - 1]) + (if IsSpace(s[|s| - 1]) then [] else [s[|s| - 1]])
  }

  /** `.replace(/\s+/g, ' ')`: every run of white space becomes a single space. */
  function CollapseSpaces(s: string): string
  {
    if s == [] then []
    else
      var p := CollapseSpaces(s[..|s| - 1]);
      var c := s[|s| - 1];
      if !IsSpace(c) then p + [c]
      else if p != [] && p[|p| - 1] == ' ' then p
      else p + [' ']
  }

  /** Collapsing keeps every non-space character in order, leaves single plain spaces, and ends in a space exactly when the input ends in white space. */
  lemma CollapseSpacesFacts(s: string)
    ensures |CollapseSpaces(s)| <= |s|
    ensures CollapseSpaces(s) == [] <==> s == []
    ensures (CollapseSpaces(s) != [] && CollapseSpaces(s)[|CollapseSpaces(s)| - 1] == ' ') <==> (s != [] && IsSpace(s[|s| - 1]))
    ensures Collapsed(CollapseSpaces(s))
    ensures NonSpace(CollapseSpaces(s)) == NonSpace(s)
    ensures forall i :: 0 <= i < |CollapseSpaces(s)| ==> CollapseSpaces(s)[i] == ' ' || CollapseSpaces(s)[i] in s
  {
    CollapseShape(s);
    CollapseNonSpace(s);
    CollapseChars(s);
  }

  lemma {:induction false} CollapseShape(s: string)
    ensures var r := CollapseSpaces(s);
      && |r| <= |s|
      && (r == [] <==> s == [])
      && ((r != [] && r[|r| - 1] == ' ') <==> (s != [] && IsSpace(s[|s| - 1])))
      && Collapsed(r)
    decreases |s|
  {
    if s != [] {
      var init := s[..|s| - 1];
      CollapseShape(init);
      var p := CollapseSpaces(init);
      var c := s[|s| - 1];
      if !IsSpace(c) {
        CollapsedSnoc(p, c);
      } else if !(p != [] && p[|p| - 1] == ' ') {
        CollapsedSnoc(p, ' ');
      }
    }
  }

  lemma {:induction false} CollapseNonSpace(s: string)
    ensures NonSpace(CollapseSpaces(s)) == NonSpace(s)
    decreases |s|
  {
    if s != [] {
      var init := s[..|s| - 1];
      CollapseNonSpace(init);
      var p := CollapseSpaces(init);
      var c := s[|s| - 1];
      assert s == init + [c];
      NonSpaceSnoc(init, c);
      if !IsSpace(c) {
        NonSpaceSnoc(p, c);
      } else if !(p != [] && p[|p| - 1] == ' ') {
        NonSpaceSnoc(p, ' ');
      }
    }
  }

  lemma {:induction false} CollapseChars(s: string)
    ensures forall i :: 0 <= i < |CollapseSpaces(s)| ==> CollapseSpaces(s)[i] == ' ' || CollapseSpaces(s)[i] in s
    decreases |s|
  {
    if s != [] {
      var init := s[..|s| - 1];
      CollapseChars(init);
      var p := CollapseSpaces(init);
      var c := s[|s| - 1];
      assert s == init + [c];
      if !IsSpace(c) {
        CharsSnoc(p, init, c, c);
      } else if p != [] && p[|p| - 1] == ' ' {
        CharsSnoc(p, init, c, c);
      } else {
        CharsSnoc(p, init, c, ' ');
      }
    }
  }

  lemma NonSpaceSnoc(p: string, c: char)
    ensures NonSpace(p + [c]) == NonSpace(p) + (if IsSpace(c) then [] else [c])
  {
    assert (p + [c])[..|p|] == p;
  }

  lemma CollapsedSnoc(p: string, c: char)
    requires Collapsed(p)
    requires IsSpace(c) ==> c == ' '
    requires c == ' ' ==> p == [] || p[|p| - 1] != ' '
    ensures Collapsed(p + [c])
  {
    var q := p + [c];
    forall i | 0 < i < |q| && q[i] == ' '
      ensures q[i - 1] != ' '
    {
      if i < |p| {
        assert q[i] == p[i] && q[i - 1] == p[i - 1];
      }
    }
  }

  /** A space or a character of `init`, with one more character, stays a space or a character of `init + [c]`. */
  lemma CharsSnoc(p: string, init: string, c: char, d: char)
    requires forall i :: 0 <= i < |p| ==> p[i] == ' ' || p[i] in init
    requires d == ' ' || d == c
    ensures forall i :: 0 <= i < |p| ==> p[i] == ' ' || p[i] in init + [c]
    ensures forall i :: 0 <= i < |p + [d]| ==> (p + [d])[i] == ' ' || (p + [d])[i] in init + [c]
  {
    assert forall x :: x in init ==> x in init + [c];
    forall i | 0 <= i < |p + [d]|
      ensures (p + [d])[i] == ' ' || (p + [d])[i] in init + [c]
    {
      if i < |p| {
        assert (p + [d])[i] == p[i];
      }
    }
  }

  /** A collapsed string is left as it is. */
  lemma {:induction false} CollapseCollapsed(s: string)
    requires Collapsed(s)
    ensures CollapseSpaces(s) == s
    decreases |s|
  {
    if s != [] {
      var init := s[..|s| - 1];
      assert Collapsed(init);
      CollapseCollapsed(init);
    }
  }

  /**
   * The title case of `t`, character by character: a character that starts the string or
   * follows a space is upper-cased, every other one lower-cased.
   */
  function Title(t: string): (r: string)
    ensures |r| == |t|
    ensures forall i :: 0 <= i < |t| ==> r[i] == if i == 0 || t[i - 1] == ' ' then UpperChar(t[i]) else LowerChar(t[i])
  {
    seq(|t|, i requires 0 <= i < |t| => if i == 0 || t[i - 1] == ' ' then UpperChar(t[i]) else LowerChar(t[i]))
  }

  /** `word.charAt(0).toUpperCase() + word.slice(1).toLowerCase()`. */
  function CapitalizeWord(w: string): string
  {
    if w == [] then [] else [UpperChar(w[0])] + ToLower(w[1..])
  }

  /** `.split(' ').map(capitalize).join(' ')`. */
  function TitleWords(t: string): string
  {
    Join(Map(Split(t, ' '), CapitalizeWord), " ")
  }

  /** The cleaned student name: separators to spaces, white-space runs collapsed, each word capitalised. */
  function CleanName(name: string): string
  {
    TitleWords(Spaced(name))
  }

  lemma CapitalizeIsTitle(w: string)
    requires ' ' !in w
    ensures CapitalizeWord(w) == Title(w)
  {
  }

  /** Title case splits around a space. */
  lemma TitleAroundSpace(t: string, i: nat)
    requires i < |t| && t[i] == ' '
    ensures Title(t) == Title(t[..i]) + " " + Title(t[i + 1..])
  {
    var a, b := Title(t[..i]), Title(t[i + 1..]);
    var r := a + " " + b;
    forall j | 0 <= j < |t|
      ensures Title(t)[j] == r[j]
    {
      if j < i {
        TitlePrefix(t, i, j);
      } else if j > i {
        TitleSuffix(t, i, j);
      }
    }
  }

  lemma TitlePrefix(t: string, i: nat, j: nat)
    requires j < i <= |t|
    ensures Title(t)[j] == Title(t[..i])[j]
  {
    assert t[..i][j] == t[j];
    assert j > 0 ==> t[..i][j - 1] == t[j - 1];
  }

  lemma TitleSuffix(t: string, i: nat, j: nat)
    requires i < j < |t| && t[i] == ' '
    ensures Title(t)[j] == Title(t[i + 1..])[j - i - 1]
  {
    assert t[i + 1..][j - i - 1] == t[j];
    assert j > i + 1 ==> t[i + 1..][j - i - 2] == t[j - 1];
  }

  /** Capitalising word by word is title case by character. */
  lemma {:induction false} TitleWordsIsTitle(t: string)
    ensures TitleWords(t) == Title(t)
    decreases |t|
  {
    if ' ' !in t {
      CapitalizeIsTitle(t);
    } else {
      var i := IndexOfChar(t, ' ');
      var rest := Split(t[i + 1..], ' ');
      assert Split(t, ' ') == [t[..i]] + rest;
      assert ([t[..i]] + rest)[1..] == rest;
      var m := Map([t[..i]] + rest, CapitalizeWord);
      assert m == [CapitalizeWord(t[..i])] + Map(rest, CapitalizeWord);
      assert m[1..] == Map(rest, CapitalizeWord);
      TitleWordsIsTitle(t[i + 1..]);
      CapitalizeIsTitle(t[..i]);
      TitleAroundSpace(t, i);
    }
  }

  /** The cleaned name is the title case of the collapsed, separator-free name. */
  lemma CleanNameIsTitle(name: string)
    ensures CleanName(name) == Title(Spaced(name))
  {
    TitleWordsIsTitle(Spaced(name));
  }

  /** Title case keeps every space where it was and changes no other character into white space. */
  lemma TitleKeepsSpaces(t: string)
    requires Collapsed(t)
    ensures Collapsed(Title(t))
    ensures forall i :: 0 <= i < |t| ==> (Title(t)[i] == ' ' <==> t[i] == ' ')
  {
  }

  /** What a cleaned name looks like. */
  predicate CleanNameShape(r: string)
  {
    && Collapsed(r)
    && (forall i :: 0 <= i < |r| ==> !IsSeparator(r[i]))
    && (forall i :: 0 <= i < |r| && (i == 0 || r[i - 1] == ' ') ==> !IsLower(r[i]))
    && (forall i :: 0 < i < |r| && r[i - 1] != ' ' ==> !IsUpper(r[i]))
  }

  /** The collapsed, separator-free name that the words are cut from. */
  function Spaced(name: string): (t: string)
    ensures Collapsed(t)
    ensures forall i :: 0 <= i < |t| ==> !IsSeparator(t[i])
    ensures |t| <= |name| && (t == [] <==> name == [])
  {
    CollapseSpacesFacts(ReplaceSeparators(name));
    CollapseSpaces(ReplaceSeparators(name))
  }

  lemma TitleShape(t: string)
    requires Collapsed(t)
    requires forall i :: 0 <= i < |t| ==> !IsSeparator(t[i])
    ensures CleanNameShape(Title(t))
  {
    TitleKeepsSpaces(t);
  }

  lemma TitleLower(t: string)
    ensures ToLower(Title(t)) == ToLower(t)
  {
  }

  /**
   * A cleaned name has no separator characters, single plain spaces only, an upper-case
   * (or non-letter) character at the start of each word and lower case elsewhere; and it
   * differs from the collapsed, separator-free name only in letter case.
   */
  lemma CleanNameRules(name: string)
    ensures CleanNameShape(CleanName(name))
    ensures ToLower(CleanName(name)) == ToLower(Spaced(name))
    ensures |CleanName(name)| <= |name|
    ensures CleanName(name) == [] <==> name == []
  {
    var t := Spaced(name);
    CleanNameIsTitle(name);
    TitleShape(t);
    TitleLower(t);
  }

  /** Title case of a title-cased collapsed string changes nothing. */
  lemma TitleTwice(t: string)
    requires Collapsed(t)
    ensures Title(Title(t)) == Title(t)
  {
    TitleKeepsSpaces(t);
  }

  /** Cleaning a cleaned name changes nothing. */
  lemma CleanNameIdempotent(name: string)
    ensures CleanName(CleanName(name)) == CleanName(name)
  {
    var t := Spaced(name);
    var r := CleanName(name);
    CleanNameIsTitle(name);
    assert r == Title(t);
    TitleShape(t);
    assert ReplaceSeparators(r) == r;
    CollapseCollapsed(r);
    assert Spaced(r) == r;
    CleanNameIsTitle(r);
    TitleTwice(t);
  }

  // ---------------------------------------------------------------- class cleaning

  /** The keyword of `/class|grade|form/i` that starts `s`; the three begin with different letters, so at most one does. */
  function KeywordAt(s: string): (r: Option<string>)
    ensures r.Some? ==> r.value <= s && r.value in ["class", "grade", "form"]
  {
    if "class" <= s then Some("class")
    else if "grade" <= s then Some("grade")
    else if "form" <= s then Some("form")
    else None
  }

  /** `.replace(/class|grade|form/i, '')` (no `g` flag): only the leftmost keyword is removed. */
  function RemoveFirstKeyword(s: string): (r: string)
    ensures |r| <= |s|
    ensures forall i :: 0 <= i < |r| ==> r[i] in s
  {
    if s == [] then []
    else match KeywordAt(s)
      case Some(k) => s[|k|..]
      case None => [s[0]] + RemoveFirstKeyword(s[1..])
  }

  /** Without any keyword the string is left as it is. */
  lemma {:induction false} NoKeywordUnchanged(s: string)
    requires forall j :: 0 <= j <= |s| ==> KeywordAt(s[j..]).None?
    ensures RemoveFirstKeyword(s) == s
  {
    if s != [] {
      assert KeywordAt(s[0..]).None?;
      forall j | 0 <= j <= |s| - 1
        ensures KeywordAt(s[1..][j..]).None?
      {
        assert s[1..][j..] == s[j + 1..];
      }
      NoKeywordUnchanged(s[1..]);
    }
  }

  /** The keyword starting at the leftmost position where one starts is cut out, and nothing else. */
  lemma {:induction false} RemovesLeftmostKeyword(s: string, i: nat)
    requires i <= |s| && KeywordAt(s[i..]).Some?
    requires forall j :: 0 <= j < i ==> KeywordAt(s[j..]).None?
    ensures RemoveFirstKeyword(s) == s[..i] + s[i + |KeywordAt(s[i..]).value|..]
  {
    if i == 0 {
      assert s[0..] == s;
    } else {
      assert KeywordAt(s[0..]).None?;
      var t := s[1..];
      NoKeywordBeforeShift(s, i);
      assert KeywordAt(t[i - 1..]) == KeywordAt(s[i..]) by {
        assert t[i - 1..] == s[i..];
      }
      RemovesLeftmostKeyword(t, i - 1);
      assert RemoveFirstKeyword(s) == [s[0]] + RemoveFirstKeyword(t);
      ConsAroundCut(s, i, |KeywordAt(s[i..]).value|);
    }
  }

  lemma ConsAroundCut(s: string, i: nat, n: nat)
    requires 0 < i && i + n <= |s|
    ensures [s[0]] + (s[1..][..i - 1] + s[1..][i - 1 + n..]) == s[..i] + s[i + n..]
  {
    assert s[1..][i - 1 + n..] == s[i + n..];
    assert s[..i] == [s[0]] + s[1..][..i - 1];
  }

  lemma NoKeywordBeforeShift(s: string, i: nat)
    requires 0 < i <= |s|
    requires forall j :: 0 <= j < i ==> KeywordAt(s[j..]).None?
    ensures forall j :: 0 <= j < i - 1 ==> KeywordAt(s[1..][j..]).None?
  {
    forall j | 0 <= j < i - 1
      ensures KeywordAt(s[1..][j..]).None?
    {
      assert s[1..][j..] == s[j + 1..];
    }
  }

  /** The cleaned class: lower-cased, reduced to `[a-z0-9]`, first keyword removed, and the lower-cased class when nothing is left. */
  function CleanClass(className: string): string
  {
    var cleaned := Trim(RemoveFirstKeyword(Filter(ToLower(Trim(className)), IsLowerAlnum)));
    if cleaned != "" then cleaned else ToLower(className)
  }

  /** A string without white space is its own trim. */
  lemma TrimNoSpace(s: string)
    requires forall i :: 0 <= i < |s| ==> !IsSpace(s[i])
    ensures Trim(s) == s
  {
    TrimmedIff(s);
  }

  /**
   * The cleaned class of a non-empty (trimmed) cell is never empty: it is either made of
   * `[a-z0-9]` only, or, when the keyword was all there was, the lower-cased cell.
   */
  lemma CleanClassRules(className: string)
    requires className != ""
    ensures var r := CleanClass(className);
      && r != ""
      && ((forall i :: 0 <= i < |r| ==> IsLowerAlnum(r[i])) || r == ToLower(className))
  {
    var f := Filter(ToLower(Trim(className)), IsLowerAlnum);
    var k := RemoveFirstKeyword(f);
    assert forall i :: 0 <= i < |k| ==> IsLowerAlnum(k[i]);
    TrimNoSpace(k);
  }

  /** A class cell that is nothing but a keyword, once reduced to `[a-z0-9]`, falls back to the lower-cased cell. */
  lemma CleanClassKeywordOnly(className: string)
    requires Filter(ToLower(Trim(className)), IsLowerAlnum) in ["class", "grade", "form"]
    ensures CleanClass(className) == ToLower(className)
  {
    var f := Filter(ToLower(Trim(className)), IsLowerAlnum);
    KeywordAlone(f);
    assert Trim(RemoveFirstKeyword(f)) == [];
  }

  /** A keyword on its own is removed entirely. */
  lemma KeywordAlone(k: string)
    requires k in ["class", "grade", "form"]
    ensures RemoveFirstKeyword(k) == []
  {
    if k == "class" {
      assert KeywordAt(k) == Some("class");
    } else if k == "grade" {
      assert k[0] != 'c';
      assert KeywordAt(k) == Some("grade");
    } else {
      assert k[0] != 'c' && k[0] != 'g';
      assert KeywordAt(k) == Some("form");
    }
  }

  // ---------------------------------------------------------------- column detection

  const NameVariations: seq<string> := [
    "name", "student name", "full name", "student full name",
    "magaca_ardayga", "magaca ardayga", "اسم الطالب",
    "nom étudiant", "nombre estudiante", "nome estudante"]

  const ClassVariations: seq<string> := [
    "class_name", "class", "grade", "class name", "section", "form",
    "fasalka", "fasalka", "الصف", "classe", "grado", "classe"]

  /**
   * Whether the header, lower-cased and trimmed, contains one of the variations or is
   * contained in one (so a blank header matches every variation).
   */
  predicate Matches(header: string, variations: seq<string>)
  {
    var h := Trim(ToLower(header));
    exists v :: v in variations && (Contains(h, ToLower(v)) || Contains(ToLower(v), h))
  }

  predicate IsNameHeader(header: string)
  {
    Matches(header, NameVariations)
  }

  predicate IsClassHeader(header: string)
  {
    Matches(header, ClassVariations)
  }

  /** Position `i` holds the last header satisfying `p`. */
  predicate IsLastMatch(headers: seq<string>, p: string -> bool, i: int)
  {
    0 <= i < |headers| && p(headers[i]) && forall j :: i < j < |headers| ==> !p(headers[j])
  }

  /** The last header satisfying `p`, if any: each matching header overwrites the previous choice. */
  function LastMatch(headers: seq<string>, p: string -> bool): (r: Option<string>)
    ensures r.Some? ==> r.value in headers && p(r.value)
  {
    if headers == [] then None
    else if p(headers[|headers| - 1]) then Some(headers[|headers| - 1])
    else LastMatch(headers[..|headers| - 1], p)
  }

  /** The search finds nothing exactly when no header matches, and otherwise the last matching header. */
  lemma {:induction false} LastMatchSpec(headers: seq<string>, p: string -> bool)
    ensures LastMatch(headers, p).None? <==> forall i :: 0 <= i < |headers| ==> !p(headers[i])
    ensures forall i :: IsLastMatch(headers, p, i) ==> LastMatch(headers, p) == Some(headers[i])
    ensures LastMatch(headers, p).Some? ==> exists i :: IsLastMatch(headers, p, i) && LastMatch(headers, p).value == headers[i]
  {
    if headers != [] {
      var n := |headers| - 1;
      var init := headers[..n];
      if p(headers[n]) {
        assert IsLastMatch(headers, p, n);
      } else {
        LastMatchSpec(init, p);
        forall i | IsLastMatch(headers, p, i)
          ensures IsLastMatch(init, p, i)
        {
        }
        if LastMatch(init, p).Some? {
          var i :| IsLastMatch(init, p, i) && LastMatch(init, p).value == init[i];
          assert IsLastMatch(headers, p, i);
        }
      }
    }
  }

  /** The `{ name, class_name }` mapping; a column is chosen when it holds a non-empty header. */
  datatype ColumnMapping = ColumnMapping(name: Option<string>, className: Option<string>)

  /** What `detectColumns` returns: the two searches run independently over the same headers. */
  function Detected(headers: seq<string>): ColumnMapping
  {
    ColumnMapping(LastMatch(headers, IsNameHeader), LastMatch(headers, IsClassHeader))
  }

  /** `detectColumns`: one pass over the headers, overwriting a field on every match. */
  method DetectColumns(headers: seq<string>) returns (mapping: ColumnMapping)
    ensures mapping == Detected(headers)
  {
    mapping := ColumnMapping(None, None);
    for i := 0 to |headers|
      invariant mapping == Detected(headers[..i])
    {
      var header := headers[i];
      assert headers[..i + 1][..i] == headers[..i];
      if IsNameHeader(header) {
        mapping := mapping.(name := Some(header));
      }
      if IsClassHeader(header) {
        mapping := mapping.(className := Some(header));
      }
    }
    assert headers[..|headers|] == headers;
  }

  /** A header that is blank once trimmed is contained in every variation, so it matches both searches. */
  lemma BlankHeaderMatchesBoth(header: string)
    requires Trim(ToLower(header)) == ""
    ensures IsNameHeader(header) && IsClassHeader(header)
  {
    ContainsEmptyAndSelf(ToLower("name"));
    assert "name" in NameVariations;
    ContainsEmptyAndSelf(ToLower("class"));
    assert "class" in ClassVariations;
  }

  /** When the last header is blank, it becomes both the name column and the class column. */
  lemma BlankLastHeaderTakesBoth(headers: seq<string>)
    requires headers != [] && Trim(ToLower(headers[|headers| - 1])) == ""
    ensures Detected(headers) == ColumnMapping(Some(headers[|headers| - 1]), Some(headers[|headers| - 1]))
  {
    BlankHeaderMatchesBoth(headers[|headers| - 1]);
  }

  /** A header matches through a variation it contains. */
  lemma MatchesThrough(header: string, variations: seq<string>, v: string)
    requires v in variations && Contains(Trim(ToLower(header)), ToLower(v))
    ensures Matches(header, variations)
  {
  }

  /** A header that mentions both "name" and "class" (such as "Class Name") matches the name search as well as the class search. */
  lemma NameAndClassHeaderMatchesBoth(header: string)
    requires Contains(Trim(ToLower(header)), "name") && Contains(Trim(ToLower(header)), "class")
    ensures IsNameHeader(header) && IsClassHeader(header)
  {
    VariationFacts();
    MatchesThrough(header, NameVariations, "name");
    MatchesThrough(header, ClassVariations, "class");
  }

  lemma VariationFacts()
    ensures "name" in NameVariations && ToLower("name") == "name"
    ensures "class" in ClassVariations && ToLower("class") == "class"
  {
    assert ToLower("name") == "name";
    assert ToLower("class") == "class";
  }

  // ---------------------------------------------------------------- rows to students

  datatype StudentData = StudentData(name: string, className: string)

  /** `headers.indexOf(h)`: the first position holding `h`, or -1. */
  function HeaderIndex(headers: seq<string>, h: string): (r: int)
    ensures -1 <= r < |headers|
    ensures r >= 0 ==> headers[r] == h && h !in headers[..r]
    ensures r == -1 <==> h !in headers
  {
    if h !in headers then -1 else PositionOf(headers, h)
  }

  function PositionOf(headers: seq<string>, h: string): (r: nat)
    requires h in headers
    ensures r < |headers| && headers[r] == h && h !in headers[..r]
  {
    if headers[0] == h then 0 else 1 + PositionOf(headers[1..], h)
  }

  /** The positions of the two chosen columns. */
  datatype Columns = Columns(nameIndex: int, classIndex: int)

  /** `row[i]?.trim()`: nothing when the row has no cell there (a short row, or the index -1). */
  function CellAt(row: seq<string>, i: int): Option<string>
  {
    if 0 <= i < |row| then Some(Trim(row[i])) else None
  }

  /** A cell value the code treats as truthy. */
  predicate Filled(c: Option<string>)
  {
    c.Some? && c.value != ""
  }

  /** Both the name and the class cell of the row are filled. */
  predicate CompleteRow(cols: Columns, row: seq<string>)
  {
    Filled(CellAt(row, cols.nameIndex)) && Filled(CellAt(row, cols.classIndex))
  }

  function CleanRow(cols: Columns, row: seq<string>): StudentData
  {
    StudentData(CleanName(CellAt(row, cols.nameIndex).GetOr("")), CleanClass(CellAt(row, cols.classIndex).GetOr("")))
  }

  /** The error line of an incomplete row; `index` is 0-based, the message counts the header row too. */
  function RowError(cols: Columns, row: seq<string>, index: nat): string
  {
    "Row " + NatToString(index + 2)
      + (if !Filled(CellAt(row, cols.nameIndex)) then ": Empty name field" else ": Empty class field")
  }

  /** What `processMappedData` collects: the cleaned students and the error lines, each in row order. */
  function Processed(cols: Columns, rows: seq<seq<string>>): (r: (seq<StudentData>, seq<string>))
    ensures |r.0| + |r.1| == |rows|
  {
    if rows == [] then ([], [])
    else
      var p := Processed(cols, rows[..|rows| - 1]);
      var row := rows[|rows| - 1];
      if CompleteRow(cols, row) then (p.0 + [CleanRow(cols, row)], p.1)
      else (p.0, p.1 + [RowError(cols, row, |rows| - 1)])
  }

  /** One more row: a complete row adds its cleaned student, any other row its error line. */
  lemma ProcessedSnoc(cols: Columns, rows: seq<seq<string>>, index: nat)
    requires index < |rows|
    ensures var p := Processed(cols, rows[..index]);
      Processed(cols, rows[..index + 1]) ==
        if CompleteRow(cols, rows[index]) then (p.0 + [CleanRow(cols, rows[index])], p.1)
        else (p.0, p.1 + [RowError(cols, rows[index], index)])
  {
    assert rows[..index + 1][..index] == rows[..index];
  }

  /** The `forEach` of `processMappedData`. */
  method ProcessRows(cols: Columns, rows: seq<seq<string>>) returns (mapped: seq<StudentData>, errors: seq<string>)
    ensures (mapped, errors) == Processed(cols, rows)
  {
    mapped, errors := [], [];
    for index := 0 to |rows|
      invariant (mapped, errors) == Processed(cols, rows[..index])
    {
      var row := rows[index];
      ProcessedSnoc(cols, rows, index);
      var name := CellAt(row, cols.nameIndex);
      var className := CellAt(row, cols.classIndex);
      if !Filled(name) {
        errors := errors + ["Row " + NatToString(index + 2) + ": Empty name field"];
        continue;
      }
      if !Filled(className) {
        errors := errors + ["Row " + NatToString(index + 2) + ": Empty class field"];
        continue;
      }
      mapped := mapped + [StudentData(CleanName(name.value), CleanClass(className.value))];
    }
    assert rows[..|rows|] == rows;
  }

  function CompleteIn(cols: Columns): seq<string> -> bool
  {
    row => CompleteRow(cols, row)
  }

  function IncompleteIn(cols: Columns): seq<string> -> bool
  {
    row => !CompleteRow(cols, row)
  }

  function Cleaner(cols: Columns): seq<string> -> StudentData
  {
    row => CleanRow(cols, row)
  }

  /** The students are exactly the complete rows, cleaned, in order. */
  lemma {:induction false} ProcessedSplitsRows(cols: Columns, rows: seq<seq<string>>)
    ensures Processed(cols, rows).0 == Map(Filter(rows, CompleteIn(cols)), Cleaner(cols))
  {
    if rows != [] {
      var init, row := rows[..|rows| - 1], rows[|rows| - 1];
      assert rows == init + [row];
      ProcessedSplitsRows(cols, init);
      FilterSnoc(init, row, CompleteIn(cols));
      if CompleteRow(cols, row) {
        MapSnoc(Filter(init, CompleteIn(cols)), row, Cleaner(cols));
      }
    }
  }

  /** There is one error line per incomplete row. */
  lemma {:induction false} ProcessedErrorPerIncompleteRow(cols: Columns, rows: seq<seq<string>>)
    ensures |Processed(cols, rows).1| == |Filter(rows, IncompleteIn(cols))|
  {
    if rows != [] {
      var init, row := rows[..|rows| - 1], rows[|rows| - 1];
      assert rows == init + [row];
      ProcessedErrorPerIncompleteRow(cols, init);
      FilterSnoc(init, row, IncompleteIn(cols));
    }
  }

  /** A student the import sends: a cleaned, non-empty name and a non-empty class. */
  predicate GoodStudent(s: StudentData)
  {
    && s.name != "" && CleanNameShape(s.name) && CleanName(s.name) == s.name
    && s.className != ""
  }

  lemma CleanRowGood(cols: Columns, row: seq<string>)
    requires CompleteRow(cols, row)
    ensures GoodStudent(CleanRow(cols, row))
  {
    var name := CellAt(row, cols.nameIndex).value;
    CleanNameRules(name);
    CleanNameIdempotent(name);
    CleanClassRules(CellAt(row, cols.classIndex).value);
  }

  /** Every student produced has a non-empty, already clean name and a non-empty class. */
  lemma ProcessedStudentsGood(cols: Columns, rows: seq<seq<string>>)
    ensures forall k :: 0 <= k < |Processed(cols, rows).0| ==> GoodStudent(Processed(cols, rows).0[k])
  {
    ProcessedSplitsRows(cols, rows);
    var f := Filter(rows, CompleteIn(cols));
    forall k | 0 <= k < |f|
      ensures GoodStudent(Map(f, Cleaner(cols))[k])
    {
      assert f[k] in f;
      CleanRowGood(cols, f[k]);
    }
  }

  // ---------------------------------------------------------------- the wizard

  datatype Step = Upload | Mapping | Preview | Importing | Complete

  datatype ParsedData = ParsedData(headers: seq<string>, rows: seq<seq<string>>, mappedData: seq<StudentData>, errors: seq<string>)

  datatype ImportResults = ImportResults(success: int, errors: seq<string>)

  /** A row the database function refused, as it reports it. */
  datatype RowFailure = RowFailure(studentName: string, className: string, error: string)

  /** How the bulk insert call settled: its result row (`inserted_count` may be missing), or the error it threw. */
  datatype InsertOutcome =
    | Inserted(insertedCount: Option<int>, failures: seq<RowFailure>)
    | InsertFailed(message: string)

  datatype WizardState = WizardState(step: Step, parsed: Option<ParsedData>, mapping: ColumnMapping, results: Option<ImportResults>)

  function Initial(): WizardState
  {
    WizardState(Upload, None, ColumnMapping(None, None), None)
  }

  /**
   * A parsed file arrives as its table of cells. A parser error (CSV) or an empty table
   * (spreadsheet) changes nothing; otherwise the first row is the header row, the columns
   * are detected and the wizard moves to the mapping step.
   */
  function FileParsed(s: WizardState, table: seq<seq<string>>, parseFailed: bool): WizardState
  {
    if parseFailed || table == [] then s
    else s.(step := Mapping, parsed := Some(ParsedData(table[0], table[1..], [], [])), mapping := Detected(table[0]))
  }

  /** The two selects of the mapping step; '' is "Select column...". */
  function NameColumnChosen(s: WizardState, header: string): WizardState
  {
    s.(mapping := s.mapping.(name := Some(header)))
  }

  function ClassColumnChosen(s: WizardState, header: string): WizardState
  {
    s.(mapping := s.mapping.(className := Some(header)))
  }

  /** The column positions a mapping selects in the header row. */
  function ColumnsOf(p: ParsedData, m: ColumnMapping): Columns
  {
    Columns(HeaderIndex(p.headers, m.name.GetOr("")), HeaderIndex(p.headers, m.className.GetOr("")))
  }

  /** `processMappedData`: nothing unless a file is parsed and both columns are chosen. */
  function MappedDataProcessed(s: WizardState): WizardState
  {
    if s.parsed.None? || !Filled(s.mapping.name) || !Filled(s.mapping.className) then s
    else
      var p := s.parsed.value;
      var r := Processed(ColumnsOf(p, s.mapping), p.rows);
      s.(parsed := Some(p.(mappedData := r.0, errors := r.1)), step := Preview)
  }

  /** The Back button of the preview step. */
  function BackToMapping(s: WizardState): WizardState
  {
    s.(step := Mapping)
  }

  /** `handleImport`: with parsed data (even with no students), the wizard shows the importing step and the call starts. */
  function ImportStarted(s: WizardState): WizardState
  {
    if s.parsed.None? then s else s.(step := Importing)
  }

  /** The line shown for one refused row. */
  function FailureLine(f: RowFailure): string
  {
    f.studentName + " (" + f.className + "): " + f.error
  }

  /** The mutation settles: without a school the call throws "No school ID"; either way the wizard completes. */
  function ImportSettled(s: WizardState, hasSchool: bool, outcome: InsertOutcome): WizardState
  {
    var results :=
      if !hasSchool then ImportResults(0, ["No school ID"])
      else match outcome
        case Inserted(count, failures) => ImportResults(count.GetOr(0), Map(failures, FailureLine))
        case InsertFailed(message) => ImportResults(0, [message]);
    s.(results := Some(results), step := Complete)
  }

  /** `resetImport`. */
  function ImportReset(s: WizardState): WizardState
  {
    Initial()
  }

  /** A parsed file leads to the mapping step with the detected columns, and to nothing else. */
  lemma FileParsedRule(s: WizardState, table: seq<seq<string>>, parseFailed: bool)
    ensures var r := FileParsed(s, table, parseFailed);
      && (parseFailed || table == [] ==> r == s)
      && (!parseFailed && table != [] ==>
            r.step == Mapping && r.mapping == Detected(table[0]) && r.results == s.results
            && r.parsed == Some(ParsedData(table[0], table[1..], [], [])))
  {
  }

  /** Processing does nothing unless a file is parsed and both column choices hold a non-empty header. */
  lemma ProcessNeedsBothColumns(s: WizardState)
    requires s.parsed.None? || !Filled(s.mapping.name) || !Filled(s.mapping.className)
    ensures MappedDataProcessed(s) == s
  {
  }

  /**
   * Processing accounts for every data row (a student or an error line each), keeps the
   * header and data rows, and moves to the preview step.
   */
  lemma ProcessAccountsForEveryRow(s: WizardState)
    requires s.parsed.Some? && Filled(s.mapping.name) && Filled(s.mapping.className)
    ensures var r := MappedDataProcessed(s);
      && r.step == Preview && r.parsed.Some?
      && r.parsed.value.headers == s.parsed.value.headers && r.parsed.value.rows == s.parsed.value.rows
      && |r.parsed.value.mappedData| + |r.parsed.value.errors| == |s.parsed.value.rows|
      && forall k :: 0 <= k < |r.parsed.value.mappedData| ==> GoodStudent(r.parsed.value.mappedData[k])
  {
    var p := s.parsed.value;
    ProcessedStudentsGood(ColumnsOf(p, s.mapping), p.rows);
  }

  /** The import ends on the complete step whether the call succeeds, fails, or has no school to send. */
  lemma ImportAlwaysCompletes(s: WizardState, hasSchool: bool, outcome: InsertOutcome)
    ensures var r := ImportSettled(s, hasSchool, outcome);
      && r.step == Complete && r.results.Some?
      && (!hasSchool ==> r.results.value == ImportResults(0, ["No school ID"]))
      && (hasSchool && outcome.InsertFailed? ==> r.results.value == ImportResults(0, [outcome.message]))
      && (hasSchool && outcome.Inserted? ==>
            r.results.value == ImportResults(outcome.insertedCount.GetOr(0), Map(outcome.failures, FailureLine)))
      && r.parsed == s.parsed && r.mapping == s.mapping
  {
  }

  /** Reset returns to the upload step with no file, no mapping and no results, from any state. */
  lemma ResetClearsEverything(s: WizardState)
    ensures ImportReset(s).step == Upload && ImportReset(s).parsed.None? && ImportReset(s).results.None?
    ensures ImportReset(s).mapping == ColumnMapping(None, None)
  {
  }

  /** The wizard component's state, updated by its handlers. */
  class ImportWizard {
    var step: Step
    var parsed: Option<ParsedData>
    var mapping: ColumnMapping
    var results: Option<ImportResults>

    function State(): WizardState
      reads this
    {
      WizardState(step, parsed, mapping, results)
    }

    constructor()
      ensures State() == Initial()
    {
      step := Upload;
      parsed := None;
      mapping := ColumnMapping(None, None);
      results := None;
    }

    method OnFileParsed(table: seq<seq<string>>, parseFailed: bool)
      modifies this
      ensures State() == FileParsed(old(State()), table, parseFailed)
    {
      if parseFailed || |table| == 0 {
        return;
      }
      var headers := table[0];
      var detected := DetectColumns(headers);
      parsed := Some(ParsedData(headers, table[1..], [], []));
      mapping := detected;
      step := Mapping;
    }

    method ChooseNameColumn(header: string)
      modifies this
      ensures State() == NameColumnChosen(old(State()), header)
    {
      mapping := mapping.(name := Some(header));
    }

    method ChooseClassColumn(header: string)
      modifies this
      ensures State() == ClassColumnChosen(old(State()), header)
    {
      mapping := mapping.(className := Some(header));
    }

    method ProcessMappedData()
      modifies this
      ensures State() == MappedDataProcessed(old(State()))
    {
      if parsed.None? || !Filled(mapping.name) || !Filled(mapping.className) {
        return;
      }
      var p := parsed.value;
      var nameIndex := HeaderIndex(p.headers, mapping.name.value);
      var classIndex := HeaderIndex(p.headers, mapping.className.value);
      var mapped, errors := ProcessRows(Columns(nameIndex, classIndex), p.rows);
      parsed := Some(p.(mappedData := mapped, errors := errors));
      step := Preview;
    }

    method Back()
      modifies this
      ensures State() == BackToMapping(old(State()))
    {
      step := Mapping;
    }

    method HandleImport()
      modifies this
      ensures State() == ImportStarted(old(State()))
    {
      if parsed.None? {
        return;
      }
      step := Importing;
    }

    method OnImportSettled(hasSchool: bool, outcome: InsertOutcome)
      modifies this
      ensures State() == ImportSettled(old(State()), hasSchool, outcome)
    {
      if !hasSchool {
        results := Some(ImportResults(0, ["No school ID"]));
      } else if outcome.Inserted? {
        results := Some(ImportResults(outcome.insertedCount.GetOr(0), Map(outcome.failures, FailureLine)));
      } else {
        results := Some(ImportResults(0, [outcome.message]));
      }
      step := Complete;
    }

    method ResetImport()
      modifies this
      ensures State() == ImportReset(old(State()))
    {
      step := Upload;
      parsed := None;
      mapping := ColumnMapping(None, None);
      results := None;
    }
  }
}
