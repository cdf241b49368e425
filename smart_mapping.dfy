/**
 * The mapping step of the flexible import, src/components/school-admin/SmartMapping.tsx:
 * a suggested database column for each file header, the lookup of a file column's
 * current mapping, and the database columns offered in the drop-down.
 */
module SmartMapping {
  import opened Wrappers
  import opened Strings
  import opened Lists
  import opened FlexibleBulkImport

  datatype MappingOption = MappingOption(id: string, displayName: string)

  /** The database columns the mapping step knows, in display order. */
  const ColumnOptions: seq<MappingOption> := [
    MappingOption("name", "Full Name"),
    MappingOption("class_name", "Class/Grade"),
    MappingOption("email", "Email"),
    MappingOption("phone", "Phone Number"),
    MappingOption("parent_name", "Parent Names"),
    MappingOption("student_id", "Student ID"),
    MappingOption("date_of_birth", "Date of Birth"),
    MappingOption("gender", "Gender")
  ]

  const OptionIds: seq<string> := ["name", "class_name", "email", "phone", "parent_name", "student_id", "date_of_birth", "gender"]

  // ---------------------------------------------------------------- suggestion

  /** `toLowerCase().replace(/[^a-z0-9]/g, '')`. */
  function Normalize(header: string): (r: string)
    ensures forall i :: 0 <= i < |r| ==> IsLowerAlnum(r[i])
  {
    var r := Filter(ToLower(header), IsLowerAlnum);
    assert forall i :: 0 <= i < |r| ==> r[i] in r;
    r
  }

  /** The ordered rules of `suggestMapping` on a normalised header; the first that fires wins. */
  function SuggestFor(name: string): string
  {
    if Contains(name, "name") && !Contains(name, "parent") then "name"
    else if Contains(name, "class") || Contains(name, "grade") || Contains(name, "form") then "class_name"
    else if Contains(name, "email") then "email"
    else if Contains(name, "phone") || Contains(name, "mobile") || Contains(name, "contact") then "phone"
    else if Contains(name, "parent") && Contains(name, "name") then "parent_name"
    else if Contains(name, "student") && Contains(name, "id") then "student_id"
    else if Contains(name, "birth") || Contains(name, "dob") || Contains(name, "date") then "date_of_birth"
    else if Contains(name, "gender") || Contains(name, "sex") then "gender"
    else ""
  }

  function Suggest(header: string): (r: string)
    ensures r == "" || r in OptionIds
  {
    SuggestFor(Normalize(header))
  }

  lemma ToLowerOfLower(s: string)
    requires forall i :: 0 <= i < |s| ==> !IsUpper(s[i])
    ensures ToLower(s) == s
  {
  }

  /** Normalising twice is normalising once, so a suggestion depends only on the normalised header. */
  lemma NormalizeIdempotent(header: string)
    ensures Normalize(Normalize(header)) == Normalize(header)
    ensures Suggest(Normalize(header)) == Suggest(header)
  {
    var n := Normalize(header);
    ToLowerOfLower(n);
    FilterAll(n, IsLowerAlnum);
  }

  /** A lower-case alphanumeric word in the raw header survives normalisation. */
  lemma NormalizeKeepsWord(header: string, word: string)
    requires Contains(header, word)
    requires forall i :: 0 <= i < |word| ==> IsLowerAlnum(word[i])
    ensures Contains(Normalize(header), word)
  {
    ContainsAt(header, word);
    var i :| 0 <= i <= |header| - |word| && word <= header[i..];
    var pre, post := header[..i], header[i + |word|..];
    assert header == pre + word + post;
    ToLowerAppend(pre + word, post);
    ToLowerAppend(pre, word);
    ToLowerOfLower(word);
    var lp, lq := ToLower(pre), ToLower(post);
    FilterAppend(lp + word, lq, IsLowerAlnum);
    FilterAppend(lp, word, IsLowerAlnum);
    FilterAll(word, IsLowerAlnum);
    ContainsEmptyAndSelf(word);
    ContainsExtend(Filter(lp, IsLowerAlnum), word, Filter(lq, IsLowerAlnum), word);
  }

  /**
   * The name rule comes first: any header spelling "name" whose normalised form has no
   * "parent" is suggested as the student's name, "class_name" included.
   */
  lemma NameRuleFirst(header: string)
    requires Contains(header, "name") && !Contains(Normalize(header), "parent")
    ensures Suggest(header) == "name"
  {
    LowerAlnumWords();
    NormalizeKeepsWord(header, "name");
  }

  /** A header mentioning both "parent" and "name" always gets a suggestion, and it is never the student's name. */
  lemma ParentNameRule(header: string)
    requires Contains(header, "parent") && Contains(header, "name")
    ensures Suggest(header) != "" && Suggest(header) != "name"
  {
    LowerAlnumWords();
    NormalizeKeepsWord(header, "parent");
    NormalizeKeepsWord(header, "name");
    ParentAndNameSuggested(Normalize(header));
  }

  /** The keywords the rules search for are already normalised. */
  lemma LowerAlnumWords()
    ensures forall i :: 0 <= i < |"parent"| ==> IsLowerAlnum("parent"[i])
    ensures forall i :: 0 <= i < |"name"| ==> IsLowerAlnum("name"[i])
  {
  }

  lemma ParentAndNameSuggested(name: string)
    requires Contains(name, "parent") && Contains(name, "name")
    ensures SuggestFor(name) != "" && SuggestFor(name) != "name"
  {
  }

  // ---------------------------------------------------------------- lookup

  /** `mappings.find(m => m.fileColumn === fileColumn)`. */
  function FindMapping(ms: seq<ColumnMapping>, fileColumn: string): (r: Option<ColumnMapping>)
    ensures r.None? <==> fileColumn !in FileColumns(ms)
    ensures r.Some? ==> r.value in ms && r.value.fileColumn == fileColumn
  {
    if ms == [] then None
    else if ms[0].fileColumn == fileColumn then Some(ms[0])
    else
      assert FileColumns(ms) == [ms[0].fileColumn] + FileColumns(ms[1..]);
      FindMapping(ms[1..], fileColumn)
  }

  /** `isColumnMapped`: a column without an entry is not mapped. */
  predicate IsColumnMapped(ms: seq<ColumnMapping>, fileColumn: string)
  {
    match FindMapping(ms, fileColumn)
    case Some(m) => m.isMapped
    case None => false
  }

  /** `getMappedDatabaseColumn`: '' for a column without an entry. */
  function MappedDatabaseColumn(ms: seq<ColumnMapping>, fileColumn: string): string
  {
    match FindMapping(ms, fileColumn)
    case Some(m) => m.databaseColumn
    case None => ""
  }

  /** After a mapping change, the column reads back the new database column, mapped exactly when it is not ''. */
  lemma LookupAfterChange(ms: seq<ColumnMapping>, fileColumn: string, databaseColumn: string)
    ensures MappedDatabaseColumn(MappingChanged(ms, fileColumn, databaseColumn), fileColumn) == databaseColumn
    ensures IsColumnMapped(MappingChanged(ms, fileColumn, databaseColumn), fileColumn) == (databaseColumn != "")
  {
    var r := MappingChanged(ms, fileColumn, databaseColumn);
    MappingChangedSpec(ms, fileColumn, databaseColumn);
    assert fileColumn in FileColumns(r);
    var m := FindMapping(r, fileColumn).value;
    var i :| 0 <= i < |r| && r[i] == m;
  }

  /** After removal, the column has no mapping and reads back ''. */
  lemma LookupAfterRemove(ms: seq<ColumnMapping>, fileColumn: string)
    ensures !IsColumnMapped(MappingRemoved(ms, fileColumn), fileColumn)
    ensures MappedDatabaseColumn(MappingRemoved(ms, fileColumn), fileColumn) == ""
  {
  }

  lemma {:induction false} FindAfterRetarget(ms: seq<ColumnMapping>, fileColumn: string, databaseColumn: string, other: string)
    requires other != fileColumn
    ensures FindMapping(Map(ms, Retargeter(fileColumn, databaseColumn)), other) == FindMapping(ms, other)
  {
    if ms != [] {
      var m := Map(ms, Retargeter(fileColumn, databaseColumn));
      assert m[1..] == Map(ms[1..], Retargeter(fileColumn, databaseColumn));
      FindAfterRetarget(ms[1..], fileColumn, databaseColumn, other);
    }
  }

  lemma {:induction false} FindAfterAppend(ms: seq<ColumnMapping>, x: ColumnMapping, other: string)
    requires x.fileColumn != other
    ensures FindMapping(ms + [x], other) == FindMapping(ms, other)
  {
    if ms == [] {
      assert [x][1..] == [];
    } else {
      assert (ms + [x])[1..] == ms[1..] + [x];
      FindAfterAppend(ms[1..], x, other);
    }
  }

  /** Changing or removing one column's mapping leaves what every other column reads back unchanged. */
  lemma OtherColumnsUnaffected(ms: seq<ColumnMapping>, fileColumn: string, databaseColumn: string, other: string)
    requires other != fileColumn
    ensures FindMapping(MappingChanged(ms, fileColumn, databaseColumn), other) == FindMapping(ms, other)
    ensures FindMapping(MappingRemoved(ms, fileColumn), other) == FindMapping(ms, other)
  {
    if fileColumn in FileColumns(ms) {
      FindAfterRetarget(ms, fileColumn, databaseColumn, other);
    } else {
      FindAfterAppend(ms, ColumnMapping(fileColumn, databaseColumn, databaseColumn != ""), other);
    }
    FindAfterRemove(ms, fileColumn, other);
  }

  lemma {:induction false} FindAfterRemove(ms: seq<ColumnMapping>, fileColumn: string, other: string)
    requires other != fileColumn
    ensures FindMapping(Filter(ms, NotFor(fileColumn)), other) == FindMapping(ms, other)
  {
    if ms != [] {
      var f, rest := Filter(ms, NotFor(fileColumn)), Filter(ms[1..], NotFor(fileColumn));
      FindAfterRemove(ms[1..], fileColumn, other);
      if ms[0].fileColumn == fileColumn {
        assert f == rest;
      } else {
        assert f == [ms[0]] + rest;
        assert f[1..] == rest;
      }
    }
  }

  // ---------------------------------------------------------------- options

  function SelectedIn(selectedColumns: seq<string>): MappingOption -> bool
  {
    (o: MappingOption) => o.id in selectedColumns
  }

  /** `getAvailableOptions`: the known database columns that were selected, in their display order. */
  function AvailableOptions(selectedColumns: seq<string>): (r: seq<MappingOption>)
    ensures forall o :: o in r <==> o in ColumnOptions && o.id in selectedColumns
  {
    Filter(ColumnOptions, SelectedIn(selectedColumns))
  }

  /** The auto-map button: shown for an unmapped column with a suggestion, it maps the column to that suggestion. */
  function AutoMapped(ms: seq<ColumnMapping>, fileColumn: string): seq<ColumnMapping>
  {
    if !IsColumnMapped(ms, fileColumn) && Suggest(fileColumn) != "" then MappingChanged(ms, fileColumn, Suggest(fileColumn))
    else ms
  }

  /** The auto-map button maps to its suggestion even when that database column was not selected, and so is not offered. */
  lemma AutoMapIgnoresSelection(ms: seq<ColumnMapping>, fileColumn: string, selectedColumns: seq<string>)
    requires !IsColumnMapped(ms, fileColumn) && Suggest(fileColumn) != ""
    ensures IsColumnMapped(AutoMapped(ms, fileColumn), fileColumn)
    ensures MappedDatabaseColumn(AutoMapped(ms, fileColumn), fileColumn) == Suggest(fileColumn)
    ensures Suggest(fileColumn) !in selectedColumns ==> forall o :: o in AvailableOptions(selectedColumns) ==> o.id != Suggest(fileColumn)
  {
    LookupAfterChange(ms, fileColumn, Suggest(fileColumn));
  }

  /** The summary line: how many entries are mapped, out of how many file columns. */
  function MappingSummary(ms: seq<ColumnMapping>, fileColumnCount: nat): (r: (nat, nat))
    ensures r.0 == |Filter(ms, (m: ColumnMapping) => m.isMapped)| && r.1 == fileColumnCount
    ensures r.0 == 0 <==> forall i :: 0 <= i < |ms| ==> !ms[i].isMapped
    ensures r.0 == |ms| <==> forall i :: 0 <= i < |ms| ==> ms[i].isMapped
  {
    FilterKeepsAll(ms, (m: ColumnMapping) => m.isMapped);
    FilterDropsAll(ms, (m: ColumnMapping) => m.isMapped);
    (|MappedOnly(ms)|, fileColumnCount)
  }
}
