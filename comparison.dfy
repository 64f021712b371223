/** The side-by-side comparison of two registered loans on their key fields. */
module Comparison {
  import opened Wrappers
  import opened Json
  import opened Text
  import opened Seqs
  import opened Data

  const PleaseSelect: string := "Please select two files to compare."
  const LoadFailed: string := "Error loading file data."
  const Identical: string := "#### Key fields are identical."
  const DifferencesHeader: string := "#### Key Differences:\n"
  const Arrow: string := "\U{27A1}\U{FE0F}"

  /** The fields compared, in report order. */
  const CompareKeys: seq<string> := ["amount", "interest", "maturity", "lender"]

  /** A dropdown selection is usable when it is neither `None` nor empty. */
  predicate IsSelected(file: Option<string>) {
    file.Some? && file.value != ""
  }

  /** `entry.get(key, "N/A")`. */
  function FieldValue(e: Entry, key: string): JsonValue {
    if key == "filename" then Str(e.filename)
    else if key == "filepath" then Str(e.filepath)
    else if key == "borrower" then e.borrower
    else if key == "lender" then e.lender
    else if key == "amount" then Str(e.amount)
    else if key == "interest" then Str(e.interest)
    else if key == "maturity" then e.maturity
    else if key == "full_json" then e.fullJson
    else Str("N/A")
  }

  /** The two entries disagree on `key` under Python's `!=`. */
  predicate Differs(a: Entry, b: Entry, key: string) {
    !PyEq(FieldValue(a, key), FieldValue(b, key))
  }

  function DiffersFor(a: Entry, b: Entry): string -> bool {
    k => Differs(a, b, k)
  }

  /** The report line for a key whose values differ. */
  function ChangeLine(key: string, valueA: JsonValue, valueB: JsonValue): string {
    "- **" + Title(key) + "**: '" + PyStr(valueA) + "'  " + Arrow + "  '" + PyStr(valueB) + "'"
  }

  /** The `changes` list after the loop has visited `keys`. */
  function Changes(keys: seq<string>, a: Entry, b: Entry): seq<string> {
    if keys == [] then []
    else
      var k := keys[|keys| - 1];
      Changes(keys[..|keys| - 1], a, b)
        + (if Differs(a, b, k) then [ChangeLine(k, FieldValue(a, k), FieldValue(b, k))] else [])
  }

  /** There is one change line per differing key, in key order, and no other. */
  lemma {:induction false} ChangesSelect(keys: seq<string>, a: Entry, b: Entry)
    ensures var sel := Indices(keys, DiffersFor(a, b));
      && |Changes(keys, a, b)| == |sel|
      && forall j :: 0 <= j < |sel| ==>
           Changes(keys, a, b)[j] == ChangeLine(keys[sel[j]], FieldValue(a, keys[sel[j]]), FieldValue(b, keys[sel[j]]))
  {
    if keys != [] {
      var init := keys[..|keys| - 1];
      ChangesSelect(init, a, b);
      assert forall i :: 0 <= i < |init| ==> init[i] == keys[i];
    }
  }

  /** A report lists at most one line per compared key. */
  lemma AtMostFourChanges(a: Entry, b: Entry)
    ensures |Changes(CompareKeys, a, b)| <= |CompareKeys| == 4
  {
    ChangesSelect(CompareKeys, a, b);
  }

  /** An entry compared with itself shows no change line. */
  lemma {:induction false} SelfComparisonHasNoChanges(keys: seq<string>, e: Entry)
    requires WellFormedEntry(e)
    ensures Changes(keys, e, e) == []
  {
    if keys != [] {
      SelfComparisonHasNoChanges(keys[..|keys| - 1], e);
      var k := keys[|keys| - 1];
      PyEqReflexive(FieldValue(e, k));
    }
  }

  /** The first lines of the report: both filenames and their borrowers. */
  function Header(fileA: string, fileB: string, a: Entry, b: Entry): string {
    "### Comparison Report\n"
      + "**File A**: " + fileA + " (Borrower: " + PyStr(a.borrower) + ")\n"
      + "**File B**: " + fileB + " (Borrower: " + PyStr(b.borrower) + ")\n\n"
  }

  /** The end of the report: the change lines, or a note that there are none. */
  function Tail(changes: seq<string>): (r: string)
    ensures changes == [] <==> r == Identical
  {
    if changes == [] then Identical
    else
      var r := DifferencesHeader + Join("\n", changes);
      assert r[9] == DifferencesHeader[9] == 'D' && Identical[9] == 'f';
      r
  }

  /** The loop of `compare_loans` that collects one line per key whose values differ. */
  method CollectChanges(a: Entry, b: Entry) returns (changes: seq<string>)
    ensures changes == Changes(CompareKeys, a, b)
  {
    changes := [];
    for i := 0 to |CompareKeys|
      invariant changes == Changes(CompareKeys[..i], a, b)
    {
      assert CompareKeys[..i + 1][..i] == CompareKeys[..i];
      var key := CompareKeys[i];
      var valueA := FieldValue(a, key);
      var valueB := FieldValue(b, key);
      if !PyEq(valueA, valueB) {
        changes := changes + [ChangeLine(key, valueA, valueB)];
      }
      assert Changes(CompareKeys[..i + 1], a, b)
          == Changes(CompareKeys[..i], a, b) + (if Differs(a, b, key) then [ChangeLine(key, valueA, valueB)] else []);
    }
    assert CompareKeys[..|CompareKeys|] == CompareKeys;
  }

  /** A report without change lines ends with the note that the files match. */
  lemma EndsWithIdentical(header: string)
    ensures var report := header + Tail([]);
      |report| >= |Identical| && report[|report| - |Identical|..] == Identical
  {
    assert (header + Identical)[|header|..] == Identical;
  }

  /** `compare_loans`: the report and the two extraction results, or a message and no results. */
  method CompareLoans(registry: Registry, fileA: Option<string>, fileB: Option<string>)
    returns (report: string, jsonA: Option<JsonValue>, jsonB: Option<JsonValue>)
    requires registry.Valid()
    ensures !IsSelected(fileA) || !IsSelected(fileB) ==> report == PleaseSelect && jsonA == None && jsonB == None
    ensures (&& IsSelected(fileA) && IsSelected(fileB)
             && (registry.GetEntryByFilename(fileA.value).None? || registry.GetEntryByFilename(fileB.value).None?))
            ==> report == LoadFailed && jsonA == None && jsonB == None
    ensures (&& IsSelected(fileA) && IsSelected(fileB)
             && registry.GetEntryByFilename(fileA.value).Some? && registry.GetEntryByFilename(fileB.value).Some?)
            ==> var a := registry.GetEntryByFilename(fileA.value).value;
                  var b := registry.GetEntryByFilename(fileB.value).value;
                  && report == Header(fileA.value, fileB.value, a, b) + Tail(Changes(CompareKeys, a, b))
                  && jsonA == Some(a.fullJson) && jsonB == Some(b.fullJson)
    ensures IsSelected(fileA) && fileB == fileA && registry.GetEntryByFilename(fileA.value).Some? ==> |report| >= |Identical| && report[|report| - |Identical|..] == Identical
  {
    if !IsSelected(fileA) || !IsSelected(fileB) {
      return PleaseSelect, None, None;
    }
    var entryA := registry.GetEntryByFilename(fileA.value);
    var entryB := registry.GetEntryByFilename(fileB.value);
    if entryA.None? || entryB.None? {
      return LoadFailed, None, None;
    }
    var a, b := entryA.value, entryB.value;

    report := "### Comparison Report\n";
    report := report + "**File A**: " + fileA.value + " (Borrower: " + PyStr(a.borrower) + ")\n";
    report := report + "**File B**: " + fileB.value + " (Borrower: " + PyStr(b.borrower) + ")\n\n";
    assert report == Header(fileA.value, fileB.value, a, b);

    var changes := CollectChanges(a, b);

    if changes != [] {
      report := report + DifferencesHeader + Join("\n", changes);
    } else {
      report := report + Identical;
    }
    assert report == Header(fileA.value, fileB.value, a, b) + Tail(changes);
    if fileB == fileA {
      SelfComparisonHasNoChanges(CompareKeys, a);
      EndsWithIdentical(Header(fileA.value, fileB.value, a, b));
    }
    return report, Some(a.fullJson), Some(b.fullJson);
  }
}
