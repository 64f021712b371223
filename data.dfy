/** The loan registry: the in-memory list of loan entries, keyed by filename,
    the normaliser that turns an extraction result into the entry's display
    fields, the filtered table rows and the lookups by filename. */
module Data {
  import opened Wrappers
  import opened Json
  import opened Text
  import opened Seqs

  /** One registered loan: where it came from, its six display fields' sources
      and the extraction result it was summarised from. */
  datatype Entry = Entry(
    filename: string,
    filepath: string,
    borrower: JsonValue,
    lender: JsonValue,
    amount: string,
    interest: string,
    maturity: JsonValue,
    fullJson: JsonValue)

  /** The AttributeError `add_loan` raises when the dict it summarises is not a
      dict, so has no `get`. */
  datatype AddError = SourceNotADict

  /** One row of the portfolio table. */
  type Row = seq<JsonValue>

  const ViewPdf: string := "\U{1F4C4} View PDF"
  const ViewJson: string := "\U{1F50D} View JSON"

  // ---------------------------------------------------------------------------
  // The normaliser inside add_loan

  /** What `add_loan` summarises: the nested `core_loan_terms` value when the
      result is a dict that has that key, else the result itself. */
  function TermsSource(json: JsonValue): JsonValue {
    if json.Obj? && HasKey(json.fields, "core_loan_terms") then Get(json.fields, "core_loan_terms")
    else json
  }

  /** `keys[i]` is the first of `keys` whose value in `fields` is truthy. */
  predicate FirstTruthyKey(fields: seq<(string, JsonValue)>, keys: seq<string>, i: nat) {
    && i < |keys|
    && Truthy(Get(fields, keys[i]))
    && forall j :: 0 <= j < i ==> !Truthy(Get(fields, keys[j]))
  }

  /** The value `get_field(keys, default)` returns. */
  function FirstTruthy(fields: seq<(string, JsonValue)>, keys: seq<string>, default: JsonValue): (r: JsonValue)
    ensures forall i: nat :: FirstTruthyKey(fields, keys, i) ==> r == Get(fields, keys[i])
    ensures (forall i :: 0 <= i < |keys| ==> !Truthy(Get(fields, keys[i]))) ==> r == default
  {
    if keys == [] then default
    else if Truthy(Get(fields, keys[0])) then Get(fields, keys[0])
    else
      var r := FirstTruthy(fields, keys[1..], default);
      assert forall i: nat :: FirstTruthyKey(fields, keys, i) ==> i > 0 && FirstTruthyKey(fields, keys[1..], i - 1);
      r
  }

  /** `get_field`: try the keys in order and return the first truthy value. */
  method GetField(fields: seq<(string, JsonValue)>, keys: seq<string>, default: JsonValue) returns (r: JsonValue)
    ensures r == FirstTruthy(fields, keys, default)
  {
    for i := 0 to |keys|
      invariant FirstTruthy(fields, keys, default) == FirstTruthy(fields, keys[i..], default)
    {
      assert keys[i..][1..] == keys[i + 1..];
      if Truthy(Get(fields, keys[i])) {
        return Get(fields, keys[i]);
      }
    }
    return default;
  }

  /** The `amount` display field. */
  function AmountText(amount: JsonValue, currency: JsonValue): (r: string)
    ensures !Truthy(amount) ==> r == "N/A"
    ensures Truthy(amount) ==> IsStripOf(r, PyStr(amount) + " " + PyStr(currency))
  {
    if Truthy(amount) then Strip(PyStr(amount) + " " + PyStr(currency)) else "N/A"
  }

  /** The margin part of the `interest` display field. */
  function MarginText(margin: JsonValue): (r: string)
    ensures r != "" <==> margin.Obj? && Truthy(Get(margin.fields, "min"))
    ensures r != "" ==> PyStr(Get(margin.fields, "min")) <= r && r[|r| - 1] == '%'
    ensures r != "" && Truthy(Get(margin.fields, "max")) ==>
              r == PyStr(Get(margin.fields, "min")) + "-" + PyStr(Get(margin.fields, "max")) + "%"
    ensures r != "" && !Truthy(Get(margin.fields, "max")) ==> r == PyStr(Get(margin.fields, "min")) + "%"
  {
    if !margin.Obj? then ""
    else
      var low := Get(margin.fields, "min");
      var high := Get(margin.fields, "max");
      if Truthy(low) && Truthy(high) then PyStr(low) + "-" + PyStr(high) + "%"
      else if Truthy(low) then PyStr(low) + "%"
      else ""
  }

  /** The `interest` display field: never empty and without surrounding
      whitespace; `"N/A"` when type, benchmark and margin are all blank. */
  function InterestText(kind: JsonValue, benchmark: JsonValue, margin: string): (r: string)
    ensures r != "" && !IsSpace(r[0]) && !IsSpace(r[|r| - 1])
    ensures var joined := PyStr(kind) + " " + PyStr(benchmark) + " " + margin;
      (AllSpace(joined) ==> r == "N/A") && (!AllSpace(joined) ==> IsStripOf(r, joined))
  {
    var stripped := Strip(PyStr(kind) + " " + PyStr(benchmark) + " " + margin);
    if stripped == "" then
      assert !IsSpace('N') && !IsSpace('A');
      "N/A"
    else stripped
  }

  /** The entry `add_loan` builds from the summarised dict `terms`. */
  function SummaryEntry(filename: string, filepath: string, terms: seq<(string, JsonValue)>, json: JsonValue): Entry {
    Entry(
      filename := filename,
      filepath := filepath,
      borrower := FirstTruthy(terms, ["borrower"], Str("Unknown")),
      lender := FirstTruthy(terms, ["lenders", "administrative_agent"], Str("Unknown")),
      amount := AmountText(FirstTruthy(terms, ["loan_amount"], Str("")), FirstTruthy(terms, ["currency"], Str(""))),
      interest := InterestText(FirstTruthy(terms, ["interest_type"], Str("")),
                               FirstTruthy(terms, ["benchmark_rate"], Str("")),
                               MarginText(GetOrDefault(terms, "margin", Obj([])))),
      maturity := FirstTruthy(terms, ["maturity_or_termination_date"], Str("N/A")),
      fullJson := json)
  }

  /** What `add_loan` registers for an extraction result, or the error it raises. */
  function Summarize(filename: string, filepath: string, json: JsonValue): (r: Result<Entry, AddError>)
    ensures r.Ok? <==> TermsSource(json).Obj?
    ensures r.Ok? ==> r.value.filename == filename && r.value.filepath == filepath && r.value.fullJson == json
  {
    var data := TermsSource(json);
    if data.Obj? then Ok(SummaryEntry(filename, filepath, data.fields, json)) else Err(SourceNotADict)
  }

  /** The normaliser of `add_loan`: read the summary fields with `get_field`
      and build the entry, or fail as `data.get` does on a non-dict. */
  method BuildEntry(filename: string, filepath: string, json: JsonValue) returns (r: Result<Entry, AddError>)
    ensures r == Summarize(filename, filepath, json)
  {
    var data := json;
    if json.Obj? && HasKey(json.fields, "core_loan_terms") {
      data := Get(json.fields, "core_loan_terms");
    }
    if !data.Obj? {
      return Err(SourceNotADict);
    }
    var terms := data.fields;
    var borrower := GetField(terms, ["borrower"], Str("Unknown"));
    var lender := GetField(terms, ["lenders", "administrative_agent"], Str("Unknown"));
    var amountValue := GetField(terms, ["loan_amount"], Str(""));
    var currency := GetField(terms, ["currency"], Str(""));
    var amount := AmountText(amountValue, currency);
    var kind := GetField(terms, ["interest_type"], Str(""));
    var benchmark := GetField(terms, ["benchmark_rate"], Str(""));
    var margin := GetOrDefault(terms, "margin", Obj([]));
    var interest := InterestText(kind, benchmark, MarginText(margin));
    var maturity := GetField(terms, ["maturity_or_termination_date"], Str("N/A"));
    r := Ok(Entry(filename, filepath, borrower, lender, amount, interest, maturity, json));

  }

  /** When the result nests its terms under `core_loan_terms`, nothing else at
      its top level affects the summary: two results with the same nested
      terms summarise to the same fields and differ only in `fullJson`. */
  lemma OnlyCoreTermsMatter(filename: string, filepath: string, a: JsonValue, b: JsonValue)
    requires a.Obj? && b.Obj? && HasKey(a.fields, "core_loan_terms")
    requires Find(a.fields, "core_loan_terms") == Find(b.fields, "core_loan_terms")
    ensures Summarize(filename, filepath, a).Ok? == Summarize(filename, filepath, b).Ok?
    ensures Summarize(filename, filepath, a).Ok? ==>
              Summarize(filename, filepath, a).value == Summarize(filename, filepath, b).value.(fullJson := a)
  {
  }

  /** The lender is the first truthy of `lenders` and `administrative_agent`,
      else `"Unknown"`. */
  lemma LenderPreference(filename: string, filepath: string, json: JsonValue)
    requires TermsSource(json).Obj?
    ensures var terms := TermsSource(json).fields;
      var lender := Summarize(filename, filepath, json).value.lender;
      && (Truthy(Get(terms, "lenders")) ==> lender == Get(terms, "lenders"))
      && (!Truthy(Get(terms, "lenders")) && Truthy(Get(terms, "administrative_agent")) ==>
            lender == Get(terms, "administrative_agent"))
      && (!Truthy(Get(terms, "lenders")) && !Truthy(Get(terms, "administrative_agent")) ==>
            lender == Str("Unknown"))
  {
    var keys := ["lenders", "administrative_agent"];
    var terms := TermsSource(json).fields;
    if Truthy(Get(terms, "lenders")) {
      assert FirstTruthyKey(terms, keys, 0);
    } else if Truthy(Get(terms, "administrative_agent")) {
      assert FirstTruthyKey(terms, keys, 1);
    }
  }

  /** Every JSON value the entry holds is well formed. */
  ghost predicate WellFormedEntry(e: Entry) {
    WellFormed(e.borrower) && WellFormed(e.lender) && WellFormed(e.maturity) && WellFormed(e.fullJson)
  }

  lemma GetWellFormed(fields: seq<(string, JsonValue)>, key: string)
    requires forall i :: 0 <= i < |fields| ==> WellFormed(fields[i].1)
    ensures WellFormed(Get(fields, key))
  {
    if HasKey(fields, key) {
      var i :| 0 <= i < |fields| && fields[i] == (key, Find(fields, key).value);
    }
  }

  lemma {:induction false} FirstTruthyWellFormed(fields: seq<(string, JsonValue)>, keys: seq<string>, default: JsonValue)
    requires forall i :: 0 <= i < |fields| ==> WellFormed(fields[i].1)
    requires WellFormed(default)
    ensures WellFormed(FirstTruthy(fields, keys, default))
  {
    if keys != [] {
      GetWellFormed(fields, keys[0]);
      FirstTruthyWellFormed(fields, keys[1..], default);
    }
  }

  /** An entry summarised from well-formed JSON holds only well-formed JSON. */
  lemma SummarizeWellFormed(filename: string, filepath: string, json: JsonValue)
    requires WellFormed(json)
    requires TermsSource(json).Obj?
    ensures WellFormedEntry(Summarize(filename, filepath, json).value)
  {
    if json.Obj? && HasKey(json.fields, "core_loan_terms") {
      GetWellFormed(json.fields, "core_loan_terms");
    }
    var terms := TermsSource(json).fields;
    FirstTruthyWellFormed(terms, ["borrower"], Str("Unknown"));
    FirstTruthyWellFormed(terms, ["lenders", "administrative_agent"], Str("Unknown"));
    FirstTruthyWellFormed(terms, ["maturity_or_termination_date"], Str("N/A"));
  }

  /** A result that nests its terms under `core_loan_terms` summarises exactly
      as those terms would on their own; only `fullJson` keeps the outer result. */
  lemma NestedTermsSummariseAsFlat(filename: string, filepath: string, json: JsonValue)
    requires json.Obj? && HasKey(json.fields, "core_loan_terms")
    requires var terms := Get(json.fields, "core_loan_terms");
      terms.Obj? && !HasKey(terms.fields, "core_loan_terms")
    ensures var flat := Summarize(filename, filepath, Get(json.fields, "core_loan_terms"));
      flat.Ok? && Summarize(filename, filepath, json) == Ok(flat.value.(fullJson := json))
  {
  }

  // ---------------------------------------------------------------------------
  // Lookup and upsert by filename

  /** `k` is the index of the first entry registered under `filename`. */
  predicate FirstNamed(db: seq<Entry>, filename: string, k: nat) {
    && k < |db|
    && db[k].filename == filename
    && forall j :: 0 <= j < k ==> db[j].filename != filename
  }

  /** The index `next(i for i, x in enumerate(db) if x["filename"] == filename)` finds. */
  function FirstIndex(db: seq<Entry>, filename: string): (r: Option<nat>)
    ensures r.None? <==> forall i :: 0 <= i < |db| ==> db[i].filename != filename
    ensures r.Some? ==> FirstNamed(db, filename, r.value)
  {
    if db == [] then None
    else if db[0].filename == filename then Some(0)
    else
      match FirstIndex(db[1..], filename)
      case None => None
      case Some(k) => Some(k + 1)
  }

  ghost predicate UniqueFilenames(db: seq<Entry>) {
    forall i, j :: 0 <= i < j < |db| ==> db[i].filename != db[j].filename
  }

  /** The registry after `add_loan` registers `e`. */
  function Upsert(db: seq<Entry>, e: Entry): (r: seq<Entry>)
    ensures forall k: nat :: FirstNamed(db, e.filename, k) ==> r == db[k := e]
    ensures (forall i :: 0 <= i < |db| ==> db[i].filename != e.filename) ==> r == db + [e]
  {
    match FirstIndex(db, e.filename)
    case Some(k) => db[k := e]
    case None => db + [e]
  }

  /** Upserting keeps filenames unique. */
  lemma UpsertKeepsFilenamesUnique(db: seq<Entry>, e: Entry)
    requires UniqueFilenames(db)
    ensures UniqueFilenames(Upsert(db, e))
  {
    var r := Upsert(db, e);
    match FirstIndex(db, e.filename)
    case Some(k) =>
      forall i, j | 0 <= i < j < |r| ensures r[i].filename != r[j].filename {
        if i != k && j != k { assert r[i] == db[i] && r[j] == db[j]; }
      }
    case None =>
  }

  /** After upserting `e`, looking up its filename finds `e`. */
  lemma UpsertThenFind(db: seq<Entry>, e: Entry)
    ensures var r := Upsert(db, e);
      FirstIndex(r, e.filename).Some? && r[FirstIndex(r, e.filename).value] == e
  {
    var r := Upsert(db, e);
    match FirstIndex(db, e.filename) {
      case Some(k) =>
        assert FirstNamed(r, e.filename, k);
      case None =>
        assert FirstNamed(r, e.filename, |db|);
    }
  }

  /** Upserting `e` leaves the lookup of every other filename as it was. */
  lemma UpsertKeepsOtherLookups(db: seq<Entry>, e: Entry, other: string)
    requires other != e.filename
    ensures var r := Upsert(db, e);
      && FirstIndex(r, other) == FirstIndex(db, other)
      && (FirstIndex(db, other).Some? ==> r[FirstIndex(db, other).value] == db[FirstIndex(db, other).value])
  {
    var r := Upsert(db, e);
    assert forall i :: 0 <= i < |db| ==> (r[i].filename == other <==> db[i].filename == other);
    if FirstIndex(db, other).Some? {
      assert FirstNamed(r, other, FirstIndex(db, other).value);
    }
  }

  // ---------------------------------------------------------------------------
  // The portfolio table

  /** The six fields the table shows and the search looks at. */
  function VisibleFields(e: Entry): seq<JsonValue> {
    [Str(e.filename), e.borrower, e.lender, Str(e.amount), Str(e.interest), e.maturity]
  }

  /** One table row: the visible fields and the two action labels. */
  function RowOf(e: Entry): Row {
    VisibleFields(e) + [Str(ViewPdf), Str(ViewJson)]
  }

  /** The lower-cased query `q` occurs in the lower-cased text of a visible field. */
  predicate Matches(e: Entry, q: string) {
    exists j :: 0 <= j < |VisibleFields(e)| && Contains(Lower(PyStr(VisibleFields(e)[j])), q)
  }

  /** Whether `get_dataframe_data(query)` lists the entry: every entry for an
      empty or absent query, else the entries the query matches. */
  predicate Keep(e: Entry, query: Option<string>) {
    query.None? || query.value == "" || Matches(e, Lower(query.value))
  }

  function KeepFor(query: Option<string>): Entry -> bool {
    e => Keep(e, query)
  }

  /** The rows `get_dataframe_data(query)` returns for the registry `db`. */
  function DataframeRows(db: seq<Entry>, query: Option<string>): (r: seq<Row>)
    ensures |r| <= |db|
    ensures forall j :: 0 <= j < |r| ==> |r[j]| == 8 && r[j][6] == Str(ViewPdf) && r[j][7] == Str(ViewJson)
  {
    if db == [] then []
    else
      var last := db[|db| - 1];
      DataframeRows(db[..|db| - 1], query) + (if Keep(last, query) then [RowOf(last)] else [])
  }

  /** The table lists exactly the kept entries, one row each, in registry order. */
  lemma {:induction false} DataframeRowsSelect(db: seq<Entry>, query: Option<string>)
    ensures var sel := Indices(db, KeepFor(query));
      && |DataframeRows(db, query)| == |sel|
      && forall j :: 0 <= j < |sel| ==> DataframeRows(db, query)[j] == RowOf(db[sel[j]])
  {
    if db != [] {
      var init := db[..|db| - 1];
      DataframeRowsSelect(init, query);
      assert forall i :: 0 <= i < |init| ==> init[i] == db[i];
    }
  }

  /** Without a query the table lists every entry, in registry order. */
  lemma {:induction false} DataframeRowsAll(db: seq<Entry>, query: Option<string>)
    requires query.None? || query.value == ""
    ensures |DataframeRows(db, query)| == |db|
    ensures forall i :: 0 <= i < |db| ==> DataframeRows(db, query)[i] == RowOf(db[i])
  {
    if db != [] {
      DataframeRowsAll(db[..|db| - 1], query);
    }
  }

  /** What every state of the registry satisfies: filenames are unique,
      because `add_loan` is the only writer and upserts by filename, and every
      stored JSON value is a genuine Python value (unique dict keys). */
  ghost predicate Consistent(db: seq<Entry>) {
    && UniqueFilenames(db)
    && forall i :: 0 <= i < |db| ==> WellFormedEntry(db[i])
  }

  /** Upserting a well-formed entry keeps the registry consistent. */
  lemma UpsertKeepsConsistent(db: seq<Entry>, e: Entry)
    requires Consistent(db) && WellFormedEntry(e)
    ensures Consistent(Upsert(db, e))
  {
    UpsertKeepsFilenamesUnique(db, e);
    var r := Upsert(db, e);
    forall i | 0 <= i < |r| ensures WellFormedEntry(r[i]) {
      if r[i] != e {
        assert i < |db| && r[i] == db[i];
      }
    }
  }

  // ---------------------------------------------------------------------------
  // The registry itself

  /** The module-level `LOAN_DATABASE` list and the functions that use it. */
  class Registry {
    var entries: seq<Entry>

    /** The registry invariant: see `Consistent`. */
    ghost predicate Valid()
      reads this
    {
      Consistent(entries)
    }

    constructor ()
      ensures Valid()
      ensures entries == []
    {
      entries := [];
    }

    /** `get_entry_by_filename`: the first entry registered under `filename`. */
    function GetEntryByFilename(filename: string): (r: Option<Entry>)
      reads this
      ensures r.None? <==> forall i :: 0 <= i < |entries| ==> entries[i].filename != filename
      ensures r.Some? ==> exists k: nat :: FirstNamed(entries, filename, k) && r.value == entries[k]
      ensures r.Some? && Valid() ==> WellFormedEntry(r.value)
    {
      match FirstIndex(entries, filename)
      case Some(k) => Some(entries[k])
      case None => None
    }

    /** `get_file_options`: every entry's filename, in registry order. */
    function GetFileOptions(): (r: seq<string>)
      reads this
      ensures |r| == |entries| && forall i :: 0 <= i < |r| ==> r[i] == entries[i].filename
      ensures forall f :: f in r <==> GetEntryByFilename(f).Some?
    {
      seq(|entries|, i requires 0 <= i < |entries| reads this => entries[i].filename)
    }

    /** `add_loan`: summarise the extraction result and upsert the entry by filename. */
    method AddLoan(filename: string, filepath: string, json: JsonValue) returns (r: Result<Entry, AddError>)
      requires Valid() && WellFormed(json)
      modifies this
      ensures Valid()
      ensures r == Summarize(filename, filepath, json)
      ensures r.Ok? ==> entries == Upsert(old(entries), r.value)
      ensures r.Err? ==> entries == old(entries)
      ensures r.Ok? ==> GetEntryByFilename(filename) == Some(r.value)
      ensures forall f :: f != filename ==> GetEntryByFilename(f) == old(GetEntryByFilename(f))
    {
      r := BuildEntry(filename, filepath, json);
      if r.Err? {
        return;
      }
      var entry := r.value;

      var db := entries;
      var existing := FirstIndex(db, filename);
      if existing.Some? {
        entries := db[existing.value := entry];
      } else {
        entries := db + [entry];
      }
      assert entries == Upsert(db, entry);
      UpsertThenFind(db, entry);
      forall f | f != filename ensures GetEntryByFilename(f) == old(GetEntryByFilename(f)) {
        UpsertKeepsOtherLookups(db, entry, f);
      }
      SummarizeWellFormed(filename, filepath, json);
      UpsertKeepsConsistent(db, entry);
    }

    /** `get_dataframe_data`: one row per listed entry, in registry order. */
    method GetDataframeData(query: Option<string>) returns (rows: seq<Row>)
      ensures rows == DataframeRows(entries, query)
    {
      rows := [];
      for i := 0 to |entries|
        invariant rows == DataframeRows(entries[..i], query)
      {
        assert entries[..i + 1][..i] == entries[..i];
        var entry := entries[i];
        if query.Some? && query.value != "" {
          var q := Lower(query.value);
          if !Matches(entry, q) {
            continue;
          }
        }
        rows := rows + [RowOf(entry)];
      }
      assert entries[..|entries|] == entries;
    }
  }
}
