/** The portfolio table as the UI shows it: every cell but the filename cut
    to a fixed width. */
module Tables {
  import opened Wrappers
  import opened Json
  import opened Data

  /** The width `truncate_text` cuts to unless told otherwise. */
  const DefaultLimit: int := 30

  /** Python's slice `s[:limit]`: a negative limit counts from the end. */
  function PrefixTo(s: string, limit: int): string {
    if limit >= |s| then s
    else if limit >= 0 then s[..limit]
    else if |s| + limit >= 0 then s[..|s| + limit]
    else ""
  }

  /** `truncate_text` applied to the text `s` (the cell's `str()`). */
  function TruncateText(s: string, limit: int := DefaultLimit): (r: string)
    ensures |s| <= limit ==> r == s
    ensures |s| > limit ==> |r| >= 3 && r[|r| - 3..] == "..."
    ensures limit >= 0 ==> |r| <= limit + 3
    ensures 0 <= limit < |s| ==> |r| == limit + 3
    ensures limit >= 0 ==> var n := if |s| < limit then |s| else limit; n <= |r| && r[..n] == s[..n]
  {
    if |s| > limit then PrefixTo(s, limit) + "..." else s
  }

  /** Truncating twice with the same non-negative limit truncates once. */
  lemma TruncateIdempotent(s: string, limit: int)
    requires limit >= 0
    ensures TruncateText(TruncateText(s, limit), limit) == TruncateText(s, limit)
  {
    if |s| > limit {
      assert TruncateText(s, limit)[..limit] == s[..limit];
    }
  }

  /** `out` is the `new_row` `get_truncated_data` builds from `row`: the same
      width, column 0 kept as it is, every other cell truncated. */
  predicate TruncatedRow(out: Row, row: Row) {
    && |out| == |row|
    && (|row| > 0 ==> out[0] == row[0])
    && forall j :: 1 <= j < |row| ==> out[j] == Str(TruncateText(PyStr(row[j])))
  }

  /** `get_truncated_data`: the rows of `get_dataframe_data(query)`, truncated. */
  method GetTruncatedData(registry: Registry, query: Option<string>) returns (rows: seq<Row>)
    ensures var raw := DataframeRows(registry.entries, query);
      && |rows| == |raw|
      && forall i :: 0 <= i < |rows| ==> TruncatedRow(rows[i], raw[i])
  {
    var raw := registry.GetDataframeData(query);
    rows := [];
    for r := 0 to |raw|
      invariant |rows| == r
      invariant forall i :: 0 <= i < r ==> TruncatedRow(rows[i], raw[i])
    {
      var row := raw[r];
      var newRow: Row := [];
      for i := 0 to |row|
        invariant |newRow| == i
        invariant i > 0 ==> newRow[0] == row[0]
        invariant forall j :: 1 <= j < i ==> newRow[j] == Str(TruncateText(PyStr(row[j])))
      {
        if i == 0 {
          newRow := newRow + [row[i]];
        } else {
          newRow := newRow + [Str(TruncateText(PyStr(row[i])))];
        }
      }
      rows := rows + [newRow];
    }
  }
}
