/** Order-preserving selection over sequences, shared by the table filter and
    the comparison report. */
module Seqs {

  /** The positions of `s` whose element satisfies `keep`, in increasing order:
      the positions a Python loop that skips non-matching elements visits. */
  function Indices<T>(s: seq<T>, keep: T -> bool): (r: seq<nat>)
    ensures |r| <= |s|
    ensures forall j :: 0 <= j < |r| ==> r[j] < |s| && keep(s[r[j]])
    ensures forall j, k :: 0 <= j < k < |r| ==> r[j] < r[k]
    ensures forall i :: 0 <= i < |s| && keep(s[i]) ==> i in r
  {
    if s == [] then []
    else Indices(s[..|s| - 1], keep) + (if keep(s[|s| - 1]) then [|s| - 1] else [])
  }
}
