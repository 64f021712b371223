/** The Python string operations the registry relies on: `str.strip()`,
    `str.lower()` (ASCII letters only), `str.title()` (ASCII letters only),
    the substring test `q in s` and `sep.join(parts)`. */
module Text {

  /** `c` lies in one of the inclusive ranges. */
  predicate InRanges(c: char, ranges: seq<(char, char)>) {
    ranges != [] && ((ranges[0].0 <= c <= ranges[0].1) || InRanges(c, ranges[1..]))
  }

  /** Python's `str.isspace()`: the characters `str.strip()` removes. Below
      U+0085 these are the space, the controls `\t` to `\r` and U+001C to
      U+001F; above it, the inclusive code-point ranges listed. */
  predicate IsSpace(c: char) {
    if c < '\U{85}' then c == ' ' || '\t' <= c <= '\r' || '\U{1C}' <= c <= '\U{1F}'
    else InRanges(c, [
      ('\U{85}', '\U{85}'), ('\U{A0}', '\U{A0}'), ('\U{1680}', '\U{1680}'), ('\U{2000}', '\U{200A}'),
      ('\U{2028}', '\U{2029}'), ('\U{202F}', '\U{202F}'), ('\U{205F}', '\U{205F}'), ('\U{3000}', '\U{3000}')
    ])
  }

  predicate AllSpace(s: string) {
    forall i :: 0 <= i < |s| ==> IsSpace(s[i])
  }

  /** `r` is `s` with a whitespace prefix of length `i` and a whitespace suffix cut off. */
  predicate TrimmedAt(r: string, s: string, i: nat) {
    && i + |r| <= |s|
    && s[i..i + |r|] == r
    && AllSpace(s[..i])
    && AllSpace(s[i + |r|..])
  }

  /** `r` is what `s.strip()` returns: `s` without its surrounding whitespace. */
  predicate IsStripOf(r: string, s: string) {
    && (r == [] || (!IsSpace(r[0]) && !IsSpace(r[|r| - 1])))
    && exists i :: 0 <= i <= |s| && TrimmedAt(r, s, i)
  }

  lemma AllSpaceConcat(a: string, b: string)
    requires AllSpace(a) && AllSpace(b)
    ensures AllSpace(a + b)
  {
    forall k | 0 <= k < |a + b| ensures IsSpace((a + b)[k]) {
      if k < |a| { assert (a + b)[k] == a[k]; } else { assert (a + b)[k] == b[k - |a|]; }
    }
  }

  /** The length of the whitespace prefix of `s`. */
  function LeadingSpaces(s: string): (n: nat)
    ensures n <= |s|
    ensures AllSpace(s[..n])
    ensures n < |s| ==> !IsSpace(s[n])
  {
    if s != [] && IsSpace(s[0]) then
      var n := 1 + LeadingSpaces(s[1..]);
      assert s[..n] == [s[0]] + s[1..][..n - 1];
      n
    else 0
  }

  /** The length of the whitespace suffix of `s`. */
  function TrailingSpaces(s: string): (n: nat)
    ensures n <= |s|
    ensures AllSpace(s[|s| - n..])
    ensures n < |s| ==> !IsSpace(s[|s| - 1 - n])
  {
    if s != [] && IsSpace(s[|s| - 1]) then
      var n := 1 + TrailingSpaces(s[..|s| - 1]);
      assert s[|s| - n..] == s[..|s| - 1][|s| - n..] + [s[|s| - 1]];
      n
    else 0
  }

  /** Cutting the whitespace prefix and then the whitespace suffix leaves the
      stripped text in place, between whitespace only. */
  lemma StripInPlace(s: string, i: nat, t: string, r: string)
    requires i == LeadingSpaces(s) && t == s[i..] && r == t[..|t| - TrailingSpaces(t)]
    ensures TrimmedAt(r, s, i)
  {
    assert s[i..i + |r|] == r;
    assert s[i + |r|..] == t[|t| - TrailingSpaces(t)..];
  }

  /** The stripped text starts and ends with a non-space. */
  lemma StripEnds(s: string, i: nat, t: string, r: string)
    requires i == LeadingSpaces(s) && t == s[i..] && r == t[..|t| - TrailingSpaces(t)]
    ensures r == [] || (!IsSpace(r[0]) && !IsSpace(r[|r| - 1]))
  {
    if r != [] {
      assert r[0] == s[i];
      assert r[|r| - 1] == t[|t| - 1 - TrailingSpaces(t)];
    }
  }

  /** The stripped text is empty exactly when the whole text is whitespace. */
  lemma StripEmpty(s: string, i: nat, t: string, r: string)
    requires i == LeadingSpaces(s) && t == s[i..] && r == t[..|t| - TrailingSpaces(t)]
    ensures r == [] <==> AllSpace(s)
  {
    if r == [] {
      assert t[|t| - TrailingSpaces(t)..] == t;
      assert s == s[..i] + t;
      AllSpaceConcat(s[..i], t);
    }
  }

  /** Python's `s.strip()`. */
  function Strip(s: string): (r: string)
    ensures IsStripOf(r, s)
    ensures r == [] <==> AllSpace(s)
  {
    var i := LeadingSpaces(s);
    var t := s[i..];
    var r := t[..|t| - TrailingSpaces(t)];
    StripInPlace(s, i, t, r);
    StripEnds(s, i, t, r);
    StripEmpty(s, i, t, r);
    r
  }

  function LowerChar(c: char): char {
    if 'A' <= c <= 'Z' then (c as int + 32) as char else c
  }

  function UpperChar(c: char): char {
    if 'a' <= c <= 'z' then (c as int - 32) as char else c
  }

  predicate IsLetter(c: char) {
    'A' <= c <= 'Z' || 'a' <= c <= 'z'
  }

  /** Python's `s.lower()`, on ASCII letters. */
  function Lower(s: string): (r: string)
    ensures |r| == |s|
    ensures forall i :: 0 <= i < |r| ==> !('A' <= r[i] <= 'Z')
    ensures forall i :: 0 <= i < |s| && !('A' <= s[i] <= 'Z') ==> r[i] == s[i]
    ensures forall i :: 0 <= i < |s| && 'A' <= s[i] <= 'Z' ==> 'a' <= r[i] <= 'z' && UpperChar(r[i]) == s[i]
  {
    seq(|s|, i requires 0 <= i < |s| => LowerChar(s[i]))
  }

  /** Lower-casing twice lower-cases once. */
  lemma LowerIdempotent(s: string)
    ensures Lower(Lower(s)) == Lower(s)
  {
    var t := Lower(s);
    assert forall i :: 0 <= i < |t| ==> Lower(t)[i] == t[i];
  }

  /** Python's `s.title()`, on ASCII letters: a letter is upper-cased when the
      character before it is not a letter, and lower-cased otherwise;
      `afterLetter` says whether the text is preceded by a letter. Other
      characters are kept, as `UpperChar` and `LowerChar` keep them. */
  function Title(s: string, afterLetter: bool := false): (r: string)
    ensures |r| == |s|
    ensures s != [] ==> r[0] == if afterLetter then LowerChar(s[0]) else UpperChar(s[0])
    ensures forall i :: 0 < i < |s| && IsLetter(s[i - 1]) ==> r[i] == LowerChar(s[i])
    ensures forall i :: 0 < i < |s| && !IsLetter(s[i - 1]) ==> r[i] == UpperChar(s[i])
  {
    if s == [] then []
    else
      var rest := Title(s[1..], IsLetter(s[0]));
      [if afterLetter then LowerChar(s[0]) else UpperChar(s[0])] + rest
  }

  /** `q` occurs in `s` at position `i`. */
  predicate OccursAt(q: string, s: string, i: nat) {
    i + |q| <= |s| && s[i..i + |q|] == q
  }

  /** Python's substring test `q in s`, scanning the start positions of `s` in order. */
  predicate Contains(s: string, q: string) {
    q <= s || (s != [] && Contains(s[1..], q))
  }

  /** `Contains` agrees with the definition of a substring: some position of `s` starts `q`. */
  lemma {:induction false} ContainsIff(s: string, q: string)
    ensures Contains(s, q) <==> exists i :: 0 <= i <= |s| && OccursAt(q, s, i)
  {
    if q <= s {
      assert OccursAt(q, s, 0);
    } else if s == [] {
    } else {
      ContainsIff(s[1..], q);
      if exists i :: 0 <= i <= |s| && OccursAt(q, s, i) {
        var i :| 0 <= i <= |s| && OccursAt(q, s, i);
        assert i != 0;
        assert OccursAt(q, s[1..], i - 1);
      }
      if Contains(s[1..], q) {
        var i :| 0 <= i <= |s| - 1 && OccursAt(q, s[1..], i);
        assert OccursAt(q, s, i + 1);
      }
    }
  }

  /** Python's `sep.join(parts)`. */
  function Join(sep: string, parts: seq<string>): (r: string)
    ensures parts == [] ==> r == ""
    ensures |parts| == 1 ==> r == parts[0]
  {
    if parts == [] then ""
    else if |parts| == 1 then parts[0]
    else parts[0] + sep + Join(sep, parts[1..])
  }

  /** Joining two or more parts joins all but the last, then adds the
      separator and the last part. */
  lemma {:induction false} JoinSnoc(sep: string, parts: seq<string>)
    requires |parts| >= 2
    ensures Join(sep, parts) == Join(sep, parts[..|parts| - 1]) + sep + parts[|parts| - 1]
  {
    var n := |parts|;
    if n > 2 {
      var rest := parts[1..];
      JoinSnoc(sep, rest);
      assert parts[..n - 1][1..] == rest[..|rest| - 1];
      assert parts[..n - 1][0] == parts[0];
    }
  }

  /** The length of a join: every part plus one separator between each two. */
  lemma {:induction false} JoinLength(sep: string, parts: seq<string>)
    requires parts != []
    ensures |Join(sep, parts)| == TotalLength(parts) + (|parts| - 1) * |sep|
  {
    if |parts| > 1 {
      JoinLength(sep, parts[1..]);
    }
  }

  /** The sum of the lengths of `parts`. */
  function TotalLength(parts: seq<string>): nat {
    if parts == [] then 0 else |parts[0]| + TotalLength(parts[1..])
  }
}
