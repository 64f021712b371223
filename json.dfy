/** JSON values as `json.load` produces them, and the Python operations the
    registry applies to them: truthiness, `in` and `dict.get` on an object,
    `str()` (which f-strings use) and `==`. */
module Json {
  import opened Wrappers
  import opened Text

  /** An object keeps its members in insertion order, as a Python dict does;
      a number carries its value and the text Python's `str()` prints for it. */
  datatype JsonValue =
    | Null
    | Bool(b: bool)
    | Num(value: real, text: string)
    | Str(s: string)
    | Arr(items: seq<JsonValue>)
    | Obj(fields: seq<(string, JsonValue)>)

  /** Python truthiness: `None`, `False`, zero and empty containers are false. */
  predicate Truthy(v: JsonValue) {
    match v
    case Null => false
    case Bool(b) => b
    case Num(x, _) => x != 0.0
    case Str(s) => s != ""
    case Arr(items) => items != []
    case Obj(fields) => fields != []
  }

  /** The value stored under `key`, if any. */
  function Find(fields: seq<(string, JsonValue)>, key: string): (r: Option<JsonValue>)
    ensures r.None? <==> forall i :: 0 <= i < |fields| ==> fields[i].0 != key
    ensures r.Some? ==> exists i :: 0 <= i < |fields| && fields[i] == (key, r.value)
  {
    if fields == [] then None
    else if fields[0].0 == key then Some(fields[0].1)
    else
      var r := Find(fields[1..], key);
      assert forall i :: 1 <= i < |fields| ==> fields[i] == fields[1..][i - 1];
      r
  }

  /** Python's `key in d`. */
  predicate HasKey(fields: seq<(string, JsonValue)>, key: string) {
    Find(fields, key).Some?
  }

  /** Python's `d.get(key)`: `None` when the key is absent. */
  function Get(fields: seq<(string, JsonValue)>, key: string): JsonValue {
    Find(fields, key).GetOr(Null)
  }

  /** Python's `d.get(key, default)`. */
  function GetOrDefault(fields: seq<(string, JsonValue)>, key: string, default: JsonValue): JsonValue {
    Find(fields, key).GetOr(default)
  }

  /** Python's `str(v)`: a string prints as itself, anything else as its `repr`. */
  function PyStr(v: JsonValue): string {
    if v.Str? then v.s else PyRepr(v)
  }

  /** Python's `repr(v)` for the values `json.load` builds. */
  function PyRepr(v: JsonValue): string
    decreases v
  {
    match v
    case Null => "None"
    case Bool(b) => if b then "True" else "False"
    case Num(_, text) => text
    case Str(s) => "'" + s + "'"
    case Arr(items) =>
      "[" + Join(", ", seq(|items|, i requires 0 <= i < |items| => PyRepr(items[i]))) + "]"
    case Obj(fields) =>
      "{" + Join(", ", seq(|fields|, i requires 0 <= i < |fields| =>
                             "'" + fields[i].0 + "': " + PyRepr(fields[i].1))) + "}"
  }

  /** The number Python sees in a bool or a number (`True == 1`). */
  function NumericValue(v: JsonValue): Option<real> {
    match v
    case Bool(b) => Some(if b then 1.0 else 0.0)
    case Num(x, _) => Some(x)
    case _ => None
  }

  /** Python's `a == b`: numbers and bools compare by value, lists element by
      element, and dicts by their key sets and the values under each key. */
  predicate PyEq(a: JsonValue, b: JsonValue)
    decreases a
  {
    if NumericValue(a).Some? || NumericValue(b).Some? then NumericValue(a) == NumericValue(b)
    else
      match a
      case Null => b.Null?
      case Str(s) => b.Str? && b.s == s
      case Arr(xs) =>
        b.Arr? && |xs| == |b.items| && forall i :: 0 <= i < |xs| ==> PyEq(xs[i], b.items[i])
      case Obj(fs) =>
        b.Obj? && |fs| == |b.fields| &&
        forall i :: 0 <= i < |fs| ==> HasKey(b.fields, fs[i].0) && PyEq(fs[i].1, Get(b.fields, fs[i].0))
      case _ => false
  }

  /** No key occurs twice in the object. */
  ghost predicate UniqueKeys(fields: seq<(string, JsonValue)>) {
    forall i, j :: 0 <= i < j < |fields| ==> fields[i].0 != fields[j].0
  }

  /** Every object in `v` has distinct keys, as every dict `json.load` returns does. */
  ghost predicate WellFormed(v: JsonValue)
    decreases v
  {
    match v
    case Arr(items) => forall i :: 0 <= i < |items| ==> WellFormed(items[i])
    case Obj(fields) => UniqueKeys(fields) && forall i :: 0 <= i < |fields| ==> WellFormed(fields[i].1)
    case _ => true
  }

  /** In an object with distinct keys, looking up a member's key finds that member. */
  lemma FindMember(fields: seq<(string, JsonValue)>, i: nat)
    requires UniqueKeys(fields) && i < |fields|
    ensures Find(fields, fields[i].0) == Some(fields[i].1)
  {
    var r := Find(fields, fields[i].0);
    var j :| 0 <= j < |fields| && fields[j] == (fields[i].0, r.value);
    assert i == j;
  }

  /** Every value read from JSON equals itself under Python's `==`. */
  lemma {:induction false} PyEqReflexive(v: JsonValue)
    requires WellFormed(v)
    ensures PyEq(v, v)
    decreases v
  {
    match v
    case Arr(items) =>
      forall i | 0 <= i < |items| ensures PyEq(items[i], items[i]) {
        PyEqReflexive(items[i]);
      }
    case Obj(fields) =>
      forall i | 0 <= i < |fields|
        ensures HasKey(fields, fields[i].0) && PyEq(fields[i].1, Get(fields, fields[i].0))
      {
        FindMember(fields, i);
        PyEqReflexive(fields[i].1);
      }
    case _ =>
  }
}
