/**
 * Python values as the source passes them around: the JSON-like data of
 * chat messages, content blocks, tool schemas and parsed tool calls.
 * Dictionaries are finite maps from string keys.
 */
module PyData {
  import opened Wrappers

  datatype Value =
    | PNone
    | PBool(b: bool)
    | PInt(i: int)
    | PStr(s: string)
    | PList(items: seq<Value>)
    | PDict(fields: map<string, Value>)

  type Dict = map<string, Value>

  /** `d.get(key)`. */
  function Get(d: Dict, key: string): (r: Option<Value>)
    ensures r.Some? <==> key in d
    ensures r.Some? ==> r.value == d[key]
  {
    if key in d then Some(d[key]) else None
  }

  /** `isinstance(v, dict) and v.get(key) == s`. */
  predicate HasStr(v: Value, key: string, s: string)
  {
    v.PDict? && Get(v.fields, key) == Some(PStr(s))
  }

  /** `isinstance(v, dict) and v.get("type") == t`: a content block of
    * type `t`. */
  predicate IsBlockOfType(v: Value, t: string)
  {
    HasStr(v, "type", t)
  }

  /** `d.get(key)` when it is a string, else `None`. */
  function GetStr(d: Dict, key: string): (r: Option<string>)
    ensures r.Some? <==> key in d && d[key].PStr?
    ensures r.Some? ==> d[key] == PStr(r.value)
  {
    if key in d && d[key].PStr? then Some(d[key].s) else None
  }

  /** The elements of `s` that satisfy `p`, in order (a list
    * comprehension with an `if`). */
  function FilterSeq<T>(s: seq<T>, p: T -> bool): (r: seq<T>)
    ensures |r| <= |s|
    ensures forall x :: x in r ==> x in s && p(x)
  {
    if s == [] then [] else (if p(s[0]) then [s[0]] else []) + FilterSeq(s[1..], p)
  }

  lemma {:induction false} FilterSeqAppend<T>(a: seq<T>, b: seq<T>, p: T -> bool)
    ensures FilterSeq(a + b, p) == FilterSeq(a, p) + FilterSeq(b, p)
  {
    if a == [] {
      assert a + b == b;
    } else {
      assert (a + b)[0] == a[0];
      assert (a + b)[1..] == a[1..] + b;
      FilterSeqAppend(a[1..], b, p);
    }
  }

  lemma FilterSeqSnoc<T>(a: seq<T>, x: T, p: T -> bool)
    ensures FilterSeq(a + [x], p) == FilterSeq(a, p) + (if p(x) then [x] else [])
  {
    FilterSeqAppend(a, [x], p);
  }
  /** The elements of `s` are all rejected by `p` exactly when the filter
    * keeps none of them. */
  lemma {:induction false} FilterSeqEmpty<T>(s: seq<T>, p: T -> bool)
    ensures FilterSeq(s, p) == [] <==> forall k :: 0 <= k < |s| ==> !p(s[k])
  {
    if s != [] {
      FilterSeqEmpty(s[1..], p);
      assert forall k :: 1 <= k < |s| ==> s[k] == s[1..][k - 1];
    }
  }

  /** `[f(x) for x in s]`. */
  function MapSeq<T, U>(s: seq<T>, f: T -> U): (r: seq<U>)
    ensures |r| == |s|
    ensures forall k :: 0 <= k < |s| ==> r[k] == f(s[k])
  {
    if s == [] then [] else [f(s[0])] + MapSeq(s[1..], f)
  }

  lemma MapSeqSnoc<T, U>(s: seq<T>, x: T, f: T -> U)
    ensures MapSeq(s + [x], f) == MapSeq(s, f) + [f(x)]
  {
    assert forall k :: 0 <= k < |s| ==> (s + [x])[k] == s[k];
  }

  /** The concatenation of a list of lists (`extend` applied in order). */
  function Concat<T>(ss: seq<seq<T>>): (r: seq<T>)
  {
    if ss == [] then [] else Concat(ss[..|ss| - 1]) + ss[|ss| - 1]
  }

  lemma ConcatSnoc<T>(ss: seq<seq<T>>, s: seq<T>)
    ensures Concat(ss + [s]) == Concat(ss) + s
  {
    assert (ss + [s])[..|ss|] == ss;
  }

  /** Python's truth value of a value (`if v:`). */
  predicate IsTruthy(v: Value)
  {
    match v
    case PNone => false
    case PBool(b) => b
    case PInt(i) => i != 0
    case PStr(s) => s != ""
    case PList(items) => items != []
    case PDict(fields) => fields != map[]
  }
}
