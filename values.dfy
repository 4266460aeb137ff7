/** Python values as the pipeline sees them: what `json.load` produces, and the
    cells of a data frame. Dictionaries keep insertion order as a sequence of
    entries; Python makes the keys of a dict distinct (see `DistinctKeys`). */
module PyValues {
  import opened Wrappers

  datatype Value =
    | PyNone
    | Bool(b: bool)
    | Int(i: int)
    | Str(s: string)
    | List(items: seq<Value>)
    | Dict(entries: seq<(Value, Value)>)
    | Tuple(items: seq<Value>)
    | Set(items: seq<Value>)                      // in Python's iteration order
    | Object(typeName: string, iterable: bool)    // any other object; `iterable` = has `__iter__`

  /** The keys of a dictionary's entries, in insertion order. */
  function KeysOf(es: seq<(Value, Value)>): (ks: seq<Value>)
    ensures |ks| == |es|
    ensures forall i :: 0 <= i < |es| ==> ks[i] == es[i].0
  {
    if es == [] then [] else [es[0].0] + KeysOf(es[1..])
  }

  /** Python's `==` between two dictionary keys: `bool` is a subclass of
      `int`, so `True == 1` and `False == 0`; other keys are equal when they
      are the same value. */
  predicate KeyEq(a: Value, b: Value)
  {
    a == b || ((a.Bool? || a.Int?) && (b.Bool? || b.Int?) && AsIndex(a) == AsIndex(b))
  }

  /** A Python dict never holds two equal keys. */
  predicate DistinctKeys(es: seq<(Value, Value)>)
  {
    forall i, j :: 0 <= i < j < |es| ==> !KeyEq(es[i].0, es[j].0)
  }

  /** Dictionary lookup `d[k]`: the value of the first entry whose key
      equals `k` (the only one in a real dict), or `None` for a KeyError. */
  function Lookup(es: seq<(Value, Value)>, k: Value): (r: Option<Value>)
    ensures r.Some? <==> exists i :: 0 <= i < |es| && KeyEq(es[i].0, k)
  {
    if es == [] then None
    else if KeyEq(es[0].0, k) then Some(es[0].1)
    else
      var r := Lookup(es[1..], k);
      assert (exists i :: 0 <= i < |es| && KeyEq(es[i].0, k)) ==> exists i :: 0 <= i < |es[1..]| && KeyEq(es[1..][i].0, k) by {
        if exists i :: 0 <= i < |es| && KeyEq(es[i].0, k) {
          var i :| 0 <= i < |es| && KeyEq(es[i].0, k);
          assert es[1..][i - 1] == es[i];
        }
      }
      r
  }

  /** A successful lookup yields the value of the first entry whose key
      equals `k`. */
  lemma {:induction false} LookupFirst(es: seq<(Value, Value)>, k: Value, i: nat)
    requires i < |es| && KeyEq(es[i].0, k)
    requires forall j :: 0 <= j < i ==> !KeyEq(es[j].0, k)
    ensures Lookup(es, k) == Some(es[i].1)
  {
    if i > 0 {
      assert es[1..][i - 1] == es[i];
      LookupFirst(es[1..], k, i - 1);
    }
  }

  /** Two keys equal to a third are equal to each other. */
  lemma KeyEqJoins(a: Value, b: Value, k: Value)
    requires KeyEq(a, k) && KeyEq(b, k)
    ensures KeyEq(a, b)
  {
  }

  /** With distinct keys, the entry whose key equals `k` is the only one. */
  lemma LookupDistinct(es: seq<(Value, Value)>, k: Value, i: nat)
    requires DistinctKeys(es) && i < |es| && KeyEq(es[i].0, k)
    ensures Lookup(es, k) == Some(es[i].1)
  {
    forall j | 0 <= j < i ensures !KeyEq(es[j].0, k) {
      if KeyEq(es[j].0, k) { KeyEqJoins(es[j].0, es[i].0, k); }
    }
    LookupFirst(es, k, i);
  }

  /** Python's `len(v)`, or `None` for a TypeError (an object without a length). */
  function Len(v: Value): Option<nat>
  {
    match v
    case Str(s) => Some(|s|)
    case List(items) => Some(|items|)
    case Dict(es) => Some(|es|)
    case Tuple(items) => Some(|items|)
    case Set(items) => Some(|items|)
    case _ => None
  }

  /** The integer a Python subscript denotes (bool is a subclass of int). */
  function AsIndex(k: Value): Option<int>
  {
    match k
    case Int(i) => Some(i)
    case Bool(b) => Some(if b then 1 else 0)
    case _ => None
  }

  /** Position `i` of a sequence of length `n` under Python's negative-index rule. */
  function Position(i: int, n: nat): Option<nat>
  {
    if 0 <= i < n then Some(i) else if -(n as int) <= i < 0 then Some(n + i) else None
  }

  /** Python's subscript `v[k]` on a value loaded from JSON or built by the
      pipeline; `None` stands for the KeyError, IndexError or TypeError it raises. */
  function Index(v: Value, k: Value): (r: Option<Value>)
    ensures v.Dict? ==> r == Lookup(v.entries, k)
    ensures v.List? && k.Int? && 0 <= k.i < |v.items| ==> r == Some(v.items[k.i])
  {
    match v
    case Dict(es) => Lookup(es, k)
    case List(items) =>
      (match AsIndex(k)
       case Some(i) => (match Position(i, |items|) case Some(p) => Some(items[p]) case None => None)
       case None => None)
    case Tuple(items) =>
      (match AsIndex(k)
       case Some(i) => (match Position(i, |items|) case Some(p) => Some(items[p]) case None => None)
       case None => None)
    case Str(s) =>
      (match AsIndex(k)
       case Some(i) => (match Position(i, |s|) case Some(p) => Some(Str([s[p]])) case None => None)
       case None => None)
    case _ => None
  }

  /** `isinstance(v, str)`. */
  predicate IsStr(v: Value) { v.Str? }
}
