/** The label helpers of the build step: `get_first_val`, which collapses a
    one-element value or `|`-joins a list, and `cleanup_labels`, which
    `,`-joins the list fields of a drug label record and keeps
    `effective_time` as it is. */
module Labels {
  import opened Wrappers
  import opened Text
  import opened PyValues

  /** `type(v).__name__`. */
  function TypeName(v: Value): string
  {
    match v
    case PyNone => "NoneType"
    case Bool(_) => "bool"
    case Int(_) => "int"
    case Str(_) => "str"
    case List(_) => "list"
    case Dict(_) => "dict"
    case Tuple(_) => "tuple"
    case Set(_) => "set"
    case Object(name, _) => name
  }

  /** The TypeError of `len(v)`. */
  function NoLen(v: Value): string
  {
    "object of type '" + TypeName(v) + "' has no len()"
  }

  /** Every item is a string. */
  predicate AllStr(items: seq<Value>)
  {
    forall i :: 0 <= i < |items| ==> items[i].Str?
  }

  /** The strings of a list of strings. */
  function Strings(items: seq<Value>): (r: seq<string>)
    requires AllStr(items)
    ensures |r| == |items| && forall i :: 0 <= i < |items| ==> items[i] == Str(r[i])
  {
    seq(|items|, i requires 0 <= i < |items| => items[i].s)
  }

  /** The index of the first item that is not a string. */
  function FirstNonStr(items: seq<Value>): (k: nat)
    requires !AllStr(items)
    ensures k < |items| && !items[k].Str? && AllStr(items[..k])
  {
    if !items[0].Str? then 0
    else
      var k := FirstNonStr(items[1..]);
      assert items[..k + 1] == [items[0]] + items[1..][..k];
      k + 1
  }

  /** `sep.join(items)`: the TypeError names the first item that is not a
      string. */
  function JoinItems(sep: string, items: seq<Value>): (r: Result<string>)
    ensures r.Ok? <==> AllStr(items)
  {
    if AllStr(items) then Ok(Join(sep, Strings(items)))
    else
      var k := FirstNonStr(items);
      Err("sequence item " + NatToString(k) + ": expected str instance, " + TypeName(items[k]) + " found")
  }

  /** The error of `vs[0]` on a value of length 1 that has no position 0: a
      dictionary without the key 0, or a set. */
  function NoFirst(vs: Value): string
  {
    if vs.Dict? then "0" else "'" + TypeName(vs) + "' object is not subscriptable"
  }

  /** `get_first_val`. */
  function GetFirstVal(vs: Value): Result<Value>
  {
    match Len(vs)
    case None => Err(NoLen(vs))
    case Some(n) =>
      if n == 1 then
        match Index(vs, Int(0))
        case Some(x) => Ok(x)
        case None => Err(NoFirst(vs))
      else if vs.List? then
        match JoinItems("|", vs.items)
        case Ok(s) => Ok(Str(s))
        case Err(e) => Err(e)
      else Ok(vs)
  }

  /** A sequence of length 1 yields its element; a one-character string is
      its own first element. */
  lemma FirstValSingle(vs: Value)
    requires vs.List? || vs.Tuple?
    requires |vs.items| == 1
    ensures GetFirstVal(vs) == Ok(vs.items[0])
  {
  }

  lemma FirstValChar(s: string)
    requires |s| == 1
    ensures GetFirstVal(Str(s)) == Ok(Str(s))
  {
    assert [s[0]] == s;
  }

  /** A list of strings of any length, one included, yields its items joined
      with `|`; the empty list yields the empty string. */
  lemma FirstValStrings(items: seq<Value>)
    requires AllStr(items)
    ensures GetFirstVal(List(items)) == Ok(Str(Join("|", Strings(items))))
    ensures items == [] ==> GetFirstVal(List(items)) == Ok(Str(""))
  {
    if |items| == 1 {
      assert Join("|", Strings(items)) == items[0].s;
    }
  }

  /** A value of any other length that is not a list comes back unchanged;
      a value without a length, a list holding a non-string, and a
      dictionary or set of one element without position 0 raise. */
  lemma FirstValOthers(vs: Value)
    ensures Len(vs).Some? && Len(vs).value != 1 && !vs.List? ==> GetFirstVal(vs) == Ok(vs)
    ensures Len(vs).None? ==> GetFirstVal(vs) == Err(NoLen(vs))
    ensures vs.List? && |vs.items| != 1 ==> (GetFirstVal(vs).Err? <==> !AllStr(vs.items))
    ensures vs.Set? && |vs.items| == 1 ==> GetFirstVal(vs).Err?
    ensures vs.Dict? && |vs.entries| == 1 ==> (GetFirstVal(vs).Err? <==> !KeyEq(vs.entries[0].0, Int(0)))
    ensures vs.Dict? && |vs.entries| == 1 && KeyEq(vs.entries[0].0, Int(0)) ==> GetFirstVal(vs) == Ok(vs.entries[0].1)
  {
  }

  /** The value `cleanup_labels` stores under key `k`: `effective_time` as
      it is, a non-empty list `,`-joined, anything else with a length as it
      is. */
  function CleanValue(k: Value, v: Value): Result<Value>
  {
    if k == Str("effective_time") then Ok(v)
    else
      match Len(v)
      case None => Err(NoLen(v))
      case Some(n) =>
        if n >= 1 && v.List? then
          match JoinItems(",", v.items)
          case Ok(s) => Ok(Str(s))
          case Err(e) => Err(e)
        else Ok(v)
  }

  /** `out[k] = v` on a dictionary: the entry whose key equals `k` keeps its
      key object and takes the new value in place, or a new entry goes at
      the end. */
  function Assign(es: seq<(Value, Value)>, k: Value, v: Value): (r: seq<(Value, Value)>)
    ensures (forall i :: 0 <= i < |es| ==> !KeyEq(es[i].0, k)) ==> r == es + [(k, v)]
    ensures |r| == |es| || |r| == |es| + 1
    ensures forall i :: 0 <= i < |es| && !KeyEq(es[i].0, k) ==> r[i] == es[i]
  {
    if es == [] then [(k, v)]
    else if KeyEq(es[0].0, k) then [(es[0].0, v)] + es[1..]
    else [es[0]] + Assign(es[1..], k, v)
  }

  /** Assigning to a key the dictionary already holds (under Python's key
      equality) replaces that entry's value and nothing else. */
  lemma {:induction false} AssignExisting(es: seq<(Value, Value)>, k: Value, v: Value, i: nat)
    requires DistinctKeys(es) && i < |es| && KeyEq(es[i].0, k)
    ensures Assign(es, k, v) == es[i := (es[i].0, v)]
  {
    if i == 0 {
    } else {
      assert !KeyEq(es[0].0, k) by {
        if KeyEq(es[0].0, k) { KeyEqJoins(es[0].0, es[i].0, k); }
      }
      assert DistinctKeys(es[1..]);
      AssignExisting(es[1..], k, v, i - 1);
    }
  }


  /** The dictionary `cleanup_labels` builds from the first entries of
      `result`, or the error that ends it. */
  function Cleaned(es: seq<(Value, Value)>): Result<seq<(Value, Value)>>
  {
    if es == [] then Ok([])
    else
      match Cleaned(es[..|es| - 1])
      case Err(e) => Err(e)
      case Ok(out) =>
        var e := es[|es| - 1];
        match CleanValue(e.0, e.1)
        case Err(err) => Err(err)
        case Ok(w) => Ok(Assign(out, e.0, w))
  }

  /** `cleanup_labels` on the entries of a label record. */
  method CleanupLabels(result: seq<(Value, Value)>) returns (r: Result<seq<(Value, Value)>>)
    ensures r == Cleaned(result)
  {
    var out: seq<(Value, Value)> := [];
    var i := 0;
    while i < |result|
      invariant 0 <= i <= |result|
      invariant Cleaned(result[..i]) == Ok(out)
    {
      var (k, v) := result[i];
      assert result[..i + 1][..i] == result[..i];
      var w := CleanValue(k, v);
      if w.Err? {
        assert Cleaned(result[..i + 1]).Err?;
        CleanedStops(result, i + 1);
        return Err(w.error);
      }
      out := Assign(out, k, w.value);
      i := i + 1;
    }
    assert result[..i] == result;
    r := Ok(out);
  }

  /** Once a prefix fails, the whole fails with the same error. */
  lemma {:induction false} CleanedStops(es: seq<(Value, Value)>, n: nat)
    requires n <= |es|
    requires Cleaned(es[..n]).Err?
    ensures Cleaned(es) == Cleaned(es[..n])
    decreases |es| - n
  {
    if n < |es| {
      assert es[..n + 1][..n] == es[..n];
      CleanedStops(es, n + 1);
    } else {
      assert es[..n] == es;
    }
  }

  /** On a record, whose keys are distinct, the cleanup fails exactly when
      some entry's value fails; otherwise it keeps every key in its place and
      stores each entry's cleaned value. */
  lemma {:induction false} CleanedEntries(es: seq<(Value, Value)>)
    requires DistinctKeys(es)
    ensures Cleaned(es).Ok? <==> forall i :: 0 <= i < |es| ==> CleanValue(es[i].0, es[i].1).Ok?
    ensures Cleaned(es).Ok? ==>
      |Cleaned(es).value| == |es| &&
      forall i :: 0 <= i < |es| ==> Cleaned(es).value[i] == (es[i].0, CleanValue(es[i].0, es[i].1).value)
  {
    if es != [] {
      var init, last := es[..|es| - 1], es[|es| - 1];
      assert DistinctKeys(init);
      CleanedEntries(init);
      assert forall i :: 0 <= i < |init| ==> init[i] == es[i];
      if Cleaned(init).Ok? && CleanValue(last.0, last.1).Ok? {
        CleanedSnoc(es, Cleaned(init).value);
      }
    }
  }

  /** The last entry of a record has a key new to what the earlier entries
      built, so its cleaned value is appended. */
  lemma CleanedSnoc(es: seq<(Value, Value)>, out: seq<(Value, Value)>)
    requires es != [] && DistinctKeys(es)
    requires Cleaned(es[..|es| - 1]) == Ok(out) && |out| == |es| - 1
    requires forall i :: 0 <= i < |out| ==> out[i].0 == es[i].0
    requires CleanValue(es[|es| - 1].0, es[|es| - 1].1).Ok?
    ensures Cleaned(es) == Ok(out + [(es[|es| - 1].0, CleanValue(es[|es| - 1].0, es[|es| - 1].1).value)])
  {
    var last := es[|es| - 1];
    forall i | 0 <= i < |out| ensures !KeyEq(out[i].0, last.0) {
      assert !KeyEq(es[i].0, es[|es| - 1].0);
    }
  }

  /** `cleanup_labels` keeps the key set and the key order. */
  lemma KeysKept(es: seq<(Value, Value)>)
    requires DistinctKeys(es) && Cleaned(es).Ok?
    ensures KeysOf(Cleaned(es).value) == KeysOf(es)
  {
    CleanedEntries(es);
  }

  /** The value under `effective_time` is never altered, a non-empty list
      of strings becomes its items joined with `,`, and any other value with
      a length is kept as it is. */
  lemma CleanValueRule(k: Value, v: Value)
    ensures k == Str("effective_time") ==> CleanValue(k, v) == Ok(v)
    ensures k != Str("effective_time") && v.List? && |v.items| >= 1 && AllStr(v.items) ==>
      CleanValue(k, v) == Ok(Str(Join(",", Strings(v.items))))
    ensures k != Str("effective_time") && Len(v).Some? && !(v.List? && |v.items| >= 1) ==> CleanValue(k, v) == Ok(v)
    ensures CleanValue(k, v).Err? <==>
      k != Str("effective_time") && (Len(v).None? || (v.List? && |v.items| >= 1 && !AllStr(v.items)))
  {
  }

  /** A cleaned value cleans to itself. */
  lemma CleanValueIdempotent(k: Value, v: Value)
    requires CleanValue(k, v).Ok?
    ensures CleanValue(k, CleanValue(k, v).value) == CleanValue(k, v)
  {
  }

  /** Cleaning a cleaned record changes nothing. */
  lemma CleanupIdempotent(es: seq<(Value, Value)>)
    requires DistinctKeys(es) && Cleaned(es).Ok?
    ensures Cleaned(Cleaned(es).value) == Cleaned(es)
  {
    var out := Cleaned(es).value;
    CleanedEntries(es);
    assert forall i :: 0 <= i < |out| ==> out[i].0 == es[i].0;
    assert DistinctKeys(out);
    forall i | 0 <= i < |out|
      ensures CleanValue(out[i].0, out[i].1) == Ok(out[i].1)
    {
      CleanValueIdempotent(es[i].0, es[i].1);
    }
    CleanedEntries(out);
    var again := Cleaned(out).value;
    assert forall i :: 0 <= i < |out| ==> again[i] == (out[i].0, out[i].1);
    assert again == out;
  }
}
