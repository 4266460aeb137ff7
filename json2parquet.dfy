/** The JSON-to-parquet converter: the `'results'` selection, the cell
    conversion that makes every cell a scalar, and the in-place pass over
    the columns of the data frame. Normalisation, `str` and the dtype pandas
    infers are inputs. */
module Json2Parquet {
  import opened Wrappers
  import opened PyValues
  import opened JsonDumps

  /** `str(x)`: the printed form of a value. */
  type Repr = Value -> string

  /** A cell the conversion leaves alone: `None`, a boolean, an integer, a
      string, or an object without `__iter__`. */
  predicate Flat(x: Value)
  {
    match x
    case List(_) => false
    case Dict(_) => false
    case Tuple(_) => false
    case Set(_) => false
    case Object(_, iterable) => !iterable
    case _ => true
  }

  /** `safe_convert_to_string`: lists and dictionaries as `json.dumps` writes
      them, or their `str` when it raises; every other iterable but a string
      as its `str`; anything else unchanged. */
  function SafeConvert(x: Value, repr: Repr): (r: Value)
    ensures Flat(r)
  {
    match x
    case List(_) => (match Dumps(x) case Some(s) => Str(s) case None => Str(repr(x)))
    case Dict(_) => (match Dumps(x) case Some(s) => Str(s) case None => Str(repr(x)))
    case Tuple(_) => Str(repr(x))
    case Set(_) => Str(repr(x))
    case Object(_, iterable) => if iterable then Str(repr(x)) else x
    case _ => x
  }

  /** The conversion changes a cell exactly when it is not already flat. */
  lemma ConvertKeeps(x: Value, repr: Repr)
    ensures SafeConvert(x, repr) == x <==> Flat(x)
  {
  }

  /** Lists and dictionaries become their JSON text when they have one and
      their `str` otherwise; tuples, sets and other iterables become their
      `str`. */
  lemma ConvertContainers(x: Value, repr: Repr)
    ensures (x.List? || x.Dict?) && Serialisable(x) ==> Dumps(x).Some? && SafeConvert(x, repr) == Str(Dumps(x).value)
    ensures (x.List? || x.Dict?) && !Serialisable(x) ==> SafeConvert(x, repr) == Str(repr(x))
    ensures x.Tuple? || x.Set? || (x.Object? && x.iterable) ==> SafeConvert(x, repr) == Str(repr(x))
  {
    DumpsDefined(x);
  }

  /** Converting a converted cell changes nothing. */
  lemma ConvertIdempotent(x: Value, repr: Repr)
    ensures SafeConvert(SafeConvert(x, repr), repr) == SafeConvert(x, repr)
  {
    ConvertKeeps(SafeConvert(x, repr), repr);
  }

  /** A column's dtype: `object`, or any other. */
  datatype DType = ObjectDtype | Typed(name: string)

  /** The dtype pandas infers for the values `apply` returns. */
  type Infer = seq<Value> -> DType

  /** A data frame: column names, dtypes and cells, column by column. */
  datatype Table = Table(names: seq<string>, dtypes: seq<DType>, columns: seq<seq<Value>>)

  /** Every column has a name, a dtype, and `rows` cells. */
  predicate Shaped(t: Table, rows: nat)
  {
    |t.names| == |t.dtypes| == |t.columns| &&
    forall j :: 0 <= j < |t.columns| ==> |t.columns[j]| == rows
  }

  /** `df[col].apply(safe_convert_to_string)`. */
  function ConvertColumn(cells: seq<Value>, repr: Repr): (r: seq<Value>)
    ensures |r| == |cells|
    ensures forall i :: 0 <= i < |cells| ==> r[i] == SafeConvert(cells[i], repr)
  {
    seq(|cells|, i requires 0 <= i < |cells| => SafeConvert(cells[i], repr))
  }

  /** Column `j` after the pass: converted with its inferred dtype when it
      was `object`, as it was otherwise. */
  function FlatColumn(t: Table, j: nat, repr: Repr, infer: Infer): (DType, seq<Value>)
    requires j < |t.dtypes| && j < |t.columns|
  {
    if t.dtypes[j] == ObjectDtype then
      var cells := ConvertColumn(t.columns[j], repr);
      (infer(cells), cells)
    else (t.dtypes[j], t.columns[j])
  }

  /** The frame after `flatten_complex_data`: its first `k` columns passed
      over, the rest as they were. */
  function FlattenedUpTo(t: Table, k: nat, repr: Repr, infer: Infer): Table
    requires |t.dtypes| == |t.columns| && k <= |t.columns|
  {
    Table(t.names,
          seq(|t.dtypes|, j requires 0 <= j < |t.dtypes| => if j < k then FlatColumn(t, j, repr, infer).0 else t.dtypes[j]),
          seq(|t.columns|, j requires 0 <= j < |t.columns| => if j < k then FlatColumn(t, j, repr, infer).1 else t.columns[j]))
  }

  function Flattened(t: Table, repr: Repr, infer: Infer): Table
    requires |t.dtypes| == |t.columns|
  {
    FlattenedUpTo(t, |t.columns|, repr, infer)
  }

  /** The data frame `flatten_complex_data` rewrites in place. */
  class Frame {
    var names: seq<string>
    var dtypes: seq<DType>
    var columns: seq<seq<Value>>

    function State(): Table
      reads this
    {
      Table(names, dtypes, columns)
    }

    constructor (t: Table)
      ensures State() == t
    {
      names, dtypes, columns := t.names, t.dtypes, t.columns;
    }

    /** `flatten_complex_data`: each `object` column is replaced by its cells
        converted, in column order. */
    method FlattenComplexData(repr: Repr, infer: Infer)
      requires |dtypes| == |columns|
      modifies this
      ensures State() == Flattened(old(State()), repr, infer)
    {
      ghost var t := State();
      var j := 0;
      while j < |columns|
        invariant |dtypes| == |columns| == |t.columns|
        invariant 0 <= j <= |columns|
        invariant State() == FlattenedUpTo(t, j, repr, infer)
      {
        if dtypes[j] == ObjectDtype {
          var cells := ConvertColumn(columns[j], repr);
          columns := columns[j := cells];
          dtypes := dtypes[j := infer(cells)];
        }
        j := j + 1;
      }
    }
  }

  /** The pass keeps the names, their order, the number of columns and of
      rows; it leaves every column that is not `object` as it was and
      converts every cell of every `object` column. */
  lemma FlattenShape(t: Table, rows: nat, repr: Repr, infer: Infer)
    requires Shaped(t, rows)
    ensures var r := Flattened(t, repr, infer);
      Shaped(r, rows) && r.names == t.names &&
      (forall j :: 0 <= j < |t.columns| && t.dtypes[j] != ObjectDtype ==>
         r.dtypes[j] == t.dtypes[j] && r.columns[j] == t.columns[j]) &&
      (forall j, i :: 0 <= j < |t.columns| && t.dtypes[j] == ObjectDtype && 0 <= i < rows ==>
         r.columns[j][i] == SafeConvert(t.columns[j][i], repr) && Flat(r.columns[j][i]))
  {
  }

  /** A second pass changes nothing. */
  lemma FlattenIdempotent(t: Table, repr: Repr, infer: Infer)
    requires |t.dtypes| == |t.columns|
    ensures Flattened(Flattened(t, repr, infer), repr, infer) == Flattened(t, repr, infer)
  {
    var r := Flattened(t, repr, infer);
    var r2 := Flattened(r, repr, infer);
    forall j | 0 <= j < |t.columns|
      ensures r2.dtypes[j] == r.dtypes[j] && r2.columns[j] == r.columns[j]
    {
      if t.dtypes[j] == ObjectDtype && r.dtypes[j] == ObjectDtype {
        var cells := r.columns[j];
        forall i | 0 <= i < |cells|
          ensures SafeConvert(cells[i], repr) == cells[i]
        {
          ConvertKeeps(cells[i], repr);
        }
        assert ConvertColumn(cells, repr) == cells;
      }
    }
  }

  /** What `json.load` returns at the top of a document. */
  predicate Document(data: Value)
  {
    !(data.Tuple? || data.Set? || data.Object?)
  }

  /** `data['results']` when `'results' in data`, the whole document
      otherwise, or the TypeError the test or the subscript raises: `in` is a
      key test on a dictionary, an element test on a list and a substring
      test on a string, and the subscript of a list or a string by a string
      raises. */
  function Records(data: Value): (r: Result<Value>)
    requires Document(data)
  {
    match data
    case Dict(es) => (match Lookup(es, Str("results")) case Some(v) => Ok(v) case None => Ok(data))
    case List(items) =>
      if Str("results") in items then Err("list indices must be integers or slices, not str") else Ok(data)
    case Str(s) =>
      if Contains(s, "results") then Err("string indices must be integers, not 'str'") else Ok(data)
    case PyNone => Err("argument of type 'NoneType' is not iterable")
    case Bool(_) => Err("argument of type 'bool' is not iterable")
    case Int(_) => Err("argument of type 'int' is not iterable")
  }

  /** `needle` occurs in `s` as a block of consecutive characters. */
  predicate Contains(s: string, needle: string)
  {
    exists i :: 0 <= i <= |s| - |needle| && OccursAt(s, i, needle)
  }

  predicate OccursAt(s: string, i: int, needle: string)
  {
    0 <= i <= |s| - |needle| && s[i..i + |needle|] == needle
  }

  /** A dictionary document yields its `'results'` entry when it has one and
      itself otherwise; a list yields itself unless it holds the string
      `"results"`. */
  lemma RecordsOfDocument(data: Value)
    requires Document(data)
    ensures data.Dict? ==>
      Records(data) == Ok(if exists i :: 0 <= i < |data.entries| && data.entries[i].0 == Str("results")
                          then Lookup(data.entries, Str("results")).value else data)
    ensures data.List? ==> (Records(data).Ok? <==> forall i :: 0 <= i < |data.items| ==> data.items[i] != Str("results"))
    ensures data.List? && Records(data).Ok? ==> Records(data).value == data
    ensures data.PyNone? || data.Bool? || data.Int? ==> Records(data).Err?
  {
  }
}
