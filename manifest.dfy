/** The manifest index: the three nested loops of the download and build
    stages' `main` that turn `results -> data type -> field -> partitions`
    into one task per partition, in manifest order. */
module Manifest {
  import opened Wrappers
  import opened PyValues

  /** `(data_type, field_name, partition_index)`. */
  datatype Task = Task(dataType: string, fieldName: string, index: nat)

  /** What `main` does with a manifest it cannot walk: the KeyError or
      TypeError ends the run before any task starts. */
  const Malformed: string := "malformed manifest"

  /** The names `for x in v` yields at one level of the manifest. A dict
      yields its keys (always strings in JSON); an empty list or string yields
      nothing; any other value makes the loop or the subscript that follows it
      raise. */
  function LevelKeys(v: Value): Option<seq<string>>
  {
    match v
    case Dict(es) =>
      if forall i :: 0 <= i < |es| ==> es[i].0.Str?
      then Some(seq(|es|, i requires 0 <= i < |es| => es[i].0.s))
      else None
    case List(items) => if items == [] then Some([]) else None
    case Str(s) => if s == [] then Some([]) else None
    case _ => None
  }

  /** `data['results']`. */
  function Results(manifest: Value): Option<Value>
  {
    Index(manifest, Str("results"))
  }

  /** `data['results'][data_type]`, the field table of one data type. */
  function Fields(results: Value, dataType: string): Option<Value>
  {
    Index(results, Str(dataType))
  }

  /** `data['results'][data_type][field_name]`, the entry of one field. */
  function FieldEntry(results: Value, dataType: string, fieldName: string): Option<Value>
  {
    match Fields(results, dataType)
    case None => None
    case Some(fields) => Index(fields, Str(fieldName))
  }

  /** `len(data['results'][data_type][field_name]['partitions'])`. */
  function PartitionCount(results: Value, dataType: string, fieldName: string): Option<nat>
  {
    match FieldEntry(results, dataType, fieldName)
    case None => None
    case Some(entry) =>
      (match Index(entry, Str("partitions"))
       case None => None
       case Some(parts) => Len(parts))
  }

  /** The tasks of one field: `range(len(partitions))`. */
  function Partitions(dataType: string, fieldName: string, n: nat): (ts: seq<Task>)
    ensures |ts| == n
    ensures forall i :: 0 <= i < n ==> ts[i] == Task(dataType, fieldName, i)
  {
    seq(n, i requires 0 <= i < n => Task(dataType, fieldName, i))
  }

  /** The tasks of the fields `fieldNames` of one data type, in order. */
  function FieldTasks(results: Value, dataType: string, fieldNames: seq<string>): (r: Result<seq<Task>>)
    ensures r.Err? ==> r.error == Malformed
  {
    if fieldNames == [] then Ok([])
    else
      match FieldTasks(results, dataType, fieldNames[..|fieldNames| - 1])
      case Err(e) => Err(e)
      case Ok(prev) =>
        (match PartitionCount(results, dataType, fieldNames[|fieldNames| - 1])
         case None => Err(Malformed)
         case Some(n) => Ok(prev + Partitions(dataType, fieldNames[|fieldNames| - 1], n)))
  }

  /** The tasks of one data type, all of its fields. */
  function TypeTasks(results: Value, dataType: string): (r: Result<seq<Task>>)
    ensures r.Err? ==> r.error == Malformed
  {
    match Fields(results, dataType)
    case None => Err(Malformed)
    case Some(fields) =>
      (match LevelKeys(fields)
       case None => Err(Malformed)
       case Some(names) => FieldTasks(results, dataType, names))
  }

  /** The tasks of the data types `dataTypes`, in order. */
  function TypesTasks(results: Value, dataTypes: seq<string>): (r: Result<seq<Task>>)
    ensures r.Err? ==> r.error == Malformed
  {
    if dataTypes == [] then Ok([])
    else
      match TypesTasks(results, dataTypes[..|dataTypes| - 1])
      case Err(e) => Err(e)
      case Ok(prev) =>
        (match TypeTasks(results, dataTypes[|dataTypes| - 1])
         case Err(e) => Err(e)
         case Ok(ts) => Ok(prev + ts))
  }

  /** The whole task list of a manifest, or `Malformed`. */
  function Tasks(manifest: Value): (r: Result<seq<Task>>)
    ensures r.Err? ==> r.error == Malformed
  {
    match Results(manifest)
    case None => Err(Malformed)
    case Some(results) =>
      (match LevelKeys(results)
       case None => Err(Malformed)
       case Some(dataTypes) => TypesTasks(results, dataTypes))
  }

  lemma {:induction false} FieldTasksErrExtends(results: Value, dataType: string, names: seq<string>, k: nat)
    requires k <= |names| && FieldTasks(results, dataType, names[..k]).Err?
    ensures FieldTasks(results, dataType, names).Err?
    decreases |names| - k
  {
    if k < |names| {
      assert names[..k + 1][..k] == names[..k];
      FieldTasksErrExtends(results, dataType, names, k + 1);
    } else {
      assert names[..k] == names;
    }
  }

  lemma {:induction false} TypesTasksErrExtends(results: Value, dataTypes: seq<string>, k: nat)
    requires k <= |dataTypes| && TypesTasks(results, dataTypes[..k]).Err?
    ensures TypesTasks(results, dataTypes).Err?
    decreases |dataTypes| - k
  {
    if k < |dataTypes| {
      assert dataTypes[..k + 1][..k] == dataTypes[..k];
      TypesTasksErrExtends(results, dataTypes, k + 1);
    } else {
      assert dataTypes[..k] == dataTypes;
    }
  }

  /** A task names a partition that exists: its field has a `partitions`
      value with a length, and the index is below it. */
  predicate Indexable(results: Value, t: Task)
  {
    var count := PartitionCount(results, t.dataType, t.fieldName);
    count.Some? && t.index < count.value
  }

  /** The field names of one data type, as `main` iterates them (none when
      the level cannot be walked). */
  function FieldNames(results: Value, dataType: string): seq<string>
  {
    match Fields(results, dataType)
    case None => []
    case Some(fields) => (match LevelKeys(fields) case None => [] case Some(names) => names)
  }

  /** The tasks of the fields `names` are exactly the partitions of those
      fields: each task is one of them, and each of them is a task. */
  lemma {:induction false} FieldTasksExact(results: Value, dataType: string, names: seq<string>)
    requires FieldTasks(results, dataType, names).Ok?
    ensures forall t :: t in FieldTasks(results, dataType, names).value <==>
      t.dataType == dataType && t.fieldName in names && Indexable(results, t)
  {
    if names != [] {
      var init := names[..|names| - 1];
      var last := names[|names| - 1];
      FieldTasksExact(results, dataType, init);
      var prev := FieldTasks(results, dataType, init).value;
      var n := PartitionCount(results, dataType, last).value;
      var ts := FieldTasks(results, dataType, names).value;
      assert ts == prev + Partitions(dataType, last, n);
      assert names == init + [last];
      forall t: Task | t.dataType == dataType && t.fieldName in names && Indexable(results, t)
        ensures t in ts
      {
        if t.fieldName == last {
          assert Partitions(dataType, last, n)[t.index] == t;
        } else {
          assert t.fieldName in init;
        }
      }
    }
  }

  /** The same one level up: the tasks of the data types `dataTypes` are the
      partitions of their fields. */
  lemma {:induction false} TypesTasksExact(results: Value, dataTypes: seq<string>)
    requires TypesTasks(results, dataTypes).Ok?
    ensures forall t :: t in TypesTasks(results, dataTypes).value <==>
      t.dataType in dataTypes && t.fieldName in FieldNames(results, t.dataType) && Indexable(results, t)
  {
    if dataTypes != [] {
      var init := dataTypes[..|dataTypes| - 1];
      var last := dataTypes[|dataTypes| - 1];
      TypesTasksExact(results, init);
      var prev := TypesTasks(results, init).value;
      var names := FieldNames(results, last);
      assert TypeTasks(results, last) == FieldTasks(results, last, names);
      FieldTasksExact(results, last, names);
      var ts := TypesTasks(results, dataTypes).value;
      assert ts == prev + TypeTasks(results, last).value;
      assert dataTypes == init + [last];
    }
  }

  /** `main`'s task list holds one task for every partition of every field of
      every data type, and nothing else. */
  lemma TasksExact(manifest: Value)
    requires Tasks(manifest).Ok?
    ensures Results(manifest).Some? && LevelKeys(Results(manifest).value).Some?
    ensures forall t :: t in Tasks(manifest).value <==>
      t.dataType in LevelKeys(Results(manifest).value).value &&
      t.fieldName in FieldNames(Results(manifest).value, t.dataType) &&
      Indexable(Results(manifest).value, t)
  {
    var results := Results(manifest).value;
    TypesTasksExact(results, LevelKeys(results).value);
  }

  /** No element occurs twice. */
  predicate NoDuplicates<T(==)>(s: seq<T>)
  {
    forall i, j :: 0 <= i < j < |s| ==> s[i] != s[j]
  }

  /** Every dictionary `main` walks has distinct keys, as every Python dict
      has: `data['results']` and each `data['results'][data_type]`. */
  ghost predicate LevelsDistinct(manifest: Value)
  {
    match Results(manifest)
    case None => true
    case Some(results) =>
      (results.Dict? ==> DistinctKeys(results.entries)) &&
      forall dataType :: Fields(results, dataType).Some? && Fields(results, dataType).value.Dict? ==>
        DistinctKeys(Fields(results, dataType).value.entries)
  }

  /** The number of partitions of the fields `names`, counted field by field
      (a field without a partition count adds nothing). */
  function FieldTotal(results: Value, dataType: string, names: seq<string>): nat
  {
    if names == [] then 0
    else
      FieldTotal(results, dataType, names[..|names| - 1]) +
      (match PartitionCount(results, dataType, names[|names| - 1]) case Some(n) => n case None => 0)
  }

  /** The number of partitions of all fields of the data types `dataTypes`. */
  function TypesTotal(results: Value, dataTypes: seq<string>): nat
  {
    if dataTypes == [] then 0
    else TypesTotal(results, dataTypes[..|dataTypes| - 1]) + FieldTotal(results, dataTypes[|dataTypes| - 1], FieldNames(results, dataTypes[|dataTypes| - 1]))
  }

  /** The names of a dict level with distinct keys are distinct. */
  lemma LevelKeysDistinct(v: Value)
    requires v.Dict? ==> DistinctKeys(v.entries)
    requires LevelKeys(v).Some?
    ensures NoDuplicates(LevelKeys(v).value)
  {
    if v.Dict? {
      var names := LevelKeys(v).value;
      forall i, j | 0 <= i < j < |names| ensures names[i] != names[j] {
        assert !KeyEq(v.entries[i].0, v.entries[j].0);
      }
    }
  }

  /** Two duplicate-free sequences with no common element concatenate to a
      duplicate-free one. */
  lemma NoDuplicatesConcat<T>(a: seq<T>, b: seq<T>)
    requires NoDuplicates(a) && NoDuplicates(b)
    requires forall x :: x in a ==> x !in b
    ensures NoDuplicates(a + b)
  {
    var ab := a + b;
    forall i, j | 0 <= i < j < |ab| ensures ab[i] != ab[j] {
      if i < |a| <= j {
        assert ab[i] in a && ab[j] == b[j - |a|];
      } else if i >= |a| {
        assert ab[i] == b[i - |a|] && ab[j] == b[j - |a|];
      }
    }
  }

  /** Distinct field names give distinct tasks, as many as their partitions. */
  lemma {:induction false} FieldTasksOnce(results: Value, dataType: string, names: seq<string>)
    requires FieldTasks(results, dataType, names).Ok? && NoDuplicates(names)
    ensures NoDuplicates(FieldTasks(results, dataType, names).value)
    ensures |FieldTasks(results, dataType, names).value| == FieldTotal(results, dataType, names)
  {
    if names != [] {
      var init, last := names[..|names| - 1], names[|names| - 1];
      FieldTasksOnce(results, dataType, init);
      FieldTasksExact(results, dataType, init);
      var prev := FieldTasks(results, dataType, init).value;
      var part := Partitions(dataType, last, PartitionCount(results, dataType, last).value);
      assert FieldTasks(results, dataType, names).value == prev + part;
      assert last !in init;
      NoDuplicatesConcat(prev, part);
    }
  }

  /** Distinct data types, each with distinct field names, give distinct
      tasks, as many as their partitions. */
  lemma {:induction false} TypesTasksOnce(results: Value, dataTypes: seq<string>)
    requires TypesTasks(results, dataTypes).Ok? && NoDuplicates(dataTypes)
    requires forall dataType :: Fields(results, dataType).Some? && Fields(results, dataType).value.Dict? ==>
      DistinctKeys(Fields(results, dataType).value.entries)
    ensures NoDuplicates(TypesTasks(results, dataTypes).value)
    ensures |TypesTasks(results, dataTypes).value| == TypesTotal(results, dataTypes)
  {
    if dataTypes != [] {
      var init, last := dataTypes[..|dataTypes| - 1], dataTypes[|dataTypes| - 1];
      TypesTasksOnce(results, init);
      var prev := TypesTasks(results, init).value;
      var names := FieldNames(results, last);
      assert TypeTasks(results, last) == FieldTasks(results, last, names);
      LevelKeysDistinct(Fields(results, last).value);
      FieldTasksOnce(results, last, names);
      var part := TypeTasks(results, last).value;
      assert TypesTasks(results, dataTypes).value == prev + part;
      assert last !in init;
      forall x | x in prev ensures x !in part {
        TypesTasksExact(results, init);
        FieldTasksExact(results, last, names);
      }
      NoDuplicatesConcat(prev, part);
    }
  }

  /** On a manifest whose dicts have distinct keys (every parsed JSON
      document), `main`'s task list names each partition exactly once: no
      task repeats, and there are as many tasks as partitions. */
  lemma TasksOnce(manifest: Value)
    requires Tasks(manifest).Ok? && LevelsDistinct(manifest)
    ensures NoDuplicates(Tasks(manifest).value)
    ensures |Tasks(manifest).value| == TypesTotal(Results(manifest).value, LevelKeys(Results(manifest).value).value)
  {
    var results := Results(manifest).value;
    LevelKeysDistinct(results);
    TypesTasksOnce(results, LevelKeys(results).value);
  }

  /** The innermost loop: `for partition_index in range(len(partitions))`. */
  method AppendPartitions(list: seq<Task>, dataType: string, fieldName: string, count: nat) returns (out: seq<Task>)
    ensures out == list + Partitions(dataType, fieldName, count)
  {
    out := list;
    var i := 0;
    while i < count
      invariant 0 <= i <= count
      invariant out == list + Partitions(dataType, fieldName, i)
    {
      out := out + [Task(dataType, fieldName, i)];
      i := i + 1;
    }
  }

  /** The two inner loops for one data type: every field, every partition. */
  method CollectType(res: Value, dataType: string) returns (r: Result<seq<Task>>)
    ensures r == TypeTasks(res, dataType)
  {
    var fields := Fields(res, dataType);
    var fieldKeys := if fields.Some? then LevelKeys(fields.value) else None;
    if fieldKeys.None? {
      return Err(Malformed);
    }
    var names := fieldKeys.value;
    var list: seq<Task> := [];
    var b := 0;
    assert names[..0] == [];
    while b < |names|
      invariant 0 <= b <= |names|
      invariant FieldTasks(res, dataType, names[..b]) == Ok(list)
    {
      assert names[..b + 1][..b] == names[..b];
      var count := PartitionCount(res, dataType, names[b]);
      if count.None? {
        FieldTasksErrExtends(res, dataType, names, b + 1);
        return Err(Malformed);
      }
      list := AppendPartitions(list, dataType, names[b], count.value);
      b := b + 1;
    }
    assert names[..b] == names;
    return Ok(list);
  }

  /** `main`'s loops: one task per partition index of every field of every
      data type, appended in manifest order, or `Malformed` as soon as a level
      cannot be walked. */
  method BuildTasks(manifest: Value) returns (r: Result<seq<Task>>)
    ensures r == Tasks(manifest)
  {
    var results := Results(manifest);
    if results.None? {
      return Err(Malformed);
    }
    var res := results.value;
    var keys := LevelKeys(res);
    if keys.None? {
      return Err(Malformed);
    }
    var dataTypes := keys.value;
    var list: seq<Task> := [];
    var a := 0;
    while a < |dataTypes|
      invariant 0 <= a <= |dataTypes|
      invariant TypesTasks(res, dataTypes[..a]) == Ok(list)
    {
      assert dataTypes[..a + 1][..a] == dataTypes[..a];
      var ts := CollectType(res, dataTypes[a]);
      if ts.Err? {
        TypesTasksErrExtends(res, dataTypes, a + 1);
        return Err(Malformed);
      }
      list := list + ts.value;
      a := a + 1;
    }
    assert dataTypes[..a] == dataTypes;
    return Ok(list);
  }
}
