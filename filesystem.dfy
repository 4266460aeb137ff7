/** The part of the file system the download stage touches: files under the
    download root (path to contents), the directories it creates, and the
    temporary files in the system temporary directory, which get fresh numbers
    as `tempfile` gives them fresh names. Every change is one `Op`, so a run of
    the worker is a trace of them and every prefix of a trace is a state an
    interrupted run can leave behind. */
module FileSystem {

  datatype FsState = FsState(files: map<string, string>, dirs: set<string>, temps: map<nat, string>, nextTemp: nat)

  /** Temporary names handed out so far are below `nextTemp`. */
  predicate Valid(s: FsState)
  {
    forall t :: t in s.temps ==> t < s.nextTemp
  }

  datatype Op =
    | MakeDirs(dir: string)                 // mkdir(parents=True, exist_ok=True)
    | CreateTemp                            // NamedTemporaryFile(delete=False) / mkstemp: a fresh empty file
    | AppendTemp(temp: nat, chunk: string)  // one write of a body chunk
    | RemoveTemp(temp: nat)                 // os.unlink
    | Rename(temp: nat, dest: string)       // os.rename: one atomic replacement
    | Truncate(dest: string)                // open(dest, 'wb') or open(dest, 'w'): emptied or created
    | CopyTemp(temp: nat, dest: string)     // the bytes of the copy
    | WriteText(path: string, text: string) // f.write(text) on a file just opened with 'w'

  function Apply(s: FsState, op: Op): FsState
  {
    match op
    case MakeDirs(d) => s.(dirs := s.dirs + {d})
    case CreateTemp => s.(temps := s.temps[s.nextTemp := ""], nextTemp := s.nextTemp + 1)
    case AppendTemp(t, c) => if t in s.temps then s.(temps := s.temps[t := s.temps[t] + c]) else s
    case RemoveTemp(t) => s.(temps := s.temps - {t})
    case Rename(t, d) => if t in s.temps then s.(files := s.files[d := s.temps[t]], temps := s.temps - {t}) else s
    case Truncate(d) => s.(files := s.files[d := ""])
    case CopyTemp(t, d) => if t in s.temps then s.(files := s.files[d := s.temps[t]]) else s
    case WriteText(p, text) => s.(files := s.files[p := text])
  }

  /** The state after the operations in order. */
  function Run(s: FsState, ops: seq<Op>): FsState
  {
    if ops == [] then s else Apply(Run(s, ops[..|ops| - 1]), ops[|ops| - 1])
  }

  lemma RunSnoc(s: FsState, ops: seq<Op>, op: Op)
    ensures Run(s, ops + [op]) == Apply(Run(s, ops), op)
  {
    assert (ops + [op])[..|ops|] == ops;
  }

  lemma {:induction false} RunAppend(s: FsState, a: seq<Op>, b: seq<Op>)
    ensures Run(s, a + b) == Run(Run(s, a), b)
    decreases |b|
  {
    if b == [] {
      assert a + b == a;
    } else {
      var b' := b[..|b| - 1];
      assert a + b == (a + b') + [b[|b| - 1]];
      RunSnoc(s, a + b', b[|b| - 1]);
      RunAppend(s, a, b');
      RunSnoc(Run(s, a), b', b[|b| - 1]);
      assert b == b' + [b[|b| - 1]];
    }
  }

  /** Operations never remove a file from the download tree, never lower the
      temporary counter, and keep the state valid. */
  lemma ApplyKeeps(s: FsState, op: Op)
    requires Valid(s)
    ensures Valid(Apply(s, op))
    ensures s.files.Keys <= Apply(s, op).files.Keys
    ensures s.nextTemp <= Apply(s, op).nextTemp
  {
  }

  /** The disk as an object the worker changes step by step. */
  class Disk {
    var files: map<string, string>
    var dirs: set<string>
    var temps: map<nat, string>
    var nextTemp: nat

    function State(): FsState
      reads this
    {
      FsState(files, dirs, temps, nextTemp)
    }

    constructor (s: FsState)
      ensures State() == s
    {
      files, dirs, temps, nextTemp := s.files, s.dirs, s.temps, s.nextTemp;
    }

    method MakeDirs(dir: string)
      modifies this
      ensures State() == Apply(old(State()), Op.MakeDirs(dir))
    {
      dirs := dirs + {dir};
    }

    method CreateTemp() returns (t: nat)
      modifies this
      ensures t == old(nextTemp)
      ensures State() == Apply(old(State()), Op.CreateTemp)
    {
      t := nextTemp;
      temps := temps[t := ""];
      nextTemp := nextTemp + 1;
    }

    method AppendTemp(t: nat, chunk: string)
      modifies this
      ensures State() == Apply(old(State()), Op.AppendTemp(t, chunk))
    {
      if t in temps {
        temps := temps[t := temps[t] + chunk];
      }
    }

    /** `if os.path.exists(tmp): os.unlink(tmp)`. */
    method RemoveTemp(t: nat)
      modifies this
      ensures State() == Apply(old(State()), Op.RemoveTemp(t))
    {
      temps := temps - {t};
    }

    /** `shutil.move(tmp, dest)`: one rename when the temporary directory is on
        the same device as `dest`; otherwise a copy into `dest` (truncate, then
        write) followed by removing the temporary file. */
    method Move(t: nat, dest: string, sameDevice: bool)
      modifies this
      ensures State() == Run(old(State()), MoveOps(t, dest, sameDevice))
    {
      ghost var s0 := State();
      if sameDevice {
        if t in temps {
          files := files[dest := temps[t]];
          temps := temps - {t};
        }
        assert Run(s0, [Op.Rename(t, dest)]) == Apply(Run(s0, []), Op.Rename(t, dest));
      } else {
        files := files[dest := ""];
        ghost var s1 := State();
        if t in temps {
          files := files[dest := temps[t]];
        }
        ghost var s2 := State();
        temps := temps - {t};
        var ops := MoveOps(t, dest, sameDevice);
        assert ops[..2][..1] == [Op.Truncate(dest)] && ops[..2] == [Op.Truncate(dest), Op.CopyTemp(t, dest)];
        assert Run(s0, ops[..2][..1]) == s1;
        assert Run(s0, ops[..2]) == s2;
      }
    }

    /** `open(path, 'w')`: the file is emptied, or created empty. */
    method Truncate(path: string)
      modifies this
      ensures State() == Apply(old(State()), Op.Truncate(path))
    {
      files := files[path := ""];
    }

    method WriteText(path: string, text: string)
      modifies this
      ensures State() == Apply(old(State()), Op.WriteText(path, text))
    {
      files := files[path := text];
    }
  }

  /** The operations `shutil.move` performs. */
  function MoveOps(t: nat, dest: string, sameDevice: bool): seq<Op>
  {
    if sameDevice then [Rename(t, dest)] else [Truncate(dest), CopyTemp(t, dest), RemoveTemp(t)]
  }
}
