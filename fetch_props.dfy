/** What the download worker promises, proved about its plan: when it sends a
    request and with which header, what each answer of the server leaves on
    disk, that the artifact and its marker are replaced in that order, and
    that a second run after a download skips. */
module FetchProperties {
  import opened Wrappers
  import opened Text
  import opened PyValues
  import opened Dates
  import opened Targets
  import opened FileSystem
  import opened Fetch
  import Manifest
  import Summary

  /** The answer stores a body: a response that is neither 304 nor an error
      status, delivered without an exception. */
  predicate Committed(v: Variant, ex: Exchange)
  {
    ex.Response? && ex.status != 304 && !RaisesStatus(v, ex.status) && ex.interruption.None?
  }

  /** The exception an answer makes the worker handle, if any. */
  function FailureOf(v: Variant, ex: Exchange, statusMessage: int -> string): Option<Failure>
  {
    match ex
    case Refused(f) => Some(f)
    case Response(status, _, _, interruption) =>
      if status == 304 then None
      else if RaisesStatus(v, status) then Some(Transport(statusMessage(status)))
      else interruption
  }

  /** A one-operation trace. Kept apart, like the next three, so that the
      larger proofs that call it get this one fact without unfolding `Run`
      or sequence and map equality in their own, much bigger, contexts. */
  lemma RunOne(s: FsState, op: Op)
    ensures Run(s, [op]) == Apply(s, op)
  {
    assert [op][..0] == [];
  }

  /** Overwriting a map entry twice keeps only the second value. */
  lemma UpdateTwice<K, V>(m: map<K, V>, k: K, a: V, b: V)
    ensures m[k := a][k := b] == m[k := b]
  {
  }

  /** Regrouping the pieces of a trace. */
  lemma Assoc<T>(a: seq<T>, b: seq<T>, c: seq<T>)
    ensures (a + b) + c == a + (b + c)
  {
  }

  /** The first two operations of a trace as one prefix. */
  lemma PairPrefix<T>(a: T, b: T, rest: seq<T>)
    ensures [a] + ([b] + rest) == [a, b] + rest
  {
  }

  /** Writing the chunks appends the whole body to the temporary file and
      changes nothing else, whether or not empty chunks are dropped. */
  lemma {:induction false} WriteOpsBody(s: FsState, v: Variant, tmp: nat, chunks: seq<string>)
    requires tmp in s.temps
    ensures Run(s, WriteOps(v, tmp, chunks)) == s.(temps := s.temps[tmp := s.temps[tmp] + Body(chunks)])
    decreases |chunks|
  {
    if chunks == [] {
      assert s.temps[tmp] + Body(chunks) == s.temps[tmp];
      assert s.temps[tmp := s.temps[tmp]] == s.temps;
    } else {
      var init := chunks[..|chunks| - 1];
      var last := chunks[|chunks| - 1];
      var extra := if Writes(v, last) then [AppendTemp(tmp, last)] else [];
      assert WriteOps(v, tmp, chunks) == WriteOps(v, tmp, init) + extra;
      assert Body(chunks) == Body(init) + last;
      WriteOpsBody(s, v, tmp, init);
      RunAppend(s, WriteOps(v, tmp, init), extra);
      var mid := s.(temps := s.temps[tmp := s.temps[tmp] + Body(init)]);
      assert Run(s, WriteOps(v, tmp, chunks)) == Run(mid, extra);
      if Writes(v, last) {
        var before := s.temps[tmp];
        var written := before + Body(init);
        assert mid.temps[tmp] == written;
        RunOne(mid, AppendTemp(tmp, last));
        assert Apply(mid, AppendTemp(tmp, last)) == mid.(temps := mid.temps[tmp := written + last]);
        Assoc(before, Body(init), last);
        UpdateTwice(s.temps, tmp, written, written + last);
      } else {
        assert last == "";
        assert Body(chunks) == Body(init);
        assert Run(mid, []) == mid;
      }
    }
  }

  /** Dropping empty keep-alive chunks writes the same file as writing them. */
  lemma FilteringKeepsBody(s: FsState, tmp: nat, chunks: seq<string>)
    requires tmp in s.temps
    ensures Run(s, WriteOps(Threaded, tmp, chunks)) == Run(s, WriteOps(Async, tmp, chunks))
  {
    WriteOpsBody(s, Threaded, tmp, chunks);
    WriteOpsBody(s, Async, tmp, chunks);
  }

  /** `shutil.move` ends with the temporary file's contents at `dest` and the
      temporary file gone, by rename or by copy. */
  lemma MoveResult(s: FsState, tmp: nat, dest: string, sameDevice: bool)
    requires tmp in s.temps
    ensures Run(s, MoveOps(tmp, dest, sameDevice)) ==
      s.(files := s.files[dest := s.temps[tmp]], temps := s.temps - {tmp})
  {
    var ops := MoveOps(tmp, dest, sameDevice);
    if sameDevice {
      RunOne(s, ops[0]);
    } else {
      assert ops[..2][..1] == [Truncate(dest)];
      assert ops[..2] == [Truncate(dest), CopyTemp(tmp, dest)];
      RunOne(s, Truncate(dest));
      assert s.files[dest := ""][dest := s.temps[tmp]] == s.files[dest := s.temps[tmp]];
    }
  }

  /** The state after the directory is made and the temporary file created. */
  lemma HeadState(s: FsState, dir: string)
    ensures Run(s, [MakeDirs(dir), CreateTemp]) ==
      s.(dirs := s.dirs + {dir}, temps := s.temps[s.nextTemp := ""], nextTemp := s.nextTemp + 1)
  {
    var ops := [MakeDirs(dir), CreateTemp];
    assert ops[..1] == [MakeDirs(dir)];
    RunOne(s, MakeDirs(dir));
  }

  /** The plan of a worker that sends a request, taken apart: the request,
      the operations and the outcome. */
  lemma RequestShape(plan: Plan, v: Variant, placement: TempPlacement, t: Target, e: Entry,
                     s: FsState, host: Host, p: Parsers)
    returns (tr: Transfer)
    requires plan == PlanEntry(v, placement, t, e, s, host, p) && plan.request.Get?
    ensures !(Previous(s, t).Some? && UpToDate(Previous(s, t).value, e.exportDate, p))
    ensures plan.request == Get(e.url, Header(Previous(s, t)))
    ensures tr == TransferOf(v, SameDevice(placement, host), t, s.nextTemp, host.answer(e.url, plan.request.ifModifiedSince), host.statusMessage)
    ensures plan.ops == [MakeDirs(DownloadDir(t)), CreateTemp] + tr.ops
    ensures tr.ending.Ended? ==> plan.outcome == tr.ending.outcome
    ensures tr.ending.Stored? ==> plan.outcome == StoredOutcome(v, t.fileName, FileSize(Run(s, plan.ops), ArtifactPath(t)))
  {
    var previous := Previous(s, t);
    var mkdir := MakeDirs(DownloadDir(t));
    var s1 := Apply(s, mkdir);
    assert s1.nextTemp == s.nextTemp;
    var rest := PlanRequest(v, SameDevice(placement, host), t, e.url, Header(previous), s1, host);
    assert plan == Plan([mkdir] + rest.ops, rest.request, rest.outcome);
    tr := TransferOf(v, SameDevice(placement, host), t, s.nextTemp, host.answer(e.url, Header(previous)), host.statusMessage);
    assert rest.ops == [CreateTemp] + tr.ops;
    PairPrefix(mkdir, CreateTemp, tr.ops);
    RunOne(s, mkdir);
    RunAppend(s, [mkdir], rest.ops);
    assert Run(s1, rest.ops) == Run(s, plan.ops);
  }

  /** The plan of a worker that sends no request: it skipped on the marker,
      after making the directory and nothing else. */
  lemma SkipShape(plan: Plan, v: Variant, placement: TempPlacement, t: Target, e: Entry,
                  s: FsState, host: Host, p: Parsers)
    requires plan == PlanEntry(v, placement, t, e, s, host, p) && !plan.request.Get?
    ensures Previous(s, t).Some? && UpToDate(Previous(s, t).value, e.exportDate, p)
    ensures plan.ops == [MakeDirs(DownloadDir(t))]
    ensures plan.outcome == Returned("Skipped " + t.fileName + " (up to date)")
  {
  }

  /** The worker raises exactly when reading its manifest entry fails, and
      then it has sent nothing and touched nothing; otherwise it runs the plan
      for that entry and the target its URL names. */
  lemma LookupRule(plan: Plan, v: Variant, placement: TempPlacement, manifest: Value, task: Manifest.Task,
                   s: FsState, host: Host, p: Parsers)
    requires plan == PlanDownload(v, placement, manifest, task, s, host, p)
    ensures plan.outcome.Raised? <==> EntryOf(manifest, task).None?
    ensures plan.outcome.Raised? ==> plan.ops == [] && plan.request == NoRequest
    ensures EntryOf(manifest, task).Some? ==>
      plan == PlanEntry(v, placement, Resolve(task.dataType, EntryOf(manifest, task).value.url), EntryOf(manifest, task).value, s, host, p)
  {
    match EntryOf(manifest, task)
    case None =>
    case Some(e) =>
      ReportKinds(plan, v, placement, Resolve(task.dataType, e.url), e, s, host, p);
  }

  /** Every report the exchange decides begins with one of those words. */
  lemma EndingKinds(v: Variant, sameDevice: bool, t: Target, tmp: nat, ex: Exchange, statusMessage: int -> string)
    ensures var tr := TransferOf(v, sameDevice, t, tmp, ex, statusMessage);
      tr.ending.Ended? ==>
        tr.ending.outcome.Returned? &&
        (Summary.Is(Summary.SkippedKind, tr.ending.outcome.report) || Summary.Is(Summary.FailedKind, tr.ending.outcome.report))
  {
    match FailureOf(v, ex, statusMessage)
    case None =>
      Leads();
      Lead3("Skipped", "Skipped ", t.fileName, " (not modified)");
    case Some(f) =>
      assert TransferOf(v, sameDevice, t, tmp, ex, statusMessage).ending == Abort(v, t.fileName, tmp, f).ending;
      Leads();
      match f
      case Transport(m) => Lead4("Failed", "Failed ", t.fileName, ": ", m);
      case Unexpected(m) =>
        if v == Threaded {
          Lead4("Error", "Error processing ", t.fileName, ": ", m);
        } else {
          Lead4("Error", "Error ", t.fileName, ": ", m);
        }
  }

  /** So does the report after a stored body. */
  lemma StoredKinds(v: Variant, fileName: string, size: nat)
    ensures StoredOutcome(v, fileName, size).Returned?
    ensures v == Threaded ==> Summary.Is(Summary.FailedKind, StoredOutcome(v, fileName, size).report)
    ensures v == Async ==> Summary.Is(Summary.DownloadedKind, StoredOutcome(v, fileName, size).report)
  {
    Leads();
    if v == Threaded {
      Lead4("Error", "Error processing ", fileName, ": ", ContentConsumed);
    } else {
      Lead4("Downloaded", "Downloaded ", fileName, " (", NatToString(size));
      Extend("Downloaded " + fileName + " (" + NatToString(size), " bytes)", "Downloaded");
    }
  }

  /** A report the download summary sorts into one of its categories, and
      into `Downloaded` only in the async program. */
  predicate Classified(v: Variant, o: Outcome)
  {
    o.Returned? && Summary.DownloadReport(o.report) && (Summary.Is(Summary.DownloadedKind, o.report) ==> v == Async)
  }

  lemma EndingClassified(v: Variant, sameDevice: bool, t: Target, tmp: nat, ex: Exchange, statusMessage: int -> string)
    requires TransferOf(v, sameDevice, t, tmp, ex, statusMessage).ending.Ended?
    ensures Classified(v, TransferOf(v, sameDevice, t, tmp, ex, statusMessage).ending.outcome)
  {
    EndingKinds(v, sameDevice, t, tmp, ex, statusMessage);
    NotDownloaded(TransferOf(v, sameDevice, t, tmp, ex, statusMessage).ending.outcome.report);
  }

  lemma StoredClassified(v: Variant, fileName: string, size: nat)
    ensures Classified(v, StoredOutcome(v, fileName, size))
  {
    StoredKinds(v, fileName, size);
    var r := StoredOutcome(v, fileName, size).report;
    if v == Threaded && Summary.Is(Summary.DownloadedKind, r) {
      Summary.Exclusive(Summary.FailedKind, Summary.DownloadedKind, r);
    }
  }

  lemma SkipClassified(v: Variant, fileName: string)
    ensures Classified(v, Returned("Skipped " + fileName + " (up to date)"))
  {
    Leads();
    Lead3("Skipped", "Skipped ", fileName, " (up to date)");
    NotDownloaded("Skipped " + fileName + " (up to date)");
  }

  /** Every report begins with one of the words the summary sorts by, and
      only the async program ever reports `Downloaded`. */
  lemma ReportKinds(plan: Plan, v: Variant, placement: TempPlacement, t: Target, e: Entry,
                    s: FsState, host: Host, p: Parsers)
    requires plan == PlanEntry(v, placement, t, e, s, host, p)
    ensures Classified(v, plan.outcome)
  {
    if plan.request.Get? {
      var tr := RequestShape(plan, v, placement, t, e, s, host, p);
      if tr.ending.Stored? {
        StoredClassified(v, t.fileName, FileSize(Run(s, plan.ops), ArtifactPath(t)));
      } else {
        EndingClassified(v, SameDevice(placement, host), t, s.nextTemp, host.answer(e.url, plan.request.ifModifiedSince), host.statusMessage);
      }
    } else {
      SkipShape(plan, v, placement, t, e, s, host, p);
      SkipClassified(v, t.fileName);
    }
  }

  /** A skip or a failure is not counted as a download. */
  lemma NotDownloaded(r: string)
    requires Summary.Is(Summary.SkippedKind, r) || Summary.Is(Summary.FailedKind, r)
    ensures !Summary.Is(Summary.DownloadedKind, r)
  {
    if Summary.Is(Summary.DownloadedKind, r) {
      if Summary.Is(Summary.SkippedKind, r) {
        Summary.Exclusive(Summary.SkippedKind, Summary.DownloadedKind, r);
      } else {
        Summary.Exclusive(Summary.FailedKind, Summary.DownloadedKind, r);
      }
    }
  }

  /** The leading words of the report formats. */
  lemma Leads()
    ensures StartsWith("Skipped ", "Skipped") && StartsWith("Failed ", "Failed") && StartsWith("Error ", "Error")
    ensures StartsWith("Error processing ", "Error") && StartsWith("Downloaded ", "Downloaded")
  {
    assert "Skipped "[..7] == "Skipped";
    assert "Failed "[..6] == "Failed";
    assert "Error "[..5] == "Error";
    assert "Error processing "[..5] == "Error";
    assert "Downloaded "[..10] == "Downloaded";
  }

  lemma {:induction false} RunKeepsValid(s: FsState, ops: seq<Op>)
    requires Valid(s)
    ensures Valid(Run(s, ops))
    decreases |ops|
  {
    if ops != [] {
      RunKeepsValid(s, ops[..|ops| - 1]);
      ApplyKeeps(Run(s, ops[..|ops| - 1]), ops[|ops| - 1]);
    }
  }

  /** The paths of the download tree an operation writes. */
  function FilesTouched(op: Op): set<string>
  {
    match op
    case Rename(_, dest) => {dest}
    case Truncate(dest) => {dest}
    case CopyTemp(_, dest) => {dest}
    case WriteText(path, _) => {path}
    case _ => {}
  }

  predicate Confined(ops: seq<Op>, paths: set<string>)
  {
    forall k :: 0 <= k < |ops| ==> FilesTouched(ops[k]) <= paths
  }

  /** Operations that write only inside `paths` leave every other file as it
      was. */
  lemma {:induction false} RunConfined(s: FsState, ops: seq<Op>, paths: set<string>)
    requires Confined(ops, paths)
    ensures Run(s, ops).files - paths == s.files - paths
    decreases |ops|
  {
    if ops != [] {
      var init := ops[..|ops| - 1];
      assert Confined(init, paths);
      RunConfined(s, init, paths);
      var mid := Run(s, init);
      var op := ops[|ops| - 1];
      assert FilesTouched(op) <= paths;
      assert Apply(mid, op).files - paths == mid.files - paths;
    }
  }

  lemma ConfinedAppend(a: seq<Op>, b: seq<Op>, paths: set<string>)
    requires Confined(a, paths) && Confined(b, paths)
    ensures Confined(a + b, paths)
  {
    forall k | 0 <= k < |a + b| ensures FilesTouched((a + b)[k]) <= paths {
      if k >= |a| { assert (a + b)[k] == b[k - |a|]; }
    }
  }

  /** The same for every state on the way. */
  lemma PrefixConfined(s: FsState, ops: seq<Op>, paths: set<string>, k: nat)
    requires Confined(ops, paths) && k <= |ops|
    ensures Run(s, ops[..k]).files - paths == s.files - paths
  {
    assert Confined(ops[..k], paths);
    RunConfined(s, ops[..k], paths);
  }

  /** From the request on, only the artifact and the marker are written, and
      neither unless the body is stored. */
  lemma TransferConfined(v: Variant, sameDevice: bool, t: Target, tmp: nat, ex: Exchange, statusMessage: int -> string)
    ensures Confined(TransferOf(v, sameDevice, t, tmp, ex, statusMessage).ops, {ArtifactPath(t), MarkerPath(t)})
    ensures !Committed(v, ex) ==> Confined(TransferOf(v, sameDevice, t, tmp, ex, statusMessage).ops, {})
  {
    var art, mark := ArtifactPath(t), MarkerPath(t);
    match ex
    case Refused(f) =>
    case Response(status, lm, chunks, interruption) =>
      if status != 304 && !RaisesStatus(v, status) {
        var writes := WriteOps(v, tmp, chunks);
        assert Confined(writes, {});
        if interruption.None? {
          var move := MoveOps(tmp, art, sameDevice);
          assert Confined(writes, {art, mark});
          assert Confined(move, {art, mark});
          assert Confined(MarkerOps(mark, lm), {art, mark});
          ConfinedAppend(writes, move, {art, mark});
          ConfinedAppend(writes + move, MarkerOps(mark, lm), {art, mark});
        } else {
          var a := Abort(v, t.fileName, tmp, interruption.value);
          assert Confined(a.ops, {});
          ConfinedAppend(writes, a.ops, {});
          assert Confined(writes, {art, mark}) && Confined(a.ops, {art, mark});
          ConfinedAppend(writes, a.ops, {art, mark});
        }
      }
  }

  lemma HeadConfined(dir: string, paths: set<string>)
    ensures Confined([MakeDirs(dir), CreateTemp], paths)
    ensures Confined([MakeDirs(dir)], paths)
  {
  }

  /** The worker's operations write the artifact and the marker and no other
      file; unless the body is stored they write no file at all. */
  lemma PlanConfined(plan: Plan, v: Variant, placement: TempPlacement, t: Target, e: Entry,
                     s: FsState, host: Host, p: Parsers)
    requires plan == PlanEntry(v, placement, t, e, s, host, p)
    ensures Confined(plan.ops, {ArtifactPath(t), MarkerPath(t)})
    ensures plan.request.Get? && !Committed(v, host.answer(e.url, plan.request.ifModifiedSince)) ==> Confined(plan.ops, {})
  {
    var paths := {ArtifactPath(t), MarkerPath(t)};
    var head := [MakeDirs(DownloadDir(t)), CreateTemp];
    HeadConfined(DownloadDir(t), paths);
    HeadConfined(DownloadDir(t), {});
    if plan.request.Get? {
      var tr := RequestShape(plan, v, placement, t, e, s, host, p);
      var ex := host.answer(e.url, plan.request.ifModifiedSince);
      TransferConfined(v, SameDevice(placement, host), t, s.nextTemp, ex, host.statusMessage);
      ConfinedAppend(head, tr.ops, paths);
      if !Committed(v, ex) {
        ConfinedAppend(head, tr.ops, {});
      }
    } else {
      SkipShape(plan, v, placement, t, e, s, host, p);
    }
  }

  /** Every state the worker passes through, including the one an
      interruption leaves behind, differs from the start at most in the
      artifact and the marker; when the body is not stored, in nothing. */
  lemma NothingElseChanges(plan: Plan, v: Variant, placement: TempPlacement, t: Target, e: Entry,
                           s: FsState, host: Host, p: Parsers)
    requires plan == PlanEntry(v, placement, t, e, s, host, p)
    ensures forall k :: 0 <= k <= |plan.ops| ==>
      Run(s, plan.ops[..k]).files - {ArtifactPath(t), MarkerPath(t)} == s.files - {ArtifactPath(t), MarkerPath(t)}
    ensures plan.request.Get? && !Committed(v, host.answer(e.url, plan.request.ifModifiedSince)) ==>
      forall k :: 0 <= k <= |plan.ops| ==> Run(s, plan.ops[..k]).files == s.files
  {
    var paths := {ArtifactPath(t), MarkerPath(t)};
    PlanConfined(plan, v, placement, t, e, s, host, p);
    forall k | 0 <= k <= |plan.ops|
      ensures Run(s, plan.ops[..k]).files - paths == s.files - paths
    {
      PrefixConfined(s, plan.ops, paths, k);
    }
    if plan.request.Get? && !Committed(v, host.answer(e.url, plan.request.ifModifiedSince)) {
      forall k | 0 <= k <= |plan.ops|
        ensures Run(s, plan.ops[..k]).files == s.files
      {
        PrefixConfined(s, plan.ops, {}, k);
        NothingRemoved(Run(s, plan.ops[..k]).files);
        NothingRemoved(s.files);
      }
    }
  }

  lemma NothingRemoved(m: map<string, string>)
    ensures m - {} == m
  {
  }

  /** The skip rule: no request is sent exactly when the marker and the
      artifact both exist and the stripped marker is strictly later than the
      export date; a skip reports `Skipped` and changes no file. */
  lemma SkipRule(plan: Plan, v: Variant, placement: TempPlacement, t: Target, e: Entry,
                 s: FsState, host: Host, p: Parsers)
    requires plan == PlanEntry(v, placement, t, e, s, host, p)
    ensures plan.request == NoRequest <==>
      MarkerPath(t) in s.files && ArtifactPath(t) in s.files && UpToDate(Strip(s.files[MarkerPath(t)]), e.exportDate, p)
    ensures plan.request == NoRequest ==>
      plan.outcome == Returned("Skipped " + t.fileName + " (up to date)") &&
      Run(s, plan.ops).files == s.files && Run(s, plan.ops).temps == s.temps
  {
    if plan.request.Get? {
      var tr := RequestShape(plan, v, placement, t, e, s, host, p);
    } else {
      SkipShape(plan, v, placement, t, e, s, host, p);
      RunOne(s, MakeDirs(DownloadDir(t)));
    }
  }

  /** The conditional header: `If-Modified-Since` is sent exactly when the
      marker and the artifact exist and the stripped marker is not empty, and
      it carries the stripped marker. */
  lemma HeaderRule(plan: Plan, v: Variant, placement: TempPlacement, t: Target, e: Entry,
                   s: FsState, host: Host, p: Parsers)
    requires plan == PlanEntry(v, placement, t, e, s, host, p) && plan.request.Get?
    ensures plan.request.url == e.url
    ensures plan.request.ifModifiedSince.Some? <==>
      MarkerPath(t) in s.files && ArtifactPath(t) in s.files && Strip(s.files[MarkerPath(t)]) != ""
    ensures plan.request.ifModifiedSince.Some? ==> plan.request.ifModifiedSince.value == Strip(s.files[MarkerPath(t)])
  {
    var tr := RequestShape(plan, v, placement, t, e, s, host, p);
  }

  /** The fresh temporary file is gone again: the temporaries are as before. */
  lemma FreshRemoved(s: FsState, contents: string)
    requires Valid(s)
    ensures s.temps[s.nextTemp := contents] - {s.nextTemp} == s.temps
  {
    assert s.nextTemp !in s.temps;
  }

  /** 304 Not Modified: the temporary file is removed, no file changes, and
      the worker reports `Skipped`. */
  lemma NotModified(plan: Plan, v: Variant, placement: TempPlacement, t: Target, e: Entry,
                    s: FsState, host: Host, p: Parsers)
    requires plan == PlanEntry(v, placement, t, e, s, host, p) && plan.request.Get? && Valid(s)
    requires host.answer(e.url, plan.request.ifModifiedSince).Response?
    requires host.answer(e.url, plan.request.ifModifiedSince).status == 304
    ensures Run(s, plan.ops).files == s.files && Run(s, plan.ops).temps == s.temps
    ensures plan.outcome == Returned("Skipped " + t.fileName + " (not modified)")
  {
    var tr := RequestShape(plan, v, placement, t, e, s, host, p);
    var head := [MakeDirs(DownloadDir(t)), CreateTemp];
    HeadState(s, DownloadDir(t));
    RunAppend(s, head, tr.ops);
    RunOne(Run(s, head), RemoveTemp(s.nextTemp));
    FreshRemoved(s, "");
  }

  /** The download tree after a stored body: the artifact holds the body,
      and the marker holds `Last-Modified` when the server sent a non-empty
      one; everything else is as before. */
  function StoredFiles(files: map<string, string>, t: Target, body: string, lastModified: Option<string>): map<string, string>
  {
    var withArtifact := files[ArtifactPath(t) := body];
    if lastModified.Some? && lastModified.value != "" then withArtifact[MarkerPath(t) := lastModified.value] else withArtifact
  }

  /** The artifact of the stored tree holds the body. */
  lemma StoredArtifact(files: map<string, string>, t: Target, body: string, lastModified: Option<string>)
    ensures ArtifactPath(t) in StoredFiles(files, t, body, lastModified)
    ensures StoredFiles(files, t, body, lastModified)[ArtifactPath(t)] == body
  {
    MarkerBesideArtifact(t);
  }

  /** The operations of an exchange that stores its body. */
  lemma CommittedOps(v: Variant, sameDevice: bool, t: Target, tmp: nat, ex: Exchange, statusMessage: int -> string)
    requires Committed(v, ex)
    ensures TransferOf(v, sameDevice, t, tmp, ex, statusMessage) ==
      Transfer(WriteOps(v, tmp, ex.chunks) + MoveOps(tmp, ArtifactPath(t), sameDevice) + MarkerOps(MarkerPath(t), ex.lastModified), Stored)
  {
  }

  /** Writing, moving and marking, from the state after the temporary file
      was created. */
  lemma MovedTrace(s2: FsState, v: Variant, sameDevice: bool, t: Target, tmp: nat, chunks: seq<string>)
    requires tmp in s2.temps && s2.temps[tmp] == ""
    ensures Run(s2, WriteOps(v, tmp, chunks) + MoveOps(tmp, ArtifactPath(t), sameDevice))
      == s2.(files := s2.files[ArtifactPath(t) := Body(chunks)], temps := s2.temps - {tmp})
  {
    var writes := WriteOps(v, tmp, chunks);
    var move := MoveOps(tmp, ArtifactPath(t), sameDevice);
    WriteOpsBody(s2, v, tmp, chunks);
    assert s2.temps[tmp] + Body(chunks) == Body(chunks);
    var s3 := s2.(temps := s2.temps[tmp := Body(chunks)]);
    assert Run(s2, writes) == s3;
    MoveResult(s3, tmp, ArtifactPath(t), sameDevice);
    RunAppend(s2, writes, move);
    UpdateTwice(s2.temps, tmp, "", Body(chunks));
    assert s3.temps - {tmp} == s2.temps - {tmp};
  }

  lemma StoreTrace(s2: FsState, v: Variant, sameDevice: bool, t: Target, tmp: nat, chunks: seq<string>, lastModified: Option<string>)
    requires tmp in s2.temps && s2.temps[tmp] == ""
    ensures Run(s2, WriteOps(v, tmp, chunks) + MoveOps(tmp, ArtifactPath(t), sameDevice) + MarkerOps(MarkerPath(t), lastModified))
      == s2.(files := StoredFiles(s2.files, t, Body(chunks), lastModified), temps := s2.temps - {tmp})
  {
    var writes := WriteOps(v, tmp, chunks);
    var move := MoveOps(tmp, ArtifactPath(t), sameDevice);
    var marker := MarkerOps(MarkerPath(t), lastModified);
    MovedTrace(s2, v, sameDevice, t, tmp, chunks);
    var s4 := s2.(files := s2.files[ArtifactPath(t) := Body(chunks)], temps := s2.temps - {tmp});
    RunAppend(s2, writes + move, marker);
    if marker != [] {
      MarkerTrace(s4, MarkerPath(t), lastModified.value);
    }
  }

  /** Opening the marker and writing it leaves just the written value. */
  lemma MarkerTrace(s: FsState, mark: string, text: string)
    ensures Run(s, [Truncate(mark)]) == s.(files := s.files[mark := ""])
    ensures Run(s, [Truncate(mark), WriteText(mark, text)]) == s.(files := s.files[mark := text])
  {
    RunOne(s, Truncate(mark));
    assert [Truncate(mark), WriteText(mark, text)] == [Truncate(mark)] + [WriteText(mark, text)];
    RunSnoc(s, [Truncate(mark)], WriteText(mark, text));
    UpdateTwice(s.files, mark, "", text);
  }

  /** A stored body: the artifact holds the body, the marker the
      `Last-Modified` value if one was sent, no temporary file is left, and the
      async program reports the body's size. */
  lemma Commit(plan: Plan, v: Variant, placement: TempPlacement, t: Target, e: Entry,
               s: FsState, host: Host, p: Parsers)
    requires plan == PlanEntry(v, placement, t, e, s, host, p) && plan.request.Get? && Valid(s)
    requires Committed(v, host.answer(e.url, plan.request.ifModifiedSince))
    ensures var ex := host.answer(e.url, plan.request.ifModifiedSince);
      Run(s, plan.ops).files == StoredFiles(s.files, t, Body(ex.chunks), ex.lastModified)
    ensures Run(s, plan.ops).temps == s.temps
    ensures v == Async ==>
      plan.outcome == Returned(DownloadedReport(t.fileName, |Body(host.answer(e.url, plan.request.ifModifiedSince).chunks)|))
    ensures v == Threaded ==> plan.outcome == Returned("Error processing " + t.fileName + ": " + ContentConsumed)
  {
    var ex := host.answer(e.url, plan.request.ifModifiedSince);
    var tr := RequestShape(plan, v, placement, t, e, s, host, p);
    var sameDevice := SameDevice(placement, host);
    CommittedOps(v, sameDevice, t, s.nextTemp, ex, host.statusMessage);
    var head := [MakeDirs(DownloadDir(t)), CreateTemp];
    HeadState(s, DownloadDir(t));
    var s2 := Run(s, head);
    RunAppend(s, head, tr.ops);
    StoreTrace(s2, v, sameDevice, t, s.nextTemp, ex.chunks, ex.lastModified);
    FreshRemoved(s, "");
    var files := StoredFiles(s.files, t, Body(ex.chunks), ex.lastModified);
    var final := Run(s, plan.ops);
    assert final == s2.(files := files, temps := s2.temps - {s.nextTemp});
    StoredArtifact(s.files, t, Body(ex.chunks), ex.lastModified);
    assert FileSize(final, ArtifactPath(t)) == |Body(ex.chunks)|;
  }

  /** The temporary file after the handler: removed, except in the threaded
      program on an exception outside the HTTP library's family. */
  lemma AbortState(s3: FsState, v: Variant, fileName: string, tmp: nat, f: Failure)
    ensures Run(s3, Abort(v, fileName, tmp, f).ops) ==
      if f.Unexpected? && v == Threaded then s3 else s3.(temps := s3.temps - {tmp})
  {
    if !(f.Unexpected? && v == Threaded) {
      RunOne(s3, RemoveTemp(tmp));
    }
  }

  /** What the handlers leave: the same files, and the temporary file
      removed, or kept (with whatever was written to it) when `leaked`. */
  predicate Handled(before: FsState, after: FsState, tmp: nat, leaked: bool)
  {
    after.files == before.files &&
    (if leaked then tmp in after.temps && after.temps - {tmp} == before.temps - {tmp}
     else after.temps == before.temps - {tmp})
  }

  /** The handler after part of the body was written. */
  lemma WrittenThenHandled(s2: FsState, v: Variant, fileName: string, tmp: nat, chunks: seq<string>, f: Failure)
    requires tmp in s2.temps
    ensures Handled(s2, Run(s2, WriteOps(v, tmp, chunks) + Abort(v, fileName, tmp, f).ops), tmp, f.Unexpected? && v == Threaded)
  {
    var writes := WriteOps(v, tmp, chunks);
    var a := Abort(v, fileName, tmp, f);
    WriteOpsBody(s2, v, tmp, chunks);
    RunAppend(s2, writes, a.ops);
    var s3 := s2.(temps := s2.temps[tmp := s2.temps[tmp] + Body(chunks)]);
    AbortState(s3, v, fileName, tmp, f);
    assert s3.temps - {tmp} == s2.temps - {tmp};
  }

  /** From the request on, when the worker handles an exception: no file
      changes, and the temporary file is removed unless the threaded program
      leaves it behind. */
  lemma AbortTrace(s2: FsState, v: Variant, sameDevice: bool, t: Target, tmp: nat, ex: Exchange,
                   statusMessage: int -> string, f: Failure)
    requires tmp in s2.temps && FailureOf(v, ex, statusMessage) == Some(f)
    ensures TransferOf(v, sameDevice, t, tmp, ex, statusMessage).ending == Abort(v, t.fileName, tmp, f).ending
    ensures Handled(s2, Run(s2, TransferOf(v, sameDevice, t, tmp, ex, statusMessage).ops), tmp, f.Unexpected? && v == Threaded)
  {
    var tr := TransferOf(v, sameDevice, t, tmp, ex, statusMessage);
    var a := Abort(v, t.fileName, tmp, f);
    if ex.Response? && ex.interruption.Some? && ex.status != 304 && !RaisesStatus(v, ex.status) {
      assert tr.ops == WriteOps(v, tmp, ex.chunks) + a.ops;
      WrittenThenHandled(s2, v, t.fileName, tmp, ex.chunks, f);
    } else {
      assert tr.ops == a.ops;
      AbortState(s2, v, t.fileName, tmp, f);
    }
  }

  /** An exception during the exchange: no file of the download tree
      changes. A transport exception removes the temporary file and reports
      `Failed`; any other exception does the same in the async program, with
      `Error`, while the threaded program reports `Error processing` and leaves
      the temporary file behind. */
  lemma Cleanup(plan: Plan, v: Variant, placement: TempPlacement, t: Target, e: Entry,
                s: FsState, host: Host, p: Parsers, f: Failure)
    requires plan == PlanEntry(v, placement, t, e, s, host, p) && plan.request.Get? && Valid(s)
    requires FailureOf(v, host.answer(e.url, plan.request.ifModifiedSince), host.statusMessage) == Some(f)
    ensures Run(s, plan.ops).files == s.files
    ensures f.Transport? || v == Async ==> Run(s, plan.ops).temps == s.temps
    ensures f.Unexpected? && v == Threaded ==>
      s.nextTemp in Run(s, plan.ops).temps && Run(s, plan.ops).temps - {s.nextTemp} == s.temps
    ensures f.Transport? ==> plan.outcome == Returned("Failed " + t.fileName + ": " + f.message)
    ensures f.Unexpected? && v == Async ==> plan.outcome == Returned("Error " + t.fileName + ": " + f.message)
    ensures f.Unexpected? && v == Threaded ==> plan.outcome == Returned("Error processing " + t.fileName + ": " + f.message)
  {
    var ex := host.answer(e.url, plan.request.ifModifiedSince);
    var tr := RequestShape(plan, v, placement, t, e, s, host, p);
    var head := [MakeDirs(DownloadDir(t)), CreateTemp];
    HeadState(s, DownloadDir(t));
    var s2 := Run(s, head);
    RunAppend(s, head, tr.ops);
    AbortTrace(s2, v, SameDevice(placement, host), t, s.nextTemp, ex, host.statusMessage, f);
    FreshRemoved(s, "");
  }

  /** What a reader of the download tree finds at a path. */
  function At(st: FsState, path: string): Option<string>
  {
    if path in st.files then Some(st.files[path]) else None
  }

  /** The artifact and the marker as a later run may find them: both as they
      were, or the complete new body with the marker as it was, holding the
      new `Last-Modified`, or, while that value is being written, empty (a
      marker a later run sends no `If-Modified-Since` for). A truncated or
      partial artifact is none of these. */
  predicate Paired(before: FsState, st: FsState, t: Target, body: string, lastModified: Option<string>)
  {
    var art, mark := ArtifactPath(t), MarkerPath(t);
    (At(st, art) == At(before, art) && At(st, mark) == At(before, mark)) ||
    (At(st, art) == Some(body) &&
     (At(st, mark) == At(before, mark) ||
      (lastModified.Some? && (At(st, mark) == Some("") || At(st, mark) == Some(lastModified.value)))))
  }

  /** The operations of a worker whose body is stored. */
  function CommitTrace(dir: string, v: Variant, sameDevice: bool, t: Target, tmp: nat, chunks: seq<string>, lastModified: Option<string>): seq<Op>
  {
    [MakeDirs(dir), CreateTemp] + (WriteOps(v, tmp, chunks) + MoveOps(tmp, ArtifactPath(t), sameDevice) + MarkerOps(MarkerPath(t), lastModified))
  }

  /** The plan of a worker whose body is stored is that trace. */
  lemma CommitShape(plan: Plan, v: Variant, placement: TempPlacement, t: Target, e: Entry,
                    s: FsState, host: Host, p: Parsers)
    requires plan == PlanEntry(v, placement, t, e, s, host, p) && plan.request.Get?
    requires Committed(v, host.answer(e.url, plan.request.ifModifiedSince))
    ensures var ex := host.answer(e.url, plan.request.ifModifiedSince);
      plan.ops == CommitTrace(DownloadDir(t), v, SameDevice(placement, host), t, s.nextTemp, ex.chunks, ex.lastModified)
  {
    var tr := RequestShape(plan, v, placement, t, e, s, host, p);
    CommittedOps(v, SameDevice(placement, host), t, s.nextTemp, host.answer(e.url, plan.request.ifModifiedSince), host.statusMessage);
  }

  /** The trace split where the download tree is first written. */
  lemma TraceSplit(dir: string, v: Variant, sameDevice: bool, t: Target, tmp: nat, chunks: seq<string>, lastModified: Option<string>)
    ensures var head := [MakeDirs(dir), CreateTemp] + WriteOps(v, tmp, chunks);
      CommitTrace(dir, v, sameDevice, t, tmp, chunks, lastModified) ==
        head + (MoveOps(tmp, ArtifactPath(t), sameDevice) + MarkerOps(MarkerPath(t), lastModified))
    ensures Confined([MakeDirs(dir), CreateTemp] + WriteOps(v, tmp, chunks), {})
  {
    var writes := WriteOps(v, tmp, chunks);
    var move := MoveOps(tmp, ArtifactPath(t), sameDevice);
    var marker := MarkerOps(MarkerPath(t), lastModified);
    Assoc(writes, move, marker);
    Assoc([MakeDirs(dir), CreateTemp], writes, move + marker);
    HeadConfined(dir, {});
    assert Confined(writes, {});
    ConfinedAppend([MakeDirs(dir), CreateTemp], writes, {});
  }

  /** Before the move, the download tree is untouched. */
  lemma BeforeMove(s: FsState, dir: string, v: Variant, sameDevice: bool, t: Target, tmp: nat, chunks: seq<string>,
                   lastModified: Option<string>, k: nat)
    requires k <= 2 + |WriteOps(v, tmp, chunks)|
    ensures k <= |CommitTrace(dir, v, sameDevice, t, tmp, chunks, lastModified)|
    ensures Run(s, CommitTrace(dir, v, sameDevice, t, tmp, chunks, lastModified)[..k]).files == s.files
  {
    var head := [MakeDirs(dir), CreateTemp] + WriteOps(v, tmp, chunks);
    var ops := CommitTrace(dir, v, sameDevice, t, tmp, chunks, lastModified);
    TraceSplit(dir, v, sameDevice, t, tmp, chunks, lastModified);
    assert ops[..k] == head[..k];
    PrefixConfined(s, head, {}, k);
    NothingRemoved(Run(s, head[..k]).files);
    NothingRemoved(s.files);
  }

  /** Renaming from a temporary file on the same file system: every state
      the worker passes through holds the old pair, the new artifact with the
      old marker, or the new pair. */
  lemma RenameKeepsPairs(plan: Plan, v: Variant, placement: TempPlacement, t: Target, e: Entry,
                         s: FsState, host: Host, p: Parsers)
    requires plan == PlanEntry(v, placement, t, e, s, host, p) && plan.request.Get? && Valid(s)
    requires Committed(v, host.answer(e.url, plan.request.ifModifiedSince)) && SameDevice(placement, host)
    ensures var ex := host.answer(e.url, plan.request.ifModifiedSince);
      forall k :: 0 <= k <= |plan.ops| ==> Paired(s, Run(s, plan.ops[..k]), t, Body(ex.chunks), ex.lastModified)
  {
    var ex := host.answer(e.url, plan.request.ifModifiedSince);
    CommitShape(plan, v, placement, t, e, s, host, p);
    forall k | 0 <= k <= |plan.ops|
      ensures Paired(s, Run(s, plan.ops[..k]), t, Body(ex.chunks), ex.lastModified)
    {
      RenamePairedAt(s, DownloadDir(t), v, t, ex.chunks, ex.lastModified, k);
    }
  }

  lemma RenamePairedAt(s: FsState, dir: string, v: Variant, t: Target, chunks: seq<string>, lastModified: Option<string>, k: nat)
    requires Valid(s) && k <= |CommitTrace(dir, v, true, t, s.nextTemp, chunks, lastModified)|
    ensures Paired(s, Run(s, CommitTrace(dir, v, true, t, s.nextTemp, chunks, lastModified)[..k]), t, Body(chunks), lastModified)
  {
    var tmp := s.nextTemp;
    var ops := CommitTrace(dir, v, true, t, tmp, chunks, lastModified);
    var head := [MakeDirs(dir), CreateTemp];
    var writes := WriteOps(v, tmp, chunks);
    var w := |head + writes|;
    if k <= w {
      BeforeMove(s, dir, v, true, t, tmp, chunks, lastModified, k);
    } else {
      var move := MoveOps(tmp, ArtifactPath(t), true);
      var marker := MarkerOps(MarkerPath(t), lastModified);
      TraceSplit(dir, v, true, t, tmp, chunks, lastModified);
      Assoc(head, writes, move);
      if k == w + 1 {
        assert ops[..k] == head + (writes + move);
        RenamedPaired(s, dir, v, t, chunks, lastModified, false);
      } else if k == w + 2 && marker != [] {
        assert ops[..k] == head + (writes + move) + [Truncate(MarkerPath(t))];
        RenamedPaired(s, dir, v, t, chunks, lastModified, true);
      } else {
        assert ops[..k] == ops;
        MarkerBesideArtifact(t);
        HeadState(s, dir);
        RunAppend(s, head, writes + move + marker);
        StoreTrace(Run(s, head), v, true, t, tmp, chunks, lastModified);
        StoredArtifact(Run(s, head).files, t, Body(chunks), lastModified);
      }
    }
  }

  /** Right after the rename, and right after the marker is opened for the
      new value, the artifact holds the new body; in the second state the
      marker reads empty. */
  lemma RenamedPaired(s: FsState, dir: string, v: Variant, t: Target, chunks: seq<string>, lastModified: Option<string>, markerOpen: bool)
    requires Valid(s)
    requires markerOpen ==> lastModified.Some? && lastModified.value != ""
    ensures var tmp := s.nextTemp;
      var moved := [MakeDirs(dir), CreateTemp] + (WriteOps(v, tmp, chunks) + MoveOps(tmp, ArtifactPath(t), true));
      Paired(s, Run(s, if markerOpen then moved + [Truncate(MarkerPath(t))] else moved), t, Body(chunks), lastModified)
    ensures var tmp := s.nextTemp;
      var moved := [MakeDirs(dir), CreateTemp] + (WriteOps(v, tmp, chunks) + MoveOps(tmp, ArtifactPath(t), true));
      markerOpen ==> At(Run(s, moved + [Truncate(MarkerPath(t))]), MarkerPath(t)) == Some("")
  {
    var tmp := s.nextTemp;
    var head := [MakeDirs(dir), CreateTemp];
    var moved := head + (WriteOps(v, tmp, chunks) + MoveOps(tmp, ArtifactPath(t), true));
    MarkerBesideArtifact(t);
    HeadState(s, dir);
    var s2 := Run(s, head);
    RunAppend(s, head, WriteOps(v, tmp, chunks) + MoveOps(tmp, ArtifactPath(t), true));
    MovedTrace(s2, v, true, t, tmp, chunks);
    if markerOpen {
      RunSnoc(s, moved, Truncate(MarkerPath(t)));
    }
  }

  /** The point of the copying trace where the artifact has just been
      opened for writing. */
  lemma TruncatedAt(s: FsState, dir: string, v: Variant, t: Target, tmp: nat, chunks: seq<string>, lastModified: Option<string>)
    returns (k: nat)
    ensures k <= |CommitTrace(dir, v, false, t, tmp, chunks, lastModified)|
    ensures At(Run(s, CommitTrace(dir, v, false, t, tmp, chunks, lastModified)[..k]), ArtifactPath(t)) == Some("")
  {
    var head := [MakeDirs(dir), CreateTemp] + WriteOps(v, tmp, chunks);
    var ops := CommitTrace(dir, v, false, t, tmp, chunks, lastModified);
    TraceSplit(dir, v, false, t, tmp, chunks, lastModified);
    k := |head| + 1;
    assert ops[..k] == head + [Truncate(ArtifactPath(t))];
    RunSnoc(s, head, Truncate(ArtifactPath(t)));
  }

  /** Copying from a temporary file on another file system: right after
      `shutil.move` opens the artifact for writing, a reader finds it empty,
      neither the old file nor the new body. */
  lemma CopyExposesTruncation(plan: Plan, v: Variant, placement: TempPlacement, t: Target, e: Entry,
                              s: FsState, host: Host, p: Parsers)
    returns (k: nat)
    requires plan == PlanEntry(v, placement, t, e, s, host, p) && plan.request.Get?
    requires Committed(v, host.answer(e.url, plan.request.ifModifiedSince)) && !SameDevice(placement, host)
    requires Body(host.answer(e.url, plan.request.ifModifiedSince).chunks) != ""
    requires At(s, ArtifactPath(t)) != Some("")
    ensures k <= |plan.ops| && At(Run(s, plan.ops[..k]), ArtifactPath(t)) == Some("")
    ensures var ex := host.answer(e.url, plan.request.ifModifiedSince);
      !Paired(s, Run(s, plan.ops[..k]), t, Body(ex.chunks), ex.lastModified)
  {
    var ex := host.answer(e.url, plan.request.ifModifiedSince);
    CommitShape(plan, v, placement, t, e, s, host, p);
    k := TruncatedAt(s, DownloadDir(t), v, t, s.nextTemp, ex.chunks, ex.lastModified);
  }

  /** A second run after a stored body with a non-empty `Last-Modified`
      either skips on the marker or asks with that value in
      `If-Modified-Since`; a 304 to it leaves every file as it is. */
  lemma SecondRunSkips(plan: Plan, v: Variant, placement: TempPlacement, t: Target, e: Entry,
                       s: FsState, host: Host, p: Parsers,
                       again: Plan, e2: Entry, host2: Host)
    requires plan == PlanEntry(v, placement, t, e, s, host, p) && plan.request.Get? && Valid(s)
    requires Committed(v, host.answer(e.url, plan.request.ifModifiedSince))
    requires var lm := host.answer(e.url, plan.request.ifModifiedSince).lastModified;
      lm.Some? && Strip(lm.value) != ""
    requires again == PlanEntry(v, placement, t, e2, Run(s, plan.ops), host2, p)
    ensures var lm := host.answer(e.url, plan.request.ifModifiedSince).lastModified;
      again.request == NoRequest || again.request == Get(e2.url, Some(Strip(lm.value)))
    ensures again.request.Get? && host2.answer(e2.url, again.request.ifModifiedSince).Response? &&
            host2.answer(e2.url, again.request.ifModifiedSince).status == 304
        ==>
      Run(Run(s, plan.ops), again.ops).files == Run(s, plan.ops).files &&
      again.outcome == Returned("Skipped " + t.fileName + " (not modified)")
  {
    var ex := host.answer(e.url, plan.request.ifModifiedSince);
    var s1 := Run(s, plan.ops);
    Commit(plan, v, placement, t, e, s, host, p);
    StoredArtifact(s.files, t, Body(ex.chunks), ex.lastModified);
    MarkerBesideArtifact(t);
    assert s1.files[MarkerPath(t)] == ex.lastModified.value;
    RunKeepsValid(s, plan.ops);
    if again.request.Get? {
      HeaderRule(again, v, placement, t, e2, s1, host2, p);
      if host2.answer(e2.url, again.request.ifModifiedSince).Response? && host2.answer(e2.url, again.request.ifModifiedSince).status == 304 {
        NotModified(again, v, placement, t, e2, s1, host2, p);
      }
    }
  }
}
