/** The download worker as the programs run it: one step after another on the
    disk, each step proved to be the next operation of the plan. */
module Worker {
  import opened Wrappers
  import opened Text
  import opened PyValues
  import opened Dates
  import opened Targets
  import opened FileSystem
  import opened Fetch
  import Manifest

  /** The loop over `iter_content` / `iter_chunked`, writing into the
      temporary file. */
  method WriteBody(v: Variant, disk: Disk, tmp: nat, chunks: seq<string>)
    modifies disk
    ensures disk.State() == Run(old(disk.State()), WriteOps(v, tmp, chunks))
  {
    ghost var s0 := disk.State();
    var i := 0;
    while i < |chunks|
      invariant 0 <= i <= |chunks|
      invariant disk.State() == Run(s0, WriteOps(v, tmp, chunks[..i]))
    {
      var chunk := chunks[i];
      assert chunks[..i + 1][..i] == chunks[..i];
      assert WriteOps(v, tmp, chunks[..i + 1]) ==
        WriteOps(v, tmp, chunks[..i]) + (if Writes(v, chunk) then [AppendTemp(tmp, chunk)] else []);
      if v == Async || chunk != "" {
        disk.AppendTemp(tmp, chunk);
        RunSnoc(s0, WriteOps(v, tmp, chunks[..i]), AppendTemp(tmp, chunk));
      } else {
        assert WriteOps(v, tmp, chunks[..i + 1]) == WriteOps(v, tmp, chunks[..i]);
      }
      i := i + 1;
    }
    assert chunks[..i] == chunks;
  }

  /** One of the exception handlers around the request. */
  method Handle(v: Variant, disk: Disk, fileName: string, tmp: nat, failure: Failure) returns (outcome: Outcome)
    modifies disk
    ensures disk.State() == Run(old(disk.State()), Abort(v, fileName, tmp, failure).ops)
    ensures Ended(outcome) == Abort(v, fileName, tmp, failure).ending
  {
    ghost var s0 := disk.State();
    assert Run(s0, [RemoveTemp(tmp)]) == Apply(Run(s0, []), RemoveTemp(tmp));
    match failure
    case Transport(m) =>
      disk.RemoveTemp(tmp);
      outcome := Returned("Failed " + fileName + ": " + m);
    case Unexpected(m) =>
      if v == Threaded {
        outcome := Returned("Error processing " + fileName + ": " + m);
      } else {
        disk.RemoveTemp(tmp);
        outcome := Returned("Error " + fileName + ": " + m);
      }
  }

  /** The request and what follows it, up to the marker write. */
  method Transact(v: Variant, sameDevice: bool, disk: Disk, t: Target, tmp: nat, ex: Exchange, statusMessage: int -> string)
    returns (ending: Ending)
    modifies disk
    ensures disk.State() == Run(old(disk.State()), TransferOf(v, sameDevice, t, tmp, ex, statusMessage).ops)
    ensures ending == TransferOf(v, sameDevice, t, tmp, ex, statusMessage).ending
  {
    ghost var s0 := disk.State();
    match ex
    case Refused(failure) =>
      var o := Handle(v, disk, t.fileName, tmp, failure);
      ending := Ended(o);
    case Response(status, lastModified, chunks, interruption) =>
      if status == 304 {
        disk.RemoveTemp(tmp);
        assert Run(s0, [RemoveTemp(tmp)]) == Apply(Run(s0, []), RemoveTemp(tmp));
        ending := Ended(Returned("Skipped " + t.fileName + " (not modified)"));
      } else if RaisesStatus(v, status) {
        var o := Handle(v, disk, t.fileName, tmp, Transport(statusMessage(status)));
        ending := Ended(o);
      } else {
        WriteBody(v, disk, tmp, chunks);
        ghost var writes := WriteOps(v, tmp, chunks);
        if interruption.Some? {
          var o := Handle(v, disk, t.fileName, tmp, interruption.value);
          RunAppend(s0, writes, Abort(v, t.fileName, tmp, interruption.value).ops);
          ending := Ended(o);
        } else {
          disk.Move(tmp, ArtifactPath(t), sameDevice);
          ghost var moved := writes + MoveOps(tmp, ArtifactPath(t), sameDevice);
          RunAppend(s0, writes, MoveOps(tmp, ArtifactPath(t), sameDevice));
          if lastModified.Some? && lastModified.value != "" {
            disk.Truncate(MarkerPath(t));
            RunSnoc(s0, moved, Truncate(MarkerPath(t)));
            disk.WriteText(MarkerPath(t), lastModified.value);
            RunSnoc(s0, moved + [Truncate(MarkerPath(t))], WriteText(MarkerPath(t), lastModified.value));
            assert moved + [Truncate(MarkerPath(t))] + [WriteText(MarkerPath(t), lastModified.value)]
              == moved + MarkerOps(MarkerPath(t), lastModified);
          } else {
            assert moved + MarkerOps(MarkerPath(t), lastModified) == moved;
          }
          ending := Stored;
        }
      }
  }

  /** From the temporary file on, once the request is decided. */
  method Request(v: Variant, sameDevice: bool, disk: Disk, t: Target, url: string, header: Option<string>, host: Host)
    returns (outcome: Outcome)
    modifies disk
    ensures disk.State() == Run(old(disk.State()), PlanRequest(v, sameDevice, t, url, header, old(disk.State()), host).ops)
    ensures outcome == PlanRequest(v, sameDevice, t, url, header, old(disk.State()), host).outcome
  {
    ghost var s0 := disk.State();
    var tmp := disk.CreateTemp();
    assert Run(s0, [CreateTemp]) == Apply(Run(s0, []), CreateTemp);
    var ex := host.answer(url, header);
    ghost var tr := TransferOf(v, sameDevice, t, tmp, ex, host.statusMessage);
    var ending := Transact(v, sameDevice, disk, t, tmp, ex, host.statusMessage);
    RunAppend(s0, [CreateTemp], tr.ops);
    match ending
    case Ended(o) =>
      outcome := o;
    case Stored =>
      var size := if ArtifactPath(t) in disk.files then |disk.files[ArtifactPath(t)]| else 0;
      outcome := StoredOutcome(v, t.fileName, size);
  }

  /** The worker once its manifest entry is read: the directory, the skip
      rule, the conditional request. */
  method DownloadEntry(v: Variant, placement: TempPlacement, t: Target, entry: Entry,
                       disk: Disk, host: Host, p: Parsers)
    returns (request: Request, outcome: Outcome)
    modifies disk
    ensures disk.State() == Run(old(disk.State()), PlanEntry(v, placement, t, entry, old(disk.State()), host, p).ops)
    ensures request == PlanEntry(v, placement, t, entry, old(disk.State()), host, p).request
    ensures outcome == PlanEntry(v, placement, t, entry, old(disk.State()), host, p).outcome
  {
    ghost var s0 := disk.State();
    disk.MakeDirs(DownloadDir(t));
    ghost var s1 := disk.State();
    assert Run(s0, [MakeDirs(DownloadDir(t))]) == s1 by {
      assert Run(s0, [MakeDirs(DownloadDir(t))]) == Apply(Run(s0, []), MakeDirs(DownloadDir(t)));
    }
    var previous: Option<string> := None;
    if MarkerPath(t) in disk.files && ArtifactPath(t) in disk.files {
      previous := Some(Strip(disk.files[MarkerPath(t)]));
      if UpToDate(previous.value, entry.exportDate, p) {
        return NoRequest, Returned("Skipped " + t.fileName + " (up to date)");
      }
    }
    assert previous == Previous(s0, t);
    var header: Option<string> := None;
    if previous.Some? && previous.value != "" {
      header := previous;
    }
    assert header == Header(Previous(s0, t));
    ghost var rest := PlanRequest(v, SameDevice(placement, host), t, entry.url, header, s1, host);
    request := Get(entry.url, header);
    outcome := Request(v, SameDevice(placement, host), disk, t, entry.url, header, host);
    RunAppend(s0, [MakeDirs(DownloadDir(t))], rest.ops);
  }

  /** `download_single_file` for one task. */
  method DownloadSingleFile(v: Variant, placement: TempPlacement, manifest: Value, task: Manifest.Task,
                            disk: Disk, host: Host, p: Parsers)
    returns (request: Request, outcome: Outcome)
    modifies disk
    ensures disk.State() == Run(old(disk.State()), PlanDownload(v, placement, manifest, task, old(disk.State()), host, p).ops)
    ensures request == PlanDownload(v, placement, manifest, task, old(disk.State()), host, p).request
    ensures outcome == PlanDownload(v, placement, manifest, task, old(disk.State()), host, p).outcome
  {
    var entry := EntryOf(manifest, task);
    if entry.None? {
      return NoRequest, Raised(UnboundFileName);
    }
    var t := Resolve(task.dataType, entry.value.url);
    request, outcome := DownloadEntry(v, placement, t, entry.value, disk, host, p);
  }
}
