/** The `main` of both download programs: the task list, the pool, one worker
    per task, the collection of their results and the summary. The workers
    run one after another in task order, each from the state the previous ones
    left. */
module Driver {
  import opened Wrappers
  import opened Text
  import opened PyValues
  import opened Dates
  import opened FileSystem
  import opened Fetch
  import opened Summary
  import Manifest
  import Worker
  import FetchProperties

  /** The state after a batch of workers, and their outcomes in task order. */
  datatype Batch = Batch(state: FsState, outcomes: seq<Outcome>)

  /** A worker: the plan it carries out for a task from a state. */
  type Job = (Manifest.Task, FsState) -> Plan

  /** `download_single_file` with the program's fixed inputs bound. */
  function WorkerOf(v: Variant, placement: TempPlacement, manifest: Value, host: Host, p: Parsers): Job
  {
    (task: Manifest.Task, s: FsState) => PlanDownload(v, placement, manifest, task, s, host, p)
  }

  /** The workers for `tasks`, one after another from `s`. */
  function RunAll(worker: Job, tasks: seq<Manifest.Task>, s: FsState): (b: Batch)
    ensures |b.outcomes| == |tasks|
  {
    if tasks == [] then Batch(s, [])
    else
      var prev := RunAll(worker, tasks[..|tasks| - 1], s);
      var plan := worker(tasks[|tasks| - 1], prev.state);
      Batch(Run(prev.state, plan.ops), prev.outcomes + [plan.outcome])
  }

  /** Every submitted task runs to its end, as with the thread pool, whose
      `with` block waits for all of them even after a worker's exception
      (the process pool's `with` block instead terminates the workers still
      running when an exception leaves it; that case is not modelled). */
  method DownloadAll(v: Variant, placement: TempPlacement, manifest: Value, tasks: seq<Manifest.Task>,
                     disk: Disk, host: Host, p: Parsers)
    returns (outcomes: seq<Outcome>)
    modifies disk
    ensures Batch(disk.State(), outcomes) == RunAll(WorkerOf(v, placement, manifest, host, p), tasks, old(disk.State()))
  {
    ghost var s0 := disk.State();
    ghost var worker := WorkerOf(v, placement, manifest, host, p);
    outcomes := [];
    var i := 0;
    while i < |tasks|
      invariant 0 <= i <= |tasks|
      invariant Batch(disk.State(), outcomes) == RunAll(worker, tasks[..i], s0)
    {
      ghost var plan := worker(tasks[i], disk.State());
      WorkerPlan(v, placement, manifest, host, p, tasks[i], disk.State());
      RunAllStep(worker, tasks, i, s0);
      var _, outcome := Worker.DownloadSingleFile(v, placement, manifest, tasks[i], disk, host, p);
      outcomes := outcomes + [outcome];
      i := i + 1;
    }
    assert tasks[..i] == tasks;
  }

  lemma WorkerPlan(v: Variant, placement: TempPlacement, manifest: Value, host: Host, p: Parsers,
                   task: Manifest.Task, s: FsState)
    ensures WorkerOf(v, placement, manifest, host, p)(task, s) == PlanDownload(v, placement, manifest, task, s, host, p)
  {
  }

  /** One more task on top of a prefix of the list. */
  lemma RunAllStep(worker: Job, tasks: seq<Manifest.Task>, i: nat, s: FsState)
    requires i < |tasks|
    ensures var prev := RunAll(worker, tasks[..i], s);
      var plan := worker(tasks[i], prev.state);
      RunAll(worker, tasks[..i + 1], s) == Batch(Run(prev.state, plan.ops), prev.outcomes + [plan.outcome])
  {
    assert tasks[..i + 1][..i] == tasks[..i];
  }

  /** What a worker's outcome must be for its task: the lookup failure raises
      the unbound-name error, anything else returns a report the summary
      sorts, `Downloaded` only in the async program. */
  predicate Expected(v: Variant, manifest: Value, task: Manifest.Task, o: Outcome)
  {
    if EntryOf(manifest, task).None? then o == Raised(UnboundFileName)
    else FetchProperties.Classified(v, o)
  }

  /** A worker that behaves as `Expected` on every task and from every state. */
  ghost predicate Behaves(v: Variant, manifest: Value, worker: Job)
  {
    forall task, s :: Expected(v, manifest, task, worker(task, s).outcome)
  }

  lemma StepExpected(v: Variant, placement: TempPlacement, manifest: Value, task: Manifest.Task,
                     s: FsState, host: Host, p: Parsers)
    ensures Expected(v, manifest, task, PlanDownload(v, placement, manifest, task, s, host, p).outcome)
  {
    var plan := PlanDownload(v, placement, manifest, task, s, host, p);
    FetchProperties.LookupRule(plan, v, placement, manifest, task, s, host, p);
    match EntryOf(manifest, task)
    case None =>
    case Some(e) =>
      FetchProperties.ReportKinds(plan, v, placement, Targets.Resolve(task.dataType, e.url), e, s, host, p);
  }

  /** The download worker behaves as expected whatever the state it starts
      from. */
  lemma WorkerBehaves(v: Variant, placement: TempPlacement, manifest: Value, host: Host, p: Parsers)
    ensures Behaves(v, manifest, WorkerOf(v, placement, manifest, host, p))
  {
    forall task, s
      ensures Expected(v, manifest, task, WorkerOf(v, placement, manifest, host, p)(task, s).outcome)
    {
      StepExpected(v, placement, manifest, task, s, host, p);
    }
  }

  /** Each task's outcome is the one its manifest entry calls for, whatever
      the state the earlier tasks left. */
  lemma {:induction false} RunAllOutcomes(v: Variant, manifest: Value, worker: Job, tasks: seq<Manifest.Task>, s: FsState)
    requires Behaves(v, manifest, worker)
    ensures var outs := RunAll(worker, tasks, s).outcomes;
      forall i :: 0 <= i < |tasks| ==> Expected(v, manifest, tasks[i], outs[i])
  {
    if tasks != [] {
      RunAllOutcomes(v, manifest, worker, tasks[..|tasks| - 1], s);
    }
  }

  /** The threaded program's collection: `future.result()` re-raises the
      worker's exception, which ends `main`; the first raised outcome in
      collection order decides the error. */
  function Collected(outs: seq<Outcome>): Result<seq<string>>
  {
    if outs == [] then Ok([])
    else
      match Collected(outs[..|outs| - 1])
      case Err(e) => Err(e)
      case Ok(rs) =>
        (match outs[|outs| - 1]
         case Raised(e) => Err(e)
         case Returned(r) => Ok(rs + [r]))
  }

  lemma {:induction false} CollectedErrExtends(outs: seq<Outcome>, k: nat)
    requires k <= |outs| && Collected(outs[..k]).Err?
    ensures Collected(outs) == Collected(outs[..k])
    decreases |outs| - k
  {
    if k < |outs| {
      assert outs[..k + 1][..k] == outs[..k];
      CollectedErrExtends(outs, k + 1);
    } else {
      assert outs[..k] == outs;
    }
  }

  /** Collection succeeds exactly when no worker raised, and then holds every
      report in order; otherwise it fails with the error of the first worker
      that raised. */
  lemma {:induction false} CollectedRule(outs: seq<Outcome>)
    ensures Collected(outs).Ok? <==> forall i :: 0 <= i < |outs| ==> outs[i].Returned?
    ensures Collected(outs).Ok? ==>
      |Collected(outs).value| == |outs| && forall i :: 0 <= i < |outs| ==> Collected(outs).value[i] == outs[i].report
    ensures Collected(outs).Err? ==>
      exists i :: 0 <= i < |outs| && outs[i].Raised? && Collected(outs).error == outs[i].error &&
        forall j :: 0 <= j < i ==> outs[j].Returned?
  {
    if outs != [] {
      var init := outs[..|outs| - 1];
      CollectedRule(init);
      if Collected(init).Err? {
        var i :| 0 <= i < |init| && init[i].Raised? && Collected(init).error == init[i].error &&
          forall j :: 0 <= j < i ==> init[j].Returned?;
        assert outs[i] == init[i];
      } else if outs[|outs| - 1].Raised? {
        assert forall j :: 0 <= j < |init| ==> outs[j] == init[j];
      }
    }
  }

  /** The `for future in as_completed(...)` loop. */
  method CollectThreaded(outs: seq<Outcome>) returns (r: Result<seq<string>>)
    ensures r == Collected(outs)
  {
    var results: seq<string> := [];
    var i := 0;
    while i < |outs|
      invariant 0 <= i <= |outs|
      invariant Collected(outs[..i]) == Ok(results)
    {
      assert outs[..i + 1][..i] == outs[..i];
      if outs[i].Raised? {
        CollectedErrExtends(outs, i + 1);
        return Err(outs[i].error);
      }
      results := results + [outs[i].report];
      i := i + 1;
    }
    assert outs[..i] == outs;
    return Ok(results);
  }

  /** The async program's result line for one gathered outcome:
      `gather(..., return_exceptions=True)` hands back the exception, which
      becomes `Error: {e}`. */
  function ResultLine(o: Outcome): string
  {
    match o
    case Returned(r) => r
    case Raised(e) => "Error: " + e
  }

  /** `processed_results`, in task order. */
  function Processed(outs: seq<Outcome>): seq<string>
  {
    seq(|outs|, i requires 0 <= i < |outs| => ResultLine(outs[i]))
  }

  /** The `for result in results` loop of the async `main`. */
  method ProcessResults(outs: seq<Outcome>) returns (rs: seq<string>)
    ensures rs == Processed(outs)
  {
    rs := [];
    var i := 0;
    while i < |outs|
      invariant 0 <= i <= |outs|
      invariant rs == Processed(outs[..i])
    {
      if outs[i].Raised? {
        rs := rs + ["Error: " + outs[i].error];
      } else {
        rs := rs + [outs[i].report];
      }
      i := i + 1;
    }
    assert outs[..i] == outs;
  }

  /** The printed summary: the three counts, the failure block and the exit
      status. */
  datatype Counts = Counts(downloaded: nat, skipped: nat, failed: nat, failures: seq<string>, exitCode: int)

  function CountResults(rs: seq<string>): Counts
  {
    var failed := Select(FailedKind, rs);
    Counts(|Select(DownloadedKind, rs)|, |Select(SkippedKind, rs)|, |failed|,
           Listing("Failed downloads:", failed), ExitCode(failed))
  }

  /** How `main` ends: the manifest cannot be walked (the exception ends the
      program), a worker's exception ends the threaded program, there is
      nothing to download, or the summary is printed. */
  datatype RunEnd =
    | Crashed(error: string)
    | NoFiles
    | Finished(workers: int, results: seq<string>, counts: Counts)

  datatype Session = Session(state: FsState, end: RunEnd)

  /** The pool size: `min(cpu_count(), 8, n)` processes when
      `DOWNLOAD_METHOD` is `processes`, else `min(20, n)` threads; the async
      program's semaphore admits `min(10, n)`. */
  function Workers(v: Variant, processes: bool, cpus: nat, n: nat): int
  {
    match v
    case Threaded => if processes then ProcessWorkers(cpus, n) else ThreadWorkers(n)
    case Async => AsyncBound(n)
  }

  /** A whole run of a download program from the file-system state `s`, with
      `worker` run for each task. */
  function DownloadRun(v: Variant, processes: bool, cpus: nat, manifest: Value, worker: Job, s: FsState): Session
  {
    match Manifest.Tasks(manifest)
    case Err(e) => Session(s, Crashed(e))
    case Ok(tasks) =>
      if tasks == [] then Session(s, NoFiles)
      else
        var b := RunAll(worker, tasks, s);
        var workers := Workers(v, processes, cpus, |tasks|);
        match v
        case Threaded =>
          (match Collected(b.outcomes)
           case Err(e) => Session(b.state, Crashed(e))
           case Ok(rs) => Session(b.state, Finished(workers, rs, CountResults(rs))))
        case Async =>
          var rs := Processed(b.outcomes);
          Session(b.state, Finished(workers, rs, CountResults(rs)))
  }

  /** `main` of either program, after the manifest is loaded. */
  method DownloadMain(v: Variant, placement: TempPlacement, processes: bool, cpus: nat, manifest: Value,
                      disk: Disk, host: Host, p: Parsers)
    returns (end: RunEnd)
    modifies disk
    ensures Session(disk.State(), end) ==
      DownloadRun(v, processes, cpus, manifest, WorkerOf(v, placement, manifest, host, p), old(disk.State()))
  {
    var tasks := Manifest.BuildTasks(manifest);
    if tasks.Err? {
      return Crashed(tasks.error);
    }
    var n := |tasks.value|;
    if n == 0 {
      return NoFiles;
    }
    var workers := Workers(v, processes, cpus, n);
    var outs := DownloadAll(v, placement, manifest, tasks.value, disk, host, p);
    var results: seq<string>;
    if v == Threaded {
      var collected := CollectThreaded(outs);
      if collected.Err? {
        return Crashed(collected.error);
      }
      results := collected.value;
    } else {
      results := ProcessResults(outs);
    }
    end := Finished(workers, results, CountResults(results));
  }

  /** A manifest that cannot be walked ends the run before any worker starts. */
  lemma MalformedStops(v: Variant, processes: bool, cpus: nat, manifest: Value, worker: Job, s: FsState)
    requires Manifest.Tasks(manifest).Err?
    ensures DownloadRun(v, processes, cpus, manifest, worker, s) == Session(s, Crashed(Manifest.Malformed))
  {
  }

  /** The threaded program ends with an exception exactly when some task's
      manifest entry cannot be read, and that exception is the unbound
      `filename`; otherwise it prints one result per task. */
  lemma ThreadedCrash(processes: bool, cpus: nat, manifest: Value, worker: Job, s: FsState)
    requires Behaves(Threaded, manifest, worker)
    requires Manifest.Tasks(manifest).Ok? && Manifest.Tasks(manifest).value != []
    ensures var tasks := Manifest.Tasks(manifest).value;
      var end := DownloadRun(Threaded, processes, cpus, manifest, worker, s).end;
      (end.Crashed? <==> exists i :: 0 <= i < |tasks| && EntryOf(manifest, tasks[i]).None?) &&
      (end.Crashed? ==> end.error == UnboundFileName) &&
      (end.Finished? ==> |end.results| == |tasks|)
  {
    var tasks := Manifest.Tasks(manifest).value;
    var outs := RunAll(worker, tasks, s).outcomes;
    RunAllOutcomes(Threaded, manifest, worker, tasks, s);
    CollectedRule(outs);
    assert forall i :: 0 <= i < |tasks| ==> (outs[i].Raised? <==> EntryOf(manifest, tasks[i]).None?);
  }

  /** The async program never ends with an exception once the manifest is
      walked: a failed lookup becomes an `Error: ` line of its own. */
  lemma AsyncResults(processes: bool, cpus: nat, manifest: Value, worker: Job, s: FsState)
    requires Behaves(Async, manifest, worker)
    requires Manifest.Tasks(manifest).Ok? && Manifest.Tasks(manifest).value != []
    ensures var tasks := Manifest.Tasks(manifest).value;
      var end := DownloadRun(Async, processes, cpus, manifest, worker, s).end;
      end.Finished? && |end.results| == |tasks| &&
      forall i :: 0 <= i < |tasks| && EntryOf(manifest, tasks[i]).None? ==> end.results[i] == "Error: " + UnboundFileName
  {
    var tasks := Manifest.Tasks(manifest).value;
    RunAllOutcomes(Async, manifest, worker, tasks, s);
  }

  /** The line printed for an expected outcome is one the summary sorts, and
      not a download in the threaded program. */
  lemma LineSorted(v: Variant, manifest: Value, task: Manifest.Task, o: Outcome)
    requires Expected(v, manifest, task, o)
    ensures DownloadReport(ResultLine(o))
    ensures v == Threaded ==> !Is(DownloadedKind, ResultLine(o))
  {
    if o.Raised? {
      assert StartsWith("Error: ", "Error") by {
        assert "Error: "[..5] == "Error";
      }
      Extend("Error: ", UnboundFileName, "Error");
      FetchProperties.NotDownloaded(ResultLine(o));
    }
  }

  /** Every printed result falls into exactly one of the three categories,
      and only the async program prints `Downloaded`. */
  lemma ResultsSorted(v: Variant, manifest: Value, worker: Job, tasks: seq<Manifest.Task>, s: FsState, rs: seq<string>)
    requires Behaves(v, manifest, worker)
    requires var outs := RunAll(worker, tasks, s).outcomes;
      (v == Threaded && Collected(outs) == Ok(rs)) || (v == Async && rs == Processed(outs))
    ensures forall i :: 0 <= i < |rs| ==> DownloadReport(rs[i])
    ensures v == Threaded ==> forall i :: 0 <= i < |rs| ==> !Is(DownloadedKind, rs[i])
  {
    var outs := RunAll(worker, tasks, s).outcomes;
    RunAllOutcomes(v, manifest, worker, tasks, s);
    CollectedRule(outs);
    assert |rs| == |tasks|;
    forall i | 0 <= i < |rs|
      ensures DownloadReport(rs[i]) && (v == Threaded ==> !Is(DownloadedKind, rs[i]))
    {
      assert rs[i] == ResultLine(outs[i]);
      LineSorted(v, manifest, tasks[i], outs[i]);
    }
  }

  /** For results the summary sorts: the three counts add up to the number of
      results, and the exit status is 1 exactly when some result is a
      failure. */
  lemma CountsAddUp(rs: seq<string>)
    requires forall i :: 0 <= i < |rs| ==> DownloadReport(rs[i])
    ensures CountResults(rs).downloaded + CountResults(rs).skipped + CountResults(rs).failed == |rs|
    ensures CountResults(rs).exitCode == 1 <==> exists i :: 0 <= i < |rs| && Is(FailedKind, rs[i])
    ensures CountResults(rs).exitCode == 0 <==> forall i :: 0 <= i < |rs| ==> !Is(FailedKind, rs[i])
  {
    DownloadPartition(rs);
    ExitRule(rs);
  }

  /** The summary of a finished run: one result per task, the three counts
      add up to the number of tasks, the exit status is 1 exactly when some
      result is a failure, and the pool has between 1 and its cap workers. */
  lemma FinishedSummary(v: Variant, processes: bool, cpus: nat, manifest: Value, worker: Job, s: FsState)
    requires Behaves(v, manifest, worker)
    requires cpus >= 1
    requires DownloadRun(v, processes, cpus, manifest, worker, s).end.Finished?
    ensures var end := DownloadRun(v, processes, cpus, manifest, worker, s).end;
      Manifest.Tasks(manifest).Ok? && |end.results| == |Manifest.Tasks(manifest).value| &&
      end.counts.downloaded + end.counts.skipped + end.counts.failed == |end.results| &&
      (end.counts.exitCode == 1 <==> exists i :: 0 <= i < |end.results| && Is(FailedKind, end.results[i])) &&
      (end.counts.exitCode == 0 <==> forall i :: 0 <= i < |end.results| ==> !Is(FailedKind, end.results[i])) &&
      1 <= end.workers <= (if v == Async then 10 else if processes then 8 else 20)
  {
    var tasks := Manifest.Tasks(manifest).value;
    var outs := RunAll(worker, tasks, s).outcomes;
    var rs := DownloadRun(v, processes, cpus, manifest, worker, s).end.results;
    CollectedRule(outs);
    ResultsSorted(v, manifest, worker, tasks, s, rs);
    CountsAddUp(rs);
    PoolSizes(cpus, |tasks|);
  }

  /** The threaded program never counts a download: a stored body is reported
      as an `Error processing` line. */
  lemma ThreadedDownloadsNothing(processes: bool, cpus: nat, manifest: Value, worker: Job, s: FsState)
    requires Behaves(Threaded, manifest, worker)
    requires DownloadRun(Threaded, processes, cpus, manifest, worker, s).end.Finished?
    ensures DownloadRun(Threaded, processes, cpus, manifest, worker, s).end.counts.downloaded == 0
  {
    var tasks := Manifest.Tasks(manifest).value;
    var rs := DownloadRun(Threaded, processes, cpus, manifest, worker, s).end.results;
    ResultsSorted(Threaded, manifest, worker, tasks, s, rs);
    SelectExact(DownloadedKind, rs);
  }
}
