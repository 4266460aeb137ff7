/** The `main` of the parquet build stage: one worker per manifest partition,
    the threaded collection of their reports, and the four-way summary. The
    workers run one after another in task order. */
module BuildDriver {
  import opened Wrappers
  import opened PyValues
  import opened Summary
  import opened BuildParquet
  import Manifest
  import Fetch
  import Driver
  import BuildProperties

  /** The trees after a batch of workers, and their outcomes in task order. */
  datatype BuildBatch = BuildBatch(tree: Tree, outcomes: seq<Fetch.Outcome>)

  /** A build worker: what it does for a task from a tree. */
  type BuildJob = (Manifest.Task, Tree) -> Step

  /** `process_single_file` with the stage's fixed inputs bound. */
  function JobOf(env: Env, manifest: Value, tools: Tools): BuildJob
  {
    (task: Manifest.Task, s: Tree) => ProcessFile(env, manifest, task, s, tools)
  }

  /** The workers for `tasks`, one after another from `s`. */
  function BuildAll(job: BuildJob, tasks: seq<Manifest.Task>, s: Tree): (b: BuildBatch)
    ensures |b.outcomes| == |tasks|
  {
    if tasks == [] then BuildBatch(s, [])
    else
      var prev := BuildAll(job, tasks[..|tasks| - 1], s);
      var step := job(tasks[|tasks| - 1], prev.tree);
      BuildBatch(step.tree, prev.outcomes + [step.outcome])
  }

  /** Every submitted task runs to its end before the pool closes. */
  method ProcessAll(env: Env, manifest: Value, tasks: seq<Manifest.Task>, disk: BuildDisk, tools: Tools)
    returns (outcomes: seq<Fetch.Outcome>)
    modifies disk
    ensures BuildBatch(disk.State(), outcomes) == BuildAll(JobOf(env, manifest, tools), tasks, old(disk.State()))
  {
    ghost var s0 := disk.State();
    ghost var job := JobOf(env, manifest, tools);
    outcomes := [];
    var i := 0;
    while i < |tasks|
      invariant 0 <= i <= |tasks|
      invariant BuildBatch(disk.State(), outcomes) == BuildAll(job, tasks[..i], s0)
    {
      assert tasks[..i + 1][..i] == tasks[..i];
      assert job(tasks[i], disk.State()) == ProcessFile(env, manifest, tasks[i], disk.State(), tools);
      var outcome := ProcessSingleFile(env, manifest, tasks[i], disk, tools);
      outcomes := outcomes + [outcome];
      i := i + 1;
    }
    assert tasks[..i] == tasks;
  }

  /** A build worker whose outcome is the expected one for every task and
      from every tree. */
  ghost predicate Behaves(manifest: Value, job: BuildJob)
  {
    forall task, s :: BuildProperties.BuildExpected(manifest, task, job(task, s).outcome)
  }

  /** The build worker behaves as expected. */
  lemma JobBehaves(env: Env, manifest: Value, tools: Tools)
    ensures Behaves(manifest, JobOf(env, manifest, tools))
  {
    forall task, s
      ensures BuildProperties.BuildExpected(manifest, task, JobOf(env, manifest, tools)(task, s).outcome)
    {
      BuildProperties.FileKinds(env, manifest, task, s, tools);
    }
  }

  /** Each task's outcome is the one its manifest entry calls for. */
  lemma {:induction false} BuildAllOutcomes(manifest: Value, job: BuildJob, tasks: seq<Manifest.Task>, s: Tree)
    requires Behaves(manifest, job)
    ensures var outs := BuildAll(job, tasks, s).outcomes;
      forall i :: 0 <= i < |tasks| ==> BuildProperties.BuildExpected(manifest, tasks[i], outs[i])
  {
    if tasks != [] {
      BuildAllOutcomes(manifest, job, tasks[..|tasks| - 1], s);
    }
  }

  /** The printed build summary: four counts, the `Missing` and failure
      blocks, and the exit status. */
  datatype BuildCounts = BuildCounts(converted: nat, skipped: nat, missing: nat, failed: nat,
                                     missingListing: seq<string>, failedListing: seq<string>, exitCode: int)

  function CountBuild(rs: seq<string>): BuildCounts
  {
    var missing := Select(MissingKind, rs);
    var failed := Select(FailedKind, rs);
    BuildCounts(|Select(ConvertedKind, rs)|, |Select(SkippedKind, rs)|, |missing|, |failed|,
                Listing("Missing files (may need to download first):", missing),
                Listing("Failed conversions:", failed), ExitCode(failed))
  }

  /** How the build's `main` ends. */
  datatype BuildEnd =
    | BuildCrashed(error: string)
    | NothingToBuild
    | Built(workers: int, results: seq<string>, counts: BuildCounts)

  datatype BuildSession = BuildSession(tree: Tree, end: BuildEnd)

  /** A whole build run from the trees `s`, with `job` run for each task. */
  function BuildRun(manifest: Value, job: BuildJob, s: Tree): BuildSession
  {
    match Manifest.Tasks(manifest)
    case Err(e) => BuildSession(s, BuildCrashed(e))
    case Ok(tasks) =>
      if tasks == [] then BuildSession(s, NothingToBuild)
      else
        var b := BuildAll(job, tasks, s);
        match Driver.Collected(b.outcomes)
        case Err(e) => BuildSession(b.tree, BuildCrashed(e))
        case Ok(rs) => BuildSession(b.tree, Built(BuildWorkers(|tasks|), rs, CountBuild(rs)))
  }

  /** `main` after the manifest is loaded. */
  method BuildMain(env: Env, manifest: Value, disk: BuildDisk, tools: Tools) returns (end: BuildEnd)
    modifies disk
    ensures BuildSession(disk.State(), end) == BuildRun(manifest, JobOf(env, manifest, tools), old(disk.State()))
  {
    var tasks := Manifest.BuildTasks(manifest);
    if tasks.Err? {
      return BuildCrashed(tasks.error);
    }
    var n := |tasks.value|;
    if n == 0 {
      return NothingToBuild;
    }
    var workers := BuildWorkers(n);
    var outs := ProcessAll(env, manifest, tasks.value, disk, tools);
    var collected := Driver.CollectThreaded(outs);
    if collected.Err? {
      return BuildCrashed(collected.error);
    }
    end := Built(workers, collected.value, CountBuild(collected.value));
  }

  /** The build ends with an exception exactly when some task's manifest
      lookup fails, and that exception is the unbound `dir_name`. */
  lemma BuildCrash(manifest: Value, job: BuildJob, s: Tree)
    requires Behaves(manifest, job)
    requires Manifest.Tasks(manifest).Ok? && Manifest.Tasks(manifest).value != []
    ensures var tasks := Manifest.Tasks(manifest).value;
      var end := BuildRun(manifest, job, s).end;
      (end.BuildCrashed? <==> exists i :: 0 <= i < |tasks| && SourceUrl(manifest, tasks[i]).None?) &&
      (end.BuildCrashed? ==> end.error == UnboundDirName) &&
      (end.Built? ==> |end.results| == |tasks| && 1 <= end.workers <= 14)
  {
    var tasks := Manifest.Tasks(manifest).value;
    var outs := BuildAll(job, tasks, s).outcomes;
    BuildAllOutcomes(manifest, job, tasks, s);
    Driver.CollectedRule(outs);
    assert forall i :: 0 <= i < |tasks| ==> (outs[i].Raised? <==> SourceUrl(manifest, tasks[i]).None?);
    PoolSizes(1, |tasks|);
  }

  /** The four counts of a finished build add up to the number of tasks, and
      the run exits 1 exactly when some result is a failure: `Missing`
      results alone end it normally. */
  lemma BuildSummary(manifest: Value, job: BuildJob, s: Tree)
    requires Behaves(manifest, job)
    requires BuildRun(manifest, job, s).end.Built?
    ensures var end := BuildRun(manifest, job, s).end;
      end.counts.converted + end.counts.skipped + end.counts.missing + end.counts.failed == |end.results| &&
      (end.counts.exitCode == 1 <==> exists i :: 0 <= i < |end.results| && Is(FailedKind, end.results[i])) &&
      (end.counts.exitCode == 0 <==> end.counts.failed == 0)
  {
    var tasks := Manifest.Tasks(manifest).value;
    var outs := BuildAll(job, tasks, s).outcomes;
    var rs := BuildRun(manifest, job, s).end.results;
    BuildAllOutcomes(manifest, job, tasks, s);
    Driver.CollectedRule(outs);
    assert forall i :: 0 <= i < |rs| ==> BuildReport(rs[i]) by {
      forall i | 0 <= i < |rs|
        ensures BuildReport(rs[i])
      {
        assert rs[i] == outs[i].report;
      }
    }
    BuildPartition(rs);
    ExitRule(rs);
  }
}
