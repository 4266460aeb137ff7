/** What the build worker promises: the four-way decision, the files it may
    change, the second run, and the layout it shares with the download
    stage. */
module BuildProperties {
  import opened Wrappers
  import opened Text
  import opened PyValues
  import opened PosixPath
  import opened Targets
  import opened Summary
  import opened BuildParquet
  import Manifest
  import Fetch

  /** The leading words of the build reports. */
  lemma BuildWords()
    ensures StartsWith("Skipped ", "Skipped") && StartsWith("Missing ", "Missing") && StartsWith("Converted ", "Converted")
    ensures StartsWith("Failed ", "Failed") && StartsWith("Error processing ", "Error")
    ensures StartsWith("Error: Bad zip file ", "Error") && StartsWith("Error: No JSON file found in ", "Error")
  {
    assert "Skipped "[..7] == "Skipped";
    assert "Missing "[..7] == "Missing";
    assert "Converted "[..9] == "Converted";
    assert "Failed "[..6] == "Failed";
    assert "Error processing "[..5] == "Error";
    assert "Error: Bad zip file "[..5] == "Error";
    assert "Error: No JSON file found in "[..5] == "Error";
  }

  /** Both roots are set. */
  predicate Configured(env: Env)
  {
    env.rawRoot.Some? && env.brickRoot.Some?
  }

  /** Without either root the worker changes nothing and reports a failure
      naming the missing variable, the raw one first. */
  lemma Unconfigured(env: Env, t: Target, s: Tree, tools: Tools)
    requires !Configured(env)
    ensures ProcessTarget(env, t, s, tools).tree == s
    ensures ProcessTarget(env, t, s, tools).outcome ==
      Fetch.Returned(ErrorReport(t, if env.rawRoot.None? then "'OPENFDA_RAW_PATH'" else "'OPENFDA_BRICK_PATH'"))
    ensures Is(FailedKind, ProcessTarget(env, t, s, tools).outcome.report)
  {
    BuildWords();
    Lead4("Error", "Error processing ", Key(t), ": ", if env.rawRoot.None? then "'OPENFDA_RAW_PATH'" else "'OPENFDA_BRICK_PATH'");
  }

  /** The report of a configured worker falls into the category its
      situation calls for, and only that one: `Skipped` exactly when the brick
      is strictly newer than the raw file, `Missing` exactly when it is not
      and the raw file is absent, `Converted` exactly when the converter ran
      and exited 0, and a failure in every other case. */
  lemma TargetKinds(env: Env, t: Target, s: Tree, tools: Tools)
    requires Configured(env)
    ensures var raw := RawPath(env.rawRoot.value, t);
      var brick := BrickPath(env.brickRoot.value, t);
      var r := ProcessTarget(env, t, s, tools).outcome;
      var source := Extract(t, raw, tools.unzip);
      var runs := !Fresh(s, raw, brick) && raw in s.files && source.Ok?;
      r.Returned? &&
      (Is(SkippedKind, r.report) <==> Fresh(s, raw, brick)) &&
      (Is(MissingKind, r.report) <==> !Fresh(s, raw, brick) && raw !in s.files) &&
      (Is(ConvertedKind, r.report) <==> runs && tools.convert(source.value, brick).status == 0) &&
      (Is(FailedKind, r.report) <==> !Fresh(s, raw, brick) && raw in s.files && (source.Err? || tools.convert(source.value, brick).status != 0))
  {
    var raw := RawPath(env.rawRoot.value, t);
    var brick := BrickPath(env.brickRoot.value, t);
    var s1 := Tree(s.files, s.dirs + {BrickDir(env.brickRoot.value, t)});
    assert Fresh(s1, raw, brick) == Fresh(s, raw, brick);
    var r := ProcessTarget(env, t, s, tools).outcome.report;
    BuildWords();
    if Fresh(s, raw, brick) {
      Lead3("Skipped", "Skipped ", Key(t), " (up to date)");
      Sole(SkippedKind, r);
    } else if raw !in s.files {
      Extend("Missing ", Key(t), "Missing");
      Sole(MissingKind, r);
    } else {
      match Extract(t, raw, tools.unzip)
      case Err(e) =>
        if tools.unzip(raw).BadZip? {
          Extend("Error: Bad zip file ", t.fileName, "Error");
        } else {
          Extend("Error: No JSON file found in ", t.fileName, "Error");
        }
        Sole(FailedKind, r);
      case Ok(source) =>
        var c := tools.convert(source, brick);
        if c.status == 0 {
          var size := SizeOf(Leave(s.files, brick, c.brick), brick);
          Lead4("Converted", "Converted ", Key(t), " (", NatToString(size));
          Extend("Converted " + Key(t) + " (" + NatToString(size), " bytes)", "Converted");
          Sole(ConvertedKind, r);
        } else {
          Extend("Failed ", Key(t), "Failed");
          Sole(FailedKind, r);
        }
    }
  }

  /** A configured worker makes the brick directory and may change no file
      but the brick, and changes files only when the converter ran. */
  lemma TouchesOnlyBrick(env: Env, t: Target, s: Tree, tools: Tools)
    requires Configured(env)
    ensures var raw := RawPath(env.rawRoot.value, t);
      var brick := BrickPath(env.brickRoot.value, t);
      var after := ProcessTarget(env, t, s, tools).tree;
      after.dirs == s.dirs + {BrickDir(env.brickRoot.value, t)} &&
      (forall p :: p != brick ==> (p in after.files <==> p in s.files)) &&
      (forall p :: p != brick && p in s.files ==> after.files[p] == s.files[p]) &&
      (after.files != s.files ==> !Fresh(s, raw, brick) && raw in s.files && Extract(t, raw, tools.unzip).Ok?)
  {
  }

  /** After a conversion, running the worker again skips exactly when the
      brick the converter left is strictly newer than the raw file, and then
      changes nothing. */
  lemma SecondBuild(env: Env, t: Target, s: Tree, tools: Tools)
    requires Configured(env)
    requires RawPath(env.rawRoot.value, t) != BrickPath(env.brickRoot.value, t)
    requires Is(ConvertedKind, ProcessTarget(env, t, s, tools).outcome.report)
    ensures var raw := RawPath(env.rawRoot.value, t);
      var brick := BrickPath(env.brickRoot.value, t);
      var first := ProcessTarget(env, t, s, tools).tree;
      var second := ProcessTarget(env, t, first, tools);
      raw in s.files &&
      (Is(SkippedKind, second.outcome.report) <==> brick in first.files && first.files[brick].mtime > s.files[raw].mtime) &&
      (Is(SkippedKind, second.outcome.report) ==> second.tree == first)
  {
    var raw := RawPath(env.rawRoot.value, t);
    var brick := BrickPath(env.brickRoot.value, t);
    var first := ProcessTarget(env, t, s, tools).tree;
    TargetKinds(env, t, s, tools);
    TouchesOnlyBrick(env, t, s, tools);
    TargetKinds(env, t, first, tools);
    TouchesOnlyBrick(env, t, first, tools);
    assert first.dirs + {BrickDir(env.brickRoot.value, t)} == first.dirs;
  }

  /** The outcome a build worker must have for its task: the lookup failure
      raises the unbound-name error, anything else is a report the build
      summary sorts. */
  predicate BuildExpected(manifest: Value, task: Manifest.Task, o: Fetch.Outcome)
  {
    if SourceUrl(manifest, task).None? then o == Fetch.Raised(UnboundDirName)
    else o.Returned? && BuildReport(o.report)
  }

  /** The worker raises exactly when its manifest lookup fails, and then
      changes nothing; otherwise its report is one the summary sorts. */
  lemma FileKinds(env: Env, manifest: Value, task: Manifest.Task, s: Tree, tools: Tools)
    ensures BuildExpected(manifest, task, ProcessFile(env, manifest, task, s, tools).outcome)
    ensures SourceUrl(manifest, task).None? ==> ProcessFile(env, manifest, task, s, tools).tree == s
  {
    match SourceUrl(manifest, task)
    case None =>
    case Some(url) =>
      var t := Resolve(task.dataType, url);
      if Configured(env) {
        TargetKinds(env, t, s, tools);
      } else {
        Unconfigured(env, t, s, tools);
      }
  }

  /** The build reads the URL the download stage read for the same task. */
  lemma SameUrl(manifest: Value, task: Manifest.Task)
    ensures Fetch.EntryOf(manifest, task).Some? ==> SourceUrl(manifest, task) == Some(Fetch.EntryOf(manifest, task).value.url)
  {
  }

  /** `Path(root) / rel` for a relative path already joined. */
  function Under(root: string, rel: string): string
  {
    if !Kept(root) then rel else if rel == "" then root else root + "/" + rel
  }

  /** Joining a root in front of parts puts the root in front of their join. */
  lemma {:induction false} JoinUnder(root: string, parts: seq<string>)
    ensures JoinParts([root] + parts) == Under(root, JoinParts(parts))
  {
    if parts != [] {
      var init, last := parts[..|parts| - 1], parts[|parts| - 1];
      JoinUnder(root, init);
      assert ([root] + parts)[..|parts|] == [root] + init;
      var j := JoinParts(init);
      if Kept(last) && Kept(root) && j != "" {
        assert root + "/" + j + "/" + last == root + "/" + (j + "/" + last);
      }
    }
  }

  /** The raw file the build reads is the download stage's artifact path
      under the raw root; the brick lies at the same place under the brick
      root with the parquet name, in the mirror of the download directory. */
  lemma MirrorLayout(rawRoot: string, brickRoot: string, t: Target)
    ensures RawPath(rawRoot, t) == Under(rawRoot, ArtifactPath(t))
    ensures BrickDir(brickRoot, t) == Under(brickRoot, DownloadDir(t))
    ensures BrickPath(brickRoot, t) == Under(brickRoot, ArtifactPath(Target(t.dataType, t.dirName, BrickFileName(t.fileName))))
  {
    JoinUnder(rawRoot, [t.dataType, t.dirName, t.fileName]);
    assert [rawRoot] + [t.dataType, t.dirName, t.fileName] == [rawRoot, t.dataType, t.dirName, t.fileName];
    JoinUnder(brickRoot, [t.dataType, t.dirName]);
    assert [brickRoot] + [t.dataType, t.dirName] == [brickRoot, t.dataType, t.dirName];
    JoinUnder(brickRoot, [t.dataType, t.dirName, BrickFileName(t.fileName)]);
    assert [brickRoot] + [t.dataType, t.dirName, BrickFileName(t.fileName)] ==
      [brickRoot, t.dataType, t.dirName, BrickFileName(t.fileName)];
  }
}
