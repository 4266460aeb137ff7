/** `process_single_file` of the parquet build stage: where a partition's raw
    file and its brick live, when the brick is up to date, and what the
    unzip and the converter make of the rest. The archive reader and the
    converter process are inputs. */
module BuildParquet {
  import opened Wrappers
  import opened Text
  import opened PyValues
  import opened PosixPath
  import opened Targets
  import Manifest
  import Summary
  import Fetch

  /** What the build reads of a file: its modification time and size. */
  datatype Stat = Stat(mtime: int, size: nat)

  /** The raw and brick trees: files by path, and the directories made. */
  datatype Tree = Tree(files: map<string, Stat>, dirs: set<string>)

  /** `OPENFDA_RAW_PATH` and `OPENFDA_BRICK_PATH`, when set. */
  datatype Env = Env(rawRoot: Option<string>, brickRoot: Option<string>)

  /** What extracting a `.zip` raw file yields: not an archive, no
      top-level `*.json` entry, or the first one `glob` lists. */
  datatype Unzipped = BadZip | NoJson | FirstJson(member: string)

  /** The JSON file handed to the converter. */
  datatype Source = RawFile(path: string) | Extracted(archive: string, member: string)

  /** What the converter process does: its exit status, and the brick file it
      leaves behind (absent when there is none). */
  datatype Conversion = Conversion(status: int, brick: Option<Stat>)

  /** The archive reader and the `os.system` call of the converter. */
  datatype Tools = Tools(unzip: string -> Unzipped, convert: (Source, string) -> Conversion)

  /** The tree after one file, and what the worker returned or raised. */
  datatype Step = Step(tree: Tree, outcome: Fetch.Outcome)

  /** What the last handler's f-string raises when `dir_name` was never bound. */
  const UnboundDirName: string := "cannot access local variable 'dir_name' where it is not associated with a value"

  /** `download_data['results'][data_type][field_name]['partitions'][i]['file']`;
      `None` when a subscript raises or the URL is not a string, all before
      `dir_name` is bound. */
  function SourceUrl(manifest: Value, task: Manifest.Task): Option<string>
  {
    match Manifest.Results(manifest)
    case None => None
    case Some(results) =>
      match Manifest.FieldEntry(results, task.dataType, task.fieldName)
      case None => None
      case Some(info) =>
        match Index(info, Str("partitions"))
        case None => None
        case Some(parts) =>
          match Index(parts, Int(task.index))
          case None => None
          case Some(part) =>
            match Index(part, Str("file"))
            case Some(Str(url)) => Some(url)
            case _ => None
  }

  /** `{data_type}/{dir_name}/{filename}`, the name in every report. */
  function Key(t: Target): string
  {
    t.dataType + "/" + t.dirName + "/" + t.fileName
  }

  /** `Path(raw_root) / data_type / dir_name / filename`. */
  function RawPath(root: string, t: Target): string
  {
    JoinParts([root, t.dataType, t.dirName, t.fileName])
  }

  /** `Path(brick_root) / data_type / dir_name`. */
  function BrickDir(root: string, t: Target): string
  {
    JoinParts([root, t.dataType, t.dirName])
  }

  /** `brick_dir / f"{base_name}.parquet"`. */
  function BrickPath(root: string, t: Target): string
  {
    JoinParts([root, t.dataType, t.dirName, BrickFileName(t.fileName)])
  }

  /** The brick exists, the raw file exists, and the brick is strictly newer. */
  predicate Fresh(s: Tree, raw: string, brick: string)
  {
    brick in s.files && raw in s.files && s.files[brick].mtime > s.files[raw].mtime
  }

  /** The report of the outer handler. */
  function ErrorReport(t: Target, message: string): string
  {
    "Error processing " + Key(t) + ": " + message
  }

  /** The JSON input: the raw file itself, or for a `.zip` name the first
      extracted `*.json`; a bad archive or one without JSON ends the worker
      with its report. */
  function Extract(t: Target, raw: string, unzip: string -> Unzipped): Result<Source>
  {
    if EndsWith(t.fileName, ".zip") then
      match unzip(raw)
      case BadZip => Err("Error: Bad zip file " + t.fileName)
      case NoJson => Err("Error: No JSON file found in " + t.fileName)
      case FirstJson(m) => Ok(Extracted(raw, m))
    else Ok(RawFile(raw))
  }

  /** The files after the converter left `brick` as `left`. */
  function Leave(files: map<string, Stat>, brick: string, left: Option<Stat>): map<string, Stat>
  {
    match left
    case Some(st) => files[brick := st]
    case None => files - {brick}
  }

  /** `brick_file.stat().st_size if brick_file.exists() else 0`. */
  function SizeOf(files: map<string, Stat>, path: string): nat
  {
    if path in files then files[path].size else 0
  }

  /** The converter run and the report on its exit status. */
  function ConvertStep(t: Target, source: Source, brick: string, s: Tree, convert: (Source, string) -> Conversion): Step
  {
    var c := convert(source, brick);
    var files := Leave(s.files, brick, c.brick);
    var report :=
      if c.status == 0 then "Converted " + Key(t) + " (" + NatToString(SizeOf(files, brick)) + " bytes)"
      else "Failed " + Key(t);
    Step(Tree(files, s.dirs), Fetch.Returned(report))
  }

  /** The worker once `filename` and `dir_name` are bound. */
  function ProcessTarget(env: Env, t: Target, s: Tree, tools: Tools): Step
  {
    match env.rawRoot
    case None => Step(s, Fetch.Returned(ErrorReport(t, "'OPENFDA_RAW_PATH'")))
    case Some(rawRoot) =>
      match env.brickRoot
      case None => Step(s, Fetch.Returned(ErrorReport(t, "'OPENFDA_BRICK_PATH'")))
      case Some(brickRoot) =>
        var raw := RawPath(rawRoot, t);
        var brick := BrickPath(brickRoot, t);
        var s1 := Tree(s.files, s.dirs + {BrickDir(brickRoot, t)});
        if Fresh(s1, raw, brick) then Step(s1, Fetch.Returned("Skipped " + Key(t) + " (up to date)"))
        else if raw !in s1.files then Step(s1, Fetch.Returned("Missing " + Key(t)))
        else
          match Extract(t, raw, tools.unzip)
          case Err(report) => Step(s1, Fetch.Returned(report))
          case Ok(source) => ConvertStep(t, source, brick, s1, tools.convert)
  }

  /** `process_single_file` for one task. */
  function ProcessFile(env: Env, manifest: Value, task: Manifest.Task, s: Tree, tools: Tools): Step
  {
    match SourceUrl(manifest, task)
    case None => Step(s, Fetch.Raised(UnboundDirName))
    case Some(url) => ProcessTarget(env, Resolve(task.dataType, url), s, tools)
  }

  /** The raw and brick trees as the worker changes them. */
  class BuildDisk {
    var files: map<string, Stat>
    var dirs: set<string>

    function State(): Tree
      reads this
    {
      Tree(files, dirs)
    }

    constructor (s: Tree)
      ensures State() == s
    {
      files, dirs := s.files, s.dirs;
    }

    /** `brick_dir.mkdir(parents=True, exist_ok=True)`. */
    method MakeDirs(dir: string)
      modifies this
      ensures State() == Tree(old(files), old(dirs) + {dir})
    {
      dirs := dirs + {dir};
    }

    /** `os.system(...)`: the converter runs and leaves the brick as it
        chooses. */
    method RunConverter(convert: (Source, string) -> Conversion, source: Source, brick: string) returns (status: int)
      modifies this
      ensures status == convert(source, brick).status
      ensures State() == Tree(Leave(old(files), brick, convert(source, brick).brick), old(dirs))
    {
      var c := convert(source, brick);
      status := c.status;
      if c.brick.Some? {
        files := files[brick := c.brick.value];
      } else {
        files := files - {brick};
      }
    }
  }

  /** The worker on the disk, once its target is resolved. */
  method ProcessResolved(env: Env, t: Target, disk: BuildDisk, tools: Tools) returns (outcome: Fetch.Outcome)
    modifies disk
    ensures disk.State() == ProcessTarget(env, t, old(disk.State()), tools).tree
    ensures outcome == ProcessTarget(env, t, old(disk.State()), tools).outcome
  {
    if env.rawRoot.None? {
      return Fetch.Returned(ErrorReport(t, "'OPENFDA_RAW_PATH'"));
    }
    var raw := RawPath(env.rawRoot.value, t);
    if env.brickRoot.None? {
      return Fetch.Returned(ErrorReport(t, "'OPENFDA_BRICK_PATH'"));
    }
    disk.MakeDirs(BrickDir(env.brickRoot.value, t));
    var brick := BrickPath(env.brickRoot.value, t);
    if brick in disk.files && raw in disk.files {
      if disk.files[brick].mtime > disk.files[raw].mtime {
        return Fetch.Returned("Skipped " + Key(t) + " (up to date)");
      }
    }
    if raw !in disk.files {
      return Fetch.Returned("Missing " + Key(t));
    }
    var source: Source;
    if EndsWith(t.fileName, ".zip") {
      var u := tools.unzip(raw);
      match u
      case BadZip =>
        return Fetch.Returned("Error: Bad zip file " + t.fileName);
      case NoJson =>
        return Fetch.Returned("Error: No JSON file found in " + t.fileName);
      case FirstJson(m) =>
        source := Extracted(raw, m);
    } else {
      source := RawFile(raw);
    }
    var status := disk.RunConverter(tools.convert, source, brick);
    if status == 0 {
      var size := if brick in disk.files then disk.files[brick].size else 0;
      outcome := Fetch.Returned("Converted " + Key(t) + " (" + NatToString(size) + " bytes)");
    } else {
      outcome := Fetch.Returned("Failed " + Key(t));
    }
  }

  /** `process_single_file`: the manifest lookup, then the resolved worker. */
  method ProcessSingleFile(env: Env, manifest: Value, task: Manifest.Task, disk: BuildDisk, tools: Tools)
    returns (outcome: Fetch.Outcome)
    modifies disk
    ensures disk.State() == ProcessFile(env, manifest, task, old(disk.State()), tools).tree
    ensures outcome == ProcessFile(env, manifest, task, old(disk.State()), tools).outcome
  {
    var url := SourceUrl(manifest, task);
    if url.None? {
      return Fetch.Raised(UnboundDirName);
    }
    outcome := ProcessResolved(env, Resolve(task.dataType, url.value), disk, tools);
  }
}
