# OpenFDA pipeline core

A model of the core of the OpenFDA data pipeline, with proofs of its
properties. It covers:

- the download stage, in its thread-pool form and its asyncio form. This
  includes the manifest walk, the freshness rule built on `parse_date`, the
  per-file worker (skip check, conditional request, temporary file, move,
  `.last-modified` marker, cleanup) and the summary with its exit status;
- the parquet build stage: the per-file decision (up to date, missing, zip
  handling, converter exit status) and its four-way summary;
- the JSON-to-parquet converter: `safe_convert_to_string` together with the
  `json.dumps` serialiser it relies on, `flatten_complex_data` over a column
  table, and the `'results'` selection;
- the label helpers `get_first_val` and `cleanup_labels`.

Python values (`json.load` output, manifest entries, data-frame cells, label
records) are one datatype, `PyValues.Value`. A dictionary is a sequence of
entries, so insertion order is kept.

The two download programs share one worker model, `Fetch.PlanDownload`,
which takes a `Variant` (`Threaded` or `Async`). The worker returns the
trace of file-system operations it performs, the request it sends, and what
it returns or raises. The imperative worker `Worker.DownloadSingleFile`
changes a `FileSystem.Disk` step by step and is proved to perform exactly
that trace. Because every prefix of a trace is a state an interrupted run
can leave, properties about intermediate states are stated over prefixes.

The outside world enters as parameters:

- the HTTP server (`Fetch.Host`);
- `strptime` and the `dateutil` fallback (`Dates.Parsers`);
- the archive reader and the converter process (`BuildParquet.Tools`);
- `str()` (`Json2Parquet.Repr`);
- pandas' dtype inference (`Json2Parquet.Infer`).

## Model

| member | source | states |
|---|---|---|
| PyValues.KeysOf | stages/04_build.py:104 | the keys of a dictionary in insertion order, one per entry |
| PyValues.Lookup | stages/02_download.py:72-74 | `d[k]` succeeds exactly when some entry's key equals `k` under Python's `==`, so `True == 1` and `False == 0` |
| PyValues.LookupFirst | stages/02_download.py:72-74 | a successful lookup yields the value of the first entry whose key equals `k` |
| PyValues.LookupDistinct | stages/02_download.py:72-74 | in a dict with distinct keys, looking up an entry's own key yields that entry's value |
| PyValues.Index | stages/04_build.py:45 | a subscript on a dict is a key lookup; an in-range integer subscript on a list yields that item |
| PosixPath.SplitPoint | stages/02_download.py:77 | the last component starts right after the last `/`, and no `/` follows that point |
| PosixPath.Basename | stages/02_download.py:77 | `basename(url)` is a suffix of the URL that contains no `/` and is preceded by a `/` when shorter than the URL |
| PosixPath.TrimSlashes | stages/02_download.py:78 | `rstrip('/')` is a prefix that does not end in `/`, and only slashes were removed |
| PosixPath.Dirname | stages/02_download.py:78 | `dirname(url)` is the part of the URL before its last `/` with the trailing slashes removed, unless that part is slashes only: a prefix ending at or before the last `/`, followed only by slashes up to it, empty exactly when the URL has no `/`, and ending in `/` only when it is all slashes, in which case nothing was removed |
| Targets.Resolve | stages/02_download.py:77-78 | `filename` is the URL's suffix after its last `/` and contains no `/`; `dir_name` contains no `/` and is the last segment of the text before `filename`: preceded by a `/` or the start and followed by the whole run of slashes before `filename` (so `x/a//f` gives `a`); it is empty when the URL has no `/` |
| Targets.LastSegmentUnique | stages/02_download.py:78 | a head has only one last segment: two `/`-free segments meeting that description are equal and end at the same place, so `Resolve`'s contract determines `dir_name` |
| Targets.DoubledSlashNames | stages/02_download.py:77-78 | for `x/a//f`, any names meeting `Resolve`'s contract are `f` and `a`, as `basename(dirname(...))` gives |
| Targets.DirNameIsLastSegment | stages/02_download.py:78 | `basename(dirname(url))` is that last segment |
| Targets.SlashesSegment | stages/02_download.py:78 | when only slashes precede the last `/`, the directory name is empty |
| Targets.TrimmedSegment | stages/02_download.py:78 | otherwise, with the trailing slashes trimmed, the basename of what is left is the segment before those slashes |
| Targets.JoinLast | stages/02_download.py:79-81 | joining one more part onto a path appends it to the joined path |
| Targets.MarkerBesideArtifact | stages/02_download.py:79-81 | the marker path is the artifact path followed by `.last-modified`, in the same directory; the two paths always differ |
| Targets.MarkerDeterminesArtifact | stages/02_download.py:80-81 | two tasks whose markers coincide share their artifact |
| Targets.BrickNameOfJsonZip | stages/build_parquet.py:35-42 | `x.json.zip` becomes `x.parquet` |
| Targets.BrickNameOfZip | stages/build_parquet.py:37-42 | `x.zip` becomes `x.parquet` |
| Targets.BrickNameOfOther | stages/build_parquet.py:39-42 | any name not ending in `.zip` gets `.parquet` appended |
| Targets.BrickNameOfJson | stages/build_parquet.py:39-42 | `x.json` becomes `x.json.parquet` |
| Text.LStrip | stages/02_download.py:51 | leading whitespace is removed and only whitespace was removed |
| Text.RStrip | stages/02_download.py:51 | trailing whitespace is removed and only whitespace was removed |
| Text.Strip | stages/02_download.py:51 | the result neither starts nor ends with whitespace |
| Text.StripSlice | stages/02_download.py:51 | the stripped text is a slice of the input, and everything around it is whitespace |
| Dates.FirstMatchIsEarliest | stages/02_download.py:49-53 | the format loop ends with an instant or a non-`ValueError` exception exactly when that is the outcome of the earliest format that does not raise `ValueError`, and it falls through exactly when every format raises `ValueError` |
| Dates.ParseDateEarliestFormat | stages/02_download.py:38-60 | the first of the four formats that does not raise `ValueError` on the stripped text decides: its instant when it parses, and 0 when it raises any other exception; later formats and the fallback are not consulted |
| Dates.ParseDateFallback | stages/02_download_async.py:27-43 | only when every format raises `ValueError` is the fallback parser used, on the unstripped text, and 0 when that fails too |
| Dates.StaleWhenEqual | stages/02_download.py:92 | equal instants are not up to date, so the file is fetched again |
| Dates.UnparseableMarkerIsStale | stages/02_download.py:49-92 | a marker that no format parses and the fallback rejects counts as the epoch and is stale against any export date at or after the epoch, including an unparseable one |
| Manifest.Partitions | stages/02_download.py:229-231 | one task per partition index, in index order |
| Manifest.FieldTasks | stages/02_download.py:227-231 | the tasks of a data type's fields, field by field; failure is the malformed-manifest error |
| Manifest.TypeTasks | stages/02_download.py:227-228 | the tasks of one data type, or the malformed-manifest error |
| Manifest.TypesTasks | stages/02_download.py:226-231 | the tasks of the data types in order, or the malformed-manifest error |
| Manifest.Tasks | stages/02_download.py:225-231 | the whole task list, or the malformed-manifest error |
| Manifest.FieldTasksErrExtends | stages/02_download.py:227-229 | once a field cannot be walked, the walk of the whole data type fails |
| Manifest.TypesTasksErrExtends | stages/02_download.py:226-229 | once a data type cannot be walked, the whole walk fails |
| Manifest.FieldTasksExact | stages/02_download.py:227-231 | a field's tasks are exactly its partitions: each task names an existing partition of a listed field, and each such partition is a task |
| Manifest.TypesTasksExact | stages/02_download.py:226-231 | the same one level up, over the data types |
| Manifest.TasksExact | stages/02_download.py:225-231 | the task list holds one task for every partition of every field of every data type, and nothing else |
| Manifest.LevelKeysDistinct | stages/02_download.py:226-227 | the names a dict level yields are distinct |
| Manifest.FieldTasksOnce | stages/02_download.py:227-231 | distinct field names give distinct tasks, as many as their partitions |
| Manifest.TypesTasksOnce | stages/02_download.py:226-231 | distinct data types with distinct field names give distinct tasks, as many as their partitions |
| Manifest.TasksOnce | stages/02_download.py:225-231 | on a manifest whose dicts have distinct keys, no task occurs twice and there are as many tasks as partitions |
| Manifest.AppendPartitions | stages/02_download_async.py:174-175 | the innermost loop appends exactly the field's partitions to the list |
| Manifest.CollectType | stages/build_parquet.py:111-114 | the two inner loops compute the data type's tasks, or stop with the malformed-manifest error |
| Manifest.BuildTasks | stages/build_parquet.py:108-114 | the three nested loops compute exactly the task list of the manifest |
| FileSystem.RunSnoc | stages/02_download.py:62-153 | running one more operation applies it to the state reached so far |
| FileSystem.RunAppend | stages/02_download.py:62-153 | running two traces one after another equals running their concatenation |
| FileSystem.ApplyKeeps | stages/02_download.py:84-139 | no operation removes a file of the download tree, and temporary names are never reused |
| FileSystem.Disk.constructor | stages/02_download.py:62 | the disk starts in the given state |
| FileSystem.Disk.MakeDirs | stages/02_download.py:84 | `mkdir(parents=True, exist_ok=True)` adds the directory and changes nothing else |
| FileSystem.Disk.CreateTemp | stages/02_download.py:106-107 | a fresh, empty temporary file under a name never used before |
| FileSystem.Disk.AppendTemp | stages/02_download.py:130 | one chunk is appended to the temporary file |
| FileSystem.Disk.RemoveTemp | stages/02_download.py:145-146 | the temporary file is removed |
| FileSystem.Disk.Move | stages/02_download.py:133 | `shutil.move` is one rename on the same file system, and truncate, copy, unlink otherwise |
| FileSystem.Disk.Truncate | stages/02_download.py:138 | `open(path, 'w')` leaves the marker empty, or creates it empty |
| FileSystem.Disk.WriteText | stages/02_download.py:138-139 | the marker file holds exactly the written text |
| Fetch.Header | stages/02_download.py:101-103 | `If-Modified-Since` is set exactly when a previous marker was read and is not empty, and it carries that text |
| Fetch.WriteOps | stages/02_download.py:127-130 | the chunk loop only appends to the temporary file, at most once per chunk |
| Fetch.MarkerOps | stages/02_download.py:136-139 | the marker is written exactly when a non-empty `Last-Modified` header came back: it is opened (and so emptied), then the header is written to it |
| Fetch.Abort | stages/02_download.py:143-153 | every exception handler returns a report; none raises |
| Worker.WriteBody | stages/02_download_async.py:99-101 | the write loop performs exactly the chunk writes of the plan |
| Worker.Handle | stages/02_download_async.py:118-129 | each handler performs exactly the cleanup of the plan and returns its report |
| Worker.Transact | stages/02_download.py:111-147 | request, status handling, body, move and marker perform exactly the plan's operations and ending |
| Worker.Request | stages/02_download.py:106-147 | from the temporary file on, the disk goes through exactly the plan's operations and the outcome is the plan's |
| Worker.DownloadEntry | stages/02_download.py:84-153 | directory, skip rule and conditional request leave the disk and the result as the plan says |
| Worker.DownloadSingleFile | stages/02_download.py:62-153 | `download_single_file` changes the disk exactly as the plan says and returns the plan's request and outcome, in both programs |
| FetchProperties.WriteOpsBody | stages/02_download.py:127-130 | writing the chunks appends the whole body to the temporary file and changes nothing else |
| FetchProperties.FilteringKeepsBody | stages/02_download.py:129 | dropping empty keep-alive chunks leaves the same file as writing them |
| FetchProperties.MoveResult | stages/02_download.py:133 | after `shutil.move` the destination holds the temporary file's contents and the temporary file is gone, by rename or by copy |
| FetchProperties.RequestShape | stages/02_download.py:86-147 | a worker that sends a request did not skip, sends the URL with the header the marker calls for, and its trace is mkdir, temporary file, then the exchange |
| FetchProperties.SkipShape | stages/02_download.py:86-93 | a worker that sends no request skipped on the marker, after making the directory and nothing else |
| FetchProperties.LookupRule | stages/02_download.py:72-153 | the worker raises exactly when its manifest entry cannot be read, and then sends nothing and touches nothing |
| FetchProperties.EndingKinds | stages/02_download.py:119-147 | every report the exchange decides begins with `Skipped`, `Failed` or `Error` |
| FetchProperties.StoredKinds | stages/02_download.py:141 | after a stored body the threaded program reports a failure and the async program a download |
| FetchProperties.EndingClassified | stages/02_download_async.py:88-129 | a decided exchange ends with a report the summary sorts |
| FetchProperties.StoredClassified | stages/02_download_async.py:113-116 | the report after a stored body is one the summary sorts |
| FetchProperties.SkipClassified | stages/02_download.py:93 | the up-to-date report is sorted as skipped |
| FetchProperties.ReportKinds | stages/02_download.py:62-153 | every report begins with a word the summary sorts by, and only the async program reports `Downloaded` |
| FetchProperties.NotDownloaded | stages/02_download_async.py:232-234 | a skip or a failure never counts as a download |
| FetchProperties.RunKeepsValid | stages/02_download.py:106 | temporary names stay fresh along any trace |
| FetchProperties.RunConfined | stages/02_download.py:62-153 | a trace that writes only some paths leaves every other file as it was |
| FetchProperties.ConfinedAppend | stages/02_download.py:62-153 | two confined traces make a confined trace |
| FetchProperties.PrefixConfined | stages/02_download.py:62-153 | every intermediate state of a confined trace leaves the other files as they were |
| FetchProperties.TransferConfined | stages/02_download.py:111-147 | from the request on, only the artifact and the marker are written, and neither unless the body is stored |
| FetchProperties.HeadConfined | stages/02_download.py:84-107 | making the directory and the temporary file writes no file of the download tree |
| FetchProperties.PlanConfined | stages/02_download.py:62-153 | the worker writes the artifact and the marker and no other file; unless the body is stored it writes no file at all |
| FetchProperties.NothingElseChanges | stages/02_download.py:62-153 | every state the worker passes through, an interrupted one included, differs from the start at most in the artifact and the marker |
| FetchProperties.SkipRule | stages/02_download.py:86-93 | no request is sent exactly when marker and artifact both exist and the stripped marker is strictly later than the export date; a skip reports `Skipped` and changes no file |
| FetchProperties.HeaderRule | stages/02_download.py:86-103 | `If-Modified-Since` is sent exactly when marker and artifact both exist and the stripped marker is not empty, and carries the stripped marker |
| FetchProperties.NotModified | stages/02_download.py:119-121 | on 304 the temporary file is removed, no file changes, and the report is `Skipped ... (not modified)` |
| FetchProperties.StoredArtifact | stages/02_download.py:133 | after a stored body the artifact holds the body |
| FetchProperties.CommittedOps | stages/02_download.py:126-139 | a stored body is written, moved, and then the marker is written, in that order |
| FetchProperties.MovedTrace | stages/02_download.py:126-133 | after writing and moving, the artifact holds the whole body and the temporary file is gone |
| FetchProperties.StoreTrace | stages/02_download.py:126-139 | after writing, moving and marking, the artifact holds the body and the marker holds the header |
| FetchProperties.MarkerTrace | stages/02_download.py:138-139 | opening the marker empties it, and writing then leaves exactly the header |
| FetchProperties.Commit | stages/02_download_async.py:103-116 | a stored body: the artifact holds the body, the marker holds `Last-Modified` if one came back (otherwise the old marker stays), no temporary file is left, and the async report gives the body's size |
| FetchProperties.AbortState | stages/02_download.py:143-147 | a handler removes the temporary file, except the threaded program on an exception outside the HTTP library's family |
| FetchProperties.WrittenThenHandled | stages/02_download.py:143-147 | after a mid-stream exception no file changes and the temporary file is removed or leaked as the handler says |
| FetchProperties.AbortTrace | stages/02_download.py:124-147 | an exception from the request on changes no file and ends with the handler's report |
| FetchProperties.Cleanup | stages/02_download_async.py:118-129 | on an exception no file changes; a transport exception reports `Failed` and removes the temporary file; any other exception reports `Error` (async, removed) or `Error processing` (threaded, leaked) |
| FetchProperties.CommitShape | stages/02_download.py:84-139 | the trace of a stored body is mkdir, temporary file, writes, move, marker |
| FetchProperties.TraceSplit | stages/02_download.py:84-130 | up to the move, the trace writes no file of the download tree |
| FetchProperties.BeforeMove | stages/02_download.py:84-130 | every state before the move has the download tree untouched |
| FetchProperties.RenameKeepsPairs | stages/02_download.py:133-139 | with a rename, every intermediate state holds the old pair, or the new artifact with the old marker, with the marker just emptied by `open(..., 'w')`, or with the new header; a torn artifact is never visible |
| FetchProperties.RenamePairedAt | stages/02_download.py:133-139 | the same at each prefix of the renaming trace |
| FetchProperties.RenamedPaired | stages/02_download.py:133-138 | right after the rename, and right after the marker is opened, the artifact holds the new body; in the second state the marker reads empty |
| FetchProperties.TruncatedAt | stages/02_download.py:133 | the copying trace has a point where the artifact is empty |
| FetchProperties.CopyExposesTruncation | stages/02_download.py:106-133 | with the temporary directory on another file system, a reader can find the artifact empty, neither old nor new |
| FetchProperties.SecondRunSkips | stages/02_download.py:86-121 | after a stored body with `Last-Modified`, a second run either skips on the marker or sends that value as `If-Modified-Since`, and a 304 then changes no file |
| Driver.RunAll | stages/02_download.py:165-170 | one outcome per task |
| Driver.DownloadAll | stages/02_download.py:155-174 | the thread pool runs every task to its end, even after a worker's exception: the disk and the outcomes are those of the workers run in task order |
| Driver.WorkerPlan | stages/02_download.py:165 | the submitted worker is `download_single_file` with the program's fixed inputs |
| Driver.RunAllStep | stages/02_download.py:165-170 | one more task runs on the state the earlier ones left |
| Driver.StepExpected | stages/02_download.py:62-153 | a worker's outcome is the unbound-name error when its lookup fails, and otherwise a sorted report |
| Driver.WorkerBehaves | stages/02_download_async.py:45-133 | that holds for every task and every starting state |
| Driver.RunAllOutcomes | stages/02_download.py:165-170 | each task's outcome is the one its manifest entry calls for, whatever the earlier tasks did to the disk |
| Driver.CollectedErrExtends | stages/02_download.py:168-169 | once a result re-raises, collection stops with that error |
| Driver.CollectedRule | stages/02_download.py:168-170 | collection succeeds exactly when no worker raised, and then holds every report in order; otherwise it fails with the first raised error |
| Driver.CollectThreaded | stages/02_download.py:168-170 | the `as_completed` loop computes that collection |
| Driver.ProcessResults | stages/02_download_async.py:224-229 | one processed line per outcome, with raised exceptions turned into `Error: ...` lines |
| Driver.DownloadMain | stages/02_download.py:225-273 | `main` after loading the manifest: the disk and the ending are those of the whole run |
| Driver.MalformedStops | stages/02_download.py:225-231 | a manifest that cannot be walked ends the run before any worker starts and leaves the disk alone |
| Driver.ThreadedCrash | stages/02_download.py:169 | the threaded program ends with an exception exactly when some task's lookup fails, and that exception is the unbound `filename` |
| Driver.AsyncResults | stages/02_download_async.py:218-229 | the async program never ends with an exception once the manifest is walked, and prints exactly one result per task |
| Driver.LineSorted | stages/02_download_async.py:226-234 | every printed line falls into a category, and the threaded program prints no download |
| Driver.ResultsSorted | stages/02_download_async.py:231-234 | every printed result falls into a category, and only the async program prints `Downloaded` |
| Driver.CountsAddUp | stages/02_download_async.py:231-251 | the three counts add up to the number of results, and the exit status is 1 exactly when some result starts with `Failed` or `Error` |
| Driver.FinishedSummary | stages/02_download.py:254-273 | a finished run has one result per task, counts that add up, the exit rule, and a pool between 1 and its cap |
| Driver.ThreadedDownloadsNothing | stages/02_download.py:141-256 | the threaded program counts no download, because a stored body is reported as `Error processing` |
| Summary.Select | stages/02_download.py:254-256 | a category holds only results of that category |
| Summary.SelectExact | stages/build_parquet.py:144-147 | a category holds exactly the results of that category, each as often as it occurs |
| Summary.Exclusive | stages/build_parquet.py:144-147 | no result falls into two categories |
| Summary.Sole | stages/build_parquet.py:144-147 | a result of one category belongs to no other |
| Summary.FirstLetter | stages/build_parquet.py:144-147 | a result's first letter names its category |
| Summary.TotalSnoc | stages/build_parquet.py:144-147 | one more result adds the number of categories that take it |
| Summary.OneTaker | stages/build_parquet.py:144-147 | a sorted result is taken by exactly one of a list of distinct categories |
| Summary.NoOtherTaker | stages/build_parquet.py:144-147 | categories not listed take none of a result of another category |
| Summary.Partition | stages/build_parquet.py:144-152 | when every result falls into one of the distinct categories, the counts add up to the number of results |
| Summary.EmptyTotal | stages/build_parquet.py:144-152 | no results, no counts |
| Summary.DownloadPartition | stages/02_download_async.py:232-238 | downloaded, skipped and failed add up to the number of results |
| Summary.BuildPartition | stages/build_parquet.py:144-152 | converted, skipped, missing and failed add up to the number of results |
| Summary.ExitRule | stages/02_download_async.py:250-251 | the exit status is 1 exactly when some result starts with `Failed` or `Error`, and 0 otherwise |
| Summary.ListingShape | stages/02_download_async.py:240-245 | a blank line (the header's leading newline) comes before the header, at most the first five failures are listed in order, and `... and k more` appears exactly when there are more than five, with k the rest |
| Summary.Min | stages/02_download.py:158 | `min` is at most both arguments and equals one of them |
| Summary.PoolSizes | stages/02_download.py:158-179 | with at least one task the pool sizes lie between 1 and their caps (20 threads, 8 processes, 10 concurrent requests, 14 build threads) and never exceed the number of tasks |
| BuildParquet.BuildDisk.constructor | stages/build_parquet.py:13 | the trees start in the given state |
| BuildParquet.BuildDisk.MakeDirs | stages/build_parquet.py:32 | the brick directory is added and no file changes |
| BuildParquet.BuildDisk.RunConverter | stages/build_parquet.py:77 | the converter's exit status is returned and only the brick file changes |
| BuildParquet.ProcessResolved | stages/build_parquet.py:27-83 | once `dir_name` is bound, the worker changes the trees and reports as the build plan says |
| BuildParquet.ProcessSingleFile | stages/build_parquet.py:13-86 | `process_single_file` changes the trees and reports as the build plan says |
| BuildProperties.BuildWords | stages/build_parquet.py:47-86 | each report format begins with the word the summary sorts it by |
| BuildProperties.Unconfigured | stages/build_parquet.py:27-86 | without a raw or brick root the worker changes nothing and reports a failure naming the missing variable |
| BuildProperties.TargetKinds | stages/build_parquet.py:44-83 | `Skipped` exactly when the brick is strictly newer than the raw file; `Missing` exactly when it is not and the raw file is absent; `Converted` exactly when the converter ran and exited 0; a failure otherwise, bad or JSON-less zips included |
| BuildProperties.TouchesOnlyBrick | stages/build_parquet.py:32-83 | the worker makes the brick directory and may change no file but the brick, and only when the converter ran |
| BuildProperties.SecondBuild | stages/build_parquet.py:44-47 | after a conversion, a second run skips exactly when the brick left behind is strictly newer than the raw file, and then changes nothing |
| BuildProperties.FileKinds | stages/build_parquet.py:19-86 | the worker raises exactly when its manifest lookup fails, and then changes nothing; otherwise its report is one the summary sorts |
| BuildProperties.SameUrl | stages/build_parquet.py:19-20 | the build reads the same URL the download stage read for the task |
| BuildProperties.JoinUnder | stages/build_parquet.py:27-31 | a root joined in front of parts is the root in front of their join |
| BuildProperties.MirrorLayout | stages/build_parquet.py:22-42 | the raw file is the download artifact under the raw root, and the brick lies at the mirrored place under the brick root, with the parquet name |
| BuildDriver.BuildAll | stages/build_parquet.py:131-136 | one outcome per task |
| BuildDriver.ProcessAll | stages/build_parquet.py:128-138 | every task runs to its end: trees and outcomes are those of the workers run in task order |
| BuildDriver.JobBehaves | stages/build_parquet.py:13-86 | each build worker's outcome is the expected one for every task and every tree |
| BuildDriver.BuildAllOutcomes | stages/build_parquet.py:131-136 | each task's outcome is the one its manifest entry calls for |
| BuildDriver.BuildMain | stages/build_parquet.py:108-172 | `main` after loading the manifest: the trees and the ending are those of the whole build |
| BuildDriver.BuildCrash | stages/build_parquet.py:135 | the build ends with an exception exactly when some task's lookup fails, and that exception is the unbound `dir_name`; otherwise there is one result per task and 1 to 14 threads |
| BuildDriver.BuildSummary | stages/build_parquet.py:143-172 | the four counts add up to the number of tasks, and the exit status is 1 exactly when some result is a failure, so `Missing` alone ends normally |
| JsonDumps.HexDigit | stages/json2parquet.py:11 | a hex digit is printable ASCII |
| JsonDumps.Hex4 | stages/json2parquet.py:11 | four printable hex digits |
| JsonDumps.UnitEscape | stages/json2parquet.py:11 | `\uXXXX` with the four hex digits of the code unit |
| JsonDumps.EscapeChar | stages/json2parquet.py:11 | each character's escape is printable ASCII, and it is the character itself exactly when that is printable ASCII other than `"` and `\` |
| JsonDumps.Escape | stages/json2parquet.py:11 | the escaped text is all printable ASCII and no shorter than the input |
| JsonDumps.DecodeOne | stages/json2parquet.py:11 | decoding one character consumes between 1 and the whole of the remaining text |
| JsonDumps.HexDigitValue | stages/json2parquet.py:11 | a hex digit reads back as its value |
| JsonDumps.Hex4RoundTrip | stages/json2parquet.py:11 | four hex digits read back as their code unit |
| JsonDumps.UnitRoundTrip | stages/json2parquet.py:11 | a `\uXXXX` escape reads back as its code unit |
| JsonDumps.SurrogatePair | stages/json2parquet.py:11 | a character above U+FFFF splits into a high and a low surrogate that recombine to it |
| JsonDumps.DecodeEscaped | stages/json2parquet.py:11 | every character's escape decodes back to that character |
| JsonDumps.DecodeShort | stages/json2parquet.py:11 | the same for the literal and two-letter escapes |
| JsonDumps.DecodePair | stages/json2parquet.py:11 | the same for a surrogate-pair escape |
| JsonDumps.EscapeAbove | stages/json2parquet.py:11 | a character above U+FFFF is escaped as its surrogate pair |
| JsonDumps.DecodeUnits | stages/json2parquet.py:11 | a high and a low surrogate escape decode to the character they encode |
| JsonDumps.EscapeRoundTrip | stages/json2parquet.py:11 | unescaping the escaped text gives the original text back |
| JsonDumps.DumpsItems | stages/json2parquet.py:11 | a serialised list has one text per item |
| JsonDumps.DumpsEntries | stages/json2parquet.py:11 | a serialised dict has one member text per entry |
| JsonDumps.DumpsDefined | stages/json2parquet.py:10-18 | `json.dumps` succeeds exactly on values built from None, bools, ints, strings, lists, tuples and dicts with str, int, bool or None keys |
| JsonDumps.ItemsDefined | stages/json2parquet.py:11 | items serialise exactly when each item does |
| JsonDumps.EntriesDefined | stages/json2parquet.py:11 | entries serialise exactly when each key has a key text and each value serialises |
| JsonDumps.MemberDefined | stages/json2parquet.py:11 | one entry serialises exactly when its key and its value do |
| JsonDumps.DumpsAscii | stages/json2parquet.py:11 | with `ensure_ascii` the output is all printable ASCII |
| JsonDumps.IntAscii | stages/json2parquet.py:11 | an integer's text is printable ASCII |
| JsonDumps.JoinAscii | stages/json2parquet.py:11 | joining printable texts with `, ` stays printable |
| JsonDumps.BracketAscii | stages/json2parquet.py:11 | a bracketed join of printable texts is printable |
| JsonDumps.ItemsAscii | stages/json2parquet.py:11 | every item text is printable |
| JsonDumps.EntriesAscii | stages/json2parquet.py:11 | every member text is printable |
| JsonDumps.MemberAscii | stages/json2parquet.py:11 | a member text is printable |
| JsonExamples.PlainEscape | test/test_json2parquet.py:30-34 | a plain word escapes to itself |
| JsonExamples.Word | test/test_json2parquet.py:30-34 | a plain word serialises as itself in double quotes |
| JsonExamples.ItemsSnoc | test/test_json2parquet.py:30-34 | one more item adds its text to the item texts |
| JsonExamples.SingleEntry | test/test_json2parquet.py:43-48 | a one-entry dict serialises as `{"key": value}` |
| JsonExamples.ListItems | test/test_json2parquet.py:30-34 | the items of `[1, 2, 3, "hello"]` serialise one by one |
| JsonExamples.ListJoin | test/test_json2parquet.py:30-34 | they join with `, ` |
| JsonExamples.ListExample | test/test_json2parquet.py:30-34 | `[1, 2, 3, "hello"]` serialises as `[1, 2, 3, "hello"]` |
| JsonExamples.InnerObject | test/test_json2parquet.py:43-48 | `{"inner": "value"}` serialises as itself |
| JsonExamples.InnerText | test/test_json2parquet.py:43-48 | the pieces of the inner object form its text |
| JsonExamples.NestedText | test/test_json2parquet.py:43-48 | the pieces of the outer object form its text |
| JsonExamples.NestedExample | test/test_json2parquet.py:43-48 | `{"outer": {"inner": "value"}}` serialises as `{"outer": {"inner": "value"}}` |
| JsonExamples.DictExample | test/test_json2parquet.py:36-41 | `{"key1": "value1", "key2": 42}` serialises as `{"key1": "value1", "key2": 42}`: members in insertion order, separated by `, ` |
| JsonExamples.DictEntries | test/test_json2parquet.py:36-41 | the two members serialise as `"key1": "value1"` and `"key2": 42`, in that order |
| JsonExamples.EmptyExamples | test/test_json2parquet_extended.py:69-83 | the empty list gives `[]` and the empty dict gives `{}` |
| JsonExamples.SetExamples | test/test_json2parquet_extended.py:69-86 | a set, or a list holding a set, has no JSON text |
| Json2Parquet.SafeConvert | stages/json2parquet.py:7-18 | every converted cell is flat: a scalar, a string, or an object that is not iterable |
| Json2Parquet.ConvertKeeps | stages/json2parquet.py:15-16 | the conversion leaves a cell unchanged exactly when it is already flat, so strings, ints, bools and None pass through |
| Json2Parquet.ConvertContainers | stages/json2parquet.py:10-18 | lists and dicts become their JSON text when they have one and their `str` otherwise; tuples, sets and other iterables become their `str` |
| Json2Parquet.ConvertIdempotent | stages/json2parquet.py:7-18 | converting a converted cell changes nothing |
| Json2Parquet.ConvertColumn | stages/json2parquet.py:25 | `apply` converts each cell of a column and keeps its length |
| Json2Parquet.Frame.constructor | stages/json2parquet.py:37 | the frame holds the given table |
| Json2Parquet.Frame.FlattenComplexData | stages/json2parquet.py:20-26 | the in-place loop leaves the frame as the column-by-column pass over every `object` column |
| Json2Parquet.FlattenShape | stages/json2parquet.py:20-26 | the pass keeps names, order, and the numbers of columns and rows; it leaves non-object columns as they were and converts every cell of object columns to a flat cell |
| Json2Parquet.FlattenIdempotent | stages/json2parquet.py:7-26 | a second pass changes nothing |
| Json2Parquet.RecordsOfDocument | stages/json2parquet.py:36-40 | a dict document yields its `'results'` entry when it has one and itself otherwise; a list yields itself unless it holds the string `"results"`; a scalar raises |
| Labels.Strings | stages/04_build.py:48 | the strings of a list of strings, item by item |
| Labels.FirstNonStr | stages/04_build.py:48 | the first item that is not a string, with all items before it strings |
| Labels.JoinItems | stages/04_build.py:47-107 | `sep.join` succeeds exactly when every item is a string |
| Labels.FirstValSingle | stages/04_build.py:44-45 | a list or tuple of length 1 yields its single element |
| Labels.FirstValChar | stages/04_build.py:44-45 | a one-character string is its own first element |
| Labels.FirstValStrings | stages/04_build.py:46-48 | a list of strings yields them joined with `|`, and the empty list yields the empty string |
| Labels.FirstValOthers | stages/04_build.py:43-49 | a non-list whose length is not 1 comes back unchanged; a value without a length, a list holding a non-string, a one-element set, and a one-element dict whose key does not equal 0 raise; a one-element dict whose key is 0 or `False` yields its value |
| Labels.Assign | stages/04_build.py:107-113 | storing a key equal to none of the dict's keys appends an entry at the end; entries with other keys stay as they are |
| Labels.AssignExisting | stages/04_build.py:107-113 | storing a key equal to one the dict holds replaces that entry's value in place and keeps its key object |
| Labels.CleanupLabels | stages/04_build.py:102-114 | the loop computes the cleaned record, or the error of the first entry that fails |
| Labels.CleanedStops | stages/04_build.py:104-107 | once an entry fails, the whole cleanup fails with that error |
| Labels.CleanedEntries | stages/04_build.py:102-114 | on a record the cleanup fails exactly when some value fails; otherwise each key stays in its place with its cleaned value |
| Labels.CleanedSnoc | stages/04_build.py:104-113 | the last entry of a record has a key new to the dict built so far, so its cleaned value is appended |
| Labels.KeysKept | stages/04_build.py:102-114 | the key set and the key order are kept |
| Labels.CleanValueRule | stages/04_build.py:105-113 | `effective_time` is never altered; a non-empty list of strings becomes its items joined with `,`; any other value with a length is kept as it is |
| Labels.CleanValueIdempotent | stages/04_build.py:105-113 | a cleaned value cleans to itself |
| Labels.CleanupIdempotent | stages/04_build.py:102-114 | cleaning a cleaned record changes nothing |

## Left out

- HTTP sessions are not modelled. This covers the thread-local session cache, adapter retries, timeouts, the connector settings and the `User-Agent` header. The server is a parameter, `Fetch.Host`, that answers each request with an exchange.
- Concurrency is not modelled: thread and process pools, the asyncio semaphore, `gather` and `as_completed`.
  - Workers run one after another in task order, each on the disk state the earlier ones left.
  - The threaded program's results are collected in that order. Its `main` ends at the first worker exception in that order; with real threads it ends at the first in completion order.
  - Pool sizes are computed and bounded, but nothing runs in parallel.
- Every worker of the synchronous program re-reads and re-parses the manifest file (`stages/02_download.py:68-69`), whether it runs on a thread or in a process. This is not modelled: every worker receives the manifest `main` loaded, which is the same as long as the file does not change during the run.
- Driver.DownloadAll: with `DOWNLOAD_METHOD=processes`, a worker exception (the unbound `filename`) re-raised by `imap_unordered` leaves the pool's `with` block, and `Pool.__exit__` terminates the workers still running. The model runs every task to its end, which is the thread pool's behaviour; for the process pool it does not say which tasks took effect before the termination.
- Driver.DownloadRun: in a crashed session with `DOWNLOAD_METHOD=processes`, the disk state is that of all tasks run, for the same reason; the crash itself and its error are as modelled.
- PyValues.KeyEq: only `bool` against `int` is compared numerically; tuples holding such values (`(True,) == (1,)`) compare structurally. Manifest and label records loaded from JSON have string keys only, where both agree.
- `datetime.strptime`, the `dateutil` fallback and the local-time meaning of `timestamp()` are parameters (`Dates.Parsers`). Instants are whole seconds, and float timestamps and mtimes are integers.
- Reading the manifest file is not modelled. Its `FileNotFoundError` and `JSONDecodeError` exits (status 1), `os.chdir`, creating the download root, and `KeyboardInterrupt` with exit status 130 are also out. The model starts from the loaded manifest.
- Printed output beyond the summary is not modelled: banners, paths, tqdm progress bars and the postfix string. The summary is modelled as counts, the failure listing and the exit status.
- `Manifest.Tasks` does not name which `KeyError` or `TypeError` a manifest raises. A manifest that cannot be walked ends the run with one generic error, `Malformed`.
- File-system errors are not modelled: `mkdir` or `open` failing, permissions, a full disk, or a directory in place of a file. The worker's `Unexpected` failure stands for an exception during the exchange only.
- `pathlib` normalisation is modelled only by dropping empty and `.` parts (`PosixPath.JoinParts`). `..` parts and absolute URL components are not resolved.
- Zip extraction, `glob` order and the `os.system` converter call are parameters (`BuildParquet.Tools`). Shell quoting of the file names is not modelled. The temporary extraction directory is not part of the build trees.
- pandas is not modelled:
  - `json_normalize` and parquet writing (pyarrow or fastparquet);
  - dtype inference, which is the `infer` parameter of `Frame.FlattenComplexData`;
  - NaN and infinity handling.

  Columns are addressed by position, so duplicate column names are not modelled.
- `convert_json_to_parquet` is not modelled beyond the `'results'` selection (`Json2Parquet.Records`) and the flattening pass. The `main` of `stages/json2parquet.py` is also out: its argument count check and its exit status reach the build only as the converter's exit status.
- `str(x)` is a parameter, `Json2Parquet.Repr`.
- Floats are not modelled, so their JSON text is not either.
- Circular references, which make `json.dumps` raise `ValueError`, are out because an inductive datatype has no cycles.
- Lone surrogates in strings are not modelled: Dafny characters are Unicode scalar values.
- Keys in `json.dumps` are not sorted: the model follows the default `sort_keys=False`.
- The `OpenFDA` class hierarchy and the module-level loading in `stages/04_build.py` are not part of this model. Neither is `stages/03_unzip.py`.
- BuildProperties.SecondBuild: assumes the raw path and the brick path differ, since the roots come from two environment variables.

## Findings

| source | as written | input that shows it | evidently intended | confidence | as-written member | corrected member |
|---|---|---|---|---|---|---|
| stages/02_download.py:141 | the success report evaluates `hasattr(response, 'content')` after the streamed body was consumed; `requests` raises `RuntimeError` there, `hasattr` does not catch it, and the outer handler reports `Error processing` after artifact and marker are committed | any 200 response without an exception, e.g. one chunk `"x"` and `Last-Modified` set | report `Downloaded {filename} ({size} bytes)` with the final file's size, as the async program does; the async variant's stored-body report is that line with the body's size | not executed | FetchProperties.StoredKinds | FetchProperties.Commit |
| stages/02_download.py:106-133 | the temporary file lives in the system temporary directory, so when that is another file system `shutil.move` truncates the artifact, copies, then unlinks: a reader or an interruption can find the artifact empty | a stored body `"x"` over an existing non-empty artifact, temporary directory on another device | an atomic replacement: the temporary file created beside the artifact, so the move is one rename | not executed | FetchProperties.CopyExposesTruncation | FetchProperties.RenameKeepsPairs |
