/** `download_single_file` of the download stage, in its thread-pool form
    (`02_download.py`) and its asyncio form (`02_download_async.py`). Both
    forms are one plan: the trace of file-system operations the worker
    performs, the request it sends, and what it returns or raises. The server,
    the date parsers and the file system's placement of the temporary
    directory are inputs. */
module Fetch {
  import opened Wrappers
  import opened Text
  import opened PyValues
  import opened Dates
  import opened Targets
  import opened FileSystem
  import Manifest

  /** Which of the two download programs runs. */
  datatype Variant = Threaded | Async

  /** An exception raised while the request or the body is in flight:
      `Transport` is the HTTP library's own exception family
      (`requests.exceptions.RequestException`, `aiohttp.ClientError`),
      `Unexpected` any other exception. */
  datatype Failure = Transport(message: string) | Unexpected(message: string)

  /** What the server and the network do with one request. A response
      delivers `chunks` in order; `interruption`, when present, is raised after
      the last of them has been written. */
  datatype Exchange =
    | Refused(failure: Failure)
    | Response(status: int, lastModified: Option<string>, chunks: seq<string>, interruption: Option<Failure>)

  /** The world outside the worker: the server's answer to a URL and an
      optional `If-Modified-Since` value, the text of the exception that
      `raise_for_status` raises for a status, and whether the system
      temporary directory is on the same file system as the download tree. */
  datatype Host = Host(answer: (string, Option<string>) -> Exchange, statusMessage: int -> string, tmpSameDevice: bool)

  /** Where the temporary file is created: the system temporary directory, as
      both programs do, or beside the artifact, which makes the final move a
      rename on the same file system. */
  datatype TempPlacement = SystemTemp | BesideArtifact

  datatype Request = NoRequest | Get(url: string, ifModifiedSince: Option<string>)

  /** The worker returns a report line or raises out of its own handler. */
  datatype Outcome = Returned(report: string) | Raised(error: string)

  datatype Plan = Plan(ops: seq<Op>, request: Request, outcome: Outcome)

  /** What the last handler's f-string raises when `filename` was never bound. */
  const UnboundFileName: string := "cannot access local variable 'filename' where it is not associated with a value"

  /** What `requests` raises when `response.content` is read after the
      streamed body has been consumed. */
  const ContentConsumed: string := "The content for this response was already consumed"

  /** The two values the worker reads from the manifest for its task. */
  datatype Entry = Entry(exportDate: Value, url: string)

  /** `file_info = data['results'][data_type][field_name]`, its `export_date`
      and `partitions[partition_index]['file']`; `None` when a subscript
      raises or the URL is not a string (`os.path.basename` raises), both
      before `filename` is bound. */
  function EntryOf(manifest: Value, task: Manifest.Task): Option<Entry>
  {
    match Manifest.Results(manifest)
    case None => None
    case Some(results) =>
      match Manifest.FieldEntry(results, task.dataType, task.fieldName)
      case None => None
      case Some(info) =>
        match Index(info, Str("export_date"))
        case None => None
        case Some(exportDate) =>
          match Index(info, Str("partitions"))
          case None => None
          case Some(parts) =>
            match Index(parts, Int(task.index))
            case None => None
            case Some(part) =>
              match Index(part, Str("file"))
              case Some(Str(url)) => Some(Entry(exportDate, url))
              case _ => None
  }

  /** The stripped contents of the marker, read only when both the marker and
      the artifact exist. */
  function Previous(s: FsState, t: Target): Option<string>
  {
    if MarkerPath(t) in s.files && ArtifactPath(t) in s.files
    then Some(Strip(s.files[MarkerPath(t)]))
    else None
  }

  /** `if previous_last_modified: headers['If-Modified-Since'] = ...`. */
  function Header(previous: Option<string>): (h: Option<string>)
    ensures h.Some? <==> previous.Some? && previous.value != ""
    ensures h.Some? ==> h == previous
  {
    if previous.Some? && previous.value != "" then previous else None
  }

  /** `raise_for_status`: `requests` raises for client and server errors,
      400 to 599; `aiohttp` for every status from 400 up. */
  predicate RaisesStatus(v: Variant, status: int)
  {
    match v
    case Threaded => 400 <= status < 600
    case Async => 400 <= status
  }

  /** The bytes of a body, chunk after chunk. */
  function Body(chunks: seq<string>): string
  {
    if chunks == [] then "" else Body(chunks[..|chunks| - 1]) + chunks[|chunks| - 1]
  }

  /** Whether a chunk is written: the threaded program drops empty
      keep-alive chunks, the async one writes every chunk. */
  predicate Writes(v: Variant, chunk: string)
  {
    v == Async || chunk != ""
  }

  /** The writes of the body into the temporary file. */
  function WriteOps(v: Variant, tmp: nat, chunks: seq<string>): (ops: seq<Op>)
    ensures |ops| <= |chunks|
    ensures forall k :: 0 <= k < |ops| ==> ops[k].AppendTemp? && ops[k].temp == tmp
  {
    if chunks == [] then []
    else
      var last := chunks[|chunks| - 1];
      WriteOps(v, tmp, chunks[..|chunks| - 1]) + (if Writes(v, last) then [AppendTemp(tmp, last)] else [])
  }

  /** `if last_modified: write it to the marker`: only a present, non-empty
      `Last-Modified` header is stored, by opening the marker with `'w'`
      (which empties it) and then writing the value. */
  function MarkerOps(marker: string, lastModified: Option<string>): (ops: seq<Op>)
    ensures ops != [] <==> lastModified.Some? && lastModified.value != ""
    ensures ops != [] ==> ops == [Truncate(marker), WriteText(marker, lastModified.value)]
  {
    if lastModified.Some? && lastModified.value != "" then [Truncate(marker), WriteText(marker, lastModified.value)] else []
  }

  /** Whether `shutil.move` renames (same file system) or copies. */
  function SameDevice(placement: TempPlacement, host: Host): bool
  {
    placement == BesideArtifact || host.tmpSameDevice
  }

  /** How the exchange ends: with an outcome already decided, or with the
      body stored, whose report depends on the final file. */
  datatype Ending = Ended(outcome: Outcome) | Stored

  datatype Transfer = Transfer(ops: seq<Op>, ending: Ending)

  /** The handlers around the request: a transport exception removes the
      temporary file and reports `Failed`; any other exception, in the
      threaded program, leaves the inner `try` unhandled, so the temporary file
      stays behind and the outer handler reports `Error processing`; in the
      async program it removes the temporary file and reports `Error`. */
  function Abort(v: Variant, fileName: string, tmp: nat, failure: Failure): (r: Transfer)
    ensures r.ending.Ended? && r.ending.outcome.Returned?
  {
    match failure
    case Transport(m) => Transfer([RemoveTemp(tmp)], Ended(Returned("Failed " + fileName + ": " + m)))
    case Unexpected(m) =>
      match v
      case Threaded => Transfer([], Ended(Returned("Error processing " + fileName + ": " + m)))
      case Async => Transfer([RemoveTemp(tmp)], Ended(Returned("Error " + fileName + ": " + m)))
  }

  /** From the request on: 304 removes the temporary file; an error status
      raises; otherwise the body is written to the temporary file, moved onto
      the artifact, and the marker is written after the move. */
  function TransferOf(v: Variant, sameDevice: bool, t: Target, tmp: nat, ex: Exchange, statusMessage: int -> string): Transfer
  {
    match ex
    case Refused(failure) => Abort(v, t.fileName, tmp, failure)
    case Response(status, lastModified, chunks, interruption) =>
      if status == 304 then Transfer([RemoveTemp(tmp)], Ended(Returned("Skipped " + t.fileName + " (not modified)")))
      else if RaisesStatus(v, status) then Abort(v, t.fileName, tmp, Transport(statusMessage(status)))
      else
        var writes := WriteOps(v, tmp, chunks);
        match interruption
        case Some(failure) =>
          var a := Abort(v, t.fileName, tmp, failure);
          Transfer(writes + a.ops, a.ending)
        case None =>
          Transfer(writes + MoveOps(tmp, ArtifactPath(t), sameDevice) + MarkerOps(MarkerPath(t), lastModified), Stored)
  }

  /** `Downloaded {filename} ({size} bytes)`. */
  function DownloadedReport(fileName: string, size: nat): string
  {
    "Downloaded " + fileName + " (" + NatToString(size) + " bytes)"
  }

  /** The size of a file, 0 when it does not exist. */
  function FileSize(s: FsState, path: string): nat
  {
    if path in s.files then |s.files[path]| else 0
  }

  /** The report after the body is stored. The async program reports the
      final file's size. The threaded program evaluates
      `hasattr(response, 'content')` on a response whose stream was consumed:
      `requests` raises `RuntimeError` there, which `hasattr` does not catch,
      so the outer handler reports `Error processing`. */
  function StoredOutcome(v: Variant, fileName: string, size: nat): Outcome
  {
    match v
    case Threaded => Returned("Error processing " + fileName + ": " + ContentConsumed)
    case Async => Returned(DownloadedReport(fileName, size))
  }

  /** The worker once the request is decided: a fresh temporary file, the
      exchange, and the report. */
  function PlanRequest(v: Variant, sameDevice: bool, t: Target, url: string, header: Option<string>,
                       s: FsState, host: Host): Plan
  {
    var tr := TransferOf(v, sameDevice, t, s.nextTemp, host.answer(url, header), host.statusMessage);
    var ops := [CreateTemp] + tr.ops;
    var outcome := match tr.ending
      case Ended(o) => o
      case Stored => StoredOutcome(v, t.fileName, FileSize(Run(s, ops), ArtifactPath(t)));
    Plan(ops, Get(url, header), outcome)
  }

  /** The worker once its manifest entry is read: the download directory is
      created, then the skip rule, then the conditional request. */
  function PlanEntry(v: Variant, placement: TempPlacement, t: Target, entry: Entry,
                     s: FsState, host: Host, p: Parsers): Plan
  {
    var previous := Previous(s, t);
    var mkdir := MakeDirs(DownloadDir(t));
    if previous.Some? && UpToDate(previous.value, entry.exportDate, p) then
      Plan([mkdir], NoRequest, Returned("Skipped " + t.fileName + " (up to date)"))
    else
      var rest := PlanRequest(v, SameDevice(placement, host), t, entry.url, Header(previous), Apply(s, mkdir), host);
      Plan([mkdir] + rest.ops, rest.request, rest.outcome)
  }

  /** The whole worker for one task, from the file-system state `s`. */
  function PlanDownload(v: Variant, placement: TempPlacement, manifest: Value, task: Manifest.Task,
                        s: FsState, host: Host, p: Parsers): Plan
  {
    match EntryOf(manifest, task)
    case None => Plan([], NoRequest, Raised(UnboundFileName))
    case Some(entry) => PlanEntry(v, placement, Resolve(task.dataType, entry.url), entry, s, host, p)
  }
}
