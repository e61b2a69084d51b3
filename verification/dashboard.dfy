/** The dashboard's processing workflow: the guard on the process button,
    naming the single processed image, turning a returned archive into
    result items, the message shown when processing fails, and the release
    of the object URLs the results hold. */
module Dashboard {
  import opened JsValue
  import opened JsString
  import opened ContentDisposition
  import ResizeOptions

  /** An object URL made by `URL.createObjectURL`, as an opaque token. The
      empty string stands for the falsy URL that `clearResults` skips. */
  type Url = string

  /** An opaque binary payload: a selected `File`, a response body, or the
      content of one archive entry. */
  datatype Blob = Blob(id: nat)

  /** One processed image of a batch: its name in the archive and the object
      URL of its content. */
  datatype ResultItem = ResultItem(name: string, url: Url)

  /** One entry of the returned archive. */
  datatype ZipEntry = ZipEntry(name: string, dir: bool, content: Blob)

  /** The dashboard's state. `revoked` holds every object URL revoked so
      far and `downloads` the file names of the programmatic downloads
      started so far; the rest are the component's own state variables. */
  datatype DashboardState = DashboardState(
    files: seq<Blob>,
    busy: bool,
    error: string,
    zipBlob: Option<Blob>,
    results: seq<ResultItem>,
    singleBlob: Option<Blob>,
    singleName: string,
    revoked: set<Url>,
    downloads: seq<string>)

  /** The state the dashboard mounts with. */
  const Initial: DashboardState :=
    DashboardState([], false, "", None, [], None, "", {}, [])

  /** The process button is enabled: some file is selected and no request is
      in flight. */
  predicate CanProcess(st: DashboardState) {
    |st.files| > 0 && !st.busy
  }

  // ---------------------------------------------------------------------
  // Naming the single processed image

  /** The output format the options name, lower-cased, `jpeg` when absent. */
  function FormatName(format: Option<string>): (f: string)
    ensures forall j :: 0 <= j < |f| ==> !('A' <= f[j] <= 'Z')
    ensures !Truthy(format) ==> f == "jpeg"
    ensures Truthy(format) ==> |f| == |format.value| && f == Lower(format.value)
  {
    Lower(OrElse(format, "jpeg"))
  }

  /** The file extension of the fallback name: the lower-cased format, with
      `jpeg` spelled `jpg`. */
  function Extension(format: Option<string>): (ext: string)
    ensures ext != "jpeg"
    ensures forall j :: 0 <= j < |ext| ==> !('A' <= ext[j] <= 'Z')
    ensures ext == "jpg" <==> FormatName(format) == "jpeg" || FormatName(format) == "jpg"
    ensures ext != "jpg" ==> ext == FormatName(format)
  {
    var f := FormatName(format);
    if f == "jpeg" then "jpg" else f
  }

  /** The extension for each format the options form offers, and for a
      missing one. */
  lemma ExtensionOfOfferedFormats()
    ensures Extension(None) == "jpg"
    ensures Extension(Some("")) == "jpg"
    ensures Extension(Some("jpeg")) == "jpg"
    ensures Extension(Some("JPEG")) == "jpg"
    ensures Extension(Some("png")) == "png"
    ensures Extension(Some("webp")) == "webp"
  {
    assert Lower("webp")[0] == 'w';
  }

  /** The form's JPEG lock and the dashboard's file extension read the
      format the same way: under the lock the single image is named `.jpg`. */
  lemma JpegLockMatchesExtension(o: ResizeOptions.Options)
    ensures ResizeOptions.IsJpeg(o) <==> FormatName(o.format) == "jpeg"
    ensures ResizeOptions.IsJpeg(o) ==> Extension(o.format) == "jpg"
  {
  }

  const FallbackStem: string := "processed-image."

  /** The name given to a single processed image: the one the response
      header names, or else `processed-image.` and the extension. */
  function SingleName(contentDisposition: Option<string>, format: Option<string>): (name: string)
    ensures name != ""
    ensures ParseFilename(contentDisposition) != "" ==> name == ParseFilename(contentDisposition)
    ensures ParseFilename(contentDisposition) == "" ==> name == FallbackStem + Extension(format)
  {
    var inferred := ParseFilename(contentDisposition);
    if inferred != "" then inferred else FallbackStem + Extension(format)
  }

  /** The name a programmatic download is saved under. */
  function DownloadName(filename: string): (name: string)
    ensures name != ""
    ensures filename != "" ==> name == filename
    ensures filename == "" ==> name == "processed-image"
  {
    if filename != "" then filename else "processed-image"
  }

  /** `downloadBlob`: a download of `blob` saved under `filename`. Its
      object URL is revoked by a zero-delay timer, taken here as done. */
  function Download(st: DashboardState, blob: Blob, filename: string, objectUrl: Blob -> Url): (r: DashboardState)
    ensures r.downloads == st.downloads + [DownloadName(filename)]
    ensures r.revoked == st.revoked + {objectUrl(blob)}
    ensures r.(downloads := st.downloads, revoked := st.revoked) == st
  {
    st.(downloads := st.downloads + [DownloadName(filename)], revoked := st.revoked + {objectUrl(blob)})
  }

  /** The Download button, shown while a single processed image is held. */
  function OnDownload(st: DashboardState, objectUrl: Blob -> Url): (r: DashboardState)
    ensures st.singleBlob.None? ==> r == st
    ensures st.singleBlob.Some? ==>
              && r.downloads == st.downloads + [DownloadName(st.singleName)]
              && r.revoked == st.revoked + {objectUrl(st.singleBlob.value)}
              && r.(downloads := st.downloads, revoked := st.revoked) == st
  {
    match st.singleBlob
    case None => st
    case Some(b) => Download(st, b, st.singleName, objectUrl)
  }

  // ---------------------------------------------------------------------
  // Releasing results

  /** The truthy object URLs held by `items`. */
  function ObjectUrls(items: seq<ResultItem>): set<Url> {
    set j | 0 <= j < |items| && items[j].url != "" :: items[j].url
  }

  /** The loop of `clearResults`: revoke the URL of each item in turn,
      skipping falsy ones. */
  function RevokeEach(items: seq<ResultItem>, revoked: set<Url>): (r: set<Url>)
    ensures r == revoked + ObjectUrls(items)
  {
    if items == [] then revoked
    else
      var rest := RevokeEach(items[1..], if items[0].url != "" then revoked + {items[0].url} else revoked);
      assert forall j :: 1 <= j < |items| ==> items[1..][j - 1] == items[j];
      rest
  }

  /** `clearResults`: revoke the results' URLs and forget every result. */
  function ClearResults(st: DashboardState): (r: DashboardState)
    ensures r.revoked == st.revoked + ObjectUrls(st.results)
    ensures r.results == [] && r.zipBlob.None? && r.singleBlob.None? && r.singleName == ""
    ensures r.(revoked := st.revoked, results := st.results, zipBlob := st.zipBlob,
               singleBlob := st.singleBlob, singleName := st.singleName) == st
  {
    st.(revoked := RevokeEach(st.results, st.revoked),
        results := [], zipBlob := None, singleBlob := None, singleName := "")
  }

  /** Clearing twice is clearing once. */
  lemma ClearResultsIdempotent(st: DashboardState)
    ensures ClearResults(ClearResults(st)) == ClearResults(st)
  {
    assert ObjectUrls([]) == {};
  }

  /** Unmounting runs the cleanup of the results effect, which revokes the
      URLs of the results held at that moment. */
  function Unmount(st: DashboardState): (r: DashboardState)
    ensures r.revoked == st.revoked + ObjectUrls(st.results)
    ensures r.(revoked := st.revoked) == st
  {
    st.(revoked := RevokeEach(st.results, st.revoked))
  }

  // ---------------------------------------------------------------------
  // Results of a batch

  /** The number of entries of `entries` that are files, not directories. */
  function CountFiles(entries: seq<ZipEntry>): (n: nat)
    ensures n <= |entries|
  {
    if entries == [] then 0
    else CountFiles(entries[..|entries| - 1]) + (if entries[|entries| - 1].dir then 0 else 1)
  }

  /** `CountFiles` is the number of file entries, however they are spread
      among the directories. */
  lemma {:induction false} CountFilesCountsFileIndices(entries: seq<ZipEntry>)
    ensures CountFiles(entries) == |FileIndices(entries)|
    decreases |entries|
  {
    if entries == [] {
      assert FileIndices(entries) == {};
    } else {
      FileIndicesOfInit(entries);
      CountFilesCountsFileIndices(entries[..|entries| - 1]);
    }
  }

  /** The indices of the entries that are files. */
  function FileIndices(entries: seq<ZipEntry>): set<nat> {
    set k: nat | k < |entries| && !entries[k].dir
  }

  /** The file indices of a non-empty archive are those of all but its last
      entry, plus the last index when that entry is a file. */
  lemma FileIndicesOfInit(entries: seq<ZipEntry>)
    requires entries != []
    ensures var n := |entries| - 1;
            n !in FileIndices(entries[..n])
            && FileIndices(entries) == FileIndices(entries[..n]) + (if entries[n].dir then {} else {n})
            && |FileIndices(entries)| == |FileIndices(entries[..n])| + (if entries[n].dir then 0 else 1)
  {
    var n := |entries| - 1;
    assert FileIndices(entries) == FileIndices(entries[..n]) + (if entries[n].dir then {} else {n});
  }

  /** Filtering out directories and pairing each file's name with the
      object URL of its content, in archive order. */
  function CollectResults(entries: seq<ZipEntry>, objectUrl: Blob -> Url): (r: seq<ResultItem>)
    ensures |r| == CountFiles(entries)
    ensures forall i :: 0 <= i < |entries| && !entries[i].dir ==>
              CountFiles(entries[..i]) < |r|
              && r[CountFiles(entries[..i])] == ResultItem(entries[i].name, objectUrl(entries[i].content))
  {
    if entries == [] then []
    else
      var n := |entries| - 1;
      var init := entries[..n];
      var last := entries[n];
      var r := CollectResults(init, objectUrl) + (if last.dir then [] else [ResultItem(last.name, objectUrl(last.content))]);
      assert forall i :: 0 <= i < n ==> init[..i] == entries[..i];
      assert entries[..n] == init;
      r
  }

  /** Every result comes from a file entry of the archive. */
  lemma {:induction false} CollectResultsFromFiles(entries: seq<ZipEntry>, objectUrl: Blob -> Url)
    ensures forall it :: it in CollectResults(entries, objectUrl) ==>
              exists k :: 0 <= k < |entries| && !entries[k].dir
                          && it == ResultItem(entries[k].name, objectUrl(entries[k].content))
  {
    if entries != [] {
      var n := |entries| - 1;
      var init := entries[..n];
      CollectResultsFromFiles(init, objectUrl);
      forall it | it in CollectResults(entries, objectUrl)
        ensures exists k :: 0 <= k < |entries| && !entries[k].dir
                            && it == ResultItem(entries[k].name, objectUrl(entries[k].content))
      {
        if it in CollectResults(init, objectUrl) {
          var k :| 0 <= k < |init| && !init[k].dir && it == ResultItem(init[k].name, objectUrl(init[k].content));
          assert entries[k] == init[k];
        } else {
          assert it == ResultItem(entries[n].name, objectUrl(entries[n].content));
        }
      }
    }
  }

  // ---------------------------------------------------------------------
  // The failure message

  /** What `JSON.parse` made of the text of an error body. */
  datatype ParsedBody = NotJson | Json(message: Option<string>)

  /** What reading a `Blob` error body produced. */
  datatype BlobText = Unreadable | Text(text: string, parsed: ParsedBody)

  /** The payload of a failed request's response. */
  datatype ErrorData =
    | NoData
    | BlobData(read: BlobText)
    | ObjectData(message: Option<string>)

  /** A rejection: its response payload and its own `message`. */
  datatype ProcessError = ProcessError(data: ErrorData, message: Option<string>)

  const ProcessingFailed: string := "Processing failed"

  /** The messages the failure handler consults for `err`, in priority
      order. */
  function Candidates(err: ProcessError): seq<Option<string>> {
    match err.data
    case BlobData(Unreadable) => []
    case BlobData(Text(text, Json(m))) => [m]
    case BlobData(Text(text, NotJson)) => [Some(text)]
    case ObjectData(m) => [m, err.message]
    case NoData => [err.message]
  }

  /** The first truthy candidate, or `fallback` when none is. */
  function FirstTruthy(cands: seq<Option<string>>, fallback: string): (r: string)
    ensures fallback != "" ==> r != ""
    ensures (forall j :: 0 <= j < |cands| ==> !Truthy(cands[j])) ==> r == fallback
    ensures forall j :: 0 <= j < |cands| && Truthy(cands[j]) && (forall k :: 0 <= k < j ==> !Truthy(cands[k]))
              ==> r == cands[j].value
  {
    if cands == [] then fallback
    else if Truthy(cands[0]) then cands[0].value
    else FirstTruthy(cands[1..], fallback)
  }

  /** The `catch` block of `onProcess`: the message the banner shows. */
  function ProcessErrorMessage(err: ProcessError): (msg: string)
    ensures msg != ""
    ensures msg == FirstTruthy(Candidates(err), ProcessingFailed)
  {
    match err.data
    case BlobData(read) =>
      (match read
       case Unreadable => ProcessingFailed
       case Text(text, parsed) =>
         match parsed
         case Json(m) => OrElse(m, ProcessingFailed)
         case NotJson => OrElse(Some(text), ProcessingFailed))
    case ObjectData(m) => OrElse(m, OrElse(err.message, ProcessingFailed))
    case NoData => OrElse(err.message, ProcessingFailed)
  }

  /** With a `Blob` payload the rejection's own message is never shown:
      an unreadable body, a JSON body without a message and an empty text
      body all give the generic message. */
  lemma BlobPayloadIgnoresErrorMessage(read: BlobText, m1: Option<string>, m2: Option<string>)
    ensures ProcessErrorMessage(ProcessError(BlobData(read), m1))
         == ProcessErrorMessage(ProcessError(BlobData(read), m2))
    ensures read.Unreadable? ==> ProcessErrorMessage(ProcessError(BlobData(read), m1)) == ProcessingFailed
  {
  }

  // ---------------------------------------------------------------------
  // Processing

  /** What `JSZip.loadAsync` made of the response body. */
  datatype ArchiveRead = Loaded(entries: seq<ZipEntry>) | LoadFailed(err: ProcessError)

  /** How the process request turned out. `archive` is consulted only for
      a batch. */
  datatype Reply =
    | Rejected(err: ProcessError)
    | Answered(body: Blob, contentDisposition: Option<string>, archive: ArchiveRead)

  /** The start of `onProcess`: clear the error and the results, then mark
      the request as in flight. */
  function BeginProcess(st: DashboardState): (r: DashboardState)
    ensures r.busy && r.error == "" && r.files == st.files
    ensures r.results == [] && r.zipBlob.None? && r.singleBlob.None? && r.singleName == ""
    ensures r.revoked == st.revoked + ObjectUrls(st.results)
    ensures r.downloads == st.downloads
  {
    ClearResults(st.(error := "")).(busy := true)
  }

  /** `onProcess`, from its start to the end of its `finally` block. */
  function OnProcess(st: DashboardState, format: Option<string>, reply: Reply, objectUrl: Blob -> Url): (r: DashboardState)
    ensures !r.busy && r.files == st.files
    ensures r.revoked == st.revoked + ObjectUrls(st.results)
                         + (if reply.Answered? && |st.files| == 1 then {objectUrl(reply.body)} else {})
    ensures !(reply.Answered? && |st.files| == 1) ==> r.downloads == st.downloads && r.singleName == ""
    ensures r.error == "" <==> reply.Answered? && (|st.files| == 1 || reply.archive.Loaded?)
    ensures reply.Rejected? ==>
              r.error == ProcessErrorMessage(reply.err) && r.results == [] && r.zipBlob.None? && r.singleBlob.None?
    ensures reply.Answered? && |st.files| == 1 ==>
              && r.singleBlob == Some(reply.body)
              && r.singleName == SingleName(reply.contentDisposition, format)
              && r.downloads == st.downloads + [r.singleName]
              && r.results == [] && r.zipBlob.None?
    ensures reply.Answered? && |st.files| != 1 ==>
              && r.zipBlob == Some(reply.body) && r.singleBlob.None? && r.downloads == st.downloads
              && r.results == (if reply.archive.Loaded? then CollectResults(reply.archive.entries, objectUrl) else [])
              && (reply.archive.LoadFailed? ==> r.error == ProcessErrorMessage(reply.archive.err))
  {
    var s := BeginProcess(st);
    var done :=
      match reply
      case Rejected(err) => s.(error := ProcessErrorMessage(err))
      case Answered(body, cd, archive) =>
        if |st.files| == 1 then
          var name := SingleName(cd, format);
          Download(s.(singleBlob := Some(body), singleName := name), body, name, objectUrl)
        else BatchFinish(BatchStart(st, body), archive, objectUrl);
    done.(busy := false)
  }

  /** A batch request at the archive read, where `onProcess` awaits: the
      results are cleared, the request is in flight and the returned
      archive is held. */
  function BatchStart(st: DashboardState, body: Blob): (r: DashboardState)
    ensures r.busy && r.zipBlob == Some(body) && r.results == [] && r.singleBlob.None?
    ensures r.revoked == st.revoked + ObjectUrls(st.results)
    ensures r.files == st.files && r.error == "" && r.singleName == "" && r.downloads == st.downloads
  {
    BeginProcess(st).(zipBlob := Some(body))
  }

  /** The rest of a batch request once the archive is read: the results
      are stored, or the failure message shown, into whatever state the
      dashboard is in by then. */
  function BatchFinish(st: DashboardState, archive: ArchiveRead, objectUrl: Blob -> Url): (r: DashboardState)
    ensures archive.Loaded? ==> r.results == CollectResults(archive.entries, objectUrl) && r.error == st.error
    ensures archive.LoadFailed? ==> r.results == st.results && r.error == ProcessErrorMessage(archive.err)
    ensures r.(results := st.results, error := st.error) == st
  {
    match archive
    case LoadFailed(err) => st.(error := ProcessErrorMessage(err))
    case Loaded(entries) => st.(results := CollectResults(entries, objectUrl))
  }

  /** When `URL.createObjectURL` hands out URLs not revoked before and not
      held by the previous results, no result of a batch is shown with a
      revoked URL. */
  lemma FreshUrlsStayUnrevoked(st: DashboardState, format: Option<string>, body: Blob, cd: Option<string>,
                               entries: seq<ZipEntry>, objectUrl: Blob -> Url)
    requires |st.files| != 1
    requires forall k :: 0 <= k < |entries| && !entries[k].dir ==>
               objectUrl(entries[k].content) !in st.revoked + ObjectUrls(st.results)
    ensures var r := OnProcess(st, format, Answered(body, cd, Loaded(entries)), objectUrl);
            forall it :: it in r.results ==> it.url !in r.revoked
  {
    CollectResultsFromFiles(entries, objectUrl);
  }

  /** While a request is in flight the process button is disabled, and once
      it settles the button is enabled again exactly when files are
      selected. */
  lemma ProcessButtonAcrossRequest(st: DashboardState, format: Option<string>, reply: Reply, objectUrl: Blob -> Url)
    ensures !CanProcess(BeginProcess(st))
    ensures CanProcess(OnProcess(st, format, reply, objectUrl)) <==> |st.files| > 0
  {
  }

  // ---------------------------------------------------------------------
  // An invariant of the dashboard

  /** A held single image always has a name and excludes batch results,
      and batch results come with their archive. */
  predicate Consistent(st: DashboardState) {
    && (st.singleBlob.Some? ==> st.singleName != "" && st.results == [] && st.zipBlob.None?)
    && (st.results != [] ==> st.zipBlob.Some?)
  }

  /** The dashboard mounts with nothing selected, so the process button is
      disabled, with no results to release, and consistent. */
  lemma InitialState()
    ensures !CanProcess(Initial) && Initial.error == ""
    ensures ObjectUrls(Initial.results) == {} && Consistent(Initial)
  {
  }

  /** The uploader's `setFiles`: a new file selection. */
  function SelectFiles(st: DashboardState, files: seq<Blob>): (r: DashboardState)
    ensures r.files == files
    ensures r.(files := st.files) == st
  {
    st.(files := files)
  }

  /** The mounted state, file selection, both clear buttons, processing,
      the Download button and unmounting all keep the dashboard
      consistent. */
  lemma ConsistentPreserved(st: DashboardState, files: seq<Blob>, format: Option<string>, reply: Reply, objectUrl: Blob -> Url)
    requires Consistent(st)
    ensures Consistent(Initial)
    ensures Consistent(SelectFiles(st, files))
    ensures Consistent(ClearResults(st))
    ensures Consistent(OnProcess(st, format, reply, objectUrl))
    ensures Consistent(OnDownload(st, objectUrl))
    ensures Consistent(Unmount(st))
  {
  }

  /** `ConsistentPreserved` takes `onProcess` as one step. The preview's
      Clear button stays enabled while a request is in flight, so it can run
      during the archive read: the clear drops the archive, and the results
      stored afterwards are shown with no archive to download. */
  lemma ClearDuringArchiveRead(st: DashboardState, body: Blob, entries: seq<ZipEntry>, objectUrl: Blob -> Url)
    requires CountFiles(entries) > 0
    ensures Consistent(BatchStart(st, body))
    ensures var r := BatchFinish(ClearResults(BatchStart(st, body)), Loaded(entries), objectUrl);
            r.results != [] && r.zipBlob.None? && !Consistent(r)
  {
  }

  /** In a consistent state the Download button saves the held image under
      its own name, never under the `processed-image` default. */
  lemma DownloadKeepsSingleName(st: DashboardState, objectUrl: Blob -> Url)
    requires Consistent(st) && st.singleBlob.Some?
    ensures OnDownload(st, objectUrl).downloads == st.downloads + [st.singleName]
  {
  }
}
