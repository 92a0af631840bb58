/** The verified downloader (downloader.rs): one file is skipped when it is
    already there with the expected SHA-1, otherwise it is fetched into a
    temporary file beside the destination, checked, and renamed over the
    destination. A batch runs every task and reports how many failed and the
    first failure in submission order. The network is a function from URL to
    response and SHA-1 a function from bytes to its lower-case hex digest. */
module Downloader {
  import opened Wrappers
  import opened Strings
  import opened Platform
  import opened Paths
  import opened FileSystem
  import opened Errors
  import opened LaunchTasks

  // ---------------------------------------------------------------------
  // Inputs

  /** What a GET gives: the request fails, or a status with its display
      (such as "404 Not Found"), the announced length and the body chunks,
      each of which may fail to arrive. */
  datatype Response =
    | SendFailed(reason: string)
    | Response(status: nat, statusText: string, contentLength: Option<nat>, chunks: seq<Result<Bytes, string>>)

  predicate IsSuccess(status: nat)
  {
    200 <= status <= 299
  }

  // ---------------------------------------------------------------------
  // The body stream

  /** The bytes of the body up to its first failing chunk, that failure, and
      the progress reports `(downloaded, total)` made after each chunk. */
  datatype ChunkRun = ChunkRun(data: Bytes, error: Option<string>, reports: seq<(nat, nat)>)

  function ReadChunks(chunks: seq<Result<Bytes, string>>, total: nat): ChunkRun
  {
    if chunks == [] then ChunkRun([], None, [])
    else
      var r := ReadChunks(chunks[..|chunks| - 1], total);
      if r.error.Some? then r
      else
        match chunks[|chunks| - 1]
        case Err(e) => r.(error := Some(e))
        case Ok(b) => ChunkRun(r.data + b, None, r.reports + [(|r.data| + |b|, total)])
  }

  /** Every report carries the total, the byte counts never go down, and the
      last one is the number of bytes received. */
  lemma {:induction false} ReportsCumulative(chunks: seq<Result<Bytes, string>>, total: nat)
    ensures var r := ReadChunks(chunks, total);
      && (forall k :: 0 <= k < |r.reports| ==> r.reports[k].1 == total && r.reports[k].0 <= |r.data|)
      && (forall k :: 0 < k < |r.reports| ==> r.reports[k - 1].0 <= r.reports[k].0)
      && (r.reports != [] ==> r.reports[|r.reports| - 1].0 == |r.data|)
  {
    if chunks != [] {
      ReportsCumulative(chunks[..|chunks| - 1], total);
    }
  }

  /** A body without failing chunks arrives whole. */
  lemma {:induction false} ReadChunksComplete(chunks: seq<Result<Bytes, string>>, total: nat)
    ensures ReadChunks(chunks, total).error.None? <==> forall k :: 0 <= k < |chunks| ==> chunks[k].Ok?
    ensures |ReadChunks(chunks, total).reports| <= |chunks|
  {
    if chunks != [] {
      var init := chunks[..|chunks| - 1];
      ReadChunksComplete(init, total);
      assert forall k :: 0 <= k < |init| ==> init[k] == chunks[k];
    }
  }

  lemma {:induction false} ReadChunksStops(chunks: seq<Result<Bytes, string>>, k: nat, total: nat)
    requires k <= |chunks| && ReadChunks(chunks[..k], total).error.Some?
    ensures ReadChunks(chunks, total) == ReadChunks(chunks[..k], total)
    decreases |chunks| - k
  {
    if k < |chunks| {
      assert chunks[..k + 1][..k] == chunks[..k];
      ReadChunksStops(chunks, k + 1, total);
    } else {
      assert chunks[..k] == chunks;
    }
  }

  /** Every report of a prefix that did not fail is a report of the whole
      body. */
  lemma {:induction false} ReadChunksPrefix(chunks: seq<Result<Bytes, string>>, k: nat, total: nat)
    requires k <= |chunks| && ReadChunks(chunks[..k], total).error.None?
    ensures ReadChunks(chunks[..k], total).reports <= ReadChunks(chunks, total).reports
    decreases |chunks| - k
  {
    if k < |chunks| {
      assert chunks[..k + 1][..k] == chunks[..k];
      var next := ReadChunks(chunks[..k + 1], total);
      if next.error.Some? {
        ReadChunksStops(chunks, k + 1, total);
      } else {
        ReadChunksPrefix(chunks, k + 1, total);
      }
    } else {
      assert chunks[..k] == chunks;
    }
  }

  // ---------------------------------------------------------------------
  // The chunk loop

  /** Why the chunk loop stopped before the end of the body. */
  datatype ChunkFailure = ReadFailed(reason: string) | WriteFailed(reason: string)

  /** What the chunk loop leaves: the file system, the failure if any, and
      the progress reports. */
  datatype Streamed = Streamed(fs: FsState, failure: Option<ChunkFailure>, reports: seq<(nat, nat)>)

  /** The index of the first chunk that fails or carries bytes. */
  function FirstNonEmpty(chunks: seq<Result<Bytes, string>>): (k: nat)
    ensures k <= |chunks|
  {
    if chunks == [] || chunks[0] != Ok([]) then 0 else 1 + FirstNonEmpty(chunks[1..])
  }

  /** The chunks before it are empty and it is not. */
  lemma {:induction false} FirstNonEmptyMeaning(chunks: seq<Result<Bytes, string>>)
    ensures var k := FirstNonEmpty(chunks);
      && (forall j :: 0 <= j < k ==> chunks[j] == Ok([]))
      && (k < |chunks| ==> chunks[k] != Ok([]))
  {
    if chunks != [] && chunks[0] == Ok([]) {
      FirstNonEmptyMeaning(chunks[1..]);
      var k := FirstNonEmpty(chunks);
      forall j | 0 <= j < k
        ensures chunks[j] == Ok([])
      {
        if j > 0 {
          assert chunks[j] == chunks[1..][j - 1];
        }
      }
    }
  }

  /** On a full disk the first chunk with bytes arrives but cannot be
      written, unless a chunk fails to arrive before it. */
  predicate WriteRefused(diskFull: bool, chunks: seq<Result<Bytes, string>>)
  {
    diskFull && FirstNonEmpty(chunks) < |chunks| && chunks[FirstNonEmpty(chunks)].Ok?
  }

  /** The loop that reads each chunk, writes it to the open temporary file
      and reports the running byte count; it stops at the first chunk that
      does not arrive or cannot be written. */
  function Stream(fs: FsState, tmp: Path, chunks: seq<Result<Bytes, string>>, total: nat): (s: Streamed)
    requires tmp in fs.files
    ensures tmp in s.fs.files
  {
    if WriteRefused(fs.diskFull, chunks) then
      Streamed(fs, Some(WriteFailed(fs.ioError)), ReadChunks(chunks[..FirstNonEmpty(chunks)], total).reports)
    else
      var run := ReadChunks(chunks, total);
      Streamed(Append(fs, tmp, run.data), if run.error.Some? then Some(ReadFailed(run.error.value)) else None, run.reports)
  }

  /** The loop ends cleanly exactly when every chunk arrives and none is
      refused; then the file holds the whole body after what it held. A
      write failure leaves the file as it was and carries the system's
      error; a read failure keeps the bytes before it. Only the temporary
      file changes, and the reports are a prefix of the body's. */
  lemma StreamMeaning(fs: FsState, tmp: Path, chunks: seq<Result<Bytes, string>>, total: nat)
    requires tmp in fs.files
    ensures var s := Stream(fs, tmp, chunks, total);
      var run := ReadChunks(chunks, total);
      && (s.failure.None? <==> (forall k :: 0 <= k < |chunks| ==> chunks[k].Ok?) && !WriteRefused(fs.diskFull, chunks))
      && (s.failure.None? ==> s.fs == Append(fs, tmp, run.data) && s.reports == run.reports)
      && (s.failure.Some? && s.failure.value.WriteFailed? <==> WriteRefused(fs.diskFull, chunks))
      && (s.failure.Some? && s.failure.value.WriteFailed? ==> s.fs == fs && s.failure.value.reason == fs.ioError)
      && (s.failure.Some? && s.failure.value.ReadFailed? ==> run.error == Some(s.failure.value.reason) && s.fs == Append(fs, tmp, run.data))
      && tmp in s.fs.files && s.fs.dirs == fs.dirs && s.fs.ioError == fs.ioError
      && (forall p :: p != tmp ==> (p in s.fs.files <==> p in fs.files) && (p in fs.files ==> s.fs.files[p] == fs.files[p]))
      && s.reports <= run.reports
  {
    ReadChunksComplete(chunks, total);
    StreamReports(fs, tmp, chunks, total);
  }

  /** A loop that ends cleanly has written the whole body; any loop reports
      a prefix of the body's reports. */
  lemma StreamReports(fs: FsState, tmp: Path, chunks: seq<Result<Bytes, string>>, total: nat)
    requires tmp in fs.files
    ensures var s := Stream(fs, tmp, chunks, total);
      var run := ReadChunks(chunks, total);
      && (s.failure.None? ==> run.error.None? && !WriteRefused(fs.diskFull, chunks) && s.fs == Append(fs, tmp, run.data) && s.reports == run.reports)
      && s.reports <= run.reports
  {
    if WriteRefused(fs.diskFull, chunks) {
      var k := FirstNonEmpty(chunks);
      FirstNonEmptyMeaning(chunks);
      assert forall j :: 0 <= j < k ==> chunks[..k][j] == chunks[j];
      ReadChunksComplete(chunks[..k], total);
      ReadChunksPrefix(chunks, k, total);
    }
  }

  /** The loop touches no file but the temporary one. */
  lemma StreamElsewhere(fs: FsState, tmp: Path, chunks: seq<Result<Bytes, string>>, total: nat, p: Path)
    requires tmp in fs.files && p != tmp
    ensures var s := Stream(fs, tmp, chunks, total);
      (p in s.fs.files <==> p in fs.files) && (p in fs.files ==> s.fs.files[p] == fs.files[p])
  {
  }

  // ---------------------------------------------------------------------
  // One file

  /** What a download did: the file system, the error if any, whether a
      request went out, and the progress reports. */
  datatype Done = Done(fs: FsState, error: Option<LauncherError>, requested: bool, reports: seq<(nat, nat)>)

  /** `calculate_sha1`: the digest of the file, or a File error when it
      cannot be read. */
  function CalculateSha1(fs: FsState, p: Path, sha1: Bytes -> string): (r: LResult<string>)
    ensures r.Ok? <==> p in fs.files
    ensures r.Ok? ==> r.value == sha1(fs.files[p])
  {
    match Read(fs, p)
    case Some(data) => Ok(sha1(data))
    case None => Err(FileError("Failed to read file for hashing: " + fs.ioError))
  }

  /** The destination is already there with the expected digest. */
  predicate AlreadyValid(fs: FsState, dest: Path, expected: Option<string>, sha1: Bytes -> string)
  {
    expected.Some? && Exists(fs, dest) && CalculateSha1(fs, dest, sha1) == Ok(expected.value)
  }

  /** The parent directory of the destination cannot be created. */
  predicate ParentFails(fs: FsState, dest: Path)
  {
    Parent(dest).Some? && CreateDirAll(fs, Parent(dest).value).Err?
  }

  /** The file system once the parent directory is there. */
  function WithParent(fs: FsState, dest: Path): FsState
    requires !ParentFails(fs, dest)
  {
    if Parent(dest).Some? then CreateDirAll(fs, Parent(dest).value).value else fs
  }

  /** `download_file` and `download_file_with_progress`: the two share every
      step; the first ignores the progress reports. */
  function DownloadOutcome(fs: FsState, url: string, dest: Path, expected: Option<string>,
                           net: string -> Response, sha1: Bytes -> string, os: Os): Done
  {
    if AlreadyValid(fs, dest, expected, sha1) then Done(fs, None, false, [])
    else if ParentFails(fs, dest) then
      var parent := Parent(dest).value;
      Done(fs, Some(FileError("Failed to create directory " + Paths.Display(parent, os) + ": " + CreateDirAll(fs, parent).error)), false, [])
    else Transfer(WithParent(fs, dest), url, dest, expected, net(url), sha1, os)
  }

  /** The request and what follows it. */
  function Transfer(fs: FsState, url: string, dest: Path, expected: Option<string>,
                    resp: Response, sha1: Bytes -> string, os: Os): Done
  {
    match resp
    case SendFailed(reason) =>
      Done(fs, Some(DownloadError("Failed to start download from " + url + ": " + reason)), true, [])
    case Response(status, text, len, chunks) =>
      if !IsSuccess(status) then
        Done(fs, Some(DownloadError("HTTP error " + text + " when downloading from " + url)), true, [])
      else
        var tmp := WithExtension(dest, "tmp");
        match CreateFile(fs, tmp)
        case Err(e) => Done(fs, Some(FileError("Failed to create temporary file " + Paths.Display(tmp, os) + ": " + e)), true, [])
        case Ok(created) =>
          var total := len.UnwrapOr(0);
          AfterStream(Stream(created, tmp, chunks, total), tmp, dest, expected, sha1, os, total)
  }

  /** What follows the chunk loop: its failure, or the last steps. */
  function AfterStream(streamed: Streamed, tmp: Path, dest: Path, expected: Option<string>, sha1: Bytes -> string,
                       os: Os, total: nat): Done
    requires tmp in streamed.fs.files
  {
    match streamed.failure
    case Some(ReadFailed(e)) =>
      Done(streamed.fs, Some(DownloadError("Failed to read chunk: " + e)), true, streamed.reports)
    case Some(WriteFailed(e)) =>
      Done(streamed.fs, Some(FileError("Failed to write chunk: " + e)), true, streamed.reports)
    case None =>
      Finish(streamed.fs, tmp, dest, expected, sha1, os, streamed.reports, total)
  }

  /** The digest check of the temporary file and the rename. */
  function Finish(fs: FsState, tmp: Path, dest: Path, expected: Option<string>, sha1: Bytes -> string,
                  os: Os, reports: seq<(nat, nat)>, total: nat): Done
    requires tmp in fs.files
  {
    var actual := sha1(fs.files[tmp]);
    if expected.Some? && actual != expected.value then
      Done(RemoveFile(fs, tmp),
           Some(ValidationError("Hash mismatch for " + Paths.Display(dest, os) + ": expected " + expected.value + ", got " + actual)),
           true, reports)
    else
      match Rename(fs, tmp, dest)
      case Err(e) => Done(fs, Some(FileError("Failed to move file to final destination: " + e)), true, reports)
      case Ok(moved) => Done(moved, None, true, reports + [(total, total)])
  }

  /** The body of the response as the downloader takes it in. */
  function Body(resp: Response): ChunkRun
  {
    match resp
    case SendFailed(_) => ChunkRun([], None, [])
    case Response(_, _, len, chunks) => ReadChunks(chunks, len.UnwrapOr(0))
  }

  function Total(resp: Response): nat
  {
    match resp
    case SendFailed(_) => 0
    case Response(_, _, len, _) => len.UnwrapOr(0)
  }

  // ---------------------------------------------------------------------
  // The last steps: digest check and rename

  lemma FinishElsewhere(fs: FsState, tmp: Path, dest: Path, expected: Option<string>, sha1: Bytes -> string,
                        os: Os, reports: seq<(nat, nat)>, total: nat, p: Path)
    requires tmp in fs.files && p != tmp && p != dest
    ensures var d := Finish(fs, tmp, dest, expected, sha1, os, reports, total);
      (p in d.fs.files <==> p in fs.files) && (p in fs.files ==> d.fs.files[p] == fs.files[p])
  {
  }

  lemma FinishKeepsDestOnError(fs: FsState, tmp: Path, dest: Path, expected: Option<string>, sha1: Bytes -> string,
                               os: Os, reports: seq<(nat, nat)>, total: nat)
    requires tmp in fs.files && tmp != dest
    ensures var d := Finish(fs, tmp, dest, expected, sha1, os, reports, total);
      d.error.Some? ==> (dest in d.fs.files <==> dest in fs.files) && (dest in fs.files ==> d.fs.files[dest] == fs.files[dest])
  {
  }

  lemma FinishSuccess(fs: FsState, tmp: Path, dest: Path, expected: Option<string>, sha1: Bytes -> string,
                      os: Os, reports: seq<(nat, nat)>, total: nat)
    requires tmp in fs.files
    ensures var d := Finish(fs, tmp, dest, expected, sha1, os, reports, total);
      && d.requested
      && (d.error.Some? ==> d.reports == reports)
      && (d.error.None? ==>
            && dest in d.fs.files && d.fs.files[dest] == fs.files[tmp]
            && (expected.Some? ==> sha1(fs.files[tmp]) == expected.value)
            && (tmp != dest ==> tmp !in d.fs.files)
            && d.reports == reports + [(total, total)])
  {
  }

  lemma FinishMismatch(fs: FsState, tmp: Path, dest: Path, h: string, sha1: Bytes -> string,
                       os: Os, reports: seq<(nat, nat)>, total: nat)
    requires tmp in fs.files && sha1(fs.files[tmp]) != h
    ensures var d := Finish(fs, tmp, dest, Some(h), sha1, os, reports, total);
      && d.error == Some(Config("Hash mismatch for " + Paths.Display(dest, os) + ": expected " + h + ", got " + sha1(fs.files[tmp])))
      && tmp !in d.fs.files
  {
  }

  // ---------------------------------------------------------------------
  // From the request on

  /** The temporary file right before the digest check holds the body. */
  lemma WrittenHoldsBody(fs: FsState, tmp: Path, data: Bytes)
    requires CreateFile(fs, tmp).Ok?
    ensures var w := Append(CreateFile(fs, tmp).value, tmp, data);
      tmp in w.files && w.files[tmp] == data
      && forall p :: p != tmp ==> (p in w.files <==> p in fs.files) && (p in fs.files ==> w.files[p] == fs.files[p])
  {
    assert [] + data == data;
  }

  /** What follows the chunk loop touches neither the destination's
      neighbours nor, on failure, the destination. */
  lemma AfterStreamElsewhere(st: Streamed, tmp: Path, dest: Path, expected: Option<string>, sha1: Bytes -> string,
                             os: Os, total: nat, p: Path)
    requires tmp in st.fs.files && p != tmp && p != dest
    ensures var d := AfterStream(st, tmp, dest, expected, sha1, os, total);
      (p in d.fs.files <==> p in st.fs.files) && (p in st.fs.files ==> d.fs.files[p] == st.fs.files[p])
  {
    if st.failure.None? {
      FinishElsewhere(st.fs, tmp, dest, expected, sha1, os, st.reports, total, p);
    }
  }

  lemma AfterStreamKeepsDest(st: Streamed, tmp: Path, dest: Path, expected: Option<string>, sha1: Bytes -> string,
                             os: Os, total: nat)
    requires tmp in st.fs.files && tmp != dest
    ensures var d := AfterStream(st, tmp, dest, expected, sha1, os, total);
      d.error.Some? ==> (dest in d.fs.files <==> dest in st.fs.files) && (dest in st.fs.files ==> d.fs.files[dest] == st.fs.files[dest])
  {
    if st.failure.None? {
      FinishKeepsDestOnError(st.fs, tmp, dest, expected, sha1, os, st.reports, total);
    }
  }

  lemma AfterStreamSuccess(st: Streamed, tmp: Path, dest: Path, expected: Option<string>, sha1: Bytes -> string,
                           os: Os, total: nat)
    requires tmp in st.fs.files
    ensures var d := AfterStream(st, tmp, dest, expected, sha1, os, total);
      && d.requested
      && (d.error.Some? ==> d.reports == st.reports)
      && (d.error.None? ==>
            && st.failure.None?
            && dest in d.fs.files && d.fs.files[dest] == st.fs.files[tmp]
            && (expected.Some? ==> sha1(st.fs.files[tmp]) == expected.value)
            && (tmp != dest ==> tmp !in d.fs.files)
            && d.reports == st.reports + [(total, total)])
  {
    if st.failure.None? {
      FinishSuccess(st.fs, tmp, dest, expected, sha1, os, st.reports, total);
    }
  }

  /** Before the temporary file exists nothing has changed; after, the
      download is the chunk loop and what follows it. */
  lemma TransferCases(fs: FsState, url: string, dest: Path, expected: Option<string>,
                      resp: Response, sha1: Bytes -> string, os: Os)
    ensures var d := Transfer(fs, url, dest, expected, resp, sha1, os);
      var tmp := WithExtension(dest, "tmp");
      if resp.Response? && IsSuccess(resp.status) && CreateFile(fs, tmp).Ok? then
        d == AfterStream(Stream(CreateFile(fs, tmp).value, tmp, resp.chunks, Total(resp)), tmp, dest, expected, sha1, os, Total(resp))
      else d.fs == fs && d.error.Some? && d.requested && d.reports == []
  {
  }

  lemma TransferElsewhere(fs: FsState, url: string, dest: Path, expected: Option<string>,
                          resp: Response, sha1: Bytes -> string, os: Os, p: Path)
    requires p != dest && p != WithExtension(dest, "tmp")
    ensures var d := Transfer(fs, url, dest, expected, resp, sha1, os);
      (p in d.fs.files <==> p in fs.files) && (p in fs.files ==> d.fs.files[p] == fs.files[p])
  {
    var tmp := WithExtension(dest, "tmp");
    TransferCases(fs, url, dest, expected, resp, sha1, os);
    if resp.Response? && IsSuccess(resp.status) && CreateFile(fs, tmp).Ok? {
      var created := CreateFile(fs, tmp).value;
      var st := Stream(created, tmp, resp.chunks, Total(resp));
      StreamElsewhere(created, tmp, resp.chunks, Total(resp), p);
      AfterStreamElsewhere(st, tmp, dest, expected, sha1, os, Total(resp), p);
    }
  }

  lemma TransferKeepsDestOnError(fs: FsState, url: string, dest: Path, expected: Option<string>,
                                 resp: Response, sha1: Bytes -> string, os: Os)
    requires WithExtension(dest, "tmp") != dest
    ensures var d := Transfer(fs, url, dest, expected, resp, sha1, os);
      d.error.Some? ==> (dest in d.fs.files <==> dest in fs.files) && (dest in fs.files ==> d.fs.files[dest] == fs.files[dest])
  {
    var tmp := WithExtension(dest, "tmp");
    TransferCases(fs, url, dest, expected, resp, sha1, os);
    if resp.Response? && IsSuccess(resp.status) && CreateFile(fs, tmp).Ok? {
      var created := CreateFile(fs, tmp).value;
      var st := Stream(created, tmp, resp.chunks, Total(resp));
      StreamElsewhere(created, tmp, resp.chunks, Total(resp), dest);
      AfterStreamKeepsDest(st, tmp, dest, expected, sha1, os, Total(resp));
    }
  }

  lemma TransferSuccess(fs: FsState, url: string, dest: Path, expected: Option<string>,
                        resp: Response, sha1: Bytes -> string, os: Os)
    ensures var d := Transfer(fs, url, dest, expected, resp, sha1, os);
      var tmp := WithExtension(dest, "tmp");
      && d.requested
      && (d.error.Some? ==> d.reports <= Body(resp).reports)
      && (d.error.None? ==>
            && resp.Response? && IsSuccess(resp.status) && Body(resp).error.None?
            && dest in d.fs.files && d.fs.files[dest] == Body(resp).data
            && (expected.Some? ==> sha1(Body(resp).data) == expected.value)
            && !WriteRefused(fs.diskFull, resp.chunks)
            && (tmp != dest ==> tmp !in d.fs.files)
            && d.reports == Body(resp).reports + [(Total(resp), Total(resp))])
  {
    var tmp := WithExtension(dest, "tmp");
    TransferCases(fs, url, dest, expected, resp, sha1, os);
    if resp.Response? && IsSuccess(resp.status) && CreateFile(fs, tmp).Ok? {
      var created := CreateFile(fs, tmp).value;
      var st := Stream(created, tmp, resp.chunks, Total(resp));
      StreamReports(created, tmp, resp.chunks, Total(resp));
      WrittenHoldsBody(fs, tmp, Body(resp).data);
      AfterStreamSuccess(st, tmp, dest, expected, sha1, os, Total(resp));
    }
  }

  lemma TransferMismatch(fs: FsState, url: string, dest: Path, h: string,
                         resp: Response, sha1: Bytes -> string, os: Os)
    requires resp.Response? && IsSuccess(resp.status) && CreateFile(fs, WithExtension(dest, "tmp")).Ok?
    requires Body(resp).error.None? && !WriteRefused(fs.diskFull, resp.chunks) && sha1(Body(resp).data) != h
    ensures var d := Transfer(fs, url, dest, Some(h), resp, sha1, os);
      && d.error == Some(Config("Hash mismatch for " + Paths.Display(dest, os) + ": expected " + h + ", got " + sha1(Body(resp).data)))
      && WithExtension(dest, "tmp") !in d.fs.files
  {
    var tmp := WithExtension(dest, "tmp");
    var created := CreateFile(fs, tmp).value;
    StreamMeaning(created, tmp, resp.chunks, Total(resp));
    ReadChunksComplete(resp.chunks, Total(resp));
    WrittenHoldsBody(fs, tmp, Body(resp).data);
    var w := Stream(created, tmp, resp.chunks, Total(resp)).fs;
    FinishMismatch(w, tmp, dest, h, sha1, os, Body(resp).reports, Total(resp));
  }

  /** On a full disk the first chunk with bytes cannot be written: a File
      error with the system's text, the empty temporary file is left behind
      and the destination is untouched. */
  lemma TransferWriteRefused(fs: FsState, url: string, dest: Path, expected: Option<string>,
                             resp: Response, sha1: Bytes -> string, os: Os)
    requires resp.Response? && IsSuccess(resp.status) && CreateFile(fs, WithExtension(dest, "tmp")).Ok?
    requires WriteRefused(fs.diskFull, resp.chunks)
    ensures var d := Transfer(fs, url, dest, expected, resp, sha1, os);
      && d.error == Some(File("Failed to write chunk: " + fs.ioError))
      && d.fs == CreateFile(fs, WithExtension(dest, "tmp")).value
      && d.reports <= Body(resp).reports
  {
    StreamMeaning(CreateFile(fs, WithExtension(dest, "tmp")).value, WithExtension(dest, "tmp"), resp.chunks, Total(resp));
  }

  // ---------------------------------------------------------------------
  // What one download promises

  /** No request goes out exactly when the destination is already valid or
      its directory cannot be made; a valid destination is left alone. */
  lemma SkipMakesNoRequest(fs: FsState, url: string, dest: Path, expected: Option<string>,
                           net: string -> Response, sha1: Bytes -> string, os: Os)
    ensures var d := DownloadOutcome(fs, url, dest, expected, net, sha1, os);
      && (!d.requested <==> AlreadyValid(fs, dest, expected, sha1) || ParentFails(fs, dest))
      && (AlreadyValid(fs, dest, expected, sha1) ==> d == Done(fs, None, false, []))
  {
    if !AlreadyValid(fs, dest, expected, sha1) && !ParentFails(fs, dest) {
      TransferSuccess(WithParent(fs, dest), url, dest, expected, net(url), sha1, os);
    }
  }

  /** Without an expected digest, or with a destination that is missing,
      unreadable or different, the file is fetched. */
  lemma FetchedUnlessValid(fs: FsState, url: string, dest: Path, expected: Option<string>,
                           net: string -> Response, sha1: Bytes -> string, os: Os)
    requires !ParentFails(fs, dest)
    requires expected.None? || dest !in fs.files || sha1(fs.files[dest]) != expected.value
    ensures DownloadOutcome(fs, url, dest, expected, net, sha1, os).requested
  {
    SkipMakesNoRequest(fs, url, dest, expected, net, sha1, os);
  }

  /** A status outside 2xx is a Download error, reported before the
      temporary file exists: no file changes. */
  lemma BadStatusWritesNothing(fs: FsState, url: string, dest: Path, expected: Option<string>,
                               net: string -> Response, sha1: Bytes -> string, os: Os)
    requires !AlreadyValid(fs, dest, expected, sha1) && !ParentFails(fs, dest)
    requires net(url).Response? && !IsSuccess(net(url).status)
    ensures var d := DownloadOutcome(fs, url, dest, expected, net, sha1, os);
      d.error.Some? && d.error.value.Download? && d.fs.files == fs.files
  {
  }

  /** Files other than the temporary file and the destination are never
      touched. */
  lemma OnlyTmpAndDestChange(fs: FsState, url: string, dest: Path, expected: Option<string>,
                             net: string -> Response, sha1: Bytes -> string, os: Os, p: Path)
    requires p != dest && p != WithExtension(dest, "tmp")
    ensures var d := DownloadOutcome(fs, url, dest, expected, net, sha1, os);
      (p in d.fs.files <==> p in fs.files) && (p in fs.files ==> d.fs.files[p] == fs.files[p])
  {
    if !AlreadyValid(fs, dest, expected, sha1) && !ParentFails(fs, dest) {
      TransferElsewhere(WithParent(fs, dest), url, dest, expected, net(url), sha1, os, p);
    }
  }

  /** A failed download leaves the destination as it was (when the
      temporary path is another path, which it is for every destination
      whose extension is not "tmp"). */
  lemma FailureKeepsDestination(fs: FsState, url: string, dest: Path, expected: Option<string>,
                                net: string -> Response, sha1: Bytes -> string, os: Os)
    requires WithExtension(dest, "tmp") != dest
    ensures var d := DownloadOutcome(fs, url, dest, expected, net, sha1, os);
      d.error.Some? ==> (dest in d.fs.files <==> dest in fs.files) && (dest in fs.files ==> d.fs.files[dest] == fs.files[dest])
  {
    if !AlreadyValid(fs, dest, expected, sha1) && !ParentFails(fs, dest) {
      TransferKeepsDestOnError(WithParent(fs, dest), url, dest, expected, net(url), sha1, os);
    }
  }

  /** A download that went out and succeeded leaves at the destination
      exactly the whole body, whose digest is the expected one, and no
      temporary file; its progress reports are the per-chunk ones and then
      `(total, total)`. A failed one reports a prefix of the per-chunk
      reports, and one that made no request reports nothing. */
  lemma SuccessHoldsBody(fs: FsState, url: string, dest: Path, expected: Option<string>,
                         net: string -> Response, sha1: Bytes -> string, os: Os)
    ensures var d := DownloadOutcome(fs, url, dest, expected, net, sha1, os);
      var body := Body(net(url));
      && (!d.requested ==> d.reports == [])
      && (d.error.Some? ==> d.reports <= body.reports)
      && (d.requested && d.error.None? ==>
            && net(url).Response? && IsSuccess(net(url).status) && body.error.None?
            && dest in d.fs.files && d.fs.files[dest] == body.data
            && (expected.Some? ==> sha1(body.data) == expected.value)
            && (WithExtension(dest, "tmp") != dest ==> WithExtension(dest, "tmp") !in d.fs.files)
            && d.reports == body.reports + [(Total(net(url)), Total(net(url)))])
  {
    if !AlreadyValid(fs, dest, expected, sha1) && !ParentFails(fs, dest) {
      TransferSuccess(WithParent(fs, dest), url, dest, expected, net(url), sha1, os);
    }
  }

  /** A body whose digest is not the expected one gives a validation error,
      which is the Config variant, and the temporary file is gone. */
  lemma MismatchRemovesTmp(fs: FsState, url: string, dest: Path, h: string,
                           net: string -> Response, sha1: Bytes -> string, os: Os)
    requires !AlreadyValid(fs, dest, Some(h), sha1) && !ParentFails(fs, dest)
    requires net(url).Response? && IsSuccess(net(url).status)
    requires CreateFile(WithParent(fs, dest), WithExtension(dest, "tmp")).Ok?
    requires Body(net(url)).error.None? && !WriteRefused(fs.diskFull, net(url).chunks) && sha1(Body(net(url)).data) != h
    ensures var d := DownloadOutcome(fs, url, dest, Some(h), net, sha1, os);
      && d.error == Some(Config("Hash mismatch for " + Paths.Display(dest, os) + ": expected " + h + ", got " + sha1(Body(net(url)).data)))
      && WithExtension(dest, "tmp") !in d.fs.files
  {
    TransferMismatch(WithParent(fs, dest), url, dest, h, net(url), sha1, os);
  }

  /** A chunk that cannot be written ends the download with a File error;
      the empty temporary file stays behind. */
  lemma WriteFailureLeavesTmp(fs: FsState, url: string, dest: Path, expected: Option<string>,
                              net: string -> Response, sha1: Bytes -> string, os: Os)
    requires !AlreadyValid(fs, dest, expected, sha1) && !ParentFails(fs, dest)
    requires net(url).Response? && IsSuccess(net(url).status)
    requires CreateFile(WithParent(fs, dest), WithExtension(dest, "tmp")).Ok?
    requires WriteRefused(fs.diskFull, net(url).chunks)
    ensures var d := DownloadOutcome(fs, url, dest, expected, net, sha1, os);
      && d.error == Some(File("Failed to write chunk: " + fs.ioError))
      && WithExtension(dest, "tmp") in d.fs.files && d.fs.files[WithExtension(dest, "tmp")] == []
  {
    TransferWriteRefused(WithParent(fs, dest), url, dest, expected, net(url), sha1, os);
  }

  // ---------------------------------------------------------------------
  // The imperative download

  /** `download_file_with_progress`. */
  method DownloadFile(fs: FsState, url: string, dest: Path, expected: Option<string>,
                      net: string -> Response, sha1: Bytes -> string, os: Os) returns (d: Done)
    ensures d == DownloadOutcome(fs, url, dest, expected, net, sha1, os)
  {
    if expected.Some? && Exists(fs, dest) {
      var existing := CalculateSha1(fs, dest, sha1);
      if existing.Ok? && existing.value == expected.value {
        return Done(fs, None, false, []);
      }
    }
    var cur := fs;
    var parent := Parent(dest);
    if parent.Some? {
      var made := CreateDirAll(cur, parent.value);
      if made.Err? {
        return Done(fs, Some(FileError("Failed to create directory " + Paths.Display(parent.value, os) + ": " + made.error)), false, []);
      }
      cur := made.value;
    }
    d := TransferFile(cur, url, dest, expected, net(url), sha1, os);
  }

  /** The request, the stream into the temporary file and the last steps. */
  method TransferFile(fs: FsState, url: string, dest: Path, expected: Option<string>,
                      resp: Response, sha1: Bytes -> string, os: Os) returns (d: Done)
    ensures d == Transfer(fs, url, dest, expected, resp, sha1, os)
  {
    TransferCases(fs, url, dest, expected, resp, sha1, os);
    if resp.SendFailed? {
      return Done(fs, Some(DownloadError("Failed to start download from " + url + ": " + resp.reason)), true, []);
    }
    if !IsSuccess(resp.status) {
      return Done(fs, Some(DownloadError("HTTP error " + resp.statusText + " when downloading from " + url)), true, []);
    }
    var total := resp.contentLength.UnwrapOr(0);
    var tmp := WithExtension(dest, "tmp");
    var created := CreateFile(fs, tmp);
    if created.Err? {
      return Done(fs, Some(FileError("Failed to create temporary file " + Paths.Display(tmp, os) + ": " + created.error)), true, []);
    }
    var written, failure, reports := StreamToFile(created.value, tmp, resp.chunks, total);
    if failure.Some? {
      var message := match failure.value
        case ReadFailed(e) => DownloadError("Failed to read chunk: " + e)
        case WriteFailed(e) => FileError("Failed to write chunk: " + e);
      return Done(written, Some(message), true, reports);
    }
    d := FinishFile(written, tmp, dest, expected, sha1, os, reports, total);
  }

  /** The chunk loop: every chunk that arrives is written to the temporary
      file and reported with the running byte count. */
  method StreamToFile(fs: FsState, tmp: Path, chunks: seq<Result<Bytes, string>>, total: nat)
    returns (written: FsState, failure: Option<ChunkFailure>, reports: seq<(nat, nat)>)
    requires tmp in fs.files
    ensures Streamed(written, failure, reports) == Stream(fs, tmp, chunks, total)
  {
    AppendNothing(fs, tmp);
    written := fs;
    reports := [];
    var downloaded: nat := 0;
    ghost var data: Bytes := [];
    FirstNonEmptyMeaning(chunks);
    var i := 0;
    while i < |chunks|
      invariant 0 <= i <= |chunks|
      invariant ReadChunks(chunks[..i], total) == ChunkRun(data, None, reports)
      invariant downloaded == |data|
      invariant written == Append(fs, tmp, data)
      invariant fs.diskFull ==> data == [] && forall j :: 0 <= j < i ==> chunks[j] == Ok([])
    {
      assert chunks[..i + 1][..i] == chunks[..i];
      match chunks[i] {
        case Err(e) =>
          ReadChunksStops(chunks, i + 1, total);
          return written, Some(ReadFailed(e)), reports;
        case Ok(b) =>
          var w := Write(written, tmp, b);
          if w.Err? {
            return written, Some(WriteFailed(w.error)), reports;
          }
          AppendTwice(fs, tmp, data, b);
          written := w.value;
          data := data + b;
          downloaded := downloaded + |b|;
          reports := reports + [(downloaded, total)];
      }
      i := i + 1;
    }
    assert chunks[..i] == chunks;
    failure := None;
  }

  lemma AppendNothing(fs: FsState, p: Path)
    requires p in fs.files
    ensures Append(fs, p, []) == fs
  {
    assert fs.files[p] + [] == fs.files[p];
    assert fs.files[p := fs.files[p]] == fs.files;
  }

  lemma AppendTwice(fs: FsState, p: Path, a: Bytes, b: Bytes)
    requires p in fs.files
    ensures Append(Append(fs, p, a), p, b) == Append(fs, p, a + b)
  {
    assert fs.files[p] + a + b == fs.files[p] + (a + b);
  }

  method FinishFile(fs: FsState, tmp: Path, dest: Path, expected: Option<string>, sha1: Bytes -> string,
                    os: Os, reports: seq<(nat, nat)>, total: nat) returns (d: Done)
    requires tmp in fs.files
    ensures d == Finish(fs, tmp, dest, expected, sha1, os, reports, total)
  {
    if expected.Some? {
      var actual := CalculateSha1(fs, tmp, sha1);
      if actual.value != expected.value {
        return Done(RemoveFile(fs, tmp),
          Some(ValidationError("Hash mismatch for " + Paths.Display(dest, os) + ": expected " + expected.value + ", got " + actual.value)),
          true, reports);
      }
    }
    var moved := Rename(fs, tmp, dest);
    if moved.Err? {
      return Done(fs, Some(FileError("Failed to move file to final destination: " + moved.error)), true, reports);
    }
    d := Done(moved.value, None, true, reports + [(total, total)]);
  }

  // ---------------------------------------------------------------------
  // A batch

  /** The batch run one task after the other: the file system and the
      failures in submission order. */
  datatype BatchRun = BatchRun(fs: FsState, failures: seq<LauncherError>)

  /** Every task is fetched with its digest given. */
  function TaskStep(net: string -> Response, sha1: Bytes -> string, os: Os): (FsState, DownloadTask) -> Done
  {
    (fs: FsState, t: DownloadTask) => DownloadOutcome(fs, t.url, t.path, Some(t.sha1), net, sha1, os)
  }

  /** The tasks one after the other, each taking what the one before left. */
  function RunTasks(fs: FsState, tasks: seq<DownloadTask>, step: (FsState, DownloadTask) -> Done): BatchRun
  {
    if tasks == [] then BatchRun(fs, [])
    else
      var r := RunTasks(fs, tasks[..|tasks| - 1], step);
      var d := step(r.fs, tasks[|tasks| - 1]);
      BatchRun(d.fs, r.failures + (if d.error.Some? then [d.error.value] else []))
  }

  /** The outcome of task `i` in the batch: it sees what the tasks before it
      left. */
  function OutcomeAt(fs: FsState, tasks: seq<DownloadTask>, i: nat, step: (FsState, DownloadTask) -> Done): Done
    requires i < |tasks|
  {
    step(RunTasks(fs, tasks[..i], step).fs, tasks[i])
  }

  /** `download_files`: nothing to do for no tasks; otherwise the count of
      failures and the first of them. */
  function DownloadAll(fs: FsState, tasks: seq<DownloadTask>, net: string -> Response, sha1: Bytes -> string, os: Os): (FsState, Option<LauncherError>)
  {
    if tasks == [] then (fs, None)
    else
      var r := RunTasks(fs, tasks, TaskStep(net, sha1, os));
      if r.failures == [] then (r.fs, None)
      else (r.fs, Some(DownloadError(NatToString(|r.failures|) + " downloads failed. First error: " + Errors.Display(r.failures[0]))))
  }

  /** The failures are those of the failing tasks, one each. */
  lemma {:induction false} FailuresCounted(fs: FsState, tasks: seq<DownloadTask>, step: (FsState, DownloadTask) -> Done)
    ensures var r := RunTasks(fs, tasks, step);
      (r.failures == [] <==> forall i :: 0 <= i < |tasks| ==> OutcomeAt(fs, tasks, i, step).error.None?)
      && |r.failures| <= |tasks|
  {
    if tasks != [] {
      var n := |tasks| - 1;
      var init := tasks[..n];
      FailuresCounted(fs, init, step);
      forall i | 0 <= i < n
        ensures OutcomeAt(fs, tasks, i, step) == OutcomeAt(fs, init, i, step)
      {
        assert tasks[..i] == init[..i];
      }
      assert tasks[..n] == init;
      var r := RunTasks(fs, init, step);
      assert OutcomeAt(fs, tasks, n, step) == step(r.fs, tasks[n]);
    }
  }

  /** The first recorded failure is that of the first failing task. */
  lemma {:induction false} FirstFailure(fs: FsState, tasks: seq<DownloadTask>, k: nat, step: (FsState, DownloadTask) -> Done)
    requires k < |tasks| && OutcomeAt(fs, tasks, k, step).error.Some?
    requires forall i :: 0 <= i < k ==> OutcomeAt(fs, tasks, i, step).error.None?
    ensures var r := RunTasks(fs, tasks, step);
      r.failures != [] && r.failures[0] == OutcomeAt(fs, tasks, k, step).error.value
    decreases |tasks|
  {
    var n := |tasks| - 1;
    var init := tasks[..n];
    if k < n {
      assert OutcomeAt(fs, init, k, step) == OutcomeAt(fs, tasks, k, step) by {
        assert init[..k] == tasks[..k];
      }
      forall i | 0 <= i < k
        ensures OutcomeAt(fs, init, i, step) == OutcomeAt(fs, tasks, i, step)
      {
        assert init[..i] == tasks[..i];
      }
      FirstFailure(fs, init, k, step);
    } else {
      forall i | 0 <= i < n
        ensures OutcomeAt(fs, init, i, step).error.None?
      {
        assert init[..i] == tasks[..i];
        assert OutcomeAt(fs, init, i, step) == OutcomeAt(fs, tasks, i, step);
      }
      assert tasks[..n] == init;
      FailuresCounted(fs, init, step);
    }
  }

  /** The batch fails exactly when some task fails, and then with a
      Download error. */
  lemma BatchFailsIff(fs: FsState, tasks: seq<DownloadTask>, net: string -> Response, sha1: Bytes -> string, os: Os)
    ensures DownloadAll(fs, tasks, net, sha1, os).1.Some?
      <==> exists i :: 0 <= i < |tasks| && OutcomeAt(fs, tasks, i, TaskStep(net, sha1, os)).error.Some?
    ensures DownloadAll(fs, tasks, net, sha1, os).1.Some? ==> DownloadAll(fs, tasks, net, sha1, os).1.value.Download?
  {
    FailuresCounted(fs, tasks, TaskStep(net, sha1, os));
  }

  /** The batch's message names the error of the first failing task. */
  lemma BatchNamesFirstFailure(fs: FsState, tasks: seq<DownloadTask>, k: nat, net: string -> Response, sha1: Bytes -> string, os: Os)
    requires k < |tasks| && OutcomeAt(fs, tasks, k, TaskStep(net, sha1, os)).error.Some?
    requires forall i :: 0 <= i < k ==> OutcomeAt(fs, tasks, i, TaskStep(net, sha1, os)).error.None?
    ensures var r := RunTasks(fs, tasks, TaskStep(net, sha1, os));
      DownloadAll(fs, tasks, net, sha1, os).1 == Some(Download(NatToString(|r.failures|) + " downloads failed. First error: "
        + Errors.Display(OutcomeAt(fs, tasks, k, TaskStep(net, sha1, os)).error.value)))
  {
    FirstFailure(fs, tasks, k, TaskStep(net, sha1, os));
  }

  /** `download_files` with its loop over the tasks and the awaiting of the
      results in submission order. */
  method DownloadFiles(fs: FsState, tasks: seq<DownloadTask>, net: string -> Response, sha1: Bytes -> string, os: Os)
    returns (after: FsState, error: Option<LauncherError>)
    ensures (after, error) == DownloadAll(fs, tasks, net, sha1, os)
  {
    if tasks == [] {
      return fs, None;
    }
    var failed;
    after, failed := RunBatch(fs, tasks, net, sha1, os);
    if failed != [] {
      return after, Some(DownloadError(NatToString(|failed|) + " downloads failed. First error: " + Errors.Display(failed[0])));
    }
    error := None;
  }

  method RunBatch(fs: FsState, tasks: seq<DownloadTask>, net: string -> Response, sha1: Bytes -> string, os: Os)
    returns (after: FsState, failed: seq<LauncherError>)
    ensures RunTasks(fs, tasks, TaskStep(net, sha1, os)) == BatchRun(after, failed)
  {
    ghost var step := TaskStep(net, sha1, os);
    after := fs;
    failed := [];
    var i := 0;
    while i < |tasks|
      invariant 0 <= i <= |tasks|
      invariant RunTasks(fs, tasks[..i], step) == BatchRun(after, failed)
    {
      assert tasks[..i + 1][..i] == tasks[..i];
      var d := DownloadTaskFile(after, tasks[i], net, sha1, os);
      if d.error.Some? {
        failed := failed + [d.error.value];
      }
      after := d.fs;
      i := i + 1;
    }
    assert tasks[..i] == tasks;
  }

  /** One task of the batch, with its digest given. */
  method DownloadTaskFile(fs: FsState, t: DownloadTask, net: string -> Response, sha1: Bytes -> string, os: Os) returns (d: Done)
    ensures d == TaskStep(net, sha1, os)(fs, t)
  {
    d := DownloadFile(fs, t.url, t.path, Some(t.sha1), net, sha1, os);
  }
}
