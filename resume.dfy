/** Resuming an interrupted download with a ranged GET, checking a file's size and hash, retrying
    network failures with exponential backoff, and the resume-then-fall-back flow around them.
    The server's replies, the MD5 computation and the UTF-8 re-encoding of text files are
    parameters; times are seconds on the caller's clock. */
module Resume {
  import opened Wrappers
  import opened Strings
  import opened Models
  import opened Disk
  import opened Network

  /** Python's truth value of an optional size: absent and zero are both false. */
  predicate Known(size: Option<int>)
  {
    size.Some? && size.value != 0
  }

  /** The exception classes the recovery logic tells apart: `asyncio.TimeoutError`,
      `ConnectionError`, any other `OSError`, and everything else. */
  datatype ErrorKind = TimeoutErr | ConnectionErr | OsErr | OtherErr

  /** A raised exception: its class and `str(e)`. */
  datatype Error = Error(kind: ErrorKind, message: string)

  /** The exceptions `download_with_recovery` retries. */
  predicate IsNetworkError(e: Error)
  {
    e.kind != OtherErr
  }

  /** What one GET produced: an exception before any response, or a status, the response headers
      and the body bytes the stream delivered (`broken` when the stream raised after them). */
  datatype Reply =
    | Failed(error: Error)
    | Response(statusCode: int, headers: Headers, body: seq<byte>, broken: bool)

  /** What is remembered about a partial download. */
  datatype ResumeInfo = ResumeInfo(filePath: string, downloadedBytes: int, totalBytes: Option<int>,
                                   etag: Option<string>, lastModified: Option<string>,
                                   supportsRange: bool, createdAt: real)
  {
    /** `is_valid(max_age_hours)`: the record is not older than the limit, and the file is there
        with exactly the recorded number of bytes. */
    function IsValid(now: real, maxAgeHours: int, disk: FileSystem): (r: bool)
      reads disk
      ensures r <==> now - createdAt <= (maxAgeHours * 3600) as real
                     && filePath in disk.files && |disk.files[filePath]| == downloadedBytes
    {
      if now - createdAt > (maxAgeHours * 3600) as real then false
      else disk.Exists(filePath) && disk.Size(filePath) == downloadedBytes
    }
  }

  /** The `Range` request header for everything from byte `n` on: `bytes=<n>-`, a byte-range-spec
      with a first byte position and no last one (section 2.1 of RFC 7233). */
  function RangeFrom(n: nat): (r: string)
    ensures StartsWith(r, "bytes=") && r[|r| - 1] == '-' && |r| >= 8
    ensures forall i :: 6 <= i < |r| - 1 ==> '0' <= r[i] <= '9'
  {
    "bytes=" + NatToString(n) + "-"
  }

  /** The first byte position reads back from the header as the local size. */
  lemma RangeFromRoundTrip(n: nat)
    ensures ParseNat(RangeFrom(n)[6..|RangeFrom(n)| - 1]) == Some(n)
  {
    assert RangeFrom(n)[6..|RangeFrom(n)| - 1] == NatToString(n);
    ParseNatToString(n);
  }

  /** Different local sizes ask for different ranges. */
  lemma RangeFromInjective(m: nat, n: nat)
    requires RangeFrom(m) == RangeFrom(n)
    ensures m == n
  {
    RangeFromRoundTrip(m);
    RangeFromRoundTrip(n);
  }

  const DefaultMinResumeSize := 2 * 1024 * 1024

  /** Decides whether a partial file is worth resuming, resumes it, and checks files. */
  class ResumeManager {
    const minResumeSize: int
    var resumeCache: map<string, ResumeInfo>

    constructor (minResumeSize: int)
      ensures this.minResumeSize == minResumeSize && resumeCache == map[]
    {
      this.minResumeSize := minResumeSize;
      resumeCache := map[];
    }

    /** `should_resume(file_item, local_path)`: only a local file of at least `minResumeSize`
        bytes that is still shorter than the expected size, when that size is known. */
    function ShouldResume(item: FileItem, path: string, disk: FileSystem): (r: bool)
      reads item, disk
      ensures path !in disk.files ==> !r
      ensures path in disk.files && |disk.files[path]| < minResumeSize ==> !r
      ensures path in disk.files && Known(item.size) && |disk.files[path]| >= item.size.value ==> !r
      ensures (path in disk.files && |disk.files[path]| >= minResumeSize
               && !(Known(item.size) && |disk.files[path]| >= item.size.value)) ==> r
    {
      if !disk.Exists(path) then false
      else
        var localSize := disk.Size(path);
        if localSize < minResumeSize then false
        else if Known(item.size) && localSize >= item.size.value then false
        else true
    }

    /** `resume_download`: when the file is worth resuming, a GET with `Range: bytes=<local size>-`.
        206 (Partial Content, section 4.1 of RFC 7233) appends the delivered bytes and succeeds
        unless the stream broke; 416 (Range Not Satisfiable, section 4.4 of RFC 7233) means the file is
        already whole; any other status, and any exception, fails. Chunk-by-chunk writing is
        collapsed into one append of the delivered bytes, which the client counts as it
        streams them. */
    method ResumeDownload(client: AsyncHttpClient, item: FileItem, url: string, path: string,
                          disk: FileSystem, reply: Reply) returns (ok: bool, ghost request: Option<Request>)
      modifies client, item, disk
      ensures !old(ShouldResume(item, path, disk)) ==> !ok && request == None && unchanged(client, item, disk)
      ensures old(ShouldResume(item, path, disk)) ==>
                request == Some(Request(url, map["Range" := RangeFrom(old(|disk.files[path]|))]))
                && client.totalRequests == old(client.totalRequests) + 1
                && client.totalBytes
                   == old(client.totalBytes) + (if reply.Response? && reply.statusCode == 206 then |reply.body| else 0)
      ensures ok <==> old(ShouldResume(item, path, disk)) && reply.Response?
                      && (reply.statusCode == 416 || (reply.statusCode == 206 && !reply.broken))
      ensures old(ShouldResume(item, path, disk)) && reply.Response? && reply.statusCode == 206 ==>
                disk.files == old(disk.files)[path := old(disk.files[path]) + reply.body]
      ensures !(old(ShouldResume(item, path, disk)) && reply.Response? && reply.statusCode == 206) ==>
                disk.files == old(disk.files)
      ensures old(ShouldResume(item, path, disk)) && reply.Response? && reply.statusCode == 206
              && Known(item.size) && reply.body != [] ==>
                item.downloadedSize == |disk.files[path]|
                && item.progress == (|disk.files[path]| as real / item.size.value as real) * 100.0
      ensures item.Counters()
              == ResumedCounters(old(ShouldResume(item, path, disk)), old(disk.files), path, reply, item.size, old(item.Counters()))
      ensures item.Bookkeeping() == old(item.Bookkeeping()) && item.size == old(item.size)
      ensures client.connectionReused == old(client.connectionReused)
    {
      request := None;
      if !ShouldResume(item, path, disk) {
        return false, request;
      }
      var localSize := disk.Size(path);
      var headers := map["Range" := RangeFrom(localSize)];
      var sent := client.StreamDownload(url, headers);
      request := Some(sent);
      match reply {
        case Failed(_) =>
          ok := false;
        case Response(status, _, body, broken) =>
          if status != 206 && status != 416 {
            ok := false;
          } else if status == 416 {
            ok := true;
          } else {
            disk.Append(path, body);
            client.TrackBytesDownloaded(|body|);
            if Known(item.size) && body != [] {
              var currentSize := disk.Size(path);
              item.progress := (currentSize as real / item.size.value as real) * 100.0;
              item.downloadedSize := currentSize;
            }
            ok := !broken;
          }
      }
    }

    /** `verify_integrity`: the file must be there, have the expected size when that is known,
        and, when the item has a hash, hash to it up to letter case. */
    function VerifyIntegrity(item: FileItem, path: string, disk: FileSystem, digest: Digest): (r: bool)
      reads item, disk
      ensures path !in disk.files ==> !r
      ensures path in disk.files && Known(item.size) && |disk.files[path]| != item.size.value ==> !r
      ensures path in disk.files && !(Known(item.size) && |disk.files[path]| != item.size.value) ==>
                (r <==> item.md5 == "" || Lower(digest(disk.files[path])) == Lower(item.md5))
    {
      Intact(item.size, item.md5, disk.files, path, digest)
    }
  }

  /** The integrity check on an expected size, an expected hash and the files on disk. */
  function Intact(size: Option<int>, md5: string, files: map<string, seq<byte>>, path: string, digest: Digest): bool
  {
    if path !in files then false
    else if Known(size) && |files[path]| != size.value then false
    else if md5 != "" then Lower(digest(files[path])) == Lower(md5)
    else true
  }

  /** The bytes `resume_download` streams, each chunk counted on the client: the body of a 206
      reply to a resume that was attempted, and nothing otherwise. */
  function ResumedBytes(attempted: bool, reply: Reply): nat
  {
    if attempted && reply.Response? && reply.statusCode == 206 then |reply.body| else 0
  }

  /** The progress counters `(progress, downloaded_size)` after `resume_download` on `reply`,
      from `counters`: once a 206 body that is not empty has been appended to the partial file in
      `files`, and the expected size is known, the bytes now on disk over that size; on every
      other path as before. */
  function ResumedCounters(attempted: bool, files: map<string, seq<byte>>, path: string, reply: Reply,
                           size: Option<int>, counters: (real, int)): (real, int)
  {
    if attempted && reply.Response? && reply.statusCode == 206 && Known(size) && reply.body != [] && path in files then
      var n := |files[path]| + |reply.body|;
      ((n as real / size.value as real) * 100.0, n)
    else counters
  }

  /** The progress counters after `_full_download` has written `body`, from `counters`: a binary
      file with a known expected size and a body that is not empty has its bytes over that size
      (the counters of the final chunk); a text file whose stream ended counts as 100 percent
      with its downloaded size as before; otherwise nothing changes. */
  function SavedCounters(binary: bool, size: Option<int>, body: seq<byte>, broken: bool, counters: (real, int)): (real, int)
  {
    if binary then
      if Known(size) && body != [] then ((|body| as real / size.value as real) * 100.0, |body|) else counters
    else if !broken then (100.0, counters.1)
    else counters
  }

  /** The progress counters after `_full_download` on `reply`, with `size` the expected size it
      ends with: only a 200 reply whose Content-Length reads gets to write its body. */
  function FullCounters(reply: Reply, binary: bool, size: Option<int>, counters: (real, int)): (real, int)
  {
    if reply.Response? && reply.statusCode == 200 && ContentLength(reply.headers).Ok? then
      SavedCounters(binary, size, reply.body, reply.broken, counters)
    else counters
  }

  /** The files once `_full_download` has written the body of a 200 reply to `path`: a binary
      file holds the bytes that arrived, a text file the UTF-8 re-encoding of the whole body, and
      a text file whose stream broke is never opened. No other file changes. */
  function WrittenFiles(files: map<string, seq<byte>>, path: string, body: seq<byte>, broken: bool,
                        binary: bool, recode: seq<byte> -> seq<byte>): (r: map<string, seq<byte>>)
    ensures binary || !broken ==> path in r
    ensures binary ==> r[path] == body
    ensures !binary && !broken ==> r[path] == recode(body)
    ensures !binary && broken ==> r == files
    ensures forall p :: p != path ==> (p in r <==> p in files) && (p in files ==> r[p] == files[p])
  {
    if binary then files[path := body] else if !broken then files[path := recode(body)] else files
  }

  /** `if response.content_length: file_item.size = response.content_length`. */
  function SizeAfter(size: Option<int>, length: Option<int>): Option<int>
  {
    if length.Some? && length.value != 0 then length else size
  }

  /** The text a broken stream raises with; it stands for the message of the exception the client
      library raises mid-stream, which is not modelled. */
  const StreamBroken := "stream interrupted"

  const IntegrityFailure := "文件完整性验证失败"

  /** The end of `_full_download` once the body is written and `written` are the files: a broken
      stream raises and leaves them; otherwise the integrity check against the expected size
      `size` decides, a pass returning True with the file kept and a failure removing the file
      and raising. `c` is the outcome and `files` what is left. */
  predicate SavedAndChecked(broken: bool, size: Option<int>, md5: string, written: map<string, seq<byte>>, path: string,
                            digest: Digest, c: Call<bool>, files: map<string, seq<byte>>)
  {
    if broken then c == Raised(Error(OtherErr, FullFailure(StreamBroken))) && files == written
    else if Intact(size, md5, written, path, digest) then c == Returned(true) && files == written
    else c == Raised(Error(OtherErr, FullFailure(IntegrityFailure))) && files == written - {path}
  }

  /** How `_full_download` ends on `reply` for an item with hash `md5`, binary or not, whose
      expected size was `size0`, starting from the files `files0`: `c` is what it returns or
      raises, `size` the item's expected size and `files` the files it leaves. A failed request,
      a status other than 200 and an unreadable Content-Length raise before anything is written;
      otherwise a non-zero Content-Length becomes the expected size and the body is written and
      checked. */
  predicate FullOutcome(reply: Reply, binary: bool, md5: string, size0: Option<int>, files0: map<string, seq<byte>>,
                        path: string, digest: Digest, recode: seq<byte> -> seq<byte>,
                        c: Call<bool>, size: Option<int>, files: map<string, seq<byte>>)
  {
    match reply
    case Failed(e) => c == Raised(Error(OtherErr, FullFailure(e.message))) && size == size0 && files == files0
    case Response(status, headers, body, broken) =>
      if status != 200 then
        c == Raised(Error(OtherErr, FullFailure("HTTP " + IntToString(status)))) && size == size0 && files == files0
      else
        match ContentLength(headers)
        case Err(m) => c == Raised(Error(OtherErr, FullFailure(m))) && size == size0 && files == files0
        case Ok(length) =>
          size == SizeAfter(size0, length)
          && SavedAndChecked(broken, size, md5, WrittenFiles(files0, path, body, broken, binary, recode), path, digest, c, files)
  }

  /** A full download succeeds exactly when a 200 reply with a readable Content-Length streamed to
      its end and the file it wrote passes the integrity check against the new expected size. A
      success leaves that file in place; after a complete stream a failure leaves no file at the
      path; no other file changes; every failure carries the fixed prefix. */
  lemma FullOutcomeIntact(reply: Reply, binary: bool, md5: string, size0: Option<int>, files0: map<string, seq<byte>>,
                          path: string, digest: Digest, recode: seq<byte> -> seq<byte>,
                          c: Call<bool>, size: Option<int>, files: map<string, seq<byte>>)
    requires FullOutcome(reply, binary, md5, size0, files0, path, digest, recode, c, size, files)
    ensures c == Returned(true) <==>
              reply.Response? && reply.statusCode == 200 && ContentLength(reply.headers).Ok? && !reply.broken
              && Intact(size, md5, WrittenFiles(files0, path, reply.body, false, binary, recode), path, digest)
    ensures c == Returned(true) ==> Intact(size, md5, files, path, digest)
    ensures c.Raised? ==> c.error.kind == OtherErr && StartsWith(c.error.message, FailurePrefix)
    ensures c.Raised? && reply.Response? && reply.statusCode == 200 && ContentLength(reply.headers).Ok? && !reply.broken ==>
              path !in files
    ensures forall p :: p != path ==> (p in files <==> p in files0) && (p in files0 ==> files[p] == files0[p])
  {
    if reply.Response? && reply.statusCode == 200 && ContentLength(reply.headers).Ok? {
      var written := WrittenFiles(files0, path, reply.body, reply.broken, binary, recode);
      assert forall p :: p != path ==> (p in written <==> p in files0) && (p in files0 ==> written[p] == files0[p]);
    }
  }

  /** The files after `resume_download` answered by `reply`: a 206 reply appends its body to the
      partial file, and every other reply leaves the files as they were. */
  function ResumedFiles(files: map<string, seq<byte>>, path: string, reply: Reply): map<string, seq<byte>>
  {
    if reply.Response? && reply.statusCode == 206 && path in files then files[path := files[path] + reply.body]
    else files
  }

  /** A resume only appends: no file appears or disappears, the partial file keeps its bytes as
      a prefix, and every other file is untouched. */
  lemma ResumeOnlyAppends(files: map<string, seq<byte>>, path: string, reply: Reply)
    requires path in files
    ensures ResumedFiles(files, path, reply).Keys == files.Keys
    ensures files[path] <= ResumedFiles(files, path, reply)[path]
    ensures forall p :: p in files && p != path ==> ResumedFiles(files, path, reply)[p] == files[p]
  {
  }

  /** Two hashes that differ only in letter case give the same verdict, and so does the digest
      itself when it is spelled in capitals. */
  lemma IntegrityIgnoresCase(m: ResumeManager, a: FileItem, b: FileItem, path: string, disk: FileSystem,
                             digest: Digest, upper: Digest)
    requires a.size == b.size && a.md5 != "" && b.md5 != "" && Lower(a.md5) == Lower(b.md5)
    requires forall data :: Lower(upper(data)) == Lower(digest(data))
    ensures m.VerifyIntegrity(a, path, disk, digest) == m.VerifyIntegrity(b, path, disk, upper)
  {
    if path in disk.files {
      assert Lower(upper(disk.files[path])) == Lower(digest(disk.files[path]));
    }
  }

  /** `2 ** i` as a real number. */
  function Pow2(i: nat): (r: real)
    ensures r >= 1.0
  {
    if i == 0 then 1.0 else 2.0 * Pow2(i - 1)
  }

  lemma {:induction false} Pow2Monotone(i: nat, j: nat)
    requires i <= j
    ensures Pow2(i) <= Pow2(j)
    decreases j
  {
    if i < j {
      Pow2Monotone(i, j - 1);
    }
  }

  const MaxDelay := 16.0

  /** The wait before the retry that follows failed attempt `attempt`:
      `min(base_delay * 2 ** attempt, 16)`. */
  function Backoff(baseDelay: real, attempt: nat): (r: real)
    ensures r <= MaxDelay
  {
    MinReal(baseDelay * Pow2(attempt), MaxDelay)
  }

  /** Later retries never wait less. */
  lemma BackoffMonotone(baseDelay: real, i: nat, j: nat)
    requires baseDelay >= 0.0 && i <= j
    ensures Backoff(baseDelay, i) <= Backoff(baseDelay, j)
  {
    Pow2Monotone(i, j);
    var x, y := baseDelay * Pow2(i), baseDelay * Pow2(j);
    assert y - x == baseDelay * (Pow2(j) - Pow2(i));
    assert x <= y;
    assert Backoff(baseDelay, i) == MinReal(x, MaxDelay);
    assert Backoff(baseDelay, j) == MinReal(y, MaxDelay);
  }

  /** The waits after the first `n` failed attempts. */
  function Backoffs(baseDelay: real, n: nat): (r: seq<real>)
    ensures |r| == n && forall i :: 0 <= i < n ==> r[i] == Backoff(baseDelay, i)
  {
    seq(n, i requires 0 <= i => Backoff(baseDelay, i))
  }

  /** With one second as the base, five attempts wait 1, 2, 4 and 8 seconds between them, and the
      wait is capped at 16 seconds from the fifth retry on. */
  lemma DefaultBackoffs(i: nat)
    requires i >= 4
    ensures Backoffs(1.0, 4) == [1.0, 2.0, 4.0, 8.0]
    ensures Backoff(1.0, i) == MaxDelay
  {
    assert Pow2(1) == 2.0 && Pow2(2) == 4.0 && Pow2(3) == 8.0 && Pow2(4) == 16.0;
    Pow2Monotone(4, i);
  }

  /** The outcome of one call of the wrapped function. */
  datatype Call<T> = Returned(value: T) | Raised(error: Error)

  /** The outcome of `download_with_recovery`: a value, an exception passed on, or Python's `None`
      when no attempt is allowed at all. */
  datatype Recovered<T> = Value(value: T) | Failure(error: Error) | Nothing

  /** The recovery loop from attempt `attempt` on, where `f(j)` is the outcome of attempt `j`: a
      returned value ends it, a non-network exception or one on the last attempt is passed on, and
      a network exception before the last attempt moves on to the next one. */
  function Recover<T>(f: nat -> Call<T>, maxRetries: int, attempt: nat): Recovered<T>
    decreases Max(0, maxRetries - attempt)
  {
    if attempt >= maxRetries then Nothing
    else match f(attempt)
      case Returned(v) => Value(v)
      case Raised(e) =>
        if !IsNetworkError(e) || attempt == maxRetries - 1 then Failure(e)
        else Recover(f, maxRetries, attempt + 1)
  }

  /** How many attempts the recovery loop makes from attempt `attempt` on. */
  function RecoverCalls<T>(f: nat -> Call<T>, maxRetries: int, attempt: nat): nat
    decreases Max(0, maxRetries - attempt)
  {
    if attempt >= maxRetries then 0
    else match f(attempt)
      case Returned(_) => 1
      case Raised(e) =>
        if !IsNetworkError(e) || attempt == maxRetries - 1 then 1
        else 1 + RecoverCalls(f, maxRetries, attempt + 1)
  }

  /** At most `maxRetries` attempts are made, and `None` comes back exactly when none is allowed. */
  lemma {:induction false} RecoverBounds<T>(f: nat -> Call<T>, maxRetries: int, attempt: nat)
    requires attempt <= Max(0, maxRetries)
    ensures RecoverCalls(f, maxRetries, attempt) <= Max(0, maxRetries - attempt)
    ensures Recover(f, maxRetries, attempt) == Nothing <==> attempt >= maxRetries
    ensures attempt < maxRetries ==> RecoverCalls(f, maxRetries, attempt) >= 1
    decreases Max(0, maxRetries - attempt)
  {
    if attempt < maxRetries && f(attempt).Raised? && IsNetworkError(f(attempt).error)
       && attempt != maxRetries - 1 {
      RecoverBounds(f, maxRetries, attempt + 1);
    }
  }

  /** The last attempt made decides the outcome, and every attempt before it raised a network
      error: a value is what the last attempt returned, and an exception passed on is what it
      raised, either not a network error or raised on attempt number `maxRetries`. */
  lemma {:induction false} RecoverLastAttempt<T>(f: nat -> Call<T>, maxRetries: int, attempt: nat)
    requires attempt < maxRetries
    ensures var n := attempt + RecoverCalls(f, maxRetries, attempt);
            attempt < n <= maxRetries
            && (forall j :: attempt <= j < n - 1 ==> f(j).Raised? && IsNetworkError(f(j).error))
            && (Recover(f, maxRetries, attempt).Value? ==> f(n - 1) == Returned(Recover(f, maxRetries, attempt).value))
            && (Recover(f, maxRetries, attempt).Failure? ==>
                  f(n - 1) == Raised(Recover(f, maxRetries, attempt).error)
                  && (IsNetworkError(f(n - 1).error) ==> n == maxRetries))
            && !Recover(f, maxRetries, attempt).Nothing?
    decreases maxRetries - attempt
  {
    if f(attempt).Raised? && IsNetworkError(f(attempt).error) && attempt != maxRetries - 1 {
      RecoverLastAttempt(f, maxRetries, attempt + 1);
    }
  }

  /** Retries network failures of a download with exponential backoff. */
  class NetworkRecovery {
    const maxRetries: int
    const baseDelay: real

    constructor (maxRetries: int, baseDelay: real)
      ensures this.maxRetries == maxRetries && this.baseDelay == baseDelay
    {
      this.maxRetries := maxRetries;
      this.baseDelay := baseDelay;
    }

    /** `download_with_recovery(download_func)`, where `f(j)` is the outcome of attempt `j`: the
        result is the recovery loop's, after that many attempts, with a backoff wait after every
        failed attempt but the last. */
    method DownloadWithRecovery<T>(f: nat -> Call<T>) returns (r: Recovered<T>, ghost calls: nat, ghost delays: seq<real>)
      ensures r == Recover(f, maxRetries, 0) && calls == RecoverCalls(f, maxRetries, 0)
      ensures delays == Backoffs(baseDelay, if calls == 0 then 0 else calls - 1)
    {
      var attempt := 0;
      delays := [];
      while attempt < maxRetries
        invariant 0 <= attempt && (maxRetries <= 0 || attempt < maxRetries)
        invariant Recover(f, maxRetries, 0) == Recover(f, maxRetries, attempt)
        invariant RecoverCalls(f, maxRetries, 0) == attempt + RecoverCalls(f, maxRetries, attempt)
        invariant delays == Backoffs(baseDelay, attempt)
        decreases maxRetries - attempt
      {
        var outcome := f(attempt);
        match outcome {
          case Returned(v) =>
            return Value(v), attempt + 1, delays;
          case Raised(e) =>
            if !IsNetworkError(e) || attempt == maxRetries - 1 {
              return Failure(e), attempt + 1, delays;
            }
        }
        // `asyncio.sleep(min(base_delay * 2 ** attempt, 16))`
        delays := delays + [Backoff(baseDelay, attempt)];
        attempt := attempt + 1;
      }
      return Nothing, 0, delays;
    }
  }

  /** `classify_error`: the exception class first (timeout, then connection), then the message
      ("HTTP 5" before "HTTP 4"), else "unknown". */
  function ClassifyError(e: Error): (r: string)
    ensures r == "timeout" <==> e.kind == TimeoutErr
    ensures r == "connection" <==> e.kind == ConnectionErr
    ensures r == "server_error" <==> e.kind != TimeoutErr && e.kind != ConnectionErr && Contains(e.message, "HTTP 5")
    ensures r == "client_error" <==> e.kind != TimeoutErr && e.kind != ConnectionErr
                                     && !Contains(e.message, "HTTP 5") && Contains(e.message, "HTTP 4")
    ensures r in {"timeout", "connection", "server_error", "client_error", "unknown"}
  {
    if e.kind == TimeoutErr then "timeout"
    else if e.kind == ConnectionErr then "connection"
    else if Contains(e.message, "HTTP 5") then "server_error"
    else if Contains(e.message, "HTTP 4") then "client_error"
    else "unknown"
  }

  const FailurePrefix := "完整下载失败: "

  /** The message `_full_download` re-raises every failure with. */
  function FullFailure(message: string): (r: string)
    ensures StartsWith(r, FailurePrefix) && r[|FailurePrefix|..] == message
  {
    assert (FailurePrefix + message)[..|FailurePrefix|] == FailurePrefix;
    FailurePrefix + message
  }

  /** The first digit of a three-digit number. */
  lemma LeadingDigit(n: nat)
    requires 100 <= n < 1000
    ensures NatToString(n)[0] == DigitChar(n / 100)
  {
    assert NatToString(n) == NatToString(n / 10) + [DigitChar(n % 10)];
    assert NatToString(n / 10) == NatToString(n / 100) + [DigitChar((n / 10) % 10)];
  }

  /** A full download refused with a 5xx status is classified as a server error. */
  lemma ServerStatusIsServerError(status: int)
    requires 500 <= status < 600
    ensures ClassifyError(Error(OtherErr, FullFailure("HTTP " + IntToString(status)))) == "server_error"
  {
    var s := FullFailure("HTTP " + IntToString(status));
    var i := |FailurePrefix|;
    LeadingDigit(status);
    assert s[i..i + 6] == "HTTP 5";
    assert OccursAt(s, "HTTP 5", i);
  }

  /** The front end that tries a resume first and falls back to a full download. */
  class SmartResume {
    const resumeManager: ResumeManager
    const networkRecovery: NetworkRecovery

    /** `SmartResume()`: the default resume threshold of 2 MiB, five attempts, a one-second base. */
    constructor ()
      ensures resumeManager.minResumeSize == DefaultMinResumeSize
      ensures networkRecovery.maxRetries == 5 && networkRecovery.baseDelay == 1.0
    {
      resumeManager := new ResumeManager(DefaultMinResumeSize);
      networkRecovery := new NetworkRecovery(5, 1.0);
    }

    /** `_full_download`: a GET asking for compression when the name ends in ".json"; a status
        other than 200 fails; a non-zero Content-Length becomes the item's size; binary files are
        written as delivered, text files through the UTF-8 re-encoding once the whole body has
        arrived; then the integrity check decides, and a file that fails it is removed. Every
        failure is re-raised as a plain exception whose message starts with the fixed prefix. */
    method FullDownload(client: AsyncHttpClient, item: FileItem, url: string, path: string, disk: FileSystem,
                        reply: Reply, digest: Digest, recode: seq<byte> -> seq<byte>)
      returns (c: Call<bool>, ghost request: Request)
      modifies client, item, disk
      ensures request.url == url
      ensures "Accept-Encoding" in request.headers <==> EndsWith(item.filename, ".json")
      ensures client.totalRequests == old(client.totalRequests) + 1
      ensures client.totalBytes == old(client.totalBytes) + StreamedBytes(reply)
      ensures client.connectionReused == old(client.connectionReused)
      ensures c == Returned(true) || (c.Raised? && c.error.kind == OtherErr && StartsWith(c.error.message, FailurePrefix))
      ensures c == Returned(true) ==> resumeManager.VerifyIntegrity(item, path, disk, digest)
      ensures c == Returned(true) ==> reply.Response? && reply.statusCode == 200
      ensures reply.Response? && reply.statusCode != 200 ==>
                c == Raised(Error(OtherErr, FullFailure("HTTP " + IntToString(reply.statusCode))))
                && disk.files == old(disk.files) && item.size == old(item.size)
      ensures reply.Failed? ==> c == Raised(Error(OtherErr, FullFailure(reply.error.message))) && disk.files == old(disk.files)
      ensures item.Bookkeeping() == old(item.Bookkeeping())
      ensures item.Counters() == FullCounters(reply, item.IsBinaryFile(), item.size, old(item.Counters()))
      ensures FullOutcome(reply, item.IsBinaryFile(), item.md5, old(item.size), old(disk.files), path, digest, recode,
                          c, item.size, disk.files)
    {
      var headers: Headers := if EndsWith(item.filename, ".json") then map["Accept-Encoding" := "gzip, br, deflate"] else map[];
      request := client.StreamDownload(url, headers);
      c := Receive(item, path, disk, reply, digest, recode);
      // `iter_chunks` counts each chunk on the client as it is streamed
      client.TrackBytesDownloaded(StreamedBytes(reply));
    }

    /** The bytes `_full_download` streams from a reply: the body of a 200 reply whose
        Content-Length reads, and nothing otherwise. */
    static function StreamedBytes(reply: Reply): nat
    {
      if reply.Response? && reply.statusCode == 200 && ContentLength(reply.headers).Ok? then |reply.body| else 0
    }

    /** What `_full_download` does with the reply once the request is sent. */
    method Receive(item: FileItem, path: string, disk: FileSystem, reply: Reply, digest: Digest,
                   recode: seq<byte> -> seq<byte>) returns (c: Call<bool>)
      modifies item, disk
      ensures c == Returned(true) || (c.Raised? && c.error.kind == OtherErr && StartsWith(c.error.message, FailurePrefix))
      ensures c == Returned(true) ==> resumeManager.VerifyIntegrity(item, path, disk, digest)
      ensures c == Returned(true) ==> reply.Response? && reply.statusCode == 200
      ensures reply.Response? && reply.statusCode != 200 ==>
                c == Raised(Error(OtherErr, FullFailure("HTTP " + IntToString(reply.statusCode))))
                && disk.files == old(disk.files) && item.size == old(item.size)
      ensures reply.Failed? ==> c == Raised(Error(OtherErr, FullFailure(reply.error.message))) && disk.files == old(disk.files)
      ensures item.Bookkeeping() == old(item.Bookkeeping())
      ensures item.Counters() == FullCounters(reply, item.IsBinaryFile(), item.size, old(item.Counters()))
      ensures FullOutcome(reply, item.IsBinaryFile(), item.md5, old(item.size), old(disk.files), path, digest, recode,
                          c, item.size, disk.files)
    {
      if reply.Failed? {
        return Raised(Error(OtherErr, FullFailure(reply.error.message)));
      }
      if reply.statusCode != 200 {
        return Raised(Error(OtherErr, FullFailure("HTTP " + IntToString(reply.statusCode))));
      }
      var length := ReadContentLength(reply.headers);
      if length.Err? {
        return Raised(Error(OtherErr, FullFailure(length.error)));
      }
      if length.value.Some? && length.value.value != 0 {
        item.size := length.value;
      }
      c := SaveAndVerify(item, path, disk, reply.body, reply.broken, digest, recode);
    }

    /** Writing the body, then the integrity check; a file that fails it is removed. A broken
        stream raises with the placeholder text `StreamBroken`. */
    method SaveAndVerify(item: FileItem, path: string, disk: FileSystem, body: seq<byte>, broken: bool,
                         digest: Digest, recode: seq<byte> -> seq<byte>) returns (c: Call<bool>)
      modifies item, disk
      ensures c == Returned(true) || (c.Raised? && c.error.kind == OtherErr && StartsWith(c.error.message, FailurePrefix))
      ensures c == Returned(true) ==> resumeManager.VerifyIntegrity(item, path, disk, digest) && !broken
      ensures c.Raised? && !broken ==> path !in disk.files
      ensures SavedAndChecked(broken, item.size, item.md5,
                              WrittenFiles(old(disk.files), path, body, broken, item.IsBinaryFile(), recode),
                              path, digest, c, disk.files)
      ensures item.Counters() == SavedCounters(item.IsBinaryFile(), item.size, body, broken, old(item.Counters()))
      ensures item.Bookkeeping() == old(item.Bookkeeping()) && item.size == old(item.size)
    {
      var complete := SaveBody(item, path, disk, body, broken, recode);
      if !complete {
        return Raised(Error(OtherErr, FullFailure(StreamBroken)));
      }
      if resumeManager.VerifyIntegrity(item, path, disk, digest) {
        return Returned(true);
      }
      disk.Unlink(path);
      return Raised(Error(OtherErr, FullFailure(IntegrityFailure)));
    }

    /** `response.content_length`, read once. */
    static method ReadContentLength(h: Headers) returns (r: Result<Option<int>, string>)
      ensures r == ContentLength(h)
    {
      r := ContentLength(h);
    }

    /** The writing half of `_full_download`: a binary file is written as the bytes arrive, so a
        broken stream leaves what was delivered and the progress follows the bytes; a text file is
        written only once the whole body has arrived, through the UTF-8 re-encoding, and then
        counts as fully downloaded. The result says whether the stream ended normally. */
    static method SaveBody(item: FileItem, path: string, disk: FileSystem, body: seq<byte>, broken: bool,
                           recode: seq<byte> -> seq<byte>) returns (complete: bool)
      modifies item, disk
      ensures complete == !broken
      ensures item.IsBinaryFile() ==> disk.files == old(disk.files)[path := body]
      ensures item.IsBinaryFile() && Known(item.size) && body != [] ==>
                item.downloadedSize == |body| && item.progress == (|body| as real / item.size.value as real) * 100.0
      ensures !item.IsBinaryFile() && !broken ==> disk.files == old(disk.files)[path := recode(body)] && item.progress == 100.0
      ensures !item.IsBinaryFile() && broken ==> disk.files == old(disk.files)
      ensures item.Counters() == SavedCounters(item.IsBinaryFile(), item.size, body, broken, old(item.Counters()))
      ensures item.Bookkeeping() == old(item.Bookkeeping()) && item.size == old(item.size)
    {
      var counters := SavedCounters(item.IsBinaryFile(), item.size, body, broken, item.Counters());
      item.progress, item.downloadedSize := counters.0, counters.1;
      if item.IsBinaryFile() {
        disk.Write(path, body);
      } else if !broken {
        disk.Write(path, recode(body));
      }
      complete := !broken;
    }

    /** `smart_download`: a file worth resuming is resumed through the recovery wrapper
        (`resumeOk`); if that succeeds and the file then passes the integrity check the download
        is done, and if it fails the check the file is removed (`removed`). Otherwise, or after
        that removal, a full download runs through the recovery wrapper from the files
        `beforeFull`, and its outcome is the result. Success always leaves a file that passes the
        integrity check, and every failure is the full download's exception. */
    method SmartDownload(client: AsyncHttpClient, item: FileItem, url: string, path: string, disk: FileSystem,
                         resumeReply: Reply, fullReply: Reply, digest: Digest, recode: seq<byte> -> seq<byte>)
      returns (r: Recovered<bool>, ghost resumeOk: bool, ghost removed: bool, ghost beforeFull: map<string, seq<byte>>,
               ghost full: Call<bool>)
      requires networkRecovery.maxRetries == 5
      modifies client, item, disk
      ensures resumeOk <==> old(resumeManager.ShouldResume(item, path, disk)) && resumeReply.Response?
                            && (resumeReply.statusCode == 416 || (resumeReply.statusCode == 206 && !resumeReply.broken))
      ensures removed <==> resumeOk && !Intact(old(item.size), item.md5, ResumedFiles(old(disk.files), path, resumeReply), path, digest)
      ensures resumeOk && !removed ==> r == Value(true) && disk.files == ResumedFiles(old(disk.files), path, resumeReply)
      ensures !old(resumeManager.ShouldResume(item, path, disk)) ==> beforeFull == old(disk.files)
      ensures old(resumeManager.ShouldResume(item, path, disk)) && !resumeOk ==>
                beforeFull == ResumedFiles(old(disk.files), path, resumeReply)
      ensures removed ==> beforeFull == ResumedFiles(old(disk.files), path, resumeReply) - {path}
      ensures !resumeOk || removed ==>
                (fullReply.Failed? ==>
                   r == Failure(Error(OtherErr, FullFailure(fullReply.error.message))) && disk.files == beforeFull)
                && (fullReply.Response? && fullReply.statusCode != 200 ==>
                      r == Failure(Error(OtherErr, FullFailure("HTTP " + IntToString(fullReply.statusCode))))
                      && disk.files == beforeFull)
                && (r == Value(true) ==> fullReply.Response? && fullReply.statusCode == 200)
      ensures client.totalRequests
              == old(client.totalRequests) + (if old(resumeManager.ShouldResume(item, path, disk)) then 1 else 0)
                 + (if resumeOk && !removed then 0 else 1)
      ensures r == Value(true) || (r.Failure? && r.error.kind == OtherErr && StartsWith(r.error.message, FailurePrefix))
      ensures r == Value(true) ==> resumeManager.VerifyIntegrity(item, path, disk, digest)
      ensures resumeOk && !removed ==> item.size == old(item.size)
      ensures item.Bookkeeping() == old(item.Bookkeeping())
      ensures client.connectionReused == old(client.connectionReused)
      ensures client.totalBytes
              == old(client.totalBytes) + ResumedBytes(old(resumeManager.ShouldResume(item, path, disk)), resumeReply)
                 + (if resumeOk && !removed then 0 else StreamedBytes(fullReply))
      ensures resumeOk && !removed ==>
                item.Counters()
                == ResumedCounters(true, old(disk.files), path, resumeReply, old(item.size), old(item.Counters()))
      ensures !resumeOk || removed ==>
                item.Counters()
                == FullCounters(fullReply, item.IsBinaryFile(), item.size,
                                ResumedCounters(old(resumeManager.ShouldResume(item, path, disk)), old(disk.files), path,
                                                resumeReply, old(item.size), old(item.Counters())))
      ensures !resumeOk || removed ==>
                FullOutcome(fullReply, item.IsBinaryFile(), item.md5, old(item.size), beforeFull, path, digest, recode,
                            full, item.size, disk.files)
                && r == (if full.Returned? then Value(full.value) else Failure(full.error))
    {
      var done;
      done, resumeOk, removed := TryResume(client, item, url, path, disk, resumeReply, digest);
      beforeFull, full := disk.files, Returned(false);
      if done {
        return Value(true), resumeOk, removed, beforeFull, full;
      }
      r, full := FullFallback(client, item, url, path, disk, fullReply, digest, recode);
    }

    /** The resume half of `smart_download`: when the file is worth resuming, the resume through
        the recovery wrapper, then the integrity check, removing a file that fails it. `done`
        says the download is finished without a full download. */
    method TryResume(client: AsyncHttpClient, item: FileItem, url: string, path: string, disk: FileSystem,
                     resumeReply: Reply, digest: Digest)
      returns (done: bool, ghost resumeOk: bool, ghost removed: bool)
      requires networkRecovery.maxRetries == 5
      modifies client, item, disk
      ensures resumeOk <==> old(resumeManager.ShouldResume(item, path, disk)) && resumeReply.Response?
                            && (resumeReply.statusCode == 416 || (resumeReply.statusCode == 206 && !resumeReply.broken))
      ensures removed <==> resumeOk && !Intact(old(item.size), item.md5, ResumedFiles(old(disk.files), path, resumeReply), path, digest)
      ensures done <==> resumeOk && !removed
      ensures disk.files == if !old(resumeManager.ShouldResume(item, path, disk)) then old(disk.files)
                            else if removed then ResumedFiles(old(disk.files), path, resumeReply) - {path}
                            else ResumedFiles(old(disk.files), path, resumeReply)
      ensures client.totalRequests
              == old(client.totalRequests) + (if old(resumeManager.ShouldResume(item, path, disk)) then 1 else 0)
      ensures done ==> resumeManager.VerifyIntegrity(item, path, disk, digest)
      ensures client.totalBytes == old(client.totalBytes) + ResumedBytes(old(resumeManager.ShouldResume(item, path, disk)), resumeReply)
      ensures client.connectionReused == old(client.connectionReused)
      ensures item.Counters()
              == ResumedCounters(old(resumeManager.ShouldResume(item, path, disk)), old(disk.files), path, resumeReply,
                                 item.size, old(item.Counters()))
      ensures item.Bookkeeping() == old(item.Bookkeeping()) && item.size == old(item.size)
    {
      done, resumeOk, removed := false, false, false;
      if resumeManager.ShouldResume(item, path, disk) {
        ghost var files0 := disk.files;
        var ok, _ := resumeManager.ResumeDownload(client, item, url, path, disk, resumeReply);
        assert disk.files == ResumedFiles(files0, path, resumeReply);
        var resumed, _, _ := networkRecovery.DownloadWithRecovery((j: nat) => Returned(ok));
        resumeOk := ok;
        if resumed == Value(true) {
          if resumeManager.VerifyIntegrity(item, path, disk, digest) {
            return true, resumeOk, removed;
          }
          disk.Unlink(path);
          removed := true;
        }
      }
    }

    /** The full-download half of `smart_download`: `_full_download` through the recovery
        wrapper, whose one attempt decides since its failures are never network errors. */
    method FullFallback(client: AsyncHttpClient, item: FileItem, url: string, path: string, disk: FileSystem,
                        fullReply: Reply, digest: Digest, recode: seq<byte> -> seq<byte>)
      returns (r: Recovered<bool>, ghost full: Call<bool>)
      requires networkRecovery.maxRetries == 5
      modifies client, item, disk
      ensures FullOutcome(fullReply, item.IsBinaryFile(), item.md5, old(item.size), old(disk.files), path, digest, recode,
                          full, item.size, disk.files)
      ensures r == (if full.Returned? then Value(full.value) else Failure(full.error))
      ensures fullReply.Failed? ==>
                r == Failure(Error(OtherErr, FullFailure(fullReply.error.message))) && disk.files == old(disk.files)
      ensures fullReply.Response? && fullReply.statusCode != 200 ==>
                r == Failure(Error(OtherErr, FullFailure("HTTP " + IntToString(fullReply.statusCode))))
                && disk.files == old(disk.files)
      ensures r == Value(true) ==>
                fullReply.Response? && fullReply.statusCode == 200 && resumeManager.VerifyIntegrity(item, path, disk, digest)
      ensures r == Value(true) || (r.Failure? && r.error.kind == OtherErr && StartsWith(r.error.message, FailurePrefix))
      ensures client.totalRequests == old(client.totalRequests) + 1
      ensures client.totalBytes == old(client.totalBytes) + StreamedBytes(fullReply)
      ensures client.connectionReused == old(client.connectionReused)
      ensures item.Bookkeeping() == old(item.Bookkeeping())
      ensures item.Counters() == FullCounters(fullReply, item.IsBinaryFile(), item.size, old(item.Counters()))
    {
      var outcome, _ := FullDownload(client, item, url, path, disk, fullReply, digest, recode);
      full := outcome;
      var recovered, _, _ := networkRecovery.DownloadWithRecovery((j: nat) => outcome);
      r := recovered;
    }
  }
}
