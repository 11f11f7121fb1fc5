/** The download run: which files already exist locally, the batches of the rest, the per-file
    retry loop and the tally of results. Transfers run one after another; the network is an
    input. */
module Downloading {
  import opened Wrappers
  import opened Strings
  import opened Paths
  import opened Models
  import opened Batches
  import opened Disk
  import opened Selection

  /** The scan of the output directory: file name to size in bytes. */
  type Scan = map<string, nat>

  /** What one call of `_download_with_progress` does. The local file is opened with 'wb' before
      the body streams, so an attempt that stops or raises part-way leaves what it wrote. */
  datatype Attempt =
      /** wrote `data` at the local path and returned True */
    | Downloaded(data: seq<byte>)
      /** `cancel_download` ran while the body streamed; the file holds the `kept` bytes written
          so far, and it returned False */
    | Stopped(kept: seq<byte>)
      /** it raised, with `message` as the text of the underlying error; `leftover` is what the
          file held when it raised, or None when it raised before opening it (an HTTP status, a
          bad Content-Length, a failed `text()`) */
    | Raised(message: string, leftover: Option<seq<byte>>)
  {
    /** The contents the attempt leaves at the local path, if it opened the file. */
    function Written(): Option<seq<byte>>
    {
      match this
      case Downloaded(data) => Some(data)
      case Stopped(kept) => Some(kept)
      case Raised(_, leftover) => leftover
    }
  }

  /** The transfer of a URL on a given attempt (counted from 0). */
  type Transfers = (string, nat) -> Attempt

  /** An item counts as present when a file of its full name was scanned and its size is
      unknown or equal to the scanned size. */
  predicate AlreadyThere(item: FileItem, scan: Scan)
    reads item
  {
    var name := item.fullFilename;
    name in scan && (item.size.None? || scan[name] == item.size.value)
  }

  /** Whether each item is already there, position by position. */
  function Presence(items: seq<FileItem>, scan: Scan): (r: seq<bool>)
    reads items
    ensures |r| == |items|
  {
    seq(|items|, i requires 0 <= i < |items| reads items => AlreadyThere(items[i], scan))
  }

  /** `f"{asset_base_url}/{base_filename}-{md5}{file_extension}"`. */
  function DownloadUrl(base: string, item: FileItem): string
  {
    base + "/" + item.BaseFilename() + "-" + item.md5 + item.FileExtension()
  }

  /** The remote file has the local file's name. */
  lemma DownloadUrlNamesLocalFile(base: string, item: FileItem)
    requires item.Named()
    ensures DownloadUrl(base, item) == base + "/" + item.fullFilename
    ensures DownloadUrl(base, item)[|base| + 1..] == item.fullFilename
  {
    UrlOfParts(base, item.fullFilename, item.BaseFilename(), item.md5, item.FileExtension());
  }

  /** The URL built from the parts of a local name is the base, "/" and that name. */
  lemma UrlOfParts(base: string, name: string, stem: string, md5: string, ext: string)
    requires name == stem + "-" + md5 + ext
    ensures base + "/" + stem + "-" + md5 + ext == base + "/" + name
    ensures (base + "/" + name)[|base| + 1..] == name
  {
    assert base + "/" + stem + "-" + md5 + ext == (base + "/") + (stem + "-" + md5 + ext);
    assert ((base + "/") + name)[|base + "/"|..] == name;
  }

  /** The error text of a failed attempt: `_download_with_progress` wraps the underlying error
      as "下载失败: …" and the retry loop prefixes the attempt number. */
  function RetryMessage(attempt: nat, retries: int, message: string): string
  {
    "下载失败 (尝试 " + NatToString(attempt + 1) + "/" + IntToString(retries) + "): " + "下载失败: " + message
  }

  /** How the attempts from `i` to `retries - 1` end. */
  datatype RetryEnd =
      /** attempt `attempt` did not raise and ended the loop with `outcome` */
    | Settled(attempt: nat, outcome: Attempt)
      /** every attempt raised; the last was `attempt`, with `message` */
    | Exhausted(attempt: nat, message: string)
      /** there was no attempt to make */
    | NoAttempts

  /** The outcome of the retry loop from attempt `i`: the first attempt that does not raise, or
      the last one when all of them raise. */
  function RetryRun(transfer: Transfers, url: string, retries: int, i: nat): (r: RetryEnd)
    ensures r.NoAttempts? <==> i >= retries
    ensures r.Settled? ==> i <= r.attempt < retries && !r.outcome.Raised? && r.outcome == transfer(url, r.attempt)
                           && forall j :: i <= j < r.attempt ==> transfer(url, j).Raised?
    ensures r.Exhausted? ==> r.attempt == retries - 1 && transfer(url, r.attempt).Raised? && transfer(url, r.attempt).message == r.message
                             && forall j :: i <= j < retries ==> transfer(url, j).Raised?
    decreases retries - i
  {
    if i >= retries then NoAttempts
    else
      var outcome := transfer(url, i);
      if !outcome.Raised? then Settled(i, outcome)
      else if i == retries - 1 then Exhausted(i, outcome.message)
      else RetryRun(transfer, url, retries, i + 1)
  }

  /** The files once attempts `0` to `n - 1` have run: each attempt that opened the local file
      replaces its contents. */
  function AfterAttempts(files: map<string, seq<byte>>, path: string, transfer: Transfers, url: string, n: nat)
    : map<string, seq<byte>>
  {
    if n == 0 then files
    else
      var before := AfterAttempts(files, path, transfer, url, n - 1);
      match transfer(url, n - 1).Written()
      case Some(data) => before[path := data]
      case None => before
  }

  /** Attempts touch the local path only: every other file is as it was, and a file already at
      the path stays there. */
  lemma {:induction false} AfterAttemptsOnlyPath(files: map<string, seq<byte>>, path: string, transfer: Transfers, url: string, n: nat)
    ensures var after := AfterAttempts(files, path, transfer, url, n);
            (path in files ==> path in after)
            && (forall p :: p != path ==> (p in after <==> p in files))
            && (forall p :: p != path && p in files ==> after[p] == files[p])
  {
    if n > 0 {
      AfterAttemptsOnlyPath(files, path, transfer, url, n - 1);
    }
  }

  /** Where one record is fetched from and saved to. */
  datatype Job = Job(path: string, url: string)

  /** The local path `output_dir / full_filename` and the download URL of a record. */
  function JobOf(outputDir: string, base: string, item: FileItem): (j: Job)
  {
    Job(Join(outputDir, item.fullFilename), DownloadUrl(base, item))
  }

  /** The jobs of the records, in order. */
  function Jobs(items: seq<FileItem>, outputDir: string, base: string): (r: seq<Job>)
    ensures |r| == |items|
  {
    seq(|items|, i requires 0 <= i < |items| => JobOf(outputDir, base, items[i]))
  }

  /** The jobs of a list and one more record. */
  lemma JobsSnoc(items: seq<FileItem>, outputDir: string, base: string, k: nat)
    requires k < |items|
    ensures Jobs(items[..k + 1], outputDir, base) == Jobs(items[..k], outputDir, base) + [JobOf(outputDir, base, items[k])]
  {
    var longer, shorter := Jobs(items[..k + 1], outputDir, base), Jobs(items[..k], outputDir, base);
    forall i | 0 <= i < k
      ensures longer[i] == shorter[i]
    {
      assert items[..k + 1][i] == items[..k][i];
    }
  }

  /** The jobs of two lists one after the other. */
  lemma JobsAppend(a: seq<FileItem>, b: seq<FileItem>, outputDir: string, base: string)
    ensures Jobs(a + b, outputDir, base) == Jobs(a, outputDir, base) + Jobs(b, outputDir, base)
  {
  }

  /** The flag, the disk and the result of one call of `_download_single_file`. */
  datatype Step = Step(ok: bool, cancelled: bool, files: map<string, seq<byte>>)

  /** `_download_single_file` from a state with the given flag and files: a cancelled run
      returns False; a file already at the local path succeeds; otherwise the retry loop runs,
      and the attempts it made leave their writes behind. Only a completed transfer succeeds,
      and only a stopped one sets the flag. */
  function SingleStep(cancelled: bool, files: map<string, seq<byte>>, job: Job, retries: int, transfer: Transfers): Step
  {
    if cancelled then Step(false, true, files)
    else if job.path in files then Step(true, false, files)
    else RetryStep(files, job, retries, transfer)
  }

  /** The retry loop of `_download_single_file`: the attempts made leave their writes behind,
      a completed transfer succeeds, a stopped one sets the flag, and every other end fails. */
  function RetryStep(files: map<string, seq<byte>>, job: Job, retries: int, transfer: Transfers): Step
  {
    match RetryRun(transfer, job.url, retries, 0)
    case Settled(a, Downloaded(_)) => Step(true, false, AfterAttempts(files, job.path, transfer, job.url, a + 1))
    case Settled(a, _) => Step(false, true, AfterAttempts(files, job.path, transfer, job.url, a + 1))
    case Exhausted(last, _) => Step(false, false, AfterAttempts(files, job.path, transfer, job.url, last + 1))
    case NoAttempts => Step(false, false, files)
  }

  /** A success leaves a file at the local path, holding what the completed transfer wrote
      unless the file was already there; with no file there, a success is a completed
      transfer. */
  lemma SingleStepSucceeded(cancelled: bool, files: map<string, seq<byte>>, job: Job, retries: int, transfer: Transfers)
    requires SingleStep(cancelled, files, job, retries, transfer).ok
    ensures !cancelled && job.path in SingleStep(cancelled, files, job, retries, transfer).files
    ensures job.path !in files ==>
              match RetryRun(transfer, job.url, retries, 0)
              case Settled(_, Downloaded(data)) => SingleStep(cancelled, files, job, retries, transfer).files[job.path] == data
              case _ => false
  {
  }

  /** A file that a failed transfer left behind is taken as downloaded by the next call for the
      same record, whatever it holds: the recheck of `_download_single_file` only asks whether
      the local file exists. */
  lemma LeftoverCountsAsDownloaded(files: map<string, seq<byte>>, job: Job, retries: int, transfer: Transfers, again: Transfers)
    requires job.path !in files
    requires var run := RetryRun(transfer, job.url, retries, 0);
             run.Exhausted? && transfer(job.url, run.attempt).leftover.Some?
    ensures !SingleStep(false, files, job, retries, transfer).ok
    ensures var s := SingleStep(false, files, job, retries, transfer);
            job.path in s.files && SingleStep(s.cancelled, s.files, job, retries, again) == Step(true, false, s.files)
  {
    var run := RetryRun(transfer, job.url, retries, 0);
    assert AfterAttempts(files, job.path, transfer, job.url, run.attempt + 1)
        == AfterAttempts(files, job.path, transfer, job.url, run.attempt)[job.path := transfer(job.url, run.attempt).leftover.value];
  }

  /** The flag, the disk and the result of each job after `_download_single_file` ran for the
      jobs in turn. */
  datatype Run = Run(oks: seq<bool>, cancelled: bool, files: map<string, seq<byte>>)

  function RunJobs(cancelled: bool, files: map<string, seq<byte>>, jobs: seq<Job>, retries: int, transfer: Transfers): (r: Run)
    ensures |r.oks| == |jobs|
  {
    if jobs == [] then Run([], cancelled, files)
    else
      var n := |jobs| - 1;
      var before := RunJobs(cancelled, files, jobs[..n], retries, transfer);
      var s := SingleStep(before.cancelled, before.files, jobs[n], retries, transfer);
      Run(before.oks + [s.ok], s.cancelled, s.files)
  }

  /** Running two lists of jobs one after the other is running their concatenation. */
  lemma {:induction false} RunJobsConcat(cancelled: bool, files: map<string, seq<byte>>, a: seq<Job>, b: seq<Job>,
                                         retries: int, transfer: Transfers)
    ensures var ra := RunJobs(cancelled, files, a, retries, transfer);
            var rb := RunJobs(ra.cancelled, ra.files, b, retries, transfer);
            RunJobs(cancelled, files, a + b, retries, transfer) == Run(ra.oks + rb.oks, rb.cancelled, rb.files)
  {
    if b == [] {
      assert a + b == a;
    } else {
      var n := |b| - 1;
      RunJobsConcat(cancelled, files, a, b[..n], retries, transfer);
      assert (a + b)[..|a + b| - 1] == a + b[..n];
      assert (a + b)[|a + b| - 1] == b[n];
      var ra := RunJobs(cancelled, files, a, retries, transfer);
      var rb := RunJobs(ra.cancelled, ra.files, b[..n], retries, transfer);
      var s := SingleStep(rb.cancelled, rb.files, b[n], retries, transfer);
      assert RunJobs(ra.cancelled, ra.files, b, retries, transfer) == Run(rb.oks + [s.ok], s.cancelled, s.files);
      assert RunJobs(cancelled, files, a + b, retries, transfer) == Run(ra.oks + rb.oks + [s.ok], s.cancelled, s.files);
      assert ra.oks + rb.oks + [s.ok] == ra.oks + (rb.oks + [s.ok]);
    }
  }

  /** A run that starts cancelled fails every job and changes nothing. */
  lemma {:induction false} RunJobsCancelled(files: map<string, seq<byte>>, jobs: seq<Job>, retries: int, transfer: Transfers)
    ensures var r := RunJobs(true, files, jobs, retries, transfer);
            r.cancelled && r.files == files && forall j :: 0 <= j < |r.oks| ==> !r.oks[j]
  {
    if jobs != [] {
      RunJobsCancelled(files, jobs[..|jobs| - 1], retries, transfer);
    }
  }

  /** No file is removed by a run. */
  lemma {:induction false} RunJobsKeepsFiles(cancelled: bool, files: map<string, seq<byte>>, jobs: seq<Job>, retries: int, transfer: Transfers)
    ensures forall p :: p in files ==> p in RunJobs(cancelled, files, jobs, retries, transfer).files
  {
    if jobs != [] {
      var n := |jobs| - 1;
      var before := RunJobs(cancelled, files, jobs[..n], retries, transfer);
      RunJobsKeepsFiles(cancelled, files, jobs[..n], retries, transfer);
      SingleStepKeepsFiles(before.cancelled, before.files, jobs[n], retries, transfer);
    }
  }

  /** One call of `_download_single_file` removes no file. */
  lemma SingleStepKeepsFiles(cancelled: bool, files: map<string, seq<byte>>, job: Job, retries: int, transfer: Transfers)
    ensures forall p :: p in files ==> p in SingleStep(cancelled, files, job, retries, transfer).files
  {
    if !cancelled && job.path !in files {
      match RetryRun(transfer, job.url, retries, 0) {
        case Settled(a, _) => AfterAttemptsOnlyPath(files, job.path, transfer, job.url, a + 1);
        case Exhausted(last, _) => AfterAttemptsOnlyPath(files, job.path, transfer, job.url, last + 1);
        case NoAttempts =>
      }
    }
  }

  /** Every success of a run leaves a file at its job's local path. */
  lemma {:induction false} RunJobsSucceeded(cancelled: bool, files: map<string, seq<byte>>, jobs: seq<Job>, retries: int, transfer: Transfers)
    ensures forall j :: 0 <= j < |jobs| && RunJobs(cancelled, files, jobs, retries, transfer).oks[j] ==>
              jobs[j].path in RunJobs(cancelled, files, jobs, retries, transfer).files
  {
    if jobs != [] {
      var n := |jobs| - 1;
      var before := RunJobs(cancelled, files, jobs[..n], retries, transfer);
      var r := RunJobs(cancelled, files, jobs, retries, transfer);
      RunJobsSucceeded(cancelled, files, jobs[..n], retries, transfer);
      SingleStepKeepsFiles(before.cancelled, before.files, jobs[n], retries, transfer);
      if r.oks[n] {
        SingleStepSucceeded(before.cancelled, before.files, jobs[n], retries, transfer);
      }
      forall j | 0 <= j < n && r.oks[j]
        ensures jobs[j].path in r.files
      {
        assert r.oks[j] == before.oks[j] && jobs[..n][j] == jobs[j];
      }
    }
  }

  /** The results of the files found on disk: success for each of their filenames. */
  function AllSucceeded(names: seq<string>): (r: map<string, bool>)
    ensures forall k :: k in r <==> k in names
    ensures forall k :: k in r ==> r[k]
  {
    map k | k in names :: true
  }

  /** The size `stat()` reports for a path, when the file exists. */
  function SizeOn(disk: FileSystem, path: string): (r: Option<nat>)
    reads disk
    ensures r.Some? <==> path in disk.files
    ensures r.Some? ==> r.value == |disk.files[path]|
  {
    if path in disk.files then Some(|disk.files[path]|) else None
  }

  /** The number of files that succeeded, `sum(1 for success in results.values() if success)`. */
  function SuccessCount(results: map<string, bool>): (r: nat)
    ensures r <= |results|
    ensures r == |results| <==> forall k :: k in results ==> results[k]
    ensures r == 0 <==> forall k :: k in results ==> !results[k]
  {
    var succeeded := set k | k in results && results[k];
    assert succeeded <= results.Keys;
    SubsetCard(succeeded, results.Keys);
    assert forall k :: k in results && results[k] ==> k in succeeded;
    |succeeded|
  }

  lemma SubsetCard<T>(a: set<T>, b: set<T>)
    requires a <= b
    ensures |a| <= |b|
    ensures |a| == |b| <==> a == b
  {
    assert b == a + (b - a);
  }

  /** `failed_count = len(results) - success_count` counts exactly the files that failed, so
      the two counts split the results; all-true results count all, all-false count none. */
  lemma CountsCoverResults(results: map<string, bool>)
    ensures |results| - SuccessCount(results) == |set k | k in results && !results[k]|
    ensures (forall k :: k in results ==> results[k]) ==> SuccessCount(results) == |results|
    ensures (forall k :: k in results ==> !results[k]) ==> SuccessCount(results) == 0
  {
    var succeeded := set k | k in results && results[k];
    var failed := set k | k in results && !results[k];
    assert succeeded + failed == results.Keys;
    assert succeeded * failed == {};
    if forall k :: k in results ==> results[k] {
      assert succeeded == results.Keys;
    }
    if forall k :: k in results ==> !results[k] {
      assert succeeded == {};
    }
  }

  /** The item is completed at its place in the output directory. */
  predicate CompletedIn(item: FileItem, outputDir: string)
    reads item
  {
    item.status == Completed && item.localPath == Some(Join(outputDir, item.fullFilename))
  }

  /** `mark_completed(output_dir / full_filename)` has run on the item: completed at that path
      with progress 100 and, when the file is on the disk, its size and downloaded size are the
      file's length. */
  predicate MarkedFrom(item: FileItem, outputDir: string, files: map<string, seq<byte>>)
    reads item
  {
    var path := Join(outputDir, item.fullFilename);
    CompletedIn(item, outputDir) && item.progress == 100.0
    && (path in files ==> item.size == Some(|files[path]|) && item.downloadedSize == |files[path]|)
  }

  /** The item is completed at its place in the output directory, and that file is on the
      disk. Once a download succeeds this holds for good: a later call for the same record finds
      the file and completes the record again. */
  predicate Kept(item: FileItem, outputDir: string, files: map<string, seq<byte>>)
    reads item
  {
    CompletedIn(item, outputDir) && Join(outputDir, item.fullFilename) in files
  }

  /** Each record whose download succeeded is kept. */
  predicate KeptAt(items: seq<FileItem>, oks: seq<bool>, outputDir: string, files: map<string, seq<byte>>)
    requires |oks| == |items|
    reads items
  {
    forall j :: 0 <= j < |items| && oks[j] ==> Kept(items[j], outputDir, files)
  }

  /** The filenames of the items, in order. */
  function Names(items: seq<FileItem>): (r: seq<string>)
  {
    seq(|items|, i requires 0 <= i < |items| => items[i].filename)
  }

  /** A filename is listed exactly when some item carries it. */
  lemma NamesOf(items: seq<FileItem>)
    ensures forall x :: x in items ==> x.filename in Names(items)
    ensures forall k :: k in Names(items) ==> exists x :: x in items && x.filename == k
  {
    forall x | x in items
      ensures x.filename in Names(items)
    {
      var i :| 0 <= i < |items| && items[i] == x;
      assert Names(items)[i] == x.filename;
    }
    forall k | k in Names(items)
      ensures exists x :: x in items && x.filename == k
    {
      var i :| 0 <= i < |items| && Names(items)[i] == k;
      assert items[i] in items;
    }
  }

  /** The filenames of two lists one after the other. */
  lemma NamesAppend(a: seq<FileItem>, b: seq<FileItem>)
    ensures Names(a + b) == Names(a) + Names(b)
  {
    assert forall i :: 0 <= i < |a + b| ==> Names(a + b)[i] == (Names(a) + Names(b))[i];
  }

  /** The results map once `results[names[j]] = oks[j]` has run for each `j` in order: a later
      entry for a filename replaces an earlier one. */
  function Recorded(results: map<string, bool>, names: seq<string>, oks: seq<bool>): (r: map<string, bool>)
    requires |oks| == |names|
  {
    if names == [] then results
    else
      var n := |names| - 1;
      Recorded(results, names[..n], oks[..n])[names[n] := oks[n]]
  }

  /** The recorded filenames are the earlier keys and the entries' filenames, and a key without
      an entry keeps its earlier result. */
  lemma {:induction false} RecordedKeys(results: map<string, bool>, names: seq<string>, oks: seq<bool>)
    requires |oks| == |names|
    ensures forall k :: k in Recorded(results, names, oks) <==> k in results || k in names
    ensures forall k :: k in results && k !in names ==> Recorded(results, names, oks)[k] == results[k]
  {
    if names != [] {
      var n := |names| - 1;
      RecordedKeys(results, names[..n], oks[..n]);
      assert names == names[..n] + [names[n]];
    }
  }

  /** A filename holds the result of its last entry. */
  lemma {:induction false} RecordedLatest(results: map<string, bool>, names: seq<string>, oks: seq<bool>, j: nat)
    requires |oks| == |names| && j < |names|
    requires forall i :: j < i < |names| ==> names[i] != names[j]
    ensures names[j] in Recorded(results, names, oks) && Recorded(results, names, oks)[names[j]] == oks[j]
  {
    var n := |names| - 1;
    if j < n {
      assert names[..n][j] == names[j];
      RecordedLatest(results, names[..n], oks[..n], j);
    }
  }

  /** Recording two runs of entries one after the other records their concatenation. */
  lemma {:induction false} RecordedConcat(results: map<string, bool>, names: seq<string>, oks: seq<bool>,
                                          more: seq<string>, moreOks: seq<bool>)
    requires |oks| == |names| && |moreOks| == |more|
    ensures Recorded(Recorded(results, names, oks), more, moreOks) == Recorded(results, names + more, oks + moreOks)
  {
    if more == [] {
      assert names + more == names && oks + moreOks == oks;
    } else {
      var n := |more| - 1;
      RecordedConcat(results, names, oks, more[..n], moreOks[..n]);
      RecordedLast(results, names, oks, more, moreOks);
    }
  }

  lemma RecordedLast(results: map<string, bool>, names: seq<string>, oks: seq<bool>, more: seq<string>, moreOks: seq<bool>)
    requires |oks| == |names| && |moreOks| == |more| && more != []
    ensures Recorded(results, names + more, oks + moreOks)
            == Recorded(results, names + more[..|more| - 1], oks + moreOks[..|more| - 1])[more[|more| - 1] := moreOks[|more| - 1]]
  {
    var n := |more| - 1;
    assert (names + more)[..|names| + n] == names + more[..n];
    assert (oks + moreOks)[..|oks| + n] == oks + moreOks[..n];
  }

  /** Recording the entry of the item at position `k` after those before it. */
  lemma RecordedStep(results: map<string, bool>, items: seq<FileItem>, oks: seq<bool>, k: nat, ok: bool)
    requires k < |items| && |oks| == k
    ensures Recorded(results, Names(items[..k + 1]), oks + [ok])
            == Recorded(results, Names(items[..k]), oks)[items[k].filename := ok]
  {
    assert Names(items[..k + 1])[..k] == Names(items[..k]);
    assert (oks + [ok])[..k] == oks;
  }

  /** The downloader's state: the configuration and the cancellation and activity flags. */
  class Downloader {
    const config: DownloadConfig
    var isCancelled: bool
    var isDownloading: bool

    /** `Downloader(config)`: the given configuration, or the defaults when there is none. */
    constructor (config: Option<DownloadConfig>)
      ensures this.config == config.GetOr(DefaultConfig)
      ensures !isCancelled && !isDownloading
    {
      this.config := config.GetOr(DefaultConfig);
      isCancelled := false;
      isDownloading := false;
    }

    /** `cancel_download()`. */
    method CancelDownload()
      modifies this
      ensures isCancelled && !isDownloading
    {
      isCancelled := true;
      isDownloading := false;
    }

    /** The classification of `_batch_check_existing_files` against the scanned directory: an
        order-preserving partition into existing files and files to download, or nothing at all
        once the run is cancelled. */
    method BatchCheckExistingFiles(fileItems: seq<FileItem>, scan: Scan) returns (existing: seq<FileItem>, toDownload: seq<FileItem>)
      ensures isCancelled ==> existing == [] && toDownload == []
      ensures !isCancelled ==> existing == Select(fileItems, Presence(fileItems, scan), true)
                               && toDownload == Select(fileItems, Presence(fileItems, scan), false)
      ensures !isCancelled ==> multiset(existing) + multiset(toDownload) == multiset(fileItems)
      ensures forall x :: x in existing ==> x !in toDownload
      ensures forall i :: 0 <= i < |existing| ==> existing[i] in fileItems
      ensures forall i :: 0 <= i < |toDownload| ==> toDownload[i] in fileItems
    {
      ghost var flags := Presence(fileItems, scan);
      existing, toDownload := [], [];
      var i := 0;
      while i < |fileItems|
        invariant 0 <= i <= |fileItems|
        invariant !isCancelled ==> existing == Select(fileItems[..i], flags[..i], true)
                                   && toDownload == Select(fileItems[..i], flags[..i], false)
        invariant isCancelled ==> existing == [] && toDownload == []
      {
        if isCancelled {
          break;
        }
        var item := fileItems[i];
        var there := AlreadyThere(item, scan);
        assert there == flags[i];
        if there {
          existing := existing + [item];
        } else {
          toDownload := toDownload + [item];
        }
        assert existing == Select(fileItems[..i + 1], flags[..i + 1], true) by {
          SelectPrefix(fileItems, flags, true, i);
        }
        assert toDownload == Select(fileItems[..i + 1], flags[..i + 1], false) by {
          SelectPrefix(fileItems, flags, false, i);
        }
        i := i + 1;
      }
      if !isCancelled {
        assert fileItems[..i] == fileItems && flags[..i] == flags;
        SelectPartitions(fileItems, flags);
        SelectSidesDisjoint(fileItems, flags);
        SelectWithin(fileItems, flags, true);
        SelectWithin(fileItems, flags, false);
      }
    }

    /** The URL of an item. */
    function UrlOf(item: FileItem): string
    {
      DownloadUrl(config.assetBaseUrl, item)
    }

    /** The state a record is left in when its attempts ran out: FAILED, or still DOWNLOADING
        when `max_retries` allows no attempt. */
    predicate GaveUp(item: FileItem)
      reads item
    {
      item.status == (if config.maxRetries >= 1 then Failed else Downloading)
    }

    /** The state `_download_single_file` leaves a record in when the run is not cancelled:
        kept for a success; for a failure given up, unless a later call for the same record
        completed it. */
    predicate Settled(item: FileItem, ok: bool, outputDir: string, files: map<string, seq<byte>>)
      reads item
    {
      Kept(item, outputDir, files) || (!ok && GaveUp(item))
    }

    /** Each record is settled according to its outcome. */
    predicate SettledAt(items: seq<FileItem>, oks: seq<bool>, outputDir: string, files: map<string, seq<byte>>)
      requires |oks| == |items|
      reads items
    {
      forall j :: 0 <= j < |items| ==> Settled(items[j], oks[j], outputDir, files)
    }

    /** `_download_single_file(file_item, output_dir)`: nothing when the run is cancelled;
        otherwise the item gets its URL and DOWNLOADING, a file already at the local path
        completes it, and else up to `max_retries` attempts run until one does not raise. Each
        attempt that opened the local file leaves what it wrote there. */
    method DownloadSingleFile(item: FileItem, outputDir: string, disk: FileSystem, transfer: Transfers) returns (ok: bool)
      modifies this, item, disk
      ensures Step(ok, isCancelled, disk.files)
              == SingleStep(old(isCancelled), old(disk.files), JobOf(outputDir, config.assetBaseUrl, item), config.maxRetries, transfer)
      ensures old(isCancelled) ==> unchanged(this, item, disk)
      ensures isCancelled || (isCancelled == old(isCancelled) && isDownloading == old(isDownloading))
      ensures !old(isCancelled) ==> item.downloadUrl == Some(UrlOf(item))
      ensures item.CacheState() == old(item.CacheState())
      ensures ok ==> Kept(item, outputDir, disk.files) && MarkedFrom(item, outputDir, disk.files)
      ensures old(Kept(item, outputDir, disk.files)) ==> Kept(item, outputDir, disk.files)
      ensures !ok && !isCancelled ==> GaveUp(item)
      ensures forall p :: p in old(disk.files) ==> p in disk.files
      ensures !old(isCancelled) && Join(outputDir, item.fullFilename) in old(disk.files) ==>
                unchanged(this) && item.status == Completed && item.localPath == Some(Join(outputDir, item.fullFilename))
                && item.progress == 100.0 && item.size == Some(|disk.files[Join(outputDir, item.fullFilename)]|)
                && item.downloadedSize == |disk.files[Join(outputDir, item.fullFilename)]|
                && item.errorMessage == old(item.errorMessage)
      ensures !old(isCancelled) && Join(outputDir, item.fullFilename) !in old(disk.files) ==>
                match RetryRun(transfer, UrlOf(item), config.maxRetries, 0)
                case Settled(_, Downloaded(data)) =>
                  unchanged(this) && disk.files[Join(outputDir, item.fullFilename)] == data
                  && item.status == Completed && item.localPath == Some(Join(outputDir, item.fullFilename))
                  && item.progress == 100.0 && item.size == Some(|data|) && item.downloadedSize == |data|
                  && item.errorMessage == old(item.errorMessage)
                case Settled(_, _) =>
                  !isDownloading && item.status == Downloading
                  && item.errorMessage == old(item.errorMessage) && item.localPath == old(item.localPath)
                case Exhausted(last, message) =>
                  unchanged(this) && item.status == Failed && item.errorMessage == Some(RetryMessage(last, config.maxRetries, message))
                  && item.localPath == old(item.localPath)
                case NoAttempts =>
                  unchanged(this) && item.status == Downloading
                  && item.errorMessage == old(item.errorMessage) && item.localPath == old(item.localPath)
    {
      if isCancelled {
        return false;
      }
      var url := UrlOf(item);
      var localPath := Join(outputDir, item.fullFilename);
      item.downloadUrl := Some(url);
      item.status := Downloading;
      if localPath in disk.files {
        item.MarkCompleted(localPath, Some(|disk.files[localPath]|));
        return true;
      }
      ok := RetryDownload(item, url, localPath, disk, transfer);
      SingleStepKeepsFiles(false, old(disk.files), JobOf(outputDir, config.assetBaseUrl, item), config.maxRetries, transfer);
    }

    /** The retry loop of `_download_single_file` for a record that has no local file yet:
        attempts run until one does not raise or `max_retries` of them were made; each attempt
        that opened the local file leaves what it wrote there. */
    method RetryDownload(item: FileItem, url: string, localPath: string, disk: FileSystem, transfer: Transfers) returns (ok: bool)
      requires !isCancelled && item.status == Downloading
      modifies this, item, disk
      ensures Step(ok, isCancelled, disk.files) == RetryStep(old(disk.files), Job(localPath, url), config.maxRetries, transfer)
      ensures isCancelled || isDownloading == old(isDownloading)
      ensures item.downloadUrl == old(item.downloadUrl) && item.CacheState() == old(item.CacheState())
      ensures match RetryRun(transfer, url, config.maxRetries, 0)
              case Settled(_, Downloaded(data)) =>
                unchanged(this) && disk.files[localPath] == data
                && item.status == Completed && item.localPath == Some(localPath)
                && item.progress == 100.0 && item.size == Some(|data|) && item.downloadedSize == |data|
                && item.errorMessage == old(item.errorMessage)
              case Settled(_, _) =>
                !isDownloading && item.status == Downloading
                && item.errorMessage == old(item.errorMessage) && item.localPath == old(item.localPath)
              case Exhausted(last, message) =>
                unchanged(this) && item.status == Failed && item.errorMessage == Some(RetryMessage(last, config.maxRetries, message))
                && item.localPath == old(item.localPath)
              case NoAttempts =>
                unchanged(this) && item.status == Downloading
                && item.errorMessage == old(item.errorMessage) && item.localPath == old(item.localPath)
    {
      ghost var files0 := disk.files;
      ghost var run := RetryRun(transfer, url, config.maxRetries, 0);
      var attempt := 0;
      while attempt < config.maxRetries
        invariant attempt == 0 || attempt < config.maxRetries
        invariant RetryRun(transfer, url, config.maxRetries, attempt) == run
        invariant item.status == Downloading && item.downloadUrl == old(item.downloadUrl)
        invariant item.CacheState() == old(item.CacheState())
        invariant item.errorMessage == old(item.errorMessage) && item.localPath == old(item.localPath)
        invariant disk.files == AfterAttempts(files0, localPath, transfer, url, attempt) && unchanged(this)
        decreases config.maxRetries - attempt
      {
        var outcome := transfer(url, attempt);
        if outcome.Downloaded? {
          disk.Write(localPath, outcome.data);
          assert disk.files == AfterAttempts(files0, localPath, transfer, url, attempt + 1);
          item.MarkCompleted(localPath, Some(|outcome.data|));
          return true;
        } else if outcome.Stopped? {
          disk.Write(localPath, outcome.kept);
          assert disk.files == AfterAttempts(files0, localPath, transfer, url, attempt + 1);
          CancelDownload();
          return false;
        }
        if outcome.leftover.Some? {
          disk.Write(localPath, outcome.leftover.value);
        }
        var message := RetryMessage(attempt, config.maxRetries, outcome.message);
        if attempt == config.maxRetries - 1 {
          item.MarkFailed(message);
          return false;
        }
        // `asyncio.sleep(retry_delay)` before the next attempt
        attempt := attempt + 1;
      }
      return false;
    }

    /** The loop of `download_files` over the existing files: each is marked completed at its
        local path with progress 100, takes its size from that file when the file is on the disk
        and keeps its sizes otherwise, and the results hold success for exactly their filenames. */
    method MarkExisting(existing: seq<FileItem>, outputDir: string, disk: FileSystem) returns (results: map<string, bool>)
      modifies existing
      ensures results == AllSucceeded(Names(existing))
      ensures forall x :: x in existing ==> MarkedFrom(x, outputDir, disk.files)
      ensures forall x :: x in existing && Join(outputDir, x.fullFilename) !in disk.files ==>
                x.size == old(x.size) && x.downloadedSize == old(x.downloadedSize)
      ensures forall x :: x in existing ==>
                x.errorMessage == old(x.errorMessage) && x.downloadUrl == old(x.downloadUrl)
                && x.CacheState() == old(x.CacheState())
    {
      results := map[];
      var i := 0;
      while i < |existing|
        invariant 0 <= i <= |existing|
        invariant forall k :: k in results <==> k in Names(existing[..i])
        invariant forall k :: k in results ==> results[k]
        invariant forall j :: 0 <= j < i ==> MarkedFrom(existing[j], outputDir, disk.files)
        invariant forall x :: x in existing && Join(outputDir, x.fullFilename) !in disk.files ==>
                    x.size == old(x.size) && x.downloadedSize == old(x.downloadedSize)
        invariant forall x :: x in existing ==>
                    x.errorMessage == old(x.errorMessage) && x.downloadUrl == old(x.downloadUrl)
                    && x.CacheState() == old(x.CacheState())
      {
        var item := existing[i];
        var path := Join(outputDir, item.fullFilename);
        item.MarkCompleted(path, SizeOn(disk, path));
        assert Names(existing[..i + 1]) == Names(existing[..i]) + [item.filename] by {
          NamesAppend(existing[..i], [item]);
          assert existing[..i + 1] == existing[..i] + [item];
        }
        results := results[item.filename := true];
        i := i + 1;
      }
      assert existing[..i] == existing;
      assert results == AllSucceeded(Names(existing));
    }

    /** `_download_single_file` for one more record after the records `done`, whose outcomes
        were `doneOks`: the records kept before stay kept and, while the run is not cancelled,
        every record run so far stays settled. */
    method DownloadTracked(item: FileItem, outputDir: string, disk: FileSystem, transfer: Transfers,
                           ghost done: seq<FileItem>, ghost doneOks: seq<bool>)
      returns (ok: bool)
      requires |doneOks| == |done|
      requires KeptAt(done, doneOks, outputDir, disk.files)
      requires !isCancelled ==> SettledAt(done, doneOks, outputDir, disk.files)
      modifies this, item, disk
      ensures Step(ok, isCancelled, disk.files)
              == SingleStep(old(isCancelled), old(disk.files), JobOf(outputDir, config.assetBaseUrl, item), config.maxRetries, transfer)
      ensures isCancelled || (isCancelled == old(isCancelled) && isDownloading == old(isDownloading))
      ensures old(isCancelled) ==> isCancelled
      ensures KeptAt(done + [item], doneOks + [ok], outputDir, disk.files)
      ensures !isCancelled ==> SettledAt(done + [item], doneOks + [ok], outputDir, disk.files)
    {
      ok := DownloadSingleFile(item, outputDir, disk, transfer);
      forall j | 0 <= j < |done| && doneOks[j]
        ensures Kept(done[j], outputDir, disk.files)
      {
      }
      if !isCancelled {
        forall j | 0 <= j < |done|
          ensures Settled(done[j], doneOks[j], outputDir, disk.files)
        {
        }
      }
    }

    /** One batch of `download_files`: each file of the batch downloaded in turn and its result
        recorded under its filename. The results, the flag and the disk are those of the jobs
        of the batch run in turn; a batch that starts after the run was cancelled records a
        failure for each of its files. */
    method DownloadBatch(batch: seq<FileItem>, outputDir: string, disk: FileSystem, transfer: Transfers,
                         results0: map<string, bool>, ghost prior: seq<FileItem>, ghost priorOks: seq<bool>)
      returns (results: map<string, bool>, ghost oks: seq<bool>)
      requires |priorOks| == |prior|
      requires KeptAt(prior, priorOks, outputDir, disk.files)
      requires !isCancelled ==> SettledAt(prior, priorOks, outputDir, disk.files)
      modifies this, disk, batch
      ensures Run(oks, isCancelled, disk.files)
              == RunJobs(old(isCancelled), old(disk.files), Jobs(batch, outputDir, config.assetBaseUrl), config.maxRetries, transfer)
      ensures |oks| == |batch| && results == Recorded(results0, Names(batch), oks)
      ensures old(isCancelled) ==> forall j :: 0 <= j < |oks| ==> !oks[j]
      ensures isCancelled || (isCancelled == old(isCancelled) && isDownloading == old(isDownloading))
      ensures old(isCancelled) ==> isCancelled
      ensures KeptAt(prior + batch, priorOks + oks, outputDir, disk.files)
      ensures !isCancelled ==> SettledAt(prior + batch, priorOks + oks, outputDir, disk.files)
    {
      results, oks := results0, [];
      ghost var cancelled0, files0 := isCancelled, disk.files;
      var k := 0;
      while k < |batch|
        invariant 0 <= k <= |batch| && |oks| == k
        invariant Run(oks, isCancelled, disk.files)
                  == RunJobs(cancelled0, files0, Jobs(batch[..k], outputDir, config.assetBaseUrl), config.maxRetries, transfer)
        invariant results == Recorded(results0, Names(batch[..k]), oks)
        invariant isCancelled || (isCancelled == old(isCancelled) && isDownloading == old(isDownloading))
        invariant KeptAt(prior + batch[..k], priorOks + oks, outputDir, disk.files)
        invariant !isCancelled ==> SettledAt(prior + batch[..k], priorOks + oks, outputDir, disk.files)
      {
        var item := batch[k];
        ghost var cancelledMid, filesMid := isCancelled, disk.files;
        PrefixSnoc(prior, batch, k);
        var ok := DownloadTracked(item, outputDir, disk, transfer, prior + batch[..k], priorOks + oks);
        SnocAssoc(priorOks, oks, ok);
        AdvanceJob(cancelled0, files0, results0, batch, k, outputDir, config, transfer,
                   oks, cancelledMid, filesMid, results, ok, isCancelled, disk.files);
        results := results[item.filename := ok];
        oks := oks + [ok];
        k := k + 1;
      }
      assert batch[..k] == batch;
      if cancelled0 {
        RunJobsCancelled(files0, Jobs(batch, outputDir, config.assetBaseUrl), config.maxRetries, transfer);
      }
    }

    /** Taking one more element of `s` after `p`. */
    static lemma PrefixSnoc<T>(p: seq<T>, s: seq<T>, k: nat)
      requires k < |s|
      ensures p + s[..k + 1] == (p + s[..k]) + [s[k]]
    {
      assert s[..k + 1] == s[..k] + [s[k]];
    }

    /** Appending after a concatenation. */
    static lemma SnocAssoc<T>(a: seq<T>, b: seq<T>, x: T)
      ensures (a + b) + [x] == a + (b + [x])
    {
    }

    /** Downloading the item at position `k` after the first `k` runs the first `k + 1`. */
    static lemma AdvanceJob(cancelled0: bool, files0: map<string, seq<byte>>, results0: map<string, bool>,
                            items: seq<FileItem>, k: nat, outputDir: string, config: DownloadConfig, transfer: Transfers,
                            oks: seq<bool>, cancelledMid: bool, filesMid: map<string, seq<byte>>, resultsMid: map<string, bool>,
                            ok: bool, cancelledNew: bool, filesNew: map<string, seq<byte>>)
      requires k < |items| && |oks| == k
      requires Run(oks, cancelledMid, filesMid)
               == RunJobs(cancelled0, files0, Jobs(items[..k], outputDir, config.assetBaseUrl), config.maxRetries, transfer)
      requires resultsMid == Recorded(results0, Names(items[..k]), oks)
      requires Step(ok, cancelledNew, filesNew)
               == SingleStep(cancelledMid, filesMid, JobOf(outputDir, config.assetBaseUrl, items[k]), config.maxRetries, transfer)
      ensures Run(oks + [ok], cancelledNew, filesNew)
              == RunJobs(cancelled0, files0, Jobs(items[..k + 1], outputDir, config.assetBaseUrl), config.maxRetries, transfer)
      ensures resultsMid[items[k].filename := ok] == Recorded(results0, Names(items[..k + 1]), oks + [ok])
    {
      var js := Jobs(items[..k], outputDir, config.assetBaseUrl);
      JobsSnoc(items, outputDir, config.assetBaseUrl, k);
      assert (js + [JobOf(outputDir, config.assetBaseUrl, items[k])])[..k] == js;
      RecordedStep(results0, items, oks, k, ok);
    }

    /** The batch loop of `download_files`: the batches of `toDownload` in order, until a batch
        would start after the run was cancelled. The results record the first `attempted` files,
        which is all of them unless the run was cancelled, and a whole number of batches. */
    method DownloadBatches(toDownload: seq<FileItem>, batchSize: nat, outputDir: string, disk: FileSystem,
                           transfer: Transfers, results0: map<string, bool>)
      returns (results: map<string, bool>, ghost attempted: nat, ghost oks: seq<bool>, ghost batchesRun: nat)
      requires batchSize >= 1
      modifies this, disk, toDownload
      ensures attempted <= |toDownload| && |oks| == attempted
      ensures Run(oks, isCancelled, disk.files)
              == RunJobs(old(isCancelled), old(disk.files), Jobs(toDownload[..attempted], outputDir, config.assetBaseUrl),
                         config.maxRetries, transfer)
      ensures results == Recorded(results0, Names(toDownload[..attempted]), oks)
      ensures attempted < |toDownload| ==> isCancelled && attempted == BatchOffset(batchesRun, batchSize)
      ensures old(isCancelled) ==> attempted == 0 && results == results0
      ensures isCancelled || (isCancelled == old(isCancelled) && isDownloading == old(isDownloading))
      ensures KeptAt(toDownload[..attempted], oks, outputDir, disk.files)
      ensures !isCancelled ==> SettledAt(toDownload[..attempted], oks, outputDir, disk.files)
    {
      var batches := Chunks(toDownload, batchSize);
      assert toDownload[0..] == toDownload;
      results, attempted, oks, batchesRun := RunBatches(toDownload, batchSize, batches, outputDir, disk, transfer, results0);
      if batchesRun == |batches| {
        ChunksEmpty(toDownload[attempted..], batchSize);
      }
    }

    /** The loop over the batches, ending when there is no batch left or the run was cancelled. */
    method RunBatches(toDownload: seq<FileItem>, batchSize: nat, batches: seq<seq<FileItem>>, outputDir: string,
                      disk: FileSystem, transfer: Transfers, results0: map<string, bool>)
      returns (results: map<string, bool>, ghost attempted: nat, ghost oks: seq<bool>, b: nat)
      requires batchSize >= 1 && batches == Chunks(toDownload[0..], batchSize)
      modifies this, disk, toDownload
      ensures b <= |batches| && attempted <= |toDownload| && |oks| == attempted
      ensures Run(oks, isCancelled, disk.files)
              == RunJobs(old(isCancelled), old(disk.files), Jobs(toDownload[..attempted], outputDir, config.assetBaseUrl),
                         config.maxRetries, transfer)
      ensures b == |batches| || isCancelled
      ensures batches[b..] == Chunks(toDownload[attempted..], batchSize)
      ensures attempted == |toDownload| || attempted == BatchOffset(b, batchSize)
      ensures results == Recorded(results0, Names(toDownload[..attempted]), oks)
      ensures old(isCancelled) ==> attempted == 0 && results == results0
      ensures isCancelled || (isCancelled == old(isCancelled) && isDownloading == old(isDownloading))
      ensures KeptAt(toDownload[..attempted], oks, outputDir, disk.files)
      ensures !isCancelled ==> SettledAt(toDownload[..attempted], oks, outputDir, disk.files)
    {
      results, attempted, oks := results0, 0, [];
      ghost var cancelled0, files0 := isCancelled, disk.files;
      assert toDownload[..0] == [];
      b := 0;
      while b < |batches|
        invariant 0 <= b <= |batches| && attempted <= |toDownload| && |oks| == attempted
        invariant Run(oks, isCancelled, disk.files)
                  == RunJobs(cancelled0, files0, Jobs(toDownload[..attempted], outputDir, config.assetBaseUrl), config.maxRetries, transfer)
        invariant batches[b..] == Chunks(toDownload[attempted..], batchSize)
        invariant attempted == |toDownload| || attempted == BatchOffset(b, batchSize)
        invariant results == Recorded(results0, Names(toDownload[..attempted]), oks)
        invariant old(isCancelled) ==> attempted == 0 && results == results0 && isCancelled
        invariant isCancelled || (isCancelled == old(isCancelled) && isDownloading == old(isDownloading))
        invariant KeptAt(toDownload[..attempted], oks, outputDir, disk.files)
        invariant !isCancelled ==> SettledAt(toDownload[..attempted], oks, outputDir, disk.files)
      {
        if isCancelled {
          break;
        }
        ghost var batchOks;
        results, attempted, batchOks := RunBatchAt(toDownload, batchSize, batches, b, attempted, outputDir, disk, transfer,
                                                   cancelled0, files0, results0, results, oks);
        oks := oks + batchOks;
        // `asyncio.sleep(retry_delay)` between batches
        b := b + 1;
      }
    }

    /** One turn of the batch loop of `download_files`: batch number `b`, which starts after
        the first `attempted` files, is downloaded, and the files run so far are the first
        `next`. */
    method RunBatchAt(toDownload: seq<FileItem>, batchSize: nat, batches: seq<seq<FileItem>>, b: nat, ghost attempted: nat,
                      outputDir: string, disk: FileSystem, transfer: Transfers, ghost cancelled0: bool,
                      ghost files0: map<string, seq<byte>>, results0: map<string, bool>, before: map<string, bool>,
                      ghost oks: seq<bool>)
      returns (results: map<string, bool>, ghost next: nat, ghost batchOks: seq<bool>)
      requires batchSize >= 1 && b < |batches| && attempted <= |toDownload| && |oks| == attempted
      requires batches[b..] == Chunks(toDownload[attempted..], batchSize)
      requires attempted == |toDownload| || attempted == BatchOffset(b, batchSize)
      requires Run(oks, isCancelled, disk.files)
               == RunJobs(cancelled0, files0, Jobs(toDownload[..attempted], outputDir, config.assetBaseUrl), config.maxRetries, transfer)
      requires before == Recorded(results0, Names(toDownload[..attempted]), oks)
      requires KeptAt(toDownload[..attempted], oks, outputDir, disk.files)
      requires !isCancelled ==> SettledAt(toDownload[..attempted], oks, outputDir, disk.files)
      modifies this, disk, toDownload
      ensures attempted < next <= |toDownload| && |oks + batchOks| == next
      ensures batches[b + 1..] == Chunks(toDownload[next..], batchSize)
      ensures next == |toDownload| || next == BatchOffset(b + 1, batchSize)
      ensures Run(oks + batchOks, isCancelled, disk.files)
              == RunJobs(cancelled0, files0, Jobs(toDownload[..next], outputDir, config.assetBaseUrl), config.maxRetries, transfer)
      ensures results == Recorded(results0, Names(toDownload[..next]), oks + batchOks)
      ensures isCancelled || (isCancelled == old(isCancelled) && isDownloading == old(isDownloading))
      ensures KeptAt(toDownload[..next], oks + batchOks, outputDir, disk.files)
      ensures !isCancelled ==> SettledAt(toDownload[..next], oks + batchOks, outputDir, disk.files)
    {
      var batch := batches[b];
      next := ChunkAt(toDownload, batchSize, attempted, batches, b);
      ghost var cancelledMid, filesMid := isCancelled, disk.files;
      results, batchOks := DownloadBatch(batch, outputDir, disk, transfer, before, toDownload[..attempted], oks);
      AdvanceRun(cancelled0, files0, results0, toDownload, attempted, next, batch, outputDir, config, transfer,
                 oks, cancelledMid, filesMid, before, batchOks, isCancelled, disk.files, results);
    }

    /** Running one more batch after the first `attempted` files runs the first `next`. */
    static lemma AdvanceRun(cancelled0: bool, files0: map<string, seq<byte>>, results0: map<string, bool>,
                            items: seq<FileItem>, attempted: nat, next: nat, batch: seq<FileItem>,
                            outputDir: string, config: DownloadConfig, transfer: Transfers,
                            oks: seq<bool>, cancelledMid: bool, filesMid: map<string, seq<byte>>, resultsMid: map<string, bool>,
                            batchOks: seq<bool>, cancelledNew: bool, filesNew: map<string, seq<byte>>, resultsNew: map<string, bool>)
      requires attempted <= next <= |items| && items[..attempted] + batch == items[..next] && |oks| == attempted
      requires Run(oks, cancelledMid, filesMid)
               == RunJobs(cancelled0, files0, Jobs(items[..attempted], outputDir, config.assetBaseUrl), config.maxRetries, transfer)
      requires resultsMid == Recorded(results0, Names(items[..attempted]), oks)
      requires Run(batchOks, cancelledNew, filesNew)
               == RunJobs(cancelledMid, filesMid, Jobs(batch, outputDir, config.assetBaseUrl), config.maxRetries, transfer)
      requires |batchOks| == |batch| && resultsNew == Recorded(resultsMid, Names(batch), batchOks)
      ensures Run(oks + batchOks, cancelledNew, filesNew)
              == RunJobs(cancelled0, files0, Jobs(items[..next], outputDir, config.assetBaseUrl), config.maxRetries, transfer)
      ensures resultsNew == Recorded(results0, Names(items[..next]), oks + batchOks)
    {
      RunJobsConcat(cancelled0, files0, Jobs(items[..attempted], outputDir, config.assetBaseUrl),
                    Jobs(batch, outputDir, config.assetBaseUrl), config.maxRetries, transfer);
      JobsAppend(items[..attempted], batch, outputDir, config.assetBaseUrl);
      RecordedConcat(results0, Names(items[..attempted]), oks, Names(batch), batchOks);
      NamesAppend(items[..attempted], batch);
    }

    /** `download_files(file_items, output_dir)` with the directory scan `scan`: an empty list
        returns no results and changes nothing. Otherwise the existing files are completed and
        succeed, then the rest are downloaded batch by batch and the run ends not downloading;
        every result belongs to an input file, and unless the run was cancelled every input file
        has a result. */
    method DownloadFiles(fileItems: seq<FileItem>, outputDir: string, scan: Scan, disk: FileSystem, transfer: Transfers)
      returns (results: map<string, bool>, ghost existing: seq<FileItem>, ghost toDownload: seq<FileItem>, ghost attempted: nat,
               ghost oks: seq<bool>)
      modifies this, disk, fileItems
      ensures fileItems == [] ==> results == map[] && unchanged(this, disk)
      ensures fileItems != [] ==> !isDownloading
      ensures fileItems != [] ==> existing == old(Select(fileItems, Presence(fileItems, scan), true))
                                  && toDownload == old(Select(fileItems, Presence(fileItems, scan), false))
      ensures fileItems != [] ==> attempted <= |toDownload| && |oks| == attempted && (!isCancelled ==> attempted == |toDownload|)
      ensures fileItems != [] ==> results == Recorded(AllSucceeded(Names(existing)), Names(toDownload[..attempted]), oks)
      ensures fileItems != [] ==> Run(oks, isCancelled, disk.files)
                                  == RunJobs(false, old(disk.files), Jobs(toDownload[..attempted], outputDir, config.assetBaseUrl),
                                             config.maxRetries, transfer)
      ensures fileItems != [] ==> forall k :: k in results <==> k in Names(existing) || k in Names(toDownload[..attempted])
      ensures fileItems != [] ==> forall k :: k in Names(existing) && k !in Names(toDownload[..attempted]) ==> results[k]
      ensures fileItems != [] ==> forall x :: x in existing ==> MarkedFrom(x, outputDir, old(disk.files))
      ensures fileItems != [] ==> KeptAt(toDownload[..attempted], oks, outputDir, disk.files)
      ensures fileItems != [] && !isCancelled ==> SettledAt(toDownload[..attempted], oks, outputDir, disk.files)
      ensures forall k :: k in results ==> exists x :: x in fileItems && x.filename == k
      ensures fileItems != [] && !isCancelled ==> forall x :: x in fileItems ==> x.filename in results
    {
      if fileItems == [] {
        return map[], [], [], 0, [];
      }
      isCancelled := false;
      isDownloading := true;
      ghost var flags := Presence(fileItems, scan);
      assert flags == old(Presence(fileItems, scan));
      var existingFiles, filesToDownload := BatchCheckExistingFiles(fileItems, scan);
      assert Presence(fileItems, scan) == flags;
      existing, toDownload := existingFiles, filesToDownload;
      results, attempted, oks := DownloadSorted(fileItems, existingFiles, filesToDownload, outputDir, disk, transfer);
    }

    /** The part of `download_files` after the scan: the present files are completed, then the
        others are downloaded batch by batch until the run is cancelled, and the `finally`
        clause leaves the run not downloading. */
    method DownloadSorted(fileItems: seq<FileItem>, existing: seq<FileItem>, toDownload: seq<FileItem>,
                          outputDir: string, disk: FileSystem, transfer: Transfers)
      returns (results: map<string, bool>, ghost attempted: nat, ghost oks: seq<bool>)
      requires multiset(existing) + multiset(toDownload) == multiset(fileItems)
      requires forall i :: 0 <= i < |existing| ==> existing[i] in fileItems && existing[i] !in toDownload
      requires forall i :: 0 <= i < |toDownload| ==> toDownload[i] in fileItems
      modifies this, disk, fileItems
      ensures attempted <= |toDownload| && |oks| == attempted && (!isCancelled ==> attempted == |toDownload|)
      ensures results == Recorded(AllSucceeded(Names(existing)), Names(toDownload[..attempted]), oks)
      ensures Run(oks, isCancelled, disk.files)
              == RunJobs(old(isCancelled), old(disk.files), Jobs(toDownload[..attempted], outputDir, config.assetBaseUrl),
                         config.maxRetries, transfer)
      ensures forall k :: k in results <==> k in Names(existing) || k in Names(toDownload[..attempted])
      ensures forall k :: k in Names(existing) && k !in Names(toDownload[..attempted]) ==> results[k]
      ensures forall x :: x in existing ==> MarkedFrom(x, outputDir, old(disk.files))
      ensures KeptAt(toDownload[..attempted], oks, outputDir, disk.files)
      ensures !isCancelled ==> SettledAt(toDownload[..attempted], oks, outputDir, disk.files)
      ensures forall k :: k in results ==> exists x :: x in fileItems && x.filename == k
      ensures !isCancelled ==> forall x :: x in fileItems ==> x.filename in results
      ensures !isDownloading && (old(isCancelled) ==> isCancelled)
    {
      results := MarkExisting(existing, outputDir, disk);
      ghost var marked := results;
      results, attempted, oks := DownloadRest(|fileItems|, toDownload, outputDir, disk, transfer, results);
      RunOutcome(fileItems, existing, toDownload, marked, attempted, oks, results);
    }

    /** The batch loop of `download_files`, run when there is anything to download, and the
        `finally` clause that leaves the run not downloading. */
    method DownloadRest(total: nat, toDownload: seq<FileItem>, outputDir: string, disk: FileSystem, transfer: Transfers,
                        results0: map<string, bool>)
      returns (results: map<string, bool>, ghost attempted: nat, ghost oks: seq<bool>)
      modifies this, disk, toDownload
      ensures attempted <= |toDownload| && |oks| == attempted && (!isCancelled ==> attempted == |toDownload|)
      ensures results == Recorded(results0, Names(toDownload[..attempted]), oks)
      ensures Run(oks, isCancelled, disk.files)
              == RunJobs(old(isCancelled), old(disk.files), Jobs(toDownload[..attempted], outputDir, config.assetBaseUrl),
                         config.maxRetries, transfer)
      ensures KeptAt(toDownload[..attempted], oks, outputDir, disk.files)
      ensures !isCancelled ==> SettledAt(toDownload[..attempted], oks, outputDir, disk.files)
      ensures !isDownloading && (old(isCancelled) ==> isCancelled)
    {
      results, attempted, oks := DownloadPending(total, toDownload, outputDir, disk, transfer, results0);
      isDownloading := false;
    }

    /** The batches of `download_files`, run when there is anything to download. */
    method DownloadPending(total: nat, toDownload: seq<FileItem>, outputDir: string, disk: FileSystem, transfer: Transfers,
                           results0: map<string, bool>)
      returns (results: map<string, bool>, ghost attempted: nat, ghost oks: seq<bool>)
      modifies this, disk, toDownload
      ensures attempted <= |toDownload| && |oks| == attempted && (!isCancelled ==> attempted == |toDownload|)
      ensures results == Recorded(results0, Names(toDownload[..attempted]), oks)
      ensures Run(oks, isCancelled, disk.files)
              == RunJobs(old(isCancelled), old(disk.files), Jobs(toDownload[..attempted], outputDir, config.assetBaseUrl),
                         config.maxRetries, transfer)
      ensures KeptAt(toDownload[..attempted], oks, outputDir, disk.files)
      ensures !isCancelled ==> SettledAt(toDownload[..attempted], oks, outputDir, disk.files)
      ensures old(isCancelled) ==> isCancelled
    {
      results, oks, attempted := results0, [], 0;
      assert toDownload[..0] == [] && Jobs([], outputDir, config.assetBaseUrl) == [];
      if toDownload != [] {
        var batchSize := OptimalBatchSize(config, total, |toDownload|, []);
        ghost var batchesRun;
        results, attempted, oks, batchesRun := DownloadBatches(toDownload, batchSize, outputDir, disk, transfer, results);
      }
    }

    /** What the results map holds once the present files are marked and `attempted` files
        were downloaded. */
    static lemma RunOutcome(fileItems: seq<FileItem>, existing: seq<FileItem>, toDownload: seq<FileItem>,
                            marked: map<string, bool>, attempted: nat, oks: seq<bool>, results: map<string, bool>)
      requires multiset(existing) + multiset(toDownload) == multiset(fileItems)
      requires attempted <= |toDownload| && |oks| == attempted
      requires forall k :: k in marked <==> k in Names(existing)
      requires forall k :: k in marked ==> marked[k]
      requires results == Recorded(marked, Names(toDownload[..attempted]), oks)
      ensures forall k :: k in results <==> k in Names(existing) || k in Names(toDownload[..attempted])
      ensures forall k :: k in Names(existing) && k !in Names(toDownload[..attempted]) ==> results[k]
      ensures forall k :: k in results ==> exists x :: x in fileItems && x.filename == k
      ensures attempted == |toDownload| ==> forall x :: x in fileItems ==> x.filename in results
    {
      RecordedKeys(marked, Names(toDownload[..attempted]), oks);
      EveryResultFromInput(fileItems, existing, toDownload, attempted, results);
    }

    /** The filenames recorded after the two loops come from the input, and cover it once both
        loops ran to the end. */
    static lemma EveryResultFromInput(fileItems: seq<FileItem>, existing: seq<FileItem>, toDownload: seq<FileItem>,
                                      attempted: nat, results: map<string, bool>)
      requires multiset(existing) + multiset(toDownload) == multiset(fileItems) && attempted <= |toDownload|
      requires forall k :: k in results <==> k in Names(existing) || k in Names(toDownload[..attempted])
      ensures forall k :: k in results ==> exists x :: x in fileItems && x.filename == k
      ensures attempted == |toDownload| ==> forall x :: x in fileItems ==> x.filename in results
    {
      NamesOf(existing);
      NamesOf(toDownload[..attempted]);
      forall k | k in results
        ensures exists x :: x in fileItems && x.filename == k
      {
        if k in Names(existing) {
          var x :| x in existing && x.filename == k;
          assert x in multiset(fileItems);
        } else {
          var x :| x in toDownload[..attempted] && x.filename == k;
          assert x in toDownload;
          assert x in multiset(fileItems);
        }
      }
      if attempted == |toDownload| {
        assert toDownload[..attempted] == toDownload;
        forall x | x in fileItems
          ensures x.filename in results
        {
          assert x in multiset(existing) + multiset(toDownload);
        }
      }
    }
  }
}
