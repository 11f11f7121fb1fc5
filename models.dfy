/** The file record of the downloader and its download settings. */
module Models {
  import opened Wrappers
  import opened Strings
  import opened Paths
  import Network

  /** Where a file stands in the download workflow. */
  datatype DownloadStatus = Pending | Downloading | Completed | Failed | Cancelled | Skipped
  {
    /** The label the status carries (the enum value, also shown in the table and saved in the
        state file). */
    function Label(): string {
      match this
      case Pending => "待下载"
      case Downloading => "下载中"
      case Completed => "已完成"
      case Failed => "失败"
      case Cancelled => "已取消"
      case Skipped => "已跳过"
    }
  }

  /** The statuses in declaration order. */
  const AllStatuses: seq<DownloadStatus> := [Pending, Downloading, Completed, Failed, Cancelled, Skipped]

  /** `DownloadStatus(text)`: the status whose label is `text`; none for any other text. */
  function StatusOfLabel(text: string): (r: Option<DownloadStatus>)
    ensures r.Some? ==> r.value.Label() == text
    ensures forall s: DownloadStatus :: s.Label() == text ==> r == Some(s)
  {
    if text == "待下载" then Some(Pending)
    else if text == "下载中" then Some(Downloading)
    else if text == "已完成" then Some(Completed)
    else if text == "失败" then Some(Failed)
    else if text == "已取消" then Some(Cancelled)
    else if text == "已跳过" then Some(Skipped)
    else None
  }

  /** The suffixes (lower case) of files that are transferred as binary data. */
  const BinaryExtensions: set<string> := {
    ".png", ".jpg", ".jpeg", ".gif", ".bmp", ".webp", ".ico", ".tiff", ".svg",
    ".mp3", ".wav", ".m4a", ".aac", ".flac", ".ogg", ".wma", ".opus",
    ".mp4", ".avi", ".mov", ".wmv", ".flv", ".webm", ".mkv", ".m4v",
    ".zip", ".rar", ".7z", ".tar", ".gz", ".pdf", ".exe", ".dll"
  }

  /** What `stat()` reports for a local path: no file, a file whose metadata cannot be read, or
      its modification time and size. */
  datatype StatProbe = Absent | Unreadable | Present(mtime: real, size: nat)

  /** The fields of a record that the state file keeps. */
  datatype ItemRecord = ItemRecord(
    filename: string,
    md5: string,
    status: DownloadStatus,
    progress: real,
    size: Option<int>,
    downloadedSize: int,
    localPath: Option<string>,
    errorMessage: Option<string>,
    downloadUrl: Option<string>)

  const DefaultCacheVersion := "1.0"

  /** One asset of the manifest: its logical name, its content hash and its download state.
      The name and the hash never change; everything else is updated in place. Times are
      seconds on the caller's clock. */
  class FileItem {
    const filename: string
    const md5: string
    /** `full_filename`, fixed once with the name and the hash (see `Named`). */
    const fullFilename: string
    var status: DownloadStatus
    var progress: real
    var size: Option<int>
    var downloadedSize: int
    var localPath: Option<string>
    var errorMessage: Option<string>
    var downloadUrl: Option<string>
    var mtime: Option<real>
    var diskVerified: bool
    var lastChecked: Option<real>
    var cacheVersion: string

    /** `FileItem(filename, md5)`: a fresh, pending record. */
    constructor (filename: string, md5: string)
      ensures this.filename == filename && this.md5 == md5 && Named()
      ensures status == Pending && progress == 0.0 && size == None && downloadedSize == 0
      ensures localPath == None && errorMessage == None && downloadUrl == None
      ensures mtime == None && !diskVerified && lastChecked == None && cacheVersion == DefaultCacheVersion
    {
      this.filename := filename;
      this.md5 := md5;
      fullFilename := Stem(FinalName(filename)) + "-" + md5 + Lower(Suffix(FinalName(filename)));
      status := Pending;
      progress := 0.0;
      size := None;
      downloadedSize := 0;
      localPath := None;
      errorMessage := None;
      downloadUrl := None;
      mtime := None;
      diskVerified := false;
      lastChecked := None;
      cacheVersion := DefaultCacheVersion;
    }

    /** A record rebuilt from the state file: the saved fields as saved, the disk-cache fields at
        their defaults. */
    constructor FromRecord(rec: ItemRecord)
      ensures Snapshot() == rec && Named()
      ensures mtime == None && !diskVerified && lastChecked == None && cacheVersion == DefaultCacheVersion
    {
      filename := rec.filename;
      md5 := rec.md5;
      fullFilename := Stem(FinalName(rec.filename)) + "-" + rec.md5 + Lower(Suffix(FinalName(rec.filename)));
      status := rec.status;
      progress := rec.progress;
      size := rec.size;
      downloadedSize := rec.downloadedSize;
      localPath := rec.localPath;
      errorMessage := rec.errorMessage;
      downloadUrl := rec.downloadUrl;
      mtime := None;
      diskVerified := false;
      lastChecked := None;
      cacheVersion := DefaultCacheVersion;
    }

    /** The fields the state file keeps. */
    function Snapshot(): ItemRecord
      reads this
    {
      ItemRecord(filename, md5, status, progress, size, downloadedSize, localPath, errorMessage, downloadUrl)
    }

    /** The fields a transfer never assigns: all but the expected size and the two progress
        counters. */
    function Bookkeeping(): (DownloadStatus, Option<string>, Option<string>, Option<string>, Option<real>, bool, Option<real>, string)
      reads this
    {
      (status, localPath, errorMessage, downloadUrl, mtime, diskVerified, lastChecked, cacheVersion)
    }

    /** The disk-cache fields `(mtime, disk_verified, last_checked, cache_version)`, which only
        `update_disk_metadata` assigns. */
    function CacheState(): (Option<real>, bool, Option<real>, string)
      reads this
    {
      (mtime, diskVerified, lastChecked, cacheVersion)
    }

    /** The progress counters `(progress, downloaded_size)`. */
    function Counters(): (real, int)
      reads this
    {
      (progress, downloadedSize)
    }

    /** `file_extension`: the suffix of the final path component, lower-cased. */
    function FileExtension(): (r: string)
      ensures r == [] || (2 <= |r| && r[0] == '.')
      ensures |r| == |Suffix(FinalName(filename))|
      ensures forall j :: 0 <= j < |r| ==> !('A' <= r[j] <= 'Z')
    {
      Lower(Suffix(FinalName(filename)))
    }

    /** `base_filename`: the stem of the final path component, in its own letter case. */
    function BaseFilename(): (r: string)
      ensures r + Suffix(FinalName(filename)) == FinalName(filename)
      ensures forall j :: 0 <= j < |r| ==> r[j] != '/'
    {
      Stem(FinalName(filename))
    }

    /** `full_filename` is the local name: the base name, "-", the hash and the extension, so
        that two versions of one asset never collide. Every constructor establishes it. */
    predicate Named()
    {
      fullFilename == BaseFilename() + "-" + md5 + FileExtension()
    }

    /** `is_binary_file`: the lower-cased suffix is one of the binary extensions. */
    function IsBinaryFile(): (r: bool)
      ensures r ==> 2 <= |FileExtension()| && FileExtension()[0] == '.'
    {
      FileExtension() in BinaryExtensions
    }

    /** `reset_progress`: back to pending with no progress and no error. */
    method ResetProgress()
      modifies this
      ensures progress == 0.0 && downloadedSize == 0 && status == Pending && errorMessage == None
      ensures size == old(size) && localPath == old(localPath) && downloadUrl == old(downloadUrl)
      ensures mtime == old(mtime) && diskVerified == old(diskVerified)
      ensures lastChecked == old(lastChecked) && cacheVersion == old(cacheVersion)
    {
      progress := 0.0;
      downloadedSize := 0;
      status := Pending;
      errorMessage := None;
    }

    /** `mark_completed(local_path)`: `diskSize` is the size of the file at `path` when it exists.
        The sizes are taken from the disk only when the file is there. */
    method MarkCompleted(path: string, diskSize: Option<nat>)
      modifies this
      ensures status == Completed && progress == 100.0 && localPath == Some(path)
      ensures diskSize.Some? ==> size == Some(diskSize.value as int) && downloadedSize == diskSize.value
      ensures diskSize.None? ==> size == old(size) && downloadedSize == old(downloadedSize)
      ensures errorMessage == old(errorMessage) && downloadUrl == old(downloadUrl)
      ensures mtime == old(mtime) && diskVerified == old(diskVerified)
      ensures lastChecked == old(lastChecked) && cacheVersion == old(cacheVersion)
    {
      status := Completed;
      progress := 100.0;
      localPath := Some(path);
      if diskSize.Some? {
        size := Some(diskSize.value);
        downloadedSize := diskSize.value;
      }
    }

    /** `mark_failed(message)`: only the status and the error change. */
    method MarkFailed(message: string)
      modifies this
      ensures status == Failed && errorMessage == Some(message)
      ensures progress == old(progress) && size == old(size) && downloadedSize == old(downloadedSize)
      ensures localPath == old(localPath) && downloadUrl == old(downloadUrl)
      ensures mtime == old(mtime) && diskVerified == old(diskVerified)
      ensures lastChecked == old(lastChecked) && cacheVersion == old(cacheVersion)
    {
      status := Failed;
      errorMessage := Some(message);
    }

    /** `mark_skipped(reason)`: only the status and the error change. */
    method MarkSkipped(reason: string)
      modifies this
      ensures status == Skipped && errorMessage == Some(reason)
      ensures progress == old(progress) && size == old(size) && downloadedSize == old(downloadedSize)
      ensures localPath == old(localPath) && downloadUrl == old(downloadUrl)
      ensures mtime == old(mtime) && diskVerified == old(diskVerified)
      ensures lastChecked == old(lastChecked) && cacheVersion == old(cacheVersion)
    {
      status := Skipped;
      errorMessage := Some(reason);
    }

    /** `update_disk_metadata(path)` at time `now`, given what `stat()` reports for the path.
        Afterwards the cache is valid for that same stat result within any age limit. */
    method UpdateDiskMetadata(probe: StatProbe, now: real)
      modifies this
      ensures probe.Present? ==> mtime == Some(probe.mtime) && size == Some(probe.size as int)
                                 && diskVerified && lastChecked == Some(now)
      ensures probe.Present? ==> forall hours: nat :: IsCacheValid(probe, now, hours)
      ensures probe.Unreadable? ==> !diskVerified && mtime == old(mtime) && size == old(size)
                                    && lastChecked == old(lastChecked)
      ensures probe.Absent? ==> diskVerified == old(diskVerified) && mtime == old(mtime)
                                && size == old(size) && lastChecked == old(lastChecked)
      ensures status == old(status) && progress == old(progress) && downloadedSize == old(downloadedSize)
      ensures localPath == old(localPath) && errorMessage == old(errorMessage)
      ensures downloadUrl == old(downloadUrl) && cacheVersion == old(cacheVersion)
    {
      match probe
      case Present(t, n) =>
        mtime := Some(t);
        size := Some(n);
        diskVerified := true;
        lastChecked := Some(now);
      case Unreadable =>
        diskVerified := false;
      case Absent =>
    }

    /** `is_cache_valid(path, max_age_hours)` at time `now`: the record was verified against the
        disk no longer than `maxAgeHours` ago and the file still has the recorded time and size. */
    function IsCacheValid(probe: StatProbe, now: real, maxAgeHours: int): (r: bool)
      reads this
      ensures r <==> diskVerified && lastChecked.Some? && now - lastChecked.value <= (maxAgeHours * 3600) as real
                     && probe.Present? && mtime == Some(probe.mtime) && size == Some(probe.size as int)
    {
      if !diskVerified || lastChecked.None? then false
      else if now - lastChecked.value > (maxAgeHours * 3600) as real then false
      else match probe
        case Absent => false
        case Unreadable => false
        case Present(t, n) => mtime == Some(t) && size == Some(n as int)
    }
  }

  /** Two versions of one asset get different local names: the local name determines the hash. */
  lemma FullFilenameDeterminesMd5(a: FileItem, b: FileItem)
    requires a.Named() && b.Named()
    requires a.filename == b.filename && a.fullFilename == b.fullFilename
    ensures a.md5 == b.md5
  {
    var n := a.fullFilename;
    var p := a.BaseFilename() + "-";
    var e := a.FileExtension();
    assert |a.md5| == |b.md5|;
    assert a.md5 == n[|p|..|n| - |e|];
    assert b.md5 == n[|p|..|n| - |e|];
  }

  /** For a plain name with one extension the local name keeps the stem in its own case, puts
      the hash after a "-", and ends with the lower-cased extension: "test.json" with hash
      "abc123def456" becomes "test-abc123def456.json", and "Song.PNG" keeps "Song". */
  lemma {:induction false} FullFilenameOfPlainName(item: FileItem, i: nat)
    requires item.Named()
    requires forall j :: 0 <= j < |item.filename| ==> item.filename[j] != '/'
    requires 0 < i < |item.filename| - 1 && item.filename[i] == '.'
    requires forall j :: i < j < |item.filename| ==> item.filename[j] != '.'
    ensures item.fullFilename == item.filename[..i] + "-" + item.md5 + Lower(item.filename[i..])
    ensures item.IsBinaryFile() <==> Lower(item.filename[i..]) in BinaryExtensions
  {
    var name := item.filename;
    PlainFinalName(name);
    SplitAtLastDot(name, i);
  }

  /** The download settings. */
  datatype DownloadConfig = DownloadConfig(
    concurrentRequests: int,
    timeout: int,
    batchSize: int,
    retryDelay: real,
    assetBaseUrl: string,
    maxRetries: int,
    chunkSize: int,
    connectionLimit: int,
    connectionLimitPerHost: int,
    smallFileThreshold: int,
    largeFileThreshold: int,
    useHttp2: bool,
    enableNetworkOptimization: bool,
    autoDetectHttp2: bool,
    fallbackToHttp1: bool,
    enableResume: bool,
    minResumeSize: int,
    resumeTimeout: int,
    verifyIntegrity: bool,
    maxRecoveryAttempts: int,
    recoveryBaseDelay: real,
    networkErrorThreshold: int)
  {
    /** The sizing fields are all positive, as `__post_init__` leaves them. */
    predicate Valid() {
      concurrentRequests >= 1 && timeout >= 1 && batchSize >= 1 && chunkSize >= 1
      && connectionLimit >= 1 && connectionLimitPerHost >= 1
    }
  }

  /** `DownloadConfig()` with every field at its declared default. */
  const DefaultConfig := DownloadConfig(
    80, 180, 50, 0.3, "https://assets.joytunes.com/play_assets", 5, 32768, 150, 80,
    100000, 2000000, true, true, true, true, true, 2 * 1024 * 1024, 60, true, 5, 1.0, 3)

  /** `__post_init__`: each non-positive sizing field is replaced by its fixed fallback. */
  function PostInit(c: DownloadConfig): (r: DownloadConfig)
    ensures r.Valid()
    ensures r.concurrentRequests == (if c.concurrentRequests <= 0 then 1 else c.concurrentRequests)
    ensures r.timeout == (if c.timeout <= 0 then 60 else c.timeout)
    ensures r.batchSize == (if c.batchSize <= 0 then 1 else c.batchSize)
    ensures r.chunkSize == (if c.chunkSize <= 0 then 8192 else c.chunkSize)
    ensures r.connectionLimit == (if c.connectionLimit <= 0 then 100 else c.connectionLimit)
    ensures r.connectionLimitPerHost == (if c.connectionLimitPerHost <= 0 then 50 else c.connectionLimitPerHost)
    ensures r.retryDelay == c.retryDelay && r.assetBaseUrl == c.assetBaseUrl && r.maxRetries == c.maxRetries
    ensures r.smallFileThreshold == c.smallFileThreshold && r.largeFileThreshold == c.largeFileThreshold
    ensures r.useHttp2 == c.useHttp2 && r.enableNetworkOptimization == c.enableNetworkOptimization
    ensures r.autoDetectHttp2 == c.autoDetectHttp2 && r.fallbackToHttp1 == c.fallbackToHttp1
    ensures r.enableResume == c.enableResume && r.minResumeSize == c.minResumeSize
    ensures r.resumeTimeout == c.resumeTimeout && r.verifyIntegrity == c.verifyIntegrity
    ensures r.maxRecoveryAttempts == c.maxRecoveryAttempts && r.recoveryBaseDelay == c.recoveryBaseDelay
    ensures r.networkErrorThreshold == c.networkErrorThreshold
  {
    DownloadConfig(
      OrFallback(c.concurrentRequests, 1), OrFallback(c.timeout, 60), OrFallback(c.batchSize, 1),
      c.retryDelay, c.assetBaseUrl, c.maxRetries, OrFallback(c.chunkSize, 8192),
      OrFallback(c.connectionLimit, 100), OrFallback(c.connectionLimitPerHost, 50),
      c.smallFileThreshold, c.largeFileThreshold, c.useHttp2, c.enableNetworkOptimization, c.autoDetectHttp2,
      c.fallbackToHttp1, c.enableResume, c.minResumeSize, c.resumeTimeout, c.verifyIntegrity,
      c.maxRecoveryAttempts, c.recoveryBaseDelay, c.networkErrorThreshold)
  }

  /** A sizing value, or its fallback when the value is not positive. */
  function OrFallback(value: int, fallback: int): (r: int)
    requires fallback >= 1
    ensures r >= 1
    ensures value >= 1 ==> r == value
    ensures value <= 0 ==> r == fallback
  {
    if value <= 0 then fallback else value
  }

  /** A configuration that is already valid is left alone, so `__post_init__` is idempotent. */
  lemma PostInitIdempotent(c: DownloadConfig)
    ensures PostInit(PostInit(c)) == PostInit(c)
    ensures c.Valid() ==> PostInit(c) == c
  {
    var r := PostInit(c);
    assert PostInit(r).(concurrentRequests := r.concurrentRequests, timeout := r.timeout, batchSize := r.batchSize,
                        chunkSize := r.chunkSize, connectionLimit := r.connectionLimit,
                        connectionLimitPerHost := r.connectionLimitPerHost) == r;
  }

  /** `getattr(item, 'size', 0)` is truthy: the size is known and not zero. */
  predicate HasSize(item: FileItem)
    reads item
  {
    item.size.Some? && item.size.value != 0
  }

  /** The number of items with a known size above `threshold`: all of them exactly when every
      item has such a size, none exactly when no item has. */
  function CountLarger(items: seq<FileItem>, threshold: int): (r: nat)
    reads items
    ensures r <= |items|
    ensures r == |items| <==> forall i :: 0 <= i < |items| ==> HasSize(items[i]) && items[i].size.value > threshold
    ensures r == 0 <==> forall i :: 0 <= i < |items| ==> !(HasSize(items[i]) && items[i].size.value > threshold)
  {
    if items == [] then 0
    else (if HasSize(items[0]) && items[0].size.value > threshold then 1 else 0) + CountLarger(items[1..], threshold)
  }

  /** The number of items with a known, non-zero size below `threshold`: all of them exactly
      when every item has such a size, none exactly when no item has. */
  function CountSmaller(items: seq<FileItem>, threshold: int): (r: nat)
    reads items
    ensures r <= |items|
    ensures r == |items| <==> forall i :: 0 <= i < |items| ==> HasSize(items[i]) && items[i].size.value < threshold
    ensures r == 0 <==> forall i :: 0 <= i < |items| ==> !(HasSize(items[i]) && items[i].size.value < threshold)
  {
    if items == [] then 0
    else (if HasSize(items[0]) && items[0].size.value < threshold then 1 else 0) + CountSmaller(items[1..], threshold)
  }

  /** The number of items whose logical name ends in `ext` (letter case matters): all of them
      exactly when every name does, none exactly when no name does. */
  function CountEndingWith(items: seq<FileItem>, ext: string): (r: nat)
    ensures r <= |items|
    ensures r == |items| <==> forall i :: 0 <= i < |items| ==> EndsWith(items[i].filename, ext)
    ensures r == 0 <==> forall i :: 0 <= i < |items| ==> !EndsWith(items[i].filename, ext)
  {
    if items == [] then 0
    else (if EndsWith(items[0].filename, ext) then 1 else 0) + CountEndingWith(items[1..], ext)
  }

  /** `count / n > p / q` for the ratio of `count` items among `n`, with the decimal threshold
      written as the fraction `p / q`. An empty list has ratio 0. */
  predicate RatioAbove(count: int, n: int, p: int, q: int) {
    n > 0 && count * q > p * n
  }

  /** `get_optimal_batch_size(total_files, files_to_download, file_items)`. */
  function OptimalBatchSize(c: DownloadConfig, totalFiles: nat, filesToDownload: nat, items: seq<FileItem>): (r: int)
    reads items
    ensures filesToDownload == 0 ==> r == 1
    ensures r >= 1
    ensures r <= Max(100, c.batchSize)
    ensures filesToDownload > 200 && totalFiles == filesToDownload && items == [] ==> r == Max(1, c.batchSize)
  {
    if filesToDownload == 0 then 1
    else
      var bySize :=
        if filesToDownload <= 10 then Min(5, filesToDownload)
        else if filesToDownload <= 50 then Min(15, c.batchSize)
        else if filesToDownload <= 200 then Min(30, c.batchSize)
        else c.batchSize;
      var skipped := totalFiles - filesToDownload;
      var bySkip :=
        if RatioAbove(skipped, totalFiles, 95, 100) then Max(10, bySize / 3)
        else if RatioAbove(skipped, totalFiles, 80, 100) then Max(15, bySize / 2)
        else if RatioAbove(skipped, totalFiles, 50, 100) then Max(20, bySize * 2 / 3)
        else bySize;
      var byType :=
        if items == [] then bySkip
        else if RatioAbove(CountLarger(items, c.largeFileThreshold), |items|, 3, 10) then Max(10, bySkip / 2)
        else if RatioAbove(CountSmaller(items, c.smallFileThreshold), |items|, 8, 10) then Min(100, bySkip * 2)
        else bySkip;
      Max(1, byType)
  }

  /** `get_optimal_concurrent_requests(total_files, files_to_download, file_items)`. */
  function OptimalConcurrentRequests(c: DownloadConfig, totalFiles: nat, filesToDownload: nat, items: seq<FileItem>): (r: int)
    reads items
    ensures filesToDownload <= 5 ==> r == filesToDownload
    ensures filesToDownload > 5 ==> 5 <= r <= Max(5, c.concurrentRequests)
  {
    var batch := OptimalBatchSize(c, totalFiles, filesToDownload, items);
    if filesToDownload <= 5 then Min(filesToDownload, 5)
    else
      var byCount :=
        if filesToDownload <= 20 then Min(batch * 2, c.concurrentRequests)
        else if filesToDownload <= 100 then Min(batch * 3, c.concurrentRequests)
        else Min(batch * 4, c.concurrentRequests);
      var n := |items|;
      var bySize :=
        if items == [] then byCount
        else if RatioAbove(CountLarger(items, c.largeFileThreshold), n, 5, 10) then Max(20, byCount / 2)
        else if RatioAbove(CountSmaller(items, c.smallFileThreshold), n, 8, 10) then Min(120, byCount * 3 / 2)
        else byCount;
      var byKind :=
        if items == [] then bySize
        else if RatioAbove(CountEndingWith(items, ".json"), n, 7, 10) then Min(100, bySize * 4 / 3)
        else if RatioAbove(CountEndingWith(items, ".png"), n, 7, 10) then Max(30, bySize * 3 / 4)
        else bySize;
      Max(5, Min(byKind, c.concurrentRequests))
  }

  const MiB := 1024 * 1024

  /** The timeout for a file of the given size (`get_adaptive_timeout`); an unknown or zero size
      keeps the configured timeout. */
  function TimeoutForSize(c: DownloadConfig, size: Option<int>): (r: int)
    ensures size.Some? && size.value != 0 && size.value > c.largeFileThreshold ==>
              r == Min(Max(180, size.value * 10 / MiB), 2 * c.timeout)
    ensures size.Some? && size.value != 0 && size.value <= c.largeFileThreshold && size.value < c.smallFileThreshold ==>
              r == Max(60, c.timeout / 2)
    ensures (size.None? || size.value == 0 || c.smallFileThreshold <= size.value <= c.largeFileThreshold) ==>
              r == c.timeout
  {
    match size
    case Some(s) =>
      if s == 0 then c.timeout
      else if s > c.largeFileThreshold then Min(Max(180, s * 10 / MiB), c.timeout * 2)
      else if s < c.smallFileThreshold then Max(60, c.timeout / 2)
      else c.timeout
    case None => c.timeout
  }

  /** Among large files, a bigger file never gets a shorter timeout, and no file gets more than
      twice the configured timeout. */
  lemma TimeoutMonotone(c: DownloadConfig, s1: int, s2: int)
    requires c.largeFileThreshold >= 0 && c.largeFileThreshold < s1 <= s2
    ensures TimeoutForSize(c, Some(s1)) <= TimeoutForSize(c, Some(s2))
    ensures TimeoutForSize(c, Some(s2)) <= 2 * c.timeout
  {
    assert s1 * 10 <= s2 * 10;
    assert s1 * 10 / MiB <= s2 * 10 / MiB;
  }

  /** `get_adaptive_timeout(file_item)`. */
  function AdaptiveTimeout(c: DownloadConfig, item: FileItem?): (r: int)
    reads item
    ensures item == null ==> r == c.timeout
    ensures item != null ==> r == TimeoutForSize(c, item.size)
  {
    if item == null then c.timeout else TimeoutForSize(c, item.size)
  }

  /** The read chunk size for a file of the given size (`get_adaptive_chunk_size`). */
  function ChunkForSize(c: DownloadConfig, size: Option<int>): (r: int)
    ensures size.Some? && size.value != 0 && size.value > c.largeFileThreshold ==> r == Min(65536, 2 * c.chunkSize)
    ensures size.Some? && size.value != 0 && size.value <= c.largeFileThreshold && size.value < c.smallFileThreshold ==>
              r == Max(8192, c.chunkSize / 2)
    ensures (size.None? || size.value == 0 || c.smallFileThreshold <= size.value <= c.largeFileThreshold) ==>
              r == c.chunkSize
  {
    match size
    case Some(s) =>
      if s == 0 then c.chunkSize
      else if s > c.largeFileThreshold then Min(65536, c.chunkSize * 2)
      else if s < c.smallFileThreshold then Max(8192, c.chunkSize / 2)
      else c.chunkSize
    case None => c.chunkSize
  }

  /** With a configured chunk between 8 KiB and 64 KiB, small files read in smaller chunks and
      large files in larger ones, all within 8 KiB .. 64 KiB. */
  lemma ChunkSizesOrdered(c: DownloadConfig, small: int, medium: int, large: int)
    requires 8192 <= c.chunkSize <= 65536
    requires 0 < small < c.smallFileThreshold <= medium <= c.largeFileThreshold < large
    ensures 8192 <= ChunkForSize(c, Some(small)) <= ChunkForSize(c, Some(medium))
    ensures ChunkForSize(c, Some(medium)) <= ChunkForSize(c, Some(large)) <= 65536
  {
  }

  /** `get_adaptive_chunk_size(file_item)`. */
  function AdaptiveChunkSize(c: DownloadConfig, item: FileItem?): (r: int)
    reads item
    ensures item == null ==> r == c.chunkSize
    ensures item != null ==> r == ChunkForSize(c, item.size)
  {
    if item == null then c.chunkSize else ChunkForSize(c, item.size)
  }

  /** `create_network_config(file_items)` for a list of `fileCount` items (0 for no list). */
  function CreateNetworkConfig(c: DownloadConfig, fileCount: nat): (r: Network.NetworkConfig)
    ensures r.useHttp2 <==> c.useHttp2 && c.enableNetworkOptimization
    ensures r.timeoutSeconds == c.timeout
    ensures r.connectTimeout == Min(30, c.timeout / 6) && r.readTimeout == Min(60, c.timeout / 3)
    ensures fileCount > 10000 ==> r.maxConnections == Min(150, c.connectionLimit)
                                  && r.maxKeepalive == Min(80, c.connectionLimitPerHost)
    ensures 0 < fileCount < 100 ==> r.maxConnections == Max(20, c.connectionLimit / 3)
                                    && r.maxKeepalive == Max(10, c.connectionLimitPerHost / 3)
    ensures (fileCount == 0 || 100 <= fileCount <= 10000) ==>
              r.maxConnections == c.connectionLimit && r.maxKeepalive == c.connectionLimitPerHost
    ensures r.enablePerformanceTracking && r.connectionPoolStats
  {
    var (connections, keepalive) :=
      if fileCount == 0 then (c.connectionLimit, c.connectionLimitPerHost)
      else if fileCount > 10000 then (Min(150, c.connectionLimit), Min(80, c.connectionLimitPerHost))
      else if fileCount < 100 then (Max(20, c.connectionLimit / 3), Max(10, c.connectionLimitPerHost / 3))
      else (c.connectionLimit, c.connectionLimitPerHost);
    Network.NetworkConfig(
      c.useHttp2 && c.enableNetworkOptimization, connections, keepalive, c.timeout,
      Min(30, c.timeout / 6), Min(60, c.timeout / 3), true, true)
  }

  /** A valid configuration yields a connection pool of at least one connection, and a network
      configuration never waits longer to connect or read than the whole request may take. */
  lemma NetworkConfigSane(c: DownloadConfig, fileCount: nat)
    requires c.Valid()
    ensures CreateNetworkConfig(c, fileCount).maxConnections >= 1
    ensures CreateNetworkConfig(c, fileCount).maxKeepalive >= 1
    ensures CreateNetworkConfig(c, fileCount).connectTimeout <= CreateNetworkConfig(c, fileCount).timeoutSeconds
    ensures CreateNetworkConfig(c, fileCount).readTimeout <= CreateNetworkConfig(c, fileCount).timeoutSeconds
  {
  }
}
