/** The parallel MD5 verifier: its thread and batch-size tables, its batches, the result for one
    file and the collection of all results, taken one batch after the other. */
module Verification {
  import opened Wrappers
  import opened Strings
  import opened Models
  import opened Disk
  import opened Paths
  import opened Batches

  /** `MD5Result`, without the elapsed time. */
  datatype Md5Result = Md5Result(
    filename: string,
    success: bool,
    md5Hash: string,
    calculatedMd5: string,
    fileSize: nat,
    error: string)

  const MissingFile := "文件不存在"
  const HashFailurePrefix := "计算MD5失败: "
  const MismatchPrefix := "MD5不匹配: 期望"

  /** What hashing a file needs besides the disk: the output directory, the digest and, per path,
      the text of the exception raised while reading or hashing the file (none when it reads). */
  datatype Hasher = Hasher(outputDir: string, digest: Digest, readFailure: string -> Option<string>)

  /** `os.cpu_count() or 4`. */
  function CpuCores(cpuCount: Option<nat>): (r: nat)
    ensures r >= 1
    ensures cpuCount.Some? && cpuCount.value != 0 ==> r == cpuCount.value
  {
    if cpuCount.Some? && cpuCount.value != 0 then cpuCount.value else 4
  }

  /** `_get_optimal_threads`. */
  function ThreadsFor(fileCount: nat, cpuCount: Option<nat>): (r: nat)
    ensures r <= 32
    ensures fileCount >= 1 ==> r >= 1
    ensures fileCount < 10 ==> r == Min(fileCount, 4)
    ensures 10 <= fileCount < 100 ==> 2 <= r <= 16 && r == Min(Min(4 * CpuCores(cpuCount), 32) / 2, 16)
    ensures fileCount >= 100 ==> 4 <= r && r == Min(4 * CpuCores(cpuCount), 32)
  {
    var base := Min(CpuCores(cpuCount) * 4, 32);
    if fileCount < 10 then Min(fileCount, 4)
    else if fileCount < 100 then Min(base / 2, 16)
    else base
  }

  /** `_get_optimal_batch_size`: never more items than there are, never more than 50, and never
      an empty batch for a non-empty list. */
  function BatchSizeFor(fileCount: nat): (r: nat)
    ensures r <= 50 && r <= fileCount
    ensures fileCount >= 1 ==> r >= 1
    ensures fileCount >= 200 ==> 15 <= r <= 30
  {
    if fileCount < 20 then Min(fileCount, 10)
    else if fileCount < 200 then Min(50, fileCount)
    else if fileCount < 1000 then 30
    else if fileCount < 5000 then 20
    else 15
  }

  /** `output_dir / file_item.full_filename`. */
  function LocalPath(outputDir: string, item: FileItem): string
  {
    Join(outputDir, item.fullFilename)
  }

  /** `_calculate_single_md5`: a missing file fails with "文件不存在"; a file whose reading or
      hashing raises fails with that message; otherwise the result succeeds and its error is
      empty exactly when the hashes agree regardless of case. */
  function SingleMd5(item: FileItem, h: Hasher, disk: FileSystem): (r: Md5Result)
    reads disk
    ensures r.filename == item.filename
    ensures !disk.Exists(LocalPath(h.outputDir, item)) ==>
              !r.success && r.error == MissingFile && r.md5Hash == item.md5
    ensures disk.Exists(LocalPath(h.outputDir, item)) && h.readFailure(LocalPath(h.outputDir, item)).Some? ==>
              !r.success && r.md5Hash == item.md5
              && r.error == HashFailurePrefix + h.readFailure(LocalPath(h.outputDir, item)).value
    ensures disk.Exists(LocalPath(h.outputDir, item)) && h.readFailure(LocalPath(h.outputDir, item)).None? ==>
              r.success && r.fileSize == disk.Size(LocalPath(h.outputDir, item))
              && r.md5Hash == Lower(item.md5)
              && r.calculatedMd5 == Lower(h.digest(disk.files[LocalPath(h.outputDir, item)]))
    ensures r.success ==> disk.Exists(LocalPath(h.outputDir, item))
    ensures r.success ==> (r.error == "" <==> r.md5Hash == r.calculatedMd5)
  {
    var path := LocalPath(h.outputDir, item);
    if !disk.Exists(path) then
      Md5Result(item.filename, false, item.md5, "", 0, MissingFile)
    else if h.readFailure(path).Some? then
      Md5Result(item.filename, false, item.md5, "", 0, HashFailurePrefix + h.readFailure(path).value)
    else
      var expected := Lower(item.md5);
      var actual := Lower(h.digest(disk.files[path]));
      Md5Result(item.filename, true, expected, actual, disk.Size(path),
                if expected == actual then "" else MismatchPrefix + expected + ", 实际" + actual)
  }

  /** A successful, clean result does not depend on the case of either hash. */
  lemma SingleMd5IgnoresCase(item: FileItem, h: Hasher, disk: FileSystem, other: FileItem)
    requires other.fullFilename == item.fullFilename && Lower(other.md5) == Lower(item.md5)
    ensures SingleMd5(other, h, disk).success == SingleMd5(item, h, disk).success
    ensures SingleMd5(item, h, disk).success ==>
              (SingleMd5(other, h, disk).error == "" <==> SingleMd5(item, h, disk).error == "")
  {
  }

  /** The results of `items`, one after the other, filed under their file names: a later result
      for the same name replaces an earlier one. */
  function Collect(items: seq<FileItem>, h: Hasher, disk: FileSystem): map<string, Md5Result>
    reads disk
  {
    if items == [] then map[]
    else
      var n := |items| - 1;
      Collect(items[..n], h, disk)[items[n].filename := SingleMd5(items[n], h, disk)]
  }

  /** The collected names are exactly the names of the items. */
  lemma {:induction false} CollectKeys(items: seq<FileItem>, h: Hasher, disk: FileSystem)
    ensures forall k :: k in Collect(items, h, disk) <==> exists i :: 0 <= i < |items| && items[i].filename == k
  {
    if items != [] {
      var n := |items| - 1;
      var front := items[..n];
      CollectKeys(front, h, disk);
      assert Collect(items, h, disk).Keys == Collect(front, h, disk).Keys + {items[n].filename};
      forall k ensures k in Collect(items, h, disk) <==> exists i :: 0 <= i < |items| && items[i].filename == k {
        if k in Collect(front, h, disk) {
          var i :| 0 <= i < |front| && front[i].filename == k;
          assert items[i].filename == k;
        }
        if exists i :: 0 <= i < |items| && items[i].filename == k {
          var i :| 0 <= i < |items| && items[i].filename == k;
          if i < n {
            assert front[i].filename == k;
          }
        }
      }
    }
  }

  /** The names collected from the first `m` items are exactly their names. */
  lemma CollectPrefixKeys(items: seq<FileItem>, m: nat, h: Hasher, disk: FileSystem)
    requires m <= |items|
    ensures forall k :: k in Collect(items[..m], h, disk) <==> exists i :: 0 <= i < m && items[i].filename == k
  {
    CollectKeys(items[..m], h, disk);
    forall k ensures k in Collect(items[..m], h, disk) <==> exists i :: 0 <= i < m && items[i].filename == k {
      if exists i :: 0 <= i < m && items[i].filename == k {
        var i :| 0 <= i < m && items[i].filename == k;
        assert items[..m][i].filename == k;
      }
    }
  }

  /** Each name holds the result of the last item of that name. */
  lemma {:induction false} CollectLatest(items: seq<FileItem>, h: Hasher, disk: FileSystem, i: nat)
    requires i < |items|
    requires forall j :: i < j < |items| ==> items[j].filename != items[i].filename
    ensures items[i].filename in Collect(items, h, disk)
    ensures Collect(items, h, disk)[items[i].filename] == SingleMd5(items[i], h, disk)
  {
    var n := |items| - 1;
    if i < n {
      var front := items[..n];
      assert front[i] == items[i];
      assert forall j :: i < j < |front| ==> front[j] == items[j];
      CollectLatest(front, h, disk, i);
    }
  }

  /** Every result is filed under its own file name. */
  lemma {:induction false} CollectFiledByName(items: seq<FileItem>, h: Hasher, disk: FileSystem)
    ensures forall k :: k in Collect(items, h, disk) ==> Collect(items, h, disk)[k].filename == k
  {
    if items != [] {
      CollectFiledByName(items[..|items| - 1], h, disk);
    }
  }

  /** `len([r for r in results.values() if r.success])`. */
  function SuccessCount(results: map<string, Md5Result>): nat
  {
    |set k | k in results && results[k].success|
  }

  /** `len([r for r in results.values() if not r.success])`. */
  function FailedCount(results: map<string, Md5Result>): nat
  {
    |set k | k in results && !results[k].success|
  }

  /** The statistics count every result once: successes and failures add up to all results. */
  lemma CountsCoverResults(results: map<string, Md5Result>)
    ensures SuccessCount(results) + FailedCount(results) == |results|
  {
    var good := set k | k in results && results[k].success;
    var bad := set k | k in results && !results[k].success;
    assert good + bad == results.Keys;
    assert good * bad == {};
  }

  class ParallelMd5Calculator {
    var cancelled: bool

    constructor ()
      ensures !cancelled
    {
      cancelled := false;
    }

    /** `cancel_calculation`. */
    method CancelCalculation()
      modifies this
      ensures cancelled
    {
      cancelled := true;
    }

    /** `_create_batches`: the slices `items[i:i + batch_size]` for `i` in `range(0, len, batch_size)`. */
    static method CreateBatches<T>(items: seq<T>, batchSize: nat) returns (batches: seq<seq<T>>)
      requires batchSize >= 1
      ensures batches == Chunks(items, batchSize)
      ensures Flatten(batches) == items
      ensures forall b :: 0 <= b < |batches| ==> 1 <= |batches[b]| <= batchSize
      ensures forall b :: 0 <= b < |batches| - 1 ==> |batches[b]| == batchSize
    {
      batches := [];
      var i := 0;
      assert items[0..] == items;
      while i < |items|
        invariant batches + Chunks(items[Min(i, |items|)..], batchSize) == Chunks(items, batchSize)
        decreases |items| - i
      {
        ChunksStep(items, batchSize, i);
        var end := Min(i + batchSize, |items|);
        assert Chunks(items[i..], batchSize) == [items[i..end]] + Chunks(items[end..], batchSize) by {
          if i + batchSize > |items| {
            assert items[i..end] == items[i..];
            assert items[end..] == [];
            assert Chunks(items[end..], batchSize) == [];
          }
        }
        assert (batches + [items[i..end]]) + Chunks(items[end..], batchSize)
            == batches + ([items[i..end]] + Chunks(items[end..], batchSize));
        batches := batches + [items[i..end]];
        i := i + batchSize;
        assert Min(i, |items|) == end;
      }
      assert Chunks(items[Min(i, |items|)..], batchSize) == [];
      assert batches + [] == batches;
      ChunksFlatten(items, batchSize);
      ChunksSizes(items, batchSize);
    }

    /** `_process_batch_parallel`, with the tasks taken in batch order: one result per file. */
    static method ProcessBatch(batch: seq<FileItem>, h: Hasher, disk: FileSystem, maxWorkers: nat)
      returns (batchResults: seq<Md5Result>)
      ensures |batchResults| == |batch|
      ensures forall i :: 0 <= i < |batch| ==> batchResults[i] == SingleMd5(batch[i], h, disk)
    {
      batchResults := [];
      for i := 0 to |batch|
        invariant |batchResults| == i
        invariant forall j :: 0 <= j < i ==> batchResults[j] == SingleMd5(batch[j], h, disk)
      {
        var result := SingleMd5(batch[i], h, disk);
        batchResults := batchResults + [result];
      }
    }

    /** The loop over one batch's results: each is filed under its file name, and every result
        counts one more completed file. */
    static method RecordBatch(items: seq<FileItem>, start: nat, batch: seq<FileItem>, batchResults: seq<Md5Result>,
                              before: map<string, Md5Result>, h: Hasher, disk: FileSystem)
      returns (results: map<string, Md5Result>, completed: nat)
      requires start + |batch| <= |items| && batch == items[start..start + |batch|]
      requires |batchResults| == |batch|
      requires forall k :: 0 <= k < |batch| ==> batchResults[k] == SingleMd5(batch[k], h, disk)
      requires before == Collect(items[..start], h, disk)
      ensures completed == start + |batch|
      ensures results == Collect(items[..completed], h, disk)
    {
      results, completed := before, start;
      for k := 0 to |batchResults|
        invariant completed == start + k
        invariant results == Collect(items[..completed], h, disk)
      {
        assert batch[k] == items[completed];
        assert items[..completed + 1][..completed] == items[..completed];
        results := results[batchResults[k].filename := batchResults[k]];
        completed := completed + 1;
      }
    }

    /** `calculate_md5_parallel`. A call of `cancel_calculation` that arrives before batch number
        `cancelAt` starts stops the run there; the results are those of the files before it, and
        `completed` counts them one by one. */
    method CalculateMd5Parallel(items: seq<FileItem>, h: Hasher, disk: FileSystem, cpuCount: Option<nat>,
                                cancelAt: Option<nat>)
      returns (results: map<string, Md5Result>, completed: nat)
      modifies this
      ensures items == [] ==> results == map[] && completed == 0 && cancelled == old(cancelled)
      ensures items != [] ==>
                (cancelled <==> cancelAt.Some? && cancelAt.value * BatchSizeFor(|items|) < |items|)
      ensures items != [] ==>
                completed == (if cancelled then cancelAt.value * BatchSizeFor(|items|) else |items|)
      ensures completed <= |items|
      ensures results == Collect(items[..completed], h, disk)
      ensures forall k :: k in results <==> exists i :: 0 <= i < completed && items[i].filename == k
    {
      if items == [] {
        assert items[..0] == [];
        return map[], 0;
      }
      cancelled := false;
      var threads := ThreadsFor(|items|, cpuCount);
      var n := BatchSizeFor(|items|);
      var batches := CreateBatches(items, n);
      var stopped;
      results, completed, stopped := RunBatches(items, n, batches, h, disk, threads, cancelAt);
      cancelled := stopped;
      if cancelAt.Some? {
        BatchOffsetIsProduct(cancelAt.value, n);
      }
      CollectPrefixKeys(items, completed, h, disk);
    }

    /** One turn of the loop over the batches: batch `b` is hashed and its results recorded. */
    static method RunBatch(items: seq<FileItem>, n: nat, batches: seq<seq<FileItem>>, b: nat, ghost bound: nat,
                           start: nat, before: map<string, Md5Result>, h: Hasher, disk: FileSystem, threads: nat)
      returns (results: map<string, Md5Result>, completed: nat)
      requires n >= 1 && start <= |items| && b < |batches| && bound == BatchOffset(b, n)
      requires batches[b..] == Chunks(items[start..], n)
      requires start == |items| || start == bound
      requires before == Collect(items[..start], h, disk)
      ensures start < completed <= |items| && completed <= start + n
      ensures completed == |items| || completed == bound + n
      ensures batches[b + 1..] == Chunks(items[completed..], n)
      ensures results == Collect(items[..completed], h, disk)
    {
      var next := ChunkAt(items, n, start, batches, b);
      var batchResults := ProcessBatch(batches[b], h, disk, threads);
      results, completed := RecordBatch(items, start, batches[b], batchResults, before, h, disk);
    }

    /** The loop over the batches, with the cancelled flag read before each batch: the flag is
        found set from batch number `cancelAt` on. */
    static method RunBatches(items: seq<FileItem>, n: nat, batches: seq<seq<FileItem>>, h: Hasher,
                             disk: FileSystem, threads: nat, cancelAt: Option<nat>)
      returns (results: map<string, Md5Result>, completed: nat, stopped: bool)
      requires n >= 1 && batches == Chunks(items, n)
      ensures stopped <==> cancelAt.Some? && BatchOffset(cancelAt.value, n) < |items|
      ensures completed == (if stopped then BatchOffset(cancelAt.value, n) else |items|)
      ensures results == Collect(items[..completed], h, disk)
    {
      results, completed, stopped := map[], 0, false;
      var b := 0;
      ghost var bound := 0;
      assert items[0..] == items && items[..0] == [];
      while b < |batches|
        invariant 0 <= b <= |batches| && 0 <= completed <= |items| && bound == BatchOffset(b, n)
        invariant completed <= bound && (completed == |items| || completed == bound)
        invariant batches[b..] == Chunks(items[completed..], n)
        invariant results == Collect(items[..completed], h, disk)
        invariant cancelAt.Some? ==> cancelAt.value >= b
        decreases |batches| - b
      {
        if cancelAt == Some(b) {
          assert items[completed..] != [];
          stopped := true;
          break;
        }
        results, completed := RunBatch(items, n, batches, b, bound, completed, results, h, disk, threads);
        b := b + 1;
        bound := bound + n;
      }
      if !stopped {
        assert items[completed..] == [];
        if cancelAt.Some? {
          BatchOffsetMonotone(|batches|, cancelAt.value, n);
        }
      }
    }
  }
}
