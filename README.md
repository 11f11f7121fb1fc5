# 2simply DLC manager — a verified model of its core

The DLC manager is a desktop tool that downloads tens of thousands of asset files. It reads a
manifest that maps logical file names to MD5 hashes. Each file is saved locally under the name
`<stem>-<md5><suffix>`. The tool skips files that are already on disk, downloads the rest in
batches with retries, can resume partial downloads with ranged GETs, and checks downloaded files
against their hashes. It also keeps a saved download state that is merged with a new manifest,
a Bloom filter over completed names, per-file-type transfer strategies, and a table model whose
selection survives re-filtering.

This project models that core in Dafny and proves properties of the model. It is organised as
one module per core source file:

- `Models` — `core/models.py`
- `Persistence` — `core/persistence.py`
- `BloomFilters` — `utils/bloom_filter.py`
- `Downloading` — `core/downloader.py`
- `Resume` — `core/resume.py`
- `Verification` — `core/verification.py`
- `Compression` — `core/compression.py`
- `Network` — `core/network.py`
- `FileTable` — `ui/file_table_model.py`

A few small shared modules support them:

- `Wrappers`: `Option` and `Result`.
- `Strings`: ASCII lower-casing, `strip`, substring search, and decimal printing and parsing.
- `Paths`: `pathlib` final component, stem, suffix and join.
- `Selection`: order-preserving selection by flags.
- `Batches`: fixed-size slicing.
- `Disk`: a file system as a map from path to bytes, and the digest as a function parameter.

The model keeps the source's structure. Objects whose fields the source updates in place are
classes:

- `FileItem`, `Downloader`, `FileBloomFilter`;
- `ResumeManager`, `NetworkRecovery`, `SmartResume`;
- `ParallelMd5Calculator`;
- `CompressionOptimizer`, `StreamingOptimizer`, `CompressionManager`;
- `AsyncHttpClient`, `FileTableModel`, and the `FileSystem` that stands for the disk.

Each of their methods carries `modifies` clauses. A method on a single object states that
object's complete new state. The downloader's methods over lists of records state the flag, the
disk and the results in full. For the records themselves they state what each record ends as:
completed at its local path, or failed once its attempts ran out. They do not state every field
of every record. Loops are methods with invariants, proved against specification functions.
Pure decisions are functions.

Things outside the program become parameters:

- the directory scan, a map from name to size;
- the transfer outcome of each attempt;
- the HTTP reply;
- the MD5 digest;
- read failures;
- the decompressors;
- the current time.

## Model

| member | source | states |
|---|---|---|
| Models.StatusOfLabel | core/models.py:10-17 | The status whose label is the text, if there is one; every label names exactly one status. |
| Models.FileItem.constructor | core/models.py:20-37 | A new record is PENDING, with no progress or size, no path, error or URL, the disk-cache fields at their defaults, and its local name fixed by the naming rule. |
| Models.FileItem.FromRecord | core/persistence.py:163-173 | A record rebuilt from the state file holds the saved fields exactly, and its disk-cache fields are at their defaults. |
| Models.FileItem.ResetProgress | core/models.py:69-74 | Progress 0, downloaded size 0, PENDING and no error; size, local path, URL and cache fields are unchanged. |
| Models.FileItem.MarkCompleted | core/models.py:76-83 | COMPLETED, progress 100 and the given local path. Size and downloaded size become the on-disk size only when the file exists; otherwise they are unchanged, and so is everything else. |
| Models.FileItem.MarkFailed | core/models.py:85-88 | Only the status (FAILED) and the error message change. |
| Models.FileItem.MarkSkipped | core/models.py:90-93 | Only the status (SKIPPED) and the error message (the reason) change. |
| Models.FileItem.FileExtension | core/models.py:39-42 | The suffix of the final path component, lower-cased: empty, or a dot and at least one more character, with no upper-case letter left. |
| Models.FileItem.BaseFilename | core/models.py:44-47 | The stem of the final path component: followed by the suffix it gives back that component, and it holds no "/". |
| Models.FileItem.IsBinaryFile | core/models.py:54-67 | Only a name with an extension can be binary: a true result means the lower-cased extension is a dot and at least one character. |
| Models.FileItem.UpdateDiskMetadata | core/models.py:95-106 | A readable file sets mtime, size, the verified flag and the check time, after which the cache is valid for every age limit. A stat failure clears only the verified flag. A missing file changes nothing. |
| Models.FileItem.IsCacheValid | core/models.py:108-130 | True iff the record was verified, has a check time within the age limit, and the file still exists with the recorded mtime and size. |
| Models.FullFilenameDeterminesMd5 | core/models.py:49-52 | Two records with the same logical name and the same local name have the same hash, so versions never collide. |
| Models.FullFilenameOfPlainName | core/models.py:39-67 | For a plain name with one dot, the local name is the stem in its own case, "-", the hash, and the lower-cased suffix ("test.json" with "abc123def456" gives "test-abc123def456.json"). The file is binary iff that suffix is in the extension set. |
| Models.PostInit | core/models.py:167-180 | Each non-positive sizing field is replaced by its fallback (1/60/1/8192/100/50). The result is valid, and every other field is kept. |
| Models.OrFallback | core/models.py:167-180 | A positive value is kept; any other value becomes the fallback; the result is at least 1. |
| Models.PostInitIdempotent | core/models.py:167-180 | Post-initialisation is idempotent and leaves an already valid configuration alone. |
| Models.CountLarger | core/models.py:210 | Counts the records with a known size above the threshold: it equals the number of records exactly when every record has one, and is 0 exactly when none has. |
| Models.CountSmaller | core/models.py:211 | The same two equivalences for records with a known, non-zero size below the threshold. |
| Models.CountEndingWith | core/models.py:254-255 | The same two equivalences for logical names ending in the extension. |
| Models.OptimalBatchSize | core/models.py:182-221 | 1 when nothing is to be downloaded; always at least 1 and at most max(100, batch_size); the configured size when more than 200 files are to be downloaded, none is skipped and no list is given. |
| Models.OptimalConcurrentRequests | core/models.py:223-265 | Equal to files_to_download when that is at most 5; otherwise between 5 and max(5, concurrent_requests). |
| Models.TimeoutForSize | core/models.py:267-280 | min(max(180, ⌊size·10/2^20⌋), 2·timeout) above the large threshold; max(60, timeout div 2) below the small one; the timeout otherwise and for unknown or zero sizes. |
| Models.TimeoutMonotone | core/models.py:271-275 | Among large files, a bigger file never gets a shorter timeout, and none gets more than twice the base. |
| Models.AdaptiveTimeout | core/models.py:267-280 | With no record, the base timeout; otherwise the timeout for the record's size. |
| Models.ChunkForSize | core/models.py:282-294 | min(65536, 2·chunk) above the large threshold; max(8192, chunk div 2) below the small one; the chunk size otherwise. |
| Models.ChunkSizesOrdered | core/models.py:286-292 | With a configured chunk between 8 KiB and 64 KiB, sizes are ordered small ≤ medium ≤ large within [8192, 65536]. |
| Models.AdaptiveChunkSize | core/models.py:282-294 | With no record, the base chunk; otherwise the chunk for the record's size. |
| Models.CreateNetworkConfig | core/models.py:296-323 | HTTP/2 iff both switches are on. Connection limits follow the >10000 and <100 rules. Timeout is the base; connect and read timeouts are min(30, t div 6) and min(60, t div 3). |
| Models.NetworkConfigSane | core/models.py:296-323 | A valid configuration gives at least one connection and keep-alive slot, and connect and read timeouts no longer than the total. |
| Paths.FinalName | core/models.py:42-47 | The last path component that is not empty or ".", as `Path.name`. |
| Paths.Suffix | core/models.py:42 | `Path.suffix`: from the last dot when it is neither first nor last. |
| Paths.Stem | core/models.py:47 | `Path.stem`: the name up to that dot; stem + suffix is the final name. |
| Paths.Join | core/downloader.py:257 | `output_dir / name`. |
| Batches.ChunksFlatten | core/downloader.py:186-189 | The batches of a list, joined in order, give back the list. |
| Batches.ChunksSizes | core/verification.py:294-296 | No batch is empty or longer than the batch size, and all but the last are exactly that long. |
| Batches.BatchOffsetIsProduct | core/downloader.py:186-188 | The start of batch b is b·batch_size. |
| Disk.FileSystem.Write | core/resume.py:245 | Opening with 'wb' and writing: the file holds exactly the data, and every other file is unchanged. |
| Disk.FileSystem.Append | core/resume.py:106 | Opening with 'ab' and writing: the data follows the old contents, or starts a new file; nothing else changes. |
| Disk.FileSystem.Unlink | core/resume.py:216 | `unlink(missing_ok=True)`: only that file is gone afterwards. |
| Strings.Strip | core/persistence.py:20 | `str.strip()`: the slice of the text that starts after its leading white space and has only white space after it; it neither starts nor ends with white space. |
| Strings.StripStripped | core/persistence.py:20 | Text without surrounding white space is left unchanged. |
| Strings.ParseIntToString | core/network.py:211-215 | `int(str(n)) == n` for every integer. |
| Persistence.TidyRemovesOneComma | core/persistence.py:22-26 | The tidying removes at most one comma, and putting it back restores the text. The text is unchanged iff it ends in neither "," nor ",}". |
| Persistence.CleanManifestKeepsWellFormed | core/persistence.py:19-26 | Stripped text without a trailing comma is parsed as it is. |
| Persistence.CleanManifestDanglingComma | core/persistence.py:23-24 | A text ending in ",}" loses exactly that comma. |
| Persistence.CleanManifestTrailingComma | core/persistence.py:25-26 | A text ending in "," loses exactly that comma. |
| Persistence.LoadFileMapping | core/persistence.py:16-38 | A read or parse error becomes "加载文件映射失败: …"; otherwise one fresh PENDING record per manifest entry, in manifest order, with its filename and md5. |
| Persistence.NewRecords | core/persistence.py:30-33 | One new PENDING record per manifest entry, in manifest order, holding its filename and md5. |
| Persistence.PriorIndex | core/persistence.py:61-67 | Every saved record's (filename, md5) key is in the index; each entry is a saved record under its own key; a key held by one record only maps to that record. |
| Persistence.Tally | core/persistence.py:77-101 | The per-kind counts of the first n entries, with nothing removed yet. |
| Persistence.TallySum | core/persistence.py:77-101 | existing + updated + new equals the number of entries. |
| Persistence.TallyNoExisting | core/persistence.py:80-84 | No entry counts as existing iff none of their keys was saved. |
| Persistence.MergeWithState | core/persistence.py:72-107 | One record per entry, in manifest order. An entry with a saved key keeps the saved record; any other gets a fresh PENDING record. Counts follow the classification; removed counts the saved keys absent from the manifest; the three counts sum to the entries. |
| Persistence.MergeEntry | core/persistence.py:78-101 | An entry with a saved key keeps that record; otherwise a fresh PENDING record, "updated" when the name was saved with another hash, else "new". |
| Persistence.SameNameSaved | core/persistence.py:88-95 | True iff some saved key has this filename. |
| Persistence.CountRemoved | core/persistence.py:103-107 | The number of prior keys not in the current manifest. |
| Persistence.RemovedStep | core/persistence.py:105-107 | Taking one key out of the unvisited set adds one to the count exactly when it is absent from the manifest. |
| Persistence.LoadFileMappingWithStateDiff | core/persistence.py:40-112 | Read and parse errors are wrapped. Otherwise one record per manifest entry, in order: an entry whose (filename, md5) was saved gets the saved record itself, and every other entry a pending record with that filename and hash and every other field at its default; the counts are those of the merge. A failed or missing state behaves as empty, so every entry counts as new. |
| Persistence.NothingSavedCounts | core/persistence.py:68-70 | Against an empty state, every entry is new and nothing else is counted. |
| Persistence.DecodeStatus | core/persistence.py:156-161 | The status whose label is saved; PENDING for a missing, non-string or unknown label. |
| Persistence.DecodeRecord | core/persistence.py:163-173 | A record needs string "filename" and "md5". The status follows the label rule, a missing downloaded size is 0, and the local path is absent iff the saved value is falsy. |
| Persistence.DecodeEncodeRecord | core/persistence.py:117-134 | Reading back a saved record gives the same record, for any local path other than "". |
| Persistence.EncodedFields | core/persistence.py:123-133 | The saved dictionary holds each of the nine fields. |
| Persistence.DecodeFields | core/persistence.py:163-173 | Any dictionary holding those fields decodes to the record. |
| Persistence.EncodeAll | core/persistence.py:122-134 | One saved dictionary per record, in order. |
| Persistence.DecodeAll | core/persistence.py:155-174 | When loading succeeds, each entry of "files" is an object that decodes to the record at its position. |
| Persistence.DecodeAllOf | core/persistence.py:155-174 | A list whose every entry decodes gives exactly those records. |
| Persistence.DecodeState | core/persistence.py:150-179 | A failure carries the "加载状态失败: " prefix. |
| Persistence.NonListFiles | core/persistence.py:155 | A "files" value that is not a list loads no records when it is an empty object or empty text, which Python iterates as nothing, and fails for any other value. |
| Persistence.DecodeEncodeState | core/persistence.py:114-176 | Saving records with a non-empty output directory and loading them back gives the same records and directory. |
| Persistence.DecodeDocument | core/persistence.py:150-176 | A document with a directory and a decodable list loads those records and that directory. |
| Persistence.DecodeEncodeAll | core/persistence.py:155-174 | The saved list reads back to the records. |
| Persistence.SaveState | core/persistence.py:114-142 | A write error becomes "保存状态失败: …"; otherwise the document holds the directory and the records in list order. |
| Persistence.Snapshots | core/persistence.py:122-134 | The saved fields of each record, position by position. |
| Persistence.SnapshotsAppend | core/persistence.py:122-134 | Saving one more record appends its fields. |
| Persistence.EncodeAllAppend | core/persistence.py:122-134 | Encoding one more record appends its dictionary. |
| Persistence.LoadState | core/persistence.py:144-179 | No state file gives ([], None). A parse error is wrapped. Otherwise the load succeeds iff the document decodes, giving one fresh record per saved entry, holding it and not disk-verified, plus the directory. |
| Persistence.RestoreItems | core/persistence.py:153-174 | One fresh record per saved entry, in order, holding that entry, not disk-verified, with no mtime or check time and the default cache version. |
| Persistence.RestoredStep | core/persistence.py:163-174 | Appending the record for the next entry keeps the restored list aligned with the saved entries. |
| Persistence.CountStatus | core/persistence.py:198-210 | The number of records in a status is at most the list length. |
| Persistence.StatusCountsSum | core/persistence.py:186-212 | Every record has exactly one of the six statuses: the six counts sum to the length. |
| Persistence.GetStatistics | core/persistence.py:186-212 | 'total' is the length, each per-status count is the number of records in that status, and the six counts sum to 'total'. |
| Persistence.GetTotalSize | core/persistence.py:214-224 | The sum of the known non-zero sizes and the sum of the downloaded sizes. |
| Persistence.DownloadedWithinTotal | core/persistence.py:214-224 | When every record knows its size and has downloaded no more than it, the downloaded total lies within the size total. |
| Persistence.WithStatus | core/persistence.py:248-249 | Keeps exactly the records in the status, never more than the input. |
| Persistence.WithText | core/persistence.py:252-257 | Keeps exactly the records whose lower-cased filename or md5 contains the needle. |
| Persistence.FilterFiles | core/persistence.py:241-259 | Every result passes both filters and comes from the input; every input record that passes is kept; no filter and empty text return the input unchanged. |
| Persistence.FilterFilesConcat | core/persistence.py:241-259 | Filtering preserves order: it distributes over concatenation. |
| Persistence.FilterFilesSnoc | core/persistence.py:241-259 | Filtering a list is filtering all but its last record, then filtering the last one alone. |
| Persistence.WithStatusConcat | core/persistence.py:248-249 | The status filter distributes over concatenation. |
| Persistence.WithTextConcat | core/persistence.py:252-257 | The search filter distributes over concatenation. |
| BloomFilters.ByteCount | utils/bloom_filter.py:36 | ⌈m/8⌉: enough bytes for m bits, and no more than needed. |
| BloomFilters.SetBit | utils/bloom_filter.py:62-64 | `bits[i//8] \|= 1 << (i%8)` keeps the length, turns bit i on and leaves every other bit as it was. |
| BloomFilters.MasksDisjoint | utils/bloom_filter.py:63-64 | Setting one offset of a byte does not change any other offset. |
| BloomFilters.ClearedHasNoBits | utils/bloom_filter.py:36 | A fresh byte array has no bit set. |
| BloomFilters.CompletedNames | utils/bloom_filter.py:135-140 | The collected names are at most as many as the records. |
| BloomFilters.CompletedNamesExactly | utils/bloom_filter.py:135-140 | A name is collected iff it is the full name of a COMPLETED, disk-verified record. |
| BloomFilters.NonEmptyIffCompleted | utils/bloom_filter.py:135-140 | Some name is collected iff some record is completed and verified. |
| BloomFilters.FileBloomFilter.Probe | utils/bloom_filter.py:51-56 | Each probe lies below m, so its byte lies within the ⌈m/8⌉ bytes. |
| BloomFilters.FileBloomFilter.Membership | utils/bloom_filter.py:167-171 | One membership verdict per record. |
| BloomFilters.FileBloomFilter.Added | utils/bloom_filter.py:60-64 | Adding probes keeps the array length. |
| BloomFilters.FileBloomFilter.AddedAll | utils/bloom_filter.py:80-83 | Adding a list keeps the array length. |
| BloomFilters.FileBloomFilter.AddedBits | utils/bloom_filter.py:60-64 | After n probes, a bit is set iff it was set before or is one of the n probed bits. |
| BloomFilters.FileBloomFilter.AddedMembers | utils/bloom_filter.py:58-78 | After the k probes of an item, it is a member (no false negatives), and every earlier member stays one. |
| BloomFilters.FileBloomFilter.AddedKeepsMembers | utils/bloom_filter.py:58-78 | Adding an item keeps all earlier additions members and makes the new item one. |
| BloomFilters.FileBloomFilter.constructor | utils/bloom_filter.py:122-125 | All bits clear over ⌈m/8⌉ bytes, count 0, not built and no timestamp, so not a valid cache. |
| BloomFilters.FileBloomFilter.SetProbes | utils/bloom_filter.py:60-64 | The loop sets exactly the k probed bits of the item. |
| BloomFilters.FileBloomFilter.Add | utils/bloom_filter.py:58-66 | Sets the k probed bits; the count grows by exactly 1, duplicates included. The item becomes a member and every earlier member stays one. |
| BloomFilters.FileBloomFilter.IsCacheValid | utils/bloom_filter.py:175-177 | True only for a filter built from the completed files that holds at least one item. |
| BloomFilters.FileBloomFilter.CacheValidIffAdded | utils/bloom_filter.py:175-177 | Under the filter's invariant, the cache is valid exactly when it was built from the completed files and some name was added. |
| BloomFilters.FileBloomFilter.Contains | utils/bloom_filter.py:68-78 | True iff every probed bit is set, and true for every item added since the last clear. |
| BloomFilters.FileBloomFilter.AddMultiple | utils/bloom_filter.py:80-83 | Adds the items in order; the count grows by their number, and each of them is a member. |
| BloomFilters.FileBloomFilter.Clear | utils/bloom_filter.py:131-133 | A fresh cleared array and a zero count. |
| BloomFilters.FileBloomFilter.BuildFromCompletedFiles | utils/bloom_filter.py:127-155 | Clears, then adds exactly the full names of the completed, verified records. The count equals their number and each is a member. The filter is marked built; the cache is valid iff some record qualified. |
| BloomFilters.FileBloomFilter.BuiltFrom | utils/bloom_filter.py:127-155 | A filter holding exactly the collected names has every completed record as a member, and a non-zero count iff one exists. |
| BloomFilters.FileBloomFilter.MarkBuilt | utils/bloom_filter.py:145-146 | Sets the built flag and the timestamp and keeps the bits and the count. |
| BloomFilters.FileBloomFilter.CollectCompleted | utils/bloom_filter.py:135-140 | The loop collects exactly the specified names, in order. |
| BloomFilters.FileBloomFilter.FastPreFilter | utils/bloom_filter.py:157-173 | An order-preserving, lossless split into members and non-members (their multisets add up to the input). No name added since the last build is definitely new. |
| BloomFilters.FileBloomFilter.NoAddedNameIsNew | utils/bloom_filter.py:165-171 | A record that fails the membership test was never added. |
| Selection.SelectPartitions | utils/bloom_filter.py:167-171 | Selecting the flagged and the unflagged elements partitions the input: the two multisets add up to it. |
| Selection.SelectComplete | core/downloader.py:79-83 | Every element whose flag has the wanted value is selected. |
| Selection.SelectWithin | core/downloader.py:79-83 | Every selected element comes from the input. |
| Selection.SelectSidesDisjoint | core/downloader.py:79-83 | No element lands on both sides of a split of distinct records. |
| Downloading.Presence | core/downloader.py:79-80 | One flag per record: its full name was scanned and its size is unknown or equal to the scanned size. |
| Downloading.DownloadUrlNamesLocalFile | core/downloader.py:256-257 | The URL is `<base>/<full_filename>`: the remote file has the local file's name. |
| Downloading.UrlOfParts | core/downloader.py:256-257 | A URL assembled from the stem, hash and extension of a local name is the base, "/" and that name, which is what follows the base and the slash. |
| Downloading.RetryRun | core/downloader.py:272-289 | No attempt iff max_retries is not positive. Otherwise the first attempt that does not raise decides, or every attempt raised and the last is attempt max_retries − 1. |
| Downloading.AfterAttemptsOnlyPath | core/downloader.py:306-326 | The attempts write the local path only: every other file keeps its contents and a file there stays there. |
| Downloading.SingleStepSucceeded | core/downloader.py:246-289 | A success happens only in a run not cancelled and leaves a file at the local path; with no file there before, only a completed transfer succeeds and the file holds its data. |
| Downloading.LeftoverCountsAsDownloaded | core/downloader.py:265-269 | When every attempt failed after one left a partial file, the call fails, but the next call for that record succeeds at once without a transfer, because only existence is checked. |
| Downloading.SingleStepKeepsFiles | core/downloader.py:246-289 | One call of `_download_single_file` removes no file. |
| Downloading.RunJobsConcat | core/downloader.py:194-217 | Running two lists of downloads one after the other is running their concatenation: results, flag and disk agree. |
| Downloading.RunJobsCancelled | core/downloader.py:248-249 | A run that starts cancelled fails every download, stays cancelled and leaves the disk alone. |
| Downloading.RunJobsKeepsFiles | core/downloader.py:194-217 | No file is removed by a run of downloads. |
| Downloading.RunJobsSucceeded | core/downloader.py:194-217 | Every download of a run that succeeded has a file at its local path at the end. |
| Downloading.AllSucceeded | core/downloader.py:119-124 | Exactly the given filenames are keys, each mapping to True. |
| Downloading.SuccessCount | core/downloader.py:234 | All results count as successes exactly when every result is True, and none exactly when every result is False. |
| Downloading.CountsCoverResults | core/downloader.py:234-235 | The failed count, the number of results less the success count, is exactly the number of False results. |
| Downloading.RecordedKeys | core/downloader.py:209-217 | After recording, a filename is a key iff it was before or some entry carries it; untouched keys keep their values. |
| Downloading.RecordedLatest | core/downloader.py:209-217 | A filename holds the result of its last entry. |
| Downloading.RecordedConcat | core/downloader.py:194-217 | Recording batch after batch is recording their concatenation. |
| Downloading.RecordedLast | core/downloader.py:209-217 | Recording one more entry is a single map update with that entry's filename and result. |
| Downloading.Downloader.constructor | core/downloader.py:28-34 | The given configuration, or the defaults; not cancelled and not downloading. |
| Downloading.Downloader.CancelDownload | core/downloader.py:339-342 | Sets the cancelled flag and clears the downloading flag. |
| Downloading.Downloader.BatchCheckExistingFiles | core/downloader.py:36-91 | A cancelled run classifies nothing. Otherwise the split is order-preserving and lossless: a record is existing iff its full name was scanned with a matching or unknown size, and no record lands on both sides. |
| Downloading.Downloader.DownloadSingleFile | core/downloader.py:246-311 | The flag, the disk and the result are those of one step: a cancelled run returns False and touches nothing; an existing local file completes the record; otherwise each attempt that opened the file leaves what it wrote, the first attempt that does not raise decides, only a completed transfer succeeds and only a stopped one sets the flag; when every attempt raises the record is FAILED with the last message; with max_retries ≤ 0 it returns False, left DOWNLOADING. A True result leaves the record as `mark_completed` does (MarkedFrom): COMPLETED at its local path with the file on the disk, progress 100.0, and size and downloaded_size equal to that file's length; such a record stays completed; an uncancelled False leaves it FAILED (with max_retries ≥ 1); no file is taken off the disk. The record's mtime, disk-verified flag, check time and cache version are kept on every path; its error message is kept except when every attempt raised, and its local path except on completion. Size, progress and downloaded_size after a stopped or failed run are under "## Left out". |
| Downloading.Downloader.RetryDownload | core/downloader.py:271-289 | The retry loop is one retry step: attempts run until one does not raise or the attempts are used up; each opened attempt leaves what it wrote, a completed transfer succeeds with the written data on disk and the record COMPLETED at that path with progress 100.0 and both sizes equal to the data's length, a stopped one sets the flag, when every attempt raises the record is FAILED with the last message; with max_retries ≤ 0 it fails and leaves the record DOWNLOADING. The URL and the four disk-cache fields are kept; the error message is kept except when every attempt raised, and the local path except on completion. Callers reach it only when the run is not cancelled. Size, progress and downloaded_size after a stopped or failed run are under "## Left out". |
| Downloading.Downloader.MarkExisting | core/downloader.py:119-124 | Each existing record is COMPLETED at its local path with progress 100.0 and its filename maps to True; no other key is added. When that path is on the disk, `size` and `downloaded_size` are the file's length; otherwise both keep their old values (`mark_completed`, core/models.py:76-83). The error message, the URL and the four disk-cache fields of every record are kept. |
| Downloading.Downloader.DownloadBatch | core/downloader.py:201-217 | The results, the flag and the disk are those of the batch's downloads run in turn from the starting state; each record's result is recorded under its filename in order; once cancelled, every result is False and the disk is left alone. Every record whose download returned True is COMPLETED at its local path, with that file on the disk. Unless the run was cancelled, every other record is FAILED (with max_retries ≥ 1). These two facts keep holding for the records of earlier batches. |
| Downloading.Downloader.AdvanceJob | core/downloader.py:201-217 | Downloading the record after the first k of a batch runs and records the first k + 1. |
| Downloading.Downloader.DownloadBatches | core/downloader.py:186-225 | Batches run in order until one would start after a cancellation. The files attempted are a prefix of the list, all of it unless cancelled, and otherwise end at the start of a batch. The flag, disk and results are those of downloading that prefix in turn. Each attempted record that returned True is COMPLETED at its local path with the file on the disk; unless cancelled, each one that returned False is FAILED. |
| Downloading.Downloader.RunBatchAt | core/downloader.py:194-217 | One turn of the batch loop extends the downloaded prefix by the next batch, keeping the loop's relation to the prefix run and the completed-or-failed state of every record in it. |
| Downloading.Downloader.AdvanceRun | core/downloader.py:194-217 | Running one more batch after a prefix runs and records the longer prefix. |
| Downloading.Downloader.DownloadFiles | core/downloader.py:93-244 | An empty list returns {} and changes nothing. Otherwise the scan splits the records. The existing ones are completed as MarkExisting states and map to True unless re-downloaded. The results, the flag and the disk are those of downloading a prefix of the rest in turn, all of it unless cancelled. Each downloaded record that returned True is COMPLETED at its local path with the file on the disk; unless cancelled, each that returned False is FAILED. Every key is an input filename, every input filename has a result unless cancelled, and the run ends with is_downloading False. |
| Downloading.Downloader.DownloadSorted | core/downloader.py:115-231 | The part after the scan: completion of the existing records (as MarkExisting states, on the disk as it was), then the batches, with the same relation to the downloads run in turn and the same completed-or-failed state of each downloaded record; the `finally` clause leaves is_downloading False, and a cancelled run stays cancelled. |
| Downloading.Downloader.DownloadRest | core/downloader.py:140-231 | No file to download leaves the results and the disk as they are; otherwise the batches run as DownloadBatches states. Either way is_downloading ends False, and the downloaded records end completed or failed as DownloadBatches states. |
| Downloading.Downloader.RunOutcome | core/downloader.py:119-231 | The results of the two loops combined: keys, the value for existing records, and where every key came from. |
| Downloading.Downloader.EveryResultFromInput | core/downloader.py:119-231 | Every result key is an input filename, and all input filenames have one once every batch ran. |
| Resume.IsValid | core/resume.py:28-32 | True iff the record is within the age limit and the file exists with exactly the downloaded byte count. |
| Resume.RangeFrom | core/resume.py:90-92 | `bytes=<n>-`: the prefix, only digits, and the trailing dash (a byte-range-spec of section 2.1 of RFC 7233). |
| Resume.RangeFromRoundTrip | core/resume.py:90-92 | The first byte position reads back as the local size. |
| Resume.RangeFromInjective | core/resume.py:90-92 | Different local sizes ask for different ranges. |
| Resume.ResumeManager.constructor | core/resume.py:38-40 | The given threshold and an empty cache. |
| Resume.ResumeManager.ShouldResume | core/resume.py:61-77 | False for a missing file or one below min_resume_size, and false when the size is known and already reached; true otherwise. |
| Resume.ResumeManager.ResumeDownload | core/resume.py:79-121 | Nothing when not worth resuming. Otherwise one request with `Range: bytes=<local size>-` is counted. Success iff 416 arrives, or 206 with an unbroken body; 206 appends the body, counts its bytes on the client and updates progress; any other status or exception leaves the disk alone. Progress and downloaded size become the new file length and its share of the size only on a 206 with a body and a known size, and stay as they were otherwise; the size and every field the method never assigns are kept, and so is the connection-reuse counter. |
| Resume.ResumeOnlyAppends | core/resume.py:106-121 | A resume keeps every file name, leaves other files alone, and the old contents of the file are a prefix of the new. |
| Resume.WrittenFiles | core/resume.py:242-268 | Only the path changes: a binary file holds the bytes that arrived, a text file the re-encoded whole body, and a text file whose stream broke is not written. |
| Resume.FullOutcomeIntact | core/resume.py:234-280 | A full download returns True iff a 200 reply with a readable length streamed to its end and the written file passes the integrity check; success leaves that file intact, a checked failure leaves no file at the path, no other file changes, and every failure carries the prefix. |
| Resume.ResumeManager.VerifyIntegrity | core/resume.py:133-147 | False when the file is missing or a known size differs; otherwise a case-insensitive digest comparison, or true when there is no hash. |
| Resume.IntegrityIgnoresCase | core/resume.py:143-145 | Hashes that differ only in letter case, or digests that do, give the same verdict. |
| Resume.Backoff | core/resume.py:169 | The wait is never above 16 seconds. |
| Resume.BackoffMonotone | core/resume.py:169 | Later retries never wait less. |
| Resume.Backoffs | core/resume.py:160-171 | The waits after the first n failures, one per failure. |
| Resume.DefaultBackoffs | core/resume.py:153-171 | With a one-second base the waits are 1, 2, 4 and 8, and from the fifth failure on they are capped at 16. |
| Resume.RecoverBounds | core/resume.py:157-175 | At most max_retries attempts, at least one when allowed; Python's None comes back iff no attempt is allowed. |
| Resume.RecoverLastAttempt | core/resume.py:160-175 | The last attempt decides the outcome and every earlier one raised a network error. |
| Resume.NetworkRecovery.constructor | core/resume.py:153-155 | The given retry count and base delay. |
| Resume.NetworkRecovery.DownloadWithRecovery | core/resume.py:157-175 | The loop returns the outcome and number of calls of the recovery specification, and sleeps the backoff sequence between them. |
| Resume.ClassifyError | core/resume.py:177-188 | timeout, then connection, then "HTTP 5" → server_error, then "HTTP 4" → client_error, else unknown, with each result's exact condition. |
| Resume.FullFailure | core/resume.py:279-280 | "完整下载失败: " followed by the message. |
| Resume.ServerStatusIsServerError | core/resume.py:235-236 | A full download refused with a 5xx status is classified as a server error. |
| Resume.SmartResume.constructor | core/resume.py:195-197 | A 2 MiB resume threshold, five attempts and a one-second base. |
| Resume.SmartResume.FullDownload | core/resume.py:224-280 | One GET, counted, asking for compression iff the name ends in ".json"; the bytes streamed from a 200 reply with a readable length are counted. The result, the new size and the disk are `FullOutcome`: a failed request, a status other than 200 ("HTTP <status>") or an unreadable length raise before writing; otherwise a non-zero length becomes the size, the body is written, and True comes back exactly when an unbroken stream left a file that passes the integrity check, a failing file being removed. Every failure carries the full-download prefix. Progress and downloaded size follow the save of the final chunk (`FullCounters`) and stay as they were when nothing is saved; the other unassigned fields and the connection-reuse counter are kept. |
| Resume.SmartResume.Receive | core/resume.py:234-277 | The status check, the length, then saving and checking: the outcome, size and disk are `FullOutcome` of the reply, as for the full download; progress and downloaded size are `FullCounters` and the other unassigned fields are kept. |
| Resume.SmartResume.SaveAndVerify | core/resume.py:242-277 | `SavedAndChecked`: a broken stream raises and leaves what was written; otherwise True exactly when the written file passes the integrity check, and a file that fails it is removed before raising "文件完整性验证失败". Progress and downloaded size are those of `SaveBody`; the other fields are kept. |
| Resume.SmartResume.ReadContentLength | core/resume.py:239-240 | The Content-Length header's value, as the response reports it. |
| Resume.SmartResume.SaveBody | core/resume.py:242-270 | A binary file is written as it arrives and its progress updated; a text file is written decoded, only when it arrived whole, with progress 100. `SavedCounters`: a binary body that is empty or of unknown size, and a broken text body, leave progress and downloaded size as they were; the size and every other field are kept. |
| Resume.SmartResume.SmartDownload | core/resume.py:199-222 | The resume succeeds iff it was worth trying and got 416, or 206 with an unbroken body. A successful resume whose file passes the integrity check returns True with the body appended; one that fails the check removes the file. Otherwise the full download runs from that disk, and the result, the size and the disk are its `FullOutcome`: True exactly when a 200 reply streamed whole and the written file passes the check, and the full download's exception otherwise. Requests count one per attempt made; the bytes counted are those of the resumed body plus, when the full download ran, its streamed body; connection reuse is unchanged. Progress and downloaded size are those of the resume, passed through `FullCounters` when the full download ran; status, local path and the other unassigned fields are kept. |
| Resume.SmartResume.TryResume | core/resume.py:203-215 | Resuming happens only when worth it; it succeeds on 416 or an unbroken 206; the download is done iff it succeeded and the resumed file passes the integrity check, and a resumed file that fails the check is removed. The size, the status, the local path and the other unassigned fields are kept; progress and downloaded size are `ResumedCounters`; the counted bytes grow by the resumed body only. |
| Resume.SmartResume.FullFallback | core/resume.py:217-222 | The full download through the recovery wrapper: its outcome, size and disk are `FullOutcome`, and its one attempt decides the result. The counted bytes grow by the streamed body, connection reuse is unchanged, progress and downloaded size are `FullCounters`, and status, local path and the other unassigned fields are kept. |
| Verification.CpuCores | core/verification.py:257 | `os.cpu_count() or 4`: at least 1, and the reported count when it is non-zero. |
| Verification.ThreadsFor | core/verification.py:254-269 | min(n, 4) for n < 10, min(base div 2, 16) for n < 100, base otherwise, with base = min(4·cores, 32). Never above 32, and at least 1 for a non-empty list. |
| Verification.BatchSizeFor | core/verification.py:271-289 | Never above 50 or the file count; at least 1 for a non-empty list; between 15 and 30 from 200 files on. |
| Verification.SingleMd5 | core/verification.py:146-192 | A missing file fails with "文件不存在"; a read or hash failure fails with "计算MD5失败: …". Otherwise success with the size and lower-cased hashes, where the error is empty iff the hashes match. |
| Verification.SingleMd5IgnoresCase | core/verification.py:168-170 | The verdict does not depend on the letter case of the expected hash. |
| Verification.CollectKeys | core/verification.py:76-77 | The collected names are exactly the names of the records. |
| Verification.CollectPrefixKeys | core/verification.py:76-77 | The same for the first m records. |
| Verification.CollectLatest | core/verification.py:76-77 | Each name holds the result of the last record of that name. |
| Verification.CollectFiledByName | core/verification.py:76-77 | Every result is filed under its own filename. |
| Verification.CountsCoverResults | core/verification.py:298-304 | successful + failed equals the number of results. |
| Verification.ParallelMd5Calculator.constructor | core/verification.py:38-41 | Not cancelled. |
| Verification.ParallelMd5Calculator.CancelCalculation | core/verification.py:319-321 | Sets the cancelled flag. |
| Verification.ParallelMd5Calculator.CreateBatches | core/verification.py:291-296 | The slices of the input: they concatenate to it, are non-empty and at most batch_size long, and all but the last are exactly batch_size. |
| Verification.ParallelMd5Calculator.ProcessBatch | core/verification.py:97-144 | One result per record of the batch, each that record's single-file result. |
| Verification.ParallelMd5Calculator.RecordBatch | core/verification.py:76-78 | Filing one batch's results extends the collected map by that batch and the completed count by its length. |
| Verification.ParallelMd5Calculator.CalculateMd5Parallel | core/verification.py:43-95 | An empty list returns {}. Otherwise the run stops before the first batch after a cancellation, and it is cancelled iff that batch exists. Completed is the number of files in the batches run, and the results are those of exactly those files, keyed by filename. |
| Verification.ParallelMd5Calculator.RunBatch | core/verification.py:64-78 | One batch advances the completed count by its length and collects its results. |
| Verification.ParallelMd5Calculator.RunBatches | core/verification.py:64-89 | The batch loop stops iff the cancellation batch starts inside the list; it has then run the files before that batch, and all of them otherwise. |
| Compression.CategorizeFile | core/compression.py:99-117 | JSON iff the lower-cased name ends in ".json"; PNG iff it ends in ".png" and not ".json". JSON is small below 100 KiB; PNG is small below 500 KiB and large from 2 MiB. |
| Compression.ShouldCompress | core/compression.py:120-132 | True iff forced and the file is JSON. |
| Compression.OptimalHeaders | core/compression.py:135-152 | Accept-Encoding iff JSON, with the preferred encoding. Accept iff not OTHER, as application/json or image/png. Range: bytes=0- iff PNG_LARGE. No other header. |
| Compression.StreamingOptimizer.constructor | core/compression.py:284-285 | The given configuration. |
| Compression.StreamingOptimizer.ShouldUseStreaming | core/compression.py:350-363 | For medium or large PNG, size ≥ png_stream_threshold; for large JSON, size ≥ 500 KiB; false otherwise. |
| Compression.StreamingOptimizer.OptimizePngStreaming | core/compression.py:287-348 | Anything but a medium or large PNG returns False untouched. A medium or large PNG whose local file could not be opened returns False with the disk unchanged; once the file is opened, the bytes received are written and the result is True iff the stream did not fail. The size read for the progress messages never falls through to Content-Length, because such a PNG has a size of at least 500 KiB (Compression.CategoryOf). |
| Compression.DefaultStreamingRule | core/compression.py:350-363 | With the defaults of core/compression.py:48, streaming happens iff the file is a medium or large PNG of at least 500 KiB, or a large JSON of at least 500 KiB. |
| Compression.DecoderFor | core/compression.py:182-200 | gzip for gzip/x-gzip, deflate, brotli only when available, none otherwise, compared in lower case. |
| Compression.CompressionRatio | core/compression.py:204 | original / decompressed, or 1 for an empty result. |
| Compression.CompressionOptimizer.constructor | core/compression.py:158-161 | The given configuration and empty statistics. |
| Compression.StatsAfter | core/compression.py:227-249 | Tracking off leaves the statistics as they are. Tracking on adds one file, the two sizes to their totals, the time to the total time, and one use to exactly the given method, leaving every other method's count as it was. The counter invariant is kept. |
| Compression.CompressionOptimizer.UpdateCompressionStats | core/compression.py:227-249 | The new statistics are exactly StatsAfter of the old ones: nothing when tracking is off; otherwise one more file, both totals and the time grow by the arguments, ratio and savings filed under the category when tracked, the method's use count one higher. The counter invariant is kept. |
| Compression.CompressionOptimizer.ProcessCompressedResponse | core/compression.py:167-225 | No encoding, an unsupported one, missing brotli or a decompression failure return the bytes unchanged with the statistics untouched. Otherwise the decompressed bytes come back, and the statistics are exactly StatsAfter for the compressed and decompressed lengths, their ratio, the decoder and the time. |
| Compression.CompressionManager.constructor | core/compression.py:369-373 | An optimizer and a streaming optimizer sharing the configuration, fresh statistics, and the start time. |
| Compression.CompressionManager.OptimizeDownload | core/compression.py:420-432 | The result is True iff streaming is chosen, the file is a medium or large PNG, its local file opens and the stream did not fail. The received bytes are written iff streaming is chosen for a medium or large PNG whose file opens; otherwise the disk is unchanged. So a large JSON sent to the streamer returns False untouched. |
| Compression.CompressionManager.ResetSessionStats | core/compression.py:460-463 | Fresh zeroed statistics and a new session start. |
| Network.GetRecommendedConfig | core/network.py:323-346 | Connections and keep-alive are 150/80 above 10000 files, 100/50 above 1000, 50/25 otherwise. Timeout and read are 300/120 above 5 MiB average, 60/30 below 100 KiB, 180/60 otherwise. Connect stays 30; HTTP/2, performance tracking and pool statistics stay on (the defaults, core/network.py:27-36). |
| Network.ContentLength | core/network.py:211-215 | None iff the header is absent or empty; otherwise its integer value, or an error when it is not an integer. |
| Network.ContentLengthOfNumber | core/network.py:211-215 | A length sent as plain digits is read back exactly. |
| Network.AcceptRangesIff | core/network.py:171 | Ranges are accepted iff the value under the exact key "accept-ranges", lower-cased, is "bytes" (the key's letter case is under "## Left out"). |
| Network.AsyncHttpClient.constructor | core/network.py:42-48 | The configuration and all counters at zero. |
| Network.AsyncHttpClient.StreamDownload | core/network.py:140-155 | The caller's headers are passed on and the request count grows by exactly one. |
| Network.AsyncHttpClient.HeadRequest | core/network.py:157-182 | Status and headers are the reply's; content length and etag are the values under "content-length" and "etag" when present, accept_ranges is AcceptRanges; the request count grows by exactly one (exact-key lookup is under "## Left out"). |
| Network.AsyncHttpClient.TrackBytesDownloaded | core/network.py:184-186 | The byte total grows by exactly the argument; nothing else changes. |
| Network.AsyncHttpClient.TrackConnectionReuse | core/network.py:188-190 | The reuse counter grows by one; nothing else changes. |
| FileTable.Rows | ui/file_table_model.py:42 | `set(range(n))`: exactly the rows below n. |
| FileTable.RowFlags | ui/file_table_model.py:51-53 | One flag per row, telling whether it is checked. |
| FileTable.TableFilterMembers | ui/file_table_model.py:122-133 | The shown list holds only passing records from the input and every passing record. |
| FileTable.TableFilterIsFilterFiles | ui/file_table_model.py:122-133 | With a lower-case search text, table filtering is exactly filtering by the data manager's rule. |
| FileTable.FilterFilesOne | ui/file_table_model.py:124-131 | One record passes `filter_files` iff it passes the table's filters. |
| FileTable.FileTableModel.constructor | ui/file_table_model.py:29-34 | No records, no rows, nothing checked, no filters. |
| FileTable.FileTableModel.SetFileItems | ui/file_table_model.py:36-45 | Every record is shown and every row checked. |
| FileTable.FileTableModel.CheckedItems | ui/file_table_model.py:51-53 | At most one record per shown row, each of them a shown record; `CheckedItemsExactly` gives which. |
| FileTable.FileTableModel.CheckedItemsExactly | ui/file_table_model.py:51-53 | The checked records are exactly the shown records at checked rows below the row count. |
| FileTable.FileTableModel.CheckedRowsShown | ui/file_table_model.py:51-53 | In a valid table every checked row is below the row count and its record is among the checked records, so `get_checked_items` never skips a checked number. |
| FileTable.FileTableModel.GetFileItem | ui/file_table_model.py:55-59 | The shown record at the row iff 0 ≤ row < row count, else none. |
| FileTable.FileTableModel.RowCount | ui/file_table_model.py:145-146 | The length of the shown list; exactly the rows with a record. |
| FileTable.FileTableModel.CheckAll | ui/file_table_model.py:77-82 | All rows, or none; nothing else changes. |
| FileTable.FileTableModel.CheckByStatus | ui/file_table_model.py:92-99 | Exactly the rows whose record has the status are added (or removed); every other row keeps its state. |
| FileTable.FileTableModel.ApplyFilters | ui/file_table_model.py:109-142 | The shown list becomes the passing records in order. A row is checked iff its md5 belonged to a previously checked record. |
| FileTable.FileTableModel.Refilter | ui/file_table_model.py:120-133 | The loop builds the filtered list in order. |
| FileTable.FileTableModel.RecheckRows | ui/file_table_model.py:136-139 | Exactly the rows whose md5 is in the saved set are checked. |
| FileTable.FileTableModel.SetData | ui/file_table_model.py:175-194 | Succeeds iff the index is valid, in range, the checkbox column and the check-state role. Then value 2 adds the row and anything else removes it; otherwise nothing changes. |

## Left out

- Concurrency (`asyncio.gather`, semaphores, thread pools, `as_completed`, task cancellation) is modelled as sequential processing in input order.
  - The cancelled flag is read at the points where the sequential code reads it.
  - A cancellation during a download is a transfer outcome.
  - A cancellation during verification is an input `cancelAt`: the batch number before which `cancel_calculation` arrives.
  - The checks at core/downloader.py:120, 195, 273 and 310 can only change the outcome through those outcomes.
- Verification.ParallelMd5Calculator.ProcessBatch: takes the results in batch order, not completion order. This matters only when two records share a filename. The source's `except` branch (core/verification.py:127-142) cannot be reached because `_calculate_single_md5` catches every exception, so it is not modelled.
- Elapsed times, speeds, progress percentages of the table and the logs, the Bloom sizing formulas and false-positive estimate, `_estimate_compression_savings`, `get_compression_summary`, `get_session_summary` and `analyze_file_requirements` are left out. They are floating-point reporting or delegate to modelled members.
- Floating-point ratio tests are exact integer cross-multiplications. Progress is kept as a real.
- I/O is abstracted:
  - the directory scan is an input map;
  - the disk is a `FileSystem` object;
  - each transfer attempt is a function of URL and attempt number;
  - an HTTP reply is a value;
  - MD5, decompression, text decoding (`recode`) and JSON parsing are function parameters;
  - the clock is a parameter.
- The chunk-by-chunk streaming of a body is collapsed into one write or append of the bytes that arrived.
  - A broken stream is a flag on the reply, or the `failed` parameter.
  - Progress and downloaded size are stated for the final chunk only; the intermediate values are not modelled.
- Resume.SmartResume.SmartDownload: requires the five attempts its constructor sets. It applies the recovery wrapper to the one outcome of a resume or full download, because neither call raises a network-class error: `resume_download` catches everything and `_full_download` re-raises as a plain `Exception`. The generic wrapper is modelled and proved on its own (`Resume.NetworkRecovery.DownloadWithRecovery`).
- `probe_resume_support`, `calculate_md5`, `probe_http2_support`, client setup and teardown, the session and connector settings, and `clear_state` are left out. They are network or file-system glue.
- The progress and log signals of the downloader, verifier and table model are left out. So are `update_file_item`, `data`, `headerData`, `flags`, rendering, colours, tooltips and `format_size`, which only emit signals or render.
- FileTable.FileTableModel.CheckedItems: gives the checked records in row order. The source iterates a Python set, whose order is not specified; membership is proved exactly.
- FileTable.FileTableModel.SetData: requires a column below the column count, which a valid Qt index always has. `Qt.Checked` is compared as the integer 2.
- `FileItem.full_filename` is a constant fixed by the constructors, with the predicate `Named()` giving the formula. Every `FileItem` the model creates satisfies it; the source recomputes the name on each access from fields that never change.
- Models.OptimalBatchSize and Models.OptimalConcurrentRequests: are bounded, not fully tabulated, for the cases with a file list (the ratio adjustments). The functions follow every branch of the source.
- Verification.SingleMd5: a failure while reading or hashing is the per-path `readFailure` text. The record's own read of `os.stat` is not separated from the hash.
- The merged `BloomFilter` and `FileBloomFilter` are one class, since only the file filter is used. Its m and k are constructor parameters because their formulas are floating point.
- Downloading.Downloader.DownloadSingleFile: says nothing about `item.size`, `item.progress` or `item.downloaded_size` after a stopped attempt, or when every attempt raised. `_download_with_progress` sets `file_item.size = int(content_length)` from a non-empty Content-Length before the body streams (core/downloader.py:299-301), and for a binary file with a known size it updates `progress` and `downloaded_size` after every chunk (core/downloader.py:317-320). So such a record keeps the header's size and the progress of the last chunk written in the source, and the next run's existence check (core/downloader.py:79-80) compares the file on disk with that size. An attempt's Content-Length and chunk boundaries are not part of `Attempt`, whose `Raised` case covers a header that `int()` rejects. A completed attempt's size, downloaded size and progress are stated: the written length, the written length and 100.0.
- Downloading.Downloader.RetryDownload: leaves `item.size`, `item.progress` and `item.downloaded_size` unstated after a stopped attempt or the last failed one, for the same reason (core/downloader.py:299-301, 317-320).
- Downloading.Downloader.DownloadBatches: the results-map values of records at the same filename follow the last entry. The model does not separate aliasing of records that share a filename.
- Persistence.DecodeRecord: rejects a saved record whose fields have the wrong JSON type (a number as "filename", text as "size", and so on) with an error. Python's `FileItem(...)` constructor (core/models.py:20-37) accepts any value, so such a record loads there and fails only when it is used later.
- Strings.Lower: lower-cases ASCII letters only. Python's `str.lower()` also folds non-ASCII letters, so names and hashes with such letters can compare differently in the suffix rule (core/models.py:42), the search filters and the hash comparisons.
- Network.Headers: a header lookup asks for the exact key. That is what `dict(response.headers).get` does: the `headers` property (core/network.py:238-241, 279-281) read by `content_length` (core/network.py:211-215). Whether `dict(...)` keeps the server's letter case depends on the HTTP library and is not modelled.
- Network.AsyncHttpClient.HeadRequest: finds "content-length", "accept-ranges" and "etag" by exact key. `head_request` (core/network.py:170-172, 179-181) asks the library's own header object, whose `get` ignores letter case. So a reply that spells "Content-Length" or "ETag" fills those fields in the source but not in the model. The `headers` field (core/network.py:169, 178) goes through `dict(...)` and is exact-key in both.
- Network.AcceptRangesIff: states the exact-key lookup of "accept-ranges". A reply with "Accept-Ranges: bytes" accepts ranges in `head_request` (core/network.py:171, 180) but not in the model.
- Network.ContentLength: reads the header with `Strings.ParseInt`, which accepts white space (as `str.isspace()` defines it) around an optional sign and ASCII decimal digits. Python's `int()` (core/network.py:214) also accepts digit groups joined by underscores such as "1_000" and non-ASCII decimal digits; the model reports those as errors.
- Persistence.DecodeState: the text "unexpected type", used for a wrongly typed saved field and for a non-text "output_dir", is the model's own; Python has no single message for these cases (see the DecodeRecord line above). The other error texts of `load_state` name the JSON value's Python type as Python's messages do.
- Paths.Join: always puts one "/" between directory and name, so the root directory gives "//name" where `pathlib` gives "/name". Likewise a directory with a trailing separator keeps it: "a/" gives "a//name" where `pathlib` gives "a/name". The model does not normalise the output directory.
- Network.ContentLength: an unreadable header gives the text "ValueError", which stands for the message of Python's `int()` ("invalid literal for int() with base 10: …"). Resume.StreamBroken, the text "stream interrupted", stands for whatever message the HTTP library gives when a body stream breaks. Both texts are the model's own.
- Defaults follow core/models.py:136-138 (80/180/50); older test scripts assert other values.

