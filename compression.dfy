/** The transfer strategy by file type: categories by name and size, whether to ask for
    compression, which request headers to send, whether to stream, and the statistics kept
    about decompressed responses. */
module Compression {
  import opened Wrappers
  import opened Strings
  import opened Models
  import opened Disk
  import Network

  /** `FileCategory`. */
  datatype FileCategory = JsonSmall | JsonLarge | PngSmall | PngMedium | PngLarge | Other
  {
    /** The enum value, used as the key of the per-category statistics. */
    function Value(): string {
      match this
      case JsonSmall => "json_small"
      case JsonLarge => "json_large"
      case PngSmall => "png_small"
      case PngMedium => "png_medium"
      case PngLarge => "png_large"
      case Other => "other"
    }

    predicate IsJson() {
      this == JsonSmall || this == JsonLarge
    }

    predicate IsPng() {
      this == PngSmall || this == PngMedium || this == PngLarge
    }
  }

  const KiB := 1024
  const MiB := 1024 * 1024

  /** `CompressionConfig`; the settings that only affect logging or unmodelled code are kept as
      plain data. */
  datatype CompressionConfig = CompressionConfig(
    forceJsonCompression: bool,
    jsonCompressionThreshold: int,
    jsonPreferredEncoding: string,
    pngStreamThreshold: int,
    pngLargeFileThreshold: int,
    enablePngOptimization: bool,
    compressionLevel: int,
    streamChunkSize: int,
    enableCompressionCache: bool,
    cacheMaxAge: int,
    enablePerformanceTracking: bool,
    trackCompressionRatios: bool,
    trackTransferSavings: bool)

  /** `CompressionConfig()` with every default. */
  const DefaultCompressionConfig := CompressionConfig(
    true, 1024, "gzip, br, deflate", 500 * KiB, 2 * MiB, true, 6, 64 * KiB, true, 3600, true, true, true)

  /** `getattr(file_item, 'size', 0) or 0`. */
  function SizeOrZero(size: Option<int>): int
  {
    if size.Some? then size.value else 0
  }

  /** `FileTypeAnalyzer.categorize_file`: by the lower-cased logical name and the expected size. */
  function CategorizeFile(item: FileItem): (r: FileCategory)
    reads item
    ensures r.IsJson() <==> EndsWith(Lower(item.filename), ".json")
    ensures r.IsPng() <==> !EndsWith(Lower(item.filename), ".json") && EndsWith(Lower(item.filename), ".png")
    ensures r.IsJson() ==> (r == JsonSmall <==> SizeOrZero(item.size) < 100 * KiB)
    ensures r.IsPng() ==> (r == PngSmall <==> SizeOrZero(item.size) < 500 * KiB)
    ensures r.IsPng() ==> (r == PngLarge <==> SizeOrZero(item.size) >= 2 * MiB)
  {
    CategoryOf(Lower(item.filename), SizeOrZero(item.size))
  }

  /** The category of a file whose lower-cased name is `name` and whose expected size is `size`. */
  function CategoryOf(name: string, size: int): (r: FileCategory)
    ensures r.IsJson() <==> EndsWith(name, ".json")
    ensures r.IsPng() <==> !EndsWith(name, ".json") && EndsWith(name, ".png")
    ensures r.IsJson() ==> (r == JsonSmall <==> size < 100 * KiB)
    ensures r.IsPng() ==> (r == PngSmall <==> size < 500 * KiB)
    ensures r.IsPng() ==> (r == PngLarge <==> size >= 2 * MiB)
  {
    if EndsWith(name, ".json") then
      if size < 100 * KiB then JsonSmall else JsonLarge
    else if EndsWith(name, ".png") then
      if size < 500 * KiB then PngSmall
      else if size < 2 * MiB then PngMedium
      else PngLarge
    else Other
  }

  /** `FileTypeAnalyzer.should_compress`: only JSON files, and only when the configuration forces
      it. */
  function ShouldCompress(item: FileItem, config: CompressionConfig): (r: bool)
    reads item
    ensures r <==> config.forceJsonCompression && EndsWith(Lower(item.filename), ".json")
  {
    var category := CategorizeFile(item);
    if category.IsJson() then config.forceJsonCompression
    else if category.IsPng() then false
    else false
  }

  /** `FileTypeAnalyzer.get_optimal_headers`. */
  function OptimalHeaders(item: FileItem, config: CompressionConfig): (r: map<string, string>)
    reads item
    ensures "Accept-Encoding" in r <==> CategorizeFile(item).IsJson()
    ensures "Accept-Encoding" in r ==> r["Accept-Encoding"] == config.jsonPreferredEncoding
    ensures "Accept" in r <==> CategorizeFile(item) != Other
    ensures "Accept" in r ==> r["Accept"] == (if CategorizeFile(item).IsJson() then "application/json" else "image/png")
    ensures "Range" in r <==> CategorizeFile(item) == PngLarge
    ensures "Range" in r ==> r["Range"] == "bytes=0-"
    ensures forall k :: k in r ==> k == "Accept-Encoding" || k == "Accept" || k == "Range"
  {
    var category := CategorizeFile(item);
    if category.IsJson() then
      map["Accept-Encoding" := config.jsonPreferredEncoding, "Accept" := "application/json"]
    else if category.IsPng() then
      if category == PngLarge then map["Accept" := "image/png", "Range" := "bytes=0-"]
      else map["Accept" := "image/png"]
    else map[]
  }

  /** The categories `optimize_png_streaming` streams. */
  predicate IsStreamedPng(item: FileItem)
    reads item
  {
    CategorizeFile(item) == PngMedium || CategorizeFile(item) == PngLarge
  }

  /** `StreamingOptimizer`: the choice between streaming a response to disk and the regular path. */
  class StreamingOptimizer {
    const config: CompressionConfig

    constructor (config: CompressionConfig)
      ensures this.config == config
    {
      this.config := config;
    }

    /** `should_use_streaming`. */
    function ShouldUseStreaming(item: FileItem): (r: bool)
      reads item
      ensures r <==> ((CategorizeFile(item) == PngMedium || CategorizeFile(item) == PngLarge)
                       && SizeOrZero(item.size) >= config.pngStreamThreshold)
                     || (CategorizeFile(item) == JsonLarge && SizeOrZero(item.size) >= 500 * KiB)
    {
      var category := CategorizeFile(item);
      var size := SizeOrZero(item.size);
      if category == PngMedium || category == PngLarge then size >= config.pngStreamThreshold
      else if category == JsonLarge then size >= 500 * KiB
      else false
    }

    /** `optimize_png_streaming`: only medium and large PNG files are streamed. `received` is what
        arrived before the stream ended and `failed` says whether it ended by an exception;
        `fileOpened` says whether `open(local_path, 'wb')` succeeded, since an exception there is
        caught by the same `except` and leaves no file written. The
        size shown in the progress messages, `file_item.size or response.content_length or 0`,
        never reads the Content-Length here: a medium or large PNG has a size of at least
        500 KiB (`CategoryOf`), so the first operand already decides it. */
    method OptimizePngStreaming(item: FileItem, localPath: string, disk: FileSystem,
                                fileOpened: bool, received: seq<byte>, failed: bool)
      returns (ok: bool)
      modifies disk
      ensures CategorizeFile(item) != PngMedium && CategorizeFile(item) != PngLarge ==>
                !ok && disk.files == old(disk.files)
      ensures (CategorizeFile(item) == PngMedium || CategorizeFile(item) == PngLarge) && !fileOpened ==>
                !ok && disk.files == old(disk.files)
      ensures (CategorizeFile(item) == PngMedium || CategorizeFile(item) == PngLarge) && fileOpened ==>
                ok == !failed && disk.files == old(disk.files)[localPath := received]
    {
      var category := CategorizeFile(item);
      if category != PngMedium && category != PngLarge {
        return false;
      }
      if !fileOpened {
        return false;
      }
      disk.Write(localPath, received);
      ok := !failed;
    }
  }

  /** With the default settings a file is streamed exactly when it is a JSON or PNG file of at
      least 500 KiB. */
  lemma DefaultStreamingRule(s: StreamingOptimizer, item: FileItem)
    requires s.config == DefaultCompressionConfig
    ensures s.ShouldUseStreaming(item) <==>
              (EndsWith(Lower(item.filename), ".json") || EndsWith(Lower(item.filename), ".png"))
              && SizeOrZero(item.size) >= 500 * KiB
  {
  }

  /** `CompressionStats`; each ratio and the transfer time are kept as exact reals where the
      source has floats. */
  datatype CompressionStats = CompressionStats(
    filesProcessed: int,
    totalOriginalSize: int,
    totalCompressedSize: int,
    totalTransferTime: real,
    compressionRatios: map<string, seq<real>>,
    transferSavings: map<string, int>,
    methodUsage: map<string, int>)
  {
    /** Counters that a sequence of updates keeps: nothing negative, no method used more often and
        no category with more ratios than there were files. */
    predicate Valid() {
      filesProcessed >= 0 && totalOriginalSize >= 0 && totalCompressedSize >= 0
      && (forall m :: m in methodUsage ==> 1 <= methodUsage[m] <= filesProcessed)
      && (forall c :: c in compressionRatios ==> 1 <= |compressionRatios[c]| <= filesProcessed)
    }
  }

  /** `CompressionStats()`. */
  const EmptyStats := CompressionStats(0, 0, 0, 0.0, map[], map[], map[])

  /** The decompression method for a `Content-Encoding` value, if it is supported; brotli only
      when its module can be imported. */
  function DecoderFor(contentEncoding: string, brotliAvailable: bool): (r: Option<string>)
    ensures r.Some? ==> r.value in {"gzip", "deflate", "brotli"}
    ensures Lower(contentEncoding) == "gzip" || Lower(contentEncoding) == "x-gzip" ==> r == Some("gzip")
    ensures Lower(contentEncoding) == "deflate" ==> r == Some("deflate")
    ensures Lower(contentEncoding) == "br" ==> r == (if brotliAvailable then Some("brotli") else None)
    ensures Lower(contentEncoding) !in {"gzip", "x-gzip", "deflate", "br"} ==> r == None
  {
    var e := Lower(contentEncoding);
    if e == "gzip" || e == "x-gzip" then Some("gzip")
    else if e == "deflate" then Some("deflate")
    else if e == "br" then (if brotliAvailable then Some("brotli") else None)
    else None
  }

  /** `original / decompressed`, or 1 for an empty result. */
  function CompressionRatio(originalSize: nat, decompressedSize: nat): (r: real)
    ensures decompressedSize == 0 ==> r == 1.0
    ensures decompressedSize > 0 ==> r * decompressedSize as real == originalSize as real
  {
    if decompressedSize > 0 then originalSize as real / decompressedSize as real else 1.0
  }

  /** The statistics after `_update_compression_stats` records one decompressed file of category
      `name`: unchanged when tracking is off; otherwise one more file, both totals and the time
      grown by the arguments, the ratio and the savings filed under the category when those are
      tracked, and one more use of the method. */
  function StatsAfter(s: CompressionStats, config: CompressionConfig, name: string, compressedSize: nat,
                      decompressedSize: nat, ratio: real, methodName: string, processTime: real): (r: CompressionStats)
    ensures !config.enablePerformanceTracking ==> r == s
    ensures config.enablePerformanceTracking ==>
              && r.filesProcessed == s.filesProcessed + 1
              && r.totalOriginalSize == s.totalOriginalSize + decompressedSize
              && r.totalCompressedSize == s.totalCompressedSize + compressedSize
              && r.totalTransferTime == s.totalTransferTime + processTime
              && MapGet(r.methodUsage, methodName, 0) == MapGet(s.methodUsage, methodName, 0) + 1
              && (forall m :: m != methodName ==> MapGet(r.methodUsage, m, 0) == MapGet(s.methodUsage, m, 0))
    ensures s.Valid() ==> r.Valid()
  {
    if !config.enablePerformanceTracking then s
    else
      var ratios := if config.trackCompressionRatios then s.compressionRatios[name := MapGet(s.compressionRatios, name, []) + [ratio]]
                    else s.compressionRatios;
      var savings := if config.trackTransferSavings
                     then s.transferSavings[name := MapGet(s.transferSavings, name, 0) + (decompressedSize - compressedSize)]
                     else s.transferSavings;
      CompressionStats(s.filesProcessed + 1, s.totalOriginalSize + decompressedSize,
                       s.totalCompressedSize + compressedSize, s.totalTransferTime + processTime,
                       ratios, savings, s.methodUsage[methodName := MapGet(s.methodUsage, methodName, 0) + 1])
  }

  /** `CompressionOptimizer`: decompresses responses and keeps statistics about them. */
  class CompressionOptimizer {
    const config: CompressionConfig
    var stats: CompressionStats

    constructor (config: CompressionConfig)
      ensures this.config == config && stats == EmptyStats
    {
      this.config := config;
      stats := EmptyStats;
    }

    /** `_update_compression_stats`: nothing when tracking is off; otherwise one more file, both
        totals grown by the two sizes, the ratio and the savings filed under the file's category
        when those are tracked, and one more use of the method. */
    method UpdateCompressionStats(item: FileItem, compressedSize: nat, decompressedSize: nat, ratio: real,
                                  methodName: string, processTime: real)
      modifies this
      ensures !config.enablePerformanceTracking ==> stats == old(stats)
      ensures config.enablePerformanceTracking ==>
                var name := CategorizeFile(item).Value();
                && stats.filesProcessed == old(stats.filesProcessed) + 1
                && stats.totalOriginalSize == old(stats.totalOriginalSize) + decompressedSize
                && stats.totalCompressedSize == old(stats.totalCompressedSize) + compressedSize
                && stats.totalTransferTime == old(stats.totalTransferTime) + processTime
                && stats.compressionRatios == (if config.trackCompressionRatios
                     then old(stats.compressionRatios)[name := MapGet(old(stats.compressionRatios), name, []) + [ratio]]
                     else old(stats.compressionRatios))
                && stats.transferSavings == (if config.trackTransferSavings
                     then old(stats.transferSavings)[name := MapGet(old(stats.transferSavings), name, 0)
                                                             + (decompressedSize - compressedSize)]
                     else old(stats.transferSavings))
                && stats.methodUsage == old(stats.methodUsage)[methodName := MapGet(old(stats.methodUsage), methodName, 0) + 1]
      ensures stats == StatsAfter(old(stats), config, CategorizeFile(item).Value(), compressedSize, decompressedSize,
                                  ratio, methodName, processTime)
      ensures old(stats.Valid()) ==> stats.Valid()
    {
      if !config.enablePerformanceTracking {
        return;
      }
      var name := CategorizeFile(item).Value();
      var s := stats;
      var ratios := if config.trackCompressionRatios then s.compressionRatios[name := MapGet(s.compressionRatios, name, []) + [ratio]]
                    else s.compressionRatios;
      var savings := if config.trackTransferSavings
                     then s.transferSavings[name := MapGet(s.transferSavings, name, 0) + (decompressedSize - compressedSize)]
                     else s.transferSavings;
      stats := CompressionStats(s.filesProcessed + 1, s.totalOriginalSize + decompressedSize,
                                s.totalCompressedSize + compressedSize, s.totalTransferTime + processTime,
                                ratios, savings, s.methodUsage[methodName := MapGet(s.methodUsage, methodName, 0) + 1]);
    }

    /** `process_compressed_response`. `decompress(method, data)` is the named decompressor's
        output, or none when it raises; `processTime` is the measured duration. Without an
        encoding, with an unsupported one or when decompression fails the bytes come back as they
        are and the statistics stay; otherwise the decompressed bytes come back and the statistics
        record them. */
    method ProcessCompressedResponse(data: seq<byte>, contentEncoding: Option<string>, item: FileItem,
                                     brotliAvailable: bool, decompress: (string, seq<byte>) -> Option<seq<byte>>,
                                     processTime: real)
      returns (out: seq<byte>)
      modifies this
      ensures (contentEncoding.None? || contentEncoding.value == ""
               || DecoderFor(contentEncoding.value, brotliAvailable).None?
               || decompress(DecoderFor(contentEncoding.value, brotliAvailable).value, data).None?) ==>
                out == data && stats == old(stats)
      ensures out != data ==> contentEncoding.Some? && DecoderFor(contentEncoding.value, brotliAvailable).Some?
      ensures (contentEncoding.Some? && contentEncoding.value != ""
               && DecoderFor(contentEncoding.value, brotliAvailable).Some?
               && decompress(DecoderFor(contentEncoding.value, brotliAvailable).value, data).Some?) ==>
                out == decompress(DecoderFor(contentEncoding.value, brotliAvailable).value, data).value
                && (config.enablePerformanceTracking ==>
                      stats.filesProcessed == old(stats.filesProcessed) + 1
                      && stats.totalCompressedSize == old(stats.totalCompressedSize) + |data|
                      && stats.totalOriginalSize == old(stats.totalOriginalSize) + |out|)
                && stats == StatsAfter(old(stats), config, CategorizeFile(item).Value(), |data|, |out|,
                                       CompressionRatio(|data|, |out|),
                                       DecoderFor(contentEncoding.value, brotliAvailable).value, processTime)
      ensures old(stats.Valid()) ==> stats.Valid()
    {
      if contentEncoding.None? || contentEncoding.value == "" {
        return data;
      }
      var decoder := DecoderFor(contentEncoding.value, brotliAvailable);
      if decoder.None? {
        return data;
      }
      var decompressed := decompress(decoder.value, data);
      if decompressed.None? {
        return data;
      }
      var ratio := CompressionRatio(|data|, |decompressed.value|);
      UpdateCompressionStats(item, |data|, |decompressed.value|, ratio, decoder.value, processTime);
      return decompressed.value;
    }
  }

  /** `CompressionManager`: the front of the optimizer and the streaming decision. */
  class CompressionManager {
    const config: CompressionConfig
    const optimizer: CompressionOptimizer
    const streaming: StreamingOptimizer
    var sessionStartTime: real

    constructor (config: CompressionConfig, now: real)
      ensures this.config == config && fresh(optimizer) && fresh(streaming)
      ensures optimizer.config == config && optimizer.stats == EmptyStats && streaming.config == config
      ensures sessionStartTime == now
    {
      this.config := config;
      optimizer := new CompressionOptimizer(config);
      streaming := new StreamingOptimizer(config);
      sessionStartTime := now;
    }

    /** `optimize_download`: the regular path (false) unless the file is to be streamed; a
        streamed file is written exactly when it is a medium or large PNG. */
    method OptimizeDownload(item: FileItem, localPath: string, disk: FileSystem,
                            fileOpened: bool, received: seq<byte>, failed: bool)
      returns (ok: bool)
      modifies disk
      ensures ok == (streaming.ShouldUseStreaming(item) && IsStreamedPng(item) && fileOpened && !failed)
      ensures disk.files == if streaming.ShouldUseStreaming(item) && IsStreamedPng(item) && fileOpened
                            then old(disk.files)[localPath := received] else old(disk.files)
      ensures !streaming.ShouldUseStreaming(item) ==> !ok && disk.files == old(disk.files)
      ensures CategorizeFile(item) == JsonLarge ==> !ok && disk.files == old(disk.files)
    {
      if streaming.ShouldUseStreaming(item) {
        ok := streaming.OptimizePngStreaming(item, localPath, disk, fileOpened, received, failed);
      } else {
        ok := false;
      }
    }

    /** `reset_session_stats`: fresh statistics and a new session start. */
    method ResetSessionStats(now: real)
      modifies this, optimizer
      ensures optimizer.stats == EmptyStats && optimizer.stats.Valid()
      ensures sessionStartTime == now
    {
      optimizer.stats := EmptyStats;
      sessionStartTime := now;
    }
  }
}
