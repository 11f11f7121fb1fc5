/** The HTTP client layer: connection settings, the interpretation of response headers and the
    client's request and byte counters. */
module Network {
  import opened Wrappers
  import opened Strings

  /** Connection settings of the HTTP client. */
  datatype NetworkConfig = NetworkConfig(
    useHttp2: bool,
    maxConnections: int,
    maxKeepalive: int,
    timeoutSeconds: int,
    connectTimeout: int,
    readTimeout: int,
    enablePerformanceTracking: bool,
    connectionPoolStats: bool)

  /** `NetworkConfig()` with every field at its declared default. */
  const DefaultNetworkConfig := NetworkConfig(true, 100, 50, 180, 30, 60, true, true)

  /** Response headers as `dict(response.headers)` hands them on. A lookup asks for the exact
      key, so it is case-sensitive as that dictionary's `get` is. */
  type Headers = map<string, string>

  const KiB := 1024
  const MiB := 1024 * 1024

  /** The recommended settings for a run of `fileCount` files of average size `avgFileSize`:
      the connection pool grows with the number of files and the timeouts with the file size. */
  method GetRecommendedConfig(fileCount: int, avgFileSize: int) returns (config: NetworkConfig)
    ensures fileCount > 10000 ==> config.maxConnections == 150 && config.maxKeepalive == 80
    ensures 1000 < fileCount <= 10000 ==> config.maxConnections == 100 && config.maxKeepalive == 50
    ensures fileCount <= 1000 ==> config.maxConnections == 50 && config.maxKeepalive == 25
    ensures avgFileSize > 5 * MiB ==> config.timeoutSeconds == 300 && config.readTimeout == 120
    ensures avgFileSize < 100 * KiB ==> config.timeoutSeconds == 60 && config.readTimeout == 30
    ensures 100 * KiB <= avgFileSize <= 5 * MiB ==> config.timeoutSeconds == 180 && config.readTimeout == 60
    ensures config.connectTimeout == 30 && config.useHttp2
    ensures config.enablePerformanceTracking && config.connectionPoolStats
    ensures config.maxKeepalive <= config.maxConnections && config.readTimeout <= config.timeoutSeconds
  {
    config := DefaultNetworkConfig;
    if fileCount > 10000 {
      config := config.(maxConnections := 150, maxKeepalive := 80);
    } else if fileCount > 1000 {
      config := config.(maxConnections := 100, maxKeepalive := 50);
    } else {
      config := config.(maxConnections := 50, maxKeepalive := 25);
    }
    if avgFileSize > 5 * MiB {
      config := config.(timeoutSeconds := 300, readTimeout := 120);
    } else if avgFileSize < 100 * KiB {
      config := config.(timeoutSeconds := 60, readTimeout := 30);
    }
  }

  /** `DownloadResponse.content_length`: no value when the header is absent or empty, its integer
      value otherwise, and an error when it is not a number. The error's text "ValueError"
      stands for the message of the ValueError `int()` raises, which is not modelled. */
  function ContentLength(h: Headers): (r: Result<Option<int>, string>)
    ensures ("content-length" !in h || h["content-length"] == "") <==> r == Ok(None)
    ensures r.Ok? && r.value.Some? ==> ParseInt(h["content-length"]) == Some(r.value.value)
    ensures r.Err? <==> "content-length" in h && h["content-length"] != "" && ParseInt(h["content-length"]).None?
  {
    var length := MapGet(h, "content-length", "");
    if length == "" then Ok(None)
    else match ParseInt(length)
      case Some(n) => Ok(Some(n))
      case None => Err("ValueError")
  }

  /** A length the server sends as plain digits is read back exactly. */
  lemma ContentLengthOfNumber(h: Headers, n: nat)
    requires "content-length" in h && h["content-length"] == IntToString(n)
    ensures ContentLength(h) == Ok(Some(n))
  {
    ParseIntToString(n);
  }

  /** The `accept_ranges` field of a HEAD reply: the server accepts byte ranges. The header is
      found by its exact lower-case name. */
  function AcceptRanges(h: Headers): (r: bool)
  {
    Lower(MapGet(h, "accept-ranges", "")) == "bytes"
  }

  /** Byte ranges are accepted exactly when the header spells "bytes" in some letter case. */
  lemma AcceptRangesIff(h: Headers)
    ensures AcceptRanges(h) <==>
              ("accept-ranges" in h && |h["accept-ranges"]| == 5
               && (forall i :: 0 <= i < 5 ==> LowerChar(h["accept-ranges"][i]) == "bytes"[i]))
  {
    var v := MapGet(h, "accept-ranges", "");
    if "accept-ranges" in h && |v| == 5 && (forall i :: 0 <= i < 5 ==> LowerChar(v[i]) == "bytes"[i]) {
      assert Lower(v) == "bytes";
    }
  }

  /** What the server answered to a HEAD request. */
  datatype HeadReply = HeadReply(statusCode: int, headers: Headers)

  /** The dictionary `head_request` returns. */
  datatype HeadInfo = HeadInfo(statusCode: int, headers: Headers, contentLength: Option<string>,
                               acceptRanges: bool, etag: Option<string>)

  /** A GET request as it is handed to the client library. */
  datatype Request = Request(url: string, headers: Headers)

  /** The HTTP client with its session counters. Opening and closing the underlying connection
      pool is outside this model; the server's reply is a parameter. */
  class AsyncHttpClient {
    const config: NetworkConfig
    var totalRequests: nat
    var totalBytes: nat
    var connectionReused: nat

    constructor (config: NetworkConfig)
      ensures this.config == config
      ensures totalRequests == 0 && totalBytes == 0 && connectionReused == 0
    {
      this.config := config;
      totalRequests := 0;
      totalBytes := 0;
      connectionReused := 0;
    }

    /** Starts a streamed GET: counts one request and passes the caller's headers on. */
    method StreamDownload(url: string, headers: Headers) returns (request: Request)
      modifies this
      ensures request == Request(url, headers)
      ensures totalRequests == old(totalRequests) + 1
      ensures totalBytes == old(totalBytes) && connectionReused == old(connectionReused)
    {
      totalRequests := totalRequests + 1;
      request := Request(url, headers);
    }

    /** A HEAD request: counts one request and summarises the reply. The three header fields are
        looked up by their exact lower-case names; the library's header object that the source
        asks ignores letter case. */
    method HeadRequest(url: string, headers: Headers, reply: HeadReply) returns (info: HeadInfo)
      modifies this
      ensures info.statusCode == reply.statusCode && info.headers == reply.headers
      ensures info.acceptRanges == AcceptRanges(reply.headers)
      ensures info.contentLength == (if "content-length" in reply.headers then Some(reply.headers["content-length"]) else None)
      ensures info.etag == (if "etag" in reply.headers then Some(reply.headers["etag"]) else None)
      ensures totalRequests == old(totalRequests) + 1
      ensures totalBytes == old(totalBytes) && connectionReused == old(connectionReused)
    {
      totalRequests := totalRequests + 1;
      var h := reply.headers;
      info := HeadInfo(reply.statusCode, h,
                       if "content-length" in h then Some(h["content-length"]) else None,
                       AcceptRanges(h),
                       if "etag" in h then Some(h["etag"]) else None);
    }

    method TrackBytesDownloaded(byteCount: nat)
      modifies this
      ensures totalBytes == old(totalBytes) + byteCount
      ensures totalRequests == old(totalRequests) && connectionReused == old(connectionReused)
    {
      totalBytes := totalBytes + byteCount;
    }

    method TrackConnectionReuse()
      modifies this
      ensures connectionReused == old(connectionReused) + 1
      ensures totalRequests == old(totalRequests) && totalBytes == old(totalBytes)
    {
      connectionReused := connectionReused + 1;
    }
  }
}
