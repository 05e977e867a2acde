/**
 * The fetch wrapper of src/http/fetch-request.js. The network, the abort
 * timer, `URL.canParse`, `URLSearchParams` and JSON (de)serialisation are
 * inputs: the encoded query string, a URL-parsing predicate and the way the
 * request ended are parameters, and a JSON body is kept as the value it
 * stringifies.
 */
module FetchRequest {
  import opened Wrappers
  import opened JsValues
  import opened JsStrings

  // ---------------------------------------------------------------------------
  // The request URL

  /** `baseURL` with one trailing '/' removed. */
  function TrimmedBase(baseURL: string): (r: string)
    ensures EndsWith(baseURL, "/") ==> r + "/" == baseURL
    ensures !EndsWith(baseURL, "/") ==> r == baseURL
  {
    if EndsWith(baseURL, "/") then baseURL[..|baseURL| - 1] else baseURL
  }

  /** `?` and the encoded query, whenever params are supplied (an empty params object gives a bare `?`). */
  function QuerySuffix(query: Option<string>): string
  {
    if query.Some? then "?" + query.value else ""
  }

  /**
   * The URL a request goes to: an absolute path is appended verbatim to the
   * trimmed base, a relative one is joined with '/' when there is a base and
   * used unchanged when there is none.
   */
  function RequestUrl(baseURL: string, url: string, query: Option<string>): string
  {
    var path :=
      if StartsWith(url, "/") then TrimmedBase(baseURL) + url
      else if baseURL != "" then TrimmedBase(baseURL) + "/" + url
      else url;
    path + QuerySuffix(query)
  }

  /** With a base not ending in "//" and a relative url, exactly one '/' separates the two. */
  lemma RelativeUrlJoinedByOneSlash(baseURL: string, url: string)
    requires baseURL != "" && !StartsWith(url, "/") && !EndsWith(baseURL, "//")
    ensures RequestUrl(baseURL, url, None) == TrimmedBase(baseURL) + "/" + url
    ensures !EndsWith(TrimmedBase(baseURL), "/")
  {
    var t := TrimmedBase(baseURL);
    if EndsWith(baseURL, "/") {
      assert baseURL == t + "/";
      if |t| >= 1 {
        assert baseURL[|baseURL| - 2..] == [t[|t| - 1]] + "/";
        assert t[|t| - 1..] == [t[|t| - 1]];
      }
    }
  }

  /** A url starting with '/' ignores whether the base ends in '/'. */
  lemma AbsolutePathIgnoresTrailingSlash(base: string, url: string, query: Option<string>)
    requires StartsWith(url, "/") && !EndsWith(base, "/")
    ensures RequestUrl(base + "/", url, query) == RequestUrl(base, url, query)
  {
    assert EndsWith(base + "/", "/");
    assert (base + "/")[..|base + "/"| - 1] == base;
  }

  /** The URL assembly of `request`: `requestURL` is built step by step. */
  method BuildRequestUrl(baseURL: string, url: string, query: Option<string>) returns (requestURL: string)
    ensures requestURL == RequestUrl(baseURL, url, query)
  {
    requestURL := baseURL;
    if EndsWith(baseURL, "/") {
      requestURL := requestURL[..|requestURL| - 1];
    }
    assert requestURL == TrimmedBase(baseURL);
    if StartsWith(url, "/") {
      assert "/" + url[1..] == url;
      requestURL := requestURL + ("/" + url[1..]);
    } else {
      requestURL := requestURL + (if baseURL != "" then "/" + url else url);
    }
    if query.Some? {
      requestURL := requestURL + ("?" + query.value);
    }
  }

  // ---------------------------------------------------------------------------
  // Headers and body

  const ContentType: string := "Content-Type"
  const JsonContentType: string := "application/json"

  datatype RequestData = NoData | FormData(entries: seq<(string, string)>) | JsonData(value: Json)

  /** A FormData object is truthy; other data is truthy as a JSON value is. */
  predicate DataTruthy(data: RequestData)
  {
    match data
    case NoData => false
    case FormData(_) => true
    case JsonData(v) => Truthy(v)
  }

  /** What `fetch` is given as body; `JsonText(v)` stands for `JSON.stringify(v)`. */
  datatype RequestBody = NoBody | JsonText(value: Json) | FormBody(entries: seq<(string, string)>)

  datatype FetchOptions = FetchOptions(httpMethod: string, headers: map<string, string>, body: RequestBody)

  /**
   * The options `fetch` receives: the caller's headers over the default
   * Content-Type, no Content-Type at all for FormData (not even the
   * caller's), and the body as FormData, as JSON text, or none.
   */
  function OptionsFor(httpMethod: string, headers: map<string, string>, data: RequestData): FetchOptions
  {
    var keys := if data.FormData? then headers.Keys - {ContentType} else headers.Keys + {ContentType};
    FetchOptions(
      httpMethod,
      map k | k in keys :: if k in headers then headers[k] else JsonContentType,
      if data.FormData? then FormBody(data.entries)
      else if DataTruthy(data) then JsonText(data.value)
      else NoBody)
  }

  /** Caller headers win over the default, and for FormData the Content-Type is gone. */
  lemma OptionsHeaders(httpMethod: string, headers: map<string, string>, data: RequestData)
    ensures var h := OptionsFor(httpMethod, headers, data).headers;
      && (ContentType in h <==> !data.FormData?)
      && (!data.FormData? ==> h[ContentType] == if ContentType in headers then headers[ContentType] else JsonContentType)
      && (forall k :: k != ContentType ==> (k in h <==> k in headers))
      && (forall k :: k in h && k != ContentType ==> h[k] == headers[k])
  {
  }

  /** `fetchOptions` is built, then mutated: a body is added, or Content-Type deleted for FormData. */
  method PrepareOptions(httpMethod: string, headers: map<string, string>, data: RequestData) returns (opts: FetchOptions)
    ensures opts == OptionsFor(httpMethod, headers, data)
  {
    opts := FetchOptions(httpMethod, map[ContentType := JsonContentType] + headers, NoBody);
    if DataTruthy(data) && !data.FormData? {
      opts := opts.(body := JsonText(data.value));
    } else if data.FormData? {
      opts := opts.(headers := opts.headers - {ContentType});
      opts := opts.(body := FormBody(data.entries));
    }
  }

  // ---------------------------------------------------------------------------
  // Response headers

  /** The header object: each name with the value of its last entry. */
  function HeaderObject(entries: seq<(string, string)>): map<string, string>
  {
    if entries == [] then map[]
    else
      var last := entries[|entries| - 1];
      HeaderObject(entries[..|entries| - 1])[last.0 := last.1]
  }

  lemma {:induction false} HeaderObjectContents(entries: seq<(string, string)>)
    ensures forall k :: k in HeaderObject(entries) <==> exists i :: 0 <= i < |entries| && entries[i].0 == k
    ensures forall i :: 0 <= i < |entries| && (forall j :: i < j < |entries| ==> entries[j].0 != entries[i].0) ==>
      HeaderObject(entries)[entries[i].0] == entries[i].1
    decreases |entries|
  {
    if entries != [] {
      var front := entries[..|entries| - 1];
      HeaderObjectContents(front);
      forall k
        ensures k in HeaderObject(entries) <==> exists i :: 0 <= i < |entries| && entries[i].0 == k
      {
        if exists i :: 0 <= i < |front| && front[i].0 == k {
          var i :| 0 <= i < |front| && front[i].0 == k;
          assert entries[i] == front[i];
        }
        if exists i :: 0 <= i < |entries| && entries[i].0 == k {
          var i :| 0 <= i < |entries| && entries[i].0 == k;
          if i < |front| {
            assert front[i] == entries[i];
          }
        }
      }
      forall i | 0 <= i < |entries| && (forall j :: i < j < |entries| ==> entries[j].0 != entries[i].0)
        ensures HeaderObject(entries)[entries[i].0] == entries[i].1
      {
        if i < |front| {
          assert front[i] == entries[i];
          forall j | i < j < |front|
            ensures front[j].0 != front[i].0
          {
            assert front[j] == entries[j];
          }
        }
      }
    }
  }

  /** `_parseHeaders`: copy every entry into an object in order. */
  method ParseHeaders(entries: seq<(string, string)>) returns (headerObj: map<string, string>)
    ensures headerObj == HeaderObject(entries)
  {
    headerObj := map[];
    for i := 0 to |entries|
      invariant headerObj == HeaderObject(entries[..i])
    {
      assert entries[..i + 1][..i] == entries[..i];
      headerObj := headerObj[entries[i].0 := entries[i].1];
    }
    assert entries[..|entries|] == entries;
  }

  // ---------------------------------------------------------------------------
  // Reading a stream

  /** One `reader.read()`: a chunk, the end of the stream, or a thrown error. */
  datatype ReadStep = Chunk(bytes: seq<byte>) | Finished | ReadFailed

  /** The chunks delivered before the stream ended or failed (a reader past the given steps is finished). */
  function ChunksRead(steps: seq<ReadStep>): seq<seq<byte>>
  {
    if steps == [] || !steps[0].Chunk? then [] else [steps[0].bytes] + ChunksRead(steps[1..])
  }

  /** `Buffer.concat(chunks)` */
  function Concat(chunks: seq<seq<byte>>): seq<byte>
  {
    if chunks == [] then [] else Concat(chunks[..|chunks| - 1]) + chunks[|chunks| - 1]
  }

  /** The received-byte counts reported after each chunk. */
  function Progress(chunks: seq<seq<byte>>): seq<nat>
  {
    if chunks == [] then [] else Progress(chunks[..|chunks| - 1]) + [|Concat(chunks)|]
  }

  /** One report per chunk, rising, each the byte count of the chunks so far. */
  lemma {:induction false} ProgressCounts(chunks: seq<seq<byte>>)
    ensures |Progress(chunks)| == |chunks|
    ensures forall i :: 0 <= i < |chunks| ==> Progress(chunks)[i] == |Concat(chunks[..i + 1])|
    ensures forall i, j :: 0 <= i <= j < |chunks| ==> Progress(chunks)[i] <= Progress(chunks)[j]
    decreases |chunks|
  {
    if chunks != [] {
      var front := chunks[..|chunks| - 1];
      ProgressCounts(front);
      forall i | 0 <= i < |front|
        ensures Progress(chunks)[i] == |Concat(chunks[..i + 1])|
      {
        assert front[..i + 1] == chunks[..i + 1];
      }
      assert chunks[..|chunks|] == chunks;
      forall i | 0 <= i < |chunks|
        ensures Progress(chunks)[i] <= Progress(chunks)[|chunks| - 1]
      {
        ConcatPrefixShorter(chunks, i + 1);
      }
    }
  }

  lemma {:induction false} ConcatPrefixShorter(chunks: seq<seq<byte>>, n: nat)
    requires n <= |chunks|
    ensures |Concat(chunks[..n])| <= |Concat(chunks)|
    decreases |chunks|
  {
    if n == |chunks| {
      assert chunks[..n] == chunks;
    } else {
      var front := chunks[..|chunks| - 1];
      assert front[..n] == chunks[..n];
      ConcatPrefixShorter(front, n);
    }
  }

  /** After a prefix of chunk steps, what remains to read decides the rest. */
  lemma ChunksReadStep(steps: seq<ReadStep>, i: nat)
    requires i < |steps| && steps[i].Chunk?
    ensures ChunksRead(steps[i..]) == [steps[i].bytes] + ChunksRead(steps[i + 1..])
  {
    assert steps[i..][1..] == steps[i + 1..];
  }

  lemma ConcatAppend(chunks: seq<seq<byte>>, b: seq<byte>)
    ensures Concat(chunks + [b]) == Concat(chunks) + b
    ensures Progress(chunks + [b]) == Progress(chunks) + [|Concat(chunks) + b|]
  {
    assert (chunks + [b])[..|chunks|] == chunks;
  }

  /**
   * `_readStreamWithProgress`: the data is the chunks in read order; a report
   * of the running byte count follows every chunk when a callback and a
   * truthy total are given; a read error ends the loop keeping what was read.
   */
  method ReadStreamWithProgress(steps: seq<ReadStep>, totalBytes: Option<int>, hasCallback: bool)
    returns (data: seq<byte>, reports: seq<nat>)
    ensures data == Concat(ChunksRead(steps))
    ensures reports == if hasCallback && totalBytes.Some? && totalBytes.value != 0
                       then Progress(ChunksRead(steps)) else []
  {
    var reporting := hasCallback && totalBytes.Some? && totalBytes.value != 0;
    var receivedBytes: nat := 0;
    var doneReading := false;
    var chunks: seq<seq<byte>> := [];
    var i := 0;
    reports := [];
    while !doneReading
      invariant 0 <= i <= |steps|
      invariant !doneReading ==> ChunksRead(steps) == chunks + ChunksRead(steps[i..])
      invariant doneReading ==> ChunksRead(steps) == chunks
      invariant receivedBytes == |Concat(chunks)|
      invariant reports == if reporting then Progress(chunks) else []
      decreases |steps| - i, if doneReading then 0 else 1
    {
      var step := if i < |steps| then steps[i] else Finished;
      if !step.Chunk? {
        // the end of the stream, or a read error
        assert ChunksRead(steps[i..]) == [];
        doneReading := true;
        assert chunks + [] == chunks;
        break;
      }
      ChunksReadStep(steps, i);
      ConcatAppend(chunks, step.bytes);
      chunks := chunks + [step.bytes];
      receivedBytes := receivedBytes + |step.bytes|;
      if reporting {
        reports := reports + [receivedBytes];
      }
      i := i + 1;
    }
    data := Concat(chunks);
  }

  // ---------------------------------------------------------------------------
  // Accepting a response

  /** `response.ok`: a status within 200..299. */
  predicate ResponseOk(status: int)
  {
    200 <= status <= 299
  }

  /** `validateStatus ? validateStatus(response.status) : response.ok` */
  predicate StatusValid(status: int, validateStatus: Option<int -> bool>)
  {
    if validateStatus.Some? then validateStatus.value(status) else ResponseOk(status)
  }

  /** Without a validator a status is accepted iff it is 2xx; with one, the validator alone decides. */
  lemma StatusValidity(status: int, validateStatus: Option<int -> bool>)
    ensures validateStatus.None? ==> (StatusValid(status, validateStatus) <==> 200 <= status < 300)
    ensures validateStatus.Some? ==> (StatusValid(status, validateStatus) <==> validateStatus.value(status))
  {
  }

  // ---------------------------------------------------------------------------
  // The request

  /**
   * A request configuration; an absent field is `None` (or `NoData`), and
   * `request` fills in its defaults.
   */
  datatype Config = Config(
    httpMethod: Option<string>,
    url: Option<string>,
    data: RequestData,
    params: Option<string>,
    baseURL: Option<string>,
    headers: Option<map<string, string>>,
    validateStatus: Option<int -> bool>,
    responseType: Option<string>,
    onDownloadProgress: bool)

  /** How the `fetch` call ended. */
  datatype FetchReply =
    | Answered(status: int, statusText: string, headerEntries: seq<(string, string)>,
               contentLength: Option<int>, steps: seq<ReadStep>, text: string, json: Option<Json>)
    | Aborted                        // the timer aborted the request
    | FetchRejected(reason: string)  // any other failure

  datatype ResponseBody = BytesBody(bytes: seq<byte>) | TextBody(text: string) | JsonBody(value: Json)

  datatype Response = Response(data: ResponseBody, status: int, statusText: string, headers: map<string, string>)

  datatype RequestError =
    | MissingUrl                                                  // `url.startsWith` on undefined
    | InvalidUrl(url: string)                                     // "Invalid URL: ..."
    | TimedOut                                                    // "Request timed out"
    | StatusRejected(status: int, statusText: string, data: ResponseBody)
    | Rethrown(reason: string)

  /** The body as the response type steps it, or None when `response.json()` rejects. */
  function ReadBody(responseType: string, reply: FetchReply): Option<ResponseBody>
    requires reply.Answered?
  {
    if responseType == "stream" then Some(BytesBody(Concat(ChunksRead(reply.steps))))
    else if responseType == "text" then Some(TextBody(reply.text))
    else if reply.json.Some? then Some(JsonBody(reply.json.value))
    else None
  }

  /** A destructuring default: the value when present, else the default. */
  function OrDefault<T>(o: Option<T>, default: T): T
  {
    if o.Some? then o.value else default
  }

  /**
   * `request(config)`: assemble the URL, refuse one that does not parse,
   * prepare the options, send, read the body, and accept the response iff
   * its status is valid; otherwise throw an object carrying status,
   * statusText and body. An abort steps as a timeout; other failures
   * propagate.
   */
  method Request(config: Config, canParse: string -> bool, reply: FetchReply)
    returns (result: Result<Response, RequestError>, sent: Option<(string, FetchOptions)>, reports: seq<nat>)
    ensures config.url.None? ==> result == Failure(MissingUrl) && sent.None?
    ensures config.url.Some? ==>
      var u := RequestUrl(OrDefault(config.baseURL, ""), config.url.value, config.params);
      && (!canParse(u) ==> result == Failure(InvalidUrl(u)) && sent.None?)
      && (canParse(u) ==>
            sent == Some((u, OptionsFor(OrDefault(config.httpMethod, "GET"), OrDefault(config.headers, map[]), config.data))))
    ensures reports == if sent.Some? && reply.Answered? && OrDefault(config.responseType, "json") == "stream"
                          && config.onDownloadProgress && reply.contentLength.Some? && reply.contentLength.value != 0
                       then Progress(ChunksRead(reply.steps)) else []
    ensures sent.Some? && reply.Aborted? ==> result == Failure(TimedOut)
    ensures sent.Some? && reply.FetchRejected? ==> result == Failure(Rethrown(reply.reason))
    ensures sent.Some? && reply.Answered? ==>
      var body := ReadBody(OrDefault(config.responseType, "json"), reply);
      && (body.None? ==> result.Failure? && result.error.Rethrown?)
      && (body.Some? && !StatusValid(reply.status, config.validateStatus) ==>
            result == Failure(StatusRejected(reply.status, reply.statusText, body.value)))
      && (body.Some? && StatusValid(reply.status, config.validateStatus) ==>
            result == Success(Response(body.value, reply.status, reply.statusText, HeaderObject(reply.headerEntries))))
  {
    reports := [];
    if config.url.None? {
      return Failure(MissingUrl), None, [];
    }
    var requestURL := BuildRequestUrl(OrDefault(config.baseURL, ""), config.url.value, config.params);
    if !canParse(requestURL) {
      return Failure(InvalidUrl(requestURL)), None, [];
    }
    var fetchOptions := PrepareOptions(OrDefault(config.httpMethod, "GET"), OrDefault(config.headers, map[]), config.data);
    sent := Some((requestURL, fetchOptions));
    match reply {
      case Aborted =>
        result := Failure(TimedOut);
      case FetchRejected(reason) =>
        result := Failure(Rethrown(reason));
      case Answered(status, statusText, headerEntries, contentLength, steps, text, json) =>
        var responseType := OrDefault(config.responseType, "json");
        var responseBody: ResponseBody;
        if responseType == "stream" {
          var bytes;
          bytes, reports := ReadStreamWithProgress(steps, contentLength, config.onDownloadProgress);
          responseBody := BytesBody(bytes);
        } else if responseType == "text" {
          responseBody := TextBody(text);
        } else if json.Some? {
          responseBody := JsonBody(json.value);
        } else {
          return Failure(Rethrown("response body is not JSON")), sent, reports;
        }
        var valid := StatusValid(status, config.validateStatus);
        if !valid {
          return Failure(StatusRejected(status, statusText, responseBody)), sent, reports;
        }
        var headers := ParseHeaders(headerEntries);
        result := Success(Response(responseBody, status, statusText, headers));
    }
  }

  // ---------------------------------------------------------------------------
  // get and post

  /** `{ method: 'GET', url, ...config }`: config's own fields win. */
  function GetConfig(url: string, config: Config): (c: Config)
    ensures c.httpMethod == (if config.httpMethod.Some? then config.httpMethod else Some("GET"))
    ensures c.url == (if config.url.Some? then config.url else Some(url))
    ensures c.data == config.data && c.baseURL == config.baseURL && c.headers == config.headers
    ensures c.params == config.params && c.validateStatus == config.validateStatus
    ensures c.responseType == config.responseType && c.onDownloadProgress == config.onDownloadProgress
  {
    config.(httpMethod := Some(OrDefault(config.httpMethod, "GET")), url := Some(OrDefault(config.url, url)))
  }

  /** `{ method: 'POST', url, data, ...config }`: config's own fields win. */
  function PostConfig(url: string, data: RequestData, config: Config): (c: Config)
    ensures c.httpMethod == (if config.httpMethod.Some? then config.httpMethod else Some("POST"))
    ensures c.url == (if config.url.Some? then config.url else Some(url))
    ensures c.data == (if config.data != NoData then config.data else data)
    ensures c.baseURL == config.baseURL && c.headers == config.headers
    ensures c.params == config.params && c.validateStatus == config.validateStatus
    ensures c.responseType == config.responseType && c.onDownloadProgress == config.onDownloadProgress
  {
    config.(httpMethod := Some(OrDefault(config.httpMethod, "POST")),
            url := Some(OrDefault(config.url, url)),
            data := if config.data != NoData then config.data else data)
  }

  /**
   * A post whose config names no method or url sends POST to the given url;
   * one whose config names a method uses that method instead.
   */
  lemma PostMethodAndOverride(url: string, data: RequestData, config: Config)
    ensures config.httpMethod.None? ==> OrDefault(PostConfig(url, data, config).httpMethod, "GET") == "POST"
    ensures config.httpMethod.Some? ==> OrDefault(PostConfig(url, data, config).httpMethod, "GET") == config.httpMethod.value
    ensures config.url.None? ==> PostConfig(url, data, config).url == Some(url)
  {
  }

}
