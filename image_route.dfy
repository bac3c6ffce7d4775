/** The request pipeline of the image proxy endpoint, `GET` in
    src/app/api/image/route.ts: validate the `url` parameter, consult the
    upstream response, gate on status, media type and size, and answer with
    a buffered or a passed-through body.

    The network is a parameter: `Upstream` is what `fetch` produced, either
    a thrown error or a response whose body is the sequence of values the
    stream reader hands back before it reports `done`. */
module ImageRoute {
  import opened JsString
  import opened ImagePolicy

  newtype byte = x: int | 0 <= x < 256

  /** One value of `reader.read()` before `done`: bytes, or no value. */
  datatype Chunk = Value(bytes: seq<byte>) | NoValue

  /** What `Number(...)` makes of a header value. */
  datatype JsNumber = NaN | Finite(x: real) | PosInfinity | NegInfinity

  /** What `fetch` produced: a thrown error, or a response. */
  datatype Upstream =
    | Threw
    | Responded(status: int, contentType: Option<string>, contentLength: Option<string>,
                body: Option<seq<Chunk>>)

  /** The body of a response the proxy sends. */
  datatype Body =
    | Json(error: string, upstreamStatus: Option<int>)
    | Bytes(data: seq<byte>)
    | Stream(source: Option<seq<Chunk>>)

  datatype Response = Response(status: nat, headers: map<string, string>, body: Body)

  /** Browser and CDN caching for a day, stale-while-revalidate for twelve
      hours (section 5.2.2 of RFC 9111). */
  const CACHE_CONTROL: string := "public, max-age=86400, s-maxage=86400, stale-while-revalidate=43200"

  // ---------------------------------------------------------------------
  // Chunks and their concatenation
  // ---------------------------------------------------------------------

  /** The byte chunks the read loop keeps, in order: every value, no
      missing ones. */
  function Pushed(values: seq<Chunk>): seq<seq<byte>>
  {
    if values == [] then []
    else
      var last := values[|values| - 1];
      Pushed(values[..|values| - 1]) + (if last.Value? then [last.bytes] else [])
  }

  /** The chunks laid end to end, in order. */
  function Concat(chunks: seq<seq<byte>>): seq<byte>
  {
    if chunks == [] then [] else Concat(chunks[..|chunks| - 1]) + chunks[|chunks| - 1]
  }

  /** The sum of the chunk lengths. */
  function TotalLength(chunks: seq<seq<byte>>): nat
  {
    if chunks == [] then 0 else TotalLength(chunks[..|chunks| - 1]) + |chunks[|chunks| - 1]|
  }

  /** The bytes of a stream: the kept chunks concatenated. */
  function StreamBytes(values: seq<Chunk>): seq<byte> {
    Concat(Pushed(values))
  }

  /** The concatenation is as long as the chunk lengths add up to. */
  lemma {:induction false} ConcatLength(chunks: seq<seq<byte>>)
    ensures |Concat(chunks)| == TotalLength(chunks)
  {
    if chunks != [] {
      ConcatLength(chunks[..|chunks| - 1]);
    }
  }

  lemma ConcatAppend(chunks: seq<seq<byte>>, c: seq<byte>)
    ensures Concat(chunks + [c]) == Concat(chunks) + c
    ensures TotalLength(chunks + [c]) == TotalLength(chunks) + |c|
  {
    assert (chunks + [c])[..|chunks|] == chunks;
  }

  lemma PushedStep(values: seq<Chunk>, i: nat)
    requires i < |values|
    ensures Pushed(values[..i + 1]) ==
            Pushed(values[..i]) + (if values[i].Value? then [values[i].bytes] else [])
  {
    assert values[..i + 1][..i] == values[..i];
  }

  /** Reading more of a stream never shrinks what has been read. */
  lemma {:induction false} StreamBytesPrefix(values: seq<Chunk>, i: nat)
    requires i <= |values|
    ensures StreamBytes(values[..i]) <= StreamBytes(values)
  {
    if i < |values| {
      var init := values[..|values| - 1];
      assert values[..i] == init[..i];
      StreamBytesPrefix(init, i);
      var last := values[|values| - 1];
      assert Pushed(values) == Pushed(init) + (if last.Value? then [last.bytes] else []);
      if last.Value? {
        ConcatAppend(Pushed(init), last.bytes);
        assert StreamBytes(values) == StreamBytes(init) + last.bytes;
      } else {
        assert Pushed(values) == Pushed(init);
      }
      assert StreamBytes(init) <= StreamBytes(values);
    } else {
      assert values[..i] == values;
    }
  }

  /** Each chunk of a concatenation sits at the offset given by the chunks
      before it. */
  lemma {:induction false} ConcatAt(chunks: seq<seq<byte>>, k: nat, j: nat)
    requires k < |chunks| && j < |chunks[k]|
    ensures |Concat(chunks[..k])| + j < |Concat(chunks)|
    ensures Concat(chunks)[|Concat(chunks[..k])| + j] == chunks[k][j]
  {
    var init := chunks[..|chunks| - 1];
    if k == |chunks| - 1 {
      assert chunks[..k] == init;
    } else {
      assert chunks[..k] == init[..k];
      ConcatAt(init, k, j);
    }
  }

  // ---------------------------------------------------------------------
  // The decision: which answer a request gets
  // ---------------------------------------------------------------------

  /** The outcome of one request, before it is written as a response. */
  datatype Verdict =
    | MissingUrl
    | InvalidUrl
    | FetchFailed
    | UpstreamError(upstreamStatus: int)
    | UnsupportedType
    | TooLarge
    | NoBody
    | Buffered(mediaType: string, data: seq<byte>)
    | Streamed(mediaType: string, source: Option<seq<Chunk>>)

  /** `upstream.ok`: a status in the 2xx range. */
  predicate IsOk(status: int) { 200 <= status <= 299 }

  /** `if (lenHeader)`: present and not empty. */
  predicate HasDeclaredLength(lenHeader: Option<string>) {
    lenHeader.Some? && lenHeader.value != ""
  }

  /** `!Number.isNaN(len) && len > MAX_BYTES`. */
  predicate ExceedsLimit(len: JsNumber) {
    match len
    case NaN => false
    case Finite(x) => x > MAX_BYTES as real
    case PosInfinity => true
    case NegInfinity => false
  }

  /** The URL the proxy fetches, if the `url` parameter gets that far. */
  function Target(rawUrl: Option<string>, parse: string -> Option<Url>): Option<Url> {
    if rawUrl.None? || rawUrl.value == "" then None
    else ParseAndValidateUrl(rawUrl.value, parse)
  }

  /** The checks of `GET`, in the order the route runs them: parameter and
      URL first; only then is the upstream consulted. */
  function Classify(rawUrl: Option<string>, parse: string -> Option<Url>,
                    upstream: Upstream, number: string -> JsNumber): Verdict
  {
    if rawUrl.None? || rawUrl.value == "" then MissingUrl
    else if Target(rawUrl, parse).None? then InvalidUrl
    else Shape(upstream, number)
  }

  /** The checks after the fetch: thrown error, upstream status, then the
      media type and size gates. */
  function Shape(upstream: Upstream, number: string -> JsNumber): Verdict
  {
    match upstream
      case Threw => FetchFailed
      case Responded(status, contentType, lenHeader, body) =>
        if !IsOk(status) then UpstreamError(status)
        else Gate(PickImageContentType(contentType), lenHeader, body, number)
  }

  /** The gates after a successful status, given the picked media type:
      no image type, then the declared length, then either a body passed
      through or a body buffered up to `MAX_BYTES`. */
  function Gate(picked: Option<string>, lenHeader: Option<string>, body: Option<seq<Chunk>>,
                number: string -> JsNumber): Verdict
  {
    match picked
    case None => UnsupportedType
    case Some(mediaType) =>
      if HasDeclaredLength(lenHeader) then
        if ExceedsLimit(number(lenHeader.value)) then TooLarge
        else Streamed(mediaType, body)
      else BufferedVerdict(mediaType, body)
  }

  /** The path without a declared length: a body is needed, and it is kept
      only when it fits in `MAX_BYTES`. */
  function BufferedVerdict(mediaType: string, body: Option<seq<Chunk>>): Verdict
  {
    match body
    case None => NoBody
    case Some(values) =>
      if |StreamBytes(values)| > MAX_BYTES then TooLarge
      else Buffered(mediaType, StreamBytes(values))
  }

  const JSON_HEADERS: map<string, string> := map["content-type" := "application/json"]

  function ErrorResponse(status: nat, error: string): Response {
    Response(status, JSON_HEADERS, Json(error, None))
  }

  /** How each outcome is written: the status table of the endpoint, JSON
      error bodies, and for an image its media type, the cache directives
      and, when the proxy measured the body itself, its length. */
  function Render(v: Verdict): Response {
    match v
    case MissingUrl => ErrorResponse(400, "Missing 'url' query parameter")
    case InvalidUrl => ErrorResponse(400, "Invalid or blocked URL")
    case FetchFailed => ErrorResponse(502, "Upstream fetch failed")
    case UpstreamError(s) =>
      Response(502, JSON_HEADERS, Json("Upstream returned an error", Some(s)))
    case UnsupportedType => ErrorResponse(415, "Unsupported content-type")
    case TooLarge => ErrorResponse(413, "Image too large")
    case NoBody => ErrorResponse(502, "No upstream body")
    case Buffered(mediaType, data) =>
      Response(200, map["content-type" := mediaType, "content-length" := DecimalString(|data|),
                        "cache-control" := CACHE_CONTROL], Bytes(data))
    case Streamed(mediaType, source) =>
      Response(200, map["content-type" := mediaType, "cache-control" := CACHE_CONTROL],
               Stream(source))
  }

  // ---------------------------------------------------------------------
  // The handler
  // ---------------------------------------------------------------------

  /** `GET`. Besides the response it reports what it did to the outside:
      the URL it fetched (if any), how many values it took from the body
      reader (`taken`), and whether it cancelled the reader. */
  method Get(rawUrl: Option<string>, parse: string -> Option<Url>,
             upstream: Upstream, number: string -> JsNumber)
    returns (resp: Response, fetched: Option<string>, taken: nat, cancelled: bool)
    ensures resp == Render(Classify(rawUrl, parse, upstream, number))
    ensures fetched.Some? <==> Target(rawUrl, parse).Some?
    ensures fetched.Some? ==> fetched.value == Target(rawUrl, parse).value.href
    ensures fetched.None? ==> taken == 0 && !cancelled
    ensures cancelled ==> resp.status == 413 && upstream.Responded? && upstream.body.Some?
                          && !HasDeclaredLength(upstream.contentLength)
                          && 0 < taken <= |upstream.body.value|
                          && |StreamBytes(upstream.body.value[..taken - 1])| <= MAX_BYTES
                          && |StreamBytes(upstream.body.value[..taken])| > MAX_BYTES
    ensures resp.status == 413 && !cancelled ==>
              upstream.Responded? && HasDeclaredLength(upstream.contentLength)
    ensures resp.body.Bytes? ==> upstream.Responded? && upstream.body.Some?
                                 && taken == |upstream.body.value|
    ensures !resp.body.Bytes? && !cancelled ==> taken == 0
  {
    fetched, taken, cancelled := None, 0, false;
    if rawUrl.None? || rawUrl.value == "" {
      resp := Render(MissingUrl);
      return;
    }
    var url := ParseAndValidateUrl(rawUrl.value, parse);
    if url.None? {
      resp := Render(InvalidUrl);
      return;
    }
    fetched := Some(url.value.href);
    resp, taken, cancelled := ShapeResponse(upstream, number);
  }

  /** Everything `GET` does once the fetch has settled. */
  method ShapeResponse(upstream: Upstream, number: string -> JsNumber)
    returns (resp: Response, taken: nat, cancelled: bool)
    ensures resp == Render(Shape(upstream, number))
    ensures cancelled ==> resp.status == 413 && upstream.Responded? && upstream.body.Some?
                          && !HasDeclaredLength(upstream.contentLength)
                          && 0 < taken <= |upstream.body.value|
                          && |StreamBytes(upstream.body.value[..taken - 1])| <= MAX_BYTES
                          && |StreamBytes(upstream.body.value[..taken])| > MAX_BYTES
    ensures resp.status == 413 && !cancelled ==>
              upstream.Responded? && HasDeclaredLength(upstream.contentLength)
    ensures resp.body.Bytes? ==> upstream.Responded? && upstream.body.Some?
                                 && taken == |upstream.body.value|
    ensures !resp.body.Bytes? && !cancelled ==> taken == 0
  {
    taken, cancelled := 0, false;
    if upstream.Threw? {
      resp := Render(FetchFailed);
      return;
    }
    if !IsOk(upstream.status) {
      resp := Render(UpstreamError(upstream.status));
      return;
    }
    var picked := PickImageContentType(upstream.contentType);
    resp, taken, cancelled := GateResponse(picked, upstream.contentLength, upstream.body, number);
  }

  /** The media type and size gates, as a response. */
  method GateResponse(picked: Option<string>, lenHeader: Option<string>,
                      body: Option<seq<Chunk>>, number: string -> JsNumber)
    returns (resp: Response, taken: nat, cancelled: bool)
    ensures resp == Render(Gate(picked, lenHeader, body, number))
    ensures cancelled ==> resp.status == 413 && body.Some? && !HasDeclaredLength(lenHeader)
                          && 0 < taken <= |body.value|
                          && |StreamBytes(body.value[..taken - 1])| <= MAX_BYTES
                          && |StreamBytes(body.value[..taken])| > MAX_BYTES
    ensures resp.status == 413 && !cancelled ==> HasDeclaredLength(lenHeader)
    ensures resp.body.Bytes? ==> body.Some? && taken == |body.value|
    ensures !resp.body.Bytes? && !cancelled ==> taken == 0
  {
    taken, cancelled := 0, false;
    if picked.None? {
      resp := Render(UnsupportedType);
      return;
    }
    if HasDeclaredLength(lenHeader) {
      if ExceedsLimit(number(lenHeader.value)) {
        resp := Render(TooLarge);
        return;
      }
    }
    if !HasDeclaredLength(lenHeader) {
      resp, taken, cancelled := BufferedResponse(picked.value, body);
      return;
    }
    resp := Response(200, map["content-type" := picked.value, "cache-control" := CACHE_CONTROL],
                     Stream(body));
  }

  /** The path without a declared length, as a response. */
  method BufferedResponse(mediaType: string, source: Option<seq<Chunk>>)
    returns (resp: Response, taken: nat, cancelled: bool)
    ensures resp == Render(BufferedVerdict(mediaType, source))
    ensures cancelled <==> resp.status == 413
    ensures cancelled ==> source.Some? && 0 < taken <= |source.value|
                          && |StreamBytes(source.value[..taken - 1])| <= MAX_BYTES
                          && |StreamBytes(source.value[..taken])| > MAX_BYTES
    ensures resp.body.Bytes? ==> source.Some? && taken == |source.value|
    ensures !resp.body.Bytes? && !cancelled ==> taken == 0
  {
    taken, cancelled := 0, false;
    if source.None? {
      resp := Render(NoBody);
      return;
    }
    var body;
    body, taken, cancelled := BufferBody(source.value);
    if cancelled {
      resp := Render(TooLarge);
      return;
    }
    resp := Response(200, map["content-type" := mediaType,
                              "content-length" := DecimalString(|body|),
                              "cache-control" := CACHE_CONTROL], Bytes(body));
  }

  /** The buffered path: read values until `done`, keeping a running total
      of the bytes kept; cancel the reader at the first value that takes
      the total past `MAX_BYTES`, without keeping that value; otherwise
      copy the kept chunks into one body. */
  method BufferBody(stream: seq<Chunk>) returns (body: seq<byte>, taken: nat, cancelled: bool)
    ensures cancelled <==> |StreamBytes(stream)| > MAX_BYTES
    ensures !cancelled ==> body == StreamBytes(stream) && taken == |stream|
    ensures cancelled ==> 0 < taken <= |stream|
                          && |StreamBytes(stream[..taken - 1])| <= MAX_BYTES
                          && |StreamBytes(stream[..taken])| > MAX_BYTES
  {
    var chunks: seq<seq<byte>> := [];
    var total: nat := 0;
    taken, cancelled := 0, false;
    while taken < |stream|
      invariant taken <= |stream|
      invariant chunks == Pushed(stream[..taken])
      invariant total == TotalLength(chunks) <= MAX_BYTES
    {
      PushedStep(stream, taken);
      var value := stream[taken];
      taken := taken + 1;
      if value.Value? {
        ConcatAppend(chunks, value.bytes);
        total := total + |value.bytes|;
        if total > MAX_BYTES {
          cancelled := true;
          ConcatLength(chunks);
          ConcatLength(chunks + [value.bytes]);
          StreamBytesPrefix(stream, taken);
          body := [];
          return;
        }
        chunks := chunks + [value.bytes];
      }
    }
    assert stream[..taken] == stream;
    ConcatLength(chunks);
    body := CopyChunks(chunks, total);
  }

  /** The copy at the end of the buffered path: a `Uint8Array` of the
      measured length, each chunk set at the running offset. */
  method CopyChunks(chunks: seq<seq<byte>>, total: nat) returns (data: seq<byte>)
    requires total == |Concat(chunks)|
    ensures data == Concat(chunks)
  {
    var body := new byte[total];
    var offset := 0;
    for k := 0 to |chunks|
      invariant offset == |Concat(chunks[..k])| <= total
      invariant body[..offset] == Concat(chunks[..k])
    {
      var c := chunks[k];
      assert chunks[..k + 1][..k] == chunks[..k];
      assert Concat(chunks[..k + 1]) == Concat(chunks[..k]) + c;
      ChunkFits(chunks, k);
      forall j | 0 <= j < |c| {
        body[offset + j] := c[j];
      }
      assert body[..offset + |c|] == Concat(chunks[..k]) + c;
      offset := offset + |c|;
    }
    assert chunks[..|chunks|] == chunks;
    data := body[..];
  }

  lemma ChunkFits(chunks: seq<seq<byte>>, k: nat)
    requires k < |chunks|
    ensures |Concat(chunks[..k])| + |chunks[k]| <= |Concat(chunks)|
  {
    if |chunks[k]| > 0 {
      ConcatAt(chunks, k, |chunks[k]| - 1);
    } else {
      StreamPrefixConcat(chunks, k);
    }
  }

  lemma {:induction false} StreamPrefixConcat(chunks: seq<seq<byte>>, k: nat)
    requires k <= |chunks|
    ensures |Concat(chunks[..k])| <= |Concat(chunks)|
  {
    if k < |chunks| {
      var init := chunks[..|chunks| - 1];
      assert chunks[..k] == init[..k];
      StreamPrefixConcat(init, k);
    } else {
      assert chunks[..k] == chunks;
    }
  }

  // ---------------------------------------------------------------------
  // Properties of the endpoint
  // ---------------------------------------------------------------------

  /** The status table: 200 exactly for an image, and every other answer
      is a JSON error with a status of 400, 413, 415 or 502. */
  lemma StatusTable(v: Verdict)
    ensures Render(v).status == 200 <==> v.Buffered? || v.Streamed?
    ensures Render(v).status == 400 <==> v.MissingUrl? || v.InvalidUrl?
    ensures Render(v).status == 413 <==> v.TooLarge?
    ensures Render(v).status == 415 <==> v.UnsupportedType?
    ensures Render(v).status == 502 <==> v.FetchFailed? || v.UpstreamError? || v.NoBody?
    ensures Render(v).status != 200 ==>
              Render(v).headers == JSON_HEADERS && Render(v).body.Json?
  {
  }

  /** A request whose `url` parameter is missing or fails validation is
      answered with 400 before anything is fetched: the answer is the same
      whatever the network would have produced. */
  lemma RejectedBeforeFetch(rawUrl: Option<string>, parse: string -> Option<Url>,
                            u1: Upstream, n1: string -> JsNumber,
                            u2: Upstream, n2: string -> JsNumber)
    requires Target(rawUrl, parse).None?
    ensures Classify(rawUrl, parse, u1, n1) == Classify(rawUrl, parse, u2, n2)
    ensures Render(Classify(rawUrl, parse, u1, n1)).status == 400
  {
  }

  /** Any answer other than 400 means the `url` parameter parsed to an
      http or https URL whose host is not blocked. */
  lemma OnlyAllowedTargetsFetched(rawUrl: Option<string>, parse: string -> Option<Url>,
                                  upstream: Upstream, number: string -> JsNumber)
    requires Render(Classify(rawUrl, parse, upstream, number)).status != 400
    ensures rawUrl.Some? && parse(rawUrl.value).Some?
    ensures IsAllowedTarget(parse(rawUrl.value).value)
    ensures !IsBlockedHostname(parse(rawUrl.value).value.hostname)
  {
    StatusTable(Classify(rawUrl, parse, upstream, number));
  }

  /** A non-2xx upstream status is reported as 502 with that status,
      whatever the headers and the body. */
  lemma UpstreamErrorReported(status: int, contentType: Option<string>,
                              lenHeader: Option<string>, body: Option<seq<Chunk>>,
                              number: string -> JsNumber)
    requires !IsOk(status)
    ensures Render(Shape(Responded(status, contentType, lenHeader, body), number)) ==
            Response(502, JSON_HEADERS, Json("Upstream returned an error", Some(status)))
  {
  }

  /** A 2xx answer that is not an image is refused with 415 before its
      length or its body is looked at. */
  lemma NonImageRefused(status: int, contentType: Option<string>,
                        l1: Option<string>, b1: Option<seq<Chunk>>, n1: string -> JsNumber,
                        l2: Option<string>, b2: Option<seq<Chunk>>, n2: string -> JsNumber)
    requires IsOk(status) && PickImageContentType(contentType).None?
    ensures Shape(Responded(status, contentType, l1, b1), n1) == UnsupportedType
    ensures Shape(Responded(status, contentType, l1, b1), n1) ==
            Shape(Responded(status, contentType, l2, b2), n2)
  {
    ShapeAfterOk(status, contentType, l1, b1, n1);
    ShapeAfterOk(status, contentType, l2, b2, n2);
  }

  /** An image whose declared length is a number above `MAX_BYTES` is
      refused with 413 without reading its body, even when it has none. */
  lemma DeclaredOversizeRefused(status: int, contentType: Option<string>, lenHeader: Option<string>,
                                b1: Option<seq<Chunk>>, b2: Option<seq<Chunk>>,
                                number: string -> JsNumber)
    requires IsOk(status) && PickImageContentType(contentType).Some?
    requires HasDeclaredLength(lenHeader) && ExceedsLimit(number(lenHeader.value))
    ensures Shape(Responded(status, contentType, lenHeader, b1), number) == TooLarge
    ensures Shape(Responded(status, contentType, lenHeader, b2), number) == TooLarge
  {
    ShapeAfterOk(status, contentType, lenHeader, b1, number);
    ShapeAfterOk(status, contentType, lenHeader, b2, number);
  }

  /** A declared length is trusted: when it is present and does not read
      as a number above `MAX_BYTES` (including when it reads as NaN), the
      body is passed through as it is, however many bytes it holds. */
  lemma DeclaredLengthTrusted(status: int, contentType: Option<string>, lenHeader: Option<string>,
                              body: Option<seq<Chunk>>, number: string -> JsNumber)
    requires IsOk(status) && PickImageContentType(contentType).Some?
    requires HasDeclaredLength(lenHeader) && !ExceedsLimit(number(lenHeader.value))
    ensures Render(Shape(Responded(status, contentType, lenHeader, body), number)) ==
            Response(200, map["content-type" := PickImageContentType(contentType).value,
                              "cache-control" := CACHE_CONTROL], Stream(body))
  {
    var picked := PickImageContentType(contentType);
    ShapeAfterOk(status, contentType, lenHeader, body, number);
    GateStreams(picked, lenHeader, body, number);
  }

  lemma ShapeAfterOk(status: int, contentType: Option<string>, lenHeader: Option<string>,
                     body: Option<seq<Chunk>>, number: string -> JsNumber)
    requires IsOk(status)
    ensures Shape(Responded(status, contentType, lenHeader, body), number) ==
            Gate(PickImageContentType(contentType), lenHeader, body, number)
  {
  }

  lemma GateStreams(picked: Option<string>, lenHeader: Option<string>,
                    body: Option<seq<Chunk>>, number: string -> JsNumber)
    requires picked.Some? && HasDeclaredLength(lenHeader) && !ExceedsLimit(number(lenHeader.value))
    ensures Render(Gate(picked, lenHeader, body, number)) ==
            Response(200, map["content-type" := picked.value, "cache-control" := CACHE_CONTROL],
                     Stream(body))
  {
  }

  /** An empty `content-length` is treated like a missing one: the body is
      buffered and measured. */
  lemma EmptyLengthBuffers(status: int, contentType: Option<string>,
                           body: Option<seq<Chunk>>, n1: string -> JsNumber, n2: string -> JsNumber)
    requires IsOk(status) && PickImageContentType(contentType).Some?
    ensures Shape(Responded(status, contentType, Some(""), body), n1) ==
            Shape(Responded(status, contentType, None, body), n2)
    ensures Shape(Responded(status, contentType, None, body), n2) ==
            BufferedVerdict(PickImageContentType(contentType).value, body)
  {
    ShapeAfterOk(status, contentType, Some(""), body, n1);
    ShapeAfterOk(status, contentType, None, body, n2);
  }

  /** The buffered path answers 413 exactly when the body holds more than
      `MAX_BYTES` bytes; otherwise it answers with all of the body. */
  lemma BufferedLimit(mediaType: string, values: seq<Chunk>)
    ensures BufferedVerdict(mediaType, Some(values)).TooLarge? <==> |StreamBytes(values)| > MAX_BYTES
    ensures BufferedVerdict(mediaType, Some(values)).Buffered? ==>
              BufferedVerdict(mediaType, Some(values)).data == StreamBytes(values)
              && |BufferedVerdict(mediaType, Some(values)).data| <= MAX_BYTES
  {
  }

  /** The length the proxy declares for a buffered body reads back, with
      `Number`, as the number of bytes it sends. */
  lemma BufferedLengthHeader(mediaType: string, data: seq<byte>)
    ensures "content-length" in Render(Buffered(mediaType, data)).headers
    ensures IsDigits(Render(Buffered(mediaType, data)).headers["content-length"])
    ensures DigitsValue(Render(Buffered(mediaType, data)).headers["content-length"]) == |data|
  {
    DecimalRoundTrip(|data|);
  }

  /** Every image answer carries the cache directives and a lower-case
      `image/` media type without parameters. */
  lemma SuccessHeaders(rawUrl: Option<string>, parse: string -> Option<Url>,
                       upstream: Upstream, number: string -> JsNumber)
    requires Render(Classify(rawUrl, parse, upstream, number)).status == 200
    ensures "cache-control" in Render(Classify(rawUrl, parse, upstream, number)).headers
    ensures Render(Classify(rawUrl, parse, upstream, number)).headers["cache-control"] == CACHE_CONTROL
    ensures "content-type" in Render(Classify(rawUrl, parse, upstream, number)).headers
    ensures var ct := Render(Classify(rawUrl, parse, upstream, number)).headers["content-type"];
            StartsWith(ct, "image/") && IsLowerCase(ct) && ';' !in ct
  {
    var v := Classify(rawUrl, parse, upstream, number);
    StatusTable(v);
    ImageMediaType(upstream, number);
    ImageHeaders(v);
  }

  /** An image outcome after the fetch carries the media type picked from
      the upstream `content-type`. */
  lemma ImageMediaType(upstream: Upstream, number: string -> JsNumber)
    ensures var v := Shape(upstream, number);
            (v.Buffered? || v.Streamed?) ==>
              StartsWith(v.mediaType, "image/") && IsLowerCase(v.mediaType) && ';' !in v.mediaType
  {
    if upstream.Responded? && IsOk(upstream.status) {
      var picked := PickImageContentType(upstream.contentType);
      GateMediaType(picked, upstream.contentLength, upstream.body, number);
    }
  }

  lemma GateMediaType(picked: Option<string>, lenHeader: Option<string>,
                      body: Option<seq<Chunk>>, number: string -> JsNumber)
    ensures var v := Gate(picked, lenHeader, body, number);
            (v.Buffered? || v.Streamed?) ==> picked == Some(v.mediaType)
  {
  }

  lemma ImageHeaders(v: Verdict)
    requires v.Buffered? || v.Streamed?
    ensures "cache-control" in Render(v).headers && Render(v).headers["cache-control"] == CACHE_CONTROL
    ensures "content-type" in Render(v).headers && Render(v).headers["content-type"] == v.mediaType
  {
  }

  /** Only the bytes matter on the buffered path, not how the upstream cut
      them into chunks or how many empty reads it produced. */
  lemma ChunkingIrrelevant(mediaType: string, v1: seq<Chunk>, v2: seq<Chunk>)
    requires StreamBytes(v1) == StreamBytes(v2)
    ensures BufferedVerdict(mediaType, Some(v1)) == BufferedVerdict(mediaType, Some(v2))
  {
  }
}
