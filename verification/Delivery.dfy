/** Serving an artifact: from the bucket, or from a cache keyed by the object and not the link. */
module Delivery {
  import opened Wrappers
  import opened Strings
  import Range
  import SignedPath

  const ONE_YEAR := 31_536_000
  const MAX_FILENAME := 120
  const COMMA: Unit := ',' as int

  function Ascii(s: string): Text {
    seq(|s|, i requires 0 <= i < |s| => if s[i] as int < 0x1_0000 then s[i] as int else 0xFFFD)
  }

  // ---- objects, requests and responses ----

  datatype Object = Object(bytes: seq<Byte>, etag: Text, contentType: Option<Text>)

  type Bucket = map<Text, Object>

  /** A header's value, kept apart by what it says. */
  datatype Value =
    | Words(text: Text)
    | Count(n: nat)
    | NoStore
    | MaxAge(seconds: nat, immutable: bool)
    | Span(start: nat, end: nat, size: nat)
    | OutOf(size: nat)

  datatype Header =
    | RequestId | ContentTypeOptions | SecurityPolicy | ReferrerPolicy | AllowOrigin | ExposeHeaders
    | ContentTypeHeader | DispositionHeader | ETag | AcceptRanges | CacheControl | ArtifactBytes
    | ContentLength | ContentRange | CacheMark

  type Headers = map<Header, Value>

  datatype Response = Response(status: nat, headers: Headers, body: seq<Byte>)

  /** A verified request for one object. */
  datatype Request = Request(head: bool, range: Option<Text>, ifNoneMatch: Option<Text>, host: Text, key: Text,
    expiresAt: int, now: int, requestId: Text)

  datatype Settings = Settings(hasCache: bool, edgeSeconds: nat, cacheMaxBytes: nat)

  // ---- headers ----

  /** What a header always says where it says one thing. */
  function Standing(h: Header): Text {
    match h
    case ContentTypeOptions => Ascii("nosniff")
    case SecurityPolicy => Ascii("default-src 'none'; sandbox")
    case ReferrerPolicy => Ascii("no-referrer")
    case AllowOrigin => Ascii("*")
    case ExposeHeaders => Ascii("Content-Length, Content-Range, Content-Type, ETag, Accept-Ranges, X-Kaviri-Request-Id")
    case AcceptRanges => Ascii("bytes")
    case ContentTypeHeader => Ascii("application/json; charset=utf-8")
    case _ => []
  }

  datatype Origin = Hit | Miss | Bypass

  function CacheNote(o: Origin): Text {
    match o
    case Hit => Ascii("hit")
    case Miss => Ascii("miss")
    case Bypass => Ascii("bypass")
  }

  function BaseHeaders(requestId: Text): Headers {
    map[RequestId := Words(requestId),
        ContentTypeOptions := Words(Standing(ContentTypeOptions)),
        SecurityPolicy := Words(Standing(SecurityPolicy)),
        ReferrerPolicy := Words(Standing(ReferrerPolicy)),
        AllowOrigin := Words(Standing(AllowOrigin)),
        ExposeHeaders := Words(Standing(ExposeHeaders))]
  }

  function ClientMaxAge(expiresAt: int, now: int): (age: nat)
    ensures age <= ONE_YEAR && (now <= expiresAt ==> now + age <= expiresAt)
  {
    var left := if expiresAt - now < ONE_YEAR then expiresAt - now else ONE_YEAR;
    if left > 0 then left else 0
  }

  function ClientCacheControl(r: Request): Value { MaxAge(ClientMaxAge(r.expiresAt, r.now), true) }

  predicate SafeInFilename(c: Unit) {
    IsUpper(c) || IsLower(c) || IsDigit(c) || c == '.' as int || c == '_' as int || c == '-' as int
  }

  function Sanitised(name: Text): (t: Text)
    ensures t != [] && |t| <= MAX_FILENAME && forall c :: c in t ==> SafeInFilename(c)
  {
    var cleaned := seq(|name|, i requires 0 <= i < |name| => if SafeInFilename(name[i]) then name[i] else '_' as int);
    var short := if |cleaned| > MAX_FILENAME then cleaned[..MAX_FILENAME] else cleaned;
    if short != [] then short else
      ['a' as int, 'r' as int, 't' as int, 'i' as int, 'f' as int, 'a' as int, 'c' as int, 't' as int]
  }

  function LastSegment(key: Text): Text {
    var parts := Split(key, SignedPath.SLASH);
    parts[|parts| - 1]
  }

  function LowerAll(t: Text): Text { seq(|t|, i requires 0 <= i < |t| => Range.ToLower(t[i])) }

  const JSON_TYPE := "application/json"
  const PLAIN_TYPE := "text/plain"

  /** The types handed back as themselves; everything else is an opaque download. */
  function ServableTypes(): seq<string> {
    ["video/mp4", "video/webm", "image/png", "image/jpeg", "image/webp", "image/avif", JSON_TYPE, PLAIN_TYPE]
  }

  predicate Servable(declared: Text) { exists t :: t in ServableTypes() && Ascii(t) == declared }

  function Declared(contentType: Option<Text>): Text {
    if contentType.None? then [] else LowerAll(Range.Trim(Split(contentType.value, ';' as int)[0]))
  }

  function ContentType(o: Object): Text {
    var declared := Declared(o.contentType);
    if !Servable(declared) then Ascii("application/octet-stream")
    else declared + if declared == Ascii(JSON_TYPE) || declared == Ascii(PLAIN_TYPE) then Ascii("; charset=utf-8") else []
  }

  function Disposition(o: Object, key: Text): Text {
    (if Servable(Declared(o.contentType)) then Ascii("inline; filename=\"") else Ascii("attachment; filename=\""))
    + Sanitised(LastSegment(key)) + Ascii("\"")
  }

  function ObjectHeaders(r: Request, o: Object): Headers {
    BaseHeaders(r.requestId)
      [ContentTypeHeader := Words(ContentType(o))]
      [DispositionHeader := Words(Disposition(o, r.key))]
      [ETag := Words(o.etag)]
      [AcceptRanges := Words(Standing(AcceptRanges))]
      [CacheControl := ClientCacheControl(r)]
      [ArtifactBytes := Count(|o.bytes|)]
  }

  function WithoutWeak(t: Text): Text {
    if |t| >= 2 && t[0] == 'W' as int && t[1] == '/' as int then t[2..] else t
  }

  function Normalised(t: Text): Text { WithoutWeak(Range.Trim(t)) }

  predicate EtagMatches(ifNoneMatch: Option<Text>, etag: Text) {
    && ifNoneMatch.Some? && ifNoneMatch.value != []
    && (|| Range.Trim(ifNoneMatch.value) == Ascii("*")
        || exists c :: c in Split(ifNoneMatch.value, COMMA) && Normalised(c) == Normalised(etag))
  }

  // ---- the answers that are not the object ----

  function ErrorResponse(status: nat, r: Request): Response {
    Response(status, BaseHeaders(r.requestId)[ContentTypeHeader := Words(Standing(ContentTypeHeader))][CacheControl := NoStore], [])
  }

  function NotFound(r: Request): Response { ErrorResponse(404, r) }

  function NotModified(r: Request, etag: Text): Response {
    Response(304, BaseHeaders(r.requestId)[ETag := Words(etag)][CacheControl := ClientCacheControl(r)][AcceptRanges := Words(Standing(AcceptRanges))], [])
  }

  function RangeRefused(r: Request, size: nat): Response {
    var e := ErrorResponse(416, r);
    e.(headers := e.headers[ContentRange := OutOf(size)][AcceptRanges := Words(Standing(AcceptRanges))])
  }

  // ---- HEAD and ranges, which never touch the cache ----

  function HeadResponse(r: Request, o: Object): Response {
    Response(200, ObjectHeaders(r, o)[ContentLength := Count(|o.bytes|)], [])
  }

  /** `o` is what the head saw; `got` is what the read that follows found. */
  function PartialResponse(r: Request, o: Object, got: Option<Object>, start: nat, end: nat): Response
    requires start <= end
  {
    if got.None? then NotFound(r)
    else
      var length := end - start + 1;
      var read := Range.ToR2Range(start, end);
      Response(206,
        ObjectHeaders(r, got.value)
          [ArtifactBytes := Count(|o.bytes|)]
          [ContentLength := Count(length)]
          [ContentRange := Span(start, end, |o.bytes|)],
        if read.offset + read.length <= |got.value.bytes| then Range.ReadRange(got.value.bytes, read) else [])
  }

  predicate WantsHead(r: Request) { r.head || (r.range.Some? && r.range.value != []) }

  function Find(bucket: Bucket, key: Text): Option<Object> { if key in bucket then Some(bucket[key]) else None }

  /** None means the request falls through to the whole object. */
  function BeforeCache(r: Request, atHead: Bucket, atGet: Bucket): Option<Response> {
    if !WantsHead(r) then None
    else if Find(atHead, r.key).None? then Some(NotFound(r))
    else
      var o := atHead[r.key];
      if EtagMatches(r.ifNoneMatch, o.etag) then Some(NotModified(r, o.etag))
      else if r.head then Some(HeadResponse(r, o))
      else
        var parsed := Range.ParseRange(r.range, |o.bytes|);
        if parsed.Unsatisfiable? then Some(RangeRefused(r, |o.bytes|))
        else if parsed.Partial? then
          Range.PartialIsInside(r.range, |o.bytes|);
          Some(PartialResponse(r, o, Find(atGet, r.key), parsed.start, parsed.end))
        else None
  }

  // ---- the whole object ----

  /** `https://<host>/__object/<encoded key>`; none if the key does not encode. */
  function CacheKey(host: Text, key: Text): Option<Text> {
    var encoded := SignedPath.EncodeKey(key);
    if encoded.None? then None else Some(Ascii("https://") + (host + [SignedPath.SLASH] + (Ascii("__object/") + encoded.value)))
  }

  function FromHit(r: Request, hit: Response): Response {
    var etag := if ETag in hit.headers && hit.headers[ETag].Words? then hit.headers[ETag].text else [];
    if EtagMatches(r.ifNoneMatch, etag) then NotModified(r, etag)
    else
      Response(200,
        (hit.headers + BaseHeaders(r.requestId))
          [CacheControl := ClientCacheControl(r)]
          [AcceptRanges := Words(Standing(AcceptRanges))]
          [CacheMark := Words(CacheNote(Hit))],
        hit.body)
  }

  predicate WorthCaching(s: Settings, o: Object) {
    s.hasCache && 0 < |o.bytes| <= s.cacheMaxBytes && s.edgeSeconds > 0
  }

  /** The copy that is stored carries the edge's lifetime and nobody's request id. */
  function StoredCopy(r: Request, s: Settings, o: Object): Response {
    Response(200,
      ObjectHeaders(r, o)[ContentLength := Count(|o.bytes|)][CacheControl := MaxAge(s.edgeSeconds, false)]
        - {RequestId},
      o.bytes)
  }

  function FromBucket(r: Request, s: Settings, got: Option<Object>): Response {
    if got.None? then NotFound(r)
    else if EtagMatches(r.ifNoneMatch, got.value.etag) then NotModified(r, got.value.etag)
    else
      Response(200,
        ObjectHeaders(r, got.value)[ContentLength := Count(|got.value.bytes|)][CacheControl := ClientCacheControl(r)]
          [CacheMark := Words(CacheNote(if WorthCaching(s, got.value) then Miss else Bypass))],
        got.value.bytes)
  }

  type Cache = map<Text, Response>

  /** What the worker answers, and what it leaves to be stored. */
  datatype Served = Served(response: Response, put: Option<(Text, Response)>)

  function Serve(r: Request, s: Settings, cache: Cache, atHead: Bucket, atGet: Bucket): Served {
    var early := BeforeCache(r, atHead, atGet);
    if early.Some? then Served(early.value, None)
    else
      var cacheKey := CacheKey(r.host, r.key);
      if cacheKey.None? then Served(ErrorResponse(500, r), None)
      else if s.hasCache && cacheKey.value in cache then Served(FromHit(r, cache[cacheKey.value]), None)
      else
        var got := Find(atGet, r.key);
        var stores := got.Some? && !EtagMatches(r.ifNoneMatch, got.value.etag) && WorthCaching(s, got.value);
        Served(FromBucket(r, s, got), if stores then Some((cacheKey.value, StoredCopy(r, s, got.value))) else None)
  }

  /** One data centre's cache. A put is finished some time after the answer, if at all. */
  class Edge {
    const settings: Settings
    var entries: Cache
    var pending: seq<(Text, Response)>

    constructor (settings: Settings)
      ensures this.settings == settings && entries == map[] && pending == []
    {
      this.settings := settings;
      entries, pending := map[], [];
    }

    method Answer(r: Request, atHead: Bucket, atGet: Bucket) returns (response: Response)
      modifies this`pending
      ensures var served := Serve(r, settings, entries, atHead, atGet);
        && response == served.response
        && pending == old(pending) + if served.put.Some? then [served.put.value] else []
    {
      hide BeforeCache, CacheKey, FromHit, ObjectHeaders, EtagMatches, WorthCaching, ErrorResponse, NotModified, Ascii, ClientCacheControl;
      var early := BeforeCache(r, atHead, atGet);
      if early.Some? { return early.value; }
      var cacheKey := CacheKey(r.host, r.key);
      if cacheKey.None? { return ErrorResponse(500, r); }
      if settings.hasCache && cacheKey.value in entries { return FromHit(r, entries[cacheKey.value]); }

      var got := Find(atGet, r.key);
      if got.None? { return NotFound(r); }
      var o := got.value;
      if EtagMatches(r.ifNoneMatch, o.etag) { return NotModified(r, o.etag); }
      var headers := ObjectHeaders(r, o)[ContentLength := Count(|o.bytes|)];
      response := Response(200, headers, o.bytes);
      if WorthCaching(settings, o) {
        var storable := response.(headers := response.headers[CacheControl := MaxAge(settings.edgeSeconds, false)]);
        storable := storable.(headers := storable.headers - {RequestId});
        pending := pending + [(cacheKey.value, storable)];
      }
      response := response.(headers := response.headers[CacheControl := ClientCacheControl(r)]);
      response := response.(headers := response.headers[CacheMark := Words(CacheNote(if WorthCaching(settings, o) then Miss else Bypass))]);
    }

    /** A pending put lands. */
    method Land(i: nat)
      requires i < |pending|
      modifies this
      ensures entries == old(entries)[old(pending)[i].0 := old(pending)[i].1]
      ensures pending == old(pending)[..i] + old(pending)[i + 1..]
    {
      entries := entries[pending[i].0 := pending[i].1];
      pending := pending[..i] + pending[i + 1..];
    }

    /** An entry is evicted or expires. */
    method Evict(cacheKey: Text)
      modifies this`entries
      ensures entries == old(entries) - {cacheKey}
    {
      entries := entries - {cacheKey};
    }
  }
}
