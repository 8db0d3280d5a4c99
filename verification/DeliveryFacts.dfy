/** The cache changes nothing a client can see but one header, and no answer outlives its link. */
module DeliveryFacts {
  import opened Wrappers
  import opened Strings
  import opened Delivery
  import Range
  import SignedPath
  import SignedPathFacts

  // ---- hits and misses ----

  /** Alike in status, body and every header but X-Kaviri-Cache. */
  predicate SameButCache(a: Response, b: Response) {
    a.status == b.status && a.body == b.body && a.headers - {CacheMark} == b.headers - {CacheMark}
  }

  /** A stored copy depends on the key and the edge's lifetime and on nothing else of its request. */
  lemma StoredCopyIsImpersonal(r: Request, q: Request, s: Settings, t: Settings, o: Object)
    requires r.key == q.key && s.edgeSeconds == t.edgeSeconds
    ensures StoredCopy(r, s, o) == StoredCopy(q, t, o)
    ensures RequestId !in StoredCopy(r, s, o).headers
    ensures ETag in StoredCopy(r, s, o).headers && StoredCopy(r, s, o).headers[ETag] == Words(o.etag)
  {
    hide ObjectHeaders;
    ObjectHeadersVary(r, q, o);
    assert StoredCopy(r, s, o).headers == StoredCopy(q, t, o).headers;
  }

  /** Two requests for one object head it alike, but for their ids and how long they live. */
  lemma ObjectHeadersVary(r: Request, q: Request, o: Object)
    requires r.key == q.key
    ensures forall h :: h != RequestId && h != CacheControl ==>
      (h in ObjectHeaders(r, o) <==> h in ObjectHeaders(q, o)) &&
      (h in ObjectHeaders(r, o) ==> ObjectHeaders(r, o)[h] == ObjectHeaders(q, o)[h])
    ensures ETag in ObjectHeaders(r, o) && ObjectHeaders(r, o)[ETag] == Words(o.etag)
  {
    hide Standing, ContentType, Disposition, ClientCacheControl;
  }

  lemma ObjectHeadersHoldBase(r: Request, o: Object)
    ensures RequestId in BaseHeaders(r.requestId) && CacheControl !in BaseHeaders(r.requestId) && ContentLength !in BaseHeaders(r.requestId)
    ensures forall h :: h in BaseHeaders(r.requestId) ==> h in ObjectHeaders(r, o) && ObjectHeaders(r, o)[h] == BaseHeaders(r.requestId)[h]
    ensures AcceptRanges in ObjectHeaders(r, o) && ObjectHeaders(r, o)[AcceptRanges] == Words(Standing(AcceptRanges))
    ensures CacheControl in ObjectHeaders(r, o)
  {
    hide Standing, ContentType, Disposition, ClientCacheControl;
  }

  function HitHeaders(r: Request, stored: Headers): Headers {
    (stored + BaseHeaders(r.requestId))[CacheControl := ClientCacheControl(r)][AcceptRanges := Words(Standing(AcceptRanges))]
  }

  function MissHeaders(r: Request, o: Object): Headers {
    ObjectHeaders(r, o)[ContentLength := Count(|o.bytes|)][CacheControl := ClientCacheControl(r)]
  }

  lemma HitHeadersMatch(r: Request, q: Request, s: Settings, o: Object)
    requires r.key == q.key
    ensures HitHeaders(r, StoredCopy(q, s, o).headers) == MissHeaders(r, o)
  {
    hide Standing, ObjectHeaders, BaseHeaders, ClientCacheControl;
    ObjectHeadersVary(r, q, o);
    ObjectHeadersHoldBase(r, o);
    var stored := StoredCopy(q, s, o).headers;
    var hit, miss := HitHeaders(r, stored), MissHeaders(r, o);
    var mine, theirs := ObjectHeaders(r, o), ObjectHeaders(q, o);
    forall h ensures (h in hit <==> h in miss) && (h in hit ==> hit[h] == miss[h]) {
      assert h in BaseHeaders(r.requestId) ==> h in mine;
    }
  }

  /** A copy of an object answers any request for it just as the bucket would. */
  lemma HitAnswersAsMiss(r: Request, q: Request, s: Settings, o: Object)
    requires r.key == q.key
    ensures SameButCache(FromHit(r, StoredCopy(q, s, o)), FromBucket(r, s, Some(o)))
  {
    hide Standing, CacheNote, ObjectHeaders, ClientCacheControl, EtagMatches, BaseHeaders;
    StoredCopyIsImpersonal(q, q, s, s, o);
    HitHeadersMatch(r, q, s, o);
    var h := MissHeaders(r, o);
    assert FromHit(r, StoredCopy(q, s, o)).status == 200 ==> FromHit(r, StoredCopy(q, s, o)).headers - {CacheMark} == h - {CacheMark};
  }

  // ---- keys ----

  /** One cache key is one object on one host. */
  lemma CacheKeyIsInjective(h1: Text, k1: Text, h2: Text, k2: Text)
    requires SignedPath.SLASH !in h1 && SignedPath.SLASH !in h2
    requires CacheKey(h1, k1).Some? && CacheKey(h1, k1) == CacheKey(h2, k2)
    ensures h1 == h2 && k1 == k2
  {
    hide Ascii, SignedPath.EncodeKey, SignedPath.DecodeKey, Split, Before;
    var e1, e2 := SignedPath.EncodeKey(k1).value, SignedPath.EncodeKey(k2).value;
    var p, q := Ascii("https://"), Ascii("__object/");
    var c := CacheKey(h1, k1).value;
    SplitFirst(h1, SignedPath.SLASH, q + e1);
    SplitFirst(h2, SignedPath.SLASH, q + e2);
    assert c[|p|..] == h1 + [SignedPath.SLASH] + (q + e1) && c[|p|..] == h2 + [SignedPath.SLASH] + (q + e2);
    assert ([h1] + Split(q + e1, SignedPath.SLASH))[0] == h1 && ([h2] + Split(q + e2, SignedPath.SLASH))[0] == h2;
    var n := |p| + |h1| + 1 + |q|;
    assert c[n..] == e1 && c[n..] == e2;
    SignedPathFacts.KeyRoundTrip(k1);
    SignedPathFacts.KeyRoundTrip(k2);
  }

  // ---- whole runs ----

  datatype Event =
    | Ask(request: Request, atHead: Bucket, atGet: Bucket)
    | Land(which: nat)
    | Evict(cacheKey: Text)

  datatype State = State(entries: Cache, pending: seq<(Text, Response)>)

  function Step(s: Settings, st: State, e: Event): State {
    match e
    case Ask(r, atHead, atGet) =>
      var put := Serve(r, s, st.entries, atHead, atGet).put;
      st.(pending := st.pending + if put.Some? then [put.value] else [])
    case Land(i) =>
      if i >= |st.pending| then st
      else State(st.entries[st.pending[i].0 := st.pending[i].1], st.pending[..i] + st.pending[i + 1..])
    case Evict(cacheKey) => st.(entries := st.entries - {cacheKey})
  }

  function Run(s: Settings, events: seq<Event>): State {
    if events == [] then State(map[], []) else Step(s, Run(s, events[..|events| - 1]), events[|events| - 1])
  }

  /** Objects are written once and stay: whatever one moment's bucket holds, the next holds too. */
  predicate Keeps(now: Bucket, later: Bucket) {
    forall k :: k in now ==> k in later && later[k] == now[k]
  }

  /** The bucket as the last request of these left it. */
  function Seen(events: seq<Event>): Bucket {
    if events == [] then map[]
    else
      var e := events[|events| - 1];
      if e.Ask? then e.atGet else Seen(events[..|events| - 1])
  }

  predicate Immutable(events: seq<Event>) {
    events == [] ||
    (var e := events[|events| - 1];
     && Immutable(events[..|events| - 1])
     && (e.Ask? ==>
           && Keeps(Seen(events[..|events| - 1]), e.atHead) && Keeps(e.atHead, e.atGet)
           && SignedPath.SLASH !in e.request.host))
  }

  function Anyone(key: Text): Request { Request(false, None, None, [], key, 0, 0, []) }

  predicate EntryFor(s: Settings, bucket: Bucket, host: Text, key: Text, cacheKey: Text, entry: Response) {
    && SignedPath.SLASH !in host && CacheKey(host, key) == Some(cacheKey)
    && key in bucket && entry == StoredCopy(Anyone(key), s, bucket[key])
  }

  /** An entry is a copy of the object its key names. */
  ghost predicate EntrySound(s: Settings, bucket: Bucket, cacheKey: Text, entry: Response) {
    exists host, key :: EntryFor(s, bucket, host, key, cacheKey, entry)
  }

  ghost predicate Sound(s: Settings, bucket: Bucket, st: State) {
    && (forall k :: k in st.entries ==> EntrySound(s, bucket, k, st.entries[k]))
    && forall i :: 0 <= i < |st.pending| ==> EntrySound(s, bucket, st.pending[i].0, st.pending[i].1)
  }

  lemma EntryKept(s: Settings, now: Bucket, later: Bucket, cacheKey: Text, entry: Response)
    requires Keeps(now, later) && EntrySound(s, now, cacheKey, entry)
    ensures EntrySound(s, later, cacheKey, entry)
  {
    hide StoredCopy, CacheKey;
    var host, key :| EntryFor(s, now, host, key, cacheKey, entry);
    assert EntryFor(s, later, host, key, cacheKey, entry);
  }

  lemma SoundKept(s: Settings, now: Bucket, later: Bucket, st: State)
    requires Keeps(now, later) && Sound(s, now, st)
    ensures Sound(s, later, st)
  {
    hide EntrySound, Keeps;
    forall k | k in st.entries ensures EntrySound(s, later, k, st.entries[k]) { EntryKept(s, now, later, k, st.entries[k]); }
    forall i | 0 <= i < |st.pending| ensures EntrySound(s, later, st.pending[i].0, st.pending[i].1) {
      EntryKept(s, now, later, st.pending[i].0, st.pending[i].1);
    }
  }

  /** Whatever a request leaves to be stored is a copy of its object. */
  lemma PutIsSound(r: Request, s: Settings, cache: Cache, atHead: Bucket, atGet: Bucket)
    requires SignedPath.SLASH !in r.host && Serve(r, s, cache, atHead, atGet).put.Some?
    ensures var put := Serve(r, s, cache, atHead, atGet).put.value; EntrySound(s, atGet, put.0, put.1)
  {
    hide BeforeCache, CacheKey, FromHit, FromBucket, EtagMatches, StoredCopy;
    StoredCopyIsImpersonal(r, Anyone(r.key), s, s, atGet[r.key]);
    var put := Serve(r, s, cache, atHead, atGet).put.value;
    assert EntryFor(s, atGet, r.host, r.key, put.0, put.1);
  }

  lemma StepIsSound(s: Settings, st: State, e: Event, bucket: Bucket)
    requires Sound(s, bucket, st)
    requires e.Ask? ==> Keeps(bucket, e.atHead) && Keeps(e.atHead, e.atGet) && SignedPath.SLASH !in e.request.host
    ensures Sound(s, if e.Ask? then e.atGet else bucket, Step(s, st, e))
  {
    hide EntrySound, Keeps, Serve;
    match e {
      case Ask(r, atHead, atGet) =>
        SoundKept(s, bucket, atHead, st);
        SoundKept(s, atHead, atGet, st);
        if Serve(r, s, st.entries, atHead, atGet).put.Some? { PutIsSound(r, s, st.entries, atHead, atGet); }
      case Land(i) =>
      case Evict(_) =>
    }
  }

  lemma {:induction false} RunIsSound(s: Settings, events: seq<Event>)
    requires Immutable(events)
    ensures Sound(s, Seen(events), Run(s, events))
  {
    if events != [] {
      hide Sound, Step;
      RunIsSound(s, events[..|events| - 1]);
      StepIsSound(s, Run(s, events[..|events| - 1]), events[|events| - 1], Seen(events[..|events| - 1]));
    } else {
      assert Sound(s, map[], State(map[], []));
    }
  }

  /** After any requests, puts landing late or never, and evictions, the next answer is the one an
      empty cache would give, but for X-Kaviri-Cache. */
  lemma CacheIsInvisible(s: Settings, events: seq<Event>, r: Request, atHead: Bucket, atGet: Bucket)
    requires Immutable(events) && Keeps(Seen(events), atHead) && Keeps(atHead, atGet) && SignedPath.SLASH !in r.host
    ensures SameButCache(Serve(r, s, Run(s, events).entries, atHead, atGet).response, Serve(r, s, map[], atHead, atGet).response)
  {
    RunIsSound(s, events);
    var st := Run(s, events);
    SoundKept(s, Seen(events), atHead, st);
    SoundKept(s, atHead, atGet, st);
    hide Run, Immutable, Seen, Keeps;
    AnswerIsSame(s, st.entries, r, atHead, atGet);
  }

  lemma AnswerIsSame(s: Settings, entries: Cache, r: Request, atHead: Bucket, atGet: Bucket)
    requires (forall k :: k in entries ==> EntrySound(s, atGet, k, entries[k])) && SignedPath.SLASH !in r.host
    ensures SameButCache(Serve(r, s, entries, atHead, atGet).response, Serve(r, s, map[], atHead, atGet).response)
  {
    hide BeforeCache, CacheKey, FromHit, FromBucket, StoredCopy, EtagMatches;
    var cacheKey := CacheKey(r.host, r.key);
    if BeforeCache(r, atHead, atGet).None? && cacheKey.Some? && s.hasCache && cacheKey.value in entries {
      var entry := entries[cacheKey.value];
      var host, key :| EntryFor(s, atGet, host, key, cacheKey.value, entry);
      CacheKeyIsInjective(host, key, r.host, r.key);
      HitAnswersAsMiss(r, Anyone(key), s, atGet[key]);
    }
  }

  // ---- partial content ----

  /** A 206 carries exactly the bytes its Content-Range names, all of them inside the object. */
  lemma PartialIsExact(r: Request, s: Settings, cache: Cache, bucket: Bucket)
    ensures var a := Serve(r, s, cache, bucket, bucket).response;
      a.status == 206 ==>
      && r.key in bucket && ContentRange in a.headers && a.headers[ContentRange].Span?
      && var span, o := a.headers[ContentRange], bucket[r.key];
      && span.start <= span.end < span.size == |o.bytes|
      && a.body == o.bytes[span.start..span.end + 1]
      && ContentLength in a.headers && a.headers[ContentLength] == Count(|a.body|)
  {
    hide Standing, CacheNote, ContentType, Disposition, EtagMatches, Range.ParseRange, CacheKey, WorthCaching, ClientMaxAge;
    if r.key in bucket && Range.ParseRange(r.range, |bucket[r.key].bytes|).Partial? {
      Range.PartialIsInside(r.range, |bucket[r.key].bytes|);
    }
  }

  // ---- every answer ----

  /** How long a client may keep an answer. */
  predicate DiesWithTheLink(r: Request, v: Value) {
    v == NoStore || (v.MaxAge? && v.immutable && r.now + v.seconds <= r.expiresAt)
  }

  /** Whatever the cache holds, every answer to a live link carries its own request id, and either may
      not be kept or may be kept no longer than the link lives. */
  lemma NoAnswerOutlivesItsLink(r: Request, s: Settings, cache: Cache, atHead: Bucket, atGet: Bucket)
    requires r.now < r.expiresAt
    ensures var a := Serve(r, s, cache, atHead, atGet).response;
      && CacheControl in a.headers && DiesWithTheLink(r, a.headers[CacheControl])
      && RequestId in a.headers && a.headers[RequestId] == Words(r.requestId)
  {
    hide EtagMatches, Range.ParseRange, CacheKey, WorthCaching, Standing, CacheNote, ContentType, Disposition;
    BaseAndMaxAge(r);
    hide BaseHeaders, ClientCacheControl;
  }

  lemma BaseAndMaxAge(r: Request)
    requires r.now < r.expiresAt
    ensures DiesWithTheLink(r, ClientCacheControl(r))
    ensures RequestId in BaseHeaders(r.requestId) && BaseHeaders(r.requestId)[RequestId] == Words(r.requestId)
  {
    hide Standing, CacheNote;
  }

  /** HEAD tells what GET would: the same status and, but for X-Kaviri-Cache, the same headers. */
  lemma HeadTellsWhatGetWould(r: Request, s: Settings, bucket: Bucket)
    requires r.head && r.key in bucket && CacheKey(r.host, r.key).Some?
    ensures var get := r.(head := false, range := None);
      var a, b := Serve(r, s, map[], bucket, bucket).response, Serve(get, s, map[], bucket, bucket).response;
      a.status == b.status && a.headers - {CacheMark} == b.headers - {CacheMark} && a.body == []
  {
    hide EtagMatches, CacheKey, WorthCaching, Standing, CacheNote, ContentType, Disposition, ClientMaxAge, BaseHeaders;
    BaseHasNoCacheHeader(r.requestId);
    var o := bucket[r.key];
    var h := ObjectHeaders(r, o)[ContentLength := Count(|o.bytes|)];
    assert h[CacheControl := ClientCacheControl(r)] == h;
  }

  lemma BaseHasNoCacheHeader(requestId: Text)
    ensures CacheMark !in BaseHeaders(requestId)
  {
    hide Standing, CacheNote;
  }
}
