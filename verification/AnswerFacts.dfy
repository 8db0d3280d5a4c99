/** What the download worker answers, and when, in terms of the bucket and the header's own text. */
module AnswerFacts {
  import opened Wrappers
  import opened Strings
  import opened Delivery
  import opened DeliveryFacts
  import Range
  import SignedPath

  // ---- entity tags ----

  const QUOTE: Unit := '"' as int
  const WEAK: Text := ['W' as int, '/' as int]
  const STAR: Text := ['*' as int]

  /** A strong tag as the bucket writes them. */
  predicate QuotedTag(t: Text) { |t| >= 2 && t[0] == QUOTE && t[|t| - 1] == QUOTE && COMMA !in t }

  predicate AllSpace(t: Text) { forall c :: c in t ==> Range.IsSpace(c) }

  /** The text is this and white space around it. */
  predicate Padded(t: Text, before: Text, core: Text, after: Text) {
    t == before + core + after && AllSpace(before) && AllSpace(after)
  }

  ghost predicate Holds(t: Text, core: Text) { exists before, after :: Padded(t, before, core, after) }

  /** One entry of a list names this tag, weakly or strongly. */
  ghost predicate Names(part: Text, tag: Text) { Holds(part, tag) || Holds(part, WEAK + tag) }

  lemma {:induction false} TrimStartSplits(t: Text) returns (before: Text)
    ensures t == before + Range.TrimStart(t) && AllSpace(before)
  {
    if t != [] && Range.IsSpace(t[0]) {
      before := TrimStartSplits(t[1..]);
      before := [t[0]] + before;
    } else {
      before := [];
    }
  }

  lemma {:induction false} TrimEndSplits(t: Text) returns (after: Text)
    ensures t == Range.TrimEnd(t) + after && AllSpace(after)
  {
    if t != [] && Range.IsSpace(t[|t| - 1]) {
      after := TrimEndSplits(t[..|t| - 1]);
      after := after + [t[|t| - 1]];
    } else {
      after := [];
    }
  }

  lemma {:induction false} TrimStartPadded(before: Text, t: Text)
    requires AllSpace(before) && t != [] && !Range.IsSpace(t[0])
    ensures Range.TrimStart(before + t) == t
  {
    if before == [] {
      assert before + t == t;
    } else {
      assert (before + t)[1..] == before[1..] + t;
      TrimStartPadded(before[1..], t);
    }
  }

  lemma {:induction false} TrimEndPadded(t: Text, after: Text)
    requires AllSpace(after) && t != [] && !Range.IsSpace(t[|t| - 1])
    ensures Range.TrimEnd(t + after) == t
  {
    if after == [] {
      assert t + after == t;
    } else {
      assert (t + after)[..|t + after| - 1] == t + after[..|after| - 1];
      assert (t + after)[|t + after| - 1] == after[|after| - 1];
      TrimEndPadded(t, after[..|after| - 1]);
    }
  }

  lemma HoldsExactlyWhenTrimmed(t: Text, core: Text)
    requires core != [] && !Range.IsSpace(core[0]) && !Range.IsSpace(core[|core| - 1])
    ensures Holds(t, core) <==> Range.Trim(t) == core
  {
    hide Range.TrimStart, Range.TrimEnd, Range.IsSpace;
    if before, after :| Padded(t, before, core, after) {
      assert t == before + (core + after) && (core + after)[0] == core[0];
      TrimStartPadded(before, core + after);
      TrimEndPadded(core, after);
    }
    if Range.Trim(t) == core {
      var before := TrimStartSplits(t);
      var after := TrimEndSplits(Range.TrimStart(t));
      assert Padded(t, before, core, after);
    }
  }

  lemma NamesExactlyWhenAlike(part: Text, tag: Text)
    requires QuotedTag(tag)
    ensures Names(part, tag) <==> Normalised(part) == Normalised(tag)
  {
    hide Range.Trim, Holds;
    QuotesAreNotSpace();
    HoldsExactlyWhenTrimmed(part, tag);
    HoldsExactlyWhenTrimmed(part, WEAK + tag);
    TrimmedAlready(tag);
    var t := Range.Trim(part);
    if |t| >= 2 && t[0] == 'W' as int && t[1] == '/' as int { assert t == WEAK + t[2..]; }
    assert (WEAK + tag)[2..] == tag;
  }

  lemma QuotesAreNotSpace()
    ensures !Range.IsSpace(QUOTE) && !Range.IsSpace('W' as int) && !Range.IsSpace('*' as int)
  {
  }

  lemma TrimmedAlready(t: Text)
    requires t != [] && !Range.IsSpace(t[0]) && !Range.IsSpace(t[|t| - 1])
    ensures Range.Trim(t) == t
  {
  }

  /** If-None-Match, read as the list it is, matches a tag exactly if one of its entries names it, weak or
      strong, or if all it holds is a star. Nothing matches an absent or an empty header. */
  lemma TagMatchesExactlyWhen(parts: seq<Text>, tag: Text)
    requires QuotedTag(tag) && parts != [] && forall p :: p in parts ==> COMMA !in p
    ensures var header := Join(parts, COMMA);
      EtagMatches(Some(header), tag) <==> Holds(header, STAR) || exists p :: p in parts && Names(p, tag)
    ensures !EtagMatches(None, tag)
  {
    hide Range.Trim, Holds, Names, Normalised, Split, Join;
    var header := Join(parts, COMMA);
    SplitOfJoin(parts, COMMA);
    QuotesAreNotSpace();
    HoldsExactlyWhenTrimmed(header, STAR);
    StarIsAscii();
    forall p ensures Names(p, tag) <==> Normalised(p) == Normalised(tag) { NamesExactlyWhenAlike(p, tag); }
    if header == [] {
      EmptySplitsToEmpty();
      EmptyNamesNothing(tag);
      assert parts == [[]];
    }
  }

  lemma StarIsAscii()
    ensures Ascii("*") == STAR
  {
  }

  lemma EmptySplitsToEmpty()
    ensures Split([], COMMA) == [[]]
  {
  }

  lemma EmptyNamesNothing(tag: Text)
    requires QuotedTag(tag)
    ensures !Names([], tag) && !Holds([], STAR)
  {
  }

  // ---- the whole object ----

  /** The headers say of the object what there is to say. */
  predicate Describes(h: Headers, o: Object) {
    && ETag in h && h[ETag] == Words(o.etag)
    && ContentLength in h && h[ContentLength] == Count(|o.bytes|)
    && ArtifactBytes in h && h[ArtifactBytes] == Count(|o.bytes|)
    && ContentTypeHeader in h && h[ContentTypeHeader] == Words(ContentType(o))
    && AcceptRanges in h && h[AcceptRanges] == Words(Ascii("bytes"))
  }

  lemma MissDescribes(r: Request, o: Object)
    ensures Describes(MissHeaders(r, o), o)
  {
    hide ContentType, Disposition, ClientCacheControl, Ascii, BaseHeaders;
  }

  lemma WholeFromBucket(r: Request, s: Settings, o: Object)
    ensures var a := FromBucket(r, s, Some(o));
      && a.status == (if EtagMatches(r.ifNoneMatch, o.etag) then 304 else 200)
      && (a.status == 200 ==> a.body == o.bytes && Describes(a.headers, o))
      && (a.status == 304 ==> a.body == [] && ETag in a.headers && a.headers[ETag] == Words(o.etag))
  {
    hide EtagMatches, ObjectHeaders, WorthCaching, Describes, ClientCacheControl, Ascii;
    MissDescribes(r, o);
    DescribesWithMark(MissHeaders(r, o), o, Words(CacheNote(Miss)));
    DescribesWithMark(MissHeaders(r, o), o, Words(CacheNote(Bypass)));
  }

  lemma DescribesWithMark(h: Headers, o: Object, mark: Value)
    requires Describes(h, o)
    ensures Describes(h[CacheMark := mark], o)
  {
    hide ContentType, Ascii;
  }

  /** An answer that does not come from the cache, by its status. */
  lemma UncachedAnswer(r: Request, s: Settings, bucket: Bucket)
    requires CacheKey(r.host, r.key).Some?
    ensures var a := Serve(r, s, map[], bucket, bucket).response;
      && (r.key !in bucket ==> a.status == 404)
      && (r.key in bucket ==>
            var o := bucket[r.key];
            var asked := Range.ParseRange(r.range, |o.bytes|);
            && a.status == (if EtagMatches(r.ifNoneMatch, o.etag) then 304
                            else if r.head || asked.Full? then 200
                            else if asked.Unsatisfiable? then 416 else 206)
            && (a.status == 200 && !r.head ==> a.body == o.bytes && Describes(a.headers, o)))
  {
    hide EtagMatches, ObjectHeaders, WorthCaching, Describes, ClientCacheControl, CacheKey, FromBucket, Range.ParseRange, Ascii;
    NoRangeIsAll(r);
    if r.key in bucket { WholeFromBucket(r, s, bucket[r.key]); } else { NothingFromBucket(r, s); }
    PartialStatus(r, bucket);
  }

  lemma NothingFromBucket(r: Request, s: Settings)
    ensures FromBucket(r, s, None).status == 404
  {
  }

  lemma NoRangeIsAll(r: Request)
    ensures r.range.None? || r.range.value == [] ==> forall size :: Range.ParseRange(r.range, size).Full?
  {
  }

  lemma PartialStatus(r: Request, bucket: Bucket)
    ensures r.key in bucket && !EtagMatches(r.ifNoneMatch, bucket[r.key].etag) && !r.head ==>
      var parsed := Range.ParseRange(r.range, |bucket[r.key].bytes|);
      && (parsed.Partial? ==> BeforeCache(r, bucket, bucket).Some? && BeforeCache(r, bucket, bucket).value.status == 206)
      && (parsed.Unsatisfiable? ==> BeforeCache(r, bucket, bucket).Some? && BeforeCache(r, bucket, bucket).value.status == 416)
  {
    hide EtagMatches, ObjectHeaders, Range.ParseRange, Ascii;
    NoRangeIsAll(r);
    if r.key in bucket && Range.ParseRange(r.range, |bucket[r.key].bytes|).Partial? {
      Range.PartialIsInside(r.range, |bucket[r.key].bytes|);
    }
  }

  /** After any requests, puts landing late or never, and evictions over objects that are written once: 404
      exactly for what is not there, 304 exactly for a tag the client has, and else the answer the range
      asks for. A whole object, from the cache or not, is that object's bytes, and its headers are
      about them. */
  lemma AnswerIsTheObject(s: Settings, events: seq<Event>, r: Request, bucket: Bucket)
    requires Immutable(events) && Keeps(Seen(events), bucket)
    requires SignedPath.SLASH !in r.host && CacheKey(r.host, r.key).Some?
    ensures var a := Serve(r, s, Run(s, events).entries, bucket, bucket).response;
      && (a.status == 404 <==> r.key !in bucket)
      && (r.key in bucket ==>
            var o := bucket[r.key];
            var asked := Range.ParseRange(r.range, |o.bytes|);
            && a.status == (if EtagMatches(r.ifNoneMatch, o.etag) then 304
                            else if r.head || asked.Full? then 200
                            else if asked.Unsatisfiable? then 416 else 206)
            && (a.status == 200 && !r.head ==> a.body == o.bytes && Describes(a.headers, o)))
  {
    hide Run, Immutable, Serve, EtagMatches, Describes, Range.ParseRange, CacheKey;
    KeepsItself(bucket);
    CacheIsInvisible(s, events, r, bucket, bucket);
    UncachedAnswer(r, s, bucket);
    var a, b := Serve(r, s, Run(s, events).entries, bucket, bucket).response, Serve(r, s, map[], bucket, bucket).response;
    if r.key in bucket { DescribesAlike(a.headers, b.headers, bucket[r.key]); }
  }

  lemma KeepsItself(bucket: Bucket)
    ensures Keeps(bucket, bucket)
  {
  }

  lemma DescribesAlike(g: Headers, h: Headers, o: Object)
    requires g - {CacheMark} == h - {CacheMark}
    ensures Describes(g, o) <==> Describes(h, o)
  {
    hide ContentType, Ascii;
    forall x: Header | x != CacheMark ensures (x in g <==> x in h) && (x in g ==> g[x] == h[x]) {
      assert x in g <==> x in g - {CacheMark};
      assert x in h <==> x in h - {CacheMark};
      if x in g { assert (g - {CacheMark})[x] == (h - {CacheMark})[x]; }
    }
  }

  // ---- types ----

  /** A type is handed back as itself only if it is one of eight, and anything else is a download of
      nothing in particular. */
  lemma OnlyEightTypesAreShown(o: Object, key: Text)
    ensures var shown, disposition := ContentType(o), Disposition(o, key);
      || (shown == Ascii("application/octet-stream") && Ascii("attachment; ") <= disposition)
      || (Ascii("inline; ") <= disposition
          && (|| shown == Ascii("video/mp4") || shown == Ascii("video/webm") || shown == Ascii("image/png") || shown == Ascii("image/jpeg")
              || shown == Ascii("image/webp") || shown == Ascii("image/avif")
              || shown == Ascii("application/json; charset=utf-8") || shown == Ascii("text/plain; charset=utf-8")))
  {
    hide Declared, Sanitised, LastSegment, Ascii, Servable;
    AsciiAdds(JSON_TYPE, "; charset=utf-8");
    AsciiAdds(PLAIN_TYPE, "; charset=utf-8");
    AsciiAdds("inline; ", "filename=\"");
    AsciiAdds("attachment; ", "filename=\"");
    var declared := Declared(o.contentType);
    assert declared + [] == declared;
    assert JSON_TYPE + "; charset=utf-8" == "application/json; charset=utf-8";
    assert PLAIN_TYPE + "; charset=utf-8" == "text/plain; charset=utf-8";
    assert "inline; " + "filename=\"" == "inline; filename=\"" && "attachment; " + "filename=\"" == "attachment; filename=\"";
    if Servable(declared) { ServableIsOneOfEight(declared); }
  }

  lemma ServableIsOneOfEight(declared: Text)
    requires Servable(declared)
    ensures || declared == Ascii("video/mp4") || declared == Ascii("video/webm") || declared == Ascii("image/png") || declared == Ascii("image/jpeg")
            || declared == Ascii("image/webp") || declared == Ascii("image/avif") || declared == Ascii(JSON_TYPE) || declared == Ascii(PLAIN_TYPE)
  {
    hide Ascii;
  }

  lemma AsciiAdds(a: string, b: string)
    ensures Ascii(a) + Ascii(b) == Ascii(a + b)
  {
  }

  /** What a stored type declares: everything before a semicolon, trimmed, in lower case. */
  lemma DeclaredIsItsType(kind: Text, rest: Text)
    requires kind != [] && !Range.IsSpace(kind[0]) && !Range.IsSpace(kind[|kind| - 1])
    requires ';' as int !in kind && forall c :: c in kind ==> !IsUpper(c)
    ensures Declared(Some(kind)) == kind && Declared(Some(kind + [';' as int] + rest)) == kind
  {
    hide Range.Trim;
    SplitFirst(kind, ';' as int, rest);
    BeforeNothing(kind, ';' as int);
    TrimmedAlready(kind);
  }

  /** A file with a safe name is handed back under it: the key's last segment. */
  lemma FileKeepsItsName(o: Object, folder: Text, name: Text) returns (manner: Text)
    requires 0 < |name| <= 120 && forall c :: c in name ==> SafeInFilename(c)
    ensures manner == Ascii("inline") || manner == Ascii("attachment")
    ensures Disposition(o, folder + [SignedPath.SLASH] + name) == manner + Ascii("; filename=\"") + name + Ascii("\"")
    ensures Disposition(o, name) == Disposition(o, folder + [SignedPath.SLASH] + name)
  {
    hide Declared, Servable, Ascii, Split;
    assert SignedPath.SLASH !in name;
    LastOfKey(folder, name);
    SafeNameStays(name);
    AsciiAdds("inline", "; filename=\"");
    AsciiAdds("attachment", "; filename=\"");
    assert "inline" + "; filename=\"" == "inline; filename=\"" && "attachment" + "; filename=\"" == "attachment; filename=\"";
    manner := if Servable(Declared(o.contentType)) then Ascii("inline") else Ascii("attachment");
  }

  lemma {:induction false} LastOfKey(folder: Text, name: Text)
    requires SignedPath.SLASH !in name
    ensures LastSegment(folder + [SignedPath.SLASH] + name) == name && LastSegment(name) == name
    decreases |folder|
  {
    var first := Before(folder, SignedPath.SLASH);
    BeforeNothing(name, SignedPath.SLASH);
    if first == folder {
      SplitFirst(folder, SignedPath.SLASH, name);
    } else {
      var rest := folder[|first| + 1..];
      assert folder + [SignedPath.SLASH] + name == first + [SignedPath.SLASH] + (rest + [SignedPath.SLASH] + name);
      SplitFirst(first, SignedPath.SLASH, rest + [SignedPath.SLASH] + name);
      LastOfKey(rest, name);
    }
  }

  lemma SafeNameStays(name: Text)
    requires 0 < |name| <= 120 && forall c :: c in name ==> SafeInFilename(c)
    ensures Sanitised(name) == name
  {
    hide SafeInFilename;
    assert forall i :: 0 <= i < |name| ==> name[i] in name;
  }

  // ---- ages ----

  /** A client may keep a whole answer for just as long as the link lives, up to a year. */
  lemma KeptForTheLinksLife(expiresAt: int, now: int)
    requires now <= expiresAt
    ensures ClientMaxAge(expiresAt, now) == if expiresAt - now <= 31_536_000 then expiresAt - now else 31_536_000
  {
  }

  // ---- the cache is used ----

  /** A whole object is left to be stored exactly when there is a cache, the object is not empty and within
      its size, and the edge may keep it for a time; stored, it may be kept for that time. The answer says
      so: miss if it is to be stored, and bypass if not. */
  lemma StoredExactlyWhen(r: Request, s: Settings, bucket: Bucket)
    requires !r.head && r.range.None? && r.ifNoneMatch.None? && CacheKey(r.host, r.key).Some?
    ensures var put := Serve(r, s, map[], bucket, bucket).put;
      && (put.Some? <==>
            r.key in bucket && s.hasCache && 0 < |bucket[r.key].bytes| && |bucket[r.key].bytes| <= s.cacheMaxBytes && s.edgeSeconds > 0)
      && (put.Some? ==>
            && put.value.0 == CacheKey(r.host, r.key).value
            && put.value.1.body == bucket[r.key].bytes
            && CacheControl in put.value.1.headers && put.value.1.headers[CacheControl] == MaxAge(s.edgeSeconds, false))
    ensures r.key in bucket ==>
      var served := Serve(r, s, map[], bucket, bucket);
      CacheMark in served.response.headers
      && served.response.headers[CacheMark] == Words(if served.put.Some? then Ascii("miss") else Ascii("bypass"))
  {
    hide ObjectHeaders, CacheKey, Ascii, BaseHeaders;
  }

  /** And once it is stored the next request for it, from anyone on that host, is answered from there, even
      if the bucket could no longer be read. */
  lemma StoredIsHit(r: Request, s: Settings, cache: Cache, bucket: Bucket, stored: Response)
    requires !r.head && r.range.None? && r.ifNoneMatch.None? && s.hasCache
    requires CacheKey(r.host, r.key).Some? && CacheKey(r.host, r.key).value in cache && cache[CacheKey(r.host, r.key).value] == stored
    ensures var a := Serve(r, s, cache, bucket, bucket).response;
      a.status == 200 && a.body == stored.body && CacheMark in a.headers && a.headers[CacheMark] == Words(Ascii("hit"))
  {
    hide CacheKey, Ascii, BaseHeaders, Split;
  }
}
