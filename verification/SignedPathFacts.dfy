/** A minted link opens, until it expires, exactly what it was minted for, and nothing else. */
module SignedPathFacts {
  import opened Wrappers
  import opened Strings
  import opened Utf8
  import opened SignedPath
  import Base64
  import Percent

  // ---- the expiry segment ----

  lemma {:induction false} Base36RoundTrip(n: nat)
    ensures ParseBase36(ToBase36(n)) == n
  {
    var t := ToBase36(n);
    if n < 36 {
      assert t[..0] == [];
    } else {
      Base36RoundTrip(n / 36);
      assert t[..|t| - 1] == ToBase36(n / 36);
    }
  }

  function Power36(k: nat): nat { if k == 0 then 1 else 36 * Power36(k - 1) }

  lemma {:induction false} Base36Length(n: nat, k: nat)
    requires k > 0
    ensures |ToBase36(n)| <= k <==> n < Power36(k)
  {
    if k == 1 {
      assert Power36(1) == 36 * Power36(0);
    } else if n >= 36 {
      Base36Length(n / 36, k - 1);
      var p := Power36(k - 1);
      assert n / 36 < p <==> n < 36 * p;
    } else {
      Base36Length(n, k - 1);
    }
  }

  // ---- keys through percent-encoding ----

  lemma {:induction false} SegmentsRoundTrip(segments: seq<Text>)
    requires EncodeAll(segments).Some?
    ensures var encoded := EncodeAll(segments).value;
      && |encoded| == |segments|
      && DecodeAll(encoded) == Some(segments)
      && forall e :: e in encoded ==> SLASH !in e
  {
    if segments != [] {
      SegmentsRoundTrip(segments[1..]);
      Percent.EncodeRoundTrip(segments[0]);
      Percent.EncodeIsEncoded(segments[0]);
      var encoded := EncodeAll(segments).value;
      assert encoded[1..] == EncodeAll(segments[1..]).value;
      assert segments == [segments[0]] + segments[1..];
      hide Percent.Encode, Percent.Decode;
    }
  }

  /** A key that encodes comes back from the segments of its encoding. */
  lemma KeyRoundTrip(key: Text)
    requires EncodeKey(key).Some?
    ensures DecodeKey(Split(EncodeKey(key).value, SLASH)) == Some(key)
  {
    hide Split, Join, EncodeAll, DecodeAll;
    var segments := Split(key, SLASH);
    SegmentsRoundTrip(segments);
    var encoded := EncodeAll(segments).value;
    assert encoded != [];
    SplitOfJoin(encoded, SLASH);
    JoinOfSplit(key, SLASH);
  }

  lemma {:induction false} PairedAround(first: Text, sep: Unit, rest: Text)
    requires !IsHigh(sep) && !IsLow(sep)
    ensures Paired(first + [sep] + rest) <==> Paired(first) && Paired(rest)
    decreases |first|
  {
    var t := first + [sep] + rest;
    if first == [] {
      assert t[1..] == rest;
    } else {
      var n := HeadLength(first);
      assert StartsWithPair(t) <==> StartsWithPair(first);
      assert t[n..] == first[n..] + [sep] + rest;
      PairedAround(first[n..], sep, rest);
    }
  }

  lemma {:induction false} EncodesExactlyWhenPaired(key: Text)
    ensures EncodeAll(Split(key, SLASH)).Some? <==> Paired(key)
    decreases |key|
  {
    hide Percent.Encode, Paired;
    var first := Before(key, SLASH);
    Percent.EncodesExactlyWhenPaired(first);
    if first == key {
      assert Split(key, SLASH)[1..] == [];
      assert EncodeAll([]).Some?;
    } else {
      var rest := key[|first| + 1..];
      assert key == first + [SLASH] + rest;
      assert Split(key, SLASH)[1..] == Split(rest, SLASH);
      PairedAround(first, SLASH, rest);
      EncodesExactlyWhenPaired(rest);
    }
  }

  /** A link is minted for exactly the valid keys without half a surrogate pair, given a secret; it
      lives at least a second and at most the lesser of a year and the caller's ceiling. */
  lemma MintsExactlyWhen(mac: Mac, key: Text, ttlSeconds: real, maxTtl: Option<real>, secret: Text, now: nat, fraction: FractionText)
    ensures var m := Mint(mac, key, ttlSeconds, maxTtl, secret, now, fraction);
      && (m.Ok? <==> IsValidObjectKey(key) && secret != [] && Paired(key))
      && (m.Ok? ==> now as real < m.value.expiresAt <= (now + MAX_TTL_SECONDS) as real)
      && (m.Ok? && maxTtl.Some? && maxTtl.value >= 1.0 ==> m.value.expiresAt <= now as real + maxTtl.value)
  {
    hide Split, Join, IsValidObjectKey, Paired, NumberText36, Signature;
    EncodesExactlyWhenPaired(key);
  }

  /** A life no longer than the whole seconds asked for, than a year or than the caller's ceiling. */
  predicate MayLast(life: real, ttlSeconds: real, maxTtl: Option<real>) {
    life <= ttlSeconds.Floor as real && life <= 31_536_000.0 && (maxTtl.Some? ==> life <= maxTtl.value)
  }

  /** It lives as long as it may, and a second where it may live no longer. */
  lemma LinkLivesAsLongAsItMay(mac: Mac, key: Text, ttlSeconds: real, maxTtl: Option<real>, secret: Text, now: nat, fraction: FractionText)
    requires Mint(mac, key, ttlSeconds, maxTtl, secret, now, fraction).Ok?
    ensures var life := Mint(mac, key, ttlSeconds, maxTtl, secret, now, fraction).value.expiresAt - now as real;
      && (MayLast(life, ttlSeconds, maxTtl) || (life == 1.0 && !MayLast(1.0, ttlSeconds, maxTtl)))
      && forall other :: MayLast(other, ttlSeconds, maxTtl) ==> other <= life
  {
    hide Split, Join, IsValidObjectKey, NumberText36, Signature, EncodeKey;
  }

  /** A key of unreserved characters is readable in its link: it encodes to itself. */
  lemma {:induction false} ReadableKeyStays(key: Text)
    requires forall c :: c in key ==> Percent.Unreserved(c) || c == SLASH
    ensures EncodeKey(key) == Some(key)
  {
    hide Percent.Encode, Percent.Unreserved, Split, Join;
    forall s | s in Split(key, SLASH) ensures Percent.Encode(s) == Some(s) {
      PartsAreWithin(key, s);
      Percent.UnreservedStays(s);
    }
    AllStay(Split(key, SLASH));
    JoinOfSplit(key, SLASH);
  }

  lemma {:induction false} AllStay(segments: seq<Text>)
    requires forall s :: s in segments ==> Percent.Encode(s) == Some(s)
    ensures EncodeAll(segments) == Some(segments)
  {
    hide Percent.Encode;
    if segments != [] {
      assert forall s :: s in segments[1..] ==> s in segments;
      AllStay(segments[1..]);
      assert segments == [segments[0]] + segments[1..];
    }
  }

  lemma {:induction false} PartsAreWithin(t: Text, part: Text)
    requires part in Split(t, SLASH)
    ensures forall c :: c in part ==> c in t && c != SLASH
    decreases |t|
  {
    var first := Before(t, SLASH);
    if first != t && part != first { PartsAreWithin(t[|first| + 1..], part); }
  }

  /** The ceiling, with a fraction, is what ends the link: nothing tighter does. */
  predicate EndsOnAFraction(ttlSeconds: real, maxTtl: Option<real>) {
    && maxTtl.Some? && !IsWhole(maxTtl.value)
    && 1.0 < maxTtl.value < ttlSeconds.Floor as real && maxTtl.value < MAX_TTL_SECONDS as real
  }

  lemma ExpiryIsWholeExactlyWhen(ttlSeconds: real, maxTtl: Option<real>, now: nat)
    ensures IsWhole(now as real + Ttl(ttlSeconds, maxTtl)) <==> !EndsOnAFraction(ttlSeconds, maxTtl)
  {
    hide IsWhole;
    WholeAfterShift(now, Ttl(ttlSeconds, maxTtl));
    IntegersAreWhole(1);
    IntegersAreWhole(MAX_TTL_SECONDS);
    IntegersAreWhole(ttlSeconds.Floor);
  }

  lemma IntegersAreWhole(n: int)
    ensures IsWhole(n as real)
  {
  }

  lemma WholeAfterShift(n: nat, x: real)
    ensures IsWhole(n as real + x) <==> IsWhole(x)
  {
    assert (n as real + x).Floor == n + x.Floor;
  }

  // ---- the whole path ----

  /** Where a path's segments fall. */
  lemma SegmentsOfPath(expiry: Text, sig: Text, encoded: Text)
    requires SLASH !in expiry && SLASH !in sig
    ensures Split(WithoutLeadingSlashes([SLASH] + VERSION + [SLASH] + (expiry + [SLASH] + (sig + [SLASH] + encoded))), SLASH)
      == [VERSION, expiry, sig] + Split(encoded, SLASH)
  {
    hide Split;
    var afterVersion := expiry + [SLASH] + (sig + [SLASH] + encoded);
    var path := [SLASH] + VERSION + [SLASH] + afterVersion;
    assert path[1..] == VERSION + [SLASH] + afterVersion;
    assert VERSION[0] != SLASH;
    assert WithoutLeadingSlashes(path[1..]) == path[1..];
    SplitFirst(VERSION, SLASH, afterVersion);
    SplitFirst(expiry, SLASH, sig + [SLASH] + encoded);
    SplitFirst(sig, SLASH, encoded);
  }

  lemma SignatureShape(mac: Mac, secret: Text, expiry: Text, key: Text)
    ensures IsSignatureSegment(Signature(mac, secret, expiry, key)) && SLASH !in Signature(mac, secret, expiry, key)
  {
    hide TextEncode, CanonicalMessage;
    Base64.Base64UrlShape(mac(secret, TextEncode(CanonicalMessage(expiry, key))));
  }

  lemma ExpirySegmentExactlyWhen(x: real, fraction: FractionText)
    requires x >= 0.0
    ensures SLASH !in NumberText36(x, fraction)
    ensures IsExpirySegment(NumberText36(x, fraction)) <==> IsWhole(x) && x < Power36(12) as real
    ensures IsWhole(x) ==> NumberText36(x, fraction) == ToBase36(x.Floor)
  {
    hide ToBase36, Power36;
    Base36Length(x.Floor, MAX_EXPIRY_LENGTH);
    if !IsWhole(x) { assert POINT in NumberText36(x, fraction); }
  }

  /** A minted link verifies with its secret anywhere in the list: until it expires it opens the very
      key and moment it was minted for, and from then on it is expired. It fails exactly when no
      verifier can read its expiry: one beyond twelve base-36 digits, or one that ends on a fraction. */
  lemma MintedLinkOpensItsKey(mac: Mac, key: Text, ttlSeconds: real, maxTtl: Option<real>, secret: Text, minting: nat,
      fraction: FractionText, secrets: seq<Text>, now: int)
    requires Mint(mac, key, ttlSeconds, maxTtl, secret, minting, fraction).Ok? && secret in secrets
    ensures var m := Mint(mac, key, ttlSeconds, maxTtl, secret, minting, fraction).value;
      Verify(mac, m.path, secrets, now) ==
        if EndsOnAFraction(ttlSeconds, maxTtl) || m.expiresAt >= Power36(12) as real then Err(Malformed)
        else if m.expiresAt <= now as real then Err(LinkExpired)
        else Ok(Verified(key, m.expiresAt.Floor))
  {
    hide Split, WithoutLeadingSlashes, ToBase36, ParseBase36, EncodeKey, DecodeKey, IsValidObjectKey, Signature,
      IsSignatureSegment, IsExpirySegment, Ttl, Power36, NumberText36, EndsOnAFraction;
    var m := Mint(mac, key, ttlSeconds, maxTtl, secret, minting, fraction).value;
    var expiry := NumberText36(m.expiresAt, fraction);
    var sig := Signature(mac, secret, expiry, key);
    var encoded := EncodeKey(key).value;
    ExpiryIsWholeExactlyWhen(ttlSeconds, maxTtl, minting);
    ExpirySegmentExactlyWhen(m.expiresAt, fraction);
    SignatureShape(mac, secret, expiry, key);
    SegmentsOfPath(expiry, sig, encoded);
    KeyRoundTrip(key);
    Base36RoundTrip(m.expiresAt.Floor);
    var segments := Split(WithoutLeadingSlashes(m.path), SLASH);
    assert segments[3..] == Split(encoded, SLASH) && segments[0] == VERSION && segments[1] == expiry && segments[2] == sig;
    assert Signed(mac, secrets, expiry, key, sig);
  }

  // ---- no signature is good for anything else ----

  /** The signed bytes decide the expiry segment and the key. */
  lemma MessageDecides(e1: Text, k1: Text, e2: Text, k2: Text)
    requires IsExpirySegment(e1) && IsExpirySegment(e2) && Paired(k1) && Paired(k2)
    requires TextEncode(CanonicalMessage(e1, k1)) == TextEncode(CanonicalMessage(e2, k2))
    ensures e1 == e2 && k1 == k2
  {
    MessageIsPaired(e1, k1);
    MessageIsPaired(e2, k2);
    EncodingIsInjective(CanonicalMessage(e1, k1), CanonicalMessage(e2, k2));
    hide TextEncode, Paired;
    MessageRest(e1, k1);
    MessageRest(e2, k2);
    ExpiryHasNoNewline(e1);
    ExpiryHasNoNewline(e2);
    SplitFirst(e1, NEWLINE, k1);
    SplitFirst(e2, NEWLINE, k2);
    assert ([e1] + Split(k1, NEWLINE))[0] == e1 && ([e2] + Split(k2, NEWLINE))[0] == e2;
    var t := e1 + [NEWLINE] + k1;
    assert k1 == t[|e1| + 1..] && k2 == t[|e2| + 1..];
  }

  lemma MessageRest(expiry: Text, key: Text)
    ensures var m := CanonicalMessage(expiry, key); |m| >= 12 && m[12..] == expiry + [NEWLINE] + key
  {
  }

  lemma ExpiryHasNoNewline(expiry: Text)
    requires IsExpirySegment(expiry)
    ensures NEWLINE !in expiry
  {
  }

  lemma MessageIsPaired(expiry: Text, key: Text)
    requires IsExpirySegment(expiry) && Paired(key)
    ensures Paired(CanonicalMessage(expiry, key))
  {
    hide Paired;
    var head := MESSAGE_HEAD + [NEWLINE] + expiry + [NEWLINE];
    forall c | c in head ensures !IsHigh(c) && !IsLow(c) {
      assert c in MESSAGE_HEAD || c == NEWLINE || c in expiry;
    }
    PlainIsPaired(head);
    PairedAppend(head, key);
  }

  lemma {:induction false} DecodedKeyIsPaired(segments: seq<Text>)
    requires DecodeAll(segments).Some? && forall s :: s in segments ==> IsAscii(s)
    ensures Paired(Join(DecodeAll(segments).value, SLASH))
  {
    hide Percent.Decode;
    var decoded := DecodeAll(segments);
    if segments != [] {
      assert segments[0] in segments;
      Percent.DecodedIsPaired(segments[0]);
      DecodedKeyIsPaired(segments[1..]);
      assert decoded.value[1..] == DecodeAll(segments[1..]).value;
      if |segments| > 1 { PairedAround(decoded.value[0], SLASH, Join(decoded.value[1..], SLASH)); }
    }
  }

  /** What a URL's pathname always is. */
  predicate IsAscii(t: Text) { forall c :: c in t ==> c < 0x80 }

  lemma {:induction false} PiecesAreAscii(t: Text)
    requires IsAscii(t)
    ensures forall s :: s in Split(t, SLASH) ==> IsAscii(s)
    decreases |t|
  {
    var first := Before(t, SLASH);
    assert first == t[..|first|];
    assert forall c :: c in first ==> c in t;
    if first != t {
      var rest := t[|first| + 1..];
      assert forall c :: c in rest ==> c in t;
      PiecesAreAscii(rest);
    }
  }

  lemma {:induction false} StrippedIsAscii(t: Text)
    requires IsAscii(t)
    ensures IsAscii(WithoutLeadingSlashes(t))
  {
    if t != [] && t[0] == SLASH {
      assert forall c :: c in t[1..] ==> c in t;
      StrippedIsAscii(t[1..]);
    }
  }

  function SegmentsOf(pathname: Text): seq<Text> { Split(WithoutLeadingSlashes(pathname), SLASH) }

  lemma AcceptedKeyIsPaired(mac: Mac, pathname: Text, secrets: seq<Text>, now: int)
    requires IsAscii(pathname) && Verify(mac, pathname, secrets, now).Ok?
    ensures Paired(Verify(mac, pathname, secrets, now).value.key)
  {
    hide Split, WithoutLeadingSlashes, DecodeAll, IsValidObjectKey, Signed, Paired, Join, IsAscii;
    var segments := SegmentsOf(pathname);
    StrippedIsAscii(pathname);
    PiecesAreAscii(WithoutLeadingSlashes(pathname));
    forall s | s in segments[3..] ensures IsAscii(s) { assert s in segments; }
    DecodedKeyIsPaired(segments[3..]);
  }

  lemma SignatureDecidesDigest(b: seq<Byte>, c: seq<Byte>)
    requires Base64.Base64Url(b) == Base64.Base64Url(c)
    ensures b == c
  {
    hide Base64.Base64Url;
    Base64.Base64UrlRoundTrip(b);
    Base64.Base64UrlRoundTrip(c);
  }

  /** A signature issued for one expiry and key is accepted for no other pair, unless the MAC itself
      gives two different messages one digest: an acceptance anywhere else exhibits both. */
  lemma AcceptedElsewhereIsACollision(mac: Mac, pathname: Text, secrets: seq<Text>, now: int, secret: Text, expiry: Text, key: Text)
    requires IsAscii(pathname) && IsExpirySegment(expiry) && Paired(key)
    ensures Verify(mac, pathname, secrets, now).Ok? && SegmentsOf(pathname)[2] == Signature(mac, secret, expiry, key) ==>
      var v := Verify(mac, pathname, secrets, now).value;
      || (SegmentsOf(pathname)[1] == expiry && v.key == key && v.expiresAt == ParseBase36(expiry))
      || exists s, m, n :: s in secrets && m != n && n == TextEncode(CanonicalMessage(expiry, key)) && mac(s, m) == mac(secret, n)
  {
    hide Split, WithoutLeadingSlashes, DecodeKey, IsValidObjectKey, Paired, TextEncode, CanonicalMessage, Base64.Base64Url;
    var segments := SegmentsOf(pathname);
    if Verify(mac, pathname, secrets, now).Ok? && segments[2] == Signature(mac, secret, expiry, key) {
      var v := Verify(mac, pathname, secrets, now).value;
      AcceptedKeyIsPaired(mac, pathname, secrets, now);
      var s :| s in secrets && s != [] && Signature(mac, s, segments[1], v.key) == segments[2];
      var m, n := TextEncode(CanonicalMessage(segments[1], v.key)), TextEncode(CanonicalMessage(expiry, key));
      SignatureDecidesDigest(mac(s, m), mac(secret, n));
      if m == n { MessageDecides(segments[1], v.key, expiry, key); }
    }
  }

  /** Only one spelling of an expiry is good for a signature: a different segment for the same moment
      is a different message. */
  lemma RespelledExpiryIsAnotherMessage(expiry: Text, other: Text, key: Text)
    requires IsExpirySegment(expiry) && IsExpirySegment(other) && Paired(key) && expiry != other
    ensures TextEncode(CanonicalMessage(expiry, key)) != TextEncode(CanonicalMessage(other, key))
  {
    hide TextEncode, CanonicalMessage;
    if TextEncode(CanonicalMessage(expiry, key)) == TextEncode(CanonicalMessage(other, key)) {
      MessageDecides(expiry, key, other, key);
    }
  }
}
