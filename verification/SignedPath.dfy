/** Artifact links signed in their own path. Clocks are whole Unix seconds. */
module SignedPath {
  import opened Wrappers
  import opened Strings
  import opened Utf8
  import Base64
  import Percent

  const SLASH: Unit := '/' as int
  const NEWLINE: Unit := 10
  const VERSION: Text := ['1' as int]
  const MAX_TTL_SECONDS := 31_536_000
  const MAX_KEY_LENGTH := 1024
  const MAX_EXPIRY_LENGTH := 12
  const SIGNATURE_LENGTH := 43

  /** "kaviri-dl/1", the first line of every signed message. */
  const MESSAGE_HEAD: Text := [107, 97, 118, 105, 114, 105, 45, 100, 108, 47, 49]

  /** HMAC-SHA-256 is any function to thirty-two bytes. */
  type Digest = d: seq<Byte> | |d| == 32 witness seq(32, i => 0)
  type Mac = (Text, seq<Byte>) -> Digest

  // ---- object keys ----

  predicate IsControl(c: Unit) { c <= 0x1F || c == 0x7F }

  const DOT: Text := ['.' as int]
  const DOT_DOT: Text := ['.' as int, '.' as int]

  predicate DoubleSlash(t: Text) { exists i :: 0 < i < |t| && t[i - 1] == SLASH && t[i] == SLASH }

  predicate IsValidObjectKey(key: Text) {
    && 0 < |key| <= MAX_KEY_LENGTH
    && (forall c :: c in key ==> !IsControl(c))
    && key[0] != SLASH && key[|key| - 1] != SLASH
    && !DoubleSlash(key)
    && DOT !in Split(key, SLASH) && DOT_DOT !in Split(key, SLASH)
  }

  function EncodeAll(segments: seq<Text>): Option<seq<Text>> {
    if segments == [] then Some([])
    else if Percent.Encode(segments[0]).None? || EncodeAll(segments[1..]).None? then None
    else Some([Percent.Encode(segments[0]).value] + EncodeAll(segments[1..]).value)
  }

  function DecodeAll(segments: seq<Text>): Option<seq<Text>> {
    if segments == [] then Some([])
    else if Percent.Decode(segments[0]).None? || DecodeAll(segments[1..]).None? then None
    else Some([Percent.Decode(segments[0]).value] + DecodeAll(segments[1..]).value)
  }

  function EncodeKey(key: Text): Option<Text> {
    var encoded := EncodeAll(Split(key, SLASH));
    if encoded.None? then None else Some(Join(encoded.value, SLASH))
  }

  function DecodeKey(segments: seq<Text>): Option<Text> {
    var decoded := DecodeAll(segments);
    if decoded.None? then None else Some(Join(decoded.value, SLASH))
  }

  // ---- the expiry segment ----

  function Digit36(n: int): (c: Unit)
    requires 0 <= n < 36
  {
    if n < 10 then '0' as int + n else 'a' as int + n - 10
  }

  predicate IsBase36(c: Unit) { IsDigit(c) || IsLower(c) }

  function Value36(c: Unit): int
    requires IsBase36(c)
  {
    if IsDigit(c) then c - '0' as int else c - 'a' as int + 10
  }

  /** `n.toString(36)` */
  function ToBase36(n: nat): (t: Text)
    ensures t != [] && forall c :: c in t ==> IsBase36(c)
  {
    if n < 36 then [Digit36(n)] else ToBase36(n / 36) + [Digit36(n % 36)]
  }

  /** `Number.parseInt(t, 36)` on base-36 digits. */
  function ParseBase36(t: Text): nat
    requires forall c :: c in t ==> IsBase36(c)
  {
    if t == [] then 0 else ParseBase36(t[..|t| - 1]) * 36 + Value36(t[|t| - 1])
  }

  predicate IsExpirySegment(t: Text) { 1 <= |t| <= MAX_EXPIRY_LENGTH && forall c :: c in t ==> IsBase36(c) }

  predicate IsSignatureSegment(t: Text) {
    |t| == SIGNATURE_LENGTH && forall i :: 0 <= i < |t| ==> Base64.IsUrlLetter(t[i])
  }

  // ---- signing ----

  function CanonicalMessage(expiry: Text, key: Text): Text {
    MESSAGE_HEAD + [NEWLINE] + expiry + [NEWLINE] + key
  }

  function Signature(mac: Mac, secret: Text, expiry: Text, key: Text): Text {
    Base64.Base64Url(mac(secret, TextEncode(CanonicalMessage(expiry, key))))
  }

  /** Bit by bit, `^` and `|` on non-negative integers. */
  function Xor(a: nat, b: nat): nat {
    if a == 0 && b == 0 then 0 else (if a % 2 == b % 2 then 0 else 1) + 2 * Xor(a / 2, b / 2)
  }

  function Or(a: nat, b: nat): nat {
    if a == 0 && b == 0 then 0 else (if a % 2 == 1 || b % 2 == 1 then 1 else 0) + 2 * Or(a / 2, b / 2)
  }

  lemma {:induction false} XorIsZero(a: nat, b: nat)
    ensures Xor(a, b) == 0 <==> a == b
  {
    if a != 0 || b != 0 { XorIsZero(a / 2, b / 2); }
  }

  lemma {:induction false} OrIsZero(a: nat, b: nat)
    ensures Or(a, b) == 0 <==> a == 0 && b == 0
  {
    if a != 0 || b != 0 { OrIsZero(a / 2, b / 2); }
  }

  /** The comparison that looks at every character; lengths are not secret. */
  method TimingSafeEqual(a: Text, b: Text) returns (same: bool)
    ensures same <==> a == b
  {
    if |a| != |b| { return false; }
    var diff := 0;
    for i := 0 to |a|
      invariant diff == 0 <==> a[..i] == b[..i]
    {
      XorIsZero(a[i], b[i]);
      assert a[..i + 1] == a[..i] + [a[i]] && b[..i + 1] == b[..i] + [b[i]];
      OrIsZero(diff, Xor(a[i], b[i]));
      diff := Or(diff, Xor(a[i], b[i]));
    }
    assert a[..|a|] == a && b[..|b|] == b;
    same := diff == 0;
  }

  // ---- minting ----

  datatype MintError = InvalidKey | NoSecret | UnencodableKey

  datatype Minted = Minted(path: Text, expiresAt: real)

  predicate IsWhole(x: real) { x.Floor as real == x }

  /** `maxTtl` is the caller's own ceiling, where it gives one. Only the lifetime asked for is rounded
      down; a ceiling with a fraction is kept as it is. */
  function Ttl(asked: real, maxTtl: Option<real>): (ttl: real)
    ensures 1.0 <= ttl <= MAX_TTL_SECONDS as real
  {
    var most := MAX_TTL_SECONDS as real;
    var ceiling := if maxTtl.Some? && maxTtl.value < most then maxTtl.value else most;
    var floored := asked.Floor as real;
    var capped := if floored < ceiling then floored else ceiling;
    if capped > 1.0 then capped else 1.0
  }

  /** What the runtime prints after the point of a number in base 36. */
  type FractionText = f: real -> Text | forall x, c :: c in f(x) ==> IsBase36(c) witness x => []

  const POINT: Unit := '.' as int

  /** `x.toString(36)` */
  function NumberText36(x: real, fraction: FractionText): Text
    requires x >= 0.0
  {
    ToBase36(x.Floor) + if IsWhole(x) then [] else [POINT] + fraction(x - x.Floor as real)
  }

  function Mint(mac: Mac, key: Text, ttlSeconds: real, maxTtl: Option<real>, secret: Text, now: nat, fraction: FractionText)
    : (r: Result<Minted, MintError>)
    ensures r.Ok? ==> now as real + 1.0 <= r.value.expiresAt <= (now + MAX_TTL_SECONDS) as real
  {
    if !IsValidObjectKey(key) then Err(InvalidKey)
    else if secret == [] then Err(NoSecret)
    else
      var expiresAt := now as real + Ttl(ttlSeconds, maxTtl);
      var expiry := NumberText36(expiresAt, fraction);
      var encoded := EncodeKey(key);
      if encoded.None? then Err(UnencodableKey)
      else Ok(Minted(
        [SLASH] + VERSION + [SLASH] + (expiry + [SLASH] + (Signature(mac, secret, expiry, key) + [SLASH] + encoded.value)),
        expiresAt))
  }

  // ---- verifying ----

  datatype Failure = Malformed | UnsupportedVersion | KeyRefused | BadSignature | LinkExpired

  datatype Verified = Verified(key: Text, expiresAt: nat)

  /** `.replace(/^\/+/, "")` */
  function WithoutLeadingSlashes(t: Text): Text {
    if t != [] && t[0] == SLASH then WithoutLeadingSlashes(t[1..]) else t
  }

  function Usable(secrets: seq<Text>): (r: seq<Text>)
    ensures forall s :: s in r <==> s in secrets && s != []
  {
    if secrets == [] then [] else (if secrets[0] == [] then [] else [secrets[0]]) + Usable(secrets[1..])
  }

  predicate Signed(mac: Mac, secrets: seq<Text>, expiry: Text, key: Text, sig: Text) {
    exists s :: s in secrets && s != [] && Signature(mac, s, expiry, key) == sig
  }

  function Verify(mac: Mac, pathname: Text, secrets: seq<Text>, now: int): Result<Verified, Failure> {
    var segments := Split(WithoutLeadingSlashes(pathname), SLASH);
    if |segments| < 4 then Err(Malformed)
    else if segments[0] != VERSION then Err(UnsupportedVersion)
    else if !IsExpirySegment(segments[1]) || !IsSignatureSegment(segments[2]) then Err(Malformed)
    else
      var key := DecodeKey(segments[3..]);
      if key.None? || !IsValidObjectKey(key.value) then Err(KeyRefused)
      else if !Signed(mac, secrets, segments[1], key.value, segments[2]) then Err(BadSignature)
      else if ParseBase36(segments[1]) <= now then Err(LinkExpired)
      else Ok(Verified(key.value, ParseBase36(segments[1])))
  }

  /** Every secret is tried, even after a match. */
  method TryAll(mac: Mac, secrets: seq<Text>, expiry: Text, key: Text, sig: Text) returns (matched: bool)
    ensures matched <==> exists i :: 0 <= i < |secrets| && Signature(mac, secrets[i], expiry, key) == sig
  {
    hide Signature;
    matched := false;
    for i := 0 to |secrets|
      invariant matched <==> exists k :: 0 <= k < i && Signature(mac, secrets[k], expiry, key) == sig
    {
      var expected := Signature(mac, secrets[i], expiry, key);
      var equal := TimingSafeEqual(expected, sig);
      matched := equal || matched;
    }
  }

  method VerifySignedPath(mac: Mac, pathname: Text, secrets: seq<Text>, now: int) returns (r: Result<Verified, Failure>)
    ensures r == Verify(mac, pathname, secrets, now)
  {
    hide Signature, Split, WithoutLeadingSlashes, DecodeKey, IsValidObjectKey, Usable;
    var segments := Split(WithoutLeadingSlashes(pathname), SLASH);
    if |segments| < 4 { return Err(Malformed); }
    var version, expiry, sig, keySegments := segments[0], segments[1], segments[2], segments[3..];
    if version != VERSION { return Err(UnsupportedVersion); }
    if !IsExpirySegment(expiry) { return Err(Malformed); }
    if !IsSignatureSegment(sig) { return Err(Malformed); }
    var key := DecodeKey(keySegments);
    if key.None? || !IsValidObjectKey(key.value) { return Err(KeyRefused); }
    var usable := Usable(secrets);
    SignedByUsable(mac, secrets, expiry, key.value, sig);
    if usable == [] { return Err(BadSignature); }
    var matched := TryAll(mac, usable, expiry, key.value, sig);
    if !matched { return Err(BadSignature); }
    var expiresAt := ParseBase36(expiry);
    if expiresAt <= now { return Err(LinkExpired); }
    return Ok(Verified(key.value, expiresAt));
  }

  lemma SignedByUsable(mac: Mac, secrets: seq<Text>, expiry: Text, key: Text, sig: Text)
    ensures Signed(mac, secrets, expiry, key, sig)
      <==> exists i :: 0 <= i < |Usable(secrets)| && Signature(mac, Usable(secrets)[i], expiry, key) == sig
  {
    hide Signature;
    var usable := Usable(secrets);
    if Signed(mac, secrets, expiry, key, sig) {
      var s :| s in secrets && s != [] && Signature(mac, s, expiry, key) == sig;
      var k :| 0 <= k < |usable| && usable[k] == s;
    }
    forall i | 0 <= i < |usable| ensures usable[i] in secrets && usable[i] != [] { assert usable[i] in usable; }
  }
}
