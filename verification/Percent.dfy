/** encodeURIComponent and decodeURIComponent. */
module Percent {
  import opened Wrappers
  import opened Strings
  import opened Utf8

  const PERCENT: Unit := '%' as int

  /** A-Z a-z 0-9 - _ . ! ~ * ' ( ) stay as they are. */
  predicate Unreserved(c: Unit) {
    || IsUpper(c) || IsLower(c) || IsDigit(c)
    || c == '-' as int || c == '_' as int || c == '.' as int || c == '!' as int || c == '~' as int
    || c == '*' as int || c == '\'' as int || c == '(' as int || c == ')' as int
  }

  function UpperHex(n: int): (c: Unit)
    requires 0 <= n < 16
  {
    if n < 10 then '0' as int + n else 'A' as int + n - 10
  }

  function HexValue(c: Unit): Option<int> {
    if IsDigit(c) then Some(c - '0' as int)
    else if 'A' as int <= c <= 'F' as int then Some(c as int - 'A' as int + 10)
    else if 'a' as int <= c <= 'f' as int then Some(c as int - 'a' as int + 10)
    else None
  }

  function PercentBytes(b: seq<Byte>): (t: Text)
    ensures |t| == 3 * |b|
  {
    if b == [] then [] else [PERCENT, UpperHex(b[0] / 16), UpperHex(b[0] % 16)] + PercentBytes(b[1..])
  }

  /** None is the URIError for half a surrogate pair. */
  function Encode(t: Text): Option<Text>
    decreases |t|
  {
    if t == [] then Some([])
    else if HeadPoint(t).None? then None
    else
      var rest := Encode(t[HeadLength(t)..]);
      if rest.None? then None
      else Some((if Unreserved(t[0]) then [t[0]] else PercentBytes(PointBytes(HeadPoint(t).value))) + rest.value)
  }

  /** The byte an escape at the head of the text stands for. */
  function ByteAt(t: Text): Option<Byte> {
    if |t| < 3 || t[0] != PERCENT || HexValue(t[1]).None? || HexValue(t[2]).None? then None
    else Some(HexValue(t[1]).value * 16 + HexValue(t[2]).value)
  }

  /** n escapes in a row. */
  function BytesAt(t: Text, n: nat): (b: Option<seq<Byte>>)
    ensures b.Some? ==> |b.value| == n && 3 * n <= |t|
    decreases n
  {
    if n == 0 then Some([])
    else if ByteAt(t).None? || BytesAt(t[3..], n - 1).None? then None
    else Some([ByteAt(t).value] + BytesAt(t[3..], n - 1).value)
  }

  /** The character spelled by the escapes at the head of the text, and how many they are. */
  function PointAt(t: Text): (p: Option<(Point, nat)>)
    ensures p.Some? ==> 1 <= p.value.1 && 3 * p.value.1 <= |t|
  {
    if ByteAt(t).None? then None else
      var n := Announced(ByteAt(t).value);
      if n == 0 || BytesAt(t, n).None? || DecodePoint(BytesAt(t, n).value).None? then None
      else Some((DecodePoint(BytesAt(t, n).value).value, n))
  }

  /** None is the URIError for a stray percent sign or bytes that are not UTF-8. */
  function Decode(t: Text): Option<Text>
    decreases |t|
  {
    if t == [] then Some([])
    else if t[0] != PERCENT then
      var rest := Decode(t[1..]);
      if rest.None? then None else Some([t[0]] + rest.value)
    else if PointAt(t).None? then None
    else
      var (p, n) := PointAt(t).value;
      var rest := Decode(t[3 * n..]);
      if rest.None? then None else Some(UnitsOf(p) + rest.value)
  }

  // ---- the round trip ----

  lemma HexRoundTrip(n: int)
    requires 0 <= n < 16
    ensures HexValue(UpperHex(n)) == Some(n)
  {
  }

  lemma ByteRoundTrip(b: Byte, rest: Text)
    ensures ByteAt([PERCENT, UpperHex(b / 16), UpperHex(b % 16)] + rest) == Some(b)
  {
    HexRoundTrip(b / 16);
    HexRoundTrip(b % 16);
  }

  lemma {:induction false} BytesRoundTrip(b: seq<Byte>, rest: Text)
    ensures BytesAt(PercentBytes(b) + rest, |b|) == Some(b)
    ensures b != [] ==> ByteAt(PercentBytes(b) + rest) == Some(b[0])
  {
    if b != [] {
      hide ByteAt, UpperHex;
      var t := PercentBytes(b) + rest;
      assert t == [PERCENT, UpperHex(b[0] / 16), UpperHex(b[0] % 16)] + (PercentBytes(b[1..]) + rest);
      ByteRoundTrip(b[0], PercentBytes(b[1..]) + rest);
      assert t[3..] == PercentBytes(b[1..]) + rest;
      BytesRoundTrip(b[1..], rest);
      assert b == [b[0]] + b[1..];
    }
  }

  lemma PointAtRoundTrip(p: Point, rest: Text)
    ensures var t := PercentBytes(PointBytes(p)) + rest;
      t[0] == PERCENT && PointAt(t) == Some((p, |PointBytes(p)|)) && t[3 * |PointBytes(p)|..] == rest
  {
    hide DecodePoint, Announced, BytesAt, ByteAt;
    PointRoundTrip(p);
    BytesRoundTrip(PointBytes(p), rest);
    hide PointBytes;
  }

  /** What may appear in an encoded component. */
  predicate IsEncoded(c: Unit) { Unreserved(c) || c == PERCENT }

  lemma {:induction false} PercentBytesAreEncoded(b: seq<Byte>)
    ensures forall c :: c in PercentBytes(b) ==> IsEncoded(c)
  {
    if b != [] { PercentBytesAreEncoded(b[1..]); }
  }

  lemma {:induction false} EncodeIsEncoded(t: Text)
    requires Encode(t).Some?
    ensures forall c :: c in Encode(t).value ==> IsEncoded(c)
    decreases |t|
  {
    if t != [] {
      EncodeIsEncoded(t[HeadLength(t)..]);
      PercentBytesAreEncoded(PointBytes(HeadPoint(t).value));
    }
  }

  /** A component encodes exactly when no half of a pair stands alone in it. */
  lemma {:induction false} EncodesExactlyWhenPaired(t: Text)
    ensures Encode(t).Some? <==> Paired(t)
    decreases |t|
  {
    if t != [] { EncodesExactlyWhenPaired(t[HeadLength(t)..]); }
  }

  lemma DecodePoints(p: Point, rest: Text)
    ensures Decode(PercentBytes(PointBytes(p)) + rest)
      == (if Decode(rest).None? then None else Some(UnitsOf(p) + Decode(rest).value))
  {
    hide PointAt, UnitsOf, PointBytes, PercentBytes;
    PointAtRoundTrip(p, rest);
  }

  /** Decoding undoes encoding. */
  lemma {:induction false} EncodeRoundTrip(t: Text)
    requires Encode(t).Some?
    ensures Decode(Encode(t).value) == Some(t)
    decreases |t|
  {
    if t != [] {
      hide PointAt, PointBytes, PercentBytes;
      var n := HeadLength(t);
      var rest := Encode(t[n..]).value;
      EncodeRoundTrip(t[n..]);
      if Unreserved(t[0]) {
        assert !StartsWithPair(t);
        assert ([t[0]] + rest)[1..] == rest;
        assert t == [t[0]] + t[1..];
      } else {
        DecodePoints(HeadPoint(t).value, rest);
        UnitsRoundTrip(t);
        assert t == t[..n] + t[n..];
      }
    }
  }

  /** Whatever ASCII text decodes to has no half of a pair alone. */
  lemma {:induction false} DecodedIsPaired(t: Text)
    requires Decode(t).Some? && forall c :: c in t ==> c < 0x80
    ensures Paired(Decode(t).value)
    decreases |t|
  {
    if t != [] {
      hide PointAt, Paired;
      if t[0] != PERCENT {
        assert t[0] in t && forall c :: c in t[1..] ==> c in t;
        DecodedIsPaired(t[1..]);
        PlainIsPaired([t[0]]);
        PairedAppend([t[0]], Decode(t[1..]).value);
      } else {
        var (p, n) := PointAt(t).value;
        assert forall c :: c in t[3 * n..] ==> c in t;
        DecodedIsPaired(t[3 * n..]);
        UnitsArePaired(p);
        PairedAppend(UnitsOf(p), Decode(t[3 * n..]).value);
      }
      NothingIsPaired();
    } else {
      NothingIsPaired();
    }
  }

  lemma NothingIsPaired()
    ensures Paired([])
  {
  }

  /** Unreserved characters are left alone. */
  lemma {:induction false} UnreservedStays(t: Text)
    requires forall c :: c in t ==> Unreserved(c)
    ensures Encode(t) == Some(t)
  {
    if t != [] {
      assert t[0] in t && HeadLength(t) == 1 && HeadPoint(t).Some?;
      UnreservedStays(t[1..]);
      assert t == [t[0]] + t[1..];
    }
  }
}
