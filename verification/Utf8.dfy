/** UTF-8, as TextEncoder and TextDecoder speak it. */
module Utf8 {
  import opened Wrappers
  import opened Strings

  /** A Unicode scalar value. */
  type Point = p: int | 0 <= p < 0x11_0000 && !(0xD800 <= p <= 0xDFFF)

  const REPLACEMENT: Point := 0xFFFD

  function UnitsOf(p: Point): (t: Text)
    ensures t != []
  {
    if p < 0x1_0000 then [p] else [0xD800 + (p - 0x1_0000) / 1024, 0xDC00 + (p - 0x1_0000) % 1024]
  }

  /** How many code units the first character takes, and which it is; half a pair alone is none. */
  function HeadLength(t: Text): (n: nat)
    requires t != []
    ensures 1 <= n <= |t|
  {
    if StartsWithPair(t) then 2 else 1
  }

  function HeadPoint(t: Text): Option<Point>
    requires t != []
  {
    if StartsWithPair(t) then Some(0x1_0000 + (t[0] as int - 0xD800) * 1024 + (t[1] as int - 0xDC00))
    else if IsHigh(t[0]) || IsLow(t[0]) then None
    else Some(t[0])
  }

  /** No half of a pair stands alone. */
  predicate Paired(t: Text)
    decreases |t|
  {
    t == [] || (HeadPoint(t).Some? && Paired(t[HeadLength(t)..]))
  }

  function PointBytes(p: Point): (b: seq<Byte>)
    ensures 1 <= |b| <= 4
  {
    if p < 0x80 then [p]
    else if p < 0x800 then [0xC0 + p / 64, 0x80 + p % 64]
    else if p < 0x1_0000 then [0xE0 + p / 4096, 0x80 + p / 64 % 64, 0x80 + p % 64]
    else [0xF0 + p / 26_2144, 0x80 + p / 4096 % 64, 0x80 + p / 64 % 64, 0x80 + p % 64]
  }

  /** TextEncoder.encode: half a pair alone becomes U+FFFD. */
  function TextEncode(t: Text): seq<Byte>
    decreases |t|
  {
    if t == [] then [] else
      var p := HeadPoint(t);
      PointBytes(if p.Some? then p.value else REPLACEMENT) + TextEncode(t[HeadLength(t)..])
  }

  /** How many bytes a leading byte announces; none, if it cannot lead. */
  function Announced(b: Byte): (n: nat)
    ensures n <= 4
  {
    if b < 0x80 then 1 else if b < 0xC0 then 0 else if b < 0xE0 then 2 else if b < 0xF0 then 3 else if b < 0xF8 then 4 else 0
  }

  predicate Continues(b: Byte) { 0x80 <= b < 0xC0 }

  /** The character these bytes spell, if they spell one in its shortest form. */
  function DecodePoint(b: seq<Byte>): Option<Point> {
    if |b| == 1 && b[0] < 0x80 then Some(b[0])
    else if |b| == 2 && 0xC0 <= b[0] < 0xE0 && Continues(b[1]) then
      var p := (b[0] as int - 0xC0) * 64 + (b[1] as int - 0x80);
      if p < 0x80 then None else Some(p)
    else if |b| == 3 && 0xE0 <= b[0] < 0xF0 && Continues(b[1]) && Continues(b[2]) then
      var p := (b[0] as int - 0xE0) * 4096 + (b[1] as int - 0x80) * 64 + (b[2] as int - 0x80);
      if p < 0x800 || 0xD800 <= p <= 0xDFFF then None else Some(p)
    else if |b| == 4 && 0xF0 <= b[0] < 0xF8 && Continues(b[1]) && Continues(b[2]) && Continues(b[3]) then
      var p := (b[0] as int - 0xF0) * 26_2144 + (b[1] as int - 0x80) * 4096 + (b[2] as int - 0x80) * 64 + (b[3] as int - 0x80);
      if p < 0x1_0000 || p >= 0x11_0000 then None else Some(p)
    else None
  }

  function Utf8Decode(b: seq<Byte>): Option<Text>
    decreases |b|
  {
    if b == [] then Some([]) else
      var n := Announced(b[0]);
      if n == 0 || n > |b| || DecodePoint(b[..n]).None? then None else
        var rest := Utf8Decode(b[n..]);
        if rest.None? then None else Some(UnitsOf(DecodePoint(b[..n]).value) + rest.value)
  }

  const BYTE_ORDER_MARK: Unit := 0xFEFF

  /** TextDecoder.decode: a leading byte order mark is dropped and bad bytes are replaced, not
      refused. */
  function TextDecode(b: seq<Byte>): Text {
    var t := Utf8Decode(b);
    if t.None? then [REPLACEMENT]
    else if t.value != [] && t.value[0] == BYTE_ORDER_MARK then t.value[1..]
    else t.value
  }

  // ---- round trips ----

  lemma UnitsRoundTrip(t: Text)
    requires t != [] && HeadPoint(t).Some?
    ensures UnitsOf(HeadPoint(t).value) == t[..HeadLength(t)]
  {
  }

  lemma PointRoundTrip(p: Point)
    ensures DecodePoint(PointBytes(p)) == Some(p)
    ensures |PointBytes(p)| == Announced(PointBytes(p)[0])
  {
    Digits64(p);
  }

  /** A number from its base-64 digits. */
  lemma Digits64(p: nat)
    ensures p == p / 64 * 64 + p % 64
    ensures p / 64 == p / 4096 * 64 + p / 64 % 64
    ensures p / 4096 == p / 26_2144 * 64 + p / 4096 % 64
  {
    assert p / 64 / 64 == p / 4096;
    assert p / 4096 / 64 == p / 26_2144;
  }

  lemma DecodeFirst(p: Point, rest: seq<Byte>)
    ensures var b := PointBytes(p) + rest;
      Utf8Decode(b) == (if Utf8Decode(rest).None? then None else Some(UnitsOf(p) + Utf8Decode(rest).value))
  {
    hide DecodePoint, Announced, UnitsOf;
    PointRoundTrip(p);
    var b := PointBytes(p) + rest;
    var n := |PointBytes(p)|;
    hide PointBytes;
    assert b[0] == PointBytes(p)[0];
    assert b[..n] == PointBytes(p) && b[n..] == rest;
  }

  /** Text without lone halves survives encoding and decoding. */
  lemma {:induction false} Utf8RoundTrip(t: Text)
    requires Paired(t)
    ensures Utf8Decode(TextEncode(t)) == Some(t)
    decreases |t|
  {
    if t != [] {
      var rest := t[HeadLength(t)..];
      Utf8RoundTrip(rest);
      DecodeFirst(HeadPoint(t).value, TextEncode(rest));
      UnitsRoundTrip(t);
      assert t == t[..HeadLength(t)] + rest;
    }
  }

  lemma EncodingIsInjective(s: Text, t: Text)
    requires Paired(s) && Paired(t) && TextEncode(s) == TextEncode(t)
    ensures s == t
  {
    Utf8RoundTrip(s);
    Utf8RoundTrip(t);
  }

  lemma {:induction false} PairedAppend(s: Text, t: Text)
    requires Paired(s) && Paired(t)
    ensures Paired(s + t)
    decreases |s|
  {
    if s == [] {
      assert s + t == t;
    } else {
      var n := HeadLength(s);
      PairedAppend(s[n..], t);
      assert (s + t)[0] == s[0];
      assert n == 2 ==> (s + t)[1] == s[1];
      assert StartsWithPair(s + t) <==> StartsWithPair(s);
      assert (s + t)[n..] == s[n..] + t;
    }
  }

  lemma {:induction false} PlainIsPaired(t: Text)
    requires forall c :: c in t ==> !IsHigh(c) && !IsLow(c)
    ensures Paired(t)
  {
    if t != [] {
      assert t[0] in t;
      PlainIsPaired(t[1..]);
    }
  }

  lemma UnitsArePaired(p: Point)
    ensures Paired(UnitsOf(p))
  {
    if p >= 0x1_0000 { assert UnitsOf(p)[2..] == []; } else { assert UnitsOf(p)[1..] == []; }
  }
}
