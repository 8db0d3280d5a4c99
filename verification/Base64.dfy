/** base64url, as btoa, atob and three replacements make it. */
module Base64 {
  import opened Wrappers
  import opened Strings

  const PLUS: Unit := '+' as int
  const SLASH: Unit := '/' as int
  const DASH: Unit := '-' as int
  const UNDERSCORE: Unit := '_' as int
  const EQUALS: Unit := '=' as int

  type Sextet = n: int | 0 <= n < 64

  function Letter(n: Sextet): Unit {
    if n < 26 then 'A' as int + n
    else if n < 52 then 'a' as int + n - 26
    else if n < 62 then '0' as int + n - 52
    else if n == 62 then PLUS else SLASH
  }

  function Value(c: Unit): Option<Sextet> {
    if IsUpper(c) then Some(c - 'A' as int)
    else if IsLower(c) then Some(c - 'a' as int + 26)
    else if IsDigit(c) then Some(c - '0' as int + 52)
    else if c == PLUS then Some(62)
    else if c == SLASH then Some(63)
    else None
  }

  /** The letters for one to three bytes. */
  function Letters(b: seq<Byte>): (t: Text)
    requires 1 <= |b| <= 3
    ensures |t| == |b| + 1 && forall i :: 0 <= i < |t| ==> IsPlain(t[i])
  {
    if |b| == 1 then [Letter(b[0] / 4), Letter(b[0] % 4 * 16)]
    else if |b| == 2 then [Letter(b[0] / 4), Letter(b[0] % 4 * 16 + b[1] / 16), Letter(b[1] % 16 * 4)]
    else [Letter(b[0] / 4), Letter(b[0] % 4 * 16 + b[1] / 16), Letter(b[1] % 16 * 4 + b[2] / 64), Letter(b[2] % 64)]
  }

  predicate IsPlain(c: Unit) { Value(c).Some? }

  function Repeat(c: Unit, n: nat): (t: Text)
    ensures |t| == n && forall i :: 0 <= i < n ==> t[i] == c
  {
    seq(n, i => c)
  }

  function Btoa(b: seq<Byte>): Text {
    if b == [] then []
    else if |b| < 3 then Letters(b) + Repeat(EQUALS, 3 - |b|)
    else Letters(b[..3]) + Btoa(b[3..])
  }

  predicate IsSpace(c: Unit) { c == 9 || c == 10 || c == 12 || c == 13 || c == 32 }

  function WithoutSpace(t: Text): Text {
    if t == [] then [] else (if IsSpace(t[0]) then [] else [t[0]]) + WithoutSpace(t[1..])
  }

  /** At most two equals signs, and only off the end of whole quartets. */
  function Unpadded(t: Text): Text {
    if |t| % 4 != 0 || t == [] || t[|t| - 1] != EQUALS then t
    else if t[|t| - 2] == EQUALS then t[..|t| - 2]
    else t[..|t| - 1]
  }

  /** The whole bytes of up to four letters; one letter alone makes none and is refused. */
  function Group(t: Text): Option<seq<Byte>>
    requires 1 <= |t| <= 4
  {
    if |t| == 1 || exists c :: c in t && !IsPlain(c) then None
    else
      assert forall i :: 0 <= i < |t| ==> t[i] in t;
      var p, q := Value(t[0]).value, Value(t[1]).value;
      if |t| == 2 then Some([p * 4 + q / 16])
      else
        var r := Value(t[2]).value;
        if |t| == 3 then Some([p * 4 + q / 16, q % 16 * 16 + r / 4])
        else Some([p * 4 + q / 16, q % 16 * 16 + r / 4, r % 4 * 64 + Value(t[3]).value])
  }

  function Quartets(t: Text): Option<seq<Byte>> {
    if t == [] then Some([])
    else if |t| < 4 then Group(t)
    else if Group(t[..4]).None? || Quartets(t[4..]).None? then None
    else Some(Group(t[..4]).value + Quartets(t[4..]).value)
  }

  /** None is what atob throws. */
  function Atob(t: Text): Option<seq<Byte>> { Quartets(Unpadded(WithoutSpace(t))) }

  function Swap(t: Text, was: Unit, now: Unit): (r: Text)
    ensures |r| == |t| && forall i :: 0 <= i < |t| ==> r[i] == if t[i] == was then now else t[i]
  {
    seq(|t|, i requires 0 <= i < |t| => if t[i] == was then now else t[i])
  }

  /** `.replace(/=+$/, "")` */
  function Stripped(t: Text): (r: Text)
    ensures r <= t && (r == [] || r[|r| - 1] != EQUALS)
    ensures forall i :: |r| <= i < |t| ==> t[i] == EQUALS
  {
    if t != [] && t[|t| - 1] == EQUALS then Stripped(t[..|t| - 1]) else t
  }

  function Base64Url(b: seq<Byte>): Text { Stripped(Swap(Swap(Btoa(b), PLUS, DASH), SLASH, UNDERSCORE)) }

  function FromBase64Url(t: Text): Option<seq<Byte>> {
    var padded := Swap(Swap(t, DASH, PLUS), UNDERSCORE, SLASH);
    Atob(padded + Repeat(EQUALS, (4 - |padded| % 4) % 4))
  }

  /** The encoder's loop from bytes to a binary string. */
  method BinaryString(bytes: seq<Byte>) returns (binary: Text)
    ensures |binary| == |bytes| && forall i :: 0 <= i < |bytes| ==> binary[i] == bytes[i]
  {
    binary := [];
    for i := 0 to |bytes|
      invariant |binary| == i && forall k :: 0 <= k < i ==> binary[k] == bytes[k]
    {
      binary := binary + [bytes[i]];
    }
  }

  /** And the decoder's loop back into a fixed buffer. */
  method FillBytes(binary: Text) returns (bytes: array<Unit>)
    ensures fresh(bytes) && bytes[..] == binary
  {
    bytes := new Unit[|binary|];
    var i := 0;
    while i < |binary|
      invariant 0 <= i <= |binary|
      invariant bytes[..i] == binary[..i]
    {
      bytes[i] := binary[i];
      i := i + 1;
    }
  }

  // ---- the round trip ----

  /** What Base64Url writes, without its detours. */
  function Plain(b: seq<Byte>): Text {
    if b == [] then []
    else if |b| < 3 then Letters(b)
    else Letters(b[..3]) + Plain(b[3..])
  }

  lemma LetterRoundTrip(n: Sextet)
    ensures Value(Letter(n)) == Some(n)
  {
  }

  lemma GroupRoundTrip(b: seq<Byte>)
    requires 1 <= |b| <= 3
    ensures Group(Letters(b)) == Some(b)
  {
    hide Letter, Value;
    var y, z := if |b| > 1 then b[1] else 0, if |b| > 2 then b[2] else 0;
    LetterRoundTrip(b[0] / 4);
    LetterRoundTrip(b[0] % 4 * 16 + y / 16);
    LetterRoundTrip(y % 16 * 4 + z / 64);
    LetterRoundTrip(z % 64);
    ThreeBytes(b[0], y, z);
    var t := Letters(b);
    assert y / 16 == 0 || |b| > 1;
    assert z / 64 == 0 || |b| > 2;
    assert t[0] == Letter(b[0] / 4) && t[1] == Letter(b[0] % 4 * 16 + y / 16);
    assert |b| > 1 ==> t[2] == Letter(y % 16 * 4 + z / 64);
    assert b == if |b| == 1 then [b[0]] else if |b| == 2 then [b[0], y] else [b[0], y, z];
  }

  lemma ThreeBytes(x: Byte, y: Byte, z: Byte)
    ensures var p, q, r, s := x / 4, x % 4 * 16 + y / 16, y % 16 * 4 + z / 64, z % 64;
      p * 4 + q / 16 == x && q % 16 * 16 + r / 4 == y && r % 4 * 64 + s == z
  {
  }

  lemma {:induction false} PlainRoundTrip(b: seq<Byte>)
    ensures Quartets(Plain(b)) == Some(b)
  {
    hide Letters, Group;
    if b != [] && |b| < 3 {
      GroupRoundTrip(b);
    } else if |b| >= 3 {
      var t := Plain(b);
      GroupRoundTrip(b[..3]);
      PlainRoundTrip(b[3..]);
      assert t[..4] == Letters(b[..3]) && t[4..] == Plain(b[3..]);
      assert b == b[..3] + b[3..];
    }
  }

  lemma {:induction false} PlainShape(b: seq<Byte>)
    ensures forall i :: 0 <= i < |Plain(b)| ==> IsPlain(Plain(b)[i])
    ensures |Plain(b)| == |b| / 3 * 4 + if |b| % 3 == 0 then 0 else |b| % 3 + 1
  {
    hide Letters, IsPlain;
    if |b| >= 3 { PlainShape(b[3..]); }
  }

  /** btoa is the plain letters, padded to quartets. */
  lemma {:induction false} BtoaIsPadded(b: seq<Byte>)
    ensures Btoa(b) == Plain(b) + Repeat(EQUALS, (4 - |Plain(b)| % 4) % 4)
  {
    hide Letters;
    if |b| >= 3 {
      BtoaIsPadded(b[3..]);
      assert |Plain(b)| == 4 + |Plain(b[3..])|;
    }
  }

  lemma {:induction false} StrippedOfPadded(t: Text, n: nat)
    requires forall i :: 0 <= i < |t| ==> t[i] != EQUALS
    ensures Stripped(t + Repeat(EQUALS, n)) == t
  {
    var padded := t + Repeat(EQUALS, n);
    if n > 0 {
      assert padded[..|padded| - 1] == t + Repeat(EQUALS, n - 1);
      StrippedOfPadded(t, n - 1);
    } else {
      assert padded == t;
    }
  }

  lemma {:induction false} NoSpaceToDrop(t: Text)
    requires forall i :: 0 <= i < |t| ==> !IsSpace(t[i])
    ensures WithoutSpace(t) == t
  {
    if t != [] { NoSpaceToDrop(t[1..]); }
  }

  lemma UnpaddedOfPadded(t: Text)
    requires (forall i :: 0 <= i < |t| ==> t[i] != EQUALS) && |t| % 4 != 1
    ensures Unpadded(t + Repeat(EQUALS, (4 - |t| % 4) % 4)) == t
  {
  }

  /** base64url text decodes to the bytes it was made from, for all bytes. */
  lemma Base64UrlRoundTrip(b: seq<Byte>)
    ensures FromBase64Url(Base64Url(b)) == Some(b)
  {
    hide Quartets, Btoa, WithoutSpace, Unpadded, Stripped, Plain;
    var plain := Plain(b);
    Base64UrlIsPlain(b);
    PlainShape(b);
    var t := Base64Url(b);
    var back := Swap(Swap(t, DASH, PLUS), UNDERSCORE, SLASH);
    assert back == plain;
    var padded := plain + Repeat(EQUALS, (4 - |plain| % 4) % 4);
    NoSpaceToDrop(padded);
    UnpaddedOfPadded(plain);
    PlainRoundTrip(b);
  }

  lemma Base64UrlIsPlain(b: seq<Byte>)
    ensures Base64Url(b) == Swap(Swap(Plain(b), PLUS, DASH), SLASH, UNDERSCORE)
  {
    hide Btoa, Plain, Swap, Stripped;
    BtoaIsPadded(b);
    PlainShape(b);
    var n := (4 - |Plain(b)| % 4) % 4;
    SwapPadded(Plain(b), n, PLUS, DASH);
    SwapPadded(Swap(Plain(b), PLUS, DASH), n, SLASH, UNDERSCORE);
    StrippedOfPadded(Swap(Swap(Plain(b), PLUS, DASH), SLASH, UNDERSCORE), n);
  }

  lemma SwapPadded(t: Text, n: nat, was: Unit, now: Unit)
    requires was != EQUALS
    ensures Swap(t + Repeat(EQUALS, n), was, now) == Swap(t, was, now) + Repeat(EQUALS, n)
  {
  }

  /** A character of the URL alphabet. */
  predicate IsUrlLetter(c: Unit) { IsUpper(c) || IsLower(c) || IsDigit(c) || c == DASH || c == UNDERSCORE }

  /** Thirty-two bytes make forty-three characters, all of the URL alphabet. */
  lemma Base64UrlShape(b: seq<Byte>)
    ensures forall i :: 0 <= i < |Base64Url(b)| ==> IsUrlLetter(Base64Url(b)[i])
    ensures |b| == 32 ==> |Base64Url(b)| == 43
  {
    hide Plain, Stripped, Btoa;
    Base64UrlIsPlain(b);
    PlainShape(b);
  }
}
