/** The list cursor: a moment and an id, through JSON, UTF-8 and base64url and back. */
module Cursor {
  import opened Wrappers
  import opened Strings
  import opened Utf8
  import opened Base64
  import opened Canonical
  import CanonicalFacts

  const KEY_C: Text := ['c' as int]
  const KEY_I: Text := ['i' as int]

  datatype Position = Position(createdAt: Text, id: Text)

  /** `JSON.stringify({ c: createdAt, i: id })` */
  function CursorText(p: Position): Text {
    [OPEN_RECORD] + Quoted(KEY_C) + [COLON] + Quoted(p.createdAt) + [COMMA] + Quoted(KEY_I) + [COLON] + Quoted(p.id) + [CLOSE_RECORD]
  }

  function EncodeCursor(p: Position): Text { Base64Url(TextEncode(CursorText(p))) }

  /** JSON.parse is the platform's; None is its throw. */
  type JsonParser = Text -> Option<Value>

  /** All that is asked of it: it reads back what JSON.stringify wrote. */
  ghost predicate ReadsBack(parse: JsonParser) {
    forall p: Position :: parse(CursorText(p)) == Some(Obj([Member(KEY_C, Str(p.createdAt)), Member(KEY_I, Str(p.id))]))
  }

  /** The string under a key of a parsed object. */
  function StringAt(v: Value, key: Text): Option<Text> {
    if !v.Obj? || key !in KeptKeys(v.members) || !ValueAt(v.members, key).Str? then None
    else Some(ValueAt(v.members, key).text)
  }

  /** No cursor and an empty one are the first page; anything that is not a cursor is refused. */
  function DecodeCursor(parse: JsonParser, raw: Option<Text>): Result<Option<Position>, string> {
    if raw.None? || raw.value == [] then Ok(None)
    else if FromBase64Url(raw.value).None? then Err("cursor is not one this service issued")
    else
      var parsed := parse(TextDecode(FromBase64Url(raw.value).value));
      if parsed.None? || StringAt(parsed.value, KEY_C).None? || StringAt(parsed.value, KEY_I).None? then
        Err("cursor is not one this service issued")
      else Ok(Some(Position(StringAt(parsed.value, KEY_C).value, StringAt(parsed.value, KEY_I).value)))
  }

  // ---- the round trip ----

  lemma EscapeCodeIsPlain(c: Unit)
    ensures forall x :: x in EscapeUnit(c) ==> !IsHigh(x) && !IsLow(x)
  {
  }

  /** Escaping leaves no half of a surrogate pair alone. */
  lemma {:induction false} EscapeIsPaired(s: Text)
    ensures Paired(Escape(s))
    decreases |s|
  {
    hide Paired, EscapeUnit;
    if s == [] {
      CanonicalFacts.EscapesNothing();
      PlainIsPaired([]);
    } else if StartsWithPair(s) {
      EscapeIsPaired(s[2..]);
      PairIsPaired(s[0], s[1]);
      assert s[..2] == [s[0], s[1]];
      PairedAppend(s[..2], Escape(s[2..]));
    } else {
      EscapeIsPaired(s[1..]);
      EscapeCodeIsPlain(s[0]);
      PlainIsPaired(EscapeUnit(s[0]));
      PairedAppend(EscapeUnit(s[0]), Escape(s[1..]));
    }
  }

  lemma PairIsPaired(h: Unit, l: Unit)
    requires IsHigh(h) && IsLow(l)
    ensures Paired([h, l])
  {
    assert [h, l][2..] == [];
  }

  lemma QuotedIsPaired(s: Text)
    ensures Paired(Quoted(s))
  {
    hide Escape, Paired;
    EscapeIsPaired(s);
    PlainIsPaired([QUOTE]);
    PairedAppend([QUOTE], Escape(s));
    PairedAppend([QUOTE] + Escape(s), [QUOTE]);
  }

  lemma CursorTextIsPaired(p: Position)
    ensures Paired(CursorText(p)) && CursorText(p) != [] && CursorText(p)[0] == OPEN_RECORD
  {
    hide Quoted, Paired;
    QuotedIsPaired(KEY_C);
    QuotedIsPaired(p.createdAt);
    QuotedIsPaired(KEY_I);
    QuotedIsPaired(p.id);
    PlainIsPaired([OPEN_RECORD]);
    PlainIsPaired([COLON]);
    PlainIsPaired([COMMA]);
    PlainIsPaired([CLOSE_RECORD]);
    var a := [OPEN_RECORD] + Quoted(KEY_C) + [COLON] + Quoted(p.createdAt);
    PairedAppend([OPEN_RECORD], Quoted(KEY_C));
    PairedAppend([OPEN_RECORD] + Quoted(KEY_C), [COLON]);
    PairedAppend([OPEN_RECORD] + Quoted(KEY_C) + [COLON], Quoted(p.createdAt));
    PairedAppend(a, [COMMA]);
    PairedAppend(a + [COMMA], Quoted(KEY_I));
    PairedAppend(a + [COMMA] + Quoted(KEY_I), [COLON]);
    PairedAppend(a + [COMMA] + Quoted(KEY_I) + [COLON], Quoted(p.id));
    PairedAppend(a + [COMMA] + Quoted(KEY_I) + [COLON] + Quoted(p.id), [CLOSE_RECORD]);
  }

  lemma TextRoundTrip(t: Text)
    requires Paired(t) && t != [] && t[0] != BYTE_ORDER_MARK
    ensures TextDecode(TextEncode(t)) == t
  {
    Utf8RoundTrip(t);
  }

  lemma EncodedIsNotEmpty(t: Text)
    requires t != []
    ensures Base64Url(TextEncode(t)) != []
  {
    var b := TextEncode(t);
    assert b != [];
    Base64UrlRoundTrip(b);
    if Base64Url(b) == [] { NothingDecodesToNothing(); }
  }

  lemma NothingDecodesToNothing()
    ensures FromBase64Url([]) == Some([])
  {
    assert Swap(Swap([], DASH, PLUS), UNDERSCORE, SLASH) == [];
    assert WithoutSpace([] + Repeat(EQUALS, 0)) == [];
  }

  /** A cursor this service issued is read as the position it was issued for, whatever the two strings
      hold. */
  lemma CursorRoundTrip(parse: JsonParser, p: Position)
    requires ReadsBack(parse)
    ensures DecodeCursor(parse, Some(EncodeCursor(p))) == Ok(Some(p))
  {
    hide CursorText, Base64Url, FromBase64Url, TextEncode, TextDecode, Paired;
    CursorTextIsPaired(p);
    TextRoundTrip(CursorText(p));
    EncodedIsNotEmpty(CursorText(p));
    Base64UrlRoundTrip(TextEncode(CursorText(p)));
    var members := [Member(KEY_C, Str(p.createdAt)), Member(KEY_I, Str(p.id))];
    assert members[0] in members && members[1] in members && KEY_C[0] != KEY_I[0];
    assert ValueAt(members, KEY_C) == Str(p.createdAt);
    assert ValueAt(members, KEY_I) == Str(p.id);
  }

  /** Such a parser can exist: no two positions are written alike. */
  lemma CursorTextIsInjective(p: Position, q: Position)
    requires CursorText(p) == CursorText(q)
    ensures p == q
  {
    hide Quoted;
    var head := [OPEN_RECORD] + Quoted(KEY_C) + [COLON];
    var mid := [COMMA] + Quoted(KEY_I) + [COLON];
    assert CursorText(p) == head + (Quoted(p.createdAt) + (mid + (Quoted(p.id) + [CLOSE_RECORD])));
    assert CursorText(q) == head + (Quoted(q.createdAt) + (mid + (Quoted(q.id) + [CLOSE_RECORD])));
    CanonicalFacts.SameLengthSplit(head, Quoted(p.createdAt) + (mid + (Quoted(p.id) + [CLOSE_RECORD])),
                                   head, Quoted(q.createdAt) + (mid + (Quoted(q.id) + [CLOSE_RECORD])));
    CanonicalFacts.QuotedReadsBack(p.createdAt, mid + (Quoted(p.id) + [CLOSE_RECORD]), q.createdAt, mid + (Quoted(q.id) + [CLOSE_RECORD]));
    CanonicalFacts.SameLengthSplit(mid, Quoted(p.id) + [CLOSE_RECORD], mid, Quoted(q.id) + [CLOSE_RECORD]);
    CanonicalFacts.QuotedReadsBack(p.id, [CLOSE_RECORD], q.id, [CLOSE_RECORD]);
  }
}
