/** What the printer writes is JSON, and says what the value means: read back by the grammar of RFC 8259. */
module JsonFacts {
  import opened Wrappers
  import opened Strings
  import opened Canonical
  import opened CanonicalFacts

  /** A text of plain characters. */
  function Plain(s: string): Text { seq(|s|, i requires 0 <= i < |s| => if s[i] as int < 0x80 then s[i] as int else '?' as int) }

  // ---- strings, by section 7 of RFC 8259 ----

  predicate IsHex(c: Unit) { IsDigit(c) || 'a' as int <= c <= 'f' as int || 'A' as int <= c <= 'F' as int }

  function HexValue(c: Unit): (n: nat)
    requires IsHex(c)
    ensures n < 16
  {
    if IsDigit(c) then c - 0x30 else if c >= 0x61 then c - 0x61 + 10 else c - 0x41 + 10
  }

  /** What the letter after a backslash stands for, but for u. */
  function Short(c: Unit): Option<Unit> {
    if c == 0x22 || c == 0x5C || c == 0x2F then Some(c)
    else if c == 0x62 then Some(0x8)
    else if c == 0x66 then Some(0xC)
    else if c == 0x6E then Some(0xA)
    else if c == 0x72 then Some(0xD)
    else if c == 0x74 then Some(0x9)
    else None
  }

  /** The units between a string's quotes, with its escapes undone; none if it is no string. */
  function Unescaped(t: Text): Option<Text>
    decreases |t|
  {
    if t == [] then Some([])
    else if t[0] == 0x5C then
      if |t| >= 2 && Short(t[1]).Some? then Before(Short(t[1]).value, Unescaped(t[2..]))
      else if |t| >= 6 && t[1] == 0x75 && IsHex(t[2]) && IsHex(t[3]) && IsHex(t[4]) && IsHex(t[5]) then
        Before(((HexValue(t[2]) * 16 + HexValue(t[3])) * 16 + HexValue(t[4])) * 16 + HexValue(t[5]), Unescaped(t[6..]))
      else None
    else if t[0] < 0x20 || t[0] == 0x22 then None
    else Before(t[0], Unescaped(t[1..]))
  }

  function Before(c: Unit, rest: Option<Text>): Option<Text> { if rest.None? then None else Some([c] + rest.value) }

  predicate SpellsString(t: Text, s: Text) {
    |t| >= 2 && t[0] == 0x22 && t[|t| - 1] == 0x22 && Unescaped(t[1..|t| - 1]) == Some(s)
  }

  // ---- values ----

  /** One member of an object: its key, a colon and its value. */
  predicate IsMember(line: Text, key: Text, keyText: Text, valueText: Text) {
    SpellsString(keyText, key) && line == keyText + [0x3A] + valueText
  }

  ghost predicate SpellsMember(line: Text, key: Text, m: Meaning)
    decreases m, 1
  {
    exists keyText, valueText :: IsMember(line, key, keyText, valueText) && Spells(valueText, m)
  }

  /** Members in the order of their keys' code units, each key once. */
  predicate InOrder(keys: seq<Text>) { forall i, j :: 0 <= i < j < |keys| ==> Less(keys[i], keys[j]) }

  /** The text is JSON for this, without white space and with its objects' keys in order. */
  ghost predicate Spells(t: Text, m: Meaning)
    decreases m, 0
  {
    match m
    case Nothing => t == Plain("null")
    case Truth(yes) => t == Plain(if yes then "true" else "false")
    case Quantity(numeral) => t == numeral
    case Words(s) => SpellsString(t, s)
    case List(items) =>
      exists parts: seq<Text> ::
        && |parts| == |items| && t == [0x5B] + Join(parts, 0x2C) + [0x5D]
        && forall i :: 0 <= i < |items| ==> Spells(parts[i], items[i])
    case Record(members) =>
      exists keys: seq<Text>, lines: seq<Text> ::
        && |lines| == |keys| && t == [0x7B] + Join(lines, 0x2C) + [0x7D]
        && InOrder(keys) && (forall k :: k in keys <==> k in members)
        && forall i :: 0 <= i < |keys| ==>
             keys[i] in members && SpellsMember(lines[i], keys[i], members[keys[i]])
  }

  // ---- the printer's strings ----

  lemma HexDigits(n: int)
    requires 0 <= n < 16
    ensures IsHex(HexDigit(n)) && HexValue(HexDigit(n)) == n
  {
  }

  lemma FourDigits(c: Unit)
    ensures ((c / 4096 * 16 + c / 256 % 16) * 16 + c / 16 % 16) * 16 + c % 16 == c
  {
  }

  lemma CodeReadsBack(c: Unit, rest: Text)
    ensures Unescaped(EscapeCode(c) + rest) == Before(c, Unescaped(rest))
  {
    hide HexDigit;
    var t := EscapeCode(c) + rest;
    HexDigits(c / 4096);
    HexDigits(c / 256 % 16);
    HexDigits(c / 16 % 16);
    HexDigits(c % 16);
    FourDigits(c);
    hide HexValue, IsHex;
    assert t[6..] == rest;
    assert t[0] == 0x5C && t[1] == 0x75 && Short(t[1]).None?;
  }

  /** Unescaping undoes escaping, for every text. */
  lemma {:induction false} EscapeReadsBack(s: Text)
    ensures Unescaped(Escape(s)) == Some(s)
    decreases |s|
  {
    hide EscapeUnit, EscapeCode;
    if s == [] {
    } else if StartsWithPair(s) {
      EscapeReadsBack(s[2..]);
      var t := Escape(s);
      assert t[0] == s[0] && t[1..][0] == s[1] && t[1..][1..] == Escape(s[2..]);
      assert [s[0]] + ([s[1]] + s[2..]) == s;
    } else {
      EscapeReadsBack(s[1..]);
      UnitThenRest(s[0], Escape(s[1..]));
      assert [s[0]] + s[1..] == s;
    }
  }

  lemma UnitThenRest(c: Unit, rest: Text)
    ensures Unescaped(EscapeUnit(c) + rest) == Before(c, Unescaped(rest))
  {
    hide EscapeCode;
    var t := EscapeUnit(c) + rest;
    if ShortEscape(c).Some? {
      assert t[2..] == rest && Short(t[1]) == Some(c);
    } else if c < 0x20 || IsHigh(c) || IsLow(c) {
      CodeReadsBack(c, rest);
    } else {
      assert t[1..] == rest;
    }
  }

  lemma QuotedSpells(s: Text)
    ensures SpellsString(Quoted(s), s)
  {
    hide Escape, Unescaped;
    EscapeReadsBack(s);
    var t := Quoted(s);
    assert t[1..|t| - 1] == Escape(s);
  }

  // ---- the printer's values ----

  lemma NamesAreSpelled()
    ensures NULL_TEXT == Plain("null") && TRUE_TEXT == Plain("true") && FALSE_TEXT == Plain("false")
  {
  }

  lemma ArraySpells(items: seq<Value>)
    requires WellFormed(Arr(items))
    requires forall i :: 0 <= i < |items| ==> Spells(CanonicalJson(items[i]), MeaningOf(items[i]))
    ensures Spells(CanonicalJson(Arr(items)), MeaningOf(Arr(items)))
  {
    hide CanonicalJson, Join;
    PrintsArray(items);
    var m := MeaningOf(Arr(items));
    var parts := Texts(items);
    assert |parts| == |m.items| && forall i :: 0 <= i < |items| ==> Spells(parts[i], m.items[i]);
  }

  lemma EntrySpells(ms: seq<Member>, m: Member)
    requires WellFormed(Obj(ms)) && m in Entries(ms) && Spells(CanonicalJson(m.value), MeaningOf(m.value))
    ensures m.key in MeaningOf(Obj(ms)).members
    ensures SpellsMember(Line(m), m.key, MeaningOf(Obj(ms)).members[m.key])
  {
    hide CanonicalJson, MeaningOf, Quoted, Spells, SpellsString;
    MemberMeans(ms, m);
    ObjectMeansRecord(ms);
    QuotedSpells(m.key);
    assert IsMember(Line(m), m.key, Quoted(m.key), CanonicalJson(m.value));
  }

  function KeysOf(ms: seq<Member>): (keys: seq<Text>)
    ensures |keys| == |ms| && forall i :: 0 <= i < |keys| ==> keys[i] == ms[i].key
  {
    seq(|ms|, i requires 0 <= i < |ms| => ms[i].key)
  }

  lemma ObjectSpells(ms: seq<Member>)
    requires WellFormed(Obj(ms))
    requires forall m :: m in Entries(ms) ==> Spells(CanonicalJson(m.value), MeaningOf(m.value))
    ensures Spells(CanonicalJson(Obj(ms)), MeaningOf(Obj(ms)))
  {
    hide CanonicalJson, MeaningOf, Join, Line, Entries, SpellsMember;
    PrintsObject(ms);
    ObjectMeansRecord(ms);
    EntriesSorted(ms);
    RecordKeys(ms);
    var entries := Entries(ms);
    var keys, lines, members := KeysOf(entries), Lines(entries), MeaningOf(Obj(ms)).members;
    forall i | 0 <= i < |keys|
      ensures keys[i] in members && SpellsMember(lines[i], keys[i], members[keys[i]])
    {
      assert entries[i] in entries;
      EntrySpells(ms, entries[i]);
    }
    forall k ensures k in keys <==> k in members { KeysOfEntries(entries, k); }
    assert InOrder(keys);
  }

  lemma KeysOfEntries(ms: seq<Member>, k: Text)
    ensures k in KeysOf(ms) <==> k in Keys(ms)
  {
    if k in KeysOf(ms) { var i :| 0 <= i < |ms| && KeysOf(ms)[i] == k; assert ms[i] in ms; }
    if m :| m in ms && m.key == k { var i :| 0 <= i < |ms| && ms[i] == m; assert KeysOf(ms)[i] == k; }
  }

  /** The canonical text of a value is JSON for what it means: null for null and for what JSON cannot say,
      true for true, its numeral for a number, and so on through every list and object. */
  lemma {:induction false} CanonicalJsonSpells(v: Value)
    requires WellFormed(v)
    ensures Spells(CanonicalJson(v), MeaningOf(v))
    decreases v
  {
    match v {
      case Str(s) => QuotedSpells(s);
      case Arr(items) =>
        forall i | 0 <= i < |items| ensures Spells(CanonicalJson(items[i]), MeaningOf(items[i])) { CanonicalJsonSpells(items[i]); }
        ArraySpells(items);
      case Obj(ms) =>
        forall m | m in Entries(ms) ensures WellFormed(m.value) && Spells(CanonicalJson(m.value), MeaningOf(m.value)) {
          CanonicalJsonSpells(m.value);
        }
        ObjectSpells(ms);
      case _ => NamesAreSpelled();
    }
  }

  /** What is hashed is JSON for an object of two members, called options and script. */
  lemma FingerprintInputSpells(script: Value, options: Value)
    requires WellFormed(script) && WellFormed(options)
    ensures exists m: map<Text, Meaning> ::
      && Spells(SubmissionFingerprintInput(script, options), Record(m))
      && (forall k :: k in m ==> k == Plain("script") || k == Plain("options"))
      && (if Plain("script") in m then Some(m[Plain("script")]) else None) == MemberMeaning(script)
      && (if Plain("options") in m then Some(m[Plain("options")]) else None) == MemberMeaning(options)
  {
    hide CanonicalJson, MeaningOf, Spells;
    assert SCRIPT_KEY == Plain("script") && OPTIONS_KEY == Plain("options");
    SubmissionIsWellFormed(script, options);
    CanonicalJsonSpells(Submission(script, options));
    SubmissionMeans(script, options);
  }
}
