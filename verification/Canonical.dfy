/** Canonical JSON: one spelling for every way of writing the same value. */
module Canonical {
  import opened Wrappers
  import opened Strings

  const QUOTE: Unit := '\"' as int
  const BACKSLASH: Unit := '\\' as int
  const COMMA: Unit := ',' as int
  const COLON: Unit := ':' as int
  const OPEN_LIST: Unit := '[' as int
  const CLOSE_LIST: Unit := ']' as int
  const OPEN_RECORD: Unit := '{' as int
  const CLOSE_RECORD: Unit := '}' as int
  const LOWER_U: Unit := 'u' as int

  const NULL_TEXT: Text := ['n' as int, 'u' as int, 'l' as int, 'l' as int]
  const TRUE_TEXT: Text := ['t' as int, 'r' as int, 'u' as int, 'e' as int]
  const FALSE_TEXT: Text := ['f' as int, 'a' as int, 'l' as int, 's' as int, 'e' as int]

  /** A JavaScript value as the printer can meet it. A finite number is identified with the numeral
      JavaScript prints for it; NaN and the infinities print as null. */
  datatype Value =
    | Null
    | Undefined
    | NotFinite
    | Bool(yes: bool)
    | Num(numeral: Text)
    | Str(text: Text)
    | Arr(items: seq<Value>)
    | Obj(members: seq<Member>)

  datatype Member = Member(key: Text, value: Value)

  predicate InNumeral(c: Unit) {
    IsDigit(c) || c == '-' as int || c == '+' as int || c == '.' as int || c == 'e' as int
  }

  predicate IsNumeral(t: Text) {
    && t != []
    && (IsDigit(t[0]) || t[0] == '-' as int)
    && forall i :: 0 <= i < |t| ==> InNumeral(t[i])
  }

  predicate DistinctKeys(members: seq<Member>) {
    forall i, j :: 0 <= i < j < |members| ==> members[i].key != members[j].key
  }

  /** What every JavaScript value satisfies: numerals are numerals and no object has a key twice. */
  predicate WellFormed(v: Value) {
    match v
    case Num(n) => IsNumeral(n)
    case Arr(items) => forall x :: x in items ==> WellFormed(x)
    case Obj(members) => DistinctKeys(members) && forall m :: m in members ==> WellFormed(m.value)
    case _ => true
  }

  // ---- what a value means once its spelling is forgotten ----

  datatype Meaning =
    | Nothing
    | Truth(yes: bool)
    | Quantity(numeral: Text)
    | Words(text: Text)
    | List(items: seq<Meaning>)
    | Record(members: map<Text, Meaning>)

  function KeptKeys(members: seq<Member>): set<Text> {
    set m | m in members && !m.value.Undefined? :: m.key
  }

  function ValueAt(members: seq<Member>, key: Text): (v: Value)
    requires key in KeptKeys(members)
    ensures Member(key, v) in members && !v.Undefined?
  {
    var m := members[0];
    if m.key == key && !m.value.Undefined? then m.value else ValueAt(members[1..], key)
  }

  ghost function MeaningOf(v: Value): Meaning
    requires WellFormed(v)
  {
    match v
    case Null => Nothing
    case Undefined => Nothing
    case NotFinite => Nothing
    case Bool(b) => Truth(b)
    case Num(n) => Quantity(n)
    case Str(s) => Words(s)
    case Arr(items) => List(seq(|items|, i requires 0 <= i < |items| => MeaningOf(items[i])))
    case Obj(members) =>
      Record(map k | k in KeptKeys(members) :: MeaningOf(ValueAt(members, k)))
  }

  // ---- JSON.stringify on a string ----

  function HexDigit(n: int): (c: Unit)
    requires 0 <= n < 16
    ensures IsDigit(c) <==> n < 10
  {
    if n < 10 then '0' as int + n else 'a' as int + n - 10
  }

  function EscapeCode(c: Unit): Text {
    [BACKSLASH, LOWER_U, HexDigit(c / 4096), HexDigit(c / 256 % 16), HexDigit(c / 16 % 16), HexDigit(c % 16)]
  }

  /** The letter after the backslash for the seven characters that have a short escape. */
  function ShortEscape(c: Unit): Option<Unit> {
    if c == 8 then Some('b' as int)
    else if c == 9 then Some('t' as int)
    else if c == 10 then Some('n' as int)
    else if c == 12 then Some('f' as int)
    else if c == 13 then Some('r' as int)
    else if c == QUOTE || c == BACKSLASH then Some(c)
    else None
  }

  /** One code unit that is not half of a surrogate pair. */
  function EscapeUnit(c: Unit): Text {
    if ShortEscape(c).Some? then [BACKSLASH, ShortEscape(c).value]
    else if c < 0x20 || IsHigh(c) || IsLow(c) then EscapeCode(c)
    else [c]
  }

  function Escape(s: Text): Text {
    if s == [] then []
    else if StartsWithPair(s) then s[..2] + Escape(s[2..])
    else EscapeUnit(s[0]) + Escape(s[1..])
  }

  function Quoted(s: Text): Text { [QUOTE] + Escape(s) + [QUOTE] }

  // ---- the printer ----

  /** JavaScript's `<` on strings. */
  predicate Less(a: Text, b: Text) {
    b != [] && (a == [] || a[0] < b[0] || (a[0] == b[0] && Less(a[1..], b[1..])))
  }

  function Kept(members: seq<Member>): (kept: seq<Member>)
    ensures forall m :: m in kept <==> m in members && !m.value.Undefined?
  {
    if members == [] then []
    else
      (if members[0].value.Undefined? then [] else [members[0]]) + Kept(members[1..])
  }

  function InsertByKey(m: Member, sorted: seq<Member>): (r: seq<Member>)
    ensures forall x :: x in r <==> x == m || x in sorted
  {
    if sorted == [] || Less(m.key, sorted[0].key) then [m] + sorted
    else [sorted[0]] + InsertByKey(m, sorted[1..])
  }

  function SortByKey(members: seq<Member>): (r: seq<Member>)
    ensures forall x :: x in r <==> x in members
  {
    if members == [] then [] else InsertByKey(members[0], SortByKey(members[1..]))
  }

  function Listed(parts: seq<Text>): Text { Join(parts, COMMA) }

  function CanonicalJson(v: Value): Text
    decreases v, 1
  {
    match v
    case Bool(b) => if b then TRUE_TEXT else FALSE_TEXT
    case Num(n) => n
    case Str(s) => Quoted(s)
    case Arr(items) =>
      [OPEN_LIST] + Listed(seq(|items|, i requires 0 <= i < |items| => CanonicalJson(items[i]))) + [CLOSE_LIST]
    case Obj(members) =>
      var entries := SortByKey(Kept(members));
      [OPEN_RECORD] + Listed(seq(|entries|, i requires 0 <= i < |entries| =>
        assert entries[i] in members; Quoted(entries[i].key) + [COLON] + CanonicalJson(entries[i].value))) + [CLOSE_RECORD]
    case _ => NULL_TEXT
  }

  const SCRIPT_KEY: Text := ['s' as int, 'c' as int, 'r' as int, 'i' as int, 'p' as int, 't' as int]
  const OPTIONS_KEY: Text := ['o' as int, 'p' as int, 't' as int, 'i' as int, 'o' as int, 'n' as int, 's' as int]

  function SubmissionFingerprintInput(script: Value, options: Value): Text {
    CanonicalJson(Obj([Member(SCRIPT_KEY, script), Member(OPTIONS_KEY, options)]))
  }
}
