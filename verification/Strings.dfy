/** JavaScript strings: sequences of UTF-16 code units, split and joined. */
module Strings {
  type Unit = c: int | 0 <= c < 0x1_0000
  type Text = seq<Unit>

  type Byte = b: int | 0 <= b < 0x100

  predicate IsDigit(c: Unit) { '0' as int <= c <= '9' as int }
  predicate IsLower(c: Unit) { 'a' as int <= c <= 'z' as int }
  predicate IsUpper(c: Unit) { 'A' as int <= c <= 'Z' as int }

  predicate IsHigh(c: Unit) { 0xD800 <= c <= 0xDBFF }
  predicate IsLow(c: Unit) { 0xDC00 <= c <= 0xDFFF }

  /** The text begins with the two halves of one character. */
  predicate StartsWithPair(s: Text) { |s| >= 2 && IsHigh(s[0]) && IsLow(s[1]) }

  function Join(parts: seq<Text>, sep: Unit): Text {
    if parts == [] then []
    else if |parts| == 1 then parts[0]
    else parts[0] + [sep] + Join(parts[1..], sep)
  }

  /** The text before the first separator. */
  function Before(t: Text, sep: Unit): (r: Text)
    ensures r <= t && sep !in r && (r == t || t[|r|] == sep)
  {
    if t == [] || t[0] == sep then [] else [t[0]] + Before(t[1..], sep)
  }

  function Split(t: Text, sep: Unit): (parts: seq<Text>)
    ensures parts != []
    ensures forall p :: p in parts ==> sep !in p
    decreases |t|
  {
    var first := Before(t, sep);
    if first == t then [t] else [first] + Split(t[|first| + 1..], sep)
  }

  lemma {:induction false} BeforeSeparator(first: Text, sep: Unit, rest: Text)
    requires sep !in first
    ensures Before(first + [sep] + rest, sep) == first
  {
    var t := first + [sep] + rest;
    if first != [] {
      assert t[1..] == first[1..] + [sep] + rest;
      BeforeSeparator(first[1..], sep, rest);
    }
  }

  lemma {:induction false} BeforeNothing(t: Text, sep: Unit)
    requires sep !in t
    ensures Before(t, sep) == t
  {
    if t != [] { BeforeNothing(t[1..], sep); }
  }

  /** One more part in front of a text splits off again. */
  lemma SplitFirst(first: Text, sep: Unit, rest: Text)
    requires sep !in first
    ensures Split(first + [sep] + rest, sep) == [first] + Split(rest, sep)
  {
    BeforeSeparator(first, sep, rest);
    assert (first + [sep] + rest)[|first| + 1..] == rest;
  }

  /** Splitting undoes joining, for parts without the separator. */
  lemma {:induction false} SplitOfJoin(parts: seq<Text>, sep: Unit)
    requires parts != [] && forall p :: p in parts ==> sep !in p
    ensures Split(Join(parts, sep), sep) == parts
  {
    assert parts[0] in parts;
    if |parts| == 1 {
      BeforeNothing(parts[0], sep);
    } else {
      SplitOfJoin(parts[1..], sep);
      SplitFirst(parts[0], sep, Join(parts[1..], sep));
    }
  }

  /** Joining undoes splitting, for every text. */
  lemma {:induction false} JoinOfSplit(t: Text, sep: Unit)
    ensures Join(Split(t, sep), sep) == t
    decreases |t|
  {
    var first := Before(t, sep);
    if first != t {
      var rest := t[|first| + 1..];
      JoinOfSplit(rest, sep);
      assert ([first] + Split(rest, sep))[1..] == Split(rest, sep);
      assert t == first + [sep] + rest;
    }
  }
}
