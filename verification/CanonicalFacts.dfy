/** Two values print alike exactly when they mean the same. */
module CanonicalFacts {
  import opened Wrappers
  import opened Strings
  import opened Canonical

  // ---- the key order is a strict total order ----

  lemma {:induction false} LessTransitive(a: Text, b: Text, c: Text)
    requires Less(a, b) && Less(b, c)
    ensures Less(a, c)
  {
    if a != [] && a[0] == b[0] && b[0] == c[0] { LessTransitive(a[1..], b[1..], c[1..]); }
  }

  lemma {:induction false} LessTotal(a: Text, b: Text)
    ensures a == b || Less(a, b) || Less(b, a)
    ensures !(Less(a, b) && Less(b, a)) && !Less(a, a)
  {
    if a != [] { assert a == [a[0]] + a[1..]; }
    if b != [] { assert b == [b[0]] + b[1..]; }
    if a != [] && b != [] && a[0] == b[0] { LessTotal(a[1..], b[1..]); }
    if a != [] { LessIrreflexive(a); }
  }

  lemma {:induction false} LessIrreflexive(a: Text)
    ensures !Less(a, a)
  {
    if a != [] { LessIrreflexive(a[1..]); }
  }

  // ---- sorting ----

  predicate Sorted(ms: seq<Member>) {
    forall i, j :: 0 <= i < j < |ms| ==> Less(ms[i].key, ms[j].key)
  }

  predicate Fresh(key: Text, ms: seq<Member>) { forall m :: m in ms ==> m.key != key }

  lemma {:induction false} InsertKeepsSorted(m: Member, ms: seq<Member>)
    requires Sorted(ms) && Fresh(m.key, ms)
    ensures Sorted(InsertByKey(m, ms))
  {
    if ms != [] {
      LessTotal(m.key, ms[0].key);
      if Less(m.key, ms[0].key) {
        forall j | 1 <= j < |ms| ensures Less(m.key, ms[j].key) { LessTransitive(m.key, ms[0].key, ms[j].key); }
      } else {
        InsertKeepsSorted(m, ms[1..]);
        var r := InsertByKey(m, ms[1..]);
        forall j | 0 <= j < |r| ensures Less(ms[0].key, r[j].key) { assert r[j] in r; }
      }
    }
  }

  lemma {:induction false} SortSorts(ms: seq<Member>)
    requires DistinctKeys(ms)
    ensures Sorted(SortByKey(ms))
  {
    if ms != [] {
      SortSorts(ms[1..]);
      InsertKeepsSorted(ms[0], SortByKey(ms[1..]));
    }
  }

  lemma {:induction false} KeptDistinct(ms: seq<Member>)
    requires DistinctKeys(ms)
    ensures DistinctKeys(Kept(ms))
  {
    if ms != [] {
      KeptDistinct(ms[1..]);
      var k := Kept(ms[1..]);
      forall j | 0 <= j < |k| ensures k[j].key != ms[0].key { assert k[j] in k; }
    }
  }

  /** The object's members in the order they print. */
  function Entries(ms: seq<Member>): (r: seq<Member>)
    ensures forall m :: m in r <==> m in ms && !m.value.Undefined?
  {
    SortByKey(Kept(ms))
  }

  lemma EntriesSorted(ms: seq<Member>)
    requires DistinctKeys(ms)
    ensures Sorted(Entries(ms))
  {
    KeptDistinct(ms);
    SortSorts(Kept(ms));
  }

  ghost function Keys(ms: seq<Member>): set<Text> { set m | m in ms :: m.key }

  lemma TailKeys(ms: seq<Member>)
    requires Sorted(ms) && ms != []
    ensures Keys(ms[1..]) == Keys(ms) - {ms[0].key}
  {
    var rest := ms[1..];
    forall k | k in Keys(rest) ensures k in Keys(ms) && k != ms[0].key {
      var i :| 0 <= i < |rest| && rest[i].key == k;
      assert ms[i + 1] in ms;
      LessIrreflexive(k);
    }
    forall k | k in Keys(ms) && k != ms[0].key ensures k in Keys(rest) {
      var i :| 0 <= i < |ms| && ms[i].key == k;
      assert rest[i - 1] in rest;
    }
  }

  lemma FirstIsLeast(ms: seq<Member>, k: Text)
    requires Sorted(ms) && k in Keys(ms)
    ensures k == ms[0].key || Less(ms[0].key, k)
  {
    var i :| 0 <= i < |ms| && ms[i].key == k;
  }

  /** Two strictly sorted lists with the same keys list them in the same order. */
  lemma {:induction false} SortedIsUnique(xs: seq<Member>, ys: seq<Member>)
    requires Sorted(xs) && Sorted(ys) && Keys(xs) == Keys(ys)
    ensures |xs| == |ys| && forall i :: 0 <= i < |xs| ==> xs[i].key == ys[i].key
  {
    if xs == [] {
      NoKeysNoMembers(ys);
    } else {
      hide Less;
      assert xs[0] in xs && xs[0].key in Keys(ys);
      NoKeysNoMembers(ys);
      assert ys[0] in ys && ys[0].key in Keys(xs);
      FirstIsLeast(xs, ys[0].key);
      FirstIsLeast(ys, xs[0].key);
      LessTotal(xs[0].key, ys[0].key);
      TailKeys(xs);
      TailKeys(ys);
      SortedIsUnique(xs[1..], ys[1..]);
      forall i | 0 <= i < |xs| ensures xs[i].key == ys[i].key {
        if i > 0 { assert xs[i] == xs[1..][i - 1] && ys[i] == ys[1..][i - 1]; }
      }
    }
  }

  lemma NoKeysNoMembers(ms: seq<Member>)
    ensures Keys(ms) == {} <==> ms == []
  {
    if ms != [] { assert ms[0] in ms && ms[0].key in Keys(ms); }
  }

  // ---- objects, compared entry by entry ----

  predicate WellFormedMembers(ms: seq<Member>) { forall m :: m in ms ==> WellFormed(m.value) }

  ghost predicate SameEntries(xs: seq<Member>, ys: seq<Member>)
    requires WellFormedMembers(xs) && WellFormedMembers(ys)
  {
    && |xs| == |ys|
    && forall i :: 0 <= i < |xs| ==> xs[i].key == ys[i].key && MeaningOf(xs[i].value) == MeaningOf(ys[i].value)
  }

  lemma MemberMeans(ms: seq<Member>, m: Member)
    requires WellFormed(Obj(ms)) && m in ms && !m.value.Undefined?
    ensures m.key in MeaningOf(Obj(ms)).members && MeaningOf(Obj(ms)).members[m.key] == MeaningOf(m.value)
  {
    var i :| 0 <= i < |ms| && ms[i] == m;
    var j :| 0 <= j < |ms| && ms[j] == Member(m.key, ValueAt(ms, m.key));
  }

  lemma MeaningHasMember(ms: seq<Member>, k: Text)
    requires WellFormed(Obj(ms)) && k in MeaningOf(Obj(ms)).members
    ensures exists m :: m in ms && !m.value.Undefined? && m.key == k
  {
  }

  lemma SameEntriesSameRecord(xs: seq<Member>, ys: seq<Member>)
    requires WellFormed(Obj(xs)) && WellFormed(Obj(ys))
    requires SameEntries(Entries(xs), Entries(ys))
    ensures MeaningOf(Obj(xs)).members.Keys <= MeaningOf(Obj(ys)).members.Keys
    ensures forall k :: k in MeaningOf(Obj(xs)).members ==> MeaningOf(Obj(xs)).members[k] == MeaningOf(Obj(ys)).members[k]
  {
    var mx, my := MeaningOf(Obj(xs)).members, MeaningOf(Obj(ys)).members;
    forall k | k in mx ensures k in my && mx[k] == my[k] {
      MeaningHasMember(xs, k);
      var m :| m in xs && !m.value.Undefined? && m.key == k;
      MemberMeans(xs, m);
      var ex, ey := Entries(xs), Entries(ys);
      assert m in ex;
      var i :| 0 <= i < |ex| && ex[i] == m;
      assert ey[i] in ey;
      MemberMeans(ys, ey[i]);
    }
  }

  lemma RecordKeys(ms: seq<Member>)
    requires WellFormed(Obj(ms))
    ensures MeaningOf(Obj(ms)).members.Keys == Keys(Entries(ms))
  {
    var r := MeaningOf(Obj(ms)).members;
    forall k | k in r ensures k in Keys(Entries(ms)) {
      MeaningHasMember(ms, k);
      var m :| m in ms && !m.value.Undefined? && m.key == k;
      assert m in Entries(ms);
    }
    forall k | k in Keys(Entries(ms)) ensures k in r {
      var m :| m in Entries(ms) && m.key == k;
      MemberMeans(ms, m);
    }
  }

  lemma ObjectMeansRecord(ms: seq<Member>)
    requires WellFormed(Obj(ms))
    ensures MeaningOf(Obj(ms)).Record? && WellFormedMembers(Entries(ms))
  {
  }

  /** Objects mean the same exactly when, in key order, their entries do. */
  lemma ObjectsAgree(xs: seq<Member>, ys: seq<Member>)
    requires WellFormed(Obj(xs)) && WellFormed(Obj(ys))
    ensures MeaningOf(Obj(xs)) == MeaningOf(Obj(ys)) <==> SameEntries(Entries(xs), Entries(ys))
  {
    hide MeaningOf, Entries, Sorted, Keys;
    ObjectMeansRecord(xs);
    ObjectMeansRecord(ys);
    var mx, my := MeaningOf(Obj(xs)).members, MeaningOf(Obj(ys)).members;
    if SameEntries(Entries(xs), Entries(ys)) {
      SameEntriesSameRecord(xs, ys);
      assert SameEntries(Entries(ys), Entries(xs));
      SameEntriesSameRecord(ys, xs);
      assert mx == my;
    }
    if MeaningOf(Obj(xs)) == MeaningOf(Obj(ys)) { SameRecordSameEntries(xs, ys); }
  }

  lemma SameRecordSameEntries(xs: seq<Member>, ys: seq<Member>)
    requires WellFormed(Obj(xs)) && WellFormed(Obj(ys)) && MeaningOf(Obj(xs)) == MeaningOf(Obj(ys))
    ensures SameEntries(Entries(xs), Entries(ys))
  {
    hide MeaningOf, Sorted, Keys;
    var ex, ey := Entries(xs), Entries(ys);
    EntriesSorted(xs);
    EntriesSorted(ys);
    RecordKeys(xs);
    RecordKeys(ys);
    SortedIsUnique(ex, ey);
    forall i | 0 <= i < |ex| ensures ex[i].key == ey[i].key && MeaningOf(ex[i].value) == MeaningOf(ey[i].value) {
      assert ex[i] in ex && ey[i] in ey;
      MemberMeans(xs, ex[i]);
      MemberMeans(ys, ey[i]);
    }
  }

  // ---- reading strings back ----

  lemma SameLengthSplit(p: Text, x: Text, q: Text, y: Text)
    requires p + x == q + y && |p| == |q|
    ensures p == q && x == y
  {
    assert p == (p + x)[..|p|] && q == (q + y)[..|q|];
    assert x == (p + x)[|p|..] && y == (q + y)[|q|..];
  }

  lemma HexIsInjective(m: int, n: int)
    requires 0 <= m < 16 && 0 <= n < 16 && HexDigit(m) == HexDigit(n)
    ensures m == n
  {
  }

  lemma EscapeCodeIsInjective(c: Unit, d: Unit)
    requires EscapeCode(c) == EscapeCode(d)
    ensures c == d
  {
    var x, y := EscapeCode(c), EscapeCode(d);
    assert x[2] == y[2] && x[3] == y[3] && x[4] == y[4] && x[5] == y[5];
    HexIsInjective(c / 4096, d / 4096);
    HexIsInjective(c / 256 % 16, d / 256 % 16);
    HexIsInjective(c / 16 % 16, d / 16 % 16);
    HexIsInjective(c % 16, d % 16);
    FromDigits(c);
    FromDigits(d);
  }

  lemma FromDigits(c: Unit)
    ensures c == c / 4096 * 4096 + c / 256 % 16 * 256 + c / 16 % 16 * 16 + c % 16
  {
    var a, b := c / 16, c / 256;
    assert b == a / 16 && c / 4096 == b / 16;
  }

  lemma UnitShape(c: Unit)
    ensures var e := EscapeUnit(c);
      && e != [] && e[0] != QUOTE && !IsHigh(e[0]) && !IsLow(e[0])
      && (e[0] == BACKSLASH ==> |e| >= 2 && (e[1] == LOWER_U <==> |e| == 6) && (|e| == 2 || |e| == 6))
      && (e[0] != BACKSLASH ==> e == [c])
  {
  }

  lemma {:induction false} UnitReadsBack(c: Unit, x: Text, d: Unit, y: Text)
    requires EscapeUnit(c) + x == EscapeUnit(d) + y
    ensures c == d && x == y
  {
    var e, f := EscapeUnit(c), EscapeUnit(d);
    UnitShape(c);
    UnitShape(d);
    assert e[0] == (e + x)[0] == (f + y)[0] == f[0];
    if e[0] == BACKSLASH { assert e[1] == (e + x)[1] == (f + y)[1] == f[1]; }
    SameLengthSplit(e, x, f, y);
    SameUnit(c, d);
  }

  lemma SameUnit(c: Unit, d: Unit)
    requires EscapeUnit(c) == EscapeUnit(d)
    ensures c == d
  {
    UnitShape(c);
    UnitShape(d);
    var e, f := EscapeUnit(c), EscapeUnit(d);
    if |e| == 6 {
      assert ShortEscape(c).None? && ShortEscape(d).None?;
      EscapeCodeIsInjective(c, d);
    } else if |e| == 2 {
      assert e[1] == f[1];
    }
  }

  /** What the next character of a string's text says about the rest of the string. */
  lemma StringHead(s: Text, rest: Text)
    ensures var l := Escape(s) + [QUOTE] + rest;
      && (l[0] == QUOTE <==> s == [])
      && (IsHigh(l[0]) <==> StartsWithPair(s))
  {
    hide EscapeUnit;
    if s != [] {
      UnitShape(s[0]);
      assert (Escape(s) + [QUOTE] + rest)[0] == Escape(s)[0];
    }
  }

  /** A quoted string ends where its closing quote is, whatever follows it. */
  lemma {:induction false} StringReadsBack(s: Text, x: Text, t: Text, y: Text)
    requires Escape(s) + [QUOTE] + x == Escape(t) + [QUOTE] + y
    ensures s == t && x == y
    decreases |s| + |t|
  {
    hide Escape, EscapeUnit, IsHigh, IsLow;
    var l, r := Escape(s) + [QUOTE] + x, Escape(t) + [QUOTE] + y;
    StringHead(s, x);
    StringHead(t, y);
    if s == [] {
      EscapesNothing();
      assert x == l[1..] && y == r[1..];
    } else {
      StringSplits(s, x);
      StringSplits(t, y);
      if StartsWithPair(s) {
        SameLengthSplit(s[..2], Escape(s[2..]) + [QUOTE] + x, t[..2], Escape(t[2..]) + [QUOTE] + y);
        StringReadsBack(s[2..], x, t[2..], y);
        assert s == s[..2] + s[2..] && t == t[..2] + t[2..];
      } else {
        UnitReadsBack(s[0], Escape(s[1..]) + [QUOTE] + x, t[0], Escape(t[1..]) + [QUOTE] + y);
        StringReadsBack(s[1..], x, t[1..], y);
        assert s == [s[0]] + s[1..] && t == [t[0]] + t[1..];
      }
    }
  }

  lemma StringSplits(s: Text, rest: Text)
    requires s != []
    ensures var l := Escape(s) + [QUOTE] + rest;
      if StartsWithPair(s) then l == s[..2] + (Escape(s[2..]) + [QUOTE] + rest)
      else l == EscapeUnit(s[0]) + (Escape(s[1..]) + [QUOTE] + rest)
  {
    hide EscapeUnit, IsHigh, IsLow;
    if StartsWithPair(s) {
      Regroup(s[..2], Escape(s[2..]), QUOTE, rest);
    } else {
      Regroup(EscapeUnit(s[0]), Escape(s[1..]), QUOTE, rest);
    }
  }

  lemma Regroup(p: Text, q: Text, c: Unit, rest: Text)
    ensures p + q + [c] + rest == p + (q + [c] + rest)
  {
  }

  lemma EscapesNothing()
    ensures Escape([]) == []
  {
  }

  lemma Unwrap(open: Unit, p: Text, close: Unit, x: Text, q: Text, y: Text)
    requires [open] + p + [close] + x == [open] + q + [close] + y
    ensures p + [close] + x == q + [close] + y
  {
    Regroup([open], p, close, x);
    Regroup([open], q, close, y);
    SameLengthSplit([open], p + [close] + x, [open], q + [close] + y);
  }

  lemma QuotedReadsBack(s: Text, x: Text, t: Text, y: Text)
    requires Quoted(s) + x == Quoted(t) + y
    ensures s == t && x == y
  {
    Unwrap(QUOTE, Escape(s), QUOTE, x, Escape(t), y);
    StringReadsBack(s, x, t, y);
  }

  // ---- reading values back ----

  /** What may follow a value inside a document: nothing that could continue a numeral. */
  predicate Stops(rest: Text) { rest == [] || !InNumeral(rest[0]) }

  /** The length of the longest prefix made of numeral characters. */
  function NumeralSpan(t: Text): nat {
    if t == [] || !InNumeral(t[0]) then 0 else 1 + NumeralSpan(t[1..])
  }

  lemma {:induction false} SpanOfNumeral(m: Text, rest: Text)
    requires (forall i :: 0 <= i < |m| ==> InNumeral(m[i])) && Stops(rest)
    ensures NumeralSpan(m + rest) == |m|
  {
    if m == [] {
      assert m + rest == rest;
    } else {
      assert (m + rest)[1..] == m[1..] + rest;
      SpanOfNumeral(m[1..], rest);
    }
  }

  lemma NumeralReadsBack(m: Text, x: Text, n: Text, y: Text)
    requires IsNumeral(m) && IsNumeral(n) && Stops(x) && Stops(y) && m + x == n + y
    ensures m == n && x == y
  {
    SpanOfNumeral(m, x);
    SpanOfNumeral(n, y);
    SameLengthSplit(m, x, n, y);
  }

  /** The first character of a value's text tells which kind of value it is. */
  function Opener(v: Value): Unit
    requires WellFormed(v)
  {
    match v
    case Bool(b) => if b then 't' as int else 'f' as int
    case Num(n) => n[0]
    case Str(_) => QUOTE
    case Arr(_) => OPEN_LIST
    case Obj(_) => OPEN_RECORD
    case _ => 'n' as int
  }

  lemma StartsWithOpener(v: Value)
    requires WellFormed(v)
    ensures CanonicalJson(v) != [] && CanonicalJson(v)[0] == Opener(v)
  {
  }

  function Texts(xs: seq<Value>): (r: seq<Text>)
    ensures |r| == |xs|
  {
    seq(|xs|, i requires 0 <= i < |xs| => CanonicalJson(xs[i]))
  }

  function Line(m: Member): Text { Quoted(m.key) + [COLON] + CanonicalJson(m.value) }

  function Lines(ms: seq<Member>): (r: seq<Text>)
    ensures |r| == |ms|
  {
    seq(|ms|, i requires 0 <= i < |ms| => Line(ms[i]))
  }

  lemma PrintsArray(items: seq<Value>)
    ensures CanonicalJson(Arr(items)) == [OPEN_LIST] + Listed(Texts(items)) + [CLOSE_LIST]
  {
    assert Texts(items) == seq(|items|, i requires 0 <= i < |items| => CanonicalJson(items[i]));
  }

  lemma PrintsObject(ms: seq<Member>)
    ensures CanonicalJson(Obj(ms)) == [OPEN_RECORD] + Listed(Lines(Entries(ms))) + [CLOSE_RECORD]
  {
    var es := Entries(ms);
    assert Lines(es) == seq(|es|, i requires 0 <= i < |es| => Quoted(es[i].key) + [COLON] + CanonicalJson(es[i].value));
  }

  /** A list, taken apart at its first part. */
  lemma JoinSplits(parts: seq<Text>, close: Unit, rest: Text)
    requires parts != []
    ensures Listed(parts) + [close] + rest
      == parts[0] + (if |parts| == 1 then [close] + rest else [COMMA] + (Listed(parts[1..]) + [close] + rest))
    ensures |parts[0]| <= |Listed(parts)|
    ensures |parts| > 1 ==> |Listed(parts[1..])| < |Listed(parts)|
  {
  }

  lemma CommaOrClose(p: nat, x: Text, q: nat, y: Text, close: Unit, restX: Text, restY: Text)
    requires p > 0 && q > 0 && close != COMMA
    requires (if p == 1 then [close] + restX else [COMMA] + x) == (if q == 1 then [close] + restY else [COMMA] + y)
    ensures p == 1 <==> q == 1
    ensures p == 1 ==> restX == restY
    ensures p > 1 ==> x == y
  {
    var l, r := if p == 1 then [close] + restX else [COMMA] + x, if q == 1 then [close] + restY else [COMMA] + y;
    assert l[0] == r[0];
    assert l[1..] == r[1..];
  }

  predicate AllWellFormed(xs: seq<Value>) { forall x :: x in xs ==> WellFormed(x) }

  ghost predicate SameItems(xs: seq<Value>, ys: seq<Value>)
    requires AllWellFormed(xs) && AllWellFormed(ys)
  {
    |xs| == |ys| && forall i :: 0 <= i < |xs| ==> MeaningOf(xs[i]) == MeaningOf(ys[i])
  }

  lemma StopsAtSeparator(n: nat, close: Unit, rest: Text, more: Text)
    requires close == CLOSE_LIST || close == CLOSE_RECORD
    ensures Stops(if n == 1 then [close] + rest else [COMMA] + more)
  {
  }

  lemma {:induction false} ItemsReadBack(xs: seq<Value>, rx: Text, ys: seq<Value>, ry: Text)
    requires AllWellFormed(xs) && AllWellFormed(ys)
    requires Listed(Texts(xs)) + [CLOSE_LIST] + rx == Listed(Texts(ys)) + [CLOSE_LIST] + ry
    ensures SameItems(xs, ys) && rx == ry
    decreases |Listed(Texts(xs))|, 3
  {
    hide CanonicalJson, MeaningOf, WellFormed, Listed;
    var l, r := Listed(Texts(xs)) + [CLOSE_LIST] + rx, Listed(Texts(ys)) + [CLOSE_LIST] + ry;
    if xs == [] || ys == [] {
      EmptyItems(xs, rx, ys, ry);
    } else {
      assert xs[0] in xs && ys[0] in ys;
      JoinSplits(Texts(xs), CLOSE_LIST, rx);
      JoinSplits(Texts(ys), CLOSE_LIST, ry);
      assert Texts(xs)[1..] == Texts(xs[1..]) && Texts(ys)[1..] == Texts(ys[1..]);
      var mx, my := Listed(Texts(xs[1..])) + [CLOSE_LIST] + rx, Listed(Texts(ys[1..])) + [CLOSE_LIST] + ry;
      StopsAtSeparator(|xs|, CLOSE_LIST, rx, mx);
      StopsAtSeparator(|ys|, CLOSE_LIST, ry, my);
      var tx := if |xs| == 1 then [CLOSE_LIST] + rx else [COMMA] + mx;
      var ty := if |ys| == 1 then [CLOSE_LIST] + ry else [COMMA] + my;
      ValueReadsBack(xs[0], tx, ys[0], ty);
      CommaOrClose(|xs|, mx, |ys|, my, CLOSE_LIST, rx, ry);
      if |xs| > 1 {
        ItemsReadBack(xs[1..], rx, ys[1..], ry);
        forall i | 0 <= i < |xs| ensures MeaningOf(xs[i]) == MeaningOf(ys[i]) {
          if i > 0 { assert xs[i] == xs[1..][i - 1] && ys[i] == ys[1..][i - 1]; }
        }
      }
    }
  }

  lemma EmptyItems(xs: seq<Value>, rx: Text, ys: seq<Value>, ry: Text)
    requires AllWellFormed(xs) && AllWellFormed(ys) && (xs == [] || ys == [])
    requires Listed(Texts(xs)) + [CLOSE_LIST] + rx == Listed(Texts(ys)) + [CLOSE_LIST] + ry
    ensures xs == ys == [] && rx == ry
  {
    hide CanonicalJson, WellFormed, Listed;
    var l, r := Listed(Texts(xs)) + [CLOSE_LIST] + rx, Listed(Texts(ys)) + [CLOSE_LIST] + ry;
    FirstOfItems(xs, rx);
    FirstOfItems(ys, ry);
    NoJoin();
    assert rx == l[1..] by { assert xs == [] ==> l == [CLOSE_LIST] + rx; }
    assert ry == r[1..] by { assert ys == [] ==> r == [CLOSE_LIST] + ry; }
  }

  lemma NoJoin()
    ensures Listed([]) == []
  {
  }

  lemma FirstOfItems(xs: seq<Value>, rest: Text)
    requires AllWellFormed(xs)
    ensures var l := Listed(Texts(xs)) + [CLOSE_LIST] + rest; l[0] == CLOSE_LIST <==> xs == []
  {
    hide CanonicalJson;
    if xs != [] {
      assert xs[0] in xs;
      JoinSplits(Texts(xs), CLOSE_LIST, rest);
      StartsWithOpener(xs[0]);
    }
  }

  lemma {:induction false} EntriesReadBack(xs: seq<Member>, rx: Text, ys: seq<Member>, ry: Text)
    requires WellFormedMembers(xs) && WellFormedMembers(ys)
    requires Listed(Lines(xs)) + [CLOSE_RECORD] + rx == Listed(Lines(ys)) + [CLOSE_RECORD] + ry
    ensures SameEntries(xs, ys) && rx == ry
    decreases |Listed(Lines(xs))|, 3
  {
    hide CanonicalJson, MeaningOf, WellFormed, Listed, Quoted;
    if xs == [] || ys == [] {
      EmptyEntries(xs, rx, ys, ry);
    } else {
      assert xs[0] in xs && ys[0] in ys;
      JoinSplits(Lines(xs), CLOSE_RECORD, rx);
      JoinSplits(Lines(ys), CLOSE_RECORD, ry);
      assert Lines(xs)[1..] == Lines(xs[1..]) && Lines(ys)[1..] == Lines(ys[1..]);
      var mx, my := Listed(Lines(xs[1..])) + [CLOSE_RECORD] + rx, Listed(Lines(ys[1..])) + [CLOSE_RECORD] + ry;
      StopsAtSeparator(|xs|, CLOSE_RECORD, rx, mx);
      StopsAtSeparator(|ys|, CLOSE_RECORD, ry, my);
      var tx := if |xs| == 1 then [CLOSE_RECORD] + rx else [COMMA] + mx;
      var ty := if |ys| == 1 then [CLOSE_RECORD] + ry else [COMMA] + my;
      LineSplits(xs[0], tx);
      LineSplits(ys[0], ty);
      QuotedReadsBack(xs[0].key, [COLON] + (CanonicalJson(xs[0].value) + tx), ys[0].key, [COLON] + (CanonicalJson(ys[0].value) + ty));
      SameLengthSplit([COLON], CanonicalJson(xs[0].value) + tx, [COLON], CanonicalJson(ys[0].value) + ty);
      ValueReadsBack(xs[0].value, tx, ys[0].value, ty);
      CommaOrClose(|xs|, mx, |ys|, my, CLOSE_RECORD, rx, ry);
      if |xs| > 1 {
        EntriesReadBack(xs[1..], rx, ys[1..], ry);
        forall i | 0 <= i < |xs| ensures xs[i].key == ys[i].key && MeaningOf(xs[i].value) == MeaningOf(ys[i].value) {
          if i > 0 { assert xs[i] == xs[1..][i - 1] && ys[i] == ys[1..][i - 1]; }
        }
      }
    }
  }

  lemma LineSplits(m: Member, rest: Text)
    ensures Line(m) + rest == Quoted(m.key) + ([COLON] + (CanonicalJson(m.value) + rest))
    ensures |CanonicalJson(m.value)| < |Line(m)|
  {
    hide CanonicalJson, Quoted;
  }

  lemma EmptyEntries(xs: seq<Member>, rx: Text, ys: seq<Member>, ry: Text)
    requires xs == [] || ys == []
    requires Listed(Lines(xs)) + [CLOSE_RECORD] + rx == Listed(Lines(ys)) + [CLOSE_RECORD] + ry
    ensures xs == ys == [] && rx == ry
  {
    hide CanonicalJson, Listed, Quoted;
    var l, r := Listed(Lines(xs)) + [CLOSE_RECORD] + rx, Listed(Lines(ys)) + [CLOSE_RECORD] + ry;
    FirstOfEntries(xs, rx);
    FirstOfEntries(ys, ry);
    NoJoin();
    assert rx == l[1..] by { assert xs == [] ==> l == [CLOSE_RECORD] + rx; }
    assert ry == r[1..] by { assert ys == [] ==> r == [CLOSE_RECORD] + ry; }
  }

  lemma FirstOfEntries(xs: seq<Member>, rest: Text)
    ensures var l := Listed(Lines(xs)) + [CLOSE_RECORD] + rest; l[0] == CLOSE_RECORD <==> xs == []
  {
    hide CanonicalJson, Escape;
    if xs != [] {
      JoinSplits(Lines(xs), CLOSE_RECORD, rest);
      assert Line(xs[0])[0] == QUOTE;
    }
  }

  /** One text, read from one place, means one thing and stops in one place. */
  lemma {:induction false} ValueReadsBack(a: Value, x: Text, b: Value, y: Text)
    requires WellFormed(a) && WellFormed(b) && Stops(x) && Stops(y)
    requires CanonicalJson(a) + x == CanonicalJson(b) + y
    ensures MeaningOf(a) == MeaningOf(b) && x == y
    decreases |CanonicalJson(a)|, 2
  {
    SameOpener(a, x, b, y);
    if a.Num? {
      NumeralReadsBack(a.numeral, x, b.numeral, y);
    } else if a.Str? {
      QuotedReadsBack(a.text, x, b.text, y);
    } else if a.Arr? {
      ArrayReadsBack(a.items, x, b.items, y);
    } else if a.Obj? {
      ObjectReadsBack(a.members, x, b.members, y);
    } else {
      SameLengthSplit(CanonicalJson(a), x, CanonicalJson(b), y);
    }
  }

  predicate SameKind(a: Value, b: Value) {
    match a
    case Bool(p) => b == Bool(p)
    case Num(_) => b.Num?
    case Str(_) => b.Str?
    case Arr(_) => b.Arr?
    case Obj(_) => b.Obj?
    case _ => b.Null? || b.Undefined? || b.NotFinite?
  }

  lemma SameOpener(a: Value, x: Text, b: Value, y: Text)
    requires WellFormed(a) && WellFormed(b) && CanonicalJson(a) + x == CanonicalJson(b) + y
    ensures SameKind(a, b)
  {
    hide CanonicalJson;
    StartsWithOpener(a);
    StartsWithOpener(b);
    assert (CanonicalJson(a) + x)[0] == (CanonicalJson(b) + y)[0];
  }

  lemma {:induction false} ArrayReadsBack(xs: seq<Value>, x: Text, ys: seq<Value>, y: Text)
    requires WellFormed(Arr(xs)) && WellFormed(Arr(ys))
    requires CanonicalJson(Arr(xs)) + x == CanonicalJson(Arr(ys)) + y
    ensures MeaningOf(Arr(xs)) == MeaningOf(Arr(ys)) && x == y
    decreases |CanonicalJson(Arr(xs))|, 1
  {
    hide CanonicalJson, Listed;
    PrintsArray(xs);
    PrintsArray(ys);
    Unwrap(OPEN_LIST, Listed(Texts(xs)), CLOSE_LIST, x, Listed(Texts(ys)), y);
    ItemsReadBack(xs, x, ys, y);
    ArraysAgree(xs, ys);
  }

  /** Arrays mean the same exactly when, position by position, their items do. */
  lemma ArraysAgree(xs: seq<Value>, ys: seq<Value>)
    requires WellFormed(Arr(xs)) && WellFormed(Arr(ys))
    ensures MeaningOf(Arr(xs)) == MeaningOf(Arr(ys)) <==> SameItems(xs, ys)
  {
    var mx, my := MeaningOf(Arr(xs)).items, MeaningOf(Arr(ys)).items;
    assert |mx| == |xs| && |my| == |ys|;
    if mx == my {
      forall i | 0 <= i < |xs| ensures MeaningOf(xs[i]) == MeaningOf(ys[i]) { assert mx[i] == my[i]; }
    }
  }

  lemma {:induction false} ObjectReadsBack(xs: seq<Member>, x: Text, ys: seq<Member>, y: Text)
    requires WellFormed(Obj(xs)) && WellFormed(Obj(ys))
    requires CanonicalJson(Obj(xs)) + x == CanonicalJson(Obj(ys)) + y
    ensures MeaningOf(Obj(xs)) == MeaningOf(Obj(ys)) && x == y
    decreases |CanonicalJson(Obj(xs))|, 1
  {
    hide CanonicalJson, Listed, MeaningOf, Lines;
    PrintsObject(xs);
    PrintsObject(ys);
    var ex, ey := Entries(xs), Entries(ys);
    Unwrap(OPEN_RECORD, Listed(Lines(ex)), CLOSE_RECORD, x, Listed(Lines(ey)), y);
    EntriesReadBack(ex, x, ey, y);
    ObjectsAgree(xs, ys);
  }

  // ---- and printing respects meaning ----

  lemma {:induction false} SameMeaningSameText(a: Value, b: Value)
    requires WellFormed(a) && WellFormed(b) && MeaningOf(a) == MeaningOf(b)
    ensures CanonicalJson(a) == CanonicalJson(b)
    decreases a
  {
    if a.Arr? {
      ArraysAgree(a.items, b.items);
      forall i | 0 <= i < |a.items| ensures CanonicalJson(a.items[i]) == CanonicalJson(b.items[i]) {
        SameMeaningSameText(a.items[i], b.items[i]);
      }
      PrintsArray(a.items);
      PrintsArray(b.items);
      assert Texts(a.items) == Texts(b.items);
    } else if a.Obj? {
      ObjectsAgree(a.members, b.members);
      var ex, ey := Entries(a.members), Entries(b.members);
      forall i | 0 <= i < |ex| ensures Line(ex[i]) == Line(ey[i]) {
        assert ex[i] in a.members && ey[i] in b.members;
        SameMeaningSameText(ex[i].value, ey[i].value);
      }
      PrintsObject(a.members);
      PrintsObject(b.members);
      assert Lines(ex) == Lines(ey);
    }
  }

  /** Canonical texts are equal exactly when the values are equal up to the order of object keys,
      members that are undefined, and the other spellings of null, at every depth. */
  lemma CanonicalJsonIsCanonical(a: Value, b: Value)
    requires WellFormed(a) && WellFormed(b)
    ensures CanonicalJson(a) == CanonicalJson(b) <==> MeaningOf(a) == MeaningOf(b)
  {
    if MeaningOf(a) == MeaningOf(b) { SameMeaningSameText(a, b); }
    if CanonicalJson(a) == CanonicalJson(b) {
      assert CanonicalJson(a) + [] == CanonicalJson(b) + [];
      ValueReadsBack(a, [], b, []);
    }
  }

  /** As an object member, undefined is absence rather than null. */
  ghost function MemberMeaning(v: Value): Option<Meaning>
    requires WellFormed(v)
  {
    if v.Undefined? then None else Some(MeaningOf(v))
  }

  /** Two submissions are fingerprinted alike exactly when they would render the same thing: the
      same script under the same options. */
  lemma FingerprintInputDecides(s1: Value, o1: Value, s2: Value, o2: Value)
    requires WellFormed(s1) && WellFormed(o1) && WellFormed(s2) && WellFormed(o2)
    ensures SubmissionFingerprintInput(s1, o1) == SubmissionFingerprintInput(s2, o2)
      <==> MemberMeaning(s1) == MemberMeaning(s2) && MemberMeaning(o1) == MemberMeaning(o2)
  {
    hide CanonicalJson, MeaningOf;
    SubmissionIsWellFormed(s1, o1);
    SubmissionIsWellFormed(s2, o2);
    CanonicalJsonIsCanonical(Submission(s1, o1), Submission(s2, o2));
    SubmissionMeans(s1, o1);
    SubmissionMeans(s2, o2);
    var m1, m2 := MeaningOf(Submission(s1, o1)).members, MeaningOf(Submission(s2, o2)).members;
    if MemberMeaning(s1) == MemberMeaning(s2) && MemberMeaning(o1) == MemberMeaning(o2) {
      assert m1 == m2;
    }
  }

  function Submission(script: Value, options: Value): Value {
    Obj([Member(SCRIPT_KEY, script), Member(OPTIONS_KEY, options)])
  }

  lemma SubmissionIsWellFormed(script: Value, options: Value)
    requires WellFormed(script) && WellFormed(options)
    ensures WellFormed(Submission(script, options))
  {
    assert SCRIPT_KEY[0] != OPTIONS_KEY[0];
  }

  lemma SubmissionMeans(script: Value, options: Value)
    requires WellFormed(script) && WellFormed(options) && WellFormed(Submission(script, options))
    ensures var r := MeaningOf(Submission(script, options));
      && r.Record?
      && (forall k :: k in r.members ==> k == SCRIPT_KEY || k == OPTIONS_KEY)
      && (if SCRIPT_KEY in r.members then Some(r.members[SCRIPT_KEY]) else None) == MemberMeaning(script)
      && (if OPTIONS_KEY in r.members then Some(r.members[OPTIONS_KEY]) else None) == MemberMeaning(options)
  {
    var ms := [Member(SCRIPT_KEY, script), Member(OPTIONS_KEY, options)];
    var r := MeaningOf(Obj(ms)).members;
    assert ms[0] in ms && ms[1] in ms && SCRIPT_KEY[0] != OPTIONS_KEY[0];
    if !script.Undefined? { MemberMeans(ms, ms[0]); }
    if !options.Undefined? { MemberMeans(ms, ms[1]); }
  }

  /** Reordering an object's keys never changes its fingerprint. */
  lemma KeyOrderIsNotContent(ms: seq<Member>, ns: seq<Member>)
    requires WellFormed(Obj(ms)) && WellFormed(Obj(ns)) && forall m :: m in ms <==> m in ns
    ensures CanonicalJson(Obj(ms)) == CanonicalJson(Obj(ns))
  {
    hide CanonicalJson;
    var a, b := MeaningOf(Obj(ms)).members, MeaningOf(Obj(ns)).members;
    assert a == b;
    CanonicalJsonIsCanonical(Obj(ms), Obj(ns));
  }
}
