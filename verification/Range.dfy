/** Range requests: what a Range header asks for and which bytes it gets. */
module Range {
  import opened Wrappers
  import opened Strings

  const MAX_SAFE_INTEGER := 0x1F_FFFF_FFFF_FFFF
  const COMMA: Unit := ',' as int
  const HYPHEN: Unit := '-' as int
  const BYTES: Text := ['b' as int, 'y' as int, 't' as int, 'e' as int, 's' as int, '=' as int]

  datatype RangeRequest = Full | Partial(start: nat, end: nat) | Unsatisfiable

  // ---- the header ----

  predicate IsSpace(c: Unit) {
    || 9 <= c <= 13 || c == 32 || c == 0xA0 || c == 0x1680 || 0x2000 <= c <= 0x200A
    || c == 0x2028 || c == 0x2029 || c == 0x202F || c == 0x205F || c == 0x3000 || c == 0xFEFF
  }

  predicate IsLineEnd(c: Unit) { c == 10 || c == 13 || c == 0x2028 || c == 0x2029 }

  function TrimStart(t: Text): Text { if t != [] && IsSpace(t[0]) then TrimStart(t[1..]) else t }

  function TrimEnd(t: Text): Text { if t != [] && IsSpace(t[|t| - 1]) then TrimEnd(t[..|t| - 1]) else t }

  function Trim(t: Text): Text { TrimEnd(TrimStart(t)) }

  function ToLower(c: Unit): Unit { if IsUpper(c) then c - 'A' as int + 'a' as int else c }

  /** What follows `bytes=`, in any case, on one line. */
  function AfterUnit(t: Text): Option<Text> {
    if |t| > 6 && (forall i :: 0 <= i < 6 ==> ToLower(t[i]) == BYTES[i]) && (forall c :: c in t[6..] ==> !IsLineEnd(c))
    then Some(t[6..]) else None
  }

  predicate AllDigits(t: Text) { forall c :: c in t ==> IsDigit(c) }

  function Number(t: Text): nat
    requires AllDigits(t)
  {
    if t == [] then 0 else
      assert t[|t| - 1] in t;
      Number(t[..|t| - 1]) * 10 + (t[|t| - 1] - '0' as int)
  }

  /** The two sides of `digits-digits`. */
  datatype Sides = Sides(first: Text, last: Text)

  function SidesOf(spec: Text): (r: Option<Sides>)
    ensures r.Some? ==> AllDigits(r.value.first) && AllDigits(r.value.last)
  {
    var first := Before(spec, HYPHEN);
    if first == spec then None
    else
      var last := spec[|first| + 1..];
      if AllDigits(first) && AllDigits(last) then Some(Sides(first, last)) else None
  }

  /** The one range a header asks for; none if it is absent, malformed, in another unit or several. */
  function Asked(header: Option<Text>): (r: Option<Sides>)
    ensures r.Some? ==> AllDigits(r.value.first) && AllDigits(r.value.last) && (r.value.first != [] || r.value.last != [])
  {
    if header.None? || header.value == [] then None
    else
      var captured := AfterUnit(Trim(header.value));
      if captured.None? || |Split(captured.value, COMMA)| != 1 then None
      else
        var sides := SidesOf(Trim(Split(captured.value, COMMA)[0]));
        if sides.None? || (sides.value.first == [] && sides.value.last == []) then None else sides
  }

  function ParseRange(header: Option<Text>, size: nat): RangeRequest {
    var asked := Asked(header);
    if asked.None? then Full
    else if size == 0 then Unsatisfiable
    else if asked.value.first == [] then
      var suffix := Number(asked.value.last);
      if suffix > MAX_SAFE_INTEGER || suffix <= 0 then Unsatisfiable
      else Partial(if size > suffix then size - suffix else 0, size - 1)
    else
      var start := Number(asked.value.first);
      if start > MAX_SAFE_INTEGER then Full
      else if start >= size then Unsatisfiable
      else if asked.value.last == [] then Partial(start, size - 1)
      else
        var end := Number(asked.value.last);
        if end > MAX_SAFE_INTEGER || end < start then Unsatisfiable
        else Partial(start, if end < size - 1 then end else size - 1)
  }

  // ---- what the standard says is asked ----

  /** Section 14.1.2 of RFC 9110: whether byte i of an object of this size is one the range names. */
  predicate Names(asked: Sides, size: nat, i: nat)
    requires AllDigits(asked.first) && AllDigits(asked.last)
  {
    if asked.first == [] then i < size && i + Number(asked.last) >= size
    else Number(asked.first) <= i < size && (asked.last == [] || i <= Number(asked.last))
  }

  /** Every number in it is one a JavaScript number holds exactly. */
  predicate Safe(asked: Sides)
    requires AllDigits(asked.first) && AllDigits(asked.last)
  {
    Number(asked.first) <= MAX_SAFE_INTEGER && Number(asked.last) <= MAX_SAFE_INTEGER
  }

  /** A satisfied range is inside the object and is exactly the bytes named, and a range is satisfied
      exactly when it names a byte: for every header whose numbers are safe integers. */
  lemma ParsesWhatIsNamed(header: Option<Text>, size: nat)
    requires Asked(header).Some? && Safe(Asked(header).value)
    ensures var asked, r := Asked(header).value, ParseRange(header, size);
      && (r.Partial? ==> 0 <= r.start <= r.end < size && forall i: nat :: (r.start <= i <= r.end <==> Names(asked, size, i)))
      && (r.Partial? <==> exists i: nat :: Names(asked, size, i))
      && (r.Unsatisfiable? <==> !exists i: nat :: Names(asked, size, i))
  {
    var asked, r := Asked(header).value, ParseRange(header, size);
    if r.Partial? { assert Names(asked, size, r.start); }
    hide Asked, Number;
  }

  /** Whatever the numbers, what is served as a range is inside the object. */
  lemma PartialIsInside(header: Option<Text>, size: nat)
    requires ParseRange(header, size).Partial?
    ensures var r := ParseRange(header, size); r.start <= r.end < size
  {
    hide Asked, Number;
  }

  /** Beyond the safe integers the answer differs from the standard's exactly when the range does name
      bytes and the unsafe number is its end or its suffix length: such a range is refused rather than
      clamped. (An unsafe start names nothing in any object this service holds, and gets it all.) */
  lemma UnsafeNumbersAreRefused(header: Option<Text>, size: nat)
    requires Asked(header).Some? && !Safe(Asked(header).value) && size <= MAX_SAFE_INTEGER
    ensures var asked, r := Asked(header).value, ParseRange(header, size);
      && !r.Partial?
      && ((exists i: nat :: Names(asked, size, i))
          <==> (r.Unsatisfiable? && size > 0 && (asked.first == [] || Number(asked.first) < size)))
  {
    var asked := Asked(header).value;
    if size > 0 {
      if asked.first == [] { assert Number(asked.first) == 0 && Names(asked, size, 0); }
      else if Number(asked.first) < size { assert Names(asked, size, Number(asked.first)); }
    }
    hide Asked, Number;
  }

  // ---- writing one ----

  function Decimal(n: nat): (t: Text)
    ensures t != [] && AllDigits(t)
  {
    if n < 10 then ['0' as int + n] else Decimal(n / 10) + ['0' as int + n % 10]
  }

  lemma {:induction false} DecimalRoundTrip(n: nat)
    ensures Number(Decimal(n)) == n
  {
    var t := Decimal(n);
    if n < 10 {
      assert t[..0] == [] && Number([]) == 0;
    } else {
      DecimalRoundTrip(n / 10);
      assert t[..|t| - 1] == Decimal(n / 10);
    }
  }

  function RangeHeader(start: nat, end: nat): Text { BYTES + Decimal(start) + [HYPHEN] + Decimal(end) }

  lemma DigitsAreNotSpace(t: Text)
    requires t != [] && !IsSpace(t[0]) && !IsSpace(t[|t| - 1])
    ensures Trim(t) == t
  {
  }

  /** A client that asks for bytes start to end of an object gets just those. */
  lemma RangeRoundTrip(start: nat, end: nat, size: nat)
    requires start <= end < size && end <= MAX_SAFE_INTEGER
    ensures ParseRange(Some(RangeHeader(start, end)), size) == Partial(start, end)
  {
    hide Number, Decimal, Trim, Split, AfterUnit, SidesOf;
    DecimalRoundTrip(start);
    DecimalRoundTrip(end);
    WrittenIsAsked(start, end);
  }

  lemma WrittenIsAsked(start: nat, end: nat)
    ensures Asked(Some(RangeHeader(start, end))) == Some(Sides(Decimal(start), Decimal(end)))
  {
    hide Number, Decimal, Trim, AfterUnit, SidesOf, Split;
    var spec := Decimal(start) + [HYPHEN] + Decimal(end);
    var header := RangeHeader(start, end);
    assert header == BYTES + spec;
    SpecIsPlain(Decimal(start), Decimal(end));
    HeaderIsPlain(spec);
    SplitWhole(spec);
    SidesOfWritten(Decimal(start), Decimal(end));
  }

  lemma SplitWhole(t: Text)
    requires COMMA !in t
    ensures Split(t, COMMA) == [t]
  {
    BeforeNothing(t, COMMA);
  }

  lemma SpecIsPlain(first: Text, last: Text)
    requires first != [] && last != [] && AllDigits(first) && AllDigits(last)
    ensures var spec := first + [HYPHEN] + last;
      Trim(spec) == spec && COMMA !in spec && !IsSpace(spec[|spec| - 1]) && forall c :: c in spec ==> !IsLineEnd(c)
  {
    hide Trim;
    var spec := first + [HYPHEN] + last;
    assert first[0] in first && last[|last| - 1] in last;
    assert spec[0] == first[0] && spec[|spec| - 1] == last[|last| - 1];
    DigitsAreNotSpace(spec);
    forall c | c in spec ensures !IsLineEnd(c) && c != COMMA { assert c in first || c == HYPHEN || c in last; }
  }

  lemma HeaderIsPlain(spec: Text)
    requires spec != [] && !IsSpace(spec[|spec| - 1]) && forall c :: c in spec ==> !IsLineEnd(c)
    ensures Trim(BYTES + spec) == BYTES + spec && AfterUnit(BYTES + spec) == Some(spec)
  {
    hide Trim, IsLineEnd;
    var header := BYTES + spec;
    DigitsAreNotSpace(header);
    assert header[6..] == spec;
    assert forall i :: 0 <= i < 6 ==> header[i] == BYTES[i] && ToLower(header[i]) == BYTES[i];
  }

  lemma SidesOfWritten(first: Text, last: Text)
    requires AllDigits(first) && AllDigits(last)
    ensures SidesOf(first + [HYPHEN] + last) == Some(Sides(first, last))
  {
    var spec := first + [HYPHEN] + last;
    BeforeSeparator(first, HYPHEN, last);
    assert spec[|first| + 1..] == last;
    assert spec != first;
  }

  // ---- the bucket's own terms ----

  datatype R2Range = R2Range(offset: nat, length: nat)

  function ToR2Range(start: nat, end: nat): R2Range
    requires start <= end
  {
    R2Range(start, end - start + 1)
  }

  /** What the bucket returns for an offset and a length. */
  function ReadRange(bytes: seq<Byte>, r: R2Range): seq<Byte>
    requires r.offset + r.length <= |bytes|
  {
    bytes[r.offset..r.offset + r.length]
  }

  /** Consecutive ranges read back to back are the object: nothing is lost or repeated at the seams. */
  lemma RangesReassemble(bytes: seq<Byte>, start: nat, mid: nat, end: nat)
    requires start <= mid < end < |bytes|
    ensures ReadRange(bytes, ToR2Range(start, mid)) + ReadRange(bytes, ToR2Range(mid + 1, end)) == ReadRange(bytes, ToR2Range(start, end))
    ensures ReadRange(bytes, ToR2Range(0, |bytes| - 1)) == bytes
  {
  }
}
