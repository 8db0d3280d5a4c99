/** Which keys can be signed, told by what a path normaliser would do to them. */
module KeyFacts {
  import opened Strings
  import opened SignedPath
  import Delivery

  // ---- dot segments ----

  /** What is left of a path once its dot segments are removed, as section 5.2.4 of RFC 3986 does. */
  function Resolved(done: seq<Text>, rest: seq<Text>): seq<Text>
    decreases |rest|
  {
    if rest == [] then done
    else if rest[0] == ['.' as int] then Resolved(done, rest[1..])
    else if rest[0] == ['.' as int, '.' as int] then Resolved(if done == [] then [] else done[..|done| - 1], rest[1..])
    else Resolved(done + [rest[0]], rest[1..])
  }

  predicate Dotless(segments: seq<Text>) { DOT !in segments && DOT_DOT !in segments }

  lemma {:induction false} DotlessStays(done: seq<Text>, rest: seq<Text>)
    requires Dotless(rest)
    ensures Resolved(done, rest) == done + rest
    decreases |rest|
  {
    if rest != [] {
      assert rest[0] in rest && forall s :: s in rest[1..] ==> s in rest;
      DotlessStays(done + [rest[0]], rest[1..]);
      assert done + [rest[0]] + rest[1..] == done + rest;
    }
  }

  lemma {:induction false} DotsShorten(done: seq<Text>, rest: seq<Text>)
    ensures |Resolved(done, rest)| <= |done| + |rest|
    ensures !Dotless(rest) ==> |Resolved(done, rest)| < |done| + |rest|
    decreases |rest|
  {
    if rest != [] {
      assert forall s :: s in rest ==> s == rest[0] || s in rest[1..];
      DotsShorten(done, rest[1..]);
      DotsShorten(if done == [] then [] else done[..|done| - 1], rest[1..]);
      DotsShorten(done + [rest[0]], rest[1..]);
    }
  }

  lemma ResolvesToItselfExactlyWhen(segments: seq<Text>)
    ensures Resolved([], segments) == segments <==> Dotless(segments)
  {
    DotsShorten([], segments);
    if Dotless(segments) { DotlessStays([], segments); }
  }

  // ---- empty segments ----

  /** A text splits into no empty part exactly if it has no slash at an end and no two in a row. */
  lemma {:induction false} EmptyPartExactlyWhen(t: Text)
    ensures [] in Split(t, SLASH) <==> t == [] || t[0] == SLASH || t[|t| - 1] == SLASH || DoubleSlash(t)
    decreases |t|
  {
    hide DoubleSlash;
    var first := Before(t, SLASH);
    if first == t {
      NoSlashNoDouble(t);
      assert Split(t, SLASH) == [t];
    } else {
      var rest := t[|first| + 1..];
      assert t == first + [SLASH] + rest;
      EmptyPartExactlyWhen(rest);
      DoubleAfter(first, rest);
      assert Split(t, SLASH) == [first] + Split(rest, SLASH);
    }
  }

  lemma NoSlashNoDouble(t: Text)
    requires SLASH !in t
    ensures !DoubleSlash(t)
  {
  }

  lemma DoubleAfter(first: Text, rest: Text)
    requires SLASH !in first
    ensures DoubleSlash(first + [SLASH] + rest) <==> (rest != [] && rest[0] == SLASH) || DoubleSlash(rest)
  {
    var t, n := first + [SLASH] + rest, |first| + 1;
    assert forall i :: 0 <= i < |rest| ==> t[n + i] == rest[i];
    if i :| 0 < i < |t| && t[i - 1] == SLASH && t[i] == SLASH {
      if i > n { assert rest[i - n - 1] == SLASH && rest[i - n] == SLASH; }
    }
    if i :| 0 < i < |rest| && rest[i - 1] == SLASH && rest[i] == SLASH {
      assert t[n + i - 1] == SLASH && t[n + i] == SLASH;
    }
    if rest != [] && rest[0] == SLASH { assert t[n - 1] == SLASH && t[n] == SLASH; }
  }

  /** A key may be signed exactly if it is one to 1024 units long, holds no control character, and is a path
      that no normaliser would change: no segment of it is empty, and none is a dot segment. */
  lemma ValidKeyExactlyWhen(key: Text)
    ensures IsValidObjectKey(key) <==>
      && 1 <= |key| <= 1024
      && (forall c :: c in key ==> c > 0x1F && c != 0x7F)
      && [] !in Split(key, SLASH) && Resolved([], Split(key, SLASH)) == Split(key, SLASH)
  {
    hide Split, Resolved, DoubleSlash;
    if key != [] { EmptyPartExactlyWhen(key); }
    ResolvesToItselfExactlyWhen(Split(key, SLASH));
  }

  // ---- the signed text ----

  /** What is signed, spelled out: the name and version of the scheme, the expiry and the key, a line each. */
  lemma MessageIsThreeLines(expiry: Text, key: Text)
    ensures CanonicalMessage(expiry, key)
      == Delivery.Ascii("kaviri-dl/1") + [10] + expiry + [10] + key
  {
    assert Delivery.Ascii("kaviri-dl/1") == MESSAGE_HEAD;
  }
}
