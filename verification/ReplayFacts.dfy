/** When a moment of the replay shows what the script had on the page at that moment. */
module ReplayFacts {
  import opened Wrappers
  import opened Reals
  import opened Simulation
  import opened SimulationFacts
  import opened BeatFacts

  /** Two pages that look alike: a field never typed into and an empty one do. */
  ghost predicate SamePage(a: Page, b: Page) {
    && a.scrollY == b.scrollY && a.focus == b.focus && a.pointer == b.pointer
    && forall f :: TextOf(a.typed, f) == TextOf(b.typed, f)
  }

  lemma SamePageUnlessText(now: Page, text: map<string, string>)
    ensures SamePage(now.(typed := now.typed + text), now) <==> forall f :: f in text ==> text[f] == TextOf(now.typed, f)
  {
    var page := now.(typed := now.typed + text);
    forall f ensures TextOf(page.typed, f) == if f in text then text[f] else TextOf(now.typed, f) {}
    if SamePage(page, now) {
      forall f | f in text ensures text[f] == TextOf(now.typed, f) { assert TextOf(page.typed, f) == TextOf(now.typed, f); }
    }
  }

  // ---- a moment of the replay ----

  /** How many of these beats have begun. */
  function Begun(beats: seq<Beat>, t: real): (n: nat)
    ensures n <= |beats|
  {
    if beats != [] && NotYet(beats[|beats| - 1], t) then Begun(beats[..|beats| - 1], t) else |beats|
  }

  lemma {:induction false} BegunSplits(beats: seq<Beat>, now: real, t: real)
    requires InOrder(beats, now)
    ensures forall i :: 0 <= i < |beats| ==> (NotYet(beats[i], t) <==> i >= Begun(beats, t))
  {
    if beats != [] && NotYet(beats[|beats| - 1], t) { BegunSplits(beats[..|beats| - 1], now, t); }
  }

  /** The page that the beats begun by then have made. */
  function SoFar(scene: Scene, beats: seq<Beat>, t: real, ease: real -> real): Page {
    Replay(scene, beats[..Begun(beats, t)], t, ease)
  }

  /** Of all ops, op j is the last whose text lands in f, and at t it has yet to begin to appear. */
  predicate YetToWrite(scene: Scene, measure: string -> real, ops: seq<Op>, t: real, j: nat, f: string)
    requires j < |ops|
  {
    && LastTypesAt(scene, measure, ops, 0, |ops|, j, f)
    && var r := Run(scene, measure, ops, j + 1); r.beats != [] && NotYet(r.beats[|r.beats| - 1], t)
  }

  /** Beat n, if there is one, is one of op k's. */
  predicate BeatOf(scene: Scene, measure: string -> real, ops: seq<Op>, n: nat, k: nat) {
    && k <= |ops|
    && |Run(scene, measure, ops, k).beats| <= n <= |Run(scene, measure, ops, |ops|).beats|
    && (k == |ops| ==> n == |Run(scene, measure, ops, |ops|).beats|)
    && (k < |ops| ==> n < |Run(scene, measure, ops, k + 1).beats|)
  }

  lemma {:induction false} OpOfBeat(scene: Scene, measure: string -> real, ops: seq<Op>, n: nat, m: nat) returns (k: nat)
    requires m <= |ops| && n < |Run(scene, measure, ops, m).beats|
    ensures k < m && |Run(scene, measure, ops, k).beats| <= n < |Run(scene, measure, ops, k + 1).beats|
    decreases m
  {
    hide Step;
    if |Run(scene, measure, ops, m - 1).beats| <= n { k := m - 1; } else { k := OpOfBeat(scene, measure, ops, n, m - 1); }
  }

  lemma BeatHasOp(scene: Scene, measure: string -> real, ops: seq<Op>, n: nat) returns (k: nat)
    requires n <= |Run(scene, measure, ops, |ops|).beats|
    ensures k <= |ops| && BeatOf(scene, measure, ops, n, k)
  {
    hide Run;
    if n == |Run(scene, measure, ops, |ops|).beats| { k := |ops|; } else {
      k := OpOfBeat(scene, measure, ops, n, |ops|);
    }
  }

  lemma OpShape(scene: Scene, measure: string -> real, ops: seq<Op>, k: nat)
    requires k < |ops|
    ensures var s, r := Run(scene, measure, ops, k), Run(scene, measure, ops, k + 1);
      if s.fatal then r == s else r == Step(scene, measure, s, ops[k]) && Shape(s, r, LandsIn(scene, s, ops[k]))
  {
    hide Step, Shape, LandsIn;
    var s := Run(scene, measure, ops, k);
    if !s.fatal { StepShape(scene, measure, s, ops[k]); }
  }

  /** What the beats from beat n on remember is what op k and the ops after it found. */
  lemma FutureSays(scene: Scene, measure: string -> real, ops: seq<Op>, n: nat, k: nat)
    requires BeatOf(scene, measure, ops, n, k)
    ensures TextBefore(Run(scene, measure, ops, |ops|).beats[n..]) == LastBefore(scene, measure, ops, k, |ops|)
  {
    hide Run, LastBefore, TextBefore, Step, LandsIn;
    var s, end := Run(scene, measure, ops, k), Run(scene, measure, ops, |ops|);
    LaterBeatsSay(scene, measure, ops, k, |ops|);
    var skipped := end.beats[|s.beats|..n];
    if k < |ops| {
      OpShape(scene, measure, ops, k);
      BeatsInOrder(scene, measure, ops, k + 1, |ops|);
      var r := Run(scene, measure, ops, k + 1);
      forall i | 0 <= i < |skipped| ensures !Writes(skipped[i]) { assert skipped[i] == r.beats[|s.beats| + i]; }
    }
    NoTextBefore(skipped);
    TextBeforeTwo(skipped, end.beats[n..]);
    assert Added(s, end) == skipped + end.beats[n..];
    assert map[] + TextBefore(end.beats[n..]) == TextBefore(end.beats[n..]);
  }

  lemma YetToWriteIs(scene: Scene, measure: string -> real, ops: seq<Op>, t: real, k: nat, j: nat, f: string)
    requires BeatOf(scene, measure, ops, Begun(Run(scene, measure, ops, |ops|).beats, t), k) && j < |ops|
    ensures YetToWrite(scene, measure, ops, t, j, f) <==> LastTypesAt(scene, measure, ops, k, |ops|, j, f)
  {
    hide Run, Begun, LandsIn, Step, NotYet, InOrder;
    var end, r := Run(scene, measure, ops, |ops|), Run(scene, measure, ops, j + 1);
    BeatsInOrder(scene, measure, ops, j + 1, |ops|);
    AllInOrder(scene, measure, ops);
    BegunSplits(end.beats, end.t, t);
    OpShape(scene, measure, ops, j);
    if j >= k {
      BeatsInOrder(scene, measure, ops, k + 1, j + 1);
    } else {
      BeatsInOrder(scene, measure, ops, j + 1, k);
    }
    assert r.beats != [] ==> r.beats[|r.beats| - 1] == end.beats[|r.beats| - 1];
  }

  lemma AllInOrder(scene: Scene, measure: string -> real, ops: seq<Op>)
    ensures InOrder(Run(scene, measure, ops, |ops|).beats, Run(scene, measure, ops, |ops|).t)
  {
    hide Run, InOrder;
    BeatsInOrder(scene, measure, ops, |ops|, |ops|);
  }

  /** At any moment of any script, the replay shows the page that the beats begun by then have made exactly
      when every field that is yet to be typed into for the last time already holds the text it will then
      hold. */
  lemma ReplayAgreesExactlyWhen(scene: Scene, measure: string -> real, ops: seq<Op>, t: real, ease: real -> real)
    ensures var beats := Run(scene, measure, ops, |ops|).beats;
      SamePage(Replay(scene, beats, t, ease), SoFar(scene, beats, t, ease))
      <==> forall f, j: nat :: j < |ops| && YetToWrite(scene, measure, ops, t, j, f) ==>
             TextOf(Run(scene, measure, ops, j).typed, f) == TextOf(SoFar(scene, beats, t, ease).typed, f)
  {
    hide Run, Replay, LastBefore, LastTypesAt, YetToWrite, BeatOf, SamePage, TextOf, TextBefore, NotYet, Begun, InOrder;
    var end := Run(scene, measure, ops, |ops|);
    var n := Begun(end.beats, t);
    var k := BeatHasOp(scene, measure, ops, n);
    AllInOrder(scene, measure, ops);
    BegunSplits(end.beats, end.t, t);
    FutureSays(scene, measure, ops, n, k);
    assert end.beats == end.beats[..n] + end.beats[n..];
    ReplayLooksAhead(scene, end.beats[..n], end.beats[n..], t, ease);
    SamePageUnlessText(SoFar(scene, end.beats, t, ease), LastBefore(scene, measure, ops, k, |ops|));
    LastBeforeAgrees(scene, measure, ops, k, SoFar(scene, end.beats, t, ease).typed);
    forall f, j: nat | j < |ops|
      ensures YetToWrite(scene, measure, ops, t, j, f) <==> LastTypesAt(scene, measure, ops, k, |ops|, j, f)
    {
      YetToWriteIs(scene, measure, ops, t, k, j, f);
    }
  }

  // ---- at rest between ops ----

  /** The page the script has after its first k ops. */
  ghost function PageAfter(scene: Scene, measure: string -> real, ops: seq<Op>, k: nat): Page
    requires k <= |ops|
  {
    PageOf(scene, Run(scene, measure, ops, k), HasPointer(Run(scene, measure, ops, k).beats))
  }

  /** A moment after op k, before any later beat has begun. */
  ghost predicate Between(scene: Scene, measure: string -> real, ops: seq<Op>, k: nat, t: real)
    requires k <= |ops|
  {
    var s, end := Run(scene, measure, ops, k), Run(scene, measure, ops, |ops|);
    s.t <= t && s.beats <= end.beats && forall b :: b in Added(s, end) ==> NotYet(b, t)
  }

  /** Then what the beats begun by then have made is the page the script had after op k. */
  lemma SoFarBetweenOps(scene: Scene, measure: string -> real, ops: seq<Op>, k: nat, t: real, ease: real -> real)
    requires k <= |ops| && Between(scene, measure, ops, k, t)
    ensures SoFar(scene, Run(scene, measure, ops, |ops|).beats, t, ease) == PageAfter(scene, measure, ops, k)
  {
    hide Run, Replay, HasPointer, Begun, InOrder, NotYet;
    var s, end := Run(scene, measure, ops, k), Run(scene, measure, ops, |ops|);
    var n := Begun(end.beats, t);
    LastOfFinished(scene, measure, ops, k, t);
    AllInOrder(scene, measure, ops);
    BegunSplits(end.beats, end.t, t);
    forall i | |s.beats| <= i < |end.beats| ensures NotYet(end.beats[i], t) {
      assert end.beats[i] == Added(s, end)[i - |s.beats|];
    }
    assert |s.beats| < |end.beats| ==> NotYet(end.beats[|s.beats|], t);
    assert end.beats[..|s.beats|] == s.beats;
    RunReplays(scene, measure, ops, k, ease);
  }

  /** And the replay shows that page exactly when every field typed into later holds, at the last op that
      types into it, the text it held after op k. */
  lemma ReplayBetweenOpsAgreesExactlyWhen(scene: Scene, measure: string -> real, ops: seq<Op>, k: nat, t: real, ease: real -> real)
    requires k <= |ops| && Between(scene, measure, ops, k, t)
    ensures SamePage(Replay(scene, Run(scene, measure, ops, |ops|).beats, t, ease), PageAfter(scene, measure, ops, k))
      <==> forall f, j: nat :: j < |ops| && LastTypesAt(scene, measure, ops, k, |ops|, j, f) ==>
             TextOf(Run(scene, measure, ops, j).typed, f) == TextOf(Run(scene, measure, ops, k).typed, f)
  {
    hide Run, Replay, LastBefore, LastTypesAt, SamePage, TextOf, TextBefore, HasPointer, NotYet;
    var s, end := Run(scene, measure, ops, k), Run(scene, measure, ops, |ops|);
    var text := LastBefore(scene, measure, ops, k, |ops|);
    RunReplays(scene, measure, ops, k, ease);
    LaterBeatsSay(scene, measure, ops, k, |ops|);
    assert end.beats == s.beats + Added(s, end);
    ReplayLooksAhead(scene, s.beats, Added(s, end), t, ease);
    SamePageUnlessText(PageAfter(scene, measure, ops, k), text);
    LastBeforeAgrees(scene, measure, ops, k, s.typed);
  }

  // ---- what makes a field hold more ----

  /** The text an op adds to a field. */
  function Gain(scene: Scene, s: Sim, op: Op, f: string): string {
    if !s.fatal && LandsIn(scene, s, op) == Some(f) && f in scene.nodes && scene.nodes[f].editable then op.text.value else ""
  }

  lemma TypeGains(scene: Scene, measure: string -> real, s: Sim, op: Op, f: string)
    requires op.TypeInto? && op.text.Some? && Duration(op.perChar, TYPEWRITER_MS).Some? && !s.fatal
    ensures TextOf(Step(scene, measure, s, op).typed, f) == TextOf(s.typed, f) + Gain(scene, s, op, f)
  {
    hide CaretMarks, CaretCount, OnScreen, Centred, MiddleOf, Duration;
    assert TextOf(s.typed, f) + "" == TextOf(s.typed, f);
  }

  lemma StepGains(scene: Scene, measure: string -> real, s: Sim, op: Op, f: string)
    requires !op.GoTo? && !s.fatal
    ensures TextOf(Step(scene, measure, s, op).typed, f) == TextOf(s.typed, f) + Gain(scene, s, op, f)
  {
    hide Duration, DoType, Centred, OnScreen, MaxScroll;
    if op.TypeInto? && op.text.Some? && Duration(op.perChar, TYPEWRITER_MS).Some? {
      TypeGains(scene, measure, s, op, f);
    }
  }

  /** Between two navigations a field holds the text it held and, after it, exactly what was typed into it. */
  lemma {:induction false} TextGrows(scene: Scene, measure: string -> real, ops: seq<Op>, k: nat, n: nat, f: string)
    requires k <= n <= |ops| && forall l :: k <= l < n ==> !ops[l].GoTo?
    ensures TextOf(Run(scene, measure, ops, k).typed, f) <= TextOf(Run(scene, measure, ops, n).typed, f)
    ensures TextOf(Run(scene, measure, ops, n).typed, f) == TextOf(Run(scene, measure, ops, k).typed, f)
      <==> forall l: nat :: k <= l < n ==> Gain(scene, Run(scene, measure, ops, l), ops[l], f) == ""
  {
    hide Step, Gain, TextOf;
    if k < n {
      TextGrows(scene, measure, ops, k, n - 1, f);
      var s := Run(scene, measure, ops, n - 1);
      if s.fatal { NoGain(scene, s, ops[n - 1], f); } else { StepGains(scene, measure, s, ops[n - 1], f); }
    }
  }

  lemma NoGain(scene: Scene, s: Sim, op: Op, f: string)
    requires s.fatal
    ensures Gain(scene, s, op, f) == ""
  {
  }

  // ---- in the midst of an op ----

  /** At t the script has finished its first k ops and no more. */
  predicate Current(scene: Scene, measure: string -> real, ops: seq<Op>, k: nat, t: real)
    requires k <= |ops|
  {
    && (k == 0 || Run(scene, measure, ops, k).t <= t)
    && (k < |ops| ==> t < Run(scene, measure, ops, k + 1).t)
  }

  lemma {:induction false} MomentHasOp(scene: Scene, measure: string -> real, ops: seq<Op>, t: real, m: nat) returns (k: nat)
    requires m <= |ops| && (m < |ops| ==> t < Run(scene, measure, ops, m + 1).t)
    ensures k <= m && Current(scene, measure, ops, k, t)
    decreases m
  {
    hide Run;
    if m == 0 || Run(scene, measure, ops, m).t <= t { k := m; } else { k := MomentHasOp(scene, measure, ops, t, m - 1); }
  }

  /** Every moment has its op. */
  lemma SomeOpIsCurrent(scene: Scene, measure: string -> real, ops: seq<Op>, t: real) returns (k: nat)
    ensures k <= |ops| && Current(scene, measure, ops, k, t)
  {
    hide Run;
    k := MomentHasOp(scene, measure, ops, t, |ops|);
  }

  /** The beats begun by then are those of the finished ops and some of op k's own. */
  lemma BegunAt(scene: Scene, measure: string -> real, ops: seq<Op>, k: nat, t: real)
    requires k <= |ops| && Current(scene, measure, ops, k, t)
    ensures var n := Begun(Run(scene, measure, ops, |ops|).beats, t);
      && |Run(scene, measure, ops, k).beats| <= n <= |Run(scene, measure, ops, |ops|).beats|
      && (k < |ops| ==> n <= |Run(scene, measure, ops, k + 1).beats|)
  {
    hide Run, Begun, InOrder;
    var s, end := Run(scene, measure, ops, k), Run(scene, measure, ops, |ops|);
    var n := Begun(end.beats, t);
    AllInOrder(scene, measure, ops);
    BegunSplits(end.beats, end.t, t);
    BeatsInOrder(scene, measure, ops, k, |ops|);
    if k == 0 { NoBeatsYet(scene, measure, ops); } else { LastOfFinished(scene, measure, ops, k, t); }
    if k < |ops| {
      BeatsInOrder(scene, measure, ops, k + 1, |ops|);
      var r := Run(scene, measure, ops, k + 1);
      if n > |r.beats| { assert !NotYet(end.beats[|r.beats|], t) && r.t <= BeginsAt(end.beats[|r.beats|]); InOrderAt(end.beats, end.t, |r.beats|); }
    }
  }

  lemma InOrderAt(beats: seq<Beat>, now: real, i: nat)
    requires InOrder(beats, now) && i < |beats|
    ensures BeginsAt(beats[i]) <= EndsAt(beats[i]) <= now
  {
  }

  lemma NoBeatsYet(scene: Scene, measure: string -> real, ops: seq<Op>)
    ensures Run(scene, measure, ops, 0).beats == [] && Run(scene, measure, ops, 0).typed == map[]
  {
  }

  lemma LastOfFinished(scene: Scene, measure: string -> real, ops: seq<Op>, k: nat, t: real)
    requires k <= |ops| && Run(scene, measure, ops, k).t <= t
    ensures |Run(scene, measure, ops, k).beats| <= Begun(Run(scene, measure, ops, |ops|).beats, t)
  {
    hide Run, Begun, InOrder;
    var s, end := Run(scene, measure, ops, k), Run(scene, measure, ops, |ops|);
    AllInOrder(scene, measure, ops);
    BegunSplits(end.beats, end.t, t);
    BeatsInOrder(scene, measure, ops, k, |ops|);
    BeatsInOrder(scene, measure, ops, k, k);
    if s.beats != [] {
      var last := |s.beats| - 1;
      assert InOrder(s.beats, s.t) by { StillInOrder(s, s); }
      InOrderAt(s.beats, s.t, last);
      assert end.beats[last] == s.beats[last] && !NotYet(end.beats[last], t);
    }
  }

  predicate Quiet(b: Beat) { !Writes(b) && !b.ResetPage? }

  lemma {:induction false} QuietKeepsText(scene: Scene, done: seq<Beat>, own: seq<Beat>, t: real, ease: real -> real)
    requires forall i :: 0 <= i < |own| ==> Quiet(own[i])
    ensures Replay(scene, done + own, t, ease).typed == Replay(scene, done, t, ease).typed
  {
    hide HasPointer;
    if own == [] {
      assert done + own == done;
    } else {
      var head, b := own[..|own| - 1], own[|own| - 1];
      QuietKeepsText(scene, done, head, t, ease);
      assert done + own == done + head + [b];
      AddBeat(scene, done + head, b, t, ease);
    }
  }

  /** No beat added is a reset. */
  predicate NoReset(s: Sim, r: Sim) {
    |s.beats| <= |r.beats| && forall i :: |s.beats| <= i < |r.beats| ==> !r.beats[i].ResetPage?
  }

  lemma TypeNeverResets(scene: Scene, measure: string -> real, s: Sim, text: string, sel: Option<string>, per: real)
    ensures NoReset(s, DoType(scene, measure, s, text, sel, per))
  {
    hide OnScreen, Centred, MiddleOf, CaretMarks, CaretCount;
  }

  lemma ClickNeverResets(scene: Scene, s: Sim, spot: Spot)
    ensures NoReset(s, DoClick(scene, s, spot))
  {
    hide OnScreen, Centred, MiddleOf;
  }

  lemma OnlyNavigationResets(scene: Scene, measure: string -> real, s: Sim, op: Op)
    requires !op.GoTo?
    ensures NoReset(s, Step(scene, measure, s, op))
  {
    hide Duration, DoType, DoClick, MaxScroll;
    match op {
      case ClickOn(spot) => ClickNeverResets(scene, s, spot);
      case TypeInto(text, sel, per) =>
        if text.Some? && Duration(per, TYPEWRITER_MS).Some? {
          TypeNeverResets(scene, measure, s, text.value, sel, Duration(per, TYPEWRITER_MS).value);
        }
      case _ =>
    }
  }

  /** Op k's own beats, but for the one that types. */
  lemma OwnBeatsAreQuiet(scene: Scene, measure: string -> real, ops: seq<Op>, k: nat)
    requires k < |ops| && !ops[k].GoTo?
    ensures var s, r := Run(scene, measure, ops, k), Run(scene, measure, ops, k + 1);
      && s.beats <= r.beats
      && forall i :: |s.beats| <= i < |r.beats| && (i < |r.beats| - 1 || !TypesSomewhere(scene, measure, ops, k)) ==> Quiet(r.beats[i])
  {
    hide Step, LandsIn, Run;
    OpShape(scene, measure, ops, k);
    OnlyNavigationResets(scene, measure, Run(scene, measure, ops, k), ops[k]);
  }

  predicate TypesSomewhere(scene: Scene, measure: string -> real, ops: seq<Op>, k: nat)
    requires k < |ops|
  {
    var s := Run(scene, measure, ops, k); !s.fatal && LandsIn(scene, s, ops[k]).Some?
  }

  /** Op k is in the midst of typing: its last beat has begun. */
  predicate Typing(scene: Scene, measure: string -> real, ops: seq<Op>, k: nat, t: real)
    requires k < |ops|
  {
    && TypesSomewhere(scene, measure, ops, k)
    && var r := Run(scene, measure, ops, k + 1); r.beats != [] && !NotYet(r.beats[|r.beats| - 1], t)
  }

  /** Until op k types, every field holds what it held when op k began. */
  lemma TextBeforeTyping(scene: Scene, measure: string -> real, ops: seq<Op>, k: nat, t: real, ease: real -> real)
    requires k <= |ops| && Current(scene, measure, ops, k, t)
    requires k < |ops| ==> !ops[k].GoTo? && !Typing(scene, measure, ops, k, t)
    ensures SoFar(scene, Run(scene, measure, ops, |ops|).beats, t, ease).typed == Run(scene, measure, ops, k).typed
  {
    hide Run, Begun, InOrder, Replay, LandsIn, Quiet, TypesSomewhere;
    var s, end := Run(scene, measure, ops, k), Run(scene, measure, ops, |ops|);
    var n := Begun(end.beats, t);
    BegunAt(scene, measure, ops, k, t);
    BeatsInOrder(scene, measure, ops, k, |ops|);
    var own := end.beats[|s.beats|..n];
    if k < |ops| {
      OwnBeatsAreQuiet(scene, measure, ops, k);
      BeatsInOrder(scene, measure, ops, k + 1, |ops|);
      AllInOrder(scene, measure, ops);
      BegunSplits(end.beats, end.t, t);
      var r := Run(scene, measure, ops, k + 1);
      forall i | 0 <= i < |own| ensures Quiet(own[i]) { assert own[i] == r.beats[|s.beats| + i] == end.beats[|s.beats| + i]; }
    }
    QuietKeepsText(scene, s.beats, own, t, ease);
    assert end.beats[..n] == s.beats + own;
    TextAtStart(scene, measure, ops, k, t, ease);
  }

  lemma TextAtStart(scene: Scene, measure: string -> real, ops: seq<Op>, k: nat, t: real, ease: real -> real)
    requires k <= |ops| && (k == 0 || Run(scene, measure, ops, k).t <= t)
    ensures Replay(scene, Run(scene, measure, ops, k).beats, t, ease).typed == Run(scene, measure, ops, k).typed
  {
    hide Run, HasPointer;
    if k == 0 { NoBeatsYet(scene, measure, ops); } else { RunReplays(scene, measure, ops, k, ease); }
  }

  lemma TypesItsText(scene: Scene, measure: string -> real, s: Sim, op: Op)
    requires LandsIn(scene, s, op).Some?
    ensures var r := Step(scene, measure, s, op);
      r.beats != [] && r.beats[|r.beats| - 1].TypeText? && r.beats[|r.beats| - 1].text == op.text.value
  {
    hide CaretMarks, CaretCount, OnScreen, Centred, MiddleOf, Duration;
  }

  lemma SomeButNotAll(b: Beat, t: real)
    requires b.TypeText? && b.t0 < t < b.t1
    ensures var c := Shown(b.text, (t - b.t0) / (b.t1 - b.t0));
      TextAt(b, t) == b.before + b.text[..c] && (c < |b.text| || c == 0 == |b.text|)
  {
    var span, p := b.t1 - b.t0, (t - b.t0) / (b.t1 - b.t0);
    assert p * span == t - b.t0;
    if p >= 1.0 { NonNegProduct(p - 1.0, span); assert (p - 1.0) * span == p * span - span; }
    NonNegProduct(1.0 - p, |b.text| as real);
    if |b.text| > 0 { PartOf(p, |b.text| as real); }
  }

  lemma PartOf(p: real, n: real)
    requires p < 1.0 && n > 0.0
    ensures p * n < n
  {
    assert (1.0 - p) * n == n - p * n;
  }

  /** While op k types, its field shows some but not all of what it types. */
  lemma TextWhileTyping(scene: Scene, measure: string -> real, ops: seq<Op>, k: nat, t: real, ease: real -> real) returns (c: nat)
    requires k < |ops| && Current(scene, measure, ops, k, t) && !ops[k].GoTo? && Typing(scene, measure, ops, k, t)
    ensures var s, page := Run(scene, measure, ops, k), SoFar(scene, Run(scene, measure, ops, |ops|).beats, t, ease);
      var text, f := ops[k].text.value, LandsIn(scene, s, ops[k]).value;
      && (c < |text| || c == 0 == |text|)
      && page.typed == s.typed[f := TextOf(s.typed, f) + text[..c]]
  {
    hide Run, Begun, InOrder, Replay, LandsIn, Quiet, HasPointer, TextAt, Shown, Step;
    var s, r, end := Run(scene, measure, ops, k), Run(scene, measure, ops, k + 1), Run(scene, measure, ops, |ops|);
    var b := r.beats[|r.beats| - 1];
    BegunAt(scene, measure, ops, k, t);
    BeatsInOrder(scene, measure, ops, k + 1, |ops|);
    AllInOrder(scene, measure, ops);
    BegunSplits(end.beats, end.t, t);
    assert end.beats[|r.beats| - 1] == b;
    assert end.beats[..Begun(end.beats, t)] == r.beats;
    OpShape(scene, measure, ops, k);
    TypesItsText(scene, measure, s, ops[k]);
    OwnBeatsAreQuiet(scene, measure, ops, k);
    var own := r.beats[|s.beats|..|r.beats| - 1];
    QuietKeepsText(scene, s.beats, own, t, ease);
    assert r.beats == s.beats + own + [b];
    AddBeat(scene, s.beats + own, b, t, ease);
    TextAtStart(scene, measure, ops, k, t, ease);
    SomeButNotAll(b, t);
    c := Shown(b.text, (t - b.t0) / (b.t1 - b.t0));
  }

  /** Only an editable field is ever typed into, and then it gains the op's whole text. */
  lemma TypedIsGained(scene: Scene, measure: string -> real, ops: seq<Op>, k: nat)
    requires k < |ops| && TypesSomewhere(scene, measure, ops, k)
    ensures ops[k].TypeInto? && ops[k].text.Some?
    ensures var s := Run(scene, measure, ops, k);
      Gain(scene, s, ops[k], LandsIn(scene, s, ops[k]).value) == ops[k].text.value
  {
    hide Run, Replay, HasPointer, Duration;
    RunReplays(scene, measure, ops, k, (x: real) => x);
  }

  /** A field that the whole script types into for the last time with op j, yet to begin at t, shows at t
      what it will hold then exactly when it gains nothing from now on until then. */
  lemma ShownIsHeld(scene: Scene, measure: string -> real, ops: seq<Op>, k: nat, t: real, j: nat, f: string, ease: real -> real)
    requires k <= j < |ops| && Current(scene, measure, ops, k, t) && forall l :: k <= l < |ops| ==> !ops[l].GoTo?
    requires j == k ==> !Typing(scene, measure, ops, k, t)
    ensures TextOf(Run(scene, measure, ops, j).typed, f)
        == TextOf(SoFar(scene, Run(scene, measure, ops, |ops|).beats, t, ease).typed, f)
      <==> forall l: nat :: k <= l < j ==> Gain(scene, Run(scene, measure, ops, l), ops[l], f) == ""
  {
    hide Run, SoFar, LandsIn, Gain, Current, Typing, TypesSomewhere;
    TextGrows(scene, measure, ops, k, j, f);
    if Typing(scene, measure, ops, k, t) {
      TypingShowsLess(scene, measure, ops, k, t, j, f, ease);
    } else {
      TextBeforeTyping(scene, measure, ops, k, t, ease);
    }
  }

  lemma TypingShowsLess(scene: Scene, measure: string -> real, ops: seq<Op>, k: nat, t: real, j: nat, f: string, ease: real -> real)
    requires k < j < |ops| && Current(scene, measure, ops, k, t) && forall l :: k <= l < |ops| ==> !ops[l].GoTo?
    requires Typing(scene, measure, ops, k, t)
    ensures TextOf(Run(scene, measure, ops, j).typed, f)
        == TextOf(SoFar(scene, Run(scene, measure, ops, |ops|).beats, t, ease).typed, f)
      <==> forall l: nat :: k <= l < j ==> Gain(scene, Run(scene, measure, ops, l), ops[l], f) == ""
  {
    hide Run, SoFar, LandsIn, Gain, Current, Step, TextOf, Typing;
    var s := Run(scene, measure, ops, k);
    var c := TextWhileTyping(scene, measure, ops, k, t, ease);
    TypingTypes(scene, measure, ops, k, t);
    TypedIsGained(scene, measure, ops, k);
    TextGrows(scene, measure, ops, k, j, f);
    PutText(s.typed, LandsIn(scene, s, ops[k]).value, f, TextOf(s.typed, LandsIn(scene, s, ops[k]).value) + ops[k].text.value[..c]);
    if f == LandsIn(scene, s, ops[k]).value {
      OpShape(scene, measure, ops, k);
      StepGains(scene, measure, s, ops[k], f);
      TextGrows(scene, measure, ops, k + 1, j, f);
      PartIsLess(TextOf(s.typed, f), ops[k].text.value, c, TextOf(Run(scene, measure, ops, j).typed, f));
    }
  }

  lemma TypingTypes(scene: Scene, measure: string -> real, ops: seq<Op>, k: nat, t: real)
    requires k < |ops| && Typing(scene, measure, ops, k, t)
    ensures TypesSomewhere(scene, measure, ops, k) && !Run(scene, measure, ops, k).fatal
  {
    hide Run;
  }

  lemma PutText(typed: map<string, string>, g: string, f: string, text: string)
    ensures TextOf(typed[g := text], f) == if f == g then text else TextOf(typed, f)
  {
  }

  lemma PartIsLess(base: string, text: string, c: nat, whole: string)
    requires base + text <= whole && (c < |text| || c == 0 == |text|)
    ensures whole == base + text[..c] ==> text == ""
    ensures text == "" ==> base + text[..c] == base
  {
  }

  /** Where the script does not navigate again, the replay agrees at t exactly when no field that is yet to
      be typed into for the last time gains text before then, from the op of that moment on. */
  lemma ReplayAgreesWithoutGains(scene: Scene, measure: string -> real, ops: seq<Op>, k: nat, t: real, ease: real -> real)
    requires k <= |ops| && Current(scene, measure, ops, k, t) && forall l :: k <= l < |ops| ==> !ops[l].GoTo?
    ensures var beats := Run(scene, measure, ops, |ops|).beats;
      SamePage(Replay(scene, beats, t, ease), SoFar(scene, beats, t, ease))
      <==> forall f, j: nat, l: nat :: j < |ops| && YetToWrite(scene, measure, ops, t, j, f) && k <= l < j ==>
             Gain(scene, Run(scene, measure, ops, l), ops[l], f) == ""
  {
    hide Run, Replay, SoFar, YetToWrite, SamePage, TextOf, Gain, Current, Typing;
    ReplayAgreesExactlyWhen(scene, measure, ops, t, ease);
    forall f, j: nat | j < |ops| && YetToWrite(scene, measure, ops, t, j, f)
      ensures TextOf(Run(scene, measure, ops, j).typed, f)
          == TextOf(SoFar(scene, Run(scene, measure, ops, |ops|).beats, t, ease).typed, f)
        <==> forall l: nat :: k <= l < j ==> Gain(scene, Run(scene, measure, ops, l), ops[l], f) == ""
    {
      YetToWriteIsLater(scene, measure, ops, k, t, j, f);
      ShownIsHeld(scene, measure, ops, k, t, j, f, ease);
    }
  }

  lemma YetToWriteIsLater(scene: Scene, measure: string -> real, ops: seq<Op>, k: nat, t: real, j: nat, f: string)
    requires k <= |ops| && j < |ops| && Current(scene, measure, ops, k, t) && YetToWrite(scene, measure, ops, t, j, f)
    ensures k <= j && (j == k ==> !Typing(scene, measure, ops, k, t))
  {
    hide Run, InOrder, LandsIn, TypesSomewhere, LastTypesAt;
    if j < k {
      var r := Run(scene, measure, ops, j + 1);
      BeatsInOrder(scene, measure, ops, j + 1, k);
      BeatsInOrder(scene, measure, ops, j + 1, j + 1);
      InOrderAt(r.beats, r.t, |r.beats| - 1);
      assert false;
    }
  }

  // ---- the script that types twice ----

  lemma TypesTwiceRuns(measure: string -> real)
    ensures var ops := TypesTwice();
      var s0, s1, s2 := Run(OneField(), measure, ops, 0), Run(OneField(), measure, ops, 1), Run(OneField(), measure, ops, 2);
      && !s0.fatal && s0.beats == [] && !s1.fatal && s1.focus == Some("#email")
      && s2.beats == s1.beats + [TypeText(s1.t, s1.t + 1.0, Some("#email"), "a", "b")]
  {
    hide Step, Begin;
    var ops := TypesTwice();
    var s0 := Begin(OneField(), ops);
    FirstState(ops);
    FirstKeys(measure, s0, ops[0]);
    SecondKeys(measure, Step(OneField(), measure, s0, ops[0]), ops[1]);
    TwoSteps(OneField(), measure, ops);
    assert Run(OneField(), measure, ops, 0) == s0;
    assert Run(OneField(), measure, ops, 1) == Step(OneField(), measure, s0, ops[0]);
  }

  /** Both its ops type into the one field, the first of them an "a". */
  lemma TypesTwiceLands(measure: string -> real, t: real)
    ensures var ops := TypesTwice();
      && LastTypesAt(OneField(), measure, ops, 0, 2, 1, "#email")
      && Gain(OneField(), Run(OneField(), measure, ops, 0), ops[0], "#email") == "a"
      && (YetToWrite(OneField(), measure, ops, t, 1, "#email") <==> t <= Run(OneField(), measure, ops, 1).t)
  {
    hide Run;
    TypesTwiceRuns(measure);
  }

  /** Its replay is wrong exactly until its second op begins. */
  lemma TypesTwiceIsWrongUntil(measure: string -> real, t: real, ease: real -> real)
    ensures var beats := Run(OneField(), measure, TypesTwice(), 2).beats;
      SamePage(Replay(OneField(), beats, t, ease), SoFar(OneField(), beats, t, ease))
      <==> t >= Run(OneField(), measure, TypesTwice(), 1).t
  {
    hide Run, Replay, SoFar, YetToWrite, SamePage, Gain, LastTypesAt;
    var ops := TypesTwice();
    var k := SomeOpIsCurrent(OneField(), measure, ops, t);
    ReplayAgreesWithoutGains(OneField(), measure, ops, k, t, ease);
    TypesTwiceLands(measure, t);
    if k == 2 { BeatsInOrder(OneField(), measure, ops, 1, 2); }
  }
}
