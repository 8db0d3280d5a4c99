/** What the replay shows in the middle of a scroll or a pointer's move: always onwards, from where the
    script was to where it went. */
module GlideFacts {
  import opened Wrappers
  import opened Reals
  import opened Simulation
  import opened SimulationFacts
  import opened BeatFacts

  predicate PointerOnTheWay(a: Pointer, b: Pointer, c: Pointer) { OnTheWay(a.x, b.x, c.x) && OnTheWay(a.y, b.y, c.y) }

  // ---- shares of a span ----

  function Share(t0: real, t1: real, t: real): real
    requires t0 < t1
  {
    (t - t0) / (t1 - t0)
  }

  lemma ShareRises(t0: real, t1: real, t: real, u: real)
    requires t0 < t1 && t0 <= t <= u <= t1
    ensures 0.0 <= Share(t0, t1, t) <= Share(t0, t1, u) <= 1.0
    ensures Share(t0, t1, t0) == 0.0 && Share(t0, t1, t1) == 1.0
    ensures t < t1 ==> Share(t0, t1, t) < 1.0
  {
    var k := t1 - t0;
    DivTimes(t - t0, k);
    DivTimes(u - t0, k);
    DivIs(0.0, k, 0.0);
    DivSelf(k);
    var p, q := Share(t0, t1, t), Share(t0, t1, u);
    assert p * k == t - t0 && q * k == u - t0;
    Factor(p, k);
    Factor(q - p, k);
    Factor(1.0 - q, k);
    if t < t1 && p >= 1.0 { NonNegProduct(p - 1.0, k); }
  }

  lemma Factor(x: real, k: real)
    requires k > 0.0 && x * k >= 0.0
    ensures x >= 0.0
  {
    if x < 0.0 { NegProduct(x, k); }
  }

  lemma NegProduct(x: real, k: real)
    requires x < 0.0 && k > 0.0
    ensures x * k < 0.0
  {
  }

  // ---- scrolls ----

  function ScrollAt(scene: Scene, beats: seq<Beat>, t: real, ease: real -> real): real { Replay(scene, beats, t, ease).scrollY }

  /** What comes after an op shows nothing of its scroll, pointer or focus while the op lasts. */
  lemma LaterBeatsLeave(scene: Scene, measure: string -> real, ops: seq<Op>, k: nat, t: real, ease: real -> real)
    requires k <= |ops| && t < Run(scene, measure, ops, k).t
    ensures var page, whole := Replay(scene, Run(scene, measure, ops, k).beats, t, ease),
                               Replay(scene, Run(scene, measure, ops, |ops|).beats, t, ease);
      page.scrollY == whole.scrollY && page.pointer == whole.pointer && page.focus == whole.focus
  {
    hide Run, Replay, TextBefore, BeginsAt, EndsAt;
    var s, end := Run(scene, measure, ops, k), Run(scene, measure, ops, |ops|);
    BeatsInOrder(scene, measure, ops, k, |ops|);
    var later := end.beats[|s.beats|..];
    forall b | b in later ensures NotYet(b, t) {
      var i :| 0 <= i < |later| && later[i] == b;
      assert b == end.beats[|s.beats| + i];
    }
    assert end.beats == s.beats + later;
    ReplayLooksAhead(scene, s.beats, later, t, ease);
  }

  lemma ScrollBeat(scene: Scene, measure: string -> real, s: Sim, op: Op)
    requires op.ScrollTo? && !s.fatal && !Step(scene, measure, s, op).fatal
    ensures var r := Step(scene, measure, s, op);
      s.t < r.t && r.beats == s.beats + [GlideScroll(s.t, r.t, s.scrollY, r.scrollY, op.smooth)]
  {
    hide MaxScroll;
  }

  function Paced(smooth: bool, q: real): real { if smooth then Smoothstep(q) else q }

  lemma ScrollIsShare(scene: Scene, s: Sim, r: Sim, smooth: bool, x: real, ease: real -> real)
    requires Replays(scene, s, ease) && s.t < r.t && s.t <= x <= r.t
    requires r.beats == s.beats + [GlideScroll(s.t, r.t, s.scrollY, r.scrollY, smooth)]
    ensures AtShare(ScrollAt(scene, r.beats, x, ease), s.scrollY, r.scrollY, Paced(smooth, Share(s.t, r.t, x)))
  {
    hide HasPointer, Smoothstep;
    AddBeat(scene, s.beats, GlideScroll(s.t, r.t, s.scrollY, r.scrollY, smooth), x, ease);
    ShareRises(s.t, r.t, x, x);
    SmoothstepEnds();
    hide Replay;
  }

  lemma PacedRises(smooth: bool, p: real, q: real)
    requires 0.0 <= p <= q <= 1.0
    ensures 0.0 <= Paced(smooth, p) <= Paced(smooth, q) <= 1.0
  {
    hide Smoothstep;
    SmoothstepRange(p);
    SmoothstepRange(q);
    SmoothstepSlope(p, q);
  }

  /** While an op scrolls, the page goes from the scroll the script had before it to the one it has after,
      reaching both and never turning back, whatever comes later in the script. */
  lemma ScrollGoesOnwards(scene: Scene, measure: string -> real, ops: seq<Op>, k: nat, t: real, u: real, ease: real -> real)
    requires k < |ops| && ops[k].ScrollTo? && !Run(scene, measure, ops, k + 1).fatal
    requires Run(scene, measure, ops, k).t <= t <= u <= Run(scene, measure, ops, k + 1).t
    ensures var s, r := Run(scene, measure, ops, k), Run(scene, measure, ops, k + 1);
      var y, z := ScrollAt(scene, r.beats, t, ease), ScrollAt(scene, r.beats, u, ease);
      && s.t < r.t
      && ScrollAt(scene, r.beats, s.t, ease) == s.scrollY && ScrollAt(scene, r.beats, r.t, ease) == r.scrollY
      && OnTheWay(s.scrollY, y, z) && OnTheWay(y, z, r.scrollY)
      && (t < r.t ==> ScrollAt(scene, Run(scene, measure, ops, |ops|).beats, t, ease) == y)
      && (!ops[k].smooth ==> AtShare(y, s.scrollY, r.scrollY, Share(s.t, r.t, t)))
  {
    hide Run, Replays, ScrollAt, Step, Paced, AtShare, Share;
    var s, r := Run(scene, measure, ops, k), Run(scene, measure, ops, k + 1);
    var smooth := ops[k].smooth;
    OneStep(scene, measure, ops, k);
    ScrollBeat(scene, measure, s, ops[k]);
    RunReplays(scene, measure, ops, k, ease);
    ScrollIsShare(scene, s, r, smooth, s.t, ease);
    ScrollIsShare(scene, s, r, smooth, r.t, ease);
    ScrollIsShare(scene, s, r, smooth, t, ease);
    ScrollIsShare(scene, s, r, smooth, u, ease);
    ShareRises(s.t, r.t, t, u);
    PacedRises(smooth, Share(s.t, r.t, t), Share(s.t, r.t, u));
    GoesOn(s.scrollY, r.scrollY, Paced(smooth, Share(s.t, r.t, t)), Paced(smooth, Share(s.t, r.t, u)),
      ScrollAt(scene, r.beats, t, ease), ScrollAt(scene, r.beats, u, ease));
    PacedEnds(smooth);
    AtEnds(ScrollAt(scene, r.beats, s.t, ease), s.scrollY, r.scrollY);
    AtEnds(ScrollAt(scene, r.beats, r.t, ease), s.scrollY, r.scrollY);
    if t < r.t { ScrollUnmoved(scene, measure, ops, k + 1, t, ease); }
    PacedEvenly(smooth, Share(s.t, r.t, t));
  }

  lemma OneStep(scene: Scene, measure: string -> real, ops: seq<Op>, k: nat)
    requires k < |ops| && !Run(scene, measure, ops, k + 1).fatal
    ensures var s := Run(scene, measure, ops, k); !s.fatal && Run(scene, measure, ops, k + 1) == Step(scene, measure, s, ops[k])
  {
    hide Step;
  }

  lemma ScrollUnmoved(scene: Scene, measure: string -> real, ops: seq<Op>, k: nat, t: real, ease: real -> real)
    requires k <= |ops| && t < Run(scene, measure, ops, k).t
    ensures ScrollAt(scene, Run(scene, measure, ops, |ops|).beats, t, ease) == ScrollAt(scene, Run(scene, measure, ops, k).beats, t, ease)
  {
    hide Run, Replay;
    LaterBeatsLeave(scene, measure, ops, k, t, ease);
  }

  lemma PacedEnds(smooth: bool)
    ensures Paced(smooth, 0.0) == 0.0 && Paced(smooth, 1.0) == 1.0
  {
    SmoothstepEnds();
    hide Smoothstep;
  }

  lemma PacedEvenly(smooth: bool, q: real)
    ensures !smooth ==> Paced(smooth, q) == q
  {
  }

  lemma AtEnds(x: real, a: real, c: real)
    ensures AtShare(x, a, c, 0.0) ==> x == a
    ensures AtShare(x, a, c, 1.0) ==> x == c
  {
  }

  /** A smooth scroll is halfway at half its time, and slows down as it sped up. */
  lemma SmoothScrollIsEven(scene: Scene, measure: string -> real, ops: seq<Op>, k: nat, t: real, ease: real -> real)
    requires k < |ops| && ops[k].ScrollTo? && ops[k].smooth && !Run(scene, measure, ops, k + 1).fatal
    requires Run(scene, measure, ops, k).t <= t <= Run(scene, measure, ops, k + 1).t
    ensures var s, r := Run(scene, measure, ops, k), Run(scene, measure, ops, k + 1);
      ScrollAt(scene, r.beats, t, ease) + ScrollAt(scene, r.beats, s.t + r.t - t, ease) == s.scrollY + r.scrollY
  {
    hide Run, Replays, ScrollAt, Step, Share, Smoothstep;
    var s, r := Run(scene, measure, ops, k), Run(scene, measure, ops, k + 1);
    OneStep(scene, measure, ops, k);
    ScrollBeat(scene, measure, s, ops[k]);
    RunReplays(scene, measure, ops, k, ease);
    ScrollIsShare(scene, s, r, true, t, ease);
    ScrollIsShare(scene, s, r, true, s.t + r.t - t, ease);
    ShareMirror(s.t, r.t, t);
    SmoothstepMirror(Share(s.t, r.t, t));
    var d, q := r.scrollY - s.scrollY, Smoothstep(Share(s.t, r.t, t));
    assert d * q + d * (1.0 - q) == d;
  }

  lemma ShareMirror(t0: real, t1: real, t: real)
    requires t0 < t1
    ensures Share(t0, t1, t0 + t1 - t) == 1.0 - Share(t0, t1, t)
  {
    var k := t1 - t0;
    DivTimes(t - t0, k);
    assert (1.0 - Share(t0, t1, t)) * k == k - (t - t0);
    DivIs(t0 + t1 - t - t0, k, 1.0 - Share(t0, t1, t));
  }

  // ---- the pointer ----

  /** A curve that runs from nothing to all of the way and never back. */
  ghost predicate Easing(ease: real -> real) {
    && ease(0.0) == 0.0 && ease(1.0) == 1.0
    && forall p, q :: 0.0 <= p <= q <= 1.0 ==> 0.0 <= ease(p) <= ease(q) <= 1.0
  }

  /** Where the pointer of a step's only move came from and went, and when. */
  predicate Moves(s: Sim, r: Sim, n: nat) {
    && |s.beats| <= n < |r.beats| && s.beats <= r.beats && r.beats[n].MovePointer?
    && var b := r.beats[n];
       && b.p0 == s.pointer && b.p1 == r.pointer && s.t <= b.t0 < b.t1 <= r.t
       && forall i :: |s.beats| <= i < n ==> r.beats[i].SnapScroll?
  }

  lemma ClickMoves(scene: Scene, s: Sim, spot: Spot, n: nat)
    requires var r := DoClick(scene, s, spot); |s.beats| <= n < |r.beats| && r.beats[n].MovePointer?
    ensures Moves(s, DoClick(scene, s, spot), n)
  {
    hide Centred, OnScreen, MiddleOf;
  }

  lemma TypeMoves(scene: Scene, measure: string -> real, s: Sim, text: string, sel: Option<string>, per: real, n: nat)
    requires var r := DoType(scene, measure, s, text, sel, per); |s.beats| <= n < |r.beats| && r.beats[n].MovePointer?
    requires per >= 0.0
    ensures Moves(s, DoType(scene, measure, s, text, sel, per), n)
  {
    hide Centred, OnScreen, MiddleOf, CaretMarks, CaretCount;
    SpanPositive(|text|, per);
  }

  lemma StepMoves(scene: Scene, measure: string -> real, s: Sim, op: Op, n: nat)
    requires var r := Step(scene, measure, s, op); |s.beats| <= n < |r.beats| && r.beats[n].MovePointer?
    ensures Moves(s, Step(scene, measure, s, op), n)
  {
    hide DoClick, DoType, MaxScroll, Moves;
    match op {
      case ClickOn(spot) => ClickMoves(scene, s, spot, n);
      case TypeInto(text, sel, per) =>
        if text.Some? && Duration(per, TYPEWRITER_MS).Some? {
          TypeMoves(scene, measure, s, text.value, sel, Duration(per, TYPEWRITER_MS).value, n);
        }
      case _ =>
    }
  }

  lemma {:induction false} SnapsLeavePointer(scene: Scene, done: seq<Beat>, own: seq<Beat>, t: real, ease: real -> real)
    requires forall i :: 0 <= i < |own| ==> own[i].SnapScroll?
    ensures Replay(scene, done + own, t, ease).pointer == Replay(scene, done, t, ease).pointer
  {
    hide HasPointer;
    if own == [] {
      assert done + own == done;
    } else {
      var head, b := own[..|own| - 1], own[|own| - 1];
      SnapsLeavePointer(scene, done, head, t, ease);
      assert done + own == done + head + [b];
      AddBeat(scene, done + head, b, t, ease);
    }
  }

  function PointerAt(scene: Scene, beats: seq<Beat>, t: real, ease: real -> real): Pointer { Replay(scene, beats, t, ease).pointer }

  /** Up to and with its move, the pointer is where it was, then on its way, then where it went. */
  lemma PointerIsShare(scene: Scene, s: Sim, r: Sim, n: nat, x: real, ease: real -> real)
    requires Replays(scene, s, ease) && Moves(s, r, n) && r.beats[n].t0 <= x <= r.beats[n].t1
    ensures var b, p := r.beats[n], PointerAt(scene, r.beats[..n + 1], x, ease);
      && (x == b.t0 ==> p == PageOf(scene, s, HasPointer(s.beats)).pointer)
      && (x == b.t1 ==> p == b.p1)
      && (b.t0 < x < b.t1 ==>
            p.shape == b.p1.shape
            && AtShare(p.x, b.p0.x, b.p1.x, ease(Share(b.t0, b.t1, x))) && AtShare(p.y, b.p0.y, b.p1.y, ease(Share(b.t0, b.t1, x))))
  {
    hide HasPointer, Replay;
    var own, b := r.beats[|s.beats|..n], r.beats[n];
    SnapsLeavePointer(scene, s.beats, own, x, ease);
    assert r.beats[..n + 1] == s.beats + own + [b];
    AddBeat(scene, s.beats + own, b, x, ease);
  }

  lemma PointerWay(scene: Scene, s: Sim, r: Sim, n: nat, x: real, ease: real -> real) returns (q: real)
    requires Replays(scene, s, ease) && Moves(s, r, n) && Easing(ease) && r.beats[n].t0 < x <= r.beats[n].t1
    ensures var b, p := r.beats[n], PointerAt(scene, r.beats[..n + 1], x, ease);
      && q == ease(Share(b.t0, b.t1, x)) && 0.0 <= q <= 1.0 && p.shape == b.p1.shape
      && AtShare(p.x, b.p0.x, b.p1.x, q) && AtShare(p.y, b.p0.y, b.p1.y, q)
  {
    hide PointerAt, Replays, Share;
    var b := r.beats[n];
    PointerIsShare(scene, s, r, n, x, ease);
    ShareRises(b.t0, b.t1, x, x);
    q := ease(Share(b.t0, b.t1, x));
  }

  /** While an op moves the pointer, it goes from where the script had it to where it has it after, on both
      axes, never turning back, whatever comes later in the script. Only the first move of all has
      nowhere to start from: until then the pointer waits below the fold. */
  lemma PointerGoesOnwards(scene: Scene, measure: string -> real, ops: seq<Op>, k: nat, n: nat, t: real, u: real, ease: real -> real)
    requires k < |ops| && Easing(ease)
    requires var s, r := Run(scene, measure, ops, k), Run(scene, measure, ops, k + 1);
      |s.beats| <= n < |r.beats| && r.beats[n].MovePointer? && r.beats[n].t0 < t <= u <= r.beats[n].t1
    ensures var s, r := Run(scene, measure, ops, k), Run(scene, measure, ops, k + 1);
      var b, beats := r.beats[n], r.beats[..n + 1];
      var p, q := PointerAt(scene, beats, t, ease), PointerAt(scene, beats, u, ease);
      && s.t <= b.t0 < b.t1 <= r.t
      && PointerAt(scene, beats, b.t0, ease) == (if HasPointer(s.beats) then s.pointer else Blank(scene).pointer)
      && PointerAt(scene, beats, b.t1, ease) == r.pointer
      && PointerOnTheWay(s.pointer, p, q) && PointerOnTheWay(p, q, r.pointer) && p.shape == r.pointer.shape
      && (t < b.t1 ==> PointerAt(scene, Run(scene, measure, ops, |ops|).beats, t, ease) == p)
  {
    hide Run, Replays, Step, AtShare, Share, PointerAt, HasPointer;
    var s, r := Run(scene, measure, ops, k), Run(scene, measure, ops, k + 1);
    var b := r.beats[n];
    AnyStep(scene, measure, ops, k);
    StepMoves(scene, measure, s, ops[k], n);
    RunReplays(scene, measure, ops, k, ease);
    PointerIsShare(scene, s, r, n, b.t0, ease);
    PointerIsShare(scene, s, r, n, b.t1, ease);
    var pq := PointerWay(scene, s, r, n, t, ease);
    var qq := PointerWay(scene, s, r, n, u, ease);
    ShareRises(b.t0, b.t1, t, u);
    var p, q := PointerAt(scene, r.beats[..n + 1], t, ease), PointerAt(scene, r.beats[..n + 1], u, ease);
    GoesOn(b.p0.x, b.p1.x, pq, qq, p.x, q.x);
    GoesOn(b.p0.y, b.p1.y, pq, qq, p.y, q.y);
    if t < b.t1 { PointerUnmoved(scene, measure, ops, k, n, t, ease); }
  }

  lemma AnyStep(scene: Scene, measure: string -> real, ops: seq<Op>, k: nat)
    requires k < |ops| && Run(scene, measure, ops, k + 1).beats != Run(scene, measure, ops, k).beats
    ensures Run(scene, measure, ops, k + 1) == Step(scene, measure, Run(scene, measure, ops, k), ops[k])
  {
    hide Step;
  }

  /** No beat after a move that is under way shows anything of the pointer. */
  lemma PointerUnmoved(scene: Scene, measure: string -> real, ops: seq<Op>, k: nat, n: nat, t: real, ease: real -> real)
    requires k < |ops| && n < |Run(scene, measure, ops, k + 1).beats| && t < EndsAt(Run(scene, measure, ops, k + 1).beats[n])
    ensures PointerAt(scene, Run(scene, measure, ops, |ops|).beats, t, ease)
      == PointerAt(scene, Run(scene, measure, ops, k + 1).beats[..n + 1], t, ease)
  {
    hide Run, Replay, TextBefore, BeginsAt, EndsAt;
    var r, end := Run(scene, measure, ops, k + 1), Run(scene, measure, ops, |ops|);
    BeatsInOrder(scene, measure, ops, k + 1, |ops|);
    var later := end.beats[n + 1..];
    assert end.beats[n] == r.beats[n];
    forall b | b in later ensures NotYet(b, t) {
      var i :| 0 <= i < |later| && later[i] == b;
      assert b == end.beats[n + 1 + i];
    }
    assert end.beats == end.beats[..n + 1] + later && end.beats[..n + 1] == r.beats[..n + 1];
    ReplayLooksAhead(scene, r.beats[..n + 1], later, t, ease);
  }
}
