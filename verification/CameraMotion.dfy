/** The camera never jumps: on every axis it is Lipschitz over all real time, for every plan. */
module CameraMotion {
  import opened Reals
  import opened Planner
  import opened PlannerFacts
  import opened Camera

  ghost predicate PacedKnots(pts: seq<Knot>, M: real) {
    && (forall a, b :: 0 <= a < b < |pts| ==> pts[b].t >= pts[a].t + WAYPOINT_MIN_GAP)
    && (forall k :: 0 <= k < |pts| ==> 0.0 <= pts[k].v <= M)
  }

  // ---- the pan ----

  lemma PanStart(pts: seq<Knot>, t: real, M: real)
    requires pts != [] && PacedKnots(pts, M) && t <= pts[0].t
    ensures PanAt(pts, t) == pts[0].v
  {
    if |pts| > 1 {
      var g := pts[1].t - pts[0].t;
      if t < pts[0].t { assert (t - pts[0].t) / g < 0.0; }
    }
  }

  lemma {:induction false} PanEnd(pts: seq<Knot>, t: real, M: real)
    requires pts != [] && PacedKnots(pts, M) && t >= pts[|pts| - 1].t
    ensures PanAt(pts, t) == pts[|pts| - 1].v
  {
    if |pts| > 1 {
      assert pts[|pts| - 1].t >= pts[1].t;
      PanEnd(pts[1..], t, M);
    }
  }

  /** The pan is exactly at each knot when its clock strikes. */
  lemma {:induction false} PanHitsKnot(pts: seq<Knot>, k: nat, M: real)
    requires k < |pts| && PacedKnots(pts, M)
    ensures PanAt(pts, pts[k].t) == pts[k].v
  {
    if k == 0 {
      PanStart(pts, pts[0].t, M);
    } else {
      assert pts[k].t >= pts[1].t;
      PanHitsKnot(pts[1..], k - 1, M);
    }
  }

  lemma ShareSlow(t0: real, g: real, s: real, t: real)
    requires g >= WAYPOINT_MIN_GAP && s <= t
    ensures 0.0 <= Share(t0, g, t) - Share(t0, g, s) <= 25.0 * (t - s)
  {
    var x, y := (s - t0) / g, (t - t0) / g;
    assert y - x == (t - s) / g;
    var q := (t - s) / g;
    assert q * g == t - s;
    assert 0.0 <= q;
    NonNegProduct(q, g - WAYPOINT_MIN_GAP);
    assert q * (g - WAYPOINT_MIN_GAP) == t - s - q * WAYPOINT_MIN_GAP;
  }

  /** |a| scaled by a share in [0, c] is at most M * c. */
  lemma ScaledShare(a: real, M: real, share: real, c: real)
    requires -M <= a <= M && 0.0 <= share <= c
    ensures Abs(a * share) <= M * c
  {
    NonNegProduct(M - a, share);
    NonNegProduct(M + a, share);
    assert (M - a) * share == M * share - a * share;
    assert (M + a) * share == M * share + a * share;
    NonNegProduct(M, c - share);
    assert M * (c - share) == M * c - M * share;
  }

  lemma SharesSlow(v: real, a: real, x: real, y: real, M: real, L: real, d: real)
    requires -M <= a <= M && 0.0 <= y - x <= 25.0 * d && L >= 25.0 * M && d >= 0.0
    ensures Abs(Mix(v, a, y) - Mix(v, a, x)) <= L * d
  {
    ScaledShare(a, M, y - x, 25.0 * d);
    assert (v + a * y) - (v + a * x) == a * (y - x);
    NonNegProduct(L - 25.0 * M, d);
    assert (L - 25.0 * M) * d == L * d - M * (25.0 * d);
  }

  lemma SegmentSlow(p: Knot, q: Knot, s: real, t: real, M: real, L: real)
    requires q.t - p.t >= WAYPOINT_MIN_GAP && 0.0 <= p.v <= M && 0.0 <= q.v <= M && s <= t && L >= 25.0 * M
    ensures Abs(Lerp(p, q, t) - Lerp(p, q, s)) <= L * (t - s)
  {
    hide Share, Mix;
    var g := Max(q.t - p.t, 0.001);
    ShareSlow(p.t, g, s, t);
    SharesSlow(p.v, q.v - p.v, Share(p.t, g, s), Share(p.t, g, t), M, L, t - s);
  }

  lemma SegmentEnd(p: Knot, q: Knot)
    requires q.t - p.t >= WAYPOINT_MIN_GAP
    ensures Lerp(p, q, q.t) == q.v
  {
    DivSelf(q.t - p.t);
    var a := q.v - p.v;
    assert a * 1.0 == a;
  }

  /** Two slow stretches that meet are one slow stretch. */
  lemma Chain(x: real, y: real, z: real, L: real, s: real, m: real, t: real)
    requires Abs(y - x) <= L * (m - s) && Abs(z - y) <= L * (t - m)
    ensures Abs(z - x) <= L * (t - s)
  {
    assert L * (t - s) == L * (m - s) + L * (t - m);
  }

  lemma {:induction false} PanSlow(pts: seq<Knot>, s: real, t: real, M: real, L: real)
    requires pts != [] && PacedKnots(pts, M) && s <= t && L >= 25.0 * M
    ensures Abs(PanAt(pts, t) - PanAt(pts, s)) <= L * (t - s)
  {
    hide Lerp;
    if |pts| == 1 {
      NonNegProduct(L, t - s);
    } else {
      var tail, mid := pts[1..], pts[1].t;
      if t < mid {
        SegmentSlow(pts[0], pts[1], s, t, M, L);
      } else if s >= mid {
        PanSlow(tail, s, t, M, L);
      } else {
        SegmentSlow(pts[0], pts[1], s, mid, M, L);
        SegmentEnd(pts[0], pts[1]);
        PanSlow(tail, mid, t, M, L);
        PanStart(tail, mid, M);
        Chain(PanAt(pts, s), pts[1].v, PanAt(pts, t), L, s, mid, t);
      }
    }
  }

  // ---- one axis of one event ----

  /** A bundle of what one axis of one event may do: D bounds the ease, M the pan, L the speed. */
  ghost predicate Tame(ev: Event, base: real, value: real, pts: seq<Knot>, D: real, M: real, L: real) {
    && ev.end - ev.t >= MIN_EVENT
    && PacedKnots(pts, M) && M >= 0.0 && L >= 25.0 * M
    && (pts == [] ==> M == 0.0)
    && -D <= value - base <= D
    && (forall k :: 0 <= k < |pts| ==> -D <= pts[k].v - base <= D)
    && (pts != [] ==> pts[0].t == ev.t + EASE && pts[0].v == value && pts[|pts| - 1].t < ev.end - EASE)
    && D >= 0.0 && L * EASE >= 1.5 * D
  }

  function Rest(value: real, pts: seq<Knot>): real {
    if pts == [] then value else pts[|pts| - 1].v
  }

  function Held(value: real, pts: seq<Knot>, t: real): real {
    if pts == [] then value else PanAt(pts, t)
  }

  /** The three phases agree at both seams. */
  lemma AxisPhases(ev: Event, base: real, value: real, pts: seq<Knot>, D: real, M: real, L: real, t: real)
    requires Tame(ev, base, value, pts, D, M, L)
    ensures t <= ev.t + EASE ==>
      Axis(ev, base, value, pts, t) == Eased(base, value - base, ev.t, t)
    ensures ev.t + EASE <= t <= ev.end - EASE ==> Axis(ev, base, value, pts, t) == Held(value, pts, t)
    ensures t >= ev.end - EASE ==>
      Axis(ev, base, value, pts, t) == Eased(Rest(value, pts), base - Rest(value, pts), ev.end - EASE, t)
  {
    SmoothstepEnds();
    hide Smoothstep;
    if t == ev.t + EASE {
      assert (t - ev.t) / EASE == 1.0;
      if pts != [] { PanStart(pts, t, M); }
    }
    if t == ev.end - EASE {
      assert (t - (ev.end - EASE)) / EASE == 0.0;
      if pts != [] { PanEnd(pts, t, M); }
    }
  }

  lemma Steep(a: real, D: real, L: real, u: real, v: real, d: real)
    requires -D <= a <= D && L * EASE >= 1.5 * D && 0.0 <= d && 0.0 <= v - u && (v - u) * EASE <= 1.5 * d
    ensures Abs(a * v - a * u) <= L * d
  {
    var gap := v - u;
    ScaledShare(a, D, gap, gap);
    assert a * v - a * u == a * gap;
    NonNegProduct(D, 1.5 * d - gap * EASE);
    assert D * (1.5 * d - gap * EASE) == 1.5 * (D * d) - EASE * (D * gap);
    NonNegProduct(L * EASE - 1.5 * D, d);
    assert (L * EASE - 1.5 * D) * d == EASE * (L * d) - 1.5 * (D * d);
  }

  /** base + a * Smoothstep over one ease, as a value of its own. */
  function Eased(base: real, a: real, start: real, t: real): real {
    base + a * Smoothstep((t - start) / EASE)
  }

  lemma EaseSlow(base: real, a: real, start: real, s: real, t: real, D: real, L: real)
    requires -D <= a <= D && L * EASE >= 1.5 * D && s <= t
    ensures Abs(Eased(base, a, start, t) - Eased(base, a, start, s)) <= L * (t - s)
  {
    hide Smoothstep;
    var x, y := (s - start) / EASE, (t - start) / EASE;
    SmoothstepSlope(x, y);
    assert (y - x) * EASE == t - s;
    Steep(a, D, L, Smoothstep(x), Smoothstep(y), t - s);
  }

  lemma HeldSlow(value: real, pts: seq<Knot>, s: real, t: real, M: real, L: real)
    requires PacedKnots(pts, M) && L >= 25.0 * M && L >= 0.0 && s <= t
    ensures Abs(Held(value, pts, t) - Held(value, pts, s)) <= L * (t - s)
  {
    NonNegProduct(L, t - s);
    if pts != [] { PanSlow(pts, s, t, M, L); }
  }

  lemma AxisSlowInPhase(ev: Event, base: real, value: real, pts: seq<Knot>, D: real, M: real, L: real, s: real, t: real)
    requires Tame(ev, base, value, pts, D, M, L) && s <= t
    requires t <= ev.t + EASE || (ev.t + EASE <= s && t <= ev.end - EASE) || s >= ev.end - EASE
    ensures Abs(Axis(ev, base, value, pts, t) - Axis(ev, base, value, pts, s)) <= L * (t - s)
  {
    AxisPhases(ev, base, value, pts, D, M, L, s);
    AxisPhases(ev, base, value, pts, D, M, L, t);
    if t <= ev.t + EASE {
      EaseSlow(base, value - base, ev.t, s, t, D, L);
    } else if s >= ev.end - EASE {
      EaseSlow(Rest(value, pts), base - Rest(value, pts), ev.end - EASE, s, t, D, L);
    } else {
      HeldSlow(value, pts, s, t, M, L);
    }
  }

  lemma AxisSlow(ev: Event, base: real, value: real, pts: seq<Knot>, D: real, M: real, L: real, s: real, t: real)
    requires Tame(ev, base, value, pts, D, M, L) && s <= t
    ensures Abs(Axis(ev, base, value, pts, t) - Axis(ev, base, value, pts, s)) <= L * (t - s)
  {
    var m, n := Clamp(ev.t + EASE, s, t), Clamp(ev.end - EASE, s, t);
    AxisSlowInPhase(ev, base, value, pts, D, M, L, s, m);
    AxisSlowInPhase(ev, base, value, pts, D, M, L, m, n);
    AxisSlowInPhase(ev, base, value, pts, D, M, L, n, t);
    var A := (u: real) => Axis(ev, base, value, pts, u);
    Chain(A(s), A(m), A(n), L, s, m, n);
    Chain(A(s), A(n), A(t), L, s, n, t);
  }

  lemma AxisAtEnds(ev: Event, base: real, value: real, pts: seq<Knot>, D: real, M: real, L: real)
    requires Tame(ev, base, value, pts, D, M, L)
    ensures Axis(ev, base, value, pts, ev.t) == base && Axis(ev, base, value, pts, ev.end) == base
  {
    AxisPhases(ev, base, value, pts, D, M, L, ev.end);
    assert (ev.end - (ev.end - EASE)) / EASE == 1.0;
    assert (ev.t - ev.t) / EASE == 0.0;
    SmoothstepEnds();
    hide Smoothstep;
  }

  // ---- the whole plan ----

  datatype Lane = Zoom | Across | Down

  function Of(v: View, lane: Lane): real {
    match lane case Zoom => v.z case Across => v.cx case Down => v.cy
  }

  function Base(lane: Lane, frameW: real, frameH: real): real { Of(Wide(frameW, frameH), lane) }

  function LaneKnots(ev: Event, lane: Lane): seq<Knot> {
    match lane case Zoom => [] case Across => KnotsX(ev) case Down => KnotsY(ev)
  }

  function LaneHold(ev: Event, lane: Lane): real {
    match lane case Zoom => ev.z case Across => ev.cx case Down => ev.cy
  }

  /** The fastest each lane may go, per second. */
  function TopSpeed(lane: Lane, frameW: real, frameH: real): real {
    match lane case Zoom => 2.0 case Across => 25.0 * frameW case Down => 25.0 * frameH
  }

  function LaneAxis(ev: Event, lane: Lane, frameW: real, frameH: real, t: real): real {
    Axis(ev, Base(lane, frameW, frameH), LaneHold(ev, lane), LaneKnots(ev, lane), t)
  }

  /** Knots that start where the ease-in lands and are spent before the ease-out. */
  ghost predicate Anchored(ev: Event, value: real, pts: seq<Knot>) {
    pts != [] && pts[0] == Knot(ev.t + EASE, value) && pts[|pts| - 1].t < ev.end - EASE
  }

  lemma KnotsPaced(ev: Event, value: real, at: Waypoint -> real, span: real)
    requires Paced(ev.path, ev.t + EASE) && 0.0 <= value <= span
    requires forall k :: 0 <= k < |ev.path| ==> 0.0 <= at(ev.path[k]) <= span
    ensures PacedKnots(Knots(ev, value, at), span)
    ensures ev.path != [] && ev.path[|ev.path| - 1].t < ev.end - EASE ==> Anchored(ev, value, Knots(ev, value, at))
  {
    hide Knots;
    var pts := Knots(ev, value, at);
    forall a, b | 0 <= a < b < |pts| ensures pts[b].t >= pts[a].t + WAYPOINT_MIN_GAP {
      assert pts[b - 1 + 1].t == ev.path[b - 1].t;
      if a > 0 { assert pts[a - 1 + 1].t == ev.path[a - 1].t; }
    }
    assert ev.path != [] ==> pts[|ev.path| - 1 + 1].t == ev.path[|ev.path| - 1].t;
    forall k | 0 <= k < |pts| ensures 0.0 <= pts[k].v <= span {
      if k > 0 { assert pts[k - 1 + 1].v == at(ev.path[k - 1]); }
    }
  }

  lemma LaneTame(ev: Event, lane: Lane, frameW: real, frameH: real) returns (D: real, M: real)
    requires Playable(ev, frameW, frameH) && frameW > 0.0 && frameH > 0.0
    ensures Tame(ev, Base(lane, frameW, frameH), LaneHold(ev, lane), LaneKnots(ev, lane), D, M, TopSpeed(lane, frameW, frameH))
  {
    hide Tame, Paced, Knots, PacedKnots, Anchored;
    KnotsPaced(ev, ev.cx, (p: Waypoint) => p.x, frameW);
    KnotsPaced(ev, ev.cy, (p: Waypoint) => p.y, frameH);
    match lane {
      case Zoom =>
        D, M := 0.85, 0.0;
        ZoomTame(ev);
      case Across => D, M := PanTame(ev, KnotsX(ev), ev.cx, frameW);
      case Down => D, M := PanTame(ev, KnotsY(ev), ev.cy, frameH);
    }
  }

  lemma ZoomTame(ev: Event)
    requires 1.0 <= ev.z <= 1.85 && ev.end - ev.t >= MIN_EVENT
    ensures Tame(ev, 1.0, ev.z, [], 0.85, 0.0, 2.0)
  {}

  lemma PanTame(ev: Event, pts: seq<Knot>, value: real, span: real) returns (D: real, M: real)
    requires ev.end - ev.t >= MIN_EVENT && span > 0.0 && 0.0 <= value <= span
    requires PacedKnots(pts, span) && (pts != [] ==> Anchored(ev, value, pts))
    ensures Tame(ev, span / 2.0, value, pts, D, M, 25.0 * span)
  {
    D, M := span / 2.0, if pts == [] then 0.0 else span;
  }

  /** The lane as a function of time, reading the plan in order. */
  function Sample(evs: seq<Event>, lane: Lane, frameW: real, frameH: real, t: real): real {
    var ev := FirstCovering(evs, t);
    if ev.None? then Base(lane, frameW, frameH) else LaneAxis(ev.value, lane, frameW, frameH, t)
  }

  lemma SampleIsCamera(evs: seq<Event>, lane: Lane, frameW: real, frameH: real, t: real)
    requires PlayablePlan(evs, frameW, frameH)
    ensures Of(CameraAt(evs, t, frameW, frameH), lane) == Sample(evs, lane, frameW, frameH, t)
  {
    hide Axis, KnotsX, KnotsY, FirstCovering, SortByStart, PlayablePlan;
    SortedAlready(evs, frameW, frameH);
  }

  /** Before a plan's first event the view is wide. */
  lemma BeforeAll(evs: seq<Event>, lane: Lane, frameW: real, frameH: real, t: real)
    requires PlayablePlan(evs, frameW, frameH)
    requires evs != [] ==> t < evs[0].t
    ensures Sample(evs, lane, frameW, frameH, t) == Base(lane, frameW, frameH)
  {
    hide Axis;
    forall k | 0 <= k < |evs| ensures !Covers(evs[k], t) {
      if k > 0 { assert evs[k].t >= evs[0].end + 0.85; }
    }
  }

  /** The first event alone, held at its ends' value outside its window. */
  lemma FirstWindow(evs: seq<Event>, lane: Lane, frameW: real, frameH: real, t: real)
    requires PlayablePlan(evs, frameW, frameH) && evs != [] && t <= evs[0].end
    ensures Sample(evs, lane, frameW, frameH, t) == LaneAxis(evs[0], lane, frameW, frameH, Max(t, evs[0].t))
    ensures LaneAxis(evs[0], lane, frameW, frameH, evs[0].end) == Base(lane, frameW, frameH)
  {
    hide Axis;
    var D, M := LaneTame(evs[0], lane, frameW, frameH);
    AxisAtEnds(evs[0], Base(lane, frameW, frameH), LaneHold(evs[0], lane), LaneKnots(evs[0], lane), D, M, TopSpeed(lane, frameW, frameH));
    if t < evs[0].t { BeforeAll(evs, lane, frameW, frameH, t); }
  }

  lemma FirstWindowSlow(evs: seq<Event>, lane: Lane, frameW: real, frameH: real, s: real, t: real)
    requires PlayablePlan(evs, frameW, frameH) && evs != [] && s <= t <= evs[0].end
    ensures Abs(Sample(evs, lane, frameW, frameH, t) - Sample(evs, lane, frameW, frameH, s)) <= TopSpeed(lane, frameW, frameH) * (t - s)
  {
    hide Axis, Sample, LaneKnots, TopSpeed;
    var ev, L := evs[0], TopSpeed(lane, frameW, frameH);
    FirstWindow(evs, lane, frameW, frameH, s);
    FirstWindow(evs, lane, frameW, frameH, t);
    var D, M := LaneTame(ev, lane, frameW, frameH);
    var s', t' := Max(s, ev.t), Max(t, ev.t);
    AxisSlow(ev, Base(lane, frameW, frameH), LaneHold(ev, lane), LaneKnots(ev, lane), D, M, L, s', t');
    NonNegProduct(L, (t - s) - (t' - s'));
    assert L * ((t - s) - (t' - s')) == L * (t - s) - L * (t' - s');
  }

  /** Past the first event only the others count, and they have not started when it ends. */
  lemma PastFirst(evs: seq<Event>, lane: Lane, frameW: real, frameH: real, t: real)
    requires PlayablePlan(evs, frameW, frameH) && evs != [] && t >= evs[0].end
    ensures PlayablePlan(evs[1..], frameW, frameH)
    ensures t > evs[0].end ==> Sample(evs, lane, frameW, frameH, t) == Sample(evs[1..], lane, frameW, frameH, t)
    ensures Sample(evs, lane, frameW, frameH, evs[0].end) == Base(lane, frameW, frameH)
    ensures Sample(evs[1..], lane, frameW, frameH, evs[0].end) == Base(lane, frameW, frameH)
  {
    hide Axis, LaneAxis, Base;
    TailPlayable(evs, frameW, frameH);
    FirstWindow(evs, lane, frameW, frameH, evs[0].end);
    if |evs| > 1 { assert evs[1].t >= evs[0].end + 0.85; }
    BeforeAll(evs[1..], lane, frameW, frameH, evs[0].end);
  }

  lemma {:induction false} SampleSlow(evs: seq<Event>, lane: Lane, frameW: real, frameH: real, s: real, t: real)
    requires PlayablePlan(evs, frameW, frameH) && s <= t
    ensures Abs(Sample(evs, lane, frameW, frameH, t) - Sample(evs, lane, frameW, frameH, s)) <= TopSpeed(lane, frameW, frameH) * (t - s)
  {
    hide Sample, TopSpeed, PlayablePlan;
    if evs == [] {
      SpeedPositive(evs, lane, frameW, frameH);
      BeforeAll(evs, lane, frameW, frameH, s);
      BeforeAll(evs, lane, frameW, frameH, t);
      NonNegProduct(TopSpeed(lane, frameW, frameH), t - s);
    } else {
      SampleSlowStep(evs, lane, frameW, frameH, s, t);
      if t > evs[0].end {
        PastFirst(evs, lane, frameW, frameH, t);
        SampleSlow(evs[1..], lane, frameW, frameH, Max(s, evs[0].end), t);
        SampleSlowJoin(evs, lane, frameW, frameH, s, t);
      }
    }
  }

  lemma SpeedPositive(evs: seq<Event>, lane: Lane, frameW: real, frameH: real)
    requires PlayablePlan(evs, frameW, frameH)
    ensures TopSpeed(lane, frameW, frameH) > 0.0
  {}

  lemma SampleSlowStep(evs: seq<Event>, lane: Lane, frameW: real, frameH: real, s: real, t: real)
    requires PlayablePlan(evs, frameW, frameH) && evs != [] && s <= t
    ensures t <= evs[0].end ==>
      Abs(Sample(evs, lane, frameW, frameH, t) - Sample(evs, lane, frameW, frameH, s)) <= TopSpeed(lane, frameW, frameH) * (t - s)
  {
    hide Sample, TopSpeed, PlayablePlan;
    if t <= evs[0].end { FirstWindowSlow(evs, lane, frameW, frameH, s, t); }
  }

  lemma SampleSlowJoin(evs: seq<Event>, lane: Lane, frameW: real, frameH: real, s: real, t: real)
    requires PlayablePlan(evs, frameW, frameH) && evs != [] && s <= t && t > evs[0].end
    requires var m := Max(s, evs[0].end);
      Abs(Sample(evs[1..], lane, frameW, frameH, t) - Sample(evs[1..], lane, frameW, frameH, m)) <= TopSpeed(lane, frameW, frameH) * (t - m)
    ensures Abs(Sample(evs, lane, frameW, frameH, t) - Sample(evs, lane, frameW, frameH, s)) <= TopSpeed(lane, frameW, frameH) * (t - s)
  {
    hide Sample, TopSpeed, PlayablePlan;
    var m := evs[0].end;
    PastFirst(evs, lane, frameW, frameH, t);
    if s > m {
      PastFirst(evs, lane, frameW, frameH, s);
    } else {
      FirstWindowSlow(evs, lane, frameW, frameH, s, m);
      Chain(Sample(evs, lane, frameW, frameH, s), Base(lane, frameW, frameH), Sample(evs, lane, frameW, frameH, t),
            TopSpeed(lane, frameW, frameH), s, m, t);
    }
  }

  /** Over all real time and every plan: the centre moves at most 25 frames per second on each axis
      and the zoom at most 2 per second, so no seam of any event is a jump. */
  lemma CameraIsLipschitz(evs: seq<Event>, frameW: real, frameH: real, s: real, t: real)
    requires PlayablePlan(evs, frameW, frameH) && s <= t
    ensures var a, b := CameraAt(evs, s, frameW, frameH), CameraAt(evs, t, frameW, frameH);
      && Abs(b.cx - a.cx) <= 25.0 * frameW * (t - s)
      && Abs(b.cy - a.cy) <= 25.0 * frameH * (t - s)
      && Abs(b.z - a.z) <= 2.0 * (t - s)
  {
    hide CameraAt, Sample;
    forall lane: Lane ensures Abs(Of(CameraAt(evs, t, frameW, frameH), lane) - Of(CameraAt(evs, s, frameW, frameH), lane))
        <= TopSpeed(lane, frameW, frameH) * (t - s)
    {
      SampleIsCamera(evs, lane, frameW, frameH, s);
      SampleIsCamera(evs, lane, frameW, frameH, t);
      SampleSlow(evs, lane, frameW, frameH, s, t);
    }
    var a, b := CameraAt(evs, s, frameW, frameH), CameraAt(evs, t, frameW, frameH);
    assert Abs(Of(b, Across) - Of(a, Across)) <= TopSpeed(Across, frameW, frameH) * (t - s);
    assert Abs(Of(b, Down) - Of(a, Down)) <= TopSpeed(Down, frameW, frameH) * (t - s);
    assert Abs(Of(b, Zoom) - Of(a, Zoom)) <= TopSpeed(Zoom, frameW, frameH) * (t - s);
  }
}
