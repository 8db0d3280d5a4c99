/** What the camera shows: the crop stays inside the frame and holds the target it went for. */
module Framing {
  import opened Wrappers
  import opened Reals
  import opened Planner
  import opened PlannerFacts
  import opened Thinning
  import opened Camera
  import opened CameraMotion

  // ---- the crop stays inside the frame ----

  lemma ZoomInRange(evs: seq<Event>, t: real, frameW: real, frameH: real)
    requires PlayablePlan(evs, frameW, frameH)
    ensures 1.0 <= CameraAt(evs, t, frameW, frameH).z <= 1.85
  {
    hide KnotsX, KnotsY, PlayablePlan;
    SortedAlready(evs, frameW, frameH);
    FirstIsPlayable(evs, t, frameW, frameH);
    var ev := FirstCovering(evs, t);
    if ev.Some? {
      hide Axis;
      EventZoomRange(ev.value, t);
    }
  }

  lemma EventZoomRange(e: Event, t: real)
    requires e.end - e.t >= MIN_EVENT && 1.0 <= e.z <= 1.85
    ensures 1.0 <= Axis(e, 1.0, e.z, [], t) <= 1.85
  {
    DrawnInEvent(e, t);
    DrawnForm(e, t);
    SmoothstepRange(DrawnProgress(e, t));
    hide Smoothstep, Axis, DrawnIn;
    var s := Smoothstep(DrawnProgress(e, t));
    NonNegProduct(e.z - 1.0, s);
    NonNegProduct(e.z - 1.0, 1.0 - s);
    assert (e.z - 1.0) * (1.0 - s) == (e.z - 1.0) - (e.z - 1.0) * s;
  }

  lemma CropWidth(frame: real, z: real)
    requires frame > 0.0 && 1.0 <= z
    ensures 0.0 < frame / z <= frame && frame / z * z == frame
  {
    var q := frame / z;
    assert q * z == frame;
    if q <= 0.0 { NonNegProduct(-q, z); }
    NonNegProduct(q, z - 1.0);
    assert q * (z - 1.0) == q * z - q;
  }

  /** One axis of the crop, whatever the centre. */
  lemma CropAxis(frame: real, z: real, centre: real)
    requires frame > 0.0 && 1.0 <= z <= 1.85
    ensures var w := frame / z; var x := Clamp(centre - w / 2.0, 0.0, frame - w);
      0.0 <= x && x + w <= frame <= 1.85 * w
  {
    CropWidth(frame, z);
    var w := frame / z;
    NonNegProduct(w, 1.85 - z);
    assert w * (1.85 - z) == 1.85 * w - w * z;
  }

  /** At every moment of every plan the crop lies inside the frame, at most 1.85 times magnified. */
  lemma CropInsideFrame(evs: seq<Event>, t: real, frameW: real, frameH: real)
    requires PlayablePlan(evs, frameW, frameH)
    ensures CameraAt(evs, t, frameW, frameH).z >= 1.0
    ensures var r := CropFor(CameraAt(evs, t, frameW, frameH), frameW, frameH);
      && 0.0 <= r.x && r.x + r.w <= frameW <= 1.85 * r.w
      && 0.0 <= r.y && r.y + r.h <= frameH <= 1.85 * r.h
  {
    assert frameW > 0.0 && frameH > 0.0;
    hide CameraAt, PlayablePlan;
    ZoomInRange(evs, t, frameW, frameH);
    var c := CameraAt(evs, t, frameW, frameH);
    CropAxis(frameW, c.z, c.cx);
    CropAxis(frameH, c.z, c.cy);
  }

  // ---- the crop holds its target ----

  /** A span inside the frame stays inside a crop that reaches it from its centre. */
  lemma SpanInCrop(lo: real, size: real, frame: real, w: real, centre: real)
    requires 0.0 <= lo && lo + size <= frame && w <= frame
    requires centre - w / 2.0 <= lo && lo + size <= centre + w / 2.0
    ensures var x := Clamp(centre - w / 2.0, 0.0, frame - w); x <= lo && lo + size <= x + w
  {}

  lemma NonNegFactor(x: real, y: real)
    requires y > 0.0 && 0.0 <= x * y
    ensures 0.0 <= x
  {}

  /** A zoom loosened by later merges only widens the crop. */
  lemma LooserIsWider(frame: real, z: real, zz: real)
    requires frame > 0.0 && 1.0 <= zz <= z
    ensures 0.0 < frame / z <= frame / zz <= frame
  {
    CropWidth(frame, z);
    CropWidth(frame, zz);
    var a, b := frame / z, frame / zz;
    NonNegProduct(a, z - zz);
    assert (b - a) * zz == a * (z - zz);
    NonNegFactor(b - a, zz);
  }

  /** A zoom above 1 leaves the fit margin around a side. */
  lemma FitLeavesRoom(ladder: real, frame: real, side: real, z: real)
    requires frame > 0.0 && side >= 0.0 && 1.0 <= z <= Fit(ladder, frame, side)
    ensures side * z * FIT_MARGIN <= frame
  {
    if side > 0.0 {
      var k := side * FIT_MARGIN;
      var q := frame / k;
      assert q * k == frame;
      NonNegProduct(q - z, k);
      assert (q - z) * k == q * k - side * z * FIT_MARGIN;
    }
  }

  lemma FitIsBelowLadder(ladder: real, frame: real, side: real)
    ensures Fit(ladder, frame, side) <= ladder
  {}

  /** The zoom either is 1 or leaves room on both axes. */
  lemma ZoomLeavesRoom(w: real, h: real, frameW: real, frameH: real)
    requires frameW > 0.0 && frameH > 0.0 && w >= 0.0 && h >= 0.0
    ensures var z := ZoomFor(w, h, frameW, frameH);
      z == 1.0 || (w * z * FIT_MARGIN <= frameW && h * z * FIT_MARGIN <= frameH)
  {
    var z := ZoomFor(w, h, frameW, frameH);
    var wide := Fit(Ladder(h, frameH), frameW, w);
    FitIsBelowLadder(wide, frameH, h);
    if z > 1.0 {
      FitLeavesRoom(Ladder(h, frameH), frameW, w, z);
      FitLeavesRoom(wide, frameH, h, z);
    }
  }

  /** A side that fits with room to spare is no longer than its crop. */
  lemma SideFitsCrop(side: real, frame: real, z: real)
    requires frame > 0.0 && side >= 0.0 && z >= 1.0 && side * z * FIT_MARGIN <= frame
    ensures side <= frame / z
  {
    CropWidth(frame, z);
    NonNegProduct(side, z);
    assert (frame / z - side) * z == frame - side * z;
    NonNegFactor(frame / z - side, z);
  }

  /** A centre pushed left by at most the room that is there still reaches both edges of the side. */
  lemma LeaningStillReaches(lo: real, size: real, crop: real, bias: real)
    requires 0.0 <= size <= crop && 0.0 < crop
    requires 0.0 <= bias <= Max(0.5 - size / 2.0 / crop - KEEP_IN_FRAME, 0.0)
    ensures var c := lo + size / 2.0 - crop * bias;
      c - crop / 2.0 <= lo && lo + size <= c + crop / 2.0
  {
    NonNegProduct(crop, bias);
    var share := size / 2.0 / crop;
    assert share * crop == size / 2.0;
    NonNegProduct(crop, Max(0.5 - share - KEEP_IN_FRAME, 0.0) - bias);
    if 0.5 - share - KEEP_IN_FRAME >= 0.0 {
      assert crop * (0.5 - share - KEEP_IN_FRAME - bias) == 0.44 * crop - size / 2.0 - crop * bias;
    } else {
      assert bias == 0.0;
    }
  }

  lemma BiasInRoom(kind: Kind, w: real, crop: real)
    requires crop > 0.0
    ensures 0.0 <= Bias(kind, w, crop) <= Max(0.5 - w / 2.0 / crop - KEEP_IN_FRAME, 0.0)
  {}

  /** A mark's box in source pixels. */
  function Pixels(m: Mark, scale: real): Box
    requires m.bbox.Some?
  {
    var b := m.bbox.value;
    Box(b.x * scale, b.y * scale, b.w * scale, b.h * scale)
  }

  ghost predicate BoxInFrame(m: Mark, scale: real, frameW: real, frameH: real)
    requires m.bbox.Some?
  {
    var p := Pixels(m, scale);
    && 0.0 <= p.x && 0.0 <= p.w && p.x + p.w <= frameW
    && 0.0 <= p.y && 0.0 <= p.h && p.y + p.h <= frameH
  }

  ghost predicate Shows(r: Crop, m: Mark, scale: real)
    requires m.bbox.Some?
  {
    var p := Pixels(m, scale);
    && r.x <= p.x && p.x + p.w <= r.x + r.w
    && r.y <= p.y && p.y + p.h <= r.y + r.h
  }

  /** One axis: a span whose preferred centre reaches it is inside every crop at least that wide,
      even after the centre is clamped into the frame. */
  lemma ClampedCentreShows(lo: real, size: real, frame: real, z: real, zz: real, c: real)
    requires frame > 0.0 && 1.0 <= zz <= z && 0.0 <= lo && 0.0 <= size && lo + size <= frame
    requires c - frame / z / 2.0 <= lo && lo + size <= c + frame / z / 2.0 && c <= lo + size / 2.0
    ensures var w := frame / zz; var x := Clamp(Clamp(c, 0.0, frame) - w / 2.0, 0.0, frame - w);
      x <= lo && lo + size <= x + w
  {
    LooserIsWider(frame, z, zz);
    var w := frame / zz;
    SpanInCrop(lo, size, frame, w, Clamp(c, 0.0, frame));
  }

  ghost predicate SpanShown(lo: real, size: real, frame: real, zz: real, centre: real)
    requires zz > 0.0
  {
    var w := frame / zz; var x := Clamp(centre - w / 2.0, 0.0, frame - w);
    x <= lo && lo + size <= x + w
  }

  lemma LeanReaches(lo: real, w: real, crop: real, kind: Kind)
    requires 0.0 <= w <= crop && 0.0 < crop
    ensures var c := lo + w / 2.0 - Lean(kind, w, crop);
      c - crop / 2.0 <= lo && lo + w <= c + crop / 2.0 && c <= lo + w / 2.0
  {
    BiasInRoom(kind, w, crop);
    hide Bias;
    LeaningStillReaches(lo, w, crop, Bias(kind, w, crop));
    NonNegProduct(crop, Bias(kind, w, crop));
  }

  lemma AcrossShown(lo: real, w: real, frame: real, z: real, zz: real, kind: Kind)
    requires frame > 0.0 && 1.0 <= zz <= z && 0.0 <= lo && 0.0 <= w && lo + w <= frame && w * z * FIT_MARGIN <= frame
    ensures frame / z > 0.0
    ensures SpanShown(lo, w, frame, zz, Clamp(lo + w / 2.0 - Lean(kind, w, frame / z), 0.0, frame))
  {
    hide Lean, Clamp, SpanShown;
    SideFitsCrop(w, frame, z);
    CropWidth(frame, z);
    LeanReaches(lo, w, frame / z, kind);
    ClampedSpan(lo, w, frame, z, zz, lo + w / 2.0 - Lean(kind, w, frame / z));
  }

  lemma DownShown(lo: real, h: real, frame: real, z: real, zz: real)
    requires frame > 0.0 && 1.0 <= zz <= z && 0.0 <= lo && 0.0 <= h && lo + h <= frame && h * z * FIT_MARGIN <= frame
    ensures SpanShown(lo, h, frame, zz, Clamp(lo + h / 2.0, 0.0, frame))
  {
    SideFitsCrop(h, frame, z);
    hide Clamp, SpanShown;
    ClampedSpan(lo, h, frame, z, zz, lo + h / 2.0);
  }

  lemma ClampedSpan(lo: real, size: real, frame: real, z: real, zz: real, c: real)
    requires frame > 0.0 && 1.0 <= zz <= z && 0.0 <= lo && 0.0 <= size && lo + size <= frame
    requires c - frame / z / 2.0 <= lo && lo + size <= c + frame / z / 2.0 && c <= lo + size / 2.0
    ensures SpanShown(lo, size, frame, zz, Clamp(c, 0.0, frame))
  {
    ClampedCentreShows(lo, size, frame, z, zz, c);
  }

  lemma WholeFrameShown(lo: real, size: real, frame: real, centre: real)
    requires frame > 0.0 && 0.0 <= lo && 0.0 <= size && lo + size <= frame
    ensures SpanShown(lo, size, frame, 1.0, centre)
  {
    assert frame / 1.0 == frame;
  }

  lemma SpansShow(m: Mark, scale: real, frameW: real, frameH: real, zz: real, cx: real, cy: real)
    requires m.bbox.Some? && zz > 0.0
    requires SpanShown(Pixels(m, scale).x, Pixels(m, scale).w, frameW, zz, cx)
    requires SpanShown(Pixels(m, scale).y, Pixels(m, scale).h, frameH, zz, cy)
    ensures Shows(CropFor(View(zz, cx, cy), frameW, frameH), m, scale)
  {
    hide Pixels;
  }

  /** A target in terms of its box in source pixels. */
  lemma TargetInPixels(m: Mark, scale: real, frameW: real, frameH: real)
    requires Zoomable(m) && frameW > 0.0 && frameH > 0.0
    ensures var p, g := Pixels(m, scale), TargetOf(m, scale, frameW, frameH);
      && g.z == ZoomFor(p.w, p.h, frameW, frameH) && frameW / g.z > 0.0
      && g.cx == Clamp(p.x + p.w / 2.0 - Lean(m.kind, p.w, frameW / g.z), 0.0, frameW)
      && g.cy == Clamp(p.y + p.h / 2.0, 0.0, frameH)
  {
    hide Lean, ZoomFor, Clamp;
  }

  /** A camera at a target's centre, no tighter than the target asked, shows the target's whole box. */
  lemma TargetIsShown(m: Mark, scale: real, frameW: real, frameH: real, zz: real)
    requires Zoomable(m) && frameW > 0.0 && frameH > 0.0 && BoxInFrame(m, scale, frameW, frameH)
    requires 1.0 <= zz <= TargetOf(m, scale, frameW, frameH).z
    ensures var g := TargetOf(m, scale, frameW, frameH); Shows(CropFor(View(zz, g.cx, g.cy), frameW, frameH), m, scale)
  {
    hide TargetOf, Pixels, ZoomFor, Lean, Clamp, SpanShown, Shows, CropFor;
    var g, p := TargetOf(m, scale, frameW, frameH), Pixels(m, scale);
    TargetInPixels(m, scale, frameW, frameH);
    if g.z == 1.0 {
      WholeFrameShown(p.x, p.w, frameW, g.cx);
      WholeFrameShown(p.y, p.h, frameH, g.cy);
    } else {
      ZoomLeavesRoom(p.w, p.h, frameW, frameH);
      AcrossShown(p.x, p.w, frameW, g.z, zz, m.kind);
      DownShown(p.y, p.h, frameH, g.z, zz);
    }
    SpansShow(m, scale, frameW, frameH, zz, g.cx, g.cy);
  }

  // ---- which target an event frames, and when ----

  /** The waypoint is the one that absorbing target k into the event opened by target i made, and
      that target is no looser than z. */
  ghost predicate Reaches(p: Waypoint, ts: seq<Target>, i: nat, k: nat, z: real)
    requires i < k < |ts|
  {
    p == Waypoint(WaypointClock(Grown(ts, i, k), ts[k]), ts[k].cx, ts[k].cy) && z <= ts[k].z
  }

  /** The event opens on target i and every waypoint was made by some later target of its cluster. */
  ghost predicate Traces(ev: Event, ts: seq<Target>, i: nat, j: nat) {
    && i < j <= |ts|
    && ev.t == Max(ts[i].t - LEAD_IN, 0.0) && ev.cx == ts[i].cx && ev.cy == ts[i].cy && ev.z <= ts[i].z
    && forall p :: p in ev.path ==> exists k :: i < k < j && Reaches(p, ts, i, k, ev.z)
  }

  lemma {:induction false} GrownTraces(ts: seq<Target>, i: nat, j: nat)
    requires i < j <= |ts|
    ensures Traces(Grown(ts, i, j), ts, i, j)
  {
    if j > i + 1 {
      GrownTraces(ts, i, j - 1);
      var ev, next := Grown(ts, i, j - 1), ts[j - 1];
      AbsorbTraces(ev, next, ts, i, j);
    }
  }

  lemma AbsorbTraces(ev: Event, next: Target, ts: seq<Target>, i: nat, j: nat)
    requires i + 1 < j <= |ts| && Traces(ev, ts, i, j - 1) && next == ts[j - 1] && ev == Grown(ts, i, j - 1)
    ensures Traces(Absorb(ev, next), ts, i, j)
  {
    hide FarFromStart;
    var r := Absorb(ev, next);
    forall p | p in r.path ensures exists k :: i < k < j && Reaches(p, ts, i, k, r.z) {
      if p in ev.path {
        var k :| i < k < j - 1 && Reaches(p, ts, i, k, ev.z);
        assert Reaches(p, ts, i, k, r.z);
      } else {
        assert Reaches(p, ts, i, j - 1, r.z);
      }
    }
  }

  /** The targets a to b - 1 are one cluster of those from i on. */
  predicate IsCluster(ts: seq<Target>, i: nat, a: nat, b: nat)
    requires i <= |ts|
  {
    a in Boundaries(ts, i) && a < |ts| && b == ClusterEnd(ts, a, a + 1)
  }

  lemma {:induction false} EventsTrace(ts: seq<Target>, i: nat, duration: real, e: nat) returns (a: nat, b: nat)
    requires i <= |ts| && e < |PlanFrom(ts, i, duration).events|
    ensures Traces(PlanFrom(ts, i, duration).events[e], ts, a, b) && IsCluster(ts, i, a, b)
    decreases |ts| - i
  {
    var j := ClusterEnd(ts, i, i + 1);
    var ev := Grown(ts, i, j);
    var one := PlanOne(ev, ts[i], duration).events;
    if e < |one| {
      GrownTraces(ts, i, j);
      KeptSurvive(ev.path, ev.t, one[0].end);
      a, b := i, j;
      assert Boundaries(ts, i)[0] == i;
    } else {
      a, b := EventsTrace(ts, j, duration, e - |one|);
    }
  }

  lemma {:induction false} TargetHasMark(marks: seq<Mark>, scale: real, frameW: real, frameH: real, i: nat) returns (k: nat)
    requires frameW > 0.0 && frameH > 0.0 && i < |TargetsOf(marks, scale, frameW, frameH)|
    ensures k < |marks| && Zoomable(marks[k])
    ensures TargetsOf(marks, scale, frameW, frameH)[i] == TargetOf(marks[k], scale, frameW, frameH)
  {
    var head := marks[..|marks| - 1];
    if i < |TargetsOf(head, scale, frameW, frameH)| {
      k := TargetHasMark(head, scale, frameW, frameH, i);
    } else {
      k := |marks| - 1;
    }
  }

  /** Thinning only forgets waypoints. */
  lemma ThinTraces(evs: seq<Event>, e: nat, ts: seq<Target>, a: nat, b: nat, frameW: real, frameH: real)
    requires e < |evs| && Traces(evs[e], ts, a, b) && Playable(evs[e], frameW, frameH)
    ensures Traces(ThinPaths(evs)[e], ts, a, b)
  {
    var ev, budget := evs[e], BudgetFor(Wanted(evs, PATH_BUDGET));
    ThinPaced(ev.path, budget, ev.t + EASE, frameW, frameH);
    hide Thin, Paced, InFrame, Reaches;
    assert ThinPaths(evs)[e] == ev.(path := Thin(ev.path, budget));
  }

  lemma PlannedTraces(marks: seq<Mark>, scale: real, frameW: real, frameH: real, duration: real, e: nat) returns (a: nat, b: nat)
    requires frameW > 0.0 && frameH > 0.0 && e < |Planned(marks, scale, frameW, frameH, duration).events|
    ensures Traces(Planned(marks, scale, frameW, frameH, duration).events[e], TargetsOf(marks, scale, frameW, frameH), a, b)
    ensures IsCluster(TargetsOf(marks, scale, frameW, frameH), 0, a, b)
  {
    hide IsCluster, Traces, ThinPaths, Sane, Playable, PlanFrom, TargetsOf;
    var ts := TargetsOf(marks, scale, frameW, frameH);
    TargetsSane(marks, scale, frameW, frameH);
    a, b := EventsTrace(ts, 0, duration, e);
    EventsPlayable(ts, 0, duration, frameW, frameH);
    ThinTraces(PlanFrom(ts, 0, duration).events, e, ts, a, b, frameW, frameH);
  }

  /** Inside event e the camera is that event's own. */
  lemma {:induction false} CameraInEvent(evs: seq<Event>, e: nat, t: real, frameW: real, frameH: real)
    requires PlayablePlan(evs, frameW, frameH) && e < |evs| && Covers(evs[e], t)
    ensures FirstCovering(evs, t) == Some(evs[e])
  {
    if e > 0 {
      assert evs[e].t >= evs[0].end + 0.85;
      TailPlayable(evs, frameW, frameH);
      CameraInEvent(evs[1..], e - 1, t, frameW, frameH);
    }
  }

  /** During the hold the camera sits at the pan; at a waypoint's own time it is exactly there. */
  lemma HoldView(evs: seq<Event>, e: nat, t: real, frameW: real, frameH: real)
    requires PlayablePlan(evs, frameW, frameH) && e < |evs| && evs[e].t + EASE <= t <= evs[e].end - EASE
    ensures CameraAt(evs, t, frameW, frameH)
      == View(evs[e].z, Held(evs[e].cx, KnotsX(evs[e]), t), Held(evs[e].cy, KnotsY(evs[e]), t))
  {
    CameraInEvent(evs, e, t, frameW, frameH);
    SortedAlready(evs, frameW, frameH);
    assert Playable(evs[e], frameW, frameH);
    ViewHeld(evs[e], frameW, frameH, t);
    hide ViewIn, KnotsX, KnotsY, FirstCovering, SortByStart, Held, PlayablePlan;
  }

  lemma ViewHeld(ev: Event, frameW: real, frameH: real, t: real)
    requires Playable(ev, frameW, frameH) && frameW > 0.0 && frameH > 0.0 && ev.t + EASE <= t <= ev.end - EASE
    ensures ViewIn(ev, t, frameW, frameH) == View(ev.z, Held(ev.cx, KnotsX(ev), t), Held(ev.cy, KnotsY(ev), t))
  {
    hide Axis, KnotsX, KnotsY, Playable, PanAt;
    LaneHeld(ev, Zoom, frameW, frameH, t);
    LaneHeld(ev, Across, frameW, frameH, t);
    LaneHeld(ev, Down, frameW, frameH, t);
  }

  lemma LaneHeld(ev: Event, lane: Lane, frameW: real, frameH: real, t: real)
    requires Playable(ev, frameW, frameH) && frameW > 0.0 && frameH > 0.0 && ev.t + EASE <= t <= ev.end - EASE
    ensures LaneAxis(ev, lane, frameW, frameH, t) == Held(LaneHold(ev, lane), LaneKnots(ev, lane), t)
  {
    hide Axis, Held;
    var D, M := LaneTame(ev, lane, frameW, frameH);
    AxisPhases(ev, Base(lane, frameW, frameH), LaneHold(ev, lane), LaneKnots(ev, lane), D, M, TopSpeed(lane, frameW, frameH), t);
  }

  /** At its start the pan is at the first centre; at a waypoint's time it is at the waypoint. */
  lemma PanAtWaypoint(ev: Event, value: real, at: Waypoint -> real, span: real, k: nat)
    requires PacedKnots(Knots(ev, value, at), span) && k <= |ev.path|
    ensures k == 0 ==> Held(value, Knots(ev, value, at), ev.t + EASE) == value
    ensures k > 0 ==> Held(value, Knots(ev, value, at), ev.path[k - 1].t) == at(ev.path[k - 1])
  {
    var pts := Knots(ev, value, at);
    if ev.path != [] {
      PanHitsKnot(pts, k, span);
      assert k > 0 ==> pts[k - 1 + 1] == Knot(ev.path[k - 1].t, at(ev.path[k - 1]));
    }
  }

  /** The crop at time t holds the whole box of mark k, and the camera got there no earlier than
      the mark was made minus the lead-in. */
  ghost predicate FramesMark(evs: seq<Event>, t: real, marks: seq<Mark>, k: nat, scale: real, frameW: real, frameH: real) {
    && k < |marks| && Zoomable(marks[k])
    && var c := CameraAt(evs, t, frameW, frameH);
       c.z > 0.0 && Shows(CropFor(c, frameW, frameH), marks[k], scale)
  }

  ghost predicate BoxesInFrame(marks: seq<Mark>, scale: real, frameW: real, frameH: real) {
    forall k :: 0 <= k < |marks| && Zoomable(marks[k]) ==> BoxInFrame(marks[k], scale, frameW, frameH)
  }

  lemma TargetShownFromPlan(marks: seq<Mark>, scale: real, frameW: real, frameH: real, i: nat, zz: real) returns (k: nat)
    requires frameW > 0.0 && frameH > 0.0 && BoxesInFrame(marks, scale, frameW, frameH)
    requires i < |TargetsOf(marks, scale, frameW, frameH)|
    requires 1.0 <= zz <= TargetsOf(marks, scale, frameW, frameH)[i].z
    ensures k < |marks| && Zoomable(marks[k])
    ensures TargetOf(marks[k], scale, frameW, frameH) == TargetsOf(marks, scale, frameW, frameH)[i]
    ensures var g := TargetsOf(marks, scale, frameW, frameH)[i];
      Shows(CropFor(View(zz, g.cx, g.cy), frameW, frameH), marks[k], scale)
  {
    hide Shows, BoxInFrame, CropFor, TargetsOf;
    k := TargetHasMark(marks, scale, frameW, frameH, i);
    TargetIsShown(marks[k], scale, frameW, frameH, zz);
  }

  /** A camera held at a target's centre with the event's zoom frames that target's mark. */
  lemma HeldFrames(marks: seq<Mark>, scale: real, frameW: real, frameH: real, evs: seq<Event>, e: nat, t: real, i: nat) returns (k: nat)
    requires PlayablePlan(evs, frameW, frameH) && BoxesInFrame(marks, scale, frameW, frameH)
    requires e < |evs| && evs[e].t + EASE <= t <= evs[e].end - EASE
    requires i < |TargetsOf(marks, scale, frameW, frameH)|
    requires var g := TargetsOf(marks, scale, frameW, frameH)[i];
      && 1.0 <= evs[e].z <= g.z
      && Held(evs[e].cx, KnotsX(evs[e]), t) == g.cx && Held(evs[e].cy, KnotsY(evs[e]), t) == g.cy
    ensures FramesMark(evs, t, marks, k, scale, frameW, frameH)
    ensures TargetOf(marks[k], scale, frameW, frameH) == TargetsOf(marks, scale, frameW, frameH)[i]
  {
    assert frameW > 0.0 && frameH > 0.0;
    hide Shows, CameraAt, CropFor, TargetsOf, BoxesInFrame, KnotsX, KnotsY, Held;
    k := TargetShownFromPlan(marks, scale, frameW, frameH, i, evs[e].z);
    HoldView(evs, e, t, frameW, frameH);
  }

  lemma ZoomOfPlayable(evs: seq<Event>, e: nat, frameW: real, frameH: real)
    requires PlayablePlan(evs, frameW, frameH) && e < |evs|
    ensures Playable(evs[e], frameW, frameH) && 1.0 <= evs[e].z && evs[e].t + EASE <= evs[e].end - EASE
  {}

  /** When the ease-in ends, an event shows the whole box of the mark that opened its cluster, though
      later merges loosened its zoom; without waypoints it keeps showing it through the whole hold. */
  lemma OpeningMarkIsFramed(marks: seq<Mark>, scale: real, frameW: real, frameH: real, duration: real, e: nat, t: real)
    returns (k: nat, a: nat, b: nat)
    requires frameW > 0.0 && frameH > 0.0 && BoxesInFrame(marks, scale, frameW, frameH)
    requires e < |Planned(marks, scale, frameW, frameH, duration).events|
    requires var ev := Planned(marks, scale, frameW, frameH, duration).events[e];
      ev.t + EASE <= t <= ev.end - EASE && (t == ev.t + EASE || ev.path == [])
    ensures var evs := Planned(marks, scale, frameW, frameH, duration).events;
      var ts := TargetsOf(marks, scale, frameW, frameH);
      && FramesMark(evs, t, marks, k, scale, frameW, frameH)
      && IsCluster(ts, 0, a, b) && TargetOf(marks[k], scale, frameW, frameH) == ts[a]
      && evs[e].t == Max(marks[k].t - LEAD_IN, 0.0) && evs[e].cx == ts[a].cx && evs[e].cy == ts[a].cy
  {
    hide IsCluster, Planned, FramesMark, Playable, TargetsOf, BoxesInFrame, KnotsX, KnotsY, Held, PlayablePlan;
    var evs := Planned(marks, scale, frameW, frameH, duration).events;
    PlannedIsPlayable(marks, scale, frameW, frameH, duration);
    ZoomOfPlayable(evs, e, frameW, frameH);
    a, b := PlannedTraces(marks, scale, frameW, frameH, duration, e);
    if evs[e].path == [] { HoldStill(evs[e], t); } else { HoldAtStart(evs[e], frameW, frameH); }
    k := HeldFrames(marks, scale, frameW, frameH, evs, e, t, a);
  }

  lemma PanReaches(ev: Event, value: real, at: Waypoint -> real, span: real, k: nat)
    requires Paced(ev.path, ev.t + EASE) && 0.0 <= value <= span && k <= |ev.path|
    requires forall j :: 0 <= j < |ev.path| ==> 0.0 <= at(ev.path[j]) <= span
    ensures k == 0 ==> Held(value, Knots(ev, value, at), ev.t + EASE) == value
    ensures k > 0 ==> Held(value, Knots(ev, value, at), ev.path[k - 1].t) == at(ev.path[k - 1])
  {
    hide Held, Knots, PacedKnots, Paced;
    KnotsPaced(ev, value, at, span);
    PanAtWaypoint(ev, value, at, span, k);
  }

  lemma HoldAtStart(ev: Event, frameW: real, frameH: real)
    requires Playable(ev, frameW, frameH)
    ensures Held(ev.cx, KnotsX(ev), ev.t + EASE) == ev.cx && Held(ev.cy, KnotsY(ev), ev.t + EASE) == ev.cy
  {
    hide Held, Paced, Knots;
    PanReaches(ev, ev.cx, (p: Waypoint) => p.x, frameW, 0);
    PanReaches(ev, ev.cy, (p: Waypoint) => p.y, frameH, 0);
  }

  lemma HoldStill(ev: Event, t: real)
    requires ev.path == []
    ensures Held(ev.cx, KnotsX(ev), t) == ev.cx && Held(ev.cy, KnotsY(ev), t) == ev.cy
  {}

  lemma HoldAtWaypoint(ev: Event, frameW: real, frameH: real, w: nat)
    requires Playable(ev, frameW, frameH) && w < |ev.path|
    ensures var p := ev.path[w]; Held(ev.cx, KnotsX(ev), p.t) == p.x && Held(ev.cy, KnotsY(ev), p.t) == p.y
  {
    hide Held, Paced, Knots;
    PanReaches(ev, ev.cx, (p: Waypoint) => p.x, frameW, w + 1);
    PanReaches(ev, ev.cy, (p: Waypoint) => p.y, frameH, w + 1);
  }

  lemma WaypointTarget(ev: Event, ts: seq<Target>, a: nat, b: nat, w: nat) returns (i: nat)
    requires Traces(ev, ts, a, b) && w < |ev.path|
    ensures a < i < b <= |ts| && Reaches(ev.path[w], ts, a, i, ev.z)
  {
    var p := ev.path[w];
    assert p in ev.path;
    i :| a < i < b && Reaches(p, ts, a, i, ev.z);
  }

  /** At each surviving waypoint's own time the crop shows the whole box of that waypoint's own mark:
      the one of its event's cluster whose absorption made the waypoint. */
  lemma WaypointMarkIsFramed(marks: seq<Mark>, scale: real, frameW: real, frameH: real, duration: real, e: nat, w: nat)
    returns (k: nat, a: nat, i: nat, b: nat)
    requires frameW > 0.0 && frameH > 0.0 && BoxesInFrame(marks, scale, frameW, frameH)
    requires e < |Planned(marks, scale, frameW, frameH, duration).events|
    requires w < |Planned(marks, scale, frameW, frameH, duration).events[e].path|
    ensures var evs := Planned(marks, scale, frameW, frameH, duration).events;
      var ts, p := TargetsOf(marks, scale, frameW, frameH), evs[e].path[w];
      && FramesMark(evs, p.t, marks, k, scale, frameW, frameH)
      && IsCluster(ts, 0, a, b) && a < i < b <= |ts| && evs[e].t == Max(ts[a].t - LEAD_IN, 0.0)
      && TargetOf(marks[k], scale, frameW, frameH) == ts[i]
      && p == Waypoint(WaypointClock(Grown(ts, a, i), ts[i]), ts[i].cx, ts[i].cy)
      && marks[k].t <= p.t
  {
    hide IsCluster, Grown, Planned, FramesMark, Playable, TargetsOf, BoxesInFrame, KnotsX, KnotsY, Held, PlayablePlan;
    var evs := Planned(marks, scale, frameW, frameH, duration).events;
    PlannedIsPlayable(marks, scale, frameW, frameH, duration);
    ZoomOfPlayable(evs, e, frameW, frameH);
    a, b := PlannedTraces(marks, scale, frameW, frameH, duration, e);
    i := WaypointTarget(evs[e], TargetsOf(marks, scale, frameW, frameH), a, b, w);
    HoldAtWaypoint(evs[e], frameW, frameH, w);
    WaypointInHold(evs[e], frameW, frameH, w);
    k := HeldFrames(marks, scale, frameW, frameH, evs, e, evs[e].path[w].t, i);
  }

  lemma WaypointInHold(ev: Event, frameW: real, frameH: real, w: nat)
    requires Playable(ev, frameW, frameH) && w < |ev.path|
    ensures ev.t + EASE <= ev.path[w].t <= ev.end - EASE
  {
    assert w > 0 ==> ev.path[w].t >= ev.path[0].t + WAYPOINT_MIN_GAP;
  }

  // ---- thinning as the viewer sees it ----

  /** Between two knots the pan is the straight move between them. */
  lemma {:induction false} PanOnSegment(pts: seq<Knot>, g: nat, t: real, M: real)
    requires PacedKnots(pts, M) && g + 1 < |pts| && pts[g].t < t < pts[g + 1].t
    ensures PanAt(pts, t) == Lerp(pts[g], pts[g + 1], t)
  {
    if g > 0 {
      assert pts[g].t >= pts[1].t;
      PanOnSegment(pts[1..], g - 1, t, M);
    }
  }

  lemma LerpIsStraight(a: Waypoint, b: Waypoint, p: Waypoint, u: real, v: real)
    requires b.t - a.t >= WAYPOINT_MIN_GAP && a.t <= p.t <= b.t
    ensures Lerp(Knot(a.t, u), Knot(b.t, v), p.t) == u + (v - u) * Along(a, b, p)
  {
    var g, d := b.t - a.t, p.t - a.t;
    var q := d / g;
    assert q * g == d;
    NonNegFactor(q, g);
    assert (1.0 - q) * g == g - d;
    NonNegFactor(1.0 - q, g);
  }

  lemma KnotPair(ev: Event, value: real, at: Waypoint -> real, g: nat)
    requires 0 < g < |ev.path|
    ensures var pts := Knots(ev, value, at);
      && g + 1 < |pts| && pts[g] == Knot(ev.path[g - 1].t, at(ev.path[g - 1])) && pts[g + 1] == Knot(ev.path[g].t, at(ev.path[g]))
  {
    assert Knots(ev, value, at)[g - 1 + 1] == Knot(ev.path[g - 1].t, at(ev.path[g - 1]));
  }

  lemma PacedPair(path: seq<Waypoint>, start: real, g: nat)
    requires Paced(path, start) && 0 < g < |path|
    ensures path[g].t >= path[g - 1].t + WAYPOINT_MIN_GAP
  {}

  lemma AxisClose(ev: Event, value: real, at: Waypoint -> real, span: real, g: nat, p: Waypoint)
    requires Paced(ev.path, ev.t + EASE) && 0.0 <= value <= span
    requires forall k :: 0 <= k < |ev.path| ==> 0.0 <= at(ev.path[k]) <= span
    requires 0 < g < |ev.path| && ev.path[g - 1].t < p.t < ev.path[g].t
    ensures var a, b := ev.path[g - 1], ev.path[g];
      PanAt(Knots(ev, value, at), p.t) == at(a) + (at(b) - at(a)) * Along(a, b, p)
  {
    hide Knots, Along, Lerp, PacedKnots, PanAt, Paced;
    PacedPair(ev.path, ev.t + EASE, g);
    KnotsPaced(ev, value, at, span);
    KnotPair(ev, value, at, g);
    PanOnSegment(Knots(ev, value, at), g, p.t, span);
    LerpIsStraight(ev.path[g - 1], ev.path[g], p, at(ev.path[g - 1]), at(ev.path[g]));
  }

  lemma DroppedBetween(path: seq<Waypoint>, budget: nat, from: real, g: nat, k: nat)
    requires 2 <= budget < |path| && Paced(path, from)
    requires var keep := ThinKeep(path, budget); |keep| < budget && 0 < g < |keep| && keep[g - 1] < k < keep[g]
    ensures var r := Thin(path, budget);
      && g < |r| && r[g - 1].t < path[k].t < r[g].t && Error(r[g - 1], r[g], path[k]) <= 1.0
  {
    hide Error;
    var keep := ThinKeep(path, budget);
    ThinKeepsTheShape(path, budget);
    hide Thin;
    assert Straight(path, keep, |keep| - 1);
    assert Thin(path, budget)[g - 1] == path[keep[g - 1]] && Thin(path, budget)[g] == path[keep[g]];
  }

  /** When thinning stopped below its budget, the thinned pan passes within one pixel of every
      waypoint it dropped, at that waypoint's own time. */
  lemma ThinnedPanIsClose(ev: Event, budget: nat, frameW: real, frameH: real, g: nat, k: nat)
    requires 2 <= budget < |ev.path| && Paced(ev.path, ev.t + EASE) && InFrame(ev.path, frameW, frameH)
    requires 0.0 <= ev.cx <= frameW && 0.0 <= ev.cy <= frameH
    requires var keep := ThinKeep(ev.path, budget);
      |keep| < budget && 0 < g < |keep| && keep[g - 1] < k < keep[g]
    ensures var tv, p := ev.(path := Thin(ev.path, budget)), ev.path[k];
      var dx, dy := PanAt(KnotsX(tv), p.t) - p.x, PanAt(KnotsY(tv), p.t) - p.y;
      dx * dx + dy * dy <= 1.0
  {
    hide Thin, ThinKeep, Error, Along, PanAt, Knots, Paced;
    var r, p := Thin(ev.path, budget), ev.path[k];
    var tv := ev.(path := r);
    DroppedBetween(ev.path, budget, ev.t + EASE, g, k);
    ThinPaced(ev.path, budget, ev.t + EASE, frameW, frameH);
    AxisClose(tv, tv.cx, (q: Waypoint) => q.x, frameW, g, p);
    AxisClose(tv, tv.cy, (q: Waypoint) => q.y, frameH, g, p);
    ErrorIs(r[g - 1], r[g], p);
  }

  lemma ErrorIs(a: Waypoint, b: Waypoint, p: Waypoint)
    ensures var f := Along(a, b, p); var ex, ey := a.x + (b.x - a.x) * f - p.x, a.y + (b.y - a.y) * f - p.y;
      Error(a, b, p) == ex * ex + ey * ey
  {}
}
