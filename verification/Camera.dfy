/** Sampling the camera of a plan, the crop it implies, and how fast it may move. */
module Camera {
  import opened Wrappers
  import opened Reals
  import opened Planner
  import opened PlannerFacts
  import opened Thinning

  datatype View = View(z: real, cx: real, cy: real)

  datatype Crop = Crop(x: real, y: real, w: real, h: real)

  /** One axis of a pan: the clock and the value it reaches. */
  datatype Knot = Knot(t: real, v: real)

  // ---- the sampler ----

  function InsertByStart(ev: Event, evs: seq<Event>): seq<Event> {
    if evs == [] || ev.t <= evs[0].t then [ev] + evs else [evs[0]] + InsertByStart(ev, evs[1..])
  }

  /** A stable ascending sort on the start time. */
  function SortByStart(evs: seq<Event>): seq<Event> {
    if evs == [] then [] else InsertByStart(evs[0], SortByStart(evs[1..]))
  }

  predicate Covers(ev: Event, t: real) { ev.t <= t <= ev.end }

  function FirstCovering(evs: seq<Event>, t: real): (r: Option<Event>)
    ensures r.Some? ==> r.value in evs && Covers(r.value, t)
    ensures r.None? ==> forall ev :: ev in evs ==> !Covers(ev, t)
  {
    if evs == [] then None
    else if Covers(evs[0], t) then Some(evs[0])
    else FirstCovering(evs[1..], t)
  }

  /** How much of a move of length `span` from `start` is behind us. */
  function Share(start: real, span: real, t: real): real
    requires span > 0.0
  {
    Clamp((t - start) / span, 0.0, 1.0)
  }

  function Mix(v: real, move: real, share: real): real { v + move * share }

  /** The straight move from one knot to the next, held at both ends. */
  function Lerp(p: Knot, q: Knot, t: real): real {
    Mix(p.v, q.v - p.v, Share(p.t, Max(q.t - p.t, 0.001), t))
  }

  /** The straight-line pan through the knots, from knot 0. */
  function PanAt(pts: seq<Knot>, t: real): real
    requires pts != []
  {
    if |pts| == 1 then pts[0].v
    else if t < pts[1].t then Lerp(pts[0], pts[1], t)
    else PanAt(pts[1..], t)
  }

  /** One axis of the camera inside an event; no knots means a still hold. */
  function Axis(ev: Event, base: real, value: real, pts: seq<Knot>, t: real): real {
    var easeInEnd, easeOutStart := ev.t + EASE, ev.end - EASE;
    if t < easeInEnd then
      var first := if pts != [] then pts[0].v else value;
      base + (first - base) * Smoothstep((t - ev.t) / EASE)
    else if t < easeOutStart then
      if pts == [] then value else PanAt(pts, t)
    else
      var last := if pts != [] then pts[|pts| - 1].v else value;
      last + (base - last) * Smoothstep((t - easeOutStart) / EASE)
  }

  /** The knots of one axis: the first centre where the ease-in lands, then the waypoints. */
  function Knots(ev: Event, value: real, at: Waypoint -> real): (r: seq<Knot>)
    ensures |r| == if ev.path == [] then 0 else |ev.path| + 1
    ensures ev.path != [] ==> r[0] == Knot(ev.t + EASE, value)
    ensures forall k :: 0 <= k < |ev.path| ==> r[k + 1] == Knot(ev.path[k].t, at(ev.path[k]))
  {
    if ev.path == [] then [] else
      [Knot(ev.t + EASE, value)]
      + seq(|ev.path|, k requires 0 <= k < |ev.path| => Knot(ev.path[k].t, at(ev.path[k])))
  }

  function KnotsX(ev: Event): seq<Knot> { Knots(ev, ev.cx, (p: Waypoint) => p.x) }

  function KnotsY(ev: Event): seq<Knot> { Knots(ev, ev.cy, (p: Waypoint) => p.y) }

  function ViewIn(ev: Event, t: real, frameW: real, frameH: real): View {
    View(Axis(ev, 1.0, ev.z, [], t),
         Axis(ev, frameW / 2.0, ev.cx, KnotsX(ev), t),
         Axis(ev, frameH / 2.0, ev.cy, KnotsY(ev), t))
  }

  function Wide(frameW: real, frameH: real): View { View(1.0, frameW / 2.0, frameH / 2.0) }

  function CameraAt(evs: seq<Event>, t: real, frameW: real, frameH: real): View {
    var ev := FirstCovering(SortByStart(evs), t);
    if ev.None? then Wide(frameW, frameH) else ViewIn(ev.value, t, frameW, frameH)
  }

  function CropFor(camera: View, frameW: real, frameH: real): Crop
    requires camera.z > 0.0
  {
    var w, h := frameW / camera.z, frameH / camera.z;
    Crop(Clamp(camera.cx - w / 2.0, 0.0, frameW - w), Clamp(camera.cy - h / 2.0, 0.0, frameH - h), w, h)
  }

  /** How far into its zoom the timeline draws an event at t. */
  function DrawnProgress(e: Event, t: real): real {
    if t < e.t + EASE then (t - e.t) / EASE
    else if t > e.end - EASE then 1.0 - (t - (e.end - EASE)) / EASE
    else 1.0
  }

  function DrawnIn(e: Event, t: real): real {
    var c := Max(0.0, Min(DrawnProgress(e, t), 1.0));
    1.0 + (e.z - 1.0) * (c * c * (3.0 - 2.0 * c))
  }

  /** The zoom the timeline draws, which is written out again there rather than sampled. */
  function DrawnZoom(evs: seq<Event>, t: real): real {
    var ev := FirstCovering(evs, t);
    if ev.None? then 1.0 else DrawnIn(ev.value, t)
  }

  // ---- sorting a plan changes nothing ----

  ghost predicate PlayablePlan(evs: seq<Event>, frameW: real, frameH: real) {
    && frameW > 0.0 && frameH > 0.0
    && Separated(evs)
    && forall k :: 0 <= k < |evs| ==> Playable(evs[k], frameW, frameH)
  }

  /** Every plan, for any marks and any take length, is one the sampler can play. */
  lemma PlannedIsPlayable(marks: seq<Mark>, scale: real, frameW: real, frameH: real, duration: real)
    requires frameW > 0.0 && frameH > 0.0
    ensures PlayablePlan(Planned(marks, scale, frameW, frameH, duration).events, frameW, frameH)
  {
    hide Paced, InFrame, Thin;
    var ts := TargetsOf(marks, scale, frameW, frameH);
    TargetsSane(marks, scale, frameW, frameH);
    EventsSeparated(ts, 0, duration);
    EventsPlayable(ts, 0, duration, frameW, frameH);
    var raw := PlanFrom(ts, 0, duration).events;
    var evs := ThinPaths(raw);
    forall k | 0 <= k < |evs| ensures Playable(evs[k], frameW, frameH) {
      ThinPaced(raw[k].path, BudgetFor(Wanted(raw, PATH_BUDGET)), raw[k].t + EASE, frameW, frameH);
    }
  }

  lemma TailPlayable(evs: seq<Event>, frameW: real, frameH: real)
    requires PlayablePlan(evs, frameW, frameH) && evs != []
    ensures PlayablePlan(evs[1..], frameW, frameH)
  {}

  lemma {:induction false} SortedAlready(evs: seq<Event>, frameW: real, frameH: real)
    requires PlayablePlan(evs, frameW, frameH)
    ensures SortByStart(evs) == evs
  {
    if evs != [] {
      TailPlayable(evs, frameW, frameH);
      SortedAlready(evs[1..], frameW, frameH);
      if |evs| > 1 {
        assert evs[1].t >= evs[0].end + 0.85;
        assert evs[1..][0] == evs[1];
      }
    }
  }

  /** At most one event of a plan covers any moment. */
  lemma OneEventAtATime(evs: seq<Event>, t: real, frameW: real, frameH: real, a: nat, b: nat)
    requires PlayablePlan(evs, frameW, frameH)
    requires a < b < |evs| && Covers(evs[a], t)
    ensures !Covers(evs[b], t)
  {}

  lemma DrawnForm(e: Event, t: real)
    ensures DrawnIn(e, t) == 1.0 + (e.z - 1.0) * Smoothstep(DrawnProgress(e, t))
  {
    var p := DrawnProgress(e, t);
    assert Max(0.0, Min(p, 1.0)) == Clamp(p, 0.0, 1.0);
  }

  lemma EaseOutForm(z: real, q: real)
    ensures z + (1.0 - z) * Smoothstep(q) == 1.0 + (z - 1.0) * Smoothstep(1.0 - q)
  {
    SmoothstepMirror(q);
    var r := Smoothstep(q);
    assert z + (1.0 - z) * r == 1.0 + (z - 1.0) * (1.0 - r);
  }

  lemma DrawnInEvent(e: Event, t: real)
    requires e.end - e.t >= MIN_EVENT
    ensures DrawnIn(e, t) == Axis(e, 1.0, e.z, [], t)
  {
    DrawnForm(e, t);
    SmoothstepEnds();
    hide DrawnIn, Smoothstep;
    if t >= e.end - EASE {
      var q := (t - (e.end - EASE)) / EASE;
      EaseOutForm(e.z, q);
      assert t == e.end - EASE ==> q == 0.0;
      assert DrawnProgress(e, t) == 1.0 - q;
    }
  }

  lemma FirstIsPlayable(evs: seq<Event>, t: real, frameW: real, frameH: real)
    requires PlayablePlan(evs, frameW, frameH)
    ensures FirstCovering(evs, t).Some? ==> Playable(FirstCovering(evs, t).value, frameW, frameH)
  {}

  /** The timeline's own formula draws exactly the sampled zoom, at every moment. */
  lemma DrawnZoomIsSampledZoom(evs: seq<Event>, t: real, frameW: real, frameH: real)
    requires PlayablePlan(evs, frameW, frameH)
    ensures DrawnZoom(evs, t) == CameraAt(evs, t, frameW, frameH).z
  {
    SortedAlready(evs, frameW, frameH);
    FirstIsPlayable(evs, t, frameW, frameH);
    var ev := FirstCovering(evs, t);
    if ev.Some? {
      DrawnInEvent(ev.value, t);
      assert CameraAt(evs, t, frameW, frameH) == ViewIn(ev.value, t, frameW, frameH);
    }
  }
}
