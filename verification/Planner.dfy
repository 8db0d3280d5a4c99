/** The zoom planner: interaction marks in, zoom events with pan waypoints out. */
module Planner {
  import opened Wrappers
  import opened Reals

  const EASE := 0.7
  const HOLD_AFTER := 2.1
  const LEAD_IN := 0.45
  const TAIL_MARGIN := 0.05
  const MAX_TAIL_PAD := HOLD_AFTER + EASE
  const LEFT_BIAS_TYPE := 0.18
  const LEFT_BIAS_CLICK := 0.12
  const KEEP_IN_FRAME := 0.06
  const FIT_MARGIN := 1.15
  const MERGE_GAP := 1.3
  const WAYPOINT_MIN_GAP := 0.04
  const MIN_EVENT := 2.0 * EASE + 0.15
  const CFR_PAD := 0.4

  datatype Kind = Click | Type | Navigate | Scroll | Wait | Note

  /** A bounding box in CSS pixels. */
  datatype Box = Box(x: real, y: real, w: real, h: real)

  datatype Mark = Mark(t: real, kind: Kind, name: string, bbox: Option<Box>)

  /** Where one boxed interaction wants the camera. */
  datatype Target = Target(t: real, cx: real, cy: real, z: real)

  datatype Waypoint = Waypoint(t: real, x: real, y: real)

  datatype Event = Event(t: real, end: real, cx: real, cy: real, z: real, path: seq<Waypoint>)

  datatype Warning = WaypointsDropped(t: real, count: nat) | TooCloseToEnd(t: real, duration: real)

  datatype Plan = Plan(events: seq<Event>, warnings: seq<Warning>)

  predicate Zoomable(m: Mark) {
    (m.kind.Click? || m.kind.Type?) && m.bbox.Some?
  }

  // ---- one target ----

  /** A zoom bounded so that `side` fits the frame; a zero side gives an infinite quotient. */
  function Fit(ladder: real, frame: real, side: real): real {
    if side == 0.0 then ladder else Min(ladder, frame / (side * FIT_MARGIN))
  }

  function Ladder(boxH: real, frameH: real): real {
    if boxH > frameH * 0.45 then 1.5 else if boxH > frameH * 0.25 then 1.7 else 1.85
  }

  function ZoomFor(w: real, h: real, frameW: real, frameH: real): (z: real)
    ensures 1.0 <= z <= 1.85
  {
    Max(Fit(Fit(Ladder(h, frameH), frameW, w), frameH, h), 1.0)
  }

  /** How far left of the target the crop is centred, as a share of the crop's width. */
  function Bias(kind: Kind, w: real, cropW: real): real
    requires cropW > 0.0
  {
    var want := if kind.Type? then LEFT_BIAS_TYPE else LEFT_BIAS_CLICK;
    Min(want, Max(0.5 - w / 2.0 / cropW - KEEP_IN_FRAME, 0.0))
  }

  function Lean(kind: Kind, w: real, cropW: real): real
    requires cropW > 0.0
  {
    cropW * Bias(kind, w, cropW)
  }

  /** The middle of a side, in source pixels. */
  function Middle(at: real, size: real, scale: real): real { (at + size / 2.0) * scale }

  function TargetOf(m: Mark, scale: real, frameW: real, frameH: real): (r: Target)
    requires Zoomable(m) && frameW > 0.0 && frameH > 0.0
    ensures r.t == m.t && 1.0 <= r.z <= 1.85
    ensures 0.0 <= r.cx <= frameW && 0.0 <= r.cy <= frameH
  {
    var b := m.bbox.value;
    var z := ZoomFor(b.w * scale, b.h * scale, frameW, frameH);
    var cx := Middle(b.x, b.w, scale) - Lean(m.kind, b.w * scale, frameW / z);
    Target(m.t, Clamp(cx, 0.0, frameW), Clamp(Middle(b.y, b.h, scale), 0.0, frameH), z)
  }

  function TargetsOf(marks: seq<Mark>, scale: real, frameW: real, frameH: real): seq<Target>
    requires frameW > 0.0 && frameH > 0.0
  {
    if marks == [] then [] else
      var m := marks[|marks| - 1];
      TargetsOf(marks[..|marks| - 1], scale, frameW, frameH)
      + if Zoomable(m) then [TargetOf(m, scale, frameW, frameH)] else []
  }

  // ---- merging targets into an event ----

  function Open(first: Target): Event {
    Event(Max(first.t - LEAD_IN, 0.0), first.t + HOLD_AFTER, first.cx, first.cy, first.z, [])
  }

  /** The clock of the last waypoint, or of the moment the ease-in delivers the first centre. */
  function PanClock(ev: Event): real {
    if ev.path == [] then ev.t + EASE else ev.path[|ev.path| - 1].t
  }

  /** Distance is from the event's FIRST centre: ev.cx and ev.cy never move while merging. */
  predicate FarFromStart(ev: Event, next: Target) {
    (next.cx - ev.cx) * (next.cx - ev.cx) + (next.cy - ev.cy) * (next.cy - ev.cy) > 36.0
  }

  function WaypointClock(ev: Event, next: Target): real {
    Max(next.t, PanClock(ev) + WAYPOINT_MIN_GAP)
  }

  function Absorb(ev: Event, next: Target): Event {
    var wpT := WaypointClock(ev, next);
    ev.(path := if FarFromStart(ev, next) then ev.path + [Waypoint(wpT, next.cx, next.cy)] else ev.path,
        end := wpT + HOLD_AFTER,
        z := Min(ev.z, next.z))
  }

  /** The event opened by target i after absorbing every target before j. */
  function Grown(ts: seq<Target>, i: nat, j: nat): Event
    requires i < j <= |ts|
  {
    if j == i + 1 then Open(ts[i]) else Absorb(Grown(ts, i, j - 1), ts[j - 1])
  }

  /** The first target from j on that the event opened by i does not absorb. */
  function ClusterEnd(ts: seq<Target>, i: nat, j: nat): (e: nat)
    requires i < j <= |ts|
    ensures j <= e <= |ts|
    decreases |ts| - j
  {
    if j < |ts| && ts[j].t < Grown(ts, i, j).end + MERGE_GAP then ClusterEnd(ts, i, j + 1) else j
  }

  // ---- closing an event against the end of the take ----

  predicate Surviving(p: Waypoint, t: real, end: real) { t + EASE < p.t < end - EASE }

  function Kept(path: seq<Waypoint>, t: real, end: real): (r: seq<Waypoint>)
    ensures |r| <= |path|
  {
    if path == [] then [] else
      (if Surviving(path[0], t, end) then [path[0]] else []) + Kept(path[1..], t, end)
  }

  function Closed(ev: Event, duration: real): Event {
    var end := Min(ev.end, duration - TAIL_MARGIN);
    ev.(end := end, path := Kept(ev.path, ev.t, end))
  }

  function PlanOne(grown: Event, first: Target, duration: real): Plan {
    var ev := Closed(grown, duration);
    var lost := if |ev.path| < |grown.path| then [WaypointsDropped(first.t, |grown.path| - |ev.path|)] else [];
    if ev.end - ev.t >= MIN_EVENT
    then Plan([ev], lost)
    else Plan([], lost + [TooCloseToEnd(first.t, duration)])
  }

  function Join(a: Plan, b: Plan): Plan {
    Plan(a.events + b.events, a.warnings + b.warnings)
  }

  function PlanFrom(ts: seq<Target>, i: nat, duration: real): Plan
    requires i <= |ts|
    decreases |ts| - i
  {
    if i == |ts| then Plan([], []) else
      var j := ClusterEnd(ts, i, i + 1);
      Join(PlanOne(Grown(ts, i, j), ts[i], duration), PlanFrom(ts, j, duration))
  }

  // ---- the loops of the planner, against the functions above ----

  method CollectTargets(marks: seq<Mark>, scale: real, frameW: real, frameH: real) returns (targets: seq<Target>)
    requires frameW > 0.0 && frameH > 0.0
    ensures targets == TargetsOf(marks, scale, frameW, frameH)
  {
    targets := [];
    for k := 0 to |marks|
      invariant targets == TargetsOf(marks[..k], scale, frameW, frameH)
    {
      assert marks[..k + 1][..k] == marks[..k];
      if Zoomable(marks[k]) {
        targets := targets + [TargetOf(marks[k], scale, frameW, frameH)];
      }
    }
    assert marks[..|marks|] == marks;
  }

  /** The inner loop: one event swallows every target that arrives before it has rested. */
  method GrowEvent(targets: seq<Target>, i: nat) returns (ev: Event, j: nat)
    requires i < |targets|
    ensures j == ClusterEnd(targets, i, i + 1) && ev == Grown(targets, i, j)
  {
    hide FarFromStart, WaypointClock;
    var first := targets[i];
    ev := Event(Max(first.t - LEAD_IN, 0.0), first.t + HOLD_AFTER, first.cx, first.cy, first.z, []);
    j := i + 1;
    while j < |targets| && targets[j].t < ev.end + MERGE_GAP
      invariant i < j <= |targets|
      invariant ev == Grown(targets, i, j)
      invariant ClusterEnd(targets, i, i + 1) == ClusterEnd(targets, i, j)
    {
      var next := targets[j];
      var wpT := WaypointClock(ev, next);
      if FarFromStart(ev, next) {
        ev := ev.(path := ev.path + [Waypoint(wpT, next.cx, next.cy)]);
      }
      ev := ev.(end := wpT + HOLD_AFTER, z := Min(ev.z, next.z));
      j := j + 1;
    }
  }

  method MergeTargets(targets: seq<Target>, duration: real) returns (plan: Plan)
    ensures plan == PlanFrom(targets, 0, duration)
  {
    plan := Plan([], []);
    var i := 0;
    while i < |targets|
      invariant 0 <= i <= |targets|
      invariant Join(plan, PlanFrom(targets, i, duration)) == PlanFrom(targets, 0, duration)
    {
      var first := targets[i];
      var grown, j := GrowEvent(targets, i);
      var end := Min(grown.end, duration - TAIL_MARGIN);
      var ev := grown.(end := end, path := Kept(grown.path, grown.t, end));
      var one := Plan([], []);
      if |ev.path| < |grown.path| {
        one := one.(warnings := [WaypointsDropped(first.t, |grown.path| - |ev.path|)]);
      }
      if ev.end - ev.t >= MIN_EVENT {
        one := one.(events := [ev]);
      } else {
        one := one.(warnings := one.warnings + [TooCloseToEnd(first.t, duration)]);
      }
      assert one == PlanOne(grown, first, duration);
      JoinAssociates(plan, one, PlanFrom(targets, j, duration));
      plan := Join(plan, one);
      i := j;
    }
    assert Join(plan, Plan([], [])) == plan;
  }

  lemma JoinAssociates(a: Plan, b: Plan, c: Plan)
    ensures Join(Join(a, b), c) == Join(a, Join(b, c))
  {}

  // ---- the length of the take ----

  function LastBoxed(marks: seq<Mark>): (r: Option<real>)
  {
    if marks == [] then None else
      var m := marks[|marks| - 1];
      var rest := LastBoxed(marks[..|marks| - 1]);
      if !Zoomable(m) then rest else if rest.None? then Some(m.t) else Some(Max(rest.value, m.t))
  }

  method DurationFor(marks: seq<Mark>, scriptEnd: real) returns (duration: real)
    ensures duration == TakeLength(marks, scriptEnd)
  {
    var rawEnd := scriptEnd + CFR_PAD;
    var last: Option<real> := None;
    for k := 0 to |marks|
      invariant last == LastBoxed(marks[..k])
    {
      assert marks[..k + 1][..k] == marks[..k];
      if Zoomable(marks[k]) {
        last := Some(if last.None? then marks[k].t else Max(last.value, marks[k].t));
      }
    }
    assert marks[..|marks|] == marks;
    var pad := if last.Some? then Clamp(last.value + HOLD_AFTER + TAIL_MARGIN - rawEnd, 0.0, MAX_TAIL_PAD) else 0.0;
    duration := rawEnd + pad;
  }

  function TakeLength(marks: seq<Mark>, scriptEnd: real): real {
    var rawEnd := scriptEnd + CFR_PAD;
    var last := LastBoxed(marks);
    rawEnd + if last.Some? then Clamp(last.value + HOLD_AFTER + TAIL_MARGIN - rawEnd, 0.0, MAX_TAIL_PAD) else 0.0
  }
}
