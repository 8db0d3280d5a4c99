/** What every plan guarantees: spacing, path geometry, and that no interaction is lost. */
module PlannerFacts {
  import opened Reals
  import opened Planner

  // ---- clusters ----

  /** A cluster stops only at a target that waited out the whole hold plus the merge gap. */
  lemma {:induction false} ClusterStops(ts: seq<Target>, i: nat, j: nat)
    requires i < j <= |ts|
    ensures var e := ClusterEnd(ts, i, j); e < |ts| ==> ts[e].t >= Grown(ts, i, e).end + MERGE_GAP
    decreases |ts| - j
  {
    if j < |ts| && ts[j].t < Grown(ts, i, j).end + MERGE_GAP {
      ClusterStops(ts, i, j + 1);
    }
  }

  /** The opening time and centre survive merging; the rest never falls short of the opener's hold. */
  lemma {:induction false} GrownShape(ts: seq<Target>, i: nat, j: nat)
    requires i < j <= |ts|
    ensures var ev := Grown(ts, i, j);
      && ev.t == Max(ts[i].t - LEAD_IN, 0.0) && ev.cx == ts[i].cx && ev.cy == ts[i].cy
      && ev.end >= ts[i].t + HOLD_AFTER
      && PanClock(ev) >= ev.t + EASE
  {
    if j > i + 1 { GrownShape(ts, i, j - 1); }
  }

  // ---- separation ----

  ghost predicate Separated(evs: seq<Event>) {
    forall a, b :: 0 <= a < b < |evs| ==> evs[b].t >= evs[a].end + 0.85
  }

  /** Events start in order and rest at least 0.85s apart, for every list of targets and every take length. */
  lemma {:induction false} EventsSeparated(ts: seq<Target>, i: nat, duration: real)
    requires i <= |ts|
    ensures Separated(PlanFrom(ts, i, duration).events)
    ensures forall k :: 0 <= k < |PlanFrom(ts, i, duration).events| ==>
      i < |ts| && PlanFrom(ts, i, duration).events[k].t >= ts[i].t - LEAD_IN
    decreases |ts| - i
  {
    if i < |ts| {
      var j := ClusterEnd(ts, i, i + 1);
      EventsSeparated(ts, j, duration);
      ClusterStops(ts, i, i + 1);
      GrownShape(ts, i, j);
    }
  }

  // ---- path geometry ----

  /** Waypoints leave `from` in steps of at least the minimum gap. */
  ghost predicate Paced(path: seq<Waypoint>, from: real) {
    && (path != [] ==> path[0].t >= from + WAYPOINT_MIN_GAP)
    && forall a, b :: 0 <= a < b < |path| ==> path[b].t >= path[a].t + WAYPOINT_MIN_GAP
  }

  ghost predicate InFrame(path: seq<Waypoint>, frameW: real, frameH: real) {
    forall k :: 0 <= k < |path| ==> 0.0 <= path[k].x <= frameW && 0.0 <= path[k].y <= frameH
  }

  /** What the sampler needs of an event. */
  ghost predicate Playable(ev: Event, frameW: real, frameH: real) {
    && ev.end - ev.t >= MIN_EVENT
    && 1.0 <= ev.z <= 1.85
    && 0.0 <= ev.cx <= frameW && 0.0 <= ev.cy <= frameH
    && Paced(ev.path, ev.t + EASE)
    && InFrame(ev.path, frameW, frameH)
    && forall k :: 0 <= k < |ev.path| ==> ev.path[k].t < ev.end - EASE
  }

  ghost predicate Sane(ts: seq<Target>, frameW: real, frameH: real) {
    forall k :: 0 <= k < |ts| ==>
      1.0 <= ts[k].z <= 1.85 && 0.0 <= ts[k].cx <= frameW && 0.0 <= ts[k].cy <= frameH
  }

  lemma {:induction false} TargetsSane(marks: seq<Mark>, scale: real, frameW: real, frameH: real)
    requires frameW > 0.0 && frameH > 0.0
    ensures Sane(TargetsOf(marks, scale, frameW, frameH), frameW, frameH)
  {
    if marks != [] { TargetsSane(marks[..|marks| - 1], scale, frameW, frameH); }
  }

  lemma AbsorbPaced(ev: Event, next: Target, frameW: real, frameH: real)
    requires Paced(ev.path, ev.t + EASE) && InFrame(ev.path, frameW, frameH) && 1.0 <= ev.z <= 1.85
    requires forall k :: 0 <= k < |ev.path| ==> ev.path[k].t <= PanClock(ev)
    requires 1.0 <= next.z <= 1.85 && 0.0 <= next.cx <= frameW && 0.0 <= next.cy <= frameH
    ensures var r := Absorb(ev, next);
      && Paced(r.path, r.t + EASE) && InFrame(r.path, frameW, frameH) && 1.0 <= r.z <= 1.85
      && forall k :: 0 <= k < |r.path| ==> r.path[k].t <= PanClock(r)
  {
    hide FarFromStart;
  }

  lemma {:induction false} GrownPaced(ts: seq<Target>, i: nat, j: nat, frameW: real, frameH: real)
    requires i < j <= |ts| && Sane(ts, frameW, frameH)
    ensures var ev := Grown(ts, i, j);
      && Paced(ev.path, ev.t + EASE) && InFrame(ev.path, frameW, frameH) && 1.0 <= ev.z <= 1.85
      && forall k :: 0 <= k < |ev.path| ==> ev.path[k].t <= PanClock(ev)
  {
    if j > i + 1 {
      GrownPaced(ts, i, j - 1, frameW, frameH);
      GrownShape(ts, i, j - 1);
      AbsorbPaced(Grown(ts, i, j - 1), ts[j - 1], frameW, frameH);
    }
  }

  lemma {:induction false} KeptPaced(path: seq<Waypoint>, t: real, end: real, from: real)
    requires Paced(path, from)
    ensures Paced(Kept(path, t, end), from)
  {
    if path != [] {
      var rest := path[1..];
      assert Paced(rest, path[0].t) by {
        assert forall a :: 0 <= a < |rest| ==> rest[a] == path[a + 1];
      }
      KeptPaced(rest, t, end, path[0].t);
      PacedCons(path[0], Kept(rest, t, end), from);
    }
  }

  lemma PacedCons(p: Waypoint, rest: seq<Waypoint>, from: real)
    requires p.t >= from + WAYPOINT_MIN_GAP && Paced(rest, p.t)
    ensures Paced([p] + rest, from) && Paced(rest, from)
  {
    var all := [p] + rest;
    forall a, b | 0 <= a < b < |all| ensures all[b].t >= all[a].t + WAYPOINT_MIN_GAP {
      if a == 0 {
        if b > 1 { assert rest[b - 1].t >= rest[0].t + WAYPOINT_MIN_GAP; }
      } else {
        assert all[a] == rest[a - 1] && all[b] == rest[b - 1];
      }
    }
  }

  lemma {:induction false} KeptSurvive(path: seq<Waypoint>, t: real, end: real)
    ensures forall k :: 0 <= k < |Kept(path, t, end)| ==>
      Surviving(Kept(path, t, end)[k], t, end) && Kept(path, t, end)[k] in path
  {
    if path != [] { KeptSurvive(path[1..], t, end); }
  }

  lemma ClosedPath(ev: Event, duration: real, frameW: real, frameH: real)
    requires Paced(ev.path, ev.t + EASE) && InFrame(ev.path, frameW, frameH)
    ensures var c := Closed(ev, duration);
      && Paced(c.path, c.t + EASE) && InFrame(c.path, frameW, frameH)
      && forall k :: 0 <= k < |c.path| ==> c.path[k].t < c.end - EASE
  {
    var end := Closed(ev, duration).end;
    KeptPaced(ev.path, ev.t, end, ev.t + EASE);
    KeptSurvive(ev.path, ev.t, end);
  }

  lemma {:induction false} EventsPlayable(ts: seq<Target>, i: nat, duration: real, frameW: real, frameH: real)
    requires i <= |ts| && Sane(ts, frameW, frameH)
    ensures forall k :: 0 <= k < |PlanFrom(ts, i, duration).events| ==>
      Playable(PlanFrom(ts, i, duration).events[k], frameW, frameH)
    decreases |ts| - i
  {
    if i < |ts| {
      var j := ClusterEnd(ts, i, i + 1);
      EventsPlayable(ts, j, duration, frameW, frameH);
      var ev := Grown(ts, i, j);
      GrownShape(ts, i, j);
      GrownPaced(ts, i, j, frameW, frameH);
      ClosedPath(ev, duration, frameW, frameH);
    }
  }

  // ---- nothing is lost ----

  /** Interactions in order from time 0, never closer together than a waypoint gap. */
  ghost predicate Spaced(ts: seq<Target>) {
    && (ts != [] ==> ts[0].t >= 0.0)
    && forall a, b :: 0 <= a < b < |ts| ==> ts[b].t >= ts[a].t + WAYPOINT_MIN_GAP
  }

  /** The pan clock lags the interaction it follows by at most one ease. */
  lemma {:induction false} PanLag(ts: seq<Target>, i: nat, j: nat)
    requires i < j <= |ts| && Spaced(ts)
    ensures var ev := Grown(ts, i, j);
      && PanClock(ev) <= ts[j - 1].t + EASE
      && ev.end >= PanClock(ev) + HOLD_AFTER - EASE
      && ev.end >= ts[j - 1].t + HOLD_AFTER
  {
    if j > i + 1 {
      PanLag(ts, i, j - 1);
      GrownShape(ts, i, j - 1);
      assert Grown(ts, i, j) == Absorb(Grown(ts, i, j - 1), ts[j - 1]);
      assert ts[j - 1].t >= ts[j - 2].t + WAYPOINT_MIN_GAP;
    }
  }

  lemma {:induction false} KeptAll(path: seq<Waypoint>, t: real, end: real)
    requires forall k :: 0 <= k < |path| ==> Surviving(path[k], t, end)
    ensures Kept(path, t, end) == path
  {
    if path != [] {
      KeptAll(path[1..], t, end);
      assert path == [path[0]] + path[1..];
    }
  }

  /** Cluster boundaries: cluster k is targets [b[k], b[k+1]). */
  function Boundaries(ts: seq<Target>, i: nat): (b: seq<nat>)
    requires i <= |ts|
    ensures |b| >= 1 && b[0] == i && b[|b| - 1] == |ts|
    ensures forall k :: 0 <= k < |b| ==> i <= b[k] <= |ts|
    ensures Ascending(b)
    decreases |ts| - i
  {
    if i == |ts| then [|ts|] else [i] + Boundaries(ts, ClusterEnd(ts, i, i + 1))
  }

  ghost predicate Ascending(b: seq<nat>) {
    forall k, l :: 0 <= k < l < |b| ==> b[k] < b[l]
  }

  ghost predicate InCluster(b: seq<nat>, k: nat, x: nat) {
    k + 1 < |b| && b[k] <= x < b[k + 1]
  }

  /** Ascending boundaries put every target in exactly one cluster. */
  lemma {:induction false} ExactlyOneCluster(b: seq<nat>, x: nat) returns (k: nat)
    requires |b| >= 1 && b[0] <= x < b[|b| - 1] && Ascending(b)
    ensures InCluster(b, k, x)
    ensures forall l: nat :: InCluster(b, l, x) ==> l == k
  {
    k := 0;
    while b[k + 1] <= x
      invariant k + 1 < |b| && b[k] <= x
    {
      k := k + 1;
    }
    assert forall l :: k < l < |b| ==> b[k + 1] <= b[l];
    assert forall m :: 0 < m <= k ==> b[m] <= b[k];
  }

  /** An event that is exactly its cluster, with only the end pulled in, and no earlier than the
      last interaction's own hold. */
  ghost predicate Faithful(ev: Event, ts: seq<Target>, i: nat, j: nat) {
    && i < j <= |ts|
    && ev.(end := Grown(ts, i, j).end) == Grown(ts, i, j)
    && ev.t <= ts[i].t
    && ts[j - 1].t + HOLD_AFTER <= ev.end
  }

  /** Spaced interactions in a take long enough for the last one: one event per cluster, no
      warning, every waypoint kept, and each event rests past its last interaction. */
  lemma {:induction false} NothingLost(ts: seq<Target>, i: nat, duration: real, frameW: real, frameH: real)
    requires i <= |ts| && Spaced(ts) && Sane(ts, frameW, frameH)
    requires ts != [] ==> duration >= ts[|ts| - 1].t + HOLD_AFTER + TAIL_MARGIN
    ensures var p, b := PlanFrom(ts, i, duration), Boundaries(ts, i);
      && p.warnings == []
      && |p.events| == |b| - 1
      && forall k :: 0 <= k < |p.events| ==> Faithful(p.events[k], ts, b[k], b[k + 1])
    decreases |ts| - i
  {
    if i < |ts| {
      var j := ClusterEnd(ts, i, i + 1);
      NothingLost(ts, j, duration, frameW, frameH);
      OneClusterKept(ts, i, j, duration, frameW, frameH);
      var rest := Boundaries(ts, j);
      var b := Boundaries(ts, i);
      assert b == [i] + rest && rest[0] == j;
    }
  }

  lemma OneClusterKept(ts: seq<Target>, i: nat, j: nat, duration: real, frameW: real, frameH: real)
    requires i < j <= |ts| && Spaced(ts) && Sane(ts, frameW, frameH)
    requires duration >= ts[|ts| - 1].t + HOLD_AFTER + TAIL_MARGIN
    ensures var one := PlanOne(Grown(ts, i, j), ts[i], duration);
      one.warnings == [] && |one.events| == 1 && Faithful(one.events[0], ts, i, j)
  {
    var ev := Grown(ts, i, j);
    var end := Min(ev.end, duration - TAIL_MARGIN);
    GrownShape(ts, i, j);
    GrownPaced(ts, i, j, frameW, frameH);
    PanLag(ts, i, j);
    assert ts[|ts| - 1].t >= ts[j - 1].t && ts[j - 1].t >= ts[i].t && ts[i].t >= 0.0;
    forall k | 0 <= k < |ev.path| ensures Surviving(ev.path[k], ev.t, end) {
      assert ev.path[k].t <= PanClock(ev);
    }
    KeptAll(ev.path, ev.t, end);
  }
}
