/** The camera eases in, pans and eases out by going straight on, on every axis: it never overshoots and
    never turns back on its way. */
module EaseFacts {
  import opened Reals
  import opened Planner
  import opened PlannerFacts
  import opened Camera
  import opened Framing

  /** On every lane b is on the way from a to c. */
  predicate ViewOnTheWay(a: View, b: View, c: View) {
    OnTheWay(a.z, b.z, c.z) && OnTheWay(a.cx, b.cx, c.cx) && OnTheWay(a.cy, b.cy, c.cy)
  }

  lemma ShareOfEase(start: real, t: real, u: real)
    requires start <= t <= u <= start + EASE
    ensures 0.0 <= (t - start) / EASE <= (u - start) / EASE <= 1.0
  {
  }

  /** At t, so far into an ease from a to c. */
  predicate Eased(x: real, a: real, c: real, start: real, t: real) { x == a + (c - a) * Smoothstep((t - start) / EASE) }

  lemma EaseGoesOnwards(a: real, c: real, start: real, t: real, u: real, y: real, z: real)
    requires start <= t <= u <= start + EASE && Eased(y, a, c, start, t) && Eased(z, a, c, start, u)
    ensures OnTheWay(a, y, z) && OnTheWay(y, z, c)
  {
    hide Smoothstep;
    var p, q := (t - start) / EASE, (u - start) / EASE;
    ShareOfEase(start, t, u);
    SmoothstepRange(p);
    SmoothstepRange(q);
    SmoothstepSlope(p, q);
    GoesOn(a, c, Smoothstep(p), Smoothstep(q), y, z);
  }

  function First(value: real, pts: seq<Knot>): real { if pts != [] then pts[0].v else value }

  function Last(value: real, pts: seq<Knot>): real { if pts != [] then pts[|pts| - 1].v else value }

  lemma AxisIn(ev: Event, base: real, value: real, pts: seq<Knot>, t: real)
    requires t < ev.t + EASE
    ensures Eased(Axis(ev, base, value, pts, t), base, First(value, pts), ev.t, t)
  {
    hide Smoothstep, PanAt;
  }

  lemma AxisEasesIn(ev: Event, base: real, value: real, pts: seq<Knot>, t: real, u: real)
    requires ev.t <= t <= u < ev.t + EASE
    ensures var y, z := Axis(ev, base, value, pts, t), Axis(ev, base, value, pts, u);
      OnTheWay(base, y, z) && OnTheWay(y, z, First(value, pts))
  {
    hide OnTheWay, Axis, Eased, First;
    AxisIn(ev, base, value, pts, t);
    AxisIn(ev, base, value, pts, u);
    EaseGoesOnwards(base, First(value, pts), ev.t, t, u, Axis(ev, base, value, pts, t), Axis(ev, base, value, pts, u));
  }

  lemma AxisOut(ev: Event, base: real, value: real, pts: seq<Knot>, t: real)
    requires ev.end - ev.t >= MIN_EVENT && ev.end - EASE <= t
    ensures Eased(Axis(ev, base, value, pts, t), Last(value, pts), base, ev.end - EASE, t)
  {
    hide Smoothstep, PanAt;
  }

  lemma AxisEasesOut(ev: Event, base: real, value: real, pts: seq<Knot>, t: real, u: real)
    requires ev.end - ev.t >= MIN_EVENT && ev.end - EASE <= t <= u <= ev.end
    ensures var y, z := Axis(ev, base, value, pts, t), Axis(ev, base, value, pts, u);
      OnTheWay(Last(value, pts), y, z) && OnTheWay(y, z, base)
  {
    hide OnTheWay, Axis, Eased, Last;
    AxisOut(ev, base, value, pts, t);
    AxisOut(ev, base, value, pts, u);
    EaseGoesOnwards(Last(value, pts), base, ev.end - EASE, t, u, Axis(ev, base, value, pts, t), Axis(ev, base, value, pts, u));
  }

  /** The centre the event opens on, and the one it ends on. */
  function OpensOn(ev: Event): View { View(ev.z, ev.cx, ev.cy) }

  function EndsOn(ev: Event): View {
    if ev.path == [] then OpensOn(ev) else View(ev.z, ev.path[|ev.path| - 1].x, ev.path[|ev.path| - 1].y)
  }

  /** Easing in, the camera goes from the whole frame to the event's first centre and zoom. */
  lemma EasesInOnwards(evs: seq<Event>, e: nat, t: real, u: real, frameW: real, frameH: real)
    requires PlayablePlan(evs, frameW, frameH) && e < |evs| && evs[e].t <= t <= u < evs[e].t + EASE
    ensures var y, z := CameraAt(evs, t, frameW, frameH), CameraAt(evs, u, frameW, frameH);
      ViewOnTheWay(Wide(frameW, frameH), y, z) && ViewOnTheWay(y, z, OpensOn(evs[e]))
  {
    hide PlayablePlan, Axis, OnTheWay;
    var ev := evs[e];
    ItIsPlayable(evs, e, frameW, frameH);
    InsideItsEvent(evs, e, t, frameW, frameH);
    InsideItsEvent(evs, e, u, frameW, frameH);
    AxisEasesIn(ev, 1.0, ev.z, [], t, u);
    AxisEasesIn(ev, frameW / 2.0, ev.cx, KnotsX(ev), t, u);
    AxisEasesIn(ev, frameH / 2.0, ev.cy, KnotsY(ev), t, u);
  }

  /** Easing out, from its last centre and zoom to the whole frame. */
  lemma EasesOutOnwards(evs: seq<Event>, e: nat, t: real, u: real, frameW: real, frameH: real)
    requires PlayablePlan(evs, frameW, frameH) && e < |evs| && evs[e].end - EASE <= t <= u <= evs[e].end
    ensures var y, z := CameraAt(evs, t, frameW, frameH), CameraAt(evs, u, frameW, frameH);
      ViewOnTheWay(EndsOn(evs[e]), y, z) && ViewOnTheWay(y, z, Wide(frameW, frameH))
  {
    hide PlayablePlan, Axis, OnTheWay;
    var ev := evs[e];
    ItIsPlayable(evs, e, frameW, frameH);
    InsideItsEvent(evs, e, t, frameW, frameH);
    InsideItsEvent(evs, e, u, frameW, frameH);
    LastKnots(ev);
    AxisEasesOut(ev, 1.0, ev.z, [], t, u);
    AxisEasesOut(ev, frameW / 2.0, ev.cx, KnotsX(ev), t, u);
    AxisEasesOut(ev, frameH / 2.0, ev.cy, KnotsY(ev), t, u);
  }

  lemma LastKnots(ev: Event)
    ensures Last(ev.cx, KnotsX(ev)) == EndsOn(ev).cx && Last(ev.cy, KnotsY(ev)) == EndsOn(ev).cy
  {
    if ev.path != [] {
      var n := |ev.path|;
      assert KnotsX(ev)[n - 1 + 1].v == ev.path[n - 1].x && KnotsY(ev)[n - 1 + 1].v == ev.path[n - 1].y;
    }
  }

  lemma InsideItsEvent(evs: seq<Event>, e: nat, t: real, frameW: real, frameH: real)
    requires PlayablePlan(evs, frameW, frameH) && e < |evs| && Covers(evs[e], t)
    ensures CameraAt(evs, t, frameW, frameH) == ViewIn(evs[e], t, frameW, frameH) && evs[e].end - evs[e].t >= MIN_EVENT
  {
    hide ViewIn, Playable, Separated;
    SortedAlready(evs, frameW, frameH);
    CameraInEvent(evs, e, t, frameW, frameH);
    ItIsPlayable(evs, e, frameW, frameH);
  }

  lemma ItIsPlayable(evs: seq<Event>, e: nat, frameW: real, frameH: real)
    requires PlayablePlan(evs, frameW, frameH) && e < |evs|
    ensures evs[e].end - evs[e].t >= MIN_EVENT
  {
    assert Playable(evs[e], frameW, frameH);
  }
}
