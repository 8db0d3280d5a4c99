/** How close a plan goes, when it pans and what it merges: each as far as the source allows, and no less. */
module ZoomFacts {
  import opened Reals
  import opened Planner
  import opened PlannerFacts
  import opened Thinning
  import opened Framing

  // ---- one target's zoom ----

  /** A zoom the planner may give a box of this size, in source pixels: taller boxes have lower ceilings,
      and it leaves a margin of fifteen parts in a hundred on both axes. */
  predicate Admissible(z: real, w: real, h: real, frameW: real, frameH: real) {
    && 1.0 <= z <= 1.85
    && (h > frameH * 0.25 ==> z <= 1.7)
    && (h > frameH * 0.45 ==> z <= 1.5)
    && w * z * 1.15 <= frameW && h * z * 1.15 <= frameH
  }

  lemma MarginFits(ladder: real, frame: real, side: real, z: real)
    requires frame > 0.0 && side >= 0.0 && 0.0 <= z <= ladder && side * z * FIT_MARGIN <= frame
    ensures z <= Fit(ladder, frame, side)
  {
    if side > 0.0 {
      var k := side * FIT_MARGIN;
      assert z * k == side * z * FIT_MARGIN;
      NoMoreThanQuotient(z, frame, k);
    }
  }

  lemma NoMoreThanQuotient(z: real, frame: real, k: real)
    requires k > 0.0 && z * k <= frame
    ensures z <= frame / k
  {
    var q := frame / k;
    assert q * k == frame;
    if z > q { StrictlyMore(q, z, k); }
  }

  lemma StrictlyMore(q: real, z: real, k: real)
    requires q < z && k > 0.0
    ensures q * k < z * k
  {
    assert (z - q) * k > 0.0;
  }

  /** It gives the greatest such zoom, or none at all where there is none. */
  lemma ZoomIsTheGreatest(w: real, h: real, frameW: real, frameH: real)
    requires frameW > 0.0 && frameH > 0.0 && w >= 0.0 && h >= 0.0
    ensures var z := ZoomFor(w, h, frameW, frameH);
      && (z == 1.0 || Admissible(z, w, h, frameW, frameH))
      && forall other :: Admissible(other, w, h, frameW, frameH) ==> other <= z
  {
    ZoomLeavesRoom(w, h, frameW, frameH);
    ZoomIsBelowLadder(w, h, frameW, frameH);
    forall other | Admissible(other, w, h, frameW, frameH) ensures other <= ZoomFor(w, h, frameW, frameH) {
      MarginFits(Ladder(h, frameH), frameW, w, other);
      MarginFits(Fit(Ladder(h, frameH), frameW, w), frameH, h, other);
    }
  }

  lemma ZoomIsBelowLadder(w: real, h: real, frameW: real, frameH: real)
    requires frameH > 0.0
    ensures var z := ZoomFor(w, h, frameW, frameH);
      z == 1.0 || ((h > frameH * 0.25 ==> z <= 1.7) && (h > frameH * 0.45 ==> z <= 1.5))
  {
    FitIsBelowLadder(Ladder(h, frameH), frameW, w);
    FitIsBelowLadder(Fit(Ladder(h, frameH), frameW, w), frameH, h);
    hide Fit;
  }

  /** A taller or a wider box never gets a tighter zoom. */
  lemma BiggerIsNoTighter(w: real, h: real, wider: real, taller: real, frameW: real, frameH: real)
    requires frameW > 0.0 && frameH > 0.0 && 0.0 <= w <= wider && 0.0 <= h <= taller
    ensures ZoomFor(wider, taller, frameW, frameH) <= ZoomFor(w, h, frameW, frameH)
  {
    hide ZoomFor;
    var z := ZoomFor(wider, taller, frameW, frameH);
    ZoomIsTheGreatest(w, h, frameW, frameH);
    ZoomIsTheGreatest(wider, taller, frameW, frameH);
    if Admissible(z, wider, taller, frameW, frameH) {
      SmallerSide(w, wider, z);
      SmallerSide(h, taller, z);
      assert Admissible(z, w, h, frameW, frameH);
    }
  }

  lemma SmallerSide(side: real, longer: real, z: real)
    requires 0.0 <= side <= longer && z >= 1.0
    ensures side * z * 1.15 <= longer * z * 1.15
  {
    NonNegProduct(longer - side, z);
    assert (longer - side) * z == longer * z - side * z;
  }

  // ---- one target's centre ----

  /** How far left of the box's middle the crop may be centred: up to a share of its width, larger for
      typing, and leaving six parts in a hundred of it beyond the box's end. */
  predicate MayLean(lean: real, kind: Kind, w: real, cropW: real) {
    && 0.0 <= lean <= cropW * (if kind.Type? then 0.18 else 0.12)
    && lean + w / 2.0 + cropW * 0.06 <= cropW / 2.0
  }

  predicate MayShare(share: real, kind: Kind, half: real) {
    0.0 <= share <= (if kind.Type? then 0.18 else 0.12) && share + half + 0.06 <= 0.5
  }

  lemma BiasIsTheGreatest(kind: Kind, w: real, cropW: real)
    requires cropW > 0.0
    ensures var bias, half := Bias(kind, w, cropW), w / 2.0 / cropW;
      && (bias == 0.0 || MayShare(bias, kind, half))
      && forall other :: MayShare(other, kind, half) ==> other <= bias
  {
  }

  lemma ShareOfCrop(share: real, lean: real, kind: Kind, half: real, w: real, cropW: real)
    requires cropW > 0.0 && lean == share * cropW && w / 2.0 == half * cropW
    ensures MayLean(lean, kind, w, cropW) <==> MayShare(share, kind, half)
  {
    ShareIsUpTo(share, 0.18, lean, cropW);
    ShareIsUpTo(share, 0.12, lean, cropW);
    ShareLeavesRoom(share, half, lean, w / 2.0, cropW);
  }

  lemma ShareIsUpTo(share: real, most: real, lean: real, k: real)
    requires k > 0.0 && lean == share * k
    ensures 0.0 <= lean <= k * most <==> 0.0 <= share <= most
  {
    Scaled(0.0, share, k);
    Scaled(share, most, k);
  }

  lemma ShareLeavesRoom(share: real, half: real, lean: real, h: real, k: real)
    requires k > 0.0 && lean == share * k && h == half * k
    ensures lean + h + k * 0.06 <= k / 2.0 <==> share + half + 0.06 <= 0.5
  {
    Scaled(share + half + 0.06, 0.5, k);
    Distributes(share, half, k);
  }

  lemma Distributes(share: real, half: real, k: real)
    ensures (share + half + 0.06) * k == share * k + half * k + 0.06 * k
  {
  }

  /** The crop leans as far as it may, or not at all. */
  lemma LeanIsTheGreatest(kind: Kind, w: real, cropW: real)
    requires cropW > 0.0
    ensures var lean := Lean(kind, w, cropW);
      && (lean == 0.0 || MayLean(lean, kind, w, cropW))
      && forall other :: MayLean(other, kind, w, cropW) ==> other <= lean
  {
    hide Bias, Lean, MayLean, MayShare;
    var bias, half, lean := Bias(kind, w, cropW), w / 2.0 / cropW, Lean(kind, w, cropW);
    Quotient(w / 2.0, cropW);
    LeanIsBias(kind, w, cropW);
    BiasIsTheGreatest(kind, w, cropW);
    ShareOfCrop(bias, lean, kind, half, w, cropW);
    forall other | MayLean(other, kind, w, cropW) ensures other <= lean {
      Quotient(other, cropW);
      ShareOfCrop(other / cropW, other, kind, half, w, cropW);
      Scaled(other / cropW, bias, cropW);
    }
  }

  lemma LeanIsBias(kind: Kind, w: real, cropW: real)
    requires cropW > 0.0
    ensures Lean(kind, w, cropW) == Bias(kind, w, cropW) * cropW
    ensures Bias(kind, w, cropW) == 0.0 ==> Lean(kind, w, cropW) == 0.0
  {
    hide Bias;
  }

  lemma Quotient(x: real, k: real)
    requires k > 0.0
    ensures x / k * k == x
  {
  }

  lemma Scaled(a: real, b: real, k: real)
    requires k > 0.0
    ensures a <= b <==> a * k <= b * k
  {
    if a <= b { NonNegProduct(b - a, k); assert (b - a) * k == b * k - a * k; } else { StrictlyMore(b, a, k); }
  }

  // ---- one target ----

  /** Within the frame a point is left alone, and beyond it is brought to the nearer edge. */
  predicate BroughtInside(c: real, wanted: real, frame: real) {
    && (0.0 <= wanted <= frame ==> c == wanted)
    && (wanted < 0.0 ==> c == 0.0)
    && (wanted > frame ==> c == frame)
  }

  /** As far as the crop may lean, and not at all where it may not. */
  ghost predicate GreatestLean(lean: real, kind: Kind, w: real, cropW: real) {
    && (lean == 0.0 || MayLean(lean, kind, w, cropW))
    && forall other :: MayLean(other, kind, w, cropW) ==> other <= lean
  }

  /** The crop's centre is the box's middle, leaning left by so much, brought inside the frame. */
  predicate CentredOn(g: Target, p: Box, frameW: real, frameH: real, lean: real) {
    BroughtInside(g.cx, p.x + p.w / 2.0 - lean, frameW) && BroughtInside(g.cy, p.y + p.h / 2.0, frameH)
  }

  /** A boxed mark asks for the greatest zoom its box admits, on the spot its box is. */
  lemma TargetGoesAsCloseAsItMay(m: Mark, scale: real, frameW: real, frameH: real)
    requires Zoomable(m) && frameW > 0.0 && frameH > 0.0
    requires scale >= 0.0 && m.bbox.value.w >= 0.0 && m.bbox.value.h >= 0.0
    ensures var g, p := TargetOf(m, scale, frameW, frameH), Pixels(m, scale);
      && g.t == m.t
      && (g.z == 1.0 || Admissible(g.z, p.w, p.h, frameW, frameH))
      && (forall other :: Admissible(other, p.w, p.h, frameW, frameH) ==> other <= g.z)
      && exists lean :: CentredOn(g, p, frameW, frameH, lean) && GreatestLean(lean, m.kind, p.w, frameW / g.z)
  {
    hide ZoomFor, Lean, MayLean, Admissible;
    var b, p := m.bbox.value, Pixels(m, scale);
    NonNegProduct(b.w, scale);
    NonNegProduct(b.h, scale);
    ZoomIsTheGreatest(p.w, p.h, frameW, frameH);
    var g := TargetOf(m, scale, frameW, frameH);
    var cropW := frameW / g.z;
    CropWidth(frameW, g.z);
    LeanIsTheGreatest(m.kind, p.w, cropW);
    MiddleInPixels(b.x, b.w, scale);
    MiddleInPixels(b.y, b.h, scale);
    assert CentredOn(g, p, frameW, frameH, Lean(m.kind, p.w, cropW)) && GreatestLean(Lean(m.kind, p.w, cropW), m.kind, p.w, cropW);
  }

  lemma MiddleInPixels(at: real, size: real, scale: real)
    ensures Middle(at, size, scale) == at * scale + size * scale / 2.0
  {
  }

  // ---- one event ----

  /** An event's zoom is that of its loosest target: no target of its cluster wants a looser one, and one
      of them wants just that. */
  lemma {:induction false} EventZoomIsItsLoosest(ts: seq<Target>, i: nat, j: nat) returns (k: nat)
    requires i < j <= |ts|
    ensures i <= k < j && Grown(ts, i, j).z == ts[k].z
    ensures forall l :: i <= l < j ==> ts[k].z <= ts[l].z
  {
    hide FarFromStart, WaypointClock;
    if j == i + 1 {
      k := i;
    } else {
      k := EventZoomIsItsLoosest(ts, i, j - 1);
      if ts[j - 1].z < ts[k].z { k := j - 1; }
    }
  }

  /** More than six pixels from where the event opened. */
  predicate Far(from: Target, to: Target) {
    (to.cx - from.cx) * (to.cx - from.cx) + (to.cy - from.cy) * (to.cy - from.cy) > 6.0 * 6.0
  }

  /** The targets of a cluster that lie far from its first, in order. */
  function FarTargets(ts: seq<Target>, i: nat, j: nat): (far: seq<nat>)
    requires i < j <= |ts|
    ensures forall n :: 0 <= n < |far| ==> i < far[n] < j
  {
    if j == i + 1 then [] else FarTargets(ts, i, j - 1) + if Far(ts[i], ts[j - 1]) then [j - 1] else []
  }

  lemma FarIsFar(ts: seq<Target>, i: nat, j: nat, next: Target)
    requires i < j <= |ts|
    ensures FarFromStart(Grown(ts, i, j), next) <==> Far(ts[i], next)
  {
    GrownShape(ts, i, j);
  }

  /** Waypoint n pans to this target at its own moment, or as soon after as the waypoint before allows. */
  predicate PansTo(ev: Event, n: nat, to: Target)
    requires n < |ev.path|
  {
    var before := if n == 0 then ev.t + EASE else ev.path[n - 1].t;
    ev.path[n] == Waypoint(Max(to.t, before + WAYPOINT_MIN_GAP), to.cx, to.cy)
  }

  lemma AbsorbPans(ev: Event, next: Target)
    ensures var r := Absorb(ev, next);
      && (FarFromStart(ev, next) ==> |r.path| == |ev.path| + 1 && PansTo(r, |ev.path|, next))
      && (!FarFromStart(ev, next) ==> r.path == ev.path)
      && r.t == ev.t
      && forall n, to :: 0 <= n < |ev.path| && PansTo(ev, n, to) ==> n < |r.path| && PansTo(r, n, to)
  {
    hide FarFromStart;
  }

  /** The event pans to those targets and to no others. */
  lemma {:induction false} PansToTheFarTargets(ts: seq<Target>, i: nat, j: nat)
    requires i < j <= |ts|
    ensures var ev, far := Grown(ts, i, j), FarTargets(ts, i, j);
      && |ev.path| == |far|
      && forall n :: 0 <= n < |far| ==> PansTo(ev, n, ts[far[n]])
  {
    hide FarFromStart, Far, Absorb, PansTo;
    if j > i + 1 {
      PansToTheFarTargets(ts, i, j - 1);
      FarIsFar(ts, i, j - 1, ts[j - 1]);
      AbsorbPans(Grown(ts, i, j - 1), ts[j - 1]);
    }
  }

  /** It rests for the full hold after its last interaction, and at most one ease longer. */
  lemma EventRestsNoLonger(ts: seq<Target>, i: nat, j: nat)
    requires i < j <= |ts| && Spaced(ts)
    ensures ts[j - 1].t + HOLD_AFTER <= Grown(ts, i, j).end <= ts[j - 1].t + HOLD_AFTER + EASE
  {
    PanLag(ts, i, j);
    if j > i + 1 {
      PanLag(ts, i, j - 1);
      assert ts[j - 1].t >= ts[j - 2].t + WAYPOINT_MIN_GAP;
    }
  }

  // ---- what is merged ----

  lemma {:induction false} MergedAreClose(ts: seq<Target>, i: nat, j: nat, k: nat)
    requires i < j <= |ts| && j <= k < ClusterEnd(ts, i, j)
    ensures ts[k].t < Grown(ts, i, k).end + MERGE_GAP
    decreases k - j
  {
    if j < k { MergedAreClose(ts, i, j + 1, k); }
  }

  /** Two interactions in a row less than a hold and a gap apart are in one event; a hold, an ease and a gap
      apart they never are. */
  lemma {:induction false} MergesNeighbours(ts: seq<Target>, i: nat, k: nat)
    requires i < k < |ts| && Spaced(ts)
    ensures ts[k].t < ts[k - 1].t + 3.4 ==> k !in Boundaries(ts, i)
    ensures ts[k].t >= ts[k - 1].t + 4.1 ==> k in Boundaries(ts, i)
    decreases |ts| - i
  {
    var e := ClusterEnd(ts, i, i + 1);
    assert Boundaries(ts, i) == [i] + Boundaries(ts, e);
    if k < e {
      MergedAreClose(ts, i, i + 1, k);
      EventRestsNoLonger(ts, i, k);
      assert forall b :: b in Boundaries(ts, e) ==> b >= e;
    } else if k == e {
      ClusterStops(ts, i, i + 1);
      EventRestsNoLonger(ts, i, k);
      assert Boundaries(ts, e)[0] == e;
    } else {
      MergesNeighbours(ts, e, k);
    }
  }

  // ---- and so every plan ----

  lemma {:induction false} EventsAreGrown(ts: seq<Target>, i: nat, duration: real, e: nat) returns (a: nat, b: nat)
    requires i <= |ts| && e < |PlanFrom(ts, i, duration).events|
    ensures IsCluster(ts, i, a, b) && a < b <= |ts| && PlanFrom(ts, i, duration).events[e] == Closed(Grown(ts, a, b), duration)
    decreases |ts| - i
  {
    var j := ClusterEnd(ts, i, i + 1);
    var one := PlanOne(Grown(ts, i, j), ts[i], duration).events;
    if e < |one| {
      a, b := i, j;
      assert Boundaries(ts, i)[0] == i;
    } else {
      a, b := EventsAreGrown(ts, j, duration, e - |one|);
    }
  }

  /** Every event of every plan zooms to the least of what the boxed marks of its own cluster ask for. */
  lemma PlannedZoomIsAskedFor(marks: seq<Mark>, scale: real, frameW: real, frameH: real, duration: real, e: nat)
    returns (a: nat, b: nat, k: nat)
    requires frameW > 0.0 && frameH > 0.0 && e < |Planned(marks, scale, frameW, frameH, duration).events|
    ensures var ts := TargetsOf(marks, scale, frameW, frameH);
      && IsCluster(ts, 0, a, b) && a <= k < b <= |ts|
      && Planned(marks, scale, frameW, frameH, duration).events[e].z == ts[k].z
      && forall l :: a <= l < b ==> ts[k].z <= ts[l].z
  {
    hide IsCluster, Grown, TargetsOf, PlanFrom, Thin;
    var ts := TargetsOf(marks, scale, frameW, frameH);
    a, b := EventsAreGrown(ts, 0, duration, e);
    k := EventZoomIsItsLoosest(ts, a, b);
  }
}
