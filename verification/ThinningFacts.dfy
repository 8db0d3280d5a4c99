/** When a take's waypoints stay within the total budget, and a plan in which they do not. */
module ThinningFacts {
  import opened Wrappers
  import opened Reals
  import opened Planner
  import opened Thinning

  /** The share of the total budget each event of these is allowed. */
  function Allowance(evs: seq<Event>): (b: nat)
    ensures 2 <= b <= PATH_BUDGET
  {
    BudgetFor(Wanted(evs, PATH_BUDGET))
  }

  /** No path is thinned below its allowance, which happens only when what is left is straight. */
  predicate NoneStopsEarly(evs: seq<Event>, budget: nat)
    requires budget >= 2
  {
    forall k :: 0 <= k < |evs| && |evs[k].path| > budget ==> |Thin(evs[k].path, budget)| == budget
  }

  lemma {:induction false} TotalIsWanted(evs: seq<Event>, budget: nat)
    requires budget >= 2 && NoneStopsEarly(evs, budget)
    ensures Total(ThinAll(evs, budget)) == Wanted(evs, budget)
  {
    if evs != [] {
      TotalIsWanted(evs[..|evs| - 1], budget);
      assert ThinAll(evs, budget)[..|evs| - 1] == ThinAll(evs[..|evs| - 1], budget);
    }
  }

  /** The total budget is kept if what the events want at their allowance fits it, and, unless some
      path stops early, only then. */
  lemma TotalBudgetKeptWhen(evs: seq<Event>)
    ensures Wanted(evs, Allowance(evs)) <= PATH_BUDGET_TOTAL ==> Total(ThinPaths(evs)) <= PATH_BUDGET_TOTAL
    ensures NoneStopsEarly(evs, Allowance(evs)) ==>
      (Total(ThinPaths(evs)) <= PATH_BUDGET_TOTAL <==> Wanted(evs, Allowance(evs)) <= PATH_BUDGET_TOTAL)
  {
    TotalAfter(evs, Allowance(evs));
    if NoneStopsEarly(evs, Allowance(evs)) { TotalIsWanted(evs, Allowance(evs)); }
  }

  /** The allowance is the greatest whole number up to sixteen that keeps all that the events want within
      sixteen times the total, or two where even that is too much; nothing is squeezed while they want no
      more than the total. */
  lemma AllowanceIsTheGreatest(evs: seq<Event>)
    ensures var wanted, b := Wanted(evs, 16), Allowance(evs);
      && (wanted <= 192 ==> b == 16)
      && (wanted > 192 ==> b == 2 || b * wanted <= 16 * 192)
      && (wanted > 192 && b < 16 ==> (b + 1) * wanted > 16 * 192)
  {
    var wanted := Wanted(evs, PATH_BUDGET);
    if wanted > PATH_BUDGET_TOTAL {
      FloorBelow(wanted);
      FloorIsGreatest(PATH_BUDGET * PATH_BUDGET_TOTAL, wanted);
      if Allowance(evs) == 2 { TwoIsTheLeast(wanted); }
    }
  }

  lemma FloorIsGreatest(n: nat, k: nat)
    requires k > 0
    ensures n / k * k <= n < (n / k + 1) * k
  {
  }

  lemma TwoIsTheLeast(wanted: nat)
    requires wanted > 192 && 16 * 192 / wanted <= 2
    ensures 3 * wanted > 16 * 192
  {
    FloorIsGreatest(16 * 192, wanted);
    assert (16 * 192 / wanted + 1) * wanted <= 3 * wanted;
  }

  // ---- what each refinement keeps ----

  /** Waypoint k is dropped, in the gap that ends at kept waypoint g. */
  predicate DroppedIn(keep: seq<nat>, g: nat, k: nat) { 0 < g < |keep| && keep[g - 1] < k < keep[g] }

  /** How far, squared, it is from its gap's straight pan. */
  function Off(path: seq<Waypoint>, keep: seq<nat>, g: nat, k: nat): real
    requires Keeps(keep, |path|) && DroppedIn(keep, g, k)
  {
    Error(path[keep[g - 1]], path[keep[g]], path[k])
  }

  lemma {:induction false} WorstIsFurthest(path: seq<Waypoint>, a: nat, b: nat, i: nat)
    requires a < i <= b < |path|
    ensures var r := WorstBetween(path, a, b, i);
      && a <= r.at < i
      && (r.at > a ==> r.err > 0.0 && Error(path[a], path[b], path[r.at]) == r.err)
      && (r.at == a ==> r.err == 0.0)
      && (forall k :: a < k < i ==> Error(path[a], path[b], path[k]) <= r.err)
      && forall k :: a < k < r.at ==> Error(path[a], path[b], path[k]) < r.err
    decreases i
  {
    hide Error;
    if i > a + 1 { WorstIsFurthest(path, a, b, i - 1); }
  }

  /** This dropped waypoint is the furthest off of those in the first w gaps, and the first of equals. */
  ghost predicate Furthest(path: seq<Waypoint>, keep: seq<nat>, w: nat, g: nat, k: nat)
    requires Keeps(keep, |path|)
  {
    && DroppedIn(keep, g, k) && g <= w
    && forall h: nat, l: nat :: h <= w && DroppedIn(keep, h, l) ==>
         && Off(path, keep, h, l) <= Off(path, keep, g, k)
         && (h < g || (h == g && l < k) ==> Off(path, keep, h, l) < Off(path, keep, g, k))
  }

  lemma {:induction false} BestIsFurthest(path: seq<Waypoint>, keep: seq<nat>, w: nat)
    requires Keeps(keep, |path|) && w < |keep|
    ensures var best := Best(path, keep, w);
      && (best.Some? ==>
            && best.value.err > 0.0 && Furthest(path, keep, w, best.value.pos, best.value.idx)
            && Off(path, keep, best.value.pos, best.value.idx) == best.value.err)
      && (best.None? ==> forall h: nat, l: nat :: h <= w && DroppedIn(keep, h, l) ==> Off(path, keep, h, l) <= 0.0)
  {
    hide Error, WorstBetween, Keeps;
    if w > 0 {
      GapIsInside(path, keep, w);
      BestIsFurthest(path, keep, w - 1);
      WorstIsFurthest(path, keep[w - 1], keep[w], keep[w]);
    }
  }

  lemma GapIsInside(path: seq<Waypoint>, keep: seq<nat>, w: nat)
    requires Keeps(keep, |path|) && 0 < w < |keep|
    ensures keep[w - 1] < keep[w] < |path|
  {
  }

  /** The refinement goes on with this waypoint kept as well. */
  ghost predicate GoesOnWith(path: seq<Waypoint>, budget: nat, keep: seq<nat>, g: nat, k: nat)
    requires Keeps(keep, |path|) && g <= |keep|
  {
    var next := keep[..g] + [k] + keep[g..];
    Keeps(next, |path|) && Refine(path, budget, keep) == Refine(path, budget, next)
  }

  /** With budget left, the refinement keeps the dropped waypoint that is furthest off, the first of equals,
      if that is more than a pixel, and goes on from there; otherwise it is done. */
  lemma EachStepKeepsTheFurthest(path: seq<Waypoint>, budget: nat, keep: seq<nat>)
    requires Keeps(keep, |path|) && |keep| < budget
    ensures var w := |keep| - 1;
      || (Refine(path, budget, keep) == keep && forall h: nat, l: nat :: DroppedIn(keep, h, l) ==> Off(path, keep, h, l) <= 1.0)
      || exists g: nat, k: nat :: Furthest(path, keep, w, g, k) && Off(path, keep, g, k) > 1.0 && GoesOnWith(path, budget, keep, g, k)
  {
    hide Error, Best, Refine, Off, Furthest;
    var w := |keep| - 1;
    RefineStep(path, budget, keep);
    BestIsFurthest(path, keep, w);
    var best := Best(path, keep, w);
    if best.Some? {
      var g, k := best.value.pos, best.value.idx;
      assert Furthest(path, keep, w, g, k);
      FurthestIsFurther(path, keep, w, g, k);
      assert best.value.err > 1.0 ==> Inserted(keep, best.value) == keep[..g] + [k] + keep[g..];
    }
  }

  lemma FurthestIsFurther(path: seq<Waypoint>, keep: seq<nat>, w: nat, g: nat, k: nat)
    requires Keeps(keep, |path|) && Furthest(path, keep, w, g, k)
    ensures DroppedIn(keep, g, k) && forall h: nat, l: nat :: h <= w && DroppedIn(keep, h, l) ==> Off(path, keep, h, l) <= Off(path, keep, g, k)
  {
    hide Off;
  }

  // ---- told by the paths' lengths alone ----

  function LengthsOf(evs: seq<Event>): seq<nat> { seq(|evs|, k requires 0 <= k < |evs| => |evs[k].path|) }

  /** What paths of these lengths want at this budget. */
  function WantedOf(lengths: seq<nat>, budget: nat): nat {
    if lengths == [] then 0 else
      WantedOf(lengths[..|lengths| - 1], budget) + Cap(lengths[|lengths| - 1], budget)
  }

  lemma {:induction false} WantedByLength(evs: seq<Event>, budget: nat)
    ensures Wanted(evs, budget) == WantedOf(LengthsOf(evs), budget)
  {
    if evs != [] {
      WantedByLength(evs[..|evs| - 1], budget);
      assert LengthsOf(evs)[..|evs| - 1] == LengthsOf(evs[..|evs| - 1]);
    }
  }

  /** A path that speeds up all the way, and so is nowhere straight. */
  function Bend(k: nat): Waypoint { Waypoint(k as real, 100.0 * (k as real * k as real), 0.0) }

  function Bent(n: nat): (path: seq<Waypoint>)
    ensures |path| == n && forall k :: 0 <= k < n ==> path[k] == Bend(k)
  {
    seq(n, k requires 0 <= k < n => Bend(k))
  }

  /** How far below its chord a parabola hangs. */
  lemma Sag(u: real, v: real, w: real, f: real)
    requires f * (v - u) == w - u
    ensures u * u + (v * v - u * u) * f - w * w == (w - u) * (v - w)
  {
    assert (v * v - u * u) * f == (v + u) * (f * (v - u));
  }

  lemma BendAlong(a: nat, b: nat, k: nat)
    requires a < k < b
    ensures Along(Bend(a), Bend(b), Bend(k)) * (b as real - a as real) == k as real - a as real
  {
  }

  lemma FarAcross(a: Waypoint, b: Waypoint, p: Waypoint)
    requires a.x + (b.x - a.x) * Along(a, b, p) - p.x >= 100.0
    ensures Error(a, b, p) > 1.0
  {
    hide Along;
    var ex, ey := a.x + (b.x - a.x) * Along(a, b, p) - p.x, a.y + (b.y - a.y) * Along(a, b, p) - p.y;
    AtLeastOne(ex, ex);
    SquareNonNeg(ey);
  }

  lemma BendErr(a: nat, b: nat, k: nat)
    requires a < k < b
    ensures Error(Bend(a), Bend(b), Bend(k)) > 1.0
  {
    hide Along, Error;
    var u, v, w := a as real, b as real, k as real;
    var f := Along(Bend(a), Bend(b), Bend(k));
    BendAlong(a, b, k);
    Sag(u, v, w, f);
    AtLeastOne(w - u, v - w);
    Hundredfold(u * u, v * v, w * w, f);
    FarAcross(Bend(a), Bend(b), Bend(k));
  }

  lemma Hundredfold(x: real, y: real, z: real, f: real)
    ensures 100.0 * x + (100.0 * y - 100.0 * x) * f - 100.0 * z == 100.0 * (x + (y - x) * f - z)
  {
  }

  lemma AtLeastOne(x: real, y: real)
    requires x >= 1.0 && y >= 1.0
    ensures x * y >= x >= 1.0
  {
    NonNegProduct(x, y - 1.0);
    assert x * (y - 1.0) == x * y - x;
  }

  /** Not everything is kept, so something between two neighbours is not. */
  lemma {:induction false} GapWithin(keep: seq<nat>, n: nat, m: nat) returns (g: nat)
    requires Keeps(keep, n) && m < |keep| && keep[m] > m
    ensures 0 < g <= m && keep[g - 1] + 1 < keep[g]
  {
    if keep[m - 1] + 1 < keep[m] { g := m; } else { g := GapWithin(keep, n, m - 1); }
  }

  lemma BentIsNowhereStraight(n: nat, keep: seq<nat>)
    requires Keeps(keep, n) && |keep| < n
    ensures !Straight(Bent(n), keep, |keep| - 1)
  {
    var g := GapWithin(keep, n, |keep| - 1);
    BendErr(keep[g - 1], keep[g], keep[g - 1] + 1);
    assert Error(Bent(n)[keep[g - 1]], Bent(n)[keep[g]], Bent(n)[keep[g - 1] + 1]) > 1.0;
  }

  lemma {:induction false} BentFillsItsBudget(n: nat, budget: nat, keep: seq<nat>)
    requires Keeps(keep, n) && |keep| <= budget < n
    ensures |Refine(Bent(n), budget, keep)| == budget
    decreases budget - |keep|
  {
    hide Best, Straight, Keeps, Inserted, Refine, Bent;
    var path := Bent(n);
    BentLength(n);
    RefineStep(path, budget, keep);
    if |keep| < budget {
      BentIsNowhereStraight(n, keep);
      var best := Best(path, keep, |keep| - 1);
      if best.None? || best.value.err <= 1.0 { QuietIsStraight(path, keep, |keep| - 1); }
      BentFillsItsBudget(n, budget, Inserted(keep, best.value));
    }
  }

  lemma BentLength(n: nat)
    ensures |Bent(n)| == n
  {
  }

  function BentEvents(lengths: seq<nat>): (evs: seq<Event>)
    ensures |evs| == |lengths|
  {
    seq(|lengths|, k requires 0 <= k < |lengths| => Event(0.0, 0.0, 0.0, 0.0, 1.0, Bent(lengths[k])))
  }

  lemma BentNeverStopsEarly(lengths: seq<nat>, budget: nat)
    requires budget >= 2
    ensures LengthsOf(BentEvents(lengths)) == lengths && NoneStopsEarly(BentEvents(lengths), budget)
  {
    hide Refine;
    forall k | 0 <= k < |lengths| && lengths[k] > budget ensures |Thin(Bent(lengths[k]), budget)| == budget {
      BentFillsItsBudget(lengths[k], budget, [0, lengths[k] - 1]);
    }
  }

  /** Paths of these lengths can be over the total budget, after thinning, exactly if what they want at
      their allowance is. */
  lemma LengthsCanExceedExactlyWhen(lengths: seq<nat>)
    ensures (exists evs :: LengthsOf(evs) == lengths && Total(ThinPaths(evs)) > PATH_BUDGET_TOTAL)
      <==> WantedOf(lengths, BudgetFor(WantedOf(lengths, PATH_BUDGET))) > PATH_BUDGET_TOTAL
  {
    hide Total, ThinPaths, Wanted, WantedOf, BudgetFor, NoneStopsEarly, LengthsOf;
    var budget := BudgetFor(WantedOf(lengths, PATH_BUDGET));
    forall evs | LengthsOf(evs) == lengths ensures Allowance(evs) == budget && Wanted(evs, budget) == WantedOf(lengths, budget) {
      WantedByLength(evs, PATH_BUDGET);
      WantedByLength(evs, budget);
    }
    var bent := BentEvents(lengths);
    BentNeverStopsEarly(lengths, budget);
    TotalBudgetKeptWhen(bent);
    if evs :| LengthsOf(evs) == lengths && Total(ThinPaths(evs)) > PATH_BUDGET_TOTAL { TotalBudgetKeptWhen(evs); }
  }

  // ---- a plan over the total budget ----

  const GROUPS := 97
  const LONG_TAKE := 1000.0

  function GroupStart(k: nat): real { 10.0 * k as real + 1.0 }

  /** Three clicks a second apart on boxes as wide as the frame, every ten seconds. */
  function CrowdMark(i: nat): Mark {
    Mark(GroupStart(i / 3) + (i % 3) as real, Click, "", Some(Box(20.0 * (i % 3) as real, 0.0, 100.0, 2.0)))
  }

  function CrowdTarget(i: nat): Target {
    Target(GroupStart(i / 3) + (i % 3) as real, 50.0 + 20.0 * (i % 3) as real, 1.0, 1.0)
  }

  function CrowdMarks(n: nat): seq<Mark> { seq(n, i requires 0 <= i < n => CrowdMark(i)) }

  function CrowdTargets(n: nat): seq<Target> { seq(n, i requires 0 <= i < n => CrowdTarget(i)) }

  lemma CrowdTargetOf(i: nat)
    ensures TargetOf(CrowdMark(i), 1.0, 100.0, 100.0) == CrowdTarget(i)
  {
    hide GroupStart;
    var x := 20.0 * (i % 3) as real;
    assert 0.0 <= x <= 40.0;
    assert ZoomFor(100.0, 2.0, 100.0, 100.0) == 1.0;
    assert Bias(Click, 100.0, 100.0) == 0.0;
  }

  lemma {:induction false} CrowdTargetsOf(n: nat)
    ensures TargetsOf(CrowdMarks(n), 1.0, 100.0, 100.0) == CrowdTargets(n)
  {
    hide TargetOf, CrowdTarget;
    if n > 0 {
      CrowdTargetsOf(n - 1);
      CrowdTargetOf(n - 1);
      assert CrowdMarks(n)[..n - 1] == CrowdMarks(n - 1);
    }
  }

  /** What one group grows into: an event that pans twice. */
  function GroupEvent(k: nat): Event {
    var s := GroupStart(k);
    Event(s - 0.45, s + 4.1, 50.0, 1.0, 1.0, [Waypoint(s + 1.0, 70.0, 1.0), Waypoint(s + 2.0, 90.0, 1.0)])
  }

  lemma GroupGrows(n: nat, k: nat)
    requires 3 * k + 3 <= n
    ensures var ts := CrowdTargets(n); Grown(ts, 3 * k, 3 * k + 3) == GroupEvent(k)
    ensures var ts := CrowdTargets(n); ClusterEnd(ts, 3 * k, 3 * k + 1) == 3 * k + 3
  {
    var ts, s := CrowdTargets(n), GroupStart(k);
    assert ts[3 * k] == Target(s, 50.0, 1.0, 1.0);
    assert ts[3 * k + 1] == Target(s + 1.0, 70.0, 1.0, 1.0);
    assert ts[3 * k + 2] == Target(s + 2.0, 90.0, 1.0, 1.0);
    var one := Grown(ts, 3 * k, 3 * k + 1);
    assert one == Event(s - 0.45, s + 2.1, 50.0, 1.0, 1.0, []);
    var two := Grown(ts, 3 * k, 3 * k + 2);
    assert two == Event(s - 0.45, s + 3.1, 50.0, 1.0, 1.0, [Waypoint(s + 1.0, 70.0, 1.0)]);
    var three := Grown(ts, 3 * k, 3 * k + 3);
    assert three == Event(s - 0.45, s + 4.1, 50.0, 1.0, 1.0, [Waypoint(s + 1.0, 70.0, 1.0), Waypoint(s + 2.0, 90.0, 1.0)]);
    if 3 * k + 3 < n { assert ts[3 * k + 3].t == s + 10.0; }
    assert ClusterEnd(ts, 3 * k, 3 * k + 3) == 3 * k + 3;
    assert ClusterEnd(ts, 3 * k, 3 * k + 2) == 3 * k + 3;
  }

  lemma GroupPlans(k: nat, first: Target)
    requires k < GROUPS
    ensures PlanOne(GroupEvent(k), first, LONG_TAKE) == Plan([GroupEvent(k)], [])
  {
    var ev := GroupEvent(k);
    assert ev.end <= LONG_TAKE - TAIL_MARGIN;
    assert Kept(ev.path[1..], ev.t, ev.end) == [ev.path[1]] by { assert Kept(ev.path[1..][1..], ev.t, ev.end) == []; }
    assert Kept(ev.path, ev.t, ev.end) == ev.path;
  }

  lemma {:induction false} CrowdPlans(k: nat)
    requires k <= GROUPS
    ensures PlanFrom(CrowdTargets(3 * GROUPS), 3 * k, LONG_TAKE).events == seq(GROUPS - k, i requires 0 <= i < GROUPS - k => GroupEvent(k + i))
    decreases GROUPS - k
  {
    hide GroupEvent, CrowdTargets, Grown, ClusterEnd, PlanOne;
    CrowdLength(3 * GROUPS);
    if k < GROUPS {
      GroupGrows(3 * GROUPS, k);
      GroupPlans(k, CrowdTargets(3 * GROUPS)[3 * k]);
      CrowdPlans(k + 1);
    }
  }

  lemma CrowdLength(n: nat)
    ensures |CrowdTargets(n)| == n
  {
  }

  lemma {:induction false} UniformPaths(evs: seq<Event>, size: nat)
    requires forall k :: 0 <= k < |evs| ==> |evs[k].path| == size
    ensures Total(evs) == |evs| * size
    ensures size <= PATH_BUDGET ==> Wanted(evs, PATH_BUDGET) == |evs| * size
  {
    if evs != [] {
      UniformPaths(evs[..|evs| - 1], size);
      assert |evs| * size == (|evs| - 1) * size + size;
    }
  }

  /** The total budget is not a cap: this plan of ninety-seven events keeps a hundred and ninety-four
      waypoints, two more than it. */
  lemma TotalIsNotACap()
    ensures Total(Planned(CrowdMarks(3 * GROUPS), 1.0, 100.0, 100.0, LONG_TAKE).events) == 194 > PATH_BUDGET_TOTAL
  {
    hide GroupEvent, CrowdMarks, CrowdTargets, PlanFrom, TargetsOf, Total, Wanted;
    CrowdTargetsOf(3 * GROUPS);
    CrowdPlans(0);
    var raw := PlanFrom(CrowdTargets(3 * GROUPS), 0, LONG_TAKE).events;
    GroupsPanTwice();
    UniformPaths(raw, 2);
    assert ThinPaths(raw) == raw;
  }

  lemma GroupsPanTwice()
    ensures forall k :: |GroupEvent(k).path| == 2
  {
  }
}
