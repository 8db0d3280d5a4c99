/** Budgeted Ramer-Douglas-Peucker over an event's waypoints, and the take-wide budget. */
module Thinning {
  import opened Wrappers
  import opened Planner
  import opened PlannerFacts

  const PATH_BUDGET := 16
  const PATH_BUDGET_TOTAL := 192

  /** How far along the straight pan from a to b the clock of p is. */
  function Along(a: Waypoint, b: Waypoint, p: Waypoint): real {
    if b.t - a.t > 0.000000001 then (p.t - a.t) / (b.t - a.t) else 0.0
  }

  /** Squared distance of p from the straight pan between a and b at p's own time. */
  function Error(a: Waypoint, b: Waypoint, p: Waypoint): real {
    var f := Along(a, b, p);
    var ex, ey := a.x + (b.x - a.x) * f - p.x, a.y + (b.y - a.y) * f - p.y;
    ex * ex + ey * ey
  }

  /** The worst waypoint strictly between two kept ones: its squared error and index. */
  datatype Worst = Worst(err: real, at: nat)

  function WorstBetween(path: seq<Waypoint>, a: nat, b: nat, i: nat): Worst
    requires a < i <= b < |path|
    decreases i
  {
    if i == a + 1 then Worst(0.0, a) else
      var r := WorstBetween(path, a, b, i - 1);
      var d := Error(path[a], path[b], path[i - 1]);
      if d > r.err then Worst(d, i - 1) else r
  }

  datatype Split = Split(err: real, pos: nat, idx: nat)

  ghost predicate Keeps(keep: seq<nat>, n: nat) {
    && |keep| >= 2 && keep[0] == 0 && keep[|keep| - 1] == n - 1
    && forall k, l :: 0 <= k < l < |keep| ==> keep[k] < keep[l] < n
  }

  /** The worst waypoint over the first w gaps between kept ones; earlier gaps win ties. */
  function Best(path: seq<Waypoint>, keep: seq<nat>, w: nat): Option<Split>
    requires Keeps(keep, |path|) && w < |keep|
  {
    if w == 0 then None else
      var best := Best(path, keep, w - 1);
      var r := WorstBetween(path, keep[w - 1], keep[w], keep[w]);
      if r.at > keep[w - 1] && (best.None? || r.err > best.value.err)
      then Some(Split(r.err, w, r.at))
      else best
  }

  function Inserted(keep: seq<nat>, s: Split): seq<nat>
    requires s.pos <= |keep|
  {
    keep[..s.pos] + [s.idx] + keep[s.pos..]
  }

  lemma {:induction false} WorstInside(path: seq<Waypoint>, a: nat, b: nat, i: nat)
    requires a < i <= b < |path|
    ensures var r := WorstBetween(path, a, b, i);
      && a <= r.at < i && r.err >= 0.0 && (r.at == a ==> r.err == 0.0)
      && forall k :: a < k < i ==> Error(path[a], path[b], path[k]) <= r.err
    decreases i
  {
    if i > a + 1 { WorstInside(path, a, b, i - 1); }
  }

  lemma {:induction false} BestInside(path: seq<Waypoint>, keep: seq<nat>, w: nat)
    requires Keeps(keep, |path|) && w < |keep|
    ensures var best := Best(path, keep, w);
      best.Some? ==> 0 < best.value.pos <= w && keep[best.value.pos - 1] < best.value.idx < keep[best.value.pos]
  {
    if w > 0 {
      BestInside(path, keep, w - 1);
      WorstInside(path, keep[w - 1], keep[w], keep[w]);
    }
  }

  lemma InsertedKeeps(path: seq<Waypoint>, keep: seq<nat>, s: Split)
    requires Keeps(keep, |path|)
    requires 0 < s.pos < |keep| && keep[s.pos - 1] < s.idx < keep[s.pos]
    ensures Keeps(Inserted(keep, s), |path|) && |Inserted(keep, s)| == |keep| + 1
  {
    var r := Inserted(keep, s);
    assert forall k :: 0 <= k < s.pos ==> r[k] == keep[k];
    assert forall k :: s.pos < k < |r| ==> r[k] == keep[k - 1];
    forall k, l | 0 <= k < l < |r| ensures r[k] < r[l] < |path| {
      assert k < s.pos ==> keep[k] <= keep[s.pos - 1];
      assert l > s.pos ==> keep[s.pos] <= keep[l - 1];
    }
  }

  /** The whole greedy refinement. */
  function Refine(path: seq<Waypoint>, budget: nat, keep: seq<nat>): (r: seq<nat>)
    requires Keeps(keep, |path|)
    ensures Keeps(r, |path|)
    ensures |r| <= if |keep| <= budget then budget else |keep|
    decreases budget - |keep|
  {
    if |keep| >= budget then keep else
      var best := Best(path, keep, |keep| - 1);
      BestInside(path, keep, |keep| - 1);
      if best.Some? && best.value.err > 1.0
      then
        InsertedKeeps(path, keep, best.value);
        Refine(path, budget, Inserted(keep, best.value))
      else keep
  }

  function Pick(path: seq<Waypoint>, keep: seq<nat>): (r: seq<Waypoint>)
    requires forall k :: 0 <= k < |keep| ==> keep[k] < |path|
    ensures |r| == |keep| && forall k :: 0 <= k < |r| ==> r[k] == path[keep[k]]
  {
    seq(|keep|, k requires 0 <= k < |keep| => path[keep[k]])
  }

  function Thin(path: seq<Waypoint>, budget: nat): (r: seq<Waypoint>)
    requires budget >= 2
    ensures |r| <= budget
  {
    if |path| <= budget then path else Pick(path, Refine(path, budget, [0, |path| - 1]))
  }

  /** Every gap between neighbours in `keep` is straight to within a pixel. */
  ghost predicate Straight(path: seq<Waypoint>, keep: seq<nat>, w: nat)
    requires Keeps(keep, |path|)
  {
    forall g, k :: 0 < g <= w && g < |keep| && keep[g - 1] < k < keep[g] ==>
      Error(path[keep[g - 1]], path[keep[g]], path[k]) <= 1.0
  }

  lemma {:induction false} QuietIsStraight(path: seq<Waypoint>, keep: seq<nat>, w: nat)
    requires Keeps(keep, |path|) && w < |keep|
    requires Best(path, keep, w).None? || Best(path, keep, w).value.err <= 1.0
    ensures Straight(path, keep, w)
  {
    hide WorstBetween, Error;
    if w > 0 {
      WorstInside(path, keep[w - 1], keep[w], keep[w]);
      QuietIsStraight(path, keep, w - 1);
    }
  }

  lemma RefineStep(path: seq<Waypoint>, budget: nat, keep: seq<nat>)
    requires Keeps(keep, |path|)
    ensures |keep| >= 2
    ensures |keep| >= budget ==> Refine(path, budget, keep) == keep
    ensures |keep| < budget ==>
      var best := Best(path, keep, |keep| - 1);
      if best.Some? && best.value.err > 1.0
      then best.value.pos <= |keep| && Keeps(Inserted(keep, best.value), |path|)
        && |Inserted(keep, best.value)| == |keep| + 1
        && Refine(path, budget, keep) == Refine(path, budget, Inserted(keep, best.value))
      else Refine(path, budget, keep) == keep
  {
    BestInside(path, keep, |keep| - 1);
    var best := Best(path, keep, |keep| - 1);
    if best.Some? { InsertedKeeps(path, keep, best.value); }
  }

  /** Stopping short of the budget means nothing dropped was worth keeping. */
  lemma {:induction false} RefineIsStraight(path: seq<Waypoint>, budget: nat, keep: seq<nat>)
    requires Keeps(keep, |path|)
    ensures |Refine(path, budget, keep)| < budget ==>
      Straight(path, Refine(path, budget, keep), |Refine(path, budget, keep)| - 1)
    decreases budget - |keep|
  {
    hide Best, Straight, Keeps, Inserted, Refine;
    RefineStep(path, budget, keep);
    if |keep| < budget {
      var best := Best(path, keep, |keep| - 1);
      if best.Some? && best.value.err > 1.0 {
        RefineIsStraight(path, budget, Inserted(keep, best.value));
      } else {
        QuietIsStraight(path, keep, |keep| - 1);
      }
    }
  }

  /** The choice of kept indices that Thin makes. */
  function ThinKeep(path: seq<Waypoint>, budget: nat): (keep: seq<nat>)
    requires 2 <= budget < |path|
    ensures Keeps(keep, |path|) && |keep| <= budget
  {
    Refine(path, budget, [0, |path| - 1])
  }

  /** Thinning keeps a subsequence with both ends, and below budget every dropped waypoint lies
      within one pixel of the straight pan between its kept neighbours. */
  lemma ThinKeepsTheShape(path: seq<Waypoint>, budget: nat)
    requires 2 <= budget < |path|
    ensures var keep, r := ThinKeep(path, budget), Thin(path, budget);
      && r == Pick(path, keep)
      && r[0] == path[0] && r[|r| - 1] == path[|path| - 1]
      && (|r| < budget ==> Straight(path, keep, |keep| - 1))
  {
    hide Refine, Straight, Error;
    RefineIsStraight(path, budget, [0, |path| - 1]);
  }

  lemma PickPaced(path: seq<Waypoint>, keep: seq<nat>, from: real)
    requires Keeps(keep, |path|) && Paced(path, from)
    ensures Paced(Pick(path, keep), from)
  {}

  lemma ThinPaced(path: seq<Waypoint>, budget: nat, from: real, frameW: real, frameH: real)
    requires budget >= 2 && Paced(path, from) && InFrame(path, frameW, frameH)
    ensures Paced(Thin(path, budget), from) && InFrame(Thin(path, budget), frameW, frameH)
    ensures forall k :: 0 <= k < |Thin(path, budget)| ==> Thin(path, budget)[k] in path
  {
    if |path| > budget { PickPaced(path, ThinKeep(path, budget), from); }
  }

  // ---- the loops ----

  method FindWorst(path: seq<Waypoint>, a: nat, b: nat) returns (err: real, at: nat)
    requires a < b < |path|
    ensures Worst(err, at) == WorstBetween(path, a, b, b)
  {
    err, at := 0.0, a;
    for i := a + 1 to b
      invariant Worst(err, at) == WorstBetween(path, a, b, i)
    {
      var d := Error(path[a], path[b], path[i]);
      if d > err {
        err, at := d, i;
      }
    }
  }

  method FindBest(path: seq<Waypoint>, keep: seq<nat>) returns (best: Option<Split>)
    requires Keeps(keep, |path|)
    ensures best == Best(path, keep, |keep| - 1)
  {
    best := None;
    for w := 0 to |keep| - 1
      invariant best == Best(path, keep, w)
    {
      var a, b := keep[w], keep[w + 1];
      if b > a + 1 {
        var err, at := FindWorst(path, a, b);
        if at > a && (best.None? || err > best.value.err) {
          best := Some(Split(err, w + 1, at));
        }
      }
    }
  }

  method ThinPath(path: seq<Waypoint>, budget: nat) returns (r: seq<Waypoint>)
    requires budget >= 2
    ensures r == Thin(path, budget)
  {
    if |path| <= budget {
      return path;
    }
    var keep: seq<nat> := [0, |path| - 1];
    while |keep| < budget
      invariant Keeps(keep, |path|) && |keep| <= budget
      invariant Refine(path, budget, keep) == ThinKeep(path, budget)
      decreases budget - |keep|
    {
      var best := FindBest(path, keep);
      RefineStep(path, budget, keep);
      if best.None? || best.value.err <= 1.0 {
        break;
      }
      keep := Inserted(keep, best.value);
    }
    r := Pick(path, keep);
  }

  // ---- the take-wide budget ----

  function Cap(n: nat, budget: nat): nat { if n <= budget then n else budget }

  /** Waypoints wanted when every path is capped at `budget`. */
  function Wanted(evs: seq<Event>, budget: nat): nat {
    if evs == [] then 0 else
      Wanted(evs[..|evs| - 1], budget) + Cap(|evs[|evs| - 1].path|, budget)
  }

  function Total(evs: seq<Event>): nat {
    if evs == [] then 0 else Total(evs[..|evs| - 1]) + |evs[|evs| - 1].path|
  }

  function BudgetFor(wanted: nat): (b: nat)
    ensures 2 <= b <= PATH_BUDGET
  {
    if wanted <= PATH_BUDGET_TOTAL then PATH_BUDGET else
      FloorBelow(wanted);
      var b := PATH_BUDGET * PATH_BUDGET_TOTAL / wanted;
      if b < 2 then 2 else b
  }

  /** The squeezed budget is floor(16 * 192 / wanted), never above 16. */
  lemma FloorBelow(wanted: nat)
    requires wanted > PATH_BUDGET_TOTAL
    ensures 0 <= PATH_BUDGET * PATH_BUDGET_TOTAL / wanted <= PATH_BUDGET
    ensures (PATH_BUDGET * PATH_BUDGET_TOTAL / wanted) * wanted <= PATH_BUDGET * PATH_BUDGET_TOTAL
  {
    var q := PATH_BUDGET * PATH_BUDGET_TOTAL / wanted;
    assert q * wanted <= PATH_BUDGET * wanted;
  }

  function ThinAll(evs: seq<Event>, budget: nat): (r: seq<Event>)
    requires budget >= 2
    ensures |r| == |evs|
    ensures forall k :: 0 <= k < |r| ==> r[k] == evs[k].(path := Thin(evs[k].path, budget))
  {
    seq(|evs|, k requires 0 <= k < |evs| => evs[k].(path := Thin(evs[k].path, budget)))
  }

  function ThinPaths(evs: seq<Event>): (r: seq<Event>)
    ensures |r| == |evs|
  {
    ThinAll(evs, BudgetFor(Wanted(evs, PATH_BUDGET)))
  }

  lemma {:induction false} TotalAfter(evs: seq<Event>, budget: nat)
    requires budget >= 2
    ensures Total(ThinAll(evs, budget)) <= Wanted(evs, budget)
  {
    if evs != [] {
      TotalAfter(evs[..|evs| - 1], budget);
      assert ThinAll(evs, budget)[..|evs| - 1] == ThinAll(evs[..|evs| - 1], budget);
    }
  }

  lemma {:induction false} WantedMono(evs: seq<Event>, budget: nat)
    requires budget <= PATH_BUDGET
    ensures Wanted(evs, budget) <= Wanted(evs, PATH_BUDGET)
  {
    if evs != [] { WantedMono(evs[..|evs| - 1], budget); }
  }

  lemma {:induction false} WantedPerEvent(evs: seq<Event>, budget: nat)
    ensures Wanted(evs, budget) <= budget * |evs|
  {
    if evs != [] {
      WantedPerEvent(evs[..|evs| - 1], budget);
      assert budget * |evs| == budget * (|evs| - 1) + budget;
    }
  }

  /** Per event at most 16 waypoints; over n events the total is at most 192, or 2 per event, or
      the geometric mean of 192 and 16 per event. */
  lemma WaypointBudget(evs: seq<Event>)
    ensures forall k :: 0 <= k < |evs| ==> |ThinPaths(evs)[k].path| <= PATH_BUDGET
    ensures var T, n := Total(ThinPaths(evs)), |evs|;
      T <= PATH_BUDGET_TOTAL || T <= 2 * n || T * T <= PATH_BUDGET * PATH_BUDGET_TOTAL * n
  {
    var wanted := Wanted(evs, PATH_BUDGET);
    var budget := BudgetFor(wanted);
    var T, n := Total(ThinPaths(evs)), |evs|;
    TotalAfter(evs, budget);
    WantedMono(evs, budget);
    WantedPerEvent(evs, budget);
    if wanted > PATH_BUDGET_TOTAL && budget > 2 {
      FloorBelow(wanted);
      Squeezed(T, budget, n, wanted);
    }
  }

  lemma Squeezed(T: nat, budget: nat, n: nat, wanted: nat)
    requires T <= budget * n && T <= wanted && budget * wanted <= PATH_BUDGET * PATH_BUDGET_TOTAL
    ensures T * T <= PATH_BUDGET * PATH_BUDGET_TOTAL * n
  {
    MulBoth(T, T, budget * n, wanted);
    assert (budget * n) * wanted == (budget * wanted) * n;
    MulBoth(budget * wanted, n, PATH_BUDGET * PATH_BUDGET_TOTAL, n);
  }

  lemma MulBoth(a: nat, b: nat, c: nat, d: nat)
    requires a <= c && b <= d
    ensures a * b <= c * d
  {
    assert a * b <= c * b;
    assert c * b <= c * d;
  }

  method ThinEvents(events: seq<Event>) returns (thinned: seq<Event>)
    ensures thinned == ThinPaths(events)
  {
    var wanted := 0;
    for k := 0 to |events|
      invariant wanted == Wanted(events[..k], PATH_BUDGET)
    {
      assert events[..k + 1][..k] == events[..k];
      wanted := wanted + Cap(|events[k].path|, PATH_BUDGET);
    }
    assert events[..|events|] == events;
    var budget := BudgetFor(wanted);
    thinned := events;
    for k := 0 to |events|
      invariant |thinned| == |events|
      invariant forall l :: 0 <= l < k ==> thinned[l] == ThinAll(events, budget)[l]
      invariant forall l :: k <= l < |events| ==> thinned[l] == events[l]
    {
      if |thinned[k].path| > budget {
        var path := ThinPath(thinned[k].path, budget);
        thinned := thinned[k := thinned[k].(path := path)];
      }
    }
  }

  // ---- the planner's entry point ----

  function Planned(marks: seq<Mark>, scale: real, frameW: real, frameH: real, duration: real): Plan
    requires frameW > 0.0 && frameH > 0.0
  {
    var p := PlanFrom(TargetsOf(marks, scale, frameW, frameH), 0, duration);
    Plan(ThinPaths(p.events), p.warnings)
  }

  method EventsFromMarks(marks: seq<Mark>, scale: real, frameW: real, frameH: real, duration: real) returns (plan: Plan)
    requires frameW > 0.0 && frameH > 0.0
    ensures plan == Planned(marks, scale, frameW, frameH, duration)
  {
    var targets := CollectTargets(marks, scale, frameW, frameH);
    plan := MergeTargets(targets, duration);
    var thinned := ThinEvents(plan.events);
    plan := plan.(events := thinned);
  }
}
