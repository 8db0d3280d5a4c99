/** What an isolate gives away on its own, in terms of the real budget. */
module DegradedFacts {
  import opened Wrappers
  import opened Reals
  import opened Bucket
  import opened RateLimit
  import opened RateLimitFacts

  // ---- whole budgets ----

  /** The greatest whole number no greater than this, or one where that is less. */
  predicate WholeAtLeastOne(n: int, x: real) {
    n >= 1 && (n == 1 || n as real <= x) && x < (n + 1) as real
  }

  lemma AtLeastOneIsWhole(x: real) returns (n: int)
    ensures AtLeastOne(x) == n as real && WholeAtLeastOne(n, x)
  {
    n := if x.Floor >= 1 then x.Floor else 1;
  }

  /** A bucket is kept for the rate and the burst that were asked for, each rounded down and at least one; a
      rate that is absent is sixty, and a burst that is absent is the rate. */
  lemma BucketIsAsAsked(ask: Ask) returns (perMinute: int, burst: int, cost: int)
    ensures ConfigOf(ask) == Config(perMinute as real, burst as real) && CostOf(ask) == cost as real
    ensures WholeAtLeastOne(perMinute, if ask.perMinute.Some? then ask.perMinute.value else 60.0)
    ensures ask.burst.Some? ==> WholeAtLeastOne(burst, ask.burst.value)
    ensures ask.burst.None? ==> burst == perMinute
    ensures WholeAtLeastOne(cost, if ask.cost.Some? then ask.cost.value else 1.0)
  {
    perMinute := AtLeastOneIsWhole(if ask.perMinute.Some? then ask.perMinute.value else 60.0);
    burst := AtLeastOneIsWhole(if ask.burst.Some? then ask.burst.value else if ask.perMinute.Some? then ask.perMinute.value else 60.0);
    cost := AtLeastOneIsWhole(if ask.cost.Some? then ask.cost.value else 1.0);
  }

  // ---- the reduced share ----

  /** The share that is configured, in whole parts of a hundred: twenty where nothing positive is, and never
      more than all. */
  predicate IsPercent(p: int, percentVar: Option<real>) {
    if percentVar.None? || percentVar.value <= 0.0 then p == 20
    else p <= 100 && p as real <= percentVar.value && (p == 100 || percentVar.value < (p + 1) as real)
  }

  /** Degraded, a budget is the greatest whole number within that share of the real one, or a single token
      where that is nothing, with no more than a minute of it at once. */
  lemma DegradedIsTheShare(percentVar: Option<real>, config: Config) returns (p: int, n: int)
    requires config.perMinute >= 1.0
    ensures IsPercent(p, percentVar) && 0 <= p <= 100
    ensures DegradedConfig(percentVar, config) == Config(n as real, n as real)
    ensures n >= 1 && (n as real * 100.0 <= config.perMinute * p as real || (n == 1 && config.perMinute * p as real < 100.0))
    ensures config.perMinute * p as real < (n + 1) as real * 100.0
  {
    var v := IntVar(percentVar, DEGRADED_PERCENT_DEFAULT);
    p := if v < 100 then v else 100;
    var share := config.perMinute * p as real;
    n := AtLeastOneIsWhole(share / 100.0);
  }

  /** So what it may grant in a minute is at most that share, or a single token. */
  lemma DegradedIsWithinTheShare(percentVar: Option<real>, config: Config, p: int)
    requires config.perMinute >= 1.0 && IsPercent(p, percentVar)
    ensures DegradedConfig(percentVar, config).perMinute <= Max(1.0, config.perMinute * p as real / 100.0)
  {
    hide DegradedConfig;
    var q, n := DegradedIsTheShare(percentVar, config);
    assert q == p;
    if n as real * 100.0 <= config.perMinute * p as real { assert n as real <= config.perMinute * p as real / 100.0; }
  }

  // ---- whole runs, in the real budget ----

  function Minutes(a: real, b: real): real { (b - a) / 60000.0 }

  lemma BudgetOverTime(config: Config, a: real, b: real)
    requires config.burst == config.perMinute
    ensures config.burst + Refill(config, b - a) == config.perMinute * (1.0 + Minutes(a, b))
  {
  }

  /** In any window, whatever the isolate forgets, it grants a key at most its share of the real budget for
      each minute of the window and one more. */
  lemma IsolateKeepsToItsShare(calls: seq<Call>, key: string, percentVar: Option<real>, config: Config, p: int, a: real, b: real, n: nat)
    requires InOrder(calls) && config.perMinute >= 1.0 && IsPercent(p, percentVar) && a <= b && n <= |calls|
    requires SteadyBudget(calls, key, DegradedConfig(percentVar, config))
    ensures Grants(calls, key, a, b, n) as real <= Max(1.0, config.perMinute * p as real / 100.0) * (1.0 + Minutes(a, b))
  {
    hide Grants, InOrder, SteadyBudget, DegradedConfig, IsPercent;
    ShareCovers(percentVar, config, p, a, b);
    IsolateIsBounded(calls, key, DegradedConfig(percentVar, config), a, b, n);
  }

  lemma ShareCovers(percentVar: Option<real>, config: Config, p: int, a: real, b: real)
    requires config.perMinute >= 1.0 && IsPercent(p, percentVar) && a <= b
    ensures var degraded := DegradedConfig(percentVar, config);
      && OneMinuteBurst(degraded)
      && degraded.burst + Refill(degraded, b - a) <= Max(1.0, config.perMinute * p as real / 100.0) * (1.0 + Minutes(a, b))
  {
    hide IsPercent, Refill;
    var degraded := DegradedConfig(percentVar, config);
    DegradedIsWithinTheShare(percentVar, config, p);
    BudgetOverTime(degraded, a, b);
    hide DegradedConfig;
    MulMono(1.0 + Minutes(a, b), degraded.perMinute, Max(1.0, config.perMinute * p as real / 100.0));
  }

  /** And n isolates at most n times that: an outage is never worth more than the share times the isolates. */
  lemma OutageKeepsToTheShare(isolates: seq<seq<Call>>, key: string, percentVar: Option<real>, config: Config, p: int, a: real, b: real)
    requires config.perMinute >= 1.0 && IsPercent(p, percentVar) && a <= b
    requires forall i :: 0 <= i < |isolates| ==>
      InOrder(isolates[i]) && SteadyBudget(isolates[i], key, DegradedConfig(percentVar, config))
    ensures TotalGrants(isolates, key, a, b) as real
      <= |isolates| as real * (Max(1.0, config.perMinute * p as real / 100.0) * (1.0 + Minutes(a, b)))
  {
    hide TotalGrants, InOrder, SteadyBudget, DegradedConfig, IsPercent;
    ShareCovers(percentVar, config, p, a, b);
    var degraded := DegradedConfig(percentVar, config);
    OutageIsBounded(isolates, key, degraded, a, b);
    MulMono(|isolates| as real, degraded.burst + Refill(degraded, b - a),
      Max(1.0, config.perMinute * p as real / 100.0) * (1.0 + Minutes(a, b)));
  }
}
