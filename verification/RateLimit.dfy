/** Asking a bucket: the durable object that keeps one, and the isolate's own map when no durable
    object answers. */
module RateLimit {
  import opened Wrappers
  import opened Bucket

  const DEGRADED_PERCENT_DEFAULT := 20
  const FALLBACK_MAX_ENTRIES := 10_000
  const FALLBACK_IDLE_MS := 120000.0

  function AtLeastOne(x: real): real { if x.Floor >= 1 then x.Floor as real else 1.0 }

  // ---- the durable object ----

  /** A request body's numbers, where they are present. */
  datatype Ask = Ask(perMinute: Option<real>, burst: Option<real>, cost: Option<real>, now: real)

  function Or(x: Option<real>, dflt: real): real { if x.Some? then x.value else dflt }

  function ConfigOf(ask: Ask): (c: Config)
    ensures c.perMinute >= 1.0 && c.burst >= 1.0
  {
    Config(AtLeastOne(Or(ask.perMinute, 60.0)), AtLeastOne(Or(ask.burst, Or(ask.perMinute, 60.0))))
  }

  function CostOf(ask: Ask): (cost: real)
    ensures cost >= 1.0
  {
    AtLeastOne(Or(ask.cost, 1.0))
  }

  /** What the object answers when the bucket it last wrote is `last`. */
  function Answer(last: Option<State>, ask: Ask): Decision {
    var config := ConfigOf(ask);
    Take(if last.Some? then last.value else InitialState(config, ask.now), config, ask.now, CostOf(ask))
  }

  class TokenBucket {
    var state: Option<State>
    var stored: Option<State>

    ghost predicate Valid() reads this { state.Some? ==> state == stored }

    constructor ()
      ensures Valid() && state == stored == None
    {
      state, stored := None, None;
    }

    method Fetch(ask: Ask) returns (decision: Decision)
      requires Valid()
      modifies this
      ensures Valid()
      ensures decision == Answer(old(stored), ask)
      ensures state == stored == Some(decision.state)
    {
      var config := ConfigOf(ask);
      if state.None? {
        state := if stored.Some? then stored else Some(InitialState(config, ask.now));
      }
      decision := Take(state.value, config, ask.now, CostOf(ask));
      state := Some(decision.state);
      stored := Some(decision.state);
    }

    /** The runtime drops an idle object from memory; its storage stays. */
    method Hibernate()
      requires Valid()
      modifies this`state
      ensures Valid() && state == None
    {
      state := None;
    }
  }

  /** What a client drives: each request, with the object dropped from memory before it or not. */
  method Serve(asks: seq<Ask>, asleep: seq<bool>) returns (answers: seq<Decision>)
    requires |asleep| == |asks|
    ensures answers == Answers(asks)
  {
    var bucket := new TokenBucket();
    answers := [];
    for i := 0 to |asks|
      invariant fresh(bucket) && bucket.Valid() && bucket.stored == LastState(asks[..i])
      invariant answers == Answers(asks[..i])
    {
      if asleep[i] { bucket.Hibernate(); }
      var decision := bucket.Fetch(asks[i]);
      answers := answers + [decision];
      assert asks[..i + 1][..i] == asks[..i];
    }
    assert asks[..|asks|] == asks;
  }

  function LastState(asks: seq<Ask>): Option<State> {
    if asks == [] then None else
      var n := |asks| - 1;
      Some(Answer(LastState(asks[..n]), asks[n]).state)
  }

  /** The answers of one bucket that is never lost. */
  function Answers(asks: seq<Ask>): (r: seq<Decision>)
    ensures |r| == |asks|
  {
    if asks == [] then [] else
      var n := |asks| - 1;
      Answers(asks[..n]) + [Answer(LastState(asks[..n]), asks[n])]
  }

  // ---- degrading to the isolate's own map ----

  /** `intVar`: a positive finite number rounded down, else the default. */
  function IntVar(parsed: Option<real>, dflt: int): int {
    if parsed.Some? && parsed.value > 0.0 then parsed.value.Floor else dflt
  }

  function DegradedConfig(percentVar: Option<real>, config: Config): (r: Config)
    ensures r.burst == r.perMinute >= 1.0
  {
    var v := IntVar(percentVar, DEGRADED_PERCENT_DEFAULT);
    var percent := if v < 100 then v else 100;
    var perMinute := AtLeastOne(config.perMinute * percent as real / 100.0);
    Config(perMinute, perMinute)
  }

  type Buckets = map<string, State>

  predicate Idle(s: State, now: real) { now - s.updatedAt >= FALLBACK_IDLE_MS }

  function WithoutIdle(m: Buckets, now: real): (r: Buckets)
    ensures |r| <= |m|
  {
    var r := map k | k in m && !Idle(m[k], now) :: m[k];
    SubsetCount(r.Keys, m.Keys);
    r
  }

  lemma {:induction false} SubsetCount(a: set<string>, b: set<string>)
    requires a <= b
    ensures |a| <= |b|
  {
    if a != {} {
      var x :| x in a;
      SubsetCount(a - {x}, b - {x});
    }
  }

  /** The map a newcomer finds: swept only when it is full. */
  function Room(m: Buckets, now: real): Buckets {
    if |m| >= FALLBACK_MAX_ENTRIES then WithoutIdle(m, now) else m
  }

  datatype Found = Found(buckets: Buckets, state: Option<State>)

  function Remember(m: Buckets, key: string, config: Config, now: real): Found {
    if key in m then Found(m, Some(m[key]))
    else if |Room(m, now)| >= FALLBACK_MAX_ENTRIES then Found(Room(m, now), None)
    else Found(Room(m, now)[key := InitialState(config, now)], Some(InitialState(config, now)))
  }

  datatype Step = Step(buckets: Buckets, decision: Option<Decision>)

  /** One degraded request; no decision means there was no room to track the key. */
  function Degraded(m: Buckets, key: string, config: Config, now: real): Step
    requires config.perMinute > 0.0
  {
    var found := Remember(m, key, config, now);
    if found.state.None? then Step(found.buckets, None) else
      var d := Take(found.state.value, config, now, 1.0);
      Step(found.buckets[key := d.state], Some(d))
  }

  datatype Reply =
    | Allowed(decision: Decision, degraded: bool)
    | Refused(decision: Decision, degraded: bool)
    | NoRoom

  function ReplyTo(d: Decision, degraded: bool): Reply {
    if d.allowed then Allowed(d, degraded) else Refused(d, degraded)
  }

  class Isolate {
    var fallbackBuckets: Buckets

    constructor ()
      ensures fallbackBuckets == map[]
    {
      fallbackBuckets := map[];
    }

    /** The sweep: each entry is looked at once, in whatever order the map yields them. */
    method EvictIdle(now: real)
      modifies this
      ensures fallbackBuckets == WithoutIdle(old(fallbackBuckets), now)
    {
      var entries := fallbackBuckets;
      var seen: set<string> := {};
      while seen != entries.Keys
        invariant seen <= entries.Keys
        invariant fallbackBuckets == map k | k in entries && (k !in seen || !Idle(entries[k], now)) :: entries[k]
        decreases |entries.Keys - seen|
      {
        var candidate :| candidate in entries.Keys - seen;
        if Idle(entries[candidate], now) { fallbackBuckets := fallbackBuckets - {candidate}; }
        assert entries.Keys - (seen + {candidate}) == entries.Keys - seen - {candidate};
        seen := seen + {candidate};
      }
    }

    method RememberFallback(key: string, config: Config, now: real) returns (state: Option<State>)
      modifies this
      ensures Found(fallbackBuckets, state) == Remember(old(fallbackBuckets), key, config, now)
    {
      if key in fallbackBuckets { return Some(fallbackBuckets[key]); }
      if |fallbackBuckets| >= FALLBACK_MAX_ENTRIES {
        EvictIdle(now);
        if |fallbackBuckets| >= FALLBACK_MAX_ENTRIES { return None; }
      }
      fallbackBuckets := fallbackBuckets[key := InitialState(config, now)];
      return Some(InitialState(config, now));
    }

    /** `attempts` is what each of the two calls to the durable object would come back with; None
        is a throw. */
    method Consume(name: string, config: Config, percentVar: Option<real>, attempts: seq<Option<Decision>>, now: real)
      returns (reply: Reply)
      requires |attempts| == 2
      modifies this
      ensures attempts[0].Some? ==> reply == ReplyTo(attempts[0].value, false)
      ensures attempts[0].None? && attempts[1].Some? ==> reply == ReplyTo(attempts[1].value, false)
      ensures attempts[0].Some? || attempts[1].Some? ==> fallbackBuckets == old(fallbackBuckets)
      ensures attempts[0].None? && attempts[1].None? ==>
        var step := Degraded(old(fallbackBuckets), name, DegradedConfig(percentVar, config), now);
        && fallbackBuckets == step.buckets
        && reply == if step.decision.None? then NoRoom else ReplyTo(step.decision.value, true)
    {
      var decision: Option<Decision> := None;
      var attempt := 0;
      while attempt < 2 && decision.None?
        invariant 0 <= attempt <= 2
        invariant decision == if attempt == 0 then None else attempts[attempt - 1]
        invariant forall k :: 0 <= k < attempt - 1 ==> attempts[k].None?
      {
        decision := attempts[attempt];
        attempt := attempt + 1;
      }
      if decision.Some? { return ReplyTo(decision.value, false); }

      var degraded := DegradedConfig(percentVar, config);
      var state := RememberFallback(name, degraded, now);
      if state.None? { return NoRoom; }
      var fallback := Take(state.value, degraded, now, 1.0);
      fallbackBuckets := fallbackBuckets[name := fallback.state];
      reply := ReplyTo(fallback, true);
    }
  }
}
