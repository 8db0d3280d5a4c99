/** What the limiter guarantees over whole runs, with its durable object and without it. */
module RateLimitFacts {
  import opened Wrappers
  import opened Reals
  import opened Bucket
  import opened RateLimit

  // ---- the durable object ----

  predicate SameConfig(asks: seq<Ask>, config: Config) { forall a :: a in asks ==> ConfigOf(a) == config }

  function Requests(asks: seq<Ask>): (r: seq<Request>)
    ensures |r| == |asks|
  {
    seq(|asks|, i requires 0 <= i < |asks| => Request(asks[i].now, CostOf(asks[i])))
  }

  /** Under one configuration the object's bucket is one run of `take` from a full bucket. */
  lemma {:induction false} AnswersAreOneRun(asks: seq<Ask>, config: Config, n: nat)
    requires config.perMinute > 0.0 && SameConfig(asks, config) && n < |asks|
    ensures var start := InitialState(config, asks[0].now);
      && Answers(asks)[n] == Take(After(start, config, Requests(asks), n), config, asks[n].now, CostOf(asks[n]))
      && LastState(asks[..n + 1]) == Some(After(start, config, Requests(asks), n + 1))
    decreases |asks|, n
  {
    hide Take, ConfigOf, CostOf;
    assert asks[n] in asks;
    var head := asks[..n + 1];
    assert head[..n] == asks[..n];
    AnswersArePrefixStable(asks, n);
    if n > 0 { AnswersAreOneRun(asks, config, n - 1); }
    StateBefore(asks, config, n);
  }

  lemma StateBefore(asks: seq<Ask>, config: Config, n: nat)
    requires config.perMinute > 0.0 && n < |asks| && ConfigOf(asks[n]) == config
    requires n > 0 ==> LastState(asks[..n]) == Some(After(InitialState(config, asks[0].now), config, Requests(asks), n))
    ensures Answer(LastState(asks[..n]), asks[n])
      == Take(After(InitialState(config, asks[0].now), config, Requests(asks), n), config, asks[n].now, CostOf(asks[n]))
  {
    hide Take, ConfigOf, CostOf;
  }

  lemma {:induction false} AnswersArePrefixStable(asks: seq<Ask>, n: nat)
    requires n < |asks|
    ensures Answers(asks)[n] == Answer(LastState(asks[..n]), asks[n])
  {
    hide Answer;
    if n < |asks| - 1 {
      var shorter := asks[..|asks| - 1];
      AnswersArePrefixStable(shorter, n);
      assert shorter[..n] == asks[..n];
    }
  }

  /** So what the object grants between any two requests is bounded by a burst and the refill,
      however often it was dropped from memory. */
  lemma DurableObjectIsBounded(asks: seq<Ask>, config: Config, i: nat, j: nat)
    requires SameConfig(asks, config) && config.perMinute >= 1.0 && config.burst >= 1.0
    requires i < j <= |asks|
    ensures Charged(asks, Answers(asks), i, j) <= config.burst + Refill(config, Forward(Requests(asks), i, j))
    ensures NeverBack(Requests(asks), i, j) ==>
      Charged(asks, Answers(asks), i, j) <= config.burst + Refill(config, asks[j - 1].now - asks[i].now)
  {
    hide Take, ConfigOf, CostOf, Refill, Answers, Forward, NeverBack;
    var start := InitialState(config, asks[0].now);
    ChargedIsSpent(asks, config, i, j);
    SpendingIsBounded(start, config, Requests(asks), i, j);
  }

  function Charged(asks: seq<Ask>, answers: seq<Decision>, i: nat, j: nat): real
    requires i <= j <= |asks| == |answers|
  {
    if i == j then 0.0 else
      Charged(asks, answers, i, j - 1) + if answers[j - 1].allowed then CostOf(asks[j - 1]) else 0.0
  }

  lemma {:induction false} ChargedIsSpent(asks: seq<Ask>, config: Config, i: nat, j: nat)
    requires config.perMinute > 0.0 && SameConfig(asks, config) && i <= j <= |asks| && i < |asks|
    ensures Charged(asks, Answers(asks), i, j) == Spent(InitialState(config, asks[0].now), config, Requests(asks), i, j)
  {
    if i < j {
      hide Take, ConfigOf, CostOf, Answers;
      ChargedIsSpent(asks, config, i, j - 1);
      AnswersAreOneRun(asks, config, j - 1);
    }
  }

  // ---- the fallback map ----

  lemma DegradedIsAFraction(percentVar: Option<real>, config: Config)
    requires config.perMinute >= 1.0
    ensures 1.0 <= DegradedConfig(percentVar, config).perMinute <= config.perMinute
  {
    var v := IntVar(percentVar, DEGRADED_PERCENT_DEFAULT);
    var percent := if v < 100 then v else 100;
    MulMono(config.perMinute, percent as real, 100.0);
  }

  /** A degraded configuration: whatever budget it has, a burst is one minute of it. */
  predicate OneMinuteBurst(config: Config) { config.burst == config.perMinute >= 1.0 }

  datatype Call = Call(key: string, config: Config, now: real)

  predicate InOrder(calls: seq<Call>) {
    && (forall i, j :: 0 <= i < j < |calls| ==> calls[i].now <= calls[j].now)
    && forall c :: c in calls ==> OneMinuteBurst(c.config)
  }

  function BucketsAfter(calls: seq<Call>, n: nat): Buckets
    requires n <= |calls| && forall c :: c in calls ==> OneMinuteBurst(c.config)
  {
    if n == 0 then map[] else
      var c := calls[n - 1];
      Degraded(BucketsAfter(calls, n - 1), c.key, c.config, c.now).buckets
  }

  function DecisionAt(calls: seq<Call>, i: nat): Option<Decision>
    requires i < |calls| && forall c :: c in calls ==> OneMinuteBurst(c.config)
  {
    Degraded(BucketsAfter(calls, i), calls[i].key, calls[i].config, calls[i].now).decision
  }

  /** The reference: a map with no ceiling that never forgets anyone. */
  function Unlimited(m: Buckets, c: Call): Decision
    requires c.config.perMinute > 0.0
  {
    Take(if c.key in m then m[c.key] else InitialState(c.config, c.now), c.config, c.now, 1.0)
  }

  /** It is shown every call except those the isolate had no room for. */
  function UnlimitedAfter(calls: seq<Call>, n: nat): Buckets
    requires n <= |calls| && forall c :: c in calls ==> OneMinuteBurst(c.config)
  {
    if n == 0 then map[] else
      var u, c := UnlimitedAfter(calls, n - 1), calls[n - 1];
      if DecisionAt(calls, n - 1).None? then u else u[c.key := Unlimited(u, c).state]
  }

  /** What the isolate forgot is exactly what had refilled anyway. */
  predicate Agrees(m: Buckets, u: Buckets, now: real) {
    && (forall k :: k in m ==> k in u && m[k] == u[k])
    && (forall k :: k in u ==> (k in m || Idle(u[k], now)) && u[k].tokens >= 0.0 && u[k].updatedAt <= now)
  }

  lemma AgreesLater(m: Buckets, u: Buckets, t: real, now: real)
    requires Agrees(m, u, t) && t <= now
    ensures Agrees(m, u, now)
  {
  }

  /** Two minutes refill any budget whose burst is one minute of it. */
  lemma IdleIsFull(s: State, config: Config, now: real)
    requires OneMinuteBurst(config) && s.tokens >= 0.0 && Idle(s, now)
    ensures Level(s, config, now) == config.burst
  {
    RefillGrows(config, FALLBACK_IDLE_MS, now - s.updatedAt);
  }

  lemma SameLevelSameTake(a: State, b: State, config: Config, now: real)
    requires config.perMinute > 0.0 && Level(a, config, now) == Level(b, config, now)
    ensures Take(a, config, now, 1.0) == Take(b, config, now, 1.0)
  {
    hide Level;
  }

  lemma FreshIsFull(config: Config, now: real)
    requires OneMinuteBurst(config)
    ensures Level(InitialState(config, now), config, now) == config.burst
  {
  }

  lemma StepAgrees(m: Buckets, u: Buckets, c: Call)
    requires OneMinuteBurst(c.config) && Agrees(m, u, c.now)
    ensures var step := Degraded(m, c.key, c.config, c.now);
      && (step.decision.Some? ==> step.decision.value == Unlimited(u, c))
      && Agrees(step.buckets, if step.decision.None? then u else u[c.key := Unlimited(u, c).state], c.now)
  {
    hide Take, Level;
    var s := if c.key in u then u[c.key] else InitialState(c.config, c.now);
    FreshIsFull(c.config, c.now);
    if c.key !in m {
      if c.key in u { IdleIsFull(s, c.config, c.now); }
      SameLevelSameTake(s, InitialState(c.config, c.now), c.config, c.now);
    }
    TakeLevel(s, c.config, c.now, 1.0);
  }

  lemma {:induction false} RunAgrees(calls: seq<Call>, n: nat)
    requires InOrder(calls) && 0 < n <= |calls|
    ensures Agrees(BucketsAfter(calls, n), UnlimitedAfter(calls, n), calls[n - 1].now)
    ensures DecisionAt(calls, n - 1).Some? ==>
      DecisionAt(calls, n - 1).value == Unlimited(UnlimitedAfter(calls, n - 1), calls[n - 1])
  {
    hide Degraded, Unlimited, Agrees;
    assert calls[n - 1] in calls;
    var m, u := BucketsAfter(calls, n - 1), UnlimitedAfter(calls, n - 1);
    if n == 1 {
      NothingYet(calls[0].now);
    } else {
      RunAgrees(calls, n - 1);
      AgreesLater(m, u, calls[n - 2].now, calls[n - 1].now);
    }
    StepAgrees(m, u, calls[n - 1]);
  }

  lemma NothingYet(now: real)
    ensures Agrees(map[], map[], now)
  {
  }

  /** The bounded, forgetful map answers every call it has room for exactly as a map that never
      forgets would. */
  lemma EvictionChangesNoAnswer(calls: seq<Call>, i: nat)
    requires InOrder(calls) && i < |calls|
    ensures DecisionAt(calls, i).None?
      || DecisionAt(calls, i) == Some(Unlimited(UnlimitedAfter(calls, i), calls[i]))
  {
    hide Degraded, Unlimited;
    RunAgrees(calls, i + 1);
  }

  lemma {:induction false} MapStaysUnderCeiling(calls: seq<Call>, n: nat)
    requires InOrder(calls) && n <= |calls|
    ensures |BucketsAfter(calls, n)| <= FALLBACK_MAX_ENTRIES
  {
    if n > 0 {
      MapStaysUnderCeiling(calls, n - 1);
      var c := calls[n - 1];
      StepUnderCeiling(BucketsAfter(calls, n - 1), c.key, c.config, c.now);
    }
  }

  lemma StepUnderCeiling(m: Buckets, key: string, config: Config, now: real)
    requires config.perMinute > 0.0 && |m| <= FALLBACK_MAX_ENTRIES
    ensures |Degraded(m, key, config, now).buckets| <= FALLBACK_MAX_ENTRIES
  {
    hide Take;
    var found := Remember(m, key, config, now);
    if found.state.Some? {
      var room := Room(m, now);
      if key !in m { CountAfterPut(room, key, InitialState(config, now)); }
      CountAfterPut(found.buckets, key, Take(found.state.value, config, now, 1.0).state);
    }
  }

  lemma CountAfterPut(m: Buckets, key: string, s: State)
    ensures |m[key := s]| == if key in m then |m| else |m| + 1
  {
    assert m[key := s].Keys == m.Keys + {key};
  }

  lemma NoRoomInMap(m: Buckets, key: string, config: Config, now: real)
    requires config.perMinute > 0.0 && |m| <= FALLBACK_MAX_ENTRIES
    ensures Degraded(m, key, config, now).decision.None?
      <==> key !in m && |WithoutIdle(m, now)| >= FALLBACK_MAX_ENTRIES
  {
    hide Take;
  }

  /** Call i was answered, and less than two minutes before `now`. */
  predicate Recent(calls: seq<Call>, i: nat, now: real)
    requires i < |calls| && forall c :: c in calls ==> OneMinuteBurst(c.config)
  {
    DecisionAt(calls, i).Some? && now - calls[i].now < FALLBACK_IDLE_MS
  }

  function RecentKeys(calls: seq<Call>, n: nat, now: real): set<string>
    requires n <= |calls| && forall c :: c in calls ==> OneMinuteBurst(c.config)
  {
    set i | 0 <= i < n && Recent(calls, i, now) :: calls[i].key
  }

  /** One of the first n calls was this key's, at this moment, and was answered. */
  predicate AnsweredAt(calls: seq<Call>, n: nat, key: string, at: real)
    requires n <= |calls| && forall c :: c in calls ==> OneMinuteBurst(c.config)
  {
    exists i :: 0 <= i < n && DecisionAt(calls, i).Some? && calls[i].key == key && calls[i].now == at
  }

  /** The map's entries are last answers, and it still has every recent one. */
  ghost predicate Tracks(m: Buckets, calls: seq<Call>, n: nat, now: real)
    requires n <= |calls| && forall c :: c in calls ==> OneMinuteBurst(c.config)
  {
    && (forall k :: k in m ==> AnsweredAt(calls, n, k, m[k].updatedAt))
    && forall i :: 0 <= i < n && Recent(calls, i, now) ==> calls[i].key in m && m[calls[i].key].updatedAt >= calls[i].now
  }

  predicate LeavesOthers(m: Buckets, r: Buckets, c: Call, decided: bool) {
    && (decided ==> c.key in r && r[c.key].updatedAt == c.now)
    && (forall k :: k in r && (k != c.key || !decided) ==> k in m && r[k] == m[k])
    && forall k :: k in m && !Idle(m[k], c.now) ==> k in r && (k != c.key ==> r[k] == m[k])
  }

  /** A step leaves every entry but its own as it was, or forgets it because it is idle. */
  lemma StepLeavesOthers(m: Buckets, c: Call)
    requires OneMinuteBurst(c.config)
    ensures var step := Degraded(m, c.key, c.config, c.now); LeavesOthers(m, step.buckets, c, step.decision.Some?)
  {
    hide Level;
  }

  lemma {:induction false} MapTracks(calls: seq<Call>, n: nat, now: real)
    requires InOrder(calls) && n <= |calls| && forall i :: 0 <= i < n ==> calls[i].now <= now
    ensures Tracks(BucketsAfter(calls, n), calls, n, now)
  {
    hide Degraded, OneMinuteBurst, Tracks, LeavesOthers;
    if n == 0 {
      NothingTracked(calls, now);
    } else {
      MapTracks(calls, n - 1, now);
      assert calls[n - 1] in calls;
      StepLeavesOthers(BucketsAfter(calls, n - 1), calls[n - 1]);
      TracksOn(BucketsAfter(calls, n - 1), BucketsAfter(calls, n), calls, n, now);
    }
  }

  lemma NothingTracked(calls: seq<Call>, now: real)
    requires forall c :: c in calls ==> OneMinuteBurst(c.config)
    ensures Tracks(map[], calls, 0, now)
  {
  }

  lemma TracksOn(m: Buckets, r: Buckets, calls: seq<Call>, n: nat, now: real)
    requires (forall c :: c in calls ==> OneMinuteBurst(c.config)) && 0 < n <= |calls| && calls[n - 1].now <= now
    requires Tracks(m, calls, n - 1, now)
    requires forall i :: 0 <= i < n ==> calls[i].now <= calls[n - 1].now
    requires LeavesOthers(m, r, calls[n - 1], DecisionAt(calls, n - 1).Some?)
    ensures Tracks(r, calls, n, now)
  {
    hide DecisionAt, OneMinuteBurst;
    var c, decided := calls[n - 1], DecisionAt(calls, n - 1).Some?;
    forall k | k in r ensures AnsweredAt(calls, n, k, r[k].updatedAt) {
      if k != c.key || !decided {
        assert AnsweredAt(calls, n - 1, k, m[k].updatedAt);
      }
    }
    forall i | 0 <= i < n && Recent(calls, i, now) ensures calls[i].key in r && r[calls[i].key].updatedAt >= calls[i].now {
      if i < n - 1 { assert !Idle(m[calls[i].key], c.now); }
    }
  }

  lemma RecentAreTheLiveEntries(calls: seq<Call>, n: nat, now: real)
    requires InOrder(calls) && n <= |calls| && forall i :: 0 <= i < n ==> calls[i].now <= now
    ensures WithoutIdle(BucketsAfter(calls, n), now).Keys == RecentKeys(calls, n, now)
  {
    MapTracks(calls, n, now);
    var m := BucketsAfter(calls, n);
    hide BucketsAfter, OneMinuteBurst, DecisionAt;
    forall k | k in WithoutIdle(m, now) ensures k in RecentKeys(calls, n, now) {
      assert AnsweredAt(calls, n, k, m[k].updatedAt);
      var i :| 0 <= i < n && DecisionAt(calls, i).Some? && calls[i].key == k && calls[i].now == m[k].updatedAt;
      assert Recent(calls, i, now);
    }
    forall k | k in RecentKeys(calls, n, now) ensures k in WithoutIdle(m, now) {
      var i :| 0 <= i < n && Recent(calls, i, now) && calls[i].key == k;
    }
  }

  lemma {:induction false} SubsetOfSameSize(a: set<string>, b: set<string>)
    requires a <= b && |a| >= |b|
    ensures a == b
  {
    if a != {} {
      var x :| x in a;
      SubsetOfSameSize(a - {x}, b - {x});
    }
  }

  /** A call is turned away for want of room exactly when ten thousand keys were answered within the two
      minutes before it and its own was not among them: whatever else the run held. */
  lemma NoRoomExactlyWhen(calls: seq<Call>, i: nat)
    requires InOrder(calls) && i < |calls|
    ensures DecisionAt(calls, i).None?
      <==> calls[i].key !in RecentKeys(calls, i, calls[i].now) && |RecentKeys(calls, i, calls[i].now)| >= FALLBACK_MAX_ENTRIES
  {
    var m, c := BucketsAfter(calls, i), calls[i];
    MapStaysUnderCeiling(calls, i);
    RecentAreTheLiveEntries(calls, i, c.now);
    assert c in calls;
    NoRoomInMap(m, c.key, c.config, c.now);
    var live := WithoutIdle(m, c.now);
    assert |live| == |live.Keys| && |m| == |m.Keys|;
    if |live| >= FALLBACK_MAX_ENTRIES { SubsetOfSameSize(live.Keys, m.Keys); }
    hide Degraded, BucketsAfter;
  }

  // ---- how much the isolates give away together ----

  /** What the isolate would grant this key at `now`; a key it does not know has a full budget. */
  function Held(m: Buckets, key: string, config: Config, now: real): real {
    if key in m then Level(m[key], config, now) else config.burst
  }

  predicate Sound(m: Buckets, now: real) { forall k :: k in m ==> m[k].tokens >= 0.0 && m[k].updatedAt <= now }

  /** One call, by anyone: the key loses a token if it was granted one, and otherwise neither gains
      nor loses, even when the sweep forgets it. */
  lemma StepHolds(m: Buckets, c: Call, key: string, config: Config)
    requires OneMinuteBurst(config) && OneMinuteBurst(c.config) && Sound(m, c.now) && (c.key == key ==> c.config == config)
    ensures var step := Degraded(m, c.key, c.config, c.now);
      && Sound(step.buckets, c.now)
      && Held(step.buckets, key, config, c.now)
        == Held(m, key, config, c.now) - if c.key == key && Yes(step.decision) then 1.0 else 0.0
  {
    hide Take, Level;
    var found := Remember(m, c.key, c.config, c.now);
    if key in m && Idle(m[key], c.now) { IdleIsFull(m[key], config, c.now); }
    FreshIsFull(c.config, c.now);
    if found.state.Some? { TakeLevel(found.state.value, c.config, c.now, 1.0); }
  }

  predicate Yes(d: Option<Decision>) { d.Some? && d.value.allowed }

  predicate SteadyBudget(calls: seq<Call>, key: string, config: Config) {
    forall c :: c in calls ==> c.key == key ==> c.config == config
  }

  /** How many of the first n calls were for this key, at or after `a` and up to `b`, and granted. */
  function Grants(calls: seq<Call>, key: string, a: real, b: real, n: nat): int
    requires n <= |calls| && forall c :: c in calls ==> OneMinuteBurst(c.config)
  {
    if n == 0 then 0 else
      var c := calls[n - 1];
      Grants(calls, key, a, b, n - 1) + if c.key == key && a <= c.now <= b && Yes(DecisionAt(calls, n - 1)) then 1 else 0
  }

  lemma {:induction false} GrantsAreFunded(calls: seq<Call>, key: string, config: Config, a: real, b: real, n: nat)
    requires InOrder(calls) && OneMinuteBurst(config) && SteadyBudget(calls, key, config)
    requires 0 < n <= |calls| && calls[n - 1].now <= b
    ensures var t := calls[n - 1].now;
      && Sound(BucketsAfter(calls, n), t)
      && Grants(calls, key, a, b, n) as real + Held(BucketsAfter(calls, n), key, config, t)
        <= config.burst + Refill(config, Max(0.0, t - a))
      && (t < a ==> Grants(calls, key, a, b, n) == 0)
  {
    hide Degraded, Level, Refill, Sound, Held, OneMinuteBurst;
    var m, c := BucketsAfter(calls, n - 1), calls[n - 1];
    assert c in calls;
    PositiveRate(config);
    if n == 1 {
      NothingHeld(key, config, c.now);
    } else {
      GrantsAreFunded(calls, key, config, a, b, n - 1);
      HeldOverTime(m, key, config, calls[n - 2].now, c.now);
      Elapsed(config, calls[n - 2].now, c.now, a);
    }
    StepHolds(m, c, key, config);
    HeldAtMostBurst(m, key, config, c.now);
    RefillGrows(config, 0.0, Max(0.0, c.now - a));
  }

  lemma PositiveRate(config: Config)
    requires OneMinuteBurst(config)
    ensures config.perMinute > 0.0 && config.burst >= 1.0
  {
  }

  lemma NothingHeld(key: string, config: Config, now: real)
    ensures Sound(map[], now) && Held(map[], key, config, now) == config.burst
  {
  }

  lemma HeldAtMostBurst(m: Buckets, key: string, config: Config, now: real)
    ensures Held(m, key, config, now) <= config.burst
  {
    hide Refill;
  }

  lemma HeldOverTime(m: Buckets, key: string, config: Config, t: real, u: real)
    requires config.perMinute > 0.0 && Sound(m, t) && t <= u
    ensures Sound(m, u)
    ensures Held(m, key, config, u) <= Held(m, key, config, t) + Refill(config, u - t)
  {
    hide Level, Refill;
    RefillGrows(config, 0.0, u - t);
    if key in m { LevelOverTime(m[key], config, t, u); }
  }

  lemma Elapsed(config: Config, t: real, u: real, a: real)
    requires config.perMinute > 0.0 && t <= u
    ensures t >= a ==> Refill(config, Max(0.0, t - a)) + Refill(config, u - t) == Refill(config, Max(0.0, u - a))
  {
    RefillAdds(config, t - a, u - t);
  }

  /** In any window of time one isolate grants a key at most a minute's budget and the refill. */
  lemma {:induction false} IsolateIsBounded(calls: seq<Call>, key: string, config: Config, a: real, b: real, n: nat)
    requires InOrder(calls) && OneMinuteBurst(config) && SteadyBudget(calls, key, config) && n <= |calls| && a <= b
    ensures Grants(calls, key, a, b, n) as real <= config.burst + Refill(config, b - a)
  {
    hide Degraded, Level, Refill, Held, DecisionAt, OneMinuteBurst;
    PositiveRate(config);
    RefillGrows(config, 0.0, b - a);
    if n > 0 {
      if calls[n - 1].now <= b {
        GrantsAreFunded(calls, key, config, a, b, n);
        HeldIsNotNegative(BucketsAfter(calls, n), key, config, calls[n - 1].now);
        RefillGrows(config, Max(0.0, calls[n - 1].now - a), b - a);
      } else {
        IsolateIsBounded(calls, key, config, a, b, n - 1);
      }
    }
  }

  lemma HeldIsNotNegative(m: Buckets, key: string, config: Config, now: real)
    requires OneMinuteBurst(config) && Sound(m, now)
    ensures Held(m, key, config, now) >= 0.0
  {
    hide Level;
    if key in m { LevelInRange(m[key], config, now); }
  }

  function AllGrants(calls: seq<Call>, key: string, a: real, b: real): int
    requires InOrder(calls)
  {
    Grants(calls, key, a, b, |calls|)
  }

  function TotalGrants(isolates: seq<seq<Call>>, key: string, a: real, b: real): int
    requires forall i :: 0 <= i < |isolates| ==> InOrder(isolates[i])
  {
    if isolates == [] then 0 else
      TotalGrants(isolates[1..], key, a, b) + AllGrants(isolates[0], key, a, b)
  }

  function Times(n: nat, x: real): real { n as real * x }

  /** Together, n isolates grant at most n times that, so an outage keeps every org bounded. */
  lemma {:induction false} OutageIsBounded(isolates: seq<seq<Call>>, key: string, config: Config, a: real, b: real)
    requires forall i :: 0 <= i < |isolates| ==> InOrder(isolates[i]) && SteadyBudget(isolates[i], key, config)
    requires OneMinuteBurst(config) && a <= b
    ensures TotalGrants(isolates, key, a, b) as real <= Times(|isolates|, config.burst + Refill(config, b - a))
  {
    hide InOrder, SteadyBudget, Refill, AllGrants, OneMinuteBurst, Times;
    OneMore(|isolates|, config.burst + Refill(config, b - a));
    if isolates != [] {
      OutageIsBounded(isolates[1..], key, config, a, b);
      OneIsolate(isolates[0], key, config, a, b);
    }
  }

  lemma OneIsolate(calls: seq<Call>, key: string, config: Config, a: real, b: real)
    requires InOrder(calls) && OneMinuteBurst(config) && SteadyBudget(calls, key, config) && a <= b
    ensures AllGrants(calls, key, a, b) as real <= config.burst + Refill(config, b - a)
  {
    IsolateIsBounded(calls, key, config, a, b, |calls|);
  }

  lemma OneMore(n: nat, x: real)
    ensures Times(0, x) == 0.0
    ensures n > 0 ==> Times(n, x) == Times(n - 1, x) + x
  {
  }
}
