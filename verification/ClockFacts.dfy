/** Which clocks a bucket may be run by: when the time elapsed bounds what it grants. */
module ClockFacts {
  import opened Reals
  import opened Bucket

  function StepForward(reqs: seq<Request>, k: nat): real
    requires 0 < k < |reqs|
  {
    Max(0.0, reqs[k].at - reqs[k - 1].at)
  }

  /** What the clock's forward steps can refill: none of them more than a full bucket. */
  function Capped(config: Config, reqs: seq<Request>, j: nat): real
    requires 0 < j <= |reqs|
  {
    if j == 1 then 0.0 else Capped(config, reqs, j - 1) + Min(config.burst, Refill(config, StepForward(reqs, j - 1)))
  }

  predicate SameClock(reqs: seq<Request>, clock: seq<Request>) {
    |reqs| == |clock| && forall k :: 0 <= k < |reqs| ==> reqs[k].at == clock[k].at
  }

  lemma {:induction false} CappedByClock(config: Config, reqs: seq<Request>, clock: seq<Request>, j: nat)
    requires 0 < j <= |reqs| && SameClock(reqs, clock)
    ensures Capped(config, reqs, j) == Capped(config, clock, j)
  {
    hide Refill;
    if j > 1 { CappedByClock(config, reqs, clock, j - 1); }
  }

  /** A take leaves no more than a full bucket, and spends and leaves no more than was there and could
      be refilled. */
  lemma TakeLeavesCapped(s: State, config: Config, now: real, cost: real)
    requires config.perMinute > 0.0 && s.tokens >= 0.0
    ensures var d := Take(s, config, now, cost);
      d.state.tokens + (if d.allowed then cost else 0.0)
        <= s.tokens + Min(config.burst, Refill(config, Max(0.0, now - s.updatedAt)))
  {
    hide Refill;
  }

  lemma {:induction false} SpendingIsCapped(start: State, config: Config, reqs: seq<Request>, j: nat)
    requires config.perMinute > 0.0 && InRange(start, config) && CostsCount(reqs) && 0 < j <= |reqs|
    ensures Spent(start, config, reqs, 0, j) + After(start, config, reqs, j).tokens <= config.burst + Capped(config, reqs, j)
  {
    hide Take, Refill;
    var s, r := After(start, config, reqs, j - 1), reqs[j - 1];
    TokensStayInRange(start, config, reqs, j - 1);
    if j == 1 {
      TakeLeaves(start, config, r.at, r.cost);
      assert Spent(start, config, reqs, 0, 0) == 0.0;
    } else {
      SpendingIsCapped(start, config, reqs, j - 1);
      TakeLeavesCapped(s, config, r.at, r.cost);
    }
  }

  // ---- the load that takes all there is ----

  /** By this clock, each request asks for all that the bucket holds. */
  function Emptying(config: Config, clock: seq<Request>): (reqs: seq<Request>)
    ensures SameClock(reqs, clock)
  {
    seq(|clock|, k requires 0 <= k < |clock| =>
      Request(clock[k].at, if k == 0 then config.burst else Level(State(0.0, clock[k - 1].at), config, clock[k].at)))
  }

  lemma TakeAll(s: State, config: Config, now: real)
    requires config.perMinute > 0.0
    ensures var d := Take(s, config, now, Level(s, config, now)); d.allowed && d.state == State(0.0, now)
  {
    hide Refill, Level;
  }

  lemma FullLevel(config: Config, t: real)
    requires config.perMinute > 0.0 && config.burst >= 0.0
    ensures Level(InitialState(config, t), config, t) == config.burst
  {
    RefillGrows(config, 0.0, 0.0);
  }

  lemma EmptyingAsks(config: Config, clock: seq<Request>, k: nat)
    requires k < |clock|
    ensures var reqs := Emptying(config, clock);
      |reqs| == |clock| && reqs[k].at == clock[k].at
      && (k == 0 ==> reqs[k].cost == config.burst)
      && (k > 0 ==> reqs[k].cost == Level(State(0.0, clock[k - 1].at), config, clock[k].at))
  {
    hide Level;
  }

  lemma {:induction false} EmptyingSpendsAll(config: Config, clock: seq<Request>, j: nat)
    requires config.perMinute > 0.0 && config.burst >= 0.0 && 0 < j <= |clock|
    ensures var start, reqs := InitialState(config, clock[0].at), Emptying(config, clock);
      && After(start, config, reqs, j) == State(0.0, clock[j - 1].at)
      && Spent(start, config, reqs, 0, j) == config.burst + Capped(config, clock, j)
  {
    hide Take, Refill, Level, Emptying;
    var start, reqs := InitialState(config, clock[0].at), Emptying(config, clock);
    var s := After(start, config, reqs, j - 1);
    EmptyingAsks(config, clock, j - 1);
    TakeAll(s, config, clock[j - 1].at);
    if j == 1 {
      FullLevel(config, clock[0].at);
      assert s == start && Spent(start, config, reqs, 0, 0) == 0.0;
    } else {
      EmptyingSpendsAll(config, clock, j - 1);
      EmptiedLevel(config, clock, j - 1);
    }
  }

  lemma EmptiedLevel(config: Config, clock: seq<Request>, k: nat)
    requires 0 < k < |clock|
    ensures Level(State(0.0, clock[k - 1].at), config, clock[k].at) == Min(config.burst, Refill(config, StepForward(clock, k)))
  {
    hide Refill;
  }

  // ---- when the elapsed time is a bound ----

  function Elapsed(clock: seq<Request>): real
    requires clock != []
  {
    clock[|clock| - 1].at - clock[0].at
  }

  /** By this clock no bucket of this kind, however it starts and whatever is asked of it, grants more than
      a burst and the refill of the time elapsed. */
  ghost predicate KeepsElapsedBound(config: Config, clock: seq<Request>)
    requires config.perMinute > 0.0 && clock != []
  {
    forall start, reqs :: InRange(start, config) && CostsCount(reqs) && SameClock(reqs, clock) ==>
      Spent(start, config, reqs, 0, |reqs|) <= config.burst + Refill(config, Elapsed(clock))
  }

  lemma EmptyingCounts(config: Config, clock: seq<Request>)
    requires config.perMinute > 0.0 && config.burst >= 0.0
    ensures CostsCount(Emptying(config, clock))
  {
    hide Level;
    forall k | 0 < k < |clock| ensures Level(State(0.0, clock[k - 1].at), config, clock[k].at) >= 0.0 {
      LevelInRange(State(0.0, clock[k - 1].at), config, clock[k].at);
    }
  }

  /** That is so exactly when the forward steps, each counted for a full bucket at most, could not have
      refilled more than the elapsed time. */
  lemma ElapsedBoundKeptExactlyWhen(config: Config, clock: seq<Request>)
    requires config.perMinute > 0.0 && config.burst >= 0.0 && clock != []
    ensures KeepsElapsedBound(config, clock) <==> Capped(config, clock, |clock|) <= Refill(config, Elapsed(clock))
  {
    hide Take, Refill, Spent, Capped, Emptying;
    EmptyingSpendsAll(config, clock, |clock|);
    EmptyingCounts(config, clock);
    var start, load := InitialState(config, clock[0].at), Emptying(config, clock);
    assert InRange(start, config) && SameClock(load, clock);
    assert KeepsElapsedBound(config, clock) ==>
      Spent(start, config, load, 0, |load|) <= config.burst + Refill(config, Elapsed(clock));
    if Capped(config, clock, |clock|) <= Refill(config, Elapsed(clock)) {
      forall start, reqs | InRange(start, config) && CostsCount(reqs) && SameClock(reqs, clock)
        ensures Spent(start, config, reqs, 0, |reqs|) <= config.burst + Refill(config, Elapsed(clock))
      {
        SpendingIsCapped(start, config, reqs, |reqs|);
        TokensStayInRange(start, config, reqs, |reqs|);
        CappedByClock(config, reqs, clock, |reqs|);
      }
    }
  }

  /** No step forward is worth more than a full bucket. */
  predicate StepsFit(config: Config, clock: seq<Request>) {
    forall k :: 0 < k < |clock| ==> Refill(config, StepForward(clock, k)) <= config.burst
  }

  lemma {:induction false} CappedIsForward(config: Config, clock: seq<Request>, j: nat)
    requires config.perMinute > 0.0 && 0 < j <= |clock|
    ensures Capped(config, clock, j) <= Refill(config, Forward(clock, 0, j))
    ensures StepsFit(config, clock) ==> Capped(config, clock, j) == Refill(config, Forward(clock, 0, j))
  {
    hide Refill;
    RefillGrows(config, 0.0, 0.0);
    if j > 1 {
      CappedIsForward(config, clock, j - 1);
      RefillAdds(config, Forward(clock, 0, j - 1), StepForward(clock, j - 1));
    }
  }

  /** A clock that never goes back keeps the bound for every bucket, and for a bucket that no single step
      forward could fill, no other clock does. */
  lemma ElapsedBoundNeedsForwardClock(config: Config, clock: seq<Request>)
    requires config.perMinute > 0.0 && config.burst >= 0.0 && clock != []
    ensures NeverBack(clock, 0, |clock|) ==> KeepsElapsedBound(config, clock)
    ensures StepsFit(config, clock) ==> (KeepsElapsedBound(config, clock) <==> NeverBack(clock, 0, |clock|))
  {
    hide KeepsElapsedBound, Capped, Refill, StepsFit, NeverBack, Forward;
    ElapsedBoundKeptExactlyWhen(config, clock);
    CappedIsForward(config, clock, |clock|);
    ForwardIsElapsed(clock, 0, |clock|);
    RefillRises(config, Elapsed(clock), Forward(clock, 0, |clock|));
  }

  lemma RefillRises(config: Config, a: real, b: real)
    requires config.perMinute > 0.0
    ensures Refill(config, a) < Refill(config, b) <==> a < b
    ensures a == b ==> Refill(config, a) == Refill(config, b)
  {
    if a < b { StrictMul(config.perMinute, a, b); }
    if b < a { StrictMul(config.perMinute, b, a); }
  }
}
