/** The token bucket as arithmetic: times in milliseconds, tokens exact. */
module Bucket {
  import opened Reals

  datatype State = State(tokens: real, updatedAt: real)

  datatype Config = Config(perMinute: real, burst: real)

  datatype Decision = Decision(allowed: bool, state: State, remaining: int, retryAfterSeconds: int, resetAt: int)

  function Ceil(x: real): int { -((-x).Floor) }

  function InitialState(config: Config, now: real): State { State(config.burst, now) }

  /** What a stretch of time is worth. */
  function Refill(config: Config, ms: real): real { ms * config.perMinute / 60000.0 }

  /** What the bucket would hold at `now` if nothing were taken. */
  function Level(s: State, config: Config, now: real): real {
    Min(config.burst, s.tokens + Refill(config, Max(0.0, now - s.updatedAt)))
  }

  /** Every caller clamps the rate to at least one token a minute. */
  function Take(s: State, config: Config, now: real, cost: real): Decision
    requires config.perMinute > 0.0
  {
    var refilled := Level(s, config, now);
    var allowed := refilled >= cost;
    var tokens := if allowed then refilled - cost else refilled;
    var perMs := config.perMinute / 60000.0;
    var retry := Ceil((if allowed then 0.0 else cost - tokens) / perMs / 1000.0);
    Decision(
      allowed,
      State(tokens, now),
      if tokens.Floor > 0 then tokens.Floor else 0,
      if allowed then 0 else if retry > 1 then retry else 1,
      Ceil((now + (config.burst - tokens) / perMs) / 1000.0))
  }

  // ---- the arithmetic ----

  lemma RefillAdds(config: Config, a: real, b: real)
    ensures Refill(config, a) + Refill(config, b) == Refill(config, a + b)
  {
  }

  lemma RefillGrows(config: Config, a: real, b: real)
    requires config.perMinute > 0.0 && a <= b
    ensures Refill(config, a) <= Refill(config, b) && Refill(config, 0.0) == 0.0
  {
    MulMono(config.perMinute, a, b);
  }

  lemma CeilIsLeast(x: real, n: int)
    ensures n as real >= x <==> n >= Ceil(x)
  {
  }

  lemma QuotientBelow(a: real, b: real, x: real)
    requires b > 0.0
    ensures x >= a / b <==> x * b >= a
  {
    var q := a / b;
    DivTimes(a, b);
    if x >= q { MulMono(b, q, x); }
    if x < q { StrictMul(b, x, q); }
  }

  lemma StrictMul(b: real, x: real, y: real)
    requires b > 0.0 && x < y
    ensures x * b < y * b
  {
  }

  /** A bucket that a request in range keeps in range. */
  predicate InRange(s: State, config: Config) { 0.0 <= s.tokens <= config.burst }

  lemma LevelInRange(s: State, config: Config, now: real)
    requires config.perMinute > 0.0 && 0.0 <= s.tokens && 0.0 <= config.burst
    ensures 0.0 <= Level(s, config, now) <= config.burst
    ensures InRange(s, config) ==> s.tokens <= Level(s, config, now)
  {
    RefillGrows(config, 0.0, Max(0.0, now - s.updatedAt));
  }

  /** Waiting adds at most what the time is worth, and takes nothing away. */
  lemma LevelOverTime(s: State, config: Config, t: real, u: real)
    requires config.perMinute > 0.0 && s.updatedAt <= t <= u
    ensures Level(s, config, t) <= Level(s, config, u) <= Level(s, config, t) + Refill(config, u - t)
  {
    hide Refill;
    var a, b := t - s.updatedAt, u - s.updatedAt;
    RefillAdds(config, a, u - t);
    assert a + (u - t) == b;
    RefillGrows(config, 0.0, u - t);
  }

  /** A take removes its cost if it is granted and nothing if it is not. */
  lemma TakeLevel(s: State, config: Config, now: real, cost: real)
    requires config.perMinute > 0.0 && 0.0 <= s.tokens && 0.0 <= config.burst && cost >= 0.0
    ensures var d := Take(s, config, now, cost);
      && InRange(d.state, config) && d.state.updatedAt == now
      && Level(d.state, config, now) == Level(s, config, now) - (if d.allowed then cost else 0.0)
      && (d.allowed <==> Level(s, config, now) >= cost)
  {
    LevelInRange(s, config, now);
    RefillGrows(config, 0.0, 0.0);
  }

  // ---- what a caller is told ----

  lemma WholeTokensLeft(s: State, config: Config, now: real, n: nat)
    requires config.perMinute > 0.0 && 0.0 <= s.tokens && 0.0 <= config.burst
    ensures var d := Take(s, config, now, 1.0);
      d.remaining >= n <==> Take(d.state, config, now, n as real).allowed
  {
    hide Refill;
    TakeLevel(s, config, now, 1.0);
    RefillGrows(config, 0.0, 0.0);
  }

  /** Retry-After is the least whole number of seconds, at least one, after which the same request
      is granted, if it ever can be. */
  lemma RetryAfterIsExact(s: State, config: Config, now: real, cost: real, wait: nat)
    requires config.perMinute > 0.0 && 0.0 <= s.tokens && 0.0 <= cost <= config.burst && wait >= 1
    ensures var d := Take(s, config, now, cost);
      !d.allowed ==>
        (Take(d.state, config, now + wait as real * 1000.0, cost).allowed <==> wait >= d.retryAfterSeconds)
  {
    hide Level, Refill, Take, Ceil;
    var d := Take(s, config, now, cost);
    var later := now + wait as real * 1000.0;
    TakeLevel(s, config, now, cost);
    LevelInRange(s, config, now);
    TakeLevel(d.state, config, later, cost);
    LevelInRange(d.state, config, now);
    RefusalTells(s, config, now, cost);
    LevelLater(d.state, config, later);
    LevelLater(d.state, config, now);
    RefillGrows(config, 0.0, 0.0);
    WaitIsExact(config, cost - d.state.tokens, wait);
  }

  lemma RefusalTells(s: State, config: Config, now: real, cost: real)
    requires config.perMinute > 0.0
    ensures var d := Take(s, config, now, cost);
      var retry := Ceil((cost - d.state.tokens) / (config.perMinute / 60000.0) / 1000.0);
      !d.allowed ==> d.retryAfterSeconds == if retry > 1 then retry else 1
  {
    hide Level, Ceil;
  }

  lemma WaitIsExact(config: Config, deficit: real, wait: nat)
    requires config.perMinute > 0.0
    ensures Refill(config, wait as real * 1000.0) >= deficit
      <==> wait >= Ceil(deficit / (config.perMinute / 60000.0) / 1000.0)
  {
    hide Ceil;
    var perMs := config.perMinute / 60000.0;
    assert Refill(config, wait as real * 1000.0) == wait as real * 1000.0 * perMs;
    QuotientBelow(deficit, perMs, wait as real * 1000.0);
    QuotientBelow(deficit / perMs, 1000.0, wait as real);
    CeilIsLeast(deficit / perMs / 1000.0, wait);
  }

  lemma LevelLater(s: State, config: Config, now: real)
    requires s.updatedAt <= now
    ensures Level(s, config, now) == Min(config.burst, s.tokens + Refill(config, now - s.updatedAt))
  {
  }

  /** X-RateLimit-Reset is the first whole second at which the bucket is full again. */
  lemma ResetIsExact(s: State, config: Config, now: real, cost: real, second: int)
    requires config.perMinute > 0.0 && 0.0 <= s.tokens && 0.0 <= config.burst && cost >= 0.0
    requires now <= second as real * 1000.0
    ensures var d := Take(s, config, now, cost);
      Level(d.state, config, second as real * 1000.0) == config.burst <==> second >= d.resetAt
  {
    hide Level;
    var d := Take(s, config, now, cost);
    var perMs := config.perMinute / 60000.0;
    var at := second as real * 1000.0;
    TakeLevel(s, config, now, cost);
    LevelLater(d.state, config, at);
    assert Refill(config, at - now) == (at - now) * perMs;
    QuotientBelow(config.burst - d.state.tokens, perMs, at - now);
    QuotientBelow(now + (config.burst - d.state.tokens) / perMs, 1000.0, second as real);
    CeilIsLeast((now + (config.burst - d.state.tokens) / perMs) / 1000.0, second);
  }

  // ---- runs ----

  datatype Request = Request(at: real, cost: real)

  predicate CostsCount(reqs: seq<Request>) { forall i :: 0 <= i < |reqs| ==> reqs[i].cost >= 0.0 }

  /** The bucket after the first n requests. */
  function After(start: State, config: Config, reqs: seq<Request>, n: nat): State
    requires config.perMinute > 0.0 && n <= |reqs|
  {
    if n == 0 then start else
      Take(After(start, config, reqs, n - 1), config, reqs[n - 1].at, reqs[n - 1].cost).state
  }

  predicate Granted(start: State, config: Config, reqs: seq<Request>, i: nat)
    requires config.perMinute > 0.0 && i < |reqs|
  {
    Take(After(start, config, reqs, i), config, reqs[i].at, reqs[i].cost).allowed
  }

  /** The cost of the requests i to j - 1 that were granted. */
  function Spent(start: State, config: Config, reqs: seq<Request>, i: nat, j: nat): real
    requires config.perMinute > 0.0 && i <= j <= |reqs|
  {
    if i == j then 0.0 else
      Spent(start, config, reqs, i, j - 1) + if Granted(start, config, reqs, j - 1) then reqs[j - 1].cost else 0.0
  }

  /** Over any run, whatever its clock does, the tokens stay between nothing and a full bucket. */
  lemma {:induction false} TokensStayInRange(start: State, config: Config, reqs: seq<Request>, n: nat)
    requires config.perMinute > 0.0 && InRange(start, config) && n <= |reqs| && CostsCount(reqs)
    ensures InRange(After(start, config, reqs, n), config)
    ensures n > 0 ==> After(start, config, reqs, n).updatedAt == reqs[n - 1].at
  {
    if n > 0 {
      hide Take;
      TokensStayInRange(start, config, reqs, n - 1);
      TakeLevel(After(start, config, reqs, n - 1), config, reqs[n - 1].at, reqs[n - 1].cost);
    }
  }

  /** How far the clock moved forward from request i to request j - 1, each step back left out. */
  function Forward(reqs: seq<Request>, i: nat, j: nat): real
    requires i < j <= |reqs|
  {
    if j == i + 1 then 0.0 else Forward(reqs, i, j - 1) + Max(0.0, reqs[j - 1].at - reqs[j - 2].at)
  }

  predicate NeverBack(reqs: seq<Request>, i: nat, j: nat) {
    forall k :: i < k < j && k < |reqs| ==> reqs[k - 1].at <= reqs[k].at
  }

  /** The forward movement is the time elapsed exactly when the clock never went back, and otherwise
      more. */
  lemma {:induction false} ForwardIsElapsed(reqs: seq<Request>, i: nat, j: nat)
    requires i < j <= |reqs|
    ensures Forward(reqs, i, j) >= Max(0.0, reqs[j - 1].at - reqs[i].at)
    ensures Forward(reqs, i, j) == reqs[j - 1].at - reqs[i].at <==> NeverBack(reqs, i, j)
  {
    if j > i + 1 { ForwardIsElapsed(reqs, i, j - 1); }
  }

  /** What a stretch of requests spends and what it leaves come to no more than a full bucket and
      what the forward movement of the clock refilled. */
  lemma {:induction false} SpendingIsFunded(start: State, config: Config, reqs: seq<Request>, i: nat, j: nat)
    requires config.perMinute > 0.0 && InRange(start, config) && CostsCount(reqs) && i < j <= |reqs|
    ensures Spent(start, config, reqs, i, j) + After(start, config, reqs, j).tokens
      <= config.burst + Refill(config, Forward(reqs, i, j))
  {
    hide Take, Refill;
    var s, r := After(start, config, reqs, j - 1), reqs[j - 1];
    TokensStayInRange(start, config, reqs, j - 1);
    TakeLeaves(s, config, r.at, r.cost);
    RefillGrows(config, 0.0, 0.0);
    if j - 1 > i {
      SpendingIsFunded(start, config, reqs, i, j - 1);
      RefillAdds(config, Forward(reqs, i, j - 1), Max(0.0, r.at - reqs[j - 2].at));
    } else {
      assert Spent(start, config, reqs, i, j - 1) == 0.0;
    }
  }

  /** What a take spends and leaves was there before or was refilled since. */
  lemma TakeLeaves(s: State, config: Config, now: real, cost: real)
    requires config.perMinute > 0.0
    ensures var d := Take(s, config, now, cost);
      && d.state.tokens + (if d.allowed then cost else 0.0) <= config.burst
      && d.state.tokens + (if d.allowed then cost else 0.0) <= s.tokens + Refill(config, Max(0.0, now - s.updatedAt))
  {
    hide Refill;
  }

  /** Between any two requests of any run, no more is granted than a burst and what the clock's forward
      movement refilled; with a clock that never goes back, than a burst and the refill of the time
      between. */
  lemma SpendingIsBounded(start: State, config: Config, reqs: seq<Request>, i: nat, j: nat)
    requires config.perMinute > 0.0 && InRange(start, config) && CostsCount(reqs) && i < j <= |reqs|
    ensures Spent(start, config, reqs, i, j) <= config.burst + Refill(config, Forward(reqs, i, j))
    ensures NeverBack(reqs, i, j) ==>
      Spent(start, config, reqs, i, j) <= config.burst + Refill(config, reqs[j - 1].at - reqs[i].at)
  {
    hide Take, Refill, Spent, Forward;
    SpendingIsFunded(start, config, reqs, i, j);
    TokensStayInRange(start, config, reqs, j);
    ForwardIsElapsed(reqs, i, j);
  }

  /** The first bound is met: this run spends two tokens in no elapsed time, from a bucket that holds
      one and earns one a minute, because its clock goes back a minute and forward again. */
  lemma RewoundClockRefillsTwice()
    ensures var config := Config(1.0, 1.0);
      var reqs := [Request(60000.0, 1.0), Request(0.0, 1.0), Request(60000.0, 1.0)];
      && Spent(State(1.0, 0.0), config, reqs, 0, 3) == 2.0
      && config.burst + Refill(config, reqs[2].at - reqs[0].at) == 1.0
      && config.burst + Refill(config, Forward(reqs, 0, 3)) == 2.0
  {
    hide Take, Refill;
    var config := Config(1.0, 1.0);
    var reqs := [Request(60000.0, 1.0), Request(0.0, 1.0), Request(60000.0, 1.0)];
    var s0, s1, s2 := State(1.0, 0.0), State(0.0, 60000.0), State(0.0, 0.0);
    RefillGrows(config, 0.0, 0.0);
    TakeFrom(s0, 60000.0, 1.0);
    TakeFrom(s1, 0.0, 0.0);
    TakeFrom(s2, 60000.0, 1.0);
    assert After(s0, config, reqs, 0) == s0;
    assert After(s0, config, reqs, 1) == s1;
    assert After(s0, config, reqs, 2) == s2;
    assert Spent(s0, config, reqs, 0, 0) == 0.0;
    assert Forward(reqs, 0, 1) == 0.0 && Forward(reqs, 0, 2) == 0.0 && Forward(reqs, 0, 3) == 60000.0;
    MinuteRefill(config);
    assert Spent(s0, config, reqs, 0, 1) == 1.0;
    assert Spent(s0, config, reqs, 0, 2) == 1.0;
  }

  lemma MinuteRefill(config: Config)
    ensures Refill(config, 60000.0) == config.perMinute
  {
  }

  lemma TakeFrom(s: State, now: real, level: real)
    requires level == Min(1.0, s.tokens + Max(0.0, now - s.updatedAt) / 60000.0)
    ensures var d := Take(s, Config(1.0, 1.0), now, 1.0);
      d.allowed == (level >= 1.0) && d.state == State(if level >= 1.0 then level - 1.0 else level, now)
  {
  }

  /** Losing the state a take wrote, and going on from the one before it, is worth at most what
      that take was granted, at any later moment. */
  lemma LostWriteIsCheap(s: State, config: Config, now: real, cost: real, later: real)
    requires config.perMinute > 0.0 && InRange(s, config) && cost >= 0.0 && s.updatedAt <= now <= later
    ensures var d := Take(s, config, now, cost);
      Level(d.state, config, later) <= Level(s, config, later)
        <= Level(d.state, config, later) + if d.allowed then cost else 0.0
  {
    hide Refill, Take;
    var kept := Take(s, config, now, cost).state;
    TakeLevel(s, config, now, cost);
    LevelInRange(s, config, now);
    RefillGrows(config, 0.0, now - s.updatedAt);
    RefillGrows(config, 0.0, later - now);
    RefillGrows(config, 0.0, 0.0);
    RefillAdds(config, now - s.updatedAt, later - now);
    assert now - s.updatedAt + (later - now) == later - s.updatedAt;
  }

  // ---- runs that lose writes ----

  /** A request, or a crash after which the bucket goes on from where it was `back` takes earlier. */
  datatype Happening = Asked(at: real, cost: real) | Crashed(back: nat)

  /** Every state the bucket has been in and still could be found in, the first and full one at the
      bottom, and what each step up cost. */
  datatype Written = Written(states: seq<State>, costs: seq<real>)

  predicate Shape(w: Written) { |w.states| == |w.costs| + 1 }

  function Top(w: Written): State
    requires Shape(w)
  {
    w.states[|w.states| - 1]
  }

  function Happens(w: Written, config: Config, h: Happening): (r: Written)
    requires config.perMinute > 0.0 && Shape(w)
    ensures Shape(r)
  {
    match h
    case Asked(at, cost) =>
      var d := Take(Top(w), config, at, cost);
      Written(w.states + [d.state], w.costs + [if d.allowed then cost else 0.0])
    case Crashed(back) =>
      var n := if back <= |w.costs| then |w.costs| - back else 0;
      Written(w.states[..n + 1], w.costs[..n])
  }

  function Sum(costs: seq<real>): real { if costs == [] then 0.0 else Sum(costs[..|costs| - 1]) + costs[|costs| - 1] }

  /** What one happening grants, and what it makes the bucket forget having granted. */
  function Grant(w: Written, config: Config, h: Happening): real
    requires config.perMinute > 0.0 && Shape(w)
  {
    if h.Asked? && Take(Top(w), config, h.at, h.cost).allowed then h.cost else 0.0
  }

  function Loss(w: Written, h: Happening): real
    requires Shape(w)
  {
    if h.Asked? then 0.0 else Sum(w.costs) - Sum(w.costs[..if h.back <= |w.costs| then |w.costs| - h.back else 0])
  }

  function WrittenAfter(start: State, config: Config, hs: seq<Happening>): (w: Written)
    requires config.perMinute > 0.0
    ensures Shape(w)
  {
    if hs == [] then Written([start], []) else Happens(WrittenAfter(start, config, hs[..|hs| - 1]), config, hs[|hs| - 1])
  }

  function GrantedInAll(start: State, config: Config, hs: seq<Happening>): real
    requires config.perMinute > 0.0
  {
    if hs == [] then 0.0 else
      var head, h := hs[..|hs| - 1], hs[|hs| - 1];
      GrantedInAll(start, config, head) + Grant(WrittenAfter(start, config, head), config, h)
  }

  function LostInAll(start: State, config: Config, hs: seq<Happening>): real
    requires config.perMinute > 0.0
  {
    if hs == [] then 0.0 else
      var head, h := hs[..|hs| - 1], hs[|hs| - 1];
      LostInAll(start, config, head) + Loss(WrittenAfter(start, config, head), h)
  }

  /** Requests come in time order between these moments. */
  predicate InTime(hs: seq<Happening>, since: real, now: real) {
    && since <= now
    && (forall i :: 0 <= i < |hs| && hs[i].Asked? ==> since <= hs[i].at <= now && hs[i].cost >= 0.0)
    && forall i, j :: 0 <= i < j < |hs| && hs[i].Asked? && hs[j].Asked? ==> hs[i].at <= hs[j].at
  }

  /** State i is worth at most what the steps from it to state k cost more than state k. */
  predicate Comparable(w: Written, config: Config, i: nat, k: nat, t: real)
    requires Shape(w) && i <= k < |w.states|
  {
    Level(w.states[i], config, t) <= Level(w.states[k], config, t) + Sum(w.costs[..k]) - Sum(w.costs[..i])
  }

  ghost predicate Accounted(w: Written, config: Config, now: real) {
    && Shape(w)
    && (forall i :: 0 <= i < |w.states| ==> InRange(w.states[i], config) && w.states[i].updatedAt <= now)
    && forall i, k, t :: 0 <= i <= k < |w.states| && t >= now ==> Comparable(w, config, i, k, t)
  }

  lemma AskedAccounts(w: Written, config: Config, at: real, cost: real)
    requires config.perMinute > 0.0 && Accounted(w, config, at) && cost >= 0.0
    ensures Accounted(Happens(w, config, Asked(at, cost)), config, at)
  {
    hide Take, Level;
    var r := Happens(w, config, Asked(at, cost));
    var n := |w.costs|;
    TakeLevel(Top(w), config, at, cost);
    forall i, k, t | 0 <= i <= k < |r.states| && t >= at ensures Comparable(r, config, i, k, t) {
      if k <= n {
        assert Comparable(w, config, i, k, t);
        assert r.costs[..k] == w.costs[..k] && r.costs[..i] == w.costs[..i];
      } else if i <= n {
        assert Comparable(w, config, i, n, t);
        LostWriteIsCheap(Top(w), config, at, cost, t);
        assert r.costs[..k] == r.costs && r.costs[..n] == w.costs && w.costs[..n] == w.costs && r.costs[..i] == w.costs[..i];
        assert r.states[i] == w.states[i] && r.states[k] == Take(Top(w), config, at, cost).state;
        assert Sum(r.costs) == Sum(w.costs) + r.costs[n];
      }
    }
  }

  lemma CrashedAccounts(w: Written, config: Config, back: nat, now: real)
    requires config.perMinute > 0.0 && Accounted(w, config, now)
    ensures Accounted(Happens(w, config, Crashed(back)), config, now)
    ensures Level(Top(Happens(w, config, Crashed(back))), config, now) <= Level(Top(w), config, now) + Loss(w, Crashed(back))
  {
    hide Level;
    var r := Happens(w, config, Crashed(back));
    forall i, k, t | 0 <= i <= k < |r.states| && t >= now ensures Comparable(r, config, i, k, t) {
      assert Comparable(w, config, i, k, t);
      assert r.costs[..k] == w.costs[..k] && r.costs[..i] == w.costs[..i];
    }
    assert Comparable(w, config, |r.costs|, |w.costs|, now);
    assert w.costs[..|w.costs|] == w.costs;
  }

  lemma {:induction false} LossesAreFunded(start: State, config: Config, hs: seq<Happening>, since: real, now: real)
    requires config.perMinute > 0.0 && InRange(start, config) && start.updatedAt <= since && InTime(hs, since, now)
    ensures var w := WrittenAfter(start, config, hs);
      && Accounted(w, config, now)
      && GrantedInAll(start, config, hs) + Level(Top(w), config, now)
        <= config.burst + Refill(config, now - since) + LostInAll(start, config, hs)
  {
    hide Take, Level, Refill, Accounted;
    if hs == [] {
      StartAccounts(start, config, now);
      RefillGrows(config, 0.0, now - since);
    } else {
      var head, h := hs[..|hs| - 1], hs[|hs| - 1];
      var w := WrittenAfter(start, config, head);
      match h {
        case Crashed(back) =>
          LossesAreFunded(start, config, head, since, now);
          CrashedAccounts(w, config, back, now);
        case Asked(at, cost) =>
          LossesAreFunded(start, config, head, since, at);
          TopIsSound(w, config, at);
          TakeLevel(Top(w), config, at, cost);
          AskedAccounts(w, config, at, cost);
          LaterAccounts(Happens(w, config, h), config, at, now);
          LevelOverTime(Take(Top(w), config, at, cost).state, config, at, now);
          RefillAdds(config, at - since, now - at);
          assert at - since + (now - at) == now - since;
      }
    }
  }

  lemma StartAccounts(start: State, config: Config, now: real)
    requires config.perMinute > 0.0 && InRange(start, config) && start.updatedAt <= now
    ensures Accounted(Written([start], []), config, now) && Level(start, config, now) <= config.burst
  {
    hide Refill;
  }

  lemma TopIsSound(w: Written, config: Config, now: real)
    requires Accounted(w, config, now)
    ensures InRange(Top(w), config) && Top(w).updatedAt <= now
  {
  }

  lemma LaterAccounts(w: Written, config: Config, t: real, now: real)
    requires Accounted(w, config, t) && t <= now
    ensures Accounted(w, config, now)
  {
    hide Comparable;
  }

  /** However often the bucket crashes, and however many of its last writes each crash loses, what it
      grants is no more than a burst, the refill of the time, and what the lost takes had cost. */
  lemma SpendingWithLostWrites(start: State, config: Config, hs: seq<Happening>, since: real, now: real)
    requires config.perMinute > 0.0 && InRange(start, config) && start.updatedAt <= since && InTime(hs, since, now)
    ensures GrantedInAll(start, config, hs) <= config.burst + Refill(config, now - since) + LostInAll(start, config, hs)
  {
    hide Level, Refill, GrantedInAll, LostInAll, WrittenAfter;
    LossesAreFunded(start, config, hs, since, now);
    TopIsSound(WrittenAfter(start, config, hs), config, now);
    LevelInRange(Top(WrittenAfter(start, config, hs)), config, now);
  }
}
