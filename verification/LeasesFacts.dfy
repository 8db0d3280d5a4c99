/** No interleaving lets two workers finish one attempt, or a dead worker keep a job. */
module LeasesFacts {
  import opened Wrappers
  import opened Leases

  // ---- what every call keeps ----

  predicate JobSound(j: Job, minted: Token) {
    && (j.lease.Some? <==> InFlight(j.state))
    && j.attempt <= j.maxAttempts
    && (j.state.Queued? ==> j.attempt < j.maxAttempts)
    && (InFlight(j.state) ==> j.attempt > 0)
    && (j.lease.Some? ==> j.lease.value.token < minted)
  }

  /** An accepted outcome belongs to an attempt that is over. */
  predicate EntrySound(q: Queue, a: Accepted) {
    && a.job in q.jobs
    && a.token < q.minted
    && 0 < a.attempt <= q.jobs[a.job].attempt
    && (q.jobs[a.job].lease.Some? ==> a.attempt < q.jobs[a.job].attempt)
  }

  predicate Live(q: Queue, id: nat, token: Token) {
    id in q.jobs && q.jobs[id].lease.Some? && q.jobs[id].lease.value.token == token
  }

  ghost predicate Sound(q: Queue) {
    && (forall id :: id in q.jobs ==> JobSound(q.jobs[id], q.minted))
    && (forall i :: 0 <= i < |q.ledger| ==> EntrySound(q, q.ledger[i]))
    && (forall x, y, t :: Live(q, x, t) && Live(q, y, t) ==> x == y)
    && forall i, id :: 0 <= i < |q.ledger| ==> !Live(q, id, q.ledger[i].token)
  }

  /** No attempt is reported twice and no token is used twice. */
  predicate OncePerAttempt(ledger: seq<Accepted>) {
    forall i, j :: 0 <= i < j < |ledger| ==>
      ledger[i].token != ledger[j].token && (ledger[i].job == ledger[j].job ==> ledger[i].attempt < ledger[j].attempt)
  }

  /** How one row may change: its lease is the one it had, a fresh one on a new attempt, or none. */
  predicate RowMoves(q: Queue, id: nat, j: Job, minted: Token) {
    && (minted == q.minted || minted == q.minted + 1)
    && JobSound(j, minted)
    && (id in q.jobs ==> j.attempt >= q.jobs[id].attempt)
    && (j.lease.Some? ==>
          && id in q.jobs
          && (|| (Live(q, id, j.lease.value.token) && j.attempt == q.jobs[id].attempt)
              || (j.lease.value.token == q.minted && j.attempt > q.jobs[id].attempt)))
  }

  lemma PutKeeps(q: Queue, id: nat, j: Job, minted: Token)
    requires Sound(q) && RowMoves(q, id, j, minted)
    ensures Sound(q.(jobs := q.jobs[id := j], minted := minted))
  {
    var r := q.(jobs := q.jobs[id := j], minted := minted);
    forall x: nat, t: Token | Live(r, x, t)
      ensures Live(q, x, t) || (x == id && t == q.minted)
    {
    }
    forall x: nat, t: Token | Live(q, x, t) ensures t < q.minted { assert JobSound(q.jobs[x], q.minted); }
    forall i | 0 <= i < |q.ledger| ensures EntrySound(r, q.ledger[i]) { assert EntrySound(q, q.ledger[i]); }
    forall i, x | 0 <= i < |q.ledger| ensures !Live(r, x, q.ledger[i].token) {
      assert EntrySound(q, q.ledger[i]) && !Live(q, x, q.ledger[i].token);
    }
  }

  lemma EntryKeeps(q: Queue, id: nat, j: Job, a: Accepted)
    requires Sound(q) && OncePerAttempt(q.ledger) && RowMoves(q, id, j, q.minted) && j.lease.None?
    requires Live(q, id, a.token) && a.job == id && a.attempt == q.jobs[id].attempt == j.attempt
    ensures var r := q.(jobs := q.jobs[id := j], ledger := q.ledger + [a]); Sound(r) && OncePerAttempt(r.ledger)
  {
    var mid := q.(jobs := q.jobs[id := j]);
    PutKeeps(q, id, j, q.minted);
    assert mid == q.(jobs := q.jobs[id := j], minted := q.minted);
    var r := mid.(ledger := q.ledger + [a]);
    assert JobSound(q.jobs[id], q.minted);
    forall i | 0 <= i < |r.ledger| ensures EntrySound(r, r.ledger[i]) {
      if i < |q.ledger| { assert EntrySound(mid, q.ledger[i]); }
    }
    forall x: nat, t: Token | Live(r, x, t) ensures Live(mid, x, t) && Live(q, x, t) && x != id {}
    forall i, x | 0 <= i < |r.ledger| ensures !Live(r, x, r.ledger[i].token) {
      if i < |q.ledger| { assert !Live(mid, x, q.ledger[i].token); }
    }
    forall i | 0 <= i < |q.ledger|
      ensures q.ledger[i].token != a.token && (q.ledger[i].job == id ==> q.ledger[i].attempt < a.attempt)
    {
      assert EntrySound(q, q.ledger[i]) && !Live(q, id, q.ledger[i].token);
    }
  }

  /** The row a call leaves behind. */
  lemma StepMovesOneRow(q: Queue, e: Event)
    requires Sound(q) && !e.Tick? && Step(q, e) != q
    ensures var r := Step(q, e);
      && e.job in r.jobs
      && RowMoves(q, e.job, r.jobs[e.job], r.minted)
      && r.jobs == q.jobs[e.job := r.jobs[e.job]] && r.now == q.now
      && (!e.CompleteJob? ==> r.ledger == q.ledger)
      && (e.CompleteJob? ==>
            && r.minted == q.minted && r.jobs[e.job].lease.None? && r.jobs[e.job].attempt == q.jobs[e.job].attempt
            && Live(q, e.job, e.token)
            && r.ledger == q.ledger + [Accepted(e.job, q.jobs[e.job].attempt, e.token, e.outcome)])
  {
    hide Power4, LeaseSeconds;
    if e.job in q.jobs { assert JobSound(q.jobs[e.job], q.minted); }
  }

  lemma StepKeeps(q: Queue, e: Event)
    requires Sound(q) && OncePerAttempt(q.ledger)
    ensures Sound(Step(q, e)) && OncePerAttempt(Step(q, e).ledger)
  {
    if e.Tick? {
      TickKeeps(q, e.elapsed);
    } else {
      hide Step, Sound, RowMoves, OncePerAttempt, Live;
      var r := Step(q, e);
      if r != q {
        StepMovesOneRow(q, e);
        if e.CompleteJob? {
          EntryKeeps(q, e.job, r.jobs[e.job], Accepted(e.job, q.jobs[e.job].attempt, e.token, e.outcome));
        } else {
          PutKeeps(q, e.job, r.jobs[e.job], r.minted);
        }
      }
    }
  }

  lemma TickKeeps(q: Queue, elapsed: nat)
    requires Sound(q)
    ensures Sound(q.(now := q.now + elapsed))
  {
    var r := q.(now := q.now + elapsed);
    assert forall x, t :: Live(r, x, t) <==> Live(q, x, t);
    forall i | 0 <= i < |r.ledger| ensures EntrySound(r, r.ledger[i]) { assert EntrySound(q, q.ledger[i]); }
  }

  /** Over any interleaving from an empty queue: a job has a lease exactly while it is in flight, no
      attempt exceeds its maximum, and the ledger holds at most one outcome for each attempt and for
      each token. */
  lemma {:induction false} EveryRunIsSound(events: seq<Event>)
    ensures Sound(Run(Empty(), events)) && OncePerAttempt(Run(Empty(), events).ledger)
  {
    if events != [] {
      EveryRunIsSound(events[..|events| - 1]);
      StepKeeps(Run(Empty(), events[..|events| - 1]), events[|events| - 1]);
    }
  }

  lemma {:induction false} RunKeeps(q: Queue, events: seq<Event>)
    requires Sound(q) && OncePerAttempt(q.ledger)
    ensures Sound(Run(q, events)) && OncePerAttempt(Run(q, events).ledger)
  {
    if events != [] {
      RunKeeps(q, events[..|events| - 1]);
      StepKeeps(Run(q, events[..|events| - 1]), events[|events| - 1]);
    }
  }

  /** After the first n of these calls the token was the job's own, on that attempt, and the next call
      reported this outcome with it. */
  predicate ReportedByHolder(events: seq<Event>, n: nat, a: Accepted) {
    && n < |events| && events[n] == CompleteJob(a.job, a.token, a.outcome)
    && var q := Run(Empty(), events[..n]); Live(q, a.job, a.token) && q.jobs[a.job].attempt == a.attempt
  }

  /** Over any interleaving, everything the ledger holds was reported by the worker that held the job at
      that moment, on the attempt it is entered under; nobody else was ever heard. */
  lemma {:induction false} OnlyHoldersWereHeard(events: seq<Event>, i: nat) returns (n: nat)
    requires i < |Run(Empty(), events).ledger|
    ensures ReportedByHolder(events, n, Run(Empty(), events).ledger[i])
  {
    var last := |events| - 1;
    var head, e := events[..last], events[last];
    var q := Run(Empty(), head);
    EveryRunIsSound(head);
    hide Step, Sound, Live;
    StepMayEnter(q, e);
    if i < |q.ledger| {
      n := OnlyHoldersWereHeard(head, i);
      assert events[..n] == head[..n];
    } else {
      n := last;
    }
  }

  /** A call leaves the ledger alone or enters what the job's holder reported. */
  lemma StepMayEnter(q: Queue, e: Event)
    requires Sound(q)
    ensures var r := Step(q, e);
      || r.ledger == q.ledger
      || (e.CompleteJob? && Live(q, e.job, e.token)
          && r.ledger == q.ledger + [Accepted(e.job, q.jobs[e.job].attempt, e.token, e.outcome)])
  {
    hide Power4, LeaseSeconds;
  }

  /** The lifecycle document says an expired lease is refused here too. It is not: here a worker whose
      lease has run out still reports. HolderIsHeardExactlyUntilReaped says how long it may. */
  lemma ExpiredHolderIsStillHeard()
    ensures var q := Run(Empty(), [Submit(0, 3), LeaseJob(0, "box", Some(15)), Tick(16)]);
      && Lapsed(q, 0) && Live(q, 0, 0) && !Beats(q, 0, 0, None)
      && 0 in Step(q, CompleteJob(0, 0, OutcomeCancelled)).jobs
      && Step(q, CompleteJob(0, 0, OutcomeCancelled)).jobs[0].state == Cancelled
  {
    var a, b, c := Submit(0, 3), LeaseJob(0, "box", Some(15)), Tick(16);
    assert [a, b, c][..2] == [a, b] && [a, b][..1] == [a] && [a][..0] == [];
    assert Run(Empty(), []) == Empty();
    var q1 := Run(Empty(), [a]);
    assert q1 == Queue(0, 0, map[0 := Job(Queued, 0, 3, None, 0, false)], []);
    var q2 := Run(Empty(), [a, b]);
    assert q2 == Queue(0, 1, map[0 := Job(Leased, 1, 3, Some(Lease(0, "box", 15)), 0, false)], []);
  }

  // ---- history only moves forward ----

  lemma StepAdvances(q: Queue, e: Event)
    ensures var r := Step(q, e);
      q.now <= r.now && q.minted <= r.minted && q.jobs.Keys <= r.jobs.Keys && q.ledger <= r.ledger
  {
    hide Power4, LeaseSeconds, Beats, Completes, Offered, Lapsed, Moved;
  }

  /** Every call moves a job along the state machine's own edges, and never back an attempt. */
  lemma StepForward(q: Queue, e: Event, id: nat)
    requires Sound(q) && id in q.jobs
    ensures var r := Step(q, e);
      && id in r.jobs
      && q.jobs[id].attempt <= r.jobs[id].attempt
      && q.jobs[id].maxAttempts == r.jobs[id].maxAttempts
      && (q.jobs[id].state == r.jobs[id].state || LegalTransition(q.jobs[id].state, r.jobs[id].state))
  {
    hide Power4, LeaseSeconds;
    assert JobSound(q.jobs[id], q.minted);
  }

  /** On every run, attempt never decreases, a job never disappears, what was accepted stays accepted,
      and done, failed, cancelled and expired are final but for done becoming expired. */
  lemma {:induction false} RunForward(q: Queue, events: seq<Event>, id: nat)
    requires Sound(q) && OncePerAttempt(q.ledger) && id in q.jobs
    ensures var r := Run(q, events);
      && id in r.jobs && q.jobs[id].attempt <= r.jobs[id].attempt <= q.jobs[id].maxAttempts
      && r.jobs[id].maxAttempts == q.jobs[id].maxAttempts
      && q.ledger <= r.ledger && q.minted <= r.minted && q.now <= r.now
      && (Terminal(q.jobs[id].state) ==> r.jobs[id].state == q.jobs[id].state || (q.jobs[id].state.Done? && r.jobs[id].state.Expired?))
  {
    hide Step;
    RunKeeps(q, events);
    assert JobSound(q.jobs[id], q.minted);
    if events != [] {
      var head := events[..|events| - 1];
      RunForward(q, head, id);
      RunKeeps(q, head);
      StepForward(Run(q, head), events[|events| - 1], id);
      StepAdvances(Run(q, head), events[|events| - 1]);
      assert JobSound(Run(q, events).jobs[id], Run(q, events).minted);
    }
  }

  function EntriesFor(ledger: seq<Accepted>, id: nat): nat {
    if ledger == [] then 0 else
      EntriesFor(ledger[..|ledger| - 1], id) + if ledger[|ledger| - 1].job == id then 1 else 0
  }

  lemma {:induction false} EntriesClimb(ledger: seq<Accepted>, id: nat, top: nat)
    requires OncePerAttempt(ledger) && forall i :: 0 <= i < |ledger| && ledger[i].job == id ==> 0 < ledger[i].attempt <= top
    ensures EntriesFor(ledger, id) <= top
  {
    if ledger != [] {
      var n := |ledger| - 1;
      EntriesClimb(ledger[..n], id, if ledger[n].job == id then ledger[n].attempt - 1 else top);
    }
  }

  /** No job is ever reported more often than it may be attempted. */
  lemma ReportsNeverExceedAttempts(events: seq<Event>, id: nat)
    requires id in Run(Empty(), events).jobs
    ensures var r := Run(Empty(), events); EntriesFor(r.ledger, id) <= r.jobs[id].attempt <= r.jobs[id].maxAttempts
  {
    EveryRunIsSound(events);
    var r := Run(Empty(), events);
    hide Run;
    assert JobSound(r.jobs[id], r.minted);
    forall i | 0 <= i < |r.ledger| && r.ledger[i].job == id ensures 0 < r.ledger[i].attempt <= r.jobs[id].attempt {
      assert EntrySound(r, r.ledger[i]);
    }
    EntriesClimb(r.ledger, id, r.jobs[id].attempt);
  }

  // ---- stale workers ----

  lemma NeverRevived(q: Queue, e: Event, id: nat, token: Token)
    requires Sound(q) && token < q.minted && !Live(q, id, token)
    ensures !Live(Step(q, e), id, token)
  {
    hide Power4, LeaseSeconds;
  }

  /** A worker that lost its lease, by reaping or by its own report, is refused for ever, whatever
      anyone does. */
  lemma {:induction false} StaleTokenStaysStale(q: Queue, events: seq<Event>, id: nat, token: Token, outcome: Outcome, state: Option<JobState>)
    requires Sound(q) && OncePerAttempt(q.ledger) && token < q.minted && !Live(q, id, token)
    ensures var r := Run(q, events);
      && !Live(r, id, token) && token < r.minted
      && !Completes(r, id, token, outcome) && !Beats(r, id, token, state)
  {
    if events != [] {
      var head := events[..|events| - 1];
      hide Step;
      StaleTokenStaysStale(q, head, id, token, outcome, state);
      RunKeeps(q, head);
      NeverRevived(Run(q, head), events[|events| - 1], id, token);
      StepAdvances(Run(q, head), events[|events| - 1]);
    }
  }

  // ---- live workers ----

  /** The worker holding this token has said nothing to the queue. */
  predicate Unheard(events: seq<Event>, id: nat, token: Token) {
    forall e :: e in events ==>
      !(e.ReportProgress? && e.job == id && e.token == token) && !(e.CompleteJob? && e.job == id && e.token == token)
  }

  lemma StepHoldsLease(q: Queue, e: Event, id: nat, token: Token)
    requires Sound(q) && Live(q, id, token) && !(e.CompleteJob? && e.job == id && e.token == token)
    ensures var r := Step(q, e);
      && (!Lapsed(q, id) ==> Live(r, id, token))
      && (Live(r, id, token) ==> r.jobs[id].attempt == q.jobs[id].attempt)
      && (Live(r, id, token) && !(e.ReportProgress? && e.job == id && e.token == token) ==>
            r.jobs[id].lease.value.expiresAt == q.jobs[id].lease.value.expiresAt)
  {
    hide Power4, LeaseSeconds;
    assert JobSound(q.jobs[id], q.minted);
  }

  /** Nobody can take a job from a worker inside its lease: until the lease's own moment has passed,
      and whatever anyone else does, the token is still the job's. */
  lemma {:induction false} LeaseHoldsUntilItExpires(q: Queue, events: seq<Event>, id: nat, token: Token)
    requires Sound(q) && OncePerAttempt(q.ledger) && Live(q, id, token) && Unheard(events, id, token)
    requires Run(q, events).now <= q.jobs[id].lease.value.expiresAt
    ensures var r := Run(q, events);
      Live(r, id, token) && r.jobs[id].lease == q.jobs[id].lease && r.jobs[id].attempt == q.jobs[id].attempt
  {
    if events != [] {
      var head, e := events[..|events| - 1], events[|events| - 1];
      hide Step;
      RunForward(q, head, id);
      RunKeeps(q, head);
      StepAdvances(Run(q, head), e);
      assert e in events && forall x :: x in head ==> x in events;
      LeaseHoldsUntilItExpires(q, head, id, token);
      StepHoldsLease(Run(q, head), e, id, token);
      RunForward(q, events, id);
      SameLease(q, Run(q, head), e, id, token);
    }
  }

  lemma SameLease(q: Queue, mid: Queue, e: Event, id: nat, token: Token)
    requires Sound(mid) && Live(q, id, token) && Live(mid, id, token) && mid.jobs[id].lease == q.jobs[id].lease
    requires !(e.ReportProgress? && e.job == id && e.token == token) && !(e.CompleteJob? && e.job == id && e.token == token)
    ensures Live(Step(mid, e), id, token) ==> Step(mid, e).jobs[id].lease == q.jobs[id].lease
  {
    hide Power4, LeaseSeconds;
    assert JobSound(mid.jobs[id], mid.minted);
  }

  /** A lease of three beats survives two lost ones: any beat less than three intervals after the last
      one heard is heard. */
  lemma LostBeatsAreSurvived(q: Queue, events: seq<Event>, id: nat, token: Token, lease: int, heartbeat: nat)
    requires Sound(q) && OncePerAttempt(q.ledger) && Beats(q, id, token, None)
    requires MIN_LEASE_SECONDS <= lease <= MAX_LEASE_SECONDS && heartbeat * 3 <= lease
    requires var heard := Step(q, ReportProgress(id, token, None, Some(lease)));
      Unheard(events, id, token) && Run(heard, events).now < q.now + heartbeat * 3
    ensures Beats(Run(Step(q, ReportProgress(id, token, None, Some(lease))), events), id, token, None)
  {
    var beat := ReportProgress(id, token, None, Some(lease));
    var heard := Step(q, beat);
    assert heard.jobs[id].lease.value.expiresAt == q.now + lease;
    StepKeeps(q, beat);
    LeaseHoldsUntilItExpires(heard, events, id, token);
    RunKeeps(heard, events);
    assert JobSound(Run(heard, events).jobs[id], Run(heard, events).minted);
    hide Run;
  }

  /** A worker that has gone quiet, as an abandoned take's does, cannot keep its job: once the lease
      it last had is over, either the job has already moved on or the reaper can move it, to the queue
      while attempts remain. Its token is then worth nothing. */
  lemma {:induction false} QuietWorkerLosesItsJob(q: Queue, events: seq<Event>, id: nat, token: Token)
    requires Sound(q) && OncePerAttempt(q.ledger) && Live(q, id, token) && Unheard(events, id, token)
    ensures var r := Run(q, events);
      && id in r.jobs
      && (Live(r, id, token) ==> r.jobs[id].lease == q.jobs[id].lease && r.jobs[id].attempt == q.jobs[id].attempt)
      && (r.now > q.jobs[id].lease.value.expiresAt && Live(r, id, token) ==>
            && Lapsed(r, id)
            && !Live(Step(r, Reap(id)), id, token)
            && Step(r, Reap(id)).jobs[id].state == if q.jobs[id].attempt < q.jobs[id].maxAttempts then Queued else Failed)
  {
    RunForward(q, events, id);
    QuietLeaseIsFrozen(q, events, id, token);
    RunKeeps(q, events);
    assert JobSound(Run(q, events).jobs[id], Run(q, events).minted);
    hide Run;
  }

  lemma QuietLeaseIsFrozen(q: Queue, events: seq<Event>, id: nat, token: Token)
    requires Sound(q) && OncePerAttempt(q.ledger) && Live(q, id, token) && Unheard(events, id, token)
    ensures var r := Run(q, events);
      Live(r, id, token) ==> r.jobs[id].lease == q.jobs[id].lease && r.jobs[id].attempt == q.jobs[id].attempt
  {
    SilentLeaseEndsExactlyWhenReaped(q, events, id, token);
  }

  // ---- expired holders ----

  /** The reaper came by for this job after that moment. */
  predicate ReapedAfter(q: Queue, events: seq<Event>, id: nat, moment: int) {
    exists n :: 0 <= n < |events| && events[n] == Reap(id) && Run(q, events[..n]).now > moment
  }

  lemma ReapedAfterOneMore(q: Queue, head: seq<Event>, e: Event, id: nat, moment: int)
    ensures ReapedAfter(q, head + [e], id, moment)
      <==> ReapedAfter(q, head, id, moment) || (e == Reap(id) && Run(q, head).now > moment)
  {
    hide Run;
    var all := head + [e];
    assert forall n :: 0 <= n < |head| ==> all[n] == head[n] && all[..n] == head[..n];
    assert all[|head|] == e && all[..|head|] == head;
  }

  /** Nothing but the reap of its lapsed lease moves a silent worker's job. */
  lemma StepLeavesSilentHolder(q: Queue, e: Event, id: nat, token: Token)
    requires Sound(q) && Live(q, id, token)
    requires !(e.ReportProgress? && e.job == id && e.token == token) && !(e.CompleteJob? && e.job == id && e.token == token)
    ensures var r := Step(q, e);
      && (Live(r, id, token) <==> !(e == Reap(id) && q.now > q.jobs[id].lease.value.expiresAt))
      && (Live(r, id, token) ==> r.jobs[id] == q.jobs[id].(cancelRequested := r.jobs[id].cancelRequested))
  {
    hide Power4, LeaseSeconds;
    assert JobSound(q.jobs[id], q.minted);
  }

  /** A silent worker's lease, however long expired, ends exactly when the reaper comes by after its
      moment. Until then nobody else holds the job, and it stands where it stood. */
  lemma {:induction false} SilentLeaseEndsExactlyWhenReaped(q: Queue, events: seq<Event>, id: nat, token: Token)
    requires Sound(q) && OncePerAttempt(q.ledger) && Live(q, id, token) && Unheard(events, id, token)
    ensures var r := Run(q, events);
      && (Live(r, id, token) <==> !ReapedAfter(q, events, id, q.jobs[id].lease.value.expiresAt))
      && (Live(r, id, token) ==>
            && r.jobs[id] == q.jobs[id].(cancelRequested := r.jobs[id].cancelRequested)
            && forall other :: Live(r, id, other) ==> other == token)
  {
    if events != [] {
      var head, e := events[..|events| - 1], events[|events| - 1];
      hide Step, ReapedAfter;
      RunKeeps(q, head);
      RunForward(q, head, id);
      assert JobSound(q.jobs[id], q.minted);
      assert e in events && forall x :: x in head ==> x in events;
      assert events == head + [e];
      SilentLeaseEndsExactlyWhenReaped(q, head, id, token);
      ReapedAfterOneMore(q, head, e, id, q.jobs[id].lease.value.expiresAt);
      if Live(Run(q, head), id, token) {
        StepLeavesSilentHolder(Run(q, head), e, id, token);
      } else {
        NeverRevived(Run(q, head), e, id, token);
      }
    }
  }

  /** So complete_job refuses a worker that has been silent, its lease expired or not, exactly when the
      reaper has been by since, or the report is one it would have refused all along. Its heartbeat is
      refused by the clock as well. */
  lemma HolderIsHeardExactlyUntilReaped(q: Queue, events: seq<Event>, id: nat, token: Token, outcome: Outcome)
    requires Sound(q) && OncePerAttempt(q.ledger) && Live(q, id, token) && Unheard(events, id, token)
    ensures var r, moment := Run(q, events), q.jobs[id].lease.value.expiresAt;
      && (Completes(r, id, token, outcome) <==> !ReapedAfter(q, events, id, moment) && Completes(q, id, token, outcome))
      && (Beats(r, id, token, None) <==> !ReapedAfter(q, events, id, moment) && r.now < moment)
  {
    hide Run, ReapedAfter;
    SilentLeaseEndsExactlyWhenReaped(q, events, id, token);
    assert JobSound(q.jobs[id], q.minted);
  }

  // ---- a cancel that is lost ----

  /** A queued job can be offered again, once its backoff is over, exactly if nobody has asked for it
      to be cancelled. */
  lemma OfferedUnlessCancelled(q: Queue, id: nat)
    requires id in q.jobs && q.jobs[id].state.Queued?
    ensures (exists n: nat :: Offered(Step(q, Tick(n)), id)) <==> !q.jobs[id].cancelRequested
  {
    if !q.jobs[id].cancelRequested {
      var n := if q.jobs[id].visibleAt > q.now then q.jobs[id].visibleAt - q.now else 0;
      assert Offered(Step(q, Tick(n)), id);
    }
  }

  /** Waiting in the queue with its cancel flag up, and so offered to nobody. */
  predicate Stranded(q: Queue, id: nat) {
    id in q.jobs && q.jobs[id].state.Queued? && q.jobs[id].cancelRequested
  }

  /** The calls that can take a job there: a lapsed lease reaped or a retryable failure reported, with
      attempts left and the cancel asked for, or a client raising the flag of a queued job itself. */
  predicate Strands(q: Queue, e: Event, id: nat)
    requires id in q.jobs
  {
    var j := q.jobs[id];
    || (j.cancelRequested && j.attempt < j.maxAttempts && e == Reap(id) && Lapsed(q, id))
    || (j.cancelRequested && j.attempt < j.maxAttempts && e.CompleteJob? && e.job == id
        && e.outcome == OutcomeFailed(true) && Holds(q, id, e.token))
    || (j.state.Queued? && e == SetCancelFlag(id, true))
  }

  /** A job becomes stranded by exactly those calls. */
  lemma StrandsExactlyWhen(q: Queue, e: Event, id: nat)
    requires Sound(q) && id in q.jobs && !Stranded(q, id)
    ensures Stranded(Step(q, e), id) <==> Strands(q, e, id)
  {
    hide Power4, LeaseSeconds;
    assert JobSound(q.jobs[id], q.minted);
  }

  /** And leaves by exactly two: the cancel asked for again, or the flag taken down by a client. */
  lemma StrandedLeavesExactlyBy(q: Queue, e: Event, id: nat)
    requires Sound(q) && Stranded(q, id)
    ensures id in Step(q, e).jobs
    ensures Stranded(Step(q, e), id) <==> e != RequestCancel(id) && e != SetCancelFlag(id, false)
    ensures e == RequestCancel(id) ==> Step(q, e).jobs[id].state.Cancelled?
    ensures Stranded(Step(q, e), id) ==> Step(q, e).jobs[id] == q.jobs[id]
  {
    hide Power4, LeaseSeconds;
    assert JobSound(q.jobs[id], q.minted);
  }

  /** Until then it stays just as it is, offered to nobody and never finished, whatever anyone else
      does and however long it is. */
  lemma {:induction false} StrandedStays(q: Queue, events: seq<Event>, id: nat)
    requires Sound(q) && OncePerAttempt(q.ledger) && Stranded(q, id)
    requires RequestCancel(id) !in events && SetCancelFlag(id, false) !in events
    ensures var r := Run(q, events); Stranded(r, id) && r.jobs[id] == q.jobs[id] && !Offered(r, id)
  {
    hide Step, Sound;
    if events != [] {
      var head, e := events[..|events| - 1], events[|events| - 1];
      assert e in events && forall x :: x in head ==> x in events;
      StrandedStays(q, head, id);
      RunKeeps(q, head);
      StrandedLeavesExactlyBy(Run(q, head), e, id);
    }
  }

  /** So a cancel asked for in flight is lost exactly when the job goes back to the queue: from the
      moment of such a call, and until it is asked for again or taken back, the job is neither filmed
      nor cancelled. */
  lemma LostCancelStrands(q: Queue, e: Event, id: nat, events: seq<Event>)
    requires Sound(q) && OncePerAttempt(q.ledger) && id in q.jobs && Strands(q, e, id)
    requires RequestCancel(id) !in events && SetCancelFlag(id, false) !in events
    ensures var r := Run(Step(q, e), events);
      id in r.jobs && r.jobs[id].state.Queued? && !Offered(r, id)
      && Step(r, RequestCancel(id)).jobs[id].state.Cancelled?
  {
    hide Run, Sound;
    if !Stranded(q, id) { StrandsExactlyWhen(q, e, id); } else { StrandedLeavesExactlyBy(q, e, id); }
    StepKeeps(q, e);
    StrandedStays(Step(q, e), events, id);
    RunKeeps(Step(q, e), events);
    StrandedLeavesExactlyBy(Run(Step(q, e), events), RequestCancel(id), id);
  }
}
