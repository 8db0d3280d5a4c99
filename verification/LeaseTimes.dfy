/** How long a lease lasts and how long a job waits, over whatever happens meanwhile. */
module LeaseTimes {
  import opened Wrappers
  import opened Leases
  import opened LeasesFacts

  // ---- leases ----

  /** Two minutes where nothing is asked, and what is asked between a quarter of a minute and a quarter of an
      hour. */
  predicate LeaseFor(asked: Option<int>, seconds: int) {
    && (asked.None? ==> seconds == 120)
    && (asked.Some? && asked.value < 15 ==> seconds == 15)
    && (asked.Some? && asked.value > 900 ==> seconds == 900)
    && (asked.Some? && 15 <= asked.value <= 900 ==> seconds == asked.value)
  }

  /** A worker that is offered a job holds it from then on for the time it asked for, on a new attempt, under
      a token nobody had before. */
  lemma LeaseLastsAsAsked(q: Queue, id: nat, worker: string, asked: Option<int>) returns (seconds: int)
    requires Sound(q) && Offered(q, id) && worker != ""
    ensures LeaseFor(asked, seconds)
    ensures var r := Step(q, LeaseJob(id, worker, asked));
      && Live(r, id, q.minted) && !Live(q, id, q.minted) && r.jobs[id].state == Leased && r.jobs[id].attempt == q.jobs[id].attempt + 1
      && r.jobs[id].lease.value.expiresAt == q.now + seconds && r.jobs[id].lease.value.worker == worker
  {
    seconds := LeaseSeconds(asked);
    assert JobSound(q.jobs[id], q.minted);
  }

  /** A heartbeat that is heard makes the lease last that long from then. */
  lemma BeatRenews(q: Queue, id: nat, token: Token, state: Option<JobState>, asked: Option<int>) returns (seconds: int)
    requires Sound(q) && Beats(q, id, token, state)
    ensures LeaseFor(asked, seconds)
    ensures var r := Step(q, ReportProgress(id, token, state, asked));
      && Live(r, id, token) && r.jobs[id].lease.value.expiresAt == q.now + seconds
      && r.jobs[id].state == (if state.Some? then state.value else q.jobs[id].state)
  {
    seconds := LeaseSeconds(asked);
  }

  // ---- waiting ----

  /** Nobody has touched a queued job: no lease, no cancel and no client's flag. */
  predicate LeftAlone(events: seq<Event>, id: nat) {
    forall e :: e in events ==> !(e.LeaseJob? && e.job == id) && e != RequestCancel(id) && !(e.SetCancelFlag? && e.job == id)
  }

  lemma StepLeavesQueued(q: Queue, e: Event, id: nat)
    requires Sound(q) && id in q.jobs && q.jobs[id].state.Queued?
    requires !(e.LeaseJob? && e.job == id) && e != RequestCancel(id) && !(e.SetCancelFlag? && e.job == id)
    ensures id in Step(q, e).jobs && Step(q, e).jobs[id] == q.jobs[id]
  {
    hide Power4, LeaseSeconds;
    assert JobSound(q.jobs[id], q.minted);
  }

  lemma {:induction false} QueuedJobWaits(q: Queue, events: seq<Event>, id: nat)
    requires Sound(q) && OncePerAttempt(q.ledger) && id in q.jobs && q.jobs[id].state.Queued? && LeftAlone(events, id)
    ensures id in Run(q, events).jobs && Run(q, events).jobs[id] == q.jobs[id]
  {
    if events != [] {
      hide Step, Sound;
      var head, e := events[..|events| - 1], events[|events| - 1];
      assert e in events && forall x :: x in head ==> x in events;
      QueuedJobWaits(q, head, id);
      RunKeeps(q, head);
      StepLeavesQueued(Run(q, head), e, id);
    }
  }

  /** The seconds a job waits after its first, second and third failed attempt. */
  function Backoff(attempt: nat): nat { if attempt <= 1 then 15 else if attempt == 2 then 60 else if attempt == 3 then 240 else 4 * Backoff(attempt - 1) }

  lemma {:induction false} BackoffIsPower(attempt: nat)
    ensures 15 * Power4(if attempt > 0 then attempt - 1 else 0) == Backoff(attempt)
  {
    if attempt > 3 { BackoffIsPower(attempt - 1); } else { assert Power4(0) == 1 && Power4(1) == 4 && Power4(2) == 16; }
  }

  /** A job handed back as worth retrying is offered again a quarter of a minute, a minute, then four minutes
      later, and not before, whatever else the queue does meanwhile. */
  lemma RetryIsOfferedExactlyAfter(q: Queue, id: nat, token: Token, events: seq<Event>)
    requires Sound(q) && OncePerAttempt(q.ledger) && Holds(q, id, token)
    requires q.jobs[id].attempt < q.jobs[id].maxAttempts && !q.jobs[id].cancelRequested && LeftAlone(events, id)
    ensures var r := Run(Step(q, CompleteJob(id, token, OutcomeFailed(true))), events);
      Offered(r, id) <==> r.now >= q.now + Backoff(q.jobs[id].attempt)
  {
    hide Power4;
    var back := Step(q, CompleteJob(id, token, OutcomeFailed(true)));
    BackoffIsPower(q.jobs[id].attempt);
    StepKeeps(q, CompleteJob(id, token, OutcomeFailed(true)));
    assert back.jobs[id].state.Queued? && back.jobs[id].visibleAt == q.now + Backoff(q.jobs[id].attempt);
    hide Run, Sound;
    QueuedJobWaits(back, events, id);
  }

  /** One whose lease lapsed, ten seconds later for each attempt it has had. */
  lemma ReapedIsOfferedExactlyAfter(q: Queue, id: nat, events: seq<Event>)
    requires Sound(q) && OncePerAttempt(q.ledger) && Lapsed(q, id)
    requires q.jobs[id].attempt < q.jobs[id].maxAttempts && !q.jobs[id].cancelRequested && LeftAlone(events, id)
    ensures var r := Run(Step(q, Reap(id)), events);
      Offered(r, id) <==> r.now >= q.now + 10 * q.jobs[id].attempt
  {
    hide Power4, LeaseSeconds;
    var back := Step(q, Reap(id));
    StepKeeps(q, Reap(id));
    hide Run, Sound;
    QueuedJobWaits(back, events, id);
  }

  /** A new job may be attempted one to ten times, and is offered at once; one that is known already, or may be
      attempted otherwise, is not taken. */
  lemma NewJobIsOfferedAtOnce(q: Queue, id: nat, maxAttempts: nat)
    ensures var r := Step(q, Submit(id, maxAttempts));
      && (id !in q.jobs && 1 <= maxAttempts <= 10 ==>
            Offered(r, id) && r.jobs[id].attempt == 0 && r.jobs[id].maxAttempts == maxAttempts && !r.jobs[id].cancelRequested)
      && (id in q.jobs || !(1 <= maxAttempts <= 10) ==> r == q)
  {
  }
}
