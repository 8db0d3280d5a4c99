/** The render queue: jobs, leases and the functions that move them. Times are seconds. */
module Leases {
  import opened Wrappers

  const DEFAULT_LEASE_SECONDS := 120
  const MIN_LEASE_SECONDS := 15
  const MAX_LEASE_SECONDS := 900

  datatype JobState = Queued | Leased | Running | Uploading | Done | Failed | Cancelled | Expired

  predicate InFlight(s: JobState) { s.Leased? || s.Running? || s.Uploading? }

  predicate Terminal(s: JobState) { s.Done? || s.Failed? || s.Cancelled? || s.Expired? }

  predicate LegalTransition(before: JobState, after: JobState) {
    match before
    case Queued => after.Leased? || after.Cancelled?
    case Leased => after.Running? || after.Queued? || after.Failed? || after.Cancelled?
    case Running => after.Uploading? || after.Queued? || after.Failed? || after.Cancelled?
    case Uploading => after.Done? || after.Queued? || after.Failed? || after.Cancelled?
    case Done => after.Expired?
    case _ => false
  }

  type Token = nat

  datatype Lease = Lease(token: Token, worker: string, expiresAt: int)

  datatype Job = Job(
    state: JobState, attempt: nat, maxAttempts: nat, lease: Option<Lease>, visibleAt: int, cancelRequested: bool)

  /** What a worker reports; done says whether a video is among the artifacts. */
  datatype Outcome = OutcomeDone(video: bool) | OutcomeFailed(retryable: bool) | OutcomeCancelled

  /** One outcome the queue accepted, as its ledger would record it. */
  datatype Accepted = Accepted(job: nat, attempt: nat, token: Token, outcome: Outcome)

  /** `minted` counts the tokens handed out, each a fresh one. */
  datatype Queue = Queue(now: int, minted: Token, jobs: map<nat, Job>, ledger: seq<Accepted>)

  datatype Event =
    | Tick(elapsed: nat)
    | Submit(job: nat, maxAttempts: nat)
    | LeaseJob(job: nat, worker: string, seconds: Option<int>)
    | ReportProgress(job: nat, token: Token, state: Option<JobState>, seconds: Option<int>)
    | CompleteJob(job: nat, token: Token, outcome: Outcome)
    | RequestCancel(job: nat)
    | SetCancelFlag(job: nat, flag: bool)
    | Reap(job: nat)
    | Expire(job: nat)

  function LeaseSeconds(asked: Option<int>): (s: int)
    ensures MIN_LEASE_SECONDS <= s <= MAX_LEASE_SECONDS
  {
    var v := if asked.Some? then asked.value else DEFAULT_LEASE_SECONDS;
    var atLeast := if v > MIN_LEASE_SECONDS then v else MIN_LEASE_SECONDS;
    if atLeast < MAX_LEASE_SECONDS then atLeast else MAX_LEASE_SECONDS
  }

  function Power4(n: nat): nat { if n == 0 then 1 else 4 * Power4(n - 1) }

  /** The row trigger: the lease goes when the job leaves flight. */
  function Moved(j: Job, after: JobState): Job {
    j.(state := after, lease := if InFlight(after) then j.lease else None)
  }

  predicate Offered(q: Queue, id: nat) {
    && id in q.jobs
    && q.jobs[id].state.Queued? && q.jobs[id].visibleAt <= q.now && !q.jobs[id].cancelRequested
  }

  predicate Holds(q: Queue, id: nat, token: Token) {
    id in q.jobs && InFlight(q.jobs[id].state) && q.jobs[id].lease.Some? && q.jobs[id].lease.value.token == token
  }

  /** report_progress finds no row once the lease has run out; a move the trigger forbids undoes it. */
  predicate Beats(q: Queue, id: nat, token: Token, state: Option<JobState>) {
    && Holds(q, id, token)
    && q.jobs[id].lease.value.expiresAt > q.now
    && (state.Some? ==>
          && (state.value.Running? || state.value.Uploading?)
          && (state.value == q.jobs[id].state || LegalTransition(q.jobs[id].state, state.value)))
  }

  function AfterOutcome(j: Job, outcome: Outcome): JobState {
    match outcome
    case OutcomeDone(_) => Done
    case OutcomeCancelled => Cancelled
    case OutcomeFailed(retryable) => if retryable && j.attempt < j.maxAttempts then Queued else Failed
  }

  /** complete_job asks for the token, for a video if the job is said to be done, and for nothing about
      the clock. */
  predicate Completes(q: Queue, id: nat, token: Token, outcome: Outcome) {
    && Holds(q, id, token)
    && (outcome.OutcomeDone? ==> outcome.video)
    && LegalTransition(q.jobs[id].state, AfterOutcome(q.jobs[id], outcome))
  }

  predicate Lapsed(q: Queue, id: nat) {
    id in q.jobs && InFlight(q.jobs[id].state) && q.jobs[id].lease.Some? && q.jobs[id].lease.value.expiresAt < q.now
  }

  function Put(q: Queue, id: nat, j: Job): Queue { q.(jobs := q.jobs[id := j]) }

  /** One call on the queue; a refused one changes nothing. */
  function Step(q: Queue, e: Event): Queue {
    match e
    case Tick(elapsed) => q.(now := q.now + elapsed)
    case Submit(id, maxAttempts) =>
      if id in q.jobs || !(1 <= maxAttempts <= 10) then q
      else Put(q, id, Job(Queued, 0, maxAttempts, None, q.now, false))
    case LeaseJob(id, worker, seconds) =>
      if worker == "" || !Offered(q, id) then q else
        var j := q.jobs[id];
        Put(q, id, j.(state := Leased, attempt := j.attempt + 1,
          lease := Some(Lease(q.minted, worker, q.now + LeaseSeconds(seconds))))).(minted := q.minted + 1)
    case ReportProgress(id, token, state, seconds) =>
      if !Beats(q, id, token, state) then q else
        var j := q.jobs[id];
        Put(q, id, j.(state := if state.Some? then state.value else j.state,
          lease := Some(j.lease.value.(expiresAt := q.now + LeaseSeconds(seconds)))))
    case CompleteJob(id, token, outcome) =>
      if !Completes(q, id, token, outcome) then q else
        var j := q.jobs[id];
        var after := AfterOutcome(j, outcome);
        var retryAt := if after.Queued? then q.now + 15 * Power4(if j.attempt > 0 then j.attempt - 1 else 0) else j.visibleAt;
        Put(q, id, Moved(j, after).(visibleAt := retryAt)).(ledger := q.ledger + [Accepted(id, j.attempt, token, outcome)])
    case RequestCancel(id) =>
      if id !in q.jobs || Terminal(q.jobs[id].state) then q else
        var j := q.jobs[id].(cancelRequested := true);
        Put(q, id, if j.state.Queued? then Moved(j, Cancelled) else j)
    // the one column a client may write itself
    case SetCancelFlag(id, flag) =>
      if id in q.jobs then Put(q, id, q.jobs[id].(cancelRequested := flag)) else q
    case Reap(id) =>
      if !Lapsed(q, id) then q else
        var j := q.jobs[id];
        Put(q, id, if j.attempt < j.maxAttempts then Moved(j, Queued).(visibleAt := q.now + 10 * j.attempt) else Moved(j, Failed))
    case Expire(id) =>
      if id in q.jobs && q.jobs[id].state.Done? then Put(q, id, Moved(q.jobs[id], Expired)) else q
  }

  /** Any interleaving of workers, customers, the reaper and the clock. */
  function Run(q: Queue, events: seq<Event>): Queue {
    if events == [] then q else Step(Run(q, events[..|events| - 1]), events[|events| - 1])
  }

  function Empty(): Queue { Queue(0, 0, map[], []) }

  lemma {:induction false} RunTwo(q: Queue, first: seq<Event>, second: seq<Event>)
    ensures Run(q, first + second) == Run(Run(q, first), second)
  {
    if second == [] {
      assert first + second == first;
    } else {
      var head := second[..|second| - 1];
      assert (first + second)[..|first + second| - 1] == first + head;
      RunTwo(q, first, head);
    }
  }
}
