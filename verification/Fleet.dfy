/** A take's side of its conversation with the queue, and the queue's side of it. */
module Fleet {
  import opened Wrappers
  import Runner
  import RunnerFacts
  import Leases
  import LeasesFacts

  // ---- what the queue hears of a take ----

  /** The lease a worker was given, and the seconds it asks for with every call. */
  datatype Holder = Holder(job: nat, token: Leases.Token, seconds: int)

  const VIDEO := "video"

  function ReportOf(outcome: Runner.Outcome, artifacts: seq<Runner.Artifact>, error: Option<Runner.JobError>): Leases.Outcome {
    match outcome
    case Done => Leases.OutcomeDone(exists a :: a in artifacts && a.kind == VIDEO)
    case Failed => Leases.OutcomeFailed(error.None? || error.value.retryable)
    case Cancelled => Leases.OutcomeCancelled
  }

  /** Storing an artifact is nothing to the queue. */
  function EventOf(h: Holder, c: Runner.Call): seq<Leases.Event> {
    match c
    case ReportProgress(state) =>
      [Leases.ReportProgress(h.job, h.token, Some(if state == "running" then Leases.Running else Leases.Uploading), Some(h.seconds))]
    case CompleteJob(outcome, artifacts, error) => [Leases.CompleteJob(h.job, h.token, ReportOf(outcome, artifacts, error))]
    case _ => []
  }

  function EventsOf(h: Holder, calls: seq<Runner.Call>): seq<Leases.Event> {
    if calls == [] then [] else EventsOf(h, calls[..|calls| - 1]) + EventOf(h, calls[|calls| - 1])
  }

  function BeatOf(h: Holder): Leases.Event { Leases.ReportProgress(h.job, h.token, None, Some(h.seconds)) }

  function Beating(h: Holder, n: nat): seq<Leases.Event> { if n == 0 then [] else Beating(h, n - 1) + [BeatOf(h)] }

  /** The heartbeat runs beside the container and is what sets the flag; a beat that is lost on the way
      may or may not have been heard. */
  predicate BeatsBeside(w: Runner.World, answers: seq<Runner.Beat>, heard: nat) {
    && (w.leaseLost <==> Runner.Refused in answers)
    && heard <= Runner.BeatsSent(answers)
  }

  /** Everything the queue hears of a take: its calls, with its beats between saying that it runs and
      whatever it does once the container is done with. */
  function Conversation(h: Holder, lease: Runner.Lease, w: Runner.World, heard: nat): seq<Leases.Event> {
    if Runner.Started(w) then BeforeTheEnd(h, heard) + EventsOf(h, Runner.CallsAfterTake(lease, w))
    else EventsOf(h, Runner.Calls(lease, w))
  }

  function BeforeTheEnd(h: Holder, heard: nat): seq<Leases.Event> {
    EventsOf(h, [Runner.ReportProgress("running")]) + Beating(h, heard)
  }

  /** The calls of a started take are the ones the conversation is made of. */
  lemma ConversationIsItsCalls(h: Holder, lease: Runner.Lease, w: Runner.World)
    requires Runner.Started(w)
    ensures Runner.Calls(lease, w) == [Runner.ReportProgress("running")] + Runner.CallsAfterTake(lease, w)
  {
  }

  // ---- finding it again among everybody's calls ----

  predicate IsOwn(e: Leases.Event, h: Holder) {
    (e.ReportProgress? || e.CompleteJob?) && e.job == h.job && e.token == h.token
  }

  function Own(events: seq<Leases.Event>, h: Holder): seq<Leases.Event> {
    if events == [] then [] else
      var n := |events| - 1;
      Own(events[..n], h) + if IsOwn(events[n], h) then [events[n]] else []
  }

  lemma {:induction false} OwnOfTwo(a: seq<Leases.Event>, b: seq<Leases.Event>, h: Holder)
    ensures Own(a + b, h) == Own(a, h) + Own(b, h)
  {
    if b == [] {
      assert a + b == a;
    } else {
      var head := b[..|b| - 1];
      assert (a + b)[..|a + b| - 1] == a + head;
      OwnOfTwo(a, head, h);
    }
  }

  lemma {:induction false} NothingOwnIsUnheard(events: seq<Leases.Event>, h: Holder)
    ensures Own(events, h) == [] ==> LeasesFacts.Unheard(events, h.job, h.token)
  {
    if events != [] {
      NothingOwnIsUnheard(events[..|events| - 1], h);
      assert forall e :: e in events ==> e in events[..|events| - 1] || e == events[|events| - 1];
    }
  }

  // ---- an abandoned take ----

  /** The takes that fall silent once their container is done with. */
  predicate FallsSilent(w: Runner.World) { Runner.FoundUnstoppable(w) || (Runner.Started(w) && w.leaseLost) }

  /** From that moment the queue hears nothing more of the take. */
  lemma SilentTakeIsUnheard(h: Holder, lease: Runner.Lease, w: Runner.World, heard: nat,
      before: seq<Leases.Event>, after: seq<Leases.Event>)
    requires FallsSilent(w)
    requires Own(before + after, h) == Conversation(h, lease, w, heard) && Own(before, h) == BeforeTheEnd(h, heard)
    ensures LeasesFacts.Unheard(after, h.job, h.token)
  {
    hide BeforeTheEnd;
    OwnOfTwo(before, after, h);
    assert EventsOf(h, []) == [];
    NothingOwnIsUnheard(after, h);
  }

  /** A take one of whose beats was refused is such a take. */
  lemma RefusedTakeIsUnheard(h: Holder, lease: Runner.Lease, w: Runner.World, answers: seq<Runner.Beat>, heard: nat,
      before: seq<Leases.Event>, after: seq<Leases.Event>)
    requires Runner.Started(w) && BeatsBeside(w, answers, heard) && Runner.Refused in answers
    requires Own(before + after, h) == Conversation(h, lease, w, heard) && Own(before, h) == BeforeTheEnd(h, heard)
    ensures LeasesFacts.Unheard(after, h.job, h.token)
  {
    hide Conversation, BeforeTheEnd;
    SilentTakeIsUnheard(h, lease, w, heard, before, after);
  }

  /** So an abandoned take's job comes back: once the lease it last had is over, either the job has moved
      on, or the reaper can move it, to the queue while attempts remain. The token is then worth
      nothing. */
  lemma AbandonedTakeComesBack(h: Holder, lease: Runner.Lease, w: Runner.World, heard: nat,
      q: Leases.Queue, before: seq<Leases.Event>, after: seq<Leases.Event>)
    requires LeasesFacts.Sound(q) && LeasesFacts.OncePerAttempt(q.ledger)
    requires FallsSilent(w)
    requires Own(before + after, h) == Conversation(h, lease, w, heard) && Own(before, h) == BeforeTheEnd(h, heard)
    requires LeasesFacts.Live(Leases.Run(q, before), h.job, h.token)
    ensures var last, now := Leases.Run(q, before).jobs[h.job].lease.value, Leases.Run(q, before + after);
      now.now > last.expiresAt && LeasesFacts.Live(now, h.job, h.token) ==>
      var reaped := Leases.Step(now, Leases.Reap(h.job));
      && Leases.Lapsed(now, h.job) && h.job in reaped.jobs && !LeasesFacts.Live(reaped, h.job, h.token)
      && reaped.jobs[h.job].state
        == if now.jobs[h.job].attempt < now.jobs[h.job].maxAttempts then Leases.Queued else Leases.Failed
  {
    hide Leases.Run, Leases.Step, LeasesFacts.Sound, LeasesFacts.Unheard, Leases.Lapsed, Conversation, FallsSilent, BeforeTheEnd;
    SilentTakeIsUnheard(h, lease, w, heard, before, after);
    Leases.RunTwo(q, before, after);
    LeasesFacts.RunKeeps(q, before);
    var mid := Leases.Run(q, before);
    LeasesFacts.QuietWorkerLosesItsJob(mid, after, h.job, h.token);
    LeasesFacts.RunForward(mid, after, h.job);
    ReapKeepsJobs(Leases.Run(mid, after), h.job);
  }

  lemma ReapKeepsJobs(q: Leases.Queue, id: nat)
    requires id in q.jobs
    ensures id in Leases.Step(q, Leases.Reap(id)).jobs
  {
  }

  // ---- a take whose lease holds ----

  /** Where the job stands after these of its holder's calls, each of them accepted. */
  function StandsAt(own: seq<Leases.Event>): Leases.JobState {
    if own == [] then Leases.Leased else
      var s, e := StandsAt(own[..|own| - 1]), own[|own| - 1];
      if e.ReportProgress? && e.state.Some? then e.state.value else s
  }

  /** The trigger allows the call to a job that stands at s. */
  predicate Allowed(s: Leases.JobState, e: Leases.Event) {
    && (e.ReportProgress? && e.state.Some? ==>
          (e.state.value.Running? || e.state.value.Uploading?) && (e.state.value == s || Leases.LegalTransition(s, e.state.value)))
    && (e.CompleteJob? ==> Leases.InFlight(s) && (e.outcome.OutcomeDone? ==> s.Uploading? && e.outcome.video))
  }

  predicate AllAllowed(own: seq<Leases.Event>) {
    forall k :: 0 <= k < |own| ==> Allowed(StandsAt(own[..k]), own[k])
  }

  lemma OneMoreAllowed(own: seq<Leases.Event>, e: Leases.Event)
    requires AllAllowed(own) && Allowed(StandsAt(own), e)
    ensures AllAllowed(own + [e])
    ensures StandsAt(own + [e]) == if e.ReportProgress? && e.state.Some? then e.state.value else StandsAt(own)
  {
    hide Allowed;
    var r := own + [e];
    assert r[..|own|] == own;
    forall k | 0 <= k < |r| ensures Allowed(StandsAt(r[..k]), r[k]) {
      if k < |own| { assert r[..k] == own[..k]; }
    }
  }

  lemma {:induction false} BeatsAreAllowed(own: seq<Leases.Event>, h: Holder, n: nat)
    requires AllAllowed(own)
    ensures AllAllowed(own + Beating(h, n)) && StandsAt(own + Beating(h, n)) == StandsAt(own)
  {
    hide AllAllowed, StandsAt;
    if n == 0 {
      assert own + Beating(h, n) == own;
    } else {
      BeatsAreAllowed(own, h, n - 1);
      OneMoreAllowed(own + Beating(h, n - 1), BeatOf(h));
      assert own + Beating(h, n) == own + Beating(h, n - 1) + [BeatOf(h)];
    }
  }

  /** One call added to an allowed conversation. */
  lemma CallIsAllowed(own: seq<Leases.Event>, h: Holder, c: Runner.Call)
    requires AllAllowed(own) && forall e :: e in EventOf(h, c) ==> Allowed(StandsAt(own), e)
    ensures AllAllowed(own + EventOf(h, c))
    ensures StandsAt(own + EventOf(h, c)) == if c.ReportProgress? then (if c.state == "running" then Leases.Running else Leases.Uploading) else StandsAt(own)
  {
    hide Allowed, AllAllowed, StandsAt;
    if |EventOf(h, c)| == 1 {
      var e := EventOf(h, c)[0];
      assert e in EventOf(h, c);
      OneMoreAllowed(own, e);
      assert own + EventOf(h, c) == own + [e];
    } else {
      assert own + EventOf(h, c) == own;
    }
  }

  /** A report that fails, cancels or hands back is allowed of any job in flight. */
  lemma ReportIsAllowed(own: seq<Leases.Event>, h: Holder, c: Runner.Call)
    requires AllAllowed(own) && c.CompleteJob? && c.outcome != Runner.Done && Leases.InFlight(StandsAt(own))
    ensures AllAllowed(own + EventOf(h, c))
  {
    hide AllAllowed, StandsAt;
    CallIsAllowed(own, h, c);
  }

  lemma {:induction false} EventsOfTwo(h: Holder, a: seq<Runner.Call>, b: seq<Runner.Call>)
    ensures EventsOf(h, a + b) == EventsOf(h, a) + EventsOf(h, b)
  {
    if b == [] {
      assert a + b == a;
    } else {
      var head := b[..|b| - 1];
      assert (a + b)[..|a + b| - 1] == a + head;
      EventsOfTwo(h, a, head);
    }
  }

  lemma EventsOfOne(h: Holder, c: Runner.Call)
    ensures EventsOf(h, [c]) == EventOf(h, c)
  {
    assert [c][..0] == [] && EventsOf(h, []) == [];
  }

  /** Nothing before a take starts is more than one report. */
  lemma RefusalIsAllowed(h: Holder, lease: Runner.Lease, w: Runner.World)
    requires !Runner.Started(w)
    ensures AllAllowed(EventsOf(h, Runner.Calls(lease, w)))
  {
    hide EventsOf, EventOf, AllAllowed;
    var calls := Runner.Calls(lease, w);
    assert |calls| == 1 && (calls[0].CompleteJob? ==> calls[0].outcome == Runner.Failed);
    assert calls == [calls[0]];
    EventsOfOne(h, calls[0]);
    AllowedFromNothing(h, calls[0]);
  }

  lemma AllowedFromNothing(h: Holder, c: Runner.Call)
    requires (c.ReportProgress? && c.state == "running") || (c.CompleteJob? && c.outcome == Runner.Failed)
    ensures AllAllowed(EventOf(h, c))
  {
    assert [] + EventOf(h, c) == EventOf(h, c);
    CallIsAllowed([], h, c);
  }

  /** A started take, call by call. */
  lemma ConversationIsAllowed(h: Holder, lease: Runner.Lease, w: Runner.World, heard: nat)
    ensures AllAllowed(Conversation(h, lease, w, heard))
  {
    hide EventsOf, EventOf, AllAllowed, StandsAt, Beating, Runner.Calls, Runner.CallsAfterTake;
    if Runner.Started(w) {
      BeginningIsAllowed(h, heard);
      EndIsAllowed(BeforeTheEnd(h, heard), h, lease, w);
    } else {
      RefusalIsAllowed(h, lease, w);
    }
  }

  lemma BeginningIsAllowed(h: Holder, heard: nat)
    ensures AllAllowed(BeforeTheEnd(h, heard)) && StandsAt(BeforeTheEnd(h, heard)) == Leases.Running
  {
    hide EventsOf, AllAllowed, Beating;
    var running := Runner.ReportProgress("running");
    EventsOfOne(h, running);
    AllowedFromNothing(h, running);
    BeatsAreAllowed(EventOf(h, running), h, heard);
    assert EventOf(h, running)[..0] == [];
  }

  /** After the container: a report of a running job, or uploading and then a report. */
  lemma EndIsAllowed(own: seq<Leases.Event>, h: Holder, lease: Runner.Lease, w: Runner.World)
    requires AllAllowed(own) && StandsAt(own) == Leases.Running
    ensures AllAllowed(own + EventsOf(h, Runner.CallsAfterTake(lease, w)))
  {
    hide EventOf, AllAllowed, StandsAt, Runner.Classify, Runner.UsableVideo, Runner.CallsToDeliver, Runner.CallsToFail;
    var calls := Runner.CallsAfterTake(lease, w);
    var uploading := Runner.ReportProgress("uploading");
    EventsOfNothing(h);
    assert own + [] == own;
    if w.leaseLost {
    } else if w.backend.Err? {
      EventsOfOne(h, calls[0]);
      ReportIsAllowed(own, h, calls[0]);
    } else {
      var o := w.backend.value;
      if o.flags.abandoned {
      } else if o.flags.cancelled {
        EventsOfOne(h, calls[0]);
        ReportIsAllowed(own, h, calls[0]);
      } else {
        var error := Runner.Classify(o, Runner.UsableVideo(w).Some?, w.failure, w.stderrTail);
        if error.Some? {
          FailureIsAllowed(own, h, lease, w, error.value);
        } else {
          UploadingIsAllowed(own, h);
          EventsOfOne(h, uploading);
          var further := if w.uploading.Err? then [] else Runner.CallsToDeliver(w);
          EventsOfTwo(h, [uploading], further);
          assert own + (EventOf(h, uploading) + EventsOf(h, further)) == own + EventOf(h, uploading) + EventsOf(h, further);
          if w.uploading.Ok? { DeliveryIsAllowed(own + EventOf(h, uploading), h, w); }
        }
      }
    }
  }

  lemma EventsOfNothing(h: Holder)
    ensures EventsOf(h, []) == []
  {
  }

  lemma UploadingIsAllowed(own: seq<Leases.Event>, h: Holder)
    requires AllAllowed(own) && StandsAt(own) == Leases.Running
    ensures var r := own + EventOf(h, Runner.ReportProgress("uploading")); AllAllowed(r) && StandsAt(r) == Leases.Uploading
  {
    hide AllAllowed, StandsAt;
    CallIsAllowed(own, h, Runner.ReportProgress("uploading"));
  }

  /** Storing something and then reporting is, to the queue, reporting. */
  lemma FailureIsAllowed(own: seq<Leases.Event>, h: Holder, lease: Runner.Lease, w: Runner.World, error: Runner.JobError)
    requires AllAllowed(own) && Leases.InFlight(StandsAt(own))
    ensures AllAllowed(own + EventsOf(h, Runner.CallsToFail(lease, w, error)))
  {
    hide AllAllowed, StandsAt, Runner.UsableVideo, Runner.VideoArtifact, Runner.LastWord;
    var calls := Runner.CallsToFail(lease, w, error);
    var report := calls[|calls| - 1];
    StoringIsSilent(h, calls[..|calls| - 1]);
    assert calls == calls[..|calls| - 1] + [report];
    ReportIsAllowed(own, h, report);
  }

  lemma {:induction false} StoringIsSilent(h: Holder, calls: seq<Runner.Call>)
    requires forall c :: c in calls ==> c.StoreVideo? || c.StoreSidecar?
    ensures EventsOf(h, calls) == []
    ensures forall c :: EventsOf(h, calls + [c]) == EventOf(h, c)
  {
    if calls != [] {
      assert calls[|calls| - 1] in calls;
      StoringIsSilent(h, calls[..|calls| - 1]);
    }
    forall c ensures EventsOf(h, calls + [c]) == EventOf(h, c) { assert (calls + [c])[..|calls|] == calls; }
  }

  lemma DeliveryIsAllowed(own: seq<Leases.Event>, h: Holder, w: Runner.World)
    requires AllAllowed(own) && StandsAt(own) == Leases.Uploading
    ensures AllAllowed(own + EventsOf(h, Runner.CallsToDeliver(w)))
  {
    hide AllAllowed, StandsAt, EventsOf, Runner.CallsToDeliver, Runner.VideoArtifact, EventOf;
    var stores, report := DeliveryEndsInReport(w);
    StoringIsSilent(h, stores);
    if report.outcome == Runner.Done { DoneIsAllowed(own, h, report); } else { ReportIsAllowed(own, h, report); }
  }

  lemma DeliveryEndsInReport(w: Runner.World) returns (stores: seq<Runner.Call>, report: Runner.Call)
    ensures Runner.CallsToDeliver(w) == stores + [report] && report.CompleteJob?
    ensures forall c :: c in stores ==> c.StoreVideo? || c.StoreSidecar?
    ensures report.outcome == Runner.Done ==> report.artifacts != [] && report.artifacts[0].kind == VIDEO
  {
    var calls := Runner.CallsToDeliver(w);
    stores, report := calls[..|calls| - 1], calls[|calls| - 1];
  }

  lemma DoneIsAllowed(own: seq<Leases.Event>, h: Holder, c: Runner.Call)
    requires AllAllowed(own) && StandsAt(own) == Leases.Uploading
    requires c.CompleteJob? && c.outcome == Runner.Done && c.artifacts != [] && c.artifacts[0].kind == VIDEO
    ensures AllAllowed(own + EventOf(h, c))
  {
    hide AllAllowed, StandsAt;
    assert c.artifacts[0] in c.artifacts;
    CallIsAllowed(own, h, c);
  }

  // ---- and so it is heard ----

  /** The holder's call found its lease live and unexpired. */
  predicate InTime(q: Leases.Queue, h: Holder) {
    LeasesFacts.Live(q, h.job, h.token) && q.jobs[h.job].lease.value.expiresAt > q.now
  }

  predicate Heard(q: Leases.Queue, e: Leases.Event) {
    && (e.ReportProgress? ==> Leases.Beats(q, e.job, e.token, e.state))
    && (e.CompleteJob? ==> Leases.Completes(q, e.job, e.token, e.outcome))
  }

  /** Nobody else's call moves a job from one state to another under a live lease. */
  lemma OthersLeaveItsState(q: Leases.Queue, e: Leases.Event, h: Holder)
    requires LeasesFacts.Sound(q) && h.token < q.minted && !IsOwn(e, h) && LeasesFacts.Live(Leases.Step(q, e), h.job, h.token)
    ensures LeasesFacts.Live(q, h.job, h.token) && Leases.Step(q, e).jobs[h.job].state == q.jobs[h.job].state
  {
    hide Leases.Power4, Leases.LeaseSeconds;
    if !LeasesFacts.Live(q, h.job, h.token) { LeasesFacts.NeverRevived(q, e, h.job, h.token); }
    assert h.job in q.jobs ==> LeasesFacts.JobSound(q.jobs[h.job], q.minted);
  }

  /** An allowed call in time is heard, and leaves the job where it should stand or ends its lease. */
  lemma AllowedCallIsHeard(q: Leases.Queue, e: Leases.Event, h: Holder)
    requires LeasesFacts.Sound(q) && IsOwn(e, h) && InTime(q, h) && Allowed(q.jobs[h.job].state, e)
    ensures Heard(q, e)
    ensures LeasesFacts.Live(Leases.Step(q, e), h.job, h.token) ==>
      Leases.Step(q, e).jobs[h.job].state == if e.ReportProgress? && e.state.Some? then e.state.value else q.jobs[h.job].state
  {
    hide Leases.Power4, Leases.LeaseSeconds;
    assert LeasesFacts.JobSound(q.jobs[h.job], q.minted);
  }

  /** While the lease holds, the queue accepts every call a take makes, whatever anyone else is doing:
      from the lease on, each of its beats and reports that finds the lease live and unexpired is
      heard. */
  lemma {:induction false} LiveTakeIsHeard(h: Holder, lease: Runner.Lease, w: Runner.World, heard: nat,
      q: Leases.Queue, events: seq<Leases.Event>)
    requires LeasesFacts.Sound(q) && LeasesFacts.OncePerAttempt(q.ledger)
    requires LeasesFacts.Live(q, h.job, h.token) && q.jobs[h.job].state == Leases.Leased
    requires Own(events, h) <= Conversation(h, lease, w, heard)
    requires forall n :: 0 <= n < |events| && IsOwn(events[n], h) ==> InTime(Leases.Run(q, events[..n]), h)
    ensures forall n :: 0 <= n < |events| && IsOwn(events[n], h) ==> Heard(Leases.Run(q, events[..n]), events[n])
    ensures var r := Leases.Run(q, events);
      LeasesFacts.Live(r, h.job, h.token) ==> r.jobs[h.job].state == StandsAt(Own(events, h))
  {
    hide Leases.Step, LeasesFacts.Sound, Conversation, Heard, InTime, IsOwn, LeasesFacts.OncePerAttempt, Allowed;
    if events != [] {
      var last := |events| - 1;
      var head, e := events[..last], events[last];
      var before := Leases.Run(q, head);
      forall n | 0 <= n < last ensures head[..n] == events[..n] && head[n] == events[n] {}
      LiveTakeIsHeard(h, lease, w, heard, q, head);
      LeasesFacts.RunKeeps(q, head);
      TokenStaysMinted(q, head, h);
      if IsOwn(e, h) {
        NextIsAllowed(h, lease, w, heard, Own(head, h), e);
        LiveInTime(before, h);
        AllowedCallIsHeard(before, e, h);
        assert Own(events, h)[..|Own(head, h)|] == Own(head, h);
      } else if LeasesFacts.Live(Leases.Step(before, e), h.job, h.token) {
        OthersLeaveItsState(before, e, h);
        assert Own(events, h) == Own(head, h);
      }
    }
  }

  lemma LiveInTime(q: Leases.Queue, h: Holder)
    requires InTime(q, h)
    ensures LeasesFacts.Live(q, h.job, h.token)
  {
  }

  lemma TokenStaysMinted(q: Leases.Queue, events: seq<Leases.Event>, h: Holder)
    requires LeasesFacts.Sound(q) && LeasesFacts.OncePerAttempt(q.ledger) && LeasesFacts.Live(q, h.job, h.token)
    ensures h.token < Leases.Run(q, events).minted
  {
    assert LeasesFacts.JobSound(q.jobs[h.job], q.minted);
    LeasesFacts.RunForward(q, events, h.job);
  }

  /** The next of its own calls is the next of its conversation. */
  lemma NextIsAllowed(h: Holder, lease: Runner.Lease, w: Runner.World, heard: nat, own: seq<Leases.Event>, e: Leases.Event)
    requires own + [e] <= Conversation(h, lease, w, heard)
    ensures Allowed(StandsAt(own), e)
  {
    hide Conversation, Allowed, StandsAt;
    ConversationIsAllowed(h, lease, w, heard);
    var all := Conversation(h, lease, w, heard);
    assert (own + [e])[|own|] == all[|own|] && all[..|own|] == own;
  }

  // ---- and done means what it says ----

  lemma {:induction false} EventHasCall(h: Holder, calls: seq<Runner.Call>, e: Leases.Event) returns (c: Runner.Call)
    requires e in EventsOf(h, calls)
    ensures c in calls && EventOf(h, c) == [e]
  {
    var last := calls[|calls| - 1];
    if e in EventOf(h, last) {
      c := last;
    } else {
      c := EventHasCall(h, calls[..|calls| - 1], e);
      assert calls[..|calls| - 1] <= calls;
    }
  }

  lemma {:induction false} BeatsReportNothing(h: Holder, n: nat)
    ensures forall e :: e in Beating(h, n) ==> e.ReportProgress?
  {
    if n > 0 { BeatsReportNothing(h, n - 1); }
  }

  /** What a take reports it reports with one of its calls. */
  lemma ReportHasCall(h: Holder, lease: Runner.Lease, w: Runner.World, heard: nat, e: Leases.Event) returns (c: Runner.Call)
    requires e in Conversation(h, lease, w, heard) && e.CompleteJob?
    ensures c in Runner.Calls(lease, w) && EventOf(h, c) == [e]
  {
    hide EventOf, EventsOf, Runner.CallsAfterTake, Runner.Started, Beating;
    if Runner.Started(w) {
      BeatsReportNothing(h, heard);
      ConversationIsItsCalls(h, lease, w);
      EventsOfOne(h, Runner.ReportProgress("running"));
      ProgressReportsNothing(h, "running");
      c := EventHasCall(h, Runner.CallsAfterTake(lease, w), e);
    } else {
      c := EventHasCall(h, Runner.Calls(lease, w), e);
    }
  }

  lemma ProgressReportsNothing(h: Holder, state: string)
    ensures forall e :: e in EventOf(h, Runner.ReportProgress(state)) ==> e.ReportProgress?
  {
  }

  lemma {:induction false} OwnIsThere(events: seq<Leases.Event>, h: Holder, n: nat)
    requires n < |events| && IsOwn(events[n], h)
    ensures events[n] in Own(events, h)
  {
    var last := |events| - 1;
    if n < last {
      assert events[..last][n] == events[n];
      OwnIsThere(events[..last], h, n);
    }
  }

  /** Over any run of the queue, if all that was ever said with a token was said by a take, then where the
      ledger has a job done under that token, the take had stored a usable video before it said so. */
  lemma DoneWasDelivered(h: Holder, lease: Runner.Lease, w: Runner.World, heard: nat, events: seq<Leases.Event>, i: nat)
    requires Own(events, h) <= Conversation(h, lease, w, heard)
    requires i < |Leases.Run(Leases.Empty(), events).ledger|
    requires var a := Leases.Run(Leases.Empty(), events).ledger[i];
      a.job == h.job && a.token == h.token && a.outcome.OutcomeDone?
    ensures Runner.UsableVideo(w).Some? && RunnerFacts.StoredFirst(Runner.Calls(lease, w))
  {
    hide Leases.Run, Conversation, Runner.Calls, RunnerFacts.StoredFirst, Runner.UsableVideo, LeasesFacts.Live;
    var n := LeasesFacts.OnlyHoldersWereHeard(events, i);
    OwnIsThere(events, h, n);
    var c := ReportHasCall(h, lease, w, heard, events[n]);
    RunnerFacts.DoneMeansDelivered(lease, w, c);
  }
}
