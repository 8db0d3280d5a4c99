/** What the queue hears from a take, over everything that can go wrong around it. */
module RunnerFacts {
  import opened Wrappers
  import opened Runner
  import Supervision
  import SupervisionFacts

  /** The reports among some calls. */
  function Reports(calls: seq<Call>): (r: seq<Call>)
    ensures forall c :: c in r <==> c in calls && c.CompleteJob?
  {
    if calls == [] then [] else
      Reports(calls[..|calls| - 1]) + if calls[|calls| - 1].CompleteJob? then [calls[|calls| - 1]] else []
  }

  lemma {:induction false} ReportsOfTwo(a: seq<Call>, b: seq<Call>)
    ensures Reports(a + b) == Reports(a) + Reports(b)
  {
    if b == [] {
      assert a + b == a;
    } else {
      var head := b[..|b| - 1];
      assert (a + b)[..|a + b| - 1] == a + head;
      ReportsOfTwo(a, head);
    }
  }

  /** Nothing after it, and no other. */
  predicate EndsWithOnlyReport(calls: seq<Call>) {
    calls != [] && calls[|calls| - 1].CompleteJob? && forall i :: 0 <= i < |calls| - 1 ==> !calls[i].CompleteJob?
  }

  predicate Silent(calls: seq<Call>) { forall c :: c in calls ==> !c.CompleteJob? }

  lemma {:induction false} OnlyReportIsOne(calls: seq<Call>)
    ensures Silent(calls) ==> Reports(calls) == []
    ensures EndsWithOnlyReport(calls) ==> Reports(calls) == [calls[|calls| - 1]]
  {
    if calls != [] {
      var head := calls[..|calls| - 1];
      OnlyReportIsOne(head);
      if EndsWithOnlyReport(calls) {
        forall c | c in head ensures !c.CompleteJob? {
          var i :| 0 <= i < |head| && head[i] == c;
          assert calls[i] == c;
        }
      }
    }
  }

  /** The takes that end without a report: the two in which the queue refused to hear that it had
      begun or was uploading, a lease lost meanwhile, and a container that could not be ended. */
  predicate EndsInSilence(w: World) {
    Reaches(w) && (w.started.Err? || w.leaseLost || (w.backend.Ok? && (w.backend.value.flags.abandoned || UploadUnheard(w))))
  }

  /** The script and the box were fit for a take. */
  predicate Reaches(w: World) {
    && w.ops.Ok? && w.prepared.Ok? && w.telemetry.Ok? && (w.free.Ok? ==> w.free.value >= w.minFree)
    && w.makesDirectory && w.writesScript
  }

  predicate Succeeded(w: World)
    requires w.backend.Ok?
  {
    && !w.backend.value.flags.cancelled
    && Classify(w.backend.value, UsableVideo(w).Some?, w.failure, w.stderrTail).None?
  }

  predicate UploadUnheard(w: World)
    requires w.backend.Ok?
  {
    Succeeded(w) && w.uploading.Err?
  }

  /** Every take makes one report, last of all its calls, or none; and none exactly in those four
      cases. */
  lemma ReportsOnceOrNotAtAll(lease: Lease, w: World)
    ensures if EndsInSilence(w) then Silent(Calls(lease, w)) else EndsWithOnlyReport(Calls(lease, w))
    ensures |Reports(Calls(lease, w))| == if EndsInSilence(w) then 0 else 1
  {
    hide Classify, UsableVideo, CallsToDeliver, CallsToFail, EndsWithOnlyReport, Silent;
    OnlyReportIsOne(Calls(lease, w));
    RefusalReports();
    DeliveryReports(w);
    if w.backend.Ok? {
      var error := Classify(w.backend.value, UsableVideo(w).Some?, w.failure, w.stderrTail);
      if error.Some? { FailureReports(lease, w, error.value); }
    }
    AfterProgress("uploading", CallsToDeliver(w));
    AfterProgress("uploading", []);
    AfterProgress("running", CallsAfterTake(lease, w));
    AfterProgress("running", []);
  }

  lemma RefusalReports()
    ensures forall code {:trigger Refusal(code)} :: EndsWithOnlyReport(Refusal(code))
    ensures forall code {:trigger HandBack(code)} :: EndsWithOnlyReport(HandBack(code))
    ensures EndsWithOnlyReport([CompleteJob(Cancelled, [], None)])
    ensures Silent([])
  {
  }

  lemma DeliveryReports(w: World)
    ensures EndsWithOnlyReport(CallsToDeliver(w))
  {
    hide Delivered;
  }

  lemma FailureReports(lease: Lease, w: World, error: JobError)
    ensures EndsWithOnlyReport(CallsToFail(lease, w, error))
  {
    hide UsableVideo, VideoArtifact, LastWord;
  }

  lemma AfterProgress(state: string, rest: seq<Call>)
    ensures EndsWithOnlyReport(rest) ==> EndsWithOnlyReport([ReportProgress(state)] + rest)
    ensures Silent(rest) ==> Silent([ReportProgress(state)] + rest)
  {
  }

  /** In particular the queue never hears from a take whose heartbeat was refused or whose container
      was abandoned, and only the latter takes the box out of service. */
  lemma LostAndAbandonedTakesAreSilent(lease: Lease, w: World)
    requires Started(w) && (w.leaseLost || (w.backend.Ok? && w.backend.value.flags.abandoned))
    ensures Silent(Calls(lease, w)) && Calls(lease, w) == [ReportProgress("running")]
    ensures FoundUnstoppable(w) <==> !w.leaseLost
  {
  }

  /** Position of the stored video before the report. */
  predicate StoredFirst(calls: seq<Call>) { calls != [] && StoreVideo(true) in calls[..|calls| - 1] }

  /** Done is said only of a usable video that is already in the bucket, and of no error. */
  lemma DoneMeansDelivered(lease: Lease, w: World, report: Call)
    requires report in Calls(lease, w) && report.CompleteJob? && report.outcome == Done
    ensures UsableVideo(w).Some? && UsableVideo(w).value.duration.Some? && UsableVideo(w).value.duration.value >= MIN_USABLE_SECONDS
    ensures StoredFirst(Calls(lease, w)) && report.error.None?
    ensures |report.artifacts| > 0 && report.artifacts[0] == VideoArtifact(w)
    ensures forall a :: a in report.artifacts ==> a == VideoArtifact(w) || (a.kind == "telemetry" && w.telemetry == Ok(true) && w.sidecarStored)
  {
    hide VideoArtifact;
    var o := w.backend.value;
    SuccessHasVideo(o, UsableVideo(w).Some?, w.failure, w.stderrTail);
    var calls := Calls(lease, w);
    assert calls == [ReportProgress("running"), ReportProgress("uploading")] + CallsToDeliver(w);
    assert calls[2] == StoreVideo(true);
  }

  lemma SuccessHasVideo(o: Supervision.RenderOutcome, haveVideo: bool, failure: Option<OpFailure>, stderrTail: string)
    ensures Classify(o, haveVideo, failure, stderrTail).None?
      <==> haveVideo && !o.flags.spoolLimit && (o.flags.truncated || (!o.flags.killed && o.exitCode == Some(0)))
  {
    hide ClassifyOpFailure, LowerAll, Contains;
  }

  /** A cancelled take keeps nothing, and only a cancelled container is reported cancelled. */
  lemma CancelledKeepsNothing(lease: Lease, w: World, report: Call)
    requires report in Calls(lease, w) && report.CompleteJob? && report.outcome == Cancelled
    ensures report.artifacts == [] && report.error.None? && w.backend.Ok? && w.backend.value.flags.cancelled
  {
    hide Classify, UsableVideo, CallsToDeliver, CallsToFail;
    ReportContent(lease, w, report);
  }

  lemma ReportContent(lease: Lease, w: World, c: Call)
    requires c.CompleteJob?
    ensures c in CallsToDeliver(w) ==>
      c == CompleteJob(Done, Delivered(w), None) || c == CompleteJob(Failed, [], Some(JobError("upload_failed", true)))
    ensures forall error {:trigger CallsToFail(lease, w, error)} :: c in CallsToFail(lease, w, error) ==>
      && c.outcome == Failed && c.error == Some(error)
      && (c.artifacts != [] ==>
            && LastWord(lease, error) && UsableVideo(w).Some? && c.artifacts == [VideoArtifact(w)]
            && CallsToFail(lease, w, error) == [StoreVideo(true), c])
  {
    hide UsableVideo, VideoArtifact, Delivered, LastWord;
  }

  /** A failure always says whether to retry; one that will be retried carries nothing, and one that
      carries a video is the last word and stored it first. */
  lemma FailureCarriesNothingIfRetried(lease: Lease, w: World, report: Call)
    requires report in Calls(lease, w) && report.CompleteJob? && report.outcome == Failed
    ensures report.error.Some?
    ensures report.error.value.retryable && lease.attempt < lease.maxAttempts ==> report.artifacts == []
    ensures report.artifacts != [] ==> StoredFirst(Calls(lease, w)) && UsableVideo(w).Some? && report.artifacts == [VideoArtifact(w)]
  {
    hide Classify, UsableVideo, CallsToDeliver, CallsToFail, VideoArtifact;
    ReportContent(lease, w, report);
    if report.artifacts != [] { assert Calls(lease, w)[1] == StoreVideo(true); }
  }

  // ---- together with the loop that feeds it ----

  /** What the loop hands over, as the runner receives it. */
  predicate FromLoop(w: World, l: Supervision.Limits, cancelledAlready: bool, wakes: seq<Supervision.Wake>) {
    var v := Supervision.Run(l, cancelledAlready, wakes);
    !v.Waiting? && w.backend == Supervision.Report(v)
  }

  /** Three kills that end nothing lead to silence and to a box that takes no more work, whatever
      video the take left and whatever the other flags say. */
  lemma UnstoppableContainerIsHandedOverBySilence(lease: Lease, w: World,
      l: Supervision.Limits, cancelledAlready: bool, wakes: seq<Supervision.Wake>)
    requires Started(w) && !w.leaseLost && FromLoop(w, l, cancelledAlready, wakes)
    requires Supervision.Run(l, cancelledAlready, wakes).GaveUp?
    ensures Silent(Calls(lease, w)) && FoundUnstoppable(w)
  {
    hide Supervision.Run;
    SupervisionFacts.ReportIsHonest(l, cancelledAlready, wakes);
    LostAndAbandonedTakesAreSilent(lease, w);
  }

  /** Classification alone would not protect it: a take cut short by the wall clock, with a usable
      video and a container no kill could end, classifies as a success. */
  lemma ClassifyAloneWouldReportIt(l: Supervision.Limits, failure: Option<OpFailure>, stderrTail: string)
    ensures exists wakes ::
      var v := Supervision.Run(l, false, wakes);
      && v.GaveUp?
      && Classify(Supervision.Report(v).value, true, failure, stderrTail).None?
  {
    hide ClassifyOpFailure, LowerAll, Contains;
    var soft := Supervision.SoftAt(l);
    var hard := soft + l.renderGrace + Supervision.STOP_MARGIN;
    var w0 := At(soft);
    var w1, w2, w3, w4 := At(hard), At(hard + 30_000), At(hard + 60_000), At(hard + 90_000);
    Extend(l, [], w0);
    Extend(l, [] + [w0], w1);
    Extend(l, [] + [w0] + [w1], w2);
    Extend(l, [] + [w0] + [w1] + [w2], w3);
    Extend(l, [] + [w0] + [w1] + [w2] + [w3], w4);
    assert Supervision.Run(l, false, [] + [w0] + [w1] + [w2] + [w3] + [w4]).GaveUp?;
  }

  function At(now: int): Supervision.Wake { Supervision.Wake(now, None, false, false, None) }

  lemma Extend(l: Supervision.Limits, wakes: seq<Supervision.Wake>, wake: Supervision.Wake)
    ensures Supervision.Run(l, false, wakes).Waiting? ==>
      Supervision.Run(l, false, wakes + [wake]) == Supervision.Step(l, Supervision.Run(l, false, wakes).watch, wake)
  {
    assert (wakes + [wake])[..|wakes|] == wakes;
  }

  /** The loop only kills what it has already truncated or cancelled, so the runner's own branch for
      a killed container never decides a take this backend ran: a retryable job_timeout is never
      reported. */
  lemma KilledBranchNeverDecides(lease: Lease, w: World,
      l: Supervision.Limits, cancelledAlready: bool, wakes: seq<Supervision.Wake>, report: Call)
    requires FromLoop(w, l, cancelledAlready, wakes)
    requires report in Calls(lease, w) && report.CompleteJob?
    ensures report.error != Some(JobError("job_timeout", true))
  {
    hide Supervision.Run, UsableVideo, VideoArtifact, LowerAll, Contains;
    SupervisionFacts.EveryRunIsHonest(l, cancelledAlready, wakes);
    if w.backend.Ok? { RetryableTimeoutMeansKilled(w.backend.value, UsableVideo(w).Some?, w.failure, w.stderrTail); }
    hide Classify;
  }

  lemma RetryableTimeoutMeansKilled(o: Supervision.RenderOutcome, haveVideo: bool, failure: Option<OpFailure>, stderrTail: string)
    ensures Classify(o, haveVideo, failure, stderrTail) == Some(JobError("job_timeout", true)) ==> o.flags.killed && !o.flags.truncated
  {
    hide ClassifyOpFailure, LowerAll, Contains;
    assert "job_timeout"[0] == 'j' && "browser_launch_failed"[0] == 'b' && "render_failed"[0] == 'r';
  }

  /** A container that exits cleanly, unasked, with a usable video is a take: whatever the wakes
      before it were. */
  lemma CleanExitIsDelivered(lease: Lease, w: World,
      l: Supervision.Limits, cancelledAlready: bool, wakes: seq<Supervision.Wake>)
    requires Started(w) && !w.leaseLost && FromLoop(w, l, cancelledAlready, wakes)
    requires UsableVideo(w).Some? && w.uploading.Ok? && w.videoStored
    requires var v := Supervision.Run(l, cancelledAlready, wakes);
      v.Ended? && v.exit == Supervision.Status(Some(0)) && !v.watch.flags.cancelled && !v.watch.flags.spoolLimit
    ensures var calls := Calls(lease, w); calls[|calls| - 1].CompleteJob? && calls[|calls| - 1].outcome == Done
  {
    hide Supervision.Run, UsableVideo, VideoArtifact, Classify;
    SupervisionFacts.EveryRunIsHonest(l, cancelledAlready, wakes);
    SuccessHasVideo(w.backend.value, true, w.failure, w.stderrTail);
    assert CallsAfterTake(lease, w) == [ReportProgress("uploading")] + CallsToDeliver(w);
  }

  /** No row can make a box film for longer than its own cap: with ideal timers every take's loop has
      ended by the cap, the render grace and two minutes. */
  lemma BoxIsBoundedByItsOwnCap(maxJobSeconds: int, cap: nat, start: int, grace: nat, ceiling: Supervision.U64,
      cancelledAlready: bool, wakes: seq<Supervision.Wake>, i: nat)
    requires var l := Supervision.Limits(start, Budget(maxJobSeconds, cap) * 1000, grace, ceiling);
      && SupervisionFacts.Punctual(l, cancelledAlready, wakes, 0)
      && i < |wakes| && Supervision.Run(l, cancelledAlready, wakes[..i]).Waiting?
    ensures wakes[i].now <= start + cap * 1000 + grace + 120_000
  {
    hide Supervision.Run;
    var l := Supervision.Limits(start, Budget(maxJobSeconds, cap) * 1000, grace, ceiling);
    SupervisionFacts.LoopEndsInTime(l, cancelledAlready, wakes, 0);
  }
}
