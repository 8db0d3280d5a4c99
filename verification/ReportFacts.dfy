/** What a take's report says, and when it says it: success, blame and whether another box should try. */
module ReportFacts {
  import opened Wrappers
  import opened Runner
  import opened RunnerFacts
  import Supervision

  // ---- words in a message ----

  /** c is this lower-case letter, or it in upper case. */
  predicate SameLetter(c: char, l: char) { c == l || ('a' <= l <= 'z' && c == l - 'a' + 'A') }

  /** The word starts here, in whatever case. */
  predicate StandsAt(text: string, word: string, i: nat) {
    i + |word| <= |text| && forall k :: 0 <= k < |word| ==> SameLetter(text[i + k], word[k])
  }

  ghost predicate Mentions(text: string, word: string) { exists i: nat :: StandsAt(text, word, i) }

  predicate Plain(word: string) { forall c :: c in word ==> !('A' <= c <= 'Z') }

  lemma LowerIsSameLetter(c: char, l: char)
    requires !('A' <= l <= 'Z')
    ensures Lower(c) == l <==> SameLetter(c, l)
  {
  }

  lemma StandsExactlyWhenPrefix(text: string, word: string)
    requires Plain(word)
    ensures StandsAt(text, word, 0) <==> |text| >= |word| && LowerAll(text)[..|word|] == word
  {
    hide Lower;
    var low := LowerAll(text);
    forall k | 0 <= k < |word| && |word| <= |text| ensures low[k] == word[k] <==> SameLetter(text[k], word[k]) {
      assert word[k] in word;
      LowerIsSameLetter(text[k], word[k]);
    }
    if |text| >= |word| && low[..|word|] == word {
      forall k | 0 <= k < |word| ensures SameLetter(text[0 + k], word[k]) { assert low[..|word|][k] == low[k]; }
    }
  }

  lemma StandsFurtherOn(text: string, word: string)
    requires text != []
    ensures forall i: nat :: StandsAt(text[1..], word, i) <==> StandsAt(text, word, i + 1)
  {
    hide SameLetter;
    forall i: nat ensures StandsAt(text[1..], word, i) <==> StandsAt(text, word, i + 1) {
      if i + 1 + |word| <= |text| {
        forall k | 0 <= k < |word| ensures SameLetter(text[1..][i + k], word[k]) <==> SameLetter(text[i + 1 + k], word[k]) {}
      }
    }
  }

  /** Looking for a word in a message finds it wherever it stands, in any case. */
  lemma {:induction false} ContainsExactlyWhenMentioned(text: string, word: string)
    requires Plain(word)
    ensures Contains(LowerAll(text), word) <==> Mentions(text, word)
  {
    hide StandsAt, Lower;
    var low := LowerAll(text);
    StandsExactlyWhenPrefix(text, word);
    if text == [] {
      NothingBeyond(word);
    } else {
      assert low[1..] == LowerAll(text[1..]);
      ContainsExactlyWhenMentioned(text[1..], word);
      StandsFurtherOn(text, word);
      TooShortForIt(text, word);
      if i: nat :| StandsAt(text, word, i) {
        if i > 0 { assert StandsAt(text[1..], word, i - 1); }
      }
    }
  }

  lemma NothingBeyond(word: string)
    ensures forall i: nat :: StandsAt([], word, i) ==> i == 0
  {
  }

  lemma TooShortForIt(text: string, word: string)
    ensures Mentions(text, word) ==> |text| >= |word|
  {
  }

  lemma CodesDiffer()
    ensures "spool_limit" != "job_timeout" && "selector_timeout" != "navigate_timeout" && "upload_failed" != "render_failed"
  {
    assert "spool_limit"[0] == 's' && "job_timeout"[0] == 'j';
    assert "selector_timeout"[0] == 's' && "navigate_timeout"[0] == 'n';
    assert "upload_failed"[0] == 'u' && "render_failed"[0] == 'r';
  }

  // ---- what became of the take ----

  /** It was filmed to an end, and neither lost, given up nor cancelled. */
  predicate Ran(w: World) {
    && Reaches(w) && w.started.Ok? && !w.leaseLost && w.backend.Ok?
    && !w.backend.value.flags.abandoned && !w.backend.value.flags.cancelled
  }

  /** It left a file of an allowed size that plays for at least two fifths of a second. */
  predicate FitVideo(w: World) {
    && w.video.Some? && w.video.value.isFile && 0 < w.video.value.bytes <= w.maxArtifactBytes
    && w.video.value.probe.Ok? && w.video.value.probe.value.duration.Some? && w.video.value.probe.value.duration.value >= 0.4
  }

  /** It ended of its own accord, with the exit code of success. */
  predicate EndedWell(w: World)
    requires w.backend.Ok?
  {
    !w.backend.value.flags.killed && w.backend.value.exitCode == Some(0)
  }

  lemma UsableIsFit(w: World)
    ensures UsableVideo(w).Some? <==> FitVideo(w)
    ensures FitVideo(w) ==> UsableVideo(w) == Some(w.video.value.probe.value)
  {
  }

  /** A take's success is a fit video that did not fill its spool, from a take cut short or ended well. */
  predicate Good(w: World)
    requires w.backend.Ok?
  {
    FitVideo(w) && !w.backend.value.flags.spoolLimit && (w.backend.value.flags.truncated || EndedWell(w))
  }

  /** A good take is delivered, once the queue has heard that it is uploading, and no other take is. */
  lemma DeliveredOrNot(lease: Lease, w: World)
    ensures Ran(w) && Good(w) && w.uploading.Ok? ==>
      Calls(lease, w) == [ReportProgress("running"), ReportProgress("uploading")] + CallsToDeliver(w)
    ensures !(Ran(w) && Good(w) && w.uploading.Ok?) ==>
      forall c :: c in Calls(lease, w) ==> !(c.CompleteJob? && c.outcome == Done) && !c.StoreSidecar?
  {
    hide Classify, UsableVideo, FitVideo, CallsToDeliver, Refusal, HandBack, CallsToFail;
    UsableIsFit(w);
    NoOtherSaysDone(lease, w);
    if w.backend.Ok? { GoodIsClassified(w); }
  }

  lemma GoodIsClassified(w: World)
    requires w.backend.Ok?
    ensures Good(w) <==> Classify(w.backend.value, UsableVideo(w).Some?, w.failure, w.stderrTail).None?
  {
    hide Classify, UsableVideo, FitVideo;
    UsableIsFit(w);
    SuccessHasVideo(w.backend.value, UsableVideo(w).Some?, w.failure, w.stderrTail);
  }

  /** What it is delivered with. */
  function ArtifactsOf(w: World): seq<Artifact>
    requires FitVideo(w)
  {
    [Artifact("video", w.video.value.probe.value.duration)]
    + if w.telemetry == Ok(true) && w.sidecarExists && w.sidecarStored then [Artifact("telemetry", None)] else []
  }

  lemma DeliveryCalls(w: World)
    requires FitVideo(w)
    ensures w.videoStored ==>
      var sidecar := if w.telemetry == Ok(true) && w.sidecarExists then [StoreSidecar(w.sidecarStored)] else [];
      CallsToDeliver(w) == [StoreVideo(true)] + sidecar + [CompleteJob(Done, ArtifactsOf(w), None)]
    ensures !w.videoStored ==> CallsToDeliver(w) == [StoreVideo(false), CompleteJob(Failed, [], Some(JobError("upload_failed", true)))]
  {
    hide UsableVideo, FitVideo;
    UsableIsFit(w);
    FitIsProbed(w);
  }

  lemma FitIsProbed(w: World)
    requires FitVideo(w)
    ensures w.video.Some? && w.video.value.probe.Ok?
  {
  }

  /** Done is reported exactly for a good take whose video the bucket took, once the queue had heard it was
      uploading, with the video and the sidecar that was asked for and stored. */
  lemma DoneExactlyWhen(lease: Lease, w: World)
    ensures (exists c :: c in Calls(lease, w) && c.CompleteJob? && c.outcome == Done)
      <==> Ran(w) && Good(w) && w.uploading.Ok? && w.videoStored
    ensures forall c :: c in Calls(lease, w) && c.CompleteJob? && c.outcome == Done ==> FitVideo(w) && c.artifacts == ArtifactsOf(w)
  {
    hide Calls, CallsToDeliver, FitVideo, ArtifactsOf;
    DeliveredOrNot(lease, w);
    if Ran(w) && Good(w) && w.uploading.Ok? {
      DeliveryCalls(w);
      if w.videoStored {
        var calls := Calls(lease, w);
        assert calls[|calls| - 1] == CompleteJob(Done, ArtifactsOf(w), None);
      }
    }
  }

  /** The telemetry is stored, or tried, exactly for a take that is delivered, was asked for it and has it,
      after the video and before the report. */
  lemma SidecarIsStoredExactlyWhen(lease: Lease, w: World)
    ensures (exists stored :: StoreSidecar(stored) in Calls(lease, w))
      <==> Ran(w) && Good(w) && w.uploading.Ok? && w.videoStored && w.telemetry == Ok(true) && w.sidecarExists
    ensures forall stored :: StoreSidecar(stored) in Calls(lease, w) ==>
      && stored == w.sidecarStored && |Calls(lease, w)| >= 4
      && Calls(lease, w)[..4] == [ReportProgress("running"), ReportProgress("uploading"), StoreVideo(true), StoreSidecar(stored)]
  {
    hide Calls, CallsToDeliver, FitVideo, ArtifactsOf;
    DeliveredOrNot(lease, w);
    if Ran(w) && Good(w) && w.uploading.Ok? {
      DeliveryCalls(w);
      if w.videoStored && w.telemetry == Ok(true) && w.sidecarExists { assert Calls(lease, w)[3] == StoreSidecar(w.sidecarStored); }
    }
  }

  lemma NoOtherSaysDone(lease: Lease, w: World)
    ensures forall code, c {:trigger c in Refusal(code)} :: c in Refusal(code) ==> c == CompleteJob(Failed, [], Some(JobError(code, false)))
    ensures forall code, c {:trigger c in HandBack(code)} :: c in HandBack(code) ==> c == CompleteJob(Failed, [], Some(JobError(code, true)))
    ensures forall error, c {:trigger c in CallsToFail(lease, w, error)} :: c in CallsToFail(lease, w, error) && c.CompleteJob? ==>
      c.outcome == Failed && c.error == Some(error)
    ensures forall error, c {:trigger c in CallsToFail(lease, w, error)} :: c in CallsToFail(lease, w, error) ==> !c.StoreSidecar?
  {
    hide UsableVideo, LastWord, VideoArtifact;
  }

  // ---- blame ----

  /** An op failed, and nothing else ended the take first. */
  predicate OpFailed(w: World) {
    Ran(w) && !w.backend.value.flags.spoolLimit && !w.backend.value.flags.truncated && !w.backend.value.flags.killed
    && !(w.backend.value.exitCode == Some(0) && FitVideo(w)) && w.failure.Some?
  }

  /** It passed its limit with nothing to show. */
  predicate OutOfTime(w: World) {
    Ran(w) && !w.backend.value.flags.spoolLimit && w.backend.value.flags.truncated && !FitVideo(w)
  }

  predicate FilledItsSpool(w: World) { Ran(w) && w.backend.value.flags.spoolLimit }

  /** What another box could not do better: a bad script or bad options, and a take too long or too big for
      any box or failed by one of its own ops. */
  predicate ScriptsFault(w: World) {
    w.ops.Err? || w.prepared.Err? || w.telemetry.Err? || FilledItsSpool(w) || OutOfTime(w) || OpFailed(w)
  }

  lemma ClassifySays(o: Supervision.RenderOutcome, haveVideo: bool, failure: Option<OpFailure>, stderrTail: string)
    ensures var e := Classify(o, haveVideo, failure, stderrTail);
      e.Some? ==>
        var opFailed := !o.flags.spoolLimit && !o.flags.truncated && !o.flags.killed && failure.Some?;
        var noOp := !o.flags.spoolLimit && !o.flags.truncated && !o.flags.killed && failure.None?;
        && (e.value.retryable <==> !o.flags.spoolLimit && !(o.flags.truncated && !haveVideo) && (o.flags.killed || failure.None?))
        && (e.value.code == "spool_limit" <==> o.flags.spoolLimit)
        && (e.value.code == "job_timeout" <==> !o.flags.spoolLimit && (o.flags.truncated || o.flags.killed))
        && (e.value.code == "navigate_timeout" <==>
              opFailed && Mentions(failure.value.error, "navigate") && Mentions(failure.value.error, "timed out"))
        && (e.value.code == "selector_timeout" <==>
              opFailed && (Mentions(failure.value.error, "timed out") || Mentions(failure.value.error, "timeout"))
              && !(Mentions(failure.value.error, "navigate") && Mentions(failure.value.error, "timed out")))
        && (e.value.code == "browser_launch_failed" <==>
              noOp && (Mentions(stderrTail, "chromium") || Mentions(stderrTail, "browser") || Mentions(stderrTail, "launch")))
        && e.value.code != "script_invalid" && e.value.code != "options_invalid" && e.value.code != "upload_failed"
  {
    hide ClassifyOpFailure, LowerAll, Contains, Mentions;
    CodesDiffer();
    ContainsExactlyWhenMentioned(stderrTail, "chromium");
    ContainsExactlyWhenMentioned(stderrTail, "browser");
    ContainsExactlyWhenMentioned(stderrTail, "launch");
    if failure.Some? { OpFailureSays(failure.value.error); }
  }

  lemma OpFailureSays(error: string)
    ensures var code := ClassifyOpFailure(error);
      && (code == "navigate_timeout" <==> Mentions(error, "navigate") && Mentions(error, "timed out"))
      && (code == "selector_timeout" <==>
            (Mentions(error, "timed out") || Mentions(error, "timeout"))
            && !(Mentions(error, "navigate") && Mentions(error, "timed out")))
      && (code == "navigate_timeout" || code == "selector_timeout" || code == "op_failed")
  {
    hide LowerAll, Contains, Mentions;
    CodesDiffer();
    ContainsExactlyWhenMentioned(error, "navigate");
    ContainsExactlyWhenMentioned(error, "timed out");
    ContainsExactlyWhenMentioned(error, "timeout");
  }

  /** Where a failure comes from: before the take, after it, or from what the container did. */
  lemma FailureComesFrom(lease: Lease, w: World, report: Call)
    requires report in Calls(lease, w) && report.CompleteJob? && report.outcome == Failed
    ensures report.error.Some?
    ensures var e := report.error.value;
      if w.ops.Err? || w.prepared.Err? then e == JobError("script_invalid", false)
      else if w.telemetry.Err? then e == JobError("options_invalid", false)
      else if !Reaches(w) || w.backend.Err? then e == JobError("render_failed", true)
      else
        && Ran(w)
        && var why := Classify(w.backend.value, UsableVideo(w).Some?, w.failure, w.stderrTail);
           if why.None? then e == JobError("upload_failed", true) && w.uploading.Ok? && !w.videoStored else e == why.value
  {
    hide Classify, UsableVideo, CallsToFail;
    NoOtherSaysDone(lease, w);
  }

  /** A failure may be tried again exactly if it is not the script's own. */
  lemma RetriedExactlyWhenNotTheScriptsFault(lease: Lease, w: World, report: Call)
    requires report in Calls(lease, w) && report.CompleteJob? && report.outcome == Failed
    ensures report.error.Some? && (report.error.value.retryable <==> !ScriptsFault(w))
  {
    hide Classify, UsableVideo, Calls, Mentions;
    FailureComesFrom(lease, w, report);
    UsableIsFit(w);
    if w.backend.Ok? {
      SuccessHasVideo(w.backend.value, UsableVideo(w).Some?, w.failure, w.stderrTail);
      ClassifySays(w.backend.value, UsableVideo(w).Some?, w.failure, w.stderrTail);
    }
  }

  /** And its code says just what happened. */
  lemma CodeSaysWhy(lease: Lease, w: World, report: Call)
    requires report in Calls(lease, w) && report.CompleteJob? && report.outcome == Failed
    ensures report.error.Some?
    ensures var code := report.error.value.code;
      && (code == "script_invalid" <==> w.ops.Err? || w.prepared.Err?)
      && (code == "options_invalid" <==> w.ops.Ok? && w.prepared.Ok? && w.telemetry.Err?)
      && (code == "spool_limit" <==> FilledItsSpool(w))
      && (code == "job_timeout" <==>
            OutOfTime(w) || (Ran(w) && !w.backend.value.flags.spoolLimit && !w.backend.value.flags.truncated && w.backend.value.flags.killed))
      && (code == "navigate_timeout" <==>
            OpFailed(w) && Mentions(w.failure.value.error, "navigate") && Mentions(w.failure.value.error, "timed out"))
      && (code == "selector_timeout" <==>
            OpFailed(w) && (Mentions(w.failure.value.error, "timed out") || Mentions(w.failure.value.error, "timeout"))
            && !(Mentions(w.failure.value.error, "navigate") && Mentions(w.failure.value.error, "timed out")))
      && (code == "upload_failed" <==> Ran(w) && Good(w))
  {
    hide Classify, UsableVideo, Calls, Mentions;
    FailureComesFrom(lease, w, report);
    UsableIsFit(w);
    CodesDiffer();
    if w.backend.Ok? {
      SuccessHasVideo(w.backend.value, UsableVideo(w).Some?, w.failure, w.stderrTail);
      ClassifySays(w.backend.value, UsableVideo(w).Some?, w.failure, w.stderrTail);
    }
  }
}
