/** One take, from lease to report: what the worker tells the queue and what it uploads. */
module Runner {
  import opened Wrappers
  import Supervision

  const MIN_USABLE_SECONDS := 0.4

  // ---- what the outside world answers ----

  datatype ControlError = LeaseLost | Abandoned | OtherError

  datatype Media = Media(duration: Option<real>)

  /** What is on disk where the video should be, and what a probe of it says. */
  datatype OnDisk = OnDisk(isFile: bool, bytes: nat, probe: Result<Media, string>)

  /** What the recorder said about the op that failed. */
  datatype OpFailure = OpFailure(index: nat, error: string)

  datatype Artifact = Artifact(kind: string, duration: Option<real>)

  datatype Lease = Lease(attempt: int, maxAttempts: int, maxJobSeconds: int)

  datatype World = World(
    ops: Result<bool, string>,               // the lease's script as an array
    prepared: Result<bool, string>,          // and past the script checks
    telemetry: Result<bool, string>,         // the resolved options, of which only this matters here
    free: Result<nat, string>, minFree: nat,
    makesDirectory: bool, writesScript: bool,
    started: Result<bool, ControlError>,     // report_progress(running)
    leaseLost: bool,                         // set by the heartbeat while the backend ran
    backend: Result<Supervision.RenderOutcome, string>,
    failure: Option<OpFailure>, stderrTail: string,
    video: Option<OnDisk>, maxArtifactBytes: nat,
    uploading: Result<bool, ControlError>,   // report_progress(uploading)
    videoStored: bool, sidecarExists: bool, sidecarStored: bool,
    completed: Result<string, ControlError>) // complete_job, with the state it came back with

  // ---- what the worker does ----

  datatype Outcome = Done | Failed | Cancelled

  datatype JobError = JobError(code: string, retryable: bool)

  datatype Call =
    | ReportProgress(state: string)
    | StoreVideo(stored: bool)
    | StoreSidecar(stored: bool)
    | CompleteJob(outcome: Outcome, artifacts: seq<Artifact>, error: Option<JobError>)

  /** A video shorter than this is not a take, and neither is one the probe cannot time. */
  function UsableVideo(w: World): Option<Media> {
    if w.video.None? || !w.video.value.isFile || w.video.value.bytes == 0 || w.video.value.bytes > w.maxArtifactBytes then None
    else
      match w.video.value.probe
      case Err(_) => None
      case Ok(info) => if info.duration.Some? && info.duration.value >= MIN_USABLE_SECONDS then Some(info) else None
  }

  function Lower(c: char): char { if 'A' <= c <= 'Z' then c - 'A' + 'a' else c }

  function LowerAll(s: string): string { seq(|s|, i requires 0 <= i < |s| => Lower(s[i])) }

  predicate Contains(s: string, part: string) {
    |s| >= |part| && (s[..|part|] == part || (s != [] && Contains(s[1..], part)))
  }

  function ClassifyOpFailure(error: string): string {
    var e := LowerAll(error);
    if Contains(e, "navigate") && Contains(e, "timed out") then "navigate_timeout"
    else if Contains(e, "timed out") || Contains(e, "timeout") then "selector_timeout"
    else "op_failed"
  }

  /** What to call the outcome; no error means the take succeeded. */
  function Classify(o: Supervision.RenderOutcome, haveVideo: bool, failure: Option<OpFailure>, stderrTail: string): Option<JobError> {
    if o.flags.spoolLimit then Some(JobError("spool_limit", false))
    else if o.flags.truncated && !haveVideo then Some(JobError("job_timeout", false))
    else if o.flags.truncated then None
    else if o.flags.killed then Some(JobError("job_timeout", true))
    else if o.exitCode == Some(0) && haveVideo then None
    else if failure.Some? then Some(JobError(ClassifyOpFailure(failure.value.error), false))
    else
      var stderr := LowerAll(stderrTail);
      if Contains(stderr, "chromium") || Contains(stderr, "browser") || Contains(stderr, "launch")
      then Some(JobError("browser_launch_failed", true))
      else Some(JobError("render_failed", true))
  }

  /** The seconds a take may film: the row's ceiling, never more than this box's own. */
  function Budget(maxJobSeconds: int, cap: nat): nat {
    var asked := if maxJobSeconds > 1 then maxJobSeconds else 1;
    if asked < cap then asked else cap
  }

  // ---- the calls a take makes, in order ----

  function Refusal(code: string): seq<Call> { [CompleteJob(Failed, [], Some(JobError(code, false)))] }

  function HandBack(code: string): seq<Call> { [CompleteJob(Failed, [], Some(JobError(code, true)))] }

  function Calls(lease: Lease, w: World): seq<Call> {
    if w.ops.Err? || w.prepared.Err? then Refusal("script_invalid")
    else if w.telemetry.Err? then Refusal("options_invalid")
    else if w.free.Ok? && w.free.value < w.minFree then HandBack("render_failed")
    else if !w.makesDirectory || !w.writesScript then HandBack("render_failed")
    else [ReportProgress("running")] + if w.started.Err? then [] else CallsAfterTake(lease, w)
  }

  function CallsAfterTake(lease: Lease, w: World): seq<Call> {
    if w.leaseLost then []
    else if w.backend.Err? then HandBack("render_failed")
    else
      var o := w.backend.value;
      if o.flags.abandoned then []
      else if o.flags.cancelled then [CompleteJob(Cancelled, [], None)]
      else
        var error := Classify(o, UsableVideo(w).Some?, w.failure, w.stderrTail);
        if error.None? then [ReportProgress("uploading")] + if w.uploading.Err? then [] else CallsToDeliver(w)
        else CallsToFail(lease, w, error.value)
  }

  function VideoArtifact(w: World): Artifact {
    Artifact("video", if UsableVideo(w).Some? then UsableVideo(w).value.duration else None)
  }

  function SidecarCalls(w: World): seq<Call> {
    if w.telemetry == Ok(true) && w.sidecarExists then [StoreSidecar(w.sidecarStored)] else []
  }

  function Delivered(w: World): seq<Artifact> {
    [VideoArtifact(w)] +
    if w.telemetry == Ok(true) && w.sidecarExists && w.sidecarStored then [Artifact("telemetry", None)] else []
  }

  function CallsToDeliver(w: World): seq<Call> {
    if !w.videoStored then [StoreVideo(false)] + HandBack("upload_failed")
    else [StoreVideo(true)] + SidecarCalls(w) + [CompleteJob(Done, Delivered(w), None)]
  }

  predicate LastWord(lease: Lease, error: JobError) { !error.retryable || lease.attempt >= lease.maxAttempts }

  function CallsToFail(lease: Lease, w: World, error: JobError): seq<Call> {
    if LastWord(lease, error) && UsableVideo(w).Some? then
      [StoreVideo(w.videoStored)] + [CompleteJob(Failed, if w.videoStored then [VideoArtifact(w)] else [], Some(error))]
    else [CompleteJob(Failed, [], Some(error))]
  }

  predicate Reported(calls: seq<Call>) { calls != [] && calls[|calls| - 1].CompleteJob? }

  class Worker {
    var unhealthy: bool
    var calls: seq<Call>

    constructor ()
      ensures !unhealthy && calls == []
    {
      unhealthy, calls := false, [];
    }

    method Progress(state: string, answer: Result<bool, ControlError>) returns (r: Result<bool, ControlError>)
      modifies this`calls
      ensures calls == old(calls) + [ReportProgress(state)] && r == answer
    {
      calls := calls + [ReportProgress(state)];
      r := answer;
    }

    method Complete(outcome: Outcome, artifacts: seq<Artifact>, error: Option<JobError>, w: World)
      returns (r: Result<string, ControlError>)
      modifies this`calls
      ensures calls == old(calls) + [CompleteJob(outcome, artifacts, error)] && r == w.completed
    {
      calls := calls + [CompleteJob(outcome, artifacts, error)];
      r := w.completed;
    }

    method Reject(code: string, w: World) returns (r: Result<string, ControlError>)
      modifies this`calls
      ensures calls == old(calls) + Refusal(code) && r == w.completed
    {
      r := Complete(Failed, [], Some(JobError(code, false)), w);
    }

    method FailRetryable(code: string, w: World) returns (r: Result<string, ControlError>)
      modifies this`calls
      ensures calls == old(calls) + HandBack(code) && r == w.completed
    {
      r := Complete(Failed, [], Some(JobError(code, true)), w);
    }

    method UploadVideo(w: World) returns (r: Result<Artifact, string>)
      modifies this`calls
      ensures calls == old(calls) + [StoreVideo(w.videoStored)]
      ensures r == if w.videoStored then Ok(VideoArtifact(w)) else Err("upload")
    {
      calls := calls + [StoreVideo(w.videoStored)];
      r := if w.videoStored then Ok(VideoArtifact(w)) else Err("upload");
    }

    method UploadTelemetry(w: World) returns (r: Result<Option<Artifact>, string>)
      modifies this`calls
      ensures calls == old(calls) + if w.sidecarExists then [StoreSidecar(w.sidecarStored)] else []
      ensures r == if !w.sidecarExists then Ok(None) else if w.sidecarStored then Ok(Some(Artifact("telemetry", None))) else Err("upload")
    {
      if !w.sidecarExists { return Ok(None); }
      calls := calls + [StoreSidecar(w.sidecarStored)];
      r := if w.sidecarStored then Ok(Some(Artifact("telemetry", None))) else Err("upload");
    }

    /** The whole take. The result is the queue's answer to the report, or why there was none. */
    method RunInner(lease: Lease, w: World) returns (r: Result<string, ControlError>)
      modifies this
      ensures calls == old(calls) + Calls(lease, w)
      ensures unhealthy == (old(unhealthy) || FoundUnstoppable(w))
      ensures r.Ok? <==> w.completed.Ok? && Reported(Calls(lease, w))
    {
      if w.ops.Err? { r := Reject("script_invalid", w); return; }
      if w.prepared.Err? { r := Reject("script_invalid", w); return; }
      if w.telemetry.Err? { r := Reject("options_invalid", w); return; }
      if w.free.Ok? && w.free.value < w.minFree { r := FailRetryable("render_failed", w); return; }
      if !w.makesDirectory { r := FailRetryable("render_failed", w); return; }
      if !w.writesScript { r := FailRetryable("render_failed", w); return; }

      var running := Progress("running", w.started);
      if running.Err? { return Err(running.error); }

      if w.leaseLost { return Err(LeaseLost); }
      if w.backend.Err? { r := FailRetryable("render_failed", w); return; }
      var outcome := w.backend.value;
      if outcome.flags.abandoned {
        unhealthy := true;
        return Err(Abandoned);
      }
      var media := UsableVideo(w);
      if outcome.flags.cancelled { r := Complete(Cancelled, [], None, w); return; }

      var error := Classify(outcome, media.Some?, w.failure, w.stderrTail);
      if error.None? { r := Deliver(w); return; }
      r := Fail(lease, w, error.value);
    }

    method Deliver(w: World) returns (r: Result<string, ControlError>)
      modifies this`calls
      ensures calls == old(calls) + [ReportProgress("uploading")] + if w.uploading.Err? then [] else CallsToDeliver(w)
      ensures r.Ok? <==> w.completed.Ok? && w.uploading.Ok?
    {
      var uploading := Progress("uploading", w.uploading);
      if uploading.Err? { return Err(uploading.error); }
      var video := UploadVideo(w);
      if video.Err? { r := FailRetryable("upload_failed", w); return; }
      var artifacts := [video.value];
      if w.telemetry == Ok(true) {
        var sidecar := UploadTelemetry(w);
        if sidecar.Ok? && sidecar.value.Some? { artifacts := artifacts + [sidecar.value.value]; }
      }
      r := Complete(Done, artifacts, None, w);
      assert artifacts == Delivered(w);
    }

    method Fail(lease: Lease, w: World, error: JobError) returns (r: Result<string, ControlError>)
      modifies this`calls
      ensures calls == old(calls) + CallsToFail(lease, w, error) && r == w.completed
    {
      var finalAttempt := !error.retryable || lease.attempt >= lease.maxAttempts;
      var artifacts := [];
      if finalAttempt && UsableVideo(w).Some? {
        var video := UploadVideo(w);
        if video.Ok? { artifacts := [video.value]; }
      }
      r := Complete(Failed, artifacts, Some(error), w);
    }
  }

  /** The take got as far as a container, and the container could not be ended. */
  predicate FoundUnstoppable(w: World) {
    && Started(w) && !w.leaseLost && w.backend.Ok? && w.backend.value.flags.abandoned
  }

  /** Everything before the container went well. */
  predicate Started(w: World) {
    && w.ops.Ok? && w.prepared.Ok? && w.telemetry.Ok? && (w.free.Ok? ==> w.free.value >= w.minFree)
    && w.makesDirectory && w.writesScript && w.started.Ok?
  }

  // ---- the heartbeat ----

  datatype Beat = Heard(cancelRequested: bool) | Refused | Lost

  datatype Heart = Heart(beats: nat, cancelSent: bool, leaseLost: bool)

  /** How many beats are sent: all of them, or those up to the first refusal. */
  function BeatsSent(answers: seq<Beat>): (n: nat)
    ensures n <= |answers|
  {
    if answers == [] then 0 else if answers[0] == Refused then 1 else 1 + BeatsSent(answers[1..])
  }

  /** The heartbeat task over the answers its beats get, until the take aborts it. */
  method Heartbeat(answers: seq<Beat>) returns (heart: Heart)
    ensures heart.beats == BeatsSent(answers)
    ensures heart.leaseLost <==> Refused in answers
    ensures heart.leaseLost ==> 0 < heart.beats <= |answers| && answers[heart.beats - 1] == Refused && Refused !in answers[..heart.beats - 1]
    ensures !heart.leaseLost ==> heart.beats == |answers|
    ensures heart.cancelSent <==> heart.leaseLost || Heard(true) in answers[..heart.beats]
  {
    heart := Heart(0, false, false);
    while heart.beats < |answers|
      invariant 0 <= heart.beats <= |answers| && !heart.leaseLost
      invariant Refused !in answers[..heart.beats]
      invariant heart.beats + BeatsSent(answers[heart.beats..]) == BeatsSent(answers)
      invariant heart.cancelSent <==> Heard(true) in answers[..heart.beats]
    {
      var k := heart.beats;
      assert answers[..k + 1] == answers[..k] + [answers[k]];
      assert answers[k..][1..] == answers[k + 1..];
      match answers[k] {
        case Heard(cancelRequested) =>
          heart := Heart(k + 1, heart.cancelSent || cancelRequested, false);
        case Refused =>
          heart := Heart(k + 1, true, true);
          return;
        case Lost =>
          heart := Heart(k + 1, heart.cancelSent, false);
      }
    }
    assert answers[..heart.beats] == answers;
  }
}
