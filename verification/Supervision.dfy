/** The loop that waits on a render container and makes sure it stops. Times are milliseconds. */
module Supervision {
  import opened Wrappers

  const MAX_KILL_ATTEMPTS := 3
  const KILL_RETRY := 30_000
  const STOP_MARGIN := 30_000
  const CANCEL_GRACE := 5_000
  const U64_MAX := 0xFFFF_FFFF_FFFF_FFFF
  const SPOOL_OVERSHOOT_NUMERATOR := 5
  const SPOOL_OVERSHOOT_DENOMINATOR := 4

  // ---- the disk ceiling, in saturating 64-bit arithmetic ----

  type U64 = n: int | 0 <= n <= U64_MAX

  function Saturated(n: nat): U64 { if n <= U64_MAX then n else U64_MAX }

  function JobDiskCeiling(maxSpoolBytes: U64, maxArtifactBytes: U64): U64 {
    Saturated(Saturated(maxSpoolBytes * SPOOL_OVERSHOOT_NUMERATOR) / SPOOL_OVERSHOOT_DENOMINATOR + maxArtifactBytes)
  }

  /** The watchdog leaves room for a full spool beside a full artifact exactly when the spool cap is
      below 2^62, past which the multiplication saturates; the artifact term can only hide that by
      reaching the end of the range itself. */
  lemma CeilingLeavesRoom(spool: U64, artifact: U64)
    ensures JobDiskCeiling(spool, artifact) >= Saturated(spool + artifact)
      <==> spool < 0x4000_0000_0000_0000 || artifact > U64_MAX - 0x4000_0000_0000_0000
  {
    if spool * 5 > U64_MAX { assert Saturated(spool * 5) / 4 == 0x3FFF_FFFF_FFFF_FFFF; }
  }

  /** It is a quarter more than the spool cap, and the artifact's, unless that is past the end of the range. */
  lemma CeilingIsAQuarterMore(spool: U64, artifact: U64)
    ensures spool * 5 <= U64_MAX && spool + spool / 4 + artifact <= U64_MAX ==>
      JobDiskCeiling(spool, artifact) == spool + spool / 4 + artifact
  {
  }

  // ---- what the loop is told and what it keeps ----

  /** How the child ended: an exit code, a signal (no code), or a wait that failed. */
  datatype Exit = Status(code: Option<int>) | WaitFailed

  /** One return of the select. `used` is what the disk measured, when the watchdog's tick is due. */
  datatype Wake = Wake(now: int, exited: Option<Exit>, cancelChanged: bool, cancelled: bool, used: Option<nat>)

  datatype Limits = Limits(start: int, softDeadline: nat, renderGrace: nat, diskCeiling: U64)

  datatype Command = Stop(at: int, grace: nat) | Kill(at: int)

  datatype Flags = Flags(truncated: bool, killed: bool, abandoned: bool, cancelled: bool, spoolLimit: bool)

  datatype Watch = Watch(stopping: bool, hardAt: int, kills: nat, flags: Flags, commands: seq<Command>)

  /** The loop's three ways of being after a wake. */
  datatype Verdict =
    | Waiting(watch: Watch)
    | Ended(watch: Watch, exit: Exit)
    | GaveUp(watch: Watch)

  const FAR_FUTURE := 365 * 24 * 3600 * 1000

  function SoftAt(l: Limits): int { l.start + l.softDeadline }

  function AskToStop(w: Watch, now: int, grace: nat, hardAfter: nat, flags: Flags): Watch {
    w.(stopping := true, hardAt := now + hardAfter, flags := flags, commands := w.commands + [Stop(now, grace)])
  }

  function Begin(l: Limits, cancelledAlready: bool): Watch {
    var w := Watch(false, l.start + FAR_FUTURE, 0, Flags(false, false, false, false, false), []);
    if cancelledAlready then AskToStop(w, l.start, CANCEL_GRACE, STOP_MARGIN, w.flags.(cancelled := true)) else w
  }

  /** The select's arms in their biased order: the child, the wall clock, a cancel, the disk
      watchdog, and the hard deadline. */
  function Step(l: Limits, w: Watch, wake: Wake): Verdict {
    if wake.exited.Some? then Ended(w, wake.exited.value)
    else if !w.stopping && wake.now >= SoftAt(l) then
      Waiting(AskToStop(w, wake.now, l.renderGrace, l.renderGrace + STOP_MARGIN, w.flags.(truncated := true)))
    else if !w.stopping && wake.cancelChanged then
      Waiting(if wake.cancelled then AskToStop(w, wake.now, CANCEL_GRACE, STOP_MARGIN, w.flags.(cancelled := true)) else w)
    else if !w.stopping && wake.used.Some? then
      Waiting(if wake.used.value > l.diskCeiling
        then AskToStop(w, wake.now, l.renderGrace, l.renderGrace + STOP_MARGIN, w.flags.(spoolLimit := true, truncated := true))
        else w)
    else if w.stopping && wake.now >= w.hardAt then
      var killed := w.flags.(killed := true);
      if w.kills >= MAX_KILL_ATTEMPTS then GaveUp(w.(flags := killed.(abandoned := true)))
      else Waiting(w.(flags := killed, kills := w.kills + 1, hardAt := wake.now + KILL_RETRY, commands := w.commands + [Kill(wake.now)]))
    else Waiting(w)
  }

  /** Where the loop is after these wakes; it sees none after it has ended. */
  function Run(l: Limits, cancelledAlready: bool, wakes: seq<Wake>): Verdict {
    if wakes == [] then Waiting(Begin(l, cancelledAlready)) else
      var v := Run(l, cancelledAlready, wakes[..|wakes| - 1]);
      if v.Waiting? then Step(l, v.watch, wakes[|wakes| - 1]) else v
  }

  datatype Escalation = KillAttempt(attempt: nat) | Abandon

  /** The kills sent so far, and the step due next. */
  class StopLadder {
    var kills: nat

    constructor ()
      ensures kills == 0
    {
      kills := 0;
    }

    method Next() returns (e: Escalation)
      modifies this
      ensures old(kills) < MAX_KILL_ATTEMPTS ==> kills == old(kills) + 1 && e == KillAttempt(kills)
      ensures old(kills) >= MAX_KILL_ATTEMPTS ==> kills == old(kills) && e == Abandon
    {
      if kills >= MAX_KILL_ATTEMPTS { return Abandon; }
      kills := kills + 1;
      e := KillAttempt(kills);
    }
  }

  lemma {:induction false} EndedStays(l: Limits, cancelledAlready: bool, wakes: seq<Wake>, k: nat)
    requires k <= |wakes| && !Run(l, cancelledAlready, wakes[..k]).Waiting?
    ensures Run(l, cancelledAlready, wakes) == Run(l, cancelledAlready, wakes[..k])
  {
    if k < |wakes| {
      var shorter := wakes[..|wakes| - 1];
      assert shorter[..k] == wakes[..k];
      EndedStays(l, cancelledAlready, shorter, k);
    } else {
      assert wakes[..k] == wakes;
    }
  }

  /** The loop itself, run over the wakes its environment delivers. */
  method Supervise(l: Limits, cancelledAlready: bool, wakes: seq<Wake>) returns (verdict: Verdict)
    ensures verdict == Run(l, cancelledAlready, wakes)
  {
    var stopping := false;
    var hardAt := l.start + FAR_FUTURE;
    var outcome := Flags(false, false, false, false, false);
    var commands: seq<Command> := [];
    var ladder := new StopLadder();

    if cancelledAlready {
      outcome := outcome.(cancelled := true);
      stopping := true;
      commands := commands + [Stop(l.start, CANCEL_GRACE)];
      hardAt := l.start + STOP_MARGIN;
    }

    var i := 0;
    while i < |wakes|
      invariant 0 <= i <= |wakes| && fresh(ladder)
      invariant Run(l, cancelledAlready, wakes[..i]) == Waiting(Watch(stopping, hardAt, ladder.kills, outcome, commands))
    {
      var wake := wakes[i];
      assert wakes[..i + 1][..i] == wakes[..i];
      if wake.exited.Some? {
        EndedStays(l, cancelledAlready, wakes, i + 1);
        return Ended(Watch(stopping, hardAt, ladder.kills, outcome, commands), wake.exited.value);
      } else if !stopping && wake.now >= SoftAt(l) {
        outcome := outcome.(truncated := true);
        stopping := true;
        commands := commands + [Stop(wake.now, l.renderGrace)];
        hardAt := wake.now + l.renderGrace + STOP_MARGIN;
      } else if !stopping && wake.cancelChanged {
        if wake.cancelled {
          outcome := outcome.(cancelled := true);
          stopping := true;
          commands := commands + [Stop(wake.now, CANCEL_GRACE)];
          hardAt := wake.now + STOP_MARGIN;
        }
      } else if !stopping && wake.used.Some? {
        if wake.used.value > l.diskCeiling {
          outcome := outcome.(spoolLimit := true, truncated := true);
          stopping := true;
          commands := commands + [Stop(wake.now, l.renderGrace)];
          hardAt := wake.now + l.renderGrace + STOP_MARGIN;
        }
      } else if stopping && wake.now >= hardAt {
        outcome := outcome.(killed := true);
        var escalation := ladder.Next();
        match escalation {
          case KillAttempt(_) =>
            commands := commands + [Kill(wake.now)];
            hardAt := wake.now + KILL_RETRY;
          case Abandon =>
            outcome := outcome.(abandoned := true);
            EndedStays(l, cancelledAlready, wakes, i + 1);
            return GaveUp(Watch(stopping, hardAt, ladder.kills, outcome, commands));
        }
      }
      i := i + 1;
    }
    assert wakes[..i] == wakes;
    verdict := Waiting(Watch(stopping, hardAt, ladder.kills, outcome, commands));
  }

  /** What the backend hands back: an error only when waiting on the child failed. */
  datatype RenderOutcome = RenderOutcome(exitCode: Option<int>, flags: Flags)

  function Report(v: Verdict): Result<RenderOutcome, string>
    requires !v.Waiting?
  {
    match v
    case Ended(w, Status(code)) => Ok(RenderOutcome(code, w.flags))
    case Ended(_, WaitFailed) => Err("waiting for docker")
    case GaveUp(w) => Ok(RenderOutcome(None, w.flags))
  }
}
