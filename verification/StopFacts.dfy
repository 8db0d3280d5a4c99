/** Why a take is stopped: the first wake that is a reason to, and nothing else. */
module StopFacts {
  import opened Supervision
  import opened SupervisionFacts

  // ---- what a wake means to a loop that has not asked its container to stop ----

  predicate WallClockReached(l: Limits, wake: Wake) { wake.exited.None? && wake.now >= l.start + l.softDeadline }

  predicate CancelRaised(l: Limits, wake: Wake) {
    wake.exited.None? && wake.now < l.start + l.softDeadline && wake.cancelChanged && wake.cancelled
  }

  predicate DiskExceeded(l: Limits, wake: Wake) {
    && wake.exited.None? && wake.now < l.start + l.softDeadline && !wake.cancelChanged
    && wake.used.Some? && wake.used.value > l.diskCeiling
  }

  predicate Quiet(l: Limits, wake: Wake) {
    wake.exited.None? && !WallClockReached(l, wake) && !CancelRaised(l, wake) && !DiskExceeded(l, wake)
  }

  /** The first wake that is anything at all. */
  predicate FirstReason(l: Limits, wakes: seq<Wake>, n: nat) {
    n < |wakes| && !Quiet(l, wakes[n]) && forall m :: 0 <= m < n ==> Quiet(l, wakes[m])
  }

  predicate AllQuiet(l: Limits, wakes: seq<Wake>) { forall m :: 0 <= m < |wakes| ==> Quiet(l, wakes[m]) }

  lemma {:induction false} FirstReasonOrNone(l: Limits, wakes: seq<Wake>) returns (n: nat)
    ensures n <= |wakes|
    ensures if n == |wakes| then AllQuiet(l, wakes) else FirstReason(l, wakes, n)
  {
    n := 0;
    while n < |wakes| && Quiet(l, wakes[n])
      invariant n <= |wakes| && forall m :: 0 <= m < n ==> Quiet(l, wakes[m])
    {
      n := n + 1;
    }
  }

  // ---- nothing happens without a reason ----

  lemma {:induction false} QuietWakesChangeNothing(l: Limits, wakes: seq<Wake>)
    requires AllQuiet(l, wakes)
    ensures Run(l, false, wakes)
      == Waiting(Watch(false, l.start + FAR_FUTURE, 0, Flags(false, false, false, false, false), []))
  {
    if wakes != [] { QuietWakesChangeNothing(l, wakes[..|wakes| - 1]); }
  }

  // ---- the first reason decides ----

  /** How it was asked to stop: when, with what grace, and why. */
  predicate AskedFor(w: Watch, at: int, grace: nat, truncated: bool, cancelled: bool, spoolLimit: bool) {
    && w.stopping && w.commands != [] && w.commands[0] == Stop(at, grace)
    && w.flags.truncated == truncated && w.flags.cancelled == cancelled && w.flags.spoolLimit == spoolLimit
  }

  lemma {:induction false} AskedStays(l: Limits, cancelledAlready: bool, wakes: seq<Wake>, k: nat,
      at: int, grace: nat, truncated: bool, cancelled: bool, spoolLimit: bool)
    requires k <= |wakes| && AskedFor(Run(l, cancelledAlready, wakes[..k]).watch, at, grace, truncated, cancelled, spoolLimit)
    ensures AskedFor(Run(l, cancelledAlready, wakes).watch, at, grace, truncated, cancelled, spoolLimit)
  {
    if k < |wakes| {
      var shorter := wakes[..|wakes| - 1];
      assert shorter[..k] == wakes[..k];
      AskedStays(l, cancelledAlready, shorter, k, at, grace, truncated, cancelled, spoolLimit);
    } else {
      assert wakes[..k] == wakes;
    }
  }

  /** An exit ends the loop, and the container was never asked to stop; the wall clock and a full disk
      leave it the render's grace; a cancel five seconds. What comes later changes none of that. */
  lemma FirstReasonDecides(l: Limits, wakes: seq<Wake>, n: nat)
    requires FirstReason(l, wakes, n)
    ensures var v, wake := Run(l, false, wakes), wakes[n];
      && (wake.exited.Some? ==>
            v == Ended(Watch(false, l.start + FAR_FUTURE, 0, Flags(false, false, false, false, false), []), wake.exited.value))
      && (WallClockReached(l, wake) ==> AskedFor(v.watch, wake.now, l.renderGrace, true, false, false))
      && (CancelRaised(l, wake) ==> AskedFor(v.watch, wake.now, CANCEL_GRACE, false, true, false))
      && (DiskExceeded(l, wake) ==> AskedFor(v.watch, wake.now, l.renderGrace, true, false, true))
  {
    var wake := wakes[n];
    var upTo := wakes[..n + 1];
    QuietWakesChangeNothing(l, wakes[..n]);
    assert upTo[..|upTo| - 1] == wakes[..n] && upTo[|upTo| - 1] == wake;
    if wake.exited.Some? {
      EndedStays(l, false, wakes, n + 1);
    } else {
      AskedStays(l, false, wakes, n + 1, wake.now, if CancelRaised(l, wake) then CANCEL_GRACE else l.renderGrace,
        !CancelRaised(l, wake), CancelRaised(l, wake), DiskExceeded(l, wake));
    }
  }

  lemma CancelledAlreadyDecides(l: Limits, wakes: seq<Wake>)
    ensures AskedFor(Run(l, true, wakes).watch, l.start, CANCEL_GRACE, false, true, false)
  {
    assert wakes[..0] == [];
    AskedStays(l, true, wakes, 0, l.start, CANCEL_GRACE, false, true, false);
  }

  // ---- what each flag says ----

  /** A take is cancelled exactly if its cancel was up before it began, or was raised while nothing else
      had been a reason to stop. */
  lemma CancelledExactlyWhen(l: Limits, cancelledAlready: bool, wakes: seq<Wake>)
    ensures Run(l, cancelledAlready, wakes).watch.flags.cancelled
      <==> cancelledAlready || exists n: nat :: FirstReason(l, wakes, n) && CancelRaised(l, wakes[n])
  {
    hide Run, Quiet;
    WhatStoppedIt(l, cancelledAlready, wakes);
  }

  /** It hit its spool limit exactly if the first reason to stop was a disk over the ceiling. */
  lemma SpoolLimitExactlyWhen(l: Limits, cancelledAlready: bool, wakes: seq<Wake>)
    ensures Run(l, cancelledAlready, wakes).watch.flags.spoolLimit
      <==> !cancelledAlready && exists n: nat :: FirstReason(l, wakes, n) && DiskExceeded(l, wakes[n])
  {
    hide Run, Quiet;
    WhatStoppedIt(l, cancelledAlready, wakes);
  }

  /** And was truncated exactly if that was such a disk or the wall clock. */
  lemma TruncatedExactlyWhen(l: Limits, cancelledAlready: bool, wakes: seq<Wake>)
    ensures Run(l, cancelledAlready, wakes).watch.flags.truncated
      <==> !cancelledAlready && exists n: nat :: FirstReason(l, wakes, n) && (DiskExceeded(l, wakes[n]) || WallClockReached(l, wakes[n]))
  {
    hide Run, Quiet;
    WhatStoppedIt(l, cancelledAlready, wakes);
  }

  lemma WhatStoppedIt(l: Limits, cancelledAlready: bool, wakes: seq<Wake>)
    ensures var flags := Run(l, cancelledAlready, wakes).watch.flags;
      if cancelledAlready then flags.cancelled && !flags.truncated && !flags.spoolLimit
      else if AllQuiet(l, wakes) then !flags.cancelled && !flags.truncated && !flags.spoolLimit
      else forall n: nat :: FirstReason(l, wakes, n) ==>
        && flags.cancelled == CancelRaised(l, wakes[n])
        && flags.truncated == (DiskExceeded(l, wakes[n]) || WallClockReached(l, wakes[n]))
        && flags.spoolLimit == DiskExceeded(l, wakes[n])
    ensures AllQuiet(l, wakes) || exists n: nat :: FirstReason(l, wakes, n)
  {
    hide Run;
    var first := FirstReasonOrNone(l, wakes);
    if cancelledAlready {
      CancelledAlreadyDecides(l, wakes);
    } else if AllQuiet(l, wakes) {
      QuietWakesChangeNothing(l, wakes);
    } else {
      forall n: nat | FirstReason(l, wakes, n)
        ensures var flags := Run(l, cancelledAlready, wakes).watch.flags;
          && flags.cancelled == CancelRaised(l, wakes[n])
          && flags.truncated == (DiskExceeded(l, wakes[n]) || WallClockReached(l, wakes[n]))
          && flags.spoolLimit == DiskExceeded(l, wakes[n])
      {
        FirstReasonDecides(l, wakes, n);
      }
    }
  }

  // ---- and then it is made to ----

  /** Once asked to stop, the loop waits out what the last command was given and no longer: the next wake
      from then on kills, three times, and then gives up. An exit ends it at any moment, and any other
      wake before is passed over. */
  lemma EscalatesExactlyWhenDue(l: Limits, cancelledAlready: bool, wakes: seq<Wake>, wake: Wake)
    requires Run(l, cancelledAlready, wakes).Waiting? && Run(l, cancelledAlready, wakes).watch.stopping
    ensures var w, v := Run(l, cancelledAlready, wakes).watch, Run(l, cancelledAlready, wakes + [wake]);
      && w.commands != [] && |w.commands| == w.kills + 1
      && (wake.exited.Some? ==> v == Ended(w, wake.exited.value))
      && (wake.exited.None? && wake.now < Due(w, w.kills) ==> v == Waiting(w))
      && (wake.exited.None? && wake.now >= Due(w, w.kills) && w.kills < 3 ==>
            v.Waiting? && v.watch.commands == w.commands + [Kill(wake.now)] && v.watch.kills == w.kills + 1 && v.watch.flags.killed)
      && (wake.exited.None? && wake.now >= Due(w, w.kills) && w.kills >= 3 ==>
            v.GaveUp? && v.watch.commands == w.commands && v.watch.flags.killed && v.watch.flags.abandoned)
  {
    CommandsArePatient(l, cancelledAlready, wakes);
    assert (wakes + [wake])[..|wakes + [wake]| - 1] == wakes;
  }

  /** What the runner is told of the child: the code it exited with, if it ended and had one. */
  lemma ReportSaysHowItEnded(l: Limits, cancelledAlready: bool, wakes: seq<Wake>, n: nat)
    requires n < |wakes| && Run(l, cancelledAlready, wakes[..n]).Waiting? && wakes[n].exited.Some?
    ensures var v := Run(l, cancelledAlready, wakes);
      && v.Ended? && (Report(v).Err? <==> wakes[n].exited.value.WaitFailed?)
      && (Report(v).Ok? ==>
            && Report(v).value.exitCode == wakes[n].exited.value.code
            && Report(v).value.flags == Run(l, cancelledAlready, wakes[..n]).watch.flags)
  {
    var upTo := wakes[..n + 1];
    assert upTo[..|upTo| - 1] == wakes[..n];
    EndedStays(l, cancelledAlready, wakes, n + 1);
  }
}
