/** Whatever the container and the clock do, the loop ends in time and says truthfully how. */
module SupervisionFacts {
  import opened Supervision

  // ---- the flags, on every run ----

  predicate Honest(w: Watch) {
    && !(w.flags.cancelled && w.flags.truncated)
    && (w.flags.spoolLimit ==> w.flags.truncated)
    && (w.stopping <==> w.flags.cancelled || w.flags.truncated)
    && w.kills <= MAX_KILL_ATTEMPTS
    && (w.flags.killed <==> w.kills > 0)
    && (w.kills > 0 ==> w.stopping)
  }

  predicate HonestVerdict(v: Verdict) {
    && Honest(v.watch)
    && (v.GaveUp? <==> v.watch.flags.abandoned)
    && (v.GaveUp? ==> v.watch.kills == MAX_KILL_ATTEMPTS)
  }

  /** On every run: a take is cancelled or truncated and never both, a full spool is a truncation,
      and it is abandoned exactly when the loop stopped waiting without the child having ended,
      which takes three kills. */
  lemma {:induction false} EveryRunIsHonest(l: Limits, cancelledAlready: bool, wakes: seq<Wake>)
    ensures HonestVerdict(Run(l, cancelledAlready, wakes))
  {
    if wakes != [] { EveryRunIsHonest(l, cancelledAlready, wakes[..|wakes| - 1]); }
  }

  /** What the runner is handed keeps all of that. */
  lemma ReportIsHonest(l: Limits, cancelledAlready: bool, wakes: seq<Wake>)
    requires !Run(l, cancelledAlready, wakes).Waiting?
    ensures var v := Run(l, cancelledAlready, wakes);
      Report(v).Ok? ==>
        var o := Report(v).value;
        && !(o.flags.cancelled && o.flags.truncated)
        && (o.flags.spoolLimit ==> o.flags.truncated)
        && (o.flags.abandoned <==> v.GaveUp?)
        && (o.flags.abandoned ==> o.exitCode.None? && o.flags.killed)
  {
    EveryRunIsHonest(l, cancelledAlready, wakes);
  }

  /** Why it stopped is decided once: later wakes can only add that it was killed or abandoned. */
  lemma {:induction false} FirstReasonStands(l: Limits, cancelledAlready: bool, wakes: seq<Wake>, k: nat)
    requires k <= |wakes| && Run(l, cancelledAlready, wakes[..k]).watch.stopping
    ensures var earlier, now := Run(l, cancelledAlready, wakes[..k]).watch, Run(l, cancelledAlready, wakes).watch;
      now.flags.(killed := false, abandoned := false) == earlier.flags.(killed := false, abandoned := false) && now.stopping
  {
    if k < |wakes| {
      var shorter := wakes[..|wakes| - 1];
      assert shorter[..k] == wakes[..k];
      FirstReasonStands(l, cancelledAlready, shorter, k);
    } else {
      assert wakes[..k] == wakes;
    }
  }

  // ---- the commands, on every run ----

  /** One stop, then up to three kills, each given the time it was promised. */
  predicate Patient(w: Watch) {
    && (w.commands == [] <==> !w.stopping)
    && (w.commands == [] ==> w.kills == 0)
    && (w.commands != [] ==>
          && |w.commands| == 1 + w.kills
          && w.commands[0].Stop?
          && (forall i :: 1 <= i < |w.commands| ==> w.commands[i].Kill? && Due(w, i - 1) <= w.commands[i].at)
          && w.hardAt == Due(w, w.kills))
    && (w.flags.cancelled ==> w.commands != [] && w.commands[0] == Stop(w.commands[0].at, CANCEL_GRACE))
  }

  /** When the next command may follow command i. */
  function Due(w: Watch, i: nat): int
    requires i < |w.commands|
  {
    match w.commands[i]
    case Stop(at, grace) => at + STOP_MARGIN + if w.flags.cancelled then 0 else grace
    case Kill(at) => at + KILL_RETRY
  }

  lemma {:induction false} CommandsArePatient(l: Limits, cancelledAlready: bool, wakes: seq<Wake>)
    ensures Patient(Run(l, cancelledAlready, wakes).watch)
  {
    if wakes != [] {
      CommandsArePatient(l, cancelledAlready, wakes[..|wakes| - 1]);
      var v := Run(l, cancelledAlready, wakes[..|wakes| - 1]);
      if v.Waiting? { StepIsPatient(l, v.watch, wakes[|wakes| - 1]); }
    }
  }

  lemma StepIsPatient(l: Limits, w: Watch, wake: Wake)
    requires Patient(w)
    ensures Patient(Step(l, w, wake).watch)
  {
  }

  // ---- time ----

  /** The timer that is armed: the wall clock until the container is asked to stop, then the hard
      deadline. */
  function Armed(l: Limits, w: Watch): int { if w.stopping then w.hardAt else SoftAt(l) }

  /** No wake comes more than `late` after the timer that was armed before it; `late` is zero for
      ideal timers. */
  predicate Punctual(l: Limits, cancelledAlready: bool, wakes: seq<Wake>, late: nat) {
    forall i :: 0 <= i < |wakes| ==>
      var v := Run(l, cancelledAlready, wakes[..i]);
      v.Waiting? ==> l.start <= wakes[i].now <= Armed(l, v.watch) + late
  }

  /** The latest moment the loop can still see, from here. */
  function LastMoment(l: Limits, w: Watch, late: nat): int {
    if w.stopping then w.hardAt + late + (MAX_KILL_ATTEMPTS - w.kills) * (KILL_RETRY + late)
    else SoftAt(l) + late + l.renderGrace + STOP_MARGIN + late + MAX_KILL_ATTEMPTS * (KILL_RETRY + late)
  }

  lemma StepMeetsTheMoment(l: Limits, w: Watch, wake: Wake, late: nat)
    requires Honest(w) && wake.now <= Armed(l, w) + late
    ensures wake.now <= LastMoment(l, w, late)
    ensures Step(l, w, wake).Waiting? ==> LastMoment(l, Step(l, w, wake).watch, late) <= LastMoment(l, w, late)
  {
    assert MAX_KILL_ATTEMPTS == 3;
    if w.kills == 0 {} else if w.kills == 1 {} else if w.kills == 2 {}
  }

  /** The bound itself, 120 seconds past the soft deadline and the render grace. */
  function Bound(l: Limits, late: nat): int { l.start + l.softDeadline + l.renderGrace + 120_000 + 5 * late }

  /** However the child behaves, no wake the loop sees is later than the soft deadline, the render
      grace and 120 seconds; a loop whose clock has passed that has ended. Timers that fire late
      cost five times their lateness. */
  lemma {:induction false} LoopEndsInTime(l: Limits, cancelledAlready: bool, wakes: seq<Wake>, late: nat)
    requires Punctual(l, cancelledAlready, wakes, late)
    ensures var v := Run(l, cancelledAlready, wakes);
      v.Waiting? ==> LastMoment(l, v.watch, late) <= Bound(l, late)
    ensures forall i :: 0 <= i < |wakes| && Run(l, cancelledAlready, wakes[..i]).Waiting? ==> wakes[i].now <= Bound(l, late)
  {
    if wakes != [] {
      var n := |wakes| - 1;
      var head := wakes[..n];
      forall i | 0 <= i < n ensures head[..i] == wakes[..i] && head[i] == wakes[i] {}
      assert Punctual(l, cancelledAlready, head, late);
      LoopEndsInTime(l, cancelledAlready, head, late);
      var v := Run(l, cancelledAlready, head);
      if v.Waiting? {
        EveryRunIsHonest(l, cancelledAlready, head);
        StepMeetsTheMoment(l, v.watch, wakes[n], late);
      }
    }
  }

  /** How many of these wakes found the armed timer expired. */
  function Expiries(l: Limits, cancelledAlready: bool, wakes: seq<Wake>): nat {
    if wakes == [] then 0 else
      var head, wake := wakes[..|wakes| - 1], wakes[|wakes| - 1];
      Expiries(l, cancelledAlready, head)
        + if wake.now >= Armed(l, Run(l, cancelledAlready, head).watch) then 1 else 0
  }

  /** And it cannot go on for want of a wake: the fifth timer to expire ends it, whatever else has
      woken it in between. */
  lemma {:induction false} FifthExpiryEnds(l: Limits, cancelledAlready: bool, wakes: seq<Wake>)
    ensures var v := Run(l, cancelledAlready, wakes);
      v.Waiting? ==> Expiries(l, cancelledAlready, wakes) <= if v.watch.stopping then 1 + v.watch.kills else 0
    ensures Expiries(l, cancelledAlready, wakes) >= 5 ==> !Run(l, cancelledAlready, wakes).Waiting?
  {
    EveryRunIsHonest(l, cancelledAlready, wakes);
    if wakes != [] { FifthExpiryEnds(l, cancelledAlready, wakes[..|wakes| - 1]); }
  }
}
