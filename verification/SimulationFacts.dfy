/** What every script's simulation guarantees: an ordered clock the planner never loses an
    interaction to, and beats whose replay ends in the state the script ended in. */
module SimulationFacts {
  import opened Wrappers
  import opened Reals
  import opened Planner
  import opened PlannerFacts
  import opened Thinning
  import opened Framing
  import opened Simulation

  // ---- the clock ----

  /** Marks in order inside [0, now], boxed ones at least a waypoint gap apart. */
  ghost predicate Timed(marks: seq<Mark>, now: real) {
    && 0.0 <= now
    && (forall k :: 0 <= k < |marks| ==> 0.0 <= marks[k].t <= now)
    && (forall a, b :: 0 <= a < b < |marks| ==> marks[a].t <= marks[b].t)
    && (forall a, b :: 0 <= a < b < |marks| && Zoomable(marks[a]) && Zoomable(marks[b]) ==>
          marks[b].t >= marks[a].t + WAYPOINT_MIN_GAP)
  }

  lemma AddMark(marks: seq<Mark>, now: real, m: Mark)
    requires Timed(marks, now) && now <= m.t && (Zoomable(m) ==> m.t >= now + WAYPOINT_MIN_GAP)
    ensures Timed(marks + [m], m.t)
  {}

  lemma Later(marks: seq<Mark>, now: real, later: real)
    requires Timed(marks, now) && now <= later
    ensures Timed(marks, later)
  {}

  lemma CaretSpacing(span: real)
    requires span > 0.2
    ensures WAYPOINT_MIN_GAP * CaretCount(span) as real <= span
  {
    var r := (span / CARET_SAMPLE + 0.5).Floor;
    assert r as real <= span / CARET_SAMPLE + 0.5;
    assert span / CARET_SAMPLE * CARET_SAMPLE == span;
  }

  lemma CaretClock(tStart: real, span: real, n: int, k: int)
    requires 0 < k <= n && WAYPOINT_MIN_GAP * n as real <= span
    ensures CaretTime(tStart, span, n, k) >= CaretTime(tStart, span, n, k - 1) + WAYPOINT_MIN_GAP
  {
    var m := n as real;
    var a, b := (k - 1) as real / m, k as real / m;
    assert a * m == (k - 1) as real && b * m == k as real;
    assert (b - a) * m == 1.0;
    NonNegProduct(span - WAYPOINT_MIN_GAP * m, b - a) by { NonNegFactor(b - a, m); }
    assert (span - WAYPOINT_MIN_GAP * m) * (b - a) == span * b - span * a - WAYPOINT_MIN_GAP * ((b - a) * m);
  }

  lemma {:induction false} CaretsTimed(marks: seq<Mark>, tStart: real, span: real, field: string, x0: real, x1: real, y: real, h: real, n: int, k: int)
    requires Timed(marks, tStart) && 0 <= k <= n && n > 0 && WAYPOINT_MIN_GAP * n as real <= span
    ensures Timed(marks + CaretMarks(tStart, span, field, x0, x1, y, h, n, k), CaretTime(tStart, span, n, k))
  {
    hide Timed, CaretTime;
    var all := CaretMarks(tStart, span, field, x0, x1, y, h, n, k);
    if k == 0 {
      assert marks + all == marks;
      CaretStart(tStart, span, n);
    } else {
      CaretsTimed(marks, tStart, span, field, x0, x1, y, h, n, k - 1);
      CaretClock(tStart, span, n, k);
      var head := CaretMarks(tStart, span, field, x0, x1, y, h, n, k - 1);
      var m := CaretMark(tStart, span, field, x0, x1, y, h, n, k);
      AddMark(marks + head, CaretTime(tStart, span, n, k - 1), m);
      assert marks + all == marks + head + [m];
    }
  }

  lemma CaretStart(tStart: real, span: real, n: int)
    requires n > 0
    ensures CaretTime(tStart, span, n, 0) == tStart && CaretTime(tStart, span, n, n) == tStart + span
  {
    DivSelf(n as real);
    DivIs(0.0, n as real, 0.0);
  }

  // ---- every op keeps the clock ----

  ghost predicate OnTime(s: Sim) { Timed(s.marks, s.t) }

  lemma ApproachOnTime(scene: Scene, s: Sim, n: Node)
    requires OnTime(s)
    ensures var r := Approach(scene, s, n);
      r.marks == s.marks && r.t == s.t + RESOLVE_SETTLE + CURSOR_GLIDE && OnTime(r)
  {
    hide Centred, MiddleOf, OnScreen;
  }

  lemma PressOnTime(s: Sim, name: string, box: Box, focus: Option<string>, before: real)
    requires Timed(s.marks, before) && s.t >= before + WAYPOINT_MIN_GAP
    ensures OnTime(Press(s, name, box, focus))
  {
    AddMark(s.marks, before, Mark(s.t, Click, name, Some(box)));
  }

  lemma ClickOnTime(scene: Scene, s: Sim, spot: Spot)
    requires OnTime(s)
    ensures OnTime(DoClick(scene, s, spot)) && DoClick(scene, s, spot).t >= s.t
  {
    hide Centred, MiddleOf, OnScreen, Timed;
    match spot {
      case BySelector(sel) =>
        if sel in scene.nodes {
          var n := scene.nodes[sel];
          var near := Approach(scene, s, n);
          PressOnTime(near, sel, OnScreen(n, near.scrollY), if n.editable then Some(sel) else None, s.t);
        }
      case ByPoint(x, y) =>
        var p := Pointer(x, y, "arrow");
        var near := s.(t := s.t + CURSOR_GLIDE, pointer := p,
                       beats := s.beats + [MovePointer(s.t, s.t + CURSOR_GLIDE, s.pointer, p)]);
        PressOnTime(near, "point", Box(x - 10.0, y - 10.0, 20.0, 20.0), None, s.t);
      case Nowhere =>
    }
  }

  lemma SpanPositive(len: nat, per: real)
    requires per >= 0.0
    ensures len as real * per / 1000.0 >= 0.0
  {
    NonNegProduct(len as real, per);
  }

  lemma KeysOnTime(scene: Scene, measure: string -> real, s: Sim, name: string, box: Option<Box>, text: string, per: real, before: real)
    requires per >= 0.0 && Timed(s.marks, before) && s.t >= before && (box.Some? ==> s.t >= before + WAYPOINT_MIN_GAP)
    ensures var r := DoKeys(scene, measure, s, name, box, text, per); OnTime(r) && r.t >= s.t
  {
    hide Timed, CaretCount, CaretMarks, CaretTime;
    SpanPositive(|text|, per);
    var span := |text| as real * per / 1000.0;
    var m := Mark(s.t, Type, name, box);
    AddMark(s.marks, before, m);
    Later(s.marks + [m], s.t, s.t + span);
    if s.focus.Some? && s.focus.value in scene.nodes && span > 0.2 {
      var field, n := s.focus.value, CaretCount(span);
      var had := if field in s.typed then s.typed[field] else "";
      var left := scene.nodes[field].box.x + 16.0;
      CaretSpacing(span);
      CaretStart(s.t, span, n);
      CaretsTimed(s.marks + [m], s.t, span, field, left + measure(had), left + measure(had + text),
        if box.Some? then box.value.y else 0.0, if box.Some? then box.value.h else 24.0, n, n);
    }
    assert s.marks + [m] + [] == s.marks + [m];
  }

  lemma TypeOnTime(scene: Scene, measure: string -> real, s: Sim, text: string, sel: Option<string>, per: real)
    requires OnTime(s) && per >= 0.0
    ensures var r := DoType(scene, measure, s, text, sel, per); OnTime(r) && r.t >= s.t
  {
    hide DoKeys, Centred, MiddleOf, OnScreen, Timed;
    match sel {
      case Some(sel) =>
        if sel in scene.nodes {
          var n := scene.nodes[sel];
          ApproachOnTime(scene, s, n);
          var near := Approach(scene, s, n);
          var focus := if n.editable then Some(sel) else None;
          var ready := near.(focus := focus, t := near.t + TYPE_CLICK_SETTLE, beats := near.beats + [Focus(near.t, focus)]);
          KeysOnTime(scene, measure, ready, sel, Some(OnScreen(n, near.scrollY)), text, per, s.t);
        }
      case None =>
        if s.focus.Some? { KeysOnTime(scene, measure, s, "", None, text, per, s.t); }
    }
  }

  lemma StepOnTime(scene: Scene, measure: string -> real, s: Sim, op: Op)
    requires OnTime(s)
    ensures OnTime(Step(scene, measure, s, op)) && Step(scene, measure, s, op).t >= s.t
  {
    hide DoType, DoClick, Timed;
    match op {
      case GoTo(url, _) => if url.Some? { AddMark(s.marks, s.t, Mark(s.t + NAVIGATE_LOAD + NAVIGATE_SETTLE, Navigate, url.value, None)); }
      case ClickOn(spot) => ClickOnTime(scene, s, spot);
      case TypeInto(text, sel, per) =>
        var ms := Duration(per, TYPEWRITER_MS);
        if text.Some? && ms.Some? { TypeOnTime(scene, measure, s, text.value, sel, ms.value); }
      case ScrollTo(y, smooth) =>
        AddMark(s.marks, s.t, Mark(s.t + if smooth then SCROLL_SMOOTH else SCROLL_INSTANT, Scroll, "", None));
      case WaitMs(ms) =>
        var d := Duration(ms, 0.0);
        if d.Some? { AddMark(s.marks, s.t, Mark(s.t + d.value / 1000.0, Wait, "", None)); }
      case WaitFor(_, _) => AddMark(s.marks, s.t, Mark(s.t + WAIT_SELECTOR, Wait, "", None));
      case NoteDown(note) => AddMark(s.marks, s.t, Mark(s.t, Note, note, None));
      case StartRecording => Later(s.marks, s.t, s.t + START_RECORDING);
      case _ =>
    }
  }

  /** For every script: marks in time order inside [0, script end], and boxed marks never closer
      than the planner's waypoint gap. */
  lemma {:induction false} ScriptIsTimed(scene: Scene, measure: string -> real, ops: seq<Op>, k: nat)
    requires k <= |ops|
    ensures OnTime(Run(scene, measure, ops, k))
  {
    if k > 0 {
      ScriptIsTimed(scene, measure, ops, k - 1);
      var s := Run(scene, measure, ops, k - 1);
      if !s.fatal { StepOnTime(scene, measure, s, ops[k - 1]); }
    }
  }

  // ---- no interaction of any script is lost ----

  lemma {:induction false} TargetsSpaced(marks: seq<Mark>, now: real, scale: real, frameW: real, frameH: real)
    requires Timed(marks, now) && frameW > 0.0 && frameH > 0.0
    ensures Spaced(TargetsOf(marks, scale, frameW, frameH))
  {
    if marks != [] {
      var head, m := marks[..|marks| - 1], marks[|marks| - 1];
      assert Timed(head, now);
      TargetsSpaced(head, now, scale, frameW, frameH);
      if Zoomable(m) {
        hide TargetOf;
        var ts := TargetsOf(head, scale, frameW, frameH);
        forall i | 0 <= i < |ts| ensures m.t >= ts[i].t + WAYPOINT_MIN_GAP {
          var k := TargetHasMark(head, scale, frameW, frameH, i);
          TargetTime(head[k], scale, frameW, frameH);
        }
        TargetTime(m, scale, frameW, frameH);
      }
    }
  }

  lemma TargetTime(m: Mark, scale: real, frameW: real, frameH: real)
    requires Zoomable(m) && frameW > 0.0 && frameH > 0.0
    ensures TargetOf(m, scale, frameW, frameH).t == m.t
  {}

  /** The last boxed mark is the latest, and it is the last target. */
  lemma {:induction false} LastBoxedIsLastTarget(marks: seq<Mark>, now: real, scale: real, frameW: real, frameH: real)
    requires Timed(marks, now) && frameW > 0.0 && frameH > 0.0
    ensures var ts, last := TargetsOf(marks, scale, frameW, frameH), LastBoxed(marks);
      if ts == [] then last.None? else last == Some(ts[|ts| - 1].t) && last.value <= now
  {
    hide TargetOf, Timed;
    if marks != [] {
      var head, m := marks[..|marks| - 1], marks[|marks| - 1];
      TimedHead(marks, now);
      LastBoxedIsLastTarget(head, now, scale, frameW, frameH);
      var ts := TargetsOf(head, scale, frameW, frameH);
      if Zoomable(m) {
        TargetTime(m, scale, frameW, frameH);
        TargetsSpaced(marks, now, scale, frameW, frameH);
        if ts != [] { SpacedEnd(TargetsOf(marks, scale, frameW, frameH)); }
      } else {
        assert ts + [] == ts;
      }
    }
  }

  lemma TimedHead(marks: seq<Mark>, now: real)
    requires Timed(marks, now) && marks != []
    ensures Timed(marks[..|marks| - 1], now) && marks[|marks| - 1].t <= now
  {}

  lemma SpacedEnd(ts: seq<Target>)
    requires Spaced(ts) && |ts| > 1
    ensures ts[|ts| - 1].t >= ts[|ts| - 2].t
  {}

  /** The take is stretched exactly far enough for the last interaction's hold, and no further. */
  lemma TakeIsLongEnough(marks: seq<Mark>, scriptEnd: real)
    requires Timed(marks, scriptEnd)
    ensures var last := LastBoxed(marks);
      TakeLength(marks, scriptEnd)
        == if last.None? then scriptEnd + CFR_PAD else Max(scriptEnd + CFR_PAD, last.value + HOLD_AFTER + TAIL_MARGIN)
  {
    LastBoxedIsLastTarget(marks, scriptEnd, 1.0, 1.0, 1.0);
  }

  /** For every script, planning the take it makes warns of nothing: one event per cluster of
      boxed marks, each one exactly its cluster before thinning, none dropped at the end. */
  lemma NoInteractionIsLost(scene: Scene, measure: string -> real, ops: seq<Op>, scale: real, frameW: real, frameH: real)
    requires frameW > 0.0 && frameH > 0.0
    ensures
      var sim := Run(scene, measure, ops, |ops|);
      var duration := TakeLength(sim.marks, sim.t);
      var ts := TargetsOf(sim.marks, scale, frameW, frameH);
      var plan, raw, b := Planned(sim.marks, scale, frameW, frameH, duration), PlanFrom(ts, 0, duration).events, Boundaries(ts, 0);
      && plan.warnings == []
      && plan.events == ThinPaths(raw)
      && |raw| == |b| - 1
      && forall k :: 0 <= k < |raw| ==> Faithful(raw[k], ts, b[k], b[k + 1])
  {
    hide Run, Timed, TakeLength, TargetsOf, Spaced, Sane, Faithful;
    var sim := Run(scene, measure, ops, |ops|);
    ScriptIsTimed(scene, measure, ops, |ops|);
    TargetsSpaced(sim.marks, sim.t, scale, frameW, frameH);
    TargetsSane(sim.marks, scale, frameW, frameH);
    LastBoxedIsLastTarget(sim.marks, sim.t, scale, frameW, frameH);
    TakeIsLongEnough(sim.marks, sim.t);
    NothingLost(TargetsOf(sim.marks, scale, frameW, frameH), 0, TakeLength(sim.marks, sim.t), frameW, frameH);
  }

  /** Every boxed mark of a script is in exactly one event of its plan. */
  lemma OneEventPerInteraction(scene: Scene, measure: string -> real, ops: seq<Op>, scale: real, frameW: real, frameH: real, x: nat) returns (k: nat)
    requires frameW > 0.0 && frameH > 0.0
    requires x < |TargetsOf(Run(scene, measure, ops, |ops|).marks, scale, frameW, frameH)|
    ensures
      var sim := Run(scene, measure, ops, |ops|);
      var b := Boundaries(TargetsOf(sim.marks, scale, frameW, frameH), 0);
      && k < |Planned(sim.marks, scale, frameW, frameH, TakeLength(sim.marks, sim.t)).events|
      && InCluster(b, k, x) && forall l: nat :: InCluster(b, l, x) ==> l == k
  {
    hide Run, TargetsOf, TakeLength, Faithful;
    NoInteractionIsLost(scene, measure, ops, scale, frameW, frameH);
    k := ExactlyOneCluster(Boundaries(TargetsOf(Run(scene, measure, ops, |ops|).marks, scale, frameW, frameH), 0), x);
  }

  // ---- the replay ends where the script ended ----

  ghost predicate HasPointer(beats: seq<Beat>) { exists k :: 0 <= k < |beats| && beats[k].MovePointer? }

  /** The page a finished replay must show. */
  function PageOf(scene: Scene, s: Sim, moved: bool): Page {
    Page(s.scrollY, s.typed, s.focus, if moved then s.pointer else Blank(scene).pointer)
  }

  /** From the script's current time on, replaying what has been recorded shows the current page;
      focus is only ever an editable node. */
  ghost predicate Replays(scene: Scene, s: Sim, ease: real -> real) {
    && (forall t :: t >= s.t ==> Replay(scene, s.beats, t, ease) == PageOf(scene, s, HasPointer(s.beats)))
    && (s.focus.Some? ==> s.focus.value in scene.nodes && scene.nodes[s.focus.value].editable)
  }

  lemma AddBeat(scene: Scene, beats: seq<Beat>, b: Beat, t: real, ease: real -> real)
    ensures Replay(scene, beats + [b], t, ease) == ReplayOne(b, t, ease, Replay(scene, beats, t, ease))
    ensures HasPointer(beats + [b]) <==> HasPointer(beats) || b.MovePointer?
  {
    assert (beats + [b])[..|beats|] == beats;
    assert b == (beats + [b])[|beats|];
    if HasPointer(beats) {
      var k :| 0 <= k < |beats| && beats[k].MovePointer?;
      assert (beats + [b])[k].MovePointer?;
    }
  }

  /** A beat that is over by the new time replays as the change the script made. */
  lemma BeatReplays(scene: Scene, s: Sim, b: Beat, r: Sim, ease: real -> real)
    requires Replays(scene, s, ease) && r.beats == s.beats + [b] && r.t >= s.t
    requires forall t :: t >= r.t ==>
      ReplayOne(b, t, ease, PageOf(scene, s, HasPointer(s.beats))) == PageOf(scene, r, HasPointer(s.beats) || b.MovePointer?)
    requires r.focus.Some? ==> r.focus.value in scene.nodes && scene.nodes[r.focus.value].editable
    ensures Replays(scene, r, ease)
  {
    hide Replay, ReplayOne, HasPointer;
    forall t | t >= r.t ensures Replay(scene, r.beats, t, ease) == PageOf(scene, r, HasPointer(r.beats)) {
      AddBeat(scene, s.beats, b, t, ease);
    }
  }

  /** Time, marks and failure are invisible to the replay. */
  lemma OnlyTheClock(scene: Scene, s: Sim, r: Sim, ease: real -> real)
    requires Replays(scene, s, ease) && r.t >= s.t
    requires r == s.(t := r.t, marks := r.marks, fatal := r.fatal)
    ensures Replays(scene, r, ease)
  {
    hide Replay, HasPointer;
  }

  lemma ApproachReplays(scene: Scene, s: Sim, n: Node, ease: real -> real)
    requires Replays(scene, s, ease)
    ensures Replays(scene, Approach(scene, s, n), ease)
  {
    hide Replay, HasPointer, Centred, MiddleOf, OnScreen;
    var y := Centred(scene, n);
    var p := MiddleOf(OnScreen(n, y), n.shape);
    var t := s.t + RESOLVE_SETTLE;
    var mid := s.(scrollY := y, t := t, beats := s.beats + [SnapScroll(s.t, y)]);
    BeatReplays(scene, s, SnapScroll(s.t, y), mid, ease);
    var r := mid.(t := t + CURSOR_GLIDE, pointer := p, beats := mid.beats + [MovePointer(t, t + CURSOR_GLIDE, s.pointer, p)]);
    BeatReplays(scene, mid, MovePointer(t, t + CURSOR_GLIDE, s.pointer, p), r, ease);
    assert r == Approach(scene, s, n) by {
      assert s.beats + [SnapScroll(s.t, y), MovePointer(t, t + CURSOR_GLIDE, s.pointer, p)]
        == s.beats + [SnapScroll(s.t, y)] + [MovePointer(t, t + CURSOR_GLIDE, s.pointer, p)];
    }
  }

  lemma FocusReplays(scene: Scene, s: Sim, focus: Option<string>, r: Sim, ease: real -> real)
    requires Replays(scene, s, ease) && r.t >= s.t
    requires r == s.(focus := focus, beats := s.beats + [Focus(s.t, focus)], t := r.t, marks := r.marks)
    requires focus.Some? ==> focus.value in scene.nodes && scene.nodes[focus.value].editable
    ensures Replays(scene, r, ease)
  {
    hide Replay, HasPointer;
    BeatReplays(scene, s, Focus(s.t, focus), r, ease);
  }

  lemma ClickReplays(scene: Scene, s: Sim, spot: Spot, ease: real -> real)
    requires Replays(scene, s, ease)
    ensures Replays(scene, DoClick(scene, s, spot), ease)
  {
    hide Replay, HasPointer, Replays, Approach, OnScreen;
    match spot {
      case BySelector(sel) =>
        if sel in scene.nodes {
          var n := scene.nodes[sel];
          var near := Approach(scene, s, n);
          ApproachReplays(scene, s, n, ease);
          FocusReplays(scene, near, if n.editable then Some(sel) else None, DoClick(scene, s, spot), ease);
        } else {
          OnlyTheClock(scene, s, Fail(s), ease);
        }
      case ByPoint(x, y) =>
        var p := Pointer(x, y, "arrow");
        var b := MovePointer(s.t, s.t + CURSOR_GLIDE, s.pointer, p);
        var near := s.(t := s.t + CURSOR_GLIDE, pointer := p, beats := s.beats + [b]);
        PointReplays(scene, s, b, near, ease);
        FocusReplays(scene, near, None, DoClick(scene, s, spot), ease);
      case Nowhere => OnlyTheClock(scene, s, Fail(s), ease);
    }
  }

  lemma PointReplays(scene: Scene, s: Sim, b: Beat, r: Sim, ease: real -> real)
    requires Replays(scene, s, ease) && b.MovePointer? && b.t1 == r.t && r.t >= s.t
    requires r == s.(t := r.t, pointer := b.p1, beats := s.beats + [b])
    ensures Replays(scene, r, ease)
  {
    hide Replay, HasPointer;
    BeatReplays(scene, s, b, r, ease);
  }

  lemma KeysReplay(scene: Scene, measure: string -> real, s: Sim, name: string, box: Option<Box>, text: string, per: real, ease: real -> real)
    requires Replays(scene, s, ease) && per >= 0.0
    ensures Replays(scene, DoKeys(scene, measure, s, name, box, text, per), ease)
  {
    hide Replay, HasPointer, CaretMarks, CaretCount;
    SpanPositive(|text|, per);
    var r := DoKeys(scene, measure, s, name, box, text, per);
    BeatReplays(scene, s, r.beats[|s.beats|], r, ease);
  }

  lemma TypeReplays(scene: Scene, measure: string -> real, s: Sim, text: string, sel: Option<string>, per: real, ease: real -> real)
    requires Replays(scene, s, ease) && per >= 0.0
    ensures Replays(scene, DoType(scene, measure, s, text, sel, per), ease)
  {
    hide DoKeys, Replays, Approach, OnScreen;
    match sel {
      case Some(sel) =>
        if sel in scene.nodes {
          var n := scene.nodes[sel];
          var near := Approach(scene, s, n);
          ApproachReplays(scene, s, n, ease);
          var focus := if n.editable then Some(sel) else None;
          var ready := near.(focus := focus, t := near.t + TYPE_CLICK_SETTLE, beats := near.beats + [Focus(near.t, focus)]);
          FocusReplays(scene, near, focus, ready, ease);
          KeysReplay(scene, measure, ready, sel, Some(OnScreen(n, near.scrollY)), text, per, ease);
        } else {
          OnlyTheClock(scene, s, Fail(s), ease);
        }
      case None =>
        if s.focus.Some? { KeysReplay(scene, measure, s, "", None, text, per, ease); } else { OnlyTheClock(scene, s, Fail(s), ease); }
    }
  }

  lemma NavigateReplays(scene: Scene, s: Sim, url: string, ease: real -> real)
    requires Replays(scene, s, ease)
    ensures Replays(scene, DoNavigate(s, url), ease)
  {
    hide Replay, HasPointer;
    BeatReplays(scene, s, ResetPage(s.t + NAVIGATE_LOAD), DoNavigate(s, url), ease);
  }

  lemma ScrollReplays(scene: Scene, s: Sim, y: real, smooth: bool, ease: real -> real)
    requires Replays(scene, s, ease)
    ensures Replays(scene, DoScroll(scene, s, y, smooth), ease)
  {
    hide Replay, HasPointer, MaxScroll, Smoothstep;
    var r := DoScroll(scene, s, y, smooth);
    BeatReplays(scene, s, r.beats[|s.beats|], r, ease);
  }

  lemma StepReplays(scene: Scene, measure: string -> real, s: Sim, op: Op, ease: real -> real)
    requires Replays(scene, s, ease)
    ensures Replays(scene, Step(scene, measure, s, op), ease)
  {
    hide Replays, DoClick, DoType, DoNavigate, DoScroll;
    var r := Step(scene, measure, s, op);
    match op {
      case GoTo(url, timeout) =>
        if url.None? || url.value == "" || Duration(timeout, 25000.0).None? { OnlyTheClock(scene, s, r, ease); } else { NavigateReplays(scene, s, url.value, ease); }
      case ClickOn(spot) => ClickReplays(scene, s, spot, ease);
      case TypeInto(text, sel, per) =>
        var ms := Duration(per, TYPEWRITER_MS);
        if text.None? || ms.None? { OnlyTheClock(scene, s, r, ease); } else { TypeReplays(scene, measure, s, text.value, sel, ms.value, ease); }
      case ScrollTo(y, smooth) =>
        if y.None? || y.value < 0.0 { OnlyTheClock(scene, s, r, ease); } else { ScrollReplays(scene, s, y.value, smooth, ease); }
      case _ => OnlyTheClock(scene, s, r, ease);
    }
  }

  lemma {:induction false} RunReplays(scene: Scene, measure: string -> real, ops: seq<Op>, k: nat, ease: real -> real)
    requires k <= |ops|
    ensures Replays(scene, Run(scene, measure, ops, k), ease)
  {
    if k == 0 {
      assert Replays(scene, Begin(scene, ops), ease);
    } else {
      hide Replays, Step;
      RunReplays(scene, measure, ops, k - 1, ease);
      var s := Run(scene, measure, ops, k - 1);
      if !s.fatal { StepReplays(scene, measure, s, ops[k - 1], ease); }
    }
  }

  /** Once every beat has passed, the replay shows the scroll, text and focus the script ended
      with, and its pointer if it ever moved one. */
  lemma ReplayEndsWhereTheScriptDid(scene: Scene, measure: string -> real, ops: seq<Op>, t: real, ease: real -> real)
    requires t >= Run(scene, measure, ops, |ops|).t
    ensures var sim := Run(scene, measure, ops, |ops|);
      Replay(scene, sim.beats, t, ease) == PageOf(scene, sim, HasPointer(sim.beats))
  {
    hide Run, Replay;
    RunReplays(scene, measure, ops, |ops|, ease);
  }

  // ---- and before the script has ended ----

  function BeginsAt(b: Beat): real {
    match b
    case ResetPage(at) => at
    case SnapScroll(at, _) => at
    case GlideScroll(t0, _, _, _, _) => t0
    case MovePointer(t0, _, _, _) => t0
    case Focus(at, _) => at
    case TypeText(t0, _, _, _, _) => t0
  }

  function EndsAt(b: Beat): real {
    match b
    case ResetPage(at) => at
    case SnapScroll(at, _) => at
    case GlideScroll(_, t1, _, _, _) => t1
    case MovePointer(_, t1, _, _) => t1
    case Focus(at, _) => at
    case TypeText(_, t1, _, _, _) => t1
  }

  /** A beat has begun once it shows: from its moment on, or past the start of its span. */
  predicate NotYet(b: Beat, t: real) { t <= BeginsAt(b) && t < EndsAt(b) }

  /** What each field held just before the last of these type beats. */
  function TextBefore(beats: seq<Beat>): map<string, string> {
    if beats == [] then map[] else
      var rest, b := TextBefore(beats[..|beats| - 1]), beats[|beats| - 1];
      if b.TypeText? && b.field.Some? then rest[b.field.value := b.before] else rest
  }

  /** Beats that have not begun change nothing but the text: each field they will type into already
      shows what it held before the last of them. The replay is honest exactly when that is what
      the field shows anyway. */
  lemma {:induction false} ReplayLooksAhead(scene: Scene, done: seq<Beat>, future: seq<Beat>, t: real, ease: real -> real)
    requires forall b :: b in future ==> NotYet(b, t)
    ensures var now := Replay(scene, done, t, ease);
      && Replay(scene, done + future, t, ease) == now.(typed := now.typed + TextBefore(future))
      && (Replay(scene, done + future, t, ease) == now <==>
            forall f :: f in TextBefore(future) ==> f in now.typed && now.typed[f] == TextBefore(future)[f])
  {
    var now := Replay(scene, done, t, ease);
    if future == [] {
      assert done + future == done && now.typed + TextBefore(future) == now.typed;
    } else {
      var head, b := future[..|future| - 1], future[|future| - 1];
      ReplayLooksAhead(scene, done, head, t, ease);
      assert done + future == done + head + [b];
      AddBeat(scene, done + head, b, t, ease);
      assert NotYet(b, t);
      assert now.typed + TextBefore(future)
        == if b.TypeText? && b.field.Some? then (now.typed + TextBefore(head))[b.field.value := b.before] else now.typed + TextBefore(head);
    }
    AddedOnTop(now.typed, TextBefore(future));
  }

  lemma AddedOnTop(m: map<string, string>, n: map<string, string>)
    ensures m + n == m <==> forall f :: f in n ==> f in m && m[f] == n[f]
  {
    if m + n == m {
      forall f | f in n ensures f in m && m[f] == n[f] {
        assert f in m + n && (m + n)[f] == n[f];
      }
    }
  }

  function OneField(): Scene {
    Scene(map["#email" := Node(Box(0.0, 0.0, 100.0, 20.0), true, "text")], 1000.0, 800.0, 800.0)
  }

  /** A script that types twice into one field. */
  function TypesTwice(): seq<Op> {
    [TypeInto(Some("a"), Some("#email"), Ms(1000.0)), TypeInto(Some("b"), None, Ms(1000.0))]
  }

  /** The lemma above is not empty: this script shows its first text at time 0, before any of its
      beats has begun. */
  lemma ReplayCanRunAhead(measure: string -> real, ease: real -> real)
    ensures var sim := Run(OneField(), measure, TypesTwice(), 2);
      && !sim.fatal
      && (forall b :: b in sim.beats ==> NotYet(b, 0.0))
      && "#email" in Replay(OneField(), sim.beats, 0.0, ease).typed
      && Replay(OneField(), sim.beats, 0.0, ease).typed["#email"] == "a"
  {
    hide Step, Replay, NotYet, Begin, Run, TextBefore;
    var ops := TypesTwice();
    var s0 := Begin(OneField(), ops);
    FirstState(ops);
    FirstKeys(measure, s0, ops[0]);
    var s1 := Step(OneField(), measure, s0, ops[0]);
    SecondKeys(measure, s1, ops[1]);
    var s2 := Step(OneField(), measure, s1, ops[1]);
    TwoSteps(OneField(), measure, ops);
    assert [] + s2.beats == s2.beats;
    ReplayLooksAhead(OneField(), [], s2.beats, 0.0, ease);
    LastTextBefore(s1.beats, s2.beats[|s1.beats|]);
  }

  lemma FirstState(ops: seq<Op>)
    requires ops == TypesTwice()
    ensures var s := Begin(OneField(), ops); s.t == START_RECORDING && s.beats == [] && s.typed == map[] && !s.fatal
  {
    assert StartRecording !in ops;
  }

  lemma TwoSteps(scene: Scene, measure: string -> real, ops: seq<Op>)
    requires |ops| == 2
    requires var s1 := Step(scene, measure, Begin(scene, ops), ops[0]); !s1.fatal
    ensures Run(scene, measure, ops, 2) == Step(scene, measure, Step(scene, measure, Begin(scene, ops), ops[0]), ops[1])
  {
    hide Step, Begin;
    assert Run(scene, measure, ops, 0) == Begin(scene, ops);
    assert !Begin(scene, ops).fatal by { BeginsWell(scene, ops); }
    assert Run(scene, measure, ops, 1) == Step(scene, measure, Begin(scene, ops), ops[0]);
  }

  lemma BeginsWell(scene: Scene, ops: seq<Op>)
    ensures !Begin(scene, ops).fatal
  {
  }

  lemma LastTextBefore(beats: seq<Beat>, b: Beat)
    requires b.TypeText? && b.field.Some?
    ensures b.field.value in TextBefore(beats + [b]) && TextBefore(beats + [b])[b.field.value] == b.before
  {
    assert (beats + [b])[..|beats|] == beats;
  }

  lemma FirstKeys(measure: string -> real, s: Sim, op: Op)
    requires s.t == START_RECORDING && s.beats == [] && s.typed == map[] && !s.fatal
    requires op == TypeInto(Some("a"), Some("#email"), Ms(1000.0))
    ensures var r := Step(OneField(), measure, s, op);
      && r.focus == Some("#email") && r.typed == map["#email" := "a"] && !r.fatal && r.t > 0.0
      && forall b :: b in r.beats ==> NotYet(b, 0.0)
  {
    hide CaretMarks, CaretCount, Centred, OnScreen, MiddleOf;
    assert "" + "a" == "a";
    assert s.typed["#email" := "a"] == map["#email" := "a"];
  }

  lemma SecondKeys(measure: string -> real, s: Sim, op: Op)
    requires s.t > 0.0 && !s.fatal && s.focus == Some("#email") && s.typed == map["#email" := "a"]
    requires op == TypeInto(Some("b"), None, Ms(1000.0))
    ensures var r := Step(OneField(), measure, s, op);
      && r.beats == s.beats + [TypeText(s.t, s.t + 1.0, Some("#email"), "a", "b")]
      && !r.fatal && NotYet(r.beats[|s.beats|], 0.0)
  {
    hide CaretMarks, CaretCount;
  }
}
