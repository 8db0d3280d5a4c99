/** What a script's ops do to the page: where a click lands, what it brings into view and how long it takes. */
module ClickFacts {
  import opened Wrappers
  import opened Reals
  import opened Planner
  import opened Simulation
  import opened SimulationFacts
  import opened GlideFacts

  // ---- into view ----

  /** Scrolled to, a node that fits the viewport is wholly inside it, and in its middle where the page is
      long enough on both sides. */
  lemma NodeIsBroughtIntoView(scene: Scene, n: Node)
    requires 0.0 <= n.box.y && 0.0 <= n.box.h <= scene.viewportH && n.box.y + n.box.h <= scene.docHeight
    ensures var y := Centred(scene, n);
      var seen := OnScreen(n, y);
      && 0.0 <= y && y + scene.viewportH <= Max(scene.docHeight, scene.viewportH)
      && 0.0 <= seen.y && seen.y + seen.h <= scene.viewportH
      && (scene.viewportH / 2.0 <= n.box.y + n.box.h / 2.0 <= scene.docHeight - scene.viewportH / 2.0 ==>
            seen.y + seen.h / 2.0 == scene.viewportH / 2.0)
  {
  }

  /** A page scrolls as far as it was told to, and no further than it is long. */
  lemma ScrollStopsAtTheEnd(scene: Scene, measure: string -> real, s: Sim, y: real, smooth: bool)
    requires y >= 0.0
    ensures var there := Step(scene, measure, s, ScrollTo(Some(y), smooth)).scrollY;
      && there <= y && there + scene.viewportH <= Max(scene.docHeight, scene.viewportH)
      && (there == y || there + scene.viewportH == Max(scene.docHeight, scene.viewportH))
  {
  }

  // ---- where a click lands ----

  /** The box of the node as the page shows it, and the pointer in the middle of it. */
  predicate PointsAt(page: Page, n: Node, box: Box) {
    && box == Box(n.box.x, n.box.y - page.scrollY, n.box.w, n.box.h)
    && page.pointer == Pointer(box.x + box.w / 2.0, box.y + box.h / 2.0, n.shape)
  }

  lemma PressShows(scene: Scene, s: Sim, n: Node, focus: Option<string>, ease: real -> real)
    requires Replays(scene, s, ease)
    ensures var near := Approach(scene, s, n);
      var page := Replay(scene, near.beats + [Focus(near.t, focus)], near.t, ease);
      PointsAt(page, n, OnScreen(n, near.scrollY)) && page.scrollY == near.scrollY && page.focus == focus
  {
    hide Replay, Centred, HasPointer;
    ApproachReplays(scene, s, n, ease);
    var near := Approach(scene, s, n);
    AddBeat(scene, near.beats, Focus(near.t, focus), near.t, ease);
    MovedPointer(scene, s, n);
  }

  lemma MovedPointer(scene: Scene, s: Sim, n: Node)
    ensures HasPointer(Approach(scene, s, n).beats)
  {
    hide Centred, MiddleOf, OnScreen;
    assert Approach(scene, s, n).beats[|s.beats| + 1].MovePointer?;
  }

  /** When a click on a node is marked, the replay shows the pointer in the middle of the very box that is
      marked, and that box where the page then has the node; a field is focused, and nothing else is. */
  lemma ClickLandsInItsMark(scene: Scene, measure: string -> real, ops: seq<Op>, k: nat, sel: string, ease: real -> real)
    requires k < |ops| && ops[k] == ClickOn(BySelector(sel)) && sel in scene.nodes && !Run(scene, measure, ops, k).fatal
    ensures var r, whole := Run(scene, measure, ops, k + 1), Run(scene, measure, ops, |ops|).beats;
      && !r.fatal && r.marks != []
      && var m := r.marks[|r.marks| - 1];
         var page := Replay(scene, whole, m.t, ease);
      && m.kind == Click && m.name == sel && m.bbox.Some? && PointsAt(page, scene.nodes[sel], m.bbox.value)
      && page.focus == if scene.nodes[sel].editable then Some(sel) else None
  {
    hide Run, Replay, Replays, Approach, OnScreen, PointsAt;
    var s, n := Run(scene, measure, ops, k), scene.nodes[sel];
    var focus := if n.editable then Some(sel) else None;
    ClickStep(scene, measure, ops, k, sel);
    RunReplays(scene, measure, ops, k, ease);
    PressShows(scene, s, n, focus, ease);
    var m := Run(scene, measure, ops, k + 1).marks[|Run(scene, measure, ops, k + 1).marks| - 1];
    LaterBeatsLeave(scene, measure, ops, k + 1, m.t, ease);
    SamePoints(Replay(scene, Run(scene, measure, ops, |ops|).beats, m.t, ease),
      Replay(scene, Run(scene, measure, ops, k + 1).beats, m.t, ease), n, m.bbox.value);
  }

  lemma SamePoints(a: Page, b: Page, n: Node, box: Box)
    requires a.scrollY == b.scrollY && a.pointer == b.pointer
    ensures PointsAt(a, n, box) <==> PointsAt(b, n, box)
  {
  }

  lemma ClickStep(scene: Scene, measure: string -> real, ops: seq<Op>, k: nat, sel: string)
    requires k < |ops| && ops[k] == ClickOn(BySelector(sel)) && sel in scene.nodes && !Run(scene, measure, ops, k).fatal
    ensures var s, r, n := Run(scene, measure, ops, k), Run(scene, measure, ops, k + 1), scene.nodes[sel];
      var near := Approach(scene, s, n);
      var focus := if n.editable then Some(sel) else None;
      && !r.fatal && r.t > near.t
      && r.beats == near.beats + [Focus(near.t, focus)]
      && r.marks == near.marks + [Mark(near.t, Click, sel, Some(OnScreen(n, near.scrollY)))]
  {
    hide Centred, MiddleOf, OnScreen;
  }

  // ---- how long ops take ----

  /** The seconds of an op that does not fail: a click glides and settles, a type clicks first and then takes
      its time over each character, a navigation loads and settles. */
  function Seconds(op: Op): real
    requires op.TypeInto? ==> op.text.Some?
  {
    match op
    case StartRecording => 0.2
    case GoTo(_, _) => 0.95
    case ClickOn(spot) => if spot.BySelector? then 0.87 else 0.75
    case TypeInto(text, sel, per) =>
      (if sel.Some? then 0.77 else 0.0) + |text.value| as real * (if per.Ms? then per.value else 18.0) / 1000.0
    case ScrollTo(_, smooth) => if smooth then 0.8 else 0.12
    case WaitMs(ms) => if ms.Ms? then ms.value / 1000.0 else 0.0
    case WaitFor(_, _) => 0.4
    case _ => 0.0
  }

  lemma KeysTake(scene: Scene, measure: string -> real, s: Sim, name: string, box: Option<Box>, text: string, per: real)
    ensures var r := DoKeys(scene, measure, s, name, box, text, per);
      r.t == s.t + |text| as real * per / 1000.0 && r.fatal == s.fatal
  {
    hide CaretMarks, CaretCount;
  }

  lemma TypeTakes(scene: Scene, measure: string -> real, s: Sim, text: string, sel: Option<string>, per: real)
    requires !s.fatal && !DoType(scene, measure, s, text, sel, per).fatal
    ensures DoType(scene, measure, s, text, sel, per).t == s.t + (if sel.Some? then 0.77 else 0.0) + |text| as real * per / 1000.0
  {
    hide DoKeys, OnScreen, Centred, MiddleOf;
    if sel.Some? && sel.value in scene.nodes {
      var n := scene.nodes[sel.value];
      var near := Approach(scene, s, n);
      var focus := if n.editable then sel else None;
      var ready := near.(focus := focus, t := near.t + TYPE_CLICK_SETTLE, beats := near.beats + [Focus(near.t, focus)]);
      KeysTake(scene, measure, ready, sel.value, Some(OnScreen(n, near.scrollY)), text, per);
    } else if sel.None? && s.focus.Some? {
      KeysTake(scene, measure, s, "", None, text, per);
    }
  }

  lemma OpTakesItsTime(scene: Scene, measure: string -> real, s: Sim, op: Op)
    requires !s.fatal && !Step(scene, measure, s, op).fatal
    ensures op.TypeInto? ==> op.text.Some?
    ensures Step(scene, measure, s, op).t == s.t + Seconds(op)
  {
    hide DoType, Centred, MiddleOf, OnScreen, MaxScroll;
    if op.TypeInto? && op.text.Some? && Duration(op.perChar, TYPEWRITER_MS).Some? {
      TypeTakes(scene, measure, s, op.text.value, op.sel, Duration(op.perChar, TYPEWRITER_MS).value);
    }
  }

  function AllSeconds(ops: seq<Op>): real
    requires forall op :: op in ops && op.TypeInto? ==> op.text.Some?
  {
    if ops == [] then 0.0 else AllSeconds(ops[..|ops| - 1]) + Seconds(ops[|ops| - 1])
  }

  /** A script that does not fail takes just the time of its ops, from the start of the recording, for which it
      allows a fifth of a second where the script does not say when. */
  lemma {:induction false} ScriptTakesItsTime(scene: Scene, measure: string -> real, ops: seq<Op>, k: nat)
    requires k <= |ops| && !Run(scene, measure, ops, k).fatal
    ensures forall op :: op in ops[..k] && op.TypeInto? ==> op.text.Some?
    ensures Run(scene, measure, ops, k).t == (if StartRecording in ops then 0.0 else 0.2) + AllSeconds(ops[..k])
  {
    hide Step;
    if k > 0 {
      OneStep(scene, measure, ops, k - 1);
      ScriptTakesItsTime(scene, measure, ops, k - 1);
      OpTakesItsTime(scene, measure, Run(scene, measure, ops, k - 1), ops[k - 1]);
      assert ops[..k][..k - 1] == ops[..k - 1];
      forall op | op in ops[..k] && op.TypeInto? ensures op.text.Some? { assert op in ops[..k - 1] || op == ops[k - 1]; }
    }
  }

  // ---- what fails ----

  predicate BadDuration(ms: Millis) { ms.NotANumber? || (ms.Ms? && ms.value < 0.0) }

  /** What an op cannot do: anything it is not given, a node that is not there, text with nothing to land in,
      a negative or unreadable number, and a wait for both or neither of two things. */
  predicate CannotBeDone(scene: Scene, focus: Option<string>, op: Op) {
    match op
    case Unusable => true
    case GoTo(url, timeout) => url.None? || url.value == "" || BadDuration(timeout)
    case ClickOn(spot) => spot.Nowhere? || (spot.BySelector? && spot.sel !in scene.nodes)
    case TypeInto(text, sel, per) =>
      text.None? || BadDuration(per) || (sel.Some? && sel.value !in scene.nodes) || (sel.None? && focus.None?)
    case ScrollTo(y, _) => y.None? || y.value < 0.0
    case WaitMs(ms) => BadDuration(ms)
    case WaitFor(sel, timeout) => sel.None? || sel.value !in scene.nodes || BadDuration(timeout)
    case WaitBoth => true
    case WaitNeither => true
    case _ => false
  }

  /** An op fails exactly if it cannot be done, and then the page and the clock stay as they were. */
  lemma OpFailsExactlyWhen(scene: Scene, measure: string -> real, s: Sim, op: Op)
    requires !s.fatal
    ensures var r := Step(scene, measure, s, op);
      (r.fatal <==> CannotBeDone(scene, s.focus, op)) && (r.fatal ==> r == s.(fatal := true))
  {
    hide DoKeys, Centred, MiddleOf, OnScreen, MaxScroll;
    if op.TypeInto? && op.text.Some? && Duration(op.perChar, TYPEWRITER_MS).Some? {
      TypeFails(scene, measure, s, op.text.value, op.sel, Duration(op.perChar, TYPEWRITER_MS).value);
    }
  }

  lemma TypeFails(scene: Scene, measure: string -> real, s: Sim, text: string, sel: Option<string>, per: real)
    requires !s.fatal
    ensures var r := DoType(scene, measure, s, text, sel, per);
      && (r.fatal <==> (sel.Some? && sel.value !in scene.nodes) || (sel.None? && s.focus.None?))
      && (r.fatal ==> r == s.(fatal := true))
  {
    hide DoKeys, OnScreen, Centred, MiddleOf;
    if sel.Some? && sel.value in scene.nodes {
      var n := scene.nodes[sel.value];
      var near := Approach(scene, s, n);
      var focus := if n.editable then sel else None;
      var ready := near.(focus := focus, t := near.t + TYPE_CLICK_SETTLE, beats := near.beats + [Focus(near.t, focus)]);
      KeysTake(scene, measure, ready, sel.value, Some(OnScreen(n, near.scrollY)), text, per);
    } else if sel.None? && s.focus.Some? {
      KeysTake(scene, measure, s, "", None, text, per);
    }
  }

  // ---- the caret ----

  lemma {:induction false} CaretMarkAt(tStart: real, span: real, field: string, x0: real, x1: real, y: real, h: real, n: int, k: int, i: int)
    requires 0 <= i < k <= n
    ensures |CaretMarks(tStart, span, field, x0, x1, y, h, n, k)| == k
    ensures CaretMarks(tStart, span, field, x0, x1, y, h, n, k)[i] == CaretMark(tStart, span, field, x0, x1, y, h, n, i + 1)
  {
    if k > 1 {
      CaretMarkAt(tStart, span, field, x0, x1, y, h, n, k - 1, if i < k - 1 then i else 0);
    }
  }

  lemma CaretCountIsRounded(span: real)
    ensures var n := CaretCount(span);
      && 2 <= n <= 40
      && (n > 2 ==> n as real * 0.12 - 0.06 <= span)
      && (n < 40 ==> span < n as real * 0.12 + 0.06)
  {
    var q := span / CARET_SAMPLE;
    assert q * CARET_SAMPLE == span;
    var r := (q + 0.5).Floor;
    assert r as real <= q + 0.5 < r as real + 1.0;
  }

  /** Where a field's caret stands when it holds this much text. */
  function CaretX(scene: Scene, measure: string -> real, f: string, text: string): real
    requires f in scene.nodes
  {
    scene.nodes[f].box.x + 16.0 + measure(text)
  }

  predicate CaretAt(m: Mark, start: real, span: real, x0: real, x1: real, k: int, n: int)
    requires n > 0
  {
    && m.kind == Type && m.bbox.Some? && m.bbox.value.w == 2.0
    && m.t == start + span * (k as real / n as real) && m.bbox.value.x == x0 + (x1 - x0) * (k as real / n as real)
  }

  /** One mark about every 0.12s, two to forty of them, at even steps of the time on the way from x0 to x1. */
  predicate CaretsFollow(carets: seq<Mark>, start: real, span: real, x0: real, x1: real) {
    && 2 <= |carets| <= 40
    && (|carets| > 2 ==> |carets| as real * 0.12 - 0.06 <= span) && (|carets| < 40 ==> span < |carets| as real * 0.12 + 0.06)
    && forall i :: 0 <= i < |carets| ==> CaretAt(carets[i], start, span, x0, x1, i + 1, |carets|)
  }

  lemma CaretMarksFollow(start: real, span: real, field: string, x0: real, x1: real, y: real, h: real)
    ensures var n := CaretCount(span); CaretsFollow(CaretMarks(start, span, field, x0, x1, y, h, n, n), start, span, x0, x1)
  {
    hide CaretCount, CaretMarks;
    var n := CaretCount(span);
    CaretCountIsRounded(span);
    var carets := CaretMarks(start, span, field, x0, x1, y, h, n, n);
    CaretMarkAt(start, span, field, x0, x1, y, h, n, n, 0);
    forall i | 0 <= i < |carets| ensures CaretAt(carets[i], start, span, x0, x1, i + 1, |carets|) {
      CaretMarkAt(start, span, field, x0, x1, y, h, n, n, i);
    }
  }

  function Held(s: Sim, f: string): string { if f in s.typed then s.typed[f] else "" }

  lemma KeysMark(scene: Scene, measure: string -> real, s: Sim, name: string, box: Option<Box>, text: string, per: real, f: string)
    requires s.focus == Some(f) && f in scene.nodes && scene.nodes[f].editable
    ensures var x0, x1 := CaretX(scene, measure, f, Held(s, f)), CaretX(scene, measure, f, Held(s, f) + text);
      var span := |text| as real * per / 1000.0;
      var y, h := if box.Some? then box.value.y else 0.0, if box.Some? then box.value.h else 24.0;
      var n := CaretCount(span);
      DoKeys(scene, measure, s, name, box, text, per).marks == s.marks + [Mark(s.t, Type, name, box)]
        + if span > 0.2 && Abs(x1 - x0) > 1.0 then CaretMarks(s.t, span, f, x0, x1, y, h, n, n) else []
  {
    hide CaretCount, CaretMarks;
  }

  /** Text typed for more than a fifth of a second, over more than a pixel, is followed by its caret, from where
      that stood to where it comes to stand; anything shorter leaves the op's own mark alone. */
  lemma CaretsFollowTheTyping(scene: Scene, measure: string -> real, s: Sim, name: string, box: Option<Box>, text: string, per: real, f: string)
    requires s.focus == Some(f) && f in scene.nodes && scene.nodes[f].editable
    ensures var x0, x1 := CaretX(scene, measure, f, Held(s, f)), CaretX(scene, measure, f, Held(s, f) + text);
      var span := |text| as real * per / 1000.0;
      var r := DoKeys(scene, measure, s, name, box, text, per);
      && |r.marks| > |s.marks| && r.marks[..|s.marks| + 1] == s.marks + [Mark(s.t, Type, name, box)]
      && var carets := r.marks[|s.marks| + 1..];
         if span > 0.2 && (x1 - x0 > 1.0 || x0 - x1 > 1.0) then CaretsFollow(carets, s.t, span, x0, x1) else carets == []
  {
    hide CaretCount, CaretMarks, DoKeys, CaretsFollow;
    KeysMark(scene, measure, s, name, box, text, per, f);
    CaretMarksFollow(s.t, |text| as real * per / 1000.0, f, CaretX(scene, measure, f, Held(s, f)),
      CaretX(scene, measure, f, Held(s, f) + text), if box.Some? then box.value.y else 0.0, if box.Some? then box.value.h else 24.0);
  }
}
