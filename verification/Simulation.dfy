/** A script's clock: the marks it leaves for the planner and the beats the page replays. */
module Simulation {
  import opened Wrappers
  import opened Reals
  import opened Planner

  const START_RECORDING := 0.2
  const NAVIGATE_LOAD := 0.6
  const NAVIGATE_SETTLE := 0.35
  const RESOLVE_SETTLE := 0.12
  const CURSOR_GLIDE := 0.5
  const CLICK_SETTLE := 0.25
  const TYPE_CLICK_SETTLE := 0.15
  const SCROLL_SMOOTH := 0.8
  const SCROLL_INSTANT := 0.12
  const TYPEWRITER_MS := 18.0
  const CARET_SAMPLE := 0.12
  const WAIT_SELECTOR := 0.4

  /** An optional number of milliseconds as it arrives in the script. */
  datatype Millis = Absent | Ms(value: real) | NotANumber

  datatype Spot = BySelector(sel: string) | ByPoint(x: real, y: real) | Nowhere

  /** One op. A None where the source demands a string or a number is what it refuses. */
  datatype Op =
    | Unusable
    | StartRecording
    | StopRecording
    | GoTo(url: Option<string>, timeout: Millis)
    | ClickOn(spot: Spot)
    | TypeInto(text: Option<string>, sel: Option<string>, perChar: Millis)
    | ScrollTo(y: Option<real>, smooth: bool)
    | WaitMs(ms: Millis)
    | WaitFor(sel: Option<string>, timeout: Millis)
    | WaitBoth
    | WaitNeither
    | NoteDown(note: string)

  datatype Node = Node(box: Box, editable: bool, shape: string)

  /** The laid-out page: only its boxes matter here. */
  datatype Scene = Scene(nodes: map<string, Node>, viewportW: real, viewportH: real, docHeight: real)

  datatype Pointer = Pointer(x: real, y: real, shape: string)

  datatype Beat =
    | ResetPage(t: real)
    | SnapScroll(t: real, y: real)
    | GlideScroll(t0: real, t1: real, y0: real, y1: real, smooth: bool)
    | MovePointer(t0: real, t1: real, p0: Pointer, p1: Pointer)
    | Focus(t: real, focus: Option<string>)
    | TypeText(t0: real, t1: real, field: Option<string>, before: string, text: string)

  datatype Sim = Sim(
    t: real, scrollY: real, focus: Option<string>, typed: map<string, string>, pointer: Pointer,
    marks: seq<Mark>, beats: seq<Beat>, fatal: bool)

  function MaxScroll(scene: Scene): real { Max(0.0, scene.docHeight - scene.viewportH) }

  /** None is the source's complaint about a bad duration. */
  function Duration(ms: Millis, dflt: real): Option<real> {
    match ms
    case Absent => Some(dflt)
    case Ms(v) => if v < 0.0 then None else Some(v)
    case NotANumber => None
  }

  function Begin(scene: Scene, ops: seq<Op>): Sim {
    Sim(if StartRecording in ops then 0.0 else START_RECORDING, 0.0, None, map[],
        Pointer(scene.viewportW * 0.5, scene.viewportH * 0.72, "arrow"), [], [], false)
  }

  function Fail(s: Sim): Sim { s.(fatal := true) }

  /** resolve_box centres the node in the viewport before measuring it. */
  function Centred(scene: Scene, n: Node): real {
    Max(0.0, Min(n.box.y + n.box.h / 2.0 - scene.viewportH / 2.0, MaxScroll(scene)))
  }

  function OnScreen(n: Node, scrollY: real): Box { n.box.(y := n.box.y - scrollY) }

  function MiddleOf(b: Box, shape: string): Pointer { Pointer(b.x + b.w / 2.0, b.y + b.h / 2.0, shape) }

  /** Scroll the node into view, wait, and glide the pointer onto it. */
  function Approach(scene: Scene, s: Sim, n: Node): Sim {
    var y := Centred(scene, n);
    var p := MiddleOf(OnScreen(n, y), n.shape);
    var t := s.t + RESOLVE_SETTLE;
    s.(scrollY := y, t := t + CURSOR_GLIDE, pointer := p,
       beats := s.beats + [SnapScroll(s.t, y), MovePointer(t, t + CURSOR_GLIDE, s.pointer, p)])
  }

  function DoNavigate(s: Sim, url: string): Sim {
    var t := s.t + NAVIGATE_LOAD + NAVIGATE_SETTLE;
    s.(t := t, scrollY := 0.0, focus := None, typed := map[],
       beats := s.beats + [ResetPage(s.t + NAVIGATE_LOAD)],
       marks := s.marks + [Mark(t, Navigate, url, None)])
  }

  /** What a click does once the pointer is there. */
  function Press(s: Sim, name: string, box: Box, focus: Option<string>): Sim {
    s.(t := s.t + CLICK_SETTLE, focus := focus,
       beats := s.beats + [Focus(s.t, focus)],
       marks := s.marks + [Mark(s.t, Click, name, Some(box))])
  }

  function DoClick(scene: Scene, s: Sim, spot: Spot): Sim {
    match spot
    case BySelector(sel) =>
      if sel !in scene.nodes then Fail(s) else
        var n := scene.nodes[sel];
        var near := Approach(scene, s, n);
        Press(near, sel, OnScreen(n, near.scrollY), if n.editable then Some(sel) else None)
    case ByPoint(x, y) =>
      var p := Pointer(x, y, "arrow");
      var near := s.(t := s.t + CURSOR_GLIDE, pointer := p,
                     beats := s.beats + [MovePointer(s.t, s.t + CURSOR_GLIDE, s.pointer, p)]);
      Press(near, "point", Box(x - 10.0, y - 10.0, 20.0, 20.0), None)
    case Nowhere => Fail(s)
  }

  /** How many caret samples a typed span earns: Math.round halves up, then 2 to 40. */
  function CaretCount(span: real): (n: int)
    ensures 2 <= n <= 40
  {
    var r := (span / CARET_SAMPLE + 0.5).Floor;
    var atLeast2 := if r >= 2 then r else 2;
    if atLeast2 <= 40 then atLeast2 else 40
  }

  function CaretTime(tStart: real, span: real, n: int, k: int): real
    requires n > 0
  {
    tStart + span * (k as real / n as real)
  }

  /** Caret sample k of n: a 2px sliver that far along the way from x0 to x1. */
  function CaretMark(tStart: real, span: real, field: string, x0: real, x1: real, y: real, h: real, n: int, k: int): Mark
    requires n > 0
  {
    Mark(CaretTime(tStart, span, n, k), Type, field, Some(Box(x0 + (x1 - x0) * (k as real / n as real), y, 2.0, h)))
  }

  /** The first k of n caret marks. */
  function CaretMarks(tStart: real, span: real, field: string, x0: real, x1: real, y: real, h: real, n: int, k: int): seq<Mark>
    requires 0 <= k <= n && n > 0
  {
    if k == 0 then [] else
      CaretMarks(tStart, span, field, x0, x1, y, h, n, k - 1) + [CaretMark(tStart, span, field, x0, x1, y, h, n, k)]
  }

  /** The caret loop of a type op. */
  method SampleCarets(tStart: real, span: real, field: string, x0: real, x1: real, y: real, h: real, n: int) returns (marks: seq<Mark>)
    requires n > 0
    ensures marks == CaretMarks(tStart, span, field, x0, x1, y, h, n, n)
  {
    marks := [];
    for k := 1 to n + 1
      invariant marks == CaretMarks(tStart, span, field, x0, x1, y, h, n, k - 1)
    {
      marks := marks + [CaretMark(tStart, span, field, x0, x1, y, h, n, k)];
    }
  }

  /** Text lands in whatever holds focus; a type without a selector has no box, so its carets run
      along the top of the viewport. */
  function DoKeys(scene: Scene, measure: string -> real, s: Sim, name: string, box: Option<Box>, text: string, per: real): Sim {
    var target := if s.focus.Some? && s.focus.value in scene.nodes then s.focus else None;
    var before := if target.Some? && target.value in s.typed then s.typed[target.value] else "";
    var span := |text| as real * per / 1000.0;
    var typedUp := s.(t := s.t + span,
                      beats := s.beats + [TypeText(s.t, s.t + span, target, before, text)],
                      marks := s.marks + [Mark(s.t, Type, name, box)]);
    if target.None? || !scene.nodes[target.value].editable then typedUp else
      var left := scene.nodes[target.value].box.x + 16.0;
      var x0, x1 := left + measure(before), left + measure(before + text);
      var y, h := if box.Some? then box.value.y else 0.0, if box.Some? then box.value.h else 24.0;
      var n := CaretCount(span);
      typedUp.(typed := s.typed[target.value := before + text],
               marks := typedUp.marks + if span > 0.2 && Abs(x1 - x0) > 1.0
                 then CaretMarks(s.t, span, target.value, x0, x1, y, h, n, n) else [])
  }

  function DoType(scene: Scene, measure: string -> real, s: Sim, text: string, sel: Option<string>, per: real): Sim {
    match sel
    case Some(sel) =>
      if sel !in scene.nodes then Fail(s) else
        var n := scene.nodes[sel];
        var near := Approach(scene, s, n);
        var focus := if n.editable then Some(sel) else None;
        var ready := near.(focus := focus, t := near.t + TYPE_CLICK_SETTLE, beats := near.beats + [Focus(near.t, focus)]);
        DoKeys(scene, measure, ready, sel, Some(OnScreen(n, near.scrollY)), text, per)
    case None =>
      if s.focus.None? then Fail(s) else DoKeys(scene, measure, s, "", None, text, per)
  }

  function DoScroll(scene: Scene, s: Sim, y: real, smooth: bool): Sim {
    var dest := Min(y, MaxScroll(scene));
    var t1 := s.t + if smooth then SCROLL_SMOOTH else SCROLL_INSTANT;
    s.(t := t1, scrollY := dest,
       beats := s.beats + [GlideScroll(s.t, t1, s.scrollY, dest, smooth)],
       marks := s.marks + [Mark(t1, Scroll, "", None)])
  }

  function Pause(s: Sim, seconds: real): Sim {
    s.(t := s.t + seconds, marks := s.marks + [Mark(s.t + seconds, Wait, "", None)])
  }

  function Step(scene: Scene, measure: string -> real, s: Sim, op: Op): Sim {
    match op
    case Unusable => Fail(s)
    case StartRecording => s.(t := s.t + START_RECORDING)
    case StopRecording => s
    case GoTo(url, timeout) =>
      if url.None? || url.value == "" || Duration(timeout, 25000.0).None? then Fail(s) else DoNavigate(s, url.value)
    case ClickOn(spot) => DoClick(scene, s, spot)
    case TypeInto(text, sel, per) =>
      var ms := Duration(per, TYPEWRITER_MS);
      if text.None? || ms.None? then Fail(s) else DoType(scene, measure, s, text.value, sel, ms.value)
    case ScrollTo(y, smooth) =>
      if y.None? || y.value < 0.0 then Fail(s) else DoScroll(scene, s, y.value, smooth)
    case WaitMs(ms) =>
      var d := Duration(ms, 0.0);
      if d.None? then Fail(s) else Pause(s, d.value / 1000.0)
    case WaitFor(sel, timeout) =>
      if sel.None? || sel.value !in scene.nodes || Duration(timeout, 20000.0).None? then Fail(s) else Pause(s, WAIT_SELECTOR)
    case WaitBoth => Fail(s)
    case WaitNeither => Fail(s)
    case NoteDown(note) => s.(marks := s.marks + [Mark(s.t, Note, note, None)])
  }

  /** The first k ops; a fatal op ends the script. */
  function Run(scene: Scene, measure: string -> real, ops: seq<Op>, k: nat): Sim
    requires k <= |ops|
  {
    if k == 0 then Begin(scene, ops) else
      var s := Run(scene, measure, ops, k - 1);
      if s.fatal then s else Step(scene, measure, s, ops[k - 1])
  }

  lemma {:induction false} FatalStays(scene: Scene, measure: string -> real, ops: seq<Op>, j: nat, k: nat)
    requires j <= k <= |ops| && Run(scene, measure, ops, j).fatal
    ensures Run(scene, measure, ops, k) == Run(scene, measure, ops, j)
  {
    if j < k { FatalStays(scene, measure, ops, j, k - 1); }
  }

  method Simulate(scene: Scene, measure: string -> real, ops: seq<Op>) returns (sim: Sim)
    ensures sim == Run(scene, measure, ops, |ops|)
  {
    sim := Begin(scene, ops);
    var index := 0;
    while index < |ops| && !sim.fatal
      invariant 0 <= index <= |ops|
      invariant sim == Run(scene, measure, ops, index)
    {
      sim := Step(scene, measure, sim, ops[index]);
      index := index + 1;
    }
    if sim.fatal { FatalStays(scene, measure, ops, index, |ops|); }
  }

  // ---- replaying the beats ----

  datatype Page = Page(scrollY: real, typed: map<string, string>, focus: Option<string>, pointer: Pointer)

  /** The page before any beat; the pointer starts below the fold. */
  function Blank(scene: Scene): Page {
    Page(0.0, map[], None, Pointer(scene.viewportW * 0.5, if scene.docHeight > 0.0 then 10000.0 else 0.0, "arrow"))
  }

  /** How many characters a type beat has shown at share p of its span. */
  function Shown(text: string, p: real): (n: nat)
    ensures n <= |text|
  {
    var n := (p * |text| as real).Floor;
    if n < 0 then 0 else if n > |text| then |text| else n
  }

  /** What a type beat writes at time t: all of it, part of it, or only what was there before,
      the last even when the beat is still in the future. */
  function TextAt(b: Beat, t: real): string
    requires b.TypeText?
  {
    if t >= b.t1 then b.before + b.text
    else if t > b.t0 then b.before + b.text[..Shown(b.text, (t - b.t0) / (b.t1 - b.t0))]
    else b.before
  }

  /** `ease` is the pointer's CSS transition curve. */
  function ReplayOne(b: Beat, t: real, ease: real -> real, p: Page): Page {
    match b
    case ResetPage(at) => if t >= at then p.(scrollY := 0.0, typed := map[], focus := None) else p
    case SnapScroll(at, y) => if t >= at then p.(scrollY := y) else p
    case GlideScroll(t0, t1, y0, y1, smooth) =>
      if t >= t1 then p.(scrollY := y1)
      else if t > t0 then
        var q := (t - t0) / (t1 - t0);
        p.(scrollY := y0 + (y1 - y0) * if smooth then Smoothstep(q) else q)
      else p
    case MovePointer(t0, t1, p0, p1) =>
      if t >= t1 then p.(pointer := p1)
      else if t > t0 then
        var q := ease((t - t0) / (t1 - t0));
        p.(pointer := Pointer(p0.x + (p1.x - p0.x) * q, p0.y + (p1.y - p0.y) * q, p1.shape))
      else p
    case Focus(at, focus) => if t >= at then p.(focus := focus) else p
    case TypeText(_, _, field, _, _) =>
      if field.None? then p else p.(typed := p.typed[field.value := TextAt(b, t)])
  }

  function Replay(scene: Scene, beats: seq<Beat>, t: real, ease: real -> real): Page {
    if beats == [] then Blank(scene) else
      ReplayOne(beats[|beats| - 1], t, ease, Replay(scene, beats[..|beats| - 1], t, ease))
  }

  method StateAt(scene: Scene, beats: seq<Beat>, t: real, ease: real -> real) returns (page: Page)
    ensures page == Replay(scene, beats, t, ease)
  {
    page := Blank(scene);
    for k := 0 to |beats|
      invariant page == Replay(scene, beats[..k], t, ease)
    {
      assert beats[..k + 1][..k] == beats[..k];
      page := ReplayOne(beats[k], t, ease, page);
    }
    assert beats[..|beats|] == beats;
  }
}
