/** What a script's beats hold: in order, and each field's text at the end of the op that types it. */
module BeatFacts {
  import opened Wrappers
  import opened Planner
  import opened Simulation
  import opened SimulationFacts

  /** The field an op's text lands in, from this state. */
  function LandsIn(scene: Scene, s: Sim, op: Op): Option<string> {
    if !op.TypeInto? || op.text.None? || Duration(op.perChar, TYPEWRITER_MS).None? then None
    else if op.sel.Some? then
      if op.sel.value in scene.nodes && scene.nodes[op.sel.value].editable then op.sel else None
    else if s.focus.Some? && s.focus.value in scene.nodes then s.focus else None
  }

  function TextOf(typed: map<string, string>, f: string): string { if f in typed then typed[f] else "" }

  lemma {:induction false} TextBeforeTwo(a: seq<Beat>, b: seq<Beat>)
    ensures TextBefore(a + b) == TextBefore(a) + TextBefore(b)
  {
    if b == [] {
      assert a + b == a && TextBefore(a) + map[] == TextBefore(a);
    } else {
      var head := b[..|b| - 1];
      assert (a + b)[..|a + b| - 1] == a + head;
      TextBeforeTwo(a, head);
    }
  }

  /** The beats a step added. */
  function Added(s: Sim, r: Sim): seq<Beat>
    requires |s.beats| <= |r.beats|
  {
    r.beats[|s.beats|..]
  }

  function BeforeIn(f: Option<string>, typed: map<string, string>): map<string, string> {
    if f.None? then map[] else map[f.value := TextOf(typed, f.value)]
  }

  /** What a state's beats say of the text is what they said, and this too. */
  predicate Says(s: Sim, r: Sim, text: map<string, string>) {
    s.beats <= r.beats && TextBefore(Added(s, r)) == text
  }

  predicate Writes(b: Beat) { b.TypeText? && b.field.Some? }

  /** An op that writes into a field does so with the last of its beats, and an op that does not writes
      nothing. */
  predicate Shape(s: Sim, r: Sim, f: Option<string>) {
    && s.beats <= r.beats
    && (forall i :: |s.beats| <= i < |r.beats| && (f.None? || i < |r.beats| - 1) ==> !Writes(r.beats[i]))
    && (f.Some? ==>
          && |s.beats| < |r.beats|
          && var b := r.beats[|r.beats| - 1];
             b.TypeText? && b.field == f && b.before == TextOf(s.typed, f.value) && b.t1 == r.t)
  }

  lemma {:induction false} NoTextBefore(beats: seq<Beat>)
    requires forall i :: 0 <= i < |beats| ==> !Writes(beats[i])
    ensures TextBefore(beats) == map[]
  {
    if beats != [] { NoTextBefore(beats[..|beats| - 1]); }
  }

  lemma ShapeSays(s: Sim, r: Sim, f: Option<string>)
    requires Shape(s, r, f)
    ensures Says(s, r, BeforeIn(f, s.typed))
  {
    var added := Added(s, r);
    if f.None? {
      NoTextBefore(added);
    } else {
      var head := added[..|added| - 1];
      NoTextBefore(head);
      assert map[f.value := TextOf(s.typed, f.value)] == map[][f.value := TextOf(s.typed, f.value)];
    }
  }

  lemma TypeShape(scene: Scene, measure: string -> real, s: Sim, text: string, sel: Option<string>, per: real)
    ensures var f := if sel.Some? then (if sel.value in scene.nodes && scene.nodes[sel.value].editable then sel else None)
        else if s.focus.Some? && s.focus.value in scene.nodes then s.focus else None;
      Shape(s, DoType(scene, measure, s, text, sel, per), f)
  {
    hide CaretMarks, CaretCount, OnScreen, Centred, MiddleOf;
  }

  lemma OtherShape(scene: Scene, measure: string -> real, s: Sim, op: Op)
    requires !(op.TypeInto? && op.text.Some? && Duration(op.perChar, TYPEWRITER_MS).Some?)
    ensures Shape(s, Step(scene, measure, s, op), None)
  {
    hide Duration, DoType, Centred, OnScreen, MaxScroll;
  }

  lemma StepShape(scene: Scene, measure: string -> real, s: Sim, op: Op)
    ensures Shape(s, Step(scene, measure, s, op), LandsIn(scene, s, op))
  {
    hide DoType, Shape, Duration;
    if op.TypeInto? && op.text.Some? && Duration(op.perChar, TYPEWRITER_MS).Some? {
      TypeShape(scene, measure, s, op.text.value, op.sel, Duration(op.perChar, TYPEWRITER_MS).value);
    } else {
      OtherShape(scene, measure, s, op);
    }
  }

  lemma NothingSaid(s: Sim)
    ensures Says(s, s, map[])
  {
    assert Added(s, s) == [];
  }

  // ---- over a script ----

  /** Op j runs, and its text lands in f. */
  predicate TypesAt(scene: Scene, measure: string -> real, ops: seq<Op>, j: nat, f: string)
    requires j < |ops|
  {
    var s := Run(scene, measure, ops, j); !s.fatal && LandsIn(scene, s, ops[j]) == Some(f)
  }

  /** Of the ops from k to n - 1, op j is the last whose text lands in f. */
  predicate LastTypesAt(scene: Scene, measure: string -> real, ops: seq<Op>, k: nat, n: nat, j: nat, f: string)
    requires n <= |ops|
  {
    k <= j < n && TypesAt(scene, measure, ops, j, f) && forall l :: j < l < n ==> !TypesAt(scene, measure, ops, l, f)
  }

  /** What each field they type into held before the last of the ops k to n - 1 that does. */
  function LastBefore(scene: Scene, measure: string -> real, ops: seq<Op>, k: nat, n: nat): map<string, string>
    requires k <= n <= |ops|
  {
    if n == k then map[] else
      var s := Run(scene, measure, ops, n - 1);
      LastBefore(scene, measure, ops, k, n - 1) + if s.fatal then map[] else BeforeIn(LandsIn(scene, s, ops[n - 1]), s.typed)
  }

  lemma {:induction false} LaterBeatsSay(scene: Scene, measure: string -> real, ops: seq<Op>, k: nat, n: nat)
    requires k <= n <= |ops|
    ensures Says(Run(scene, measure, ops, k), Run(scene, measure, ops, n), LastBefore(scene, measure, ops, k, n))
  {
    hide Step, Says, Shape, BeforeIn, LandsIn;
    var s := Run(scene, measure, ops, k);
    if n == k {
      NothingSaid(s);
    } else {
      LaterBeatsSay(scene, measure, ops, k, n - 1);
      var mid := Run(scene, measure, ops, n - 1);
      var text := LastBefore(scene, measure, ops, k, n - 1);
      if mid.fatal {
        assert text + map[] == text;
      } else {
        StepShape(scene, measure, mid, ops[n - 1]);
        ShapeSays(mid, Step(scene, measure, mid, ops[n - 1]), LandsIn(scene, mid, ops[n - 1]));
        SaysAfter(s, mid, Step(scene, measure, mid, ops[n - 1]), text, BeforeIn(LandsIn(scene, mid, ops[n - 1]), mid.typed));
      }
    }
  }

  lemma SaysAfter(s: Sim, mid: Sim, r: Sim, first: map<string, string>, second: map<string, string>)
    requires Says(s, mid, first) && Says(mid, r, second)
    ensures Says(s, r, first + second)
  {
    assert Added(s, r) == Added(s, mid) + Added(mid, r);
    TextBeforeTwo(Added(s, mid), Added(mid, r));
  }

  lemma LastTypesStep(scene: Scene, measure: string -> real, ops: seq<Op>, k: nat, n: nat, f: string, j: nat)
    requires k < n <= |ops|
    ensures LastTypesAt(scene, measure, ops, k, n, j, f) <==>
      if TypesAt(scene, measure, ops, n - 1, f) then j == n - 1 else LastTypesAt(scene, measure, ops, k, n - 1, j, f)
  {
    hide TypesAt;
  }

  lemma LastBeforeStep(scene: Scene, measure: string -> real, ops: seq<Op>, k: nat, n: nat, f: string)
    requires k < n <= |ops|
    ensures var before, now := LastBefore(scene, measure, ops, k, n - 1), LastBefore(scene, measure, ops, k, n);
      if TypesAt(scene, measure, ops, n - 1, f) then f in now && now[f] == TextOf(Run(scene, measure, ops, n - 1).typed, f)
      else (f in now <==> f in before) && (f in now ==> now[f] == before[f])
  {
    hide Run, LandsIn, TextOf;
  }

  /** A field is spoken of exactly when an op types into it, and as of the last op that does. */
  lemma {:induction false} LastBeforeIs(scene: Scene, measure: string -> real, ops: seq<Op>, k: nat, n: nat, f: string)
    requires k <= n <= |ops|
    ensures f in LastBefore(scene, measure, ops, k, n) <==> exists j: nat :: LastTypesAt(scene, measure, ops, k, n, j, f)
  {
    hide Run, LastBefore, LastTypesAt, TypesAt, TextOf;
    if n == k {
      NothingTypedYet(scene, measure, ops, k, f);
    } else {
      var was := n - 1;
      LastBeforeIs(scene, measure, ops, k, was, f);
      LastBeforeStep(scene, measure, ops, k, n, f);
      LastTypesStep(scene, measure, ops, k, n, f, n - 1);
      if j: nat :| LastTypesAt(scene, measure, ops, k, was, j, f) { LastTypesStep(scene, measure, ops, k, n, f, j); }
      if j: nat :| LastTypesAt(scene, measure, ops, k, n, j, f) { LastTypesStep(scene, measure, ops, k, n, f, j); }
    }
  }

  lemma {:induction false} LastBeforeHeld(scene: Scene, measure: string -> real, ops: seq<Op>, k: nat, n: nat, j: nat, f: string)
    requires k <= n <= |ops| && j < n && LastTypesAt(scene, measure, ops, k, n, j, f)
    ensures f in LastBefore(scene, measure, ops, k, n)
    ensures LastBefore(scene, measure, ops, k, n)[f] == TextOf(Run(scene, measure, ops, j).typed, f)
  {
    hide Run, LastBefore, TypesAt, TextOf;
    LastTypesStep(scene, measure, ops, k, n, f, j);
    LastBeforeStep(scene, measure, ops, k, n, f);
    if j < n - 1 { LastBeforeHeld(scene, measure, ops, k, n - 1, j, f); }
  }

  lemma NothingTypedYet(scene: Scene, measure: string -> real, ops: seq<Op>, k: nat, f: string)
    requires k <= |ops|
    ensures LastBefore(scene, measure, ops, k, k) == map[]
    ensures forall j: nat :: !LastTypesAt(scene, measure, ops, k, k, j, f)
  {
  }

  /** The beats still to come say of each field what it holds after op k. */
  lemma LastBeforeAgrees(scene: Scene, measure: string -> real, ops: seq<Op>, k: nat, typed: map<string, string>)
    requires k <= |ops|
    ensures var text := LastBefore(scene, measure, ops, k, |ops|);
      (forall f :: f in text ==> text[f] == TextOf(typed, f))
      <==> forall f, j: nat :: j < |ops| && LastTypesAt(scene, measure, ops, k, |ops|, j, f) ==>
             TextOf(Run(scene, measure, ops, j).typed, f) == TextOf(typed, f)
  {
    hide Run, LastBefore, TypesAt, TextOf;
    var text := LastBefore(scene, measure, ops, k, |ops|);
    forall f, j: nat | j < |ops| && LastTypesAt(scene, measure, ops, k, |ops|, j, f)
      ensures f in text && text[f] == TextOf(Run(scene, measure, ops, j).typed, f)
    {
      LastBeforeHeld(scene, measure, ops, k, |ops|, j, f);
    }
    forall f | f in text ensures exists j: nat :: j < |ops| && LastTypesAt(scene, measure, ops, k, |ops|, j, f) {
      LastBeforeIs(scene, measure, ops, k, |ops|, f);
    }
  }

  // ---- beats in order ----

  /** One after the other, and all over by now. */
  predicate InOrder(beats: seq<Beat>, now: real) {
    && (forall i :: 0 <= i < |beats| ==> BeginsAt(beats[i]) <= EndsAt(beats[i]) <= now)
    && forall i, j :: 0 <= i < j < |beats| ==> EndsAt(beats[i]) <= BeginsAt(beats[j])
  }

  /** From s on only later beats were added. */
  predicate Continues(s: Sim, r: Sim) {
    && s.t <= r.t && s.beats <= r.beats && InOrder(r.beats, r.t)
    && forall i :: |s.beats| <= i < |r.beats| ==> s.t <= BeginsAt(r.beats[i])
  }

  lemma OneBeat(s: Sim, r: Sim, b: Beat)
    requires InOrder(s.beats, s.t) && r.beats == s.beats + [b] && s.t <= BeginsAt(b) <= EndsAt(b) <= r.t
    ensures Continues(s, r)
  {
    hide BeginsAt, EndsAt;
  }

  lemma NoBeat(s: Sim, r: Sim)
    requires InOrder(s.beats, s.t) && r.beats == s.beats && s.t <= r.t
    ensures Continues(s, r)
  {
    hide BeginsAt, EndsAt;
  }

  lemma Onwards(s: Sim, mid: Sim, r: Sim)
    requires Continues(s, mid) && Continues(mid, r)
    ensures Continues(s, r)
  {
    hide BeginsAt, EndsAt, InOrder;
    forall i | |s.beats| <= i < |r.beats| ensures s.t <= BeginsAt(r.beats[i]) {
      if i < |mid.beats| { assert r.beats[i] == mid.beats[i]; }
    }
  }

  lemma ApproachContinues(scene: Scene, s: Sim, n: Node)
    requires InOrder(s.beats, s.t)
    ensures Continues(s, Approach(scene, s, n)) && InOrder(Approach(scene, s, n).beats, Approach(scene, s, n).t)
  {
    hide Centred, MiddleOf, OnScreen, InOrder;
    var r := Approach(scene, s, n);
    var a, b := r.beats[|s.beats|], r.beats[|s.beats| + 1];
    var mid := s.(t := s.t + RESOLVE_SETTLE, beats := s.beats + [a]);
    OneBeat(s, mid, a);
    assert r.beats == mid.beats + [b];
    OneBeat(mid, r, b) by { assert InOrder(mid.beats, mid.t); }
    Onwards(s, mid, r);
  }

  lemma ClickContinues(scene: Scene, s: Sim, spot: Spot)
    requires InOrder(s.beats, s.t)
    ensures Continues(s, DoClick(scene, s, spot))
  {
    hide Approach, OnScreen, MiddleOf, InOrder;
    var r := DoClick(scene, s, spot);
    match spot {
      case BySelector(sel) =>
        if sel in scene.nodes {
          var near := Approach(scene, s, scene.nodes[sel]);
          ApproachContinues(scene, s, scene.nodes[sel]);
          OneBeat(near, r, r.beats[|near.beats|]);
          Onwards(s, near, r);
        } else {
          NoBeat(s, r);
        }
      case ByPoint(x, y) =>
        var b := MovePointer(s.t, s.t + CURSOR_GLIDE, s.pointer, Pointer(x, y, "arrow"));
        var near := s.(t := s.t + CURSOR_GLIDE, pointer := b.p1, beats := s.beats + [b]);
        OneBeat(s, near, b);
        OneBeat(near, r, r.beats[|near.beats|]) by { assert InOrder(near.beats, near.t); }
        Onwards(s, near, r);
      case Nowhere => NoBeat(s, r);
    }
  }

  lemma KeysContinue(scene: Scene, measure: string -> real, s: Sim, name: string, box: Option<Box>, text: string, per: real)
    requires InOrder(s.beats, s.t) && per >= 0.0
    ensures Continues(s, DoKeys(scene, measure, s, name, box, text, per))
  {
    hide CaretMarks, CaretCount, InOrder;
    SpanPositive(|text|, per);
    var r := DoKeys(scene, measure, s, name, box, text, per);
    OneBeat(s, r, r.beats[|s.beats|]);
  }

  lemma TypeContinues(scene: Scene, measure: string -> real, s: Sim, text: string, sel: Option<string>, per: real)
    requires InOrder(s.beats, s.t) && per >= 0.0
    ensures Continues(s, DoType(scene, measure, s, text, sel, per))
  {
    hide DoKeys, Approach, OnScreen, InOrder;
    var r := DoType(scene, measure, s, text, sel, per);
    if sel.Some? && sel.value in scene.nodes {
      var n := scene.nodes[sel.value];
      var near := Approach(scene, s, n);
      var b := Focus(near.t, if n.editable then Some(sel.value) else None);
      var ready := near.(focus := b.focus, t := near.t + TYPE_CLICK_SETTLE, beats := near.beats + [b]);
      ApproachContinues(scene, s, n);
      OneBeat(near, ready, b);
      assert InOrder(ready.beats, ready.t);
      KeysContinue(scene, measure, ready, sel.value, Some(OnScreen(n, near.scrollY)), text, per);
      Onwards(s, near, ready);
      Onwards(s, ready, r);
    } else if sel.None? && s.focus.Some? {
      KeysContinue(scene, measure, s, "", None, text, per);
    } else {
      NoBeat(s, r);
    }
  }

  lemma StepContinues(scene: Scene, measure: string -> real, s: Sim, op: Op)
    requires InOrder(s.beats, s.t)
    ensures Continues(s, Step(scene, measure, s, op))
  {
    hide DoType, DoClick, InOrder, Continues, MaxScroll;
    var r := Step(scene, measure, s, op);
    match op {
      case ClickOn(spot) => ClickContinues(scene, s, spot);
      case TypeInto(text, sel, per) =>
        var ms := Duration(per, TYPEWRITER_MS);
        if text.Some? && ms.Some? { TypeContinues(scene, measure, s, text.value, sel, ms.value); } else { NoBeat(s, r); }
      case GoTo(_, _) => if r.beats == s.beats { NoBeat(s, r); } else { OneBeat(s, r, r.beats[|s.beats|]); }
      case ScrollTo(_, _) => if r.beats == s.beats { NoBeat(s, r); } else { OneBeat(s, r, r.beats[|s.beats|]); }
      case _ => NoBeat(s, r);
    }
  }

  /** Over any script beats follow one another, and an op's beats begin when it does or later. */
  lemma {:induction false} BeatsInOrder(scene: Scene, measure: string -> real, ops: seq<Op>, k: nat, n: nat)
    requires k <= n <= |ops|
    ensures Continues(Run(scene, measure, ops, k), Run(scene, measure, ops, n))
  {
    hide Step, Continues, InOrder;
    var r := Run(scene, measure, ops, n);
    if n == 0 {
      NothingRecorded(scene, ops);
      NoBeat(r, r);
    } else if k == n {
      BeatsInOrder(scene, measure, ops, k - 1, k);
      StillInOrder(Run(scene, measure, ops, k - 1), r);
      NoBeat(r, r);
    } else {
      BeatsInOrder(scene, measure, ops, k, n - 1);
      var s := Run(scene, measure, ops, n - 1);
      StillInOrder(Run(scene, measure, ops, k), s);
      if !s.fatal {
        StepContinues(scene, measure, s, ops[n - 1]);
        Onwards(Run(scene, measure, ops, k), s, r);
      }
    }
  }

  lemma NothingRecorded(scene: Scene, ops: seq<Op>)
    ensures InOrder(Begin(scene, ops).beats, Begin(scene, ops).t)
  {
  }

  lemma StillInOrder(s: Sim, r: Sim)
    requires Continues(s, r)
    ensures InOrder(r.beats, r.t)
  {
  }
}
