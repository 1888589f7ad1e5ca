/** `reset_node()` on a whole tree: when it makes the tree as good as new, and what a tree does
    that it has not made as good as new. */
module Resets {
  import opened Worlds
  import opened Engine
  import opened Invariants
  import opened Runs
  import opened FastPath
  import opened Tracking
  import opened Ledgers
  import opened Footprints
  import opened Modify
  import opened PathOrder
  import opened LiveRuns

  /** Unconditional: `_on_halt()` and `_on_reset()` run on every node, RUNNING or not. */
  function ResetNode(t: Node, w: World): Step
    decreases t
  {
    var w1 := OnHaltWorld(t, w);
    var w2 := if t.info.kind.Reactive? then SetDirty(w1, t.info.uid) else w1;
    var r := ResetNodes(t.kids, 0, w2);
    Step(Node(t.info, Idle, OnHaltFields(t), r.kids), r.w)
  }

  function ResetNodes(kids: seq<Node>, i: nat, w: World): (r: StepAll)
    ensures |r.kids| == |kids|
    ensures forall j {:trigger r.kids[j]} | 0 <= j < |kids| && j < i :: r.kids[j] == kids[j]
    decreases kids, |kids| - i
  {
    if i >= |kids| then StepAll(kids, w)
    else
      var h := ResetNode(kids[i], w);
      var r := ResetNodes(kids, i + 1, h.w);
      StepAll(r.kids[i := h.node], r.w)
  }

  /** No Sequence or Fallback stands past its first child. */
  ghost predicate CursorsAtStart(t: Node) {
    (t.info.kind.Memory? ==> t.mem.cursor == 0) && forall i | 0 <= i < |t.kids| :: CursorsAtStart(t.kids[i])
  }

  /** Everything is IDLE afterwards and no RateController replays anything.  But cursors stay, so
      the invariant holds only when they were at the start already. */
  lemma {:induction false} ResetLeavesCursors(t: Node, w: World)
    requires Inv(t, false)
    ensures var s := ResetNode(t, w).node;
      && AllIdle(s) && CachesEmpty(s) && s.status == Idle
      && (Inv(s, true) <==> CursorsAtStart(t))
    decreases t
  {
    var w1 := OnHaltWorld(t, w);
    var w2 := if t.info.kind.Reactive? then SetDirty(w1, t.info.uid) else w1;
    var s := ResetNode(t, w).node;
    assert s.kids == ResetNodes(t.kids, 0, w2).kids;
    forall j | 0 <= j < |t.kids|
      ensures AllIdle(s.kids[j]) && CachesEmpty(s.kids[j]) && s.kids[j].status == Idle
      ensures Inv(s.kids[j], true) <==> CursorsAtStart(t.kids[j])
    {
      var v := ResetNodesAt(t.kids, 0, j, w2);
      ResetLeavesCursors(t.kids[j], v);
    }
    assert InvAll(s.kids, true) <==> forall j | 0 <= j < |t.kids| :: CursorsAtStart(t.kids[j]);
  }

  lemma {:induction false} ResetNodesAt(kids: seq<Node>, i: nat, j: nat, w: World) returns (v: World)
    requires i <= j < |kids|
    ensures ResetNodes(kids, i, w).kids[j] == ResetNode(kids[j], v).node
    decreases j - i
  {
    hide ResetNode;
    if i == j { v := w; } else { v := ResetNodesAt(kids, i + 1, j, ResetNode(kids[i], w).w); }
  }

  /** A tree whose root is not RUNNING has its cursors at the start, so resetting it is safe. */
  lemma {:induction false} RestingCursors(t: Node)
    requires Inv(t, false) && t.status != Running
    ensures CursorsAtStart(t)
  {
    forall i | 0 <= i < |t.kids| ensures CursorsAtStart(t.kids[i]) {
      assert Inv(t.kids[i], false);
      RestingCursors(t.kids[i]);
    }
  }

  // ----- with the cursors at the start --------------------------------------------------

  /** Every reactive node is unsubscribed and due for a full evaluation, and nobody is subscribed anew. */
  lemma {:induction false} ResetUnsubscribes(t: Node, w: World)
    ensures var r := ResetNode(t, w);
      && SameShape(t, r.node) && ReactiveUids(r.node) == ReactiveUids(t)
      && r.w.subs.Keys <= w.subs.Keys && ReactiveUids(t) !! r.w.subs.Keys
      && w.dirty + ReactiveUids(t) <= r.w.dirty
    decreases t, 1
  {
    var w1 := OnHaltWorld(t, w);
    var w2 := if t.info.kind.Reactive? then SetDirty(w1, t.info.uid) else w1;
    ResetNodesUnsubscribe(t.kids, 0, w2);
  }

  lemma {:induction false} ResetNodesUnsubscribe(kids: seq<Node>, i: nat, w: World)
    ensures var r := ResetNodes(kids, i, w);
      && r.w.subs.Keys <= w.subs.Keys && w.dirty <= r.w.dirty
      && forall j | i <= j < |kids| ::
           SameShape(kids[j], r.kids[j]) && ReactiveUids(r.kids[j]) == ReactiveUids(kids[j])
           && ReactiveUids(kids[j]) !! r.w.subs.Keys && ReactiveUids(kids[j]) <= r.w.dirty
    decreases kids, |kids| - i
  {
    hide ResetNode, ReactiveUids, SameShape;
    if i < |kids| {
      ResetUnsubscribes(kids[i], w);
      ResetNodesUnsubscribe(kids, i + 1, ResetNode(kids[i], w).w);
    }
  }

  lemma {:induction false} FreshOfShape(t: Node, u: Node)
    requires SameShape(t, u)
    ensures Fresh(t) == Fresh(u)
  {
    forall j | 0 <= j < |t.kids| ensures Fresh(t.kids[j]) == Fresh(u.kids[j]) { FreshOfShape(t.kids[j], u.kids[j]); }
  }

  /** With every cursor at its start, a tree that has been reset, RUNNING or not, answers every
      later run with the statuses and the calls of a new copy. */
  lemma ResetIsFresh(t: Node, w: World, acts: seq<Act>)
    requires Inv(t, false) && CursorsAtStart(t) && BringIdle(acts)
    ensures var r := ResetNode(t, w); SameLive(r.node, r.w, Fresh(t), AsNew(r.w, t), acts)
  {
    hide SameLive, BringIdle, ResetNode;
    ResetLeavesCursors(t, w);
    StrictInv(ResetNode(t, w).node);
    ResetUnsubscribes(t, w);
    FreshOfShape(t, ResetNode(t, w).node);
    RestingLiveTreesAreFresh(ResetNode(t, w).node, ResetNode(t, w).w, acts);
  }

  // ----- with a cursor past the start ------------------------------------------------------

  lemma {:induction false} HaltKeepsIdle(t: Node, w: World)
    requires AllIdle(t)
    ensures AllIdle(Halt(t, w).node)
    decreases t, 1
  {
    if t.info.kind.Parallel? {
      ClearIdle(t.kids, 0, w);
    } else {
      HaltFromKeepsIdle(t.kids, 0, |t.kids|, w);
    }
  }

  /** Children up to `n` that are IDLE stay so. */
  lemma {:induction false} HaltFromKeepsIdle(kids: seq<Node>, i: nat, n: nat, w: World)
    requires n <= |kids| && forall j | 0 <= j < n :: AllIdle(kids[j])
    ensures forall j | 0 <= j < n :: AllIdle(HaltFrom(kids, i, w).kids[j])
    decreases kids, |kids| - i
  {
    hide AllIdle, Halt;
    if i < |kids| {
      if i < n { HaltKeepsIdle(kids[i], w); }
      HaltFromKeepsIdle(kids, i + 1, n, Halt(kids[i], w).w);
    }
  }

  /** In these notes the root of `k`, or a node below it, is ticked. */
  ghost predicate TicksIn(ns: seq<Note>, k: Node) {
    exists i | 0 <= i < |ns| :: ns[i].Ticked? && ns[i].uid in Uids(k)
  }

  /** A Sequence or Fallback whose children are all IDLE, but whose cursor is past some of them. */
  lemma SkipsBefore(t: Node, adv: Final, v: World)
    requires t.info.kind == Memory(adv) && Distinct(t) && t.mem.cursor < |t.kids|
    requires forall j | 0 <= j < |t.kids| :: AllIdle(t.kids[j])
    ensures var s := Tick(t, v); var c := t.mem.cursor;
      && v.notes <= s.w.notes && |s.node.kids| == |t.kids|
      && (forall j | 0 <= j < c :: AllIdle(s.node.kids[j]) && !TicksIn(Told(v, s.w), t.kids[j]))
      && TicksIn(Told(v, s.w), t.kids[c])
  {
    var c, n := t.mem.cursor, |t.kids|;
    assert TickBody(t, v) == TickMemory(t, adv, v);
    TickIs(t, v);
    assert t.info.uid !in UidsFrom(t.kids, 0) && DistinctFrom(t.kids, 0);
    hide *;
    var s := Tick(t, v);
    var r := RunFrom(t.kids, c, n, 0, adv, v);
    var x := TickBody(t, v).w;
    MemoryEnds(t, adv, v);
    RunFromSettles(t.kids, c, n, 0, adv, v);
    FirstIsTicked(t.kids, c, adv, v);
    forall j | 0 <= j < c ensures !TicksIn(Told(v, s.w), t.kids[j]) {
      SkippedUnmentioned(t, c, j, v, r.w, x, s.w);
    }
    TellGrows(x, Ticked(t.info.uid, s.node.status));
    StillTicked(t.kids[c], v, r.w, x, s.w);
  }

  lemma TellGrows(w: World, note: Note)
    ensures w.notes <= Tell(w, note).notes
  {}

  /** A memory node's run over its children, and what comes after it. */
  lemma MemoryEnds(t: Node, adv: Final, v: World)
    requires t.mem.cursor < |t.kids| && forall j | 0 <= j < |t.kids| :: AllIdle(t.kids[j])
    ensures var r := RunFrom(t.kids, t.mem.cursor, |t.kids|, 0, adv, v); var b := TickMemory(t, adv, v);
      && OnlyStops(r.w, b.w) && |b.node.kids| == |t.kids|
      && forall j | 0 <= j < t.mem.cursor :: AllIdle(b.node.kids[j])
  {
    hide AllIdle, RunFrom, HaltFrom, Beside, Worked, OnlyStops, UidsFrom;
    var c := t.mem.cursor;
    var r := RunFrom(t.kids, c, |t.kids|, 0, adv, v);
    HaltFromKeepsIdle(r.kids, 0, c, r.w);
    RunAndHaltBeside(t.kids, c, |t.kids|, 0, adv, v, 0, UidsFrom(t.kids, 0));
    BesideSelf(r.w, {});
  }

  lemma {:induction false} FirstIsTicked(kids: seq<Node>, c: nat, adv: Final, v: World)
    requires c < |kids| && DistinctFrom(kids, 0)
    ensures var r := RunFrom(kids, c, |kids|, 0, adv, v); v.notes <= r.w.notes && TicksIn(Told(v, r.w), kids[c])
  {
    var s := Tick(kids[c], v);
    TickBeside(kids[c], v, Uids(kids[c]));
    assert s.w.notes[|s.w.notes| - 1] == Ticked(kids[c].info.uid, s.node.status);
    assert |TickBody(kids[c], v).w.notes| >= |v.notes| by {
      hide TickBody, Beside;
      TickBodyBeside(kids[c], v, Uids(kids[c]));
      BodyGrows(kids[c], v, TickBody(kids[c], v), Uids(kids[c]));
    }
    hide Tick;
    if s.node.status == adv { RunFromSettles(kids, c + 1, |kids|, 0, adv, s.w); }
    var r := RunFrom(kids, c, |kids|, 0, adv, v);
    assert s.w.notes <= r.w.notes;
    assert Told(v, r.w)[|s.w.notes| - 1 - |v.notes|] == Ticked(kids[c].info.uid, s.node.status);
  }

  lemma BodyGrows(t: Node, w: World, b: Body, U: set<Uid>)
    requires BodyWorked(t, w, b, U)
    ensures w.notes <= b.w.notes
  {}

  lemma SkippedUnmentioned(t: Node, c: nat, j: nat, v: World, r: World, x: World, s: World)
    requires j < c < |t.kids| && DistinctFrom(t.kids, 0) && t.info.uid !in UidsFrom(t.kids, 0)
    requires SpanTells(t.kids, c, |t.kids|, v, r) && OnlyStops(r, x)
    requires exists result :: s == Tell(x, Ticked(t.info.uid, result))
    ensures v.notes <= s.notes && !TicksIn(Told(v, s), t.kids[j])
  {
    hide Settles, DistinctFrom, UidsFrom, Uids, Span;
    var ns := Told(v, s);
    forall i | 0 <= i < |ns| && ns[i].Ticked? ensures ns[i].uid !in Uids(t.kids[j]) {
      KidUids(t.kids, 0, j);
      var u := ns[i].uid;
      assert i < |x.notes| - |v.notes| ==> x.notes[i + |v.notes|] == ns[i];
      if i < |r.notes| - |v.notes| {
        assert Told(v, r)[i] == ns[i];
        SpanHas(t.kids, c, |t.kids|, u);
        var k :| c <= k < |t.kids| && u in Uids(t.kids[k]);
        DisjointKids(t.kids, 0, j, k);
      }
    }
  }

  lemma StillTicked(k: Node, v: World, r: World, x: World, s: World)
    requires v.notes <= r.notes && TicksIn(Told(v, r), k) && OnlyStops(r, x) && x.notes <= s.notes
    ensures TicksIn(Told(v, s), k)
  {
    var i :| 0 <= i < |Told(v, r)| && Told(v, r)[i].Ticked? && Told(v, r)[i].uid in Uids(k);
    assert Told(v, s)[i] == Told(v, r)[i];
  }

  /** In whatever world a Sequence or Fallback is ticked for the first time after a reset: the
      children before its old cursor are passed over, nothing in them is ticked and they stay
      IDLE, also when the node returns the advancing result; so its first child is ticked exactly
      when the cursor was at the start. */
  lemma ResetSkips(t: Node, w: World, adv: Final, v: World)
    requires Inv(t, false) && Distinct(t) && t.info.kind == Memory(adv) && t.kids != []
    ensures var s := Tick(ResetNode(t, w).node, v); var c := t.mem.cursor;
      && c < |t.kids| == |s.node.kids| && v.notes <= s.w.notes
      && (forall j | 0 <= j < c :: AllIdle(s.node.kids[j]) && !TicksIn(Told(v, s.w), t.kids[j]))
      && TicksIn(Told(v, s.w), t.kids[c])
      && (TicksIn(Told(v, s.w), t.kids[0]) <==> c == 0)
  {
    var r := ResetNode(t, w).node;
    ResetLeavesCursors(t, w);
    ResetUnsubscribes(t, w);
    ShapeFacts(t, r);
    hide Inv, Tick, ResetNode, TicksIn, Distinct;
    SkipsBefore(r, adv, v);
    var told := Told(v, Tick(r, v).w);
    forall j | 0 <= j < |t.kids| ensures TicksIn(told, t.kids[j]) <==> TicksIn(told, r.kids[j]) {
      ShapeFacts(t.kids[j], r.kids[j]);
      SameTicksIn(told, t.kids[j], r.kids[j]);
    }
  }

  lemma SameTicksIn(ns: seq<Note>, k: Node, l: Node)
    requires Uids(k) == Uids(l)
    ensures TicksIn(ns, k) <==> TicksIn(ns, l)
  {}

  /** So this Sequence of two actions, reset while the second is RUNNING, returns SUCCESS without
      asking the first, which answers FAILURE to a new copy. */
  lemma ResetSequenceDiffers()
    ensures var a := Node(Info(1, Leaf(Action), None), Success, BLANK, []);
      var b := Node(Info(2, Leaf(Action), None), Running, BLANK, []);
      var t := Node(Info(0, Memory(Success), None), Running, BLANK.(cursor := 1), [a, b]);
      var env := Env((tr, u, h) => Reply(if u == 1 then Failure else Success, {}), (tr, u) => {}, tr => 0.0);
      var w := World(env, [], [], map[], {});
      var r := ResetNode(t, w);
      Inv(t, true) && Tick(r.node, r.w).node.status == Success && Tick(Fresh(t), r.w).node.status == Failure
  {
    var a := Node(Info(1, Leaf(Action), None), Success, BLANK, []);
    var b := Node(Info(2, Leaf(Action), None), Running, BLANK, []);
    var t := Node(Info(0, Memory(Success), None), Running, BLANK.(cursor := 1), [a, b]);
    var env := Env((tr, u, h) => Reply(if u == 1 then Failure else Success, {}), (tr, u) => {}, tr => 0.0);
    var w := World(env, [], [], map[], {});
    assert Inv(a, true) && Inv(b, true);
    assert Inv(t, true) by { assert InvAll(t.kids, true); }
    var r := ResetNode(t, w);
    var x, y := Node(a.info, Idle, BLANK, []), Node(b.info, Idle, BLANK, []);
    assert ResetNode(a, w) == Step(x, w) && ResetNode(b, w) == Step(y, w);
    assert ResetNodes(t.kids, 2, w) == StepAll(t.kids, w);
    assert ResetNodes(t.kids, 1, w) == StepAll(t.kids[1 := y], w);
    assert ResetNodes(t.kids, 0, w) == StepAll(t.kids[1 := y][0 := x], w);
    assert t.kids[1 := y][0 := x] == [x, y];
    assert r.node.kids == [x, y] && r.w == w;
    assert Fresh(a) == x && Fresh(b) == y && Fresh(t).kids == [x, y];
    LeafTick(x, w);
    LeafTick(y, w);
    hide Tick, ResetNode, Inv, Fresh;
    LastDecides(r.node, Success, w);
    FirstDecides(Fresh(t), Success, w);
    TickIs(r.node, w);
    TickIs(Fresh(t), w);
  }

  lemma LastDecides(t: Node, adv: Final, w: World)
    requires t.info.kind == Memory(adv) && t.kids != [] && t.mem.cursor == |t.kids| - 1
    requires Tick(t.kids[t.mem.cursor], w).node.status == adv
    ensures TickBody(t, w).result == adv
  {
    hide Tick;
    var n, s := |t.kids|, Tick(t.kids[|t.kids| - 1], w);
    assert RunFrom(t.kids, n, n, 0, adv, s.w) == Run(t.kids, n, adv, s.w);
    assert RunFrom(t.kids, n - 1, n, 0, adv, w).result == adv;
    assert TickBody(t, w) == TickMemory(t, adv, w);
  }

  lemma FirstDecides(t: Node, adv: Final, w: World)
    requires t.info.kind == Memory(adv) && t.kids != [] && t.mem.cursor == 0
    requires Tick(t.kids[0], w).node.status != adv
    ensures TickBody(t, w).result == Tick(t.kids[0], w).node.status
  {
    hide Tick;
    assert RunFrom(t.kids, 0, |t.kids|, 0, adv, w).result == Tick(t.kids[0], w).node.status;
    assert TickBody(t, w) == TickMemory(t, adv, w);
  }

  // ----- what the outside is told -----------------------------------------------------------
  /** The stateful leaves, left to right: each gets `on_halted`, whatever its status. */
  function AllHooks(t: Node): seq<Event> {
    (if t.info.kind == Leaf(Stateful) then [Halted(t.info.uid)] else []) + AllHooksFrom(t.kids, 0)
  }

  function AllHooksFrom(kids: seq<Node>, i: nat): seq<Event>
    requires i <= |kids|
    decreases kids, |kids| - i
  {
    if i == |kids| then [] else AllHooks(kids[i]) + AllHooksFrom(kids, i + 1)
  }

  /** The Inspector is told nothing, and every stateful leaf is halted. */
  lemma {:induction false} ResetTells(t: Node, w: World)
    ensures ResetNode(t, w).w.notes == w.notes && ResetNode(t, w).w.trace == w.trace + AllHooks(t)
    decreases t, 1
  {
    var w1 := OnHaltWorld(t, w);
    var w2 := if t.info.kind.Reactive? then SetDirty(w1, t.info.uid) else w1;
    ResetNodesTell(t.kids, 0, w2);
    var own := if t.info.kind == Leaf(Stateful) then [Halted(t.info.uid)] else [];
    Append3(w.trace, own, AllHooksFrom(t.kids, 0));
  }

  lemma {:induction false} ResetNodesTell(kids: seq<Node>, i: nat, w: World)
    requires i <= |kids|
    ensures ResetNodes(kids, i, w).w.notes == w.notes
    ensures ResetNodes(kids, i, w).w.trace == w.trace + AllHooksFrom(kids, i)
    decreases kids, |kids| - i
  {
    hide ResetNode, AllHooks;
    if i < |kids| {
      ResetTells(kids[i], w);
      ResetNodesTell(kids, i + 1, ResetNode(kids[i], w).w);
      Append3(w.trace, AllHooks(kids[i]), AllHooksFrom(kids, i + 1));
    }
  }

  /** So the Inspector shows the truth after a reset exactly when no node was RUNNING before it. */
  lemma ResetInspector(t: Node, w: World)
    requires Inv(t, false) && RunningSet(w.notes) == RunningUids(t)
    ensures var r := ResetNode(t, w);
      RunningSet(r.w.notes) == RunningUids(r.node) <==> RunningUids(t) == {}
  {
    ResetTells(t, w);
    ResetLeavesCursors(t, w);
    IdleIsNotRunning(ResetNode(t, w).node);
    NoneRunningUids(ResetNode(t, w).node);
  }
}
