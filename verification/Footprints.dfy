/** What the work of some nodes does to everything else: a tick, halt or reset of a tree leaves
    the subscriptions of all other nodes alone, and marks one of them dirty exactly when user
    code it called wrote to a board that node listens to. */
module Footprints {
  import opened Worlds
  import opened Engine
  import opened Tracking

  // ----- writes by user code, read off the trace -----------------------------------

  /** The boards written by the `k`-th call. */
  function Wrote(env: Env, trace: seq<Event>, k: nat): set<Board>
    requires k < |trace|
  {
    match trace[k]
    case Called(u, hook, _) => env.reply(trace[..k], u, hook).writes
    case Halted(u) => env.onHalted(trace[..k], u)
    case ClockRead(_) => {}
  }

  /** A call made since the trace had length `since` wrote to one of these boards. */
  ghost predicate Heard(v: World, since: nat, boards: set<Board>) {
    exists k | since <= k < |v.trace| :: Wrote(v.env, v.trace, k) * boards != {}
  }

  /** How node `x` is left by work that is not its own: still subscribed as it was, and dirty
      if it was, or if a call made meanwhile wrote to one of its boards. */
  ghost predicate LeftAt(w: World, v: World, x: Uid) {
    && (x in w.subs <==> x in v.subs)
    && (x in w.subs ==> v.subs[x] == w.subs[x])
    && (x in v.dirty <==> x in w.dirty || (x in w.subs && Heard(v, |w.trace|, w.subs[x])))
  }

  /** From `w` to `v` only nodes in `U` were at work: notes are about them, and every other
      node is left as `LeftAt` says. */
  ghost predicate Beside(w: World, v: World, U: set<Uid>) {
    && v.env == w.env && w.trace <= v.trace && w.notes <= v.notes
    && (forall i | |w.notes| <= i < |v.notes| :: v.notes[i].uid in U)
    && (forall x | x !in U :: LeftAt(w, v, x))
  }

  /** What the Inspector was told from `w` to `v`. */
  function Told(w: World, v: World): seq<Note>
    requires w.notes <= v.notes
  {
    v.notes[|w.notes|..]
  }

  ghost predicate OnlyStops(w: World, v: World) {
    w.notes <= v.notes && forall i | |w.notes| <= i < |v.notes| :: v.notes[i].Stopped?
  }

  lemma HeardSplit(w: World, v: World, z: World, boards: set<Board>)
    requires v.env == z.env && w.trace <= v.trace <= z.trace
    ensures Heard(z, |w.trace|, boards) <==> Heard(v, |w.trace|, boards) || Heard(z, |v.trace|, boards)
  {
    forall k | 0 <= k < |v.trace| ensures Wrote(z.env, z.trace, k) == Wrote(v.env, v.trace, k) {
      assert z.trace[..k] == v.trace[..k];
    }
    if Heard(v, |w.trace|, boards) {
      var k :| |w.trace| <= k < |v.trace| && Wrote(v.env, v.trace, k) * boards != {};
      assert Wrote(z.env, z.trace, k) * boards != {};
    }
  }

  lemma BesideTrans(w: World, v: World, z: World, U: set<Uid>)
    requires Beside(w, v, U) && Beside(v, z, U)
    ensures Beside(w, z, U)
  {
    hide Heard;
    forall x | x !in U ensures LeftAt(w, z, x) {
      assert LeftAt(w, v, x) && LeftAt(v, z, x);
      if x in w.subs { HeardSplit(w, v, z, w.subs[x]); }
    }
  }

  lemma StopsTrans(w: World, v: World, z: World)
    requires OnlyStops(w, v) && OnlyStops(v, z)
    ensures OnlyStops(w, z)
  {}

  // ----- the primitive steps ---------------------------------------------------------

  lemma BesideSelf(w: World, U: set<Uid>)
    ensures Beside(w, w, U) && OnlyStops(w, w)
  {
    forall x ensures LeftAt(w, w, x) {}
  }

  lemma BesideTell(w: World, note: Note, U: set<Uid>)
    requires note.uid in U
    ensures Beside(w, Tell(w, note), U) && (note.Stopped? ==> OnlyStops(w, Tell(w, note)))
  {
    forall x | x !in U ensures LeftAt(w, Tell(w, note), x) {}
  }

  /** One more event: what it wrote is what is heard. */
  lemma HeardOne(v: World, n: nat, boards: set<Board>)
    requires |v.trace| == n + 1
    ensures Heard(v, n, boards) <==> Wrote(v.env, v.trace, n) * boards != {}
  {}

  lemma BesideCall(w: World, u: Uid, hook: Hook, U: set<Uid>)
    ensures Beside(w, Call(w, u, hook), U) && OnlyStops(w, Call(w, u, hook))
    ensures Beside(w, CallHalted(w, u), U) && OnlyStops(w, CallHalted(w, u))
    ensures Beside(w, ReadClock(w, u), U)
  {
    var a, b, c := Call(w, u, hook), CallHalted(w, u), ReadClock(w, u);
    assert a.trace[..|w.trace|] == w.trace == b.trace[..|w.trace|];
    hide Heard;
    forall x ensures LeftAt(w, a, x) && LeftAt(w, b, x) && LeftAt(w, c, x) {
      if x in w.subs {
        HeardOne(a, |w.trace|, w.subs[x]);
        HeardOne(b, |w.trace|, w.subs[x]);
        HeardOne(c, |w.trace|, w.subs[x]);
      }
    }
  }

  lemma BesideOwn(w: World, u: Uid, boards: set<Board>, U: set<Uid>)
    requires u in U
    ensures Beside(w, Subscribe(w, u, boards), U) && Beside(w, Unsubscribe(w, u), U)
    ensures Beside(w, SetDirty(w, u), U) && Beside(w, ClearDirty(w, u), U)
    ensures OnlyStops(w, Unsubscribe(w, u)) && OnlyStops(w, SetDirty(w, u))
  {
    forall x | x !in U
      ensures LeftAt(w, Subscribe(w, u, boards), x) && LeftAt(w, Unsubscribe(w, u), x)
      ensures LeftAt(w, SetDirty(w, u), x) && LeftAt(w, ClearDirty(w, u), x)
    {}
  }

  // ----- halt and reset ----------------------------------------------------------------

  /** Nodes of one shape before and after, all in `U`; only they were at work. */
  ghost predicate Worked(ks: seq<Node>, w: World, ls: seq<Node>, v: World, U: set<Uid>) {
    SameShapes(ks, ls) && UidsFrom(ks, 0) <= U && Beside(w, v, U)
  }

  lemma WorkedTrans(ks: seq<Node>, w: World, ls: seq<Node>, v: World, ms: seq<Node>, z: World, U: set<Uid>)
    requires Worked(ks, w, ls, v, U) && Worked(ls, v, ms, z, U)
    ensures Worked(ks, w, ms, z, U)
  {
    hide SameShape, Beside;
    BesideTrans(w, v, z, U);
    forall j | 0 <= j < |ks| ensures SameShape(ks[j], ms[j]) { SameShapeTrans(ks[j], ls[j], ms[j]); }
  }

  /** The list after the work is as much within `U` as before. */
  lemma WorkedUids(ks: seq<Node>, w: World, ls: seq<Node>, v: World, U: set<Uid>)
    requires Worked(ks, w, ls, v, U)
    ensures UidsFrom(ls, 0) <= U
  {
    ShapeFactsFrom(ks, ls, 0);
  }

  lemma WorkedNone(ks: seq<Node>, w: World, U: set<Uid>)
    requires UidsFrom(ks, 0) <= U
    ensures Worked(ks, w, ks, w, U)
  {
    forall j | 0 <= j < |ks| ensures SameShape(ks[j], ks[j]) { SameShapeSelf(ks[j]); }
    BesideSelf(w, U);
  }

  /** Child `i` first, then others, but not child `i` again. */
  lemma WorkedCons(ks: seq<Node>, i: nat, w: World, x: Node, v: World, ls: seq<Node>, z: World, U: set<Uid>)
    requires i < |ks| && SameShape(ks[i], x) && Beside(w, v, U)
    requires Worked(ks, v, ls, z, U)
    ensures Worked(ks, w, ls[i := x], z, U)
  {
    hide SameShape, Beside;
    BesideTrans(w, v, z, U);
  }

  lemma {:induction false} KidWithin(kids: seq<Node>, i: nat, j: nat, U: set<Uid>)
    requires i <= j < |kids| && UidsFrom(kids, i) <= U
    ensures Uids(kids[j]) <= U
    decreases j - i
  {
    if i < j { KidWithin(kids, i + 1, j, U); }
  }

  /** A node after work on its children. */
  lemma NodeShape(t: Node, n: Node)
    requires n.info == t.info && SameShapes(t.kids, n.kids)
    ensures SameShape(t, n)
  {
    hide SameShape;
    assert forall j | 0 <= j < |t.kids| :: SameShape(t.kids[j], n.kids[j]);
    ShapeUnfold(t, n);
  }

  lemma ShapeUnfold(t: Node, n: Node)
    ensures SameShape(t, n) <==>
      t.info == n.info && |t.kids| == |n.kids| && forall j | 0 <= j < |t.kids| :: SameShape(t.kids[j], n.kids[j])
  {}

  lemma {:induction false} HaltBeside(t: Node, w: World, U: set<Uid>)
    requires Uids(t) <= U
    ensures var h := Halt(t, w); SameShape(t, h.node) && Beside(w, h.w, U) && OnlyStops(w, h.w)
    decreases t, 1
  {
    hide Beside, OnlyStops, SameShape, HaltFrom, HaltRunning, ResetTerminal, UidsFrom;
    var w1 := if t.status == Running then Tell(OnHaltWorld(t, w), Stopped(t.info.uid)) else w;
    OnHaltBeside(t, w, U);
    if t.info.kind.Parallel? {
      ClearBeside(t.kids, w1, U);
    } else {
      HaltFromBeside(t.kids, 0, w1, U);
    }
    var h := Halt(t, w);
    BesideTrans(w, w1, h.w, U);
    StopsTrans(w, w1, h.w);
    NodeShape(t, h.node);
  }

  lemma OnHaltBeside(t: Node, w: World, U: set<Uid>)
    requires t.info.uid in U
    ensures var w1 := if t.status == Running then Tell(OnHaltWorld(t, w), Stopped(t.info.uid)) else w;
      Beside(w, w1, U) && OnlyStops(w, w1)
    ensures Beside(w, OnHaltWorld(t, w), U) && OnlyStops(w, OnHaltWorld(t, w))
  {
    hide Beside, OnlyStops;
    BesideSelf(w, U);
    BesideCall(w, t.info.uid, Plain, U);
    BesideOwn(w, t.info.uid, {}, U);
    var v := OnHaltWorld(t, w);
    BesideTell(v, Stopped(t.info.uid), U);
    BesideTrans(w, v, Tell(v, Stopped(t.info.uid)), U);
    StopsTrans(w, v, Tell(v, Stopped(t.info.uid)));
  }

  lemma {:induction false} HaltFromBeside(kids: seq<Node>, i: nat, w: World, U: set<Uid>)
    requires UidsFrom(kids, 0) <= U
    ensures var r := HaltFrom(kids, i, w); Worked(kids, w, r.kids, r.w, U) && OnlyStops(w, r.w)
    decreases kids, |kids| - i
  {
    hide Beside, OnlyStops, SameShape, Halt, Worked, UidsFrom;
    if i < |kids| {
      KidWithin(kids, 0, i, U);
      HaltBeside(kids[i], w, U);
      var h := Halt(kids[i], w);
      HaltFromBeside(kids, i + 1, h.w, U);
      var r := HaltFrom(kids, i + 1, h.w);
      WorkedCons(kids, i, w, h.node, h.w, r.kids, r.w, U);
      StopsTrans(w, h.w, r.w);
    } else {
      WorkedNone(kids, w, U);
      BesideSelf(w, U);
    }
  }

  lemma {:induction false} HaltRunningBeside(kids: seq<Node>, i: nat, w: World, U: set<Uid>)
    requires UidsFrom(kids, 0) <= U
    ensures var r := HaltRunning(kids, i, w); Worked(kids, w, r.kids, r.w, U) && OnlyStops(w, r.w)
    decreases kids, |kids| - i
  {
    hide Beside, OnlyStops, SameShape, Halt, Worked, UidsFrom;
    if i >= |kids| {
      WorkedNone(kids, w, U);
      BesideSelf(w, U);
    } else if kids[i].status == Running {
      KidWithin(kids, 0, i, U);
      HaltBeside(kids[i], w, U);
      var h := Halt(kids[i], w);
      HaltRunningBeside(kids, i + 1, h.w, U);
      var r := HaltRunning(kids, i + 1, h.w);
      WorkedCons(kids, i, w, h.node, h.w, r.kids, r.w, U);
      StopsTrans(w, h.w, r.w);
    } else {
      HaltRunningBeside(kids, i + 1, w, U);
    }
  }

  lemma {:induction false} ResetBeside(t: Node, w: World, U: set<Uid>)
    requires Uids(t) <= U
    ensures var h := Reset(t, w); SameShape(t, h.node) && Beside(w, h.w, U) && OnlyStops(w, h.w)
    decreases t, 1
  {
    hide Beside, OnlyStops, SameShape, ResetFrom, UidsFrom;
    var w1 := if t.status == Running then OnHaltWorld(t, w) else w;
    var w2 := if t.info.kind.Reactive? then SetDirty(w1, t.info.uid) else w1;
    OnHaltBeside(t, w, U);
    BesideSelf(w, U);
    BesideSelf(w1, U);
    BesideOwn(w1, t.info.uid, {}, U);
    ResetFromBeside(t.kids, 0, w2, U);
    var h := Reset(t, w);
    BesideTrans(w, w1, w2, U);
    StopsTrans(w, w1, w2);
    BesideTrans(w, w2, h.w, U);
    StopsTrans(w, w2, h.w);
    NodeShape(t, h.node);
  }

  lemma {:induction false} ResetFromBeside(kids: seq<Node>, i: nat, w: World, U: set<Uid>)
    requires UidsFrom(kids, 0) <= U
    ensures var r := ResetFrom(kids, i, w); Worked(kids, w, r.kids, r.w, U) && OnlyStops(w, r.w)
    decreases kids, |kids| - i
  {
    hide Beside, OnlyStops, SameShape, Reset, Worked, UidsFrom;
    if i < |kids| {
      KidWithin(kids, 0, i, U);
      ResetBeside(kids[i], w, U);
      var h := Reset(kids[i], w);
      ResetFromBeside(kids, i + 1, h.w, U);
      var r := ResetFrom(kids, i + 1, h.w);
      WorkedCons(kids, i, w, h.node, h.w, r.kids, r.w, U);
      StopsTrans(w, h.w, r.w);
    } else {
      WorkedNone(kids, w, U);
      BesideSelf(w, U);
    }
  }

  lemma {:induction false} ResetTerminalBeside(kids: seq<Node>, i: nat, w: World, U: set<Uid>)
    requires UidsFrom(kids, 0) <= U
    ensures var r := ResetTerminal(kids, i, w); Worked(kids, w, r.kids, r.w, U) && OnlyStops(w, r.w)
    decreases |kids| - i
  {
    hide Beside, OnlyStops, SameShape, Reset, Worked, UidsFrom;
    if i >= |kids| {
      WorkedNone(kids, w, U);
      BesideSelf(w, U);
    } else if Terminal(kids[i].status) {
      KidWithin(kids, 0, i, U);
      ResetBeside(kids[i], w, U);
      var h := Reset(kids[i], w);
      ResetTerminalBeside(kids, i + 1, h.w, U);
      var r := ResetTerminal(kids, i + 1, h.w);
      WorkedCons(kids, i, w, h.node, h.w, r.kids, r.w, U);
      StopsTrans(w, h.w, r.w);
    } else {
      ResetTerminalBeside(kids, i + 1, w, U);
    }
  }

  lemma {:induction false} ClearBeside(kids: seq<Node>, w: World, U: set<Uid>)
    requires UidsFrom(kids, 0) <= U
    ensures var h := HaltRunning(kids, 0, w); var r := ResetTerminal(h.kids, 0, h.w);
      Worked(kids, w, r.kids, r.w, U) && OnlyStops(w, r.w)
    decreases kids, |kids| + 1
  {
    hide Beside, OnlyStops, SameShape, HaltRunning, ResetTerminal, Worked, UidsFrom;
    HaltRunningBeside(kids, 0, w, U);
    var h := HaltRunning(kids, 0, w);
    WorkedUids(kids, w, h.kids, h.w, U);
    ResetTerminalBeside(h.kids, 0, h.w, U);
    var r := ResetTerminal(h.kids, 0, h.w);
    WorkedTrans(kids, w, h.kids, h.w, r.kids, r.w, U);
    StopsTrans(w, h.w, r.w);
  }

  // ----- tick -----------------------------------------------------------------------------

  lemma TickIs(t: Node, w: World)
    ensures var b := TickBody(t, w);
      Tick(t, w) == Step(b.node.(status := b.result), Tell(b.w, Ticked(t.info.uid, b.result)))
  {}

  lemma LeafTick(t: Node, w: World)
    requires t.info.kind == Leaf(Action)
    ensures var r := CallReply(w, t.info.uid, Plain).result;
      Tick(t, w) == Step(t.(status := r), Tell(Call(w, t.info.uid, Plain), Ticked(t.info.uid, r)))
  {
    assert TickBody(t, w) == TickLeaf(t, Action, w);
  }

  ghost predicate BodyWorked(t: Node, w: World, b: Body, U: set<Uid>) {
    b.node.info == t.info && Worked(t.kids, w, b.node.kids, b.w, U)
  }

  /** A tick of any tree, in any state: the tree keeps its shape, and nobody outside notices
      more than the writes. */
  lemma {:induction false} TickBeside(t: Node, w: World, U: set<Uid>)
    requires Uids(t) <= U
    ensures var s := Tick(t, w); SameShape(t, s.node) && Beside(w, s.w, U)
    decreases t, 6
  {
    hide TickBody, Beside, SameShape, UidsFrom;
    TickBodyBeside(t, w, U);
    var b := TickBody(t, w);
    BesideTell(b.w, Ticked(t.info.uid, b.result), U);
    BesideTrans(w, b.w, Tick(t, w).w, U);
    NodeShape(t, Tick(t, w).node);
  }

  lemma {:induction false} TickBodyBeside(t: Node, w: World, U: set<Uid>)
    requires Uids(t) <= U
    ensures BodyWorked(t, w, TickBody(t, w), U)
    decreases t, 5
  {
    hide TickLeaf, TickMemory, TickReactive, TickParallel, TickDecorator, BodyWorked, UidsFrom;
    match t.info.kind {
      case Leaf(sort) => TickLeafBeside(t, sort, w, U);
      case Memory(adv) => TickMemoryBeside(t, adv, w, U);
      case Reactive(adv) => TickReactiveBeside(t, adv, w, U);
      case Parallel(_, _, _) => TickParallelBeside(t, w, U);
      case _ =>
        if t.kids == [] { StillBeside(t, w, Failure, U); } else { TickDecoratorBeside(t, w, U); }
    }
  }

  lemma StillBeside(t: Node, w: World, r: Result, U: set<Uid>)
    requires Uids(t) <= U
    ensures BodyWorked(t, w, Body(t, r, w), U)
  {
    hide Worked;
    WorkedNone(t.kids, w, U);
  }

  lemma TickLeafBeside(t: Node, sort: LeafSort, w: World, U: set<Uid>)
    requires Uids(t) <= U
    ensures BodyWorked(t, w, TickLeaf(t, sort, w), U)
  {
    hide Beside, SameShape;
    var hook := if sort != Stateful then Plain else if t.status == Running then Resume else Start;
    BesideCall(w, t.info.uid, hook, U);
    WorkedNone(t.kids, w, U);
  }

  lemma {:induction false} RunFromBeside(kids: seq<Node>, i: nat, n: nat, skip: nat, adv: Final, w: World, U: set<Uid>)
    requires n <= |kids| && UidsFrom(kids, 0) <= U
    ensures var r := RunFrom(kids, i, n, skip, adv, w); Worked(kids, w, r.kids, r.w, U)
    decreases kids, n - i
  {
    hide Beside, SameShape, Tick, Worked, IsGuard, UidsFrom;
    WorkedNone(kids, w, U);
    if i < n {
      if i < skip && !IsGuard(kids[i]) {
        RunFromBeside(kids, i + 1, n, skip, adv, w, U);
      } else {
        KidWithin(kids, 0, i, U);
        TickBeside(kids[i], w, U);
        var s := Tick(kids[i], w);
        if s.node.status == adv {
          RunFromBeside(kids, i + 1, n, skip, adv, s.w, U);
          var r := RunFrom(kids, i + 1, n, skip, adv, s.w);
          WorkedCons(kids, i, w, s.node, s.w, r.kids, r.w, U);
        } else {
          WorkedNone(kids, s.w, U);
          WorkedCons(kids, i, w, s.node, s.w, kids, s.w, U);
        }
      }
    }
  }

  /** A run over the children, with a halt of those after some index or without. */
  lemma {:induction false} RunAndHaltBeside(kids: seq<Node>, i: nat, n: nat, skip: nat, adv: Final, w: World, k: nat,
        U: set<Uid>)
    requires n <= |kids| && UidsFrom(kids, 0) <= U
    ensures var r := RunFrom(kids, i, n, skip, adv, w); var h := HaltFrom(r.kids, k, r.w);
      Worked(kids, w, r.kids, r.w, U) && Worked(kids, w, h.kids, h.w, U) && OnlyStops(r.w, h.w)
    decreases kids, |kids| + 1
  {
    hide Beside, SameShape, Worked, RunFrom, HaltFrom, UidsFrom;
    RunFromBeside(kids, i, n, skip, adv, w, U);
    var r := RunFrom(kids, i, n, skip, adv, w);
    WorkedUids(kids, w, r.kids, r.w, U);
    HaltFromBeside(r.kids, k, r.w, U);
    var h := HaltFrom(r.kids, k, r.w);
    WorkedTrans(kids, w, r.kids, r.w, h.kids, h.w, U);
  }

  lemma {:induction false} TickMemoryBeside(t: Node, adv: Final, w: World, U: set<Uid>)
    requires Uids(t) <= U
    ensures BodyWorked(t, w, TickMemory(t, adv, w), U)
    decreases t, 3
  {
    hide Worked, RunFrom, HaltFrom;
    RunAndHaltBeside(t.kids, t.mem.cursor, |t.kids|, 0, adv, w, 0, U);
  }

  lemma {:induction false} SweepBeside(kids: seq<Node>, i: nat, w: World, U: set<Uid>)
    requires UidsFrom(kids, 0) <= U
    ensures var r := Sweep(kids, i, w); Worked(kids, w, r.kids, r.w, U)
    decreases kids, |kids| - i
  {
    hide Beside, SameShape, Tick, Worked, UidsFrom;
    if i >= |kids| {
      WorkedNone(kids, w, U);
    } else if Terminal(kids[i].status) {
      SweepBeside(kids, i + 1, w, U);
    } else {
      KidWithin(kids, 0, i, U);
      TickBeside(kids[i], w, U);
      var s := Tick(kids[i], w);
      SweepBeside(kids, i + 1, s.w, U);
      var r := Sweep(kids, i + 1, s.w);
      WorkedCons(kids, i, w, s.node, s.w, r.kids, r.w, U);
    }
  }

  lemma {:induction false} TickParallelBeside(t: Node, w: World, U: set<Uid>)
    requires Uids(t) <= U && t.info.kind.Parallel?
    ensures BodyWorked(t, w, TickParallel(t, w), U)
    decreases t, 3
  {
    hide Worked, Sweep, HaltRunning, ResetTerminal, Verdict, Count;
    WorkedNone(t.kids, w, U);
    SweepBeside(t.kids, 0, w, U);
    var s := Sweep(t.kids, 0, w);
    WorkedUids(t.kids, w, s.kids, s.w, U);
    ClearBeside(s.kids, s.w, U);
    var h := HaltRunning(s.kids, 0, s.w);
    var c := ResetTerminal(h.kids, 0, h.w);
    WorkedTrans(t.kids, w, s.kids, s.w, c.kids, c.w, U);
  }

  /** One child worked, alone. */
  lemma WorkedOne(ks: seq<Node>, w: World, x: Node, v: World, U: set<Uid>)
    requires ks != [] && UidsFrom(ks, 0) <= U && SameShape(ks[0], x) && Beside(w, v, U)
    ensures Worked(ks, w, ks[0 := x], v, U)
  {
    hide SameShape, Beside;
    WorkedNone(ks, v, U);
    WorkedCons(ks, 0, w, x, v, ks, v, U);
  }

  lemma {:induction false} TickDecoratorBeside(t: Node, w: World, U: set<Uid>)
    requires Uids(t) <= U && t.kids != []
    ensures BodyWorked(t, w, TickDecorator(t, w), U)
    decreases t, 3
  {
    hide Beside, SameShape, Tick, Halt, Worked, UidsFrom;
    var k, w1 := t.kids[0], ReadClock(w, t.info.uid);
    KidWithin(t.kids, 0, 0, U);
    BesideCall(w, t.info.uid, Plain, U);
    WorkedNone(t.kids, w, U);
    WorkedNone(t.kids, w1, U);
    WorkedAfter(t.kids, w, w1, t.kids, w1, U);
    match t.info.kind {
      case Relay(_, _) => KidBeside(t.kids, w, U);
      case Retry(_) => KidBeside(t.kids, w, U);
      case Timeout(_) => KidBeside(t.kids, w1, U); LaterBeside(t.kids, w, w1, U);
      case Rate(_) => KidBeside(t.kids, w1, U); LaterBeside(t.kids, w, w1, U);
      case _ =>
    }
  }

  /** A decorator's child is ticked, halted, or both. */
  lemma {:induction false} KidBeside(kids: seq<Node>, w: World, U: set<Uid>)
    requires kids != [] && UidsFrom(kids, 0) <= U
    ensures var s := Tick(kids[0], w); var g := Halt(s.node, s.w); var h := Halt(kids[0], w);
      && Worked(kids, w, kids[0 := s.node], s.w, U)
      && Worked(kids, w, kids[0 := g.node], g.w, U) && OnlyStops(s.w, g.w)
      && Worked(kids, w, kids[0 := h.node], h.w, U) && OnlyStops(w, h.w)
    decreases kids, 0
  {
    hide Beside, SameShape, Tick, Halt, Worked, UidsFrom;
    var k := kids[0];
    KidWithin(kids, 0, 0, U);
    TickBeside(k, w, U);
    var s := Tick(k, w);
    ShapeFacts(k, s.node);
    HaltBeside(s.node, s.w, U);
    HaltBeside(k, w, U);
    var g, h := Halt(s.node, s.w), Halt(k, w);
    SameShapeTrans(k, s.node, g.node);
    BesideTrans(w, s.w, g.w, U);
    WorkedOne(kids, w, s.node, s.w, U);
    WorkedOne(kids, w, g.node, g.w, U);
    WorkedOne(kids, w, h.node, h.w, U);
  }

  lemma WorkedAfter(ks: seq<Node>, w: World, w1: World, ls: seq<Node>, v: World, U: set<Uid>)
    requires Beside(w, w1, U) && Worked(ks, w1, ls, v, U)
    ensures Worked(ks, w, ls, v, U)
  {
    hide SameShape, Beside;
    BesideTrans(w, w1, v, U);
  }

  /** The same, after the clock has been read. */
  lemma LaterBeside(kids: seq<Node>, w: World, w1: World, U: set<Uid>)
    requires kids != [] && Beside(w, w1, U)
    requires var s := Tick(kids[0], w1); var h := Halt(kids[0], w1);
      Worked(kids, w1, kids[0 := s.node], s.w, U) && Worked(kids, w1, kids[0 := h.node], h.w, U)
    ensures var s := Tick(kids[0], w1); var h := Halt(kids[0], w1);
      Worked(kids, w, kids[0 := s.node], s.w, U) && Worked(kids, w, kids[0 := h.node], h.w, U)
  {
    hide Beside, Tick, Halt, Worked;
    var s, h := Tick(kids[0], w1), Halt(kids[0], w1);
    WorkedAfter(kids, w, w1, kids[0 := s.node], s.w, U);
    WorkedAfter(kids, w, w1, kids[0 := h.node], h.w, U);
  }

  // ----- the reactive nodes --------------------------------------------------------------------

  /** The node's own entry changes after the children's work. */
  lemma WorkedThen(ks: seq<Node>, w: World, ls: seq<Node>, v: World, z: World, U: set<Uid>)
    requires Worked(ks, w, ls, v, U) && Beside(v, z, U)
    ensures Worked(ks, w, ls, z, U)
  {
    hide SameShape, Beside;
    BesideTrans(w, v, z, U);
  }

  lemma WorkedOwn(ks: seq<Node>, w: World, ls: seq<Node>, v: World, u: Uid, boards: set<Board>, U: set<Uid>)
    requires Worked(ks, w, ls, v, U) && u in U
    ensures Worked(ks, w, ls, Subscribe(v, u, boards), U) && Worked(ks, w, ls, Unsubscribe(v, u), U)
  {
    hide Worked, Beside, Subscribe, Unsubscribe;
    BesideOwn(v, u, boards, U);
    WorkedThen(ks, w, ls, v, Subscribe(v, u, boards), U);
    WorkedThen(ks, w, ls, v, Unsubscribe(v, u), U);
  }

  lemma {:induction false} TickReactiveBeside(t: Node, adv: Final, w: World, U: set<Uid>)
    requires Uids(t) <= U
    ensures BodyWorked(t, w, TickReactive(t, adv, w), U)
    decreases t, 4
  {
    hide BodyWorked, FastTick, FullEval;
    if TakesFastPath(t, w) { FastTickBeside(t, adv, w, U); } else { FullEvalBeside(t, 0, adv, w, U); }
  }

  lemma {:induction false} FullEvalBeside(t: Node, skip: nat, adv: Final, w: World, U: set<Uid>)
    requires Uids(t) <= U
    ensures BodyWorked(t, w, FullEval(t, skip, adv, w), U)
    decreases t, 3
  {
    hide Beside, Worked, RunFrom, HaltFrom, ClearDirty, Subscribe, Unsubscribe, KidBoards, UidsFrom;
    var u, w1 := t.info.uid, ClearDirty(w, t.info.uid);
    BesideOwn(w, u, {}, U);
    var r := RunFrom(t.kids, 0, |t.kids|, skip, adv, w1);
    RunAndHaltBeside(t.kids, 0, |t.kids|, skip, adv, w1, r.at + 1, U);
    var h := HaltFrom(r.kids, r.at + 1, r.w);
    WorkedAfter(t.kids, w, w1, r.kids, r.w, U);
    WorkedAfter(t.kids, w, w1, h.kids, h.w, U);
    WorkedOwn(t.kids, w, r.kids, r.w, u, {}, U);
    WorkedOwn(t.kids, w, h.kids, h.w, u, KidBoards(h.kids, 0), U);
  }

  lemma {:induction false} FastTickBeside(t: Node, adv: Final, w: World, U: set<Uid>)
    requires Uids(t) <= U && t.mem.running.Some? && t.mem.running.value < |t.kids|
    ensures BodyWorked(t, w, FastTick(t, adv, w), U)
    decreases t, 3
  {
    hide Beside, Worked, RunFrom, HaltFrom, Unsubscribe, Tick, FastRest, UidsFrom, SameShape;
    var u, idx := t.info.uid, t.mem.running.value;
    var g := RunFrom(t.kids, 0, idx, idx, adv, w);
    RunAndHaltBeside(t.kids, 0, idx, idx, adv, w, g.at + 1, U);
    if g.result != adv {
      var h := HaltFrom(g.kids, g.at + 1, g.w);
      WorkedOwn(t.kids, w, h.kids, h.w, u, {}, U);
    } else {
      KidWithin(t.kids, 0, idx, U);
      TickBeside(t.kids[idx], g.w, U);
      var s := Tick(t.kids[idx], g.w);
      WorkedAt(t.kids, w, g.kids, g.w, idx, s, U);
      if s.node.status != Running {
        WorkedOwn(t.kids, w, g.kids[idx := s.node], s.w, u, {}, U);
        FastRestBeside(t, g.kids[idx := s.node], idx, s.node.status, adv, w, Unsubscribe(s.w, u), U);
      }
    }
  }

  /** Child `i`, not touched so far, works now. */
  lemma WorkedAt(ks: seq<Node>, w: World, ls: seq<Node>, v: World, i: nat, s: Step, U: set<Uid>)
    requires Worked(ks, w, ls, v, U) && i < |ks| && SameShape(ks[i], s.node) && Beside(v, s.w, U)
    ensures Worked(ks, w, ls[i := s.node], s.w, U)
  {
    hide SameShape, Beside;
    BesideTrans(w, v, s.w, U);
  }

  lemma {:induction false} FastRestBeside(t: Node, kids: seq<Node>, idx: nat, result: Final, adv: Final, w: World,
        v: World, U: set<Uid>)
    requires Uids(t) <= U && |kids| == |t.kids| && idx < |t.kids| && Worked(t.kids, w, kids, v, U)
    requires forall j | idx < j < |kids| :: kids[j] == t.kids[j]
    ensures BodyWorked(t, w, FastRest(t, kids, idx, result, adv, v), U)
    decreases t, 1
  {
    hide Beside, Worked, RunFrom, HaltFrom, SameShape, Subscribe, KidBoards, UidsFrom;
    WorkedUids(t.kids, w, kids, v, U);
    if result != adv {
      HaltFromBeside(kids, idx + 1, v, U);
      var h := HaltFrom(kids, idx + 1, v);
      WorkedTrans(t.kids, w, kids, v, h.kids, h.w, U);
    } else {
      RunFromBeside(t.kids, idx + 1, |t.kids|, 0, adv, v, U);
      var r := RunFrom(t.kids, idx + 1, |t.kids|, 0, adv, v);
      var all := kids[..idx + 1] + r.kids[idx + 1..];
      WorkedSplice(t.kids, w, kids, v, r.kids, r.w, idx + 1, U);
      WorkedUids(t.kids, w, all, r.w, U);
      HaltFromBeside(all, r.at + 1, r.w, U);
      var h := HaltFrom(all, r.at + 1, r.w);
      WorkedTrans(t.kids, w, all, r.w, h.kids, h.w, U);
      WorkedOwn(t.kids, w, h.kids, h.w, t.info.uid, KidBoards(h.kids, 0), U);
    }
  }

  lemma WorkedSplice(ks: seq<Node>, w: World, ls: seq<Node>, v: World, ms: seq<Node>, z: World, i: nat, U: set<Uid>)
    requires Worked(ks, w, ls, v, U) && Worked(ks, v, ms, z, U) && i <= |ks|
    ensures Worked(ks, w, ls[..i] + ms[i..], z, U)
  {
    hide SameShape, Beside;
    BesideTrans(w, v, z, U);
  }
}
