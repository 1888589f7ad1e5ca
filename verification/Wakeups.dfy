/** Exactly which writes make a reactive node leave its fast path. */
module Wakeups {
  import opened Worlds
  import opened Engine
  import opened Invariants
  import opened Tracking
  import opened Footprints

  // ----- what may happen between two ticks of a node ---------------------------------

  /** Any work on nodes elsewhere, a write from outside, or one of the steps by which an
      ancestor's tick moves from one child to the next. */
  datatype Doing =
    | Ticks(node: Node)
    | Halts(node: Node)
    | Resets(node: Node)
    | Writes(boards: set<Board>)
    | Tells(note: Note)
    | Clock(u: Uid)
    | Listens(u: Uid, boards: set<Board>)
    | Leaves(u: Uid)
    | Flags(u: Uid)
    | Unflags(u: Uid)

  /** The nodes at work. */
  function Doers(d: Doing): set<Uid> {
    match d
    case Ticks(n) => Uids(n)
    case Halts(n) => Uids(n)
    case Resets(n) => Uids(n)
    case Writes(_) => {}
    case Tells(note) => {note.uid}
    case Clock(_) => {}
    case Listens(u, _) => {u}
    case Leaves(u) => {u}
    case Flags(u) => {u}
    case Unflags(u) => {u}
  }

  function Done(w: World, d: Doing): World {
    match d
    case Ticks(n) => Tick(n, w).w
    case Halts(n) => Halt(n, w).w
    case Resets(n) => Reset(n, w).w
    case Writes(boards) => Write(w, boards)
    case Tells(note) => Tell(w, note)
    case Clock(u) => ReadClock(w, u)
    case Listens(u, boards) => Subscribe(w, u, boards)
    case Leaves(u) => Unsubscribe(w, u)
    case Flags(u) => SetDirty(w, u)
    case Unflags(u) => ClearDirty(w, u)
  }

  function DoneAll(w: World, ds: seq<Doing>): World
    decreases |ds|
  {
    if ds == [] then w else DoneAll(Done(w, ds[0]), ds[1..])
  }

  /** Meanwhile something was written to one of these boards, from outside or by user code. */
  ghost predicate Written(w: World, ds: seq<Doing>, boards: set<Board>)
    decreases |ds|
  {
    ds != [] &&
    var v := Done(w, ds[0]);
    (if ds[0].Writes? then ds[0].boards * boards != {} else Heard(v, |w.trace|, boards))
    || Written(v, ds[1..], boards)
  }

  lemma DoneBeside(w: World, d: Doing, U: set<Uid>)
    requires Doers(d) <= U && !d.Writes?
    ensures Beside(w, Done(w, d), U)
  {
    hide Beside, Tick, Halt, Reset;
    match d {
      case Ticks(n) => TickBeside(n, w, U);
      case Halts(n) => HaltBeside(n, w, U);
      case Resets(n) => ResetBeside(n, w, U);
      case Tells(note) => BesideTell(w, note, U);
      case Clock(u) => BesideCall(w, u, Plain, U);
      case Listens(u, boards) => BesideOwn(w, u, boards, U);
      case Leaves(u) => BesideOwn(w, u, {}, U);
      case Flags(u) => BesideOwn(w, u, {}, U);
      case Unflags(u) => BesideOwn(w, u, {}, U);
    }
  }

  /** Whatever others do, a node stays subscribed as it is, stays dirty if it is, and becomes
      dirty exactly when one of its boards is written to. */
  lemma {:induction false} FlagBetweenTicks(w: World, ds: seq<Doing>, x: Uid)
    requires forall d | d in ds :: x !in Doers(d)
    ensures var v := DoneAll(w, ds);
      && (x in v.subs <==> x in w.subs)
      && (x in w.subs ==> v.subs[x] == w.subs[x])
      && (x in v.dirty <==> x in w.dirty || (x in w.subs && Written(w, ds, w.subs[x])))
    decreases |ds|
  {
    hide Tick, Halt, Reset, Heard;
    if ds != [] {
      var v := Done(w, ds[0]);
      assert x !in Doers(ds[0]);
      if !ds[0].Writes? {
        DoneBeside(w, ds[0], Doers(ds[0]));
        assert LeftAt(w, v, x);
      }
      FlagBetweenTicks(v, ds[1..], x);
    }
  }

  // ----- what its own tick hears ------------------------------------------------------

  /** The child at the running index is done, and the fast path goes on past it. */
  predicate GoesPast(t: Node, adv: Final, w: World) {
    TakesFastPath(t, w) &&
    var idx := t.mem.running.value;
    var g := RunFrom(t.kids, 0, idx, idx, adv, w);
    g.result == adv && Tick(t.kids[idx], g.w).node.status != Running
  }

  /** How far into its own tick a reactive node listens: not at all in its first tick; in a
      fast tick until the running child is done; else to the end. */
  function ListensUntil(t: Node, adv: Final, w: World): World {
    if t.status != Running then w
    else if GoesPast(t, adv, w) then
      var idx := t.mem.running.value;
      Tick(t.kids[idx], RunFrom(t.kids, 0, idx, idx, adv, w).w).w
    else TickReactive(t, adv, w).w
  }

  lemma EntryOf(t: Node, w: World)
    requires Inv(t, false) && Ok(t, w, true) && t.info.kind.Reactive? && KidBoards(t.kids, 0) != {}
    ensures t.status == Running <==> t.mem.running.Some?
    ensures t.status == Running <==> t.info.uid in w.subs
    ensures t.info.uid in w.subs ==> w.subs[t.info.uid] == KidBoards(t.kids, 0)
    ensures t.status == Running ==> t.mem.running.value < |t.kids|
  {
    assert EntriesOk(t, t.status == Running, w, true);
  }

  /** Work of the children, seen from their parent. */
  lemma KidsBeside(ks: seq<Node>, w: World, ls: seq<Node>, v: World, u: Uid)
    requires Worked(ks, w, ls, v, UidsFrom(ks, 0)) && u !in UidsFrom(ks, 0)
    ensures LeftAt(w, v, u)
  {}

  lemma FullHears(t: Node, adv: Final, w: World)
    requires Inv(t, false) && Distinct(t) && Ok(t, w, true) && t.info.kind == Reactive(adv)
    requires KidBoards(t.kids, 0) != {} && FullEval(t, 0, adv, w).result == Running
    ensures t.info.uid in FullEval(t, 0, adv, w).w.dirty <==>
      t.status == Running && Heard(FullEval(t, 0, adv, w).w, |w.trace|, KidBoards(t.kids, 0))
  {
    EntryOf(t, w);
    hide Ok, Inv, RunFrom, HaltFrom, Heard, KidBoards;
    var u, U, w1 := t.info.uid, UidsFrom(t.kids, 0), ClearDirty(w, t.info.uid);
    var r := RunFrom(t.kids, 0, |t.kids|, 0, adv, w1);
    RunAndHaltBeside(t.kids, 0, |t.kids|, 0, adv, w1, r.at + 1, U);
    var h := HaltFrom(r.kids, r.at + 1, r.w);
    KidsBeside(t.kids, w1, h.kids, h.w, u);
  }

  /** After a tick that leaves it RUNNING, a reactive node is dirty exactly when one of its
      boards was written to while it listened. */
  lemma OwnTickHears(t: Node, adv: Final, w: World)
    requires Inv(t, false) && Distinct(t) && Ok(t, w, true) && t.info.kind == Reactive(adv)
    requires KidBoards(t.kids, 0) != {} && TickReactive(t, adv, w).result == Running
    ensures t.info.uid in TickReactive(t, adv, w).w.dirty <==>
      Heard(ListensUntil(t, adv, w), |w.trace|, KidBoards(t.kids, 0))
  {
    EntryOf(t, w);
    if !TakesFastPath(t, w) {
      FullHears(t, adv, w);
    } else {
      FastHears(t, adv, w);
    }
  }

  lemma FastHears(t: Node, adv: Final, w: World)
    requires t.info.kind == Reactive(adv) && TakesFastPath(t, w) && t.status == Running
    requires t.info.uid !in UidsFrom(t.kids, 0) && w.subs[t.info.uid] == KidBoards(t.kids, 0)
    requires FastTick(t, adv, w).result == Running
    ensures t.info.uid in FastTick(t, adv, w).w.dirty <==>
      Heard(ListensUntil(t, adv, w), |w.trace|, KidBoards(t.kids, 0))
  {
    hide RunFrom, HaltFrom, Heard, KidBoards, UidsFrom, Tick, FastRest, SameShape;
    var u, U, idx := t.info.uid, UidsFrom(t.kids, 0), t.mem.running.value;
    var g := RunFrom(t.kids, 0, idx, idx, adv, w);
    RunAndHaltBeside(t.kids, 0, idx, idx, adv, w, g.at + 1, U);
    if g.result != adv {
      KidsBeside(t.kids, w, HaltFrom(g.kids, g.at + 1, g.w).kids, HaltFrom(g.kids, g.at + 1, g.w).w, u);
    } else {
      KidWithin(t.kids, 0, idx, U);
      TickBeside(t.kids[idx], g.w, U);
      var s := Tick(t.kids[idx], g.w);
      WorkedAt(t.kids, w, g.kids, g.w, idx, s, U);
      var now := g.kids[idx := s.node];
      KidsBeside(t.kids, w, now, s.w, u);
      if s.node.status != Running {
        RestIsDeaf(t, now, idx, s.node.status, adv, w, s.w);
      }
    }
  }

  /** What the children after the running one write in the same tick goes unheard. */
  lemma RestIsDeaf(t: Node, kids: seq<Node>, idx: nat, result: Final, adv: Final, w: World, v: World)
    requires |kids| == |t.kids| && idx < |t.kids| && Worked(t.kids, w, kids, v, UidsFrom(t.kids, 0))
    requires forall j | idx < j < |kids| :: kids[j] == t.kids[j]
    requires t.info.uid !in UidsFrom(t.kids, 0)
    requires FastRest(t, kids, idx, result, adv, Unsubscribe(v, t.info.uid)).result == Running
    ensures t.info.uid in FastRest(t, kids, idx, result, adv, Unsubscribe(v, t.info.uid)).w.dirty
       <==> t.info.uid in v.dirty
  {
    hide RunFrom, HaltFrom, Heard, KidBoards, UidsFrom, SameShape, Beside;
    var u, U, v1 := t.info.uid, UidsFrom(t.kids, 0), Unsubscribe(v, t.info.uid);
    RunFromBeside(t.kids, idx + 1, |t.kids|, 0, adv, v1, U);
    var r := RunFrom(t.kids, idx + 1, |t.kids|, 0, adv, v1);
    var all := kids[..idx + 1] + r.kids[idx + 1..];
    SplicedUids(t.kids, w, kids, v, v1, r.kids, r.w, idx + 1);
    HaltFromBeside(all, r.at + 1, r.w, U);
    BesideDeaf(v1, r.w, HaltFrom(all, r.at + 1, r.w).w, U, u);
  }

  lemma SplicedUids(ks: seq<Node>, w: World, ls: seq<Node>, v: World, v1: World, ms: seq<Node>, z: World, i: nat)
    requires Worked(ks, w, ls, v, UidsFrom(ks, 0)) && Worked(ks, v1, ms, z, UidsFrom(ks, 0)) && i <= |ks|
    ensures UidsFrom(ls[..i] + ms[i..], 0) <= UidsFrom(ks, 0)
  {
    hide SameShape, Beside;
    var all := ls[..i] + ms[i..];
    assert SameShapes(ks, all);
    ShapeFactsFrom(ks, all, 0);
  }

  /** A node that is not subscribed hears nothing. */
  lemma BesideDeaf(v: World, r: World, h: World, U: set<Uid>, u: Uid)
    requires Beside(v, r, U) && Beside(r, h, U) && u !in U && u !in v.subs
    ensures u !in h.subs && (u in h.dirty <==> u in v.dirty)
  {
    assert LeftAt(v, r, u) && LeftAt(r, h, u);
  }

  // ----- the theorem ---------------------------------------------------------------------

  /** From any state in which a reactive node is RUNNING: whatever others do meanwhile, it then
      takes the fast path exactly when it listens to some board, was not dirty to begin with,
      and none of its boards was written to. */
  lemma WriteBetweenTicks(t: Node, adv: Final, w: World, ds: seq<Doing>)
    requires Inv(t, false) && Ok(t, w, true) && t.info.kind == Reactive(adv) && t.status == Running
    requires forall d | d in ds :: t.info.uid !in Doers(d)
    ensures var v := DoneAll(w, ds); var boards := KidBoards(t.kids, 0);
      && (TakesFastPath(t, v) <==> boards != {} && t.info.uid !in w.dirty && !Written(w, ds, boards))
      && (!TakesFastPath(t, v) ==> TickReactive(t, adv, v) == FullEval(t, 0, adv, v))
  {
    FlagBetweenTicks(w, ds, t.info.uid);
    if KidBoards(t.kids, 0) != {} { EntryOf(t, w); } else { assert EntriesOk(t, true, w, true); }
  }

  /** A reactive node has been ticked and is RUNNING.  Then others are ticked, halted and reset,
      and boards are written to, in any order.  At its next tick it takes the fast path exactly
      when it listens to some board and none of its boards was written to in the meantime: not
      during its own tick, as far as it listened, and not afterwards by anyone. */
  lemma WriteForcesFullEval(t: Node, adv: Final, w: World, ds: seq<Doing>)
    requires Inv(t, false) && Distinct(t) && Ok(t, w, true) && t.info.kind == Reactive(adv)
    requires Tick(t, w).node.status == Running && forall d | d in ds :: t.info.uid !in Doers(d)
    ensures var s := Tick(t, w); var v := DoneAll(s.w, ds); var boards := KidBoards(t.kids, 0);
      && s.node.info == t.info
      && (TakesFastPath(s.node, v) <==>
            && boards != {}
            && !Heard(ListensUntil(t, adv, w), |w.trace|, boards)
            && !Written(s.w, ds, boards))
      && (Heard(ListensUntil(t, adv, w), |w.trace|, boards) || Written(s.w, ds, boards) ==>
            TickReactive(s.node, adv, v) == FullEval(s.node, 0, adv, v))
  {
    var s := Tick(t, w);
    var boards := KidBoards(t.kids, 0);
    assert TickBody(t, w) == TickReactive(t, adv, w);
    assert s.w.dirty == TickReactive(t, adv, w).w.dirty;
    assert s.node.status == TickReactive(t, adv, w).result;
    if boards != {} { OwnTickHears(t, adv, w); }
    hide Tick, TickReactive, ListensUntil, Heard, Written, Tracked, Distinct, KidBoards, TakesFastPath, Ok, Inv;
    TickInv(t, w, false);
    TickTracked(t, w, true);
    TrackedBoards(t, w, s);
    WriteBetweenTicks(s.node, adv, s.w, ds);
    NothingHeard(ListensUntil(t, adv, w), |w.trace|);
  }

  lemma NothingHeard(v: World, since: nat)
    ensures !Heard(v, since, {})
  {}

  lemma TrackedBoards(t: Node, w: World, s: Step)
    requires Tracked(t, w, s, true)
    ensures s.node.info == t.info && Ok(s.node, s.w, true) && KidBoards(s.node.kids, 0) == KidBoards(t.kids, 0)
  {
    ShapeFactsFrom(t.kids, s.node.kids, 0);
  }

  // A ReactiveSequence over two actions, on the fast path at the first.  The first has a board and
  // succeeds now; the second writes to that board and goes on.

  const FIRST := Node(Info(1, Leaf(Action), Some(7)), Running, BLANK, [])
  const SECOND := Node(Info(2, Leaf(Action), None), Idle, BLANK, [])
  const PAIR := Node(Info(0, Reactive(Success), None), Running, BLANK.(running := Some(0)), [FIRST, SECOND])
  const PAIR_ENV :=
    Env((tr, u, h) => if u == 1 then Reply(Success, {}) else Reply(Running, {7}), (tr, u) => {}, tr => 0.0)
  const PAIR_WORLD := World(PAIR_ENV, [], [Ticked(1, Running), Ticked(0, Running)], map[0 := {7}], {})

  /** So a promise fails: the second is reached in the tick in which the first finishes, writes to
      a board of its parent's and is RUNNING, and the parent's next tick is on the fast path all
      the same. */
  lemma WriteBehindGoesUnheard()
    ensures var s := Tick(PAIR, PAIR_WORLD);
      && Inv(PAIR, true) && Ok(PAIR, PAIR_WORLD, true) && s.node.status == Running
      && KidBoards(PAIR.kids, 0) == {7} && Heard(s.w, 0, {7}) && TakesFastPath(s.node, s.w)
  {
    var x := Tick(FIRST, PAIR_WORLD);
    var y := Tick(SECOND, Unsubscribe(x.w, 0));
    PairInv();
    PairOk();
    LeafTick(FIRST, PAIR_WORLD);
    LeafTick(SECOND, Unsubscribe(x.w, 0));
    assert y.w.trace[..1] == x.w.trace == [Called(1, Plain, Success)];
    assert Wrote(PAIR_ENV, y.w.trace, 1) == {7};
    hide Tick, Inv, TickReactive, Ok;
    TwoKidsGoOn(PAIR, Success, PAIR_WORLD);
    TwoBoards(FIRST, SECOND);
    TwoBoards(x.node, y.node);
    assert TickBody(PAIR, PAIR_WORLD) == TickReactive(PAIR, Success, PAIR_WORLD);
    TickIs(PAIR, PAIR_WORLD);
  }

  lemma PairInv()
    ensures Inv(PAIR, true)
  {
    assert Inv(FIRST, true) && Inv(SECOND, true);
    assert InvAll(PAIR.kids, true);
  }

  lemma PairOk()
    ensures Ok(PAIR, PAIR_WORLD, true)
  {
    var notes := PAIR_WORLD.notes;
    assert notes[..1] == [Ticked(1, Running)] && notes[..1][..0] == [];
    assert RunningSet(notes) == {0, 1};
    TwoBoards(FIRST, SECOND);
    assert Ok(FIRST, PAIR_WORLD, true) && Ok(SECOND, PAIR_WORLD, true);
    assert SubOk(PAIR, true, PAIR_WORLD, true);
  }

  lemma TwoBoards(a: Node, b: Node)
    requires a.info.board == Some(7) && b.info.board == None && a.kids == [] && b.kids == []
    ensures KidBoards([a, b], 0) == {7}
  {
    var ks := [a, b];
    assert Boards(a) == {7} && Boards(b) == {};
    assert KidBoards(ks, 2) == {} && KidBoards(ks, 1) == Boards(ks[1]);
    assert KidBoards(ks, 0) == Boards(ks[0]) + KidBoards(ks, 1);
  }

  /** On the fast path over two children, the first done and the second RUNNING now. */
  lemma TwoKidsGoOn(t: Node, adv: Final, w: World)
    requires |t.kids| == 2 && t.mem.running == Some(0) && TakesFastPath(t, w)
    requires var x := Tick(t.kids[0], w); var y := Tick(t.kids[1], Unsubscribe(x.w, t.info.uid));
      x.node.status == adv && y.node.status == Running
    ensures var x := Tick(t.kids[0], w); var y := Tick(t.kids[1], Unsubscribe(x.w, t.info.uid));
      var all := [x.node, y.node];
      TickReactive(t, adv, w) == Body(t.(kids := all, mem := t.mem.(running := Some(1))), Running,
                                      Subscribe(y.w, t.info.uid, KidBoards(all, 0)))
  {
    hide Tick, KidBoards, Subscribe;
    var x := Tick(t.kids[0], w);
    var v := Unsubscribe(x.w, t.info.uid);
    var y := Tick(t.kids[1], v);
    var now := t.kids[0 := x.node];
    assert RunFrom(t.kids, 0, 0, 0, adv, w) == Run(t.kids, 0, adv, w);
    var r := RunFrom(t.kids, 1, 2, 0, adv, v);
    assert r == Run(t.kids[1 := y.node], 1, Running, y.w);
    assert now[..1] + r.kids[1..] == [x.node, y.node];
    assert HaltFrom([x.node, y.node], 2, y.w) == StepAll([x.node, y.node], y.w);
    assert TickReactive(t, adv, w) == FastTick(t, adv, w) == FastRest(t, now, 0, adv, adv, v);
  }
}
