/** Theorems about whole runs, all read off the bisimulation: resting trees are as good as
    new, and De Morgan duality. */
module Runs {
  import opened Worlds
  import opened Engine
  import opened Invariants
  import opened Simulation

  // ----- runs -----------------------------------------------------------------

  /** What may happen to a tree: a tick, a halt, a write to some boards from outside. */
  datatype Op = TickOp | HaltOp | WriteOp(boards: set<Board>)

  /** The end of a run, and what each of its ticks returned. */
  datatype Outcome = Outcome(node: Node, w: World, results: seq<Status>)

  function Perform(t: Node, w: World, op: Op): Step {
    match op
    case TickOp => Tick(t, w)
    case HaltOp => Halt(t, w)
    case WriteOp(boards) => Step(t, Write(w, boards))
  }

  function Go(t: Node, w: World, ops: seq<Op>): Outcome
    decreases |ops|
  {
    if ops == [] then Outcome(t, w, [])
    else
      var s := Perform(t, w, ops[0]);
      var rest := Go(s.node, s.w, ops[1..]);
      if ops[0] == TickOp then rest.(results := [s.node.status] + rest.results) else rest
  }

  lemma PerformInv(t: Node, w: World, op: Op, strict: bool)
    requires Inv(t, strict)
    ensures Inv(Perform(t, w, op).node, strict)
  {
    TickInv(t, w, strict);
    HaltInv(t, w, strict);
  }

  /** On any run, from any state that satisfies the invariant, IDLE stays closed downward and
      RUNNING upward at every node. */
  lemma {:induction false} RunInv(t: Node, w: World, ops: seq<Op>, strict: bool)
    requires Inv(t, strict)
    ensures Inv(Go(t, w, ops).node, strict)
    decreases |ops|
  {
    if ops != [] {
      PerformInv(t, w, ops[0], strict);
      var s := Perform(t, w, ops[0]);
      RunInv(s.node, s.w, ops[1..], strict);
    }
  }

  lemma AgreeWrite(w: World, v: World, E: Scope, D: set<Uid>, boards: set<Board>)
    requires Agree(w, v, E, D)
    ensures Agree(Write(w, boards), Write(v, boards), E, D)
  {
    forall x | x !in E.hidden ensures AgreeAt(Write(w, boards), Write(v, boards), x, x in D) {
      assert AgreeAt(w, v, x, x in D);
    }
  }

  /** Matching trees answer every run with the same statuses and the same calls. */
  lemma {:induction false} SameRuns(t: Node, u: Node, w: World, v: World, E: Scope, ops: seq<Op>)
    requires Sim(t, u, E) && Inv(t, false) && Inv(u, false) && Agree(w, v, E, {})
    ensures Go(t, w, ops).results == Go(u, v, ops).results
    ensures Go(t, w, ops).w.trace == Go(u, v, ops).w.trace
    decreases |ops|
  {
    hide Sim, Inv, Tick, Halt, Write;
    if ops == [] {
    } else {
      hide Agree;
      PerformInv(t, w, ops[0], false);
      PerformInv(u, v, ops[0], false);
      match ops[0] {
        case TickOp => TickSim(t, u, w, v, E, {});
        case HaltOp => HaltSim(t, u, w, v, E, {});
        case WriteOp(boards) => AgreeWrite(w, v, E, {}, boards);
      }
      var a, b := Perform(t, w, ops[0]), Perform(u, v, ops[0]);
      SameRuns(a.node, b.node, a.w, b.w, E, ops[1..]);
    }
  }

  // ----- resting trees are as good as new ----------------------------------------

  /** No RateController in the tree replays an old result. */
  ghost predicate CachesEmpty(t: Node) {
    (t.info.kind.Rate? ==> t.mem.cache.None?) && forall i | 0 <= i < |t.kids| :: CachesEmpty(t.kids[i])
  }

  function ReactiveUids(t: Node): set<Uid> {
    (if t.info.kind.Reactive? then {t.info.uid} else {})
    + set i, x | 0 <= i < |t.kids| && x in ReactiveUids(t.kids[i]) :: x
  }

  lemma {:induction false} FreshSim(t: Node)
    requires Inv(t, false) && !On(t) && CachesEmpty(t)
    ensures Sim(t, Fresh(t), EVERYWHERE) && ArityAll(t)
  {
    forall i | 0 <= i < |t.kids| ensures Pair(t.kids[i], Fresh(t).kids[i], false, EVERYWHERE) && ArityAll(t.kids[i]) {
      FreshSim(t.kids[i]);
    }
    assert Core(t, Fresh(t), false, EVERYWHERE);
  }

  /** The world as a newly built copy of `t` finds it: every reactive node starts out dirty. */
  function AsNew(w: World, t: Node): World {
    w.(dirty := w.dirty + ReactiveUids(t))
  }

  /** A tree whose root is not RUNNING, whatever it has been through, answers every later run
      with the statuses and the calls of a newly built copy. */
  lemma RestingTreesAreFresh(t: Node, w: World, ops: seq<Op>)
    requires Inv(t, false) && t.status != Running && CachesEmpty(t)
    requires ReactiveUids(t) !! w.subs.Keys
    ensures var run := Go(t, w, ops); var new_ := Go(Fresh(t), AsNew(w, t), ops);
      run.results == new_.results && run.w.trace == new_.w.trace
  {
    FreshSim(t);
    FreshInv(t, false);
    forall x ensures AgreeAt(w, AsNew(w, t), x, false) {}
    SameRuns(t, Fresh(t), w, AsNew(w, t), EVERYWHERE, ops);
  }

  /** A RateController asks its child again: it has no cached result, or the period is over. */
  predicate Polls(t: Node, w: World, period: real) {
    t.mem.cache.None? || Now(w) - t.mem.cache.value.at >= period
  }

  /** A resting RateController need not be as good as new: this one answers SUCCESS without
      ticking its child, which a new copy would tick. */
  lemma RestingRateReplays()
    ensures var kid := Node(Info(2, Leaf(Action), None), Success, BLANK, []);
      var t := Node(Info(1, Rate(1.0), None), Success, BLANK.(cache := Some(Cached(0.0, Success))), [kid]);
      var w := World(Env((tr, u, h) => Reply(Failure, {}), (tr, u) => {}, tr => 0.5), [], [], map[], {});
      && Inv(t, true) && t.status != Running
      && Tick(t, w).node.status == Success && Tick(Fresh(t), w).node.status == Failure
  {
    var kid := Node(Info(2, Leaf(Action), None), Success, BLANK, []);
    var t := Node(Info(1, Rate(1.0), None), Success, BLANK.(cache := Some(Cached(0.0, Success))), [kid]);
    var w := World(Env((tr, u, h) => Reply(Failure, {}), (tr, u) => {}, tr => 0.5), [], [], map[], {});
    assert Inv(kid, true) && CachesEmpty(kid);
    assert Inv(t, true) by { assert InvAll(t.kids, true); }
    var f := Fresh(t);
    var k := Node(kid.info, Idle, BLANK, []);
    assert Fresh(kid) == k && f.kids == [k];
    assert TickBody(t, w) == TickDecorator(t, w) == TickRate(t, 1.0, w);
    assert TickBody(f, w) == TickDecorator(f, w) == TickRate(f, 1.0, w);
    var w1 := ReadClock(w, 1);
    assert TickBody(k, w1) == TickLeaf(k, Action, w1);
    assert CallReply(w1, 2, Plain).result == Failure;
    assert Tick(k, w1).node.status == Failure;
    assert TickRate(f, 1.0, w).result == Failure;
    assert Now(w) == 0.5;
    assert TickRate(t, 1.0, w).result == Success;
  }

  // ----- De Morgan duality ---------------------------------------------------------

  function Invert(uid: Uid, t: Node): Node {
    Node(Info(uid, INVERTER, None), Idle, BLANK, [t])
  }

  /** A newly built copy of `t` in which every picked sequence or fallback, reactive or not, is
      replaced by an Inverter over its dual over Inverters.  `name` gives the wrappers' uids. */
  function Rebuild(t: Node, pick: Info -> bool, name: (Uid, bool) -> Uid): Node {
    var kids := seq(|t.kids|, i requires 0 <= i < |t.kids| => Rebuild(t.kids[i], pick, name));
    if Dualizable(t.info.kind) && pick(t.info) then
      Invert(name(t.info.uid, true), Node(t.info.(kind := Dual(t.info.kind)), Idle, BLANK,
        seq(|kids|, i requires 0 <= i < |kids| => Invert(name(t.kids[i].info.uid, false), kids[i]))))
    else
      Node(t.info, Idle, BLANK, kids)
  }

  lemma InvertInv(uid: Uid, t: Node)
    requires Inv(t, true) && t.status == Idle
    ensures Inv(Invert(uid, t), true)
  {
    assert InvAll([t], true);
  }

  lemma {:induction false} RebuildSim(t: Node, pick: Info -> bool, name: (Uid, bool) -> Uid)
    requires Inv(t, false) && !On(t) && CachesEmpty(t)
    ensures Sim(t, Rebuild(t, pick, name), EVERYWHERE)
    ensures Inv(Rebuild(t, pick, name), true) && Rebuild(t, pick, name).status == Idle
  {
    var kids := seq(|t.kids|, i requires 0 <= i < |t.kids| => Rebuild(t.kids[i], pick, name));
    forall i | 0 <= i < |t.kids|
      ensures Sim(t.kids[i], kids[i], EVERYWHERE) && Inv(kids[i], true) && kids[i].status == Idle
    {
      RebuildSim(t.kids[i], pick, name);
    }
    if Dualizable(t.info.kind) && pick(t.info) {
      DualSim(t, kids, name);
    } else {
      assert Core(t, Node(t.info, Idle, BLANK, kids), false, EVERYWHERE);
      assert InvAll(kids, true);
    }
  }

  lemma DualSim(t: Node, kids: seq<Node>, name: (Uid, bool) -> Uid)
    requires Inv(t, false) && !On(t) && Dualizable(t.info.kind) && |kids| == |t.kids|
    requires forall i | 0 <= i < |kids| ::
      Sim(t.kids[i], kids[i], EVERYWHERE) && Inv(kids[i], true) && kids[i].status == Idle
    ensures var ls := seq(|kids|, i requires 0 <= i < |kids| => Invert(name(t.kids[i].info.uid, false), kids[i]));
      var s := Node(t.info.(kind := Dual(t.info.kind)), Idle, BLANK, ls);
      var u := Invert(name(t.info.uid, true), s);
      Sim(t, u, EVERYWHERE) && Inv(u, true)
  {
    var ls := seq(|kids|, i requires 0 <= i < |kids| => Invert(name(t.kids[i].info.uid, false), kids[i]));
    var s := Node(t.info.(kind := Dual(t.info.kind)), Idle, BLANK, ls);
    forall i | 0 <= i < |ls|
      ensures Pair(t.kids[i], ls[i], true, EVERYWHERE) && Inv(ls[i], true) && ls[i].status == Idle
    {
      InvertInv(name(t.kids[i].info.uid, false), kids[i]);
    }
    assert Core(t, s, true, EVERYWHERE);
    assert InvAll(ls, true) && Inv(s, true);
    InvertInv(name(t.info.uid, true), s);
  }

  /** De Morgan, at any choice of nodes at once and over every run: the rebuilt tree returns the
      same status at each tick and makes the same calls, halts included, in the same order. */
  lemma DualityOverRuns(t: Node, pick: Info -> bool, name: (Uid, bool) -> Uid, w: World, ops: seq<Op>)
    requires Inv(t, false) && t.status != Running && CachesEmpty(t)
    ensures var run := Go(t, w, ops); var dual := Go(Rebuild(t, pick, name), w, ops);
      run.results == dual.results && run.w.trace == dual.w.trace
  {
    var u := Rebuild(t, pick, name);
    RebuildSim(t, pick, name);
    StrictInv(u);
    forall x ensures AgreeAt(w, w, x, false) {}
    SameRuns(t, u, w, w, EVERYWHERE, ops);
  }

  lemma {:induction false} StrictInv(t: Node)
    requires Inv(t, true)
    ensures Inv(t, false)
  {
    forall i | 0 <= i < |t.kids| ensures Inv(t.kids[i], false) { StrictInv(t.kids[i]); }
  }

  predicate IsOf(info: Info, adv: Final) { info.kind == Memory(adv) || info.kind == Reactive(adv) }

  /** No Sequence in the tree, reactive or not, if `adv` is SUCCESS; no Fallback, if it is FAILURE. */
  ghost predicate FreeOf(t: Node, adv: Final) {
    !IsOf(t.info, adv) && forall i | 0 <= i < |t.kids| :: FreeOf(t.kids[i], adv)
  }

  lemma InvertFreeOf(uid: Uid, t: Node, adv: Final)
    requires FreeOf(t, adv)
    ensures FreeOf(Invert(uid, t), adv)
  {}

  /** Either pair is definable by the other: rebuilt with every Fallback picked, no Fallback is left,
      and rebuilt with every Sequence picked, no Sequence. */
  lemma {:induction false} EitherIsDefinable(t: Node, adv: Final, name: (Uid, bool) -> Uid)
    ensures FreeOf(Rebuild(t, info => IsOf(info, adv), name), adv)
  {
    var pick := info => IsOf(info, adv);
    var kids := seq(|t.kids|, i requires 0 <= i < |t.kids| => Rebuild(t.kids[i], pick, name));
    forall i | 0 <= i < |t.kids| ensures FreeOf(kids[i], adv) {
      EitherIsDefinable(t.kids[i], adv, name);
    }
    var u := Rebuild(t, pick, name);
    if IsOf(t.info, adv) {
      var s := u.kids[0];
      forall i | 0 <= i < |kids| ensures FreeOf(s.kids[i], adv) {
        assert s.kids[i] == Invert(name(t.kids[i].info.uid, false), kids[i]);
        InvertFreeOf(name(t.kids[i].info.uid, false), kids[i], adv);
      }
      InvertFreeOf(name(t.info.uid, true), s, adv);
    } else {
      assert u.kids == kids;
    }
  }
}
