/** A bisimulation between trees: what may differ between two trees that cannot be told
    apart by any run.  Two things may: whatever a resting node has left over from earlier
    activations, and the De Morgan dual form of sequences and fallbacks. */
module Simulation {
  import opened Worlds
  import opened Engine
  import opened Invariants

  // ----- worlds that look the same to a tree ----------------------------------

  /** What a comparison ignores and demands: reactive nodes `hidden` from both trees may be
      subscribed differently; `exact` asks for equal states, not just equivalent ones. */
  datatype Scope = Scope(hidden: set<Uid>, exact: bool)

  const EVERYWHERE := Scope({}, false)

  /** Same calls so far, and the same subscriptions outside `E.hidden`.  Dirty flags agree where a
      node is subscribed, and on `D`; elsewhere no node ever looks at them.  What the
      Inspector was told may differ. */
  ghost predicate Agree(w: World, v: World, E: Scope, D: set<Uid>) {
    && w.env == v.env
    && w.trace == v.trace
    && (forall x | x !in E.hidden :: AgreeAt(w, v, x, x in D))
  }

  ghost predicate AgreeAt(w: World, v: World, x: Uid, always: bool) {
    && (x in w.subs <==> x in v.subs)
    && (x in w.subs ==> w.subs[x] == v.subs[x])
    && (always || x in w.subs ==> (x in w.dirty <==> x in v.dirty))
  }

  lemma AgreeCall(w: World, v: World, E: Scope, D: set<Uid>, u: Uid, hook: Hook)
    requires Agree(w, v, E, D)
    ensures CallReply(w, u, hook) == CallReply(v, u, hook)
    ensures Agree(Call(w, u, hook), Call(v, u, hook), E, D)
  {
    forall x | x !in E.hidden ensures AgreeAt(Call(w, u, hook), Call(v, u, hook), x, x in D) {
      assert AgreeAt(w, v, x, x in D);
    }
  }

  lemma AgreeHalted(w: World, v: World, E: Scope, D: set<Uid>, u: Uid)
    requires Agree(w, v, E, D)
    ensures Agree(CallHalted(w, u), CallHalted(v, u), E, D)
  {
    forall x | x !in E.hidden ensures AgreeAt(CallHalted(w, u), CallHalted(v, u), x, x in D) {
      assert AgreeAt(w, v, x, x in D);
    }
  }

  lemma AgreeQuiet(w: World, v: World, E: Scope, D: set<Uid>, u: Uid, boards: set<Board>)
    requires Agree(w, v, E, D)
    ensures Now(w) == Now(v)
    ensures Agree(ReadClock(w, u), ReadClock(v, u), E, D)
    ensures Agree(Unsubscribe(w, u), Unsubscribe(v, u), E, D)
    ensures Agree(SetDirty(w, u), SetDirty(v, u), E, D)
    ensures Agree(ClearDirty(w, u), ClearDirty(v, u), E, D + {u})
    ensures u !in E.hidden && u in D ==> Agree(Subscribe(w, u, boards), Subscribe(v, u, boards), E, D)
  {
    forall x | x !in E.hidden
      ensures AgreeAt(ReadClock(w, u), ReadClock(v, u), x, x in D)
      ensures AgreeAt(Unsubscribe(w, u), Unsubscribe(v, u), x, x in D)
      ensures AgreeAt(SetDirty(w, u), SetDirty(v, u), x, x in D)
      ensures AgreeAt(ClearDirty(w, u), ClearDirty(v, u), x, x in D + {u})
      ensures u !in E.hidden && u in D ==> AgreeAt(Subscribe(w, u, boards), Subscribe(v, u, boards), x, x in D)
    {
      assert AgreeAt(w, v, x, x in D);
      if u !in E.hidden { assert AgreeAt(w, v, u, u in D); }
    }
  }

  lemma AgreeTell(w: World, v: World, E: Scope, D: set<Uid>, a: Note, b: Note)
    requires Agree(w, v, E, D)
    ensures Agree(Tell(w, a), Tell(v, b), E, D) && Agree(w, Tell(v, b), E, D)
  {
    forall x | x !in E.hidden
      ensures AgreeAt(Tell(w, a), Tell(v, b), x, x in D) && AgreeAt(w, Tell(v, b), x, x in D)
    {
      assert AgreeAt(w, v, x, x in D);
    }
  }

  lemma AgreeLess(w: World, v: World, E: Scope, D: set<Uid>, D': set<Uid>)
    requires Agree(w, v, E, D) && D' <= D
    ensures Agree(w, v, E, D')
  {
    forall x | x !in E.hidden ensures AgreeAt(w, v, x, x in D') {
      assert AgreeAt(w, v, x, x in D);
    }
  }

  /** A subscribed node's flag agrees, so it may be added to `D`. */
  lemma AgreeMore(w: World, v: World, E: Scope, D: set<Uid>, u: Uid)
    requires Agree(w, v, E, D) && u !in E.hidden && u in w.subs
    ensures u in v.subs && (u in w.dirty <==> u in v.dirty)
    ensures Agree(w, v, E, D + {u})
  {
    forall x | x !in E.hidden ensures AgreeAt(w, v, x, x in D + {u}) {
      assert AgreeAt(w, v, x, x in D);
    }
    assert AgreeAt(w, v, u, u in D);
  }

  // ----- trees that behave the same -------------------------------------------

  predicate On(t: Node) { t.status == Running }

  predicate IsInverter(u: Node) {
    u.info.kind == INVERTER && u.info.board.None? && |u.kids| == 1
  }

  predicate Dualizable(k: Kind) { k.Memory? || k.Reactive? }

  function Dual(k: Kind): Kind {
    match k
    case Memory(adv) => Memory(Other(adv))
    case Reactive(adv) => Reactive(Other(adv))
    case _ => k
  }

  function Flip(r: Result, flip: bool): Result { if flip then Opposite(r) else r }

  /** The fields a node will look at again before it overwrites them. */
  ghost predicate FieldsMatch(k: Kind, on: bool, m: Fields, n: Fields) {
    match k
    case Memory(_) => on ==> m.cursor == n.cursor
    case Reactive(_) => on ==> m.running == n.running
    case Retry(_) => on ==> m.attempts == n.attempts
    case Timeout(_) => on ==> m.started == n.started
    case Rate(_) => m.cache == n.cache
    case _ => true
  }

  /** `t` and `u` behave the same: same node over matching children, or `u` is the inverted
      dual of `t` over inverted children.  No reactive node of `t` is hidden. */
  ghost predicate Sim(t: Node, u: Node, E: Scope)
    decreases t, 1
  {
    Core(t, u, false, E)
    || (!E.exact && Dualizable(t.info.kind) && IsInverter(u) && (On(t) <==> On(u)) && Core(t, u.kids[0], true, E))
  }

  /** Same node (`flip`: its dual) over matching children (`flip`: inverted ones). */
  ghost predicate Core(t: Node, s: Node, flip: bool, E: Scope)
    decreases t, 0
  {
    && s.info == (if flip then t.info.(kind := Dual(t.info.kind)) else t.info)
    && (flip ==> Dualizable(t.info.kind))
    && (E.exact ==> !flip && t.status == s.status && t.mem == s.mem)
    && (t.info.kind.Reactive? ==> t.info.uid !in E.hidden)
    && (On(t) <==> On(s))
    && FieldsMatch(t.info.kind, On(t), t.mem, s.mem)
    && |t.kids| == |s.kids|
    && (forall j | 0 <= j < |t.kids| :: Pair(t.kids[j], s.kids[j], flip, E))
    && (t.info.kind.Parallel? && On(t) ==> forall j | 0 <= j < |t.kids| :: t.kids[j].status == s.kids[j].status)
  }

  ghost predicate Pair(k: Node, l: Node, flip: bool, E: Scope)
    decreases k, 2
  {
    if flip then IsInverter(l) && (On(k) <==> On(l)) && Sim(k, l.kids[0], E) else Sim(k, l, E)
  }

  ghost predicate Pairs(ks: seq<Node>, ls: seq<Node>, flip: bool, E: Scope) {
    |ks| == |ls| && forall j | 0 <= j < |ks| :: Pair(ks[j], ls[j], flip, E)
  }

  ghost predicate SameStatus(ks: seq<Node>, ls: seq<Node>) {
    |ks| == |ls| && forall j | 0 <= j < |ks| :: ks[j].status == ls[j].status
  }

  // ----- what never changes: guards and boards --------------------------------

  lemma InverterStatic(u: Node)
    requires IsInverter(u)
    ensures IsGuard(u) == IsGuard(u.kids[0]) && Boards(u) == Boards(u.kids[0])
  {
    assert KidBoards(u.kids, 1) == {};
    assert KidBoards(u.kids, 0) == Boards(u.kids[0]) + KidBoards(u.kids, 1);
  }

  lemma {:induction false} SimStatic(t: Node, u: Node, E: Scope)
    requires Sim(t, u, E)
    ensures IsGuard(t) == IsGuard(u) && Boards(t) == Boards(u)
    decreases t, 1
  {
    if Core(t, u, false, E) {
      CoreStatic(t, u, false, E);
    } else {
      CoreStatic(t, u.kids[0], true, E);
      InverterStatic(u);
    }
  }

  lemma {:induction false} CoreStatic(t: Node, s: Node, flip: bool, E: Scope)
    requires Core(t, s, flip, E)
    ensures IsGuard(t) == IsGuard(s) && Boards(t) == Boards(s)
    ensures KidBoards(t.kids, 0) == KidBoards(s.kids, 0)
    decreases t, 0
  {
    forall j | 0 <= j < |t.kids| ensures IsGuard(t.kids[j]) == IsGuard(s.kids[j]) {
      PairStatic(t.kids[j], s.kids[j], flip, E);
    }
    KidBoardsMatch(t.kids, s.kids, 0, flip, E);
  }

  lemma {:induction false} PairStatic(k: Node, l: Node, flip: bool, E: Scope)
    requires Pair(k, l, flip, E)
    ensures IsGuard(k) == IsGuard(l) && Boards(k) == Boards(l)
    decreases k, 2
  {
    if flip {
      SimStatic(k, l.kids[0], E);
      InverterStatic(l);
    } else {
      SimStatic(k, l, E);
    }
  }

  lemma {:induction false} KidBoardsMatch(ks: seq<Node>, ls: seq<Node>, i: nat, flip: bool, E: Scope)
    requires Pairs(ks, ls, flip, E) && i <= |ks|
    ensures KidBoards(ks, i) == KidBoards(ls, i)
    decreases ks, |ks| - i
  {
    if i < |ks| {
      PairStatic(ks[i], ls[i], flip, E);
      KidBoardsMatch(ks, ls, i + 1, flip, E);
    }
  }

  // ----- halt and reset ---------------------------------------------------------

  lemma InverterHalt(l: Node, w: World)
    requires IsInverter(l)
    ensures var w1 := if On(l) then Tell(w, Stopped(l.info.uid)) else w;
      var h := Halt(l.kids[0], w1);
      Halt(l, w) == Step(Node(l.info, Idle, l.mem, [h.node]), h.w)
  {
    var w1 := if On(l) then Tell(w, Stopped(l.info.uid)) else w;
    var h := Halt(l.kids[0], w1);
    assert HaltFrom(l.kids, 1, h.w) == StepAll(l.kids, h.w);
    assert l.kids[0 := h.node] == [h.node];
  }

  lemma {:induction false} HaltSim(t: Node, u: Node, w: World, v: World, E: Scope, D: set<Uid>)
    requires Sim(t, u, E) && Inv(t, false) && Inv(u, false) && Agree(w, v, E, D)
    ensures Sim(Halt(t, w).node, Halt(u, v).node, E) && Agree(Halt(t, w).w, Halt(u, v).w, E, D)
    decreases t, 1
  {
    hide Agree;
    if Core(t, u, false, E) {
      HaltCore(t, u, false, w, v, E, D);
    } else {
      InverterHalt(u, v);
      var v1 := if On(u) then Tell(v, Stopped(u.info.uid)) else v;
      AgreeTell(w, v, E, D, Stopped(u.info.uid), Stopped(u.info.uid));
      HaltCore(t, u.kids[0], true, w, v1, E, D);
      HaltInv(t, w, false);
    }
  }

  lemma {:induction false} PairHalt(k: Node, l: Node, flip: bool, w: World, v: World, E: Scope, D: set<Uid>)
    requires Pair(k, l, flip, E) && Inv(k, false) && Inv(l, false) && Agree(w, v, E, D)
    ensures Pair(Halt(k, w).node, Halt(l, v).node, flip, E) && Agree(Halt(k, w).w, Halt(l, v).w, E, D)
    decreases k, 2
  {
    hide Agree, Core;
    if flip {
      InverterHalt(l, v);
      var v1 := if On(l) then Tell(v, Stopped(l.info.uid)) else v;
      AgreeTell(w, v, E, D, Stopped(l.info.uid), Stopped(l.info.uid));
      HaltSim(k, l.kids[0], w, v1, E, D);
      HaltInv(k, w, false);
    } else {
      HaltSim(k, l, w, v, E, D);
    }
  }

  lemma {:induction false} HaltCore(t: Node, s: Node, flip: bool, w: World, v: World, E: Scope, D: set<Uid>)
    requires Core(t, s, flip, E) && Inv(t, false) && Inv(s, false) && Agree(w, v, E, D)
    ensures Core(Halt(t, w).node, Halt(s, v).node, flip, E) && Agree(Halt(t, w).w, Halt(s, v).w, E, D)
    decreases t, 0
  {
    hide Agree;
    var w1 := if On(t) then Tell(OnHaltWorld(t, w), Stopped(t.info.uid)) else w;
    var v1 := if On(s) then Tell(OnHaltWorld(s, v), Stopped(s.info.uid)) else v;
    OnHaltAgree(t, s, w, v, E, D);
    AgreeTell(OnHaltWorld(t, w), OnHaltWorld(s, v), E, D, Stopped(t.info.uid), Stopped(s.info.uid));
    assert Agree(w1, v1, E, D);
    assert Pairs(t.kids, s.kids, flip, E);
    if t.info.kind.Parallel? {
      assert SameStatus(t.kids, s.kids);
      ClearKidsPairs(t.kids, s.kids, w1, v1, E, D);
    } else {
      HaltFromPairs(t.kids, s.kids, 0, flip, w1, v1, E, D);
    }
    CoreHalted(t, s, flip, E, Halt(t, w).node.kids, Halt(s, v).node.kids);
  }

  function HaltFields(t: Node): Fields {
    var m := if t.status == Running then OnHaltFields(t) else t.mem;
    if t.info.kind.Memory? then m.(cursor := 0) else m
  }

  lemma CoreHalted(t: Node, s: Node, flip: bool, E: Scope, ks: seq<Node>, ls: seq<Node>)
    requires Core(t, s, flip, E) && Inv(t, false) && Inv(s, false)
    requires |ks| == |t.kids| && |ls| == |s.kids| && Pairs(ks, ls, flip, E)
    ensures Core(Node(t.info, Idle, HaltFields(t), ks), Node(s.info, Idle, HaltFields(s), ls), flip, E)
  {
    hide Pair;
  }

  lemma OnHaltAgree(t: Node, s: Node, w: World, v: World, E: Scope, D: set<Uid>)
    requires s.info.uid == t.info.uid && (s.info.kind == t.info.kind || s.info.kind == Dual(t.info.kind))
    requires Agree(w, v, E, D)
    ensures Agree(OnHaltWorld(t, w), OnHaltWorld(s, v), E, D)
  {
    AgreeHalted(w, v, E, D, t.info.uid);
    AgreeQuiet(w, v, E, D, t.info.uid, {});
  }

  lemma {:induction false} HaltFromPairs(ks: seq<Node>, ls: seq<Node>, i: nat, flip: bool, w: World, v: World,
        E: Scope, D: set<Uid>)
    requires Pairs(ks, ls, flip, E) && InvAll(ks, false) && InvAll(ls, false) && Agree(w, v, E, D)
    ensures Pairs(HaltFrom(ks, i, w).kids, HaltFrom(ls, i, v).kids, flip, E)
    ensures Agree(HaltFrom(ks, i, w).w, HaltFrom(ls, i, v).w, E, D)
    decreases ks, |ks| - i
  {
    hide Agree, Pair, Inv, Halt;
    if i < |ks| {
      PairHalt(ks[i], ls[i], flip, w, v, E, D);
      HaltFromPairs(ks, ls, i + 1, flip, Halt(ks[i], w).w, Halt(ls[i], v).w, E, D);
    }
  }

  lemma {:induction false} HaltRunningPairs(ks: seq<Node>, ls: seq<Node>, i: nat, w: World, v: World, E: Scope,
        D: set<Uid>)
    requires Pairs(ks, ls, false, E) && InvAll(ks, false) && InvAll(ls, false) && Agree(w, v, E, D)
    requires SameStatus(ks, ls)
    ensures Pairs(HaltRunning(ks, i, w).kids, HaltRunning(ls, i, v).kids, false, E)
    ensures SameStatus(HaltRunning(ks, i, w).kids, HaltRunning(ls, i, v).kids)
    ensures Agree(HaltRunning(ks, i, w).w, HaltRunning(ls, i, v).w, E, D)
    decreases ks, |ks| - i
  {
    hide Agree, Pair, Inv, Halt;
    if i < |ks| {
      if On(ks[i]) {
        PairHalt(ks[i], ls[i], false, w, v, E, D);
        HaltInv(ks[i], w, false);
        HaltInv(ls[i], v, false);
        HaltRunningPairs(ks, ls, i + 1, Halt(ks[i], w).w, Halt(ls[i], v).w, E, D);
      } else {
        HaltRunningPairs(ks, ls, i + 1, w, v, E, D);
      }
    }
  }

  lemma InverterReset(l: Node, w: World)
    requires IsInverter(l)
    ensures var h := Reset(l.kids[0], w);
      Reset(l, w) == Step(Node(l.info, Idle, l.mem, [h.node]), h.w)
  {
    var h := Reset(l.kids[0], w);
    assert ResetFrom(l.kids, 1, h.w) == StepAll(l.kids, h.w);
    assert l.kids[0 := h.node] == [h.node];
  }

  lemma {:induction false} ResetSim(t: Node, u: Node, w: World, v: World, E: Scope, D: set<Uid>)
    requires Sim(t, u, E) && Inv(t, false) && Inv(u, false) && Agree(w, v, E, D) && !On(t)
    ensures Sim(Reset(t, w).node, Reset(u, v).node, E) && Agree(Reset(t, w).w, Reset(u, v).w, E, D)
    decreases t, 1
  {
    hide Agree;
    if Core(t, u, false, E) {
      ResetCore(t, u, false, w, v, E, D);
    } else {
      InverterReset(u, v);
      ResetCore(t, u.kids[0], true, w, v, E, D);
      ResetInv(t, w, false);
    }
  }

  lemma {:induction false} PairReset(k: Node, l: Node, flip: bool, w: World, v: World, E: Scope, D: set<Uid>)
    requires Pair(k, l, flip, E) && Inv(k, false) && Inv(l, false) && Agree(w, v, E, D) && !On(k)
    ensures Pair(Reset(k, w).node, Reset(l, v).node, flip, E) && Agree(Reset(k, w).w, Reset(l, v).w, E, D)
    decreases k, 2
  {
    hide Agree, Core;
    if flip {
      InverterReset(l, v);
      ResetSim(k, l.kids[0], w, v, E, D);
      ResetInv(k, w, false);
    } else {
      ResetSim(k, l, w, v, E, D);
    }
  }

  lemma {:induction false} ResetCore(t: Node, s: Node, flip: bool, w: World, v: World, E: Scope, D: set<Uid>)
    requires Core(t, s, flip, E) && Inv(t, false) && Inv(s, false) && Agree(w, v, E, D) && !On(t)
    ensures Core(Reset(t, w).node, Reset(s, v).node, flip, E) && Agree(Reset(t, w).w, Reset(s, v).w, E, D)
    decreases t, 0
  {
    hide Agree;
    var w1 := if t.info.kind.Reactive? then SetDirty(w, t.info.uid) else w;
    var v1 := if t.info.kind.Reactive? then SetDirty(v, t.info.uid) else v;
    AgreeQuiet(w, v, E, D, t.info.uid, {});
    assert Pairs(t.kids, s.kids, flip, E);
    ResetFromPairs(t.kids, s.kids, 0, flip, w1, v1, E, D);
  }

  lemma {:induction false} ResetFromPairs(ks: seq<Node>, ls: seq<Node>, i: nat, flip: bool, w: World, v: World,
        E: Scope, D: set<Uid>)
    requires Pairs(ks, ls, flip, E) && InvAll(ks, false) && InvAll(ls, false) && Agree(w, v, E, D)
    requires NoKidRunning(ks)
    ensures Pairs(ResetFrom(ks, i, w).kids, ResetFrom(ls, i, v).kids, flip, E)
    ensures Agree(ResetFrom(ks, i, w).w, ResetFrom(ls, i, v).w, E, D)
    decreases ks, |ks| - i
  {
    hide Agree, Pair, Inv, Reset;
    if i < |ks| {
      PairReset(ks[i], ls[i], flip, w, v, E, D);
      ResetFromPairs(ks, ls, i + 1, flip, Reset(ks[i], w).w, Reset(ls[i], v).w, E, D);
    }
  }

  lemma {:induction false} ResetTerminalPairs(ks: seq<Node>, ls: seq<Node>, i: nat, w: World, v: World, E: Scope,
        D: set<Uid>)
    requires Pairs(ks, ls, false, E) && InvAll(ks, false) && InvAll(ls, false) && Agree(w, v, E, D)
    requires NoKidRunning(ks) && SameStatus(ks, ls)
    ensures Pairs(ResetTerminal(ks, i, w).kids, ResetTerminal(ls, i, v).kids, false, E)
    ensures Agree(ResetTerminal(ks, i, w).w, ResetTerminal(ls, i, v).w, E, D)
    decreases |ks| - i
  {
    hide Agree, Pair, Inv, Reset;
    if i < |ks| {
      if Terminal(ks[i].status) {
        PairReset(ks[i], ls[i], false, w, v, E, D);
        ResetTerminalPairs(ks, ls, i + 1, Reset(ks[i], w).w, Reset(ls[i], v).w, E, D);
      } else {
        ResetTerminalPairs(ks, ls, i + 1, w, v, E, D);
      }
    }
  }

  lemma {:induction false} ClearKidsPairs(ks: seq<Node>, ls: seq<Node>, w: World, v: World, E: Scope, D: set<Uid>)
    requires Pairs(ks, ls, false, E) && InvAll(ks, false) && InvAll(ls, false) && Agree(w, v, E, D)
    requires SameStatus(ks, ls)
    ensures var h := HaltRunning(ks, 0, w); var g := HaltRunning(ls, 0, v);
      var r := ResetTerminal(h.kids, 0, h.w); var q := ResetTerminal(g.kids, 0, g.w);
      Pairs(r.kids, q.kids, false, E) && Agree(r.w, q.w, E, D)
    decreases ks, |ks| + 1
  {
    hide Agree, Pair, Inv;
    HaltRunningPairs(ks, ls, 0, w, v, E, D);
    HaltRunningInv(ks, 0, w, false);
    HaltRunningInv(ls, 0, v, false);
    var h := HaltRunning(ks, 0, w);
    var g := HaltRunning(ls, 0, v);
    ResetTerminalPairs(h.kids, g.kids, 0, h.w, g.w, E, D);
  }

  // ----- tick -----------------------------------------------------------------

  /** Two bodies whose results correspond, and that leave corresponding nodes. */
  ghost predicate BodySim(b: Body, c: Body, flip: bool, E: Scope, D: set<Uid>) {
    && c.result == Flip(b.result, flip)
    && Core(b.node.(status := b.result), c.node.(status := c.result), flip, E)
    && Agree(b.w, c.w, E, D)
  }

  /** Matching nodes stay matching when children and fields are replaced by matching ones. */
  lemma BodyOf(t: Node, s: Node, b: Body, c: Body, flip: bool, E: Scope, D: set<Uid>)
    requires Core(t, s, flip, E) && b.node.info == t.info && c.node.info == s.info
    requires c.result == Flip(b.result, flip) && Agree(b.w, c.w, E, D)
    requires Pairs(b.node.kids, c.node.kids, flip, E)
    requires FieldsMatch(t.info.kind, b.result == Running, b.node.mem, c.node.mem)
    requires t.info.kind.Parallel? && b.result == Running ==> SameStatus(b.node.kids, c.node.kids)
    requires E.exact ==> b.node.mem == c.node.mem
    ensures BodySim(b, c, flip, E, D)
  {
    hide Agree, Pair;
  }

  lemma DecoratorOf(t: Node, s: Node, b: Body, c: Body, E: Scope, D: set<Uid>)
    requires Core(t, s, false, E) && b.node.info == t.info && c.node.info == s.info && !t.info.kind.Parallel?
    requires c.result == b.result && Agree(b.w, c.w, E, D)
    requires |b.node.kids| == |c.node.kids| == 1 && Pair(b.node.kids[0], c.node.kids[0], false, E)
    requires FieldsMatch(t.info.kind, b.result == Running, b.node.mem, c.node.mem)
    requires E.exact ==> b.node.mem == c.node.mem
    ensures BodySim(b, c, false, E, D)
  {
    hide Agree, Pair;
  }

  /** The parts of a match that the proofs below use. */
  lemma CoreParts(t: Node, s: Node, flip: bool, E: Scope)
    requires Core(t, s, flip, E) && Inv(t, false) && Inv(s, false)
    ensures Pairs(t.kids, s.kids, flip, E) && InvAll(t.kids, false) && InvAll(s.kids, false)
    ensures s.info.uid == t.info.uid && s.info.board == t.info.board && |s.kids| == |t.kids|
    ensures t.info.kind.Memory? ==> t.mem.cursor == s.mem.cursor
    ensures t.info.kind.Reactive? ==> t.mem.running == s.mem.running && t.info.uid !in E.hidden
    ensures KidBoards(t.kids, 0) == KidBoards(s.kids, 0)
    ensures t.info.kind.Parallel? ==> SameStatus(t.kids, s.kids)
    ensures !flip ==> s.info == t.info
    ensures E.exact ==> !flip && t.mem == s.mem && t.status == s.status
  {
    CoreStatic(t, s, flip, E);
  }

  lemma DecoratorParts(t: Node, s: Node, E: Scope)
    requires Core(t, s, false, E) && Inv(t, false) && Inv(s, false) && t.kids != []
    requires !t.info.kind.Parallel? && !Dualizable(t.info.kind)
    ensures |t.kids| == |s.kids| == 1 && s.info == t.info && On(t) == On(s)
    ensures Pair(t.kids[0], s.kids[0], false, E) && Inv(t.kids[0], false) && Inv(s.kids[0], false)
    ensures FieldsMatch(t.info.kind, On(t), t.mem, s.mem)
    ensures t.info.kind.Timeout? && On(t) ==> t.mem.started.Some?
    ensures E.exact ==> t.mem == s.mem && t.status == s.status
  {}

  lemma InverterTick(l: Node, w: World)
    requires IsInverter(l)
    ensures var s := Tick(l.kids[0], w); var r := Opposite(s.node.status);
      Tick(l, w) == Step(Node(l.info, r, l.mem, [s.node]), Tell(s.w, Ticked(l.info.uid, r)))
  {
    assert TickBody(l, w) == TickDecorator(l, w);
    assert l.kids[0 := Tick(l.kids[0], w).node] == [Tick(l.kids[0], w).node];
  }

  /** The bisimulation: one tick of each gives the same status, the same calls, and matching trees. */
  lemma {:induction false} TickSim(t: Node, u: Node, w: World, v: World, E: Scope, D: set<Uid>)
    requires Sim(t, u, E) && Inv(t, false) && Inv(u, false) && Agree(w, v, E, D)
    ensures Sim(Tick(t, w).node, Tick(u, v).node, E) && Agree(Tick(t, w).w, Tick(u, v).w, E, D)
    ensures Tick(t, w).node.status == Tick(u, v).node.status
    decreases t, 6
  {
    hide Agree;
    if Core(t, u, false, E) {
      TickCore(t, u, false, w, v, E, D);
    } else {
      InverterTick(u, v);
      var s := u.kids[0];
      hide Tick, Inv;
      TickCore(t, s, true, w, v, E, D);
      AgreeTell(Tick(t, w).w, Tick(s, v).w, E, D, Ticked(u.info.uid, Opposite(Tick(s, v).node.status)),
            Ticked(u.info.uid, Opposite(Tick(s, v).node.status)));
      TickInfo(t, w);
    }
  }

  lemma TickInfo(t: Node, w: World)
    requires Inv(t, false)
    ensures Tick(t, w).node.info == t.info
  {
    TickInv(t, w, false);
  }

  lemma {:induction false} PairTick(k: Node, l: Node, flip: bool, w: World, v: World, E: Scope, D: set<Uid>)
    requires Pair(k, l, flip, E) && Inv(k, false) && Inv(l, false) && Agree(w, v, E, D)
    ensures Pair(Tick(k, w).node, Tick(l, v).node, flip, E) && Agree(Tick(k, w).w, Tick(l, v).w, E, D)
    ensures Tick(l, v).node.status == Flip(Tick(k, w).node.status, flip)
    decreases k, 7
  {
    hide Agree, Core;
    if flip {
      InverterTick(l, v);
      hide Tick;
      TickSim(k, l.kids[0], w, v, E, D);
      var s := Tick(l.kids[0], v);
      AgreeTell(Tick(k, w).w, s.w, E, D, Ticked(l.info.uid, Opposite(s.node.status)), Ticked(l.info.uid,
            Opposite(s.node.status)));
    } else {
      TickSim(k, l, w, v, E, D);
    }
  }

  lemma {:induction false} TickCore(t: Node, s: Node, flip: bool, w: World, v: World, E: Scope, D: set<Uid>)
    requires Core(t, s, flip, E) && Inv(t, false) && Inv(s, false) && Agree(w, v, E, D)
    ensures Core(Tick(t, w).node, Tick(s, v).node, flip, E) && Agree(Tick(t, w).w, Tick(s, v).w, E, D)
    ensures Tick(s, v).node.status == Flip(Tick(t, w).node.status, flip)
    decreases t, 5
  {
    TickBodySim(t, s, flip, w, v, E, D);
    hide Agree, TickBody, Core, Inv;
    var b := TickBody(t, w);
    var c := TickBody(s, v);
    AgreeTell(b.w, c.w, E, D, Ticked(t.info.uid, b.result), Ticked(s.info.uid, c.result));
  }

  lemma {:induction false} TickBodySim(t: Node, s: Node, flip: bool, w: World, v: World, E: Scope, D: set<Uid>)
    requires Core(t, s, flip, E) && Inv(t, false) && Inv(s, false) && Agree(w, v, E, D)
    ensures BodySim(TickBody(t, w), TickBody(s, v), flip, E, D)
    decreases t, 4
  {
    hide Agree;
    match t.info.kind {
      case Leaf(sort) =>
        AgreeCall(w, v, E, D, t.info.uid, if sort != Stateful then Plain else if On(t) then Resume else Start);
      case Memory(adv) => TickMemorySim(t, s, adv, flip, w, v, E, D);
      case Reactive(adv) => TickReactiveSim(t, s, adv, flip, w, v, E, D);
      case Parallel(_, _, _) => TickParallelSim(t, s, w, v, E, D);
      case _ => if t.kids != [] { TickDecoratorSim(t, s, w, v, E, D); }
    }
  }

  lemma {:induction false} TickDecoratorSim(t: Node, s: Node, w: World, v: World, E: Scope, D: set<Uid>)
    requires Core(t, s, false, E) && Inv(t, false) && Inv(s, false) && Agree(w, v, E, D) && t.kids != []
    requires !t.info.kind.Parallel? && !Dualizable(t.info.kind)
    ensures BodySim(TickDecorator(t, w), TickDecorator(s, v), false, E, D)
    decreases t, 3
  {
    assert s.info == t.info && s.kids != [];
    hide Core, Agree, Inv, TickRetry, TickTimeout, TickRate;
    match t.info.kind {
      case Relay(_, _) =>
        hide Tick;
        DecoratorParts(t, s, E);
        PairTick(t.kids[0], s.kids[0], false, w, v, E, D);
        hide Pair;
        DecoratorOf(t, s, TickDecorator(t, w), TickDecorator(s, v), E, D);
      case Retry(budget) => TickRetrySim(t, s, budget, w, v, E, D);
      case Timeout(duration) => TickTimeoutSim(t, s, duration, w, v, E, D);
      case Rate(period) => TickRateSim(t, s, period, w, v, E, D);
      case _ =>
    }
  }

  lemma {:induction false} TickRetrySim(t: Node, s: Node, budget: int, w: World, v: World, E: Scope, D: set<Uid>)
    requires Core(t, s, false, E) && Inv(t, false) && Inv(s, false) && Agree(w, v, E, D)
    requires t.info.kind == Retry(budget) && t.kids != [] && s.kids != []
    ensures BodySim(TickRetry(t, budget, w), TickRetry(s, budget, v), false, E, D)
    decreases t, 2
  {
    hide Core, Agree, Inv, Tick, Halt, Sim;
    DecoratorParts(t, s, E);
    var k, l := t.kids[0], s.kids[0];
    PairTick(k, l, false, w, v, E, D);
    var a, b := Tick(k, w), Tick(l, v);
    TickInv(k, w, false);
    TickInv(l, v, false);
    PairHalt(a.node, b.node, false, a.w, b.w, E, D);
    hide Pair;
    DecoratorOf(t, s, TickRetry(t, budget, w), TickRetry(s, budget, v), E, D);
  }

  lemma {:induction false} TickTimeoutSim(t: Node, s: Node, duration: real, w: World, v: World, E: Scope, D: set<Uid>)
    requires Core(t, s, false, E) && Inv(t, false) && Inv(s, false) && Agree(w, v, E, D)
    requires t.info.kind == Timeout(duration) && t.kids != [] && s.kids != []
    ensures BodySim(TickTimeout(t, duration, w), TickTimeout(s, duration, v), false, E, D)
    decreases t, 2
  {
    hide Core, Agree, Inv, Tick, Halt, Sim, ReadClock, Now;
    DecoratorParts(t, s, E);
    AgreeQuiet(w, v, E, D, t.info.uid, {});
    var w1, v1 := ReadClock(w, t.info.uid), ReadClock(v, t.info.uid);
    PairHalt(t.kids[0], s.kids[0], false, w1, v1, E, D);
    PairTick(t.kids[0], s.kids[0], false, w1, v1, E, D);
    hide Pair;
    DecoratorOf(t, s, TickTimeout(t, duration, w), TickTimeout(s, duration, v), E, D);
  }

  lemma {:induction false} TickRateSim(t: Node, s: Node, period: real, w: World, v: World, E: Scope, D: set<Uid>)
    requires Core(t, s, false, E) && Inv(t, false) && Inv(s, false) && Agree(w, v, E, D)
    requires t.info.kind == Rate(period) && t.kids != [] && s.kids != []
    ensures BodySim(TickRate(t, period, w), TickRate(s, period, v), false, E, D)
    decreases t, 2
  {
    hide Core, Agree, Inv, Tick, Halt, Sim, ReadClock, Now;
    DecoratorParts(t, s, E);
    AgreeQuiet(w, v, E, D, t.info.uid, {});
    PairTick(t.kids[0], s.kids[0], false, ReadClock(w, t.info.uid), ReadClock(v, t.info.uid), E, D);
    hide Pair;
    DecoratorOf(t, s, TickRate(t, period, w), TickRate(s, period, v), E, D);
  }

  /** Runs over matching children stop at the same place with corresponding results. */
  ghost predicate RunSim(r: Run, q: Run, flip: bool, E: Scope, D: set<Uid>) {
    && q.at == r.at && q.result == Flip(r.result, flip)
    && Pairs(r.kids, q.kids, flip, E) && InvAll(r.kids, false) && InvAll(q.kids, false)
    && Agree(r.w, q.w, E, D)
  }

  lemma {:induction false} TickAt(ks: seq<Node>, ls: seq<Node>, i: nat, flip: bool, w: World, v: World, E: Scope,
        D: set<Uid>)
    requires Pairs(ks, ls, flip, E) && InvAll(ks, false) && InvAll(ls, false) && Agree(w, v, E, D) && i < |ks|
    ensures var a := Tick(ks[i], w); var b := Tick(ls[i], v);
      && Pair(a.node, b.node, flip, E) && Inv(a.node, false) && Inv(b.node, false)
      && Agree(a.w, b.w, E, D) && b.node.status == Flip(a.node.status, flip)
    ensures IsGuard(ks[i]) == IsGuard(ls[i])
    decreases ks, 0
  {
    hide Agree, Pair, Inv, Tick, IsGuard;
    PairStatic(ks[i], ls[i], flip, E);
    PairTick(ks[i], ls[i], flip, w, v, E, D);
    TickInv(ks[i], w, false);
    TickInv(ls[i], v, false);
  }

  lemma SetAt(ks: seq<Node>, ls: seq<Node>, i: nat, k: Node, l: Node, flip: bool, E: Scope)
    requires Pairs(ks, ls, flip, E) && InvAll(ks, false) && InvAll(ls, false) && i < |ks|
    requires Pair(k, l, flip, E) && Inv(k, false) && Inv(l, false)
    ensures Pairs(ks[i := k], ls[i := l], flip, E) && InvAll(ks[i := k], false) && InvAll(ls[i := l], false)
  {
    hide Pair, Inv;
  }

  lemma {:induction false} RunFromSim(ks: seq<Node>, ls: seq<Node>, i: nat, n: nat, skip: nat, adv: Final, flip: bool,
                                      w: World, v: World, E: Scope, D: set<Uid>)
    requires Pairs(ks, ls, flip, E) && InvAll(ks, false) && InvAll(ls, false) && Agree(w, v, E, D)
    requires n <= |ks| == |ls|
    ensures RunSim(RunFrom(ks, i, n, skip, adv, w), RunFrom(ls, i, n, skip, if flip then Other(adv) else adv, v),
                   flip, E, D)
    decreases ks, n - i
  {
    hide Agree, Pair, Pairs, Inv, InvAll, Tick, IsGuard;
    var adv' := if flip then Other(adv) else adv;
    if i < n {
      TickAt(ks, ls, i, flip, w, v, E, D);
      if i < skip && !IsGuard(ks[i]) {
        RunFromSim(ks, ls, i + 1, n, skip, adv, flip, w, v, E, D);
      } else {
        var a, b := Tick(ks[i], w), Tick(ls[i], v);
        SetAt(ks, ls, i, a.node, b.node, flip, E);
        if a.node.status == adv {
          RunFromSim(ks, ls, i + 1, n, skip, adv, flip, a.w, b.w, E, D);
          var r, q := RunFrom(ks, i + 1, n, skip, adv, a.w), RunFrom(ls, i + 1, n, skip, adv', b.w);
          SetAt(r.kids, q.kids, i, a.node, b.node, flip, E);
        }
      }
    }
  }

  lemma {:induction false} TickMemorySim(t: Node, s: Node, adv: Final, flip: bool, w: World, v: World, E: Scope,
        D: set<Uid>)
    requires Core(t, s, flip, E) && Inv(t, false) && Inv(s, false) && Agree(w, v, E, D)
    requires t.info.kind == Memory(adv)
    ensures BodySim(TickMemory(t, adv, w), TickMemory(s, if flip then Other(adv) else adv, v), flip, E, D)
    decreases t, 3
  {
    hide Core, Pairs, InvAll, Agree, Inv, RunFrom, HaltFrom;
    var adv' := if flip then Other(adv) else adv;
    CoreParts(t, s, flip, E);
    RunFromSim(t.kids, s.kids, t.mem.cursor, |t.kids|, 0, adv, flip, w, v, E, D);
    var r := RunFrom(t.kids, t.mem.cursor, |t.kids|, 0, adv, w);
    var q := RunFrom(s.kids, t.mem.cursor, |t.kids|, 0, adv', v);
    HaltFromPairs(r.kids, q.kids, 0, flip, r.w, q.w, E, D);
    BodyOf(t, s, TickMemory(t, adv, w), TickMemory(s, adv', v), flip, E, D);
  }

  lemma {:induction false} TickReactiveSim(t: Node, s: Node, adv: Final, flip: bool, w: World, v: World, E: Scope,
        D: set<Uid>)
    requires Core(t, s, flip, E) && Inv(t, false) && Inv(s, false) && Agree(w, v, E, D)
    requires t.info.kind == Reactive(adv)
    ensures BodySim(TickReactive(t, adv, w), TickReactive(s, if flip then Other(adv) else adv, v), flip, E, D)
    decreases t, 3
  {
    var adv' := if flip then Other(adv) else adv;
    var u := t.info.uid;
    assert t.mem.running == s.mem.running;
    assert AgreeAt(w, v, u, u in D);
    assert TakesFastPath(t, w) == TakesFastPath(s, v);
    hide Inv, FullEval, FastTick;
    if TakesFastPath(t, w) {
      AgreeMore(w, v, E, D, u);
      FastTickSim(t, s, adv, flip, w, v, E, D + {u});
      AgreeLess(FastTick(t, adv, w).w, FastTick(s, adv', v).w, E, D + {u}, D);
    } else {
      FullEvalSim(t, s, 0, adv, flip, w, v, E, D);
    }
  }

  lemma {:induction false} FullEvalSim(t: Node, s: Node, skip: nat, adv: Final, flip: bool, w: World, v: World,
        E: Scope, D: set<Uid>)
    requires Core(t, s, flip, E) && Inv(t, false) && Inv(s, false) && Agree(w, v, E, D)
    requires t.info.kind == Reactive(adv)
    ensures BodySim(FullEval(t, skip, adv, w), FullEval(s, skip, if flip then Other(adv) else adv, v), flip, E, D)
    decreases t, 2
  {
    hide Core, Pairs, InvAll, Agree, Inv, RunFrom, HaltFrom, KidBoards, ClearDirty, Subscribe, Unsubscribe;
    var adv' := if flip then Other(adv) else adv;
    var u := t.info.uid;
    var D' := D + {u};
    CoreParts(t, s, flip, E);
    AgreeQuiet(w, v, E, D, u, {});
    RunFromSim(t.kids, s.kids, 0, |t.kids|, skip, adv, flip, ClearDirty(w, u), ClearDirty(v, u), E, D');
    var r := RunFrom(t.kids, 0, |t.kids|, skip, adv, ClearDirty(w, u));
    var q := RunFrom(s.kids, 0, |t.kids|, skip, adv', ClearDirty(v, u));
    HaltFromPairs(r.kids, q.kids, r.at + 1, flip, r.w, q.w, E, D');
    var h, g := HaltFrom(r.kids, r.at + 1, r.w), HaltFrom(q.kids, r.at + 1, q.w);
    AgreeQuiet(r.w, q.w, E, D', u, {});
    KidBoardsMatch(h.kids, g.kids, 0, flip, E);
    AgreeQuiet(h.w, g.w, E, D', u, KidBoards(h.kids, 0));
    var b, c := FullEval(t, skip, adv, w), FullEval(s, skip, adv', v);
    AgreeLess(b.w, c.w, E, D', D);
    BodyOf(t, s, b, c, flip, E, D);
  }

  lemma {:induction false} FastTickSim(t: Node, s: Node, adv: Final, flip: bool, w: World, v: World, E: Scope,
        D: set<Uid>)
    requires Core(t, s, flip, E) && Inv(t, false) && Inv(s, false) && Agree(w, v, E, D)
    requires t.info.kind == Reactive(adv) && t.info.uid in D
    requires t.mem.running == s.mem.running && t.mem.running.Some? && t.mem.running.value < |t.kids|
    ensures BodySim(FastTick(t, adv, w), FastTick(s, if flip then Other(adv) else adv, v), flip, E, D)
    decreases t, 2
  {
    hide Core, Pairs, InvAll, Agree, Inv, RunFrom, HaltFrom, KidBoards, Tick, FastRest, Unsubscribe;
    var adv' := if flip then Other(adv) else adv;
    var u := t.info.uid;
    var idx := t.mem.running.value;
    CoreParts(t, s, flip, E);
    RunFromSim(t.kids, s.kids, 0, idx, idx, adv, flip, w, v, E, D);
    var g := RunFrom(t.kids, 0, idx, idx, adv, w);
    var p := RunFrom(s.kids, 0, idx, idx, adv', v);
    if g.result != adv {
      HaltFromPairs(g.kids, p.kids, g.at + 1, flip, g.w, p.w, E, D);
      AgreeQuiet(HaltFrom(g.kids, g.at + 1, g.w).w, HaltFrom(p.kids, g.at + 1, p.w).w, E, D, u, {});
      BodyOf(t, s, FastTick(t, adv, w), FastTick(s, adv', v), flip, E, D);
    } else {
      FastChildSim(t, s, g.kids, p.kids, idx, flip, g.w, p.w, E, D);
      var a, b := Tick(t.kids[idx], g.w), Tick(s.kids[idx], p.w);
      if a.node.status != Running {
        AgreeQuiet(a.w, b.w, E, D, u, {});
        FastRestSim(t, s, g.kids[idx := a.node], p.kids[idx := b.node], idx, a.node.status, adv, flip,
                    Unsubscribe(a.w, u), Unsubscribe(b.w, u), E, D);
      } else {
        BodyOf(t, s, FastTick(t, adv, w), FastTick(s, adv', v), flip, E, D);
      }
    }
  }

  lemma {:induction false} FastChildSim(t: Node, s: Node, ks: seq<Node>, ls: seq<Node>, idx: nat, flip: bool,
                                        w: World, v: World, E: Scope, D: set<Uid>)
    requires Pairs(t.kids, s.kids, flip, E) && InvAll(t.kids, false) && InvAll(s.kids, false) && Agree(w, v, E, D)
    requires Pairs(ks, ls, flip, E) && InvAll(ks, false) && InvAll(ls, false)
    requires |ks| == |t.kids| && idx < |ks|
    ensures var a := Tick(t.kids[idx], w); var b := Tick(s.kids[idx], v);
      && Pairs(ks[idx := a.node], ls[idx := b.node], flip, E)
      && InvAll(ks[idx := a.node], false) && InvAll(ls[idx := b.node], false)
      && Agree(a.w, b.w, E, D) && b.node.status == Flip(a.node.status, flip)
    decreases t, 1
  {
    hide Agree, Pair, Inv, Tick;
    PairTick(t.kids[idx], s.kids[idx], flip, w, v, E, D);
    TickInv(t.kids[idx], w, false);
    TickInv(s.kids[idx], v, false);
  }

  lemma SplicePairs(ks: seq<Node>, ls: seq<Node>, rs: seq<Node>, qs: seq<Node>, i: nat, flip: bool, E: Scope)
    requires Pairs(ks, ls, flip, E) && Pairs(rs, qs, flip, E) && |ks| == |rs| && i <= |ks|
    requires InvAll(ks, false) && InvAll(ls, false) && InvAll(rs, false) && InvAll(qs, false)
    ensures Pairs(ks[..i] + rs[i..], ls[..i] + qs[i..], flip, E)
    ensures InvAll(ks[..i] + rs[i..], false) && InvAll(ls[..i] + qs[i..], false)
  {
    hide Pair, Inv;
  }

  lemma {:induction false} RestRunSim(ts: seq<Node>, ss: seq<Node>, ks: seq<Node>, ls: seq<Node>, i: nat,
        adv: Final, flip: bool,
                                      w: World, v: World, E: Scope, D: set<Uid>)
    requires Pairs(ts, ss, flip, E) && InvAll(ts, false) && InvAll(ss, false) && Agree(w, v, E, D)
    requires Pairs(ks, ls, flip, E) && InvAll(ks, false) && InvAll(ls, false)
    requires |ks| == |ts| == |ss| == |ls| && i <= |ts|
    ensures var r := RunFrom(ts, i, |ts|, 0, adv, w);
      var q := RunFrom(ss, i, |ts|, 0, if flip then Other(adv) else adv, v);
      var rs := ks[..i] + r.kids[i..]; var qs := ls[..i] + q.kids[i..];
      && q.at == r.at && q.result == Flip(r.result, flip) && Agree(r.w, q.w, E, D)
      && Pairs(rs, qs, flip, E) && InvAll(rs, false) && InvAll(qs, false)
    decreases ts, |ts| + 1
  {
    hide Pairs, InvAll, Agree, RunFrom;
    RunFromSim(ts, ss, i, |ts|, 0, adv, flip, w, v, E, D);
    var r := RunFrom(ts, i, |ts|, 0, adv, w);
    var q := RunFrom(ss, i, |ts|, 0, if flip then Other(adv) else adv, v);
    SplicePairs(ks, ls, r.kids, q.kids, i, flip, E);
  }

  lemma {:induction false} FastRestSim(t: Node, s: Node, ks: seq<Node>, ls: seq<Node>, idx: nat, result: Final,
        adv: Final, flip: bool,
                                       w: World, v: World, E: Scope, D: set<Uid>)
    requires Core(t, s, flip, E) && Inv(t, false) && Inv(s, false) && Agree(w, v, E, D)
    requires t.info.kind == Reactive(adv) && t.info.uid in D
    requires |ks| == |t.kids| && |ls| == |s.kids| && idx < |ks| && idx < |ls| && Pairs(ks, ls, flip, E)
      && InvAll(ks, false) && InvAll(ls, false)
    requires forall j | idx < j < |ks| :: ks[j] == t.kids[j] && ls[j] == s.kids[j]
    ensures BodySim(FastRest(t, ks, idx, result, adv, w),
                    FastRest(s, ls, idx, Flip(result, flip), if flip then Other(adv) else adv, v), flip, E, D)
    decreases t, 1
  {
    hide Core, Pairs, InvAll, Inv, Agree, RunFrom, HaltFrom, RestEnd;
    var adv' := if flip then Other(adv) else adv;
    CoreParts(t, s, flip, E);
    if result != adv {
      HaltFromPairs(ks, ls, idx + 1, flip, w, v, E, D);
      BodyOf(t, s, FastRest(t, ks, idx, result, adv, w), FastRest(s, ls, idx, Flip(result, flip), adv', v), flip, E, D);
    } else {
      RestRunSim(t.kids, s.kids, ks, ls, idx + 1, adv, flip, w, v, E, D);
      var r := RunFrom(t.kids, idx + 1, |t.kids|, 0, adv, w);
      var q := RunFrom(s.kids, idx + 1, |t.kids|, 0, adv', v);
      var rs, qs := ks[..idx + 1] + r.kids[idx + 1..], ls[..idx + 1] + q.kids[idx + 1..];
      RestEndSim(t, s, r.(kids := rs), q.(kids := qs), adv, flip, E, D);
    }
  }

  /** The runs over the remaining children have ended with `r` and `q`. */
  lemma {:induction false} RestEndSim(t: Node, s: Node, r: Run, q: Run, adv: Final, flip: bool, E: Scope, D: set<Uid>)
    requires Core(t, s, flip, E) && Inv(t, false) && Inv(s, false) && t.info.kind == Reactive(adv) && t.info.uid in D
    requires |r.kids| == |t.kids| && |q.kids| == |s.kids| && Pairs(r.kids, q.kids, flip, E)
    requires InvAll(r.kids, false) && InvAll(q.kids, false) && Agree(r.w, q.w, E, D)
    requires q.at == r.at && q.result == Flip(r.result, flip)
    ensures BodySim(RestEnd(t, r, adv), RestEnd(s, q, if flip then Other(adv) else adv), flip, E, D)
  {
    hide Core, Inv, Pairs, InvAll, Agree, HaltFrom, KidBoards, Subscribe;
    CoreParts(t, s, flip, E);
    HaltFromPairs(r.kids, q.kids, r.at + 1, flip, r.w, q.w, E, D);
    var h, g := HaltFrom(r.kids, r.at + 1, r.w), HaltFrom(q.kids, r.at + 1, q.w);
    KidBoardsMatch(h.kids, g.kids, 0, flip, E);
    AgreeQuiet(h.w, g.w, E, D, t.info.uid, KidBoards(h.kids, 0));
    BodyOf(t, s, RestEnd(t, r, adv), RestEnd(s, q, if flip then Other(adv) else adv), flip, E, D);
  }

  lemma {:induction false} SweepSim(ks: seq<Node>, ls: seq<Node>, i: nat, w: World, v: World, E: Scope, D: set<Uid>)
    requires Pairs(ks, ls, false, E) && InvAll(ks, false) && InvAll(ls, false) && Agree(w, v, E, D)
    requires SameStatus(ks, ls)
    ensures var r := Sweep(ks, i, w); var q := Sweep(ls, i, v);
      Pairs(r.kids, q.kids, false, E) && SameStatus(r.kids, q.kids) && Agree(r.w, q.w, E, D)
    decreases ks, |ks| - i
  {
    hide Agree, Pair, Inv, Tick;
    if i < |ks| {
      if Terminal(ks[i].status) {
        SweepSim(ks, ls, i + 1, w, v, E, D);
      } else {
        PairTick(ks[i], ls[i], false, w, v, E, D);
        SweepSim(ks, ls, i + 1, Tick(ks[i], w).w, Tick(ls[i], v).w, E, D);
      }
    }
  }

  lemma {:induction false} SameCount(ks: seq<Node>, ls: seq<Node>, n: nat, s: Status)
    requires SameStatus(ks, ls) && n <= |ks|
    ensures Count(ks, n, s) == Count(ls, n, s)
  {
    if n > 0 { SameCount(ks, ls, n - 1, s); }
  }

  lemma {:induction false} TickParallelSim(t: Node, s: Node, w: World, v: World, E: Scope, D: set<Uid>)
    requires Core(t, s, false, E) && Inv(t, false) && Inv(s, false) && Agree(w, v, E, D)
    requires t.info.kind.Parallel?
    ensures BodySim(TickParallel(t, w), TickParallel(s, v), false, E, D)
    decreases t, 3
  {
    hide Core, Pairs, InvAll, SameStatus, Agree, Inv, Sweep, HaltRunning, ResetTerminal, Count, Verdict;
    CoreParts(t, s, false, E);
    if t.kids != [] {
      SweepSim(t.kids, s.kids, 0, w, v, E, D);
      var r, q := Sweep(t.kids, 0, w), Sweep(s.kids, 0, v);
      SameCount(r.kids, q.kids, |r.kids|, Success);
      SameCount(r.kids, q.kids, |r.kids|, Failure);
      SweepInv(t.kids, 0, w, false);
      SweepInv(s.kids, 0, v, false);
      ClearKidsPairs(r.kids, q.kids, r.w, q.w, E, D);
    }
    BodyOf(t, s, TickParallel(t, w), TickParallel(s, v), false, E, D);
  }
}
