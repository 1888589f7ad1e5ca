/** Runs in which the tree is modified: resting trees are as good as new, before and after,
    and every start of a stateful leaf is accounted for. */
module LiveRuns {
  import opened Worlds
  import opened Engine
  import opened Invariants
  import opened Simulation
  import opened Runs
  import opened Tracking
  import opened Ledgers
  import opened Footprints
  import opened Modify

  // ----- the accounts of stateful leaves ------------------------------------------------

  /** Starts = results + halts, plus one while an activation is open. */
  predicate Balanced(trace: seq<Event>, u: Uid, open: bool) {
    var n := Tally(trace, u);
    n.0 == n.1 + n.2 + if open then 1 else 0
  }

  /** Wherever tree and ledgers agree, after a run of any sort, in a world shared with other trees
      or not: a stateful leaf's account is balanced but for the activation it is RUNNING in. */
  lemma LeafBalanced(t: Node, w: World, path: seq<nat>, leaf: Node, exact: bool)
    requires Ok(t, w, exact) && At(t, path, leaf) && leaf.info.kind == Leaf(Stateful)
    ensures Balanced(w.trace, leaf.info.uid, leaf.status == Running)
  {
    OkBelow(t, path, leaf, w, exact);
    TallyOpen(w.trace, leaf.info.uid);
  }

  /** Over every run of ticks, halts, writes and modifications: the account of a stateful leaf in
      the tree is balanced but for the activation it is RUNNING in, and that of any node no longer
      in the tree is balanced.  So no activation is started twice or left open, and none is halted
      after it ended, also when its leaf is replaced or removed. */
  lemma LeafAccounting(t: Node, w: World, acts: seq<Act>)
    requires Sound(t, w) && Legal(t, w, acts)
    ensures var s := Live(t, w, acts);
      && (forall path, leaf | At(s.node, path, leaf) && leaf.info.kind == Leaf(Stateful) ::
            Balanced(s.w.trace, leaf.info.uid, leaf.status == Running))
      && (forall gone | gone !in Uids(s.node) :: Balanced(s.w.trace, gone, false))
  {
    var s := Live(t, w, acts);
    LiveSound(t, w, acts);
    forall path, leaf | At(s.node, path, leaf) && leaf.info.kind == Leaf(Stateful)
      ensures Balanced(s.w.trace, leaf.info.uid, leaf.status == Running)
    {
      LeafBalanced(s.node, s.w, path, leaf, false);
    }
    forall gone | gone !in Uids(s.node) ensures Balanced(s.w.trace, gone, false) {
      assert QuietAt(s.w, gone);
      TallyOpen(s.w.trace, gone);
    }
  }

  /** A newly built tree, in a world that has heard of no node at all, is a sound start. */
  lemma FreshSound(t: Node, w: World)
    requires ArityAll(t) && Distinct(t) && QuietOutside(w, {})
    ensures Sound(Fresh(t), w)
  {
    forall x | x in Uids(t) ensures QuietAt(w, x) {}
    FreshInv(t, false);
    FreshOk(t, w, false);
    ShapeFacts(t, Fresh(t));
  }

  // ----- the same modification of two trees that behave the same ----------------------------

  /** Same nodes in the same places, and they behave the same. */
  ghost predicate Twin(t: Node, u: Node) {
    SameShape(t, u) && Sim(t, u, EVERYWHERE) && Inv(t, false) && Inv(u, false)
  }

  /** What a modification brings in is IDLE and satisfies the invariant. */
  ghost predicate BringsIdle(mod: Mod) {
    mod.Remove? || (Inv(mod.node, false) && mod.node.status == Idle)
  }

  lemma TwinCore(t: Node, u: Node)
    requires Twin(t, u)
    ensures Core(t, u, false, EVERYWHERE) && t.info == u.info && |t.kids| == |u.kids|
    ensures Pairs(t.kids, u.kids, false, EVERYWHERE) && InvAll(t.kids, false) && InvAll(u.kids, false)
    ensures SameShapes(t.kids, u.kids)
    ensures forall j | 0 <= j < |t.kids| :: Twin(t.kids[j], u.kids[j])
    ensures t.info.kind.Parallel? ==> SameStatus(t.kids, u.kids)
  {
    CoreParts(t, u, false, EVERYWHERE);
    assert SameShape(t, u);
    forall j | 0 <= j < |t.kids| ensures Twin(t.kids[j], u.kids[j]) {
      assert Pair(t.kids[j], u.kids[j], false, EVERYWHERE);
    }
  }

  lemma {:induction false} SimSame(n: Node)
    ensures Sim(n, n, EVERYWHERE)
  {
    forall j | 0 <= j < |n.kids| ensures Pair(n.kids[j], n.kids[j], false, EVERYWHERE) { SimSame(n.kids[j]); }
    assert Core(n, n, false, EVERYWHERE);
  }

  /** What a modification leaves of two matching nodes. */
  ghost predicate EditTwin(t: Node, u: Node, e: Edited, f: Edited) {
    && e.found == f.found
    && SameShape(e.node, f.node) && Sim(e.node, f.node, EVERYWHERE)
    && Agree(e.w, f.w, EVERYWHERE, {})
    && (t.status == u.status ==> e.node.status == f.node.status)
  }

  /** Two control nodes are halted with new lists of children. */
  lemma HaltControlTwin(t: Node, u: Node, ks: seq<Node>, ls: seq<Node>, w: World, v: World)
    requires Twin(t, u) && IsControl(t) && Agree(w, v, EVERYWHERE, {})
    requires Pairs(ks, ls, false, EVERYWHERE) && InvAll(ks, false) && InvAll(ls, false)
    requires t.info.kind.Parallel? ==> SameStatus(ks, ls)
    ensures var h := Halt(t.(kids := ks), w); var g := Halt(u.(kids := ls), v);
      Core(h.node, g.node, false, EVERYWHERE) && Agree(h.w, g.w, EVERYWHERE, {}) && h.node.status == g.node.status
  {
    TwinCore(t, u);
    var E, D: set<Uid> := EVERYWHERE, {};
    var t1, u1 := t.(kids := ks), u.(kids := ls);
    var w1 := if On(t) then Tell(OnHaltWorld(t1, w), Stopped(t.info.uid)) else w;
    var v1 := if On(u) then Tell(OnHaltWorld(u1, v), Stopped(u.info.uid)) else v;
    hide Agree, Pairs, InvAll, SameStatus, HaltFrom, HaltRunning, ResetTerminal, Sim, SameShape, Inv;
    OnHaltAgree(t1, u1, w, v, E, D);
    AgreeTell(OnHaltWorld(t1, w), OnHaltWorld(u1, v), E, D, Stopped(t.info.uid), Stopped(u.info.uid));
    assert Agree(w1, v1, E, D);
    if t.info.kind.Parallel? {
      ClearKidsPairs(ks, ls, w1, v1, E, D);
    } else {
      HaltFromPairs(ks, ls, 0, false, w1, v1, E, D);
    }
    HaltedCore(t, Halt(t1, w).node, Halt(u1, v).node);
  }

  lemma HaltedCore(t: Node, h: Node, g: Node)
    requires IsControl(t) && h.info == t.info == g.info && h.status == Idle && g.status == Idle
    requires Pairs(h.kids, g.kids, false, EVERYWHERE)
    ensures Core(h, g, false, EVERYWHERE)
  {
    hide Pair;
  }

  lemma HaltShapes(t: Node, u: Node, w: World, v: World)
    requires SameShape(t, u)
    ensures SameShape(Halt(t, w).node, Halt(u, v).node)
  {
    hide SameShape, Halt, Beside, OnlyStops;
    HaltBeside(t, w, Uids(t));
    HaltBeside(u, v, Uids(u));
    SameShapeSym(t, Halt(t, w).node);
    SameShapeTrans(Halt(t, w).node, t, u);
    SameShapeTrans(Halt(t, w).node, u, Halt(u, v).node);
  }

  lemma {:induction false} SameShapeSym(t: Node, u: Node)
    requires SameShape(t, u)
    ensures SameShape(u, t)
  {
    forall j | 0 <= j < |u.kids| ensures SameShape(u.kids[j], t.kids[j]) { SameShapeSym(t.kids[j], u.kids[j]); }
  }

  lemma ShapeWith(t: Node, u: Node, ks: seq<Node>, ls: seq<Node>)
    requires t.info == u.info && SameShapes(ks, ls)
    ensures SameShape(t.(kids := ks), u.(kids := ls))
  {}

  lemma ReplaceTwin(t: Node, u: Node, mod: Mod, w: World, v: World)
    requires Twin(t, u) && Agree(w, v, EVERYWHERE, {}) && mod.Replace?
    ensures EditTwin(t, u, EditHere(t, mod, w), EditHere(u, mod, v))
  {
    hide Agree, Sim, SameShape, Halt;
    HaltSim(t, u, w, v, EVERYWHERE, {});
    SimSame(mod.node);
    SameShapeSelf(mod.node);
  }

  lemma InsertBoth(ks: seq<Node>, ls: seq<Node>, i: nat, n: Node)
    requires i <= |ks| && Pairs(ks, ls, false, EVERYWHERE) && InvAll(ks, false) && InvAll(ls, false) && Inv(n, false)
    requires SameShapes(ks, ls)
    ensures var a := ks[..i] + [n] + ks[i..]; var b := ls[..i] + [n] + ls[i..];
      && Pairs(a, b, false, EVERYWHERE) && InvAll(a, false) && InvAll(b, false) && SameShapes(a, b)
      && (SameStatus(ks, ls) ==> SameStatus(a, b))
  {
    SimSame(n);
    SameShapeSelf(n);
    assert Pair(n, n, false, EVERYWHERE);
    hide Inv, InvAll, Pair, SameShape;
    InsertInv(ks, i, n);
    InsertInv(ls, i, n);
    var a, b := ks[..i] + [n] + ks[i..], ls[..i] + [n] + ls[i..];
    forall j | 0 <= j < |a|
      ensures Pair(a[j], b[j], false, EVERYWHERE) && SameShape(a[j], b[j])
      ensures SameStatus(ks, ls) ==> a[j].status == b[j].status
    {
      InsertedAt(ks, i, n, j);
      InsertedAt(ls, i, n, j);
    }
  }

  lemma InsertedAt(ks: seq<Node>, i: nat, n: Node, j: nat)
    requires i <= |ks| && j <= |ks|
    ensures (ks[..i] + [n] + ks[i..])[j] == if j < i then ks[j] else if j == i then n else ks[j - 1]
  {}

  lemma InsertInv(ks: seq<Node>, i: nat, n: Node)
    requires i <= |ks| && InvAll(ks, false) && Inv(n, false)
    ensures InvAll(ks[..i] + [n] + ks[i..], false)
  {
    hide Inv;
  }

  lemma RemoveBoth(ks: seq<Node>, ls: seq<Node>, i: nat)
    requires i < |ks| && Pairs(ks, ls, false, EVERYWHERE) && InvAll(ks, false) && InvAll(ls, false)
    requires SameShapes(ks, ls)
    ensures var a := ks[..i] + ks[i + 1..]; var b := ls[..i] + ls[i + 1..];
      && Pairs(a, b, false, EVERYWHERE) && InvAll(a, false) && InvAll(b, false) && SameShapes(a, b)
      && (SameStatus(ks, ls) ==> SameStatus(a, b))
  {
    hide Inv, Pair, SameShape;
  }

  lemma InsertControlTwin(t: Node, u: Node, mod: Mod, w: World, v: World)
    requires Twin(t, u) && Agree(w, v, EVERYWHERE, {}) && mod.Insert? && BringsIdle(mod) && IsControl(t)
    ensures EditTwin(t, u, EditHere(t, mod, w), EditHere(u, mod, v))
  {
    TwinCore(t, u);
    var i := Clamp(mod.index, |t.kids|);
    var ks, ls := t.kids[..i] + [mod.node] + t.kids[i..], u.kids[..i] + [mod.node] + u.kids[i..];
    InsertBoth(t.kids, u.kids, i, mod.node);
    hide Agree, Pairs, InvAll, SameStatus, Sim, Core, SameShape, SameShapes, Halt, Twin;
    HaltControlTwin(t, u, ks, ls, w, v);
    ShapeWith(t, u, ks, ls);
    HaltShapes(t.(kids := ks), u.(kids := ls), w, v);
    CoreIsSim(Halt(t.(kids := ks), w).node, Halt(u.(kids := ls), v).node);
  }

  lemma CoreIsSim(t: Node, u: Node)
    requires Core(t, u, false, EVERYWHERE)
    ensures Sim(t, u, EVERYWHERE)
  {}

  lemma RemoveControlTwin(t: Node, u: Node, mod: Mod, w: World, v: World)
    requires Twin(t, u) && Agree(w, v, EVERYWHERE, {}) && mod.Remove? && IsControl(t) && 0 <= mod.index < |t.kids|
    ensures EditTwin(t, u, EditHere(t, mod, w), EditHere(u, mod, v))
  {
    TwinCore(t, u);
    var i := mod.index;
    var ks, ls := t.kids[..i] + t.kids[i + 1..], u.kids[..i] + u.kids[i + 1..];
    RemoveBoth(t.kids, u.kids, i);
    assert Pair(t.kids[i], u.kids[i], false, EVERYWHERE) && Inv(t.kids[i], false) && Inv(u.kids[i], false);
    hide Agree, Pair, Pairs, Inv, InvAll, SameStatus, Sim, Core, SameShape, SameShapes, Halt, Twin;
    PairHalt(t.kids[i], u.kids[i], false, w, v, EVERYWHERE, {});
    var w1, v1 := Halt(t.kids[i], w).w, Halt(u.kids[i], v).w;
    HaltControlTwin(t, u, ks, ls, w1, v1);
    ShapeWith(t, u, ks, ls);
    HaltShapes(t.(kids := ks), u.(kids := ls), w1, v1);
    CoreIsSim(Halt(t.(kids := ks), w1).node, Halt(u.(kids := ls), v1).node);
  }

  lemma InsertDecoratorTwin(t: Node, u: Node, mod: Mod, w: World, v: World)
    requires Twin(t, u) && Agree(w, v, EVERYWHERE, {}) && mod.Insert? && BringsIdle(mod)
    requires !IsControl(t) && !t.info.kind.Leaf? && t.kids != []
    ensures EditTwin(t, u, EditHere(t, mod, w), EditHere(u, mod, v))
  {
    TwinCore(t, u);
    var n := mod.node;
    var t1, u1 := t.(kids := [n]), u.(kids := [n]);
    assert t.kids[0 := n] == [n] == u.kids[0 := n];
    KidSwapInv(t, 0, n);
    KidSwapInv(u, 0, n);
    SameShapeSelf(n);
    ShapeWith(t, u, [n], [n]);
    SwappedCore(t, u, n);
    assert Pair(t.kids[0], u.kids[0], false, EVERYWHERE) && Inv(t.kids[0], false) && Inv(u.kids[0], false);
    hide Agree, Pair, Pairs, Inv, InvAll, Sim, Core, SameShape, SameShapes, Halt, Twin;
    PairHalt(t.kids[0], u.kids[0], false, w, v, EVERYWHERE, {});
    var w1, v1 := Halt(t.kids[0], w).w, Halt(u.kids[0], v).w;
    HaltCore(t1, u1, false, w1, v1, EVERYWHERE, {});
    HaltShapes(t1, u1, w1, v1);
    HaltInv(t1, w1, false);
    HaltInv(u1, v1, false);
    CoreIsSim(Halt(t1, w1).node, Halt(u1, v1).node);
  }

  lemma SwappedCore(t: Node, u: Node, n: Node)
    requires Core(t, u, false, EVERYWHERE) && !t.info.kind.Parallel?
    ensures Core(t.(kids := [n]), u.(kids := [n]), false, EVERYWHERE)
  {
    SimSame(n);
    assert Pair(n, n, false, EVERYWHERE);
  }

  lemma EditHereTwin(t: Node, u: Node, mod: Mod, w: World, v: World)
    requires Twin(t, u) && Agree(w, v, EVERYWHERE, {}) && BringsIdle(mod)
    ensures EditTwin(t, u, EditHere(t, mod, w), EditHere(u, mod, v))
  {
    TwinCore(t, u);
    hide EditTwin, Agree, Inv, SameShape, Sim, Core, Pairs, InvAll, Halt;
    match mod {
      case Replace(_, _) => ReplaceTwin(t, u, mod, w, v);
      case Insert(_, _, _) =>
        if IsControl(t) {
          InsertControlTwin(t, u, mod, w, v);
        } else if !t.info.kind.Leaf? && t.kids != [] {
          InsertDecoratorTwin(t, u, mod, w, v);
        } else {
          UntouchedTwin(t, u, w, v, true);
        }
      case Remove(_, index) =>
        if IsControl(t) && 0 <= index < |t.kids| {
          RemoveControlTwin(t, u, mod, w, v);
        } else {
          UntouchedTwin(t, u, w, v, true);
        }
    }
  }

  lemma UntouchedTwin(t: Node, u: Node, w: World, v: World, found: bool)
    requires Twin(t, u) && Agree(w, v, EVERYWHERE, {})
    ensures EditTwin(t, u, Edited(found, t, [], w), Edited(found, u, [], v))
  {}

  /** The same modification of two matching trees hits the same node, calls the same halts, and
      leaves matching trees. */
  lemma {:induction false} EditSim(t: Node, u: Node, mod: Mod, w: World, v: World)
    requires Twin(t, u) && Agree(w, v, EVERYWHERE, {}) && BringsIdle(mod)
    ensures EditTwin(t, u, Edit(t, mod, w), Edit(u, mod, v))
    decreases t, 1
  {
    TwinCore(t, u);
    hide EditTwin, Agree, Inv, SameShape, Sim, Core, Pairs, InvAll;
    if t.info.uid == mod.target {
      EditHereTwin(t, u, mod, w, v);
    } else {
      EditFromSim(t.kids, u.kids, 0, mod, w, v);
      var r, q := EditFrom(t.kids, 0, mod, w), EditFrom(u.kids, 0, mod, v);
      if r.at < |t.kids| {
        EditSim(t.kids[r.at], u.kids[r.at], mod, w, v);
        PathTwin(t, u, r.at, r.e, q.e);
      } else {
        UntouchedTwin(t, u, w, v, false);
      }
    }
  }

  lemma {:induction false} EditFromSim(ks: seq<Node>, ls: seq<Node>, i: nat, mod: Mod, w: World, v: World)
    requires i <= |ks| == |ls| && Agree(w, v, EVERYWHERE, {}) && BringsIdle(mod)
    requires forall j | 0 <= j < |ks| :: Twin(ks[j], ls[j])
    ensures EditFrom(ks, i, mod, w).at == EditFrom(ls, i, mod, v).at
    decreases ks, |ks| - i
  {
    hide Agree, Twin, Edit, BringsIdle;
    if i < |ks| {
      EditSim(ks[i], ls[i], mod, w, v);
      EditFromSim(ks, ls, i + 1, mod, w, v);
    }
  }

  lemma PathTwin(t: Node, u: Node, at: nat, e: Edited, f: Edited)
    requires Twin(t, u) && at < |t.kids| && at < |u.kids| && EditTwin(t.kids[at], u.kids[at], e, f)
    ensures EditTwin(t, u, Edited(true, t.(kids := t.kids[at := e.node]), e.removed, e.w),
                     Edited(true, u.(kids := u.kids[at := f.node]), f.removed, f.w))
  {
    TwinCore(t, u);
    var t1, u1 := t.(kids := t.kids[at := e.node]), u.(kids := u.kids[at := f.node]);
    assert Pair(e.node, f.node, false, EVERYWHERE);
    hide Agree, Sim;
    assert Core(t1, u1, false, EVERYWHERE);
    CoreIsSim(t1, u1);
    ShapeWith(t, u, t1.kids, u1.kids);
  }

  // ----- runs ---------------------------------------------------------------------------------

  /** What the ticks of a live run return. */
  function Responses(t: Node, w: World, acts: seq<Act>): seq<Status>
    decreases |acts|
  {
    if acts == [] then []
    else
      match acts[0]
      case Do(op) =>
        var s := Perform(t, w, op);
        (if op.TickOp? then [s.node.status] else []) + Responses(s.node, s.w, acts[1..])
      case Change(mod) => var e := Edit(t, mod, w); Responses(e.node, e.w, acts[1..])
  }

  ghost predicate BringIdle(acts: seq<Act>) {
    forall i | 0 <= i < |acts| && acts[i].Change? :: BringsIdle(acts[i].mod)
  }

  ghost predicate SameLive(t: Node, w: World, u: Node, v: World, acts: seq<Act>) {
    Responses(t, w, acts) == Responses(u, v, acts) && Live(t, w, acts).w.trace == Live(u, v, acts).w.trace
  }

  lemma PerformTwin(t: Node, u: Node, w: World, v: World, op: Op)
    requires Twin(t, u) && Agree(w, v, EVERYWHERE, {})
    ensures var a := Perform(t, w, op); var b := Perform(u, v, op);
      Twin(a.node, b.node) && Agree(a.w, b.w, EVERYWHERE, {}) && (op.TickOp? ==> a.node.status == b.node.status)
  {
    hide Agree, Sim, Inv, SameShape, Tick, Halt, Write;
    PerformInv(t, w, op, false);
    PerformInv(u, v, op, false);
    match op {
      case TickOp =>
        TickSim(t, u, w, v, EVERYWHERE, {});
        TickShapes(t, u, w, v);
      case HaltOp =>
        HaltSim(t, u, w, v, EVERYWHERE, {});
        HaltShapes(t, u, w, v);
      case WriteOp(boards) => AgreeWrite(w, v, EVERYWHERE, {}, boards);
    }
  }

  lemma TickShapes(t: Node, u: Node, w: World, v: World)
    requires SameShape(t, u)
    ensures SameShape(Tick(t, w).node, Tick(u, v).node)
  {
    hide SameShape, Tick, Beside;
    TickBeside(t, w, Uids(t));
    TickBeside(u, v, Uids(u));
    SameShapeSym(t, Tick(t, w).node);
    SameShapeTrans(Tick(t, w).node, t, u);
    SameShapeTrans(Tick(t, w).node, u, Tick(u, v).node);
  }

  /** Matching trees answer every run with the same statuses and the same calls, also when both
      are modified in the same way. */
  lemma {:induction false} SameLiveRuns(t: Node, u: Node, w: World, v: World, acts: seq<Act>)
    requires Twin(t, u) && Agree(w, v, EVERYWHERE, {}) && BringIdle(acts)
    ensures SameLive(t, w, u, v, acts)
    decreases |acts|
  {
    if acts == [] {
      assert w.trace == v.trace;
    } else {
      assert BringIdle(acts[1..]);
      hide Twin, Agree, Perform, Edit, BringsIdle, BringIdle;
      match acts[0] {
        case Do(op) =>
          PerformTwin(t, u, w, v, op);
          var a, b := Perform(t, w, op), Perform(u, v, op);
          SameLiveRuns(a.node, b.node, a.w, b.w, acts[1..]);
        case Change(mod) =>
          assert BringsIdle(mod) by { FirstBrings(acts); }
          EditTwins(t, u, w, v, mod);
          var e, f := Edit(t, mod, w), Edit(u, mod, v);
          SameLiveRuns(e.node, f.node, e.w, f.w, acts[1..]);
      }
    }
  }

  lemma FirstBrings(acts: seq<Act>)
    requires acts != [] && BringIdle(acts) && acts[0].Change?
    ensures BringsIdle(acts[0].mod)
  {}

  lemma EditTwins(t: Node, u: Node, w: World, v: World, mod: Mod)
    requires Twin(t, u) && Agree(w, v, EVERYWHERE, {}) && BringsIdle(mod)
    ensures var e := Edit(t, mod, w); var f := Edit(u, mod, v);
      Twin(e.node, f.node) && Agree(e.w, f.w, EVERYWHERE, {})
  {
    hide Agree, Sim, SameShape, Edit;
    EditSim(t, u, mod, w, v);
    EditInv(t, mod, w);
    EditInv(u, mod, v);
  }

  /** A tree whose root is not RUNNING and whose rate limiters hold nothing, whatever it has been
      through, answers every later run, modifications included, with the statuses and the calls
      of a newly built copy. */
  lemma RestingLiveTreesAreFresh(t: Node, w: World, acts: seq<Act>)
    requires Inv(t, false) && t.status != Running && CachesEmpty(t) && BringIdle(acts)
    requires ReactiveUids(t) !! w.subs.Keys
    ensures SameLive(t, w, Fresh(t), AsNew(w, t), acts)
  {
    FreshSim(t);
    FreshInv(t, false);
    FreshShape(t);
    forall x ensures AgreeAt(w, AsNew(w, t), x, false) {}
    SameLiveRuns(t, Fresh(t), w, AsNew(w, t), acts);
  }

  lemma {:induction false} FreshShape(t: Node)
    ensures SameShape(t, Fresh(t))
  {
    forall j | 0 <= j < |t.kids| ensures SameShape(t.kids[j], Fresh(t).kids[j]) { FreshShape(t.kids[j]); }
  }

  /** From any sound state: whenever, after any run of ticks, halts, writes and modifications, the
      root is not RUNNING and no rate limiter holds a result, the tree answers every later run of
      the same sort with the statuses and the calls of a new copy. */
  lemma RestingAfterAnyRun(t: Node, w: World, before: seq<Act>, acts: seq<Act>)
    requires Sound(t, w) && Legal(t, w, before) && BringIdle(acts)
    requires var s := Live(t, w, before); s.node.status != Running && CachesEmpty(s.node)
    ensures var s := Live(t, w, before);
      SameLive(s.node, s.w, Fresh(s.node), AsNew(s.w, s.node), acts)
  {
    var s := Live(t, w, before);
    hide Live, SameLive, BringIdle, CachesEmpty;
    LiveSound(t, w, before);
    RestingUnsubscribed(s.node, s.w, false);
    RestingLiveTreesAreFresh(s.node, s.w, acts);
  }

  /** There is no RateController in the tree. */
  ghost predicate NoRates(t: Node) {
    !t.info.kind.Rate? && forall i | 0 <= i < |t.kids| :: NoRates(t.kids[i])
  }

  /** A tree without RateControllers holds no such result. */
  lemma {:induction false} NoRatesRest(t: Node)
    requires NoRates(t)
    ensures CachesEmpty(t)
  {
    forall i | 0 <= i < |t.kids| ensures CachesEmpty(t.kids[i]) { NoRatesRest(t.kids[i]); }
  }

  // ----- a resting RateController ------------------------------------------------------------------

  lemma RateTick(t: Node, w: World, period: real)
    requires t.info.kind == Rate(period) && t.kids != []
    ensures var b := TickRate(t, period, w);
      Tick(t, w) == Step(b.node.(status := b.result), Tell(b.w, Ticked(t.info.uid, b.result)))
  {
    assert TickBody(t, w) == TickDecorator(t, w) == TickRate(t, period, w);
  }

  /** Resting under an empty or outdated cache: the first tick makes it the same as a new copy. */
  lemma PollingRate(t: Node, w: World, period: real)
    requires Inv(t, false) && t.status != Running && t.info.kind == Rate(period) && CachesEmpty(t.kids[0])
    requires Polls(t, w, period) && ReactiveUids(t) !! w.subs.Keys
    ensures var f, v := Fresh(t), AsNew(w, t);
      && Twin(Tick(t, w).node, Tick(f, v).node) && Agree(Tick(t, w).w, Tick(f, v).w, EVERYWHERE, {})
      && Tick(t, w).node.status == Tick(f, v).node.status
  {
    var f, v := Fresh(t), AsNew(w, t);
    var k, l := t.kids[0], Fresh(t.kids[0]);
    assert f.kids == [l] && !On(k) && Inv(k, false);
    var w1, v1 := ReadClock(w, t.info.uid), ReadClock(v, t.info.uid);
    RateTick(t, w, period);
    RateTick(f, v, period);
    FreshSim(k);
    RateArity(t);
    FreshInv(t, false);
    FreshInv(k, false);
    FreshShape(t);
    forall x ensures AgreeAt(w1, v1, x, false) {}
    TickSim(k, l, w1, v1, EVERYWHERE, {});
    TickInv(t, w, false);
    TickInv(f, v, false);
    TickShapes(t, f, w, v);
    hide Tick, Inv, SameShape, Sim, Agree, CachesEmpty;
    var a, b := Tick(k, w1), Tick(l, v1);
    AgreeTell(a.w, b.w, EVERYWHERE, {}, Ticked(t.info.uid, a.node.status), Ticked(t.info.uid, b.node.status));
    PolledSim(t, w, period, a, b, Tick(t, w).node, Tick(f, v).node);
  }

  lemma RateArity(t: Node)
    requires Inv(t, false) && t.status != Running && t.info.kind.Rate? && CachesEmpty(t.kids[0])
    ensures ArityAll(t)
  {
    FreshSim(t.kids[0]);
  }

  lemma PolledSim(t: Node, w: World, period: real, a: Step, b: Step, s: Node, f: Node)
    requires t.info.kind == Rate(period) && |t.kids| == 1
    requires Sim(a.node, b.node, EVERYWHERE) && a.node.status == b.node.status
    requires s.info == t.info == f.info && s.status == a.node.status == f.status
    requires s.kids == [a.node] && f.kids == [b.node] && s.mem.cache == f.mem.cache
    ensures Sim(s, f, EVERYWHERE)
  {
    assert Pair(a.node, b.node, false, EVERYWHERE);
    assert Core(s, f, false, EVERYWHERE);
  }

  /** With a resting RateController it is the cache that decides.  Empty or outdated, and the
      tree answers every later run that begins with a tick like a new copy.  Otherwise the tick
      answers the cached result and reaches no child; and then it agrees with that of a new copy
      exactly when the copy's child happens to answer that result without calling anything. */
  lemma RestingRate(t: Node, w: World, period: real, acts: seq<Act>)
    requires Inv(t, false) && t.status != Running && t.info.kind == Rate(period) && CachesEmpty(t.kids[0])
    requires ReactiveUids(t) !! w.subs.Keys && BringIdle(acts)
    ensures Polls(t, w, period) ==> SameLive(t, w, Fresh(t), AsNew(w, t), [Do(TickOp)] + acts)
    ensures !Polls(t, w, period) ==>
      (var s := Tick(t, w); var w1 := ReadClock(w, t.info.uid);
       var k := Tick(Fresh(t).kids[0], ReadClock(AsNew(w, t), t.info.uid));
       && s.node.status == t.mem.cache.value.result && s.node.kids == t.kids && s.w.trace == w1.trace
       && (SameLive(t, w, Fresh(t), AsNew(w, t), [Do(TickOp)]) <==>
             k.node.status == t.mem.cache.value.result && k.w.trace == w1.trace))
  {
    var f, v := Fresh(t), AsNew(w, t);
    if Polls(t, w, period) {
      hide Tick, Twin, Inv, Agree, CachesEmpty;
      OneTickLive(t, w, acts);
      OneTickLive(f, v, acts);
      PollingRate(t, w, period);
      SameLiveRuns(Tick(t, w).node, Tick(f, v).node, Tick(t, w).w, Tick(f, v).w, acts);
    } else {
      assert |t.kids| == 1;
      hide SameLive, Tick, Inv, CachesEmpty;
      OneTickSame(t, w, f, v);
      ReplayingRate(t, w, period);
    }
  }

  lemma OneTickSame(t: Node, w: World, u: Node, v: World)
    ensures SameLive(t, w, u, v, [Do(TickOp)]) <==>
      Tick(t, w).node.status == Tick(u, v).node.status && Tick(t, w).w.trace == Tick(u, v).w.trace
  {
    hide Tick;
    OneTickLive(t, w, []);
    OneTickLive(u, v, []);
    assert [Do(TickOp)] + [] == [Do(TickOp)];
    var a, b := Tick(t, w), Tick(u, v);
    assert Responses(t, w, [Do(TickOp)]) == [a.node.status] && Responses(u, v, [Do(TickOp)]) == [b.node.status];
    assert [a.node.status][0] == a.node.status;
  }

  lemma ReplayingRate(t: Node, w: World, period: real)
    requires t.info.kind == Rate(period) && |t.kids| == 1 && !Polls(t, w, period)
    ensures var s := Tick(t, w); var f := Tick(Fresh(t), AsNew(w, t));
      var w1 := ReadClock(w, t.info.uid); var k := Tick(Fresh(t).kids[0], ReadClock(AsNew(w, t), t.info.uid));
      && s.node.status == t.mem.cache.value.result && s.node.kids == t.kids && s.w.trace == w1.trace
      && f.node.status == k.node.status && f.w.trace == k.w.trace
  {
    RateTick(t, w, period);
    RateTick(Fresh(t), AsNew(w, t), period);
    hide Tick;
  }

  lemma OneTickLive(t: Node, w: World, acts: seq<Act>)
    ensures var s := Tick(t, w); var all := [Do(TickOp)] + acts;
      && Responses(t, w, all) == [s.node.status] + Responses(s.node, s.w, acts)
      && Live(t, w, all) == Live(s.node, s.w, acts)
  {
    assert ([Do(TickOp)] + acts)[1..] == acts;
  }
}
