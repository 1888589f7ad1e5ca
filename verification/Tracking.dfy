/** What the outside is told agrees with the statuses in the tree: the Inspector's running
    set, the hook calls of stateful leaves, and the subscriptions of reactive nodes. */
module Tracking {
  import opened Worlds
  import opened Engine
  import opened Invariants

  // ----- three ledgers ----------------------------------------------------------

  /** The Inspector's running set after these notifications. */
  function RunningSet(notes: seq<Note>): set<Uid> {
    if notes == [] then {} else AfterNote(RunningSet(notes[..|notes| - 1]), notes[|notes| - 1])
  }

  function AfterNote(on: set<Uid>, note: Note): set<Uid> {
    match note
    case Ticked(u, r) => if r == Running then on + {u} else on - {u}
    case Stopped(u) => on - {u}
  }

  /** For stateful leaf `u`: calls of `on_start`, less terminal results, less calls of `on_halted`. */
  function OpenActivations(trace: seq<Event>, u: Uid): int {
    if trace == [] then 0
    else OpenActivations(trace[..|trace| - 1], u) + Opening(trace[|trace| - 1], u)
  }

  function Opening(e: Event, u: Uid): int {
    match e
    case Called(x, hook, r) =>
      if x != u || hook == Plain then 0 else (if hook == Start then 1 else 0) - (if Terminal(r) then 1 else 0)
    case Halted(x) => if x == u then -1 else 0
    case ClockRead(_) => 0
  }

  lemma Snoc(notes: seq<Note>, note: Note, trace: seq<Event>, e: Event)
    ensures RunningSet(notes + [note]) == AfterNote(RunningSet(notes), note)
    ensures forall u :: OpenActivations(trace + [e], u) == OpenActivations(trace, u) + Opening(e, u)
  {
    assert (notes + [note])[..|notes|] == notes;
    assert (trace + [e])[..|trace|] == trace;
  }

  // ----- identity of nodes --------------------------------------------------------

  function Uids(t: Node): set<Uid> { {t.info.uid} + UidsFrom(t.kids, 0) }

  function UidsFrom(kids: seq<Node>, i: nat): set<Uid>
    requires i <= |kids|
    decreases kids, |kids| - i
  {
    if i == |kids| then {} else Uids(kids[i]) + UidsFrom(kids, i + 1)
  }

  /** No uid occurs twice in the tree. */
  ghost predicate Distinct(t: Node) {
    t.info.uid !in UidsFrom(t.kids, 0) && DistinctFrom(t.kids, 0)
  }

  ghost predicate DistinctFrom(kids: seq<Node>, i: nat)
    requires i <= |kids|
    decreases kids, |kids| - i
  {
    i < |kids| ==> Distinct(kids[i]) && Uids(kids[i]) !! UidsFrom(kids, i + 1) && DistinctFrom(kids, i + 1)
  }

  /** Same nodes in the same places; fields and statuses may differ. */
  ghost predicate SameShape(t: Node, u: Node) {
    t.info == u.info && |t.kids| == |u.kids| && forall j | 0 <= j < |t.kids| :: SameShape(t.kids[j], u.kids[j])
  }

  ghost predicate SameShapes(ks: seq<Node>, ls: seq<Node>) {
    |ks| == |ls| && forall j | 0 <= j < |ks| :: SameShape(ks[j], ls[j])
  }

  lemma {:induction false} SameShapeSelf(t: Node)
    ensures SameShape(t, t)
  {
    forall j | 0 <= j < |t.kids| ensures SameShape(t.kids[j], t.kids[j]) { SameShapeSelf(t.kids[j]); }
  }

  lemma {:induction false} SameShapeTrans(t: Node, u: Node, v: Node)
    requires SameShape(t, u) && SameShape(u, v)
    ensures SameShape(t, v)
  {
    forall j | 0 <= j < |t.kids| ensures SameShape(t.kids[j], v.kids[j]) {
      SameShapeTrans(t.kids[j], u.kids[j], v.kids[j]);
    }
  }

  lemma {:induction false} ShapeFacts(t: Node, u: Node)
    requires SameShape(t, u)
    ensures Uids(t) == Uids(u) && Boards(t) == Boards(u) && (Distinct(t) <==> Distinct(u))
    decreases t, 1
  {
    ShapeFactsFrom(t.kids, u.kids, 0);
  }

  lemma {:induction false} ShapeFactsFrom(ks: seq<Node>, ls: seq<Node>, i: nat)
    requires SameShapes(ks, ls) && i <= |ks|
    ensures UidsFrom(ks, i) == UidsFrom(ls, i) && KidBoards(ks, i) == KidBoards(ls, i)
    ensures DistinctFrom(ks, i) <==> DistinctFrom(ls, i)
    decreases ks, |ks| - i
  {
    if i < |ks| {
      ShapeFacts(ks[i], ls[i]);
      ShapeFactsFrom(ks, ls, i + 1);
    }
  }

  // ----- agreement between tree and ledgers -----------------------------------------

  /** A reactive node's subscription entry.  `exact`: while RUNNING it is subscribed to its
      children's boards, which holds as long as no child is replaced behind its back. */
  ghost predicate SubOk(t: Node, on: bool, w: World, exact: bool) {
    if on && KidBoards(t.kids, 0) != {} then
      exact ==> t.info.uid in w.subs && w.subs[t.info.uid] == KidBoards(t.kids, 0)
    else
      (!on || exact) ==> t.info.uid !in w.subs
  }

  /** One node's entries, were its status RUNNING (`on`) or not. */
  ghost predicate EntriesOk(t: Node, on: bool, w: World, exact: bool) {
    && OpenActivations(w.trace, t.info.uid) == (if on && t.info.kind == Leaf(Stateful) then 1 else 0)
    && if t.info.kind.Reactive? then SubOk(t, on, w, exact) else t.info.uid !in w.subs
  }

  /** Every node of the tree: in the running set iff RUNNING; a stateful leaf has one open
      activation iff RUNNING, other nodes none; a reactive node is subscribed iff RUNNING. */
  ghost predicate Ok(t: Node, w: World, exact: bool) {
    && (t.info.uid in RunningSet(w.notes) <==> t.status == Running)
    && EntriesOk(t, t.status == Running, w, exact)
    && forall j | 0 <= j < |t.kids| :: Ok(t.kids[j], w, exact)
  }

  ghost predicate OkFrom(kids: seq<Node>, i: nat, w: World, exact: bool) {
    forall j | i <= j < |kids| :: Ok(kids[j], w, exact)
  }

  /** The ledgers say the same about every uid outside `U`. */
  ghost predicate Framed(w: World, v: World, U: set<Uid>) {
    forall x | x !in U :: SameAt(w, v, x)
  }

  ghost predicate SameAt(w: World, v: World, x: Uid) {
    && (x in RunningSet(w.notes) <==> x in RunningSet(v.notes))
    && OpenActivations(w.trace, x) == OpenActivations(v.trace, x)
    && (x in w.subs <==> x in v.subs)
    && (x in w.subs ==> w.subs[x] == v.subs[x])
  }

  lemma FramedTrans(w: World, v: World, z: World, U: set<Uid>, V: set<Uid>, W: set<Uid>)
    requires Framed(w, v, U) && Framed(v, z, V) && U <= W && V <= W
    ensures Framed(w, z, W)
  {
    forall x | x !in W ensures SameAt(w, z, x) {
      assert SameAt(w, v, x) && SameAt(v, z, x);
    }
  }

  lemma {:induction false} OkFramed(t: Node, w: World, v: World, U: set<Uid>, exact: bool)
    requires Ok(t, w, exact) && Framed(w, v, U) && Uids(t) !! U
    ensures Ok(t, v, exact)
    decreases t, 1
  {
    assert SameAt(w, v, t.info.uid);
    OkFromFramed(t.kids, 0, w, v, U, exact);
  }

  lemma {:induction false} OkFromFramed(kids: seq<Node>, i: nat, w: World, v: World, U: set<Uid>, exact: bool)
    requires i <= |kids| && OkFrom(kids, i, w, exact) && Framed(w, v, U) && UidsFrom(kids, i) !! U
    ensures OkFrom(kids, i, v, exact)
    decreases kids, |kids| - i
  {
    if i < |kids| {
      OkFramed(kids[i], w, v, U, exact);
      OkFromFramed(kids, i + 1, w, v, U, exact);
    }
  }

  // ----- the primitive steps ----------------------------------------------------------

  lemma FramedTell(w: World, note: Note)
    ensures Framed(w, Tell(w, note), {note.uid})
    ensures RunningSet(Tell(w, note).notes) == AfterNote(RunningSet(w.notes), note)
  {
    Snoc(w.notes, note, [], ClockRead(0));
    forall x | x !in {note.uid} ensures SameAt(w, Tell(w, note), x) {}
  }

  lemma FramedCall(w: World, u: Uid, hook: Hook)
    ensures Framed(w, Call(w, u, hook), {u}) && Framed(w, CallHalted(w, u), {u}) && Framed(w, ReadClock(w, u), {})
    ensures Call(w, u, hook).notes == w.notes && CallHalted(w, u).notes == w.notes
    ensures OpenActivations(Call(w, u, hook).trace, u)
         == OpenActivations(w.trace, u) + Opening(Called(u, hook, CallReply(w, u, hook).result), u)
    ensures OpenActivations(CallHalted(w, u).trace, u) == OpenActivations(w.trace, u) - 1
  {
    Snoc([], Stopped(0), w.trace, Called(u, hook, CallReply(w, u, hook).result));
    Snoc([], Stopped(0), w.trace, Halted(u));
    Snoc([], Stopped(0), w.trace, ClockRead(u));
    forall x | x !in {u} ensures SameAt(w, Call(w, u, hook), x) && SameAt(w, CallHalted(w, u), x) {}
    forall x ensures SameAt(w, ReadClock(w, u), x) {}
  }

  lemma FramedSubs(w: World, u: Uid, boards: set<Board>)
    ensures Framed(w, Subscribe(w, u, boards), {u}) && Framed(w, Unsubscribe(w, u), {u})
    ensures Framed(w, SetDirty(w, u), {}) && Framed(w, ClearDirty(w, u), {})
    ensures Subscribe(w, u, boards).trace == w.trace == Unsubscribe(w, u).trace
  {
    forall x | x !in {u} ensures SameAt(w, Subscribe(w, u, boards), x) && SameAt(w, Unsubscribe(w, u), x) {}
    forall x ensures SameAt(w, SetDirty(w, u), x) && SameAt(w, ClearDirty(w, u), x) {}
  }

  // ----- halt --------------------------------------------------------------------------

  ghost predicate Tracked(t: Node, w: World, s: Step, exact: bool) {
    SameShape(t, s.node) && Ok(s.node, s.w, exact) && Framed(w, s.w, Uids(t))
  }

  ghost predicate TrackedFrom(kids: seq<Node>, i: nat, w: World, after: seq<Node>, v: World, exact: bool)
    requires i <= |kids|
  {
    SameShapes(kids, after) && OkFrom(after, i, v, exact) && Framed(w, v, UidsFrom(kids, i))
  }

  /** Composition: child `i` first, then the children after it. */
  lemma TrackedCons(kids: seq<Node>, i: nat, w: World, s: Step, after: seq<Node>, v: World, exact: bool)
    requires i < |kids| && DistinctFrom(kids, i)
    requires Tracked(kids[i], w, s, exact)
    requires TrackedFrom(kids, i + 1, s.w, after, v, exact)
    ensures TrackedFrom(kids, i, w, after[i := s.node], v, exact)
  {
    hide Ok, SameShape, SameAt;
    ShapeUids(kids[i], s.node);
    OkFramed(s.node, s.w, v, UidsFrom(kids, i + 1), exact);
    FramedTrans(w, s.w, v, Uids(kids[i]), UidsFrom(kids, i + 1), UidsFrom(kids, i));
  }

  lemma ShapeUids(t: Node, u: Node)
    requires SameShape(t, u)
    ensures Uids(t) == Uids(u)
  {
    ShapeFacts(t, u);
  }

  /** Composition when child `i` is passed over. */
  lemma TrackedSkip(kids: seq<Node>, i: nat, w: World, after: seq<Node>, v: World, exact: bool)
    requires i < |kids| && DistinctFrom(kids, i) && OkFrom(kids, i, w, exact)
    requires TrackedFrom(kids, i + 1, w, after, v, exact) && after[i] == kids[i]
    ensures TrackedFrom(kids, i, w, after, v, exact)
  {
    hide Ok, SameShape, SameAt;
    OkFramed(kids[i], w, v, UidsFrom(kids, i + 1), exact);
    FramedTrans(w, w, v, {}, UidsFrom(kids, i + 1), UidsFrom(kids, i)) by { FramedSelf(w); }
  }

  lemma FramedSelf(w: World)
    ensures Framed(w, w, {})
  {
    forall x ensures SameAt(w, w, x) {}
  }

  lemma TrackedNone(kids: seq<Node>, i: nat, w: World, exact: bool)
    requires i <= |kids| && OkFrom(kids, i, w, exact)
    ensures TrackedFrom(kids, i, w, kids, w, exact)
  {
    forall j | 0 <= j < |kids| ensures SameShape(kids[j], kids[j]) { SameShapeSelf(kids[j]); }
    forall x ensures SameAt(w, w, x) {}
  }

  /** After child `i` has changed, the later ones are as they were. */
  lemma OkRest(kids: seq<Node>, i: nat, w: World, s: Step, exact: bool)
    requires i < |kids| && DistinctFrom(kids, i) && OkFrom(kids, i, w, exact) && Framed(w, s.w, Uids(kids[i]))
    ensures OkFrom(kids, i + 1, s.w, exact)
  {
    OkFromFramed(kids, i + 1, w, s.w, Uids(kids[i]), exact);
  }

  lemma {:induction false} HaltTracked(t: Node, w: World, exact: bool)
    requires Inv(t, false) && Distinct(t) && Ok(t, w, exact)
    ensures Tracked(t, w, Halt(t, w), exact)
    decreases t, 2
  {
    HaltTrackedKids(t, w, exact);
  }

  /** A halt needs nothing of the node's own fields. */
  lemma {:induction false} HaltTrackedKids(t: Node, w: World, exact: bool)
    requires InvAll(t.kids, false) && Distinct(t) && Ok(t, w, exact)
    ensures Tracked(t, w, Halt(t, w), exact)
    decreases t, 1
  {
    assert InvAll(t.kids, false) && OkFrom(t.kids, 0, w, exact);
    var w1 := if t.status == Running then Tell(OnHaltWorld(t, w), Stopped(t.info.uid)) else w;
    OnHaltTracked(t, w, exact);
    hide Ok, Inv, SameShape, HaltFrom, HaltRunning, ResetTerminal;
    var u := {t.info.uid};
    OkFromFramed(t.kids, 0, w, w1, u, exact);
    if t.info.kind.Parallel? {
      ClearKidsTracked(t.kids, w1, exact);
    } else {
      HaltFromTracked(t.kids, 0, w1, exact);
    }
    var h := Halt(t, w);
    FramedTrans(w, w1, h.w, u, UidsFrom(t.kids, 0), Uids(t));
    HaltOk(t, h.node, w1, h.w, exact);
  }

  /** `_on_halt()` and the notification settle a node's own entries. */
  lemma OnHaltTracked(t: Node, w: World, exact: bool)
    requires Ok(t, w, exact)
    ensures var w1 := if t.status == Running then Tell(OnHaltWorld(t, w), Stopped(t.info.uid)) else w;
      && Framed(w, w1, {t.info.uid})
      && t.info.uid !in RunningSet(w1.notes) && EntriesOk(t, false, w1, exact)
  {
    hide OpenActivations, RunningSet, Framed;
    var u := t.info.uid;
    FramedCall(w, u, Plain);
    FramedSubs(w, u, {});
    FramedTell(OnHaltWorld(t, w), Stopped(u));
    FramedSelfMore(w, u);
    if t.status == Running {
      FramedTrans(w, OnHaltWorld(t, w), Tell(OnHaltWorld(t, w), Stopped(u)), {u}, {u}, {u});
    }
  }

  lemma HaltOk(t: Node, h: Node, w: World, v: World, exact: bool)
    requires h.info == t.info && h.status == Idle && t.info.uid !in UidsFrom(t.kids, 0)
    requires TrackedFrom(t.kids, 0, w, h.kids, v, exact)
    requires t.info.uid !in RunningSet(w.notes) && EntriesOk(t, false, w, exact)
    ensures SameShape(t, h) && Ok(h, v, exact)
  {
    assert SameAt(w, v, t.info.uid);
    ShapeFactsFrom(t.kids, h.kids, 0);
  }

  lemma {:induction false} HaltFromTracked(kids: seq<Node>, i: nat, w: World, exact: bool)
    requires i <= |kids| && InvAll(kids, false) && DistinctFrom(kids, i) && OkFrom(kids, i, w, exact)
    ensures TrackedFrom(kids, i, w, HaltFrom(kids, i, w).kids, HaltFrom(kids, i, w).w, exact)
    decreases kids, |kids| - i
  {
    hide Ok, Inv, SameShape, TrackedFrom, Framed;
    if i == |kids| {
      TrackedNone(kids, i, w, exact);
    } else {
      HaltTracked(kids[i], w, exact);
      var s := Halt(kids[i], w);
      OkRest(kids, i, w, s, exact);
      HaltFromTracked(kids, i + 1, s.w, exact);
      var r := HaltFrom(kids, i + 1, s.w);
      TrackedCons(kids, i, w, s, r.kids, r.w, exact);
    }
  }

  lemma {:induction false} HaltRunningTracked(kids: seq<Node>, i: nat, w: World, exact: bool)
    requires i <= |kids| && InvAll(kids, false) && DistinctFrom(kids, i) && OkFrom(kids, i, w, exact)
    ensures TrackedFrom(kids, i, w, HaltRunning(kids, i, w).kids, HaltRunning(kids, i, w).w, exact)
    decreases kids, |kids| - i
  {
    hide Ok, Inv, SameShape, TrackedFrom, Framed;
    if i == |kids| {
      TrackedNone(kids, i, w, exact);
    } else if kids[i].status == Running {
      HaltTracked(kids[i], w, exact);
      var s := Halt(kids[i], w);
      OkRest(kids, i, w, s, exact);
      HaltRunningTracked(kids, i + 1, s.w, exact);
      var r := HaltRunning(kids, i + 1, s.w);
      TrackedCons(kids, i, w, s, r.kids, r.w, exact);
    } else {
      HaltRunningTracked(kids, i + 1, w, exact);
      TrackedSkip(kids, i, w, HaltRunning(kids, i + 1, w).kids, HaltRunning(kids, i + 1, w).w, exact);
    }
  }

  lemma {:induction false} ResetTracked(t: Node, w: World, exact: bool)
    requires Inv(t, false) && Distinct(t) && Ok(t, w, exact) && t.status != Running
    ensures Tracked(t, w, Reset(t, w), exact)
    decreases t, 1
  {
    var w1 := if t.info.kind.Reactive? then SetDirty(w, t.info.uid) else w;
    FramedSubs(w, t.info.uid, {});
    forall x ensures SameAt(w, w, x) {}
    OkFromFramed(t.kids, 0, w, w1, {}, exact);
    ResetFromTracked(t.kids, 0, w1, exact);
    var h := Reset(t, w);
    FramedTrans(w, w1, h.w, {}, UidsFrom(t.kids, 0), Uids(t));
    HaltOk(t, h.node, w1, h.w, exact);
  }

  lemma {:induction false} ResetFromTracked(kids: seq<Node>, i: nat, w: World, exact: bool)
    requires i <= |kids| && InvAll(kids, false) && DistinctFrom(kids, i) && OkFrom(kids, i, w, exact)
      && NoKidRunning(kids)
    ensures TrackedFrom(kids, i, w, ResetFrom(kids, i, w).kids, ResetFrom(kids, i, w).w, exact)
    decreases kids, |kids| - i
  {
    hide Ok, Inv, SameShape, TrackedFrom, Framed;
    if i == |kids| {
      TrackedNone(kids, i, w, exact);
    } else {
      ResetTracked(kids[i], w, exact);
      var s := Reset(kids[i], w);
      OkRest(kids, i, w, s, exact);
      ResetFromTracked(kids, i + 1, s.w, exact);
      var r := ResetFrom(kids, i + 1, s.w);
      TrackedCons(kids, i, w, s, r.kids, r.w, exact);
    }
  }

  lemma {:induction false} ResetTerminalTracked(kids: seq<Node>, i: nat, w: World, exact: bool)
    requires i <= |kids| && InvAll(kids, false) && DistinctFrom(kids, i) && OkFrom(kids, i, w, exact)
      && NoKidRunning(kids)
    ensures TrackedFrom(kids, i, w, ResetTerminal(kids, i, w).kids, ResetTerminal(kids, i, w).w, exact)
    decreases |kids| - i
  {
    hide Ok, Inv, SameShape, TrackedFrom, Framed;
    if i == |kids| {
      TrackedNone(kids, i, w, exact);
    } else if Terminal(kids[i].status) {
      ResetTracked(kids[i], w, exact);
      var s := Reset(kids[i], w);
      OkRest(kids, i, w, s, exact);
      ResetTerminalTracked(kids, i + 1, s.w, exact);
      var r := ResetTerminal(kids, i + 1, s.w);
      TrackedCons(kids, i, w, s, r.kids, r.w, exact);
    } else {
      ResetTerminalTracked(kids, i + 1, w, exact);
      TrackedSkip(kids, i, w, ResetTerminal(kids, i + 1, w).kids, ResetTerminal(kids, i + 1, w).w, exact);
    }
  }

  lemma TrackedThen(ks: seq<Node>, w: World, ls: seq<Node>, v: World, ms: seq<Node>, z: World, exact: bool)
    requires TrackedFrom(ks, 0, w, ls, v, exact) && TrackedFrom(ls, 0, v, ms, z, exact)
    ensures TrackedFrom(ks, 0, w, ms, z, exact)
  {
    hide SameShape, Ok, SameAt;
    ShapeFactsFrom(ks, ls, 0);
    forall j | 0 <= j < |ks| ensures SameShape(ks[j], ms[j]) { SameShapeTrans(ks[j], ls[j], ms[j]); }
    FramedTrans(w, v, z, UidsFrom(ks, 0), UidsFrom(ks, 0), UidsFrom(ks, 0));
  }

  lemma {:induction false} ClearKidsTracked(kids: seq<Node>, w: World, exact: bool)
    requires InvAll(kids, false) && DistinctFrom(kids, 0) && OkFrom(kids, 0, w, exact)
    ensures var h := HaltRunning(kids, 0, w); var r := ResetTerminal(h.kids, 0, h.w);
      TrackedFrom(kids, 0, w, r.kids, r.w, exact)
    decreases kids, |kids| + 1
  {
    var h := HaltRunning(kids, 0, w);
    HaltRunningTracked(kids, 0, w, exact);
    HaltRunningInv(kids, 0, w, false);
    ShapeFactsFrom(kids, h.kids, 0);
    ResetTerminalTracked(h.kids, 0, h.w, exact);
    var r := ResetTerminal(h.kids, 0, h.w);
    TrackedThen(kids, w, h.kids, h.w, r.kids, r.w, exact);
  }

  // ----- composing over a child list ------------------------------------------------------

  /** What happened from child `i` on, told of the whole list. */
  lemma {:induction false} TrackedWhole(kids: seq<Node>, i: nat, w: World, after: seq<Node>, v: World, exact: bool)
    requires i <= |kids| == |after| && DistinctFrom(kids, 0) && OkFrom(kids, 0, w, exact)
    requires TrackedFrom(kids, i, w, after, v, exact)
    requires forall j | 0 <= j < i :: after[j] == kids[j]
    ensures TrackedFrom(kids, 0, w, after, v, exact)
    decreases i
  {
    if i > 0 {
      DistinctLater(kids, 0, i - 1);
      TrackedSkip(kids, i - 1, w, after, v, exact);
      TrackedWhole(kids, i - 1, w, after, v, exact);
    }
  }

  lemma {:induction false} DistinctLater(kids: seq<Node>, i: nat, j: nat)
    requires i <= j <= |kids| && DistinctFrom(kids, i)
    ensures DistinctFrom(kids, j) && UidsFrom(kids, j) <= UidsFrom(kids, i)
    decreases j - i
  {
    if i < j { DistinctLater(kids, i + 1, j); }
  }

  lemma {:induction false} SameSuffix(ks: seq<Node>, ls: seq<Node>, i: nat)
    requires i <= |ks| == |ls| && forall j | i <= j < |ks| :: ls[j] == ks[j]
    ensures UidsFrom(ls, i) == UidsFrom(ks, i) && (DistinctFrom(ls, i) <==> DistinctFrom(ks, i))
    decreases |ks| - i
  {
    if i < |ks| { SameSuffix(ks, ls, i + 1); }
  }

  /** A step of one child, told of the whole list. */
  lemma TrackedAt(kids: seq<Node>, i: nat, w: World, s: Step, exact: bool)
    requires i < |kids| && DistinctFrom(kids, 0) && OkFrom(kids, 0, w, exact) && Tracked(kids[i], w, s, exact)
    ensures TrackedFrom(kids, 0, w, kids[i := s.node], s.w, exact)
  {
    hide Ok, SameShape, Framed;
    DistinctLater(kids, 0, i);
    OkRest(kids, i, w, s, exact);
    TrackedNone(kids, i + 1, s.w, exact);
    TrackedCons(kids, i, w, s, kids, s.w, exact);
    TrackedWhole(kids, i, w, kids[i := s.node], s.w, exact);
  }

  /** A change of the world that touches no child. */
  lemma TrackedQuiet(kids: seq<Node>, w: World, v: World, u: Uid, exact: bool)
    requires OkFrom(kids, 0, w, exact) && Framed(w, v, {u}) && u !in UidsFrom(kids, 0)
    ensures OkFrom(kids, 0, v, exact)
  {
    OkFromFramed(kids, 0, w, v, {u}, exact);
  }

  // ----- tick ------------------------------------------------------------------------------

  /** A finished body: the children's entries agree, and the node's own will once `b.result` is stored. */
  ghost predicate BodyTracked(t: Node, w: World, b: Body, exact: bool) {
    && b.node.info == t.info
    && SameShapes(t.kids, b.node.kids) && OkFrom(b.node.kids, 0, b.w, exact)
    && Framed(w, b.w, Uids(t))
    && EntriesOk(t, b.result == Running, b.w, exact)
  }

  /** Over any tick, the ledgers go on agreeing with the tree, and say nothing new about others. */
  lemma {:induction false} TickTracked(t: Node, w: World, exact: bool)
    requires Inv(t, false) && Distinct(t) && Ok(t, w, exact)
    ensures Tracked(t, w, Tick(t, w), exact)
    decreases t, 6
  {
    hide TickBody, Inv, Ok, Distinct, Tracked, BodyTracked;
    TickBodyTracked(t, w, exact);
    TellTracked(t, w, TickBody(t, w), exact);
  }

  lemma TellTracked(t: Node, w: World, b: Body, exact: bool)
    requires Distinct(t) && BodyTracked(t, w, b, exact)
    ensures Tracked(t, w, Step(b.node.(status := b.result), Tell(b.w, Ticked(t.info.uid, b.result))), exact)
  {
    var v := Tell(b.w, Ticked(t.info.uid, b.result));
    FramedTell(b.w, Ticked(t.info.uid, b.result));
    FramedTrans(w, b.w, v, Uids(t), {t.info.uid}, Uids(t));
    ShapeFactsFrom(t.kids, b.node.kids, 0);
    TrackedQuiet(b.node.kids, b.w, v, t.info.uid, exact);
  }

  lemma {:induction false} TickBodyTracked(t: Node, w: World, exact: bool)
    requires Inv(t, false) && Distinct(t) && Ok(t, w, exact)
    ensures BodyTracked(t, w, TickBody(t, w), exact)
    decreases t, 5
  {
    hide TickLeaf, TickMemory, TickReactive, TickParallel, TickDecorator, BodyTracked, Uids, OpenActivations;
    match t.info.kind {
      case Leaf(sort) => TickLeafTracked(t, sort, w, exact);
      case Memory(adv) => TickMemoryTracked(t, adv, w, exact);
      case Reactive(adv) => TickReactiveTracked(t, adv, w, exact);
      case Parallel(_, _, _) => TickParallelTracked(t, w, exact);
      case _ => TickDecoratorTracked(t, w, exact);
    }
  }

  lemma TickLeafTracked(t: Node, sort: LeafSort, w: World, exact: bool)
    requires Inv(t, false) && Ok(t, w, exact) && t.info.kind == Leaf(sort)
    ensures BodyTracked(t, w, TickLeaf(t, sort, w), exact)
  {
    hide OpenActivations, RunningSet, Framed;
    var hook := if sort != Stateful then Plain else if t.status == Running then Resume else Start;
    var v := Call(w, t.info.uid, hook);
    FramedCall(w, t.info.uid, hook);
    assert UidsFrom(t.kids, 0) == {};
    FramedSelfMore(v, t.info.uid);
    FramedTrans(w, v, v, {t.info.uid}, {t.info.uid}, Uids(t));
  }

  /** Bodies of nodes that have no entries of their own besides the running set. */
  lemma KidsOnly(t: Node, w: World, b: Body, exact: bool)
    requires !t.info.kind.Leaf? && !t.info.kind.Reactive? && b.node.info == t.info
    requires EntriesOk(t, false, w, exact) && t.info.uid !in UidsFrom(t.kids, 0)
    requires TrackedFrom(t.kids, 0, w, b.node.kids, b.w, exact)
    ensures BodyTracked(t, w, b, exact)
  {
    forall x | x !in Uids(t) ensures SameAt(w, b.w, x) {}
    assert SameAt(w, b.w, t.info.uid);
  }

  lemma TrackedAfterClock(kids: seq<Node>, w: World, u: Uid, after: seq<Node>, v: World, exact: bool)
    requires TrackedFrom(kids, 0, ReadClock(w, u), after, v, exact)
    ensures TrackedFrom(kids, 0, w, after, v, exact)
  {
    hide Ok, SameShape, SameAt;
    FramedCall(w, u, Plain);
    FramedTrans(w, ReadClock(w, u), v, {}, UidsFrom(kids, 0), UidsFrom(kids, 0));
  }

  lemma DecoratorEntries(t: Node, w: World, exact: bool)
    requires Inv(t, false) && Distinct(t) && Ok(t, w, exact)
    requires !t.info.kind.Leaf? && !t.info.kind.Memory? && !t.info.kind.Reactive? && !t.info.kind.Parallel?
    ensures InvAll(t.kids, false) && DistinctFrom(t.kids, 0) && OkFrom(t.kids, 0, w, exact)
    ensures EntriesOk(t, false, w, exact) && t.info.uid !in UidsFrom(t.kids, 0)
    ensures |t.kids| == 1 && Inv(t.kids[0], false) && Distinct(t.kids[0]) && Ok(t.kids[0], w, exact)
  {}

  lemma {:induction false} TickDecoratorTracked(t: Node, w: World, exact: bool)
    requires Inv(t, false) && Distinct(t) && Ok(t, w, exact)
    requires !t.info.kind.Leaf? && !t.info.kind.Memory? && !t.info.kind.Reactive? && !t.info.kind.Parallel?
    ensures BodyTracked(t, w, TickBody(t, w), exact)
    decreases t, 4
  {
    var b := TickBody(t, w);
    assert b == TickDecorator(t, w);
    hide Ok, OkFrom, Inv, InvAll, Tick, TickBody, TickRetry, TickTimeout, TickRate, TrackedFrom, BodyTracked,
          Distinct, DistinctFrom, EntriesOk, UidsFrom;
    DecoratorEntries(t, w, exact);
    match t.info.kind {
      case Relay(_, _) =>
        TickTracked(t.kids[0], w, exact);
        TrackedAt(t.kids, 0, w, Tick(t.kids[0], w), exact);
      case Retry(budget) => TickRetryTracked(t, budget, w, exact);
      case Timeout(duration) => TickTimeoutTracked(t, duration, w, exact);
      case Rate(period) => TickRateTracked(t, period, w, exact);
    }
    KidsOnly(t, w, b, exact);
  }

  lemma OkAfterClock(kids: seq<Node>, w: World, u: Uid, exact: bool)
    requires OkFrom(kids, 0, w, exact)
    ensures OkFrom(kids, 0, ReadClock(w, u), exact)
    ensures kids != [] ==> Ok(kids[0], ReadClock(w, u), exact)
  {
    FramedCall(w, u, Plain);
    OkFromFramed(kids, 0, w, ReadClock(w, u), {}, exact);
  }

  lemma {:induction false} TickTimeoutTracked(t: Node, duration: real, w: World, exact: bool)
    requires InvAll(t.kids, false) && DistinctFrom(t.kids, 0) && OkFrom(t.kids, 0, w, exact) && |t.kids| == 1
    ensures TrackedFrom(t.kids, 0, w, TickTimeout(t, duration, w).node.kids, TickTimeout(t, duration, w).w, exact)
    decreases t, 3
  {
    var b := TickTimeout(t, duration, w);
    var k, w1 := t.kids[0], ReadClock(w, t.info.uid);
    OkAfterClock(t.kids, w, t.info.uid, exact);
    hide Ok, Inv, Tick, Halt, SameShape, Framed, Tracked, TrackedFrom;
    HaltTracked(k, w1, exact);
    TickTracked(k, w1, exact);
    TrackedAt(t.kids, 0, w1, Tick(k, w1), exact);
    TrackedAt(t.kids, 0, w1, Halt(k, w1), exact);
    TrackedAfterClock(t.kids, w, t.info.uid, b.node.kids, b.w, exact);
  }

  lemma {:induction false} TickRateTracked(t: Node, period: real, w: World, exact: bool)
    requires InvAll(t.kids, false) && DistinctFrom(t.kids, 0) && OkFrom(t.kids, 0, w, exact) && |t.kids| == 1
    ensures TrackedFrom(t.kids, 0, w, TickRate(t, period, w).node.kids, TickRate(t, period, w).w, exact)
    decreases t, 3
  {
    var b := TickRate(t, period, w);
    var k, w1 := t.kids[0], ReadClock(w, t.info.uid);
    OkAfterClock(t.kids, w, t.info.uid, exact);
    hide Ok, Inv, Tick, SameShape, Framed, Tracked, TrackedFrom;
    TickTracked(k, w1, exact);
    TrackedAt(t.kids, 0, w1, Tick(k, w1), exact);
    TrackedNone(t.kids, 0, w1, exact);
    TrackedAfterClock(t.kids, w, t.info.uid, b.node.kids, b.w, exact);
  }

  lemma {:induction false} TickRetryTracked(t: Node, budget: int, w: World, exact: bool)
    requires InvAll(t.kids, false) && DistinctFrom(t.kids, 0) && OkFrom(t.kids, 0, w, exact) && |t.kids| == 1
    ensures TrackedFrom(t.kids, 0, w, TickRetry(t, budget, w).node.kids, TickRetry(t, budget, w).w, exact)
    decreases t, 3
  {
    var k := t.kids[0];
    var s := Tick(k, w);
    TickTracked(k, w, exact);
    TickInv(k, w, false);
    hide Ok, Inv, Tick, Halt, SameShape, Framed;
    ShapeFacts(k, s.node);
    HaltTracked(s.node, s.w, exact);
    TrackedNone(t.kids, 0, w, exact);
    TrackedAt(t.kids, 0, w, s, exact);
    var ks := t.kids[0 := s.node];
    ShapeFactsFrom(t.kids, ks, 0);
    TrackedAt(ks, 0, s.w, Halt(s.node, s.w), exact);
    TrackedThen(t.kids, w, ks, s.w, ks[0 := Halt(s.node, s.w).node], Halt(s.node, s.w).w, exact);
    assert ks[0 := Halt(s.node, s.w).node] == t.kids[0 := Halt(s.node, s.w).node];
  }

  lemma {:induction false} RunFromTracked(kids: seq<Node>, i: nat, n: nat, skip: nat, adv: Final, w: World, exact: bool)
    requires i <= |kids| && n <= |kids|
    requires InvAll(kids, false) && DistinctFrom(kids, i) && OkFrom(kids, i, w, exact)
    ensures TrackedFrom(kids, i, w, RunFrom(kids, i, n, skip, adv, w).kids, RunFrom(kids, i, n, skip, adv, w).w, exact)
    decreases kids, |kids| - i
  {
    hide Ok, Inv, SameShape, TrackedFrom, Framed, Tick, IsGuard;
    if i >= n {
      TrackedNone(kids, i, w, exact);
    } else if i < skip && !IsGuard(kids[i]) {
      RunFromTracked(kids, i + 1, n, skip, adv, w, exact);
      var r := RunFrom(kids, i + 1, n, skip, adv, w);
      TrackedSkip(kids, i, w, r.kids, r.w, exact);
    } else {
      TickTracked(kids[i], w, exact);
      var s := Tick(kids[i], w);
      OkRest(kids, i, w, s, exact);
      if s.node.status == adv {
        RunFromTracked(kids, i + 1, n, skip, adv, s.w, exact);
        var r := RunFrom(kids, i + 1, n, skip, adv, s.w);
        TrackedCons(kids, i, w, s, r.kids, r.w, exact);
      } else {
        TrackedNone(kids, i + 1, s.w, exact);
        TrackedCons(kids, i, w, s, kids, s.w, exact);
      }
    }
  }

  /** A run over the children from `i` on, and what lies after its stop halted or not. */
  lemma {:induction false} RunAndHaltTracked(kids: seq<Node>, i: nat, n: nat, skip: nat, adv: Final, w: World,
        from: nat, exact: bool)
    requires i <= |kids| && n <= |kids|
    requires InvAll(kids, false) && DistinctFrom(kids, 0) && OkFrom(kids, 0, w, exact)
    ensures var r := RunFrom(kids, i, n, skip, adv, w); var h := HaltFrom(r.kids, from, r.w);
      && TrackedFrom(kids, 0, w, r.kids, r.w, exact)
      && TrackedFrom(kids, 0, w, h.kids, h.w, exact)
    decreases kids, |kids| + 1
  {
    var r := RunFrom(kids, i, n, skip, adv, w);
    DistinctLater(kids, 0, i);
    RunFromTracked(kids, i, n, skip, adv, w, exact);
    RunFromInv(kids, i, n, skip, adv, w, false);
    hide Ok, Inv, SameShape, Framed, RunFrom, InvAll;
    TrackedWhole(kids, i, w, r.kids, r.w, exact);
    ShapeFactsFrom(kids, r.kids, 0);
    HaltAfterTracked(r.kids, from, r.w, exact);
    TrackedThen(kids, w, r.kids, r.w, HaltFrom(r.kids, from, r.w).kids, HaltFrom(r.kids, from, r.w).w, exact);
  }

  lemma HaltAfterTracked(kids: seq<Node>, from: nat, w: World, exact: bool)
    requires InvAll(kids, false) && DistinctFrom(kids, 0) && OkFrom(kids, 0, w, exact)
    ensures TrackedFrom(kids, 0, w, HaltFrom(kids, from, w).kids, HaltFrom(kids, from, w).w, exact)
  {
    hide Ok, Inv, SameShape, Framed;
    if from <= |kids| {
      DistinctLater(kids, 0, from);
      HaltFromTracked(kids, from, w, exact);
      TrackedWhole(kids, from, w, HaltFrom(kids, from, w).kids, HaltFrom(kids, from, w).w, exact);
    } else {
      TrackedNone(kids, 0, w, exact);
    }
  }

  lemma {:induction false} TickMemoryTracked(t: Node, adv: Final, w: World, exact: bool)
    requires Inv(t, false) && Distinct(t) && Ok(t, w, exact) && t.info.kind == Memory(adv)
    ensures BodyTracked(t, w, TickMemory(t, adv, w), exact)
    decreases t, 4
  {
    hide Ok, Inv, InvAll, OkFrom, TrackedFrom, RunFrom, HaltFrom, BodyTracked, EntriesOk, Uids;
    MemoryFacts(t, w, exact);
    RunAndHaltTracked(t.kids, t.mem.cursor, |t.kids|, 0, adv, w, 0, exact);
    KidsOnly(t, w, TickMemory(t, adv, w), exact);
  }

  lemma MemoryFacts(t: Node, w: World, exact: bool)
    requires Inv(t, false) && Ok(t, w, exact) && t.info.kind.Memory?
    ensures InvAll(t.kids, false) && OkFrom(t.kids, 0, w, exact) && t.mem.cursor <= |t.kids|
    ensures EntriesOk(t, false, w, exact)
  {
    hide OpenActivations;
  }

  lemma {:induction false} SweepTracked(kids: seq<Node>, i: nat, w: World, exact: bool)
    requires i <= |kids| && InvAll(kids, false) && DistinctFrom(kids, i) && OkFrom(kids, i, w, exact)
    ensures TrackedFrom(kids, i, w, Sweep(kids, i, w).kids, Sweep(kids, i, w).w, exact)
    decreases kids, |kids| - i
  {
    hide Ok, Inv, SameShape, TrackedFrom, Framed, Tick;
    if i == |kids| {
      TrackedNone(kids, i, w, exact);
    } else if Terminal(kids[i].status) {
      SweepTracked(kids, i + 1, w, exact);
      TrackedSkip(kids, i, w, Sweep(kids, i + 1, w).kids, Sweep(kids, i + 1, w).w, exact);
    } else {
      TickTracked(kids[i], w, exact);
      var s := Tick(kids[i], w);
      OkRest(kids, i, w, s, exact);
      SweepTracked(kids, i + 1, s.w, exact);
      var r := Sweep(kids, i + 1, s.w);
      TrackedCons(kids, i, w, s, r.kids, r.w, exact);
    }
  }

  lemma {:induction false} TickParallelTracked(t: Node, w: World, exact: bool)
    requires Inv(t, false) && Distinct(t) && Ok(t, w, exact) && t.info.kind.Parallel?
    ensures BodyTracked(t, w, TickParallel(t, w), exact)
    decreases t, 4
  {
    ParallelFacts(t, w, exact);
    hide Ok, OkFrom, Inv, InvAll, Sweep, HaltRunning, ResetTerminal, BodyTracked, Verdict, Count, TrackedFrom,
          EntriesOk, Distinct, DistinctFrom, UidsFrom;
    SweepAndClearTracked(t.kids, w, exact);
    TrackedNone(t.kids, 0, w, exact);
    KidsOnly(t, w, TickParallel(t, w), exact);
  }

  lemma ParallelFacts(t: Node, w: World, exact: bool)
    requires Inv(t, false) && Distinct(t) && Ok(t, w, exact) && t.info.kind.Parallel?
    ensures InvAll(t.kids, false) && OkFrom(t.kids, 0, w, exact) && EntriesOk(t, false, w, exact)
    ensures DistinctFrom(t.kids, 0) && t.info.uid !in UidsFrom(t.kids, 0)
  {
    hide OpenActivations;
  }

  lemma {:induction false} SweepAndClearTracked(kids: seq<Node>, w: World, exact: bool)
    requires InvAll(kids, false) && DistinctFrom(kids, 0) && OkFrom(kids, 0, w, exact)
    ensures var s := Sweep(kids, 0, w); var h := HaltRunning(s.kids, 0, s.w); var c := ResetTerminal(h.kids, 0, h.w);
      TrackedFrom(kids, 0, w, s.kids, s.w, exact) && TrackedFrom(kids, 0, w, c.kids, c.w, exact)
    decreases kids, |kids| + 2
  {
    hide Ok, Inv, Sweep, HaltRunning, ResetTerminal, SameShape, Framed;
    SweepTracked(kids, 0, w, exact);
    SweepInv(kids, 0, w, false);
    var s := Sweep(kids, 0, w);
    ShapeFactsFrom(kids, s.kids, 0);
    ClearKidsTracked(s.kids, s.w, exact);
    var h := HaltRunning(s.kids, 0, s.w);
    var c := ResetTerminal(h.kids, 0, h.w);
    hide InvAll, OkFrom;
    TrackedThen(kids, w, s.kids, s.w, c.kids, c.w, exact);
  }

  // ----- the reactive nodes keep their own subscription entry --------------------------------

  /** The children are done, in world `v`; then the node settled its subscription, in world `z`. */
  lemma ReactiveBody(t: Node, w: World, v: World, b: Body, exact: bool)
    requires t.info.kind.Reactive? && b.node.info == t.info && t.info.uid !in UidsFrom(t.kids, 0)
    requires OpenActivations(w.trace, t.info.uid) == 0
    requires TrackedFrom(t.kids, 0, w, b.node.kids, v, exact)
    requires b.w == v || b.w == Unsubscribe(v, t.info.uid) || b.w == Subscribe(v, t.info.uid, KidBoards(b.node.kids, 0))
    requires SubOk(t, b.result == Running, b.w, exact)
    ensures BodyTracked(t, w, b, exact)
  {
    var u := t.info.uid;
    OwnSub(t, w, b.node.kids, v, exact);
    hide Ok, SameShape, SameAt, SubOk, Subscribe, Unsubscribe;
    FramedSubs(v, u, KidBoards(b.node.kids, 0));
    FramedSelf(v);
    FramedTrans(w, v, v, UidsFrom(t.kids, 0), {}, Uids(t));
    FramedTrans(w, v, b.w, UidsFrom(t.kids, 0), {u}, Uids(t)) by { FramedSelfMore(v, u); }
    ShapeFactsFrom(t.kids, b.node.kids, 0);
    FramedSelfMore(v, u);
    TrackedQuiet(b.node.kids, v, b.w, u, exact);
  }

  lemma FramedSelfMore(w: World, u: Uid)
    ensures Framed(w, w, {u})
  {
    forall x ensures SameAt(w, w, x) {}
  }

  /** The children's doings leave the node's own subscription alone. */
  lemma OwnSub(t: Node, w: World, after: seq<Node>, v: World, exact: bool)
    requires t.info.uid !in UidsFrom(t.kids, 0) && TrackedFrom(t.kids, 0, w, after, v, exact)
    ensures SubOk(t, true, w, exact) ==> SubOk(t, true, v, exact)
    ensures SubOk(t, false, w, exact) ==> SubOk(t, false, v, exact)
    ensures OpenActivations(v.trace, t.info.uid) == OpenActivations(w.trace, t.info.uid)
  {
    assert SameAt(w, v, t.info.uid);
  }

  lemma {:induction false} TickReactiveTracked(t: Node, adv: Final, w: World, exact: bool)
    requires Inv(t, false) && Distinct(t) && Ok(t, w, exact) && t.info.kind == Reactive(adv)
    ensures BodyTracked(t, w, TickReactive(t, adv, w), exact)
    decreases t, 4
  {
    assert InvAll(t.kids, false) && OkFrom(t.kids, 0, w, exact);
    assert SubOk(t, t.mem.running.Some?, w, exact) && OpenActivations(w.trace, t.info.uid) == 0;
    hide Ok, Inv, FullEval, FastTick, BodyTracked;
    if TakesFastPath(t, w) {
      FastTickTracked(t, adv, w, exact);
    } else {
      FullEvalTracked(t, 0, adv, w, exact);
    }
  }

  lemma {:induction false} FullEvalTracked(t: Node, skip: nat, adv: Final, w: World, exact: bool)
    requires OpenActivations(w.trace, t.info.uid) == 0
    requires InvAll(t.kids, false) && Distinct(t) && OkFrom(t.kids, 0, w, exact) && t.info.kind == Reactive(adv)
    requires SubOk(t, t.mem.running.Some?, w, exact)
    ensures BodyTracked(t, w, FullEval(t, skip, adv, w), exact)
    decreases t, 3
  {
    var u := t.info.uid;
    var w1 := ClearDirty(w, u);
    FramedSubs(w, u, {});
    OkFromFramed(t.kids, 0, w, w1, {}, exact);
    assert DistinctFrom(t.kids, 0) && u !in UidsFrom(t.kids, 0);
    hide Distinct, Ok, OkFrom, Inv, InvAll, RunFrom, HaltFrom, KidBoards, BodyTracked, TrackedFrom, ClearDirty, Framed;
    var r := RunFrom(t.kids, 0, |t.kids|, skip, adv, w1);
    RunAndHaltTracked(t.kids, 0, |t.kids|, skip, adv, w1, r.at + 1, exact);
    var h := HaltFrom(r.kids, r.at + 1, r.w);
    QuietFirst(t.kids, w, w1, r.kids, r.w, exact);
    QuietFirst(t.kids, w, w1, h.kids, h.w, exact);
    FullEndTracked(t, r, adv, w, exact);
  }

  lemma FullEndTracked(t: Node, r: Run, adv: Final, w: World, exact: bool)
    requires OpenActivations(w.trace, t.info.uid) == 0 && Distinct(t) && t.info.kind == Reactive(adv)
    requires SubOk(t, t.mem.running.Some?, w, exact)
    requires TrackedFrom(t.kids, 0, w, r.kids, r.w, exact)
    requires var h := HaltFrom(r.kids, r.at + 1, r.w); TrackedFrom(t.kids, 0, w, h.kids, h.w, exact)
    ensures BodyTracked(t, w, FullEnd(t, r, adv), exact)
  {
    hide *;
    var h := HaltFrom(r.kids, r.at + 1, r.w);
    FullEndIs(t, r, adv);
    if r.result == adv {
      SettledTracked(t, r.kids, adv, w, r.w, exact);
    } else if r.result == Running {
      StaysOnTracked(t, h.kids, r.at, w, h.w, exact);
    } else {
      SettledTracked(t, h.kids, r.result, w, h.w, exact);
    }
  }

  /** What a reactive node leaves behind that goes on RUNNING. */
  function StaysOn(t: Node, kids: seq<Node>, at: nat, v: World): Body {
    Body(t.(kids := kids, mem := t.mem.(running := Some(at))), Running,
         if t.mem.running.None? then Subscribe(v, t.info.uid, KidBoards(kids, 0)) else v)
  }

  lemma FullEndIs(t: Node, r: Run, adv: Final)
    ensures var h := HaltFrom(r.kids, r.at + 1, r.w);
      FullEnd(t, r, adv) ==
        if r.result == adv then Settled(t, r.kids, adv, r.w)
        else if r.result == Running then StaysOn(t, h.kids, r.at, h.w)
        else Settled(t, h.kids, r.result, h.w)
  {
    hide HaltFrom, KidBoards, Subscribe, Unsubscribe;
  }

  lemma StaysOnTracked(t: Node, kids: seq<Node>, at: nat, w: World, v: World, exact: bool)
    requires OpenActivations(w.trace, t.info.uid) == 0 && Distinct(t) && t.info.kind.Reactive?
    requires SubOk(t, t.mem.running.Some?, w, exact)
    requires TrackedFrom(t.kids, 0, w, kids, v, exact)
    ensures BodyTracked(t, w, StaysOn(t, kids, at, v), exact)
  {
    assert t.info.uid !in UidsFrom(t.kids, 0);
    hide Distinct, KidBoards, BodyTracked, TrackedFrom, OpenActivations, UidsFrom;
    OwnSub(t, w, kids, v, exact);
    SameBoards(t.kids, w, kids, v, exact);
    ReactiveBody(t, w, v, StaysOn(t, kids, at, v), exact);
  }

  lemma SettledTracked(t: Node, kids: seq<Node>, result: Result, w: World, v: World, exact: bool)
    requires OpenActivations(w.trace, t.info.uid) == 0 && Distinct(t) && t.info.kind.Reactive? && result != Running
    requires TrackedFrom(t.kids, 0, w, kids, v, exact)
    ensures BodyTracked(t, w, Settled(t, kids, result, v), exact)
  {
    assert DistinctFrom(t.kids, 0) && t.info.uid !in UidsFrom(t.kids, 0);
    hide Distinct, Ok, OkFrom, KidBoards, BodyTracked, TrackedFrom, Framed;
    ReactiveBody(t, w, v, Settled(t, kids, result, v), exact);
  }

  lemma SameBoards(kids: seq<Node>, w: World, after: seq<Node>, v: World, exact: bool)
    requires TrackedFrom(kids, 0, w, after, v, exact)
    ensures KidBoards(after, 0) == KidBoards(kids, 0)
  {
    ShapeFactsFrom(kids, after, 0);
  }

  lemma QuietFirst(kids: seq<Node>, w: World, w1: World, after: seq<Node>, v: World, exact: bool)
    requires Framed(w, w1, {}) && TrackedFrom(kids, 0, w1, after, v, exact)
    ensures TrackedFrom(kids, 0, w, after, v, exact)
  {
    hide Ok, SameShape, SameAt;
    FramedTrans(w, w1, v, {}, UidsFrom(kids, 0), UidsFrom(kids, 0));
  }

  lemma {:induction false} FastTickTracked(t: Node, adv: Final, w: World, exact: bool)
    requires OpenActivations(w.trace, t.info.uid) == 0
    requires InvAll(t.kids, false) && Distinct(t) && OkFrom(t.kids, 0, w, exact) && t.info.kind == Reactive(adv)
    requires t.mem.running.Some? && t.mem.running.value < |t.kids| && SubOk(t, true, w, exact)
    ensures BodyTracked(t, w, FastTick(t, adv, w), exact)
    decreases t, 3
  {
    var u, idx := t.info.uid, t.mem.running.value;
    assert DistinctFrom(t.kids, 0) && u !in UidsFrom(t.kids, 0);
    hide Distinct, Ok, OkFrom, Inv, InvAll, RunFrom, HaltFrom, KidBoards, BodyTracked, TrackedFrom, Tick, FastRest,
          UidsFrom, DistinctFrom, OpenActivations;
    var g := RunFrom(t.kids, 0, idx, idx, adv, w);
    RunAndHaltTracked(t.kids, 0, idx, idx, adv, w, g.at + 1, exact);
    var b := FastTick(t, adv, w);
    if g.result != adv {
      FastStopTracked(t, HaltFrom(g.kids, g.at + 1, g.w), g, w, exact);
    } else {
      RunFromInv(t.kids, 0, idx, idx, adv, w, false);
      FastGuardsTracked(t, g.kids, idx, adv, w, g.w, exact);
    }
  }

  lemma FastStopTracked(t: Node, h: StepAll, g: Run, w: World, exact: bool)
    requires t.info.kind.Reactive? && t.info.uid !in UidsFrom(t.kids, 0)
    requires OpenActivations(w.trace, t.info.uid) == 0 && SubOk(t, true, w, exact)
    requires TrackedFrom(t.kids, 0, w, h.kids, h.w, exact)
    ensures g.result == Running ==>
      BodyTracked(t, w, Body(t.(kids := h.kids, mem := t.mem.(running := Some(g.at))), Running, h.w), exact)
    ensures g.result != Running ==> BodyTracked(t, w, Settled(t, h.kids, g.result, h.w), exact)
  {
    hide TrackedFrom, BodyTracked, UidsFrom, OpenActivations, KidBoards;
    OwnSub(t, w, h.kids, h.w, exact);
    if g.result == Running {
      ReactiveBody(t, w, h.w, Body(t.(kids := h.kids, mem := t.mem.(running := Some(g.at))), Running, h.w), exact);
    } else {
      ReactiveBody(t, w, h.w, Settled(t, h.kids, g.result, h.w), exact);
    }
  }

  lemma {:induction false} FastGuardsTracked(t: Node, kids: seq<Node>, idx: nat, adv: Final, w: World, v: World,
        exact: bool)
    requires InvAll(t.kids, false) && Distinct(t) && t.info.kind == Reactive(adv)
    requires OpenActivations(w.trace, t.info.uid) == 0 && SubOk(t, true, w, exact)
    requires idx < |kids| == |t.kids| && forall j | idx <= j < |kids| :: kids[j] == t.kids[j]
    requires InvAll(kids, false) && TrackedFrom(t.kids, 0, w, kids, v, exact)
    ensures var s := Tick(t.kids[idx], v); var now := kids[idx := s.node];
      BodyTracked(t, w,
        if s.node.status == Running then Body(t.(kids := now), Running, s.w)
        else FastRest(t, now, idx, s.node.status, adv, Unsubscribe(s.w, t.info.uid)), exact)
    decreases t, 2
  {
    hide DistinctFrom, Ok, OkFrom, Inv, InvAll, KidBoards, BodyTracked, TrackedFrom, Tick, FastRest, UidsFrom,
          OpenActivations;
    FastChildTracked(t, kids, idx, w, v, exact);
    var s := Tick(t.kids[idx], v);
    var now := kids[idx := s.node];
    OwnSub(t, w, now, s.w, exact);
    if s.node.status == Running {
      ReactiveBody(t, w, s.w, Body(t.(kids := now), Running, s.w), exact);
    } else {
      FastRestTracked(t, now, idx, s.node.status, adv, w, s.w, exact);
    }
  }

  lemma {:induction false} FastChildTracked(t: Node, kids: seq<Node>, idx: nat, w: World, v: World, exact: bool)
    requires idx < |kids| == |t.kids| && kids[idx] == t.kids[idx] && InvAll(t.kids, false) && Distinct(t)
    requires TrackedFrom(t.kids, 0, w, kids, v, exact)
    ensures var s := Tick(t.kids[idx], v); TrackedFrom(t.kids, 0, w, kids[idx := s.node], s.w, exact)
    ensures InvAll(kids, false) ==> InvAll(kids[idx := Tick(t.kids[idx], v).node], false)
    decreases t, 1
  {
    hide Ok, Inv, SameShape, Framed, Tick;
    var s := Tick(t.kids[idx], v);
    TickInv(t.kids[idx], v, false);
    DistinctLater(t.kids, 0, idx);
    TickTracked(t.kids[idx], v, exact);
    ShapeFactsFrom(t.kids, kids, 0);
    TrackedAt(kids, idx, v, s, exact);
    TrackedThen(t.kids, w, kids, v, kids[idx := s.node], s.w, exact);
  }

  /** The node unsubscribes between two stretches of work by its children, and may subscribe again after. */
  lemma ReactiveMiddle(t: Node, w: World, kids: seq<Node>, v: World, after: seq<Node>, z: World, b: Body, exact: bool)
    requires OpenActivations(w.trace, t.info.uid) == 0
    requires t.info.kind.Reactive? && b.node.info == t.info && b.node.kids == after
    requires t.info.uid !in UidsFrom(t.kids, 0)
    requires TrackedFrom(t.kids, 0, w, kids, v, exact)
    requires TrackedFrom(kids, 0, Unsubscribe(v, t.info.uid), after, z, exact)
    requires b.w == if b.result == Running then Subscribe(z, t.info.uid, KidBoards(after, 0)) else z
    ensures BodyTracked(t, w, b, exact)
  {
    var u := t.info.uid;
    var v1 := Unsubscribe(v, u);
    ShapeFactsFrom(t.kids, kids, 0);
    OwnSub(t, w, kids, v, exact);
    OwnSub(t.(kids := kids), v1, after, z, exact);
    hide Ok, SameShape, SameAt, Unsubscribe;
    FramedSubs(v, u, {});
    FramedSubs(z, u, KidBoards(after, 0));
    FramedSelfMore(z, u);
    forall j | 0 <= j < |kids| ensures SameShape(t.kids[j], after[j]) {
      SameShapeTrans(t.kids[j], kids[j], after[j]);
    }
    ShapeFactsFrom(t.kids, after, 0);
    FramedTrans(w, v, v1, UidsFrom(t.kids, 0), {u}, Uids(t));
    FramedTrans(w, v1, z, Uids(t), UidsFrom(t.kids, 0), Uids(t));
    FramedTrans(w, z, b.w, Uids(t), {u}, Uids(t));
    TrackedQuiet(after, z, b.w, u, exact);
  }

  lemma {:induction false} FastRestTracked(t: Node, kids: seq<Node>, idx: nat, result: Final, adv: Final, w: World,
        v: World, exact: bool)
    requires OpenActivations(w.trace, t.info.uid) == 0
    requires InvAll(t.kids, false) && Distinct(t) && t.info.kind == Reactive(adv)
    requires idx < |kids| == |t.kids| && forall j | idx < j < |kids| :: kids[j] == t.kids[j]
    requires InvAll(kids, false) && TrackedFrom(t.kids, 0, w, kids, v, exact)
    ensures BodyTracked(t, w, FastRest(t, kids, idx, result, adv, Unsubscribe(v, t.info.uid)), exact)
    decreases t, 1
  {
    var v1 := Unsubscribe(v, t.info.uid);
    UnsubscribedKids(t, kids, w, v, exact);
    hide Distinct, DistinctFrom, RestEnd, Ok, OkFrom, Inv, InvAll, RunFrom, HaltFrom, KidBoards, BodyTracked,
          Unsubscribe, TrackedFrom;
    var b := FastRest(t, kids, idx, result, adv, v1);
    if result != adv {
      HaltAfterTracked(kids, idx + 1, v1, exact);
      var h := HaltFrom(kids, idx + 1, v1);
      ReactiveMiddle(t, w, kids, v, h.kids, h.w, b, exact);
    } else {
      FastGoTracked(t, kids, idx, adv, w, v, exact);
    }
  }

  lemma {:induction false} FastGoTracked(t: Node, kids: seq<Node>, idx: nat, adv: Final, w: World, v: World,
        exact: bool)
    requires OpenActivations(w.trace, t.info.uid) == 0
    requires InvAll(t.kids, false) && t.info.kind == Reactive(adv)
    requires DistinctFrom(t.kids, 0) && t.info.uid !in UidsFrom(t.kids, 0)
    requires DistinctFrom(kids, 0) && OkFrom(kids, 0, Unsubscribe(v, t.info.uid), exact)
    requires idx < |kids| == |t.kids| && forall j | idx < j < |kids| :: kids[j] == t.kids[j]
    requires InvAll(kids, false) && TrackedFrom(t.kids, 0, w, kids, v, exact)
    ensures BodyTracked(t, w, FastRest(t, kids, idx, adv, adv, Unsubscribe(v, t.info.uid)), exact)
    decreases t, 1, 0
  {
    var v1 := Unsubscribe(v, t.info.uid);
    hide DistinctFrom, RestEnd, OkFrom, InvAll, RunFrom, HaltFrom, KidBoards, BodyTracked, Unsubscribe, TrackedFrom;
    RestRunTracked(t, kids, idx + 1, adv, v1, exact);
    var r := RunFrom(t.kids, idx + 1, |t.kids|, 0, adv, v1);
    RestEndTracked(t, w, kids, v, r.(kids := kids[..idx + 1] + r.kids[idx + 1..]), adv, exact);
  }

  lemma RestEndTracked(t: Node, w: World, kids: seq<Node>, v: World, r: Run, adv: Final, exact: bool)
    requires OpenActivations(w.trace, t.info.uid) == 0
    requires t.info.kind.Reactive? && t.info.uid !in UidsFrom(t.kids, 0)
    requires TrackedFrom(t.kids, 0, w, kids, v, exact)
    requires TrackedFrom(kids, 0, Unsubscribe(v, t.info.uid), r.kids, r.w, exact)
    requires var h := HaltFrom(r.kids, r.at + 1, r.w);
      TrackedFrom(kids, 0, Unsubscribe(v, t.info.uid), h.kids, h.w, exact)
    ensures BodyTracked(t, w, RestEnd(t, r, adv), exact)
  {
    hide TrackedFrom, BodyTracked, HaltFrom, KidBoards, Subscribe, Unsubscribe;
    var h := HaltFrom(r.kids, r.at + 1, r.w);
    if r.result == adv {
      ReactiveMiddle(t, w, kids, v, r.kids, r.w, RestEnd(t, r, adv), exact);
    } else {
      ReactiveMiddle(t, w, kids, v, h.kids, h.w, RestEnd(t, r, adv), exact);
    }
  }

  lemma UnsubscribedKids(t: Node, kids: seq<Node>, w: World, v: World, exact: bool)
    requires Distinct(t) && TrackedFrom(t.kids, 0, w, kids, v, exact)
    ensures DistinctFrom(t.kids, 0) && t.info.uid !in UidsFrom(t.kids, 0)
    ensures DistinctFrom(kids, 0) && OkFrom(kids, 0, Unsubscribe(v, t.info.uid), exact)
  {
    hide Ok, SameAt;
    ShapeFactsFrom(t.kids, kids, 0);
    FramedSubs(v, t.info.uid, {});
    TrackedQuiet(kids, v, Unsubscribe(v, t.info.uid), t.info.uid, exact);
  }

  lemma {:induction false} RestRunTracked(t: Node, kids: seq<Node>, i: nat, adv: Final, v: World, exact: bool)
    requires InvAll(t.kids, false) && InvAll(kids, false) && DistinctFrom(t.kids, 0) && DistinctFrom(kids, 0)
    requires i <= |kids| == |t.kids| && forall j | i <= j < |kids| :: kids[j] == t.kids[j]
    requires OkFrom(kids, 0, v, exact)
    ensures var r := RunFrom(t.kids, i, |t.kids|, 0, adv, v);
      var all := kids[..i] + r.kids[i..];
      var h := HaltFrom(all, r.at + 1, r.w);
      TrackedFrom(kids, 0, v, all, r.w, exact) && TrackedFrom(kids, 0, v, h.kids, h.w, exact)
    decreases t, 0
  {
    hide Ok, Inv, InvAll, RunFrom, HaltFrom, SameShape, Framed, OkFrom;
    OkLater(t.kids, kids, i, v, exact);
    DistinctLater(t.kids, 0, i);
    RunFromTracked(t.kids, i, |t.kids|, 0, adv, v, exact);
    RunFromInv(t.kids, i, |t.kids|, 0, adv, v, false);
    var r := RunFrom(t.kids, i, |t.kids|, 0, adv, v);
    var all := kids[..i] + r.kids[i..];
    SpliceTracked(t.kids, kids, i, v, r.kids, r.w, exact);
    TrackedWhole(kids, i, v, all, r.w, exact);
    SpliceInv(kids, r.kids, i, false);
    ShapeFactsFrom(kids, all, 0);
    HaltAfterTracked(all, r.at + 1, r.w, exact);
    TrackedThen(kids, v, all, r.w, HaltFrom(all, r.at + 1, r.w).kids, HaltFrom(all, r.at + 1, r.w).w, exact);
  }

  lemma OkLater(ts: seq<Node>, kids: seq<Node>, i: nat, v: World, exact: bool)
    requires |kids| == |ts| && OkFrom(kids, 0, v, exact) && forall j | i <= j < |kids| :: kids[j] == ts[j]
    ensures OkFrom(ts, i, v, exact)
  {
    hide Ok;
  }

  lemma SpliceTracked(ts: seq<Node>, kids: seq<Node>, i: nat, w: World, after: seq<Node>, v: World, exact: bool)
    requires i <= |ts| == |kids| && forall j | i <= j < |ts| :: kids[j] == ts[j]
    requires TrackedFrom(ts, i, w, after, v, exact)
    ensures TrackedFrom(kids, i, w, kids[..i] + after[i..], v, exact)
  {
    hide Ok, Framed;
    SameSuffix(ts, kids, i);
    forall j | 0 <= j < |kids| ensures SameShape(kids[j], (kids[..i] + after[i..])[j]) { SameShapeSelf(kids[j]); }
  }
}
