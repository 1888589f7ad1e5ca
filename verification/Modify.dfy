/** Runtime modification of the tree between ticks. */
module Modify {
  import opened Worlds
  import opened Engine
  import opened Invariants
  import opened Runs
  import opened Tracking
  import opened Ledgers

  /** `new` of the first two replaces the target itself (REPLACE_NODE and HOT_SWAP_SUBTREE do
      the same); INSERT_CHILD and REMOVE_CHILD work on the target's children. */
  datatype Mod =
    | Replace(target: Uid, node: Node)
    | Insert(target: Uid, index: int, node: Node)
    | Remove(target: Uid, index: int)

  /** `found`: the target is in the tree; `removed`: what was cut out of it. */
  datatype Edited = Edited(found: bool, node: Node, removed: seq<Node>, w: World)

  predicate IsControl(t: Node) { t.info.kind.Memory? || t.info.kind.Reactive? || t.info.kind.Parallel? }

  /** `list.insert`: an index before the list is its start, one behind it its end. */
  function Clamp(i: int, n: nat): (at: nat)
    ensures 0 <= i <= n ==> at == i
    ensures i < 0 ==> at == 0
    ensures i > n ==> at == n
  {
    if i < 0 then 0 else if i > n then n else i
  }

  /** The modification at its target. */
  function EditHere(t: Node, mod: Mod, w: World): (e: Edited)
    ensures e.found
  {
    match mod
    case Replace(_, new_) =>
      var h := Halt(t, w);
      Edited(true, new_, [h.node], h.w)
    case Insert(_, index, new_) =>
      if IsControl(t) then
        var i := Clamp(index, |t.kids|);
        var h := Halt(t.(kids := t.kids[..i] + [new_] + t.kids[i..]), w);
        Edited(true, h.node, [], h.w)
      else if t.info.kind.Leaf? || t.kids == [] then Edited(true, t, [], w)
      else
        var c := Halt(t.kids[0], w);
        var h := Halt(t.(kids := [new_]), c.w);
        Edited(true, h.node, [c.node], h.w)
    case Remove(_, index) =>
      if IsControl(t) && 0 <= index < |t.kids| then
        var c := Halt(t.kids[index], w);
        var h := Halt(t.(kids := t.kids[..index] + t.kids[index + 1..]), c.w);
        Edited(true, h.node, [c.node], h.w)
      else Edited(true, t, [], w)
  }

  /** Depth-first search for the target, parents before children, then the modification. */
  function Edit(t: Node, mod: Mod, w: World): Edited
    decreases t
  {
    if t.info.uid == mod.target then EditHere(t, mod, w)
    else
      var r := EditFrom(t.kids, 0, mod, w);
      if r.at < |t.kids| then Edited(true, t.(kids := t.kids[r.at := r.e.node]), r.e.removed, r.e.w)
      else Edited(false, t, [], w)
  }

  datatype Found = Found(at: nat, e: Edited)

  /** The first child from `i` on that has the target in its subtree. */
  function EditFrom(kids: seq<Node>, i: nat, mod: Mod, w: World): (r: Found)
    requires i <= |kids|
    ensures r.at < |kids| ==> i <= r.at && r.e == Edit(kids[r.at], mod, w) && r.e.found
    decreases kids, |kids| - i
  {
    if i == |kids| then Found(i, Edited(false, Node(Info(0, Leaf(Action), None), Idle, BLANK, []), [], w))
    else
      var e := Edit(kids[i], mod, w);
      if e.found then Found(i, e) else EditFrom(kids, i + 1, mod, w)
  }

  // ----- what a modification may bring in, and what it leaves ------------------------------

  /** A new node: IDLE throughout, no uid twice, none of them in use. */
  ghost predicate NewFor(n: Node, used: set<Uid>) {
    Inv(n, false) && n.status == Idle && Distinct(n) && Uids(n) !! used
  }

  function NewUids(mod: Mod): set<Uid> { if mod.Remove? then {} else Uids(mod.node) }

  /** The ledgers hold nothing for this uid. */
  ghost predicate QuietAt(w: World, x: Uid) {
    x !in RunningSet(w.notes) && OpenActivations(w.trace, x) == 0 && x !in w.subs
  }

  ghost predicate QuietOutside(w: World, U: set<Uid>) {
    forall x | x !in U :: QuietAt(w, x)
  }

  /** The whole tree and the ledgers, between ticks, modifications allowed. */
  ghost predicate Sound(t: Node, w: World) {
    Inv(t, false) && Distinct(t) && Ok(t, w, false) && QuietOutside(w, Uids(t))
  }

  /** `e` is what is left of the subtree `t`: what was cut out is wholly IDLE, and the uids of
      what stays and what was cut out are, without overlap, the old ones and the new ones. */
  ghost predicate EditOk(t: Node, mod: Mod, w: World, e: Edited) {
    && Inv(e.node, false) && Distinct(e.node) && Ok(e.node, e.w, false)
    && (e.node.status == Idle || e.node.status == t.status)
    && Framed(w, e.w, Uids(t))
    && |e.removed| <= 1
    && UidsMove(t, mod, e)
    && (e.removed != [] ==> AllIdle(e.removed[0]) && Ok(e.removed[0], e.w, false))
  }

  /** Where the uids of `t` and the new ones have gone. */
  ghost predicate UidsMove(t: Node, mod: Mod, e: Edited) {
    if e.removed == [] then Uids(e.node) == Uids(t) || Uids(e.node) == Uids(t) + NewUids(mod)
    else
      var r := e.removed[0];
      && Uids(r) <= Uids(t) && Uids(e.node) !! Uids(r)
      && Uids(e.node) + Uids(r) == Uids(t) + NewUids(mod)
  }

  // ----- lists of children ---------------------------------------------------------------------

  lemma {:induction false} SwapUids(kids: seq<Node>, i: nat, at: nat, x: Node)
    requires i <= at < |kids| && DistinctFrom(kids, i)
    requires Distinct(x) && Uids(x) !! UidsFrom(kids, i) - Uids(kids[at])
    ensures UidsFrom(kids[at := x], i) == UidsFrom(kids, i) - Uids(kids[at]) + Uids(x)
    ensures DistinctFrom(kids[at := x], i)
    decreases at - i
  {
    KidUids(kids, i, at);
    if i < at {
      KidUids(kids, i + 1, at);
      SwapUids(kids, i + 1, at, x);
    } else {
      SameSuffix(kids, kids[at := x], i + 1);
    }
  }

  lemma {:induction false} InsertUids(kids: seq<Node>, i: nat, at: nat, x: Node)
    requires i <= at <= |kids| && DistinctFrom(kids, i) && Distinct(x) && Uids(x) !! UidsFrom(kids, i)
    ensures var ks := kids[..at] + [x] + kids[at..];
      UidsFrom(ks, i) == UidsFrom(kids, i) + Uids(x) && DistinctFrom(ks, i)
    decreases at - i
  {
    var ks := kids[..at] + [x] + kids[at..];
    if i < at {
      InsertUids(kids, i + 1, at, x);
      assert ks[i] == kids[i];
    } else {
      ShiftUids(kids, at, ks, at + 1);
    }
  }

  /** Equal suffixes have equal uids, wherever they start. */
  lemma {:induction false} ShiftUids(ks: seq<Node>, i: nat, ls: seq<Node>, j: nat)
    requires i <= |ks| && j <= |ls| && ks[i..] == ls[j..]
    ensures UidsFrom(ks, i) == UidsFrom(ls, j) && (DistinctFrom(ks, i) <==> DistinctFrom(ls, j))
    decreases |ks| - i
  {
    assert |ks| - i == |ls| - j;
    if i < |ks| {
      assert ks[i] == ks[i..][0] == ls[j..][0] == ls[j];
      assert ks[i + 1..] == ks[i..][1..] == ls[j + 1..];
      ShiftUids(ks, i + 1, ls, j + 1);
    }
  }

  lemma {:induction false} RemoveUids(kids: seq<Node>, i: nat, at: nat)
    requires i <= at < |kids| && DistinctFrom(kids, i)
    ensures var ks := kids[..at] + kids[at + 1..];
      UidsFrom(ks, i) == UidsFrom(kids, i) - Uids(kids[at]) && DistinctFrom(ks, i)
    decreases at - i
  {
    var ks := kids[..at] + kids[at + 1..];
    if i < at {
      KidUids(kids, i + 1, at);
      RemoveUids(kids, i + 1, at);
      assert ks[i] == kids[i];
    } else {
      ShiftUids(kids, at + 1, ks, at);
    }
  }

  // ----- the target ----------------------------------------------------------------------------

  /** Halting a control node repairs its invariant whatever has been done to its child list. */
  lemma HaltControlInv(t: Node, w: World)
    requires IsControl(t) && InvAll(t.kids, false)
    requires t.info.kind.Reactive? && t.status != Running ==> t.mem.running.None?
    ensures var h := Halt(t, w).node;
      && Inv(h, false) && AllIdle(h) && h.info == t.info && |h.kids| == |t.kids|
      && (h.info.kind.Memory? ==> h.mem.cursor == 0) && (h.info.kind.Reactive? ==> h.mem.running.None?)
  {
    var w1 := if t.status == Running then Tell(OnHaltWorld(t, w), Stopped(t.info.uid)) else w;
    if t.info.kind.Parallel? {
      ClearKidsInv(t.kids, w1, false);
    } else {
      HaltFromInv(t.kids, 0, w1, false);
    }
    IdleIsClosedDownward(Halt(t, w).node, false);
  }

  lemma {:induction false} NewOk(n: Node, w: World, U: set<Uid>)
    requires Inv(n, false) && n.status == Idle && Distinct(n) && QuietOutside(w, U) && Uids(n) !! U
    ensures Ok(n, w, false)
    decreases n
  {
    IdleIsClosedDownward(n, false);
    IdleOk(n, w, U);
  }

  lemma {:induction false} IdleOk(n: Node, w: World, U: set<Uid>)
    requires AllIdle(n) && QuietOutside(w, U) && Uids(n) !! U
    ensures Ok(n, w, false)
    decreases n
  {
    assert QuietAt(w, n.info.uid);
    forall j | 0 <= j < |n.kids| ensures Ok(n.kids[j], w, false) {
      KidUids(n.kids, 0, j);
      IdleOk(n.kids[j], w, U);
    }
  }

  lemma {:induction false} IdleQuiet(n: Node, w: World, x: Uid)
    requires AllIdle(n) && Ok(n, w, false) && x in Uids(n)
    ensures QuietAt(w, x)
    decreases n, 1
  {
    if x != n.info.uid { IdleQuietFrom(n.kids, 0, w, x); }
  }

  lemma {:induction false} IdleQuietFrom(kids: seq<Node>, i: nat, w: World, x: Uid)
    requires i <= |kids| && (forall j | 0 <= j < |kids| :: AllIdle(kids[j])) && OkFrom(kids, i, w, false)
    requires x in UidsFrom(kids, i)
    ensures QuietAt(w, x)
    decreases kids, |kids| - i
  {
    if x in Uids(kids[i]) { IdleQuiet(kids[i], w, x); } else { IdleQuietFrom(kids, i + 1, w, x); }
  }

  lemma ReplaceHere(t: Node, mod: Mod, w: World, U: set<Uid>)
    requires Inv(t, false) && Distinct(t) && Ok(t, w, false) && QuietOutside(w, U) && Uids(t) <= U
    requires mod.Replace? && NewFor(mod.node, U)
    ensures EditOk(t, mod, w, EditHere(t, mod, w))
  {
    HaltInv(t, w, false);
    HaltTracked(t, w, false);
    var h := Halt(t, w);
    IdleIsClosedDownward(h.node, false);
    ShapeFacts(t, h.node);
    NewOk(mod.node, w, U);
    OkFramed(mod.node, w, h.w, Uids(t), false);
  }

  /** What was quiet and is IDLE in the end has not changed for the ledgers. */
  lemma FramedByQuiet(w: World, v: World, t: Node, h: Node, news: set<Uid>, U: set<Uid>)
    requires Framed(w, v, Uids(t) + news) && QuietOutside(w, U) && news !! U
    requires AllIdle(h) && Ok(h, v, false) && news <= Uids(h)
    ensures Framed(w, v, Uids(t))
  {
    forall x | x !in Uids(t) ensures SameAt(w, v, x) {
      if x in news {
        IdleQuiet(h, v, x);
        assert QuietAt(w, x);
      } else {
        assert x !in Uids(t) + news;
      }
    }
  }

  lemma InsertControl(t: Node, mod: Mod, w: World, U: set<Uid>)
    requires Inv(t, false) && Distinct(t) && Ok(t, w, false) && QuietOutside(w, U) && Uids(t) <= U
    requires mod.Insert? && NewFor(mod.node, U) && IsControl(t)
    ensures EditOk(t, mod, w, EditHere(t, mod, w))
    ensures var e := EditHere(t, mod, w); AllIdle(e.node) && Uids(e.node) == Uids(t) + NewUids(mod)
  {
    var i := Clamp(mod.index, |t.kids|);
    var ks := t.kids[..i] + [mod.node] + t.kids[i..];
    var t1 := t.(kids := ks);
    assert InvAll(t.kids, false);
    NewOk(mod.node, w, U);
    InsertUids(t.kids, 0, i, mod.node);
    InsertParts(t.kids, i, mod.node, w);
    HaltControlInv(t1, w);
    OkReplaced(t, ks, w);
    hide Ok, Inv, Distinct, NewFor;
    DistinctReplaced(t, ks);
    HaltTrackedKids(t1, w, false);
    var h := Halt(t1, w);
    ShapeFacts(t1, h.node);
    assert Uids(t1) == Uids(t) + Uids(mod.node);
    FramedByQuiet(w, h.w, t, h.node, Uids(mod.node), U);
  }

  lemma InsertParts(kids: seq<Node>, i: nat, x: Node, w: World)
    requires i <= |kids| && InvAll(kids, false) && Inv(x, false) && OkFrom(kids, 0, w, false) && Ok(x, w, false)
    ensures var ks := kids[..i] + [x] + kids[i..]; InvAll(ks, false) && OkFrom(ks, 0, w, false)
  {
    hide Inv, Ok;
  }

  lemma RemoveParts(kids: seq<Node>, i: nat, w: World)
    requires i < |kids| && InvAll(kids, false) && OkFrom(kids, 0, w, false)
    ensures var ks := kids[..i] + kids[i + 1..]; InvAll(ks, false) && OkFrom(ks, 0, w, false)
  {
    hide Inv, Ok;
  }

  /** A node's own entries do not depend on its children. */
  lemma OkReplaced(t: Node, ks: seq<Node>, w: World)
    requires Ok(t, w, false) && OkFrom(ks, 0, w, false)
    ensures Ok(t.(kids := ks), w, false)
  {}

  lemma DistinctReplaced(t: Node, ks: seq<Node>)
    requires t.info.uid !in UidsFrom(ks, 0) && DistinctFrom(ks, 0)
    ensures Distinct(t.(kids := ks))
  {}

  /** Child `i` is halted and cut out. */
  lemma RemoveCut(t: Node, i: nat, w: World)
    requires Inv(t, false) && Distinct(t) && Ok(t, w, false) && i < |t.kids|
    ensures var k := t.kids[i]; var c := Halt(k, w); var t1 := t.(kids := t.kids[..i] + t.kids[i + 1..]);
      && AllIdle(c.node) && Ok(c.node, c.w, false) && Uids(c.node) == Uids(k) && Framed(w, c.w, Uids(k))
      && InvAll(t1.kids, false) && Distinct(t1) && Ok(t1, c.w, false)
      && Uids(t1) == Uids(t) - Uids(k) && Uids(k) <= Uids(t)
      && (t.info.kind.Reactive? && t.status != Running ==> t.mem.running.None?)
  {
    var k := t.kids[i];
    var c := Halt(k, w);
    var ks := t.kids[..i] + t.kids[i + 1..];
    var t1 := t.(kids := ks);
    assert InvAll(t.kids, false);
    DistinctLater(t.kids, 0, i);
    KidUids(t.kids, 0, i);
    RemoveUids(t.kids, 0, i);
    RemoveParts(t.kids, i, w);
    OkReplaced(t, ks, w);
    DistinctReplaced(t, ks);
    hide Ok, Inv, Framed, Halt;
    HaltInv(k, w, false);
    HaltTracked(k, w, false);
    IdleIsClosedDownward(c.node, false);
    ShapeFacts(k, c.node);
    OkFramed(t1, w, c.w, Uids(k), false);
  }

  lemma HaltAfterCut(t1: Node, cut: Node, w: World)
    requires IsControl(t1) && InvAll(t1.kids, false) && Distinct(t1) && Ok(t1, w, false)
    requires t1.info.kind.Reactive? && t1.status != Running ==> t1.mem.running.None?
    requires Ok(cut, w, false) && Uids(cut) !! Uids(t1)
    ensures var h := Halt(t1, w);
      && Inv(h.node, false) && AllIdle(h.node) && Distinct(h.node) && Ok(h.node, h.w, false) && Uids(h.node) == Uids(t1)
      && Ok(cut, h.w, false) && Framed(w, h.w, Uids(t1))
  {
    HaltControlInv(t1, w);
    HaltTrackedKids(t1, w, false);
    hide Ok, Inv, Distinct, Halt;
    ShapeFacts(t1, Halt(t1, w).node);
    OkFramed(cut, w, Halt(t1, w).w, Uids(t1), false);
  }

  /** The parts of `EditOk` when something was cut out. */
  lemma CutOk(t: Node, mod: Mod, w: World, e: Edited)
    requires Inv(e.node, false) && Distinct(e.node) && Ok(e.node, e.w, false) && AllIdle(e.node)
    requires Framed(w, e.w, Uids(t)) && |e.removed| == 1
    requires AllIdle(e.removed[0]) && Ok(e.removed[0], e.w, false) && Uids(e.removed[0]) <= Uids(t)
    requires Uids(e.node) !! Uids(e.removed[0]) && Uids(e.node) + Uids(e.removed[0]) == Uids(t) + NewUids(mod)
    ensures EditOk(t, mod, w, e)
  {}

  lemma RemoveControl(t: Node, mod: Mod, w: World)
    requires Inv(t, false) && Distinct(t) && Ok(t, w, false)
    requires mod.Remove? && IsControl(t) && 0 <= mod.index < |t.kids|
    ensures EditOk(t, mod, w, EditHere(t, mod, w))
    ensures AllIdle(EditHere(t, mod, w).node)
  {
    hide Ok, Inv, InvAll, Distinct, Framed, Halt, Uids, AllIdle, EditOk;
    var k := t.kids[mod.index];
    var c := Halt(k, w);
    var t1 := t.(kids := t.kids[..mod.index] + t.kids[mod.index + 1..]);
    RemoveCut(t, mod.index, w);
    HaltAfterCut(t1, c.node, c.w);
    var h := Halt(t1, c.w);
    FramedTrans(w, c.w, h.w, Uids(k), Uids(t1), Uids(t));
    CutOk(t, mod, w, Edited(true, h.node, [c.node], h.w));
  }

  /** A decorator's child is halted and exchanged. */
  lemma DecoratorCut(t: Node, n: Node, w: World, U: set<Uid>)
    requires Inv(t, false) && Distinct(t) && Ok(t, w, false) && QuietOutside(w, U) && Uids(t) <= U
    requires NewFor(n, U) && |t.kids| == 1
    ensures var k := t.kids[0]; var c := Halt(k, w); var t1 := t.(kids := [n]);
      && AllIdle(c.node) && Ok(c.node, c.w, false) && Uids(c.node) == Uids(k) && Framed(w, c.w, Uids(k))
      && Inv(t1, false) && Distinct(t1) && Ok(t1, c.w, false)
      && Uids(t) == {t.info.uid} + Uids(k) && Uids(t1) == {t.info.uid} + Uids(n) && t.info.uid !in Uids(k)
  {
    var k := t.kids[0];
    var c := Halt(k, w);
    var t1 := t.(kids := [n]);
    OneUids(t);
    OneUids(t1);
    assert Inv(k, false) && Distinct(k) && Ok(k, w, false);
    KidSwapInv(t, 0, n);
    assert t.kids[0 := n] == [n];
    NewOk(n, w, U);
    assert OkFrom([n], 0, w, false);
    OkReplaced(t, [n], w);
    hide Ok, Inv, Framed, Halt;
    HaltInv(k, w, false);
    HaltTracked(k, w, false);
    IdleIsClosedDownward(c.node, false);
    ShapeFacts(k, c.node);
    OkFramed(t1, w, c.w, Uids(k), false);
  }

  lemma OneUids(t: Node)
    requires |t.kids| == 1
    ensures Uids(t) == {t.info.uid} + Uids(t.kids[0])
    ensures Distinct(t) <==> t.info.uid !in Uids(t.kids[0]) && Distinct(t.kids[0])
  {
    assert UidsFrom(t.kids, 1) == {} && DistinctFrom(t.kids, 1);
    assert UidsFrom(t.kids, 0) == Uids(t.kids[0]) + UidsFrom(t.kids, 1);
  }

  lemma InsertDecorator(t: Node, mod: Mod, w: World, U: set<Uid>)
    requires Inv(t, false) && Distinct(t) && Ok(t, w, false) && QuietOutside(w, U) && Uids(t) <= U
    requires mod.Insert? && NewFor(mod.node, U) && !IsControl(t) && !t.info.kind.Leaf? && |t.kids| == 1
    ensures EditOk(t, mod, w, EditHere(t, mod, w))
  {
    hide Ok, Inv, InvAll, Distinct, Framed, Halt, AllIdle, EditOk, QuietOutside;
    var c := Halt(t.kids[0], w);
    var t1 := t.(kids := [mod.node]);
    DecoratorCut(t, mod.node, w, U);
    var h := Halt(t1, c.w);
    HaltInv(t1, c.w, false);
    IdleIsClosedDownward(h.node, false);
    HaltTracked(t1, c.w, false);
    ShapeFacts(t1, h.node);
    OkFramed(c.node, c.w, h.w, Uids(t1), false);
    FramedTrans(w, c.w, h.w, Uids(t.kids[0]), Uids(t1), Uids(t) + Uids(mod.node));
    FramedByQuiet(w, h.w, t, h.node, Uids(mod.node), U);
    CutOk(t, mod, w, Edited(true, h.node, [c.node], h.w));
  }

  lemma UnchangedOk(t: Node, mod: Mod, w: World)
    requires Inv(t, false) && Distinct(t) && Ok(t, w, false)
    ensures EditOk(t, mod, w, Edited(true, t, [], w)) && EditOk(t, mod, w, Edited(false, t, [], w))
  {
    forall x ensures SameAt(w, w, x) {}
  }

  lemma EditHereOk(t: Node, mod: Mod, w: World, U: set<Uid>)
    requires Inv(t, false) && Distinct(t) && Ok(t, w, false) && QuietOutside(w, U) && Uids(t) <= U
    requires mod.Remove? || NewFor(mod.node, U)
    ensures EditOk(t, mod, w, EditHere(t, mod, w))
  {
    assert IsControl(t) || |t.kids| <= 1;
    hide EditOk, Inv, Distinct, Ok, QuietOutside, NewFor;
    UnchangedOk(t, mod, w);
    match mod {
      case Replace(_, _) => ReplaceHere(t, mod, w, U);
      case Insert(_, _, _) =>
        if IsControl(t) {
          InsertControl(t, mod, w, U);
        } else if !t.info.kind.Leaf? && t.kids != [] {
          InsertDecorator(t, mod, w, U);
        }
      case Remove(_, index) =>
        if IsControl(t) && 0 <= index < |t.kids| { RemoveControl(t, mod, w); }
    }
  }

  // ----- the path down to the target --------------------------------------------------------------

  /** A child may be exchanged for one that is IDLE or has its status. */
  lemma KidSwapInv(t: Node, at: nat, x: Node)
    requires Inv(t, false) && at < |t.kids| && Inv(x, false)
    requires x.status == Idle || x.status == t.kids[at].status
    ensures Inv(t.(kids := t.kids[at := x]), false)
  {
    var t1 := t.(kids := t.kids[at := x]);
    assert InvAll(t1.kids, false);
    assert forall j | 0 <= j < |t.kids| :: t1.kids[j].status == t.kids[j].status || t1.kids[j].status == Idle;
  }

  lemma {:induction false} EditIsOk(t: Node, mod: Mod, w: World, U: set<Uid>)
    requires Inv(t, false) && Distinct(t) && Ok(t, w, false) && QuietOutside(w, U) && Uids(t) <= U
    requires mod.Remove? || NewFor(mod.node, U)
    ensures EditOk(t, mod, w, Edit(t, mod, w))
    decreases t
  {
    if t.info.uid == mod.target {
      EditHereOk(t, mod, w, U);
    } else {
      var r := EditFrom(t.kids, 0, mod, w);
      if r.at < |t.kids| {
        KidUids(t.kids, 0, r.at);
        DistinctLater(t.kids, 0, r.at);
        EditIsOk(t.kids[r.at], mod, w, U);
        PathOk(t, mod, w, r.at, r.e, U);
      } else {
        UnchangedOk(t, mod, w);
      }
    }
  }

  /** An edit below child `at`, told of the parent. */
  lemma PathOk(t: Node, mod: Mod, w: World, at: nat, e: Edited, U: set<Uid>)
    requires Inv(t, false) && Distinct(t) && Ok(t, w, false) && Uids(t) <= U
    requires mod.Remove? || NewFor(mod.node, U)
    requires at < |t.kids| && EditOk(t.kids[at], mod, w, e)
    ensures EditOk(t, mod, w, Edited(true, t.(kids := t.kids[at := e.node]), e.removed, e.w))
  {
    var k, ks := t.kids[at], t.kids[at := e.node];
    KidUids(t.kids, 0, at);
    KidSwapInv(t, at, e.node);
    KidsOkAfter(t.kids, 0, at, w, e.node, e.w);
    OkAround(t, ks, w, e.w, Uids(k));
    hide Ok, Inv;
    PathUids(t, mod, at, e, U);
    FramedLess(w, e.w, Uids(k), Uids(t));
    hide Distinct, Uids, UidsFrom;
  }

  lemma PathUids(t: Node, mod: Mod, at: nat, e: Edited, U: set<Uid>)
    requires Distinct(t) && Uids(t) <= U && (mod.Remove? || NewFor(mod.node, U))
    requires at < |t.kids| && Distinct(e.node) && UidsMove(t.kids[at], mod, e)
    ensures var t1 := t.(kids := t.kids[at := e.node]);
      Distinct(t1) && UidsMove(t, mod, Edited(true, t1, e.removed, e.w))
  {
    var ks := t.kids[at := e.node];
    KidUids(t.kids, 0, at);
    assert Uids(e.node) <= Uids(t.kids[at]) + NewUids(mod);
    SwapUids(t.kids, 0, at, e.node);
    DistinctReplaced(t, ks);
  }

  /** Nothing outside `U` changed, and the children are fine: so is the node. */
  lemma OkAround(t: Node, ks: seq<Node>, w: World, v: World, U: set<Uid>)
    requires Ok(t, w, false) && Framed(w, v, U) && t.info.uid !in U && OkFrom(ks, 0, v, false)
    ensures Ok(t.(kids := ks), v, false)
  {
    assert SameAt(w, v, t.info.uid);
    hide OkFrom, Framed;
  }

  lemma FramedLess(w: World, v: World, U: set<Uid>, V: set<Uid>)
    requires Framed(w, v, U) && U <= V
    ensures Framed(w, v, V)
  {
    hide SameAt;
  }

  lemma {:induction false} KidsOkAfter(kids: seq<Node>, i: nat, at: nat, w: World, x: Node, v: World)
    requires i <= at < |kids| && DistinctFrom(kids, i) && OkFrom(kids, i, w, false)
    requires Framed(w, v, Uids(kids[at])) && Ok(x, v, false)
    ensures OkFrom(kids[at := x], i, v, false)
    decreases at - i
  {
    hide Ok, Framed;
    if i < at {
      KidUids(kids, i + 1, at);
      OkFramed(kids[i], w, v, Uids(kids[at]), false);
      KidsOkAfter(kids, i + 1, at, w, x, v);
    } else {
      OkFromFramed(kids, i + 1, w, v, Uids(kids[at]), false);
    }
  }

  /** Where the target is, everything is IDLE afterwards, or nothing has changed. */
  lemma EditHereInv(t: Node, mod: Mod, w: World)
    requires Inv(t, false) && (mod.Remove? || (Inv(mod.node, false) && mod.node.status == Idle))
    ensures var e := EditHere(t, mod, w); Inv(e.node, false) && (e.node == t || AllIdle(e.node))
  {
    assert IsControl(t) || |t.kids| <= 1;
    assert InvAll(t.kids, false);
    if mod.Replace? {
      IdleIsClosedDownward(mod.node, false);
    } else if IsControl(t) {
      hide Inv, Halt;
      if mod.Insert? {
        var i := Clamp(mod.index, |t.kids|);
        HaltControlInv(t.(kids := t.kids[..i] + [mod.node] + t.kids[i..]), w);
      } else if 0 <= mod.index < |t.kids| {
        HaltControlInv(t.(kids := t.kids[..mod.index] + t.kids[mod.index + 1..]), Halt(t.kids[mod.index], w).w);
      }
    } else if mod.Insert? && !t.info.kind.Leaf? && t.kids != [] {
      KidSwapInv(t, 0, mod.node);
      assert t.kids[0 := mod.node] == [mod.node];
      HaltInv(t.(kids := [mod.node]), Halt(t.kids[0], w).w, false);
      IdleIsClosedDownward(EditHere(t, mod, w).node, false);
    }
  }

  lemma {:induction false} EditInv(t: Node, mod: Mod, w: World)
    requires Inv(t, false) && (mod.Remove? || (Inv(mod.node, false) && mod.node.status == Idle))
    ensures var e := Edit(t, mod, w); Inv(e.node, false) && (e.node.status == Idle || e.node.status == t.status)
    decreases t
  {
    if t.info.uid == mod.target {
      EditHereInv(t, mod, w);
    } else {
      var r := EditFrom(t.kids, 0, mod, w);
      if r.at < |t.kids| {
        EditInv(t.kids[r.at], mod, w);
        KidSwapInv(t, r.at, r.e.node);
      }
    }
  }

  // ----- which modifications cut something out, and which add something ---------------------------

  /** `p` holds of the node with uid `u`, which is in the tree. */
  ghost predicate AtTarget(t: Node, u: Uid, p: Node -> bool) {
    if t.info.uid == u then p(t) else exists j | 0 <= j < |t.kids| :: AtTarget(t.kids[j], u, p)
  }

  /** At this target the modification cuts something out. */
  predicate CutsHere(mod: Mod, t: Node) {
    match mod
    case Replace(_, _) => true
    case Insert(_, _, _) => !IsControl(t) && !t.info.kind.Leaf? && t.kids != []
    case Remove(_, index) => IsControl(t) && 0 <= index < |t.kids|
  }

  /** At this target it adds the new node and cuts nothing out. */
  predicate AddsHere(mod: Mod, t: Node) { mod.Insert? && IsControl(t) }

  ghost predicate Cuts(t: Node, mod: Mod) { AtTarget(t, mod.target, n => CutsHere(mod, n)) }

  ghost predicate Adds(t: Node, mod: Mod) { AtTarget(t, mod.target, n => AddsHere(mod, n)) }

  lemma {:induction false} AtTargetIn(t: Node, u: Uid, p: Node -> bool)
    requires AtTarget(t, u, p)
    ensures u in Uids(t)
  {
    if t.info.uid != u {
      var j :| 0 <= j < |t.kids| && AtTarget(t.kids[j], u, p);
      AtTargetIn(t.kids[j], u, p);
      KidUids(t.kids, 0, j);
    }
  }

  lemma {:induction false} FoundIn(t: Node, mod: Mod, w: World)
    ensures Edit(t, mod, w).found <==> mod.target in Uids(t)
    decreases t, 1
  {
    if t.info.uid != mod.target { FoundInFrom(t.kids, 0, mod, w); }
  }

  lemma {:induction false} FoundInFrom(kids: seq<Node>, i: nat, mod: Mod, w: World)
    requires i <= |kids|
    ensures EditFrom(kids, i, mod, w).at < |kids| <==> mod.target in UidsFrom(kids, i)
    decreases kids, |kids| - i
  {
    hide Edit;
    if i < |kids| {
      FoundIn(kids[i], mod, w);
      FoundInFrom(kids, i + 1, mod, w);
    }
  }

  /** The tree with `x` in the place to which `path` leads. */
  function Put(t: Node, path: seq<nat>, x: Node): Node
    decreases |path|
  {
    if path == [] then x
    else if path[0] >= |t.kids| then t
    else t.(kids := t.kids[path[0] := Put(t.kids[path[0]], path[1..], x)])
  }

  /** A modification works on its target, wherever in the tree that is, and changes nothing else; if
      the target is not in the tree, nothing at all. */
  lemma {:induction false} EditsTargetOnly(t: Node, path: seq<nat>, s: Node, mod: Mod, w: World)
    requires Distinct(t) && At(t, path, s)
    ensures s.info.uid == mod.target ==>
      (var e := EditHere(s, mod, w); Edit(t, mod, w) == Edited(true, Put(t, path, e.node), e.removed, e.w))
    ensures mod.target !in Uids(t) ==> Edit(t, mod, w) == Edited(false, t, [], w)
    decreases |path|
  {
    FoundIn(t, mod, w);
    if s.info.uid == mod.target && path != [] {
      var i, k := path[0], t.kids[path[0]];
      AtUids(k, path[1..], s);
      KidUids(t.kids, 0, i);
      DistinctLater(t.kids, 0, i);
      EditsTargetOnly(k, path[1..], s, mod, w);
      var r := EditFrom(t.kids, 0, mod, w);
      FoundInFrom(t.kids, 0, mod, w);
      FoundIn(t.kids[r.at], mod, w);
      OneKid(t.kids, 0, r.at, i, mod.target);
    }
  }

  lemma {:induction false} AtUids(t: Node, path: seq<nat>, s: Node)
    requires At(t, path, s)
    ensures s.info.uid in Uids(t)
    decreases |path|
  {
    if path != [] {
      AtUids(t.kids[path[0]], path[1..], s);
      KidUids(t.kids, 0, path[0]);
    }
  }

  /** In a tree of distinct nodes the target is below one child only. */
  lemma TargetBelow(t: Node, at: nat, u: Uid, p: Node -> bool)
    requires Distinct(t) && at < |t.kids| && u in Uids(t.kids[at])
    ensures AtTarget(t, u, p) <==> AtTarget(t.kids[at], u, p)
  {
    KidUids(t.kids, 0, at);
    forall j | 0 <= j < |t.kids| && AtTarget(t.kids[j], u, p) ensures j == at {
      AtTargetIn(t.kids[j], u, p);
      OneKid(t.kids, 0, j, at, u);
    }
  }

  lemma {:induction false} OneKid(kids: seq<Node>, i: nat, j: nat, k: nat, u: Uid)
    requires i <= j < |kids| && i <= k < |kids| && DistinctFrom(kids, i) && u in Uids(kids[j]) && u in Uids(kids[k])
    ensures j == k
    decreases |kids| - i
  {
    if i < j { KidUids(kids, i + 1, j); }
    if i < k { KidUids(kids, i + 1, k); }
    if i < j && i < k { OneKid(kids, i + 1, j, k, u); }
  }

  /** Exactly what is added and cut out, at the target ... */
  ghost predicate Accounts(t: Node, mod: Mod, e: Edited, cuts: bool, adds: bool) {
    && (e.removed != [] <==> cuts)
    && (!cuts ==> Uids(e.node) == Uids(t) + if adds then NewUids(mod) else {})
  }

  lemma HereAccounts(t: Node, mod: Mod, w: World, U: set<Uid>)
    requires Inv(t, false) && Distinct(t) && Ok(t, w, false) && QuietOutside(w, U) && Uids(t) <= U
    requires mod.Remove? || NewFor(mod.node, U)
    ensures Accounts(t, mod, EditHere(t, mod, w), CutsHere(mod, t), AddsHere(mod, t))
  {
    hide Inv, Ok, QuietOutside, NewFor, Halt, Uids;
    if AddsHere(mod, t) { InsertControl(t, mod, w, U); }
  }

  /** ... and told of the whole tree. */
  lemma {:induction false} EditAccounts(t: Node, mod: Mod, w: World, U: set<Uid>)
    requires Inv(t, false) && Distinct(t) && Ok(t, w, false) && QuietOutside(w, U) && Uids(t) <= U
    requires mod.Remove? || NewFor(mod.node, U)
    ensures Accounts(t, mod, Edit(t, mod, w), Cuts(t, mod), Adds(t, mod))
    decreases t, 0
  {
    if t.info.uid == mod.target {
      HereAccounts(t, mod, w, U);
    } else {
      FoundIn(t, mod, w);
      var r := EditFrom(t.kids, 0, mod, w);
      if r.at < |t.kids| {
        PathAccounts(t, mod, w, r.at, U);
      } else {
        if Cuts(t, mod) { AtTargetIn(t, mod.target, n => CutsHere(mod, n)); }
        if Adds(t, mod) { AtTargetIn(t, mod.target, n => AddsHere(mod, n)); }
      }
    }
  }

  lemma {:induction false} PathAccounts(t: Node, mod: Mod, w: World, at: nat, U: set<Uid>)
    requires Inv(t, false) && Distinct(t) && Ok(t, w, false) && QuietOutside(w, U) && Uids(t) <= U
    requires mod.Remove? || NewFor(mod.node, U)
    requires at < |t.kids| && Edit(t.kids[at], mod, w).found
    ensures var e := Edit(t.kids[at], mod, w);
      Accounts(t, mod, Edited(true, t.(kids := t.kids[at := e.node]), e.removed, e.w), Cuts(t, mod), Adds(t, mod))
    decreases t.kids[at], 1
  {
    var k, e := t.kids[at], Edit(t.kids[at], mod, w);
    KidUids(t.kids, 0, at);
    DistinctLater(t.kids, 0, at);
    assert Inv(k, false) && Distinct(k) && Ok(k, w, false);
    hide *;
    EditAccounts(k, mod, w, U);
    EditIsOk(k, mod, w, U);
    FoundIn(k, mod, w);
    BelowCutsAndAdds(t, at, mod);
    EditOkUids(k, mod, w, e);
    PathAdds(t, mod, at, e, Cuts(k, mod), Adds(k, mod), U);
  }

  lemma EditOkUids(t: Node, mod: Mod, w: World, e: Edited)
    requires EditOk(t, mod, w, e)
    ensures Distinct(e.node) && UidsMove(t, mod, e)
  {}

  lemma BelowCutsAndAdds(t: Node, at: nat, mod: Mod)
    requires Distinct(t) && at < |t.kids| && mod.target in Uids(t.kids[at])
    ensures (Cuts(t, mod) <==> Cuts(t.kids[at], mod)) && (Adds(t, mod) <==> Adds(t.kids[at], mod))
  {
    hide Distinct, Uids, AtTarget;
    TargetBelow(t, at, mod.target, n => CutsHere(mod, n));
    TargetBelow(t, at, mod.target, n => AddsHere(mod, n));
  }

  lemma PathAdds(t: Node, mod: Mod, at: nat, e: Edited, cuts: bool, adds: bool, U: set<Uid>)
    requires Distinct(t) && Uids(t) <= U && (mod.Remove? || NewFor(mod.node, U))
    requires at < |t.kids| && Uids(t.kids[at]) <= Uids(t)
    requires Accounts(t.kids[at], mod, e, cuts, adds) && Distinct(e.node) && UidsMove(t.kids[at], mod, e)
    ensures Accounts(t, mod, Edited(true, t.(kids := t.kids[at := e.node]), e.removed, e.w), cuts, adds)
  {
    hide Inv;
    assert Uids(e.node) <= Uids(t.kids[at]) + NewUids(mod);
    KidUids(t.kids, 0, at);
    SwapUids(t.kids, 0, at, e.node);
  }

  // ----- runs with modifications ---------------------------------------------------------------------

  /** One modification keeps everything sound.  What it cuts out is wholly IDLE; it cuts something
      out exactly when its target calls for it, and then the uids of what stays and what was cut out
      are, without overlap, the old ones and the new ones; otherwise it adds the new ones exactly
      when it inserts into a control node of the tree. */
  lemma EditSound(t: Node, mod: Mod, w: World)
    requires Sound(t, w) && (mod.Remove? || NewFor(mod.node, Uids(t)))
    ensures var e := Edit(t, mod, w);
      && Sound(e.node, e.w)
      && (forall i | 0 <= i < |e.removed| :: AllIdle(e.removed[i]))
      && (e.removed != [] <==> Cuts(t, mod))
      && (!Cuts(t, mod) ==> Uids(e.node) == Uids(t) + if Adds(t, mod) then NewUids(mod) else {})
      && (e.removed != [] ==> Uids(e.removed[0]) <= Uids(t) && Uids(e.node) !! Uids(e.removed[0]))
      && (e.removed != [] ==> Uids(e.node) + Uids(e.removed[0]) == Uids(t) + NewUids(mod))
  {
    EditIsOk(t, mod, w, Uids(t));
    EditAccounts(t, mod, w, Uids(t));
    var e := Edit(t, mod, w);
    hide Cuts, Adds;
    forall x | x !in Uids(e.node) ensures QuietAt(e.w, x) {
      if e.removed != [] && x in Uids(e.removed[0]) {
        IdleQuiet(e.removed[0], e.w, x);
      } else {
        assert x !in Uids(t);
        assert QuietAt(w, x) && SameAt(w, e.w, x);
      }
    }
  }

  /** A step of a live tree: a tick, halt or write, or one modification. */
  datatype Act = Do(op: Op) | Change(mod: Mod)

  function Live(t: Node, w: World, acts: seq<Act>): Step
    decreases |acts|
  {
    if acts == [] then Step(t, w)
    else
      match acts[0]
      case Do(op) => var s := Perform(t, w, op); Live(s.node, s.w, acts[1..])
      case Change(mod) => var e := Edit(t, mod, w); Live(e.node, e.w, acts[1..])
  }

  /** Whatever is brought in is new and IDLE when it comes in. */
  ghost predicate Legal(t: Node, w: World, acts: seq<Act>)
    decreases |acts|
  {
    acts == [] ||
    match acts[0]
    case Do(op) => Legal(Perform(t, w, op).node, Perform(t, w, op).w, acts[1..])
    case Change(mod) =>
      (mod.Remove? || NewFor(mod.node, Uids(t))) && Legal(Edit(t, mod, w).node, Edit(t, mod, w).w, acts[1..])
  }

  lemma PerformSound(t: Node, w: World, op: Op)
    requires Sound(t, w)
    ensures var s := Perform(t, w, op); Sound(s.node, s.w) && Uids(s.node) == Uids(t)
  {
    PerformInv(t, w, op, false);
    var s := Perform(t, w, op);
    match op {
      case TickOp => TickTracked(t, w, false);
      case HaltOp => HaltTracked(t, w, false);
      case WriteOp(boards) =>
        OkWrite(t, w, boards, false);
        SameShapeSelf(t);
        forall x ensures SameAt(w, s.w, x) {}
    }
    ShapeFacts(t, s.node);
    forall x | x !in Uids(t) ensures QuietAt(s.w, x) {
      assert QuietAt(w, x) && SameAt(w, s.w, x);
    }
  }

  /** Over any run of ticks, halts, writes and modifications: no uid occurs twice, decorators have
      one child, every ancestor of a RUNNING node is RUNNING and every descendant of an IDLE node
      IDLE, and the Inspector's running set is exactly the set of uids of RUNNING nodes. */
  lemma {:induction false} LiveSound(t: Node, w: World, acts: seq<Act>)
    requires Sound(t, w) && Legal(t, w, acts)
    ensures var s := Live(t, w, acts);
      Sound(s.node, s.w) && RunningSet(s.w.notes) == RunningUids(s.node)
    decreases |acts|
  {
    hide Sound;
    if acts == [] {
      SoundRunning(t, w);
    } else {
      match acts[0] {
        case Do(op) =>
          PerformSound(t, w, op);
          var s := Perform(t, w, op);
          LiveSound(s.node, s.w, acts[1..]);
        case Change(mod) =>
          EditSound(t, mod, w);
          var e := Edit(t, mod, w);
          LiveSound(e.node, e.w, acts[1..]);
      }
    }
  }

  lemma SoundRunning(t: Node, w: World)
    requires Sound(t, w)
    ensures RunningSet(w.notes) == RunningUids(t)
  {
    RunningSetIs(t, w, false);
    forall x | x in RunningSet(w.notes) ensures x in Uids(t) {
      assert x in Uids(t) || QuietAt(w, x);
    }
  }

  /** `h` is `t` halted: IDLE throughout and nothing remembered, so its next tick starts over from
      its first child. */
  ghost predicate Restarted(t: Node, h: Node) {
    && AllIdle(h) && h.info == t.info
    && (t.info.kind.Memory? ==> h.mem.cursor == 0) && (t.info.kind.Reactive? ==> h.mem.running.None?)
  }

  /** `ls` are the nodes `ks`, in their order, with `x` in between at index `i`. */
  ghost predicate StandsAt(ks: seq<Node>, ls: seq<Node>, i: nat, x: Info)
    requires i <= |ks|
  {
    && |ls| == |ks| + 1 && ls[i].info == x
    && (forall j | 0 <= j < i :: ls[j].info == ks[j].info)
    && (forall j | i <= j < |ks| :: ls[j + 1].info == ks[j].info)
  }

  /** `ls` are the nodes `ks`, in their order, with `x` inserted at `index`, or at the end that is
      nearer to an index out of range. */
  ghost predicate Inserted(ks: seq<Node>, ls: seq<Node>, index: int, x: Info) {
    && (0 <= index <= |ks| ==> StandsAt(ks, ls, index, x))
    && (index < 0 ==> StandsAt(ks, ls, 0, x))
    && (index > |ks| ==> StandsAt(ks, ls, |ks|, x))
  }

  /** INSERT_CHILD on a control node: the new child's place, and that the node starts over. */
  lemma InsertRestarts(t: Node, mod: Mod, w: World)
    requires Inv(t, false) && IsControl(t) && mod.Insert? && Inv(mod.node, false)
    ensures var h := EditHere(t, mod, w).node; Restarted(t, h) && Inserted(t.kids, h.kids, mod.index, mod.node.info)
  {
    var i := Clamp(mod.index, |t.kids|);
    InsertPlace(t, mod, w);
    assert InvAll(t.kids, false);
    hide Inv, Halt, Inserted, Restarted;
    HaltRestarts(t, t.kids[..i] + [mod.node] + t.kids[i..], w);
  }

  lemma InsertPlace(t: Node, mod: Mod, w: World)
    requires IsControl(t) && mod.Insert?
    ensures Inserted(t.kids, EditHere(t, mod, w).node.kids, mod.index, mod.node.info)
  {
    var i := Clamp(mod.index, |t.kids|);
    var ks := t.kids[..i] + [mod.node] + t.kids[i..];
    hide Halt;
    HaltInfos(t.(kids := ks), w);
    var ls := Halt(t.(kids := ks), w).node.kids;
    SameInfos(ls, ks);
    hide Infos, StandsAt, Clamp;
    PutAt(t.kids, ls, i, mod.node);
  }

  lemma PutAt(ks: seq<Node>, ls: seq<Node>, i: nat, x: Node)
    requires i <= |ks| && |ls| == |ks| + 1
    requires forall j | 0 <= j < |ls| :: ls[j].info == (ks[..i] + [x] + ks[i..])[j].info
    ensures StandsAt(ks, ls, i, x.info)
  {
    var all := ks[..i] + [x] + ks[i..];
    assert forall j | i <= j < |ks| :: all[j + 1] == ks[j];
  }

  /** REMOVE_CHILD on a control node: the others stay in their order, and the node starts over. */
  lemma RemoveRestarts(t: Node, mod: Mod, w: World)
    requires Inv(t, false) && IsControl(t) && mod.Remove? && 0 <= mod.index < |t.kids|
    ensures var h := EditHere(t, mod, w).node;
      Restarted(t, h) && StandsAt(h.kids, t.kids, mod.index, t.kids[mod.index].info)
  {
    RemovePlace(t, mod, w);
    assert InvAll(t.kids, false);
    hide Inv, Halt, StandsAt, Restarted;
    HaltRestarts(t, t.kids[..mod.index] + t.kids[mod.index + 1..], Halt(t.kids[mod.index], w).w);
  }

  lemma RemovePlace(t: Node, mod: Mod, w: World)
    requires IsControl(t) && mod.Remove? && 0 <= mod.index < |t.kids|
    ensures var ls := EditHere(t, mod, w).node.kids;
      |ls| == |t.kids| - 1 && StandsAt(ls, t.kids, mod.index, t.kids[mod.index].info)
  {
    var c := Halt(t.kids[mod.index], w);
    var ks := t.kids[..mod.index] + t.kids[mod.index + 1..];
    hide Halt;
    HaltInfos(t.(kids := ks), c.w);
    SameInfos(Halt(t.(kids := ks), c.w).node.kids, ks);
  }

  /** REPLACE_NODE and HOT_SWAP_SUBTREE bring in the new node as it is and halt the old one.
      INSERT_CHILD on a decorator: its child is halted and gives way to the new one, which is halted
      with the decorator; on a leaf, or a decorator without child, nothing happens.  Nor does
      REMOVE_CHILD do anything to a node that is no control node, or at an index out of range. */
  lemma OtherEdits(t: Node, mod: Mod, w: World)
    ensures var e := EditHere(t, mod, w);
      && (mod.Replace? ==> e.node == mod.node && e.removed == [Halt(t, w).node] && e.w == Halt(t, w).w)
      && (mod.Insert? && !IsControl(t) && !t.info.kind.Leaf? && t.kids != [] ==>
            e.removed == [Halt(t.kids[0], w).node] && e.node.info == t.info && e.node.status == Idle
            && |e.node.kids| == 1 && e.node.kids[0].info == mod.node.info && e.node.kids[0].status == Idle)
      && (mod.Insert? && (t.info.kind.Leaf? || (!IsControl(t) && t.kids == [])) ==> e == Edited(true, t, [], w))
      && (mod.Remove? && !(IsControl(t) && 0 <= mod.index < |t.kids|) ==> e == Edited(true, t, [], w))
      && (mod.Remove? && IsControl(t) && 0 <= mod.index < |t.kids| ==>
            e.removed == [Halt(t.kids[mod.index], w).node])
  {
    hide HaltRunning, ResetTerminal;
    if mod.Insert? && !IsControl(t) && !t.info.kind.Leaf? && t.kids != [] {
      OnlyKidHalted(t.(kids := [mod.node]), Halt(t.kids[0], w).w);
    }
  }

  lemma OnlyKidHalted(t: Node, w: World)
    requires |t.kids| == 1 && !t.info.kind.Parallel?
    ensures var h := Halt(t, w).node;
      h.info == t.info && h.status == Idle && |h.kids| == 1
      && h.kids[0].info == t.kids[0].info && h.kids[0].status == Idle
  {
    var w1 := if t.status == Running then Tell(OnHaltWorld(t, w), Stopped(t.info.uid)) else w;
    assert HaltFrom(t.kids, 1, Halt(t.kids[0], w1).w).kids == t.kids;
  }

  lemma HaltRestarts(t: Node, ks: seq<Node>, w: World)
    requires Inv(t, false) && IsControl(t) && InvAll(ks, false)
    ensures Restarted(t, Halt(t.(kids := ks), w).node)
  {
    HaltControlInv(t.(kids := ks), w);
  }

  function Infos(kids: seq<Node>): (infos: seq<Info>)
    ensures |infos| == |kids|
  {
    seq(|kids|, j requires 0 <= j < |kids| => kids[j].info)
  }

  lemma HaltInfos(t: Node, w: World)
    requires IsControl(t)
    ensures Infos(Halt(t, w).node.kids) == Infos(t.kids)
  {
    var w1 := if t.status == Running then Tell(OnHaltWorld(t, w), Stopped(t.info.uid)) else w;
    HaltFromInfos(t.kids, 0, w1);
    var r := HaltRunning(t.kids, 0, w1);
    ClearInfos(t.kids, 0, w1);
    ClearInfos(r.kids, 0, r.w);
  }

  lemma {:induction false} HaltFromInfos(kids: seq<Node>, i: nat, w: World)
    ensures Infos(HaltFrom(kids, i, w).kids) == Infos(kids)
    decreases |kids| - i
  {
    if i < |kids| {
      HaltFromInfos(kids, i + 1, Halt(kids[i], w).w);
      assert forall j | 0 <= j < |kids| :: HaltFrom(kids, i + 1, Halt(kids[i], w).w).kids[j].info == Infos(kids)[j];
    }
  }

  lemma {:induction false} ClearInfos(kids: seq<Node>, i: nat, w: World)
    ensures Infos(HaltRunning(kids, i, w).kids) == Infos(kids) == Infos(ResetTerminal(kids, i, w).kids)
    decreases |kids| - i
  {
    if i < |kids| {
      var v := if kids[i].status == Running then Halt(kids[i], w).w else w;
      var z := if Terminal(kids[i].status) then Reset(kids[i], w).w else w;
      ClearInfos(kids, i + 1, v);
      ClearInfos(kids, i + 1, z);
      SameInfos(HaltRunning(kids, i + 1, v).kids, kids);
      SameInfos(ResetTerminal(kids, i + 1, z).kids, kids);
    }
  }

  lemma SameInfos(a: seq<Node>, b: seq<Node>)
    requires Infos(a) == Infos(b)
    ensures |a| == |b| && forall j | 0 <= j < |a| :: a[j].info == b[j].info
  {
    forall j | 0 <= j < |a| ensures a[j].info == b[j].info { assert Infos(a)[j] == Infos(b)[j]; }
  }
}
