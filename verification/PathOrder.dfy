/** In which order the Inspector's active path lists the nodes on one branch of the tree. */
module PathOrder {
  import opened Worlds
  import opened Engine
  import opened Invariants
  import opened Runs
  import opened Tracking
  import opened Ledgers
  import opened Footprints
  import opened Modify
  import opened Inspectors

  // ----- one tick tells of children before parents, and of each node once -------------------

  /** `d` is the uid of a node in the subtree whose root has uid `a`. */
  ghost predicate Over(t: Node, a: Uid, d: Uid) {
    (t.info.uid == a && d in Uids(t)) || exists j | 0 <= j < |t.kids| :: Over(t.kids[j], a, d)
  }

  ghost predicate OverAny(kids: seq<Node>, a: Uid, d: Uid) {
    exists j | 0 <= j < |kids| :: Over(kids[j], a, d)
  }

  /** Once something has been told about a node, no node in its subtree is ticked any more. */
  ghost predicate Settles(kids: seq<Node>, ns: seq<Note>) {
    forall i, j | 0 <= i < j < |ns| && ns[j].Ticked? :: !OverAny(kids, ns[i].uid, ns[j].uid)
  }

  ghost predicate AboutOnly(ns: seq<Note>, U: set<Uid>) {
    forall i | 0 <= i < |ns| :: ns[i].uid in U
  }

  lemma {:induction false} OverUids(t: Node, a: Uid, d: Uid)
    requires Over(t, a, d)
    ensures a in Uids(t) && d in Uids(t)
  {
    if !(t.info.uid == a && d in Uids(t)) {
      var j :| 0 <= j < |t.kids| && Over(t.kids[j], a, d);
      OverUids(t.kids[j], a, d);
      KidUids(t.kids, 0, j);
    }
  }

  /** The uids of the children from `lo` up to `hi`. */
  function Span(kids: seq<Node>, lo: nat, hi: nat): set<Uid>
    requires hi <= |kids|
    decreases hi
  {
    if hi <= lo then {} else Span(kids, lo, hi - 1) + Uids(kids[hi - 1])
  }

  lemma {:induction false} SpanHas(kids: seq<Node>, lo: nat, hi: nat, x: Uid)
    requires hi <= |kids|
    ensures x in Span(kids, lo, hi) <==> exists j | lo <= j < hi :: x in Uids(kids[j])
    decreases hi
  {
    if lo < hi { SpanHas(kids, lo, hi - 1, x); }
  }

  lemma {:induction false} DisjointKids(kids: seq<Node>, i: nat, j: nat, k: nat)
    requires i <= j < k < |kids| && DistinctFrom(kids, i)
    ensures Uids(kids[j]) !! Uids(kids[k])
    decreases j - i
  {
    if i < j { DisjointKids(kids, i + 1, j, k); } else { KidUids(kids, i + 1, k); }
  }

  /** Notes about earlier children, then notes about later ones. */
  lemma SettlesJoin(kids: seq<Node>, lo: nat, mid: nat, hi: nat, p: seq<Note>, q: seq<Note>)
    requires lo <= mid <= hi <= |kids| && DistinctFrom(kids, 0)
    requires Settles(kids, p) && Settles(kids, q)
    requires AboutOnly(p, Span(kids, lo, mid)) && AboutOnly(q, Span(kids, mid, hi))
    ensures Settles(kids, p + q) && AboutOnly(p + q, Span(kids, lo, hi))
  {
    hide Over;
    var ns := p + q;
    forall i | 0 <= i < |ns| ensures ns[i].uid in Span(kids, lo, hi) {
      SpanHas(kids, lo, mid, ns[i].uid);
      SpanHas(kids, mid, hi, ns[i].uid);
      SpanHas(kids, lo, hi, ns[i].uid);
    }
    forall i, j | 0 <= i < j < |ns| && ns[j].Ticked? ensures !OverAny(kids, ns[i].uid, ns[j].uid) {
      if j < |p| {
        assert ns[i] == p[i] && ns[j] == p[j];
      } else if i >= |p| {
        assert ns[i] == q[i - |p|] && ns[j] == q[j - |p|];
      } else {
        NotAcross(kids, lo, mid, hi, ns[i].uid, ns[j].uid);
      }
    }
  }

  lemma NotAcross(kids: seq<Node>, lo: nat, mid: nat, hi: nat, a: Uid, d: Uid)
    requires lo <= mid <= hi <= |kids| && DistinctFrom(kids, 0)
    requires a in Span(kids, lo, mid) && d in Span(kids, mid, hi)
    ensures !OverAny(kids, a, d)
  {
    hide Over;
    if OverAny(kids, a, d) {
      var k :| 0 <= k < |kids| && Over(kids[k], a, d);
      OverUids(kids[k], a, d);
      SpanHas(kids, lo, mid, a);
      SpanHas(kids, mid, hi, d);
      var i :| lo <= i < mid && a in Uids(kids[i]);
      var j :| mid <= j < hi && d in Uids(kids[j]);
      SameKid(kids, i, k, a);
      SameKid(kids, k, j, d);
    }
  }

  lemma SameKid(kids: seq<Node>, i: nat, k: nat, x: Uid)
    requires i < |kids| && k < |kids| && DistinctFrom(kids, 0) && x in Uids(kids[i]) && x in Uids(kids[k])
    ensures i == k
  {
    if i < k { DisjointKids(kids, 0, i, k); }
    if k < i { DisjointKids(kids, 0, k, i); }
  }

  lemma SettlesStops(kids: seq<Node>, p: seq<Note>, q: seq<Note>)
    requires Settles(kids, p) && forall i | 0 <= i < |q| :: q[i].Stopped?
    ensures Settles(kids, p + q)
  {
    hide OverAny;
    var ns := p + q;
    forall i, j | 0 <= i < j < |ns| && ns[j].Ticked? ensures !OverAny(kids, ns[i].uid, ns[j].uid) {
      assert j < |p| && ns[i] == p[i] && ns[j] == p[j];
    }
  }

  /** What is told while the children work. */
  ghost predicate Tells(kids: seq<Node>, w: World, v: World) {
    w.notes <= v.notes && AboutOnly(Told(w, v), UidsFrom(kids, 0)) && Settles(kids, Told(w, v))
  }

  lemma ToldSplit(w: World, v: World, z: World)
    requires w.notes <= v.notes <= z.notes
    ensures Told(w, z) == Told(w, v) + Told(v, z)
  {}

  lemma ToldAbout(w: World, v: World, U: set<Uid>)
    requires Beside(w, v, U)
    ensures w.notes <= v.notes && AboutOnly(Told(w, v), U)
  {}

  lemma TellsNothing(kids: seq<Node>, w: World, v: World)
    requires v.notes == w.notes
    ensures Tells(kids, w, v)
  {}

  lemma TellsStops(kids: seq<Node>, w: World, v: World, z: World)
    requires Tells(kids, w, v) && Beside(v, z, UidsFrom(kids, 0)) && OnlyStops(v, z)
    ensures Tells(kids, w, z)
  {
    hide OverAny, LeftAt;
    ToldSplit(w, v, z);
    SettlesStops(kids, Told(w, v), Told(v, z));
  }

  lemma TellsSame(kids: seq<Node>, w: World, w1: World, v: World, v1: World)
    requires Tells(kids, w1, v) && w1.notes == w.notes && v1.notes == v.notes
    ensures Tells(kids, w, v1)
  {}

  ghost predicate TickTells(t: Node, w: World) {
    var v := Tick(t, w).w;
    w.notes <= v.notes && AboutOnly(Told(w, v), Uids(t)) && Settles([t], Told(w, v))
  }

  lemma {:induction false} TickSettles(t: Node, w: World)
    requires Distinct(t)
    ensures TickTells(t, w)
    decreases t, 5
  {
    hide TickBody, Beside;
    TickBodySettles(t, w);
    TickBeside(t, w, Uids(t));
    ToldAbout(w, Tick(t, w).w, Uids(t));
    var b := TickBody(t, w);
    OwnNoteLast(t, Told(w, b.w), b.result);
    ToldSplit(w, b.w, Tick(t, w).w);
    assert Told(b.w, Tick(t, w).w) == [Ticked(t.info.uid, b.result)];
  }

  lemma OwnNoteLast(t: Node, ns: seq<Note>, r: Result)
    requires t.info.uid !in UidsFrom(t.kids, 0) && AboutOnly(ns, UidsFrom(t.kids, 0)) && Settles(t.kids, ns)
    ensures Settles([t], ns + [Ticked(t.info.uid, r)])
  {
    var u, all := t.info.uid, ns + [Ticked(t.info.uid, r)];
    forall i, j | 0 <= i < j < |all| && all[j].Ticked? ensures !OverAny([t], all[i].uid, all[j].uid) {
      assert all[i] == ns[i];
      if j < |ns| {
        assert all[j] == ns[j] && !OverAny(t.kids, ns[i].uid, ns[j].uid);
      } else if OverAny(t.kids, all[i].uid, u) {
        var k :| 0 <= k < |t.kids| && Over(t.kids[k], all[i].uid, u);
        OverUids(t.kids[k], all[i].uid, u);
        KidUids(t.kids, 0, k);
      }
      assert Over([t][0], all[i].uid, all[j].uid) <==> OverAny(t.kids, all[i].uid, all[j].uid);
    }
  }

  lemma {:induction false} TickBodySettles(t: Node, w: World)
    requires Distinct(t)
    ensures Tells(t.kids, w, TickBody(t, w).w)
    decreases t, 4
  {
    hide Tells, TickMemory, TickReactive, TickParallel, TickDecorator;
    match t.info.kind {
      case Leaf(sort) => TellsNothing(t.kids, w, TickBody(t, w).w);
      case Memory(adv) => TickMemorySettles(t, adv, w);
      case Reactive(adv) => TickReactiveSettles(t, adv, w);
      case Parallel(_, _, _) => TickParallelSettles(t, w);
      case _ =>
        if t.kids == [] { TellsNothing(t.kids, w, w); } else { TickDecoratorSettles(t, w); }
    }
  }

  /** Notes about children `lo` to `hi`, in order. */
  ghost predicate SpanTells(kids: seq<Node>, lo: nat, hi: nat, w: World, v: World)
    requires hi <= |kids|
  {
    w.notes <= v.notes && AboutOnly(Told(w, v), Span(kids, lo, hi)) && Settles(kids, Told(w, v))
  }

  lemma SpanNone(kids: seq<Node>, lo: nat, hi: nat, w: World, v: World)
    requires hi <= |kids| && v.notes == w.notes
    ensures SpanTells(kids, lo, hi, w, v)
  {}

  lemma SpanJoin(kids: seq<Node>, lo: nat, mid: nat, hi: nat, w: World, v: World, z: World)
    requires lo <= mid <= hi <= |kids| && DistinctFrom(kids, 0)
    requires SpanTells(kids, lo, mid, w, v) && SpanTells(kids, mid, hi, v, z)
    ensures SpanTells(kids, lo, hi, w, z)
  {
    hide Settles, AboutOnly, Span;
    ToldSplit(w, v, z);
    SettlesJoin(kids, lo, mid, hi, Told(w, v), Told(v, z));
  }

  lemma SpanWhole(kids: seq<Node>, lo: nat, hi: nat, w: World, v: World)
    requires hi <= |kids| && SpanTells(kids, lo, hi, w, v)
    ensures Tells(kids, w, v)
  {
    hide Settles;
    forall x | x in Span(kids, lo, hi) ensures x in UidsFrom(kids, 0) {
      SpanHas(kids, lo, hi, x);
      var j :| lo <= j < hi && x in Uids(kids[j]);
      KidUids(kids, 0, j);
    }
  }

  /** One child is ticked. */
  lemma {:induction false} KidSettles(kids: seq<Node>, i: nat, w: World)
    requires i < |kids| && DistinctFrom(kids, 0)
    ensures SpanTells(kids, i, i + 1, w, Tick(kids[i], w).w)
    decreases kids, 0
  {
    hide Tick;
    DistinctLater(kids, 0, i);
    TickSettles(kids[i], w);
    var ns := Told(w, Tick(kids[i], w).w);
    assert Span(kids, i, i + 1) == Span(kids, i, i) + Uids(kids[i]);
    forall p, q | 0 <= p < q < |ns| && ns[q].Ticked? ensures !OverAny(kids, ns[p].uid, ns[q].uid) {
      OnlyHere(kids, i, ns[p].uid, ns[q].uid);
    }
  }

  lemma OnlyHere(kids: seq<Node>, i: nat, a: Uid, d: Uid)
    requires i < |kids| && DistinctFrom(kids, 0) && a in Uids(kids[i])
    ensures OverAny(kids, a, d) <==> OverAny([kids[i]], a, d)
  {
    hide Over;
    if OverAny(kids, a, d) {
      var k :| 0 <= k < |kids| && Over(kids[k], a, d);
      OverUids(kids[k], a, d);
      SameKid(kids, i, k, a);
      assert Over([kids[i]][0], a, d);
    }
  }

  lemma {:induction false} RunFromSettles(kids: seq<Node>, i: nat, n: nat, skip: nat, adv: Final, w: World)
    requires i <= n <= |kids| && DistinctFrom(kids, 0)
    ensures SpanTells(kids, i, n, w, RunFrom(kids, i, n, skip, adv, w).w)
    decreases kids, n - i
  {
    hide SpanTells, Tick, IsGuard;
    SpanNone(kids, i, n, w, w);
    if i < n {
      SpanNone(kids, i, i + 1, w, w);
      if i < skip && !IsGuard(kids[i]) {
        RunFromSettles(kids, i + 1, n, skip, adv, w);
        SpanJoin(kids, i, i + 1, n, w, w, RunFrom(kids, i, n, skip, adv, w).w);
      } else {
        KidSettles(kids, i, w);
        var s := Tick(kids[i], w);
        if s.node.status == adv {
          RunFromSettles(kids, i + 1, n, skip, adv, s.w);
        } else {
          SpanNone(kids, i + 1, n, s.w, s.w);
        }
        SpanJoin(kids, i, i + 1, n, w, s.w, RunFrom(kids, i, n, skip, adv, w).w);
      }
    }
  }

  lemma {:induction false} SweepSettles(kids: seq<Node>, i: nat, w: World)
    requires i <= |kids| && DistinctFrom(kids, 0)
    ensures SpanTells(kids, i, |kids|, w, Sweep(kids, i, w).w)
    decreases kids, |kids| - i
  {
    hide SpanTells, Tick;
    SpanNone(kids, i, |kids|, w, w);
    if i < |kids| {
      SpanNone(kids, i, i + 1, w, w);
      KidSettles(kids, i, w);
      var v := if Terminal(kids[i].status) then w else Tick(kids[i], w).w;
      SweepSettles(kids, i + 1, v);
      SpanJoin(kids, i, i + 1, |kids|, w, v, Sweep(kids, i, w).w);
    }
  }

  /** A run over the children and the halt of those from `k` on. */
  lemma {:induction false} RunAndHaltSettles(kids: seq<Node>, i: nat, n: nat, skip: nat, adv: Final, w: World, k: nat)
    requires i <= n <= |kids| && DistinctFrom(kids, 0)
    ensures var r := RunFrom(kids, i, n, skip, adv, w);
      Tells(kids, w, r.w) && Tells(kids, w, HaltFrom(r.kids, k, r.w).w)
    decreases kids, |kids| + 1
  {
    hide SpanTells, Tells, RunFrom, HaltFrom, Beside;
    var U := UidsFrom(kids, 0);
    var r := RunFrom(kids, i, n, skip, adv, w);
    RunFromSettles(kids, i, n, skip, adv, w);
    SpanWhole(kids, i, n, w, r.w);
    RunFromBeside(kids, i, n, skip, adv, w, U);
    WorkedUids(kids, w, r.kids, r.w, U);
    HaltFromBeside(r.kids, k, r.w, U);
    TellsStops(kids, w, r.w, HaltFrom(r.kids, k, r.w).w);
  }

  lemma {:induction false} TickMemorySettles(t: Node, adv: Final, w: World)
    requires Distinct(t)
    ensures Tells(t.kids, w, TickMemory(t, adv, w).w)
    decreases t, 3
  {
    hide Tells, HaltFrom;
    if t.mem.cursor > |t.kids| {
      TellsNothing(t.kids, w, w);
    } else {
      hide RunFrom;
      RunAndHaltSettles(t.kids, t.mem.cursor, |t.kids|, 0, adv, w, 0);
    }
  }

  lemma {:induction false} TickParallelSettles(t: Node, w: World)
    requires Distinct(t) && t.info.kind.Parallel?
    ensures Tells(t.kids, w, TickParallel(t, w).w)
    decreases t, 3
  {
    hide Tells, Sweep, HaltRunning, ResetTerminal, Verdict, Count, SpanTells, Beside;
    var U, s := UidsFrom(t.kids, 0), Sweep(t.kids, 0, w);
    TellsNothing(t.kids, w, w);
    SweepSettles(t.kids, 0, w);
    SpanWhole(t.kids, 0, |t.kids|, w, s.w);
    SweepBeside(t.kids, 0, w, U);
    WorkedUids(t.kids, w, s.kids, s.w, U);
    ClearBeside(s.kids, s.w, U);
    var h := HaltRunning(s.kids, 0, s.w);
    TellsStops(t.kids, w, s.w, ResetTerminal(h.kids, 0, h.w).w);
  }

  lemma {:induction false} TickDecoratorSettles(t: Node, w: World)
    requires Distinct(t) && t.kids != []
    ensures Tells(t.kids, w, TickDecorator(t, w).w)
    decreases t, 3
  {
    hide Tells, Tick, Halt;
    var w1 := ReadClock(w, t.info.uid);
    OneKidSettles(t.kids, w);
    OneKidSettles(t.kids, w1);
    TellsNothing(t.kids, w, w);
    TellsNothing(t.kids, w, w1);
    TellsSame(t.kids, w, w1, Tick(t.kids[0], w1).w, Tick(t.kids[0], w1).w);
    TellsSame(t.kids, w, w1, Halt(t.kids[0], w1).w, Halt(t.kids[0], w1).w);
  }

  lemma {:induction false} OneKidSettles(kids: seq<Node>, w: World)
    requires kids != [] && DistinctFrom(kids, 0)
    ensures var s := Tick(kids[0], w);
      Tells(kids, w, s.w) && Tells(kids, w, Halt(s.node, s.w).w) && Tells(kids, w, Halt(kids[0], w).w)
    decreases kids, 1
  {
    hide Tells, SpanTells, Tick, Halt, Beside;
    var s := Tick(kids[0], w);
    KidSettles(kids, 0, w);
    SpanWhole(kids, 0, 1, w, s.w);
    KidWithin(kids, 0, 0, UidsFrom(kids, 0));
    KidBeside(kids, w, UidsFrom(kids, 0));
    TickBeside(kids[0], w, UidsFrom(kids, 0));
    ShapeFacts(kids[0], s.node);
    HaltBeside(s.node, s.w, UidsFrom(kids, 0));
    HaltBeside(kids[0], w, UidsFrom(kids, 0));
    TellsStops(kids, w, s.w, Halt(s.node, s.w).w);
    TellsNothing(kids, w, w);
    TellsStops(kids, w, w, Halt(kids[0], w).w);
  }

  lemma {:induction false} TickReactiveSettles(t: Node, adv: Final, w: World)
    requires Distinct(t)
    ensures Tells(t.kids, w, TickReactive(t, adv, w).w)
    decreases t, 3
  {
    hide Tells, FastTick;
    if TakesFastPath(t, w) {
      FastTickSettles(t, adv, w);
    } else {
      hide RunFrom, HaltFrom, KidBoards;
      var w1 := ClearDirty(w, t.info.uid);
      var r := RunFrom(t.kids, 0, |t.kids|, 0, adv, w1);
      RunAndHaltSettles(t.kids, 0, |t.kids|, 0, adv, w1, r.at + 1);
      var h := HaltFrom(r.kids, r.at + 1, r.w);
      var v := TickReactive(t, adv, w).w;
      assert TickReactive(t, adv, w) == FullEnd(t, r, adv);
      if r.result == adv {
        TellsSame(t.kids, w, w1, r.w, v);
      } else {
        TellsSame(t.kids, w, w1, h.w, v);
      }
    }
  }

  lemma {:induction false} FastTickSettles(t: Node, adv: Final, w: World)
    requires Distinct(t) && t.mem.running.Some? && t.mem.running.value < |t.kids|
    ensures Tells(t.kids, w, FastTick(t, adv, w).w)
    decreases t, 2
  {
    hide Tells, SpanTells, RunFrom, HaltFrom, Tick, FastRest, SameShape, Beside;
    var idx, U, v := t.mem.running.value, UidsFrom(t.kids, 0), FastTick(t, adv, w).w;
    var g := RunFrom(t.kids, 0, idx, idx, adv, w);
    RunAndHaltSettles(t.kids, 0, idx, idx, adv, w, g.at + 1);
    if g.result != adv {
      TellsSame(t.kids, w, w, HaltFrom(g.kids, g.at + 1, g.w).w, v);
    } else {
      RunFromSettles(t.kids, 0, idx, idx, adv, w);
      KidSettles(t.kids, idx, g.w);
      var s := Tick(t.kids[idx], g.w);
      SpanJoin(t.kids, 0, idx, idx + 1, w, g.w, s.w);
      if s.node.status == Running {
        SpanWhole(t.kids, 0, idx + 1, w, s.w);
      } else {
        RunFromBeside(t.kids, 0, idx, idx, adv, w, U);
        KidWithin(t.kids, 0, idx, U);
        TickBeside(t.kids[idx], g.w, U);
        WorkedAt(t.kids, w, g.kids, g.w, idx, s, U);
        var now := g.kids[idx := s.node];
        WorkedUids(t.kids, w, now, s.w, U);
        var v1 := Unsubscribe(s.w, t.info.uid);
        SpanSame(t.kids, 0, idx + 1, w, s.w, v1);
        FastRestSettles(t, now, idx, s.node.status, adv, w, v1);
      }
    }
  }

  lemma SpanSame(kids: seq<Node>, lo: nat, hi: nat, w: World, v: World, v1: World)
    requires hi <= |kids| && SpanTells(kids, lo, hi, w, v) && v1.notes == v.notes
    ensures SpanTells(kids, lo, hi, w, v1)
  {}

  lemma {:induction false} FastRestSettles(t: Node, kids: seq<Node>, idx: nat, result: Final, adv: Final, w: World,
        v: World)
    requires Distinct(t) && |kids| == |t.kids| && idx < |t.kids|
    requires SameShapes(t.kids, kids) && SpanTells(t.kids, 0, idx + 1, w, v)
    requires forall j | idx < j < |kids| :: kids[j] == t.kids[j]
    ensures Tells(t.kids, w, FastRest(t, kids, idx, result, adv, v).w)
    decreases t, 1
  {
    hide Tells, SpanTells, RunFrom, HaltFrom, SameShape, Beside, KidBoards;
    var U := UidsFrom(t.kids, 0);
    ShapeFactsFrom(t.kids, kids, 0);
    SpanWhole(t.kids, 0, idx + 1, w, v);
    if result != adv {
      HaltFromBeside(kids, idx + 1, v, U);
      TellsStops(t.kids, w, v, HaltFrom(kids, idx + 1, v).w);
    } else {
      RunFromSettles(t.kids, idx + 1, |t.kids|, 0, adv, v);
      RunFromBeside(t.kids, idx + 1, |t.kids|, 0, adv, v, U);
      var r := RunFrom(t.kids, idx + 1, |t.kids|, 0, adv, v);
      var all := kids[..idx + 1] + r.kids[idx + 1..];
      SpanJoin(t.kids, 0, idx + 1, |t.kids|, w, v, r.w);
      SpanWhole(t.kids, 0, |t.kids|, w, r.w);
      SplicedShapes(t.kids, kids, r.kids, idx + 1);
      ShapeFactsFrom(t.kids, all, 0);
      HaltFromBeside(all, r.at + 1, r.w, U);
      var h := HaltFrom(all, r.at + 1, r.w);
      TellsStops(t.kids, w, r.w, h.w);
      TellsSame(t.kids, w, w, h.w, Subscribe(h.w, t.info.uid, KidBoards(h.kids, 0)));
    }
  }

  lemma SplicedShapes(ks: seq<Node>, ls: seq<Node>, ms: seq<Node>, i: nat)
    requires SameShapes(ks, ls) && SameShapes(ks, ms) && i <= |ks|
    ensures SameShapes(ks, ls[..i] + ms[i..])
  {
    hide SameShape;
  }

  // ----- places in the list ------------------------------------------------------------------

  ghost predicate Precedes<T>(path: seq<T>, a: T, d: T) {
    exists i, j :: 0 <= i < j < |path| && path[i] == a && path[j] == d
  }

  lemma PrecedesIsSince(notes: seq<Note>, a: Uid, d: Uid)
    requires a in RunningSet(notes) && d in RunningSet(notes)
    ensures Precedes(ActivePath(notes), a, d) <==> Since(notes, a) < Since(notes, d)
  {
    hide ActivePath, RunningSet, Since;
    PathListsRunningSet(notes);
    var path := ActivePath(notes);
    assert a in path && d in path;
    var i :| 0 <= i < |path| && path[i] == a;
    var j :| 0 <= j < |path| && path[j] == d;
    if i < j {
      assert Since(notes, path[i]) < Since(notes, path[j]);
    } else if j < i {
      assert Since(notes, path[j]) < Since(notes, path[i]);
    }
  }

  /** Not mentioned from `n` to `m`. */
  lemma {:induction false} Unmentioned(n: seq<Note>, m: seq<Note>, x: Uid)
    requires n <= m && forall i | |n| <= i < |m| :: m[i].uid != x
    ensures x in RunningSet(m) <==> x in RunningSet(n)
    decreases |m|
  {
    if |m| == |n| {
      assert m == n;
    } else {
      Unmentioned(n, m[..|m| - 1], x);
    }
  }

  /** Never ticked again once mentioned: a node RUNNING before and after has been so throughout. */
  lemma {:induction false} KeepsItsPlace(n: seq<Note>, m: seq<Note>, x: Uid)
    requires n <= m && x in RunningSet(n) && x in RunningSet(m)
    requires forall i, j | |n| <= i < j < |m| && m[i].uid == x :: !(m[j].Ticked? && m[j].uid == x)
    ensures Since(m, x) == Since(n, x)
    decreases |m|
  {
    if |m| == |n| {
      assert m == n;
    } else {
      StaysOn(n, m, x);
      KeepsItsPlace(n, m[..|m| - 1], x);
    }
  }

  lemma StaysOn(n: seq<Note>, m: seq<Note>, x: Uid)
    requires n < m && x in RunningSet(n) && x in RunningSet(m)
    requires forall i, j | |n| <= i < j < |m| && m[i].uid == x :: !(m[j].Ticked? && m[j].uid == x)
    ensures x in RunningSet(m[..|m| - 1])
  {
    var k := |m| - 1;
    if forall i | |n| <= i < k :: m[i].uid != x { Unmentioned(n, m[..k], x); }
  }

  lemma {:induction false} JoinsAtNote(n: seq<Note>, m: seq<Note>, x: Uid)
    requires n <= m && x !in RunningSet(n) && x in RunningSet(m)
    ensures |n| <= Since(m, x) && m[Since(m, x)] == Ticked(x, Running)
    decreases |m|
  {
    assert m[..|n|] == n && m[..|m|] == m;
    if |m| > |n| {
      var k := |m| - 1;
      if x in RunningSet(m[..k]) { JoinsAtNote(n, m[..k], x); }
    }
  }

  lemma {:induction false} StopsOnlyRemove(n: seq<Note>, m: seq<Note>, x: Uid)
    requires n <= m && (forall i | |n| <= i < |m| :: m[i].Stopped?) && x in RunningSet(m)
    ensures x in RunningSet(n) && Since(m, x) == Since(n, x)
    decreases |m|
  {
    if |m| == |n| { assert m == n; } else { StopsOnlyRemove(n, m[..|m| - 1], x); }
  }

  lemma {:induction false} OverSelf(t: Node, x: Uid)
    requires x in Uids(t)
    ensures Over(t, x, x)
    decreases t, 1
  {
    if x != t.info.uid { OverSelfFrom(t.kids, 0, x); }
  }

  lemma {:induction false} OverSelfFrom(kids: seq<Node>, i: nat, x: Uid)
    requires i <= |kids| && x in UidsFrom(kids, i)
    ensures OverAny(kids, x, x)
    decreases kids, |kids| - i
  {
    if x in Uids(kids[i]) { OverSelf(kids[i], x); } else { OverSelfFrom(kids, i + 1, x); }
  }

  // ----- one tick --------------------------------------------------------------------------------

  /** What is RUNNING before and after a tick has kept its place. */
  lemma TickKeepsPlaces(t: Node, w: World, x: Uid)
    requires Distinct(t) && x in RunningSet(w.notes) && x in RunningSet(Tick(t, w).w.notes)
    ensures w.notes <= Tick(t, w).w.notes && Since(Tick(t, w).w.notes, x) == Since(w.notes, x)
  {
    hide Tick, Since, RunningSet, Over;
    TickSettles(t, w);
    var n, m := w.notes, Tick(t, w).w.notes;
    forall i, j | |n| <= i < j < |m| && m[i].uid == x ensures !(m[j].Ticked? && m[j].uid == x) {
      assert Told(w, Tick(t, w).w)[i - |n|] == m[i] && Told(w, Tick(t, w).w)[j - |n|] == m[j];
      OverSelf(t, x);
      assert Over([t][0], x, x);
    }
    KeepsItsPlace(n, m, x);
  }

  /** When `d` becomes RUNNING in a tick, a RUNNING node above it is listed before it exactly
      when it was RUNNING already. */
  lemma TickOrder(t: Node, w: World, a: Uid, d: Uid)
    requires Distinct(t) && Over(t, a, d) && a != d
    requires a in RunningSet(Tick(t, w).w.notes) && d in RunningSet(Tick(t, w).w.notes) && d !in RunningSet(w.notes)
    ensures var m := Tick(t, w).w.notes; Since(m, a) < Since(m, d) <==> a in RunningSet(w.notes)
  {
    hide Tick, Since, RunningSet, Over;
    TickSettles(t, w);
    var n, m := w.notes, Tick(t, w).w.notes;
    JoinsAtNote(n, m, d);
    if a in RunningSet(n) {
      TickKeepsPlaces(t, w, a);
    } else {
      JoinsAtNote(n, m, a);
      var i, j := Since(m, a), Since(m, d);
      var ns := Told(w, Tick(t, w).w);
      assert ns[i - |n|] == m[i] && ns[j - |n|] == m[j];
      assert Over([t][0], a, d);
    }
  }

  // ----- runs with modifications -------------------------------------------------------------------

  lemma {:induction false} OverShape(t: Node, u: Node, a: Uid, d: Uid)
    requires SameShape(t, u)
    ensures Over(t, a, d) <==> Over(u, a, d)
  {
    ShapeFacts(t, u);
    forall j | 0 <= j < |t.kids| ensures Over(t.kids[j], a, d) <==> Over(u.kids[j], a, d) {
      OverShape(t.kids[j], u.kids[j], a, d);
    }
  }

  lemma {:induction false} RunningWithin(t: Node)
    ensures RunningUids(t) <= Uids(t)
    decreases t, 1
  {
    RunningWithinFrom(t.kids, 0);
  }

  lemma {:induction false} RunningWithinFrom(kids: seq<Node>, i: nat)
    requires i <= |kids|
    ensures RunningUidsFrom(kids, i) <= UidsFrom(kids, i)
    decreases kids, |kids| - i
  {
    if i < |kids| {
      RunningWithin(kids[i]);
      RunningWithinFrom(kids, i + 1);
    }
  }

  /** RUNNING below child `j`, if anywhere. */
  lemma {:induction false} RunningInKid(kids: seq<Node>, i: nat, j: nat, d: Uid)
    requires i <= j < |kids| && DistinctFrom(kids, i) && d in Uids(kids[j])
    ensures d in RunningUidsFrom(kids, i) <==> d in RunningUids(kids[j])
    decreases j - i
  {
    RunningWithin(kids[i]);
    if i < j {
      KidUids(kids, i + 1, j);
      RunningInKid(kids, i + 1, j, d);
    } else {
      RunningWithinFrom(kids, i + 1);
    }
  }

  /** What is above a RUNNING node is RUNNING. */
  lemma {:induction false} RunningAbove(t: Node, a: Uid, d: Uid)
    requires Inv(t, false) && Distinct(t) && Over(t, a, d) && d in RunningUids(t)
    ensures a in RunningUids(t)
  {
    if t.info.uid == a {
      if t.status != Running {
        RunningIsClosedUpward(t, false);
        NoneRunningUids(t);
      }
    } else {
      var j :| 0 <= j < |t.kids| && Over(t.kids[j], a, d);
      OverUids(t.kids[j], a, d);
      KidUids(t.kids, 0, j);
      DistinctLater(t.kids, 0, j);
      RunningInKid(t.kids, 0, j, d);
      RunningAbove(t.kids[j], a, d);
      RunningInKid(t.kids, 0, j, a);
    }
  }

  // A modification: it halts, and what is RUNNING afterwards was there before.

  lemma {:induction false} EditStops(t: Node, mod: Mod, w: World)
    ensures OnlyStops(w, Edit(t, mod, w).w)
    decreases t
  {
    BesideSelf(w, {});
    if t.info.uid == mod.target {
      EditHereStops(t, mod, w);
    } else {
      var r := EditFrom(t.kids, 0, mod, w);
      if r.at < |t.kids| { EditStops(t.kids[r.at], mod, w); }
    }
  }

  lemma EditHereStops(t: Node, mod: Mod, w: World)
    ensures OnlyStops(w, EditHere(t, mod, w).w)
  {
    hide OnlyStops, Beside, Halt;
    BesideSelf(w, {});
    match mod {
      case Replace(_, _) => HaltStops(t, w);
      case Insert(_, index, n) =>
        if IsControl(t) {
          var i := Clamp(index, |t.kids|);
          HaltStops(t.(kids := t.kids[..i] + [n] + t.kids[i..]), w);
        } else if !t.info.kind.Leaf? && t.kids != [] {
          HaltTwice(t.kids[0], t.(kids := [n]), w);
        }
      case Remove(_, index) =>
        if IsControl(t) && 0 <= index < |t.kids| {
          HaltTwice(t.kids[index], t.(kids := t.kids[..index] + t.kids[index + 1..]), w);
        }
    }
  }

  lemma HaltStops(t: Node, w: World)
    ensures OnlyStops(w, Halt(t, w).w)
  {
    hide OnlyStops, Halt, Beside;
    HaltBeside(t, w, Uids(t));
  }

  lemma HaltTwice(k: Node, t: Node, w: World)
    ensures OnlyStops(w, Halt(t, Halt(k, w).w).w)
  {
    hide OnlyStops, Halt;
    var v := Halt(k, w).w;
    HaltStops(k, w);
    HaltStops(t, v);
    StopsTrans(w, v, Halt(t, v).w);
  }

  lemma {:induction false} EditOver(t: Node, mod: Mod, w: World, a: Uid, d: Uid)
    requires Inv(t, false) && (mod.Remove? || (Inv(mod.node, false) && mod.node.status == Idle))
    requires var n := Edit(t, mod, w).node; Distinct(n) && Over(n, a, d) && d in RunningUids(n)
    ensures Over(t, a, d) && d in RunningUids(t)
    decreases t, 0
  {
    var e := Edit(t, mod, w);
    if t.info.uid == mod.target {
      EditHereInv(t, mod, w);
      if AllIdle(e.node) {
        IdleIsNotRunning(e.node);
        NoneRunningUids(e.node);
      }
    } else {
      var r := EditFrom(t.kids, 0, mod, w);
      if r.at < |t.kids| { PathOver(t, mod, w, r.at, r.e.node, a, d); }
    }
  }

  /** The target is below child `at`. */
  lemma {:induction false} PathOver(t: Node, mod: Mod, w: World, at: nat, x: Node, a: Uid, d: Uid)
    requires Inv(t, false) && (mod.Remove? || (Inv(mod.node, false) && mod.node.status == Idle))
    requires at < |t.kids| && x == Edit(t.kids[at], mod, w).node
    requires var n := t.(kids := t.kids[at := x]); Distinct(n) && Over(n, a, d) && d in RunningUids(n)
    ensures Over(t, a, d) && d in RunningUids(t)
    decreases t.kids[at], 1
  {
    hide Inv, Edit;
    var n := t.(kids := t.kids[at := x]);
    RunningOnPath(t, mod, w, at, x, d);
    if n.info.uid == a {
      RunningWithin(t);
    } else {
      var j :| 0 <= j < |n.kids| && Over(n.kids[j], a, d);
      if j == at {
        OverUids(x, a, d);
        KidUids(n.kids, 0, at);
        DistinctLater(n.kids, 0, at);
        RunningInKid(n.kids, 0, at, d);
        assert Inv(t.kids[at], false) by { KidInv(t, at); }
        EditOver(t.kids[at], mod, w, a, d);
      }
      assert Over(t.kids[j], a, d);
    }
  }

  lemma KidInv(t: Node, j: nat)
    requires Inv(t, false) && j < |t.kids|
    ensures Inv(t.kids[j], false)
  {}

  /** A modification makes nothing RUNNING. */
  lemma {:induction false} EditRunning(t: Node, mod: Mod, w: World)
    requires Inv(t, false) && (mod.Remove? || (Inv(mod.node, false) && mod.node.status == Idle))
    ensures RunningUids(Edit(t, mod, w).node) <= RunningUids(t)
    decreases t, 0
  {
    var e := Edit(t, mod, w);
    if t.info.uid == mod.target {
      EditHereInv(t, mod, w);
      if AllIdle(e.node) {
        IdleIsNotRunning(e.node);
        NoneRunningUids(e.node);
      }
    } else {
      var r := EditFrom(t.kids, 0, mod, w);
      if r.at < |t.kids| {
        EditRunning(t.kids[r.at], mod, w);
        SwapRunning(t.kids, 0, r.at, r.e.node);
      }
    }
  }

  lemma {:induction false} SwapRunning(kids: seq<Node>, i: nat, at: nat, x: Node)
    requires i <= |kids| && at < |kids| && RunningUids(x) <= RunningUids(kids[at])
    ensures RunningUidsFrom(kids[at := x], i) <= RunningUidsFrom(kids, i)
    decreases |kids| - i
  {
    if i < |kids| { SwapRunning(kids, i + 1, at, x); }
  }

  lemma RunningOnPath(t: Node, mod: Mod, w: World, at: nat, x: Node, d: Uid)
    requires Inv(t, false) && (mod.Remove? || (Inv(mod.node, false) && mod.node.status == Idle))
    requires at < |t.kids| && x == Edit(t.kids[at], mod, w).node
    requires d in RunningUids(t.(kids := t.kids[at := x]))
    ensures d in RunningUids(t)
  {
    hide Edit;
    KidInv(t, at);
    EditRunning(t.kids[at], mod, w);
    SwapRunning(t.kids, 0, at, x);
  }

  // ----- the theorem over runs ------------------------------------------------------------------------

  lemma {:induction false} LiveSplit(t: Node, w: World, before: seq<Act>, after: seq<Act>)
    ensures var s := Live(t, w, before);
      && Live(t, w, before + after) == Live(s.node, s.w, after)
      && (Legal(t, w, before + after) <==> Legal(t, w, before) && Legal(s.node, s.w, after))
    decreases |before|
  {
    hide Perform, Edit, NewFor;
    if before == [] {
      assert before + after == after;
    } else {
      assert (before + after)[1..] == before[1..] + after;
      match before[0] {
        case Do(op) =>
          var s := Perform(t, w, op);
          LiveSplit(s.node, s.w, before[1..], after);
        case Change(mod) =>
          var e := Edit(t, mod, w);
          LiveSplit(e.node, e.w, before[1..], after);
      }
    }
  }

  /** How many steps had been taken when `d` became RUNNING, as it has been ever since. */
  ghost function JoinedAt(t: Node, w: World, acts: seq<Act>, d: Uid): (k: nat)
    ensures k <= |acts|
    decreases |acts|
  {
    if acts == [] then 0
    else
      var before := acts[..|acts| - 1];
      if d in RunningUids(Live(t, w, before).node) then JoinedAt(t, w, before, d) else |before|
  }

  /** One step, seen by two RUNNING nodes one above the other. */
  lemma StepOrder(t: Node, w: World, act: Act, a: Uid, d: Uid)
    requires Sound(t, w) && Legal(t, w, [act])
    requires var s := Live(t, w, [act]); Over(s.node, a, d) && a != d && d in RunningUids(s.node)
    ensures var s := Live(t, w, [act]);
      && Over(t, a, d)
      && a in RunningSet(s.w.notes) && d in RunningSet(s.w.notes)
      && (d in RunningUids(t) ==>
            && a in RunningSet(w.notes) && d in RunningSet(w.notes)
            && Since(s.w.notes, a) == Since(w.notes, a) && Since(s.w.notes, d) == Since(w.notes, d))
      && (d !in RunningUids(t) ==> (Since(s.w.notes, a) < Since(s.w.notes, d) <==> a in RunningUids(t)))
  {
    hide Over, Since, RunningSet, Tick, Halt, Edit, OnlyStops, Inv, Distinct, Ok, RunningUids, QuietOutside;
    var s := Live(t, w, [act]);
    assert [act][1..] == [];
    LiveSound(t, w, [act]);
    SoundRunning(t, w);
    assert d in RunningSet(s.w.notes);
    RunningAbove(s.node, a, d);
    match act {
      case Do(op) =>
        assert s == Perform(t, w, op);
        SameOver(t, w, op, a, d);
        if d in RunningUids(t) { RunningAbove(t, a, d); }
        match op {
          case TickOp =>
            if d in RunningUids(t) {
              TickKeepsPlaces(t, w, a);
              TickKeepsPlaces(t, w, d);
            } else {
              TickOrder(t, w, a, d);
            }
          case HaltOp =>
            HaltStops(t, w);
            StoppedPlaces(w, s.w, a, d);
          case WriteOp(_) =>
        }
      case Change(mod) =>
        assert s == Step(Edit(t, mod, w).node, Edit(t, mod, w).w);
        NewIsIdle(mod, Uids(t));
        EditOver(t, mod, w, a, d);
        EditStops(t, mod, w);
        StoppedPlaces(w, s.w, a, d);
    }
  }

  lemma NewIsIdle(mod: Mod, U: set<Uid>)
    requires mod.Remove? || NewFor(mod.node, U)
    ensures mod.Remove? || (Inv(mod.node, false) && mod.node.status == Idle)
  {}

  lemma StoppedPlaces(w: World, v: World, a: Uid, d: Uid)
    requires OnlyStops(w, v) && a in RunningSet(v.notes) && d in RunningSet(v.notes)
    ensures a in RunningSet(w.notes) && d in RunningSet(w.notes)
    ensures Since(v.notes, a) == Since(w.notes, a) && Since(v.notes, d) == Since(w.notes, d)
  {
    hide RunningSet, Since;
    StopsOnlyRemove(w.notes, v.notes, a);
    StopsOnlyRemove(w.notes, v.notes, d);
  }

  lemma SameOver(t: Node, w: World, op: Op, a: Uid, d: Uid)
    ensures Over(Perform(t, w, op).node, a, d) <==> Over(t, a, d)
  {
    hide Over, Tick, Halt, Beside, OnlyStops, SameShape;
    TickBeside(t, w, Uids(t));
    HaltBeside(t, w, Uids(t));
    OverShape(t, Tick(t, w).node, a, d);
    OverShape(t, Halt(t, w).node, a, d);
  }

  lemma {:induction false} RunOrder(t: Node, w: World, acts: seq<Act>, a: Uid, d: Uid)
    requires Sound(t, w) && t.status != Running && Legal(t, w, acts)
    requires var s := Live(t, w, acts); Over(s.node, a, d) && a != d && d in RunningUids(s.node)
    ensures var s := Live(t, w, acts); var p := Live(t, w, acts[..JoinedAt(t, w, acts, d)]);
      && a in RunningSet(s.w.notes) && d in RunningSet(s.w.notes)
      && (Since(s.w.notes, a) < Since(s.w.notes, d) <==> a in RunningUids(p.node))
    decreases |acts|
  {
    hide Over, Since, RunningSet, Sound, RunningUids;
    if acts == [] {
      assert RunningUids(t) == {} by { RestingRunsNothing(t, w); }
    } else {
      var n := |acts| - 1;
      var before := acts[..n];
      assert acts == before + [acts[n]];
      LiveSplit(t, w, before, [acts[n]]);
      LiveSound(t, w, before);
      var p := Live(t, w, before);
      StepOrder(p.node, p.w, acts[n], a, d);
      if d in RunningUids(p.node) {
        RunOrder(t, w, before, a, d);
        assert before[..JoinedAt(t, w, before, d)] == acts[..JoinedAt(t, w, before, d)];
      }
    }
  }

  lemma RestingRunsNothing(t: Node, w: World)
    requires Sound(t, w) && t.status != Running
    ensures RunningUids(t) == {}
  {
    RunningIsClosedUpward(t, false);
    NoneRunningUids(t);
  }

  /** Over any run of ticks, halts, writes and modifications of a tree that was at rest: of two
      RUNNING nodes on one branch the upper one is listed first exactly when it was RUNNING
      before the step in which the lower one became RUNNING.  In particular, what becomes RUNNING
      in one tick is listed from the leaf up. */
  lemma BranchOrder(t: Node, w: World, acts: seq<Act>, a: Uid, d: Uid)
    requires Sound(t, w) && t.status != Running && Legal(t, w, acts)
    requires var s := Live(t, w, acts); Over(s.node, a, d) && a != d && d in RunningUids(s.node)
    ensures var s := Live(t, w, acts);
      Precedes(ActivePath(s.w.notes), a, d) <==>
      a in RunningUids(Live(t, w, acts[..JoinedAt(t, w, acts, d)]).node)
  {
    RunOrder(t, w, acts, a, d);
    PrecedesIsSince(Live(t, w, acts).w.notes, a, d);
  }
}
