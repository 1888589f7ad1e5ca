/** Which rate limiters still hold a result after a reset, and which after a halt. */
module Caches {
  import opened Worlds
  import opened Engine
  import opened Invariants
  import opened Runs
  import opened Tracking
  import opened Ledgers
  import opened Footprints
  import opened Modify
  import opened LiveRuns
  import opened Resets

  // ----- reset: none ---------------------------------------------------------------------

  /** A reset of any tree in any state leaves every node IDLE, empties every rate limiter and sends
      every reactive node into a full evaluation. */
  lemma {:induction false} ResetEmpties(t: Node, w: World)
    ensures AllIdle(Reset(t, w).node) && CachesEmpty(Reset(t, w).node)
    ensures w.dirty + ReactiveUids(t) <= Reset(t, w).w.dirty
    decreases t, 1
  {
    var w1 := if t.status == Running then OnHaltWorld(t, w) else w;
    var w2 := if t.info.kind.Reactive? then SetDirty(w1, t.info.uid) else w1;
    ResetFromEmpties(t.kids, 0, w2);
  }

  lemma {:induction false} ResetFromEmpties(kids: seq<Node>, i: nat, w: World)
    ensures var r := ResetFrom(kids, i, w);
      && w.dirty <= r.w.dirty
      && forall j | i <= j < |kids| ::
           AllIdle(r.kids[j]) && CachesEmpty(r.kids[j]) && ReactiveUids(kids[j]) <= r.w.dirty
    decreases kids, |kids| - i
  {
    hide Reset, CachesEmpty, AllIdle, ReactiveUids;
    if i < |kids| {
      ResetEmpties(kids[i], w);
      ResetFromEmpties(kids, i + 1, Reset(kids[i], w).w);
    }
  }

  lemma {:induction false} ResetTerminalEmpties(kids: seq<Node>, i: nat, w: World)
    ensures forall j | i <= j < |kids| && Terminal(kids[j].status) :: CachesEmpty(ResetTerminal(kids, i, w).kids[j])
    decreases |kids| - i
  {
    hide Reset, CachesEmpty;
    if i < |kids| {
      ResetEmpties(kids[i], w);
      ResetTerminalEmpties(kids, i + 1, if Terminal(kids[i].status) then Reset(kids[i], w).w else w);
    }
  }

  /** A Parallel's clean-up: RUNNING children are halted, then finished ones reset. */
  function Cleared(kids: seq<Node>, w: World): StepAll {
    var h := HaltRunning(kids, 0, w);
    ResetTerminal(h.kids, 0, h.w)
  }

  lemma {:induction false} HaltRunningKeeps(kids: seq<Node>, i: nat, w: World)
    ensures forall j | 0 <= j < |kids| && kids[j].status != Running :: HaltRunning(kids, i, w).kids[j] == kids[j]
    decreases |kids| - i
  {
    hide Halt;
    if i < |kids| {
      HaltRunningKeeps(kids, i + 1, if kids[i].status == Running then Halt(kids[i], w).w else w);
    }
  }

  lemma SameAsNew(w: World, t: Node, u: Node)
    requires ReactiveUids(t) == ReactiveUids(u)
    ensures AsNew(w, t) == AsNew(w, u)
  {}

  lemma ClearedKid(kids: seq<Node>, w: World, j: nat, exact: bool)
    requires InvAll(kids, false) && DistinctFrom(kids, 0) && OkFrom(kids, 0, w, exact)
    requires j < |kids| && Terminal(kids[j].status)
    ensures var c := Cleared(kids, w);
      && |c.kids| == |kids| && Inv(c.kids[j], false) && c.kids[j].status != Running && CachesEmpty(c.kids[j])
      && Ok(c.kids[j], c.w, exact) && SameShape(kids[j], c.kids[j])
  {
    hide Inv, Ok, SameShape, CachesEmpty, Framed, HaltRunning, ResetTerminal;
    var h := HaltRunning(kids, 0, w);
    HaltRunningKeeps(kids, 0, w);
    ClearKidsInv(kids, w, false);
    ClearKidsTracked(kids, w, exact);
    ResetTerminalEmpties(h.kids, 0, h.w);
  }

  lemma {:induction false} SameReactive(t: Node, u: Node)
    requires SameShape(t, u)
    ensures ReactiveUids(t) == ReactiveUids(u)
  {
    forall j | 0 <= j < |t.kids| ensures ReactiveUids(t.kids[j]) == ReactiveUids(u.kids[j]) {
      SameReactive(t.kids[j], u.kids[j]);
    }
    assert forall x :: x in ReactiveUids(t) <==> x in ReactiveUids(u);
  }

  /** When a Parallel settles, every child that has come to a result answers every later run like
      a newly built copy. */
  lemma SettledKidsAreFresh(t: Node, w: World, j: nat, exact: bool, acts: seq<Act>)
    requires Inv(t, false) && Distinct(t) && Ok(t, w, exact) && t.info.kind.Parallel?
    requires Tick(t, w).node.status != Running
    requires j < |t.kids| && Terminal(Sweep(t.kids, 0, w).kids[j].status) && BringIdle(acts)
    ensures var s := Tick(t, w);
      |s.node.kids| == |t.kids| && SameLive(s.node.kids[j], s.w, Fresh(t.kids[j]), AsNew(s.w, t.kids[j]), acts)
  {
    var r := Sweep(t.kids, 0, w);
    var c := Cleared(r.kids, r.w);
    ParallelFacts(t, w, exact);
    SettledIs(t, w);
    hide *;
    SweptFacts(t.kids, w, exact);
    ClearedKid(r.kids, r.w, j, exact);
    var s := Tick(t, w);
    var k := s.node.kids[j];
    assert k == c.kids[j];
    SameShapeTrans(t.kids[j], r.kids[j], k);
    FreshOfShape(t.kids[j], k);
    SameReactive(t.kids[j], k);
    SameAsNew(s.w, t.kids[j], k);
    RestingUnsubscribed(k, c.w, exact);
    assert ReactiveUids(k) !! s.w.subs.Keys;
    RestingLiveTreesAreFresh(k, s.w, acts);
  }

  lemma SettledIs(t: Node, w: World)
    requires t.info.kind.Parallel? && t.kids != [] && Tick(t, w).node.status != Running
    ensures var r := Sweep(t.kids, 0, w); var c := Cleared(r.kids, r.w);
      Tick(t, w).node.kids == c.kids && Tick(t, w).w.subs == c.w.subs
  {
    assert TickBody(t, w) == TickParallel(t, w);
    hide Sweep, HaltRunning, ResetTerminal, Count, Verdict;
  }

  lemma SweptFacts(kids: seq<Node>, w: World, exact: bool)
    requires InvAll(kids, false) && DistinctFrom(kids, 0) && OkFrom(kids, 0, w, exact)
    ensures var r := Sweep(kids, 0, w);
      && |r.kids| == |kids| && InvAll(r.kids, false) && DistinctFrom(r.kids, 0) && OkFrom(r.kids, 0, r.w, exact)
      && forall j | 0 <= j < |kids| :: SameShape(kids[j], r.kids[j])
  {
    hide Inv, Ok, SameShape, Sweep, Framed;
    SweepInv(kids, 0, w, false);
    SweepTracked(kids, 0, w, exact);
    ShapeFactsFrom(kids, Sweep(kids, 0, w).kids, 0);
  }

  // ----- halt: some -----------------------------------------------------------------------

  /** A halt of `t` leaves the rate limiter at the end of `path` alone: it is not RUNNING, and no
      Parallel on the way resets the child it is in. */
  predicate Spared(t: Node, path: seq<nat>)
    decreases |path|
  {
    if path == [] then t.status != Running
    else
      path[0] < |t.kids| &&
      var k := t.kids[path[0]];
      if !t.info.kind.Parallel? || k.status == Running then Spared(k, path[1..]) else k.status == Idle
  }

  /** What a halt makes of the rate limiter at the end of `path`. */
  lemma {:induction false} HaltCache(t: Node, w: World, path: seq<nat>, s: Node) returns (u: Node)
    requires At(t, path, s) && s.info.kind.Rate?
    ensures At(Halt(t, w).node, path, u) && u.info == s.info
    ensures u.mem.cache == if Spared(t, path) then s.mem.cache else None
    decreases |path|
  {
    var h := Halt(t, w).node;
    if path == [] {
      u := h;
    } else {
      var j := path[0];
      var k := t.kids[j];
      var w1 := if t.status == Running then Tell(OnHaltWorld(t, w), Stopped(t.info.uid)) else w;
      if !t.info.kind.Parallel? {
        var v := HaltFromAt(t.kids, 0, j, w1);
        u := HaltCache(k, v, path[1..], s);
      } else {
        var v := ClearedAt(t.kids, j, w1);
        if k.status == Running {
          u := HaltCache(k, v, path[1..], s);
        } else if k.status == Idle {
          u := s;
        } else {
          ResetEmpties(k, v);
          u := ResetKeepsPlace(k, v, path[1..], s);
          EmptyAt(Reset(k, v).node, path[1..], u);
        }
      }
    }
  }

  lemma {:induction false} HaltFromAt(kids: seq<Node>, i: nat, j: nat, w: World) returns (v: World)
    requires i <= j < |kids|
    ensures HaltFrom(kids, i, w).kids[j] == Halt(kids[j], v).node
    decreases j - i
  {
    hide Halt;
    if i == j { v := w; } else { v := HaltFromAt(kids, i + 1, j, Halt(kids[i], w).w); }
  }

  /** A Parallel's clean-up halts, resets or leaves alone child `j`. */
  lemma ClearedAt(kids: seq<Node>, j: nat, w: World) returns (v: World)
    requires j < |kids|
    ensures var k := Cleared(kids, w).kids;
      |k| == |kids| && k[j] == if kids[j].status == Running then Halt(kids[j], v).node
                               else if Terminal(kids[j].status) then Reset(kids[j], v).node else kids[j]
  {
    hide HaltRunning, ResetTerminal, Halt, Reset;
    var h := HaltRunning(kids, 0, w);
    if kids[j].status == Running {
      v := HaltRunningAt(kids, 0, j, w);
      HaltedIsIdle(kids[j], v);
      var _ := ResetTerminalAt(h.kids, 0, j, h.w);
    } else {
      HaltRunningKeeps(kids, 0, w);
      v := ResetTerminalAt(h.kids, 0, j, h.w);
    }
  }

  lemma HaltedIsIdle(t: Node, w: World)
    ensures Halt(t, w).node.status == Idle
  {}

  lemma {:induction false} HaltRunningAt(kids: seq<Node>, i: nat, j: nat, w: World) returns (v: World)
    requires i <= j < |kids| && kids[j].status == Running
    ensures HaltRunning(kids, i, w).kids[j] == Halt(kids[j], v).node
    decreases j - i
  {
    hide Halt;
    if i == j { v := w; }
    else { v := HaltRunningAt(kids, i + 1, j, if kids[i].status == Running then Halt(kids[i], w).w else w); }
  }

  lemma {:induction false} ResetTerminalAt(kids: seq<Node>, i: nat, j: nat, w: World) returns (v: World)
    requires i <= j < |kids|
    ensures ResetTerminal(kids, i, w).kids[j] ==
      if Terminal(kids[j].status) then Reset(kids[j], v).node else kids[j]
    decreases j - i
  {
    hide Reset;
    if i == j { v := w; }
    else { v := ResetTerminalAt(kids, i + 1, j, if Terminal(kids[i].status) then Reset(kids[i], w).w else w); }
  }

  lemma {:induction false} ResetKeepsPlace(t: Node, w: World, path: seq<nat>, s: Node) returns (u: Node)
    requires At(t, path, s)
    ensures At(Reset(t, w).node, path, u) && u.info == s.info
    decreases |path|
  {
    var h := Reset(t, w).node;
    if path == [] {
      u := h;
    } else {
      var w1 := if t.status == Running then OnHaltWorld(t, w) else w;
      var w2 := if t.info.kind.Reactive? then SetDirty(w1, t.info.uid) else w1;
      var v := ResetFromAt(t.kids, 0, path[0], w2);
      u := ResetKeepsPlace(t.kids[path[0]], v, path[1..], s);
    }
  }

  lemma {:induction false} ResetFromAt(kids: seq<Node>, i: nat, j: nat, w: World) returns (v: World)
    requires i <= j < |kids|
    ensures ResetFrom(kids, i, w).kids[j] == Reset(kids[j], v).node
    decreases j - i
  {
    hide Reset;
    if i == j { v := w; } else { v := ResetFromAt(kids, i + 1, j, Reset(kids[i], w).w); }
  }

  lemma {:induction false} EmptyAt(t: Node, path: seq<nat>, s: Node)
    requires CachesEmpty(t) && At(t, path, s) && s.info.kind.Rate?
    ensures s.mem.cache.None?
    decreases |path|
  {
    if path != [] { EmptyAt(t.kids[path[0]], path[1..], s); }
  }

  // ----- so: when is a halted tree as good as new? ---------------------------------------------

  /** No rate limiter that a halt would leave alone holds a result. */
  ghost predicate NothingSpared(t: Node) {
    forall path, s | At(t, path, s) && s.info.kind.Rate? && Spared(t, path) :: s.mem.cache.None?
  }

  lemma {:induction false} HaltedEmpty(t: Node, w: World)
    ensures CachesEmpty(Halt(t, w).node) <==> NothingSpared(t)
  {
    var h := Halt(t, w).node;
    if CachesEmpty(h) {
      forall path, s | At(t, path, s) && s.info.kind.Rate? && Spared(t, path) ensures s.mem.cache.None? {
        var u := HaltCache(t, w, path, s);
        EmptyAt(h, path, u);
      }
    }
    if NothingSpared(t) {
      forall path, u | At(h, path, u) && u.info.kind.Rate? ensures u.mem.cache.None? {
        WasAt(t, w, path, u);
      }
      EmptyEverywhere(h);
    }
  }

  lemma WasAt(t: Node, w: World, path: seq<nat>, u: Node)
    requires At(Halt(t, w).node, path, u) && u.info.kind.Rate? && NothingSpared(t)
    ensures u.mem.cache.None?
  {
    hide Halt, NothingSpared;
    ShapeOfHalt(t, w);
    var s := SamePlace(Halt(t, w).node, t, path, u);
    var u' := HaltCache(t, w, path, s);
    OnePlace(Halt(t, w).node, path, u, u');
    NothingAt(t, path, s);
  }

  lemma NothingAt(t: Node, path: seq<nat>, s: Node)
    requires NothingSpared(t) && At(t, path, s) && s.info.kind.Rate?
    ensures Spared(t, path) ==> s.mem.cache.None?
  {}

  lemma ShapeOfHalt(t: Node, w: World)
    ensures SameShape(Halt(t, w).node, t)
  {
    hide Halt, SameShape, Beside, OnlyStops;
    HaltBeside(t, w, Uids(t));
    SameShapeSym(t, Halt(t, w).node);
  }

  lemma {:induction false} SamePlace(t: Node, u: Node, path: seq<nat>, s: Node) returns (r: Node)
    requires SameShape(t, u) && At(t, path, s)
    ensures At(u, path, r) && r.info == s.info
    decreases |path|
  {
    if path == [] { r := u; } else { r := SamePlace(t.kids[path[0]], u.kids[path[0]], path[1..], s); }
  }

  lemma {:induction false} OnePlace(t: Node, path: seq<nat>, a: Node, b: Node)
    requires At(t, path, a) && At(t, path, b)
    ensures a == b
    decreases |path|
  {
    if path != [] { OnePlace(t.kids[path[0]], path[1..], a, b); }
  }

  lemma {:induction false} EmptyEverywhere(t: Node)
    requires forall path, s | At(t, path, s) && s.info.kind.Rate? :: s.mem.cache.None?
    ensures CachesEmpty(t)
  {
    assert At(t, [], t);
    forall j: nat | j < |t.kids| ensures CachesEmpty(t.kids[j]) {
      forall path, s | At(t.kids[j], path, s) && s.info.kind.Rate? ensures s.mem.cache.None? {
        assert ([j] + path)[1..] == path && At(t, [j] + path, s);
      }
      EmptyEverywhere(t.kids[j]);
    }
  }

  /** A tree that has been halted, RUNNING or not, answers every later run like a newly built copy
      if no rate limiter that the halt leaves alone holds a result. */
  lemma HaltedIsFresh(t: Node, w: World, exact: bool, acts: seq<Act>)
    requires Inv(t, false) && Distinct(t) && Ok(t, w, exact) && NothingSpared(t) && BringIdle(acts)
    ensures var h := Halt(t, w); SameLive(h.node, h.w, Fresh(h.node), AsNew(h.w, h.node), acts)
  {
    hide *;
    var h := Halt(t, w);
    HaltInv(t, w, false);
    HaltTracked(t, w, exact);
    TrackedOk(t, w, h, exact);
    HaltedEmpty(t, w);
    RestingUnsubscribed(h.node, h.w, exact);
    RestingLiveTreesAreFresh(h.node, h.w, acts);
  }

  lemma TrackedOk(t: Node, w: World, s: Step, exact: bool)
    requires Tracked(t, w, s, exact)
    ensures Ok(s.node, s.w, exact)
  {}
}
