/** What one tick does, read off what the Inspector is told of it: which children are ticked, in
    what order, and what the node makes of their answers. */
module Schedules {
  import opened Worlds
  import opened Engine
  import opened Invariants
  import opened Activations
  import opened Stepwise
  import opened LeafNodes
  import opened Tracking
  import opened Footprints
  import opened Ledgers
  import opened PathOrder
  import opened Wakeups

  // ----- the ticks of a node's own children ----------------------------------------------------

  /** The ticks of these nodes, in order. */
  function TicksOf(ns: seq<Note>, us: set<Uid>): seq<Note> {
    if ns == [] then []
    else
      var last := ns[|ns| - 1];
      TicksOf(ns[..|ns| - 1], us) + if last.Ticked? && last.uid in us then [last] else []
  }

  function KidIds(kids: seq<Node>): set<Uid> { set j | 0 <= j < |kids| :: kids[j].info.uid }

  /** The ticks of children of one node, between `w` and `v`. */
  function KidTicks(kids: seq<Node>, w: World, v: World): seq<Note>
    requires w.notes <= v.notes
  {
    TicksOf(Told(w, v), KidIds(kids))
  }

  lemma {:induction false} TicksOfConcat(a: seq<Note>, b: seq<Note>, us: set<Uid>)
    ensures TicksOf(a + b, us) == TicksOf(a, us) + TicksOf(b, us)
    decreases |b|
  {
    if b == [] {
      assert a + b == a;
    } else {
      var n := |b| - 1;
      assert (a + b)[..|a + b| - 1] == a + b[..n];
      TicksOfConcat(a, b[..n], us);
    }
  }

  lemma {:induction false} NoTicksOf(ns: seq<Note>, us: set<Uid>)
    requires forall i | 0 <= i < |ns| :: ns[i].Stopped? || ns[i].uid !in us
    ensures TicksOf(ns, us) == []
  {
    if ns != [] { NoTicksOf(ns[..|ns| - 1], us); }
  }

  lemma KidTicksJoin(kids: seq<Node>, w: World, v: World, z: World)
    requires w.notes <= v.notes <= z.notes
    ensures KidTicks(kids, w, z) == KidTicks(kids, w, v) + KidTicks(kids, v, z)
  {
    ToldSplit(w, v, z);
    TicksOfConcat(Told(w, v), Told(v, z), KidIds(kids));
  }

  /** Steps that tell the Inspector nothing, or of halts only. */
  lemma NoKidTicks(kids: seq<Node>, w: World, v: World)
    requires OnlyStops(w, v) || w.notes == v.notes
    ensures w.notes <= v.notes && KidTicks(kids, w, v) == []
  {
    NoTicksOf(Told(w, v), KidIds(kids));
  }

  /** A child that is ticked is told of once; nothing below it is another child. */
  lemma KidTicked(kids: seq<Node>, i: nat, w: World)
    requires i < |kids| && DistinctFrom(kids, 0)
    ensures var s := Tick(kids[i], w);
      w.notes <= s.w.notes && KidTicks(kids, w, s.w) == [Ticked(kids[i].info.uid, s.node.status)]
  {
    hide *;
    var k := kids[i];
    var b, z := TickBody(k, w), Tick(k, w);
    NothingBelow(kids, i, w);
    TickIs(k, w);
    OneNote(kids, i, b, z.w);
    KidTicksJoin(kids, w, b.w, z.w);
  }

  lemma NothingBelow(kids: seq<Node>, i: nat, w: World)
    requires i < |kids| && DistinctFrom(kids, 0)
    ensures var b := TickBody(kids[i], w); w.notes <= b.w.notes && KidTicks(kids, w, b.w) == []
  {
    hide TickBody, Settles, DistinctFrom;
    var k, us := kids[i], KidIds(kids);
    DistinctLater(kids, 0, i);
    TickBodySettles(k, w);
    var below := Told(w, TickBody(k, w).w);
    forall x | x in below ensures x.uid !in us {
      assert x.uid in UidsFrom(k.kids, 0);
      OtherIds(kids, i, x.uid);
    }
    NoTicksOf(below, us);
  }

  lemma OneNote(kids: seq<Node>, i: nat, b: Body, z: World)
    requires i < |kids| && z == Tell(b.w, Ticked(kids[i].info.uid, b.result))
    ensures b.w.notes <= z.notes && KidTicks(kids, b.w, z) == [Ticked(kids[i].info.uid, b.result)]
  {
    var own := [Ticked(kids[i].info.uid, b.result)];
    assert Told(b.w, z) == own;
    assert own[..0] == [] && TicksOf([], KidIds(kids)) == [];
  }

  lemma OtherIds(kids: seq<Node>, i: nat, x: Uid)
    requires i < |kids| && DistinctFrom(kids, 0) && Distinct(kids[i]) && x in UidsFrom(kids[i].kids, 0)
    ensures x !in KidIds(kids)
  {
    hide DistinctFrom;
    if x in KidIds(kids) {
      var j :| 0 <= j < |kids| && kids[j].info.uid == x;
      SameKid(kids, i, j, x);
    }
  }

  // ----- a run over the children ---------------------------------------------------------------

  /** From index `skip` on every child is asked, before it those whose leaves are all conditions. */
  predicate Due(k: Node, i: nat, skip: nat) { i >= skip || OnlyConditions(k) }

  /** Children `i..n` that are due, in order, each answering `adv`. */
  function InTurn(kids: seq<Node>, i: nat, n: nat, skip: nat, adv: Final): seq<Note>
    requires n <= |kids|
    decreases n - i
  {
    if i >= n then []
    else (if Due(kids[i], i, skip) then [Ticked(kids[i].info.uid, adv)] else []) + InTurn(kids, i + 1, n, skip, adv)
  }

  /** The children that are due were ticked one after the other from `i` on, for as long as they
      answered `adv`: to the end, or up to child `at`, which answered `result`. */
  ghost predicate AskedInTurn(kids: seq<Node>, ticks: seq<Note>, i: nat, skip: nat, at: nat, adv: Final, result: Result)
  {
    if result == adv then ticks == InTurn(kids, i, |kids|, skip, adv)
    else
      && i <= at < |kids| && Due(kids[at], at, skip)
      && ticks == InTurn(kids, i, at, skip, adv) + [Ticked(kids[at].info.uid, result)]
  }

  lemma {:induction false} RunTicks(kids: seq<Node>, i: nat, n: nat, skip: nat, adv: Final, w: World)
    requires n <= |kids| && DistinctFrom(kids, 0)
    ensures var r := RunFrom(kids, i, n, skip, adv, w);
      && w.notes <= r.w.notes
      && if r.result == adv then KidTicks(kids, w, r.w) == InTurn(kids, i, n, skip, adv)
         else
           && Due(kids[r.at], r.at, skip)
           && KidTicks(kids, w, r.w) == InTurn(kids, i, r.at, skip, adv) + [Ticked(kids[r.at].info.uid, r.result)]
    decreases n - i
  {
    hide Tick, IsGuard, KidTicks, OnlyConditions, DistinctFrom, OnlyStops;
    NoKidTicks(kids, w, w);
    if i < n {
      GuardIff(kids[i]);
      if i < skip && !IsGuard(kids[i]) {
        RunTicks(kids, i + 1, n, skip, adv, w);
      } else {
        var s := Tick(kids[i], w);
        KidTicked(kids, i, w);
        if s.node.status == adv {
          RunTicks(kids, i + 1, n, skip, adv, s.w);
          KidTicksJoin(kids, w, s.w, RunFrom(kids, i + 1, n, skip, adv, s.w).w);
        }
      }
    }
  }

  /** Then some children are halted, and the node changes entries of its own. */
  lemma ThenStops(kids: seq<Node>, w: World, v: World, z: World)
    requires w.notes <= v.notes && (OnlyStops(v, z) || v.notes == z.notes)
    ensures w.notes <= z.notes && KidTicks(kids, w, z) == KidTicks(kids, w, v)
  {
    hide KidTicks;
    NoKidTicks(kids, v, z);
    KidTicksJoin(kids, w, v, z);
  }

  /** The node's own note is not about a child. */
  lemma OwnNote(t: Node, w: World, b: Body)
    requires Distinct(t) && w.notes <= b.w.notes && TickBody(t, w) == b
    ensures w.notes <= Tick(t, w).w.notes && KidTicks(t.kids, w, Tick(t, w).w) == KidTicks(t.kids, w, b.w)
    ensures Tick(t, w).node == b.node.(status := b.result)
  {
    TickIs(t, w);
    hide Tick, TickBody;
    var z, own := Tick(t, w).w, [Ticked(t.info.uid, b.result)];
    assert Told(w, z) == Told(w, b.w) + own;
    if t.info.uid in KidIds(t.kids) {
      var j :| 0 <= j < |t.kids| && t.kids[j].info.uid == t.info.uid;
      KidUids(t.kids, 0, j);
    }
    NoTicksOf(own, KidIds(t.kids));
    TicksOfConcat(Told(w, b.w), own, KidIds(t.kids));
  }

  lemma {:induction false} HaltOnlyStops(kids: seq<Node>, i: nat, w: World)
    ensures OnlyStops(w, HaltFrom(kids, i, w).w)
  {
    HaltFromBeside(kids, i, w, UidsFrom(kids, 0));
  }

  /** A Sequence or Fallback resumes at its cursor: from there on each child is ticked once, in order,
      for as long as they advance; children before the cursor are not ticked.  It returns the
      answer of the child it stops at and, if that is RUNNING, stands there. */
  lemma MemoryAsksInTurn(t: Node, adv: Final, w: World) returns (at: nat)
    requires Distinct(t) && t.info.kind == Memory(adv)
    ensures var s := Tick(t, w);
      && w.notes <= s.w.notes
      && AskedInTurn(t.kids, KidTicks(t.kids, w, s.w), t.mem.cursor, 0, at, adv, s.node.status)
      && (s.node.status == Running ==> s.node.mem.cursor == at)
  {
    assert TickBody(t, w) == TickMemory(t, adv, w);
    var b := TickMemory(t, adv, w);
    assert DistinctFrom(t.kids, 0);
    hide Tick, TickBody, RunFrom, HaltFrom, KidTicks, InTurn, Due, DistinctFrom, OnlyStops;
    var r := RunFrom(t.kids, t.mem.cursor, |t.kids|, 0, adv, w);
    at := r.at;
    RunTicks(t.kids, t.mem.cursor, |t.kids|, 0, adv, w);
    HaltOnlyStops(r.kids, 0, r.w);
    ThenStops(t.kids, w, r.w, b.w);
    OwnNote(t, w, b);
  }

  /** A reactive node asks its children from the first on.  Only when it is clean, subscribed and has
      a running child may it pass over children ahead of that one, and of these only such as have
      an action among their leaves.  It returns the answer of the child it stops at and, if that is
      RUNNING, stands there. */
  lemma ReactiveAsksInTurn(t: Node, adv: Final, w: World) returns (at: nat)
    requires Distinct(t) && t.info.kind == Reactive(adv)
    ensures var s := Tick(t, w);
      var clean := t.info.uid !in w.dirty && t.info.uid in w.subs;
      var skip := if clean && t.mem.running.Some? && t.mem.running.value < |t.kids| then t.mem.running.value else 0;
      && w.notes <= s.w.notes
      && AskedInTurn(t.kids, KidTicks(t.kids, w, s.w), 0, skip, at, adv, s.node.status)
      && (s.node.status == Running ==> s.node.mem.running == Some(at))
  {
    assert TickBody(t, w) == TickReactive(t, adv, w);
    assert DistinctFrom(t.kids, 0);
    hide Tick, TickBody, FullEval, FastTick, KidTicks, InTurn, Due, Distinct, DistinctFrom;
    if TakesFastPath(t, w) { at := FastAsks(t, adv, w); } else { at := FullAsks(t, adv, w); }
    OwnNote(t, w, TickReactive(t, adv, w));
  }

  lemma FullAsks(t: Node, adv: Final, w: World) returns (at: nat)
    requires DistinctFrom(t.kids, 0)
    ensures var b := FullEval(t, 0, adv, w);
      && w.notes <= b.w.notes
      && AskedInTurn(t.kids, KidTicks(t.kids, w, b.w), 0, 0, at, adv, b.result)
      && (b.result == Running ==> b.node.mem.running == Some(at))
  {
    hide RunFrom, HaltFrom, KidTicks, InTurn, Due, DistinctFrom, OnlyStops, KidBoards;
    var w1, b := ClearDirty(w, t.info.uid), FullEval(t, 0, adv, w);
    var r := RunFrom(t.kids, 0, |t.kids|, 0, adv, w1);
    at := r.at;
    NoKidTicks(t.kids, w, w1);
    RunTicks(t.kids, 0, |t.kids|, 0, adv, w1);
    KidTicksJoin(t.kids, w, w1, r.w);
    var h := HaltFrom(r.kids, r.at + 1, r.w);
    HaltOnlyStops(r.kids, r.at + 1, r.w);
    if r.result == adv {
      ThenStops(t.kids, w, r.w, b.w);
    } else {
      ThenStops(t.kids, w, r.w, h.w);
      ThenStops(t.kids, w, h.w, b.w);
    }
  }

  lemma {:induction false} InTurnSplit(kids: seq<Node>, i: nat, mid: nat, n: nat, skip: nat, adv: Final)
    requires i <= mid <= n <= |kids|
    ensures InTurn(kids, i, n, skip, adv) == InTurn(kids, i, mid, skip, adv) + InTurn(kids, mid, n, skip, adv)
    decreases mid - i
  {
    hide Due;
    if i < mid { InTurnSplit(kids, i + 1, mid, n, skip, adv); }
  }

  lemma {:induction false} AllDue(kids: seq<Node>, i: nat, n: nat, skip: nat, adv: Final)
    requires n <= |kids| && i >= skip
    ensures InTurn(kids, i, n, 0, adv) == InTurn(kids, i, n, skip, adv)
    decreases n - i
  {
    if i < n { AllDue(kids, i + 1, n, skip, adv); }
  }

  lemma FastAsks(t: Node, adv: Final, w: World) returns (at: nat)
    requires DistinctFrom(t.kids, 0) && t.mem.running.Some? && t.mem.running.value < |t.kids|
    ensures var b := FastTick(t, adv, w);
      && w.notes <= b.w.notes
      && AskedInTurn(t.kids, KidTicks(t.kids, w, b.w), 0, t.mem.running.value, at, adv, b.result)
      && (b.result == Running ==> b.node.mem.running == Some(at))
  {
    hide RunFrom, HaltFrom, KidTicks, InTurn, DistinctFrom, OnlyStops, AfterGuards, GuardsEnd;
    var idx, kids := t.mem.running.value, t.kids;
    FastTickParts(t, adv, w);
    var g := RunFrom(kids, 0, idx, idx, adv, w);
    RunTicks(kids, 0, idx, idx, adv, w);
    if g.result != adv {
      at := g.at;
      GuardsStop(t, g, w);
    } else {
      at := RestAsks(t, adv, w, g.kids, g.w);
    }
  }

  lemma GuardsStop(t: Node, g: Run, w: World)
    requires |g.kids| == |t.kids| && w.notes <= g.w.notes
    ensures var b := GuardsEnd(t, g);
      && b.result == g.result && (b.result == Running ==> b.node.mem.running == Some(g.at))
      && w.notes <= b.w.notes && KidTicks(t.kids, w, b.w) == KidTicks(t.kids, w, g.w)
  {
    hide HaltFrom, KidTicks, OnlyStops;
    HaltOnlyStops(g.kids, g.at + 1, g.w);
    ThenStops(t.kids, w, g.w, HaltFrom(g.kids, g.at + 1, g.w).w);
    ThenStops(t.kids, w, HaltFrom(g.kids, g.at + 1, g.w).w, GuardsEnd(t, g).w);
  }

  /** The guards have held: the running child, then, if that advances, the children behind it. */
  lemma RestAsks(t: Node, adv: Final, w: World, kids: seq<Node>, v: World) returns (at: nat)
    requires DistinctFrom(t.kids, 0) && t.mem.running.Some? && t.mem.running.value < |t.kids| == |kids|
    requires w.notes <= v.notes
    requires KidTicks(t.kids, w, v) == InTurn(t.kids, 0, t.mem.running.value, t.mem.running.value, adv)
    requires forall j | t.mem.running.value <= j < |kids| :: kids[j] == t.kids[j]
    ensures var idx := t.mem.running.value; var b := AfterGuards(t, kids, idx, adv, v);
      && w.notes <= b.w.notes
      && AskedInTurn(t.kids, KidTicks(t.kids, w, b.w), 0, idx, at, adv, b.result)
      && (b.result == Running ==> b.node.mem.running == Some(at))
  {
    hide RunFrom, HaltFrom, KidTicks, DistinctFrom, OnlyStops, Tick, OnlyConditions, FastRest;
    var idx := t.mem.running.value;
    var s := Tick(t.kids[idx], v);
    var z := Unsubscribe(s.w, t.info.uid);
    var now := kids[idx := s.node];
    KidTicked(t.kids, idx, v);
    KidTicksJoin(t.kids, w, v, s.w);
    ThenStops(t.kids, w, s.w, z);
    at := idx;
    if s.node.status == adv {
      InTurnOne(t.kids, idx, adv);
      InTurnSplit(t.kids, 0, idx, idx + 1, idx, adv);
      at := LaterAsks(t, adv, w, now, z);
    } else if s.node.status != Running {
      hide InTurn;
      StoppedThere(t, now, idx, s.node.status, adv, w, z);
    }
  }

  lemma InTurnOne(kids: seq<Node>, i: nat, adv: Final)
    requires i < |kids|
    ensures InTurn(kids, i, i + 1, i, adv) == [Ticked(kids[i].info.uid, adv)]
  {
    assert InTurn(kids, i + 1, i + 1, i, adv) == [];
  }

  lemma StoppedThere(t: Node, kids: seq<Node>, idx: nat, result: Final, adv: Final, w: World, v: World)
    requires |kids| == |t.kids| && idx < |t.kids| && result != adv && w.notes <= v.notes
    requires forall j | idx < j < |kids| :: kids[j] == t.kids[j]
    ensures var b := FastRest(t, kids, idx, result, adv, v);
      w.notes <= b.w.notes && b.result == result && KidTicks(t.kids, w, b.w) == KidTicks(t.kids, w, v)
  {
    hide HaltFrom, KidTicks, OnlyStops;
    HaltOnlyStops(kids, idx + 1, v);
    ThenStops(t.kids, w, v, HaltFrom(kids, idx + 1, v).w);
  }

  lemma LaterAsks(t: Node, adv: Final, w: World, kids: seq<Node>, v: World) returns (at: nat)
    requires DistinctFrom(t.kids, 0) && t.mem.running.Some? && t.mem.running.value < |t.kids| == |kids|
    requires w.notes <= v.notes
    requires KidTicks(t.kids, w, v) == InTurn(t.kids, 0, t.mem.running.value + 1, t.mem.running.value, adv)
    requires forall j | t.mem.running.value < j < |kids| :: kids[j] == t.kids[j]
    ensures var idx := t.mem.running.value; var b := FastRest(t, kids, idx, adv, adv, v);
      && w.notes <= b.w.notes
      && AskedInTurn(t.kids, KidTicks(t.kids, w, b.w), 0, idx, at, adv, b.result)
      && (b.result == Running ==> b.node.mem.running == Some(at))
  {
    hide RunFrom, HaltFrom, KidTicks, InTurn, DistinctFrom, OnlyStops, OnlyConditions, KidBoards;
    var idx, n := t.mem.running.value, |t.kids|;
    RunTicks(t.kids, idx + 1, n, 0, adv, v);
    var r := RunFrom(t.kids, idx + 1, n, 0, adv, v);
    at := r.at;
    KidTicksJoin(t.kids, w, v, r.w);
    AllDue(t.kids, idx + 1, at, idx, adv);
    InTurnSplit(t.kids, 0, idx + 1, at, idx, adv);
    var all := kids[..idx + 1] + r.kids[idx + 1..];
    var b := FastRest(t, kids, idx, adv, adv, v);
    HaltOnlyStops(all, at + 1, r.w);
    if r.result != adv {
      ThenStops(t.kids, w, r.w, HaltFrom(all, at + 1, r.w).w);
      ThenStops(t.kids, w, HaltFrom(all, at + 1, r.w).w, b.w);
    }
  }

  lemma {:induction false} TicksAreNotes(ns: seq<Note>, us: set<Uid>)
    ensures forall x | x in TicksOf(ns, us) :: x in ns
  {
    if ns != [] { TicksAreNotes(ns[..|ns| - 1], us); }
  }

  lemma {:induction false} InTurnHas(kids: seq<Node>, i: nat, n: nat, skip: nat, adv: Final, j: nat)
    requires i <= j < n <= |kids| && Due(kids[j], j, skip)
    ensures Ticked(kids[j].info.uid, adv) in InTurn(kids, i, n, skip, adv)
    decreases j - i
  {
    hide Due;
    if i < j { InTurnHas(kids, i + 1, n, skip, adv, j); }
  }

  /** In every tick of a reactive node, on the fast path or not: a child whose leaves are all
      conditions is ticked, unless a child ahead of it stops the node with its answer. */
  lemma GuardsAreAsked(t: Node, adv: Final, w: World, j: nat)
    requires Distinct(t) && t.info.kind == Reactive(adv) && j < |t.kids| && OnlyConditions(t.kids[j])
    ensures var s := Tick(t, w);
      && w.notes <= s.w.notes
      && (Ticked(t.kids[j].info.uid, adv) in Told(w, s.w)
          || (s.node.status != adv
              && exists i | 0 <= i <= j :: Ticked(t.kids[i].info.uid, s.node.status) in Told(w, s.w)))
  {
    hide Tick, OnlyConditions, InTurn, TicksOf, Distinct;
    var at := ReactiveAsksInTurn(t, adv, w);
    var s, kids := Tick(t, w), t.kids;
    TicksAreNotes(Told(w, s.w), KidIds(kids));
    var skip := if t.info.uid !in w.dirty && t.info.uid in w.subs && t.mem.running.Some?
                   && t.mem.running.value < |kids| then t.mem.running.value else 0;
    var n := if s.node.status == adv then |kids| else at;
    if j < n { InTurnHas(kids, 0, n, skip, adv, j); }
  }

  /** After a write that a RUNNING reactive node heard, whoever made it, its next tick asks every
      child again from the first on. */
  lemma WriteAsksAgain(t: Node, adv: Final, w: World, ds: seq<Doing>) returns (at: nat)
    requires Inv(t, false) && Distinct(t) && Ok(t, w, true) && t.info.kind == Reactive(adv)
    requires Tick(t, w).node.status == Running && forall d | d in ds :: t.info.uid !in Doers(d)
    requires var boards := KidBoards(t.kids, 0);
      Heard(ListensUntil(t, adv, w), |w.trace|, boards) || Written(Tick(t, w).w, ds, boards)
    ensures var s := Tick(t, w); var v := DoneAll(s.w, ds); var z := Tick(s.node, v);
      v.notes <= z.w.notes
      && AskedInTurn(s.node.kids, KidTicks(s.node.kids, v, z.w), 0, 0, at, adv, z.node.status)
  {
    var s := Tick(t, w);
    var v := DoneAll(s.w, ds);
    WriteForcesFullEval(t, adv, w, ds);
    TickTracked(t, w, true);
    ShapeFacts(t, s.node);
    assert TickBody(s.node, v) == TickReactive(s.node, adv, v);
    assert DistinctFrom(s.node.kids, 0);
    hide *;
    at := FullAsks(s.node, adv, v);
    OwnNote(s.node, v, FullEval(s.node, 0, adv, v));
  }

  // ----- Parallel ------------------------------------------------------------------------------

  /** The children that have not come to a result, in order, each with its new answer. */
  function Ballots(kids: seq<Node>, i: nat, answers: seq<Result>): seq<Note>
    requires |answers| == |kids|
    decreases |kids| - i
  {
    if i >= |kids| then []
    else (if kids[i].status == Success || kids[i].status == Failure then []
          else [Ticked(kids[i].info.uid, answers[i])]) + Ballots(kids, i + 1, answers)
  }

  lemma {:induction false} SweepTicks(kids: seq<Node>, i: nat, w: World)
    requires DistinctFrom(kids, 0)
    ensures var r := Sweep(kids, i, w);
      && w.notes <= r.w.notes && (forall j | i <= j < |kids| :: r.kids[j].status != Idle)
      && forall answers: seq<Result> |
           |answers| == |kids| && (forall j | i <= j < |kids| :: answers[j] == r.kids[j].status) ::
           KidTicks(kids, w, r.w) == Ballots(kids, i, answers)
    decreases |kids| - i
  {
    hide Tick, KidTicks, DistinctFrom;
    NoKidTicks(kids, w, w);
    if i < |kids| {
      if Terminal(kids[i].status) {
        SweepTicks(kids, i + 1, w);
      } else {
        var s := Tick(kids[i], w);
        KidTicked(kids, i, w);
        SweepTicks(kids, i + 1, s.w);
        KidTicksJoin(kids, w, s.w, Sweep(kids, i + 1, s.w).w);
      }
    }
  }

  /** One tick of a Parallel: each child without a result is ticked once, in order; the status is
      the policy's decision on the results there are, old and new. */
  lemma ParallelAsks(t: Node, w: World) returns (answers: seq<Result>)
    requires Distinct(t) && t.info.kind.Parallel?
    ensures var s := Tick(t, w); var n := |t.kids|;
      && |answers| == n && w.notes <= s.w.notes
      && (forall j | 0 <= j < n && t.kids[j].status in {Success, Failure} :: answers[j] == t.kids[j].status)
      && KidTicks(t.kids, w, s.w) == Ballots(t.kids, 0, answers)
      && if n == 0 then s.node.status == Success
         else Decides(t.info.kind, n, HowMany(answers, Success), HowMany(answers, Failure), s.node.status)
  {
    assert DistinctFrom(t.kids, 0);
    assert TickBody(t, w) == TickParallel(t, w);
    hide Tick, TickBody, Distinct, DistinctFrom, KidTicks, Verdict, Count, HowMany, Decides, Sweep, HaltRunning,
      ResetTerminal, OnlyStops, Beside, Ballots;
    var b, n := TickParallel(t, w), |t.kids|;
    if n == 0 {
      answers := [];
      NoKidTicks(t.kids, w, w);
      NoBallots(t.kids, answers);
    } else {
      var s := Sweep(t.kids, 0, w);
      SweepTicks(t.kids, 0, w);
      answers := seq(n, j requires 0 <= j < n => var r: Result := s.kids[j].status; r);
      SweptAnswers(t.kids, w, answers);
      CountIs(s.kids, answers, Success);
      CountIs(s.kids, answers, Failure);
      CountsFit(answers);
      PolicyMeaning(t.info.kind, n, HowMany(answers, Success), HowMany(answers, Failure));
      ClearOnlyStops(s.kids, s.w);
      ThenStops(t.kids, w, s.w, b.w);
    }
    OwnNote(t, w, b);
  }

  lemma NoBallots(kids: seq<Node>, answers: seq<Result>)
    requires kids == [] && answers == []
    ensures Ballots(kids, 0, answers) == []
  {}

  lemma SweptAnswers(kids: seq<Node>, w: World, answers: seq<Result>)
    requires |answers| == |kids|
    requires forall j | 0 <= j < |kids| :: answers[j] == Sweep(kids, 0, w).kids[j].status
    ensures forall j | 0 <= j < |kids| && kids[j].status in {Success, Failure} :: answers[j] == kids[j].status
  {
    hide Sweep, Tick;
    forall j | 0 <= j < |kids| && kids[j].status in {Success, Failure} ensures answers[j] == kids[j].status {
      SweepAt(kids, 0, j, w);
    }
  }

  lemma {:induction false} ClearOnlyStops(kids: seq<Node>, w: World)
    ensures var h := HaltRunning(kids, 0, w); OnlyStops(w, ResetTerminal(h.kids, 0, h.w).w)
  {
    ClearBeside(kids, w, UidsFrom(kids, 0));
  }

  // ----- decorators ----------------------------------------------------------------------------

  /** Inverter, ForceSuccess, ForceFailure and SubTree tick their child and map its answer. */
  lemma RelayAsks(t: Node, w: World, onSuccess: Final, onFailure: Final) returns (answer: Result)
    requires Distinct(t) && t.info.kind == Relay(onSuccess, onFailure) && t.kids != []
    ensures var s := Tick(t, w);
      && w.notes <= s.w.notes && KidTicks(t.kids, w, s.w) == [Ticked(t.kids[0].info.uid, answer)]
      && s.node.status == (match answer case Success => onSuccess case Failure => onFailure case Running => Running)
  {
    DecoratorTicks(t, w);
    answer := Tick(t.kids[0], w).node.status;
    hide Tick, KidTicks, Distinct;
    OneKidTicks(t.kids, w, w);
    OwnNote(t, w, TickDecorator(t, w));
  }

  /** A Retry with budget ticks its child and returns its answer, except that a failure which leaves
      some budget is RUNNING; without budget it fails and ticks nothing. */
  lemma RetryAsks(t: Node, w: World, budget: int) returns (answer: Result)
    requires Distinct(t) && t.info.kind == Retry(budget) && t.kids != []
    ensures var s := Tick(t, w); var before := if t.status == Running then t.mem.attempts else 0;
      && w.notes <= s.w.notes
      && if budget <= 0 then KidTicks(t.kids, w, s.w) == [] && s.node.status == Failure
         else
           && KidTicks(t.kids, w, s.w) == [Ticked(t.kids[0].info.uid, answer)]
           && s.node.status == if answer == Failure && before + 1 < budget then Running else answer
  {
    DecoratorTicks(t, w);
    answer := Tick(t.kids[0], w).node.status;
    hide Tick, KidTicks, Distinct, Halt, OnlyStops;
    OneKidTicks(t.kids, w, w);
    NoKidTicks(t.kids, w, w);
    OwnNote(t, w, TickRetry(t, budget, w));
  }

  /** A Timeout looks at the clock, which also starts it at the first tick of an activation; within
      its time it ticks its child and returns its answer, later it fails and ticks nothing. */
  lemma TimeoutAsks(t: Node, w: World, duration: real) returns (answer: Result)
    requires Distinct(t) && t.info.kind == Timeout(duration) && t.kids != []
    ensures var s := Tick(t, w); var now := w.env.clock(w.trace);
      var start := if t.status == Running && t.mem.started.Some? then t.mem.started.value else now;
      && w.notes <= s.w.notes && s.node.mem.started == Some(start)
      && if now - start > duration then KidTicks(t.kids, w, s.w) == [] && s.node.status == Failure
         else KidTicks(t.kids, w, s.w) == [Ticked(t.kids[0].info.uid, answer)] && s.node.status == answer
  {
    DecoratorTicks(t, w);
    var w1 := ReadClock(w, t.info.uid);
    answer := Tick(t.kids[0], w1).node.status;
    hide Tick, KidTicks, Distinct, Halt;
    OneKidTicks(t.kids, w, w1);
    OwnNote(t, w, TickTimeout(t, duration, w));
  }

  /** A RateController looks at the clock; it ticks its child, returns its answer and keeps it with
      the time, unless the answer it keeps is less than a period old: then it returns that one and
      calls nobody. */
  lemma RateAsks(t: Node, w: World, period: real) returns (answer: Result)
    requires Distinct(t) && t.info.kind == Rate(period) && t.kids != []
    ensures var s := Tick(t, w); var now := w.env.clock(w.trace);
      && w.notes <= s.w.notes
      && if t.mem.cache.Some? && now - t.mem.cache.value.at < period then
           && KidTicks(t.kids, w, s.w) == [] && s.w.trace == w.trace + [ClockRead(t.info.uid)]
           && s.node.status == t.mem.cache.value.result && s.node.mem.cache == t.mem.cache
         else
           && KidTicks(t.kids, w, s.w) == [Ticked(t.kids[0].info.uid, answer)]
           && s.node.status == answer && s.node.mem.cache == Some(Cached(now, answer))
  {
    DecoratorTicks(t, w);
    var w1 := ReadClock(w, t.info.uid);
    answer := Tick(t.kids[0], w1).node.status;
    TickIs(t, w);
    hide Tick, KidTicks, Distinct, OnlyStops;
    OneKidTicks(t.kids, w, w1);
    NoKidTicks(t.kids, w, w1);
    OwnNote(t, w, TickRate(t, period, w));
  }

  lemma DecoratorTicks(t: Node, w: World)
    requires Distinct(t) && t.kids != []
    requires t.info.kind.Relay? || t.info.kind.Retry? || t.info.kind.Timeout? || t.info.kind.Rate?
    ensures TickBody(t, w) == TickDecorator(t, w) && DistinctFrom(t.kids, 0)
  {
    hide TickDecorator;
  }

  /** The only child is ticked, and perhaps halted after that, or just halted. */
  lemma OneKidTicks(kids: seq<Node>, w: World, w1: World)
    requires kids != [] && DistinctFrom(kids, 0) && w1.notes == w.notes
    ensures var s := Tick(kids[0], w1); var g := Halt(s.node, s.w); var h := Halt(kids[0], w1);
      && w.notes <= s.w.notes && w.notes <= g.w.notes && w.notes <= h.w.notes
      && KidTicks(kids, w, s.w) == [Ticked(kids[0].info.uid, s.node.status)] == KidTicks(kids, w, g.w)
      && KidTicks(kids, w, h.w) == []
  {
    hide Tick, Halt, KidTicks, DistinctFrom, OnlyStops;
    var s := Tick(kids[0], w1);
    KidTicked(kids, 0, w1);
    NoKidTicks(kids, w, w1);
    KidTicksJoin(kids, w, w1, s.w);
    HaltStops(s.node, s.w);
    HaltStops(kids[0], w1);
    ThenStops(kids, w, s.w, Halt(s.node, s.w).w);
    ThenStops(kids, w, w1, Halt(kids[0], w1).w);
  }

  lemma HaltStops(t: Node, w: World)
    ensures OnlyStops(w, Halt(t, w).w)
  {
    HaltBeside(t, w, Uids(t));
  }

  /** The decorators that only map their child's result. */
  lemma MappedResults(t: Node, w: World)
    requires t.info.kind in {INVERTER, FORCE_SUCCESS, FORCE_FAILURE, SUBTREE} && t.kids != []
    ensures var s, k := Tick(t, w), Tick(t.kids[0], w);
      && s.node.kids == t.kids[0 := k.node] && s.w.trace == k.w.trace
      && (s.node.status == Running <==> k.node.status == Running)
      && (t.info.kind == INVERTER ==> (s.node.status == Success <==> k.node.status == Failure))
      && (t.info.kind == FORCE_SUCCESS ==> s.node.status != Failure)
      && (t.info.kind == FORCE_FAILURE ==> s.node.status != Success)
      && (t.info.kind == SUBTREE ==> s.node.status == k.node.status)
  {
    assert TickBody(t, w) == TickDecorator(t, w);
    TickIs(t, w);
    hide Tick, TickBody;
  }

  /** Without children a Sequence, a Parallel and a ReactiveSequence succeed, a Fallback and a
      ReactiveFallback fail; nobody is called. */
  lemma ChildlessAnswers(t: Node, w: World)
    requires (t.info.kind.Memory? || t.info.kind.Reactive? || t.info.kind.Parallel?) && t.kids == []
    ensures var s := Tick(t, w);
      && s.w.trace == w.trace && s.w.notes == w.notes + [Ticked(t.info.uid, s.node.status)]
      && s.node.status == if t.info.kind.Parallel? then Success else t.info.kind.adv
  {
    TickIs(t, w);
    if t.info.kind.Memory? {
      var adv := t.info.kind.adv;
      assert RunFrom([], t.mem.cursor, 0, 0, adv, w).w == w;
      assert TickBody(t, w) == TickMemory(t, adv, w);
    } else if t.info.kind.Reactive? {
      var adv, w1 := t.info.kind.adv, ClearDirty(w, t.info.uid);
      assert RunFrom([], 0, 0, 0, adv, w1).w == w1;
      assert TickBody(t, w) == TickReactive(t, adv, w) == FullEval(t, 0, adv, w);
    } else {
      assert TickBody(t, w) == TickParallel(t, w);
    }
  }
}
