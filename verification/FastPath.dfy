/** The reactive fast path refines full evaluation. */
module FastPath {
  import opened Worlds
  import opened Engine
  import opened Invariants
  import opened Simulation
  import opened Runs
  import opened Stepwise
  import opened LeafNodes

  // ----- halting what is already IDLE changes nothing ----------------------------

  lemma {:induction false} HaltIdle(t: Node, w: World, strict: bool)
    requires Inv(t, strict) && t.status == Idle
    ensures Halt(t, w) == Step(t, w)
    decreases t, 0
  {
    if t.info.kind.Parallel? {
      ClearIdle(t.kids, 0, w);
    } else {
      HaltFromIdle(t.kids, 0, w, strict);
    }
  }

  lemma {:induction false} HaltFromIdle(kids: seq<Node>, i: nat, w: World, strict: bool)
    requires InvAll(kids, strict) && forall j | i <= j < |kids| :: kids[j].status == Idle
    ensures HaltFrom(kids, i, w) == StepAll(kids, w)
    decreases kids, |kids| - i
  {
    if i < |kids| {
      HaltIdle(kids[i], w, strict);
      HaltFromIdle(kids, i + 1, w, strict);
    }
  }

  lemma {:induction false} ClearIdle(kids: seq<Node>, i: nat, w: World)
    requires forall j | i <= j < |kids| :: kids[j].status == Idle
    ensures HaltRunning(kids, i, w) == StepAll(kids, w) && ResetTerminal(kids, i, w) == StepAll(kids, w)
    decreases |kids| - i
  {
    if i < |kids| { ClearIdle(kids, i + 1, w); }
  }

  // ----- runs over children compose -----------------------------------------------

  /** A run to `n` is a run to `m`, and if that went through, a run from `m` to `n`. */
  lemma {:induction false} RunFromSplit(kids: seq<Node>, i: nat, m: nat, n: nat, skip: nat, adv: Final, w: World)
    requires i <= m <= n <= |kids|
    ensures var g := RunFrom(kids, i, m, skip, adv, w); var r := RunFrom(kids, m, n, skip, adv, g.w);
      RunFrom(kids, i, n, skip, adv, w) == if g.result != adv then g else r.(kids := g.kids[..m] + r.kids[m..])
    decreases m - i
  {
    hide Tick, IsGuard;
    if i == m {
      var r := RunFrom(kids, m, n, skip, adv, w);
      assert kids[..m] + r.kids[m..] == r.kids;
    } else if i < skip && !IsGuard(kids[i]) {
      RunFromSplit(kids, i + 1, m, n, skip, adv, w);
    } else {
      var s := Tick(kids[i], w);
      if s.node.status == adv {
        RunFromSplit(kids, i + 1, m, n, skip, adv, s.w);
        var g := RunFrom(kids, i + 1, m, skip, adv, s.w);
        var r := RunFrom(kids, m, n, skip, adv, g.w);
        if g.result == adv {
          SpliceUpdate(g.kids, r.kids, m, i, s.node);
        }
      }
    }
  }

  lemma SpliceUpdate(a: seq<Node>, b: seq<Node>, m: nat, i: nat, x: Node)
    requires |a| == |b| && i < m <= |a|
    ensures (a[..m] + b[m..])[i := x] == a[i := x][..m] + b[m..]
  {}

  /** Skipping makes no difference to guards, nor from index `skip` on. */
  lemma {:induction false} RunFromNoSkip(kids: seq<Node>, i: nat, n: nat, skip: nat, adv: Final, w: World)
    requires n <= |kids| && forall j | i <= j < skip && j < n :: IsGuard(kids[j])
    ensures RunFrom(kids, i, n, skip, adv, w) == RunFrom(kids, i, n, 0, adv, w)
    decreases n - i
  {
    hide Tick, IsGuard;
    if i < n {
      var s := Tick(kids[i], w);
      if s.node.status == adv { RunFromNoSkip(kids, i + 1, n, skip, adv, s.w); }
    }
  }

  // ----- exact comparison of a tree with itself --------------------------------------

  ghost predicate Apart(t: Node, u: Uid) {
    (t.info.kind.Reactive? ==> t.info.uid != u) && forall i | 0 <= i < |t.kids| :: Apart(t.kids[i], u)
  }

  lemma {:induction false} SimSelf(t: Node, u: Uid)
    requires Apart(t, u)
    ensures Sim(t, t, Scope({u}, true))
  {
    forall i | 0 <= i < |t.kids| ensures Pair(t.kids[i], t.kids[i], false, Scope({u}, true)) {
      SimSelf(t.kids[i], u);
    }
    assert Core(t, t, false, Scope({u}, true));
  }

  lemma {:induction false} ExactIsEqual(t: Node, s: Node, E: Scope)
    requires Sim(t, s, E) && E.exact
    ensures t == s
  {
    assert Core(t, s, false, E);
    forall i | 0 <= i < |t.kids| ensures t.kids[i] == s.kids[i] {
      assert Pair(t.kids[i], s.kids[i], false, E);
      ExactIsEqual(t.kids[i], s.kids[i], E);
    }
    assert t.kids == s.kids;
  }

  /** Over the same children, a run does not depend on how a node not among them is subscribed. */
  lemma RunFromApart(kids: seq<Node>, i: nat, n: nat, adv: Final, w: World, v: World, u: Uid)
    requires n <= |kids| && InvAll(kids, false) && Agree(w, v, Scope({u}, true), {})
    requires forall j | 0 <= j < |kids| :: Apart(kids[j], u)
    ensures var r := RunFrom(kids, i, n, 0, adv, w); var q := RunFrom(kids, i, n, 0, adv, v);
      && q.kids == r.kids && q.at == r.at && q.result == r.result
      && Agree(r.w, q.w, Scope({u}, true), {})
      && Pairs(r.kids, r.kids, false, Scope({u}, true)) && InvAll(r.kids, false)
  {
    var E := Scope({u}, true);
    forall j | 0 <= j < |kids| ensures Pair(kids[j], kids[j], false, E) { SimSelf(kids[j], u); }
    RunFromSim(kids, kids, i, n, 0, adv, false, w, v, E, {});
    var r := RunFrom(kids, i, n, 0, adv, w);
    var q := RunFrom(kids, i, n, 0, adv, v);
    forall j | 0 <= j < |kids| ensures r.kids[j] == q.kids[j] { ExactIsEqual(r.kids[j], q.kids[j], E); }
    assert r.kids == q.kids;
  }

  // ----- the refinement ----------------------------------------------------------------

  ghost predicate KidsApart(t: Node) {
    forall j | 0 <= j < |t.kids| :: Apart(t.kids[j], t.info.uid)
  }

  /** Same result, same node below and including this one, same calls; only this node's own
      subscription and dirty flag may differ. */
  ghost predicate SameBody(b: Body, c: Body, u: Uid) {
    b.result == c.result && b.node == c.node && Agree(b.w, c.w, Scope({u}, true), {})
  }

  lemma AgreeSelf(w: World, v: World, u: Uid)
    requires v == w || v == Unsubscribe(w, u)
    ensures Agree(w, v, Scope({u}, true), {}) && Agree(v, w, Scope({u}, true), {})
  {
    forall x | x != u ensures AgreeAt(w, v, x, false) && AgreeAt(v, w, x, false) {}
  }

  /** The fast path is a full evaluation in which every skipped action answers its stored result. */
  lemma {:induction false} FastTickIsFullEval(t: Node, adv: Final, w: World)
    requires Inv(t, true) && t.info.kind == Reactive(adv) && t.status == Running
    requires TakesFastPath(t, w) && KidsApart(t)
    ensures SameBody(FastTick(t, adv, w), FullEval(t, t.mem.running.value, adv, w), t.info.uid)
  {
    var idx, n, u := t.mem.running.value, |t.kids|, t.info.uid;
    assert ClearDirty(w, u) == w;
    var g := RunFrom(t.kids, 0, idx, idx, adv, w);
    RunFromSplit(t.kids, 0, idx, n, idx, adv, w);
    if g.result != adv {
      AgreeSelf(FastTick(t, adv, w).w, FastTick(t, adv, w).w, u);
    } else {
      FastChildIsFullEval(t, adv, w);
    }
  }

  lemma SpliceStopped(front: seq<Node>, back: seq<Node>, i: nat, x: Node)
    requires |front| == |back| && i < |front| && forall j | i < j < |front| :: front[j] == back[j]
    ensures front[..i] + back[i := x][i..] == front[i := x]
  {}

  lemma SplicePassed(front: seq<Node>, back: seq<Node>, i: nat, x: Node)
    requires |front| == |back| && i < |front|
    ensures front[..i] + back[i := x][i..] == front[i := x][..i + 1] + back[i + 1..]
  {}

  /** After the guards ahead of the running child have held: the run from that child on. */
  lemma {:induction false} RunFromRunning(kids: seq<Node>, g: Run, idx: nat, adv: Final)
    requires idx < |kids| == |g.kids| && InvAll(kids, true) && InvAll(g.kids, true) && IdleAfter(kids, idx)
    requires forall j | idx < j < |kids| :: g.kids[j] == kids[j]
    ensures var s := Tick(kids[idx], g.w); var r := RunFrom(kids, idx, |kids|, idx, adv, g.w);
      var now := g.kids[idx := s.node];
      && InvAll(now, true)
      && if s.node.status != adv then
           && r.result == s.node.status && r.at == idx && r.w == s.w && g.kids[..idx] + r.kids[idx..] == now
           && HaltFrom(now, idx + 1, s.w) == StepAll(now, s.w)
         else
           var q := RunFrom(kids, idx + 1, |kids|, 0, adv, s.w);
           r.result == q.result && r.at == q.at && r.w == q.w
           && g.kids[..idx] + r.kids[idx..] == now[..idx + 1] + q.kids[idx + 1..]
  {
    hide Inv, IsGuard, HaltFrom;
    var s := Tick(kids[idx], g.w);
    TickInv(kids[idx], g.w, true);
    hide Tick;
    var now := g.kids[idx := s.node];
    assert InvAll(now, true);
    hide InvAll;
    if s.node.status != adv {
      HaltFromIdle(now, idx + 1, s.w, true);
      SpliceStopped(g.kids, kids, idx, s.node);
    } else {
      SplicePassed(g.kids, RunFrom(kids, idx + 1, |kids|, idx, adv, s.w).kids, idx, s.node);
      RunFromNoSkip(kids, idx + 1, |kids|, idx, adv, s.w);
    }
  }

  /** The case in which every guard ahead of the running child still holds. */
  lemma {:induction false} FastChildIsFullEval(t: Node, adv: Final, w: World)
    requires Inv(t, true) && t.info.kind == Reactive(adv) && t.status == Running
    requires TakesFastPath(t, w) && KidsApart(t)
    requires RunFrom(t.kids, 0, t.mem.running.value, t.mem.running.value, adv, w).result == adv
    ensures SameBody(FastTick(t, adv, w), FullEval(t, t.mem.running.value, adv, w), t.info.uid)
  {
    var idx, n, u := t.mem.running.value, |t.kids|, t.info.uid;
    assert InvAll(t.kids, true);
    assert IdleAfter(t.kids, idx);
    assert ClearDirty(w, u) == w;
    hide Inv, InvAll, IdleAfter, IsGuard, Agree, TakesFastPath, FastTick, FullEnd, AfterGuards, ClearDirty;
    FastTickParts(t, adv, w);
    var g := RunFrom(t.kids, 0, idx, idx, adv, w);
    RunFromSplit(t.kids, 0, idx, n, idx, adv, w);
    RunFromInv(t.kids, 0, idx, idx, adv, w, true);
    hide RunFrom;
    AfterGuardsIsFullEval(t, g, adv);
  }

  lemma {:induction false} AfterGuardsIsFullEval(t: Node, g: Run, adv: Final)
    requires Inv(t, true) && t.info.kind == Reactive(adv) && KidsApart(t)
    requires t.mem.running.Some? && t.mem.running.value < |t.kids| == |g.kids|
    requires InvAll(t.kids, true) && InvAll(g.kids, true) && IdleAfter(t.kids, t.mem.running.value)
    requires forall j | t.mem.running.value <= j < |t.kids| :: g.kids[j] == t.kids[j]
    ensures var idx := t.mem.running.value; var r := RunFrom(t.kids, idx, |t.kids|, idx, adv, g.w);
      SameBody(AfterGuards(t, g.kids, idx, adv, g.w), FullEnd(t, r.(kids := g.kids[..idx] + r.kids[idx..]), adv),
               t.info.uid)
  {
    hide Inv, InvAll, IdleAfter, HaltFrom, Tick, KidsApart, FastRest, FullEnd, SameBody, RunFrom;
    var idx, u := t.mem.running.value, t.info.uid;
    RunFromRunning(t.kids, g, idx, adv);
    var s := Tick(t.kids[idx], g.w);
    var now := g.kids[idx := s.node];
    if s.node.status == adv {
      RestIsFullEval(t, now, idx, adv, s.w);
    } else {
      HaltTailIdle(t.kids, now, idx, Unsubscribe(s.w, u));
      StoppedIsFullEval(t, now, idx, s.node.status, adv, s.w);
    }
  }

  lemma StoppedIsFullEval(t: Node, now: seq<Node>, idx: nat, result: Result, adv: Final, w: World)
    requires |now| == |t.kids| && idx < |now| && result != adv
    requires forall j | idx < j < |now| :: now[j] == t.kids[j]
    requires t.mem.running == Some(idx)
    requires HaltFrom(now, idx + 1, w) == StepAll(now, w)
    requires HaltFrom(now, idx + 1, Unsubscribe(w, t.info.uid)) == StepAll(now, Unsubscribe(w, t.info.uid))
    ensures var c := FullEnd(t, Run(now, idx, result, w), adv);
      if result == Running then SameBody(Body(t.(kids := now), Running, w), c, t.info.uid)
      else SameBody(FastRest(t, now, idx, result, adv, Unsubscribe(w, t.info.uid)), c, t.info.uid)
  {
    AgreeSelf(w, w, t.info.uid);
    AgreeSelf(Unsubscribe(w, t.info.uid), Unsubscribe(w, t.info.uid), t.info.uid);
  }

  lemma HaltTailIdle(kids: seq<Node>, now: seq<Node>, idx: nat, w: World)
    requires |now| == |kids| && InvAll(now, true) && IdleAfter(kids, idx)
    requires forall j | idx < j < |kids| :: now[j] == kids[j]
    ensures HaltFrom(now, idx + 1, w) == StepAll(now, w)
  {
    HaltFromIdle(now, idx + 1, w, true);
  }

  /** The run over the remaining children does not notice the node's own subscription ... */
  lemma RestRunApart(t: Node, i: nat, adv: Final, w: World)
    requires Inv(t, true) && KidsApart(t) && i <= |t.kids|
    ensures var p := RunFrom(t.kids, i, |t.kids|, 0, adv, Unsubscribe(w, t.info.uid));
      var q := RunFrom(t.kids, i, |t.kids|, 0, adv, w);
      var E := Scope({t.info.uid}, true);
      && p.kids == q.kids && p.at == q.at && p.result == q.result && Agree(p.w, q.w, E, {})
      && InvAll(q.kids, false) && Pairs(q.kids, q.kids, false, E)
  {
    assert InvAll(t.kids, true);
    hide Inv, InvAll, Agree, RunFrom, Pairs, Unsubscribe;
    var u := t.info.uid;
    StrictAll(t.kids);
    AgreeSelf(w, Unsubscribe(w, u), u);
    RunFromApart(t.kids, i, |t.kids|, adv, Unsubscribe(w, u), w, u);
  }

  /** ... and neither does the halt of the children after the one that stopped it. */
  lemma RestHaltApart(front: seq<Node>, p: Run, q: Run, i: nat, u: Uid)
    requires |front| == |q.kids| && i <= |front| && p.kids == q.kids && i <= p.at + 1
    requires Agree(p.w, q.w, Scope({u}, true), {})
    requires InvAll(q.kids, false) && Pairs(q.kids, q.kids, false, Scope({u}, true))
    ensures var all := front[..i] + q.kids[i..];
      var g, h := HaltFrom(all, p.at + 1, p.w), HaltFrom(all, p.at + 1, q.w);
      g.kids == h.kids && Agree(g.w, h.w, Scope({u}, true), {})
  {
    hide InvAll, Agree, HaltFrom, Pairs;
    SpliceTail(front, q.kids, i);
    HaltTailApart(front[..i] + q.kids[i..], p.at + 1, |front|, p.w, q.w, q.kids, u);
  }

  lemma SpliceTail(front: seq<Node>, back: seq<Node>, m: nat)
    requires |front| == |back| && m <= |front|
    ensures forall j | m <= j < |front| :: (front[..m] + back[m..])[j] == back[j]
  {}

  lemma RestEndIsFullEnd(t: Node, p: Run, q: Run, adv: Final)
    requires q.kids == p.kids && q.at == p.at && q.result == p.result && t.mem.running.Some?
    requires Agree(p.w, q.w, Scope({t.info.uid}, true), {})
    requires var h, g := HaltFrom(p.kids, p.at + 1, p.w), HaltFrom(q.kids, q.at + 1, q.w);
      h.kids == g.kids && Agree(h.w, g.w, Scope({t.info.uid}, true), {})
    ensures SameBody(RestEnd(t, p, adv), FullEnd(t, q, adv), t.info.uid)
  {
    hide Agree, Subscribe, Unsubscribe, HaltFrom;
    AgreeOwn(p.w, q.w, t.info.uid, KidBoards(t.kids, 0));
    AgreeOwn(HaltFrom(p.kids, p.at + 1, p.w).w, HaltFrom(q.kids, q.at + 1, q.w).w, t.info.uid,
          KidBoards(HaltFrom(p.kids, p.at + 1, p.w).kids, 0));
  }

  lemma StrictAll(kids: seq<Node>)
    requires InvAll(kids, true)
    ensures InvAll(kids, false)
  {
    forall j | 0 <= j < |kids| ensures Inv(kids[j], false) { StrictInv(kids[j]); }
  }

  /** The running child has answered `adv`: the fast path goes on unsubscribed, the full
      evaluation subscribed, and neither notices. */
  lemma RestIsFullEval(t: Node, kids: seq<Node>, idx: nat, adv: Final, w: World)
    requires Inv(t, true) && t.info.kind == Reactive(adv) && KidsApart(t)
    requires |kids| == |t.kids| && idx < |t.kids| && InvAll(kids, true)
    requires forall j | idx < j < |kids| :: kids[j] == t.kids[j]
    requires t.mem.running.Some?
    ensures var q := RunFrom(t.kids, idx + 1, |t.kids|, 0, adv, w);
      var all := kids[..idx + 1] + q.kids[idx + 1..];
      var c := FullEnd(t, q.(kids := all), adv);
      SameBody(FastRest(t, kids, idx, adv, adv, Unsubscribe(w, t.info.uid)), c, t.info.uid)
  {
    hide Inv, InvAll, Agree, KidBoards, RunFrom, HaltFrom, KidsApart, Subscribe, Unsubscribe, RestEnd, FullEnd;
    var u, n := t.info.uid, |t.kids|;
    RestRunApart(t, idx + 1, adv, w);
    var p := RunFrom(t.kids, idx + 1, n, 0, adv, Unsubscribe(w, u));
    var q := RunFrom(t.kids, idx + 1, n, 0, adv, w);
    RestHaltApart(kids, p, q, idx + 1, u);
    var all := kids[..idx + 1] + q.kids[idx + 1..];
    RestEndIsFullEnd(t, p.(kids := all), q.(kids := all), adv);
  }

  /** A node's own subscribing and unsubscribing is hidden. */
  lemma AgreeOwn(w: World, v: World, u: Uid, boards: set<Board>)
    requires Agree(w, v, Scope({u}, true), {})
    ensures Agree(w, Unsubscribe(v, u), Scope({u}, true), {})
    ensures Agree(Subscribe(w, u, boards), v, Scope({u}, true), {})
  {
    var D: set<Uid> := {};
    forall x | x != u
      ensures AgreeAt(w, Unsubscribe(v, u), x, x in D) && AgreeAt(Subscribe(w, u, boards), v, x, x in D)
    {
      assert AgreeAt(w, v, x, x in D);
    }
  }

  /** Halting the same tail in two such worlds gives the same nodes. */
  lemma {:induction false} HaltTailApart(all: seq<Node>, i: nat, n: nat, w: World, v: World, tail: seq<Node>, u: Uid)
    requires |all| == |tail| == n && InvAll(tail, false) && Pairs(tail, tail, false, Scope({u}, true))
    requires Agree(w, v, Scope({u}, true), {})
    requires forall j | i <= j < n :: all[j] == tail[j]
    ensures HaltFrom(all, i, w).kids == HaltFrom(all, i, v).kids
    ensures Agree(HaltFrom(all, i, w).w, HaltFrom(all, i, v).w, Scope({u}, true), {})
    decreases n - i
  {
    hide Agree, Inv, Halt, Pair;
    var E := Scope({u}, true);
    if i < n {
      PairHalt(tail[i], tail[i], false, w, v, E, {});
      var a, b := Halt(all[i], w), Halt(all[i], v);
      HaltTailApart(all, i + 1, n, a.w, b.w, tail, u);
      assert a.node == b.node by { PairExact(a.node, b.node, E); }
    }
  }

  lemma PairExact(k: Node, l: Node, E: Scope)
    requires Pair(k, l, false, E) && E.exact
    ensures k == l
  {
    ExactIsEqual(k, l, E);
  }

  /** When all leaves of the children ahead of the running index are conditions, the fast path is a
      full evaluation. */
  lemma FastTickRefinesFullEval(t: Node, adv: Final, w: World)
    requires Inv(t, true) && t.info.kind == Reactive(adv) && t.status == Running
    requires TakesFastPath(t, w) && KidsApart(t)
    requires forall j | 0 <= j < t.mem.running.value :: OnlyConditions(t.kids[j])
    ensures SameBody(FastTick(t, adv, w), FullEval(t, 0, adv, w), t.info.uid)
  {
    FastTickIsFullEval(t, adv, w);
    forall j | 0 <= j < t.mem.running.value ensures IsGuard(t.kids[j]) { GuardIff(t.kids[j]); }
    RunFromNoSkip(t.kids, 0, |t.kids|, t.mem.running.value, adv, ClearDirty(w, t.info.uid));
  }
}
