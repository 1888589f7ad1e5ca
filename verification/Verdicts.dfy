/** What a Sequence, a Fallback and the reactive pair decide, and from which answers. */
module Verdicts {
  import opened Worlds
  import opened Engine
  import opened Invariants
  import opened Activations
  import opened FastPath

  // ----- Sequence and Fallback --------------------------------------------------------------

  /** `kids` during or after an activation that began with `start`: all went through, or it stands
      at a child, those behind it untouched, or it was stopped and everything is IDLE. */
  ghost predicate MemoryStands(start: seq<Node>, kids: seq<Node>, cursor: nat, adv: Final, status: Status) {
    && |kids| == |start|
    && if status == adv then cursor == 0 && forall j | 0 <= j < |kids| :: kids[j].status == adv
       else if status == Running then
         && cursor < |kids| && kids[cursor].status == Running
         && (forall j | 0 <= j < cursor :: kids[j].status == adv)
         && (forall j | cursor < j < |kids| :: kids[j] == start[j])
       else cursor == 0 && kids != [] && forall j | 0 <= j < |kids| :: AllIdle(kids[j])
  }

  lemma MemoryStep(t: Node, adv: Final, w: World)
    requires t.info.kind == Memory(adv)
    ensures var b := TickMemory(t, adv, w);
      Tick(t, w) == Step(b.node.(status := b.result), Tell(b.w, Ticked(t.info.uid, b.result)))
  {
    assert TickBody(t, w) == TickMemory(t, adv, w);
  }

  /** One tick from child `cursor` on: a child is ticked only when all before it have answered
      `adv`, and the children before the cursor are not ticked again. */
  lemma MemoryTick(t: Node, start: seq<Node>, adv: Final, w: World)
    requires Inv(t, true) && t.info.kind == Memory(adv) && |start| == |t.kids| && t.mem.cursor <= |t.kids|
    requires forall j | 0 <= j < t.mem.cursor :: t.kids[j].status == adv
    requires forall j | t.mem.cursor < j < |t.kids| :: t.kids[j] == start[j]
    ensures var b := TickMemory(t, adv, w);
      && MemoryStands(start, b.node.kids, b.node.mem.cursor, adv, b.result)
      && (b.result == adv || b.result == Running ==> forall j | 0 <= j < t.mem.cursor :: b.node.kids[j] == t.kids[j])
  {
    assert InvAll(t.kids, true);
    hide Inv, InvAll, Tick, IsGuard, RunFrom, HaltFrom, AllIdle;
    RunFromPassed(t.kids, t.mem.cursor, |t.kids|, 0, adv, w);
    RunFromInv(t.kids, t.mem.cursor, |t.kids|, 0, adv, w, true);
    var r := RunFrom(t.kids, t.mem.cursor, |t.kids|, 0, adv, w);
    if r.result != adv && r.result != Running { HaltedAllIdle(r.kids, 0, r.w); }
  }

  lemma HaltedAllIdle(kids: seq<Node>, i: nat, w: World)
    requires InvAll(kids, true)
    ensures forall j | i <= j < |kids| :: AllIdle(HaltFrom(kids, i, w).kids[j])
  {
    HaltFromInv(kids, i, w, true);
    var h := HaltFrom(kids, i, w).kids;
    forall j | i <= j < |kids| ensures AllIdle(h[j]) { IdleIsClosedDownward(h[j], true); }
  }

  /** Over an activation, from its first tick to its last: the node returns `adv` when every child
      has, the other result at the first child that does, and then everything below it is IDLE;
      until then it stands at its first unfinished child, and those behind it are as they were. */
  lemma {:induction false} MemoryActivation(t: Node, ws: seq<World>, adv: Final)
    requires Activation(t, ws) && t.info.kind == Memory(adv)
    ensures var s := After(t, ws); MemoryStands(t.kids, s.kids, s.mem.cursor, adv, s.status)
    decreases |ws|
  {
    var before, w := ws[..|ws| - 1], ws[|ws| - 1];
    var p := After(t, before);
    AfterInv(t, before);
    if |ws| > 1 {
      ActivationPrefix(t, ws);
      MemoryActivation(t, before, adv);
    }
    MemoryStep(p, adv, w);
    MemoryTick(p, t.kids, adv, w);
  }

  // ----- the reactive pair -------------------------------------------------------------------------

  /** Child `at` answered `result`, all before it `adv`, and all after it are wholly IDLE. */
  ghost predicate StoppedAt(kids: seq<Node>, at: nat, adv: Final, result: Result) {
    && at < |kids| && kids[at].status == result
    && (forall j | 0 <= j < at :: kids[j].status == adv)
    && (forall j | at < j < |kids| :: AllIdle(kids[j]))
  }

  ghost predicate ReactiveStands(kids: seq<Node>, adv: Final, result: Result) {
    if result == adv then forall j | 0 <= j < |kids| :: kids[j].status == adv
    else exists at :: StoppedAt(kids, at, adv, result)
  }

  lemma FullEvalVerdict(t: Node, skip: nat, adv: Final, w: World)
    requires Inv(t, true) && t.info.kind == Reactive(adv)
    requires forall j | 0 <= j < skip && j < |t.kids| :: t.kids[j].status == adv
    ensures var b := FullEval(t, skip, adv, w); ReactiveStands(b.node.kids, adv, b.result)
  {
    assert InvAll(t.kids, true);
    hide Inv, InvAll, Tick, IsGuard, RunFrom, FullEnd, ReactiveStands;
    var w1 := ClearDirty(w, t.info.uid);
    RunFromPassed(t.kids, 0, |t.kids|, skip, adv, w1);
    RunFromInv(t.kids, 0, |t.kids|, skip, adv, w1, true);
    FullEndVerdict(t, RunFrom(t.kids, 0, |t.kids|, skip, adv, w1), adv);
  }

  /** The run over the children passed children that stand at `adv`, and stopped at `r.at`. */
  lemma FullEndVerdict(t: Node, r: Run, adv: Final)
    requires InvAll(r.kids, true) && forall j | 0 <= j < r.at && j < |r.kids| :: r.kids[j].status == adv
    requires if r.result == adv then r.at == |r.kids| else r.at < |r.kids| && r.kids[r.at].status == r.result
    ensures var b := FullEnd(t, r, adv); ReactiveStands(b.node.kids, adv, b.result)
  {
    hide Inv, InvAll, HaltFrom, AllIdle, KidBoards, Subscribe, Unsubscribe;
    HaltedAllIdle(r.kids, r.at + 1, r.w);
    if r.result != adv { assert StoppedAt(FullEnd(t, r, adv).node.kids, r.at, adv, r.result); }
  }

  /** Every tick of a reactive node, on the fast path or not, leaves the picture of a full
      evaluation: it returns `adv` when every child stands at `adv`; else it stands at the first
      child that does not, with everything after it IDLE. */
  lemma ReactiveVerdict(t: Node, adv: Final, w: World)
    requires Inv(t, true) && t.info.kind == Reactive(adv) && KidsApart(t)
    ensures var b := TickReactive(t, adv, w); ReactiveStands(b.node.kids, adv, b.result)
  {
    if TakesFastPath(t, w) {
      FullEvalVerdict(t, t.mem.running.value, adv, w);
      FastTickIsFullEval(t, adv, w);
    } else {
      FullEvalVerdict(t, 0, adv, w);
    }
  }
}
