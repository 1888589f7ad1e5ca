/** What every tick and halt keeps: IDLE is closed downward, RUNNING is closed upward,
    and the fields a node keeps between ticks agree with the statuses below it. */
module Invariants {
  import opened Worlds
  import opened Engine

  /** Leaves have no child, decorators exactly one. */
  predicate Arity(t: Node) {
    match t.info.kind
    case Leaf(_) => t.kids == []
    case Memory(_) => true
    case Reactive(_) => true
    case Parallel(_, _, _) => true
    case _ => |t.kids| == 1
  }

  /** How a node's own fields agree with its children's statuses.  `strict` adds what
      holds as long as no running child is replaced behind its parent's back. */
  ghost predicate FieldsAgree(t: Node, strict: bool)
    requires Arity(t)
  {
    var on := t.status == Running;
    match t.info.kind
    case Leaf(_) => true
    case Memory(adv) =>
      if !on then t.mem.cursor == 0
      else
        && t.mem.cursor < |t.kids|
        && OnlyRunning(t.kids, t.mem.cursor)
        && (strict ==> t.kids[t.mem.cursor].status == Running && AllBefore(t.kids, t.mem.cursor, adv))
    case Reactive(adv) =>
      if !on then t.mem.running.None?
      else t.mem.running.Some? && Around(t.kids, t.mem.running.value, adv, strict)
    case Parallel(_, _, _) =>
      if !on then forall j | 0 <= j < |t.kids| :: t.kids[j].status == Idle
      else strict ==> exists j | 0 <= j < |t.kids| :: t.kids[j].status == Running
    case Relay(_, _) => on && strict ==> t.kids[0].status == Running
    case Retry(budget) =>
      on ==> t.mem.attempts < budget && (strict ==> !Terminal(t.kids[0].status))
    case Timeout(_) => on ==> t.mem.started.Some? && (strict ==> t.kids[0].status == Running)
    case Rate(_) =>
      && (t.status != Idle ==> t.mem.cache.Some? && t.mem.cache.value.result == t.status)
      && (t.status == Idle && t.mem.cache.Some? ==> t.mem.cache.value.result != Running)
      && (on && strict ==> t.kids[0].status == Running)
  }

  /** No child other than the one at `c` is RUNNING. */
  ghost predicate OnlyRunning(kids: seq<Node>, c: nat) {
    forall j | 0 <= j < |kids| && j != c :: kids[j].status != Running
  }

  ghost predicate AllBefore(kids: seq<Node>, c: nat, s: Status) {
    forall j | 0 <= j < |kids| && j < c :: kids[j].status == s
  }

  ghost predicate IdleAfter(kids: seq<Node>, c: nat) {
    forall j | c < j < |kids| :: kids[j].status == Idle
  }

  ghost predicate NoKidRunning(kids: seq<Node>) {
    forall j | 0 <= j < |kids| :: kids[j].status != Running
  }

  /** What a RUNNING reactive node's children look like around its index `c`. */
  ghost predicate Around(kids: seq<Node>, c: nat, adv: Final, strict: bool) {
    && c < |kids|
    && OnlyRunning(kids, c)
    && (strict ==>
          && kids[c].status == Running
          && AllBefore(kids, c, adv)
          && IdleAfter(kids, c))
  }

  ghost predicate Inv(t: Node, strict: bool) {
    && Arity(t)
    && FieldsAgree(t, strict)
    && InvAll(t.kids, strict)
    && (t.status == Idle ==> forall i | 0 <= i < |t.kids| :: t.kids[i].status == Idle)
    && (t.status != Running ==> forall i | 0 <= i < |t.kids| :: t.kids[i].status != Running)
  }

  ghost predicate InvAll(kids: seq<Node>, strict: bool) {
    forall i | 0 <= i < |kids| :: Inv(kids[i], strict)
  }

  // ----- the closure properties, for the whole subtree ------------------------

  ghost predicate AllIdle(t: Node) {
    t.status == Idle && forall i | 0 <= i < |t.kids| :: AllIdle(t.kids[i])
  }

  ghost predicate NoneRunning(t: Node) {
    t.status != Running && forall i | 0 <= i < |t.kids| :: NoneRunning(t.kids[i])
  }

  lemma {:induction false} IdleIsClosedDownward(t: Node, strict: bool)
    requires Inv(t, strict) && t.status == Idle
    ensures AllIdle(t)
  {
    forall i | 0 <= i < |t.kids| ensures AllIdle(t.kids[i]) {
      IdleIsClosedDownward(t.kids[i], strict);
    }
  }

  lemma {:induction false} RunningIsClosedUpward(t: Node, strict: bool)
    requires Inv(t, strict) && t.status != Running
    ensures NoneRunning(t)
  {
    forall i | 0 <= i < |t.kids| ensures NoneRunning(t.kids[i]) {
      RunningIsClosedUpward(t.kids[i], strict);
    }
  }

  /** A newly built tree satisfies the invariant, and is its own fresh copy. */
  lemma {:induction false} FreshInv(t: Node, strict: bool)
    requires ArityAll(t)
    ensures Inv(Fresh(t), strict) && AllIdle(Fresh(t))
  {
    forall i | 0 <= i < |t.kids| ensures Inv(Fresh(t.kids[i]), strict) && AllIdle(Fresh(t.kids[i])) {
      FreshInv(t.kids[i], strict);
    }
  }

  ghost predicate ArityAll(t: Node) {
    Arity(t) && forall i | 0 <= i < |t.kids| :: ArityAll(t.kids[i])
  }

  // ----- halt -----------------------------------------------------------------

  lemma {:induction false} HaltInv(t: Node, w: World, strict: bool)
    requires Inv(t, strict)
    ensures var h := Halt(t, w).node;
      Inv(h, strict) && h.status == Idle && h.info == t.info && |h.kids| == |t.kids|
    decreases t, 0
  {
    var w1 := if t.status == Running then Tell(OnHaltWorld(t, w), Stopped(t.info.uid)) else w;
    if t.info.kind.Parallel? {
      ClearKidsInv(t.kids, w1, strict);
    } else {
      HaltFromInv(t.kids, 0, w1, strict);
    }
  }

  lemma {:induction false} HaltFromInv(kids: seq<Node>, i: nat, w: World, strict: bool)
    requires InvAll(kids, strict)
    ensures var r := HaltFrom(kids, i, w);
      && InvAll(r.kids, strict)
      && forall j | i <= j < |kids| :: r.kids[j].status == Idle
    decreases kids, |kids| - i
  {
    if i < |kids| {
      HaltInv(kids[i], w, strict);
      HaltFromInv(kids, i + 1, Halt(kids[i], w).w, strict);
    }
  }

  lemma {:induction false} HaltRunningInv(kids: seq<Node>, i: nat, w: World, strict: bool)
    requires InvAll(kids, strict)
    ensures var r := HaltRunning(kids, i, w);
      && InvAll(r.kids, strict)
      && forall j | i <= j < |kids| :: r.kids[j].status != Running
    decreases kids, |kids| - i
  {
    if i < |kids| {
      if kids[i].status == Running {
        HaltInv(kids[i], w, strict);
        HaltRunningInv(kids, i + 1, Halt(kids[i], w).w, strict);
      } else {
        HaltRunningInv(kids, i + 1, w, strict);
      }
    }
  }

  lemma {:induction false} ResetInv(t: Node, w: World, strict: bool)
    requires Inv(t, strict) && t.status != Running
    ensures var h := Reset(t, w).node;
      Inv(h, strict) && h.status == Idle && h.info == t.info && |h.kids| == |t.kids|
    decreases t, 0
  {
    var w2 := if t.info.kind.Reactive? then SetDirty(w, t.info.uid) else w;
    ResetFromInv(t.kids, 0, w2, strict);
  }

  lemma {:induction false} ResetFromInv(kids: seq<Node>, i: nat, w: World, strict: bool)
    requires InvAll(kids, strict)
    requires forall j | i <= j < |kids| :: kids[j].status != Running
    ensures var r := ResetFrom(kids, i, w);
      && InvAll(r.kids, strict)
      && forall j | i <= j < |kids| :: r.kids[j].status == Idle
    decreases kids, |kids| - i
  {
    if i < |kids| {
      ResetInv(kids[i], w, strict);
      ResetFromInv(kids, i + 1, Reset(kids[i], w).w, strict);
    }
  }

  lemma {:induction false} ResetTerminalInv(kids: seq<Node>, i: nat, w: World, strict: bool)
    requires InvAll(kids, strict)
    requires forall j | i <= j < |kids| :: kids[j].status != Running
    ensures var r := ResetTerminal(kids, i, w);
      && InvAll(r.kids, strict)
      && forall j | i <= j < |kids| :: r.kids[j].status == Idle
    decreases |kids| - i
  {
    if i < |kids| {
      if Terminal(kids[i].status) {
        ResetInv(kids[i], w, strict);
        ResetTerminalInv(kids, i + 1, Reset(kids[i], w).w, strict);
      } else {
        ResetTerminalInv(kids, i + 1, w, strict);
      }
    }
  }

  /** A Parallel's clean-up, in `halt()` and in `_finish()`, leaves every child IDLE. */
  lemma ClearKidsInv(kids: seq<Node>, w: World, strict: bool)
    requires InvAll(kids, strict)
    ensures var h := HaltRunning(kids, 0, w); var r := ResetTerminal(h.kids, 0, h.w);
      && InvAll(r.kids, strict)
      && forall j | 0 <= j < |kids| :: r.kids[j].status == Idle
    decreases kids, |kids| + 1
  {
    HaltRunningInv(kids, 0, w, strict);
    var h := HaltRunning(kids, 0, w);
    ResetTerminalInv(h.kids, 0, h.w, strict);
  }

  // ----- tick -----------------------------------------------------------------

  /** A finished `tick()` body keeps the node's identity, and storing its result keeps the invariant. */
  ghost predicate BodyInv(t: Node, b: Body, strict: bool) {
    b.node.info == t.info && |b.node.kids| == |t.kids| && Inv(b.node.(status := b.result), strict)
  }

  /** After every tick the whole subtree satisfies the invariant again. */
  lemma {:induction false} TickInv(t: Node, w: World, strict: bool)
    requires Inv(t, strict)
    ensures var s := Tick(t, w).node;
      Inv(s, strict) && s.info == t.info && |s.kids| == |t.kids|
    decreases t, 5
  {
    TickBodyInv(t, w, strict);
  }

  lemma {:induction false} TickBodyInv(t: Node, w: World, strict: bool)
    requires Inv(t, strict)
    ensures BodyInv(t, TickBody(t, w), strict)
    decreases t, 4
  {
    match t.info.kind {
      case Leaf(_) =>
      case Memory(adv) => TickMemoryInv(t, adv, w, strict);
      case Reactive(adv) => TickReactiveInv(t, adv, w, strict);
      case Parallel(_, _, _) => TickParallelInv(t, w, strict);
      case _ => TickDecoratorInv(t, w, strict);
    }
  }

  lemma {:induction false} TickDecoratorInv(t: Node, w: World, strict: bool)
    requires Inv(t, strict) && t.kids != []
    requires !t.info.kind.Memory? && !t.info.kind.Reactive? && !t.info.kind.Parallel?
    ensures BodyInv(t, TickDecorator(t, w), strict)
    decreases t, 3
  {
    match t.info.kind {
      case Relay(_, _) => TickInv(t.kids[0], w, strict);
      case Retry(budget) => TickRetryInv(t, budget, w, strict);
      case Timeout(duration) => TickTimeoutInv(t, duration, w, strict);
      case Rate(period) => TickRateInv(t, period, w, strict);
    }
  }

  lemma {:induction false} TickRetryInv(t: Node, budget: int, w: World, strict: bool)
    requires Inv(t, strict) && t.info.kind == Retry(budget)
    ensures BodyInv(t, TickRetry(t, budget, w), strict)
    decreases t, 2
  {
    TickInv(t.kids[0], w, strict);
    var s := Tick(t.kids[0], w);
    HaltInv(s.node, s.w, strict);
    hide Tick, Halt, Inv, BodyInv;
    var b := TickRetry(t, budget, w);
    if budget <= 0 { RetryKeeps(t, b, t.kids[0], strict); } else { RetryKeeps(t, b, b.node.kids[0], strict); }
  }

  /** A Retry after its child's turn: RUNNING only with an attempt left and an unfinished child. */
  lemma RetryKeeps(t: Node, b: Body, k: Node, strict: bool)
    requires t.info.kind.Retry? && |t.kids| == 1 && b.node.info == t.info && b.node.kids == [k]
    requires Inv(k, strict)
    requires b.result == Running ==> b.node.mem.attempts < t.info.kind.budget && (strict ==> !Terminal(k.status))
    requires b.result != Running ==> k.status != Running
    ensures BodyInv(t, b, strict)
  {
    hide Inv;
    var n := b.node.(status := b.result);
    assert InvAll(n.kids, strict);
    RetryUnfold(n, strict);
  }

  lemma RetryUnfold(n: Node, strict: bool)
    requires Arity(n) && FieldsAgree(n, strict) && InvAll(n.kids, strict) && n.status != Idle
    requires n.status != Running ==> NoKidRunning(n.kids)
    ensures Inv(n, strict)
  {}

  lemma {:induction false} TickTimeoutInv(t: Node, duration: real, w: World, strict: bool)
    requires Inv(t, strict) && t.info.kind == Timeout(duration)
    ensures BodyInv(t, TickTimeout(t, duration, w), strict)
    decreases t, 2
  {
    var w1 := ReadClock(w, t.info.uid);
    HaltInv(t.kids[0], w1, strict);
    TickInv(t.kids[0], w1, strict);
  }

  lemma {:induction false} TickRateInv(t: Node, period: real, w: World, strict: bool)
    requires Inv(t, strict) && t.info.kind == Rate(period)
    ensures BodyInv(t, TickRate(t, period, w), strict)
    decreases t, 2
  {
    TickInv(t.kids[0], ReadClock(w, t.info.uid), strict);
  }

  lemma {:induction false} RunFromInv(kids: seq<Node>, i: nat, n: nat, skip: nat, adv: Final, w: World, strict: bool)
    requires n <= |kids| && InvAll(kids, strict)
    ensures InvAll(RunFrom(kids, i, n, skip, adv, w).kids, strict)
    decreases kids, n - i
  {
    hide Tick, IsGuard, Inv;
    if i < n {
      if i < skip && !IsGuard(kids[i]) {
        RunFromInv(kids, i + 1, n, skip, adv, w, strict);
      } else {
        TickInv(kids[i], w, strict);
        var s := Tick(kids[i], w);
        if s.node.status == adv {
          RunFromInv(kids, i + 1, n, skip, adv, s.w, strict);
        }
      }
    }
  }

  /** Every child the run went past answered `adv`, or was skipped and left alone. */
  lemma {:induction false} RunFromPassed(kids: seq<Node>, i: nat, n: nat, skip: nat, adv: Final, w: World)
    requires n <= |kids|
    ensures var r := RunFrom(kids, i, n, skip, adv, w);
      forall j | i <= j < r.at && j < |kids| :: r.kids[j].status == adv || (j < skip && r.kids[j] == kids[j])
    decreases n - i
  {
    hide Tick, IsGuard;
    if i < n {
      if i < skip && !IsGuard(kids[i]) {
        RunFromPassed(kids, i + 1, n, skip, adv, w);
      } else {
        var s := Tick(kids[i], w);
        if s.node.status == adv {
          RunFromPassed(kids, i + 1, n, skip, adv, s.w);
        }
      }
    }
  }

  lemma {:induction false} SweepInv(kids: seq<Node>, i: nat, w: World, strict: bool)
    requires InvAll(kids, strict)
    ensures var r := Sweep(kids, i, w);
      && InvAll(r.kids, strict)
      && (forall j | i <= j < |kids| :: r.kids[j].status != Idle)
    decreases kids, |kids| - i
  {
    if i < |kids| {
      if Terminal(kids[i].status) {
        SweepInv(kids, i + 1, w, strict);
      } else {
        TickInv(kids[i], w, strict);
        SweepInv(kids, i + 1, Tick(kids[i], w).w, strict);
      }
    }
  }

  lemma {:induction false} TickMemoryInv(t: Node, adv: Final, w: World, strict: bool)
    requires Inv(t, strict) && t.info.kind == Memory(adv)
    ensures BodyInv(t, TickMemory(t, adv, w), strict)
    decreases t, 3
  {
    hide Tick, IsGuard, RunFrom;
    RunFromInv(t.kids, t.mem.cursor, |t.kids|, 0, adv, w, strict);
    RunFromPassed(t.kids, t.mem.cursor, |t.kids|, 0, adv, w);
    var r := RunFrom(t.kids, t.mem.cursor, |t.kids|, 0, adv, w);
    assert OnlyRunning(t.kids, t.mem.cursor) && (strict ==> AllBefore(t.kids, t.mem.cursor, adv));
    hide Inv, HaltFrom, BodyInv;
    if r.result == Running {
      MemoryOn(t, r, adv, strict);
    } else {
      HaltFromInv(r.kids, 0, r.w, strict);
      var b := TickMemory(t, adv, w);
      MemoryOff(t, b.node.kids, b.result, b.w, strict);
    }
  }

  // The two shapes a Sequence or Fallback is left in by a tick.

  lemma MemoryOn(t: Node, r: Run, adv: Final, strict: bool)
    requires t.info.kind == Memory(adv) && |r.kids| == |t.kids| && r.at < |t.kids|
    requires InvAll(r.kids, strict) && r.kids[r.at].status == Running && OnlyRunning(r.kids, r.at)
    requires strict ==> AllBefore(r.kids, r.at, adv)
    ensures BodyInv(t, Body(t.(kids := r.kids, mem := t.mem.(cursor := r.at)), Running, r.w), strict)
  {}

  lemma MemoryOff(t: Node, kids: seq<Node>, result: Final, w: World, strict: bool)
    requires t.info.kind.Memory? && |kids| == |t.kids| && InvAll(kids, strict) && NoKidRunning(kids)
    ensures BodyInv(t, Body(t.(kids := kids, mem := t.mem.(cursor := 0)), result, w), strict)
  {}

  lemma {:induction false} TickReactiveInv(t: Node, adv: Final, w: World, strict: bool)
    requires Inv(t, strict) && t.info.kind == Reactive(adv)
    ensures BodyInv(t, TickReactive(t, adv, w), strict)
    decreases t, 3
  {
    if TakesFastPath(t, w) {
      FastTickInv(t, adv, w, strict);
    } else {
      FullEvalInv(t, adv, w, strict);
    }
  }

  // The two shapes a reactive node is left in by a tick.

  lemma ReactiveOn(t: Node, kids: seq<Node>, c: nat, adv: Final, w: World, strict: bool)
    requires t.info.kind == Reactive(adv) && |kids| == |t.kids|
    requires InvAll(kids, strict) && Around(kids, c, adv, strict)
    ensures BodyInv(t, Body(t.(kids := kids, mem := t.mem.(running := Some(c))), Running, w), strict)
  {}

  lemma ReactiveOff(t: Node, kids: seq<Node>, result: Final, w: World, strict: bool)
    requires t.info.kind.Reactive? && |kids| == |t.kids|
    requires InvAll(kids, strict) && NoKidRunning(kids)
    ensures BodyInv(t, Body(t.(kids := kids, mem := t.mem.(running := None)), result, w), strict)
  {}

  /** A run of a reactive node over its children from `i` on has ended with `r`, its children
      being `all`; those before `i` had settled already.  What lies after the stop is halted. */
  lemma {:induction false} HaltAfterRunInv(all: seq<Node>, i: nat, n: nat, skip: nat, adv: Final, r: Run, strict: bool)
    requires i <= n <= |all| == |r.kids| && InvAll(all, strict)
    requires r.result == adv ==> r.at == n
    requires r.result != adv ==> i <= r.at < n && all[r.at].status == r.result
    requires forall j | i <= j < r.at :: all[j].status == adv || (j < skip && all[j].status != Running)
    requires strict ==> forall j | i <= j < r.at && j < skip :: all[j].status == adv
    requires forall j | 0 <= j < i :: all[j].status != Running
    requires strict ==> AllBefore(all, i, adv)
    ensures var h := HaltFrom(all, r.at + 1, r.w).kids;
      && InvAll(h, strict)
      && (r.result == Running ==> Around(h, r.at, adv, strict))
      && (r.result != Running && (n == |all| || r.result != adv) ==> NoKidRunning(h))
      && (r.result == adv ==>
            && (forall j | 0 <= j < n :: all[j].status != Running)
            && (strict ==> AllBefore(all, n, adv)))
  {
    hide Inv, InvAll;
    HaltFromInv(all, r.at + 1, r.w, strict);
  }

  lemma {:induction false} FullEvalInv(t: Node, adv: Final, w: World, strict: bool)
    requires Inv(t, strict) && t.info.kind == Reactive(adv)
    ensures BodyInv(t, FullEval(t, 0, adv, w), strict)
    decreases t, 2
  {
    assert InvAll(t.kids, strict);
    hide Inv, BodyInv, Tick, IsGuard, InvAll, FullEnd;
    var w1 := ClearDirty(w, t.info.uid);
    var r := RunFrom(t.kids, 0, |t.kids|, 0, adv, w1);
    RunFromInv(t.kids, 0, |t.kids|, 0, adv, w1, strict);
    RunFromPassed(t.kids, 0, |t.kids|, 0, adv, w1);
    FullEndInv(t, r, adv, strict);
  }

  /** The run over all children has ended with `r`. */
  lemma {:induction false} FullEndInv(t: Node, r: Run, adv: Final, strict: bool)
    requires t.info.kind == Reactive(adv) && |t.kids| == |r.kids| && InvAll(r.kids, strict)
    requires r.result == adv ==> r.at == |r.kids|
    requires r.result != adv ==> r.at < |r.kids| && r.kids[r.at].status == r.result
    requires forall j | 0 <= j < r.at && j < |r.kids| :: r.kids[j].status == adv
    ensures BodyInv(t, FullEnd(t, r, adv), strict)
  {
    hide Inv, BodyInv, KidBoards, Around, InvAll, HaltFrom, Subscribe, Unsubscribe;
    HaltAfterRunInv(r.kids, 0, |t.kids|, 0, adv, r, strict);
    hide NoKidRunning, AllBefore;
    var b := FullEnd(t, r, adv);
    if r.result == Running {
      ReactiveOn(t, b.node.kids, r.at, adv, b.w, strict);
    } else {
      ReactiveOff(t, b.node.kids, r.result, b.w, strict);
    }
  }

  /** The children of a node on its fast path. */
  lemma AroundIndex(t: Node, adv: Final, strict: bool)
    requires Inv(t, strict) && t.info.kind == Reactive(adv)
    requires t.mem.running.Some? && t.mem.running.value < |t.kids|
    ensures var idx := t.mem.running.value;
      && InvAll(t.kids, strict) && OnlyRunning(t.kids, idx)
      && (strict ==> AllBefore(t.kids, idx, adv) && IdleAfter(t.kids, idx))
  {}

  lemma {:induction false} FastTickInv(t: Node, adv: Final, w: World, strict: bool)
    requires Inv(t, strict) && t.info.kind == Reactive(adv)
    requires t.mem.running.Some? && t.mem.running.value < |t.kids|
    ensures BodyInv(t, FastTick(t, adv, w), strict)
    decreases t, 2
  {
    var idx := t.mem.running.value;
    AroundIndex(t, adv, strict);
    hide Inv, BodyInv, Tick, IsGuard, KidBoards, FastRest, InvAll, Around, RunFrom, HaltFrom, FieldsAgree;
    var g := RunFrom(t.kids, 0, idx, idx, adv, w);
    RunFromInv(t.kids, 0, idx, idx, adv, w, strict);
    RunFromPassed(t.kids, 0, idx, idx, adv, w);
    HaltAfterRunInv(g.kids, 0, idx, idx, adv, g, strict);
    var b := FastTick(t, adv, w);
    if g.result == Running {
      ReactiveOn(t, b.node.kids, g.at, adv, b.w, strict);
    } else if g.result != adv {
      ReactiveOff(t, b.node.kids, g.result, b.w, strict);
    } else {
      FastChildInv(t, g.kids, idx, adv, g.w, strict);
    }
  }

  /** The guards ahead of `idx` still hold, and the running child is ticked. */
  lemma {:induction false} FastChildInv(t: Node, kids: seq<Node>, idx: nat, adv: Final, w: World, strict: bool)
    requires Inv(t, strict) && t.info.kind == Reactive(adv)
    requires |kids| == |t.kids| && idx < |t.kids| && InvAll(kids, strict)
    requires forall j | idx < j < |kids| :: kids[j] == t.kids[j]
    requires OnlyRunning(kids, idx) && (strict ==> AllBefore(kids, idx, adv) && IdleAfter(kids, idx))
    ensures var s := Tick(t.kids[idx], w); var kids1 := kids[idx := s.node];
      if s.node.status == Running
      then BodyInv(t, Body(t.(kids := kids1, mem := t.mem.(running := Some(idx))), Running, s.w), strict)
      else BodyInv(t, FastRest(t, kids1, idx, s.node.status, adv, Unsubscribe(s.w, t.info.uid)), strict)
    decreases t, 2, 0
  {
    assert InvAll(t.kids, strict);
    hide FastRest, BodyInv, Tick, FieldsAgree;
    TickInv(t.kids[idx], w, strict);
    var s := Tick(t.kids[idx], w);
    var kids1 := kids[idx := s.node];
    assert InvAll(kids1, strict) && OnlyRunning(kids1, idx);
    assert strict ==> AllBefore(kids1, idx, adv) && IdleAfter(kids1, idx);
    if s.node.status == Running {
      ReactiveOn(t, kids1, idx, adv, s.w, strict);
    } else {
      FastRestInv(t, kids1, idx, s.node.status, adv, Unsubscribe(s.w, t.info.uid), strict);
    }
  }

  lemma {:induction false} FastRestInv(t: Node, kids: seq<Node>, idx: nat, result: Final, adv: Final, w: World,
        strict: bool)
    requires Inv(t, strict) && t.info.kind == Reactive(adv)
    requires |kids| == |t.kids| && idx < |t.kids|
    requires forall j | idx < j < |kids| :: kids[j] == t.kids[j]
    requires InvAll(kids, strict) && kids[idx].status == result && OnlyRunning(kids, idx)
    requires strict ==> AllBefore(kids, idx, adv)
    ensures BodyInv(t, FastRest(t, kids, idx, result, adv, w), strict)
    decreases t, 1
  {
    assert InvAll(t.kids, strict);
    hide Inv, BodyInv, Tick, IsGuard, KidBoards, Around, RunFrom, HaltFrom, InvAll, RestEnd;
    var b := FastRest(t, kids, idx, result, adv, w);
    if result != adv {
      HaltFromInv(kids, idx + 1, w, strict);
      ReactiveOff(t, b.node.kids, result, b.w, strict);
    } else {
      var r := RunFrom(t.kids, idx + 1, |t.kids|, 0, adv, w);
      RunFromInv(t.kids, idx + 1, |t.kids|, 0, adv, w, strict);
      RunFromPassed(t.kids, idx + 1, |t.kids|, 0, adv, w);
      RestEndInv(t, kids, idx, r, adv, strict);
    }
  }

  /** The run over the remaining children has ended with `r`. */
  lemma {:induction false} RestEndInv(t: Node, kids: seq<Node>, idx: nat, r: Run, adv: Final, strict: bool)
    requires t.info.kind == Reactive(adv) && idx < |t.kids| == |kids| == |r.kids|
    requires InvAll(kids, strict) && kids[idx].status == adv && OnlyRunning(kids, idx)
    requires strict ==> AllBefore(kids, idx, adv)
    requires InvAll(r.kids, strict)
    requires r.result == adv ==> r.at == |kids|
    requires r.result != adv ==> idx < r.at < |kids| && r.kids[r.at].status == r.result
    requires forall j | idx < j < r.at && j < |kids| :: r.kids[j].status == adv
    ensures BodyInv(t, RestEnd(t, r.(kids := kids[..idx + 1] + r.kids[idx + 1..]), adv), strict)
  {
    hide Inv, InvAll, BodyInv, RestEnd;
    SpliceInv(kids, r.kids, idx + 1, strict);
    SplicedEndInv(t, kids[..idx + 1] + r.kids[idx + 1..], idx + 1, r, adv, strict);
  }

  lemma {:induction false} SplicedEndInv(t: Node, all: seq<Node>, i: nat, r: Run, adv: Final, strict: bool)
    requires t.info.kind == Reactive(adv) && i <= |t.kids| == |all| == |r.kids| && InvAll(all, strict)
    requires r.result == adv ==> r.at == |all|
    requires r.result != adv ==> i <= r.at < |all| && all[r.at].status == r.result
    requires forall j | i <= j < r.at && j < |all| :: all[j].status == adv
    requires forall j | 0 <= j < i :: all[j].status != Running
    requires strict ==> AllBefore(all, i, adv)
    ensures BodyInv(t, RestEnd(t, r.(kids := all), adv), strict)
  {
    hide Inv, InvAll, BodyInv, HaltFrom, Around, KidBoards, Subscribe;
    HaltAfterRunInv(all, i, |t.kids|, 0, adv, r, strict);
    var h := HaltFrom(all, r.at + 1, r.w);
    if r.result == Running {
      ReactiveOn(t, h.kids, r.at, adv, Subscribe(h.w, t.info.uid, KidBoards(h.kids, 0)), strict);
    } else if r.result == adv {
      ReactiveOff(t, all, adv, r.w, strict);
    } else {
      ReactiveOff(t, h.kids, r.result, h.w, strict);
    }
  }

  lemma SpliceInv(front: seq<Node>, back: seq<Node>, i: nat, strict: bool)
    requires |front| == |back| && i <= |front| && InvAll(front, strict) && InvAll(back, strict)
    ensures var all := front[..i] + back[i..];
      InvAll(all, strict) && forall j | 0 <= j < |front| :: all[j] == if j < i then front[j] else back[j]
  {
    hide Inv;
  }

  lemma {:induction false} TickParallelInv(t: Node, w: World, strict: bool)
    requires Inv(t, strict) && t.info.kind.Parallel?
    ensures BodyInv(t, TickParallel(t, w), strict)
    decreases t, 3
  {
    hide Sweep, HaltRunning, ResetTerminal, Count;
    if |t.kids| > 0 {
      SweepInv(t.kids, 0, w, strict);
      var s := Sweep(t.kids, 0, w);
      ClearKidsInv(s.kids, s.w, strict);
      if forall j | 0 <= j < |s.kids| :: s.kids[j].status != Running {
        CountAll(s.kids, |s.kids|);
      }
    }
  }

  lemma {:induction false} CountAll(kids: seq<Node>, n: nat)
    requires n <= |kids|
    requires forall j | 0 <= j < n :: Terminal(kids[j].status)
    ensures Count(kids, n, Success) + Count(kids, n, Failure) == n
  {
    if n > 0 { CountAll(kids, n - 1); }
  }
}
