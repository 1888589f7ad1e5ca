/** Each recursion over a child list is a loop: one step on child `i`, then the rest of the
    recursion on the updated list. */
module Stepwise {
  import opened Worlds
  import opened Engine

  lemma {:induction false} HaltFromLocal(ks: seq<Node>, i: nat, at: nat, x: Node, w: World)
    requires at < i && at < |ks|
    ensures HaltFrom(ks[at := x], i, w) == (var r := HaltFrom(ks, i, w); StepAll(r.kids[at := x], r.w))
    decreases |ks| - i
  {
    hide Halt;
    if i < |ks| {
      HaltFromLocal(ks, i + 1, at, x, Halt(ks[i], w).w);
      Commute(HaltFrom(ks, i + 1, Halt(ks[i], w).w).kids, at, x, i, Halt(ks[i], w).node);
    }
  }

  lemma Commute(ks: seq<Node>, a: nat, x: Node, b: nat, y: Node)
    requires a < |ks| && b < |ks| && a != b
    ensures ks[a := x][b := y] == ks[b := y][a := x]
  {}

  lemma HaltFromStep(ks: seq<Node>, i: nat, w: World)
    requires i < |ks|
    ensures var h := Halt(ks[i], w); HaltFrom(ks, i, w) == HaltFrom(ks[i := h.node], i + 1, h.w)
  {
    HaltFromLocal(ks, i + 1, i, Halt(ks[i], w).node, Halt(ks[i], w).w);
  }

  lemma {:induction false} HaltRunningLocal(ks: seq<Node>, i: nat, at: nat, x: Node, w: World)
    requires at < i && at < |ks|
    ensures HaltRunning(ks[at := x], i, w) == (var r := HaltRunning(ks, i, w); StepAll(r.kids[at := x], r.w))
    decreases |ks| - i
  {
    hide Halt;
    if i < |ks| {
      if ks[i].status == Running {
        HaltRunningLocal(ks, i + 1, at, x, Halt(ks[i], w).w);
        Commute(HaltRunning(ks, i + 1, Halt(ks[i], w).w).kids, at, x, i, Halt(ks[i], w).node);
      } else {
        HaltRunningLocal(ks, i + 1, at, x, w);
      }
    }
  }

  lemma HaltRunningStep(ks: seq<Node>, i: nat, w: World)
    requires i < |ks| && ks[i].status == Running
    ensures var h := Halt(ks[i], w); HaltRunning(ks, i, w) == HaltRunning(ks[i := h.node], i + 1, h.w)
  {
    HaltRunningLocal(ks, i + 1, i, Halt(ks[i], w).node, Halt(ks[i], w).w);
  }

  lemma {:induction false} ResetFromLocal(ks: seq<Node>, i: nat, at: nat, x: Node, w: World)
    requires at < i && at < |ks|
    ensures ResetFrom(ks[at := x], i, w) == (var r := ResetFrom(ks, i, w); StepAll(r.kids[at := x], r.w))
    decreases |ks| - i
  {
    hide Reset;
    if i < |ks| {
      ResetFromLocal(ks, i + 1, at, x, Reset(ks[i], w).w);
      Commute(ResetFrom(ks, i + 1, Reset(ks[i], w).w).kids, at, x, i, Reset(ks[i], w).node);
    }
  }

  lemma ResetFromStep(ks: seq<Node>, i: nat, w: World)
    requires i < |ks|
    ensures var h := Reset(ks[i], w); ResetFrom(ks, i, w) == ResetFrom(ks[i := h.node], i + 1, h.w)
  {
    ResetFromLocal(ks, i + 1, i, Reset(ks[i], w).node, Reset(ks[i], w).w);
  }

  lemma {:induction false} ResetTerminalLocal(ks: seq<Node>, i: nat, at: nat, x: Node, w: World)
    requires at < i && at < |ks|
    ensures ResetTerminal(ks[at := x], i, w) == (var r := ResetTerminal(ks, i, w); StepAll(r.kids[at := x], r.w))
    decreases |ks| - i
  {
    hide Reset;
    if i < |ks| {
      if Terminal(ks[i].status) {
        ResetTerminalLocal(ks, i + 1, at, x, Reset(ks[i], w).w);
        Commute(ResetTerminal(ks, i + 1, Reset(ks[i], w).w).kids, at, x, i, Reset(ks[i], w).node);
      } else {
        ResetTerminalLocal(ks, i + 1, at, x, w);
      }
    }
  }

  lemma ResetTerminalStep(ks: seq<Node>, i: nat, w: World)
    requires i < |ks| && Terminal(ks[i].status)
    ensures var h := Reset(ks[i], w); ResetTerminal(ks, i, w) == ResetTerminal(ks[i := h.node], i + 1, h.w)
  {
    ResetTerminalLocal(ks, i + 1, i, Reset(ks[i], w).node, Reset(ks[i], w).w);
  }

  lemma {:induction false} SweepLocal(ks: seq<Node>, i: nat, at: nat, x: Node, w: World)
    requires at < i && at < |ks|
    ensures Sweep(ks[at := x], i, w) == (var r := Sweep(ks, i, w); StepAll(r.kids[at := x], r.w))
    decreases |ks| - i
  {
    hide Tick;
    if i < |ks| {
      if Terminal(ks[i].status) {
        SweepLocal(ks, i + 1, at, x, w);
      } else {
        SweepLocal(ks, i + 1, at, x, Tick(ks[i], w).w);
        Commute(Sweep(ks, i + 1, Tick(ks[i], w).w).kids, at, x, i, Tick(ks[i], w).node);
      }
    }
  }

  lemma SweepStep(ks: seq<Node>, i: nat, w: World)
    requires i < |ks| && !Terminal(ks[i].status)
    ensures var s := Tick(ks[i], w); Sweep(ks, i, w) == Sweep(ks[i := s.node], i + 1, s.w)
  {
    hide Tick;
    SweepLocal(ks, i + 1, i, Tick(ks[i], w).node, Tick(ks[i], w).w);
  }

  lemma {:induction false} RunFromLocal(ks: seq<Node>, i: nat, n: nat, skip: nat, adv: Final, at: nat, x: Node,
        w: World)
    requires at < i && at < |ks| && n <= |ks|
    ensures var r := RunFrom(ks, i, n, skip, adv, w);
      RunFrom(ks[at := x], i, n, skip, adv, w) == r.(kids := r.kids[at := x])
    decreases n - i
  {
    hide Tick, IsGuard;
    if i < n {
      if i < skip && !IsGuard(ks[i]) {
        RunFromLocal(ks, i + 1, n, skip, adv, at, x, w);
      } else {
        var s := Tick(ks[i], w);
        if s.node.status == adv {
          RunFromLocal(ks, i + 1, n, skip, adv, at, x, s.w);
          Commute(RunFrom(ks, i + 1, n, skip, adv, s.w).kids, at, x, i, s.node);
        } else {
          Commute(ks, at, x, i, s.node);
        }
      }
    }
  }

  lemma RunFromStep(ks: seq<Node>, i: nat, n: nat, skip: nat, adv: Final, w: World)
    requires i < n <= |ks| && !(i < skip && !IsGuard(ks[i])) && Tick(ks[i], w).node.status == adv
    ensures var s := Tick(ks[i], w);
      RunFrom(ks, i, n, skip, adv, w) == RunFrom(ks[i := s.node], i + 1, n, skip, adv, s.w)
  {
    hide Tick, IsGuard;
    RunFromLocal(ks, i + 1, n, skip, adv, i, Tick(ks[i], w).node, Tick(ks[i], w).w);
  }

  /** Where a run stops, or passes over a child. */
  lemma RunFromEdges(ks: seq<Node>, i: nat, n: nat, skip: nat, adv: Final, w: World)
    requires n <= |ks|
    ensures i >= n ==> RunFrom(ks, i, n, skip, adv, w) == Run(ks, i, adv, w)
    ensures i < n && i < skip && !IsGuard(ks[i]) ==>
      RunFrom(ks, i, n, skip, adv, w) == RunFrom(ks, i + 1, n, skip, adv, w)
    ensures i < n && !(i < skip && !IsGuard(ks[i])) && Tick(ks[i], w).node.status != adv ==>
      (var s := Tick(ks[i], w); RunFrom(ks, i, n, skip, adv, w) == Run(ks[i := s.node], i, s.node.status, s.w))
  {
    hide Tick, IsGuard;
  }

  /** A run from `i` on sees only the children from `i` on. */
  lemma {:induction false} RunFromSuffix(ks: seq<Node>, ls: seq<Node>, i: nat, n: nat, skip: nat, adv: Final, w: World)
    requires n <= |ks| == |ls| && forall j | i <= j < |ks| :: ls[j] == ks[j]
    ensures var r := RunFrom(ks, i, n, skip, adv, w); var q := RunFrom(ls, i, n, skip, adv, w);
      && q.at == r.at && q.result == r.result && q.w == r.w
      && forall j | i <= j < |ks| :: q.kids[j] == r.kids[j]
    decreases n - i
  {
    hide Tick, IsGuard;
    if i < n {
      if i < skip && !IsGuard(ks[i]) {
        RunFromSuffix(ks, ls, i + 1, n, skip, adv, w);
      } else {
        var s := Tick(ks[i], w);
        if s.node.status == adv { RunFromSuffix(ks, ls, i + 1, n, skip, adv, s.w); }
      }
    }
  }

  /** What the fast path does when a guard ahead of the running child did not answer `adv`. */
  function GuardsEnd(t: Node, g: Run): Body {
    var h := HaltFrom(g.kids, g.at + 1, g.w);
    if g.result == Running then
      Body(t.(kids := h.kids, mem := t.mem.(running := Some(g.at))), Running, h.w)
    else
      Settled(t, h.kids, g.result, h.w)
  }

  /** What the fast path does once every guard ahead of the running child answered `adv`. */
  function AfterGuards(t: Node, kids: seq<Node>, idx: nat, adv: Final, w: World): Body
    requires idx < |kids| == |t.kids|
    requires forall j | idx <= j < |kids| :: kids[j] == t.kids[j]
  {
    var s := Tick(kids[idx], w);
    if s.node.status == Running then
      Body(t.(kids := kids[idx := s.node]), Running, s.w)
    else
      FastRest(t, kids[idx := s.node], idx, s.node.status, adv, Unsubscribe(s.w, t.info.uid))
  }

  lemma FastTickParts(t: Node, adv: Final, w: World)
    requires t.mem.running.Some? && t.mem.running.value < |t.kids|
    ensures var idx := t.mem.running.value; var g := RunFrom(t.kids, 0, idx, idx, adv, w);
      FastTick(t, adv, w) == if g.result != adv then GuardsEnd(t, g) else AfterGuards(t, g.kids, idx, adv, g.w)
  {
    hide RunFrom, HaltFrom, FastRest, Tick;
  }

  /** The rest of the fast path is a run over the updated children. */
  lemma FastRestRuns(t: Node, kids: seq<Node>, idx: nat, adv: Final, w: World)
    requires |kids| == |t.kids| && idx < |t.kids|
    requires forall j | idx < j < |kids| :: kids[j] == t.kids[j]
    ensures FastRest(t, kids, idx, adv, adv, w) == RestEnd(t, RunFrom(kids, idx + 1, |kids|, 0, adv, w), adv)
  {
    hide RunFrom, RestEnd;
    RunFromSuffix(t.kids, kids, idx + 1, |kids|, 0, adv, w);
    var q := RunFrom(kids, idx + 1, |kids|, 0, adv, w);
    assert q.kids == kids[..idx + 1] + RunFrom(t.kids, idx + 1, |kids|, 0, adv, w).kids[idx + 1..];
  }

  lemma {:induction false} CountSame(ks: seq<Node>, ls: seq<Node>, n: nat, s: Status)
    requires n <= |ks| == |ls| && forall j | 0 <= j < n :: ls[j] == ks[j]
    ensures Count(ls, n, s) == Count(ks, n, s)
  {
    if n > 0 { CountSame(ks, ls, n - 1, s); }
  }

  function SweepOne(ks: seq<Node>, i: nat, w: World): (r: StepAll)
    requires i < |ks|
    ensures |r.kids| == |ks|
  {
    if Terminal(ks[i].status) then StepAll(ks, w)
    else var s := Tick(ks[i], w); StepAll(ks[i := s.node], s.w)
  }

  /** One child of the sweep: ticked unless it has finished, then counted. */
  lemma SweepCounts(ks: seq<Node>, i: nat, w: World)
    requires i < |ks|
    ensures var s := SweepOne(ks, i, w);
      && Sweep(ks, i, w) == Sweep(s.kids, i + 1, s.w)
      && forall r {:trigger Count(s.kids, i + 1, r)} ::
           Count(s.kids, i + 1, r) == Count(ks, i, r) + if s.kids[i].status == r then 1 else 0
  {
    hide Tick;
    if !Terminal(ks[i].status) { SweepStep(ks, i, w); }
    forall r { CountSame(ks, SweepOne(ks, i, w).kids, i, r); }
  }

  lemma NothingToSweep(ks: seq<Node>, w: World)
    ensures Sweep(ks, |ks|, w) == StepAll(ks, w)
  {}

  // ----- collecting boards with a work list ----------------------------------------------------

  lemma {:induction false} KidBoardsConcat(a: seq<Node>, b: seq<Node>, i: nat)
    requires i <= |a|
    ensures KidBoards(a + b, i) == KidBoards(a, i) + KidBoards(b, 0)
    decreases |a| - i
  {
    if i == |a| {
      KidBoardsShift(a + b, i, b, 0);
    } else {
      KidBoardsConcat(a, b, i + 1);
      assert (a + b)[i] == a[i];
    }
  }

  lemma {:induction false} KidBoardsShift(ks: seq<Node>, i: nat, ls: seq<Node>, j: nat)
    requires i <= |ks| && j <= |ls| && ks[i..] == ls[j..]
    ensures KidBoards(ks, i) == KidBoards(ls, j)
    decreases |ks| - i
  {
    assert |ks| - i == |ls| - j;
    if i < |ks| {
      assert ks[i] == ks[i..][0] == ls[j..][0] == ls[j];
      assert ks[i + 1..] == ks[i..][1..] == ls[j + 1..];
      KidBoardsShift(ks, i + 1, ls, j + 1);
    }
  }

  ghost function Size(t: Node): nat { 1 + SizeFrom(t.kids, 0) }

  ghost function SizeFrom(kids: seq<Node>, i: nat): nat
    requires i <= |kids|
    decreases kids, |kids| - i
  {
    if i == |kids| then 0 else Size(kids[i]) + SizeFrom(kids, i + 1)
  }

  lemma {:induction false} SizeConcat(a: seq<Node>, b: seq<Node>, i: nat)
    requires i <= |a|
    ensures SizeFrom(a + b, i) == SizeFrom(a, i) + SizeFrom(b, 0)
    decreases |a| - i
  {
    if i == |a| {
      SizeShift(a + b, i, b, 0);
    } else {
      SizeConcat(a, b, i + 1);
      assert (a + b)[i] == a[i];
    }
  }

  lemma {:induction false} SizeShift(ks: seq<Node>, i: nat, ls: seq<Node>, j: nat)
    requires i <= |ks| && j <= |ls| && ks[i..] == ls[j..]
    ensures SizeFrom(ks, i) == SizeFrom(ls, j)
    decreases |ks| - i
  {
    assert |ks| - i == |ls| - j;
    if i < |ks| {
      assert ks[i] == ks[i..][0] == ls[j..][0] == ls[j];
      assert ks[i + 1..] == ks[i..][1..] == ls[j + 1..];
      SizeShift(ks, i + 1, ls, j + 1);
    }
  }

  /** Taking the last node off the work list and putting its children on. */
  lemma PopBoards(vals: seq<Node>, t: Node)
    ensures KidBoards(vals + [t], 0)
      == KidBoards(vals + t.kids, 0) + (if t.info.board.Some? then {t.info.board.value} else {})
    ensures SizeFrom(vals + t.kids, 0) < SizeFrom(vals + [t], 0)
  {
    KidBoardsConcat(vals, [t], 0);
    KidBoardsConcat(vals, t.kids, 0);
    SizeConcat(vals, [t], 0);
    SizeConcat(vals, t.kids, 0);
    assert KidBoards([t], 1) == {} && KidBoards([t], 0) == Boards(t) + KidBoards([t], 1);
    assert SizeFrom([t], 1) == 0 && SizeFrom([t], 0) == Size(t) + SizeFrom([t], 1);
  }
}
