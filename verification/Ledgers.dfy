/** Consequences for whole runs: what the Inspector shows, how often each hook ran, what the
    fast path may differ in, and what a halt does. */
module Ledgers {
  import opened Worlds
  import opened Engine
  import opened Invariants
  import opened Simulation
  import opened Runs
  import opened FastPath
  import opened LeafNodes
  import opened Tracking

  // ----- over any run -----------------------------------------------------------------

  lemma {:induction false} OkWrite(t: Node, w: World, boards: set<Board>, exact: bool)
    requires Ok(t, w, exact)
    ensures Ok(t, Write(w, boards), exact)
  {
    forall x ensures SameAt(w, Write(w, boards), x) {}
    OkFramed(t, w, Write(w, boards), {}, exact);
  }

  /** Over any run of ticks, halts and outside writes, tree and ledgers go on agreeing. */
  lemma {:induction false} RunTracked(t: Node, w: World, ops: seq<Op>, exact: bool)
    requires Inv(t, false) && Distinct(t) && Ok(t, w, exact)
    ensures var o := Go(t, w, ops); Ok(o.node, o.w, exact) && SameShape(t, o.node)
    decreases |ops|
  {
    hide Inv, Distinct, Ok, SameShape, Tick, Halt, Write;
    if ops == [] {
      SameShapeSelf(t);
    } else {
      match ops[0] {
        case TickOp => TickTracked(t, w, exact);
        case HaltOp => HaltTracked(t, w, exact);
        case WriteOp(boards) => OkWrite(t, w, boards, exact); SameShapeSelf(t);
      }
      var s := Perform(t, w, ops[0]);
      PerformInv(t, w, ops[0], false);
      ShapeFacts(t, s.node);
      RunTracked(s.node, s.w, ops[1..], exact);
      SameShapeTrans(t, s.node, Go(t, w, ops).node);
    }
  }

  /** A newly built tree in a world that has not heard of it. */
  ghost predicate Unheard(t: Node, w: World) {
    forall x | x in Uids(t) :: x !in RunningSet(w.notes) && OpenActivations(w.trace, x) == 0 && x !in w.subs
  }

  lemma {:induction false} FreshOk(t: Node, w: World, exact: bool)
    requires Unheard(t, w)
    ensures Ok(Fresh(t), w, exact) && SameShape(t, Fresh(t))
    decreases t
  {
    forall j | 0 <= j < |t.kids| ensures Ok(Fresh(t.kids[j]), w, exact) && SameShape(t.kids[j], Fresh(t.kids[j])) {
      KidUids(t.kids, 0, j);
      FreshOk(t.kids[j], w, exact);
    }
  }

  lemma {:induction false} KidUids(kids: seq<Node>, i: nat, j: nat)
    requires i <= j < |kids|
    ensures Uids(kids[j]) <= UidsFrom(kids, i)
    decreases j - i
  {
    if i < j { KidUids(kids, i + 1, j); }
  }

  function RunningUids(t: Node): set<Uid> {
    (if t.status == Running then {t.info.uid} else {}) + RunningUidsFrom(t.kids, 0)
  }

  function RunningUidsFrom(kids: seq<Node>, i: nat): set<Uid>
    requires i <= |kids|
    decreases kids, |kids| - i
  {
    if i == |kids| then {} else RunningUids(kids[i]) + RunningUidsFrom(kids, i + 1)
  }

  lemma {:induction false} NoneRunningUids(t: Node)
    requires NoneRunning(t)
    ensures RunningUids(t) == {}
    decreases t, 1
  {
    NoneRunningUidsFrom(t.kids, 0);
  }

  lemma {:induction false} NoneRunningUidsFrom(kids: seq<Node>, i: nat)
    requires i <= |kids| && forall j | 0 <= j < |kids| :: NoneRunning(kids[j])
    ensures RunningUidsFrom(kids, i) == {}
    decreases kids, |kids| - i
  {
    if i < |kids| {
      NoneRunningUids(kids[i]);
      NoneRunningUidsFrom(kids, i + 1);
    }
  }

  lemma {:induction false} IdleIsNotRunning(t: Node)
    requires AllIdle(t)
    ensures NoneRunning(t)
  {
    forall j | 0 <= j < |t.kids| ensures NoneRunning(t.kids[j]) { IdleIsNotRunning(t.kids[j]); }
  }

  lemma {:induction false} RunningSetIs(t: Node, w: World, exact: bool)
    requires Ok(t, w, exact)
    ensures RunningSet(w.notes) * Uids(t) == RunningUids(t)
    decreases t, 1
  {
    RunningSetIsFrom(t.kids, 0, w, exact);
  }

  lemma {:induction false} RunningSetIsFrom(kids: seq<Node>, i: nat, w: World, exact: bool)
    requires i <= |kids| && OkFrom(kids, i, w, exact)
    ensures RunningSet(w.notes) * UidsFrom(kids, i) == RunningUidsFrom(kids, i)
    decreases kids, |kids| - i
  {
    if i < |kids| {
      RunningSetIs(kids[i], w, exact);
      RunningSetIsFrom(kids, i + 1, w, exact);
    }
  }

  /** From a newly built tree, after any run: the Inspector's running set holds exactly the
      uids of the tree's RUNNING nodes. */
  lemma InspectorAgrees(t: Node, w: World, ops: seq<Op>)
    requires ArityAll(t) && Distinct(t) && Unheard(t, w)
    ensures var o := Go(Fresh(t), w, ops);
      Uids(o.node) == Uids(t) && RunningSet(o.w.notes) * Uids(t) == RunningUids(o.node)
  {
    var o := Go(Fresh(t), w, ops);
    FreshOk(t, w, true);
    FreshInv(t, false);
    ShapeFacts(t, Fresh(t));
    RunTracked(Fresh(t), w, ops, true);
    ShapeFacts(Fresh(t), o.node);
    RunningSetIs(o.node, o.w, true);
  }

  lemma {:induction false} RestingUnsubscribed(t: Node, w: World, exact: bool)
    requires Inv(t, false) && t.status != Running && Ok(t, w, exact)
    ensures ReactiveUids(t) !! w.subs.Keys
  {
    forall i | 0 <= i < |t.kids| ensures ReactiveUids(t.kids[i]) !! w.subs.Keys {
      assert Inv(t.kids[i], false);
      RestingUnsubscribed(t.kids[i], w, exact);
    }
  }

  /** `path` leads from `t` down to `s`. */
  ghost predicate At(t: Node, path: seq<nat>, s: Node)
    decreases |path|
  {
    if path == [] then s == t else path[0] < |t.kids| && At(t.kids[path[0]], path[1..], s)
  }

  lemma {:induction false} OkBelow(t: Node, path: seq<nat>, s: Node, w: World, exact: bool)
    requires Ok(t, w, exact) && At(t, path, s)
    ensures Ok(s, w, exact)
    decreases |path|
  {
    if path != [] { OkBelow(t.kids[path[0]], path[1..], s, w, exact); }
  }

  /** A newly built copy has the same nodes in the same places, each IDLE with its fields unset. */
  lemma {:induction false} FreshAt(t: Node, path: seq<nat>, s: Node)
    requires At(t, path, s)
    ensures At(Fresh(t), path, Node(s.info, Idle, Fields(0, None, 0, None, None), Fresh(s).kids))
    ensures |Fresh(s).kids| == |s.kids|
    decreases |path|
  {
    if path != [] { FreshAt(t.kids[path[0]], path[1..], s); }
  }

  /** The board is configured on the node or somewhere below it. */
  ghost predicate HasBoard(t: Node, b: Board) { exists path, s :: At(t, path, s) && s.info.board == Some(b) }

  /** The boards collected for a node are those configured on the nodes below it. */
  lemma {:induction false} BoardsBelow(t: Node, b: Board)
    ensures b in KidBoards(t.kids, 0) <==> exists j | 0 <= j < |t.kids| :: HasBoard(t.kids[j], b)
    ensures b in Boards(t) <==> HasBoard(t, b)
    decreases t
  {
    forall j | 0 <= j < |t.kids| ensures b in Boards(t.kids[j]) <==> HasBoard(t.kids[j], b) {
      BoardsBelow(t.kids[j], b);
    }
    KidBoardsHas(t.kids, 0, b);
    hide KidBoards, HasBoard;
    HasBoardUnfolds(t, b);
  }

  lemma HasBoardUnfolds(t: Node, b: Board)
    ensures HasBoard(t, b) <==> t.info.board == Some(b) || exists j | 0 <= j < |t.kids| :: HasBoard(t.kids[j], b)
  {
    if t.info.board == Some(b) {
      var path: seq<nat> := [];
      assert At(t, path, t);
    }
    forall j | 0 <= j < |t.kids| && HasBoard(t.kids[j], b) ensures HasBoard(t, b) {
      var path, s :| At(t.kids[j], path, s) && s.info.board == Some(b);
      assert ([j] + path)[1..] == path;
      assert At(t, [j] + path, s);
    }
    if HasBoard(t, b) && t.info.board != Some(b) {
      var path, s :| At(t, path, s) && s.info.board == Some(b);
      assert At(t.kids[path[0]], path[1..], s);
    }
  }

  lemma {:induction false} KidBoardsHas(kids: seq<Node>, i: nat, b: Board)
    requires i <= |kids|
    ensures b in KidBoards(kids, i) <==> exists j | i <= j < |kids| :: b in Boards(kids[j])
    decreases |kids| - i
  {
    hide Boards;
    if i < |kids| { KidBoardsHas(kids, i + 1, b); }
  }

  /** How often `u` got `on_start`, came to a result, and got `on_halted`. */
  function Tally(trace: seq<Event>, u: Uid): (nat, nat, nat) {
    if trace == [] then (0, 0, 0)
    else
      var n := Tally(trace[..|trace| - 1], u);
      match trace[|trace| - 1]
      case Called(x, hook, r) =>
        if x != u || hook == Plain then n
        else (n.0 + (if hook == Start then 1 else 0), n.1 + (if Terminal(r) then 1 else 0), n.2)
      case Halted(x) => if x == u then (n.0, n.1, n.2 + 1) else n
      case ClockRead(_) => n
  }

  lemma {:induction false} TallyOpen(trace: seq<Event>, u: Uid)
    ensures var n := Tally(trace, u); OpenActivations(trace, u) == n.0 - n.1 - n.2
  {
    if trace != [] { TallyOpen(trace[..|trace| - 1], u); }
  }

  // ----- the fast path, once more ---------------------------------------------------------

  lemma {:induction false} DistinctApart(t: Node, u: Uid)
    requires u !in Uids(t)
    ensures Apart(t, u)
    decreases t
  {
    forall j | 0 <= j < |t.kids| ensures Apart(t.kids[j], u) {
      KidUids(t.kids, 0, j);
      DistinctApart(t.kids[j], u);
    }
  }

  /** In a tree of distinct nodes the fast path gives the status, the node below and including this
      one, the calls and all the subscriptions, its own included, of a full evaluation that takes
      every skipped action at its stored result, and the dirty flags of all other subscribed nodes. */
  lemma FastPathRefines(t: Node, adv: Final, w: World)
    requires Inv(t, true) && Distinct(t) && Ok(t, w, true) && t.info.kind == Reactive(adv) && t.status == Running
    requires TakesFastPath(t, w)
    ensures var b := FastTick(t, adv, w); var c := FullEval(t, t.mem.running.value, adv, w);
      && b.result == c.result && b.node == c.node && b.w.trace == c.w.trace && b.w.subs == c.w.subs
      && (forall x | x != t.info.uid && x in b.w.subs :: x in b.w.dirty <==> x in c.w.dirty)
    ensures (forall j | 0 <= j < t.mem.running.value :: OnlyConditions(t.kids[j])) ==>
      FullEval(t, t.mem.running.value, adv, w) == FullEval(t, 0, adv, w)
  {
    forall j | 0 <= j < |t.kids| ensures Apart(t.kids[j], t.info.uid) {
      KidUids(t.kids, 0, j);
      DistinctApart(t.kids[j], t.info.uid);
    }
    FastTickIsFullEval(t, adv, w);
    if forall j | 0 <= j < t.mem.running.value :: OnlyConditions(t.kids[j]) {
      forall j | 0 <= j < t.mem.running.value ensures IsGuard(t.kids[j]) { GuardIff(t.kids[j]); }
      RunFromNoSkip(t.kids, 0, |t.kids|, t.mem.running.value, adv, ClearDirty(w, t.info.uid));
    }
    var b, c := FastTick(t, adv, w), FullEval(t, t.mem.running.value, adv, w);
    OwnEntries(t, adv, w);
    hide *;
    OwnSubsAgree(t, w, b, c);
  }

  /** Either way the node ends up with the entries its result calls for. */
  lemma OwnEntries(t: Node, adv: Final, w: World)
    requires Inv(t, true) && Distinct(t) && Ok(t, w, true) && t.info.kind == Reactive(adv) && t.status == Running
    requires TakesFastPath(t, w)
    ensures BodyTracked(t, w, FastTick(t, adv, w), true)
    ensures BodyTracked(t, w, FullEval(t, t.mem.running.value, adv, w), true)
  {
    StrictAll(t.kids);
    assert OkFrom(t.kids, 0, w, true) && EntriesOk(t, true, w, true);
    hide Inv, InvAll, Ok, OkFrom, FastTick, FullEval, BodyTracked, OpenActivations;
    FastTickTracked(t, adv, w, true);
    FullEvalTracked(t, t.mem.running.value, adv, w, true);
  }

  lemma OwnSubsAgree(t: Node, w: World, b: Body, c: Body)
    requires t.info.kind.Reactive? && b.result == c.result && Agree(b.w, c.w, Scope({t.info.uid}, true), {})
    requires BodyTracked(t, w, b, true) && BodyTracked(t, w, c, true)
    ensures b.w.subs == c.w.subs
    ensures forall x | x != t.info.uid && x in b.w.subs :: x in b.w.dirty <==> x in c.w.dirty
  {
    assert EntriesOk(t, b.result == Running, b.w, true) && EntriesOk(t, c.result == Running, c.w, true);
    hide KidBoards, OpenActivations, OkFrom, SameShapes, Framed;
    var D: set<Uid> := {};
    forall x
      ensures (x in b.w.subs <==> x in c.w.subs) && (x in b.w.subs ==> b.w.subs[x] == c.w.subs[x])
      ensures x != t.info.uid && x in b.w.subs ==> (x in b.w.dirty <==> x in c.w.dirty)
    {
      if x != t.info.uid { assert AgreeAt(b.w, c.w, x, x in D); }
    }
  }

  // ----- what a halt does -------------------------------------------------------------------

  /** The RUNNING nodes, parents before children, left to right. */
  function Stops(t: Node): seq<Note> {
    OwnStop(t) + StopsFrom(t.kids, 0)
  }

  function OwnStop(t: Node): seq<Note> { if t.status == Running then [Stopped(t.info.uid)] else [] }

  function StopsFrom(kids: seq<Node>, i: nat): seq<Note>
    requires i <= |kids|
    decreases kids, |kids| - i
  {
    if i == |kids| then [] else Stops(kids[i]) + StopsFrom(kids, i + 1)
  }

  /** The RUNNING stateful leaves, left to right. */
  function HookCalls(t: Node): seq<Event> {
    OwnCall(t) + HookCallsFrom(t.kids, 0)
  }

  function OwnCall(t: Node): seq<Event> {
    if t.status == Running && t.info.kind == Leaf(Stateful) then [Halted(t.info.uid)] else []
  }

  function HookCallsFrom(kids: seq<Node>, i: nat): seq<Event>
    requires i <= |kids|
    decreases kids, |kids| - i
  {
    if i == |kids| then [] else HookCalls(kids[i]) + HookCallsFrom(kids, i + 1)
  }

  /** `halt()` leaves every node IDLE.  It runs `_on_halt` once on each RUNNING node, parents
      first, and on no other; so the halt hook of each RUNNING stateful leaf is called once. */
  lemma {:induction false} HaltExactly(t: Node, w: World)
    requires Inv(t, false)
    ensures AllIdle(Halt(t, w).node)
    ensures Halt(t, w).w.notes == w.notes + Stops(t)
    ensures Halt(t, w).w.trace == w.trace + HookCalls(t)
    decreases t, 1
  {
    HaltInv(t, w, false);
    IdleIsClosedDownward(Halt(t, w).node, false);
    HaltHead(t, w);
    assert InvAll(t.kids, false);
    var w1 := if t.status == Running then Tell(OnHaltWorld(t, w), Stopped(t.info.uid)) else w;
    hide Inv, InvAll, AllIdle, HaltFrom, HaltRunning, ResetTerminal, StopsFrom, HookCallsFrom, OnHaltWorld, Tell;
    if t.info.kind.Parallel? {
      HaltRunningExactly(t.kids, 0, w1);
      var h := HaltRunning(t.kids, 0, w1);
      HaltRunningInv(t.kids, 0, w1, false);
      ResetTerminalQuiet(h.kids, 0, h.w);
    } else {
      HaltFromExactly(t.kids, 0, w1);
    }
    Append3(w.notes, OwnStop(t), StopsFrom(t.kids, 0));
    Append3(w.trace, OwnCall(t), HookCallsFrom(t.kids, 0));
  }

  lemma HaltHead(t: Node, w: World)
    ensures var w1 := if t.status == Running then Tell(OnHaltWorld(t, w), Stopped(t.info.uid)) else w;
      w1.notes == w.notes + OwnStop(t) && w1.trace == w.trace + OwnCall(t)
  {}

  lemma Append3<T>(a: seq<T>, b: seq<T>, c: seq<T>)
    ensures (a + b) + c == a + (b + c)
  {}

  lemma {:induction false} HaltFromExactly(kids: seq<Node>, i: nat, w: World)
    requires i <= |kids| && InvAll(kids, false)
    ensures HaltFrom(kids, i, w).w.notes == w.notes + StopsFrom(kids, i)
    ensures HaltFrom(kids, i, w).w.trace == w.trace + HookCallsFrom(kids, i)
    decreases kids, |kids| - i
  {
    hide Halt, Inv, Stops, HookCalls;
    if i < |kids| {
      HaltExactly(kids[i], w);
      HaltFromExactly(kids, i + 1, Halt(kids[i], w).w);
      Append3(w.notes, Stops(kids[i]), StopsFrom(kids, i + 1));
      Append3(w.trace, HookCalls(kids[i]), HookCallsFrom(kids, i + 1));
    }
  }

  lemma {:induction false} HaltRunningExactly(kids: seq<Node>, i: nat, w: World)
    requires i <= |kids| && InvAll(kids, false)
    ensures HaltRunning(kids, i, w).w.notes == w.notes + StopsFrom(kids, i)
    ensures HaltRunning(kids, i, w).w.trace == w.trace + HookCallsFrom(kids, i)
    decreases kids, |kids| - i
  {
    hide Halt, Inv, InvAll, Stops, HookCalls, AllIdle;
    if i < |kids| {
      InvAt(kids, i);
      hide StopsFrom, HookCallsFrom;
      StopsOf(kids, i);
      if kids[i].status == Running {
        HaltExactly(kids[i], w);
        var v := Halt(kids[i], w).w;
        HaltRunningExactly(kids, i + 1, v);
        Append3(w.notes, Stops(kids[i]), StopsFrom(kids, i + 1));
        Append3(w.trace, HookCalls(kids[i]), HookCallsFrom(kids, i + 1));
      } else {
        RestingIsQuiet(kids[i]);
        HaltRunningExactly(kids, i + 1, w);
      }
    }
  }

  lemma StopsOf(kids: seq<Node>, i: nat)
    requires i < |kids|
    ensures StopsFrom(kids, i) == Stops(kids[i]) + StopsFrom(kids, i + 1)
    ensures HookCallsFrom(kids, i) == HookCalls(kids[i]) + HookCallsFrom(kids, i + 1)
    ensures Stops(kids[i]) == [] ==> StopsFrom(kids, i) == StopsFrom(kids, i + 1)
    ensures HookCalls(kids[i]) == [] ==> HookCallsFrom(kids, i) == HookCallsFrom(kids, i + 1)
  {
    hide Stops, HookCalls;
  }

  lemma InvAt(kids: seq<Node>, i: nat)
    requires i < |kids| && InvAll(kids, false)
    ensures Inv(kids[i], false)
  {}

  /** Nothing below a node that is not RUNNING would be told of a halt. */
  lemma {:induction false} RestingIsQuiet(t: Node)
    requires Inv(t, false) && t.status != Running
    ensures Stops(t) == [] && HookCalls(t) == []
    decreases t, 1
  {
    RestingIsQuietFrom(t.kids, 0);
  }

  lemma {:induction false} RestingIsQuietFrom(kids: seq<Node>, i: nat)
    requires i <= |kids| && InvAll(kids, false) && NoKidRunning(kids)
    ensures StopsFrom(kids, i) == [] && HookCallsFrom(kids, i) == []
    decreases kids, |kids| - i
  {
    if i < |kids| {
      RestingIsQuiet(kids[i]);
      RestingIsQuietFrom(kids, i + 1);
    }
  }

  lemma {:induction false} ResetQuiet(t: Node, w: World)
    requires Inv(t, false) && t.status != Running
    ensures Reset(t, w).w.notes == w.notes && Reset(t, w).w.trace == w.trace
    decreases t, 1
  {
    var w2 := if t.info.kind.Reactive? then SetDirty(w, t.info.uid) else w;
    ResetFromQuiet(t.kids, 0, w2);
  }

  lemma {:induction false} ResetFromQuiet(kids: seq<Node>, i: nat, w: World)
    requires InvAll(kids, false) && NoKidRunning(kids)
    ensures ResetFrom(kids, i, w).w.notes == w.notes && ResetFrom(kids, i, w).w.trace == w.trace
    decreases kids, |kids| - i
  {
    if i < |kids| {
      ResetQuiet(kids[i], w);
      ResetFromQuiet(kids, i + 1, Reset(kids[i], w).w);
    }
  }

  lemma {:induction false} ResetTerminalQuiet(kids: seq<Node>, i: nat, w: World)
    requires InvAll(kids, false) && NoKidRunning(kids)
    ensures ResetTerminal(kids, i, w).w.notes == w.notes && ResetTerminal(kids, i, w).w.trace == w.trace
    decreases |kids| - i
  {
    if i < |kids| {
      if Terminal(kids[i].status) {
        ResetQuiet(kids[i], w);
        ResetTerminalQuiet(kids, i + 1, Reset(kids[i], w).w);
      } else {
        ResetTerminalQuiet(kids, i + 1, w);
      }
    }
  }

  /** What a halt leaves of a node's fields: a cursor is back at its start; a node that was RUNNING
      forgets its running child, attempts, start time or cached result; nothing else changes. */
  lemma HaltForgets(t: Node, w: World)
    ensures var h := Halt(t, w).node; var on := t.status == Running;
      && h.status == Idle && h.info == t.info && |h.kids| == |t.kids|
      && h.mem.cursor == (if t.info.kind.Memory? then 0 else t.mem.cursor)
      && h.mem.running == (if on && t.info.kind.Reactive? then None else t.mem.running)
      && h.mem.attempts == (if on && t.info.kind.Retry? then 0 else t.mem.attempts)
      && h.mem.started == (if on && t.info.kind.Timeout? then None else t.mem.started)
      && h.mem.cache == (if on && t.info.kind.Rate? then None else t.mem.cache)
  {
    hide OnHaltWorld;
  }
}
