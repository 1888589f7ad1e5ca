/** A leaf that runs a coroutine on the bridge: never two of its coroutines at once. */
module Coro {
  import opened Worlds
  import opened Bridge

  /** The node's fields; `halting`: its halt is waiting for the coroutine to unwind, during which
      the node is not ticked. */
  datatype Node = Node(status: Status, future: Option<nat>, orphan: Option<nat>, halting: bool)

  /** The node, the submissions it has made, and the bridge it is pinned to. */
  datatype System = System(node: Node, mine: set<nat>, s: State)

  const NEW := Node(Idle, None, None, false)

  predicate Alive(s: State) { s.up && !s.stopped }

  predicate Unresolved(s: State, future: Option<nat>) {
    future.Some? && future.value < |s.subs| && s.subs[future.value].stage != Resolved
  }

  predicate Unwinding(s: State, future: Option<nat>) {
    future.Some? && future.value < |s.subs| && !TaskDone(s.subs[future.value])
  }

  /** What other threads do before the submit lock is taken, and after it until the done-callback
      is in place. */
  datatype Race = Race(before: seq<Happening>, after: seq<Happening>)

  const QUIET := Race([], [])

  /** `tick()`; `raw` is what a finished coroutine returned. */
  function Tick(y: System, race: Race, raw: Result): System {
    var n, s := y.node, y.s;
    if Unwinding(s, n.orphan) then y.(node := n.(status := Failure))
    else
      var n1 := n.(orphan := None);
      if Unresolved(s, n1.future) && !Alive(s) then
        y.(node := n1.(future := None, status := Failure), s := Next(s, Discard(n1.future.value)))
      else if !Alive(s) then y.(node := n1.(status := Failure))
      else if n1.status != Running then StartCoroutine(y.(node := n1), race)
      else if Unresolved(s, n1.future) then y.(node := n1.(status := Running))
      else y.(node := n1.(status := if n1.future.Some? then raw else Running))
  }

  /** `submit`: the submission, unless the bridge was shut down just before, then its done-callback. */
  function StartCoroutine(y: System, race: Race): System {
    var s := Run(y.s, race.before);
    if !Alive(s) then y.(node := y.node.(status := Failure), s := s)
    else
      var id := |s.subs|;
      var t := Next(Run(Next(s, Submit), race.after), Attach(id));
      System(Node(Running, Some(id), None, false), y.mine + {id}, t)
  }

  /** `_on_halt()` up to where it has waited: cooperative, or after the grace period forced. */
  function HaltStart(y: System, forced: bool): System {
    if y.node.status != Running then y
    else if forced && y.node.future.Some? then
      y.(node := y.node.(halting := true), s := Next(y.s, CancelTask(y.node.future.value)))
    else y.(node := y.node.(halting := true))
  }

  /** The rest: a coroutine that is still unwinding is kept as the orphan. */
  function HaltEnd(y: System): System {
    var n := y.node;
    if !n.halting then y
    else y.(node := Node(Idle, None, if Unwinding(y.s, n.future) then n.future else n.orphan, false))
  }

  datatype Op =
    | DoTick(race: Race, raw: Result)
    | DoHaltStart(forced: bool)
    | DoHaltEnd
    | Elsewhere(e: Happening)

  function Step(y: System, op: Op): System {
    match op
    case DoTick(race, raw) => if y.node.halting then y else Tick(y, race, raw)
    case DoHaltStart(forced) => if y.node.halting then y else HaltStart(y, forced)
    case DoHaltEnd => HaltEnd(y)
    case Elsewhere(e) => y.(s := Next(y.s, e))
  }

  function Go(y: System, ops: seq<Op>): System
    decreases |ops|
  {
    if ops == [] then y else Go(Step(y, ops[0]), ops[1..])
  }

  // ----- the invariant ----------------------------------------------------------------------

  ghost predicate Lives(y: System, id: nat) {
    id in y.mine && id < |y.s.subs| && MayStillRun(y.s.subs[id])
  }

  ghost predicate Sane(y: System) {
    && Inv(y.s)
    && (forall id | id in y.mine :: id < |y.s.subs| && y.s.subs[id].attached)
    && (y.node.future.Some? ==> y.node.future.value in y.mine)
    && (y.node.orphan.Some? ==> y.node.orphan.value in y.mine && y.node.future.None?)
    // while the bridge is alive the node holds on to every coroutine of its own
    && (Alive(y.s) ==> forall id: nat | Lives(y, id) :: y.node.future == Some(id) || y.node.orphan == Some(id))
    && (forall a, b | Lives(y, a) && Lives(y, b) :: a == b)
    && (y.node.status != Running ==> y.node.future.None? || !MayStillRun(y.s.subs[y.node.future.value]))
    && (y.node.halting ==> y.node.status == Running)
  }

  /** The bridge moves on: no coroutine comes back to life, no callback is taken off. */
  ghost predicate Later(s: State, t: State) {
    && |s.subs| <= |t.subs|
    && (forall id | 0 <= id < |s.subs| && MayStillRun(t.subs[id]) :: MayStillRun(s.subs[id]))
    && (forall id | 0 <= id < |s.subs| && s.subs[id].attached :: t.subs[id].attached)
    && (Alive(t) ==> Alive(s))
  }

  lemma NextLater(s: State, e: Happening)
    requires Inv(s)
    ensures Later(s, Next(s, e)) && Inv(Next(s, e))
  {
    NextInv(s, e);
    NextGrows(s, e);
    CallbacksStay(s, e);
    forall id | 0 <= id < |s.subs| && MayStillRun(Next(s, e).subs[id]) ensures MayStillRun(s.subs[id]) {
      if !MayStillRun(s.subs[id]) { FinishedStays(s, e, id); }
    }
  }

  lemma NextGrows(s: State, e: Happening)
    ensures |s.subs| <= |Next(s, e).subs| && (Alive(Next(s, e)) ==> Alive(s))
  {}

  lemma CallbacksStay(s: State, e: Happening)
    ensures |s.subs| <= |Next(s, e).subs|
    ensures forall id | 0 <= id < |s.subs| && s.subs[id].attached :: Next(s, e).subs[id].attached
  {
    hide Exec;
    if e.Turn? && s.up && s.queue != [] && ItemIn(s.queue[0], s) {
      TurnKeepsCallbacks(s.queue[0], s.(queue := s.queue[1..]), e.ends);
    }
  }

  lemma TurnKeepsCallbacks(item: Item, s: State, ends: bool)
    requires ItemIn(item, s)
    ensures var t := Exec(item, s, ends);
      |s.subs| == |t.subs| && forall id | 0 <= id < |s.subs| && s.subs[id].attached :: t.subs[id].attached
  {
    hide Unfinished, Wakes;
  }

  lemma {:induction false} RunLater(s: State, events: seq<Happening>)
    requires Inv(s)
    ensures Later(s, Run(s, events)) && Inv(Run(s, events))
    decreases |events|
  {
    hide Inv, Next, MayStillRun;
    if events != [] {
      NextLater(s, events[0]);
      RunLater(Next(s, events[0]), events[1..]);
    }
  }

  lemma MovedOnSane(y: System, t: State)
    requires Sane(y) && Later(y.s, t) && Inv(t)
    ensures Sane(y.(s := t))
  {
    var z := y.(s := t);
    forall id | Lives(z, id) ensures Lives(y, id) { LivedBefore(y, t, id); }
    hide Inv, MayStillRun;
  }

  /** `task_done` for the node's own submissions. */
  lemma DoneMeansDead(y: System, future: Option<nat>)
    requires Sane(y) && future.Some? && future.value < |y.s.subs|
    ensures Unwinding(y.s, future) <==> MayStillRun(y.s.subs[future.value])
    ensures !Unresolved(y.s, future) ==> !MayStillRun(y.s.subs[future.value])
  {
    assert SubOk(future.value, y.s);
  }

  lemma StartSane(y: System, race: Race)
    requires Sane(y) && y.node.orphan.None? && y.node.status != Running && !y.node.halting
    ensures Sane(StartCoroutine(y, race))
  {
    SaneBridge(y);
    RunLater(y.s, race.before);
    var y1 := y.(s := Run(y.s, race.before));
    MovedOnSane(y1.(s := y.s), y1.s);
    if Alive(y1.s) {
      AcceptedSane(y1, race);
    } else {
      SameLives(y1, StartCoroutine(y, race));
    }
  }

  lemma AcceptedSane(y: System, race: Race)
    requires Sane(y) && Alive(y.s) && y.node.orphan.None? && y.node.status != Running && !y.node.halting
    ensures Sane(StartCoroutine(y, Race([], race.after)))
  {
    var id, z := |y.s.subs|, StartCoroutine(y, Race([], race.after));
    assert Run(y.s, []) == y.s;
    NoneLives(y);
    SaneBridge(y);
    hide Sane;
    var s1 := Next(y.s, Submit);
    NextLater(y.s, Submit);
    assert |s1.subs| == id + 1;
    hide Inv, MayStillRun, Next, Run;
    RunLater(s1, race.after);
    var s2 := Run(s1, race.after);
    NextLater(s2, Attach(id));
    IsAttached(s2, id);
    assert z == System(Node(Running, Some(id), None, false), y.mine + {id}, Next(s2, Attach(id)));
    OnlyNewLives(y, s1, s2, z.s, id);
    OneOwnIsSane(y, z, id);
  }

  lemma NoneLives(y: System)
    requires Sane(y) && Alive(y.s) && y.node.orphan.None? && y.node.status != Running
    ensures forall a :: !Lives(y, a)
    ensures forall a | a in y.mine :: a < |y.s.subs| && y.s.subs[a].attached
  {
    hide Inv, MayStillRun;
  }

  lemma IsAttached(s: State, id: nat)
    requires id < |s.subs|
    ensures id < |Next(s, Attach(id)).subs| && Next(s, Attach(id)).subs[id].attached
  {}

  lemma OnlyNewLives(y: System, s1: State, s2: State, t: State, id: nat)
    requires id == |y.s.subs| && |s1.subs| == id + 1 && Later(y.s, s1) && Later(s1, s2) && Later(s2, t)
    requires forall a :: !Lives(y, a)
    requires forall a | a in y.mine :: a < |y.s.subs| && y.s.subs[a].attached
    ensures forall a | a in y.mine :: a < |t.subs| && t.subs[a].attached && !MayStillRun(t.subs[a])
  {
    hide MayStillRun;
    forall a | a in y.mine ensures a < |t.subs| && t.subs[a].attached && !MayStillRun(t.subs[a]) {
      assert !Lives(y, a);
    }
  }

  lemma OneOwnIsSane(y: System, z: System, id: nat)
    requires Inv(z.s) && z.node == Node(Running, Some(id), None, false) && z.mine == y.mine + {id}
    requires id < |z.s.subs| && z.s.subs[id].attached
    requires forall a | a in y.mine :: a < |z.s.subs| && z.s.subs[a].attached && !MayStillRun(z.s.subs[a])
    ensures Sane(z)
  {
    hide Inv, MayStillRun;
  }

  lemma TickSane(y: System, race: Race, raw: Result)
    requires Sane(y) && !y.node.halting
    ensures Sane(Tick(y, race, raw))
  {
    var n, s := y.node, y.s;
    if n.orphan.Some? { DoneMeansDead(y, n.orphan); }
    if n.future.Some? { DoneMeansDead(y, n.future); }
    hide Inv, MayStillRun;
    if Unwinding(s, n.orphan) {
      SameLives(y, Tick(y, race, raw));
    } else {
      var y1 := y.(node := n.(orphan := None));
      SameLives(y, y1);
      if Unresolved(s, n.future) && !Alive(s) {
        var t := Next(s, Discard(n.future.value));
        SaneBridge(y);
        NextLater(s, Discard(n.future.value));
        MovedOnSane(y1, t);
        SameLives(y1.(s := t), Tick(y, race, raw));
      } else if Alive(s) && n.status != Running {
        StartSane(y1, race);
      } else {
        SameLives(y, Tick(y, race, raw));
      }
    }
  }

  lemma SameLives(y: System, z: System)
    requires z.s == y.s && z.mine == y.mine
    ensures forall id :: Lives(z, id) <==> Lives(y, id)
  {}

  lemma HaltStartSane(y: System, forced: bool)
    requires Sane(y) && !y.node.halting
    ensures Sane(HaltStart(y, forced))
  {
    hide Inv, MayStillRun;
    var halting := y.(node := y.node.(halting := true));
    SameLives(y, halting);
    if y.node.status == Running && forced && y.node.future.Some? {
      var e := CancelTask(y.node.future.value);
      SaneBridge(y);
      NextLater(y.s, e);
      MovedOnSane(halting, Next(y.s, e));
    }
  }

  lemma HaltEndSane(y: System)
    requires Sane(y)
    ensures Sane(HaltEnd(y))
  {
    if y.node.halting {
      if y.node.future.Some? { DoneMeansDead(y, y.node.future); }
      hide Inv, MayStillRun;
      SameLives(y, HaltEnd(y));
    }
  }

  lemma StepSane(y: System, op: Op)
    requires Sane(y)
    ensures Sane(Step(y, op))
  {
    hide Sane, Tick, HaltStart, HaltEnd;
    match op {
      case DoTick(race, raw) => if !y.node.halting { TickSane(y, race, raw); }
      case DoHaltStart(forced) => if !y.node.halting { HaltStartSane(y, forced); }
      case DoHaltEnd => HaltEndSane(y);
      case Elsewhere(e) => SaneBridge(y); NextLater(y.s, e); MovedOnSane(y, Next(y.s, e));
    }
  }

  lemma SaneBridge(y: System)
    requires Sane(y)
    ensures Inv(y.s)
  {}

  lemma {:induction false} GoSane(y: System, ops: seq<Op>)
    requires Sane(y)
    ensures Sane(Go(y, ops))
    decreases |ops|
  {
    hide Sane, Step;
    if ops != [] {
      StepSane(y, ops[0]);
      GoSane(Step(y, ops[0]), ops[1..]);
    }
  }

  // ----- what it guarantees -------------------------------------------------------------------

  /** Over any run of ticks, halts and whatever happens on the bridge, also when coroutines outlive
      their halt: at most one coroutine of the node is unfinished, and while the bridge is alive
      the node still holds its handle. */
  lemma NeverTwoCoroutines(events: seq<Happening>, ops: seq<Op>)
    ensures var y := Go(System(NEW, {}, Run(START, events)), ops);
      && (forall a, b | Lives(y, a) && Lives(y, b) :: a == b)
      && (Alive(y.s) ==> forall a: nat | Lives(y, a) :: y.node.future == Some(a) || y.node.orphan == Some(a))
  {
    RunInv(START, events);
    GoSane(System(NEW, {}, Run(START, events)), ops);
  }

  /** A tick starts a coroutine only when none of the node's is left unfinished. */
  lemma StartsOnlyWhenFree(y: System, race: Race, raw: Result)
    requires Sane(y) && !y.node.halting && Tick(y, race, raw).mine != y.mine
    ensures forall a :: !Lives(y, a)
  {
    if y.node.orphan.Some? { DoneMeansDead(y, y.node.orphan); }
  }

  /** When the bridge dies under a running coroutine the node fails and lets go of the handle, even
      of a coroutine that the host's loop will still run: only a bridge that stays the node's own
      and stays dead keeps a second one from being started. */
  lemma DeadBridgeDropsTheHandle(y: System, race: Race, raw: Result)
    requires Sane(y) && !y.node.halting && y.node.status == Running && !Alive(y.s)
    requires y.node.future.Some? && Lives(y, y.node.future.value)
    ensures var z := Tick(y, race, raw);
      z.node == Node(Failure, None, None, false) && Lives(z, y.node.future.value) && !Alive(z.s)
  {
    DoneMeansDead(y, y.node.future);
    assert SubOk(y.node.future.value, y.s);
  }

  // ----- what its ticks answer ------------------------------------------------------------------

  /** One tick.  It fails exactly when a coroutine it left behind is unwinding, the bridge is dead, it
      is about to start and the submission is refused, or its coroutine has returned FAILURE; else it
      starts, waits, or returns what its coroutine has returned. */
  lemma TickAnswers(y: System, race: Race, raw: Result)
    requires Sane(y) && !y.node.halting
    ensures var n, z := y.node, Tick(y, race, raw);
      var unwinding := n.orphan.Some? && MayStillRun(y.s.subs[n.orphan.value]);
      var dead := y.s.stopped || !y.s.up;
      var refused := Run(y.s, race.before).stopped || !Run(y.s, race.before).up;
      var resolved := n.future.Some? && y.s.subs[n.future.value].stage == Resolved;
      && (z.node.status == Failure <==>
            || unwinding || dead
            || (if n.status != Running then refused else resolved && raw == Failure))
      && (z.node.status != Failure && n.status != Running ==> z.node.status == Running && z.mine != y.mine)
      && (z.node.status != Failure && n.status == Running ==>
            z.mine == y.mine && z.node.status == if resolved then raw else Running)
  {
    if y.node.orphan.Some? { DoneMeansDead(y, y.node.orphan); }
    SaneBridge(y);
    RunLater(y.s, race.before);
    hide Inv, MayStillRun, Next, Run, TaskDone;
  }

  /** Ticks and whatever happens elsewhere, each tick finding the bridge alive and this submission
      unresolved. */
  ghost predicate Waits(y: System, ops: seq<Op>, id: nat)
    decreases |ops|
  {
    ops == [] ||
    (Waits(Step(y, ops[0]), ops[1..], id) &&
     match ops[0]
     case Elsewhere(_) => true
     case DoTick(_, _) => y.s.up && !y.s.stopped && id < |y.s.subs| && y.s.subs[id].stage != Resolved
     case _ => false)
  }

  /** What the ticks of a run answer. */
  function Answers(y: System, ops: seq<Op>): seq<Status>
    decreases |ops|
  {
    if ops == [] then []
    else
      var z := Step(y, ops[0]);
      (if ops[0].DoTick? then [z.node.status] else []) + Answers(z, ops[1..])
  }

  /** Waiting for submission `id`, with nothing left behind. */
  ghost predicate AwaitsOnly(y: System, id: nat) {
    Sane(y) && y.node == Node(Running, Some(id), None, false)
  }

  lemma {:induction false} WaitingIsRunning(y: System, ops: seq<Op>, id: nat)
    requires AwaitsOnly(y, id) && Waits(y, ops, id)
    ensures AwaitsOnly(Go(y, ops), id) && Go(y, ops).mine == y.mine
    ensures forall a | a in Answers(y, ops) :: a == Running
    decreases |ops|
  {
    if ops != [] {
      var z := Step(y, ops[0]);
      StepSane(y, ops[0]);
      assert z.node == y.node && z.mine == y.mine;
      hide Step, Sane;
      WaitingIsRunning(z, ops[1..], id);
    }
  }

  /** From a start on: whatever happens on the bridge, as long as it is alive each tick is RUNNING
      while the future is unresolved, and the first tick after it has been resolved returns exactly
      what the coroutine returned. */
  lemma AnswersItsCoroutine(y: System, race: Race, raw: Result, ops: seq<Op>, later: Race, returned: Result)
    requires Sane(y) && !y.node.halting && Tick(y, race, raw).mine != y.mine
    requires var id := |Run(y.s, race.before).subs|; Waits(Tick(y, race, raw), ops, id)
    requires var z := Go(Tick(y, race, raw), ops); z.s.up && !z.s.stopped
    ensures var id := |Run(y.s, race.before).subs|;
      var first := Tick(y, race, raw); var z := Go(first, ops); var last := Tick(z, later, returned);
      && first.node.status == Running && first.mine == y.mine + {id}
      && (forall a | a in Answers(first, ops) :: a == Running)
      && id < |z.s.subs| && last.mine == first.mine
      && last.node.status == if z.s.subs[id].stage == Resolved then returned else Running
  {
    var id, first := |Run(y.s, race.before).subs|, Tick(y, race, raw);
    TickSane(y, race, raw);
    assert first.node == Node(Running, Some(id), None, false) && first.mine == y.mine + {id} by {
      hide Sane, Next, Run, Unwinding, Unresolved;
    }
    hide Tick, Sane, Run, Next, Step;
    WaitingIsRunning(first, ops, id);
    var z := Go(first, ops);
    OwnInRange(z, id);
    TickAnswers(z, later, returned);
  }

  lemma OwnInRange(y: System, id: nat)
    requires AwaitsOnly(y, id)
    ensures id < |y.s.subs|
  {}

  /** A halt that is not forced leaves the bridge alone; a forced one marks the coroutine as cancelled
      and, if its task is known and the loop is open, queues the cancellation.  Once the halt has
      waited, the node keeps hold of the coroutine exactly when that is still unwinding. */
  lemma HaltCancels(y: System, forced: bool)
    requires Sane(y) && !y.node.halting && y.node.status == Running && y.node.future.Some?
    ensures var id := y.node.future.value; var z := HaltStart(y, forced); var sub := y.s.subs[id];
      && z.node == y.node.(halting := true) && z.mine == y.mine
      && (!forced ==> z.s == y.s)
      && (forced ==>
            && z.s.subs == y.s.subs[id := sub.(cancelled := true)]
            && z.s.queue == y.s.queue + if sub.task && !y.s.closed then [CancelCall(id)] else [])
  {}

  lemma HaltKeepsOrphan(y: System)
    requires Sane(y) && y.node.halting
    ensures var z := HaltEnd(y); var f := y.node.future;
      && z.node.status == Idle && z.node.future.None? && !z.node.halting && z.s == y.s && z.mine == y.mine
      && z.node.orphan == if f.Some? && MayStillRun(y.s.subs[f.value]) then f else y.node.orphan
  {
    if y.node.future.Some? { DoneMeansDead(y, y.node.future); }
  }

  /** So after a forced halt on a running loop, whatever other threads do meanwhile: if the loop takes
      its turns and the coroutine does not outlive its cancellation, it runs no more. */
  lemma ForcedHaltEnds(y: System, events: seq<Happening>)
    requires Sane(y) && !y.node.halting && y.node.status == Running && y.node.future.Some?
    requires y.s.up && !y.s.closed
    requires var z := HaltStart(y, true); EnoughTurns(z.s, events) && HeedsCancel(z.s, events, y.node.future.value)
    ensures var id := y.node.future.value; var t := Run(HaltStart(y, true).s, events);
      id < |t.subs| && !MayStillRun(t.subs[id])
  {
    SaneBridge(y);
    hide Inv, EnoughTurns, HeedsCancel, Run, Next;
    CancelEnds(y.s, y.node.future.value, events);
  }

  // A node that is not pinned to its bridge takes another one when it is ticked and its own is dead.

  /** The tick has come to where a bridge is looked for: no orphan is unwinding, and the node waits
      for no future. */
  predicate LooksForBridge(y: System) {
    && !Alive(y.s) && !y.node.halting && y.node.status != Running
    && y.node.orphan.None? && !Unresolved(y.s, y.node.future)
  }

  /** The node on its new bridge, on which it has submitted nothing yet. */
  function MovedTo(y: System, t: State): System {
    System(Node(y.node.status, None, None, false), {}, t)
  }

  /** After these events on the old bridge and these steps on the new one, at most one of the
      node's coroutines is unfinished. */
  ghost predicate AtMostOne(y: System, t: State, events: seq<Happening>, ops: seq<Op>) {
    var old_ := y.(s := Run(y.s, events));
    var new_ := Go(MovedTo(y, t), ops);
    && (forall a, b | Lives(old_, a) && Lives(old_, b) :: a == b)
    && (forall a, b | Lives(new_, a) && Lives(new_, b) :: a == b)
    && (forall a, b | Lives(old_, a) :: !Lives(new_, b))
  }

  ghost predicate NeverTwoInAll(y: System, t: State) {
    forall events, ops :: AtMostOne(y, t, events, ops)
  }

  /** Moving to a live bridge is safe exactly when none of the node's coroutines may still run. */
  lemma MovingIsSafeIff(y: System, t: State)
    requires Sane(y) && LooksForBridge(y) && Inv(t) && Alive(t)
    ensures NeverTwoInAll(y, t) <==> !exists id :: Lives(y, id)
  {
    hide *;
    if id :| Lives(y, id) { StartsOnNew(y, t, id); } else { SafeWhenNoneLives(y, t); }
  }

  lemma SafeWhenNoneLives(y: System, t: State)
    requires Sane(y) && LooksForBridge(y) && Inv(t) && forall id :: !Lives(y, id)
    ensures NeverTwoInAll(y, t)
  {
    hide Inv, Sane, Run, Go, MayStillRun, Lives, Unresolved, Alive;
    forall events, ops ensures AtMostOne(y, t, events, ops) {
      NoneRevive(y, events);
      MovedSane(y, t);
      GoSane(MovedTo(y, t), ops);
      OneOnly(Go(MovedTo(y, t), ops));
    }
  }

  lemma OneOnly(y: System)
    requires Sane(y)
    ensures forall a, b | Lives(y, a) && Lives(y, b) :: a == b
  {}

  lemma MovedSane(y: System, t: State)
    requires Inv(t) && y.node.status != Running
    ensures Sane(MovedTo(y, t))
  {
    hide Inv;
  }

  lemma NoneRevive(y: System, events: seq<Happening>)
    requires Sane(y) && forall id :: !Lives(y, id)
    ensures forall a :: !Lives(y.(s := Run(y.s, events)), a)
  {
    hide MayStillRun;
    RunLater(y.s, events);
    var z := y.(s := Run(y.s, events));
    hide Inv, Run;
    forall a ensures !Lives(z, a) { LivedBefore(y, z.s, a); }
  }

  lemma LivedBefore(y: System, t: State, id: nat)
    requires Sane(y) && Later(y.s, t)
    ensures Lives(y.(s := t), id) ==> Lives(y, id)
  {
    hide Inv, MayStillRun;
  }

  /** Its first tick on the new bridge starts a coroutine beside the one that lives on. */
  lemma StartsOnNew(y: System, t: State, id: nat)
    requires LooksForBridge(y) && Lives(y, id) && Alive(t)
    ensures !NeverTwoInAll(y, t)
  {
    var ops := [DoTick(QUIET, Running)];
    var t1 := Next(t, Submit);
    assert Run(y.s, []) == y.s && Run(t, []) == t && Run(t1, []) == t1;
    assert t1.subs[|t.subs|] == Sub(Queued, false, false, false, false);
    var x := Tick(MovedTo(y, t), QUIET, Running);
    assert ops[1..] == [] && Go(MovedTo(y, t), ops) == x;
    assert Lives(x, |t.subs|);
    assert y.(s := Run(y.s, [])) == y;
    assert !AtMostOne(y, t, [], ops);
  }

  /** And it may be unsafe: a node whose bridge died under its coroutine comes to look for a bridge
      while that coroutine lives. */
  lemma RebindingStartsASecond(y: System, t: State, raw: Result)
    requires Sane(y) && !y.node.halting && y.node.status == Running && !Alive(y.s)
    requires y.node.future.Some? && Lives(y, y.node.future.value) && Inv(t) && Alive(t)
    ensures var z := Tick(y, QUIET, raw); LooksForBridge(z) && Sane(z) && !NeverTwoInAll(z, t)
  {
    DeadBridgeDropsTheHandle(y, QUIET, raw);
    TickSane(y, QUIET, raw);
    hide Inv, Sane, Tick, NeverTwoInAll;
    StartsOnNew(Tick(y, QUIET, raw), t, y.node.future.value);
  }

  // ----- the object ------------------------------------------------------------------------------

  class CoroActionNode {
    const bridge: AsyncioBridge
    var status: Status
    var future: Option<nat>
    var orphan: Option<nat>
    var halting: bool
    ghost var mine: set<nat>

    constructor (bridge: AsyncioBridge)
      ensures this.bridge == bridge && Value() == System(NEW, {}, bridge.Value())
    {
      this.bridge := bridge;
      status, future, orphan, halting, mine := Idle, None, None, false, {};
    }

    ghost function Value(): System
      reads this, bridge, bridge.holders
    {
      System(Node(status, future, orphan, halting), mine, bridge.Value())
    }

    /** `tick`, no other thread coming in between */
    method DoTick(raw: Result)
      requires bridge.Valid() && Sane(Value()) && !halting
      modifies this, bridge, bridge.holders
      ensures bridge.Valid() && Value() == Tick(old(Value()), QUIET, raw)
      ensures var y := old(Value()); var n := y.node;
        var unwinding := n.orphan.Some? && MayStillRun(y.s.subs[n.orphan.value]);
        var resolved := n.future.Some? && y.s.subs[n.future.value].stage == Resolved;
        && (status == Failure <==>
              unwinding || y.s.stopped || !y.s.up || (n.status == Running && resolved && raw == Failure))
        && (status != Failure ==> status == if n.status == Running && resolved then raw else Running)
    {
      hide Inv, Next, MayStillRun, StartCoroutine, Unwinding;
      QuietAnswers(Value(), raw);
      var unwinding := DropOrphan();
      if unwinding {
        status := Failure;
        return;
      }
      var alive := bridge.up && !bridge.stopped;
      var waiting := future.Some? && bridge.holders[future.value].stage != Resolved;
      if waiting && !alive {
        bridge.DoDiscard(future.value);
        future := None;
        status := Failure;
      } else if !alive {
        status := Failure;
      } else if status != Running {
        Start();
      } else {
        status := if future.Some? && !waiting then raw else Running;
      }
    }

    /** Lets go of the orphan unless that is still unwinding. */
    method DropOrphan() returns (unwinding: bool)
      requires bridge.Valid() && Sane(Value())
      modifies this`orphan
      ensures unwinding == Unwinding(bridge.Value(), old(orphan)) && orphan == if unwinding then old(orphan) else None
    {
      hide Inv;
      unwinding := false;
      if orphan.Some? {
        var done := bridge.IsTaskDone(orphan.value);
        if done { orphan := None; } else { unwinding := true; }
      }
    }

    lemma QuietAnswers(y: System, raw: Result)
      requires Sane(y) && !y.node.halting
      ensures var n, z := y.node, Tick(y, QUIET, raw).node;
        var unwinding := n.orphan.Some? && MayStillRun(y.s.subs[n.orphan.value]);
        var resolved := n.future.Some? && y.s.subs[n.future.value].stage == Resolved;
        && (z.status == Failure <==>
              unwinding || y.s.stopped || !y.s.up || (n.status == Running && resolved && raw == Failure))
        && (z.status != Failure ==> z.status == if n.status == Running && resolved then raw else Running)
    {
      TickAnswers(y, QUIET, raw);
      assert Run(y.s, []) == y.s;
      hide Sane, Tick, MayStillRun;
    }

    method Start()
      requires bridge.Valid() && bridge.up && !bridge.stopped && orphan.None? && !halting
      modifies this, bridge, bridge.holders
      ensures bridge.Valid() && Value() == StartCoroutine(old(Value()), QUIET)
    {
      hide Inv, Next;
      var id := |bridge.holders|;
      AcceptedIs(bridge.Value());
      var _ := bridge.DoSubmit();
      bridge.AddDoneCallback(id);
      future, mine, status := Some(id), mine + {id}, Running;
    }

    lemma AcceptedIs(s: State)
      requires Alive(s)
      ensures var t := Next(s, Submit);
        |t.subs| == |s.subs| + 1 && !t.subs[|s.subs|].attached && Run(s, []) == s && Run(t, []) == t
    {}

    /** `_on_halt` up to where it has waited for the coroutine */
    method BeginHalt(forced: bool)
      requires bridge.Valid() && Sane(Value()) && !halting
      modifies this, bridge`queue, bridge.holders
      ensures bridge.Valid() && Value() == HaltStart(old(Value()), forced)
    {
      hide Inv, Next;
      if status == Running {
        if forced && future.Some? { var _ := bridge.DoCancelTask(future.value); }
        halting := true;
      }
    }

    /** the rest of `_on_halt` */
    method EndHalt()
      requires bridge.Valid() && Sane(Value()) && halting
      modifies this
      ensures Value() == HaltEnd(old(Value()))
    {
      hide Inv, Next;
      if future.Some? {
        var done := bridge.IsTaskDone(future.value);
        if !done { orphan := future; }
      }
      future, halting, status := None, false, Idle;
    }
  }
}
