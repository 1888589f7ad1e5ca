/** The bridge between tick loop and event loop: submissions from any thread, cancellation, and
    one shutdown of an owned loop, as atomic steps over locks and the loop's FIFO queue. */
module Bridge {

  // ----- state ------------------------------------------------------------------------------

  /** A submission: its start-up callback is queued; its task exists, first step queued; its
      coroutine has run up to an await; its task is done; its future is resolved. */
  datatype Stage = Queued | Created | Started | Finished | Resolved

  /** `task`: the holder knows the task, so the coroutine has begun.  `attached`: the submitting
      thread has hung its done-callback on the future. */
  datatype Sub = Sub(stage: Stage, task: bool, cancelled: bool, settled: bool, attached: bool)

  /** Callbacks in the loop's queue. */
  datatype Item =
    | Create(id: nat)
    | First(id: nat)
    | Wake(id: nat)
    | CancelCall(id: nat)
    | Resolve(id: nat)
    | Gather(id: nat)
    | DrainCreate
    | DrainFirst
    | DrainWake
    | DrainResolve

  /** The drain: not asked for, queued, its task made, waiting for these tasks, about to end, over. */
  datatype Drain = NoDrain | Asked | Made | Waiting(left: set<nat>) | Ending(woken: bool) | Done

  datatype State = State(
    queue: seq<Item>,
    subs: seq<Sub>,
    pending: int,
    stopped: bool,
    drain: Drain,
    up: bool,
    closed: bool)

  const START := State([], [], 0, false, NoDrain, true, false)

  // ----- steps ------------------------------------------------------------------------------

  /** Steps of any thread, and turns of the loop.  `ends`: whether the coroutine that a turn
      runs comes to its end. */
  datatype Happening =
    | Submit
    | Attach(id: nat)
    | CancelTask(id: nat)
    | Discard(id: nat)
    | Shutdown
    | AskDrain
    | Poke(id: nat)
    | Turn(ends: bool)
    | LoopEnds
    | LoopCloses

  function Push(s: State, items: seq<Item>): State { s.(queue := s.queue + items) }

  /** `_settle`: counts a submission down once. */
  function Settle(s: State, id: nat): State
    requires id < |s.subs|
  {
    if s.subs[id].settled then s
    else s.(subs := s.subs[id := s.subs[id].(settled := true)], pending := s.pending - 1)
  }

  /** The task is done: its future will be resolved, and then a drain waiting for it is told. */
  function Finish(s: State, id: nat, task: bool): State
    requires id < |s.subs|
  {
    Push(s.(subs := s.subs[id := s.subs[id].(stage := Finished, task := task)]),
         [Resolve(id)] + if s.drain.Waiting? && id in s.drain.left then [Gather(id)] else [])
  }

  /** Tasks that exist and are not done, oldest first. */
  function Unfinished(subs: seq<Sub>): (ids: seq<nat>)
    ensures forall id: nat :: id in ids <==> id < |subs| && (subs[id].stage == Created || subs[id].stage == Started)
    ensures |ids| <= |subs|
  {
    if subs == [] then []
    else
      var n := |subs| - 1;
      Unfinished(subs[..n]) + if subs[n].stage == Created || subs[n].stage == Started then [n] else []
  }

  function Wakes(ids: seq<nat>): (items: seq<Item>)
    ensures |items| == |ids| && forall i | 0 <= i < |ids| :: items[i] == Wake(ids[i])
  {
    seq(|ids|, i requires 0 <= i < |ids| => Wake(ids[i]))
  }

  /** One callback, taken from the head of the queue. */
  function Exec(item: Item, s: State, ends: bool): State
    requires item.Create? || item.First? || item.Wake? || item.CancelCall? || item.Resolve? ==> item.id < |s.subs|
  {
    match item
    case Create(id) => Push(s.(subs := s.subs[id := s.subs[id].(stage := Created)]), [First(id)])
    case First(id) =>
      if s.subs[id].cancelled then Finish(s, id, false)
      else if ends then Finish(s, id, true)
      else s.(subs := s.subs[id := s.subs[id].(stage := Started, task := true)])
    case Wake(id) => if s.subs[id].stage == Started && ends then Finish(s, id, true) else s
    case CancelCall(id) => if s.subs[id].stage == Started then Push(s, [Wake(id)]) else s
    case Resolve(id) =>
      var s1 := s.(subs := s.subs[id := s.subs[id].(stage := Resolved)]);
      if s.subs[id].attached then Settle(s1, id) else s1
    case Gather(id) =>
      if !s.drain.Waiting? then s
      else if s.drain.left - {id} == {} then Push(s.(drain := Ending(false)), [DrainWake])
      else s.(drain := Waiting(s.drain.left - {id}))
    case DrainCreate => Push(s.(drain := Made), [DrainFirst])
    case DrainFirst =>
      var ids := Unfinished(s.subs);
      if ids == [] then Push(s.(drain := Ending(true)), [DrainResolve])
      else Push(s.(drain := Waiting(set id | id in ids)), Wakes(ids))
    case DrainWake => Push(s.(drain := Ending(true)), [DrainResolve])
    case DrainResolve => s.(drain := Done)
  }

  predicate ItemIn(item: Item, s: State) {
    item.Create? || item.First? || item.Wake? || item.CancelCall? || item.Resolve? ==> item.id < |s.subs|
  }

  /** Steps that find nothing to do leave the state alone. */
  function Next(s: State, e: Happening): State {
    match e
    case Submit =>
      if s.stopped || !s.up then s
      else Push(s.(pending := s.pending + 1, subs := s.subs + [Sub(Queued, false, false, false, false)]),
                [Create(|s.subs|)])
    case Attach(id) =>
      if id >= |s.subs| || s.subs[id].attached then s
      else
        var s1 := s.(subs := s.subs[id := s.subs[id].(attached := true)]);
        if s.subs[id].stage == Resolved then Settle(s1, id) else s1
    case CancelTask(id) =>
      if id >= |s.subs| || !s.subs[id].attached then s
      else
        var s1 := s.(subs := s.subs[id := s.subs[id].(cancelled := true)]);
        if s.subs[id].task && !s.closed then Push(s1, [CancelCall(id)]) else s1
    case Discard(id) => if id >= |s.subs| || !s.subs[id].attached then s else Settle(s, id)
    case Shutdown => s.(stopped := true)
    case AskDrain => if s.stopped && s.drain == NoDrain && !s.closed then Push(s.(drain := Asked), [DrainCreate]) else s
    case Poke(id) => if id < |s.subs| && s.subs[id].stage == Started then Push(s, [Wake(id)]) else s
    case Turn(ends) =>
      if !s.up || s.queue == [] || !ItemIn(s.queue[0], s) then s
      else Exec(s.queue[0], s.(queue := s.queue[1..]), ends)
    case LoopEnds => s.(up := false)
    case LoopCloses => s.(up := false, closed := true)
  }

  function Run(s: State, events: seq<Happening>): State
    decreases |events|
  {
    if events == [] then s else Run(Next(s, events[0]), events[1..])
  }

  // ----- the invariant -------------------------------------------------------------------------

  function Unsettled(subs: seq<Sub>): nat {
    if subs == [] then 0
    else Unsettled(subs[..|subs| - 1]) + if subs[|subs| - 1].settled then 0 else 1
  }

  /** An item in the queue matches what it is about. */
  ghost predicate ItemOk(item: Item, s: State) {
    match item
    case Create(id) => id < |s.subs| && s.subs[id].stage == Queued
    case First(id) => id < |s.subs| && s.subs[id].stage == Created
    case Wake(id) => id < |s.subs|
    case CancelCall(id) => id < |s.subs|
    case Resolve(id) => id < |s.subs| && s.subs[id].stage == Finished
    case Gather(id) =>
      && id < |s.subs| && s.drain.Waiting? && id in s.drain.left
      && (s.subs[id].stage == Finished || s.subs[id].stage == Resolved)
    case DrainCreate => s.drain == Asked
    case DrainFirst => s.drain == Made
    case DrainWake => s.drain == Ending(false)
    case DrainResolve => s.drain == Ending(true)
  }

  ghost predicate SubOk(id: nat, s: State)
    requires id < |s.subs|
  {
    var sub := s.subs[id];
    && (sub.stage == Queued ==> Create(id) in s.queue)
    && (sub.stage == Created ==> First(id) in s.queue)
    && (sub.stage == Finished ==> Resolve(id) in s.queue)
    && (sub.task ==> sub.stage != Queued && sub.stage != Created)
    && (sub.stage == Started ==> sub.task)
    && (!sub.task && (sub.stage == Finished || sub.stage == Resolved) ==> sub.cancelled)
    && (sub.settled ==> sub.attached)
    && (sub.stage == Resolved && sub.attached ==> sub.settled)
  }

  ghost predicate NoneAt(s: State, stage: Stage) { forall id | 0 <= id < |s.subs| :: s.subs[id].stage != stage }

  ghost predicate DrainOk(s: State) {
    && (s.drain != NoDrain ==> s.stopped)
    && match s.drain
       case NoDrain => true
       case Asked => DrainCreate in s.queue
       case Made => DrainFirst in s.queue && NoneAt(s, Queued)
       case Waiting(left) =>
         && left != {} && NoneAt(s, Queued) && NoneAt(s, Created)
         && (forall id | 0 <= id < |s.subs| && s.subs[id].stage == Started :: id in left)
         && (forall id | id in left :: id < |s.subs| && (s.subs[id].stage == Started || Gather(id) in s.queue))
       case Ending(woken) =>
         && (if woken then DrainResolve else DrainWake) in s.queue
         && NoneAt(s, Queued) && NoneAt(s, Created) && NoneAt(s, Started)
       case Done => forall id | 0 <= id < |s.subs| :: s.subs[id].stage == Resolved
  }

  /** `b` may not stand behind `a` in the queue: start-ups come before the drain, results before
      the drain hears of them, and nothing but wake-ups is queued twice. */
  ghost predicate MayFollow(a: Item, b: Item) {
    && (a == b ==> a.Wake? || a.CancelCall?)
    && !(a.DrainCreate? && b.Create?)
    && !(a.DrainFirst? && (b.First? || b.Create?))
    && !(a.Gather? && b == Resolve(a.id))
    && !((a.DrainWake? || a.DrainResolve?) && b.Resolve?)
  }

  ghost predicate Order(q: seq<Item>) { forall i, j | 0 <= i < j < |q| :: MayFollow(q[i], q[j]) }

  ghost predicate Inv(s: State) {
    && s.pending == Unsettled(s.subs)
    && (forall x | x in s.queue :: ItemOk(x, s))
    && (forall id | 0 <= id < |s.subs| :: SubOk(id, s))
    && DrainOk(s)
    && Order(s.queue)
  }

  lemma {:induction false} UnsettledChange(subs: seq<Sub>, id: nat, sub: Sub)
    requires id < |subs|
    ensures Unsettled(subs[id := sub])
      == Unsettled(subs) + (if sub.settled then 0 else 1) - if subs[id].settled then 0 else 1
  {
    var n := |subs| - 1;
    if id < n {
      UnsettledChange(subs[..n], id, sub);
      assert subs[id := sub][..n] == subs[..n][id := sub];
    } else {
      assert subs[id := sub][..n] == subs[..n];
    }
  }

  lemma OrderPush(q: seq<Item>, items: seq<Item>)
    requires Order(q) && Order(items)
    requires forall a, b | a in q && b in items :: MayFollow(a, b)
    ensures Order(q + items)
  {
    hide MayFollow;
    forall i, j | 0 <= i < j < |q + items| ensures MayFollow((q + items)[i], (q + items)[j]) {
      if j >= |q| && i < |q| { assert q[i] in q && items[j - |q|] in items; }
    }
  }

  /** What an item taken off the head of the queue may say about the rest. */
  lemma Popped(s: State)
    requires Inv(s) && s.queue != []
    ensures Order(s.queue[1..])
    ensures forall b | b in s.queue[1..] :: MayFollow(s.queue[0], b)
    ensures forall x | x in s.queue :: x == s.queue[0] || x in s.queue[1..]
    ensures forall x | x in s.queue[1..] :: ItemOk(x, s)
  {
    forall b | b in s.queue[1..] ensures MayFollow(s.queue[0], b) && ItemOk(b, s) {
      var j :| 0 <= j < |s.queue| - 1 && s.queue[1..][j] == b;
      assert s.queue[j + 1] == b;
    }
  }

  /** Taking `s.queue[0]` off, changing submission `id` and queueing `items` leads from `s` to `t`. */
  ghost predicate Moves(s: State, t: State, id: nat, items: seq<Item>) {
    && s.queue != [] && id < |s.subs|
    && t.queue == s.queue[1..] + items
    && |t.subs| == |s.subs| && t.subs == s.subs[id := t.subs[id]]
    && t.stopped == s.stopped && t.drain == s.drain
  }

  lemma MovesInv(s: State, t: State, id: nat, items: seq<Item>)
    requires Inv(s) && Moves(s, t, id, items)
    requires var x := s.queue[0]; x.Create? || x.First? || x.Resolve? || x.Wake? || x.CancelCall?
    requires s.queue[0].id == id && SubOk(id, t) && DrainOk(t)
    requires t.pending == s.pending + Unsettled(t.subs) - Unsettled(s.subs)
    requires forall x | x in s.queue[1..] :: ItemOk(x, t)
    requires forall x | x in items :: ItemOk(x, t)
    requires Order(items) && forall a, b | a in s.queue[1..] && b in items :: MayFollow(a, b)
    ensures Inv(t)
  {
    Popped(s);
    OrderPush(s.queue[1..], items);
    forall i | 0 <= i < |t.subs| ensures SubOk(i, t) {
      if i != id { assert SubOk(i, s) && t.subs[i] == s.subs[i]; }
    }
  }

  lemma CreateInv(s: State, id: nat)
    requires Inv(s) && s.queue != [] && s.queue[0] == Create(id) && id < |s.subs|
    ensures Inv(Exec(Create(id), s.(queue := s.queue[1..]), true))
  {
    Popped(s);
    var t := Exec(Create(id), s.(queue := s.queue[1..]), true);
    assert ItemOk(s.queue[0], s) && SubOk(id, s);
    UnsettledChange(s.subs, id, t.subs[id]);
    forall x | x in s.queue[1..] ensures ItemOk(x, t) && MayFollow(x, First(id)) {
      assert ItemOk(x, s) && MayFollow(s.queue[0], x);
    }
    MovesInv(s, t, id, [First(id)]);
  }

  lemma OrderShort(x: Item)
    ensures Order([]) && Order([x])
  {}

  /** The coroutine of a task that exists comes to its end, or never begins. */
  lemma FinishInv(s: State, id: nat, task: bool)
    requires Inv(s) && s.queue != [] && id < |s.subs|
    requires s.queue[0] == First(id) || (s.queue[0] == Wake(id) && s.subs[id].stage == Started)
    requires task || s.subs[id].cancelled
    ensures Inv(Finish(s.(queue := s.queue[1..]), id, task))
  {
    hide Order, Unsettled, MayFollow;
    var t := Finish(s.(queue := s.queue[1..]), id, task);
    var tell := s.drain.Waiting? && id in s.drain.left;
    var items := [Resolve(id)] + if tell then [Gather(id)] else [];
    assert ItemOk(s.queue[0], s) && SubOk(id, s);
    UnsettledChange(s.subs, id, t.subs[id]);
    FinishItems(s, id, task);
    FinishOrder(id);
    assert !tell ==> items == [Resolve(id)];
    assert tell ==> items == [Resolve(id), Gather(id)];
    hide ItemOk;
    MovesInv(s, t, id, items);
  }

  lemma FinishOrder(id: nat)
    ensures Order([Resolve(id)]) && Order([Resolve(id), Gather(id)])
  {}

  /** The items that stay in the queue are still in order, and what is queued may follow them. */
  lemma FinishItems(s: State, id: nat, task: bool)
    requires Inv(s) && s.queue != [] && id < |s.subs|
    requires s.queue[0] == First(id) || (s.queue[0] == Wake(id) && s.subs[id].stage == Started)
    ensures var t := Finish(s.(queue := s.queue[1..]), id, task);
      forall x | x in s.queue[1..] :: ItemOk(x, t) && MayFollow(x, Resolve(id))
        && (s.drain.Waiting? && id in s.drain.left ==> MayFollow(x, Gather(id)))
  {
    Popped(s);
    assert ItemOk(s.queue[0], s);
    hide Inv;
    var t := Finish(s.(queue := s.queue[1..]), id, task);
    forall x | x in s.queue[1..]
      ensures ItemOk(x, t) && MayFollow(x, Resolve(id))
        && (s.drain.Waiting? && id in s.drain.left ==> MayFollow(x, Gather(id)))
    {
      assert ItemOk(x, s) && MayFollow(s.queue[0], x);
    }
  }

  lemma FirstInv(s: State, id: nat, ends: bool)
    requires Inv(s) && s.queue != [] && s.queue[0] == First(id) && id < |s.subs|
    ensures Inv(Exec(First(id), s.(queue := s.queue[1..]), ends))
  {
    if s.subs[id].cancelled {
      FinishInv(s, id, false);
    } else if ends {
      FinishInv(s, id, true);
    } else {
      hide Order, Unsettled;
      OrderShort(Wake(id));
      Popped(s);
      var t := Exec(First(id), s.(queue := s.queue[1..]), ends);
      assert ItemOk(s.queue[0], s) && SubOk(id, s);
      UnsettledChange(s.subs, id, t.subs[id]);
      forall x | x in s.queue[1..] ensures ItemOk(x, t) { assert ItemOk(x, s) && MayFollow(s.queue[0], x); }
      MovesInv(s, t, id, []);
    }
  }

  lemma WakeInv(s: State, id: nat, ends: bool)
    requires Inv(s) && s.queue != [] && id < |s.subs| && (s.queue[0] == Wake(id) || s.queue[0] == CancelCall(id))
    ensures Inv(Exec(s.queue[0], s.(queue := s.queue[1..]), ends))
  {
    hide Inv;
    if s.queue[0].Wake? {
      if s.subs[id].stage == Started && ends { FinishInv(s, id, true); } else { LeavesInv(s, id, []); }
    } else {
      LeavesInv(s, id, if s.subs[id].stage == Started then [Wake(id)] else []);
    }
  }

  /** A wake-up or a cancellation has left the queue; it may have queued a wake-up. */
  lemma LeavesInv(s: State, id: nat, items: seq<Item>)
    requires Inv(s) && s.queue != [] && id < |s.subs| && (s.queue[0] == Wake(id) || s.queue[0] == CancelCall(id))
    requires items == [] || items == [Wake(id)]
    ensures Inv(s.(queue := s.queue[1..] + items))
    ensures items == [] ==> s.queue[1..] + items == s.queue[1..]
  {
    Popped(s);
    OrderShort(Wake(id));
    var t := s.(queue := s.queue[1..] + items);
    assert SubOk(id, s);
    hide Order, Unsettled;
    forall x | x in s.queue[1..] ensures ItemOk(x, t) && MayFollow(x, Wake(id)) { assert ItemOk(x, s); }
    hide MayFollow, ItemOk;
    assert ItemOk(Wake(id), t) by { WakeOk(t, id); }
    MovesInv(s, t, id, items);
  }

  lemma WakeOk(s: State, id: nat)
    requires id < |s.subs|
    ensures ItemOk(Wake(id), s)
  {}

  lemma ResolveInv(s: State, id: nat)
    requires Inv(s) && s.queue != [] && s.queue[0] == Resolve(id) && id < |s.subs|
    ensures Inv(Exec(Resolve(id), s.(queue := s.queue[1..]), true))
  {
    hide Order, Unsettled, MayFollow;
    var t := Exec(Resolve(id), s.(queue := s.queue[1..]), true);
    assert ItemOk(s.queue[0], s) && SubOk(id, s);
    UnsettledChange(s.subs, id, t.subs[id]);
    ResolveItems(s, id);
    OrderShort(Wake(id));
    hide ItemOk;
    MovesInv(s, t, id, []);
  }

  lemma ResolveItems(s: State, id: nat)
    requires Inv(s) && s.queue != [] && s.queue[0] == Resolve(id) && id < |s.subs|
    ensures var t := Exec(Resolve(id), s.(queue := s.queue[1..]), true); forall x | x in s.queue[1..] :: ItemOk(x, t)
  {
    Popped(s);
    assert ItemOk(s.queue[0], s);
    hide Inv;
    var t := Exec(Resolve(id), s.(queue := s.queue[1..]), true);
    forall x | x in s.queue[1..] ensures ItemOk(x, t) { assert ItemOk(x, s) && MayFollow(s.queue[0], x); }
  }

  /** Taking `s.queue[0]` off and queueing `items` leads from `s` to `t`, which differs in its drain only. */
  lemma DrainMovesInv(s: State, t: State, items: seq<Item>)
    requires Inv(s) && s.queue != [] && t.queue == s.queue[1..] + items
    requires var x := s.queue[0];
      x.Gather? || x.DrainCreate? || x.DrainFirst? || x.DrainWake? || x.DrainResolve?
    requires t.subs == s.subs && t.pending == s.pending && DrainOk(t)
    requires forall x | x in s.queue[1..] :: ItemOk(x, t)
    requires forall x | x in items :: ItemOk(x, t)
    requires Order(items) && forall a, b | a in s.queue[1..] && b in items :: MayFollow(a, b)
    ensures Inv(t)
  {
    Popped(s);
    OrderPush(s.queue[1..], items);
    forall i | 0 <= i < |t.subs| ensures SubOk(i, t) { assert SubOk(i, s); }
  }

  lemma GatherInv(s: State, id: nat)
    requires Inv(s) && s.queue != [] && s.queue[0] == Gather(id)
    ensures Inv(Exec(Gather(id), s.(queue := s.queue[1..]), true))
  {
    var t := Exec(Gather(id), s.(queue := s.queue[1..]), true);
    Popped(s);
    OrderShort(DrainWake);
    GatherItems(s, t, id);
    GatherDrain(s, t, id);
    assert ItemOk(s.queue[0], s);
    hide Inv, Order, ItemOk, MayFollow, DrainOk;
    if t.drain.Waiting? {
      assert t.queue == s.queue[1..] + [];
      DrainMovesInv(s, t, []);
    } else {
      assert t.queue == s.queue[1..] + [DrainWake];
      DrainMovesInv(s, t, [DrainWake]);
    }
  }

  lemma GatherItems(s: State, t: State, id: nat)
    requires Inv(s) && s.queue != [] && s.queue[0] == Gather(id)
    requires t == Exec(Gather(id), s.(queue := s.queue[1..]), true)
    ensures forall x | x in s.queue[1..] :: ItemOk(x, t) && MayFollow(x, DrainWake)
    ensures !t.drain.Waiting? ==> ItemOk(DrainWake, t)
  {
    Popped(s);
    assert ItemOk(s.queue[0], s);
    hide Inv, Order;
    forall x | x in s.queue[1..] ensures ItemOk(x, t) && MayFollow(x, DrainWake) {
      assert ItemOk(x, s) && MayFollow(s.queue[0], x);
      if x.Gather? { assert x.id in s.drain.left - {id}; }
    }
  }

  lemma GatherDrain(s: State, t: State, id: nat)
    requires Inv(s) && s.queue != [] && s.queue[0] == Gather(id)
    requires t == Exec(Gather(id), s.(queue := s.queue[1..]), true)
    ensures DrainOk(t)
  {
    assert ItemOk(s.queue[0], s);
    forall i | 0 <= i < |s.subs| && s.drain.left - {id} == {}
      ensures s.subs[i].stage == Finished || s.subs[i].stage == Resolved
    {
      assert SubOk(i, s);
      assert s.subs[i].stage == Started ==> i in s.drain.left - {id} || i == id;
    }
    forall x | x in s.queue && x != Gather(id) ensures x in s.queue[1..] { Popped(s); }
  }

  lemma DrainCreateInv(s: State)
    requires Inv(s) && s.queue != [] && s.queue[0] == DrainCreate
    ensures Inv(Exec(DrainCreate, s.(queue := s.queue[1..]), true))
  {
    hide Unsettled;
    Popped(s);
    var t := Exec(DrainCreate, s.(queue := s.queue[1..]), true);
    assert ItemOk(s.queue[0], s);
    OrderShort(DrainFirst);
    forall i | 0 <= i < |s.subs| ensures s.subs[i].stage != Queued {
      assert SubOk(i, s) && !MayFollow(DrainCreate, Create(i));
    }
    forall x | x in s.queue[1..] ensures ItemOk(x, t) && MayFollow(x, DrainFirst) {
      assert ItemOk(x, s) && MayFollow(s.queue[0], x);
    }
    DrainMovesInv(s, t, [DrainFirst]);
  }

  lemma DrainFirstInv(s: State)
    requires Inv(s) && s.queue != [] && s.queue[0] == DrainFirst
    ensures Inv(Exec(DrainFirst, s.(queue := s.queue[1..]), true))
  {
    hide Unfinished, Wakes;
    Popped(s);
    var t := Exec(DrainFirst, s.(queue := s.queue[1..]), true);
    var ids := Unfinished(s.subs);
    var items := if ids == [] then [DrainResolve] else Wakes(ids);
    OrderShort(DrainResolve);
    WakesInOrder(ids);
    AllCreated(s);
    DrainFirstItems(s, t, items);
    assert ItemOk(s.queue[0], s);
    DrainFirstOk(s, t);
    hide Inv, Order, ItemOk, MayFollow, DrainOk;
    DrainMovesInv(s, t, items);
  }

  /** The drain's first turn comes after every start-up. */
  lemma AllCreated(s: State)
    requires Inv(s) && s.queue != [] && s.queue[0] == DrainFirst
    ensures NoneAt(s, Queued) && NoneAt(s, Created)
  {
    Popped(s);
    assert ItemOk(s.queue[0], s);
    forall i | 0 <= i < |s.subs| ensures s.subs[i].stage != Created {
      assert SubOk(i, s) && !MayFollow(DrainFirst, First(i));
    }
  }

  lemma DrainFirstItems(s: State, t: State, items: seq<Item>)
    requires Inv(s) && s.queue != [] && s.queue[0] == DrainFirst
    requires t == Exec(DrainFirst, s.(queue := s.queue[1..]), true)
    requires var ids := Unfinished(s.subs); items == if ids == [] then [DrainResolve] else Wakes(ids)
    ensures forall x | x in s.queue[1..] :: ItemOk(x, t)
    ensures forall x | x in items :: ItemOk(x, t)
    ensures forall a, b | a in s.queue[1..] && b in items :: MayFollow(a, b)
  {
    Popped(s);
    assert ItemOk(s.queue[0], s);
    DrainAdds(s, t, items);
    hide Inv, Order, Exec, Unfinished, Wakes, MayFollow, ItemOk;
    forall x | x in s.queue[1..] ensures ItemOk(x, t) { KeptByDrain(x, s, t); }
    forall a, b | a in s.queue[1..] && b in items ensures MayFollow(a, b) { BeforeDrainItem(a, b, s); }
  }

  /** The drain's first turn queues wake-ups, or its own end. */
  lemma DrainAdds(s: State, t: State, items: seq<Item>)
    requires s.queue != [] && s.drain == Made && t == Exec(DrainFirst, s.(queue := s.queue[1..]), true)
    requires var ids := Unfinished(s.subs); items == if ids == [] then [DrainResolve] else Wakes(ids)
    ensures t.subs == s.subs && forall x | x in items :: ItemOk(x, t) && (x.Wake? || x.DrainResolve?)
  {
    hide Unfinished, Wakes;
    var ids := Unfinished(s.subs);
    if ids == [] {
      assert t.drain == Ending(true);
    } else {
      assert t.subs == s.subs;
      hide Exec;
      WakesAreOk(ids, t);
    }
  }

  lemma WakesAreOk(ids: seq<nat>, t: State)
    requires forall id | id in ids :: id < |t.subs|
    ensures forall x | x in Wakes(ids) :: x.Wake? && ItemOk(x, t)
  {
    forall x | x in Wakes(ids) ensures x.Wake? && ItemOk(x, t) {
      var k :| 0 <= k < |ids| && Wakes(ids)[k] == x;
      assert ids[k] in ids;
    }
  }

  lemma BeforeDrainItem(a: Item, b: Item, s: State)
    requires ItemOk(a, s) && s.drain == Made && (b.Wake? || b.DrainResolve?)
    ensures MayFollow(a, b)
  {}

  /** What stands behind the drain's first turn is not about a start-up or about the drain. */
  lemma KeptByDrain(x: Item, s: State, t: State)
    requires ItemOk(x, s) && s.drain == Made && MayFollow(DrainFirst, x) && t.subs == s.subs
    ensures ItemOk(x, t)
  {}

  lemma DrainFirstOk(s: State, t: State)
    requires NoneAt(s, Queued) && NoneAt(s, Created) && DrainOk(s) && s.drain == Made
    requires t == Exec(DrainFirst, s.(queue := s.queue[1..]), true)
    ensures DrainOk(t)
  {
    hide Unfinished, Wakes;
    var ids := Unfinished(s.subs);
    if ids != [] { assert ids[0] in t.drain.left; }
  }

  lemma WakesInOrder(ids: seq<nat>)
    ensures Order(Wakes(ids))
  {}

  lemma DrainEndInv(s: State)
    requires Inv(s) && s.queue != [] && (s.queue[0] == DrainWake || s.queue[0] == DrainResolve)
    ensures Inv(Exec(s.queue[0], s.(queue := s.queue[1..]), true))
  {
    hide Unsettled;
    Popped(s);
    var t := Exec(s.queue[0], s.(queue := s.queue[1..]), true);
    assert ItemOk(s.queue[0], s);
    OrderShort(DrainResolve);
    forall i | 0 <= i < |s.subs| ensures s.subs[i].stage == Finished || s.subs[i].stage == Resolved {
      assert SubOk(i, s);
    }
    if s.queue[0] == DrainResolve {
      forall i | 0 <= i < |s.subs| ensures s.subs[i].stage == Resolved {
        assert SubOk(i, s) && !MayFollow(DrainResolve, Resolve(i));
      }
    }
    forall x | x in s.queue[1..] ensures ItemOk(x, t) && MayFollow(x, DrainResolve) {
      assert ItemOk(x, s) && MayFollow(s.queue[0], x);
    }
    DrainMovesInv(s, t, if s.queue[0] == DrainWake then [DrainResolve] else []);
  }

  lemma TurnInv(s: State, ends: bool)
    requires Inv(s)
    ensures Inv(Next(s, Turn(ends)))
  {
    if s.up && s.queue != [] {
      assert ItemOk(s.queue[0], s);
      hide Inv, Exec;
      match s.queue[0] {
        case Create(id) => CreateInv(s, id);
        case First(id) => FirstInv(s, id, ends);
        case Wake(id) => WakeInv(s, id, ends);
        case CancelCall(id) => WakeInv(s, id, ends);
        case Resolve(id) => ResolveInv(s, id);
        case Gather(id) => GatherInv(s, id);
        case DrainCreate => DrainCreateInv(s);
        case DrainFirst => DrainFirstInv(s);
        case DrainWake => DrainEndInv(s);
        case DrainResolve => DrainEndInv(s);
      }
    }
  }

  // ----- steps of the other threads keep the invariant ---------------------------------------------

  lemma SubmitInv(s: State)
    requires Inv(s)
    ensures Inv(Next(s, Submit))
  {
    if !s.stopped && s.up {
      var t, n := Next(s, Submit), |s.subs|;
      assert t.subs[..n] == s.subs;
      OrderShort(Create(n));
      forall x | x in s.queue ensures ItemOk(x, t) && MayFollow(x, Create(n)) { assert ItemOk(x, s); }
      hide Unsettled;
      OrderPush(s.queue, [Create(n)]);
      forall i | 0 <= i < |t.subs| ensures SubOk(i, t) {
        if i < n { assert SubOk(i, s) && t.subs[i] == s.subs[i]; }
      }
    }
  }

  /** One submission's flags change, and perhaps a wake-up or a cancellation is queued. */
  lemma FlagsInv(s: State, t: State, id: nat, items: seq<Item>)
    requires Inv(s) && id < |s.subs| == |t.subs| && t.subs == s.subs[id := t.subs[id]]
    requires t.subs[id].stage == s.subs[id].stage && t.subs[id].task == s.subs[id].task && SubOk(id, t)
    requires t.pending == s.pending + Unsettled(t.subs) - Unsettled(s.subs)
    requires t.drain == s.drain && t.stopped == s.stopped && t.queue == s.queue + items
    requires items == [] || items == [Wake(id)] || items == [CancelCall(id)]
    ensures Inv(t)
  {
    hide Unsettled;
    OrderShort(Wake(id));
    OrderShort(CancelCall(id));
    forall x | x in s.queue ensures ItemOk(x, t) { assert ItemOk(x, s); }
    OrderPush(s.queue, items);
    forall i | 0 <= i < |t.subs| ensures SubOk(i, t) {
      if i != id { assert SubOk(i, s) && t.subs[i] == s.subs[i]; }
    }
  }

  lemma AttachInv(s: State, id: nat)
    requires Inv(s)
    ensures Inv(Next(s, Attach(id)))
  {
    var t := Next(s, Attach(id));
    if id < |s.subs| && !s.subs[id].attached {
      assert SubOk(id, s);
      UnsettledChange(s.subs, id, t.subs[id]);
      FlagsInv(s, t, id, []);
    }
  }

  lemma CancelTaskInv(s: State, id: nat)
    requires Inv(s)
    ensures Inv(Next(s, CancelTask(id)))
  {
    var t := Next(s, CancelTask(id));
    if id < |s.subs| && s.subs[id].attached {
      assert SubOk(id, s);
      UnsettledChange(s.subs, id, t.subs[id]);
      FlagsInv(s, t, id, if s.subs[id].task && !s.closed then [CancelCall(id)] else []);
    }
  }

  lemma DiscardInv(s: State, id: nat)
    requires Inv(s)
    ensures Inv(Next(s, Discard(id)))
  {
    var t := Next(s, Discard(id));
    if id < |s.subs| && s.subs[id].attached {
      assert SubOk(id, s);
      UnsettledChange(s.subs, id, t.subs[id]);
      FlagsInv(s, t, id, []);
    }
  }

  lemma PokeInv(s: State, id: nat)
    requires Inv(s)
    ensures Inv(Next(s, Poke(id)))
  {
    if id < |s.subs| && s.subs[id].stage == Started {
      assert SubOk(id, s);
      FlagsInv(s, Next(s, Poke(id)), id, [Wake(id)]);
    }
  }

  lemma ShutdownInv(s: State, e: Happening)
    requires Inv(s) && (e == Shutdown || e == AskDrain || e == LoopEnds || e == LoopCloses)
    ensures Inv(Next(s, e))
  {
    hide Unsettled;
    var t := Next(s, e);
    OrderShort(DrainCreate);
    forall x | x in s.queue ensures ItemOk(x, t) && (s.drain == NoDrain ==> MayFollow(x, DrainCreate)) {
      assert ItemOk(x, s);
    }
    if t.queue != s.queue { OrderPush(s.queue, [DrainCreate]); }
    forall i | 0 <= i < |t.subs| ensures SubOk(i, t) { assert SubOk(i, s); }
  }

  lemma NextInv(s: State, e: Happening)
    requires Inv(s)
    ensures Inv(Next(s, e))
  {
    hide Inv, Next;
    match e {
      case Submit => SubmitInv(s);
      case Attach(id) => AttachInv(s, id);
      case CancelTask(id) => CancelTaskInv(s, id);
      case Discard(id) => DiscardInv(s, id);
      case Poke(id) => PokeInv(s, id);
      case Turn(ends) => TurnInv(s, ends);
      case _ => ShutdownInv(s, e);
    }
  }

  lemma {:induction false} RunInv(s: State, events: seq<Happening>)
    requires Inv(s)
    ensures Inv(Run(s, events))
    decreases |events|
  {
    hide Inv, Next;
    if events != [] {
      NextInv(s, events[0]);
      RunInv(Next(s, events[0]), events[1..]);
    }
  }

  // ----- what the protocol guarantees ---------------------------------------------------------------

  function Accepted(s: State): nat { |s.subs| }

  function Count(subs: seq<Sub>, p: Sub -> bool): nat {
    if subs == [] then 0 else Count(subs[..|subs| - 1], p) + if p(subs[|subs| - 1]) then 1 else 0
  }

  lemma {:induction false} UnsettledIs(subs: seq<Sub>)
    ensures Unsettled(subs) == |subs| - Count(subs, (x: Sub) => x.settled)
  {
    if subs != [] { UnsettledIs(subs[..|subs| - 1]); }
  }

  /** The pending count is always the number of accepted submissions less those settled. */
  lemma PendingIsAcceptedMinusSettled(events: seq<Happening>)
    ensures var s := Run(START, events); s.pending == Accepted(s) - Count(s.subs, (x: Sub) => x.settled)
  {
    RunInv(START, events);
    UnsettledIs(Run(START, events).subs);
  }

  lemma {:induction false} StoppedAccepts(s: State, events: seq<Happening>)
    requires s.stopped
    ensures Run(s, events).stopped && Accepted(Run(s, events)) == Accepted(s)
    decreases |events|
  {
    if events != [] {
      var t := Next(s, events[0]);
      assert t.stopped && |t.subs| == |s.subs|;
      hide Next;
      StoppedAccepts(t, events[1..]);
    }
  }

  /** Once a shutdown has begun nothing more is accepted, whatever happens. */
  lemma NothingAcceptedAfterStop(s: State, events: seq<Happening>)
    ensures var t := Run(Next(s, Shutdown), events); t.stopped && Accepted(t) == Accepted(s)
  {
    StoppedAccepts(Next(s, Shutdown), events);
  }

  /** Whatever the threads do, and in whatever order: when the drain is over, every submission that
      was ever accepted has a resolved future; so it is settled as soon as its submitter has hung
      its callback on it, and then nothing is pending. */
  lemma NothingIsStranded(events: seq<Happening>)
    requires Run(START, events).drain == Done
    ensures var s := Run(START, events);
      && s.stopped
      && (forall id | 0 <= id < |s.subs| :: s.subs[id].stage == Resolved)
      && (forall id | 0 <= id < |s.subs| && s.subs[id].attached :: s.subs[id].settled)
      && ((forall id | 0 <= id < |s.subs| :: s.subs[id].attached) ==> s.pending == 0)
  {
    RunInv(START, events);
    var s := Run(START, events);
    forall id | 0 <= id < |s.subs| ensures s.subs[id].attached ==> s.subs[id].settled { assert SubOk(id, s); }
    if forall id | 0 <= id < |s.subs| :: s.subs[id].attached { AllSettled(s.subs); }
  }

  lemma {:induction false} AllSettled(subs: seq<Sub>)
    requires forall id | 0 <= id < |subs| :: subs[id].settled
    ensures Unsettled(subs) == 0
  {
    if subs != [] { AllSettled(subs[..|subs| - 1]); }
  }

  /** Every accepted submission stands before the drain in the queue: when the drain begins to run,
      all their coroutines have been started or were cancelled before they began. */
  lemma DrainFindsEverythingStarted(events: seq<Happening>)
    requires var s := Run(START, events); s.queue != [] && s.queue[0] == DrainFirst
    ensures var s := Run(START, events);
      forall id | 0 <= id < |s.subs| :: s.subs[id].stage != Queued && s.subs[id].stage != Created
  {
    RunInv(START, events);
    var s := Run(START, events);
    Popped(s);
    assert ItemOk(s.queue[0], s);
    forall id | 0 <= id < |s.subs| ensures s.subs[id].stage != Created {
      assert SubOk(id, s) && !MayFollow(DrainFirst, First(id));
    }
  }

  // ----- the drain ends ------------------------------------------------------------------------------

  function ItemWeight(x: Item): nat { if x.CancelCall? then 2 else 1 }

  function QueueWeight(q: seq<Item>): nat {
    if q == [] then 0 else ItemWeight(q[0]) + QueueWeight(q[1..])
  }

  function StageWeight(stage: Stage): nat {
    match stage case Queued => 3 case Created => 2 case Started => 2 case _ => 0
  }

  function SubsWeight(subs: seq<Sub>): nat {
    if subs == [] then 0 else SubsWeight(subs[..|subs| - 1]) + StageWeight(subs[|subs| - 1].stage)
  }

  function DrainWeight(d: Drain, n: nat): nat {
    match d
    case NoDrain => 0
    case Asked => n + 6
    case Made => n + 5
    case Waiting(_) => 4
    case Ending(woken) => if woken then 2 else 3
    case Done => 0
  }

  /** How many turns the loop may still take when every coroutine it runs comes to its end. */
  function TurnsLeft(s: State): nat {
    QueueWeight(s.queue) + SubsWeight(s.subs) + DrainWeight(s.drain, |s.subs|)
  }

  lemma {:induction false} QueueWeightPush(q: seq<Item>, items: seq<Item>)
    ensures QueueWeight(q + items) == QueueWeight(q) + QueueWeight(items)
  {
    if q == [] {
      assert q + items == items;
    } else {
      QueueWeightPush(q[1..], items);
      assert (q + items)[1..] == q[1..] + items;
    }
  }

  lemma {:induction false} WakesWeight(items: seq<Item>)
    requires forall x | x in items :: x.Wake?
    ensures QueueWeight(items) == |items|
  {
    if items != [] {
      assert items[0] in items;
      WakesWeight(items[1..]);
    }
  }

  lemma {:induction false} SubsWeightChange(subs: seq<Sub>, id: nat, sub: Sub)
    requires id < |subs|
    ensures SubsWeight(subs[id := sub]) == SubsWeight(subs) + StageWeight(sub.stage) - StageWeight(subs[id].stage)
  {
    var n := |subs| - 1;
    if id < n {
      SubsWeightChange(subs[..n], id, sub);
      assert subs[id := sub][..n] == subs[..n][id := sub];
    } else {
      assert subs[id := sub][..n] == subs[..n];
    }
  }

  lemma WeightShort(x: Item, y: Item)
    ensures QueueWeight([]) == 0 && QueueWeight([x]) == ItemWeight(x)
    ensures QueueWeight([x, y]) == ItemWeight(x) + ItemWeight(y)
  {
    assert [x][1..] == [] && [y][1..] == [];
    QueueWeightPush([x], [y]);
    assert [x] + [y] == [x, y];
  }

  /** What a turn does to the weights: `x` leaves the queue, `items` enter it, one submission and the drain change. */
  lemma Weigh(s: State, t: State, items: seq<Item>, id: nat)
    requires s.queue != [] && t.queue == s.queue[1..] + items
    requires |t.subs| == |s.subs| && (t.subs == s.subs || (id < |s.subs| && t.subs == s.subs[id := t.subs[id]]))
    ensures TurnsLeft(t) == TurnsLeft(s) - ItemWeight(s.queue[0]) + QueueWeight(items)
      + DrainWeight(t.drain, |s.subs|) - DrainWeight(s.drain, |s.subs|)
      + (if t.subs == s.subs then 0 else StageWeight(t.subs[id].stage) - StageWeight(s.subs[id].stage))
  {
    QueueWeightPush(s.queue[1..], items);
    if t.subs != s.subs { SubsWeightChange(s.subs, id, t.subs[id]); }
  }

  /** Every turn brings the loop closer to standing idle. */
  lemma TurnCosts(s: State, ends: bool)
    requires Inv(s) && s.queue != [] && s.up
    ensures TurnsLeft(Next(s, Turn(ends))) < TurnsLeft(s)
  {
    var x, t := s.queue[0], Next(s, Turn(ends));
    assert ItemOk(x, s);
    hide Inv, QueueWeight, SubsWeight, TurnsLeft;
    match x {
      case Create(id) => CreateWeighs(s, t, id);
      case First(id) =>
        if s.subs[id].cancelled || ends { FinishWeighs(s, t, id); } else { LeavingWeighs(s, t, id); }
      case Wake(id) =>
        if s.subs[id].stage == Started && ends { FinishWeighs(s, t, id); } else { LeavingWeighs(s, t, id); }
      case CancelCall(id) => CancelWeighs(s, t, id);
      case Resolve(id) => LeavingWeighs(s, t, id);
      case _ => DrainTurnCosts(s, ends);
    }
  }

  lemma CreateWeighs(s: State, t: State, id: nat)
    requires s.queue != [] && id < |s.subs| && s.queue[0] == Create(id) && s.subs[id].stage == Queued
    requires exists ends :: t == Exec(s.queue[0], s.(queue := s.queue[1..]), ends)
    ensures TurnsLeft(t) < TurnsLeft(s)
  {
    hide QueueWeight, SubsWeight, TurnsLeft;
    WeightShort(First(id), s.queue[0]);
    Weigh(s, t, [First(id)], id);
  }

  /** Nothing new is queued, and no stage weighs more than before. */
  lemma LeavingWeighs(s: State, t: State, id: nat)
    requires s.queue != [] && id < |s.subs| && |t.subs| == |s.subs| && t.drain == s.drain && t.queue == s.queue[1..]
    requires t.subs == s.subs || t.subs == s.subs[id := t.subs[id]]
    requires StageWeight(t.subs[id].stage) <= StageWeight(s.subs[id].stage)
    ensures TurnsLeft(t) < TurnsLeft(s)
  {
    hide QueueWeight, SubsWeight, TurnsLeft;
    WeightShort(s.queue[0], s.queue[0]);
    assert t.queue == s.queue[1..] + [];
    Weigh(s, t, [], id);
  }

  lemma CancelWeighs(s: State, t: State, id: nat)
    requires s.queue != [] && id < |s.subs| && s.queue[0] == CancelCall(id)
    requires exists ends :: t == Exec(s.queue[0], s.(queue := s.queue[1..]), ends)
    ensures TurnsLeft(t) < TurnsLeft(s)
  {
    hide QueueWeight, SubsWeight, TurnsLeft;
    WeightShort(Wake(id), s.queue[0]);
    Weigh(s, t, if s.subs[id].stage == Started then [Wake(id)] else [], id);
  }

  lemma DrainTurnCosts(s: State, ends: bool)
    requires s.queue != [] && s.up && ItemOk(s.queue[0], s)
    requires var x := s.queue[0]; x.Gather? || x.DrainCreate? || x.DrainFirst? || x.DrainWake? || x.DrainResolve?
    ensures TurnsLeft(Next(s, Turn(ends))) < TurnsLeft(s)
  {
    var x, t := s.queue[0], Next(s, Turn(ends));
    hide QueueWeight, SubsWeight, TurnsLeft;
    match x {
      case Gather(id) => GatherWeighs(s, t, id);
      case DrainFirst => DrainFirstWeighs(s, t);
      case DrainCreate => WeightShort(DrainFirst, x); Weigh(s, t, [DrainFirst], 0);
      case DrainWake => WeightShort(DrainResolve, x); Weigh(s, t, [DrainResolve], 0);
      case DrainResolve => WeightShort(x, x); Weigh(s, t, [], 0);
    }
  }

  lemma GatherWeighs(s: State, t: State, id: nat)
    requires s.queue != [] && s.queue[0] == Gather(id) && s.drain.Waiting? && id in s.drain.left
    requires exists ends :: t == Exec(s.queue[0], s.(queue := s.queue[1..]), ends)
    ensures TurnsLeft(t) < TurnsLeft(s)
  {
    hide QueueWeight, SubsWeight, TurnsLeft;
    WeightShort(DrainWake, s.queue[0]);
    Weigh(s, t, if t.drain.Waiting? then [] else [DrainWake], 0);
  }

  lemma DrainFirstWeighs(s: State, t: State)
    requires s.queue != [] && s.queue[0] == DrainFirst && s.drain == Made
    requires exists ends :: t == Exec(s.queue[0], s.(queue := s.queue[1..]), ends)
    ensures TurnsLeft(t) < TurnsLeft(s)
  {
    hide QueueWeight, SubsWeight, TurnsLeft, Unfinished;
    var ids := Unfinished(s.subs);
    WeightShort(DrainResolve, s.queue[0]);
    WakesWeight(Wakes(ids));
    Weigh(s, t, if ids == [] then [DrainResolve] else Wakes(ids), 0);
  }

  lemma FinishWeighs(s: State, t: State, id: nat)
    requires s.queue != [] && id < |s.subs| && (s.subs[id].stage == Created || s.subs[id].stage == Started)
    requires ItemWeight(s.queue[0]) == 1
    requires exists task :: t == Finish(s.(queue := s.queue[1..]), id, task)
    ensures TurnsLeft(t) < TurnsLeft(s)
  {
    hide QueueWeight, SubsWeight, TurnsLeft;
    WeightShort(Resolve(id), Gather(id));
    var tell := s.drain.Waiting? && id in s.drain.left;
    var items := [Resolve(id)] + if tell then [Gather(id)] else [];
    assert items == if tell then [Resolve(id), Gather(id)] else [Resolve(id)];
    Weigh(s, t, items, id);
  }

  /** The loop goes on. */
  predicate GoesOn(events: seq<Happening>) { LoopEnds !in events && LoopCloses !in events }

  function TurnsIn(events: seq<Happening>): nat {
    if events == [] then 0 else (if events[0].Turn? then 1 else 0) + TurnsIn(events[1..])
  }

  /** How much other threads add meanwhile to the turns the loop has to take. */
  function Added(s: State, events: seq<Happening>): nat
    decreases |events|
  {
    if events == [] then 0
    else
      var t := Next(s, events[0]);
      (if !events[0].Turn? && TurnsLeft(t) > TurnsLeft(s) then TurnsLeft(t) - TurnsLeft(s) else 0)
      + Added(t, events[1..])
  }

  /** The loop takes all the turns it has to take, also those that come up meanwhile. */
  predicate EnoughTurns(s: State, events: seq<Happening>) {
    GoesOn(events) && TurnsIn(events) >= TurnsLeft(s) + Added(s, events)
  }

  lemma StaysUp(s: State, e: Happening)
    requires s.up && e != LoopEnds && e != LoopCloses
    ensures Next(s, e).up
  {}

  /** Then it stands idle in between. */
  lemma {:induction false} Quiesces(s: State, events: seq<Happening>) returns (k: nat)
    requires Inv(s) && s.up && EnoughTurns(s, events)
    ensures k <= |events| && Run(s, events[..k]).queue == [] && Inv(Run(s, events[..k]))
    decreases |events|
  {
    if s.queue == [] {
      assert events[..0] == [];
      k := 0;
    } else {
      SomeTurnsLeft(s);
      var t := Next(s, events[0]);
      if events[0].Turn? { TurnCosts(s, events[0].ends); }
      NextInv(s, events[0]);
      StaysUp(s, events[0]);
      assert forall e | e in events[1..] :: e in events;
      hide Inv, Next, TurnsLeft;
      k := Quiesces(t, events[1..]);
      assert events[1..][..k] == events[..k + 1][1..];
      k := k + 1;
    }
  }

  lemma SomeTurnsLeft(s: State)
    requires s.queue != []
    ensures TurnsLeft(s) > 0
  {}

  /** A coroutine that is waiting is about to be woken. */
  ghost predicate AllPoked(s: State) {
    forall id | 0 <= id < |s.subs| && s.subs[id].stage == Started :: Wake(id) in s.queue
  }

  /** The drain was asked for and has still to cancel what is waiting, or has done so. */
  ghost predicate WillCancel(s: State) {
    s.drain == Asked || s.drain == Made || (s.drain != NoDrain && AllPoked(s))
  }

  /** `_drain` cancels: its first turn leaves no coroutine waiting without a wake-up. */
  lemma DrainCancelsAll(s: State, ends: bool)
    requires s.up && s.queue != [] && s.queue[0] == DrainFirst
    ensures AllPoked(Next(s, Turn(ends))) && Next(s, Turn(ends)).drain != NoDrain
  {
    hide Unfinished;
    var ids, t := Unfinished(s.subs), Next(s, Turn(ends));
    forall id | 0 <= id < |t.subs| && t.subs[id].stage == Started ensures Wake(id) in t.queue {
      assert id in ids;
      var i :| 0 <= i < |ids| && ids[i] == id;
      assert Wakes(ids)[i] == Wake(id) && Wakes(ids)[i] in Wakes(ids);
    }
  }

  /** A turn that runs coroutines to their end leaves none waiting that was not waiting before. */
  lemma StartedBefore(s: State, id: nat)
    requires s.up && s.queue != [] && ItemIn(s.queue[0], s) && id < |s.subs|
    ensures var t := Next(s, Turn(true));
      |t.subs| == |s.subs| && s.queue[1..] <= t.queue
      && (t.subs[id].stage == Started ==> s.subs[id].stage == Started && s.queue[0] != Wake(id))
  {}

  lemma TurnKeepsPoked(s: State)
    requires Inv(s) && AllPoked(s)
    ensures AllPoked(Next(s, Turn(true)))
  {
    var t := Next(s, Turn(true));
    if s.up && s.queue != [] {
      assert ItemOk(s.queue[0], s);
      TurnGrows(s, true);
      hide Inv, Next;
      forall id | 0 <= id < |t.subs| && t.subs[id].stage == Started ensures Wake(id) in t.queue {
        StartedBefore(s, id);
        assert Wake(id) in s.queue;
        StillQueued(s.queue, t.queue, Wake(id));
      }
    }
  }

  lemma TurnGrows(s: State, ends: bool)
    requires s.up && s.queue != [] && ItemIn(s.queue[0], s)
    ensures |Next(s, Turn(ends)).subs| == |s.subs| && s.queue[1..] <= Next(s, Turn(ends)).queue
  {
    hide Unfinished, Wakes;
  }

  lemma StillQueued(q: seq<Item>, r: seq<Item>, x: Item)
    requires q != [] && x in q && x != q[0] && q[1..] <= r
    ensures x in r
  {
    var i :| 0 <= i < |q| && q[i] == x;
    assert q[1..][i - 1] == x && r[i - 1] == x;
  }

  lemma TurnKeepsDrain(s: State, ends: bool)
    requires s.drain != NoDrain
    ensures Next(s, Turn(ends)).drain != NoDrain
  {}

  /** No coroutine outlives its cancellation by the drain: once that has been delivered, every step
      of one is its last.  Before, each may end when it likes. */
  predicate HeedsDrain(s: State, events: seq<Happening>)
    decreases |events|
  {
    events == [] ||
    ((events[0] == Turn(false) ==> s.drain == NoDrain || s.drain == Asked || s.drain == Made)
     && HeedsDrain(Next(s, events[0]), events[1..]))
  }

  /** What others do while a drain is under way starts no coroutine and wakes no fewer. */
  lemma OthersKeepPoked(s: State, e: Happening)
    requires Inv(s) && WillCancel(s) && !e.Turn?
    ensures WillCancel(Next(s, e))
  {
    assert s.stopped;
    hide Unfinished, Wakes, Exec;
  }

  lemma TurnKeepsCancelling(s: State, ends: bool)
    requires Inv(s) && WillCancel(s) && s.up && (ends || s.drain == Asked || s.drain == Made)
    ensures WillCancel(Next(s, Turn(ends)))
  {
    if s.queue != [] {
      assert ItemOk(s.queue[0], s);
      if s.queue[0] == DrainFirst {
        DrainCancelsAll(s, ends);
      } else if s.drain == Asked || s.drain == Made {
        hide Inv;
        EarlyTurn(s, ends);
      } else {
        TurnKeepsPoked(s);
        TurnKeepsDrain(s, ends);
      }
    }
  }

  /** Until its first turn the drain only goes from asked to made. */
  lemma EarlyTurn(s: State, ends: bool)
    requires s.up && s.queue != [] && ItemOk(s.queue[0], s) && s.queue[0] != DrainFirst
    requires s.drain == Asked || s.drain == Made
    ensures Next(s, Turn(ends)).drain == Asked || Next(s, Turn(ends)).drain == Made
  {
    hide Unfinished, Wakes;
  }

  lemma {:induction false} KeepsCancelling(s: State, events: seq<Happening>)
    requires Inv(s) && WillCancel(s) && s.up && GoesOn(events) && HeedsDrain(s, events)
    ensures WillCancel(Run(s, events))
    decreases |events|
  {
    if events != [] {
      assert s.drain != NoDrain;
      if events[0].Turn? { TurnKeepsCancelling(s, events[0].ends); } else { OthersKeepPoked(s, events[0]); }
      NextInv(s, events[0]);
      StaysUp(s, events[0]);
      assert forall e | e in events[1..] :: e in events;
      hide Inv, Next, WillCancel;
      KeepsCancelling(Next(s, events[0]), events[1..]);
    }
  }

  lemma {:induction false} HeedsPrefix(s: State, events: seq<Happening>, k: nat)
    requires HeedsDrain(s, events) && GoesOn(events) && k <= |events|
    ensures HeedsDrain(s, events[..k]) && GoesOn(events[..k])
    decreases k
  {
    assert forall e | e in events[..k] :: e in events;
    if k > 0 {
      assert events[..k][1..] == events[1..][..k - 1];
      assert forall e | e in events[1..] :: e in events;
      HeedsPrefix(Next(s, events[0]), events[1..], k - 1);
    }
  }

  /** With an empty queue nothing is left to start, to wake or to resolve. */
  lemma IdleMeansDone(s: State)
    requires Inv(s) && WillCancel(s) && s.queue == []
    ensures s.drain == Done
  {
    forall id | 0 <= id < |s.subs| ensures s.subs[id].stage == Resolved { assert SubOk(id, s); }
    if s.drain.Waiting? { WaitingForSomething(s); }
  }

  lemma WaitingForSomething(s: State)
    requires DrainOk(s) && s.drain.Waiting?
    ensures exists id :: id in s.drain.left
  {}

  lemma {:induction false} DoneForGood(s: State, events: seq<Happening>)
    requires Inv(s) && s.drain == Done
    ensures Run(s, events).drain == Done
    decreases |events|
  {
    if events != [] {
      if s.queue != [] { assert ItemOk(s.queue[0], s); }
      DoneStays(s, events[0]);
      NextInv(s, events[0]);
      hide Inv, Next;
      DoneForGood(Next(s, events[0]), events[1..]);
    }
  }

  lemma DoneStays(s: State, e: Happening)
    requires s.drain == Done && (s.queue != [] ==> ItemOk(s.queue[0], s))
    ensures Next(s, e).drain == Done
  {
    hide Unfinished, Wakes;
  }

  lemma {:induction false} RunConcat(s: State, a: seq<Happening>, b: seq<Happening>)
    ensures Run(s, a + b) == Run(Run(s, a), b)
    decreases |a|
  {
    hide Next;
    if a == [] {
      assert a + b == b;
    } else {
      RunConcat(Next(s, a[0]), a[1..], b);
      assert (a + b)[1..] == a[1..] + b;
    }
  }

  /** A drain that was asked for comes to its end, whatever other threads do meanwhile, if the loop
      takes its turns and no coroutine outlives its cancellation.  Nothing else has to wake one. */
  lemma DrainEnds(s: State, events: seq<Happening>)
    requires Inv(s) && s.up && WillCancel(s) && EnoughTurns(s, events) && HeedsDrain(s, events)
    ensures Run(s, events).drain == Done
  {
    hide Inv, EnoughTurns, WillCancel, HeedsDrain, Run;
    var k := Quiesces(s, events);
    HeedsPrefix(s, events, k) by { assert GoesOn(events) by { Goes(s, events); } }
    KeepsCancelling(s, events[..k]);
    var t := Run(s, events[..k]);
    IdleMeansDone(t);
    DoneForGood(t, events[k..]);
    RunConcat(s, events[..k], events[k..]);
    assert events[..k] + events[k..] == events;
  }

  lemma Goes(s: State, events: seq<Happening>)
    requires EnoughTurns(s, events)
    ensures GoesOn(events)
  {}

  /** While a drain is under way, each step of another thread adds at most two turns. */
  lemma {:induction false} AddedIsSmall(s: State, events: seq<Happening>)
    requires Inv(s) && s.drain != NoDrain
    ensures Added(s, events) <= 2 * (|events| - TurnsIn(events))
    decreases |events|
  {
    if events != [] {
      var t := Next(s, events[0]);
      NextInv(s, events[0]);
      OtherAdds(s, events[0]);
      hide Inv, Next, TurnsLeft;
      AddedIsSmall(t, events[1..]);
    }
  }

  lemma OtherAdds(s: State, e: Happening)
    requires s.drain != NoDrain && s.stopped
    ensures Next(s, e).drain != NoDrain
    ensures !e.Turn? ==> TurnsLeft(Next(s, e)) <= TurnsLeft(s) + 2
  {
    if e.Turn? {
      TurnKeepsDrain(s, e.ends);
    } else {
      OtherPushes(s, e);
      hide Next, QueueWeight, SubsWeight;
      var t := Next(s, e);
      SameStages(s.subs, t.subs);
      var items := t.queue[|s.queue|..];
      assert t.queue == s.queue + items;
      QueueWeightPush(s.queue, items);
      WeightShort(Wake(0), Wake(0));
      if items != [] {
        WeightShort(items[0], items[0]);
        assert items == [items[0]];
      }
    }
  }

  /** Another thread queues at most one wake-up or cancellation. */
  lemma OtherPushes(s: State, e: Happening)
    requires s.drain != NoDrain && s.stopped && !e.Turn?
    ensures var t := Next(s, e);
      && t.drain == s.drain && s.queue <= t.queue && |t.queue| <= |s.queue| + 1
      && |t.subs| == |s.subs| && forall i | 0 <= i < |s.subs| :: t.subs[i].stage == s.subs[i].stage
  {
    hide Exec;
  }

  lemma {:induction false} SameStages(a: seq<Sub>, b: seq<Sub>)
    requires |a| == |b| && forall i | 0 <= i < |a| :: a[i].stage == b[i].stage
    ensures SubsWeight(a) == SubsWeight(b)
  {
    if a != [] { SameStages(a[..|a| - 1], b[..|b| - 1]); }
  }

  function Turns(n: nat): (events: seq<Happening>)
    ensures |events| == n && forall e | e in events :: e == Turn(true)
  {
    if n == 0 then [] else [Turn(true)] + Turns(n - 1)
  }

  lemma {:induction false} OnlyTurns(s: State, n: nat)
    ensures TurnsIn(Turns(n)) == n && Added(s, Turns(n)) == 0 && HeedsDrain(s, Turns(n)) && GoesOn(Turns(n))
    decreases n
  {
    hide Next;
    if n > 0 {
      assert Turns(n)[1..] == Turns(n - 1);
      OnlyTurns(Next(s, Turn(true)), n - 1);
    }
  }

  lemma {:induction false} UpIsOpen(s: State, events: seq<Happening>)
    requires s.up ==> !s.closed
    ensures Run(s, events).up ==> !Run(s, events).closed
    decreases |events|
  {
    if events != [] {
      OpenStays(s, events[0]);
      UpIsOpen(Next(s, events[0]), events[1..]);
    }
  }

  lemma OpenStays(s: State, e: Happening)
    requires s.up ==> !s.closed
    ensures Next(s, e).up ==> !Next(s, e).closed
  {}

  /** From every reachable state of a running loop in which nothing more is accepted: the drain is
      asked for and comes to its end within a number of turns known beforehand, and then every
      accepted submission is resolved. */
  lemma ShutdownCompletes(events: seq<Happening>)
    requires var s := Run(START, events); s.up && s.stopped && s.drain == NoDrain
    ensures var s := Next(Run(START, events), AskDrain); var t := Run(s, Turns(TurnsLeft(s)));
      t.drain == Done && |t.subs| == |s.subs| && forall id | 0 <= id < |t.subs| :: t.subs[id].stage == Resolved
  {
    RunInv(START, events);
    UpIsOpen(START, events);
    var s0 := Run(START, events);
    var s := Next(s0, AskDrain);
    assert s.drain == Asked && s.up && s.stopped;
    NextInv(s0, AskDrain);
    hide Run, Inv, Next, Turns;
    var es := Turns(TurnsLeft(s));
    OnlyTurns(s, TurnsLeft(s));
    DrainEnds(s, es);
    RunInv(s, es);
    AllResolved(Run(s, es));
    StoppedAccepts(s, es);
    assert Accepted(s) == |s.subs|;
  }

  lemma AllResolved(s: State)
    requires Inv(s) && s.drain == Done
    ensures forall id | 0 <= id < |s.subs| :: s.subs[id].stage == Resolved
  {}

  // ----- has the coroutine finished? ------------------------------------------------------------------

  /** `task_done` */
  predicate TaskDone(sub: Sub) {
    if sub.task then sub.stage == Finished || sub.stage == Resolved
    else sub.cancelled || sub.stage == Resolved
  }

  /** The coroutine is running, or is still going to be started. */
  predicate MayStillRun(sub: Sub) {
    sub.stage == Started || ((sub.stage == Queued || sub.stage == Created) && !sub.cancelled)
  }

  /** `task_done` tells the truth about the coroutine, also while its future is not resolved yet. */
  lemma TaskDoneIsExact(events: seq<Happening>, id: nat)
    requires id < |Run(START, events).subs|
    ensures var sub := Run(START, events).subs[id]; TaskDone(sub) <==> !MayStillRun(sub)
  {
    RunInv(START, events);
    assert SubOk(id, Run(START, events));
  }

  /** A coroutine that is finished stays finished. */
  lemma {:induction false} FinishedForGood(s: State, events: seq<Happening>, id: nat)
    requires Inv(s) && id < |s.subs| && !MayStillRun(s.subs[id])
    ensures id < |Run(s, events).subs| && !MayStillRun(Run(s, events).subs[id])
    decreases |events|
  {
    if events != [] {
      NextInv(s, events[0]);
      FinishedStays(s, events[0], id);
      hide Inv, Next, MayStillRun;
      FinishedForGood(Next(s, events[0]), events[1..], id);
    }
  }

  lemma FinishedStays(s: State, e: Happening, id: nat)
    requires Inv(s) && id < |s.subs| && !MayStillRun(s.subs[id])
    ensures id < |Next(s, e).subs| && !MayStillRun(Next(s, e).subs[id])
  {
    assert SubOk(id, s);
    if e.Turn? {
      if s.queue != [] { assert ItemOk(s.queue[0], s); }
      hide Inv;
      TurnFinishedStays(s, e.ends, id);
    } else {
      hide Inv, Exec;
    }
  }

  lemma TurnFinishedStays(s: State, ends: bool, id: nat)
    requires id < |s.subs| && !MayStillRun(s.subs[id])
    requires s.queue != [] ==> ItemOk(s.queue[0], s)
    ensures id < |Next(s, Turn(ends)).subs| && !MayStillRun(Next(s, Turn(ends)).subs[id])
  {
    hide Unfinished, Wakes;
    if s.up && s.queue != [] {
      var item := s.queue[0];
      hide Push;
      if item.Create? || item.First? || item.Wake? || item.CancelCall? || item.Resolve? {
        ExecOthersStay(item, s.(queue := s.queue[1..]), ends, id);
      }
    }
  }

  /** A turn of one submission leaves the others alone, and a finished one finished. */
  lemma ExecOthersStay(item: Item, s: State, ends: bool, id: nat)
    requires item.Create? || item.First? || item.Wake? || item.CancelCall? || item.Resolve?
    requires item.id < |s.subs| && id < |s.subs| && !MayStillRun(s.subs[id])
    requires item.Create? ==> s.subs[item.id].stage == Queued
    requires item.First? ==> s.subs[item.id].stage == Created
    requires item.Resolve? ==> s.subs[item.id].stage == Finished
    ensures var t := Exec(item, s, ends); |t.subs| == |s.subs| && !MayStillRun(t.subs[id])
  {
    var t := Exec(item, s, ends);
    assert t.subs == s.subs[item.id := t.subs[item.id]];
    if id == item.id { assert !MayStillRun(t.subs[id]); }
  }

  // ----- cancelling one coroutine ------------------------------------------------------------------------

  /** If this coroutine waits, it is about to be cancelled or woken. */
  ghost predicate Called(s: State, id: nat) {
    id < |s.subs| && (s.subs[id].stage == Started ==> CancelCall(id) in s.queue || Wake(id) in s.queue)
  }

  /** The coroutine does not outlive its cancellation: once that has been delivered, the step in which
      it is woken is its last.  All others do as they like. */
  predicate HeedsCancel(s: State, events: seq<Happening>, id: nat)
    decreases |events|
  {
    events == [] ||
    ((events[0] == Turn(false) && s.queue != [] && s.queue[0] == Wake(id) ==> CancelCall(id) in s.queue)
     && HeedsCancel(Next(s, events[0]), events[1..], id))
  }

  /** It has not begun, and has not been kept from it. */
  predicate MayBegin(sub: Sub) { (sub.stage == Queued || sub.stage == Created) && !sub.cancelled }

  /** What a turn does to one submission that is waiting or will not begin any more. */
  lemma TurnOnOne(s: State, ends: bool, id: nat)
    requires s.up && s.queue != [] && ItemOk(s.queue[0], s) && id < |s.subs| && !MayBegin(s.subs[id])
    ensures var t := Next(s, Turn(ends));
      && id < |t.subs| && !MayBegin(t.subs[id])
      && (t.subs[id].stage == Started ==> s.subs[id].stage == Started)
      && (s.queue[0] == CancelCall(id) && t.subs[id].stage == Started ==> Wake(id) in t.queue)
      && (s.queue[0] == Wake(id) && ends ==> t.subs[id].stage != Started)
  {
    if IsAbout(s.queue[0], id) { TurnOnThis(s, ends, id); } else { TurnElsewhere(s, ends, id); }
  }

  predicate IsAbout(item: Item, id: nat) {
    (item.Create? || item.First? || item.Wake? || item.CancelCall? || item.Resolve?) && item.id == id
  }

  lemma TurnElsewhere(s: State, ends: bool, id: nat)
    requires s.up && s.queue != [] && ItemOk(s.queue[0], s) && id < |s.subs| && !IsAbout(s.queue[0], id)
    ensures var t := Next(s, Turn(ends)); id < |t.subs| && t.subs[id] == s.subs[id]
  {
    hide Unfinished, Wakes;
  }

  lemma TurnOnThis(s: State, ends: bool, id: nat)
    requires s.up && s.queue != [] && ItemOk(s.queue[0], s) && IsAbout(s.queue[0], id) && !MayBegin(s.subs[id])
    ensures var t := Next(s, Turn(ends));
      && id < |t.subs| && !MayBegin(t.subs[id])
      && (t.subs[id].stage == Started ==> s.subs[id].stage == Started)
      && (s.queue[0] == CancelCall(id) && t.subs[id].stage == Started ==> Wake(id) in t.queue)
      && (s.queue[0] == Wake(id) && ends ==> t.subs[id].stage != Started)
  {
    hide Unfinished, Wakes;
    var t := Next(s, Turn(ends));
    if s.queue[0] == CancelCall(id) && s.subs[id].stage == Started { assert t.queue[|t.queue| - 1] == Wake(id); }
  }

  lemma StepKeepsCalled(s: State, e: Happening, id: nat)
    requires Inv(s) && Called(s, id) && !MayBegin(s.subs[id]) && s.up
    requires e == Turn(false) && s.queue != [] && s.queue[0] == Wake(id) ==> CancelCall(id) in s.queue
    ensures Called(Next(s, e), id) && !MayBegin(Next(s, e).subs[id])
  {
    if e.Turn? && s.queue != [] {
      assert ItemOk(s.queue[0], s) && SubOk(id, s);
      hide Inv;
      TurnGrows(s, e.ends);
      TurnOnOne(s, e.ends, id);
      var t := Next(s, e);
      hide Next;
      if s.queue[0] != CancelCall(id) && CancelCall(id) in s.queue { StillQueued(s.queue, t.queue, CancelCall(id)); }
      if s.queue[0] != Wake(id) && Wake(id) in s.queue { StillQueued(s.queue, t.queue, Wake(id)); }
    } else {
      hide Inv, Exec;
    }
  }

  lemma {:induction false} RunKeepsCalled(s: State, events: seq<Happening>, id: nat)
    requires Inv(s) && Called(s, id) && !MayBegin(s.subs[id]) && s.up && GoesOn(events) && HeedsCancel(s, events, id)
    ensures Called(Run(s, events), id) && !MayBegin(Run(s, events).subs[id])
    decreases |events|
  {
    if events != [] {
      StepKeepsCalled(s, events[0], id);
      NextInv(s, events[0]);
      StaysUp(s, events[0]);
      assert forall e | e in events[1..] :: e in events;
      hide Inv, Next, Called;
      RunKeepsCalled(Next(s, events[0]), events[1..], id);
    }
  }

  lemma {:induction false} HeedsCancelPrefix(s: State, events: seq<Happening>, id: nat, k: nat)
    requires HeedsCancel(s, events, id) && GoesOn(events) && k <= |events|
    ensures HeedsCancel(s, events[..k], id) && GoesOn(events[..k])
    decreases k
  {
    assert forall e | e in events[..k] :: e in events;
    if k > 0 {
      assert events[..k][1..] == events[1..][..k - 1];
      assert forall e | e in events[1..] :: e in events;
      HeedsCancelPrefix(Next(s, events[0]), events[1..], id, k - 1);
    }
  }

  /** `cancel_task` on a running loop: whatever other threads do meanwhile, if the loop takes its turns
      and the coroutine does not outlive its cancellation, then in the end it neither runs nor will
      be started. */
  lemma CancelEnds(s: State, id: nat, events: seq<Happening>)
    requires Inv(s) && s.up && !s.closed && id < |s.subs| && s.subs[id].attached
    requires var c := Next(s, CancelTask(id)); EnoughTurns(c, events) && HeedsCancel(c, events, id)
    ensures var t := Run(Next(s, CancelTask(id)), events); id < |t.subs| && !MayStillRun(t.subs[id])
  {
    var c := Next(s, CancelTask(id));
    assert SubOk(id, s);
    NextInv(s, CancelTask(id));
    assert c.up && Called(c, id) && !MayBegin(c.subs[id]);
    hide Inv, Next, EnoughTurns, HeedsCancel, Run;
    var k := Quiesces(c, events);
    Goes(c, events);
    HeedsCancelPrefix(c, events, id, k);
    RunKeepsCalled(c, events[..k], id);
    var t := Run(c, events[..k]);
    assert !MayStillRun(t.subs[id]);
    FinishedForGood(t, events[k..], id);
    RunConcat(c, events[..k], events[k..]);
    assert events[..k] + events[k..] == events;
  }

  // ----- what `task_done` means for the turns of the loop --------------------------------------------------

  /** In this step the coroutine runs: it is started, or goes on after an await. */
  predicate Runs(s: State, e: Happening, id: nat) {
    && e.Turn? && s.up && s.queue != [] && id < |s.subs|
    && ((s.queue[0] == First(id) && !s.subs[id].cancelled) || (s.queue[0] == Wake(id) && s.subs[id].stage == Started))
  }

  lemma OnlyLiveOnesRun(s: State, e: Happening, id: nat)
    requires Inv(s) && Runs(s, e, id)
    ensures MayStillRun(s.subs[id])
  {
    assert ItemOk(s.queue[0], s);
  }

  /** A turn that neither starts nor wakes a live coroutine leaves it as it is. */
  lemma LeftWaiting(s: State, id: nat)
    requires Inv(s) && s.up && s.queue != [] && id < |s.subs| && MayStillRun(s.subs[id])
    requires !Runs(s, Turn(false), id) && s.queue[0] != Create(id)
    ensures var t := Next(s, Turn(false)); Inv(t) && t.up && id < |t.subs| && t.subs[id] == s.subs[id]
    ensures s.queue[1..] <= Next(s, Turn(false)).queue
  {
    assert ItemOk(s.queue[0], s);
    NextInv(s, Turn(false));
    TurnGrows(s, false);
    if IsAbout(s.queue[0], id) {
      hide Inv;
    } else {
      TurnElsewhere(s, false, id);
      hide Inv, Next;
      StaysUp(s, Turn(false));
    }
  }

  lemma {:induction false} ComesToRun(s: State, id: nat, i: nat) returns (events: seq<Happening>)
    requires Inv(s) && s.up && id < |s.subs| && MayStillRun(s.subs[id]) && i < |s.queue|
    requires var stage := s.subs[id].stage;
      s.queue[i] == if stage == Queued then Create(id) else if stage == Created then First(id) else Wake(id)
    ensures Runs(Run(s, events), Turn(true), id)
    decreases s.subs[id].stage == Queued, i
  {
    events := [];
    if !Runs(s, Turn(false), id) {
      var t := Next(s, Turn(false));
      var rest;
      if s.queue[0] == Create(id) {
        NextInv(s, Turn(false));
        CreatedNext(s, id);
        rest := ComesToRun(t, id, |t.queue| - 1);
      } else {
        LeftWaiting(s, id);
        assert t.queue[i - 1] == s.queue[1..][i - 1];
        rest := ComesToRun(t, id, i - 1);
      }
      events := [Turn(false)] + rest;
      assert events[1..] == rest;
    }
  }

  lemma CreatedNext(s: State, id: nat)
    requires Inv(s) && s.up && s.queue != [] && s.queue[0] == Create(id) && id < |s.subs| && MayStillRun(s.subs[id])
    ensures var t := Next(s, Turn(false));
      && t.up && id < |t.subs| && t.subs[id] == s.subs[id].(stage := Created) && s.subs[id].stage == Queued
      && t.queue != [] && t.queue[|t.queue| - 1] == First(id)
  {
    assert ItemOk(s.queue[0], s);
  }

  lemma LiveOneRuns(s: State, id: nat) returns (events: seq<Happening>)
    requires Inv(s) && s.up && id < |s.subs| && MayStillRun(s.subs[id])
    ensures Runs(Run(s, events), Turn(true), id)
  {
    assert SubOk(id, s);
    if s.subs[id].stage == Started {
      var t := Next(s, Poke(id));
      assert t.queue[|s.queue|] == Wake(id) && t.up && t.subs == s.subs;
      NextInv(s, Poke(id));
      hide Inv, Next, Runs, MayStillRun;
      var rest := ComesToRun(t, id, |s.queue|);
      events := [Poke(id)] + rest;
      assert events[1..] == rest;
    } else {
      var x := if s.subs[id].stage == Queued then Create(id) else First(id);
      var i :| 0 <= i < |s.queue| && s.queue[i] == x;
      hide Inv, Next, Runs;
      events := ComesToRun(s, id, i);
    }
  }

  lemma DeadOneNeverRuns(s: State, id: nat, events: seq<Happening>, e: Happening)
    requires Inv(s) && id < |s.subs| && !MayStillRun(s.subs[id])
    ensures !Runs(Run(s, events), e, id)
  {
    hide Inv, Run, Runs, MayStillRun;
    FinishedForGood(s, events, id);
    RunInv(s, events);
    if Runs(Run(s, events), e, id) { OnlyLiveOnesRun(Run(s, events), e, id); }
  }

  /** On a running loop `task_done` is true exactly when the coroutine will not run again, whatever
      anyone does from then on. */
  lemma TaskDoneIsForGood(s: State, id: nat)
    requires Inv(s) && s.up && id < |s.subs|
    ensures TaskDone(s.subs[id]) <==> forall events, e :: !Runs(Run(s, events), e, id)
  {
    assert TaskDone(s.subs[id]) <==> !MayStillRun(s.subs[id]) by { assert SubOk(id, s); }
    hide Inv, Run, Runs, MayStillRun, TaskDone;
    if MayStillRun(s.subs[id]) {
      var events := LiveOneRuns(s, id);
      assert Runs(Run(s, events), Turn(true), id);
    } else {
      forall events, e ensures !Runs(Run(s, events), e, id) { DeadOneNeverRuns(s, id, events, e); }
    }
  }

  // ----- submissions that will never be resolved ------------------------------------------------------------

  /** `discard` settles the submission and does nothing else. */
  lemma DiscardSettles(s: State, id: nat)
    requires Inv(s) && id < |s.subs| && s.subs[id].attached
    ensures var t := Next(s, Discard(id));
      && t.subs == s.subs[id := s.subs[id].(settled := true)]
      && t.pending == s.pending - (if s.subs[id].settled then 0 else 1)
      && t.queue == s.queue && t.stopped == s.stopped && t.drain == s.drain && t.up == s.up && t.closed == s.closed
  {
    if s.subs[id].settled { assert s.subs[id := s.subs[id].(settled := true)] == s.subs; }
  }

  lemma {:induction false} Discarded(s: State, events: seq<Happening>)
    requires Inv(s) && !s.up && (forall id :: Attach(id) !in events)
    requires forall id: nat | id < |s.subs| && s.subs[id].attached :: s.subs[id].settled || Discard(id) in events
    ensures var t := Run(s, events);
      |t.subs| == |s.subs| && forall id | 0 <= id < |s.subs| :: t.subs[id].settled <==> s.subs[id].attached
    decreases |events|
  {
    if events == [] {
      forall id | 0 <= id < |s.subs| ensures s.subs[id].settled ==> s.subs[id].attached { assert SubOk(id, s); }
    } else {
      var t := Next(s, events[0]);
      NextInv(s, events[0]);
      assert events[0] in events && forall e | e in events :: e == events[0] || e in events[1..];
      DownStep(s, events[0]);
      hide Inv, Next;
      Discarded(t, events[1..]);
    }
  }

  lemma DownStep(s: State, e: Happening)
    requires !s.up && !e.Attach?
    ensures var t := Next(s, e);
      && !t.up && |t.subs| == |s.subs|
      && (forall id | 0 <= id < |s.subs| :: t.subs[id].attached == s.subs[id].attached)
      && (forall id | 0 <= id < |s.subs| && s.subs[id].settled :: t.subs[id].settled)
      && (e.Discard? && e.id < |s.subs| && s.subs[e.id].attached ==> t.subs[e.id].settled)
  {
    hide Exec;
  }

  /** On a loop that takes no more turns, once every submission with a callback has been discarded,
      whatever else happens: pending are just those without one. */
  lemma DeadLoopCountsDown(s: State, events: seq<Happening>)
    requires Inv(s) && !s.up && forall id :: Attach(id) !in events
    requires forall id: nat | id < |s.subs| && s.subs[id].attached :: Discard(id) in events
    ensures Run(s, events).pending == Count(s.subs, (x: Sub) => !x.attached)
  {
    var t := Run(s, events);
    Discarded(s, events);
    RunInv(s, events);
    UnsettledCount(t.subs, s.subs);
  }

  lemma {:induction false} UnsettledCount(a: seq<Sub>, b: seq<Sub>)
    requires |a| == |b| && forall id | 0 <= id < |a| :: a[id].settled <==> b[id].attached
    ensures Unsettled(a) == Count(b, (x: Sub) => !x.attached)
  {
    if a != [] { UnsettledCount(a[..|a| - 1], b[..|b| - 1]); }
  }

  // ----- the object --------------------------------------------------------------------------------------

  class TaskHolder {
    var stage: Stage
    var task: bool
    var cancelled: bool
    var settled: bool
    var attached: bool

    constructor ()
      ensures Value() == Sub(Queued, false, false, false, false)
    {
      stage, task, cancelled, settled, attached := Queued, false, false, false, false;
    }

    ghost function Value(): Sub
      reads this
    {
      Sub(stage, task, cancelled, settled, attached)
    }
  }

  class AsyncioBridge {
    var queue: seq<Item>
    var holders: seq<TaskHolder>
    var pendingCount: int
    var stopped: bool
    var drain: Drain
    var up: bool
    var closed: bool

    ghost predicate Valid()
      reads this
    {
      forall i, j | 0 <= i < j < |holders| :: holders[i] != holders[j]
    }

    ghost function Subs(): (subs: seq<Sub>)
      reads this, holders
      ensures |subs| == |holders| && forall i | 0 <= i < |subs| :: subs[i] == holders[i].Value()
    {
      seq(|holders|, i requires 0 <= i < |holders| reads this, holders => holders[i].Value())
    }

    ghost function Value(): State
      reads this, holders
    {
      State(queue, Subs(), pendingCount, stopped, drain, up, closed)
    }

    constructor ()
      ensures Valid() && Value() == START
    {
      queue, holders, pendingCount, stopped, drain, up, closed := [], [], 0, false, NoDrain, true, false;
      new;
      assert Subs() == [];
    }

    /** Under the submit lock: the liveness check, the count and the scheduling call are one step. */
    method DoSubmit() returns (accepted: bool)
      requires Valid()
      modifies this
      ensures Valid() && Value() == Next(old(Value()), Submit)
      ensures accepted <==> !old(stopped) && old(up)
      ensures accepted ==> |holders| == |old(holders)| + 1 && fresh(holders[|old(holders)|])
      ensures accepted ==> pendingCount == old(pendingCount) + 1 && queue == old(queue) + [Create(|old(holders)|)]
      ensures !accepted ==> pendingCount == old(pendingCount) && queue == old(queue) && holders == old(holders)
    {
      accepted := !stopped && up;
      if accepted {
        ghost var was := Subs();
        var holder := new TaskHolder();
        pendingCount := pendingCount + 1;
        queue := queue + [Create(|holders|)];
        holders := holders + [holder];
        assert Subs() == was + [holder.Value()];
      }
    }

    /** `_settle` */
    method DoSettle(id: nat)
      requires Valid() && id < |holders|
      modifies this`pendingCount, holders[id]
      ensures Value() == Settle(old(Value()), id)
    {
      ghost var was := Subs();
      if !holders[id].settled {
        holders[id].settled := true;
        pendingCount := pendingCount - 1;
        assert Subs() == was[id := was[id].(settled := true)];
      } else {
        assert Subs() == was;
      }
    }

    /** The submitting thread hangs the done-callback on the future, which runs at once if the
        future is resolved already. */
    method AddDoneCallback(id: nat)
      requires Valid() && id < |holders| && !holders[id].attached
      modifies this`pendingCount, holders[id]
      ensures Value() == Next(old(Value()), Attach(id))
      ensures holders[id].attached && (holders[id].stage == Resolved ==> holders[id].settled)
    {
      ghost var was := Subs();
      holders[id].attached := true;
      assert Subs() == was[id := was[id].(attached := true)];
      if holders[id].stage == Resolved { DoSettle(id); }
    }

    /** `cancel_task` */
    method DoCancelTask(id: nat) returns (cancelled: bool)
      requires Valid() && id < |holders|
      modifies this`queue, holders[id]
      ensures Value() == Next(old(Value()), CancelTask(id))
      ensures cancelled <==> old(holders[id].attached && (!holders[id].task || !closed))
    {
      if !holders[id].attached { return false; }
      ghost var was := Subs();
      holders[id].cancelled := true;
      assert Subs() == was[id := was[id].(cancelled := true)];
      if !holders[id].task { return true; }
      if !closed { queue := queue + [CancelCall(id)]; }
      return !closed;
    }

    method DoDiscard(id: nat)
      requires Valid() && id < |holders|
      modifies this`pendingCount, holders[id]
      ensures Value() == Next(old(Value()), Discard(id))
      ensures old(holders[id].attached) ==> holders[id].settled
      ensures pendingCount == old(pendingCount) - if old(holders[id].attached && !holders[id].settled) then 1 else 0
    {
      if holders[id].attached { DoSettle(id); }
    }

    /** The first half of `shutdown`, under the submit lock; later calls return at once. */
    method StopAccepting() returns (first: bool)
      requires Valid()
      modifies this`stopped
      ensures Value() == Next(old(Value()), Shutdown) && stopped && first == !old(stopped)
    {
      first := !stopped;
      stopped := true;
    }

    /** The second half, without the lock: the drain is scheduled. */
    method ScheduleDrain()
      requires Valid() && stopped && drain == NoDrain
      modifies this`queue, this`drain
      ensures Value() == Next(old(Value()), AskDrain)
      ensures if closed then queue == old(queue) && drain == NoDrain
              else queue == old(queue) + [DrainCreate] && drain == Asked
    {
      if !closed { queue, drain := queue + [DrainCreate], Asked; }
    }

    method IsTaskDone(id: nat) returns (b: bool)
      requires Valid() && id < |holders|
      ensures b == TaskDone(Value().subs[id])
    {
      var h := holders[id];
      if h.task {
        b := h.stage == Finished || h.stage == Resolved;
      } else {
        b := h.cancelled || h.stage == Resolved;
      }
    }
  }
}
