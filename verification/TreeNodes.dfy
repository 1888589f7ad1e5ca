/** Nodes as the objects they are: `execute_tick`, `halt` and `_reset_subtree` update a heap of
    nodes in place, and refine the functions of Engine.dfy. */
module TreeNodes {
  import opened Worlds
  import opened Engine
  import opened Surroundings
  import opened Stepwise
  import opened LeafNodes

  class TreeNode {
    const info: Info
    var status: Status
    var cursor: nat
    var running: Option<nat>
    var attempts: nat
    var started: Option<real>
    var cache: Option<Cached>
    var kids: seq<TreeNode>
    ghost var repr: set<TreeNode>

    /** `repr` is the set of nodes of the subtree; children's subtrees are disjoint. */
    ghost predicate Valid()
      reads this, repr
      ensures Valid() ==> this in repr
      decreases repr
    {
      && this in repr
      && (forall i | 0 <= i < |kids| ::
            kids[i] in repr && this !in kids[i].repr && kids[i].repr <= repr && kids[i].Valid())
      && (forall i, j | 0 <= i < j < |kids| :: kids[i].repr !! kids[j].repr)
    }

    ghost function Mem(): Fields
      reads this
    {
      Fields(cursor, running, attempts, started, cache)
    }

    /** The subtree as a value. */
    ghost function Abs(): (t: Node)
      requires Valid()
      reads this, repr
      decreases repr, 1
    {
      Node(info, status, Mem(), AbsFrom(0))
    }

    ghost function AbsFrom(i: nat): (r: seq<Node>)
      requires Valid() && i <= |kids|
      reads this, repr
      ensures |r| == |kids| - i
      ensures forall j {:trigger r[j]} | 0 <= j < |r| :: r[j] == kids[i + j].Abs()
      decreases repr, 0, |kids| - i
    {
      if i == |kids| then [] else [kids[i].Abs()] + AbsFrom(i + 1)
    }

    ghost function AbsKids(): (r: seq<Node>)
      requires Valid()
      reads this, repr
      ensures |r| == |kids|
      ensures forall j {:trigger r[j]} | 0 <= j < |r| :: r[j] == kids[j].Abs()
      ensures Abs().kids == r
    {
      AbsFrom(0)
    }

    constructor (info: Info, kids: seq<TreeNode>)
      requires forall i | 0 <= i < |kids| :: kids[i].Valid()
      requires forall i, j | 0 <= i < j < |kids| :: kids[i].repr !! kids[j].repr
      ensures Valid() && this.kids == kids && this.info == info
      ensures status == Idle && Mem() == BLANK
      ensures fresh(repr - set i, x | 0 <= i < |kids| && x in kids[i].repr :: x)
    {
      this.info := info;
      this.kids := kids;
      status, cursor, running, attempts, started, cache := Idle, 0, None, 0, None, None;
      repr := {this} + set i, x | 0 <= i < |kids| && x in kids[i].repr :: x;
    }

    /** `_is_condition_guard` */
    predicate Guard()
      requires Valid()
      reads this, repr
      ensures Guard() == IsGuard(Abs()) == OnlyConditions(Abs())
      decreases repr
    {
      GuardIff(Abs());
      assert forall i | 0 <= i < |kids| :: AbsKids()[i] == kids[i].Abs();
      info.kind == Leaf(Condition) ||
      (kids != [] && forall i | 0 <= i < |kids| :: kids[i].Guard())
    }

    // ----- one child at a time ------------------------------------------------------

    /** When only the subtree of child `i` has changed, and is valid again, so is this one. */
    twostate lemma KidChanged(i: nat)
      requires old(Valid()) && i < |kids| && unchanged(this)
      requires kids[i].Valid() && kids[i].repr == old(kids[i].repr)
      requires forall o | o in old(repr) && o !in old(kids[i].repr) :: unchanged(o)
      ensures Valid() && AbsKids() == old(AbsKids())[i := kids[i].Abs()]
    {
      forall j | 0 <= j < |kids| && j != i
        ensures kids[j].Valid() && kids[j].repr == old(kids[j].repr) && kids[j].Abs() == old(kids[j].Abs())
      {
        assert old(kids[j].Valid());
        assert kids[j].repr !! old(kids[i].repr);
      }
      assert Valid();
      forall j | 0 <= j < |kids| ensures AbsKids()[j] == old(AbsKids())[i := kids[i].Abs()][j] {
        if j != i { assert old(AbsKids()[j]) == old(kids[j].Abs()); }
      }
    }

    /** Valid but for child `i`; the subtrees of the other children are within `others`. */
    ghost predicate ValidBut(i: nat, others: set<TreeNode>)
      reads this, others
    {
      && this !in others
      && (forall j | 0 <= j < |kids| && j != i :: kids[j] in others && kids[j].repr <= others && kids[j].Valid())
      && (forall j, k | 0 <= j < k < |kids| && j != i && k != i :: kids[j].repr !! kids[k].repr)
    }

    /** Something has happened in the subtree of child `i` only. */
    twostate lemma OthersUnchanged(i: nat)
      requires old(Valid()) && i < |kids| && unchanged(this)
      requires forall o | o in old(repr) && o !in old(kids[i].repr) :: unchanged(o)
      ensures ValidBut(i, old(repr - kids[i].repr - {this}))
      ensures forall j | 0 <= j < |kids| && j != i :: kids[j].Abs() == old(kids[j].Abs())
    {
      forall j | 0 <= j < |kids| && j != i
        ensures kids[j].Valid() && kids[j].repr == old(kids[j].repr) && kids[j].Abs() == old(kids[j].Abs())
      {
        assert old(kids[j].Valid());
        assert old(kids[j].repr !! kids[i].repr);
      }
    }

    /** Puts `now` in the place of child `i`; as values the children were `was` but for that one. */
    method PutInPlace(i: nat, now: TreeNode, ghost was: seq<Node>, ghost others: set<TreeNode>)
      requires i < |kids| && ValidBut(i, others) && now.Valid() && this !in now.repr && now.repr !! others
      requires |was| == |kids| && forall j | 0 <= j < |kids| && j != i :: kids[j].Abs() == was[j]
      modifies this
      ensures Valid() && repr == {this} + now.repr + others
      ensures status == old(status) && Mem() == old(Mem())
      ensures AbsKids() == was[i := now.Abs()]
    {
      ghost var x := now.Abs();
      repr := {this} + now.repr + others;
      kids := kids[i := now];
      assert forall j | 0 <= j < |kids| && j != i :: kids[j].Abs() == was[j];
      assert now.Abs() == x;
    }

    /** `insert` into the child list */
    method PutKid(i: nat, node: TreeNode)
      requires Valid() && node.Valid() && node.repr !! repr && i <= |kids|
      modifies this
      ensures Valid() && repr == old(repr) + node.repr && status == old(status) && Mem() == old(Mem())
      ensures AbsKids() == old(AbsKids())[..i] + [old(node.Abs())] + old(AbsKids())[i..]
    {
      ghost var ks, new_ := AbsKids(), node.Abs();
      kids := kids[..i] + [node] + kids[i..];
      repr := repr + node.repr;
      hide Abs, AbsFrom;
      assert |AbsKids()| == |kids|;
      forall j | 0 <= j < |kids| ensures AbsKids()[j] == (ks[..i] + [new_] + ks[i..])[j] {
        assert j < i ==> kids[j] == old(kids[j]);
        assert j > i ==> kids[j] == old(kids[j - 1]);
      }
    }

    /** `pop` from the child list */
    method CutKid(i: nat)
      requires Valid() && i < |kids|
      modifies this
      ensures Valid() && repr < old(repr) && status == old(status) && Mem() == old(Mem())
      ensures AbsKids() == old(AbsKids())[..i] + old(AbsKids())[i + 1..]
    {
      ghost var ks := AbsKids();
      repr := repr - kids[i].repr;
      kids := kids[..i] + kids[i + 1..];
      assert AbsKids() == ks[..i] + ks[i + 1..];
    }

    method HaltKid(i: nat, w: Stage)
      requires Valid() && i < |kids|
      modifies repr - {this}, w
      ensures Valid()
      ensures var h := Halt(old(AbsKids())[i], old(w.Value()));
        AbsKids() == old(AbsKids())[i := h.node] && w.Value() == h.w
      decreases repr, 0
    {
      hide Halt;
      assert AbsKids()[i] == kids[i].Abs();
      kids[i].DoHalt(w);
      KidChanged(i);
    }

    method ResetKid(i: nat, w: Stage)
      requires Valid() && i < |kids|
      modifies repr - {this}, w
      ensures Valid()
      ensures var h := Reset(old(AbsKids())[i], old(w.Value()));
        AbsKids() == old(AbsKids())[i := h.node] && w.Value() == h.w
      decreases repr, 0
    {
      hide Reset;
      assert AbsKids()[i] == kids[i].Abs();
      kids[i].DoReset(w);
      KidChanged(i);
    }

    // ----- halt -------------------------------------------------------------------

    method OnHalt(ghost t: Node, w: Stage)
      requires t.info == info && t.mem == Mem()
      modifies this, w
      ensures status == old(status) && kids == old(kids) && repr == old(repr)
      ensures Mem() == OnHaltFields(t) && w.Value() == OnHaltWorld(t, old(w.Value()))
    {
      match info.kind {
        case Leaf(sort) => if sort == Stateful { w.CallOnHalted(info.uid); }
        case Reactive(_) =>
          w.DoUnsubscribe(info.uid);
          running := None;
        case Retry(_) => attempts := 0;
        case Timeout(_) => started := None;
        case Rate(_) => cache := None;
        case _ =>
      }
    }

    /** This node's own fields have changed, nothing below it. */
    twostate lemma OwnChanged()
      requires old(Valid()) && kids == old(kids) && repr == old(repr)
      requires forall o | o in old(repr) && o != this :: unchanged(o)
      ensures Valid() && AbsKids() == old(AbsKids())
    {
      forall j | 0 <= j < |kids|
        ensures kids[j].Valid() && kids[j].repr == old(kids[j].repr) && kids[j].Abs() == old(kids[j].Abs())
      {
        assert old(kids[j].Valid());
      }
      assert Valid();
      forall j | 0 <= j < |kids| ensures AbsKids()[j] == old(AbsKids())[j] {
        assert old(AbsKids()[j]) == old(kids[j].Abs());
      }
    }

    /** `halt()` of every node kind */
    method DoHalt(w: Stage)
      requires Valid()
      modifies repr, w
      ensures Valid() && repr == old(repr)
      ensures Step(Abs(), w.Value()) == Halt(old(Abs()), old(w.Value()))
      decreases repr, 2
    {
      ghost var t := Abs();
      if status == Running {
        OnHalt(t, w);
        w.Notify(Stopped(info.uid));
      }
      if info.kind.Memory? { cursor := 0; }
      OwnChanged();
      ghost var m := Mem();
      hide HaltFrom, HaltRunning, ResetTerminal, Valid, AbsKids, AbsFrom;
      if info.kind.Parallel? {
        HaltRunningKids(w);
        ResetFinishedKids(w);
      } else {
        HaltKids(0, w);
      }
      label L:
      status := Idle;
      OwnChanged@L();
    }

    /** Halts the children from index `from` on. */
    method HaltKids(from: nat, w: Stage)
      requires Valid()
      modifies repr - {this}, w
      ensures Valid()
      ensures StepAll(AbsKids(), w.Value()) == HaltFrom(old(AbsKids()), from, old(w.Value()))
      decreases repr, 1
    {
      hide Valid, AbsKids, AbsFrom, Halt;
      var i := from;
      while i < |kids|
        invariant Valid()
        invariant HaltFrom(old(AbsKids()), from, old(w.Value())) == HaltFrom(AbsKids(), i, w.Value())
      {
        HaltFromStep(AbsKids(), i, w.Value());
        HaltKid(i, w);
        i := i + 1;
      }
    }

    /** `_halt_running_children` */
    method HaltRunningKids(w: Stage)
      requires Valid()
      modifies repr - {this}, w
      ensures Valid()
      ensures StepAll(AbsKids(), w.Value()) == HaltRunning(old(AbsKids()), 0, old(w.Value()))
      decreases repr, 1
    {
      hide Valid, AbsKids, AbsFrom, Halt;
      var i := 0;
      while i < |kids|
        invariant Valid()
        invariant HaltRunning(old(AbsKids()), 0, old(w.Value())) == HaltRunning(AbsKids(), i, w.Value())
      {
        assert AbsKids()[i].status == kids[i].status;
        if kids[i].status == Running {
          HaltRunningStep(AbsKids(), i, w.Value());
          HaltKid(i, w);
        }
        i := i + 1;
      }
    }

    /** `_reset_children_status` */
    method ResetFinishedKids(w: Stage)
      requires Valid()
      modifies repr - {this}, w
      ensures Valid()
      ensures StepAll(AbsKids(), w.Value()) == ResetTerminal(old(AbsKids()), 0, old(w.Value()))
      decreases repr, 1
    {
      hide Valid, AbsKids, AbsFrom, Reset;
      var i := 0;
      while i < |kids|
        invariant Valid()
        invariant ResetTerminal(old(AbsKids()), 0, old(w.Value())) == ResetTerminal(AbsKids(), i, w.Value())
      {
        assert AbsKids()[i].status == kids[i].status;
        if Terminal(kids[i].status) {
          ResetTerminalStep(AbsKids(), i, w.Value());
          ResetKid(i, w);
        }
        i := i + 1;
      }
    }

    /** `_reset_subtree` */
    method DoReset(w: Stage)
      requires Valid()
      modifies repr, w
      ensures Valid() && repr == old(repr)
      ensures Step(Abs(), w.Value()) == Reset(old(Abs()), old(w.Value()))
      decreases repr, 2
    {
      ghost var t := Abs();
      if status == Running { OnHalt(t, w); }
      if info.kind.Rate? { cache := None; }
      if info.kind.Reactive? { w.MarkDirty(info.uid); }
      status := Idle;
      OwnChanged();
      hide ResetFrom, Valid, AbsKids, AbsFrom;
      ResetKids(w);
    }

    method ResetKids(w: Stage)
      requires Valid()
      modifies repr - {this}, w
      ensures Valid()
      ensures StepAll(AbsKids(), w.Value()) == ResetFrom(old(AbsKids()), 0, old(w.Value()))
      decreases repr, 1
    {
      hide Valid, AbsKids, AbsFrom, Reset;
      var i := 0;
      while i < |kids|
        invariant Valid()
        invariant ResetFrom(old(AbsKids()), 0, old(w.Value())) == ResetFrom(AbsKids(), i, w.Value())
      {
        ResetFromStep(AbsKids(), i, w.Value());
        ResetKid(i, w);
        i := i + 1;
      }
    }

    // ----- tick -------------------------------------------------------------------

    method TickKid(i: nat, w: Stage) returns (r: Result)
      requires Valid() && i < |kids|
      modifies repr - {this}, w
      ensures Valid()
      ensures var s := Tick(old(AbsKids())[i], old(w.Value()));
        AbsKids() == old(AbsKids())[i := s.node] && w.Value() == s.w && r == s.node.status
      decreases repr, 0
    {
      hide Tick;
      assert AbsKids()[i] == kids[i].Abs();
      r := kids[i].ExecuteTick(w);
      KidChanged(i);
    }

    /** `execute_tick`: run `tick()`, store the result, tell the Inspector. */
    method ExecuteTick(w: Stage) returns (r: Result)
      requires Valid()
      modifies repr, w
      ensures Valid() && repr == old(repr)
      ensures Step(Abs(), w.Value()) == Tick(old(Abs()), old(w.Value())) && r == status
      ensures w.notes != [] && w.notes[|w.notes| - 1] == Ticked(info.uid, r)
      ensures info.kind.Leaf? ==>
        var hook := match info.kind.sort
          case Condition => Plain
          case Action => Plain
          case Stateful => if old(status) == Running then Resume else Start;
        r == w.env.reply(old(w.trace), info.uid, hook).result && w.trace == old(w.trace) + [Called(info.uid, hook, r)]
      decreases repr, 7
    {
      if info.kind.Leaf? { LeafAnswers(Abs(), w.Value()); }
      r := DoTick(w);
      hide Valid, AbsKids, AbsFrom, TickBody;
      label L:
      status := r;
      w.Notify(Ticked(info.uid, r));
      OwnChanged@L();
    }

    /** What one `tick()` body must have done. */
    twostate predicate Does(b: Body, r: Result, w: Stage)
      requires Valid()
      reads this, repr, w
    {
      repr == old(repr) && Abs() == b.node && r == b.result && w.Value() == b.w
    }

    /** `tick()` of the node's kind */
    method DoTick(w: Stage) returns (r: Result)
      requires Valid()
      modifies repr, w
      ensures Valid() && Does(TickBody(old(Abs()), old(w.Value())), r, w)
      decreases repr, 6
    {
      hide Valid, AbsKids, AbsFrom, TickMemory, TickReactive, TickParallel, TickDecorator;
      assert AbsKids() == Abs().kids;
      match info.kind {
        case Leaf(sort) =>
          r := w.CallLeaf(info.uid, if sort != Stateful then Plain else if status == Running then Resume else Start);
        case Memory(adv) => r := TickSequential(adv, w);
        case Reactive(adv) => r := TickReactiveNode(adv, w);
        case Parallel(_, _, _) => r := TickParallelNode(w);
        case _ =>
          if kids == [] { r := Failure; } else { r := TickDecoratorNode(w); }
      }
    }

    /** Ticks children `from..n` for as long as they answer `adv`; before index `skip` only guards. */
    method RunKids(from: nat, n: nat, skip: nat, adv: Final, w: Stage) returns (at: nat, r: Result)
      requires Valid() && n <= |kids|
      modifies repr - {this}, w
      ensures Valid()
      ensures Run(AbsKids(), at, r, w.Value()) == RunFrom(old(AbsKids()), from, n, skip, adv, old(w.Value()))
      decreases repr, 1
    {
      hide Valid, AbsKids, AbsFrom, Tick, IsGuard, RunFrom;
      at := from;
      while at < n
        invariant Valid()
        invariant RunFrom(old(AbsKids()), from, n, skip, adv, old(w.Value()))
               == RunFrom(AbsKids(), at, n, skip, adv, w.Value())
        decreases n - at
      {
        ghost var ks, v := AbsKids(), w.Value();
        GuardIs(at);
        RunFromEdges(ks, at, n, skip, adv, v);
        if at < skip && !kids[at].Guard() {
          at := at + 1;
          continue;
        }
        r := TickKid(at, w);
        if r != adv { return; }
        RunFromStep(ks, at, n, skip, adv, v);
        at := at + 1;
      }
      r := adv;
      RunFromEdges(AbsKids(), at, n, skip, adv, w.Value());
    }

    lemma GuardIs(i: nat)
      requires Valid() && i < |kids|
      ensures kids[i].Valid() && kids[i].Guard() == IsGuard(AbsKids()[i])
    {
      assert AbsKids()[i] == kids[i].Abs();
    }

    /** `SequenceNode.tick` and, with `adv == Failure`, `FallbackNode.tick` */
    method TickSequential(adv: Final, w: Stage) returns (r: Result)
      requires Valid()
      modifies repr, w
      ensures Valid() && Does(TickMemory(old(Abs()), adv, old(w.Value())), r, w)
      decreases repr, 5
    {
      hide Valid, AbsKids, AbsFrom, RunFrom, HaltFrom;
      var at: nat;
      at, r := RunKids(cursor, |kids|, 0, adv, w);
      if r != adv && r != Running { HaltKids(0, w); }
      label L:
      cursor := if r == Running then at else 0;
      OwnChanged@L();
    }

    // ----- the reactive pair ---------------------------------------------------------

    method TickReactiveNode(adv: Final, w: Stage) returns (r: Result)
      requires Valid()
      modifies repr, w
      ensures Valid() && Does(TickReactive(old(Abs()), adv, old(w.Value())), r, w)
      decreases repr, 5
    {
      hide Valid, AbsKids, AbsFrom, FullEval, FastTick;
      if info.uid in w.dirty || running.None? || info.uid !in w.subs {
        r := FullEvaluation(adv, w);
      } else if running.value >= |kids| {
        r := FullEvaluation(adv, w);
      } else {
        r := FastEvaluation(adv, w);
      }
    }

    /** `_full_eval` */
    method FullEvaluation(adv: Final, w: Stage) returns (r: Result)
      requires Valid()
      modifies repr, w
      ensures Valid() && Does(FullEval(old(Abs()), 0, adv, old(w.Value())), r, w)
      decreases repr, 4
    {
      hide Valid, AbsKids, AbsFrom, RunFrom, FullEnd;
      ghost var t := Abs();
      w.MarkClean(info.uid);
      var at: nat;
      at, r := RunKids(0, |kids|, 0, adv, w);
      EndFull(t, at, r, adv, w);
    }

    /** The end of a full evaluation that stopped at child `at` with result `r`. */
    method EndFull(ghost t: Node, at: nat, r: Result, adv: Final, w: Stage)
      requires Valid() && t.info == info && t.status == status && t.mem == Mem()
      modifies repr, w
      ensures Valid() && Does(FullEnd(t, Run(old(AbsKids()), at, r, old(w.Value())), adv), r, w)
      decreases repr, 3
    {
      hide Valid, AbsKids, AbsFrom, HaltFrom, KidBoards, Subscribe, Unsubscribe;
      if r != adv { HaltKids(at + 1, w); }
      if r == Running {
        if running.None? { SubscribeToBoards(w); }
        SetRunning(Some(at));
      } else {
        w.DoUnsubscribe(info.uid);
        SetRunning(None);
      }
    }

    method SetRunning(at: Option<nat>)
      requires Valid()
      modifies this
      ensures Valid() && repr == old(repr) && AbsKids() == old(AbsKids())
      ensures status == old(status) && Mem() == old(Mem()).(running := at)
    {
      running := at;
      OwnChanged();
    }

    /** `_subscribe` */
    method SubscribeToBoards(w: Stage)
      requires Valid()
      modifies w
      ensures Valid() && AbsKids() == old(AbsKids())
      ensures w.Value() == Subscribe(old(w.Value()), info.uid, KidBoards(AbsKids(), 0))
    {
      var boards := CollectBoards();
      w.DoSubscribe(info.uid, boards);
    }

    /** `_fast_tick` */
    method FastEvaluation(adv: Final, w: Stage) returns (r: Result)
      requires Valid() && running.Some? && running.value < |kids|
      modifies repr, w
      ensures Valid() && Does(FastTick(old(Abs()), adv, old(w.Value())), r, w)
      decreases repr, 4
    {
      hide Valid, AbsKids, AbsFrom, RunFrom, FastTick, GuardsEnd, AfterGuards;
      var idx := running.value;
      ghost var t, v := Abs(), w.Value();
      FastTickParts(t, adv, v);
      var at: nat;
      at, r := RunKids(0, idx, idx, adv, w);
      if r != adv {
        EndGuards(t, at, r, w);
      } else {
        r := TickRunningKid(t, idx, adv, w);
      }
    }

    /** A guard ahead of the running child did not answer `adv`. */
    method EndGuards(ghost t: Node, at: nat, r: Result, w: Stage)
      requires Valid() && t.info == info && t.status == status && t.mem == Mem()
      modifies repr, w
      ensures Valid() && Does(GuardsEnd(t, Run(old(AbsKids()), at, r, old(w.Value()))), r, w)
      decreases repr, 3
    {
      hide Valid, AbsKids, AbsFrom, HaltFrom;
      HaltKids(at + 1, w);
      if r == Running {
        SetRunning(Some(at));
      } else {
        w.DoUnsubscribe(info.uid);
        SetRunning(None);
      }
    }

    /** The guards ahead of the running child have all answered `adv`. */
    method TickRunningKid(ghost t: Node, idx: nat, adv: Final, w: Stage) returns (r: Result)
      requires Valid() && idx < |kids| == |t.kids|
      requires t.info == info && t.status == status && t.mem == Mem()
      requires forall j | idx <= j < |kids| :: AbsKids()[j] == t.kids[j]
      modifies repr, w
      ensures Valid() && Does(AfterGuards(t, old(AbsKids()), idx, adv, old(w.Value())), r, w)
      decreases repr, 3
    {
      hide Valid, AbsKids, AbsFrom, FastRest, Tick;
      r := TickKid(idx, w);
      if r != Running {
        w.DoUnsubscribe(info.uid);
        r := FinishFast(t, idx, r, adv, w);
      }
    }

    /** The running child has finished with `first`, and this node is unsubscribed. */
    method FinishFast(ghost t: Node, idx: nat, first: Final, adv: Final, w: Stage) returns (r: Result)
      requires Valid() && idx < |kids| == |t.kids|
      requires t.info == info && t.status == status && t.mem == Mem()
      requires forall j | idx < j < |kids| :: AbsKids()[j] == t.kids[j]
      modifies repr, w
      ensures Valid() && Does(FastRest(t, old(AbsKids()), idx, first, adv, old(w.Value())), r, w)
      decreases repr, 2
    {
      hide Valid, AbsKids, AbsFrom, RunFrom, HaltFrom, RestEnd;
      r := first;
      SetRunning(None);
      if first != adv {
        HaltKids(idx + 1, w);
        return;
      }
      FastRestRuns(t, AbsKids(), idx, adv, w.Value());
      var at: nat;
      at, r := RunKids(idx + 1, |kids|, 0, adv, w);
      EndRest(t, at, r, adv, w);
    }

    /** The end of the fast path's run over the remaining children. */
    method EndRest(ghost t: Node, at: nat, r: Result, adv: Final, w: Stage)
      requires Valid() && t.info == info && t.status == status && t.mem.(running := None) == Mem()
      modifies repr, w
      ensures Valid() && Does(RestEnd(t, Run(old(AbsKids()), at, r, old(w.Value())), adv), r, w)
      decreases repr, 1, 1
    {
      hide Valid, AbsKids, AbsFrom, HaltFrom, KidBoards;
      if r != adv {
        HaltKids(at + 1, w);
        if r == Running {
          SetRunning(Some(at));
          SubscribeToBoards(w);
        }
      }
    }

    /** `_collect_blackboards`: a depth-first walk over the nodes below, with a work list. */
    method CollectBoards() returns (boards: set<Board>)
      requires Valid()
      ensures boards == KidBoards(AbsKids(), 0)
    {
      hide KidBoards;
      boards := {};
      var stack := kids;
      ghost var vals := AbsKids();
      while stack != []
        invariant |vals| == |stack| && forall j | 0 <= j < |stack| :: stack[j].Valid() && stack[j].Abs() == vals[j]
        invariant boards + KidBoards(vals, 0) == KidBoards(AbsKids(), 0)
        decreases SizeFrom(vals, 0)
      {
        var n := |stack| - 1;
        var node := stack[n];
        PopBoards(vals[..n], vals[n]);
        assert vals == vals[..n] + [vals[n]];
        if node.info.board.Some? { boards := boards + {node.info.board.value}; }
        vals := vals[..n] + node.AbsKids();
        stack := stack[..n] + node.kids;
      }
      NoBoards();
    }

    lemma NoBoards()
      ensures KidBoards([], 0) == {}
    {}

    // ----- Parallel --------------------------------------------------------------------

    /** Ticks the unfinished children; counts how many succeeded and failed so far. */
    method SweepKids(w: Stage) returns (successes: nat, failures: nat)
      requires Valid()
      modifies repr - {this}, w
      ensures Valid()
      ensures StepAll(AbsKids(), w.Value()) == Sweep(old(AbsKids()), 0, old(w.Value()))
      ensures successes == Count(AbsKids(), |kids|, Success) && failures == Count(AbsKids(), |kids|, Failure)
      decreases repr, 1
    {
      hide Valid, AbsKids, AbsFrom, Sweep, Count, Tick;
      successes, failures := 0, 0;
      NoneCounted();
      var i := 0;
      while i < |kids|
        invariant i <= |kids| && Valid()
        invariant Sweep(old(AbsKids()), 0, old(w.Value())) == Sweep(AbsKids(), i, w.Value())
        invariant successes == Count(AbsKids(), i, Success) && failures == Count(AbsKids(), i, Failure)
      {
        ghost var ks, v := AbsKids(), w.Value();
        assert ks[i].status == kids[i].status;
        if !Terminal(kids[i].status) {
          var _ := TickKid(i, w);
        }
        assert AbsKids()[i].status == kids[i].status;
        SweepCounts(ks, i, v);
        if kids[i].status == Success {
          successes := successes + 1;
        } else if kids[i].status == Failure {
          failures := failures + 1;
        }
        i := i + 1;
      }
      NothingToSweep(AbsKids(), w.Value());
    }

    lemma NoneCounted()
      requires Valid()
      ensures Count(AbsKids(), 0, Success) == Count(AbsKids(), 0, Failure) == 0
    {}

    /** `_finish` */
    method Finish(succeeded: bool, w: Stage) returns (r: Final)
      requires Valid()
      modifies repr - {this}, w
      ensures Valid() && (r == Success <==> succeeded)
      ensures var h := HaltRunning(old(AbsKids()), 0, old(w.Value()));
        StepAll(AbsKids(), w.Value()) == ResetTerminal(h.kids, 0, h.w)
      decreases repr, 2
    {
      hide Valid, AbsKids, AbsFrom, HaltRunning, ResetTerminal;
      HaltRunningKids(w);
      ResetFinishedKids(w);
      r := if succeeded then Success else Failure;
    }

    /** `ParallelNode.tick` */
    method TickParallelNode(w: Stage) returns (r: Result)
      requires Valid() && info.kind.Parallel?
      modifies repr, w
      ensures Valid() && Does(TickParallel(old(Abs()), old(w.Value())), r, w)
      decreases repr, 5
    {
      hide Valid, AbsKids, AbsFrom, Sweep, HaltRunning, ResetTerminal, Count;
      var n := |kids|;
      if n == 0 { return Success; }
      var successThreshold, failureThreshold := SuccessThreshold(info.kind, n), FailureThreshold(info.kind, n);
      var successes, failures := SweepKids(w);
      var completed := successes + failures;
      if info.kind.policy == AllComplete {
        if completed < n { return Running; }
        r := Finish(successes >= successThreshold, w);
        return;
      }
      if successes >= successThreshold {
        r := Finish(true, w);
      } else if failures >= failureThreshold {
        r := Finish(false, w);
      } else if completed >= n {
        r := Finish(false, w);
      } else {
        r := Running;
      }
    }

    // ----- decorators -----------------------------------------------------------------

    method TickDecoratorNode(w: Stage) returns (r: Result)
      requires Valid() && kids != []
      modifies repr, w
      ensures Valid() && Does(TickDecorator(old(Abs()), old(w.Value())), r, w)
      decreases repr, 5
    {
      hide Valid, AbsKids, AbsFrom, Tick, TickRetry, TickTimeout, TickRate;
      match info.kind {
        case Relay(onSuccess, onFailure) =>
          r := TickKid(0, w);
          if r == Success { r := onSuccess; } else if r == Failure { r := onFailure; }
        case Retry(budget) => r := TickRetryNode(budget, w);
        case Timeout(duration) => r := TickTimeoutNode(duration, w);
        case Rate(period) => r := TickRateNode(period, w);
        case _ => r := Failure;
      }
    }

    /** `Retry.tick` */
    method TickRetryNode(budget: int, w: Stage) returns (r: Result)
      requires Valid() && kids != []
      modifies repr, w
      ensures Valid() && Does(TickRetry(old(Abs()), budget, old(w.Value())), r, w)
      decreases repr, 4
    {
      hide Valid, AbsKids, AbsFrom, Tick, Halt;
      if budget <= 0 {
        SetAttempts(0);
        return Failure;
      }
      if status != Running { SetAttempts(0); }
      r := TickKid(0, w);
      if r == Success {
        SetAttempts(0);
      } else if r == Failure {
        r := FailAttempt(budget, w);
      }
    }

    /** One attempt has failed: the child is halted, and there is another one while the budget lasts. */
    method FailAttempt(budget: int, w: Stage) returns (r: Result)
      requires Valid() && kids != []
      modifies repr, w
      ensures Valid() && repr == old(repr)
      ensures status == old(status) && Mem() == old(Mem()).(attempts := old(attempts) + 1)
      ensures var h := Halt(old(AbsKids())[0], old(w.Value()));
        AbsKids() == old(AbsKids())[0 := h.node] && w.Value() == h.w
      ensures r == if old(attempts) + 1 >= budget then Failure else Running
      decreases repr, 3
    {
      hide Valid, AbsKids, AbsFrom, Halt;
      HaltKid(0, w);
      SetAttempts(attempts + 1);
      r := if attempts >= budget then Failure else Running;
    }

    method SetAttempts(n: nat)
      requires Valid()
      modifies this
      ensures Valid() && repr == old(repr) && AbsKids() == old(AbsKids())
      ensures status == old(status) && Mem() == old(Mem()).(attempts := n)
    {
      attempts := n;
      OwnChanged();
    }

    /** `Timeout.tick` */
    method TickTimeoutNode(duration: real, w: Stage) returns (r: Result)
      requires Valid() && kids != []
      modifies repr, w
      ensures Valid() && Does(TickTimeout(old(Abs()), duration, old(w.Value())), r, w)
      decreases repr, 4
    {
      hide Valid, AbsKids, AbsFrom, Tick, Halt;
      var now := w.Monotonic(info.uid);
      if status != Running || started.None? { started := Some(now); }
      OwnChanged();
      if now - started.value > duration {
        HaltKid(0, w);
        return Failure;
      }
      r := TickKid(0, w);
    }

    /** `RateController.tick` */
    method TickRateNode(period: real, w: Stage) returns (r: Result)
      requires Valid() && kids != []
      modifies repr, w
      ensures Valid() && Does(TickRate(old(Abs()), period, old(w.Value())), r, w)
      decreases repr, 4
    {
      hide Valid, AbsKids, AbsFrom, Tick;
      var now := w.Monotonic(info.uid);
      OwnChanged();
      if cache.None? || now - cache.value.at >= period {
        r := TickKid(0, w);
        label L:
        cache := Some(Cached(now, r));
        OwnChanged@L();
      } else {
        r := cache.value.result;
      }
    }
  }
}
