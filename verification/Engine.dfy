/** The tick/halt engine as functions of a tree of nodes and the world.

    These functions are the specification the class in TreeNodes.dfy refines, and
    the subject of every run-level theorem. */
module Engine {
  import opened Worlds

  // ----- nodes --------------------------------------------------------------

  datatype LeafSort = Condition | Action | Stateful

  datatype Policy = Thresholds | AllSuccess | OneSuccess | AllComplete

  /** `Memory(adv)` is a Sequence (`adv == Success`) or a Fallback (`adv == Failure`): the
      cursor advances over children that answer `adv`.  `Reactive(adv)` is the reactive pair.
      `Relay` gives one result for its child's SUCCESS and one for its FAILURE: Inverter (Failure,
      Success), ForceSuccess (Success, Success), ForceFailure (Failure, Failure), SubTree (Success,
      Failure). */
  datatype Kind =
    | Leaf(sort: LeafSort)
    | Memory(adv: Final)
    | Reactive(adv: Final)
    | Parallel(policy: Policy, rawSuccess: int, rawFailure: int)
    | Relay(onSuccess: Final, onFailure: Final)
    | Retry(budget: int)
    | Timeout(duration: real)
    | Rate(period: real)

  const INVERTER := Relay(Failure, Success)
  const FORCE_SUCCESS := Relay(Success, Success)
  const FORCE_FAILURE := Relay(Failure, Failure)
  const SUBTREE := Relay(Success, Failure)

  datatype Info = Info(uid: Uid, kind: Kind, board: Option<Board>)

  /** The fields a node keeps between ticks besides its status. */
  datatype Fields = Fields(
    cursor: nat,              // Sequence, Fallback
    running: Option<nat>,     // reactive pair
    attempts: nat,            // Retry
    started: Option<real>,    // Timeout
    cache: Option<Cached>)    // RateController

  datatype Cached = Cached(at: real, result: Result)

  const BLANK := Fields(0, None, 0, None, None)

  datatype Node = Node(info: Info, status: Status, mem: Fields, kids: seq<Node>)

  /** Node and world after an operation. */
  datatype Step = Step(node: Node, w: World)

  datatype StepAll = StepAll(kids: seq<Node>, w: World)

  /** A run over children: their new states, where it stopped, with what result. */
  datatype Run = Run(kids: seq<Node>, at: nat, result: Result, w: World)

  /** `tick()` of one node before `execute_tick()` stores the result. */
  datatype Body = Body(node: Node, result: Result, w: World)

  function Opposite(r: Result): Result {
    match r case Success => Failure case Failure => Success case Running => Running
  }

  function Other(r: Final): Final {
    if r == Success then Failure else Success
  }

  predicate Terminal(s: Status) { s == Success || s == Failure }

  /** A condition, or a wrapper whose leaves are all conditions. */
  predicate IsGuard(t: Node) {
    t.info.kind == Leaf(Condition) ||
    (t.kids != [] && forall k | k in t.kids :: IsGuard(k))
  }

  /** The boards configured on a node or below it. */
  function Boards(t: Node): set<Board> {
    (if t.info.board.Some? then {t.info.board.value} else {}) + KidBoards(t.kids, 0)
  }

  function KidBoards(kids: seq<Node>, i: nat): set<Board>
    requires i <= |kids|
    decreases kids, |kids| - i
  {
    if i == |kids| then {} else Boards(kids[i]) + KidBoards(kids, i + 1)
  }

  /** The same tree, newly built. */
  function Fresh(t: Node): Node {
    Node(t.info, Idle, BLANK, seq(|t.kids|, i requires 0 <= i < |t.kids| => Fresh(t.kids[i])))
  }

  // ----- halting ------------------------------------------------------------

  /** `_on_halt()`: what a RUNNING node drops besides its status. */
  function OnHaltFields(t: Node): Fields {
    match t.info.kind
    case Reactive(_) => t.mem.(running := None)
    case Retry(_) => t.mem.(attempts := 0)
    case Timeout(_) => t.mem.(started := None)
    case Rate(_) => t.mem.(cache := None)
    case _ => t.mem
  }

  function OnHaltWorld(t: Node, w: World): World {
    match t.info.kind
    case Leaf(Stateful) => CallHalted(w, t.info.uid)
    case Reactive(_) => Unsubscribe(w, t.info.uid)
    case _ => w
  }

  /** `halt()` of every node kind. */
  function Halt(t: Node, w: World): Step
    decreases t
  {
    var m := if t.status == Running then OnHaltFields(t) else t.mem;
    var w1 := if t.status == Running then Tell(OnHaltWorld(t, w), Stopped(t.info.uid)) else w;
    var m1 := if t.info.kind.Memory? then m.(cursor := 0) else m;
    if t.info.kind.Parallel? then
      var r := HaltRunning(t.kids, 0, w1);
      var c := ResetTerminal(r.kids, 0, r.w);
      Step(Node(t.info, Idle, m1, c.kids), c.w)
    else
      var r := HaltFrom(t.kids, 0, w1);
      Step(Node(t.info, Idle, m1, r.kids), r.w)
  }

  /** Halts the children from index `i` on, in order. */
  function HaltFrom(kids: seq<Node>, i: nat, w: World): (r: StepAll)
    ensures |r.kids| == |kids|
    ensures forall j {:trigger r.kids[j]} | 0 <= j < |kids| && j < i :: r.kids[j] == kids[j]
    decreases kids, |kids| - i
  {
    if i >= |kids| then StepAll(kids, w)
    else
      var h := Halt(kids[i], w);
      var r := HaltFrom(kids, i + 1, h.w);
      StepAll(r.kids[i := h.node], r.w)
  }

  /** Halts the RUNNING children from index `i` on, in order. */
  function HaltRunning(kids: seq<Node>, i: nat, w: World): (r: StepAll)
    ensures |r.kids| == |kids|
    ensures forall j {:trigger r.kids[j]} | 0 <= j < |kids| && j < i :: r.kids[j] == kids[j]
    decreases kids, |kids| - i
  {
    if i >= |kids| then StepAll(kids, w)
    else if kids[i].status == Running then
      var h := Halt(kids[i], w);
      var r := HaltRunning(kids, i + 1, h.w);
      StepAll(r.kids[i := h.node], r.w)
    else
      HaltRunning(kids, i + 1, w)
  }

  /** `_reset_subtree()`: to IDLE without a halt, except on nodes found RUNNING. */
  function Reset(t: Node, w: World): Step
    decreases t
  {
    var m := if t.status == Running then OnHaltFields(t) else t.mem;
    var w1 := if t.status == Running then OnHaltWorld(t, w) else w;
    var m1 := if t.info.kind.Rate? then m.(cache := None) else m;
    var w2 := if t.info.kind.Reactive? then SetDirty(w1, t.info.uid) else w1;
    var r := ResetFrom(t.kids, 0, w2);
    Step(Node(t.info, Idle, m1, r.kids), r.w)
  }

  function ResetFrom(kids: seq<Node>, i: nat, w: World): (r: StepAll)
    ensures |r.kids| == |kids|
    ensures forall j {:trigger r.kids[j]} | 0 <= j < |kids| && j < i :: r.kids[j] == kids[j]
    decreases kids, |kids| - i
  {
    if i >= |kids| then StepAll(kids, w)
    else
      var h := Reset(kids[i], w);
      var r := ResetFrom(kids, i + 1, h.w);
      StepAll(r.kids[i := h.node], r.w)
  }

  /** Resets the children that finished, from index `i` on. */
  function ResetTerminal(kids: seq<Node>, i: nat, w: World): (r: StepAll)
    ensures |r.kids| == |kids|
    ensures forall j {:trigger r.kids[j]} | 0 <= j < |kids| && j < i :: r.kids[j] == kids[j]
    decreases |kids| - i
  {
    if i >= |kids| then StepAll(kids, w)
    else if Terminal(kids[i].status) then
      var h := Reset(kids[i], w);
      var r := ResetTerminal(kids, i + 1, h.w);
      StepAll(r.kids[i := h.node], r.w)
    else
      ResetTerminal(kids, i + 1, w)
  }

  // ----- ticking ------------------------------------------------------------

  /** `execute_tick()`: run `tick()`, store the result, tell the Inspector. */
  function Tick(t: Node, w: World): (r: Step)
    ensures r.node.status != Idle
    decreases t, 5
  {
    var b := TickBody(t, w);
    Step(b.node.(status := b.result), Tell(b.w, Ticked(t.info.uid, b.result)))
  }

  function TickBody(t: Node, w: World): Body
    decreases t, 4
  {
    match t.info.kind
    case Leaf(sort) => TickLeaf(t, sort, w)
    case Memory(adv) => TickMemory(t, adv, w)
    case Reactive(adv) => TickReactive(t, adv, w)
    case Parallel(_, _, _) => TickParallel(t, w)
    case _ => if t.kids == [] then Body(t, Failure, w) else TickDecorator(t, w)
  }

  function TickLeaf(t: Node, sort: LeafSort, w: World): Body {
    var hook := if sort != Stateful then Plain else if t.status == Running then Resume else Start;
    Body(t, CallReply(w, t.info.uid, hook).result, Call(w, t.info.uid, hook))
  }

  /** Ticks children `i..n` in order for as long as they answer `adv`.  A child before
      index `skip` that is not a guard is passed over: it stands by its stored result. */
  function RunFrom(kids: seq<Node>, i: nat, n: nat, skip: nat, adv: Final, w: World): (r: Run)
    requires n <= |kids|
    ensures |r.kids| == |kids|
    ensures forall j {:trigger r.kids[j]} | 0 <= j < |kids| && (j < i || j >= n || j > r.at) :: r.kids[j] == kids[j]
    ensures r.result == adv ==> r.at == if i < n then n else i
    ensures r.result != adv ==> i <= r.at < n && r.kids[r.at].status == r.result
    decreases kids, n - i
  {
    if i >= n then Run(kids, i, adv, w)
    else if i < skip && !IsGuard(kids[i]) then
      RunFrom(kids, i + 1, n, skip, adv, w)
    else
      var s := Tick(kids[i], w);
      if s.node.status == adv then
        var r := RunFrom(kids, i + 1, n, skip, adv, s.w);
        r.(kids := r.kids[i := s.node])
      else
        Run(kids[i := s.node], i, s.node.status, s.w)
  }

  /** Sequence and Fallback: resume at the cursor. */
  function TickMemory(t: Node, adv: Final, w: World): Body
    decreases t, 3
  {
    var r := RunFrom(t.kids, t.mem.cursor, |t.kids|, 0, adv, w);
    if r.result == adv then
      Body(t.(kids := r.kids, mem := t.mem.(cursor := 0)), adv, r.w)
    else if r.result == Running then
      Body(t.(kids := r.kids, mem := t.mem.(cursor := r.at)), Running, r.w)
    else
      var h := HaltFrom(r.kids, 0, r.w);
      Body(t.(kids := h.kids, mem := t.mem.(cursor := 0)), r.result, h.w)
  }

  /** The fast path is taken only by a clean, subscribed node with a cursor in range. */
  predicate TakesFastPath(t: Node, w: World) {
    t.info.uid !in w.dirty && t.mem.running.Some? && t.info.uid in w.subs
    && t.mem.running.value < |t.kids|
  }

  function TickReactive(t: Node, adv: Final, w: World): Body
    decreases t, 3
  {
    if TakesFastPath(t, w) then FastTick(t, adv, w) else FullEval(t, 0, adv, w)
  }

  /** `_clear_running()` at the end of a tick that settled. */
  function Settled(t: Node, kids: seq<Node>, result: Result, w: World): Body {
    Body(t.(kids := kids, mem := t.mem.(running := None)), result, Unsubscribe(w, t.info.uid))
  }

  /** `_full_eval()`.  `skip == 0` is the code's evaluation from the first child; with a
      larger `skip` it is the reference the fast path is compared with. */
  function FullEval(t: Node, skip: nat, adv: Final, w: World): Body
    decreases t, 2
  {
    FullEnd(t, RunFrom(t.kids, 0, |t.kids|, skip, adv, ClearDirty(w, t.info.uid)), adv)
  }

  /** What a full evaluation does once its run over the children has stopped. */
  function FullEnd(t: Node, r: Run, adv: Final): Body {
    if r.result == adv then Settled(t, r.kids, adv, r.w)
    else
      var h := HaltFrom(r.kids, r.at + 1, r.w);
      if r.result == Running then
        var w1 := if t.mem.running.None? then Subscribe(h.w, t.info.uid, KidBoards(h.kids, 0)) else h.w;
        Body(t.(kids := h.kids, mem := t.mem.(running := Some(r.at))), Running, w1)
      else
        Settled(t, h.kids, r.result, h.w)
  }

  /** `_fast_tick()`: guards ahead of the running child, then that child, then the rest. */
  function FastTick(t: Node, adv: Final, w: World): Body
    requires t.mem.running.Some? && t.mem.running.value < |t.kids|
    decreases t, 2
  {
    var idx := t.mem.running.value;
    var g := RunFrom(t.kids, 0, idx, idx, adv, w);
    if g.result == Running then
      var h := HaltFrom(g.kids, g.at + 1, g.w);
      Body(t.(kids := h.kids, mem := t.mem.(running := Some(g.at))), Running, h.w)
    else if g.result != adv then
      var h := HaltFrom(g.kids, g.at + 1, g.w);
      Settled(t, h.kids, g.result, h.w)
    else
      var s := Tick(t.kids[idx], g.w);
      if s.node.status == Running then
        Body(t.(kids := g.kids[idx := s.node]), Running, s.w)
      else
        FastRest(t, g.kids[idx := s.node], idx, s.node.status, adv, Unsubscribe(s.w, t.info.uid))
  }

  /** The running child at `idx` has just finished with `result`; the node is unsubscribed. */
  function FastRest(t: Node, kids: seq<Node>, idx: nat, result: Result, adv: Final, w: World): Body
    requires |kids| == |t.kids| && idx < |t.kids| && result != Running
    requires forall j | idx < j < |kids| :: kids[j] == t.kids[j]
    decreases t, 0
  {
    if result != adv then
      var h := HaltFrom(kids, idx + 1, w);
      Body(t.(kids := h.kids, mem := t.mem.(running := None)), result, h.w)
    else
      var r := RunFrom(t.kids, idx + 1, |t.kids|, 0, adv, w);
      RestEnd(t, r.(kids := kids[..idx + 1] + r.kids[idx + 1..]), adv)
  }

  /** What the fast path does once its run over the remaining children has stopped. */
  function RestEnd(t: Node, r: Run, adv: Final): Body {
    var off := t.mem.(running := None);
    if r.result == adv then Body(t.(kids := r.kids, mem := off), adv, r.w)
    else
      var h := HaltFrom(r.kids, r.at + 1, r.w);
      if r.result == Running then
        Body(t.(kids := h.kids, mem := t.mem.(running := Some(r.at))), Running,
             Subscribe(h.w, t.info.uid, KidBoards(h.kids, 0)))
      else
        Body(t.(kids := h.kids, mem := off), r.result, h.w)
  }

  // ----- Parallel -----------------------------------------------------------

  function Min(a: int, b: int): int { if a < b then a else b }

  function Max(a: int, b: int): int { if a < b then b else a }

  /** `_effective_thresholds()` for `n > 0` children: how many successes, how many failures. */
  function SuccessThreshold(k: Kind, n: nat): int
    requires k.Parallel?
  {
    match k.policy
    case OneSuccess => 1
    case AllSuccess => n
    case _ => if k.rawSuccess <= 0 then n else Min(k.rawSuccess, n)
  }

  function FailureThreshold(k: Kind, n: nat): int
    requires k.Parallel?
  {
    match k.policy
    case OneSuccess => n
    case AllSuccess => 1
    case AllComplete => n
    case Thresholds => Min(Max(k.rawFailure, 1), n)
  }

  /** The decision after one sweep over `n > 0` children, in the order the code tests it. */
  function Verdict(k: Kind, n: nat, successes: nat, failures: nat): Result
    requires k.Parallel?
  {
    if k.policy == AllComplete then
      if successes + failures < n then Running
      else if successes >= SuccessThreshold(k, n) then Success else Failure
    else if successes >= SuccessThreshold(k, n) then Success
    else if failures >= FailureThreshold(k, n) then Failure
    else if successes + failures >= n then Failure
    else Running
  }

  function Count(kids: seq<Node>, i: nat, s: Status): nat
    requires i <= |kids|
  {
    if i == 0 then 0 else Count(kids, i - 1, s) + if kids[i - 1].status == s then 1 else 0
  }

  /** Ticks the children that have not finished yet. */
  function Sweep(kids: seq<Node>, i: nat, w: World): (r: StepAll)
    ensures |r.kids| == |kids|
    ensures forall j {:trigger r.kids[j]} | 0 <= j < |kids| && j < i :: r.kids[j] == kids[j]
    decreases kids, |kids| - i
  {
    if i >= |kids| then StepAll(kids, w)
    else if Terminal(kids[i].status) then Sweep(kids, i + 1, w)
    else
      var s := Tick(kids[i], w);
      var r := Sweep(kids, i + 1, s.w);
      StepAll(r.kids[i := s.node], r.w)
  }

  function TickParallel(t: Node, w: World): Body
    requires t.info.kind.Parallel?
    decreases t, 3
  {
    var n := |t.kids|;
    if n == 0 then Body(t, Success, w)
    else
      var s := Sweep(t.kids, 0, w);
      var v := Verdict(t.info.kind, n, Count(s.kids, n, Success), Count(s.kids, n, Failure));
      if v == Running then Body(t.(kids := s.kids), Running, s.w)
      else
        var h := HaltRunning(s.kids, 0, s.w);
        var c := ResetTerminal(h.kids, 0, h.w);
        Body(t.(kids := c.kids), v, c.w)
  }

  // ----- decorators ---------------------------------------------------------

  function TickDecorator(t: Node, w: World): Body
    requires t.kids != []
    decreases t, 3
  {
    match t.info.kind
    case Relay(onSuccess, onFailure) =>
      var s := Tick(t.kids[0], w);
      var r := if s.node.status == Success then onSuccess
               else if s.node.status == Failure then onFailure else Running;
      Body(t.(kids := t.kids[0 := s.node]), r, s.w)
    case Retry(budget) => TickRetry(t, budget, w)
    case Timeout(duration) => TickTimeout(t, duration, w)
    case Rate(period) => TickRate(t, period, w)
    case _ => Body(t, Failure, w)
  }

  function TickRetry(t: Node, budget: int, w: World): Body
    requires t.kids != []
    decreases t, 0
  {
    if budget <= 0 then Body(t.(mem := t.mem.(attempts := 0)), Failure, w)
    else
      var a := if t.status == Running then t.mem.attempts else 0;
      var s := Tick(t.kids[0], w);
      if s.node.status == Success then
        Body(t.(kids := t.kids[0 := s.node], mem := t.mem.(attempts := 0)), Success, s.w)
      else if s.node.status == Failure then
        var h := Halt(s.node, s.w);
        Body(t.(kids := t.kids[0 := h.node], mem := t.mem.(attempts := a + 1)),
             if a + 1 >= budget then Failure else Running, h.w)
      else
        Body(t.(kids := t.kids[0 := s.node], mem := t.mem.(attempts := a)), Running, s.w)
  }

  /** The start time of the current activation: taken at its first tick. */
  function StartTime(t: Node, w: World): real {
    if t.status == Running && t.mem.started.Some? then t.mem.started.value else Now(w)
  }

  function TickTimeout(t: Node, duration: real, w: World): Body
    requires t.kids != []
    decreases t, 0
  {
    var start := StartTime(t, w);
    var w1 := ReadClock(w, t.info.uid);
    var t1 := t.(mem := t.mem.(started := Some(start)));
    if Now(w) - start > duration then
      var h := Halt(t.kids[0], w1);
      Body(t1.(kids := t.kids[0 := h.node]), Failure, h.w)
    else
      var s := Tick(t.kids[0], w1);
      Body(t1.(kids := t.kids[0 := s.node]), s.node.status, s.w)
  }

  function TickRate(t: Node, period: real, w: World): Body
    requires t.kids != []
    decreases t, 0
  {
    var w1 := ReadClock(w, t.info.uid);
    if t.mem.cache.Some? && Now(w) - t.mem.cache.value.at < period then
      Body(t, t.mem.cache.value.result, w1)
    else
      var s := Tick(t.kids[0], w1);
      Body(t.(kids := t.kids[0 := s.node], mem := t.mem.(cache := Some(Cached(Now(w), s.node.status)))),
           s.node.status, s.w)
  }
}
