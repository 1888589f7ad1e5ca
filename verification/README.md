# BTEng, modelled and proved

BTEng is a tick-driven behaviour tree engine. A tree of node objects is stepped by
`execute_tick()` and `halt()`; every composite keeps some state between ticks (a cursor, a
running index and a dirty flag, an attempt counter, a start time, a cached status) that has to
stay in step with the statuses of its whole subtree. This project models the engine and the
parts around it whose correctness spans several functions, and proves what they promise.

Check everything with `dafny verify dfyconfig.toml`.

## What is here

| file | content |
|---|---|
| Worlds.dfy, Engine.dfy | statuses, node kinds, and the tick, halt and reset of a tree value in a world. User code in leaves and the clock are an oracle over everything called so far, so equal behaviour means equal statuses and equal call traces |
| Invariants.dfy | the closure invariants, kept by every tick and halt of arbitrary trees |
| Verdicts.dfy, Activations.dfy | what each control node and decorator decides over an activation |
| Simulation.dfy, Runs.dfy | one bisimulation over all node kinds, and two theorems read off it: resting trees are as good as new, De Morgan duality |
| LiveRuns.dfy | the same for runs with modifications; the accounts of stateful leaves |
| Caches.dfy | which rate limiters hold a result after a reset and after a halt |
| FastPath.dfy | the reactive fast path refines full evaluation |
| LeafNodes.dfy, Schedules.dfy | what one tick does as seen from outside: which user code is called, which children are ticked in what order, and what becomes of their answers |
| Tracking.dfy, Ledgers.dfy | running set, hook calls and subscriptions agree with the statuses over every run |
| Footprints.dfy, Wakeups.dfy | what the work of some nodes does to all others, and exactly which writes take a reactive node off its fast path |
| Resets.dfy | when `reset_node()` makes a tree as good as new, and what the tree does otherwise |
| Modify.dfy, LiveTrees.dfy | structural modification between ticks, on values and in place on the heap |
| Surroundings.dfy, Stepwise.dfy, TreeNodes.dfy | the node objects themselves: a heap of nodes updated in place, refining Engine.dfy |
| Inspectors.dfy, PathOrder.dfy | the Inspector object: running set, active path, ring buffer; the order of the active path along a branch |
| Blackboards.dfy | scoped blackboard: resolution, remapping, history, dispatch |
| Bridge.dfy, Coro.dfy | the asyncio bridge as atomic steps over locks and a FIFO queue, and the coroutine leaf on top of it |
| Xml.dfy | subtree expansion of XML documents |
| Builder.dfy | the fluent builder |

Sequence and Fallback are one node kind with the advancing result as a parameter, and so are
the two reactive nodes; Inverter, ForceSuccess, ForceFailure and SubTree are one kind that maps
its child's result.

What is assumed of asyncio is in `Bridge.Exec`: callbacks run in the order in which they were
queued; a new task's first step is queued when the task is made; a finished task queues first the
callback that resolves its future, then the one that tells a waiting `gather`. It is also assumed
that the check and the assignment at the head of `_runner` are one step. Nothing in the code makes
them one: a thread that cancels in between marks the holder and finds no task. On this rest
`Bridge.TaskDoneIsExact`, `Bridge.TaskDoneIsForGood` and, through them, `Coro.NeverTwoCoroutines`.

Where the code and its documentation differ, the code is followed:

- `active_path()` is documented as root to leaf for sequential trees. It lists nodes in the order
  in which they became RUNNING, so what becomes RUNNING in one tick is listed from the leaf up, and
  a node that starts below one that was RUNNING already is listed after it
  (`PathOrder.BranchOrder`; `Inspectors.LeafBeforeParent` is the smallest case).
- `reset_node()` is documented to restart a subtree from scratch. It does when every cursor is at
  its start (`Resets.ResetIsFresh`); a Sequence or Fallback past its first child goes on from its
  cursor (`Resets.ResetSkips`, and a case in point, `Resets.ResetSequenceDiffers`).
- A reactive node is documented to evaluate fully after any write to a board below it while a child
  is RUNNING. A write by a child that is reached in the tick in which the running child finishes
  goes unheard (`Wakeups.WriteBehindGoesUnheard`), because the node is unsubscribed at that moment;
  every write at which it is subscribed is followed by a full evaluation
  (`Wakeups.WriteForcesFullEval`).
- `TreeBuilder.end()` is documented to require exactly one child per decorator; it requires at
  least one, and keeps the last (`Builder.SecondChildOverwrites`).

Some promises hold under a condition, and the condition is part of the statement: a Retry whose
budget drops to nothing while its child is RUNNING (`Activations.RetryBudgetDropped`), a
RateController that rests with a cached result (`LiveRuns.RestingRate`), a coroutine leaf that
changes bridges (`Coro.MovingIsSafeIff`).

## Model

| member | source | states |
|---|---|---|
| Invariants.TickInv | bteng/core/node.py:158-200 | after a tick of any node of any kind the whole subtree satisfies the invariant again: cursors in range, fields in step with the children's statuses, RUNNING closed upward, IDLE closed downward |
| Invariants.HaltInv | bteng/core/node.py:395-443 | after a halt of any node the invariant holds and the node is IDLE |
| Invariants.IdleIsClosedDownward | bteng/nodes/control/parallel.py:199-250 | every descendant of an IDLE node is IDLE |
| Invariants.RunningIsClosedUpward | bteng/nodes/control/parallel.py:199-213 | below a node that is not RUNNING nothing is RUNNING, which is what lets a Parallel halt only its RUNNING children |
| Invariants.FreshInv | bteng/core/node.py:142-156 | a newly built tree satisfies the invariant and is its own fresh copy |
| Runs.RunInv | bteng/core/tree.py:110-114 | the invariant is kept over every run of ticks, halts and outside writes, from any state that satisfies it |
| Verdicts.MemoryActivation | bteng/nodes/control/sequence.py:21-42 | over a whole activation of a Sequence (or dually a Fallback): the advancing result exactly when every child gave it, the other at the first child that did and then everything below IDLE; until then the node stands at its first unfinished child and those behind it are untouched |
| Verdicts.MemoryTick | bteng/nodes/control/fallback.py:21-42 | one tick resumes at the cursor: a child is reached only when all before it advanced, and children before the cursor are left as they are unless the node comes to the other result and halts them all |
| Verdicts.ReactiveVerdict | bteng/nodes/control/reactive_sequence.py:70-143 | after every tick of a reactive node, fast path or not: all children stand at the advancing result, or the node stopped at the first that does not and everything behind it is wholly IDLE |
| Verdicts.FullEvalVerdict | bteng/nodes/control/reactive_fallback.py:78-96 | the same for a full evaluation, also one that takes earlier children at their stored result |
| Activations.RetryActivation | bteng/nodes/decorators/retry.py:59-91 | one activation with budget m >= 1: SUCCESS at the child's first success, FAILURE exactly at its m-th failure, RUNNING answers use no attempt, and after each failure the child's subtree is wholly IDLE |
| Activations.RetryWithoutBudget | bteng/nodes/decorators/retry.py:64-66 | with no budget the node fails without a single call below it |
| Activations.RetryBudgetDropped | bteng/nodes/decorators/retry.py:60-66 | a budget that drops to nothing under a RUNNING Retry leaves a sound tree exactly when the child was not RUNNING at that moment |
| Activations.TimeoutActivation | bteng/nodes/decorators/timeout.py:50-63 | one activation begun at t0: the child is ticked and answers for the node up to t0 + duration; the first later tick returns FAILURE, halts the child without ticking it and leaves its subtree wholly IDLE |
| Activations.PollsAreSpaced | bteng/nodes/decorators/rate_controller.py:56-66 | over any ticks and halts of which no halt finds the limiter RUNNING, so that it is not cleared: the child is ticked in exactly the ticks that poll and nothing below is called in the others; these ticks are at least a period apart, and the first is at least a period after the one the cache is from |
| Activations.RateBound | bteng/nodes/decorators/rate_controller.py:56-62 | so, between clears, any window of length T holds at most floor(T / period) + 1 of them |
| Activations.SweepAt | bteng/nodes/control/parallel.py:157-169 | a sweep of a Parallel ticks each unfinished child once, in order, and touches no finished one |
| Activations.ParallelVerdict | bteng/nodes/control/parallel.py:146-197 | over an activation each child is ticked until its first terminal result and not again; the status is the documented decision on how many of those first results are successes and failures, and once settled everything below is wholly IDLE |
| Activations.PolicyMeaning | bteng/nodes/control/parallel.py:108-192 | the clamped thresholds decide as the policies are documented, on any numbers of successes and failures: an unusable success threshold stands for all children, a failure threshold for at least one, success is tested first, and a finished vote is decided |
| Activations.ParallelWaitsForAChild | bteng/nodes/control/parallel.py:171-192 | no livelock: while the node stays RUNNING, one and the same child has been ticked and RUNNING at every tick |
| Activations.ParallelSettlesInTime | bteng/nodes/control/parallel.py:146-192 | if child i comes to a result within k_i ticks, the node settles within the largest k_i |
| LeafNodes.LeafAnswers | bteng/nodes/leaf/stateful_action.py:23-26 | a tick of a leaf, in any state and world, is one call of its user code: a condition or action is called plainly, a stateful leaf is resumed if RUNNING and started otherwise. What the code returned is the node's status, is what the trace records and what the Inspector is told; nothing else of the node changes, and exactly the subscribers of the boards it wrote to become dirty |
| LeafNodes.TickReports | bteng/core/node.py:175-198 | whatever the node, the last thing the Inspector is told of a tick is the status it leaves |
| LeafNodes.GuardIff | bteng/nodes/control/reactive_sequence.py:14-30 | a guard is exactly a node all of whose leaves are conditions, the leaves being those of the subtree from left to right; a composite without children is none |
| Schedules.MemoryAsksInTurn | bteng/nodes/control/sequence.py:21-38 | which children a tick of a Sequence or Fallback ticks: from the cursor on, each once and in order, up to the first that does not advance; it returns that child's answer and, if it is RUNNING, stands there |
| Schedules.ReactiveAsksInTurn | bteng/nodes/control/reactive_sequence.py:70-143 | likewise for the reactive nodes, fast path or not: from the first child on, each once and in order, up to the first that does not advance; left out are only children ahead of the running one with an action among their leaves, and only when the node is clean and subscribed |
| Schedules.GuardsAreAsked | bteng/nodes/control/reactive_fallback.py:98-142 | so in every tick of a reactive node a child whose leaves are all conditions is ticked, unless a child ahead of it stops the node with its answer |
| Schedules.WriteAsksAgain | bteng/nodes/control/reactive_sequence.py:79-97 | after a write the node heard, by whomever, its next tick asks every child again from the first on |
| Schedules.ParallelAsks | bteng/nodes/control/parallel.py:146-192 | one tick of a Parallel: each child without a result is ticked once, in order, and the status is the documented decision on all results, old and new |
| Schedules.RelayAsks | bteng/nodes/decorators/inverter.py:14-20 | the decorators that map a result tick their child once and return what its answer is mapped to |
| Schedules.RetryAsks | bteng/nodes/decorators/retry.py:59-87 | a Retry with budget ticks its child once and returns its answer, except that a failure which leaves some budget is RUNNING; without budget it ticks nothing and fails |
| Schedules.TimeoutAsks | bteng/nodes/decorators/timeout.py:50-60 | a Timeout ticks its child once and returns its answer while the activation, begun at the clock of its first tick, is not older than the duration; later it ticks nothing and fails |
| Schedules.RateAsks | bteng/nodes/decorators/rate_controller.py:56-62 | a RateController ticks its child once, returns its answer and keeps it with the time, unless the answer it keeps is less than a period old: then it returns that and calls nobody |
| Schedules.MappedResults | bteng/nodes/decorators/force_result.py:14-31 | Inverter, ForceSuccess, ForceFailure and SubTree: RUNNING exactly when the child is, and which of the other results they return |
| Schedules.ChildlessAnswers | bteng/nodes/control/parallel.py:146-149 | without children a Sequence, a Parallel and a ReactiveSequence succeed, a Fallback and a ReactiveFallback fail |
| Simulation.TickSim | bteng/core/node.py:158-200 | bisimulation over all node kinds: matching trees in agreeing worlds return matching results, make the same calls and match again, whatever their left-over fields |
| Simulation.HaltSim | bteng/core/node.py:395-443 | halting preserves that match, with the same calls in the same order |
| Runs.SameRuns | bteng/core/tree.py:110-114 | matching trees answer every run with the same statuses and the same leaf hook calls |
| Runs.RestingTreesAreFresh | bteng/nodes/control/parallel.py:215-250 | a tree whose root is not RUNNING and whose rate limiters hold nothing behaves on every later run like a newly built copy |
| LiveRuns.EditSim | bteng/core/tree.py:268-391 | the same modification of two matching trees hits the same node, calls the same halts and leaves matching trees |
| LiveRuns.SameLiveRuns | bteng/core/tree.py:173-187 | matching trees answer every run with the same statuses and calls, also when both are modified in the same way |
| LiveRuns.RestingLiveTreesAreFresh | bteng/nodes/control/parallel.py:215-250 | the same as RestingTreesAreFresh for later runs with modifications |
| LiveRuns.RestingAfterAnyRun | bteng/nodes/control/parallel.py:194-250 | from any sound state, after any run of ticks, halts, writes and modifications that leaves the root not RUNNING and no rate limiter with a result: every later such run gives the statuses and calls of a new copy |
| LiveRuns.NoRatesRest | bteng/nodes/decorators/rate_controller.py:40-66 | a tree without RateControllers meets the condition on rate limiters |
| LiveRuns.RestingRate | bteng/nodes/decorators/rate_controller.py:56-66 | for a resting RateController the cache decides: empty or outdated, and every later run that begins with a tick is that of a new copy; otherwise the tick replays the cached result without reaching the child, and agrees with a new copy's tick exactly when the copy's child answers that result without calling anything |
| Caches.ResetEmpties | bteng/nodes/control/parallel.py:231-250 | `_reset_subtree` of any tree in any state leaves every node IDLE, empties every rate limiter and sends every reactive node into a full evaluation |
| Caches.SettledKidsAreFresh | bteng/nodes/control/parallel.py:215-229 | when a Parallel settles, every child that has come to a result answers every later run like a new copy, rate limiters below it included |
| Caches.HaltCache | bteng/nodes/decorators/rate_controller.py:64-78 | what a halt makes of each rate limiter: it keeps its result if it is not RUNNING and no Parallel above it resets the child it is in, and is emptied otherwise |
| Caches.HaltedEmpty | bteng/core/node.py:438-443 | so a halted tree holds no cached result exactly when every limiter spared by the halt held none |
| Caches.HaltedIsFresh | bteng/core/node.py:395-443 | and then it answers every later run, modifications included, like a new copy, whether it was RUNNING or not |
| Runs.RestingRateReplays | bteng/core/node.py:438-443 | a concrete resting RateController that is not as good as new, since a halt that finds it not RUNNING leaves its cache alone |
| Runs.RebuildSim | bteng/nodes/decorators/inverter.py:14-20 | a tree matches its copy in which any choice of sequences and fallbacks, reactive or not, is replaced by the inverted dual over inverted children |
| Runs.DualityOverRuns | bteng/nodes/control/fallback.py:21-42 | De Morgan over every run: same status at each tick, same leaf calls and halts in the same order |
| Runs.EitherIsDefinable | bteng/nodes/control/reactive_fallback.py:98-142 | rebuilding every Fallback this way leaves no Fallback in the tree, reactive or not, and rebuilding every Sequence no Sequence |
| FastPath.FastTickIsFullEval | bteng/nodes/control/reactive_sequence.py:99-143 | the fast path is a full evaluation in which every skipped action answers its stored result: same status, same node and subtree, same calls |
| FastPath.FastTickRefinesFullEval | bteng/nodes/control/reactive_sequence.py:79-143 | when all leaves of the children ahead of the running index are conditions, the fast path is the full evaluation |
| FastPath.HaltIdle | bteng/nodes/control/reactive_sequence.py:190-192 | halting an IDLE subtree changes nothing and calls nothing, which is why the fast path may leave it out |
| Ledgers.FastPathRefines | bteng/nodes/control/reactive_fallback.py:98-142 | in a tree of distinct nodes the refinement includes all subscriptions, the node's own too, and the dirty flags of all other subscribed nodes |
| Tracking.TickTracked | bteng/introspection/inspector.py:118-129 | over any tick, the Inspector's running set, the hook accounts of stateful leaves and the subscriptions of reactive nodes go on agreeing with the statuses, and say nothing new about other nodes |
| Tracking.HaltTracked | bteng/core/node.py:206-223 | the same over any halt |
| Ledgers.RunTracked | bteng/nodes/control/reactive_sequence.py:151-188 | over every run a reactive node is subscribed to exactly the boards of its children's subtrees while RUNNING and to none otherwise |
| Ledgers.InspectorAgrees | bteng/introspection/inspector.py:193-196 | from a newly built tree, after any run, the running set restricted to the tree is exactly the set of uids of RUNNING nodes |
| LiveRuns.LeafAccounting | bteng/nodes/leaf/stateful_action.py:23-29 | over every run of ticks, halts, writes and modifications: for every stateful leaf in the tree on_start calls = terminal results + on_halted calls, plus one while it is RUNNING; for every node no longer in it, starts = results + halts |
| LiveRuns.FreshSound | bteng/core/node.py:142-156 | a newly built tree in a world that has heard of no node is a sound start for these runs |
| Footprints.TickBeside | bteng/core/node.py:158-200 | a tick of any tree in any state keeps its shape, tells the Inspector of its own nodes only, leaves every other node subscribed as it was, and marks it dirty exactly when a call made meanwhile wrote to one of its boards |
| Footprints.HaltBeside | bteng/core/node.py:395-443 | the same for a halt, which tells of nothing but stops |
| Wakeups.FlagBetweenTicks | bteng/nodes/control/reactive_sequence.py:155-174 | over any ticks, halts and resets of other nodes and writes from outside, in any order: a subscribed node becomes dirty exactly when one of its boards is written to, and stays so |
| Wakeups.WriteForcesFullEval | bteng/nodes/control/reactive_sequence.py:70-77 | so, from one tick that leaves a reactive node RUNNING to its next, whatever happens in between: it takes the fast path exactly when it listens to some board and none was written to, neither meanwhile nor during its own tick as far as it listened; a write forces a full evaluation |
| Wakeups.OwnTickHears | bteng/nodes/control/reactive_sequence.py:119-143 | how far into its own tick it listens: not in its first tick, and on the fast path until its running child is done |
| Wakeups.WriteBehindGoesUnheard | bteng/nodes/control/reactive_sequence.py:124-143 | a concrete tree in which a write by a child reached after that, in the same tick, does not force a full evaluation |
| Ledgers.HaltExactly | bteng/core/node.py:206-211 | a halt leaves every node IDLE and runs the halt hook once on each node that was RUNNING, parents first, left to right, and on no other |
| Ledgers.HaltForgets | bteng/core/node.py:395-443 | what a halt makes of each node's fields: a cursor is back at its start; a node that was RUNNING forgets its running child, attempts, start time or cached result; everything else stays |
| Ledgers.FreshAt | bteng/core/node.py:142-156 | a newly built copy has the same nodes in the same places, each IDLE with every field unset |
| Ledgers.BoardsBelow | bteng/nodes/control/reactive_sequence.py:176-188 | the boards collected for a reactive node are exactly those configured on some node below it |
| Inspectors.Inspector.OnNodeTick | bteng/introspection/inspector.py:101-154 | keeps running set, active path and ring buffer equal to the functions of all notifications heard |
| Inspectors.Inspector.OnNodeHalt | bteng/introspection/inspector.py:156-179 | the same for a halt, which annotates the node's latest record and appends none |
| Inspectors.LatestMark | bteng/introspection/inspector.py:174-179 | annotating the latest record commutes with forgetting old ones: the ring buffer is always the end of the full log |
| Inspectors.LogIs | bteng/introspection/inspector.py:131-154 | were nothing forgotten, the history would have one record for each tick heard, in order, with node and result, marked exactly if the node was halted since and not ticked again before that |
| Inspectors.HistoryIs | bteng/introspection/inspector.py:131-179 | the bounded history holds those of the latest ticks, as many as it may, each in its place |
| Inspectors.PathListsRunningSet | bteng/introspection/inspector.py:198-206 | the active path lists the running set without repeats, in the order in which the nodes became RUNNING |
| Inspectors.InspectorShowsTheTree | bteng/introspection/inspector.py:118-129 | after any run of ticks, halts, writes and modifications, both views show exactly the uids of RUNNING nodes |
| PathOrder.TickSettles | bteng/core/node.py:175-200 | in one tick nothing in a subtree is ticked any more once something has been told about its root: children report before parents, and each node is ticked at most once |
| PathOrder.TickOrder | bteng/introspection/inspector.py:118-129 | when a node becomes RUNNING in a tick, a RUNNING node above it is listed before it exactly when it was RUNNING already |
| PathOrder.BranchOrder | bteng/introspection/inspector.py:198-206 | over every run of ticks, halts, writes and modifications: of two RUNNING nodes on one branch the upper one comes first in the active path exactly when it was RUNNING before the step in which the lower one became RUNNING |
| Resets.ResetIsFresh | bteng/core/node.py:225-236 | after `reset_node()` of a tree, RUNNING or not, whose cursors are all at the start, every later run, modifications included, gives the statuses and calls of a new copy |
| Resets.ResetSkips | bteng/nodes/control/sequence.py:21-42 | the first tick of a Sequence or Fallback after a reset, in any world: nothing in the children before its old cursor is ticked and they stay IDLE, also when it returns the advancing result; its first child is ticked exactly when the cursor was at the start |
| Resets.ResetSequenceDiffers | bteng/core/node.py:225-236 | a concrete Sequence, reset while its second child runs, that returns SUCCESS where a new copy fails |
| Resets.RestingCursors | bteng/nodes/control/sequence.py:40-42 | a tree whose root is not RUNNING has all cursors at the start, so resetting it is safe |
| Resets.ResetUnsubscribes | bteng/nodes/control/reactive_sequence.py:145-154 | a reset unsubscribes every reactive node of the tree and sends it into a full evaluation, and subscribes nobody |
| Resets.ResetTells | bteng/nodes/leaf/stateful_action.py:28-29 | `reset_node()` tells the Inspector nothing and calls on_halted on every stateful leaf, RUNNING or not |
| Resets.ResetInspector | bteng/core/tree.py:216-219 | so the Inspector shows the truth after a reset exactly when nothing was RUNNING before it |
| Modify.EditSound | bteng/core/tree.py:268-356 | one modification keeps uids distinct, one child per decorator, cursors in range and the closure invariants; it cuts something out exactly when its target calls for it, wholly IDLE, and then kept and removed uids are exactly the old and new ones without overlap; else it adds the new ones exactly when it inserts into a control node of the tree |
| Modify.LiveSound | bteng/core/tree.py:173-187 | the same over every run of ticks, halts, writes and modifications with new disjoint nodes, with the running set equal to the RUNNING uids throughout |
| Modify.InsertRestarts | bteng/core/tree.py:297-308 | INSERT_CHILD on a control node leaves it and everything below IDLE, cursors at the start; the new child stands at the index, at the front if that is negative and at the end if it is too large, with the old children around it in their order |
| Modify.RemoveRestarts | bteng/core/tree.py:324-334 | REMOVE_CHILD does the same with the child at that index taken out and the others in their order |
| Modify.OtherEdits | bteng/core/tree.py:281-350 | the other cases: a replacement brings in the new node as it is and halts the old one; an insertion into a decorator halts its child and replaces it; insertion into a leaf, and removal from a node that is no control node or at a bad index, do nothing |
| Modify.EditsTargetOnly | bteng/core/tree.py:365-391 | a modification puts what it makes of its target in the target's place and changes nothing else of the tree; if the target is not there it changes nothing at all |
| LiveTrees.Apply | bteng/core/tree.py:365-391 | searching and editing the heap of nodes in place does what the edit of the tree value does, and changes nothing when the target is not there |
| LiveTrees.InsertHere | bteng/core/tree.py:297-322 | INSERT_CHILD in place: the children of a control node are then the old ones in their order with the new one at the index, or at the nearer end if that is out of range; a decorator's child is replaced; no effect on a leaf |
| LiveTrees.RemoveHere | bteng/core/tree.py:324-350 | REMOVE_CHILD in place: halts the removed child, then the parent; refused on decorators, leaves and bad indices |
| LiveTrees.LiveTree.QueueModification | bteng/core/tree.py:147-171 | which modifications are refused, with which error, and that each of the others is queued at the end with its target, index and node, HOT_SWAP_SUBTREE as a replacement |
| LiveTrees.LiveTree.ApplyPending | bteng/core/tree.py:173-187 | empties the queue and applies everything in it in order |
| LiveTrees.LiveTree.TickOnce | bteng/core/tree.py:110-114 | pending modifications first, then one tick of whatever is the root by then |
| TreeNodes.TreeNode.ExecuteTick | bteng/core/node.py:158-200 | the objects' `execute_tick` updates the heap exactly as the tick of the tree value does, and touches no other node; a leaf returns what its user code returned to the one call it got, and the Inspector is last told of the result |
| TreeNodes.TreeNode.DoHalt | bteng/core/node.py:395-443 | likewise `halt()` of every kind |
| TreeNodes.TreeNode.OnHalt | bteng/nodes/decorators/retry.py:89-90 | likewise the kinds' `_on_halt()` hooks |
| TreeNodes.TreeNode.DoReset | bteng/nodes/control/parallel.py:231-250 | likewise `_reset_subtree` |
| TreeNodes.TreeNode.TickSequential | bteng/nodes/control/sequence.py:21-38 | likewise the tick loop of Sequence and Fallback |
| TreeNodes.TreeNode.TickReactiveNode | bteng/nodes/control/reactive_sequence.py:70-77 | likewise the choice between full evaluation and fast path |
| TreeNodes.TreeNode.FullEvaluation | bteng/nodes/control/reactive_sequence.py:79-97 | likewise `_full_eval` |
| TreeNodes.TreeNode.FastEvaluation | bteng/nodes/control/reactive_sequence.py:99-143 | likewise `_fast_tick` |
| TreeNodes.TreeNode.CollectBoards | bteng/nodes/control/reactive_sequence.py:176-188 | the work-list walk collects exactly the boards configured below the node |
| TreeNodes.TreeNode.Guard | bteng/nodes/control/reactive_sequence.py:14-30 | true exactly when all leaves of the subtree are conditions |
| TreeNodes.TreeNode.TickParallelNode | bteng/nodes/control/parallel.py:146-192 | likewise the tick of a Parallel |
| TreeNodes.TreeNode.SweepKids | bteng/nodes/control/parallel.py:155-169 | the sweep's counters are the numbers of children that have succeeded and failed so far |
| TreeNodes.TreeNode.Finish | bteng/nodes/control/parallel.py:194-229 | likewise `_finish` |
| TreeNodes.TreeNode.TickDecoratorNode | bteng/nodes/decorators/force_result.py:14-31 | likewise the decorators, among them Inverter, ForceSuccess, ForceFailure and SubTree |
| TreeNodes.TreeNode.TickRetryNode | bteng/nodes/decorators/retry.py:59-87 | likewise Retry |
| TreeNodes.TreeNode.TickTimeoutNode | bteng/nodes/decorators/timeout.py:50-60 | likewise Timeout |
| TreeNodes.TreeNode.TickRateNode | bteng/nodes/decorators/rate_controller.py:56-62 | likewise RateController |
| Stepwise.FastRestRuns | bteng/nodes/control/reactive_sequence.py:131-143 | the loop over the remaining children, run on the updated child list, is the run over the original one |
| Stepwise.PopBoards | bteng/nodes/control/reactive_sequence.py:181-187 | one step of the walk neither loses nor invents a board, and the walk ends |
| Blackboards.GetIsFirstSet | bteng/blackboard/blackboard.py:272-286 | a read finds the first set cell on the key's path, and the path depends on the remappings alone |
| Blackboards.NearestScopeAnswers | bteng/blackboard/blackboard.py:272-286 | the same without recursion: carrying the key up the scopes and renaming it wherever it is remapped, a read returns what the nearest scope holds under the name carried there, among the scopes that do not redirect that name and hold a value |
| Blackboards.HeadIsTriedFirst | bteng/blackboard/blackboard.py:210-221 | and writes and removals land in the nearest scope that does not redirect the name carried there, under that name; the root scope redirects nothing |
| Blackboards.SetActsOnHead | bteng/blackboard/blackboard.py:210-239 | a write changes the head of the key's path and no other cell of any scope |
| Blackboards.RemoveActsOnHead | bteng/blackboard/blackboard.py:303-316 | so does a removal |
| Blackboards.SetThenGet | bteng/blackboard/blackboard.py:210-286 | set then get returns the value, through any chain of scopes and remappings |
| Blackboards.RemoveExposesTheRest | bteng/blackboard/blackboard.py:303-316 | after a removal a read finds what the rest of the path holds |
| Blackboards.WhoSeesAWrite | bteng/blackboard/blackboard.py:83-90 | exactly which reads a write can change: those with the written cell on their path and nothing set before it |
| Blackboards.UnmappedWriteStaysLocal | bteng/blackboard/blackboard.py:83-90 | a write to a key that is not remapped never changes a read in an ancestor |
| Blackboards.HistoryIsTheLastWrites | bteng/blackboard/blackboard.py:226-237 | however a cell began, after any writes it holds the last one, and its history the last 32 records that were overwritten, in order, with writer and time |
| Blackboards.Blackboard.DoSet | bteng/blackboard/blackboard.py:210-261 | writes the cell and calls exactly the callbacks registered on the scope the write lands in, in subscription order |
| Blackboards.Blackboard.WriteHere | bteng/blackboard/blackboard.py:222-244 | the dispatch list, rebuilt only when marked stale, is always the current subscription table |
| Blackboards.Blackboard.DoGet | bteng/blackboard/blackboard.py:272-286 | the object's read is the read of its chain of scopes |
| Blackboards.Blackboard.Has | bteng/blackboard/blackboard.py:292-301 | true exactly when a read would find a value |
| Blackboards.Blackboard.DoRemove | bteng/blackboard/blackboard.py:303-316 | the object's removal is the removal on its chain of scopes |
| Blackboards.Blackboard.Clear | bteng/blackboard/blackboard.py:323-332 | empties this scope and no other |
| Blackboards.Blackboard.DoSubscribe | bteng/blackboard/blackboard.py:400-434 | adds the callback under an id that was never in use |
| Blackboards.Blackboard.DoUnsubscribe | bteng/blackboard/blackboard.py:447-450 | takes out that subscription and keeps the others in order |
| Blackboards.Blackboard.LandingHoldsHead | bteng/blackboard/blackboard.py:217-221 | the scope whose callbacks hear of a write is the one that holds the head of the key's path |
| Blackboards.Blackboard.HeardHere | bteng/blackboard/blackboard.py:217-244 | callbacks on the very scope that is written through hear of the write exactly when its key is not redirected |
| Bridge.NextInv | bteng/concurrency/asyncio_bridge.py:144-357 | every atomic step of submitters, cancellers, the shutdown and the loop keeps the protocol's invariant |
| Bridge.PendingIsAcceptedMinusSettled | bteng/concurrency/asyncio_bridge.py:236-247 | over any interleaving the pending count is the number of accepted submissions less those settled |
| Bridge.NothingAcceptedAfterStop | bteng/concurrency/asyncio_bridge.py:181-199 | once a shutdown has begun nothing more is accepted, whatever happens |
| Bridge.DrainFindsEverythingStarted | bteng/concurrency/asyncio_bridge.py:331-348 | every accepted submission stands before the drain in the FIFO queue: when the drain begins to run, each coroutine has been started or was cancelled before it began |
| Bridge.NothingIsStranded | bteng/concurrency/asyncio_bridge.py:331-348 | for any interleaving: when the drain is over every accepted submission is resolved, is settled once its callback is attached, and with all callbacks attached nothing is pending |
| Bridge.DrainCancelsAll | bteng/concurrency/asyncio_bridge.py:339-345 | the drain's first turn leaves no waiting coroutine without a wake-up, whoever else would have woken it |
| Bridge.DrainEnds | bteng/concurrency/asyncio_bridge.py:339-345 | a drain that was asked for is over, whatever other threads do meanwhile, if the loop takes the turns it has to take and no coroutine outlives its cancellation by the drain; before that each may wait as long as it likes, and nobody else need wake one |
| Bridge.AddedIsSmall | bteng/concurrency/asyncio_bridge.py:215-259 | meanwhile each step of another thread adds at most two turns to those the loop has to take |
| Bridge.CancelEnds | bteng/concurrency/asyncio_bridge.py:215-234 | after `cancel_task` on a running loop, under the same conditions for this one coroutine, it neither runs nor will be started |
| Bridge.ShutdownCompletes | bteng/concurrency/asyncio_bridge.py:331-348 | so from every reachable state of a running loop in which nothing more is accepted, the drain when asked for is over after a number of turns known beforehand, with every accepted submission resolved |
| Bridge.TaskDoneIsExact | bteng/concurrency/asyncio_bridge.py:130-142 | with the check and the assignment at the head of `_runner` taken as one step: `task_done` is true exactly when the coroutine neither runs nor will be started, also before its future resolves |
| Bridge.FinishedForGood | bteng/concurrency/asyncio_bridge.py:172-177 | and then it stays so |
| Bridge.TaskDoneIsForGood | bteng/concurrency/asyncio_bridge.py:130-142 | on a running loop, under the same reading of `_runner`: `task_done` is true exactly when no turn of the loop will run the coroutine again, whatever anyone does; while it is false there are steps after which it runs |
| Bridge.DiscardSettles | bteng/concurrency/asyncio_bridge.py:249-259 | `discard` settles an attached submission, counts it down once, and does nothing else |
| Bridge.DeadLoopCountsDown | bteng/concurrency/asyncio_bridge.py:249-259 | on a loop that takes no more turns, once every submission with a callback has been discarded, in whatever order and whatever else happens, the pending count is the number of those without one |
| Bridge.AsyncioBridge.DoSubmit | bteng/concurrency/asyncio_bridge.py:181-199 | liveness check, count and scheduling are one step under the lock; refused exactly when stopped or not running |
| Bridge.AsyncioBridge.DoSettle | bteng/concurrency/asyncio_bridge.py:240-247 | counts a submission down once and only once |
| Bridge.AsyncioBridge.AddDoneCallback | bteng/concurrency/asyncio_bridge.py:205-212 | a callback attached to a resolved future settles at once |
| Bridge.AsyncioBridge.DoCancelTask | bteng/concurrency/asyncio_bridge.py:215-234 | marks the holder, and schedules the cancellation if the task is known and the loop is not closed, running or not; false exactly when the future is not marked as the bridge's or scheduling fails |
| Bridge.AsyncioBridge.DoDiscard | bteng/concurrency/asyncio_bridge.py:249-259 | settles without waiting for the future |
| Bridge.AsyncioBridge.StopAccepting | bteng/concurrency/asyncio_bridge.py:331-335 | the first half of the shutdown, effective once |
| Bridge.AsyncioBridge.ScheduleDrain | bteng/concurrency/asyncio_bridge.py:336-348 | the second half queues the drain, unless the loop is closed |
| Bridge.AsyncioBridge.IsTaskDone | bteng/concurrency/asyncio_bridge.py:130-142 | computes that answer from the holder's fields |
| Coro.NeverTwoCoroutines | bteng/nodes/leaf/coro_action.py:83-181 | over any run of ticks, halts and bridge events, also when coroutines outlive their halt: a node pinned to its bridge never has two unfinished coroutines, and while the bridge is alive it holds the handle of the one it has |
| Coro.StartsOnlyWhenFree | bteng/nodes/leaf/coro_action.py:83-90 | a tick starts a coroutine only when none of the node's own is unfinished |
| Coro.TickAnswers | bteng/nodes/leaf/coro_action.py:83-113 | a tick fails exactly when a coroutine left behind is still unwinding, the bridge is dead, the submission it is about to make is refused, or its coroutine has returned FAILURE; else it starts, waits, or returns what its coroutine returned |
| Coro.AnswersItsCoroutine | bteng/nodes/leaf/async_action.py:76-84 | over a run from a start on, whatever happens on the bridge as long as it is alive: every tick is RUNNING while the future is unresolved, and the first tick after it has been resolved returns exactly what the coroutine returned |
| Coro.HaltCancels | bteng/nodes/leaf/coro_action.py:152-170 | a halt marks and cancels the coroutine exactly when it is forced; one that is not leaves the bridge alone |
| Coro.HaltKeepsOrphan | bteng/nodes/leaf/coro_action.py:174-181 | when the halt has waited, the node is IDLE and keeps hold of the coroutine exactly when that may still run |
| Coro.ForcedHaltEnds | bteng/nodes/leaf/coro_action.py:155-170 | after a forced halt on a running loop, whatever other threads do: if the loop takes its turns and the coroutine does not outlive its cancellation, it runs no more |
| Coro.DeadBridgeDropsTheHandle | bteng/nodes/leaf/coro_action.py:92-101 | a bridge that dies under a running coroutine makes the node fail and let go of a coroutine that may still run |
| Coro.MovingIsSafeIff | bteng/nodes/leaf/coro_action.py:63-81 | a node that takes another, live bridge never has two unfinished coroutines on the two together, whatever happens on either, exactly when none of its coroutines may still run at that moment |
| Coro.RebindingStartsASecond | bteng/nodes/leaf/coro_action.py:92-104 | and a node whose bridge died under its coroutine comes to that point while the coroutine lives |
| Coro.CoroActionNode.DoTick | bteng/nodes/leaf/coro_action.py:83-113 | the object's tick is the tick of the state machine: FAILURE exactly when an orphan is unwinding, the bridge is dead or the coroutine returned FAILURE, else RUNNING until the future is resolved and then what the coroutine returned |
| Coro.CoroActionNode.Start | bteng/nodes/leaf/async_action.py:53-76 | a fresh start submits, attaches and reports RUNNING |
| Coro.CoroActionNode.BeginHalt | bteng/nodes/leaf/coro_action.py:129-170 | the halt up to where it has waited, cooperatively or after forcing cancellation |
| Coro.CoroActionNode.EndHalt | bteng/nodes/leaf/coro_action.py:173-181 | a coroutine still unwinding is kept as the orphan |
| Xml.ExpansionIsUnfolding | bteng/xml_parser/parser.py:349-435 | expansion with the building stack succeeds exactly when the references can be unfolded without any stack, and then yields that unfolding |
| Xml.SubTreeIsBuilt | bteng/xml_parser/parser.py:395-435 | a SubTree element, error by error: it needs an ID that is defined and not being expanded; the node redirects exactly the ports whose attribute is a reference, each to the key referred to, presets exactly those whose attribute is a literal, each to that text, is called like the element or else like the ID, and has below it the tree's only element that is no comment |
| Xml.LeafIsBuilt | bteng/xml_parser/parser.py:357-393 | a leaf element stands for the type its ID names if that is registered, else for the one its tag names; a generic one for the type it names; and every error of these |
| Xml.CompositeIsBuilt | bteng/xml_parser/parser.py:363-381 | a control element keeps its name or else its tag, its attributes, and its children without comments in order; a decorator element has exactly one child that is no comment |
| Xml.OnlyIsReal | bteng/xml_parser/parser.py:421-424 | there is an only child exactly when all children but one are comments |
| Xml.UnfoldingIsUnique | bteng/xml_parser/parser.py:395-435 | a document element has at most one unfolding |
| Xml.UnfoldingIsAcyclic | bteng/xml_parser/parser.py:403-405 | what can be unfolded reaches no reference cycle |
| Xml.CycleIsReal | bteng/xml_parser/parser.py:403-405 | the reported path is the stack followed by a chain of references back into it |
| Xml.OnlyCyclesAreLeft | bteng/xml_parser/parser.py:349-435 | in a document with nothing else wrong the only possible error is the cyclic one |
| Xml.CyclicIffCycle | bteng/xml_parser/parser.py:403-405 | there the cyclic error is raised exactly when a cycle is reachable from the start element, and its path is such a cycle |
| Xml.XMLTreeParser.BuildNode | bteng/xml_parser/parser.py:349-393 | terminates on every finite document by the measure (defined trees not on the stack, element), with the error cases in the order the code tests them, and leaves the building stack as it was, also after an error |
| Xml.XMLTreeParser.BuildSubTree | bteng/xml_parser/parser.py:395-435 | likewise for a subtree reference, with the node it builds described port by port |
| Xml.XMLTreeParser.LoadDocument | bteng/xml_parser/parser.py:242-259 | fails exactly when two trees share an ID; otherwise indexes exactly the trees that have one, in document order |
| Xml.IdsInOrder | bteng/xml_parser/parser.py:248-258 | the index lists the IDs of exactly those trees that have one, in the order of the document |
| Xml.XMLTreeParser.ParseRoot | bteng/xml_parser/parser.py:295-326 | which tree is built, and every error before that |
| Builder.RoundTrip | bteng/core/tree_builder.py:236-319 | replaying the pre-order call word of a tree rebuilds that very tree exactly when leaves have no children and decorators one child not named like the placeholder |
| Builder.WordAttaches | bteng/core/tree_builder.py:305-319 | in any state, replaying a word attaches what can be rebuilt of the tree, or raises |
| Builder.ProperTreeJoins | bteng/core/tree_builder.py:255-264 | in any state, replaying a proper tree makes it the root in the place of an earlier one, the last child of the innermost scope if that is a control node, or its only child if it is a decorator |
| Builder.EndRefuses | bteng/core/tree_builder.py:236-253 | `end()` fails without an open scope, and on a decorator that holds nothing but a node called `__placeholder__`; its scope is gone all the same |
| Builder.CallsAreTheWord | bteng/core/tree_builder.py:236-289 | conversely, calls that raise and overwrite nothing are the word of the tree they build |
| Builder.BuildSucceedsIff | bteng/core/tree_builder.py:270-289 | after calls that raised nothing, `build` succeeds exactly when something was called and every scope was closed; which error it raises otherwise, and that it names the open scopes from the outside in |
| Builder.SecondChildOverwrites | bteng/core/tree_builder.py:314-317 | a second child in a decorator's scope silently takes the place of the first |
| Builder.TreeBuilder.PushFrame | bteng/core/tree_builder.py:305-307 | opens a scope |
| Builder.TreeBuilder.AttachToTop | bteng/core/tree_builder.py:255-264 | appends to a control node, replaces a decorator's child, or becomes the root |
| Builder.TreeBuilder.EndScope | bteng/core/tree_builder.py:236-266 | its two errors, the second after the scope is already popped |
| Builder.TreeBuilder.DoBuild | bteng/core/tree_builder.py:270-289 | computes the outcome the specification gives |
| Builder.TreeBuilder.Replay | bteng/core/tree_builder.py:305-319 | a series of calls has the effect of the specification's run, up to the first error |

## Left out

- The executor, the engine facade and the command line: threads, sleeping, callbacks and wiring. A run is any sequence of ticks, halts, outside writes and modifications.
- Logger, publisher, renderer, tracer, explanations and per-node statistics: sinks and counters beside the engine.
- Factory and plugin loading: which node types exist, and which attributes they refuse, are parameters of the XML model.
- XML text and attribute syntax, port direction tables and numeric attribute conversion: the model starts from an element tree whose attributes are already references or literals, and a refused attribute is a parameter.
- Building all trees of a document into a registry, where one bad tree does not stop the others.
- Ports that are read anew at every tick (thresholds, budget, duration, rate): each is a fixed value of its node, except in `Activations.RetryBudgetDropped`.
- Exceptions that escape a user's `tick()`, and results that are not a status: a leaf answers RUNNING, SUCCESS or FAILURE.
- Feedback messages, tick durations, halt reasons and the tracer's transitions.
- `tip()` and look-up by name or type: they only read.
- Port mapping calls of the builder (`map`, `map_output`, `literal`), which decorate the latest node, and names it makes up.
- Weak references in subscriptions: a subscriber counts as alive. Callbacks on a board mark one node as dirty.
- In the engine, the boards a node listens to are sets of board identities and a subscription is one entry per node; that a board dispatches to exactly its current table is proved in Blackboards.dfy.
- Grace periods and join timeouts of a halt: a halt of a coroutine leaf is two steps with anything in between.
- `wait_all` and the time limit of `shutdown`: a shutdown that gives up waiting is the loop ending before the drain is done.
- Tasks that coroutines create on the loop themselves, without the bridge.
- An attached loop that its host stops and starts again: a loop that has ended does not run again, though until it is closed callbacks can still be queued on it.
- Bridge.TaskDoneIsExact: does not cover a `cancel_task` that falls between the check of `cancelled` and the assignment of `task` in `_runner` (bteng/concurrency/asyncio_bridge.py:173-176 against 228-231); `task_done` is then true while the coroutine goes on.
- Coro.NeverTwoCoroutines: rests on that same step.
- The thread pool, a smaller twin of the bridge's accounting, and the thread path of the async action.
- Ledgers.RunTracked: that a RUNNING reactive node is subscribed exactly to the boards below it is stated for runs without structural modification; a replaced child may bring a board nobody subscribed to.
- Modify.LiveSound: after REPLACE_NODE and HOT_SWAP_SUBTREE below a RUNNING node, "every child before the cursor advanced" is not part of what is kept, because the code does not halt the parent there.
- FastPath.FastTickIsFullEval: the node's own subscription and dirty flag are not compared, because the fast path lets go of the subscription one step earlier; that it ends up subscribed alike is `Ledgers.FastPathRefines`.
- Activations.TimeoutActivation: assumes nothing of the clock; with a monotone clock, "ticks up to t0 + duration" is a prefix of the activation.
