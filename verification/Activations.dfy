/** Whole activations of single nodes over arbitrary children: what Retry, Parallel, Timeout
    and RateController do across ticks.  Between two ticks the world may change in any way,
    so a run is any sequence of worlds, one per tick. */
module Activations {
  import opened Worlds
  import opened Engine
  import opened Invariants
  import opened Runs

  /** The node after one tick in each of the worlds. */
  function After(t: Node, ws: seq<World>): Node {
    if ws == [] then t else Tick(After(t, ws[..|ws| - 1]), ws[|ws| - 1]).node
  }

  /** A resting node is ticked, and goes on being RUNNING until at least the last tick. */
  ghost predicate Activation(t: Node, ws: seq<World>) {
    && Inv(t, true) && t.status != Running && ws != []
    && forall k | 0 < k < |ws| :: After(t, ws[..k]).status == Running
  }

  lemma {:induction false} AfterInv(t: Node, ws: seq<World>)
    requires Inv(t, true)
    ensures var s := After(t, ws); Inv(s, true) && s.info == t.info && |s.kids| == |t.kids|
  {
    if ws != [] {
      var before := ws[..|ws| - 1];
      AfterInv(t, before);
      TickInv(After(t, before), ws[|ws| - 1], true);
    }
  }

  /** All but the last tick of an activation. */
  lemma ActivationPrefix(t: Node, ws: seq<World>)
    requires Activation(t, ws) && |ws| > 1
    ensures var before := ws[..|ws| - 1]; Activation(t, before) && After(t, before).status == Running
  {
    var before := ws[..|ws| - 1];
    forall k | 0 < k < |before| ensures After(t, before[..k]).status == Running {
      assert before[..k] == ws[..k];
    }
  }

  // ----- Retry -------------------------------------------------------------------

  /** What the child answered at each tick. */
  function Answers(t: Node, ws: seq<World>): (answers: seq<Status>)
    requires Inv(t, true) && |t.kids| == 1
    ensures |answers| == |ws|
  {
    if ws == [] then []
    else
      AfterInv(t, ws[..|ws| - 1]);
      Answers(t, ws[..|ws| - 1]) + [Tick(After(t, ws[..|ws| - 1]).kids[0], ws[|ws| - 1]).node.status]
  }

  function Failures(answers: seq<Status>): nat {
    if answers == [] then 0
    else Failures(answers[..|answers| - 1]) + if answers[|answers| - 1] == Failure then 1 else 0
  }

  lemma RetryStep(t: Node, w: World, m: int)
    requires t.info.kind == Retry(m) && t.kids != []
    ensures var b := TickRetry(t, m, w);
      Tick(t, w) == Step(b.node.(status := b.result), Tell(b.w, Ticked(t.info.uid, b.result)))
  {
    assert TickBody(t, w) == TickDecorator(t, w) == TickRetry(t, m, w);
  }

  /** One activation with budget `m >= 1`: SUCCESS at the child's first success, FAILURE exactly
      at its `m`-th failure, RUNNING answers use up no attempt, and after each failure the
      child's subtree is wholly IDLE, so every attempt is a fresh activation of the child. */
  lemma {:induction false} RetryActivation(t: Node, ws: seq<World>, m: int)
    requires Activation(t, ws) && t.info.kind == Retry(m) && m >= 1
    ensures var s := After(t, ws); var answers := Answers(t, ws); var last := answers[|ws| - 1];
      && |s.kids| == 1 && Success !in answers[..|ws| - 1] && Failures(answers) <= m
      && (s.status == Success <==> last == Success)
      && (s.status == Failure <==> Failures(answers) == m)
      && (s.status == Running ==> s.mem.attempts == Failures(answers))
      && (last == Failure ==> AllIdle(s.kids[0]))
    decreases |ws|
  {
    var n := |ws|;
    var before, w := ws[..n - 1], ws[n - 1];
    var p := After(t, before);
    AfterInv(t, before);
    var answers := Answers(t, ws);
    assert answers[..|answers| - 1] == Answers(t, before);
    if n > 1 {
      ActivationPrefix(t, ws);
      RetryActivation(t, before, m);
    }
    RetryStep(p, w, m);
    AttemptEndsIdle(p.kids[0], w);
    hide Tick, Inv, Halt, AllIdle;
  }

  lemma AttemptEndsIdle(k: Node, w: World)
    requires Inv(k, true)
    ensures var s := Tick(k, w); AllIdle(Halt(s.node, s.w).node)
  {
    var s := Tick(k, w);
    TickInv(k, w, true);
    hide Tick, Inv, Halt;
    HaltInv(s.node, s.w, true);
    IdleIsClosedDownward(Halt(s.node, s.w).node, true);
  }

  /** Without a budget the child is not ticked at all. */
  lemma RetryWithoutBudget(t: Node, w: World, m: int)
    requires t.info.kind == Retry(m) && m <= 0 && t.kids != []
    ensures var s := Tick(t, w); s.node.status == Failure && s.node.kids == t.kids && s.w.trace == w.trace
  {
    RetryStep(t, w, m);
  }

  /** The budget is read anew at each tick.  When it has dropped to nothing under a RUNNING Retry,
      the node fails without halting its child: the tree is sound afterwards exactly when the
      child was not RUNNING at that moment. */
  lemma RetryBudgetDropped(t: Node, w: World, before: int, m: int)
    requires Inv(t, false) && t.info.kind == Retry(before) && t.status == Running && m <= 0
    ensures var s := Tick(t.(info := t.info.(kind := Retry(m))), w);
      && s.node.status == Failure && s.node.kids == t.kids && s.w.trace == w.trace
      && (Inv(s.node, false) <==> t.kids[0].status != Running)
  {
    RetryStep(t.(info := t.info.(kind := Retry(m))), w, m);
    assert InvAll(t.kids, false);
  }

  // ----- Timeout --------------------------------------------------------------------

  lemma TimeoutStep(t: Node, w: World, d: real)
    requires t.info.kind == Timeout(d) && t.kids != []
    ensures var b := TickTimeout(t, d, w);
      Tick(t, w) == Step(b.node.(status := b.result), Tell(b.w, Ticked(t.info.uid, b.result)))
  {
    assert TickBody(t, w) == TickDecorator(t, w) == TickTimeout(t, d, w);
  }

  /** One activation begun at `t0`: the child is ticked, and answers for the node, at ticks up to
      `t0 + d`; the first later tick returns FAILURE, halts the child without ticking it, and leaves
      its subtree wholly IDLE. */
  lemma {:induction false} TimeoutActivation(t: Node, ws: seq<World>, d: real)
    requires Activation(t, ws) && t.info.kind == Timeout(d)
    ensures var s := After(t, ws); var p := After(t, ws[..|ws| - 1]); var w := ws[|ws| - 1];
      && s.mem.started == Some(Now(ws[0])) && |p.kids| == 1 == |s.kids|
      && if Now(w) <= Now(ws[0]) + d
         then s.kids[0] == Tick(p.kids[0], ReadClock(w, t.info.uid)).node && s.status == s.kids[0].status
         else
           var h := Halt(p.kids[0], ReadClock(w, t.info.uid));
           s.status == Failure && AllIdle(s.kids[0]) && s.kids[0] == h.node && Tick(p, w).w.trace == h.w.trace
    decreases |ws|
  {
    var n := |ws|;
    var before, w := ws[..n - 1], ws[n - 1];
    var p := After(t, before);
    AfterInv(t, before);
    if n > 1 {
      ActivationPrefix(t, ws);
      TimeoutActivation(t, before, d);
    }
    TimeoutStep(p, w, d);
    var w1 := ReadClock(w, t.info.uid);
    HaltInv(p.kids[0], w1, true);
    IdleIsClosedDownward(Halt(p.kids[0], w1).node, true);
  }

  // ----- RateController -----------------------------------------------------------------

  /** A tick or a halt, and the world it finds. */
  datatype Turn = TickIn(w: World) | HaltIn(w: World)

  function AfterTurns(t: Node, turns: seq<Turn>): Node {
    if turns == [] then t
    else
      var p := AfterTurns(t, turns[..|turns| - 1]);
      match turns[|turns| - 1]
      case TickIn(w) => Tick(p, w).node
      case HaltIn(w) => Halt(p, w).node
  }

  /** No halt finds the limiter RUNNING, which is what would clear it. */
  ghost predicate NotCleared(t: Node, turns: seq<Turn>) {
    forall k | 0 <= k < |turns| && turns[k].HaltIn? :: AfterTurns(t, turns[..k]).status != Running
  }

  /** The times at which the limiter asks its child. */
  function PollTimes(t: Node, turns: seq<Turn>, period: real): seq<real> {
    if turns == [] then []
    else
      var before, turn := turns[..|turns| - 1], turns[|turns| - 1];
      PollTimes(t, before, period)
      + if turn.TickIn? && Polls(AfterTurns(t, before), turn.w, period) then [Now(turn.w)] else []
  }

  lemma RateStep(t: Node, w: World, period: real)
    requires t.info.kind == Rate(period) && t.kids != []
    ensures var b := TickRate(t, period, w);
      Tick(t, w) == Step(b.node.(status := b.result), Tell(b.w, Ticked(t.info.uid, b.result)))
  {
    assert TickBody(t, w) == TickDecorator(t, w) == TickRate(t, period, w);
  }

  ghost predicate Spaced(times: seq<real>, period: real) {
    forall i | 0 <= i < |times| - 1 :: times[i + 1] - times[i] >= period
  }

  /** `times` lead on from the cache `was`, and `now` is the cache after the last of them. */
  ghost predicate Cachings(was: Option<Cached>, times: seq<real>, now: Option<Cached>, period: real) {
    && (was.Some? && times != [] ==> times[0] - was.value.at >= period)
    && if times != [] then now.Some? && now.value.at == times[|times| - 1] else now == was
  }

  /** In this tick the child is ticked, after a look at the clock; or the clock is looked at and
      nothing below the limiter is touched or called. */
  ghost predicate Asks(p: Node, w: World, asks: bool)
    requires |p.kids| == 1
  {
    var s := Tick(p, w);
    var w1 := ReadClock(w, p.info.uid);
    if asks then
      var k := Tick(p.kids[0], w1);
      s.node.kids == [k.node] && s.w.trace == k.w.trace && s.node.status == k.node.status
    else s.node.kids == p.kids && s.w.trace == w1.trace
  }

  /** At each tick the child is ticked exactly when the limiter polls. */
  ghost predicate AsksWhenItPolls(t: Node, turns: seq<Turn>, period: real) {
    forall k | 0 <= k < |turns| && turns[k].TickIn? :: AsksAt(AfterTurns(t, turns[..k]), turns[k].w, period)
  }

  ghost predicate AsksAt(p: Node, w: World, period: real) { |p.kids| == 1 && Asks(p, w, Polls(p, w, period)) }

  lemma OneMoreAsked(t: Node, turns: seq<Turn>, period: real)
    requires turns != [] && AsksWhenItPolls(t, turns[..|turns| - 1], period)
    requires var turn := turns[|turns| - 1];
      turn.TickIn? ==> AsksAt(AfterTurns(t, turns[..|turns| - 1]), turn.w, period)
    ensures AsksWhenItPolls(t, turns, period)
  {
    hide AsksAt, AfterTurns;
    var before := turns[..|turns| - 1];
    forall k | 0 <= k < |before| ensures before[..k] == turns[..k] && before[k] == turns[k] {}
  }

  /** As long as the limiter is not cleared, child ticks are a period apart, the first of them also
      from the one before, and the cache holds the time of the last one.  The poll times are those
      of the ticks in which the child is ticked. */
  lemma {:induction false} PollsAreSpaced(t: Node, turns: seq<Turn>, period: real)
    requires Inv(t, true) && t.info.kind == Rate(period) && NotCleared(t, turns)
    ensures Spaced(PollTimes(t, turns, period), period)
    ensures Cachings(t.mem.cache, PollTimes(t, turns, period), AfterTurns(t, turns).mem.cache, period)
    ensures var s := AfterTurns(t, turns); Inv(s, true) && s.info == t.info && |s.kids| == 1
    ensures AsksWhenItPolls(t, turns, period)
    decreases |turns|
  {
    if turns != [] {
      var n := |turns| - 1;
      var before := turns[..n];
      EarlierNotCleared(t, turns);
      hide Tick, Halt, Inv, Polls, NotCleared, Spaced, Cachings, AsksWhenItPolls, Asks;
      PollsAreSpaced(t, before, period);
      var p := AfterTurns(t, before);
      RateTurn(p, turns[n], period);
      OneMoreAsked(t, turns, period);
      PollTold(t, turns, period);
      if turns[n].TickIn? && Polls(p, turns[n].w, period) {
        OneMorePoll(t.mem.cache, PollTimes(t, before, period), p.mem.cache, Now(turns[n].w),
                    AfterTurns(t, turns).mem.cache, period);
      }
    }
  }

  lemma EarlierNotCleared(t: Node, turns: seq<Turn>)
    requires turns != [] && NotCleared(t, turns)
    ensures NotCleared(t, turns[..|turns| - 1])
    ensures turns[|turns| - 1].HaltIn? ==> AfterTurns(t, turns[..|turns| - 1]).status != Running
  {
    hide Tick, Halt;
    var before := turns[..|turns| - 1];
    forall k | 0 <= k < |before| ensures before[..k] == turns[..k] {}
  }

  lemma PollTold(t: Node, turns: seq<Turn>, period: real)
    requires turns != []
    ensures var before, turn := turns[..|turns| - 1], turns[|turns| - 1];
      PollTimes(t, turns, period) == PollTimes(t, before, period)
        + if turn.TickIn? && Polls(AfterTurns(t, before), turn.w, period) then [Now(turn.w)] else []
    ensures PollTimes(t, turns[..|turns| - 1], period) + [] == PollTimes(t, turns[..|turns| - 1], period)
  {}

  lemma OneMorePoll(was: Option<Cached>, times: seq<real>, then_: Option<Cached>, x: real, now: Option<Cached>,
        period: real)
    requires Spaced(times, period) && Cachings(was, times, then_, period)
    requires then_.Some? ==> x - then_.value.at >= period
    requires now.Some? && now.value.at == x
    ensures Spaced(times + [x], period) && Cachings(was, times + [x], now, period)
  {}

  /** One such tick or halt: the child is ticked when the limiter polls, and only then the cache
      changes. */
  lemma RateTurn(t: Node, turn: Turn, period: real)
    requires Inv(t, true) && t.info.kind == Rate(period) && (turn.HaltIn? ==> t.status != Running)
    ensures var s := match turn case TickIn(w) => Tick(t, w).node case HaltIn(w) => Halt(t, w).node;
      && Inv(s, true) && s.info == t.info && |s.kids| == |t.kids| == 1
      && if turn.TickIn? && Polls(t, turn.w, period) then
           && s.mem.cache.Some? && s.mem.cache.value.at == Now(turn.w)
           && (t.mem.cache.Some? ==> Now(turn.w) - t.mem.cache.value.at >= period)
         else s.mem.cache == t.mem.cache
    ensures turn.TickIn? ==> Asks(t, turn.w, Polls(t, turn.w, period))
  {
    match turn {
      case TickIn(w) =>
        RateStep(t, w, period);
        TickInv(t, w, true);
      case HaltIn(w) => HaltInv(t, w, true);
    }
  }

  lemma {:induction false} GapsAddUp(times: seq<real>, period: real, i: nat, j: nat)
    requires i <= j < |times| && Spaced(times, period)
    ensures times[j] - times[i] >= (j - i) as real * period
    decreases j - i
  {
    if i < j {
      GapsAddUp(times, period, i, j - 1);
      assert times[j] - times[j - 1] >= period;
      assert (j - i) as real * period == (j - 1 - i) as real * period + period;
    }
  }

  /** Any window of length `span` holds at most floor(span / period) + 1 child ticks. */
  lemma RateBound(t: Node, turns: seq<Turn>, period: real, span: real, i: nat, j: nat)
    requires Inv(t, true) && t.info.kind == Rate(period) && period > 0.0 && NotCleared(t, turns)
    requires i <= j < |PollTimes(t, turns, period)|
    requires PollTimes(t, turns, period)[j] - PollTimes(t, turns, period)[i] <= span
    ensures j - i + 1 <= (span / period).Floor + 1
  {
    hide Inv, NotCleared, PollTimes, AfterTurns, Spaced, Cachings;
    PollsAreSpaced(t, turns, period);
    GapsAddUp(PollTimes(t, turns, period), period, i, j);
    DivMono((j - i) as real, span, period);
  }

  lemma DivMono(n: real, span: real, period: real)
    requires period > 0.0 && n * period <= span
    ensures n <= span / period
  {
    assert span / period * period == span;
    MulCancel(n, span / period, period);
  }

  lemma MulCancel(a: real, b: real, c: real)
    requires a * c <= b * c && c > 0.0
    ensures a <= b
  {
    assert (b - a) * c >= 0.0;
  }

  // ----- Parallel --------------------------------------------------------------------------

  /** The world in which a sweep reaches child `j`. */
  function SweepWorld(kids: seq<Node>, i: nat, j: nat, w: World): World
    requires i <= j < |kids|
    decreases j - i
  {
    if i == j then w
    else SweepWorld(kids, i + 1, j, if Terminal(kids[i].status) then w else Tick(kids[i], w).w)
  }

  /** A sweep ticks each unfinished child once, and touches no finished one. */
  lemma {:induction false} SweepAt(kids: seq<Node>, i: nat, j: nat, w: World)
    requires i <= j < |kids|
    ensures Sweep(kids, i, w).kids[j] ==
      if Terminal(kids[j].status) then kids[j] else Tick(kids[j], SweepWorld(kids, i, j, w)).node
    decreases j - i
  {
    hide Tick;
    if i < j {
      SweepAt(kids, i + 1, j, if Terminal(kids[i].status) then w else Tick(kids[i], w).w);
    }
  }

  /** The first terminal result of child `j`, or RUNNING while it has none. */
  function FirstResult(t: Node, ws: seq<World>, j: nat): Status
    requires Inv(t, true) && j < |t.kids|
  {
    if ws == [] then Idle
    else
      var before, w := ws[..|ws| - 1], ws[|ws| - 1];
      var earlier := FirstResult(t, before, j);
      AfterInv(t, before);
      if Terminal(earlier) then earlier
      else Tick(After(t, before).kids[j], SweepWorld(After(t, before).kids, 0, j, w)).node.status
  }

  function Votes(t: Node, ws: seq<World>): seq<Status>
    requires Inv(t, true)
  {
    seq(|t.kids|, j requires 0 <= j < |t.kids| => FirstResult(t, ws, j))
  }

  /** How many of these are `s`. */
  function HowMany(votes: seq<Status>, s: Status): nat { multiset(votes)[s] }

  lemma HowManySnoc(votes: seq<Status>, s: Status)
    requires votes != []
    ensures var n := |votes| - 1; HowMany(votes, s) == HowMany(votes[..n], s) + if votes[n] == s then 1 else 0
  {
    assert votes[..|votes| - 1] + [votes[|votes| - 1]] == votes;
  }

  lemma {:induction false} CountPrefix(kids: seq<Node>, m: nat, n: nat, s: Status)
    requires n <= m <= |kids|
    ensures Count(kids[..m], n, s) == Count(kids, n, s)
  {
    if n > 0 { CountPrefix(kids, m, n - 1, s); }
  }

  lemma {:induction false} CountIs(kids: seq<Node>, votes: seq<Status>, s: Status)
    requires |kids| == |votes| && forall j | 0 <= j < |kids| :: kids[j].status == votes[j]
    ensures Count(kids, |kids|, s) == HowMany(votes, s)
    decreases |kids|
  {
    if votes != [] {
      var n := |kids| - 1;
      CountIs(kids[..n], votes[..n], s);
      CountPrefix(kids, n, n, s);
      HowManySnoc(votes, s);
    }
  }

  /** There are no more results than children. */
  lemma {:induction false} CountsFit(votes: seq<Status>)
    ensures HowMany(votes, Success) + HowMany(votes, Failure) <= |votes|
  {
    if votes != [] {
      CountsFit(votes[..|votes| - 1]);
      HowManySnoc(votes, Success);
      HowManySnoc(votes, Failure);
    }
  }

  lemma ParallelStep(t: Node, w: World)
    requires t.info.kind.Parallel?
    ensures var b := TickParallel(t, w);
      Tick(t, w) == Step(b.node.(status := b.result), Tell(b.w, Ticked(t.info.uid, b.result)))
  {
    assert TickBody(t, w) == TickParallel(t, w);
  }

  /** The documented decision on `s` successes and `f` failures among `n` children: a threshold that
      is not in 1..n, for successes, stands for all of them; success is tested first. */
  predicate Decides(k: Kind, n: nat, s: nat, f: nat, v: Result)
    requires k.Parallel?
  {
    var enough := s == n || (k.rawSuccess > 0 && s >= k.rawSuccess);
    match k.policy
    case AllSuccess => v == if s == n then Success else if f > 0 then Failure else Running
    case OneSuccess => v == if s > 0 then Success else if f == n then Failure else Running
    case AllComplete => v == if s + f < n then Running else if enough then Success else Failure
    case Thresholds =>
      v == if enough then Success
           else if (f > 0 && f >= k.rawFailure) || s + f == n then Failure else Running
  }

  /** The clamped thresholds decide as documented, and a finished vote is decided. */
  lemma PolicyMeaning(k: Kind, n: nat, s: nat, f: nat)
    requires k.Parallel? && n > 0 && s + f <= n
    ensures Decides(k, n, s, f, Verdict(k, n, s, f))
    ensures s + f == n ==> Verdict(k, n, s, f) != Running
  {}

  /** What the last sweep of an activation found are the children's first results. */
  lemma {:induction false} SweptVotes(t: Node, ws: seq<World>)
    requires Activation(t, ws) && t.info.kind.Parallel?
    ensures var swept := Sweep(After(t, ws[..|ws| - 1]).kids, 0, ws[|ws| - 1]).kids;
      |swept| == |t.kids| && forall j | 0 <= j < |t.kids| :: swept[j].status == Votes(t, ws)[j]
    ensures After(t, ws).status == Running ==>
      (var kids := After(t, ws).kids;
       |kids| == |t.kids| && forall j | 0 <= j < |t.kids| :: kids[j].status == Votes(t, ws)[j])
    decreases |ws|
  {
    var n := |ws|;
    var before, w := ws[..n - 1], ws[n - 1];
    var p := After(t, before);
    AfterInv(t, before);
    ParallelStep(p, w);
    if n > 1 {
      ActivationPrefix(t, ws);
      SweptVotes(t, before);
    }
    assert n == 1 ==> forall j | 0 <= j < |t.kids| :: p.kids[j].status == Idle;
    hide Tick, Inv;
    forall j | 0 <= j < |t.kids| ensures Sweep(p.kids, 0, w).kids[j].status == Votes(t, ws)[j] {
      SweepAt(p.kids, 0, j, w);
      assert n > 1 ==> Votes(t, before)[j] == FirstResult(t, before, j) == p.kids[j].status;
      assert Votes(t, ws)[j] == FirstResult(t, ws, j);
    }
  }

  /** Over an activation each child is ticked until its first terminal result and not again, and
      the node's status is the policy applied to those first results. */
  lemma ParallelVerdict(t: Node, ws: seq<World>)
    requires Activation(t, ws) && t.info.kind.Parallel? && t.kids != []
    ensures var votes := Votes(t, ws);
      After(t, ws).status != Idle
      && Decides(t.info.kind, |t.kids|, HowMany(votes, Success), HowMany(votes, Failure), After(t, ws).status)
    ensures After(t, ws).status != Running ==>
      |After(t, ws).kids| == |t.kids| && forall j | 0 <= j < |t.kids| :: AllIdle(After(t, ws).kids[j])
  {
    var before, w := ws[..|ws| - 1], ws[|ws| - 1];
    var p := After(t, before);
    AfterInv(t, before);
    AfterInv(t, ws);
    SweptVotes(t, ws);
    ParallelStep(p, w);
    var swept := Sweep(p.kids, 0, w).kids;
    CountIs(swept, Votes(t, ws), Success);
    CountIs(swept, Votes(t, ws), Failure);
    CountsFit(Votes(t, ws));
    PolicyMeaning(t.info.kind, |t.kids|, HowMany(Votes(t, ws), Success), HowMany(Votes(t, ws), Failure));
    var s := After(t, ws);
    if s.status != Running {
      forall j | 0 <= j < |t.kids| ensures AllIdle(s.kids[j]) { IdleIsClosedDownward(s.kids[j], true); }
    }
  }

  /** No livelock: while the node stays RUNNING, some child is ticked at every tick and answers
      RUNNING at every tick. */
  lemma {:induction false} ParallelWaitsForAChild(t: Node, ws: seq<World>) returns (j: nat)
    requires Activation(t, ws) && t.info.kind.Parallel? && After(t, ws).status == Running
    ensures j < |t.kids|
    ensures forall k | 0 < k <= |ws| ::
      |After(t, ws[..k]).kids| == |t.kids| && After(t, ws[..k]).kids[j].status == Running
  {
    AfterInv(t, ws);
    var s := After(t, ws);
    j :| 0 <= j < |s.kids| && s.kids[j].status == Running;
    assert ws[..|ws|] == ws;
    StillRunning(t, ws, j);
  }

  lemma {:induction false} StillRunning(t: Node, ws: seq<World>, j: nat)
    requires Activation(t, ws) && t.info.kind.Parallel? && After(t, ws).status == Running && j < |t.kids|
    requires |After(t, ws).kids| == |t.kids| && After(t, ws).kids[j].status == Running
    ensures forall k | 0 < k <= |ws| ::
      |After(t, ws[..k]).kids| == |t.kids| && After(t, ws[..k]).kids[j].status == Running
    decreases |ws|
  {
    assert ws[..|ws|] == ws;
    if |ws| > 1 {
      var before, w := ws[..|ws| - 1], ws[|ws| - 1];
      ActivationPrefix(t, ws);
      AfterInv(t, before);
      var p := After(t, before);
      ParallelStep(p, w);
      SweepAt(p.kids, 0, j, w);
      NotIdleWhileRunning(t, before, j);
      StillRunning(t, before, j);
      forall k | 0 < k < |ws|
        ensures |After(t, ws[..k]).kids| == |t.kids| && After(t, ws[..k]).kids[j].status == Running
      {
        assert before[..k] == ws[..k];
      }
    }
  }

  lemma NotIdleWhileRunning(t: Node, ws: seq<World>, j: nat)
    requires Activation(t, ws) && t.info.kind.Parallel? && After(t, ws).status == Running && j < |t.kids|
    ensures |After(t, ws).kids| == |t.kids| && After(t, ws).kids[j].status != Idle
  {
    var before, w := ws[..|ws| - 1], ws[|ws| - 1];
    AfterInv(t, before);
    ParallelStep(After(t, before), w);
    SweepInv(After(t, before).kids, 0, w, true);
  }

  function Largest(ks: seq<nat>): (k: nat)
    ensures forall i | 0 <= i < |ks| :: ks[i] <= k
    ensures ks != [] ==> k in ks
  {
    if ks == [] then 0 else Max(Largest(ks[..|ks| - 1]), ks[|ks| - 1])
  }

  /** If child `j` comes to a result within `ks[j]` ticks, the node settles within the largest of
      these numbers: RUNNING after an activation of that length is out of the question. */
  lemma ParallelSettlesInTime(t: Node, ws: seq<World>, ks: seq<nat>)
    requires Activation(t, ws) && t.info.kind.Parallel? && |ks| == |t.kids|
    requires forall j | 0 <= j < |ks| && ks[j] <= |ws| :: ks[j] > 0 && Terminal(Votes(t, ws[..ks[j]])[j])
    ensures After(t, ws).status == Running ==> |ws| < Largest(ks)
  {
    if After(t, ws).status == Running {
      var j := ParallelWaitsForAChild(t, ws);
      if ks[j] <= |ws| { VoteStands(t, ws, ks[j], j); }
    }
  }

  /** As long as the node is RUNNING its children's votes are their statuses. */
  lemma VoteStands(t: Node, ws: seq<World>, k: nat, j: nat)
    requires Activation(t, ws) && t.info.kind.Parallel? && After(t, ws).status == Running
    requires 0 < k <= |ws| && j < |t.kids|
    ensures |After(t, ws[..k]).kids| == |t.kids| && After(t, ws[..k]).kids[j].status == Votes(t, ws[..k])[j]
  {
    hide Tick, Inv, FirstResult;
    assert k == |ws| ==> ws[..k] == ws;
    forall i | 0 < i < k ensures After(t, ws[..k][..i]).status == Running {
      assert ws[..k][..i] == ws[..i];
    }
    SweptVotes(t, ws[..k]);
  }
}
