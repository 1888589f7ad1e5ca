/** The Inspector: an observer kept up to date by node ticks and halts alone. */
module Inspectors {
  import opened Worlds
  import opened Engine
  import opened Tracking
  import opened Ledgers
  import opened Modify

  // ----- what it should show after a series of notifications --------------------------

  function Without<T(==)>(s: seq<T>, x: T): seq<T> {
    if s == [] then [] else (if s[0] == x then [] else [s[0]]) + Without(s[1..], x)
  }

  /** The RUNNING nodes in the order in which they became RUNNING. */
  function ActivePath(notes: seq<Note>): seq<Uid> {
    if notes == [] then [] else PathAfter(ActivePath(notes[..|notes| - 1]), notes[|notes| - 1])
  }

  function PathAfter(path: seq<Uid>, note: Note): seq<Uid> {
    match note
    case Ticked(u, r) => if r != Running then Without(path, u) else if u in path then path else path + [u]
    case Stopped(u) => Without(path, u)
  }

  /** One tick of one node; `halted`: the node was halted since, before its next tick. */
  datatype Record = Record(uid: Uid, result: Result, halted: bool)

  /** Marks the node's latest record. */
  function Mark(log: seq<Record>, u: Uid): (r: seq<Record>)
    ensures |r| == |log|
  {
    if log == [] then []
    else
      var n := |log| - 1;
      if log[n].uid == u then log[n := log[n].(halted := true)] else Mark(log[..n], u) + [log[n]]
  }

  /** The history were it never to forget anything. */
  function Log(notes: seq<Note>): seq<Record> {
    if notes == [] then [] else LogAfter(Log(notes[..|notes| - 1]), notes[|notes| - 1])
  }

  function LogAfter(log: seq<Record>, note: Note): seq<Record> {
    match note
    case Ticked(u, r) => log + [Record(u, r, false)]
    case Stopped(u) => Mark(log, u)
  }

  function Latest<T>(s: seq<T>, n: nat): seq<T> { if |s| <= n then s else s[|s| - n..] }

  // ----- the object ---------------------------------------------------------------------

  class Inspector {
    const maxHistory: nat
    var runningNodes: set<Uid>
    var activePath: seq<Uid>
    var history: seq<Record>

    /** It shows what it should after hearing `notes`. */
    ghost predicate Shows(notes: seq<Note>)
      reads this
    {
      && runningNodes == RunningSet(notes)
      && activePath == ActivePath(notes)
      && history == Latest(Log(notes), maxHistory)
    }

    constructor (maxHistory: nat)
      ensures Shows([]) && this.maxHistory == maxHistory
    {
      this.maxHistory := maxHistory;
      runningNodes, activePath, history := {}, [], [];
    }

    method OnNodeTick(u: Uid, r: Result, ghost notes: seq<Note>)
      requires Shows(notes)
      modifies this
      ensures Shows(notes + [Ticked(u, r)])
    {
      hide RunningSet, ActivePath, Log, Latest, Without;
      OneMore(notes, Ticked(u, r));
      if r == Running {
        runningNodes := runningNodes + {u};
        if u !in activePath { activePath := activePath + [u]; }
      } else {
        runningNodes := runningNodes - {u};
        Pop(u);
      }
      LatestAppend(Log(notes), Record(u, r, false), maxHistory);
      history := history + [Record(u, r, false)];
      if |history| > maxHistory { history := history[1..]; }
    }

    method OnNodeHalt(u: Uid, ghost notes: seq<Note>)
      requires Shows(notes)
      modifies this
      ensures Shows(notes + [Stopped(u)])
    {
      hide RunningSet, ActivePath, Log, Latest, Without;
      OneMore(notes, Stopped(u));
      runningNodes := runningNodes - {u};
      Pop(u);
      LatestMark(Log(notes), u, maxHistory);
      ghost var was := history;
      assert was[..|was|] == was;
      var i := |history|;
      while i > 0
        invariant 0 <= i <= |history| && history == was
        invariant Mark(was, u) == Mark(was[..i], u) + was[i..]
      {
        i := i - 1;
        assert was[..i + 1][..i] == was[..i];
        if history[i].uid == u {
          history := history[i := history[i].(halted := true)];
          return;
        }
      }
    }

    /** A dictionary key is taken out; the order of the others stays. */
    method Pop(u: Uid)
      modifies this`activePath
      ensures activePath == Without(old(activePath), u)
    {
      var rest: seq<Uid> := [];
      var i := |activePath|;
      while i > 0
        invariant 0 <= i <= |activePath| && activePath == old(activePath)
        invariant rest == Without(activePath[i..], u)
      {
        i := i - 1;
        assert activePath[i..][1..] == activePath[i + 1..];
        rest := (if activePath[i] == u then [] else [activePath[i]]) + rest;
      }
      activePath := rest;
    }
  }

  lemma OneMore(notes: seq<Note>, note: Note)
    ensures RunningSet(notes + [note]) == AfterNote(RunningSet(notes), note)
    ensures ActivePath(notes + [note]) == PathAfter(ActivePath(notes), note)
    ensures Log(notes + [note]) == LogAfter(Log(notes), note)
  {
    assert (notes + [note])[..|notes|] == notes;
  }

  // ----- the bounded history is the end of the unbounded one -----------------------------

  lemma LatestAppend(log: seq<Record>, x: Record, n: nat)
    ensures var h := Latest(log, n) + [x]; Latest(log + [x], n) == if |h| > n then h[1..] else h
  {}

  /** A halt marks the same record in the ring buffer as in the full log, or one long evicted. */
  lemma LatestMark(log: seq<Record>, u: Uid, n: nat)
    ensures Latest(Mark(log, u), n) == Mark(Latest(log, n), u)
  {
    if |log| > n { MarkSuffix(log, |log| - n, u); }
  }

  lemma {:induction false} MarkSuffix(log: seq<Record>, k: nat, u: Uid)
    requires k <= |log|
    ensures Mark(log, u)[k..] == Mark(log[k..], u)
    decreases |log|
  {
    if k < |log| {
      var n := |log| - 1;
      assert log[k..][..n - k] == log[..n][k..];
      if log[n].uid != u { MarkSuffix(log[..n], k, u); }
    }
  }

  // ----- what the history says ---------------------------------------------------------------

  /** How many of the first `i` notifications are ticks. */
  function TicksBefore(notes: seq<Note>, i: nat): nat
    requires i <= |notes|
  {
    if i == 0 then 0 else TicksBefore(notes, i - 1) + if notes[i - 1].Ticked? then 1 else 0
  }

  /** A halt of the node is told after notification `i`, and no tick of it in between. */
  ghost predicate HaltedSince(notes: seq<Note>, i: nat)
    requires i < |notes|
  {
    exists j | i < j < |notes| :: notes[j] == Stopped(notes[i].uid) && NoTickBetween(notes, i, j)
  }

  ghost predicate NoTickBetween(notes: seq<Note>, i: nat, j: nat)
    requires i < j <= |notes|
  {
    forall k | i < k < j && notes[k].uid == notes[i].uid :: notes[k].Stopped?
  }

  lemma {:induction false} SameTicksBefore(a: seq<Note>, b: seq<Note>, i: nat)
    requires i <= |a| <= |b| && a == b[..|a|]
    ensures TicksBefore(a, i) == TicksBefore(b, i)
  {
    if i > 0 { SameTicksBefore(a, b, i - 1); }
  }

  lemma {:induction false} MoreTicks(notes: seq<Note>, i: nat, j: nat)
    requires i <= j <= |notes|
    ensures TicksBefore(notes, i) <= TicksBefore(notes, j)
    ensures i < j && notes[i].Ticked? ==> TicksBefore(notes, i) < TicksBefore(notes, j)
    decreases j - i
  {
    if i < j { MoreTicks(notes, i, j - 1); }
  }

  lemma {:induction false} MarkAt(log: seq<Record>, u: Uid, k: nat)
    requires k < |log|
    ensures Mark(log, u)[k] ==
      if log[k].uid == u && forall m | k < m < |log| :: log[m].uid != u then log[k].(halted := true) else log[k]
  {
    var n := |log| - 1;
    if k < n && log[n].uid != u { MarkAt(log[..n], u, k); }
  }

  /** Each record is that of some tick. */
  lemma {:induction false} TickOf(notes: seq<Note>, m: nat) returns (i: nat)
    requires m < TicksBefore(notes, |notes|)
    ensures i < |notes| && notes[i].Ticked? && TicksBefore(notes, i) == m
    decreases |notes|
  {
    var n := |notes| - 1;
    SameTicksBefore(notes[..n], notes, n);
    if m < TicksBefore(notes, n) {
      i := TickOf(notes[..n], m);
      SameTicksBefore(notes[..n], notes, i);
    } else {
      i := n;
    }
  }

  /** The full log has one record for each tick, in order: node and result, marked if the node was
      halted since and not ticked again before. */
  lemma {:induction false} LogIs(notes: seq<Note>, i: nat)
    requires i < |notes| && notes[i].Ticked?
    ensures |Log(notes)| == TicksBefore(notes, |notes|) && TicksBefore(notes, i) < |Log(notes)|
    ensures Log(notes)[TicksBefore(notes, i)] == Record(notes[i].uid, notes[i].result, HaltedSince(notes, i))
    decreases |notes|, 0
  {
    var n := |notes| - 1;
    LogSize(notes);
    MoreTicks(notes, i, |notes|);
    SameTicksBefore(notes[..n], notes, i);
    SameTicksBefore(notes[..n], notes, n);
    if i == n {
      LogSize(notes[..n]);
    } else {
      LogIs(notes[..n], i);
      assert notes[..n][i] == notes[i];
      var k := TicksBefore(notes, i);
      if notes[n].Stopped? {
        MarkAt(Log(notes[..n]), notes[n].uid, k);
        LaterRecords(notes[..n], i, notes[n].uid);
        assert TicksBefore(notes[..n], i + 1) == k + 1;
      }
      HaltedOneMore(notes, i);
    }
  }

  lemma {:induction false} LogSize(notes: seq<Note>)
    ensures |Log(notes)| == TicksBefore(notes, |notes|)
  {
    if notes != [] {
      LogSize(notes[..|notes| - 1]);
      SameTicksBefore(notes[..|notes| - 1], notes, |notes| - 1);
    }
  }

  /** There is a later record of `u` exactly when there is a later tick of it. */
  lemma {:induction false} LaterRecords(notes: seq<Note>, i: nat, u: Uid)
    requires i < |notes|
    ensures var k := TicksBefore(notes, i + 1);
      (forall m | k <= m < |Log(notes)| :: Log(notes)[m].uid != u)
      <==> forall j | i < j < |notes| && notes[j].uid == u :: notes[j].Stopped?
    decreases |notes|, 1
  {
    hide Log, HaltedSince;
    var k := TicksBefore(notes, i + 1);
    LogSize(notes);
    forall j | i < j < |notes| && notes[j].Ticked?
      ensures k <= TicksBefore(notes, j) < |Log(notes)| && Log(notes)[TicksBefore(notes, j)].uid == notes[j].uid
    {
      MoreTicks(notes, i + 1, j);
      LogIs(notes, j);
    }
    forall m | k <= m < |Log(notes)|
      ensures exists j :: i < j < |notes| && notes[j].Ticked? && notes[j].uid == Log(notes)[m].uid
    {
      var j := TickOf(notes, m);
      LogIs(notes, j);
      if j <= i { MoreTicks(notes, j, i + 1); }
    }
  }

  lemma HaltedOneMore(notes: seq<Note>, i: nat)
    requires i < |notes| - 1
    ensures var n := |notes| - 1;
      HaltedSince(notes, i) <==>
        HaltedSince(notes[..n], i) || (notes[n] == Stopped(notes[i].uid) && NoTickBetween(notes, i, n))
  {
    var n := |notes| - 1;
    forall j | i < j < n ensures NoTickBetween(notes[..n], i, j) <==> NoTickBetween(notes, i, j) {}
    hide NoTickBetween;
  }

  /** The bounded history holds the records of the latest ticks, as many as it may, each in its place,
      counted from its end. */
  lemma HistoryIs(notes: seq<Note>, n: nat, i: nat)
    requires i < |notes| && notes[i].Ticked?
    ensures var all := TicksBefore(notes, |notes|); var h := Latest(Log(notes), n);
      && |h| == (if all < n then all else n)
      && var back := all - TicksBefore(notes, i);
         back <= n ==> 0 < back <= |h| && h[|h| - back] == Record(notes[i].uid, notes[i].result, HaltedSince(notes, i))
  {
    LogIs(notes, i);
    MoreTicks(notes, i, |notes|);
  }

  // ----- what the path says ----------------------------------------------------------------

  lemma {:induction false} WithoutFacts<T>(s: seq<T>, x: T)
    ensures forall y :: y in Without(s, x) <==> y in s && y != x
    ensures |Without(s, x)| <= |s|
  {
    if s != [] { WithoutFacts(s[1..], x); }
  }

  /** When the node became RUNNING, as it has been ever since. */
  ghost function Since(notes: seq<Note>, u: Uid): nat
    requires u in RunningSet(notes)
    ensures Since(notes, u) < |notes|
  {
    var n := |notes| - 1;
    if u in RunningSet(notes[..n]) then Since(notes[..n], u) else n
  }

  ghost predicate InOrder(path: seq<Uid>, notes: seq<Note>)
    requires forall x | x in path :: x in RunningSet(notes)
  {
    forall i, j | 0 <= i < j < |path| :: Since(notes, path[i]) < Since(notes, path[j])
  }

  lemma {:induction false} WithoutInOrder(path: seq<Uid>, u: Uid, notes: seq<Note>)
    requires forall x | x in path :: x in RunningSet(notes)
    requires InOrder(path, notes)
    ensures forall x | x in Without(path, u) :: x in RunningSet(notes)
    ensures InOrder(Without(path, u), notes)
  {
    WithoutFacts(path, u);
    if path != [] {
      WithoutFacts(path[1..], u);
      assert InOrder(path[1..], notes);
      WithoutInOrder(path[1..], u, notes);
      var rest := Without(path[1..], u);
      forall j | 0 <= j < |rest| ensures Since(notes, path[0]) < Since(notes, rest[j]) {
        assert rest[j] in path[1..];
        var k :| 0 <= k < |path[1..]| && path[1..][k] == rest[j];
        assert path[k + 1] == rest[j];
      }
    }
  }

  /** The active path lists the running set, by the time the nodes became RUNNING; so it has
      no repeats. */
  lemma {:induction false} PathListsRunningSet(notes: seq<Note>)
    ensures forall x :: x in ActivePath(notes) <==> x in RunningSet(notes)
    ensures InOrder(ActivePath(notes), notes)
    ensures forall i, j | 0 <= i < j < |ActivePath(notes)| :: ActivePath(notes)[i] != ActivePath(notes)[j]
  {
    if notes != [] {
      var n := |notes| - 1;
      PathListsRunningSet(notes[..n]);
      PathOneMore(notes[..n], notes[n]);
      assert notes[..n] + [notes[n]] == notes;
    }
  }

  lemma PathOneMore(before: seq<Note>, note: Note)
    requires forall x :: x in ActivePath(before) <==> x in RunningSet(before)
    requires InOrder(ActivePath(before), before)
    ensures var notes := before + [note];
      && (forall x :: x in ActivePath(notes) <==> x in RunningSet(notes))
      && InOrder(ActivePath(notes), notes)
  {
    hide RunningSet, ActivePath, Without, InOrder;
    var path, u := ActivePath(before), note.uid;
    OneMore(before, note);
    WithoutFacts(path, u);
    WithoutInOrder(path, u, before);
    if note.Ticked? && note.result == Running {
      if u in path {
        SameOrder(path, before, note);
      } else {
        SameOrder(path, before, note);
        LastInOrder(path, before, note);
      }
    } else {
      SameOrder(Without(path, u), before, note);
    }
  }

  /** Those that stay RUNNING keep the time since when they have been. */
  lemma SinceStays(before: seq<Note>, note: Note, x: Uid)
    requires x in RunningSet(before) && x in RunningSet(before + [note])
    ensures Since(before + [note], x) == Since(before, x)
  {
    assert (before + [note])[..|before|] == before;
  }

  lemma SameOrder(path: seq<Uid>, before: seq<Note>, note: Note)
    requires forall x | x in path :: x in RunningSet(before) && x in RunningSet(before + [note])
    requires InOrder(path, before)
    ensures InOrder(path, before + [note])
  {
    hide RunningSet, Since;
    forall x | x in path ensures Since(before + [note], x) == Since(before, x) { SinceStays(before, note, x); }
  }

  lemma LastInOrder(path: seq<Uid>, before: seq<Note>, note: Note)
    requires note.Ticked? && note.uid !in RunningSet(before) && note.uid in RunningSet(before + [note])
    requires forall x | x in path :: x in RunningSet(before) && x in RunningSet(before + [note])
    requires InOrder(path, before + [note])
    ensures forall x | x in path + [note.uid] :: x in RunningSet(before + [note])
    ensures InOrder(path + [note.uid], before + [note])
  {
    assert (before + [note])[..|before|] == before;
    assert Since(before + [note], note.uid) == |before|;
    hide RunningSet, Since;
    forall x | x in path ensures Since(before + [note], x) < |before| { SinceStays(before, note, x); }
  }

  /** After any run of ticks, halts, writes and modifications, an Inspector that heard every
      notification shows exactly the uids of RUNNING nodes: as a set, and as a list without repeats. */
  lemma InspectorShowsTheTree(t: Node, w: World, acts: seq<Act>)
    requires Sound(t, w) && Legal(t, w, acts)
    ensures var s := Live(t, w, acts); var path := ActivePath(s.w.notes);
      && RunningSet(s.w.notes) == RunningUids(s.node)
      && (forall x :: x in path <==> x in RunningUids(s.node))
      && (forall i, j | 0 <= i < j < |path| :: path[i] != path[j])
  {
    LiveSound(t, w, acts);
    PathListsRunningSet(Live(t, w, acts).w.notes);
  }

  /** The smallest case in which the path does not run from the root to the leaf: both become
      RUNNING in one tick, and a node reports after its children. */
  lemma LeafBeforeParent(w: World)
    requires w.notes == [] && CallReply(w, 1, Plain).result == Running
    ensures var leaf := Node(Info(1, Leaf(Action), None), Idle, BLANK, []);
      var root := Node(Info(0, INVERTER, None), Idle, BLANK, [leaf]);
      ActivePath(Tick(root, w).w.notes) == [1, 0]
  {
    var leaf := Node(Info(1, Leaf(Action), None), Idle, BLANK, []);
    var root := Node(Info(0, INVERTER, None), Idle, BLANK, [leaf]);
    var s := Tick(leaf, w);
    assert TickBody(leaf, w) == TickLeaf(leaf, Action, w);
    assert TickBody(root, w) == TickDecorator(root, w);
    assert Tick(root, w).w.notes == [Ticked(1, Running), Ticked(0, Running)];
    assert [Ticked(1, Running), Ticked(0, Running)][..1] == [Ticked(1, Running)];
    assert [Ticked(1, Running)][..0] == [];
  }
}
