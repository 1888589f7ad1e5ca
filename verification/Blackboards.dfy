/** The scoped blackboard: which cell a key stands for, and who hears of a write. */
module Blackboards {
  import opened Worlds

  type Key = string
  type Value = int
  type Callback = Uid

  // ----- scopes as values ---------------------------------------------------------------

  datatype Past = Past(value: Value, writer: string, time: real)

  /** A cell of one scope; `value` is `None` while the cell is unset. */
  datatype Entry = Entry(value: Option<Value>, writer: string, time: real, history: seq<Past>)

  datatype Scope = Scope(remapping: map<Key, Key>, entries: map<Key, Entry>)

  /** A scope followed by its ancestors, the root scope last. */
  type Chain = c: seq<Scope> | c != [] witness [Scope(map[], map[])]

  const MAX_HISTORY := 32

  const UNSET := Entry(None, "", 0.0, [])

  /** A key is redirected to the parent scope; without a parent its remapping is ignored. */
  predicate Redirected(c: Chain, key: Key) { |c| > 1 && key in c[0].remapping }

  /** The old value goes into the history, which forgets its oldest record beyond the limit. */
  function Overwrite(e: Entry, value: Value, writer: string, time: real): Entry {
    if e.value.None? then Entry(Some(value), writer, time, e.history)
    else
      var history := e.history + [Past(e.value.value, e.writer, e.time)];
      Entry(Some(value), writer, time, if |history| > MAX_HISTORY then history[1..] else history)
  }

  function Cell(s: Scope, key: Key): Entry { if key in s.entries then s.entries[key] else UNSET }

  function Set(c: Chain, key: Key, value: Value, writer: string, time: real): (r: Chain)
    ensures |r| == |c|
    decreases |c|
  {
    if Redirected(c, key) then [c[0]] + Set(c[1..], c[0].remapping[key], value, writer, time)
    else [c[0].(entries := c[0].entries[key := Overwrite(Cell(c[0], key), value, writer, time)])] + c[1..]
  }

  function Get(c: Chain, key: Key): Option<Value>
    decreases |c|
  {
    if Redirected(c, key) then Get(c[1..], c[0].remapping[key])
    else if key in c[0].entries && c[0].entries[key].value.Some? then c[0].entries[key].value
    else if |c| > 1 then Get(c[1..], key)
    else None
  }

  function Remove(c: Chain, key: Key): (r: Chain)
    ensures |r| == |c|
    decreases |c|
  {
    if Redirected(c, key) then [c[0]] + Remove(c[1..], c[0].remapping[key])
    else [c[0].(entries := c[0].entries - {key})] + c[1..]
  }

  // ----- the cells a key stands for ----------------------------------------------------------

  /** A cell: how many scopes up, and under which key. */
  datatype Place = Place(up: nat, key: Key)

  /** The cells a read of `key` tries, in order.  It depends on the remappings alone. */
  function Path(maps: seq<map<Key, Key>>, key: Key): (p: seq<Place>)
    ensures maps != [] ==> p != []
    ensures forall i | 0 <= i < |p| :: p[i].up < |maps|
    ensures forall i, j | 0 <= i < j < |p| :: p[i].up < p[j].up
    decreases |maps|
  {
    if maps == [] then []
    else if |maps| > 1 && key in maps[0] then OneUp(Path(maps[1..], maps[0][key]))
    else [Place(0, key)] + OneUp(Path(maps[1..], key))
  }

  function OneUp(p: seq<Place>): (r: seq<Place>)
    ensures |r| == |p| && forall i | 0 <= i < |p| :: r[i] == Place(p[i].up + 1, p[i].key)
  {
    seq(|p|, i requires 0 <= i < |p| => Place(p[i].up + 1, p[i].key))
  }

  function Maps(c: seq<Scope>): (m: seq<map<Key, Key>>)
    ensures |m| == |c| && forall i | 0 <= i < |c| :: m[i] == c[i].remapping
  {
    seq(|c|, i requires 0 <= i < |c| => c[i].remapping)
  }

  function PathOf(c: seq<Scope>, key: Key): (p: seq<Place>)
    ensures c != [] ==> p != []
    ensures forall i | 0 <= i < |p| :: p[i].up < |c|
  {
    Path(Maps(c), key)
  }

  function At(c: seq<Scope>, p: Place): Entry
    requires p.up < |c|
  {
    Cell(c[p.up], p.key)
  }

  /** The value of the first cell on the path that is set. */
  function FirstSet(c: seq<Scope>, path: seq<Place>): Option<Value>
    requires forall i | 0 <= i < |path| :: path[i].up < |c|
  {
    if path == [] then None
    else if At(c, path[0]).value.Some? then At(c, path[0]).value
    else FirstSet(c, path[1..])
  }

  lemma MapsTail(c: Chain)
    ensures Maps(c)[1..] == Maps(c[1..])
  {}

  /** The head of a redirected key's path is that of its new name, one scope up. */
  lemma HeadUp(c: Chain, key: Key)
    ensures if Redirected(c, key) then
              var head := PathOf(c[1..], c[0].remapping[key])[0];
              PathOf(c, key)[0] == Place(head.up + 1, head.key)
            else PathOf(c, key)[0] == Place(0, key)
  {
    MapsTail(c);
  }

  lemma {:induction false} FirstSetUp(c: Chain, path: seq<Place>)
    requires forall i | 0 <= i < |path| :: path[i].up < |c| - 1
    ensures FirstSet(c, OneUp(path)) == FirstSet(c[1..], path)
  {
    if path != [] {
      assert OneUp(path)[1..] == OneUp(path[1..]);
      FirstSetUp(c, path[1..]);
    }
  }

  /** A read finds the first cell on the key's path that is set. */
  lemma {:induction false} GetIsFirstSet(c: Chain, key: Key)
    ensures Get(c, key) == FirstSet(c, PathOf(c, key))
    decreases |c|
  {
    MapsTail(c);
    if Redirected(c, key) {
      GetIsFirstSet(c[1..], c[0].remapping[key]);
      FirstSetUp(c, PathOf(c[1..], c[0].remapping[key]));
    } else {
      var rest := OneUp(Path(Maps(c[1..]), key));
      assert ([Place(0, key)] + rest)[1..] == rest;
      if |c| > 1 {
        GetIsFirstSet(c[1..], key);
        FirstSetUp(c, PathOf(c[1..], key));
      }
    }
  }

  /** Nothing but the cell at `p` differs, and it now holds `e` (nothing, if `e` is `None`). */
  ghost predicate OnlyCell(c: seq<Scope>, d: seq<Scope>, p: Place, e: Option<Entry>)
    requires p.up < |c|
  {
    var cells := c[p.up].entries;
    d == c[p.up := c[p.up].(entries := if e.Some? then cells[p.key := e.value] else cells - {p.key})]
  }

  lemma OnlyCellUp(c: Chain, d: seq<Scope>, p: Place, e: Option<Entry>)
    requires p.up < |c| - 1 && OnlyCell(c[1..], d, p, e)
    ensures OnlyCell(c, [c[0]] + d, Place(p.up + 1, p.key), e)
  {}

  /** A write changes the head of the key's path and nothing else. */
  lemma {:induction false} SetActsOnHead(c: Chain, key: Key, value: Value, writer: string, time: real)
    ensures var head := PathOf(c, key)[0];
      OnlyCell(c, Set(c, key, value, writer, time), head, Some(Overwrite(At(c, head), value, writer, time)))
    decreases |c|
  {
    hide Path, PathOf, Maps, Overwrite;
    HeadUp(c, key);
    if Redirected(c, key) {
      hide OnlyCell;
      var k := c[0].remapping[key];
      SetActsOnHead(c[1..], k, value, writer, time);
      var head := PathOf(c[1..], k)[0];
      OnlyCellUp(c, Set(c[1..], k, value, writer, time), head, Some(Overwrite(At(c[1..], head), value, writer, time)));
    }
  }

  /** So does a removal. */
  lemma {:induction false} RemoveActsOnHead(c: Chain, key: Key)
    ensures OnlyCell(c, Remove(c, key), PathOf(c, key)[0], None)
    decreases |c|
  {
    hide Path, PathOf, Maps;
    HeadUp(c, key);
    if Redirected(c, key) {
      hide OnlyCell;
      RemoveActsOnHead(c[1..], c[0].remapping[key]);
      OnlyCellUp(c, Remove(c[1..], c[0].remapping[key]), PathOf(c[1..], c[0].remapping[key])[0], None);
    }
  }

  lemma {:induction false} FirstSetElsewhere(c: seq<Scope>, d: seq<Scope>, p: Place, e: Option<Entry>, path: seq<Place>)
    requires p.up < |c| && OnlyCell(c, d, p, e) && p !in path
    requires forall i | 0 <= i < |path| :: path[i].up < |c|
    ensures FirstSet(d, path) == FirstSet(c, path)
  {
    if path != [] {
      assert path[0] != p && At(d, path[0]) == At(c, path[0]);
      FirstSetElsewhere(c, d, p, e, path[1..]);
    }
  }

  lemma SameMaps(c: seq<Scope>, d: seq<Scope>, p: Place, e: Option<Entry>)
    requires p.up < |c| && OnlyCell(c, d, p, e)
    ensures |d| == |c| && Maps(d) == Maps(c)
  {}

  /** What is set through a chain of remappings is read back through it. */
  lemma SetThenGet(c: Chain, key: Key, value: Value, writer: string, time: real)
    ensures Get(Set(c, key, value, writer, time), key) == Some(value)
  {
    var d, path := Set(c, key, value, writer, time), PathOf(c, key);
    SetActsOnHead(c, key, value, writer, time);
    SameMaps(c, d, path[0], Some(Overwrite(At(c, path[0]), value, writer, time)));
    GetIsFirstSet(d, key);
  }

  /** Removing a key exposes what the rest of its path holds. */
  lemma RemoveExposesTheRest(c: Chain, key: Key)
    ensures Get(Remove(c, key), key) == FirstSet(c, PathOf(c, key)[1..])
  {
    var d, path := Remove(c, key), PathOf(c, key);
    RemoveActsOnHead(c, key);
    SameMaps(c, d, path[0], None);
    GetIsFirstSet(d, key);
    assert At(d, path[0]) == UNSET;
    assert path[0] !in path[1..];
    FirstSetElsewhere(c, d, path[0], None, path[1..]);
  }

  /** A write through `key` can change a read of `other` only if the cell it lands in is on the
      path of `other`; if it is the first set one there, or comes before it, the read sees it. */
  lemma WhoSeesAWrite(c: Chain, key: Key, value: Value, writer: string, time: real, other: Key)
    ensures var head := PathOf(c, key)[0]; var path := PathOf(c, other);
      && (head !in path ==> Get(Set(c, key, value, writer, time), other) == Get(c, other))
      && (forall i | 0 <= i < |path| && path[i] == head ::
            Get(Set(c, key, value, writer, time), other)
            == if FirstSet(c, path[..i]).Some? then FirstSet(c, path[..i]) else Some(value))
  {
    hide Path, Maps, Set, Get, Redirected;
    var d, head, path := Set(c, key, value, writer, time), PathOf(c, key)[0], PathOf(c, other);
    var e := Some(Overwrite(At(c, head), value, writer, time));
    SetActsOnHead(c, key, value, writer, time);
    SameMaps(c, d, head, e);
    GetIsFirstSet(d, other);
    GetIsFirstSet(c, other);
    if head !in path { FirstSetElsewhere(c, d, head, e, path); }
    forall i | 0 <= i < |path| && path[i] == head
      ensures FirstSet(d, path) == if FirstSet(c, path[..i]).Some? then FirstSet(c, path[..i]) else Some(value)
    {
      FirstSetSplit(d, path, i);
      assert head !in path[..i];
      FirstSetElsewhere(c, d, head, e, path[..i]);
    }
  }

  lemma {:induction false} FirstSetSplit(c: seq<Scope>, path: seq<Place>, i: nat)
    requires i <= |path| && forall j | 0 <= j < |path| :: path[j].up < |c|
    ensures FirstSet(c, path) == if FirstSet(c, path[..i]).Some? then FirstSet(c, path[..i]) else FirstSet(c, path[i..])
  {
    if i > 0 {
      FirstSetSplit(c, path[1..], i - 1);
      assert path[..i][1..] == path[1..][..i - 1];
    }
  }

  /** A write to a key that is not remapped stays in this scope: no ancestor reads anything new. */
  lemma UnmappedWriteStaysLocal(c: Chain, key: Key, value: Value, writer: string, time: real, up: nat, other: Key)
    requires !Redirected(c, key) && 0 < up < |c|
    ensures Get(Set(c, key, value, writer, time)[up..], other) == Get(c[up..], other)
  {
    assert Set(c, key, value, writer, time)[up..] == c[up..];
  }

  // ----- the cells once more, without recursion on scopes -------------------------------------------

  /** The key under which `key` is carried `up` scopes: each remapping on the way renames it. */
  function NameAt(c: Chain, key: Key, up: nat): Key
    requires up < |c|
  {
    if up == 0 then key
    else
      var below := NameAt(c, key, up - 1);
      if below in c[up - 1].remapping then c[up - 1].remapping[below] else below
  }

  /** A scope is tried if it does not redirect the key, or has no parent to redirect it to. */
  predicate Tried(c: Chain, key: Key, up: nat)
    requires up < |c|
  {
    up == |c| - 1 || NameAt(c, key, up) !in c[up].remapping
  }

  /** What the scope holds under the name carried there. */
  function Holds(c: Chain, key: Key, up: nat): Option<Value>
    requires up < |c|
  {
    var k := NameAt(c, key, up);
    if k in c[up].entries then c[up].entries[k].value else None
  }

  /** One scope up, the key goes by its new name, if it has one. */
  lemma {:induction false} OneScopeUp(c: Chain, key: Key, up: nat)
    requires up + 1 < |c|
    ensures var on := if key in c[0].remapping then c[0].remapping[key] else key;
      && NameAt(c, key, up + 1) == NameAt(c[1..], on, up)
      && (Tried(c, key, up + 1) <==> Tried(c[1..], on, up))
      && Holds(c, key, up + 1) == Holds(c[1..], on, up)
  {
    if up > 0 { OneScopeUp(c, key, up - 1); }
  }

  /** The first scope that is tried. */
  ghost predicate TriedFirst(c: Chain, key: Key, up: nat) {
    up < |c| && Tried(c, key, up) && forall i | 0 <= i < up :: !Tried(c, key, i)
  }

  /** Writes and removals, which change the head of the path, land in the first scope that is tried,
      under the name carried there. */
  lemma {:induction false} HeadIsTriedFirst(c: Chain, key: Key, up: nat)
    requires TriedFirst(c, key, up)
    ensures PathOf(c, key)[0] == Place(up, NameAt(c, key, up))
    decreases |c|
  {
    HeadUp(c, key);
    if up > 0 {
      assert !Tried(c, key, 0);
      forall i | 0 <= i < up ensures Tried(c, key, i + 1) <==> Tried(c[1..], c[0].remapping[key], i) {
        OneScopeUp(c, key, i);
      }
      hide Path, PathOf, Maps;
      HeadIsTriedFirst(c[1..], c[0].remapping[key], up - 1);
      OneScopeUp(c, key, up - 1);
    }
  }

  /** A read returns what the nearest of the scopes that are tried and hold a value holds, under the
      name carried there; nothing, if none does. */
  lemma {:induction false} NearestScopeAnswers(c: Chain, key: Key)
    ensures Get(c, key).None? ==> forall up | 0 <= up < |c| && Tried(c, key, up) :: Holds(c, key, up).None?
    ensures Get(c, key).Some? ==> exists up :: Answers(c, key, up, Get(c, key))
    decreases |c|
  {
    if |c| > 1 && (key in c[0].remapping || Holds(c, key, 0).None?) {
      var on := if key in c[0].remapping then c[0].remapping[key] else key;
      NearestScopeAnswers(c[1..], on);
      assert Get(c, key) == Get(c[1..], on);
      forall i | 0 <= i < |c| - 1
        ensures (Tried(c, key, i + 1) <==> Tried(c[1..], on, i)) && Holds(c, key, i + 1) == Holds(c[1..], on, i)
      {
        OneScopeUp(c, key, i);
      }
      hide Get, NameAt, Holds;
      AnswersUp(c, key, on, Get(c, key));
    } else {
      assert Get(c, key) == Holds(c, key, 0);
      if Get(c, key).Some? { assert Answers(c, key, 0, Get(c, key)); }
    }
  }

  /** This scope is tried and holds `v`; nearer ones that are tried hold nothing. */
  ghost predicate Answers(c: Chain, key: Key, up: nat, v: Option<Value>) {
    && up < |c| && Tried(c, key, up) && Holds(c, key, up) == v
    && forall i | 0 <= i < up && Tried(c, key, i) :: Holds(c, key, i).None?
  }

  lemma AnswersUp(c: Chain, key: Key, on: Key, v: Option<Value>)
    requires |c| > 1 && (Tried(c, key, 0) ==> Holds(c, key, 0).None?)
    requires forall i | 0 <= i < |c| - 1 ::
      (Tried(c, key, i + 1) <==> Tried(c[1..], on, i)) && Holds(c, key, i + 1) == Holds(c[1..], on, i)
    ensures forall up: nat | Answers(c[1..], on, up, v) :: Answers(c, key, up + 1, v)
    ensures (forall up | 0 <= up < |c| - 1 && Tried(c[1..], on, up) :: Holds(c[1..], on, up).None?) ==>
      forall up | 0 <= up < |c| && Tried(c, key, up) :: Holds(c, key, up).None?
  {
    hide Tried, Holds;
    forall up: nat | Answers(c[1..], on, up, v) ensures Answers(c, key, up + 1, v) {
      forall i | 0 <= i < up + 1 && Tried(c, key, i) ensures Holds(c, key, i).None? {
        if i > 0 { assert Tried(c[1..], on, i - 1); }
      }
    }
    if forall up | 0 <= up < |c| - 1 && Tried(c[1..], on, up) :: Holds(c[1..], on, up).None? {
      forall up | 0 <= up < |c| && Tried(c, key, up) ensures Holds(c, key, up).None? {
        if up > 0 { assert Tried(c[1..], on, up - 1); }
      }
    }
  }

  // ----- the history of one cell --------------------------------------------------------------

  /** The cell after these writes, oldest first. */
  function Written(e: Entry, writes: seq<Past>): Entry {
    if writes == [] then e
    else
      var w := writes[|writes| - 1];
      Overwrite(Written(e, writes[..|writes| - 1]), w.value, w.writer, w.time)
  }

  /** The records that were ever to go into the history, until the last write. */
  function Overwritten(e: Entry, writes: seq<Past>): seq<Past>
    requires writes != []
  {
    e.history + (if e.value.Some? then [Past(e.value.value, e.writer, e.time)] else []) + writes[..|writes| - 1]
  }

  /** However the cell began: it holds what was written last, and its history the last 32 records that
      were overwritten, in order. */
  lemma {:induction false} HistoryIsTheLastWrites(e: Entry, writes: seq<Past>)
    requires writes != [] && |e.history| <= 32
    ensures var now := Written(e, writes); var last := writes[|writes| - 1]; var past := Overwritten(e, writes);
      && now.value == Some(last.value) && now.writer == last.writer && now.time == last.time
      && now.history == if |past| <= 32 then past else past[|past| - 32..]
  {
    var n := |writes| - 1;
    if n > 0 {
      HistoryIsTheLastWrites(e, writes[..n]);
      assert Overwritten(e, writes) == Overwritten(e, writes[..n]) + [writes[n - 1]];
    }
  }

  // ----- the object ---------------------------------------------------------------------------

  /** A dictionary in insertion order: subscription ids only grow. */
  datatype Subscription = Subscription(id: nat, callback: Callback)

  function Drop(subs: seq<Subscription>, id: nat): (r: seq<Subscription>)
    ensures forall s :: s in r <==> s in subs && s.id != id
  {
    if subs == [] then [] else (if subs[0].id == id then [] else [subs[0]]) + Drop(subs[1..], id)
  }

  /** Ids below `next`, each used once. */
  ghost predicate Numbered(subs: seq<Subscription>, next: nat) {
    && (forall s | s in subs :: s.id < next)
    && (forall i, j | 0 <= i < j < |subs| :: subs[i].id < subs[j].id)
  }

  lemma {:induction false} DropNumbered(subs: seq<Subscription>, id: nat, next: nat)
    requires Numbered(subs, next)
    ensures Numbered(Drop(subs, id), next)
  {
    if subs != [] {
      TailNumbered(subs, next);
      DropNumbered(subs[1..], id, next);
      ConsNumbered(subs[0], Drop(subs[1..], id), next);
    }
  }

  lemma TailNumbered(subs: seq<Subscription>, next: nat)
    requires subs != [] && Numbered(subs, next)
    ensures Numbered(subs[1..], next) && forall s | s in subs[1..] :: subs[0].id < s.id
  {
    forall s | s in subs[1..] ensures s in subs && subs[0].id < s.id {
      var k :| 0 <= k < |subs[1..]| && subs[1..][k] == s;
      assert subs[k + 1] == s;
    }
  }

  lemma ConsNumbered(s: Subscription, rest: seq<Subscription>, next: nat)
    requires Numbered(rest, next) && s.id < next && forall r | r in rest :: s.id < r.id
    ensures Numbered([s] + rest, next)
  {
    var all := [s] + rest;
    forall i, j | 0 <= i < j < |all| ensures all[i].id < all[j].id {
      assert all[j] == rest[j - 1] && all[j] in rest;
    }
  }

  class Blackboard {
    const parent: Blackboard?
    const remapping: map<Key, Key>
    var entries: map<Key, Entry>
    var callbacks: seq<Subscription>
    var cache: seq<Subscription>
    var stale: bool
    var nextId: nat
    ghost const scopes: set<Blackboard>

    /** `scopes` are this scope and its ancestors.  The dispatch list, unless marked stale, is the
        subscription table. */
    ghost predicate Valid()
      reads this, scopes
      decreases scopes
    {
      && this in scopes
      && (parent != null ==> parent in scopes && parent.scopes == scopes - {this} && parent.Valid())
      && (!stale ==> cache == callbacks)
      && Numbered(callbacks, nextId)
    }

    ghost function Chain(): (c: Chain)
      requires Valid()
      reads this, scopes
      ensures |c| > 1 <==> parent != null
      ensures c[0] == Scope(remapping, entries)
      ensures parent != null ==> c[1..] == parent.Chain()
      decreases scopes
    {
      [Scope(remapping, entries)] + if parent == null then [] else parent.Chain()
    }

    /** The scope a write through `key` lands in. */
    ghost function Landing(key: Key): (b: Blackboard)
      requires Valid()
      reads this, scopes
      ensures b in scopes && b.Valid()
      decreases scopes
    {
      if parent != null && key in remapping then parent.Landing(remapping[key]) else this
    }

    ghost function Up(n: nat): (b: Blackboard)
      requires Valid() && n < |Chain()|
      reads this, scopes
      decreases scopes
    {
      if n == 0 then this else parent.Up(n - 1)
    }

    constructor (parent: Blackboard?, remapping: map<Key, Key>)
      requires parent != null ==> parent.Valid()
      ensures Valid() && fresh(this) && this.parent == parent && this.remapping == remapping
      ensures entries == map[] && callbacks == []
      ensures parent != null ==> parent.Valid() && Chain()[1..] == old(parent.Chain())
    {
      this.parent, this.remapping := parent, remapping;
      entries, callbacks, cache, stale, nextId := map[], [], [], true, 0;
      scopes := {this} + if parent == null then {} else parent.scopes;
    }

    /** Only this scope has changed, none of its ancestors. */
    twostate lemma OwnChanged()
      requires old(Valid()) && forall o | o in scopes && o != this :: unchanged(o)
      requires (!stale ==> cache == callbacks) && Numbered(callbacks, nextId)
      ensures Valid() && Chain() == [Scope(remapping, entries)] + old(Chain())[1..]
    {
      hide Numbered;
      if parent != null {
        assert old(parent.Valid()) && forall o | o in parent.scopes :: unchanged(o);
        assert parent.Valid() && parent.Chain() == old(parent.Chain());
      }
    }

    /** `set`: writes the cell and calls every callback registered on the scope it lands in, in
        the order of subscription, and no other. */
    method DoSet(key: Key, value: Value, writer: string, now: real) returns (fired: seq<Subscription>)
      requires Valid()
      modifies scopes
      ensures Valid() && Chain() == Set(old(Chain()), key, value, writer, now)
      ensures fired == old(Landing(key).callbacks)
      ensures forall b | b in scopes :: b.callbacks == old(b.callbacks) && b.nextId == old(b.nextId)
      decreases scopes
    {
      if key in remapping && parent != null {
        fired := parent.DoSet(remapping[key], value, writer, now);
      } else {
        fired := WriteHere(key, value, writer, now);
      }
    }

    method WriteHere(key: Key, value: Value, writer: string, now: real) returns (fired: seq<Subscription>)
      requires Valid()
      modifies this
      ensures Valid() && fired == callbacks == old(callbacks) && nextId == old(nextId)
      ensures var c := old(Chain());
        Chain() == [c[0].(entries := c[0].entries[key := Overwrite(Cell(c[0], key), value, writer, now)])] + c[1..]
    {
      var entry := if key in entries then entries[key] else UNSET;
      var history := entry.history;
      if entry.value.Some? {
        history := history + [Past(entry.value.value, entry.writer, entry.time)];
        if |history| > MAX_HISTORY { history := history[1..]; }
      }
      ghost var c := Chain();
      assert Entry(Some(value), writer, now, history) == Overwrite(Cell(c[0], key), value, writer, now);
      entries := entries[key := Entry(Some(value), writer, now, history)];
      if stale { cache, stale := callbacks, false; }
      fired := cache;
      OwnChanged();
      assert Scope(remapping, entries) == c[0].(entries := entries);
    }

    method DoGet(key: Key) returns (v: Option<Value>)
      requires Valid()
      ensures v == Get(Chain(), key)
      decreases scopes
    {
      if key in remapping && parent != null {
        v := parent.DoGet(remapping[key]);
      } else if key in entries && entries[key].value.Some? {
        v := entries[key].value;
      } else if parent != null {
        v := parent.DoGet(key);
      } else {
        v := None;
      }
    }

    method Has(key: Key) returns (b: bool)
      requires Valid()
      ensures b == Get(Chain(), key).Some?
      decreases scopes
    {
      if key in remapping && parent != null {
        b := parent.Has(remapping[key]);
      } else if key in entries && entries[key].value.Some? {
        b := true;
      } else if parent != null {
        b := parent.Has(key);
      } else {
        b := false;
      }
    }

    method DoRemove(key: Key)
      requires Valid()
      modifies scopes
      ensures Valid() && Chain() == Remove(old(Chain()), key)
      ensures forall b | b in scopes :: b.callbacks == old(b.callbacks) && b.nextId == old(b.nextId)
      decreases scopes
    {
      if key in remapping && parent != null {
        parent.DoRemove(remapping[key]);
      } else {
        entries := entries - {key};
        OwnChanged();
      }
    }

    /** `clear`: this scope only. */
    method Clear()
      requires Valid()
      modifies this
      ensures Valid() && callbacks == old(callbacks)
      ensures Chain() == [Scope(remapping, map[])] + old(Chain())[1..]
    {
      entries := map[];
      OwnChanged();
    }

    method DoSubscribe(callback: Callback) returns (id: nat)
      requires Valid()
      modifies this
      ensures Valid() && Chain() == old(Chain())
      ensures callbacks == old(callbacks) + [Subscription(id, callback)]
      ensures forall s | s in old(callbacks) :: s.id != id
    {
      id := nextId;
      nextId := nextId + 1;
      callbacks := callbacks + [Subscription(id, callback)];
      stale := true;
      OwnChanged();
    }

    method DoUnsubscribe(id: nat)
      requires Valid()
      modifies this
      ensures Valid() && Chain() == old(Chain())
      ensures callbacks == Drop(old(callbacks), id)
    {
      DropNumbered(callbacks, id, nextId);
      callbacks := Drop(callbacks, id);
      stale := true;
      OwnChanged();
    }

    /** The scope whose callbacks hear of a write is the one that holds the head of the key's path. */
    lemma {:induction false} LandingHoldsHead(key: Key)
      requires Valid()
      ensures Landing(key) == Up(PathOf(Chain(), key)[0].up)
      decreases scopes
    {
      hide Path, Maps, PathOf, Numbered;
      HeadUp(Chain(), key);
      if parent != null && key in remapping { parent.LandingHoldsHead(remapping[key]); }
    }

    /** Callbacks on this very scope hear of a write made through it exactly when its key is not
        redirected to the parent. */
    lemma HeardHere(key: Key)
      requires Valid()
      ensures Landing(key) == this <==> !Redirected(Chain(), key)
    {
      if Redirected(Chain(), key) { assert Landing(key) in parent.scopes; }
    }
  }
}
