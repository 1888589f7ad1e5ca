/** Trees changed between ticks: modifications are queued, then applied in place on the heap. */
module LiveTrees {
  import opened Worlds
  import opened Engine
  import opened Runs
  import opened Surroundings
  import opened TreeNodes
  import opened Modify

  datatype Request =
    | ReplaceNode(target: Uid, node: TreeNode)
    | InsertChild(target: Uid, index: int, node: TreeNode)
    | RemoveChild(target: Uid, index: int)

  /** As a value, the request is `mod`; the nodes it brings in are `news`. */
  ghost predicate Means(r: Request, mod: Mod, news: set<TreeNode>)
    reads news
  {
    match r
    case ReplaceNode(target, node) =>
      node in news && node.repr == news && node.Valid() && mod == Replace(target, node.Abs())
    case InsertChild(target, index, node) =>
      node in news && node.repr == news && node.Valid() && mod == Insert(target, index, node.Abs())
    case RemoveChild(target, index) => news == {} && mod == Remove(target, index)
  }

  /** Carries out `r` in the subtree of `t`; `now` is what stands in the place of `t` afterwards. */
  method Apply(t: TreeNode, r: Request, w: Stage, ghost mod: Mod, ghost news: set<TreeNode>)
      returns (found: bool, now: TreeNode)
    requires t.Valid() && Means(r, mod, news) && news !! t.repr
    modifies t.repr, news, w
    ensures now.Valid() && now.repr <= old(t.repr) + news
    ensures var e := Edit(old(t.Abs()), mod, old(w.Value()));
      found == e.found && now.Abs() == e.node && w.Value() == e.w
    ensures !found ==> now == t && unchanged(old(t.repr)) && unchanged(news) && unchanged(w)
    decreases t.repr, 1
  {
    hide TreeNode.Valid, EditHere, EditFrom;
    assert mod.target == r.target;
    if t.info.uid == r.target {
      found := true;
      now := ApplyHere(t, r, w, mod, news);
    } else {
      now := t;
      found := ApplyBelow(t, r, w, mod, news);
    }
  }

  /** Looks for the target below each child in turn. */
  method ApplyBelow(t: TreeNode, r: Request, w: Stage, ghost mod: Mod, ghost news: set<TreeNode>)
      returns (found: bool)
    requires t.Valid() && Means(r, mod, news) && news !! t.repr
    modifies t.repr, news, w
    ensures t.Valid() && t.repr <= old(t.repr) + news
    ensures t.status == old(t.status) && t.Mem() == old(t.Mem())
    ensures var ks := old(t.AbsKids()); var e := EditFrom(ks, 0, mod, old(w.Value()));
      found == (e.at < |ks|) && (found ==> t.AbsKids() == ks[e.at := e.e.node] && w.Value() == e.e.w)
    ensures !found ==> unchanged(old(t.repr)) && unchanged(news) && unchanged(w)
    decreases t.repr, 1, 0
  {
    hide TreeNode.Valid, Edit, EditFrom, Means;
    ghost var v, ks, nodes := w.Value(), t.AbsKids(), t.repr;
    EditFromEnds(ks, mod, v);
    var i := 0;
    while i < |t.kids|
      invariant unchanged(nodes) && unchanged(news) && unchanged(w) && i <= |ks|
      invariant EditFrom(ks, 0, mod, v) == EditFrom(ks, i, mod, v)
    {
      EditFromStep(ks, i, mod, v);
      found := ApplyToKid(t, i, r, w, mod, news);
      if found { return; }
      i := i + 1;
    }
    found := false;
  }

  lemma EditFromStep(ks: seq<Node>, i: nat, mod: Mod, w: World)
    requires i < |ks|
    ensures var e := Edit(ks[i], mod, w);
      EditFrom(ks, i, mod, w) == if e.found then Found(i, e) else EditFrom(ks, i + 1, mod, w)
  {
    hide Edit;
  }

  lemma EditFromEnds(ks: seq<Node>, mod: Mod, w: World)
    ensures EditFrom(ks, |ks|, mod, w).at == |ks|
  {}

  /** Looks for the target below child `i`. */
  method ApplyToKid(t: TreeNode, i: nat, r: Request, w: Stage, ghost mod: Mod, ghost news: set<TreeNode>)
      returns (found: bool)
    requires t.Valid() && Means(r, mod, news) && news !! t.repr && i < |t.kids|
    modifies t.repr, news, w
    ensures t.Valid() && t.repr <= old(t.repr) + news
    ensures t.status == old(t.status) && t.Mem() == old(t.Mem())
    ensures var e := Edit(old(t.AbsKids()[i]), mod, old(w.Value()));
      found == e.found && (found ==> t.AbsKids() == old(t.AbsKids())[i := e.node] && w.Value() == e.w)
    ensures !found ==> unchanged(old(t.repr)) && unchanged(news) && unchanged(w)
    decreases t.repr, 0
  {
    hide TreeNode.ValidBut, Edit, Means;
    ghost var ks := t.AbsKids();
    assert ks[i] == t.kids[i].Abs();
    var node;
    found, node := Apply(t.kids[i], r, w, mod, news);
    if found {
      t.OthersUnchanged(i);
      t.PutInPlace(i, node, ks, old(t.repr - t.kids[i].repr - {t}));
    }
  }

  method ApplyHere(t: TreeNode, r: Request, w: Stage, ghost mod: Mod, ghost news: set<TreeNode>)
      returns (now: TreeNode)
    requires t.Valid() && Means(r, mod, news) && news !! t.repr
    modifies t.repr, news, w
    ensures now.Valid() && now.repr <= old(t.repr) + news
    ensures var e := EditHere(old(t.Abs()), mod, old(w.Value())); now.Abs() == e.node && w.Value() == e.w
    decreases t.repr, 0
  {
    hide TreeNode.Valid, Halt;
    now := t;
    match r {
      case ReplaceNode(_, node) =>
        t.DoHalt(w);
        now := node;
      case InsertChild(_, index, node) => InsertHere(t, index, node, w);
      case RemoveChild(_, index) => RemoveHere(t, index, w);
    }
  }

  method InsertHere(t: TreeNode, index: int, node: TreeNode, w: Stage)
    requires t.Valid() && node.Valid() && node.repr !! t.repr
    modifies t.repr, node.repr, w
    ensures t.Valid() && t.repr <= old(t.repr + node.repr)
    ensures var e := EditHere(old(t.Abs()), Insert(0, index, old(node.Abs())), old(w.Value()));
      t.Abs() == e.node && w.Value() == e.w
    ensures t.info.kind.Memory? || t.info.kind.Reactive? || t.info.kind.Parallel? ==>
      Inserted(old(t.AbsKids()), t.AbsKids(), index, node.info)
  {
    hide TreeNode.Valid, Halt, Inserted;
    var k := t.info.kind;
    ghost var was, mod := t.Abs(), Insert(0, index, node.Abs());
    if k.Memory? || k.Reactive? || k.Parallel? { InsertPlace(was, mod, w.Value()); }
    if k.Memory? || k.Reactive? || k.Parallel? {
      t.PutKid(Clamp(index, |t.kids|), node);
      t.DoHalt(w);
    } else if !k.Leaf? && t.kids != [] {
      SwapOnlyKid(t, node, w);
      t.DoHalt(w);
    }
  }

  /** A decorator's only child is halted and gives way to `node`. */
  method SwapOnlyKid(t: TreeNode, node: TreeNode, w: Stage)
    requires t.Valid() && node.Valid() && node.repr !! t.repr && t.kids != []
    modifies t.repr, w
    ensures t.Valid() && t.repr <= old(t.repr) + node.repr
    ensures var c := Halt(old(t.Abs()).kids[0], old(w.Value()));
      t.Abs() == old(t.Abs()).(kids := [old(node.Abs())]) && w.Value() == c.w
  {
    hide Halt;
    t.HaltKid(0, w);
    t.kids := [node];
    t.repr := {t} + node.repr;
    assert t.AbsKids() == [node.Abs()];
  }

  method RemoveHere(t: TreeNode, index: int, w: Stage)
    requires t.Valid()
    modifies t.repr, w
    ensures t.Valid() && t.repr <= old(t.repr)
    ensures var e := EditHere(old(t.Abs()), Remove(0, index), old(w.Value()));
      t.Abs() == e.node && w.Value() == e.w
  {
    hide TreeNode.Valid, Halt;
    var k := t.info.kind;
    if (k.Memory? || k.Reactive? || k.Parallel?) && 0 <= index < |t.kids| {
      t.HaltKid(index, w);
      t.CutKid(index);
      t.DoHalt(w);
    }
  }

  // ----- the queue ------------------------------------------------------------------------------

  datatype ModificationType = REPLACE_NODE | HOT_SWAP_SUBTREE | INSERT_CHILD | REMOVE_CHILD

  /** What a caller hands in: the target and the new node may be missing. */
  datatype TreeModification =
    TreeModification(kind: ModificationType, target: Option<Uid>, index: int, node: Option<TreeNode>)

  datatype Queued = Accepted | MissingTarget | MissingNode

  predicate Complete(m: TreeModification) { m.target.Some? && (m.kind == REMOVE_CHILD || m.node.Some?) }

  function ToRequest(m: TreeModification): Request
    requires Complete(m)
  {
    match m.kind
    case REMOVE_CHILD => RemoveChild(m.target.value, m.index)
    case INSERT_CHILD => InsertChild(m.target.value, m.index, m.node.value)
    case _ => ReplaceNode(m.target.value, m.node.value)
  }

  function Changes(mods: seq<Mod>): (acts: seq<Act>)
    ensures |acts| == |mods|
  {
    if mods == [] then [] else [Change(mods[0])] + Changes(mods[1..])
  }

  lemma LiveStep(t: Node, w: World, mods: seq<Mod>, i: nat, more: seq<Act>)
    requires i < |mods|
    ensures var e := Edit(t, mods[i], w);
      Live(t, w, Changes(mods[i..]) + more) == Live(e.node, e.w, Changes(mods[i + 1..]) + more)
  {
    hide Edit;
    assert mods[i..][1..] == mods[i + 1..];
    assert Changes(mods[i..]) == [Change(mods[i])] + Changes(mods[i + 1..]);
    assert (Changes(mods[i..]) + more)[1..] == Changes(mods[i + 1..]) + more;
  }

  lemma NoChanges(mods: seq<Mod>, more: seq<Act>)
    ensures Changes(mods[|mods|..]) + more == more
  {}

  class LiveTree {
    var root: TreeNode
    var pending: seq<Request>
    ghost var mods: seq<Mod>
    ghost var news: seq<set<TreeNode>>
    ghost var all: set<TreeNode>

    /** The queued requests mean `mods`; what each brings in is separate from the tree and from
        what the others bring in. */
    ghost predicate Valid()
      reads this, all
    {
      && root in all && root.repr <= all && root.Valid()
      && |mods| == |news| == |pending|
      && (forall i | 0 <= i < |pending| :: news[i] <= all && Means(pending[i], mods[i], news[i]))
      && (forall i | 0 <= i < |pending| :: news[i] !! root.repr)
      && (forall i, j | 0 <= i < j < |pending| :: news[i] !! news[j])
    }

    constructor (root: TreeNode)
      requires root.Valid()
      ensures Valid() && this.root == root && pending == []
    {
      this.root, pending := root, [];
      mods, news, all := [], [], root.repr;
    }

    /** `queue_modification` refuses what could not possibly work and queues the rest. */
    method QueueModification(m: TreeModification) returns (answer: Queued)
      requires Valid()
      requires Complete(m) && m.kind != REMOVE_CHILD ==> m.node.value.Valid() && m.node.value.repr !! all
      modifies this
      ensures Valid() && root == old(root)
      ensures answer == MissingTarget <==> m.target.None?
      ensures answer == MissingNode <==> m.target.Some? && m.kind != REMOVE_CHILD && m.node.None?
      ensures answer != Accepted ==> pending == old(pending) && mods == old(mods)
      ensures answer == Accepted ==>
        && |pending| > 0 && pending[..|pending| - 1] == old(pending) && mods[..|pending| - 1] == old(mods)
        && var r, mod, u, i := pending[|pending| - 1], mods[|pending| - 1], m.target.value, m.index;
           match m.kind
           case REMOVE_CHILD => r == RemoveChild(u, i) && mod == Remove(u, i)
           case INSERT_CHILD => r == InsertChild(u, i, m.node.value) && mod == Insert(u, i, m.node.value.Abs())
           case REPLACE_NODE => r == ReplaceNode(u, m.node.value) && mod == Replace(u, m.node.value.Abs())
           case HOT_SWAP_SUBTREE => r == ReplaceNode(u, m.node.value) && mod == Replace(u, m.node.value.Abs())
    {
      if m.target.None? { return MissingTarget; }
      if m.kind != REMOVE_CHILD && m.node.None? { return MissingNode; }
      answer := Accepted;
      pending := pending + [ToRequest(m)];
      if m.kind == REMOVE_CHILD {
        mods, news := mods + [Remove(m.target.value, m.index)], news + [{}];
      } else {
        var node := m.node.value;
        mods := mods + [if m.kind == INSERT_CHILD then Insert(m.target.value, m.index, node.Abs())
                        else Replace(m.target.value, node.Abs())];
        news, all := news + [node.repr], all + node.repr;
      }
    }

    /** `_apply_modification` on the whole tree: a request that matches nothing changes nothing. */
    method ApplyOne(r: Request, w: Stage, ghost mod: Mod, ghost ns: set<TreeNode>)
      requires Valid() && pending == [] && ns <= all && Means(r, mod, ns) && ns !! root.repr
      modifies this, root.repr, ns, w
      ensures Valid() && pending == [] && all == old(all) && root.repr <= old(root.repr) + ns
      ensures var e := Edit(old(root.Abs()), mod, old(w.Value())); root.Abs() == e.node && w.Value() == e.w
    {
      hide Edit;
      var found, now := Apply(root, r, w, mod, ns);
      root := now;
    }

    /** The queue is emptied. */
    method TakePending() returns (reqs: seq<Request>)
      requires Valid()
      modifies this
      ensures Valid() && pending == [] && root == old(root) && all == old(all) && reqs == old(pending)
      ensures |reqs| == |old(mods)| == |old(news)|
      ensures forall i | 0 <= i < |reqs| ::
        old(news)[i] <= all && Means(reqs[i], old(mods)[i], old(news)[i]) && old(news)[i] !! root.repr
      ensures forall i, j | 0 <= i < j < |reqs| :: old(news)[i] !! old(news)[j]
    {
      hide TreeNode.Valid, Means;
      reqs := pending;
      pending, mods, news := [], [], [];
    }

    /** Applies everything queued so far, in order. */
    method ApplyPending(w: Stage, ghost more: seq<Act>)
      requires Valid()
      modifies this, all, w
      ensures Valid() && pending == [] && all == old(all)
      ensures Live(root.Abs(), w.Value(), more)
        == Live(old(root.Abs()), old(w.Value()), Changes(old(mods)) + more)
    {
      ghost var ms, ns := mods, news;
      var reqs := TakePending();
      hide TreeNode.Valid, Means, Live, Edit, Changes;
      ghost var end := Live(root.Abs(), w.Value(), Changes(ms) + more);
      var i := 0;
      assert ms[0..] == ms;
      while i < |reqs|
        invariant Valid() && pending == [] && all == old(all) && i <= |reqs|
        invariant forall j | i <= j < |reqs| :: Means(reqs[j], ms[j], ns[j])
        invariant forall j | i <= j < |reqs| :: ns[j] !! root.repr
        invariant Live(root.Abs(), w.Value(), Changes(ms[i..]) + more) == end
      {
        LiveStep(root.Abs(), w.Value(), ms, i, more);
        ApplyOne(reqs[i], w, ms[i], ns[i]);
        i := i + 1;
      }
      NoChanges(ms, more);
    }

    /** `tick_once`: what was queued is applied, then the root is ticked. */
    method TickOnce(w: Stage) returns (r: Result)
      requires Valid()
      modifies this, all, w
      ensures Valid() && pending == [] && r == root.status
      ensures Step(root.Abs(), w.Value()) == Live(old(root.Abs()), old(w.Value()), Changes(old(mods)) + [Do(TickOp)])
    {
      hide Live, Tick;
      ApplyPending(w, [Do(TickOp)]);
      LiveTick(root.Abs(), w.Value());
      r := root.ExecuteTick(w);
    }
  }

  lemma LiveTick(t: Node, w: World)
    ensures Live(t, w, [Do(TickOp)]) == Tick(t, w)
  {
    hide Tick;
    var s := Perform(t, w, TickOp);
    assert Live(s.node, s.w, []) == s;
  }
}
