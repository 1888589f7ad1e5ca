/** Leaves: what a tick of one does, and which nodes have only conditions for leaves. */
module LeafNodes {
  import opened Worlds
  import opened Engine

  // ----- what a tick of a leaf does --------------------------------------------------------------

  /** A tick of a leaf, in any state and world, is one call of its user code.  What that returns is
      the node's status, is what the trace records and what the Inspector is told; nothing else of
      the node changes, and exactly the subscribers of the boards it wrote to become dirty. */
  lemma LeafAnswers(t: Node, w: World)
    requires t.info.kind.Leaf?
    ensures var s := Tick(t, w); var u := t.info.uid;
      var hook := match t.info.kind.sort
        case Condition => Plain
        case Action => Plain
        case Stateful => if t.status == Running then Resume else Start;
      var reply := w.env.reply(w.trace, u, hook);
      && s.node.status == reply.result
      && s.w.trace == w.trace + [Called(u, hook, s.node.status)]
      && s.w.notes == w.notes + [Ticked(u, s.node.status)]
      && s.node.info == t.info && s.node.mem == t.mem && s.node.kids == t.kids
      && s.w.subs == w.subs && s.w.env == w.env
      && (forall x :: x in s.w.dirty <==> x in w.dirty || (x in w.subs && w.subs[x] * reply.writes != {}))
  {
    assert TickBody(t, w) == TickLeaf(t, t.info.kind.sort, w);
  }

  /** Whatever the node: the last thing the Inspector is told of a tick is the status it leaves. */
  lemma TickReports(t: Node, w: World)
    ensures var s := Tick(t, w);
      s.w.notes != [] && s.w.notes[|s.w.notes| - 1] == Ticked(t.info.uid, s.node.status)
  {
    hide TickBody;
  }

  // ----- guards ----------------------------------------------------------------------------------

  /** The leaves of a tree, from left to right: conditions, and all nodes without children. */
  function Leaves(t: Node): (leaves: seq<Info>)
    ensures leaves != []
    decreases t, 1
  {
    if t.info.kind == Leaf(Condition) || t.kids == [] then [t.info] else LeavesFrom(t.kids, 0)
  }

  function LeavesFrom(kids: seq<Node>, i: nat): (leaves: seq<Info>)
    requires i <= |kids|
    ensures i < |kids| ==> leaves != []
    decreases kids, |kids| - i
  {
    if i == |kids| then [] else Leaves(kids[i]) + LeavesFrom(kids, i + 1)
  }

  /** Every leaf is a condition. */
  predicate OnlyConditions(t: Node) { forall leaf | leaf in Leaves(t) :: leaf.kind == Leaf(Condition) }

  lemma {:induction false} LeavesOfKids(kids: seq<Node>, i: nat)
    requires i <= |kids|
    ensures forall leaf :: leaf in LeavesFrom(kids, i) <==> exists j | i <= j < |kids| :: leaf in Leaves(kids[j])
    decreases |kids| - i
  {
    hide Leaves;
    if i < |kids| { LeavesOfKids(kids, i + 1); }
  }

  /** A guard is a condition or a wrapper whose leaves are all conditions; so a composite without
      children is none. */
  lemma {:induction false} GuardIff(t: Node)
    ensures IsGuard(t) <==> OnlyConditions(t)
  {
    if t.info.kind == Leaf(Condition) || t.kids == [] {
      assert Leaves(t) == [t.info];
    } else {
      forall k | k in t.kids ensures IsGuard(k) <==> OnlyConditions(k) { GuardIff(k); }
      WrapperLeaves(t);
      hide OnlyConditions;
    }
  }

  lemma WrapperLeaves(t: Node)
    requires t.info.kind != Leaf(Condition) && t.kids != []
    ensures OnlyConditions(t) <==> forall k | k in t.kids :: OnlyConditions(k)
  {
    LeavesOfKids(t.kids, 0);
    assert Leaves(t) == LeavesFrom(t.kids, 0);
    hide Leaves, LeavesFrom;
    if !OnlyConditions(t) {
      var leaf :| leaf in Leaves(t) && leaf.kind != Leaf(Condition);
      var j :| 0 <= j < |t.kids| && leaf in Leaves(t.kids[j]);
      assert t.kids[j] in t.kids && !OnlyConditions(t.kids[j]);
    }
  }
}
