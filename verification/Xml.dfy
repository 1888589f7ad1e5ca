/** Building a tree from an XML document: subtree references are expanded with a stack that
    catches cycles. */
module Xml {
  import opened Worlds

  // ----- documents and what is built from them -------------------------------------------------

  /** `{key}` or a literal. */
  datatype Attr = Ref(key: string) | Lit(text: string)

  datatype Tag =
    | Comment
    | SubTreeTag
    | GenericTag
    | ControlTag(name: string)
    | DecoratorTag(name: string)
    | OtherTag(name: string)

  /** `attrs` are the attributes other than `name`, `ID` and `type`. */
  datatype Element = Element(
    tag: Tag,
    name: Option<string>,
    id: Option<string>,
    typ: Option<string>,
    attrs: map<string, Attr>,
    kids: seq<Element>)

  /** What the factory can create, and which attributes a node type refuses. */
  datatype Factory = Factory(registered: set<string>, refuses: (string, map<string, Attr>) -> bool)

  /** The content of each `<Tree ID="...">`. */
  type Trees = map<string, seq<Element>>

  datatype Built =
    | LeafNode(typ: string, name: string, attrs: map<string, Attr>)
    | ControlNode(tag: string, name: string, attrs: map<string, Attr>, kids: seq<Built>)
    | DecoratorNode(tag: string, name: string, attrs: map<string, Attr>, child: Built)
    | SubTreeNode(name: string, remapping: map<string, string>, presets: map<string, string>, child: Built)

  datatype Error =
    | MissingType
    | MissingId
    | Undefined(id: string)
    | Cyclic(path: seq<string>)
    | NotOneRoot(id: string)
    | NotOneChild(tag: string)
    | UnknownTag
    | NotRegistered(typ: string)
    | Refused(typ: string)
    | DuplicateTree(id: string)
    | NoTree

  datatype Outcome<+T> = Ok(value: T) | Err(error: Error)

  // ----- expansion --------------------------------------------------------------------------------

  predicate Given(s: Option<string>) { s.Some? && s.value != "" }

  function Or(s: Option<string>, default_: string): string { if s.Some? then s.value else default_ }

  /** The children that are not comments. */
  function Reals(kids: seq<Element>): (r: seq<Element>)
    ensures forall e | e in r :: e in kids && e.tag != Comment
  {
    if kids == [] then [] else (if kids[0].tag == Comment then [] else [kids[0]]) + Reals(kids[1..])
  }

  /** The only child, if there is exactly one. */
  function Only(kids: seq<Element>): (r: Option<Element>)
    ensures r.Some? ==> r.value in kids
  {
    var reals := Reals(kids);
    if |reals| == 1 then Some(reals[0]) else None
  }

  function Remapping(attrs: map<string, Attr>): map<string, string> {
    map k | k in attrs && attrs[k].Ref? :: attrs[k].key
  }

  function Presets(attrs: map<string, Attr>): map<string, string> {
    map k | k in attrs && attrs[k].Lit? :: attrs[k].text
  }

  function Leaf(f: Factory, typ: string, name: string, attrs: map<string, Attr>): Outcome<Built> {
    if typ !in f.registered then Err(NotRegistered(typ))
    else if f.refuses(typ, attrs) then Err(Refused(typ))
    else Ok(LeafNode(typ, name, attrs))
  }

  /** The node type a leaf element stands for: its ID, else its tag. */
  function LeafType(f: Factory, el: Element, tag: string): Option<string> {
    if Or(el.id, tag) in f.registered then Some(Or(el.id, tag))
    else if tag in f.registered then Some(tag)
    else None
  }

  function Names(stack: seq<string>): set<string> { set x | x in stack }

  /** `_build_node` and `_build_subtree`; `stack` holds the subtrees being expanded. */
  function Build(f: Factory, trees: Trees, el: Element, stack: seq<string>): Outcome<Built>
    decreases trees.Keys - Names(stack), el
  {
    match el.tag
    case Comment => Err(UnknownTag)
    case SubTreeTag =>
      if !Given(el.id) then Err(MissingId)
      else
        var id := el.id.value;
        if id !in trees then Err(Undefined(id))
        else if id in stack then Err(Cyclic(stack + [id]))
        else if Only(trees[id]).None? then Err(NotOneRoot(id))
        else
          assert id in trees.Keys - Names(stack) && id !in trees.Keys - Names(stack + [id]);
          assert trees.Keys - Names(stack + [id]) <= trees.Keys - Names(stack);
          var child := Build(f, trees, Only(trees[id]).value, stack + [id]);
          if child.Err? then child
          else Ok(SubTreeNode(Or(el.name, id), Remapping(el.attrs), Presets(el.attrs), child.value))
    case GenericTag =>
      if !Given(el.typ) then Err(MissingType) else Leaf(f, el.typ.value, Or(el.name, "Node"), el.attrs)
    case ControlTag(tag) =>
      var kids := BuildAll(f, trees, el.kids, stack);
      if kids.Err? then Err(kids.error)
      else if f.refuses(tag, el.attrs) then Err(Refused(tag))
      else Ok(ControlNode(tag, Or(el.name, tag), el.attrs, kids.value))
    case DecoratorTag(tag) =>
      if Only(el.kids).None? then Err(NotOneChild(tag))
      else
        var child := Build(f, trees, Only(el.kids).value, stack);
        if child.Err? then child
        else if f.refuses(tag, el.attrs) then Err(Refused(tag))
        else Ok(DecoratorNode(tag, Or(el.name, tag), el.attrs, child.value))
    case OtherTag(tag) =>
      var typ := LeafType(f, el, tag);
      if typ.None? then Err(UnknownTag) else Leaf(f, typ.value, Or(el.name, tag), el.attrs)
  }

  /** The children in order, comments left out; the first error wins. */
  function BuildAll(f: Factory, trees: Trees, kids: seq<Element>, stack: seq<string>): Outcome<seq<Built>>
    decreases trees.Keys - Names(stack), kids
  {
    if kids == [] then Ok([])
    else if kids[0].tag == Comment then BuildAll(f, trees, kids[1..], stack)
    else
      var first := Build(f, trees, kids[0], stack);
      if first.Err? then Err(first.error)
      else
        var rest := BuildAll(f, trees, kids[1..], stack);
        if rest.Err? then rest else Ok([first.value] + rest.value)
  }

  // ----- what is built, element by element -------------------------------------------------------

  /** The only child that is no comment. */
  ghost predicate OnlyReal(kids: seq<Element>, e: Element) {
    exists i | 0 <= i < |kids| :: kids[i] == e && e.tag != Comment && CommentsBut(kids, i)
  }

  predicate CommentsBut(kids: seq<Element>, i: nat) {
    forall j | 0 <= j < |kids| && j != i :: kids[j].tag == Comment
  }

  lemma OnlyIsReal(kids: seq<Element>, e: Element)
    ensures Only(kids) == Some(e) <==> OnlyReal(kids, e)
  {
    if Only(kids) == Some(e) { var i := FindReal(kids); }
    if i :| 0 <= i < |kids| && kids[i] == e && e.tag != Comment && CommentsBut(kids, i) { IsReal(kids, i); }
  }

  lemma {:induction false} FindReal(kids: seq<Element>) returns (i: nat)
    requires |Reals(kids)| == 1
    ensures i < |kids| && kids[i] == Reals(kids)[0] && kids[i].tag != Comment && CommentsBut(kids, i)
  {
    if kids[0].tag == Comment {
      i := FindReal(kids[1..]);
      i := i + 1;
    } else {
      i := 0;
      NoReals(kids[1..]);
    }
  }

  lemma {:induction false} IsReal(kids: seq<Element>, i: nat)
    requires i < |kids| && kids[i].tag != Comment && CommentsBut(kids, i)
    ensures Reals(kids) == [kids[i]]
  {
    if i > 0 {
      assert CommentsBut(kids[1..], i - 1);
      IsReal(kids[1..], i - 1);
    } else {
      NoReals(kids[1..]);
    }
  }

  lemma {:induction false} NoReals(kids: seq<Element>)
    ensures Reals(kids) == [] <==> forall j | 0 <= j < |kids| :: kids[j].tag == Comment
  {
    if kids != [] { NoReals(kids[1..]); }
  }

  /** A SubTree element.  It needs an ID that is defined and not being expanded.  The node is called
      like the element or, without a name, like the ID; it redirects exactly the ports whose attribute
      is a reference, each to the key referred to, and presets exactly those whose attribute is a
      literal; below it is the tree's only element that is no comment. */
  ghost predicate SubTreeBuilt(f: Factory, trees: Trees, el: Element, stack: seq<string>, r: Outcome<Built>)
  {
    if el.id == None || el.id == Some("") then r == Err(MissingId)
    else
      var id := el.id.value;
      if id !in trees then r == Err(Undefined(id))
      else if id in stack then r == Err(Cyclic(stack + [id]))
      else r.Ok? ==>
        && r.value.SubTreeNode? && r.value.name == (if el.name.Some? then el.name.value else id)
        && (forall k :: k in r.value.remapping <==> k in el.attrs && exists key :: el.attrs[k] == Ref(key))
        && (forall k, key | k in el.attrs && el.attrs[k] == Ref(key) :: r.value.remapping[k] == key)
        && (forall k :: k in r.value.presets <==> k in el.attrs && exists text :: el.attrs[k] == Lit(text))
        && (forall k, text | k in el.attrs && el.attrs[k] == Lit(text) :: r.value.presets[k] == text)
        && exists root :: OnlyReal(trees[id], root) && Build(f, trees, root, stack + [id]) == Ok(r.value.child)
  }

  lemma SubTreeIsBuilt(f: Factory, trees: Trees, el: Element, stack: seq<string>)
    requires el.tag == SubTreeTag
    ensures SubTreeBuilt(f, trees, el, stack, Build(f, trees, el, stack))
  {
    hide Only, OnlyReal;
    var r := Build(f, trees, el, stack);
    if r.Ok? {
      var root := Only(trees[el.id.value]).value;
      OnlyIsReal(trees[el.id.value], root);
      assert Build(f, trees, root, stack + [el.id.value]) == Ok(r.value.child);
    }
  }

  /** A leaf element stands for the node type named by its ID, if that is registered, else for the one
      named by its tag; a generic one for the type it names.  The node gets the element's name, or
      else its tag, and its attributes. */
  lemma LeafIsBuilt(f: Factory, trees: Trees, el: Element, stack: seq<string>)
    requires el.tag.OtherTag? || el.tag == GenericTag
    ensures var r := Build(f, trees, el, stack);
      if el.tag.OtherTag? then
        var tag := el.tag.name;
        var name := if el.name.Some? then el.name.value else tag;
        if el.id.Some? && el.id.value in f.registered then
          r == if f.refuses(el.id.value, el.attrs) then Err(Refused(el.id.value))
               else Ok(LeafNode(el.id.value, name, el.attrs))
        else if tag in f.registered then
          r == if f.refuses(tag, el.attrs) then Err(Refused(tag)) else Ok(LeafNode(tag, name, el.attrs))
        else r == Err(UnknownTag)
      else if el.typ == None || el.typ == Some("") then r == Err(MissingType)
      else if el.typ.value !in f.registered then r == Err(NotRegistered(el.typ.value))
      else if f.refuses(el.typ.value, el.attrs) then r == Err(Refused(el.typ.value))
      else r == Ok(LeafNode(el.typ.value, if el.name.Some? then el.name.value else "Node", el.attrs))
  {}

  /** A control element keeps its name, or else its tag, its attributes and its children without the
      comments, in order; a decorator element needs exactly one child that is no comment. */
  lemma CompositeIsBuilt(f: Factory, trees: Trees, el: Element, stack: seq<string>)
    requires el.tag.ControlTag? || el.tag.DecoratorTag?
    ensures var r := Build(f, trees, el, stack); var name := if el.name.Some? then el.name.value else el.tag.name;
      && (r.Ok? ==> !f.refuses(el.tag.name, el.attrs))
      && (r.Ok? && el.tag.ControlTag? ==>
            && r.value.ControlNode? && r.value.tag == el.tag.name && r.value.name == name && r.value.attrs == el.attrs
            && |r.value.kids| == RealsBefore(el.kids, |el.kids|)
            && forall i | 0 <= i < |el.kids| && el.kids[i].tag != Comment ::
                 && RealsBefore(el.kids, i) < |r.value.kids|
                 && Build(f, trees, el.kids[i], stack) == Ok(r.value.kids[RealsBefore(el.kids, i)]))
      && (r.Ok? && el.tag.DecoratorTag? ==>
            && r.value.DecoratorNode? && r.value.tag == el.tag.name && r.value.name == name && r.value.attrs == el.attrs
            && exists e :: OnlyReal(el.kids, e) && Build(f, trees, e, stack) == Ok(r.value.child))
      && (el.tag.DecoratorTag? && (forall e :: !OnlyReal(el.kids, e)) ==> r == Err(NotOneChild(el.tag.name)))
  {
    hide Only, OnlyReal, BuildAll;
    var r := Build(f, trees, el, stack);
    if el.tag.DecoratorTag? {
      if Only(el.kids).Some? { OnlyIsReal(el.kids, Only(el.kids).value); }
    } else if r.Ok? {
      BuiltInOrder(f, trees, el.kids, stack, |el.kids|);
      forall i | 0 <= i < |el.kids| && el.kids[i].tag != Comment
        ensures RealsBefore(el.kids, i) < |r.value.kids|
             && Build(f, trees, el.kids[i], stack) == Ok(r.value.kids[RealsBefore(el.kids, i)])
      {
        BuiltInOrder(f, trees, el.kids, stack, i);
      }
    }
  }

  /** How many of the first `i` children are no comments. */
  function RealsBefore(kids: seq<Element>, i: nat): nat
    requires i <= |kids|
  {
    if i == 0 then 0 else RealsBefore(kids, i - 1) + if kids[i - 1].tag == Comment then 0 else 1
  }

  lemma {:induction false} RealsBeforeTail(kids: seq<Element>, i: nat)
    requires i < |kids|
    ensures RealsBefore(kids, i + 1) == RealsBefore(kids[1..], i) + if kids[0].tag == Comment then 0 else 1
  {
    if i > 0 { RealsBeforeTail(kids, i - 1); }
  }

  lemma {:induction false} BuiltInOrder(f: Factory, trees: Trees, kids: seq<Element>, stack: seq<string>, i: nat)
    requires i <= |kids| && BuildAll(f, trees, kids, stack).Ok?
    ensures var ns := BuildAll(f, trees, kids, stack).value;
      if i == |kids| then |ns| == RealsBefore(kids, i)
      else kids[i].tag != Comment ==>
        RealsBefore(kids, i) < |ns| && Build(f, trees, kids[i], stack) == Ok(ns[RealsBefore(kids, i)])
  {
    hide Build;
    if i > 0 {
      RealsBeforeTail(kids, i - 1);
      BuiltInOrder(f, trees, kids[1..], stack, i - 1);
    }
  }

  // ----- what a document means ----------------------------------------------------------------------

  /** `n` is the element with every reference replaced by the tree it names.  No stack is involved. */
  ghost predicate Unfolds(f: Factory, trees: Trees, el: Element, n: Built)
    decreases n
  {
    match el.tag
    case Comment => false
    case SubTreeTag =>
      && Given(el.id) && el.id.value in trees && Only(trees[el.id.value]).Some? && n.SubTreeNode?
      && n.name == Or(el.name, el.id.value) && n.remapping == Remapping(el.attrs) && n.presets == Presets(el.attrs)
      && Unfolds(f, trees, Only(trees[el.id.value]).value, n.child)
    case GenericTag => Given(el.typ) && Leaf(f, el.typ.value, Or(el.name, "Node"), el.attrs) == Ok(n)
    case ControlTag(tag) =>
      && n.ControlNode? && n.tag == tag && n.name == Or(el.name, tag) && n.attrs == el.attrs
      && !f.refuses(tag, el.attrs)
      && |n.kids| == |Reals(el.kids)| && forall i | 0 <= i < |n.kids| :: Unfolds(f, trees, Reals(el.kids)[i], n.kids[i])
    case DecoratorTag(tag) =>
      && n.DecoratorNode? && n.tag == tag && n.name == Or(el.name, tag) && n.attrs == el.attrs
      && !f.refuses(tag, el.attrs)
      && Only(el.kids).Some? && Unfolds(f, trees, Only(el.kids).value, n.child)
    case OtherTag(tag) =>
      LeafType(f, el, tag).Some? && Leaf(f, LeafType(f, el, tag).value, Or(el.name, tag), el.attrs) == Ok(n)
  }

  ghost predicate UnfoldAll(f: Factory, trees: Trees, els: seq<Element>, ns: seq<Built>) {
    |ns| == |els| && forall i | 0 <= i < |ns| :: Unfolds(f, trees, els[i], ns[i])
  }

  ghost function Size(n: Built): nat {
    match n
    case LeafNode(_, _, _) => 1
    case ControlNode(_, _, _, kids) => 1 + Sizes(kids)
    case DecoratorNode(_, _, _, child) => 1 + Size(child)
    case SubTreeNode(_, _, _, child) => 1 + Size(child)
  }

  ghost function Sizes(kids: seq<Built>): nat {
    if kids == [] then 0 else Size(kids[0]) + Sizes(kids[1..])
  }

  lemma {:induction false} KidSize(kids: seq<Built>, i: nat)
    requires i < |kids|
    ensures Size(kids[i]) <= Sizes(kids)
  {
    if i > 0 { KidSize(kids[1..], i - 1); }
  }

  /** There is at most one unfolding. */
  lemma {:induction false} UnfoldingIsUnique(f: Factory, trees: Trees, el: Element, a: Built, b: Built)
    requires Unfolds(f, trees, el, a) && Unfolds(f, trees, el, b)
    ensures a == b
    decreases a
  {
    match el.tag {
      case SubTreeTag => UnfoldingIsUnique(f, trees, Only(trees[el.id.value]).value, a.child, b.child);
      case DecoratorTag(_) => UnfoldingIsUnique(f, trees, Only(el.kids).value, a.child, b.child);
      case ControlTag(_) =>
        forall i | 0 <= i < |a.kids| ensures a.kids[i] == b.kids[i] {
          UnfoldingIsUnique(f, trees, Reals(el.kids)[i], a.kids[i], b.kids[i]);
        }
        assert a.kids == b.kids;
      case _ =>
    }
  }

  // ----- the expansion is the unfolding -----------------------------------------------------------------

  lemma {:induction false} BuildSound(f: Factory, trees: Trees, el: Element, stack: seq<string>)
    requires Build(f, trees, el, stack).Ok?
    ensures Unfolds(f, trees, el, Build(f, trees, el, stack).value)
    decreases trees.Keys - Names(stack), el
  {
    match el.tag {
      case SubTreeTag =>
        var id := el.id.value;
        assert id in trees.Keys - Names(stack) && id !in trees.Keys - Names(stack + [id]);
        assert trees.Keys - Names(stack + [id]) <= trees.Keys - Names(stack);
        BuildSound(f, trees, Only(trees[id]).value, stack + [id]);
      case DecoratorTag(_) => BuildSound(f, trees, Only(el.kids).value, stack);
      case ControlTag(_) => BuildAllSound(f, trees, el.kids, stack);
      case _ =>
    }
  }

  lemma {:induction false} BuildAllSound(f: Factory, trees: Trees, kids: seq<Element>, stack: seq<string>)
    requires BuildAll(f, trees, kids, stack).Ok?
    ensures UnfoldAll(f, trees, Reals(kids), BuildAll(f, trees, kids, stack).value)
    decreases trees.Keys - Names(stack), kids
  {
    hide Build, Unfolds;
    if kids != [] {
      if kids[0].tag != Comment { BuildSound(f, trees, kids[0], stack); }
      BuildAllSound(f, trees, kids[1..], stack);
    }
  }

  /** Every subtree on the stack has an unfolding no smaller than `size`. */
  ghost predicate Above(f: Factory, trees: Trees, stack: seq<string>, size: nat) {
    forall x | x in stack :: x in trees && Only(trees[x]).Some?
      && exists m :: Unfolds(f, trees, Only(trees[x]).value, m) && Size(m) >= size
  }

  lemma {:induction false} BuildComplete(f: Factory, trees: Trees, el: Element, n: Built, stack: seq<string>)
    requires Unfolds(f, trees, el, n) && Above(f, trees, stack, Size(n))
    ensures Build(f, trees, el, stack) == Ok(n)
    decreases n
  {
    match el.tag {
      case SubTreeTag =>
        var id := el.id.value;
        var root := Only(trees[id]).value;
        if id in stack {
          var m :| Unfolds(f, trees, root, m) && Size(m) >= Size(n);
          UnfoldingIsUnique(f, trees, root, m, n.child);
          assert false;
        }
        assert Above(f, trees, stack + [id], Size(n.child));
        BuildComplete(f, trees, root, n.child, stack + [id]);
      case DecoratorTag(_) =>
        assert Above(f, trees, stack, Size(n.child));
        BuildComplete(f, trees, Only(el.kids).value, n.child, stack);
      case ControlTag(_) => BuildAllComplete(f, trees, el.kids, n.kids, stack, Size(n));
      case _ =>
    }
  }

  lemma {:induction false} BuildAllComplete(f: Factory, trees: Trees, kids: seq<Element>, ns: seq<Built>,
        stack: seq<string>, size: nat)
    requires UnfoldAll(f, trees, Reals(kids), ns) && Above(f, trees, stack, size) && Sizes(ns) <= size
    ensures BuildAll(f, trees, kids, stack) == Ok(ns)
    decreases ns, kids
  {
    hide Unfolds;
    if kids != [] {
      if kids[0].tag == Comment {
        BuildAllComplete(f, trees, kids[1..], ns, stack, size);
      } else {
        assert Reals(kids)[0] == kids[0] && Reals(kids)[1..] == Reals(kids[1..]);
        assert Above(f, trees, stack, Size(ns[0]));
        BuildComplete(f, trees, kids[0], ns[0], stack);
        BuildAllComplete(f, trees, kids[1..], ns[1..], stack, size);
        assert [ns[0]] + ns[1..] == ns;
      }
    }
  }

  /** The parser succeeds exactly when the references can be unfolded, and then with the unfolding. */
  lemma ExpansionIsUnfolding(f: Factory, trees: Trees, el: Element, n: Built)
    ensures Build(f, trees, el, []) == Ok(n) <==> Unfolds(f, trees, el, n)
  {
    if Build(f, trees, el, []) == Ok(n) { BuildSound(f, trees, el, []); }
    if Unfolds(f, trees, el, n) { BuildComplete(f, trees, el, n, []); }
  }

  // ----- cycles ---------------------------------------------------------------------------------------------

  /** The subtrees an element refers to. */
  ghost function Refs(el: Element): set<string> {
    match el.tag
    case SubTreeTag => if el.id.Some? then {el.id.value} else {}
    case ControlTag(_) => RefsAll(el.kids)
    case DecoratorTag(_) => if Only(el.kids).Some? then Refs(Only(el.kids).value) else {}
    case _ => {}
  }

  ghost function RefsAll(kids: seq<Element>): set<string> {
    if kids == [] then {}
    else (if kids[0].tag == Comment then {} else Refs(kids[0])) + RefsAll(kids[1..])
  }

  /** Each subtree on the path is referred to by the one before it, the first by `el`. */
  ghost predicate IsPath(trees: Trees, el: Element, path: seq<string>)
    decreases |path|
  {
    path == [] ||
    (path[0] in Refs(el) && path[0] in trees && Only(trees[path[0]]).Some?
     && IsPath(trees, Only(trees[path[0]]).value, path[1..]))
  }

  ghost predicate HasRepeat(path: seq<string>) { exists i, j :: 0 <= i < j < |path| && path[i] == path[j] }

  ghost predicate CycleReachable(trees: Trees, el: Element) {
    exists path :: IsPath(trees, el, path) && HasRepeat(path)
  }

  lemma {:induction false} RefsUnfold(f: Factory, trees: Trees, el: Element, n: Built, x: string) returns (m: Built)
    requires Unfolds(f, trees, el, n) && x in Refs(el)
    ensures x in trees && Only(trees[x]).Some? && Unfolds(f, trees, Only(trees[x]).value, m) && Size(m) < Size(n)
    decreases el
  {
    match el.tag {
      case SubTreeTag => m := n.child;
      case DecoratorTag(_) => m := RefsUnfold(f, trees, Only(el.kids).value, n.child, x);
      case ControlTag(_) => m := RefsAllUnfold(f, trees, el.kids, n.kids, x);
    }
  }

  lemma {:induction false} RefsAllUnfold(f: Factory, trees: Trees, kids: seq<Element>, ns: seq<Built>,
        x: string) returns (m: Built)
    requires UnfoldAll(f, trees, Reals(kids), ns) && x in RefsAll(kids)
    ensures x in trees && Only(trees[x]).Some? && Unfolds(f, trees, Only(trees[x]).value, m) && Size(m) <= Sizes(ns)
    decreases kids
  {
    hide Unfolds, Refs;
    if kids[0].tag == Comment {
      m := RefsAllUnfold(f, trees, kids[1..], ns, x);
    } else {
      assert Reals(kids)[0] == kids[0] && Reals(kids)[1..] == Reals(kids[1..]);
      if x in Refs(kids[0]) {
        m := RefsUnfold(f, trees, kids[0], ns[0], x);
      } else {
        m := RefsAllUnfold(f, trees, kids[1..], ns[1..], x);
      }
    }
  }

  /** Along a path the unfoldings get smaller. */
  lemma {:induction false} PathShrinks(f: Factory, trees: Trees, el: Element, n: Built, path: seq<string>,
        i: nat) returns (m: Built)
    requires Unfolds(f, trees, el, n) && IsPath(trees, el, path) && i < |path|
    ensures path[i] in trees && Only(trees[path[i]]).Some?
    ensures Unfolds(f, trees, Only(trees[path[i]]).value, m) && Size(m) < Size(n)
    decreases i
  {
    m := RefsUnfold(f, trees, el, n, path[0]);
    if i > 0 { m := PathShrinks(f, trees, Only(trees[path[0]]).value, m, path[1..], i - 1); }
  }

  lemma {:induction false} PathTail(trees: Trees, el: Element, path: seq<string>, i: nat)
    requires IsPath(trees, el, path) && i < |path|
    ensures path[i] in trees && Only(trees[path[i]]).Some?
    ensures IsPath(trees, Only(trees[path[i]]).value, path[i + 1..])
    decreases i
  {
    if i > 0 {
      PathTail(trees, Only(trees[path[0]]).value, path[1..], i - 1);
      assert path[1..][i..] == path[i + 1..];
    }
  }

  lemma NoRepeat(f: Factory, trees: Trees, el: Element, n: Built, path: seq<string>, i: nat, j: nat)
    requires Unfolds(f, trees, el, n) && IsPath(trees, el, path) && i < j < |path|
    ensures path[i] != path[j]
  {
    hide Unfolds, IsPath;
    var m := PathShrinks(f, trees, el, n, path, i);
    PathTail(trees, el, path, i);
    var root := Only(trees[path[i]]).value;
    var k := PathShrinks(f, trees, root, m, path[i + 1..], j - i - 1);
    if path[i] == path[j] { UnfoldingIsUnique(f, trees, root, m, k); }
  }

  /** What can be unfolded has no cycle. */
  lemma UnfoldingIsAcyclic(f: Factory, trees: Trees, el: Element, n: Built)
    requires Unfolds(f, trees, el, n)
    ensures !CycleReachable(trees, el)
  {
    hide Unfolds, IsPath;
    forall path, i: nat, j: nat | IsPath(trees, el, path) && i < j < |path| ensures path[i] != path[j] {
      NoRepeat(f, trees, el, n, path, i, j);
    }
  }

  /** The last name has occurred before. */
  ghost predicate Closes(names: seq<string>) {
    names != [] && names[|names| - 1] in names[..|names| - 1]
  }

  lemma OneMoreName(trees: Trees, stack: seq<string>, id: string)
    requires id in trees && id !in stack
    ensures trees.Keys - Names(stack + [id]) < trees.Keys - Names(stack)
  {
    assert id in trees.Keys - Names(stack) && id !in trees.Keys - Names(stack + [id]);
    assert trees.Keys - Names(stack + [id]) <= trees.Keys - Names(stack);
  }

  /** The cycle that is reported is one: the stack, then a path from `el` back into it. */
  lemma {:induction false} CycleIsReal(f: Factory, trees: Trees, el: Element,
        stack: seq<string>) returns (path: seq<string>)
    requires Build(f, trees, el, stack).Err? && Build(f, trees, el, stack).error.Cyclic?
    ensures Build(f, trees, el, stack).error.path == stack + path && path != []
    ensures Closes(stack + path)
    ensures path[|path| - 1] in trees && (Only(trees[path[|path| - 1]]).Some? ==> IsPath(trees, el, path))
    decreases trees.Keys - Names(stack), el
  {
    hide Proper, Unfolds, HasRepeat, IsPath, BuildAll, RefsAll, Names, Closes;
    match el.tag {
      case SubTreeTag =>
        var id := el.id.value;
        if id in stack {
          path := [id];
          BackIntoTheStack(trees, el, stack, id);
        } else {
          OneMoreName(trees, stack, id);
          var rest := CycleIsReal(f, trees, Only(trees[id]).value, stack + [id]);
          path := [id] + rest;
          OneStepEarlier(trees, el, stack, id, rest);
        }
      case DecoratorTag(_) =>
        path := CycleIsReal(f, trees, Only(el.kids).value, stack);
        SameRefs(trees, Only(el.kids).value, el, path);
      case ControlTag(_) => path := CycleInAll(f, trees, el.kids, stack, el);
    }
  }

  lemma BackIntoTheStack(trees: Trees, el: Element, stack: seq<string>, id: string)
    requires el.tag == SubTreeTag && el.id == Some(id) && id in stack && id in trees
    ensures Closes(stack + [id])
    ensures Only(trees[id]).Some? ==> IsPath(trees, el, [id])
  {
    assert (stack + [id])[..|stack|] == stack;
  }

  lemma OneStepEarlier(trees: Trees, el: Element, stack: seq<string>, id: string, rest: seq<string>)
    requires el.tag == SubTreeTag && el.id == Some(id) && id in trees && Only(trees[id]).Some? && rest != []
    ensures stack + ([id] + rest) == (stack + [id]) + rest
    ensures IsPath(trees, Only(trees[id]).value, rest) ==> IsPath(trees, el, [id] + rest)
  {
    assert ([id] + rest)[1..] == rest;
  }

  /** A path from `a` is a path from an element that refers to at least as much. */
  lemma SameRefs(trees: Trees, a: Element, b: Element, path: seq<string>)
    requires Refs(a) <= Refs(b)
    ensures IsPath(trees, a, path) ==> IsPath(trees, b, path)
  {}

  lemma {:induction false} CycleInAll(f: Factory, trees: Trees, kids: seq<Element>, stack: seq<string>,
        el: Element) returns (path: seq<string>)
    requires BuildAll(f, trees, kids, stack).Err? && BuildAll(f, trees, kids, stack).error.Cyclic?
    requires RefsAll(kids) <= Refs(el)
    ensures BuildAll(f, trees, kids, stack).error.path == stack + path && path != []
    ensures Closes(stack + path)
    ensures path[|path| - 1] in trees && (Only(trees[path[|path| - 1]]).Some? ==> IsPath(trees, el, path))
    decreases trees.Keys - Names(stack), kids
  {
    hide Build, Refs, IsPath;
    if kids[0].tag != Comment && Build(f, trees, kids[0], stack).Err? {
      path := CycleIsReal(f, trees, kids[0], stack);
      SameRefs(trees, kids[0], el, path);
    } else {
      path := CycleInAll(f, trees, kids[1..], stack, el);
    }
  }

  /** Nothing is wrong with an element but, perhaps, a cycle. */
  ghost predicate Proper(f: Factory, trees: Trees, el: Element) {
    match el.tag
    case Comment => false
    case SubTreeTag => Given(el.id) && el.id.value in trees
    case GenericTag => Given(el.typ) && Leaf(f, el.typ.value, Or(el.name, "Node"), el.attrs).Ok?
    case ControlTag(tag) =>
      && !f.refuses(tag, el.attrs)
      && forall i | 0 <= i < |el.kids| && el.kids[i].tag != Comment :: Proper(f, trees, el.kids[i])
    case DecoratorTag(tag) =>
      !f.refuses(tag, el.attrs) && Only(el.kids).Some? && Proper(f, trees, Only(el.kids).value)
    case OtherTag(tag) =>
      LeafType(f, el, tag).Some? && Leaf(f, LeafType(f, el, tag).value, Or(el.name, tag), el.attrs).Ok?
  }

  ghost predicate ProperTrees(f: Factory, trees: Trees) {
    forall id | id in trees :: Only(trees[id]).Some? && Proper(f, trees, Only(trees[id]).value)
  }

  lemma {:induction false} OnlyCyclesAreLeft(f: Factory, trees: Trees, el: Element, stack: seq<string>)
    requires Proper(f, trees, el) && ProperTrees(f, trees)
    ensures Build(f, trees, el, stack).Ok? || Build(f, trees, el, stack).error.Cyclic?
    decreases trees.Keys - Names(stack), el
  {
    match el.tag {
      case SubTreeTag =>
        var id := el.id.value;
        if id !in stack {
          OneMoreName(trees, stack, id);
          OnlyCyclesAreLeft(f, trees, Only(trees[id]).value, stack + [id]);
        }
      case DecoratorTag(_) => OnlyCyclesAreLeft(f, trees, Only(el.kids).value, stack);
      case ControlTag(_) => OnlyCyclesInAll(f, trees, el.kids, stack);
      case _ =>
    }
  }

  lemma {:induction false} OnlyCyclesInAll(f: Factory, trees: Trees, kids: seq<Element>, stack: seq<string>)
    requires ProperTrees(f, trees) && forall i | 0 <= i < |kids| && kids[i].tag != Comment :: Proper(f, trees, kids[i])
    ensures BuildAll(f, trees, kids, stack).Ok? || BuildAll(f, trees, kids, stack).error.Cyclic?
    decreases trees.Keys - Names(stack), kids
  {
    hide Build, Proper;
    if kids != [] {
      if kids[0].tag != Comment { OnlyCyclesAreLeft(f, trees, kids[0], stack); }
      OnlyCyclesInAll(f, trees, kids[1..], stack);
    }
  }

  /** In a document with nothing else wrong, the parser reports a cycle exactly when one can be
      reached, and the path it reports is such a cycle. */
  lemma CyclicIffCycle(f: Factory, trees: Trees, el: Element)
    requires Proper(f, trees, el) && ProperTrees(f, trees)
    ensures var r := Build(f, trees, el, []);
      && (r.Err? <==> CycleReachable(trees, el))
      && (r.Err? ==> r.error.Cyclic? && IsPath(trees, el, r.error.path) && HasRepeat(r.error.path))
  {
    hide *;
    var r := Build(f, trees, el, []);
    OnlyCyclesAreLeft(f, trees, el, []);
    if r.Ok? {
      BuildSound(f, trees, el, []);
      UnfoldingIsAcyclic(f, trees, el, r.value);
    } else {
      ErrorIsACycle(f, trees, el);
    }
  }

  lemma ErrorIsACycle(f: Factory, trees: Trees, el: Element)
    requires ProperTrees(f, trees) && Build(f, trees, el, []).Err? && Build(f, trees, el, []).error.Cyclic?
    ensures var path := Build(f, trees, el, []).error.path;
      IsPath(trees, el, path) && HasRepeat(path) && CycleReachable(trees, el)
  {
    hide Build, Unfolds, Proper, IsPath;
    var path := CycleIsReal(f, trees, el, []);
    assert [] + path == path;
    LastRepeats(path);
  }

  lemma LastRepeats(path: seq<string>)
    requires Closes(path)
    ensures HasRepeat(path)
  {
    var n := |path| - 1;
    var i :| 0 <= i < n && path[..n][i] == path[n];
    assert path[i] == path[n];
  }

  // ----- documents ---------------------------------------------------------------------------------------------

  /** A `<Tree>` element: its ID, if it has one, and its content. */
  datatype TreeDef = TreeDef(id: Option<string>, kids: seq<Element>)

  datatype Document = Document(trees: seq<TreeDef>, main: Option<string>)

  /** The IDs that are defined, in order of the document; trees without an ID are passed over. */
  function Ids(defs: seq<TreeDef>): (ids: seq<string>)
  {
    if defs == [] then []
    else Ids(defs[..|defs| - 1]) + if Given(defs[|defs| - 1].id) then [defs[|defs| - 1].id.value] else []
  }

  /** How many of the first `i` trees have an ID. */
  function NamedBefore(defs: seq<TreeDef>, i: nat): nat
    requires i <= |defs|
  {
    if i == 0 then 0
    else NamedBefore(defs, i - 1) + if defs[i - 1].id.Some? && defs[i - 1].id.value != "" then 1 else 0
  }

  /** The IDs are those of the trees that have one, in the order of the document. */
  lemma {:induction false} IdsInOrder(defs: seq<TreeDef>, i: nat)
    requires i < |defs|
    ensures |Ids(defs)| == NamedBefore(defs, |defs|)
    ensures defs[i].id.Some? && defs[i].id.value != "" ==>
      NamedBefore(defs, i) < |Ids(defs)| && Ids(defs)[NamedBefore(defs, i)] == defs[i].id.value
    decreases |defs|
  {
    var n := |defs| - 1;
    SameNamed(defs[..n], defs, n);
    if n > 0 { IdsInOrder(defs[..n], if i < n then i else 0); }
    if i < n { SameNamed(defs[..n], defs, i); }
  }

  lemma {:induction false} SameNamed(a: seq<TreeDef>, b: seq<TreeDef>, i: nat)
    requires i <= |a| <= |b| && a == b[..|a|]
    ensures NamedBefore(a, i) == NamedBefore(b, i)
  {
    if i > 0 { SameNamed(a, b, i - 1); }
  }

  ghost predicate NoDuplicates(ids: seq<string>) { forall i, j | 0 <= i < j < |ids| :: ids[i] != ids[j] }

  class XMLTreeParser {
    const factory: Factory
    var treeRoots: Trees
    var order: seq<string>
    var buildingStack: seq<string>

    constructor (factory: Factory)
      ensures this.factory == factory && buildingStack == []
    {
      this.factory, treeRoots, order, buildingStack := factory, map[], [], [];
    }

    /** `_load_document`: forgets the previous document; an ID defined twice is an error. */
    method LoadDocument(defs: seq<TreeDef>) returns (failed: Option<Error>)
      modifies this
      ensures buildingStack == []
      ensures failed.None? <==> NoDuplicates(Ids(defs))
      ensures failed.None? ==> order == Ids(defs) && treeRoots.Keys == Names(Ids(defs))
      ensures failed.None? ==>
        forall d | d in defs && Given(d.id) :: d.id.value in treeRoots && treeRoots[d.id.value] == d.kids
      ensures failed.Some? ==> failed.value.DuplicateTree?
    {
      treeRoots, order, buildingStack := map[], [], [];
      assert Indexes(defs[..0], order, treeRoots);
      hide Indexes;
      var i := 0;
      while i < |defs|
        invariant i <= |defs| && buildingStack == [] && Indexes(defs[..i], order, treeRoots)
      {
        assert defs[..i + 1] == defs[..i] + [defs[i]];
        IndexStep(defs[..i], defs[i], order, treeRoots);
        var d := defs[i];
        if Given(d.id) {
          if d.id.value in treeRoots {
            DuplicateStays(defs, i);
            return Some(DuplicateTree(d.id.value));
          }
          treeRoots, order := treeRoots[d.id.value := d.kids], order + [d.id.value];
        }
        i := i + 1;
      }
      assert defs[..i] == defs;
      IndexMeans(defs, order, treeRoots);
      return None;
    }

    /** `order` and `roots` hold exactly the trees of `defs` that have an ID. */
    static ghost predicate Indexes(defs: seq<TreeDef>, order: seq<string>, roots: Trees) {
      && order == Ids(defs) && NoDuplicates(order) && roots.Keys == Names(order)
      && forall d | d in defs && Given(d.id) :: d.id.value in roots && roots[d.id.value] == d.kids
    }

    lemma IndexMeans(defs: seq<TreeDef>, order: seq<string>, roots: Trees)
      requires Indexes(defs, order, roots)
      ensures order == Ids(defs) && NoDuplicates(order) && roots.Keys == Names(order)
      ensures forall d | d in defs && Given(d.id) :: d.id.value in roots && roots[d.id.value] == d.kids
    {}

    lemma IndexStep(defs: seq<TreeDef>, d: TreeDef, order: seq<string>, roots: Trees)
      requires Indexes(defs, order, roots)
      ensures Given(d.id) && d.id.value in roots ==> d.id.value in Ids(defs)
      ensures !Given(d.id) ==> Indexes(defs + [d], order, roots)
      ensures Given(d.id) && d.id.value !in roots ==>
        Indexes(defs + [d], order + [d.id.value], roots[d.id.value := d.kids])
    {
      IdsSnoc(defs, d);
      hide Ids, Names;
      InNames(order);
      if Given(d.id) { InNames(order + [d.id.value]); }
      assert forall x | x in defs + [d] :: x in defs || x == d;
    }

    lemma IdsSnoc(defs: seq<TreeDef>, d: TreeDef)
      ensures Ids(defs + [d]) == Ids(defs) + if Given(d.id) then [d.id.value] else []
    {
      assert (defs + [d])[..|defs|] == defs;
    }

    lemma InNames(stack: seq<string>)
      ensures forall x :: x in Names(stack) <==> x in stack
    {}

    lemma {:induction false} IdsPrefix(defs: seq<TreeDef>, i: nat)
      requires i <= |defs|
      ensures Ids(defs[..i]) <= Ids(defs)
      decreases |defs|
    {
      if i == |defs| {
        assert defs[..i] == defs;
      } else {
        IdsPrefix(defs[..|defs| - 1], i);
        assert defs[..|defs| - 1][..i] == defs[..i];
      }
    }

    lemma DuplicateStays(defs: seq<TreeDef>, i: nat)
      requires i < |defs| && Given(defs[i].id) && defs[i].id.value in Ids(defs[..i])
      ensures !NoDuplicates(Ids(defs))
    {
      IdsPrefix(defs, i + 1);
      assert defs[..i + 1][..i] == defs[..i];
      var before, upto := Ids(defs[..i]), Ids(defs[..i + 1]);
      var k :| 0 <= k < |before| && before[k] == defs[i].id.value;
      assert upto[k] == upto[|before|];
    }

    /** `_build_node` and `_build_subtree`: the stack is as before afterwards, also after an error. */
    method BuildNode(el: Element) returns (r: Outcome<Built>)
      modifies this`buildingStack
      ensures buildingStack == old(buildingStack)
      ensures r == Build(factory, treeRoots, el, buildingStack)
      decreases treeRoots.Keys - Names(buildingStack), el
    {
      match el.tag {
        case SubTreeTag => r := BuildSubTree(el);
        case ControlTag(tag) =>
          var kids := BuildKids(el.kids);
          if kids.Err? { return Err(kids.error); }
          if factory.refuses(tag, el.attrs) { return Err(Refused(tag)); }
          r := Ok(ControlNode(tag, Or(el.name, tag), el.attrs, kids.value));
        case DecoratorTag(tag) =>
          var only := Only(el.kids);
          if only.None? { return Err(NotOneChild(tag)); }
          var child := BuildNode(only.value);
          if child.Err? { return child; }
          if factory.refuses(tag, el.attrs) { return Err(Refused(tag)); }
          r := Ok(DecoratorNode(tag, Or(el.name, tag), el.attrs, child.value));
        case _ => r := Build(factory, treeRoots, el, buildingStack);
      }
    }

    method BuildSubTree(el: Element) returns (r: Outcome<Built>)
      requires el.tag == SubTreeTag
      modifies this`buildingStack
      ensures buildingStack == old(buildingStack)
      ensures r == Build(factory, treeRoots, el, buildingStack)
      ensures SubTreeBuilt(factory, treeRoots, el, buildingStack, r)
      decreases treeRoots.Keys - Names(buildingStack), el, 0
    {
      SubTreeIsBuilt(factory, treeRoots, el, buildingStack);
      hide SubTreeBuilt;
      if !Given(el.id) { return Err(MissingId); }
      var id := el.id.value;
      if id !in treeRoots { return Err(Undefined(id)); }
      if id in buildingStack { return Err(Cyclic(buildingStack + [id])); }
      var only := Only(treeRoots[id]);
      if only.None? { return Err(NotOneRoot(id)); }
      ghost var was := buildingStack;
      buildingStack := buildingStack + [id];
      assert id in treeRoots.Keys - Names(was) && id !in treeRoots.Keys - Names(buildingStack);
      assert treeRoots.Keys - Names(buildingStack) <= treeRoots.Keys - Names(was);
      var child := BuildNode(only.value);
      buildingStack := buildingStack[..|buildingStack| - 1];
      assert buildingStack == was;
      if child.Err? { return child; }
      r := Ok(SubTreeNode(Or(el.name, id), Remapping(el.attrs), Presets(el.attrs), child.value));
    }

    method BuildKids(kids: seq<Element>) returns (r: Outcome<seq<Built>>)
      modifies this`buildingStack
      ensures buildingStack == old(buildingStack)
      ensures r == BuildAll(factory, treeRoots, kids, buildingStack)
      decreases treeRoots.Keys - Names(buildingStack), kids
    {
      hide Build;
      ghost var whole := BuildAll(factory, treeRoots, kids, buildingStack);
      var built: seq<Built> := [];
      var i := 0;
      assert kids[0..] == kids;
      PrependNil(whole);
      while i < |kids|
        invariant i <= |kids| && buildingStack == old(buildingStack)
        invariant whole == Prepend(built, BuildAll(factory, treeRoots, kids[i..], buildingStack))
      {
        assert kids[i..][1..] == kids[i + 1..];
        if kids[i].tag != Comment {
          var kid := BuildNode(kids[i]);
          if kid.Err? { return Err(kid.error); }
          PrependStep(built, kid.value, BuildAll(factory, treeRoots, kids[i + 1..], buildingStack));
          built := built + [kid.value];
        }
        i := i + 1;
      }
      assert built + [] == built;
      r := Ok(built);
    }

    /** `_parse_root`: the tree asked for, else the main tree, else the first one. */
    method ParseRoot(doc: Document, treeId: Option<string>) returns (r: Outcome<Built>)
      modifies this
      ensures buildingStack == []
      ensures !NoDuplicates(Ids(doc.trees)) ==> r.Err? && r.error.DuplicateTree?
      ensures NoDuplicates(Ids(doc.trees)) ==>
        var target := if Given(treeId) then treeId else if Given(doc.main) then doc.main
                      else if order != [] then Some(order[0]) else None;
        r == if target.None? then Err(NoTree)
             else if target.value !in treeRoots then Err(Undefined(target.value))
             else if Only(treeRoots[target.value]).None? then Err(NotOneRoot(target.value))
             else Build(factory, treeRoots, Only(treeRoots[target.value]).value, [])
    {
      var failed := LoadDocument(doc.trees);
      if failed.Some? { return Err(failed.value); }
      var target: string;
      if Given(treeId) {
        target := treeId.value;
      } else if Given(doc.main) {
        target := doc.main.value;
      } else if order != [] {
        target := order[0];
      } else {
        return Err(NoTree);
      }
      if target !in treeRoots { return Err(Undefined(target)); }
      var only := Only(treeRoots[target]);
      if only.None? { return Err(NotOneRoot(target)); }
      r := BuildNode(only.value);
    }
  }

  function Prepend(built: seq<Built>, rest: Outcome<seq<Built>>): Outcome<seq<Built>> {
    if rest.Err? then rest else Ok(built + rest.value)
  }

  lemma PrependNil(rest: Outcome<seq<Built>>)
    ensures Prepend([], rest) == rest
  {
    if rest.Ok? { assert [] + rest.value == rest.value; }
  }

  lemma PrependStep(built: seq<Built>, kid: Built, rest: Outcome<seq<Built>>)
    ensures Prepend(built, if rest.Err? then rest else Ok([kid] + rest.value)) == Prepend(built + [kid], rest)
  {
    if rest.Ok? { assert built + ([kid] + rest.value) == (built + [kid]) + rest.value; }
  }
}
