/** The fluent builder: a stack machine that reads the pre-order call word of a tree. */
module Builder {
  import opened Worlds

  datatype Shape = Leaf(typ: string) | Control(tag: string) | Decorator(tag: string)

  type ScopeShape = s: Shape | !s.Leaf? witness Control("Sequence")

  datatype Tree = Tree(name: string, shape: Shape, kids: seq<Tree>)

  const PLACEHOLDER_NAME := "__placeholder__"

  /** What a decorator holds until a child is attached. */
  const PLACEHOLDER := Tree(PLACEHOLDER_NAME, Leaf("FunctionAction"), [])

  /** A leaf, the opening of a scope, the end of the innermost scope. */
  datatype Call = Add(name: string, typ: string) | Open(name: string, shape: ScopeShape) | End

  datatype State = State(stack: seq<Tree>, root: Option<Tree>)

  const EMPTY := State([], None)

  datatype Fault = EmptyStack | NoChild(name: string) | UnclosedScopes(names: seq<string>) | NoRoot

  datatype After = After(s: State, fault: Option<Fault>)

  // ----- the calls ------------------------------------------------------------------------------

  /** A control node appends; a decorator holds one child, so a second one replaces the first. */
  function Take(t: Tree, kid: Tree): Tree {
    match t.shape
    case Control(_) => t.(kids := t.kids + [kid])
    case Decorator(_) => t.(kids := [kid])
    case Leaf(_) => t
  }

  function Attach(s: State, t: Tree): State {
    if s.stack == [] then s.(root := Some(t))
    else
      var n := |s.stack| - 1;
      s.(stack := s.stack[n := Take(s.stack[n], t)])
  }

  function NewScope(name: string, shape: ScopeShape): Tree {
    Tree(name, shape, if shape.Decorator? then [PLACEHOLDER] else [])
  }

  predicate Childless(t: Tree) { t.shape.Decorator? && t.kids != [] && t.kids[0].name == PLACEHOLDER_NAME }

  /** A failing `end()` has already popped its scope. */
  function Do(s: State, c: Call): After {
    match c
    case Add(name, typ) => After(Attach(s, Tree(name, Leaf(typ), [])), None)
    case Open(name, shape) => After(s.(stack := s.stack + [NewScope(name, shape)]), None)
    case End =>
      if s.stack == [] then After(s, Some(EmptyStack))
      else
        var n := |s.stack| - 1;
        var t, s1 := s.stack[n], s.(stack := s.stack[..n]);
        if Childless(t) then After(s1, Some(NoChild(t.name))) else After(Attach(s1, t), None)
  }

  /** Calls up to the first that raises. */
  function Play(s: State, calls: seq<Call>): After
    decreases |calls|
  {
    if calls == [] then After(s, None)
    else
      var r := Do(s, calls[0]);
      if r.fault.Some? then r else Play(r.s, calls[1..])
  }

  datatype Built = Built(tree: Tree) | Refused(fault: Fault)

  function NamesOf(stack: seq<Tree>): seq<string> { seq(|stack|, i requires 0 <= i < |stack| => stack[i].name) }

  function Build(s: State): Built {
    if s.stack != [] then Refused(UnclosedScopes(NamesOf(s.stack)))
    else if s.root.None? then Refused(NoRoot)
    else Built(s.root.value)
  }

  // ----- the word of a tree -------------------------------------------------------------------------

  function Word(t: Tree): seq<Call> {
    if t.shape.Leaf? then [Add(t.name, t.shape.typ)]
    else [Open(t.name, t.shape)] + Words(t.kids) + [End]
  }

  function Words(kids: seq<Tree>): seq<Call> {
    if kids == [] then [] else Word(kids[0]) + Words(kids[1..])
  }

  /** Leaves have no children, decorators one, which is not called like the placeholder. */
  predicate Proper(t: Tree) {
    && (t.shape.Leaf? ==> t.kids == [])
    && (t.shape.Decorator? ==> |t.kids| == 1 && t.kids[0].name != PLACEHOLDER_NAME)
    && forall i | 0 <= i < |t.kids| :: Proper(t.kids[i])
  }

  /** The children join the innermost open scope one by one. */
  function AttachAll(s: State, kids: seq<Tree>): State
    decreases |kids|
  {
    if kids == [] then s else AttachAll(Attach(s, kids[0]), kids[1..])
  }

  lemma {:induction false} PlayConcat(s: State, a: seq<Call>, b: seq<Call>)
    ensures Play(s, a + b) == var r := Play(s, a); if r.fault.Some? then r else Play(r.s, b)
    decreases |a|
  {
    hide Do;
    if a == [] {
      assert a + b == b;
    } else {
      assert (a + b)[1..] == a[1..] + b;
      if Do(s, a[0]).fault.None? { PlayConcat(Do(s, a[0]).s, a[1..], b); }
    }
  }

  lemma PlayOne(s: State, c: Call)
    ensures Play(s, [c]) == Do(s, c)
  {
    var r := Do(s, c);
    assert Play(r.s, []) == After(r.s, None);
  }

  /** What replaying the word of `t` leaves of it; nothing, if a call raises.  Of a decorator's
      children only the last one is left. */
  function Rebuilt(t: Tree): (r: Option<Tree>)
    ensures r.Some? ==> r.value.name == t.name && r.value.shape == t.shape
  {
    if t.shape.Leaf? then Some(t.(kids := []))
    else
      var kids := RebuiltAll(t.kids);
      if kids.None? then None
      else if t.shape.Control? then Some(t.(kids := kids.value))
      else if t.kids == [] || t.kids[|t.kids| - 1].name == PLACEHOLDER_NAME then None
      else Some(t.(kids := [kids.value[|t.kids| - 1]]))
  }

  function RebuiltAll(kids: seq<Tree>): (r: Option<seq<Tree>>)
    ensures r.Some? ==> |r.value| == |kids| && forall i | 0 <= i < |kids| :: Rebuilt(kids[i]) == Some(r.value[i])
  {
    if kids == [] then Some([])
    else
      var first, rest := Rebuilt(kids[0]), RebuiltAll(kids[1..]);
      if first.None? || rest.None? then None else Some([first.value] + rest.value)
  }

  /** Reading the word of a tree, in any state, attaches what can be rebuilt of it. */
  lemma {:induction false} WordAttaches(s: State, t: Tree)
    ensures var r := Play(s, Word(t));
      if Rebuilt(t).Some? then r == After(Attach(s, Rebuilt(t).value), None) else r.fault.Some?
    decreases t, 1
  {
    if t.shape.Leaf? {
      PlayOne(s, Add(t.name, t.shape.typ));
    } else {
      var open, end := [Open(t.name, t.shape)], [End];
      var s1 := s.(stack := s.stack + [NewScope(t.name, t.shape)]);
      PlayOne(s, open[0]);
      PlayConcat(s, open, Words(t.kids) + end);
      assert Word(t) == open + (Words(t.kids) + end);
      WordsAttach(s1, t.kids);
      PlayConcat(s1, Words(t.kids), end);
      if RebuiltAll(t.kids).Some? {
        var kids := RebuiltAll(t.kids).value;
        ScopeFills(s, NewScope(t.name, t.shape), kids);
        PlayOne(AttachAll(s1, kids), End);
        Closes(s, t, kids);
      }
    }
  }

  lemma {:induction false} WordsAttach(s: State, kids: seq<Tree>)
    ensures var r := Play(s, Words(kids));
      if RebuiltAll(kids).Some? then r == After(AttachAll(s, RebuiltAll(kids).value), None) else r.fault.Some?
    decreases kids, 0
  {
    hide Rebuilt, Word;
    if kids != [] {
      WordAttaches(s, kids[0]);
      PlayConcat(s, Word(kids[0]), Words(kids[1..]));
      if Rebuilt(kids[0]).Some? {
        var first := Rebuilt(kids[0]).value;
        WordsAttach(Attach(s, first), kids[1..]);
        if RebuiltAll(kids).Some? { assert RebuiltAll(kids).value[1..] == RebuiltAll(kids[1..]).value; }
      }
    }
  }

  /** The scope on top of the stack after `kids` have joined it. */
  function Filled(t: Tree, kids: seq<Tree>): Tree
    decreases |kids|
  {
    if kids == [] then t else Filled(Take(t, kids[0]), kids[1..])
  }

  lemma {:induction false} ScopeFills(s: State, t: Tree, kids: seq<Tree>)
    ensures AttachAll(s.(stack := s.stack + [t]), kids) == s.(stack := s.stack + [Filled(t, kids)])
    decreases |kids|
  {
    if kids != [] {
      var s1 := s.(stack := s.stack + [t]);
      assert Attach(s1, kids[0]).stack == s.stack + [Take(t, kids[0])];
      ScopeFills(s, Take(t, kids[0]), kids[1..]);
    }
  }

  lemma {:induction false} ControlFills(t: Tree, kids: seq<Tree>)
    requires t.shape.Control?
    ensures Filled(t, kids) == t.(kids := t.kids + kids)
    decreases |kids|
  {
    if kids == [] {
      assert t.kids + kids == t.kids;
    } else {
      ControlFills(Take(t, kids[0]), kids[1..]);
      assert t.kids + [kids[0]] + kids[1..] == t.kids + kids;
    }
  }

  lemma {:induction false} DecoratorFills(t: Tree, kids: seq<Tree>)
    requires t.shape.Decorator? && kids != []
    ensures Filled(t, kids) == t.(kids := [kids[|kids| - 1]])
    decreases |kids|
  {
    if |kids| > 1 {
      DecoratorFills(Take(t, kids[0]), kids[1..]);
    } else {
      assert Filled(Take(t, kids[0]), kids[1..]) == Take(t, kids[0]);
    }
  }

  lemma Closes(s: State, t: Tree, kids: seq<Tree>)
    requires !t.shape.Leaf? && RebuiltAll(t.kids) == Some(kids)
    ensures var r := Do(s.(stack := s.stack + [Filled(NewScope(t.name, t.shape), kids)]), End);
      if Rebuilt(t).Some? then r == After(Attach(s, Rebuilt(t).value), None) else r.fault.Some?
  {
    hide Rebuilt, RebuiltAll, Filled;
    FilledIs(t, kids);
    var filled := Filled(NewScope(t.name, t.shape), kids);
    assert (s.stack + [filled])[..|s.stack|] == s.stack;
  }

  lemma FilledIs(t: Tree, kids: seq<Tree>)
    requires !t.shape.Leaf? && RebuiltAll(t.kids) == Some(kids)
    ensures var filled := Filled(NewScope(t.name, t.shape), kids);
      filled.name == t.name && Rebuilt(t) == if Childless(filled) then None else Some(filled)
  {
    var scope := NewScope(t.name, t.shape);
    hide Filled;
    if t.shape.Control? {
      ControlFills(scope, kids);
      assert [] + kids == kids;
    } else if kids == [] {
      NothingFills(scope);
    } else {
      DecoratorFills(scope, kids);
      assert Rebuilt(t.kids[|kids| - 1]) == Some(kids[|kids| - 1]);
    }
  }

  lemma NothingFills(t: Tree)
    ensures Filled(t, []) == t
  {}

  lemma {:induction false} ProperIsRebuilt(t: Tree)
    ensures Rebuilt(t) == Some(t) <==> Proper(t)
    decreases t
  {
    forall i | 0 <= i < |t.kids| ensures Rebuilt(t.kids[i]) == Some(t.kids[i]) <==> Proper(t.kids[i]) {
      ProperIsRebuilt(t.kids[i]);
    }
    ProperAreRebuilt(t.kids);
    if Proper(t) && t.shape.Decorator? { assert t.kids == [t.kids[0]]; }
    if Rebuilt(t) == Some(t) && !t.shape.Leaf? {
      var kids := RebuiltAll(t.kids).value;
      if t.shape.Decorator? { assert |t.kids| == 1 && kids == [kids[0]]; }
    }
  }

  lemma {:induction false} ProperAreRebuilt(kids: seq<Tree>)
    requires forall i | 0 <= i < |kids| :: Rebuilt(kids[i]) == Some(kids[i]) <==> Proper(kids[i])
    ensures RebuiltAll(kids) == Some(kids) <==> forall i | 0 <= i < |kids| :: Proper(kids[i])
  {
    hide Rebuilt, Proper;
    if kids != [] {
      ProperAreRebuilt(kids[1..]);
      assert [kids[0]] + kids[1..] == kids;
      if RebuiltAll(kids) == Some(kids) {
        assert RebuiltAll(kids[1..]).value == kids[1..];
      }
      assert (forall i | 0 <= i < |kids| :: Proper(kids[i])) ==>
        forall i | 0 <= i < |kids[1..]| :: Proper(kids[1..][i]);
      if forall i | 0 <= i < |kids[1..]| :: Proper(kids[1..][i]) {
        assert forall i | 1 <= i < |kids| :: kids[i] == kids[1..][i - 1];
      }
    }
  }

  /** Replaying the word of a tree rebuilds that very tree, children in order, exactly when its
      leaves have no children and its decorators one that is not called like the placeholder. */
  lemma RoundTrip(t: Tree)
    ensures Play(EMPTY, Word(t)) == After(State([], Some(t)), None) <==> Proper(t)
    ensures Proper(t) ==> Build(Play(EMPTY, Word(t)).s) == Built(t)
  {
    WordAttaches(EMPTY, t);
    ProperIsRebuilt(t);
  }

  // ----- from calls to a tree ---------------------------------------------------------------------------

  /** The calls that are still visible in the state: finished trees and open scopes. */
  function Written(s: State): seq<Call> {
    (if s.root.Some? then Word(s.root.value) else []) + Scopes(s.stack)
  }

  function Scopes(stack: seq<Tree>): seq<Call> {
    if stack == [] then [] else Scopes(stack[..|stack| - 1]) + OpenScope(stack[|stack| - 1])
  }

  function OpenScope(t: Tree): seq<Call> {
    if t.shape.Leaf? then [] else [Open(t.name, t.shape)] + Words(if Childless(t) then [] else t.kids)
  }

  /** Every scope is a control node, or a decorator with its placeholder or one child. */
  predicate Scoped(stack: seq<Tree>) {
    forall i | 0 <= i < |stack| :: !stack[i].shape.Leaf? && (stack[i].shape.Decorator? ==> |stack[i].kids| == 1)
  }

  /** The call replaces a root, or the child of a decorator, that was already there. */
  predicate Overwrites(s: State, c: Call) {
    match c
    case Open(_, _) => s.stack == [] && s.root.Some?
    case Add(_, _) => TakenAlready(s.stack, s.root)
    case End => s.stack != [] && !Childless(s.stack[|s.stack| - 1]) && TakenAlready(s.stack[..|s.stack| - 1], s.root)
  }

  predicate TakenAlready(stack: seq<Tree>, root: Option<Tree>) {
    if stack == [] then root.Some?
    else var top := stack[|stack| - 1]; top.shape.Decorator? && !Childless(top)
  }

  lemma {:induction false} WordsConcat(a: seq<Tree>, b: seq<Tree>)
    ensures Words(a + b) == Words(a) + Words(b)
  {
    hide Word;
    if a == [] {
      assert a + b == b;
    } else {
      WordsConcat(a[1..], b);
      assert (a + b)[1..] == a[1..] + b && (a + b)[0] == a[0];
      Assoc(Word(a[0]), Words(a[1..]), Words(b));
    }
  }

  lemma Assoc(a: seq<Call>, b: seq<Call>, c: seq<Call>)
    ensures (a + b) + c == a + (b + c)
  {}

  lemma WordsOne(t: Tree)
    ensures Words([t]) == Word(t)
  {
    assert [t][1..] == [] && Words([]) == [];
  }

  /** Attaching a tree where nothing is in the way adds its word; the placeholder's name stays free. */
  lemma AttachWrites(s: State, t: Tree)
    requires Scoped(s.stack) && (s.stack != [] ==> s.root.None?)
    requires !TakenAlready(s.stack, s.root)
    requires s.stack != [] && s.stack[|s.stack| - 1].shape.Decorator? ==> t.name != PLACEHOLDER_NAME
    ensures Scoped(Attach(s, t).stack) && Written(Attach(s, t)) == Written(s) + Word(t)
  {
    hide Word, Words;
    if s.stack != [] {
      var n := |s.stack| - 1;
      var top := s.stack[n];
      var now := Attach(s, t).stack;
      assert now[..n] == s.stack[..n] && now[n] == Take(top, t);
      WordsOne(t);
      if top.shape.Control? { WordsConcat(top.kids, [t]); } else { NoWords(); }
      assert OpenScope(Take(top, t)) == OpenScope(top) + Word(t);
    }
  }

  lemma NoWords()
    ensures Words([]) == []
  {}

  /** Between calls, as long as nothing is overwritten and nothing is called like the placeholder. */
  predicate Tidy(s: State) {
    && Scoped(s.stack) && (s.stack != [] ==> s.root.None?)
    && forall i | 0 <= i < |s.stack| :: s.stack[i].name != PLACEHOLDER_NAME
  }

  /** The call raises nothing, overwrites nothing, and names nothing like the placeholder. */
  predicate CleanCall(s: State, c: Call) {
    Do(s, c).fault.None? && !Overwrites(s, c) && (c.End? || c.name != PLACEHOLDER_NAME)
  }

  predicate Clean(s: State, calls: seq<Call>)
    decreases |calls|
  {
    calls == [] || (CleanCall(s, calls[0]) && Clean(Do(s, calls[0]).s, calls[1..]))
  }

  lemma CallWrites(s: State, c: Call)
    requires Tidy(s) && CleanCall(s, c)
    ensures Tidy(Do(s, c).s) && Written(Do(s, c).s) == Written(s) + [c]
  {
    hide Words;
    match c {
      case Add(name, typ) => AttachWrites(s, Tree(name, Leaf(typ), []));
      case Open(name, shape) => OpenWrites(s, name, shape);
      case End => EndWrites(s);
    }
  }

  lemma OpenWrites(s: State, name: string, shape: ScopeShape)
    requires Tidy(s) && CleanCall(s, Open(name, shape))
    ensures var t := s.(stack := s.stack + [NewScope(name, shape)]);
      Tidy(t) && Written(t) == Written(s) + [Open(name, shape)]
  {
    hide Words, Word;
    var scope := NewScope(name, shape);
    assert (s.stack + [scope])[..|s.stack|] == s.stack;
    NoWords();
    assert OpenScope(scope) == [Open(name, shape)];
  }

  lemma EndWrites(s: State)
    requires Tidy(s) && CleanCall(s, End)
    ensures Tidy(Do(s, End).s) && Written(Do(s, End).s) == Written(s) + [End]
  {
    hide Words;
    var n := |s.stack| - 1;
    var t, s1 := s.stack[n], s.(stack := s.stack[..n]);
    assert Written(s) == Written(s1) + OpenScope(t);
    assert Word(t) == OpenScope(t) + [End];
    hide Written, Word, OpenScope;
    AttachWrites(s1, t);
  }

  lemma {:induction false} CallsWrite(s: State, calls: seq<Call>)
    requires Tidy(s) && Clean(s, calls)
    ensures Play(s, calls).fault.None? && Written(Play(s, calls).s) == Written(s) + calls
    decreases |calls|
  {
    hide Tidy, Written, CleanCall;
    if calls != [] {
      CallWrites(s, calls[0]);
      assert Do(s, calls[0]).fault.None? by { CleanRaisesNothing(s, calls[0]); }
      CallsWrite(Do(s, calls[0]).s, calls[1..]);
      assert Written(s) + [calls[0]] + calls[1..] == Written(s) + calls;
    }
  }

  lemma CleanRaisesNothing(s: State, c: Call)
    requires CleanCall(s, c)
    ensures Do(s, c).fault.None?
  {}

  /** A tree that was built without overwriting anything has the calls as its word: calls and
      trees determine each other. */
  lemma CallsAreTheWord(calls: seq<Call>, t: Tree)
    requires Clean(EMPTY, calls) && Build(Play(EMPTY, calls).s) == Built(t)
    ensures calls == Word(t)
  {
    CallsWrite(EMPTY, calls);
    assert [] + calls == calls && Word(t) + [] == Word(t);
    assert Written(EMPTY) == [] && Written(State([], Some(t))) == Word(t) + Scopes([]);
  }

  /** A second child in a decorator's scope silently takes the place of the first. */
  lemma SecondChildOverwrites(a: string, b: string)
    requires a != PLACEHOLDER_NAME && b != PLACEHOLDER_NAME
    ensures var calls := [Open("inv", Decorator("Inverter")), Add(a, "Action"), Add(b, "Action"), End];
      Build(Play(EMPTY, calls).s) == Built(Tree("inv", Decorator("Inverter"), [Tree(b, Leaf("Action"), [])]))
  {
    var x, y := Tree(a, Leaf("Action"), []), Tree(b, Leaf("Action"), []);
    var t := Tree("inv", Decorator("Inverter"), [x, y]);
    WordsConcat([x], [y]);
    WordsOne(x);
    WordsOne(y);
    assert [x] + [y] == [x, y];
    assert Word(t) == [Open("inv", Decorator("Inverter")), Add(a, "Action"), Add(b, "Action"), End];
    assert [y][1..] == [] && [x, y][1..] == [y];
    assert Rebuilt(x) == Some(x) && Rebuilt(y) == Some(y) && [y] + [] == [y];
    assert RebuiltAll([]) == Some([]) && RebuiltAll([y]) == Some([y]) && RebuiltAll([x, y]) == Some([x, y]);
    WordAttaches(EMPTY, t);
  }

  // ----- where a finished tree goes, and what `end()` refuses ------------------------------------------------

  /** In any state, the calls of a proper tree leave it as the root, in the place of any earlier one, or
      as the last child of the innermost scope if that is a control node, or as the only child of it if
      that is a decorator; no other scope changes. */
  lemma ProperTreeJoins(s: State, t: Tree)
    requires Proper(t)
    ensures var r := Play(s, Word(t)); var n := |s.stack| - 1;
      && r.fault.None?
      && (s.stack == [] ==> r.s == State([], Some(t)))
      && (s.stack != [] ==>
            && r.s.root == s.root && |r.s.stack| == |s.stack| && r.s.stack[..n] == s.stack[..n]
            && r.s.stack[n].name == s.stack[n].name && r.s.stack[n].shape == s.stack[n].shape
            && (s.stack[n].shape.Control? ==> r.s.stack[n].kids == s.stack[n].kids + [t])
            && (s.stack[n].shape.Decorator? ==> r.s.stack[n].kids == [t]))
  {
    hide Word, Rebuilt, Proper;
    ProperIsRebuilt(t);
    WordAttaches(s, t);
  }

  /** `end()` fails without an open scope, and on a decorator without child: what it holds then, and so
      what no child may be called, is the placeholder's name.  The scope is gone all the same. */
  lemma EndRefuses(s: State, name: string, shape: ScopeShape, typ: string)
    ensures s.stack == [] ==> Do(s, End) == After(s, Some(EmptyStack))
    ensures var r := Play(s, [Open(name, shape), End]);
      if shape.Decorator? then r == After(s, Some(NoChild(name)))
      else r == Play(s, Word(Tree(name, shape, []))) && r.fault.None?
    ensures shape.Decorator? ==>
      Play(s, [Open(name, shape), Add("__placeholder__", typ), End]) == After(s, Some(NoChild(name)))
  {
    var open, add := [Open(name, shape)], [Add("__placeholder__", typ)];
    var s1 := s.(stack := s.stack + [NewScope(name, shape)]);
    PlayConcat(s, open, [End]);
    PlayOne(s, Open(name, shape));
    PlayOne(s1, End);
    assert s1.stack[..|s.stack|] == s.stack;
    NoWords();
    assert Word(Tree(name, shape, [])) == open + [] + [End] == open + [End] == [Open(name, shape), End];
    PlayConcat(s, open, add + [End]);
    assert open + (add + [End]) == [Open(name, shape), Add("__placeholder__", typ), End];
    PlayConcat(s1, add, [End]);
    PlayOne(s1, add[0]);
    var s2 := Attach(s1, Tree("__placeholder__", Leaf(typ), []));
    PlayOne(s2, End);
    assert shape.Decorator? ==> s2.stack[..|s.stack|] == s.stack;
  }

  // ----- when building succeeds ------------------------------------------------------------------------------

  function Depth(calls: seq<Call>): int {
    if calls == [] then 0
    else Depth(calls[..|calls| - 1]) + match calls[|calls| - 1] case Open(_, _) => 1 case End => -1 case Add(_, _) => 0
  }

  lemma {:induction false} DepthIs(calls: seq<Call>)
    requires Play(EMPTY, calls).fault.None?
    ensures var s := Play(EMPTY, calls).s;
      |s.stack| == Depth(calls) && (s.root.None? && s.stack == [] ==> calls == [])
    decreases |calls|
  {
    if calls != [] {
      var n := |calls| - 1;
      PlayConcat(EMPTY, calls[..n], [calls[n]]);
      assert calls[..n] + [calls[n]] == calls;
      DepthIs(calls[..n]);
      PlayOne(Play(EMPTY, calls[..n]).s, calls[n]);
    }
  }

  /** After calls that raised nothing, `build()` succeeds exactly when something was called and every
      scope was closed. */
  lemma BuildSucceedsIff(calls: seq<Call>)
    requires Play(EMPTY, calls).fault.None?
    ensures var r := Build(Play(EMPTY, calls).s);
      && (r.Built? <==> calls != [] && Depth(calls) == 0)
      && (r == Refused(NoRoot) <==> calls == [])
      && (r.Refused? && r.fault.UnclosedScopes? <==> Depth(calls) > 0)
      && (Depth(calls) > 0 ==>
            && |r.fault.names| == Depth(calls)
            && forall i | 0 <= i < Depth(calls) :: r.fault.names[i] == Play(EMPTY, calls).s.stack[i].name)
  {
    DepthIs(calls);
  }

  // ----- the object ---------------------------------------------------------------------------------------------

  class TreeBuilder {
    var stack: seq<Tree>
    var root: Option<Tree>

    constructor ()
      ensures Value() == EMPTY
    {
      stack, root := [], None;
    }

    ghost function Value(): State
      reads this
    {
      State(stack, root)
    }

    /** `_push_frame` */
    method PushFrame(name: string, shape: ScopeShape)
      modifies this
      ensures After(Value(), None) == Do(old(Value()), Open(name, shape))
    {
      stack := stack + [Tree(name, shape, if shape.Decorator? then [PLACEHOLDER] else [])];
    }

    /** `_attach_leaf` */
    method AttachLeaf(name: string, typ: string)
      modifies this
      ensures After(Value(), None) == Do(old(Value()), Add(name, typ))
    {
      AttachToTop(Tree(name, Leaf(typ), []));
    }

    method AttachToTop(node: Tree)
      modifies this
      ensures Value() == Attach(old(Value()), node)
    {
      if stack == [] {
        root := Some(node);
      } else {
        var n := |stack| - 1;
        var top := stack[n];
        if top.shape.Control? {
          stack := stack[n := top.(kids := top.kids + [node])];
        } else if top.shape.Decorator? {
          stack := stack[n := top.(kids := [node])];
        }
      }
    }

    /** `end` */
    method EndScope() returns (fault: Option<Fault>)
      modifies this
      ensures After(Value(), fault) == Do(old(Value()), End)
    {
      if stack == [] { return Some(EmptyStack); }
      var n := |stack| - 1;
      var node := stack[n];
      stack := stack[..n];
      if node.shape.Decorator? && node.kids != [] && node.kids[0].name == PLACEHOLDER_NAME {
        return Some(NoChild(node.name));
      }
      AttachToTop(node);
      fault := None;
    }

    /** `build` */
    method DoBuild() returns (r: Built)
      ensures r == Build(Value())
    {
      if stack != [] { return Refused(UnclosedScopes(NamesOf(stack))); }
      if root.None? { return Refused(NoRoot); }
      return Built(root.value);
    }

    /** A series of calls, up to the first that raises. */
    method Replay(calls: seq<Call>) returns (fault: Option<Fault>)
      modifies this
      ensures After(Value(), fault) == Play(old(Value()), calls)
    {
      fault := None;
      var i := 0;
      assert calls[0..] == calls;
      while i < |calls|
        invariant i <= |calls| && fault.None?
        invariant Play(Value(), calls[i..]) == Play(old(Value()), calls)
      {
        assert calls[i..][1..] == calls[i + 1..];
        match calls[i] {
          case Add(name, typ) => AttachLeaf(name, typ);
          case Open(name, shape) => PushFrame(name, shape);
          case End =>
            fault := EndScope();
            if fault.Some? { return; }
        }
        i := i + 1;
      }
    }
  }
}
