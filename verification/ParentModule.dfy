/** Which class a call belongs to (src/schema.rs): two visitors that prune by
    byte range, against the chain of ancestors from the root to the call. */
module ParentModule {
  import opened Basics

  /** What the visitors look at in a node. `name` and `receiver` are what
      `extract_constant_name` yields; a call's block is its last child. */
  datatype Kind =
    | Class(name: Option<string>)
    | Module
    | Call(methodName: string, receiver: Option<string>, hasBlock: bool)
    | Block
    | Other

  /** A node at bytes [start..end), its children in visiting order. */
  datatype Node = Node(start: nat, end: nat, kind: Kind, kids: seq<Node>)

  predicate Contains(n: Node, offset: nat) {
    n.start <= offset < n.end
  }

  /** The block of a call that has one. */
  predicate InBlock(n: Node, offset: nat) {
    n.kind.Call? && n.kind.hasBlock && n.kids != [] && Contains(n.kids[|n.kids| - 1], offset)
  }

  /** `Const.class_eval` with a block. */
  predicate IsClassEval(k: Kind) {
    k.Call? && k.methodName == "class_eval" && k.receiver.Some?
  }

  /** The call the search is for. */
  predicate IsTarget(n: Node, offset: nat) {
    n.kind.Call? && n.start == offset && Contains(n, offset)
  }

  // ---------------------------------------------------------- the visitors

  datatype Search = Search(result: Option<string>, found: bool)

  function Visit(n: Node, offset: nat, s: Search): Search
    decreases n, 1
  {
    match n.kind
    case Class(name) =>
      if !Contains(n, offset) then s
      else VisitAll(n.kids, offset, if name.Some? then s.(result := name) else s)
    case Module => if Contains(n, offset) then VisitAll(n.kids, offset, s) else s
    case Block => if Contains(n, offset) then VisitAll(n.kids, offset, s) else s
    case Call(_, receiver, _) =>
      if !Contains(n, offset) then s
      else if n.start == offset then s.(found := true)
      else if InBlock(n, offset) then
        if IsClassEval(n.kind) then VisitAll(n.kids, offset, s.(result := receiver))
        else VisitAll(n.kids, offset, s.(result := None)).(result := None)
      else VisitAll(n.kids, offset, s)
    case Other => VisitAll(n.kids, offset, s)
  }

  function VisitAll(kids: seq<Node>, offset: nat, s: Search): Search
    decreases kids, 0
  {
    if kids == [] then s else VisitAll(kids[1..], offset, Visit(kids[0], offset, s))
  }

  class ParentModuleFinder {
    const targetOffset: nat
    var result: Option<string>
    var found: bool

    constructor (offset: nat)
      ensures targetOffset == offset && result == None && !found
    {
      targetOffset := offset;
      result := None;
      found := false;
    }

    function State(): Search
      reads this
    {
      Search(result, found)
    }

    method VisitNode(n: Node)
      modifies this
      ensures State() == Visit(n, targetOffset, old(State()))
      decreases n, 1
    {
      match n.kind
      case Class(name) =>
        if Contains(n, targetOffset) {
          if name.Some? {
            result := name;
          }
          VisitKids(n.kids);
        }
      case Module =>
        if Contains(n, targetOffset) {
          VisitKids(n.kids);
        }
      case Block =>
        if Contains(n, targetOffset) {
          VisitKids(n.kids);
        }
      case Call(_, receiver, _) =>
        if !Contains(n, targetOffset) {
          return;
        }
        if n.start == targetOffset {
          found := true;
          return;
        }
        if InBlock(n, targetOffset) {
          if IsClassEval(n.kind) {
            result := receiver;
            VisitKids(n.kids);
            return;
          }
          result := None;
          VisitKids(n.kids);
          result := None;
          return;
        }
        VisitKids(n.kids);
      case Other =>
        VisitKids(n.kids);
    }

    method VisitKids(kids: seq<Node>)
      modifies this
      ensures State() == VisitAll(kids, targetOffset, old(State()))
      decreases kids, 0
    {
      var rest := kids;
      ghost var all := VisitAll(kids, targetOffset, State());
      while rest != []
        invariant |rest| <= |kids| && rest == kids[|kids| - |rest|..]
        invariant VisitAll(rest, targetOffset, State()) == all
        decreases |rest|
      {
        assert rest[0] in kids;
        VisitNode(rest[0]);
        rest := rest[1..];
      }
    }
  }

  function ParentModuleName(root: Node, offset: nat): Option<string> {
    var s := Visit(root, offset, Search(None, false));
    if s.found then s.result else None
  }

  /** `find_parent_module_name`. */
  method FindParentModuleName(root: Node, offset: nat) returns (r: Option<string>)
    ensures r == ParentModuleName(root, offset)
  {
    var finder := new ParentModuleFinder(offset);
    finder.VisitNode(root);
    if finder.found {
      r := finder.result;
    } else {
      r := None;
    }
  }

  // ---------------------------------------------------- the specification

  /** Children lie inside their parent and no two of them share an offset, all the
      way down. */
  ghost predicate Nested(n: Node)
    decreases n
  {
    && n.start <= n.end
    && (n.kind.Call? && n.kind.hasBlock ==> n.kids != [])
    && (forall i :: 0 <= i < |n.kids| ==> n.start <= n.kids[i].start && n.kids[i].end <= n.end && Nested(n.kids[i]))
    && (forall i, j :: 0 <= i < j < |n.kids| ==> n.kids[i].end <= n.kids[j].start || n.kids[j].end <= n.kids[i].start)
  }

  /** The route, child by child, from `n` to the outermost target below it. */
  ghost predicate Leads(n: Node, route: seq<nat>, offset: nat)
    decreases |route|
  {
    if route == [] then IsTarget(n, offset)
    else !IsTarget(n, offset) && route[0] < |n.kids| && Leads(n.kids[route[0]], route[1..], offset)
  }

  /** A subtree the search passes over: none of the nodes it would enter holds the
      offset. What lies beneath nodes it does not enter is of no account. */
  ghost predicate Silent(n: Node, offset: nat)
    decreases n
  {
    if n.kind.Other? then forall i :: 0 <= i < |n.kids| ==> Silent(n.kids[i], offset)
    else !Contains(n, offset)
  }

  /** The search can follow the route: the nodes on it hold the offset, the subtrees
      beside it are passed over, and a call's block holds the offset just when the
      route goes through it. Nothing is asked of the rest of the tree. */
  ghost predicate Clear(n: Node, route: seq<nat>, offset: nat)
    requires Leads(n, route, offset)
    decreases |route|
  {
    route != [] ==>
      && (n.kind.Other? || Contains(n, offset))
      && (forall i :: 0 <= i < |n.kids| && i != route[0] ==> Silent(n.kids[i], offset))
      && (n.kind.Call? && n.kind.hasBlock ==> (InBlock(n, offset) <==> route[0] + 1 == |n.kids|))
      && Clear(n.kids[route[0]], route[1..], offset)
  }

  /** What an ancestor contributes, seen from its child number k. */
  datatype Mark = Names(name: string) | Bars | Neutral

  function MarkOf(n: Node, k: nat): Mark {
    match n.kind
    case Class(Some(name)) => Names(name)
    case Call(_, receiver, hasBlock) =>
      if !(hasBlock && k + 1 == |n.kids|) then Neutral
      else if IsClassEval(n.kind) then Names(receiver.value)
      else Bars
    case _ => Neutral
  }

  /** The ancestors' contributions, outermost first. */
  ghost function Marks(n: Node, route: seq<nat>, offset: nat): seq<Mark>
    requires Leads(n, route, offset)
    decreases |route|
  {
    if route == [] then []
    else [MarkOf(n, route[0])] + Marks(n.kids[route[0]], route[1..], offset)
  }

  function LastName(marks: seq<Mark>): Option<string> {
    if marks == [] then None
    else
      var m := marks[|marks| - 1];
      if m.Names? then Some(m.name) else LastName(marks[..|marks| - 1])
  }

  /** The innermost name, unless some ancestor bars the way. */
  function Resolve(marks: seq<Mark>): Option<string> {
    if Bars in marks then None else LastName(marks)
  }

  // -------------------------------------------------------------- the proof

  /** A subtree that is passed over changes nothing. */
  lemma {:induction false} VisitSilent(n: Node, offset: nat, s: Search)
    requires Silent(n, offset)
    ensures Visit(n, offset, s) == s
    decreases n, 1
  {
    if n.kind.Other? {
      VisitAllSilent(n.kids, offset, s);
    }
  }

  lemma {:induction false} VisitAllSilent(kids: seq<Node>, offset: nat, s: Search)
    requires forall i :: 0 <= i < |kids| ==> Silent(kids[i], offset)
    ensures VisitAll(kids, offset, s) == s
    decreases kids, 0
  {
    if kids != [] {
      VisitSilent(kids[0], offset, s);
      VisitAllSilent(kids[1..], offset, s);
    }
  }

  /** Only the child on the route matters. */
  lemma {:induction false} VisitAllIsVisit(kids: seq<Node>, k: nat, offset: nat, s: Search)
    requires k < |kids|
    requires forall i :: 0 <= i < |kids| && i != k ==> Silent(kids[i], offset)
    ensures VisitAll(kids, offset, s) == Visit(kids[k], offset, s)
    decreases |kids|
  {
    if k == 0 {
      VisitAllSilent(kids[1..], offset, Visit(kids[0], offset, s));
    } else {
      VisitSilent(kids[0], offset, s);
      VisitAllIsVisit(kids[1..], k - 1, offset, s);
    }
  }

  /** What a subtree with the given contributions makes of a result so far. */
  function Settle(marks: seq<Mark>, sofar: Option<string>): Option<string> {
    if Bars in marks then None
    else if LastName(marks).Some? then LastName(marks)
    else sofar
  }

  lemma {:induction false} LastNameCons(m: Mark, marks: seq<Mark>)
    ensures LastName([m] + marks) ==
            if LastName(marks).Some? then LastName(marks) else if m.Names? then Some(m.name) else None
  {
    var all := [m] + marks;
    if marks == [] {
      assert all[..|all| - 1] == [];
      assert LastName([]) == None;
    } else {
      assert all[..|all| - 1] == [m] + marks[..|marks| - 1];
      LastNameCons(m, marks[..|marks| - 1]);
    }
  }

  lemma SettleCons(m: Mark, marks: seq<Mark>, sofar: Option<string>)
    ensures Settle([m] + marks, sofar) ==
            match m
            case Bars => None
            case Names(name) => Settle(marks, Some(name))
            case Neutral => Settle(marks, sofar)
  {
    LastNameCons(m, marks);
    assert Bars in [m] + marks <==> m == Bars || Bars in marks;
  }

  lemma {:induction false} VisitFollowsRoute(n: Node, route: seq<nat>, offset: nat, s: Search)
    requires Leads(n, route, offset) && Clear(n, route, offset)
    ensures Visit(n, offset, s) == Search(Settle(Marks(n, route, offset), s.result), true)
    decreases |route|
  {
    if route != [] {
      var k, kid := route[0], n.kids[route[0]];
      var marks := Marks(kid, route[1..], offset);
      SettleCons(MarkOf(n, k), marks, s.result);
      var inside :=
        match MarkOf(n, k)
        case Names(name) => s.(result := Some(name))
        case Bars => s.(result := None)
        case Neutral => s;
      VisitAllIsVisit(n.kids, k, offset, inside);
      VisitFollowsRoute(kid, route[1..], offset, inside);
    }
  }

  /** The target is found only if some route leads to it. */
  lemma {:induction false} FoundOnlyByRoute(n: Node, offset: nat, s: Search) returns (route: seq<nat>)
    requires Visit(n, offset, s).found && !s.found
    ensures Leads(n, route, offset)
    decreases n, 1
  {
    if IsTarget(n, offset) {
      route := [];
    } else {
      var inside :=
        match n.kind
        case Class(Some(name)) => s.(result := Some(name))
        case Call(_, receiver, _) =>
          if !InBlock(n, offset) then s else if IsClassEval(n.kind) then s.(result := receiver) else s.(result := None)
        case _ => s;
      assert VisitAll(n.kids, offset, inside).found;
      var k, r := FoundInSomeKid(n.kids, offset, inside);
      route := [k] + r;
      assert route[1..] == r;
    }
  }

  lemma {:induction false} FoundInSomeKid(kids: seq<Node>, offset: nat, s: Search) returns (k: nat, route: seq<nat>)
    requires VisitAll(kids, offset, s).found && !s.found
    ensures k < |kids| && Leads(kids[k], route, offset)
    decreases kids, 0
  {
    var first := Visit(kids[0], offset, s);
    if first.found {
      k := 0;
      route := FoundOnlyByRoute(kids[0], offset, s);
    } else {
      k, route := FoundInSomeKid(kids[1..], offset, first);
      k := k + 1;
    }
  }

  /** Wherever a clear route leads to the call, the finder returns the innermost
      named class or constant class_eval on it, and none if an ancestor call passes
      the way through a block that is not a constant class_eval. On any tree at all
      it returns none if no call starts at the offset. */
  lemma FinderFollowsAncestors(root: Node, offset: nat)
    ensures forall route :: Leads(root, route, offset) && Clear(root, route, offset) ==>
                              ParentModuleName(root, offset) == Resolve(Marks(root, route, offset))
    ensures (forall route :: !Leads(root, route, offset)) ==> ParentModuleName(root, offset) == None
  {
    forall route | Leads(root, route, offset) && Clear(root, route, offset)
      ensures ParentModuleName(root, offset) == Resolve(Marks(root, route, offset))
    {
      VisitFollowsRoute(root, route, offset, Search(None, false));
    }
    if Visit(root, offset, Search(None, false)).found {
      var route := FoundOnlyByRoute(root, offset, Search(None, false));
    }
  }

  lemma {:induction false} OutsideIsSilent(n: Node, offset: nat)
    requires Nested(n) && !Contains(n, offset)
    ensures Silent(n, offset)
    decreases n
  {
    if n.kind.Other? {
      forall i | 0 <= i < |n.kids|
        ensures Silent(n.kids[i], offset)
      {
        OutsideIsSilent(n.kids[i], offset);
      }
    }
  }

  lemma {:induction false} LeadsContains(n: Node, route: seq<nat>, offset: nat)
    requires Nested(n) && Leads(n, route, offset)
    ensures Contains(n, offset)
    decreases |route|
  {
    if route != [] {
      LeadsContains(n.kids[route[0]], route[1..], offset);
    }
  }

  /** In a well-nested tree every route is clear. */
  lemma {:induction false} NestedIsClear(n: Node, route: seq<nat>, offset: nat)
    requires Nested(n) && Leads(n, route, offset)
    ensures Clear(n, route, offset)
    decreases |route|
  {
    if route != [] {
      var k := route[0];
      LeadsContains(n, route, offset);
      LeadsContains(n.kids[k], route[1..], offset);
      forall i | 0 <= i < |n.kids| && i != k
        ensures !Contains(n.kids[i], offset) && Silent(n.kids[i], offset)
      {
        assert !Contains(n.kids[i], offset);
        OutsideIsSilent(n.kids[i], offset);
      }
      NestedIsClear(n.kids[k], route[1..], offset);
    }
  }

  /** So on a well-nested tree the finder follows the ancestors of every call. */
  lemma FinderOnNestedTree(root: Node, route: seq<nat>, offset: nat)
    requires Nested(root) && Leads(root, route, offset)
    ensures ParentModuleName(root, offset) == Resolve(Marks(root, route, offset))
  {
    NestedIsClear(root, route, offset);
    FinderFollowsAncestors(root, offset);
  }

  // ------------------------------------------------------ single ancestors

  /** A call at `offset`, and nothing else. */
  function Lone(offset: nat, end: nat, name: string): Node {
    Node(offset, end, Call(name, None, false), [])
  }

  lemma LoneIsFound(offset: nat, end: nat, name: string, s: Search)
    requires offset < end
    ensures Visit(Lone(offset, end, name), offset, s) == Search(s.result, true)
  {
  }

  lemma {:induction false} OneKid(kid: Node, offset: nat, s: Search)
    ensures VisitAll([kid], offset, s) == Visit(kid, offset, s)
  {
    assert [kid][1..] == [];
    assert VisitAll([kid], offset, s) == VisitAll([], offset, Visit(kid, offset, s));
  }

  /** Inside the block of one call: the constant it is called on counts exactly if
      the method is class_eval, and any other block leaves no name. */
  lemma OneBlock(outer: Node, block: Node, name: string, receiver: Option<string>, offset: nat, end: nat, inner: string)
    requires offset < end
    requires block.kind == Block && block.start <= offset < block.end && block.kids == [Lone(offset, end, inner)]
    requires outer.kind == Call(name, receiver, true) && outer.kids == [block]
    requires outer.start < offset < outer.end
    ensures ParentModuleName(outer, offset) == if name == "class_eval" then receiver else None
  {
    var s := if name == "class_eval" && receiver.Some? then Search(receiver, false) else Search(None, false);
    LoneIsFound(offset, end, inner, s);
    OneKid(Lone(offset, end, inner), offset, s);
    assert Visit(block, offset, s) == Search(s.result, true);
    OneKid(block, offset, s);
    assert InBlock(outer, offset);
  }

  /** Inside a class, in a module or not: the class names the call if it has a name,
      and the module does not. */
  lemma OneClass(outer: Node, cls: Node, name: Option<string>, offset: nat, end: nat, inner: string)
    requires offset < end
    requires cls.kind == Class(name) && cls.start <= offset < cls.end && cls.kids == [Lone(offset, end, inner)]
    requires outer.kind == Module && outer.start <= offset < outer.end && outer.kids == [cls]
    ensures ParentModuleName(cls, offset) == name && ParentModuleName(outer, offset) == name
  {
    var s := Search(None, false);
    LoneIsFound(offset, end, inner, Search(name, false));
    LoneIsFound(offset, end, inner, s);
    OneKid(Lone(offset, end, inner), offset, Search(name, false));
    OneKid(Lone(offset, end, inner), offset, s);
    assert Visit(cls, offset, s) == Search(name, true);
    OneKid(cls, offset, s);
  }

  // ------------------------------------------------- the older, simpler finder

  /** `ClassFinder`: named classes holding the offset, the last visited wins. */
  function VisitClass(n: Node, offset: nat, name: Option<string>): Option<string>
    decreases n, 1
  {
    match n.kind
    case Class(own) =>
      if !Contains(n, offset) then name
      else VisitClasses(n.kids, offset, if own.Some? then own else name)
    case _ => VisitClasses(n.kids, offset, name)
  }

  function VisitClasses(kids: seq<Node>, offset: nat, name: Option<string>): Option<string>
    decreases kids, 0
  {
    if kids == [] then name else VisitClasses(kids[1..], offset, VisitClass(kids[0], offset, name))
  }

  class ClassFinder {
    const targetOffset: nat
    var className: Option<string>

    constructor (offset: nat)
      ensures targetOffset == offset && className == None
    {
      targetOffset := offset;
      className := None;
    }

    method VisitNode(n: Node)
      modifies this
      ensures className == VisitClass(n, targetOffset, old(className))
      decreases n, 1
    {
      if n.kind.Class? {
        if Contains(n, targetOffset) {
          if n.kind.name.Some? {
            className := n.kind.name;
          }
          VisitKids(n.kids);
        }
      } else {
        VisitKids(n.kids);
      }
    }

    method VisitKids(kids: seq<Node>)
      modifies this
      ensures className == VisitClasses(kids, targetOffset, old(className))
      decreases kids, 0
    {
      var rest := kids;
      ghost var all := VisitClasses(kids, targetOffset, className);
      while rest != []
        invariant |rest| <= |kids| && rest == kids[|kids| - |rest|..]
        invariant VisitClasses(rest, targetOffset, className) == all
        decreases |rest|
      {
        assert rest[0] in kids;
        VisitNode(rest[0]);
        rest := rest[1..];
      }
    }
  }

  function EnclosingClassName(root: Node, offset: nat): Option<string> {
    VisitClass(root, offset, None)
  }

  /** No class the older finder would come to holds the offset. */
  ghost predicate NoClassAt(n: Node, offset: nat)
    decreases n
  {
    if n.kind.Class? then !Contains(n, offset)
    else forall i :: 0 <= i < |n.kids| ==> NoClassAt(n.kids[i], offset)
  }

  /** The classes holding the offset that the older finder comes to are those on the
      route. */
  ghost predicate OnlyClassesOnRoute(n: Node, route: seq<nat>, offset: nat)
    requires Leads(n, route, offset)
    decreases |route|
  {
    && (n.kind.Class? ==> Contains(n, offset))
    && (forall i :: 0 <= i < |n.kids| && (route != [] ==> i != route[0]) ==> NoClassAt(n.kids[i], offset))
    && (route != [] ==> OnlyClassesOnRoute(n.kids[route[0]], route[1..], offset))
  }

  lemma {:induction false} ClassSilent(n: Node, offset: nat, name: Option<string>)
    requires NoClassAt(n, offset)
    ensures VisitClass(n, offset, name) == name
    decreases n, 1
  {
    if !n.kind.Class? {
      ClassesSilent(n.kids, offset, name);
    }
  }

  lemma {:induction false} ClassesSilent(kids: seq<Node>, offset: nat, name: Option<string>)
    requires forall i :: 0 <= i < |kids| ==> NoClassAt(kids[i], offset)
    ensures VisitClasses(kids, offset, name) == name
    decreases kids, 0
  {
    if kids != [] {
      ClassSilent(kids[0], offset, name);
      ClassesSilent(kids[1..], offset, name);
    }
  }

  lemma {:induction false} ClassesIsClass(kids: seq<Node>, k: nat, offset: nat, name: Option<string>)
    requires k < |kids|
    requires forall i :: 0 <= i < |kids| && i != k ==> NoClassAt(kids[i], offset)
    ensures VisitClasses(kids, offset, name) == VisitClass(kids[k], offset, name)
    decreases |kids|
  {
    if k == 0 {
      ClassesSilent(kids[1..], offset, VisitClass(kids[0], offset, name));
    } else {
      ClassSilent(kids[0], offset, name);
      ClassesIsClass(kids[1..], k - 1, offset, name);
    }
  }

  /** No ancestor call passes the way through its block. */
  ghost predicate NoBlockOnTheWay(n: Node, route: seq<nat>, offset: nat)
    requires Leads(n, route, offset)
    decreases |route|
  {
    route != [] ==>
      && (n.kind.Call? ==> MarkOf(n, route[0]) == Neutral)
      && NoBlockOnTheWay(n.kids[route[0]], route[1..], offset)
  }

  lemma {:induction false} ClassFollowsRoute(n: Node, route: seq<nat>, offset: nat, name: Option<string>)
    requires Leads(n, route, offset) && NoBlockOnTheWay(n, route, offset) && OnlyClassesOnRoute(n, route, offset)
    ensures VisitClass(n, offset, name) == Settle(Marks(n, route, offset), name)
    decreases |route|
  {
    if route == [] {
      ClassesSilent(n.kids, offset, name);
    } else {
      var k, kid := route[0], n.kids[route[0]];
      SettleCons(MarkOf(n, k), Marks(kid, route[1..], offset), name);
      var inside := if n.kind.Class? && n.kind.name.Some? then n.kind.name else name;
      ClassesIsClass(n.kids, k, offset, inside);
      ClassFollowsRoute(kid, route[1..], offset, inside);
    }
  }

  /** The two finders differ only over blocks: with no block on a clear route to the
      call, and no class off the route holding the offset, they give the same
      name. */
  lemma FindersAgreeWithoutBlocks(root: Node, route: seq<nat>, offset: nat)
    requires Leads(root, route, offset) && Clear(root, route, offset)
    requires NoBlockOnTheWay(root, route, offset) && OnlyClassesOnRoute(root, route, offset)
    ensures ParentModuleName(root, offset) == EnclosingClassName(root, offset)
  {
    FinderFollowsAncestors(root, offset);
    ClassFollowsRoute(root, route, offset, None);
  }
}
