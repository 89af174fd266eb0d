/** The generator (server/lib/llm.js): a fresh root Card for a "new" plan,
    the previous tree with its root's children edited for a "patch" plan. */
module Generation {
  import opened UiTree
  import opened Planning

  /** The node a request becomes: its name, its props, no children. */
  function Leaf(r: Request): Node {
    Node(r.name, r.props, [])
  }

  function Leaves(components: seq<Request>): seq<Node> {
    if components == [] then [] else [Leaf(components[0])] + Leaves(components[1..])
  }

  lemma {:induction false} LeavesIndex(components: seq<Request>)
    ensures |Leaves(components)| == |components|
    ensures forall i :: 0 <= i < |components| ==> Leaves(components)[i] == Leaf(components[i])
  {
    if components != [] {
      LeavesIndex(components[1..]);
    }
  }

  const NavbarNode: Node := Node("Navbar", [("title", Str("App")), ("links", Arr([]))], [])
  const SidebarNode: Node := Node("Sidebar", [], [])

  function RootProps(intent: string): Props {
    [("title", Str("UI")), ("subtitle", Str(intent))]
  }

  /** The children the layout contributes ahead of the requested ones. */
  function LayoutChildren(layout: Layout): (r: seq<Node>)
    ensures |r| == (if layout.hasNavbar then 1 else 0) + (if layout.hasSidebar then 1 else 0)
    ensures layout.hasNavbar ==> r[0] == NavbarNode
    ensures layout.hasSidebar ==> r[|r| - 1] == SidebarNode
  {
    When(layout.hasNavbar, [NavbarNode]) + When(layout.hasSidebar, [SidebarNode])
  }

  /** The root's children after pushing one leaf per request onto
      `children`, validating each request's name first. */
  function PushLeaves(children: seq<Node>, components: seq<Request>): Result<seq<Node>>
    decreases |components|
  {
    if components == [] then Ok(children)
    else if !Allowed(components[0].name) then Err(InvalidComponent(components[0].name))
    else PushLeaves(children + [Leaf(components[0])], components[1..])
  }

  /** `generateNewTree`: the root Card over the layout's children and one
      leaf per request, unless some request is unregistered. */
  function NewTree(intent: string, layout: Layout, components: seq<Request>): Result<Node> {
    match PushLeaves(LayoutChildren(layout), components)
    case Err(e) => Err(e)
    case Ok(children) => Ok(Node("Card", RootProps(intent), children))
  }

  /** With every request registered, pushing appends their leaves in order. */
  lemma {:induction false} PushLeavesRegistered(children: seq<Node>, components: seq<Request>)
    requires forall i :: 0 <= i < |components| ==> Allowed(components[i].name)
    ensures PushLeaves(children, components) == Ok(children + Leaves(components))
    decreases |components|
  {
    if components != [] {
      var rest := components[1..];
      var leaf := Leaf(components[0]);
      assert Allowed(components[0].name);
      PushLeavesRegistered(children + [leaf], rest);
      assert children + [leaf] + Leaves(rest) == children + ([leaf] + Leaves(rest));
      assert Leaves(components) == [leaf] + Leaves(rest);
      assert PushLeaves(children, components) == PushLeaves(children + [leaf], rest);
    } else {
      assert children + Leaves(components) == children;
    }
  }

  /** Pushing stops at the first unregistered request and names it. */
  lemma {:induction false} PushLeavesRejects(children: seq<Node>, components: seq<Request>, k: nat)
    requires k < |components| && !Allowed(components[k].name)
    requires forall j :: 0 <= j < k ==> Allowed(components[j].name)
    ensures PushLeaves(children, components) == Err(InvalidComponent(components[k].name))
    decreases k
  {
    if k > 0 {
      var rest := components[1..];
      assert forall j :: 0 <= j < k - 1 ==> rest[j] == components[j + 1];
      PushLeavesRejects(children + [Leaf(components[0])], rest, k - 1);
    }
  }

  /** A list holding an unregistered request has a first one. */
  lemma {:induction false} FirstUnregistered(components: seq<Request>, i: nat)
    requires i < |components| && !Allowed(components[i].name)
    ensures exists k :: 0 <= k <= i && !Allowed(components[k].name) && forall j :: 0 <= j < k ==> Allowed(components[j].name)
    decreases i
  {
    if forall j :: 0 <= j < i ==> Allowed(components[j].name) {
      assert 0 <= i <= i && !Allowed(components[i].name);
    } else {
      var j :| 0 <= j < i && !Allowed(components[j].name);
      FirstUnregistered(components, j);
    }
  }

  /** With every request registered the build is the Card titled "UI" over
      the intent, with the layout's children and then one leaf per request. */
  lemma NewTreeBuilds(intent: string, layout: Layout, components: seq<Request>)
    requires forall i :: 0 <= i < |components| ==> Allowed(components[i].name)
    ensures NewTree(intent, layout, components)
      == Ok(Node("Card", [("title", Str("UI")), ("subtitle", Str(intent))], LayoutChildren(layout) + Leaves(components)))
  {
    PushLeavesRegistered(LayoutChildren(layout), components);
  }

  /** With some request unregistered the build fails, naming the first. */
  lemma NewTreeRejects(intent: string, layout: Layout, components: seq<Request>, i: nat)
    requires i < |components| && !Allowed(components[i].name)
    ensures exists k :: (0 <= k <= i && !Allowed(components[k].name)
      && (forall j :: 0 <= j < k ==> Allowed(components[j].name))
      && NewTree(intent, layout, components) == Err(InvalidComponent(components[k].name)))
  {
    FirstUnregistered(components, i);
    var k :| 0 <= k <= i && !Allowed(components[k].name) && forall j :: 0 <= j < k ==> Allowed(components[j].name);
    PushLeavesRejects(LayoutChildren(layout), components, k);
  }

  /** `generateNewTree`, pushing onto the root's children as the source does. */
  method GenerateNewTree(plan: Plan) returns (r: Result<Node>)
    requires plan.New?
    ensures r == NewTree(plan.intent, plan.layout, plan.components)
  {
    var components := plan.components;
    var children: seq<Node> := [];
    if plan.layout.hasNavbar {
      children := children + [NavbarNode];
    }
    if plan.layout.hasSidebar {
      children := children + [SidebarNode];
    }
    assert children == LayoutChildren(plan.layout);
    var i := 0;
    while i < |components|
      invariant 0 <= i <= |components|
      invariant PushLeaves(children, components[i..]) == PushLeaves(LayoutChildren(plan.layout), components)
    {
      var c := components[i];
      assert components[i..][1..] == components[i + 1..];
      if ValidateComponent(c.name).Fail? {
        return Err(InvalidComponent(c.name));
      }
      children := children + [Leaf(c)];
      i := i + 1;
    }
    return Ok(Node("Card", RootProps(plan.intent), children));
  }

  // ---------------------------------------------------------------- patch

  /** One action on the root's children: an add appends the request's leaf
      (or aborts on an unregistered name), a remove pops the last child if
      there is one, a simplify keeps the first two; anything else is skipped. */
  function ApplyAction(children: seq<Node>, a: Action): (r: Result<seq<Node>>)
    ensures r.Err? <==> a.Add? && !Allowed(a.component.name)
    ensures r.Err? ==> r.error == InvalidComponent(a.component.name)
    ensures r.Ok? && a.Add? ==>
      |r.value| == |children| + 1 && r.value[..|children|] == children && r.value[|children|] == Leaf(a.component)
    ensures r.Ok? && a.Remove? ==>
      |r.value| == (if |children| > 0 then |children| - 1 else 0) && r.value == children[..|r.value|]
    ensures r.Ok? && a.Simplify? ==>
      |r.value| == (if |children| > 2 then 2 else |children|) && r.value == children[..|r.value|]
    ensures r.Ok? && a.OtherAction? ==> r.value == children
  {
    match a
    case Add(c) => if Allowed(c.name) then Ok(children + [Leaf(c)]) else Err(InvalidComponent(c.name))
    case Remove => Ok(if |children| > 0 then children[..|children| - 1] else children)
    case Simplify => Ok(if |children| > 2 then children[..2] else children)
    case OtherAction(_) => Ok(children)
  }

  /** The actions applied in order; the first failing one aborts. */
  function ApplyActions(children: seq<Node>, actions: seq<Action>): Result<seq<Node>>
    decreases |actions|
  {
    if actions == [] then Ok(children)
    else match ApplyAction(children, actions[0])
      case Err(e) => Err(e)
      case Ok(next) => ApplyActions(next, actions[1..])
  }

  /** `generatePatchedTree`: the tree with its root's children edited; the
      root's component and props are kept. */
  function PatchedTree(actions: seq<Action>, currentTree: Option<Node>): Result<Node> {
    match currentTree
    case None => Err(NoTreeToPatch)
    case Some(t) =>
      match ApplyActions(t.children, actions)
      case Err(e) => Err(e)
      case Ok(children) => Ok(Node(t.component, t.props, children))
  }

  /** A patch without actions gives back the tree it was given. */
  lemma EmptyPatchKeepsTree(tree: Node)
    ensures PatchedTree([], Some(tree)) == Ok(tree)
  {
  }

  /** A patch keeps the root's component and props and edits only its
      children. */
  lemma PatchKeepsRoot(actions: seq<Action>, tree: Node)
    requires PatchedTree(actions, Some(tree)).Ok?
    ensures PatchedTree(actions, Some(tree)).value.component == tree.component
    ensures PatchedTree(actions, Some(tree)).value.props == tree.props
    ensures ApplyActions(tree.children, actions) == Ok(PatchedTree(actions, Some(tree)).value.children)
  {
  }

  /** `generatePatchedTree`. The deep copy is the value semantics of `Node`:
      the caller's tree is never changed. */
  method GeneratePatchedTree(plan: Plan, currentTree: Option<Node>) returns (r: Result<Node>)
    requires plan.Patch?
    ensures r == PatchedTree(plan.actions, currentTree)
  {
    if currentTree.None? {
      return Err(NoTreeToPatch);
    }
    var tree := currentTree.value;
    var children := tree.children;
    var i := 0;
    while i < |plan.actions|
      invariant 0 <= i <= |plan.actions|
      invariant ApplyActions(children, plan.actions[i..]) == ApplyActions(tree.children, plan.actions)
    {
      var action := plan.actions[i];
      assert plan.actions[i..][1..] == plan.actions[i + 1..];
      if action.Add? {
        if ValidateComponent(action.component.name).Fail? {
          return Err(InvalidComponent(action.component.name));
        }
        children := children + [Leaf(action.component)];
      }
      if action.Remove? && |children| > 0 {
        children := children[..|children| - 1];
      }
      if action.Simplify? && |children| > 2 {
        children := children[..2];
      }
      i := i + 1;
    }
    return Ok(Node(tree.component, tree.props, children));
  }

  // ------------------------------------------------------------- dispatch

  /** `generator(plan, currentTree)`. */
  function GenerateFor(plan: Plan, currentTree: Option<Node>): (r: Result<Node>)
    ensures plan.OtherPlan? ==> r == Err(InvalidPlanType)
    ensures plan.Patch? && currentTree.None? ==> r == Err(NoTreeToPatch)
  {
    match plan
    case New(intent, layout, components) => NewTree(intent, layout, components)
    case Patch(_, _, actions) => PatchedTree(actions, currentTree)
    case OtherPlan(_) => Err(InvalidPlanType)
  }

  method Generator(plan: Plan, currentTree: Option<Node>) returns (r: Result<Node>)
    ensures r == GenerateFor(plan, currentTree)
  {
    if plan.New? {
      r := GenerateNewTree(plan);
    } else if plan.Patch? {
      r := GeneratePatchedTree(plan, currentTree);
    } else {
      r := Err(InvalidPlanType);
    }
  }
}
