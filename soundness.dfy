/** What the planner and the generator together guarantee
    (server/lib/llm.js, server/routes/generate.js): every tree generated
    from a planned request passes `validateTree`. */
module Soundness {
  import opened Strings
  import opened UiTree
  import opened Sanitize
  import opened Planning
  import opened PlanningFacts
  import opened Generation
  import opened Validation

  /** A request with a registered name becomes a valid leaf. */
  lemma AllowedLeafValidates(r: Request)
    requires Allowed(r.name)
    ensures ValidateNode(Leaf(r)).Pass?
  {
    LeafValidates(r.name, r.props);
    AllowedIsRegistered(r.name);
  }

  /** A node passes exactly when its name is registered and each child passes. */
  lemma NodeValidates(n: Node)
    ensures ValidateNode(n).Pass? <==>
      n.component in AllowedComponents && forall i :: 0 <= i < |n.children| ==> ValidateNode(n.children[i]).Pass?
  {
    ValidateChildrenEach(n.children);
    AllowedIsRegistered("");
    AllowedIsRegistered(n.component);
  }

  /** The layout's children are valid. */
  lemma LayoutChildrenValidate(layout: Layout)
    ensures forall i :: 0 <= i < |LayoutChildren(layout)| ==> ValidateNode(LayoutChildren(layout)[i]).Pass?
  {
    LeafValidates("Navbar", NavbarNode.props);
    LeafValidates("Sidebar", SidebarNode.props);
  }

  /** The leaves of registered requests are valid. */
  lemma LeavesValidate(components: seq<Request>)
    requires forall i :: 0 <= i < |components| ==> Allowed(components[i].name)
    ensures forall i :: 0 <= i < |Leaves(components)| ==> ValidateNode(Leaves(components)[i]).Pass?
  {
    LeavesIndex(components);
    forall i | 0 <= i < |components|
      ensures ValidateNode(Leaves(components)[i]).Pass?
    {
      AllowedLeafValidates(components[i]);
    }
  }

  lemma ConcatValidates(a: seq<Node>, b: seq<Node>)
    requires forall i :: 0 <= i < |a| ==> ValidateNode(a[i]).Pass?
    requires forall i :: 0 <= i < |b| ==> ValidateNode(b[i]).Pass?
    ensures forall i :: 0 <= i < |a + b| ==> ValidateNode((a + b)[i]).Pass?
  {
    forall i | 0 <= i < |a + b|
      ensures ValidateNode((a + b)[i]).Pass?
    {
      if i >= |a| {
        assert (a + b)[i] == b[i - |a|];
      }
    }
  }

  /** A fresh build over registered requests is a valid tree. */
  lemma NewTreeValidates(intent: string, layout: Layout, components: seq<Request>)
    requires forall i :: 0 <= i < |components| ==> Allowed(components[i].name)
    ensures NewTree(intent, layout, components).Ok?
    ensures ValidateNode(NewTree(intent, layout, components).value).Pass?
  {
    NewTreeBuilds(intent, layout, components);
    LayoutChildrenValidate(layout);
    LeavesValidate(components);
    ConcatValidates(LayoutChildren(layout), Leaves(components));
    NodeValidates(NewTree(intent, layout, components).value);
  }

  /** Actions whose adds are registered, applied to valid children, succeed
      and leave valid children. */
  lemma {:induction false} ApplyActionsKeepsValid(children: seq<Node>, actions: seq<Action>)
    requires forall i :: 0 <= i < |children| ==> ValidateNode(children[i]).Pass?
    requires forall i :: 0 <= i < |actions| && actions[i].Add? ==> Allowed(actions[i].component.name)
    ensures ApplyActions(children, actions).Ok?
    ensures forall i :: 0 <= i < |ApplyActions(children, actions).value| ==> ValidateNode(ApplyActions(children, actions).value[i]).Pass?
    decreases |actions|
  {
    if actions != [] {
      var a := actions[0];
      var next := ApplyAction(children, a);
      assert next.Ok?;
      if a.Add? {
        AllowedLeafValidates(a.component);
        assert forall i :: 0 <= i < |children| ==> next.value[i] == children[i];
      } else {
        assert forall i :: 0 <= i < |next.value| ==> next.value[i] == children[i];
      }
      assert forall i :: 0 <= i < |actions| - 1 ==> actions[1..][i] == actions[i + 1];
      ApplyActionsKeepsValid(next.value, actions[1..]);
    }
  }

  /** Patching a valid tree with registered adds yields a valid tree that
      keeps the root's component and props. */
  lemma PatchedTreeValidates(actions: seq<Action>, tree: Node)
    requires ValidateNode(tree).Pass?
    requires forall i :: 0 <= i < |actions| && actions[i].Add? ==> Allowed(actions[i].component.name)
    ensures PatchedTree(actions, Some(tree)).Ok?
    ensures ValidateNode(PatchedTree(actions, Some(tree)).value).Pass?
    ensures PatchedTree(actions, Some(tree)).value.component == tree.component
    ensures PatchedTree(actions, Some(tree)).value.props == tree.props
  {
    NodeValidates(tree);
    ApplyActionsKeepsValid(tree.children, actions);
    NodeValidates(PatchedTree(actions, Some(tree)).value);
  }

  /** The adds of an action list carry the components it was built from. */
  lemma ActionListAddsFrom(components: seq<Request>, add: bool, remove: bool, simplify: bool)
    requires forall r :: r in components ==> Allowed(r.name)
    ensures var acts := ActionList(components, add, remove, simplify);
      forall i :: 0 <= i < |acts| && acts[i].Add? ==> Allowed(acts[i].component.name)
  {
    var adds := When(add, AddActions(components));
    var acts := ActionList(components, add, remove, simplify);
    forall i | 0 <= i < |acts| && acts[i].Add?
      ensures Allowed(acts[i].component.name)
    {
      assert i < |adds|;
      assert acts[i] == Add(components[i]);
      assert components[i] in components;
    }
  }

  /** Every add the modification inference produces carries a registered
      component. */
  lemma InferredAddsRegistered(text: string, tree: Node, modalId: string)
    ensures var acts := InferredActions(text, tree, modalId);
      forall i :: 0 <= i < |acts| && acts[i].Add? ==> Allowed(acts[i].component.name)
  {
    var l := Lower(text);
    InferredComponentsRegistered(text, modalId);
    ActionListAddsFrom(InferredComponents(text, modalId), Contains(l, "add"),
                       RemoveRequested(l) && |tree.children| > 0, SimplifyRequested(l));
  }

  /** What the generator needs of a plan to build a valid tree. */
  predicate Generable(plan: Plan, currentTree: Option<Node>) {
    match plan
    case New(_, _, components) => forall i :: 0 <= i < |components| ==> Allowed(components[i].name)
    case Patch(_, _, actions) =>
      && currentTree.Some? && ValidateNode(currentTree.value).Pass?
      && forall i :: 0 <= i < |actions| && actions[i].Add? ==> Allowed(actions[i].component.name)
    case OtherPlan(_) => false
  }

  /** A generable plan is built into a valid tree. */
  lemma GenerableValidates(plan: Plan, currentTree: Option<Node>)
    requires Generable(plan, currentTree)
    ensures GenerateFor(plan, currentTree).Ok?
    ensures ValidateNode(GenerateFor(plan, currentTree).value).Pass?
  {
    if plan.New? {
      NewTreeValidates(plan.intent, plan.layout, plan.components);
    } else {
      PatchedTreeValidates(plan.actions, currentTree.value);
    }
  }

  /** A fresh build the planner makes is generable. */
  lemma NewPlanGenerable(sanitized: string, currentTree: Option<Node>, modalId: string)
    ensures Generable(New(sanitized, InferLayout(sanitized), InferredComponents(sanitized, modalId)), currentTree)
  {
    InferredComponentsRegistered(sanitized, modalId);
    RegisteredNewGenerable(sanitized, InferLayout(sanitized), InferredComponents(sanitized, modalId), currentTree);
  }

  /** A fresh build is generable once every request is registered. */
  lemma RegisteredNewGenerable(intent: string, layout: Layout, components: seq<Request>, currentTree: Option<Node>)
    requires forall r :: r in components ==> Allowed(r.name)
    ensures Generable(New(intent, layout, components), currentTree)
  {
    assert forall i :: 0 <= i < |components| ==> components[i] in components;
  }

  /** Every plan the planner makes of a sanitised text is generable,
      provided the tree it patches is valid. */
  lemma PlannedIsGenerable(sanitized: string, currentTree: Option<Node>, modalId: string)
    requires currentTree.Some? ==> ValidateNode(currentTree.value).Pass?
    ensures Generable(PlanOf(sanitized, currentTree, modalId), currentTree)
  {
    if currentTree.Some? && ModificationRequested(Lower(sanitized)) {
      InferredAddsRegistered(sanitized, currentTree.value, modalId);
    } else {
      NewPlanGenerable(sanitized, currentTree, modalId);
    }
  }

  /** Whatever the planner makes of a request, the generator builds a valid
      tree from it, provided the tree it patches is valid. */
  lemma PlannedTreeValidates(userText: string, currentTree: Option<Node>, modalId: string)
    requires currentTree.Some? ==> ValidateNode(currentTree.value).Pass?
    ensures GenerateFor(PlanFor(userText, currentTree, modalId), currentTree).Ok?
    ensures ValidateNode(GenerateFor(PlanFor(userText, currentTree, modalId), currentTree).value).Pass?
  {
    PlannedIsGenerable(SanitizeInput(Str(userText)), currentTree, modalId);
    GenerableValidates(PlanFor(userText, currentTree, modalId), currentTree);
  }
}
