/** `validateTree` (server/routes/generate.js): every node reachable from
    the root must name a registered component; the first node that does
    not, in pre-order, decides the error. */
module Validation {
  import opened UiTree

  /** `validateTree(tree)`: an absent tree is rejected like a node without
      a component. */
  function ValidateTree(tree: Option<Node>): Outcome {
    match tree
    case None => Fail(MissingComponent)
    case Some(n) => ValidateNode(n)
  }

  /** The node itself first, then its children left to right. */
  function ValidateNode(n: Node): Outcome
    decreases n, 1
  {
    if n.component == "" then Fail(MissingComponent)
    else match ValidateComponent(n.component)
      case Fail(e) => Fail(e)
      case Pass => ValidateChildren(n.children)
  }

  /** `children.forEach(child => validateTree(child))`: the first failing
      child's error. */
  function ValidateChildren(children: seq<Node>): Outcome
    decreases children, 0
  {
    if children == [] then Pass
    else match ValidateNode(children[0])
      case Fail(e) => Fail(e)
      case Pass => ValidateChildren(children[1..])
  }

  // --------------------------------------------------- pre-order reading

  /** The components of every node reachable from `n`, in pre-order. */
  function PreOrder(n: Node): seq<string>
    decreases n, 1
  {
    [n.component] + PreOrderAll(n.children)
  }

  function PreOrderAll(children: seq<Node>): seq<string>
    decreases children, 0
  {
    if children == [] then [] else PreOrder(children[0]) + PreOrderAll(children[1..])
  }

  /** What checking one component name at a time comes to. */
  function Check(name: string): Outcome {
    if name == "" then Fail(MissingComponent)
    else if !Allowed(name) then Fail(InvalidComponent(name))
    else Pass
  }

  /** A left-to-right scan of names that stops at the first failing one. */
  function Scan(names: seq<string>): Outcome {
    if names == [] then Pass
    else if Check(names[0]).Fail? then Check(names[0])
    else Scan(names[1..])
  }

  lemma {:induction false} ScanAppend(a: seq<string>, b: seq<string>)
    ensures Scan(a + b) == if Scan(a).Fail? then Scan(a) else Scan(b)
  {
    if a == [] {
      assert a + b == b;
    } else {
      assert (a + b)[1..] == a[1..] + b;
      ScanAppend(a[1..], b);
    }
  }

  /** Validating a node is scanning its pre-order reading. */
  lemma {:induction false} ValidateIsScan(n: Node)
    ensures ValidateNode(n) == Scan(PreOrder(n))
    decreases n, 1
  {
    ValidateChildrenIsScan(n.children);
    ScanAppend([n.component], PreOrderAll(n.children));
    assert ([n.component] + PreOrderAll(n.children))[1..] == PreOrderAll(n.children);
    AllowedIsRegistered(n.component);
  }

  lemma {:induction false} ValidateChildrenIsScan(children: seq<Node>)
    ensures ValidateChildren(children) == Scan(PreOrderAll(children))
    decreases children, 0
  {
    if children != [] {
      ValidateIsScan(children[0]);
      ValidateChildrenIsScan(children[1..]);
      ScanAppend(PreOrder(children[0]), PreOrderAll(children[1..]));
    }
  }

  /** A scan passes exactly when every name is registered. */
  lemma {:induction false} ScanPasses(names: seq<string>)
    ensures Scan(names).Pass? <==> forall i :: 0 <= i < |names| ==> Allowed(names[i])
  {
    if names != [] {
      ScanPasses(names[1..]);
      AllowedIsRegistered("");
      assert forall i :: 0 < i < |names| ==> names[i] == names[1..][i - 1];
    }
  }

  /** The scan stops at the first unregistered name. */
  lemma {:induction false} ScanStopsAt(names: seq<string>, k: nat)
    requires k < |names| && !Allowed(names[k])
    requires forall j :: 0 <= j < k ==> Allowed(names[j])
    ensures Scan(names) == Check(names[k])
    decreases k
  {
    AllowedIsRegistered("");
    if k > 0 {
      assert names[1..][k - 1] == names[k];
      ScanStopsAt(names[1..], k - 1);
    }
  }

  /** A list holding an unregistered name has a first one. */
  lemma {:induction false} FirstNotAllowed(names: seq<string>, i: nat)
    requires i < |names| && !Allowed(names[i])
    ensures exists k :: 0 <= k <= i && !Allowed(names[k]) && forall j :: 0 <= j < k ==> Allowed(names[j])
    decreases i
  {
    if forall j :: 0 <= j < i ==> Allowed(names[j]) {
      assert 0 <= i <= i && !Allowed(names[i]);
    } else {
      var j :| 0 <= j < i && !Allowed(names[j]);
      FirstNotAllowed(names, j);
    }
  }

  /** A failing scan reports the first unregistered name: as a missing
      component when it is empty, as an invalid one otherwise. */
  lemma ScanFails(names: seq<string>)
    requires Scan(names).Fail?
    ensures exists i :: (0 <= i < |names| && !Allowed(names[i])
      && (forall j :: 0 <= j < i ==> Allowed(names[j]))
      && Scan(names).error == (if names[i] == "" then MissingComponent else InvalidComponent(names[i])))
  {
    ScanPasses(names);
    var i :| 0 <= i < |names| && !Allowed(names[i]);
    FirstNotAllowed(names, i);
    var k :| 0 <= k <= i && !Allowed(names[k]) && forall j :: 0 <= j < k ==> Allowed(names[j]);
    ScanStopsAt(names, k);
    CheckFails(names[k]);
    assert Scan(names).error == (if names[k] == "" then MissingComponent else InvalidComponent(names[k]));
  }

  /** An unregistered name fails the check, as a missing component when it
      is empty. */
  lemma CheckFails(name: string)
    requires !Allowed(name)
    ensures Check(name) == Fail(if name == "" then MissingComponent else InvalidComponent(name))
  {
  }

  /** `validateTree` passes exactly when every reachable node names a
      registered component. */
  lemma ValidatePassesIff(n: Node)
    ensures ValidateNode(n).Pass? <==> forall i :: 0 <= i < |PreOrder(n)| ==> Allowed(PreOrder(n)[i])
  {
    ValidateIsScan(n);
    ScanPasses(PreOrder(n));
  }

  /** `validateTree` on an absent tree or on a node without a component
      throws "missing component". */
  lemma ValidateTreeMissing(tree: Option<Node>)
    requires tree.None? || tree.value.component == ""
    ensures ValidateTree(tree) == Fail(MissingComponent)
    ensures Message(ValidateTree(tree).error) == "Invalid tree: missing component"
  {
  }

  /** `validateTree` passes exactly on a present tree all of whose nodes name
      registered components. */
  lemma ValidateTreePasses(tree: Option<Node>)
    ensures ValidateTree(tree).Pass? <==>
      tree.Some? && forall i :: 0 <= i < |PreOrder(tree.value)| ==> Allowed(PreOrder(tree.value)[i])
  {
    if tree.Some? {
      ValidatePassesIff(tree.value);
    }
  }

  /** A failing `validateTree` reports the first offending node in
      pre-order. */
  lemma ValidateReportsFirst(n: Node)
    requires ValidateNode(n).Fail?
    ensures var names := PreOrder(n);
      exists i :: (0 <= i < |names| && !Allowed(names[i])
        && (forall j :: 0 <= j < i ==> Allowed(names[j]))
        && ValidateNode(n).error == (if names[i] == "" then MissingComponent else InvalidComponent(names[i])))
  {
    ValidateIsScan(n);
    ScanFails(PreOrder(n));
  }

  /** Children pass exactly when each child passes. */
  lemma {:induction false} ValidateChildrenEach(children: seq<Node>)
    ensures ValidateChildren(children).Pass? <==> forall i :: 0 <= i < |children| ==> ValidateNode(children[i]).Pass?
  {
    if children != [] {
      ValidateChildrenEach(children[1..]);
      assert forall i :: 0 < i < |children| ==> children[i] == children[1..][i - 1];
    }
  }

  /** A node without children passes exactly when its own name is
      registered. */
  lemma LeafValidates(name: string, props: Props)
    ensures ValidateNode(Node(name, props, [])).Pass? <==> name in AllowedComponents
  {
    AllowedIsRegistered(name);
    AllowedIsRegistered("");
  }
}
