/** The explainer (server/lib/llm.js): one sentence about the plan and the
    user's text. The generated tree it is handed plays no part. */
module Explanation {
  import opened Strings
  import opened UiTree
  import opened Planning
  import opened PlanningFacts

  /** What each action contributes to a patch explanation. */
  function Describe(a: Action): string {
    match a
    case Add(c) => "added " + c.name
    case Remove => "removed last component"
    case Simplify => "simplified the layout"
    case OtherAction(kind) => kind
  }

  function Descriptions(actions: seq<Action>): (r: seq<string>)
    ensures |r| == |actions|
    ensures forall i :: 0 <= i < |r| ==> r[i] == Describe(actions[i])
  {
    if actions == [] then [] else [Describe(actions[0])] + Descriptions(actions[1..])
  }

  const NewOpening: string := "Created a new UI with "
  const NewMiddle: string := " based on your request: \""
  const LayoutMiddle: string := "\". The layout uses a "
  const LayoutClosing: string := " structure."
  const PatchOpening: string := "Modified the existing UI: "
  const PatchMiddle: string := ". Your request: \""
  const Quote: string := "\""
  const Fallback: string := "UI generated successfully."

  /** `explainer(plan, generatedTree, userText)`. */
  function Explain(plan: Plan, generatedTree: Node, userText: string): string {
    match plan
    case New(_, layout, components) =>
      NewOpening + Join(", ", Names(components)) + NewMiddle + userText
      + LayoutMiddle + LayoutTypeName(layout.kind) + LayoutClosing
    case Patch(_, _, actions) =>
      PatchOpening + Join(", ", Descriptions(actions)) + PatchMiddle + userText + Quote
    case OtherPlan(_) => Fallback
  }

  /** The sentence depends on the plan and the text only. */
  lemma ExplainIgnoresTree(plan: Plan, t1: Node, t2: Node, userText: string)
    ensures Explain(plan, t1, userText) == Explain(plan, t2, userText)
  {
  }

  /** A fresh build is explained by naming every requested component. */
  lemma {:induction false} ExplainNewNamesComponents(plan: Plan, tree: Node, userText: string)
    requires plan.New?
    ensures forall i :: 0 <= i < |plan.components| ==> Contains(Explain(plan, tree, userText), plan.components[i].name)
  {
    var names := Names(plan.components);
    var joined := Join(", ", names);
    var tail := NewMiddle + userText + LayoutMiddle + LayoutTypeName(plan.layout.kind) + LayoutClosing;
    var e := Explain(plan, tree, userText);
    assert e == NewOpening + joined + tail;
    NamesIndex(plan.components);
    forall i | 0 <= i < |plan.components|
      ensures Contains(e, plan.components[i].name)
    {
      JoinContainsElement(", ", names, i);
      ContainsFramed(NewOpening, joined, tail, names[i]);
    }
  }

  /** ... and by quoting the user's text and naming the layout's type. */
  lemma ExplainNewQuotes(plan: Plan, tree: Node, userText: string)
    requires plan.New?
    ensures Contains(Explain(plan, tree, userText), userText)
    ensures Contains(Explain(plan, tree, userText), LayoutTypeName(plan.layout.kind))
  {
    var head := NewOpening + Join(", ", Names(plan.components)) + NewMiddle;
    var kind := LayoutTypeName(plan.layout.kind);
    var e := Explain(plan, tree, userText);
    assert e == head + userText + (LayoutMiddle + kind + LayoutClosing);
    ContainsAt(userText, userText, 0);
    ContainsFramed(head, userText, LayoutMiddle + kind + LayoutClosing, userText);
    assert e == head + userText + LayoutMiddle + kind + LayoutClosing;
    ContainsAt(kind, kind, 0);
    ContainsFramed(head + userText + LayoutMiddle, kind, LayoutClosing, kind);
  }

  /** A patch is explained by describing every action and by quoting the
      user's text. */
  lemma {:induction false} ExplainPatchMentions(plan: Plan, tree: Node, userText: string)
    requires plan.Patch?
    ensures forall i :: 0 <= i < |plan.actions| ==> Contains(Explain(plan, tree, userText), Describe(plan.actions[i]))
    ensures Contains(Explain(plan, tree, userText), userText)
  {
    var ds := Descriptions(plan.actions);
    var joined := Join(", ", ds);
    var e := Explain(plan, tree, userText);
    assert e == PatchOpening + joined + (PatchMiddle + userText + Quote);
    forall i | 0 <= i < |plan.actions|
      ensures Contains(e, Describe(plan.actions[i]))
    {
      JoinContainsElement(", ", ds, i);
      ContainsFramed(PatchOpening, joined, PatchMiddle + userText + Quote, ds[i]);
    }
    ContainsAt(userText, userText, 0);
    ContainsFramed(PatchOpening + joined + PatchMiddle, userText, Quote, userText);
  }

  /** `(a + b)[..|a|] == a`. */
  lemma OpensWith(a: string, b: string)
    ensures (a + b)[..|a|] == a
  {
  }

  /** A fresh build's explanation opens with `NewOpening`. */
  lemma ExplainNewOpens(plan: Plan, tree: Node, userText: string)
    requires plan.New?
    ensures Explain(plan, tree, userText)[..|NewOpening|] == NewOpening
  {
    var rest := Join(", ", Names(plan.components)) + NewMiddle + userText
      + LayoutMiddle + LayoutTypeName(plan.layout.kind) + LayoutClosing;
    assert Explain(plan, tree, userText) == NewOpening + rest;
    OpensWith(NewOpening, rest);
  }

  /** A patch's explanation opens with `PatchOpening`. */
  lemma ExplainPatchOpens(plan: Plan, tree: Node, userText: string)
    requires plan.Patch?
    ensures Explain(plan, tree, userText)[..|PatchOpening|] == PatchOpening
  {
    var rest := Join(", ", Descriptions(plan.actions)) + PatchMiddle + userText + Quote;
    assert Explain(plan, tree, userText) == PatchOpening + rest;
    OpensWith(PatchOpening, rest);
  }
}
