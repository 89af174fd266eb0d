/** Whole requests followed through the planner and the generator
    (server/lib/llm.js). */
module Scenarios {
  import opened Strings
  import opened UiTree
  import opened Planning
  import opened PlanningFacts
  import opened Generation

  /** The frame a tree is built in, repeated by its own requests: the
      layout's Navbar and Sidebar lead the root's children, and a Sidebar
      followed later by a Navbar comes after them. */
  predicate RepeatsFrame(r: Result<Node>) {
    && r.Ok? && |r.value.children| >= 4
    && r.value.children[0] == NavbarNode && r.value.children[1] == SidebarNode
    && exists i, j :: 2 <= i < j < |r.value.children|
         && r.value.children[i].component == "Sidebar" && r.value.children[j].component == "Navbar"
  }

  /** A layout with both bars over requests that name a Sidebar (at `s`)
      and later a Navbar (at `n`) builds each bar twice, in that order. */
  lemma FrameRepeated(intent: string, layout: Layout, cs: seq<Request>, s: nat, n: nat)
    requires layout.hasNavbar && layout.hasSidebar
    requires forall i :: 0 <= i < |cs| ==> Allowed(cs[i].name)
    requires s < n < |cs| && cs[s].name == "Sidebar" && cs[n].name == "Navbar"
    ensures RepeatsFrame(NewTree(intent, layout, cs))
  {
    NewTreeBuilds(intent, layout, cs);
    LeavesIndex(cs);
    var children := LayoutChildren(layout) + Leaves(cs);
    assert children[2 + s].component == "Sidebar";
    assert children[2 + n].component == "Navbar";
  }

  /** When both bars fire, the checklist pushes the Sidebar and right after
      it the Navbar. */
  lemma SidebarThenNavbar(f: Fired) returns (s: nat)
    requires f.sidebar && f.navbar
    ensures s + 1 < |NameList(f)| && NameList(f)[s] == "Sidebar" && NameList(f)[s + 1] == "Navbar"
  {
    var q := EarlierNameList(f) + When(f.modal, ["Modal"] + When(!f.saysButton, ["Button"]));
    assert NameList(f) == q + ["Sidebar"] + ["Navbar"] + When(f.chart, ["Chart"]);
    s := |q|;
  }

  /** A text naming a sidebar and a navbar asks for registered components
      that hold a Sidebar and right after it a Navbar. */
  lemma BarsRequested(text: string, modalId: string) returns (s: nat)
    requires SidebarTrigger(Lower(text)) && NavbarTrigger(Lower(text))
    ensures var cs := InferredComponents(text, modalId);
      && (forall i :: 0 <= i < |cs| ==> Allowed(cs[i].name))
      && s + 1 < |cs| && cs[s].name == "Sidebar" && cs[s + 1].name == "Navbar"
  {
    RegisteredAt(text, modalId);
    s := BarsAt(text, modalId);
  }

  /** Every inferred request, by position, names a registered component. */
  lemma RegisteredAt(text: string, modalId: string)
    ensures var cs := InferredComponents(text, modalId);
      forall i :: 0 <= i < |cs| ==> Allowed(cs[i].name)
  {
    var cs := InferredComponents(text, modalId);
    InferredComponentsRegistered(text, modalId);
    assert forall i :: 0 <= i < |cs| ==> cs[i] in cs;
  }

  /** The checklist's adjacent Sidebar and Navbar, as positions among the
      inferred requests. */
  lemma BarsAt(text: string, modalId: string) returns (s: nat)
    requires SidebarTrigger(Lower(text)) && NavbarTrigger(Lower(text))
    ensures var cs := InferredComponents(text, modalId);
      s + 1 < |cs| && cs[s].name == "Sidebar" && cs[s + 1].name == "Navbar"
  {
    var f := FiredOn(Lower(text));
    var rs := TriggeredRequests(text, modalId);
    FallbackExactlyWhenNothingFires(text, modalId);
    assert InferredComponents(text, modalId) == rs;
    TriggeredNames(text, modalId);
    s := SidebarThenNavbar(f);
    NamesIndex(rs);
  }

  /** A dashboard request that also names a navbar and a sidebar gets the
      layout's Navbar and Sidebar first and then, from the component
      checklist, a second Sidebar and after it a second Navbar. */
  lemma DashboardRepeatsFrame(text: string, modalId: string)
    requires Contains(Lower(text), "dashboard") && SidebarTrigger(Lower(text)) && NavbarTrigger(Lower(text))
    ensures RepeatsFrame(NewTree(text, InferLayout(text), InferredComponents(text, modalId)))
  {
    var s := BarsRequested(text, modalId);
    FrameRepeated(text, InferLayout(text), InferredComponents(text, modalId), s, s + 1);
  }
}
