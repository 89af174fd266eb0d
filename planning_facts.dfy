/** What the planner's checklist and action list promise: every name is
    registered, entries come in checklist order and at most once each, a
    component is present exactly when its trigger fires, a modal comes with
    its opener, and patch actions come adds first, then remove, then
    simplify. */
module PlanningFacts {
  import opened Strings
  import opened UiTree
  import opened Extract
  import opened Planning

  // ------------------------------------------------------- the checklist

  /** The names of a list of requests, in order. */
  function Names(rs: seq<Request>): seq<string> {
    if rs == [] then [] else [rs[0].name] + Names(rs[1..])
  }

  predicate HasKey(props: Props, key: string) {
    props != [] && (props[0].0 == key || HasKey(props[1..], key))
  }

  /** Whether a request carries the `opensModal` prop. */
  predicate Opens(r: Request) {
    HasKey(r.props, "opensModal")
  }

  /** The candidates carry the names their entries stand for. */
  predicate Named(c: Candidates) {
    && c.button.name == "Button" && c.card.name == "Card" && c.input.name == "Input"
    && c.table.name == "Table" && c.modal.name == "Modal" && c.opener.name == "Button"
    && c.sidebar.name == "Sidebar" && c.navbar.name == "Navbar" && c.chart.name == "Chart"
  }

  lemma CandidatesNamed(text: string, modalId: string)
    ensures Named(CandidatesFor(text, modalId))
  {
  }

  lemma ButtonDoesNotOpen(text: string)
    ensures !Opens(ButtonRequest(text))
  {
    var props := ButtonRequest(text).props;
    assert props[0].0 == "children";
    assert props[0].0[0] != "opensModal"[0];
    assert !HasKey(props[1..], "opensModal");
  }

  lemma OpenerOpens(text: string, modalId: string)
    ensures Opens(OpenModalRequest(text, modalId))
  {
    var props := OpenModalRequest(text, modalId).props;
    assert props[1..][0] == ("opensModal", Str(modalId));
  }

  lemma {:induction false} NamesConcat(a: seq<Request>, b: seq<Request>)
    ensures Names(a + b) == Names(a) + Names(b)
  {
    if a != [] {
      assert (a + b)[1..] == a[1..] + b;
      NamesConcat(a[1..], b);
    } else {
      assert a + b == b;
    }
  }

  lemma NamesWhen(fires: bool, r: Request, name: string)
    requires r.name == name
    ensures Names(When(fires, [r])) == When(fires, [name])
  {
    assert Names([r]) == [name] + Names([]);
  }

  lemma NamesModal(fires: bool, withOpener: bool, modal: Request, opener: Request)
    requires modal.name == "Modal" && opener.name == "Button"
    ensures Names(When(fires, [modal] + When(withOpener, [opener]))) == When(fires, ["Modal"] + When(withOpener, ["Button"]))
  {
    if fires {
      NamesConcat([modal], When(withOpener, [opener]));
      NamesWhen(true, modal, "Modal");
      NamesWhen(withOpener, opener, "Button");
    }
  }

  lemma EarlierNames(f: Fired, c: Candidates)
    requires Named(c)
    ensures Names(EarlierEntries(f, c)) == EarlierNameList(f)
  {
    var p1, p2, p3, p4 := When(f.button, [c.button]), When(f.card, [c.card]), When(f.input, [c.input]), When(f.table, [c.table]);
    NamesWhen(f.button, c.button, "Button");
    NamesWhen(f.card, c.card, "Card");
    NamesWhen(f.input, c.input, "Input");
    NamesWhen(f.table, c.table, "Table");
    NamesConcat([], p1);
    NamesConcat([] + p1, p2);
    NamesConcat([] + p1 + p2, p3);
    NamesConcat([] + p1 + p2 + p3, p4);
  }

  lemma LaterNames(f: Fired, c: Candidates, acc: seq<Request>)
    requires Named(c)
    ensures Names(LaterEntries(f, c, acc)) == LaterNameList(f, Names(acc))
  {
    var p5 := When(f.modal, [c.modal] + When(!f.saysButton, [c.opener]));
    var p6, p7, p8 := When(f.sidebar, [c.sidebar]), When(f.navbar, [c.navbar]), When(f.chart, [c.chart]);
    NamesModal(f.modal, !f.saysButton, c.modal, c.opener);
    NamesWhen(f.sidebar, c.sidebar, "Sidebar");
    NamesWhen(f.navbar, c.navbar, "Navbar");
    NamesWhen(f.chart, c.chart, "Chart");
    NamesConcat(acc, p5);
    NamesConcat(acc + p5, p6);
    NamesConcat(acc + p5 + p6, p7);
    NamesConcat(acc + p5 + p6 + p7, p8);
  }

  /** The names of the checklist's pushes, in order. */
  function NameList(f: Fired): seq<string> {
    LaterNameList(f, EarlierNameList(f))
  }

  function EarlierNameList(f: Fired): seq<string> {
    [] + When(f.button, ["Button"]) + When(f.card, ["Card"]) + When(f.input, ["Input"]) + When(f.table, ["Table"])
  }

  function LaterNameList(f: Fired, acc: seq<string>): seq<string> {
    acc + When(f.modal, ["Modal"] + When(!f.saysButton, ["Button"]))
    + When(f.sidebar, ["Sidebar"]) + When(f.navbar, ["Navbar"]) + When(f.chart, ["Chart"])
  }

  /** The names the checklist pushes, entry by entry. */
  lemma ChecklistNames(f: Fired, c: Candidates)
    requires Named(c)
    ensures Names(Checklist(f, c)) == NameList(f)
  {
    EarlierNames(f, c);
    LaterNames(f, c, EarlierEntries(f, c));
  }

  lemma EarlierMembers(f: Fired, n: string)
    ensures n in EarlierNameList(f) <==>
      || (f.button && n == "Button") || (f.card && n == "Card") || (f.input && n == "Input") || (f.table && n == "Table")
  {
  }

  lemma LaterMembers(f: Fired, acc: seq<string>, n: string)
    ensures n in LaterNameList(f, acc) <==>
      || n in acc || (f.modal && n == "Modal") || (f.modal && !f.saysButton && n == "Button")
      || (f.sidebar && n == "Sidebar") || (f.navbar && n == "Navbar") || (f.chart && n == "Chart")
  {
  }

  /** A name is pushed exactly when an entry that pushes it fires. */
  lemma NameListMembers(f: Fired, n: string)
    ensures n in NameList(f) <==>
      || (f.button && n == "Button") || (f.card && n == "Card") || (f.input && n == "Input")
      || (f.table && n == "Table") || (f.modal && n == "Modal") || (f.modal && !f.saysButton && n == "Button")
      || (f.sidebar && n == "Sidebar") || (f.navbar && n == "Navbar") || (f.chart && n == "Chart")
  {
    EarlierMembers(f, n);
    LaterMembers(f, EarlierNameList(f), n);
  }

  /** Each registered kind is pushed exactly when its entry fires; Button
      also when the modal's opener is. */
  lemma NameListPresence(f: Fired)
    ensures "Card" in NameList(f) <==> f.card
    ensures "Input" in NameList(f) <==> f.input
    ensures "Table" in NameList(f) <==> f.table
    ensures "Modal" in NameList(f) <==> f.modal
    ensures "Sidebar" in NameList(f) <==> f.sidebar
    ensures "Navbar" in NameList(f) <==> f.navbar
    ensures "Chart" in NameList(f) <==> f.chart
    ensures "Button" in NameList(f) <==> f.button || (f.modal && !f.saysButton)
  {
    NameListMembers(f, "Card");
    NameListMembers(f, "Input");
    NameListMembers(f, "Table");
    NameListMembers(f, "Modal");
    NameListMembers(f, "Sidebar");
    NameListMembers(f, "Navbar");
    NameListMembers(f, "Chart");
    NameListMembers(f, "Button");
  }

  lemma NameListRegistered(f: Fired)
    ensures forall n :: n in NameList(f) ==> n in AllowedComponents
  {
  }

  lemma NameListEmpty(f: Fired)
    ensures NameList(f) == [] <==> !(f.button || f.card || f.input || f.table || f.modal || f.sidebar || f.navbar || f.chart)
  {
  }

  // --------------------------------------------------- on the user's text

  lemma {:induction false} NamesIndex(rs: seq<Request>)
    ensures |Names(rs)| == |rs|
    ensures forall i :: 0 <= i < |rs| ==> Names(rs)[i] == rs[i].name
  {
    if rs != [] {
      NamesIndex(rs[1..]);
    }
  }

  lemma TriggeredNames(text: string, modalId: string)
    ensures Names(TriggeredRequests(text, modalId)) == NameList(FiredOn(Lower(text)))
  {
    CandidatesNamed(text, modalId);
    ChecklistNames(FiredOn(Lower(text)), CandidatesFor(text, modalId));
  }

  /** The fallback Card is pushed exactly when no entry fires. */
  lemma FallbackExactlyWhenNothingFires(text: string, modalId: string)
    ensures AnyTrigger(Lower(text)) ==> InferredComponents(text, modalId) == TriggeredRequests(text, modalId)
    ensures !AnyTrigger(Lower(text)) ==> InferredComponents(text, modalId) == [FallbackRequest(text)]
  {
    TriggeredNames(text, modalId);
    NamesIndex(TriggeredRequests(text, modalId));
    NameListEmpty(FiredOn(Lower(text)));
  }

  /** Every inferred request names a registered component. */
  lemma InferredComponentsRegistered(text: string, modalId: string)
    ensures forall r :: r in InferredComponents(text, modalId) ==> Allowed(r.name)
  {
    var parts := TriggeredRequests(text, modalId);
    FallbackExactlyWhenNothingFires(text, modalId);
    if AnyTrigger(Lower(text)) {
      TriggeredNames(text, modalId);
      NamesIndex(parts);
      NameListRegistered(FiredOn(Lower(text)));
      forall r | r in parts
        ensures Allowed(r.name)
      {
        var i :| 0 <= i < |parts| && parts[i] == r;
        assert Names(parts)[i] in NameList(FiredOn(Lower(text)));
        AllowedIsRegistered(r.name);
      }
    } else {
      AllowedIsRegistered("Card");
    }
  }

  /** Which kinds a list of names holds, read off the lower-cased text:
      each kind exactly when one of its keywords occurs, Card also as the
      fallback, and Button also as the modal's opener when the text does
      not say "button". */
  predicate KindsMatchText(l: string, kinds: seq<string>) {
    && ("Card" in kinds <==> CardTrigger(l) || !AnyTrigger(l))
    && ("Input" in kinds <==> InputTrigger(l))
    && ("Table" in kinds <==> TableTrigger(l))
    && ("Modal" in kinds <==> ModalTrigger(l))
    && ("Sidebar" in kinds <==> SidebarTrigger(l))
    && ("Navbar" in kinds <==> NavbarTrigger(l))
    && ("Chart" in kinds <==> ChartTrigger(l))
    && ("Button" in kinds <==> ButtonTrigger(l) || (ModalTrigger(l) && !Contains(l, "button")))
  }

  lemma FiredKinds(l: string)
    requires AnyTrigger(l)
    ensures KindsMatchText(l, NameList(FiredOn(l)))
  {
    NameListPresence(FiredOn(l));
  }

  lemma FallbackKinds(l: string)
    requires !AnyTrigger(l)
    ensures KindsMatchText(l, ["Card"])
  {
  }

  /** The kinds `inferComponents` asks for, as the text determines them. */
  lemma InferredKinds(text: string, modalId: string)
    ensures KindsMatchText(Lower(text), Names(InferredComponents(text, modalId)))
  {
    var l := Lower(text);
    FallbackExactlyWhenNothingFires(text, modalId);
    if AnyTrigger(l) {
      TriggeredNames(text, modalId);
      FiredKinds(l);
    } else {
      assert Names([FallbackRequest(text)]) == ["Card"] + Names([]);
      FallbackKinds(l);
    }
  }

  /** When the modal entry fires and the opener is not suppressed, the modal
      is immediately followed by its opener. */
  lemma ChecklistModalThenOpener(f: Fired, c: Candidates)
    requires f.modal && !f.saysButton
    ensures var r := Checklist(f, c);
      exists i :: 0 <= i && i + 1 < |r| && r[i] == c.modal && r[i + 1] == c.opener
  {
    var acc := EarlierEntries(f, c);
    var p5 := When(f.modal, [c.modal] + When(!f.saysButton, [c.opener]));
    var p6, p7, p8 := When(f.sidebar, [c.sidebar]), When(f.navbar, [c.navbar]), When(f.chart, [c.chart]);
    assert p5 == [c.modal, c.opener];
    var r := acc + p5 + p6 + p7 + p8;
    assert Checklist(f, c) == r;
    assert r[|acc|] == c.modal && r[|acc| + 1] == c.opener;
    var i := |acc|;
    assert 0 <= i && i + 1 < |r| && r[i] == c.modal && r[i + 1] == c.opener;
  }

  /** The opener follows the modal and targets it by its id. */
  lemma ModalWithOpener(text: string, modalId: string)
    requires ModalTrigger(Lower(text)) && !Contains(Lower(text), "button")
    ensures var r := InferredComponents(text, modalId);
      exists i :: 0 <= i && i + 1 < |r| && r[i] == ModalRequest(text, modalId) && r[i + 1] == OpenModalRequest(text, modalId)
    ensures Lookup(ModalRequest(text, modalId).props, "id") == Some(Str(modalId))
    ensures Lookup(OpenModalRequest(text, modalId).props, "opensModal") == Some(Str(modalId))
  {
    FallbackExactlyWhenNothingFires(text, modalId);
    ChecklistModalThenOpener(FiredOn(Lower(text)), CandidatesFor(text, modalId));
  }

  // --------------------------------------------------------- the actions

  /** Adds come first, then the remove, then the simplify. */
  function Rank(a: Action): nat {
    match a
    case Add(_) => 0
    case Remove => 1
    case Simplify => 2
    case OtherAction(_) => 3
  }

  /** The action list built from its three guarded parts: each part is there
      exactly when its guard holds, the parts come in rank order, and the
      list holds one add per component when `add` holds, one remove at most,
      one simplify at most and nothing else. */
  lemma ActionListShape(components: seq<Request>, add: bool, remove: bool, simplify: bool)
    ensures var acts := ActionList(components, add, remove, simplify);
      && |acts| == (if add then |components| else 0) + (if remove then 1 else 0) + (if simplify then 1 else 0)
      && (forall i :: 0 <= i < |acts| ==> !acts[i].OtherAction?)
      && (Remove in acts <==> remove)
      && (Simplify in acts <==> simplify)
      && ((exists i :: 0 <= i < |acts| && acts[i].Add?) <==> add && |components| > 0)
      && (forall i, j :: 0 <= i < j < |acts| ==> Rank(acts[i]) <= Rank(acts[j]))
    ensures add ==> ActionList(components, add, remove, simplify)[..|components|] == AddActions(components)
  {
    var adds := When(add, AddActions(components));
    var acts := adds + When(remove, [Remove]) + When(simplify, [Simplify]);
    ActionListCounted(components, add, remove, simplify);
    assert forall i :: 0 <= i < |adds| ==> adds[i].Add?;
    assert forall i :: |adds| <= i < |acts| ==> !acts[i].Add?;
    if add && |components| > 0 {
      assert acts[0].Add?;
    }
  }

  /** The length of the action list, and that it holds only adds, removes
      and simplifies. */
  lemma ActionListCounted(components: seq<Request>, add: bool, remove: bool, simplify: bool)
    ensures var acts := ActionList(components, add, remove, simplify);
      && |acts| == (if add then |components| else 0) + (if remove then 1 else 0) + (if simplify then 1 else 0)
      && (forall i :: 0 <= i < |acts| ==> !acts[i].OtherAction?)
  {
    var adds, rest := When(add, AddActions(components)), When(remove, [Remove]) + When(simplify, [Simplify]);
    assert ActionList(components, add, remove, simplify) == adds + rest;
    assert forall i :: 0 <= i < |adds| ==> adds[i].Add?;
    assert forall i :: 0 <= i < |rest| ==> rest[i] == Remove || rest[i] == Simplify;
  }

  /** `inferModificationActions` on the user's text: the inferred components
      as adds when the text says "add", a remove when it asks to remove or
      delete and the tree has children, a simplify when it asks for
      something minimal or simpler, in that order. */
  lemma InferredActionsShape(text: string, tree: Node, modalId: string)
    ensures var acts, l := InferredActions(text, tree, modalId), Lower(text);
      && |acts| == (if Contains(l, "add") then |InferredComponents(text, modalId)| else 0)
                   + (if RemoveRequested(l) && |tree.children| > 0 then 1 else 0)
                   + (if SimplifyRequested(l) then 1 else 0)
      && (forall i :: 0 <= i < |acts| ==> !acts[i].OtherAction?)
      && (Remove in acts <==> RemoveRequested(l) && |tree.children| > 0)
      && (Simplify in acts <==> SimplifyRequested(l))
      && ((exists i :: 0 <= i < |acts| && acts[i].Add?) <==> Contains(l, "add"))
      && (forall i, j :: 0 <= i < j < |acts| ==> Rank(acts[i]) <= Rank(acts[j]))
    ensures Contains(Lower(text), "add") ==>
      var comps := InferredComponents(text, modalId);
      InferredActions(text, tree, modalId)[..|comps|] == AddActions(comps)
  {
    var l := Lower(text);
    ActionListShape(InferredComponents(text, modalId), Contains(l, "add"),
                    RemoveRequested(l) && |tree.children| > 0, SimplifyRequested(l));
  }
}
