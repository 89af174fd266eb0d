/** The planner of server/lib/llm.js: the keyword classifier that chooses a
    fresh build or a patch, layout inference, the component checklist and
    the patch actions. Every trigger is substring containment in the
    lower-cased sanitised text, so "nav" fires inside "navbar" and "add"
    inside "address". */
module Planning {
  import opened Strings
  import opened UiTree
  import opened Sanitize
  import opened Extract

  // ---------------------------------------------------------------- layout

  datatype LayoutType = DashboardLayout | ModalLayout | FormLayout | TableLayout | DefaultLayout

  /** The layout's `type` string. */
  function LayoutTypeName(t: LayoutType): string {
    match t
    case DashboardLayout => "dashboard"
    case ModalLayout => "modal"
    case FormLayout => "form"
    case TableLayout => "table"
    case DefaultLayout => "default"
  }

  /** A layout object; a flag the source object does not set is `false`. */
  datatype Layout = Layout(kind: LayoutType, hasNavbar: bool, hasSidebar: bool,
                           hasModal: bool, hasCard: bool, hasTable: bool)

  /** `inferLayout`: the first phrase group that occurs decides the layout,
      in the priority dashboard, modal/dialog, form, table/list, default. */
  function InferLayout(text: string): (r: Layout)
    ensures var l := Lower(text);
      && (r.kind == DashboardLayout <==> Contains(l, "dashboard"))
      && (r.kind == ModalLayout <==>
            !Contains(l, "dashboard") && (Contains(l, "modal") || Contains(l, "dialog")))
      && (r.kind == FormLayout <==>
            !Contains(l, "dashboard") && !Contains(l, "modal") && !Contains(l, "dialog") && Contains(l, "form"))
      && (r.kind == TableLayout <==>
            !Contains(l, "dashboard") && !Contains(l, "modal") && !Contains(l, "dialog") && !Contains(l, "form")
            && (Contains(l, "table") || Contains(l, "list")))
    ensures r.hasNavbar <==> r.kind == DashboardLayout
    ensures r.hasSidebar <==> r.kind == DashboardLayout
    ensures r.hasCard <==> r.kind in {FormLayout, DefaultLayout}
  {
    var l := Lower(text);
    if Contains(l, "dashboard") then Layout(DashboardLayout, true, true, false, false, false)
    else if Contains(l, "modal") || Contains(l, "dialog") then Layout(ModalLayout, false, false, true, false, false)
    else if Contains(l, "form") then Layout(FormLayout, false, false, false, true, false)
    else if Contains(l, "table") || Contains(l, "list") then Layout(TableLayout, false, false, false, false, true)
    else Layout(DefaultLayout, false, false, false, true, false)
  }

  // ------------------------------------------------------------ components

  /** A component request `{name, props}`. */
  datatype Request = Request(name: string, props: Props)

  predicate ButtonTrigger(l: string) { Contains(l, "button") || Contains(l, "click") }
  predicate CardTrigger(l: string) { Contains(l, "card") || Contains(l, "container") }
  predicate InputTrigger(l: string) { Contains(l, "input") || Contains(l, "field") || Contains(l, "form") }
  predicate TableTrigger(l: string) { Contains(l, "table") || Contains(l, "data") || Contains(l, "list") }
  predicate ModalTrigger(l: string) {
    Contains(l, "modal") || Contains(l, "dialog") || Contains(l, "popup") || Contains(l, "settings")
  }
  predicate SidebarTrigger(l: string) { Contains(l, "sidebar") || Contains(l, "side panel") }
  predicate NavbarTrigger(l: string) { Contains(l, "navbar") || Contains(l, "navigation") || Contains(l, "nav") }
  predicate ChartTrigger(l: string) { Contains(l, "chart") || Contains(l, "graph") || Contains(l, "visualization") }

  predicate AnyTrigger(l: string) {
    ButtonTrigger(l) || CardTrigger(l) || InputTrigger(l) || TableTrigger(l)
    || ModalTrigger(l) || SidebarTrigger(l) || NavbarTrigger(l) || ChartTrigger(l)
  }

  /** "navbar" and "navigation" both contain "nav": the navbar trigger is
      just "nav" as a substring. */
  lemma NavbarTriggerIsNav(l: string)
    ensures NavbarTrigger(l) <==> Contains(l, "nav")
  {
    if Contains(l, "navbar") {
      ContainsPrefix(l, "navbar", 3);
      assert "navbar"[..3] == "nav";
    }
    if Contains(l, "navigation") {
      ContainsPrefix(l, "navigation", 3);
      assert "navigation"[..3] == "nav";
    }
  }

  /** `extractSubtitle`: the text itself up to 100 characters, otherwise its
      first 100 characters and an ellipsis. */
  function ExtractSubtitle(text: string): (r: string)
    ensures |r| == if |text| <= 100 then |text| else 103
    ensures |text| <= 100 ==> r == text
    ensures |text| > 100 ==> r[..100] == text[..100] && r[100..] == "..."
  {
    if |text| > 100 then text[..100] + "..." else text
  }

  function StrArray(xs: seq<string>): (r: Value)
    ensures r.Arr? && |r.items| == |xs|
    ensures forall i :: 0 <= i < |xs| ==> r.items[i] == Str(xs[i])
  {
    Arr(seq(|xs|, i requires 0 <= i < |xs| => Str(xs[i])))
  }

  function Rows(rows: seq<seq<string>>): Value {
    Arr(seq(|rows|, i requires 0 <= i < |rows| => StrArray(rows[i])))
  }

  datatype TableData = TableData(headers: Value, rows: Value)

  const UserHeaders: seq<string> := ["Name", "Email", "Role"]
  const UserRows: seq<seq<string>> := [
    ["John Doe", "john@example.com", "Admin"],
    ["Jane Smith", "jane@example.com", "User"],
    ["Bob Johnson", "bob@example.com", "User"]]
  const ProductHeaders: seq<string> := ["Product", "Price", "Stock"]
  const ProductRows: seq<seq<string>> := [
    ["Widget A", "$10.00", "50"],
    ["Widget B", "$15.00", "30"],
    ["Widget C", "$20.00", "20"]]
  const DefaultHeaders: seq<string> := ["Name", "Value", "Status"]
  const DefaultRows: seq<seq<string>> := [
    ["Item 1", "Value 1", "Active"],
    ["Item 2", "Value 2", "Pending"],
    ["Item 3", "Value 3", "Completed"]]

  /** `extractTableData`: user sample data, else product sample data, else
      `null`. */
  function ExtractTableData(text: string): (r: Option<TableData>)
    ensures var l := Lower(text);
      && (Contains(l, "user") ==> r == Some(TableData(StrArray(UserHeaders), Rows(UserRows))))
      && (!Contains(l, "user") && Contains(l, "product") ==> r == Some(TableData(StrArray(ProductHeaders), Rows(ProductRows))))
      && (r.None? <==> !Contains(l, "user") && !Contains(l, "product"))
  {
    var l := Lower(text);
    PluralsHoldSingulars(l);
    if Contains(l, "user") || Contains(l, "users") then
      Some(TableData(StrArray(UserHeaders), Rows(UserRows)))
    else if Contains(l, "product") || Contains(l, "products") then
      Some(TableData(StrArray(ProductHeaders), Rows(ProductRows)))
    else None
  }

  /** The plural alternatives of `extractTableData` add nothing. */
  lemma PluralsHoldSingulars(l: string)
    ensures Contains(l, "users") ==> Contains(l, "user")
    ensures Contains(l, "products") ==> Contains(l, "product")
  {
    if Contains(l, "users") {
      ContainsPrefix(l, "users", 4);
      assert "users"[..4] == "user";
    }
    if Contains(l, "products") {
      ContainsPrefix(l, "products", 7);
      assert "products"[..7] == "product";
    }
  }

  /** The Table's props, with the defaults taken when `extractTableData`
      finds no domain (the intended reading; see `Findings`). */
  function TableProps(text: string): Props {
    match ExtractTableData(text)
    case Some(d) => [("headers", d.headers), ("rows", d.rows)]
    case None => [("headers", StrArray(DefaultHeaders)), ("rows", Rows(DefaultRows))]
  }

  /** `extractButtonText(text) || "Click Me"`: an extracted text is never
      empty, so the default is taken exactly when nothing was extracted. */
  function ButtonLabel(text: string): string {
    match ExtractButtonText(text)
    case Some(t) => t
    case None => "Click Me"
  }

  function ButtonRequest(text: string): Request {
    Request("Button", [("children", Str(ButtonLabel(text)))])
  }

  function CardRequest(text: string): Request {
    Request("Card", [("title", Str(ExtractTitle(text))), ("subtitle", Str(ExtractSubtitle(text)))])
  }

  const InputRequest: Request := Request("Input", [("placeholder", Str("Enter text..."))])

  function TableRequest(text: string): Request {
    Request("Table", TableProps(text))
  }

  function ModalRequest(text: string, modalId: string): Request {
    var title := ExtractModalTitle(text);
    Request("Modal", [("id", Str(modalId)),
                      ("title", Str(if title.Some? then title.value else "Modal Title")),
                      ("isOpen", Bool(false))])
  }

  /** The Button that opens the modal, added when the text does not ask for
      a button itself. */
  function OpenModalRequest(text: string, modalId: string): Request {
    var title := ExtractModalTitle(text);
    Request("Button", [("children", Str("Open " + if title.Some? then title.value else "Modal")),
                       ("opensModal", Str(modalId))])
  }

  const SidebarRequest: Request := Request("Sidebar", [])
  const NavbarRequest: Request := Request("Navbar", [("title", Str("App")), ("links", Arr([]))])
  const ChartRequest: Request :=
    Request("Chart", [("type", Str("bar")),
                      ("data", Arr([Num(10), Num(20), Num(30)])),
                      ("labels", Arr([Str("A"), Str("B"), Str("C")]))])

  /** The single component returned when no trigger fires. */
  function FallbackRequest(text: string): Request {
    Request("Card", [("title", Str("UI")), ("subtitle", Str(text))])
  }

  /** `xs` when its push is guarded by a condition that holds, else nothing. */
  function When<T>(fires: bool, xs: seq<T>): seq<T> {
    if fires then xs else []
  }

  /** Which checklist entries fire on the lower-cased text, and whether the
      text says "button" (which suppresses the modal's opener). */
  datatype Fired = Fired(button: bool, card: bool, input: bool, table: bool, modal: bool,
                         saysButton: bool, sidebar: bool, navbar: bool, chart: bool)

  function FiredOn(l: string): Fired {
    Fired(ButtonTrigger(l), CardTrigger(l), InputTrigger(l), TableTrigger(l), ModalTrigger(l),
          Contains(l, "button"), SidebarTrigger(l), NavbarTrigger(l), ChartTrigger(l))
  }

  /** The request each checklist entry pushes when it fires. */
  datatype Candidates = Candidates(button: Request, card: Request, input: Request, table: Request,
                                   modal: Request, opener: Request,
                                   sidebar: Request, navbar: Request, chart: Request)

  function CandidatesFor(text: string, modalId: string): Candidates {
    Candidates(ButtonRequest(text), CardRequest(text), InputRequest, TableRequest(text),
               ModalRequest(text, modalId), OpenModalRequest(text, modalId),
               SidebarRequest, NavbarRequest, ChartRequest)
  }

  /** The checklist in its fixed order: each entry pushes its request when
      it fires, and the modal entry also pushes the opener unless the text
      says "button". */
  function Checklist(f: Fired, c: Candidates): seq<Request> {
    LaterEntries(f, c, EarlierEntries(f, c))
  }

  /** The pushes of the first four entries. */
  function EarlierEntries(f: Fired, c: Candidates): seq<Request> {
    []
    + When(f.button, [c.button])
    + When(f.card, [c.card])
    + When(f.input, [c.input])
    + When(f.table, [c.table])
  }

  /** `acc` followed by the pushes of the remaining entries. */
  function LaterEntries(f: Fired, c: Candidates, acc: seq<Request>): seq<Request> {
    acc
    + When(f.modal, [c.modal] + When(!f.saysButton, [c.opener]))
    + When(f.sidebar, [c.sidebar])
    + When(f.navbar, [c.navbar])
    + When(f.chart, [c.chart])
  }

  function TriggeredRequests(text: string, modalId: string): seq<Request> {
    Checklist(FiredOn(Lower(text)), CandidatesFor(text, modalId))
  }

  /** `inferComponents(text)` with the modal id passed in: the checklist's
      pushes, or the single fallback Card when none fired. */
  function InferredComponents(text: string, modalId: string): (r: seq<Request>)
    ensures |r| > 0
  {
    var parts := TriggeredRequests(text, modalId);
    if |parts| > 0 then parts else [FallbackRequest(text)]
  }

  /** `inferComponents`, pushing onto a local array as the source does. */
  method InferComponents(userText: string, modalId: string) returns (components: seq<Request>)
    ensures components == InferredComponents(userText, modalId)
  {
    var lower := Lower(userText);
    var fired := FiredOn(lower);
    components := [];
    components := components + When(fired.button, [ButtonRequest(userText)]);
    components := components + When(fired.card, [CardRequest(userText)]);
    components := components + When(fired.input, [InputRequest]);
    components := components + When(fired.table, [TableRequest(userText)]);
    assert components == EarlierEntries(fired, CandidatesFor(userText, modalId));
    components := components +
      When(fired.modal, [ModalRequest(userText, modalId)] + When(!fired.saysButton, [OpenModalRequest(userText, modalId)]));
    components := components + When(fired.sidebar, [SidebarRequest]);
    components := components + When(fired.navbar, [NavbarRequest]);
    components := components + When(fired.chart, [ChartRequest]);
    components := if |components| > 0 then components else [FallbackRequest(userText)];
  }

  // --------------------------------------------------------------- actions

  /** A patch action; `OtherAction` is an action of any other type, which the
      generator skips and the explainer names by its type. */
  datatype Action = Add(component: Request) | Remove | Simplify | OtherAction(kind: string)

  function AddActions(components: seq<Request>): (r: seq<Action>)
    ensures |r| == |components|
    ensures forall i :: 0 <= i < |r| ==> r[i] == Add(components[i])
  {
    if components == [] then [] else [Add(components[0])] + AddActions(components[1..])
  }

  predicate RemoveRequested(l: string) { Contains(l, "remove") || Contains(l, "delete") }
  predicate SimplifyRequested(l: string) { Contains(l, "minimal") || Contains(l, "simpler") }

  /** `inferModificationActions`: adds, then at most one remove, then at most
      one simplify. */
  function InferredActions(text: string, tree: Node, modalId: string): seq<Action> {
    var l := Lower(text);
    ActionList(InferredComponents(text, modalId), Contains(l, "add"),
               RemoveRequested(l) && |tree.children| > 0, SimplifyRequested(l))
  }

  /** The action list from its three guarded parts. */
  function ActionList(components: seq<Request>, add: bool, remove: bool, simplify: bool): seq<Action> {
    When(add, AddActions(components)) + When(remove, [Remove]) + When(simplify, [Simplify])
  }

  /** `inferModificationActions`. */
  method InferModificationActions(userText: string, currentTree: Node, modalId: string)
    returns (actions: seq<Action>)
    ensures actions == InferredActions(userText, currentTree, modalId)
  {
    actions := [];
    if Contains(Lower(userText), "add") {
      var components := InferComponents(userText, modalId);
      actions := PushAdds(actions, components);
    }
    assert actions == When(Contains(Lower(userText), "add"), AddActions(InferredComponents(userText, modalId)));
    actions := actions + When(RemoveRequested(Lower(userText)) && |currentTree.children| > 0, [Remove]);
    actions := actions + When(SimplifyRequested(Lower(userText)), [Simplify]);
  }

  /** `components.forEach(comp => actions.push({type: "add", component: comp}))`. */
  method PushAdds(actions: seq<Action>, components: seq<Request>) returns (result: seq<Action>)
    ensures result == actions + AddActions(components)
  {
    result := actions;
    var i := 0;
    while i < |components|
      invariant 0 <= i <= |components|
      invariant |result| == |actions| + i
      invariant result[..|actions|] == actions
      invariant forall k :: 0 <= k < i ==> result[|actions| + k] == Add(components[k])
    {
      result := result + [Add(components[i])];
      i := i + 1;
    }
  }

  // ------------------------------------------------------------------ plan

  datatype Plan =
    | New(intent: string, layout: Layout, components: seq<Request>)
    | Patch(intent: string, currentTree: Node, actions: seq<Action>)
    | OtherPlan(kind: string)

  const ModifyKeywords: seq<string> := ["add", "modify", "change", "update", "remove", "make", "more", "less"]

  predicate ModificationRequested(l: string) {
    Contains(l, "add") || Contains(l, "modify") || Contains(l, "change") || Contains(l, "update")
    || Contains(l, "remove") || Contains(l, "make") || Contains(l, "more") || Contains(l, "less")
  }

  lemma ModificationKeywords(l: string)
    ensures ModificationRequested(l) <==> exists k :: 0 <= k < |ModifyKeywords| && Contains(l, ModifyKeywords[k])
  {
    if ModificationRequested(l) {
      if Contains(l, "add") { assert Contains(l, ModifyKeywords[0]); }
      else if Contains(l, "modify") { assert Contains(l, ModifyKeywords[1]); }
      else if Contains(l, "change") { assert Contains(l, ModifyKeywords[2]); }
      else if Contains(l, "update") { assert Contains(l, ModifyKeywords[3]); }
      else if Contains(l, "remove") { assert Contains(l, ModifyKeywords[4]); }
      else if Contains(l, "make") { assert Contains(l, ModifyKeywords[5]); }
      else if Contains(l, "more") { assert Contains(l, ModifyKeywords[6]); }
      else { assert Contains(l, ModifyKeywords[7]); }
    }
  }

  /** `planner(userText, currentTree)` with the modal id passed in. */
  function PlanFor(userText: string, currentTree: Option<Node>, modalId: string): Plan {
    PlanOf(SanitizeInput(Str(userText)), currentTree, modalId)
  }

  /** What the planner makes of the sanitised text. */
  function PlanOf(sanitized: string, currentTree: Option<Node>, modalId: string): Plan {
    if currentTree.Some? && ModificationRequested(Lower(sanitized)) then
      Patch(sanitized, currentTree.value, InferredActions(sanitized, currentTree.value, modalId))
    else
      New(sanitized, InferLayout(sanitized), InferredComponents(sanitized, modalId))
  }

  /** `planner`: a patch exactly when there is a tree and one of the
      modification keywords occurs; a fresh build otherwise. */
  method Planner(userText: string, currentTree: Option<Node>, modalId: string) returns (plan: Plan)
    ensures plan == PlanFor(userText, currentTree, modalId)
    ensures plan.Patch? <==>
      currentTree.Some? &&
      (exists k :: 0 <= k < |ModifyKeywords| && Contains(Lower(SanitizeInput(Str(userText))), ModifyKeywords[k]))
    ensures plan.New? <==> !plan.Patch?
    ensures plan.intent == SanitizeInput(Str(userText))
  {
    var sanitized := SanitizeInput(Str(userText));
    var lower := Lower(sanitized);
    ModificationKeywords(lower);
    if currentTree.Some? && ModificationRequested(lower) {
      var actions := InferModificationActions(sanitized, currentTree.value, modalId);
      plan := Patch(sanitized, currentTree.value, actions);
    } else {
      var components := InferComponents(sanitized, modalId);
      plan := New(sanitized, InferLayout(sanitized), components);
    }
  }

  // ------------------------------------------------------------ examples

  /** "delete" passes the sanitiser unchanged. */
  lemma DeleteIsPlain()
    ensures SanitizeInput(Str("delete")) == "delete"
  {
    var t := "delete";
    forall j: nat ensures !OccursAt(t, "```", j, false) {
      if j + 3 <= |t| {
        assert t[j..j + 3][0] == t[j] != '`';
      }
    }
    PlainTextIsTruncatedOnly(t);
  }

  /** None of the modification keywords occurs in "delete". */
  lemma DeleteIsNoModification()
    ensures !ModificationRequested(Lower("delete"))
  {
    var t := "delete";
    assert Lower(t) == t;
    NotContainsByChar(t, "add", 0);
    NotContainsByChar(t, "modify", 0);
    NotContainsByChar(t, "change", 0);
    NotContainsByChar(t, "update", 0);
    NotContainsByChar(t, "remove", 0);
    NotContainsByChar(t, "make", 0);
    NotContainsByChar(t, "more", 0);
    NotContainsByChar(t, "less", 2);
  }

  /** "delete" alone asks the patcher for nothing: with a tree present the
      planner still builds afresh. */
  lemma DeleteAloneIsNew(tree: Node, modalId: string)
    ensures PlanFor("delete", Some(tree), modalId).New?
  {
    DeleteIsPlain();
    DeleteIsNoModification();
  }
}
