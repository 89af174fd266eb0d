# ai-ui-generator, modelled in Dafny

The server of ai-ui-generator turns a sentence ("a dashboard with a chart",
"add a table") into a UI tree. The React client then prints that tree as JSX.
This project models the deterministic core of that pipeline and proves what
its code promises.

- **Planner** (`server/lib/llm.js`). It sanitises the text, classifies it by
  keyword substrings as a fresh build ("new") or an edit ("patch"), infers a
  layout, and infers an ordered list of component requests or patch actions.
- **Generator** (`server/lib/llm.js`). It builds a root `Card` over the
  layout's bars and one leaf per request. For a patch it edits the previous
  tree's root children with `add` / `remove` / `simplify`.
- **Explainer** (`server/lib/llm.js`). It writes the sentence that describes
  the plan.
- **Validator and version store** (`server/routes/generate.js`).
  `validateTree` checks every node against the whitelist of eight
  components. The POST handler appends a version under `currentId++` only
  when every step succeeds.
- **Printer** (`web/src/utils/codeGenerator.js`). `treeToCode` prints props
  per type, escapes quotes, indents two spaces per level, and chooses between
  the three ways of closing a tag.

Module layout, one file each:

| module | models |
|---|---|
| `Strings` | ASCII lower-casing, substring search, `join`, `repeat` |
| `UiTree` | the tree, the registry, `validateComponent` and the errors' messages |
| `Sanitize` | `sanitizeInput` |
| `Extract` | the regex extractors |
| `Planning`, `PlanningFacts` | the components, the actions and the plan, with the facts about them |
| `Generation` | `generator`, `generateNewTree`, `generatePatchedTree` |
| `Validation` | `validateTree` |
| `Explanation` | `explainer` |
| `Versions` | the POST handler, as the class `VersionStore` |
| `CodeGen` | `treeToCode` |
| `Soundness`, `Scenarios` | end-to-end facts |
| `Findings` | the extractTableData defect |

How the source's steps map to Dafny:

- The source pushes onto local arrays in `inferComponents`,
  `inferModificationActions`, `generateNewTree` and `generatePatchedTree`.
  Each of these is a method with a loop or a sequence of guarded pushes, proved
  equal to a specification function. The lemmas are stated about that function.
- The module-level `versions` / `currentId` pair is the class
  `Versions.VersionStore`. Its method `Submit` keeps the invariant that ids
  are positions and every stored tree is valid.
- Inputs come in as parameters:
  - the modal id (`modal-${Date.now()}`);
  - the ISO timestamp;
  - the request body's `userText`, as an optional JSON value.

## Model

| member | source | states |
|---|---|---|
| UiTree.ValidateComponent | server/lib/llm.js:2-12 | passes exactly the eight listed component names, otherwise fails with `InvalidComponent(name)` |
| UiTree.AllowedIsRegistered | server/lib/llm.js:2-4 | the registry test used by the model holds exactly for the names in `ALLOWED_COMPONENTS` |
| UiTree.RegistriesAgree | web/src/components/ComponentLibrary.jsx:119-128 | the client's `COMPONENT_WHITELIST` equals the server's `ALLOWED_COMPONENTS` |
| Sanitize.SanitizeInput | server/lib/llm.js:15-22 | the result is at most 1000 characters (Unicode scalar values, see Left out) and never longer than the input; a non-string or empty input gives "" |
| Sanitize.Find | server/lib/llm.js:19-20 | the position found is the first occurrence at or after the start; none is found only when there is no occurrence |
| Sanitize.RemoveSpansShape | server/lib/llm.js:19-20 | a lazy `open[\s\S]*?close` removal keeps the text before the first opening and resumes after the first close that follows it |
| Sanitize.RemoveSpansNoOpen | server/lib/llm.js:19-20 | text without an opening delimiter is left unchanged |
| Sanitize.PlainTextIsTruncatedOnly | server/lib/llm.js:15-22 | text with no code fence and no `<script` in any case is only truncated to 1000 characters |
| Extract.ExtractButtonText | server/lib/llm.js:177-180 | an extracted button text is never empty |
| Extract.ButtonTextNeedsKeyword | server/lib/llm.js:177-180 | without "button" nothing is extracted, so the label falls back to "Click Me" |
| Extract.ExtractTitle | server/lib/llm.js:182-185 | the title is never empty |
| Extract.TitleNeedsKeyword | server/lib/llm.js:182-185 | without "title" or "called" the title is "UI Component" |
| Extract.ExtractModalTitle | server/lib/llm.js:222-229 | an extracted modal title is never empty |
| Extract.Search | server/lib/llm.js:177-229 | a regex match starts at an occurrence of one of its keywords; a quoted group holds no quote and is non-empty |
| Extract.SearchNeedsKeyword | server/lib/llm.js:177-229 | a pattern whose keywords do not occur never matches |
| Extract.SearchNeedsQuote | server/lib/llm.js:182-224 | a quoted-group pattern never matches text without quote characters |
| Extract.SettingsModalHasNoTitle | server/lib/llm.js:222-229 | unquoted text with "settings" followed by "modal" on one line gets no title, because the third pattern has no group |
| Extract.SettingsAloneIsTitled | server/lib/llm.js:222-229 | unquoted text with "settings" and no later "modal" is titled "Settings" |
| Extract.SettingsModalExample | server/lib/llm.js:222-229 | "settings modal" gets no extracted title |
| Planning.InferLayout | server/lib/llm.js:65-82 | first match in priority order: dashboard (both bars), then modal/dialog, then form (card), then table/list, else default (card) |
| Planning.ExtractSubtitle | server/lib/llm.js:187-189 | the text itself up to 100 characters (Unicode scalar values, see Left out), otherwise its first 100 characters followed by "..." |
| Planning.ExtractTableData | server/lib/llm.js:191-220 | user sample data when "user" occurs, else product sample data when "product" occurs, else nothing |
| Planning.PluralsHoldSingulars | server/lib/llm.js:197-208 | the plural alternatives "users" and "products" add nothing to the singular tests |
| Planning.NavbarTriggerIsNav | server/lib/llm.js:139 | the navbar trigger fires exactly when "nav" occurs |
| Planning.InferredComponents | server/lib/llm.js:87-146 | the inferred component list is never empty |
| Planning.InferComponents | server/lib/llm.js:87-146 | the pushes onto the local array give the checklist's list |
| Planning.AddActions | server/lib/llm.js:156-161 | one `add` per inferred component, in order |
| Planning.PushAdds | server/lib/llm.js:157-160 | the `forEach` push loop appends exactly those adds |
| Planning.InferModificationActions | server/lib/llm.js:152-175 | the pushes onto the local array give the specified action list |
| Planning.ModificationKeywords | server/lib/llm.js:32-41 | a modification is requested exactly when one of add/modify/change/update/remove/make/more/less occurs |
| Planning.Planner | server/lib/llm.js:27-59 | a patch exactly when there is a tree and a modification keyword occurs in the lower-cased sanitised text, a fresh build otherwise; the intent is the sanitised text |
| Planning.DeleteIsPlain | server/lib/llm.js:15-22 | "delete" passes the sanitiser unchanged |
| Planning.DeleteIsNoModification | server/lib/llm.js:32-41 | no modification keyword occurs in "delete" |
| Planning.DeleteAloneIsNew | server/lib/llm.js:27-59 | "delete" alone yields a fresh build even with a tree present |
| PlanningFacts.ChecklistNames | server/lib/llm.js:91-144 | the checklist emits names in the fixed order Button, Card, Input, Table, Modal (+Button), Sidebar, Navbar, Chart, each exactly when its trigger fires |
| PlanningFacts.NameListPresence | server/lib/llm.js:91-144 | each kind is present exactly when its trigger fires; Button also when a modal fires without "button" |
| PlanningFacts.NameListEmpty | server/lib/llm.js:91-146 | the checklist is empty exactly when no trigger fires |
| PlanningFacts.NameListRegistered | server/lib/llm.js:91-144 | every name the checklist can emit is registered |
| PlanningFacts.TriggeredNames | server/lib/llm.js:87-144 | the names of the triggered requests are the checklist's names for the lower-cased text |
| PlanningFacts.FallbackExactlyWhenNothingFires | server/lib/llm.js:146 | the single fallback Card(title "UI", subtitle text) is returned exactly when no trigger fires |
| PlanningFacts.InferredComponentsRegistered | server/lib/llm.js:87-146 | every inferred request names a registered component |
| PlanningFacts.InferredKinds | server/lib/llm.js:87-146 | each component kind is inferred exactly when its trigger phrase occurs |
| PlanningFacts.ModalWithOpener | server/lib/llm.js:114-135 | with a modal trigger and no "button" the Modal is immediately followed by a Button whose `opensModal` is the modal's `id` |
| PlanningFacts.ButtonDoesNotOpen | server/lib/llm.js:91-93 | the requested Button opens no modal |
| PlanningFacts.OpenerOpens | server/lib/llm.js:126-134 | the auxiliary Button carries `opensModal` |
| PlanningFacts.ActionListShape | server/lib/llm.js:152-175 | adds first, then at most one remove, then at most one simplify, each present exactly when its guard holds; the length is the number of adds plus one per remove/simplify guard that holds, and no other action occurs |
| PlanningFacts.InferredActionsShape | server/lib/llm.js:152-175 | adds exactly when "add" occurs, a remove exactly when "remove"/"delete" occurs and the tree has children, a simplify exactly when "minimal"/"simpler" occurs, in that order; the list's length is the number of adds plus one for each of those guards that holds, and no other kind of action occurs |
| PlanningFacts.NamesIndex | server/lib/llm.js:330 | the list of request names holds the requests' names position by position |
| Generation.LayoutChildren | server/lib/llm.js:258-274 | the Navbar first when the layout has one, the Sidebar last when it has one, nothing else |
| Generation.LeavesIndex | server/lib/llm.js:277-284 | one leaf per request, in order, with the request's name and props and no children |
| Generation.PushLeavesRegistered | server/lib/llm.js:277-284 | with every request registered, the loop appends all their leaves |
| Generation.PushLeavesRejects | server/lib/llm.js:277-284 | the loop stops at the first unregistered request and names it |
| Generation.NewTreeBuilds | server/lib/llm.js:251-287 | the root is Card{title "UI", subtitle intent} over the layout's bars and the request leaves |
| Generation.NewTreeRejects | server/lib/llm.js:251-287 | with an unregistered request no tree is built, and the error names the first unregistered request |
| Generation.GenerateNewTree | server/lib/llm.js:251-287 | the pushing loop computes the specified fresh tree or error |
| Generation.ApplyAction | server/lib/llm.js:297-320 | add appends a leaf or fails on an unregistered name; remove pops the last child if any; simplify keeps the first two; other actions change nothing |
| Generation.EmptyPatchKeepsTree | server/lib/llm.js:289-323 | an empty action list gives back the input tree |
| Generation.PatchKeepsRoot | server/lib/llm.js:295-322 | a patch keeps the root's component and props and changes only its children |
| Generation.GeneratePatchedTree | server/lib/llm.js:289-323 | the loop over actions computes the specified patched tree; no tree gives "Cannot patch" |
| Generation.GenerateFor | server/lib/llm.js:234-249 | an unknown plan type fails with "Invalid plan type"; a patch without a tree fails |
| Generation.Generator | server/lib/llm.js:234-249 | dispatches on the plan type to the two builders |
| Validation.ValidateTreeMissing | server/routes/generate.js:11-13 | an absent tree or a node without a component fails as "missing component" |
| Validation.ValidateTreePasses | server/routes/generate.js:10-22 | passes exactly on a present tree whose every node, in pre-order, is registered |
| Validation.ValidatePassesIff | server/routes/generate.js:15-21 | a node passes exactly when every name in its pre-order reading is registered |
| Validation.ValidateReportsFirst | server/routes/generate.js:15-19 | a failure reports the first offending node in pre-order |
| Validation.ValidateIsScan | server/routes/generate.js:15-19 | recursive validation equals a left-to-right scan of the pre-order names |
| Validation.ScanPasses | server/routes/generate.js:15-19 | the scan passes exactly when every name is registered |
| Validation.ScanFails | server/routes/generate.js:11-15 | a failing scan names the first unregistered entry, as missing when it is empty |
| Validation.ValidateChildrenEach | server/routes/generate.js:17-19 | the children pass exactly when each child passes |
| Validation.LeafValidates | server/routes/generate.js:17 | a node without children passes exactly when its name is registered |
| Validation.ValidateTree | server/routes/generate.js:10-22 | `validateTree`: missing component for an absent tree or an empty name, otherwise the node check; specified by ValidateTreeMissing, ValidateTreePasses, ValidatePassesIff and ValidateReportsFirst |
| Validation.ValidateNode | server/routes/generate.js:15-21 | the recursive node check: its own name first, then the children left to right; specified by ValidatePassesIff, ValidateReportsFirst and ValidateIsScan |
| Explanation.Descriptions | server/lib/llm.js:335-340 | one description per action, in action order |
| Explanation.ExplainIgnoresTree | server/lib/llm.js:328-346 | the explanation never depends on the generated tree |
| Explanation.ExplainNewNamesComponents | server/lib/llm.js:329-331 | a fresh build's explanation names every requested component |
| Explanation.ExplainNewQuotes | server/lib/llm.js:331 | a fresh build's explanation quotes the user text and names the layout type |
| Explanation.ExplainNewOpens | server/lib/llm.js:331 | a fresh build's explanation opens with "Created a new UI with " |
| Explanation.ExplainPatchMentions | server/lib/llm.js:334-342 | a patch's explanation mentions every action's description and the user text |
| Explanation.ExplainPatchOpens | server/lib/llm.js:342 | a patch's explanation opens with "Modified the existing UI: " |
| Explanation.Explain | server/lib/llm.js:328-346 | the explainer's sentence for each plan type; its properties are stated by the Explanation lemmas above (ignores the tree, names every component or action, quotes the user text, opens with the template prefix) |
| Soundness.NodeValidates | server/routes/generate.js:10-22 | a node passes exactly when its name is registered and every child passes |
| Soundness.NewTreeValidates | server/lib/llm.js:251-287 | a fresh build over registered requests succeeds and passes `validateTree` |
| Soundness.ApplyActionsKeepsValid | server/lib/llm.js:297-320 | actions with registered adds, applied to valid children, succeed and leave valid children |
| Soundness.PatchedTreeValidates | server/lib/llm.js:289-323 | patching a valid tree with registered adds succeeds, passes `validateTree` and keeps the root |
| Soundness.InferredAddsRegistered | server/lib/llm.js:152-175 | every inferred add names a registered component |
| Soundness.GenerableValidates | server/lib/llm.js:234-323 | a generable plan is built into a valid tree |
| Soundness.PlannedIsGenerable | server/lib/llm.js:27-59 | every plan made of sanitised text is generable when the tree it patches is valid |
| Soundness.PlannedTreeValidates | server/routes/generate.js:36-42 | with the corrected Table defaults, the planner then the generator always yield a tree that passes `validateTree`, given a valid previous tree |
| Scenarios.DashboardRepeatsFrame | server/lib/llm.js:65-284 | a dashboard text that also names a sidebar and a navbar gets the layout's Navbar and Sidebar as the first two root children, and after them a second Sidebar followed later by a second Navbar |
| Scenarios.FrameRepeated | server/lib/llm.js:258-284 | a both-bar layout over registered requests holding a Sidebar before a Navbar builds the bars first and then each bar again, Sidebar before Navbar |
| Scenarios.BarsRequested | server/lib/llm.js:87-144 | a text naming a sidebar and a navbar asks for registered components only, among them a Sidebar immediately followed by a Navbar |
| Versions.RespondShape | server/routes/generate.js:28-55 | 400 "userText is required" exactly when `userText` is missing, not a string or empty; a created version has the next id, a valid tree, the timestamp and the sanitised text |
| Versions.ConsistentAppend | server/routes/generate.js:47-55 | appending a valid version under the next id keeps ids equal to positions |
| Versions.Respond | server/routes/generate.js:24-65 | the handler's answer: 400 for a missing, non-string or empty text, 500 with the message of a failing step, otherwise the created version; specified by RespondShape and NeverServerError |
| Versions.NeverServerError | server/routes/generate.js:24-65 | with the corrected Table defaults, on a consistent store every accepted request is stored and none answers 500 (the code as written: Findings.ServerErrorAsWritten) |
| Versions.FirstRequestBuilds | server/routes/generate.js:32-45 | with no versions the tree passed on is null, so the first request is a fresh build, explained as one, with id 0 (with the corrected Table defaults) |
| Versions.PatchesLastVersion | server/routes/generate.js:32-39 | once versions exist, a modification request patches the last version's tree and keeps its root (with the corrected Table defaults) |
| Versions.VersionStore.constructor | server/routes/generate.js:6-7 | the store starts empty with `currentId` 0 |
| Versions.VersionStore.Submit | server/routes/generate.js:24-65 | answers as `Respond`; a created version is appended and `currentId` incremented, any other answer changes nothing; the store stays consistent |
| CodeGen.PlaceholderIffNoTree | web/src/utils/codeGenerator.js:2-3 | "// No UI generated yet" is printed exactly when there is no tree |
| CodeGen.EscapeQuotesRoundTrip | web/src/utils/codeGenerator.js:16-20 | escaping quotes loses nothing: unescaping gives back the string |
| CodeGen.EscapedQuotesAreBackslashed | web/src/utils/codeGenerator.js:18 | every quote of an escaped string has a backslash before it |
| CodeGen.EscapeQuoteFree | web/src/utils/codeGenerator.js:18 | a string without quotes prints as it is |
| CodeGen.JsonEscapeRoundTrip | web/src/utils/codeGenerator.js:27-33 | JSON string escaping is undone by JSON unescaping |
| CodeGen.JsonCharRoundTrip | web/src/utils/codeGenerator.js:27-33 | each character's JSON escape decodes back to that character |
| CodeGen.Attrs | web/src/utils/codeGenerator.js:12-35 | no rendered attribute is empty |
| CodeGen.AttrsAppend | web/src/utils/codeGenerator.js:12 | attributes follow the order of the props list |
| CodeGen.NeverRendered | web/src/utils/codeGenerator.js:9-23 | the `children` prop, null values and `false` never render as attributes |
| CodeGen.SilentPropDropped | web/src/utils/codeGenerator.js:34-35 | a prop that renders as nothing leaves the other attributes as they are |
| CodeGen.AttrByType | web/src/utils/codeGenerator.js:16-33 | strings as `key="escaped"`, `true` as the bare key, numbers as `key={n}`, arrays and objects as `key={JSON}` |
| CodeGen.PropsPartShape | web/src/utils/codeGenerator.js:34-38 | the attributes are space-joined, with one leading space only when there is one |
| CodeGen.NodeStartsIndented | web/src/utils/codeGenerator.js:5-55 | each node's code starts with 2×indent spaces and `<component` |
| CodeGen.ChildCodesIndex | web/src/utils/codeGenerator.js:42-44 | each child is printed one level deeper, in order |
| CodeGen.NestedChildPrinted | web/src/utils/codeGenerator.js:41-46 | a node's code contains every child's code at indent+1 |
| CodeGen.SelfClosingIff | web/src/utils/codeGenerator.js:41-55 | the tag self-closes exactly when there are no children and no non-empty text prop |
| CodeGen.TextIgnoredWithChildren | web/src/utils/codeGenerator.js:41-46 | with structural children a `children` text prop changes nothing |
| CodeGen.LeafText | web/src/utils/codeGenerator.js:50-55 | a leaf prints its non-empty text between the tags; an empty text self-closes |
| CodeGen.NodeLines | web/src/utils/codeGenerator.js:41-55 | without line breaks in names and strings, a leaf takes one line and a parent takes an opening line, a closing line and its children's lines |
| CodeGen.JsonOneLine | web/src/utils/codeGenerator.js:27-33 | JSON output never contains a line break |
| CodeGen.TreeToCode | web/src/utils/codeGenerator.js:2-3 | `treeToCode`: the placeholder for no tree, otherwise the node's code; specified by PlaceholderIffNoTree |
| CodeGen.NodeCode | web/src/utils/codeGenerator.js:5-55 | a node's code: the indented opening tag with its attributes, then the children, the inline text or the self-closing end; specified by NodeStartsIndented, ChildCodesIndex, NestedChildPrinted, SelfClosingIff, LeafText and NodeLines |
| Findings.ServerErrorAsWritten | server/routes/generate.js:24-65 | the handler as written answers 500 exactly on accepted requests that reach the throwing Table branch, and stores every other accepted request |
| Findings.InferredComponentsAsWritten | server/lib/llm.js:87-146 | `inferComponents` as written: the TypeError on `null.headers` exactly when the Table trigger fires on text naming no domain, otherwise the model's list; specified by AsWrittenAgreesWhenDataFound, ListCrashesAsWritten and AddTableCrashes |
| Findings.RespondAsWritten | server/routes/generate.js:24-65 | the handler as written: 500 with the TypeError's message when the request reaches the throwing Table branch, otherwise as Respond; specified by ServerErrorAsWritten |
| Findings.ListAnswers500AsWritten | server/routes/generate.js:32-63 | "list" as the first request answers 500 "Cannot read properties of null (reading 'headers')" as written, and is stored with the corrected defaults |
| Findings.AddTableCrashes | server/lib/llm.js:152-158 | "add a table" asks for a modification and an add, and the written `inferComponents` throws on it |
| Findings.AddTableAnswers500AsWritten | server/routes/generate.js:32-63 | "add a table" on a non-empty store answers 500 as written, and is stored with the corrected defaults |

## Left out

- The Express plumbing is not modelled. This covers `server/server.js`, the two GET routes, `res.status`/`res.json`, CORS and `console.error`. They are I/O. The POST handler is modelled as the state change of `VersionStore.Submit` and its `Response`.
- `async`/`await` is not modelled. It only wraps results in promises.
- All React rendering is not modelled: `App.jsx`, `ChatPane.jsx`, `PreviewPane.jsx`, `VersionTimeline.jsx`, `CodeEditor.jsx`, and the render functions of `ComponentLibrary.jsx`. It is presentation and browser state. Only the whitelist of `ComponentLibrary.jsx` is used, in `UiTree.RegistriesAgree`.
- `Date.now()` and `new Date().toISOString()` are parameters (`modalId`, `timestamp`). They are clock reads.
- Numbers are integers. No prop value arising in this pipeline is fractional, and floating-point printing is left out. `IntToString` prints every digit, while `${value}` and `JSON.stringify` print integers of 1e21 or more in exponent form; no value in this pipeline gets that large.
- JavaScript's `undefined` is folded into `Null`. As a prop, both are skipped by the printer. Inside an array or object printed through `JSON.stringify` they differ: null prints as `null`, an undefined array element also prints as `null`, but an undefined object field is omitted. The model prints `"k":null` for such a field. No value built by this pipeline holds one.
- A tree is a value, so `JSON.parse(JSON.stringify(currentTree))` is the identity. The "never changes the input" promise holds by construction. Props whose values JSON would drop are not modelled.
- Props are an ordered list of pairs, and the code reads the first pair with a key. Duplicate keys, which a JavaScript object cannot hold, are not excluded.
- CodeGen.AttrsAppend: attributes come in the order of the props list. `Object.entries` lists integer-like keys first, in ascending order, and the others in insertion order. The model does not reorder such keys; no prop built by this pipeline has one.
- Regexes are written out only for the patterns this code uses:
  - the two stripping patterns of `sanitizeInput`;
  - the three extractors' lazy `.*?` searches (`.` stops at line terminators, `/i` is ASCII case folding).
  - Full Unicode case folding and `toLowerCase` outside ASCII are left out.
- Patch actions have no `target` field; it is never read.
- The model's `inferComponents` is the corrected reading of server/lib/llm.js:100-112, with the `||` defaults applying when `extractTableData` finds nothing. The code as written crashes there (see Findings). Every lemma about the planner's output, the generated tree or the handler's answer is stated for that corrected pipeline; the lines below name the ones whose claims the written code breaks on such text. `Findings.RespondAsWritten` is the handler as written, and `Findings.ServerErrorAsWritten` says exactly which requests it answers with 500.
- Soundness.PlannedTreeValidates: as written, a fresh build (or a patch with "add") on table text without "user" or "product" throws instead of yielding a tree.
- Versions.NeverServerError: as written, the handler answers 500 on accepted table text without "user" or "product" that reaches `inferComponents` (`Findings.ServerErrorAsWritten`).
- Versions.FirstRequestBuilds: as written, a first request such as "list" answers 500 and stores nothing (`Findings.ListAnswers500AsWritten`).
- Versions.PatchesLastVersion: as written, a modification such as "add a table" answers 500 and stores nothing (`Findings.AddTableAnswers500AsWritten`).
- Scenarios.DashboardRepeatsFrame: as written, a dashboard text that also fires the Table trigger without "user" or "product" ("dashboard sidebar navbar list") throws in `inferComponents` (`Findings.InferredComponentsAsWritten`), so no tree is built.
- Versions.VersionStore.Submit: it answers as the corrected `Respond`; the handler as written is `Findings.RespondAsWritten`, which answers 500 and stores nothing on such text.
- Thrown TypeErrors carry the message wording of V8 in Node.js 16.9 and later ("Cannot read properties of null (reading 'headers')"); older releases word it "Cannot read property 'headers' of null".
- Sanitize.SanitizeInput: a `char` is a Unicode scalar value, while `substring(0, 1000)` counts UTF-16 code units. For text with characters outside the Basic Multilingual Plane the model keeps up to 1000 such characters (up to 2000 code units) and never splits a surrogate pair, where the source keeps 1000 code units.
- Planning.ExtractSubtitle: for the same reason the 100 limit counts scalar values. A card text of 60 emoji (120 code units) is returned whole by the model, while the source cuts it to 100 code units and appends "...".
- CodeGen.TreeToCode: the Button example, `Button{children:"Click Me", variant:"primary"}` printing `<Button variant="primary">Click Me</Button>`, is not proved as a concrete string. `CodeGen.LeafText` and `CodeGen.AttrByType` state its two parts.
- The quote escaping is modelled as written (`\"`). JSX attribute strings take no backslash escapes, so the printed markup for a string holding a quote would not parse as JSX. The model states what is printed, not whether it parses.
- Two behaviours of the code differ from what the code itself suggests; the model follows the code:
  - The chat pane offers the example prompt "Create a dashboard with a navbar and sidebar" (web/src/components/ChatPane.jsx:77). For it the code puts each bar under the root twice: the dashboard layout's Navbar and Sidebar first, then the checklist's Sidebar and Navbar. `Scenarios.DashboardRepeatsFrame` proves that the layout's two bars come first and that a Sidebar and, after it, a Navbar follow; it does not bound the number of children.
  - The `return "Settings"` fallback of `extractModalTitle` (server/lib/llm.js:227) suggests that an unquoted "settings modal" was meant to be titled "Settings". The code titles it "Modal Title", because the third pattern (server/lib/llm.js:225) matches first and has no capture group, so `match[1]` is undefined (`Extract.SettingsModalHasNoTitle`).

## Findings

| source | as written | input that shows it | evidently intended | confidence | as-written member | corrected member |
|---|---|---|---|---|---|---|
| server/lib/llm.js:100-112 | `extractTableData` returns `null` when the text names neither users nor products, and `tableData.headers` then throws a TypeError before the `\|\|` defaults apply; the POST handler answers 500 "Cannot read properties of null (reading 'headers')" | the text "list" (also "Create a table", or any table/data/list request without "user" or "product") | the defaults `["Name","Value","Status"]` and the three default rows are used | not executed | Findings.InferredComponentsAsWritten, Findings.ListCrashesAsWritten, Findings.ListAnswers500AsWritten, Findings.AddTableAnswers500AsWritten | Findings.TableAlwaysFilled, Findings.ListGetsDefaultTable |
