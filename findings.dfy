/** The Table request of `inferComponents` (server/lib/llm.js:100-112) as
    the code is written: `extractTableData` returns `null` when the text
    names neither users nor products, and reading `tableData.headers` then
    throws before the `||` defaults can apply. */
module Findings {
  import opened Strings
  import opened UiTree
  import opened Sanitize
  import opened Planning
  import opened Versions

  /** The Table request as written: the property read on a `null` result
      throws a TypeError naming `headers`. */
  function TableRequestAsWritten(text: string): Result<Request> {
    match ExtractTableData(text)
    case None => Err(NullProperty("headers"))
    case Some(d) => Ok(Request("Table", [("headers", d.headers), ("rows", d.rows)]))
  }

  /** `inferComponents` as written: it throws exactly when the Table
      trigger fires on a text naming no domain, and otherwise returns the
      list the model computes. */
  function InferredComponentsAsWritten(text: string, modalId: string): Result<seq<Request>> {
    if TableTrigger(Lower(text)) && TableRequestAsWritten(text).Err? then Err(TableRequestAsWritten(text).error)
    else Ok(InferredComponents(text, modalId))
  }

  /** Where the written code does not throw it builds the same request as
      the model. */
  lemma AsWrittenAgreesWhenDataFound(text: string)
    ensures TableRequestAsWritten(text).Ok? <==> ExtractTableData(text).Some?
    ensures TableRequestAsWritten(text).Ok? ==> TableRequestAsWritten(text).value == TableRequest(text)
  {
  }

  /** "list" asks for a table but names no domain: the written code throws,
      so the POST handler answers 500 instead of showing the default table. */
  lemma ListCrashesAsWritten(modalId: string)
    ensures InferredComponentsAsWritten("list", modalId) == Err(NullProperty("headers"))
    ensures Message(NullProperty("headers")) == "Cannot read properties of null (reading 'headers')"
  {
    var l := Lower("list");
    assert l == "list";
    ContainsAt(l, "list", 0);
    NotContainsByChar(l, "user", 0);
    NotContainsByChar(l, "product", 0);
  }

  /** The intended Table request: the sample data of the domain named, the
      defaults otherwise, always three headers and three rows. */
  lemma TableAlwaysFilled(text: string)
    ensures var p := TableRequest(text).props;
      && |p| == 2 && p[0].0 == "headers" && p[1].0 == "rows"
      && p[0].1.Arr? && |p[0].1.items| == 3 && p[1].1.Arr? && |p[1].1.items| == 3
    ensures var l := Lower(text);
      !Contains(l, "user") && !Contains(l, "product") ==>
        TableRequest(text).props == [("headers", StrArray(DefaultHeaders)), ("rows", Rows(DefaultRows))]
  {
  }

  /** The intended `inferComponents` never throws: with the defaults in
      place the "list" request gets a default table. */
  lemma ListGetsDefaultTable()
    ensures TableRequest("list").props == [("headers", StrArray(DefaultHeaders)), ("rows", Rows(DefaultRows))]
  {
    var l := Lower("list");
    assert l == "list";
    NotContainsByChar(l, "user", 0);
    NotContainsByChar(l, "product", 0);
  }

  // ------------------------------------------- the POST handler as written

  /** Whether the planner calls `inferComponents` on the sanitised text: a
      fresh build always does, a patch only when the text says "add". */
  predicate InfersComponents(sanitized: string, current: Option<Node>) {
    !(current.Some? && ModificationRequested(Lower(sanitized))) || Contains(Lower(sanitized), "add")
  }

  /** Whether the written code throws on this request: it reaches
      `inferComponents`, and that throws. */
  predicate CrashesAsWritten(versions: seq<Version>, userText: Option<Value>, modalId: string) {
    && Accepted(userText)
    && var sanitized := SanitizeInput(userText.value);
       InfersComponents(sanitized, CurrentTree(versions)) && InferredComponentsAsWritten(sanitized, modalId).Err?
  }

  /** The POST handler as written: the thrown TypeError is caught and
      answered with 500 and its message; every other request is answered as
      the model's `Respond` answers it. */
  function RespondAsWritten(versions: seq<Version>, nextId: nat, userText: Option<Value>, modalId: string, timestamp: string): Response {
    if CrashesAsWritten(versions, userText, modalId) then
      ServerError(Message(InferredComponentsAsWritten(SanitizeInput(userText.value), modalId).error))
    else Respond(versions, nextId, userText, modalId, timestamp)
  }

  /** On a consistent store the written handler answers 500 exactly on the
      requests that reach the crashing Table branch, and stores every other
      accepted request. */
  lemma ServerErrorAsWritten(versions: seq<Version>, nextId: nat, userText: Option<Value>, modalId: string, timestamp: string)
    requires Consistent(versions, nextId)
    ensures var r := RespondAsWritten(versions, nextId, userText, modalId, timestamp);
      && (r.ServerError? <==> CrashesAsWritten(versions, userText, modalId))
      && (r.Created? <==> Accepted(userText) && !CrashesAsWritten(versions, userText, modalId))
  {
    NeverServerError(versions, nextId, userText, modalId, timestamp);
  }

  /** "list" and "add a table" pass the sanitiser unchanged. */
  lemma TableTextsArePlain()
    ensures SanitizeInput(Str("list")) == "list"
    ensures SanitizeInput(Str("add a table")) == "add a table"
  {
    var t := "list";
    forall j: nat ensures !OccursAt(t, "```", j, false) {
      if j + 3 <= |t| {
        assert t[j..j + 3][0] == t[j] != '`';
      }
    }
    PlainTextIsTruncatedOnly(t);
    AddTableIsPlain();
  }

  lemma AddTableIsPlain()
    ensures SanitizeInput(Str("add a table")) == "add a table"
  {
    var u := "add a table";
    forall j: nat ensures !OccursAt(u, "```", j, false) && !OccursAt(u, "<script", j, true) {
      if j + 3 <= |u| {
        assert u[j..j + 3][0] == u[j] != '`';
      }
      if j + 7 <= |u| {
        assert Lower(u[j..j + 7])[0] == LowerChar(u[j]) != '<';
        assert Lower("<script")[0] == '<';
      }
    }
    PlainTextIsTruncatedOnly(u);
  }

  /** "list" as the first request: the written handler answers 500 with the
      TypeError's message, where the intended one stores a default table. */
  lemma ListAnswers500AsWritten(modalId: string, timestamp: string)
    ensures RespondAsWritten([], 0, Some(Str("list")), modalId, timestamp)
            == ServerError("Cannot read properties of null (reading 'headers')")
    ensures Respond([], 0, Some(Str("list")), modalId, timestamp).Created?
  {
    TableTextsArePlain();
    ListCrashesAsWritten(modalId);
    NeverServerError([], 0, Some(Str("list")), modalId, timestamp);
  }

  /** "add a table" asks for a modification and a table, names no domain,
      and so makes the written `inferComponents` throw. */
  lemma AddTableCrashes(modalId: string)
    ensures ModificationRequested(Lower("add a table")) && Contains(Lower("add a table"), "add")
    ensures InferredComponentsAsWritten("add a table", modalId) == Err(NullProperty("headers"))
  {
    var t := "add a table";
    assert Lower(t) == t;
    ContainsAt(t, "add", 0);
    ContainsAt(t, "table", 6);
    NotContainsByChar(t, "user", 0);
    NotContainsByChar(t, "product", 0);
  }

  /** "add a table" once a version is stored: the patch reaches
      `inferComponents` through its add, and the written handler answers
      500, where the intended one stores the patched tree. */
  lemma AddTableAnswers500AsWritten(versions: seq<Version>, nextId: nat, modalId: string, timestamp: string)
    requires Consistent(versions, nextId) && versions != []
    ensures RespondAsWritten(versions, nextId, Some(Str("add a table")), modalId, timestamp)
            == ServerError("Cannot read properties of null (reading 'headers')")
    ensures Respond(versions, nextId, Some(Str("add a table")), modalId, timestamp).Created?
  {
    AddTableIsPlain();
    AddTableCrashes(modalId);
    ListCrashesAsWritten(modalId);
    assert CrashesAsWritten(versions, Some(Str("add a table")), modalId);
    NeverServerError(versions, nextId, Some(Str("add a table")), modalId, timestamp);
  }
}
