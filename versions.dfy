/** The POST handler of server/routes/generate.js: an in-memory list of
    versions and the next id, updated by each accepted request. */
module Versions {
  import opened Strings
  import opened UiTree
  import opened Sanitize
  import opened Planning
  import opened Generation
  import opened Validation
  import opened Explanation
  import opened Soundness

  /** One stored version; `timestamp` is the ISO date of the request. */
  datatype Version = Version(id: nat, tree: Node, explanation: string, timestamp: string, userText: string)

  /** The HTTP answers: 400 with its message, 200 with the new version, or
      500 with the thrown error's message. */
  datatype Response =
    | BadRequest(message: string)
    | Created(version: Version)
    | ServerError(message: string)

  const UserTextRequired: string := "userText is required"

  /** `req.body.userText` is accepted when it is a non-empty string. */
  predicate Accepted(userText: Option<Value>) {
    userText.Some? && userText.value.Str? && userText.value.s != ""
  }

  /** The tree of the last version, if there is one. */
  function CurrentTree(versions: seq<Version>): Option<Node> {
    if |versions| == 0 then None else Some(versions[|versions| - 1].tree)
  }

  /** What the handler answers, given the stored versions, the next id, the
      body's `userText` (None when absent) and the values the clock
      supplies. */
  function Respond(versions: seq<Version>, nextId: nat, userText: Option<Value>, modalId: string, timestamp: string): Response {
    if !Accepted(userText) then BadRequest(UserTextRequired)
    else
      var text := userText.value.s;
      var current := CurrentTree(versions);
      var plan := PlanFor(text, current, modalId);
      match GenerateFor(plan, current)
      case Err(e) => ServerError(Message(e))
      case Ok(tree) =>
        match ValidateTree(Some(tree))
        case Fail(e) => ServerError(Message(e))
        case Pass => Created(Version(nextId, tree, Explain(plan, tree, text), timestamp, SanitizeInput(Str(text))))
  }

  /** The store's invariant: ids are the positions, the next id is the
      count, and every stored tree passes `validateTree`. */
  predicate Consistent(versions: seq<Version>, nextId: nat) {
    && nextId == |versions|
    && forall i :: 0 <= i < |versions| ==> versions[i].id == i && ValidateNode(versions[i].tree).Pass?
  }

  /** A request is refused exactly when `userText` is missing, not a string
      or empty; a created version takes the next id, a valid tree and the
      sanitised text. */
  lemma RespondShape(versions: seq<Version>, nextId: nat, userText: Option<Value>, modalId: string, timestamp: string)
    ensures var r := Respond(versions, nextId, userText, modalId, timestamp);
      && (r.BadRequest? <==> !Accepted(userText))
      && (r.BadRequest? ==> r.message == UserTextRequired)
      && (r.Created? ==> r.version.id == nextId && ValidateNode(r.version.tree).Pass?
                         && r.version.timestamp == timestamp
                         && r.version.userText == SanitizeInput(userText.value) && |r.version.userText| <= MaxLength)
  {
  }

  /** Appending a version with the next id and a valid tree keeps the
      store consistent. */
  lemma ConsistentAppend(versions: seq<Version>, nextId: nat, v: Version)
    requires Consistent(versions, nextId)
    requires v.id == nextId && ValidateNode(v.tree).Pass?
    ensures Consistent(versions + [v], nextId + 1)
  {
    assert forall i :: 0 <= i < |versions| ==> (versions + [v])[i] == versions[i];
  }

  /** On a consistent store the handler never answers 500: every accepted
      request is stored. */
  lemma NeverServerError(versions: seq<Version>, nextId: nat, userText: Option<Value>, modalId: string, timestamp: string)
    requires Consistent(versions, nextId)
    ensures Respond(versions, nextId, userText, modalId, timestamp).Created? <==> Accepted(userText)
  {
    if Accepted(userText) {
      var current := CurrentTree(versions);
      PlannedTreeValidates(userText.value.s, current, modalId);
    }
  }

  /** The first accepted request is always a fresh build, explained as one. */
  lemma FirstRequestBuilds(userText: Option<Value>, modalId: string, timestamp: string)
    requires Accepted(userText)
    ensures Respond([], 0, userText, modalId, timestamp).Created?
    ensures var v := Respond([], 0, userText, modalId, timestamp).version;
      v.id == 0 && v.explanation[..|NewOpening|] == NewOpening
  {
    var text := userText.value.s;
    NeverServerError([], 0, userText, modalId, timestamp);
    var plan := PlanFor(text, None, modalId);
    assert plan.New?;
    ExplainNewOpens(plan, GenerateFor(plan, None).value, text);
  }

  /** Once a version is stored, a request that asks for a modification
      patches the last stored tree: the new version keeps that tree's root
      component and props. */
  lemma PatchesLastVersion(versions: seq<Version>, nextId: nat, text: string, modalId: string, timestamp: string)
    requires Consistent(versions, nextId) && versions != [] && text != ""
    requires ModificationRequested(Lower(SanitizeInput(Str(text))))
    ensures PlanFor(text, CurrentTree(versions), modalId).Patch?
    ensures Respond(versions, nextId, Some(Str(text)), modalId, timestamp).Created?
    ensures Respond(versions, nextId, Some(Str(text)), modalId, timestamp).version.tree.component == versions[|versions| - 1].tree.component
    ensures Respond(versions, nextId, Some(Str(text)), modalId, timestamp).version.tree.props == versions[|versions| - 1].tree.props
  {
    var last := versions[|versions| - 1].tree;
    NeverServerError(versions, nextId, Some(Str(text)), modalId, timestamp);
    var plan := PlanFor(text, Some(last), modalId);
    PatchKeepsRoot(plan.actions, last);
  }

  /** `versions` and `currentId` of server/routes/generate.js. */
  class VersionStore {
    var versions: seq<Version>
    var currentId: nat

    ghost predicate Valid()
      reads this
    {
      Consistent(versions, currentId)
    }

    constructor ()
      ensures versions == [] && currentId == 0
      ensures Valid()
    {
      versions := [];
      currentId := 0;
    }

    /** `router.post("/")`: plan, generate, validate, explain, then store the
        version under the next id. */
    method Submit(userText: Option<Value>, modalId: string, timestamp: string) returns (response: Response)
      requires Valid()
      modifies this
      ensures response == Respond(old(versions), old(currentId), userText, modalId, timestamp)
      ensures response.Created? ==> versions == old(versions) + [response.version] && currentId == old(currentId) + 1
      ensures !response.Created? ==> versions == old(versions) && currentId == old(currentId)
      ensures Valid()
    {
      if userText.None? || !userText.value.Str? || userText.value.s == "" {
        return BadRequest(UserTextRequired);
      }
      var text := userText.value.s;
      var currentTree := if |versions| > 0 then Some(versions[|versions| - 1].tree) else None;
      var plan := Planner(text, currentTree, modalId);
      var newTree := Generator(plan, currentTree);
      if newTree.Err? {
        return ServerError(Message(newTree.error));
      }
      var outcome := ValidateTree(Some(newTree.value));
      if outcome.Fail? {
        return ServerError(Message(outcome.error));
      }
      var explanation := Explain(plan, newTree.value, text);
      var version := Version(currentId, newTree.value, explanation, timestamp, SanitizeInput(Str(text)));
      ConsistentAppend(versions, currentId, version);
      currentId := currentId + 1;
      versions := versions + [version];
      response := Created(version);
    }
  }
}
