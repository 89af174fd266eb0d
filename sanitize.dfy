/** `sanitizeInput` (server/lib/llm.js): strips fenced code blocks, then
    script elements, then keeps the first 1000 characters. Every other
    stage sees only the sanitised text. */
module Sanitize {
  import opened Strings
  import opened UiTree

  const MaxLength: nat := 1000

  /** `p` occurs in `s` at `i`, ignoring ASCII case when `ci` holds (the
      regex `i` flag; the delimiters searched for are ASCII). */
  predicate OccursAt(s: string, p: string, i: nat, ci: bool) {
    i + |p| <= |s| && (if ci then Lower(s[i..i + |p|]) == Lower(p) else s[i..i + |p|] == p)
  }

  /** The first occurrence of `p` in `s` at or after `from`. */
  function Find(s: string, p: string, from: nat, ci: bool): (r: Option<nat>)
    ensures r.Some? ==> from <= r.value && OccursAt(s, p, r.value, ci)
    ensures r.Some? ==> forall j :: from <= j < r.value ==> !OccursAt(s, p, j, ci)
    ensures r.None? ==> forall j :: from <= j ==> !OccursAt(s, p, j, ci)
    decreases |s| - from
  {
    if from + |p| > |s| then None
    else if OccursAt(s, p, from, ci) then Some(from)
    else Find(s, p, from + 1, ci)
  }

  /** A global regex replace of `open[\s\S]*?close` by "": the leftmost
      match starts at the first `open` that some later `close` follows, the
      lazy body stops at the first such `close`, and the search resumes after
      it. */
  function RemoveSpans(s: string, open: string, close: string, ci: bool): (r: string)
    requires close != []
    ensures |r| <= |s|
    decreases |s|
  {
    match Find(s, open, 0, ci)
    case None => s
    case Some(p) =>
      match Find(s, close, p + |open|, ci)
      case None => s
      case Some(q) => s[..p] + RemoveSpans(s[q + |close|..], open, close, ci)
  }

  /** ```` /```[\s\S]*?```/g ````. */
  function StripCodeBlocks(s: string): (r: string)
    ensures |r| <= |s|
  {
    RemoveSpans(s, "```", "```", false)
  }

  /** `/<script[\s\S]*?<\/script>/gi`. */
  function StripScripts(s: string): (r: string)
    ensures |r| <= |s|
  {
    RemoveSpans(s, "<script", "</script>", true)
  }

  /** `sanitizeInput(text)` on any JSON value: non-strings and the empty
      string give "", a string is stripped and truncated to `MaxLength`. */
  function SanitizeInput(input: Value): (r: string)
    ensures |r| <= MaxLength
    ensures !input.Str? || input.s == "" ==> r == ""
    ensures input.Str? ==> |r| <= |input.s|
  {
    match input
    case Str(text) =>
      if text == "" then ""
      else
        var stripped := StripScripts(StripCodeBlocks(text));
        if |stripped| <= MaxLength then stripped else stripped[..MaxLength]
    case _ => ""
  }

  /** Text that holds neither delimiter's opening is left as it is. */
  lemma RemoveSpansNoOpen(s: string, open: string, close: string, ci: bool)
    requires close != []
    requires forall j :: !OccursAt(s, open, j, ci)
    ensures RemoveSpans(s, open, close, ci) == s
  {
  }

  /** What a removed span leaves: the text before the first opening, then
      the stripped remainder after the matching close. */
  lemma {:induction false} RemoveSpansShape(s: string, open: string, close: string, ci: bool, p: nat, q: nat)
    requires close != []
    requires OccursAt(s, open, p, ci) && forall j: nat :: j < p ==> !OccursAt(s, open, j, ci)
    requires p + |open| <= q && OccursAt(s, close, q, ci)
    requires forall j :: p + |open| <= j < q ==> !OccursAt(s, close, j, ci)
    ensures RemoveSpans(s, open, close, ci) == s[..p] + RemoveSpans(s[q + |close|..], open, close, ci)
  {
    FindFirst(s, open, 0, ci, p);
    FindFirst(s, close, p + |open|, ci, q);
    RemoveSpansUnfold(s, open, close, ci, p, q);
  }

  lemma {:induction false} RemoveSpansUnfold(s: string, open: string, close: string, ci: bool, p: nat, q: nat)
    requires close != []
    requires Find(s, open, 0, ci) == Some(p)
    requires Find(s, close, p + |open|, ci) == Some(q)
    ensures RemoveSpans(s, open, close, ci) == s[..p] + RemoveSpans(s[q + |close|..], open, close, ci)
  {
    var r := RemoveSpans(s, open, close, ci);
    var rest := RemoveSpans(s[q + |close|..], open, close, ci);
    assert r == s[..p] + rest;
  }

  /** `Find` returns the first occurrence at or after `from`. */
  lemma {:induction false} FindFirst(s: string, p: string, from: nat, ci: bool, i: nat)
    requires from <= i && OccursAt(s, p, i, ci)
    requires forall j :: from <= j < i ==> !OccursAt(s, p, j, ci)
    ensures Find(s, p, from, ci) == Some(i)
    decreases i - from
  {
    if from < i {
      FindFirst(s, p, from + 1, ci, i);
    }
  }

  /** Plain text (no code fence, no script opening in any letter case) comes
      back unchanged when it is short, and as its first `MaxLength`
      characters otherwise. */
  lemma PlainTextIsTruncatedOnly(text: string)
    requires text != ""
    requires forall j :: !OccursAt(text, "```", j, false)
    requires forall j :: !OccursAt(text, "<script", j, true)
    ensures SanitizeInput(Str(text)) == if |text| <= MaxLength then text else text[..MaxLength]
  {
    RemoveSpansNoOpen(text, "```", "```", false);
    RemoveSpansNoOpen(text, "<script", "</script>", true);
  }
}
