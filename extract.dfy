/** The regex extractors of server/lib/llm.js, written out for the patterns
    they use: a keyword matched without regard to ASCII case, then a lazy
    `.*?` (any character except a line terminator) and a tail. `match`
    without the `g` flag returns the leftmost match, and the capture group is
    what the extractor returns. */
module Extract {
  import opened Strings
  import opened UiTree

  predicate IsLineTerminator(c: char) {
    c == '\n' || c == '\r' || c == '\U{2028}' || c == '\U{2029}'
  }

  predicate IsQuote(c: char) {
    c == '"' || c == '\''
  }

  /** `\w`. */
  predicate IsWordChar(c: char) {
    'a' <= c <= 'z' || 'A' <= c <= 'Z' || '0' <= c <= '9' || c == '_'
  }

  /** The lower-case keyword `kw` occurs at `p`, in any ASCII letter case. */
  predicate KeywordAt(s: string, kw: string, p: nat) {
    p + |kw| <= |s| && Lower(s[p..p + |kw|]) == kw
  }

  lemma KeywordAtContains(s: string, kw: string, p: nat)
    requires KeywordAt(s, kw, p)
    ensures Contains(Lower(s), kw)
  {
    assert Lower(s)[p..p + |kw|] == Lower(s[p..p + |kw|]);
    assert MatchesAt(Lower(s), kw, p);
  }

  /** The first quote character at or after `i`. */
  function NextQuote(s: string, i: nat): (r: Option<nat>)
    ensures r.Some? ==> i <= r.value < |s| && IsQuote(s[r.value])
    ensures r.Some? ==> forall k :: i <= k < r.value ==> !IsQuote(s[k])
    decreases |s| - i
  {
    if i >= |s| then None
    else if IsQuote(s[i]) then Some(i)
    else NextQuote(s, i + 1)
  }

  /** `([^"']+)["']` at `i`: the greedy run of non-quotes must be non-empty
      and end at a quote. */
  function QuotedRun(s: string, i: nat): (r: Option<string>)
    ensures r.Some? ==> r.value != [] && forall k :: 0 <= k < |r.value| ==> !IsQuote(r.value[k])
  {
    match NextQuote(s, i)
    case Some(k) => if k > i then Some(s[i..k]) else None
    case None => None
  }

  /** `.*?["']([^"']+)["']` from `j`. */
  function QuotedFrom(s: string, j: nat): (r: Option<string>)
    ensures r.Some? ==> r.value != [] && forall k :: 0 <= k < |r.value| ==> !IsQuote(r.value[k])
    decreases |s| - j
  {
    if j >= |s| then None
    else if IsQuote(s[j]) && QuotedRun(s, j + 1).Some? then QuotedRun(s, j + 1)
    else if IsLineTerminator(s[j]) then None
    else QuotedFrom(s, j + 1)
  }

  /** The greedy `\w+` run that starts at `j`. */
  function WordRun(s: string, j: nat): (r: string)
    requires j <= |s|
    ensures forall k :: 0 <= k < |r| ==> IsWordChar(r[k])
    ensures j < |s| && IsWordChar(s[j]) ==> r != []
    decreases |s| - j
  {
    if j < |s| && IsWordChar(s[j]) then [s[j]] + WordRun(s, j + 1) else ""
  }

  /** `.*?(\w+)` from `j`. */
  function WordFrom(s: string, j: nat): (r: Option<string>)
    ensures r.Some? ==> r.value != []
    decreases |s| - j
  {
    if j >= |s| then None
    else if IsWordChar(s[j]) then Some(WordRun(s, j))
    else if IsLineTerminator(s[j]) then None
    else WordFrom(s, j + 1)
  }

  /** `.*?called.*?["']([^"']+)["']` from `j`. */
  function CalledFrom(s: string, j: nat): (r: Option<string>)
    ensures r.Some? ==> r.value != [] && forall k :: 0 <= k < |r.value| ==> !IsQuote(r.value[k])
    decreases |s| - j
  {
    if j >= |s| then None
    else if KeywordAt(s, "called", j) && QuotedFrom(s, j + 6).Some? then QuotedFrom(s, j + 6)
    else if IsLineTerminator(s[j]) then None
    else CalledFrom(s, j + 1)
  }

  /** What follows the keyword in a pattern. */
  datatype Tail = Quoted | Word | CalledQuoted

  function TailFrom(t: Tail, s: string, j: nat): (r: Option<string>)
    ensures r.Some? ==> r.value != []
    ensures r.Some? && t != Word ==> forall k :: 0 <= k < |r.value| ==> !IsQuote(r.value[k])
  {
    match t
    case Quoted => QuotedFrom(s, j)
    case Word => WordFrom(s, j)
    case CalledQuoted => CalledFrom(s, j)
  }

  /** `(?:kw0|kw1|…)` at `p`, alternatives tried in order, each followed by
      the tail. */
  function AltAt(s: string, kws: seq<string>, t: Tail, p: nat): (r: Option<string>)
    ensures r.Some? ==> r.value != []
    ensures r.Some? && t != Word ==> forall k :: 0 <= k < |r.value| ==> !IsQuote(r.value[k])
    ensures r.Some? ==> exists i :: 0 <= i < |kws| && KeywordAt(s, kws[i], p)
    decreases |kws|
  {
    if kws == [] then None
    else if KeywordAt(s, kws[0], p) && TailFrom(t, s, p + |kws[0]|).Some? then TailFrom(t, s, p + |kws[0]|)
    else AltAt(s, kws[1..], t, p)
  }

  /** `text.match(pattern)` and its first group: the leftmost start from `p`
      on at which the pattern matches. */
  function Search(s: string, kws: seq<string>, t: Tail, p: nat): (r: Option<string>)
    ensures r.Some? ==> r.value != []
    ensures r.Some? && t != Word ==> forall k :: 0 <= k < |r.value| ==> !IsQuote(r.value[k])
    ensures r.Some? ==> exists i, q :: 0 <= i < |kws| && p <= q && KeywordAt(s, kws[i], q)
    decreases |s| - p
  {
    if p >= |s| then None
    else
      match AltAt(s, kws, t, p)
      case Some(g) => Some(g)
      case None => Search(s, kws, t, p + 1)
  }

  /** A search for keywords none of which occurs finds nothing. */
  lemma SearchNeedsKeyword(s: string, kws: seq<string>, t: Tail, p: nat)
    requires forall i :: 0 <= i < |kws| ==> !Contains(Lower(s), kws[i])
    ensures Search(s, kws, t, p).None?
  {
    var r := Search(s, kws, t, p);
    if r.Some? {
      var i, q :| 0 <= i < |kws| && p <= q && KeywordAt(s, kws[i], q);
      KeywordAtContains(s, kws[i], q);
    }
  }

  /** `extractButtonText`: a quoted string after "button", else the first
      word after it, else no text. */
  function ExtractButtonText(text: string): (r: Option<string>)
    ensures r.Some? ==> r.value != ""
  {
    match Search(text, ["button"], Quoted, 0)
    case Some(g) => Some(g)
    case None => Search(text, ["button"], Word, 0)
  }

  lemma ButtonTextNeedsKeyword(text: string)
    requires !Contains(Lower(text), "button")
    ensures ExtractButtonText(text) == None
  {
    SearchNeedsKeyword(text, ["button"], Quoted, 0);
    SearchNeedsKeyword(text, ["button"], Word, 0);
  }

  /** `extractTitle`: a quoted string after "title", else after "called",
      else "UI Component". */
  function ExtractTitle(text: string): (r: string)
    ensures r != ""
  {
    match Search(text, ["title"], Quoted, 0)
    case Some(g) => g
    case None =>
      match Search(text, ["called"], Quoted, 0)
      case Some(g) => g
      case None => "UI Component"
  }

  lemma TitleNeedsKeyword(text: string)
    requires !Contains(Lower(text), "title") && !Contains(Lower(text), "called")
    ensures ExtractTitle(text) == "UI Component"
  {
    SearchNeedsKeyword(text, ["title"], Quoted, 0);
    SearchNeedsKeyword(text, ["called"], Quoted, 0);
  }

  /** `.*?modal` from `j`. */
  predicate ModalFrom(s: string, j: nat)
    decreases |s| - j
  {
    if j >= |s| then false
    else if KeywordAt(s, "modal", j) then true
    else if IsLineTerminator(s[j]) then false
    else ModalFrom(s, j + 1)
  }

  /** `/settings.*?modal/i` matches somewhere at or after `p`. */
  predicate SettingsThenModal(s: string, p: nat)
    decreases |s| - p
  {
    if p >= |s| then false
    else (KeywordAt(s, "settings", p) && ModalFrom(s, p + 8)) || SettingsThenModal(s, p + 1)
  }

  const ModalKeywords: seq<string> := ["modal", "dialog", "popup", "settings"]

  /** `extractModalTitle`. Its third pattern has no capture group, so when
      only that one matches the result is `undefined` (here `None`) and the
      "Settings" fallback is never reached. */
  function ExtractModalTitle(text: string): (r: Option<string>)
    ensures r.Some? ==> r.value != ""
  {
    match Search(text, ModalKeywords, Quoted, 0)
    case Some(g) => Some(g)
    case None =>
      match Search(text, ModalKeywords, CalledQuoted, 0)
      case Some(g) => Some(g)
      case None =>
        if SettingsThenModal(text, 0) then None
        else if Contains(Lower(text), "settings") then Some("Settings")
        else None
  }

  /** Text without quote characters yields no quoted group. */
  lemma {:induction false} QuotedFromNeedsQuote(s: string, j: nat)
    requires forall k :: 0 <= k < |s| ==> !IsQuote(s[k])
    ensures QuotedFrom(s, j).None?
    decreases |s| - j
  {
    if j < |s| {
      QuotedFromNeedsQuote(s, j + 1);
    }
  }

  lemma {:induction false} CalledFromNeedsQuote(s: string, j: nat)
    requires forall k :: 0 <= k < |s| ==> !IsQuote(s[k])
    ensures CalledFrom(s, j).None?
    decreases |s| - j
  {
    if j < |s| {
      QuotedFromNeedsQuote(s, j + 6);
      CalledFromNeedsQuote(s, j + 1);
    }
  }

  lemma {:induction false} AltAtNeedsQuote(s: string, kws: seq<string>, t: Tail, p: nat)
    requires t != Word
    requires forall k :: 0 <= k < |s| ==> !IsQuote(s[k])
    ensures AltAt(s, kws, t, p).None?
    decreases |kws|
  {
    if kws != [] {
      QuotedFromNeedsQuote(s, p + |kws[0]|);
      CalledFromNeedsQuote(s, p + |kws[0]|);
      AltAtNeedsQuote(s, kws[1..], t, p);
    }
  }

  lemma {:induction false} SearchNeedsQuote(s: string, kws: seq<string>, t: Tail, p: nat)
    requires t != Word
    requires forall k :: 0 <= k < |s| ==> !IsQuote(s[k])
    ensures Search(s, kws, t, p).None?
    decreases |s| - p
  {
    if p < |s| {
      AltAtNeedsQuote(s, kws, t, p);
      SearchNeedsQuote(s, kws, t, p + 1);
    }
  }

  /** Unquoted text that mentions "settings" and, later on the same line,
      "modal" gets no modal title at all: not "Settings". */
  lemma SettingsModalHasNoTitle(text: string)
    requires forall k :: 0 <= k < |text| ==> !IsQuote(text[k])
    requires SettingsThenModal(text, 0)
    ensures ExtractModalTitle(text) == None
  {
    SearchNeedsQuote(text, ModalKeywords, Quoted, 0);
    SearchNeedsQuote(text, ModalKeywords, CalledQuoted, 0);
  }

  /** Unquoted text that mentions "settings" with no "modal" after it on the
      line gets the title "Settings". */
  lemma SettingsAloneIsTitled(text: string)
    requires forall k :: 0 <= k < |text| ==> !IsQuote(text[k])
    requires Contains(Lower(text), "settings") && !SettingsThenModal(text, 0)
    ensures ExtractModalTitle(text) == Some("Settings")
  {
    SearchNeedsQuote(text, ModalKeywords, Quoted, 0);
    SearchNeedsQuote(text, ModalKeywords, CalledQuoted, 0);
    var r := ExtractModalTitle(text);
    assert r == Some("Settings");
  }

  /** The concrete case: "settings modal". */
  lemma SettingsModalExample()
    ensures ExtractModalTitle("settings modal") == None
  {
    var s := "settings modal";
    assert KeywordAt(s, "settings", 0);
    assert KeywordAt(s, "modal", 9);
    assert ModalFrom(s, 8);
    SettingsModalHasNoTitle(s);
  }
}
