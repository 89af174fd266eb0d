/** `treeToCode` (web/src/utils/codeGenerator.js): a tree printed as JSX
    markup, one attribute per rendered prop, children indented two spaces
    per level. */
module CodeGen {
  import opened Strings
  import opened UiTree

  // ------------------------------------------------------------ escaping

  /** `value.replace(/"/g, '\\"')`: every double quote gets a backslash. */
  function EscapeQuotes(s: string): string {
    if s == [] then [] else (if s[0] == '"' then "\\\"" else [s[0]]) + EscapeQuotes(s[1..])
  }

  /** The inverse reading: a backslash before a quote is dropped. */
  function UnescapeQuotes(s: string): string {
    if s == [] then []
    else if |s| >= 2 && s[0] == '\\' && s[1] == '"' then "\"" + UnescapeQuotes(s[2..])
    else [s[0]] + UnescapeQuotes(s[1..])
  }

  lemma {:induction false} EscapeStartsClean(s: string)
    ensures EscapeQuotes(s) != [] ==> EscapeQuotes(s)[0] != '"'
  {
  }

  /** Escaping loses nothing. */
  lemma {:induction false} EscapeQuotesRoundTrip(s: string)
    ensures UnescapeQuotes(EscapeQuotes(s)) == s
  {
    if s != [] {
      var rest := EscapeQuotes(s[1..]);
      EscapeQuotesRoundTrip(s[1..]);
      if s[0] == '"' {
        assert EscapeQuotes(s) == "\\\"" + rest;
        assert (("\\\"" + rest)[2..]) == rest;
      } else {
        EscapeStartsClean(s[1..]);
        assert EscapeQuotes(s) == [s[0]] + rest;
        assert ([s[0]] + rest)[1..] == rest;
      }
    }
  }

  /** Every quote of the escaped text has a backslash before it. */
  lemma {:induction false} EscapedQuotesAreBackslashed(s: string)
    ensures forall i :: 0 <= i < |EscapeQuotes(s)| && EscapeQuotes(s)[i] == '"' ==> i > 0 && EscapeQuotes(s)[i - 1] == '\\'
  {
    if s != [] {
      EscapedQuotesAreBackslashed(s[1..]);
      var head := if s[0] == '"' then "\\\"" else [s[0]];
      var rest := EscapeQuotes(s[1..]);
      var e := EscapeQuotes(s);
      assert e == head + rest;
      forall i | 0 <= i < |e| && e[i] == '"'
        ensures i > 0 && e[i - 1] == '\\'
      {
        if i >= |head| {
          var j := i - |head|;
          assert rest[j] == '"';
          assert j > 0 && rest[j - 1] == '\\';
          assert e[i - 1] == rest[j - 1];
        } else {
          assert e[i] == head[i];
          assert head == "\\\"" && i == 1;
        }
      }
    }
  }

  /** Text without quotes is printed as it is. */
  lemma {:induction false} EscapeQuoteFree(s: string)
    requires '"' !in s
    ensures EscapeQuotes(s) == s
  {
    if s != [] {
      assert s[0] in s;
      assert forall c :: c in s[1..] ==> c in s;
      EscapeQuoteFree(s[1..]);
      assert s == [s[0]] + s[1..];
    }
  }

  // ---------------------------------------------------------------- JSON

  function HexDigit(d: nat): char
    requires d < 16
  {
    "0123456789abcdef"[d]
  }

  /** How `JSON.stringify` writes one character of a string. */
  function JsonChar(c: char): string {
    if c == '"' then "\\\""
    else if c == '\\' then "\\\\"
    else if c as int == 8 then "\\b"
    else if c as int == 12 then "\\f"
    else if c == '\n' then "\\n"
    else if c == '\r' then "\\r"
    else if c == '\t' then "\\t"
    else if (c as int) < 32 then "\\u00" + [HexDigit(c as int / 16), HexDigit(c as int % 16)]
    else [c]
  }

  function JsonEscape(s: string): string {
    if s == [] then [] else JsonChar(s[0]) + JsonEscape(s[1..])
  }

  /** `JSON.stringify(value)`. Numbers are integers here, so they print as
      their decimal digits. */
  function Json(v: Value): string
    decreases v, 1, 0
  {
    match v
    case Str(s) => "\"" + JsonEscape(s) + "\""
    case Num(n) => IntToString(n)
    case Bool(b) => if b then "true" else "false"
    case Null => "null"
    case Arr(items) => "[" + Join(",", JsonItems(items)) + "]"
    case Obj(fields) => "{" + Join(",", JsonFields(v, fields)) + "}"
  }

  function JsonItems(items: seq<Value>): seq<string>
    decreases items, 0, 0
  {
    if items == [] then [] else [Json(items[0])] + JsonItems(items[1..])
  }

  /** The members of the object `parent`, each as `"key":value`. */
  function JsonFields(ghost parent: Value, fields: seq<(string, Value)>): seq<string>
    requires forall i :: 0 <= i < |fields| ==> fields[i].1 < parent
    decreases parent, 0, |fields|
  {
    if fields == [] then []
    else ["\"" + JsonEscape(fields[0].0) + "\":" + Json(fields[0].1)] + JsonFields(parent, fields[1..])
  }

  // ---------------------------------------------------------- attributes

  /** The attribute one prop renders as; "" when it renders as nothing. */
  function Attr(key: string, value: Value): string {
    if key == "children" then ""
    else match value
      case Null => ""
      case Str(s) => key + "=\"" + EscapeQuotes(s) + "\""
      case Bool(b) => if b then key else ""
      case Num(n) => key + "={" + IntToString(n) + "}"
      case Arr(_) => key + "={" + Json(value) + "}"
      case Obj(_) => key + "={" + Json(value) + "}"
  }

  /** `Object.entries(otherProps).map(...).filter(Boolean)`. */
  function Attrs(props: Props): (r: seq<string>)
    ensures forall i :: 0 <= i < |r| ==> r[i] != ""
  {
    if props == [] then []
    else
      var a := Attr(props[0].0, props[0].1);
      (if a == "" then [] else [a]) + Attrs(props[1..])
  }

  /** `propsStr ? ` ${propsStr}` : ""`. */
  function PropsPart(props: Props): string {
    var s := Join(" ", Attrs(props));
    if s == "" then "" else " " + s
  }

  /** The text a `children` prop contributes: a non-empty string only. */
  function TextContent(props: Props): Option<string> {
    match Lookup(props, "children")
    case Some(Str(t)) => if t != "" then Some(t) else None
    case _ => None
  }

  // --------------------------------------------------------------- nodes

  function OpenTag(n: Node, indent: nat): string {
    Spaces(indent) + "<" + n.component + PropsPart(n.props)
  }

  /** `treeToCode(tree, indent)` for a present tree: the opening tag, then
      one of the three endings. */
  function NodeCode(n: Node, indent: nat): string
    decreases n, 2
  {
    OpenTag(n, indent) + Ending(n, indent)
  }

  /** What follows the opening tag: the children one level deeper between
      the tags, else the text between the tags, else ` />`. */
  function Ending(n: Node, indent: nat): string
    decreases n, 1
  {
    if n.children != [] then
      ">\n" + Join("\n", ChildCodes(n.children, indent + 1)) + ClosingLine(n.component, indent)
    else match TextContent(n.props)
      case Some(t) => ">" + t + CloseTag(n.component)
      case None => " />"
  }

  function CloseTag(component: string): string {
    "</" + component + ">"
  }

  /** The closing tag on a line of its own, at the node's indentation. */
  function ClosingLine(component: string, indent: nat): string {
    "\n" + Spaces(indent) + CloseTag(component)
  }

  function ChildCodes(children: seq<Node>, indent: nat): seq<string>
    decreases children, 0
  {
    if children == [] then [] else [NodeCode(children[0], indent)] + ChildCodes(children[1..], indent)
  }

  const NoTree: string := "// No UI generated yet"

  /** `treeToCode(tree)`. */
  function TreeToCode(tree: Option<Node>, indent: nat): string {
    match tree
    case None => NoTree
    case Some(n) => NodeCode(n, indent)
  }

  /** The placeholder comment is printed exactly when there is no tree: a
      printed node has a `<` where the comment has none. */
  lemma PlaceholderIffNoTree(tree: Option<Node>, indent: nat)
    ensures TreeToCode(tree, indent) == NoTree <==> tree.None?
  {
    if tree.Some? {
      NodeStartsIndented(tree.value, indent);
      var code := NodeCode(tree.value, indent);
      assert code[2 * indent] in code;
      assert '<' !in NoTree;
    }
  }

  // ----------------------------------------------------- attribute facts

  /** Attributes follow the props' insertion order. */
  lemma {:induction false} AttrsAppend(p: Props, q: Props)
    ensures Attrs(p + q) == Attrs(p) + Attrs(q)
  {
    if p == [] {
      assert p + q == q;
    } else {
      assert (p + q)[0] == p[0];
      assert (p + q)[1..] == p[1..] + q;
      AttrsAppend(p[1..], q);
    }
  }

  /** A prop that renders as nothing can be dropped. */
  lemma SilentPropDropped(p: Props, q: Props, key: string, value: Value)
    requires Attr(key, value) == ""
    ensures Attrs(p + [(key, value)] + q) == Attrs(p + q)
  {
    AttrsAppend(p + [(key, value)], q);
    AttrsAppend(p, [(key, value)]);
    AttrsAppend(p, q);
  }

  /** The `children` prop, null values and `false` are never rendered. */
  lemma NeverRendered(p: Props, q: Props, key: string, value: Value)
    requires key == "children" || value == Null || value == Bool(false)
    ensures Attrs(p + [(key, value)] + q) == Attrs(p + q)
  {
    SilentPropDropped(p, q, key, value);
  }

  /** How one prop renders, by the type of its value. */
  lemma AttrByType(key: string, value: Value)
    requires key != "children"
    ensures value.Str? ==> Attrs([(key, value)]) == [key + "=\"" + EscapeQuotes(value.s) + "\""]
    ensures value.Bool? ==> Attrs([(key, value)]) == (if value.b && key != "" then [key] else [])
    ensures value.Num? ==> Attrs([(key, value)]) == [key + "={" + IntToString(value.n) + "}"]
    ensures value.Arr? || value.Obj? ==> Attrs([(key, value)]) == [key + "={" + Json(value) + "}"]
  {
  }

  /** A space precedes the attributes exactly when there is one, and they
      are separated by single spaces. */
  lemma PropsPartShape(props: Props)
    ensures PropsPart(props) == "" <==> Attrs(props) == []
    ensures Attrs(props) != [] ==> PropsPart(props) == " " + Join(" ", Attrs(props))
  {
    JoinEmptyIff(" ", Attrs(props));
  }

  // ---------------------------------------------------------- node facts

  predicate EndsWith(s: string, t: string) {
    |t| <= |s| && s[|s| - |t|..] == t
  }

  /** Where the pieces of `sp + "<" + c + pp + e` sit. */
  lemma TagAt(sp: string, c: string, pp: string, e: string)
    ensures |sp + "<" + c + pp + e| > |sp| + |c|
    ensures (sp + "<" + c + pp + e)[..|sp|] == sp
    ensures (sp + "<" + c + pp + e)[|sp|] == '<'
    ensures (sp + "<" + c + pp + e)[|sp| + 1..|sp| + 1 + |c|] == c
  {
    var code := sp + "<" + c + pp + e;
    assert code == sp + ("<" + (c + (pp + e)));
    assert code[|sp|..] == "<" + (c + (pp + e));
  }

  /** Every node's code starts on its own indentation, with its tag. */
  lemma NodeStartsIndented(n: Node, indent: nat)
    ensures |NodeCode(n, indent)| > 2 * indent + |n.component|
    ensures NodeCode(n, indent)[..2 * indent] == Spaces(indent)
    ensures NodeCode(n, indent)[2 * indent] == '<'
    ensures NodeCode(n, indent)[2 * indent + 1..2 * indent + 1 + |n.component|] == n.component
  {
    TagAt(Spaces(indent), n.component, PropsPart(n.props), Ending(n, indent));
  }

  /** The child codes are the children printed one level deeper. */
  lemma {:induction false} ChildCodesIndex(children: seq<Node>, indent: nat)
    ensures |ChildCodes(children, indent)| == |children|
    ensures forall k :: 0 <= k < |children| ==> ChildCodes(children, indent)[k] == NodeCode(children[k], indent)
  {
    if children != [] {
      ChildCodesIndex(children[1..], indent);
    }
  }

  /** A node with children holds each child's code, indented one level
      deeper than itself. */
  lemma NestedChildPrinted(n: Node, indent: nat, k: nat)
    requires k < |n.children|
    ensures Contains(NodeCode(n, indent), NodeCode(n.children[k], indent + 1))
  {
    var codes := ChildCodes(n.children, indent + 1);
    ChildCodesIndex(n.children, indent + 1);
    JoinContainsElement("\n", codes, k);
    ContainsFramed(">\n", Join("\n", codes), ClosingLine(n.component, indent), codes[k]);
    ContainsAfter(OpenTag(n, indent), Ending(n, indent), codes[k]);
  }

  lemma EndsWithAppend(a: string, b: string, t: string)
    requires |t| <= |b|
    ensures EndsWith(a + b, t) <==> EndsWith(b, t)
  {
    assert (a + b)[|a + b| - |t|..] == b[|b| - |t|..];
  }

  /** The close form tells the three cases apart: the tag closes itself
      exactly when the node has neither children nor text. */
  lemma SelfClosingIff(n: Node, indent: nat)
    requires n.component != [] && n.component[|n.component| - 1] != '/'
    ensures EndsWith(NodeCode(n, indent), " />") <==> n.children == [] && TextContent(n.props).None?
  {
    var c := n.component;
    var close := CloseTag(c);
    assert close[|close| - 2] == c[|c| - 1];
    assert !EndsWith(close, " />");
    if n.children != [] {
      var front := ">\n" + Join("\n", ChildCodes(n.children, indent + 1)) + "\n" + Spaces(indent);
      assert Ending(n, indent) == front + close;
      EndsWithAppend(OpenTag(n, indent) + front, close, " />");
    } else if TextContent(n.props).Some? {
      var front := ">" + TextContent(n.props).value;
      assert Ending(n, indent) == front + close;
      EndsWithAppend(OpenTag(n, indent) + front, close, " />");
    } else {
      EndsWithAppend(OpenTag(n, indent), " />", " />");
    }
  }

  /** With children present the `children` prop is not printed at all. */
  lemma TextIgnoredWithChildren(c: string, p: Props, q: Props, v: Value, kids: seq<Node>, indent: nat)
    requires kids != []
    ensures NodeCode(Node(c, p + [("children", v)] + q, kids), indent) == NodeCode(Node(c, p + q, kids), indent)
  {
    NeverRendered(p, q, "children", v);
  }

  /** A leaf whose `children` prop is a non-empty string prints it between
      its tags; an empty string prints nothing and closes the tag. */
  lemma LeafText(c: string, props: Props, indent: nat)
    ensures TextContent(props).Some? ==>
      NodeCode(Node(c, props, []), indent) == OpenTag(Node(c, props, []), indent) + (">" + TextContent(props).value + CloseTag(c))
    ensures Lookup(props, "children") == Some(Str("")) ==>
      NodeCode(Node(c, props, []), indent) == OpenTag(Node(c, props, []), indent) + " />"
  {
  }

  // ------------------------------------------------------- JSON strings

  function HexValue(c: char): (r: nat)
    ensures r < 16
  {
    if '0' <= c <= '9' then c as nat - '0' as nat
    else if 'a' <= c <= 'f' then c as nat - 'a' as nat + 10
    else if 'A' <= c <= 'F' then c as nat - 'A' as nat + 10
    else 0
  }

  predicate IsHex(c: char) {
    '0' <= c <= '9' || 'a' <= c <= 'f' || 'A' <= c <= 'F'
  }

  /** The code point a `\uXXXX` escape names, when it is a character. */
  function CodeUnit(a: char, b: char, c: char, d: char): Option<char> {
    var v := 4096 * HexValue(a) + 256 * HexValue(b) + 16 * HexValue(c) + HexValue(d);
    if v < 0xD800 || 0xE000 <= v then Some(v as char) else None
  }

  /** Reads the inside of a JSON string literal back: each escape becomes
      the character it stands for; anything else is kept. */
  function JsonUnescape(s: string): string
    decreases |s|
  {
    if s == [] then []
    else if s[0] == '\\' && |s| >= 2 then
      var e := s[1];
      if e == '"' || e == '\\' || e == '/' then [e] + JsonUnescape(s[2..])
      else if e == 'b' then [8 as char] + JsonUnescape(s[2..])
      else if e == 'f' then [12 as char] + JsonUnescape(s[2..])
      else if e == 'n' then "\n" + JsonUnescape(s[2..])
      else if e == 'r' then "\r" + JsonUnescape(s[2..])
      else if e == 't' then "\t" + JsonUnescape(s[2..])
      else if e == 'u' && |s| >= 6 && IsHex(s[2]) && IsHex(s[3]) && IsHex(s[4]) && IsHex(s[5])
              && CodeUnit(s[2], s[3], s[4], s[5]).Some? then
        [CodeUnit(s[2], s[3], s[4], s[5]).value] + JsonUnescape(s[6..])
      else [s[0]] + JsonUnescape(s[1..])
    else [s[0]] + JsonUnescape(s[1..])
  }

  lemma HexRoundTrip(d: nat)
    requires d < 16
    ensures IsHex(HexDigit(d)) && HexValue(HexDigit(d)) == d
  {
  }

  /** A `\u00XX` escape reads back as the control character it spells. */
  lemma ControlRoundTrip(c: char, rest: string)
    requires (c as int) < 32
    ensures JsonUnescape("\\u00" + [HexDigit(c as int / 16), HexDigit(c as int % 16)] + rest) == [c] + JsonUnescape(rest)
  {
    var hi, lo := c as int / 16, c as int % 16;
    var e := "\\u00" + [HexDigit(hi), HexDigit(lo)];
    var s := e + rest;
    HexRoundTrip(hi);
    HexRoundTrip(lo);
    HexRoundTrip(0);
    assert s[0] == '\\' && s[1] == 'u';
    assert s[2] == '0' && s[3] == '0' && s[4] == HexDigit(hi) && s[5] == HexDigit(lo);
    assert 16 * hi + lo == c as int;
    assert CodeUnit(s[2], s[3], s[4], s[5]) == Some(c);
    assert s[6..] == rest;
  }

  /** One escaped character reads back as itself, whatever follows it. */
  lemma JsonCharRoundTrip(c: char, rest: string)
    ensures JsonUnescape(JsonChar(c) + rest) == [c] + JsonUnescape(rest)
  {
    var e := JsonChar(c);
    var s := e + rest;
    if |e| == 2 {
      assert s[2..] == rest;
    } else if |e| == 6 {
      ControlRoundTrip(c, rest);
    } else {
      assert s[1..] == rest;
    }
  }

  /** `JSON.stringify` of a string loses nothing: its inside reads back as
      the string. */
  lemma {:induction false} JsonEscapeRoundTrip(s: string)
    ensures JsonUnescape(JsonEscape(s)) == s
  {
    if s != [] {
      JsonEscapeRoundTrip(s[1..]);
      JsonCharRoundTrip(s[0], JsonEscape(s[1..]));
      assert s == [s[0]] + s[1..];
    }
  }

  // ------------------------------------------------------ line structure

  /** The number of line breaks in a text. */
  function Newlines(s: string): nat {
    if s == [] then 0 else (if s[0] == '\n' then 1 else 0) + Newlines(s[1..])
  }

  lemma {:induction false} NewlinesAppend(a: string, b: string)
    ensures Newlines(a + b) == Newlines(a) + Newlines(b)
  {
    if a == [] {
      assert a + b == b;
    } else {
      assert (a + b)[1..] == a[1..] + b;
      NewlinesAppend(a[1..], b);
    }
  }

  lemma {:induction false} NoNewlineChar(s: string)
    requires forall i :: 0 <= i < |s| ==> s[i] != '\n'
    ensures Newlines(s) == 0
  {
    if s != [] {
      NoNewlineChar(s[1..]);
    }
  }

  function SumNewlines(xs: seq<string>): nat {
    if xs == [] then 0 else Newlines(xs[0]) + SumNewlines(xs[1..])
  }

  /** Joining adds one separator between neighbours. */
  lemma {:induction false} JoinNewlines(sep: string, xs: seq<string>)
    requires xs != []
    ensures Newlines(Join(sep, xs)) == SumNewlines(xs) + (|xs| - 1) * Newlines(sep)
  {
    if |xs| > 1 {
      JoinNewlines(sep, xs[1..]);
      NewlinesAppend(xs[0] + sep, Join(sep, xs[1..]));
      NewlinesAppend(xs[0], sep);
    }
  }

  lemma {:induction false} JoinOneLine(sep: string, xs: seq<string>)
    requires Newlines(sep) == 0
    requires forall i :: 0 <= i < |xs| ==> Newlines(xs[i]) == 0
    ensures Newlines(Join(sep, xs)) == 0
  {
    if xs != [] {
      AllOneLine(xs);
      JoinNewlines(sep, xs);
    }
  }

  lemma {:induction false} AllOneLine(xs: seq<string>)
    requires forall i :: 0 <= i < |xs| ==> Newlines(xs[i]) == 0
    ensures SumNewlines(xs) == 0
  {
    if xs != [] {
      AllOneLine(xs[1..]);
    }
  }

  lemma {:induction false} EscapeKeepsNewlines(s: string)
    ensures Newlines(EscapeQuotes(s)) == Newlines(s)
  {
    if s != [] {
      EscapeKeepsNewlines(s[1..]);
      var head := if s[0] == '"' then "\\\"" else [s[0]];
      NewlinesAppend(head, EscapeQuotes(s[1..]));
    }
  }

  lemma {:induction false} JsonEscapeOneLine(s: string)
    ensures Newlines(JsonEscape(s)) == 0
  {
    if s != [] {
      JsonEscapeOneLine(s[1..]);
      var e := JsonChar(s[0]);
      NoNewlineChar(e);
      NewlinesAppend(e, JsonEscape(s[1..]));
    }
  }

  lemma IntOneLine(n: int)
    ensures Newlines(IntToString(n)) == 0
  {
    NoNewlineChar(IntToString(n));
  }

  /** `JSON.stringify` without indentation writes one line. */
  lemma {:induction false} JsonOneLine(v: Value)
    ensures Newlines(Json(v)) == 0
    decreases v, 1, 0
  {
    match v
    case Str(s) =>
      JsonEscapeOneLine(s);
      NewlinesAppend("\"" + JsonEscape(s), "\"");
      NewlinesAppend("\"", JsonEscape(s));
    case Num(n) => IntOneLine(n);
    case Bool(b) => NoNewlineChar(Json(v));
    case Null => NoNewlineChar("null");
    case Arr(items) =>
      JsonItemsOneLine(items);
      JoinOneLine(",", JsonItems(items));
      NewlinesAppend("[" + Join(",", JsonItems(items)), "]");
      NewlinesAppend("[", Join(",", JsonItems(items)));
    case Obj(fields) =>
      JsonFieldsOneLine(v, fields);
      JoinOneLine(",", JsonFields(v, fields));
      NewlinesAppend("{" + Join(",", JsonFields(v, fields)), "}");
      NewlinesAppend("{", Join(",", JsonFields(v, fields)));
  }

  lemma {:induction false} JsonItemsOneLine(items: seq<Value>)
    ensures forall i :: 0 <= i < |JsonItems(items)| ==> Newlines(JsonItems(items)[i]) == 0
    decreases items, 0, 0
  {
    if items != [] {
      JsonOneLine(items[0]);
      JsonItemsOneLine(items[1..]);
    }
  }

  lemma {:induction false} JsonFieldsOneLine(parent: Value, fields: seq<(string, Value)>)
    requires forall i :: 0 <= i < |fields| ==> fields[i].1 < parent
    ensures forall i :: 0 <= i < |JsonFields(parent, fields)| ==> Newlines(JsonFields(parent, fields)[i]) == 0
    decreases parent, 0, |fields|
  {
    if fields != [] {
      var key := "\"" + JsonEscape(fields[0].0) + "\":";
      JsonOneLine(fields[0].1);
      JsonEscapeOneLine(fields[0].0);
      NewlinesAppend("\"" + JsonEscape(fields[0].0), "\":");
      NewlinesAppend("\"", JsonEscape(fields[0].0));
      NewlinesAppend(key, Json(fields[0].1));
      JsonFieldsOneLine(parent, fields[1..]);
    }
  }

  /** No key and no string value of the props breaks a line. */
  predicate OneLineProps(props: Props) {
    forall i :: 0 <= i < |props| ==>
      Newlines(props[i].0) == 0 && (props[i].1.Str? ==> Newlines(props[i].1.s) == 0)
  }

  /** No name, key or string value anywhere in the tree breaks a line. */
  predicate OneLineTree(n: Node)
    decreases n, 1
  {
    Newlines(n.component) == 0 && OneLineProps(n.props) && OneLineTrees(n.children)
  }

  predicate OneLineTrees(children: seq<Node>)
    decreases children, 0
  {
    children == [] || (OneLineTree(children[0]) && OneLineTrees(children[1..]))
  }

  /** The lines a node takes: one for a leaf; an opening line, a closing
      line and its children's lines otherwise. */
  function LineCount(n: Node): nat
    decreases n, 1
  {
    if n.children == [] then 1 else 2 + LineCounts(n.children)
  }

  function LineCounts(children: seq<Node>): nat
    decreases children, 0
  {
    if children == [] then 0 else LineCount(children[0]) + LineCounts(children[1..])
  }

  lemma AttrOneLine(key: string, value: Value)
    requires Newlines(key) == 0 && (value.Str? ==> Newlines(value.s) == 0)
    ensures Newlines(Attr(key, value)) == 0
  {
    if key != "children" {
      match value
      case Str(t) =>
        EscapeKeepsNewlines(t);
        NoNewlineChar("=\"");
        NewlinesAppend(key, "=\"");
        NewlinesAppend(key + "=\"", EscapeQuotes(t));
        NewlinesAppend(key + "=\"" + EscapeQuotes(t), "\"");
      case Num(n) =>
        IntOneLine(n);
        NoNewlineChar("={");
        NewlinesAppend(key, "={");
        NewlinesAppend(key + "={", IntToString(n));
        NewlinesAppend(key + "={" + IntToString(n), "}");
      case Arr(_) => BracedJsonOneLine(key, value);
      case Obj(_) => BracedJsonOneLine(key, value);
      case Bool(_) =>
      case Null =>
    }
  }

  lemma BracedJsonOneLine(key: string, value: Value)
    requires Newlines(key) == 0
    ensures Newlines(key + "={" + Json(value) + "}") == 0
  {
    JsonOneLine(value);
    NoNewlineChar("={");
    NewlinesAppend(key, "={");
    NewlinesAppend(key + "={", Json(value));
    NewlinesAppend(key + "={" + Json(value), "}");
  }

  lemma {:induction false} AttrsOneLine(props: Props)
    requires OneLineProps(props)
    ensures forall i :: 0 <= i < |Attrs(props)| ==> Newlines(Attrs(props)[i]) == 0
  {
    if props != [] {
      AttrOneLine(props[0].0, props[0].1);
      assert OneLineProps(props[1..]) by {
        assert forall i :: 0 <= i < |props| - 1 ==> props[1..][i] == props[i + 1];
      }
      AttrsOneLine(props[1..]);
    }
  }

  /** The opening tag of a one-line node is one line. */
  lemma OpenTagOneLine(n: Node, indent: nat)
    requires Newlines(n.component) == 0 && OneLineProps(n.props)
    ensures Newlines(OpenTag(n, indent)) == 0
  {
    AttrsOneLine(n.props);
    JoinOneLine(" ", Attrs(n.props));
    var joined := Join(" ", Attrs(n.props));
    NewlinesAppend(" ", joined);
    NoNewlineChar(Spaces(indent));
    NewlinesAppend(Spaces(indent), "<");
    NewlinesAppend(Spaces(indent) + "<", n.component);
    NewlinesAppend(Spaces(indent) + "<" + n.component, PropsPart(n.props));
  }

  lemma TextOneLine(props: Props)
    requires OneLineProps(props) && TextContent(props).Some?
    ensures Newlines(TextContent(props).value) == 0
  {
    var i :| 0 <= i < |props| && props[i] == ("children", Lookup(props, "children").value);
  }

  lemma CloseTagOneLine(c: string)
    requires Newlines(c) == 0
    ensures Newlines(CloseTag(c)) == 0
  {
    NewlinesAppend("</", c);
    NewlinesAppend("</" + c, ">");
  }

  /** The printed tree has exactly `LineCount` lines when no text in it
      breaks a line: each leaf on one line, each parent's tags on lines of
      their own around its children's lines. */
  lemma {:induction false} NodeLines(n: Node, indent: nat)
    requires OneLineTree(n)
    ensures Newlines(NodeCode(n, indent)) + 1 == LineCount(n)
    decreases n, 1
  {
    OpenTagOneLine(n, indent);
    CloseTagOneLine(n.component);
    var ending := Ending(n, indent);
    NewlinesAppend(OpenTag(n, indent), ending);
    if n.children != [] {
      var codes := ChildCodes(n.children, indent + 1);
      ChildLines(n.children, indent + 1);
      ChildCodesIndex(n.children, indent + 1);
      NestedNewlines(n.component, indent, codes);
    } else if TextContent(n.props).Some? {
      var t := TextContent(n.props).value;
      TextOneLine(n.props);
      NewlinesAppend(">", t);
      NewlinesAppend(">" + t, CloseTag(n.component));
    } else {
      NoNewlineChar(" />");
    }
  }

  /** The ending of a parent: a break after the opening tag, the breaks
      inside and between the children's codes, a break before the closing tag. */
  lemma NestedNewlines(c: string, indent: nat, codes: seq<string>)
    requires codes != [] && Newlines(c) == 0
    ensures Newlines(">\n" + Join("\n", codes) + ClosingLine(c, indent)) == SumNewlines(codes) + |codes| + 1
  {
    var nl := "\n";
    assert Newlines(nl) == 1 by {
      assert nl[1..] == [];
    }
    assert Newlines(">\n") == 1 by {
      assert ">\n"[1..] == nl;
    }
    JoinNewlines(nl, codes);
    var m := |codes| - 1;
    assert m * Newlines(nl) == m;
    var joined := Join(nl, codes);
    assert Newlines(joined) == SumNewlines(codes) + m;
    CloseTagOneLine(c);
    NoNewlineChar(Spaces(indent));
    NewlinesAppend(nl, Spaces(indent));
    NewlinesAppend(nl + Spaces(indent), CloseTag(c));
    assert Newlines(ClosingLine(c, indent)) == 1;
    NewlinesAppend(">\n", joined);
    NewlinesAppend(">\n" + joined, ClosingLine(c, indent));
  }

  lemma {:induction false} ChildLines(children: seq<Node>, indent: nat)
    requires OneLineTrees(children)
    ensures SumNewlines(ChildCodes(children, indent)) + |children| == LineCounts(children)
    decreases children, 0
  {
    if children != [] {
      NodeLines(children[0], indent);
      ChildLines(children[1..], indent);
    }
  }
}
