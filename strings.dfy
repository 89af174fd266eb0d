/** String helpers shared by the whole model: ASCII case folding, substring
    search (JavaScript's `includes`), joining, repetition and the decimal
    rendering of integers. A JavaScript string is modelled as a sequence of
    `char`, and a `char` is one Unicode scalar value: a character outside the
    Basic Multilingual Plane, two UTF-16 code units in JavaScript, counts as
    one here. */
module Strings {

  /** `toLowerCase` on one character, restricted to ASCII. */
  function LowerChar(c: char): char {
    if 'A' <= c <= 'Z' then (c as int + 32) as char else c
  }

  function Lower(s: string): (r: string)
    ensures |r| == |s|
    ensures forall i :: 0 <= i < |s| ==> r[i] == LowerChar(s[i])
  {
    seq(|s|, i requires 0 <= i < |s| => LowerChar(s[i]))
  }

  lemma LowerIdempotent(s: string)
    ensures Lower(Lower(s)) == Lower(s)
  {
  }

  /** `p` occurs in `s` starting at index `i`. */
  predicate MatchesAt(s: string, p: string, i: int) {
    0 <= i && i + |p| <= |s| && s[i..i + |p|] == p
  }

  /** JavaScript's `s.includes(p)`: plain substring containment. */
  predicate Contains(s: string, p: string) {
    exists i | 0 <= i <= |s| - |p| :: MatchesAt(s, p, i)
  }

  lemma ContainsAt(s: string, p: string, i: int)
    requires MatchesAt(s, p, i)
    ensures Contains(s, p)
  {
  }

  /** A text holding `p` holds every prefix of `p`. */
  lemma ContainsPrefix(s: string, p: string, k: nat)
    requires Contains(s, p) && k <= |p|
    ensures Contains(s, p[..k])
  {
    var i :| 0 <= i <= |s| - |p| && MatchesAt(s, p, i);
    var a, b := s[i..i + k], s[i..i + |p|][..k];
    assert a == b;
    assert MatchesAt(s, p[..k], i);
  }

  /** A pattern that has a letter missing from `s` does not occur in `s`. */
  lemma NotContainsByChar(s: string, p: string, k: nat)
    requires k < |p| && p[k] !in s
    ensures !Contains(s, p)
  {
    forall i | 0 <= i <= |s| - |p| ensures !MatchesAt(s, p, i) {
      assert s[i + k] in s;
    }
  }

  /** A pattern whose first two letters never occur side by side in `s`
      does not occur in `s`. */
  lemma NotContainsByPair(s: string, p: string)
    requires |p| >= 2
    requires forall i :: 0 <= i < |s| - 1 && s[i] == p[0] ==> s[i + 1] != p[1]
    ensures !Contains(s, p)
  {
    forall i | 0 <= i <= |s| - |p| ensures !MatchesAt(s, p, i) {
      if s[i] == p[0] {
        assert s[i..i + |p|][1] == s[i + 1];
      } else {
        assert s[i..i + |p|][0] == s[i];
      }
    }
  }

  /** Containment is preserved when the text is extended on either side. */
  lemma ContainsInSlice(s: string, p: string, lo: nat, hi: nat)
    requires lo <= hi <= |s| && Contains(s[lo..hi], p)
    ensures Contains(s, p)
  {
    var t := s[lo..hi];
    var i :| 0 <= i <= |t| - |p| && MatchesAt(t, p, i);
    var a, b := s[lo + i..lo + i + |p|], t[i..i + |p|];
    assert forall m :: 0 <= m < |p| ==> a[m] == b[m];
    assert a == b;
    assert MatchesAt(s, p, lo + i);
  }

  /** A text holding `p` still holds it once framed on both sides. */
  lemma ContainsFramed(a: string, b: string, c: string, p: string)
    requires Contains(b, p)
    ensures Contains(a + b + c, p)
  {
    var s := a + b + c;
    assert s[|a|..|a| + |b|] == b;
    ContainsInSlice(s, p, |a|, |a| + |b|);
  }

  lemma ContainsAfter(a: string, b: string, p: string)
    requires Contains(b, p)
    ensures Contains(a + b, p)
  {
    var s := a + b;
    assert s[|a|..|s|] == b;
    ContainsInSlice(s, p, |a|, |s|);
  }

  /** `"  ".repeat(n)`. */
  function Spaces(n: nat): (r: string)
    ensures |r| == 2 * n
    ensures forall i :: 0 <= i < |r| ==> r[i] == ' '
  {
    if n == 0 then "" else "  " + Spaces(n - 1)
  }

  /** `xs.join(sep)`. */
  function Join(sep: string, xs: seq<string>): string {
    if |xs| == 0 then ""
    else if |xs| == 1 then xs[0]
    else xs[0] + sep + Join(sep, xs[1..])
  }

  /** Every joined element appears in the joined string. */
  lemma {:induction false} JoinContainsElement(sep: string, xs: seq<string>, k: nat)
    requires k < |xs|
    ensures Contains(Join(sep, xs), xs[k])
  {
    if |xs| == 1 {
      assert MatchesAt(Join(sep, xs), xs[0], 0);
    } else if k == 0 {
      assert Join(sep, xs)[0..|xs[0]|] == xs[0];
      assert MatchesAt(Join(sep, xs), xs[0], 0);
    } else {
      JoinContainsElement(sep, xs[1..], k - 1);
      var j := Join(sep, xs);
      var off := |xs[0]| + |sep|;
      assert j[off..|j|] == Join(sep, xs[1..]);
      ContainsInSlice(j, xs[k], off, |j|);
    }
  }

  lemma JoinEmptyIff(sep: string, xs: seq<string>)
    requires forall i :: 0 <= i < |xs| ==> xs[i] != ""
    ensures Join(sep, xs) == "" <==> xs == []
  {
    if |xs| >= 2 {
      assert |Join(sep, xs)| >= |xs[0]|;
    }
  }

  function DigitChar(d: nat): char
    requires d < 10
  {
    "0123456789"[d]
  }

  /** Decimal rendering of a natural number, as a JavaScript template string
      renders an integral number. */
  function NatToString(n: nat): (r: string)
    ensures |r| > 0
    ensures forall i :: 0 <= i < |r| ==> '0' <= r[i] <= '9'
    decreases n
  {
    if n < 10 then [DigitChar(n)] else NatToString(n / 10) + [DigitChar(n % 10)]
  }

  function IntToString(n: int): (r: string)
    ensures |r| > 0
  {
    if n < 0 then "-" + NatToString(-n) else NatToString(n)
  }
}
