/**
 The JavaScript string built-ins the route handlers rely on, stated over
 `string` (a sequence of characters): white space as `trim()` and the
 regular-expression class `\s` see it, `toLowerCase()` on ASCII letters,
 `lastIndexOf` of one character, `substring` with its argument
 clamping, and `split` of a one-character separator together with `join`.
 */
module JsString {

  /** The characters `String.prototype.trim` strips and `\s` matches:
      ECMAScript WhiteSpace (including every Zs space) and LineTerminator. */
  predicate IsJsSpace(c: char) {
    || c == ' ' || c == '\t' || c == '\n' || c == '\r'
    || c == '\U{000B}' || c == '\U{000C}' || c == '\U{00A0}' || c == '\U{1680}'
    || ('\U{2000}' <= c <= '\U{200A}')
    || c == '\U{2028}' || c == '\U{2029}' || c == '\U{202F}' || c == '\U{205F}'
    || c == '\U{3000}' || c == '\U{FEFF}'
  }

  predicate AllSpace(s: string) {
    forall i :: 0 <= i < |s| ==> IsJsSpace(s[i])
  }

  /** `s` with every white-space character deleted: the visible content. */
  function RemoveSpace(s: string): string
    decreases |s|
  {
    if s == [] then []
    else (if IsJsSpace(s[0]) then [] else [s[0]]) + RemoveSpace(s[1..])
  }

  lemma {:induction false} RemoveSpaceConcat(a: string, b: string)
    ensures RemoveSpace(a + b) == RemoveSpace(a) + RemoveSpace(b)
    decreases |a|
  {
    if a != [] {
      assert (a + b)[1..] == a[1..] + b;
      RemoveSpaceConcat(a[1..], b);
    } else {
      assert a + b == b;
    }
  }

  lemma {:induction false} RemoveSpaceOfSpace(s: string)
    requires AllSpace(s)
    ensures RemoveSpace(s) == []
    decreases |s|
  {
    if s != [] {
      RemoveSpaceOfSpace(s[1..]);
    }
  }

  /** Number of white-space characters `trimStart` removes. */
  function LeadingSpace(s: string): (k: nat)
    ensures k <= |s|
    ensures AllSpace(s[..k])
    ensures k < |s| ==> !IsJsSpace(s[k])
    decreases |s|
  {
    if s == [] || !IsJsSpace(s[0]) then 0
    else
      var k := LeadingSpace(s[1..]);
      assert s[..k + 1] == [s[0]] + s[1..][..k];
      k + 1
  }

  /** Index at which the white space `trimEnd` removes begins. */
  function TrailingSpaceStart(s: string): (k: nat)
    ensures k <= |s|
    ensures AllSpace(s[k..])
    ensures k > 0 ==> !IsJsSpace(s[k - 1])
    decreases |s|
  {
    if s == [] || !IsJsSpace(s[|s| - 1]) then |s|
    else
      var k := TrailingSpaceStart(s[..|s| - 1]);
      assert s[k..] == s[..|s| - 1][k..] + [s[|s| - 1]];
      k
  }

  /** `s.trim()`: the slice of `s` left after removing white space at both ends. */
  function Trim(s: string): (r: string)
    ensures r == [] || (!IsJsSpace(r[0]) && !IsJsSpace(r[|r| - 1]))
    ensures LeadingSpace(s) + |r| <= |s|
    ensures r == s[LeadingSpace(s)..LeadingSpace(s) + |r|]
    ensures AllSpace(s[LeadingSpace(s) + |r|..])
  {
    var a := LeadingSpace(s);
    var rest := s[a..];
    var b := TrailingSpaceStart(rest);
    assert s[a + b..] == rest[b..];
    rest[..b]
  }

  /** Trimming removes white space only: the visible content is kept. */
  lemma TrimKeepsContent(s: string)
    ensures RemoveSpace(Trim(s)) == RemoveSpace(s)
  {
    var a := LeadingSpace(s);
    var r := Trim(s);
    var tail := s[a + |r|..];
    assert s == s[..a] + r + tail;
    RemoveSpaceConcat(s[..a], r);
    RemoveSpaceConcat(s[..a] + r, tail);
    RemoveSpaceOfSpace(s[..a]);
    RemoveSpaceOfSpace(tail);
  }

  /** Trimming yields nothing exactly when the text is all white space. */
  lemma TrimEmpty(s: string)
    ensures Trim(s) == [] <==> AllSpace(s)
  {
    var a := LeadingSpace(s);
    var r := Trim(s);
    var tail := s[a + |r|..];
    if r == [] {
      assert s[..a] == s;
    } else {
      assert r[0] == s[a];
    }
  }

  /** Trimming text without white space at either end changes nothing. */
  lemma TrimUnchanged(s: string)
    requires s == [] || (!IsJsSpace(s[0]) && !IsJsSpace(s[|s| - 1]))
    ensures Trim(s) == s
  {
    var r := Trim(s);
    assert s != [] ==> LeadingSpace(s) == 0;
  }

  /** `isBlank`: what `!s || s.trim().length === 0` tests. */
  predicate IsBlank(s: string) {
    Trim(s) == []
  }

  function LowerChar(c: char): char {
    if 'A' <= c <= 'Z' then (c as int + 32) as char else c
  }

  /** `s.toLowerCase()` on ASCII letters (other characters are kept). */
  function Lower(s: string): (r: string)
    ensures |r| == |s|
    ensures forall i :: 0 <= i < |s| ==> r[i] == LowerChar(s[i])
  {
    seq(|s|, i requires 0 <= i < |s| => LowerChar(s[i]))
  }

  lemma LowerIdempotent(s: string)
    ensures Lower(Lower(s)) == Lower(s)
  {
  }

  /** `s.lastIndexOf(d)`: the last position of `d`, or -1. */
  function LastIndexOf(s: string, d: char): (i: int)
    ensures -1 <= i < |s|
    ensures i == -1 <==> d !in s
    ensures 0 <= i ==> s[i] == d
    ensures forall k :: i < k < |s| ==> s[k] != d
    decreases |s|
  {
    if s == [] then -1
    else if s[|s| - 1] == d then |s| - 1
    else
      var j := LastIndexOf(s[..|s| - 1], d);
      assert s == s[..|s| - 1] + [s[|s| - 1]];
      j
  }

  lemma LastIndexOfUnique(s: string, d: char, j: nat)
    requires j < |s| && s[j] == d
    requires forall k :: j < k < |s| ==> s[k] != d
    ensures LastIndexOf(s, d) == j
  {
    assert s[j] in s;
  }

  function Clamp(i: int, n: nat): (r: nat)
    ensures r <= n
  {
    if i < 0 then 0 else if i > n then n else i
  }

  /** `s.substring(start, end)`: both arguments are clamped into
      `[0, |s|]`, then swapped when the first exceeds the second. */
  function Substring(s: string, start: int, end: int): (r: string)
    ensures |r| <= |s|
    ensures 0 <= start <= end <= |s| ==> r == s[start..end]
    ensures start <= 0 && 0 <= end <= |s| ==> r == s[..end]
    ensures end >= |s| && 0 <= start <= |s| ==> r == s[start..]
    ensures start <= 0 && end <= 0 ==> r == []
  {
    var a := Clamp(start, |s|);
    var b := Clamp(end, |s|);
    if a <= b then s[a..b] else s[b..a]
  }

  /** The two bounds may be given in either order. */
  lemma SubstringSymmetric(s: string, start: int, end: int)
    ensures Substring(s, start, end) == Substring(s, end, start)
  {
  }

  /** `s.split(d)` for a one-character separator, built from the last
      separator backwards; its last piece is what `pop()` returns. */
  function Split(s: string, d: char): (parts: seq<string>)
    ensures |parts| >= 1
    ensures parts[|parts| - 1] == s[LastIndexOf(s, d) + 1..]
    decreases |s|
  {
    var k := LastIndexOf(s, d);
    if k < 0 then [s] else Split(s[..k], d) + [s[k + 1..]]
  }

  /** `parts.join(d)`. */
  function Join(parts: seq<string>, d: char): string
    decreases |parts|
  {
    if |parts| == 0 then []
    else if |parts| == 1 then parts[0]
    else Join(parts[..|parts| - 1], d) + [d] + parts[|parts| - 1]
  }

  /** `parts.pop()` on a non-empty array: its last element. */
  function Last(parts: seq<string>): string
    requires |parts| >= 1
  {
    parts[|parts| - 1]
  }

  lemma SliceAround(s: string, i: nat)
    requires i < |s|
    ensures s == s[..i] + [s[i]] + s[i + 1..]
  {
  }

  lemma JoinSnoc(init: seq<string>, p: string, d: char)
    requires |init| >= 1
    ensures Join(init + [p], d) == Join(init, d) + [d] + p
  {
    assert (init + [p])[..|init|] == init;
  }

  /** Joining the pieces of a split gives back the original string. */
  lemma {:induction false} JoinSplit(s: string, d: char)
    ensures Join(Split(s, d), d) == s
    decreases |s|
  {
    var k := LastIndexOf(s, d);
    if k >= 0 {
      JoinSplit(s[..k], d);
      JoinSnoc(Split(s[..k], d), s[k + 1..], d);
      SliceAround(s, k);
    }
  }

  /** Splitting just after the last separator. */
  lemma SplitSnoc(init: string, p: string, d: char)
    requires d !in p
    ensures Split(init + [d] + p, d) == Split(init, d) + [p]
  {
    var s := init + [d] + p;
    assert forall k :: |init| < k < |s| ==> s[k] == p[k - |init| - 1];
    LastIndexOfUnique(s, d, |init|);
    assert s[..|init|] == init;
    assert s[|init| + 1..] == p;
  }

  /** Splitting a join of separator-free pieces gives back the pieces. */
  lemma {:induction false} SplitJoin(parts: seq<string>, d: char)
    requires |parts| >= 1
    requires forall i :: 0 <= i < |parts| ==> d !in parts[i]
    ensures Split(Join(parts, d), d) == parts
    decreases |parts|
  {
    var n := |parts|;
    if n > 1 {
      SplitJoin(parts[..n - 1], d);
      SplitSnoc(Join(parts[..n - 1], d), parts[n - 1], d);
      assert parts == parts[..n - 1] + [parts[n - 1]];
    }
  }
}
