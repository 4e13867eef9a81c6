/**
 The fallback PDF text extractor (`extractPdfTextFallback`): the file bytes
 are decoded as text, every character outside printable ASCII other than
 newline, carriage return and tab becomes a space, every run of white space
 becomes one space, the ends are trimmed, and fewer than 50 remaining
 characters is a failure.
 */
module PdfText {
  import opened Outcomes
  import opened JsString

  /** Characters 0x20 to 0x7E. */
  predicate IsPrintableAscii(c: char) {
    ' ' <= c <= '~'
  }

  /** What the class `[\x20-\x7E\n\r\t]` matches. */
  predicate IsKept(c: char) {
    IsPrintableAscii(c) || c == '\n' || c == '\r' || c == '\t'
  }

  /** `.replace(/[^\x20-\x7E\n\r\t]/g, " ")` */
  function Sanitize(s: string): (r: string)
    ensures |r| == |s|
    ensures forall i :: 0 <= i < |s| ==> r[i] == (if IsKept(s[i]) then s[i] else ' ')
  {
    seq(|s|, i requires 0 <= i < |s| => if IsKept(s[i]) then s[i] else ' ')
  }

  /** No two neighbouring characters are both white space. */
  predicate SingleSpaced(s: string) {
    forall i :: 0 <= i < |s| - 1 ==> !(IsJsSpace(s[i]) && IsJsSpace(s[i + 1]))
  }

  /** `.replace(/\s+/g, " ")`: each maximal run of white space becomes one
      space and every other character is kept in order. */
  function Collapse(s: string): (r: string)
    ensures SingleSpaced(r)
    ensures r != [] <==> s != []
    ensures r != [] ==> (IsJsSpace(r[0]) <==> IsJsSpace(s[0]))
    ensures forall i :: 0 <= i < |r| ==> r[i] == ' ' || (!IsJsSpace(r[i]) && r[i] in s)
    decreases |s|
  {
    if s == [] then []
    else if IsJsSpace(s[0]) then
      var k := LeadingSpace(s);
      var rest := Collapse(s[k..]);
      assert forall c :: c in s[k..] ==> c in s;
      [' '] + rest
    else
      var rest := Collapse(s[1..]);
      assert forall c :: c in s[1..] ==> c in s;
      [s[0]] + rest
  }

  /** Collapsing keeps the visible content. */
  lemma {:induction false} CollapseKeepsContent(s: string)
    ensures RemoveSpace(Collapse(s)) == RemoveSpace(s)
    decreases |s|
  {
    if s != [] {
      if IsJsSpace(s[0]) {
        var k := LeadingSpace(s);
        CollapseKeepsContent(s[k..]);
        assert s == s[..k] + s[k..];
        RemoveSpaceConcat(s[..k], s[k..]);
        RemoveSpaceOfSpace(s[..k]);
        assert Collapse(s) == [' '] + Collapse(s[k..]);
        RemoveSpaceConcat([' '], Collapse(s[k..]));
      } else {
        CollapseKeepsContent(s[1..]);
        assert Collapse(s) == [s[0]] + Collapse(s[1..]);
        RemoveSpaceConcat([s[0]], Collapse(s[1..]));
      }
    }
  }

  /** Text whose only white space is single spaces is left as it is. */
  lemma {:induction false} CollapseUnchanged(s: string)
    requires SingleSpaced(s)
    requires forall i :: 0 <= i < |s| ==> IsJsSpace(s[i]) ==> s[i] == ' '
    ensures Collapse(s) == s
    decreases |s|
  {
    if s != [] {
      if IsJsSpace(s[0]) {
        var k := LeadingSpace(s);
        assert |s| > 1 ==> !IsJsSpace(s[1]);
        assert forall i :: 0 <= i < k ==> IsJsSpace(s[i]) by {
          assert forall i :: 0 <= i < k ==> s[..k][i] == s[i];
        }
        CollapseUnchanged(s[1..]);
        assert s == [s[0]] + s[1..];
      } else {
        CollapseUnchanged(s[1..]);
        assert s == [s[0]] + s[1..];
      }
    }
  }

  /** A run of white space between two visible characters becomes exactly
      one space, and the text on either side is collapsed on its own. */
  lemma {:induction false} CollapseRun(a: string, w: string, b: string)
    requires a == [] || !IsJsSpace(a[|a| - 1])
    requires w != [] && AllSpace(w)
    requires b == [] || !IsJsSpace(b[0])
    ensures Collapse(a + w + b) == Collapse(a) + [' '] + Collapse(b)
    decreases |a|, 1
  {
    if a == [] {
      assert a + w + b == w + b;
      CollapseLeadingRun(w, b);
    } else if IsJsSpace(a[0]) {
      CollapseRunAfterSpace(a, w, b);
    } else {
      CollapseRunAfterVisible(a, w, b);
    }
  }

  lemma {:induction false} CollapseRunAfterSpace(a: string, w: string, b: string)
    requires a != [] && IsJsSpace(a[0]) && !IsJsSpace(a[|a| - 1])
    requires w != [] && AllSpace(w)
    requires b == [] || !IsJsSpace(b[0])
    ensures Collapse(a + w + b) == Collapse(a) + [' '] + Collapse(b)
    decreases |a|, 0
  {
    var s := a + w + b;
    var k := LeadingSpace(a);
    assert k < |a|;
    assert s[..k] == a[..k];
    LeadingSpaceIs(s, k);
    assert s[k..] == a[k..] + w + b;
    CollapseRun(a[k..], w, b);
    ConsRun([' '], Collapse(s), Collapse(a), Collapse(a[k..]), Collapse(b));
  }

  lemma {:induction false} CollapseRunAfterVisible(a: string, w: string, b: string)
    requires a != [] && !IsJsSpace(a[0]) && !IsJsSpace(a[|a| - 1])
    requires w != [] && AllSpace(w)
    requires b == [] || !IsJsSpace(b[0])
    ensures Collapse(a + w + b) == Collapse(a) + [' '] + Collapse(b)
    decreases |a|, 0
  {
    var s := a + w + b;
    assert s[1..] == a[1..] + w + b;
    CollapseRun(a[1..], w, b);
    ConsRun([a[0]], Collapse(s), Collapse(a), Collapse(a[1..]), Collapse(b));
  }

  lemma ConsRun(h: string, whole: string, left: string, rest: string, right: string)
    requires whole == h + (rest + [' '] + right) && left == h + rest
    ensures whole == left + [' '] + right
  {
  }

  /** Leading white space followed by a visible character (or nothing)
      collapses to one space. */
  lemma CollapseLeadingRun(w: string, b: string)
    requires w != [] && AllSpace(w)
    requires b == [] || !IsJsSpace(b[0])
    ensures Collapse(w + b) == [' '] + Collapse(b)
  {
    var s := w + b;
    assert s[..|w|] == w;
    LeadingSpaceIs(s, |w|);
    assert s[|w|..] == b;
  }

  /** The length of the leading run is the one position where white space
      stops. */
  lemma {:induction false} LeadingSpaceIs(s: string, k: nat)
    requires k <= |s| && AllSpace(s[..k])
    requires k < |s| ==> !IsJsSpace(s[k])
    ensures LeadingSpace(s) == k
    decreases k
  {
    if k > 0 {
      assert IsJsSpace(s[..k][0]);
      assert s[1..][..k - 1] == s[..k][1..];
      LeadingSpaceIs(s[1..], k - 1);
    }
  }

  /** The whole cleaning pipeline: sanitize, collapse, trim. */
  function Clean(s: string): string {
    Trim(Collapse(Sanitize(s)))
  }

  /** What cleaning guarantees: printable ASCII only, no two spaces in a
      row, no space at either end. */
  predicate WellCleaned(t: string) {
    && (forall i :: 0 <= i < |t| ==> IsPrintableAscii(t[i]))
    && (forall i :: 0 <= i < |t| - 1 ==> !(t[i] == ' ' && t[i + 1] == ' '))
    && (t == [] || (t[0] != ' ' && t[|t| - 1] != ' '))
  }

  lemma CleanShape(s: string)
    ensures WellCleaned(Clean(s))
    ensures forall i :: 0 <= i < |Clean(s)| ==> IsJsSpace(Clean(s)[i]) ==> Clean(s)[i] == ' '
    ensures SingleSpaced(Clean(s))
  {
    var c := Collapse(Sanitize(s));
    var t := Trim(c);
    var a := LeadingSpace(c);
    assert Clean(s) == t == c[a..a + |t|];
    CollapsedShape(s);
    SliceShape(c, a, a + |t|);
    TrimmedPlainIsClean(t);
  }

  lemma TrimmedPlainIsClean(t: string)
    requires PlainText(t)
    requires t == [] || (!IsJsSpace(t[0]) && !IsJsSpace(t[|t| - 1]))
    ensures WellCleaned(t)
  {
  }

  /** Printable ASCII with plain single spaces only. */
  predicate PlainText(t: string) {
    && SingleSpaced(t)
    && forall i :: 0 <= i < |t| ==> IsPrintableAscii(t[i]) && (IsJsSpace(t[i]) ==> t[i] == ' ')
  }

  /** A slice of plain text is plain text. */
  lemma SliceShape(c: string, a: nat, b: nat)
    requires a <= b <= |c| && PlainText(c)
    ensures PlainText(c[a..b])
  {
    var t := c[a..b];
    assert forall i :: 0 <= i < |t| ==> t[i] == c[a + i];
  }

  /** After sanitizing and collapsing, every character is printable ASCII
      and the only white space left is the plain space. */
  lemma CollapsedShape(s: string)
    ensures PlainText(Collapse(Sanitize(s)))
  {
    var z := Sanitize(s);
    var c := Collapse(z);
    forall i | 0 <= i < |c|
      ensures IsPrintableAscii(c[i]) && (IsJsSpace(c[i]) ==> c[i] == ' ')
    {
      if c[i] != ' ' {
        var j :| 0 <= j < |z| && z[j] == c[i];
      }
    }
  }

  /** Cleaning keeps every visible character of the sanitized text, in order. */
  lemma CleanKeepsContent(s: string)
    ensures RemoveSpace(Clean(s)) == RemoveSpace(Sanitize(s))
  {
    CollapseKeepsContent(Sanitize(s));
    TrimKeepsContent(Collapse(Sanitize(s)));
  }

  /** Cleaning already cleaned text changes nothing. */
  lemma CleanIdempotent(s: string)
    ensures Clean(Clean(s)) == Clean(s)
  {
    var t := Clean(s);
    CleanShape(s);
    assert Sanitize(t) == t;
    CollapseUnchanged(t);
    TrimUnchanged(t);
  }

  /** The message of the fallback's own error. */
  const NoMeaningfulText := "Could not extract meaningful text from PDF"

  /** The shortest cleaned text the fallback accepts. */
  const MinFallbackLength := 50

  /** `extractPdfTextFallback` applied to the decoded file text. */
  function Fallback(decoded: string): (r: Result<string>)
    ensures r.Ok? ==> r.value == Clean(decoded) && |r.value| >= MinFallbackLength
    ensures r.Ok? ==> WellCleaned(r.value)
    ensures r.Thrown? ==> |Clean(decoded)| < MinFallbackLength && r.message == NoMeaningfulText
  {
    CleanShape(decoded);
    var cleaned := Clean(decoded);
    if |cleaned| < MinFallbackLength then Thrown(NoMeaningfulText) else Ok(cleaned)
  }

  /** A line break, a carriage return and a control character between two
      words leave a single space. */
  lemma CleanExample()
    ensures Clean("a\r\n\U{0007}b") == "a b"
  {
    SanitizeExample();
    CollapseExample();
    TrimUnchanged("a b");
  }

  lemma SanitizeExample()
    ensures Sanitize("a\r\n\U{0007}b") == "a\r\n b"
  {
    assert !IsKept('\U{0007}');
  }

  lemma CollapseExample()
    ensures Collapse("a\r\n b") == "a b"
  {
    var s := "a\r\n b";
    assert s[0] == 'a' && s[1..] == "\r\n b";
    assert Collapse(s) == [s[0]] + Collapse(s[1..]);
    CollapseSpacesExample();
  }

  lemma CollapseSpacesExample()
    ensures Collapse("\r\n b") == " b"
  {
    var tail := "\r\n b";
    LeadingSpaceExample();
    assert tail[3..] == "b";
    assert Collapse("b") == "b" by {
      assert "b"[1..] == [];
    }
  }

  lemma LeadingSpaceExample()
    ensures LeadingSpace("\r\n b") == 3
  {
    assert "\r\n b"[1..] == "\n b" && "\n b"[1..] == " b" && " b"[1..] == "b";
  }
}
