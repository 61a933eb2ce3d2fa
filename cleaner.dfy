/** `cleanOutput` (Backend/index.js): the normaliser applied to generated plain
    text before it is cached and returned. It is a chain of four global
    regular-expression replacements and a trim; each replacement is written as a
    left-to-right scan of the ORIGINAL string of that step (so `^` in multiline
    mode looks at the original previous character), emitting the replacement
    for each match and copying every other character. */
module Cleaner {
  import opened TextUtil

  /** A LineTerminator: where `^` matches in multiline mode. */
  predicate IsLineTerminator(c: char) {
    c == '\n' || c == '\r' || c == '\U{2028}' || c == '\U{2029}'
  }

  predicate AtLineStart(s: string, i: nat)
    requires i <= |s|
  {
    i == 0 || IsLineTerminator(s[i - 1])
  }

  /** The list markers the first step strips: `*`, `•` and `+`. */
  predicate IsBulletMark(c: char) {
    c == '*' || c == '•' || c == '+'
  }

  /** No three `\n` in a row. */
  predicate NoTripleNewline(s: string) {
    forall i | 0 <= i < |s| - 2 :: !(s[i] == '\n' && s[i + 1] == '\n' && s[i + 2] == '\n')
  }

  /** `.replace(/^[*•+]\s?/gm, '')` on `s[i..]`: at a line start, a marker and at
      most one white-space character after it (which may be the line break
      itself) disappear. The result only holds characters of the input. */
  function StripBulletsFrom(s: string, i: nat): (r: string)
    requires i <= |s|
    ensures |r| <= |s| - i
    ensures forall c | c in r :: c in s[i..]
    decreases |s| - i
  {
    if i == |s| then ""
    else if AtLineStart(s, i) && IsBulletMark(s[i]) then
      if i + 1 < |s| && IsSpace(s[i + 1]) then StripBulletsFrom(s, i + 2) else StripBulletsFrom(s, i + 1)
    else
      var rest := StripBulletsFrom(s, i + 1);
      assert forall c | c in rest :: c in s[i..] by { assert s[i + 1..] == s[i..][1..]; }
      [s[i]] + rest
  }

  /** `.replace(/^\s*-\s?/gm, '- ')` on `s[i..]`: at a line start, white space
      (possibly spanning blank lines), a dash and at most one white-space
      character become exactly "- ". A greedy `\s*` followed by `-` matches
      exactly when the first non-blank character is the dash. */
  function NormalizeDashesFrom(s: string, i: nat): (r: string)
    requires i <= |s|
    ensures forall c | c in r :: c in s[i..] || c == '-' || c == ' '
    decreases |s| - i
  {
    if i == |s| then ""
    else if AtLineStart(s, i) && SpaceRunEnd(s, i) < |s| && s[SpaceRunEnd(s, i)] == '-' then
      var k := SpaceRunEnd(s, i);
      var e := if k + 1 < |s| && IsSpace(s[k + 1]) then k + 2 else k + 1;
      var rest := NormalizeDashesFrom(s, e);
      assert forall c | c in rest :: c in s[i..] || c == '-' || c == ' ' by {
        assert forall c | c in s[e..] :: c in s[i..] by { assert s[e..] == s[i..][e - i..]; }
      }
      "- " + rest
    else
      var rest := NormalizeDashesFrom(s, i + 1);
      assert forall c | c in rest :: c in s[i..] || c == '-' || c == ' ' by { assert s[i + 1..] == s[i..][1..]; }
      [s[i]] + rest
  }

  /** End of the run of `\n` that starts at `i` (what a greedy `\n{2,}` takes). */
  function NewlineRunEnd(s: string, i: nat): (k: nat)
    requires i <= |s|
    ensures i <= k <= |s|
    ensures forall j | i <= j < k :: s[j] == '\n'
    ensures k == |s| || s[k] != '\n'
    decreases |s| - i
  {
    if i < |s| && s[i] == '\n' then NewlineRunEnd(s, i + 1) else i
  }

  /** `.replace(/\r?\n{2,}/g, '\n\n')` on `s[i..]`: every run of two or more line
      feeds (with an optional carriage return in front) becomes exactly two. */
  function CollapseFrom(s: string, i: nat): (r: string)
    requires i <= |s|
    ensures r != [] ==> i < |s|
    ensures r != [] && r[0] == '*' ==> s[i] == '*'
    ensures r != [] && r[0] == '\n' ==> s[i] == '\n' || s[i] == '\r'
    ensures forall c | c in r :: c in s[i..]
    decreases |s| - i
  {
    if i == |s| then ""
    else
      assert s[i + 1..] == s[i..][1..];
      if s[i] == '\r' && NewlineRunEnd(s, i + 1) >= i + 3 then
        var k := NewlineRunEnd(s, i + 1);
        assert s[k..] == s[i..][k - i..];
        "\n\n" + CollapseFrom(s, k)
      else if s[i] == '\n' && NewlineRunEnd(s, i) >= i + 2 then
        var k := NewlineRunEnd(s, i);
        assert s[k..] == s[i..][k - i..];
        "\n\n" + CollapseFrom(s, k)
      else
        [s[i]] + CollapseFrom(s, i + 1)
  }

  /** Collapsing line feeds keeps a text free of `**`. */
  lemma {:induction false} CollapseKeepsNoDoubleStar(s: string, i: nat)
    requires i <= |s|
    requires NoDoubleStar(s)
    ensures NoDoubleStar(CollapseFrom(s, i))
    decreases |s| - i
  {
    if i < |s| {
      if s[i] == '\r' && NewlineRunEnd(s, i + 1) >= i + 3 {
        CollapseKeepsNoDoubleStar(s, NewlineRunEnd(s, i + 1));
        PrependNoDoubleStar("\n\n", CollapseFrom(s, NewlineRunEnd(s, i + 1)));
      } else if s[i] == '\n' && NewlineRunEnd(s, i) >= i + 2 {
        CollapseKeepsNoDoubleStar(s, NewlineRunEnd(s, i));
        PrependNoDoubleStar("\n\n", CollapseFrom(s, NewlineRunEnd(s, i)));
      } else {
        CollapseKeepsNoDoubleStar(s, i + 1);
        PrependNoDoubleStar([s[i]], CollapseFrom(s, i + 1));
      }
    }
  }

  /** Gluing a `**`-free text in front of another creates `**` only across the seam. */
  lemma PrependNoDoubleStar(a: string, b: string)
    requires NoDoubleStar(a) && NoDoubleStar(b)
    requires a != [] && b != [] ==> !(a[|a| - 1] == '*' && b[0] == '*')
    ensures NoDoubleStar(a + b)
  {
    var t := a + b;
    forall j | 0 <= j < |t| - 1 ensures !(t[j] == '*' && t[j + 1] == '*') {
      if j + 1 < |a| {
        assert t[j] == a[j] && t[j + 1] == a[j + 1];
      } else if j >= |a| {
        assert t[j] == b[j - |a|] && t[j + 1] == b[j - |a| + 1];
      }
    }
  }

  /** On a text without carriage returns, collapsing leaves no three line
      feeds in a row. */
  lemma {:induction false} CollapseLeavesNoTripleNewline(s: string, i: nat)
    requires i <= |s|
    requires '\r' !in s
    ensures NoTripleNewline(CollapseFrom(s, i))
    decreases |s| - i
  {
    if i < |s| {
      if s[i] == '\n' && NewlineRunEnd(s, i) >= i + 2 {
        var k := NewlineRunEnd(s, i);
        CollapseLeavesNoTripleNewline(s, k);
        assert k < |s| ==> s[k] in s;
        PrependNoTripleNewline("\n\n", CollapseFrom(s, k));
      } else {
        CollapseLeavesNoTripleNewline(s, i + 1);
        assert i + 1 < |s| ==> s[i + 1] in s;
        PrependNoTripleNewline([s[i]], CollapseFrom(s, i + 1));
      }
    }
  }

  /** Putting at most two characters, not both line feeds when the other text
      opens with one, in front of a text keeps it free of three line feeds. */
  lemma PrependNoTripleNewline(a: string, b: string)
    requires 1 <= |a| <= 2 && NoTripleNewline(b)
    requires b != [] && b[0] == '\n' ==> a[|a| - 1] != '\n' || (|a| == 1 && (|b| == 1 || b[1] != '\n'))
    ensures NoTripleNewline(a + b)
  {
    var t := a + b;
    forall j | 0 <= j < |t| - 2 ensures !(t[j] == '\n' && t[j + 1] == '\n' && t[j + 2] == '\n') {
      if j >= |a| {
        assert t[j] == b[j - |a|] && t[j + 1] == b[j - |a| + 1] && t[j + 2] == b[j - |a| + 2];
      }
    }
  }

  /** An infix of a text inherits both shape properties. */
  lemma InfixKeepsShape(s: string, a: nat, b: nat)
    requires a <= b <= |s|
    ensures NoDoubleStar(s) ==> NoDoubleStar(s[a..b])
    ensures NoTripleNewline(s) ==> NoTripleNewline(s[a..b])
  {
    var t := s[a..b];
    assert forall i | 0 <= i < |t| :: t[i] == s[a + i];
  }

  /** The four replacements of `cleanOutput`, in their order. */
  function Passes(text: string): string {
    CollapseFrom(RemoveDoubleStars(NormalizeDashesFrom(StripBulletsFrom(text, 0), 0)), 0)
  }

  /** After the replacements the text holds no `**`, and no three line feeds
      in a row when the input held no carriage return. */
  lemma PassesShape(text: string)
    ensures NoDoubleStar(Passes(text))
    ensures '\r' !in text ==> NoTripleNewline(Passes(text))
  {
    var bullets := StripBulletsFrom(text, 0);
    var stars := RemoveDoubleStars(NormalizeDashesFrom(bullets, 0));
    CollapseKeepsNoDoubleStar(stars, 0);
    if '\r' !in text {
      assert text[0..] == text && bullets[0..] == bullets;
      CollapseLeavesNoTripleNewline(stars, 0);
    }
  }

  /** `cleanOutput(text)`. Whatever the model returns, the result has no white
      space at either end and no `**`; when the input holds no carriage return,
      it also holds no run of three line feeds. */
  function CleanOutput(text: string): (r: string)
    ensures r == [] || (!IsSpace(r[0]) && !IsSpace(r[|r| - 1]))
    ensures NoDoubleStar(r)
    ensures '\r' !in text ==> NoTripleNewline(r)
  {
    PassesShape(text);
    TrimKeepsShape(Passes(text));
    TrimEnds(Passes(text));
    Trim(Passes(text))
  }

  /** Trimming only cuts characters off the ends, so it keeps both shape
      properties. */
  lemma {:induction false} TrimKeepsShape(s: string)
    ensures NoDoubleStar(s) ==> NoDoubleStar(Trim(s))
    ensures NoTripleNewline(s) ==> NoTripleNewline(Trim(s))
    decreases |s|
  {
    if s != [] && IsSpace(s[0]) {
      InfixKeepsShape(s, 1, |s|);
      assert s[1..|s|] == s[1..];
      TrimKeepsShape(s[1..]);
    } else if s != [] && IsSpace(s[|s| - 1]) {
      InfixKeepsShape(s, 0, |s| - 1);
      assert s[0..|s| - 1] == s[..|s| - 1];
      TrimKeepsShape(s[..|s| - 1]);
    }
  }

  /** `cleanOutput` is NOT idempotent: the first step strips one marker per
      line, so a line that starts with two markers keeps the second, which the
      next call strips. */
  lemma CleanOutputNotIdempotent()
    ensures CleanOutput("* * x") == "* x"
    ensures CleanOutput(CleanOutput("* * x")) == "x"
  {
    StripTwoMarkers();
    StripOneMarker();
    PlainStepsKeep();
  }

  lemma StripTwoMarkers()
    ensures StripBulletsFrom("* * x", 0) == "* x"
  {
    var s := "* * x";
    assert StripBulletsFrom(s, 5) == "";
    assert StripBulletsFrom(s, 4) == "x";
    assert StripBulletsFrom(s, 3) == " x";
    assert !AtLineStart(s, 2);
    assert StripBulletsFrom(s, 2) == "* x";
  }

  lemma StripOneMarker()
    ensures StripBulletsFrom("* x", 0) == "x"
  {
    var s := "* x";
    assert StripBulletsFrom(s, 3) == "";
    assert StripBulletsFrom(s, 2) == "x";
  }

  /** The remaining steps leave both intermediate texts alone. */
  lemma PlainStepsKeep()
    ensures NormalizeDashesFrom("* x", 0) == "* x" && NormalizeDashesFrom("x", 0) == "x"
    ensures RemoveDoubleStars("* x") == "* x" && RemoveDoubleStars("x") == "x"
    ensures CollapseFrom("* x", 0) == "* x" && CollapseFrom("x", 0) == "x"
    ensures Trim("* x") == "* x" && Trim("x") == "x"
  {
    DashesKeep();
    StarsKeep();
    CollapseKeeps();
    TrimLeavesBoth();
  }

  lemma DashesKeep()
    ensures NormalizeDashesFrom("* x", 0) == "* x" && NormalizeDashesFrom("x", 0) == "x"
  {
    var s := "* x";
    assert NormalizeDashesFrom(s, 3) == "";
    assert NormalizeDashesFrom(s, 2) == "x";
    assert NormalizeDashesFrom(s, 1) == " x";
    assert SpaceRunEnd(s, 0) == 0;
    assert NormalizeDashesFrom("x", 1) == "";
    assert SpaceRunEnd("x", 0) == 0;
  }

  lemma StarsKeep()
    ensures RemoveDoubleStars("* x") == "* x" && RemoveDoubleStars("x") == "x"
  {
    assert RemoveDoubleStars("x") == "x";
    assert RemoveDoubleStars(" x") == " x";
  }

  lemma CollapseKeeps()
    ensures CollapseFrom("* x", 0) == "* x" && CollapseFrom("x", 0) == "x"
  {
    var s := "* x";
    assert CollapseFrom(s, 3) == "";
    assert CollapseFrom(s, 2) == "x";
    assert CollapseFrom(s, 1) == " x";
    assert CollapseFrom("x", 1) == "";
  }

  lemma TrimLeavesBoth()
    ensures Trim("* x") == "* x" && Trim("x") == "x"
  {
    var s := "* x";
    TrimUnchanged(s);
    TrimUnchanged("x");
  }
}
