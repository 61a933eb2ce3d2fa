/** `renderFormattedOutput` and the refinement re-render of Frontend/script.js:
    how a generated answer becomes the children of the output panel. A
    Playwright script is one escaped code case; text without a case title is
    one introduction paragraph; otherwise the text before the first title is
    an introduction and the rest is cut before every further title into
    cases, whose lines become headings, section titles and paragraphs. The
    panel's children are modelled as values, not DOM nodes. */
module Render {
  import opened Wrappers
  import opened TextUtil
  import opened Markers

  /** What an element was given: markup assigned to `innerHTML`, or text
      assigned to `textContent`. */
  datatype Body = Html(markup: string) | Text(text: string)

  /** The children a line of a case contributes to its content container. */
  datatype Element =
    | Heading(text: string)       // h3
    | SectionTitle(text: string)  // p.section-title
    | Para(text: string)          // p

  /** A child of the output panel. The cases carry the feedback and refine
      buttons of `test-case-<id>`; the introduction does not. */
  datatype Fragment =
    | Intro(body: Body)                       // p.intro-text
    | CodeCase(id: nat, code: Body)           // div#test-case-<id> > pre > code
    | Case(id: nat, content: seq<Element>)    // div#test-case-<id> > .test-case-content

  /** `s.replace(/c/g, rep)` for a one-character pattern. */
  function ReplaceChar(s: string, c: char, rep: string): (r: string)
    ensures c !in rep ==> c !in r
    ensures forall d | d in r :: d in s || d in rep
    ensures c !in s ==> r == s
  {
    if s == [] then []
    else (if s[0] == c then rep else [s[0]]) + ReplaceChar(s[1..], c, rep)
  }

  /** The Playwright escaping: `<` then `>` become character references. */
  function EscapeAngles(s: string): (r: string)
    ensures '<' !in r && '>' !in r
  {
    ReplaceChar(ReplaceChar(s, '<', "&lt;"), '>', "&gt;")
  }

  /** Reading escaped markup back as text, for the two references the
      escaping writes: `&lt;` and `&gt;`. */
  function UnescapeAngles(m: string): string {
    if |m| >= 4 && m[..4] == "&lt;" then ['<'] + UnescapeAngles(m[4..])
    else if |m| >= 4 && m[..4] == "&gt;" then ['>'] + UnescapeAngles(m[4..])
    else if m == [] then []
    else [m[0]] + UnescapeAngles(m[1..])
  }

  lemma {:induction false} ReplaceCharAppend(a: string, b: string, c: char, rep: string)
    ensures ReplaceChar(a + b, c, rep) == ReplaceChar(a, c, rep) + ReplaceChar(b, c, rep)
    decreases |a|
  {
    if a == [] {
      assert a + b == b;
    } else {
      assert (a + b)[1..] == a[1..] + b;
      ReplaceCharAppend(a[1..], b, c, rep);
    }
  }

  /** Escaping works character by character. */
  lemma EscapeStep(s: string)
    requires s != []
    ensures EscapeAngles(s) == EscapeAngles([s[0]]) + EscapeAngles(s[1..])
  {
    assert s == [s[0]] + s[1..];
    ReplaceCharAppend([s[0]], s[1..], '<', "&lt;");
    ReplaceCharAppend(ReplaceChar([s[0]], '<', "&lt;"), ReplaceChar(s[1..], '<', "&lt;"), '>', "&gt;");
  }

  lemma EscapeOne(c: char)
    ensures EscapeAngles([c]) == if c == '<' then "&lt;" else if c == '>' then "&gt;" else [c]
  {
    assert [c][1..] == [];
    if c == '<' {
      assert ReplaceChar([c], '<', "&lt;") == "&lt;";
      assert "&lt;"[1..] == "lt;";
    }
  }

  lemma UnescapeFront(e: string, rest: string, c: char)
    requires e == "&lt;" || e == "&gt;" || (e == [c] && c != '&')
    ensures UnescapeAngles(e + rest)
      == (if e == "&lt;" then ['<'] else if e == "&gt;" then ['>'] else [c]) + UnescapeAngles(rest)
  {
    var m := e + rest;
    if e == "&lt;" || e == "&gt;" {
      assert m[..4] == e && m[4..] == rest;
    } else {
      assert m[0] == c && m[1..] == rest;
    }
  }

  /** The escaped code reads back as the code itself when it holds no `&`
      (an `&` already in the code could start a reference of its own). */
  lemma {:induction false} EscapeRoundTrip(s: string)
    requires '&' !in s
    ensures UnescapeAngles(EscapeAngles(s)) == s
    decreases |s|
  {
    if s != [] {
      EscapeStep(s);
      EscapeOne(s[0]);
      assert '&' !in s[1..];
      EscapeRoundTrip(s[1..]);
      UnescapeFront(EscapeAngles([s[0]]), EscapeAngles(s[1..]), s[0]);
      assert s == [s[0]] + s[1..];
    }
  }

  /** `^[-•*+]\s*`: a list marker and the white space after it. */
  predicate IsListMark(c: char) {
    c == '-' || c == '•' || c == '*' || c == '+'
  }

  /** `.replace(/^[-•*+]\s*\/, '')`. */
  function StripListMark(s: string): (r: string)
    ensures s == [] || !IsListMark(s[0]) ==> r == s
    ensures s != [] && IsListMark(s[0]) ==> r == s[SpaceRunEnd(s, 1)..] && (r == [] || !IsSpace(r[0]))
  {
    if s != [] && IsListMark(s[0]) then s[SpaceRunEnd(s, 1)..] else s
  }

  /** `/^(Preconditions|Steps|Expected Result):/i`: the length of the label
      and colon the line opens with, tried in that order. */
  function SectionLabelLength(line: string): (r: Option<nat>)
    ensures r.Some? ==> 0 < r.value <= |line| && line[r.value - 1] == ':'
  {
    if LowerStartsWith(line, "preconditions:") then Some(14)
    else if LowerStartsWith(line, "steps:") then Some(6)
    else if LowerStartsWith(line, "expected result:") then Some(16)
    else None
  }

  /** The children of one line: a line holding a case title anywhere is a
      heading without `**`; else a line opening with a section label is that
      label as written, then the rest of the line, trimmed and without a list
      mark, when there is any; else the line without its list mark and
      without `**`. */
  function LineElements(line: string): seq<Element> {
    if HasMarker(line) then [Heading(RemoveDoubleStars(line))]
    else match SectionLabelLength(line)
      case Some(n) =>
        var content := StripListMark(Trim(line[n..]));
        [SectionTitle(line[..n])] + (if content != "" then [Para(content)] else [])
      case None => [Para(RemoveDoubleStars(StripListMark(line)))]
  }

  /** How a line is classified: a heading exactly when it holds a case title
      anywhere; else a section title exactly when it opens with a section
      label, which is then the line's own prefix up to and including the
      colon, followed by at most one paragraph that is trimmed and not empty;
      else one paragraph. Headings and plain paragraphs hold no `**`. */
  lemma LineKinds(line: string)
    ensures var es := LineElements(line);
      1 <= |es| <= 2
      && (es[0].Heading? <==> HasMarker(line))
      && (es[0].SectionTitle? <==> !HasMarker(line) && SectionLabelLength(line).Some?)
      && (es[0].SectionTitle? ==>
            var title := es[0].text;
            title != "" && StartsWith(line, title) && title[|title| - 1] == ':')
      && (|es| == 2 ==> es[0].SectionTitle? && es[1].Para? && es[1].text != "" && Trim(es[1].text) == es[1].text)
      && (es[0].Heading? || es[0].Para? ==> |es| == 1 && NoDoubleStar(es[0].text))
  {
    if !HasMarker(line) && SectionLabelLength(line).Some? {
      var n := SectionLabelLength(line).value;
      var rest := Trim(line[n..]);
      var content := StripListMark(rest);
      TrimEnds(line[n..]);
      if content != "" {
        assert content == rest[|rest| - |content|..];
        assert content[|content| - 1] == rest[|rest| - 1];
        TrimUnchanged(content);
      }
    }
  }

  /** `.filter(line => line.trim() !== '')`. */
  function NonBlank(lines: seq<string>): seq<string> {
    if lines == [] then []
    else if Trim(lines[0]) == "" then NonBlank(lines[1..])
    else [lines[0]] + NonBlank(lines[1..])
  }

  /** The lines of a block: trimmed, cut at line breaks, blank lines dropped. */
  function BlockLines(block: string): seq<string> {
    NonBlank(SplitOn(Trim(block), '\n'))
  }

  /** The kept lines are lines of the input that are not blank, and every
      line that is not blank is kept. */
  lemma {:induction false} NonBlankMembers(lines: seq<string>)
    ensures forall l | l in NonBlank(lines) :: l in lines && Trim(l) != ""
    ensures forall l | l in lines && Trim(l) != "" :: l in NonBlank(lines)
    decreases |lines|
  {
    if lines != [] {
      NonBlankMembers(lines[1..]);
      assert lines == [lines[0]] + lines[1..];
    }
  }

  /** The lines of a block are not blank and hold no line break. */
  lemma BlockLinesShape(block: string)
    ensures forall l | l in BlockLines(block) :: Trim(l) != "" && '\n' !in l
  {
    var pieces := SplitOn(Trim(block), '\n');
    NonBlankMembers(pieces);
    forall l | l in BlockLines(block) ensures '\n' !in l {
      var k :| 0 <= k < |pieces| && pieces[k] == l;
    }
  }

  /** The children of the first `n` lines, in order. */
  function ElementsOf(lines: seq<string>, n: nat): seq<Element>
    requires n <= |lines|
  {
    if n == 0 then [] else ElementsOf(lines, n - 1) + LineElements(lines[n - 1])
  }

  /** The content container of a case built from `block`. */
  function CaseContent(block: string): seq<Element> {
    var lines := BlockLines(block);
    ElementsOf(lines, |lines|)
  }

  /** `t.split(/(?=Test Case\s+\d+[:]?)/i)`: cut before every title except
      one at the very start (a split never yields an empty first piece at a
      zero-width match in position 0). */
  function Blocks(t: string): (r: seq<string>)
    ensures |r| >= 1
    decreases |t|
  {
    if t == [] then [t]
    else match SearchFrom(t, 1)
      case None => [t]
      case Some(q) => [t[..q]] + Blocks(t[q..])
  }

  /** Concatenation of the pieces. */
  function Concat(parts: seq<string>): string {
    if parts == [] then "" else parts[0] + Concat(parts[1..])
  }

  lemma SplitAt(t: string, q: nat)
    requires q <= |t|
    ensures t[..q] + t[q..] == t
  {
  }

  /** The pieces put back together give the text, and none is empty when
      the text is not. */
  lemma {:induction false} BlocksConcat(t: string)
    ensures Concat(Blocks(t)) == t
    ensures t != [] ==> forall k | 0 <= k < |Blocks(t)| :: Blocks(t)[k] != []
    decreases |t|
  {
    if t != [] {
      match SearchFrom(t, 1)
      case None =>
      case Some(q) =>
        var bs, rest := Blocks(t), Blocks(t[q..]);
        BlocksConcat(t[q..]);
        assert bs == [t[..q]] + rest;
        assert bs[0] == t[..q] && bs[1..] == rest;
        SplitAt(t, q);
        assert Concat(bs) == bs[0] + Concat(bs[1..]);
        assert forall k | 1 <= k < |bs| :: bs[k] == rest[k - 1];
    }
  }

  /** Every piece but the first opens with a title, and no piece holds a
      title anywhere but at its start. */
  lemma {:induction false} BlocksOneTitleEach(t: string)
    ensures forall k | 1 <= k < |Blocks(t)| :: MarkerAt(Blocks(t)[k], 0)
    ensures forall k, j: nat | 0 <= k < |Blocks(t)| && 1 <= j < |Blocks(t)[k]| :: !MarkerAt(Blocks(t)[k], j)
    decreases |t|
  {
    if t != [] {
      match SearchFrom(t, 1)
      case None =>
      case Some(q) =>
        var bs, rest := Blocks(t), Blocks(t[q..]);
        BlocksOneTitleEach(t[q..]);
        assert bs == [t[..q]] + rest && bs[1..] == rest;
        forall j: nat | 1 <= j < q
          ensures !MarkerAt(t[..q], j)
        {
          if MarkerAt(t[..q], j) {
            MarkerAtPrefix(t, q, j);
          }
        }
        MarkerAtSuffix(t, q, 0);
        FirstBlockStartsWith(t[q..]);
    }
  }

  /** The first piece of a text that opens with a title opens with it. */
  lemma FirstBlockStartsWith(t: string)
    requires t != [] && MarkerAt(t, 0)
    ensures MarkerAt(Blocks(t)[0], 0)
  {
    match SearchFrom(t, 1)
    case None =>
    case Some(q) =>
      if q <= SpaceRunEnd(t, 9) {
        NoMarkerInside(t, 0, q);
      }
      MarkerAtTruncate(t, q, 0);
  }

  /** The cases built from the first `n` blocks: every block that is not
      blank becomes a case numbered by its position, with the content
      `content` gives it (`CaseContent` in the application; the shape of the
      case list does not depend on it). */
  function CasesOf(blocks: seq<string>, n: nat, content: string -> seq<Element>): seq<Fragment>
    requires n <= |blocks|
  {
    if n == 0 then []
    else
      var block := blocks[n - 1];
      CasesOf(blocks, n - 1, content) + (if Trim(block) == "" then [] else [Case(n - 1, content(block))])
  }

  lemma CasesOfStep(blocks: seq<string>, i: nat, content: string -> seq<Element>)
    requires i < |blocks|
    ensures CasesOf(blocks, i + 1, content)
      == CasesOf(blocks, i, content) + if Trim(blocks[i]) == "" then [] else [Case(i, content(blocks[i]))]
  {
  }

  /** The cases of the first `n` blocks: each is a case of a block that is
      not blank, with its position as id and that block's content, and every
      such block has its case. */
  lemma {:induction false} CasesOfMembers(blocks: seq<string>, n: nat, content: string -> seq<Element>)
    requires n <= |blocks|
    ensures forall f | f in CasesOf(blocks, n, content) ::
      f.Case? && f.id < n && Trim(blocks[f.id]) != "" && f.content == content(blocks[f.id])
    ensures forall k | 0 <= k < n && Trim(blocks[k]) != "" :: Case(k, content(blocks[k])) in CasesOf(blocks, n, content)
    decreases n
  {
    if n > 0 {
      CasesOfMembers(blocks, n - 1, content);
      var before, cs := CasesOf(blocks, n - 1, content), CasesOf(blocks, n, content);
      var block := blocks[n - 1];
      var last := Case(n - 1, content(block));
      if Trim(block) != "" {
        assert cs == before + [last];
        forall k | 0 <= k < n && Trim(blocks[k]) != "" ensures Case(k, content(blocks[k])) in cs {
          if k == n - 1 {
            assert cs[|before|] == last;
          } else {
            assert Case(k, content(blocks[k])) in before;
          }
        }
      } else {
        assert cs == before;
      }
    }
  }

  /** The ids of the cases rise strictly, in block order. */
  lemma {:induction false} CasesOfIncreasing(blocks: seq<string>, n: nat, content: string -> seq<Element>)
    requires n <= |blocks|
    ensures forall f | f in CasesOf(blocks, n, content) :: f.Case?
    ensures forall a, b | 0 <= a < b < |CasesOf(blocks, n, content)| :: CasesOf(blocks, n, content)[a].id < CasesOf(blocks, n, content)[b].id
    decreases n
  {
    if n > 0 {
      CasesOfIncreasing(blocks, n - 1, content);
      CasesOfMembers(blocks, n - 1, content);
      var before := CasesOf(blocks, n - 1, content);
      var cs := CasesOf(blocks, n, content);
      var block := blocks[n - 1];
      if Trim(block) != "" {
        assert cs == before + [Case(n - 1, content(block))];
        forall a, b | 0 <= a < b < |cs| ensures cs[a].id < cs[b].id {
          assert cs[a] == before[a] && cs[a] in before;
          if b < |before| {
            assert cs[b] == before[b];
          }
        }
      } else {
        assert cs == before;
      }
    }
  }

  /** The introduction's markup: every `*` removed, line breaks as `<br>`. */
  function IntroMarkup(intro: string): string {
    ReplaceChar(ReplaceChar(intro, '*', ""), '\n', "<br>")
  }

  /** The panel after `renderFormattedOutput(rawText, format)`. */
  function Rendered(rawText: string, format: string): seq<Fragment> {
    if format == "playwright" then [CodeCase(0, Html(EscapeAngles(rawText)))]
    else match Search(rawText)
      case None => [Intro(Text(rawText))]
      case Some(i) =>
        var introText := Trim(rawText[..i]);
        var testCasesText := Trim(rawText[i..]);
        (if introText != "" then [Intro(Html(IntroMarkup(introText)))] else [])
        + (if testCasesText != "" then
             var blocks := Blocks(testCasesText);
             CasesOf(blocks, |blocks|, CaseContent)
           else [])
  }

  /** The index of the first case with the given id: `getElementById`. */
  function FindCase(view: seq<Fragment>, id: nat): (r: Option<nat>)
    ensures r.Some? ==> r.value < |view| && !view[r.value].Intro? && view[r.value].id == id
    ensures r.Some? ==> forall k | 0 <= k < r.value :: view[k].Intro? || view[k].id != id
    ensures r.None? ==> forall k | 0 <= k < |view| :: view[k].Intro? || view[k].id != id
  {
    if view == [] then None
    else if !view[0].Intro? && view[0].id == id then Some(0)
    else match FindCase(view[1..], id)
      case None => None
      case Some(k) => Some(k + 1)
  }

  /** The panel after the refined text for case `id` arrives: a code case
      gets the text as it is; a text case gets new content built as in the
      first render; without such a case nothing changes. */
  function Refined(view: seq<Fragment>, id: nat, refined: string): seq<Fragment> {
    match FindCase(view, id)
    case None => view
    case Some(k) =>
      view[k := if view[k].CodeCase? then CodeCase(id, Text(refined)) else Case(id, CaseContent(refined))]
  }

  /** A Playwright answer is one code case numbered 0 whose markup holds no
      angle bracket and reads back as the answer when the answer holds no
      `&`. */
  lemma PlaywrightView(rawText: string)
    ensures |Rendered(rawText, "playwright")| == 1
    ensures var f := Rendered(rawText, "playwright")[0];
      f.CodeCase? && f.id == 0 && f.code.Html?
      && '<' !in f.code.markup && '>' !in f.code.markup
      && ('&' !in rawText ==> UnescapeAngles(f.code.markup) == rawText)
  {
    if '&' !in rawText {
      EscapeRoundTrip(rawText);
    }
  }

  /** Outside Playwright, the answer is shown as one plain introduction
      exactly when it holds no case title. */
  lemma MarkerlessView(rawText: string, format: string)
    requires format != "playwright"
    ensures Rendered(rawText, format) == [Intro(Text(rawText))] <==> !HasMarker(rawText)
  {
    if HasMarker(rawText) {
      var i := Search(rawText).value;
      var blocks := Blocks(Trim(rawText[i..]));
      var v := Rendered(rawText, format);
      TextViewShape(rawText, format);
      var introCount := if Trim(rawText[..i]) != "" then 1 else 0;
      IntroThenCases(v, introCount, blocks);
      assert v != [] ==> v[0].Case? || v[0].body.Html?;
    }
  }

  /** In a panel made of introductions followed by the cases of some blocks,
      everything after the introductions is a case. */
  lemma IntroThenCases(view: seq<Fragment>, introCount: nat, blocks: seq<string>)
    requires introCount <= |view| && view[introCount..] == CasesOf(blocks, |blocks|, CaseContent)
    ensures forall k | introCount <= k < |view| :: view[k].Case?
  {
    CasesOfIncreasing(blocks, |blocks|, CaseContent);
    forall k | introCount <= k < |view| ensures view[k].Case? {
      assert view[k] == view[introCount..][k - introCount];
    }
  }

  /** The characters of the introduction's markup. */
  lemma IntroMarkupNoStar(intro: string)
    ensures '*' !in IntroMarkup(intro)
  {
    var once := ReplaceChar(intro, '*', "");
    assert '*' !in once;
    assert forall d | d in IntroMarkup(intro) :: d in once || d in "<br>";
  }

  /** A title starts a case: the text from it onwards is not blank. */
  lemma MarkerNotBlank(s: string, i: nat)
    requires i < |s| && MarkerAt(s, i)
    ensures Trim(s[i..]) != ""
  {
    TrimEnds(s[i..]);
    assert LowerAscii(s[i + 0]) == "test case"[0] == 't';
    assert !IsSpace(s[i..][0]);
  }

  /** Outside Playwright, an answer with a case title shows an introduction
      first exactly when the trimmed text before the first title is not
      empty, and that introduction has no `*`; everything after it is the
      cases of the blocks cut from the rest of the answer, which is not blank
      (`CasesOfMembers` and `CasesOfIncreasing` say what those cases are). */
  lemma TextViewShape(rawText: string, format: string)
    requires format != "playwright" && HasMarker(rawText)
    ensures var i := Search(rawText).value;
      var v := Rendered(rawText, format);
      var blocks := Blocks(Trim(rawText[i..]));
      var introCount := if Trim(rawText[..i]) != "" then 1 else 0;
      Trim(rawText[i..]) != ""
      && introCount <= |v|
      && (introCount == 1 ==> v[0] == Intro(Html(IntroMarkup(Trim(rawText[..i])))) && '*' !in v[0].body.markup)
      && v[introCount..] == CasesOf(blocks, |blocks|, CaseContent)
  {
    var i := Search(rawText).value;
    MarkerNotBlank(rawText, i);
    IntroMarkupNoStar(Trim(rawText[..i]));
  }

  /** Only the introduction, when there is one, is not a case. */
  lemma TextViewIntroFirst(rawText: string, format: string)
    requires format != "playwright" && HasMarker(rawText)
    ensures var v := Rendered(rawText, format);
      forall k | 0 <= k < |v| :: v[k].Intro? <==> k == 0 && Trim(rawText[..Search(rawText).value]) != ""
  {
    var i := Search(rawText).value;
    var blocks := Blocks(Trim(rawText[i..]));
    TextViewShape(rawText, format);
    var introCount := if Trim(rawText[..i]) != "" then 1 else 0;
    IntroThenCases(Rendered(rawText, format), introCount, blocks);
  }

  /** `FindCase` is the first case with the id. */
  lemma {:induction false} FindCaseFirst(view: seq<Fragment>, id: nat, k: nat)
    requires k < |view| && !view[k].Intro? && view[k].id == id
    requires forall j | 0 <= j < k :: view[j].Intro? || view[j].id != id
    ensures FindCase(view, id) == Some(k)
    decreases k
  {
    if k > 0 {
      FindCaseFirst(view[1..], id, k - 1);
    }
  }

  /** A refinement touches only the first case with the id: the panel keeps
      its length and every other child, the case keeps its id and its kind, a
      code case shows the refined text as it is and a text case gets the
      content built from it; without such a case nothing changes. Refining
      twice with the same text is refining once. */
  lemma RefineOnlyTarget(view: seq<Fragment>, id: nat, refined: string)
    ensures var v := Refined(view, id, refined);
      |v| == |view|
      && (FindCase(view, id).None? ==> v == view)
      && (FindCase(view, id).Some? ==>
            var k := FindCase(view, id).value;
            (forall j | 0 <= j < |view| && j != k :: v[j] == view[j])
            && v[k].id == id && (v[k].CodeCase? <==> view[k].CodeCase?)
            && (v[k].CodeCase? ==> v[k].code == Text(refined))
            && (v[k].Case? ==> v[k].content == CaseContent(refined)))
    ensures Refined(Refined(view, id, refined), id, refined) == Refined(view, id, refined)
  {
    match FindCase(view, id)
    case None =>
    case Some(k) =>
      var v := Refined(view, id, refined);
      FindCaseFirst(v, id, k);
  }

  /** Refining a rendered case with the very block it was built from changes
      nothing. */
  lemma RefineWithOwnBlock(rawText: string, format: string, id: nat)
    requires format != "playwright" && HasMarker(rawText)
    requires id < |Blocks(Trim(rawText[Search(rawText).value..]))|
    ensures var blocks := Blocks(Trim(rawText[Search(rawText).value..]));
      Refined(Rendered(rawText, format), id, blocks[id]) == Rendered(rawText, format)
  {
    var i := Search(rawText).value;
    var blocks := Blocks(Trim(rawText[i..]));
    TextViewShape(rawText, format);
    var introCount := if Trim(rawText[..i]) != "" then 1 else 0;
    RefineCasesWithOwnBlock(Rendered(rawText, format), introCount, blocks, id);
  }

  /** The same, for any panel made of introductions followed by the cases of
      some blocks. */
  lemma RefineCasesWithOwnBlock(view: seq<Fragment>, introCount: nat, blocks: seq<string>, id: nat)
    requires introCount <= |view| && forall j | 0 <= j < introCount :: view[j].Intro?
    requires view[introCount..] == CasesOf(blocks, |blocks|, CaseContent)
    requires id < |blocks|
    ensures Refined(view, id, blocks[id]) == view
  {
    var cs := CasesOf(blocks, |blocks|, CaseContent);
    CasesOfMembers(blocks, |blocks|, CaseContent);
    forall f | f in view && !f.Intro? && f.id == id
      ensures f.Case? && f.content == CaseContent(blocks[id])
    {
      var k :| 0 <= k < |view| && view[k] == f;
      assert f in cs by { assert f == view[introCount..][k - introCount]; }
    }
    RefineWithOwnContent(view, id, blocks[id]);
  }

  /** A refinement that gives the case the content it already has changes
      nothing. */
  lemma RefineWithOwnContent(view: seq<Fragment>, id: nat, refined: string)
    requires forall f | f in view && !f.Intro? && f.id == id :: f.Case? && f.content == CaseContent(refined)
    ensures Refined(view, id, refined) == view
  {
    match FindCase(view, id)
    case None =>
    case Some(k) =>
      assert view[k] in view;
  }

  /** Refining the Playwright case replaces its markup by the refined text;
      refining any other id changes nothing. */
  lemma RefinePlaywright(rawText: string, id: nat, refined: string)
    ensures Refined(Rendered(rawText, "playwright"), id, refined)
      == if id == 0 then [CodeCase(0, Text(refined))] else Rendered(rawText, "playwright")
  {
  }

  /** The output panel (`#finalOutput`) and its children. */
  class OutputPanel {
    var children: seq<Fragment>

    constructor ()
      ensures children == []
    {
      children := [];
    }

    /** The `lines.forEach` of one case: each line appends its heading,
        section title and content, or paragraph. */
    static method BuildContent(block: string) returns (content: seq<Element>)
      ensures content == CaseContent(block)
    {
      var lines := BlockLines(block);
      content := [];
      for i := 0 to |lines|
        invariant content == ElementsOf(lines, i)
      {
        var line := lines[i];
        var titleMatch := SectionLabelLength(line);
        if HasMarker(line) {
          content := content + [Heading(RemoveDoubleStars(line))];
        } else if titleMatch.Some? {
          var title := line[..titleMatch.value];
          var text := StripListMark(Trim(line[titleMatch.value..]));
          content := content + [SectionTitle(title)];
          if text != "" {
            content := content + [Para(text)];
          }
        } else {
          content := content + [Para(RemoveDoubleStars(StripListMark(line)))];
        }
        assert content == ElementsOf(lines, i) + LineElements(line);
      }
    }

    /** `renderFormattedOutput(rawText, format)`: the panel is emptied and the
        children are appended one by one. */
    method RenderFormattedOutput(rawText: string, format: string)
      modifies this
      ensures children == Rendered(rawText, format)
    {
      children := [];
      if format == "playwright" {
        children := children + [CodeCase(0, Html(EscapeAngles(rawText)))];
        return;
      }
      var firstTestCaseIndex := Search(rawText);
      if firstTestCaseIndex.None? {
        children := children + [Intro(Text(rawText))];
        return;
      }
      var introText := Trim(rawText[..firstTestCaseIndex.value]);
      var testCasesText := Trim(rawText[firstTestCaseIndex.value..]);
      if introText != "" {
        children := children + [Intro(Html(IntroMarkup(introText)))];
      }
      if testCasesText != "" {
        var cases := BuildCases(Blocks(testCasesText));
        children := children + cases;
      }
    }

    /** The `testCaseBlocks.forEach` of the render: a case per block that is
        not blank, numbered by the block's position. */
    static method BuildCases(testCaseBlocks: seq<string>) returns (cases: seq<Fragment>)
      ensures cases == CasesOf(testCaseBlocks, |testCaseBlocks|, CaseContent)
    {
      cases := [];
      for index := 0 to |testCaseBlocks|
        invariant cases == CasesOf(testCaseBlocks, index, CaseContent)
      {
        var block := testCaseBlocks[index];
        CasesOfStep(testCaseBlocks, index, CaseContent);
        if Trim(block) != "" {
          var content := BuildContent(block);
          cases := cases + [Case(index, content)];
        }
      }
    }

    /** The refinement's re-render of case `id` with the refined text. */
    method ApplyRefinement(id: nat, refined: string)
      modifies this
      ensures children == Refined(old(children), id, refined)
    {
      var found := FindCase(children, id);
      if found.Some? {
        var k := found.value;
        if children[k].CodeCase? {
          children := children[k := CodeCase(id, Text(refined))];
        } else {
          var content := BuildContent(refined);
          children := children[k := Case(id, content)];
        }
      }
    }
  }
}
