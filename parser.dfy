/** `parseTestCasesFromText` (Backend/index.js): turns generated plain text into
    test-case records. The text is trimmed and cut into blocks at blank lines;
    each block whose lower-cased text starts with "test case" yields one record,
    whose title comes from the first line and whose steps and expected results
    are collected by a three-state section machine over the remaining lines. */
module Parser {
  import opened Wrappers
  import opened TextUtil

  /** A record as the parser pushes it: these three fields and no others. */
  datatype TestCase = TestCase(title: string, steps: string, expectedResult: string)

  /** `currentSection`: empty before the first header, then the last header seen. */
  datatype Section = NoSection | Preconditions | Steps | Expected

  /** The loop variables `currentSection`, `steps` and `expectedResult`. */
  datatype ScanState = ScanState(section: Section, steps: string, expected: string)

  const Start := ScanState(NoSection, "", "")

  // ---------------------------------------------------------------------------
  // Blocks: `rawText.trim().split(/\n\s*\n/)`

  /** The last `\n` in `s[lo..hi]`. */
  function LastNewline(s: string, lo: nat, hi: nat): (r: Option<nat>)
    requires lo <= hi <= |s|
    ensures r.None? ==> forall j | lo <= j < hi :: s[j] != '\n'
    ensures r.Some? ==> lo <= r.value < hi && s[r.value] == '\n'
    decreases hi - lo
  {
    if hi == lo then None
    else if s[hi - 1] == '\n' then Some(hi - 1)
    else LastNewline(s, lo, hi - 1)
  }

  /** Where `/\n\s*\n/` matched at `i` ends, if it matches there: a line feed,
      then the greedy white-space run after it backed off to its last line feed. */
  function SeparatorEnd(s: string, i: nat): (r: Option<nat>)
    requires i <= |s|
    ensures r.Some? ==> i + 2 <= r.value <= |s| && s[i] == '\n'
  {
    if i < |s| && s[i] == '\n' then
      match LastNewline(s, i + 1, SpaceRunEnd(s, i + 1))
      case Some(m) => Some(m + 1)
      case None => None
    else None
  }

  /** No blank-line separator starts in `s[lo..hi]`. */
  predicate NoSeparatorIn(s: string, lo: nat, hi: nat)
    requires lo <= hi <= |s|
  {
    forall j | lo <= j < hi :: SeparatorEnd(s, j).None?
  }

  /** The split, scanning from `i` with the current block starting at `start`.
      No block that comes out holds a blank-line separator of its own. */
  function SplitBlocksFrom(s: string, start: nat, i: nat): (blocks: seq<string>)
    requires start <= i <= |s|
    requires NoSeparatorIn(s, start, i)
    ensures |blocks| >= 1
    ensures forall k | 0 <= k < |blocks| :: NoSeparatorIn(blocks[k], 0, |blocks[k]|)
    decreases |s| - i
  {
    if i == |s| then
      SeparatorInInfix(s, start, |s|);
      assert s[start..|s|] == s[start..];
      [s[start..]]
    else
      match SeparatorEnd(s, i)
      case Some(e) =>
        SeparatorInInfix(s, start, i);
        [s[start..i]] + SplitBlocksFrom(s, e, e)
      case None => SplitBlocksFrom(s, start, i + 1)
  }

  /** A separator inside the infix `s[lo..hi]` is a separator of `s` too. */
  lemma SeparatorInInfix(s: string, lo: nat, hi: nat)
    requires lo <= hi <= |s|
    requires NoSeparatorIn(s, lo, hi)
    ensures NoSeparatorIn(s[lo..hi], 0, hi - lo)
  {
    var b := s[lo..hi];
    forall j | 0 <= j < |b| ensures SeparatorEnd(b, j).None? {
      if b[j] == '\n' {
        var kb := SpaceRunEnd(b, j + 1);
        var ks := SpaceRunEnd(s, lo + j + 1);
        SpaceRunInInfix(s, lo, hi, j + 1);
        assert SeparatorEnd(s, lo + j).None?;
        assert LastNewline(s, lo + j + 1, ks).None?;
        assert forall t | j + 1 <= t < kb :: b[t] == s[lo + t];
        LastNewlineAbsent(b, j + 1, kb);
      }
    }
  }

  lemma {:induction false} LastNewlineAbsent(s: string, lo: nat, hi: nat)
    requires lo <= hi <= |s|
    requires forall j | lo <= j < hi :: s[j] != '\n'
    ensures LastNewline(s, lo, hi).None?
    decreases hi - lo
  {
    if hi > lo {
      LastNewlineAbsent(s, lo, hi - 1);
    }
  }

  lemma {:induction false} SpaceRunInInfix(s: string, lo: nat, hi: nat, i: nat)
    requires lo <= hi <= |s| && i <= hi - lo
    ensures SpaceRunEnd(s[lo..hi], i) + lo <= SpaceRunEnd(s, lo + i)
    decreases hi - lo - i
  {
    if i < hi - lo && IsSpace(s[lo + i]) {
      SpaceRunInInfix(s, lo, hi, i + 1);
    }
  }

  function SplitBlocks(s: string): (blocks: seq<string>)
    ensures |blocks| >= 1
  {
    SplitBlocksFrom(s, 0, 0)
  }

  /** The blocks with the separators put back between them:
      `blocks[0] + seps[0] + blocks[1] + ... + blocks[n - 1]`. */
  function Rejoin(blocks: seq<string>, seps: seq<string>): string
    requires |seps| + 1 == |blocks|
    decreases |seps|
  {
    if seps == [] then blocks[0] else blocks[0] + seps[0] + Rejoin(blocks[1..], seps[1..])
  }

  /** A whole `\n\s*\n` match: the separator matches at its start and ends at
      its end. */
  predicate IsSeparator(sep: string) {
    SeparatorEnd(sep, 0) == Some(|sep|)
  }

  /** `blocks` with the whole separators `seps` between them make up `t`. */
  predicate Covers(blocks: seq<string>, seps: seq<string>, t: string) {
    |seps| + 1 == |blocks|
    && (forall k | 0 <= k < |seps| :: IsSeparator(seps[k]))
    && Rejoin(blocks, seps) == t
  }

  /** The blocks are the pieces of the text between separator matches, in
      order: putting whole separators back between them gives the text. */
  lemma {:induction false} SplitBlocksFromRejoin(s: string, start: nat, i: nat)
    requires start <= i <= |s|
    requires NoSeparatorIn(s, start, i)
    ensures exists seps: seq<string> :: Covers(SplitBlocksFrom(s, start, i), seps, s[start..])
    decreases |s| - i
  {
    var blocks := SplitBlocksFrom(s, start, i);
    if i == |s| {
      assert Covers(blocks, [], s[start..]);
    } else {
      match SeparatorEnd(s, i)
      case Some(e) =>
        SplitBlocksFromRejoin(s, e, e);
        var rest := SplitBlocksFrom(s, e, e);
        var seps' :| Covers(rest, seps', s[e..]);
        assert blocks == [s[start..i]] + rest;
        CoversCons(s, start, i, e, rest, seps');
      case None =>
        SplitBlocksFromRejoin(s, start, i + 1);
    }
  }

  /** A block and the separator after it go in front of a covering of the
      rest of the text. */
  lemma CoversCons(s: string, start: nat, i: nat, e: nat, rest: seq<string>, seps: seq<string>)
    requires start <= i <= |s| && SeparatorEnd(s, i) == Some(e)
    requires Covers(rest, seps, s[e..])
    ensures Covers([s[start..i]] + rest, [s[i..e]] + seps, s[start..])
  {
    SeparatorAlone(s, i);
    RejoinCons(s[start..i], s[i..e], rest, seps);
    SliceThree(s, start, i, e);
    AllSeparatorsCons(s[i..e], seps);
  }

  lemma SliceThree(s: string, a: nat, b: nat, c: nat)
    requires a <= b <= c <= |s|
    ensures s[a..] == s[a..b] + s[b..c] + s[c..]
  {
  }

  lemma RejoinCons(b: string, sep: string, rest: seq<string>, seps: seq<string>)
    requires |seps| + 1 == |rest|
    ensures Rejoin([b] + rest, [sep] + seps) == b + sep + Rejoin(rest, seps)
  {
    assert ([b] + rest)[1..] == rest && ([sep] + seps)[1..] == seps;
  }

  lemma AllSeparatorsCons(sep: string, seps: seq<string>)
    requires IsSeparator(sep)
    requires forall k | 0 <= k < |seps| :: IsSeparator(seps[k])
    ensures forall k | 0 <= k < |[sep] + seps| :: IsSeparator(([sep] + seps)[k])
  {
  }

  /** A separator matched in the text is a whole separator on its own. */
  lemma SeparatorAlone(s: string, i: nat)
    requires i <= |s| && SeparatorEnd(s, i).Some?
    ensures var e := SeparatorEnd(s, i).value; IsSeparator(s[i..e])
  {
    var e := SeparatorEnd(s, i).value;
    var b := s[i..e];
    var m := LastNewline(s, i + 1, SpaceRunEnd(s, i + 1)).value;
    assert e == m + 1;
    SpaceRunToEnd(b, 1);
    assert b[|b| - 1] == '\n';
  }

  lemma {:induction false} SpaceRunToEnd(b: string, j: nat)
    requires j <= |b|
    requires forall t | j <= t < |b| :: IsSpace(b[t])
    ensures SpaceRunEnd(b, j) == |b|
    decreases |b| - j
  {
    if j < |b| {
      SpaceRunToEnd(b, j + 1);
    }
  }

  /** `split(/\n\s*\n/)` cuts the text at whole separator matches and keeps
      the pieces in order. */
  lemma SplitBlocksRejoin(s: string)
    ensures exists seps: seq<string> :: Covers(SplitBlocks(s), seps, s)
  {
    SplitBlocksFromRejoin(s, 0, 0);
    var seps :| Covers(SplitBlocksFrom(s, 0, 0), seps, s[0..]);
    assert s[0..] == s;
    assert Covers(SplitBlocks(s), seps, s);
  }

  // ---------------------------------------------------------------------------
  // The title: `lines[0].replace(/Test Case \d+:\s*\/, '').trim()`

  /** Where the case-sensitive title pattern matched at `p` ends, if it matches:
      "Test Case", exactly one space, one or more digits, a colon, and all the
      white space after it. */
  function TitleMarkerEnd(s: string, p: nat): (r: Option<nat>)
    requires p <= |s|
    ensures r.Some? ==> p + 12 <= r.value <= |s| && StartsWith(s[p..], "Test Case ")
  {
    if StartsWith(s[p..], "Test Case ") then
      var d := DigitRunEnd(s, p + 10);
      if p + 10 < d < |s| && s[d] == ':' then Some(SpaceRunEnd(s, d + 1)) else None
    else None
  }

  /** The leftmost match at or after `p`, as (start, end). */
  function FindTitleMarker(s: string, p: nat): (r: Option<(nat, nat)>)
    requires p <= |s|
    ensures r.None? <==> forall q | p <= q <= |s| :: TitleMarkerEnd(s, q).None?
    ensures r.Some? ==> p <= r.value.0 && r.value.0 <= r.value.1 <= |s|
    ensures r.Some? ==> TitleMarkerEnd(s, r.value.0) == Some(r.value.1)
    decreases |s| - p
  {
    match TitleMarkerEnd(s, p)
    case Some(e) => Some((p, e))
    case None => if p == |s| then None else FindTitleMarker(s, p + 1)
  }

  /** No match starts between `p` and the one found: it is the leftmost. */
  lemma {:induction false} FindTitleMarkerLeftmost(s: string, p: nat)
    requires p <= |s|
    ensures var r := FindTitleMarker(s, p);
      r.Some? ==> forall q | p <= q < r.value.0 :: TitleMarkerEnd(s, q).None?
    decreases |s| - p
  {
    if TitleMarkerEnd(s, p).None? && p < |s| {
      FindTitleMarkerLeftmost(s, p + 1);
    }
  }

  function TitleOf(firstLine: string): string {
    match FindTitleMarker(firstLine, 0)
    case None => Trim(firstLine)
    case Some((a, e)) => Trim(firstLine[..a] + firstLine[e..])
  }

  // ---------------------------------------------------------------------------
  // The section machine

  /** The header a trimmed line opens, by a lower-cased prefix test. */
  function HeaderOf(line: string): Option<Section> {
    if LowerStartsWith(line, "preconditions:") then Some(Preconditions)
    else if LowerStartsWith(line, "steps:") then Some(Steps)
    else if LowerStartsWith(line, "expected result:") then Some(Expected)
    else None
  }

  /** One iteration of the loop over the lines after the first, given the
      line already trimmed. */
  function Step(st: ScanState, line: string): ScanState {
    match HeaderOf(line)
    case Some(sec) => st.(section := sec)
    case None =>
      if StartsWith(line, "-") then
        if st.section == Steps then st.(steps := st.steps + line + "\n")
        else if st.section == Expected then st.(expected := st.expected + line + "\n")
        else st
      else st
  }

  /** The state after running the loop over the first `n` of the trimmed
      `lines` from `st`. */
  function Run(st: ScanState, lines: seq<string>, n: nat): ScanState
    requires n <= |lines|
    decreases n
  {
    if n == 0 then st else Step(Run(st, lines, n - 1), lines[n - 1])
  }

  /** Every line trimmed, as the loop reads it. */
  function TrimAll(lines: seq<string>): (r: seq<string>)
    ensures |r| == |lines|
  {
    seq(|lines|, k requires 0 <= k < |lines| => Trim(lines[k]))
  }

  /** The record a selected block yields. */
  function BlockRecord(block: string): TestCase {
    var lines := SplitOn(block, '\n');
    var body := TrimAll(lines[1..]);
    var st := Run(Start, body, |body|);
    TestCase(TitleOf(lines[0]), st.steps, st.expected)
  }

  /** `block.toLowerCase().startsWith('test case')`. */
  predicate IsTestCaseBlock(block: string) {
    LowerStartsWith(block, "test case")
  }

  /** The blocks that yield a record, in their order. */
  function SelectedBlocks(blocks: seq<string>): (r: seq<string>)
    ensures |r| <= |blocks|
    ensures forall k | 0 <= k < |r| :: IsTestCaseBlock(r[k]) && r[k] in blocks
    ensures forall k | 0 <= k < |blocks| && IsTestCaseBlock(blocks[k]) :: blocks[k] in r
    decreases |blocks|
  {
    if blocks == [] then []
    else
      var init := blocks[..|blocks| - 1];
      var last := blocks[|blocks| - 1];
      assert blocks == init + [last];
      SelectedBlocks(init) + (if IsTestCaseBlock(last) then [last] else [])
  }

  /** One record per selected block, position by position. */
  function Records(selected: seq<string>): seq<TestCase> {
    seq(|selected|, k requires 0 <= k < |selected| => BlockRecord(selected[k]))
  }

  /** What `parseTestCasesFromText(rawText)` returns. */
  function ParsedCases(rawText: string): seq<TestCase> {
    Records(SelectedBlocks(SplitBlocks(Trim(rawText))))
  }

  /** `parseTestCasesFromText`: the loop over blocks. It returns one record per
      selected block, in block order. */
  method ParseTestCasesFromText(rawText: string) returns (testCases: seq<TestCase>)
    ensures testCases == ParsedCases(rawText)
    ensures |testCases| == |SelectedBlocks(SplitBlocks(Trim(rawText)))|
  {
    var blocks := SplitBlocks(Trim(rawText));
    testCases := [];
    for b := 0 to |blocks|
      invariant testCases == Records(SelectedBlocks(blocks[..b]))
    {
      var block := blocks[b];
      SelectedSnoc(blocks, b);
      if LowerStartsWith(block, "test case") {
        var testCase := ParseBlock(block);
        RecordsSnoc(SelectedBlocks(blocks[..b]), block);
        testCases := testCases + [testCase];
      }
    }
    assert blocks[..|blocks|] == blocks;
  }

  /** `filter` keeps order and multiplicity: selecting from two runs of
      blocks one after the other is selecting from each and concatenating. */
  lemma {:induction false} SelectedBlocksConcat(a: seq<string>, b: seq<string>)
    ensures SelectedBlocks(a + b) == SelectedBlocks(a) + SelectedBlocks(b)
    decreases |b|
  {
    if b == [] {
      assert a + b == a;
    } else {
      var init := b[..|b| - 1];
      var last := b[|b| - 1];
      assert b == init + [last];
      assert a + b == (a + init) + [last];
      assert (a + b)[..|a + b| - 1] == a + init;
      SelectedBlocksConcat(a, init);
    }
  }

  /** A single block is kept exactly when it is a test-case block. */
  lemma SelectedBlocksSingle(x: string)
    ensures SelectedBlocks([x]) == if IsTestCaseBlock(x) then [x] else []
  {
    assert [x][..0] == [];
  }

  lemma SelectedSnoc(blocks: seq<string>, b: nat)
    requires b < |blocks|
    ensures SelectedBlocks(blocks[..b + 1]) ==
      SelectedBlocks(blocks[..b]) + (if IsTestCaseBlock(blocks[b]) then [blocks[b]] else [])
  {
    assert blocks[..b + 1][..b] == blocks[..b];
  }

  lemma RecordsSnoc(selected: seq<string>, block: string)
    ensures Records(selected + [block]) == Records(selected) + [BlockRecord(block)]
  {
  }

  /** The body of the `forEach` callback for a selected block: the title, then
      the section machine over the remaining lines. */
  method ParseBlock(block: string) returns (testCase: TestCase)
    ensures testCase == BlockRecord(block)
  {
    var lines := SplitOn(block, '\n');
    var currentSection := NoSection;
    var steps := "";
    var expectedResult := "";
    for i := 1 to |lines|
      invariant ScanState(currentSection, steps, expectedResult) == Run(Start, TrimAll(lines[1..]), i - 1)
    {
      var line := Trim(lines[i]);
      assert TrimAll(lines[1..])[i - 1] == line;
      if LowerStartsWith(line, "preconditions:") {
        currentSection := Preconditions;
      } else if LowerStartsWith(line, "steps:") {
        currentSection := Steps;
      } else if LowerStartsWith(line, "expected result:") {
        currentSection := Expected;
      } else if StartsWith(line, "-") {
        if currentSection == Steps {
          steps := steps + line + "\n";
        } else if currentSection == Expected {
          expectedResult := expectedResult + line + "\n";
        }
      }
    }
    var title := TitleOf(lines[0]);
    testCase := TestCase(title, steps, expectedResult);
  }

  // ---------------------------------------------------------------------------
  // Properties of the section machine

  /** The run over the first `n` lines sees nothing after them. */
  lemma {:induction false} RunPrefix(st: ScanState, a: seq<string>, b: seq<string>, n: nat)
    requires n <= |a| && n <= |b| && a[..n] == b[..n]
    ensures Run(st, a, n) == Run(st, b, n)
    decreases n
  {
    if n > 0 {
      assert a[n - 1] == a[..n][n - 1] && b[n - 1] == b[..n][n - 1];
      assert a[..n - 1] == a[..n][..n - 1] && b[..n - 1] == b[..n][..n - 1];
      RunPrefix(st, a, b, n - 1);
    }
  }

  /** A line that is not a header and is read outside "Steps:" and "Expected
      Result:" (a precondition, or a dash line before any header), or that is
      neither a header nor a dash line, can be deleted without changing
      anything the block yields. */
  lemma IgnoredLineDeletable(st: ScanState, lines: seq<string>, i: nat)
    requires i < |lines|
    requires HeaderOf(lines[i]).None?
    requires Run(st, lines, i).section !in {Steps, Expected} || !StartsWith(lines[i], "-")
    ensures Run(st, lines[..i] + lines[i + 1..], |lines| - 1) == Run(st, lines, |lines|)
  {
    DeletedAgree(st, lines, i, |lines|);
  }

  lemma {:induction false} DeletedAgree(st: ScanState, lines: seq<string>, i: nat, n: nat)
    requires i < n <= |lines|
    requires HeaderOf(lines[i]).None?
    requires Run(st, lines, i).section !in {Steps, Expected} || !StartsWith(lines[i], "-")
    ensures Run(st, lines[..i] + lines[i + 1..], n - 1) == Run(st, lines, n)
    decreases n
  {
    var d := lines[..i] + lines[i + 1..];
    if n == i + 1 {
      assert d[..i] == lines[..i];
      RunPrefix(st, d, lines, i);
    } else {
      DeletedAgree(st, lines, i, n - 1);
      assert d[n - 2] == lines[n - 1];
    }
  }

  /** The section a line is read in, found by looking back for the last header
      line before it (an independent reading of `currentSection`). */
  function SectionBefore(lines: seq<string>, i: nat): Section
    requires i <= |lines|
    decreases i
  {
    if i == 0 then NoSection
    else match HeaderOf(lines[i - 1])
      case Some(sec) => sec
      case None => SectionBefore(lines, i - 1)
  }

  /** Line `i` is collected into section `sec`: after trimming it is not a
      header, it starts with a dash, and it is read in `sec`. Header tests take
      priority over the dash test. */
  predicate CollectedInto(lines: seq<string>, i: nat, sec: Section)
    requires i < |lines|
  {
    HeaderOf(lines[i]).None? && StartsWith(lines[i], "-") && SectionBefore(lines, i) == sec
  }

  /** The lines among the first `n` that are collected into `sec`, in order. */
  function Collected(lines: seq<string>, n: nat, sec: Section): (r: seq<string>)
    requires n <= |lines|
    ensures forall k | 0 <= k < |r| :: StartsWith(r[k], "-") && r[k] in lines
    decreases n
  {
    if n == 0 then []
    else
      if CollectedInto(lines, n - 1, sec) then
        Collected(lines, n - 1, sec) + [lines[n - 1]]
      else Collected(lines, n - 1, sec)
  }

  /** Each collected line followed by a line feed. */
  function JoinLines(ls: seq<string>): string
    decreases |ls|
  {
    if ls == [] then "" else JoinLines(ls[..|ls| - 1]) + ls[|ls| - 1] + "\n"
  }

  /** The machine agrees with the look-back reading: after any prefix, its
      section is that of the last header, and `steps` and `expectedResult` are
      the collected lines of their sections, each followed by a line feed. */
  lemma {:induction false} RunCollects(lines: seq<string>, n: nat)
    requires n <= |lines|
    ensures Run(Start, lines, n) ==
      ScanState(SectionBefore(lines, n), JoinLines(Collected(lines, n, Steps)), JoinLines(Collected(lines, n, Expected)))
    decreases n
  {
    if n > 0 {
      RunCollects(lines, n - 1);
      JoinLinesSnoc(Collected(lines, n - 1, Steps), lines[n - 1]);
      JoinLinesSnoc(Collected(lines, n - 1, Expected), lines[n - 1]);
    }
  }

  lemma JoinLinesSnoc(ls: seq<string>, line: string)
    ensures JoinLines(ls + [line]) == JoinLines(ls) + line + "\n"
  {
    assert (ls + [line])[..|ls|] == ls;
  }

  /** So a record's steps and expected results are exactly the collected lines. */
  lemma BlockRecordSections(block: string)
    ensures var body := TrimAll(SplitOn(block, '\n')[1..]);
      BlockRecord(block).steps == JoinLines(Collected(body, |body|, Steps)) &&
      BlockRecord(block).expectedResult == JoinLines(Collected(body, |body|, Expected))
  {
    var body := TrimAll(SplitOn(block, '\n')[1..]);
    RunCollects(body, |body|);
  }

  // ---------------------------------------------------------------------------
  // Properties of the whole parse

  /** Empty or white-space-only text yields no records. */
  lemma BlankTextParsesToNothing(rawText: string)
    requires AllSpace(rawText)
    ensures ParsedCases(rawText) == []
  {
    TrimEnds(rawText);
    assert SplitBlocks("") == [""];
    assert SelectedBlocks([""]) == [] by {
      assert [""][..0] == [];
    }
  }

  /** A text in which every line feed is followed by a non-blank character has
      no blank line, so it is one block. */
  lemma {:induction false} NoBlankLineOneBlock(s: string, start: nat, i: nat)
    requires start <= i <= |s|
    requires NoSeparatorIn(s, start, i)
    requires forall j | i <= j < |s| - 1 :: s[j] == '\n' ==> !IsSpace(s[j + 1])
    requires |s| > 0 ==> s[|s| - 1] != '\n'
    ensures SplitBlocksFrom(s, start, i) == [s[start..]]
    decreases |s| - i
  {
    if i < |s| {
      assert SeparatorEnd(s, i).None? by {
        if s[i] == '\n' {
          assert i + 1 < |s| && !IsSpace(s[i + 1]);
          assert SpaceRunEnd(s, i + 1) == i + 1;
        }
      }
      NoBlankLineOneBlock(s, start, i + 1);
    }
  }

  /** Block selection ignores case, so a block opening with an upper-case
      marker is selected ... */
  lemma UpperCaseMarkerSelected(block: string)
    requires StartsWith(block, "TEST CASE")
    ensures IsTestCaseBlock(block)
  {
    assert block[..9] == "TEST CASE";
    forall k | 0 <= k < 9 ensures LowerAscii(block[k]) == "test case"[k] {
      assert block[k] == "TEST CASE"[k];
    }
  }

  /** ... but the title pattern is case-sensitive: a first line with no
      lower-case 'e' (an upper-case "TEST CASE 1:" line, say) is kept whole as
      the title, marker included, only trimmed. */
  lemma UpperCaseMarkerKept(block: string)
    requires 'e' !in SplitOn(block, '\n')[0]
    ensures BlockRecord(block).title == Trim(SplitOn(block, '\n')[0])
  {
    NoTitleMarkerFrom(SplitOn(block, '\n')[0], 0);
  }

  /** A line without a lower-case 'e' has no case-sensitive title marker,
      whatever it holds otherwise. */
  lemma {:induction false} NoTitleMarkerFrom(s: string, p: nat)
    requires p <= |s| && 'e' !in s
    ensures FindTitleMarker(s, p).None?
    decreases |s| - p
  {
    NoTitleMarkerAt(s, p);
    if p < |s| {
      NoTitleMarkerFrom(s, p + 1);
    }
  }

  lemma NoTitleMarkerAt(s: string, p: nat)
    requires p <= |s| && 'e' !in s
    ensures TitleMarkerEnd(s, p).None?
  {
    if p + 10 <= |s| {
      assert s[p + 1] in s;
      assert s[p..][..10][1] == s[p + 1];
    }
  }
}
