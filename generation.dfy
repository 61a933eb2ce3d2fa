/** The `/generate-testcase` handler of Backend/index.js: the exact-match cache
    lookup in the `test_cases` table (whose category list is sorted in place
    first), the prompt, the model call, the clean-up of the answer, and the
    row saved for the next identical request. The table is a `TestCaseStore`
    object; the model is an oracle from prompt to reply. */
module Generation {
  import opened Wrappers
  import opened TextUtil
  import Cleaner
  import Prompt

  /** The order `Array.prototype.sort` uses on strings: lexicographic,
      character by character, a proper prefix first. */
  predicate StrLe(a: string, b: string)
    decreases |a|
  {
    a == [] || (b != [] && (a[0] < b[0] || (a[0] == b[0] && StrLe(a[1..], b[1..]))))
  }

  lemma {:induction false} StrLeTotal(a: string, b: string)
    ensures StrLe(a, b) || StrLe(b, a)
    decreases |a|
  {
    if a != [] && b != [] && a[0] == b[0] {
      StrLeTotal(a[1..], b[1..]);
    }
  }

  lemma {:induction false} StrLeReflexive(a: string)
    ensures StrLe(a, a)
    decreases |a|
  {
    if a != [] {
      StrLeReflexive(a[1..]);
    }
  }

  lemma {:induction false} StrLeAntisymmetric(a: string, b: string)
    requires StrLe(a, b) && StrLe(b, a)
    ensures a == b
    decreases |a|
  {
    if a != [] {
      StrLeAntisymmetric(a[1..], b[1..]);
      assert a == [a[0]] + a[1..];
      assert b == [b[0]] + b[1..];
    }
  }

  lemma {:induction false} StrLeTransitive(a: string, b: string, c: string)
    requires StrLe(a, b) && StrLe(b, c)
    ensures StrLe(a, c)
    decreases |a|
  {
    if a != [] && a[0] == b[0] && b[0] == c[0] {
      StrLeTransitive(a[1..], b[1..], c[1..]);
    }
  }

  /** Every pair in order. */
  predicate Sorted(s: seq<string>) {
    forall i, j | 0 <= i < j < |s| :: StrLe(s[i], s[j])
  }

  /** Every neighbouring pair in order: what a sort by adjacent swaps keeps. */
  predicate NeighboursSorted(s: seq<string>) {
    forall k | 0 < k < |s| :: StrLe(s[k - 1], s[k])
  }

  lemma {:induction false} NeighboursSortedIsSorted(s: seq<string>)
    requires NeighboursSorted(s)
    ensures Sorted(s)
    decreases |s|
  {
    if |s| > 1 {
      var t := s[..|s| - 1];
      assert NeighboursSorted(t) by {
        assert forall k | 0 <= k < |t| :: t[k] == s[k];
      }
      NeighboursSortedIsSorted(t);
      forall i, j | 0 <= i < j < |s|
        ensures StrLe(s[i], s[j])
      {
        if j < |s| - 1 {
          assert s[i] == t[i] && s[j] == t[j];
        } else if i < j - 1 {
          assert StrLe(t[i], t[j - 1]);
          StrLeTransitive(s[i], s[j - 1], s[j]);
        }
      }
    }
  }

  lemma SortedTail(s: seq<string>)
    requires s != [] && Sorted(s)
    ensures Sorted(s[1..])
    ensures forall y | y in s[1..] :: StrLe(s[0], y)
  {
    assert forall i | 0 <= i < |s| - 1 :: s[1..][i] == s[i + 1];
  }

  /** The least element of a sorted sequence comes first. */
  lemma SortedHead(s: seq<string>, y: string)
    requires s != [] && Sorted(s) && y in s
    ensures StrLe(s[0], y)
  {
    StrLeReflexive(s[0]);
    var k :| 0 <= k < |s| && s[k] == y;
    if k > 0 {
      assert StrLe(s[0], s[k]);
    }
  }

  lemma MultisetTail(a: seq<string>, b: seq<string>)
    requires a != [] && b != [] && a[0] == b[0] && multiset(a) == multiset(b)
    ensures multiset(a[1..]) == multiset(b[1..])
  {
    assert a == [a[0]] + a[1..];
    assert b == [b[0]] + b[1..];
    assert multiset(a[1..]) == multiset(a) - multiset{a[0]};
    assert multiset(b[1..]) == multiset(b) - multiset{b[0]};
  }

  /** Two sorted arrangements of the same strings are the same sequence: the
      sorted list depends only on which strings there are. */
  lemma {:induction false} SortedUnique(a: seq<string>, b: seq<string>)
    requires Sorted(a) && Sorted(b) && multiset(a) == multiset(b)
    ensures a == b
    decreases |a|
  {
    assert |b| == |a| by {
      assert |multiset(a)| == |a| && |multiset(b)| == |b|;
    }
    if a != [] {
      assert a[0] in multiset(b) && b[0] in multiset(a);
      SortedHead(a, b[0]);
      SortedHead(b, a[0]);
      StrLeAntisymmetric(a[0], b[0]);
      MultisetTail(a, b);
      SortedTail(a);
      SortedTail(b);
      SortedUnique(a[1..], b[1..]);
      assert a == [a[0]] + a[1..];
      assert b == [b[0]] + b[1..];
    }
  }

  /** `s` with `x` placed before the first element that is not below it. */
  function Insert(x: string, s: seq<string>): (r: seq<string>)
    ensures multiset(r) == multiset(s) + multiset{x}
    ensures forall y | y in r :: y == x || y in s
    ensures Sorted(s) ==> Sorted(r)
  {
    if s == [] then [x]
    else if StrLe(x, s[0]) then
      InsertFrontSorted(x, s);
      [x] + s
    else
      var r := [s[0]] + Insert(x, s[1..]);
      assert s == [s[0]] + s[1..];
      InsertRestSorted(x, s, r);
      r
  }

  lemma InsertFrontSorted(x: string, s: seq<string>)
    requires s != [] && StrLe(x, s[0])
    ensures Sorted(s) ==> Sorted([x] + s)
  {
    if Sorted(s) {
      var r := [x] + s;
      forall i, j | 0 <= i < j < |r|
        ensures StrLe(r[i], r[j])
      {
        if i == 0 && j > 1 {
          StrLeTransitive(x, s[0], s[j - 1]);
        }
      }
    }
  }

  lemma InsertRestSorted(x: string, s: seq<string>, r: seq<string>)
    requires s != [] && !StrLe(x, s[0])
    requires r == [s[0]] + Insert(x, s[1..])
    ensures Sorted(s) ==> Sorted(r)
  {
    if Sorted(s) {
      StrLeTotal(x, s[0]);
      SortedTail(s);
      var tail := Insert(x, s[1..]);
      assert forall y | y in tail :: StrLe(s[0], y);
      ConsSorted(s[0], tail);
    }
  }

  /** A sorted sequence stays sorted with a lower bound of all its elements in
      front. */
  lemma ConsSorted(h: string, t: seq<string>)
    requires Sorted(t) && forall y | y in t :: StrLe(h, y)
    ensures Sorted([h] + t)
  {
    var r := [h] + t;
    forall i, j | 0 <= i < j < |r|
      ensures StrLe(r[i], r[j])
    {
      assert r[j] == t[j - 1];
      if i > 0 {
        assert r[i] == t[i - 1];
      }
    }
  }

  /** The sorted arrangement of a category list, built by insertion. */
  function SortedCategories(s: seq<string>): (r: seq<string>)
    ensures Sorted(r) && multiset(r) == multiset(s)
  {
    if s == [] then []
    else
      assert s == s[..|s| - 1] + [s[|s| - 1]];
      Insert(s[|s| - 1], SortedCategories(s[..|s| - 1]))
  }

  /** The state of one pass: the element being placed sits at `j`; the
      elements before it and those after it up to `i` are in order, and it
      is not above the next one. */
  predicate Sifting(s: seq<string>, i: nat, j: nat) {
    j <= i < |s|
    && NeighboursSorted(s[..j]) && NeighboursSorted(s[j + 1..i + 1])
    && (0 < j < i ==> StrLe(s[j - 1], s[j + 1]))
    && (j < i ==> StrLe(s[j], s[j + 1]))
  }

  /** A swap with a larger left neighbour moves the element one place left
      and keeps the pass state. */
  lemma SiftStep(s: seq<string>, i: nat, j: nat)
    requires Sifting(s, i, j) && 0 < j && !StrLe(s[j - 1], s[j])
    ensures Sifting(s[j - 1 := s[j]][j := s[j - 1]], i, j - 1)
  {
    StrLeTotal(s[j - 1], s[j]);
    var t := s[j - 1 := s[j]][j := s[j - 1]];
    assert t[..j - 1] == s[..j - 1];
    assert NeighboursSorted(t[..j - 1]) by {
      assert forall k | 0 <= k < j - 1 :: t[..j - 1][k] == s[..j][k];
    }
    var u, v := t[j..i + 1], s[j + 1..i + 1];
    forall k | 0 < k < |u|
      ensures StrLe(u[k - 1], u[k])
    {
      if k > 1 {
        assert u[k - 1] == v[k - 2] && u[k] == v[k - 1];
      }
    }
  }

  /** The pass ends where the element meets a neighbour that is not above it,
      or the front: the first `i + 1` elements are then in order. */
  lemma SiftDone(s: seq<string>, i: nat, j: nat)
    requires Sifting(s, i, j) && (j == 0 || StrLe(s[j - 1], s[j]))
    ensures NeighboursSorted(s[..i + 1])
  {
    forall k | 0 < k < i + 1
      ensures StrLe(s[k - 1], s[k])
    {
      if k < j {
        assert s[..j][k - 1] == s[k - 1] && s[..j][k] == s[k];
      } else if k > j + 1 {
        assert s[j + 1..i + 1][k - j - 2] == s[k - 1] && s[j + 1..i + 1][k - j - 1] == s[k];
      }
    }
  }

  /** One pass of the sort: the element at `i` moves left by swaps of
      neighbours until the one before it is not above it. */
  method SwapIntoPlace(a: array<string>, i: nat)
    requires i < a.Length && NeighboursSorted(a[..i])
    modifies a
    ensures NeighboursSorted(a[..i + 1])
    ensures multiset(a[..]) == multiset(old(a[..]))
  {
    var j: nat := i;
    assert a[j + 1..i + 1] == [];
    while j > 0 && !StrLe(a[j - 1], a[j])
      invariant Sifting(a[..], i, j)
      invariant multiset(a[..]) == multiset(old(a[..]))
    {
      SiftStep(a[..], i, j);
      a[j - 1], a[j] := a[j], a[j - 1];
      j := j - 1;
    }
    SiftDone(a[..], i, j);
  }

  /** `dataCategories.sort()`: the array is rearranged in place into sorted
      order, by insertion. */
  method SortInPlace(a: array<string>)
    modifies a
    ensures Sorted(a[..]) && multiset(a[..]) == multiset(old(a[..]))
    ensures a[..] == SortedCategories(old(a[..]))
  {
    var i := 0;
    while i < a.Length
      invariant 0 <= i <= a.Length
      invariant NeighboursSorted(a[..i])
      invariant multiset(a[..]) == multiset(old(a[..]))
    {
      SwapIntoPlace(a, i);
      i := i + 1;
    }
    assert a[..a.Length] == a[..];
    NeighboursSortedIsSorted(a[..]);
    SortedUnique(a[..], SortedCategories(old(a[..])));
  }

  /** The columns `findExactMatch` compares with `.eq`. */
  datatype CacheKey = CacheKey(
    inputText: string, testType: string, complexity: int, testCount: int,
    outputFormat: string, dataCategories: seq<string>)

  /** A row of `test_cases`: the key columns and `generated_output`. */
  datatype Row = Row(key: CacheKey, generatedOutput: string)

  /** Position of the first row whose key columns all equal `key`, or the
      number of rows when there is none. */
  function FirstMatch(rows: seq<Row>, key: CacheKey): (i: nat)
    ensures i <= |rows|
    ensures i < |rows| ==> rows[i].key == key
    ensures forall k | 0 <= k < i :: rows[k].key != key
  {
    if rows == [] then 0
    else if rows[0].key == key then 0
    else 1 + FirstMatch(rows[1..], key)
  }

  /** The query with `.limit(1).single()`: the output of the first matching
      row, if any. */
  function Lookup(rows: seq<Row>, key: CacheKey): Option<string> {
    var i := FirstMatch(rows, key);
    if i < |rows| then Some(rows[i].generatedOutput) else None
  }

  /** A miss means no row has the key; a hit returns the output of a row that
      has it. */
  lemma LookupMeaning(rows: seq<Row>, key: CacheKey)
    ensures Lookup(rows, key).None? <==> forall k | 0 <= k < |rows| :: rows[k].key != key
    ensures Lookup(rows, key).Some? ==>
      exists k | 0 <= k < |rows| :: rows[k].key == key && rows[k].generatedOutput == Lookup(rows, key).value
  {
    var i := FirstMatch(rows, key);
    if i < |rows| {
      assert rows[i].key == key;
    }
  }

  /** Appending a row leaves every earlier answer alone, and turns a miss on
      its own key into a hit on its output. */
  lemma {:induction false} LookupAfterAppend(rows: seq<Row>, row: Row, key: CacheKey)
    ensures Lookup(rows, key).Some? ==> Lookup(rows + [row], key) == Lookup(rows, key)
    ensures Lookup(rows, key).None? && row.key == key ==> Lookup(rows + [row], key) == Some(row.generatedOutput)
    ensures Lookup(rows, key).None? && row.key != key ==> Lookup(rows + [row], key).None?
    decreases |rows|
  {
    if rows != [] {
      assert (rows + [row])[1..] == rows[1..] + [row];
      LookupAfterAppend(rows[1..], row, key);
    }
  }

  /** The answer of the model: its text, which may be missing, or a failure
      of the call. */
  datatype LlmReply = Completion(content: Option<string>) | LlmFailed

  /** What the handler sends back. */
  datatype GenerateResponse =
    | FromCache(outputFormat: string, raw: string)
    | Generated(testType: string, complexity: int, testCount: int, outputFormat: string,
                dataCategories: seq<string>, raw: string)
    | GenerationFailed(error: string)

  /** The stored text for a model answer: `content || ''`, cleaned unless
      the format is Playwright, then trimmed. */
  function FinalText(content: Option<string>, outputFormat: string): string {
    var text := match content case Some(c) => c case None => "";
    Trim(if outputFormat != "playwright" then Cleaner.CleanOutput(text) else text)
  }

  /** The stored text has no white space at either end; outside Playwright
      it is the cleaned answer itself (the second trim changes nothing) and
      carries no `**`. */
  lemma FinalTextShape(content: Option<string>, outputFormat: string)
    ensures var r := FinalText(content, outputFormat);
      r == [] || (!IsSpace(r[0]) && !IsSpace(r[|r| - 1]))
    ensures outputFormat != "playwright" ==>
      var text := match content case Some(c) => c case None => "";
      FinalText(content, outputFormat) == Cleaner.CleanOutput(text) && NoDoubleStar(FinalText(content, outputFormat))
    ensures content.None? ==> FinalText(content, outputFormat) == ""
  {
    var text := match content case Some(c) => c case None => "";
    var pre := if outputFormat != "playwright" then Cleaner.CleanOutput(text) else text;
    TrimEnds(pre);
    if outputFormat != "playwright" {
      var c := Cleaner.CleanOutput(text);
      if c != [] {
        TrimUnchanged(c);
      }
    }
  }

  /** The request after its defaults, with the category list in the order
      the in-place sort leaves it. */
  function Normalized(body: Prompt.Body): Prompt.Request {
    var req := Prompt.WithDefaults(body);
    req.(dataCategories := SortedCategories(req.dataCategories))
  }

  function KeyOf(req: Prompt.Request): CacheKey {
    CacheKey(req.inputText, req.testType, req.complexity, req.testCount, req.outputFormat, req.dataCategories)
  }

  /** The handler as a function of the table, the request body, the stored
      liked examples and knowledge-base documents, the model and whether the
      insert succeeds: the response and the table afterwards. */
  function Generate(rows: seq<Row>, body: Prompt.Body, liked: seq<string>, kbDocs: seq<string>,
                    llm: string -> LlmReply, saved: bool): (GenerateResponse, seq<Row>)
  {
    var req := Normalized(body);
    var key := KeyOf(req);
    match Lookup(rows, key)
    case Some(output) => (FromCache(req.outputFormat, output), rows)
    case None =>
      match llm(Prompt.PromptFor(req, liked, kbDocs))
      case LlmFailed => (GenerationFailed("Failed to generate test case."), rows)
      case Completion(content) =>
        var raw := FinalText(content, req.outputFormat);
        (Generated(req.testType, req.complexity, req.testCount, req.outputFormat, req.dataCategories, raw),
         if saved then rows + [Row(key, raw)] else rows)
  }

  /** A cache hit answers with the stored output and writes nothing; a failed
      model call answers with the error and writes nothing; only a generated
      answer may add a row, and that row holds exactly what was sent back. */
  lemma GenerateOutcomes(rows: seq<Row>, body: Prompt.Body, liked: seq<string>, kbDocs: seq<string>,
                         llm: string -> LlmReply, saved: bool)
    ensures var (resp, rows') := Generate(rows, body, liked, kbDocs, llm, saved);
      && (resp.FromCache? <==> Lookup(rows, KeyOf(Normalized(body))).Some?)
      && (resp.FromCache? ==> Some(resp.raw) == Lookup(rows, KeyOf(Normalized(body))) && rows' == rows)
      && (resp.GenerationFailed? ==> resp.error == "Failed to generate test case." && rows' == rows)
      && (resp.Generated? ==> rows' == rows || rows' == rows + [Row(KeyOf(Normalized(body)), resp.raw)])
      && (resp.Generated? ==>
            Sorted(resp.dataCategories) && multiset(resp.dataCategories) == multiset(Prompt.WithDefaults(body).dataCategories))
  {
  }

  /** Two request bodies that differ at most in the order of their categories
      reach the same cache key. */
  lemma KeyIgnoresCategoryOrder(b1: Prompt.Body, b2: Prompt.Body)
    requires b1.(dataCategories := None) == b2.(dataCategories := None)
    requires multiset(Prompt.WithDefaults(b1).dataCategories) == multiset(Prompt.WithDefaults(b2).dataCategories)
    ensures KeyOf(Normalized(b1)) == KeyOf(Normalized(b2))
  {
    var c1 := Prompt.WithDefaults(b1).dataCategories;
    var c2 := Prompt.WithDefaults(b2).dataCategories;
    SortedUnique(SortedCategories(c1), SortedCategories(c2));
  }

  /** The cache round trip: once a generated answer is saved, asking again
      with the same fields, the categories in any order, is answered from the
      table with the same text, whatever the model would say now. */
  lemma RepeatRequestIsCached(rows: seq<Row>, body: Prompt.Body, liked: seq<string>, kbDocs: seq<string>,
                              llm: string -> LlmReply, body2: Prompt.Body, liked2: seq<string>,
                              kbDocs2: seq<string>, llm2: string -> LlmReply, saved2: bool)
    requires Generate(rows, body, liked, kbDocs, llm, true).0.Generated?
    requires body2.(dataCategories := None) == body.(dataCategories := None)
    requires multiset(Prompt.WithDefaults(body2).dataCategories) == multiset(Prompt.WithDefaults(body).dataCategories)
    ensures var (first, rows') := Generate(rows, body, liked, kbDocs, llm, true);
      Generate(rows', body2, liked2, kbDocs2, llm2, saved2) == (FromCache(first.outputFormat, first.raw), rows')
  {
    var (first, rows') := Generate(rows, body, liked, kbDocs, llm, true);
    var key := KeyOf(Normalized(body));
    KeyIgnoresCategoryOrder(body, body2);
    assert rows' == rows + [Row(key, first.raw)];
    LookupAfterAppend(rows, Row(key, first.raw), key);
  }

  /** The `test_cases` table. */
  class TestCaseStore {
    var rows: seq<Row>

    constructor (rows: seq<Row>)
      ensures this.rows == rows
    {
      this.rows := rows;
    }

    /** `findExactMatch`: sorts the caller's category array in place, then
        queries the table with the sorted list. */
    method FindExactMatch(inputText: string, testType: string, complexity: int, testCount: int,
                          outputFormat: string, dataCategories: array<string>) returns (r: Option<string>)
      modifies dataCategories
      ensures dataCategories[..] == SortedCategories(old(dataCategories[..]))
      ensures r == Lookup(rows, CacheKey(inputText, testType, complexity, testCount, outputFormat, dataCategories[..]))
    {
      SortInPlace(dataCategories);
      r := Lookup(rows, CacheKey(inputText, testType, complexity, testCount, outputFormat, dataCategories[..]));
    }

    /** `saveTestCase`: the insert happens when the database accepts it; a
        refused insert is only logged. */
    method SaveTestCase(row: Row, accepted: bool)
      modifies this
      ensures rows == if accepted then old(rows) + [row] else old(rows)
    {
      if accepted {
        rows := rows + [row];
      }
    }

    /** The `/generate-testcase` handler. The category array is the request
        body's own: the sort inside the cache lookup reorders it, so the
        prompt, the response and the saved row all carry the sorted list. */
    method GenerateTestCase(body: Prompt.Body, liked: seq<string>, kbDocs: seq<string>,
                            llm: string -> LlmReply, saved: bool) returns (resp: GenerateResponse)
      modifies this
      ensures (resp, rows) == Generate(old(rows), body, liked, kbDocs, llm, saved)
    {
      var req := Prompt.WithDefaults(body);
      var n := |req.dataCategories|;
      var dataCategories := new string[n](k requires 0 <= k < n => req.dataCategories[k]);
      assert dataCategories[..] == req.dataCategories;
      var existingMatch := FindExactMatch(req.inputText, req.testType, req.complexity, req.testCount,
                                          req.outputFormat, dataCategories);
      req := req.(dataCategories := dataCategories[..]);
      if existingMatch.Some? {
        return FromCache(req.outputFormat, existingMatch.value);
      }
      var prompt := Prompt.ComposePrompt(req, liked, kbDocs);
      var reply := llm(prompt);
      if reply.LlmFailed? {
        return GenerationFailed("Failed to generate test case.");
      }
      var testCaseRaw := if reply.content.Some? then reply.content.value else "";
      if req.outputFormat != "playwright" {
        testCaseRaw := Cleaner.CleanOutput(testCaseRaw);
      }
      testCaseRaw := Trim(testCaseRaw);
      SaveTestCase(Row(KeyOf(req), testCaseRaw), saved);
      resp := Generated(req.testType, req.complexity, req.testCount, req.outputFormat, req.dataCategories, testCaseRaw);
    }
  }
}
