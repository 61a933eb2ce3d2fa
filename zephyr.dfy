/** The `/create-zephyr-tests` handler (Backend/index.js): cut the generated text
    at its first case-title marker, parse it into records, create one Jira test
    issue per record, and report which creations succeeded and which failed.
    The Jira REST call is an oracle: given the position of the call in the batch
    and the issue payload, it either returns the new issue's key or an error. */
module Zephyr {
  import opened Wrappers
  import opened TextUtil
  import opened Markers
  import opened Parser
  import opened Adf

  /** `parsableText`: everything from the first case-insensitive marker on, or
      the empty string when the marker matches nowhere. A non-empty result is a
      suffix of the text that opens with a marker, and nothing it dropped holds
      one. */
  function ParsableText(text: string): (r: string)
    ensures r == "" <==> !HasMarker(text)
    ensures r != "" ==> |r| <= |text| && r == text[|text| - |r|..] && MarkerAt(r, 0)
    ensures r != "" ==> forall j: nat | j < |text| - |r| :: !MarkerAt(text, j)
  {
    match Search(text)
    case Some(i) =>
      MarkerAtSuffix(text, i, 0);
      text[i..]
    case None => ""
  }

  /** The project key and the issue type id, read from the environment. */
  datatype JiraConfig = JiraConfig(projectKey: string, issueTypeId: string)

  /** The `fields` of an issue payload. */
  datatype Issue = Issue(projectKey: string, summary: string, issueTypeId: string, description: Doc)

  /** What the Jira issue-creation call returns. */
  datatype JiraReply = Created(key: string) | Rejected(error: string)

  /** One entry of the `errors` list. */
  datatype CreationError = CreationError(title: string, error: string)

  /** The three responses of the handler: 400, 200 and 500. */
  datatype Response =
    | BadRequest(error: string)
    | Success(message: string, issueKeys: seq<string>, errors: seq<CreationError>)
    | ServerError(error: string, errors: seq<CreationError>)

  /** The text of the single paragraph describing a created issue. */
  function IssueBody(testCase: TestCase): string {
    "Steps:\n" + testCase.steps + "\n\nExpected Result:\n" + testCase.expectedResult
  }

  /** `issuePayload` for one record: the title as summary, and a description
      of one paragraph holding one text node with the body. */
  function IssuePayload(cfg: JiraConfig, testCase: TestCase): Issue {
    Issue(cfg.projectKey, testCase.title, cfg.issueTypeId, Doc(Some([Paragraph(Some([Text(IssueBody(testCase))]))])))
  }

  /** Reading a created issue's description back with `extractTextFromAdf`
      gives the body, trimmed. */
  lemma DescriptionReadsBack(cfg: JiraConfig, testCase: TestCase)
    ensures ExtractText(Some(IssuePayload(cfg, testCase).description)) == Trim(IssueBody(testCase))
  {
    SingleParagraph(IssueBody(testCase));
  }

  /** `createdIssues` after the first `n` calls: the keys of the successful
      creations, in call order. */
  function CreatedKeys(cases: seq<TestCase>, cfg: JiraConfig, jira: (nat, Issue) -> JiraReply, n: nat): seq<string>
    requires n <= |cases|
  {
    if n == 0 then []
    else
      match jira(n - 1, IssuePayload(cfg, cases[n - 1]))
      case Created(key) => CreatedKeys(cases, cfg, jira, n - 1) + [key]
      case Rejected(_) => CreatedKeys(cases, cfg, jira, n - 1)
  }

  /** `errors` after the first `n` calls: the title of each failed record with
      its error, in call order. */
  function Failures(cases: seq<TestCase>, cfg: JiraConfig, jira: (nat, Issue) -> JiraReply, n: nat): seq<CreationError>
    requires n <= |cases|
  {
    if n == 0 then []
    else
      match jira(n - 1, IssuePayload(cfg, cases[n - 1]))
      case Created(_) => Failures(cases, cfg, jira, n - 1)
      case Rejected(e) => Failures(cases, cfg, jira, n - 1) + [CreationError(cases[n - 1].title, e)]
  }

  /** Every call lands in exactly one of the two lists. */
  lemma {:induction false} BatchAccounting(cases: seq<TestCase>, cfg: JiraConfig, jira: (nat, Issue) -> JiraReply, n: nat)
    requires n <= |cases|
    ensures |CreatedKeys(cases, cfg, jira, n)| + |Failures(cases, cfg, jira, n)| == n
    decreases n
  {
    if n > 0 {
      BatchAccounting(cases, cfg, jira, n - 1);
    }
  }

  /** The response of the handler for a request body and the Jira oracle. */
  function ZephyrResponse(testCaseText: Option<string>, cfg: JiraConfig, jira: (nat, Issue) -> JiraReply): Response {
    if testCaseText.None? || testCaseText.value == "" then BadRequest("No test case text provided.")
    else
      var cases := ParsedCases(ParsableText(testCaseText.value));
      if |cases| == 0 then BadRequest("Could not parse any test cases.")
      else
        var keys := CreatedKeys(cases, cfg, jira, |cases|);
        var errors := Failures(cases, cfg, jira, |cases|);
        if |keys| > 0 then Success("Successfully created " + NatToDecimal(|keys|) + " test(s).", keys, errors)
        else ServerError("Failed to create any test cases in Jira.", errors)
  }

  /** `/create-zephyr-tests`: the guard, the pre-cut, the parse, the batch
      and the choice of status. */
  method CreateZephyrTests(testCaseText: Option<string>, cfg: JiraConfig, jira: (nat, Issue) -> JiraReply)
    returns (response: Response)
    ensures response == ZephyrResponse(testCaseText, cfg, jira)
  {
    if testCaseText.None? || testCaseText.value == "" {
      return BadRequest("No test case text provided.");
    }
    var text := testCaseText.value;
    var firstTestCaseIndex := Search(text);
    var parsableText := if firstTestCaseIndex.Some? then text[firstTestCaseIndex.value..] else "";
    var parsedTestCases := ParseTestCasesFromText(parsableText);
    if |parsedTestCases| == 0 {
      return BadRequest("Could not parse any test cases.");
    }
    var createdIssues, errors := CreateIssues(parsedTestCases, cfg, jira);
    if |createdIssues| > 0 {
      response := Success("Successfully created " + NatToDecimal(|createdIssues|) + " test(s).", createdIssues, errors);
    } else {
      response := ServerError("Failed to create any test cases in Jira.", errors);
    }
  }

  /** The `for ... of` loop: one Jira call per record, in order, pushing the
      new key or the record's title with the error. */
  method CreateIssues(parsedTestCases: seq<TestCase>, cfg: JiraConfig, jira: (nat, Issue) -> JiraReply)
    returns (createdIssues: seq<string>, errors: seq<CreationError>)
    ensures createdIssues == CreatedKeys(parsedTestCases, cfg, jira, |parsedTestCases|)
    ensures errors == Failures(parsedTestCases, cfg, jira, |parsedTestCases|)
  {
    createdIssues, errors := [], [];
    for k := 0 to |parsedTestCases|
      invariant createdIssues == CreatedKeys(parsedTestCases, cfg, jira, k)
      invariant errors == Failures(parsedTestCases, cfg, jira, k)
    {
      var testCase := parsedTestCases[k];
      var issuePayload := IssuePayload(cfg, testCase);
      match jira(k, issuePayload)
      case Created(key) =>
        createdIssues := createdIssues + [key];
      case Rejected(err) =>
        errors := errors + [CreationError(testCase.title, err)];
    }
  }

  /** A batch that got past parsing reports every record once: the created
      keys and the errors together number the parsed records, and the
      response is a success exactly when at least one issue was created. */
  lemma BatchOutcome(text: string, cfg: JiraConfig, jira: (nat, Issue) -> JiraReply)
    requires text != ""
    requires var r := ZephyrResponse(Some(text), cfg, jira); r.Success? || r.ServerError?
    ensures var r := ZephyrResponse(Some(text), cfg, jira);
      var n := |ParsedCases(ParsableText(text))|;
      (r.Success? ==> |r.issueKeys| > 0 && |r.issueKeys| + |r.errors| == n) &&
      (r.ServerError? ==> |r.errors| == n)
  {
    var cases := ParsedCases(ParsableText(text));
    BatchAccounting(cases, cfg, jira, |cases|);
  }

  /** The parse of the pre-cut text is empty exactly when the text holds no
      marker: the first block starts with the marker, whose lower-cased form
      is "test case", so block selection always keeps it. Hence the second 400
      is answered precisely for texts without a marker. */
  lemma BadRequestIffNoMarker(text: string, cfg: JiraConfig, jira: (nat, Issue) -> JiraReply)
    requires text != ""
    ensures ZephyrResponse(Some(text), cfg, jira).BadRequest? <==> !HasMarker(text)
  {
    var r := ParsableText(text);
    if r == "" {
      TrimEnds(r);
      BlankTextParsesToNothing(r);
    } else {
      MarkerBlockSelected(r);
    }
  }

  /** Text that opens with a marker parses to at least one record. */
  lemma MarkerBlockSelected(r: string)
    requires r != [] && MarkerAt(r, 0)
    ensures |ParsedCases(r)| >= 1
  {
    var d := SpaceRunEnd(r, 9);
    assert !IsSpace(r[d]);
    assert LowerAscii(r[0]) == "test case"[0];
    TrimKeepsFront(r);
    var u := Trim(r);
    assert |u| > d && u == r[..|u|];
    assert LowerMatchesAt(u, 0, "test case") by {
      forall k | 0 <= k < 9 ensures LowerAscii(u[k]) == "test case"[k] {
        assert u[k] == r[k];
      }
    }
    forall j | 0 <= j < 9 ensures SeparatorEnd(u, j).None? {
      assert LowerAscii(u[j]) == "test case"[j];
    }
    FirstBlockLong(u, 0, 9);
    var blocks := SplitBlocks(u);
    assert IsTestCaseBlock(blocks[0]) by {
      forall k | 0 <= k < 9 ensures LowerAscii(blocks[0][k]) == "test case"[k] {
        assert blocks[0][k] == u[k];
      }
    }
    assert blocks[0] in SelectedBlocks(blocks);
  }

  /** Trimming text that opens with a non-white-space character only cuts
      white space off its end. */
  lemma {:induction false} TrimKeepsFront(s: string)
    requires s != [] && !IsSpace(s[0])
    ensures |Trim(s)| <= |s| && Trim(s) == s[..|Trim(s)|]
    ensures forall j | |Trim(s)| <= j < |s| :: IsSpace(s[j])
    decreases |s|
  {
    if IsSpace(s[|s| - 1]) {
      var s' := s[..|s| - 1];
      assert s' != [] && s'[0] == s[0];
      TrimKeepsFront(s');
      assert forall j | 0 <= j < |s'| :: s'[j] == s[j];
    }
  }

  /** With no separator starting before `m`, the first block reaches at least
      to `m`, and is a prefix of the text. */
  lemma {:induction false} FirstBlockLong(s: string, i: nat, m: nat)
    requires i <= m <= |s|
    requires NoSeparatorIn(s, 0, i)
    requires forall j | i <= j < m :: SeparatorEnd(s, j).None?
    ensures var b := SplitBlocksFrom(s, 0, i)[0]; m <= |b| <= |s| && b == s[..|b|]
    decreases |s| - i
  {
    if i < |s| {
      match SeparatorEnd(s, i)
      case Some(e) =>
      case None =>
        FirstBlockLong(s, i + 1, if m > i + 1 then m else i + 1);
    }
  }
}
