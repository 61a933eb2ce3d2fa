/** The prompt composer of `/generate-testcase` (Backend/index.js): the count
    and complexity tables, the scenario sentence chosen by test type, and the
    optional knowledge-base, liked-example, application-context and
    data-variation blocks, joined in a fixed order. The liked examples and the
    knowledge-base documents come from the database; here they are inputs. */
module Prompt {
  import opened Wrappers
  import opened TextUtil

  // The fixed pieces of the prompt around the request's own text.
  const HeaderOpening := "You are an expert QA engineer. Generate "
  const LikedOpening := "Based on these user-liked examples, generate test cases in a similar style and quality:\n\n--- LIKED EXAMPLE 1 ---\n"
  const LikedSecondFence := "--- LIKED EXAMPLE 2 ---\n"
  const KnowledgeBaseOpening := "Use the following permanent knowledge base as the primary source of truth for context, standards, and requirements:\n\n--- KNOWLEDGE BASE ---\n"
  const KnowledgeBaseClosing := "\n\n--- END KNOWLEDGE BASE ---\n\n"
  const DataVariationOpening := "Additionally, ensure the generated test cases specifically cover the following data scenarios: "
  const ContextOpening := "Use the following application context.\n\n--- APP DOCS ---\n"
  const ContextCodeFence := "\n\n--- APP CODE ---\n"

  /** `getTestCaseRange(level)`: the count tier. */
  function TestCaseRange(level: int): string {
    if level == 1 then "1–5" else if level == 2 then "5–20" else "20+"
  }

  /** `getComplexityDescription(level)`: the length tier. */
  function ComplexityDescription(level: int): string {
    if level == 1 then "short and simple (1–5 steps)"
    else if level == 2 then "moderate in length (5–20 steps)"
    else "detailed and complex (20+ steps)"
  }

  /** The two tables agree tier by tier: the length description names the
      same count range as the count table, and every level other than 1 and 2
      falls into the tier of level 3. */
  lemma TiersAgree(level: int)
    ensures Contains(ComplexityDescription(level), TestCaseRange(level))
    ensures level != 1 && level != 2 ==>
      TestCaseRange(level) == TestCaseRange(3) && ComplexityDescription(level) == ComplexityDescription(3)
  {
    var d, r := ComplexityDescription(level), TestCaseRange(level);
    var at := if level == 1 then 18 else if level == 2 then 20 else 22;
    assert d[at..at + |r|] == r;
    assert OccursAt(d, r, at);
  }

  /** The test types the `switch` names, and the fallback for any other. */
  datatype TestType = Functional | Regression | Integration | Smoke | OtherType

  /** The `case` label of a named test type. */
  function TestTypeName(t: TestType): string
    requires !t.OtherType?
  {
    match t
    case Functional => "Functional"
    case Regression => "Regression"
    case Integration => "Integration"
    case Smoke => "Smoke"
  }

  /** The `switch (testType)` dispatch: exact, case-sensitive string equality. */
  function TestTypeOf(testType: string): TestType {
    if testType == "Functional" then Functional
    else if testType == "Regression" then Regression
    else if testType == "Integration" then Integration
    else if testType == "Smoke" then Smoke
    else OtherType
  }

  /** The dispatch and the labels are inverse: a named type is selected by
      its own label, and a string selects a named type only if it is that
      type's label. */
  lemma TestTypeRoundTrip(t: TestType, s: string)
    ensures !t.OtherType? ==> TestTypeOf(TestTypeName(t)) == t
    ensures !TestTypeOf(s).OtherType? ==> TestTypeName(TestTypeOf(s)) == s
  {
  }

  /** `scenarioInstruction`: one fixed sentence per case, and the default. */
  function ScenarioInstruction(t: TestType): string {
    match t
    case Functional => "Generate a comprehensive mix of both positive (happy path) and negative (error, invalid input, edge case) test cases.\n\n"
    case Regression => "Focus on a mix of core positive paths and potential areas of failure to ensure existing functionality hasn't broken.\n\n"
    case Integration => "Focus on how modules interact, including positive cases where data flows correctly and negative cases where one module sends bad data.\n\n"
    case Smoke => "This is a Smoke Test. Generate ONLY the most critical, high-level positive 'happy path' test cases to ensure basic functionality is working.\n\n"
    case OtherType => "Generate a standard set of positive test cases.\n\n"
  }

  /** `formatInstruction` for `outputFormat === 'playwright'`, line by line; a
      no-break space follows each rule number, as in the template literal. */
  const PlaywrightFormatLines := [
    "",
    "You are an expert Playwright automation engineer. Your task is to generate a complete, production-quality Playwright test script. Follow these rules STRICTLY:",
    "1. \U{A0}**Output Format:** - Respond with ONLY the raw Playwright script code in JavaScript. - DO NOT wrap the code in markdown blocks like ```javascript.",
    "2. \U{A0}**Test Structure:** - Use the official Playwright test runner format. - Start with `import { test, expect } from '@playwright/test';` - Use `test.describe()` and `test.beforeEach()`.",
    "3. \U{A0}**Locators (CRITICAL):** - You MUST use modern, user-facing locators in this priority: `page.getByRole()`, `page.getByLabel()`, `page.getByPlaceholder()`, `page.getByText()`. - AVOID CSS selectors.",
    "4. \U{A0}**Assertions:** - You MUST use web-first assertions like `await expect(page).toHaveURL(...)`."
  ]

  /** `formatInstruction` for every other output format. */
  const TextFormatLines := [
    "",
    "You are an expert QA engineer. Follow these rules STRICTLY for formatting your response:",
    "",
    "1. \U{A0}**Do NOT use a \"Common Preconditions\" section.** Every test case must list all of its own preconditions, even if they are repetitive.",
    "2. \U{A0}**Minimums:** Each individual test case MUST have a minimum of two specific preconditions and a minimum of two distinct expected result verification points.",
    "3. \U{A0}**Strict Format:** Adhere to this format exactly. Do not add any introductory sentences or extra headers like \"*Test Cases:*\".",
    "",
    "Test Case 1: [A concise title]",
    "Preconditions:",
    "- [Precondition 1]",
    "- [Precondition 2]",
    "Steps:",
    "- [Step 1]",
    "- [Step 2]",
    "Expected Result:",
    "- [Verification point 1]",
    "- [Verification point 2]"
  ]

  /** The template, as the lines of its literal, for an output format. */
  function FormatLines(outputFormat: string): seq<string> {
    if outputFormat == "playwright" then PlaywrightFormatLines else TextFormatLines
  }

  /** `formatInstruction`: the template's lines joined by line breaks. */
  function FormatInstruction(outputFormat: string): string {
    Join(FormatLines(outputFormat), "\n")
  }

  /** `feedbackInstruction`: the first liked example, then the second if there
      is one; none of the others. */
  function FeedbackInstruction(liked: seq<string>): string {
    if |liked| == 0 then ""
    else
      var first := LikedOpening + liked[0] + "\n\n";
      if |liked| > 1 then first + (LikedSecondFence + liked[1] + "\n\n") else first
  }

  /** At most two liked examples reach the prompt: whatever follows the
      second changes nothing, and the block is empty exactly when there is no
      example. */
  lemma AtMostTwoLiked(liked: seq<string>)
    ensures FeedbackInstruction(liked) == "" <==> liked == []
    ensures |liked| > 2 ==> FeedbackInstruction(liked) == FeedbackInstruction(liked[..2])
  {
  }

  /** `getKnowledgeBaseContent`: the documents joined by a rule line. */
  function KnowledgeBaseContent(docs: seq<string>): string {
    Join(docs, "\n\n---\n\n")
  }

  /** `knowledgeBaseInstruction`: the content, fenced, when the knowledge base
      is in use and its content is non-empty. */
  function KnowledgeBaseInstruction(useKnowledgeBase: bool, docs: seq<string>): string {
    var kbContent := KnowledgeBaseContent(docs);
    if useKnowledgeBase && kbContent != "" then
      KnowledgeBaseOpening
      + kbContent + KnowledgeBaseClosing
    else ""
  }

  /** `dataVariationInstruction`: the categories joined by ", " when there is
      at least one. */
  function DataVariationInstruction(dataCategories: seq<string>): string {
    if |dataCategories| > 0 then
      DataVariationOpening
      + Join(dataCategories, ", ") + ".\n\n"
    else ""
  }

  /** A joined list holds each of its parts. */
  lemma {:induction false} JoinContainsParts(parts: seq<string>, sep: string, k: nat)
    requires k < |parts|
    ensures Contains(Join(parts, sep), parts[k])
    decreases |parts|
  {
    var j := Join(parts, sep);
    if |parts| == 1 {
      assert OccursAt(j, parts[k], 0);
    } else if k == 0 {
      assert j[..|parts[0]|] == parts[0];
      assert OccursAt(j, parts[k], 0);
    } else {
      JoinContainsParts(parts[1..], sep, k - 1);
      var rest := Join(parts[1..], sep);
      var i :| 0 <= i <= |rest| - |parts[k]| && OccursAt(rest, parts[k], i);
      var off := |parts[0]| + |sep|;
      assert j == parts[0] + sep + rest;
      assert j[off + i..off + i + |parts[k]|] == rest[i..i + |parts[k]|];
      assert OccursAt(j, parts[k], off + i);
    }
  }

  /** Text occurring in a part occurs in a text built around it. */
  lemma ContainsInfix(a: string, m: string, b: string, p: string)
    requires Contains(m, p)
    ensures Contains(a + m + b, p)
  {
    var i :| 0 <= i <= |m| - |p| && OccursAt(m, p, i);
    var t := a + m + b;
    assert t[|a| + i..|a| + i + |p|] == m[i..i + |p|];
    assert OccursAt(t, p, |a| + i);
  }

  /** The data-variation block is present exactly when there is a category,
      and it names every category. */
  lemma DataVariationNamesAll(dataCategories: seq<string>, k: nat)
    requires k < |dataCategories|
    ensures DataVariationInstruction(dataCategories) != ""
    ensures Contains(DataVariationInstruction(dataCategories), dataCategories[k])
  {
    JoinContainsParts(dataCategories, ", ", k);
    ContainsInfix(DataVariationOpening,
      Join(dataCategories, ", "), ".\n\n", dataCategories[k]);
  }

  /** JavaScript truthiness of an optional string body field. */
  predicate Truthy(field: Option<string>) {
    field.Some? && field.value != ""
  }

  /** A template literal `${field}`: an absent field prints as "undefined". */
  function Interpolate(field: Option<string>): string {
    match field
    case Some(s) => s
    case None => "undefined"
  }

  /** `contextInstruction`: both documents when either is truthy. */
  function ContextInstruction(appCode: Option<string>, appDocs: Option<string>): (r: string)
    ensures r != "" <==> Truthy(appCode) || Truthy(appDocs)
  {
    if Truthy(appCode) || Truthy(appDocs) then
      ContextOpening + Interpolate(appDocs)
      + ContextCodeFence + Interpolate(appCode) + "\n\n"
    else ""
  }

  /** The request fields the prompt depends on, after defaults. */
  datatype Request = Request(
    inputText: string, testType: string, complexity: int, testCount: int, outputFormat: string,
    appCode: Option<string>, appDocs: Option<string>, dataCategories: seq<string>, useKnowledgeBase: bool)

  /** The opening sentence: the count tier, the test type as given, and the
      requirement. */
  function Header(req: Request): string {
    HeaderOpening + TestCaseRange(req.testCount) + " " + req.testType
    + " test cases for:\n" + req.inputText + "\n\n"
  }

  /** The sentence built from the complexity table. */
  function ComplexityLine(req: Request): string {
    "Each test case should be " + ComplexityDescription(req.complexity) + ".\n\n"
  }

  /** The blocks between the header and the complexity line, in source
      order: knowledge base, liked examples, context, scenario, data
      variations. Only the scenario sentence is always present. */
  function Instructions(req: Request, liked: seq<string>, kbDocs: seq<string>): string {
    KnowledgeBaseInstruction(req.useKnowledgeBase, kbDocs)
    + FeedbackInstruction(liked)
    + ContextInstruction(req.appCode, req.appDocs)
    + ScenarioInstruction(TestTypeOf(req.testType))
    + DataVariationInstruction(req.dataCategories)
  }

  /** The prompt: header, the instruction blocks, complexity, format. */
  function PromptFor(req: Request, liked: seq<string>, kbDocs: seq<string>): string {
    Header(req) + Instructions(req, liked, kbDocs) + ComplexityLine(req) + FormatInstruction(req.outputFormat)
  }

  /** A text glued from four pieces starts with the first and ends with the
      last two. */
  lemma Framed(a: string, b: string, c: string, d: string)
    ensures StartsWith(a + b + c + d, a) && EndsWith(a + b + c + d, c + d)
  {
    var p := a + b + c + d;
    assert p[..|a|] == a;
    assert p[|p| - |c + d|..] == c + d;
  }

  /** The prompt opens with the header and closes with the complexity line and
      the format template, whatever the optional blocks hold. */
  lemma PromptFrame(req: Request, liked: seq<string>, kbDocs: seq<string>)
    ensures var p := PromptFor(req, liked, kbDocs);
      StartsWith(p, Header(req)) && EndsWith(p, ComplexityLine(req) + FormatInstruction(req.outputFormat))
  {
    Framed(Header(req), Instructions(req, liked, kbDocs), ComplexityLine(req), FormatInstruction(req.outputFormat));
  }

  /** With no optional input, the instruction blocks reduce to the scenario
      sentence alone. */
  lemma PlainInstructions(req: Request, kbDocs: seq<string>)
    requires !req.useKnowledgeBase && !Truthy(req.appCode) && !Truthy(req.appDocs) && req.dataCategories == []
    ensures Instructions(req, [], kbDocs) == ScenarioInstruction(TestTypeOf(req.testType))
  {
    assert ContextInstruction(req.appCode, req.appDocs) == "";
  }

  /** The body fields as sent, `None` where the field is absent. */
  datatype Body = Body(
    inputText: string, testType: Option<string>, complexity: Option<int>, testCount: Option<int>,
    outputFormat: Option<string>, appCode: Option<string>, appDocs: Option<string>,
    dataCategories: Option<seq<string>>, useKnowledgeBase: bool)

  /** The destructuring defaults: they apply only to absent fields. */
  function WithDefaults(body: Body): Request {
    Request(
      body.inputText,
      match body.testType case Some(t) => t case None => "Functional",
      match body.complexity case Some(c) => c case None => 2,
      match body.testCount case Some(c) => c case None => 2,
      match body.outputFormat case Some(f) => f case None => "text",
      body.appCode, body.appDocs,
      match body.dataCategories case Some(d) => d case None => [],
      body.useKnowledgeBase)
  }

  /** The `switch (testType)` that picks the scenario sentence. */
  method ChooseScenario(testType: string) returns (scenarioInstruction: string)
    ensures scenarioInstruction == ScenarioInstruction(TestTypeOf(testType))
  {
    if testType == "Functional" {
      scenarioInstruction := ScenarioInstruction(Functional);
    } else if testType == "Regression" {
      scenarioInstruction := ScenarioInstruction(Regression);
    } else if testType == "Integration" {
      scenarioInstruction := ScenarioInstruction(Integration);
    } else if testType == "Smoke" {
      scenarioInstruction := ScenarioInstruction(Smoke);
    } else {
      scenarioInstruction := ScenarioInstruction(OtherType);
    }
  }

  /** The prompt assembly in the handler: the `let` strings of the optional
      blocks, each reassigned by an `if` or the `switch`, and their
      concatenation in source order. */
  method ComposeInstructions(req: Request, likedExamples: seq<string>, kbDocs: seq<string>) returns (instructions: string)
    ensures instructions == Instructions(req, likedExamples, kbDocs)
  {
    var feedbackInstruction := "";
    if |likedExamples| > 0 {
      feedbackInstruction := LikedOpening + likedExamples[0] + "\n\n";
      if |likedExamples| > 1 {
        feedbackInstruction := feedbackInstruction + (LikedSecondFence + likedExamples[1] + "\n\n");
      }
    }
    assert feedbackInstruction == FeedbackInstruction(likedExamples);
    var knowledgeBaseInstruction := "";
    if req.useKnowledgeBase {
      var kbContent := KnowledgeBaseContent(kbDocs);
      if kbContent != "" {
        knowledgeBaseInstruction := KnowledgeBaseOpening
          + kbContent + KnowledgeBaseClosing;
      }
    }
    assert knowledgeBaseInstruction == KnowledgeBaseInstruction(req.useKnowledgeBase, kbDocs);
    var scenarioInstruction := ChooseScenario(req.testType);
    var dataVariationInstruction := "";
    if |req.dataCategories| > 0 {
      dataVariationInstruction := DataVariationOpening
        + Join(req.dataCategories, ", ") + ".\n\n";
    }
    assert dataVariationInstruction == DataVariationInstruction(req.dataCategories);
    var contextInstruction := "";
    if Truthy(req.appCode) || Truthy(req.appDocs) {
      contextInstruction := ContextOpening + Interpolate(req.appDocs)
        + ContextCodeFence + Interpolate(req.appCode) + "\n\n";
    }
    assert contextInstruction == ContextInstruction(req.appCode, req.appDocs);
    instructions := knowledgeBaseInstruction + feedbackInstruction + contextInstruction + scenarioInstruction + dataVariationInstruction;
  }

  /** The whole prompt: the header, the instruction blocks, the complexity
      sentence and the format template chosen by the output format. */
  method ComposePrompt(req: Request, likedExamples: seq<string>, kbDocs: seq<string>) returns (prompt: string)
    ensures prompt == PromptFor(req, likedExamples, kbDocs)
  {
    var instructions := ComposeInstructions(req, likedExamples, kbDocs);
    var formatLines := TextFormatLines;
    if req.outputFormat == "playwright" {
      formatLines := PlaywrightFormatLines;
    }
    var formatInstruction := Join(formatLines, "\n");
    prompt := HeaderOpening + TestCaseRange(req.testCount) + " " + req.testType
      + " test cases for:\n" + req.inputText + "\n\n";
    prompt := prompt + instructions + ("Each test case should be " + ComplexityDescription(req.complexity) + ".\n\n") + formatInstruction;
  }
}
