# AI Test Case Generator: a verified model of its text layer

The AI Test Case Generator asks a language model for test cases. It then shapes the answer in three places:

- **Back end (`Backend/index.js`).**
  - Builds the prompt from the request.
  - Cleans and caches the answer.
  - Parses plain-text answers into records.
  - Turns Jira descriptions (Atlassian Document Format) into text.
  - Exports parsed records to Jira as Zephyr test issues.
- **Front end (`Frontend/script.js`).**
  - Cuts the answer into an introduction and test cases for display.
  - Re-renders one case after a refinement.
  - Labels the custom drop-downs.

This project models that layer in Dafny. It proves what each piece guarantees.

The project has one module per piece:

| file | module | what it models |
|---|---|---|
| `wrappers.dfy` | `Wrappers` | `Option` |
| `text.dfy` | `TextUtil` | JavaScript's `\s`, `trim`, ASCII `toLowerCase`, one-character `split` and `join`, `replace(/\*\*/g, '')`, decimal rendering of counts |
| `markers.dfy` | `Markers` | the case-title regular expression `/Test Case\s+\d+[:]?/i` and `search` |
| `cleaner.dfy` | `Cleaner` | `cleanOutput` |
| `parser.dfy` | `Parser` | `parseTestCasesFromText` |
| `adf.dfy` | `Adf` | `extractTextFromAdf`, `/import-from-jira` |
| `zephyr.dfy` | `Zephyr` | `/create-zephyr-tests` |
| `prompt.dfy` | `Prompt` | `getTestCaseRange`, `getComplexityDescription`, request defaults, prompt assembly |
| `generation.dfy` | `Generation` | `findExactMatch` (in-place sort and first matching row), `saveTestCase`, the cache-or-generate flow of `/generate-testcase` |
| `render.dfy` | `Render` | `renderFormattedOutput` and the refinement re-render |
| `selects.dfy` | `Selects` | `updateTriggerText` |

The code's own shape is kept:

- **Loops are methods with loop invariants.** These are the parser's loops, the ADF accumulation, the Zephyr batch, prompt assembly, and the render loops. Each method is proved equal to a function, and the properties are proved about that function.
- **The categories array is sorted in place.** `findExactMatch` sorts the request's own `dataCategories` array. The model does this on an `array<string>`, so the prompt, the response and the saved row all see the sorted list, as in the code.
- **State that the code mutates lives in classes.**
  - `TestCaseStore` holds the `test_cases` table.
  - `OutputPanel` holds the children of the output panel. DOM nodes are modelled as values: `Fragment` and `Element`.
- **Outside services are parameters.**
  - The language model is a function from prompt to reply.
  - The Jira issue creation is a function from batch position and payload to reply.
  - Whether a Supabase insert succeeds is a boolean.
  - The liked examples and the knowledge-base documents are plain inputs.

Where the documentation and the code disagree, the model follows the code:

- **`cleanOutput` is not idempotent.** The first step strips only one list marker per line, so `"* * x"` becomes `"* x"`, and cleaning again gives `"x"`. `Cleaner.CleanOutputNotIdempotent` proves this.
- **Parsed records have no `preconditions` field.** The parser pushes only `title`, `steps` and `expectedResult`, and so does the model.

## Model

| member | source | states |
|---|---|---|
| TextUtil.TrimEnds | Backend/index.js:36 | the trimmed text is no longer than the text, is empty exactly when the text is all white space, and otherwise starts and ends with a non-space character |
| TextUtil.TrimIdempotent | Backend/index.js:404 | trimming a trimmed text changes nothing (so the second trim of the generated answer is harmless) |
| TextUtil.TrimAppendSpace | Backend/index.js:78 | white space glued after a text disappears when trimmed (the trailing `' '` and `'\n'` of the ADF text) |
| TextUtil.SpaceRunEnd | Frontend/script.js:254 | the end of the greedy `\s` run: everything before it is white space, the character at it is not |
| TextUtil.DigitRunEnd | Backend/index.js:45 | the end of the greedy `\d` run: everything before it is a digit, the character at it is not |
| TextUtil.LowerAscii | Backend/index.js:43 | `toLowerCase` on ASCII: capitals map 32 code points up to lower case, every other character is kept |
| TextUtil.IndexOf | Backend/index.js:44 | the first position of the character, or the length when it is absent |
| TextUtil.Join | Backend/index.js:160 | joining a single part gives that part |
| TextUtil.SplitOn | Backend/index.js:44 | `split('\n')`: at least one piece, no piece holds the separator, and joining the pieces with it gives the text back |
| TextUtil.SplitJoin | Backend/index.js:44 | splitting a join of separator-free pieces gives the pieces back |
| TextUtil.RemoveDoubleStars | Backend/index.js:34 | `replace(/\*\*/g, '')` leaves no `**`, never lengthens the text, adds no character, and keeps a first character that is not `*` |
| TextUtil.RemoveDoubleStarsFixed | Frontend/script.js:296 | a text without `**` is left unchanged |
| TextUtil.RemoveDoubleStarsIdempotent | Frontend/script.js:312 | erasing `**` twice is erasing once |
| TextUtil.NatToDecimal | Frontend/script.js:157 | `${n}` is a non-empty string of digits with no leading zero unless `n` is 0 |
| TextUtil.DecimalRoundTrip | Frontend/script.js:157 | reading the rendered count back gives the count |
| Markers.SearchFrom | Frontend/script.js:282 | the first position at or after the start where the title pattern matches, and no match before it; `None` when it matches nowhere after the start |
| Markers.Search | Frontend/script.js:254-255 | `search` is `-1` exactly when the pattern matches nowhere; otherwise it is the first match |
| Markers.MarkerAtSuffix | Backend/index.js:472-473 | cutting text off at the front moves every match and creates none |
| Markers.MarkerAtPrefix | Frontend/script.js:282 | a match inside a prefix of the text is a match in the text |
| Markers.MarkerAtTruncate | Frontend/script.js:282 | a match survives cutting the text after its digit |
| Markers.NoMarkerInside | Frontend/script.js:282 | no second match starts inside a match's "test case" words or white-space run |
| Cleaner.StripBulletsFrom | Backend/index.js:32 | stripping line-start `*`, `•`, `+` markers never lengthens the text and adds no character |
| Cleaner.NormalizeDashesFrom | Backend/index.js:33 | normalising dash lines adds no character other than `-` and space |
| Cleaner.CollapseFrom | Backend/index.js:35 | collapsing newline runs adds no character, and a result starting with `*` or a line feed comes from the same character in the input |
| Cleaner.CollapseKeepsNoDoubleStar | Backend/index.js:34-35 | collapsing newline runs cannot create a `**` |
| Cleaner.CollapseLeavesNoTripleNewline | Backend/index.js:35 | without `\r`, collapsing leaves no three line feeds in a row |
| Cleaner.PassesShape | Backend/index.js:31-35 | after the four replacements: no `**`, and without `\r` no three line feeds in a row |
| Cleaner.TrimKeepsShape | Backend/index.js:36 | trimming keeps both properties |
| Cleaner.CleanOutput | Backend/index.js:30-37 | the cleaned text has no white space at either end and no `**`, and when the input has no `\r` it has no three line feeds in a row |
| Cleaner.CleanOutputNotIdempotent | Backend/index.js:32 | `"* * x"` cleans to `"* x"`, and cleaning that again gives `"x"` |
| Parser.LastNewline | Backend/index.js:41 | the last line feed in a range, or none in the range |
| Parser.SeparatorEnd | Backend/index.js:41 | a `\n\s*\n` separator starting at a position starts with a line feed and is at least two characters long |
| Parser.SplitBlocksFrom | Backend/index.js:41 | the blocks hold no blank-line separator |
| Parser.SplitBlocksFromRejoin | Backend/index.js:41 | the blocks are the pieces between separator matches, in order: whole `\n\s*\n` matches put back between them rebuild the scanned text |
| Parser.SplitBlocks | Backend/index.js:41 | `split(/\n\s*\n/)` yields at least one block |
| Parser.SplitBlocksRejoin | Backend/index.js:41 | `split(/\n\s*\n/)` cuts the text at whole separator matches: one separator fewer than blocks, and blocks and separators in turn give the text back |
| Parser.SeparatorAlone | Backend/index.js:41 | a separator matched inside the text is a whole `\n\s*\n` match on its own |
| Parser.TitleMarkerEnd | Backend/index.js:45 | a match of `Test Case \d+:\s*` begins with `"Test Case "` and is at least 12 characters long |
| Parser.FindTitleMarker | Backend/index.js:45 | a match of the case-sensitive title pattern at or after the start, or none exactly when it matches nowhere there |
| Parser.FindTitleMarkerLeftmost | Backend/index.js:45 | the match found is the leftmost: no match starts between the start and it, so it is the one `replace` removes |
| Parser.SelectedBlocks | Backend/index.js:42-43 | every kept block's lower-cased text starts with "test case", and every such block is kept |
| Parser.SelectedBlocksConcat | Backend/index.js:42-43 | selecting from two runs of blocks is selecting from each and concatenating, so the `filter` keeps block order and repeated blocks |
| Parser.SelectedBlocksSingle | Backend/index.js:43 | a single block is kept exactly when its lower-cased text starts with "test case" |
| Parser.ParseTestCasesFromText | Backend/index.js:39-65 | the loop returns one record per kept block, in block order: the parse function of the text |
| Parser.ParseBlock | Backend/index.js:44-62 | the section machine over the lines after the first yields that block's record |
| Parser.RunPrefix | Backend/index.js:49-61 | the state after `n` lines depends only on those `n` lines |
| Parser.IgnoredLineDeletable | Backend/index.js:50-60 | a line that is not a header, or a dash line outside Steps and Expected Result, can be deleted without changing the record |
| Parser.Collected | Backend/index.js:57-59 | what a section collects are dash lines of the block |
| Parser.RunCollects | Backend/index.js:49-61 | the machine's `steps` and `expectedResult` are exactly the dash lines under the last Steps or Expected Result header, in order, each followed by a line feed |
| Parser.JoinLinesSnoc | Backend/index.js:58-59 | appending a line and a line feed extends the collected text by exactly that |
| Parser.BlockRecordSections | Backend/index.js:46-62 | a record's `steps` and `expectedResult` are the joins of the dash lines collected under those headers (so dash lines under Preconditions or before any header never appear) |
| Parser.BlankTextParsesToNothing | Backend/index.js:41-43 | empty or whitespace-only text parses to no records |
| Parser.NoBlankLineOneBlock | Backend/index.js:41 | text without a blank line is a single block |
| Parser.UpperCaseMarkerSelected | Backend/index.js:43 | a block starting "TEST CASE" is selected, because the test lower-cases the block |
| Parser.UpperCaseMarkerKept | Backend/index.js:45 | a first line with no lower-case `e`, such as "TEST CASE 1: X", becomes the title whole (only trimmed), because title stripping is case-sensitive |
| Adf.ExtractText | Backend/index.js:67-79 | a missing document or content gives `""`; the result never starts or ends with white space |
| Adf.ExtractTextFromAdf | Backend/index.js:67-79 | the guard, the two nested `forEach` loops and the trim compute that function |
| Adf.AccumulateText | Backend/index.js:69-77 | the loop's text is the left fold of paragraph and text steps over the nodes |
| Adf.ChildrenFoldAppends | Backend/index.js:72-74 | the inner loop only appends to the text it started from |
| Adf.NodeStepAppends | Backend/index.js:70-76 | one node's step only appends |
| Adf.IgnoredNodeDeletable | Backend/index.js:71 | a node that is not a paragraph with content can be removed without changing the result |
| Adf.IgnoredChildDeletable | Backend/index.js:73 | a child that is not a text node can be removed without changing the paragraph's text |
| Adf.SingleParagraph | Backend/index.js:67-79 | a document of one paragraph with one text node reads back as that text, trimmed |
| Adf.ImportFromJira | Backend/index.js:438-464 | a missing key is a 400; a fetched issue gives a requirement text ending in the extracted description; a failure is reported with its own status, or with 500 when the status is missing or 0, since a falsy status falls back to 500; a 404 says "Issue '<key>' not found.", any other failure "Failed to import from Jira." |
| Zephyr.ParsableText | Backend/index.js:470-473 | the result is empty exactly when the text holds no marker; otherwise it is the suffix that starts at the first marker, and nothing dropped holds a marker |
| Zephyr.DescriptionReadsBack | Backend/index.js:486-499 | reading an issue's description with `extractTextFromAdf` gives the issue body, trimmed |
| Zephyr.BatchAccounting | Backend/index.js:480-526 | each record yields exactly one created key or one error: `created + errors == parsed` |
| Zephyr.CreateZephyrTests | Backend/index.js:465-540 | the handler returns the response function's value for the text and the Jira oracle |
| Zephyr.CreateIssues | Backend/index.js:478-526 | the loop's key and error lists are the created keys and the failures, in record order |
| Zephyr.BatchOutcome | Backend/index.js:527-539 | a success has at least one key and keys plus errors equal the parsed count; a 500 lists every record as an error |
| Zephyr.BadRequestIffNoMarker | Backend/index.js:470-477 | for non-empty text, the handler answers 400 exactly when the text holds no case title |
| Zephyr.MarkerBlockSelected | Backend/index.js:473-477 | text that opens with a title parses to at least one record |
| Prompt.TiersAgree | Backend/index.js:81-91 | the length description names the same count range as the count table, and every level other than 1 and 2 falls into the third tier |
| Prompt.TestTypeRoundTrip | Backend/index.js:323-329 | the `switch` labels and the dispatch are inverse: a named type is selected by its own label and only by it |
| Prompt.AtMostTwoLiked | Backend/index.js:305-312 | the liked-examples block is empty exactly when there is no example, and examples after the second change nothing |
| Prompt.JoinContainsParts | Backend/index.js:333-335 | a joined list contains each of its parts |
| Prompt.DataVariationNamesAll | Backend/index.js:331-336 | with at least one category the data block is present and names every category |
| Prompt.ContextInstruction | Backend/index.js:366-369 | the context block is present exactly when `appCode` or `appDocs` is truthy |
| Prompt.PromptFrame | Backend/index.js:371-377 | the prompt starts with the header and ends with the complexity line followed by the format template |
| Prompt.PlainInstructions | Backend/index.js:306-336 | with no knowledge base, liked example, context or category, the only block between header and complexity line is the scenario sentence |
| Prompt.ChooseScenario | Backend/index.js:322-329 | the `switch` picks the scenario sentence of the type its label names, or the default sentence |
| Prompt.ComposeInstructions | Backend/index.js:305-369 | the `let` blocks and their conditions build the instruction blocks in source order |
| Prompt.ComposePrompt | Backend/index.js:305-377 | the handler's prompt is the prompt function of the request, the liked examples and the knowledge base |
| Generation.StrLeTotal | Backend/index.js:124 | the string order used by `sort` relates every pair |
| Generation.StrLeAntisymmetric | Backend/index.js:124 | strings ordered both ways are equal |
| Generation.StrLeTransitive | Backend/index.js:124 | the string order is transitive |
| Generation.NeighboursSortedIsSorted | Backend/index.js:124 | neighbours in order means every pair in order |
| Generation.SortedUnique | Backend/index.js:124 | two sorted permutations of the same strings are equal |
| Generation.Insert | Backend/index.js:124 | insertion adds exactly the new string and keeps a sorted list sorted |
| Generation.SortedCategories | Backend/index.js:124 | the sorted categories are sorted and a permutation of the input |
| Generation.SwapIntoPlace | Backend/index.js:124 | one pass of adjacent swaps extends the sorted prefix by one and permutes the array |
| Generation.SortInPlace | Backend/index.js:124 | `sort()` leaves the array sorted, a permutation of its old contents, and equal to the sorted categories |
| Generation.FirstMatch | Backend/index.js:125-135 | the query returns some row with all six fields equal; the model picks the first such row in table order, and no earlier row has them |
| Generation.LookupMeaning | Backend/index.js:125-137 | a miss means no row has the key; a hit is the output of a row that has it |
| Generation.LookupAfterAppend | Backend/index.js:103-111 | saving a row keeps every earlier hit, and makes its own key hit when it missed before |
| Generation.FinalTextShape | Backend/index.js:394-404 | the stored answer has no white space at either end; outside Playwright it is the cleaned answer and has no `**`; a missing content gives `""` |
| Generation.GenerateOutcomes | Backend/index.js:292-414 | a cache hit happens exactly when the table has the key; a hit returns the stored output and changes nothing; a failure is the 500 message and changes nothing; a generated answer adds at most its own row; the categories in a generated response are sorted and a permutation of the request's |
| Generation.KeyIgnoresCategoryOrder | Backend/index.js:116-135 | two requests differing only in the order of their categories have the same cache key |
| Generation.RepeatRequestIsCached | Backend/index.js:292-303 | after a generated answer is saved, the same request, with categories in any order, is answered from the cache with that answer and the table unchanged |
| Generation.TestCaseStore.FindExactMatch | Backend/index.js:116-138 | the caller's array is left sorted, and the result is the first matching row's output |
| Generation.TestCaseStore.SaveTestCase | Backend/index.js:93-114 | an accepted insert appends the row; a failed one leaves the table unchanged |
| Generation.TestCaseStore.GenerateTestCase | Backend/index.js:271-415 | the handler's response and the new table are the generate function's values |
| Render.ReplaceChar | Frontend/script.js:238 | replacing a character leaves none of it when the replacement has none, adds no other character, and changes nothing when it is absent |
| Render.EscapeAngles | Frontend/script.js:238 | the escaped code has no `<` and no `>` |
| Render.EscapeRoundTrip | Frontend/script.js:238 | the escaped code reads back as the code when it holds no `&` |
| Render.StripListMark | Frontend/script.js:312 | `replace(/^[-•*+]\s*/, '')` removes one leading marker and the white space after it, and only when there is one |
| Render.SectionLabelLength | Frontend/script.js:292-293 | a matched section label is a non-empty prefix of the line ending in `:` |
| Render.LineKinds | Frontend/script.js:290-315 | a line is a heading exactly when it holds a title anywhere; else a section title exactly when it opens with a label, followed by at most one trimmed, non-empty paragraph; else one paragraph; headings and plain paragraphs hold no `**` |
| Render.NonBlankMembers | Frontend/script.js:290 | the kept lines are the input lines that are not blank, all of them |
| Render.BlockLinesShape | Frontend/script.js:290 | a block's lines are not blank and hold no line break |
| Render.Blocks | Frontend/script.js:282 | the split yields at least one piece |
| Render.BlocksConcat | Frontend/script.js:282 | the pieces put back together give the text, and none is empty when the text is not |
| Render.BlocksOneTitleEach | Frontend/script.js:282 | every piece but the first opens with a title, and no piece holds a title anywhere else |
| Render.FirstBlockStartsWith | Frontend/script.js:282 | when the text opens with a title, so does its first piece |
| Render.CasesOfMembers | Frontend/script.js:283-324 | every case is the case of a non-blank block, with the block's position as its id and that block's content, and every non-blank block has its case |
| Render.CasesOfIncreasing | Frontend/script.js:283-288 | the case ids rise strictly, in block order |
| Render.FindCase | Frontend/script.js:568 | `getElementById` finds the first case with the id, or none exists |
| Render.PlaywrightView | Frontend/script.js:236-252 | a Playwright answer is one code case numbered 0, with no angle bracket in its markup, reading back as the answer when there is no `&` |
| Render.MarkerlessView | Frontend/script.js:254-265 | outside Playwright the answer is one plain introduction exactly when it holds no case title |
| Render.IntroMarkupNoStar | Frontend/script.js:276 | the introduction's markup holds no `*` |
| Render.TextViewShape | Frontend/script.js:267-326 | with a title: an introduction comes first exactly when the trimmed text before the first title is not empty, it has no `*`, and the rest of the panel is the cases of the blocks cut from the non-blank remainder |
| Render.TextViewIntroFirst | Frontend/script.js:267-324 | only the first child can be an introduction, and it is one exactly when the trimmed text before the first title is not empty |
| Render.RefineOnlyTarget | Frontend/script.js:568-603 | a refinement changes only the first case with the id: a code case shows the refined text verbatim, a text case gets the content built from it, and refining twice is refining once |
| Render.RefineWithOwnBlock | Frontend/script.js:576-601 | refining a rendered case with the block it was built from changes nothing, since both renders classify lines alike |
| Render.RefinePlaywright | Frontend/script.js:570-574 | refining the Playwright case replaces its markup by the refined text; other ids change nothing |
| Render.OutputPanel.BuildContent | Frontend/script.js:290-315 | the `lines.forEach` builds the case content of the block |
| Render.OutputPanel.BuildCases | Frontend/script.js:283-324 | the `testCaseBlocks.forEach` builds the cases of the blocks |
| Render.OutputPanel.RenderFormattedOutput | Frontend/script.js:232-327 | the panel's children after the render are the rendered view of the answer and format |
| Render.OutputPanel.ApplyRefinement | Frontend/script.js:568-603 | the panel after the refined text arrives is the refined view of the old panel |
| Selects.RemoveFirst | Frontend/script.js:155 | `replace('✔', '')` with a string pattern removes only the first check mark, and only when there is one |
| Selects.Labels | Frontend/script.js:155 | one name per selected option, in document order |
| Selects.RemoveFirstCount | Frontend/script.js:155 | removing the first check mark lowers its count by one and keeps every other count |
| Selects.TrimKeepsNonSpace | Frontend/script.js:155 | trimming keeps the count of every character that is not white space |
| Selects.OptionLabelTrimmed | Frontend/script.js:155 | an option's name is trimmed, and is the trimmed text when there is no check mark |
| Selects.OptionLabelCount | Frontend/script.js:155 | a name has one check mark fewer than its text when the text has one; every other character that is not white space keeps its count |
| Selects.CheckedAfterLabel | Frontend/script.js:155 | "name ✔" is shown as "name" |
| Selects.CheckedBeforeLabel | Frontend/script.js:160 | "✔ name" is shown as "name" |
| Selects.TriggerTextCases | Frontend/script.js:149-162 | nothing selected shows "Select..."; a single select shows the first name; a multi select shows one or two names joined by ", ", and more than two ends in " items selected" |
| Selects.CountRoundTrip | Frontend/script.js:157 | with more than two selected, the digits before " items selected" read back as the number selected |
| Selects.NamesRoundTrip | Frontend/script.js:154-155 | with one or two selected, splitting the text at commas and trimming gives the names back, when no name holds a comma |

## Left out

- **HTTP plumbing.** Express routing, CORS, static serving, the catch-all route, request logging and the `/run-test` and `/api/refine-testcase` handlers are not modelled.
- **External services.**
  - Supabase (select, insert, delete, the knowledge-base upload via multer and `fs`), Groq and Jira are not modelled as services.
  - Their answers are inputs to the model: the model's reply, the Jira creation reply, whether an insert succeeds, the liked examples and the knowledge-base documents.
  - `getLikedExamples` and `getKnowledgeBaseContent` become those inputs. Their error paths return `[]` and `''`, which are among the inputs.
- **Other source files.** `Backend/playwrightRunner.js`, `Frontend/run_test.js` and the Playwright specs under `tests/` are not part of this model. They are a child process, fetch and DOM glue, and browser scripts.
- **Front-end glue.** Toasts, the modal, the theme, `sessionStorage` and `localStorage`, Tesseract OCR, copy and download, the fetch handlers, the feedback buttons' markup, Prism highlighting and the clear button are not modelled.
  - The option-click handler of the custom selects, which toggles or replaces the selection, is not modelled. `updateTriggerText` takes the selected options' texts as input.
- **`string-similarity`.** It is imported but never used.
- **Text encoding.**
  - Strings are sequences of code points. JavaScript compares strings by UTF-16 code units, so the modelled `sort` order (`Generation.StrLe`) differs from JavaScript's for characters outside the Basic Multilingual Plane.
  - Case folding is ASCII only. Every prefix the code tests is ASCII, and `/i` without the `u` flag folds no other character onto ASCII letters.
- **Missing or non-string fields.**
  - Request fields are either present with the right type or absent. Absent fields take their defaults, as destructuring does.
  - `null` values, and non-string `appCode` or `appDocs`, are not modelled. Absent `appCode` and `appDocs` print as "undefined".
- **The row a cache query returns.** The `findExactMatch` query has no ordering, so the database may return any matching row. `Generation.FirstMatch` fixes one choice, the first matching row in table order. No other property depends on that choice: a miss means no row matches whatever the order.
- **HTML parsing.**
  - Markup assigned to `innerHTML` is kept as a string.
  - Reading it back (`Render.UnescapeAngles`) decodes only `&lt;` and `&gt;`, which are the references the escaping writes.
- **The idempotence of `cleanOutput`.** It does not hold, as `Cleaner.CleanOutputNotIdempotent` shows.
- **The refinement's chat history and the saved output.** The chat history markup and the `currentRefinementContext` bookkeeping are not modelled. Only the panel update is.
- Selects.NamesRoundTrip: holds only when no option name contains a comma, since the trigger text joins names with ", ".
- Render.EscapeRoundTrip: holds only for code without `&`, since an `&` already in the code can start a reference of its own.
