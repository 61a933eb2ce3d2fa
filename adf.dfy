/** `extractTextFromAdf` (Backend/index.js): the plain text of a Jira issue
    description written in the Atlassian Document Format. Only the `text`
    children of top-level `paragraph` nodes that carry content contribute; each
    text is followed by a space and each such paragraph by a line feed, and the
    whole is trimmed. The `/import-from-jira` handler wraps that text in the
    requirement it hands back to the front end. */
module Adf {
  import opened Wrappers
  import opened TextUtil

  /** A document node: the three kinds the extraction tells apart. `content`
      is `None` when the node has no (or a falsy) `content` field; an empty
      array is truthy in JavaScript and is `Some([])` here. */
  datatype Node = Paragraph(content: Option<seq<Node>>) | Text(text: string) | Other

  /** The document root; a missing document is `None` at the call site. */
  datatype Doc = Doc(content: Option<seq<Node>>)

  /** One iteration of the inner `forEach`: a text child appends its text and
      a space; any other child appends nothing. */
  function ChildStep(text: string, child: Node): string {
    if child.Text? then text + child.text + " " else text
  }

  /** The inner `forEach` over the first `n` children, starting from `text`. */
  function ChildrenFold(text: string, children: seq<Node>, n: nat): string
    requires n <= |children|
  {
    if n == 0 then text else ChildStep(ChildrenFold(text, children, n - 1), children[n - 1])
  }

  /** One iteration of the outer `forEach`: a paragraph with content appends
      its children's text and a line feed; any other node appends nothing. */
  function NodeStep(text: string, node: Node): string {
    if node.Paragraph? && node.content.Some? then
      ChildrenFold(text, node.content.value, |node.content.value|) + "\n"
    else text
  }

  /** The outer `forEach` over the first `n` nodes: the text accumulated
      before the final trim. */
  function NodesText(nodes: seq<Node>, n: nat): string
    requires n <= |nodes|
  {
    if n == 0 then "" else NodeStep(NodesText(nodes, n - 1), nodes[n - 1])
  }

  /** What `extractTextFromAdf(adf)` returns: empty when the document or its
      content is missing, otherwise the accumulated text trimmed, so that it
      neither starts nor ends with white space. */
  function ExtractText(adf: Option<Doc>): (r: string)
    ensures adf.None? || adf.value.content.None? ==> r == ""
    ensures r == [] || (!IsSpace(r[0]) && !IsSpace(r[|r| - 1]))
  {
    if adf.Some? && adf.value.content.Some? then
      var nodes := adf.value.content.value;
      TrimEnds(NodesText(nodes, |nodes|));
      Trim(NodesText(nodes, |nodes|))
    else ""
  }

  /** `extractTextFromAdf`: the guard, the accumulation, the trim. */
  method ExtractTextFromAdf(adf: Option<Doc>) returns (result: string)
    ensures result == ExtractText(adf)
  {
    if adf.None? || adf.value.content.None? {
      return "";
    }
    var text := AccumulateText(adf.value.content.value);
    result := Trim(text);
  }

  /** The two nested `forEach` loops that append to `text`. */
  method AccumulateText(nodes: seq<Node>) returns (text: string)
    ensures text == NodesText(nodes, |nodes|)
  {
    text := "";
    for i := 0 to |nodes|
      invariant text == NodesText(nodes, i)
    {
      var node := nodes[i];
      if node.Paragraph? && node.content.Some? {
        var children := node.content.value;
        ghost var before := text;
        for j := 0 to |children|
          invariant text == ChildrenFold(before, children, j)
        {
          if children[j].Text? {
            text := text + children[j].text + " ";
          }
        }
        text := text + "\n";
      }
    }
  }

  /** Only the text children of a paragraph add to the text, each exactly
      once and in order: the inner fold appends a text determined by the
      children alone, whatever was accumulated before. */
  lemma {:induction false} ChildrenFoldAppends(text: string, children: seq<Node>, n: nat)
    requires n <= |children|
    ensures ChildrenFold(text, children, n) == text + ChildrenFold("", children, n)
    decreases n
  {
    if n > 0 {
      ChildrenFoldAppends(text, children, n - 1);
      var c := children[n - 1];
      if c.Text? {
        assert text + ChildrenFold("", children, n - 1) + c.text + " "
          == text + (ChildrenFold("", children, n - 1) + c.text + " ");
      }
    }
  }

  /** Likewise for the outer fold: each node appends a text of its own. */
  lemma NodeStepAppends(text: string, node: Node)
    ensures NodeStep(text, node) == text + NodeStep("", node)
  {
    if node.Paragraph? && node.content.Some? {
      var cs := node.content.value;
      ChildrenFoldAppends(text, cs, |cs|);
      assert text + ChildrenFold("", cs, |cs|) + "\n" == text + (ChildrenFold("", cs, |cs|) + "\n");
    }
  }

  /** A top-level node that is not a paragraph with content (a heading, a
      list, a bare text node, a paragraph without content) can be removed
      without changing the extracted text. */
  lemma IgnoredNodeDeletable(nodes: seq<Node>, i: nat)
    requires i < |nodes|
    requires !(nodes[i].Paragraph? && nodes[i].content.Some?)
    ensures ExtractText(Some(Doc(Some(nodes[..i] + nodes[i + 1..])))) == ExtractText(Some(Doc(Some(nodes))))
  {
    var rest := nodes[..i] + nodes[i + 1..];
    NodesDeletedAgree(nodes, i, |nodes|);
    assert NodesText(rest, |rest|) == NodesText(nodes, |nodes|);
  }

  lemma {:induction false} NodesDeletedAgree(nodes: seq<Node>, i: nat, n: nat)
    requires i < n <= |nodes|
    requires !(nodes[i].Paragraph? && nodes[i].content.Some?)
    ensures NodesText(nodes[..i] + nodes[i + 1..], n - 1) == NodesText(nodes, n)
    decreases n
  {
    var rest := nodes[..i] + nodes[i + 1..];
    if n == i + 1 {
      NodesPrefixAgree(rest, nodes, i);
    } else {
      NodesDeletedAgree(nodes, i, n - 1);
      assert rest[n - 2] == nodes[n - 1];
    }
  }

  /** The accumulation over the first `n` nodes sees nothing after them. */
  lemma {:induction false} NodesPrefixAgree(a: seq<Node>, b: seq<Node>, n: nat)
    requires n <= |a| && n <= |b|
    requires forall k | 0 <= k < n :: a[k] == b[k]
    ensures NodesText(a, n) == NodesText(b, n)
    decreases n
  {
    if n > 0 {
      NodesPrefixAgree(a, b, n - 1);
    }
  }

  /** Likewise a child of a paragraph that is not a text node. */
  lemma IgnoredChildDeletable(text: string, children: seq<Node>, j: nat)
    requires j < |children|
    requires !children[j].Text?
    ensures var rest := children[..j] + children[j + 1..];
      ChildrenFold(text, rest, |rest|) == ChildrenFold(text, children, |children|)
  {
    ChildrenDeletedAgree(text, children, j, |children|);
  }

  lemma {:induction false} ChildrenDeletedAgree(text: string, children: seq<Node>, j: nat, n: nat)
    requires j < n <= |children|
    requires !children[j].Text?
    ensures ChildrenFold(text, children[..j] + children[j + 1..], n - 1) == ChildrenFold(text, children, n)
    decreases n
  {
    var rest := children[..j] + children[j + 1..];
    if n == j + 1 {
      ChildrenPrefixAgree(text, rest, children, j);
    } else {
      ChildrenDeletedAgree(text, children, j, n - 1);
      assert rest[n - 2] == children[n - 1];
    }
  }

  lemma {:induction false} ChildrenPrefixAgree(text: string, a: seq<Node>, b: seq<Node>, n: nat)
    requires n <= |a| && n <= |b|
    requires forall k | 0 <= k < n :: a[k] == b[k]
    ensures ChildrenFold(text, a, n) == ChildrenFold(text, b, n)
    decreases n
  {
    if n > 0 {
      ChildrenPrefixAgree(text, a, b, n - 1);
    }
  }

  /** A document of one paragraph holding one text reads back as that text,
      trimmed: the separators the extraction adds vanish in the final trim. */
  lemma SingleParagraph(t: string)
    ensures ExtractText(Some(Doc(Some([Paragraph(Some([Text(t)]))])))) == Trim(t)
  {
    var children := [Text(t)];
    var nodes := [Paragraph(Some(children))];
    assert ChildrenFold("", children, 1) == "" + t + " ";
    assert NodesText(nodes, 1) == "" + t + " " + "\n";
    assert "" + t + " " + "\n" == t + " \n";
    TrimAppendSpace(t, " \n");
  }

  /** The response of `/import-from-jira`, as far as this model sees it. */
  datatype ImportResponse =
    | Imported(requirementText: string)
    | ImportFailed(status: nat, error: string)

  /** The outcome of the Jira issue fetch: the issue's summary and
      description, or the HTTP status of the failure (`None` when the failure
      carries no response). */
  datatype IssueFetch = Fetched(summary: string, description: Option<Doc>) | FetchFailed(status: Option<nat>)

  /** `/import-from-jira` given the key and the fetch outcome: a missing key is
      a 400 and the fetch is never made; a fetched issue gives the requirement
      text, whose last part is the extracted description; a 404 names the
      issue, any other failure is reported with its status, or with 500 when
      the status is missing or 0 (`error.response?.status || 500`). */
  function ImportFromJira(issueKey: string, fetch: IssueFetch): (r: ImportResponse)
    ensures issueKey == "" ==> r == ImportFailed(400, "Jira issue key is required.")
    ensures issueKey != "" && fetch.Fetched? ==>
      (r.Imported? &&
       var d := ExtractText(fetch.description);
       |d| <= |r.requirementText| && r.requirementText[|r.requirementText| - |d|..] == d)
    ensures issueKey != "" && fetch.FetchFailed? ==> r.ImportFailed? && (fetch.status.None? ==> r.status == 500)
    ensures issueKey != "" && fetch == FetchFailed(Some(0)) ==> r.status == 500
    ensures issueKey != "" && fetch.FetchFailed? && fetch.status.Some? && fetch.status.value != 0 ==>
      r.status == fetch.status.value
    ensures issueKey != "" && fetch == FetchFailed(Some(404)) ==> r == ImportFailed(404, "Issue '" + issueKey + "' not found.")
    ensures issueKey != "" && fetch.FetchFailed? && fetch.status != Some(404) ==> r.error == "Failed to import from Jira."
  {
    if issueKey == "" then ImportFailed(400, "Jira issue key is required.")
    else match fetch
      case Fetched(summary, description) =>
        Imported("User Story: " + summary + "\n\nDescription:\n" + ExtractText(description))
      case FetchFailed(status) =>
        var message := if status == Some(404) then "Issue '" + issueKey + "' not found." else "Failed to import from Jira.";
        var code := match status case Some(s) => (if s == 0 then 500 else s) case None => 500;
        ImportFailed(code, message)
  }
}
