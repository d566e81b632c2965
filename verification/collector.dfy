/**
 `get_jira_issues` of main.py: the JQL query it sends, and how it turns the
 search result into the text corpus handed to the summariser, or into `None`.
 */
module Collector {
  import opened Wrappers
  import opened Text
  import opened IssueFormat

  /** The one keyword the report is about ("payment"). */
  const TargetKeyword: string := "결제"

  const QueryPrefix: string := "text ~ \""
  const QuerySuffix: string := "\" AND created >= \"-7d\" ORDER BY created DESC"

  /** The JQL search: issues whose text matches `keyword`, created in the last
      seven days, newest first. The keyword is spliced in verbatim. */
  function JqlQuery(keyword: string): (q: string)
    ensures |q| == |QueryPrefix| + |keyword| + |QuerySuffix|
    ensures q[..|QueryPrefix|] == QueryPrefix
    ensures q[|QueryPrefix|..|QueryPrefix| + |keyword|] == keyword
    ensures q[|q| - |QuerySuffix|..] == QuerySuffix
  {
    QueryPrefix + keyword + QuerySuffix
  }

  /** The keyword a query searches for, when the query has the shape `JqlQuery` builds. */
  function KeywordOf(query: string): (k: Option<string>)
    ensures k.Some? <==>
      && |query| >= |QueryPrefix| + |QuerySuffix|
      && query[..|QueryPrefix|] == QueryPrefix
      && query[|query| - |QuerySuffix|..] == QuerySuffix
  {
    if |query| >= |QueryPrefix| + |QuerySuffix|
       && query[..|QueryPrefix|] == QueryPrefix
       && query[|query| - |QuerySuffix|..] == QuerySuffix
    then Some(query[|QueryPrefix|..|query| - |QuerySuffix|])
    else None
  }

  /** Reading the keyword back out of a built query gives the keyword. */
  lemma KeywordRoundTrip(keyword: string)
    ensures KeywordOf(JqlQuery(keyword)) == Some(keyword)
  {
    var q := JqlQuery(keyword);
    assert q[|QueryPrefix|..|q| - |QuerySuffix|] == keyword;
  }

  /** Every query of the built shape is the query of the keyword read from it. */
  lemma QueryRoundTrip(query: string)
    requires KeywordOf(query).Some?
    ensures JqlQuery(KeywordOf(query).value) == query
  {
    var k := KeywordOf(query).value;
    assert query == query[..|QueryPrefix|] + k + query[|query| - |QuerySuffix|..];
  }

  /** Different keywords give different queries. */
  lemma JqlQueryInjective(a: string, b: string)
    requires JqlQuery(a) == JqlQuery(b)
    ensures a == b
  {
    KeywordRoundTrip(a);
    KeywordRoundTrip(b);
  }

  /** What the search yields: the issues in search order, or a raised
      exception (client construction, authentication, network and query
      errors alike). */
  datatype SearchOutcome = Found(issues: seq<Issue>) | Raised

  /** The Jira search: what it yields for a given JQL query. */
  type Search = string -> SearchOutcome

  /** The stray terminators of all the issues together. */
  function StrayTotal(issues: seq<Issue>): nat
  {
    if |issues| == 0 then 0 else StrayTerminators(issues[0]) + StrayTotal(issues[1..])
  }

  /** The corpus holds one terminator per issue plus the stray ones of the
      fields: blocks end in a line break, so none straddles two blocks. */
  lemma {:induction false} TerminatorPerIssue(issues: seq<Issue>)
    ensures CountTerminators(Join(issues, FormatIssue)) == |issues| + StrayTotal(issues)
    decreases |issues|
  {
    if |issues| > 0 {
      var block, rest := FormatIssue(issues[0]), Join(issues[1..], FormatIssue);
      BlockTerminatorCount(issues[0]);
      BlockEndsWithTerminator(issues[0]);
      TerminatorPerIssue(issues[1..]);
      CountAppend(block, rest);
    }
  }

  /** No issue brings a stray terminator exactly when all of them bring none. */
  lemma {:induction false} NoStraysAnywhere(issues: seq<Issue>)
    ensures StrayTotal(issues) == 0 <==> forall i :: 0 <= i < |issues| ==> StrayTerminators(issues[i]) == 0
    decreases |issues|
  {
    if |issues| > 0 {
      NoStraysAnywhere(issues[1..]);
      assert forall i :: 0 < i < |issues| ==> issues[i] == issues[1..][i - 1];
    }
  }

  /** The corpus holds exactly one terminator per issue exactly when no
      issue's fields bring one of their own. */
  lemma ExactlyOneTerminatorPerIssue(issues: seq<Issue>)
    ensures CountTerminators(Join(issues, FormatIssue)) == |issues|
        <==> forall i :: 0 <= i < |issues| ==> StrayTerminators(issues[i]) == 0
  {
    TerminatorPerIssue(issues);
    NoStraysAnywhere(issues);
  }

  /** Whatever the fields hold, the corpus holds at least one terminator per issue. */
  lemma {:induction false} AtLeastOneTerminatorPerIssue(issues: seq<Issue>)
    ensures CountTerminators(Join(issues, FormatIssue)) >= |issues|
    decreases |issues|
  {
    if |issues| > 0 {
      var block, rest := FormatIssue(issues[0]), Join(issues[1..], FormatIssue);
      BlockEndsWithTerminator(issues[0]);
      TerminatorSuffixCounts(block);
      AtLeastOneTerminatorPerIssue(issues[1..]);
      CountSuperadditive(block, rest);
    }
  }

  /** The corpus of a non-empty search result ends with the terminator of
      its last block. */
  lemma CorpusEndsWithTerminator(issues: seq<Issue>)
    requires |issues| > 0
    ensures var c := Join(issues, FormatIssue);
      |c| >= |Terminator| && c[|c| - |Terminator|..] == Terminator
  {
    var last := FormatIssue(issues[|issues| - 1]);
    assert |last| >= |Terminator| && last[|last| - |Terminator|..] == Terminator by {
      BlockEndsWithTerminator(issues[|issues| - 1]);
    }
    JoinEndsWith(issues, FormatIssue, Terminator);
  }

  /** The loop of `get_jira_issues`: `issue_text` starts empty and gains the
      block of each issue in turn. */
  method BuildIssueText(issues: seq<Issue>) returns (text: string)
    ensures text == Join(issues, FormatIssue)
  {
    text := "";
    var i := 0;
    while i < |issues|
      invariant 0 <= i <= |issues|
      invariant text == Join(issues[..i], FormatIssue)
    {
      JoinPrefixStep(issues, i, FormatIssue);
      var block := FormatIssue(issues[i]);
      text := text + block;
      i := i + 1;
    }
    assert issues[..i] == issues;
  }

  /** `get_jira_issues`: `None` when the search for the target keyword
      raises or finds nothing, otherwise the corpus of the issues found. */
  function GetJiraIssues(search: Search): (r: Option<string>)
    ensures var outcome := search(JqlQuery(TargetKeyword));
      && (r.Some? <==> outcome.Found? && |outcome.issues| > 0)
      && (r.Some? ==> Truthy(r) && r.value == Join(outcome.issues, FormatIssue))
  {
    match search(JqlQuery(TargetKeyword))
    case Raised => None
    case Found(issues) => if |issues| == 0 then None else Some(Join(issues, FormatIssue))
  }

  /** A failed search cannot be told apart from one that found nothing. */
  lemma FailureLooksLikeNoIssues(failed: Search, empty: Search)
    requires failed(JqlQuery(TargetKeyword)).Raised?
    requires empty(JqlQuery(TargetKeyword)) == Found([])
    ensures GetJiraIssues(failed) == GetJiraIssues(empty) == None
  {
  }
}
