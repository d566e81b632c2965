/**
 The three stages of main.py chained as its `__main__` block chains them:
 collect, summarise, post. The chat-completion service and the webhook post
 are outside the model; only their guards, the order of the calls and the one
 exception that escapes a stage are kept.
 */
module Pipeline {
  import opened Wrappers
  import opened Text
  import opened IssueFormat
  import opened Collector

  /** The chat-completion call for a given corpus: the content of the first
      choice, or `None` when the call raises or the content is null. */
  type Completion = string -> Option<string>

  /** How a stage ended: it returned a value, or an exception escaped it and
      ended the run. */
  datatype Stage<T> = Returned(value: T) | Aborted

  /** `summarize_with_gpt`. `client` is the chat-completion service, or `None`
      when constructing the client raises (an unset API key, say): that
      happens outside the `try`, so the exception escapes. Falsy input returns
      `None` before the client is built; otherwise the service's answer. */
  function SummarizeWithGpt(textData: Option<string>, client: Option<Completion>): (r: Stage<Option<string>>)
    ensures !Truthy(textData) ==> r == Returned(None)
    ensures Truthy(textData) && client.None? ==> r.Aborted?
    ensures Truthy(textData) && client.Some? ==> r == Returned(client.value(textData.value))
  {
    if !Truthy(textData) then Returned(None)
    else match client
      case None => Aborted
      case Some(complete) => Returned(complete(textData.value))
  }

  /** `send_slack_alert`: the text attached to the webhook post, or `None`
      when a falsy message makes it return before posting. */
  function SendSlackAlert(message: Option<string>): (posted: Option<string>)
    ensures posted.Some? <==> Truthy(message)
    ensures posted.Some? ==> posted == message
  {
    if Truthy(message) then message else None
  }

  /** What one run did: the collected data, the corpus the summariser was
      called with (if it was), its answer, the text posted (if any), and
      whether an exception from the summariser ended the run. */
  datatype Run = Run(
    rawData: Option<string>,
    summarised: Option<string>,
    summary: Option<string>,
    posted: Option<string>,
    aborted: bool
  )

  /** The `__main__` block: summarise only when data was collected, post only
      when the summary is truthy; a summariser that raises ends the run. */
  function Main(search: Search, client: Option<Completion>): (run: Run)
    ensures run.rawData == GetJiraIssues(search)
    ensures var outcome := search(JqlQuery(TargetKeyword));
      && (run.summarised.Some? <==> outcome.Found? && |outcome.issues| > 0)
      && (run.summarised.Some? ==> run.summarised.value == Join(outcome.issues, FormatIssue))
    ensures run.summarised.None? ==> run.summary.None? && run.posted.None? && !run.aborted
    ensures run.aborted <==> run.summarised.Some? && client.None?
    ensures run.aborted ==> run.summary.None? && run.posted.None?
    ensures run.summarised.Some? && client.Some? ==> run.summary == client.value(run.summarised.value)
    ensures run.posted.Some? <==> run.summarised.Some? && !run.aborted && Truthy(run.summary)
    ensures run.posted.Some? ==> run.posted == run.summary
  {
    var rawData := GetJiraIssues(search);
    if Truthy(rawData) then
      match SummarizeWithGpt(rawData, client)
      case Aborted => Run(rawData, rawData, None, None, true)
      case Returned(summary) =>
        var posted := if Truthy(summary) then SendSlackAlert(summary) else None;
        Run(rawData, rawData, summary, posted, false)
    else
      Run(rawData, None, None, None, false)
  }

  /** The guards inside the two later stages never fire on the path `Main`
      takes: whatever reaches them is already truthy. */
  lemma InnerGuardsRedundant(search: Search, client: Option<Completion>)
    ensures Truthy(GetJiraIssues(search)) <==> GetJiraIssues(search).Some?
    ensures match SummarizeWithGpt(GetJiraIssues(search), client)
      case Aborted => Main(search, client).aborted
      case Returned(summary) => SendSlackAlert(summary) == Main(search, client).posted
  {
  }
}
