# Weekly Jira keyword digest — verified model

The system is a small scheduled script (`main.py`). It searches Jira for
issues created in the last seven days whose text matches one keyword
(`결제`, "payment"). It renders the issues as a text corpus and asks a chat
model for a summary. It then posts the summary to a Slack webhook.

The only logic of its own is the following:

- the JQL string it sends;
- the per-issue text block and the corpus built from the blocks;
- the `None` returns of the collector, for an empty search and for any exception;
- the falsy-input guards that chain the three stages.

This project models that logic in Dafny as pure functions over immutable
data and proves their laws.

Modules:

- `Wrappers` (`wrappers.dfy`): `Option`, standing for Python's `None` or a value.
- `Text` (`text.dfy`): Python truthiness of an optional string, Python's `s[:n]`, counting of the `---\n` block terminator with its concatenation law, `Concat` (the pieces of a template) and `Join` (what a loop that appends one rendering per item builds).
- `IssueFormat` (`issue_format.dfy`): the `Issue` record, the two Korean sentinels, the assignee and description columns, and the block of one issue.
- `Collector` (`collector.dfy`): the JQL query and its inverse, the search outcome, the corpus, the formatting loop as a method, and `get_jira_issues`.
- `Pipeline` (`pipeline.dfy`): `summarize_with_gpt`, `send_slack_alert` and the `__main__` gating.

Three facts about the code shape the model:

- The code has a single keyword. It has no per-keyword sections, counts or "no results" markers.
- The code renders no dates.
- The code appends `...` to every non-empty description, not only when the description was cut.

Python slices strings by code point. Dafny's `char` is a Unicode scalar
value, so `Take` counts characters the same way.

## Model

| member | source | states |
|---|---|---|
| Text.Truthy | main.py:53 | Python truthiness of `None` or a `str`, as in `if not text_data` and in the tests at main.py lines 41, 85, 111 and 113; its laws are stated by `Pipeline.InnerGuardsRedundant`, `Collector.GetJiraIssues` and `IssueFormat.EmptyDescriptionIsMissing` |
| Text.Take | main.py:41 | Python's `s[:n]`: a prefix of `s` whose length is the smaller of `n` and the length of `s` |
| IssueFormat.RenderAssignee | main.py:39 | an unassigned issue renders the non-empty sentinel `담당자 없음`; an assigned one renders its display name unchanged |
| IssueFormat.RenderDescription | main.py:40-41 | a missing or empty description renders `설명 없음`; otherwise the result has length min(200, length of the description) + 3, its text before the last three characters is a prefix of the description, and it ends in `...` |
| IssueFormat.DescriptionTruncation | main.py:41 | a description of at most 200 characters is kept whole and still gains `...`; a longer one is cut to exactly 200 characters before `...` |
| IssueFormat.EmptyDescriptionIsMissing | main.py:41 | an empty description renders exactly like a missing one |
| IssueFormat.SentinelsAreNotBlank | main.py:39-41 | a missing assignee never renders an empty column, and the description column is never empty |
| IssueFormat.FormatIssue | main.py:37-43 | the block one loop iteration appends for one issue; its contract is stated by `IssueFormat.SpelledOut`, `IssueFormat.BlockShape` and `IssueFormat.BlockTerminatorCount` |
| IssueFormat.SpelledOut | main.py:43 | the block is the f-string of that line: the labels for ID, status (상태), assignee (담당), summary (제목) and description (내용), each followed by its rendered field, then a newline and the `---` line |
| IssueFormat.BlockShape | main.py:37-43 | a block's length is the fixed label overhead plus the lengths of its five rendered fields, and it starts with `ID: ` and the key |
| IssueFormat.BlockEndsWithTerminator | main.py:43 | every block ends with the `---\n` terminator, so its last character is a newline |
| IssueFormat.BlockTerminators | main.py:43 | for any field texts (the description column ending in anything but a dash), the block holds one `---\n` for its closing line plus those in the key, the status, the assignee followed by a line break, the summary followed by a line break, and the description column |
| IssueFormat.DescriptionTerminators | main.py:41 | the description column never ends in a dash, and holds exactly the `---\n` of the kept 200-character prefix; the ellipsis and the sentinel add none |
| IssueFormat.BlockTerminatorCount | main.py:37-43 | for every issue, the block holds exactly 1 + the stray terminators of its fields |
| IssueFormat.OneTerminatorPerBlock | main.py:37-43 | a block holds exactly one `---\n` if and only if its fields bring no stray terminator |
| IssueFormat.InertFieldsHaveNoStrays | main.py:37-43 | fields that are single-line and do not end in a dash bring no stray terminator, which is a sufficient condition only |
| IssueFormat.MultiLineDescriptionKeepsOne | main.py:41-43 | a concrete issue whose description spans two lines still renders exactly one terminator |
| IssueFormat.DashedSummaryTerminators | main.py:43 | a summary that is itself `---` makes a block hold two `---\n` |
| IssueFormat.DashedSummaryAddsTerminator | main.py:43 | a concrete issue (key `PAY-1`, summary `---`, unassigned, no description) whose block holds two terminators |
| Collector.JqlQuery | main.py:25 | the query is the fixed prefix `text ~ "`, then the keyword verbatim, then the fixed suffix `" AND created >= "-7d" ORDER BY created DESC` |
| Collector.KeywordOf | main.py:25 | not a step of the program: the inverse of the query builder, used by `Collector.KeywordRoundTrip` and `Collector.QueryRoundTrip`; it yields a keyword exactly for text that carries the fixed prefix and suffix |
| Collector.KeywordRoundTrip | main.py:25 | reading the keyword back out of a built query returns the keyword, escaping nothing |
| Collector.QueryRoundTrip | main.py:25 | every query of the built shape is rebuilt exactly from the keyword read out of it |
| Collector.JqlQueryInjective | main.py:25 | different keywords give different queries |
| Text.Join | main.py:35-45 | the corpus: the blocks of the issues one after another; its contract is stated by `Collector.BuildIssueText` and the `Join` lemmas below |
| Text.JoinSnoc | main.py:36-43 | appending one more issue to the search result appends exactly its block to the corpus |
| Text.JoinPrefixStep | main.py:36-43 | one loop step: the corpus of the first i + 1 issues is the corpus of the first i followed by the block of issue i |
| Text.JoinAppend | main.py:35-45 | the corpus of two consecutive runs of issues is the concatenation of their corpora |
| Text.JoinInPlace | main.py:35-45 | the i-th issue's block sits whole between the blocks of the issues before it and after it, in search order |
| Collector.CorpusEndsWithTerminator | main.py:35-45 | the corpus of a non-empty search result ends with `---\n` |
| Collector.TerminatorPerIssue | main.py:35-45 | for every search result, the corpus holds exactly one `---\n` per issue plus the stray ones of all fields; no terminator straddles two blocks |
| Collector.NoStraysAnywhere | main.py:35-45 | the fields of a search result bring no stray terminator in total if and only if no issue's fields bring one |
| Collector.ExactlyOneTerminatorPerIssue | main.py:35-45 | the corpus holds exactly as many `---\n` as there are issues if and only if no issue's fields bring a stray one |
| Collector.AtLeastOneTerminatorPerIssue | main.py:35-45 | whatever the fields hold, the corpus holds at least as many `---\n` as there are issues |
| Collector.BuildIssueText | main.py:35-45 | the loop that starts from `""` and appends one block per issue produces exactly the reference corpus `Join(issues, FormatIssue)` |
| Collector.GetJiraIssues | main.py:20-49 | the search is run on the query for `결제`; the result is present exactly when that search succeeded with at least one issue; a present result is truthy and is the corpus of the issues found |
| Collector.FailureLooksLikeNoIssues | main.py:28-49 | a search that raises on the sent query and one that finds nothing both give `None` and cannot be told apart |
| Pipeline.SummarizeWithGpt | main.py:51-81 | falsy input returns `None` before the client is built; truthy input aborts the run when building the client raises, and otherwise returns the completion's answer for that text |
| Pipeline.SendSlackAlert | main.py:83-103 | a post happens exactly when the message is truthy, and it carries that message |
| Pipeline.Main | main.py:106-116 | the summariser is called exactly when the search found issues, and with their corpus; no data means no summary, no post and no abort; the run aborts exactly when the summariser is called and building its client raises, and then nothing is posted; otherwise a post happens exactly when the summary is truthy, and it carries the summary |
| Pipeline.InnerGuardsRedundant | main.py:53-54 | the collected data is truthy exactly when present, and chaining the two stage functions without the outer `if summary:` aborts or posts the same as `__main__` |

## Left out

- Jira client construction and `search_issues` (main.py:23, 26) are network I/O through the Jira SDK. The search is the input `Search`, a function from the JQL query to its outcome: the issues in order, or `Raised`.
- The `max_results=30` cap is the library's promise about the search. Nothing in the model depends on it, so it is not stated.
- Exceptions raised inside the formatting loop, such as a missing attribute, are not modelled separately. Issue records are total. Every exception of the `try` block leads to the same `None` as a raised search.
- Non-string field values, such as a `None` summary that an f-string would print as `None`, are not modelled. Fields are strings.
- The OpenAI client, the prompt text and the model name (main.py:56-81) are an opaque external service. They are modelled by the parameter `client`: `None` when building the client raises, which escapes the function and ends the run, otherwise a `Completion` function. A `Completion` receives the corpus and returns the first choice's content, or `None` when the call raises, as the `try` at main.py:70-81 does.
- The Slack payload, its date header from `datetime.now()`, `requests.post` and `raise_for_status` (main.py:88-103) are I/O, a wall clock and an external HTTP schema. `SendSlackAlert` states only whether a post is made and with which text. A failed post only logs, so it is not modelled.
- Environment-variable loading (main.py:11-15) and every `print` are configuration and logging.
