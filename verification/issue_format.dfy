/**
 The per-issue text block that `get_jira_issues` (main.py) builds for the
 summariser: one three-line record per Jira issue, closed by a `---` line.
 */
module IssueFormat {
  import opened Wrappers
  import opened Text

  /** The fields of a Jira issue that the formatter reads: the issue key, its
      summary, the name of its status, the assignee's display name when the
      issue is assigned, and the description when the issue has one. */
  datatype Issue = Issue(
    key: string,
    summary: string,
    status: string,
    assignee: Option<string>,
    description: Option<string>
  )

  /** Rendered in place of the assignee of an unassigned issue ("no assignee"). */
  const Unassigned: string := "담당자 없음"
  /** Rendered in place of a missing or empty description ("no description"). */
  const NoDescription: string := "설명 없음"
  /** How many characters of a description are kept. */
  const DescriptionBudget: nat := 200
  /** Appended to every rendered description. */
  const Ellipsis: string := "..."

  const IdLabel: string := "ID: "
  const StatusLabel: string := " | 상태: "
  const AssigneeLabel: string := " | 담당: "
  const SummaryLabel: string := "\n제목: "
  const DescriptionLabel: string := "\n내용: "
  /** The end of the description line and the closing `---` line. */
  const BlockEnd: string := "\n" + Terminator

  /** The number of characters a block adds around its five fields. */
  const BlockOverhead: nat :=
    |IdLabel| + |StatusLabel| + |AssigneeLabel| + |SummaryLabel| + |DescriptionLabel| + |BlockEnd|

  /** The assignee column: the display name of an assigned issue, unchanged,
      and the fixed sentinel for an unassigned one. */
  function RenderAssignee(assignee: Option<string>): (r: string)
    ensures assignee.None? ==> r == Unassigned && |r| > 0
    ensures assignee.Some? ==> r == assignee.value
  {
    match assignee
    case Some(name) => name
    case None => Unassigned
  }

  /** The description column: a missing or empty description becomes the
      sentinel; any other keeps its first `DescriptionBudget` characters and
      always gains the ellipsis, whether or not anything was cut. */
  function RenderDescription(description: Option<string>): (r: string)
    ensures !Truthy(description) ==> r == NoDescription
    ensures Truthy(description) ==>
      var d := description.value;
      && |r| == (if |d| < DescriptionBudget then |d| else DescriptionBudget) + |Ellipsis|
      && r[..|r| - |Ellipsis|] <= d
      && r[|r| - |Ellipsis|..] == Ellipsis
  {
    if Truthy(description) then Take(description.value, DescriptionBudget) + Ellipsis
    else NoDescription
  }

  /** The pieces of the block of one issue, in order: each label followed by
      the field it introduces, then the closing `---` line. */
  function BlockPieces(issue: Issue): seq<string>
  {
    [IdLabel, issue.key, StatusLabel, issue.status, AssigneeLabel, RenderAssignee(issue.assignee),
     SummaryLabel, issue.summary, DescriptionLabel, RenderDescription(issue.description), BlockEnd]
  }

  /** The block of one issue:
      `ID: {key} | 상태: {status} | 담당: {assignee}\n제목: {summary}\n내용: {description}\n---\n`.
      It is built from its pieces by `Concat` rather than written as one
      concatenation only to keep the proofs about whole corpora within the
      solver's resource limit; `SpelledOut` gives the concatenation itself. */
  function FormatIssue(issue: Issue): string
  {
    Concat(BlockPieces(issue))
  }

  /** The block of one issue written out piece by piece. */
  lemma SpelledOut(issue: Issue)
    ensures FormatIssue(issue)
      == IdLabel + issue.key + StatusLabel + issue.status + AssigneeLabel + RenderAssignee(issue.assignee)
         + SummaryLabel + issue.summary + DescriptionLabel + RenderDescription(issue.description) + BlockEnd
  {
    ConcatEleven(BlockPieces(issue));
  }

  /** A block is as long as its labels and its five rendered fields together,
      and opens with the issue key. */
  lemma BlockShape(issue: Issue)
    ensures var r := FormatIssue(issue);
      && |r| == BlockOverhead + |issue.key| + |issue.status| + |RenderAssignee(issue.assignee)|
                + |issue.summary| + |RenderDescription(issue.description)|
      && r[..|IdLabel| + |issue.key|] == IdLabel + issue.key
  {
    SpelledOut(issue);
  }

  /** A block closes with the terminator, so its last character is a newline. */
  lemma BlockEndsWithTerminator(issue: Issue)
    ensures var r := FormatIssue(issue);
      && |r| >= |Terminator| && r[|r| - |Terminator|..] == Terminator && r[|r| - 1] == '\n'
  {
    SpelledOut(issue);
  }

  /** A description at or under the budget is kept whole and still gains the
      ellipsis; a longer one is cut to exactly the budget. */
  lemma DescriptionTruncation(d: string)
    requires |d| > 0
    ensures |d| <= DescriptionBudget ==> RenderDescription(Some(d)) == d + Ellipsis
    ensures |d| > DescriptionBudget ==> RenderDescription(Some(d)) == d[..DescriptionBudget] + Ellipsis
  {
  }

  /** An empty description renders exactly like a missing one. */
  lemma EmptyDescriptionIsMissing()
    ensures RenderDescription(Some("")) == RenderDescription(None) == NoDescription
  {
  }

  /** Neither column of a block is ever left blank by a missing value. */
  lemma SentinelsAreNotBlank(issue: Issue)
    ensures issue.assignee.None? ==> |RenderAssignee(issue.assignee)| > 0
    ensures |RenderDescription(issue.description)| > 0
  {
  }

  /** Every field of the issue is single-line and does not end in a dash: a
      sufficient, not a necessary, condition for a block without stray terminators. */
  predicate InertFields(issue: Issue)
  {
    && Inert(issue.key) && Inert(issue.status) && Inert(issue.summary)
    && (issue.assignee.Some? ==> Inert(issue.assignee.value))
    && (issue.description.Some? ==> '\n' !in issue.description.value)
  }

  /** Appending a label and then an inert field adds no terminator when the
      text so far does not end in a dash, and leaves a text that does not end
      in one either. Every label of a block is dash-free and ends in a space. */
  lemma AppendLabelled(text: string, caption: string, field: string)
    requires |text| == 0 || text[|text| - 1] != '-'
    requires '-' !in caption && |caption| > 0 && caption[|caption| - 1] == ' '
    requires Inert(field)
    ensures CountTerminators(text + caption + field) == CountTerminators(text)
    ensures (text + caption + field)[|text + caption + field| - 1] != '-'
  {
    CountAppend(text, caption);
    NoTerminatorWithoutNewlineOrDash(caption);
    var tl := text + caption;
    assert tl[|tl| - 1] == ' ';
    CountAppend(tl, field);
    NoTerminatorWithoutNewlineOrDash(field);
  }

  /** The text of a block up to its summary holds no terminator and ends in
      the space of the summary label. */
  lemma {:induction false} HeadInert(key: string, status: string, assignee: string)
    requires Inert(key) && Inert(status) && Inert(assignee)
    ensures var h := IdLabel + key + StatusLabel + status + AssigneeLabel + assignee + SummaryLabel;
      CountTerminators(h) == 0 && h[|h| - 1] == ' '
  {
    var t1 := IdLabel + key;
    AppendLabelled([], IdLabel, key);
    assert [] + IdLabel + key == t1;
    var t2 := t1 + StatusLabel + status;
    AppendLabelled(t1, StatusLabel, status);
    var t3 := t2 + AssigneeLabel + assignee;
    AppendLabelled(t2, AssigneeLabel, assignee);
    CountAppend(t3, SummaryLabel);
    NoTerminatorWithoutNewlineOrDash(SummaryLabel);
  }

  /** The terminators of a block up to the end of its first line: those of
      the key, of the status, and of the assignee together with the line
      break after it. No label contributes one, and no terminator straddles
      a label, because every label starts and ends with a space. */
  lemma {:induction false} FirstLineTerminators(key: string, status: string, assignee: string)
    ensures var h := IdLabel + key + StatusLabel + status + AssigneeLabel + (assignee + "\n");
      && CountTerminators(h)
         == CountTerminators(key) + CountTerminators(status) + CountTerminators(assignee + "\n")
      && h[|h| - 1] == '\n'
  {
    NoTerminatorWithoutNewlineOrDash(IdLabel);
    NoTerminatorWithoutNewlineOrDash(StatusLabel);
    NoTerminatorWithoutNewlineOrDash(AssigneeLabel);
    assert IdLabel[|IdLabel| - 1] == ' ' && StatusLabel[0] == ' ' && AssigneeLabel[0] == ' ';
    var t1 := IdLabel + key;
    CountAppend(IdLabel, key);
    var t2 := t1 + StatusLabel;
    CountAppend(t1, StatusLabel);
    var t3 := t2 + status;
    assert t2[|t2| - 1] == ' ';
    CountAppend(t2, status);
    var t4 := t3 + AssigneeLabel;
    CountAppend(t3, AssigneeLabel);
    assert t4[|t4| - 1] == ' ';
    CountAppend(t4, assignee + "\n");
  }

  /** The terminators of the rest of a block: those of the summary together
      with the line break after it, those of the description column, and the
      closing line. */
  lemma {:induction false} LaterLinesTerminators(h: string, summary: string, description: string)
    requires |h| > 0 && h[|h| - 1] == '\n'
    requires |description| > 0 && description[|description| - 1] != '-'
    ensures CountTerminators(h + SummaryLabel[1..] + (summary + "\n") + DescriptionLabel[1..] + description + BlockEnd)
         == CountTerminators(h) + CountTerminators(summary + "\n") + CountTerminators(description) + 1
  {
    var s, d := SummaryLabel[1..], DescriptionLabel[1..];
    NoTerminatorWithoutNewlineOrDash(s);
    NoTerminatorWithoutNewlineOrDash(d);
    assert s[0] != '-' && s[|s| - 1] == ' ' && d[0] != '-' && d[|d| - 1] == ' ';
    var t5 := h + s;
    CountAppend(h, s);
    var t6 := t5 + (summary + "\n");
    CountAppend(t5, summary + "\n");
    var t7 := t6 + d;
    assert t6[|t6| - 1] == '\n';
    CountAppend(t6, d);
    var t8 := t7 + description;
    assert t7[|t7| - 1] == ' ';
    CountAppend(t7, description);
    assert t8[|t8| - 1] == description[|description| - 1];
    CountAppend(t8, BlockEnd);
    assert BlockEnd[1..] == Terminator;
    assert CountTerminators(BlockEnd) == 1 + CountTerminators(Terminator[1..]);
  }

  /** The block text split after the line breaks that end the assignee and
      the summary lines. */
  lemma Regrouped(key: string, status: string, assignee: string, summary: string, description: string)
    ensures (IdLabel + key + StatusLabel + status + AssigneeLabel + (assignee + "\n"))
            + SummaryLabel[1..] + (summary + "\n") + DescriptionLabel[1..] + description + BlockEnd
         == IdLabel + key + StatusLabel + status + AssigneeLabel + assignee
            + SummaryLabel + summary + DescriptionLabel + description + BlockEnd
  {
    assert SummaryLabel == "\n" + SummaryLabel[1..];
    assert DescriptionLabel == "\n" + DescriptionLabel[1..];
  }

  /** Counting the terminators of a block, field by field: the closing line
      plus whatever the fields bring. */
  lemma {:induction false} BlockTerminators(key: string, status: string, assignee: string,
                                            summary: string, description: string)
    requires |description| > 0 && description[|description| - 1] != '-'
    ensures CountTerminators(IdLabel + key + StatusLabel + status + AssigneeLabel + assignee
                             + SummaryLabel + summary + DescriptionLabel + description + BlockEnd)
         == 1 + CountTerminators(key) + CountTerminators(status) + CountTerminators(assignee + "\n")
              + CountTerminators(summary + "\n") + CountTerminators(description)
  {
    FirstLineTerminators(key, status, assignee);
    LaterLinesTerminators(IdLabel + key + StatusLabel + status + AssigneeLabel + (assignee + "\n"),
                          summary, description);
    Regrouped(key, status, assignee, summary, description);
  }

  /** The description column never ends in a dash, and its terminators are
      those of the kept prefix of the description: the ellipsis and the
      sentinel hold none. */
  lemma DescriptionTerminators(description: Option<string>)
    ensures var r := RenderDescription(description);
      && |r| > 0 && r[|r| - 1] != '-'
      && CountTerminators(r)
         == if Truthy(description) then CountTerminators(Take(description.value, DescriptionBudget)) else 0
  {
    NoTerminatorWithoutNewlineOrDash(Ellipsis);
    NoTerminatorWithoutNewlineOrDash(NoDescription);
    if Truthy(description) {
      assert Ellipsis[0] == '.';
      CountAppend(Take(description.value, DescriptionBudget), Ellipsis);
    }
  }

  /** The terminators the fields of an issue put into its block besides the
      closing line. A terminator can sit inside the key, the status or the kept
      part of the description; the assignee and the summary are counted with
      the line break that follows them, since one ending in `---` closes its
      own line with a terminator. */
  function StrayTerminators(issue: Issue): nat
  {
    CountTerminators(issue.key) + CountTerminators(issue.status)
    + CountTerminators(RenderAssignee(issue.assignee) + "\n") + CountTerminators(issue.summary + "\n")
    + (if Truthy(issue.description) then CountTerminators(Take(issue.description.value, DescriptionBudget)) else 0)
  }

  /** The exact number of terminators in a block: its closing line plus the
      stray ones of its fields. */
  lemma BlockTerminatorCount(issue: Issue)
    ensures CountTerminators(FormatIssue(issue)) == 1 + StrayTerminators(issue)
  {
    DescriptionTerminators(issue.description);
    SpelledOut(issue);
    BlockTerminators(issue.key, issue.status, RenderAssignee(issue.assignee),
                     issue.summary, RenderDescription(issue.description));
  }

  /** A block holds exactly one terminator, its last line, exactly when its
      fields bring none of their own. */
  lemma OneTerminatorPerBlock(issue: Issue)
    ensures CountTerminators(FormatIssue(issue)) == 1 <==> StrayTerminators(issue) == 0
  {
    BlockTerminatorCount(issue);
  }

  /** A single-line text that does not end in a dash holds no terminator even
      with a line break after it. */
  lemma InertLine(s: string)
    requires Inert(s)
    ensures CountTerminators(s + "\n") == 0
  {
    NoTerminatorWithoutNewlineOrDash(s);
    NoTerminatorWithoutNewlineOrDash("\n");
    CountAppend(s, "\n");
  }

  /** Single-line fields that do not end in a dash bring no stray terminator. */
  lemma InertFieldsHaveNoStrays(issue: Issue)
    requires InertFields(issue)
    ensures StrayTerminators(issue) == 0
  {
    NoTerminatorWithoutNewlineOrDash(issue.key);
    NoTerminatorWithoutNewlineOrDash(issue.status);
    assert Inert(Unassigned);
    InertLine(RenderAssignee(issue.assignee));
    InertLine(issue.summary);
    if Truthy(issue.description) {
      var t := Take(issue.description.value, DescriptionBudget);
      assert forall c :: c in t ==> c in issue.description.value;
      NoTerminatorWithoutNewlineOrDash(t);
    }
  }

  /** Being inert is more than a block needs: a description of several lines
      still leaves one terminator. */
  lemma MultiLineDescriptionKeepsOne()
    ensures CountTerminators(FormatIssue(Issue("PAY-2", "s", "Open", None, Some("a\nb")))) == 1
  {
    var issue := Issue("PAY-2", "s", "Open", None, Some("a\nb"));
    NoTerminatorWithoutNewlineOrDash(issue.key);
    NoTerminatorWithoutNewlineOrDash(issue.status);
    assert Inert(Unassigned);
    InertLine(Unassigned);
    assert Inert("s");
    InertLine("s");
    assert Take("a\nb", DescriptionBudget) == "a\nb";
    BlockTerminatorCount(issue);
  }


  /** After a head without terminators, a `---` summary line and the rest of
      the block hold two. */
  lemma {:induction false} DashedTail(h: string, description: string)
    requires CountTerminators(h) == 0 && |h| > 0 && h[|h| - 1] == ' '
    requires Inert(description)
    ensures CountTerminators((h + Terminator) + (DescriptionLabel[1..] + description) + BlockEnd) == 2
  {
    var ht := h + Terminator;
    CountAppend(h, Terminator);
    assert Terminator[1..][1..][1..][1..] == [];
    var body := DescriptionLabel[1..] + description;
    assert '\n' !in DescriptionLabel[1..];
    var htb := ht + body;
    CountAppend(ht, body);
    NoTerminatorWithoutNewlineOrDash(body);
    CountAppend(htb, BlockEnd);
    assert BlockEnd[1..] == Terminator;
    assert CountTerminators(BlockEnd) == 1 + CountTerminators(Terminator[1..]);
  }

  /** A summary that is itself `---` puts a second terminator into a block
      whose other fields are inert. */
  lemma DashedSummaryTerminators(key: string, status: string, assignee: string, description: string)
    requires Inert(key) && Inert(status) && Inert(assignee) && Inert(description)
    ensures CountTerminators(IdLabel + key + StatusLabel + status + AssigneeLabel + assignee
                             + SummaryLabel + "---" + DescriptionLabel + description + BlockEnd) == 2
  {
    HeadInert(key, status, assignee);
    DashedTail(IdLabel + key + StatusLabel + status + AssigneeLabel + assignee + SummaryLabel, description);
    DashedSummaryShape(key, status, assignee, description);
  }

  /** A `---` summary closes its line with a terminator: the block splits
      right after it. */
  lemma DashedSummaryShape(key: string, status: string, assignee: string, description: string)
    ensures
      var h := IdLabel + key + StatusLabel + status + AssigneeLabel + assignee + SummaryLabel;
      (h + Terminator) + (DescriptionLabel[1..] + description) + BlockEnd
      == IdLabel + key + StatusLabel + status + AssigneeLabel + assignee
         + SummaryLabel + "---" + DescriptionLabel + description + BlockEnd
  {
    var h := IdLabel + key + StatusLabel + status + AssigneeLabel + assignee + SummaryLabel;
    assert "---" + DescriptionLabel == Terminator + DescriptionLabel[1..];
    assert (h + Terminator) + (DescriptionLabel[1..] + description) + BlockEnd
        == h + ("---" + DescriptionLabel) + description + BlockEnd;
  }

  /** So without the hypothesis the count per block can exceed one: an
      unassigned issue without a description whose summary is `---`. */
  lemma DashedSummaryAddsTerminator()
    ensures CountTerminators(FormatIssue(Issue("PAY-1", "---", "Open", None, None))) == 2
  {
    assert Inert("PAY-1") && Inert("Open");
    assert Inert(Unassigned) && Inert(NoDescription);
    SpelledOut(Issue("PAY-1", "---", "Open", None, None));
    DashedSummaryTerminators("PAY-1", "Open", Unassigned, NoDescription);
  }
}
