/**
 * The `create` command (`src/gibr/cli/create.py`): the checks it makes, in
 * order, before it generates a branch name and hands it to git.
 */
module CliCreate {
  import opened Wrappers
  import opened Text
  import opened ConfigDict
  import opened Issues
  import MergeRequests

  /** `value.lower() in ("true", "yes", "1")`: no stripping, no comment handling. */
  predicate ParsePlainFlag(v: string) {
    Lower(v) in TrueWords
  }

  /** Every value this parse accepts, the comment-tolerant parse accepts too. */
  lemma PlainFlagImpliesFlag(v: string)
    requires ParsePlainFlag(v)
    ensures MergeRequests.ParseFlag(v)
  {
    MergeRequests.ParseFlagOfWord(v);
  }

  /** A trailing comment makes a true word false here ... */
  lemma PlainFlagRejectsComment(v: string)
    requires v == "true # x"
    ensures !ParsePlainFlag(v)
  {
    assert |Lower(v)| == 8;
  }

  /** ... while the comment-tolerant parse of the mr settings reads it as true. */
  lemma FlagAcceptsComment()
    ensures MergeRequests.ParseFlag("true" + " " + "#" + " x")
  {
    assert Lower("true") == "true";
    MergeRequests.ParseFlagOfCommentedWord("true", " ", " x");
  }

  /** What the command knows about the configured tracker. */
  datatype TrackerInfo = TrackerInfo(numericIssues: bool, displayName: string)

  /** `BranchName(format).generate(issue)`, which is not part of this model. */
  type BranchGenerator = (string, IssueRecord) -> string

  /** The collaborator calls the command makes, in order. */
  datatype CreateCall =
    | FetchIssue(number: string)
    | Generate(format: string, issue: IssueRecord)
    | CreateAndPush(branch: string, autoPush: bool)

  /** Why the command stops. */
  datatype CreateError =
    | NonNumericIssue(tracker: string)
    | IssueNotFound
    | MissingBranchFormat
    | AssigneeRequired

  /** The branch handed to `create_and_push_branch`. */
  datatype NewBranch = NewBranch(name: string, autoPush: bool)

  /** `translate_titles` of the `DEFAULT` section, which defaults to `"true"`. */
  function TranslateTitles(config: Config): (on: bool)
    ensures "translate_titles" !in GetSection(config, "DEFAULT") ==> on
  {
    assert Lower("true") == "true";
    ParsePlainFlag(GetOr(GetSection(config, "DEFAULT"), "translate_titles", "true"))
  }

  /** `auto_push` of the `DEFAULT` section, which defaults to `"false"`. */
  function AutoPush(config: Config): (on: bool)
    ensures "auto_push" !in GetSection(config, "DEFAULT") ==> !on
  {
    assert Lower("false")[0] == 'f';
    ParsePlainFlag(GetOr(GetSection(config, "DEFAULT"), "auto_push", "false"))
  }

  /** The format asks for an assignee the issue does not have. */
  predicate NeedsAssignee(issue: IssueRecord, format: string) {
    !Truthy(issue.assignee) && Contains(format, "{assignee}")
  }

  /**
   * The assignee check fires exactly for an issue with nobody (or an empty
   * name) assigned and a format that has `{assignee}` somewhere in it.
   */
  lemma NeedsAssigneeSpec(issue: IssueRecord, format: string)
    ensures NeedsAssignee(issue, format)
        <==> (issue.assignee.None? || issue.assignee.value == "") && exists i :: OccursAt(format, "{assignee}", i)
  {
    ContainsSpec(format, "{assignee}");
  }

  /**
   * The `create` command. With `calls` recording the collaborator calls in
   * order: a non-numeric number for a numeric tracker stops before any call;
   * a failed lookup, a missing branch format and a missing assignee the
   * format needs stop before generation; otherwise the name generated for
   * the issue, with `translate` set from the configuration, goes to
   * `create_and_push_branch` with the `auto_push` setting.
   */
  method Create(config: Config, tracker: TrackerInfo, lookup: Tracker, generate: BranchGenerator,
                issueNumber: string)
    returns (outcome: Result<NewBranch, CreateError>, calls: seq<CreateCall>)
    ensures tracker.numericIssues && !IsDigits(issueNumber) ==>
              outcome == Err(NonNumericIssue(tracker.displayName)) && calls == []
    ensures !(tracker.numericIssues && !IsDigits(issueNumber)) ==>
              && |calls| >= 1 && calls[0] == FetchIssue(issueNumber)
              && (lookup(issueNumber).LookupFailed? ==> outcome == Err(IssueNotFound) && calls == [FetchIssue(issueNumber)])
    ensures !(tracker.numericIssues && !IsDigits(issueNumber)) && lookup(issueNumber).Found? ==>
              var issue := lookup(issueNumber).issue.(translate := TranslateTitles(config));
              var section := GetSection(config, "DEFAULT");
              if "branch_name_format" !in section then
                outcome == Err(MissingBranchFormat) && calls == [FetchIssue(issueNumber)]
              else
                var format := section["branch_name_format"];
                if NeedsAssignee(issue, format) then
                  outcome == Err(AssigneeRequired) && calls == [FetchIssue(issueNumber)]
                else
                  var name := generate(format, issue);
                  && outcome == Ok(NewBranch(name, AutoPush(config)))
                  && calls == [FetchIssue(issueNumber), Generate(format, issue),
                               CreateAndPush(name, AutoPush(config))]
  {
    if tracker.numericIssues && !IsDigits(issueNumber) {
      return Err(NonNumericIssue(tracker.displayName)), [];
    }

    var fetch := [FetchIssue(issueNumber)];
    var found := lookup(issueNumber);
    if found.LookupFailed? {
      return Err(IssueNotFound), fetch;
    }
    var issue := new Issue(found.issue);

    var translateEnabled := TranslateTitles(config);
    issue.SetTranslate(translateEnabled);

    var section := GetSection(config, "DEFAULT");
    if "branch_name_format" !in section {
      return Err(MissingBranchFormat), fetch;
    }
    var format := section["branch_name_format"];

    if !Truthy(issue.assignee) && Contains(format, "{assignee}") {
      return Err(AssigneeRequired), fetch;
    }
    var name := generate(format, issue.Record());

    var autoPush := AutoPush(config);
    return Ok(NewBranch(name, autoPush)), fetch + [Generate(format, issue.Record()), CreateAndPush(name, autoPush)];
  }
}
