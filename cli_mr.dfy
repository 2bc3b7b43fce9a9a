/**
 * The `mr` command (`src/gibr/cli/mr.py`): recovering an issue key from the
 * branch name, and the decisions the command takes between reading the
 * configuration and asking GitLab for the merge request.
 */
module CliMr {
  import opened Wrappers
  import opened Text
  import opened ConfigDict
  import opened Translate
  import opened Issues
  import opened MergeRequests

  // ---------------------------------------------------------------------
  // Issue keys: [A-Z][A-Z0-9_]*-\d+
  // ---------------------------------------------------------------------

  predicate IsKeyChar(c: char) { IsUpper(c) || IsDigit(c) || c == '_' }

  /**
   * `w` as a whole matches `[A-Z][A-Z0-9_]*-\d+`: an upper-case letter,
   * key characters, the dash at `e`, and at least one digit after it.
   */
  ghost predicate IsIssueKey(w: string) {
    exists e :: 1 <= e < |w| - 1 && w[e] == '-' && IsKeyShape(w, e)
  }

  ghost predicate IsKeyShape(w: string, e: int)
    requires 1 <= e < |w| - 1
  {
    && IsUpper(w[0])
    && (forall k :: 1 <= k < e ==> IsKeyChar(w[k]))
    && (forall k :: e < k < |w| ==> IsDigit(w[k]))
  }

  /** Some match of the pattern starts at `st`. */
  ghost predicate KeyAt(s: string, st: int) {
    exists en :: 0 <= st < en <= |s| && IsIssueKey(s[st..en])
  }

  /**
   * `s[st..en]` is what `re.search` returns: a match at the leftmost start
   * that admits one, with a maximal digit run.
   */
  ghost predicate LeftmostMatch(s: string, st: int, en: int) {
    && 0 <= st < en <= |s|
    && IsIssueKey(s[st..en])
    && (en == |s| || !IsDigit(s[en]))
    && (forall i :: 0 <= i < st ==> !KeyAt(s, i))
  }

  /** End of the run of key characters starting at `i`. */
  function KeyRunEnd(s: string, i: nat): (r: nat)
    requires i <= |s|
    ensures i <= r <= |s|
    ensures forall k :: i <= k < r ==> IsKeyChar(s[k])
    ensures r < |s| ==> !IsKeyChar(s[r])
    decreases |s| - i
  {
    if i == |s| || !IsKeyChar(s[i]) then i else KeyRunEnd(s, i + 1)
  }

  /** End of the run of digits starting at `i`. */
  function DigitRunEnd(s: string, i: nat): (r: nat)
    requires i <= |s|
    ensures i <= r <= |s|
    ensures forall k :: i <= k < r ==> IsDigit(s[k])
    ensures r < |s| ==> !IsDigit(s[r])
    decreases |s| - i
  {
    if i == |s| || !IsDigit(s[i]) then i else DigitRunEnd(s, i + 1)
  }

  /** The end of the greedy match starting at `st`, if one starts there. */
  function KeyEndAt(s: string, st: nat): (r: Option<nat>)
    requires st < |s|
    ensures r.Some? ==> st < r.value <= |s| && IsIssueKey(s[st..r.value])
    ensures r.Some? ==> r.value == |s| || !IsDigit(s[r.value])
  {
    if !IsUpper(s[st]) then None
    else
      var e := KeyRunEnd(s, st + 1);
      if e + 1 < |s| && s[e] == '-' && IsDigit(s[e + 1]) then
        var en := DigitRunEnd(s, e + 1);
        assert s[st..en][e - st] == '-' && IsKeyShape(s[st..en], e - st);
        Some(en)
      else None
  }

  /** Wherever a match starts, the greedy scan finds one. */
  lemma KeyEndAtComplete(s: string, st: nat)
    requires st < |s| && KeyAt(s, st)
    ensures KeyEndAt(s, st).Some?
  {
    var en :| st < en <= |s| && IsIssueKey(s[st..en]);
    var w := s[st..en];
    var e :| 1 <= e < |w| - 1 && w[e] == '-' && IsKeyShape(w, e);
    KeyRunOfMatch(s, st, en, e);
    assert IsDigit(s[st + e + 1]) by { assert w[e + 1] == s[st + e + 1]; }
    assert IsUpper(s[st]) by { assert w[0] == s[st]; }
  }

  lemma KeyEndAtSpec(s: string, st: nat)
    requires st < |s|
    ensures KeyEndAt(s, st).Some? <==> KeyAt(s, st)
  {
    if KeyAt(s, st) {
      KeyEndAtComplete(s, st);
    }
  }

  /** The leftmost match at or after `i`, as start and end. */
  function SearchFrom(s: string, i: nat): (r: Option<(nat, nat)>)
    requires i <= |s|
    ensures r.None? ==> forall st :: i <= st < |s| ==> !KeyAt(s, st)
    ensures r.Some? ==> && i <= r.value.0 < r.value.1 <= |s|
                        && KeyEndAt(s, r.value.0) == Some(r.value.1)
                        && (forall st :: i <= st < r.value.0 ==> !KeyAt(s, st))
    decreases |s| - i
  {
    if i == |s| then None
    else
      KeyEndAtSpec(s, i);
      match KeyEndAt(s, i)
      case Some(en) => Some((i, en))
      case None => SearchFrom(s, i + 1)
  }

  /**
   * `extract_issue_id_from_branch`: the first issue key in the branch name,
   * or `None` when no substring has the key's shape.
   */
  function ExtractIssueId(branch: string): (r: Option<string>)
    ensures r.None? <==> forall st, en :: 0 <= st < en <= |branch| ==> !IsIssueKey(branch[st..en])
    ensures r.Some? ==> exists st, en :: LeftmostMatch(branch, st, en) && r.value == branch[st..en]
  {
    match SearchFrom(branch, 0)
    case None =>
      assert forall st, en :: 0 <= st < en <= |branch| && IsIssueKey(branch[st..en]) ==> KeyAt(branch, st);
      None
    case Some(m) =>
      assert LeftmostMatch(branch, m.0, m.1);
      Some(branch[m.0..m.1])
  }

  /** A maximal match starting at `st` is exactly the one the greedy scan finds. */
  lemma KeyEndAtExact(s: string, st: nat, en: nat)
    requires st < en <= |s| && IsIssueKey(s[st..en]) && (en == |s| || !IsDigit(s[en]))
    ensures KeyEndAt(s, st) == Some(en)
  {
    var w := s[st..en];
    var e :| 1 <= e < |w| - 1 && w[e] == '-' && IsKeyShape(w, e);
    KeyRunOfMatch(s, st, en, e);
    DigitRunOfMatch(s, st, en, e);
    assert IsUpper(s[st]) by { assert w[0] == s[st]; }
  }

  lemma KeyRunOfMatch(s: string, st: nat, en: nat, e: nat)
    requires st < en <= |s| && 1 <= e < en - st - 1
    requires s[st..en][e] == '-' && IsKeyShape(s[st..en], e)
    ensures KeyRunEnd(s, st + 1) == st + e && s[st + e] == '-'
  {
    var w := s[st..en];
    forall k | st + 1 <= k < st + e ensures IsKeyChar(s[k]) {
      assert s[k] == w[k - st];
    }
    assert s[st + e] == w[e];
  }

  lemma DigitRunOfMatch(s: string, st: nat, en: nat, e: nat)
    requires st < en <= |s| && 1 <= e < en - st - 1 && (en == |s| || !IsDigit(s[en]))
    requires s[st..en][e] == '-' && IsKeyShape(s[st..en], e)
    ensures st + e + 1 < |s| && IsDigit(s[st + e + 1]) && DigitRunEnd(s, st + e + 1) == en
  {
    var w := s[st..en];
    forall k | st + e < k < en ensures IsDigit(s[k]) {
      assert s[k] == w[k - st];
    }
  }

  /** There is only one leftmost, maximal match. */
  lemma LeftmostMatchUnique(s: string, st1: int, en1: int, st2: int, en2: int)
    requires LeftmostMatch(s, st1, en1) && LeftmostMatch(s, st2, en2)
    ensures st1 == st2 && en1 == en2
  {
    assert KeyAt(s, st1) && KeyAt(s, st2);
    KeyEndAtExact(s, st1, en1);
    KeyEndAtExact(s, st2, en2);
  }

  /** A match can only start at an upper-case letter. */
  lemma KeyAtStartsUpper(s: string, st: int)
    requires KeyAt(s, st)
    ensures IsUpper(s[st])
  {
    var en :| 0 <= st < en <= |s| && IsIssueKey(s[st..en]);
    var e :| 1 <= e < |s[st..en]| - 1 && s[st..en][e] == '-' && IsKeyShape(s[st..en], e);
    assert s[st..en][0] == s[st];
  }

  /**
   * A key preceded only by characters that are not upper-case letters, and
   * not followed by a digit, is the key the branch yields.
   */
  lemma KeyAfterPlainPrefix(pre: string, key: string, rest: string)
    requires forall i :: 0 <= i < |pre| ==> !IsUpper(pre[i])
    requires IsIssueKey(key) && (rest == [] || !IsDigit(rest[0]))
    ensures ExtractIssueId(pre + key + rest) == Some(key)
  {
    var s := pre + key + rest;
    var st, en := |pre|, |pre| + |key|;
    assert s[st..en] == key;
    assert en == |s| || s[en] == rest[0];
    forall i | 0 <= i < st ensures !KeyAt(s, i) {
      assert s[i] == pre[i];
      if KeyAt(s, i) {
        KeyAtStartsUpper(s, i);
      }
    }
    assert LeftmostMatch(s, st, en);
    var r := ExtractIssueId(s);
    var st', en' :| LeftmostMatch(s, st', en') && r.value == s[st'..en'];
    LeftmostMatchUnique(s, st, en, st', en');
  }

  /** A branch without an upper-case letter has no issue key. */
  lemma NoUpperCaseNoKey(branch: string)
    requires forall i :: 0 <= i < |branch| ==> !IsUpper(branch[i])
    ensures ExtractIssueId(branch) == None
  {
    forall st, en | 0 <= st < en <= |branch| ensures !IsIssueKey(branch[st..en]) {
      if IsIssueKey(branch[st..en]) {
        KeyAtStartsUpper(branch, st);
      }
    }
  }

  // The branch names documented at src/gibr/cli/mr.py:17-20.

  lemma JiraKeyExample()
    ensures ExtractIssueId([] + "NPDEVOPS-1929" + "-description") == Some("NPDEVOPS-1929")
  {
    assert "NPDEVOPS-1929"[8] == '-' && IsKeyShape("NPDEVOPS-1929", 8);
    KeyAfterPlainPrefix([], "NPDEVOPS-1929", "-description");
  }

  lemma ShortKeyExample()
    ensures ExtractIssueId([] + "FOO-123" + "-some-feature") == Some("FOO-123")
  {
    assert "FOO-123"[3] == '-' && IsKeyShape("FOO-123", 3);
    KeyAfterPlainPrefix([], "FOO-123", "-some-feature");
  }

  lemma PrefixedKeyExample()
    ensures ExtractIssueId("prefix/" + "PROJ-456" + "/description") == Some("PROJ-456")
  {
    assert "PROJ-456"[4] == '-' && IsKeyShape("PROJ-456", 4);
    KeyAfterPlainPrefix("prefix/", "PROJ-456", "/description");
  }

  lemma NoKeyExample(branch: string)
    requires branch == "no-issue-here"
    ensures ExtractIssueId(branch) == None
  {
    NoUpperCaseNoKey(branch);
  }

  // ---------------------------------------------------------------------
  // The decisions of the mr command
  // ---------------------------------------------------------------------

  /**
   * Whether the source branch is kept: the command-line flag when given,
   * otherwise the comment-tolerant `keep_source` value of `gitlab_mr`,
   * which defaults to `"false"`.
   */
  function ResolveKeepSource(cli: Option<bool>, config: Config): (keep: bool)
    ensures cli.Some? ==> keep == cli.value
    ensures cli.None? ==> keep == ParseFlag(GetOr(GetSection(config, "gitlab_mr"), "keep_source", "false"))
  {
    match cli
    case Some(b) => b
    case None => ParseFlag(GetOr(GetSection(config, "gitlab_mr"), "keep_source", "false"))
  }

  /** Without a flag or a setting the source branch is removed. */
  lemma KeepSourceDefaultsToRemove(config: Config)
    requires "keep_source" !in GetSection(config, "gitlab_mr")
    ensures !ResolveKeepSource(None, config)
  {
    DefaultFlagIsOff("false");
  }

  /** The title of the issue the branch names, as the command formats it. */
  function IssueTitle(issue: IssueRecord, translator: Translator): (t: string)
    ensures |t| >= |issue.id| + 2 && t[..|issue.id| + 2] == issue.id + ": "
  {
    issue.id + ": " + AutoTranslateIfNeeded(issue.title, translator)
  }

  /**
   * The title handed to `create_merge_request`. A truthy title is kept. A
   * falsy one is replaced by the title of the issue the branch names when
   * the tracker finds it, becomes `None` when the lookup fails, and stays as
   * it was when the branch names no issue.
   */
  function ResolveTitle(title: Option<string>, branch: string, tracker: Tracker,
                        translator: Translator): (r: Option<string>)
    ensures Truthy(title) ==> r == title
    ensures !Truthy(title) && ExtractIssueId(branch).None? ==> r == title
    ensures !Truthy(title) && ExtractIssueId(branch).Some? ==>
              match tracker(ExtractIssueId(branch).value)
              case Found(issue) => r == Some(IssueTitle(issue, translator))
              case LookupFailed => r == None
  {
    if Truthy(title) then title
    else
      match ExtractIssueId(branch)
      case None => title
      case Some(key) =>
        match tracker(key)
        case Found(issue) => Some(IssueTitle(issue, translator))
        case LookupFailed => None
  }

  /** An explicit title is used whatever the tracker and the translator would say. */
  lemma ExplicitTitleIgnoresTracker(title: Option<string>, branch: string, t1: Tracker, t2: Tracker,
                                    tr1: Translator, tr2: Translator)
    requires Truthy(title)
    ensures ResolveTitle(title, branch, t1, tr1) == ResolveTitle(title, branch, t2, tr2) == title
  {
  }

  /** A branch that names no issue leaves the tracker out of the title. */
  lemma NoKeyIgnoresTracker(title: Option<string>, branch: string, t1: Tracker, t2: Tracker,
                            tr1: Translator, tr2: Translator)
    requires ExtractIssueId(branch).None?
    ensures ResolveTitle(title, branch, t1, tr1) == ResolveTitle(title, branch, t2, tr2)
  {
  }

  /** An issue title without Cyrillic letters is used as the tracker reports it. */
  lemma IssueTitleOfPlainText(issue: IssueRecord, translator: Translator)
    requires !DetectCyrillic(issue.title)
    ensures IssueTitle(issue, translator) == issue.id + ": " + issue.title
  {
  }

  /**
   * The title of the request the command sends: never empty for a non-empty
   * branch, and the default title of the branch whenever the lookup fails.
   */
  lemma RequestTitle(mr: GitLabMR, title: Option<string>, branch: string, target: Option<string>,
                     description: string, removeSource: bool, tracker: Tracker, translator: Translator)
    ensures var req := mr.CreateMergeRequest(branch, target, ResolveTitle(title, branch, tracker, translator),
                                             description, removeSource);
            && (branch != [] ==> req.title != [])
            && ((!Truthy(title) && ExtractIssueId(branch).Some?
                 && tracker(ExtractIssueId(branch).value).LookupFailed?) ==> req.title == DefaultTitle(branch))
            && (!Truthy(title) && ExtractIssueId(branch).None? ==> req.title == DefaultTitle(branch))
  {
    if branch != [] {
      CreateMergeRequestHasTitle(mr, branch, target, ResolveTitle(title, branch, tracker, translator),
                                 description, removeSource);
    }
  }

  // ---------------------------------------------------------------------
  // The command
  // ---------------------------------------------------------------------

  /** The current checkout: a branch, or a detached HEAD. */
  datatype Head = OnBranch(name: string) | Detached

  /** The collaborator calls the command makes, in order. */
  datatype MrCall =
    | Connect(settings: Settings)
    | Push(branch: string)
    | GetIssue(key: string)
    | CreateMr(request: MrRequest)

  /** Why the command stops. */
  datatype MrError =
    | BadConfig(reason: ConfigError)
    | ConnectFailed
    | DetachedHead
    | PushFailed(branch: string)
    | CreateFailed

  /** The options of the command. */
  datatype MrOptions = MrOptions(target: Option<string>, title: Option<string>, description: string,
                                 noPush: bool, keepSource: Option<bool>)

  /**
   * What the systems around the command answer: the first URL of `origin`,
   * the default branch GitLab reports for given settings (None when it cannot
   * be reached), the checkout, whether a push succeeds, the tracker, the
   * translator, and whether GitLab accepts the merge request.
   */
  datatype World = World(remoteUrl: Option<string>, server: Settings -> Option<string>, head: Head,
                         pushOk: bool, tracker: Tracker, translator: Translator, createOk: bool)

  /** The lookup the command makes for a branch when no title is given. */
  function LookupCalls(title: Option<string>, branch: string): (calls: seq<MrCall>)
    ensures |calls| <= 1
    ensures calls != [] <==> !Truthy(title) && ExtractIssueId(branch).Some?
    ensures calls != [] ==> calls[0] == GetIssue(ExtractIssueId(branch).value)
  {
    if !Truthy(title) && ExtractIssueId(branch).Some? then [GetIssue(ExtractIssueId(branch).value)] else []
  }

  /**
   * The `mr` command. It reads the settings, connects, resolves keep-source,
   * finds (and unless told otherwise pushes) the current branch, resolves
   * the title, and asks GitLab for the merge request; `calls` records the
   * collaborator calls in order.
   */
  method Mr(config: Config, options: MrOptions, world: World)
    returns (outcome: Result<MrRequest, MrError>, calls: seq<MrCall>)
    ensures FromConfig(config, world.remoteUrl).Err? ==>
              outcome == Err(BadConfig(FromConfig(config, world.remoteUrl).error)) && calls == []
    ensures FromConfig(config, world.remoteUrl).Ok? ==>
              var settings := FromConfig(config, world.remoteUrl).value;
              if world.server(settings).None? then
                outcome == Err(ConnectFailed) && calls == [Connect(settings)]
              else if world.head.Detached? then
                outcome == Err(DetachedHead) && calls == [Connect(settings)]
              else
                var branch := world.head.name;
                if !options.noPush && !world.pushOk then
                  outcome == Err(PushFailed(branch)) && calls == [Connect(settings), Push(branch)]
                else
                  var mr := GitLabMR(settings.url, settings.project, settings.insecure,
                                     world.server(settings).value);
                  var req := mr.CreateMergeRequest(
                    branch, options.target,
                    ResolveTitle(options.title, branch, world.tracker, world.translator),
                    options.description, !ResolveKeepSource(options.keepSource, config));
                  && calls == [Connect(settings)] + (if options.noPush then [] else [Push(branch)])
                              + LookupCalls(options.title, branch) + [CreateMr(req)]
                  && outcome == (if world.createOk then Ok(req) else Err(CreateFailed))
  {
    var settings := FromConfig(config, world.remoteUrl);
    if settings.Err? {
      return Err(BadConfig(settings.error)), [];
    }
    var connect := [Connect(settings.value)];
    var defaultBranch := world.server(settings.value);
    if defaultBranch.None? {
      return Err(ConnectFailed), connect;
    }
    var mr := GitLabMR(settings.value.url, settings.value.project, settings.value.insecure,
                       defaultBranch.value);

    var keepSource := ResolveKeepSource(options.keepSource, config);

    if world.head.Detached? {
      return Err(DetachedHead), connect;
    }
    var branch := world.head.name;
    var push: seq<MrCall> := [];
    if !options.noPush {
      push := [Push(branch)];
      if !world.pushOk {
        return Err(PushFailed(branch)), connect + push;
      }
    }

    var title := options.title;
    var lookup: seq<MrCall> := [];
    if !Truthy(title) {
      var key := ExtractIssueId(branch);
      if key.Some? {
        lookup := [GetIssue(key.value)];
        match world.tracker(key.value)
        case Found(issue) =>
          title := Some(IssueTitle(issue, world.translator));
        case LookupFailed =>
          title := None;
      }
    }
    assert title == ResolveTitle(options.title, branch, world.tracker, world.translator);
    assert lookup == LookupCalls(options.title, branch);

    var req := mr.CreateMergeRequest(branch, options.target, title, options.description, !keepSource);
    calls := connect + push + lookup + [CreateMr(req)];
    if !world.createOk {
      return Err(CreateFailed), calls;
    }
    return Ok(req), calls;
  }
}
