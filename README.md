# gibr: branch and merge-request helpers, modelled in Dafny

gibr is a command-line tool. It creates git branches named after tracker
issues, and it opens GitLab merge requests for the current branch. This
project models its string and decision layer and proves properties of it:

- the Cyrillic-gated translation of issue titles (`src/gibr/translate.py`);
- the URL parser that finds the GitLab project path of the `origin` remote;
- the boolean parse of configuration values that tolerates inline comments;
- the defaults `create_merge_request` fills in for the target branch and
  the title;
- the checks `from_config` makes (`src/gibr/mr.py`);
- the issue-key scan of branch names and the decisions of the `mr`
  command (`src/gibr/cli/mr.py`);
- the ordered guards of the `create` command (`src/gibr/cli/create.py`).

The collaborators become inputs:

- The translator is a function from (source language, text) to
  `Option<string>`. `None` is any failure.
- The issue tracker is a function from an issue key or number to
  `Found(issue)` or `LookupFailed`.
- GitLab is a function from the settings to the project's default branch.
  `None` means it cannot be reached.
- The git checkout is a `Head` value: a branch, or a detached HEAD.
- The success of a push, and of creating the merge request, are booleans.
- `BranchName.generate` is a function from (format, issue) to a branch name.

`error(...)` from `gibr.notify` never returns. Every call to it becomes an
`Err` outcome of the operation that makes it. The two commands, `Mr` and
`Create`, return both an outcome and the ordered list of collaborator calls
they made. Their contracts can therefore say, for example, that the tracker
is not asked when a title is given, or that nothing happens before the
numeric check.

Files:

- `wrappers.dfy`: `Option` and `Result`.
- `text.dfy`: the Python string operations the core uses. `strip` uses
  Python's full whitespace set. `lower`, `title` and `isdigit` are over ASCII.
- `config.dfy`: the configuration as a map of sections.
- `translate.dfy`: `translate.py`.
- `remote.dfy` (the URL parser) and `remote_examples.dfy` (the URL shapes
  its docstring documents).
- `gitlab_mr.dfy`: the rest of `mr.py`.
- `issue.dfy`: the issue record and the `Issue` object.
- `cli_mr.dfy` and `cli_create.dfy`: the two commands.

## Model

| member | source | states |
|---|---|---|
| Translate.DetectCyrillic | src/gibr/translate.py:9-19 | true exactly when some character of the text is in U+0410..U+044F or is U+0401 or U+0451 |
| Translate.TranslateToEnglish | src/gibr/translate.py:22-42 | blank text comes back unchanged; otherwise the translation, or the original text when the translator fails |
| Translate.AutoTranslateIfNeeded | src/gibr/translate.py:45-61 | text without the Cyrillic class comes back unchanged; Cyrillic text gets the translator's answer from "ru", or itself on failure |
| Translate.CyrillicIsNotBlank | src/gibr/translate.py:18-19 | text with a Cyrillic letter is never blank, so it always reaches the translator |
| Translate.AsciiIsNotCyrillic | src/gibr/translate.py:18 | ASCII-only text is never detected as Cyrillic |
| Translate.UkrainianLettersAreNotDetected | src/gibr/translate.py:18 | the Ukrainian letters і ї є І Ї Є are outside the class |
| Translate.BlankTextIgnoresTranslator | src/gibr/translate.py:32-33 | for blank text, any two translators give the same answer: the text itself |
| Translate.FailedTranslationKeepsText | src/gibr/translate.py:40-42 | a failing translator gives back the original text |
| Translate.NonCyrillicIgnoresTranslator | src/gibr/translate.py:54-61 | text without the class is returned unchanged, and any two translators agree on it |
| Translate.AutoTranslateIdempotent | src/gibr/translate.py:57-61 | applying the gate twice equals applying it once when its first answer has no Cyrillic letter |
| Translate.CyrillicTextIsTranslated | src/gibr/translate.py:57-59 | Cyrillic text yields exactly `translate_to_english(text)`: the translation, or the text on failure |
| Text.Strip | src/gibr/mr.py:202 | `str.strip()` with Python's whitespace set: the result neither starts nor ends with whitespace and holds only characters of the input |
| Text.StripIgnoresSurroundingSpace | src/gibr/mr.py:202 | whitespace around a value does not change its `strip()` |
| Text.ContainsSpec | src/gibr/cli/create.py:30 | `t in s` holds exactly when `t` occurs in `s` at some index |
| GitRemote.RStripSlash | src/gibr/mr.py:39 | the result is the URL without its trailing slashes, and it does not end in `/` |
| GitRemote.Normalize | src/gibr/mr.py:38-41 | the result is a prefix of the URL; what is cut off is slashes, or `.git` followed by slashes; when only slashes are cut off, every trailing `/` is gone and the result does not end in `.git` |
| GitRemote.LineCapture | src/gibr/mr.py:44 | a capture of `(.+)$` is a non-empty line without a newline, and it is the whole rest or the rest less one final newline |
| GitRemote.LineCaptureSpec | src/gibr/mr.py:44 | `(.+)$` captures `p` exactly when the rest is a non-empty line `p` with no newline, optionally followed by one newline |
| GitRemote.AfterFieldSpec | src/gibr/mr.py:44 | `[^c]+c` consumes exactly a non-empty field free of `c` and then `c` |
| GitRemote.MatchScp | src/gibr/mr.py:43-45 | `re.match(r"git@[^:]+:(.+)$", url)`: a match needs the `git@` prefix and gives a non-empty path without a newline (its exact shape is `MatchScpSpec`) |
| GitRemote.MatchScpSound | src/gibr/mr.py:43-50 | a match of `git@[^:]+:(.+)$` decomposes the URL as `git@` host `:` path (tail) |
| GitRemote.MatchScpComplete | src/gibr/mr.py:43-50 | every URL of that shape matches, with its path as the group |
| GitRemote.MatchScpSpec | src/gibr/mr.py:43-50 | the first pattern answers `p` exactly when the URL has the `git@host:p` shape |
| GitRemote.MatchHttp | src/gibr/mr.py:52-54 | `re.match(r"https?://[^/]+/(.+)$", url)`: a match needs the `http://` or `https://` prefix and gives a non-empty path without a newline (its exact shape is `MatchHttpSpec`) |
| GitRemote.MatchHttpSound | src/gibr/mr.py:52-59 | a match of `https?://[^/]+/(.+)$` decomposes the URL as scheme host `/` path (tail) |
| GitRemote.MatchHttpComplete | src/gibr/mr.py:52-59 | every http or https URL of that shape matches, with its path as the group |
| GitRemote.MatchHttpSpec | src/gibr/mr.py:52-59 | the second pattern answers `p` exactly when the URL has the `http(s)://host/p` shape |
| GitRemote.MatchSshProtocol | src/gibr/mr.py:61-63 | `re.match(r"ssh://[^@]+@[^/]+/(.+)$", url)`: a match needs the `ssh://` prefix and gives a non-empty path without a newline (its exact shape is `MatchSshProtocolSpec`) |
| GitRemote.MatchSshProtocolSound | src/gibr/mr.py:61-68 | a match of `ssh://[^@]+@[^/]+/(.+)$` decomposes the URL as `ssh://` user `@` host `/` path (tail) |
| GitRemote.MatchSshProtocolComplete | src/gibr/mr.py:61-68 | every URL of that shape matches, with its path as the group |
| GitRemote.MatchSshProtocolSpec | src/gibr/mr.py:61-68 | the third pattern answers `p` exactly when the URL has the `ssh://user@host/p` shape |
| GitRemote.MatchNeedsPrefix | src/gibr/mr.py:44-62 | each pattern matches only URLs that start with its literal prefix |
| GitRemote.PatternsAreDisjoint | src/gibr/mr.py:43-68 | no URL matches two of the patterns, so the first match is the only one |
| GitRemote.ProjectFromRemoteUrl | src/gibr/mr.py:38-71 | the three patterns tried in order on the normalised URL: a found path is non-empty and holds no newline, and a failure reports the normalised URL |
| GitRemote.ProjectFromRemoteUrlSpec | src/gibr/mr.py:38-71 | the parser answers `p` exactly when the normalised URL has one of the three shapes with path `p`; on failure it reports the normalised URL |
| GitRemote.ProjectPathIsNonEmptyLine | src/gibr/mr.py:44-68 | a successful result is non-empty and holds no newline |
| GitRemote.TrailingSlashIsIgnored | src/gibr/mr.py:39 | appending `/` to a URL never changes the result |
| GitRemote.GitSuffixIsIgnored | src/gibr/mr.py:39-41 | appending `.git` to a URL ending in neither `/` nor `.git` never changes the result |
| GitRemote.NormalIsFixed | src/gibr/mr.py:39-41 | a URL ending in neither `/` nor `.git` is already normal |
| GitRemote.NotPrefix | src/gibr/mr.py:44-62 | a URL whose first character differs from a pattern's does not have that pattern's prefix |
| GitRemoteExamples.PlainPathEnding | src/gibr/mr.py:38-41 | a URL ending in `:` or `/` and then a plain path is normal, and adding `.git` to it changes nothing |
| GitRemoteExamples.ScpUrlGivesPath | src/gibr/mr.py:43-50 | `git@<host>:<path>.git` gives `<path>` for every host without `:` and every plain path |
| GitRemoteExamples.HttpUrlGivesPath | src/gibr/mr.py:52-59 | `http(s)://<host>/<path>.git` gives `<path>` for every host without `/` and every plain path |
| GitRemoteExamples.SshProtocolUrlGivesPath | src/gibr/mr.py:61-68 | `ssh://<user>@<host>/<path>.git` gives `<path>`; the host may hold a port |
| GitRemoteExamples.ScpExample | src/gibr/mr.py:18 | `git@gitlab.example.com:group/project.git` gives `group/project` |
| GitRemoteExamples.HttpsExample | src/gibr/mr.py:19 | `https://gitlab.example.com/group/project.git` gives `group/project` |
| GitRemoteExamples.SshProtocolExample | src/gibr/mr.py:20 | `ssh://git@gitlab.example.com:2222/group/project.git` gives `group/project` |
| GitRemoteExamples.FileUrlIsRejected | src/gibr/mr.py:70-71 | `file:///srv/repo` matches no pattern and is reported as it is |
| MergeRequests.FlagWord | src/gibr/mr.py:202 | `value.split("#")[0].strip().lower()`: the word holds no `#`, no upper-case letter, and no whitespace at either end |
| MergeRequests.ParseFlag | src/gibr/mr.py:200-203 | the flag is true exactly when that word is `true`, `yes` or `1`; the lemmas below state what this accepts |
| MergeRequests.ParseFlagIgnoresComment | src/gibr/mr.py:200-203 | an inline `# comment` after a value does not change the flag |
| MergeRequests.ParseFlagIgnoresSurroundingSpace | src/gibr/mr.py:202-203 | whitespace around a value does not change the flag |
| MergeRequests.ParseFlagOfWord | src/gibr/mr.py:201-203 | `true`, `yes` and `1`, in any letter case, are true |
| MergeRequests.DefaultFlagIsOff | src/gibr/mr.py:201-203 | the default `"false"` is false |
| MergeRequests.ParseFlagOfCommentedWord | src/gibr/mr.py:200-203 | one of the true words, then blanks and a comment, is true |
| MergeRequests.NotedYesIsOn | src/gibr/mr.py:200-203 | `"yes # note"` is true |
| MergeRequests.TitleCase | src/gibr/mr.py:145 | `str.title` over ASCII: same length; letters stay letters of the same kind; a letter is upper case exactly when no letter is just before it; all else is kept |
| MergeRequests.TitleCaseIdempotent | src/gibr/mr.py:145 | title-casing twice equals title-casing once |
| MergeRequests.TitleCaseSplit | src/gibr/mr.py:145 | the words on either side of a non-letter are title-cased independently |
| MergeRequests.SpaceSeparators | src/gibr/mr.py:145 | every `-` and every `_` becomes a space, and nothing else changes |
| MergeRequests.DefaultTitle | src/gibr/mr.py:144-145 | the default title has the branch's length and holds no `-` or `_`; it has a new space exactly where the branch had a separator; each letter is the branch's letter, upper case exactly when it starts a word of the branch; every other character is kept |
| MergeRequests.DefaultTitleSplit | src/gibr/mr.py:145 | the title of `x-y` or `x_y` is the title of `x`, a space, and the title of `y` |
| MergeRequests.DefaultTitleOfWord | src/gibr/mr.py:145 | a lower-case word gets only its first letter upper-cased |
| MergeRequests.DefaultTitleExample | src/gibr/mr.py:143-145 | `fix-login_bug` gives `Fix Login Bug` |
| MergeRequests.GitLabMR.CreateMergeRequest | src/gibr/mr.py:118-156 | a falsy target becomes the project's default branch; a falsy title becomes the default title of the source branch; truthy values and the other arguments pass through verbatim |
| MergeRequests.CreateMergeRequestHasTitle | src/gibr/mr.py:143-145 | a request for a non-empty source branch never has an empty title |
| MergeRequests.ProjectFromRemote | src/gibr/mr.py:32-74 | an unreadable remote is an error; otherwise the parser's path, or an error carrying the normalised URL |
| MergeRequests.FromConfig | src/gibr/mr.py:177-206 | an empty or missing `gitlab_mr` section is an error; then a missing `url`, then a missing `token`; the project is the configured one when truthy, otherwise the remote's (its errors pass through); `insecure` is the comment-tolerant parse of the value, which defaults to `"false"`; a successful project is non-empty |
| MergeRequests.ConfiguredProjectIgnoresRemote | src/gibr/mr.py:190-197 | with a truthy `project` setting, the remote makes no difference |
| MergeRequests.UrlIsCheckedBeforeToken | src/gibr/mr.py:184-188 | a missing `url` is the error reported, whatever else is missing |
| CliMr.KeyRunEnd | src/gibr/cli/mr.py:29 | the end of the maximal run of `[A-Z0-9_]` characters from a position |
| CliMr.DigitRunEnd | src/gibr/cli/mr.py:29 | the end of the maximal run of digits from a position |
| CliMr.KeyEndAt | src/gibr/cli/mr.py:29-30 | when it answers, the slice from the start to the answer is an issue key that is not followed by a digit |
| CliMr.KeyEndAtComplete | src/gibr/cli/mr.py:29-30 | wherever some issue key starts, the greedy scan finds one there |
| CliMr.KeyEndAtSpec | src/gibr/cli/mr.py:29-30 | the greedy scan answers at a position exactly when some issue key starts there |
| CliMr.KeyEndAtExact | src/gibr/cli/mr.py:29-32 | a key starting at a position and not followed by a digit is exactly the one the scan finds |
| CliMr.SearchFrom | src/gibr/cli/mr.py:30-32 | the first position at or after `i` where a key starts, and the end of the scan's match; no key starts before it |
| CliMr.ExtractIssueId | src/gibr/cli/mr.py:14-33 | `None` exactly when no substring is an issue key; otherwise a substring at the leftmost start that admits a key, with a maximal digit run |
| CliMr.LeftmostMatchUnique | src/gibr/cli/mr.py:29-32 | there is only one leftmost, maximal match |
| CliMr.KeyAtStartsUpper | src/gibr/cli/mr.py:29 | a key can only start at an upper-case letter |
| CliMr.KeyAfterPlainPrefix | src/gibr/cli/mr.py:29-32 | a key preceded only by non-upper-case characters and not followed by a digit is the id the branch yields |
| CliMr.NoUpperCaseNoKey | src/gibr/cli/mr.py:29-33 | a branch without an upper-case letter yields `None` |
| CliMr.JiraKeyExample | src/gibr/cli/mr.py:18 | `NPDEVOPS-1929-description` yields `NPDEVOPS-1929` |
| CliMr.ShortKeyExample | src/gibr/cli/mr.py:19 | `FOO-123-some-feature` yields `FOO-123` |
| CliMr.PrefixedKeyExample | src/gibr/cli/mr.py:20 | `prefix/PROJ-456/description` yields `PROJ-456` |
| CliMr.NoKeyExample | src/gibr/cli/mr.py:31-33 | `no-issue-here` yields `None` |
| CliMr.ResolveKeepSource | src/gibr/cli/mr.py:72-80 | a command-line value is used as given; otherwise the comment-tolerant parse of `keep_source`, which defaults to `"false"` |
| CliMr.KeepSourceDefaultsToRemove | src/gibr/cli/mr.py:73-77 | with no flag and no setting, the source branch is removed |
| CliMr.ResolveTitle | src/gibr/cli/mr.py:99-124 | a truthy title is kept; a falsy title becomes `"{issue.id}: "` plus the translated issue title when the tracker finds the key, `None` when the lookup fails, and stays as it was when the branch has no key |
| CliMr.ExplicitTitleIgnoresTracker | src/gibr/cli/mr.py:100 | with a truthy title, any two trackers and translators give that same title |
| CliMr.NoKeyIgnoresTracker | src/gibr/cli/mr.py:101-124 | for a branch without a key, any two trackers and translators give the same title |
| CliMr.IssueTitle | src/gibr/cli/mr.py:113-116 | `f"{issue.id}: {title}"` with the title through the Cyrillic gate: the result starts with the tracker's id and `: ` |
| CliMr.IssueTitleOfPlainText | src/gibr/cli/mr.py:113-116 | a tracker title without Cyrillic letters is used as reported, after the tracker's own id |
| CliMr.RequestTitle | src/gibr/cli/mr.py:118-134 | the request title is never empty for a non-empty branch, and, when no truthy title is given and the lookup fails or the branch has no key, it is the branch's default title |
| CliMr.LookupCalls | src/gibr/cli/mr.py:100-110 | the tracker is asked once, for the extracted key, exactly when no truthy title is given and the branch has a key |
| CliMr.Mr | src/gibr/cli/mr.py:65-134 | the outcome and the ordered calls: configuration errors stop before any call; then connect; a detached HEAD stops; an optional push whose failure stops; at most one tracker lookup; a create request with the resolved title, the target as given and `remove_source_branch` = not keep-source |
| CliCreate.ParsePlainFlag | src/gibr/cli/create.py:23 | `value.lower() in ("true", "yes", "1")`, with no stripping and no comment handling (its relation to `ParseFlag` is the next three rows) |
| CliCreate.PlainFlagImpliesFlag | src/gibr/cli/create.py:23 | every value the plain parse accepts, the comment-tolerant parse accepts too |
| CliCreate.PlainFlagRejectsComment | src/gibr/cli/create.py:23 | `"true # x"` is false: there is no comment handling or stripping |
| CliCreate.FlagAcceptsComment | src/gibr/cli/create.py:23 | the same value is true under the parse of `mr.py`, so the two parses differ |
| CliCreate.TranslateTitles | src/gibr/cli/create.py:23 | `translate_titles` defaults to `"true"`, which is true |
| CliCreate.AutoPush | src/gibr/cli/create.py:41 | `auto_push` defaults to `"false"`, which is false |
| CliCreate.NeedsAssignee | src/gibr/cli/create.py:30 | `not issue.assignee and "{assignee}" in format`; its meaning is `NeedsAssigneeSpec` |
| CliCreate.NeedsAssigneeSpec | src/gibr/cli/create.py:30 | the assignee check fires exactly for an issue with no (or an empty) assignee and a format that has `{assignee}` somewhere |
| CliCreate.Create | src/gibr/cli/create.py:13-42 | a non-numeric number for a numeric tracker stops before any call; then one lookup, whose failure stops; a missing branch format and a missing required assignee stop before generation; otherwise the name is generated for the issue with `translate` set from the configuration, and goes to `create_and_push_branch` with the `auto_push` setting |
| Issues.Issue.constructor | src/gibr/issue.py:10-18 | the object holds the tracker's fields |
| Issues.Issue.SetTranslate | src/gibr/cli/create.py:24 | only `translate` changes |

## Left out

- Git I/O is left out: opening the repository, looking up the remote,
  `repo.close()`, and the whole of `push_current_branch`. The first URL of
  `origin` is an input (`None` when it cannot be read). The checkout is a
  `Head` value. A push is one call with a success flag; whether the branch
  was already up to date is not modelled.
- The GitLab client is left out: connection, authentication, `projects.get`
  and the `mergerequests.create` call. The model stops at the request sent.
  The dictionary built from GitLab's answer is not modelled.
- `GoogleTranslator` is an oracle. `get_tracker` and `tracker.get_issue` are
  one oracle. Any failure of either gives `LookupFailed`.
- A translation failure never causes the title fallback. `translate_to_english`
  catches it itself and gives the original text back.
- `Issue.sanitized_title` (`src/gibr/issue.py:20-26`) is left out, because
  it rests on the external `slugify` library. It is reached only through
  branch-name generation.
- `BranchName.generate` and `create_and_push_branch` are not part of this
  model. Generation is an oracle, and the hand-over is the last call
  recorded.
- `click` option handling, logging, and the messages of `gibr.notify` are
  left out. `error(...)` is an `Err` outcome.
- Python's full Unicode behaviour of `lower`, `title`, `isdigit` and `\d` is
  left out: these are modelled over ASCII. `strip` uses Python's whitespace
  set.
- Issue ids are kept as the text an f-string renders them to, not as `int`.
- The GitLab handler is a value (`MergeRequests.GitLabMR`), because its fields
  are set once when it is built and never reassigned.
