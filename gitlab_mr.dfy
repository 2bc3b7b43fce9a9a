/**
 * The decision layer of `src/gibr/mr.py` around the GitLab client: the
 * comment-tolerant boolean parse of configuration values, the defaults
 * `create_merge_request` fills in before calling GitLab, and the checks
 * `from_config` makes before it connects.
 */
module MergeRequests {
  import opened Wrappers
  import opened Text
  import opened ConfigDict
  import opened GitRemote

  // ---------------------------------------------------------------------
  // Boolean configuration values
  // ---------------------------------------------------------------------

  /** `v.split("#")[0].strip().lower()`: the word a flag value stands for. */
  function FlagWord(v: string): (w: string)
    ensures '#' !in w
    ensures forall i :: 0 <= i < |w| ==> !IsUpper(w[i])
    ensures w == [] || (!IsSpace(w[0]) && !IsSpace(w[|w| - 1]))
  {
    Lower(Strip(BeforeFirst(v, '#')))
  }

  /** `v.split("#")[0].strip().lower() in ("true", "yes", "1")`. */
  predicate ParseFlag(v: string) {
    FlagWord(v) in TrueWords
  }

  lemma BeforeFirstOfAbsent(v: string, c: char)
    requires c !in v
    ensures BeforeFirst(v, c) == v
  {
  }

  lemma BeforeFirstOfComment(v: string, comment: string)
    requires '#' !in v
    ensures BeforeFirst(v + "#" + comment, '#') == v
  {
    FirstIndexAfterField(v, '#', comment);
    assert (v + "#" + comment)[..|v|] == v;
  }

  /** An inline comment after the value does not change the flag. */
  lemma ParseFlagIgnoresComment(v: string, comment: string)
    requires '#' !in v
    ensures FlagWord(v + "#" + comment) == FlagWord(v)
    ensures ParseFlag(v + "#" + comment) == ParseFlag(v)
  {
    BeforeFirstOfComment(v, comment);
    BeforeFirstOfAbsent(v, '#');
  }

  lemma NotInConcat(a: string, v: string, b: string, c: char)
    requires c !in a + v + b
    ensures c !in v
  {
  }

  /** Whitespace around the value does not change the flag. */
  lemma ParseFlagIgnoresSurroundingSpace(a: string, v: string, b: string)
    requires IsBlank(a) && IsBlank(b) && '#' !in a + v + b
    ensures FlagWord(a + v + b) == FlagWord(v)
    ensures ParseFlag(a + v + b) == ParseFlag(v)
  {
    NotInConcat(a, v, b, '#');
    BeforeFirstOfAbsent(v, '#');
    BeforeFirstOfAbsent(a + v + b, '#');
    StripIgnoresSurroundingSpace(a, v, b);
  }

  /** A value that is exactly one of the words, in any letter case, is true. */
  lemma ParseFlagOfWord(v: string)
    requires Lower(v) in TrueWords
    ensures ParseFlag(v)
  {
    var w := Lower(v);
    assert w == "true" || w == "yes" || w == "1";
    assert |v| > 0 && '#' !in v && !IsSpace(v[0]) && !IsSpace(v[|v| - 1]) by {
      assert forall i :: 0 <= i < |w| ==> w[i] != '#' && !IsSpace(w[i]);
      forall i | 0 <= i < |v| ensures v[i] != '#' && !IsSpace(v[i]) {
        assert w[i] == LowerChar(v[i]);
      }
    }
    BeforeFirstOfAbsent(v, '#');
    StripOfUnpadded(v);
  }

  /** The default `"false"` is false. */
  lemma DefaultFlagIsOff(off: string)
    requires off == "false"
    ensures !ParseFlag(off)
  {
    BeforeFirstOfAbsent(off, '#');
    StripOfUnpadded(off);
    assert Lower(off)[0] == 'f';
  }

  /** One of the words, in any letter case, followed by blanks and a comment is true. */
  lemma ParseFlagOfCommentedWord(w: string, pad: string, comment: string)
    requires Lower(w) in TrueWords && IsBlank(pad) && '#' !in pad
    ensures ParseFlag(w + pad + "#" + comment)
  {
    ParseFlagOfWord(w);
    ParseFlagOfWordHasNoHash(w);
    PaddedWordIgnoresComment(w, pad, comment);
    FlagWordIgnoresTrailingSpace(w, pad);
  }

  lemma PaddedWordIgnoresComment(w: string, pad: string, comment: string)
    requires Lower(w) in TrueWords && '#' !in pad
    ensures FlagWord(w + pad + "#" + comment) == FlagWord(w + pad)
  {
    ParseFlagOfWordHasNoHash(w);
    ParseFlagIgnoresComment(w + pad, comment);
  }

  lemma FlagWordIgnoresTrailingSpace(v: string, pad: string)
    requires '#' !in v && IsBlank(pad) && '#' !in pad
    ensures FlagWord(v + pad) == FlagWord(v)
  {
    BeforeFirstOfAbsent(v, '#');
    BeforeFirstOfAbsent(v + pad, '#');
    StripIgnoresTrailingSpace(v, pad);
  }

  lemma ParseFlagOfWordHasNoHash(w: string)
    requires Lower(w) in TrueWords
    ensures '#' !in w
  {
    var l := Lower(w);
    assert forall i :: 0 <= i < |l| ==> l[i] != '#';
    forall i | 0 <= i < |w| ensures w[i] != '#' {
      assert l[i] == LowerChar(w[i]);
    }
  }

  /** `"yes # note"` is true. */
  lemma NotedYesIsOn()
    ensures ParseFlag("yes" + " " + "#" + " note")
  {
    assert Lower("yes") == "yes";
    ParseFlagOfCommentedWord("yes", " ", " note");
  }

  // ---------------------------------------------------------------------
  // The default title
  // ---------------------------------------------------------------------

  /** Position `i` of `s` starts a word for `str.title`: no letter is just before it. */
  predicate StartsWord(s: string, i: int)
    requires 0 <= i < |s|
  {
    i == 0 || !IsLetter(s[i - 1])
  }

  function TitleChar(s: string, i: int): char
    requires 0 <= i < |s|
  {
    if !IsLetter(s[i]) then s[i]
    else if StartsWord(s, i) then UpperChar(s[i])
    else LowerChar(s[i])
  }

  /**
   * `s.title()` over ASCII: every letter that starts a word is upper case,
   * every other letter lower case, and everything else is kept.
   */
  function TitleCase(s: string): (r: string)
    ensures |r| == |s|
    ensures forall i :: 0 <= i < |s| ==> (IsLetter(r[i]) <==> IsLetter(s[i]))
    ensures forall i :: 0 <= i < |s| ==> LowerChar(r[i]) == LowerChar(s[i])
    ensures forall i :: 0 <= i < |s| && !IsLetter(s[i]) ==> r[i] == s[i]
    ensures forall i :: 0 <= i < |s| && IsLetter(s[i]) ==> (IsUpper(r[i]) <==> StartsWord(s, i))
  {
    seq(|s|, i requires 0 <= i < |s| => TitleChar(s, i))
  }

  /** Two letters that agree in lower case and in being upper case are the same letter. */
  lemma SameLetter(x: char, y: char)
    requires IsLetter(x) && IsLetter(y)
    requires LowerChar(x) == LowerChar(y) && (IsUpper(x) <==> IsUpper(y))
    ensures x == y
  {
  }

  /** Title-casing twice is title-casing once. */
  lemma TitleCaseIdempotent(s: string)
    ensures TitleCase(TitleCase(s)) == TitleCase(s)
  {
    var r := TitleCase(s);
    var rr := TitleCase(r);
    forall i | 0 <= i < |s|
      ensures rr[i] == r[i]
    {
      if IsLetter(s[i]) {
        assert StartsWord(r, i) == StartsWord(s, i);
        SameLetter(rr[i], r[i]);
      }
    }
  }

  /** `s.replace("-", " ").replace("_", " ")`. */
  function SpaceSeparators(s: string): (r: string)
    ensures |r| == |s|
    ensures forall i :: 0 <= i < |s| ==> r[i] == (if s[i] == '-' || s[i] == '_' then ' ' else s[i])
  {
    seq(|s|, i requires 0 <= i < |s| => if s[i] == '-' || s[i] == '_' then ' ' else s[i])
  }

  /**
   * The title used when none is given: the source branch with `-` and `_`
   * turned into spaces, then title-cased. It has the branch's length and
   * neither separator survives.
   */
  function DefaultTitle(source: string): (r: string)
    ensures |r| == |source|
    ensures '-' !in r && '_' !in r
    ensures forall i :: 0 <= i < |source| ==> (source[i] == '-' || source[i] == '_' <==> r[i] == ' ' && source[i] != ' ')
    ensures forall i :: 0 <= i < |source| && IsLetter(source[i]) ==>
              LowerChar(r[i]) == LowerChar(source[i]) && (IsUpper(r[i]) <==> StartsWord(source, i))
    ensures forall i :: 0 <= i < |source| && !IsLetter(source[i]) && source[i] != '-' && source[i] != '_' ==>
              r[i] == source[i]
  {
    var spaced := SpaceSeparators(source);
    var r := TitleCase(spaced);
    assert forall i :: 0 <= i < |r| ==> r[i] != '-' && r[i] != '_' by {
      forall i | 0 <= i < |r| ensures r[i] != '-' && r[i] != '_' {
        if !IsLetter(spaced[i]) { assert r[i] == spaced[i]; }
      }
    }
    r
  }

  /** Words split by a non-letter are title-cased independently. */
  lemma TitleCaseSplit(x: string, c: char, y: string)
    requires !IsLetter(c)
    ensures TitleCase(x + [c] + y) == TitleCase(x) + [c] + TitleCase(y)
  {
    var s := x + [c] + y;
    var lhs, rhs := TitleCase(s), TitleCase(x) + [c] + TitleCase(y);
    forall i | 0 <= i < |s| ensures lhs[i] == rhs[i] {
      TitleCaseSplitAt(x, c, y, i);
    }
  }

  lemma TitleCaseSplitAt(x: string, c: char, y: string, i: int)
    requires !IsLetter(c) && 0 <= i < |x| + 1 + |y|
    ensures TitleCase(x + [c] + y)[i] == (TitleCase(x) + [c] + TitleCase(y))[i]
  {
    if i < |x| {
      TitleCaseLeftAt(x, [c] + y, i);
      assert x + [c] + y == x + ([c] + y);
    } else if i > |x| {
      TitleCaseRightAt(x + [c], y, i - |x| - 1);
    }
  }

  lemma TitleCaseLeftAt(x: string, z: string, i: int)
    requires 0 <= i < |x|
    ensures TitleCase(x + z)[i] == TitleCase(x)[i]
  {
    var s := x + z;
    assert TitleCase(s)[i] == TitleChar(s, i);
    assert s[i] == x[i] && (i > 0 ==> s[i - 1] == x[i - 1]);
    assert TitleCase(x)[i] == TitleChar(x, i);
  }

  lemma TitleCaseRightAt(x: string, y: string, j: int)
    requires x != [] && !IsLetter(x[|x| - 1]) && 0 <= j < |y|
    ensures TitleCase(x + y)[|x| + j] == TitleCase(y)[j]
  {
    var s := x + y;
    var i := |x| + j;
    assert TitleCase(s)[i] == TitleChar(s, i);
    assert s[i] == y[j] && s[i - 1] == (if j > 0 then y[j - 1] else x[|x| - 1]);
    assert TitleCase(y)[j] == TitleChar(y, j);
  }

  lemma SpaceSeparatorsSplit(x: string, c: char, y: string)
    ensures SpaceSeparators(x + [c] + y) == SpaceSeparators(x) + SpaceSeparators([c]) + SpaceSeparators(y)
  {
  }

  /** The default title of `x-y` or `x_y` is the default titles of `x` and `y` around a space. */
  lemma DefaultTitleSplit(x: string, sep: char, y: string)
    requires sep == '-' || sep == '_'
    ensures DefaultTitle(x + [sep] + y) == DefaultTitle(x) + " " + DefaultTitle(y)
  {
    SpaceSeparatorsSplit(x, sep, y);
    assert SpaceSeparators([sep]) == [' '];
    TitleCaseSplit(SpaceSeparators(x), ' ', SpaceSeparators(y));
  }

  /** A lower-case word gets an upper-case first letter. */
  lemma DefaultTitleOfWord(w: string)
    requires w != [] && forall i :: 0 <= i < |w| ==> IsLower(w[i])
    ensures DefaultTitle(w) == [UpperChar(w[0])] + w[1..]
  {
    var r := DefaultTitle(w);
    assert SpaceSeparators(w) == w;
    forall i | 1 <= i < |w| ensures r[i] == w[i] {
      SameLetter(r[i], w[i]);
    }
  }

  lemma DefaultTitleOfFix()
    ensures DefaultTitle("fix") == "Fix"
  {
    DefaultTitleOfWord("fix");
    assert [UpperChar('f')] + "fix"[1..] == "Fix";
  }

  lemma DefaultTitleOfLogin()
    ensures DefaultTitle("login") == "Login"
  {
    DefaultTitleOfWord("login");
    assert [UpperChar('l')] + "login"[1..] == "Login";
  }

  lemma DefaultTitleOfBug()
    ensures DefaultTitle("bug") == "Bug"
  {
    DefaultTitleOfWord("bug");
    assert [UpperChar('b')] + "bug"[1..] == "Bug";
  }

  /** `fix-login_bug` gives `Fix Login Bug`. */
  lemma DefaultTitleExample()
    ensures DefaultTitle("fix" + "-" + "login" + "_" + "bug") == "Fix" + " " + "Login" + " " + "Bug"
  {
    DefaultTitleOfFix();
    DefaultTitleOfLogin();
    DefaultTitleOfBug();
    DefaultTitleSplit("fix" + "-" + "login", '_', "bug");
    DefaultTitleSplit("fix", '-', "login");
  }

  // ---------------------------------------------------------------------
  // GitLabMR and create_merge_request
  // ---------------------------------------------------------------------

  /** The fields of the request `create_merge_request` sends to GitLab. */
  datatype MrRequest = MrRequest(sourceBranch: string, targetBranch: string, title: string,
                                 description: string, removeSourceBranch: bool)

  /**
   * A connected handler: the settings it was built with and the default
   * branch of the project it loaded.
   */
  datatype GitLabMR = GitLabMR(url: string, projectName: string, insecure: bool, defaultBranch: string)
  {
    /**
     * The request sent to GitLab: a falsy target becomes the project's
     * default branch, a falsy title the default title of the source branch,
     * and every other argument is passed through.
     */
    function CreateMergeRequest(source: string, target: Option<string>, title: Option<string>,
                                description: string, removeSource: bool): (req: MrRequest)
      ensures req.sourceBranch == source && req.description == description
      ensures req.removeSourceBranch == removeSource
      ensures req.targetBranch == (if Truthy(target) then target.value else defaultBranch)
      ensures req.title == (if Truthy(title) then title.value else DefaultTitle(source))
    {
      MrRequest(source,
                if Truthy(target) then target.value else defaultBranch,
                if Truthy(title) then title.value else DefaultTitle(source),
                description, removeSource)
    }
  }

  /** A request's title is never empty when its source branch is not. */
  lemma CreateMergeRequestHasTitle(mr: GitLabMR, source: string, target: Option<string>,
                                   title: Option<string>, description: string, removeSource: bool)
    requires source != []
    ensures mr.CreateMergeRequest(source, target, title, description, removeSource).title != []
  {
  }

  // ---------------------------------------------------------------------
  // from_config
  // ---------------------------------------------------------------------

  /** What `from_config` hands to the constructor. */
  datatype Settings = Settings(url: string, token: string, project: string, insecure: bool)

  /** The ways `from_config` stops before connecting. */
  datatype ConfigError =
    | MissingSection
    | MissingKey(key: string)
    | NoRemote
    | UnparsableRemote(url: string)

  /**
   * `get_project_from_git_remote()` for the first URL of `origin`; `None`
   * stands for a repository or remote that cannot be read.
   */
  function ProjectFromRemote(remoteUrl: Option<string>): (r: Result<string, ConfigError>)
    ensures remoteUrl.None? ==> r == Err(NoRemote)
    ensures remoteUrl.Some? ==> match ProjectFromRemoteUrl(remoteUrl.value)
                                case Ok(p) => r == Ok(p)
                                case Err(u) => r == Err(UnparsableRemote(u))
  {
    match remoteUrl
    case None => Err(NoRemote)
    case Some(u) =>
      match ProjectFromRemoteUrl(u)
      case Ok(p) => Ok(p)
      case Err(n) => Err(UnparsableRemote(n))
  }

  /**
   * `GitLabMR.from_config`: the settings read from the `gitlab_mr` section,
   * in the order the source checks them. The project comes from the
   * configuration when it is set and from the remote URL otherwise.
   */
  function FromConfig(config: Config, remoteUrl: Option<string>): (r: Result<Settings, ConfigError>)
    ensures var section := GetSection(config, "gitlab_mr");
            && (r == Err(MissingSection) <==> section == map[])
            && (r == Err(MissingKey("url")) <==> section != map[] && "url" !in section)
            && (r == Err(MissingKey("token")) <==> section != map[] && "url" in section && "token" !in section)
    ensures var section := GetSection(config, "gitlab_mr");
            r.Ok? ==> && "url" in section && "token" in section
                      && r.value.url == section["url"] && r.value.token == section["token"]
                      && r.value.insecure == ParseFlag(GetOr(section, "insecure", "false"))
                      && r.value.project != []
    ensures var section := GetSection(config, "gitlab_mr");
            section != map[] && "url" in section && "token" in section ==>
              if Truthy(Get(section, "project")) then r.Ok? && r.value.project == section["project"]
              else match ProjectFromRemote(remoteUrl)
                   case Ok(p) => r.Ok? && r.value.project == p
                   case Err(e) => r == Err(e)
  {
    var section := GetSection(config, "gitlab_mr");
    if section == map[] then Err(MissingSection)
    else if "url" !in section then Err(MissingKey("url"))
    else if "token" !in section then Err(MissingKey("token"))
    else
      var project := Get(section, "project");
      var resolved := if Truthy(project) then Ok(project.value) else ProjectFromRemote(remoteUrl);
      match resolved
      case Err(e) => Err(e)
      case Ok(p) =>
        ProjectFromRemoteUrlIsNonEmpty(remoteUrl);
        Ok(Settings(section["url"], section["token"], p,
                    ParseFlag(GetOr(section, "insecure", "false"))))
  }

  lemma ProjectFromRemoteUrlIsNonEmpty(remoteUrl: Option<string>)
    ensures ProjectFromRemote(remoteUrl).Ok? ==> ProjectFromRemote(remoteUrl).value != []
  {
    if remoteUrl.Some? && ProjectFromRemoteUrl(remoteUrl.value).Ok? {
      ProjectPathIsNonEmptyLine(remoteUrl.value);
    }
  }

  /** A project set in the configuration makes the remote irrelevant. */
  lemma ConfiguredProjectIgnoresRemote(config: Config, remote1: Option<string>, remote2: Option<string>)
    requires Truthy(Get(GetSection(config, "gitlab_mr"), "project"))
    ensures FromConfig(config, remote1) == FromConfig(config, remote2)
  {
  }

  /** Whatever the remote, a missing `url` is reported before a missing `token`. */
  lemma UrlIsCheckedBeforeToken(config: Config, remoteUrl: Option<string>)
    requires GetSection(config, "gitlab_mr") != map[]
    requires "url" !in GetSection(config, "gitlab_mr")
    ensures FromConfig(config, remoteUrl) == Err(MissingKey("url"))
  {
  }
}
