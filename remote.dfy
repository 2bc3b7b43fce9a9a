/**
 * The remote-URL part of `get_project_from_git_remote` (src/gibr/mr.py):
 * normalisation of the URL, then three anchored patterns tried in order.
 * Each pattern is a literal prefix, one or more characters up to a stop
 * character, that stop character, and the group `(.+)$`.
 */
module GitRemote {
  import opened Wrappers
  import opened Text

  /** `url.rstrip("/")`. */
  function RStripSlash(url: string): (r: string)
    ensures |r| <= |url| && r == url[..|r|]
    ensures r == [] || r[|r| - 1] != '/'
    ensures forall i :: |r| <= i < |url| ==> url[i] == '/'
  {
    if url != [] && url[|url| - 1] == '/' then RStripSlash(url[..|url| - 1]) else url
  }

  predicate IsSlashes(s: string) {
    forall i :: 0 <= i < |s| ==> s[i] == '/'
  }

  /**
   * All trailing slashes go, then at most one ".git": the result is a prefix
   * of the URL, and what is cut off is slashes, or ".git" and then slashes.
   * When only slashes were cut off, all of them were, and no ".git" was left.
   */
  function Normalize(url: string): (r: string)
    ensures |r| <= |url| && r == url[..|r|]
    ensures IsSlashes(url[|r|..]) || (HasPrefix(url[|r|..], ".git") && IsSlashes(url[|r| + 4..]))
    ensures IsSlashes(url[|r|..]) ==> (r == [] || r[|r| - 1] != '/') && !HasSuffix(r, ".git")
  {
    var u := RStripSlash(url);
    assert forall i :: 0 <= i < |url[|u|..]| ==> url[|u|..][i] == url[|u| + i];
    if HasSuffix(u, ".git") then
      var r := u[..|u| - 4];
      assert url[|r|..] == ".git" + url[|u|..] by {
        assert url[|r|..|u|] == u[|u| - 4..];
        assert url[|r|..] == url[|r|..|u|] + url[|u|..];
      }
      assert url[|r| + 4..] == url[|u|..];
      r
    else u
  }

  /** The group `(.+)$`: `.` stops at a newline and `$` also matches before one final newline. */
  function LineCapture(s: string): (r: Option<string>)
    ensures r.Some? ==> r.value != [] && '\n' !in r.value && (s == r.value || s == r.value + "\n")
  {
    var k := FirstIndex(s, '\n');
    if 0 < k && (k == |s| || k == |s| - 1) then Some(s[..k]) else None
  }

  /** What `(.+)$` accepts: a non-empty line, optionally followed by one newline. */
  ghost predicate IsLine(p: string, tail: string) {
    p != [] && '\n' !in p && (tail == [] || tail == ['\n'])
  }

  /** `[^c]+c`: a non-empty field free of `c`, then `c`; answers what follows. */
  function AfterField(s: string, c: char): (r: Option<string>)
  {
    var k := FirstIndex(s, c);
    if 0 < k < |s| then Some(s[k + 1..]) else None
  }

  /** Pattern 1, `git@[^:]+:(.+)$`. */
  function MatchScp(u: string): (r: Option<string>)
    ensures r.Some? ==> HasPrefix(u, "git@") && r.value != [] && '\n' !in r.value
  {
    if !HasPrefix(u, "git@") then None
    else
      match AfterField(u[4..], ':')
      case None => None
      case Some(rest) => LineCapture(rest)
  }

  /** Pattern 2, `https?://[^/]+/(.+)$`. */
  function MatchHttp(u: string): (r: Option<string>)
    ensures r.Some? ==> (HasPrefix(u, "http://") || HasPrefix(u, "https://")) && r.value != [] && '\n' !in r.value
  {
    var afterScheme :=
      if HasPrefix(u, "https://") then Some(u[8..])
      else if HasPrefix(u, "http://") then Some(u[7..])
      else None;
    match afterScheme
    case None => None
    case Some(hostAndPath) =>
      match AfterField(hostAndPath, '/')
      case None => None
      case Some(rest) => LineCapture(rest)
  }

  /** Pattern 3, `ssh://[^@]+@[^/]+/(.+)$`. */
  function MatchSshProtocol(u: string): (r: Option<string>)
    ensures r.Some? ==> HasPrefix(u, "ssh://") && r.value != [] && '\n' !in r.value
  {
    if !HasPrefix(u, "ssh://") then None
    else
      match AfterField(u[6..], '@')
      case None => None
      case Some(hostAndPath) =>
        match AfterField(hostAndPath, '/')
        case None => None
        case Some(rest) => LineCapture(rest)
  }

  /**
   * The project path of a remote URL. The error carries the normalised URL
   * the message reports.
   */
  function ProjectFromRemoteUrl(url: string): (r: Result<string, string>)
    ensures r.Ok? ==> r.value != [] && '\n' !in r.value
    ensures r.Err? ==> r.error == Normalize(url)
  {
    var u := Normalize(url);
    match MatchScp(u)
    case Some(p) => Ok(p)
    case None =>
      match MatchHttp(u)
      case Some(p) => Ok(p)
      case None =>
        match MatchSshProtocol(u)
        case Some(p) => Ok(p)
        case None => Err(u)
  }

  // ---- Reference definitions: each pattern as a decomposition of the URL ----

  ghost predicate IsScpUrl(u: string, p: string) {
    exists host, tail :: host != [] && ':' !in host && IsLine(p, tail)
                      && u == "git@" + host + ":" + p + tail
  }

  ghost predicate IsHttpUrl(u: string, p: string) {
    exists scheme, host, tail :: (scheme == "http://" || scheme == "https://")
                              && host != [] && '/' !in host && IsLine(p, tail)
                              && u == scheme + host + "/" + p + tail
  }

  ghost predicate IsSshProtocolUrl(u: string, p: string) {
    exists user, host, tail :: user != [] && '@' !in user && host != [] && '/' !in host
                            && IsLine(p, tail)
                            && u == "ssh://" + user + "@" + host + "/" + p + tail
  }

  /** Splits a successful `(.+)$` capture into the line and what `$` left after it. */
  lemma LineCaptureParts(s: string) returns (tail: string)
    requires LineCapture(s).Some?
    ensures IsLine(LineCapture(s).value, tail) && s == LineCapture(s).value + tail
  {
    var k := FirstIndex(s, '\n');
    tail := s[k..];
    assert s == s[..k] + tail;
    assert tail == [] || tail == ['\n'];
  }

  lemma LineCaptureOf(p: string, tail: string)
    requires IsLine(p, tail)
    ensures LineCapture(p + tail) == Some(p)
  {
    if tail == [] {
      assert p + tail == p;
    } else {
      assert p + tail == p + ['\n'] + [];
      FirstIndexAfterField(p, '\n', []);
    }
  }

  /** `(.+)$` captures `p` from `s` exactly when `s` is the line `p`, optionally newline-terminated. */
  lemma LineCaptureSpec(s: string, p: string)
    ensures LineCapture(s) == Some(p) <==> exists tail :: IsLine(p, tail) && s == p + tail
  {
    if LineCapture(s) == Some(p) {
      var tail := LineCaptureParts(s);
    }
    if tail :| IsLine(p, tail) && s == p + tail {
      LineCaptureOf(p, tail);
    }
  }

  /** Splits a successful `[^c]+c` into the field and what follows. */
  lemma AfterFieldParts(s: string, c: char) returns (f: string)
    requires AfterField(s, c).Some?
    ensures f != [] && c !in f && s == f + [c] + AfterField(s, c).value
  {
    var k := FirstIndex(s, c);
    f := s[..k];
    assert s == f + [c] + s[k + 1..];
  }

  lemma AfterFieldOf(f: string, c: char, r: string)
    requires f != [] && c !in f
    ensures AfterField(f + [c] + r, c) == Some(r)
  {
    FirstIndexAfterField(f, c, r);
  }

  /** `[^c]+c` leaves `r` exactly when the string is a non-empty `c`-free field, `c`, then `r`. */
  lemma AfterFieldSpec(s: string, c: char, r: string)
    ensures AfterField(s, c) == Some(r) <==> exists f :: f != [] && c !in f && s == f + [c] + r
  {
    if AfterField(s, c) == Some(r) {
      var f := AfterFieldParts(s, c);
    }
    if f :| f != [] && c !in f && s == f + [c] + r {
      AfterFieldOf(f, c, r);
    }
  }

  /** Reassociates `lead + (field + [c] + (p + tail))`. */
  lemma SplitFour(u: string, lead: string, mid: string, field: string, c: char, rest: string,
                  p: string, tail: string)
    requires u == lead + mid && mid == field + [c] + rest && rest == p + tail
    ensures u == lead + field + [c] + p + tail
  {
  }

  lemma MatchScpSound(u: string)
    requires MatchScp(u).Some?
    ensures IsScpUrl(u, MatchScp(u).value)
  {
    var p := MatchScp(u).value;
    var rest := AfterField(u[4..], ':').value;
    var host := AfterFieldParts(u[4..], ':');
    var tail := LineCaptureParts(rest);
    assert u[..4] == "git@";
    assert u == u[..4] + u[4..];
    assert u == "git@" + (host + [':'] + (p + tail));
    assert "git@" + (host + [':'] + (p + tail)) == "git@" + host + ":" + p + tail;
    assert host != [] && ':' !in host && IsLine(p, tail) && u == "git@" + host + ":" + p + tail;
  }

  lemma MatchScpComplete(u: string, host: string, p: string, tail: string)
    requires host != [] && ':' !in host && IsLine(p, tail)
    requires u == "git@" + host + ":" + p + tail
    ensures MatchScp(u) == Some(p)
  {
    assert HasPrefix(u, "git@");
    assert u[4..] == host + [':'] + (p + tail);
    AfterFieldOf(host, ':', p + tail);
    LineCaptureOf(p, tail);
  }

  /** Pattern 1 matches exactly the URLs `git@<host>:<path>`, capturing `<path>`. */
  lemma MatchScpSpec(u: string, p: string)
    ensures MatchScp(u) == Some(p) <==> IsScpUrl(u, p)
  {
    if MatchScp(u) == Some(p) {
      MatchScpSound(u);
    }
    if IsScpUrl(u, p) {
      var host, tail :| host != [] && ':' !in host && IsLine(p, tail)
                      && u == "git@" + host + ":" + p + tail;
      MatchScpComplete(u, host, p, tail);
    }
  }

  lemma MatchHttpSound(u: string)
    requires MatchHttp(u).Some?
    ensures IsHttpUrl(u, MatchHttp(u).value)
  {
    var p := MatchHttp(u).value;
    var scheme := if HasPrefix(u, "https://") then "https://" else "http://";
    var hostAndPath := u[|scheme|..];
    assert AfterField(hostAndPath, '/').Some?;
    var rest := AfterField(hostAndPath, '/').value;
    assert LineCapture(rest) == Some(p);
    var host := AfterFieldParts(hostAndPath, '/');
    var tail := LineCaptureParts(rest);
    assert u == scheme + hostAndPath by {
      assert u[..|scheme|] == scheme;
      assert u == u[..|scheme|] + u[|scheme|..];
    }
    SplitFour(u, scheme, hostAndPath, host, '/', rest, p, tail);
  }

  lemma MatchHttpComplete(u: string, scheme: string, host: string, p: string, tail: string)
    requires scheme == "http://" || scheme == "https://"
    requires host != [] && '/' !in host && IsLine(p, tail)
    requires u == scheme + host + "/" + p + tail
    ensures MatchHttp(u) == Some(p)
  {
    assert HasPrefix(u, scheme);
    if scheme == "http://" {
      assert !HasPrefix(u, "https://") by { assert u[4] == ':'; }
    }
    assert u[|scheme|..] == host + ['/'] + (p + tail);
    AfterFieldOf(host, '/', p + tail);
    LineCaptureOf(p, tail);
  }

  /** Pattern 2 matches exactly `http://<host>/<path>` and `https://<host>/<path>`. */
  lemma MatchHttpSpec(u: string, p: string)
    ensures MatchHttp(u) == Some(p) <==> IsHttpUrl(u, p)
  {
    if MatchHttp(u) == Some(p) {
      MatchHttpSound(u);
    }
    if IsHttpUrl(u, p) {
      var scheme, host, tail :| (scheme == "http://" || scheme == "https://")
                              && host != [] && '/' !in host && IsLine(p, tail)
                              && u == scheme + host + "/" + p + tail;
      MatchHttpComplete(u, scheme, host, p, tail);
    }
  }

  lemma MatchSshProtocolSound(u: string)
    requires MatchSshProtocol(u).Some?
    ensures IsSshProtocolUrl(u, MatchSshProtocol(u).value)
  {
    var p := MatchSshProtocol(u).value;
    var hostAndPath := AfterField(u[6..], '@').value;
    assert AfterField(hostAndPath, '/').Some?;
    var rest := AfterField(hostAndPath, '/').value;
    assert LineCapture(rest) == Some(p);
    var user := AfterFieldParts(u[6..], '@');
    var host := AfterFieldParts(hostAndPath, '/');
    var tail := LineCaptureParts(rest);
    var userPart := "ssh://" + user + "@";
    assert u == userPart + hostAndPath by {
      assert u[..6] == "ssh://";
      assert u == u[..6] + u[6..];
    }
    SplitFour(u, userPart, hostAndPath, host, '/', rest, p, tail);
    assert userPart + host + "/" + p + tail == "ssh://" + user + "@" + host + "/" + p + tail;
  }

  lemma MatchSshProtocolComplete(u: string, user: string, host: string, p: string, tail: string)
    requires user != [] && '@' !in user && host != [] && '/' !in host && IsLine(p, tail)
    requires u == "ssh://" + user + "@" + host + "/" + p + tail
    ensures MatchSshProtocol(u) == Some(p)
  {
    assert HasPrefix(u, "ssh://");
    var hostAndPath := host + ['/'] + (p + tail);
    assert u[6..] == user + ['@'] + hostAndPath;
    AfterFieldOf(user, '@', hostAndPath);
    AfterFieldOf(host, '/', p + tail);
    LineCaptureOf(p, tail);
  }

  /** Pattern 3 matches exactly `ssh://<user>@<host>/<path>`; the host part may carry a port. */
  lemma MatchSshProtocolSpec(u: string, p: string)
    ensures MatchSshProtocol(u) == Some(p) <==> IsSshProtocolUrl(u, p)
  {
    if MatchSshProtocol(u) == Some(p) {
      MatchSshProtocolSound(u);
    }
    if IsSshProtocolUrl(u, p) {
      var user, host, tail :| user != [] && '@' !in user && host != [] && '/' !in host
                            && IsLine(p, tail)
                            && u == "ssh://" + user + "@" + host + "/" + p + tail;
      MatchSshProtocolComplete(u, user, host, p, tail);
    }
  }

  // ---- Properties of the whole parser ----

  /** Each pattern needs its literal prefix. */
  lemma MatchNeedsPrefix(u: string)
    ensures MatchScp(u).Some? ==> HasPrefix(u, "git@")
    ensures MatchHttp(u).Some? ==> HasPrefix(u, "http://") || HasPrefix(u, "https://")
    ensures MatchSshProtocol(u).Some? ==> HasPrefix(u, "ssh://")
  {
  }

  /** The first character of a string with prefix `p`. */
  lemma PrefixHead(u: string, p: string)
    requires HasPrefix(u, p) && p != []
    ensures u[0] == p[0]
  {
    assert u[..|p|][0] == u[0];
  }

  /** The three patterns start with different literals, so at most one matches and their order never matters. */
  lemma PatternsAreDisjoint(u: string)
    ensures !(MatchScp(u).Some? && MatchHttp(u).Some?)
    ensures !(MatchScp(u).Some? && MatchSshProtocol(u).Some?)
    ensures !(MatchHttp(u).Some? && MatchSshProtocol(u).Some?)
  {
    MatchNeedsPrefix(u);
    if MatchScp(u).Some? { PrefixHead(u, "git@"); }
    if MatchHttp(u).Some? {
      if HasPrefix(u, "http://") { PrefixHead(u, "http://"); } else { PrefixHead(u, "https://"); }
    }
    if MatchSshProtocol(u).Some? { PrefixHead(u, "ssh://"); }
  }

  /**
   * The parser answers `p` exactly when the normalised URL is one of the three
   * shapes with project path `p`; otherwise it fails and reports the normalised URL.
   */
  lemma ProjectFromRemoteUrlSpec(url: string, p: string)
    ensures var u := Normalize(url);
            ProjectFromRemoteUrl(url) == Ok(p) <==> (IsScpUrl(u, p) || IsHttpUrl(u, p) || IsSshProtocolUrl(u, p))
    ensures ProjectFromRemoteUrl(url).Err? ==> ProjectFromRemoteUrl(url).error == Normalize(url)
  {
    var u := Normalize(url);
    MatchScpSpec(u, p);
    MatchHttpSpec(u, p);
    MatchSshProtocolSpec(u, p);
    PatternsAreDisjoint(u);
  }

  /** A successful result is a non-empty single line. */
  lemma ProjectPathIsNonEmptyLine(url: string)
    requires ProjectFromRemoteUrl(url).Ok?
    ensures ProjectFromRemoteUrl(url).value != [] && '\n' !in ProjectFromRemoteUrl(url).value
  {
    var u := Normalize(url);
    if MatchScp(u).Some? { MatchScpSound(u); }
    else if MatchHttp(u).Some? { MatchHttpSound(u); }
    else { MatchSshProtocolSound(u); }
  }

  /** Appending a slash never changes the result: `rstrip("/")` removes it again. */
  lemma TrailingSlashIsIgnored(url: string)
    ensures ProjectFromRemoteUrl(url + "/") == ProjectFromRemoteUrl(url)
  {
    assert (url + "/")[..|url + "/"| - 1] == url;
    assert Normalize(url + "/") == Normalize(url);
  }

  /** Appending ".git" to a URL ending in neither "/" nor ".git" never changes the result. */
  lemma GitSuffixIsIgnored(url: string)
    requires !HasSuffix(url, "/") && !HasSuffix(url, ".git")
    ensures ProjectFromRemoteUrl(url + ".git") == ProjectFromRemoteUrl(url)
  {
    assert url == [] || url[|url| - 1] != '/' by {
      if url != [] { assert url[|url| - 1..] == [url[|url| - 1]]; }
    }
    assert RStripSlash(url) == url;
    assert RStripSlash(url + ".git") == url + ".git";
    assert HasSuffix(url + ".git", ".git");
    assert (url + ".git")[..|url + ".git"| - 4] == url;
  }

  /** A URL ending in neither "/" nor ".git" is already normal. */
  lemma NormalIsFixed(url: string)
    requires !HasSuffix(url, "/") && !HasSuffix(url, ".git")
    ensures Normalize(url) == url
  {
    assert url == [] || url[|url| - 1] != '/' by {
      if url != [] { assert url[|url| - 1..] == [url[|url| - 1]]; }
    }
  }

  /** A string whose first character differs from that of `p` does not start with `p`. */
  lemma NotPrefix(u: string, p: string)
    requires u != [] && p != [] && u[0] != p[0]
    ensures !HasPrefix(u, p)
  {
    if HasPrefix(u, p) { PrefixHead(u, p); }
  }
}
