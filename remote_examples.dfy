/**
 * The remote URLs documented at src/gibr/mr.py:17-20, first for every host
 * and path of their shape, then for the documented host and path.
 */
module GitRemoteExamples {
  import opened Wrappers
  import opened Text
  import opened GitRemote

  /** What `(.+)$` and normalisation need of a project path. */
  predicate IsPlainPath(path: string) {
    path != [] && '\n' !in path && !HasSuffix(path, "/") && !HasSuffix(path, ".git")
  }

  /** A URL made of a lead ending in ':' or '/' and a plain path is already normal. */
  lemma PlainPathEnding(lead: string, path: string)
    requires lead != [] && (lead[|lead| - 1] == ':' || lead[|lead| - 1] == '/')
    requires IsPlainPath(path)
    ensures Normalize(lead + path) == lead + path
    ensures ProjectFromRemoteUrl(lead + path + ".git") == ProjectFromRemoteUrl(lead + path)
  {
    PlainPathEndsPlain(lead, path);
    NormalIsFixed(lead + path);
    GitSuffixIsIgnored(lead + path);
  }

  lemma PlainPathEndsPlain(lead: string, path: string)
    requires lead != [] && (lead[|lead| - 1] == ':' || lead[|lead| - 1] == '/')
    requires IsPlainPath(path)
    ensures !HasSuffix(lead + path, "/") && !HasSuffix(lead + path, ".git")
  {
    var u := lead + path;
    assert u[|u| - 1..] == path[|path| - 1..];
    if |path| >= 4 {
      assert u[|u| - 4..] == path[|path| - 4..];
    } else if |u| >= 4 {
      ShortPathEnding(lead, path);
    }
  }

  lemma ShortPathEnding(lead: string, path: string)
    requires lead != [] && (lead[|lead| - 1] == ':' || lead[|lead| - 1] == '/')
    requires |path| < 4 <= |lead + path|
    ensures (lead + path)[|lead + path| - 4..] != ".git"
  {
    var u := lead + path;
    var j := 3 - |path|;
    assert u[|u| - 4..][j] == lead[|lead| - 1];
    assert ".git"[j] != lead[|lead| - 1] by {
      if j == 0 {} else if j == 1 {} else if j == 2 {} else {}
    }
  }

  /** `git@<host>:<path>.git`, as at src/gibr/mr.py:18, gives `<path>`. */
  lemma ScpUrlGivesPath(host: string, path: string)
    requires host != [] && ':' !in host && IsPlainPath(path)
    ensures ProjectFromRemoteUrl("git@" + host + ":" + path + ".git") == Ok(path)
  {
    var lead := "git@" + host + ":";
    PlainPathEnding(lead, path);
    MatchScpComplete(lead + path, host, path, "");
  }

  /** `http(s)://<host>/<path>.git`, as at src/gibr/mr.py:19, gives `<path>`. */
  lemma HttpUrlGivesPath(scheme: string, host: string, path: string)
    requires scheme == "http://" || scheme == "https://"
    requires host != [] && '/' !in host && IsPlainPath(path)
    ensures ProjectFromRemoteUrl(scheme + host + "/" + path + ".git") == Ok(path)
  {
    var lead := scheme + host + "/";
    PlainPathEnding(lead, path);
    MatchHttpComplete(lead + path, scheme, host, path, "");
    PatternsAreDisjoint(lead + path);
  }

  /** `ssh://<user>@<host>/<path>.git`, as at src/gibr/mr.py:20, gives `<path>`. */
  lemma SshProtocolUrlGivesPath(user: string, host: string, path: string)
    requires user != [] && '@' !in user && host != [] && '/' !in host && IsPlainPath(path)
    ensures ProjectFromRemoteUrl("ssh://" + user + "@" + host + "/" + path + ".git") == Ok(path)
  {
    var lead := "ssh://" + user + "@" + host + "/";
    PlainPathEnding(lead, path);
    MatchSshProtocolComplete(lead + path, user, host, path, "");
    PatternsAreDisjoint(lead + path);
  }

  lemma ScpExample()
    ensures ProjectFromRemoteUrl("git@" + "gitlab.example.com" + ":" + "group/project" + ".git") == Ok("group/project")
  {
    ScpUrlGivesPath("gitlab.example.com", "group/project");
  }

  lemma HttpsExample()
    ensures ProjectFromRemoteUrl("https://" + "gitlab.example.com" + "/" + "group/project" + ".git") == Ok("group/project")
  {
    HttpUrlGivesPath("https://", "gitlab.example.com", "group/project");
  }

  lemma SshProtocolExample()
    ensures ProjectFromRemoteUrl("ssh://" + "git" + "@" + "gitlab.example.com:2222" + "/" + "group/project" + ".git")
         == Ok("group/project")
  {
    SshProtocolUrlGivesPath("git", "gitlab.example.com:2222", "group/project");
  }

  lemma FileUrlIsRejected(url: string)
    requires url == "file:///srv/repo"
    ensures ProjectFromRemoteUrl(url) == Err(url)
  {
    assert !HasSuffix(url, "/") && !HasSuffix(url, ".git");
    NormalIsFixed(url);
    MatchNeedsPrefix(url);
    NotPrefix(url, "git@");
    NotPrefix(url, "http://");
    NotPrefix(url, "https://");
    NotPrefix(url, "ssh://");
  }
}
