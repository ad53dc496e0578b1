/**
 * The string assembly of github/utils.py: the repository URL handed to git
 * (`RepoTools.get_repo_url`) and the on-disk paths derived from a project's
 * URL (`local_dir`, `env_path`, the two log paths). URL parsing, `quote_plus`
 * and `os.path.abspath` are library code and enter as uninterpreted functions.
 */
module Urls {
  import opened Wrappers
  import opened Outcomes

  /** The parts `uritools.urisplit` yields; `path` is always a (possibly empty) string. */
  datatype UrlParts = UrlParts(
    scheme: Option<string>,
    host: Option<string>,
    port: Option<string>,
    path: string,
    query: Option<string>)

  /** The library functions and settings the core takes as given. */
  datatype Env = Env(
    urisplit: string -> UrlParts,
    quotePlus: Option<string> -> string,
    abspath: string -> string,
    /** The joined lines of `traceback.format_exc()` for an exception. */
    formatExc: Exc -> string,
    /** `settings.GIT_REPOS_DIR`. */
    gitReposDir: string)

  /** Python truthiness of a nullable text value. */
  predicate Truthy(s: Option<string>) {
    s.Some? && s.value != ""
  }

  /** `value or ''`. */
  function OrEmpty(s: Option<string>): string {
    if s.Some? then s.value else ""
  }

  /** The schemes the URL field's validator accepts. */
  const GIT_SCHEMES: set<string> := {"http", "https", "ssh", "git"}

  /** What the URL validator guarantees of every stored project URL. */
  predicate IsGitUrl(parts: UrlParts) {
    parts.scheme.Some? && parts.scheme.value in GIT_SCHEMES && parts.host.Some?
  }

  /** `str.lower` on ASCII letters; every other character is kept. */
  function LowerAscii(s: string): (r: string)
    ensures |r| == |s|
    ensures forall k :: 0 <= k < |s| ==>
      r[k] == (if 'A' <= s[k] <= 'Z' then (s[k] as int - 'A' as int + 'a' as int) as char else s[k])
    decreases |s|
  {
    if s == [] then []
    else
      var c := s[0];
      [if 'A' <= c <= 'Z' then (c as int - 'A' as int + 'a' as int) as char else c] + LowerAscii(s[1..])
  }

  /** `url_parts.getscheme(default='ssh')`: the scheme in lower case, and ssh
      for a URL without one. */
  function SchemeOrSsh(parts: UrlParts): (s: string)
    ensures parts.scheme.None? ==> s == "ssh"
    ensures parts.scheme.Some? ==> s == LowerAscii(parts.scheme.value)
  {
    if parts.scheme.Some? then LowerAscii(parts.scheme.value) else "ssh"
  }

  /** The callback and the URL builder read the scheme differently: the
      callback lower-cases it, the builder takes it as written, so an
      upper-case `SSH` URL asks for ssh credentials but is built without a user. */
  lemma {:induction false} UpperCaseSshScheme(parts: UrlParts)
    requires parts.scheme == Some("SSH")
    ensures SchemeOrSsh(parts) == "ssh"
    ensures EffectiveScheme(parts, None) == Some("SSH")
  {
    var l := LowerAscii("SSH");
    assert l[0] == 's' && l[1] == 's' && l[2] == 'h';
    assert l == "ssh";
  }

  /** The `new_username` argument: omitted (None), False, or a string. */
  datatype UsernameArg = NoUsername | StripUsername | NewUsername(name: string)

  /** The project fields `get_repo_url` reads. */
  datatype RepoRef = RepoRef(url: string, gitUsername: Option<string>)

  /** `new_scheme if new_scheme else url_parts.scheme`: a non-empty override
      wins, and otherwise the URL's own scheme, as written, is kept. */
  function EffectiveScheme(parts: UrlParts, newScheme: Option<string>): (s: Option<string>)
    ensures Truthy(newScheme) ==> s == newScheme
    ensures !Truthy(newScheme) ==> s == parts.scheme
    ensures IsGitUrl(parts) ==> s.Some?
  {
    if Truthy(newScheme) then newScheme else parts.scheme
  }

  /** The username after the overrides: a truthy new name wins, and False
      blanks it unless the scheme is ssh. */
  function EffectiveUsername(scheme: string, projectUsername: Option<string>, arg: UsernameArg): (u: Option<string>)
    ensures arg.NewUsername? && arg.name != "" ==> u == Some(arg.name)
    ensures arg.StripUsername? ==> u == (if scheme == "ssh" then projectUsername else Some(""))
    ensures arg.NoUsername? || arg == NewUsername("") ==> u == projectUsername
  {
    var u := if arg.NewUsername? && arg.name != "" then Some(arg.name) else projectUsername;
    if arg.StripUsername? && scheme != "ssh" then Some("") else u
  }

  /** `':' + port` when the URL has a non-empty port, else nothing. */
  function PortSuffix(parts: UrlParts): (s: string)
    ensures Truthy(parts.port) <==> s != ""
    ensures s != "" ==> s[0] == ':' && s[1..] == parts.port.value
  {
    if Truthy(parts.port) then ":" + parts.port.value else ""
  }

  /** Everything after the user information: host, port, path and query, the
      query appended with no `?` in between. */
  function HostAndTail(parts: UrlParts): string
    requires parts.host.Some?
  {
    parts.host.value + PortSuffix(parts) + parts.path + OrEmpty(parts.query)
  }

  /** `get_repo_url(new_scheme, new_username)`, with the credential probe left
      out (its result and its exceptions are discarded; `RepoTools.GetRepoUrl`
      performs it and is proved to return this value). */
  function RepoUrl(env: Env, project: Option<RepoRef>, newScheme: Option<string>, newUsername: UsernameArg): (r: string)
    requires project.Some? ==> IsGitUrl(env.urisplit(project.value.url))
    ensures project.None? ==> r == ""
  {
    if project.None? then ""
    else
      var parts := env.urisplit(project.value.url);
      var scheme := EffectiveScheme(parts, newScheme).value;
      var user := EffectiveUsername(scheme, project.value.gitUsername, newUsername);
      if scheme == "ssh" then scheme + "://" + env.quotePlus(user) + "@" + HostAndTail(parts)
      else scheme + "://" + HostAndTail(parts)
  }

  /** The scheme of the result is the override when one is given, and the URL's own otherwise. */
  lemma RepoUrlScheme(env: Env, p: RepoRef, newScheme: Option<string>, newUsername: UsernameArg)
    requires IsGitUrl(env.urisplit(p.url))
    ensures var s := if Truthy(newScheme) then newScheme.value else env.urisplit(p.url).scheme.value;
            var r := RepoUrl(env, Some(p), newScheme, newUsername);
            |s| + 3 <= |r| && r[..|s| + 3] == s + "://"
  {
  }

  /** Only an ssh URL carries a user: switching a project between https and
      ssh adds or removes exactly the encoded `user@` in front of the host. */
  lemma SchemeSwitch(env: Env, p: RepoRef, newUsername: UsernameArg)
    requires IsGitUrl(env.urisplit(p.url))
    ensures var parts := env.urisplit(p.url);
            var user := EffectiveUsername("ssh", p.gitUsername, newUsername);
            && RepoUrl(env, Some(p), Some("ssh"), newUsername) == "ssh://" + env.quotePlus(user) + "@" + HostAndTail(parts)
            && RepoUrl(env, Some(p), Some("https"), newUsername) == "https://" + HostAndTail(parts)
  {
  }

  /** For any scheme but ssh the username never reaches the URL: neither the
      override nor the project's own username changes it. */
  lemma NonSshUrlIgnoresUsername(env: Env, p: RepoRef, otherUsername: Option<string>,
                                 newScheme: Option<string>, a: UsernameArg, b: UsernameArg)
    requires IsGitUrl(env.urisplit(p.url))
    requires EffectiveScheme(env.urisplit(p.url), newScheme).value != "ssh"
    ensures RepoUrl(env, Some(p), newScheme, a) == RepoUrl(env, Some(p.(gitUsername := otherUsername)), newScheme, b)
  {
  }

  /** `new_username=False` never changes the URL: over ssh False is falsy and
      the project's username is kept, and elsewhere no username is embedded. */
  lemma StripUsernameKeepsUrl(env: Env, p: RepoRef, newScheme: Option<string>)
    requires IsGitUrl(env.urisplit(p.url))
    ensures RepoUrl(env, Some(p), newScheme, StripUsername) == RepoUrl(env, Some(p), newScheme, NoUsername)
  {
  }

  /** `get_repo_url` as written: under Python 3 the module `urllib` has no
      `quote_plus`, so the ssh branch raises before any URL is built. Every
      other case returns what `RepoUrl` returns. */
  function RepoUrlAsWritten(env: Env, project: Option<RepoRef>, newScheme: Option<string>, newUsername: UsernameArg): (r: Result<string, Exc>)
    requires project.Some? ==> IsGitUrl(env.urisplit(project.value.url))
    ensures r.Success? ==> r.value == RepoUrl(env, project, newScheme, newUsername)
  {
    if project.None? then Success("")
    else if EffectiveScheme(env.urisplit(project.value.url), newScheme).value == "ssh" then
      Failure(AttributeError("quote_plus"))
    else Success(RepoUrl(env, project, newScheme, newUsername))
  }

  /** The discrepancy: whenever the effective scheme is ssh, whether from the
      stored URL with no override or from `new_scheme`, the code as written
      fails, while the intended URL embeds the encoded user. */
  lemma SshRepoUrlFailsAsWritten(env: Env, p: RepoRef, newScheme: Option<string>, newUsername: UsernameArg)
    requires IsGitUrl(env.urisplit(p.url))
    requires EffectiveScheme(env.urisplit(p.url), newScheme) == Some("ssh")
    ensures RepoUrlAsWritten(env, Some(p), newScheme, newUsername) == Failure(AttributeError("quote_plus"))
    ensures RepoUrl(env, Some(p), newScheme, newUsername)
            == "ssh://" + env.quotePlus(EffectiveUsername("ssh", p.gitUsername, newUsername)) + "@" + HostAndTail(env.urisplit(p.url))
  {
  }

  /** The call `git_fetch` and `pygit2_clone_repo` make, `get_repo_url()`
      with no arguments, fails as written for every stored ssh URL. */
  lemma StoredSshUrlFailsAsWritten(env: Env, p: RepoRef)
    requires IsGitUrl(env.urisplit(p.url)) && env.urisplit(p.url).scheme == Some("ssh")
    ensures RepoUrlAsWritten(env, Some(p), None, NoUsername) == Failure(AttributeError("quote_plus"))
  {
    SshRepoUrlFailsAsWritten(env, p, None, NoUsername);
  }

  // --- paths -------------------------------------------------------------

  const LOGS_DIR: string := "logs"
  const ACCESS_LOG: string := LOGS_DIR + "/access.log"
  const ERROR_LOG: string := LOGS_DIR + "/error.log"
  const ENV_DIR: string := ".env"

  /** `os.path.abspath(f'{GIT_REPOS_DIR}{url_parts.path}')`, the same for
      `RepoTools` and `AIApplicationRunner`. */
  function LocalDir(env: Env, url: string): string {
    env.abspath(env.gitReposDir + env.urisplit(url).path)
  }

  /** The local directory depends on the URL's path alone: scheme, host,
      port, query and credentials play no part in it. */
  lemma LocalDirByPath(env: Env, u: string, v: string)
    requires env.urisplit(u).path == env.urisplit(v).path
    ensures LocalDir(env, u) == LocalDir(env, v)
  {
  }

  function EnvPathIn(localDir: string): string { localDir + "/" + ENV_DIR }
  function LogsDirIn(localDir: string): string { localDir + "/" + LOGS_DIR }
  function AccessLogIn(localDir: string): string { localDir + "/" + ACCESS_LOG }
  function ErrorLogIn(localDir: string): string { localDir + "/" + ERROR_LOG }

  /** `p` is `root` or lies beneath it. */
  predicate Under(p: string, root: string) {
    p == root || (|root| + 1 <= |p| && p[..|root| + 1] == root + "/")
  }

  /** The four per-project paths are distinct, all lie beneath the project's
      directory, and both log files lie beneath the log directory. */
  lemma {:induction false} RunnerPathsLayout(d: string)
    ensures Under(EnvPathIn(d), d) && Under(LogsDirIn(d), d)
    ensures Under(AccessLogIn(d), d) && Under(ErrorLogIn(d), d)
    ensures Under(AccessLogIn(d), LogsDirIn(d)) && Under(ErrorLogIn(d), LogsDirIn(d))
    ensures AccessLogIn(d) != ErrorLogIn(d)
    ensures EnvPathIn(d) !in {LogsDirIn(d), AccessLogIn(d), ErrorLogIn(d)}
    ensures LogsDirIn(d) !in {AccessLogIn(d), ErrorLogIn(d)}
    ensures !Under(LogsDirIn(d), EnvPathIn(d)) && !Under(AccessLogIn(d), EnvPathIn(d)) && !Under(ErrorLogIn(d), EnvPathIn(d))
  {
    var n := |d|;
    assert EnvPathIn(d)[..n + 1] == d + "/";
    assert LogsDirIn(d)[..n + 1] == d + "/";
    assert AccessLogIn(d)[..n + 1] == d + "/";
    assert ErrorLogIn(d)[..n + 1] == d + "/";
    assert AccessLogIn(d)[..n + 6] == LogsDirIn(d) + "/";
    assert ErrorLogIn(d)[..n + 6] == LogsDirIn(d) + "/";
    assert AccessLogIn(d)[n + 6] == 'a' && ErrorLogIn(d)[n + 6] == 'e';
    assert EnvPathIn(d)[n + 1] == '.' && LogsDirIn(d)[n + 1] == 'l';
    assert AccessLogIn(d)[n + 1] == 'l' && ErrorLogIn(d)[n + 1] == 'l';
    assert |LogsDirIn(d)| == n + 5 && |AccessLogIn(d)| == n + 16 && |ErrorLogIn(d)| == n + 15;
  }
}
