/**
 * `AIGitHubProject.clean` (github/models.py): the validation run the admin
 * form performs before saving a project. It lives apart from the entity
 * because it drives the runner and the repository tools, which themselves
 * save the entity.
 */
module Validation {
  import opened Wrappers
  import opened Outcomes
  import opened Projects
  import opened Urls
  import opened FileSystem
  import opened Repos
  import opened Runner

  /** The decimal digit for `d`. */
  function DigitChar(d: nat): (c: char)
    requires d < 10
    ensures '0' <= c <= '9' && (c as int) - ('0' as int) == d
  {
    ('0' as int + d) as char
  }

  /** `str(n)` for a non-negative integer. */
  function NatToString(n: nat): (s: string)
    ensures |s| >= 1 && (forall k :: 0 <= k < |s| ==> '0' <= s[k] <= '9')
    ensures s[0] == '0' ==> n == 0
    decreases n
  {
    if n < 10 then [DigitChar(n)] else NatToString(n / 10) + [DigitChar(n % 10)]
  }

  /** The value of a string of decimal digits. */
  function DecimalValue(s: string): nat
    requires forall k :: 0 <= k < |s| ==> '0' <= s[k] <= '9'
    decreases |s|
  {
    if s == [] then 0
    else DecimalValue(s[..|s| - 1]) * 10 + ((s[|s| - 1] as int) - ('0' as int))
  }

  /** `str` on a port loses nothing: reading the digits back gives the port. */
  lemma {:induction false} NatToStringRoundTrip(n: nat)
    ensures DecimalValue(NatToString(n)) == n
    decreases n
  {
    if n >= 10 {
      NatToStringRoundTrip(n / 10);
      var s := NatToString(n);
      assert s[..|s| - 1] == NatToString(n / 10);
    }
  }

  const PORT_IN_USE_PREFIX: string := "Another process is already running on the port "
  const CLONE_FAILED_PREFIX: string := "An error occurred while cloning the project: "

  function PortInUseMessage(port: nat): string {
    PORT_IN_USE_PREFIX + NatToString(port)
  }

  function CloneFailedMessage(lastError: string): string {
    CLONE_FAILED_PREFIX + lastError
  }

  /** How `clean` ends once the clone step returned `cloned`: its exception
      passes through; otherwise a truthy `last_error` is refused, and nothing
      else is. */
  function Validated(cloned: Outcome, lastError: Option<string>): (o: Outcome)
    ensures o.Done? <==> cloned.Done? && !Truthy(lastError)
    ensures cloned.Done? && Truthy(lastError) ==> o == Raised(ValidationError(CloneFailedMessage(lastError.value)))
    ensures cloned.Raised? ==> o == cloned
  {
    if cloned.Raised? then cloned
    else if Truthy(lastError) then Raised(ValidationError(CloneFailedMessage(lastError.value)))
    else Done
  }

  /** The second half of `clean`: clone (or fetch) the project, then refuse
      it when that recorded an error. `cloned` is how the clone step ended. */
  method CloneChecked(p: Project, env: Env, git: Git, fs: FileSystem) returns (cloned: Outcome, o: Outcome)
    requires p.store.Valid()
    requires IsGitUrl(env.urisplit(p.url))
    modifies p`lastError, p`lastCommit, p`pk, p.store, fs
    ensures p.store.Valid() && p.pk == old(p.pk)
    ensures p.WroteOwnRowAtMost(old(p.store.rows))
    ensures CloneRel(TargetOf(p, env, git), old(StateOf(p, fs)), StateOf(p, fs), cloned)
    ensures o == Validated(cloned, p.lastError)
  {
    var tools := new RepoTools(p, env, git);
    cloned := tools.Pygit2CloneRepo(fs);
    o := cloned;
    if o.Raised? {
      return;
    }
    if Truthy(p.lastError) {
      return cloned, Raised(ValidationError(CloneFailedMessage(p.lastError.value)));
    }
  }

  /** The three steps of `clean` after its first assignments, from the state
      `b` (instance marked cleaned, last error cleared) to `a`: building the
      runner ends in `mid` with `i`; its exception passes through; a busy
      port is refused; otherwise the clone step from `mid` ends with `c` and
      settles the outcome. */
  ghost predicate CleanSteps(t: CloneTarget, b: CloneState, busy: bool, a: CloneState, o: Outcome,
                             mid: CloneState, i: Outcome, c: Outcome)
  {
    && InitRel(t, b, mid, i)
    && (i.Raised? ==> o == i && a == mid)
    && (i.Done? && busy ==> o == Raised(ValidationError(PortInUseMessage(t.settings.port))) && a == mid)
    && (i.Done? && !busy ==> CloneRel(t, mid, a, c) && o == Validated(c, a.lastError))
  }

  /** `clean` from `b` to `a`: some runner step and some clone step connect them. */
  ghost predicate CleanRel(t: CloneTarget, b: CloneState, busy: bool, a: CloneState, o: Outcome)
  {
    exists mid: CloneState, i: Outcome, c: Outcome :: CleanSteps(t, b, busy, a, o, mid, i, c)
  }

  /**
   * `clean`: mark the instance cleaned and clear its last error, then build
   * a runner (which clones a missing project and creates its log
   * directory), refuse a port something already listens on, clone or fetch,
   * and refuse the project when that recorded an error.
   */
  method Clean(p: Project, env: Env, git: Git, fs: FileSystem, os: Os) returns (o: Outcome)
    requires p.store.Valid()
    requires IsGitUrl(env.urisplit(p.url))
    modifies p`isCleaned, p`lastError, p`lastCommit, p`pk, p.store, fs
    ensures p.isCleaned
    ensures p.store.Valid() && p.pk == old(p.pk)
    ensures RowsAgreeOutside(old(p.store.rows), p.store.rows, p.pk)
    ensures p.pk == 0 ==> p.store.rows == old(p.store.rows)
    ensures o.Done? ==> !Truthy(p.lastError) && !os.probe(p.port)
    ensures Truthy(p.lastError) ==> o.Raised?
    ensures os.probe(p.port) ==> o.Raised?
    ensures var dir := LocalDir(env, p.url);
      os.probe(p.port) && old(fs.Exists(dir)) && old(fs.Exists(LogsDirIn(dir))) ==>
        && o == Raised(ValidationError(PortInUseMessage(p.port)))
        && p.lastError == None && p.lastCommit == old(p.lastCommit)
        && p.store.rows == old(p.store.rows) && fs.dirs == old(fs.dirs) && fs.files == old(fs.files)
    ensures CleanRel(TargetOf(p, env, git), old(StateOf(p, fs)).(lastError := None), os.probe(p.port), StateOf(p, fs), o)
  {
    ghost var pre := old(StateOf(p, fs)).(lastError := None);
    var runner;
    runner, o := MarkAndPrepare(p, env, git, fs);
    ghost var mid, i := StateOf(p, fs), o;
    if o.Raised? {
      assert CleanSteps(TargetOf(p, env, git), pre, os.probe(p.port), StateOf(p, fs), o, mid, i, Done);
      return;
    }
    var cloned;
    cloned, o := ProbeThenClone(p, runner, env, git, fs, os);
    assert CleanSteps(TargetOf(p, env, git), pre, os.probe(p.port), StateOf(p, fs), o, mid, i, cloned);
  }

  /** The first half of `clean`: mark the instance cleaned, clear its last
      error and build a runner, which clones a missing project and creates
      its log directory. */
  method MarkAndPrepare(p: Project, env: Env, git: Git, fs: FileSystem) returns (runner: Runner, o: Outcome)
    requires p.store.Valid()
    requires IsGitUrl(env.urisplit(p.url))
    modifies p`isCleaned, p`lastError, p`lastCommit, p`pk, p.store, fs
    ensures runner.project == p && p.isCleaned
    ensures p.store.Valid() && p.pk == old(p.pk)
    ensures p.WroteOwnRowAtMost(old(p.store.rows))
    ensures InitRel(TargetOf(p, env, git), old(StateOf(p, fs)).(lastError := None), StateOf(p, fs), o)
  {
    p.isCleaned := true;
    p.lastError := None;
    ghost var pre := StateOf(p, fs);
    assert pre == old(StateOf(p, fs)).(lastError := None);
    runner := new Runner(p, env, git);
    o := runner.Init(fs);
  }

  /** The rest of `clean` once the runner is built: refuse a busy port with
      nothing changed, else clone or fetch as `CloneChecked` says. */
  method ProbeThenClone(p: Project, runner: Runner, env: Env, git: Git, fs: FileSystem, os: Os)
    returns (cloned: Outcome, o: Outcome)
    requires runner.project == p
    requires p.store.Valid()
    requires IsGitUrl(env.urisplit(p.url))
    modifies p`lastError, p`lastCommit, p`pk, p.store, fs
    ensures p.store.Valid() && p.pk == old(p.pk)
    ensures p.WroteOwnRowAtMost(old(p.store.rows))
    ensures os.probe(p.port) ==> o == Raised(ValidationError(PortInUseMessage(p.port))) && StateOf(p, fs) == old(StateOf(p, fs))
    ensures !os.probe(p.port) ==>
      CloneRel(TargetOf(p, env, git), old(StateOf(p, fs)), StateOf(p, fs), cloned) && o == Validated(cloned, p.lastError)
  {
    var running := runner.IsApplicationRunning(os);
    if running {
      return Done, Raised(ValidationError(PortInUseMessage(p.port)));
    }
    cloned, o := CloneChecked(p, env, git, fs);
  }
}
