/**
 * `AIApplicationRunner` (github/utils.py): the per-project process runner.
 * The liveness probe (a TCP connect to the project's port), `lsof` and
 * `kill` are oracles passed in as functions; the gunicorn/pip shell step of
 * `run` and `create_env` are not part of this model.
 */
module Runner {
  import opened Wrappers
  import opened Outcomes
  import opened Projects
  import opened Urls
  import opened FileSystem
  import opened Repos

  /** A signal sent with `kill`. */
  datatype Signal = Term(pid: string) | Kill(pid: string)

  /** The operating system as the runner sees it. */
  datatype Os = Os(
    /** Does a TCP connect to 127.0.0.1:port succeed? */
    probe: int -> bool,
    /** The pids `lsof -t -i:port` prints, already split on whitespace. */
    lsof: int -> seq<string>,
    /** Exit code of `kill -TERM pid`. */
    termCode: string -> int,
    /** Exit code of `kill -KILL pid`. */
    killCode: string -> int)

  /** The signals for one pid: TERM, then KILL only when TERM failed. */
  function PidSignals(pid: string, os: Os): (r: seq<Signal>)
    ensures 1 <= |r| <= 2 && r[0] == Term(pid)
    ensures |r| == 2 <==> os.termCode(pid) != 0
    ensures |r| == 2 ==> r[1] == Kill(pid)
  {
    [Term(pid)] + (if os.termCode(pid) != 0 then [Kill(pid)] else [])
  }

  /** The signals for a list of pids, in pid order. */
  function Signals(pids: seq<string>, os: Os): (r: seq<Signal>)
    ensures |pids| <= |r| <= 2 * |pids|
    decreases |pids|
  {
    if pids == [] then [] else Signals(pids[..|pids| - 1], os) + PidSignals(pids[|pids| - 1], os)
  }

  /** Both signals failed: `kill -KILL` runs with `check=True` and raises. */
  predicate Fatal(pid: string, os: Os) {
    os.termCode(pid) != 0 && os.killCode(pid) != 0
  }

  /** How many pids the loop handles: up to and including the first fatal one. */
  function Handled(pids: seq<string>, os: Os): (n: nat)
    ensures n <= |pids|
    ensures forall j :: 0 <= j < n - 1 ==> !Fatal(pids[j], os)
    ensures (0 < n && Fatal(pids[n - 1], os)) || (n == |pids| && forall j :: 0 <= j < n ==> !Fatal(pids[j], os))
    decreases |pids|
  {
    if pids == [] then 0
    else if Fatal(pids[0], os) then 1
    else 1 + Handled(pids[1..], os)
  }

  /** The pids of the TERM signals in a list of signals. */
  function TermedPids(s: seq<Signal>): seq<string>
    decreases |s|
  {
    if s == [] then [] else TermedPids(s[..|s| - 1]) + (if s[|s| - 1].Term? then [s[|s| - 1].pid] else [])
  }

  lemma {:induction false} TermedPidsAppend(a: seq<Signal>, b: seq<Signal>)
    ensures TermedPids(a + b) == TermedPids(a) + TermedPids(b)
    decreases |b|
  {
    if b == [] {
      assert a + b == a;
    } else {
      var b' := b[..|b| - 1];
      assert (a + b)[..|a + b| - 1] == a + b';
      TermedPidsAppend(a, b');
    }
  }

  /** Every pid gets exactly one TERM, in the order `lsof` listed them. */
  lemma {:induction false} EveryPidTermedOnce(pids: seq<string>, os: Os)
    ensures TermedPids(Signals(pids, os)) == pids
    decreases |pids|
  {
    if pids != [] {
      var init := pids[..|pids| - 1];
      var last := pids[|pids| - 1];
      assert Signals(pids, os) == Signals(init, os) + PidSignals(last, os);
      EveryPidTermedOnce(init, os);
      TermedPidsAppend(Signals(init, os), PidSignals(last, os));
      PidTermedOnce(last, os);
      assert init + [last] == pids;
    }
  }

  /** One pid's signals hold exactly one TERM, to that pid. */
  lemma PidTermedOnce(pid: string, os: Os)
    ensures TermedPids(PidSignals(pid, os)) == [pid]
  {
    var one := [Term(pid)];
    assert TermedPids(one) == [pid] by {
      assert one[..0] == [];
    }
    if os.termCode(pid) != 0 {
      var two := [Term(pid), Kill(pid)];
      assert two[..1] == one;
      assert PidSignals(pid, os) == two;
    }
  }

  /** Every KILL in `s` comes right after a TERM to the same pid that failed. */
  predicate KillsFollowFailedTerms(s: seq<Signal>, os: Os) {
    forall i :: 0 <= i < |s| && s[i].Kill? ==>
      0 < i && s[i - 1] == Term(s[i].pid) && os.termCode(s[i].pid) != 0
  }

  /** A KILL is sent only right after a TERM to the same pid that failed. */
  lemma {:induction false} KillOnlyAfterFailedTerm(pids: seq<string>, os: Os)
    ensures KillsFollowFailedTerms(Signals(pids, os), os)
    decreases |pids|
  {
    if pids != [] {
      KillOnlyAfterFailedTerm(pids[..|pids| - 1], os);
      var pre := Signals(pids[..|pids| - 1], os);
      var s := Signals(pids, os);
      forall i | 0 <= i < |s| && s[i].Kill?
        ensures 0 < i && s[i - 1] == Term(s[i].pid) && os.termCode(s[i].pid) != 0
      {
        if i < |pre| {
          assert s[i] == pre[i] && pre[i].Kill?;
          assert 0 < i;
          assert s[i - 1] == pre[i - 1];
        } else {
          var last := pids[|pids| - 1];
          assert s == pre + PidSignals(last, os);
          assert i == |pre| + 1 && s[i] == Kill(last) && s[i - 1] == Term(last);
        }
      }
    }
  }

  /** The pid whose KILL fails, if the loop over `pids` reaches one. */
  function FatalPid(pids: seq<string>, os: Os): (r: Option<string>)
    ensures r.Some? <==> exists j :: 0 <= j < |pids| && Fatal(pids[j], os)
    ensures r.Some? ==> Fatal(r.value, os) && r.value in pids
  {
    var n := Handled(pids, os);
    if 0 < n && Fatal(pids[n - 1], os) then Some(pids[n - 1]) else None
  }

  /** One more pid adds its own signals at the end. */
  lemma SignalsStep(pids: seq<string>, i: nat, os: Os)
    requires i < |pids|
    ensures Signals(pids[..i + 1], os) == Signals(pids[..i], os) + PidSignals(pids[i], os)
  {
    assert pids[..i + 1][..i] == pids[..i];
  }

  /** One iteration of that loop: `kill -TERM`, then `kill -KILL` when TERM
      failed; `failed` says the KILL failed too. */
  method SignalPid(pid: string, os: Os) returns (sent: seq<Signal>, failed: bool)
    ensures sent == PidSignals(pid, os)
    ensures failed == Fatal(pid, os)
  {
    sent := [Term(pid)];
    failed := false;
    if os.termCode(pid) != 0 {
      sent := sent + [Kill(pid)];
      failed := os.killCode(pid) != 0;
    }
  }

  /** The loop of `kill_application` over the pids `lsof` printed. */
  method SignalPids(pids: seq<string>, os: Os) returns (sent: seq<Signal>, fatal: Option<string>)
    ensures sent == Signals(pids[..Handled(pids, os)], os)
    ensures fatal == FatalPid(pids, os)
  {
    sent := [];
    var i := 0;
    while i < |pids|
      invariant 0 <= i <= |pids|
      invariant forall j :: 0 <= j < i ==> !Fatal(pids[j], os)
      invariant sent == Signals(pids[..i], os)
    {
      SignalsStep(pids, i, os);
      var signals, failed := SignalPid(pids[i], os);
      sent := sent + signals;
      if failed {
        HandledStopsAtFirstFatal(pids, i, os);
        return sent, Some(pids[i]);
      }
      i := i + 1;
    }
    HandledWithoutFatal(pids, os);
    assert pids[..i] == pids;
    fatal := None;
  }

  /** The `os.mkdir` step of `__init__`: from directories `dirs` to `after`,
      the logs directory is created when it is missing. */
  ghost predicate LogsDirMade(dir: string, dirs: set<string>, files: map<string, string>, o: Outcome,
                              after: set<string>) {
    var logs := LogsDirIn(dir);
    if logs in dirs || logs in files then o == Done && after == dirs
    else o == (if dir in files then Raised(NotADirectoryError(logs))
               else if dir !in dirs then Raised(FileNotFoundError(logs)) else Done)
         && after == (if o.Done? then dirs + {logs} else dirs)
  }

  /**
   * `__init__` from `b` to `a`: a present project only gets its logs
   * directory; a missing one is first cloned as `pygit2_clone_repo` clones,
   * and an exception from that ends the constructor.
   */
  ghost predicate InitRel(t: CloneTarget, b: CloneState, a: CloneState, o: Outcome) {
    if t.dir in b.dirs || t.dir in b.files then
      && a.lastCommit == b.lastCommit && a.lastError == b.lastError && a.rows == b.rows && a.files == b.files
      && LogsDirMade(t.dir, b.dirs, b.files, o, a.dirs)
    else exists c: Outcome, mid: CloneState ::
      && ClonedFreshRel(t, b, mid, c)
      && a.lastCommit == mid.lastCommit && a.lastError == mid.lastError && a.rows == mid.rows && a.files == mid.files
      && (if c.Raised? then o == c && a.dirs == mid.dirs else LogsDirMade(t.dir, mid.dirs, mid.files, o, a.dirs))
  }

  /** The pid whose `kill -KILL` fails, if `kill_application` for `port` gets to one. */
  function KillFailure(port: int, os: Os): Option<string> {
    if os.probe(port) then FatalPid(os.lsof(port), os) else None
  }

  /** How `kill_application` for the project in `dir` on `port` ends, for the
      directories it starts from. */
  function StopOutcome(dir: string, port: int, os: Os, dirs: set<string>): Outcome {
    if KillFailure(port, os).Some? then Raised(CalledProcessError(["kill", "-KILL", KillFailure(port, os).value]))
    else if AccessLogIn(dir) in dirs then Raised(IsADirectoryError(AccessLogIn(dir)))
    else if ErrorLogIn(dir) in dirs then Raised(IsADirectoryError(ErrorLogIn(dir)))
    else Done
  }

  /** How `run` up to its shell step ends: the stop's exception, else the one
      `rmtree` raises on an env path that is a regular file. */
  function RunOutcome(dir: string, port: int, os: Os, dirs: set<string>, files: map<string, string>): (o: Outcome)
    ensures o.Done? <==> StopOutcome(dir, port, os, dirs).Done? && EnvPathIn(dir) !in files
  {
    var stop := StopOutcome(dir, port, os, dirs);
    if stop.Raised? then stop
    else if EnvPathIn(dir) in files then Raised(NotADirectoryError(EnvPathIn(dir)))
    else Done
  }

  /** The files after a restart of the project in `dir` up to its shell step:
      the two logs and, when the virtualenv was there, everything beneath it
      are gone, and the logs are back empty when their directory exists. */
  function RestartedFiles(dir: string, files: map<string, string>, envRemoved: bool, logsDir: bool): map<string, string> {
    var kept := map f | f in files && f != AccessLogIn(dir) && f != ErrorLogIn(dir)
                        && !(envRemoved && Under(f, EnvPathIn(dir))) :: files[f];
    if logsDir then kept[AccessLogIn(dir) := ""][ErrorLogIn(dir) := ""] else kept
  }

  /** Whether the two logs were there beforehand makes no difference to a restart. */
  lemma RestartedFilesWithoutLogs(dir: string, files: map<string, string>, envRemoved: bool, logsDir: bool)
    ensures RestartedFiles(dir, files - {AccessLogIn(dir), ErrorLogIn(dir)}, envRemoved, logsDir)
            == RestartedFiles(dir, files, envRemoved, logsDir)
  {
    var a := map f | f in files - {AccessLogIn(dir), ErrorLogIn(dir)} && f != AccessLogIn(dir)
                     && f != ErrorLogIn(dir) && !(envRemoved && Under(f, EnvPathIn(dir))) :: files[f];
    var b := map f | f in files && f != AccessLogIn(dir) && f != ErrorLogIn(dir)
                     && !(envRemoved && Under(f, EnvPathIn(dir))) :: files[f];
    assert a == b;
  }

  /**
   * `run` up to its shell step for the project in `dir` on `port`, from the
   * directories and files `dirs`, `files` to `dirs'`, `files'`: it ends as
   * `RunOutcome` says; on success the virtualenv tree is gone and the files
   * are as `RestartedFiles` says; on an exception no directory changes and at
   * most the two log files are gone.
   */
  ghost predicate RunRel(dir: string, port: int, os: Os, dirs: set<string>, files: map<string, string>,
                         dirs': set<string>, files': map<string, string>, o: Outcome) {
    var env := EnvPathIn(dir);
    && o == RunOutcome(dir, port, os, dirs, files)
    && (o.Done? ==>
          && dirs' == (if env in dirs then set d | d in dirs && !Under(d, env) else dirs)
          && files' == RestartedFiles(dir, files, env in dirs, LogsDirIn(dir) in dirs))
    && (o.Raised? ==>
          && dirs' == dirs
          && files'.Keys <= files.Keys && (forall f :: f in files' ==> files'[f] == files[f])
          && (forall f :: f in files && f != AccessLogIn(dir) && f != ErrorLogIn(dir) ==> f in files'))
  }

  class Runner {
    const project: Project
    const env: Env
    const git: Git
    const localDir: string := LocalDir(env, project.url)

    /** The pure part of `__init__`: the local directory, computed as `RepoTools` computes it. */
    constructor (project: Project, env: Env, git: Git)
      ensures this.project == project && this.env == env && this.git == git
      ensures localDir == LocalDir(env, project.url)
    {
      this.project, this.env, this.git := project, env, git;
    }

    /**
     * The rest of `__init__`: clone the project when its directory is missing,
     * then create the log directory when that is missing. `os.mkdir` raises
     * when the clone did not leave the project directory behind.
     */
    method Init(fs: FileSystem) returns (o: Outcome)
      requires project.store.Valid()
      requires IsGitUrl(env.urisplit(project.url))
      modifies project`lastCommit, project`lastError, project`pk, project.store, fs
      ensures project.store.Valid() && project.pk == old(project.pk)
      ensures project.WroteOwnRowAtMost(old(project.store.rows))
      ensures o.Done? ==> fs.Exists(LogsDirIn(localDir))
      ensures old(fs.Exists(localDir)) ==>
        && project.lastCommit == old(project.lastCommit) && project.lastError == old(project.lastError)
        && project.store.rows == old(project.store.rows) && fs.files == old(fs.files)
        && (if old(fs.Exists(LogsDirIn(localDir))) then o == Done && fs.dirs == old(fs.dirs)
            else o == (if localDir in old(fs.files) then Raised(NotADirectoryError(LogsDirIn(localDir)))
                       else if localDir !in old(fs.dirs) then Raised(FileNotFoundError(LogsDirIn(localDir))) else Done)
                 && fs.dirs == (if o.Done? then old(fs.dirs) + {LogsDirIn(localDir)} else old(fs.dirs)))
      ensures InitRel(TargetOf(project, env, git), old(StateOf(project, fs)), StateOf(project, fs), o)
    {
      ghost var t := TargetOf(project, env, git);
      if !fs.Exists(localDir) {
        o := CloneMissing(fs);
        ghost var c, mid := o, StateOf(project, fs);
        assert ClonedFreshRel(t, old(StateOf(project, fs)), mid, c);
        if o.Raised? {
          return;
        }
        o := Done;
        if !fs.Exists(LogsDirIn(localDir)) {
          o := fs.MakeDir(LogsDirIn(localDir), localDir);
        }
        assert LogsDirMade(t.dir, mid.dirs, mid.files, o, fs.dirs);
        return;
      }
      o := Done;
      if !fs.Exists(LogsDirIn(localDir)) {
        o := fs.MakeDir(LogsDirIn(localDir), localDir);
      }
    }

    /** The clone step of `__init__`, for a missing project directory. */
    method CloneMissing(fs: FileSystem) returns (o: Outcome)
      requires project.store.Valid()
      requires IsGitUrl(env.urisplit(project.url))
      requires !fs.Exists(localDir)
      modifies project`lastCommit, project`lastError, project`pk, project.store, fs
      ensures project.store.Valid() && project.pk == old(project.pk)
      ensures project.WroteOwnRowAtMost(old(project.store.rows))
      ensures ClonedFreshRel(TargetOf(project, env, git), old(StateOf(project, fs)), StateOf(project, fs), o)
    {
      var tools := new RepoTools(project, env, git);
      o := tools.Pygit2CloneRepo(fs);
    }

    /** `is_application_running`: the port probe, and nothing else. */
    method IsApplicationRunning(os: Os) returns (running: bool)
      ensures running == os.probe(project.port)
    {
      running := os.probe(project.port);
    }

    /** `env_path`. */
    function EnvPath(): (p: string)
      ensures Under(p, localDir) && p != localDir
    {
      RunnerPathsLayout(localDir);
      EnvPathIn(localDir)
    }

    /** A log accessor: the path, after creating an empty file there when
        nothing is there and the log directory exists. */
    method TouchLog(fs: FileSystem, path: string) returns (p: string)
      modifies fs
      ensures p == path && fs.dirs == old(fs.dirs)
      ensures fs.files == (if !old(fs.Exists(path)) && LogsDirIn(localDir) in old(fs.dirs)
                           then old(fs.files)[path := ""] else old(fs.files))
    {
      p := path;
      if !fs.Exists(path) {
        var _ := fs.Touch(path, LogsDirIn(localDir));
      }
    }

    /** `access_log_path`. */
    method AccessLogPath(fs: FileSystem) returns (p: string)
      modifies fs
      ensures p == AccessLogIn(localDir) && fs.dirs == old(fs.dirs)
      ensures fs.files == (if !old(fs.Exists(p)) && LogsDirIn(localDir) in old(fs.dirs)
                           then old(fs.files)[p := ""] else old(fs.files))
    {
      p := TouchLog(fs, AccessLogIn(localDir));
    }

    /** `error_log_path`. */
    method ErrorLogPath(fs: FileSystem) returns (p: string)
      modifies fs
      ensures p == ErrorLogIn(localDir) && fs.dirs == old(fs.dirs)
      ensures fs.files == (if !old(fs.Exists(p)) && LogsDirIn(localDir) in old(fs.dirs)
                           then old(fs.files)[p := ""] else old(fs.files))
    {
      p := TouchLog(fs, ErrorLogIn(localDir));
    }

    /** Fetch a log path through its accessor, then unlink whatever is there. */
    method DiscardLog(fs: FileSystem, path: string) returns (o: Outcome)
      requires path in {AccessLogIn(localDir), ErrorLogIn(localDir)}
      modifies fs
      ensures fs.dirs == old(fs.dirs)
      ensures o == (if path in old(fs.dirs) then Raised(IsADirectoryError(path)) else Done)
      ensures fs.files == (if o.Done? then old(fs.files) - {path} else old(fs.files))
    {
      RunnerPathsLayout(localDir);
      var p := TouchLog(fs, path);
      o := Done;
      if fs.Exists(p) {
        o := fs.Unlink(p);
      }
    }

    /** The signals `kill_application` sends: none unless the probe finds the port in use. */
    function SentSignals(os: Os): seq<Signal>
      reads project
    {
      var pids := os.lsof(project.port);
      if os.probe(project.port) then Signals(pids[..Handled(pids, os)], os) else []
    }

    /**
     * `kill_application`: when the probe finds the port in use, send every pid
     * on it TERM, and KILL when TERM fails; a failing KILL raises. Unless it
     * raises, both log files are gone afterwards, whether or not anything ran.
     */
    method KillApplication(fs: FileSystem, os: Os) returns (sent: seq<Signal>, o: Outcome)
      modifies fs
      ensures sent == SentSignals(os)
      ensures KillFailure(project.port, os).Some? ==>
        o == Raised(CalledProcessError(["kill", "-KILL", KillFailure(project.port, os).value])) && unchanged(fs)
      ensures KillFailure(project.port, os).None? ==>
        o == (if AccessLogIn(localDir) in old(fs.dirs) then Raised(IsADirectoryError(AccessLogIn(localDir)))
              else if ErrorLogIn(localDir) in old(fs.dirs) then Raised(IsADirectoryError(ErrorLogIn(localDir)))
              else Done)
      ensures o == StopOutcome(localDir, project.port, os, old(fs.dirs))
      ensures fs.dirs == old(fs.dirs)
      ensures o.Done? ==> fs.files == old(fs.files) - {AccessLogIn(localDir), ErrorLogIn(localDir)}
      ensures fs.files.Keys <= old(fs.files).Keys && (forall f :: f in fs.files ==> fs.files[f] == old(fs.files)[f])
      ensures forall f :: f in old(fs.files) && f != AccessLogIn(localDir) && f != ErrorLogIn(localDir) ==> f in fs.files
    {
      sent := [];
      var running := IsApplicationRunning(os);
      if running {
        var fatal;
        sent, fatal := SignalPids(os.lsof(project.port), os);
        if fatal.Some? {
          return sent, Raised(CalledProcessError(["kill", "-KILL", fatal.value]));
        }
      }
      RunnerPathsLayout(localDir);
      o := DiscardLog(fs, AccessLogIn(localDir));
      if o.Raised? {
        return;
      }
      o := DiscardLog(fs, ErrorLogIn(localDir));
    }

    /**
     * `run` up to its shell step: stop whatever holds the port, remove the
     * virtualenv directory, and fetch both log paths (creating them empty)
     * for the gunicorn command line. It raises exactly when the stop does.
     */
    method Run(fs: FileSystem, os: Os) returns (sent: seq<Signal>, o: Outcome)
      modifies fs
      ensures sent == SentSignals(os)
      ensures o == RunOutcome(localDir, project.port, os, old(fs.dirs), old(fs.files))
      ensures StopOutcome(localDir, project.port, os, old(fs.dirs)).Raised? ==> o == StopOutcome(localDir, project.port, os, old(fs.dirs))
      ensures o.Done? ==> !fs.Exists(EnvPath())
      ensures o.Done? && LogsDirIn(localDir) in old(fs.dirs) ==>
        && AccessLogIn(localDir) in fs.files && fs.files[AccessLogIn(localDir)] == ""
        && ErrorLogIn(localDir) in fs.files && fs.files[ErrorLogIn(localDir)] == ""
      ensures o.Done? ==>
        && fs.dirs == (if old(fs.Exists(EnvPath())) then set d | d in old(fs.dirs) && !Under(d, EnvPath())
                       else old(fs.dirs))
        && fs.files == RestartedFiles(localDir, old(fs.files), old(fs.Exists(EnvPath())), LogsDirIn(localDir) in old(fs.dirs))
      ensures o.Raised? ==>
        && fs.dirs == old(fs.dirs)
        && fs.files.Keys <= old(fs.files).Keys && (forall f :: f in fs.files ==> fs.files[f] == old(fs.files)[f])
        && forall f :: f in old(fs.files) && f != AccessLogIn(localDir) && f != ErrorLogIn(localDir) ==> f in fs.files
      ensures RunRel(localDir, project.port, os, old(fs.dirs), old(fs.files), fs.dirs, fs.files, o)
    {
      sent, o := KillApplication(fs, os);
      if o.Raised? {
        return;
      }
      RunnerPathsLayout(localDir);
      RestartedFilesWithoutLogs(localDir, old(fs.files), old(fs.Exists(EnvPath())), LogsDirIn(localDir) in old(fs.dirs));
      o := ResetEnvAndLogs(fs);
    }

    /** The step of `run` after the stop: remove the virtualenv directory when
        it is there, then fetch both log paths. */
    method ResetEnvAndLogs(fs: FileSystem) returns (o: Outcome)
      requires !fs.Exists(AccessLogIn(localDir)) && !fs.Exists(ErrorLogIn(localDir))
      modifies fs
      ensures o == (if EnvPath() in old(fs.files) then Raised(NotADirectoryError(EnvPath())) else Done)
      ensures o.Raised? ==> fs.dirs == old(fs.dirs) && fs.files == old(fs.files)
      ensures o.Done? ==> fs.dirs == (if old(fs.Exists(EnvPath())) then set d | d in old(fs.dirs) && !Under(d, EnvPath())
                          else old(fs.dirs))
      ensures o.Done? ==> fs.files == RestartedFiles(localDir, old(fs.files), old(fs.Exists(EnvPath())), LogsDirIn(localDir) in old(fs.dirs))
    {
      RunnerPathsLayout(localDir);
      ghost var envRemoved := fs.Exists(EnvPath());
      o := Done;
      if fs.Exists(EnvPath()) {
        o := fs.RemoveTree(EnvPath());
        if o.Raised? {
          return;
        }
        assert LogsDirIn(localDir) in old(fs.dirs) ==> LogsDirIn(localDir) in fs.dirs;
      }
      ghost var kept := fs.files;
      assert kept == map f | f in old(fs.files) && f != AccessLogIn(localDir) && f != ErrorLogIn(localDir)
                             && !(envRemoved && Under(f, EnvPath())) :: old(fs.files)[f];
      var access := AccessLogPath(fs);
      var error := ErrorLogPath(fs);
    }
  }

  lemma {:induction false} HandledStopsAtFirstFatal(pids: seq<string>, i: nat, os: Os)
    requires i < |pids| && Fatal(pids[i], os)
    requires forall j :: 0 <= j < i ==> !Fatal(pids[j], os)
    ensures Handled(pids, os) == i + 1
    decreases i
  {
    if i > 0 {
      HandledStopsAtFirstFatal(pids[1..], i - 1, os);
    }
  }

  lemma {:induction false} HandledWithoutFatal(pids: seq<string>, os: Os)
    requires forall j :: 0 <= j < |pids| ==> !Fatal(pids[j], os)
    ensures Handled(pids, os) == |pids|
    decreases |pids|
  {
    if pids != [] {
      HandledWithoutFatal(pids[1..], os);
    }
  }
}
