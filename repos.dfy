/**
 * The repository side of github/utils.py: the pygit2 credential callback
 * (`PyGit2Callbacks.credentials`) and `RepoTools`, which clones a project's
 * repository into its local directory, pulls it, removes it, and records the
 * commit or the error on the project.
 *
 * git itself (pygit2's clone, GitPython's `Repo` and `origin.pull()`) is an
 * oracle: a `Git` value says, per directory, what each call returns or raises.
 */
module Repos {
  import opened Wrappers
  import opened Outcomes
  import opened Projects
  import opened Urls
  import opened FileSystem

  // --- credentials ---------------------------------------------------------

  /** The two pygit2 credential objects the callback builds. */
  datatype Credential =
    | UserPass(username: Option<string>, password: Option<string>)
    | KeypairFromMemory(username: Option<string>, pubkey: Option<string>,
                        privkey: Option<string>, passphrase: Option<string>)

  const LOOP_GUARD_MESSAGE: string :=
    "Inifite loop while fetching credentials. This is a bug of libgit2 when credentials are invalid"

  /**
   * The credentials chosen for a first request, by the URL's scheme: ssh takes
   * the project's keypair, and fails when there is none (the local variable is
   * never assigned: there is no password fallback over ssh); every other
   * scheme takes the username/password pair.
   */
  function CredentialFor(scheme: string, st: Settings): (r: Result<Credential, Exc>)
    ensures r.Success? && r.value.UserPass? <==> scheme != "ssh"
    ensures r.Success? && r.value.KeypairFromMemory? <==> scheme == "ssh" && Truthy(st.sshKey)
    ensures r.Failure? <==> scheme == "ssh" && !Truthy(st.sshKey)
    ensures r.Success? && r.value.UserPass? ==> r.value.username == st.gitUsername && r.value.password == st.gitPassword
    ensures r.Success? && r.value.KeypairFromMemory? ==>
      r.value == KeypairFromMemory(st.gitUsername, st.sshPubkey, st.sshKey, st.sshKeyPassphrase)
  {
    if scheme == "ssh" then
      if Truthy(st.sshKey) then Success(KeypairFromMemory(st.gitUsername, st.sshPubkey, st.sshKey, st.sshKeyPassphrase))
      else Failure(UnboundLocalError("credentials"))
    else Success(UserPass(st.gitUsername, st.gitPassword))
  }

  /** The reply to one request, given whether the callbacks object was asked before. */
  function Answer(asked: bool, scheme: string, st: Settings): (r: Result<Credential, Exc>)
    ensures asked ==> r == Failure(GitError(LOOP_GUARD_MESSAGE))
    ensures !asked ==> r == CredentialFor(scheme, st)
  {
    if asked then Failure(GitError(LOOP_GUARD_MESSAGE)) else CredentialFor(scheme, st)
  }

  /** The replies to successive requests on one callbacks object, which
      starts with the flag `asked`; each request sets the flag. */
  function Replies(asked: bool, schemes: seq<string>, st: Settings): (rs: seq<Result<Credential, Exc>>)
    ensures |rs| == |schemes|
    ensures forall i :: 0 <= i < |schemes| ==> rs[i] == Answer(if i == 0 then asked else true, schemes[i], st)
    decreases |schemes|
  {
    if schemes == [] then [] else [Answer(asked, schemes[0], st)] + Replies(true, schemes[1..], st)
  }

  lemma {:induction false} RefusedOnceAsked(schemes: seq<string>, st: Settings)
    ensures forall i :: 0 <= i < |schemes| ==> Replies(true, schemes, st)[i] == Failure(GitError(LOOP_GUARD_MESSAGE))
  {
    if schemes != [] {
      RefusedOnceAsked(schemes[1..], st);
      var rs := Replies(true, schemes, st);
      forall i | 0 <= i < |schemes| ensures rs[i] == Failure(GitError(LOOP_GUARD_MESSAGE)) {
        if i > 0 {
          assert rs[i] == Replies(true, schemes[1..], st)[i - 1];
        }
      }
    }
  }

  /** The one-shot guard: on a fresh callbacks object only the first request
      is answered; every later one raises GitError, whatever its URL. */
  lemma OnlyFirstRequestAnswered(schemes: seq<string>, st: Settings)
    requires |schemes| >= 1
    ensures Replies(false, schemes, st)[0] == CredentialFor(schemes[0], st)
    ensures forall i :: 1 <= i < |schemes| ==> Replies(false, schemes, st)[i] == Failure(GitError(LOOP_GUARD_MESSAGE))
  {
    RefusedOnceAsked(schemes[1..], st);
    var rs := Replies(false, schemes, st);
    forall i | 1 <= i < |schemes| ensures rs[i] == Failure(GitError(LOOP_GUARD_MESSAGE)) {
      assert rs[i] == Replies(true, schemes[1..], st)[i - 1];
    }
  }

  /** `PyGit2Callbacks`: the remote callbacks handed to pygit2 for one clone. */
  class Callbacks {
    const project: Project
    const env: Env
    /** Guards against libgit2 asking for credentials forever when they are wrong. */
    var wasAskedForCredentials: bool

    constructor (project: Project, env: Env)
      ensures this.project == project && this.env == env && !wasAskedForCredentials
    {
      this.project, this.env := project, env;
      wasAskedForCredentials := false;
    }

    /** `credentials(url, username_from_url, allowed_types)`; the last two are not consulted. */
    method Credentials(url: string, usernameFromUrl: Option<string>, allowedTypes: Option<int>)
      returns (r: Result<Credential, Exc>)
      modifies this
      ensures wasAskedForCredentials
      ensures r == Answer(old(wasAskedForCredentials), SchemeOrSsh(env.urisplit(url)), project.Snapshot().settings)
    {
      var scheme := SchemeOrSsh(env.urisplit(url));
      if wasAskedForCredentials {
        return Failure(GitError(LOOP_GUARD_MESSAGE));
      }
      wasAskedForCredentials := true;
      if scheme == "ssh" {
        if Truthy(project.sshKey) {
          r := Success(KeypairFromMemory(project.gitUsername, project.sshPubkey, project.sshKey, project.sshKeyPassphrase));
        } else {
          r := Failure(UnboundLocalError("credentials"));
        }
      } else {
        r := Success(UserPass(project.gitUsername, project.gitPassword));
      }
    }
  }

  // --- the git oracle ------------------------------------------------------

  /** One entry of `origin.pull()`'s result; `commit` is None when the entry has none. */
  datatype FetchInfo = FetchInfo(commit: Option<string>)

  datatype PullResult = Pulled(infos: seq<FetchInfo>) | PullRaised(error: Exc)

  /** A clone either succeeds (the directory now exists) or raises, possibly
      having created the directory first. */
  datatype CloneResult = Cloned | CloneRaised(error: Exc, leftDir: bool)

  datatype Git = Git(
    /** `Repo(dir)`: the exception it raises, if any. */
    openRepo: string -> Option<Exc>,
    /** `repo.remotes.origin.pull()` in `dir`. */
    pull: string -> PullResult,
    /** `clone_repository(url, dir, callbacks=...)`. */
    clone: (string, string) -> CloneResult)

  /**
   * The commit `last_commit` holds after the fetch-info loop: the commit of
   * the last entry that has one, or the current value when none has.
   */
  function LastCommit(infos: seq<FetchInfo>, current: Option<string>): (r: Option<string>)
    ensures (forall k :: 0 <= k < |infos| ==> infos[k].commit.None?) ==> r == current
    ensures (exists k :: 0 <= k < |infos| && infos[k].commit.Some?) ==>
      exists k :: 0 <= k < |infos| && infos[k].commit.Some? && r == infos[k].commit &&
        forall j :: k < j < |infos| ==> infos[j].commit.None?
    decreases |infos|
  {
    if infos == [] then current
    else if infos[|infos| - 1].commit.Some? then infos[|infos| - 1].commit
    else LastCommit(infos[..|infos| - 1], current)
  }

  /** The message recorded when a pull raises GitCommandError. */
  function FetchErrorMessage(url: string, localDir: string, e: string): string {
    "Error occurred while cloning the repo with url " + url + " to " + localDir + ": " + e + ". "
  }

  /** Two records of the same project clash with the same rows. */
  lemma ClashesIgnoresStatus(rows: map<nat, Record>, id: nat, a: Record, b: Record)
    requires a.settings.port == b.settings.port && a.settings.url == b.settings.url
    ensures Clashes(rows, id, a) == Clashes(rows, id, b)
  {
  }

  // --- what cloning and fetching do, on values ----------------------------

  /** The URL `get_repo_url()` builds with no arguments for a project. */
  function ProjectRepoUrl(env: Env, st: Settings): string
    requires IsGitUrl(env.urisplit(st.url))
  {
    RepoUrl(env, Some(RepoRef(st.url, st.gitUsername)), None, NoUsername)
  }

  /** What the clone-or-fetch code reads of a project: the oracles, its
      settings, its local directory and URL, its key and whether it is cleaned. */
  datatype CloneTarget = CloneTarget(env: Env, git: Git, settings: Settings, dir: string, url: string,
                                     pk: nat, isCleaned: bool)

  function TargetOf(p: Project, env: Env, git: Git): (t: CloneTarget)
    reads p
    requires IsGitUrl(env.urisplit(p.url))
    ensures t.dir == LocalDir(env, p.url) && t.settings.url == p.url
  {
    var st := p.Snapshot().settings;
    CloneTarget(env, git, st, LocalDir(env, p.url), ProjectRepoUrl(env, st), p.pk, p.isCleaned)
  }

  /** The state the clone-or-fetch code changes: the project's status fields,
      the stored rows, and the file system. */
  datatype CloneState = CloneState(lastCommit: Option<string>, lastError: Option<string>,
                                   rows: map<nat, Record>, dirs: set<string>, files: map<string, string>)

  function StateOf(p: Project, fs: FileSystem): CloneState
    reads p, p.store, fs
  {
    CloneState(p.lastCommit, p.lastError, p.store.rows, fs.dirs, fs.files)
  }

  /** `if self.project.pk: self.project.save()`, from rows `before` to `a.rows`. */
  ghost predicate SavedRel(t: CloneTarget, before: map<nat, Record>, a: CloneState, o: Outcome) {
    if t.pk == 0 then o == Done && a.rows == before
    else if !t.isCleaned then o == Raised(AttributeError("is_cleaned")) && a.rows == before
    else (o, a.rows) == WriteEffect(before, t.pk, Record(t.settings, a.lastCommit, a.lastError))
  }

  /** `git_fetch` from `b` to `a`, `present` saying whether the directory exists. */
  ghost predicate FetchedRel(t: CloneTarget, present: bool, b: CloneState, a: CloneState, o: Outcome) {
    var untouched := a.lastCommit == b.lastCommit && a.lastError == b.lastError && a.rows == b.rows;
    if !present then o == Done && untouched
    else if t.git.openRepo(t.dir).Some? then o == Raised(t.git.openRepo(t.dir).value) && untouched
    else match t.git.pull(t.dir)
      case Pulled(infos) =>
        && a.lastCommit == LastCommit(infos, b.lastCommit) && a.lastError == b.lastError
        && SavedRel(t, b.rows, a, o)
      case PullRaised(e) =>
        if e.GitCommandError? then
          && a.lastCommit == b.lastCommit
          && a.lastError == Some(FetchErrorMessage(t.url, t.dir, e.message))
          && SavedRel(t, b.rows, a, o)
        else o == Raised(e) && untouched
  }

  /** The exception the `except Exception` handler of `pygit2_clone_repo`
      catches, if any, for an absent directory. */
  function CloneCaught(t: CloneTarget): Option<Exc> {
    var c := t.git.clone(t.url, t.dir);
    if c.CloneRaised? then Some(c.error)
    else if t.git.openRepo(t.dir).Some? then t.git.openRepo(t.dir)
    else match t.git.pull(t.dir)
         case Pulled(_) => None
         case PullRaised(e) => if e.GitCommandError? then None else Some(e)
  }

  /** `pygit2_clone_repo` for an absent directory, from `b` to `a`. */
  ghost predicate ClonedFreshRel(t: CloneTarget, b: CloneState, a: CloneState, o: Outcome) {
    var c := t.git.clone(t.url, t.dir);
    var caught := CloneCaught(t);
    && a.files == b.files
    && a.dirs == (if c.Cloned? || c.leftDir then b.dirs + {t.dir} else b.dirs)
    && (if caught.Some? then
          && a.lastCommit == b.lastCommit
          && a.lastError == Some(t.env.formatExc(caught.value))
          && SavedRel(t, b.rows, a, o)
        else match t.git.pull(t.dir)
          case Pulled(infos) =>
            && a.lastCommit == LastCommit(infos, b.lastCommit)
            && a.lastError == b.lastError
            && o == Done && a.rows == b.rows
          case PullRaised(e) =>
            && a.lastCommit == b.lastCommit
            && SavedRel(t, b.rows, a, o)
            && a.lastError ==
                 (if o.Done? then Some(FetchErrorMessage(t.url, t.dir, e.message))
                  else Some(t.env.formatExc(o.exc))))
  }

  /** `pygit2_clone_repo` from `b` to `a`: a fetch when the directory exists,
      a clone otherwise. */
  ghost predicate CloneRel(t: CloneTarget, b: CloneState, a: CloneState, o: Outcome) {
    if t.dir in b.dirs || t.dir in b.files then
      a.dirs == b.dirs && a.files == b.files && FetchedRel(t, true, b, a, o)
    else ClonedFreshRel(t, b, a, o)
  }

  // --- RepoTools -----------------------------------------------------------

  class RepoTools {
    const project: Project
    const env: Env
    const git: Git
    const localDir: string := LocalDir(env, project.url)
    /** `self.repo`: the directory of the opened repository, if any. */
    var repo: Option<string>

    constructor (project: Project, env: Env, git: Git)
      ensures this.project == project && this.env == env && this.git == git
      ensures localDir == LocalDir(env, project.url) && repo.None?
    {
      this.project, this.env, this.git := project, env, git;
      repo := None;
    }

    function Target(): CloneTarget
      reads project
      requires IsGitUrl(env.urisplit(project.url))
    {
      TargetOf(project, env, git)
    }

    function Ref(): RepoRef
      reads project
    {
      RepoRef(project.url, project.gitUsername)
    }

    /** The URL `get_repo_url()` returns with no overrides. */
    function DefaultUrl(): string
      reads project
      requires IsGitUrl(env.urisplit(project.url))
    {
      RepoUrl(env, Some(Ref()), None, NoUsername)
    }

    /**
     * `get_repo_url(new_scheme, new_username)`. For a non-ssh URL without a
     * username override it also asks a fresh callbacks object for credentials
     * and discards the reply: the result is the URL alone, and nothing but
     * that fresh object changes.
     */
    method GetRepoUrl(newScheme: Option<string>, newUsername: UsernameArg) returns (url: string)
      requires IsGitUrl(env.urisplit(project.url))
      ensures url == RepoUrl(env, Some(Ref()), newScheme, newUsername)
    {
      var parts := env.urisplit(project.url);
      var scheme := EffectiveScheme(parts, newScheme).value;
      var gitUsername := EffectiveUsername(scheme, project.gitUsername, newUsername);
      if scheme == "ssh" {
        return scheme + "://" + env.quotePlus(gitUsername) + "@" + HostAndTail(parts);
      }
      url := scheme + "://" + HostAndTail(parts);
      if newUsername != NoUsername {
        return;
      }
      // The probe: any reply or exception is dropped.
      var callbacks := new Callbacks(project, env);
      var _ := callbacks.Credentials(url, gitUsername, None);
    }

    /** `delete_repo`: removes the local directory if it is there; `rmtree`
        raises when the path is a regular file. Calling it again finds
        nothing and changes nothing. */
    method DeleteRepo(fs: FileSystem) returns (o: Outcome)
      modifies fs
      ensures o == (if localDir in old(fs.files) then Raised(NotADirectoryError(localDir)) else Done)
      ensures o.Done? ==> !fs.Exists(localDir)
      ensures o.Raised? ==> fs.dirs == old(fs.dirs) && fs.files == old(fs.files)
      ensures localDir in old(fs.dirs) && localDir !in old(fs.files) ==>
        fs.dirs == (set d | d in old(fs.dirs) && !Under(d, localDir)) &&
        fs.files == (map f | f in old(fs.files) && !Under(f, localDir) :: old(fs.files)[f])
      ensures !old(fs.Exists(localDir)) ==> unchanged(fs)
    {
      o := Done;
      if fs.Exists(localDir) {
        o := fs.RemoveTree(localDir);
      }
    }

    /** The fetch-info loop: every entry with a commit overwrites `last_commit`. */
    method RecordCommits(infos: seq<FetchInfo>)
      modifies project`lastCommit
      ensures project.lastCommit == LastCommit(infos, old(project.lastCommit))
    {
      var i := 0;
      while i < |infos|
        invariant 0 <= i <= |infos|
        invariant project.lastCommit == LastCommit(infos[..i], old(project.lastCommit))
      {
        assert infos[..i + 1][..i] == infos[..i];
        if infos[i].commit.Some? {
          project.lastCommit := infos[i].commit;
        }
        i := i + 1;
      }
      assert infos[..i] == infos;
    }

    /** The `if self.project.pk: self.project.save()` step. */
    ghost predicate SavedIfStored(o: Outcome, before: map<nat, Record>)
      reads project, project.store
    {
      if project.pk != 0 then project.UpdatedAfter(o, before)
      else o == Done && project.store.rows == before
    }

    method SaveIfStored() returns (o: Outcome)
      requires project.store.Valid()
      modifies project`pk, project.store
      ensures project.store.Valid() && project.pk == old(project.pk)
      ensures project.WroteOwnRowAtMost(old(project.store.rows))
      ensures SavedIfStored(o, old(project.store.rows))
    {
      o := Done;
      if project.pk != 0 {
        o := project.Save();
      }
    }

    /** What `git_fetch` leaves behind, for the directory state it started from. */
    twostate predicate Fetched(fs: FileSystem, o: Outcome)
      reads this, project, project.store, fs
      requires IsGitUrl(env.urisplit(project.url))
    {
      && repo == (if fs.Exists(localDir) && git.openRepo(localDir).None? then Some(localDir) else old(repo))
      && FetchedRel(Target(), fs.Exists(localDir), old(StateOf(project, fs)), StateOf(project, fs), o)
    }

    /**
     * `git_fetch`: when the local directory exists, open it, pull, and record
     * the last commit, or on GitCommandError the error; then save a stored
     * project. When the directory is absent nothing happens at all.
     */
    method GitFetch(fs: FileSystem) returns (o: Outcome)
      requires project.store.Valid()
      requires IsGitUrl(env.urisplit(project.url))
      modifies this`repo, project`lastCommit, project`lastError, project`pk, project.store
      ensures project.store.Valid() && project.pk == old(project.pk)
      ensures project.WroteOwnRowAtMost(old(project.store.rows))
      ensures Fetched(fs, o)
    {
      var url := GetRepoUrl(None, NoUsername);
      if !fs.Exists(localDir) {
        return Done;
      }
      var openError := git.openRepo(localDir);
      if openError.Some? {
        return Raised(openError.value);
      }
      repo := Some(localDir);
      match git.pull(localDir) {
        case Pulled(infos) =>
          RecordCommits(infos);
        case PullRaised(e) =>
          if !e.GitCommandError? {
            return Raised(e);
          }
          project.lastError := Some(FetchErrorMessage(url, localDir, e.message));
      }
      o := SaveIfStored();
    }

    /** What `pygit2_clone_repo` leaves behind when the directory was absent. */
    twostate predicate ClonedFresh(fs: FileSystem, o: Outcome)
      reads this, project, project.store, fs
      requires IsGitUrl(env.urisplit(project.url))
    {
      var c := git.clone(DefaultUrl(), localDir);
      && repo == (if c.Cloned? && git.openRepo(localDir).None? then Some(localDir) else old(repo))
      && ClonedFreshRel(Target(), old(StateOf(project, fs)), StateOf(project, fs), o)
    }

    /**
     * The body of `pygit2_clone_repo`'s `try` block for an absent directory:
     * clone, open, pull once. It yields the exception the `except Exception`
     * handler would catch, having done everything before that exception.
     */
    method CloneAndPull(fs: FileSystem, url: string) returns (caught: Option<Exc>)
      requires project.store.Valid()
      requires IsGitUrl(env.urisplit(project.url)) && url == DefaultUrl()
      requires !fs.Exists(localDir)
      modifies this`repo, project`lastCommit, project`lastError, project`pk, project.store, fs
      ensures project.store.Valid() && project.pk == old(project.pk)
      ensures project.WroteOwnRowAtMost(old(project.store.rows))
      ensures var c := git.clone(url, localDir);
        && fs.files == old(fs.files)
        && fs.dirs == (if c.Cloned? || c.leftDir then old(fs.dirs) + {localDir} else old(fs.dirs))
        && repo == (if c.Cloned? && git.openRepo(localDir).None? then Some(localDir) else old(repo))
      ensures var c := git.clone(url, localDir);
        var untouched := project.lastCommit == old(project.lastCommit) && project.lastError == old(project.lastError)
                         && project.store.rows == old(project.store.rows);
        if c.CloneRaised? then caught == Some(c.error) && untouched
        else if git.openRepo(localDir).Some? then caught == git.openRepo(localDir) && untouched
        else match git.pull(localDir)
          case Pulled(infos) =>
            && caught.None?
            && project.lastCommit == LastCommit(infos, old(project.lastCommit))
            && project.lastError == old(project.lastError)
            && project.store.rows == old(project.store.rows)
          case PullRaised(e) =>
            if e.GitCommandError? then
              && project.lastCommit == old(project.lastCommit)
              && project.lastError == Some(FetchErrorMessage(url, localDir, e.message))
              && SavedIfStored(if caught.Some? then Raised(caught.value) else Done, old(project.store.rows))
            else caught == Some(e) && untouched
    {
      caught := None;
      // The directory is absent, so `delete_repo` finds nothing to remove.
      var _ := DeleteRepo(fs);
      match git.clone(url, localDir) {
        case CloneRaised(e, leftDir) =>
          if leftDir {
            fs.AddDir(localDir);
          }
          caught := Some(e);
        case Cloned =>
          fs.AddDir(localDir);
          var openError := git.openRepo(localDir);
          if openError.Some? {
            caught := openError;
          } else {
            repo := Some(localDir);
            match git.pull(localDir) {
              case Pulled(infos) =>
                RecordCommits(infos);
              case PullRaised(e) =>
                if e.GitCommandError? {
                  project.lastError := Some(FetchErrorMessage(url, localDir, e.message));
                  var saved := SaveIfStored();
                  if saved.Raised? {
                    caught := Some(saved.exc);
                  }
                } else {
                  caught := Some(e);
                }
            }
          }
      }
    }

    /**
     * `pygit2_clone_repo`: an existing directory is only fetched. An absent one
     * is cloned and pulled once; every exception on the way (a GitCommandError
     * from the pull included) ends up in `last_error` and is not re-raised.
     * The only exception that escapes comes from saving the project.
     */
    method Pygit2CloneRepo(fs: FileSystem) returns (o: Outcome)
      requires project.store.Valid()
      requires IsGitUrl(env.urisplit(project.url))
      modifies this`repo, project`lastCommit, project`lastError, project`pk, project.store, fs
      ensures project.store.Valid() && project.pk == old(project.pk)
      ensures project.WroteOwnRowAtMost(old(project.store.rows))
      ensures old(fs.Exists(localDir)) ==> unchanged(fs) && Fetched(fs, o)
      ensures !old(fs.Exists(localDir)) ==> ClonedFresh(fs, o)
      ensures CloneRel(Target(), old(StateOf(project, fs)), StateOf(project, fs), o)
    {
      var url := GetRepoUrl(None, NoUsername);
      if fs.Exists(localDir) {
        o := GitFetch(fs);
      } else {
        o := CloneFresh(fs, url);
      }
    }

    /** The branch of `pygit2_clone_repo` for an absent directory: run the
        `try` block, and record and save what it caught. */
    method CloneFresh(fs: FileSystem, url: string) returns (o: Outcome)
      requires project.store.Valid()
      requires IsGitUrl(env.urisplit(project.url)) && url == DefaultUrl()
      requires !fs.Exists(localDir)
      modifies this`repo, project`lastCommit, project`lastError, project`pk, project.store, fs
      ensures project.store.Valid() && project.pk == old(project.pk)
      ensures project.WroteOwnRowAtMost(old(project.store.rows))
      ensures ClonedFresh(fs, o)
    {
      var caught := CloneAndPull(fs, url);
      o := Done;
      if caught.Some? {
        ghost var before := project.Snapshot();
        project.lastError := Some(env.formatExc(caught.value));
        ClashesIgnoresStatus(old(project.store.rows), project.pk, before, project.Snapshot());
        o := SaveIfStored();
      }
    }
  }
}
