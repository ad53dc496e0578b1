/**
 * utils/jobs/scheduler.py: the two periodic tasks that walk every stored
 * project page by page. The scheduler set-up that registers them is in
 * `Scheduling`.
 */
module Jobs {
  import opened Wrappers
  import opened Outcomes
  import opened Projects
  import opened Urls
  import opened FileSystem
  import opened Repos
  import opened Runner
  import opened Paging

  /** Every stored url passed the `GitURLField` validation. */
  predicate StoredUrlsValid(rows: map<nat, Record>, env: Env) {
    forall id :: id in rows ==> IsGitUrl(env.urisplit(rows[id].settings.url))
  }

  // --- check_new_commits_task ----------------------------------------------

  /** The exception `git_fetch` raises for a stored project, if any. */
  function FetchRaises(env: Env, git: Git, fs: FileSystem, rec: Record): (r: Option<Exc>)
    reads fs
    ensures r.Some? ==> fs.Exists(LocalDir(env, rec.settings.url))
  {
    var dir := LocalDir(env, rec.settings.url);
    if !fs.Exists(dir) then None
    else if git.openRepo(dir).Some? then git.openRepo(dir)
    else match git.pull(dir)
      case Pulled(_) => None
      case PullRaised(e) => if e.GitCommandError? then None else Some(e)
  }

  /** The row `git_fetch` saves for a stored project it does not raise on. */
  function FetchedRecord(env: Env, git: Git, fs: FileSystem, rec: Record): (r: Record)
    reads fs
    requires IsGitUrl(env.urisplit(rec.settings.url))
    ensures SameProject(rec, r)
    ensures !fs.Exists(LocalDir(env, rec.settings.url)) ==> r == rec
  {
    var dir := LocalDir(env, rec.settings.url);
    if !fs.Exists(dir) || git.openRepo(dir).Some? then rec
    else match git.pull(dir)
      case Pulled(infos) => rec.(lastCommit := LastCommit(infos, rec.lastCommit))
      case PullRaised(e) =>
        if e.GitCommandError? then
          rec.(lastError := Some(FetchErrorMessage(RepoUrl(env, Some(RepoRef(rec.settings.url, rec.settings.gitUsername)), None, NoUsername), dir, e.message)))
        else rec
  }

  /** A row rewritten with its own port and url never clashes with a unique store. */
  lemma OwnRowNeverClashes(rows: map<nat, Record>, id: nat, rec: Record)
    requires Unique(rows) && id in rows
    requires rec.settings.port == rows[id].settings.port && rec.settings.url == rows[id].settings.url
    ensures !Clashes(rows, id, rec)
  {
    forall other | other in rows && other != id
      ensures rows[other].settings.port != rec.settings.port && rows[other].settings.url != rec.settings.url
    {
      assert Apart(rows[other], rows[id]);
    }
  }

  /**
   * One iteration of the object loop: load row `id`, set `is_cleaned`, and
   * `git_fetch` it. Because `is_cleaned` is set, the save inside `git_fetch`
   * writes the row, and because only status fields changed the write never
   * clashes: the only exceptions are the repository's own.
   */
  method FetchStored(store: Store, env: Env, git: Git, fs: FileSystem, id: nat) returns (o: Outcome)
    requires store.Valid() && id in store.rows
    requires IsGitUrl(env.urisplit(store.rows[id].settings.url))
    modifies store
    ensures store.Valid()
    ensures o == (var e := FetchRaises(env, git, fs, old(store.rows[id])); if e.Some? then Raised(e.value) else Done)
    ensures store.rows == (if o.Done? then old(store.rows)[id := FetchedRecord(env, git, fs, old(store.rows[id]))]
                           else old(store.rows))
  {
    var rec := store.rows[id];
    var p := new Project.Loaded(store, id, rec);
    p.isCleaned := true;
    var tools := new RepoTools(p, env, git);
    OwnRowNeverClashes(store.rows, id, FetchedRecord(env, git, fs, rec));
    ghost var present := fs.Exists(tools.localDir);
    o := tools.GitFetch(fs);
    assert present && o.Done? ==> p.Snapshot() == FetchedRecord(env, git, fs, rec);
  }

  /**
   * The store after fetching, from `before`, the first `n` of the ids `ids`
   * without an exception: those rows hold what `git_fetch` saves, every
   * other listed row is as it was, and no row appeared or disappeared.
   */
  ghost predicate FetchedUpTo(rows: map<nat, Record>, before: map<nat, Record>, ids: seq<nat>, n: nat,
                              env: Env, git: Git, fs: FileSystem)
    reads fs
  {
    && rows.Keys == before.Keys
    && forall k :: 0 <= k < |ids| ==>
         && ids[k] in before && ids[k] in rows && IsGitUrl(env.urisplit(before[ids[k]].settings.url))
         && (k < n ==> FetchRaises(env, git, fs, before[ids[k]]).None?)
         && rows[ids[k]] == (if k < n then FetchedRecord(env, git, fs, before[ids[k]]) else before[ids[k]])
  }

  /** Fetching the next id of an ascending list without an exception extends
      `FetchedUpTo` by one. */
  lemma FetchedUpToStep(rows: map<nat, Record>, before: map<nat, Record>, ids: seq<nat>, n: nat,
                        env: Env, git: Git, fs: FileSystem, after: map<nat, Record>)
    requires StrictlyAscending(ids) && n < |ids|
    requires FetchedUpTo(rows, before, ids, n, env, git, fs)
    requires FetchRaises(env, git, fs, before[ids[n]]).None?
    requires after == rows[ids[n] := FetchedRecord(env, git, fs, rows[ids[n]])]
    ensures FetchedUpTo(after, before, ids, n + 1, env, git, fs)
  {
    forall k | 0 <= k < |ids|
      ensures after[ids[k]] == (if k < n + 1 then FetchedRecord(env, git, fs, before[ids[k]]) else before[ids[k]])
    {
      if k != n {
        AscendingDistinct(ids, k, n);
      }
    }
  }

  /**
   * The object loop of `check_new_commits_task` over one page, the ids
   * `items[lo..lo + |page|]`. It returns how many objects were fetched
   * without an exception, and the exception that ended the loop, if any.
   */
  method FetchObjects(store: Store, env: Env, git: Git, fs: FileSystem, page: seq<nat>,
                      ghost items: seq<nat>, ghost lo: nat, ghost before: map<nat, Record>)
    returns (done: nat, o: Outcome)
    requires lo + |page| <= |items| && page == items[lo..lo + |page|]
    requires StrictlyAscending(items)
    requires store.Valid() && FetchedUpTo(store.rows, before, items, lo, env, git, fs)
    modifies store
    ensures store.Valid()
    ensures done <= |page| && (o.Done? ==> done == |page|)
    ensures FetchedUpTo(store.rows, before, items, lo + done, env, git, fs)
    ensures o.Raised? ==> done < |page| && FetchRaises(env, git, fs, before[items[lo + done]]) == Some(o.exc)
  {
    done := 0;
    o := Done;
    while done < |page|
      invariant done <= |page|
      invariant store.Valid() && FetchedUpTo(store.rows, before, items, lo + done, env, git, fs)
      invariant o.Done?
    {
      var id := page[done];
      assert id == items[lo + done];
      ghost var rows := store.rows;
      assert rows[id] == before[id];
      o := FetchStored(store, env, git, fs, id);
      if o.Raised? {
        return;
      }
      FetchedUpToStep(rows, before, items, lo + done, env, git, fs, store.rows);
      done := done + 1;
    }
  }

  /** Where the ids of the pages after page `n` start. */
  function NextStart(count: nat, n: nat): nat
    requires 1 <= n <= NumPages(count)
  {
    if n < NumPages(count) then PageStart(n + 1) else count
  }

  /**
   * One iteration of the page loop of `check_new_commits_task`: fetch every
   * object of page `pageNumber`, the pages before it being fetched already.
   * `n` counts the objects fetched without an exception, those of this page
   * included.
   */
  method FetchPage(store: Store, env: Env, git: Git, fs: FileSystem, items: seq<nat>, pageNumber: nat,
                   ghost before: map<nat, Record>)
    returns (n: nat, o: Outcome)
    requires 1 <= pageNumber <= NumPages(|items|)
    requires StrictlyAscending(items)
    requires store.Valid() && FetchedUpTo(store.rows, before, items, PageStart(pageNumber), env, git, fs)
    modifies store
    ensures store.Valid() && FetchedUpTo(store.rows, before, items, n, env, git, fs)
    ensures o.Done? ==> n == NextStart(|items|, pageNumber)
    ensures o.Raised? ==> PageStart(pageNumber) <= n < |items| && FetchRaises(env, git, fs, before[items[n]]) == Some(o.exc)
  {
    var page := Page(items, pageNumber);
    PageAdvance(items, pageNumber);
    var done;
    done, o := FetchObjects(store, env, git, fs, page, items, PageStart(pageNumber), before);
    n := PageStart(pageNumber) + done;
  }

  /**
   * `check_new_commits_task`: fetch every project, page by page in id order.
   * Nothing isolates one project's failure: the first exception ends the
   * task, leaving the projects after it unvisited. `visited` lists the
   * projects `git_fetch` was called for, in call order; all but one that
   * raised saved their fetched row.
   */
  method CheckNewCommitsTask(store: Store, env: Env, git: Git, fs: FileSystem)
    returns (visited: seq<nat>, o: Outcome)
    requires store.Valid() && StoredUrlsValid(store.rows, env)
    modifies store
    ensures store.Valid()
    ensures var ids := OrderedIds(old(store.rows).Keys);
      && |visited| <= |ids| && visited == ids[..|visited|]
      && (o.Done? ==> |visited| == |ids|)
      && (o.Raised? ==> 0 < |visited| && FetchRaises(env, git, fs, old(store.rows)[ids[|visited| - 1]]) == Some(o.exc))
      && FetchedUpTo(store.rows, old(store.rows), ids, if o.Done? then |visited| else |visited| - 1, env, git, fs)
  {
    ghost var before := store.rows;
    var items := OrderedIds(store.rows.Keys);
    var numPages := NumPages(|items|);
    var n := 0;
    o := Done;
    var pageNumber := 1;
    while pageNumber <= numPages
      invariant 1 <= pageNumber <= numPages + 1
      invariant n == if pageNumber <= numPages then PageStart(pageNumber) else |items|
      invariant store.Valid() && FetchedUpTo(store.rows, before, items, n, env, git, fs)
      invariant o.Done?
    {
      n, o := FetchPage(store, env, git, fs, items, pageNumber, before);
      if o.Raised? {
        visited := items[..n + 1];
        assert |visited| - 1 == n;
        return;
      }
      pageNumber := pageNumber + 1;
    }
    visited := items[..n];
    assert |visited| == n == |items|;
  }

  // --- check_running_projects_task ------------------------------------------

  /**
   * `started[k]` records whether `run` was called for the project `ids[k]`:
   * only when the probe found its port free, and, for the first `settled`
   * of them, exactly then.
   */
  ghost predicate StartedWhenIdle(started: seq<bool>, ids: seq<nat>, rows: map<nat, Record>, os: Os, settled: nat) {
    && settled <= |started| <= |ids|
    && forall k :: 0 <= k < |started| ==>
         && ids[k] in rows
         && (started[k] ==> !os.probe(rows[ids[k]].settings.port))
         && (k < settled ==> started[k] == !os.probe(rows[ids[k]].settings.port))
  }

  /** Recording whether `run` was called for the next project. */
  lemma StartedWhenIdleStep(started: seq<bool>, ids: seq<nat>, rows: map<nat, Record>, os: Os,
                            b: bool, settledNow: bool)
    requires StartedWhenIdle(started, ids, rows, os, |started|) && |started| < |ids|
    requires ids[|started|] in rows
    requires b ==> !os.probe(rows[ids[|started|]].settings.port)
    requires settledNow ==> b == !os.probe(rows[ids[|started|]].settings.port)
    ensures StartedWhenIdle(started + [b], ids, rows, os, if settledNow then |started| + 1 else |started|)
  {
    var s := started + [b];
    assert forall k :: 0 <= k < |started| ==> s[k] == started[k];
  }

  /** `rows` is `before` except for status fields, and except for status
      fields only row `id` may differ. */
  ghost predicate OnlyStatusOf(rows: map<nat, Record>, before: map<nat, Record>, id: nat) {
    && rows.Keys == before.Keys
    && (forall x :: x in before ==> x in rows && SameProject(before[x], rows[x]))
    && (forall x :: x in before && x != id ==> x in rows && rows[x] == before[x])
  }

  lemma OnlyStatusOfTrans(a: map<nat, Record>, b: map<nat, Record>, c: map<nat, Record>, id: nat)
    requires OnlyStatusOf(b, a, id) && OnlyStatusOf(c, b, id)
    ensures OnlyStatusOf(c, a, id)
  {
  }

  /**
   * The store after handling, from `before`, the first `n` of the ids `ids`:
   * every row is still the same project, the rows from position `n` on are
   * as they were, and no row appeared or disappeared.
   */
  ghost predicate HandledUpTo(rows: map<nat, Record>, before: map<nat, Record>, ids: seq<nat>, n: nat) {
    && rows.Keys == before.Keys
    && (forall id :: id in before ==> id in rows && SameProject(before[id], rows[id]))
    && (forall k :: n <= k < |ids| ==> ids[k] in before && ids[k] in rows && rows[ids[k]] == before[ids[k]])
  }

  /** Handling the next id of an ascending list extends `HandledUpTo` by one. */
  lemma HandledUpToStep(before: map<nat, Record>, rows: map<nat, Record>, after: map<nat, Record>,
                        ids: seq<nat>, n: nat)
    requires StrictlyAscending(ids) && n < |ids|
    requires HandledUpTo(rows, before, ids, n) && OnlyStatusOf(after, rows, ids[n])
    ensures HandledUpTo(after, before, ids, n + 1)
  {
    forall k | n + 1 <= k < |ids|
      ensures ids[k] in after && after[ids[k]] == before[ids[k]]
    {
      AscendingDistinct(ids, k, n);
    }
  }

  /** A runner set-up for a loaded project leaves every other row alone and
      changes at most the status fields of its own. */
  method SetUpRunner(p: Project, env: Env, git: Git, fs: FileSystem) returns (runner: Runner, o: Outcome)
    requires p.store.Valid() && p.pk in p.store.rows
    requires IsGitUrl(env.urisplit(p.url))
    requires SameProject(p.store.rows[p.pk], p.Snapshot())
    modifies p`lastCommit, p`lastError, p`pk, p.store, fs
    ensures fresh(runner) && runner.project == p && runner.env == env && runner.git == git
    ensures p.store.Valid() && p.pk == old(p.pk)
    ensures SameProject(old(p.store.rows)[p.pk], p.Snapshot())
    ensures OnlyStatusOf(p.store.rows, old(p.store.rows), p.pk)
    ensures InitRel(TargetOf(p, env, git), old(StateOf(p, fs)), StateOf(p, fs), o)
    ensures var dir := LocalDir(env, p.url);
      old(fs.Exists(dir)) && old(fs.Exists(LogsDirIn(dir))) ==>
        && o == Done && p.lastCommit == old(p.lastCommit) && p.lastError == old(p.lastError)
        && p.store.rows == old(p.store.rows) && fs.dirs == old(fs.dirs) && fs.files == old(fs.files)
  {
    runner := new Runner(p, env, git);
    o := runner.Init(fs);
  }

  /**
   * One iteration of the object loop: load row `id`, set `is_cleaned`, build
   * a runner and probe the port; when nothing answers, build a second runner
   * and `run` it.
   */
  method RunStored(store: Store, env: Env, git: Git, fs: FileSystem, os: Os, id: nat)
    returns (ran: bool, o: Outcome)
    requires store.Valid() && id in store.rows
    requires IsGitUrl(env.urisplit(store.rows[id].settings.url))
    modifies store, fs
    ensures store.Valid()
    ensures OnlyStatusOf(store.rows, old(store.rows), id)
    ensures ran ==> !os.probe(old(store.rows[id]).settings.port)
    ensures o.Done? ==> ran == !os.probe(old(store.rows[id]).settings.port)
    ensures var st := old(store.rows[id]).settings; var dir := LocalDir(env, st.url);
      os.probe(st.port) && old(fs.Exists(dir)) && old(fs.Exists(LogsDirIn(dir))) ==>
        o == Done && !ran && store.rows == old(store.rows) && fs.dirs == old(fs.dirs) && fs.files == old(fs.files)
    ensures ran ==> RanVisit(StoredTarget(env, git, old(store.rows), id), os,
                             StoredState(old(store.rows), id, old(fs.dirs), old(fs.files)),
                             store.rows, fs.dirs, fs.files, o)
  {
    ran := false;
    var p := new Project.Loaded(store, id, store.rows[id]);
    p.isCleaned := true;
    ghost var t, b := TargetOf(p, env, git), StateOf(p, fs);
    assert t == StoredTarget(env, git, old(store.rows), id);
    assert b == StoredState(old(store.rows), id, old(fs.dirs), old(fs.files));
    var first;
    first, o := SetUpRunner(p, env, git, fs);
    if o.Raised? {
      return;
    }
    ghost var s1 := StateOf(p, fs);
    var running := first.IsApplicationRunning(os);
    if !running {
      ghost var mid := store.rows;
      ran, o := StartLoaded(p, env, git, fs, os);
      OnlyStatusOfTrans(old(store.rows), mid, store.rows, id);
      if ran {
        ghost var a := StateOf(p, fs);
        ghost var m, setup :| StartSteps(t, os, s1, a, true, o, m, setup);
        assert RanSteps(t, os, b, store.rows, fs.dirs, fs.files, o, s1, a, m, setup);
      }
    }
  }

  /** The project of row `id` as the object loop loads it, with `is_cleaned` set. */
  function StoredTarget(env: Env, git: Git, rows: map<nat, Record>, id: nat): (t: CloneTarget)
    requires id in rows && IsGitUrl(env.urisplit(rows[id].settings.url))
    ensures t.settings == rows[id].settings && t.pk == id && t.isCleaned
    ensures t.dir == LocalDir(env, rows[id].settings.url)
  {
    var st := rows[id].settings;
    CloneTarget(env, git, st, LocalDir(env, st.url), ProjectRepoUrl(env, st), id, true)
  }

  /** The state the object loop starts a visit of row `id` from. */
  function StoredState(rows: map<nat, Record>, id: nat, dirs: set<string>, files: map<string, string>): (b: CloneState)
    requires id in rows
    ensures b.lastCommit == rows[id].lastCommit && b.lastError == rows[id].lastError
    ensures b.rows == rows && b.dirs == dirs && b.files == files
  {
    CloneState(rows[id].lastCommit, rows[id].lastError, rows, dirs, files)
  }

  /**
   * The idle branch from `b` to `a`: the second runner set-up goes as
   * `InitRel` says, ending in `mid` with `setup`; its exception passes
   * through, and otherwise `run` is called and goes as `RunRel` says.
   */
  ghost predicate StartSteps(t: CloneTarget, os: Os, b: CloneState, a: CloneState, ran: bool, o: Outcome,
                             mid: CloneState, setup: Outcome) {
    && InitRel(t, b, mid, setup)
    && (setup.Raised? ==> !ran && o == setup && a == mid)
    && (setup.Done? ==>
          && ran && a.lastCommit == mid.lastCommit && a.lastError == mid.lastError && a.rows == mid.rows
          && RunRel(t.dir, t.settings.port, os, mid.dirs, mid.files, a.dirs, a.files, o))
  }

  /** The idle branch from `b` to `a`, for some second set-up. */
  ghost predicate StartRel(t: CloneTarget, os: Os, b: CloneState, a: CloneState, ran: bool, o: Outcome) {
    exists mid: CloneState, setup: Outcome :: StartSteps(t, os, b, a, ran, o, mid, setup)
  }

  /**
   * A visit of the object loop that called `run`, from `b` to the rows,
   * directories and files it leaves: the first set-up succeeded, ending in
   * `s1`, the port was free, and from `s1` the idle branch went as
   * `StartSteps` says with `run` called.
   */
  ghost predicate RanSteps(t: CloneTarget, os: Os, b: CloneState, rows: map<nat, Record>, dirs: set<string>,
                           files: map<string, string>, o: Outcome, s1: CloneState, a: CloneState,
                           mid: CloneState, setup: Outcome) {
    && InitRel(t, b, s1, Done)
    && !os.probe(t.settings.port)
    && StartSteps(t, os, s1, a, true, o, mid, setup)
    && a.rows == rows && a.dirs == dirs && a.files == files
  }

  /** A visit that called `run`, for some intermediate states. */
  ghost predicate RanVisit(t: CloneTarget, os: Os, b: CloneState, rows: map<nat, Record>, dirs: set<string>,
                           files: map<string, string>, o: Outcome) {
    exists s1: CloneState, a: CloneState, mid: CloneState, setup: Outcome ::
      RanSteps(t, os, b, rows, dirs, files, o, s1, a, mid, setup)
  }

  /** The idle branch of the object loop: build a second runner and, unless
      that raised, `run` it. */
  method StartLoaded(p: Project, env: Env, git: Git, fs: FileSystem, os: Os) returns (ran: bool, o: Outcome)
    requires p.store.Valid() && p.pk in p.store.rows
    requires IsGitUrl(env.urisplit(p.url))
    requires SameProject(p.store.rows[p.pk], p.Snapshot())
    modifies p`lastCommit, p`lastError, p`pk, p.store, fs
    ensures p.store.Valid() && p.pk == old(p.pk)
    ensures OnlyStatusOf(p.store.rows, old(p.store.rows), p.pk)
    ensures o.Done? ==> ran
    ensures StartRel(TargetOf(p, env, git), os, old(StateOf(p, fs)), StateOf(p, fs), ran, o)
  {
    var second;
    second, o := SetUpRunner(p, env, git, fs);
    ghost var mid, setup := StateOf(p, fs), o;
    if o.Raised? {
      ran := false;
      assert StartSteps(TargetOf(p, env, git), os, old(StateOf(p, fs)), StateOf(p, fs), ran, o, mid, setup);
      return;
    }
    var _, runOutcome := second.Run(fs, os);
    ran, o := true, runOutcome;
    assert StartSteps(TargetOf(p, env, git), os, old(StateOf(p, fs)), StateOf(p, fs), ran, o, mid, setup);
  }

  /**
   * The state of `check_running_projects_task` after handling the first
   * `|started|` ids: the rows as `HandledUpTo` says, and `run` called as
   * `StartedWhenIdle` says, exactly so for the first `settled`.
   */
  ghost predicate Running(rows: map<nat, Record>, before: map<nat, Record>, items: seq<nat>,
                          started: seq<bool>, os: Os, settled: nat) {
    HandledUpTo(rows, before, items, |started|) && StartedWhenIdle(started, items, before, os, settled)
  }

  /** Handling the next project of the ascending ids. */
  method RunNext(store: Store, env: Env, git: Git, fs: FileSystem, os: Os, id: nat,
                 ghost items: seq<nat>, ghost before: map<nat, Record>, started: seq<bool>)
    returns (startedNow: seq<bool>, o: Outcome)
    requires |started| < |items| && id == items[|started|] && StrictlyAscending(items)
    requires store.Valid() && StoredUrlsValid(before, env)
    requires Running(store.rows, before, items, started, os, |started|)
    modifies store, fs
    ensures store.Valid() && |startedNow| == |started| + 1
    ensures Running(store.rows, before, items, startedNow, os, if o.Done? then |startedNow| else |started|)
    ensures startedNow[|started|] ==>
      RanVisit(StoredTarget(env, git, old(store.rows), id), os, StoredState(old(store.rows), id, old(fs.dirs), old(fs.files)),
               store.rows, fs.dirs, fs.files, o)
  {
    ghost var rows := store.rows;
    assert rows[id] == before[id];
    var ran;
    ran, o := RunStored(store, env, git, fs, os, id);
    HandledUpToStep(before, rows, store.rows, items, |started|);
    StartedWhenIdleStep(started, items, before, os, ran, o.Done?);
    startedNow := started + [ran];
  }

  /**
   * The object loop of `check_running_projects_task` over one page, the ids
   * `items[lo..lo + |page|]`. It returns how many objects were handled
   * without an exception, whether `run` was called for each handled
   * project so far (continuing `startedBefore`, those of the earlier
   * pages), and the exception that ended the loop, if any.
   */
  method RunObjects(store: Store, env: Env, git: Git, fs: FileSystem, os: Os, page: seq<nat>,
                    ghost items: seq<nat>, ghost before: map<nat, Record>, startedBefore: seq<bool>)
    returns (done: nat, started: seq<bool>, o: Outcome)
    requires |startedBefore| + |page| <= |items| && page == items[|startedBefore|..|startedBefore| + |page|]
    requires StrictlyAscending(items)
    requires store.Valid() && StoredUrlsValid(before, env)
    requires Running(store.rows, before, items, startedBefore, os, |startedBefore|)
    modifies store, fs
    ensures store.Valid()
    ensures done <= |page| && (o.Done? ==> done == |page|) && (o.Raised? ==> done < |page|)
    ensures |started| == |startedBefore| + done + (if o.Done? then 0 else 1)
    ensures Running(store.rows, before, items, started, os, |startedBefore| + done)
  {
    done, started := 0, startedBefore;
    o := Done;
    while done < |page|
      invariant done <= |page| && |started| == |startedBefore| + done
      invariant store.Valid() && Running(store.rows, before, items, started, os, |started|)
      invariant o.Done?
    {
      var id := page[done];
      assert id == items[|started|];
      started, o := RunNext(store, env, git, fs, os, id, items, before, started);
      if o.Raised? {
        return;
      }
      done := done + 1;
    }
  }

  /**
   * One iteration of the page loop of `check_running_projects_task`: handle
   * every object of page `pageNumber`, continuing `startedBefore`, which
   * covers the pages before it.
   */
  method RunPage(store: Store, env: Env, git: Git, fs: FileSystem, os: Os, items: seq<nat>, pageNumber: nat,
                 ghost before: map<nat, Record>, startedBefore: seq<bool>)
    returns (started: seq<bool>, o: Outcome)
    requires 1 <= pageNumber <= NumPages(|items|) && |startedBefore| == PageStart(pageNumber)
    requires StrictlyAscending(items)
    requires store.Valid() && StoredUrlsValid(before, env)
    requires Running(store.rows, before, items, startedBefore, os, |startedBefore|)
    modifies store, fs
    ensures store.Valid()
    ensures o.Done? ==> |started| == NextStart(|items|, pageNumber) && Running(store.rows, before, items, started, os, |started|)
    ensures o.Raised? ==> |startedBefore| < |started| <= |items| && Running(store.rows, before, items, started, os, |started| - 1)
  {
    var page := Page(items, pageNumber);
    PageAdvance(items, pageNumber);
    var done;
    done, started, o := RunObjects(store, env, git, fs, os, page, items, before, startedBefore);
  }

  /**
   * `check_running_projects_task`: for every project, page by page in id
   * order, start it when its port is free and leave it alone otherwise. The
   * first exception ends the run. `visited` lists the projects handled in
   * call order, and `started[k]` says whether `run` was called for
   * `visited[k]`.
   */
  method CheckRunningProjectsTask(store: Store, env: Env, git: Git, fs: FileSystem, os: Os)
    returns (visited: seq<nat>, started: seq<bool>, o: Outcome)
    requires store.Valid() && StoredUrlsValid(store.rows, env)
    modifies store, fs
    ensures store.Valid()
    ensures var ids := OrderedIds(old(store.rows).Keys);
      && |visited| <= |ids| && visited == ids[..|visited|]
      && (o.Done? ==> |visited| == |ids|)
      && (o.Raised? ==> 0 < |visited|)
      && |started| == |visited|
      && Running(store.rows, old(store.rows), ids, started, os, if o.Done? then |visited| else |visited| - 1)
  {
    ghost var before := store.rows;
    var items := OrderedIds(store.rows.Keys);
    var numPages := NumPages(|items|);
    started := [];
    o := Done;
    var pageNumber := 1;
    while pageNumber <= numPages
      invariant 1 <= pageNumber <= numPages + 1
      invariant |started| == if pageNumber <= numPages then PageStart(pageNumber) else |items|
      invariant store.Valid() && Running(store.rows, before, items, started, os, |started|)
      invariant o.Done?
    {
      started, o := RunPage(store, env, git, fs, os, items, pageNumber, before, started);
      if o.Raised? {
        visited := items[..|started|];
        assert |visited| == |started|;
        return;
      }
      pageNumber := pageNumber + 1;
    }
    visited := items[..|started|];
    assert |visited| == |started| == |items|;
  }
}
