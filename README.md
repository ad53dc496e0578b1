# ariel-installer orchestration core in Dafny

ariel-installer is a Django application that hosts small web applications
("projects") straight from their git repositories. Each project row holds a
repository URL, a TCP port and optional credentials. The orchestration core:

- clones the repository into a directory derived from the URL, or fetches
  it, and records the last commit or the last error on the row;
- answers libgit2's credential requests, and guards against libgit2's
  endless credential loop;
- stops whatever listens on the project's port with TERM, and KILL only when TERM fails, and
  discards the project's log files before a restart;
- validates a project before it is first saved;
- runs two periodic tasks over every stored project, 200 per page in id
  order. One fetches new commits. The other starts every project whose port
  is free.

The model is imperative where the code changes state:

- `Projects.Project` is an object with the row's fields, saved into a
  `Projects.Store` whose `url` and `port` columns are unique.
- `Repos.Callbacks`, `Repos.RepoTools` and `Runner.Runner` are classes
  with the fields the code assigns.
- Directories and files are a `FileSystem.FileSystem` object.
- The scheduler's job list is a `Scheduling.Scheduler` object.

Everything outside the core is a parameter and is fixed for one call:

- git (open, pull, clone) is a `Repos.Git` value.
- URL parsing, `quote_plus`, `abspath` and the traceback text form a
  `Urls.Env` value.
- The port probe, `lsof` and `kill` exit codes form a `Runner.Os` value.
- The clock is a number passed in.

An exception is an `Outcomes.Exc`, and a call that may raise returns an
`Outcomes.Outcome`. A primary key of 0 stands for Django's `None`.

Four behaviours of the code shape the contracts:

- **Clone before the port check.** `clean` builds an `AIApplicationRunner`
  before it probes the port, and that constructor clones a missing
  repository. So a busy port does not prevent a clone. `Validation.Clean`
  guarantees "no clone and nothing changed" only when the directories
  already exist.
- **No password fallback over ssh.** Over ssh without `ssh_key` the
  callback returns a variable it never assigned. It raises
  `UnboundLocalError` and does not fall back to a password.
- **No failure isolation.** Neither task catches exceptions. The first
  exception a project raises ends the run.
- **Start-up errors are not recorded.** `run` does not record its errors in
  `last_error`. The exceptions propagate.

## Model

| member | source | states |
|---|---|---|
| Projects.WriteKeepsUnique | github/models.py:16-23 | a write the database accepts never makes two rows share a url or a port |
| Projects.WriteEffect | github/models.py:16-23 | a write succeeds exactly when it clashes with no other row on url or port; then the row is stored under its id, else IntegrityError is raised and the rows stay as they were |
| Projects.FieldErrors | github/models.py:16-25 | the field errors are empty exactly when the port is within 1000..9999 and no other row has the same port or url; a port clash or a url clash is reported exactly when it exists |
| Projects.ValidRowKeepsStoreUnique | github/models.py:16-25 | a row that passes field validation is stored, and the store stays unique |
| Projects.Store.Write | github/models.py:58 | an update is refused with IntegrityError on a unique clash, and otherwise stores the row; the store stays valid |
| Projects.Store.Insert | github/models.py:58 | an insert takes the next free id, which is never 0, with the same clash rule |
| Projects.Project.Loaded | utils/jobs/scheduler.py:19-25 | an instance read from a stored row has that row's fields and key, and `is_cleaned` is not set |
| Projects.Project.Create | github/models.py:14-32 | a new instance has no key and the given fields |
| Projects.Project.Save | github/models.py:55-58 | `is_cleaned` never assigned raises AttributeError and changes nothing; with a key the row is rewritten or refused; without a key a successful insert gives the instance the new id |
| Repos.CredentialFor | github/utils.py:70-86 | a non-ssh scheme gives UserPass(username, password); ssh with a key gives the four-field keypair; ssh without a key fails; each case holds in both directions |
| Repos.Answer | github/utils.py:61-77 | a request after an earlier one raises the loop-guard GitError; a first request gets the scheme's credential |
| Repos.Replies | github/utils.py:57-77 | one reply per request on one callbacks object: the first is answered for the starting flag, every later one as after an earlier request |
| Repos.RefusedOnceAsked | github/utils.py:61-65 | once the flag is set, every request raises the loop-guard GitError whatever its URL |
| Repos.OnlyFirstRequestAnswered | github/utils.py:39-68 | on a fresh callbacks object only the first request gets credentials; every later one raises GitError |
| Repos.Callbacks.constructor | github/utils.py:28-41 | a new callbacks object has not been asked yet |
| Repos.Callbacks.Credentials | github/utils.py:57-77 | the call sets the flag and replies as `Answer` says for the flag's earlier value, a URL without a scheme counting as ssh |
| Repos.LastCommit | github/utils.py:198-200 | the commit of the last fetch-info entry that has one, or the old value when none has |
| Repos.ClashesIgnoresStatus | github/models.py:16-23 | rows that differ only in their status fields clash with the same rows |
| Repos.RepoTools.constructor | github/utils.py:90-95 | the local directory is `abspath(GIT_REPOS_DIR + url path)` and no repository is open |
| Repos.RepoTools.GetRepoUrl | github/utils.py:97-144 | the result is `Urls.RepoUrl` for the arguments: the credential probe never changes it |
| Repos.RepoTools.DeleteRepo | github/utils.py:168-177 | a regular file at the project path raises NotADirectoryError with nothing changed; otherwise the directory is absent afterwards, a present one removed with everything beneath it, an absent one leaving the file system unchanged, so a second call does nothing |
| Repos.RepoTools.RecordCommits | github/utils.py:198-200 | the loop leaves `last_commit` at `LastCommit` of the fetch infos |
| Repos.RepoTools.SaveIfStored | github/utils.py:206-207 | a stored project is saved, and an unsaved one leaves the store alone; at most the project's own row changes |
| Repos.RepoTools.GitFetch | github/utils.py:190-207 | an absent directory changes nothing; an open error escapes; a pull records the last commit, and a GitCommandError records the message and keeps `last_commit`; either way a stored project is saved; any other pull error escapes with nothing changed |
| Repos.FetchErrorMessage | github/utils.py:202 | the text recorded for a GitCommandError names the URL, the directory and the error |
| Repos.RepoTools.CloneAndPull | github/utils.py:221-243 | the clone, open and pull of an absent directory: which directory appears, which fields change, and which exception reaches the handler |
| Repos.RepoTools.CloneFresh | github/utils.py:221-252 | every exception of the clone branch ends in `last_error` as its traceback text and the project is saved; only a save can make the call raise |
| Repos.RepoTools.Pygit2CloneRepo | github/utils.py:209-253 | an existing directory is only fetched, as `GitFetch` says, with no delete and no clone; an absent one is cloned and pulled once as `CloneFresh` says; `CloneRel` states both cases over the project's status, its row and the file system |
| Urls.SchemeOrSsh | github/utils.py:58-59 | a URL without a scheme counts as ssh; a given scheme is compared in lower case, so `SSH://` counts as ssh |
| Urls.LowerAscii | github/utils.py:58-59 | the same length, with exactly the letters A to Z replaced by their lower-case forms |
| Urls.UpperCaseSshScheme | github/utils.py:58-59 | an upper-case `SSH` scheme is ssh to the credential callback but stays `SSH` for the URL builder |
| Urls.EffectiveScheme | github/utils.py:114 | a truthy override wins, otherwise the URL's own scheme; a git URL always has one |
| Urls.EffectiveUsername | github/utils.py:115-117 | a non-empty new username wins; False blanks the username unless the scheme is ssh; otherwise the project's username stays |
| Urls.PortSuffix | github/utils.py:118-120 | `:port` exactly when the URL has a non-empty port |
| Urls.RepoUrl | github/utils.py:110-127 | an absent project gives the empty string |
| Urls.LocalDir | github/utils.py:93-95 | the project directory is `abspath(GIT_REPOS_DIR + url path)`, the same for `RepoTools` and the runner |
| Urls.LocalDirByPath | github/utils.py:93-95 | two URLs with the same path share the project directory |
| Urls.RepoUrlScheme | github/utils.py:113-127 | the URL starts with the override scheme when one is given, else with the URL's own, then `://` |
| Urls.SchemeSwitch | github/utils.py:114-127 | over ssh the URL is `ssh://enc(user)@host[:port]path query`; over https the same without the user |
| Urls.NonSshUrlIgnoresUsername | github/utils.py:115-127 | for any scheme but ssh, neither the username override nor the project's username changes the URL |
| Urls.StripUsernameKeepsUrl | github/utils.py:115-117 | `new_username=False` gives the same URL as no override |
| Urls.RepoUrlAsWritten | github/utils.py:122-127 | when the code as written returns, it returns what `RepoUrl` returns |
| Urls.SshRepoUrlFailsAsWritten | github/utils.py:114-125 | whenever the effective scheme is ssh, from an override or from the URL itself, the code as written fails with AttributeError, while the intended URL embeds the encoded user |
| Urls.StoredSshUrlFailsAsWritten | github/utils.py:114-125 | a stored ssh URL with no override, as `git_fetch` and `pygit2_clone_repo` call it, fails as written with AttributeError |
| Urls.RunnerPathsLayout | github/utils.py:320-323 | the env path and the logs directory lie beneath the project directory, and both log files lie beneath the logs directory; the four paths differ, and nothing lies beneath the env path |
| FileSystem.FileSystem.MakeDir | github/utils.py:337-338 | `os.mkdir` raises NotADirectoryError when the parent is a file, FileNotFoundError when it is missing, FileExistsError on an existing path, and otherwise adds the directory |
| FileSystem.FileSystem.Touch | github/utils.py:418-422 | an absent file is created empty when its directory exists; otherwise the failure is reported and nothing changes |
| FileSystem.FileSystem.Unlink | github/utils.py:406-409 | a file is removed; a directory or a missing path raises |
| FileSystem.FileSystem.RemoveTree | github/utils.py:177 | `rmtree` on a directory removes it and everything beneath it and nothing else; on a regular file it raises NotADirectoryError, on a missing path FileNotFoundError, and nothing changes |
| FileSystem.FileSystem.AddDir | github/utils.py:226 | a clone creates exactly its root directory and no file |
| Runner.Handled | github/utils.py:400-402 | the loop handles the pids up to and including the first whose KILL fails, or all of them |
| Runner.PidSignals | github/utils.py:400-402 | one pid gets TERM first, and KILL second exactly when TERM failed |
| Runner.Signals | github/utils.py:400-402 | a list of pids gets at least one and at most two signals per pid |
| Runner.FatalPid | github/utils.py:401-402 | a failing KILL exists exactly when some pid fails both signals, and it is one of those pids |
| Runner.HandledStopsAtFirstFatal | github/utils.py:400-402 | the loop stops right after the first pid whose TERM and KILL both fail |
| Runner.HandledWithoutFatal | github/utils.py:400-402 | with no such pid the loop handles every pid |
| Runner.EveryPidTermedOnce | github/utils.py:400-401 | every pid `lsof` listed gets exactly one TERM, in order |
| Runner.PidTermedOnce | github/utils.py:401-402 | one pid's signals hold exactly one TERM, to that pid |
| Runner.KillOnlyAfterFailedTerm | github/utils.py:401-402 | a KILL goes only to a pid whose TERM just failed |
| Runner.SignalPids | github/utils.py:399-404 | the loop sends the signals of the handled pids and reports the pid whose KILL failed |
| Runner.SignalPid | github/utils.py:401-402 | one pid is sent the signals `PidSignals` gives, and the call reports exactly when both TERM and KILL failed |
| Runner.Runner.constructor | github/utils.py:325-330 | the runner's directory is the one `RepoTools` computes |
| Runner.Runner.Init | github/utils.py:331-338 | `InitRel`: a missing project is cloned as `ClonedFresh` says, and unless that raised, the logs directory is made; with the project present only the logs directory may appear, and `mkdir` raises NotADirectoryError when the project path is a file; afterwards, unless it raised, the logs directory exists |
| Runner.Runner.CloneMissing | github/utils.py:331-336 | the clone step of the constructor on a missing directory: the status fields, the row and the file system change exactly as a fresh clone does |
| Runner.Runner.IsApplicationRunning | github/utils.py:386-390 | the port probe's answer |
| Runner.Runner.EnvPath | github/utils.py:411-413 | the env path lies strictly beneath the project directory |
| Runner.Runner.TouchLog | github/utils.py:415-433 | an absent log file is created empty when the logs directory exists |
| Runner.Runner.AccessLogPath | github/utils.py:425-433 | `<dir>/logs/access.log`, created empty when absent and creatable |
| Runner.Runner.ErrorLogPath | github/utils.py:415-423 | `<dir>/logs/error.log`, created empty when absent and creatable |
| Runner.Runner.DiscardLog | github/utils.py:406-409 | fetching a log path and unlinking it leaves the file absent, unless the path is a directory |
| Runner.Runner.KillApplication | github/utils.py:392-409 | pids are signalled only when the probe succeeds; the outcome is the failing KILL, else a log path that is a directory, else success; only the two log files can disappear, and no other file or directory changes; on success both log files are absent afterwards |
| Runner.Runner.Run | github/utils.py:342-360 | `RunRel`: the outcome is the stop's exception, else NotADirectoryError when the env path is a regular file, else success; on success exactly the env directory tree is gone, the other files are kept, and both log files exist empty when the logs directory exists; on an exception the directories are unchanged and only log files can be gone |
| Runner.RunOutcome | github/utils.py:342-346 | `run` succeeds exactly when the stop succeeds and the env path is not a regular file |
| Runner.Runner.ResetEnvAndLogs | github/utils.py:343-360 | with both logs absent, an env path that is a regular file raises NotADirectoryError with nothing changed; otherwise the env tree is removed and the two log files are created, as `RestartedFiles` says |
| Runner.RestartedFilesWithoutLogs | github/utils.py:343-360 | discarding the old log files first does not change which files the restart leaves |
| Validation.NatToString | github/models.py:46 | the decimal text of the port: digits only, no leading zero |
| Validation.NatToStringRoundTrip | github/models.py:46 | reading the text back gives the port |
| Validation.Validated | github/models.py:51-52 | the call succeeds exactly when the clone step succeeded and no error was recorded; a recorded error raises the clone message |
| Validation.CloneChecked | github/models.py:48-52 | the clone step changes the state as `CloneRel` says, and the outcome is `Validated` of its outcome and the new `last_error` |
| Validation.MarkAndPrepare | github/models.py:42-44 | `is_cleaned` is set, `last_error` is cleared, and the runner step goes as `InitRel` says from that state |
| Validation.ProbeThenClone | github/models.py:44-52 | a busy port raises the port message with nothing changed; a free one is cloned or fetched as `CloneChecked` says |
| Validation.Clean | github/models.py:41-53 | `is_cleaned` is set; `CleanRel`: from the state with `last_error` cleared the runner step goes as `InitRel` says, its exception passes through, a busy port raises the port message, and otherwise the clone step goes as `CloneRel` says with the outcome `Validated` gives; with the directories present a busy port changes nothing else; other rows are never touched |
| Paging.MinId | utils/jobs/scheduler.py:19 | the smallest id of a non-empty set |
| Paging.OrderedIds | utils/jobs/scheduler.py:19 | the ids strictly ascending, one per row, each a stored id |
| Paging.OrderedIdsComplete | utils/jobs/scheduler.py:19 | no stored id is left out of the ordering |
| Paging.NumPages | utils/jobs/scheduler.py:20-22 | at least one page, enough pages for every row, no empty page when there are rows |
| Paging.Page | utils/jobs/scheduler.py:23-25 | a page is the next slice of at most 200 ids; every page but the last is full, and the last ends with the ids |
| Paging.PageAdvance | utils/jobs/scheduler.py:22-25 | each page ends where the next one starts |
| Paging.PagesUpToIsPrefix | utils/jobs/scheduler.py:22-25 | the first n pages are exactly the first ids, in order |
| Paging.PagesCoverItems | utils/jobs/scheduler.py:22-25 | all pages together are the ordered ids: each project is visited exactly once |
| Jobs.FetchRaises | utils/jobs/scheduler.py:25-28 | for the corrected URL builder, `git_fetch` on a stored project raises only when the project's directory exists |
| Jobs.FetchedRecord | utils/jobs/scheduler.py:25-28 | the saved row is the same project with new status fields, and unchanged without a directory |
| Jobs.OwnRowNeverClashes | utils/jobs/scheduler.py:26-28 | a row rewritten with its own port and url never clashes |
| Jobs.FetchStored | utils/jobs/scheduler.py:25-28 | for the corrected URL builder, with `is_cleaned` set, the fetch raises only what the repository raises, and otherwise saves the fetched row; no other row changes |
| Jobs.FetchedUpToStep | utils/jobs/scheduler.py:25-28 | fetching the next id extends the fetched prefix by one |
| Jobs.FetchObjects | utils/jobs/scheduler.py:25-28 | the object loop fetches the page's ids in order until one raises |
| Jobs.FetchPage | utils/jobs/scheduler.py:22-28 | one page iteration fetches that page's ids and ends where the next page starts |
| Jobs.CheckNewCommitsTask | utils/jobs/scheduler.py:15-28 | the fetches follow ascending ids with no gap; all rows are fetched unless one raises; that one ends the run, and every row before it holds its fetched value |
| Jobs.SetUpRunner | utils/jobs/scheduler.py:43 | building a runner changes at most the project's own status fields, as `InitRel` says; with both directories present it changes nothing |
| Jobs.RunStored | utils/jobs/scheduler.py:41-45 | `run` is called only when the port probe finds the port free, and exactly then unless something raised; a visit that called it went through two set-ups as `InitRel` says and a `run` as `RunRel` says (`RanVisit`); only the project's own status fields may change; a busy project whose directories exist is left untouched |
| Jobs.StartLoaded | utils/jobs/scheduler.py:43-45 | `StartRel`: the second runner set-up goes as `InitRel` says; its exception passes through, and otherwise `run` is called and the files, directories and outcome are as `RunRel` says; only the project's status fields change |
| Jobs.StartedWhenIdleStep | utils/jobs/scheduler.py:43-45 | recording the next project's decision extends the record |
| Jobs.OnlyStatusOfTrans | utils/jobs/scheduler.py:43-45 | two runner set-ups for the same project together change only its status fields |
| Jobs.HandledUpToStep | utils/jobs/scheduler.py:41-45 | handling the next id extends the handled prefix by one |
| Jobs.RunNext | utils/jobs/scheduler.py:41-45 | one object-loop iteration records whether `run` was called, and when it was, the visit went as `RanVisit` says |
| Jobs.RunObjects | utils/jobs/scheduler.py:41-45 | the object loop handles the page's ids in order until one raises |
| Jobs.RunPage | utils/jobs/scheduler.py:38-45 | one page iteration handles that page's ids and ends where the next page starts |
| Jobs.CheckRunningProjectsTask | utils/jobs/scheduler.py:31-45 | the projects are visited in ascending ids with no gap, all of them unless one raises; `run` is called exactly for those whose port was free, each call having the effect `Jobs.RunNext` states; rows change only in their status fields |
| Scheduling.RemoveJob | utils/jobs/scheduler.py:51-52 | a job remains exactly when it was listed under another id; without that id nothing changes |
| Scheduling.RemoveJobIdempotent | utils/jobs/scheduler.py:52 | deleting a job twice is the same as deleting it once |
| Scheduling.PurgedMembers | utils/jobs/scheduler.py:51-52 | a job survives the deletions exactly when no deleted job had its id |
| Scheduling.PurgedAll | utils/jobs/scheduler.py:51-52 | deleting every listed job empties the list |
| Scheduling.Scheduler.GetJobs | utils/jobs/scheduler.py:51 | the jobs listed now |
| Scheduling.Scheduler.Delete | utils/jobs/scheduler.py:52 | the job list loses that job's id and nothing else |
| Scheduling.Scheduler.Schedule | utils/jobs/scheduler.py:55 | exactly one job is appended, with a fresh id and the given task, start time and interval |
| Scheduling.TasksScheduler.constructor | utils/jobs/scheduler.py:48-52 | afterwards no previously scheduled job remains |
| Scheduling.TasksScheduler.CheckNewCommits | utils/jobs/scheduler.py:54-55 | exactly one job for `check_new_commits_task` is added, starting now, every 60 seconds by default |
| Scheduling.TasksScheduler.CheckRunningProjects | utils/jobs/scheduler.py:57-58 | exactly one job for `check_running_projects_task` is added, starting now, every 60 seconds by default |
| Scheduling.OneJobPerTask | utils/jobs/scheduler.py:54-58 | a list of the two registered jobs holds exactly one job per task |
| Scheduling.Ready | utils/apps.py:8-12 | at start-up, whatever jobs an earlier start left, the list ends with exactly the two new jobs, one per task |

## Left out

- `PyGit2Callbacks.transfer_progress` (github/utils.py:43-55): progress logging with float arithmetic, and it changes nothing the rest of the code reads.
- `RepoTools.clone_repo` and `update_repo` (github/utils.py:179-188, 255-316): nothing in the core calls them. `update_repo` duplicates `delete_repo`, and `clone_repo` is subprocess and file-descriptor I/O.
- `RepoTools.get_repo` (github/utils.py:146-166): nothing in the core calls it.
- `AIApplicationRunner.create_env` and the pip/gunicorn shell step of `run` are external processes. `Runner.Runner.Run` stops where that step begins.
- The `dirname` attribute the runner's constructor computes is not part of this model: nothing reads it.
- Urls.SchemeOrSsh: `getscheme` lower-cases the scheme; only the ASCII letters A to Z are lower-cased, which covers every scheme the URL grammar allows.
- Repos.RepoTools.GitFetch, and `Repos.RepoTools.Pygit2CloneRepo` on an existing directory: the changes a pull makes to the working tree are not modelled, so the directories and files are unchanged in the model. A pull can add or remove a committed `logs/` or `.env`, which `Runner.Runner.Init` and `Runner.Runner.Run` then test.
- FileSystem.FileSystem.AddDir: a clone's working tree is not modelled. Only its root directory appears, and the files are unchanged, so nothing is stated about what the clone writes beneath it.
- Repos.RepoTools.GetRepoUrl, together with `Repos.RepoTools.GitFetch`, `Repos.RepoTools.CloneFresh`, `Repos.RepoTools.Pygit2CloneRepo`, `Runner.Runner.Init`, `Validation.Clean`, `Jobs.FetchRaises`, `Jobs.FetchStored` and `Jobs.CheckNewCommitsTask`, uses the corrected URL builder of "## Findings". As written, every ssh project raises AttributeError at the start of `git_fetch` and `pygit2_clone_repo` (`Urls.StoredSshUrlFailsAsWritten`).
- Runner.Runner.Run: with `CREATE_VIRTUAL_ENV` set, `create_env` (github/utils.py:349-350) runs before the log paths are fetched (github/utils.py:360). The model takes the order with the setting off, so its claim that no env directory remains describes that order.
- URL parsing, `quote_plus`, `os.path.abspath` and the traceback text are library code. They are uninterpreted functions in `Urls.Env`.
- `Urls.RepoUrl`: a URL without a host, which `urisplit` would allow, is excluded by a precondition. Every stored URL comes from the git-URL validator (github/fields.py:12-16), which requires a host and one of http, https, ssh or git.
- `Repos.RepoTools.Pygit2CloneRepo`: the branch for a falsy project (github/utils.py:244-245) is left out, because every caller passes a project.
- All logging, and all `sleep` calls, are left out. So are scheduling intervals firing over time and any concurrency between the tasks.
- The oracles are fixed for one call. In particular the port probe gives the same answer before and after `run`, and git answers the same way for a directory each time.
- `lsof` output arrives already split on whitespace.
- `Projects.Project`: the settings fields are constants of the instance, because the core only reads them.
- `Projects.Project.Save`: the `full_clean` branch is unreachable. `is_cleaned` is only ever assigned True; before that the attribute does not exist and reading it raises AttributeError.
- Django's own model validation inside `clean` (`super().clean()`) checks nothing on this model, so it is left out. The field constraints are `Projects.FieldErrors`.
- `Validation.Clean`: the "port in use, so nothing is cloned" guarantee holds only when the project and logs directories exist, because the code clones in the runner's constructor before it probes.
- `Jobs.CheckRunningProjectsTask`: "a busy project with its directories is left untouched" and what `run` does to the files (`Jobs.RanVisit`) are stated per visit, by `Jobs.RunStored` and `Jobs.RunNext`, and not for the whole task, because the directories and files at a visit depend on the projects visited before it.
- `Jobs.CheckRunningProjectsTask`: the `started` entry of the project that raised is only bounded. It is true only if the port was free, but it is not settled in both directions.
- `Paging.NumPages`: `Paginator` is modelled only for the page size 200 that both tasks use, with no orphans and an empty first page allowed.
- `Scheduling.Ready`: both `datetime.utcnow()` readings are the same number `now`, though the code reads the clock twice.
- `Scheduling.Scheduler`: rq-scheduler's job ids come from a counter in this model, and its storage in Redis is left out. The clock reading `datetime.utcnow()` is a parameter.

## Findings

| source | as written | input that shows it | evidently intended | confidence | as-written member | corrected member |
|---|---|---|---|---|---|---|
| github/utils.py:123 | `urllib.quote_plus`, a name that does not exist under Python 3; the ssh branch raises AttributeError before any URL is built | any project whose URL scheme (or `new_scheme`) is ssh | `urllib.parse.quote_plus`, embedding the encoded username | not executed | Urls.SshRepoUrlFailsAsWritten, Urls.StoredSshUrlFailsAsWritten | Urls.RepoUrl |
