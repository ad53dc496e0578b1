/**
 * The exceptions the orchestration core raises or catches, and the outcome
 * of a call that may raise: it either returns normally or raises one of them.
 */
module Outcomes {

  datatype Exc =
    /** GitPython: a git command (fetch, merge) failed. */
    | GitCommandError(message: string)
    /** pygit2 / libgit2, including the credential-loop guard. */
    | GitError(message: string)
    /** GitPython: `Repo(dir)` on a directory that is not a repository. */
    | InvalidGitRepositoryError(path: string)
    /** `credentials` returned a local variable it never assigned. */
    | UnboundLocalError(name: string)
    /** An attribute read before it was ever assigned. */
    | AttributeError(name: string)
    /** An OS call on a path whose parent directory is missing. */
    | FileNotFoundError(path: string)
    /** `os.mkdir` on a path that already exists. */
    | FileExistsError(path: string)
    /** `os.unlink` on a directory. */
    | IsADirectoryError(path: string)
    /** A path used as a directory that is a regular file (`rmtree`, or `os.mkdir` beneath it). */
    | NotADirectoryError(path: string)
    /** `subprocess.run(..., check=True)` whose command exited non-zero. */
    | CalledProcessError(command: seq<string>)
    /** Django model validation. */
    | ValidationError(message: string)
    /** The database refused a write that breaks a unique constraint. */
    | IntegrityError(message: string)
    /** Anything else a collaborator may raise. */
    | OtherError(message: string)

  /** How a call ends: it returns normally, or it raises. */
  datatype Outcome = Done | Raised(exc: Exc)
}
