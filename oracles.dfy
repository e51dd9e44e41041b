/**
 * Everything the worker learns from outside: the request it is built with,
 * and the outcomes of processes, of the file system and of the cancellation
 * flag, given as values.
 */
module Oracles {

  /** What one launched command does: it cannot be started, or it prints lines and exits. */
  datatype Proc = LaunchFault | Exited(lines: seq<string>, code: int)

  /**
   * The shared cancellation flag, as seen by the worker: the k-th read
   * (counting from 0) finds it set exactly when k >= n. Once set it stays set.
   */
  datatype Cancel = Never | AfterPolls(n: nat)

  predicate IsSet(c: Cancel, k: nat) {
    match c
    case Never => false
    case AfterPolls(n) => k >= n
  }

  /** The write probe before venv creation: success, `PermissionError`, or another fault. */
  datatype Probe = Writable | PermissionDenied | ProbeFault

  /**
   * `create_git_repo`: git missing, a fault other than the two caught ones in
   * the `git --version` probe, a failing git command, another fault while
   * initializing, or success.
   */
  datatype GitOutcome = GitMissing | GitProbeFault | GitCommandError | GitOtherError | GitDone

  datatype Options = Options(createReadme: bool, createGit: bool, cleanupOnFail: bool)

  /** The worker's constructor arguments: where, what to install, and the options. */
  datatype Request = Request(
    parentDir: string,
    name: string,
    packages: seq<string>,
    options: Options,
    python: string)  // the interpreter running the builder (`sys.executable`)

  function ProjectDir(req: Request): string {
    req.parentDir + "/" + req.name
  }

  function VenvPath(req: Request): string {
    ProjectDir(req) + "/venv"
  }

  /** The command that builds the virtual environment. */
  function VenvCommand(req: Request): seq<string> {
    [req.python, "-m", "venv", VenvPath(req), "--prompt", req.name]
  }

  /** The outcomes of everything outside the worker, for one run. */
  datatype Env = Env(
    run: (nat, seq<string>) -> Proc, // what the launcher's launch number n (from 0) of a command does
    cancel: Cancel,                 // the cancellation flag
    folderOk: bool,                 // creating the project folder succeeds
    mkdirOk: string -> bool,        // creating each layout directory succeeds
    initFileOk: string -> bool,     // touching `__init__.py` in src and tests succeeds
    venvExists: bool,               // the venv directory exists when the run starts
    probe: Probe,                   // the write probe before venv creation
    venvLeftOnFailure: bool,        // a failed venv build leaves its directory behind
    pipPath: string,                // the venv's pip executable
    pipExists: bool,
    venvPython: string,             // the venv's python executable
    pythonExists: bool,
    rmtreeOk: bool,                 // removing the venv during cleanup succeeds
    requirementsOk: bool,           // writing requirements.txt succeeds
    readmeOk: bool,                 // writing README.md succeeds
    git: GitOutcome,
    size: nat)                      // what the size calculation returns
}
