/**
 * `ProjectWorker.run` as a function of the request and the outcomes of the
 * outside world: project folder, directory layout, virtual environment, pip
 * location, installation (the four fatal gates and the layout are the early
 * steps), then requirements.txt, README.md, git and the size report (the
 * late steps), then the `finally` block.
 */
module Pipeline {

  import opened Wrappers
  import opened Events
  import opened Oracles
  import opened Installer

  /**
   * How a step hands control back to `run`: go on, `return` early (a fatal
   * gate), or an exception that escapes to the catch-all handler.
   */
  datatype Flow = Next | Return | Raise

  /** The worker's fields as the constructor leaves them. */
  function Initial(env: Env): State {
    State([], [], 0, false, None, env.venvExists, false, 0)
  }

  // ---------------------------------------------------------------------
  // Step 2: the directory layout (`create_directory_structure`)
  // ---------------------------------------------------------------------

  const Layout: seq<string> := ["src", "tests", "docs", "data", "notebooks", "config", "logs"]

  /** The layout directories that receive an empty `__init__.py`. */
  predicate HasInitFile(d: string) {
    d == "src" || d == "tests"
  }

  /** Creating directory `d` and, where it has one, its `__init__.py` succeeds. */
  predicate DirOk(env: Env, d: string) {
    env.mkdirOk(d) && (HasInitFile(d) ==> env.initFileOk(d))
  }

  predicate LayoutOk(env: Env) {
    forall j | 0 <= j < |Layout| :: DirOk(env, Layout[j])
  }

  /**
   * The layout loop from directory `i` on. Nothing in it is caught: a
   * failing `mkdir` or `touch` is an exception that leaves `run`.
   */
  function LayoutFrom(env: Env, i: nat, s: State): (r: (Flow, State))
    requires i <= |Layout|
    decreases |Layout| - i
    ensures r.0 != Return && r.1.(events := s.events) == s
  {
    if i == |Layout| then (Next, s)
    else
      var d := Layout[i];
      if !env.mkdirOk(d) then (Raise, s)
      else
        var s1 := Emit(s, CreatedDirectory(d));
        if HasInitFile(d) && !env.initFileOk(d) then (Raise, s1)
        else LayoutFrom(env, i + 1, s1)
  }

  /** `create_directory_structure`: it never returns early and only posts messages. */
  function CreateDirectoryStructure(env: Env, s: State): (r: (Flow, State))
    ensures r.0 != Return && r.1.(events := s.events) == s
  {
    LayoutFrom(env, 0, s)
  }

  // ---------------------------------------------------------------------
  // `_cleanup_partial`
  // ---------------------------------------------------------------------

  /** Cleanup touches the venv only with the option set, the path set and the venv on disk. */
  predicate CleanupApplies(req: Request, s: State) {
    req.options.cleanupOnFail && s.venvPath.Some? && s.venvOnDisk
  }

  /** Remove the venv when cleanup applies; a failed removal is only a warning. */
  function Cleanup(req: Request, env: Env, s: State): (r: State)
    ensures r.(events := s.events, venvOnDisk := s.venvOnDisk, venvRemoved := s.venvRemoved) == s
    ensures r.venvRemoved <==> s.venvRemoved || (CleanupApplies(req, s) && env.rmtreeOk)
  {
    if CleanupApplies(req, s) then
      if env.rmtreeOk then Emit(s, CleanedUp).(venvOnDisk := false, venvRemoved := true)
      else Emit(s, CleanupFailed)
    else s
  }

  // ---------------------------------------------------------------------
  // Step 3: the virtual environment (`create_venv`)
  // ---------------------------------------------------------------------

  /**
   * `create_venv`: the write probe, then the venv command. A denied probe
   * and a failing command give False (`Return`); any other probe fault
   * escapes. A failed command may leave a partial venv behind.
   */
  function CreateVenv(req: Request, env: Env, s: State): (r: (Flow, State))
    ensures r.1.commands == s.commands || r.1.commands == s.commands + [VenvCommand(req)]
    ensures r.0 == Next ==> r.1.venvOnDisk && r.1.commands == s.commands + [VenvCommand(req)]
    ensures r.1.success == s.success && r.1.venvRemoved == s.venvRemoved
  {
    match env.probe
    case PermissionDenied => (Return, Emit(s, NoWritePermission(ProjectDir(req))))
    case ProbeFault => (Raise, s)
    case Writable =>
      var s1 := Emit(s, CreatingVenv(VenvPath(req)));
      var (rc, t) := RunCommand(env, VenvCommand(req), |s1.commands|, s1.polls);
      var s2 := Apply(s1, t);
      if rc != 0 then (Return, Emit(s2, VenvFailed).(venvOnDisk := env.venvLeftOnFailure))
      else (Next, Emit(s2, VenvCreated).(venvOnDisk := true))
  }

  /**
   * Step 3 of `run`: record the venv path; reuse an existing venv with a
   * warning, otherwise build it and clean up if that fails.
   */
  function VenvStep(req: Request, env: Env, s: State): (r: (Flow, State))
    ensures r.1.venvPath == Some(VenvPath(req)) && r.1.success == s.success
    ensures r.0 == Next ==> r.1.venvOnDisk && r.1.venvRemoved == s.venvRemoved
  {
    var s1 := s.(venvPath := Some(VenvPath(req)));
    if s1.venvOnDisk then (Next, Emit(s1, VenvReused))
    else
      var (f, s2) := CreateVenv(req, env, s1);
      if f == Return then (Return, Cleanup(req, env, s2))
      else (f, s2)
  }

  // ---------------------------------------------------------------------
  // Step 4: locating pip, then installing
  // ---------------------------------------------------------------------

  /** The single install command of the `python -m pip` path, over the packages as given. */
  function PythonPipCommand(python: string, pkgs: seq<string>): seq<string> {
    [python, "-m", "pip", "install"] + pkgs
  }

  /** A command the install step may launch: a screened pip command, or the `python -m pip` one. */
  predicate InstallCommand(req: Request, env: Env, c: seq<string>) {
    if env.pipExists then SafeInstallCommand(env.pipPath, c)
    else c == PythonPipCommand(env.venvPython, req.packages)
  }

  /**
   * Step 4 of `run`: the venv's pip executable if it exists, else its
   * python through `python -m pip`, else a fatal error.
   */
  function PipAndInstall(req: Request, env: Env, s: State): (r: (Flow, State))
    ensures r.0 != Raise && r.1.success == s.success
    ensures !env.pipExists && !env.pythonExists ==> r.0 == Return && r.1.commands == s.commands
  {
    if !env.pipExists && !env.pythonExists then (Return, Cleanup(req, env, Emit(s, CannotLocatePip)))
    else
      var s1 := if env.pipExists then s else Emit(s, UsingPythonPip);
      Install(req, env, s1)
  }

  /**
   * The installation once pip is located. Nothing to install is only a
   * log line; the `python -m pip` path is one command over the unscreened
   * list, fatal if it fails; the pip path is the installer strategy, fatal
   * if it returns False. Every fatal branch cleans up.
   */
  function Install(req: Request, env: Env, s: State): (r: (Flow, State))
    ensures r.0 != Raise && r.1.success == s.success
    ensures req.packages == [] ==> r.0 == Next && r.1.commands == s.commands
  {
    if req.packages == [] then (Next, Emit(s, NoPackagesToInstall))
    else if !env.pipExists then
      var (rc, t) := RunCommand(env, PythonPipCommand(env.venvPython, req.packages), |s.commands|, s.polls);
      var s1 := Apply(s, t);
      if rc != 0 then (Return, Cleanup(req, env, Emit(s1, PackageInstallFailed)))
      else (Next, s1)
    else
      var (ok, t) := InstallBatch(env, env.pipPath, req.packages, |s.commands|, s.polls);
      var s1 := Apply(s, t);
      if !ok then (Return, Cleanup(req, env, s1))
      else (Next, s1)
  }

  /** Steps 1 to 4: project folder, layout, venv, pip and installation. */
  function EarlySteps(req: Request, env: Env, s: State): (r: (Flow, State))
    ensures r.1.success == s.success
  {
    if !env.folderOk then (Return, Emit(s, CannotCreateFolder))
    else
      var s1 := Emit(s, ProjectFolder(ProjectDir(req)));
      var (f2, s2) := CreateDirectoryStructure(env, s1);
      if f2 != Next then (f2, s2)
      else
        var (f3, s3) := VenvStep(req, env, s2);
        if f3 != Next then (f3, s3)
        else PipAndInstall(req, env, s3)
  }

  // ---------------------------------------------------------------------
  // Steps 5-9: requirements, README, git, size, success
  // ---------------------------------------------------------------------

  /** `write_requirements`: every fault is caught and reported. */
  function WriteRequirements(env: Env, s: State): (r: State)
    ensures r.(events := s.events) == s && |r.events| == |s.events| + 1
  {
    Emit(s, if env.requirementsOk then RequirementsSaved else RequirementsFailed)
  }

  /** `create_readme`: every fault is caught and reported. */
  function CreateReadme(env: Env, s: State): (r: State)
    ensures r.(events := s.events) == s && |r.events| == |s.events| + 1
  {
    Emit(s, if env.readmeOk then ReadmeCreated else ReadmeFailed)
  }

  /**
   * `create_git_repo`: a missing git is a warning; a fault in the version
   * probe other than the two caught ones escapes; otherwise the outcome
   * of initialization is reported. The result is never used by `run`.
   */
  function CreateGitRepo(env: Env, s: State): (r: (Flow, State))
    ensures r.0 != Return && (r.0 == Raise <==> env.git == GitProbeFault)
    ensures r.1.(events := s.events) == s
  {
    match env.git
    case GitMissing => (Next, Emit(s, GitNotFound))
    case GitProbeFault => (Raise, s)
    case GitCommandError => (Next, Emit(Emit(s, InitializingGit), GitCommandFailed))
    case GitOtherError => (Next, Emit(Emit(s, InitializingGit), GitFailed))
    case GitDone => (Next, Emit(Emit(s, InitializingGit), GitInitialized))
  }

  /** The summary `run` posts: the package count is the list's length and the git flag is the option. */
  function SummaryOf(req: Request, size: nat): Event {
    Summary(ProjectDir(req), size, |req.packages|, req.options.createGit)
  }

  /**
   * Steps 5 to 9. Only an escaping git fault stops them; otherwise the run
   * is marked successful and ends with the success event and the summary.
   */
  function LateSteps(req: Request, env: Env, s: State): (r: (Flow, State))
    ensures r.0 != Return && r.1.commands == s.commands && r.1.polls == s.polls
    ensures r.0 == Next <==> !(req.options.createGit && env.git == GitProbeFault)
    ensures r.0 == Next ==> r.1.success && r.1.projectSize == env.size
  {
    var s1 := WriteRequirements(env, s);
    var s2 := if req.options.createReadme then CreateReadme(env, s1) else s1;
    var (f, s3) := if req.options.createGit then CreateGitRepo(env, s2) else (Next, s2);
    if f == Raise then (Raise, s3)
    else
      var s4 := Emit(s3.(projectSize := env.size), ProjectSize(env.size));
      (Next, EmitAll(s4.(success := true), [Done(true), SummaryOf(req, env.size)]))
  }

  /** Steps 1 to 9, up to the catch-all handler. */
  function Steps(req: Request, env: Env, s: State): (r: (Flow, State))
    ensures r.0 == Next ==> r.1.success
    ensures r.0 != Next ==> r.1.success == s.success
  {
    var (f, s1) := EarlySteps(req, env, s);
    if f != Next then (f, s1) else LateSteps(req, env, s1)
  }

  // ---------------------------------------------------------------------
  // The handler and the `finally` block
  // ---------------------------------------------------------------------

  /**
   * The catch-all handler reports an escaped fault in two error lines; the
   * `finally` block posts the failure event when the run did not succeed,
   * and always the completion event last.
   */
  function Finalize(f: Flow, s: State): (r: State)
    ensures r.(events := s.events) == s && |r.events| > |s.events|
    ensures r.events[|r.events| - 1] == ProgressComplete
  {
    var s1 := if f == Raise then EmitAll(s, [Post(UnexpectedError), Post(Traceback)]) else s;
    EmitAll(s1, (if s1.success then [] else [Done(false)]) + [ProgressComplete])
  }

  /** `ProjectWorker.run` from the worker state `s`. */
  function RunFrom(req: Request, env: Env, s: State): (r: State)
    ensures r.events != [] && r.events[|r.events| - 1] == ProgressComplete
  {
    var (f, s1) := Steps(req, env, s);
    Finalize(f, s1)
  }

  /** One worker, built for `req` and started once. */
  function Run(req: Request, env: Env): (r: State)
    ensures r.events != [] && r.events[|r.events| - 1] == ProgressComplete
    ensures !env.folderOk ==> !r.success && r.commands == []
  {
    RunFrom(req, env, Initial(env))
  }
}
