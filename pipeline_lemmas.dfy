/**
 * What `ProjectWorker.run` promises: the fatal gates stop it before the
 * late steps, cleanup follows the last three gates only, the `finally`
 * block always closes the log, and the summary reports the request.
 */
module PipelineLemmas {

  import opened Wrappers
  import opened PackageName
  import opened Events
  import opened Oracles
  import opened Installer
  import opened InstallerLemmas
  import opened Pipeline

  // ---------------------------------------------------------------------
  // The gates, stated on the outcomes of the outside world
  // ---------------------------------------------------------------------

  /**
   * The venv is there to use: it already existed, or the probe passed and
   * the venv command, as launch number `n`, exited with 0.
   */
  predicate VenvReady(req: Request, env: Env, n: nat) {
    env.venvExists || (env.probe == Writable && ExitCode(env.run(n, VenvCommand(req))) == 0)
  }

  /** The launch number of the first install command when the venv step starts at launch `n`. */
  function InstallBase(env: Env, n: nat): nat {
    if env.venvExists then n else n + 1
  }

  /**
   * The installation gate, its first command being launch number `n`:
   * with the venv's pip, the strategy's verdict without cancellation;
   * without it, the venv's python must exist and its single
   * `python -m pip` command, if any, must exit with 0.
   */
  predicate InstallSucceeds(req: Request, env: Env, n: nat) {
    if env.pipExists then
      var valid := ValidOnly(req.packages);
      valid == [] || ExitCode(env.run(n, BatchCommand(env.pipPath, valid))) == 0 ||
      InstalledFrom(env, env.pipPath, valid, 0, n + 1) > 0
    else
      env.pythonExists &&
      (req.packages == [] || ExitCode(env.run(n, PythonPipCommand(env.venvPython, req.packages))) == 0)
  }

  /** No fault escapes the git step. */
  predicate GitSafe(req: Request, env: Env) {
    !(req.options.createGit && env.git == GitProbeFault)
  }

  // ---------------------------------------------------------------------
  // What each step adds to the state
  // ---------------------------------------------------------------------

  /** A command `run` may launch: the venv command, or a command of the install step. */
  predicate LaunchedBy(req: Request, env: Env, c: seq<string>) {
    c == VenvCommand(req) || InstallCommand(req, env, c)
  }

  /**
   * `t` continues `s` as the early steps do: early events only, commands
   * `run` may launch only, and neither `success` nor the size touched.
   */
  predicate EarlyPart(req: Request, env: Env, s: State, t: State) {
    Extends(s, t) && NewEventsEarly(s, t) &&
    (forall k | |s.commands| <= k < |t.commands| :: LaunchedBy(req, env, t.commands[k])) &&
    t.success == s.success && t.projectSize == s.projectSize
  }

  lemma EarlyPartTrans(req: Request, env: Env, a: State, b: State, c: State)
    requires EarlyPart(req, env, a, b) && EarlyPart(req, env, b, c)
    ensures EarlyPart(req, env, a, c)
  {
    ExtendsTrans(a, b, c);
    forall i | |a.events| <= i < |c.events| ensures IsEarly(c.events[i]) {
      if i < |b.events| {
        assert c.events[i] == c.events[..|b.events|][i];
      }
    }
    forall k | |a.commands| <= k < |c.commands| ensures LaunchedBy(req, env, c.commands[k]) {
      if k < |b.commands| {
        assert c.commands[k] == c.commands[..|b.commands|][k];
      }
    }
  }

  lemma AppendsEarlyPart(req: Request, env: Env, s: State, t: State)
    requires Appends(s, t) && t.commands == s.commands
    ensures EarlyPart(req, env, s, t)
  {
  }

  /** Posting one early message. */
  lemma EmitAppends(s: State, m: Msg)
    requires !IsLateMsg(m)
    ensures Appends(s, Emit(s, m))
  {
    ApplyAppends(s, Trace([Post(m)], [], 0));
    assert Apply(s, Trace([Post(m)], [], 0)) == Emit(s, m);
  }

  /** Running a command `run` may launch. */
  lemma CommandPart(req: Request, env: Env, s: State, cmd: seq<string>)
    requires LaunchedBy(req, env, cmd)
    ensures var t := Apply(s, RunCommand(env, cmd, |s.commands|, s.polls).1);
      EarlyPart(req, env, s, t) && t.(events := s.events, commands := s.commands, polls := s.polls) == s
  {
    var r := RunCommand(env, cmd, |s.commands|, s.polls);
    RunShape(env, cmd, |s.commands|, s.polls);
    RelayedEarly(r.1.events);
    ApplyAppends(s, r.1);
  }

  /**
   * The layout loop posts early events only and changes nothing else; it
   * never returns early, and it goes on exactly when every remaining
   * directory (and `__init__.py`) can be created.
   */
  lemma {:induction false} LayoutShape(env: Env, i: nat, s: State)
    requires i <= |Layout|
    decreases |Layout| - i
    ensures var r := LayoutFrom(env, i, s);
      r.0 != Return && Appends(s, r.1) && r.1.commands == s.commands && r.1.polls == s.polls &&
      (r.0 == Next <==> forall j | i <= j < |Layout| :: DirOk(env, Layout[j]))
  {
    ApplyAppends(s, Trace([], [], 0));
    assert Apply(s, Trace([], [], 0)) == s;
    if i < |Layout| && env.mkdirOk(Layout[i]) {
      var s1 := Emit(s, CreatedDirectory(Layout[i]));
      EmitAppends(s, CreatedDirectory(Layout[i]));
      if !(HasInitFile(Layout[i]) && !env.initFileOk(Layout[i])) {
        LayoutShape(env, i + 1, s1);
        AppendsTrans(s, s1, LayoutFrom(env, i + 1, s1).1);
      }
    }
  }

  /** Cleanup posts at most one early message and leaves the logs and the verdict alone. */
  lemma CleanupShape(req: Request, env: Env, s: State)
    ensures var t := Cleanup(req, env, s);
      EarlyPart(req, env, s, t) && t.commands == s.commands && t.polls == s.polls && t.venvPath == s.venvPath
  {
    EmitAppends(s, CleanedUp);
    EmitAppends(s, CleanupFailed);
  }

  /**
   * Cleanup after a failed step that left the venv fields as they were in
   * `s`: the venv is removed exactly when cleanup applies and removal
   * succeeds; a failed removal is the last message.
   */
  lemma CleanupAfter(req: Request, env: Env, s: State, u: State)
    requires u.venvPath == s.venvPath && u.venvOnDisk == s.venvOnDisk && u.venvRemoved == s.venvRemoved
    ensures var t := Cleanup(req, env, u);
      var removes := CleanupApplies(req, s) && env.rmtreeOk;
      t.venvRemoved == (s.venvRemoved || removes) && t.venvOnDisk == (s.venvOnDisk && !removes) &&
      (CleanupApplies(req, s) && !env.rmtreeOk ==> t.events != [] && t.events[|t.events| - 1] == Post(CleanupFailed))
  {
  }

  /** A trace of early events and launchable commands. */
  lemma TracePart(req: Request, env: Env, s: State, t: Trace)
    requires AllEarly(t.events) && forall c | c in t.commands :: LaunchedBy(req, env, c)
    ensures EarlyPart(req, env, s, Apply(s, t))
  {
    ApplyAppends(s, t);
    var u := Apply(s, t);
    forall k | |s.commands| <= k < |u.commands| ensures LaunchedBy(req, env, u.commands[k]) {
      assert u.commands[k] == t.commands[k - |s.commands|];
    }
  }

  /**
   * `create_venv` posts early events only and launches the venv command
   * only; without cancellation it passes exactly when the probe passes and
   * the venv command exits with 0, and then the venv is on disk.
   */
  lemma CreateVenvShape(req: Request, env: Env, s: State)
    ensures var r := CreateVenv(req, env, s);
      EarlyPart(req, env, s, r.1) && r.1.venvPath == s.venvPath && r.1.venvRemoved == s.venvRemoved &&
      (r.0 == Next ==> r.1.venvOnDisk && |r.1.commands| == |s.commands| + 1) &&
      (env.cancel == Never ==>
        (r.0 == Next <==> env.probe == Writable && ExitCode(env.run(|s.commands|, VenvCommand(req))) == 0))
  {
    match env.probe
    case PermissionDenied =>
      EmitAppends(s, NoWritePermission(ProjectDir(req)));
    case ProbeFault =>
      AppendsEarlyPart(req, env, s, s);
    case Writable =>
      var s1 := Emit(s, CreatingVenv(VenvPath(req)));
      EmitAppends(s, CreatingVenv(VenvPath(req)));
      var t := RunCommand(env, VenvCommand(req), |s1.commands|, s1.polls);
      var s2 := Apply(s1, t.1);
      CommandPart(req, env, s1, VenvCommand(req));
      RunShape(env, VenvCommand(req), |s1.commands|, s1.polls);
      EarlyPartTrans(req, env, s, s1, s2);
      var m := if t.0 != 0 then VenvFailed else VenvCreated;
      EmitAppends(s2, m);
      EarlyPartTrans(req, env, s, s2, Emit(s2, m));
  }

  /**
   * Step 3: the venv path is recorded; a venv on disk is reused, otherwise
   * built. A failure ends `run` after cleanup, and only cleanup removes
   * the venv. Without cancellation the step passes exactly when the venv
   * was on disk or the probe passed and the venv command exited with 0.
   */
  lemma VenvStepShape(req: Request, env: Env, s: State)
    ensures var r := VenvStep(req, env, s);
      EarlyPart(req, env, s, r.1) && r.1.venvPath == Some(VenvPath(req)) &&
      (r.0 == Next ==>
        r.1.venvOnDisk && r.1.venvRemoved == s.venvRemoved &&
        |r.1.commands| == |s.commands| + (if s.venvOnDisk then 0 else 1)) &&
      (r.1.venvRemoved ==> s.venvRemoved || (r.0 == Return && req.options.cleanupOnFail && env.rmtreeOk)) &&
      (env.cancel == Never ==>
        (r.0 == Next <==> s.venvOnDisk || (env.probe == Writable && ExitCode(env.run(|s.commands|, VenvCommand(req))) == 0)))
  {
    var s1 := s.(venvPath := Some(VenvPath(req)));
    AppendsEarlyPart(req, env, s, s);
    assert EarlyPart(req, env, s, s1);
    if s1.venvOnDisk {
      EmitAppends(s1, VenvReused);
      EarlyPartTrans(req, env, s, s1, Emit(s1, VenvReused));
    } else {
      var c := CreateVenv(req, env, s1);
      CreateVenvShape(req, env, s1);
      EarlyPartTrans(req, env, s, s1, c.1);
      if c.0 == Return {
        CleanupShape(req, env, c.1);
        EarlyPartTrans(req, env, s, c.1, Cleanup(req, env, c.1));
      }
    }
  }

  /** The two install paths post early events and launch install commands only. */
  lemma InstallPart(req: Request, env: Env, s: State)
    requires req.packages != [] && (env.pipExists || env.pythonExists)
    ensures var t := if env.pipExists then InstallBatch(env, env.pipPath, req.packages, |s.commands|, s.polls).1
                     else RunCommand(env, PythonPipCommand(env.venvPython, req.packages), |s.commands|, s.polls).1;
      EarlyPart(req, env, s, Apply(s, t))
  {
    if env.pipExists {
      InstallBatchShape(env, env.pipPath, req.packages, |s.commands|, s.polls);
      TracePart(req, env, s, InstallBatch(env, env.pipPath, req.packages, |s.commands|, s.polls).1);
    } else {
      CommandPart(req, env, s, PythonPipCommand(env.venvPython, req.packages));
    }
  }

  /**
   * The installation once pip is located never raises; it posts early
   * events and launches install commands only; when it returns early it
   * has cleaned up, and otherwise the venv is untouched.
   */
  lemma InstallShape(req: Request, env: Env, s: State)
    requires env.pipExists || env.pythonExists
    ensures var r := Install(req, env, s);
      var removes := CleanupApplies(req, s) && env.rmtreeOk;
      EarlyPart(req, env, s, r.1) && r.1.venvPath == s.venvPath && r.0 != Raise &&
      (r.0 == Next ==> r.1.venvOnDisk == s.venvOnDisk && r.1.venvRemoved == s.venvRemoved) &&
      (r.0 == Return ==>
        r.1.venvRemoved == (s.venvRemoved || removes) && r.1.venvOnDisk == (s.venvOnDisk && !removes) &&
        (CleanupApplies(req, s) && !env.rmtreeOk ==> r.1.events[|r.1.events| - 1] == Post(CleanupFailed)))
  {
    var r := Install(req, env, s);
    if req.packages == [] {
      EmitAppends(s, NoPackagesToInstall);
    } else if env.pipExists {
      var s1 := Apply(s, InstallBatch(env, env.pipPath, req.packages, |s.commands|, s.polls).1);
      InstallPart(req, env, s);
      if r.0 == Return {
        FatalInstall(req, env, s, s1, s1);
      }
    } else {
      var s1 := Apply(s, RunCommand(env, PythonPipCommand(env.venvPython, req.packages), |s.commands|, s.polls).1);
      InstallPart(req, env, s);
      if r.0 == Return {
        FatalInstall(req, env, s, s1, Emit(s1, PackageInstallFailed));
      }
    }
  }

  /** A failed installation, with or without its failure line, followed by cleanup. */
  lemma FatalInstall(req: Request, env: Env, s: State, s1: State, u: State)
    requires EarlyPart(req, env, s, s1)
    requires s1.venvPath == s.venvPath && s1.venvOnDisk == s.venvOnDisk && s1.venvRemoved == s.venvRemoved
    requires u == s1 || u == Emit(s1, PackageInstallFailed)
    ensures var t := Cleanup(req, env, u);
      var removes := CleanupApplies(req, s) && env.rmtreeOk;
      EarlyPart(req, env, s, t) && t.venvPath == s.venvPath &&
      t.venvRemoved == (s.venvRemoved || removes) && t.venvOnDisk == (s.venvOnDisk && !removes) &&
      (CleanupApplies(req, s) && !env.rmtreeOk ==> t.events[|t.events| - 1] == Post(CleanupFailed))
  {
    EmitAppends(s1, PackageInstallFailed);
    AppendsEarlyPart(req, env, s1, s1);
    EarlyPartTrans(req, env, s, s1, u);
    CleanupShape(req, env, u);
    CleanupAfter(req, env, s, u);
    EarlyPartTrans(req, env, s, u, Cleanup(req, env, u));
  }

  /** Step 4: the same, with the missing-pip exit and the `python -m pip` notice in front. */
  lemma PipShape(req: Request, env: Env, s: State)
    ensures var r := PipAndInstall(req, env, s);
      var removes := CleanupApplies(req, s) && env.rmtreeOk;
      EarlyPart(req, env, s, r.1) && r.1.venvPath == s.venvPath && r.0 != Raise &&
      (r.0 == Next ==> r.1.venvOnDisk == s.venvOnDisk && r.1.venvRemoved == s.venvRemoved) &&
      (r.0 == Return ==>
        r.1.venvRemoved == (s.venvRemoved || removes) && r.1.venvOnDisk == (s.venvOnDisk && !removes) &&
        (CleanupApplies(req, s) && !env.rmtreeOk ==> r.1.events[|r.1.events| - 1] == Post(CleanupFailed)))
  {
    var r := PipAndInstall(req, env, s);
    if !env.pipExists && !env.pythonExists {
      var u := Emit(s, CannotLocatePip);
      EmitAppends(s, CannotLocatePip);
      CleanupShape(req, env, u);
      CleanupAfter(req, env, s, u);
      EarlyPartTrans(req, env, s, u, r.1);
    } else {
      var s1 := if env.pipExists then s else Emit(s, UsingPythonPip);
      EmitAppends(s, UsingPythonPip);
      AppendsEarlyPart(req, env, s, s);
      InstallShape(req, env, s1);
      EarlyPartTrans(req, env, s, s1, r.1);
    }
  }

  /** Without cancellation step 4 passes exactly when the installation gate does. */
  lemma PipVerdict(req: Request, env: Env, s: State)
    requires env.cancel == Never
    ensures PipAndInstall(req, env, s).0 == Next <==> InstallSucceeds(req, env, |s.commands|)
  {
    var s1 := if env.pipExists then s else Emit(s, UsingPythonPip);
    assert PipAndInstall(req, env, s).0 == Install(req, env, s1).0 || (!env.pipExists && !env.pythonExists);
    if env.pipExists {
      VerdictWithoutCancel(env, env.pipPath, req.packages, |s1.commands|, s1.polls);
    } else {
      RunShape(env, PythonPipCommand(env.venvPython, req.packages), |s1.commands|, s1.polls);
    }
  }

  /** The layout step: early events only, and it passes exactly when every directory can be created. */
  lemma LayoutPart(req: Request, env: Env, s: State)
    ensures var r := CreateDirectoryStructure(env, s);
      EarlyPart(req, env, s, r.1) && r.0 != Return && (r.0 == Next <==> LayoutOk(env)) &&
      r.1.commands == s.commands && r.1.venvPath == s.venvPath && r.1.venvOnDisk == s.venvOnDisk && r.1.venvRemoved == s.venvRemoved
  {
    LayoutShape(env, 0, s);
    AppendsEarlyPart(req, env, s, CreateDirectoryStructure(env, s).1);
  }

  /**
   * Steps 1 to 4 post early events only and launch the venv command and
   * install commands only; a failing folder ends them at once; the venv is
   * removed only by cleanup after a failure of the venv, pip or install
   * step.
   */
  lemma EarlyShape(req: Request, env: Env, s: State)
    ensures var r := EarlySteps(req, env, s);
      EarlyPart(req, env, s, r.1) &&
      (!env.folderOk ==> r == (Return, Emit(s, CannotCreateFolder))) &&
      (r.0 == Next ==> r.1.venvRemoved == s.venvRemoved) &&
      (r.1.venvRemoved ==>
        s.venvRemoved || (r.0 == Return && req.options.cleanupOnFail && env.rmtreeOk && env.folderOk && LayoutOk(env)))
  {
    var r := EarlySteps(req, env, s);
    if !env.folderOk {
      EmitAppends(s, CannotCreateFolder);
    } else {
      var s1 := Emit(s, ProjectFolder(ProjectDir(req)));
      EmitAppends(s, ProjectFolder(ProjectDir(req)));
      var (f2, s2) := CreateDirectoryStructure(env, s1);
      LayoutPart(req, env, s1);
      EarlyPartTrans(req, env, s, s1, s2);
      if f2 == Next {
        var (f3, s3) := VenvStep(req, env, s2);
        VenvStepShape(req, env, s2);
        EarlyPartTrans(req, env, s, s2, s3);
        if f3 == Next {
          PipShape(req, env, s3);
          EarlyPartTrans(req, env, s, s3, r.1);
        }
      }
    }
  }

  /**
   * Without cancellation, from a state that knows whether the venv exists,
   * steps 1 to 4 pass exactly when the folder, the layout, the venv and
   * the installation gates all pass.
   */
  lemma EarlyVerdict(req: Request, env: Env, s: State)
    requires env.cancel == Never && s.venvOnDisk == env.venvExists
    ensures EarlySteps(req, env, s).0 == Next <==>
      env.folderOk && LayoutOk(env) && VenvReady(req, env, |s.commands|) &&
      InstallSucceeds(req, env, InstallBase(env, |s.commands|))
  {
    if env.folderOk {
      var s1 := Emit(s, ProjectFolder(ProjectDir(req)));
      var (f2, s2) := CreateDirectoryStructure(env, s1);
      LayoutPart(req, env, s1);
      if f2 == Next {
        var (f3, s3) := VenvStep(req, env, s2);
        VenvStepShape(req, env, s2);
        if f3 == Next {
          PipVerdict(req, env, s3);
        }
      }
    }
  }

  /**
   * Without cancellation, a ready venv followed by a failed installation
   * gate ends steps 1 to 4 with cleanup: the venv, created or reused, is
   * removed exactly when the option asks for it and removal succeeds, and
   * a failed removal is the last message.
   */
  lemma EarlyCleanup(req: Request, env: Env, s: State)
    requires env.cancel == Never && env.folderOk && LayoutOk(env)
    requires VenvReady(req, env, |s.commands|) && !InstallSucceeds(req, env, InstallBase(env, |s.commands|))
    requires s.venvOnDisk == env.venvExists && !s.venvRemoved
    ensures var r := EarlySteps(req, env, s);
      var removes := req.options.cleanupOnFail && env.rmtreeOk;
      r.0 == Return && r.1.venvRemoved == removes && r.1.venvOnDisk == !removes &&
      (req.options.cleanupOnFail && !env.rmtreeOk ==>
        r.1.events != [] && r.1.events[|r.1.events| - 1] == Post(CleanupFailed))
  {
    var s1 := Emit(s, ProjectFolder(ProjectDir(req)));
    var (f2, s2) := CreateDirectoryStructure(env, s1);
    LayoutPart(req, env, s1);
    var (f3, s3) := VenvStep(req, env, s2);
    VenvStepShape(req, env, s2);
    assert f3 == Next && |s3.commands| == InstallBase(env, |s.commands|);
    PipVerdict(req, env, s3);
    PipShape(req, env, s3);
  }

  /** `t` is `s` with plain events posted and nothing else changed. */
  predicate PostsOnly(s: State, t: State) {
    t.(events := s.events) == s && |s.events| <= |t.events| && t.events[..|s.events|] == s.events &&
    NewEventsPlain(s, t)
  }

  lemma PostsOnlyEmit(s: State, m: Msg)
    ensures PostsOnly(s, Emit(s, m))
  {
    assert Emit(s, m).events[..|s.events|] == s.events;
  }

  lemma PostsOnlyTrans(a: State, b: State, c: State)
    requires PostsOnly(a, b) && PostsOnly(b, c)
    ensures PostsOnly(a, c)
  {
    assert c.events[..|a.events|] == c.events[..|b.events|][..|a.events|];
    forall i | |a.events| <= i < |c.events| ensures IsPlain(c.events[i]) {
      if i < |b.events| {
        assert c.events[i] == c.events[..|b.events|][i];
      }
    }
  }

  /** The git step only posts; it raises exactly on a fault in the version probe. */
  lemma GitShape(env: Env, s: State)
    ensures var r := CreateGitRepo(env, s);
      PostsOnly(s, r.1) && r.0 != Return && (r.0 == Raise <==> env.git == GitProbeFault)
  {
    PostsOnlyEmit(s, GitNotFound);
    PostsOnlyEmit(s, InitializingGit);
    var s1 := Emit(s, InitializingGit);
    PostsOnlyEmit(s1, GitCommandFailed);
    PostsOnlyEmit(s1, GitFailed);
    PostsOnlyEmit(s1, GitInitialized);
    PostsOnlyTrans(s, s1, Emit(s1, GitCommandFailed));
    PostsOnlyTrans(s, s1, Emit(s1, GitFailed));
    PostsOnlyTrans(s, s1, Emit(s1, GitInitialized));
    assert PostsOnly(s, s);
  }

  /** Steps 5 to 7: requirements, README and git only post. */
  lemma FilesShape(req: Request, env: Env, s: State)
    ensures var s1 := WriteRequirements(env, s);
      var s2 := if req.options.createReadme then CreateReadme(env, s1) else s1;
      var r := if req.options.createGit then CreateGitRepo(env, s2) else (Next, s2);
      PostsOnly(s, r.1) && r.0 != Return && (r.0 == Next <==> GitSafe(req, env))
  {
    var s1 := WriteRequirements(env, s);
    var s2 := if req.options.createReadme then CreateReadme(env, s1) else s1;
    PostsOnlyEmit(s, if env.requirementsOk then RequirementsSaved else RequirementsFailed);
    PostsOnlyEmit(s1, if env.readmeOk then ReadmeCreated else ReadmeFailed);
    assert PostsOnly(s1, s1);
    PostsOnlyTrans(s, s1, s2);
    GitShape(env, s2);
    assert PostsOnly(s2, s2);
    var r := if req.options.createGit then CreateGitRepo(env, s2) else (Next, s2);
    PostsOnlyTrans(s, s2, r.1);
  }

  /**
   * Steps 5 to 9 launch nothing and leave the venv alone. Only an escaping
   * git fault stops them; otherwise they mark the run successful, record
   * the size, and end with the success event and the summary after plain
   * events.
   */
  lemma LateShape(req: Request, env: Env, s: State)
    requires !s.success
    ensures var r := LateSteps(req, env, s);
      var m, n := |s.events|, |r.1.events|;
      r.1.commands == s.commands && r.1.polls == s.polls && r.1.venvPath == s.venvPath &&
      r.1.venvOnDisk == s.venvOnDisk && r.1.venvRemoved == s.venvRemoved &&
      r.0 != Return && (r.0 == Next <==> GitSafe(req, env)) && (r.1.success <==> r.0 == Next) &&
      m <= n && r.1.events[..m] == s.events &&
      (r.0 == Raise ==> forall k | m <= k < n :: IsPlain(r.1.events[k])) &&
      (r.0 == Next ==>
        r.1.projectSize == env.size && n >= m + 2 &&
        r.1.events[n - 2..] == [Done(true), SummaryOf(req, env.size)] &&
        forall k | m <= k < n - 2 :: IsPlain(r.1.events[k]))
  {
    var s1 := WriteRequirements(env, s);
    var s2 := if req.options.createReadme then CreateReadme(env, s1) else s1;
    var (f, s3) := if req.options.createGit then CreateGitRepo(env, s2) else (Next, s2);
    FilesShape(req, env, s);
    if f != Raise {
      var s4 := Emit(s3.(projectSize := env.size), ProjectSize(env.size));
      var t := EmitAll(s4.(success := true), [Done(true), SummaryOf(req, env.size)]);
      assert t.events == s3.events + [Post(ProjectSize(env.size)), Done(true), SummaryOf(req, env.size)];
      assert t.events[..|s3.events|] == s3.events;
      assert t.events[..|s.events|] == s3.events[..|s.events|];
      forall k | |s.events| <= k < |t.events| - 2 ensures IsPlain(t.events[k]) {
        if k < |s3.events| {
          assert t.events[k] == s3.events[k];
        }
      }
    }
  }

  /**
   * Steps 1 to 9 from a state that has not succeeded: the logs only grow
   * and every command is one `run` may launch; the run succeeds exactly
   * when the early steps pass and no git fault escapes, and then it ends
   * with the success event and the summary; when the early steps fail
   * nothing after them runs; only cleanup after a failed gate removes the
   * venv.
   */
  lemma StepsShape(req: Request, env: Env, s: State)
    requires !s.success
    ensures var r := Steps(req, env, s);
      var e := EarlySteps(req, env, s);
      var m, n := |s.events|, |r.1.events|;
      Extends(s, r.1) && (forall k | |s.commands| <= k < |r.1.commands| :: LaunchedBy(req, env, r.1.commands[k])) &&
      (r.0 == Next <==> e.0 == Next && GitSafe(req, env)) && (r.1.success <==> r.0 == Next) &&
      (e.0 != Next ==> r == e && NewEventsEarly(s, r.1)) &&
      (r.0 != Next ==> NewEventsPlain(s, r.1)) &&
      (r.0 == Next ==>
        r.1.projectSize == env.size && n >= m + 2 &&
        r.1.events[n - 2..] == [Done(true), SummaryOf(req, env.size)] &&
        forall k | m <= k < n - 2 :: IsPlain(r.1.events[k])) &&
      (r.1.venvRemoved ==>
        s.venvRemoved || (r.0 == Return && req.options.cleanupOnFail && env.rmtreeOk && env.folderOk && LayoutOk(env)))
  {
    var e := EarlySteps(req, env, s);
    EarlyShape(req, env, s);
    if e.0 == Next {
      LateShape(req, env, e.1);
      var r := LateSteps(req, env, e.1);
      assert Steps(req, env, s) == r;
      assert r.1.events[..|s.events|] == e.1.events[..|s.events|];
      forall k | |s.events| <= k < |r.1.events| && (r.0 == Raise || k < |r.1.events| - 2)
        ensures IsPlain(r.1.events[k])
      {
        if k < |e.1.events| {
          assert r.1.events[k] == e.1.events[k];
        }
      }
    }
  }

  /**
   * How the log of a finished run ends: the completion event last; before
   * it the success event and `summary` when the run succeeded, the failure
   * event otherwise, preceded by the two error lines of an escaped fault
   * when `raised`; every earlier event a plain message or progress.
   */
  predicate EndsAsReported(s: State, summary: Event, raised: bool) {
    var e, n := s.events, |s.events|;
    n >= 2 && e[n - 1] == ProgressComplete &&
    (s.success ==>
      n >= 3 && e[n - 3] == Done(true) && e[n - 2] == summary && forall k | 0 <= k < n - 3 :: IsPlain(e[k])) &&
    (!s.success ==> e[n - 2] == Done(false) && forall k | 0 <= k < n - 2 :: IsPlain(e[k])) &&
    (raised ==> n >= 4 && e[n - 4] == Post(UnexpectedError) && e[n - 3] == Post(Traceback))
  }

  /** The shape the handler and the `finally` block give any outcome of the steps. */
  lemma FinalizeShape(req: Request, env: Env, f: Flow, t: State)
    requires t.success <==> f == Next
    requires f == Next ==>
      |t.events| >= 2 && t.events[|t.events| - 2..] == [Done(true), SummaryOf(req, env.size)] &&
      forall k | 0 <= k < |t.events| - 2 :: IsPlain(t.events[k])
    requires f != Next ==> forall k | 0 <= k < |t.events| :: IsPlain(t.events[k])
    ensures Finalize(f, t).success == t.success
    ensures EndsAsReported(Finalize(f, t), SummaryOf(req, env.size), f == Raise)
  {
    if f == Next {
      FinalizeSucceeded(t, SummaryOf(req, env.size));
    } else {
      FinalizeFailed(f, t, SummaryOf(req, env.size));
    }
  }

  /** The `finally` block after a successful run adds the completion event only. */
  lemma FinalizeSucceeded(t: State, summary: Event)
    requires t.success && |t.events| >= 2 && t.events[|t.events| - 2..] == [Done(true), summary]
    requires forall k | 0 <= k < |t.events| - 2 :: IsPlain(t.events[k])
    ensures Finalize(Next, t).success && EndsAsReported(Finalize(Next, t), summary, false)
  {
    var e := Finalize(Next, t).events;
    assert e == t.events + [ProgressComplete];
    assert t.events[|t.events| - 2..][0] == t.events[|t.events| - 2];
    assert t.events[|t.events| - 2..][1] == t.events[|t.events| - 1];
  }

  /** The handler and the `finally` block after a failed run. */
  lemma FinalizeFailed(f: Flow, t: State, summary: Event)
    requires f != Next && !t.success && forall k | 0 <= k < |t.events| :: IsPlain(t.events[k])
    ensures !Finalize(f, t).success
    ensures EndsAsReported(Finalize(f, t), summary, f == Raise)
  {
    var errs := if f == Raise then [Post(UnexpectedError), Post(Traceback)] else [];
    var u := t.events + errs;
    var e := Finalize(f, t).events;
    assert e == u + [Done(false), ProgressComplete];
    forall k | 0 <= k < |u| ensures IsPlain(u[k]) {
      if k < |t.events| {
        assert u[k] == t.events[k];
      } else {
        assert u[k] == errs[k - |t.events|];
      }
    }
  }

  /**
   * The `finally` block: the completion event is always last; a successful
   * run ends with the success event and the summary of the request (the
   * package count is the list's length, the git flag the option, not the
   * outcome), a failed one with the failure event after the error lines of
   * an escaped fault; every earlier event is a plain message or progress.
   */
  lemma RunEnds(req: Request, env: Env)
    ensures EndsAsReported(Run(req, env), SummaryOf(req, env.size), Steps(req, env, Initial(env)).0 == Raise)
  {
    var r := Steps(req, env, Initial(env));
    StepsShape(req, env, Initial(env));
    FinalizeShape(req, env, r.0, r.1);
  }

  /**
   * The final events as the observer sees them: the success event exactly
   * in successful runs, the failure event exactly in the others, the
   * summary only second to last in a successful run, and the completion
   * event only last.
   */
  predicate DoneReported(s: State) {
    var e, n := s.events, |s.events|;
    (Done(true) in e <==> s.success) && (Done(false) in e <==> !s.success) &&
    (forall k | 0 <= k < n && e[k].Summary? :: s.success && k == n - 2) &&
    (forall k | 0 <= k < n - 1 :: e[k] != ProgressComplete)
  }

  /** A log of the shape `RunEnds` gives holds each final event where that shape puts it, and nowhere else. */
  lemma FinalEventsPlaced(s: State, summary: Event, raised: bool)
    requires summary.Summary? && EndsAsReported(s, summary, raised)
    ensures DoneReported(s)
  {
    var e, n := s.events, |s.events|;
    if s.success {
      assert e[n - 3] == Done(true);
      assert Done(false) !in e by {
        forall k | 0 <= k < n ensures e[k] != Done(false) {
          if k < n - 3 { assert IsPlain(e[k]); }
        }
      }
    } else {
      assert e[n - 2] == Done(false);
      assert Done(true) !in e by {
        forall k | 0 <= k < n ensures e[k] != Done(true) {
          if k < n - 2 { assert IsPlain(e[k]); }
        }
      }
    }
  }

  /** Hence every run reports its outcome to the observer as `DoneReported` says. */
  lemma DoneMatchesSuccess(req: Request, env: Env)
    ensures DoneReported(Run(req, env))
  {
    RunEnds(req, env);
    FinalEventsPlaced(Run(req, env), SummaryOf(req, env.size), Steps(req, env, Initial(env)).0 == Raise);
  }

  /**
   * Without cancellation the run succeeds exactly when every gate passes:
   * the folder, the layout, the venv, the installation, and no escaping
   * git fault.
   */
  lemma SuccessIffGates(req: Request, env: Env)
    requires env.cancel == Never
    ensures Run(req, env).success <==>
      env.folderOk && LayoutOk(env) && VenvReady(req, env, 0) && InstallSucceeds(req, env, InstallBase(env, 0)) &&
      GitSafe(req, env)
  {
    StepsShape(req, env, Initial(env));
    EarlyVerdict(req, env, Initial(env));
  }

  /** Steps 1 to 4 pass only past the folder, the layout, a usable venv and a located pip or python. */
  lemma EarlyNeeds(req: Request, env: Env, s: State)
    ensures EarlySteps(req, env, s).0 == Next ==>
      env.folderOk && LayoutOk(env) && (s.venvOnDisk || env.probe == Writable) &&
      (env.pipExists || env.pythonExists)
  {
    if env.folderOk {
      var s1 := Emit(s, ProjectFolder(ProjectDir(req)));
      var (f2, s2) := CreateDirectoryStructure(env, s1);
      LayoutPart(req, env, s1);
    }
  }

  /** Whatever the flag does, a successful run has passed every gate that does not depend on it. */
  lemma SuccessNeedsGates(req: Request, env: Env)
    ensures Run(req, env).success ==>
      env.folderOk && LayoutOk(env) && (env.venvExists || env.probe == Writable) &&
      (env.pipExists || env.pythonExists) && GitSafe(req, env)
  {
    StepsShape(req, env, Initial(env));
    EarlyNeeds(req, env, Initial(env));
  }

  /**
   * When a fatal gate fails, no later step runs: the run fails, no size is
   * recorded, and the log holds early events only before the failure and
   * completion events.
   */
  lemma FailedGateStopsRun(req: Request, env: Env)
    requires EarlySteps(req, env, Initial(env)).0 != Next
    ensures var s := Run(req, env);
      var e, n := s.events, |s.events|;
      !s.success && s.projectSize == 0 && n >= 2 && e[n - 2..] == [Done(false), ProgressComplete] &&
      forall k | 0 <= k < n - 2 :: IsEarly(e[k])
  {
    var r := Steps(req, env, Initial(env));
    StepsShape(req, env, Initial(env));
    EarlyShape(req, env, Initial(env));
    var u := if r.0 == Raise then EmitAll(r.1, [Post(UnexpectedError), Post(Traceback)]) else r.1;
    assert Run(req, env).events == u.events + [Done(false), ProgressComplete];
    forall k | 0 <= k < |u.events| ensures IsEarly(u.events[k]) {
      if k < |r.1.events| {
        assert u.events[k] == r.1.events[k];
      }
    }
  }

  /**
   * A project folder that cannot be created ends the run at once: one
   * error, the failure and completion events, no command, no read of the
   * flag, no venv path and no cleanup.
   */
  lemma FolderFailure(req: Request, env: Env)
    requires !env.folderOk
    ensures Run(req, env) ==
      State([Post(CannotCreateFolder), Done(false), ProgressComplete], [], 0, false, None, env.venvExists, false, 0)
  {
  }

  /** Only cleanup after a failed venv, pip or install gate removes the venv, and only as the option allows. */
  lemma CleanupOnlyAfterGate(req: Request, env: Env)
    ensures var s := Run(req, env);
      s.venvRemoved ==>
        !s.success && req.options.cleanupOnFail && env.rmtreeOk && env.folderOk && LayoutOk(env)
  {
    StepsShape(req, env, Initial(env));
  }

  /**
   * Without cancellation, a usable venv (created or reused) followed by a
   * failed installation gate fails the run and cleans up: the venv is
   * removed exactly when the option is set and removal succeeds, and a
   * failed removal is reported as a warning.
   */
  lemma InstallFailureCleansUp(req: Request, env: Env)
    requires env.cancel == Never && env.folderOk && LayoutOk(env)
    requires VenvReady(req, env, 0) && !InstallSucceeds(req, env, InstallBase(env, 0))
    ensures var s := Run(req, env);
      var removes := req.options.cleanupOnFail && env.rmtreeOk;
      !s.success && s.venvRemoved == removes && s.venvOnDisk == !removes &&
      (req.options.cleanupOnFail && !env.rmtreeOk ==> Post(CleanupFailed) in s.events)
  {
    var r := EarlySteps(req, env, Initial(env));
    EarlyCleanup(req, env, Initial(env));
    StepsShape(req, env, Initial(env));
    assert Run(req, env).events == r.1.events + [Done(false), ProgressComplete];
    if req.options.cleanupOnFail && !env.rmtreeOk {
      assert Run(req, env).events[|r.1.events| - 1] == Post(CleanupFailed);
    }
  }

  /**
   * Without cancellation, a venv command that fails after the probe passed
   * fails the run after that one command, and cleanup removes the partial
   * venv it left behind exactly when the option is set and removal
   * succeeds.
   */
  lemma VenvFailureCleansUp(req: Request, env: Env)
    requires env.cancel == Never && env.folderOk && LayoutOk(env) && !env.venvExists
    requires env.probe == Writable && ExitCode(env.run(0, VenvCommand(req))) != 0
    ensures var s := Run(req, env);
      var removes := req.options.cleanupOnFail && env.venvLeftOnFailure && env.rmtreeOk;
      !s.success && s.commands == [VenvCommand(req)] &&
      s.venvRemoved == removes && s.venvOnDisk == (env.venvLeftOnFailure && !removes)
  {
    var s0 := Initial(env);
    var s1 := Emit(s0, ProjectFolder(ProjectDir(req)));
    var (f2, s2) := CreateDirectoryStructure(env, s1);
    LayoutShape(env, 0, s1);
    var s3 := s2.(venvPath := Some(VenvPath(req)));
    var s4 := Emit(s3, CreatingVenv(VenvPath(req)));
    RunShape(env, VenvCommand(req), |s4.commands|, s4.polls);
    StepsShape(req, env, s0);
  }

  /**
   * Every command a run launches is the venv command or an install
   * command: with the venv's pip, one whose every package argument passed
   * the validator; without it, the single `python -m pip` command.
   */
  lemma CommandsOfRun(req: Request, env: Env)
    ensures forall c | c in Run(req, env).commands ::
      c == VenvCommand(req) ||
      (env.pipExists && SafeInstallCommand(env.pipPath, c)) ||
      (!env.pipExists && c == PythonPipCommand(env.venvPython, req.packages))
  {
    StepsShape(req, env, Initial(env));
  }

  /**
   * The `python -m pip` path installs the list as given, without the
   * validator: with a reused venv and no pip executable, the only command
   * is `python -m pip install` over every requested entry.
   */
  lemma PythonPathUnscreened(req: Request, env: Env)
    requires env.folderOk && LayoutOk(env) && env.venvExists
    requires !env.pipExists && env.pythonExists && req.packages != []
    ensures Run(req, env).commands == [PythonPipCommand(env.venvPython, req.packages)]
  {
    var s0 := Initial(env);
    var s1 := Emit(s0, ProjectFolder(ProjectDir(req)));
    var (f2, s2) := CreateDirectoryStructure(env, s1);
    LayoutShape(env, 0, s1);
    var r := EarlySteps(req, env, s0);
    assert r.1.commands == [PythonPipCommand(env.venvPython, req.packages)];
    if r.0 == Next {
      LateShape(req, env, r.1);
    }
  }

  /**
   * `run` reads the flag only inside the runner and the fallback loop:
   * with a reused venv, pip present and nothing to install, the run
   * succeeds without reading the flag, even one set from the start.
   */
  lemma FlagIgnoredBetweenSteps(req: Request, env: Env)
    requires env.folderOk && LayoutOk(env) && env.venvExists && env.pipExists
    requires req.packages == [] && GitSafe(req, env)
    ensures var s := Run(req, env); s.success && s.polls == 0 && s.commands == []
  {
    var s0 := Initial(env);
    var s1 := Emit(s0, ProjectFolder(ProjectDir(req)));
    LayoutShape(env, 0, s1);
    var r := EarlySteps(req, env, s0);
    assert r.0 == Next && r.1.polls == 0 && r.1.commands == [];
    LateShape(req, env, r.1);
  }
}
