/**
 * `ProjectWorker` as a class whose methods update its fields in place. The
 * fields `success`, `venvPath` and `projectSize` are the worker's own; the
 * message queue is the sequence `events`; `commands`, `polls`, `venvOnDisk`
 * and `venvRemoved` record what the worker did to the outside world. Every
 * method is proved to leave the state that its specification function in
 * `Installer` or `Pipeline` computes.
 */
module Worker {

  import opened Wrappers
  import opened PackageName
  import opened Events
  import opened Oracles
  import opened Installer
  import opened Pipeline

  // ---------------------------------------------------------------------
  // One step of each loop, and how each installer method ends, stated on
  // the states the methods below pass through.
  // ---------------------------------------------------------------------

  /** One relayed output line keeps the stream loop on course for `goal`. */
  lemma StreamStep(c: Cancel, lines: seq<string>, code: int, i: nat, before: State, s0: State, goal: (int, Trace))
    requires i < |lines| && !IsSet(c, before.polls)
    requires var t := StreamFrom(c, lines, code, i, before.polls);
      t.0 == goal.0 && Apply(before, t.1) == Apply(s0, goal.1)
    ensures var after := Emit(Apply(before, Poll), OutputLine(lines[i]));
      var t := StreamFrom(c, lines, code, i + 1, after.polls);
      t.0 == goal.0 && Apply(after, t.1) == Apply(s0, goal.1)
  {
    var r := StreamFrom(c, lines, code, i + 1, before.polls + 1);
    ApplyThen(before, Trace([Post(OutputLine(lines[i]))], [], 1), r.1);
    assert Apply(before, Trace([Post(OutputLine(lines[i]))], [], 1)) == Emit(Apply(before, Poll), OutputLine(lines[i]));
  }

  /** The states one attempt passes through add up to the attempt. */
  lemma AttemptSteps(env: Env, pip: string, pkgs: seq<string>, i: nat, s0: State)
    requires i < |pkgs|
    ensures var s1 := Emit(s0, InstallingOne(i + 1, |pkgs|, pkgs[i]));
      var t := RunCommand(env, InstallOneCommand(pip, pkgs[i]), |s1.commands|, s1.polls);
      var s2 := Apply(s1, t.1);
      var s3 := if t.0 == 0 then s2 else Emit(s2, FailedToInstall(pkgs[i]));
      var a := Attempt(env, pip, pkgs, i, |s0.commands|, s0.polls);
      a.0 == t.0 && Apply(s0, a.1) == EmitAll(s3, [Progress(i + 1, |pkgs|)])
  {
    var r := RunCommand(env, InstallOneCommand(pip, pkgs[i]), |s0.commands|, s0.polls);
    AttemptJoin(s0, InstallingOne(i + 1, |pkgs|, pkgs[i]), r.1, r.0 != 0, FailedToInstall(pkgs[i]), Progress(i + 1, |pkgs|));
  }

  /** The log line, a command's trace, an optional failure line and a progress event, posted in turn. */
  lemma AttemptJoin(s0: State, m: Msg, t: Trace, fail: bool, f: Msg, e: Event)
    ensures var s2 := Apply(Emit(s0, m), t);
      var s3 := if fail then Emit(s2, f) else s2;
      Apply(s0, Trace([Post(m)] + t.events + (if fail then [Post(f)] else []) + [e], t.commands, t.polls)) == EmitAll(s3, [e])
  {
    var tail := if fail then [Post(f)] else [];
    assert s0.events + ([Post(m)] + t.events + tail + [e]) == s0.events + [Post(m)] + t.events + tail + [e];
  }

  /** What the fallback loop still has to do, from package `idx` on, to reach `goal`. */
  predicate LoopOnCourse(env: Env, pip: string, pkgs: seq<string>, idx: nat, ok: nat, s: State, s0: State, goal: Pass)
    requires idx <= |pkgs|
  {
    var l := LoopFrom(env, pip, pkgs, idx, |s.commands|, s.polls);
    l.finished == goal.finished && ok + l.installed == goal.installed &&
    Apply(s, l.trace) == Apply(s0, goal.trace)
  }

  /** One attempt, started from `mid` after the flag read, keeps the fallback loop on course. */
  lemma LoopStep(env: Env, pip: string, pkgs: seq<string>, idx: nat, ok: nat, before: State, s0: State, goal: Pass,
                 mid: State, a: (int, Trace), after: State, next: nat, ok': nat)
    requires idx < |pkgs| && !IsSet(env.cancel, before.polls)
    requires LoopOnCourse(env, pip, pkgs, idx, ok, before, s0, goal)
    requires mid == Apply(before, Poll) && a == Attempt(env, pip, pkgs, idx, |mid.commands|, mid.polls) && after == Apply(mid, a.1)
    requires next == idx + 1 && ok' == if a.0 == 0 then ok + 1 else ok
    ensures LoopOnCourse(env, pip, pkgs, next, ok', after, s0, goal)
  {
    var l := LoopFrom(env, pip, pkgs, idx, |before.commands|, before.polls);
    assert after.polls == before.polls + 1 + a.1.polls;
    var r := LoopFrom(env, pip, pkgs, idx + 1, |after.commands|, after.polls);
    assert l.trace == Trace(a.1.events + r.trace.events, a.1.commands + r.trace.commands, 1 + a.1.polls + r.trace.polls);
    ApplyPollThen(before, a.1, r.trace);
  }

  /** A set flag ends the fallback loop where it stands. */
  lemma LoopStop(env: Env, pip: string, pkgs: seq<string>, idx: nat, ok: nat, before: State, s0: State, goal: Pass)
    requires idx < |pkgs| && IsSet(env.cancel, before.polls)
    requires LoopOnCourse(env, pip, pkgs, idx, ok, before, s0, goal)
    ensures !goal.finished && goal.installed == ok && Apply(s0, goal.trace) == Apply(before, Poll)
  {
  }

  /** A loop that went through the whole list has reached `goal`. */
  lemma LoopEnd(env: Env, pip: string, pkgs: seq<string>, ok: nat, s: State, s0: State, goal: Pass)
    requires LoopOnCourse(env, pip, pkgs, |pkgs|, ok, s, s0, goal)
    ensures goal.finished && goal.installed == ok && Apply(s0, goal.trace) == s
  {
    assert s == Apply(s, Trace([], [], 0));
  }

  /** One screened entry, with verdict `ok` and message `msg`: kept if valid, otherwise one more skip warning. */
  lemma ScreenStep(pkgs: seq<string>, i: nat, s: State, ok: bool, msg: string,
                   valid: seq<string>, before: State, after: State)
    requires i < |pkgs| && (ok, msg) == ValidatePackageName(pkgs[i])
    requires valid == ValidOnly(pkgs[..i]) && before == EmitAll(s, SkipWarnings(pkgs[..i]))
    requires after == (if ok then before else Emit(before, SkippingInvalid(pkgs[i], msg)))
    ensures (if ok then valid + [pkgs[i]] else valid) == ValidOnly(pkgs[..i + 1])
    ensures after == EmitAll(s, SkipWarnings(pkgs[..i + 1]))
  {
    assert pkgs[..i + 1][..i] == pkgs[..i];
    SkipStep(pkgs[..i + 1], s, ok, msg);
  }

  /** The skip warnings of a list end with the warning, if any, of its last entry. */
  lemma SkipStep(pkgs: seq<string>, s: State, ok: bool, msg: string)
    requires pkgs != [] && (ok, msg) == ValidatePackageName(pkgs[|pkgs| - 1])
    ensures var w := EmitAll(s, SkipWarnings(pkgs[..|pkgs| - 1]));
      EmitAll(s, SkipWarnings(pkgs)) == (if ok then w else Emit(w, SkippingInvalid(pkgs[|pkgs| - 1], msg)))
  {
    SkipSnoc(pkgs);
    EmitAllStep(s, SkipWarnings(pkgs[..|pkgs| - 1]), ok, SkippingInvalid(pkgs[|pkgs| - 1], msg));
  }

  lemma SkipSnoc(pkgs: seq<string>)
    requires pkgs != []
    ensures var last := pkgs[|pkgs| - 1];
      var v := ValidatePackageName(last);
      SkipWarnings(pkgs) == SkipWarnings(pkgs[..|pkgs| - 1]) + (if v.0 then [] else [Post(SkippingInvalid(last, v.1))])
  {
  }

  /** Appending nothing, or one message, to a log. */
  lemma EmitAllStep(s: State, a: seq<Event>, skip: bool, m: Msg)
    ensures EmitAll(s, a + (if skip then [] else [Post(m)])) == (if skip then EmitAll(s, a) else Emit(EmitAll(s, a), m))
  {
    if skip {
      assert a + [] == a;
    } else {
      assert s.events + (a + [Post(m)]) == s.events + a + [Post(m)];
    }
  }

  /** The log of `install_packages_batch` after screening a non-empty list. */
  function Screened(pkgs: seq<string>, s0: State): State {
    EmitAll(Emit(s0, InstallingBatch(|pkgs|)), SkipWarnings(pkgs))
  }

  lemma ScreenedEvents(pkgs: seq<string>, s0: State)
    ensures Screened(pkgs, s0) == Apply(s0, Trace(Screen(pkgs), [], 0))
  {
    assert s0.events + [Post(InstallingBatch(|pkgs|))] + SkipWarnings(pkgs) == s0.events + Screen(pkgs);
  }

  /** With no valid entry, `install_packages_batch` ends after screening. */
  lemma BatchEndNothingValid(env: Env, pip: string, pkgs: seq<string>, s0: State)
    requires pkgs != [] && ValidOnly(pkgs) == []
    ensures var r := InstallBatch(env, pip, pkgs, |s0.commands|, s0.polls);
      r.0 && Apply(s0, r.1) == Emit(Screened(pkgs, s0), NoValidPackages)
  {
    ScreenedEvents(pkgs, s0);
    assert s0.events + (Screen(pkgs) + [Post(NoValidPackages)]) == s0.events + Screen(pkgs) + [Post(NoValidPackages)];
  }

  /** Otherwise the batch command and its fallback follow the screening. */
  lemma BatchAfterScreening(env: Env, pip: string, pkgs: seq<string>, s0: State)
    requires ValidOnly(pkgs) != []
    ensures var r := InstallBatch(env, pip, pkgs, |s0.commands|, s0.polls);
      var t := BatchThenFallback(env, pip, ValidOnly(pkgs), |s0.commands|, s0.polls);
      r.0 == t.0 && Apply(s0, r.1) == Apply(Screened(pkgs, s0), t.1)
  {
    var t := BatchThenFallback(env, pip, ValidOnly(pkgs), |s0.commands|, s0.polls).1;
    ApplyScreened(pkgs, s0, t);
  }

  /** A trace that starts with the screening messages, applied after the screening. */
  lemma ApplyScreened(pkgs: seq<string>, s0: State, t: Trace)
    ensures Apply(s0, Trace(Screen(pkgs) + t.events, t.commands, t.polls)) == Apply(Screened(pkgs, s0), t)
  {
    ScreenedEvents(pkgs, s0);
    assert s0.events + (Screen(pkgs) + t.events) == s0.events + Screen(pkgs) + t.events;
  }

  /** A batch command that exits with 0 is followed by one log line. */
  lemma BatchSucceededStep(env: Env, pip: string, valid: seq<string>, s: State)
    ensures var t := BatchThenFallback(env, pip, valid, |s.commands|, s.polls);
      var b := RunCommand(env, BatchCommand(pip, valid), |s.commands|, s.polls);
      b.0 == 0 ==> t.0 && Apply(s, t.1) == Emit(Apply(s, b.1), BatchSucceeded)
  {
    var b := RunCommand(env, BatchCommand(pip, valid), |s.commands|, s.polls).1;
    ApplyThenMessage(s, b, BatchSucceeded, Trace([], [], 0));
    assert b.events + [Post(BatchSucceeded)] + [] == b.events + [Post(BatchSucceeded)];
    assert b.commands + [] == b.commands;
  }

  /** A failing batch command is followed by a warning and the fallback. */
  lemma BatchFailedStep(env: Env, pip: string, valid: seq<string>, s: State)
    ensures var t := BatchThenFallback(env, pip, valid, |s.commands|, s.polls);
      var b := RunCommand(env, BatchCommand(pip, valid), |s.commands|, s.polls);
      var s4 := Emit(Apply(s, b.1), BatchFailed);
      var f := InstallIndividual(env, pip, valid, |s4.commands|, s4.polls);
      b.0 != 0 ==> t.0 == f.0 && Apply(s, t.1) == Apply(s4, f.1)
  {
    var b := RunCommand(env, BatchCommand(pip, valid), |s.commands|, s.polls).1;
    var s4 := Emit(Apply(s, b), BatchFailed);
    ApplyThenMessage(s, b, BatchFailed, InstallIndividual(env, pip, valid, |s4.commands|, s4.polls).1);
  }

  /** Activity `a`, one message, then activity `b`, applied in one go or one after the other. */
  lemma ApplyThenMessage(s: State, a: Trace, m: Msg, b: Trace)
    ensures Apply(s, Trace(a.events + [Post(m)] + b.events, a.commands + b.commands, a.polls + b.polls)) ==
            Apply(Emit(Apply(s, a), m), b)
  {
    assert s.events + (a.events + [Post(m)] + b.events) == s.events + a.events + [Post(m)] + b.events;
    assert s.commands + (a.commands + b.commands) == s.commands + a.commands + b.commands;
  }

  class ProjectWorker {
    const req: Request
    const env: Env

    var events: seq<Event>           // everything put on the message queue
    var commands: seq<seq<string>>   // every command handed to the process launcher
    var polls: nat                   // how often the cancellation flag has been read
    var success: bool
    var venvPath: Option<string>
    var venvOnDisk: bool             // the venv directory exists
    var venvRemoved: bool            // cleanup removed the venv
    var projectSize: nat

    function Abs(): State
      reads this
    {
      State(events, commands, polls, success, venvPath, venvOnDisk, venvRemoved, projectSize)
    }

    constructor (req: Request, env: Env)
      ensures this.req == req && this.env == env
      ensures Abs() == Initial(env)
    {
      this.req := req;
      this.env := env;
      events := [];
      commands := [];
      polls := 0;
      success := false;
      venvPath := None;
      venvOnDisk := env.venvExists;
      venvRemoved := false;
      projectSize := 0;
    }

    /** `post`: one message onto the queue. */
    method PostMessage(m: Msg)
      modifies this
      ensures Abs() == Emit(old(Abs()), m)
    {
      events := events + [Post(m)];
    }

    /** `stop_event.is_set()`: one read of the cancellation flag. */
    method IsCancelled() returns (b: bool)
      modifies this
      ensures b == IsSet(env.cancel, old(polls))
      ensures Abs() == Apply(old(Abs()), Poll)
    {
      b := IsSet(env.cancel, polls);
      polls := polls + 1;
    }

    /**
     * `run_command_stream`: launch, then read the flag before each output
     * line and once more before the end of the output.
     */
    method RunCommandStream(cmd: seq<string>) returns (rc: int)
      modifies this
      ensures var r := RunCommand(env, cmd, |old(commands)|, old(polls));
        rc == r.0 && Abs() == Apply(old(Abs()), r.1)
    {
      var proc := env.run(|commands|, cmd);
      commands := commands + [cmd];
      match proc {
        case LaunchFault =>
          PostMessage(LaunchFailed(cmd));
          return 1;
        case Exited(lines, code) =>
          ghost var s1 := Abs();
          ghost var goal := StreamFrom(env.cancel, lines, code, 0, polls);
          var i := 0;
          while true
            invariant 0 <= i <= |lines|
            invariant var t := StreamFrom(env.cancel, lines, code, i, polls);
              t.0 == goal.0 && Apply(Abs(), t.1) == Apply(s1, goal.1)
            decreases |lines| - i
          {
            ghost var before := Abs();
            var stop := IsCancelled();
            if stop {
              PostMessage(Cancelled);
              return 1;
            }
            if i == |lines| {
              break;
            }
            PostMessage(OutputLine(lines[i]));
            StreamStep(env.cancel, lines, code, i, before, s1, goal);
            i := i + 1;
          }
          rc := code;
      }
    }

    /** One pass of the fallback loop: log line, command, failure line, progress. */
    method InstallOne(pip: string, packages: seq<string>, idx: nat) returns (rc: int)
      requires idx < |packages|
      modifies this
      ensures var r := Attempt(env, pip, packages, idx, |old(commands)|, old(polls));
        rc == r.0 && Abs() == Apply(old(Abs()), r.1)
    {
      AttemptSteps(env, pip, packages, idx, Abs());
      PostMessage(InstallingOne(idx + 1, |packages|, packages[idx]));
      rc := RunCommandStream(InstallOneCommand(pip, packages[idx]));
      if rc != 0 {
        PostMessage(FailedToInstall(packages[idx]));
      }
      events := events + [Progress(idx + 1, |packages|)];
    }

    /**
     * The loop of `install_packages_individual`: the flag is read before
     * each attempt, and a set flag ends the loop (`finished` is false, and
     * the caller returns False at once).
     */
    method AttemptEach(pip: string, packages: seq<string>) returns (finished: bool, successCount: nat)
      modifies this
      ensures var l := LoopFrom(env, pip, packages, 0, |old(commands)|, old(polls));
        finished == l.finished && successCount == l.installed && Abs() == Apply(old(Abs()), l.trace)
    {
      ghost var s0 := Abs();
      ghost var goal := LoopFrom(env, pip, packages, 0, |commands|, polls);
      successCount := 0;
      var idx := 0;
      while idx < |packages|
        invariant 0 <= idx <= |packages|
        invariant LoopOnCourse(env, pip, packages, idx, successCount, Abs(), s0, goal)
      {
        ghost var before := Abs();
        var stop := IsCancelled();
        if stop {
          LoopStop(env, pip, packages, idx, successCount, before, s0, goal);
          return false, successCount;
        }
        ghost var mid, ok := Abs(), successCount;
        ghost var a := Attempt(env, pip, packages, idx, |mid.commands|, mid.polls);
        var rc := InstallOne(pip, packages, idx);
        if rc == 0 {
          successCount := successCount + 1;
        }
        idx := idx + 1;
        LoopStep(env, pip, packages, idx - 1, ok, before, s0, goal, mid, a, Abs(), idx, successCount);
      }
      LoopEnd(env, pip, packages, successCount, Abs(), s0, goal);
      finished := true;
    }

    /** `install_packages_individual`: one attempt per package, then the closing verdict. */
    method InstallPackagesIndividual(pip: string, packages: seq<string>) returns (ok: bool)
      modifies this
      ensures var r := InstallIndividual(env, pip, packages, |old(commands)|, old(polls));
        ok == r.0 && Abs() == Apply(old(Abs()), r.1)
    {
      ghost var s0 := Abs();
      var finished, successCount := AttemptEach(pip, packages);
      if !finished {
        return false;
      }
      ghost var l := LoopFrom(env, pip, packages, 0, |s0.commands|, s0.polls);
      assert s0.events + (l.trace.events + [Post(AggregateMessage(successCount, |packages|))]) ==
        s0.events + l.trace.events + [Post(AggregateMessage(successCount, |packages|))];
      ok := Report(successCount, |packages|);
    }

    /** The closing verdict of `install_packages_individual`. */
    method Report(successCount: nat, total: nat) returns (ok: bool)
      modifies this
      ensures ok <==> successCount == total || successCount > 0
      ensures Abs() == Emit(old(Abs()), AggregateMessage(successCount, total))
    {
      if successCount == total {
        PostMessage(AllInstalled);
        ok := true;
      } else if successCount > 0 {
        PostMessage(InstalledSome(successCount, total));
        ok := true;
      } else {
        PostMessage(NoneInstalled);
        ok := false;
      }
    }

    /**
     * The validation loop of `install_packages_batch`: keep the entries the
     * validator accepts, warn about each other one.
     */
    method ScreenPackages(packages: seq<string>) returns (valid: seq<string>)
      modifies this
      ensures valid == ValidOnly(packages)
      ensures Abs() == EmitAll(old(Abs()), SkipWarnings(packages))
    {
      ghost var s := Abs();
      valid := [];
      var i := 0;
      while i < |packages|
        invariant 0 <= i <= |packages|
        invariant valid == ValidOnly(packages[..i])
        invariant Abs() == EmitAll(s, SkipWarnings(packages[..i]))
      {
        ghost var before, screened := Abs(), valid;
        var pkg := packages[i];
        var (isValid, msg) := ValidatePackageName(pkg);
        if isValid {
          valid := valid + [pkg];
        } else {
          PostMessage(SkippingInvalid(pkg, msg));
        }
        ScreenStep(packages, i, s, isValid, msg, screened, before, Abs());
        i := i + 1;
      }
      assert packages[..i] == packages;
    }

    /** `install_packages_batch`: screen the list, one batch command, then the fallback. */
    method InstallPackagesBatch(pip: string) returns (ok: bool)
      modifies this
      ensures var r := InstallBatch(env, pip, req.packages, |old(commands)|, old(polls));
        ok == r.0 && Abs() == Apply(old(Abs()), r.1)
    {
      var packages := req.packages;
      if packages == [] {
        return true;
      }
      ghost var s0 := Abs();
      PostMessage(InstallingBatch(|packages|));
      var valid := ScreenPackages(packages);
      if valid == [] {
        BatchEndNothingValid(env, pip, packages, s0);
        PostMessage(NoValidPackages);
        return true;
      }
      BatchAfterScreening(env, pip, packages, s0);
      BatchSucceededStep(env, pip, valid, Abs());
      BatchFailedStep(env, pip, valid, Abs());
      var rc := RunCommandStream(BatchCommand(pip, valid));
      if rc == 0 {
        PostMessage(BatchSucceeded);
        return true;
      }
      PostMessage(BatchFailed);
      ok := InstallPackagesIndividual(pip, valid);
    }

    /** `_cleanup_partial`. */
    method CleanupPartial()
      modifies this
      ensures Abs() == Cleanup(req, env, old(Abs()))
    {
      if req.options.cleanupOnFail && venvPath.Some? && venvOnDisk {
        if env.rmtreeOk {
          venvOnDisk := false;
          venvRemoved := true;
          PostMessage(CleanedUp);
        } else {
          PostMessage(CleanupFailed);
        }
      }
    }

    /** `create_directory_structure`: a failing `mkdir` or `touch` raises. */
    method CreateDirectoryStructure() returns (f: Flow)
      modifies this
      ensures (f, Abs()) == Pipeline.CreateDirectoryStructure(env, old(Abs()))
    {
      var i := 0;
      while i < |Layout|
        invariant 0 <= i <= |Layout|
        invariant LayoutFrom(env, i, Abs()) == LayoutFrom(env, 0, old(Abs()))
      {
        var d := Layout[i];
        if !env.mkdirOk(d) {
          return Raise;
        }
        PostMessage(CreatedDirectory(d));
        if HasInitFile(d) && !env.initFileOk(d) {
          return Raise;
        }
        i := i + 1;
      }
      return Next;
    }

    /** `create_venv`: Next for True, Return for False, Raise for an escaping fault. */
    method CreateVenv() returns (f: Flow)
      modifies this
      ensures (f, Abs()) == Pipeline.CreateVenv(req, env, old(Abs()))
    {
      match env.probe {
        case PermissionDenied =>
          PostMessage(NoWritePermission(ProjectDir(req)));
          return Return;
        case ProbeFault =>
          return Raise;
        case Writable =>
      }
      PostMessage(CreatingVenv(VenvPath(req)));
      var rc := RunCommandStream(VenvCommand(req));
      if rc != 0 {
        PostMessage(VenvFailed);
        venvOnDisk := env.venvLeftOnFailure;
        return Return;
      }
      PostMessage(VenvCreated);
      venvOnDisk := true;
      return Next;
    }

    /** Step 3 of `run`. */
    method VenvStep() returns (f: Flow)
      modifies this
      ensures (f, Abs()) == Pipeline.VenvStep(req, env, old(Abs()))
    {
      venvPath := Some(VenvPath(req));
      if venvOnDisk {
        PostMessage(VenvReused);
        return Next;
      }
      f := CreateVenv();
      if f == Return {
        CleanupPartial();
      }
    }

    /** Step 4 of `run`: locate pip, then install. */
    method PipAndInstall() returns (f: Flow)
      modifies this
      ensures (f, Abs()) == Pipeline.PipAndInstall(req, env, old(Abs()))
    {
      var usePythonForPip := false;
      if !env.pipExists {
        if env.pythonExists {
          PostMessage(UsingPythonPip);
          usePythonForPip := true;
        } else {
          PostMessage(CannotLocatePip);
          CleanupPartial();
          return Return;
        }
      }
      if req.packages != [] {
        if usePythonForPip {
          var rc := RunCommandStream(PythonPipCommand(env.venvPython, req.packages));
          if rc != 0 {
            PostMessage(PackageInstallFailed);
            CleanupPartial();
            return Return;
          }
        } else {
          var ok := InstallPackagesBatch(env.pipPath);
          if !ok {
            CleanupPartial();
            return Return;
          }
        }
      } else {
        PostMessage(NoPackagesToInstall);
      }
      return Next;
    }

    /** Steps 1 to 4 of `run`. */
    method EarlySteps() returns (f: Flow)
      modifies this
      ensures (f, Abs()) == Pipeline.EarlySteps(req, env, old(Abs()))
    {
      if !env.folderOk {
        PostMessage(CannotCreateFolder);
        return Return;
      }
      PostMessage(ProjectFolder(ProjectDir(req)));
      f := CreateDirectoryStructure();
      if f != Next {
        return;
      }
      f := VenvStep();
      if f != Next {
        return;
      }
      f := PipAndInstall();
    }

    /** `write_requirements`. */
    method WriteRequirements() returns (ok: bool)
      modifies this
      ensures ok == env.requirementsOk && Abs() == Pipeline.WriteRequirements(env, old(Abs()))
    {
      ok := env.requirementsOk;
      PostMessage(if ok then RequirementsSaved else RequirementsFailed);
    }

    /** `create_readme`. */
    method CreateReadme() returns (ok: bool)
      modifies this
      ensures ok == env.readmeOk && Abs() == Pipeline.CreateReadme(env, old(Abs()))
    {
      ok := env.readmeOk;
      PostMessage(if ok then ReadmeCreated else ReadmeFailed);
    }

    /** `create_git_repo`. */
    method CreateGitRepo() returns (f: Flow)
      modifies this
      ensures (f, Abs()) == Pipeline.CreateGitRepo(env, old(Abs()))
    {
      match env.git
      case GitMissing =>
        PostMessage(GitNotFound);
        return Next;
      case GitProbeFault =>
        return Raise;
      case GitCommandError =>
        PostMessage(InitializingGit);
        PostMessage(GitCommandFailed);
        return Next;
      case GitOtherError =>
        PostMessage(InitializingGit);
        PostMessage(GitFailed);
        return Next;
      case GitDone =>
        PostMessage(InitializingGit);
        PostMessage(GitInitialized);
        return Next;
    }

    /** Steps 5 to 9 of `run`. */
    method LateSteps() returns (f: Flow)
      modifies this
      ensures (f, Abs()) == Pipeline.LateSteps(req, env, old(Abs()))
    {
      var _ := WriteRequirements();
      if req.options.createReadme {
        var _ := CreateReadme();
      }
      if req.options.createGit {
        f := CreateGitRepo();
        if f == Raise {
          return;
        }
      }
      projectSize := env.size;
      PostMessage(ProjectSize(projectSize));
      success := true;
      events := events + [Done(true), SummaryOf(req, projectSize)];
      return Next;
    }

    /** The body of the `try` block in `run`. */
    method Steps() returns (f: Flow)
      modifies this
      ensures (f, Abs()) == Pipeline.Steps(req, env, old(Abs()))
    {
      f := EarlySteps();
      if f == Next {
        f := LateSteps();
      }
    }

    /** The catch-all handler and the `finally` block of `run`. */
    method Finish(f: Flow)
      modifies this
      ensures Abs() == Finalize(f, old(Abs()))
    {
      if f == Raise {
        PostMessage(UnexpectedError);
        PostMessage(Traceback);
      }
      if !success {
        events := events + [Done(false)];
      }
      events := events + [ProgressComplete];
    }

    /** `ProjectWorker.run`. */
    method Run()
      modifies this
      ensures Abs() == RunFrom(req, env, old(Abs()))
    {
      var f := Steps();
      Finish(f);
    }
  }
}
