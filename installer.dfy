/**
 * The process runner and the installer strategy: one batch attempt over
 * the validated packages, then one attempt per package, with the
 * cancellation flag read before each. Each function takes the number of
 * flag reads made so far and returns what it adds to the worker's state.
 */
module Installer {

  import opened PackageName
  import opened Events
  import opened Oracles

  // ---------------------------------------------------------------------
  // Process runner (`run_command_stream`)
  // ---------------------------------------------------------------------

  /** The code the process itself reports; a launch fault counts as 1. */
  function ExitCode(p: Proc): int {
    match p
    case LaunchFault => 1
    case Exited(_, code) => code
  }

  /** What the runner posts: messages of the early kind only. */
  predicate Relayed(es: seq<Event>) {
    forall k | 0 <= k < |es| :: es[k].Post? && !IsLateMsg(es[k].msg)
  }

  /** The output lines `lines`, one message each, in order. */
  function OutputLines(lines: seq<string>): (r: seq<Event>)
    ensures |r| == |lines| && Relayed(r)
    ensures forall k | 0 <= k < |lines| :: r[k] == Post(OutputLine(lines[k]))
  {
    seq(|lines|, k requires 0 <= k < |lines| => Post(OutputLine(lines[k])))
  }

  /**
   * The streaming loop of `run_command_stream` from output line `i` on,
   * over a process that prints `lines` and exits with `code`, after `p`
   * flag reads: the flag is read before each line and once more before the
   * end of the output. A set flag kills the process: the runner posts a
   * warning and returns 1.
   */
  function StreamFrom(c: Cancel, lines: seq<string>, code: int, i: nat, p: nat): (r: (int, Trace))
    requires i <= |lines|
    decreases |lines| - i
    ensures r.1.commands == []
  {
    if IsSet(c, p) then (1, Trace([Post(Cancelled)], [], 1))
    else if i == |lines| then (code, Poll)
    else
      var r := StreamFrom(c, lines, code, i + 1, p + 1);
      (r.0, Trace([Post(OutputLine(lines[i]))] + r.1.events, [], r.1.polls + 1))
  }

  /**
   * `run_command_stream`, as the worker's launch number `n`: the command is
   * handed to the launcher; a launch fault is reported and gives 1;
   * otherwise the output is streamed.
   */
  function RunCommand(env: Env, cmd: seq<string>, n: nat, p: nat): (r: (int, Trace))
    ensures r.1.commands == [cmd]
  {
    match env.run(n, cmd)
    case LaunchFault => (1, Trace([Post(LaunchFailed(cmd))], [cmd], 0))
    case Exited(lines, code) =>
      var r := StreamFrom(env.cancel, lines, code, 0, p);
      (r.0, Trace(r.1.events, [cmd], r.1.polls))
  }

  /**
   * How many flag reads, from read `p` on, find the flag still clear
   * before the first read that finds it set (0 when it is never set).
   */
  function ClearReads(c: Cancel, p: nat): nat {
    match c
    case Never => 0
    case AfterPolls(k) => if k > p then k - p else 0
  }

  /**
   * The runner's flag reads are the reads from `p` to `p + |lines| - i`.
   * When one of them finds the flag set (the flag stays set, so exactly
   * when the last one does), the runner has relayed one line per earlier
   * read, posts the cancellation warning last and returns 1; otherwise it
   * relays every remaining line and returns the process's code.
   */
  lemma {:induction false} StreamExact(c: Cancel, lines: seq<string>, code: int, i: nat, p: nat)
    requires i <= |lines|
    decreases |lines| - i
    ensures var r := StreamFrom(c, lines, code, i, p);
      var m, k := |lines| - i, ClearReads(c, p);
      if IsSet(c, p + m) then
        k <= m && r == (1, Trace(OutputLines(lines[i..i + k]) + [Post(Cancelled)], [], k + 1))
      else
        r == (code, Trace(OutputLines(lines[i..]), [], m + 1))
  {
    if IsSet(c, p) {
      assert ClearReads(c, p) == 0;
      assert OutputLines(lines[i..i]) + [Post(Cancelled)] == [Post(Cancelled)];
    } else if i == |lines| {
      assert OutputLines(lines[i..]) == [];
    } else {
      StreamExact(c, lines, code, i + 1, p + 1);
      var k := ClearReads(c, p);
      if IsSet(c, p + (|lines| - i)) {
        OutputLinesCons(lines, i, i + k);
        assert ([Post(OutputLine(lines[i]))] + OutputLines(lines[i + 1..i + k])) + [Post(Cancelled)] ==
          [Post(OutputLine(lines[i]))] + (OutputLines(lines[i + 1..i + k]) + [Post(Cancelled)]);
      } else {
        OutputLinesCons(lines, i, |lines|);
        assert lines[i..|lines|] == lines[i..] && lines[i + 1..|lines|] == lines[i + 1..];
      }
    }
  }

  lemma OutputLinesCons(lines: seq<string>, i: nat, j: nat)
    requires i < j <= |lines|
    ensures OutputLines(lines[i..j]) == [Post(OutputLine(lines[i]))] + OutputLines(lines[i + 1..j])
  {
    assert lines[i..j][1..] == lines[i + 1..j];
  }

  /**
   * Hence the runner relays output lines and its own messages only; it
   * returns the exit code of the process, or 1 after a cancellation
   * warning that is its last message; without cancellation always the
   * process's code.
   */
  lemma {:induction false} StreamShape(c: Cancel, lines: seq<string>, code: int, i: nat, p: nat)
    requires i <= |lines|
    decreases |lines| - i
    ensures var r := StreamFrom(c, lines, code, i, p);
      Relayed(r.1.events) &&
      (r.0 == code || (r.0 == 1 && r.1.events != [] && r.1.events[|r.1.events| - 1] == Post(Cancelled))) &&
      (c == Never ==> r.0 == code)
  {
    if !IsSet(c, p) && i < |lines| {
      var r := StreamFrom(c, lines, code, i + 1, p + 1);
      StreamShape(c, lines, code, i + 1, p + 1);
      RelayedCons(OutputLine(lines[i]), r.1.events);
    }
  }

  /** One more relayed message in front keeps the events relayed and their last one. */
  lemma RelayedCons(m: Msg, es: seq<Event>)
    requires !IsLateMsg(m) && Relayed(es)
    ensures Relayed([Post(m)] + es)
    ensures es != [] ==> ([Post(m)] + es)[|es|] == es[|es| - 1]
  {
    var e := [Post(m)] + es;
    forall k | 1 <= k < |e| ensures e[k] == es[k - 1] {
    }
  }

  /**
   * The same for a whole command: a launch fault is reported and gives 1,
   * which is then the process's own exit code.
   */
  lemma RunShape(env: Env, cmd: seq<string>, n: nat, p: nat)
    ensures var r := RunCommand(env, cmd, n, p);
      Relayed(r.1.events) &&
      (r.0 == ExitCode(env.run(n, cmd)) ||
       (r.0 == 1 && r.1.events != [] && r.1.events[|r.1.events| - 1] == Post(Cancelled))) &&
      (env.cancel == Never ==> r.0 == ExitCode(env.run(n, cmd)))
  {
    match env.run(n, cmd)
    case LaunchFault =>
    case Exited(lines, code) =>
      StreamShape(env.cancel, lines, code, 0, p);
  }

  /**
   * What one command does, exactly: a launch fault is one error message,
   * code 1 and no flag read; a started process is streamed from its first
   * line as `StreamExact` says.
   */
  lemma RunExact(env: Env, cmd: seq<string>, n: nat, p: nat)
    ensures var r := RunCommand(env, cmd, n, p);
      env.run(n, cmd) == LaunchFault ==> r == (1, Trace([Post(LaunchFailed(cmd))], [cmd], 0))
    ensures var r := RunCommand(env, cmd, n, p);
      var proc, k := env.run(n, cmd), ClearReads(env.cancel, p);
      proc.Exited? ==>
        r.1.commands == [cmd] &&
        if IsSet(env.cancel, p + |proc.lines|) then
          k <= |proc.lines| && r.0 == 1 && r.1.events == OutputLines(proc.lines[..k]) + [Post(Cancelled)] && r.1.polls == k + 1
        else
          r.0 == proc.code && r.1.events == OutputLines(proc.lines) && r.1.polls == |proc.lines| + 1
  {
    match env.run(n, cmd)
    case LaunchFault =>
    case Exited(lines, code) =>
      StreamExact(env.cancel, lines, code, 0, p);
      assert lines[0..] == lines;
  }

  // ---------------------------------------------------------------------
  // Per-package fallback (`install_packages_individual`)
  // ---------------------------------------------------------------------

  /** The command that installs the one package `pkg`. */
  function InstallOneCommand(pip: string, pkg: string): seq<string> {
    [pip, "install", pkg]
  }

  /** One attempt, package `i` of `pkgs`: log line, command, failure line, progress. */
  function Attempt(env: Env, pip: string, pkgs: seq<string>, i: nat, n: nat, p: nat): (r: (int, Trace))
    requires i < |pkgs|
    ensures r.1.commands == [InstallOneCommand(pip, pkgs[i])]
  {
    var (rc, t) := RunCommand(env, InstallOneCommand(pip, pkgs[i]), n, p);
    var events := [Post(InstallingOne(i + 1, |pkgs|, pkgs[i]))] + t.events +
      (if rc == 0 then [] else [Post(FailedToInstall(pkgs[i]))]) + [Progress(i + 1, |pkgs|)];
    (rc, Trace(events, t.commands, t.polls))
  }

  /**
   * The events of one attempt: the log line first, the progress event
   * last, messages of the early kind in between.
   */
  lemma AttemptEvents(env: Env, pip: string, pkgs: seq<string>, i: nat, n: nat, p: nat)
    requires i < |pkgs|
    ensures var es := Attempt(env, pip, pkgs, i, n, p).1.events;
      AllEarly(es) && |es| >= 2 && es[0] == Post(InstallingOne(i + 1, |pkgs|, pkgs[i])) &&
      es[|es| - 1] == Progress(i + 1, |pkgs|) &&
      forall k | 0 <= k < |es| - 1 :: es[k].Post?
  {
    RunShape(env, InstallOneCommand(pip, pkgs[i]), n, p);
  }

  /**
   * How the fallback loop ends: whether it went through the whole list
   * (not when the flag stopped it), how many packages it installed, and
   * what it did.
   */
  datatype Pass = Pass(finished: bool, installed: nat, trace: Trace)

  /**
   * The fallback loop from package `i` on, after `n` launches and `p` flag
   * reads. The flag is read before each attempt; a set flag ends the loop
   * at once.
   */
  function LoopFrom(env: Env, pip: string, pkgs: seq<string>, i: nat, n: nat, p: nat): (r: Pass)
    requires i <= |pkgs|
    decreases |pkgs| - i
    ensures r.installed <= |pkgs| - i
  {
    if i == |pkgs| then Pass(true, 0, Trace([], [], 0))
    else if IsSet(env.cancel, p) then Pass(false, 0, Poll)
    else
      var (rc, a) := Attempt(env, pip, pkgs, i, n, p + 1);
      var r := LoopFrom(env, pip, pkgs, i + 1, n + 1, p + 1 + a.polls);
      Pass(r.finished, (if rc == 0 then 1 else 0) + r.installed,
        Trace(a.events + r.trace.events, a.commands + r.trace.commands, 1 + a.polls + r.trace.polls))
  }

  /**
   * Only a prefix of the packages is ever tried, one command per attempt;
   * the loop finishes exactly when it tried them all; only a tried package
   * counts as installed.
   */
  lemma {:induction false} LoopCount(env: Env, pip: string, pkgs: seq<string>, i: nat, n: nat, p: nat)
    requires i <= |pkgs|
    decreases |pkgs| - i
    ensures var r := LoopFrom(env, pip, pkgs, i, n, p);
      r.installed <= |r.trace.commands| <= |pkgs| - i &&
      (r.finished <==> |r.trace.commands| == |pkgs| - i)
  {
    if i < |pkgs| && !IsSet(env.cancel, p) {
      var (rc, a) := Attempt(env, pip, pkgs, i, n, p + 1);
      LoopCount(env, pip, pkgs, i + 1, n + 1, p + 1 + a.polls);
    }
  }

  /** Commands `cs` try the packages from index `i` on, in order. */
  predicate InOrderFrom(pip: string, pkgs: seq<string>, i: nat, cs: seq<seq<string>>) {
    |cs| <= |pkgs| - i && forall j | 0 <= j < |cs| :: cs[j] == InstallOneCommand(pip, pkgs[i + j])
  }

  lemma InOrderCons(pip: string, pkgs: seq<string>, i: nat, rest: seq<seq<string>>)
    requires i < |pkgs| && InOrderFrom(pip, pkgs, i + 1, rest)
    ensures InOrderFrom(pip, pkgs, i, [InstallOneCommand(pip, pkgs[i])] + rest)
  {
    var cs := [InstallOneCommand(pip, pkgs[i])] + rest;
    forall j | 1 <= j < |cs| ensures cs[j] == InstallOneCommand(pip, pkgs[i + j]) {
      assert cs[j] == rest[j - 1];
    }
  }

  /** The packages are tried in list order, each by its own command. */
  lemma {:induction false} LoopOrder(env: Env, pip: string, pkgs: seq<string>, i: nat, n: nat, p: nat)
    requires i <= |pkgs|
    decreases |pkgs| - i
    ensures InOrderFrom(pip, pkgs, i, LoopFrom(env, pip, pkgs, i, n, p).trace.commands)
  {
    if i < |pkgs| && !IsSet(env.cancel, p) {
      var (rc, a) := Attempt(env, pip, pkgs, i, n, p + 1);
      LoopOrder(env, pip, pkgs, i + 1, n + 1, p + 1 + a.polls);
      InOrderCons(pip, pkgs, i, LoopFrom(env, pip, pkgs, i + 1, n + 1, p + 1 + a.polls).trace.commands);
    }
  }

  /** The loop posts early events only. */
  lemma {:induction false} LoopEarly(env: Env, pip: string, pkgs: seq<string>, i: nat, n: nat, p: nat)
    requires i <= |pkgs|
    decreases |pkgs| - i
    ensures AllEarly(LoopFrom(env, pip, pkgs, i, n, p).trace.events)
  {
    if i < |pkgs| && !IsSet(env.cancel, p) {
      var (rc, a) := Attempt(env, pip, pkgs, i, n, p + 1);
      AttemptEvents(env, pip, pkgs, i, n, p + 1);
      LoopEarly(env, pip, pkgs, i + 1, n + 1, p + 1 + a.polls);
      var r := LoopFrom(env, pip, pkgs, i + 1, n + 1, p + 1 + a.polls);
      var es := LoopFrom(env, pip, pkgs, i, n, p).trace.events;
      assert es == a.events + r.trace.events;
      forall k | 0 <= k < |es| ensures IsEarly(es[k]) {
        if k >= |a.events| {
          assert es[k] == r.trace.events[k - |a.events|];
        }
      }
    }
  }

  /** The closing message of the fallback: all, some or none of `total` installed. */
  function AggregateMessage(ok: nat, total: nat): Msg {
    if ok == total then AllInstalled
    else if ok > 0 then InstalledSome(ok, total)
    else NoneInstalled
  }

  /** Which closing message a count of successes gets: all, some or none. */
  lemma AggregateMessageCases(ok: nat, total: nat)
    ensures var m := AggregateMessage(ok, total);
      (m == AllInstalled <==> ok == total) &&
      (m == NoneInstalled <==> ok == 0 && total != 0) &&
      (m.InstalledSome? ==> m == InstalledSome(ok, total) && 0 < ok != total)
  {
  }

  /**
   * `install_packages_individual`: the loop, then, unless the flag stopped
   * it, the closing message; the verdict is True when all or at least one
   * package was installed.
   */
  function InstallIndividual(env: Env, pip: string, pkgs: seq<string>, n: nat, p: nat): (r: (bool, Trace))
  {
    var l := LoopFrom(env, pip, pkgs, 0, n, p);
    if !l.finished then (false, l.trace)
    else
      (l.installed == |pkgs| || l.installed > 0,
       Trace(l.trace.events + [Post(AggregateMessage(l.installed, |pkgs|))], l.trace.commands, l.trace.polls))
  }

  /**
   * Whatever the flag does, the fallback posts early events only and
   * launches one install command per package over a prefix of the list,
   * in order; True means it tried every package.
   */
  lemma IndividualShape(env: Env, pip: string, pkgs: seq<string>, n: nat, p: nat)
    ensures var r := InstallIndividual(env, pip, pkgs, n, p);
      AllEarly(r.1.events) && |r.1.commands| <= |pkgs| &&
      (forall j | 0 <= j < |r.1.commands| :: r.1.commands[j] == InstallOneCommand(pip, pkgs[j])) &&
      (r.0 ==> |r.1.commands| == |pkgs|) &&
      var l := LoopFrom(env, pip, pkgs, 0, n, p);
      r.1.commands == l.trace.commands && r.1.polls == l.trace.polls && (r.0 ==> l.finished)
  {
    LoopCount(env, pip, pkgs, 0, n, p);
    LoopOrder(env, pip, pkgs, 0, n, p);
    LoopEarly(env, pip, pkgs, 0, n, p);
  }

  // ---------------------------------------------------------------------
  // Batch attempt (`install_packages_batch`)
  // ---------------------------------------------------------------------

  /** One "Skipping invalid package" warning per rejected entry, in list order. */
  function SkipWarnings(pkgs: seq<string>): (r: seq<Event>)
    ensures AllEarly(r)
  {
    if pkgs == [] then []
    else
      var last := pkgs[|pkgs| - 1];
      var v := ValidatePackageName(last);
      SkipWarnings(pkgs[..|pkgs| - 1]) + (if v.0 then [] else [Post(SkippingInvalid(last, v.1))])
  }

  /** The batch command: every validated package in one `pip install`. */
  function BatchCommand(pip: string, valid: seq<string>): seq<string> {
    [pip, "install"] + valid
  }

  /** An install command whose every package argument passed the validator. */
  predicate SafeInstallCommand(pip: string, c: seq<string>) {
    |c| >= 3 && c[0] == pip && c[1] == "install" &&
    forall j | 2 <= j < |c| :: IsValid(c[j])
  }

  lemma BatchCommandSafe(pip: string, valid: seq<string>)
    requires valid != [] && forall p | p in valid :: IsValid(p)
    ensures SafeInstallCommand(pip, BatchCommand(pip, valid))
  {
    forall j | 2 <= j < 2 + |valid| ensures IsValid(BatchCommand(pip, valid)[j]) {
      assert BatchCommand(pip, valid)[j] == valid[j - 2];
    }
  }

  /** The opening log line and the skip warnings, before any command. */
  function Screen(pkgs: seq<string>): seq<Event> {
    [Post(InstallingBatch(|pkgs|))] + SkipWarnings(pkgs)
  }

  /**
   * The batch command over the validated packages; on success a log line,
   * on failure a warning and the fallback over the same packages.
   */
  function BatchThenFallback(env: Env, pip: string, valid: seq<string>, n: nat, p: nat): (r: (bool, Trace))
    ensures r.1.commands != [] && r.1.commands[0] == BatchCommand(pip, valid)
  {
    var (rc, b) := RunCommand(env, BatchCommand(pip, valid), n, p);
    if rc == 0 then (true, Trace(b.events + [Post(BatchSucceeded)], b.commands, b.polls))
    else
      var f := InstallIndividual(env, pip, valid, n + 1, p + b.polls);
      (f.0, Trace(b.events + [Post(BatchFailed)] + f.1.events, b.commands + f.1.commands, b.polls + f.1.polls))
  }

  /**
   * `install_packages_batch`: an empty list succeeds with no command; the
   * entries are validated and the rejected ones reported; then the batch
   * command and its fallback over the valid ones.
   */
  function InstallBatch(env: Env, pip: string, pkgs: seq<string>, n: nat, p: nat): (r: (bool, Trace))
    ensures ValidOnly(pkgs) == [] ==> r.0 && r.1.commands == [] && r.1.polls == 0
    ensures ValidOnly(pkgs) != [] ==> r.1.commands != [] && r.1.commands[0] == BatchCommand(pip, ValidOnly(pkgs))
  {
    if pkgs == [] then (true, Trace([], [], 0))
    else
      var valid := ValidOnly(pkgs);
      if valid == [] then (true, Trace(Screen(pkgs) + [Post(NoValidPackages)], [], 0))
      else
        var b := BatchThenFallback(env, pip, valid, n, p);
        (b.0, Trace(Screen(pkgs) + b.1.events, b.1.commands, b.1.polls))
  }

  /** The fallback over validated packages launches safe install commands only. */
  lemma FallbackCommandsSafe(env: Env, pip: string, valid: seq<string>, n: nat, p: nat)
    requires forall q | q in valid :: IsValid(q)
    ensures forall c | c in InstallIndividual(env, pip, valid, n, p).1.commands :: SafeInstallCommand(pip, c)
  {
    IndividualShape(env, pip, valid, n, p);
    var cs := InstallIndividual(env, pip, valid, n, p).1.commands;
    forall j | 0 <= j < |cs| ensures SafeInstallCommand(pip, cs[j]) {
      assert valid[j] in valid;
    }
  }

  /** The runner's messages are early events. */
  lemma RelayedEarly(es: seq<Event>)
    requires Relayed(es)
    ensures AllEarly(es)
  {
  }

  /** Early events on both sides of one early message are early events. */
  lemma JoinEarly(a: seq<Event>, m: Msg, b: seq<Event>)
    requires AllEarly(a) && AllEarly(b) && !IsLateMsg(m)
    ensures AllEarly(a + [Post(m)] + b)
  {
    var es := a + [Post(m)] + b;
    forall k | 0 <= k < |es| ensures IsEarly(es[k]) {
      if k > |a| {
        assert es[k] == b[k - |a| - 1];
      }
    }
  }

  /**
   * Over validated packages, the batch command and its fallback post early
   * events only and launch install commands over validated packages only,
   * the batch command first.
   */
  lemma BatchThenFallbackShape(env: Env, pip: string, valid: seq<string>, n: nat, p: nat)
    requires valid != [] && forall q | q in valid :: IsValid(q)
    ensures var r := BatchThenFallback(env, pip, valid, n, p);
      AllEarly(r.1.events) && r.1.commands != [] && r.1.commands[0] == BatchCommand(pip, valid) &&
      forall c | c in r.1.commands :: SafeInstallCommand(pip, c)
  {
    var (rc, b) := RunCommand(env, BatchCommand(pip, valid), n, p);
    RunShape(env, BatchCommand(pip, valid), n, p);
    RelayedEarly(b.events);
    BatchCommandSafe(pip, valid);
    if rc == 0 {
      var none := Trace([], [], 0);
      JoinShape(pip, valid, b, BatchSucceeded, none);
      assert b.events + [Post(BatchSucceeded)] + [] == b.events + [Post(BatchSucceeded)];
      assert b.commands + [] == b.commands;
    } else {
      var f := InstallIndividual(env, pip, valid, n + 1, p + b.polls).1;
      IndividualShape(env, pip, valid, n + 1, p + b.polls);
      FallbackCommandsSafe(env, pip, valid, n + 1, p + b.polls);
      JoinShape(pip, valid, b, BatchFailed, f);
    }
  }

  /** The batch command's activity, one early message, then more early activity with safe commands. */
  lemma JoinShape(pip: string, valid: seq<string>, b: Trace, m: Msg, f: Trace)
    requires AllEarly(b.events) && AllEarly(f.events) && !IsLateMsg(m)
    requires b.commands == [BatchCommand(pip, valid)] && SafeInstallCommand(pip, BatchCommand(pip, valid))
    requires forall c | c in f.commands :: SafeInstallCommand(pip, c)
    ensures AllEarly(b.events + [Post(m)] + f.events)
    ensures var cs := b.commands + f.commands;
      cs != [] && cs[0] == BatchCommand(pip, valid) && forall c | c in cs :: SafeInstallCommand(pip, c)
  {
    JoinEarly(b.events, m, f.events);
  }

  /**
   * The installer strategy posts early events only, and every command it
   * launches is an install command whose package arguments all passed the
   * validator.
   */
  lemma InstallBatchShape(env: Env, pip: string, pkgs: seq<string>, n: nat, p: nat)
    ensures var r := InstallBatch(env, pip, pkgs, n, p);
      AllEarly(r.1.events) && forall c | c in r.1.commands :: SafeInstallCommand(pip, c)
  {
    if pkgs != [] {
      var valid := ValidOnly(pkgs);
      var screen := Screen(pkgs);
      assert AllEarly(screen) by {
        forall k | 0 <= k < |screen| ensures IsEarly(screen[k]) {
          if k > 0 {
            assert screen[k] == SkipWarnings(pkgs)[k - 1];
          }
        }
      }
      if valid == [] {
        JoinEarly(screen, NoValidPackages, []);
        assert screen + [Post(NoValidPackages)] == screen + [Post(NoValidPackages)] + [];
      } else {
        var b := BatchThenFallback(env, pip, valid, n, p);
        BatchThenFallbackShape(env, pip, valid, n, p);
        var es := screen + b.1.events;
        forall k | 0 <= k < |es| ensures IsEarly(es[k]) {
          if k >= |screen| {
            assert es[k] == b.1.events[k - |screen|];
          }
        }
      }
    }
  }
}
