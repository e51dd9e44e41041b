/**
 * What the installer strategy promises: which commands it launches, what it
 * reports, how the verdict follows from the exit codes, and what a set
 * cancellation flag cuts short.
 */
module InstallerLemmas {

  import opened PackageName
  import opened Events
  import opened Oracles
  import opened Installer

  // ---------------------------------------------------------------------
  // Screening
  // ---------------------------------------------------------------------

  /**
   * Screening splits the list: every entry is either kept for installation
   * or named in exactly one "skipping" warning with the validator's reason,
   * and every warning names a rejected entry.
   */
  lemma {:induction false} SkipWarningsReportRejected(pkgs: seq<string>)
    ensures |SkipWarnings(pkgs)| + |ValidOnly(pkgs)| == |pkgs|
    ensures forall e | e in SkipWarnings(pkgs) ::
      e.Post? && e.msg.SkippingInvalid? && e.msg.pkg in pkgs && !IsValid(e.msg.pkg) &&
      e.msg.reason == ValidatePackageName(e.msg.pkg).1
    ensures forall p | p in pkgs && !IsValid(p) ::
      Post(SkippingInvalid(p, ValidatePackageName(p).1)) in SkipWarnings(pkgs)
  {
    if pkgs != [] {
      var init, last := pkgs[..|pkgs| - 1], pkgs[|pkgs| - 1];
      assert pkgs == init + [last];
      SkipWarningsReportRejected(init);
    }
  }

  /** A list whose every entry passes the validator is kept whole and in order. */
  lemma {:induction false} AllValidKept(pkgs: seq<string>)
    requires forall p | p in pkgs :: IsValid(p)
    ensures ValidOnly(pkgs) == pkgs
  {
    if pkgs != [] {
      var init, last := pkgs[..|pkgs| - 1], pkgs[|pkgs| - 1];
      assert pkgs == init + [last];
      AllValidKept(init);
    }
  }

  /** An entry the validator rejects is never an argument of any command the strategy launches. */
  lemma RejectedNeverInstalled(env: Env, pip: string, pkgs: seq<string>, n: nat, p: nat, q: string)
    requires !IsValid(q)
    ensures forall c, k | c in InstallBatch(env, pip, pkgs, n, p).1.commands && 2 <= k < |c| :: c[k] != q
  {
    InstallBatchShape(env, pip, pkgs, n, p);
  }

  /**
   * An empty list, or one with no valid entry, succeeds without launching
   * anything or reading the flag; the second case says so in its last message.
   */
  lemma NothingToInstall(env: Env, pip: string, pkgs: seq<string>, n: nat, p: nat)
    requires ValidOnly(pkgs) == []
    ensures var r := InstallBatch(env, pip, pkgs, n, p);
      r.0 && r.1.commands == [] && r.1.polls == 0 &&
      (pkgs == [] ==> r.1.events == []) &&
      (pkgs != [] ==> r.1.events != [] && r.1.events[|r.1.events| - 1] == Post(NoValidPackages))
  {
  }

  // ---------------------------------------------------------------------
  // The runner
  // ---------------------------------------------------------------------

  /**
   * With the flag never set, the runner relays every output line, in
   * order and nothing else, reads the flag once per line and once more,
   * and returns the process's own exit code.
   */
  lemma {:induction false} StreamRelaysAll(lines: seq<string>, code: int, i: nat, p: nat)
    requires i <= |lines|
    decreases |lines| - i
    ensures StreamFrom(Never, lines, code, i, p) == (code, Trace(OutputLines(lines[i..]), [], |lines| - i + 1))
  {
    if i < |lines| {
      StreamRelaysAll(lines, code, i + 1, p + 1);
      assert OutputLines(lines[i..]) == [Post(OutputLine(lines[i]))] + OutputLines(lines[i + 1..]);
    } else {
      assert OutputLines(lines[i..]) == [];
    }
  }

  /**
   * A flag already set when the output is read kills the process before
   * any line is relayed: one warning, one read, exit code 1.
   */
  lemma CancelledStreamStopsAtOnce(c: Cancel, lines: seq<string>, code: int, i: nat, p: nat)
    requires i <= |lines| && IsSet(c, p)
    ensures StreamFrom(c, lines, code, i, p) == (1, Trace([Post(Cancelled)], [], 1))
  {
  }

  // ---------------------------------------------------------------------
  // The fallback, counted
  // ---------------------------------------------------------------------

  /**
   * How many of `pkgs[i..]` their own install command installs, when the
   * command for `pkgs[i]` is launch number `n` and the others follow it.
   */
  function InstalledFrom(env: Env, pip: string, pkgs: seq<string>, i: nat, n: nat): (got: nat)
    requires i <= |pkgs|
    decreases |pkgs| - i
    ensures got <= |pkgs| - i
  {
    if i == |pkgs| then 0
    else (if ExitCode(env.run(n, InstallOneCommand(pip, pkgs[i]))) == 0 then 1 else 0) + InstalledFrom(env, pip, pkgs, i + 1, n + 1)
  }

  /** One install command per package, in list order. */
  function PerPackageCommands(pip: string, pkgs: seq<string>): seq<seq<string>> {
    seq(|pkgs|, j requires 0 <= j < |pkgs| => InstallOneCommand(pip, pkgs[j]))
  }

  /**
   * Without cancellation the loop tries every remaining package in order,
   * one command each, and counts exactly those whose command exited with 0.
   */
  lemma {:induction false} LoopWithoutCancel(env: Env, pip: string, pkgs: seq<string>, i: nat, n: nat, p: nat)
    requires env.cancel == Never && i <= |pkgs|
    decreases |pkgs| - i
    ensures var r := LoopFrom(env, pip, pkgs, i, n, p);
      r.finished && r.installed == InstalledFrom(env, pip, pkgs, i, n) &&
      r.trace.commands == PerPackageCommands(pip, pkgs[i..])
  {
    if i == |pkgs| {
      assert pkgs[i..] == [];
    } else {
      var (rc, a) := Attempt(env, pip, pkgs, i, n, p + 1);
      RunShape(env, InstallOneCommand(pip, pkgs[i]), n, p + 1);
      LoopWithoutCancel(env, pip, pkgs, i + 1, n + 1, p + 1 + a.polls);
      assert PerPackageCommands(pip, pkgs[i..]) ==
        [InstallOneCommand(pip, pkgs[i])] + PerPackageCommands(pip, pkgs[i + 1..]);
    }
  }

  /**
   * Without cancellation the fallback tries every package in order, one
   * command each; its verdict is True exactly when all or at least one
   * were installed, and its last message says how many.
   */
  lemma FallbackWithoutCancel(env: Env, pip: string, pkgs: seq<string>, n: nat, p: nat)
    requires env.cancel == Never
    ensures var r := InstallIndividual(env, pip, pkgs, n, p);
      var got := InstalledFrom(env, pip, pkgs, 0, n);
      r.1.commands == PerPackageCommands(pip, pkgs) &&
      (r.0 <==> got == |pkgs| || got > 0) &&
      r.1.events != [] && r.1.events[|r.1.events| - 1] == Post(AggregateMessage(got, |pkgs|))
  {
    LoopWithoutCancel(env, pip, pkgs, 0, n, p);
    assert pkgs[0..] == pkgs;
  }

  /**
   * A flag found set at the fallback's first check ends it at once: False,
   * no command, no message, one read.
   */
  lemma FallbackCancelledAtOnce(env: Env, pip: string, pkgs: seq<string>, n: nat, p: nat)
    requires pkgs != [] && IsSet(env.cancel, p)
    ensures InstallIndividual(env, pip, pkgs, n, p) == (false, Poll)
  {
  }

  /**
   * A cancelled fallback stops with the flag: the verdict is False, no
   * closing message is posted, and fewer commands were launched than
   * there are packages.
   */
  lemma FallbackCancelledFails(env: Env, pip: string, pkgs: seq<string>, n: nat, p: nat)
    requires !LoopFrom(env, pip, pkgs, 0, n, p).finished
    ensures var r := InstallIndividual(env, pip, pkgs, n, p);
      !r.0 && |r.1.commands| < |pkgs| && r.1 == LoopFrom(env, pip, pkgs, 0, n, p).trace
  {
    LoopCount(env, pip, pkgs, 0, n, p);
  }

  /**
   * A flag found clear before attempt `i` but set at the check after it
   * makes that attempt the last one: its command is the only one launched
   * from there, its events are the only ones posted, the loop ends
   * unfinished unless the package was the last, and the package counts as
   * installed exactly when its command succeeded.
   */
  lemma CancelledAttemptIsLast(env: Env, pip: string, pkgs: seq<string>, i: nat, n: nat, p: nat)
    requires i < |pkgs| && !IsSet(env.cancel, p)
    requires IsSet(env.cancel, p + 1 + Attempt(env, pip, pkgs, i, n, p + 1).1.polls)
    ensures var a, r := Attempt(env, pip, pkgs, i, n, p + 1), LoopFrom(env, pip, pkgs, i, n, p);
      r.trace.commands == [InstallOneCommand(pip, pkgs[i])] && r.trace.events == a.1.events &&
      (r.finished <==> i + 1 == |pkgs|) && r.installed == (if a.0 == 0 then 1 else 0)
  {
    var a := Attempt(env, pip, pkgs, i, n, p + 1);
    var r := LoopFrom(env, pip, pkgs, i + 1, n + 1, p + 1 + a.1.polls);
    assert r.trace.events == [] && r.trace.commands == [];
    assert a.1.events + [] == a.1.events;
  }

  /**
   * When the runner of attempt `i` is cancelled (the flag is clear before
   * the attempt and set by the runner's read after the last output line),
   * the attempt fails and is the last one: one command, the cancellation
   * warning, the failure line and the progress event end the loop's
   * events, and nothing counts as installed.
   */
  lemma RunnerCancelledAttemptIsLast(env: Env, pip: string, pkgs: seq<string>, i: nat, n: nat, p: nat)
    requires i < |pkgs| && !IsSet(env.cancel, p)
    requires env.run(n, InstallOneCommand(pip, pkgs[i])).Exited?
    requires IsSet(env.cancel, p + 1 + |env.run(n, InstallOneCommand(pip, pkgs[i])).lines|)
    ensures var r := LoopFrom(env, pip, pkgs, i, n, p); var es := r.trace.events;
      r.trace.commands == [InstallOneCommand(pip, pkgs[i])] && r.installed == 0 &&
      (r.finished <==> i + 1 == |pkgs|) && |es| >= 3 &&
      es[|es| - 3..] == [Post(Cancelled), Post(FailedToInstall(pkgs[i])), Progress(i + 1, |pkgs|)]
  {
    var cmd := InstallOneCommand(pip, pkgs[i]);
    var t := RunCommand(env, cmd, n, p + 1);
    RunExact(env, cmd, n, p + 1);
    var k := ClearReads(env.cancel, p + 1);
    assert t.0 == 1 && IsSet(env.cancel, p + 1 + k);
    SetStaysSet(env.cancel, p + 1 + k, p + 1 + t.1.polls);
    CancelledAttemptIsLast(env, pip, pkgs, i, n, p);
    var es := Attempt(env, pip, pkgs, i, n, p + 1).1.events;
    assert es == ([Post(InstallingOne(i + 1, |pkgs|, pkgs[i]))] + t.1.events) +
      [Post(FailedToInstall(pkgs[i])), Progress(i + 1, |pkgs|)];
    assert t.1.events[|t.1.events| - 1] == Post(Cancelled);
  }

  // ---------------------------------------------------------------------
  // Progress events
  // ---------------------------------------------------------------------

  /** The progress events of a log, in order. */
  function ProgressEvents(es: seq<Event>): seq<Event> {
    if es == [] then []
    else (if es[0].Progress? then [es[0]] else []) + ProgressEvents(es[1..])
  }

  lemma {:induction false} ProgressEventsAppend(a: seq<Event>, b: seq<Event>)
    ensures ProgressEvents(a + b) == ProgressEvents(a) + ProgressEvents(b)
  {
    if a != [] {
      assert (a + b)[1..] == a[1..] + b;
      ProgressEventsAppend(a[1..], b);
    } else {
      assert a + b == b;
    }
  }

  lemma {:induction false} ProgressEventsOfMessages(a: seq<Event>)
    requires forall k | 0 <= k < |a| :: a[k].Post?
    ensures ProgressEvents(a) == []
  {
    if a != [] {
      ProgressEventsOfMessages(a[1..]);
    }
  }

  /** Progress `from + 1`/`total`, ..., `from + m`/`total`. */
  function ProgressRun(from: nat, m: nat, total: nat): seq<Event> {
    seq(m, j requires 0 <= j < m => Progress(from + j + 1, total))
  }

  lemma ProgressRunCons(from: nat, m: nat, total: nat)
    ensures ProgressRun(from, m + 1, total) == [Progress(from + 1, total)] + ProgressRun(from + 1, m, total)
  {
    var a, b := ProgressRun(from, m + 1, total), [Progress(from + 1, total)] + ProgressRun(from + 1, m, total);
    forall j | 1 <= j < m + 1 ensures a[j] == b[j] {
      assert b[j] == ProgressRun(from + 1, m, total)[j - 1];
    }
  }

  /** One attempt's progress event followed by the run after it. */
  lemma ProgressStep(a: seq<Event>, b: seq<Event>, from: nat, m: nat, total: nat)
    requires ProgressEvents(a) == [Progress(from + 1, total)]
    requires ProgressEvents(b) == ProgressRun(from + 1, m, total)
    ensures ProgressEvents(a + b) == ProgressRun(from, m + 1, total)
  {
    ProgressEventsAppend(a, b);
    ProgressRunCons(from, m, total);
  }

  /** The progress events of one attempt: its own, and nothing else. */
  lemma AttemptProgress(env: Env, pip: string, pkgs: seq<string>, i: nat, n: nat, p: nat)
    requires i < |pkgs|
    ensures ProgressEvents(Attempt(env, pip, pkgs, i, n, p).1.events) == [Progress(i + 1, |pkgs|)]
  {
    AttemptEvents(env, pip, pkgs, i, n, p);
    var es := Attempt(env, pip, pkgs, i, n, p).1.events;
    var body := es[..|es| - 1];
    assert es == body + [Progress(i + 1, |pkgs|)];
    ProgressEventsOfMessages(body);
    ProgressEventsAppend(body, [Progress(i + 1, |pkgs|)]);
  }

  /**
   * Whatever the flag does, the loop posts exactly one progress event per
   * command it launches, numbered from the package it started at, and no
   * other: a cancelled loop stops the progress with the commands.
   */
  lemma {:induction false} LoopProgress(env: Env, pip: string, pkgs: seq<string>, i: nat, n: nat, p: nat)
    requires i <= |pkgs|
    decreases |pkgs| - i
    ensures var t := LoopFrom(env, pip, pkgs, i, n, p).trace;
      ProgressEvents(t.events) == ProgressRun(i, |t.commands|, |pkgs|)
  {
    var t := LoopFrom(env, pip, pkgs, i, n, p).trace;
    if i < |pkgs| && !IsSet(env.cancel, p) {
      var a := Attempt(env, pip, pkgs, i, n, p + 1).1;
      var r := LoopFrom(env, pip, pkgs, i + 1, n + 1, p + 1 + a.polls).trace;
      assert t.events == a.events + r.events && |t.commands| == 1 + |r.commands|;
      assert ProgressEvents(r.events) == ProgressRun(i + 1, |r.commands|, |pkgs|) by {
        LoopProgress(env, pip, pkgs, i + 1, n + 1, p + 1 + a.polls);
      }
      assert ProgressEvents(a.events) == [Progress(i + 1, |pkgs|)] by {
        AttemptProgress(env, pip, pkgs, i, n, p + 1);
      }
      ProgressStep(a.events, r.events, i, |r.commands|, |pkgs|);
    } else {
      assert t.events == [] && t.commands == [];
    }
  }

  /**
   * The fallback's progress events are `1/n`, `2/n`, ... up to the number
   * of commands it launched, one per attempt, in order.
   */
  lemma FallbackProgress(env: Env, pip: string, pkgs: seq<string>, n: nat, p: nat)
    ensures var t := InstallIndividual(env, pip, pkgs, n, p).1;
      ProgressEvents(t.events) == ProgressRun(0, |t.commands|, |pkgs|)
  {
    var l := LoopFrom(env, pip, pkgs, 0, n, p);
    LoopProgress(env, pip, pkgs, 0, n, p);
    if l.finished {
      var m := [Post(AggregateMessage(l.installed, |pkgs|))];
      ProgressEventsAppend(l.trace.events, m);
      ProgressEventsOfMessages(m);
    }
  }

  // ---------------------------------------------------------------------
  // The strategy as a whole
  // ---------------------------------------------------------------------

  /** With a valid entry, the strategy is the screening followed by the batch attempt. */
  lemma BatchAfterScreen(env: Env, pip: string, pkgs: seq<string>, n: nat, p: nat)
    requires ValidOnly(pkgs) != []
    ensures var r := InstallBatch(env, pip, pkgs, n, p);
      var t := BatchThenFallback(env, pip, ValidOnly(pkgs), n, p);
      r.0 == t.0 && r.1.commands == t.1.commands && r.1.events == Screen(pkgs) + t.1.events
  {
    assert pkgs != [];
  }

  /** A batch command that exits with 0 is the only command, and the run says so last. */
  lemma BatchSucceedsAlone(env: Env, pip: string, pkgs: seq<string>, n: nat, p: nat)
    requires ValidOnly(pkgs) != [] && env.cancel == Never
    requires ExitCode(env.run(n, BatchCommand(pip, ValidOnly(pkgs)))) == 0
    ensures var r := InstallBatch(env, pip, pkgs, n, p);
      r.0 && r.1.commands == [BatchCommand(pip, ValidOnly(pkgs))] &&
      r.1.events[|r.1.events| - 1] == Post(BatchSucceeded)
  {
    BatchAfterScreen(env, pip, pkgs, n, p);
    RunShape(env, BatchCommand(pip, ValidOnly(pkgs)), n, p);
  }

  /** The batch attempt alone when its command fails and the flag is never set. */
  lemma BatchFailureThenEach(env: Env, pip: string, valid: seq<string>, n: nat, p: nat)
    requires env.cancel == Never
    requires ExitCode(env.run(n, BatchCommand(pip, valid))) != 0
    ensures var t := BatchThenFallback(env, pip, valid, n, p);
      var got := InstalledFrom(env, pip, valid, 0, n + 1);
      t.1.commands == [BatchCommand(pip, valid)] + PerPackageCommands(pip, valid) &&
      (t.0 <==> got == |valid| || got > 0) &&
      t.1.events[|t.1.events| - 1] == Post(AggregateMessage(got, |valid|))
  {
    var cmd := BatchCommand(pip, valid);
    var b := RunCommand(env, cmd, n, p).1;
    RunShape(env, cmd, n, p);
    var f := InstallIndividual(env, pip, valid, n + 1, p + b.polls);
    FallbackWithoutCancel(env, pip, valid, n + 1, p + b.polls);
    LastOfAppend(b.events + [Post(BatchFailed)], f.1.events);
  }

  lemma LastOfAppend<T>(a: seq<T>, b: seq<T>)
    requires b != []
    ensures (a + b)[|a + b| - 1] == b[|b| - 1]
  {
  }

  /**
   * A failing batch command is followed by one command per valid package,
   * in list order; the verdict is True exactly when at least one of them
   * installed its package, and the last message says how many did.
   */
  lemma BatchFailureFallsBack(env: Env, pip: string, pkgs: seq<string>, n: nat, p: nat)
    requires ValidOnly(pkgs) != [] && env.cancel == Never
    requires ExitCode(env.run(n, BatchCommand(pip, ValidOnly(pkgs)))) != 0
    ensures var r := InstallBatch(env, pip, pkgs, n, p);
      var valid := ValidOnly(pkgs);
      var got := InstalledFrom(env, pip, valid, 0, n + 1);
      r.1.commands == [BatchCommand(pip, valid)] + PerPackageCommands(pip, valid) &&
      (r.0 <==> got > 0) &&
      r.1.events[|r.1.events| - 1] == Post(AggregateMessage(got, |valid|))
  {
    BatchAfterScreen(env, pip, pkgs, n, p);
    BatchFailureThenEach(env, pip, ValidOnly(pkgs), n, p);
  }

  /**
   * Without cancellation the strategy's verdict is True exactly when
   * there is nothing valid to install, the batch command exits with 0, or
   * at least one per-package command does.
   */
  lemma VerdictWithoutCancel(env: Env, pip: string, pkgs: seq<string>, n: nat, p: nat)
    requires env.cancel == Never
    ensures var valid := ValidOnly(pkgs);
      InstallBatch(env, pip, pkgs, n, p).0 <==>
        valid == [] || ExitCode(env.run(n, BatchCommand(pip, valid))) == 0 || InstalledFrom(env, pip, valid, 0, n + 1) > 0
  {
    var valid := ValidOnly(pkgs);
    if valid == [] {
      NothingToInstall(env, pip, pkgs, n, p);
    } else if ExitCode(env.run(n, BatchCommand(pip, valid))) == 0 {
      BatchSucceedsAlone(env, pip, pkgs, n, p);
    } else {
      BatchFailureFallsBack(env, pip, pkgs, n, p);
    }
  }

  /** The flag stays set once set. */
  lemma SetStaysSet(c: Cancel, k: nat, k': nat)
    requires IsSet(c, k) && k <= k'
    ensures IsSet(c, k')
  {
  }

  /**
   * A flag already set when installation starts still lets the batch
   * command be launched (the runner kills it and reports 1); the fallback
   * then stops at its first check: False, no other command, and the
   * batch-failure warning is the last message.
   */
  lemma CancelledBeforeBatch(env: Env, pip: string, pkgs: seq<string>, n: nat, p: nat)
    requires IsSet(env.cancel, p) && ValidOnly(pkgs) != []
    ensures var r := InstallBatch(env, pip, pkgs, n, p);
      !r.0 && r.1.commands == [BatchCommand(pip, ValidOnly(pkgs))] &&
      r.1.events[|r.1.events| - 1] == Post(BatchFailed)
  {
    assert pkgs != [];
    var valid := ValidOnly(pkgs);
    var (rc, b) := RunCommand(env, BatchCommand(pip, valid), n, p);
    SetStaysSet(env.cancel, p, p + b.polls);
  }

  /**
   * The runner stops at the first of its flag reads that finds the flag
   * set: if read `p + k` does, with `k` no more than the remaining lines,
   * the runner returns 1 after at most `k` relayed lines, at most `k + 1`
   * reads, and the cancellation warning as its last message.
   */
  lemma StreamCancelledBy(c: Cancel, lines: seq<string>, code: int, i: nat, p: nat, k: nat)
    requires i <= |lines| && k <= |lines| - i && IsSet(c, p + k)
    ensures var r := StreamFrom(c, lines, code, i, p);
      r.0 == 1 && r.1.polls <= k + 1 && 1 <= |r.1.events| <= k + 1 &&
      r.1.events[|r.1.events| - 1] == Post(Cancelled)
  {
    StreamExact(c, lines, code, i, p);
    SetStaysSet(c, p + k, p + (|lines| - i));
  }

  /**
   * A batch command whose runner is cancelled (the flag is set by the
   * runner's read after the last output line) fails, and the fallback
   * stops at its first check: the verdict is False, the batch command is
   * the only command, and the runner's cancellation warning and the
   * batch-failure warning are the last two messages.
   */
  lemma BatchCancelled(env: Env, pip: string, pkgs: seq<string>, n: nat, p: nat)
    requires ValidOnly(pkgs) != []
    requires env.run(n, BatchCommand(pip, ValidOnly(pkgs))).Exited?
    requires IsSet(env.cancel, p + |env.run(n, BatchCommand(pip, ValidOnly(pkgs))).lines|)
    ensures var r := InstallBatch(env, pip, pkgs, n, p); var es := r.1.events;
      !r.0 && r.1.commands == [BatchCommand(pip, ValidOnly(pkgs))] && |es| >= 2 &&
      es[|es| - 2] == Post(Cancelled) && es[|es| - 1] == Post(BatchFailed)
  {
    assert pkgs != [];
    var valid := ValidOnly(pkgs);
    var cmd := BatchCommand(pip, valid);
    var b := RunCommand(env, cmd, n, p);
    RunExact(env, cmd, n, p);
    var k := ClearReads(env.cancel, p);
    assert b.0 == 1 && IsSet(env.cancel, p + k);
    SetStaysSet(env.cancel, p + k, p + b.1.polls);
    FallbackCancelledAtOnce(env, pip, valid, n + 1, p + b.1.polls);
    assert b.1.events[|b.1.events| - 1] == Post(Cancelled);
  }
}
