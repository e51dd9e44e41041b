/**
 * What the worker puts on the message queue, and the worker's observable
 * state: the queue so far, the commands handed to the process launcher, how
 * often the cancellation flag has been read, and the fields `success`,
 * `venv_path` and `project_size`, plus whether the venv is on disk and
 * whether cleanup removed it.
 */
module Events {

  import opened Wrappers

  /** One constructor per distinct message text the worker posts. */
  datatype Msg =
    // process runner
    | OutputLine(text: string)
    | LaunchFailed(cmd: seq<string>)
    | Cancelled
    // directory layout
    | CreatedDirectory(dir: string)
    // virtual environment
    | NoWritePermission(dir: string)
    | CreatingVenv(path: string)
    | VenvFailed
    | VenvCreated
    // installer strategy
    | InstallingBatch(count: nat)
    | SkippingInvalid(pkg: string, reason: string)
    | NoValidPackages
    | BatchSucceeded
    | BatchFailed
    | InstallingOne(index: nat, total: nat, pkg: string)
    | FailedToInstall(pkg: string)
    | AllInstalled
    | InstalledSome(count: nat, total: nat)
    | NoneInstalled
    // cleanup
    | CleanedUp
    | CleanupFailed
    // pipeline
    | ProjectFolder(path: string)
    | CannotCreateFolder
    | VenvReused
    | UsingPythonPip
    | CannotLocatePip
    | PackageInstallFailed
    | NoPackagesToInstall
    | RequirementsSaved
    | RequirementsFailed
    | ReadmeCreated
    | ReadmeFailed
    | GitNotFound
    | InitializingGit
    | GitInitialized
    | GitCommandFailed
    | GitFailed
    | ProjectSize(bytes: nat)
    | UnexpectedError
    | Traceback

  /** A queue entry: `(kind, payload)` in the source. */
  datatype Event =
    | Post(msg: Msg)
    | Progress(index: nat, total: nat)
    | Done(succeeded: bool)
    | Summary(projectPath: string, sizeBytes: nat, packageCount: nat, gitInitialized: bool)
    | ProgressComplete

  /** Messages of the steps after installation (requirements, README, git, size). */
  predicate IsLateMsg(m: Msg) {
    m.RequirementsSaved? || m.RequirementsFailed? || m.ReadmeCreated? || m.ReadmeFailed? ||
    m.GitNotFound? || m.InitializingGit? || m.GitInitialized? || m.GitCommandFailed? ||
    m.GitFailed? || m.ProjectSize?
  }

  /** An event a step before or during installation may post. */
  predicate IsEarly(e: Event) {
    (e.Post? && !IsLateMsg(e.msg)) || e.Progress?
  }

  /** An event any step may post: everything except the three final ones. */
  predicate IsPlain(e: Event) {
    e.Post? || e.Progress?
  }

  /** The observable state of one worker. */
  datatype State = State(
    events: seq<Event>,
    commands: seq<seq<string>>,
    polls: nat,
    success: bool,
    venvPath: Option<string>,
    venvOnDisk: bool,
    venvRemoved: bool,
    projectSize: nat)

  function Emit(s: State, m: Msg): State {
    s.(events := s.events + [Post(m)])
  }

  function EmitAll(s: State, es: seq<Event>): State {
    s.(events := s.events + es)
  }

  /** `t` continues `s`: both logs only grow and the flag is read no less often. */
  predicate Extends(s: State, t: State) {
    |s.events| <= |t.events| && t.events[..|s.events|] == s.events &&
    |s.commands| <= |t.commands| && t.commands[..|s.commands|] == s.commands &&
    s.polls <= t.polls
  }

  predicate NewEventsEarly(s: State, t: State)
    requires |s.events| <= |t.events|
  {
    forall i | |s.events| <= i < |t.events| :: IsEarly(t.events[i])
  }

  predicate NewEventsPlain(s: State, t: State)
    requires |s.events| <= |t.events|
  {
    forall i | |s.events| <= i < |t.events| :: IsPlain(t.events[i])
  }

  /** `t` extends `s` by early events only and leaves the worker's fields alone. */
  predicate Appends(s: State, t: State) {
    Extends(s, t) && NewEventsEarly(s, t) &&
    t.success == s.success && t.venvPath == s.venvPath && t.venvOnDisk == s.venvOnDisk &&
    t.venvRemoved == s.venvRemoved && t.projectSize == s.projectSize
  }

  /**
   * What a stretch of the worker's activity adds to its state: the events
   * it posts, the commands it launches and how often it reads the flag.
   */
  datatype Trace = Trace(events: seq<Event>, commands: seq<seq<string>>, polls: nat)

  /** One read of the cancellation flag and nothing else. */
  const Poll: Trace := Trace([], [], 1)

  /** `a`, then `b`. */
  function Then(a: Trace, b: Trace): Trace {
    Trace(a.events + b.events, a.commands + b.commands, a.polls + b.polls)
  }

  /** The state `s` after the activity `t`. */
  function Apply(s: State, t: Trace): State {
    s.(events := s.events + t.events, commands := s.commands + t.commands, polls := s.polls + t.polls)
  }

  predicate AllEarly(es: seq<Event>) {
    forall k | 0 <= k < |es| :: IsEarly(es[k])
  }

  /** Applying two traces in turn is applying their concatenation. */
  lemma ApplyThen(s: State, a: Trace, b: Trace)
    ensures Apply(Apply(s, a), b) == Apply(s, Then(a, b))
  {
    assert s.events + a.events + b.events == s.events + (a.events + b.events);
    assert s.commands + a.commands + b.commands == s.commands + (a.commands + b.commands);
  }

  /** One read of the flag, then `a`, then `b`. */
  lemma ApplyPollThen(s: State, a: Trace, b: Trace)
    ensures Apply(s, Trace(a.events + b.events, a.commands + b.commands, 1 + a.polls + b.polls)) ==
            Apply(Apply(Apply(s, Poll), a), b)
  {
    assert Apply(s, Poll) == s.(polls := s.polls + 1);
    ApplyThen(s.(polls := s.polls + 1), a, b);
  }

  /** A trace of early events extends the state it is applied to. */
  lemma ApplyAppends(s: State, t: Trace)
    requires AllEarly(t.events)
    ensures Appends(s, Apply(s, t))
  {
    var u := Apply(s, t);
    assert u.events[..|s.events|] == s.events;
    assert u.commands[..|s.commands|] == s.commands;
    forall i | |s.events| <= i < |u.events| ensures IsEarly(u.events[i]) {
      assert u.events[i] == t.events[i - |s.events|];
    }
  }

  lemma ExtendsTrans(a: State, b: State, c: State)
    requires Extends(a, b) && Extends(b, c)
    ensures Extends(a, c)
  {
    assert c.events[..|a.events|] == c.events[..|b.events|][..|a.events|];
    assert c.commands[..|a.commands|] == c.commands[..|b.commands|][..|a.commands|];
  }

  lemma AppendsTrans(a: State, b: State, c: State)
    requires Appends(a, b) && Appends(b, c)
    ensures Appends(a, c)
  {
    ExtendsTrans(a, b, c);
    forall i | |a.events| <= i < |c.events| ensures IsEarly(c.events[i]) {
      if i < |b.events| {
        assert c.events[i] == c.events[..|b.events|][i];
      }
    }
  }
}
