# Python Project Builder — a Dafny model of its worker core

Python Project Builder is a Tkinter desktop application. It creates a new
Python project on disk. The user picks a folder and a name, and lists
packages in a text box. A background worker thread, `ProjectWorker`, then
does the following:

- creates the project folder and a fixed layout of sub-directories;
- builds a virtual environment (venv), or reuses an existing one;
- finds pip inside it and installs the packages;
- writes `requirements.txt`, and optionally a README and a git repository;
- reports the project's size, then signals completion to the UI through a
  message queue.

The model covers that worker, the package-name validator, the package text
box splitter and the recent-projects list.

The worker's outside world is a value, `Oracles.Env`. It says:

- what each launched command prints and the code it exits with;
- when the cancellation flag becomes set;
- whether each file-system step succeeds;
- which executables exist in the venv;
- what the size calculation returns.

The worker's fields and its message queue are a value, `Events.State`. It
holds:

- the posted messages, in order;
- the commands launched;
- the number of flag reads;
- `success`, `venv_path` and `project_size`;
- whether the venv is on disk and whether cleanup removed it.

The model has two layers:

- Functions in `Installer` and `Pipeline` state what each worker method does
  to a `State`.
- The class `Worker.ProjectWorker` holds the same fields. Its methods run the
  source's loops and steps in place, and each is proved to leave exactly the
  state that its function describes.

The lemmas in `InstallerLemmas` and `PipelineLemmas` state what the source
promises about those functions. They cover:

- the four fatal gates of `run` and the cleanup after the last three;
- the `finally` block that always ends the run with the completion signal;
- the absence of any cancellation check between the steps;
- the batch-then-per-package install strategy and its verdict;
- that no rejected package name is ever passed to pip;
- the exact progress events of the fallback.

Files:

- `wrappers.dfy`: `Option`.
- `package_name.dfy`: the validator.
- `package_text.dfy`: the package text box splitter.
- `recent_projects.dfy`: the recent-projects list.
- `oracles.dfy`: the request and the outside world.
- `events.dfy`: messages, traces and worker state.
- `installer.dfy` and `installer_lemmas.dfy`: the command runner and both
  install strategies.
- `pipeline.dfy` and `pipeline_lemmas.dfy`: `run` and `_cleanup_partial`.
- `worker.dfy`: the `ProjectWorker` class.

Four behaviours of the worker are easy to miss when reading it; the model
states each of them:

- `run` never reads the cancellation flag between steps. Only the command
  runner and the per-package loop read it
  (`PipelineLemmas.FlagIgnoredBetweenSteps`). A cancellation therefore stops
  the run only through a failed command.
- The `python -m pip` path installs the package list exactly as given, with
  no validation (`PipelineLemmas.PythonPathUnscreened`). The UI filters the
  list before building the worker, but the worker does not screen it itself.
- Cleanup removes any venv on disk once `venv_path` is set, including one that
  existed before the run and was reused.
  `PipelineLemmas.InstallFailureCleansUp` covers this case.
- Some faults are not caught by their step and reach the catch-all handler,
  which ends the run as failed:
  - a failing `mkdir` or `touch` in the layout step;
  - a write-probe fault other than `PermissionError`;
  - a `git --version` fault other than the two caught ones.
  A git fault is therefore not always a degraded, non-fatal outcome.

## Model

| member | source | states |
|---|---|---|
| PackageName.FindFrom | project_builder.py:56-59 | the index found is the first occurrence of the separator at or after the start, or there is none |
| PackageName.BaseName | project_builder.py:55-60 | the base is a prefix of the name; it is the whole name when no separator occurs; otherwise it ends at the first occurrence of the first separator, in the list order `==, >=, <=, >, <, ~=, !=`, that occurs anywhere in the name |
| PackageName.ValidatePackageName | project_builder.py:50-75 | a name is accepted iff it is non-empty and its base matches the name pattern; the message is empty exactly when the name is accepted |
| PackageName.RejectionOrder | project_builder.py:52-73 | the message is that of the first failing check, in order: empty name, shell metacharacter in the base, URL-like base, base not matching the pattern |
| PackageName.AcceptedBaseShape | project_builder.py:62-73 | an accepted name's base has at least two characters, starts with a letter or digit and holds no shell metacharacter, `:` or `+` |
| PackageName.PatternExcludesMetaAndUrls | project_builder.py:62-73 | a base that matches the pattern never contains a shell metacharacter and never looks like a URL, so the pattern alone decides acceptance |
| PackageName.PatternCharAt | project_builder.py:70-73 | every character of a matching base is a name character, except a final newline, which Python's `$` allows |
| PackageName.NoSeparatorCharacters | project_builder.py:55-60 | a name with no character that can start a separator is its own base |
| PackageName.VersionSuffixUnscreened | project_builder.py:55-73 | a core name followed by `==` and ANY suffix is accepted, because only the base is checked |
| PackageName.TrailingNewlineAccepted | project_builder.py:70-73 | a core name with one trailing newline is accepted |
| PackageName.InjectionRejected | project_builder.py:62-64 | `pkg;rm -rf /` is rejected with the invalid-characters message |
| PackageName.ValidOnly | project_builder.py:311-318 | an entry is kept iff it is in the list and accepted; order and repeats are stated by the next two rows |
| PackageName.ValidOnlyOne | project_builder.py:312-316 | one entry is kept iff the validator accepts it |
| PackageName.ValidOnlyAppend | project_builder.py:311-318 | screening two lists in a row keeps the kept entries of the first followed by those of the second, so the original order and every repeat are kept |
| PackageText.TrimStart | project_builder.py:1090-1094 | the result is a suffix of the input, every dropped character is whitespace, and the result does not start with whitespace |
| PackageText.TrimEnd | project_builder.py:1090-1094 | the result is a prefix of the input, every dropped character is whitespace, and the result does not end with whitespace |
| PackageText.Strip | project_builder.py:1090-1094 | the result is the slice of the input left once the whitespace at both ends is cut: it neither starts nor ends with whitespace, and everything cut before or after it is whitespace |
| PackageText.LineLength | project_builder.py:1093 | the first line ends at the first line boundary, or at the end of the text when there is none |
| PackageText.SplitLines | project_builder.py:1093 | cutting text into lines gives at least one line |
| PackageText.LinesHoldNoBreak | project_builder.py:1093 | no line that the cut gives holds a line boundary |
| PackageText.SplitLinesOfLine | project_builder.py:1093 | text with no line boundary is one line, itself |
| PackageText.SplitLinesAtBreak | project_builder.py:1093 | a line boundary after a break-free piece ends that line, and the lines of the rest follow it |
| PackageText.LineBreakIsSpace | project_builder.py:1093-1098 | every line boundary of `splitlines` is whitespace for `strip` and `\s` |
| PackageText.TokenLength | project_builder.py:1097-1098 | a word runs up to the first whitespace character, and holds none |
| PackageText.Words | project_builder.py:1097-1098 | every word is non-empty and holds no whitespace |
| PackageText.WordsKeepText | project_builder.py:1097-1098 | the words run together are exactly the input's non-whitespace characters, in order |
| PackageText.WordsSplit | project_builder.py:1097-1098 | text cut at whitespace (or at either end) splits into the words of the first part followed by the words of the second |
| PackageText.WordsOfToken | project_builder.py:1097-1098 | a non-empty run of non-whitespace is exactly one word |
| PackageText.WordsEmpty | project_builder.py:1097-1098 | text has no word iff it is all whitespace |
| PackageText.WordsOfStrip | project_builder.py:1094-1098 | stripping a line first does not change its words |
| PackageText.StripKeepsOut | project_builder.py:1094 | a character absent from a line is absent from the stripped line |
| PackageText.LineWithoutComment | project_builder.py:1094-1098 | a line whose stripped form is blank or does not start with `#` contributes exactly its words, any later `#` included |
| PackageText.TwoWordLine | project_builder.py:1094-1098 | a line of two words, the first not starting with `#`, gives both words, even when the second starts with `#` |
| PackageText.PackagesOfLines | project_builder.py:1093-1098 | every entry taken from the lines is non-empty and holds no whitespace |
| PackageText.PackagesOfLinesAppend | project_builder.py:1093-1098 | the entries of two runs of lines are those of the first followed by those of the second |
| PackageText.LinesWithoutComments | project_builder.py:1093-1098 | for text without `#`, the entries of all its lines are exactly the words of the text |
| PackageText.PackagesFromText | project_builder.py:1090-1099 | every entry read from the text box is non-empty and holds no whitespace |
| PackageText.TextWithoutComments | project_builder.py:1090-1099 | for text without `#`, the entries read from the box are exactly the words of the whole text, line boundaries counting as whitespace |
| PackageText.ReadPackages | project_builder.py:1090-1099 | the line loop returns exactly the entries the specification function gives, so each is non-empty and holds no whitespace |
| PackageText.CommentLinesSkipped | project_builder.py:1094-1096 | a blank line or a line starting with `#` after stripping contributes no entry |
| PackageText.TextPackagesAreCoreNames | project_builder.py:1090-1106 | the base of every entry that passes the validator is a core name of two or more name characters |
| RecentProjects.Remember | project_builder.py:1338-1343 | an empty path or a known path leaves the list unchanged; a new path goes first, followed by the old list, cut to ten entries |
| RecentProjects.RememberIdempotent | project_builder.py:1338-1343 | remembering the same path twice gives the same list as once |
| RecentProjects.RememberKeepsBound | project_builder.py:1338-1343 | a list of at most ten distinct paths stays so |
| Installer.OutputLines | project_builder.py:246-251 | one log message per output line, in order |
| Installer.StreamFrom | project_builder.py:236-253 | the streaming loop launches no command |
| Installer.RunCommand | project_builder.py:218-253 | exactly the given command is launched |
| Installer.StreamExact | project_builder.py:236-253 | when one of the runner's flag reads finds the flag set, the runner has relayed exactly one line per earlier read, posts the cancellation warning last and returns 1; otherwise it relays every line, reads the flag once per line and once more, and returns the process's code |
| Installer.RunExact | project_builder.py:218-253 | a launch fault gives one error message, code 1 and no flag read; a started process is streamed exactly as the line above says, after launching exactly the given command |
| Installer.StreamShape | project_builder.py:236-253 | the stream relays only log lines and its own warning; it returns the process's code, or 1 with the cancellation warning last; with no cancellation it returns the process's code |
| Installer.RunShape | project_builder.py:218-253 | the same for a whole command, where a launch fault gives 1 |
| InstallerLemmas.StreamRelaysAll | project_builder.py:236-253 | with the flag never set, every output line is relayed in order, the flag is read once per line and once more, and the code is the process's |
| InstallerLemmas.CancelledStreamStopsAtOnce | project_builder.py:238-244 | a flag already set kills the process before any line: one warning, one read, code 1 |
| InstallerLemmas.StreamCancelledBy | project_builder.py:236-253 | a flag set by any read of the runner, the `k`-th after the start, makes it return 1 after at most `k` relayed lines and `k + 1` reads, with the cancellation warning last |
| Installer.Attempt | project_builder.py:344-354 | one attempt launches exactly the install command for its own package |
| Installer.AttemptEvents | project_builder.py:344-354 | an attempt's events start with the `[i/n]` log line and end with its progress event, with only messages between |
| Installer.LoopFrom | project_builder.py:340-354 | the loop never counts more installs than packages it has left |
| Installer.LoopCount | project_builder.py:340-354 | the loop tries a prefix of the packages, one command each; it finishes iff it tried them all; it never counts more installs than commands |
| Installer.LoopOrder | project_builder.py:340-346 | the packages are tried in list order, each by its own command |
| Installer.LoopEarly | project_builder.py:340-354 | the loop posts no completion, summary or size event |
| Installer.IndividualShape | project_builder.py:335-364 | the contract of `InstallIndividual`: whatever the flag does, commands go one per package over a prefix, in order, and a True verdict means every package was tried; the commands and flag reads are exactly those of the loop |
| InstallerLemmas.LoopWithoutCancel | project_builder.py:340-354 | without cancellation the loop tries every package in order and counts exactly those whose command exited with 0 |
| InstallerLemmas.FallbackWithoutCancel | project_builder.py:335-364 | without cancellation the verdict is True iff all or at least one package was installed, and the last message reports that count |
| InstallerLemmas.FallbackCancelledAtOnce | project_builder.py:340-342 | a flag set at the first check gives False with no command and no message |
| InstallerLemmas.InstalledFrom | project_builder.py:344-354 | the reference count of packages that their own command installs is at most the number of packages |
| InstallerLemmas.CancelledAttemptIsLast | project_builder.py:340-354 | a flag clear before an attempt and set at the next check makes that attempt the last: its command is the only one, its events the only ones, the loop ends unfinished unless the package was the last, and it counts as installed iff its command exited with 0 |
| InstallerLemmas.RunnerCancelledAttemptIsLast | project_builder.py:238-354 | a flag set while an install command streams kills it: that attempt is the last, nothing counts as installed, and the loop's events end with the cancellation warning, the failure line and the progress event |
| InstallerLemmas.FallbackCancelledFails | project_builder.py:340-342 | a loop stopped by the flag gives False, posts no closing message and launched fewer commands than there are packages |
| InstallerLemmas.ProgressEventsAppend | project_builder.py:353-354 | the progress events of two logs, one after the other, are those of the first followed by those of the second |
| InstallerLemmas.AttemptProgress | project_builder.py:353-354 | one attempt posts exactly one progress event, `i/n` for its own package |
| InstallerLemmas.LoopProgress | project_builder.py:340-354 | the loop posts exactly one progress event per command launched, numbered consecutively from its start |
| InstallerLemmas.FallbackProgress | project_builder.py:335-364 | the fallback's progress events are `1/n`, `2/n`, … up to the number of commands launched |
| Installer.AggregateMessageCases | project_builder.py:356-362 | the contract of `AggregateMessage`: the closing message says all were installed iff every package was, none iff none of a non-empty list was, and otherwise gives the count out of the total |
| Installer.SkipWarnings | project_builder.py:313-318 | the skip warnings are early-step messages only |
| InstallerLemmas.SkipWarningsReportRejected | project_builder.py:311-318 | each entry is either kept or warned about, never both; each warning names a rejected entry; each rejected entry gets its warning |
| InstallerLemmas.AllValidKept | project_builder.py:311-318 | a list of accepted entries is kept whole and in order |
| Installer.BatchCommandSafe | project_builder.py:325 | the batch command over accepted names passes only accepted names to pip |
| Installer.FallbackCommandsSafe | project_builder.py:335-346 | the fallback over accepted names launches only install commands of accepted names |
| Installer.BatchThenFallback | project_builder.py:324-333 | the batch command over the validated packages is the first command launched |
| Installer.InstallBatch | project_builder.py:304-333 | with no valid entry the verdict is True with no command and no flag read; otherwise the first command is the batch command over exactly the valid entries |
| Installer.BatchThenFallbackShape | project_builder.py:324-333 | the batch command goes first, every command passes only accepted names, and only early-step messages are posted |
| Installer.InstallBatchShape | project_builder.py:304-333 | the whole strategy posts early-step messages only, and every command it launches passes only accepted names to pip |
| InstallerLemmas.RejectedNeverInstalled | project_builder.py:304-333 | a rejected entry is never a package argument of any command the strategy launches |
| InstallerLemmas.NothingToInstall | project_builder.py:306-322 | an empty list, or one with no valid entry, gives True with no command and no flag read; the second case ends with the no-valid-packages message |
| InstallerLemmas.BatchAfterScreen | project_builder.py:309-333 | with a valid entry, the strategy is the screening messages followed by the batch attempt |
| InstallerLemmas.BatchSucceedsAlone | project_builder.py:324-330 | a batch command that exits with 0 is the only command; the verdict is True and the success message is last |
| InstallerLemmas.BatchFailureThenEach | project_builder.py:324-364 | after a failed batch command, one command per valid package follows in order; the verdict is True iff at least one was installed; the count message is last |
| InstallerLemmas.BatchFailureFallsBack | project_builder.py:304-364 | the same for the whole strategy, over the validated entries |
| InstallerLemmas.VerdictWithoutCancel | project_builder.py:304-364 | without cancellation the strategy returns True iff nothing valid is to be installed, the batch command exits with 0, or some per-package command does |
| InstallerLemmas.SetStaysSet | project_builder.py:238 | once the flag is seen set, every later read sees it set |
| InstallerLemmas.BatchCancelled | project_builder.py:238-333 | a flag set while the batch command streams kills it; the fallback stops at its first check; the verdict is False, the batch command is the only command, and the cancellation and batch-failure warnings are the last two messages |
| InstallerLemmas.CancelledBeforeBatch | project_builder.py:324-342 | a flag set before installation still launches the batch command, which the runner kills; the fallback stops at its first check; the verdict is False and the batch-failure warning is last |
| Pipeline.LayoutFrom | project_builder.py:255-275 | the rest of the layout loop never returns early and changes nothing but the messages |
| Pipeline.CreateDirectoryStructure | project_builder.py:255-275 | the layout step never returns early and changes nothing but the messages |
| Pipeline.Cleanup | project_builder.py:529-536 | cleanup changes only the messages and the venv's presence; the venv counts as removed iff it already was or cleanup applies and removal succeeds |
| Pipeline.CreateVenv | project_builder.py:277-302 | venv creation launches the venv command or nothing; going on means the venv is on disk and the command was launched; it leaves the verdict and the removal record alone |
| Pipeline.VenvStep | project_builder.py:553-560 | the venv path is recorded and the verdict kept; going on means the venv is on disk and was not removed by this step |
| Pipeline.PipAndInstall | project_builder.py:562-592 | step 4 never raises and keeps the verdict; with neither pip nor python it returns early without launching anything |
| Pipeline.Install | project_builder.py:577-592 | installation never raises and keeps the verdict; an empty package list goes on without launching anything |
| Pipeline.EarlySteps | project_builder.py:541-592 | steps 1 to 4 keep the verdict |
| Pipeline.WriteRequirements | project_builder.py:366-379 | writing `requirements.txt` posts exactly one message and changes nothing else |
| Pipeline.CreateReadme | project_builder.py:381-446 | writing the README posts exactly one message and changes nothing else |
| Pipeline.CreateGitRepo | project_builder.py:448-527 | git initialization changes only the messages, never returns early, and raises iff the version probe faults |
| Pipeline.LateSteps | project_builder.py:594-618 | the late steps never return early and launch nothing; they go on iff git is not requested or its probe does not fault, and then the run is successful with the size recorded |
| Pipeline.Steps | project_builder.py:540-618 | the `try` block sets success iff it goes on through every step; a stop leaves the verdict as it was |
| Pipeline.Finalize | project_builder.py:620-628 | the handler and the `finally` block only add messages, and the completion event comes last |
| Pipeline.RunFrom | project_builder.py:538-628 | a run always ends with the completion event |
| Pipeline.Run | project_builder.py:538-628 | a run from the initial state ends with the completion event; a folder that cannot be created gives a failed run with no command |
| PipelineLemmas.LayoutShape | project_builder.py:255-275 | the layout loop never returns early; it only appends early-step messages; it goes on exactly when every remaining directory and `__init__.py` is created, and otherwise raises |
| PipelineLemmas.CleanupShape | project_builder.py:529-536 | cleanup posts at most one early-step message, launches nothing, reads no flag and keeps the venv path and the verdict |
| PipelineLemmas.CleanupAfter | project_builder.py:529-536 | cleanup removes the venv iff the option is set, the path is set, the venv is on disk and removal succeeds; a failed removal is its last message |
| PipelineLemmas.CreateVenvShape | project_builder.py:277-302 | venv creation posts early-step messages and launches only the venv command; when it goes on the venv is on disk; without cancellation it goes on iff the probe allows writing and the command exits with 0 |
| PipelineLemmas.VenvStepShape | project_builder.py:553-560 | the venv path is recorded; when the step goes on the venv is on disk; the venv is removed only by the cleanup after a failed build with the option set; without cancellation the step goes on iff the venv existed or the probe allows writing and the venv command exits with 0 |
| PipelineLemmas.InstallShape | project_builder.py:577-592 | installation never raises; it posts early-step messages and launches only pip commands over accepted names or the one `python -m pip` command; going on leaves the venv alone; returning early removes it iff cleanup applies and removal succeeds, and a failed removal is the last message |
| PipelineLemmas.PipShape | project_builder.py:562-592 | the same for step 4 as a whole, where a missing pip and python is one more early return with cleanup |
| PipelineLemmas.PipVerdict | project_builder.py:562-592 | without cancellation, step 4 goes on iff installation succeeds for the located pip |
| PipelineLemmas.EarlyShape | project_builder.py:541-592 | steps 1 to 4 post early-step messages only, launch only the venv command and install commands, and never mark success; a failed folder returns at once with one error line; the venv is removed only after a failed venv, pip or install step, past the folder and the layout, with the option set |
| PipelineLemmas.EarlyVerdict | project_builder.py:541-592 | without cancellation, steps 1 to 4 go on iff the folder, the layout, the venv and the installation all succeed |
| PipelineLemmas.EarlyCleanup | project_builder.py:577-590 | without cancellation, a failing installation after a ready venv returns early and removes the venv iff the option is set and removal succeeds; a failed removal is the last message |
| PipelineLemmas.GitShape | project_builder.py:448-527 | git initialization only posts messages, never returns early, and raises iff the version probe faults |
| PipelineLemmas.FilesShape | project_builder.py:594-603 | requirements, README and git only post messages, and go on iff git is not requested or its probe does not fault |
| PipelineLemmas.LateShape | project_builder.py:594-618 | the late steps launch nothing and leave the venv alone; they go on iff git does not raise, and success is set exactly then, with the size recorded and the success event and the summary last |
| PipelineLemmas.StepsShape | project_builder.py:540-618 | steps 1 to 9 launch only the venv command and install commands; they go on iff steps 1 to 4 do and git does not raise; success is set exactly then, with the success event and the summary last; a stop in steps 1 to 4 is final |
| PipelineLemmas.FinalizeShape | project_builder.py:620-628 | the handler posts the two error lines only after a raised fault; the `finally` block posts the failure event iff the run did not succeed, and the completion event always last; the verdict is left as the steps set it |
| PipelineLemmas.FinalizeSucceeded | project_builder.py:609-628 | after a successful run the `finally` block adds the completion event only, so the success event and the summary stay just before it and the run stays successful |
| PipelineLemmas.FinalizeFailed | project_builder.py:618-628 | after a failed run the failure event and then the completion event close the log, with the two error lines just before them when a fault escaped; the run stays unsuccessful |
| PipelineLemmas.RunEnds | project_builder.py:538-628 | every run ends with the completion event; a successful run has the success event and the summary just before it; a failed run has the failure event just before it; an escaped fault is reported by two error lines before that |
| PipelineLemmas.FinalEventsPlaced | project_builder.py:610-628 | in a log of that shape, the success and failure events each appear iff the run did or did not succeed, the summary appears only in its place, and the completion event appears only last |
| PipelineLemmas.DoneMatchesSuccess | project_builder.py:610-628 | the UI sees the success event iff the run succeeded and the failure event iff it did not; it sees the summary only in a successful run, and the completion event only last |
| PipelineLemmas.SuccessIffGates | project_builder.py:538-628 | without cancellation, a run succeeds iff the folder, the layout, the venv and the installation succeed and git does not raise |
| PipelineLemmas.EarlyNeeds | project_builder.py:541-592 | steps 1 to 4 go on only past a created folder and layout, a usable or writable venv, and a located pip or python |
| PipelineLemmas.SuccessNeedsGates | project_builder.py:538-628 | whatever the flag does, a successful run has passed every gate that does not depend on it |
| PipelineLemmas.FailedGateStopsRun | project_builder.py:541-590 | a run stopped in steps 1 to 4 does not succeed, reports size 0, ends with the failure and completion events, and runs no later step |
| PipelineLemmas.FolderFailure | project_builder.py:542-547 | a folder that cannot be created gives exactly the error line, the failure event and the completion event, and nothing else |
| PipelineLemmas.CleanupOnlyAfterGate | project_builder.py:529-590 | the venv is removed only after a failed gate, with the option set and removal succeeding |
| PipelineLemmas.InstallFailureCleansUp | project_builder.py:583-590 | a failing installation removes the venv iff the option is set and removal succeeds; a failed removal is reported |
| PipelineLemmas.VenvFailureCleansUp | project_builder.py:556-559 | a failing venv command is the only command; the partial venv is removed iff the option is set, it was left on disk and removal succeeds |
| PipelineLemmas.CommandsOfRun | project_builder.py:538-628 | every command of a run is the venv command, a pip install command over accepted names, or, without a pip executable, the `python -m pip` command |
| PipelineLemmas.PythonPathUnscreened | project_builder.py:577-586 | on the `python -m pip` path the single command carries the package list exactly as given |
| PipelineLemmas.FlagIgnoredBetweenSteps | project_builder.py:538-618 | with nothing to install and a reused venv, the run succeeds without reading the flag and without launching any command, whatever the flag says |
| Worker.ProjectWorker.constructor | project_builder.py:182-193 | a new worker has no messages, no commands, no flag reads, no success, no venv path and size 0 |
| Worker.ProjectWorker.Report | project_builder.py:356-364 | the verdict is True iff all or at least one package was installed, and exactly the count message is posted |
| Worker.ProjectWorker.WriteRequirements | project_builder.py:366-379 | the new state is that of the requirements function, and the result reports its outcome |
| Worker.ProjectWorker.CreateReadme | project_builder.py:381-446 | the new state is that of the README function, and the result reports its outcome |
| Worker.ProjectWorker.InstallOne | project_builder.py:344-354 | one pass of the fallback loop returns the command's code and leaves the state the attempt function gives |
| Worker.ProjectWorker.EarlySteps | project_builder.py:541-592 | steps 1 to 4 leave the flow and state the early-steps function gives |
| Worker.ProjectWorker.LateSteps | project_builder.py:594-618 | steps 5 to 9 leave the flow and state the late-steps function gives |
| Worker.ProjectWorker.Steps | project_builder.py:540-618 | the `try` block leaves the flow and state the steps function gives |
| Worker.ProjectWorker.Finish | project_builder.py:620-628 | the handler and the `finally` block leave the state the finishing function gives |
| Worker.ProjectWorker.VenvStep | project_builder.py:553-560 | the flow and new state are those of the venv step function |
| Worker.ProjectWorker.PostMessage | project_builder.py:195-197 | posting appends exactly one message and changes nothing else |
| Worker.ProjectWorker.IsCancelled | project_builder.py:238 | a flag read reports the flag at the current read and counts the read |
| Worker.ProjectWorker.RunCommandStream | project_builder.py:218-253 | the streaming loop leaves the state and returns the code that the runner's function gives |
| Worker.ProjectWorker.AttemptEach | project_builder.py:340-354 | the `for` loop over the packages ends with the state, the finished flag and the success count that the loop function gives |
| Worker.ProjectWorker.InstallPackagesIndividual | project_builder.py:335-364 | the method's verdict and new state are those of the fallback function |
| Worker.ProjectWorker.ScreenPackages | project_builder.py:311-318 | the validation loop keeps exactly the accepted entries and posts exactly the skip warnings |
| Worker.ProjectWorker.InstallPackagesBatch | project_builder.py:304-333 | the method's verdict and new state are those of the strategy function |
| Worker.ProjectWorker.CleanupPartial | project_builder.py:529-536 | the new state is the cleanup function's |
| Worker.ProjectWorker.CreateDirectoryStructure | project_builder.py:255-275 | the layout loop's flow and new state are the layout function's |
| Worker.ProjectWorker.CreateVenv | project_builder.py:277-302 | the flow and new state are those of the venv function |
| Worker.ProjectWorker.PipAndInstall | project_builder.py:562-592 | the flow and new state are those of the pip-and-install function |
| Worker.ProjectWorker.CreateGitRepo | project_builder.py:448-527 | the flow and new state are those of the git function |
| Worker.ProjectWorker.Run | project_builder.py:538-628 | the new state is exactly that of `Pipeline.RunFrom`, about which the `PipelineLemmas` above are proved |

## Left out

- The Tkinter UI is not modelled: windows, dialogs, the message-queue polling loop and the log widget. This includes the `askyesno` prompts in `on_create`, so the list reaching the worker is a parameter.
- Threading is not modelled. The worker runs as one sequential program. The flag that another thread sets is `Oracles.Cancel`: the k-th read finds it set from some read on.
- Subprocesses are not run. What each command prints and its exit code are the function `Env.run`, of the launch number and the command, so a command launched again may behave differently. A launch fault is one of its outcomes.
- The runner's extra flag reads while it waits for a process that has closed its output are not counted. Each line, and the end of the output, is one read.
- Trailing whitespace is not removed from output lines (`rstrip`). A relayed line is the line as the oracle gives it.
- The file system is reduced to yes/no outcomes per step, as `Env` fields: folder, layout directories, `__init__.py`, venv existence, write probe, pip and python existence, `rmtree`, `requirements.txt`, README. The model does not hold file contents, paths on disk or timestamps.
- `which_pip_in_venv` and `which_python_in_venv` are not modelled (they depend on the OS). Their results are `Env.pipPath` and `Env.venvPython`.
- The bodies of `write_requirements`, `create_readme` and `create_git_repo` are reduced to their outcome messages. The git subprocess calls are not recorded among the launched commands.
- `calculate_project_size` is an oracle (`Env.size`). `format_size` uses floating point and is left out. The size message and the summary carry the byte count, not the formatted text.
- Progress is an index/total pair, not the float `idx / total`.
- Exception texts and the traceback text are not modelled; only where they are posted is.
- Message texts are constructors of `Events.Msg`, not formatted strings. The validator's own messages are the exception: they are modelled as text.
- Saving the configuration file and the rest of the UI's settings code are not modelled. Only the recent-projects update is.
- Installer.StreamShape: states the shape of a stream only; the exact lines relayed and reads made, for whichever read finds the flag set, are `Installer.StreamExact`.
- Installer.RunShape: states the shape of one command only; its exact outcome is `Installer.RunExact`.
- PackageText.PackagesFromText: its own contract gives the form of each entry only. The exact entries are stated for text without `#` (`PackageText.TextWithoutComments`); with `#` lines, line by line through `PackageText.SplitLinesOfLine`, `PackageText.SplitLinesAtBreak`, `PackageText.PackagesOfLinesAppend`, `PackageText.LineWithoutComment` and `PackageText.CommentLinesSkipped`.
- PackageText.Words: its own contract gives the form of each word only; what the words are is `PackageText.WordsKeepText`, `PackageText.WordsSplit`, `PackageText.WordsOfToken` and `PackageText.WordsEmpty`.
- The message kind that picks the log colour (`log`, `ok`, `warn`, `error`, `info`) is not modelled. Each `Msg` constructor stands for one message with its kind.
