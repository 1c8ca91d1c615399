# A verified model of Fridica's hard parts

Fridica answers a person's Slack mentions with worker agents. It reads Slack over a live socket and
by catching up, limits how often it replies, confines its workers' files, keeps its configuration,
approvals and thread controls in a durable store, and reads attachments and pull requests. This
project models the parts of it where a small mistake loses a message, shows a private file or lets
something happen twice, and proves what they promise.

Every `.dfy` file is one module, named after what it models.

| Files | What they model |
|---|---|
| `SlackIntake`, `Catchup`, `CatchupRuns`, `CatchupService` | intake, the watermark protocol of catch-up as a transition system, and the service whose passes are runs of it |
| `ReplyLimiter` | the rolling-hour limit on replies |
| `PathText`, `MountPlan`, `IsolationHelper` | which mounts a confined worker gets, and what they mean |
| `ShellText`, `ShellTokens`, `ShellSession` | a model of the shell: what text is read as, and what commands run in turn expand to |
| `SandboxView` | what the confinement's bubblewrap argv means: its flags read into mounts, and what is writable behind them |
| `Confinement`, `Watchdog`, `RemoteScript`, `RemoteTokens`, `RemoteSession` | the script for a remote machine, read back and run by that model |
| `EditJournal` | configuration edits under crashes and competing writers |
| `ApprovalBroker` | approval requests, owner decisions, expiry and reload as interleaved steps |
| `ThreadControl` | owner controls of a thread and repeated instructions |
| `SlackFiles`, `GithubChecks`, `Redaction`, `ContractSections`, `ConcurrencySweep` | the UTF-8 cut and budgets, CI paging and verdict, redacted diagnostics, contract sections, the interval sweep |
| `TextTrim`, `Wrappers` | white space, `Option` and `Result` |

How the models are built:

- Times are whole microseconds. Durable state is a value; a transaction (`transact`) is one step that
  happens entirely or not at all. What the store's own methods do is taken by a short contract, said
  in the comment of the function that stands for it: `keep_message` refuses a stored event or a stored
  (workspace, channel, ts); `recent_replies` is the session's counted replies of the last hour in order;
  settling and cancelling approvals change pending rows only.
- Code that updates state in place is a class or a loop (`CatchupService.Service`, `SlackIntake.Store`,
  `ReplyLimiter.Desk`, `ApprovalBroker.Broker`, `ThreadControl.Store`, `EditJournal.ConfigFile`, and the
  loops of the parsers), proved equal to the value-level step that the theorems are about.
- The shell is a character-by-character reader after sections 2.2.1 to 2.2.3, 2.3 and 2.6 of the POSIX.1-2017
  Shell Command Language. Words are read with their expansions left open, and expanded when their command is
  run, in the environment the exports and assignments before it leave (sections 2.9.1 and 2.9.3). Well-formed
  UTF-8 is section 4 of RFC 3629.
- Concurrency is interleaving: a run is a sequence of worlds or of events, in any order the guards allow.

## What the proofs found

Where the code and a plausible promise differ, the code is modelled as it is and the exact condition is proved.

- **No loss starts at the first committed pass.** A first pass that fails leaves no mark, and the next one
  starts a window before its own time: whatever its window, and whenever the later one runs, a message that
  falls between them is lost (`CatchupRuns.FailedFirstPassMayLose`).
- **A mark can move back**, exactly when a commit advances it and its pass took its time before the mark
  it read (`CatchupRuns.MarkMovesBackExactly`): after a window of less than a minute pinned a mark in the
  future (`CatchupRuns.ShortWindowMovesMarkBack`, with the exact condition in `CatchupRuns.FreshPinExactly`),
  or with two services (`CatchupRuns.TwoServicesMoveMarkBack`). Both are proved as runs.
- **A live event that carries another message's catch-up ID hides that message from catch-up**, in every run
  without that message's own live delivery (`CatchupRuns.ForgedIdHides`). Slack's own event IDs begin with
  `Ev`, so it takes a sender other than Slack; nothing in the intake refuses such an ID.
- **A reply's counted instant moves to its delivery.** The bound over the instants the store counts by holds
  all along a run if and only if no delivery comes an hour or more after its reservation while the other
  replies of that hour fill a limit (`ReplyLimiter.CountedBoundExactly`); it can fail
  (`ReplyLimiter.LateDeliveriesMayOverfill`). Over the instants of reservation it always holds.
- **A deferral's instant is exact as long as the session's replies stay**, whatever else happens
  (`ReplyLimiter.DeferralExact`). A delivery in the session can put it off
  (`ReplyLimiter.DeliveryDefersAgain`): a retry at that instant is granted if and only if the replies then counted,
  with those reserved an hour or more before it and delivered since, less those released, stay below each limit
  (`ReplyLimiter.RetryAtDeadline`).
- **An exported `HOME` is the home of every line after it**, the confined directories included: nothing refuses
  the name (`RemoteSession.SetupReads`, `RemoteSession.InnerScript`).
- **A secret can be shown again after redaction** if the join makes it from another blank or it can overlap the
  mark. It never is, if and only if it is not of that kind (`Redaction.SecretsStayOut`).
- **An edit's recovery refuses when the file holds something else than the intent's two contents, or changed
  since it was loaded**, exactly then (`EditJournal.VerifyIsExact`). Until it settles, the file holds one of the two
  unless an outside program, or an unjournaled writer whose `before` names one of them, puts another there
  (`EditJournal.OldOrNewExactly`).
- **A download of exactly the limit with no reported size is not recognized as cut**, so a character that
  lies across the limit makes the file "not UTF-8" (`SlackFiles.CutIsExact`, `SlackFiles.LimitMayRefuse`).
- **A check-run page without `total_count` is certified complete**, wrongly for exactly the lists of more
  than 100 runs (`GithubChecks.UncountedChecks`).
- **A contract body with a line that starts a heading, or one before the last that ends in a bare `##`, does
  not come back**; all others do (`ContractSections.RoundTripExactly`).
- **A repeated instruction is refused after a clean**, exactly then, because its text was erased
  (`ThreadControl.RepeatedInstruction`).

## Model

| member | source | states |
|---|---|---|
| `ReplyLimiter.RoomStays` | src/attention/mod.rs:174-195 | for rows that stay as they are, room that exists at one instant exists at every later one |
| `ReplyLimiter.FromTheEnd` | src/attention/mod.rs:177-179 | in an ascending list the k-th entry from the end decides whether at least k entries are younger than an instant |
| `ReplyLimiter.DeadlineExact` | src/attention/mod.rs:177-188 | the k-th reply from the end plus an hour is the first instant at which fewer than k replies count, tied timestamps included |
| `ReplyLimiter.EventCounts` | src/attention/mod.rs:174-184 | the list the store returns at `now` gives the session's true counts, all and peer, at every later instant |
| `ReplyLimiter.RoomByDeadlines` | src/attention/mod.rs:175-190 | there is room at an instant exactly when the deadlines of both limits have passed by then |
| `ReplyLimiter.Desk.Reserve` | src/attention/mod.rs:146-198 | one transaction: granted, deferred to the earliest instant with room, granted again for the same item, or refused, and exactly the rows that go with it |
| `ReplyLimiter.ReservedExactly` | src/attention/mod.rs:174-195 | counted over the rows themselves: the owner's reply is always granted and appends its row; a person's is deferred if and only if the session's counted rows of the last hour reach the limit, a peer's if and only if they do or the peer rows among them reach theirs; and then to the first instant at which they no longer do |
| `ReplyLimiter.RefusedExactly` | src/attention/mod.rs:146-172 | what is refused: a thread that is not active, an item that is not open in it, an item with a sent reply and no reserved one; an item with a reserved reply is granted again without another row |
| `ReplyLimiter.DeferralExact` | src/attention/mod.rs:161-195 | a reservation deferred to u is deferred to the same u at every retry before it and granted at u or later, over every run in between of other sessions' reservations, deliveries and releases, reservations that grant nothing and anything elsewhere |
| `ReplyLimiter.RetryAtDeadline` | src/attention/mod.rs:174-195 | over every run without a grant in the session, a retry at u is granted if and only if the rows counted at u when it was deferred, with those reserved an hour or more before u and delivered since, less those released, stay below each limit that counts them |
| `ReplyLimiter.PromptDeliveriesGrant` | src/attention/mod.rs:174-195 | releases, and deliveries of replies reserved less than an hour before u, never keep the retry at u from being granted |
| `ReplyLimiter.DeliveryDefersAgain` | src/attention/mod.rs:174-195 | a run with limits of one in which a delivery makes the retry at the promised instant be deferred again |
| `ReplyLimiter.GrantKeepsWindow` | src/attention/mod.rs:176-189 | a granted non-owner reply leaves every hour-long window of the session within the limits |
| `ReplyLimiter.StepKeepsBound` | src/attention/mod.rs:146-198 | reservations, deliveries and releases all keep the window bound and one live row for each inbox item |
| `ReplyLimiter.RollingHourBound` | src/attention/mod.rs:146-198 | in every run from an empty book, every hour-long window of every session holds at most the configured non-owner and peer replies, each by the instant it was reserved, released ones apart |
| `ReplyLimiter.DeliveryBreaksExactly` | src/attention/mod.rs:174-195 | a delivery breaks the bound over the counted instants if and only if its non-owner reply was reserved an hour or more ago and the replies counted in the last hour already fill a limit that counts it |
| `ReplyLimiter.CountedBoundExactly` | src/attention/mod.rs:174-195 | over every run from an empty book, the counted instants stay within the limits all along if and only if no delivery came an hour or more after its reservation while the other replies of that hour filled a limit |
| `ReplyLimiter.PromptDeliveriesKeepBound` | src/attention/mod.rs:174-195 | when every delivery comes less than an hour after its reservation, every hour-long window of counted instants stays within the limits |
| `ReplyLimiter.LateDeliveriesMayOverfill` | src/attention/mod.rs:174-195 | a run with limits of one in which two replies come to be counted in the same hour, delivered late |
| `SlackIntake.TakenAppends` | src/attention/mod.rs:105-143 | an intake only appends rows, and afterwards the message's key or event is stored |
| `SlackIntake.TakenKeepsConsistent` | src/attention/mod.rs:105-143 | an intake keeps one row for each key and event, one inbox item for each event and one obligation for each key |
| `SlackIntake.TakenKeepsQueueing` | src/attention/mod.rs:122-130 | taking any message in changes nothing about whether an already stored event is queued |
| `SlackIntake.NewIsStored` | src/attention/mod.rs:105-121 | a message with a new event and place is stored as it came, as the last row |
| `SlackIntake.QueuedExactly` | src/attention/mod.rs:86-130 | a new message's event is queued, for its thread, if and only if Fridica did not send it and it is live, recent enough, mentions the owner or its thread waits |
| `SlackIntake.MentionedExactly` | src/attention/mod.rs:128-143 | it opens an obligation, due after the grace, if and only if it is queued, mentions the owner and is not the owner's |
| `SlackIntake.RepeatedIsIgnored` | src/attention/mod.rs:105-124 | a message whose event or place is stored changes no row of the model |
| `SlackIntake.Store.IntakeTx` | src/attention/mod.rs:68-144 | the transaction body leaves exactly the specified rows, refuses only an empty grace or a message that cannot be routed, and gives the inbox row when the message was queued |
| `SlackIntake.Store.Receive` | src/slack/receiver.rs:41-86 | an envelope is acknowledged unless it is a greeting or its message cannot be taken in; a supported message in scope is stored, an unsupported one that mentions the owner is noted, and nothing else changes a row |
| `Catchup.WholeIsEverything` | src/slack/catchup.rs:226-281 | a read is certified whole exactly when the served list ends within the page cap and the response budget, and then it is that list |
| `Catchup.CompleteReadsWindow` | src/slack/catchup.rs:175-225 | a complete reading holds every item the server lists inside the window |
| `Catchup.CompleteReadsThreads` | src/slack/catchup.rs:194-214 | in a complete reading every thread the store or the history read names was read, from its own part of the responses, to the end of the list served there, or was refused and is handed on |
| `Catchup.RepliesAreKept` | src/slack/catchup.rs:194-225 | every reply inside the window that a thread's read holds, its root apart, is among the reading's payloads |
| `Catchup.HistoryIsWhole` | src/slack/catchup.rs:226-281 | a channel's history is certified whole exactly when the served list ends within ten pages and 32 MiB |
| `Catchup.LastItemCounts` | src/slack/catchup.rs:175-193 | of history items with one timestamp the last one counts |
| `Catchup.FirstReplyCounts` | src/slack/catchup.rs:194-214 | a thread adds exactly its replies that are neither its root nor found before, the first of each timestamp |
| `Catchup.SkipsAreNoted` | src/slack/catchup.rs:111-116 | every refused root has a note afterwards, and each new note is of a refused root that had none, with its code |
| `Catchup.FirstReadIsFirst` | src/slack/catchup.rs:84-131 | a gap ends at the first message read, or at the pass itself |
| `CatchupRuns.CommitShape` | src/slack/catchup.rs:106-135 | a commit appends intake rows, sets one mark and adds one record, and nothing else |
| `CatchupRuns.CommitStoresWhatWasRead` | src/slack/catchup.rs:88-109 | each row a commit newly stores has the sender, text and thread of a listed item, under that item's place and catch-up ID |
| `CatchupRuns.CommitQueuesExactly` | src/attention/mod.rs:86-95 | of what a commit newly stores, exactly what is at most a day old, mentions the owner or stands in a waiting thread is queued |
| `CatchupRuns.MentionsAreNoted` | src/slack/catchup.rs:88-119 | a read item that cannot be taken in is noted if and only if it mentions the owner |
| `CatchupRuns.StartExactly` | src/slack/catchup.rs:143-172 | a pass reads from the beginning of the window, or from a minute before the mark, or the newest stored message without one, if that is earlier, and never more than seven days back |
| `CatchupRuns.MarkExactly` | src/slack/catchup.rs:125-131 | a complete pass, or a second truncated one in a row, sets the mark to its own time; a first truncated one pins it where it was, or a minute after its window begins; the second leaves a gap note |
| `CatchupRuns.FenceRefuses` | src/slack/catchup.rs:121-124 | a pass whose starting mark was changed by another service commits nothing at all |
| `CatchupRuns.ExactlyOnce` | src/attention/mod.rs:105-143 | over every interleaving of deliveries, redeliveries and passes, at most one stored message for each key and each event, one inbox item for each event, one obligation for each message |
| `CatchupRuns.LiveIsQueuedOnce` | src/attention/mod.rs:68-143 | over every run from its delivery on, a new, acceptable live message that Fridica did not send has exactly one inbox item, and it opened its obligation if it mentions the owner and is not the owner's |
| `CatchupRuns.ExactlyOnceByKey` | src/attention/mod.rs:68-143 | over every run a (workspace, channel, ts) has at most one stored message, one inbox item and one obligation, and once stored it is queued later if and only if it was queued then |
| `CatchupRuns.QueueingIsSettled` | src/attention/mod.rs:86-95 | by event: one first stored as history is never queued later, and a queued one stays queued, over every run |
| `CatchupRuns.PinnedAtMostOnce` | src/slack/catchup.rs:125-129 | over every run the truncation count is 0 or 1, 1 exactly when pinned, and no channel is pinned by two commits in a row |
| `CatchupRuns.MarkMovesBackExactly` | src/slack/catchup.rs:121-129 | a commit moves its channel's mark back if and only if it advances and its pass took its time before the mark it read |
| `CatchupRuns.FreshPinExactly` | src/slack/catchup.rs:127 | a first truncated pass pins a mark in the future if and only if its window is under a minute and either no message is stored or the newest bears a later time than the pass |
| `CatchupRuns.ShortWindowMovesMarkBack` | src/slack/catchup.rs:125-129 | for every window under a minute, a run of one service whose first truncated pass pins a mark in the future and whose next complete pass moves it back |
| `CatchupRuns.TwoServicesMoveMarkBack` | src/slack/catchup.rs:78-142 | for any window, a run of two services in which the one that took its time first commits last and moves the mark back |
| `CatchupRuns.MarkNeverMovesBack` | src/slack/catchup.rs:69-142 | with passes serialized by the pass lock, a clock that never goes back and windows of at least a minute, no mark moves back in any run |
| `CatchupRuns.CommitIsSound` | src/slack/catchup.rs:106-135 | one commit accounts for everything between the old mark's overlap and the new one's |
| `CatchupRuns.SoundStep` | src/slack/catchup.rs:68-142 | every step of every service keeps the no-loss invariant |
| `CatchupRuns.NoLoss` | src/slack/catchup.rs:68-142 | over every run with complete, truncated, pinned and failed passes, what Slack shows within a minute, from the first committed pass's start up to a minute before the mark, is stored, was seven days old at a committed pass, or lies in the window of a pass that noted a gap |
| `CatchupRuns.FailedFirstPassMayLose` | src/slack/catchup.rs:157-159 | for any window and time of a failed first pass and of a later first committed one, every message after the first's start that the second's window does not reach is accounted for by nothing, in a run with nothing else wrong |
| `CatchupRuns.ForgedIdHides` | src/slack/catchup.rs:222 | while a stored event of another message carries a message's catch-up ID, no run without that message's live delivery stores it |
| `CatchupRuns.ThreadsReadOrNoted` | src/slack/catchup.rs:113-116 | after a complete pass commits, every thread named by the store or by the history read was read to the end of the list served for it, or has a skipped-thread note |
| `CatchupService.ListedIsShown` | src/slack/catchup.rs:175-225 | what the server lists inside the window satisfies the no-loss theorem's premise about a complete reading |
| `CatchupService.Service.Pages` | src/slack/catchup.rs:226-281 | the page loop reads exactly what the specification reads off the same responses, to the same outcome and size |
| `CatchupService.Service.Recent` | src/slack/catchup.rs:175-225 | the reading is the window of history and of the threads read off the responses in turn, with its completeness and its gaps; it fails only when the history or a thread, after those below it, cannot be read |
| `CatchupService.Service.Begin` | src/slack/catchup.rs:143-172 | the window starts at the overlap before the mark or the newest stored message, at most seven days back |
| `CatchupService.Service.CommitPass` | src/slack/catchup.rs:103-135 | one all-or-nothing commit of intake, notes, fence and watermark; a refusal leaves every row as it was |
| `CatchupService.Service.Run` | src/slack/catchup.rs:68-142 | a whole pass over every channel is a run of the transition system, and its report counts that run's records |
| `ShellText.QuoteReads` | src/exec/shell.rs:3-12 | quoted text reads back as exactly its word, every character standing for itself, wherever a word may start or go on |
| `ShellText.DollarReads` | src/exec/shell.rs:16-28 | a parameter inside double quotes is that parameter, up to the character after its name |
| `ShellText.JoinRoundTrip` | src/exec/shell.rs:13-15 | the shell reads the joined text back as exactly the words, with no expansion in them, empty words and quote characters included |
| `Confinement.BuildConfinement` | src/exec/sandbox.rs:23-60 | the word loop builds exactly the specified argv, or refuses for exactly the invalid roots |
| `SandboxView.ArgvReads` | src/exec/sandbox.rs:23-60 | the argv, read flag by flag, is the namespaces and the ordered mounts of the layout, and the command after `--` unchanged |
| `SandboxView.ConfinementMeaning` | src/exec/sandbox.rs:23-60 | for every valid root list and home: what is last covered by a writable mount, /proc apart, is exactly what lies under a granted root, one of the three state paths, /tmp or /dev, and under none of the four settings paths; every bind shows a path as itself |
| `Confinement.PlanStands` | src/exec/sandbox.rs:23-60 | the remote plan stands word for word for the local plan of the remote home |
| `Confinement.RemoteIsLocal` | src/exec/sandbox.rs:23-70 | for every root list and every HOME, the rendered remote text evaluates to exactly the local argv, and one is refused just when the other is |
| `RemoteScript.BuildRemoteScript` | src/exec/ssh.rs:97-146 | the lines are pushed in the specified order, and the request is refused for exactly the specified reasons |
| `RemoteScript.RefusedExactly` | src/exec/ssh.rs:105-135 | a request is refused if and only if it names no command, holds a NUL or an empty directory, exports under a bad name, has a root that is neither absolute nor under the home, or a deadline past 64 bits |
| `RemoteScript.DefaultsCoverSettings` | src/exec/sandbox.rs:18-22 | exactly the settings files that are made read-only, the hooks apart, are created first where they are missing, empty |
| `RemoteScript.OuterShell` | src/exec/ssh.rs:144-146 | the login shell sees exactly `exec sh -c` and the inner script, unchanged |
| `RemoteScript.AgentPart` | src/exec/ssh.rs:114-132 | the agent's part reads back as the local confinement words for the remote HOME and the original command |
| `RemoteSession.SetupReads` | src/exec/ssh.rs:97-131 | the setup lines are read as the template, and run in turn they give every exported value as itself and the directories and files of the home directory that the exports leave, an exported `HOME` included |
| `RemoteTokens.PrepareReads` | src/exec/sandbox.rs:92-102 | each default file's line reads as its test, its redirection and the file under the remote home |
| `RemoteTokens.LaunchReads` | src/exec/ssh.rs:67-87 | the watchdog's launch line reads as two starts of exactly the agent, with and without `setsid`, on the private pipe |
| `Watchdog.PiecesRead` | src/exec/ssh.rs:67-86 | a fixed command of the watchdog is read as exactly its pieces: words, parameters, expansions and operators |
| `Watchdog.MktempReads` | src/exec/ssh.rs:70 | the command substitution, its quotation and its inner expansion included, is read to its own end as one expansion |
| `RemoteSession.InnerScript` | src/exec/ssh.rs:97-146 | the whole inner script of a short command is read token by token as the template, and run in turn every inserted word comes out unchanged, for the home directory that the exports leave |
| `RemoteSession.LaunchedAgent` | src/exec/ssh.rs:67-87 | a long-lived channel's launch line, run alone, starts exactly the confinement words and the command |
| `ShellSession.PlayedConcat` | src/exec/ssh.rs:144-146 | commands joined by `;` run one after the other, the later ones in the environment the earlier ones leave |
| `RemoteSession.BeforeLeaves` | src/exec/ssh.rs:68-76 | the watchdog's commands before the launch set the private directory, the pipe in it and two empty parameters, and change nothing else |
| `RemoteSession.LaunchInScript` | src/exec/ssh.rs:67-146 | the whole script of a long-lived channel, the watchdog's own lines included, is read token by token as the template; when the launch line is reached it starts exactly the confinement words and the command, on the pipe in the directory `mktemp` named, whatever was exported |
| `PathText.PathNormal` | src/exec/settings_paths.py:12-20 | an accepted path is absolute, with no empty, `.` or `..` component and no trailing slash |
| `PathText.PathKeepsNames` | src/exec/settings_paths.py:12-20 | exactly the absolute texts without NUL and dot components are accepted, and their components are kept in order |
| `PathText.WithinIsPrefix` | src/exec/settings_paths.py:21-22 | a normal path lies at or under another exactly when it begins with the other's components |
| `PathText.WithinComparable` | src/exec/settings_paths.py:21-22 | two paths that hold the same path are nested one way or the other |
| `PathText.DirnameOf` | src/exec/isolation_helper.py:57 | a normal path lies within its own directory, which is normal and shorter |
| `MountPlan.RemountAllHits` | src/exec/isolation_helper.py:135-136 | remounting turns the topmost mount at each mask's path read-only |
| `MountPlan.MaskStaysOnTop` | src/exec/isolation_helper.py:102-136 | no later mount replaces a mask at the mask's own path |
| `MountPlan.SettingsMiss` | src/exec/isolation_settings.py:74-78 | the layer rule keeps every restored settings file from covering a private file |
| `MountPlan.PrivateIsMasked` | src/exec/isolation_helper.py:99-137 | the last mount covering any private file is a mask |
| `MountPlan.WritableOnlyThere` | src/exec/isolation_helper.py:99-137 | whatever is seen through a writable mount, the fresh /proc apart, lies under the workspace, a backend-state root, /tmp or /dev |
| `MountPlan.HooksAreReadOnly` | src/exec/isolation_helper.py:121-123 | whatever lies at or under the hooks directory is last covered by a read-only mount |
| `MountPlan.SettingsAreReadOnly` | src/exec/isolation_helper.py:124-133 | a restored settings file is last covered by its own copy, writable just when it is the client state |
| `MountPlan.RestIsWritable` | src/exec/isolation_helper.py:110-137 | what lies in the workspace or a present state root, outside hooks and restored settings, is seen through a writable mount if and only if the launch is no preflight |
| `MountPlan.DirectoriesAreWritable` | src/exec/isolation_helper.py:110-137 | so are the workspace and each state directory themselves, but for a workspace inside the hooks, which is read-only |
| `MountPlan.PlanMeaning` | src/exec/isolation_helper.py:57-137 | for every admitted plan: masks apart and over every private directory; each private file masked read-only and without a second name; writable views only where allowed; the hooks and all in them read-only; each restored settings file seen through its own read-only copy, the client state a writable one; the rest of the workspace and of the present backend state writable if and only if the launch is no preflight |
| `IsolationHelper.ChooseIs` | src/exec/isolation_helper.py:57-63 | keeping a mask unless a kept one holds it, shortest first, leaves masks that are pairwise apart and hold every candidate |
| `IsolationHelper.ChosenMasks` | src/exec/isolation_helper.py:57-63 | the chosen masks are right for the private files unless one of them lies in the root |
| `IsolationHelper.SelectMasks` | src/exec/isolation_helper.py:58-63 | the selection loop gives exactly the chosen masks, or refuses exactly when one is the root |
| `IsolationHelper.ReadLayers` | src/exec/isolation_settings.py:72-82 | the layer loop reads exactly the layers that no mask hides and refuses for exactly the modelled reasons |
| `IsolationHelper.LayersNormal` | src/exec/isolation_settings.py:27-57 | every settings candidate is a normal path |
| `IsolationHelper.LayersAre` | src/exec/isolation_settings.py:27-57 | the candidates are exactly the owner's four files, the system's two, Codex's profiles, and the four project files of the workspace and of every directory above it |
| `IsolationHelper.Admit` | src/exec/isolation_helper.py:43-92 | a parsed request is refused exactly for the modelled reasons, and otherwise gives the plan they leave |
| `IsolationHelper.PlanHolds` | src/exec/isolation_helper.py:39-92 | every file named in the request and what it resolves to is private; exactly the present state roots are mounted; the settings restored are exactly the layers that are present and not hidden by a mask |
| `IsolationHelper.BuildPlan` | src/exec/isolation_helper.py:25-137 | from the raw request to the mount list, refused for the modelled reasons: an accepted request's plan is admitted, so it has the meaning above |
| `EditJournal.RenameIsCompareAndReplace` | src/config/editor.rs:127-195 | over every interleaving, with collision-free fingerprints, a rename puts its own source in place of exactly the content its `before` names |
| `EditJournal.JournalIsTruthful` | src/threads/configuration.rs:12-33 | over every run of edits, crashes, power losses, outside writers and recoveries, at most one intent is pending, and each settled one tells what was on disk at some instant after it was recorded: `after` if applied, `before` if not |
| `EditJournal.VerifyIsExact` | src/threads/configuration.rs:34-45 | over every run with any other writers: recovery decides on what the file holds both when it loaded it and when it verifies; it adopts the intent exactly for the `after` content, abandons it exactly for the `before` content, and otherwise refuses and leaves it pending |
| `EditJournal.RecoveryIsExact` | src/threads/configuration.rs:12-45 | over every such run, an intent that recovery finishes was pending when it verified and is settled by the content found then, as applied exactly for `after` |
| `EditJournal.OldOrNewExactly` | src/config/editor.rs:178-195 | from its recording for as long as an intent is pending, with any competing, stale, unjournaled or outside writers, file and durable copy hold its old or new content if and only if they did at its recording, no outside program put other content there and no unjournaled writer whose `before` names one of the two renamed other content there |
| `EditJournal.AlienIsForeign` | src/config/editor.rs:172-195 | while the file holds the old or the new content, any other rename that changes that is by such a writer: the author's and all stale ones leave one of the two or are refused |
| `EditJournal.RunIsAllOrNothing` | src/config/editor.rs:178-195 | with one journaled edit at a time, each prepared from the file as it stands, and no other writer: the file is synced whenever nothing is pending, and otherwise both copies hold the old or the new content, over every run of crashes and recoveries |
| `EditJournal.RecoveryNeverRefuses` | src/threads/configuration.rs:22-45 | recovery settles a pending intent, as applied exactly when the disk holds `after`, if it was recorded on its old content, synced, no such outside program or unjournaled writer acted since, and the file is left alone between load and verification; other writers may be at work |
| `EditJournal.ConfigFile.Replace` | src/config/editor.rs:127-195 | its steps are a run of the transition system; alone, it succeeds exactly when the source fits in bytes, the lock is free, the content is the named one and no step fails, and a refusal leaves the file as it was unless it came after the rename |
| `ApprovalBroker.StepInv` | src/approvals/mod.rs:50-217 | every step of every request, decision, expiry, cancellation and reload keeps the invariant the theorems below are read off |
| `ApprovalBroker.StepSteady` | src/approvals/mod.rs:71-81 | no step changes a settled row, touches another request than its own, adds a row while another request holds the configuration, or lets a waiting caller go without an answer |
| `ApprovalBroker.SettledForGood` | src/approvals/mod.rs:71-81 | over every run, a row once settled stays as it is |
| `ApprovalBroker.OneAnswerEach` | src/approvals/mod.rs:127-156 | over every run a caller gets at most one answer |
| `ApprovalBroker.GoAheadIsBacked` | src/approvals/mod.rs:104-156 | an answer of Once or Session is an automatic rule of the configuration in force when it was given, or the caller's own row approved with that scope before it expired and under the configuration it was begun under |
| `ApprovalBroker.GoAheadIsAllowed` | src/approvals/mod.rs:104-156 | in the policy's own fields, over every run: Once or Session by a rule had, under the configuration then in force, a policy that is not `never`, nor a Claude one without prompts, whose rules map the request to that answer; by a row, a policy so far that has no rule for it |
| `ApprovalBroker.RowIsTold` | src/approvals/mod.rs:143-156 | over every run, a caller answered from its own row is told Once or Session by a row approved with that scope, and Deny by every other |
| `ApprovalBroker.PendingIsAsked` | src/approvals/mod.rs:104-126 | over every run, a row is pending only where the configuration in force has approvals on, prompts, a time-out and no rule for its request |
| `ApprovalBroker.SettledExactly` | src/approvals/mod.rs:50-172 | what any step makes of a pending row: approved or denied exactly by the owner in time and unfenced, expired exactly past its time, cancelled exactly when called off, pending otherwise |
| `ApprovalBroker.CancelsExactly` | src/approvals/mod.rs:176-217 | cancelling a worker, withdrawing and reloading cancel exactly the pending rows they name, and change no other |
| `ApprovalBroker.PendingIsCurrent` | src/approvals/mod.rs:89-126 | over every run a pending row was begun under the configuration in force, with no reload under way |
| `ApprovalBroker.TasksAreBounded` | src/approvals/mod.rs:195-206 | over every run at most 128 requests are being served |
| `ApprovalBroker.NobodyIsForgotten` | src/approvals/mod.rs:189-209 | over every run whoever asked is being served, has an answer or has stopped waiting |
| `ApprovalBroker.StartIs` | src/approvals/mod.rs:89-133 | the three starting steps, case by case in the policy's fields: refused, denied where approvals are off or Claude has no prompts, answered by the rule for the request, or one pending row with its expiry and a waiting request |
| `ApprovalBroker.Broker.Admission` | src/approvals/mod.rs:189-209 | without a free permit a caller is denied at once and nothing is started; otherwise its request is being served |
| `ApprovalBroker.Broker.DecideRow` | src/approvals/mod.rs:50-81 | only the owner decides, and what becomes of the row is exact: expired when late, cancelled when fenced, else denied or approved with the scope under the configuration in force |
| `ApprovalBroker.Broker.Reconfigure` | src/approvals/mod.rs:176-188 | nothing is left pending once the new configuration is in force |
| `ApprovalBroker.Broker.Start` | src/approvals/mod.rs:89-133 | the first half of `run` is those three steps |
| `ApprovalBroker.Broker.Poll` | src/approvals/mod.rs:134-172 | the polling loop among anybody else's steps is a run of the model, and a caller it lets go has its answer or has gone |
| `ThreadControl.StopsCommitTogether` | src/threads/controls.rs:216-221 | closing, archiving and cleaning commit a stop for every live worker in the same unit of work |
| `ThreadControl.AllowedExactly` | src/threads/controls.rs:92-200 | who may do what, and when, for each control |
| `ThreadControl.ActionsDo` | src/threads/controls.rs:92-268 | the whole thread after each control: mode and detail, and what a resume, retry and instruction reset, requeue or unblock |
| `ThreadControl.InstructedExactly` | src/threads/controls.rs:49-90 | who may instruct, within which bounds of text and client ID, and what is given back: the earlier row for the same text, a refusal for another, or a new row for a thread that is not over |
| `ThreadControl.ReopenedOnlyByRestore` | src/threads/controls.rs:163-180 | over every run, a terminal thread found open again was restored by the owner at a moment without live workers or pending stops |
| `ThreadControl.LiveWorkersAreStopped` | src/threads/runtime.rs:376-411 | over every run of controls and of the supervisor's launches, stops, exits and acknowledgements, each live worker of a terminal thread has its stop pending |
| `ThreadControl.ClosedWorkersAreGone` | src/threads/runtime.rs:376-411 | over every run after a close, archive or clean, the thread opens again only through a restore that found each worker live at the close stopped and its process gone |
| `ThreadControl.QueuedAreAccepted` | src/threads/controls.rs:66-90 | over every run, a thread holds an instruction with a client ID exactly when one was accepted, and holds only one |
| `ThreadControl.RepeatedInstruction` | src/threads/controls.rs:49-90 | repeating an accepted instruction after anything else changes nothing, and gives the original row back if and only if the thread was not cleaned meanwhile |
| `ThreadControl.Store.Control` | src/threads/controls.rs:26-47 | a control takes effect entirely or leaves every row as it was |
| `ThreadControl.Store.InstructOnce` | src/threads/controls.rs:49-90 | the whole of `instruct`: validation, the earlier row, or one new instruction |
| `ThreadControl.Store.ApplyTx` | src/threads/controls.rs:92-268 | the transaction body leaves exactly the specified rows when it accepts |
| `ConcurrencySweep.EventsCountOverlap` | docs/scripts/stats.py:58-61 | the events up to an instant sum to the number of intervals that hold it |
| `ConcurrencySweep.RunningIsReached` | docs/scripts/stats.py:60-63 | every running count is at most a true overlap somewhere |
| `ConcurrencySweep.PeakIsMaximum` | docs/scripts/stats.py:59-62 | the peak is the maximum, over all instants, of the number of intervals holding it, zero-length and tied ones included |
| `ConcurrencySweep.LastOfStamp` | docs/scripts/stats.py:60-63 | after the last event at a stamp the running count is the overlap there |
| `ConcurrencySweep.EndsAtZero` | docs/scripts/stats.py:58-64 | the sweep ends with nothing running |
| `ConcurrencySweep.MaxConcurrency` | docs/scripts/stats.py:56-64 | the loop returns that maximum and a curve with those values |
| `SlackFiles.CutExists` | src/slack/files.rs:82-86 | some prefix at most three bytes short of any cut of well-formed text is well-formed |
| `SlackFiles.WellFormedIsEncoded` | src/slack/files.rs:82-86 | bytes are well-formed exactly when they are the encoding of some Unicode scalar values |
| `SlackFiles.CutIsExact` | src/slack/files.rs:73-89 | for a well-formed file the text is read if and only if more than 64 KiB came or were reported or the first 64 KiB end at a character; then it is the longest well-formed prefix within the limit, truncated just when cut |
| `SlackFiles.RefusedOnlyAtTheLimit` | src/slack/files.rs:73-80 | only exactly the limit's bytes of a longer file whose reported size is missing or too small can be refused |
| `SlackFiles.LimitMayRefuse` | src/slack/files.rs:73-89 | such a well-formed file is refused |
| `SlackFiles.ReadExactly` | src/slack/files.rs:69-102 | for any bytes: which are too many, which are not UTF-8, whole or cut, and the size shown |
| `SlackFiles.ReadText` | src/slack/files.rs:69-102 | the function's outcome for any bytes: too long, not UTF-8, binary, or the longest well-formed prefix |
| `SlackFiles.SelectionIsFair` | src/slack/files.rs:111-147 | at most three files, each ID once, none Fridica's own, all text; a file is passed over only for an earlier one with its ID or three chosen |
| `SlackFiles.Select` | src/slack/files.rs:111-147 | the selection loop over messages is fair to the attachments of each event's first message |
| `SlackFiles.Budget` | src/slack/files.rs:170-189 | the counted sizes of the included results total at most the limit, the file text in them does too, and a result is left out exactly when its count would not fit |
| `GithubChecks.ReadPages` | src/github/links.rs:287-325 | the page loop's items, completeness flag and refusal are those of the specification |
| `GithubChecks.ChecksPaged` | src/github/links.rs:300-323 | an honest server's check runs are read as its first 300, called complete if and only if that is the whole list |
| `GithubChecks.ReviewsPaged` | src/github/links.rs:319-323 | reviews are read as the first 300, and called complete only when that is the whole list |
| `GithubChecks.UncountedChecks` | src/github/links.rs:315-318 | without a count the first page is called complete, wrongly exactly for lists of more than 100 |
| `GithubChecks.Checks` | src/github/view.rs:65-94 | the counters give the verdict of the worst kind present |
| `GithubChecks.VerdictExactly` | src/github/view.rs:65-94 | each verdict, by the statuses and conclusion texts of the runs |
| `GithubChecks.SuccessIsSound` | src/github/view.rs:223-232 | against an honest server "success" is reported if and only if the whole list, of at most 300, has no run that is unfinished or concluded with "failure", "timed_out", "action_required", "startup_failure" or "cancelled", and one that concluded with "success" |
| `GithubChecks.FailureIsNeverHidden` | src/github/view.rs:223-232 | a failing conclusion among the first 300 runs, one of those four, is reported whether or not the reading was complete |
| `GithubChecks.IncompleteExactly` | src/github/view.rs:223-232 | "incomplete" is reported exactly for more than 300 runs of which the first 300 have none of those |
| `Redaction.MarkIsBarrier` | src/exec/process.rs:59-66 | no occurrence of a text that cannot overlap the mark touches one |
| `Redaction.MarkKeepsFree` | src/exec/process.rs:64 | marking a stretch brings no text into it that cannot overlap the mark |
| `Redaction.RedactLoop` | src/exec/process.rs:60-65 | the loop ends although it may lengthen the text, and leaves the one-pass redaction, free of the prefix |
| `Redaction.TokenIsRedacted` | src/exec/process.rs:60-65 | each round marks the first prefix with all that follows it up to white space, a quotation mark or an angle bracket, and keeps what stands before |
| `Redaction.OrderedAre` | src/exec/process.rs:54-55 | secrets are taken longest first, exactly the non-empty ones |
| `Redaction.ShorteningKeepsFree` | src/exec/process.rs:67-69 | joining at white space and keeping the tail bring nothing back that holds no space |
| `Redaction.Diagnostic` | src/exec/process.rs:52-70 | the result has at most `limit` characters and holds no token prefix |
| `Redaction.StaysOut` | src/exec/process.rs:52-70 | a secret that is not of that kind is never in the result |
| `Redaction.SecretsStayOut` | src/exec/process.rs:52-70 | the result never holds a configured secret, whatever the output, the limit and the other secrets, if and only if the secret is not of that kind |
| `Redaction.ExposedIsShown` | src/exec/process.rs:52-70 | for every secret with single spaces for blanks and no token prefix that has a space or can overlap the mark, an output and a list of secrets for which the result holds it |
| `ContractSections.SpansPartition` | src/config/contract.rs:57-82 | every character from the first heading on lies in exactly one heading or body |
| `ContractSections.HeadingsAreOrdered` | src/config/contract.rs:57-77 | heading spans are in order, inside the text and never overlap, so every slice is valid |
| `ContractSections.HeadingsAreFound` | src/config/contract.rs:57-77 | a line that begins a heading is one of the headings found, or lies inside one whose title was on a later line |
| `ContractSections.RenderedSectionsParse` | src/config/contract.rs:54-98 | sections with good titles and trimmed bodies without a marked line, none before the last ending in a bare `##`, rendered, are found again exactly |
| `ContractSections.RoundTripExactly` | src/config/contract.rs:54-98 | sections with good titles and trimmed bodies come back as they were if and only if no body has a marked line and none before the last ends in a bare `##` |
| `ContractSections.MarkedBodyIsLost` | src/config/contract.rs:57-82 | a body that holds a heading's beginning comes back cut before it, whatever follows |
| `ContractSections.ContractRoundTrip` | src/config/contract.rs:48-118 | parsing a rendered contract whose bodies meet that condition returns the contract; the last body may end in a bare `##` |
| `ContractSections.BareMarkIsLost` | src/config/contract.rs:58-75 | wherever a body before the last ends in a bare `##`, the sections do not come back as they were |
| `ContractSections.FindHeadings` | src/config/contract.rs:54-77 | the line loop finds exactly the specified headings |
| `ContractSections.Parse` | src/config/contract.rs:48-118 | the first section of each name, the others that say something, or a refusal for a missing one |
| `ContractSections.ParsedExactly` | src/config/contract.rs:78-118 | a text is a contract exactly when it has at most 64 KiB and its first participation and first replies section each say something; it holds the first section of each name or alias |
| `ContractSections.ExtrasAre` | src/config/contract.rs:99-118 | the extras are the sections with none of the ten names that say something |
| `TextTrim.TrimParts` | src/config/contract.rs:10-12 | trimming cuts all blanks off both ends, and nothing else |

## Left out

- The SQLite store, its migrations and archives: the bodies of the unit-of-work methods are taken by the
  contracts above. The archive that moves quiet threads out and `revive_or_note` (src/attention/mod.rs:84-85)
  that brings one back are not modelled; neither is the replay ledger.
- Network, process and file-system effects, sockets, bubblewrap itself and symlink races: only the data and
  the plans the code computes are modelled.
- Floating-point rounding: times are whole microseconds and timestamps have the usual six decimals, so the
  order of timestamp text is the order of times. Items with a malformed `ts` count as items without one.
- `CatchupRuns.NoLoss`: thread replies are covered only as far as their root was read or noted; whether the
  server shows a message in time is a premise. The truncation count's saturation at 32 bits cannot be reached.
- `SandboxView.ConfinementMeaning`: paths are compared as text, so a root with `.` or `..` components stands for itself only.
- `Catchup.StartOf`: which thread roots the store offers for a pass is any list.
- `SlackIntake.Store.Receive`: decoding the JSON of an envelope, and the record of each envelope it keeps.
- `SlackIntake.Taken`: the channel's link ledger, thread rows and attachments are not rows of the model.
- `queue_answer_tx`, `claim_due`, `sweep` and the obligation life cycle (src/attention/mod.rs:200-366).
- `ShellText.Run`: `$(...)`, `${...}` and special parameters are taken as written, and what they give is any
  function of that text; tilde and pathname expansion and field splitting only mark a word as not plain.
  Backquotes, comments, `case` patterns inside `$(...)`, reserved words and how a digit joins a redirection.
- `ShellSession.Played`: which branch of an `if` runs; assignments behind `&`, `&&`, `|` or a reserved word (the
  scripts have none before the agent's start). Function bodies and traps run later: of them only the reading is proved.
- `IsolationHelper.Admit`: these further refusals: a `CODEX_HOME` or `CLAUDE_CONFIG_DIR` that disagrees with
  the request (src/exec/isolation_settings.py:15-26), more than 256 candidates or 4096 entries of a directory, a
  settings document over 1 MiB, 64 documents or 8 MiB in all, text that is not UTF-8, TOML or JSON, a document
  that is no table, more than 128 aliases or 64 levels of an MCP table. They only make fewer requests accepted.
- `IsolationHelper.ReadLayers`: the same refusals of single documents.
- `IsolationHelper.BuildPlan`: the same, an empty command, a platform other than Linux and the probe backend; what
  the sanitized settings copies contain, the TOML writer and the creation of default files; the file system is
  one consistent snapshot. Layers are taken in any order.
- `EditJournal.RenameIsCompareAndReplace`: assumes, as the source does, no outside writer between the check
  and the rename. Preparing an edit (`Prepared::new`), the lock file's metadata and the lock's retries are not
  modelled; nor is what the running daemon does after a failed edit.
- `ApprovalBroker.Automatic`: the command rules are a table from request text to decision. Rows are never
  pruned, identifiers are fresh, and wake-ups and deadlines are any interleaving of polls.
- `ThreadControl.Decide`: that an owner's pause may be resumed by the owner only is taken from the messages
  and tests (tests/attention.rs:229-237); the method that decides it is not part of this model. An `Instruct`
  control without a client ID always adds an instruction.
- `ThreadControl.LiveWorkersAreStopped`: that a worker is admitted only in an active thread is taken from the
  store's claim and its test (tests/supervisor.rs:587-601); processes that outlive the daemon are not modelled.
- `SlackFiles.Budget`: the size of each notice is a parameter.
- `SlackFiles.ReadText`: the header line and `comma`; downloads, URLs and time-outs.
- `GithubChecks.Checks`: review counting, status lines, link extraction and the link cache.
- `Redaction.Diagnostic`: decoding the bytes, and the order of secrets by characters rather than bytes;
  `scrubbed_environment`.
- `ContractSections.Parsed`: `to_lowercase` is a parameter known on the five names; positions count characters,
  and the size limit counts UTF-8 bytes. Loading defaults (src/config/contract.rs:119-136).
- Views, prompts, log lines, the dashboard, the doctor, the command line and packaging.
