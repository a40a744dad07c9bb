# Verified models of an agent orchestrator's delicate parts

The repository coordinates coding agents over a fleet of machines.  Most of it is plumbing; this
project models the parts in which a wrong branch is expensive and proves what each of them is for.

| modules | what they model |
|---|---|
| `ExpectedRed`, `ExpectedRedMeaning`, `ExpectedRedClear` | the line editor that takes cleared test ids out of a manifest, and what that does to the registry the manifest declares |
| `BlockLog`, `EpisodeFacts`, `StallReport`, `StallRuns` | the append-only stall log: the fold into episodes, what each of them says, the report, and the recorder beside the queue it records |
| `AgentUpdate`, `IdleRestart` | blue/green installs with processes starting and exiting between any two steps, and the watcher that restarts onto a staged slot |
| `Dsn` | the keyword/value connection-string scanner and printer |
| `AppDrive`, `CloseSession` | requests and replies through files in a shared directory, and tearing a session down |
| `ModelLadder`, `AutoLoop`, `AutoVerdicts`, `AutoLadder` | the review → fix → re-review cycle, its cap, what each verdict comes to, and the model ladder it recovers by scanning the board |
| `BoardDoctor`, `Convergence`, `RowVerdicts` | the sweep over stuck rows, its per-row counters, and what it decides about each row |
| `Audit`, `ConfigCache` | keyset pagination over the audit log, and the stamped configuration cache |
| `HeadingScan`, `BugIntake` | the bug-report printer and its regex-driven parser |
| `Common`, `Text`, `Strings` | `Option`, Python's white space, `str.strip` |

The source's loops and objects are methods and classes here, proved against specification
functions.  What matters is then proved about those functions, over every input or every run:
a reference reader (`ExpectedRedMeaning.ReadBlock`, `BlockLog.Read`), a grammar (`Dsn.Setting`), a
state machine whose steps may interleave in any order (`AgentUpdate.Next`, `AppDrive.Next`,
`ConfigCache.Next`), a counter (`ModelLadder.Rung`, `Convergence.Spent`), a sorted list
(`Audit.Remaining`).  Where a function decides, the conditions are also stated apart from it, on the
fields of the rows, events or polls it decides about: `EpisodeFacts.Told`, `AutoVerdicts.Earned`,
`RowVerdicts.Verdict`, `IdleRestart.WaitsIdle`, `AgentUpdate.Excused`.

Eight properties one would like to state turn out to need a condition.  Each is proved as an exact
equivalence:

* Clearing an issue's ids is removal from the registry unless a comment at or left of the header
  column splits the issue's items: `ExpectedRedClear.ClearMeansRemove`, with a concrete manifest in
  `ExpectedRedClear.ShallowCommentBreaksClearing`.
* A second clearing has nothing to do unless a header that went had fenced off a cleared item from one
  that stays: `ExpectedRed.ClearAgainExactly`.  Spaces-only text never does that; text with tabs can.
* Open stall episodes and stalled rows agree unless a row has slipped across the stall boundary an odd number of
  times without a record: `StallRuns.OpenExactly`.  Unrecorded changes happen: a board-doctor removal
  (`coord/board_doctor_permissions.py` 752), an upstream hold (`coord/upstream_gaps.py` 492-500), a dequeue through
  the dashboard or the daemon (`coord/dashboard/server.py` 2844-2847, `coord/serve_app.py` 9658-9661), an unconfirmed
  self-clear (`coord/commands/drive_queue.py` 8971-8977).
* A rebuild harms no process unless the `/proc` scan missed one that holds the slot:
  `AgentUpdate.HarmlessIffNoHiddenHolder`.
* A request is dealt with once unless the daemon's unlink failed on a file that was still there:
  `AppDrive.OnceIffUnlinked`.
* Climbing the model ladder is counting unless a rung's name recurs in a way that leads elsewhere:
  `ModelLadder.CounterIffStepwise`.
* The configuration cache answers with a current version unless a stamp comes back after the text has
  changed, even if it comes back with its old text: `ConfigCache.CurrentIffSettled`,
  `ConfigCache.PuttingBackIsNotSettled`.
* Bug reports round-trip exactly when every stripped field is non-empty and contains no heading:
  `BugIntake.RoundTripExactly`.  In the same way `Dsn.RoundTripExactly` names the dictionaries that survive
  printing and scanning.

Where code and documentation differ, the model follows the code:

* `coord/acceptance.py` 1962-1964 promises `None` when no id matched; the code also reports a change when it
  drops an issue or a block that was already empty (1938-1941, 1995-1997).
* `coord/app_drive_daemon.py` 223-227 has every request authenticated before it is acted on, but a `close` with a wrong
  token, answered "unauthorized", still ends the loop (278-279).
* PostgreSQL 16, section 34.1.1.1, lets a backslash escape a character in an unquoted value too; the scanner
  keeps it (399-401 of `coord/backup.py`), and so does `Dsn.ScanRaw`.
* `coord/agent_update.py` 622-625 says that a failed update removes the half-built slot; the removal ignores
  errors (718, 721), and an exception of a subprocess call skips it.  Either may leave part of the slot behind, never of
  the live one.
* `coord/audit.py` 393-397 promises that an edit of the file takes effect on the next write; an edit that
  brings an old stamp back need not, which is the condition of `ConfigCache.CurrentIffSettled`.

## Model

| member | source | states |
|---|---|---|
| `ExpectedRed.ClearExpectedRedEntries` | coord/acceptance.py:1945-2004 | the index loop with its growing output is the editor `Clear`: `None` exactly when ids are empty or nothing changed |
| `ExpectedRed.StripClearedIds` | coord/acceptance.py:1897-1942 | the issue-block loop is `StripIssue`, lines and changed flag |
| `ExpectedRed.StripOneBlock` | coord/acceptance.py:1927-1941 | cleared items go; the header stays only with content left under it |
| `ExpectedRed.TakeDeep` | coord/acceptance.py:1919-1926 | collects exactly the lines up to the first non-blank one at or left of the margin |
| `ExpectedRed.HasContent` | coord/acceptance.py:1844-1847 | true exactly when some line is more than blank or comment |
| `ExpectedRed.ClearIsSubsequence` | coord/acceptance.py:1948-2004 | for every text the output is a subsequence of the input lines, and without a change it is the input |
| `ExpectedRed.ClearAgainExactly` | coord/acceptance.py:1962-2004 | for every text, a second clearing of the same ids has nothing to commit if and only if the first one exposes no cleared item under a header that stays |
| `ExpectedRed.ClearAgainIsNone` | coord/acceptance.py:1962-2004 | so on text indented by spaces only it never has |
| `ExpectedRed.TabsBreakIdempotence` | coord/acceptance.py:1917-1926 | with tabs it can: a text where the margin counts all white space and the indent only spaces |
| `ExpectedRedClear.OutsideUntouched` | coord/acceptance.py:1980-2004 | every line before and after the block is still there in place; the key goes with its last content |
| `ExpectedRedClear.ClearMeansRemove` | coord/acceptance.py:1897-2004 | for every block-style manifest, issue and id set: reading the cleared text gives the old registry without those ids under that issue, if and only if no comment harmfully splits the issue's items |
| `ExpectedRedClear.DeepCommentsAreSafe` | coord/acceptance.py:558-568 | in particular it does when every comment in the block stands deeper than the headers |
| `ExpectedRedClear.ShallowCommentBreaksClearing` | coord/acceptance.py:1919-1941 | a manifest where a comment in the header column makes clearing one id lose another |
| `ExpectedRedClear.BlockExact` | coord/acceptance.py:1897-1942 | the same equivalence for the body of one block |
| `Dsn.ParseKeywordValueDsn` | coord/backup.py:357-404 | the index scanner ends on every input and is `Parse` |
| `Dsn.ReadQuoted` | coord/backup.py:385-397 | the quoted-value loop, with escapes and an unterminated quote |
| `Dsn.ReadParam` | coord/backup.py:368-403 | one turn of the outer loop yields the next parameter, or none at a key without `=` |
| `Dsn.ParseReadsEverySpelling` | coord/backup.py:357-404 | every legally spelled string, with free white space, quotes and escapes, is read as what it means: each key has the value of its last assignment, in the place of its first |
| `Dsn.WordEndsTheReading` | coord/backup.py:376-383 | a word that no `=` follows ends the reading: everything before it counts, nothing behind it does |
| `Dsn.FormatKeywordValueDsn` | coord/backup.py:407-416 | the printer loop is `Format` |
| `Dsn.ReplaceTwiceEscapes` | coord/backup.py:412 | two replacements in a row escape every character exactly once |
| `Dsn.ParseIsWellFormed` | coord/backup.py:372-403 | scanned dictionaries have distinct, non-empty keys without `=` or white space |
| `Dsn.RoundTripExactly` | coord/backup.py:357-416 | scanning undoes printing for exactly the well-formed dictionaries |
| `Dsn.ParseFormatParse` | coord/backup.py:357-416 | parse(format(parse(s))) = parse(s) for every string |
| `Dsn.KeywordDumpTarget` | coord/backup.py:447-454 | with a non-empty password the rewritten DSN reads as the other parameters, in order; otherwise it is passed through |
| `BlockLog.FoldEpisodes` | coord/block_log.py:971-1097 | the event loop over the open map and the episode list is `Episodes` |
| `BlockLog.FoldInterventionInPlace` | coord/block_log.py:917-968 | the annotation lands on the open episode of the key, else on its latest closed one, else nowhere |
| `BlockLog.ReplayAgrees` | coord/block_log.py:1004-1090 | through any key, the fold of any log is the reading of that key's own events |
| `BlockLog.EpisodesOfKey` | coord/block_log.py:971-1097 | the episodes of a key are that reading, in entry order |
| `BlockLog.EpisodesCommuteWithProjection` | coord/block_log.py:971-1097 | the episodes of key k in any log equal, as a sequence, the episodes of the log filtered to k |
| `BlockLog.EpisodesOfKeyInTimeOrder` | coord/block_log.py:1095-1097 | on a log in time order the final sort moves no episode of a key |
| `BlockLog.OneEpisodePerEnter` | coord/block_log.py:1004-1046 | one episode per `enter` that names a key, superseded ones included |
| `BlockLog.SortByEntrySorts` | coord/block_log.py:1096-1097 | the sort orders by entry time and neither loses nor adds an episode |
| `EpisodeFacts.EveryEpisodeIsTold` | coord/block_log.py:971-1097 | every episode of every log is told by the events of its key from its `enter` up to the next: resolved exactly by the first `resolve` among them, with its time, words and cause; a human acted exactly if that says so or somebody intervened; the latest diagnosis before it stands; every intervention is noted once |
| `EpisodeFacts.EverySpanIsTold` | coord/block_log.py:1004-1090 | and every such stretch of events has its episode |
| `EpisodeFacts.FactsAre` | coord/block_log.py:1004-1090 | what a stretch adds up to, by position: its first `resolve`, the diagnoses before it, all its interventions |
| `EpisodeFacts.UnresolvedAreEntersLessReleases` | coord/block_log.py:1061-1095 | the unresolved episodes are the keyed enters less the resolves that found their key stalled |
| `EpisodeFacts.VerdictIsDue` | coord/block_log.py:781-826 | each verdict on a diagnosis is given exactly when it is due, by the names in front of the dashes |
| `StallReport.Summarize` | coord/block_log.py:1141-1205 | human + auto + open is the number of episodes, each is the number of episodes whose own fields say so; per-state and per-cause counts are exact and sum to it; the repeats are exactly the repository-reason pairs that stalled more than once; the diagnosis scores are exact, with a rate only when something was scored |
| `StallReport.SummarizeLog` | coord/block_log.py:1100-1205 | end to end: the report over a log accounts for every keyed `enter` once; open are the enters that no `resolve` has released, human and auto together the ones it has |
| `StallReport.RepeatsWhenSame` | coord/block_log.py:1171-1183 | two stalls repeat each other exactly when they are of one repository and the first 60 characters of what their reasons say agree, however spaced |
| `StallReport.AccountsFor` | coord/block_log.py:1290-1309 | one more episode keeps the account between loop totals and bucket function |
| `StallReport.InterventionSticks` | coord/block_log.py:953-968 | an episode someone intervened in counts as human until the next `enter`, whatever its `resolve` says |
| `StallRuns.RecordPlan` | coord/block_log.py:346-420 | the tick recorder emits exactly the enter and resolve records of the keys whose stall state changes |
| `StallRuns.TickSays` | coord/block_log.py:304-420 | a tick's record about a key, told by the key's last write with a state: entered or left, with which reason; a person's doing only for a signed-off gate, merged only for a merge of this tick, landed only for a finished row |
| `StallRuns.OpenAfterPlan` | coord/block_log.py:304-420 | after a tick's records a key is open according to its final state in the plan |
| `StallRuns.MoveClaims` | coord/block_log.py:507-658 | after any move the fold believes the last record about a row, and moves without a record change nothing in it |
| `StallRuns.OpenIsKnown` | coord/block_log.py:304-420 | over every run, unrecorded moves included, an episode is open exactly when the last record about its row said that it stalled |
| `StallRuns.OpenExactly` | coord/block_log.py:304-420 | "open" and "stalled" agree on a row if and only if it slipped across the stall boundary an even number of times since the last record, having been stalled before the log began counting as once |
| `StallRuns.UnrecordedRemovalLeavesEpisodeOpen` | coord/board_doctor_permissions.py:752 | a run after which an episode is open for a row that is gone |
| `StallRuns.UnrecordedBlockOpensNothing` | coord/commands/drive_queue.py:8971-8977 | a run after which a row is stalled and no episode is open |
| `StallRuns.OpenKeysAreStalledRows` | coord/block_log.py:1004-1097 | in every run whose moves all record what they do, open keys are a subset of the rows that are blocked or parked, and the same set when the run starts with none |
| `AgentUpdate.Install.PerformUpdate` | coord/agent_update.py:610-803 | refused when the slot to build in is the live directory or the caller's own, never without that or a process running from it, and then no directory changes; otherwise a swap exactly when both subprocesses end well and the install boots and answers, onto the other slot with what was installed; any other result leaves link and live install as they were, or, after a migration, the link on the blue slot with the old install in it |
| `AgentUpdate.Install.UpdateFrom` | coord/agent_update.py:645-803 | the steps after the layout is in place, logged as a run of the protocol; a failed one leaves no slot that boots |
| `AgentUpdate.Install.Refusal` | coord/agent_update.py:670-713 | refused for the live directory and for the caller's own, and otherwise only for a process that runs from the slot; with a readable `/proc`, always for one |
| `AgentUpdate.Install.Rebuild` | coord/agent_update.py:717-775 | a version comes back exactly when both subprocesses and the smoke check succeed, and then the slot holds it |
| `AgentUpdate.Install.Rollback` | coord/agent_update.py:806-870 | the link moves to the other slot exactly when that passes its check, and no directory changes |
| `AgentUpdate.Install.EnsureSymlinkLayout` | coord/agent_update.py:408-435 | migrates a plain directory into the blue slot unless one exists, and leaves a link alone |
| `AgentUpdate.Install.ProcessesHoldingSlot` | coord/agent_update.py:172-243 | with a readable `/proc` exactly the holders, otherwise some of them |
| `AgentUpdate.Install.LiveUntouched` | coord/agent_update.py:622-625 | what a logged run without a swap left of link and live install |
| `AgentUpdate.NextKeepsSafe` | coord/agent_update.py:610-870 | every step keeps: the link boots, processes find the version they started from, the slot under construction is apart and empty |
| `AgentUpdate.EveryRunIsSafe` | coord/agent_update.py:610-870 | hence every run with complete scans |
| `AgentUpdate.RewritesAreApart` | coord/agent_update.py:717-721 | at every deletion or rebuild in any run the directory is not the live one and has no running process |
| `AgentUpdate.RewritesSpareTheCaller` | coord/agent_update.py:679-691 | at every deletion or rebuild in any run, whatever the scans showed, one directory changes and it is not the one the caller runs from |
| `AgentUpdate.UntilTheSwapNothingChanges` | coord/agent_update.py:622-625 | as long as no swap is reached, link and live install are what they were |
| `AgentUpdate.LinkMovesOntoCheckedSlot` | coord/agent_update.py:839-848 | in every run a step that moves a link is a swap onto a slot that boots, and the last thing done about that slot was a passed check |
| `AgentUpdate.LinkStays` | coord/agent_update.py:526-538 | once there is a link there always is one |
| `AgentUpdate.HarmlessIffNoHiddenHolder` | coord/agent_update.py:194-198 | getting past the checks is harmless to every process, whatever follows, if and only if no process held the slot |
| `IdleRestart.IdleRestartWatcher.OnTick` | coord/agent_app.py:724-804 | the debounce field is the window of the tick history; a restart happens exactly when that history says so, onto the live slot |
| `IdleRestart.RestartFollowsWindow` | coord/agent_app.py:618-734 | every restart follows a window of at least the debounce time in which each poll found another slot live and no assignment, session or daemon on the host, and which no earlier attempt has used up |
| `IdleRestart.LongWindowRestarts` | coord/agent_app.py:618-734 | conversely, such a window restarts, after the start or after any poll that was busy or had nothing to do |
| `IdleRestart.RestartsNeedSwaps` | coord/agent_app.py:618-663 | in any run of ticks and link swaps, restarts plus the mismatch left over never exceed swaps plus the initial mismatch |
| `AppDrive.EveryRunIsGood` | coord/app_drive_daemon.py:228-279 | the invariant of the file protocol holds over every interleaving of clients and daemon |
| `AppDrive.WhatEveryoneSees` | coord/app_drive.py:384-445 | each id is dealt with at most once, a returned reply is the one to that request, nothing half-written is read, nothing with a wrong token is dispatched |
| `AppDrive.CloseIsLast` | coord/app_drive_daemon.py:278-279 | in every run, once a close has been dealt with nothing more is, whatever happens then |
| `AppDrive.OnceIffUnlinked` | coord/app_drive_daemon.py:248-251 | no request is dealt with twice from here on if and only if the unlink removed the file, the client had, or the request ends the daemon |
| `AppDrive.ControlDir.SendCommand` | coord/app_drive.py:384-445 | with others acting between any two steps, a reply is the logged reply to this very request |
| `AppDrive.ControlDir.LookForReply` | coord/app_drive.py:423-435 | one look: a reply read is the one logged for this request, and one that is there is read unless reading fails |
| `AppDrive.ControlDir.ServeNext` | coord/app_drive_daemon.py:243-279 | one turn of the serve loop: at most one entry, its own file gone, dispatched only with the right token, ended exactly by a close; unless reading or writing fails, a request that is there is dealt with and answered |
| `CloseSession.Session.Close` | coord/app_drive.py:731-814 | true means every target is dead and the session forgotten; false keeps the file, and whoever still runs was asked and then killed; with certain probes, targets that were dead already are closed without a signal, and no signal goes to anything but a running target |
| `CloseSession.Session.AllDead` | coord/app_drive.py:726-728 | probes taken one after the other; true means all dead, and with certain probes it is answered for all that were |
| `CloseSession.Session.SignalAll` | coord/app_drive.py:799-806 | one tier: no running process is killed before it was asked |
| `ModelLadder.FixModelForIteration` | coord/auto_loop.py:1064-1150 | the model choice with its loop is `FixModel` |
| `ModelLadder.StepwiseCounts` | coord/config.py:1080-1092 | climbing a stepwise ladder is counting bounces, capped at the top |
| `ModelLadder.CounterIffStepwise` | coord/config.py:1080-1092 | it is so for all bounces if and only if every rung from the start leads to the one above |
| `ModelLadder.DistinctIsCounter` | coord/config.py:1080-1092 | on a ladder without repeated rungs climbing is counting |
| `ModelLadder.UnknownPastCountsRounds` | coord/auto_loop.py:1139-1146 | a round whose last model is unknown or off the ladder runs at the base rung plus the rounds between, capped |
| `ModelLadder.RepeatedRungNeverClimbsPast` | coord/config.py:1080-1092 | any ladder that comes back to an earlier rung is never climbed past it, whatever the bounces |
| `AutoLoop.Loop.NextFixIterationForBranch` | coord/auto_loop.py:936-964 | the scan answers one more than the highest iteration of the chain |
| `AutoLoop.NextIsLeast` | coord/auto_loop.py:914-925 | that number is above the floor and every iteration on the chain, and the least such |
| `AutoLoop.Loop.LastFixModelForBranch` | coord/auto_loop.py:967-1023 | the scan with its running best is `LastModel` |
| `AutoLoop.LastModelIsLatest` | coord/auto_loop.py:985-1023 | the answer is the model of the latest fix round below the limit, ties going to the later dispatch, or None exactly when there is none |
| `AutoLoop.Loop.DispatchFixForReview` | coord/auto_loop.py:1246-1500 | the board after a request-changes verdict, branch by branch: verdict and review state of the reviewed row, the fix row with its iteration and model, the withdrawn user acceptance; and what is reported |
| `AutoLoop.Loop.RunForFixTransition` | coord/auto_loop.py:2044-2290 | the board after a finished fix round, branch by branch, and what is reported |
| `AutoVerdicts.BounceExactly` | coord/auto_loop.py:1292-1500 | a request-changes verdict adds exactly one round if and only if nothing stops it, a worker took it, and no round of the chain has reached the cap; that round is the next of its chain; the reviewed row is settled, and loses its user acceptance exactly then |
| `AutoVerdicts.FixExactly` | coord/auto_loop.py:2077-2290 | a finished round, row by row: exactly one review when it is unreviewed, headless, open, below the cap, tested where tests come first, and a review can be had; otherwise none, with the row done, at the cap, pending or as it was |
| `AutoVerdicts.EveryReviewIsEarned` | coord/auto_loop.py:2197-2229 | over every run, every review was asked for at a moment when its row met all these conditions; where tests come first, it was tested then |
| `AutoVerdicts.EarnedReviewIsAskedFor` | coord/auto_loop.py:2197-2290 | and wherever in a run a row meets them, one review is asked for |
| `AutoLoop.EventKeepsInv` | coord/auto_loop.py:1246-1500 | every event keeps: rounds on the board, climbing, this loop's within the cap, each row reviewed at most once per time it was unreviewed, and never at the cap |
| `AutoLoop.CycleTerminates` | coord/auto_loop.py:1371-1395 | over every run, other dispatch doors and reset review states included, and whichever row a verdict points at: the fix rounds of a chain climb strictly; at most the maximum are this loop's; each row gets from here at most one review plus one for every time its state was taken back, and none at the cap |
| `AutoLadder.ScanFindsLastRound` | coord/auto_loop.py:1000-1023 | the board scan returns the model of the latest round that has one |
| `AutoLadder.EveryRunAgrees` | coord/auto_loop.py:1423-1433 | over every run and through all doors, rounds are numbered 1, 2, 3, … and each ran at the model due after the rounds before it |
| `AutoLadder.FirstRoundModel` | coord/auto_loop.py:1121-1136 | over every run, an unpinned first round runs at the configured model, else at the bottom rung; without escalation no unpinned round names a model |
| `AutoLadder.RungsCount` | coord/auto_loop.py:1064-1150 | from any round on a rung, until a round is pinned to a model by hand, later rounds run at that rung plus the bounces since, capped |
| `AutoLadder.LadderIsCounter` | coord/auto_loop.py:1064-1150 | with no pinned round, round n runs at the base rung plus the bounces of rounds 2 to n, capped |
| `AutoLadder.LadderNeverDescends` | coord/auto_loop.py:1085-1101 | so a later round never runs below an earlier one |
| `BoardDoctor.Doctor.RunSweep` | coord/board_doctor.py:1463-1806 | the sweep loop is the walk over the rows; real decisions go to the log in order; absent rows are cleared and exactly their alerts dismissed |
| `BoardDoctor.Doctor.ActOn` | coord/board_doctor.py:1690-1739 | counting, tier decision, auto and alert path of one row |
| `BoardDoctor.Doctor.TryAlert` | coord/board_doctor.py:1589-1611 | only a confirmed alert escalates and moves the backoff clock |
| `RowVerdicts.SweepDecides` | coord/board_doctor.py:1612-1760 | in a completed real sweep, each row's decision, counter and dispatcher call, told by the row and the counters before: passed over, dispatched, alerted when due, or left alone |
| `RowVerdicts.FirstAlertIsSent` | coord/state.py:2207-2237 | a row that gets to the alert path without having been alerted about is alerted in that sweep, and its clock starts at one hour |
| `RowVerdicts.UnsentAlertStaysDue` | coord/board_doctor.py:1589-1611 | an alert that was skipped or not confirmed escalates nothing and stays due |
| `RowVerdicts.AlertIsTriedUntilConfirmed` | coord/board_doctor.py:1589-1611 | over every run of failed alerts, the next sweep in which it is confirmed sends it |
| `RowVerdicts.AbsentRowGoesExactly` | coord/board_doctor.py:1783-1802 | an absent row is forgotten by a completed real sweep that clears, and kept by any other |
| `Convergence.AutoActionsConverge` | coord/board_doctor.py:1505-1518 | over any run of sweeps, while a row keeps one cause its dispatcher is called at most limit - 1 times |
| `Convergence.RunSpends` | coord/board_doctor.py:1690-1722 | exactly: as many calls as the counter spent of its allowance |
| `Convergence.PassedOverKeepsCounter` | coord/board_doctor.py:1613-1689 | suppressed and deferred rows keep counter and escalation |
| `Convergence.RedBaseKeepsCounters` | coord/board_doctor.py:1424-1460 | while a repository's base is red every row of it does |
| `Convergence.DryRunChangesNothing` | coord/board_doctor.py:1518-1520 | a dry run changes no counter and calls nobody |
| `Convergence.DryRunForetells` | coord/board_doctor.py:1690-1704 | with distinct keys it reports tier and count of the next real sweep, row by row |
| `Convergence.RepeatedKeyMisleadsDryRun` | coord/board_doctor.py:1690-1694 | with a repeated key it need not |
| `Convergence.TrackedWasPresent` | coord/board_doctor.py:1783-1786 | after a completed real sweep every tracked row was in it |
| `Convergence.VanishedRowStartsOver` | coord/board_doctor.py:1530-1541 | a row that was away returns at count 1 and un-escalated |
| `Convergence.AlertsWaitForBackoff` | coord/state.py:2207-2237 | in any run, no sweep repeats an alert before its backoff has passed, and the clock stands |
| `Convergence.DueAlertRepeats` | coord/state.py:2270-2311 | once it has, the next sweep alerts again about any row on the alert path, by its tier or because it converged, and the backoff doubles up to the cap |
| `Audit.BuildWhere` | coord/audit.py:520-551 | clauses and parameters, bound in order, select exactly the wanted rows below the cursor |
| `Audit.QueryAuditLog` | coord/audit.py:490-567 | a page is the first rows that remain, as many as were asked for between one and the maximum, with a cursor exactly when more do |
| `Audit.CursorIsKey` | coord/audit.py:469-480 | a cursor names a key exactly when its last colon splits it into two numbers; any other starts over |
| `Audit.DecodeEncode` | coord/audit.py:463-480 | the cursor of a key whose numbers are read back as written round-trips |
| `Audit.PagesReturnEverything` | coord/audit.py:503-512 | following cursors to the end, while rows above them are inserted, returns every matching row present at the first page once, newest first |
| `Audit.PagingEnds` | coord/audit.py:559-567 | the rows to come shrink with every page |
| `Audit.EveryLogCanBePaged` | coord/audit.py:503-512 | every log, filter and page size has a run of pages to the end, which holds exactly the matching rows |
| `ConfigCache.CurrentIffSettled` | coord/audit.py:398-429 | under every interleaving of threads and edits each answer was current during its call, if and only if no stamp comes back after the text changed |
| `ConfigCache.FreshStampsAreCurrent` | coord/audit.py:393-397 | with stamps that never come back every answer is current |
| `ConfigCache.PuttingBackIsNotSettled` | coord/audit.py:418-428 | stamps that merely determine the text do not |
| `ConfigCache.Cache.CachedConfig` | coord/audit.py:402-429 | the reader with others acting between its steps returns a text current during the call |
| `BugIntake.ParseBugReport` | coord/bug_intake.py:84-117 | the loop over matches by position is the reading by sections; the last section of a heading counts |
| `BugIntake.MatchHereFits` | coord/bug_intake.py:96-99 | a match is the heading and then white space only |
| `BugIntake.FormatSays` | coord/bug_intake.py:67-81 | a printed report says its four headings with their fields, and whatever headings the fields contain |
| `BugIntake.RoundTripExactly` | coord/bug_intake.py:67-117 | parsing a printed report returns the four stripped fields if and only if each is non-empty and contains no heading |
| `BugIntake.CleanMeansNoHeadingLine` | coord/bug_intake.py:96-99 | containing no heading means that no line of the field starts a match |
| `BugIntake.ProseInFrontOfReport` | coord/bug_intake.py:88-91 | prose that ends its line and has no heading changes nothing in front of a report |
| `HeadingScan.SectionsJoin` | coord/bug_intake.py:100-109 | texts put side by side at a line end say what they say one by one |
| `HeadingScan.FindAllIsSections` | coord/bug_intake.py:100-109 | cutting the text between match positions gives the sections |

## Left out

- `ExpectedRedClear.ClearMeansRemove`: covers block style indented by spaces, with headers in one column, items deeper in one column, no column-0 comment in the block and no issue twice; flow style, duplicate issues and items in the header column are read differently by YAML, and an item deeper than the one above it continues that one.
- Text to lines: splitting, the two regular expressions and the YAML scalar of a list item are the classification in `ExpectedRed.Line`; its `text` field stands for the bytes that are kept.
- `StallRuns.OpenKeysAreStalledRows`: speaks of runs in which every move records what it does and a tick's plan only of queued rows; `StallRuns.OpenExactly` covers all runs. The order in which a tick's keys are recorded is any order, and record times and hosts are fixed because they do not matter to openness.
- Stall-log records are typed; malformed lines and the tolerant JSON reader are not part of this model.
- `AgentUpdate.Install.PerformUpdate`: assumes one update or rollback at a time, as nothing visible locks it; subprocesses of the update itself have ended before a slot is deleted; version-text comparison in the smoke check counts as its answer; on Windows the link swap is not atomic.
- `AgentUpdate.EveryRunIsSafe`: processes start through the link and carry a slot path; one started from the plain directory before the migration is a holder the scan does not show, which is the case `AgentUpdate.HarmlessIffNoHiddenHolder` decides.
- `IdleRestart.RestartsNeedSwaps`: a tick is atomic and a restart runs what the link then names; the window itself needs no monotone clock.
- `AppDrive.WhatEveryoneSees`: ids are fresh, writing and renaming are single steps, and the daemon's unlinks succeed; requests that are no JSON object only arise from other programs. The serve loop is modelled turn by turn because it has no bound of its own; sleeping and idle expiry are steps that may come at any time.
- `AppDrive.ControlDir.SendCommand`: how long it waits is a number of looks; that an answer comes in time is not promised, only what each look and each turn of the daemon does (`AppDrive.ControlDir.LookForReply`, `AppDrive.ControlDir.ServeNext`).
- The TCP transport, process probing and the backends behind dispatch are not part of this model.
- `CloseSession.Session.Close`: process ids are not reused during the call; the Windows branches, which repeat one signal or call another program, are not modelled.
- `AutoLoop.CycleTerminates`: counts recorded rounds, since a worker that was posted but could not be recorded is undone on the board; new rows have new ids, and rows stay on the board.
- `AutoLadder.RungsCount`: says nothing of rounds after one that was pinned to a model off the ladder; those are what `AutoLadder.EveryRunAgrees` and `ModelLadder.UnknownPastCountsRounds` say. Rounds come onto the board through the dispatch doors only.
- `AutoVerdicts.FixExactly`: a test verdict of passed or skipped is one flag, which may be set and taken back at any time; which kind of review is dispatched, full or scoped, is not modelled.
- Machine selection, briefings, titles, merging of several reviews' findings and the failure classifier are inputs of the fix dispatch.
- `BoardDoctor.Doctor.RunSweep`: callbacks' answers are part of each row, so the capacity gate's own bookkeeping is not modelled; nor is filling in the outcomes of earlier decisions, or the trimming of the log by age; queue names contain no colon.
- How rows are classified and reclassified before a sweep is not part of this model, apart from the suppression step.
- `Audit.QueryAuditLog`: the log in index order stands for the table; writing and reading numbers is assumed to agree on the keys of the log (`Audit.LawfulOn`); deletions between pages are not modelled.
- `ConfigCache.Cache.CachedConfig`: the path is fixed and a file is read in one moment.
- `BugIntake.ParseBugReport`: the regular-expression engine is `MatchHere`, with the letters that match `i` irrespective of case spelled out.
- The URI branch of the dump command, restic, SQLite and Postgres internals, tmux, systemd, git and HTTP are not part of this model.
