# katamaran in Dafny

katamaran moves a running Kata Containers VM from one node to another with QEMU live migration. This
project models the parts of it where several steps, threads or machines have to agree, and proves what they
keep over every run:

* the orchestrator's run: one bounded channel shared by the poller, the progress tail, the staging goroutine and
  `Stop`, and the two readers of that channel (`Poll.dfy`, `RunProtocol.dfy`);
* how the destination Job is rendered, patched and created once among racing creators (`ExtraArgs.dfy`,
  `Staging.dfy`);
* the QMP client: line reassembly, and commands interleaved with events (`QmpLines.dfy`, `QmpClient.dfy`);
* the source and destination sides of the cutover with every command allowed to fail (`StorageSync.dfy`,
  `Waits.dfy`, `Tunnel.dfy`, `SourceRun.dfy`, `DestRun.dfy`);
* command-line replay (`Cmdline.dfy`, `CmdlineLaws.dfy`) and the marker lines between pods (`Markers.dfy`);
* indexes that must agree with a plain history: dashboard cursors, the factory's queue, the registry of pending
  adoptions (`Dashboard.dfy`, `Factory.dfy`, `Admission.dfy`).

`Text.dfy` holds the text operations of Go's standard library that the models need. `dafny verify dfyconfig.toml`
checks everything.

## How it is modelled

Code that loops or updates fields is a method or a class proved against a function on values; theorems are about
those functions. Interleavings are arbitrary lists of steps, where a step that is not enabled changes nothing.
Answers of Kubernetes, QEMU, the kernel and the clock are parameters, and nothing is assumed of them beyond what
a contract says. A command that reports failure may still have taken effect wherever that matters for clean-up.
In `SourceRun` and `DestRun` a run produces the list of its commands and findings; a rule states what must hold
before each of them, in the run so far and in the answers the surroundings gave, and every run obeys the rules and
ends clean.

## What does not hold, and exactly when it does

* The controller keeps only the last phase it reads, so a progress update that enters the channel behind a terminal
  one makes it lose a verdict: `RunProtocol.DispatchLosesExactly`, with a run that loses a success in
  `RunProtocol.DispatchCanLoseSuccess`.
* A staging failure that enters behind a success overrides it on the dashboard: `RunProtocol.DashboardIsPoll`, with a
  run in `RunProtocol.StagingCanOverrideSuccess`.
* Poll and the controller's recovery, watching the same cluster, do not always end alike: `Poll.RunsAgreeExactly`.
* A resumed Job equals the staged one only for a named destination node: `Staging.ResumeRebuildsExactly`,
  `Staging.StoredJobIsStagedExactly`.
* Commands carry no id, so an `Execute` that ends early lets the next one return a stale answer:
  `QmpClient.ExecuteGetsItsOwnAnswer`, `QmpClient.StaleAnswerAfterEarlyEnd`.
* A status query that goes unanswered makes every later answer of the same wait an old one:
  `QmpClient.FreshAnswerExactly`.
* After a line that is too long, its rest is returned as a line: `QmpLines.RestOfOverlongLine`.
* A page that outlives a restart of the dashboard can skip lines and not be told: `Dashboard.AfterRestartExactly`, with
  every such case of plain appends in `Dashboard.RestartSkips`.
* A bare `fd` part of a device value survives when no `fd=` occurs in it: `Cmdline.StripIsFilterExactly`.
* Texts that do not hold a directory, joined by it, need not come out joined by the new one, because the directory may
  start in one of them: `CmdlineLaws.ReplacedByJoinExactly`, with a text in `CmdlineLaws.OverlapShifts`.
* A tap netdev value with a `downscript=` and no script gets no script default, because the one text contains the
  other: `Cmdline.NetdevDefaults`, with the values `tap,ifname=...,downscript=...` in
  `Cmdline.DownscriptPassesForScript`.
* A captured command line that holds both NUL and newline is not read back: `Cmdline.CaptureRoundTripsExactly`.
* A progress line whose status text ends in another marker word is taken for that marker:
  `Markers.ProgressRoundTripsExactly`.
* Mirrors already started keep running when a later one cannot be started, because their clean-up is armed after the
  loop, and so does one whose own start was reported as failed and took effect: `SourceRun.MirrorsLeakExactly`.
* RAM migration that took effect is left running as far as the run knows, with no request to abort it and no status
  that said it is over, when its request was reported as failed, when the wait for the pause or the tunnel fails, and
  when the run takes a long silence for the end: `SourceRun.RunSource` states exactly when (`LeaksMigration`).
* A run can succeed on silence alone: once the guest has paused, queries that fail for more than 30 s are a success
  although nothing was heard of the migration: `SourceRun.SilenceSucceeds`, `Waits.UntoldGoodIsSilence`.
* The wait for the guest's pause is not ended by the migration's deadline, because an exceeded context deadline passes
  the test for a network timeout; a cancelled context does end it: `Waits.DeadlineEndsNothing`, `Waits.CancelEnds`,
  and `Waits.OpenExactly` for every turn.
* `setupTunnel` is documented to leave nothing behind on failure, and `teardownTunnel` to remove the route; the VM's
  former route, which the setup replaces, is not restored: `Tunnel.FailedSetupUndoneExactly`,
  `Tunnel.TeardownUndoesSetupExactly`. The model follows the code.
* A packet queue whose `add` is reported as failed although it took effect is left holding packets:
  `DestRun.HeldOnlyByFailedAdd`.

## Model

| member | source | states |
|---|---|---|
| Poll.LatestTerminalJobCondition | internal/orchestrator/orchestrator.go:78-94 | the loop finds the latest terminal condition |
| Poll.LatestTerminalIsNewest | internal/orchestrator/orchestrator.go:78-94 | that condition is a true Complete or Failed one, none is newer, and of equally new ones it is the last listed; none is found only if there is none |
| Poll.PollOnce | internal/orchestrator/native.go:868-944 | one turn of the poll loop: its verdict or new state, and that running is remembered once seen |
| Poll.RunPoll | internal/orchestrator/native.go:857-946 | poll stops at the first tick that decides when read from the whole history without state, with that verdict; it has announced a transfer exactly if a tick before showed a running source |
| Poll.VerdictMeaning | internal/orchestrator/native.go:857-946 | success exactly if the deciding tick shows the destination Complete; a source failure only more than 90 s after it was first seen, with no terminal destination up to then |
| Poll.PollAgreesWithRecover | internal/controller/reconciler.go:524-602 | in one pass, on every terminal destination poll and recovery give the same verdict in every state of poll; elsewhere exactly in the listed cases |
| Poll.PickJobs | internal/controller/reconciler.go:540-549 | the loop picks the last listed Job of each component |
| Poll.RecoverOnce | internal/controller/reconciler.go:550-602 | one pass of the recovery loop, branch by branch |
| Poll.ListingEndsExactly | internal/controller/reconciler.go:520-602 | how a pass ends the loop, told from the items listed alone: the newest terminal condition of the last destination Job, or no destination and a failed or missing source |
| Poll.ResumesExactly | internal/controller/reconciler.go:582-588 | a listing makes recovery resume exactly if no destination Job is listed and the last source Job has no terminal condition |
| Poll.RunRecover | internal/controller/reconciler.go:520-602 | the loop ends at the first pass that ends it, deadline and context included, failed lists never; Resume is called as often as earlier passes listed a source Job without terminal condition and no destination Job |
| Poll.RunsAgreeExactly | internal/controller/reconciler.go:520-602 | watching the same cluster, poll and recovery end at the same moment with the same verdict exactly if the first moment that ends either shows a terminal destination, no Job at all, or no destination and a source failed for longer than the grace; otherwise only one of them ends |
| RunProtocol.EveryRunIsSafe | internal/orchestrator/native.go:261-463 | under every interleaving no send or close panics, the channel stays within its capacity and loses nothing, and the two closes happen at most once and in order |
| RunProtocol.NothingEntersAfterClose | internal/orchestrator/native.go:687-697 | once the channel is closed no step of anyone puts anything in or closes again |
| RunProtocol.CancelledExactly | internal/orchestrator/native.go:824-846 | a run is cancelled exactly if a Stop call that had found it registered has gone on to cancel, or the staging goroutine has after its failure was reported, told from the steps |
| RunProtocol.StopEndsPoll | internal/orchestrator/native.go:824-846 | from every run whose poll is watching, a Stop call and poll's next look at its context have poll sending a failure, its last update |
| RunProtocol.CtxDoneNeedsCancel | internal/orchestrator/native.go:879-890 | poll sees a cancellation only in a run that was cancelled |
| RunProtocol.TailStaysWithin | internal/orchestrator/native.go:296-463 | however a run goes on, the progress tail sends no more than what it may still send: at most the update that had passed its check once the run is finished or cancelled, and nothing after its last |
| RunProtocol.TailSendsWhatItRead | internal/orchestrator/native.go:296-463 | the tail sends at most one update for each line read, and none unless its first try to find the source pod succeeded |
| RunProtocol.DrainedStream | internal/orchestrator/native.go:857-946 | every stream read to its end starts with submitted and has exactly one terminal update of poll, carrying the verdict of its observations; only progress or a staging failure follows it |
| RunProtocol.NoStageWithoutReplay | internal/orchestrator/native.go:606-634 | without command-line replay no run ever holds a staging failure |
| RunProtocol.DashboardVerdict | internal/dashboard/migrate.go:285-382 | the dashboard's loop keeps the last terminal phase of the stream |
| RunProtocol.StickyAfter | internal/dashboard/migrate.go:285-382 | that phase is poll's terminal one unless a staging failure comes after it |
| RunProtocol.DashboardIsPoll | internal/dashboard/migrate.go:285-382 | every drained run gives the dashboard a verdict, and it is poll's exactly unless a staging failure came in behind a success |
| RunProtocol.DispatchVerdict | internal/controller/reconciler.go:386-410 | dispatch reports the last phase read if it is terminal and nothing otherwise |
| RunProtocol.DispatchLosesExactly | internal/controller/reconciler.go:386-410 | dispatch loses the verdict exactly if the last update is a progress update, and otherwise agrees with the dashboard |
| RunProtocol.DispatchCanLoseSuccess | internal/controller/reconciler.go:386-410 | a run in which poll and the dashboard have success and dispatch has nothing |
| RunProtocol.StagingCanOverrideSuccess | internal/orchestrator/native.go:606-634 | a run in which poll decided for success and the dashboard and dispatch report a failure |
| ExtraArgs.FaultMeaning | internal/orchestrator/validation.go:140-161 | which fault a value has, character by character: too long, then two dots in a row, then an unsafe character; none exactly if none is there |
| ExtraArgs.ValidateRequestArgValues | internal/orchestrator/validation.go:96-135 | the loop finds the first unsafe field |
| ExtraArgs.FirstUnsafe | internal/orchestrator/validation.go:96-135 | no field is reported exactly if all are safe |
| ExtraArgs.AcceptedExactly | internal/orchestrator/validation.go:13-161 | a request is accepted exactly if its parties, options and every value passed on are in order, field by field, and its addresses are addresses |
| ExtraArgs.ParseOfArgv | internal/katamaran/cli.go:130-163 | every list of flags, written as arguments and parsed again, comes back |
| ExtraArgs.AcceptedRequestRoundTrips | internal/orchestrator/native.go:952-995 | for every accepted request, splitting the joined text on whitespace gives back the arguments, and parsing them gives back the flags |
| ExtraArgs.FlagsDetermineRequest | internal/orchestrator/native.go:952-995 | a setting is among the flags exactly if the request wants it, with exactly that value |
| ExtraArgs.SwitchesDetermineRequest | internal/orchestrator/native.go:952-995 | the two switches are among the flags exactly if the request sets them |
| ExtraArgs.FlagsInOrder | internal/orchestrator/native.go:952-995 | no flag is given twice and they come in one fixed order |
| Staging.ExpandShellVars | internal/orchestrator/native_jobs.go:100-117 | the index loop computes the expansion of the text |
| Staging.ExpandFillsPieces | internal/orchestrator/native_jobs.go:100-117 | every template made of plain text and references is filled piece by piece, whatever the values contain; values are not expanded again |
| Staging.DestFields | internal/orchestrator/native_jobs.go:48-56 | which field of the request each variable of the destination template comes out as |
| Staging.DestScheduling | internal/orchestrator/native_jobs.go:57-83 | a named node leaves the decoded Job as it is; otherwise it has no node, the request's constraints and the source node excluded, and nothing else changed |
| Staging.MergeSelector | internal/controller/reconciler.go:333-343 | the loop merges the source pod's selector under the spec's own, label by label |
| Staging.FillMeaning | internal/controller/reconciler.go:321-358 | what dispatch fills in for a named and for an automatic destination |
| Staging.LabelExactly | internal/orchestrator/native.go:636-640 | the names accepted are those the pattern matches, up to 253 characters |
| Staging.InjectRefusesExactly | internal/orchestrator/native.go:647-675 | when the patch is refused |
| Staging.InjectReplayFromPod | internal/orchestrator/native.go:647-675 | only the last command word of the first katamaran container is changed, or the patch is refused |
| Staging.PatchedCommandWords | internal/orchestrator/native.go:647-675 | for every accepted request the words of the patched command text are those before it, the request's arguments, and the flag with the pod as one word |
| Staging.PatchedJobWords | internal/orchestrator/native.go:647-675 | the rendered and patched Job: those are the words of its katamaran container's last command part, and nothing else of the Job changed |
| Staging.ResumeRebuildsExactly | internal/orchestrator/native.go:782-820 | the Job of Resume from the bare spec is the one Apply stages exactly if a destination node is named or there is no Job |
| Staging.TraceIsAccounted | internal/orchestrator/native.go:606-634 | in every interleaving of staging, Resume calls and deletes, each create is still there or was deleted, was reported to exactly one creator or was lost, and what is stored was rendered for some pod |
| Staging.CreatedAtMostOnce | internal/orchestrator/native.go:782-820 | without deletes the Job is created at most once and at most one creator is told so; in general creates exceed deletes by at most one |
| Staging.StoredJobIsStagedExactly | internal/orchestrator/native.go:782-820 | in every race of staging, Resume calls and deletes, each with its own rendering, the stored Job is one Apply would have staged exactly if a destination node is named or the staging goroutine created it |
| Staging.CreatedMeansCreated | internal/orchestrator/native.go:806-820 | a creator returns created exactly if its own create was accepted and put its Job into an empty place |
| Staging.CreatorsBegin | internal/orchestrator/native.go:782-800 | what each kind of creator starts with |
| Staging.ReturnsExactly | internal/orchestrator/native.go:782-820 | which call makes a creator return, and whether it reports a create, a failure or neither |
| QmpLines.LineReader.constructor | internal/qmp/client.go:45-49 | the reader starts with nothing carried over |
| QmpLines.LineReader.ReadSlice | internal/qmp/client.go:78-101 | what the buffered reader hands out is taken in order, and nothing left means a failed read |
| QmpLines.LineReader.ReadLine | internal/qmp/client.go:78-101 | one call gives the result, carry and unread input of the call function |
| QmpLines.CallAccounts | internal/qmp/client.go:78-101 | what one call returns, drops or keeps is exactly its carry followed by what it took; a returned line has its only newline at the end |
| QmpLines.CallsReassembleLines | internal/qmp/client.go:78-101 | for every way the bytes arrive and any number of calls, the lines returned are those of the bytes consumed and the carry is their unfinished tail, until a line that is too long has really arrived |
| QmpLines.LinesCover | internal/qmp/client.go:78-101 | the lines of a stream followed by its tail are the stream |
| QmpLines.OverflowsOnlyDrop | internal/qmp/client.go:78-101 | overflows or not, the lines returned are the lines, and the carry the tail, of the bytes that no overflow threw away |
| QmpLines.RestOfOverlongLine | internal/qmp/client.go:82-85 | after an overflow the next line returned is the rest of the over-long line if the overflow came before its end, and a line of its own otherwise |
| QmpClient.Client.BufferEvent | internal/qmp/client.go:64-72 | an event is parked behind the others, and the oldest goes when 1000 are parked |
| QmpClient.Client.Execute | internal/qmp/client.go:214-318 | the state and answer after the loop are those of the loop function |
| QmpClient.Client.WaitForEvent | internal/qmp/client.go:331-413 | the state and result after the queue search and the loop are those of the wait function |
| QmpClient.WaitFindsExactly | internal/qmp/client.go:331-413 | told from the queue and the wire: a parked event is found without reading; otherwise it is found exactly if the wire brings one with no unparsable line before, everything up to the first is read and that one matched; if not, nothing is matched and reading ends with the first unparsable line or at the end |
| QmpClient.ExecuteFindsExactly | internal/qmp/client.go:278-318 | told from the wire: a command reads up to the first message that is no event, and has it as its answer exactly if it parses |
| QmpClient.ParkDropsExactly | internal/qmp/client.go:64-72 | parking drops exactly if 1000 events are parked, and then the oldest; what is dropped and parked stays in order |
| QmpClient.ExecuteKeepsPartition | internal/qmp/client.go:278-318 | every event read is matched, dropped or parked exactly once, in order, bounded, and each dropped one was the oldest of exactly 1000 parked: kept by Execute |
| QmpClient.WaitKeepsPartition | internal/qmp/client.go:331-413 | the same, kept by WaitForEvent |
| QmpClient.UnmatchedEventSatisfiesWait | internal/qmp/client.go:331-413 | in every session, an event that was read and neither matched nor dropped satisfies a wait for its name without reading; one no younger is matched, the rest keep their order |
| QmpClient.EverySessionIsHealthy | internal/qmp/client.go:214-318 | after any calls, failed writes included, with a server that answers in order: the partition holds, answers are numbered in command order, and unanswered commands are at most those given up |
| QmpClient.ExecuteGetsItsOwnAnswer | internal/qmp/client.go:278-318 | an answered Execute has its own command's answer exactly if no earlier answer is outstanding, so always while none ended early |
| QmpClient.StaleAnswerAfterEarlyEnd | internal/qmp/client.go:278-318 | from every settled session, an Execute that times out makes the next one return its answer |
| QmpClient.LagOverCommands | internal/qmp/client.go:278-318 | over a stretch of commands the number of commands without a reply read never shrinks, and stays exactly if each had one read |
| QmpClient.FreshAnswerExactly | internal/migration/source.go:700-712 | in a stretch of commands, as in the wait for the end, an answer is its own command's exactly if nothing was outstanding at the start and each command before it had a reply read |
| Dashboard.CursorBuffer.constructor | internal/dashboard/server.go:30-52 | an empty buffer at number zero |
| Dashboard.CursorBuffer.Append | internal/dashboard/loadgen.go:188-203 | the newest entries up to the capacity stay and the next number grows by one |
| Dashboard.CursorBuffer.StartEpoch | internal/dashboard/migrate.go:215-219 | a new epoch empties the buffer and skips one number |
| Dashboard.CursorBuffer.Status | internal/dashboard/server.go:409-463 | the entries, next number and reset flag for a cursor |
| Dashboard.AppendLog | internal/dashboard/migrate.go:470-485 | an entry is clipped and appended |
| Dashboard.ParseStatusCursor | internal/dashboard/server.go:488-497 | only non-negative int64 numbers are cursors |
| Dashboard.CursorSurvivesText | internal/dashboard/server.go:488-497 | every number the server hands out is read back from its text |
| Dashboard.EveryPollIsFaithful | internal/dashboard/index.html:895-930 | after any history, the page holds a contiguous end of the current epoch with the server's buffer as suffix, gains exactly the new entries without a reset, and is reset exactly if the epoch changed or more entries passed than the buffer holds |
| Dashboard.LogsAndPingsAreFaithful | internal/dashboard/index.html:1043-1063 | that, for the log view and for the ping view with their own limits |
| Dashboard.AfterRestartExactly | internal/dashboard/server.go:409-463 | the first poll of a page that knew another server gives it all entries exactly if its cursor is not inside the new range past the start; otherwise it is not told and exactly the entries up to its cursor are lost to it |
| Dashboard.RestartSkips | internal/dashboard/server.go:409-463 | a page that saw n entries of one server misses the first n of the next one, untold, once that has written no fewer |
| Cmdline.CompactInPlace | internal/migration/destspawn.go:255-273 | filtering into the array that is read leaves exactly the kept parts in front |
| Cmdline.StripFDKeys | internal/migration/destspawn.go:255-273 | the in-place filter and the early return compute the stripped value |
| Cmdline.StripIsFilterExactly | internal/migration/destspawn.go:255-273 | the stripped value is the filtered join exactly if an fd= occurs or there is nothing to filter |
| Cmdline.StrippedHasNoFd | internal/migration/destspawn.go:255-273 | once an fd= occurs, no inherited part is left |
| Cmdline.UnitsCoverArguments | internal/migration/destspawn.go:156-249 | cutting the arguments into units loses nothing and keeps the order |
| Cmdline.RewriteOne | internal/migration/destspawn.go:171-242 | one turn appends what its unit renders to and skips what its unit covers |
| Cmdline.TransformCmdline | internal/migration/destspawn.go:156-249 | the one-pass loop equals rendering each unit on its own followed by -incoming defer, and fails exactly on no arguments |
| Cmdline.SubstituteReplaces | internal/migration/destspawn.go:229-237 | the test in front of a replacement only saves work |
| CmdlineLaws.RewritingLaws | internal/migration/destspawn.go:156-249 | how every argument list is rewritten, by what it starts with: each of the five flags, or a free argument |
| CmdlineLaws.LastFlagLaws | internal/migration/destspawn.go:178-227 | what becomes of a flag without its value at the end |
| CmdlineLaws.FreeArgumentsMove | internal/migration/destspawn.go:229-242 | free arguments are relocated one by one |
| CmdlineLaws.DirMoves | internal/migration/destspawn.go:229-231 | an argument cut at the source directory goes on as the same texts joined by the destination directory |
| CmdlineLaws.SandboxMoves | internal/migration/destspawn.go:232-234 | the same for the sandbox's name |
| CmdlineLaws.NvdimmMoves | internal/migration/destspawn.go:235-237 | the same for the image's path |
| CmdlineLaws.ReadonlyGoes | internal/migration/destspawn.go:238-240 | with nothing to move, texts joined by readonly clauses come out concatenated |
| CmdlineLaws.CutOf | internal/migration/destspawn.go:229-237 | every argument can be cut so that the laws apply |
| CmdlineLaws.WeaveOf | internal/migration/destspawn.go:238-240 | every argument is woven of texts without readonly clauses and such clauses |
| CmdlineLaws.ReplacedByJoinExactly | internal/migration/destspawn.go:229-237 | texts joined by one text come out joined by any other exactly if they are cut at its successive first places |
| CmdlineLaws.OverlapShifts | internal/migration/destspawn.go:229-237 | texts that do not hold the replaced one and still come out otherwise |
| CmdlineLaws.InheritedSettings | internal/migration/destspawn.go:255-273 | exactly four keys are inherited descriptors |
| CmdlineLaws.KeepCat | internal/migration/destspawn.go:255-273 | filtering works part by part and keeps the order |
| CmdlineLaws.NetdevGains | internal/migration/destspawn.go:196-218 | exactly which parts a tap value gains, in order |
| CmdlineLaws.KernelFormatIsRead | internal/migration/destspawn.go:291-306 | arguments in the kernel's format are read back |
| CmdlineLaws.LineFormatIsRead | internal/migration/destspawn.go:291-306 | arguments one in each line are read back |
| Cmdline.NetdevDefaults | internal/migration/destspawn.go:196-218 | a tap value ends up with an interface-name key exactly if it had one or the text ifname= does not occur in it, and with a script key exactly if it had one or script= does not occur; any other value is only stripped |
| Cmdline.DownscriptPassesForScript | internal/migration/destspawn.go:207-209 | every value tap,ifname=N,downscript=S without fd= or fds= in it is left as it is, without a script |
| Cmdline.NetdevHasNoFd | internal/migration/destspawn.go:196-218 | a rewritten netdev value with an fd= has no inherited part left |
| Cmdline.ParseCmdlineBytes | internal/migration/destspawn.go:291-306 | the loop splits at NUL if there is one, else at newlines, and keeps the non-empty parts |
| Cmdline.CaptureRoundTripsExactly | internal/migration/destspawn.go:279-335 | the captured file is read back as the process's arguments exactly if the raw bytes do not hold both NUL and newline |
| Markers.ParseProgressFields | internal/orchestrator/native.go:466-476 | the loop collects the key=value words, later ones winning |
| Markers.FieldsSurvive | internal/orchestrator/native.go:466-476 | fields whose texts are single words are read back from their joined text |
| Markers.FieldExactly | internal/orchestrator/native.go:466-476 | a word is a field exactly if it is a non-empty key without =, then =, then the value |
| Markers.CollectedExactly | internal/orchestrator/native.go:466-476 | a key has the value of the last word that sets it, and is there only if one does |
| Markers.NothingExactly | internal/orchestrator/native.go:392-445 | a line is passed over exactly if it holds none of the markers |
| Markers.ResultRoundTrips | internal/migration/source.go:383-384 | for all int64 numbers and every prefix without the marker, a result line is read back exactly |
| Markers.LimitRoundTrips | internal/migration/source.go:279-280 | the same for a downtime-limit line |
| Markers.ProgressRoundTripsExactly | internal/migration/source.go:743-744 | a progress line with any whitespace-free status is read back exactly if and only if the status does not end in a marker word that is looked for first |
| StorageSync.IndexJobs | internal/migration/source.go:605-608 | the table holds the last entry of every listed device and no other |
| StorageSync.LastEntryIsLast | internal/migration/source.go:605-608 | the entry used for a device is the last one listed |
| StorageSync.Turn | internal/migration/source.go:590-661 | one walk over the job table in any order answers as the order-free rule allows |
| StorageSync.WaitForStorageSync | internal/migration/source.go:570-663 | the answer is one the first deciding poll allows when told from the listings alone, and no poll before it decides |
| StorageSync.SyncedMeansMirrored | internal/migration/source.go:570-663 | success means every mirror was ready in some poll, had not ended, and was in every poll from its first sighting until then |
| StorageSync.TurnIsOrderFree | internal/migration/source.go:611-655 | two outcomes of one walk, state carried on included, are equal or both name a broken mirror |
| StorageSync.AnswerIsOrderFree | internal/migration/source.go:611-655 | two answers one poll allows, told from the listings, are equal, or both name a broken mirror |
| StorageSync.DecidesOrWaits | internal/migration/source.go:570-663 | a poll leaves the wait open exactly if it allows no answer |
| Waits.WaitForStop | internal/migration/source.go:303-348 | the loop computes the ending of the wait, and whether it was learnt that the migration is over |
| Waits.StopResultIsFirst | internal/migration/source.go:303-348 | that is the ending of the first turn that decides, and there is none exactly if no turn does |
| Waits.GoodStopWasObserved | internal/migration/source.go:303-348 | a reported pause was observed: a STOP event was parked or delivered, or a query reported completion |
| Waits.OpenExactly | internal/qmp/client.go:331-413 | a turn leaves the wait open exactly if nothing is at hand, the read timed out or the context deadline passed, and no query says the migration is over |
| Waits.PauseExactly | internal/qmp/client.go:331-413 | a turn sees the pause exactly if a STOP event is parked, or one is delivered with no bad line before it, or a query after a timed-out read reports completion |
| Waits.DeadlineTurn | internal/migration/source.go:310-312 | past the deadline a turn leaves the wait open exactly if nothing is at hand |
| Waits.CancelEnds | internal/migration/source.go:303-348 | a turn that starts with a cancelled context ends the wait |
| Waits.DeadlineEndsNothing | internal/migration/source.go:303-348 | any number of turns past the deadline with nothing at hand leaves the result of any wait unchanged |
| Waits.WaitForMigrationComplete | internal/migration/source.go:692-758 | the wait ends at the first deciding turn, where a silence is measured from the first turn of its unbroken run; the lines printed are exactly the selected ones |
| Waits.EndingExactly | internal/migration/source.go:692-758 | each turn is good exactly for a reported completion or a silence of more than 30 s measured from its first turn, and bad exactly for the deadline, a malformed answer, failure or cancellation |
| Waits.GoodMeansDoneOrSilent | internal/migration/source.go:692-758 | success means a reported completion or an unbroken silence of more than 30 s |
| Waits.UntoldGoodIsSilence | internal/migration/source.go:712-727 | a good end was told by a status exactly if that reported completion, and is otherwise such a silence |
| Waits.LongSilenceIsGood | internal/migration/source.go:712-730 | with a clock that does not run backwards, every unbroken silence of more than 30 s is a success wherever one starts to measure |
| Waits.PrintedIsConsecutive | internal/migration/source.go:731-748 | of two consecutive progress lines the second has another status or at most half the bytes left |
| Waits.LinePrintedExactly | internal/migration/source.go:736-748 | a status is printed exactly if it differs from the last one printed or at most half its bytes remain; the first one if it is not empty |
| Waits.SameStatusHalves | internal/migration/source.go:731-748 | n further lines with one status mean at most 1/2^n of the bytes left |
| Tunnel.SetupTunnel | internal/migration/tunnel.go:53-124 | the host after the setup is that of its commands, and it succeeds exactly if the addresses fit and the three commands do |
| Tunnel.SetupForwards | internal/migration/tunnel.go:53-124 | after a success the device is up towards the destination with the right encapsulation and the VM's route goes through it |
| Tunnel.SetupLeaves | internal/migration/tunnel.go:53-137 | after a failure the device is there exactly in the listed cases |
| Tunnel.SetupTouchesOnly | internal/migration/tunnel.go:53-137 | other devices and other addresses' routes keep their state whatever fails |
| Tunnel.TeardownUndoesSetupExactly | internal/migration/tunnel.go:144-148 | tearing down a tunnel with a fresh name restores the host exactly if the VM had no route before |
| Tunnel.FailedSetupUndoneExactly | internal/migration/tunnel.go:101-137 | a failed setup with a fresh name leaves the host as it was exactly in the listed cases |
| SourceRun.ValidateDriveIDs | internal/migration/validation.go:52-68 | accepted exactly if there is an id, all are well-formed and no two are equal |
| SourceRun.StartMirrors | internal/migration/source.go:196-215 | mirrors are started in order up to the first one reported as failed, which may run all the same |
| SourceRun.AwaitMirrors | internal/migration/source.go:233-238 | the wait comes out as the first deciding poll says, told from the listings alone |
| SourceRun.StartMigration | internal/migration/source.go:217-292 | RAM migration runs exactly if the polls said that the mirrors are in step and the three commands are accepted; what runs after a failure |
| SourceRun.ComputeLimit | internal/migration/source.go:259-276 | twice the round trip plus the floor as a 64-bit sum, or the configured limit |
| SourceRun.Tune | internal/migration/source.go:259-292 | the limit announced is the one programmed, and RAM migration runs exactly if both commands are accepted |
| SourceRun.CutOver | internal/migration/source.go:295-365 | packets are redirected exactly if the guest was seen to pause and the tunnel could be set up, and given up exactly if either failed |
| SourceRun.CancelMirrors | internal/migration/source.go:217-231 | every mirror is cancelled once, in the order of their start |
| SourceRun.Finish | internal/migration/source.go:367-435 | after the wait, mirrors are cancelled, a bad end is followed by one abort, a tunnel is kept for convergence after a good end and then removed, and RAM migration counts as over only if a status said so or it was aborted |
| SourceRun.RunSource | internal/migration/source.go:126-442 | every run obeys the command rules; it succeeds exactly if everything it needs goes well; an abort is requested exactly if the completion wait is reached and ends badly; when it returns every tunnel raised was removed once, every mirror was cancelled exactly once if all had been started, and mirrors or RAM migration are left running exactly in the listed cases; what the host is on every exit |
| SourceRun.SilenceSucceeds | internal/migration/source.go:712-727 | a run whose guest paused and whose queries then fail for longer than the grace succeeds, with RAM migration left running as far as it knows |
| SourceRun.UnsetRunsAsIpip | internal/migration/source.go:137-139 | a run without a tunnel mode has the outcome, tunnels, teardowns and host of the same run with IPIP |
| SourceRun.MappedRunsAsPlain | internal/migration/source.go:126-127 | an IPv4 address written as an IPv6 one runs as the address itself |
| SourceRun.HandedOverForwards | internal/migration/source.go:351-365 | a run that hands over and was not told to do without has raised exactly one tunnel, which forwards the VM's packets by the named mode, or by IPIP if none is named |
| SourceRun.NoTunnelMeansNone | internal/migration/source.go:354-355 | a run told to do without a tunnel raises none and leaves the host alone |
| SourceRun.WorldCounts | internal/migration/source.go:196-442 | what the results count are the commands in the log |
| SourceRun.MirrorsLeakExactly | internal/migration/source.go:200-231 | a mirror is left running exactly if one could not be started and an earlier one was, or its own start took effect |
| SourceRun.EveryLogIsInStep | internal/migration/source.go:196-442 | whatever obeys the rules has all mirrors started past the first phase, cancels them in order and at most once, and removes at most what it raised |
| SourceRun.EveryLogIsWitnessed | internal/migration/source.go:196-442 | what a log that obeys the rules has reached, the answers observed allow |
| SourceRun.MigratesOnlyWhenMirrored | internal/migration/source.go:196-294 | whenever RAM migration is requested, every drive's mirror was started, none was cancelled, and each was ready in a poll up to which it was never missing once listed and had not ended |
| SourceRun.ForwardsOnlyWhenPaused | internal/migration/source.go:303-365 | whenever a tunnel is attempted, RAM migration had been accepted and a STOP event or a completed migration had been observed |
| SourceRun.AbortsOnlyAfterBadEnd | internal/migration/source.go:389-398 | an abort is requested only after the completion wait ended badly |
| DestRun.PrepareQueue | internal/migration/dest.go:131-165 | the queue after its installation, for every way the commands end |
| DestRun.ExportDrives | internal/migration/dest.go:253-261 | drives are exported in order up to the first refusal |
| DestRun.ServeDrives | internal/migration/dest.go:222-261 | the server's state and what is owed after starting it and exporting |
| DestRun.AwaitGuest | internal/migration/dest.go:266-302 | packets are held, the guest is awaited, and only a guest seen to resume is followed by a release: what the queue is after each way it can end |
| DestRun.CleanUp | internal/migration/dest.go:167-252 | the server and the queue that are still owed are stopped and removed, and nothing else |
| DestRun.RunDestination | internal/migration/dest.go:131-335 | every run obeys the command rules, succeeds exactly if everything it needs goes well, owes nothing at its end, has asked the server to stop as often as it started it, and leaves packets held or the server up exactly in the listed cases |
| DestRun.EveryLogIsSound | internal/migration/dest.go:131-315 | packets are held during the whole wait for the guest; while a run goes well they are held at no other time than up to the release after it and right after the queue is added; a guest that runs was seen to resume and found all drives exported |
| DestRun.AnnouncedRunDid | internal/migration/dest.go:131-335 | what a run that got to its end did, by its configuration: queue commands exactly with an interface that is there, channels, listener, server and exports |
| DestRun.BlockingWindow | internal/migration/dest.go:266-302 | from the command that holds packets, issued when all exports are up, packets are held up to the next command on the queue; that is a release, and then the guest was seen to resume, or a removal, and then the run has failed |
| DestRun.HeldOnlyByFailedAdd | internal/migration/dest.go:131-177 | if removing a queue works, packets stay held exactly if an add took effect although it was reported as failed |
| Factory.Server.constructor | internal/factory/server.go:60-64 | an empty queue, no configuration |
| Factory.Server.OfferVM | internal/factory/server.go:69-74 | the VM goes behind the queue and nothing else changes |
| Factory.Server.SetConfig | internal/factory/server.go:104-110 | the configuration is replaced and may be warned about again |
| Factory.Server.GetConfig | internal/factory/server.go:79-98 | the configuration if there is one; the first refusal since the last change is the one to warn about |
| Factory.Server.GetBaseVM | internal/factory/server.go:126-157 | the first VM of the queue leaves it and is described in the reply, or the request is refused for the first reason that applies and nothing changes |
| Factory.Server.Quit | internal/factory/server.go:180-186 | only the quit flag changes |
| Factory.Watcher.Scan | internal/factory/watcher.go:77-132 | one scan offers the new well-formed sandboxes in directory order, sets the configuration, and remembers the sandboxes read that are still there |
| Factory.SeenMeansDealtWith | internal/factory/watcher.go:77-132 | a sandbox is remembered exactly if it was read at some scan and was in every listing since; failed listings do not count |
| Factory.OfferedExactly | internal/factory/watcher.go:77-132 | a scan offers exactly the sandboxes whose file is well-formed now and was not read before in the unbroken stretch, each with its VM |
| Factory.OffersInOrder | internal/factory/watcher.go:91-126 | offers come in directory order |
| Factory.OncePerStretch | internal/factory/watcher.go:77-132 | over an unbroken stretch of listings a sandbox is offered exactly once if it was not dealt with before and the first file read in the stretch is well-formed, and never otherwise |
| Factory.NothingIsLost | internal/factory/server.go:126-157 | after any scans and requests, the VMs offered are those served followed by the queue, in order, and they depend on the scans alone |
| Factory.ConfigFollowsOffers | internal/factory/watcher.go:121-125 | the configuration is the one computed from the one given at startup and all offers so far |
| Factory.ConfiguredIsLatest | internal/factory/server.go:104-110 | that is the configuration of the latest VM that carried one |
| Factory.NoneServedAfterQuit | internal/factory/server.go:133-139 | after a request to quit no VM is handed out |
| Admission.Registry.constructor | internal/controller/admission.go:51-53 | an empty registry stands for an empty history |
| Admission.Registry.Mark | internal/controller/admission.go:57-68 | a mark is added to the history the table stands for; the empty uid is ignored |
| Admission.Registry.Clear | internal/controller/admission.go:72-79 | a clearing is added to that history; the empty uid is ignored |
| Admission.Registry.MigrationFor | internal/controller/admission.go:84-99 | the pruning table answers as the unpruned history does, now and later |
| Admission.PrunedTableAnswers | internal/controller/admission.go:84-99 | a table that stands for a history, however much was pruned, answers now and later as the marks and clearings alone do |
| Admission.AnswerExactly | internal/controller/admission.go:57-99 | a lookup answers a migration exactly if the last mark or clearing of the controller is a mark of it made no longer than five minutes ago |
| Admission.BlocksExactly | internal/controller/admission.go:114-147 | exactly which owners turn a pod away: controllers of four kinds with a mark in force |
| Admission.ShouldDenyPodCreate | internal/controller/admission.go:114-133 | a pod is denied exactly if it is not an adoption pod and a managing controller of it has a mark in force, and the first one is named |
| Admission.CreateAdoptionPod | internal/controller/reconciler.go:835-894 | the adoption pod has its own labels, all other labels of the source pod, and its owners |
| Admission.AdoptionLabels | internal/controller/reconciler.go:836-853 | label by label: the pod's own three with their values, and every other label of the source pod |
| Admission.AdoptionPodIsNeverDenied | internal/controller/admission.go:114-133 | for every history, clock and source pod the pod built for it is admitted, while the source pod itself is denied exactly if one of the same owners has a mark in force |
| Admission.MarkSource | internal/controller/reconciler.go:422-434 | exactly the first managing controller of the source pod is marked |
| Admission.ReplacementsAreDenied | internal/controller/admission.go:114-133 | a managed pod of a marked controller is denied exactly until five minutes after the mark, whatever else happens that does not concern that controller |

## Left out

- The Kubernetes API, discovery, leader election, certificates: only a Job place with atomic create, lookups and deletes that may fail is modelled.
- JSON, YAML, base64 and protobuf decoding: decoded values are the models' inputs, and the YAML decoder is an arbitrary function.
- QEMU, queueing disciplines and tunnels inside the kernel: abstract states; a plug queue is taken to hold packets from the moment it is added.
- Liveness: nothing is said about when a goroutine is scheduled, when a wait gets its next answer, or whether a reader drains the channel.
- Go panics other than a send on, or a second close of, a closed channel.
- Apply's path for an automatically selected destination whose second rendering fails.
- The QMP handshake: sessions start after it.
- RunSource's steps before validation: resolving the pod, capturing the command line, emitting the VM configuration, and the sleep before a replayed destination.
- RunDestination's steps before the queue is installed and after the announcement: argument checks, spawning the replayed QEMU, metadata file, moving the process.
- ExtraArgs.FaultMeaning: counts a value's length in characters, not bytes; they differ only for values with characters outside the safe set, which are rejected either way, possibly for another reason.
- SourceRun.RunSource: what becomes of a cancel, an abort or a metrics query is not modelled, only that it is issued; a wait whose answers have not all come leaves the run pending.
- DestRun.RunDestination: the wait for the guest's resumption is one answer, good or bad.
- Staging.ResumeRebuildsExactly: states the comparison for the requests of the controller, which never carry a source node of their own.
- Cmdline: finding the sandbox directory and copying the nvdimm image; the directories are parameters.
- The watcher's panic recovery, the factory's status listing, history pages, metrics and log output: easy members without a deeper law.
- Migration deletion and finalizers in the controller, and the containerd shim.
- Go's standard library is not part of this repository: the text operations the models need are defined and proved in their own module.
