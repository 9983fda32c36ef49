# Krellin engine: a verified model

Krellin runs coding agents against a repository. Clients send actions over a socket; a daemon routes them
to sessions; each session queues them and executes them one at a time, emitting events to its subscribers.
Agents propose patches, which are applied to files and can be undone, and answer in JSON, which is cut out
of free text. This project models that engine in Dafny and proves what its packages promise.

| file | models |
|---|---|
| `Text.dfy`, `Decimal.dfy` | splitting and joining, lines of a file, decimal numbers |
| `Hunks.dfy` | applying hunks one after another under a running offset (`internal/patch/patch.go`) |
| `HunkOrder.dfy` | hunks listed in any order, and what the running offset does to them |
| `EditScripts.dfy` | edit scripts, cutting them into hunks, numbering of insertions |
| `Inversion.dfy` | turning a patch around |
| `PatchParser.dfy` | the unified-diff reader, and a printer it is checked against |
| `Headers.dfy` | which headers are read and as what, however they are written; the reader said line by line |
| `Preamble.dfy` | lines between two files of a patch, which are read as part of the last hunk before them |
| `Bookkeeping.dfy` | `Apply`, `Revert` and `Diff` on a disk that may refuse any read or write |
| `PatchLaws.dfy`, `Undo.dfy`, `EndToEnd.dfy` | one Apply end to end; undo over whole runs; from edit scripts to files |
| `Cases.dfy` | inputs on which Apply stops half-way and on which Revert does not restore |
| `WorkQueue.dfy` | the blocking queue with its condition variable and context watchers |
| `SessionEvents.dfy` | start, executor and fan-out of one session, its subscriber list and the closing of channels |
| `SessionLaws.dfy` | what a session's steps come to: which way it starts, what is accepted, reported and heard |
| `Routing.dfy`, `RoutingLaws.dfy` | connections and routers; whom an action is for, and when a connection ends |
| `Pipeline.dfy` | routing, sessions and their blocking queues put together |
| `JsonScan.dfy`, `Responses.dfy` | the brace scanner and the reply parsers |
| `AgentLoop.dfy`, `Planner.dfy` | the tool loop and the planner |
| `PlanLaws.dfy` | a planned run step by step: retries, where plans come from, what is said in the end |
| `Agent.dfy` | what a prompt's wording asks for, what the rules then promise, and a whole run: planner, then loop |
| `ShellWords.dfy`, `Delimiter.dfy` | shell quoting and here-document delimiters |

What the outside world answers is a parameter everywhere: whether the k-th read or write of a call goes
through, what the model says to the k-th prompt, what a tool gives, what decoding JSON gives, where a file
name leads. Every statement holds for all such answers. Concurrent parts are state machines in which
whatever is done under a mutex is one step; their statements hold in every state of every run, for any number
of clients, consumers, sessions and subscribers.

Places where the code does not do what its documentation or a reader may expect, each with a lemma that says
exactly when it does:

- Apply is documented to be atomic (planning_docs/krellinv0architecture.md:549, planning_docs/modularization.md:126),
  and is not: a write that fails after an earlier one went through leaves the earlier file replaced. For a
  diff that gets as far as the writes this cannot happen exactly when all files but the last are left the same by
  their hunks (`PatchLaws.AtomicExactly`, `PatchLaws.FailureWhileWriting`, `Cases.HalfApplied`).
- A hunk listed after one that stands below it is looked for in the wrong place, off by the growth of the
  hunks below listed before it. A hunk with old text fails there, unless that text happens to stand there
  again; then it is carried out there and reported as a success. A pure insertion is carried out there in any case,
  even when all lines are different, unless the place is above the file (`HunkOrder.DisplacedHunk`,
  `HunkOrder.LastDisplaced`, `HunkOrder.InsertionMisplaced`, `HunkOrder.OutOfOrderMisplaces`).
- A Revert restores everything only if names leading to one path remember one content; a second spelling of
  a patched path breaks that (`Undo.UndoExactly`, `Undo.SecondSpellingBreaksUndo`, `Cases.TwoSpellings`).
- An added line starting with `++ b/` reads as a file header (`PatchParser.ParsePrintExactly`).
- Lines between two files are read as part of the last hunk before them. They ruin that file's part unless
  they are blank, or say by chance what stands there; a bare `--- a/` line deletes a line
  (`Preamble.PreambleExactly`, `Preamble.UnmarkedPreambleFails`, `Preamble.BareOldNameDeletes`).
- A pure insertion goes before the line its header names, unlike the POSIX `diff` utility's numbering
  (`EditScripts.PosixInsertionLandsRight`).
- A file left with no lines is written as one newline, so its patch cannot be undone by the inverse patch
  (`Inversion.InverseRestoresContent`).
- A second Unsubscribe of a channel panics; nothing else of the fan-out does (`SessionEvents.PanicsExactly`).
- A model's raw reply is handed back without looking at the write and multi-step rules when tools are not
  enforced, so that a prompt such as `fix main.go` may be answered with nothing written
  (`Agent.RulesHoldExactly`, `Agent.WriteWithoutTools`, `Agent.FixMayBeIgnored`).
- The write rule looks at which tools were run, not at what came of them: a failed write counts, in the loop
  and in a plan (`Agent.FinalMeansWrittenExactly`, `Agent.FinishedMeansWrittenExactly`).
- A brace in the words before a JSON object decides what is cut out of a reply: if it closes, the object is not
  seen, and if it stays open the object is swallowed (`JsonScan.ExtractExactly`, `JsonScan.EarlierBracesDecide`,
  `JsonScan.OpenBraceSwallows`). For envelopes that does not matter, as every brace is tried: the second look at the
  object cut out never finds one (`Responses.RecursionExactly`).
- Closing a queue drops what is queued (`WorkQueue.FirstInFirstOut`).

The package comment of `internal/patch` (doc.go:2-3) promises that Apply never partially applies changes without
bookkeeping. That promise is kept: in every state of every run a path is unchanged or its first content is
remembered (`Undo.RunTracks`).

## Model

| member | source | states |
|---|---|---|
| Text.SplitJoin | internal/patch/patch.go:112-112 | splitting undoes joining for parts without the separator |
| Text.JoinSplit | internal/patch/patch.go:112-112 | joining undoes splitting, and no part of a split holds the separator |
| Text.LinesRender | internal/patch/patch.go:182-226 | lines written to a file read back as the same lines, except that no lines read back as one empty line |
| Text.RenderLines | internal/patch/patch.go:182-226 | reading and writing a file changes nothing but adds a missing final newline |
| Decimal.AtoiItoa | internal/patch/patch.go:165-179 | decimal reading undoes writing for every 64-bit integer and refuses every other |
| Decimal.AtoiExactly | internal/patch/patch.go:165-179 | read as a number is exactly an optional sign, any zeros and a written number, as long as the value fits 64 bits |
| Hunks.ApplyHunk | internal/patch/patch.go:192-224 | the loop over a hunk body splices the hunk in where it fits, reports the first error otherwise, and its added minus removed count is the growth |
| Hunks.ApplyHunks | internal/patch/patch.go:181-227 | the loop over all hunks is the pass that the laws below are about, errors included |
| Hunks.Check | internal/patch/patch.go:196-221 | a body is accepted exactly when it is well marked and its context and deleted lines stand at the cursor |
| Hunks.ApplyAt | internal/patch/patch.go:188-224 | a hunk applies exactly where it fits, replacing its old text by its new text and nothing else |
| Hunks.FirstWrongLineDecides | internal/patch/patch.go:203-220 | the error is that of the first body line that is wrong: context, delete or invalid line |
| Hunks.SequentialIsSimultaneous | internal/patch/patch.go:181-227 | for ordered hunks the pass with its running offset succeeds exactly when every hunk fits the original lines, and then equals replacing them all at once |
| Hunks.TailCarried | internal/patch/patch.go:223-224 | lines below everything the hunks touch are carried along unchanged |
| Hunks.OnlyMeaningMatters | internal/patch/patch.go:187-225 | header counts, new starts, blank body lines and the interleaving of additions and deletions do not affect the result |
| HunkOrder.AnyOrder | internal/patch/patch.go:181-227 | for disjoint hunks in any order, as long as for each hunk the growths of those listed before it and standing below it add up to zero, the pass has done what all of them do at once, and its offset is the sum of their growths |
| HunkOrder.HarmlessOrder | internal/patch/patch.go:186-225 | an order in which the hunks listed before each hunk and below it leave the number of lines alone gives what the order from the top down gives |
| HunkOrder.DisplacedHunk | internal/patch/patch.go:186-225 | the first hunk with a displacement is looked for that many lines off its place: the patch fails if it does not fit there, as when its first old line occurs only once, and else the pass goes on from having carried it out there |
| HunkOrder.LastDisplaced | internal/patch/patch.go:186-225 | when only the last hunk is displaced the pass succeeds exactly when that hunk fits where it is looked for, and is right exactly when carrying it out there makes no difference |
| HunkOrder.InsertionMisplaced | internal/patch/patch.go:186-225 | a displaced pure insertion succeeds unless it is displaced to above the file, and is right exactly when the inserted lines commute with the lines between the two places |
| HunkOrder.OrderExactly | internal/patch/patch.go:186-191 | if the first displaced hunk, should there be one, has old text whose first line occurs once, the pass succeeds exactly for the orders without displacement, with the result of all hunks at once |
| HunkOrder.LowerFirst | internal/patch/patch.go:186-225 | of two hunks with the lower one first, the pass succeeds exactly when the upper one fits off its place by the growth of the lower one, and agrees with the other order exactly when it makes no difference there |
| HunkOrder.OutOfOrderMisses | internal/patch/patch.go:186-221 | two one-line changes that apply from the top down fail in the other order |
| HunkOrder.OutOfOrderMisplaces | internal/patch/patch.go:186-225 | an insertion listed second is put in the wrong place of a file whose lines are all different, and reported as a success |
| Hunks.WrapAroundHarmless | internal/patch/patch.go:188-191 | computing positions in wrapping 64-bit arithmetic accepts the same positions as exact arithmetic |
| EditScripts.AnyCutOfAnyScriptApplies | internal/patch/patch.go:181-227 | any edit script over any file, cut into hunks anyhow and with any context, is accepted and gives exactly the script's target |
| EditScripts.WholeFileCutRefusesOtherFiles | internal/patch/patch.go:203-212 | a hunk mentioning every line of a file is accepted by exactly the files that begin with all those lines, and keeps what they have below |
| EditScripts.PosixInsertionLandsRight | internal/patch/patch.go:188-191 | an insertion numbered as the POSIX diff utility does lands right exactly when there is a line above and every inserted line repeats it |
| EditScripts.PosixInsertionLands | internal/patch/patch.go:188-224 | such an insertion lands one line too high, or is out of range at the top |
| Inversion.InverseRestoresLines | internal/patch/patch.go:181-227 | the inverse of an ordered, consistently numbered patch takes the patched lines back to the old lines |
| Inversion.InverseRestoresContent | internal/patch/patch.go:181-227 | on file contents the inverse always applies, and restores the old bytes exactly when they ended in a newline and the patch left at least one line |
| Inversion.AnyCutCanBeUndone | internal/patch/patch.go:181-227 | the hunks of any cut of any edit script can be turned around and undo it |
| PatchParser.ParseUnifiedDiff | internal/patch/patch.go:111-144 | the index-moving parse loop with its inner body loop is the reader the laws below are about, errors included |
| PatchParser.BodyLength | internal/patch/patch.go:130-135 | a hunk body is the longest run of lines that are not headers |
| PatchParser.EveryLineIsTakenOnce | internal/patch/patch.go:116-139 | every line of any diff is taken exactly once and in order: as a file header, a hunk header, a line of the hunk before it, or passed over, never after a hunk; the result depends on nothing else |
| PatchParser.RangeRoundTrip | internal/patch/patch.go:165-179 | a printed range, with its count left out when it is one, reads back |
| PatchParser.HeaderRoundTrip | internal/patch/patch.go:146-163 | a printed hunk header, with its closing marks, reads back as its four numbers, for all 64-bit numbers |
| Headers.RangeExactly | internal/patch/patch.go:165-179 | read as a range is exactly a number, counting one, or two with a comma between them and anything behind a second comma |
| Headers.HeaderExactly | internal/patch/patch.go:146-163 | read as a hunk header is exactly a line whose second and third words are ranges, a minus and a plus taken off them; nothing else of it matters |
| Headers.HeadingReads | internal/patch/patch.go:146-163 | a header with its two ranges reads the same with nothing behind them, the closing marks, a section heading or any other text |
| Headers.ParseRespelled | internal/patch/patch.go:111-163 | printed entries read back as the same names and hunks when their headers carry other tails |
| Headers.ParseLineByLine | internal/patch/patch.go:111-144 | a text is accepted exactly when it names a file and each of its hunk headers can be read and has a file above it; its files and each file's hunks are then those of its lines, each hunk with all lines up to the next header |
| PatchParser.ParsePrint | internal/patch/patch.go:111-179 | a printed patch reads back as the same files in order with the same hunks under every name, repeated names collecting theirs |
| PatchParser.EveryFileMarkIsRead | internal/patch/patch.go:119-135 | a successful parse names one file for every line that starts as a file header, wherever it stands |
| PatchParser.ParsePrintExactly | internal/patch/patch.go:119-135 | for marked bodies the round trip holds if and only if no body line starts with the file mark |
| PatchParser.TextBeforeFirstFileIgnored | internal/patch/patch.go:116-139 | a preamble before the first file changes nothing |
| PatchParser.TextAfterHunkIsSwallowed | internal/patch/patch.go:130-137 | whatever follows a hunk up to the next header becomes part of that hunk |
| Preamble.OnlyBlankLinesAreHarmless | internal/patch/patch.go:130-137 | lines swallowed by a hunk leave its meaning alone exactly when all of them are blank |
| Preamble.SwallowedFits | internal/patch/patch.go:196-221 | a hunk with swallowed lines fits exactly where it fits without them, they are marked and their old text stands directly behind |
| Preamble.PreambleExactly | internal/patch/patch.go:130-137 | with lines between files the patch parses, and in the part of the file before them they act like one more hunk behind its last hunk: it fails unless what they keep or delete stands there, and else goes on with the hunks of later entries for that file |
| Preamble.UnmarkedPreambleFails | internal/patch/patch.go:218-220 | with a line such as `diff --git` between files the file before it fails for every content |
| Preamble.BareOldNameDeletes | internal/patch/patch.go:208-212 | a bare `--- a/` line between files deletes the line `-- a/` and the name behind the last hunk, and fails the file where there is none; later hunks for that file then start one line earlier |
| PatchParser.BadLineFails | internal/patch/patch.go:218-220 | a hunk with a badly marked line makes its file fail for every content |
| Bookkeeping.Bookkeeper.constructor | internal/patch/patch.go:21-23 | a new bookkeeper remembers nothing |
| Bookkeeping.Bookkeeper.StageFiles | internal/patch/patch.go:34-50 | the reading loop: records first contents and computes targets without writing |
| Bookkeeping.Bookkeeper.Apply | internal/patch/patch.go:25-59 | Apply changes disk and ledger as its specification does, for every outcome of every read and write, and keeps every patched file remembered |
| Bookkeeping.Bookkeeper.Revert | internal/patch/patch.go:61-69 | Revert writes remembered contents in some order of the map until a write fails |
| Bookkeeping.Bookkeeper.Diff | internal/patch/patch.go:79-101 | there is a diff exactly when every file last patched can be read and the library has a text from its remembered content to its content on disk, and it is these texts in order; no file is skipped |
| Bookkeeping.FirstDiffErrorDecides | internal/patch/patch.go:85-97 | otherwise the first file that cannot be read or has no text decides the error |
| Undo.DiffFromTheBeginning | internal/patch/patch.go:79-101 | in every state of every run in which no two names share a path, the diff shows for each file last patched the change from what it held at the very beginning to what it holds now |
| EndToEnd.DiffShowsScripts | internal/patch/patch.go:79-101 | after printed scripts have been carried out with a new ledger, the diff shows the changes from the old contents to the scripts' results |
| Bookkeeping.NothingAfterFailure | internal/patch/patch.go:51-56 | once a write has failed no later file is written |
| PatchLaws.StageMeaning | internal/patch/patch.go:34-50 | staging succeeds exactly when every file can be read and patched, and then holds every target |
| PatchLaws.WritesReach | internal/patch/patch.go:51-56 | writes leave other paths alone and leave each reached path holding one of its contents |
| PatchLaws.ApplySucceedsExactly | internal/patch/patch.go:25-59 | Apply succeeds exactly when the diff parses, every file reads and patches, and every write goes through |
| PatchLaws.ApplyWritesTargets | internal/patch/patch.go:25-59 | a successful Apply leaves every named file holding its target, repeated headers included, and touches nothing else |
| PatchLaws.ApplyLeaves | internal/patch/patch.go:25-59 | whatever becomes of a call, the files last patched are those before the first that could not be read or patched, the diff is kept only on success, and newly remembered are exactly the files read, with what was read |
| PatchLaws.FailureBeforeWritingIsClean | internal/patch/patch.go:25-50 | a parse, read or hunk error leaves the disk exactly as it was |
| PatchLaws.FailureWhileWriting | internal/patch/patch.go:51-56 | when write j is the first to fail the disk is as before exactly when what was last written to each path before is what was there, also when names share a path |
| PatchLaws.AtomicExactly | internal/patch/patch.go:51-56 | no failing Apply, whichever writes fail, leaves the disk changed exactly when every file but the last is left the same by its hunks, or the diff never gets as far as the writes |
| Undo.StepTracks | internal/patch/patch.go:25-69 | every call, whatever becomes of it, keeps the ledger right and never replaces a remembered content |
| Undo.RunTracks | internal/patch/patch.go:25-69 | in every state of every run each path is unrecorded and unchanged or has its first content remembered |
| Undo.RememberedIsFirst | internal/patch/patch.go:41-43 | with one name per path a remembered content is the first one |
| Undo.UndoExactly | internal/patch/patch.go:61-69 | after any run every complete Revert in every order restores the initial disk if and only if names of one path remember one content |
| Undo.UndoWithoutAliases | internal/patch/patch.go:61-69 | so it does whenever no two remembered names lead to one path |
| Undo.RevertSucceedsExactly | internal/patch/patch.go:61-69 | a Revert reports success exactly when every write went through, and leaves the ledger alone |
| Undo.SecondSpellingBreaksUndo | internal/patch/patch.go:35-43 | patching a path again under a second spelling breaks that condition |
| Cases.TwoSpellings | internal/patch/patch.go:35-69 | one file patched as `f` and then as `./f`: both succeed, and some complete Revert does not restore the disk |
| EndToEnd.DiffTextParses | internal/patch/patch.go:111-144 | the printed diff of any edit scripts parses to hunks meaning those scripts, with or without a final newline |
| EndToEnd.ScriptsAreCarriedOut | internal/patch/patch.go:25-59 | edit scripts for any number of files, cut anyhow and printed, are carried out by one Apply: each file becomes its script's target, all others stay |
| EndToEnd.ScriptsAtomicExactly | internal/patch/patch.go:51-56 | carrying out printed scripts is atomic exactly when every script but the last leaves its file as it is |
| Cases.HalfApplied | internal/patch/patch.go:51-56 | two one-line files of which the second cannot be written: Apply fails and the first stays changed |
| WorkQueue.Queue.EnqueueItem | internal/queue/queue.go:25-34 | Enqueue refuses when closed, else appends and wakes one parked call if there is any |
| WorkQueue.Queue.TakeTurn | internal/queue/queue.go:54-67 | a turn keeps the queue's invariant; on an open queue it gives the first accepted item not yet delivered, and gives up or sleeps only when all have been delivered, depending on the context |
| WorkQueue.NextKeeps | internal/queue/queue.go:25-81 | every step keeps: while one sleeps, no more items than woken calls; none sleeps on a closed queue; a cancelled sleeper's broadcast is coming |
| WorkQueue.NoLostWakeup | internal/queue/queue.go:25-67 | in every reachable state with an item and a sleeper some woken call's turn takes the first item |
| WorkQueue.AtRestNobodyIsForgotten | internal/queue/queue.go:36-67 | when nothing more can happen a sleeper sleeps on an open, empty queue with a live context |
| WorkQueue.FirstInFirstOut | internal/queue/queue.go:25-81 | what is delivered is a growing prefix of what was accepted, and nothing is delivered after Close |
| WorkQueue.AcceptedAsEnqueued | internal/queue/queue.go:25-81 | accepted are exactly the items enqueued before the queue was closed, each once and in order |
| SessionEvents.Fanout.EmitEvent | internal/session/session.go:255-264 | the loop over the listed channels in any order sends to each once, to none that is closed, without blocking, and keeps every channel's account right |
| SessionEvents.Fanout.Subscribe | internal/session/session.go:225-245 | an undisturbed Subscribe leaves the channel listed and open, holding whatever of the start and failure events there were fits, and no other channel touched |
| SessionEvents.Fanout.Unsubscribe | internal/session/session.go:247-252 | unsubscribing takes the channel off the list and closes it with all that was sent on it; it panics exactly when it was closed before |
| SessionEvents.NextKeeps | internal/session/session.go:156-264 | every step of start, executor, emitters and subscribers keeps the session's invariant |
| SessionEvents.SerializedHistory | internal/executor/executor.go:33-72 | the executor's events are blocks of busy, started, finished, idle, one per dequeued action in accepted order, never two in flight |
| SessionEvents.NothingBeforeStart | internal/session/session.go:156-216 | no executor event precedes session.started, and there is none in a state that has recorded a failure |
| SessionLaws.EnsureDecides | internal/session/session.go:158-215 | if Ensure fails, in no state of the run is a start announced, an executor spawned or anything emitted by one; if it succeeds, in no state is there a banner or an error |
| SessionLaws.NothingWithoutEnsure | internal/session/session.go:158-215 | conversely a start or an executor event comes only after Ensure has succeeded, and a banner or an error only after it has failed |
| SessionLaws.StartGoesThrough | internal/session/session.go:169-214 | when Start can go no further after Ensure has returned, all of its path has been recorded and announced |
| SessionLaws.AcceptedAsSubmitted | internal/session/session.go:218-223 | a session accepts exactly the actions submitted before its queue was closed, in order |
| SessionLaws.StatusesAreOutcomes | internal/executor/executor.go:43-50 | the n-th finished event reports what the n-th call of the handler returned, and the log holds all that others emitted, in order |
| SessionLaws.HeardIsTrue | internal/session/session.go:169-245 | no subscriber hears of a start or a failure, live or replayed, that has not come about |
| SessionLaws.EachReceiverTakesOne | internal/session/session.go:225-264 | on an open channel every receiver that came and did not leave has taken one entry or still waits |
| SessionLaws.NobodyWaitsAtClosed | internal/session/session.go:247-252 | closing wakes whoever waits at a channel, and nobody waits there again |
| SessionEvents.FanOut | internal/session/session.go:225-264 | a channel of any buffer size was sent the log since its subscription in order, each event once, and misses exactly those dropped while it was full with nobody waiting at it |
| SessionEvents.HeardAtMostTwice | internal/session/session.go:169-245 | no subscriber hears of the start, or of its failure, at three places |
| SessionEvents.HeardExactly | internal/session/session.go:169-245 | under any race of Start and Subscribe a subscriber is offered the start, or its failure, and has not heard of it exactly when every copy offered was lost to a full channel |
| SessionEvents.RoomForAll | internal/session/session.go:225-264 | a buffer with room for the events emitted while listed and one replay loses nothing, so its owner has heard |
| SessionEvents.TargetsAreOpen | internal/session/session.go:225-264 | no channel on the list, nor one still replayed to, is ever closed, so nothing is sent on a closed channel |
| SessionEvents.PanicsExactly | internal/session/session.go:247-252 | the session panics exactly at the second closing of a channel; never if each is unsubscribed once, and otherwise a call is left that can do it |
| SessionEvents.ClosedChannelIsLeftAlone | internal/session/session.go:247-264 | from its closing on, in every run, what was sent on a channel or missed stays as it is |
| Routing.NextKeeps | internal/daemon/router.go:63-91 | every step of readers, routers and sessions keeps the account of where each sent action is |
| Routing.PerClientOrder | internal/daemon/router.go:63-91 | what a session executed for a connection is a prefix of what that connection sent to it, under every interleaving |
| RoutingLaws.AcceptedAsMeant | internal/daemon/router.go:78-90 | what a session accepted from a connection is, in order, a beginning of what was sent for it: the actions naming it, and those naming none if it is the connection's own; each with its body and the session's name, and unchanged if it had one |
| RoutingLaws.AllMeantArrives | internal/daemon/router.go:78-90 | and all of it once nothing is under way on a connection still read and the session is open |
| RoutingLaws.NothingBehindMalformed | internal/daemon/transport.go:28-38 | a line that does not decode is the last read of a connection: whatever reaches a session was sent before it |
| RoutingLaws.UnknownSessionEnds | internal/daemon/router.go:85-88 | an action for a session that does not exist ends its connection: neither it nor anything behind it is ever handed over |
| RoutingLaws.EightAtMost | internal/daemon/router.go:63-67 | at most eight actions wait between reader and router, and the reader goes on as soon as there are fewer |
| Routing.NothingLost | internal/daemon/transport.go:28-38 | while a connection is read and the session open, every sent action is executed, queued or under way, in order |
| Routing.NoStrangers | internal/session/session.go:218-223 | a session holds nothing from a connection that does not exist |
| Pipeline.NextKeeps | internal/daemon/router.go:78-90 | routing, sessions and blocking queues stay in step: same contents, same progress, same closing, one Dequeue call out at most |
| Pipeline.NeverOversleeps | internal/queue/queue.go:36-67 | in every reachable state, while the executor's Dequeue call sleeps all actions routed to the session have been executed and the queue is open; a call that is awake can always take its turn |
| Pipeline.EventsFollowClients | internal/executor/executor.go:33-53 | with the blocking queue in place, the n-th block of events belongs to the n-th routed action, and the started actions of one connection are a prefix of what it sent |
| JsonScan.ExtractFirstJSON | internal/session/agent_tools.go:590-627 | the scanning loop with depth, string and escape state is the extraction the laws below are about |
| JsonScan.ValuePassed | internal/session/agent_tools.go:595-625 | scanning any printed JSON value inside an object leaves depth, string and escape state as they were |
| JsonScan.ExtractRecovers | internal/session/agent_tools.go:590-627 | any printed object is cut out exactly from any text before it without an opening brace and any text after it |
| JsonScan.ExtractIdempotent | internal/session/agent_tools.go:590-627 | an extracted text is a braced part of the text and its own extract |
| JsonScan.ExtractExactly | internal/session/agent_tools.go:590-627 | from the first brace of any text, the shortest stretch in which the braces outside strings close is cut out, and nothing exactly when they never close |
| JsonScan.EarlierBracesDecide | internal/session/agent_tools.go:590-627 | if the braces of a prefix close, what is cut out is decided by it, whatever follows |
| JsonScan.OpenBraceSwallows | internal/session/agent_tools.go:590-627 | behind a brace left open outside strings an object is only part of what is cut out, up to where the text behind it closes that brace, or nothing is |
| Responses.ExtractSettles | internal/session/agent_tools.go:551-627 | what is extracted is fixed by normalisation and by extraction |
| Responses.DecodeFirstJSON | internal/session/agent_tools.go:576-588 | the loop over all braces gives the object that decodes at the first brace at which one does, or nothing if none does |
| Responses.CutDecodesLess | internal/session/agent_tools.go:576-627 | what decodes somewhere in the object cut out of a text decodes somewhere in the text, for decoders that read one value |
| Responses.FencedObjectIsUnwrapped | internal/session/agent_tools.go:551-574 | an object in a fenced block, tagged or not, is taken out unchanged |
| Responses.ParseToolGivesOne | internal/session/agent_tools.go:364-435 | a reply is exactly one of calls, a non-empty final text, or nothing |
| Responses.ParsePlanGivesOne | internal/session/agent_tools.go:437-455 | a plan reply is exactly one of steps, a question, or nothing |
| Responses.EnvelopeMeans | internal/session/agent_tools.go:370-381 | an object that decodes means its final answer before its calls, a list of calls before a single one, and that before a tool named at the top |
| Responses.OneFieldIsCall | internal/session/agent_tools.go:384-390 | an object of one field is a call of the tool it names |
| Responses.EmptyPlanMeans | internal/session/agent_tools.go:437-455 | after an empty plan only the object cut out of the reply is looked at, and its question or its steps are taken |
| Responses.ParseToolLooksTwice | internal/session/agent_tools.go:420-422 | the recursion goes one level deep: only at the braces of the normalised reply and of one object in it is anything decoded |
| Responses.ParsePlanLooksTwice | internal/session/agent_tools.go:451-453 | the same for plans |
| Responses.ChatterIsIgnored | internal/session/agent_tools.go:364-435 | an object that decodes is read as if it stood alone, whatever stands before it short of a brace and whatever behind it; so is one that does not when nothing else in the reply decodes |
| Responses.RecursionExactly | internal/session/agent_tools.go:420-434 | with decoding that reads one value and stops, the recursion never yields a call, and changes a result exactly when no envelope decodes and the last attempt at a final answer gives something else on the object cut out than on the reply |
| Responses.RecursionHarmless | internal/session/agent_tools.go:420-434 | it changes nothing when the object cut out decodes and mentions a final answer |
| Responses.PlanRecursionIdle | internal/session/agent_tools.go:437-455 | a plan is never found by the recursion unless an envelope without question and steps was decoded first |
| AgentLoop.RunTools | internal/session/agent_tools.go:63-116 | the loop ends at the first prompt its rules allow, within eight, executes exactly the allowed calls in order, records every result and refusal, and sends one message |
| AgentLoop.RunCalls | internal/session/agent_tools.go:92-108 | the calls of one reply are each executed or refused |
| AgentLoop.AllowedKeeps | internal/session/agent_tools.go:92-108 | without the write rule all calls are executed; with it the executed calls are disciplined and refusals only follow a read |
| AgentLoop.NothingRefused | internal/session/agent_tools.go:92-108 | with the write rule, every requested call is executed if a write is requested before any read, or none is read |
| AgentLoop.RefusedStretch | internal/session/agent_tools.go:92-108 | otherwise refused are exactly the calls between the first read and the next write |
| AgentLoop.OutcomeSays | internal/session/agent_tools.go:92-108 | recorded for each requested call is what its own execution gave, or that it was refused and why |
| AgentLoop.ReadThenWrite | internal/session/agent_tools.go:93-105 | at most one read is executed before the first write, and the write comes right after it |
| AgentLoop.FinalMeetsRules | internal/session/agent_tools.go:70-84 | a model's final ends the loop only when the rules in force are met by executed calls; refusals cannot stand in for them |
| Agent.EndsExactly | internal/session/agent_tools.go:63-91 | how the loop goes on after any answer: a final ends it exactly if the rules are met by the calls executed, calls never do, a raw reply does unless tools are enforced, a failed prompt always does |
| Agent.FinalAccepted | internal/session/agent_tools.go:70-84 | a run that comes to a prompt whose reply holds a final answer ends there, for every model, decoder and rules, exactly when the rules in force are met by then |
| Agent.FinalRefusedExactly | internal/session/agent_tools.go:70-84 | a final answer is refused exactly when tools are enforced and nothing is recorded, or several steps are and fewer than two results, or a write is and none is recorded |
| Agent.RulesHoldExactly | internal/session/agent_tools.go:63-116 | whatever text of the model the loop hands back, the rules in force are met: for every decoder exactly when tools are enforced or no rule is in force |
| Agent.WriteWithoutTools | internal/session/context.go:79-121 | a prompt asks for a write but not for tools exactly when it names a file with a verb of adding or changing and none of editing or looking |
| Agent.ToolsExactly | internal/session/context.go:79-99 | a prompt asks for tools exactly when it names one of twelve objects and one of thirteen verbs |
| Agent.WriteExactly | internal/session/context.go:101-121 | it asks for a write exactly when it names one of these objects and one of eighteen verbs |
| Agent.MultiStepExactly | internal/session/context.go:123-129 | it asks for several steps exactly when it holds the word `then` between spaces |
| Agent.CaseIsIgnored | internal/session/context.go:79-129 | what a prompt asks for does not depend on the case of its letters |
| Agent.FixMayBeIgnored | internal/session/context.go:79-129 | `fix main.go` is such a prompt, and a model's silence ends its run with nothing executed |
| Agent.FinalMeansWrittenExactly | internal/session/agent_tools.go:80-84 | a final answer under the write rule stands for a write that took place, for every model and decoder, exactly when no write ever fails |
| Agent.FailedWriteIsAccepted | internal/session/agent_tools.go:118-125 | with tools that always fail a run still ends well, its one result a failed write |
| Agent.FinishedMeansWrittenExactly | internal/session/agent_tools.go:252-270 | the same of a finished plan, whatever the model and its judgements of failed steps |
| Agent.FailedWriteFinishesPlan | internal/session/agent_tools.go:236-257 | a plan of one write is finished with tools that always fail |
| Agent.RunAgent | internal/session/agent_tools.go:55-116 | planning first if several steps are asked for; a handled plan makes no loop prompt, a failed plan prompt is reported and the loop runs anyway; at most 2(n1 + n2) + 10 prompts |
| Planner.Session.WalkPlan | internal/session/agent_tools.go:228-251 | the step loop with its retry counter is the walk the laws below are about |
| Planner.Session.RunPlanned | internal/session/agent_tools.go:200-274 | the attempt loop, its end, text and stored plan are those of the specified attempts |
| Planner.WalkOrder | internal/session/agent_tools.go:228-251 | an attempt runs its steps in order, each once or twice in a row |
| Planner.WalkReach | internal/session/agent_tools.go:228-251 | an attempt stays within its steps, runs all of them if it completes, and asks at most once per run, twice per step |
| PlanLaws.WalkExactly | internal/session/agent_tools.go:228-251 | a failed run, by error or code, is judged by one prompt; the same step follows if told to retry after its first run, the attempt ends there if told to plan again, and else the next step follows up to the last |
| PlanLaws.PlanPrompted | internal/session/agent_tools.go:203-221 | without a stored plan one prompt decides: it fails, it is a question, it is a plan of two steps or more that is started at the first, or there is no plan |
| PlanLaws.AfterFirstAttempt | internal/session/agent_tools.go:200-274 | a completed attempt is closed, by a notice if a write is missing and else by one more prompt; after one given up exactly one more plan is tried |
| Planner.PlannedTrace | internal/session/agent_tools.go:200-274 | every attempt is orderly, only the last can be complete, and the run closes exactly when it is |
| Planner.PromptBound | internal/session/agent_tools.go:200-274 | at most 2(n1 + n2) + 3 prompts for plans of n1 and n2 steps |
| Planner.PlanLeftBehind | internal/session/plan.go:10-56 | afterwards no plan is stored, or the one stored before for another request with nothing run |
| Planner.FinishedWithWrite | internal/session/agent_tools.go:252-257 | with writes enforced a finished run ran a write tool in its last attempt |
| Planner.FreshPlanStartsAtTop | internal/session/agent_tools.go:203-221 | a plan asked for has at least two steps and starts at the first; a stored one is resumed |
| ShellWords.QuotingRoundTrip | internal/session/agent_tools.go:851-856 | a POSIX word reader reads quoted words back as those words if and only if none holds a NUL |
| ShellWords.EscapedIsLiteral | internal/session/agent_tools.go:855-855 | inside the quotes an escaped string is taken in literally |
| Delimiter.PickDelimiter | internal/session/agent_tools.go:1003-1012 | the first numbered delimiter that does not occur, else the unchecked last resort; the result occurs exactly when all candidates and the last resort do, and never in text under 18,938 characters |
| Delimiter.AllOccurNeedsRoom | internal/session/agent_tools.go:1003-1012 | a text in which all thousand candidates and the last resort occur has at least 18,938 characters |
| Delimiter.RoomSuffices | internal/session/agent_tools.go:1003-1012 | that bound is the least: such a text of 18,938 characters exists |
| Delimiter.OccurrencesApart | internal/session/agent_tools.go:1004-1006 | two three-digit delimiters in one text do not overlap |

## Left out

- Docker, terminals, key storage, model providers and the socket: foreign calls, present only as arbitrary answers.
- The text of diffs, made by a library: edit scripts stand in for it, and Diff takes the library as an arbitrary function.
- Decoding by `encoding/json`: an arbitrary partial function of the text from a brace on. Statements that need it to read one value and stop say so. An attempt that fails is taken to leave nothing behind, while the program reuses the value it may have filled in part.
- Judging a failed step: the wording of the status reply is an arbitrary function to fine, retry or replan.
- Shell and Python command lines of `executeTool`, prompt texts, step labels and the messages of a planned run: formatting.
- Mid-write truncation of a file: a write is done or not done.
- Path joining and cleaning: an arbitrary function from names to paths; statements that need distinct paths say so.
- Bytes against characters: strings are sequences of characters; every character the code looks for is ASCII, so a byte scan and a character scan agree on valid UTF-8.
- `ensurePTY` and `resetPTY`: after a failed attach the `Once` is spent and a later command writes to a nil connection, so no clean invariant holds there.
- One session per repository: `EnsureSessionForRepo` checks, unlocks and then registers, so it is not promised and not claimed.
- The endless loops of the executor, the router and the connection reader are steps of state machines rather than loops, and events carry no identifiers or timestamps.
- Event forwarding to a connection: it reads a subscriber's channel in order and adds nothing to the fan-out.
- Spurious failures of mutexes and condition variables: Go has none; a parked call wakes only by Signal or Broadcast.
- Lower-casing a prompt outside the ASCII letters, and the exact text of the prompts sent to a model.
- Configuration, policy, container cleanup, provider registry, user interface: validation, sorting and display.
