# Verified models of GitGlasses

GitGlasses is an editor extension with a C++ engine and an MCP server. This
project models the parts of it that hold real algorithms and concurrent state
machines, and proves what they promise. `dafny verify dfyconfig.toml` checks
everything.

| files | what they model |
|---|---|
| `LineDiff`, `UnifiedDiff` | the Myers line diff and the hunks cut from it: edit scripts, their least cost, the search over diagonals with its saved trace and back-walk, and a reader that applies a diff by its header counts |
| `RpcRegistry`, `RpcDispatcher`, `RpcFrames`, `RpcAnswers`, `RpcInflight`, `RpcOrder`, `RpcProgress`, `RpcRefusal`, `RpcCancel`, `RpcOutcome`, `RpcFullTable` | the JSON-RPC dispatcher as a transition system: the read loop, the notification strand's drainer, the pool's workers, one step per mutex section, any interleaving |
| `TaskStrand`, `TaskPool`, `TaskProgress`, `TaskHistory` | strands over the task pool, as a second transition system, with the strand's own methods |
| `RefSweep`, `RefHistory` | the polling sweep of `refs/`, in place, and runs in which files change under a coarse clock between sweeps |
| `InotifyHub` | the bookkeeping of native file events: which repositories watch which directory, and what is due to be reported |
| `TodoText`, `TodoRewrite` | the rebase todo rewriter: reading, matching against the plan, writing back, and what git makes of the result |
| `ChildOutput` | a child process's output read line by line from whatever pieces the pipe hands over |
| `CommandLine` | Windows argument quoting against the splitting rules of `CommandLineToArgvW` |
| `ContextBudget` | ranking, the common patch cap and the longest run of files for a prompt budget |
| `LruCache`, `Utf8`, `Utf8Scalars`, `DocumentSync` | the byte-budgeted LRU the three engine caches share, the editor's UTF-8 length count against the encoding and its decoder, and the push protocol between the two |
| `BlamePage` | the lowest lines picked from streamed hunks, and paging |
| `JsonScan`, `JsonNesting` | the depth guard and the object extractor, which scan JSON text without parsing it, and the nesting their count follows |
| `Framing` | reading and writing frames of the Language Server Protocol's base protocol |
| `Sha256`, `Sha256Constants` | padding, compression and constants of FIPS 180-4 |
| `Texts`, `Arithmetic`, `Wrappers` | lines and decimal numbers, least and largest, and optional values and results, shared by the others |

Code that changes state is modelled as classes and methods, proved against
functions; what the code is for is then proved of those functions.

## Where the code does not do what one would expect

- A ref replaced by a file of the same mtime and size is missed by the watcher
  when the old file was stamped without a hash, long after its mtime
  (`RefHistory.OldFileMissed` is such a run). `RefHistory.MissedExactly` says
  for every run what goes unreported; `RefHistory.PromptReports` that nothing
  is missed so when files are renamed into place within the racy window of
  being written.
- A frame stream cut just before the last newline of an empty frame still
  yields that frame, and one cut before a frame's number reads as malformed
  rather than as ended (`Framing.CutsMisread`; exactly so, `Framing.CutAnywhere`).
- A program name with a quote in it, or one that must be quoted and ends in a
  backslash, does not survive the command line (`CommandLine.NamesLost`; exactly
  so, `CommandLine.LineReads`); the other arguments always do.
- A rewritten todo line reads back changed when it is taken for a comment, ends
  in a carriage return, or is a fixup of a sha that looks like fixup's flag
  (`TodoText.LinesLost`; exactly so, `TodoText.ReadsBack`).
- A buffer with an unpaired surrogate is sent as JSON the engine's parser
  refuses, so the engine never gets it although the editor takes its version as
  pushed (`DocumentSync.LoneSurrogateLost`). `DocumentSync.EngineHolds` gives the
  exact condition. Such a text can also be counted shorter than its encoding
  (`Utf8.CountedShort`; exactly so, `Utf8.CountIsExact`), never longer.
- A buffer forgotten, or left behind when its document moves to another
  repository, stays with the engine unnamed and is not closed
  (`DocumentSync.ForgottenStays`) until the place is pushed to again; exactly so,
  `DocumentSync.OnlyLostLinger`.
- A cancel for a request still waiting to be parsed is lost when the table of
  remembered cancels is full (`RpcFullTable.CancelForgotten` is such a run),
  and only then (`RpcCancel.OnlyFullTableMisses`).

## Model

| member | source | states |
|---|---|---|
| LineDiff.ScriptCostsDistance | extension/src/ai/lineDiff.ts:18 | no edit script between two texts is cheaper than the edit-graph distance |
| LineDiff.DistanceAttained | extension/src/ai/lineDiff.ts:18 | some edit script costs exactly the distance, so the distance is the least cost |
| LineDiff.Lipschitz | extension/src/ai/lineDiff.ts:47-66 | distances of neighbouring grid points differ by at most one edit |
| LineDiff.TrimPrefix | extension/src/ai/lineDiff.ts:20-21 | a common start can be set aside without changing the least number of edits |
| LineDiff.TrimSuffix | extension/src/ai/lineDiff.ts:22-27 | a common end can be set aside without changing the least number of edits |
| LineDiff.OffGrid | extension/src/ai/lineDiff.ts:55-61 | a point past both ends costs the full distance plus every step past the end, so leaving the grid gains nothing |
| LineDiff.FurthestBounds | extension/src/ai/lineDiff.ts:50-60 | the furthest point on a diagonal with d edits separates what d edits reach from what they do not |
| LineDiff.FurthestFits | extension/src/ai/lineDiff.ts:44-60 | a furthest point is at most d past the end, so the 32-bit array holds it |
| LineDiff.Wall | extension/src/ai/lineDiff.ts:51-60 | where the slide along a diagonal stops, the next point needs more than d edits |
| LineDiff.StopIsExact | extension/src/ai/lineDiff.ts:61-64 | the test x >= n and y >= m is met only at (n, m), with d the least number of edits, although the search runs off the grid |
| LineDiff.NoStop | extension/src/ai/lineDiff.ts:47-66 | a round that does not stop shows that more edits are needed |
| LineDiff.Round | extension/src/ai/lineDiff.ts:47-66 | one round of the search: found exactly at the distance, otherwise the furthest points of every diagonal |
| LineDiff.Search | extension/src/ai/lineDiff.ts:42-68 | the search finds the distance when it is within the limit, and every saved trace holds the furthest points of its round |
| LineDiff.Predecessor | extension/src/ai/lineDiff.ts:75-80 | the trace's choice names a furthest point from which one edit and a slide lead here |
| LineDiff.Retrace | extension/src/ai/lineDiff.ts:75-89 | one step of the back-walk stays in the grid and gives the edits of its round |
| LineDiff.BackWalk | extension/src/ai/lineDiff.ts:71-96 | the walk over the trace gives an edit script with exactly the number of edits found |
| LineDiff.Middle | extension/src/ai/lineDiff.ts:34-97 | an edit script; the cheapest up to 1000 edits, the replacement beyond |
| LineDiff.DiffLines | extension/src/ai/lineDiff.ts:19-32 | for all texts an edit script from a to b, with the least number of edits whenever that is at most 1000 |
| UnifiedDiff.SplitJoin | extension/src/ai/lineDiff.ts:11-16 | the pieces between newlines are those that were joined |
| UnifiedDiff.LinesOfText | extension/src/ai/lineDiff.ts:11-16 | the lines joined come back, whether or not a newline ends the text, which adds no line |
| UnifiedDiff.HeaderRoundTrip | extension/src/ai/lineDiff.ts:131-133 | a hunk header reads back as the four numbers written |
| UnifiedDiff.BodyRoundTrip | extension/src/ai/lineDiff.ts:134 | a hunk body reads back by its counts, whatever follows it |
| UnifiedDiff.HunksApply | extension/src/ai/lineDiff.ts:106-136 | hunks that cover the changes in order, applied to the old lines by their headers, give the new lines |
| UnifiedDiff.HunkLines | extension/src/ai/lineDiff.ts:122-134 | a hunk's header counts and starts are those of the operations it shows |
| UnifiedDiff.LastChange | extension/src/ai/lineDiff.ts:114-120 | the scan to a hunk's end finds its last change: no wider gap inside, one after |
| UnifiedDiff.CutHunks | extension/src/ai/lineDiff.ts:106-136 | the hunks are ordered, disjoint and cover every change, for every context size |
| UnifiedDiff.UnifiedDiff | extension/src/ai/lineDiff.ts:102-138 | the text, read by its header counts and applied to the old lines, gives exactly the new lines; it is empty exactly when the lines are equal |
| UnifiedDiff.EqualHasNoHunks | extension/src/ai/lineDiff.ts:99-101 | equal texts give no hunk |
| RpcRegistry.InflightTable.Queue | engine/src/rpc/dispatcher.cpp:135-139 | a queued payload counts as waiting and gets a number above every earlier one; no entry or remembered cancel changes |
| RpcRegistry.InflightTable.Finish | engine/src/rpc/dispatcher.cpp:141-147 | the last queued payload routed clears the remembered cancels |
| RpcRegistry.InflightTable.Register | engine/src/rpc/dispatcher.cpp:282-295 | an id in flight is refused untouched; a new one is entered, cancelled when a remembered cancel arrived after its payload |
| RpcRegistry.InflightTable.Cancel | engine/src/rpc/dispatcher.cpp:392-410 | a cancel sets the token of the id's entry, or is remembered when a queued payload may still be for it and there is room |
| RpcRegistry.InflightTable.Erase | engine/src/rpc/dispatcher.cpp:367-370 | the id is free again, every other id's entry and all else as it was |
| RpcAnswers.ConservedStep | engine/src/rpc/dispatcher.cpp:154-190 | every message received is at exactly one place, and every step keeps it so |
| RpcInflight.SoundRun | engine/src/rpc/dispatcher.cpp:268-390 | in every run an id's entry belongs to the one request that registered it and has not been erased |
| RpcInflight.AnsweredOnce | engine/src/rpc/dispatcher.cpp:268-376 | no request is answered twice in any interleaving, and when nothing is left to do each has exactly one answer (JSON-RPC 2.0, section 5) |
| RpcInflight.EntryNeverLost | engine/src/rpc/dispatcher.cpp:319-333 | a task finds its own entry: the branch for a lost one is never taken |
| RpcInflight.QuiescentTableEmpty | engine/src/rpc/dispatcher.cpp:364-375 | when nothing is left to do no entry is in flight |
| RpcProgress.BytesRun | engine/src/rpc/dispatcher.cpp:124-133 | the deferred bytes are exactly those of the payloads queued to be parsed, at most 64 MiB, and a payload is deferred exactly when it is over 256 KiB and there is room |
| RpcProgress.NextStep | engine/src/rpc/dispatcher.cpp:154-190 | while anything is left to do some step other than receiving is enabled |
| RpcProgress.WorkDecreases | engine/src/rpc/dispatcher.cpp:154-390 | every step other than receiving leaves less work |
| RpcProgress.RunsDry | engine/src/rpc/dispatcher.cpp:154-390 | every run can be completed, without receiving more, to one with nothing left to do |
| RpcProgress.EveryRequestAnswered | engine/src/rpc/dispatcher.cpp:268-390 | every run can be completed, without receiving more, to one in which the request has one answer |
| RpcProgress.AnsweredHowever | engine/src/rpc/dispatcher.cpp:268-390 | however a run goes on without receiving, it takes at most the steps of work left, and where it stops every request received has its one answer |
| RpcProgress.OnlyQuiescentStops | engine/src/rpc/dispatcher.cpp:149-152 | nothing but receiving is enabled exactly when nothing is left to do, and then the table, the queue count and the bytes are at rest |
| RpcRefusal.StaysSo | engine/src/rpc/dispatcher.cpp:296-376 | in every run a request that got past registration stays so until its own task answers it, and a refused one stays refused |
| RpcRefusal.RefusalDisturbsNothing | engine/src/rpc/dispatcher.cpp:296-304 | in every run that comes to rest, a request refused for its id has the refusal as its one answer, and the holder of the id its own task's |
| RpcOutcome.AnswerTells | engine/src/rpc/dispatcher.cpp:339-362 | in every run a request is answered with a result, as cancelled or as failed exactly when its handler has ended: failed if the handler failed, cancelled if it was cancelled or returned after a cancel had hit the request, and with the result if it returned with none |
| RpcOutcome.TokenIsHit | engine/src/rpc/dispatcher.cpp:341-344 | in every run a handler that ends finds its token set exactly when a cancel has hit its request |
| RpcOutcome.OpenSteps | engine/src/rpc/dispatcher.cpp:339-362 | any payload can arrive while the read loop waits, and a handler at work can return, be cancelled or fail |
| RpcOutcome.AnswersByKind | engine/src/rpc/dispatcher.cpp:196-304 | in every run a payload that cannot be routed has an error for its answer, a request its task's or that its id is in use, and nothing else has one |
| RpcOutcome.RefusedExactly | engine/src/rpc/dispatcher.cpp:282-304 | a request is answered that its id is in use exactly when the id was in flight as it was routed |
| RpcOrder.RoutedInArrivalOrder | engine/src/rpc/dispatcher.cpp:154-190 | all messages but inline notifications are routed in arrival order, whatever mix of deferred, queued and direct paths they take |
| RpcOrder.RunsAfterNotifications | engine/src/rpc/dispatcher.cpp:378-389 | an AfterNotifications handler starts only after every Queued notification received before its request has run |
| RpcOrder.LanesInOrderRun | engine/src/rpc/dispatcher.cpp:306-308 | in every run a serial request runs with all earlier ones of its lane out of the way |
| RpcOrder.SerialInOrder | engine/src/rpc/dispatcher.cpp:306-380 | serial requests of one mode and repository run one at a time, in the order they arrived |
| RpcOrder.OnlyOwnLaneWaits | engine/src/rpc/dispatcher.cpp:306-308 | in every run such a request can start exactly when all that is posted ahead of it or runs is of another mode or repository |
| RpcCancel.CancellingRun | engine/src/rpc/dispatcher.cpp:135-147 | in every run the remembered cancels and the cancels that took effect are for requests that arrived before them |
| RpcCancel.NoCancelReachesLater | engine/src/rpc/dispatcher.cpp:286-294 | in no run does a cancel, inline or queued, reach a request that arrived after it or has another id |
| RpcCancel.CancelReaches | engine/src/rpc/dispatcher.cpp:282-295 | with ids reused only after their answer, a request called for is cancelled when it is registered or in flight, and answers as cancelled |
| RpcCancel.OnlyFullTableMisses | engine/src/rpc/dispatcher.cpp:392-410 | in every run with ids reused only after their answer, a cancel routed for a request received before it and not answered calls for it, unless the request waits and the table is full without its id |
| RpcFullTable.CancelForgotten | engine/src/rpc/dispatcher.cpp:401-409 | a run with 1024 cancels remembered in which a waiting request's own cancel is lost and the request goes in flight with its token clear |
| TaskStrand.Strand.Post | engine/src/util/strand.h:20-28 | the task goes to the back, and a drain is asked for exactly when none is under way |
| TaskStrand.Strand.Next | engine/src/util/strand.h:31-42 | the drain takes the front task, losing none, and ends only when there is none |
| TaskPool.FitsRun | engine/src/util/task_pool.cpp:64-171 | in every run the queues, the counters and the strands fit together |
| TaskPool.StrandsInOrder | engine/src/util/strand.h:20-53 | draining holds exactly when one drain job is queued or running and a queued task implies it; a strand's tasks run one at a time in post order, none lost or repeated |
| TaskPool.PoolInOrder | engine/src/util/task_pool.cpp:64-171 | in every state of every run the jobs each queue accepted are those it started, in order, and those still queued, and idle <= live <= max(core, max) |
| TaskPool.InteractiveFirst | engine/src/util/task_pool.cpp:156-158 | by the time a background job starts, every interactive job accepted up to then has started |
| TaskProgress.CoreRun | engine/src/util/task_pool.cpp:49-60 | the core workers, at least one, are there in every state of every run |
| TaskProgress.EndsRun | engine/src/util/task_pool.cpp:139-171 | in every run each of the pool's own tasks has ended as often as it was started, but for the workers running it |
| TaskProgress.NextStep | engine/src/util/task_pool.cpp:128-171 | while anything is queued, on its way or running, a step other than posting, adding a worker or sending one away is enabled |
| TaskProgress.StopsAtRest | engine/src/util/task_pool.cpp:128-171 | in every run no such step is enabled exactly when all is at rest |
| TaskProgress.WorkDecreases | engine/src/util/task_pool.cpp:128-171 | every such step leaves less work |
| TaskProgress.RunsDry | engine/src/util/task_pool.cpp:128-171 | every run goes on, without a post or a new worker, to one with all at rest |
| TaskProgress.AllHasRun | engine/src/util/task_pool.cpp:64-171 | at rest every job accepted was started, every task of the pool's own ended exactly as often as accepted, and every strand ran what was posted to it, in order |
| TaskProgress.EveryTaskRuns | engine/src/util/task_pool.cpp:64-171 | every run can be completed to one in which exactly the tasks posted so far have run |
| TaskHistory.AcceptedArePosted | engine/src/util/task_pool.cpp:64-71 | in every run each queue has accepted exactly the jobs posted with its priority, in order, and each strand exactly the tasks posted to it |
| TaskHistory.StepsTaken | engine/src/util/task_pool.cpp:116-158 | in every run a post is always taken, a worker takes a job exactly when it waits and one is queued, an added worker goes only when none is, and one is added only when a job is queued, no worker waits and there are fewer than allowed |
| TaskHistory.WorkersBounded | engine/src/util/task_pool.cpp:49-60 | a pool of so many threads keeps that many core workers, one at least, and never has more than the larger of its limits |
| RefSweep.ComparedTells | engine/src/watch/watch_manager.cpp:489-536 | comparing stamps tells a difference of mtime, size or hashed content, and leaves the stamp a fresh look would give |
| RefSweep.RefRoot.Report | engine/src/watch/watch_manager.cpp:538-541 | the pending categories are exactly those of the paths reported |
| RefSweep.RefRoot.AddRefTree | engine/src/watch/watch_manager.cpp:595-610 | the whole tree is listed into the state, and each directory and file of it reported when new |
| RefSweep.RefRoot.DropRefTree | engine/src/watch/watch_manager.cpp:612-621 | the whole tree leaves the state, and each directory and file it held is reported |
| RefSweep.RefRoot.CompareFiles | engine/src/watch/watch_manager.cpp:650-659 | of one directory's files exactly those that came, went or differ are reported, and the new stamps are those of the listing |
| RefSweep.RefRoot.SweepDir | engine/src/watch/watch_manager.cpp:635-669 | one directory of a sweep: dropped, skipped, or listed with its subdirectories dropped and added |
| RefSweep.RefRoot.SweepRefs | engine/src/watch/watch_manager.cpp:623-670 | a sweep leaves a directory for each one there, listed anew unless skipped, and reports exactly the directories that came or went and the changed files of those it listed, in any order of the walk |
| RefSweep.StepMidway | engine/src/watch/watch_manager.cpp:635-669 | what holds half way through a sweep is kept by each directory looked at |
| RefHistory.SweptUnique | engine/src/watch/watch_manager.cpp:627-670 | the state a sweep leaves is determined by the state before and the tree |
| RefHistory.SoundRun | engine/src/watch/watch_manager.cpp:643 | through every history of installs, removals, rewrites and sweeps a directory that kept its mtime and was not racy is as it was last seen, but for files rewritten in place |
| RefHistory.SweepAgrees | engine/src/watch/watch_manager.cpp:623-670 | after every sweep of every run the state agrees with a fresh listing of the whole tree in names, subdirectories, mtimes and sizes, except for files rewritten in place since a full sweep |
| RefHistory.DiffersExactly | engine/src/watch/watch_manager.cpp:525-536 | with an injective hash a stamp differs exactly when the file is not the one last seen, unless mtime and size are the same and the stamp has no hash of a file that could be hashed |
| RefHistory.ReportsWhatHappened | engine/src/watch/watch_manager.cpp:623-670 | in every run each sweep reports exactly what happened since the one before, but for replacements its stamps cannot tell and in-place rewrites where it does not look |
| RefHistory.MissedExactly | engine/src/watch/watch_manager.cpp:525-536 | in every run a change of a file goes unreported exactly when mtime and size are the old file's and the old file was stamped without a hash, or the file was rewritten in place where the sweep did not look |
| RefHistory.PromptReports | engine/src/watch/watch_manager.cpp:623-670 | with files renamed into place within the racy window of being written, each sweep reports exactly what happened short of in-place rewrites where it did not look, and a full sweep those too |
| RefHistory.ReplacementsReported | engine/src/watch/watch_manager.cpp:423-427 | so a sweep reports every replacement of a file of at most 4096 bytes where it looks, and of the index, of packed-refs and of larger files exactly those that move mtime or size |
| RefHistory.OldFileMissed | engine/src/watch/watch_manager.cpp:529-536 | a run in which such a replacement is missed |
| InotifyHub.OthersAre | engine/src/watch/watch_manager.cpp:184-187 | dropping a repository from a directory keeps exactly the others' entries, without repeats |
| InotifyHub.AllWatchedAre | engine/src/watch/watch_manager.cpp:253-268 | watching a tree adds an entry for each directory found that got a descriptor, and no other |
| InotifyHub.EntryNamed | engine/src/watch/watch_manager.cpp:102-106 | the path of a directory's entry has the directory's names and its own, and an event without a name is about the directory |
| InotifyHub.CategoriesAre | engine/src/watch/watch_manager.cpp:299-307 | an event's categories for a repository are those of the path under each directory it watches there |
| InotifyHub.AllGrownAre | engine/src/watch/watch_manager.cpp:299-303 | a new directory adds, for each watcher in whose tree it is, the entries of what was found, and no other |
| InotifyHub.WatchAdded | engine/src/watch/watch_manager.cpp:234-249 | watching one more directory keeps repositories, directories and kernel descriptors consistent, also when several repositories share the directory |
| InotifyHub.InotifyHub.Add | engine/src/watch/watch_manager.cpp:151-173 | a repository is watched exactly when it was already or some descriptor was obtained; refused, everything is as it was; accepted, exactly what was found is watched |
| InotifyHub.InotifyHub.Remove | engine/src/watch/watch_manager.cpp:177-194 | the repository goes with its entries, and a descriptor is released exactly when no other repository watches its directory |
| InotifyHub.InotifyHub.Ignored | engine/src/watch/watch_manager.cpp:280-290 | a descriptor the kernel dropped leaves the table and every repository, and nothing else changes |
| InotifyHub.InotifyHub.Happened | engine/src/watch/watch_manager.cpp:291-309 | an event adds to each repository watching the directory the change's category, due 50 ms after the first change not yet handed out, and watches the new directories of a watched tree |
| InotifyHub.InotifyHub.TakeDue | engine/src/watch/watch_manager.cpp:318-336 | exactly what is due is handed out, never empty, under the next generation, and is no longer pending |
| InotifyHub.Dropped | engine/src/watch/watch_manager.cpp:177-194 | what is left after a repository is removed is consistent: no entry, descriptor or kernel watch of it remains |
| InotifyHub.Forgotten | engine/src/watch/watch_manager.cpp:280-290 | what is left after a descriptor is forgotten is consistent |
| TodoText.LinesSkipped | engine/src/exec/sequence_editor.cpp:194-198 | blank lines and comments, indented or not, are skipped |
| TodoText.LinesRead | engine/src/exec/sequence_editor.cpp:194-198 | any other line is its content without the blanks in front and the carriage return at its end |
| TodoText.CommitCommands | engine/src/exec/sequence_editor.cpp:77-84 | the six actions, in full or shortened to a letter, name a commit, a fixup with a flag before it |
| TodoText.OtherCommands | engine/src/exec/sequence_editor.cpp:199-223 | noop is skipped, update-ref names a ref, and any other command is not supported |
| TodoText.ReadsBack | engine/src/exec/sequence_editor.cpp:193-224 | a written line reads back as the commit or ref written exactly when it is not a comment, does not end in a carriage return and its sha is not read as fixup's flag |
| TodoText.LinesLost | engine/src/exec/sequence_editor.cpp:193-224 | one line of each kind that does not read back |
| TodoText.TextReadsBack | engine/src/exec/sequence_editor.cpp:191-224 | a written todo reads back line for line exactly when each line does |
| TodoText.ParsedWritable | engine/src/exec/sequence_editor.cpp:199-222 | what is read from a line can be written on one |
| TodoRewrite.FlattenGather | engine/src/exec/sequence_editor.cpp:188-224 | grouping the lines by commit loses and moves none of them |
| TodoRewrite.ReadTodo | engine/src/exec/sequence_editor.cpp:188-224 | the todo is the grouping of its lines, or the first line that cannot be read is refused |
| TodoRewrite.Match | engine/src/exec/sequence_editor.cpp:230-262 | on success the plan's entries name the todo's commits one to one, each by its first match; a refusal says truly what is wrong |
| TodoRewrite.RefusedRightly | engine/src/exec/sequence_editor.cpp:230-262 | no refused plan could have been matched |
| TodoRewrite.Rewrite | engine/src/exec/sequence_editor.cpp:264-289 | the text written is that of the walk over the steps |
| TodoRewrite.ReplaysPlan | engine/src/exec/sequence_editor.cpp:264-289 | git replays the output exactly when the first kept step is no fold, and then makes the commits the plan asks for and puts every ref on the finished squash or fixup group holding the last kept step at or before its commit, or on the base |
| TodoRewrite.RewrittenOrder | engine/src/exec/sequence_editor.cpp:274-289 | kept commits come in plan order, then the drops in plan order; the refs in plan order |
| TodoRewrite.EachLineOnce | engine/src/exec/sequence_editor.cpp:256-289 | the output holds every commit and every update-ref of the todo exactly once |
| TodoRewrite.UnchangedReadsBack | engine/src/exec/sequence_editor.cpp:187-289 | a plan of picks in todo order reads back as the same commits and refs, exactly when every line survives |
| TodoRewrite.Accepted | engine/src/exec/sequence_editor.cpp:86-93 | a plan of known actions whose entries go one to one with the todo's commits, one sha abbreviating the other, is refused for nothing |
| TodoRewrite.FullShas | engine/src/exec/sequence_editor.cpp:86-93 | when each entry completes the sha of one commit and each commit's is completed by one entry, nothing else goes with an entry either |
| TodoRewrite.RunSequenceEditor | engine/src/exec/sequence_editor.cpp:174-300 | which refusal or which text comes out, for every control file and todo; a plan that names the commits one to one is saved with each action on the commit named |
| TodoRewrite.ChainMessage | engine/src/exec/sequence_editor.cpp:343-355 | the message is the latest non-empty squash message of the chain, or none when the chain has none |
| ChildOutput.NewlineInFront | engine/src/exec/git_process_posix.cpp:271 | the first newline of what has arrived is that of the whole output |
| ChildOutput.GitProcess.FillBuffer | engine/src/exec/git_process_posix.cpp:238-267 | a piece moves from the pipe to the buffer; none is lost, and none is left once it says so |
| ChildOutput.GitProcess.ReadLine | engine/src/exec/git_process_posix.cpp:269-291 | the next line of the output not yet read, whatever pieces it arrives in and whenever the buffer is compacted |
| ChildOutput.GitProcess.ReadAll | engine/src/exec/git_process_posix.cpp:293-299 | all that is not yet read |
| ChildOutput.GitProcess.ReadLines | engine/src/exec/git_runner.cpp:52 | line after line gives the lines of the whole output, and no more at its end |
| CommandLine.AppendQuotedArg | engine/src/exec/git_process_win.cpp:28-54 | the loop over the characters appends the argument's quoting |
| CommandLine.BuildCommandLine | engine/src/exec/git_process_win.cpp:56-63 | the quoted arguments, a space between |
| CommandLine.EscapedReads | engine/src/exec/git_process_win.cpp:33-53 | the inside of a quoting splits back to the argument, for any runs of backslashes, quotes and blanks |
| CommandLine.QuotedReads | engine/src/exec/git_process_win.cpp:28-54 | any argument comes back from its own quoting, whatever follows |
| CommandLine.LineReads | engine/src/exec/git_process_win.cpp:56-63 | splitting the line returns the arguments exactly when the program's name has no quote and, if quoted, no backslash at its end |
| CommandLine.NamesLost | engine/src/exec/git_process_win.cpp:56-63 | one name of each kind that does not come back |
| ContextBudget.BiggestFirstCap | extension/src/ai/contextBuilder.ts:98-113 | the largest cap under which everything fits, and none exactly when the least useful cap is too much |
| ContextBudget.RanksStably | extension/src/ai/contextBuilder.ts:48-57 | ranking is a stable sort: source, config and docs, each in the order given |
| ContextBudget.FitsFewer | extension/src/ai/contextBuilder.ts:151-155 | whether the first k files fit is monotone in k |
| ContextBudget.LongestRun | extension/src/ai/contextBuilder.ts:156-181 | the binary search finds the most files, ranked first, that can be shown together |
| ContextBudget.SectionsFit | extension/src/ai/contextBuilder.ts:185-191 | the sections are no longer than what was reserved and shown |
| ContextBudget.BuildDiffContext | extension/src/ai/contextBuilder.ts:136-201 | the longest run that fits, all cut at the largest cap that fits, within the budget; no generated file is shown, and the rest and then all the generated files, in the order given, are named as omitted |
| ContextBudget.NoFileLost | extension/src/ai/contextBuilder.ts:137-183 | shown and omitted files are a permutation of those given |
| ContextBudget.KeptPlaces | extension/src/ai/contextBuilder.ts:137-138 | the source files are those that are not generated, the others those that are, each in the order given |
| ContextBudget.KeptCount | extension/src/ai/contextBuilder.ts:137-138 | each file is among them as often as it was given |
| LruCache.KeepIsLongest | engine/src/cache/doc_overlay.h:100-107 | what eviction keeps is the longest recent prefix within the budget, or one entry |
| LruCache.ByteLru.EraseLocked | engine/src/cache/doc_overlay.h:92-98 | exactly the key's entry goes, and its bytes |
| LruCache.ByteLru.EvictLocked | engine/src/cache/graph_cache.cpp:68-75 | the least recent entries go until the budget holds or one is left |
| LruCache.ByteLru.Put | engine/src/cache/blame_cache.cpp:33-45 | the entry is stored in front of the others and the rest evicted to the budget |
| LruCache.ByteLru.Get | engine/src/cache/graph_cache.cpp:26-32 | the value stored, moved to the front, or nothing and no change |
| LruCache.ByteLru.DropPrefix | engine/src/cache/doc_overlay.h:58-67 | the scan from the lower bound removes all and only the keys with the prefix |
| LruCache.UpdateDoc | engine/src/cache/doc_overlay.h:32-50 | a buffer over the cap drops what is stored for the path; any other is stored |
| LruCache.ClosesOneRepo | engine/src/cache/graph_cache.cpp:44-53 | a repository's prefix matches its own keys and no other's, when no id holds the separator |
| LruCache.EveryRun | engine/src/cache/doc_overlay.h:32-107 | after any operations each key is listed once by recency of use, gives the latest value stored or nothing, and the bytes keep to the budget |
| LruCache.Leaves | engine/src/cache/doc_overlay.h:32-107 | after any operations a store keeps exactly the entry and those before it that, with all used since, fit the budget beside it; a look-up keeps all, and forgetting or closing takes its own alone |
| Utf8.Utf8ByteLength | extension/src/engine/documentSync.ts:21-34 | the count of the loop |
| Utf8.CountIsExact | extension/src/engine/documentSync.ts:21-34 | the count is never more than the length of the encoding, lone surrogates replaced, and is that length exactly when every high surrogate not behind another is followed by the end, a unit below 0x80, a low one or a pair |
| Utf8.CountIsLength | extension/src/engine/documentSync.ts:20-39 | so for well-formed UTF-16 it is the length of the encoding (RFC 3629, section 3) |
| Utf8.FitsBufferLimit | extension/src/engine/documentSync.ts:39-43 | the two shortcuts by length decide as the count does; what fits is never refused, and for a text counted right the answer is exact |
| Utf8.CountedShort | extension/src/engine/documentSync.ts:27-30 | a text with an unpaired surrogate that is counted short |
| Utf8Scalars.DecodesBack | extension/src/engine/documentSync.ts:20-34 | the encoding counted is that of section 3 of RFC 3629: any characters' encoding decodes to them |
| Utf8Scalars.UnitsWellFormed | extension/src/engine/documentSync.ts:26-30 | the UTF-16 of any characters (RFC 2781, section 2.1) is well formed |
| Utf8Scalars.ScalarsOf | extension/src/engine/documentSync.ts:26-30 | and well-formed text is the UTF-16 of some |
| Utf8Scalars.EncodedRepaired | extension/src/engine/documentSync.ts:20-34 | any text is encoded as the well-formed one with each lone surrogate replaced |
| DocumentSync.DocumentSync.Release | extension/src/engine/documentSync.ts:169-176 | the engine is told to drop exactly a buffer it was pushed |
| DocumentSync.DocumentSync.Sync | extension/src/engine/documentSync.ts:102-119 | which contents a blame may ask for, or that a push is on its way |
| DocumentSync.DocumentSync.Push | extension/src/engine/documentSync.ts:135-161 | the answer is by what the document is once the lookup is back: unavailable, on disk, too large or the version just sent; what is pushed, sent and known too large after each; a document that moved leaves its old place unnamed |
| DocumentSync.DocumentSync.Changed | extension/src/engine/documentSync.ts:163-166 | a document that is clean again is dropped at the engine; a dirty one is left |
| DocumentSync.DocumentSync.Forget | extension/src/engine/documentSync.ts:123-125 | the buffer is pushed again next time, and until then its place goes unnamed |
| DocumentSync.DocumentSync.Resync | extension/src/engine/documentSync.ts:128-130 | a new engine holds nothing |
| DocumentSync.OverlayHolds | engine/src/cache/doc_overlay.h:32-80 | fed the notices in order and not evicting, the overlay holds for each place the version and text that arrived last and was not closed since, exactly when that text is within its cap |
| DocumentSync.RoomyExactly | engine/src/cache/doc_overlay.h:32-50 | a notice that fits costs another buffer its place exactly when there is one and not the room for all |
| DocumentSync.EngineHolds | extension/src/engine/documentSync.ts:59-65 | between any two awaits the engine's lookup for a pushed buffer gives the version pushed exactly when the text is well-formed UTF-16 and within the engine's cap, which a well-formed one the editor let through always is |
| DocumentSync.IllFormedMissed | packages/rpc/src/engineClient.ts:540-546 | what the engine has instead of an ill-formed text is another version |
| DocumentSync.LoneSurrogateLost | packages/rpc/src/engineClient.ts:540-546 | a buffer with a lone surrogate that is counted right, pushed and never held |
| DocumentSync.DefaultsAgree | engine/src/cache/doc_overlay.h:16-20 | so with the two programs' own caps the engine has the version pushed exactly when the text is well formed |
| DocumentSync.OnlyLostLinger | extension/src/engine/documentSync.ts:123-176 | a buffer the engine has goes unnamed by the editor exactly when its document was forgotten or moved and the place has not been pushed to since |
| DocumentSync.ForgottenStays | extension/src/engine/documentSync.ts:123-176 | a buffer forgotten and then released is never closed |
| BlamePage.InsertByLine | mcp-server/src/server.ts:534-541 | the binary search finds the place of a hunk by line |
| BlamePage.PlaceInLowest | mcp-server/src/server.ts:541-545 | inserting among the lowest kept and cutting again loses nothing |
| BlamePage.Collect | mcp-server/src/server.ts:515-547 | what is kept of the stream is what sorting all that match and taking the first `limit` would give |
| BlamePage.OneLine | mcp-server/src/server.ts:526-532 | of disjoint hunks the page for one line holds exactly the hunk that covers it |
| BlamePage.GitBlame | mcp-server/src/server.ts:515-564 | the page of one request, 200 hunks unless asked for otherwise and at most 500, with the line after its last exactly when something is left |
| BlamePage.FromIs | mcp-server/src/server.ts:517-519 | a page does not depend on the order the hunks arrive in |
| BlamePage.NextPage | mcp-server/src/server.ts:559-560 | the page after is exactly what the page left |
| BlamePage.FollowPages | mcp-server/src/server.ts:556-564 | following the next line page after page reads all hunks from the start line on, in line order |
| BlamePage.AllPages | mcp-server/src/server.ts:556-564 | from the first line that is every hunk exactly once |
| JsonScan.ExceedsDepthLimit | engine/src/rpc/dispatcher.cpp:28-50 | true exactly when the bracket count outside strings goes past 256 |
| JsonScan.StringReads | engine/src/rpc/dispatcher.cpp:28-50 | a printed string is its characters, escaped or not, between quotes (RFC 8259, section 7) |
| JsonScan.JsonRests | engine/src/rpc/dispatcher.cpp:28-50 | over any printed value the count rises by exactly the value's depth, never falls below its start and comes back to it (RFC 8259, sections 4 to 7) |
| JsonNesting.CountIsNesting | engine/src/rpc/dispatcher.cpp:28-50 | after every character of a printed value the running count is how deep the grammar has one there |
| JsonScan.GuardIsExact | engine/src/rpc/dispatcher.cpp:25-50 | the guard refuses exactly the values nested deeper than 256 |
| JsonScan.ExtractFirstJsonObject | extension/src/ai/nlQuery.ts:14-35 | the text from the first brace to where the braces first balance, or none |
| JsonScan.ObjectExtracted | extension/src/ai/nlQuery.ts:13-35 | out of brace-free prose, a printed object and any tail comes exactly the object |
| Framing.FrameReader.Read | engine/src/rpc/framing.cpp:18-53 | the payload, the rest of the stream and the failure flag of one read |
| Framing.HeaderSkipped | engine/src/rpc/framing.cpp:23-51 | an unknown header line changes nothing |
| Framing.WrittenReads | engine/src/rpc/framing.cpp:18-59 | a written frame reads back whole, with the stream right after it |
| Framing.LongRefused | engine/src/rpc/framing.cpp:18-53 | a frame over 64 MiB is refused at its header |
| Framing.AllReadBack | engine/src/rpc/framing.cpp:18-59 | frames written in a row read back in order, then end of input without failure |
| Framing.CutAnywhere | engine/src/rpc/framing.cpp:18-53 | a stream cut anywhere yields its whole frames, one empty payload more exactly when cut before the last newline of an empty frame, and failure exactly when cut before a number |
| Framing.CutsMisread | engine/src/rpc/framing.cpp:18-53 | one cut of each kind that misreads |
| Sha256.MakeSchedule | engine/src/util/sha256.cpp:29-43 | the schedule filled in place is that of FIPS 180-4, section 6.2.2 |
| Sha256.RunRounds | engine/src/util/sha256.cpp:45-62 | the round loop computes the working variables of section 6.2.2 |
| Sha256.BigRotates | engine/src/util/sha256.cpp:24-26 | the program's shifts make the rotations of section 4.1.2 |
| Sha256.SmallRotates | engine/src/util/sha256.cpp:24-26 | and those of the schedule |
| Sha256.BitsChosen | engine/src/util/sha256.cpp:49 | Ch takes each bit from one word or the other as the first says (section 4.1.2) |
| Sha256.BitsByMajority | engine/src/util/sha256.cpp:52 | Maj takes the bit two of the three words have |
| Sha256.Xored | engine/src/util/sha256.cpp:48-52 | three words mixed have each bit that an odd number of them has |
| Sha256.BytesBack | engine/src/util/sha256.cpp:31-35 | four bytes joined to a word are there, the first highest |
| Sha256.CompressBlock | engine/src/util/sha256.cpp:28-71 | one block is compressed as section 6.2.2 says |
| Sha256.MakeTail | engine/src/util/sha256.cpp:85-97 | the tail's one or two blocks are the end of the padded message of section 5.1.1 |
| Sha256.Digest | engine/src/util/sha256.cpp:75-99 | the digest of any data under 2^64 bits is the standard's over its padded blocks (section 5.2.1) |
| Sha256.Sha256Hex | engine/src/util/sha256.cpp:75-110 | its text is 64 digits that read back as the digest's eight words |
| Sha256.HexReads | engine/src/util/sha256.cpp:101-109 | each eight digits read back as their word |
| Sha256Constants.RoundConstants | engine/src/util/sha256.cpp:11-22 | the round constants are the first 32 bits of the fractions of the cube roots of the first 64 primes (section 4.2.2) |
| Sha256Constants.InitialHash | engine/src/util/sha256.cpp:77-78 | the initial hash value is that of the square roots of the first eight (section 5.3.3) |
| Sha256Constants.FirstPrimes | engine/src/util/sha256.cpp:11-22 | the primes of the list are prime, and none lies between |
| Sha256.PaddingTells | engine/src/util/sha256.cpp:85-97 | different messages have different paddings |

## Left out

- JSON text inside messages: the dispatcher's messages are values; only the two scanners work on text.
- `Dispatcher::cancelAll`, `waitIdle` and the error data hook: shutdown and reporting around the tables modelled.
- The dispatcher's arrival numbers do not wrap, and handlers throw only what `runRequest` catches.
- Shutdown of the task pool, its condition-variable wake-ups, real time, tasks that never return and the single-threaded build: a worker may take a job whenever one is queued, and the supervisor may add one whenever the counters allow.
- The sweep's count of entries examined, the single files and small trees beside `refs/`, files that vanish or cannot be read in the middle of a sweep, a `refs` that is itself a file, and directories renamed into place: a sweep is one atomic look at a tree of files.
- Slashes in ref paths: a path is a list of names. The hash is a parameter, injective on files small enough to be hashed where a result needs it.
- Reading and writing the control file, the plan kept beside the rebase and git's `done` file: the editors get their texts and give theirs back. The todo's `fixup -C` flag is dropped by the program itself.
- TodoRewrite.ChainMessage: is of a plan without malformed entries, which the sequence editor has refused before.
- Conversion of arguments from UTF-8 to UTF-16, and the rule of newer C runtimes for doubled quotes inside a quoted argument, are not part of the splitting rules modelled.
- The omission note, the text shown when nothing fits, the path patterns and splitting a patch by file: paths are categorised by parameters.
- LruCache.ByteLru.DropPrefix: takes the map's key order as an argument, as the ordered map gives it.
- The byte sizes of graph plans and blame results: a size is an argument.
- JSON itself between editor and engine: that the parser refuses an escaped surrogate without its partner is taken as given, and that one version of a document is one text between closes.
- The `dispose` of DocumentSync, promises shared between callers, and the lookup of a document's repository, which comes in as an argument.
- Blame formatting, the single-line request's text, and streams other than the request's own.
- SHA-256 works on whole bytes; the in-memory layout of words is not modelled.
- What the kernel does for native file events: a descriptor and the directories found are arguments, a descriptor's number is not given out again while an event for it is unread, and the walk's stopping early on an error is a shorter list.
- Cancelling a child process, its deadline, its error output and its environment: the pipe's pieces are what it hands over until its end.
- Sockets and pipes, AI providers, views and commands: calls into systems outside the code, or branch tables.
