# Scheduler proofs

A Dafny model of the scheduler half of Clique, a server that hands prompts to the
machines of a small group, keeps their chat sessions, and lets several people edit
the same files at once. `dafny verify dfyconfig.toml` checks everything.

The model has five parts. Code that updates objects, tables and lists step by step is
modelled by classes and loops, each proved equal to a function of the old state; the
properties are then proved of those functions, over all inputs and over all runs.

**Live workspaces** (`LineOps`, `LineTracking`, `StalePatches`, `Diamond`, `Workspace`,
`PatchReplies`, `WorkspaceRuns`, `Broadcast`, `Replica`, `Losses`, `LiveServer`). Clients send line edits made
against a version they saw; the server shifts stale ones over what was accepted since,
applies them, and fans the result out through bounded queues. Proved: stale edits find
the very lines they were meant for, over histories of any length; exactly which pairs
of concurrent edits commute; the history explains the head text; replicas converge,
and every lost update shows as a gap.

**Router** (`Tasks`, `Scoring`, `Scheduling`, `QueueOrder`, `Dispatching`, `Placing`, `Registry`,
`Router`, `RouterRuns`, `RouterLaws`, `RouterReplies`, `Agent`). Prompts are queued, matched to nodes, leased, retried and
committed, over a network that repeats, delays, reorders and loses messages. Proved:
a result counts at most once and comes from the latest assignment; slot caps hold in
every reachable state; a scheduling pass is maximal, fair and takes the best node;
retries are bounded and every run without submissions settles; expiry is exact.

**Sessions** (`Contexts`, `ContextShapes`, `ContextFit`, `Compaction`, `CompactionJobs`,
`CompactionRuns`, `SummaryChain`, `CompactionStuck`). A log of turns is compiled into the messages that fit a model's
window, and what does not fit is summarised. Proved: when a compilation fits the budget
and the router's own test; when compaction drops exactly what it summarised; exactly
when nothing is lost over whole runs; and exactly when a session is never compacted
again.

**Think splitting** (`TextSearch`, `Think`, `ThinkShapes`, `ThinkStreams`, `ThinkLimits`). Reasoning is
separated from the answer while the text still grows. Proved: the stream agrees with
the batch form however the text is cut up, loses no character, and each constant in
the code (the seven characters withheld, the 256 sniffed) is shown to be exact.

**Diffs and prompts** (`Hunks`, `HunkPassing`, `HunkRanges`, `HunkDiffs`, `CodePrompt`,
`PromptRoundTrip`). Bare hunk headers get line ranges, and files are packed into a prompt on one machine and read
back on another. Proved: leftmost-first placing is complete, the ranges are exact both
ways, and precisely when the prompt reads back as it was packed.

`Text` and `Tally` hold what the parts share: lines, blanks, and sums over maps.

## What the proofs found

- `scheduler/workspace.py:276-277` counts an empty insertion as one line, while
  `scheduler/workspace.py:244-248` inserts none; and a negative delete count shifts
  lines that nothing removed. `LineTracking.TracksIffCounted` is the exact condition.
- A stale deletion of a line that somebody else already deleted takes a neighbour
  (`LineTracking.StaleDeleteExact`), and overlapping deletions agree on a text that may
  also lack lines nobody chose (`Diamond.DeletesTakeUnion`).
- A patch of several operations is shifted as if all were addressed to the same text.
  A patch written from the bottom up keeps its meaning all the same
  (`LineTracking.BottomUpLands`). Of two operations, the second finds its line whatever
  comes in between if and only if it stands above the first, or the first does
  nothing (`StalePatches.SecondFindsIff`, with a witness in `LineTracking.TopDownMisses`).
  If the first inserted that line itself, it is found if and only if it is the first
  inserted line, of an insertion not past the end (`StalePatches.OwnLineIff`). A place
  behind the end of the text is never safe (`StalePatches.NeverBehind`).
- The comment at `scheduler/api/ws.py:36-38` says governance events are never dropped.
  The code drops the oldest message of a full queue: a viewer loses a delta exactly when
  its queue is full and starts with one that it still needs (`Losses.LosesIff`), and
  that is reached by not reading for 257 patches (`Losses.FloodLoses`).
- Two user turns in a row make compaction cover a turn that was never summarised
  (`CompactionRuns.CleanIffAlternating`); over whole runs, turns are lost if and only if
  a committed summary was planned while the floor held a turn older than some that it
  folded in (`CompactionRuns.NothingLostIff`).
- The docstring of `summary_max_output_tokens` (`scheduler/context_store.py:49-58`) says
  that prompt and output fit with the safety margin left over. They do if and only if
  the prompt leaves room for the margin and one token more; they fit without it if and
  only if the prompt is below the window (`CompactionJobs.SummaryMaxOutput`).
- A compaction job is shown the whole of the turns it folds in. If its prompt is
  estimated at the largest window on offer or more, no node is ever eligible for it; it
  waits in the queue for good (`CompactionJobs.OversizedWaits`), its session stays
  marked, and is never compacted again. For a job planned for one of these nodes that is
  the exact condition (`CompactionStuck.StuckIffOversized`); four ordinary turns bring every
  session there, the first of them as long as the window (`CompactionStuck.LongTurnSticks`).
- The compaction mark can also outlive its job: an empty summary (which a killed job
  sends, by `Agent.KilledCommits`), and a job that is cancelled, deleted, or fails with
  its node, leave it set (`scheduler/server.py:814-847`). Then only the failure of another
  unrecorded task of the session clears it (`CompactionStuck.StrandedIff`), and short of
  that no node, however large, helps (`CompactionStuck.NowhereIff`). It happens on every
  window from 61 tokens on (`CompactionStuck.CanStrand`).
- The comment at `scheduler/router.py:179-182` has short prompts, of less than 250 tokens,
  prefer smaller models. They do if and only if they have less than 100: beyond that,
  size is worth more than the point it costs (`Placing.SmallerPreferredIff`).
- A compiled prompt may exceed the window by the router's count although its parts fit
  by the compiler's count, from 69 messages on (`ContextFit.PassesIff`).
- Part of a leading `<think>`, or of the blanks before it, is streamed as reasoning under
  exactly the cuttings that `ThinkLimits.SafeFeedsIff` names by their lengths. Without
  blanks, for a model known to reason, these are the ones with a feed of 8 to 13 characters.
- A line of a file that looks like a file marker is lost on the way through the prompt
  (`PromptRoundTrip.RoundTripIff`).
- The comment at `node/agent.py:204-207` says a killed job reports nothing. The code
  goes on to send a success with no text, because the state it starts from is success;
  when that report arrives, the task ends as succeeded with no text, for good, if the
  killed attempt is still the one awaited, and nothing happens otherwise
  (`Agent.KilledCommits`).

## Model

| member | source | states |
|---|---|---|
| `LineOps.ApplyPatchOps` | scheduler/workspace.py:237-256 | the splicing loop computes the fold of single-line edits, and fails on exactly the patches with an unknown operation before any file replacement |
| `LineOps.RebasePatch` | scheduler/workspace.py:258-286 | the three nested loops shift every operation over all newer operations in order |
| `LineOps.CountIsLength` | scheduler/workspace.py:276-277 | a non-empty insertion is counted by the rebase as exactly the lines it inserts |
| `PatchReplies.OneOperation` | scheduler/workspace.py:237-256 | each operation splices the lines at the place its number names, clamped to the text, negative slice ends counted from the back; a replacement is the whole result |
| `LineTracking.TagHistoryText` | scheduler/workspace.py:237-256 | replaying a history on identified lines and on plain text gives the same lines |
| `LineTracking.HistoryTracks` | scheduler/workspace.py:258-286 | over any history of newer patches, a stale line number still names the very line it named, if that survives, and always separates what was before from what was behind |
| `LineTracking.SurvivesOnce` | scheduler/workspace.py:237-256 | a line of the old text is in at most one place of the new one |
| `LineTracking.TracksIffCounted` | scheduler/workspace.py:276-285 | a newer operation keeps all stale line numbers right if and only if it is counted as it is applied: no empty insertion, no negative deletion that shifts anything |
| `LineTracking.InsertKeepsLines` | scheduler/workspace.py:244-248 | an insertion leaves whole lines if and only if it does not extend a last line without newline |
| `LineTracking.StaleInsertLands` | scheduler/workspace.py:258-286 | a stale insertion lands behind all surviving lines from before its line and before all others |
| `LineTracking.StaleDeleteExact` | scheduler/workspace.py:258-286 | a stale one-line deletion removes its line and nothing else if and only if the line survives or the shifted number is past the end |
| `LineTracking.BottomUpLands` | scheduler/workspace.py:258-286 | stale patches of several operations keep their meaning when written from the bottom up |
| `LineTracking.TopDownMisses` | scheduler/workspace.py:258-286 | a two-operation patch written from the top down that is right when fresh and wrong when stale |
| `StalePatches.SecondFindsIff` | scheduler/workspace.py:258-286 | the second of two operations finds its line whatever operations come in between if and only if it stands above the first, or the first does nothing |
| `StalePatches.OwnLineIff` | scheduler/workspace.py:258-286 | an operation on a line that its own patch inserted finds it whatever comes in between if and only if it is the first inserted line, and the insertion was not past the end |
| `StalePatches.NeverBehind` | scheduler/workspace.py:258-286 | an operation that was meant for the end of the text is not at the end after some operations in between, whatever the patch |
| `StalePatches.StaleRangeExact` | scheduler/workspace.py:258-286 | a stale deletion of k lines removes just those of them that are still there if and only if every line it meets is one of them |
| `Diamond.RebaseDiamond` | scheduler/workspace.py:237-286 | two operations against the same text give the same text in both arrival orders, on all texts of a length, if and only if they touch disjoint places in the stated sense |
| `Diamond.InsertsConverge` | scheduler/workspace.py:237-286 | insertions converge if and only if their places differ in the text or their texts commute |
| `Diamond.DeletesConverge` | scheduler/workspace.py:237-286 | deletions converge whatever they overlap |
| `Diamond.DeletesTakeUnion` | scheduler/workspace.py:237-286 | two deletions remove just the chosen lines if and only if they share none or nothing follows them |
| `LiveWorkspace.Workspace.ApplyPatch` | scheduler/workspace.py:190-235 | the method on mutable file objects makes exactly the step of the specification: checks, rebase, apply, version, sequence number, trimmed history, reply |
| `PatchReplies.ReplyIs` | scheduler/workspace.py:198-210 | a patch is accepted if and only if its path is not empty, absolute or climbing, it has at most 100 operations, and every unknown operation stands behind a replacement; each refusal names the first of these that fails |
| `PatchReplies.AcceptedIs` | scheduler/workspace.py:201-231 | an accepted patch: next version and sequence number, whether it was rebased, operations that lead from the old text to the new one, the entry in the history of at most 200, and no other file touched |
| `PatchReplies.RefusedChangesNothing` | scheduler/workspace.py:198-210 | a refused patch changes no text, version or history |
| `LiveWorkspace.Workspace.Open` | scheduler/workspace.py:202-204 | an unknown path becomes an empty file, known ones are kept |
| `LiveWorkspace.FileState.Rebase` | scheduler/workspace.py:205-209 | operations are shifted over the retained entries newer than the base, and only if the base is not the head version |
| `LiveWorkspace.FileState.Commit` | scheduler/workspace.py:210-220 | text, version and history after an accepted patch, the history cut to 200 entries |
| `LiveWorkspace.Workspace.Snapshot` | scheduler/workspace.py:290-296 | all heads and the sequence number |
| `LiveWorkspace.Workspace.ReadFile` | scheduler/workspace.py:298-302 | a missing path reads as an empty file |
| `WorkspaceRuns.HistoryReplaysToHead` | scheduler/workspace.py:201-220 | in every reachable state, versions count accepted patches, sequence numbers increase, the history is the last 200 entries, and replaying the log gives the head text |
| `WorkspaceRuns.RetainedReplays` | scheduler/workspace.py:211-220 | the retained entries have consecutive versions up to the head and lead from the text they start at to the head text |
| `WorkspaceRuns.SeqCountsVersions` | scheduler/workspace.py:211-212 | the workspace's sequence number counts the accepted patches of all files |
| `WorkspaceRuns.RebasesOverMissed` | scheduler/workspace.py:218-220 | a stale patch is rebased over all it missed if and only if that is at most 200 patches |
| `WorkspaceRuns.StaleInsert` | scheduler/workspace.py:190-286 | a client's insertion lands at its line, from reading a file to the served text, over all missed patches as long as they are retained |
| `WorkspaceRuns.StaleDelete` | scheduler/workspace.py:190-286 | over retained patches, a client's one-line deletion removes the line it saw and no other, if and only if nobody removed it before or its place is past the end |
| `WorkspaceRuns.StaleRange` | scheduler/workspace.py:190-286 | the same for a deletion of k lines, up to the served text |
| `WorkspaceRuns.ServedDiamond` | scheduler/workspace.py:190-286 | two one-operation patches against one version leave the same served text in both orders if and only if the operations converge |
| `Broadcast.EventBroadcaster.Subscribe` | scheduler/api/ws.py:48-53 | a new empty queue under a new key |
| `Broadcast.EventBroadcaster.Unsubscribe` | scheduler/api/ws.py:55-57 | the key and its queue go, nothing else |
| `Broadcast.EventBroadcaster.Publish` | scheduler/api/ws.py:59-71 | every queue of the topic gets the message, full ones at the cost of their oldest, or not at all if the message is droppable |
| `LiveServer.SchedulerServer.ApplyWorkspacePatch` | scheduler/server.py:719-746 | a refused patch is told to nobody; an accepted one is in every viewer's queue when the call returns |
| `Replica.DrainedViewersConverge` | scheduler/workspace.py:201-235 | a viewer that drained its queue without a gap holds the server's files |
| `Replica.LossShowsAsGap` | scheduler/api/ws.py:59-71 | a drained viewer has seen a gap if and only if a delta it needed was dropped |
| `Replica.UndrainedViewersCatchUp` | scheduler/api/ws.py:59-71 | a copy without losses is never flagged, and with what is queued it is the server's state |
| `Replica.NewestDeltaQueued` | scheduler/api/ws.py:65-71 | the newest delta is at the end of every viewer's queue, so never the one dropped |
| `Losses.LosesIff` | scheduler/api/ws.py:59-71 | in every reachable state an accepted patch costs a viewer a delta if and only if its queue is full and starts with one it needs, and it is that one |
| `Losses.FloodLoses` | scheduler/api/ws.py:65-69 | a viewer that does not read 257 patches loses the first of them and no other |
| `Scoring.EligibleIffFits` | scheduler/router.py:139-202 | for sane telemetry, a score is above the refusal mark if and only if the cluster prefix matches and prompt and output fit the window |
| `Placing.PlacementIs` | scheduler/router.py:99-112 | the session's cluster goes before the request's hint, by the beginning of its key; the pinned node is preferred |
| `Placing.PinnedWins` | scheduler/router.py:155-198 | of nodes of one size, the pinned one scores highest, whatever abilities and load |
| `Placing.CapableWins` | scheduler/router.py:160-171 | of nodes of one size, one made for the kind of task beats one that is not, whatever the load |
| `Placing.SmallerPreferredIff` | scheduler/router.py:173-182 | of nodes that differ in size only, the smaller one scores higher if and only if the prompt has less than 100 tokens |
| `Placing.LoadIs` | scheduler/router.py:184-198 | what processor load, battery, speed and missing telemetry are worth, each on its own |
| `Scoring.SessionTurnEligible` | scheduler/router.py:114-154 | a session turn of at most 68 messages is eligible on every node of its cluster with room for three tokens |
| `Scheduling.ScheduledMaximal` | scheduler/router.py:204-283 | after a pass, no queued row is eligible on a node that still has a slot |
| `QueueOrder.ServedInOrder` | scheduler/router.py:226-283 | by order of submission: each queued task goes to the first of the highest-scoring nodes that are eligible and have a slot once all tasks before it have been served, and stays queued if there is none; no other task changes |
| `QueueOrder.NoOvertaking` | scheduler/router.py:226-283 | when a task is left queued and one submitted later is assigned, the later one's node was not eligible for the earlier |
| `Dispatching.ScheduledDeals` | scheduler/router.py:261-283 | the assignments sent out are exactly the rows that changed, each under a fresh attempt of its own |
| `Dispatching.ScheduledWithin` | scheduler/router.py:213-224 | a pass never takes a node past its slots |
| `Placing.SlotIff` | scheduler/router.py:213-224 | a node has a slot if and only if it holds fewer tasks than it takes at once |
| `Placing.PassSends` | scheduler/router.py:114-136 | what is sent out carries the lease of its kind, and the request with the session's compiled context for that node, or with its own messages or prompt |
| `NodeRegistry.Registry.ReadyNodes` | scheduler/registry.py:177-195 | the ready list is the roster filtered by the single-slot and the batching rule |
| `Placing.ReadyIff` | scheduler/registry.py:177-195 | a node is on offer if and only if it has a model, and is ready and idle if it takes one task, ready or busy if it takes several |
| `Placing.ReadyInOrder` | scheduler/registry.py:177-195 | the nodes on offer are in the order of the roster |
| `Placing.SilentIff` | scheduler/registry.py:128-149 | a node is taken off for silence if and only if it is up, not the server, and was last heard of before the cutoff |
| `Placing.SilentInOrder` | scheduler/registry.py:128-149 | they are returned in the order of the roster |
| `NodeRegistry.Registry.SetStatus` | scheduler/registry.py:118-126 | status and current work of one known node change, nothing else |
| `NodeRegistry.Registry.MarkOfflineStale` | scheduler/registry.py:128-149 | exactly the nodes silent since the cutoff go offline, with the time and the age of their task, are returned once, and leave the ready list |
| `TaskRouter.Router.Submit` | scheduler/router.py:74-95 | the method makes the specified submission: known key, full queue, taken id, or a new row |
| `RouterReplies.SubmittedIs` | scheduler/router.py:74-95 | a known key gets its first task and changes nothing, a queue with as many unfinished tasks as its cap refuses, and a new task is queued behind all others |
| `RouterReplies.ResubmittedOnce` | scheduler/router.py:74-82 | in every reachable state a key that was submitted before gives the one task that has it |
| `TaskRouter.Router.SchedulePending` | scheduler/router.py:204-283 | the loop with its running counts and shrinking ready list computes the specified pass |
| `TaskRouter.Rank` | scheduler/router.py:249-258 | picks the first of the highest scores |
| `TaskRouter.Router.MarkRunning` | scheduler/router.py:285-289 | an assigned row runs, if the attempt is its own |
| `TaskRouter.Router.OnResult` | scheduler/router.py:293-320 | ignored, stale, requeued or committed, as specified |
| `RouterReplies.ResultedIs` | scheduler/router.py:293-320 | the answer is committed if and only if the task had no result and has this one now, stale if and only if it is unfinished and waits for another attempt or none; and what becomes of the row |
| `RouterReplies.CommittedOnce` | scheduler/router.py:293-320 | in a run a task is answered as committed at most once, and once if and only if its result was delivered by a message |
| `RouterReplies.MovedIs` | scheduler/router.py:285-289 | progress starts an assigned task under its own attempt, cancelling ends an unfinished one, and nothing else happens |
| `TaskRouter.Router.OnNodeLost` | scheduler/router.py:336-356 | all rows in flight on the node are requeued or failed by budget; the requeued ids are returned |
| `RouterLaws.NodeLostIs` | scheduler/router.py:336-356 | a lost node's tasks go back to the queue while they have attempts, and fail for that reason when they have none; nothing else changes |
| `TaskRouter.Router.ExpireLeases` | scheduler/router.py:358-368 | loses exactly the nodes with an expired lease; each requeued id is returned exactly once |
| `TaskRouter.Router.Cancel` | scheduler/router.py:370-375 | cancels rows that are not finished and says whether it did |
| `RouterRuns.RunKeeps` | scheduler/router.py:204-375 | the table and network invariant holds after any sequence of steps |
| `Agent.NodeAgent.Assign` | node/agent.py:112-125 | an assignment is refused with a failure exactly when the slots are taken, and is current otherwise |
| `Agent.NodeAgent.Finish` | node/agent.py:178-223 | one report for each ending, and the job's key is gone |
| `Agent.WithoutInOrder` | node/agent.py:222-223 | the other jobs keep their order, the oldest first |
| `Agent.KilledCommits` | node/agent.py:204-223 | the report of a killed job ends its task as succeeded with no text, in every continuation, if its attempt is still awaited, and changes nothing otherwise |
| `Agent.DoneCommits` | node/agent.py:190-223 | a job that is done ends its task with its output, in every continuation, if its attempt is still awaited |
| `Agent.RaisedRetries` | node/agent.py:210-223 | a job that raised goes back to the queue if and only if attempts are left, and otherwise fails with its error in every continuation |
| `RouterLaws.FinalForGood` | scheduler/router.py:293-305 | finished rows never change, in any continuation |
| `RouterLaws.ResultOnce` | scheduler/router.py:293-320 | a written result is never written again |
| `RouterLaws.CountsOnce` | scheduler/router.py:293-320 | a result message has an effect at most the first time it arrives |
| `RouterLaws.CommittedFromLatest` | scheduler/router.py:306-320 | in every reachable state a finished row stands for the latest assignment of its task, and no later one was sent; a success was reported under that attempt by its node; a failure has used up the budget, and was reported likewise or is a lost node |
| `RouterLaws.SlotCap` | scheduler/router.py:213-224 | in every reachable state a node holds at most its slots |
| `RouterLaws.Budget` | scheduler/router.py:308-354 | queued rows have attempts left and no row exceeds its attempts |
| `RouterLaws.Terminates` | scheduler/router.py:265-354 | without submissions, a run moves rows at most three times per attempt per row |
| `RouterLaws.MovesBounded` | scheduler/router.py:265-354 | from the empty table, rows move at most three times per attempt per submission |
| `RouterLaws.AttemptsAccounted` | scheduler/router.py:265-268 | the attempts drawn are exactly those on the rows' accounts, so within all budgets |
| `RouterLaws.AnyOrder` | scheduler/router.py:358-368 | losing nodes one after the other gives the same table in any order, however often a node is named |
| `RouterLaws.ExpiryExact` | scheduler/router.py:336-368 | in whatever order late rows are found, after expiry no lease in flight is past; a row moved if and only if it was in flight on a node holding an expired one; and where it moved to |
| `Contexts.CompileTurns` | scheduler/context_store.py:194-250 | the loops compute the specified compilation and overflow |
| `Contexts.PackNewest` | scheduler/context_store.py:233-242 | the newest turns that fit, stopping at the first that does not |
| `ContextShapes.CompiledShows` | scheduler/context_store.py:194-250 | a compiled context is the summary within 15 percent of what the window leaves, the longest end of the older turns that fits, and the floor turns cut to the rest |
| `ContextShapes.FloorIs` | scheduler/context_store.py:214-226 | the floor is the last user turn and the last assistant turn, in log order |
| `ContextShapes.FloorShown` | scheduler/context_store.py:157-184 | floor turns are whole when they fit; the newer one is cut first, then both to half; what is cut keeps its latest characters |
| `ContextShapes.LiveIs` | scheduler/context_store.py:142-155 | the live turns are those beyond the versions that the newest summary covers |
| `ContextShapes.LatestIs` | scheduler/context_store.py:134-140 | the summary in force is the newest of the log, if it has any |
| `ContextShapes.TailIs` | scheduler/context_store.py:61-66 | what is cut keeps its latest characters, four for each token |
| `ContextShapes.JoinedIs` | scheduler/context_store.py:76-77 | the joined prompt has a line for each message behind its role |
| `Contexts.ContextStore.AppendTurn` | scheduler/context_store.py:93-109 | a turn is appended as the next version if and only if the expected version is current |
| `Contexts.ContextStore.AppendLatest` | scheduler/sessions.py:122-131 | appends as the next version at the first attempt |
| `ContextFit.CompiledFitsIff` | scheduler/context_store.py:129-250 | compilations stay within the budget, for all logs, if and only if it is at least three tokens |
| `ContextFit.CompiledPasses` | scheduler/router.py:150-154 | up to 68 compiled messages, the joined prompt passes the router's window test |
| `ContextFit.PassesIff` | scheduler/router.py:123-154 | and 68 is the exact limit |
| `Compaction.CompiledPartition` | scheduler/context_store.py:194-250 | every live turn is in exactly one of overflow, kept turns and floor |
| `Compaction.InLogOrderIff` | scheduler/context_store.py:214-250 | overflow, kept turns and floor are the live log in order if and only if the floor turns are the newest |
| `Compaction.PlanAdvances` | scheduler/context_store.py:262-295 | a plan covers beyond what is covered, and no further than the log |
| `Compaction.SummariserSees` | scheduler/context_store.py:282-294 | the summariser's prompt contains every overflow turn with its role |
| `SummaryChain.PlanShowsSummary` | scheduler/context_store.py:280-294 | a plan's prompt is the latest summary without the white space around it, headed, if it is not blank, and then the transcript |
| `SummaryChain.TranscriptIs` | scheduler/context_store.py:286-288 | the transcript has a line for each turn behind its role |
| `SummaryChain.SummaryCarriedOn` | scheduler/server.py:371-411 | in every run, the prompt of a waiting job opens with the text of the last summary that was committed |
| `SummaryChain.CoversFromFirst` | scheduler/context_store.py:275-279 | in every reachable state, the latest summary and the waiting job cover the log from its first version |
| `Compaction.CommitDropsIff` | scheduler/context_store.py:142-155 | a commit, late or not, drops exactly the overflow if and only if the floor is newer than it |
| `Compaction.SafeIffAlternating` | scheduler/context_store.py:214-228 | that is so for every window if and only if the speakers alternate at the end of the live log |
| `Compaction.FloorNewestIff` | scheduler/context_store.py:214-226 | the floor turns are the newest if and only if the speakers alternate |
| `CompactionJobs.SummaryMaxOutput` | scheduler/context_store.py:49-58 | prompt and cap fit the window if and only if the prompt is below it, and with the safety margin if and only if the prompt leaves room for that and one token |
| `CompactionJobs.JobIs` | scheduler/server.py:391-407 | the request is a summary that records no turns, with the instructions, the plan's prompt and the cap |
| `CompactionJobs.JobEligibleIff` | scheduler/server.py:391-407 | a node is eligible for a compaction job if and only if it is in the session's cluster and its window holds the joined prompt with the cap that was set for it |
| `CompactionJobs.WaitsForGood` | scheduler/router.py:231-283 | a queued task for which no pass of a run has an eligible node stays in the queue as it is, unless it is cancelled |
| `CompactionJobs.OversizedWaits` | scheduler/router.py:150-154 | so does a compaction job whose prompt is estimated at every window on offer or more |
| `CompactionRuns.NothingLostIff` | scheduler/server.py:371-411 | at the end of any run, everything said is live or was given to a summariser, once and in order, if and only if each committed summary was planned while the floor was newer than what it folded in |
| `CompactionRuns.NothingLost` | scheduler/server.py:371-411 | so it is when jobs are planned while the speakers alternate |
| `CompactionRuns.CleanIffAlternating` | scheduler/context_store.py:262-295 | a session can be compacted without losing a turn if and only if its speakers alternate |
| `CompactionRuns.CommitsBounded` | scheduler/context_store.py:262-295 | commits are bounded by live turns plus turns said, and each raises the covered version |
| `CompactionRuns.RunsDry` | scheduler/context_store.py:262-295 | an idle session that is compacted once for each live turn, whatever the summaries say, has nothing left to plan for that window, or waits with a job that is too big for the node |
| `CompactionStuck.StrandedIff` | scheduler/server.py:814-847 | a run leaves the mark without a job if and only if some event took the job and left the mark, and no other unrecorded task of the session failed since |
| `CompactionStuck.StuckIff` | scheduler/server.py:379-411 | a marked session never commits a summary on nodes up to a window if and only if its job is gone or does not run on that window |
| `CompactionStuck.StuckIffOversized` | scheduler/server.py:391-407 | for a job planned for one of these nodes: if and only if its prompt is estimated at that window or more |
| `CompactionStuck.NowhereIff` | scheduler/server.py:379-411 | no window helps if and only if the mark is set and no job is left |
| `CompactionStuck.LongTurnSticks` | scheduler/server.py:382-407 | from every idle session, a question as long as the largest window, its answer, one more question and its answer end in a job that no node can run, and no commit ever again |
| `CompactionStuck.CanStrand` | scheduler/server.py:814-847 | on every window from 61 tokens on, two questions and answers bring a new session to a job that runs there, and an empty summary or its loss strand it |
| `Think.StreamSplitter.Feed` | common/think.py:94-138 | the method on mutable fields makes the specified feed |
| `ThinkShapes.SplitClosed` | common/think.py:47-64 | by shape: what is before the first close tag, without blanks, opening tag and line breaks around it, is the reasoning, and what is behind, without line breaks in front, the content |
| `ThinkShapes.SplitOpen` | common/think.py:54-59 | without a close tag, a text that opens with the tag is reasoning, and any other is content as it is |
| `ThinkShapes.StreamShape` | common/think.py:115-121 | the reasoning that is streamed is all before the close tag, or all between the tags but for line breaks in front |
| `ThinkShapes.ContentSoFar` | common/think.py:114-124 | on the way, once the close tag is in, all the content so far but its last seven characters has been sent, and none before |
| `ThinkShapes.ReasoningSoFar` | common/think.py:122-124 | before the close tag, all of a text without an opening tag but its last seven characters has been sent as reasoning, or nothing while the splitter still sniffs |
| `ThinkShapes.StreamedCutOff` | common/think.py:122-128 | reasoning that opens with its tag and is never closed is streamed as reasoning, without the tag, and nothing as content |
| `ThinkShapes.ContentSent` | common/think.py:111-112 | in content mode the text is sent without its tags, and without its last seven characters until it is done |
| `ThinkShapes.RemovedIs` | common/think.py:149-153 | a tag is removed at each place where it is found, from the left, and nothing else is |
| `ThinkShapes.FamilyIff` | common/think.py:40-44 | the families taken to reason are those whose name in lower case has one of eight words in it |
| `ThinkShapes.LowerIs` | common/think.py:43 | capital letters become small, the rest stays |
| `ThinkStreams.NamedIsAssumed` | common/think.py:89-92 | naming the family with the first feed is the same as having assumed it, for the whole stream |
| `ThinkStreams.LaterNamesIgnored` | common/think.py:89-92 | once the hint is known, families named later change nothing |
| `ThinkStreams.StreamedContent` | common/think.py:94-138 | under every cutting, and with families named between the feeds, streamed content is batch content, if the close tag comes in time for the hints |
| `ThinkStreams.StreamedReasoning` | common/think.py:117-138 | under every cutting in which no feed outside sniffing shows part of a leading tag or of the blanks before it, the reasoning is sent exactly |
| `ThinkStreams.BatchReasoning` | common/think.py:47-64 | the batch reasoning is the streamed reasoning without the blanks around it |
| `ThinkStreams.NothingLostClosed` | common/think.py:111-163 | in reasoning mode the text is reasoning, close tag, line breaks and content, and nothing else |
| `ThinkStreams.NothingLostOpen` | common/think.py:123-138 | without a close tag the text comes out whole: as content if nothing was sent before it was done, as reasoning otherwise |
| `ThinkLimits.HoldIff` | common/think.py:27 | reasoning streams are exact for all texts and cuttings if and only if at least seven characters are withheld |
| `ThinkLimits.SafeFeedsIff` | common/think.py:94-138 | feeds of these lengths send the reasoning exactly, for all texts with b blanks and a leading tag, if and only if none shows blanks or part of the tag while the splitter is locked by then |
| `ThinkLimits.SafeLengthIff` | common/think.py:94-138 | a single feed is safe if and only if it does not show more than seven blanks alone, or the tag and less than seven characters more |
| `ThinkLimits.AgreesIff` | common/think.py:94-112 | stream and batch agree for all texts and cuttings if and only if the model is known to reason, or is unknown and the close tag ends within 256 characters |
| `ThinkLimits.StreamsAsIsIff` | common/think.py:113-114 | unless the model is known to reason, a text comes through unchanged under every cutting if and only if it has no tag |
| `Hunks.NormalizeHunkHeaders` | scheduler/workspaces.py:30-95 | the while loop with its running position, search start and offset writes the specified lines |
| `HunkPassing.NormalizedIff` | scheduler/workspaces.py:30-95 | one output answers to the account, and the loop writes it: every line as it is and in order, except that a bare header whose old side is found in the file, first place first, gets its ranges, with its body behind it |
| `HunkPassing.RangedUntouched` | scheduler/workspaces.py:93-94 | a diff whose headers all have ranges comes out untouched |
| `HunkPassing.Kinds` | scheduler/workspaces.py:27-61 | which lines are bare headers, name a file, and end a body |
| `HunkPassing.BodyOfIs` | scheduler/workspaces.py:58-67 | the body is all up to the next line that ends one, blank context padded, blanks dropped at the very end, and nothing else |
| `HunkPassing.SidesAre` | scheduler/workspaces.py:68-85 | the old side is the lines a hunk takes away or keeps, the new side those it keeps or puts in, without their marks |
| `HunkPassing.PathIs` | scheduler/workspaces.py:48-49 | a file's path is what follows the first slash, without the blanks around it |
| `Hunks.ReadBody` | scheduler/workspaces.py:56-64 | the body runs to the next marker line, empty lines padded, trailing blanks dropped at the end of the diff |
| `Hunks.GreedyComplete` | scheduler/workspaces.py:67-92 | leftmost-first places every hunk if and only if the hunks can be placed in order without overlap |
| `HunkRanges.RangesExact` | scheduler/workspaces.py:80-90 | each old range holds the hunk's old side in the file, and each new range its new side in the result |
| `HunkRanges.RoundTrip` | scheduler/workspaces.py:80-90 | the hunks turned round at their new ranges restore the file |
| `HunkRanges.ReversedAt` | scheduler/workspaces.py:80-90 | the place of a reversed hunk is the one its new range names |
| `HunkDiffs.NormalizedExact` | scheduler/workspaces.py:30-95 | anywhere in a diff, with any lines before and any file or hunk behind: placeable hunks are written in place under their ranges, blank context lines padded |
| `HunkDiffs.HeaderAt` | scheduler/workspaces.py:85-92 | the k-th header has the old range of the k-th hunk, shifted by the growth of those before it, with the hunk's own body behind it |
| `CodePrompt.BuildCodePrompt` | scheduler/harness.py:90-124 | the packing loop writes the header and the files, in order, as far as the budget goes |
| `CodePrompt.PackedWithin` | scheduler/harness.py:112-123 | the packed files keep to the budget, but for the mark that they were cut |
| `CodePrompt.PackedCut` | scheduler/harness.py:113-123 | the first file that does not fit is cut to what is left, if that is more than 200 characters, and marked; those before are whole and none follows |
| `CodePrompt.BodyIs` | scheduler/harness.py:116 | each file is a marker line with its path, and its content |
| `PromptRoundTrip.HeaderLines` | scheduler/harness.py:97-112 | the header's lines: instructions, task, base, tests, the note on tools, and that files follow |
| `PromptRoundTrip.SpacedIs` | scheduler/harness.py:104 | the test command is its words with spaces between |
| `CodePrompt.SnapshotFromPrompt` | node/executor.py:109-128 | the reading loop computes the fold over the lines |
| `PromptRoundTrip.NormalIs` | node/executor.py:119-127 | what is read back is the content without the line breaks around it, and one at its end |
| `PromptRoundTrip.MarkerIff` | node/executor.py:117-118 | a marker is a line with the marker's beginning and end, and what the server writes is one |
| `PromptRoundTrip.RoundTripIff` | node/executor.py:109-128 | when all files fit, the node reads back from a built prompt each file normalised and nothing else, if and only if no content line looks like a marker and no header line looks like the marker of an unpacked path |
| `PromptRoundTrip.MarkedContentLost` | node/executor.py:117-124 | a content line that looks like a marker always breaks the round trip |

## Left out

- Line breaks other than `\n`, and Unicode digits in hunk headers.
- `WorkspaceRuns.StaleInsert`: more than 200 missed patches, which the server no longer has.
- `Diamond.RebaseDiamond`: line numbers below one and negative counts are excluded, because `_apply_ops` clamps them and no client means them.
- `LineTracking.HistoryTracks`: after a file replacement in the history no old line is left, so nothing is said about line numbers from before it; the rebase skips replacements on purpose.
- Workspace creation checks (binary, size), flushing, git, rehydration and clearing: durable storage and start-up.
- `Replica.DrainedViewersConverge`: accepting a patch and publishing it are one step; a viewer subscribes and takes its snapshot in two.
- `LiveServer.SchedulerServer.ApplyWorkspacePatch`: the invalidate messages to connected agents (`scheduler/server.py:735-745`) are not sent, because nothing depends on them.
- The tables' sqlite form, restart (sequence numbers start again), `delete`, `clear` and `gc`: they reset the state the invariants are about.
- Attempt ids are counted rather than drawn at random; the clock is read once per call.
- `Scoring.EligibleIffFits`: scores are real numbers and no reasons are produced, because only fit and order matter.
- The age of a running assignment: `task_age_s` subtracts the wrong lease for code edits.
- `Agent.NodeAgent.Assign`: jobs are counted by key, as in the source, so a job that is sent again to the same node is not counted twice although it runs twice.
- The server's verification of code results before a commit, race groups, the ledger, tools and suggestions.
- Reaping of offline nodes and the re-registration of known ones.
- `Contexts.ContextStore.AppendLatest`: the retry loop is not there, because nothing runs between the read and the write.
- `Contexts.CompileTurns`: 15 percent is computed on integers, where the code multiplies floating-point numbers; so it is in `CompactionJobs.SummaryMaxOutput`.
- `CompactionRuns.NothingLostIff`: runs in which another unrecorded task of the session fails while a compaction job is queued; that clears the mark and lets a second job in beside the first.
- Summaries that a client submits as tasks of its own, a restart (which forgets the marks and keeps the queue), and the deletion of sessions.
- `CompactionJobs.OversizedWaits`: the job's key is a parameter; a plan that finds the queue full leaves no trace and is no event of a run.
- Content mode on texts with tags, where the result depends on the cutting.
- Family names are lowered as ASCII.
- Truncated reasoning, which the stream keeps and the batch form strips, on purpose.
- `HunkDiffs.NormalizedExact`: hunks without an old side are in the loop but not in this lemma, because the code does not aim at exact ranges for them.
- Headers are written as numbers, not as text, and `patch` itself is not modelled.
- `PromptRoundTrip.RoundTripIff`: paths hold no line break, and the prompt is not truncated.
- The fixed sentences of the code prompt are a parameter.
- HTTP routes, websockets, discovery, TLS, the command line and the user interfaces.
