# Verified model of the agent runtime's protocols

The repository is an agent runtime. This project models the protocols in it that keep state, each in
the form the code has: where methods update an object's fields, a Dafny class does, and every method
is proved to change the object as a function on values says; what the protocol promises is then
proved about these functions, over every input and every run.

- **Approvals** (`ApprovalModels`, `ApprovalRuntime`, `ApprovalSystem`, `ApprovalHistory`). Coroutines share one future
  per request; a session cache of granted actions sits on top. A step is the code a coroutine runs
  between two awaits. No wake-up is lost, nothing that the session was granted stays pending, every
  answer is what the record says and what every waiting coroutine gets, and nothing is recorded or
  granted that nobody said.
- **Token refresh** (`OAuthRefresh`, `OAuthFreshness`, `OAuthDoors`, `OAuthManager`). Any number of coroutines in any number of
  processes share a token file, a file lock and a server that rotates refresh tokens (section 6 of
  RFC 6749). The exact conditions under which no rotated token is ever sent again, and
  when the server is asked at all.
- **Conversation log** (`Blobs`, `ContextModels`, `Context`, `ContextRuns`, `ContextReferences`,
  `ContextTravel`, `ContextLedger`, `Compaction`, `SessionFork`, `SessionForkCuts`). Replaying the file gives
  the memory, and both hold what the operations said; checkpoints are time travel;
  forks compose; the restored token estimate drifts by a bounded amount; compaction keeps the longest
  tail that fits.
- **Notifications and background tasks** (`Notifications`, `NotificationManager`, `NotificationRuns`,
  `NotificationEvents`, `Background`, `BackgroundFates`, `Reconcile`, `BackgroundManager`). Timed claims with recovery, one notification for
  each task and reason, terminal statuses that stay and go back to a cause, and a limit on active tasks.
- **Repeated tool calls** (`Json`, `Toolset`, `KimiToolset`). An incremental counter refines the run
  length of the whole call history; keys are canonical JSON.
- **Goals and instruction files** (`Goal`, `GoalStore`, `AgentsMd`). Turn budgets, time accounting,
  and a byte budget that goes to the deepest file first.

`Basics` and `Text` hold what the modules share.

## What the code does and does not guarantee

Some properties one would expect hold only under a condition, which is then proved to be exact.

- A wait that times out raises a cancellation, but the request is recorded as cancelled only if nobody
  resolved it before the timer fired (`ApprovalSystem.TimeoutAgreesIff`); both cases are reachable.
- Rotated refresh tokens are never sent again exactly if no refresh goes on without the file lock,
  every reply reaches the file, and nobody logs out meanwhile (`OAuthRefresh.RotationSafeIff`). The
  pause of 300 seconds after a token was refused does not need the lock or the replies, but it is kept
  exactly if nobody logs out and no process has a second manager (`OAuthRefresh.CooldownRespectedIff`):
  two managers both pass the test for a rejected token before they wait for the file lock, and under
  the lock nobody tests again (`OAuthRefresh.TwoManagersAreHasty`). The code does make a second manager.
- A message line whose blob is missing reads as a placeholder until an append happens to write that
  blob; then memory and file part (`ContextReferences.AppendAgreesExactly`, `LateBlobExists`). Going
  back to a checkpoint always restores count, number and file, but the history exactly if no such blob
  was written meanwhile, and the prompt exactly if there was one or none was written
  (`ContextTravel.TimeTravel`, `LateBlobComesBack`).
- A system prompt is put in front of the file while replay lets the last one win, so memory and file
  agree only where none was set, or the same one (`ContextRuns.WritePromptAgreesIff`).
- Reading back looks only at the first media field of a content part and normalises the media type and
  the base64 text, so a part comes back as it was under an exact condition (`Blobs.PartRoundTripIff`).
- Context truncation by text is exact for every file if and only if no turn that is cut repeats the
  text of one that is kept (`SessionFork.AlignmentExactIff`); order and multiplicity of the records do
  not matter.
- Claiming for one sink also ends the stale claims of all other sinks, since it recovers first
  (`NotificationRuns.OtherSinks`, with a run in `NotificationRuns.OtherSinkChanges`); a limit below one still claims one
  (`Notifications.ClaimTakesOldest`) and may still publish one (`Reconcile.NoLimitIsNotNothing`).
- The worker of a bash task writes its status without a check. It takes the tasks over their limit
  exactly if it starts, or starts its command, for a finished task when the limit is reached
  (`Background.LimitIff`, `Background.LateWorkerBreaksLimit`), and it changes a terminal status exactly
  by such a start or by an end that does not go with the status (`Background.TerminalStaysIff`). Agent tasks
  are not affected (`Background.RunKeepsAgent`).
- A streak of equal tool calls draws reminders and stops the turn only at the first call of a step
  (`Toolset.HandleOutcome`, `Toolset.StopIff`), however often the call is repeated within a step.
- The time budget of a goal is judged by the wall clock, whatever clock the store was given; the two
  come to the same verdict exactly if turns or tokens decide, or both stand on the same side of the
  moment the budget runs out (`Goal.ClocksAgreeIff`).

## Model

| member | source | states |
|---|---|---|
| ApprovalModels.ListPendingExact | src/cran_code/approval_runtime/runtime.py:191-194 | the list names exactly the pending requests, each once, oldest first |
| ApprovalRuntime.ApprovalRuntime.CreateRequest | src/cran_code/approval_runtime/runtime.py:61-84 | a new pending record joins the dictionary; nothing else changes |
| ApprovalRuntime.ApprovalRuntime.Resolve | src/cran_code/approval_runtime/runtime.py:129-152 | true exactly for a pending request, which is settled with this response and feedback, its waiter popped and completed with them once; otherwise no change |
| ApprovalRuntime.ApprovalRuntime.CancelRequest | src/cran_code/approval_runtime/runtime.py:154-169 | as resolving, with a cancellation; nothing for a request that is not pending |
| ApprovalRuntime.ApprovalRuntime.CancelBySource | src/cran_code/approval_runtime/runtime.py:171-189 | the loop over the dictionary comes to cancelling, front to back, each pending request of the source, and counts them |
| ApprovalRuntime.ApprovalRuntime.BeginWait | src/cran_code/approval_runtime/runtime.py:89-101 | unknown id, immediate verdict, or suspension on the shared future with the count one higher |
| ApprovalRuntime.ApprovalRuntime.TimeoutHandler | src/cran_code/approval_runtime/runtime.py:106-119 | the last observer drops the waiter first; then the request is cancelled if it is still pending |
| ApprovalRuntime.ApprovalRuntime.LeaveWait | src/cran_code/approval_runtime/runtime.py:120-127 | the count falls by one or disappears, and the last observer of a pending request takes the waiter along |
| ApprovalRuntime.ApprovalRuntime.ListPending | src/cran_code/approval_runtime/runtime.py:191-194 | the loop and the sort compute the list that ListPendingExact is about |
| ApprovalRuntime.ApprovalRuntime.SweepSession | src/cran_code/soul/approval.py:372-378 | every listed request with the granted action is approved via the cache |
| ApprovalSystem.StepKeeps | src/cran_code/approval_runtime/runtime.py:86-189 | one atomic step of any coroutine keeps: a waiter exists iff its request is pending and observed, counts are the numbers of observers, observers of a pending request share its undone future, those of a settled one hold its verdict, each settling is announced once, and no granted action is pending |
| ApprovalSystem.RunKeeps | src/cran_code/approval_runtime/runtime.py:86-189 | the same in every state of every run |
| ApprovalSystem.ReachableOk | src/cran_code/soul/approval.py:262-378 | from any saved cache, no reachable state has a pending request whose action the session cache grants |
| ApprovalSystem.SettledIsFinal | src/cran_code/approval_runtime/runtime.py:129-189 | a request that is no longer pending keeps its record for ever |
| ApprovalSystem.SettledWakes | src/cran_code/approval_runtime/runtime.py:147-149 | each coroutine suspended on a settled request can wake, and wakes to the verdict in the record |
| ApprovalSystem.SettledDrains | src/cran_code/approval_runtime/runtime.py:102-127 | from every such state the observers of a settled request can all wake, one step each, leaving no count behind |
| ApprovalSystem.PendingBlocks | src/cran_code/approval_runtime/runtime.py:99-105 | nobody wakes from a request that is still pending |
| ApprovalSystem.CancelBySourceExact | src/cran_code/approval_runtime/runtime.py:171-189 | exactly the pending requests of the source become cancelled; every other record is unchanged |
| ApprovalSystem.CancelBySourceCounts | src/cran_code/approval_runtime/runtime.py:171-189 | the number returned is how many there were |
| ApprovalSystem.SweepKeeps | src/cran_code/soul/approval.py:370-378 | the sweep takes out of pending exactly the listed requests with the action and keeps the invariants |
| ApprovalSystem.TimeoutAgreesIff | src/cran_code/approval_runtime/runtime.py:106-119 | after a timeout the record says cancelled if and only if nobody resolved the request before the timer fired |
| ApprovalSystem.TimeoutRaceReachable | src/cran_code/approval_runtime/runtime.py:106-119 | a run in which the record says approved and the observer raises a cancellation |
| ApprovalHistory.AnswerStands | src/cran_code/approval_runtime/runtime.py:129-152 | the answer to a pending request, be it approval, approval for the session or rejection, is in its record with its feedback in every later state, and every coroutine that waits or asks later gets exactly this answer |
| ApprovalHistory.CancelStands | src/cran_code/approval_runtime/runtime.py:154-189 | a pending request that is cancelled with its source is recorded as cancelled and rejected for ever, and every coroutine that waits or asks later gets the error |
| ApprovalHistory.GrantStands | src/cran_code/soul/approval.py:369-379 | once the coroutine that asked wakes to an answer for the session, its action stays in the cache, every request with it that was pending is approved and tells so, and asking for it again creates no request |
| ApprovalHistory.AskWaits | src/cran_code/soul/approval.py:245-300 | asking leaves the state alone if the session lets the action through, and otherwise leaves a pending request with this action and source that the coroutine waits for |
| ApprovalHistory.WaitsIff | src/cran_code/approval_runtime/runtime.py:86-105 | waiting for a request suspends iff it is pending, on the future that its other observers share; it is answered at once iff the request is settled, and an error iff it is unknown |
| ApprovalHistory.LateAnswer | src/cran_code/approval_runtime/runtime.py:135-140 | answering a request that is not pending changes nothing |
| ApprovalHistory.NothingUnsaid | src/cran_code/approval_runtime/runtime.py:61-189 | in every run from an empty runtime each record goes back to the step that asked; a response in it to an answer that gave it, with this feedback, while it was pending, or to the cache after an answer for the session to a request with its action; a cancellation to its source or a timeout; and the cache holds only what was saved or so granted |
| OAuthRefresh.StepKeeps | src/cran_code/auth/oauth.py:951-1071 | with the lock, reliable replies and the file in place, one step keeps: no rotated token was sent, a coroutine past the lock is its holder, the holder sends only a token that is not rotated, and the file holds none unless the holder has the new one in hand |
| OAuthRefresh.RunKeeps | src/cran_code/auth/oauth.py:951-1071 | the same over every interleaving of any number of coroutines, managers and processes |
| OAuthRefresh.MutualExclusion | src/cran_code/auth/oauth.py:280-350 | in every run, whatever goes wrong around it: two coroutines that got the file lock are never both between getting it and leaving; those that went on without it are not counted |
| OAuthRefresh.FileIsValid | src/cran_code/auth/oauth.py:995-1071 | under the same three provisos as the safety of rotation: while nobody has a reply in hand, the token in the file is one that the server still takes |
| OAuthRefresh.RotationSafeIff | src/cran_code/auth/oauth.py:995-1071 | with any number of managers in a process, no run ever sends a rotated token, if and only if the lock is always taken, replies reach the file and nobody logs out |
| OAuthRefresh.UnlockedReuses | src/cran_code/auth/oauth.py:330-344 | going on without the lock, two processes send the token that both have read |
| OAuthRefresh.LostReplyReuses | src/cran_code/auth/oauth.py:503-546 | a lost reply makes the retry send the token again |
| OAuthRefresh.LogoutReuses | src/cran_code/auth/oauth.py:1001-1015 | after a logout the check under the lock finds no file and trusts a stale token |
| OAuthRefresh.CooldownRespectedIff | src/cran_code/auth/oauth.py:806-833 | no run has a process send a token within 300 seconds of giving up on it, if and only if nobody logs out and no process has a second manager; the lock may be given up and replies may be lost |
| OAuthRefresh.LogoutIsHasty | src/cran_code/auth/oauth.py:961-991 | after a login and a logout a coroutine of the same process sends the refused token that it had read before |
| OAuthRefresh.TwoManagersAreHasty | src/cran_code/auth/oauth.py:967-1015 | two managers of one process pass the test for a rejected token and wait for the file lock; the first is refused and gives up, the second gets the lock and sends the refused token |
| OAuthFreshness.DecidesIff | src/cran_code/auth/oauth.py:967-991 | the refresh goes on to the file lock exactly with a refresh token that is not cooling down and, unless forced, has no expiry, less than 300 seconds or less than half its lifetime left |
| OAuthFreshness.ChecksIff | src/cran_code/auth/oauth.py:999-1015 | under the lock it goes on to the server exactly if the file is gone, or holds the same token and that is due in the same sense or the refresh forced |
| OAuthFreshness.BeginsIff | src/cran_code/auth/oauth.py:888-905 | it starts exactly with a token in the file that is not cooling down |
| OAuthFreshness.ReloadsIff | src/cran_code/auth/oauth.py:960-966 | it goes for the in-process lock with the token in the file, or else the one it had, exactly if that has a refresh token |
| OAuthFreshness.UnforcedSendsAreDue | src/cran_code/auth/oauth.py:960-1018 | in every run, whatever goes wrong, what reaches the server was read by this very refresh, and unless it is forced the token read was due; with the file lock it was read again under the lock, and was still the same and due |
| OAuthFreshness.RefreshSaves | src/cran_code/auth/oauth.py:1062-1064 | a token that the server takes is replaced in the file by the one it issues, and no tombstone is left |
| OAuthDoors.OneInside | src/cran_code/auth/oauth.py:967-968 | in every run two coroutines of one manager are never both past its lock, and one that waits for it can enter iff none is |
| OAuthDoors.SixAttempts | src/cran_code/auth/oauth.py:330-344 | while another holds the file lock, five attempts leave a coroutine waiting and after the sixth it goes on without |
| OAuthManager.CrossProcessLock.AcquireWithRetry | src/cran_code/auth/oauth.py:330-344 | the lock is got exactly when the first attempt that is not contended succeeds; no attempt follows it; at most one attempt more than the retries |
| OAuthManager.RejectedTokens.RejectedState | src/cran_code/auth/oauth.py:806-815 | a tombstone is found for the same token only, and asking about another token removes it |
| OAuthManager.RejectedTokens.CanRetry | src/cran_code/auth/oauth.py:820-822 | allowed unless a tombstone of this token is still cooling down |
| OAuthManager.RejectedTokens.Mark | src/cran_code/auth/oauth.py:824-830 | the token may be retried from 300 seconds later on and not before; other tokens are not suppressed |
| OAuthManager.TokenManager.RefreshUnderLock | src/cran_code/auth/oauth.py:993-1071 | the server is asked unless the lock was got and the file shows another token or, without force, a fresh one; exactly a refusal that the file does not explain marks the token, exactly a reply is saved, errors are raised with force only, and the lock is free however it ends |
| OAuthManager.StepsDecideAlike | src/cran_code/auth/oauth.py:999-1051 | the steps of the protocol under the lock and after a refusal decide and change the table as this method does |
| Blobs.UrlRoundTripIff | src/cran_code/soul/blobstore.py:110-157 | a media url written to the log and read back is the same url if and only if it stays inline and is no reference, or it is in canonical form with a known type |
| Blobs.UrlRoundTripLater | src/cran_code/soul/blobstore.py:110-157 | and this stays so however many blobs are added later |
| Blobs.ReferenceResolves | src/cran_code/soul/blobstore.py:124-136 | a reference just written has a well-formed name and its file holds the bytes moved out |
| Blobs.PartRoundTripIff | src/cran_code/soul/blobstore.py:65-107 | a content part comes back as it was iff its first media field survives and its later ones are not moved out |
| Blobs.PartsRoundTripIff | src/cran_code/soul/blobstore.py:65-107 | a message comes back as it was iff each of its parts does |
| Blobs.RestrictedIsLawful | src/cran_code/soul/blobstore.py:119-134 | base64, and a digest without collisions among the payloads that occur, meet what the other rows take for granted once decoding is restricted to these payloads |
| Blobs.RestrictedAgreesOnParts | src/cran_code/soul/blobstore.py:119-134 | it is enough that digests do not collide among the payloads that occur: on messages with such payloads a codec that decodes nothing else writes the same files and reads back the same parts |
| Blobs.LawfulExists | src/cran_code/soul/blobstore.py:110-136 | there are such codecs, with a url that is moved out and comes back |
| Blobs.KnownIff | src/cran_code/soul/blobstore.py:37-52 | the media types that come back are the thirteen with an extension of their own and application/octet-stream |
| Blobs.CanonicalSurvivesIff | src/cran_code/soul/blobstore.py:110-119 | a url in canonical form is moved out iff it has at least 1024 characters, and then comes back iff its media type is one of these |
| Blobs.UrlDeclares | src/cran_code/soul/blobstore.py:110-119 | the media type is the text before the first parameter, stripped and in small letters, and the mark of base64 may be in letters of either case |
| Blobs.OthersStay | src/cran_code/soul/blobstore.py:111-118 | a url without the scheme, a comma or the mark stays in the message, and no file is written |
| Blobs.MissingReads | src/cran_code/soul/blobstore.py:145-161 | a reference that is malformed or whose file is missing reads as a text in place of the whole part |
| Blobs.BlobStore.ExternalizeField | src/cran_code/soul/blobstore.py:110-136 | one field is replaced by a reference and one file written, or nothing happens |
| Blobs.BlobStore.Externalize | src/cran_code/soul/blobstore.py:65-84 | in place, every field of every part, over one directory |
| Blobs.BlobStore.Rehydrate | src/cran_code/soul/blobstore.py:87-107 | in place, the first media field of every part |
| Context.Context.ApplyRecord | src/cran_code/soul/context.py:315-378 | one line changes memory as replay says; false exactly for a line that is skipped |
| Context.Context.Restore | src/cran_code/soul/context.py:36-71 | an error for a context in use, nothing for an empty file, otherwise the replay of the whole file |
| Context.Context.WriteSystemPrompt | src/cran_code/soul/context.py:97-127 | the prompt is set and becomes the first line |
| Context.Context.Checkpoint | src/cran_code/soul/context.py:129-139 | the next number is written to the file, and a marker message if asked for |
| Context.Context.AppendMessage | src/cran_code/soul/context.py:260-279 | memory, pending estimate, file and blobs after an append |
| Context.Context.UpdateTokenCount | src/cran_code/soul/context.py:281-287 | the reported count is kept in memory, written to the file, and replaces the pending estimate |
| Context.Context.RevertTo | src/cran_code/soul/context.py:141-206 | errors for a checkpoint that does not exist and a file that cannot be rotated; otherwise memory is the replay of the lines before the checkpoint, and the file keeps the readable ones |
| Context.Context.Clear | src/cran_code/soul/context.py:208-236 | everything empty, unless the file cannot be rotated |
| Context.Context.ClearInPlace | src/cran_code/soul/context.py:238-258 | everything empty |
| ContextRuns.RunKeeps | src/cran_code/soul/context.py:36-287 | from a file without broken references, over every run of appends, checkpoints, usages, prompts, reverts, clears and restarts, replaying the file from scratch gives the memory, and the file numbers its checkpoints 0, 1, 2, ... once each |
| ContextRuns.AppendAgreesIff | src/cran_code/soul/context.py:260-279 | after an append, file and memory agree iff every message survives the round trip through the blobs |
| ContextRuns.WritePromptAgreesIff | src/cran_code/soul/context.py:97-127 | after writing a prompt, they agree iff none was set, or the same one |
| ContextRuns.RevertNumbered | src/cran_code/soul/context.py:141-206 | a revert to checkpoint k leaves the checkpoints below k |
| ContextRuns.RevertKeeps | src/cran_code/soul/context.py:141-206 | and file and memory still agree |
| ContextRuns.KeptReplays | src/cran_code/soul/context.py:196-204 | leaving out the lines that replay skips changes nothing that replay sees |
| ContextRuns.StartGood | src/cran_code/soul/context.py:36-71 | a context restored from a file numbered in this way, none of whose references is broken, starts such a run |
| ContextReferences.StartSound | src/cran_code/soul/context.py:36-71 | a context restored from any numbered file agrees with it, broken references included |
| ContextReferences.FileRereads | src/cran_code/soul/blobstore.py:139-157 | a file replays to the same history after blobs were added exactly if none of them is one that a line was missing |
| ContextReferences.AppendAgreesExactly | src/cran_code/soul/context.py:260-279 | in any conversation in agreement, file and memory agree after an append iff every new message survives and no blob it writes is one that an older line was missing |
| ContextReferences.SoundRun | src/cran_code/soul/context.py:36-287 | over every run in which no append writes a missing blob, agreement and numbering are kept, broken references or not |
| ContextReferences.LateBlobParts | src/cran_code/soul/blobstore.py:149-156 | a file with a missing picture, restored, and the same picture sent again: the message survives, and memory and file part |
| ContextReferences.LateBlobExists | src/cran_code/soul/blobstore.py:149-156 | there are such files and pictures |
| ContextReferences.GoodIsHarmless | src/cran_code/soul/context.py:36-287 | from a file without broken references, every run of operations whose messages survive is one in which no append writes a missing blob, so all that holds of such runs holds of it |
| ContextTravel.TimeTravel | src/cran_code/soul/context.py:129-206 | in any conversation in agreement, broken references included: going back to a checkpoint restores count, next number and the readable lines of the moment before it was taken, whatever appends, prompts, usages, checkpoints, restarts and reverts to later points came in between; the history too iff no blob written since is one that a line was missing, the prompt iff there was one or none was written since; without broken references the history always |
| ContextTravel.LateBlobComesBack | src/cran_code/soul/blobstore.py:149-156 | a restored file with a missing picture, a checkpoint, the picture sent again, and back: the history is not the one at the checkpoint |
| ContextTravel.DriftBound | src/cran_code/soul/context.py:70-264 | over every run of SoundRun, broken references included: after m estimates since the last usage, memory <= restored <= memory + 3m/4 |
| ContextTravel.DriftTight | src/cran_code/soul/context.py:70-264 | the bound is reached for every m |
| ContextTravel.ShortExists | src/cran_code/soul/compaction.py:62-68 | there are messages of which each estimate loses three characters |
| ContextLedger.CountIsReported | src/cran_code/soul/context.py:129-287 | over every run, whatever becomes of the messages: the token count in memory and the one that the file gives is the last one reported since the last clear; appends, checkpoints, prompts and restarts leave it, and a revert brings back the one reported last before the checkpoint |
| ContextLedger.LedgerIsKept | src/cran_code/soul/context.py:36-287 | over every run in which the messages survive and no missing blob turns up, memory and file hold what the operations said: each message in order, each marker, the count, the prompt, and after a revert all of it as of the checkpoint |
| ContextLedger.LedgerStarts | src/cran_code/soul/context.py:36-71 | such a ledger exists for what is restored from any numbered file, and is empty for an empty one |
| ContextLedger.MarkerIs | src/cran_code/soul/context.py:129-139 | a marker is a user message of one text: the number of the checkpoint in decimal, without leading zeros, between the tags |
| Compaction.EstimateTextTokens | src/cran_code/soul/compaction.py:59-68 | the characters of all text parts of all messages, four to a token, rounded down once |
| Compaction.Prepare | src/cran_code/soul/compaction.py:168-213 | the backward loop with its two ways of stopping chooses the split that the next two rows are about |
| Compaction.SplitIsLongest | src/cran_code/soul/compaction.py:174-213 | without a summary nothing is dropped; with one, summarised and kept make up the input, and what is kept is the longest tail that starts with a user or assistant message and meets both limits, or empty if none does |
| Compaction.NothingToSummariseIff | src/cran_code/soul/compaction.py:171-213 | nothing is summarised iff nothing may be preserved, or there are no messages, or the user and assistant messages weigh no more than the token limit and are some but fewer than the number, or exactly the number with the first message among them |
| Compaction.WeightIs | src/cran_code/soul/compaction.py:183-190 | each user or assistant message weighs a quarter of its characters, rounded down, and no other one weighs anything |
| Compaction.NoOrphans | src/cran_code/soul/compaction.py:181-209 | if every tool result follows its call with only tool results between, this holds of both halves |
| SessionFork.EnumerateTurns | src/cran_code/session_fork.py:38-73 | the texts of the turns in order |
| SessionFork.TruncateWireAtTurn | src/cran_code/session_fork.py:98-151 | the loop with its two breaks computes the cut, and an error exactly when there are not enough turns |
| SessionFork.CutWireTurns | src/cran_code/session_fork.py:114-146 | what is left has exactly the turns up to the chosen one |
| SessionFork.CutWireTwice | src/cran_code/session_fork.py:114-146 | cutting at k and then at j <= k is cutting at j |
| SessionFork.MatchWireTurn | src/cran_code/session_fork.py:243-259 | the first turn from the cursor on with this text, or none |
| SessionFork.TruncateContextAtTurn | src/cran_code/session_fork.py:173-240 | the loop computes the cut by text, or by counting when no texts are given |
| SessionFork.ForkSession | src/cran_code/session_fork.py:294-303 | the files of the new session, or the error |
| SessionFork.ForkOfFork | src/cran_code/session_fork.py:294-299 | the fork has the first k + 1 turns of its source, and its fork at j <= k, with texts recomputed, equals the fork of the source at j in both files |
| SessionFork.ForkOfCopy | src/cran_code/session_fork.py:294-303 | a fork of a full copy is a fork of the original, errors included |
| SessionFork.ForksGrow | src/cran_code/session_fork.py:98-240 | a fork further on extends one further back, in both files |
| SessionFork.AlignmentExactIff | src/cran_code/session_fork.py:211-259 | cutting by text stops just before the first record with the text of a later turn, in every file, iff no later turn repeats the text of one up to k |
| SessionFork.AlignedIsCounted | src/cran_code/session_fork.py:183-259 | where the real user records are the turns, one for one, cutting by text and by counting agree even with repeated texts |
| SessionFork.CheckpointIsNoTurn | src/cran_code/session_fork.py:154-170 | the marker that a checkpoint writes is recognised, whatever its number |
| SessionForkCuts.RealIff | src/cran_code/session_fork.py:154-170 | a user record is a marker iff it is a string or a single part whose text, stripped, is the opening tag, one or more digits and the closing tag; every other one is real |
| SessionForkCuts.LaterTurnsAreCut | src/cran_code/session_fork.py:211-240 | a user record that is no marker and whose stripped text is that of a later turn and of none up to k is not kept, nor is anything behind it; what is readable before the first record with the text of a later turn is kept |
| SessionForkCuts.CountStops | src/cran_code/session_fork.py:226-240 | without texts the cut ends before the real user record with number k + 1, counted from zero |
| SessionForkCuts.WireIsCutWhenOver | src/cran_code/session_fork.py:98-151 | the wire keeps every line that parses, in order, up to the first place where turn k has ended or the next one begins |
| SessionForkCuts.ForkCutsBoth | src/cran_code/session_fork.py:294-299 | a fork exists iff the wire has more than k turns, and its two files are cut at these places, the context by the texts of the wire |
| SessionForkCuts.TextsAreJoined | src/cran_code/session_fork.py:76-90 | the text of a list is made of the texts of its items in order, one blank between two of them |
| SessionForkCuts.OneText | src/cran_code/session_fork.py:81-90 | one item has its own text, or none |
| SessionForkCuts.TurnsAreBeginnings | src/cran_code/session_fork.py:60-73 | the turns of two stretches of the wire are the turns of the first and then those of the second |
| SessionForkCuts.OneLine | src/cran_code/session_fork.py:38-73 | a turn begins with a TurnBegin and has its text; copies leave out blank lines only, cuts also those that do not parse |
| SessionForkCuts.CopiesKeepLines | src/cran_code/session_fork.py:294-303 | a copy of the wire keeps its lines in order |
| SessionForkCuts.CutsKeepLines | src/cran_code/session_fork.py:114-128 | so does a cut |
| SessionForkCuts.CopiesKeepRecords | src/cran_code/session_fork.py:294-303 | a copy of the context keeps its records in order |
| SessionForkCuts.CutsKeepRecords | src/cran_code/session_fork.py:213-240 | so does a cut |
| NotificationManager.NotificationManager.FindByKey | src/cran_code/notifications/manager.py:35-39 | the newest notification with the key |
| NotificationManager.NotificationManager.Publish | src/cran_code/notifications/manager.py:41-48 | the existing notification for a known key, otherwise a new one, pending for its targets |
| NotificationManager.NotificationManager.Recover | src/cran_code/notifications/manager.py:50-65 | the nested loops make exactly the stale claims pending again |
| NotificationManager.NotificationManager.ClaimForSink | src/cran_code/notifications/manager.py:75-93 | recovery, then the loop with its break comes to the claim that ClaimTakesOldest is about |
| NotificationManager.NotificationManager.Ack | src/cran_code/notifications/manager.py:128-138 | acknowledged in any state; an error for an unknown id; no change for a sink that is no target |
| NotificationManager.NotificationManager.DeliverPending | src/cran_code/notifications/manager.py:95-126 | a claim, then an acknowledgement for each whose handler does not fail |
| Notifications.ClaimTakesOldest | src/cran_code/notifications/manager.py:75-93 | a claim takes exactly the oldest pending ones, up to the limit and at least one, in order; the others stay pending |
| NotificationEvents.PublishKnown | src/cran_code/notifications/manager.py:41-45 | for a key that is known nothing changes, and the newest notification with it is returned |
| NotificationEvents.PublishNew | src/cran_code/notifications/manager.py:46-48 | otherwise exactly one is added, with this event, pending for each of its targets and for no other sink |
| NotificationEvents.RecoverIff | src/cran_code/notifications/manager.py:50-65 | a claim is pending again iff it is older than the limit; everything else stays |
| NotificationEvents.StoreInOrder | src/cran_code/notifications/store.py:105-118 | notifications stand by time, and those of one time by id; no key stands twice |
| NotificationRuns.StateAfterClaim | src/cran_code/notifications/manager.py:79-92 | exactly the claimed ones change, for this sink only, and each was pending |
| NotificationRuns.StepKeeps | src/cran_code/notifications/manager.py:41-138 | publishing, recovering, claiming and acknowledging keep: order by age, distinct ids, no key twice, and every logged claim is acknowledged, current, or more than the staleness limit ago |
| NotificationRuns.ClaimsApart | src/cran_code/notifications/manager.py:50-93 | in every run with a monotone clock, two claims of a notification for one sink are more than the staleness limit apart |
| NotificationRuns.AckedIsFinal | src/cran_code/notifications/manager.py:128-138 | what is acknowledged stays so in every run |
| NotificationRuns.OtherSinks | src/cran_code/notifications/manager.py:75-138 | a claim changes another sink exactly as recovery does, an acknowledgement not at all |
| NotificationRuns.OtherSinkChanges | src/cran_code/notifications/manager.py:75-78 | a run in which a claim for one sink makes the stale claim of another pending again |
| NotificationRuns.DrainsInOrder | src/cran_code/notifications/manager.py:75-93 | repeated calls, each recovering first, hand out the backlog of a sink first in, first out, each notification once, up to the sum of their limits, as long as none of the sink's claims grows stale |
| NotificationRuns.DeliverySettles | src/cran_code/notifications/manager.py:95-126 | after an uninterrupted delivery each claimed notification is acknowledged if its handler succeeded and still claimed if not |
| Background.TerminalStaysIff | src/cran_code/background/worker.py:40-209 | a step keeps the terminal status of a task iff it is not a start of its worker or its command, nor an end of its worker that does not go with that status: completed goes with success and no kill request, killed with an early end or an exit under one, failed with a timeout, an error or an unrequested failure, lost with none |
| Background.LimitIff | src/cran_code/background/manager.py:93-271 | a step keeps the number of active tasks within the limit iff it is not a start of a worker or its command for a finished task when the limit is reached |
| Background.RunKeepsTerminal | src/cran_code/background/worker.py:40-209 | over every run in which no worker writes over its terminal status, the status of a task never changes, whatever happens to other tasks |
| Background.RunKeepsAgent | src/cran_code/background/manager.py:608-715 | the terminal status of an agent task never changes in any run |
| Background.RunKeepsLimit | src/cran_code/background/manager.py:164-228 | over every run in which no worker starts for a finished task, active tasks never exceed the limit |
| Background.LateWorkerBreaksLimit | src/cran_code/background/worker.py:44-49 | a run in which a late worker takes the tasks over the limit |
| Background.RecoverLeavesLive | src/cran_code/background/manager.py:420-444 | after recovery every active agent task has a runner in this process; exactly those without one are lost |
| BackgroundFates.EveryEndHasACause | src/cran_code/background/manager.py:371-715 | in every run: a task is killed, or asked to stop, only after somebody asked for it, completed only when its runner or the exit of its command said so, lost only by a recovery, failed only by a runner, a timeout, a launch error or the end of its worker |
| BackgroundFates.KillNow | src/cran_code/background/manager.py:371-402 | killing ends an active agent task, sets the request on an active bash task, and leaves a finished one alone |
| BackgroundFates.KilledInTheEnd | src/cran_code/background/worker.py:150-209 | however long after the request to stop, the end of the worker leaves the task killed, or failed if it timed out or broke down |
| BackgroundFates.RecoverBashIff | src/cran_code/background/manager.py:446-481 | recovery leaves a bash task alone iff it is over or was heard of within the limit, by its heartbeat, start, update or creation in this order; otherwise it is killed if asked to stop, and else lost |
| BackgroundFates.BeatingSurvives | src/cran_code/background/manager.py:446-481 | a task whose worker beats within the limit is not given up |
| BackgroundFates.MarkedAs | src/cran_code/background/manager.py:608-715 | marking an active agent task leaves the status that it names, and a timeout leaves it failed and flagged |
| BackgroundFates.RunnersProtect | src/cran_code/background/manager.py:209-283 | in every run a new agent task is starting and has a runner, and as long as that has not ended it is never lost |
| BackgroundFates.RunnerGone | src/cran_code/background/manager.py:420-444 | once the runner has ended, a recovery gives up a task that is still active |
| BackgroundFates.WorkerEndsAs | src/cran_code/background/worker.py:150-209 | failed on a timeout, an error or an unrequested failure; killed with a request and an exit; completed with success and no request; the start and the flags are those of the record that the worker holds |
| BackgroundFates.WorkerGoesOn | src/cran_code/background/worker.py:40-100 | starting once the worker runs, running once its command does |
| Reconcile.KeyTells | src/cran_code/background/manager.py:580 | the key determines the task and the reason |
| NotificationEvents.NewNotesTell | src/cran_code/background/manager.py:487-590 | every notification that a call adds is about a listed finished task, pending for every sink, and its key and type name the task and timed_out, completed, failed, killed or lost, as it ended |
| NotificationEvents.ReturnsNewIds | src/cran_code/background/manager.py:592-606 | the ids returned are exactly those of the notifications added, and none is taken away |
| NotificationEvents.ListedInOrder | src/cran_code/background/store.py:165-169 | tasks are listed by last update, or creation if there is none, the latest first, and then by id |
| Reconcile.ListedSame | src/cran_code/background/store.py:153-169 | listing permutes the tasks |
| Reconcile.PublishesMissing | src/cran_code/background/manager.py:487-606 | with no limit or one of at least one, a call publishes exactly min(limit, missing), and that many fewer are missing afterwards |
| Reconcile.NothingMissing | src/cran_code/background/manager.py:487-606 | when nothing is missing, nothing is published, whatever the limit |
| Reconcile.ReconcileCovers | src/cran_code/background/manager.py:483-606 | after reconciling without a limit every finished task has its notification, and doing it again with no change publishes nothing |
| Reconcile.RepeatedCallsDrain | src/cran_code/background/manager.py:604-605 | n calls with a limit publish n times the limit until nothing is missing |
| Reconcile.NoLimitIsNotNothing | src/cran_code/background/manager.py:604-605 | with a limit below one, the first finished task is still published if it is missing, and nothing else |
| Reconcile.PublishTerminalKeeps | src/cran_code/notifications/manager.py:35-48 | the store never holds two notifications with one key |
| BackgroundManager.BackgroundManager.ActiveTaskCount | src/cran_code/background/manager.py:93-96 | the number of tasks without a terminal status |
| BackgroundManager.BackgroundManager.CreateAgentTask | src/cran_code/background/manager.py:209-283 | the errors in their order; otherwise a starting task with a live runner |
| BackgroundManager.BackgroundManager.CreateBashTask | src/cran_code/background/manager.py:150-207 | the errors in their order; a starting task, or a failed one when the worker cannot be launched |
| BackgroundManager.BackgroundManager.MarkTask | src/cran_code/background/manager.py:608-682 | the new status, unless the old one is terminal |
| BackgroundManager.BackgroundManager.MarkTaskTimedOut | src/cran_code/background/manager.py:684-704 | failed and flagged, unless the old status is terminal |
| BackgroundManager.BackgroundManager.Kill | src/cran_code/background/manager.py:371-402 | an agent task is killed, a bash task is asked to stop, a finished one is left alone |
| BackgroundManager.BackgroundManager.Recover | src/cran_code/background/manager.py:420-481 | agent tasks without a runner are lost; stale bash tasks are lost, or killed if that was asked for |
| BackgroundManager.BackgroundManager.PublishTerminalNotifications | src/cran_code/background/manager.py:487-606 | the loop with its break comes to what PublishesMissing is about |
| BackgroundManager.BackgroundManager.Reconcile | src/cran_code/background/manager.py:483-485 | recovery, then publishing |
| Json.CanonicalIff | src/cran_code/soul/toolset.py:193-199 | two values with unique keys have one canonical form iff they are equal up to the order of fields at every depth |
| Json.SortIsIdempotent | src/cran_code/soul/toolset.py:193-199 | the canonical form of a canonical form is itself |
| Json.SortAscends | src/cran_code/soul/toolset.py:198 | the fields of a canonical object are in the order of their keys |
| Toolset.KeyIff | src/cran_code/soul/toolset.py:202-221 | two calls have one key iff they name one tool with arguments equal up to the order of fields; keys stay when normalised again |
| Toolset.RunLengthIs | src/cran_code/soul/toolset.py:337-343 | what the run length of a history means: that many equal calls at its end, and no more |
| Toolset.AdvanceCountsRun | src/cran_code/soul/toolset.py:337-343 | the incremental counter counts the run at the end of the whole history |
| Toolset.CountIsRun | src/cran_code/soul/toolset.py:308-354 | in every run of steps, from a new session or one taken up again with its last calls, with failed and repeated ones and with new turns after either, the stored count is the run at the end of the recorded history, and the projected one the run up to the call |
| Toolset.HandleOutcome | src/cran_code/soul/toolset.py:387-474 | a repeated call of a step shares a result; the first call of a step draws what its run demands; every other call draws nothing |
| Toolset.StopIff | src/cran_code/soul/toolset.py:447-474 | in every run the turn is stopped iff the first call of the step ends a run of at least twelve, so the eleven calls before the step were the same; and a step starts one task for each different call |
| Toolset.RemindersIff | src/cran_code/soul/toolset.py:180-190 | in every run: the first call of a step draws the first, second or third reminder, or stops the turn, iff it is at least the third, fifth, eighth or twelfth equal call in a row and not yet the next of these; no other call draws anything |
| Toolset.MarkedIff | src/cran_code/soul/toolset.py:387-474 | in every run a step is marked iff it repeats a call of an earlier one |
| Toolset.EndTwice | src/cran_code/soul/toolset.py:329-335 | ending a step twice is ending it once |
| KimiToolset.KimiToolset.BeginStep | src/cran_code/soul/toolset.py:308-327 | the state in which a step begins, after an empty step a fresh one |
| KimiToolset.KimiToolset.EndStep | src/cran_code/soul/toolset.py:329-335 | the calls of the step, counted and remembered once |
| KimiToolset.KimiToolset.AdvanceConsecutiveStreak | src/cran_code/soul/toolset.py:337-343 | the loop advances the streak by all calls |
| KimiToolset.KimiToolset.ProjectedStreakForCall | src/cran_code/soul/toolset.py:345-354 | the count that the streak will have at the call; nothing is changed |
| KimiToolset.KimiToolset.Handle | src/cran_code/soul/toolset.py:365-633 | unknown tools and unreadable arguments change nothing; other calls are recorded under their canonical key |
| Goal.StepKeeps | src/cran_code/soul/goal.py:189-326 | every operation keeps: active iff an interval is open, and stored seconds with the open interval are the time the stored status was active |
| Goal.RunKeeps | src/cran_code/soul/goal.py:117-326 | the same in every run with a clock that does not go back |
| Goal.CompleteReports | src/cran_code/soul/goal.py:244-252 | a completed goal reports all the time it was active, up to the reading that closes its last interval |
| Goal.ContinuesIff | src/cran_code/soul/goal.py:503-519 | a turn yields a continuation iff the goal is still active afterwards, iff no budget is exceeded |
| Goal.TurnVerdictIff | src/cran_code/soul/goal.py:503-519 | after a turn an active goal has one turn more and the tokens just counted, and stays active iff turns are below their budget, thirty by default, tokens below theirs and seconds below theirs; otherwise it is blocked, for the first of these that is used up |
| Goal.PressureIff | src/cran_code/soul/goal.py:147-156 | a continuation warns iff three quarters of some budget are used up |
| Goal.NamesTell | src/cran_code/soul/goal.py:189-326 | each operation that does not fail leaves the goal active, paused, blocked or gone, with the reason it was given, and changes nothing else that counts |
| Goal.ContinuationsBounded | src/cran_code/soul/goal.py:503-519 | a goal yields fewer continuations than the largest turn budget that any operation of the run sets, whatever is paused, blocked, resumed, restarted and given another budget |
| Goal.ExhaustedForGood | src/cran_code/soul/goal.py:125-136 | once the turns have reached the largest turn budget of the run no continuation comes any more |
| Goal.BoundIsReached | src/cran_code/soul/goal.py:503-519 | for every budget a goal that is only driven yields one continuation less |
| Goal.ClocksAgreeIff | src/cran_code/soul/goal.py:117-143 | two readings give one verdict on a record iff turns or tokens decide, or there is no time budget, or both readings lie on the same side of the moment at which it runs out |
| Goal.DriverAgreesIff | src/cran_code/soul/goal.py:503-519 | so a turn is continued under the wall clock as it would be under the store's iff that holds |
| Goal.TimeIsWallTime | src/cran_code/soul/goal.py:130-143 | for every time budget there are readings at which they differ |
| GoalStore.GoalStore.Create | src/cran_code/soul/goal.py:189-210 | an error if a goal exists, otherwise a fresh active one |
| GoalStore.GoalStore.Transition | src/cran_code/soul/goal.py:302-326 | the interval is opened or closed, with the second reading of the clock for closing |
| GoalStore.GoalStore.Pause | src/cran_code/soul/goal.py:212-217 | errors for no goal and a paused one |
| GoalStore.GoalStore.PauseOnError | src/cran_code/soul/goal.py:219-228 | only an active goal changes |
| GoalStore.GoalStore.Block | src/cran_code/soul/goal.py:230-235 | errors for no goal and a blocked one |
| GoalStore.GoalStore.Resume | src/cran_code/soul/goal.py:237-242 | errors for no goal and an active one; budgets are not looked at |
| GoalStore.GoalStore.Complete | src/cran_code/soul/goal.py:244-252 | the final record is returned and the file removed |
| GoalStore.GoalStore.RecordTurn | src/cran_code/soul/goal.py:271-279 | one turn more, the latest token count, never negative |
| GoalStore.GoalStore.RestoreDowngrade | src/cran_code/soul/goal.py:281-292 | an active goal is paused on restart |
| GoalStore.GoalDriver.AfterTurn | src/cran_code/soul/goal.py:503-519 | blocked with a reason or continued, the wall clock read once for each; the pressure quotients are then always defined |
| AgentsMd.LoadAgentsMd | src/cran_code/soul/agent.py:138-168 | the backward loop and the assembly compute the merged text, or none |
| AgentsMd.MergeFits | src/cran_code/soul/agent.py:138-168 | the merged text never exceeds 32768 bytes, annotations and separators included |
| AgentsMd.DeeperDecide | src/cran_code/soul/agent.py:142-160 | what an entry gets depends only on itself and the deeper ones |
| AgentsMd.KeptIff | src/cran_code/soul/agent.py:142-160 | the deepest entries are all kept unabridged iff together they fit, whatever lies above them |
| AgentsMd.FirstBytesIs | src/cran_code/soul/agent.py:155-157 | cutting bytes and dropping a broken character leaves the longest beginning that fits |
| AgentsMd.BytesAre | src/cran_code/soul/agent.py:146-158 | a text has one byte for each character and one more for each above U+007F, U+07FF and U+FFFF |
| AgentsMd.AbridgedIsBeginning | src/cran_code/soul/agent.py:155-157 | what is left of an entry is a beginning of its text |
| AgentsMd.ShareIs | src/cran_code/soul/agent.py:142-160 | an entry is kept whole if its annotation, the separator and it fit into what is left, cut to the longest beginning that fits if not, and dropped if nothing is left |
| AgentsMd.MergedHolds | src/cran_code/soul/agent.py:138-168 | the merged text is missing iff every share is empty; each entry with a share stands in it behind its path, after those nearer to the root, with a blank line between two |

## Left out

- Concurrency inside a step: the stretch of code between two awaits, and each read-check-write of a task file or a notification file, is one atomic step. The approval updates of background agents run in threads and are taken as atomic too.
- Records that are Python objects shared by reference (approval requests, notification deliveries, goal records) are values in dictionaries, sequences or fields; ids are fresh; futures are positions in a table of the event loop.
- Approval: events to subscribers and to the wire, time stamps of resolution, display blocks, telemetry. All Approval objects share one runtime and one state; moving one of them to another runtime is not modelled, and there the closure of the cache would not hold.
- OAuth: the code of the refresh is a transition system with one step for each file, lock or server operation, and only its part under the file lock is also a method; the cache of access tokens, the keyring, several token keys, HTTP status codes and the pauses between retries are not modelled. A lost reply stands for every failure after the server has rotated.
- Context: JSON and UTF-8, the serialisation of messages and file rotation. A line is a typed record, and one that replay skips is unreadable. Each operation is one step, though the code writes to the file after it has changed memory.
- Blobs: base64 and SHA-256 are parameters with laws: decoding undoes encoding, and digests have 64 hexadecimal digits and do not collide among the payloads that occur. A failure to write a blob, which keeps the payload inline, is not modelled; neither is a reference that ends with a line break, which the pattern for names admits.
- White space and decimal digits are the ASCII ones wherever texts are stripped or markers are recognised.
- Forks: lines that are JSON but no objects, the copying of blobs and videos, titles and session state.
- Compaction: the text of the summary request and the summary itself; which call a tool result answers is told by its position only.
- Notifications: unreadable event and delivery files, validation of ids, and ids in use: an id is drawn that no notification has.
- Background: starting and stopping processes, output files, the texts of notifications, failure texts and exit codes, `wait`, and when a worker makes which of its writes; its last write is based on any record it may hold. A task file is always readable.
- Tool calls: running the tools, hooks, reminder texts, hiding and registering tools. Tool call arguments are decoded elsewhere; decoding and printing JSON are taken to be inverse to each other on canonical values.
- Goals: prompt texts, wire events, a goal file that cannot be read, and the numbers in the reason for a blocked goal. Reminders in front of user input are left out; the pressure quotient there is not protected against a budget of zero.
- AGENTS.md: the search for the files. Texts are sequences of characters with their UTF-8 widths.
