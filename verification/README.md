# A verified model of the many-ai-cli hub

The Go hub of many-ai-cli relays the terminal sessions of AI command-line tools
to browsers. This project models its small state machines and in-place
algorithms in Dafny and proves what they are for. `dafny verify dfyconfig.toml`
checks all of it.

Each file is one module.

| files | what they model |
|---|---|
| FileTree, FilesMove | the multi-file move: preflight, commit, rollback, on a tree of directories and files in which any rename may fail |
| InputGate, InputOrder, ReattachRace, InputQueue, InputAlone | user input on its way to a wrapper: injection gate, pending queue, two-part bracketed paste, connections that fail, any number of threads |
| PinLimiter, PinStamps | the PIN rate limiter: escalating locks per address, a lock for all, pruning |
| Orchestration, RespawnRuns, IdleWarnings | an orchestration board: timers, DONE marks, asynchronous retry of timed-out children |
| NativeApproval, OneTap | the life of an approval prompt, and single-use approval claims |
| PtyReplay | the bounded replay buffer, updated within a Go slice |
| Activity, IdleTimer | the activity of a session, and the hub's idle timer with its generations |
| GitDiff, GitStatus, OptionCluster, Evictor | a diff synthesiser, the porcelain `-z` parser, the search for prompt options, the attachment cap |
| Text, Options | splitting and decimal numbers; Option and Result |

Objects whose methods update fields are classes; each method is proved against a
function of the old state, and the lemmas are about that function and about
whole runs of it. Protocols between several threads (InputGate, RespawnRuns,
IdleTimer) are state machines whose steps are the sections the code runs under a
lock. Times are integers in nanoseconds. Sizes and counts are unbounded
integers; none of the modelled code comes near the range of Go's.

## What does not hold, and exactly when it does

* Order of input. The comments of `internal/hub/input_gate.go:192-194` promise
  that a flush is never interleaved with a submission. Both hold `inputMu`, but
  the lock belongs to the session object, and `reattachLoop`
  (`internal/hub/wrapper_loop.go:390-422`) installs a new one. A thread still busy
  under the old lock can then be overtaken. `ReattachIsSafeExactlyWhenSettled`
  gives the exact condition, `PasteCanBeTornApart` a run. No byte is lost,
  duplicated or reordered within its own submission in either case
  (`EveryByteIsAccountedFor`).
* One idle warning per silent period. Three things make a check take a silent child
  for active, and the same silence is warned about again: a threshold raised for
  a while (`RaisedThresholdRepeatsWarning`); a wrapper that reattaches with a
  replay, which counts as output (`internal/hub/wrapper_loop.go:383-412`,
  `ReplayRepeatsWarning`); and something written by somebody else that is credited
  to the child (`CreditRepeatsWarning`). A change of the board is credited to
  whom its last header names, and if that is only a role that several children
  have, to all of them (`internal/hub/orchestration.go:989-999`), so a sibling's
  unsigned section is enough (`UnsignedSectionRepeatsWarning`). Without any of the
  three it holds (`OneWarningPerSilence`); `WhenAWarningRepeats` gives the exact
  condition for every run. A wrapper that reattaches without a replay makes the
  poller forget output instead, and warn of a silence that has not lasted so long
  (`ForgottenOutputWarnsEarly`).
* Ten quiet seconds for an answered prompt. A wrapper that reattaches gets a session
  object that knows neither the active prompt nor the last answer
  (`internal/hub/wrapper_loop.go:390-421`), so either is announced again at once
  (`ReattachmentAnnouncesAgain`, `AnsweredPromptComesBack`). Between
  reattachments the rules hold (`EveryEntryIsDue`).
* Rate bounds of the PIN limiter in wall time. They are bounds on the stamps that
  attempts carry, and hold exactly if those never run back, by however little
  (`BoundsHoldExactlyInOrder`). `handleAuthLogin` reads the clock before the request
  body (`internal/hub/pin_auth.go:317-327`), so that an attempt can come late with
  an old stamp.
* The end of a session as a completion. It is recorded only for a child that is
  already registered; one that ends earlier is waited for until it times out
  (`EarlyEndIsLost`).
* The truncation marker. A diff is cut before the first line that starts beyond the
  limit, so one whose last line runs over the limit has no marker; a file longer
  than what is read is then shown as if it ended there. `WhenTheDiffShowsTheFile`
  says exactly when the diff shown is the file.
* Display state in line with activity. A wrapper that reattaches without output to
  replay starts as "running" with idle output; the next output, tick or hint puts
  that right (`NewSessionsAreSound`, `StepKeepsSound`).
* Duplicate sources. A request that repeats a source also repeats its target, and
  the second check overwrites the message of the first, so the repetition itself
  is reported as a target clash and only its earlier partner as a duplicate.

## Model

| member | source | states |
|---|---|---|
| FilesMove.FileOps.ProcessMultiMove | internal/hub/files_move.go:93-178 | All or nothing. The requests are refused if and only if one is to blame: not movable (not an absolute allowed path to something readable, already in dstDir, a directory holding dstDir, its name taken there) or in the way of another movable one (same name, or nested); then exactly those are reported and the tree is unchanged. Otherwise every source subtree ends at dstDir/basename with nothing else changed, or a rename failed by itself and the tree is the original with exactly the plans in the rollback report still carried out, each for one more failed rename; an empty report means the original tree |
| FilesMove.AcceptedMovesAreDisjoint | internal/hub/files_move.go:99-153 | The checks made one request at a time leave only requests whose sources and targets are pairwise disjoint subtrees, whose sources exist and whose targets do not |
| FilesMove.PlannedMoveIsSound | internal/hub/files_move.go:59-91 | An accepted single request has an existing source, an absent target subtree in dstDir, and neither lies inside the other |
| FilesMove.PlannedExactlyWhenMovable | internal/hub/files_move.go:59-91 | A request is planned if and only if it is an absolute path under an allowed root to something that exists and can be examined, not a child of dstDir, not a directory on the way to it, with nothing under its name in dstDir; otherwise it is refused with exactly the first of the eight reasons that applies |
| FilesMove.AtFaultExactlyWhenBlamed | internal/hub/files_move.go:99-149 | Targets that agree and sources that nest make exactly those movable requests collide that bring the same name or lie one inside the other |
| FilesMove.TwoSoundMoves | internal/hub/files_move.go:99-149 | Two accepted requests without a common target and without nesting do not touch each other at any path |
| FilesMove.FileOps.Preflight | internal/hub/files_move.go:94-153 | Reports an error for request x if and only if it is not movable or another movable one is in its way, with the first reason that speaks against it; a target an earlier request has is a clash, the first request of a target is blamed as a duplicate or a clash according to the next one, and nesting is reported where nothing else is wrong; without errors the plans are what the requests ask for |
| FilesMove.ReportPlans | internal/hub/files_move.go:100-129 | The loop over srcSeen and targetSeen marks exactly the requests that fail on their own or share a target: a later one as a clash, the first one as a duplicate if the next request for its target has its source and as a clash if not |
| FilesMove.ReportNesting | internal/hub/files_move.go:131-149 | The double loop adds an error to exactly the still unmarked requests that lie inside another or contain one, the ancestor error if an earlier request contains them, else the descendant error if they contain one, and never overwrites an error |
| FilesMove.FileOps.Commit | internal/hub/files_move.go:155-172 | After all renames every plan is carried out; after a failed one exactly the plans in the rollback report are, all of them precede the failed one, and as many renames failed by themselves as are reported |
| FilesMove.FileOps.RollbackMoves | internal/hub/files_move.go:180-189 | The reverse loop undoes everything but the plans it reports, and reports them last first |
| FilesMove.FileOps.ProcessSingleMove | internal/hub/files_move.go:42-57 | A move is refused if and only if the request is not movable, with the first reason that speaks against it; otherwise its subtree is at dstDir/basename and nothing else changed, or the rename failed by itself and nothing changed |
| FilesMove.CommitIsNeverBlocked | internal/hub/files_move.go:156-158 | With any other plans carried out, no rename of the commit can fail because of the tree: its source and target directory are there and the target is absent |
| FilesMove.RollbackIsNeverBlocked | internal/hub/files_move.go:180-189 | The same for every undo, so that the plain rename of the rollback overwrites nothing |
| FilesMove.CarryOutOne | internal/hub/files_move.go:156-171 | Renaming one more disjoint subtree turns "exactly these plans are carried out" into the same with one more plan |
| FilesMove.UndoOne | internal/hub/files_move.go:182-187 | Renaming it back takes the plan out again, in any order |
| FilesMove.RelocatedIsUnique | internal/hub/files_move.go:155-178 | "The original with exactly these plans carried out" describes one tree |
| FilesMove.NothingRelocated | internal/hub/files_move.go:180-189 | With no plan left carried out the tree is the original one, and only then |
| FilesMove.CleanStep | internal/hub/files_move.go:69-69 | Cleaning a path text starts from the root and handles its last component as it should: nothing for an empty one or ".", one level up for "..", one level down otherwise |
| FilesMove.CleanPartsAreProper | internal/hub/files_move.go:69-69 | A cleaned path has no empty, "." or ".." component |
| FileTree.RenameKeepsWellFormed | internal/hub/files_move.go:156-158 | Any permitted rename leaves a tree in which every node has a directory for a parent |
| FileTree.RelocateAt | internal/hub/files_move.go:155-158 | Where every path of the tree is after the relocation of one subtree |
| InputGate.EveryByteIsAccountedFor | internal/hub/input_gate.go:128-263 | In every interleaving of submitters, flushers, sends that fail, reconnects, reattachments and dismissals, every submission is byte for byte what was sent of it followed by its one unsent rest (pending, dropped or in a thread's hands), the queue holds at most 100 entries, and only the initial prompt is sent while the gate is active |
| InputGate.StepKeepsInv | internal/hub/input_gate.go:128-263 | Each single step (lock, send, queue access, loss of connection, dismissal) keeps that |
| InputGate.SendKeepsGate | internal/hub/input_gate.go:111-113 | A send made while the injection gate is active belongs to a submission that bypasses it, for submissions and flushes alike |
| InputGate.ActiveGateStopsTheRest | internal/hub/input_gate.go:108-113 | In every run, while the current session waits for its initial prompt and its gate was set less than 90 s ago, no step of any thread sends anything but a submission that bypasses the gate |
| InputGate.OpenGateLetsThrough | internal/hub/input_gate.go:148-158 | Otherwise a submission that finds the queue empty is not held back: its next step is its first send |
| InputAlone.HoldersCanFinish | internal/hub/input_gate.go:141-240 | In every reachable state whoever holds inputMu can take its next step, whatever comes of it, and can go on to release it with all its sends successful |
| InputGate.SplitBracketedPasteSubmit | internal/hub/input_gate.go:94-99 | The two parts make up the text, and the second is the carriage return exactly if the text is a paste with its return, else empty |
| InputGate.Newest | internal/hub/input_gate.go:257-263 | What the bounded queue keeps is the newest 100 entries, exactly 100 of a longer list, and all of them if they fit |
| InputOrder.OrderlyRunsKeepOrder | internal/hub/input_gate.go:114-123 | In every run in which wrappers reattach only while nobody is between looking up the session and being done, what was sent is in submission order and ahead of everything that waits, only older entries are dropped, and as long as nothing is dropped the text sent, then the queue, then what the lock holder has in hand is the text of all submissions in inputMu order |
| InputOrder.StepKeepsOrder | internal/hub/input_gate.go:128-263 | Each step other than a reattachment during unfinished business keeps that order |
| InputOrder.InitialStateInOrder | internal/hub/input_gate.go:128-165 | A new session starts in order |
| ReattachRace.ReattachIsSafeExactlyWhenSettled | internal/hub/wrapper_loop.go:378-434 | A reattachment, which replaces the session object and its inputMu, keeps every later run in order if and only if no thread is between looking up the old session object and being done with it |
| ReattachRace.PasteCanBeTornApart | internal/hub/wrapper_loop.go:390-422 | For every bracketed paste a run in which the order promised at internal/hub/input_gate.go:192-194 fails: the wrapper has received the paste without its carriage return and then another, later input, and the return still waits |
| ReattachRace.InOrderMeansNotOvertaken | internal/hub/input_gate.go:114-123 | While a session is in order nothing waits that is older than something sent |
| InputQueue.SessionInput.TrySendInput | internal/hub/input_gate.go:167-188 | What was sent and what is returned make up the input, also when only the carriage return fails; without a connection all is returned and nothing sent |
| InputQueue.SessionInput.SubmitInputWithGate | internal/hub/input_gate.go:130-165 | For 90 s before the initial prompt, and behind a queue that is not empty (the prompt itself included), the input joins the end of the queue and nothing is sent; otherwise, connected and with no failed send, all of it is sent; in every case with room text sent and text queued grow by exactly the input, and it is deferred exactly if something waits then |
| InputQueue.SessionInput.FlushPendingInput | internal/hub/input_gate.go:195-240 | For 90 s before the initial prompt nothing changes; otherwise, connected and with no failed send, the whole queue is sent; text sent and text queued stay the same together, and what stays queued is the old queue from the first failure on, with at most its head cut down to a carriage return |
| InputQueue.SessionInput.AppendPendingInput | internal/hub/input_gate.go:257-263 | The queue becomes the newest 100 of old queue and item, and exactly the others are dropped |
| InputQueue.SessionInput.RequeuePendingInput | internal/hub/input_gate.go:244-254 | The rest goes back in front of what has arrived since, cut to the newest 100 |
| InputQueue.SendKeepsText | internal/hub/input_gate.go:167-188 | Whatever fails, chunks sent and remainder make up the input, and the remainder is all of it, nothing, or its carriage return; nothing if connected and no send fails |
| InputQueue.SubmitKeepsText | internal/hub/input_gate.go:148-164 | Unless the queue was full, a submission drops nothing and adds its text at the end of what is sent or waits; it sends nothing while the gate bars it or anything waits, and otherwise, connected and with no failed send, all of it |
| InputQueue.FlushKeepsText | internal/hub/input_gate.go:208-239 | A flush drops, loses and reorders nothing, and leaves the queue from the first failure on, so nothing if no send fails |
| InputAlone.SubmitAlone | internal/hub/input_gate.go:141-164 | A thread of the state machine that gets inputMu and is not interrupted does to queue and wire what SubmitInputWithGate may do: it waits for 90 s before the initial prompt and behind a queue, and otherwise all of it is sent if no send fails |
| InputAlone.FlushAlone | internal/hub/input_gate.go:205-239 | The same for a flusher and FlushPendingInput: nothing for 90 s before the initial prompt, and otherwise the whole queue if no send fails |
| PinLimiter.AddressIsRateLimited | internal/hub/pin_auth.go:157-206 | From every reachable limiter, with attempts whose stamps do not run back (queries may): any half-open window of up to an hour of stamps without a success of the address admits at most 5 of its attempts per minute, 10 per 6 minutes, 15 per 36 minutes and 20 per hour; pruning does not help |
| PinLimiter.TwentyAnHourAreAttained | internal/hub/pin_auth.go:157-192 | The hourly bound is exact: a run from a new limiter in which twenty attempts are admitted within an hour |
| PinStamps.BoundsHoldExactlyInOrder | internal/hub/pin_auth.go:157-192 | If stamps of attempts may run back by at most d, the bound for one address holds in every run if and only if d is 0, and so does the bound for all addresses |
| PinStamps.OldStampPassesTheLock | internal/hub/pin_auth.go:317-327 | However little a stamp runs back: a run in which eight attempts of an address are admitted within a minute of stamps, since the lock set by the fifth ends a minute after its old stamp |
| PinStamps.OldStampPassesTheGlobalLock | internal/hub/pin_auth.go:317-327 | The same for the lock of all addresses: 31 attempts within a minute |
| PinLimiter.AddressOverManyHours | internal/hub/pin_auth.go:157-206 | Under the same condition, n hours without a success admit at most 20n attempts of an address |
| PinLimiter.EverybodyIsRateLimited | internal/hub/pin_auth.go:181-190 | With attempts whose stamps do not run back, all addresses together get at most 30 attempts in any half-open minute of stamps, successes included |
| PinLimiter.ThirtiethAttemptLocksAll | internal/hub/pin_auth.go:181-190 | From every reachable limiter, attempts of different unlocked addresses at most an hour apart: all up to the thirtieth since the count last started over (at an overall lock or an hour without attempts) are admitted without an overall lock, the thirtieth sets it, for 60 s after it none is admitted, and afterwards every unlocked address again |
| PinStamps.ThirtyAMinuteAreAttained | internal/hub/pin_auth.go:181-190 | The bound for all addresses is exact: a run in order in which thirty attempts are admitted within a minute |
| PinLimiter.RetryForetellsRefusal | internal/hub/pin_auth.go:132-166 | retryAfter is positive exactly when an attempt would be refused, and asking changes no decision |
| PinLimiter.WaitingOutlastsTheLock | internal/hub/pin_auth.go:138-143 | Waiting the seconds told outlasts the lock they were computed from, by at most one second, and they are never more than 1801 |
| PinLimiter.TwoWaitsSuffice | internal/hub/pin_auth.go:134-166 | Waiting as told, asking again and waiting again gets an attempt in, unless the limiter locked anew meanwhile |
| PinLimiter.PrunedExactlyWhenIdleForAnHour | internal/hub/pin_auth.go:200-206 | An entry is pruned exactly when it has been idle for an hour; no lock is ever cut short by pruning |
| PinLimiter.RunKeepsGood | internal/hub/pin_auth.go:113-206 | What every run keeps: fewer than 5 and 30 counted failures, lock levels up to 2, locks that end within half an hour of the last attempt, an overall lock that ends within a minute of it |
| PinLimiter.PinLimiter.BeginAttempt | internal/hub/pin_auth.go:157-192 | The field updates of beginAttempt: refused exactly as retryAfter would say, otherwise counted for the address and for all |
| PinLimiter.PinLimiter.RetryAfter | internal/hub/pin_auth.go:134-145 | Prunes and answers from the pruned table |
| PinLimiter.PinLimiter.PruneLocked | internal/hub/pin_auth.go:200-206 | The deletion loop keeps exactly the entries that are not stale |
| PinLimiter.SuccessForgetsTheAddress | internal/hub/pin_auth.go:194-198 | After a success only the lock for all can refuse the address, whose own locks start over with the full allowance; every other address is where it was |
| RespawnRuns.RetriesAreBounded | internal/hub/orchestration.go:1278-1319 | In every run, with registering and setting restart data as separate asynchronous steps and a retry limit that never exceeds m: a child is retried at most once, only after it has timed out and its restart data was set, and an original spawn has at most m successors in all |
| RespawnRuns.OneJobPerDepth | internal/hub/orchestration.go:1300-1316 | A lineage of retries is a chain: one spawn for every depth |
| RespawnRuns.StepKeepsInv | internal/hub/orchestration.go:788-818 | What every step keeps: one pending retry call per timed-out child, at most one successor, and a retry count equal to the depth in the lineage |
| RespawnRuns.TimesOutOnce | internal/hub/orchestration.go:1206-1214 | A child that times out has neither timed out before nor been retried nor finished |
| RespawnRuns.LateChildIsRetried | internal/hub/orchestration.go:1239-1245 | Where retries are on, a check calls for one of exactly the late children, and the call starts a successor with the role, parent and provider of the child and one retry more if and only if the child has restart data and is below the limit |
| IdleWarnings.SettledForGood | internal/hub/orchestration.go:1206-1209 | After a child is done or has timed out it stays so, and no timeout and no idle warning is issued for it any more |
| IdleWarnings.TimesOutAtMostOnce | internal/hub/orchestration.go:1210-1214 | At most one timeout notice per child and run |
| IdleWarnings.WhenAWarningRepeats | internal/hub/orchestration.go:1215-1231 | In every run, a child already warned about is warned about again if and only if some check before it is done or timed out finds the time since its last write or output stamp within the threshold, and a later such check beyond it |
| IdleWarnings.OneWarningPerSilence | internal/hub/orchestration.go:1215-1231 | Counted from the poller's look at the stamps, a time in which a child writes and puts out nothing brings exactly one warning, however it ends, unless a longer threshold comes into force, the wrapper reattaches with a replay, or something the child did not write is credited to it |
| IdleWarnings.RaisedThresholdRepeatsWarning | internal/hub/orchestration.go:1215-1231 | A run with two warnings about a child that did nothing: the threshold was raised for one check |
| IdleWarnings.ReplayRepeatsWarning | internal/hub/wrapper_loop.go:383-412 | Another such run, at a constant threshold: the wrapper reattached with a replay, which counts as output |
| IdleWarnings.CreditRepeatsWarning | internal/hub/orchestration.go:989-999 | Another, at a constant threshold and without reattachment: any change of the board by somebody else that is credited to the child lifts the latch |
| IdleWarnings.UnsignedSectionRepeatsWarning | internal/hub/orchestration.go:989-999 | Such a change is the section of a sibling that gives only the role they share |
| IdleWarnings.ForgottenOutputWarnsEarly | internal/hub/wrapper_loop.go:383-412 | A run with a warning of ten seconds without output two seconds after output: the wrapper reattached without a replay |
| Orchestration.OrchestrationBoard.CheckOrchestrationChildTimers | internal/hub/orchestration.go:1202-1234 | A live child times out if and only if it has run for longer than its limit; of the others a live child counts as warned afterwards if and only if it has neither written nor put anything out for longer than the threshold; there is one timeout notice for each child that has just timed out and one idle notice for each just warned of, with its own parent and role, and no other |
| Orchestration.OrchestrationBoard.RespawnTimedOutChild | internal/hub/orchestration.go:1278-1296 | Grants the retry if and only if the limit is positive, the child is registered with restart data and has fewer retries; returns it as it was, and sets its retries to the limit so that it is not retried again |
| Orchestration.OrchestrationBoard.HandleBoardChange | internal/hub/orchestration.go:981-1014 | The writer is noted, and the marks are applied as BoardCompletesOnlyItsWriter says |
| Orchestration.BoardCompletesOnlyItsWriter | internal/hub/orchestration.go:1040-1056 | Through the shared board a child is completed if and only if it wrote the section (named by number, or else the only child of the role named) and a mark names it, or names nobody while it is the only child of the marked role; exactly the writer, or all children of the role when nobody can be told to have written, count as active; nothing else about any child changes |
| Orchestration.ConductorsSectionIsItsOwn | internal/hub/orchestration.go:777-786 | A section signed by a registered conductor credits no child with anything and completes none |
| Orchestration.OrchestrationBoard.FindUniqueChild | internal/hub/orchestration.go:1166-1181 | Finds the one child of a role, and 0 exactly if there is none or more than one |
| Orchestration.OrchestrationBoard.AuthorizeBoardDone | internal/hub/orchestration.go:1044-1056 | Accepts a mark if and only if it is the writer's own |
| Orchestration.OrchestrationBoard.ScanOrchestrationChildFiles | internal/hub/orchestration.go:948-963 | The loop over changed files applies each one as FilesCompleteOnlyTheirChild describes |
| Orchestration.FilesCompleteOnlyTheirChild | internal/hub/orchestration.go:948-963 | A progress file makes its own child active, completes it if and only if a mark in it names it or nobody, and leaves everything else about it and all others as they were |
| Orchestration.SessionEndSettlesTheChild | internal/hub/orchestration.go:1253-1266 | The end of its session settles a registered child for every later check, and changes nothing for any other |
| Orchestration.EarlyEndIsLost | internal/hub/orchestration.go:1256-1269 | An end that comes before the child is registered is lost: the child is not done and times out in the end |
| Orchestration.NewChildStartsClean | internal/hub/orchestration.go:788-808 | A new child has its parent, role and start, is neither late nor silent at that time, cannot be retried, and leaves all others as they were |
| Orchestration.RestartDataAllowsRetries | internal/hub/orchestration.go:810-818 | A registered child can be retried from then on exactly if it has a provider and fewer retries than the limit; nothing else about it, no timer and no other child is affected |
| NativeApproval.EveryEntryIsDue | internal/hub/approval_native.go:34-187 | In every run, reattachments included, the fields say what the log of the run says, and the log so far determines what each event comes to: a prompt seen is announced if and only if no resize is settling, it is not the active one and was not answered in the last 10 seconds; one is missed, cleared at the third miss, suppressed or seen again exactly when it should be, and nothing comes of a detection exactly within the debounce or with nothing on screen and nothing active |
| NativeApproval.StepIsDue | internal/hub/approval_native.go:43-74 | One event keeps this, and what it comes to is due given the log and the events so far |
| NativeApproval.AnnouncementsAreSeparated | internal/hub/approval_native.go:74-89 | Two announcements of a prompt have its clear, the announcement of another, a reset or a reattachment between them |
| NativeApproval.AnsweredStaysQuiet | internal/hub/approval_native.go:69-72 | An answered prompt is not announced again for 10 seconds unless another answer, a reset or a reattachment comes first |
| NativeApproval.ReattachmentAnnouncesAgain | internal/hub/wrapper_loop.go:390-421 | After a reattachment any prompt on screen is announced at once, one just answered and one still active included, and no debounce applies |
| NativeApproval.AnsweredPromptComesBack | internal/hub/wrapper_loop.go:390-421 | A run in which an answered prompt is announced again after three seconds |
| NativeApproval.SessionApproval.HandleNativeApprovalDetection | internal/hub/approval_native.go:34-90 | Announces a prompt if and only if the debounce is over, it is on screen, not the active one and not answered less than 10 s ago, and makes it active; clears the active one if and only if it is missed for the third time; counts misses, starts them over, or leaves them accordingly |
| NativeApproval.SessionApproval.MarkNativeApprovalConsumed | internal/hub/approval_native.go:155-179 | An answered prompt is no longer active and counts as recently consumed; a clear is sent exactly if it was the active one |
| NativeApproval.ResetLetsEveryPromptThrough | internal/hub/server.go:1413-1418 | After a history reset any prompt on screen is announced, the one just answered included |
| NativeApproval.ResetMissesStartOver | internal/hub/approval_native.go:26-32 | After its misses are reset it takes three more to clear a prompt |
| NativeApproval.ResizeOnlyDelays | internal/hub/server.go:1338-1338 | For 200 ms after a resize nothing on screen counts; afterwards everything comes to what it would have without the resize |
| OneTap.ConsumedAtMostOnce | internal/hub/approval_action.go:124-146 | With a clock that never runs back, a claim is consumed at most once in any run although used nonces are pruned |
| OneTap.FirstUseSucceeds | internal/hub/approval_action.go:124-146 | The first use of an unexpired claim with a nonce of its own does succeed |
| OneTap.TableIsExact | internal/hub/approval_action.go:133-145 | After every try the table holds exactly the unexpired claims consumed so far |
| OneTap.ClocksAgree | internal/hub/approval_action.go:134-140 | Expiry in whole seconds and pruning in nanoseconds fall on the same instant |
| OneTap.ClaimsLiveTwoMinutes | internal/hub/approval_action.go:79-86 | A claim is usable for at least 119 seconds and never for more than 120 |
| OneTap.ApplyOneTapApproval | internal/hub/approval_action.go:207-284 | Each refusal has its exact condition: not the prompt tracked and on screen; approving a high-risk one; no input, connection or delivery; then expiry and reuse. Otherwise exactly that prompt is answered and cleared; every refusal leaves the prompt as it was, and one before the input is sent leaves the nonce too |
| OneTap.OneTapApprovalManager.Consume | internal/hub/approval_action.go:126-146 | Refuses as expired exactly a claim whose second has come, as used exactly an unexpired one whose nonce is still in the table, and accepts every other; leaves only unexpired nonces in the table |
| PtyReplay.AppendPTYReplay | internal/hub/approval_native.go:189-221 | For any starting slice, capacity and non-empty data, the result is exactly the last 2 MiB of old contents followed by data, although bytes are moved within the array; buf[:0] is never reached |
| PtyReplay.AppendWithin | internal/hub/approval_native.go:201-221 | The same within an array whose capacity is within the limit, in place where there is room |
| PtyReplay.MoveToFront | internal/hub/approval_native.go:213-216 | The overlapping copy keeps the last bytes intact |
| PtyReplay.Compact | internal/hub/approval_native.go:193-200 | Replacing an oversized array keeps the newest bytes |
| PtyReplay.NewestOfNewest | internal/hub/approval_native.go:194-196 | Bytes cut off before data arrives would have been cut off with it |
| PtyReplay.ChunksDoNotMatter | internal/hub/wrapper_loop.go:513-513 | However output is cut into chunks, the buffer ends up with the newest bytes of the whole stream |
| PtyReplay.SessionOutput.Receive | internal/hub/wrapper_loop.go:513-513 | The buffer stays the tail of everything received since the last reset |
| PtyReplay.SessionOutput.HandleHistoryReset | internal/hub/server.go:1407-1407 | A reset starts the stream anew |
| Activity.RunKeepsSound | internal/hub/idle_state.go:20-125 | Every run of one session object keeps display state and activity in line until the session has ended, approval a kind of waiting, "workflow active" a kind of output activity, and idle output quiet; terminal states are never left |
| Activity.TickDecides | internal/hub/idle_state.go:93-125 | In every run, after a tick a session that has not ended is waiting exactly if the prompt last asserted is still seen or was asserted less than 15 s ago and no earlier tick dropped it, otherwise standby exactly if the last output is 3 s old or there was none, otherwise running, and the axes say the same |
| Activity.ViewTellsTheRun | internal/hub/idle_state.go:20-125 | In every run the fields are the time of the last output, what the detector last said, when the prompt was last asserted unless withdrawn or dropped, and how the session ended: as last marked or reported, or else by the loss of its wrapper |
| Activity.NoStalePrompt | internal/hub/idle_state.go:102-105 | After every tick a visible prompt is still detected or was asserted less than 15 s ago, in ended sessions too |
| Activity.IdleMeansQuiet | internal/hub/session_activity.go:15-33 | IsIdle holds exactly if output is idle, and a session on standby is idle |
| Activity.NewSessionsAreSound | internal/hub/wrapper_loop.go:408-409 | A new session is in line from the start; a reattached one exactly if it has output to replay |
| Activity.StepKeepsSound | internal/hub/server.go:1367-1390 | One event keeps all this, and every output, tick or hint brings a session that has not ended back in line |
| Activity.Session.MarkRunning | internal/hub/idle_state.go:20-43 | PTY output shows a session that has not ended as waiting if a prompt is asserted and as running otherwise, never as idle; an ended one keeps state and activity |
| Activity.Session.Evaluate | internal/hub/idle_state.go:93-125 | One session in a tick: a prompt asserted 15 s ago that the detector no longer sees is dropped, and a change is reported exactly if display or activity changed |
| Activity.Hub.EvaluateIdle | internal/hub/idle_state.go:73-126 | The loop gives every session its tick, none twice, and reports exactly the changed ones |
| Activity.Session.HandleHint | internal/hub/server.go:1367-1386 | A hint shows a session that has not ended as waiting exactly if it asserts a prompt, and changes no other axis; it leaves state and activity of an ended one |
| Activity.MarksAreKept | internal/hub/orchestration.go:1396-1405 | A child marked done or timed out stays so through output, ticks, hints and the loss of its wrapper, until it is marked again, its session reports its end, or a reattachment replaces the session object |
| IdleTimer.KillsOnlyWhenUndisturbed | internal/hub/idle_state.go:147-167 | A callback kills the wrappers only if no stop and no newer start came after the start it belongs to, and only once the minutes set then are over |
| IdleTimer.EveryRunKeepsInv | internal/hub/idle_state.go:147-176 | A callback of the current generation is pending exactly while the timer is set, and the others are older |
| IdleTimer.DisarmedForGood | internal/hub/idle_state.go:147-176 | A stop or a newer start disarms every pending callback for ever, even one that waits for the lock |
| IdleTimer.UnstoppedTimerKills | internal/hub/idle_state.go:154-166 | A timer that is set and due can fire and then kills |
| IdleTimer.HubTimer.StartIdleTimerLocked | internal/hub/idle_state.go:147-154 | Starting a set timer changes nothing; the timer is set afterwards if it was or the minutes are positive, and generations and callbacks stay in step |
| IdleTimer.HubTimer.StopIdleTimerLocked | internal/hub/idle_state.go:169-176 | Afterwards the timer is not set and every callback still pending is older than the current generation |
| IdleTimer.HubTimer.RunCallback | internal/hub/idle_state.go:155-165 | A callback kills only while the timer is set, and then unsets it; otherwise it leaves it as it is |
| GitDiff.SynthesizeAddDiff | internal/hub/git_diff.go:154-194 | The full diff, unless some line starts beyond 256 KiB: then the lines before the first such and the marker; the placeholder exactly for a NUL among the first 8000 bytes |
| GitDiff.WhenTheDiffShowsTheFile | internal/hub/git_diff.go:136-194 | The diff shown for a file on disk gives the file back if and only if the file is empty, or has no early NUL, is at most one byte longer than the limit and is not cut |
| GitDiff.SynthesizeUntrackedDiff | internal/hub/git_diff.go:136-148 | The diff of the first 256 KiB and one byte of the file, and an empty one for a file that cannot be read |
| GitDiff.DiffGivesBackTheFile | internal/hub/git_diff.go:166-193 | Applied to an empty file, the full diff gives back the exact bytes, with or without a final newline, and the hunk header counts its "+" lines |
| GitDiff.WhenTheDiffIsCut | internal/hub/git_diff.go:177-186 | The diff is truncated exactly if its last line would start beyond the limit |
| GitDiff.TruncatedIsAPrefix | internal/hub/git_diff.go:187-189 | A truncated diff is a proper beginning of the full one, by whole lines, with the marker added |
| Text.DecimalReadsBack | internal/hub/git_diff.go:176-176 | The count in the hunk header reads back as the number |
| GitStatus.ParseUndoesPrint | internal/hub/git_status.go:111-147 | For every list of well-formed entries the parser returns each path and short status in order, and never takes an origin path for an entry |
| GitStatus.ParsePrintedEntry | internal/hub/git_status.go:117-145 | One printed entry is read as one file, whatever follows it |
| GitStatus.StatusOfPrinted | internal/hub/git_status.go:122-138 | The short status is the index's, else the work tree's; renames and copies are recognised by either code |
| GitStatus.ParseGitStatusPorcelainZ | internal/hub/git_status.go:111-147 | The index loop with its skip computes the recursive parser |
| OptionCluster.FindCluster | internal/hub/approval_detector.go:180-192 | Finds a longest maximal run of option lines with gaps of at most 4, the last one on ties |
| OptionCluster.BestIsUnique | internal/hub/approval_detector.go:180-192 | Which run that is is thereby settled |
| OptionCluster.ExtractNativeApprovalOptions | internal/hub/approval_detector.go:171-214 | Returns the distinct options of that run with its first and last line if and only if they are 2 to 12 and one has the cursor or a send text; no two of them agree in number, label and send text |
| OptionCluster.ParsedIsTheOptionLines | internal/hub/approval_detector.go:170-175 | The option lines, all of them, in the order of the screen |
| OptionCluster.RemoveRepetitions | internal/hub/approval_detector.go:198-207 | The loop keeps exactly the options whose key no earlier one has |
| OptionCluster.DistinctKeepsTheFirst | internal/hub/approval_detector.go:198-207 | What it keeps are the first options with their keys, in order |
| OptionCluster.DistinctKeepsEveryKey | internal/hub/approval_detector.go:198-207 | No key is lost and none kept twice |
| OptionCluster.KeysAreFaithful | internal/hub/approval_detector.go:201-201 | A key stands for one number, label and send text, although it joins them with colons; the cursor plays no part |
| OptionCluster.SendTextsHaveNoColon | internal/hub/approval_detector.go:366-393 | No send text of the two tables has a colon |
| Evictor.AttachmentStore.EnforceTotalSize | internal/attach/store.go:243-288 | Files are removed oldest first, ties by path in lexicographic order, until the rest fits; nothing happens for a cap of 0 or less |
| Evictor.AttachmentStore.RemoveOldest | internal/attach/store.go:279-288 | The loop removes exactly the files that the recursive specification evicts, and its running total is the size of what is left |
| Evictor.FinalTotalIsTheRest | internal/attach/store.go:279-288 | Failures or not, the running total is the size of what is left |
| Evictor.EvictionFits | internal/attach/store.go:279-288 | Afterwards the rest fits, or every file left is one that could not be removed |
| Evictor.ShortestPrefixIsEvicted | internal/attach/store.go:279-288 | Without failures exactly the shortest beginning of the list is removed whose removal makes the rest fit |
| Evictor.NothingIsRemovedInVain | internal/attach/store.go:280-282 | No file is removed once the rest fits, failures or not |
| Evictor.SortedIsInOrder | internal/attach/store.go:272-278 | The list is in order of age, oldest first, then of the path, compared character by character |
| Evictor.WalkOrderDoesNotMatter | internal/attach/store.go:250-278 | The order of removal does not depend on the order of the walk |

## Left out

- HTTP handlers, JSON, WebSocket and PTY traffic, process spawning, running git and reading real files: each is an abstract step that may fail, or a parameter.
- Changes to the file tree by others during a move, symbolic links, Windows paths and case folding; the policy of allowed roots and unreadable paths are parameters (FilesMove.Env).
- The fallback of the exclusive rename on systems without renameat2.
- The writes of applyOneTapApproval to the wrapper, which pass by the input queue (internal/hub/approval_action.go:262), are not part of InputGate; OneTap models them as delivered or not.
- That a claim's input is sent at most once: the code sends before it consumes (internal/hub/approval_action.go:259-271). Only consuming is unique.
- Delivery of pending input in finite time: what triggers a flush is a step of the environment.
- The retries of the initial prompt and its echo check (internal/hub/orchestration.go:1528-1554): every injection is one submission that bypasses the gate.
- Signing, encoding and randomness of claims, bcrypt and PIN cookies: a verified claim is one that was issued, with its nonce.
- PinLimiter.AddressIsRateLimited: bounds windows of stamps, not of wall time, and only while stamps of attempts do not run back; PinStamps shows that nothing less will do.
- PinLimiter.EverybodyIsRateLimited: the same.
- PinLimiter.AddressOverManyHours: the same.
- PinLimiter.RunKeepsGood: the same condition on stamps.
- A limiter shared by restarts of the hub: state is lost with the process.
- Spawn limits per parent and in total: they are read before a confirmation wait and not checked on retries.
- Notices to conductors and other sessions, and their queueing until idle (internal/hub/orchestration.go:1061-1129).
- Recognition of DONE marks and writers in board text (internal/hub/orchestration.go:1321-1376): a board change comes with its marks and its writer.
- Boards other than one: a child belongs to one board, and the operations on different boards do not meet.
- Auto-approval, push and outbound notifications, DONE summaries, stored history.
- Recognition of one option line (internal/hub/approval_detector.go:217-330), except for the keys it may send, and the fixed options of opencode.
- Data that aliases the replay buffer, and the cutting of replays for background sessions (internal/hub/ui_broadcast.go:38-55).
- Wrap-around of the 64-bit generation number of the idle timer.
- Paths with a newline in diff headers: the headers are taken off before the hunk is read, so they do not matter to the round trip.
- Unicode white space in git status codes: only ASCII white space is trimmed.
- The sort algorithm behind sort.Slice: an insertion sort stands for it.
- Removal of emptied attachment directories, and the naming of attachments (sanitizeFilename).
- Model cache generations, notification text, configuration defaults and the user interface.
