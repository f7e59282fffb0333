# GhostAP protocols and evidence folding in Dafny

GhostAP drives coding agents (backend processes that speak ACP) from chat. Two things in it are
hard to get right: the protocols that decide which thread may start, replace, move or close a
backend, and the folding of untrusted child-agent evidence into one verdict, COMPLETED or not.
This project models both, together with the smaller cores beside them, and proves what they keep.

* **Sessions** (`KeyLeases`, `SessionMaps`, `SessionProtocol`, `SessionProgress`, `SessionManagers`): every
  interleaving of start, replace, retire, end, rebind, keepalive and close workers, one step per
  critical section. Each backend ever spawned has exactly one place (a thread's hand, installed,
  closing, closed, close failed, lost), so no two transports of a key can overlap unnoticed.
* **Child evidence** (`ChildModel`, `StateMerge`, `Collaboration`, `SlotFold`, `SlotStates`, `Outcome`, `Rollout`): snapshots
  folded by invocation and by child, the lifecycle fold against a declarative rule, and evidence
  recovered from Codex rollout files.
* **Turns** (`Finalization`, `TurnAnswers`, `Continuation`): timeout budgets, the reserved finalization turn and
  the bounded follow-up turns, with sessions, clock and callbacks as an arbitrary environment and a
  log of what a run sent and poisoned.
* **Event routing and wake-ups** (`PromptRouting`, `PromptRouters`, `LifecycleWake`).
* **Repository locks** (`RepoLock`, `RepoLockManagers`): owners, leases, token index, blocked chats.
* **Ledger validator, image snapshots, codecs** (`LedgerValidator`, `ImageSnapshots`, `SessionKeys`,
  `TraexSelection`).

Code that updates dictionaries and fields in place is a class whose methods are proved equal to
functions on values (`SessionManagers.SessionManager`, `KeyLeases.KeyLockRegistry`,
`RepoLockManagers.RepoLockManager`, `PromptRouters.PromptRouter`, `ImageSnapshots.SnapshotRegistry`,
`ImageSnapshots.Budget`); the results about whole runs are lemmas about those functions. Source loops
are loops here too, with their own dictionaries and index sets.

Where the code does less than one would expect, the model keeps the code as it is and states exactly
when the property holds:

* A deadline that passes between detaching a session (`src/acp/manager.py:569-575`) and registering
  its close (`:281-284`) leaves the old backend open while the next start spawns:
  `SessionProtocol.OverlapAfterLoss`. The steps that lose a backend are exactly `Loses`, and at every
  spawn an earlier backend of the key is closed exactly if no step of the run lost it
  (`ClosedUnlessLost`). Moving a session onto its own key deletes it and closes nothing.
* `rebind_thread` commits without looking at the tombstones again. An installed session never stands
  beside a tombstone of its key exactly if no rebind commits over one (`QuietExactly`);
  `RebindOverTombstone` and `MoveAtCompare` show that it happens.
* Malformed evidence is erased in one case (`src/acp/finalization.py:288-372`): the answer of a prompt
  that timed out is dropped exactly if the finalization prompt sent for it was answered. All other
  answers count, in the order of their prompts (`TurnAnswers.AnswersExactly`,
  `Continuation.RunWithContinuation`); `Continuation.SupersededAnswerIsDropped` is a run in which the
  dropped answer was malformed and the verdict is COMPLETED.
* Two event loops waiting on one session can lose a wake-up (`TwoLoopsLose`); one loop cannot. A sleeper
  can still be woken exactly if its event is the registered one or a set of it is under way (`WokenExactly`).
* The filter for earlier tasks' children lets a blocked source through when it is named by bare text
  in place of a receiver list, or by a bare mapping in place of a state list:
  `FilterIsExactUnlessBare`, `BareReceiverLeaks`.
* A Traex selection without an effort does not parse back when the model has several segments and the
  profile is `max`, or the last segment reads as a profile or an effort: `TraexSelection.RoundTripExactly`.

## Model

| member | source | states |
|---|---|---|
| KeyLeases.KeyLockRegistry.Get | src/acp/manager.py:246-254 | finds or creates the key's lock and counts one reference more; a new lock object only for an unknown key |
| KeyLeases.KeyLockRegistry.Release | src/acp/manager.py:256-264 | counts one reference less and forgets the key at zero; unknown keys change nothing |
| KeyLeases.StepKeepsInv | src/acp/manager.py:246-264 | every lease step keeps counts exact, referrers on the registered lock object, and holders on record |
| KeyLeases.HoldersExclude | src/acp/manager.py:246-264 | two threads that hold a key's lock are one thread, although entries are removed and recreated |
| KeyLeases.NoDeadlock | src/acp/manager.py:1144-1161 | locks are taken in sorted key order, so from any waiting thread one reaches a lock holder that is not waiting |
| SessionMaps.ClosedOnce | src/acp/manager.py:293-336 | no backend is ever handed to two close workers |
| SessionMaps.ClearKey | src/acp/manager.py:338-373 | a key without session and tombstone has only backends that are closed, in hand or lost |
| SessionMaps.RegisterKeepsInv | src/acp/manager.py:293-308 | an allowed close registration keeps every backend in exactly one place and every unfinished or failed close registered |
| SessionMaps.EndKeepsInv | src/acp/manager.py:975-1021 | ending a session from outside keeps that too, also when the registration is refused |
| SessionMaps.EndsExactly | src/acp/manager.py:975-1021 | ending a session changes nothing exactly while a close of its key failed or is not over, and otherwise moves it under a new running tombstone |
| SessionMaps.RebindKeepsInv | src/acp/manager.py:1182-1190 | so does the rebind commit, whatever tombstones exist |
| SessionProtocol.StepKeepsInv | src/acp/manager.py:513-678 | every step of every operation keeps the protocol invariant: what each thread knows about the keys it leases is stable against all others |
| SessionProtocol.LeasesAreSound | src/acp/manager.py:246-264 | in every reachable state refcounts equal outstanding references, referrers share one lock object, at most one holds it, and waiting never becomes a deadlock |
| SessionProtocol.SpawnsAlone | src/acp/manager.py:539-601 | a backend is spawned for a key only by the one holder of its lease, with no session installed and no tombstone registered; every earlier backend of the key is closed or lost |
| SessionProtocol.ClosedUnlessLost | src/acp/manager.py:338-373 | at every spawn of every run, an earlier backend of the key is successfully closed if and only if no step of the run lost it |
| SessionProtocol.NoOverlap | src/acp/manager.py:539-601 | so in a run that loses no backend, transports of a key never overlap |
| SessionProtocol.FailedForever | src/acp/manager.py:293-373 | over any run a tombstone whose close failed is never removed or replaced |
| SessionProtocol.FailedCloseShutsTheKey | src/acp/manager.py:338-373 | after a failed close every gate of the key stops the operation that reaches it, and nothing is spawned there again |
| SessionProtocol.SuccessfulCloseOpensTheKey | src/acp/manager.py:310-336 | from every reachable state a running close that succeeds takes three enabled worker steps to leave its backend closed and its key without tombstone |
| SessionProtocol.GatePassesWhatIsOver | src/acp/manager.py:338-373 | a gate passes a completed close by its own four steps, all enabled, and removes exactly that tombstone |
| SessionProtocol.HandOverIsNeverRefused | src/acp/manager.py:273-308 | a leased thread's close registration never raises; only end_session and keepalive can be refused |
| SessionProtocol.PlacesMove | src/acp/manager.py:273-291 | closed, failed and lost backends stay so; a step loses a backend exactly when its thread gives up with the backend in hand or a session is moved onto its own key |
| SessionProtocol.GuardedStepSpares | src/acp/manager.py:821-891 | no step of a guarded replace or retire removes anything but the expected session, also in the second detach inside replace; that it does remove it is TakesExactlyTheExpected |
| SessionProgress.TakesExactlyTheExpected | src/acp/manager.py:856-872 | at its comparison a replace or retire takes the key's session away, and has it in hand, if and only if it is the expected one; otherwise it changes nothing and gives up |
| SessionProgress.StartCompletes | src/acp/manager.py:513-645 | from every reachable state past its leases with no tombstone ahead, a start has a run of its own and its worker's steps that closes the session it finds and installs a fresh backend |
| SessionProgress.ReplaceCompletes | src/acp/manager.py:821-891 | so does a replace with a matching session: the expected backend is closed and a fresh one installed |
| SessionProgress.RetireCompletes | src/acp/manager.py:1077-1125 | so does a retire: the session is closed and gone and nothing is spawned |
| SessionProgress.MoveCompletes | src/acp/manager.py:1127-1196 | so does a rebind between two keys: what stood at the target is closed and the moved session is installed there |
| SessionProgress.FailedResumeCloses | src/acp/manager.py:620-645 | after a failed resume the start's own steps close the backend it spawned and install nothing |
| SessionProgress.FailingCloseFails | src/acp/manager.py:273-291 | a close that fails leaves its tombstone failed, and the thread waiting for it gives up |
| SessionProgress.LeasesComplete | src/acp/manager.py:513-537 | an operation nobody stands in the way of gets all its leases by its own steps |
| SessionProgress.UnwindCompletes | src/acp/manager.py:547-550 | an operation that is over gives every lock and every reference back by its own steps |
| SessionProtocol.OverlapAfterLoss | src/acp/manager.py:566-596 | from every reachable idle state with a session, a deadline right after the detach lets the next start spawn over a backend nobody closed |
| SessionProtocol.QuietStep | src/acp/manager.py:1182-1190 | a step leaves a session installed beside a tombstone of its key if and only if it is the commit of a rebind onto a key with a tombstone |
| SessionProtocol.QuietExactly | src/acp/manager.py:1127-1196 | over whole runs that never happens at a key if and only if no rebind commits over a tombstone there |
| SessionProtocol.RebindOverTombstone | src/acp/manager.py:1163-1190 | ending the target between gate and compare leaves the moved session installed beside a running close, and a later end is refused |
| SessionProtocol.MoveAtCompare | src/acp/manager.py:1127-1170 | between any two keys a rebind can reach its comparison with both sessions installed |
| SessionManagers.SessionManager.RegisterClosing | src/acp/manager.py:293-308 | raises exactly when the key's close failed or is not over, else registers a fresh state |
| SessionManagers.SessionManager.EndSession | src/acp/manager.py:975-1021 | raises exactly on a refused registration and then changes nothing; else moves the session to its tombstone |
| SessionManagers.SessionManager.DetachForced | src/acp/manager.py:1023-1069 | detaches exactly the expected session, or whichever is installed when none is expected |
| SessionManagers.SessionManager.Forget | src/acp/manager.py:365-373 | drops only this very state and only when its close completed without error |
| SessionManagers.SessionManager.RebindCommit | src/acp/manager.py:1182-1190 | moves the session exactly if it is still at the old key and the new key is free |
| StateMerge.MergeChildStates | src/acp/collaboration.py:176-223 | the dictionary-and-list loop computes the specified merge, resets included |
| StateMerge.MergeMeaning | src/acp/collaboration.py:176-223 | one entry per child that still counts, its last terminal entry or else its last; every invalid item is kept; resets discard only earlier valid entries of the named children |
| StateMerge.FirstSeenOrder | src/acp/collaboration.py:195-223 | without resets children stand in the order in which they were first seen |
| StateMerge.MergeAssociative | src/acp/collaboration.py:176-223 | without resets merging is associative |
| StateMerge.MergeIdempotent | src/acp/collaboration.py:176-223 | without resets merging the second snapshot again changes nothing |
| StateMerge.SnapshotsMergeAssociatively | src/acp/collaboration.py:43-54 | both laws on raw snapshots of any shape, through decoding and back |
| Collaboration.MergeToolCallSequence | src/acp/collaboration.py:300-403 | the loop over its ordered dictionary, active keys, counters and epoch map computes the fold that SlotFold explains |
| SlotFold.SequenceMeaning | src/acp/collaboration.py:300-403 | one result per slot, slots in the order of their first snapshot, each the in-order merge of exactly the snapshots placed there |
| SlotFold.MembersShareTheId | src/acp/collaboration.py:325-380 | the snapshots of a named slot all carry its id; an anonymous slot has one member |
| SlotFold.EveryCallIsPlaced | src/acp/collaboration.py:321-403 | every call is a member of its slot and its slot is in the result |
| SlotFold.AnonymousIsKept | src/acp/collaboration.py:400-403 | an anonymous call is alone in its slot and appears verbatim in the result |
| SlotFold.SharesSlotExactly | src/acp/collaboration.py:322-381 | a snapshot joins the slot of the last one with its id if and only if its action does not change, no action-less invocation reopens, and the id is not reused past the boundary, all told from the calls and the slot's merge; otherwise it opens a slot of its own |
| SlotFold.FirstOpensSlot | src/acp/collaboration.py:322-327 | the first snapshot of an id opens a slot |
| SlotFold.ToolChangeSplits | src/acp/collaboration.py:336-344 | a snapshot that declares another action than the tool of the last one with its id never joins its slot |
| SlotFold.SlotsSay | src/acp/collaboration.py:226-297 | a slot has id, title and status of its last snapshot, source, activity and tool as last given, every receiver of any of them, and is malformed exactly if one of them is |
| SlotFold.SlotPath | src/acp/collaboration.py:275-282 | the path of a slot about children is the one given last |
| SlotStates.MergedStatesMeaning | src/acp/collaboration.py:226-297 | the merge of two snapshots has an entry for a child exactly if one counts, and it is the last terminal one or else the last; what the older said counts unless the newer names the child and begins a generation, reports it busy or uses an unknown tool |
| SlotStates.ChildActionExactly | src/acp/collaboration.py:94-108 | a snapshot's action is its tool, or a title that is a known action, or its known activity |
| SlotStates.ReopensExactly | src/acp/collaboration.py:116-150 | a snapshot reopens a generation exactly by declaring a spawn or follow-up, by a busy activity, or by an unknown tool with anything about children |
| SlotStates.ChildRelatedExactly | src/acp/collaboration.py:153-173 | a snapshot is about children exactly if it declares an action, reports any state, receiver, source or activity, or is malformed |
| Collaboration.MergeSnapshotKeepsMalformed | src/acp/collaboration.py:226-297 | merging two snapshots of an invocation is malformed as soon as one of them is |
| Collaboration.MergeSequenceKeepsMalformed | src/acp/collaboration.py:300-403 | folding a prompt, with or without a boundary, keeps malformed evidence wherever it occurred |
| Collaboration.MalformedSurvives | src/acp/continuation.py:156-189 | no later snapshots, turns or recovered evidence erase malformed evidence |
| Outcome.FoldMeetsRule | src/acp/outcome.py:92-254 | the one-pass fold records a child exactly when its current generation observed it, as terminal exactly when that generation has a terminal observation, else at its last observation |
| Outcome.ObservedExactly | src/acp/outcome.py:105-178 | a call observes a child in a status exactly if a state entry lists it so, or nothing lists it and it is a receiver (pending) or the source of an activity (running, or cancelled when interrupted by a completed call) |
| Outcome.ResetExactly | src/acp/outcome.py:207-237 | which children's generations a call reopens, in terms of its fields and what it observes |
| Outcome.ForcedExactly | src/acp/outcome.py:247-258 | a child is put back to running exactly by an unfinished spawn or follow-up that reports a known activity of it |
| Outcome.InvalidExactly | src/acp/outcome.py:92-206 | a call is invalid exactly if it is malformed in the sense of the merge, or a completed spawn or follow-up that observes nobody |
| Outcome.CancelledExactly | src/acp/outcome.py:397-403 | the outcome is CANCELLED exactly for the stop reasons cancelled and canceled |
| SlotStates.OuterTerminalExactly | src/acp/outcome.py:84-88 | an outer call is over exactly if its status reads as completed or failed |
| Outcome.UnresolvedIndexesMeaning | src/acp/outcome.py:255-274 | the blamed calls are the invalid ones and the last observation of each unresolved child |
| Outcome.TransientChildMeaning | src/acp/outcome.py:286-288 | the transient flag is set exactly when some child is unresolved by the rule |
| Outcome.ToolIncompleteness | src/acp/outcome.py:80-274 | the loop returns exactly the unfinished outer calls and blamed child calls, their counts, and the flag |
| Outcome.CompletedExactlyWhen | src/acp/outcome.py:362-452 | COMPLETED exactly for a natural end of turn, completed or no goal, completed plan, terminal outer calls, well-formed evidence and every child resolved |
| Outcome.MalformedNeverCompletes | src/acp/outcome.py:92-176 | malformed evidence anywhere in a history rules out COMPLETED whatever follows |
| Rollout.LatestListAgents | src/acp/codex_rollout_reconciliation.py:157-240 | returns the agents of the only usable answer to the latest list_agents call in the window, and nothing exactly when there is none such |
| Rollout.PathToSource | src/acp/codex_rollout_reconciliation.py:243-263 | succeeds exactly when paths and children correspond one to one, and then returns that bijection |
| Rollout.ObserveAgents | src/acp/codex_rollout_reconciliation.py:278-306 | accepts exactly listings of the mapped paths plus at most the root, all terminal and named once |
| Rollout.BuildEvidence | src/acp/codex_rollout_reconciliation.py:266-316 | evidence exists exactly for such a listing and reports every linked child with the status it was listed with |
| Rollout.EvidenceSaysExactly | src/acp/codex_rollout_reconciliation.py:243-316 | the evidence gives a child a status exactly if a call of the run ties it to a path and the agent of that path was listed with a word for that status |
| Rollout.AgentStatusExactly | src/acp/codex_rollout_reconciliation.py:146-154 | an agent status is read exactly by its words, given as text or as the only key of an object |
| Rollout.ChildStatusExactly | src/acp/collaboration.py:35-40 | a child status is read exactly from its own word |
| Rollout.FreshSnapshotIsLast | src/acp/collaboration.py:300-403 | a snapshot under an unused id becomes the last slot and leaves all others alone |
| Rollout.EnrichedIsResolved | src/acp/codex_rollout_reconciliation.py:319-361 | folding in evidence under a fresh id leaves none of the linked children unresolved |
| Rollout.Enrich | src/acp/codex_rollout_reconciliation.py:319-361 | there is evidence exactly if the latest list_agents call has one usable answer whose agents can be attributed; it then reports that answer, only the tool calls change, and under a fresh id all linked children are resolved |
| Finalization.SplitTimeout | src/acp/finalization.py:45-67 | primary and reserve sum to the total, primary is at least 60 s, and the reserve is the largest one that was asked for, is at most a third and leaves that minimum; exactly when a split happens or the budget is invalid |
| Finalization.PrimaryTimeout | src/acp/finalization.py:70-80 | the prompt timeout leaves 27 s, or half of a smaller budget, and is never below 1 ms |
| Finalization.PauseGoal | src/acp/finalization.py:123-160 | the pause succeeds exactly if there is no goal control, no active goal, or the active goal was paused; otherwise the session is poisoned |
| Finalization.RunWithFinalization | src/acp/finalization.py:232-372 | every prompt is sent within the turn's deadline; after a timeout a live session gets the one finalization prompt, a dead one is replaced and its replacement gets it, and without a replacement nothing further is sent; it is sent exactly when no goal can run beside it and time is left, with the smaller of the reserve and the time left minus 27 s; its answer is returned exactly if the session could be retired; the last session and every session used are dead on every return and raise, and nothing is sent after a poisoning |
| TurnAnswers.AnswersExactly | src/acp/finalization.py:262-372 | the answers that count are exactly those not superseded by an answered finalization prompt after a timeout, each once and in order |
| TurnAnswers.MalformedAnswerIsTurn | src/acp/continuation.py:257-283 | some turn is malformed exactly if some answer that counts is |
| Continuation.NextKindMeaning | src/acp/continuation.py:192-227 | a plan turn exactly for a natural end without question, goal or open tools and with an unfinished plan; a reconciliation exactly when child evidence alone stands against completion |
| Continuation.SupersededAnswerIsDropped | src/acp/finalization.py:288-372 | whatever malformed evidence the timed-out first prompt returned, the run is COMPLETED when the finalization answer by itself is |
| Continuation.SupersededExample | src/acp/outcome.py:362-452 | there are such answers |
| Continuation.RunWithContinuation | src/acp/continuation.py:230-436 | every run ends with at most one prompt of each kind (four in all), none after a poisoning and none beyond the run's deadline; its turns are exactly the answers in the log that count, in order, merged with the recovered evidence; each follow-up is the one the result so far asks for, and the run stops only when none is asked for, allowed or in time; a malformed answer that counts rules out COMPLETED |
| Continuation.LastTurnDecides | src/acp/continuation.py:166-189 | stop reason, text and goal of a run are those of its last turn, its plan that of the last turn that reports one |
| Continuation.ToolCallsFold | src/acp/continuation.py:156-189 | the tool calls of a run are its first turn's, and for each follow-up the slots of the known calls and the turn's behind the boundary, then of those and the recovered evidence |
| PromptRouting.FilterIsExactUnlessBare | src/acp/session.py:124-195 | an event is dropped exactly when all it names is blocked; otherwise exactly the blocked sources go, if and only if no bare container names one |
| PromptRouting.FilterKeepsTheRest | src/acp/session.py:143-195 | the list items that stay are exactly those naming no blocked source, in their order, malformed ones included; nothing else of the call changes |
| PromptRouting.BlockedExactly | src/acp/session.py:107-137 | after any events a source is blocked exactly if it was at the start and no completed spawn or follow-up has named it |
| PromptRouting.HeldBackExactly | src/acp/session.py:947-985 | an event is held back if and only if it is a passive child event all of whose children are retired, or that names none and continues a retired call; what is heard names at least the children that are not retired |
| PromptRouting.SourcesExactly | src/acp/session.py:67-104 | the children a call names, in terms of its fields |
| PromptRouting.StartsGenerationExactly | src/acp/session.py:107-121 | a generation starts exactly with a spawn or follow-up whose status reads as completed |
| PromptRouting.OtherEventsSayLittle | src/acp/session.py:198-215 | a tool event that is no child event declares no tool, is not malformed, starts nothing and names children as receivers at most |
| PromptRouting.RetiredChildrenStaySilent | src/acp/session.py:947-999 | a forwarded lifecycle event names an initially blocked source only if it or an earlier event is a completed spawn or follow-up naming it, or a bare container does |
| PromptRouting.CallsBlockedUntilNamed | src/acp/session.py:964-986 | a retired call id becomes free only through a forwarded event of that id that names a source or starts a generation |
| PromptRouting.BareReceiverLeaks | src/acp/session.py:153-168 | a concrete event with bare-text receivers that names a blocked source and is forwarded |
| PromptRouters.RememberBounded | src/acp/session.py:48-58 | the ledger keeps old entries in order, then the new ones, and drops the oldest beyond 512 |
| PromptRouters.TrimOnce | src/acp/session.py:1371-1377 | trimming the deferred list at every event keeps what trimming once would keep |
| PromptRouters.PromptRouter.Dispatch | src/acp/session.py:1352-1386 | a lifecycle event without collector is deferred, remembered and counted; any other goes to the collector or nowhere |
| PromptRouters.PromptRouter.BeginPrompt | src/acp/session.py:1041-1075 | an ordinary prompt retires known children and blocks all retired ones, a reconciling prompt replays the deferred events; both take over the collector place |
| PromptRouters.PromptRouter.Collect | src/acp/session.py:947-1039 | a displaced collector changes nothing; the current one forwards as specified and takes reopened children off the ledger |
| PromptRouters.PromptRouter.Detach | src/acp/session.py:1147-1160 | a finished prompt gives up its place exactly if it still owns it |
| LifecycleWake.NoLostWake | src/acp/session.py:433-536 | on one event loop, in every interleaving and with any number of waiters, a waiter asleep on an outdated revision has a wake pending |
| LifecycleWake.SleepsExactlyWhenCurrent | src/acp/session.py:521-533 | a waiter falls asleep exactly when nothing changed since its decision; a flag left over from an earlier wake never makes it spin |
| LifecycleWake.SleepsExactly | src/acp/session.py:521-536 | told from the run alone: a waiter that enters falls asleep if and only if nothing changed since its decision and nobody ever closed the session |
| LifecycleWake.PendingWakes | src/acp/session.py:433-446 | at most three steps of waker and loop, all enabled, wake everybody asleep on the event |
| LifecycleWake.LostOnlyWhenReplaced | src/acp/session.py:521-536 | a wake is lost only if another loop's event has replaced the waiter's own |
| LifecycleWake.TwoLoopsLose | src/acp/session.py:528-536 | from every quiet state with one sleeper, a waiter on a second loop and one change lose the first one's wake |
| LifecycleWake.WokenExactly | src/acp/session.py:433-536 | in every reachable state, on any number of loops, a sleeper can ever be woken again if and only if its event is registered or a set of it is under way |
| LifecycleWake.OneSleeper | src/acp/session.py:521-533 | such a state is two steps from the start |
| RepoLock.ReachableStates | src/repo_lock.py:278-409 | in every reachable state refcounts are at least 1, at most 10 blocked chats per held lock and none elsewhere, token maps mutually inverse with at most 1024 entries |
| RepoLock.CreatedThenHeld | src/repo_lock.py:278-389 | from its creation an entry's refcount is its owner's acquires minus releases, and no other owner's acquire is granted until it is removed |
| RepoLock.NoIntruderIsGranted | src/repo_lock.py:320-351 | while a lock stays held, no other owner's non-p2p acquire is granted |
| RepoLock.AcquireExactly | src/repo_lock.py:300-351 | a non-p2p acquire is granted exactly for a free lock or one's own; what it then records, what a refusal answers, and that the refused chat is recorded while there is room |
| RepoLock.FreedExactly | src/repo_lock.py:353-409 | a lock is freed exactly by its owner's last release or a forced one |
| RepoLock.BlockedChatIsNotified | src/repo_lock.py:375-409 | a blocked chat stays recorded until the very step that removes the lock, which notifies it and clears the record |
| RepoLock.RenewedLeaseIsKept | src/repo_lock.py:411-430 | a holder renewing within three heartbeats is never reclaimed, over any run |
| RepoLock.CleanupKeepsExactlyFreshLeases | src/repo_lock.py:561-614 | after a cleanup exactly the leases idle no longer than the hard timeout remain, unchanged |
| RepoLock.CleanupKeepsTokensOfHeldLocks | src/repo_lock.py:616-634 | after a cleanup the index holds exactly the tokens of paths that stay locked |
| RepoLock.Heartbeat | src/repo_lock.py:267-276 | three heartbeats fit into every positive lease |
| RepoLock.TokenIsHash | src/repo_lock.py:219-253 | the token handed out is the path's hash whether cached or not, and both maps keep agreeing |
| RepoLock.IssuedTokenResolves | src/repo_lock.py:219-260 | a token handed out leads back to its path unless the index is full of locked paths |
| RepoLockManagers.RepoLockManager.Acquire | src/repo_lock.py:278-351 | the in-place acquire has exactly the specified effect and answer |
| RepoLockManagers.RepoLockManager.Release | src/repo_lock.py:353-389 | the specified effect; the blocked chats of a removed lock are told exactly once |
| RepoLockManagers.RepoLockManager.ForceRelease | src/repo_lock.py:391-409 | likewise, whoever owns the lock |
| RepoLockManagers.RepoLockManager.CleanupIdle | src/repo_lock.py:561-644 | both eviction phases and the orphan-token sweep have the specified effect; each removed lock is told once, and exactly the hard-expired leases are reported as reclaimed from their chats |
| LedgerValidator.ValidateEvents | scripts/validate_workflow_tenant.py:166-238 | accepts exactly the ledgers that meet the declarative rules; counts its events and pages, at least three events per page |
| LedgerValidator.FoldMeetsRules | scripts/validate_workflow_tenant.py:177-222 | the machine goes through exactly when every event is legal after those before it, and remembers what happened |
| LedgerValidator.ReadExactly | scripts/validate_workflow_tenant.py:160-200 | an entry reads as an event exactly if it is one written for it at that position; the page's hash is the message digest |
| LedgerValidator.ThreeEventsPerPage | scripts/validate_workflow_tenant.py:223-238 | an accepted ledger of n pages has at least 3n events |
| ImageSnapshots.ConflictedExactly | src/acp/client.py:689-747 | a snapshot is conflicted exactly if it was ever active together with another over a shared tree |
| ImageSnapshots.NeverAttributedAgain | src/acp/client.py:750-781 | once two were, no image is attributed to either, whatever is released or scanned afterwards |
| ImageSnapshots.AllowsExactly | src/acp/client.py:750-781 | an image is attributed exactly if it changed, the snapshot was taken for this root, scanned completely and not released, and was never active together with another over a shared tree |
| ImageSnapshots.OverlapExactly | src/acp/client.py:160-173 | two trees overlap exactly if some directory lies in both |
| ImageSnapshots.SnapshotRegistry.TakeSnapshot | src/acp/client.py:689-716 | the loops over roots and snapshots mark exactly the active overlapping ones and register the new one |
| ImageSnapshots.SnapshotRegistry.ReleaseSnapshot | src/acp/client.py:729-747 | removes exactly this snapshot; releasing again does nothing |
| ImageSnapshots.Budget.Emit | src/acp/client.py:784-827 | over all calls on one budget the real bytes and the number of images stay within its limits; exactly the unseen candidates are emitted, each id once and in order, up to the image limit or the first that does not fit |
| ImageSnapshots.EstimateCovers | src/acp/client.py:811-813 | the size estimated from the base64 length is at least the real size and at most two bytes more |
| SessionKeys.RoundTripExactly | src/acp/helper.py:542-607 | decoding undoes encoding exactly for colon-free parts, none given as empty, with a project other than the placeholder |
| SessionKeys.EncodeIsInjective | src/acp/helper.py:542-564 | two such triples with one key are equal |
| TraexSelection.RoundTripExactly | src/acp/traex_selection.py:40-73 | for normalized models and every profile and effort, split undoes compose exactly when an effort is given, the model has one segment, or the profile is standard and the last segment is neither profile nor effort |

## Left out

- Real threads, subprocesses, asyncio and JSON-RPC: they are the nondeterministic steps of the protocols and the arbitrary answers of the environment.
- Deadlines and clocks in `SessionProtocol`: any wait may expire at any time, so no claim is made about how long an operation takes.
- Starting the close worker is one step with registering the close; that a thread cannot be started at all is not modelled.
- `SessionStartupCoordinator.start`: its inner retries are one spawn that succeeds or gives up; what it does with backends of failed attempts is not part of this model.
- `ensure_session`, `get_session` and `cleanup_all`: they consist of ends, retires, starts and tombstone removals that the protocol already allows at any moment; their health checks are not modelled.
- Closing an event loop, and the `_closing` error after a wake: a closed loop has no waiters left to wake.
- Goal state in `ACPSession`, goal pause RPC and image discovery inside `_prompt_once`.
- Text handling: `strip` and `casefold` are modelled on the ASCII range.
- `None` in place of a receiver list, state containers that cannot be iterated, and tool-call content, locations and model fields.
- `awaiting_user_input` of the continuation result, token counts, tool results and modified files: they do not influence the verdict or the prompts sent.
- The wording of prompts and the recognition of a question to the user: an arbitrary predicate.
- Rollout file discovery, tail reading and the settle loop: `Rollout` starts from decoded lines.
- Floating point: budgets, timestamps and lease times are reals; infinite and NaN values are not modelled.
- RepoLock.TokenIsHash: the hash is an arbitrary injective function.
- Wall-clock steps backwards while waiting for the repository lock: acquire and touch read the clock atomically with their update.
- Image scanning, MIME checks and path extraction: a candidate is an image with its content or nothing.
- Classification diagnostics, card rendering, telemetry and logging.
- `src/chat_lock.py`, `src/access_control.py`, `src/admin_bootstrap.py`, `src/engine_base.py`: mostly single-branch facts.
