# Super Brain capture and delivery: a model and its proofs

This project models the parts of the repository that must survive crashes, repetition and concurrency, and proves what
they promise. Every main result is a statement over all inputs, all runs or all interleavings.

| file | what it models |
|---|---|
| `Receipts.dfy`, `Answers.dfy`, `ReceiptQueue.dfy` | the receiver's receipts: accepted, prepared, materialised and completed, with a crash possible between any two durable steps, against the fold that applies each receipt once and in order; the second says what the engine's answers have to do with it, and the third is the queue itself, method by method |
| `Ingress.dfy`, `Transport.dfy` | the journal used while storage is sealed, and the way of an occurrence from the relay's outbox to the receipts over a network that loses, repeats and reorders |
| `Units.dfy`, `Sessions.dfy`, `Outcomes.dfy`, `Attempts.dfy` | how a session's steps are cut into attempts, live and by a scan after a restart; which outcome an attempt may claim; and what an orphan timeout that is cut off from the saving of the state does to both |
| `Lease.dfy` | the writer lease over exclusively created files, with takeover from a dead owner |
| `Telemetry.dfy` | feedback batches that several browser tabs deliver from one store under expiring claims |
| `Base64.dfy`, `Lines.dfy`, `RecoveryManifest.dfy`, `Archive.dfy`, `ArchiveBytes.dfy` | the recovery archive: manifest checks, frames, the writer and the streaming verifier |
| `Transcript.dfy` | reading a growing transcript in windows |
| `StepJournal.dfy` | the journal of a session's steps, with its torn tail |
| `Merge.dfy` | merging recovered steps into existing ones |
| `TreeMerge.dfy`, `Spool.dfy` | merging decision trees, and the spool that folds and delivers them |
| `Stream.dfy`, `Paging.dfy`, `RateLimit.dfy` | resumable streams, keyset pagination, the bounded rate limiter |
| `Wrappers.dfy` | results of operations that may fail |

`dafny verify dfyconfig.toml` checks all of it.

## How to read it

A protocol is a function `Apply` from a state and an action to the next state, and `Run` over a list of actions; an
action that is not possible leaves the state alone, so results over all lists of actions hold for every interleaving
and for a crash between any two steps. Code that changes things step by step is a class or a method with loops; its
contract ties the new state to `Apply`, `Run` or another specification function, and the lemmas about those functions
are then results about the code. Hook interpretation, JSON, hashing and the tree check are parameters; AES-GCM is the
identity on authentic bytes; atomic file replacement is one durable step.

## Where a promise does not hold as it stands

Each of these has a lemma that says exactly when the promise does hold, and most a concrete run or input as well.

* Lease: the second staleness check reads the lease file and then probes the process. In between the file can become
  another process's live lease, which is then unlinked (`ExclusionCanFail`). It is safe exactly when the file at the
  path is still a dead owner's when the probe confirms (`ProbeIsSafeIffOwnerGone`).
* Receipts: state saved by a heartbeat between the end of materialisation and the completed copy of the receipt is
  overwritten when the prepared receipt is replayed after a crash (`HeartbeatInGapIsLost`, `HeartbeatSurvivesIff`,
  `HeartbeatInGapSurvivesIff`). The gap ends at the completed copy rather than at the unlink, because listing skips
  receipts that have one.
* Receipts: steps that a heartbeat records reach the journal only with the next receipt; a restart before that loses
  them (`RestartContinuesFoldIff`, `StepsKeptIff`, `HeartbeatReadsBack`).
* Receipts: the time of a rejected receipt can be given out again after a restart (`RejectedTimeCanRepeat`,
  `LaterThanRejectedIff`). A comment at apps/capture-daemon/src/receipts.ts:165 says a drain removes completed
  duplicates; no code does, and the model follows the code.
* Attempts: an orphan timeout emits first and saves last. If the process dies in between, or the transcript cannot be
  stored, the same attempt is emitted again (`CutOffByCrash`, `CutOffByError`). One that records steps saves them in
  the state but not in the step journal, so after a restart the next attempt can start within steps that were already
  emitted (`ShortJournalOverlaps`, `OrphanStepsOverlap`). A decision whose summary is worded like the marker of a prompt
  makes a restart close the attempt under way exactly if one is open (`PromptLookalikeOverlaps`,
  `LookalikeOverlapsIff`); one recorded while none is open harms only a later prompt with a usage report.
  `SafeIffRegular` says for every occurrence when it is safe.
* Relay: an identifier that is used again for other evidence can lose that evidence, in two ways. While storage is
  sealed it is put behind the file that the outbox already holds, and is dropped when that one is acknowledged
  (`ReuseAcrossSealLoses`, `PersistKeepsPromiseIff`). Without any seal, a second acknowledgement of the first evidence
  that comes late drops what was persisted in between (`LateAcknowledgementLoses`). `StepHonoursIff` and
  `EvidenceIsHonouredIff` say exactly when evidence stops being sent or held, and `StepStoresIff` and
  `EvidenceIsStoredIff` when its last copy goes.
* Archive: a manifest whose line is over 16 MiB, or files of which one is in the way of another's directory, can be
  written but never verified (`WrittenIsVerifiedIff`, `OnlyTheManifestCanBeTooLong`, `WrittenIsVerifiedIffShort`).
* Transcript: a line longer than the window stops every later read of that size (`TooLongALineStops`,
  `DrainedReachesEndIff`).
* Step journal: a cut just before a newline is not repaired, and the next append ruins the line
  (`ReadAfterCut`, `AppendIsReadBackIff`).
* Pagination: lists sorted by locale lose items under a filter that compares code units (`LocaleOrderLoses`,
  `CompleteIffSorted`).
* Trees: merging drops an edge between two nodes that another edge joins already, so it depends on the order
  (`MergeIsUnionIff`); trees made by the capture daemon never clash (`CapturedTreesMerge`).
* Spool: setting a job aside replaces one of the same name that was set aside before and may have absorbed others
  (`RejectAgainLoses`, `RejectLosesIff`, `OverwritingLosesIff`).
* Rate limiter: a clock that goes back to an earlier window lets a key exceed its limit (`BackwardClockBreaksLimit`,
  `LimitBreaksIff`).

## Model

| member | source | states |
|---|---|---|
| Receipts.DurableStateIsFold | apps/capture-daemon/src/capture.ts:378-409 | in every run with crashes anywhere in which no heartbeat acts while a prepared receipt is listed, state, step journals and jobs on disk are those of folding the interpretation over the committed receipts in order: a receipt replaces the journals of all its sessions, and a restart ends activity, reads the steps back from the journals and closes open attempts; while a receipt is prepared, only its own sessions' journals and its own jobs may still differ |
| Answers.AnswerIsMaterialised | apps/capture-daemon/src/capture.ts:378-411 | from every such run on: a receipt that the engine answers with sessions, counters and jobs, asked at the later of the state's and the receipt's time, stays prepared with just these through whatever comes later; whenever it is about to be completed they are in memory, in the state file and in the journals, with that time, and all its jobs have been enqueued; and once it is completed, they have been |
| Answers.JobsAreTheEnginesOwn | apps/capture-daemon/src/capture.ts:373-376 | in every run, crashes, failures and heartbeats included, every job that was ever put into the spool is one the engine answered some receipt with, and of every completed receipt all jobs of such an answer were |
| Answers.PickedExactly | apps/capture-daemon/src/capture.ts:378-397 | what each answer of the engine does to a receipt that is taken up: its sessions, counters and jobs are prepared and committed, and in memory unless the write reports an error; or the receipt is among the rejected and nothing is committed; or it stays with one more failure |
| Answers.CommitAddsTheAnswer | apps/capture-daemon/src/capture.ts:388-409 | what a commit adds to the fold is what the engine answered at the later of both times, and nothing if it refuses |
| Answers.OtherEntriesAddNoJobs | apps/capture-daemon/src/capture.ts:318-367 | a restart leaves the fold's sessions inactive, with the steps of their journals and what the engine makes of each, a heartbeat leaves what the engine makes of the state, at no earlier time; neither adds jobs |
| Receipts.RestartContinuesFoldIff | apps/capture-daemon/src/capture.ts:318-367 | after every such run a restart continues from that fold, and what it saves is read back by the next; but for activity it has all that memory had, with open attempts closed, exactly if no heartbeat has changed steps since the last receipt or start |
| Receipts.StepsKeptIff | apps/capture-daemon/src/capture.ts:1590-1602 | a committed receipt and a start leave no steps but those in the journals, a heartbeat exactly if it changes none |
| Receipts.KeptWithoutHeartbeats | apps/capture-daemon/src/storage.ts:193-224 | in a log without heartbeats a restart is nothing but the reload |
| Receipts.CommittedOnceInOrder | apps/capture-daemon/src/receipts.ts:268-294 | over every run, the receipts prepared or completed on disk are just those committed, each once, in strictly increasing order of event time |
| Receipts.EventTimesIncrease | apps/capture-daemon/src/receipts.ts:173-195 | over every run, restarts included, a newly accepted receipt is later than every receipt that is listed or completed; what is prepared is unique and earlier than all else that is listed |
| Receipts.PreparedUnique | apps/capture-daemon/src/capture.ts:380 | at most one receipt is prepared and not completed |
| Receipts.TimeInvStep | apps/capture-daemon/src/receipts.ts:156-195 | every step of every kind keeps the order of event times, with the prepared receipt first |
| Receipts.CommitInvStep | apps/capture-daemon/src/receipts.ts:268-294 | every step keeps the log of commits in step with what is settled on disk |
| Receipts.FoldInvStep | apps/capture-daemon/src/capture.ts:398-408 | every step keeps disk and memory a partial materialisation of the fold, journals included, which a replay completes to the same result |
| Receipts.HeartbeatReadsBack | apps/capture-daemon/src/capture.ts:1590-1602 | the state a heartbeat saves is what a restart loads exactly if its steps are in the journal |
| Receipts.HeartbeatSurvivesIff | apps/capture-daemon/src/receipts.ts:254-266 | a state saved by a heartbeat is what a crash recovers exactly if its steps are in the journal, or, while a prepared receipt is listed, exactly if it has the clock, the counters and every session's steps and data that this receipt has prepared |
| Receipts.HeartbeatInGapSurvivesIff | apps/capture-daemon/src/capture.ts:1590-1602 | in the gap that is so exactly if the heartbeat changes none of these |
| Receipts.HeartbeatInGapIsLost | apps/capture-daemon/src/capture.ts:404-409 | a run in which a heartbeat in the gap is lost |
| Receipts.RejectedTimeCanRepeat | apps/capture-daemon/src/receipts.ts:284-290 | a run in which a receipt gets the time of one rejected before a restart |
| Receipts.LaterThanRejectedIff | apps/capture-daemon/src/receipts.ts:173-189 | a new time is later than a rejected receipt's exactly if the clock is past that time, or the watermark or the state in memory has reached it |
| Receipts.LoadedAfterStore | apps/capture-daemon/src/storage.ts:193-224 | loading after saving is the reload of what was saved |
| ReceiptQueue.CaptureReceiptQueue.AcceptNow | apps/capture-daemon/src/receipts.ts:178-195 | accepting does one accept step: the known receipt again, a refusal on other evidence, or a new receipt at a later time |
| ReceiptQueue.CaptureReceiptQueue.List | apps/capture-daemon/src/receipts.ts:156-172 | just the receipts without a completed copy, each once, by event time |
| ReceiptQueue.CaptureReceiptQueue.Materialise | apps/capture-daemon/src/capture.ts:398-408 | steps, state and jobs of a prepared receipt reach the disk by permitted steps, or a fault leaves a prefix of them |
| ReceiptQueue.CaptureReceiptQueue.Complete | apps/capture-daemon/src/receipts.ts:254-266 | the completed copy is written before the active one is removed, and either step may fail |
| ReceiptQueue.CaptureReceiptQueue.Process | apps/capture-daemon/src/capture.ts:378-411 | if nothing fails, memory, state file, journals and enqueued jobs are what the engine answered, or the receipt was prepared with, and the receipt is completed; or the engine refuses and it is rejected with all else as before; a fault leaves it prepared with that answer, and one that has to wait stays with one more failure; all by permitted steps |
| ReceiptQueue.CaptureReceiptQueue.Drain | apps/capture-daemon/src/receipts.ts:268-296 | the loop handles the listed receipts in order of event time: state, enqueued jobs, completed and rejected receipts become what the engine's answers make of them one after another; it goes on after a rejection and stops at the first receipt that has to wait or fails, and nothing after that one is touched |
| ReceiptQueue.CaptureReceiptQueue.RestorePrepared | apps/capture-daemon/src/receipts.ts:246-253 | after a restart what was prepared is finished by permitted steps |
| ReceiptQueue.CaptureReceiptQueue.Initialize | apps/capture-daemon/src/receipts.ts:173-177 | what was prepared is finished, the state is loaded, open attempts are closed and saved; the last event time is at least the watermark and every listed receipt's |
| Ingress.RotationKeepsRecords | apps/capture-daemon/src/ingress.ts:70-81 | a rotation, and the half of one that a crash leaves, keeps the stored records exactly |
| Ingress.CaptureIngressJournal.Append | apps/capture-daemon/src/ingress.ts:47-68 | the first record of a name is kept wherever it is; a second is answered with it if it has the same identity, and refused otherwise |
| Ingress.CaptureIngressJournal.Rotate | apps/capture-daemon/src/ingress.ts:70-81 | the records are unchanged, `pending` becomes the new generation, and an inventory that is too large is reported although the rename has happened |
| Ingress.CaptureIngressJournal.Pending | apps/capture-daemon/src/ingress.ts:82-93 | all records of the kind, each once, in the order of occurrence, or an error exactly if a bound on the inventory is exceeded, which `UnreadableIff` gives |
| Ingress.UnreadableIff | apps/capture-daemon/src/ingress.ts:82-93 | the bounds are 1,000 generations and 100,000 records in a directory |
| Ingress.CaptureIngressJournal.Acknowledge | apps/capture-daemon/src/ingress.ts:94-105 | just the acknowledged name is gone, and nothing if its record is a different one |
| Transport.NothingIsLost | apps/capture-daemon/src/receipts.ts:85-137 | over every run, an identifier under which something was persisted is in the outbox, in the journal, or among the receipts |
| Transport.AcknowledgedIsHeld | apps/capture-daemon/src/receipts.ts:205-227 | an acknowledged request is with the receiver, with the evidence that was sent; `AnsweredIff` adds the authority |
| Transport.AnsweredIff | apps/capture-daemon/src/receipts.ts:178-227 | in every state with the invariant of all runs, a request is acknowledged exactly if whatever receipt there is has the same evidence, kind of authority and principal, and, under the seal, what is deferred under its name is the same evidence and authority; never while an open storage has yet to be reconciled |
| Transport.ReceivedExactly | apps/capture-daemon/src/receipts.ts:178-227 | the world after the request: a known one leaves all as it is, an unknown one is deferred under the seal with its evidence, authority and times, and otherwise is an active receipt with just its evidence and principal |
| Transport.RoundTripDeliversIff | apps/capture-daemon/src/receipts.ts:125-137 | with open storage, sending, answering and forgetting deliver a file of the outbox exactly unless its identifier has a receipt of other evidence or authority, and take it away exactly if it is delivered or was acknowledged before |
| Transport.DeferredBecomesReceipt | apps/capture-daemon/src/receipts.ts:196-204 | reconciling turns a deferred record into the one receipt with just its evidence and authority, and takes it out of the journal |
| Transport.SettlingMoves | apps/capture-daemon/src/receipts.ts:254-291 | completing and rejecting move a receipt out of the active ones, as it is |
| Transport.TakesEffectAtMostOnce | apps/capture-daemon/src/receipts.ts:178-195 | at most one receipt is ever made for an identifier |
| Transport.ReceiptsStay | apps/capture-daemon/src/receipts.ts:254-291 | a receipt stays under its fingerprint through completion and rejection |
| Transport.ReconcilingIsNeverRefused | apps/capture-daemon/src/receipts.ts:196-204 | a deferred record is new to the receipts or the very one they hold |
| Transport.EvidenceIsNeverLost | apps/capture-daemon/src/receipts.ts:107-123 | if identifiers are not reused for other evidence, the relay will send just what was persisted until the receiver has it |
| Transport.PersistKeepsPromiseIff | apps/capture-daemon/src/receipts.ts:85-104 | right after persisting, what will be sent is what was given, exactly unless storage is sealed and the outbox has other evidence |
| Transport.PersistedIff | apps/capture-daemon/src/receipts.ts:85-104 | persisting is refused, with nothing changed, exactly if the journal, or with open storage the outbox, has other evidence under the identifier; otherwise just this evidence is in the one or the other, under the first time |
| Transport.FirstOccurrenceIsSent | apps/capture-daemon/src/receipts.ts:107-116 | what was to be sent before is still sent just so, with its first time; otherwise what was persisted |
| Transport.ReuseAcrossSealLoses | apps/capture-daemon/src/receipts.ts:100-122 | a run in which persisted evidence is nowhere |
| Transport.LateAcknowledgementLoses | apps/capture-daemon/src/receipts.ts:107-125 | a run without any seal in which persisted evidence is nowhere after a late acknowledgement |
| Transport.StepHonoursIff | apps/capture-daemon/src/receipts.ts:85-125 | in every state with the invariant of all runs, what was persisted stops being sent or held exactly at a step that puts it behind other evidence in the outbox under the seal, or that forgets it for an acknowledgement of other evidence while the receiver has not this one |
| Transport.StepStoresIff | apps/capture-daemon/src/receipts.ts:107-125 | it stops being on any disk exactly at a step of the second kind that takes away the last copy |
| Transport.EvidenceIsHonouredIff | apps/capture-daemon/src/receipts.ts:85-125 | of whole runs, persisted evidence is sent next or held from beginning to end exactly if no such step occurs |
| Transport.EvidenceIsStoredIff | apps/capture-daemon/src/receipts.ts:85-125 | of whole runs, it is on some disk from beginning to end exactly if no step forgets a last copy so |
| Transport.RetryUnderSealIff | apps/capture-daemon/src/ingress.ts:20-23 | under the seal a repeated decision is acknowledged exactly if its authority is the same down to the time |
| Transport.RetryAfterSealIff | apps/capture-daemon/src/receipts.ts:182-187 | after it, exactly if kind and principal are the same |
| Units.ClosedEvaluationUnits | apps/capture-daemon/src/capture.ts:229-268 | the loop computes the closed units |
| Units.ClosedUnitsIsTheCut | apps/capture-daemon/src/capture.ts:229-268 | the closed units are the only list that is a cut in the declarative sense: each starts at the first step after a boundary that can start one and ends at the first response or before the next prompt |
| Units.ClosedUnitsPromises | apps/capture-daemon/src/capture.ts:229-268 | the ranges increase beyond the finalised point, every response there ends exactly one, prompts are only first steps, and steps left over are neither |
| Units.RescanFindsNothing | apps/capture-daemon/src/capture.ts:163-169 | scanning again after finalising the last range finds nothing |
| Sessions.BackfillCompletedUnits | apps/capture-daemon/src/capture.ts:1237-1309 | the loop closes just the closed units, in order, under increasing unit numbers |
| Attempts.AttemptsAreDisjoint | apps/capture-daemon/src/capture.ts:171-196 | over every regular run of hooks, orphan timeouts, saved or not, and restarts, cut off or not, emitted attempts are non-empty, disjoint and increasing, their unit numbers are 1, 2, 3 and so on, and the finalised point is the end of the last one; what a repeated restart emits again is counted once |
| Attempts.SafeIffRegular | apps/capture-daemon/src/capture.ts:1603-1631 | after every regular run, an occurrence leaves the promise safe for all regular continuations exactly if a restart, cut off or not, finds every emission saved and every finalised step journalled or repeats one that was cut off, no decision that reads like a prompt is recorded into an attempt, no prompt with a usage report follows such a decision that is still open to the scan, and no orphan timeout fails after emitting |
| Attempts.RunIsSafeIffRegular | apps/capture-daemon/src/capture.ts:171-196 | of whole runs, the promise stays safe from beginning to end exactly if the run is regular |
| Attempts.MemoryIsRun | apps/capture-daemon/src/capture.ts:1590-1602 | however orphan timeouts and restarts are cut off, the session in memory and the one on disk are what the events whose effect they have make of a fresh one, and the disk is never ahead |
| Attempts.RepeatedRestart | apps/capture-daemon/src/capture.ts:1237-1309 | a restart that is repeated because it died emits the same ranges under the same numbers again, whatever the vault says by then |
| Attempts.LookalikeOverlapsIff | apps/capture-daemon/src/capture.ts:941-988 | in every state that a regular run reaches, recording a decision that reads like a prompt, a restart and a response overlap exactly if an attempt was open |
| Attempts.ErrorRepeats | apps/capture-daemon/src/capture.ts:1422-1437 | an orphan timeout that fails after emitting emits its attempt again, under the same number and from the same step |
| Attempts.CrashRepeats | apps/capture-daemon/src/capture.ts:1590-1602 | so does one whose session is not saved before the process dies |
| Attempts.CutOffByError | apps/capture-daemon/src/capture.ts:1625-1630 | a run in which that happens by an error |
| Attempts.CutOffByCrash | apps/capture-daemon/src/capture.ts:1625-1630 | a run in which it happens by a crash |
| Attempts.FinalizedPointMovesBackIff | apps/capture-daemon/src/capture.ts:182-196 | after every such run, the finalised point moves back exactly at a restart, cut off or not, that has lost an emission |
| Attempts.RestartClosesOnlyStrays | apps/capture-daemon/src/capture.ts:1237-1238 | a restart closes nothing of what was emitted or of the attempt under way; unless a decision reads like a prompt, it closes only responses that came while no attempt was open |
| Sessions.SuccessIffWarranted | apps/capture-daemon/src/capture.ts:1508-1526 | over every run in which each event takes effect as a whole, an attempt is emitted as successful exactly if it ends with a response or the session, an authorised decision approved this task, attempt and final revision, nothing since superseded it, and no tool call is unanswered |
| Attempts.SuccessInEveryRun | apps/capture-daemon/src/capture.ts:1508-1526 | the same over every run whatsoever, of the events whose effect the session has |
| Outcomes.OutcomeInEveryRun | apps/capture-daemon/src/capture.ts:1508-1526 | over every run, by its events alone: at a response or the end of the session the outcome is success exactly if a standing decision approves this task, attempt and revision and every call has reported; failure exactly if it is not success and a standing decision refuses it, the response has failed, or an earlier failed response or refusal was taken back by no prompt, change, orphan timeout or approval; and otherwise unknown |
| Outcomes.GrantedIff | apps/capture-daemon/src/capture.ts:943-956 | a decision is granted exactly if it is authorised, has a summary, and its well-formed acceptance names the task of the last prompt, the number of attempts emitted so far and one, and the revision at hand |
| Outcomes.FlagIffFailureStands | apps/capture-daemon/src/capture.ts:1045-1050 | the session is marked as failed exactly if a failed response or a refusal stands |
| Outcomes.RestartOutcome | apps/capture-daemon/src/capture.ts:1264-1286 | what a restart closes is failed exactly if it ends with a response that the evidence calls failed, otherwise unknown, and has the task that the evidence names |
| Outcomes.AbandonedIsUnknown | apps/capture-daemon/src/capture.ts:674-680 | what a prompt or an orphan timeout closes is unknown |
| Attempts.OutcomeInEveryRun | apps/capture-daemon/src/capture.ts:1508-1526 | all this over every run whatsoever, of the events whose effect the session has |
| Sessions.AcceptanceIsStanding | apps/capture-daemon/src/capture.ts:941-988 | the session holds an acceptance exactly if some decision granted it and no prompt, mutation, orphan timeout or later decision came after |
| Sessions.NothingPendingIff | apps/capture-daemon/src/capture.ts:725-728 | no tool is pending exactly if every started call has reported |
| Sessions.OtherwiseNoSuccess | apps/capture-daemon/src/capture.ts:151-161 | a new prompt, an orphan timeout or a restart never closes an attempt as successful |
| Attempts.ShortJournalOverlaps | apps/capture-daemon/src/capture.ts:1603-1631 | after a restart with too short a journal the next attempt overlaps emitted steps exactly if the journal ends before the finalised point |
| Attempts.OrphanStepsOverlap | apps/capture-daemon/src/capture.ts:1603-1631 | a run in which an orphan timeout leads to that |
| Attempts.PromptLookalikeOverlaps | apps/capture-daemon/src/capture.ts:941-988 | a run in which a decision that reads like a prompt leads to an overlap |
| Lease.LeaseIsExclusive | apps/api/src/registry.ts:89-125 | for any number of contenders, interleavings and deaths, at most one live one holds the lease as long as every confirming probe finds a dead owner's file |
| Lease.OnlyOwnersUnlinkLiveLeases | apps/api/src/registry.ts:80-125 | in such runs a live lease is only unlinked by its own contender, also while it is being written |
| Lease.LeaseIsExclusiveWhenProbedTogether | apps/api/src/registry.ts:58-65 | the lease is exclusive in every run in which reading the file and probing its process happen together |
| Lease.InvStep | apps/api/src/registry.ts:58-125 | every step keeps the inductive invariant behind it |
| Lease.AcquiresAloneIff | apps/api/src/registry.ts:89-125 | in every state of every run, a contender that is left alone gets the lease exactly if the path is free, or has the finished lease of a process that is gone while nobody takes over; then the file is its own and its recovery file is gone; otherwise it gives up and both files are as they were |
| Lease.LeavesUsedPath | apps/api/src/registry.ts:89-95 | a lease whose process is alive, or that is not finished, makes it give up without ever touching either file |
| Lease.SecondLookGivesUp | apps/api/src/registry.ts:107-117 | if the second look finds no finished lease, or its process alive, the contender removes its recovery file and goes, whatever the path holds by then |
| Lease.FailureGivesUp | apps/api/src/registry.ts:67-77 | a write that fails takes its file with it, an unlinking that fails leaves the lease and removes the recovery file, and either ends the attempt |
| Lease.ReleasesOwn | apps/api/src/registry.ts:80-87 | releasing removes the file at the path exactly if it is still the contender's own |
| Lease.NothingIsLeftBehind | apps/api/src/registry.ts:80-125 | in every run, a live contender that is done has left no recovery file, and, with sound probes, no lease |
| Lease.ProbeIsSafeIffOwnerGone | apps/api/src/registry.ts:108-111 | a confirming probe can lead to two holders exactly if the file at the path is not a dead owner's |
| Lease.ExclusionCanFail | apps/api/src/registry.ts:108-111 | a run of three processes in which it does |
| Telemetry.ClaimsAreExclusive | apps/brain/src/telemetry-outbox.ts:154-161 | over every run of any number of tabs, no two work on one row under unexpired claims |
| Telemetry.NothingIsLost | apps/brain/src/telemetry-outbox.ts:117-180 | every accepted batch is stored unchanged, was delivered, or was cleared by an operator |
| Telemetry.RowsVanishOnlyBy | apps/brain/src/telemetry-outbox.ts:168-200 | a row disappears only when its recorded claimant settles a delivery of its batch, or when a terminal, unclaimed row is cleared |
| Telemetry.SupersededTabChangesNothing | apps/brain/src/telemetry-outbox.ts:168-171 | once superseded a tab stays so through every run, and what it settles changes no row |
| Telemetry.RetakenIffExpired | apps/brain/src/telemetry-outbox.ts:156 | while a delivery is out its row can be taken exactly from the moment the claim expires |
| Telemetry.CrashFreesIffExpired | apps/brain/src/telemetry-outbox.ts:154-161 | a tab that dies during a delivery leaves its row as it is, and through whatever comes later until it is taken, the row can be taken exactly once the claim has expired |
| Telemetry.LimitsHold | apps/brain/src/telemetry-outbox.ts:112-126 | rows, bytes, items and the attempts of live rows stay within their limits |
| Telemetry.OtherAccountsUntouched | apps/brain/src/telemetry-outbox.ts:189-200 | claims and repairs leave other accounts' rows alone |
| Telemetry.DelayBounds | apps/brain/src/telemetry-outbox.ts:181-184 | the wait lies between two seconds and five minutes, does not shrink as failures add up, and honours the server's |
| Telemetry.DelayExactly | apps/brain/src/telemetry-outbox.ts:182 | two seconds at first, doubled by each further failure up to 256 seconds; a longer wait that the server asks for is granted up to five minutes |
| Telemetry.FailedDeliveryIsTriedAgainIff | apps/brain/src/telemetry-outbox.ts:156-185 | from every run on, and through whatever comes later until it is taken or repaired, a row whose delivery failed can be taken again exactly once its wait is over and if the delivery was aborted, or the answer was none of 401, 403 and 404, not terminal, not another of 400 to 499 but 408 and 429, and attempts are left |
| Telemetry.SettledAfterFailure | apps/brain/src/telemetry-outbox.ts:172-185 | the row keeps its batch and loses its claim; aborted, it waits five seconds with attempts and state unchanged; otherwise it has one more attempt and is denied exactly for 401, 403 and 404, exhausted exactly if not denied and the answer is hopeless or it was the last attempt, and to be retried if neither |
| Telemetry.SettledOtherwise | apps/brain/src/telemetry-outbox.ts:168-171 | a delivered row leaves the store, and settling without the recorded claim changes no row |
| Telemetry.TakenExactly | apps/brain/src/telemetry-outbox.ts:154-161 | a row is claimed exactly if it is due and none that is due has an earlier stamp, for a minute and with the batch it has |
| Telemetry.DueAgainIff | apps/brain/src/telemetry-outbox.ts:156 | a row that waits stays as it is until it is taken, and can be taken exactly once its wait is over; one that is denied or exhausted stays until it is repaired and is never taken |
| Telemetry.RepairedExactly | apps/brain/src/telemetry-outbox.ts:190-204 | just the account's denied and exhausted rows become due at once with no attempts made, or are deleted; all others stay |
| Telemetry.AcceptedIff | apps/brain/src/telemetry-outbox.ts:112-127 | a batch is accepted exactly if it has 1 to 100 items and at most 128 KiB, and is stored already just so, or is new and finds room among rows and 8 MiB |
| Telemetry.StepInv | apps/brain/src/telemetry-outbox.ts:117-204 | every transaction keeps the invariant behind these |
| Telemetry.BatchStore.Enqueue | apps/brain/src/telemetry-outbox.ts:91-127 | one enqueue step, or the error that applies and no change |
| Telemetry.BatchStore.Take | apps/brain/src/telemetry-outbox.ts:154-161 | claims a due row than which none is due with an earlier stamp, or finds that none is due |
| Telemetry.BatchStore.Settle | apps/brain/src/telemetry-outbox.ts:168-185 | one settle step under the claim that is still recorded, which `SettledAfterFailure` describes |
| Telemetry.BatchStore.Repair | apps/brain/src/telemetry-outbox.ts:190-204 | the loop puts back or deletes just the stuck rows of one account and counts them |
| Telemetry.BrowserTelemetryOutbox.Drain | apps/brain/src/telemetry-outbox.ts:148-187 | with other tabs at work meanwhile, the loop is a run of the protocol in which the tab claims, delivers and settles one row per pass and nothing else, at most as many as asked for between one and a hundred, and it stops for just the reason there is, for want of rows only if none is due |
| Base64.EncodeDecode | apps/capture-daemon/src/recovery-archive.ts:74 | encoded text is well-formed, decodes to what was encoded, and has four symbols for every three bytes begun |
| Base64.DecodeEncodeIff | apps/capture-daemon/src/recovery-archive.ts:110-111 | accepted text is what an encoder makes exactly if its left-over bits are zero |
| Base64.TestVectors | apps/capture-daemon/src/recovery-archive.ts:74 | vectors of section 10 of RFC 4648, and the last two symbols of its table |
| Base64.WellFormedIff | apps/capture-daemon/src/recovery-archive.ts:110 | a text is accepted exactly if it has whole groups of four with symbols everywhere but at the last two places, where padding may be |
| RecoveryManifest.AssertManifest | apps/capture-daemon/src/recovery-archive.ts:51-62 | the checks with their sets accept just the manifests whose paths, sizes, keys and references are consistent |
| RecoveryManifest.ValidManifestIff | apps/capture-daemon/src/recovery-archive.ts:51-62 | just the supported ones with at most 64 roots and 100,000 files and references, 256 MiB a file and 4 GiB in all, `database.dump` among the files, well-named roots, safe paths, nothing twice, and every key and reference leading to a file under its root, an encrypted one to a key, that do not claim complete coverage with something unresolved |
| RecoveryManifest.SafePathIff | apps/capture-daemon/src/recovery-files.ts:7-9 | the parts of a path are acceptable exactly if its text has at most 1,024 characters, no leading slash, backslash, colon or control character, and no empty, `.` or `..` part |
| RecoveryManifest.RootedText | apps/capture-daemon/src/recovery-archive.ts:59-60 | splitting `roots/`, the root, a slash and a path's text gives the parts that keys and references are looked up by |
| Archive.SoundIsAccepted | apps/capture-daemon/src/recovery-archive.ts:101-117 | frames of a valid manifest that carry what is declared are accepted, and stage just those files |
| Archive.AcceptedIsSound | apps/capture-daemon/src/recovery-archive.ts:101-117 | no other sequence of frames is accepted |
| Archive.NeverWritesMore | apps/capture-daemon/src/recovery-archive.ts:111 | whatever frames come, no more is ever written to a file than its manifest says |
| Archive.DataTakenIff | apps/capture-daemon/src/recovery-archive.ts:110-111 | a data frame is taken exactly while a file is open, if it is base64 of at most 90,000 characters and the file has room for it |
| ArchiveBytes.WriteRecoveryArchive | apps/capture-daemon/src/recovery-archive.ts:65-79 | the loops emit the lines of manifest, files and end, or nothing if a source is not what the inventory says |
| ArchiveBytes.Append | apps/capture-daemon/src/recovery-archive.ts:82 | a chunk hands over every line it completes, and fails exactly if a line or what is pending is too long or a frame is refused |
| ArchiveBytes.VerifyRecoveryArchive | apps/capture-daemon/src/recovery-archive.ts:80-124 | the outcome depends on the decrypted bytes alone, whatever the chunks |
| ArchiveBytes.WrittenIsVerifiedIff | apps/capture-daemon/src/recovery-archive.ts:65-117 | what was written verifies to the same manifest and files exactly if no file is in the way of another and all lines and the archive fit |
| ArchiveBytes.OnlyTheManifestCanBeTooLong | apps/capture-daemon/src/recovery-archive.ts:73-75 | if JSON adds little to base64 and to paths, only the manifest's line can be too long |
| ArchiveBytes.WrittenIsVerifiedIffShort | apps/capture-daemon/src/recovery-archive.ts:65-117 | so what was written verifies exactly if no file is in the way of another, the manifest's line has at most 16 MiB, and the archive fits |
| ArchiveBytes.ChunkFits | apps/capture-daemon/src/recovery-archive.ts:110 | a chunk of 64 KiB takes 87,384 characters of at most 90,000 |
| ArchiveBytes.VerifiedIsSound | apps/capture-daemon/src/recovery-archive.ts:88-124 | verified bytes are authentic, consist of nothing but the lines of one sound archive, and stage just its files |
| ArchiveBytes.VerifiedIff | apps/capture-daemon/src/recovery-archive.ts:80-124 | an archive verifies exactly if it is authentic, has at most 8 GiB, ends with a newline, has no line of more than 16 MiB, and its lines are frames that the verifier takes up to the last one |
| ArchiveBytes.DependenciesAreStaged | apps/capture-daemon/src/recovery-archive.ts:58-60 | in a verified archive every key and reference leads to a staged file, and what is encrypted has its key |
| Lines.SplitConcat | apps/capture-daemon/src/recovery-archive.ts:82 | what arrives later only continues the unfinished rest |
| Transcript.TakeLines | apps/capture-daemon/src/reasoning.ts:100-121 | the byte loop takes every line a chunk completes, with its offset |
| Transcript.ReadExposedReasoningDelta | apps/capture-daemon/src/reasoning.ts:74-124 | for every chunking, the records and cursor of the window alone; an error exactly for a limit that is not positive |
| Transcript.ReadFinds | apps/capture-daemon/src/reasoning.ts:88-123 | a read starts at its cursor, or at the beginning if that is negative or beyond the file, and finds, in three lists, the records of the good lines of its window in order, the reasoning these expose at the places where they begin, and how many lines are neither good nor blank |
| Transcript.ReadLines | apps/capture-daemon/src/reasoning.ts:99-123 | the cursor is a line boundary if the start was |
| Transcript.SeriesIsOneShot | apps/capture-daemon/src/reasoning.ts:74-124 | for any windows and growth, the reads find a first part of what one read finds, with the same offsets, and reading on finds just the rest |
| Transcript.DrainedReachesEndIff | apps/capture-daemon/src/reasoning.ts:93-123 | reading on in bounded windows gets to the end exactly if every complete line fits |
| Transcript.MovesIff | apps/capture-daemon/src/reasoning.ts:102-123 | a read moves on exactly if its window has a newline |
| Transcript.TooLongALineStops | apps/capture-daemon/src/reasoning.ts:93-123 | a line that does not fit stops every later read of that size, however the file grows |
| StepJournal.SessionStepStore.Read | apps/capture-daemon/src/storage.ts:283-324 | the loop reads just the steps in sequence and cuts off a last line that is none; an error if such a line is not the last |
| StepJournal.SessionStepStore.Synchronize | apps/capture-daemon/src/storage.ts:326-356 | just what is new is appended, in one write that a crash may cut anywhere |
| StepJournal.SessionStepStore.Replace | apps/capture-daemon/src/storage.ts:358-372 | the journal becomes the text of the given steps, renumbered from one |
| StepJournal.ReadAfterCut | apps/capture-daemon/src/storage.ts:300-324 | cut anywhere, the journal reads as a first part of its steps with every newline-terminated one, and one more exactly if the cut is just before a newline; the file is repaired exactly otherwise |
| StepJournal.AppendIsReadBackIff | apps/capture-daemon/src/storage.ts:341-352 | what is appended after reading is read back exactly if the file ended with its newline |
| StepJournal.SynchronizedOnlyAppends | apps/capture-daemon/src/storage.ts:326-338 | nothing existing changes, every candidate's evidence is there, and what is new is a candidate, numbered on, whose evidence was not there before |
| StepJournal.SynchronizeIsIdempotent | apps/capture-daemon/src/storage.ts:326-338 | a second time nothing is added |
| Merge.MergeRecoveredSteps | apps/capture-daemon/src/recovery.ts:172-195 | the loops pair the n-th recovered step of a key with the n-th existing one; the count of new steps is the exact difference |
| Merge.SameKeyIff | apps/capture-daemon/src/recovery.ts:161-170 | two steps have the same key exactly if both are session starts, or neither is and artifact (none counting as empty), node kind, role and tool agree and so does the wording, or, of results of tools, the check they report |
| Merge.LabelIsTheCheck | apps/capture-daemon/src/recovery.ts:168 | a result reports a check exactly if it begins with that check's name and `verification`, and at most one |
| Merge.PairedIff | apps/capture-daemon/src/recovery.ts:181-187 | an existing and a recovered step come out as one exactly if they stand for the same evidence and as many of it come before the one as before the other |
| Merge.WordingIsKept | apps/capture-daemon/src/recovery.ts:181-190 | every existing step comes out in a place of its own with all it had but its number; its wording too, unless it is the result of a tool, which may take over another report on the same check |
| Merge.DifferentWordingBothComeOut | apps/capture-daemon/src/recovery.ts:161-190 | an existing step that is no result of a tool and a recovered one of other wording come out as two, each with its wording |
| Merge.ExistingStepsAreKept | apps/capture-daemon/src/recovery.ts:182-190 | every existing step has its place, with all it had but its number and, if recovered, its wording |
| Merge.PlacesAreDistinct | apps/capture-daemon/src/recovery.ts:181-190 | no two of them have the same place |
| Merge.OtherPlacesAreNew | apps/capture-daemon/src/recovery.ts:182-188 | every other place has a recovered step for which there was no existing one |
| Merge.CountsAreMaxima | apps/capture-daemon/src/recovery.ts:172-195 | of every key there are as many steps as in the input that has more |
| Merge.MergedLength | apps/capture-daemon/src/recovery.ts:193 | at least as many steps come out as there were, so the clamp never acts |
| Merge.RecoveredComeFirst | apps/capture-daemon/src/recovery.ts:182-192 | steps are numbered from one, recovered ones first, with their keys and wording |
| Merge.MergingAgainChangesNothing | apps/capture-daemon/src/recovery.ts:172-195 | merging the same again gives the very same steps |
| Merge.RecoveryKeyIsStable | apps/capture-daemon/src/recovery.ts:161-170 | a step keeps its key when it takes over the wording of another of that key, which the results about all keys ask for |
| TreeMerge.MergeIsUnionIff | packages/fold-trace/src/tree-merge.ts:23-44 | a merge says all that both trees say, and commutes, exactly if no two edges clash |
| TreeMerge.MergesIff | packages/fold-trace/src/tree-merge.ts:8-46 | two valid revisions merge exactly if they have one task and root, name no node and no edge differently, and do not together lead from some node back to it; all else that makes a tree valid follows, dropped edges or not |
| TreeMerge.IndexedShape | packages/fold-trace/src/projection.ts:22-90 | a valid tree has its root, every other node is led to, and no edge leads to the root, back to its own node or out of the tree |
| TreeMerge.CapturedTreesMerge | apps/capture-daemon/src/capture.ts:1335-1352 | two captured revisions of one tree always merge, to a valid captured tree that says just what either says |
| TreeMerge.MergeIsJoin | packages/fold-trace/src/tree-merge.ts:8-44 | on captured revisions of one tree merging is idempotent, commutative and associative |
| Spool.MeaningIsConservedIff | apps/capture-daemon/src/delivery.ts:193-300 | after every run, folding, delivering, setting aside and a crash between any two steps change nothing about what server and jobs together say of any task, exactly unless the step is a setting aside that loses |
| Spool.NothingFallsOut | apps/capture-daemon/src/delivery.ts:229-300 | every tree that was taken is said in full by the server, a waiting job or one set aside |
| Spool.EveryJobIsAccountedFor | apps/capture-daemon/src/storage.ts:628-702 | over every run, every job is waiting, delivered, set aside, or folded into another that was taken |
| Spool.FoldingAgainIsTheSame | apps/capture-daemon/src/delivery.ts:247-257 | folding again after a crash between its steps writes the same job |
| Spool.SendingAgainIsTheSame | apps/capture-daemon/src/delivery.ts:193-205 | sending a job again after a crash before it was removed leaves the server as it is |
| Spool.RejectAgainLoses | apps/capture-daemon/src/storage.ts:692-702 | a run in which a job set aside a second time drops what the first had absorbed |
| Spool.RejectLosesIff | apps/capture-daemon/src/storage.ts:692-702 | in any state, setting a job aside loses just those items that the replaced job says and neither the server, a waiting job nor another set aside does |
| Spool.OverwritingLosesIff | apps/capture-daemon/src/storage.ts:692-702 | that happens exactly if the replaced job says more than the new one and nobody else says all of it |
| Spool.SpoolProcessor.FoldInto | apps/capture-daemon/src/delivery.ts:247-257 | the later file is replaced before the earlier one goes, and nothing happens if the trees conflict |
| Spool.SpoolProcessor.Deliver | apps/capture-daemon/src/delivery.ts:188-205 | the server's tree becomes the merge, and a conflict is a refusal |
| Spool.SpoolProcessor.Attempt | apps/capture-daemon/src/delivery.ts:258-299 | a job that is taken is delivered and forgotten, one that is refused or conflicts with the server is set aside, a transcript whose file makes trouble is put off for five seconds, and any other trouble blocks the pass until the backoff is over |
| Spool.SpoolProcessor.ProcessPending | apps/capture-daemon/src/delivery.ts:229-300 | entry by entry, what has to wait is left, a snapshot is absorbed by the newest of its task where they agree, and all else is attempted; a pass tries no more than a batch, stops at the first trouble, otherwise leaves only what has to wait, and is a run of the protocol |
| Stream.SentOrWithheld | apps/api/src/server.ts:1039-1090 | over any growth, polls and broken connections, and however authority changes meanwhile, each entry between the start and the cursor was either sent, once and in order, under an answer that allowed it when it was to leave, or withheld under an answer that did not allow it |
| Stream.NothingMissedOrRepeated | apps/api/src/server.ts:1039-1090 | under an authority that does not change, what was delivered and what the cursor has still to come are just the visible entries, each once and in order |
| Stream.EitherCursorResumes | apps/api/src/registry.ts:227-244 | resuming after a delivered event or after its page gives the same that follows |
| Stream.EventStream.Poll | apps/api/src/server.ts:1039-1090 | one page is sent up to where the connection breaks, each event only if a new answer still allows it, and the cursor moves past all that was scanned, sent or not |
| Stream.EventStream.Drain | apps/api/src/server.ts:1076-1086 | draining ends at the end of the log even if whole pages are withheld, and is a run of polls |
| Stream.DrainedSendsVisible | apps/api/src/server.ts:1076-1086 | under an authority that does not change, it has sent just the visible entries |
| Paging.CompleteIffSorted | apps/api/src/server.ts:874-898 | for every list, following the cursor returns the items for every limit exactly if they are strictly in the order of the filter |
| Paging.FollowIsComplete | apps/api/src/server.ts:874-898 | while items come in between pages nothing comes twice, and at the end every item that was there throughout has come |
| Paging.FollowEnds | apps/api/src/server.ts:874-898 | on a list that does not change the cursor comes to the end, with the same items as `CompleteIffSorted` is about, in at most one page more than items are left |
| Paging.PageOfSorted | apps/api/src/server.ts:874-898 | behind an item of a list with newer items first a page has just the items that follow, as many as the limit allows, the total is that of the list, and there is a cursor exactly if some are left |
| Paging.SortedIffNewerFirst | apps/api/src/server.ts:887 | the order of the filter is that of falling keys and, for one key, of rising names, by their first difference as `LessIff` says |
| Paging.UnsortedLoses | apps/api/src/server.ts:874-898 | an item behind one it should precede is lost for some limit |
| Paging.LocaleOrderLoses | apps/api/src/server.ts:1959-1961 | a list in locale order that loses an item |
| RateLimit.FixedWindowRateLimiter.Create | apps/api/src/rate-limit.ts:21-35 | a limiter exactly for positive limits |
| RateLimit.FixedWindowRateLimiter.Consume | apps/api/src/rate-limit.ts:37-76 | one decision, and the windows it leaves |
| RateLimit.FixedWindowRateLimiter.Expire | apps/api/src/rate-limit.ts:78-82 | the loop deletes just the windows that started before |
| RateLimit.DecisionFromHistory | apps/api/src/rate-limit.ts:37-76 | for a clock that does not go back to an earlier window, each decision is that of an unbounded counter per key, but for keys refused for want of capacity |
| RateLimit.LimitAndCapacity | apps/api/src/rate-limit.ts:45-66 | for such a clock no key is admitted more than `limit` times in a window, and no more than `maxKeys` keys are stored |
| RateLimit.NeverEvictedInsideWindow | apps/api/src/rate-limit.ts:47-55 | a key admitted in the current window is still there |
| RateLimit.RefusedKeyNotStored | apps/api/src/rate-limit.ts:48-54 | a key refused for capacity leaves nothing behind |
| RateLimit.BackwardClockBreaksLimit | apps/api/src/rate-limit.ts:45-57 | calls with a clock that goes back and exceed the limit |
| RateLimit.LimitBreaksIff | apps/api/src/rate-limit.ts:45-66 | whatever the clock, repeating a call gets more than the limit admitted in its window exactly if it restarts a count: it is admitted while the stored window of its key is another, or none, although calls were admitted in its own |
| RateLimit.LimitKeptWithoutRestarts | apps/api/src/rate-limit.ts:45-66 | whatever the clock, the limit is kept as long as no call restarts a count |
| RateLimit.InOrderNeverRestarts | apps/api/src/rate-limit.ts:47-57 | a clock that does not go back to an earlier window restarts none |
| RateLimit.ForwardClockIsInOrder | apps/api/src/rate-limit.ts:39-44 | a clock that never goes back is such a clock |

## Left out

- Receipts.DurableStateIsFold: assumes that no heartbeat saves state while a prepared receipt is listed; `HeartbeatSurvivesIff` says what happens otherwise. Jobs that heartbeats and starts enqueue on their own, direct ingestion without a receipt, and a heartbeat whose save fails are not modelled there; `Attempts` has such heartbeats for one session.
- ReceiptQueue.CaptureReceiptQueue.Drain: the reconciling of deferred records that comes first is part of `Transport`. A failing synchronisation of a directory writes the active copy again, which listing ignores; it is not modelled.
- Receipts.EventTimesIncrease: speaks of listed and completed receipts; for rejected ones `LaterThanRejectedIff` gives the condition.
- Attempts.AttemptsAreDisjoint: is about regular runs; `SafeIffRegular` says for every occurrence that regularity cannot be dispensed with. Truncated sessions that a restart recovers from the vault are not modelled.
- Lease.LeaseIsExclusive: assumes that confirming probes are sound, which the code does not ensure; see `ProbeIsSafeIffOwnerGone`.
- Transport.EvidenceIsNeverLost: assumes that callers do not use an identifier for two pieces of evidence; `NothingIsLost` does not.
- Spool.MeaningIsConservedIff: is about trees as the capture daemon makes them.
- Spool.NothingFallsOut: is about runs in which no setting aside loses; `RejectLosesIff` says which do.
- TreeMerge.MergesIff: is about two valid revisions; of two edges between the same nodes in one incoming tree, which indexing refuses, the source keeps the first and the model refuses the merge.
- Spool.SpoolProcessor.Deliver: a run that is refused after its tree was recorded is not an outcome of the method; the protocol reaches it as sending, a crash and setting aside.
- Spool.SpoolProcessor.ProcessPending: the order of the entries by their stamps is the caller's.
- Ingress.CaptureIngressJournal.Pending: records of equal times come in any order; the source breaks ties by identifier. Tenants are not modelled, in the identity of a record either, so a record of another tenant, which stops reconciling, is not, nor is the bound on a record's size.
- Telemetry.BatchStore.Take: rows of equal stamps may be taken in any order; the source breaks ties by identifier in locale order. Each transaction reads one clock, except that a claim may be dated later than it was chosen.
- StepJournal.SessionStepStore.Synchronize: the contract keeps the cache equal to what a restart would read only for a file that ends with a newline; `AppendIsReadBackIff` says what happens otherwise.
- Transcript.ReadExposedReasoningDelta: the three result lists are one list of events in order, which `ReadFinds` sorts out; limits are whole numbers.
- Paging.CompleteIffSorted: identifiers compare by Dafny characters rather than UTF-16 code units; keys are integers; the source also has string keys and skips items whose key is of another type than the cursor's.
- Stream.SentOrWithheld: an entry that was withheld when the cursor passed it is not sent later, even if it is allowed again; connection limits, heartbeats and timers are not modelled.
- RecoveryManifest.AssertManifest: file modes, identifiers, dates and the schema name are one flag.
- ArchiveBytes.WrittenIsVerifiedIff: hashes are functions, so two contents of the same hash are not told apart; changes of the archive file while it is read are not modelled.
- Interpretation of hooks into session state: an uninterpreted function in the receipts, and the events of `Sessions` where attempts and outcomes are concerned. Reasoning capture, native runtime capture and the version 1 migration are not modelled.
- Renumbering of truncated steps when the state is loaded, and merging of sessions from an unknown source: legacy paths.
- The filesystem mutex and the seal of private roots: one step under the lock; their own protocol over files is not modelled.
- Acyclicity and reachability of trees: stated over paths; the depth-first search that decides them is not modelled.
- Job identifiers that map to the same file name after sanitising: identifiers are file names.
- Transcript snapshots, bundle delivery and the maintenance commands of the spool: foreign processes and easy members.
- Encryption, redaction and anonymisation: the identity, or parameters, as said above.
- HTTP routing, schemas, CORS, the web pages, Git, PostgreSQL and SQLite: plumbing around the modelled logic.
