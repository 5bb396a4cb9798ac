# Verified model of clank-agent

clank-agent runs on a customer host, deploys containers for a control plane, renews its own
credentials and replaces its own binary. The hard part of that code is what has to stay right
when a write fails, the process dies between two writes, or a connection is replaced while
something is in progress. This project models those parts in Dafny 4.11 and proves what they keep.

`dafny verify dfyconfig.toml` checks everything.

## How it is built

**Faults.** Every durable operation takes a `Fate` (module `Durable`): it works, it fails and
changes nothing, or the process dies before it takes effect. A statement quantified over fates
therefore covers every combination of failed writes and every crash point. Removals of a directory
and file copies may also stop half-way and leave an arbitrary rest.

**Objects and specifications.** Code that changes fields or files step by step is a class or a
method with the source's own control flow (`Store`, `Agent`, `StreamRouter`, `ResultQueue`,
`BinaryDir`, `Updates`, `Coordinator`, the methods of `Deploys`, `Inventories`, `CleanupPlans` and
`LogFrames`). Each is proved against a specification: either outright, or against a function on
values about which the lemmas then speak.

**Runs.** The credential calls hold both locks from start to end, so a run of the agent is a
sequence of whole calls, tunnel updates and restarts (module `Runs`); a call that dies is followed
by a restart from disk. The router with its queue (`Relay`) and the image coordinator
(`HelperImage`) are interleavings of smaller actions, one per critical section or stream call, by any
number of goroutines.

| File | What it holds |
|---|---|
| `CertStore.dfy` | bundle directory and pointer file of `internal/certs/store.go` |
| `Credentials.dfy`, `Agent.dfy` | begin, apply, resume, record, tunnel save: specification and object |
| `FailureCodes.dfy`, `Renewal.dfy` | which responses are accepted, from a request to new credentials, what failures leave and are called |
| `Runs.dfy`, `Cutover.dfy` | runs of the agent; the two-phase cutover is atomic |
| `Survival.dfy`, `Grants.dfy` | what holds under any number of failures; what a grant is worth |
| `Recovery.dfy`, `Pacing.dfy`, `Isolation.dfy` | undo and resume of one call; renewal pacing; no lost update |
| `LiveStreams.dfy`, `Relay.dfy` | router and retry queue: objects, and their concurrent use |
| `Versions.dfy`, `SelfUpdate.dfy`, `UpdateLifecycle.dfy` | the downgrade test; binary replacement; an update over restarts |
| `Deploy.dfy` | one deploy over every sequence of Docker and network answers |
| `DockerArtifacts.dfy`, `Inventory.dfy`, `CleanupPlan.dfy` | the inventory and the cleanup plan of one snapshot |
| `LogFrames.dfy` | the batch and the streaming decoder of Docker's log framing |
| `HelperImage.dfy` | the one-token image coordinator of the backups |
| `Sorting.dfy`, `Strings.dfy`, `Sums.dfy`, `Wrappers.dfy`, `Durable.dfy` | string order and sorting, cutting strings, sums over goroutines, options, fates |

## Assumptions

- Request identifiers are fresh (`Runs.Fresh`), as 16 random bytes are.
- `CutoverIsAtomic` assumes the order `Run` imposes, as `Runs.Admitted` says: no request, response or
  rejection is handled before a resume has succeeded in this process. The methods `RecoverCredentials`,
  `MaybeRequestCredentialRenewal` and `HandleCredentialRotation` are proved to produce only such steps.
- `CutoverIsAtomic` also assumes that no apply meets one of two patterns of failed writes
  (`Runs.Contained`); each takes two failures, so one failed write per apply is always fine
  (`OneFailureIsContained`). `Diverges`: the final save and the pointer rollback fail and the
  configuration rollback works. That tears one apply, and nothing else does (`ApplyTearsExactlyWhen`).
  `KeepsRecord`: the configuration could not be restored, so a process that goes on still has the record
  of the switch. That apply is still atomic, but a later call in the same process can break it:
  a second response of which only the certificate is written (`SecondResponseBreaksAKeptRecord`), or a
  rejection, which clears the record (`RejectionBreaksAKeptRecord`).
- The results of `Survival` and `Isolation` need neither assumption.
- `RequestsArePaced` takes the check of the retry time and the request as one step, and a clock that
  does not go back.
- `StartupsDecideTheUpdate` and the results built on it take state saves as succeeding and the
  operations of a rollback at startup as working; `FourthStartupRestoresExactlyWhen` and
  `ReplaceNeverLosesTheProgram` say what other rollbacks do. The update before them may fail or die anywhere.
- A command for the version that already runs does nothing, so for such a command
  `UpdateKeepsAProgramExactlyWhen` takes no earlier update as pending.
- A Go `int` has 64 bits.

## Where the code and its comments differ

- The comment in `stripDockerStreamHeaders` says that input without frames is returned as it was. The
  code returns what is left after the headers it consumed; `OriginalIsReturnedExactlyWhen` shows that
  this is the original only below eight bytes.
- `replaceFile` is described as atomic. `ExecutableMissingExactlyWhen` gives the exact combinations of
  operations after which nothing is at the executable path; the old program is then beside it.
- The inventory skips containers without an id and the cleanup plan does not, so the two passes can
  disagree about an image; `InventoryUseIsPlanUse` says exactly when. The plan is the cautious one.
- `HandleUpdate` saves its state for crash recovery before there is a backup. If the process dies in the
  backup copy, the fourth failed startup installs what that copy left: a torn file, or the stale backup
  of an earlier update (`SpoiledBackupIsInstalled`, `TornBackupIsInstalled`).
  `UpdateKeepsAProgramExactlyWhen` shows that this, and a replacement that left nothing at the executable
  path, are the only ways not to end with the old or the complete new program.
- `parseSemver` is said to return zeros if parsing fails. It does so only for a text with fewer than two
  dots; otherwise a part that is no number is 0 by itself (`ParseSemverReadsParts`, `NoNumberIsZero`).
- `send` in the stream router reads the live stream first and then waits for that stream's send lock, so a
  report may be sent on a stream that has been replaced meanwhile (`TheStreamMayBeReplacedMeanwhile`).
- `handleCredentialRotation` says that it keeps the key and request of a failed cutover, so that the same
  answer can be tried again. The apply itself removes them when a write after the staging fails
  (`FailedApplyDropsItsBundle`); only a failed check or staging keeps them.
- A rejection discards the request's bundle also when its own save failed. If that removal stops after the
  key, the request is sent again and no answer to it can be accepted (`HalfRemovedRequestStalls`).
- A rollback that fails still clears the update state, so it is not tried again
  (`FourthStartupRestoresExactlyWhen`).

## Model

| member | source | states |
|---|---|---|
| CertStore.PointerRoundTrip | internal/certs/store.go:209-219 | writing a bundle id to the pointer file and reading it back gives that id |
| CertStore.PointerIgnoresSpace | internal/certs/store.go:209-219 | spaces and line ends around the id in the pointer file do not matter |
| CertStore.RotationIdsAreBundleIds | internal/certs/store.go:32-32 | every generated rotation id is a bundle id, and no bundle id is empty, longer than 64 or holds a path separator or a dot |
| CertStore.PointerAfter | internal/certs/store.go:131-157 | after a successful activation the pointer file names the request's complete bundle, after a successful rollback the recorded one; an operation that does not succeed changes nothing |
| CertStore.RollbackUndoesActivate | internal/certs/store.go:131-157 | rolling an activation back restores the bundle that was selected, also when there was no pointer or an unreadable one |
| CertStore.WriteFilesTouchOneBundle | internal/certs/store.go:221-233 | writing an enrollment bundle, in any file order and with any faults, touches only that bundle; when it succeeds every file is in place |
| CertStore.EnrollmentActivatesAllOrNothing | internal/certs/store.go:50-66 | enrollment either makes exactly the given, matching files active or leaves the active bundle alone |
| CertStore.EnrollmentSucceedsExactlyWhen | internal/certs/store.go:50-66 | with working writes an enrollment succeeds exactly for a certificate that is for the key, from the CA and good for 86400 seconds; any other changes nothing |
| CertStore.FailedEnrollmentCleansUp | internal/certs/store.go:58-65 | an enrollment that fails after its directory was made removes it again |
| CertStore.DiscardRemovesOneBundle | internal/certs/store.go:159-168 | a discard that works removes exactly its bundle and never the active one; one that stops half-way removes only files of it |
| CertStore.Store.ActiveCert | internal/certs/store.go:180-188 | the certificate of the active bundle, or the legacy one |
| CertStore.Store.ReadPointer | internal/certs/store.go:209-219 | the pointer read from the file is the one the specification sees |
| CertStore.Store.Save | internal/certs/store.go:50-66 | the enrollment save, step by step, equal under every fate to the function that `EnrollmentSucceedsExactlyWhen` is about |
| CertStore.Store.PrepareRotation | internal/certs/store.go:70-106 | the returned request is the one in the bundle; what is in it, `PrepareMakesAFittingRequest` says |
| CertStore.Store.StageRotation | internal/certs/store.go:110-128 | certificate and CA are written only after the checks that `ApplySucceedsExactlyWhen` lists |
| CertStore.Store.ActivateRotation | internal/certs/store.go:131-143 | the pointer moves only to a complete bundle, and the answer is what it replaced |
| CertStore.Store.RollbackTo | internal/certs/store.go:145-157 | the recorded pointer comes back, or the pointer file goes |
| CertStore.Store.DiscardRotation | internal/certs/store.go:159-168 | a bundle is removed, possibly in part, unless the pointer file names it |
| Agents.Agent.SaveCredentialConfig | internal/agent/credentials.go:28-54 | a successful save puts the configuration on disk and its seventeen credential fields in memory; a failed one changes neither |
| Agents.Agent.BeginCredentialRequest | internal/agent/credentials.go:64-90 | the request step, equal to its specification under every fate |
| Agents.Agent.ApplyCredentialRotation | internal/agent/credentials.go:165-237 | the apply step, equal to its specification under every combination of failures and deaths |
| Agents.Agent.ResumePendingCredentialCutover | internal/agent/credentials.go:241-272 | the resume step, equal to its specification under every fate |
| Agents.Agent.RecordCredentialFailure | internal/agent/credentials.go:315-338 | the failure record, equal to its specification under every fate |
| Agents.Agent.HandleTunnelConfig | internal/agent/handler.go:1070-1085 | the tunnel save, equal to its specification under every fate |
| Agents.Agent.CredentialExpiry | internal/credentials/status.go:47-75 | the expiry of the token or of the active certificate, by mode |
| Agents.Agent.RecoverCredentials | internal/agent/credentials.go:274-313 | exactly which steps it takes and how it ends, for every combination of faults: after a working resume it requests if forced or expired, if there is a renewal token and the retry time has come; it applies the answer; each failure is recorded under its own code; all steps are admitted |
| Agents.Agent.RequestAndApply | internal/agent/credentials.go:290-313 | the exchange in the same terms |
| Agents.Agent.MaybeRequestCredentialRenewal | internal/agent/credentials.go:92-130 | exactly when a request is sent: one is pending, there is no renewal token, or the expiry is at most thirty days away, and the retry time has come; which failure is recorded otherwise |
| Agents.Agent.HandleCredentialRotation | internal/agent/credentials.go:132-155 | a rejection is recorded and clears what is pending, a response is applied, and it asks for a reconnect exactly when the apply succeeded |
| Renewal.ApplySucceedsExactlyWhen | internal/agent/credentials.go:165-185 | with working writes an apply succeeds if and only if the response answers the pending request, is complete, and its certificate is for the local key, from its CA, for this server and good for 86400 seconds, and in token mode its token agrees with it and lasts as long; otherwise nothing changes |
| Renewal.PrepareMakesAFittingRequest | internal/certs/store.go:70-106 | a new request holds the new key and this server, an existing one is kept with its key, a failed call leaves none, and exactly when the call succeeds |
| Renewal.RequestsAlwaysFit | internal/certs/store.go:85-106 | over every run with any failures, every request made in it is for this server and for the key beside it |
| Renewal.BeginWrites | internal/agent/credentials.go:64-90 | what a request changes in the configuration, with its retry 300 seconds later; a failed one changes nothing |
| Renewal.RequestRoundTrip | internal/agent/credentials.go:64-237 | the certificate issued for the request that was sent is accepted exactly when the key of the request is still there, and then the agent presents it with that key and the new values |
| Renewal.AppliedCredentialsLast | internal/credentials/status.go:47-75 | after an apply that worked the presented credential expires when the response says, at least a day later |
| Renewal.ExpiryFallsBack | internal/credentials/status.go:47-65 | in token mode a token with subject and expiry counts, otherwise the active certificate; without them the configured expiry |
| Renewal.RecoveryRenews | internal/agent/credentials.go:274-313 | an expired agent whose request is answered ends with the new key, certificate and values in use |
| Renewal.ValidCredentialsAreLeftAlone | internal/agent/credentials.go:279-286 | before the expiry and with nothing pending a recovery that is not forced changes nothing |
| Renewal.ResumeActsExactlyWhen | internal/agent/credentials.go:241-272 | a resume does something exactly when id, renewal token and expiry of a record are there, succeeds exactly when its two writes work and the bundle is complete, and then installs the record and clears it; and exactly when it is cut off |
| Renewal.ApplyClearsTheRequest | internal/agent/credentials.go:206-221 | after an apply that worked nothing is pending, no error is noted and the renewal endpoint is set |
| Renewal.FailureIsRecorded | internal/agent/credentials.go:315-338 | what the record of a failure changes: status, code, attempts, retry time, and, when it clears, the request and its bundle |
| FailureCodes.SafeCodesAreKnown | internal/agent/credentials.go:371-404 | every stored code is one of the known ones, and known codes are stored as they are |
| FailureCodes.JunkIsCleaned | internal/agent/credentials.go:371-381 | characters outside letters, digits, underscore and hyphen do not matter |
| Renewal.StoredCodesAreKnown | internal/agent/credentials.go:315-338 | over every run that records known codes, as every call of the agent does, no other text gets into the configuration |
| Renewal.FailedApplyDropsItsBundle | internal/agent/credentials.go:192-223 | an apply that fails after its staging and undoes itself removes the key and request of its bundle; one that fails in its staging keeps them |
| Renewal.HalfRemovedRequestStalls | internal/agent/credentials.go:330-337 | a clearing record whose save fails and whose removal stops after the key leaves a request that is sent again and never accepted |
| Renewal.ApplyDiesExactlyWhen | internal/agent/credentials.go:183-236 | exactly which write or removal a cut-off apply died in, given which before it worked or failed |
| Renewal.RecordDiesExactlyWhen | internal/agent/credentials.go:315-338 | the same for the record of a failure |
| Renewal.RenewalGoesToTheHost | internal/agent/credentials.go:406-415 | without a configured endpoint the host of the control channel is asked, less a leading "grpc." |
| Cutover.ResumeShape | internal/agent/credentials.go:241-272 | a resume either finishes with the pointer on the pending bundle or leaves the configuration and moves the pointer at most between the three recorded places |
| Cutover.CommitShape | internal/agent/credentials.go:206-236 | every ending of the final save and its two-step rollback |
| Cutover.SwitchShape | internal/agent/credentials.go:197-236 | every ending of an apply once its pending record is saved |
| Cutover.ApplyShape | internal/agent/credentials.go:165-237 | an accepted apply undoes itself, records the switch, finishes it, or tears; exactly which faults tear it, and after exactly which it returns an error with the record still saved |
| Cutover.ApplyTearsExactlyWhen | internal/agent/credentials.go:221-235 | in every state a run reaches, an accepted apply tears if and only if the final save fails, the pointer rollback fails and the configuration rollback works; without these failures the cutover stays atomic, and with them it does not, provided no grant for this request carries the live values |
| Cutover.RecordKept | internal/agent/credentials.go:197-231 | an apply whose configuration rollback fails leaves the record of the switch in a running process, still atomic; with the pointer rollback failed too, the pointer file names the new bundle |
| Cutover.SecondResponseBreaksAKeptRecord | internal/agent/credentials.go:183-186 | after such an apply, a second response for the same request that dies between its certificate and its CA leaves a bundle of no grant, so the cutover is not atomic |
| Cutover.RejectionBreaksAKeptRecord | internal/agent/credentials.go:315-338 | after such an apply with the pointer still switched, a rejection clears the record, so the new bundle is active with the old values |
| Cutover.CutoverIsAtomic | internal/agent/credentials.go:165-272 | at every moment of every admitted run, with a crash possible before any write and any failures but the two patterns above, the files the agent connects with and its live values come from one grant, or the saved record names the two grants the switch is between, both intact |
| Survival.AnyApply | internal/agent/credentials.go:165-237 | whatever fails, an apply leaves one of three configurations, moves the pointer at most to its own bundle, and keeps the pointer on a complete bundle |
| Survival.ResumedPointer | internal/certs/store.go:131-143 | a resume that moved the pointer had found the pending bundle complete |
| Survival.PointerNeverIncomplete | internal/certs/store.go:131-188 | under any number of failed writes and crashes and in any order of steps, the active pointer never names an incomplete bundle |
| Survival.ValuesNeverMix | internal/agent/credentials.go:187-265 | under the same conditions the four live values come from one grant, and so do the four values of a pending record |
| Grants.GrantsAreTrustworthy | internal/agent/credentials.go:171-185 | every response ever installed had a certificate for the local key, its CA and this server, and in token mode a token with the same expiry, generation and subject, and both had a day left at the step that accepted them; server identity and settings never change |
| Grants.ActiveFilesAlwaysMatch | internal/certs/store.go:180-188 | at every moment of an admitted run the agent connects with a certificate that matches its key and its CA |
| Grants.EnrollmentStartsARun | cmd/enroll.go:79-115 | a successful enrollment followed by its saved configuration is a state from which the run theorems start |
| Recovery.FailedApplyUndoesItself | internal/agent/credentials.go:183-236 | with contained failures, so with any single failed write, an accepted apply succeeds exactly when its five forward writes work, and otherwise leaves configuration, pointer and every other bundle as before, in every state |
| Recovery.FailedApplyUndoesItselfExactlyWhen | internal/agent/credentials.go:183-236 | in the states of a run, an apply that returns an error has restored configuration and pointer if and only if its failures were contained |
| Recovery.ResumeFinishesApply | internal/agent/credentials.go:241-272 | wherever an apply was cut off, if its record is on disk then a fault-free resume reaches the uninterrupted result, but for the success time and a renewal endpoint with the same effect |
| Pacing.BackoffIsCappedDoubling | internal/agent/credentials.go:340-352 | the backoff is the smaller of 2^(n-1) minutes and a day for every attempt, despite the clamp |
| Pacing.BackoffDoubles | internal/agent/credentials.go:340-352 | one minute, then twice as long after each attempt, at most a day |
| Pacing.RequestsArePaced | internal/agent/credentials.go:287-293 | between successes, the request after the one that made the count n begins at least min(300 s, backoff(n)) later, whatever is recorded, applied in vain or restarted in between |
| Isolation.StepErases | internal/agent/credentials.go:28-54 | a credential step does the same whatever the tunnel fields are |
| Isolation.NoLostUpdate | internal/agent/handler.go:1070-1082 | over any interleaving with failing saves and crashes, memory equals disk, credential state is that of the run without its tunnel updates, the tunnel fields are those of the last successful update, identity never changes |
| LiveStreams.StreamRouter.Attach | internal/agent/stream_router.go:47-53 | the new stream is live |
| LiveStreams.StreamRouter.Detach | internal/agent/stream_router.go:57-63 | only the detached stream itself is cleared, as in the interleaving |
| LiveStreams.AnswersPartition | internal/agent/handler.go:137-151 | every message of a drained batch is sent, re-queued or dropped as poison, exactly once |
| LiveStreams.ResultQueue.QueuePendingResult | internal/agent/handler.go:114-122 | a result joins the end of the queue unless 64 are there |
| LiveStreams.ResultQueue.DrainPendingResults | internal/agent/handler.go:126-152 | an undisturbed drain keeps exactly the broken sends, in order, and reports the others |
| Relay.ReportsAreConserved | internal/agent/handler.go:113-152 | in every interleaving every report handed in is at each moment exactly once queued, in flight, accepted, dropped as poison or dropped for room, and the queue holds at most 64 |
| Relay.DropsNeedOverload | internal/agent/handler.go:114-122 | nothing is dropped for room in a run in which never more than 64 reports are outstanding |
| Relay.EachEndHasItsCause | internal/agent/handler.go:137-151 | a report is accepted only by a send that worked and dropped as poison only after a poison answer |
| Relay.EveryReportIsAccountedFor | internal/agent/handler.go:395-454 | once all goroutines have returned, each report was accepted by a stream, is queued, or was dropped as poison or at a full queue |
| Relay.SendsFollowTheLiveStream | internal/agent/stream_router.go:41-63 | in every reachable state the current stream is the last attached one unless that was detached, and a goroutine sends exactly while it holds that stream's lock |
| Relay.EveryStreamIsFresh | internal/agent/stream_router.go:47-63 | in every reachable state each stream was attached once, detached only afterwards, and is locked or used only after its attach |
| Relay.ReportsGoToTheStreamThatWasLive | internal/agent/stream_router.go:65-88 | in every reachable state, a report about to be sent or being sent was handed in at a moment when exactly the stream it goes to was live |
| Relay.NoStreamOnlyIfNoneWasLive | internal/agent/stream_router.go:65-73 | a report fails for want of a stream only if none was live when it was handed in |
| Relay.TheStreamMayBeReplacedMeanwhile | internal/agent/stream_router.go:65-73 | from every state with a live stream, a report handed in can be sent on that stream after a newer one became live |
| Relay.OneSendPerStream | internal/agent/stream_router.go:19-34 | no stream has two sends in progress |
| SelfUpdate.MoveInKeepsTheProgram | internal/selfupdate/selfupdate.go:426-446 | the two renames and their rollback never lose the program |
| SelfUpdate.ReplaceNeverLosesTheProgram | internal/selfupdate/selfupdate.go:413-447 | at every point and after any failures the old program is at the path or beside it, or the complete new one is in place; never a partial one; success means the new one; one failure means the old one |
| SelfUpdate.ReplaceSucceedsExactlyWhen | internal/selfupdate/selfupdate.go:413-447 | a replacement succeeds exactly when its copy, mode change and renames work and it does not die; with working removals it then leaves no other trace |
| SelfUpdate.FailedReplaceCleansUp | internal/selfupdate/selfupdate.go:421-432 | a replacement that fails in place removes what it staged |
| SelfUpdate.ExecutableMissingExactlyWhen | internal/selfupdate/selfupdate.go:426-441 | the exact faults after which nothing is at the executable path, and the exact ones after which an error leaves the old program in place |
| SelfUpdate.UpdateNeverLosesTheProgram | internal/selfupdate/selfupdate.go:240-283 | through backup, install and restore, with any failures, the old program is at the path or in the backup, or the complete new one is installed; a failed update with at most one failed operation leaves the old program running; what a death leaves in the backup; and the exact faults that leave nothing at the path |
| SelfUpdate.InstallKeepsTheProgram | internal/selfupdate/selfupdate.go:271-283 | from the backup on: the same for install and restore |
| SelfUpdate.PhaseSaysWhatFailed | internal/selfupdate/selfupdate.go:240-283 | the error of a failed try names the step that failed |
| SelfUpdate.FailedReplaceLeavesOld | internal/selfupdate/selfupdate.go:426-441 | a replacement that returns an error has not put the new program in place |
| Versions.ParseSemverReadsReleases | internal/selfupdate/selfupdate.go:49-62 | parsing inverts the writing of a release X.Y.Z, with or without a leading v and a hyphenated suffix |
| Versions.ParseSemverReadsParts | internal/selfupdate/selfupdate.go:49-62 | any text with two dots is read part by part, each as Atoi reads it |
| Versions.AtoiReadsNumbers | internal/selfupdate/selfupdate.go:55-60 | a number with or without a sign is read as it is, and cut off at the ends of the 64-bit range |
| Versions.AtoiRejectsJunk | internal/selfupdate/selfupdate.go:55-60 | a number with anything else after it, a lone sign and the empty text read as 0 |
| Versions.DowngradeIsEarlierRelease | internal/selfupdate/selfupdate.go:65-76 | among releases exactly the earlier ones are refused; a leading v and a suffix do not count |
| Versions.UnreadableVersionsRankLast | internal/selfupdate/selfupdate.go:49-76 | a text with fewer than two dots ranks as 0.0.0: a release other than 0.0.0 refuses it, and it refuses no release |
| SelfUpdate.BinaryDir.ReplaceFile | internal/selfupdate/selfupdate.go:413-447 | the replacement, file by file, equal to its specification |
| SelfUpdate.BinaryDir.BackupThenApply | internal/selfupdate/selfupdate.go:240-283 | backup, install and restore, equal to their specification |
| SelfUpdate.BinaryDir.RollbackBinary | internal/selfupdate/selfupdate.go:287-305 | without a backup nothing happens, otherwise the backup replaces the binary |
| UpdateLifecycle.AttemptsKeepTheProgram | internal/agent/handler.go:868-897 | however many tries it takes and whatever fails, for every ending: what is at the executable path, what is in the backup, and exactly when there is nothing at the path |
| UpdateLifecycle.RetriesExactlyDownloads | internal/agent/handler.go:870-898 | another try follows exactly a failed download, at most three times, and not if the context ends in the wait; the ending is the last answer |
| UpdateLifecycle.InstalledExactlyWhen | internal/agent/handler.go:868-898 | an update is installed at a given try if and only if that try works, each one before it fails only in its download, and no wait is cancelled |
| UpdateLifecycle.UpdateEndings | internal/agent/handler.go:842-915 | installed, cancelled and interrupted updates leave a pending state with no attempts, one that gives up leaves none; the program and the backup each ending leaves |
| UpdateLifecycle.StartupsDecideTheUpdate | internal/agent/agent.go:381-415 | from any pending state and for every sequence of connectivity answers: three failures change nothing but the count, one success among the first three removes the backup and the state for good, otherwise the fourth startup installs what the backup holds and clears the state |
| UpdateLifecycle.InstalledUpdateIsKeptOrUndone | internal/agent/agent.go:381-415 | after an installed update, three failed checks keep the new program, the fourth startup restores the old one, and one passed check among the first three keeps the new one for good |
| UpdateLifecycle.UpdateKeepsAProgramExactlyWhen | internal/agent/handler.go:853-897 | for every ending of an update, whatever fails or dies in it, and every sequence of startups: the old or a complete new program is at the executable path if and only if the update left something there and it is not the case that it died in the backup copy with neither of these in the backup and the fourth startup rolled back to it |
| UpdateLifecycle.SpoiledBackupIsInstalled | internal/agent/agent.go:393-402 | a death in the first backup copy and three failed startups install what the copy, or an earlier update, left in the backup |
| UpdateLifecycle.TornBackupIsInstalled | internal/agent/agent.go:393-402 | the same with numbers: program 1 updated to 2 ends as 7, which is neither |
| UpdateLifecycle.FourthStartupRestoresExactlyWhen | internal/agent/agent.go:393-402 | the exact operations that must work for the fourth startup to restore the old program |
| UpdateLifecycle.Updates.HandleUpdate | internal/agent/handler.go:842-915 | the retry loop, equal to its specification for every sequence of tries |
| UpdateLifecycle.Updates.CheckPendingUpdate | internal/agent/agent.go:381-415 | the startup check, equal to its specification |
| Deploys.RunHttpHealthChecks | internal/deploy/deployer.go:878-951 | succeeds exactly when some check passes before the retries and the context end, after exactly the failed checks before it; then reports active once; stops the container exactly when all checks fail and the context lives |
| Deploys.WaitForCompanions | internal/deploy/deployer.go:204-255 | succeeds exactly when all companions are ready at a poll before the deadline and the end of the context |
| Deploys.WaitForDockerHealthy | internal/deploy/deployer.go:847-875 | succeeds exactly when the first decisive poll before the deadline says healthy |
| Deploys.WaitForPort | internal/deploy/deployer.go:720-838 | succeeds exactly when the first decisive poll finds the port open and, for a database, Docker confirms; removes the container exactly when that poll finds it exited or the port never opens |
| Deploys.FindAddress | internal/deploy/deployer.go:568-606 | three tries for the address, stopping the container exactly when it is found exited before it has one |
| Deploys.CheckHealth | internal/deploy/deployer.go:653-844 | which check decides, and that exactly a success reports active once |
| Deploys.Judge | internal/deploy/deployer.go:526-844 | from the crash check to the verdict only the new container may be stopped, and exactly on the answers of `IsHopeless` a failure removes it |
| Deploys.Launch | internal/deploy/deployer.go:453-499 | a container is started, or adopted on a name conflict, exactly when the answers allow it, and which failure is returned otherwise |
| Deploys.Replace | internal/deploy/deployer.go:453-680 | in blue-green mode the old container goes last, after a passed check, and only on success |
| Deploys.Deploy | internal/deploy/deployer.go:265-844 | for every sequence of answers: success exactly on the answers of `Succeeds` and exactly when active was reported once; with a health path, without volumes and with a different new container, the old one is stopped only after a passed HTTP check and the report that the new one is active, and never on failure; in every other mode it is stopped before anything is started; the new container is started or adopted as Docker answered, then reported as being checked, then judged; a failure removes the new container exactly on the answers of `IsHopeless` |
| DockerArtifacts.OwnedExactlyWhen | internal/docker/client.go:1002-1024 | an artifact counts as owned exactly when its labels say managed, version 1, a fitting type, and a deployment and a service |
| DockerArtifacts.OwnershipKeepsLabels | internal/docker/client.go:1002-1012 | the other fields are the labels of their names |
| Inventories.BuildDockerArtifactInventory | internal/docker/client.go:1026-1109 | the loops compute the specified inventory |
| Inventories.InventoryIgnoresListingOrder | internal/docker/client.go:1092-1093 | with distinct ids the inventory does not depend on the order of the snapshot |
| Inventories.InventoryIsBoundedAndHonest | internal/docker/client.go:1092-1108 | it holds the smallest ids in order, true totals, and is complete exactly when nothing was cut |
| Inventories.ReferencesSurviveTheCut | internal/docker/client.go:1030-1089 | an image's users and running mark come from all containers, also when their list is cut |
| CleanupPlans.CollectRefs | internal/docker/client.go:1160-1170 | the usable tags and digests of an image, tags first |
| CleanupPlans.SortedKeys | internal/docker/client.go:1255-1262 | the sorted list of the keys, whatever order the map gives them in |
| CleanupPlans.ComputeCleanupPlan | internal/docker/client.go:1111-1234 | stopped containers, unused and untagged images and idle cache, their counts, the sums of their positive sizes and the total, as specified; no plan without disk usage |
| CleanupPlans.PlanListsTheSnapshot | internal/docker/client.go:1125-1234 | the stopped entries are the containers with an id that do not run; which tags and digests are usable references; the inventory is cut at two thousand |
| CleanupPlans.PlanAddsUp | internal/docker/client.go:1125-1215 | the byte sums are those of the positive sizes of containers that do not run and cache entries not in use, and the cache count is theirs |
| CleanupPlans.PlanIsAPartition | internal/docker/client.go:1152-1199 | the counts of the five classes add up to the listing, and the untagged count and the unused entries of the plan are two of them |
| CleanupPlans.UnusedEntriesAreUnused | internal/docker/client.go:1152-1199 | no unused entry has a protected reference or a running user, and no item of the inventory in the same plan marks its image in use |
| CleanupPlans.InventoryUseIsPlanUse | internal/docker/client.go:1033-1041 | the two passes agree on running images except for those whose running containers all lack an id |
| LogFrames.StripDockerStreamHeaders | internal/docker/introspect.go:183-203 | the batch decoder's result for every input |
| LogFrames.TailFrames | internal/logs/collector.go:158-193 | the streaming decoder's frames for every input |
| LogFrames.StripInvertsEncode | internal/docker/introspect.go:183-203 | stripping an encoded list of frames gives the concatenated payloads |
| LogFrames.StripOfACutIsAPrefix | internal/docker/introspect.go:183-203 | on a stream cut anywhere the result is a prefix of the payloads once a payload byte arrived, and when it is payload at all |
| LogFrames.StreamInvertsEncode | internal/logs/collector.go:158-193 | the streaming decoder delivers every non-empty frame with its stream type, in order |
| LogFrames.StreamIsAPrefixOfBatch | internal/logs/collector.go:158-193 | on every byte string its payload is a prefix of the batch result, and equal exactly when the data do not end inside a payload |
| LogFrames.OriginalIsReturnedExactlyWhen | internal/docker/introspect.go:198-201 | the input comes back unchanged exactly when it is shorter than a header |
| HelperImage.OnePullForAllBackups | internal/backup/executor.go:75-101 | in every interleaving there is one token or one holder, at most one pull completes, and every successful ensure finds the image present |
| HelperImage.AtMostOnePull | internal/backup/executor.go:75-101 | at most one pull of a whole run works |
| HelperImage.TheTokenComesBack | internal/backup/executor.go:82-87 | when nobody holds the token any waiting caller can take it, and a caller that holds it can always go on |
| HelperImage.OneHolder | internal/backup/executor.go:82-87 | at most one image check or pull is in progress |
| HelperImage.StartsOnlyAfterItsOwnEnsure | internal/backup/executor.go:75-109 | a caller that may start or has started a container had its own check find the image or its own pull work, and after that its own ensure return success |
| HelperImage.Coordinator.Ensure | internal/backup/executor.go:75-101 | the token comes back on every path; success exactly when the image was there or the pull worked; a pull only when the image was missing |
| HelperImage.Coordinator.RunAlpineHelper | internal/backup/executor.go:103-109 | a container starts exactly when the ensure succeeded and Docker runs it |

## Left out

- Cryptography, X.509, PEM and JWT parsing: keys, certificates, authorities and token claims are symbols; a certificate records its key, issuer, server and expiry, and validity is the predicate `ValidBundle`; the start of a validity period is not modelled.
- Parsing of the gRPC address: an `Endpoint` carries the host that `SplitHostPort` or `url.Parse` finds in it.
- The remove-then-rename fallback of `SaveConfig` and `atomicWrite`: a failed atomic write has no effect.
- Config, state and pointer files that cannot be read although they exist: reads are reliable.
- An enrollment command run beside a running agent, and a crash between its two saves.
- Logging, message texts, proto fields, gRPC, HTTP, the Docker client, Traefik, cloudflared and Tailscale: their answers are inputs.
- Sleeps, tickers and timeouts: only times stored in state are modelled; a deadline is a number of polls.
- Deploys.Deploy: labels, environment, ports, commands, volumes and resource limits of the container are not modelled, because they do not influence which containers are started or stopped or what is reported.
- HelperImage.Coordinator.Ensure: a call with the token available; waiting for the token is the subject of the interleaving.
- LogFrames.TailFrames: the split of a payload into lines and the bounded output channel are not modelled.
- SelfUpdate.BinaryDir.BackupThenApply: the executable is not itself named clank-agent.prev, and download, checksum, signature and extraction are one answer with the failing phase.
- Inventories.InventoryIgnoresListingOrder: requires distinct ids, because `sort.Slice` does not fix the order of equal ones.
- The seen-deployment and active-slug guards, network pruning, metrics, log tailer bookkeeping, backup retention and endpoint providers: they would add easy members only.
