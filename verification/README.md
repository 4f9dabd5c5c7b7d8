# Verified models of the deployer, the OAuth refresh and their neighbours

This project models the stateful protocols of the repository and the small algorithms around them, and
proves what they keep over every run, every input and every failure of a command. `dafny verify
dfyconfig.toml` checks it.

- **Task leases** (`DeployTasks.dfy`, `DeployRuns.dfy`): the tables of builds and deployments that many
  servers claim, renew, expire and finish. Each SQL statement is one guarded step.
- **OAuth refresh** (`OAuthFiles.dfy`, `OAuthRuns.dfy`): any number of processes share the credentials
  file, the directory lock and the dead-chain marker, against a server that rotates refresh tokens.
  A call is cut at its awaits; what lies between two awaits is one step.
- **Container rollback** (`ContainerRollback.dfy`): a registry of named containers in which every docker
  command can fail, or take effect and still report an error, or be cut short by a lost lease.
- **Release swap** (`ReleaseSwap.dfy`): the directory swap of a systemd release, layout by layout.
- **Pipeline state** (`TaskPipeline.dfy`) and **log tail** (`LogTail.dfy`) of the deployer's logging.
- **Terminal bridge** (`LeaseStore.dfy`, `PtyBridge.dfy`): single-use leases with a time to live, and the
  interleavings of socket close with sandbox connect and PTY creation.
- **Parsers and transformers**: mountinfo (`MountInfo.dfy`), the Caddy block filter (`CaddySites.dfy`),
  the environment-file sanitiser (`EnvFile.dfy`), the build fingerprint (`BuildFingerprint.dfy`), the deep
  truncator (`TruncateDeep.dfy`). `Text.dfy` has the line, trim, split and number functions of Rust and
  JavaScript they need, `StableSort.dfy` the stable sort.

Code that changes state is a class or a method proved against a function of the old state; the theorems
are about those functions, over whole runs. Every lemma switches Dafny's automatic induction off, so that its
proof is the one written down.

## Where code and promise differ

Each of these is proved, with the exact condition under which the code does keep the promise.

- The adapter's contract (apps/deployer-rs/src/runtime_adapter.rs:12-40) rolls back only after a failure
  that follows the preparation of the rollback. The deployer (apps/deployer-rs/src/worker/deployment.rs:203-339)
  rolls back after every failure, with an empty state if the preparation did not return one. The rollback's
  first command removes whatever has the container's name, so a failure that comes before the preparation
  removes the live container (`EarlyFailureDestroysLiveContainer`), exactly when `DeployDestroysPreviousIff` says.
- A preparation that fails after its rename (a legacy unit that cannot be stopped, or a lost lease) leaves the
  previous container under the rollback name for good, and the rollback reports success
  (`FailedPreparationStrands`, `StrandedForGood`). A
  `docker stop` that takes effect but reports an error leaves it stopped under its own name
  (`LateStopLeavesContainerStopped`). `DeployKeepsServiceIff` has the exact condition for every failure.
- `truncateDeep` calls every second occurrence of an object circular, also where there is no cycle
  (`ExpectedIffUnshared`, `SharedIsCalledCircular`).
- A quoted environment value that ends in a carriage return loses it on the way through the sanitised file
  (`SanitizedFileExact`); a Caddy block that the end of the file cuts off swallows a line when the filtered
  file is filtered again (`FilterTwice`, `OpenFileGrows`).
- A pipeline stage that failed and is started again leaves the state naming a failed stage that runs
  (`NameStaysRightIff`, `RestartBreaksTheName`).
- `activate_systemd` takes a failing existence check for "does not exist". A leftover staging directory that
  is overlooked in this way is copied into, and every whole build is lost (`HiddenStagingLoses`, `SurvivesIff`,
  `SuccessIsTheNewBuildIff`).
- A rotated refresh token that is lost on its way to the disk makes the next refresh declare a chain dead
  that nobody revoked, and every loss can end so, also that of a login which a refresh under way overwrites
  (`SyncIsLostExactlyWithARotation`, `LostRotationKillsTheChain`).

## Model

| member | source | states |
|---|---|---|
| DeployTasks.TaskStore.ExpireStaleTasks | apps/deployer-rs/src/db.rs:33-86 | row by row: in both tables exactly the running rows whose lease has run out become failed, finished now, with the message of the sweep unless they have one; every other row and column stays |
| DeployTasks.TaskStore.FindNext | apps/deployer-rs/src/db.rs:97-106 | the search returns an oldest row that is pending, of this server and not locked, and nothing only if there is none |
| DeployTasks.TaskStore.ClaimNext | apps/deployer-rs/src/db.rs:88-180 | claims an oldest claimable row, or nothing if there is none; fails without a change if and only if another build of the application runs on the server, or another deployment of the environment |
| DeployTasks.TaskStore.RenewLease | apps/deployer-rs/src/db.rs:568-607 | extends the lease exactly of a running row with this token, which stays held, and reports whether there was one; a refusal changes nothing |
| DeployTasks.TaskStore.Succeed | apps/deployer-rs/src/db.rs:329-459 | finishes exactly a running row with this token, which nobody holds afterwards, and reports whether there was one; a refusal changes nothing |
| DeployTasks.TaskStore.Fail | apps/deployer-rs/src/db.rs:381-505 | fails exactly a running row with this token, which nobody holds afterwards, and reports whether there was one; a refusal changes nothing |
| DeployTasks.TaskStore.WithLeaseHeartbeat | apps/deployer-rs/src/worker.rs:355-374 | the loop around the timer and the work, with the sweeps of other servers in between, is the recursive heartbeat the next three lemmas are about |
| DeployTasks.ScheduleBoundsClock | apps/deployer-rs/src/worker.rs:355-374 | under such a schedule everything that happens does so before the wait under way is over |
| DeployTasks.PunctualHeartbeat | apps/deployer-rs/src/worker.rs:355-374 | with a clock that never goes back and renewals at most 60 s plus the delay apart, no sweep of any server, whenever it comes, takes the lease away, and what is returned is the end of the work, good or bad |
| DeployTasks.LostLeaseEndsWork | apps/deployer-rs/src/worker.rs:365-371 | once the lease is lost it never comes back, and the first renewal after it ends the work |
| DeployTasks.LateHeartbeatIsLost | apps/deployer-rs/src/worker.rs:355-374 | the bound is sharp: one second over the lease, a sweep and the next renewal end the work |
| DeployRuns.StepKeepsInv | apps/deployer-rs/src/db.rs:33-607 | every step of every server keeps the invariant that ties rows, tokens, leases and releases together |
| DeployRuns.RunsKeepInv | apps/deployer-rs/src/db.rs:33-607 | so does every run |
| DeployRuns.OneTaskPerSlot | apps/deployer-rs/src/db.rs:88-180 | in every run at most one build of an application runs on a server, and at most one deployment of an environment |
| DeployRuns.RowsAreFenced | apps/deployer-rs/src/db.rs:329-505 | a row changes only by a claim while pending, by running out of its lease, or under its current token while it runs |
| DeployRuns.HolderActs | apps/deployer-rs/src/db.rs:329-607 | what a renewal, a success and a failure make of the row, column by column |
| DeployRuns.TokensAreUnique | apps/deployer-rs/src/db.rs:93-114 | no two rows share a lease token |
| DeployRuns.TerminalRowsStay | apps/deployer-rs/src/db.rs:329-505 | a finished row never changes again, in any run |
| DeployRuns.ExitsBalanceClaims | apps/deployer-rs/src/db.rs:33-505 | a row leaves running exactly once for each claim, but for the one still running |
| DeployRuns.ClaimedAtMostOnce | apps/deployer-rs/src/db.rs:88-180 | a row is claimed at most once, and never again once it has a token |
| DeployRuns.OneCompletion | apps/deployer-rs/src/db.rs:329-505 | in every run from the empty tables at most one completion of a row takes effect |
| DeployRuns.SweepFailsExactlyTheLate | apps/deployer-rs/src/db.rs:33-86 | a sweep fails a running row if and only if more than 900 s have passed since its last committed renewal |
| DeployRuns.BeatingBoundsClock | apps/deployer-rs/src/worker.rs:355-374 | in such a run no event comes later than interval plus delay after the last commit |
| DeployRuns.BeatingClaimKeepsLease | apps/deployer-rs/src/worker.rs:355-374 | in every run with a clock that never goes back in which the claim renews at most interval plus delay after its last commit, it keeps its lease whatever the other servers do and whenever they sweep |
| DeployRuns.FindReusable | apps/deployer-rs/src/db.rs:279-327 | the newest release with this application, fingerprint and server whose build succeeded, or none if there is none |
| DeployRuns.FoundIffRecorded | apps/deployer-rs/src/db.rs:279-327 | in the columns of the tables: none is found if and only if none matches, and what is found is the newest match |
| DeployRuns.FinishedBuildIsReused | apps/deployer-rs/src/db.rs:279-566 | a build that is claimed, recorded and reported as succeeded is reused from then on |
| DeployRuns.HolderMayRecord | apps/deployer-rs/src/db.rs:507-566 | the holder of a build lease is never kept from recording its release |
| DeployRuns.OneReleasePerBuild | apps/deployer-rs/src/db.rs:507-566 | in every run a build has one release at most |
| DeployRuns.ReusedReleaseIsSound | apps/deployer-rs/src/db.rs:279-379 | in every run a release that is found matches, and was recorded by the holder of the lease that completed its build, with the artifact the build reports |
| DeployRuns.LostReleaseIsNeverReused | apps/deployer-rs/src/db.rs:507-566 | a release recorded by a worker that lost its lease is never found, however the run goes on |
| OAuthFiles.SaveThenRead | apps/web/lib/anthropic-oauth.ts:346-389 | what is saved is what the next reader sees, and the fields a refresh does not know survive |
| OAuthFiles.ReadsTheUsable | apps/web/lib/anthropic-oauth.ts:123-151 | credentials are read exactly when access token, refresh token and expiry are all there |
| OAuthFiles.CallAnswers | apps/web/lib/anthropic-oauth.ts:479-508 | which answer a call gives when: no credentials, no token; not due, the access token; due and unmarked, the wait for the lock; due and marked, the access token exactly while more than five minutes are left |
| OAuthFiles.TickAnswers | apps/web/lib/anthropic-oauth.ts:529-565 | a proactive check starts a call exactly for an unmarked token with less than two hours left |
| OAuthFiles.LockAnswers | apps/web/lib/anthropic-oauth.ts:412-436 | the same case split under the lock, ending in a request exactly for a due, unmarked token |
| OAuthFiles.GrantIsSaved | apps/web/lib/anthropic-oauth.ts:294-340 | a grant is on disk with its own lifetime, with the old refresh token if it brought none, and its access token is handed out; if it cannot be written the caller sees the error |
| OAuthFiles.ErrorAnswers | apps/web/lib/anthropic-oauth.ts:271-340 | three attempts at most; an invalid grant marks the chain and hands out the old token only while it is valid; other errors are thrown |
| OAuthFiles.ClaudeDir.Read | apps/web/lib/anthropic-oauth.ts:123-151 | credentials count only with access token, refresh token and expiry all present |
| OAuthFiles.ClaudeDir.GetDeadMarker | apps/web/lib/anthropic-oauth.ts:216-230 | a marker is returned exactly for the token it was written for, and one of another token is cleared |
| OAuthFiles.ClaudeDir.MarkChainDead | apps/web/lib/anthropic-oauth.ts:232-251 | the marker names this token, counting on if it did so before; the credentials stay |
| OAuthFiles.ClaudeDir.SaveCredentials | apps/web/lib/anthropic-oauth.ts:346-389 | the new tokens replace the old and are what is read next, other fields and the marker stay, an unreadable file is replaced |
| OAuthFiles.ClaudeDir.GetValidAccessToken | apps/web/lib/anthropic-oauth.ts:479-508 | a call comes to wait for the lock only with credentials on disk that are due and not marked dead, which it leaves alone; the method is the step CallAnswers and the run theorems are about |
| OAuthFiles.ClaudeDir.RunProactiveRefreshTick | apps/web/lib/anthropic-oauth.ts:529-565 | a tick starts a call only for a token that is not marked dead, leaves the credentials alone, and is the step the run theorems use |
| OAuthFiles.ClaudeDir.RefreshWithLock | apps/web/lib/anthropic-oauth.ts:395-436 | under the lock a request is made only with the credentials on disk, if they are due and not marked dead; this is the step the run theorems use |
| OAuthFiles.ClaudeDir.HandleReply | apps/web/lib/anthropic-oauth.ts:294-340 | a retry changes no file and stays within three attempts, a refreshed token is on disk with the marker gone, an old token is handed out only for a chain now marked dead and outside the buffer; this is the step the run theorems use |
| OAuthRuns.StepKeepsInv | apps/web/lib/anthropic-oauth.ts:395-472 | every step keeps: one call in the critical section; while its request is under way the token on disk is not marked dead, and is the one of the request unless a login replaced it; what is on disk, marked or carried was issued by the server |
| OAuthRuns.RefreshGoesThrough | apps/web/lib/anthropic-oauth.ts:395-472 | nothing keeps a call that finds the token due from refreshing it: it can get the lock, post, save the grant and hand it out |
| OAuthRuns.TickStartsCallIff | apps/web/lib/anthropic-oauth.ts:529-565 | in a run, too, the proactive check starts a call exactly for an unmarked token with less than two hours left |
| OAuthRuns.SyncIsLostExactlyWithARotation | apps/web/lib/anthropic-oauth.ts:294-472 | the newest token stays the one on disk, or about to be saved, if and only if the step loses no rotation: no reply with one, no save of one, no login that a grant under way will overwrite |
| OAuthRuns.NewestTokenOnDisk | apps/web/lib/anthropic-oauth.ts:395-472 | for every interleaving of any number of processes, logins included, that loses no rotation, the token on disk is the newest whenever the lock is free, and a request carries no other unless a login replaced its own while it was under way |
| OAuthRuns.OnlyLoginSupersedes | apps/web/lib/anthropic-oauth.ts:395-472 | a request comes to carry other credentials than those on disk if and only if somebody logs in while it is under way |
| OAuthRuns.NewestTokenPosted | apps/web/lib/anthropic-oauth.ts:395-472 | so in every such run without a login during a request, no request ever carries a rotated-out token |
| OAuthRuns.OnlyRevokedChainsDie | apps/web/lib/anthropic-oauth.ts:232-251 | in such runs the token on disk is marked dead only after the server revoked the chain |
| OAuthRuns.RevokedChainDies | apps/web/lib/anthropic-oauth.ts:232-251 | a chain that the server revokes is marked dead with the next reply |
| OAuthRuns.NewCallDies | apps/web/lib/anthropic-oauth.ts:395-461 | whenever the lock is free and the token on disk is not the newest, the next call gets its chain marked dead |
| OAuthRuns.LostRotationKillsTheChain | apps/web/lib/anthropic-oauth.ts:271-472 | after any event that loses a rotation, a reply lost on whichever attempt and retried or not, a failed save, or a login overwritten, the run can go on so that the token on disk is marked dead though nothing was revoked |
| OAuthRuns.DeadTokenIsNeverPosted | apps/web/lib/anthropic-oauth.ts:216-251 | once marked dead, a token is posted by no process while it stays on disk, in every run, lost replies and failed writes included |
| OAuthRuns.CallersGetValidTokens | apps/web/lib/anthropic-oauth.ts:415-436 | a token handed out without a refresh is the one on disk, valid as long as asked, or that of a dead chain outside the 5 minute buffer |
| OAuthRuns.RejectedCallersGetValidTokens | apps/web/lib/anthropic-oauth.ts:438-461 | after a reply the caller gets the granted token, or the access token its request was made with, and that only outside the buffer and with its chain marked dead |
| OAuthRuns.NoRequestAfterGrant | apps/web/lib/anthropic-oauth.ts:431-436 | once a long-lived grant has come, nobody posts any more, and every call that gets the lock is handed the token on disk |
| OAuthRuns.OneRefreshServesAll | apps/web/lib/anthropic-oauth.ts:395-436 | however many calls find the token due at once, the server grants one refresh |
| ContainerRollback.DocumentedDeployKeepsPrevious | apps/deployer-rs/src/runtime_adapter.rs:12-40 | in every documented deploy the previous container is removed by nothing but discard_rollback after a success; after a failure it is in service if and only if the commands on its way did what ServiceKept says, with and without a rollback state |
| ContainerRollback.RestoreIff | apps/deployer-rs/src/docker.rs:231-253 | the previous container runs again under its name if and only if the looks, the rename and the start work and one of the two removals clears the name; it is never removed, and a reported success means it runs |
| ContainerRollback.VerdictIff | apps/deployer-rs/src/worker/deployment.rs:203-339 | both sequences succeed if and only if every stage, the preparation, the start and the health checks work, with and without a previous container |
| ContainerRollback.ReportIff | apps/deployer-rs/src/worker/deployment.rs:303-324 | and after a failure a good rollback is reported if and only if it started and its commands, or the legacy unit or the note, did their part |
| ContainerRollback.DeployDestroysPreviousIff | apps/deployer-rs/src/worker/deployment.rs:203-339 | in the deployer's own sequence a failure removes the previous container if and only if it came while that still had its name and the rollback's first removal went through |
| ContainerRollback.DeployKeepsServiceIff | apps/deployer-rs/src/worker/deployment.rs:203-339 | after every failure of the deployer's own sequence the previous container is in service if and only if the documented deploy would have kept it so and, without a state, the rollback's first removal did not take it |
| ContainerRollback.LateStopLeavesContainerStopped | apps/deployer-rs/src/docker.rs:218-226 | a stop that takes effect but reports an error is renamed back and never started: even the documented deploy leaves the live container stopped |
| ContainerRollback.EarlyFailureDestroysLiveContainer | apps/deployer-rs/src/worker/deployment.rs:203-339 | an artifact that cannot be verified takes the live container down, and the rollback reports success if and only if the legacy unit starts or the log takes the note |
| ContainerRollback.FailedPreparationStrands | apps/deployer-rs/src/runtime_adapter.rs:366-389 | a preparation in which a step fails after the container was set aside leaves it under the other name and nothing under its own; the rollback reports success if and only if the legacy unit starts or the log takes the note |
| ContainerRollback.StrandedForGood | apps/deployer-rs/src/docker.rs:196-280 | a stranded container is never touched again, by any sequence of later deployments with other ids and any failures |
| ContainerRollback.FirstDeployFallsBackToUnit | apps/deployer-rs/src/runtime_adapter.rs:440-452 | without a previous container a rollback reports success if and only if the legacy unit starts or the log takes the note, and the unit is up exactly if it could be started or was never stopped |
| ContainerRollback.DeployTouchesTwoNames | apps/deployer-rs/src/docker.rs:196-280 | whatever fails, containers of other names are not touched |
| ContainerRollback.DockerHost.RenameContainer | apps/deployer-rs/src/docker.rs:153-168 | moves a container to a free name, or changes nothing |
| ContainerRollback.DockerHost.StopContainer | apps/deployer-rs/src/docker.rs:170-181 | stops exactly this container, and reports success only if it did without an error |
| ContainerRollback.DockerHost.StartContainer | apps/deployer-rs/src/docker.rs:183-194 | starts exactly this container, and reports success only if it did without an error |
| ContainerRollback.DockerHost.RemoveContainerIfExists | apps/deployer-rs/src/docker.rs:262-280 | removes what has the name; a missing container is no error, a failed look is |
| ContainerRollback.DockerHost.ActivateDocker | apps/deployer-rs/src/runtime_adapter.rs:846-881 | starts the new container under a free name; a failed start may leave one that does not run |
| ContainerRollback.DockerHost.PrepareRollbackContainer | apps/deployer-rs/src/docker.rs:196-229 | set aside and stopped, or renamed back if it cannot be stopped; without a container nothing changes |
| ContainerRollback.DockerHost.PrepareRollback | apps/deployer-rs/src/runtime_adapter.rs:366-389 | the container, then the legacy unit, whose failure loses the state |
| ContainerRollback.DockerHost.RestoreRollbackContainer | apps/deployer-rs/src/docker.rs:231-253 | a reported success means that the container set aside runs under the original name; the effect is the one RestoreIff is about |
| ContainerRollback.DockerHost.RollBackRelease | apps/deployer-rs/src/runtime_adapter.rs:428-458 | the failed release is cleared, then the container restored, which runs if success is reported, or the legacy unit started, with a note to the log if that fails |
| ContainerRollback.DockerHost.DiscardRollback | apps/deployer-rs/src/runtime_adapter.rs:460-466 | removes the container set aside, if there is one, and touches no other |
| ContainerRollback.DockerHost.ProcessDeployment | apps/deployer-rs/src/worker/deployment.rs:203-339 | succeeds if and only if every step on the way works and the new container is healthy, and then has it in service; the whole sequence has the effect DeployKeepsServiceIff and DeployDestroysPreviousIff are about |
| ReleaseSwap.ActivationSurvives | apps/deployer-rs/src/runtime_adapter.rs:902-945 | from any layout whose target or .old is whole, and unless a leftover staging directory is overlooked, there is a whole build at every moment, whatever fails and whatever a failure leaves behind; on success the target is the new build |
| ReleaseSwap.SurvivesIff | apps/deployer-rs/src/runtime_adapter.rs:902-945 | over every failure there is: a whole build is there at every moment if and only if the target or .old is whole at the start and no staging directory is left over |
| ReleaseSwap.SuccessIsTheNewBuildIff | apps/deployer-rs/src/runtime_adapter.rs:902-945 | from any layout, an activation that reports success has put the new build in place if and only if no leftover staging directory was overlooked |
| ReleaseSwap.ActivationEnds | apps/deployer-rs/src/runtime_adapter.rs:902-945 | where every activation ends, whatever fails: it succeeds if and only if copy, moves and restart went through; the target then holds what was staged, is gone if only the move in failed, and is untouched otherwise |
| ReleaseSwap.SmoothActivation | apps/deployer-rs/src/runtime_adapter.rs:902-945 | when nothing fails, every layout ends as the new build alone |
| ReleaseSwap.MoveInEnds | apps/deployer-rs/src/runtime_adapter.rs:937-942 | the staged build is in the target if and only if the move works and nothing stands there; otherwise nothing has changed |
| ReleaseSwap.HiddenStagingLoses | apps/deployer-rs/src/runtime_adapter.rs:914-942 | from every layout with a leftover staging directory, a check that overlooks it is enough to lose every whole build while the activation reports success |
| ReleaseSwap.ReleaseDir.Swap | apps/deployer-rs/src/runtime_adapter.rs:902-945 | the program passes through exactly the layouts of the specification, whose end ActivationEnds gives |
| ReleaseSwap.ReleaseDir.RemoveStaleStaging | apps/deployer-rs/src/runtime_adapter.rs:914-918 | a leftover staging directory is removed first, and a failure to do so ends the activation |
| ReleaseSwap.ReleaseDir.CopyPrimary | apps/deployer-rs/src/runtime_adapter.rs:920-925 | the copy passes through a partial directory and may end in one |
| ReleaseSwap.ReleaseDir.RemoveStaleOld | apps/deployer-rs/src/runtime_adapter.rs:928-932 | a leftover .old is removed, and a failure to do so is ignored |
| ReleaseSwap.ReleaseDir.MoveCurrentOut | apps/deployer-rs/src/runtime_adapter.rs:933-936 | the current build becomes .old, or the activation ends |
| ReleaseSwap.ReleaseDir.MoveNewIn | apps/deployer-rs/src/runtime_adapter.rs:937-938 | the staged build becomes the target as MoveInEnds says, or the activation ends |
| TaskPipeline.Pipeline.Start | apps/deployer-rs/src/logging.rs:438-502 | the stage's entry is replaced where it stands, or added and all sorted by order number; it becomes the current one |
| TaskPipeline.Pipeline.Finish | apps/deployer-rs/src/logging.rs:658-689 | exactly the entries of that name get status and message, and a failure is recorded with its kind |
| TaskPipeline.Pipeline.Succeed | apps/deployer-rs/src/logging.rs:504-519 | status succeeded, all failure fields cleared |
| TaskPipeline.Pipeline.Fail | apps/deployer-rs/src/logging.rs:521-537 | status failed; a failure kind already recorded stays |
| TaskPipeline.UpsertEntries | apps/deployer-rs/src/logging.rs:784-791 | after an upsert the entries are the new one and those of other names |
| TaskPipeline.RunsStayOrdered | apps/deployer-rs/src/logging.rs:438-537 | in every run with fixed order numbers, restarts included, stages stay unique and sorted and the current stage is one that runs |
| TaskPipeline.RunsNameTheFailure | apps/deployer-rs/src/logging.rs:658-689 | in every run that starts no stage twice, the failed stage is an entry that failed and the failure kind is its own |
| TaskPipeline.FreshRuns | apps/deployer-rs/src/logging.rs:391-422 | both hold from the preparation of a task on |
| TaskPipeline.FailureIsNamed | apps/deployer-rs/src/logging.rs:658-689 | a stage that fails is named, with its kind |
| TaskPipeline.KindNamesStage | apps/deployer-rs/src/types.rs:495-513 | each failure kind stands for the stages listed for it |
| TaskPipeline.NameStaysRightIff | apps/deployer-rs/src/logging.rs:658-689 | a step keeps the failed stage rightly named if and only if it neither starts that stage again nor finishes it well, nor reports a failure for a stage without an entry |
| TaskPipeline.RunsNameRightlyIff | apps/deployer-rs/src/logging.rs:438-537 | a run with fixed order numbers names its failed stage rightly all along if and only if all of its steps are harmless in that sense |
| TaskPipeline.RestartBreaksTheName | apps/deployer-rs/src/logging.rs:438-502 | such a run: restarting a failed stage leaves the state naming a failed stage that runs |
| TaskPipeline.SuccessStaysClean | apps/deployer-rs/src/logging.rs:504-519 | after a success no later event but a reported failure brings failure fields back |
| LogTail.ReadTailLines | apps/deployer-rs/src/logging.rs:931-981 | for every file, number of lines and chunk size, the result is the last lines of the whole file; the branch that clears the content is dead |
| LogTail.ReadBackwards | apps/deployer-rs/src/logging.rs:946-960 | the loop stops at the start or with more newlines than lines asked, and its chunks make up the end of the file |
| LogTail.DropPartialLine | apps/deployer-rs/src/logging.rs:970-976 | cutting what was read at its first newline does not change the last lines |
| LogTail.TailIsLocal | apps/deployer-rs/src/logging.rs:978-980 | the last lines of a file depend only on what follows any line break that leaves that many newlines |
| LogTail.LastIs | apps/deployer-rs/src/logging.rs:978-980 | the last lines are as many as asked for, or all, and those at the end |
| LeaseStore.Store.CreateLease | apps/e2b-terminal/src/session-store.ts:18-27 | for 90 s the token is answered with this lease, and no other answer changes |
| LeaseStore.Store.ConsumeLease | apps/e2b-terminal/src/session-store.ts:33-46 | the lease is gone and no other is, and it is answered if and only if it is at most 90 s old |
| LeaseStore.Store.CleanExpiredLeases | apps/e2b-terminal/src/session-store.ts:49-56 | the deleting loop keeps exactly the leases that have not expired |
| LeaseStore.CleaningIsInvisible | apps/e2b-terminal/src/session-store.ts:33-56 | with a clock that never goes back, cleaning anywhere and any number of times changes no answer |
| LeaseStore.SingleUse | apps/e2b-terminal/src/session-store.ts:33-46 | over every run a token is answered at most once for each time it was created |
| LeaseStore.AtMostOnce | apps/e2b-terminal/src/session-store.ts:18-46 | with fresh tokens: at most once |
| LeaseStore.NeverTwice | apps/e2b-terminal/src/session-store.ts:33-46 | between two answers for a token, the token was created again |
| LeaseStore.AnswersPush | apps/e2b-terminal/src/session-store.ts:33-46 | what an operation answers depends only on the state the ones before it have left |
| LeaseStore.AnswersAreFresh | apps/e2b-terminal/src/session-store.ts:33-46 | every lease a run answers with was created in the run for the token consumed, before and no more than 90 s earlier |
| PtyBridge.StepKeepsInv | apps/e2b-terminal/src/pty-bridge.ts:34-109 | every event keeps: each PTY has one owner, and whoever holds a PTY is its owner |
| PtyBridge.SocketGetsPty | apps/e2b-terminal/src/pty-bridge.ts:34-109 | a socket that stays open is bridged to the PTY made for it |
| PtyBridge.LateSocketGetsNone | apps/e2b-terminal/src/pty-bridge.ts:69-73 | one that closes while its PTY is being made gets none: the PTY is killed and the call ends |
| PtyBridge.ClosedSocketLosesPty | apps/e2b-terminal/src/pty-bridge.ts:144-153 | when a bridged socket closes, its PTY is killed and its entry gone |
| PtyBridge.LeaksExactlyWhenDropped | apps/e2b-terminal/src/pty-bridge.ts:67-109 | a PTY loses its owner if and only if a greeting throws, a creation fails after all, or a kill fails |
| PtyBridge.LeaksLast | apps/e2b-terminal/src/pty-bridge.ts:144-153 | and then nothing in the bridge ends it, in any run |
| PtyBridge.EveryPtyIsOwned | apps/e2b-terminal/src/pty-bridge.ts:34-109 | in every interleaving without such a drop, a living PTY belongs to a call still running, to an entry whose close is not handled, or to a kill under way |
| PtyBridge.NoPtyOutlivesItsSocket | apps/e2b-terminal/src/pty-bridge.ts:144-153 | once nothing is under way, every living PTY is bridged to an open socket |
| PtyBridge.Bridges.AfterConnect | apps/e2b-terminal/src/pty-bridge.ts:38-50 | from the sandbox's answer to the wait for the PTY is one event; an error whose report throws leaves the socket open |
| PtyBridge.Bridges.AfterCreate | apps/e2b-terminal/src/pty-bridge.ts:67-109 | the guard, the greeting and the new entry are one event: a closed socket gets its PTY killed, an open one an entry, unless the greeting throws; the report of that may throw as well |
| PtyBridge.Bridges.AfterCreateFailed | apps/e2b-terminal/src/pty-bridge.ts:97-104 | a creation reported as failed ends the call, and a PTY it made after all belongs to nobody |
| PtyBridge.Bridges.OnClose | apps/e2b-terminal/src/pty-bridge.ts:144-153 | the entry goes and no other does, and the kill of its PTY is under way |
| MountInfo.SequentialIsSimultaneous | apps/web/lib/workspace-runtime-contract.ts:53-55 | on every string the four passes are one simultaneous decoding |
| MountInfo.DecodeEncode | apps/web/lib/workspace-runtime-contract.ts:53-55 | every path survives the escaping of getmntent(3) |
| MountInfo.EscapesDecode | apps/web/lib/workspace-runtime-contract.ts:53-55 | the four escapes stand for blank, tab, line feed and backslash |
| MountInfo.LongestMatch | apps/web/lib/workspace-runtime-contract.ts:63-103 | the loop decides by the longest mount point that matches and carries ro or rw, the earliest on ties; StateIff says what the answer is |
| MountInfo.StateIff | apps/web/lib/workspace-runtime-contract.ts:84-103 | in the options themselves: true if and only if the innermost mount that holds the target and has ro or rw has ro, false if and only if it has rw and not ro, null if and only if there is none |
| MountInfo.GetMountReadOnlyState | apps/web/lib/workspace-runtime-contract.ts:57-104 | the same for the lines of the file, in the options of the mounts; a blank path gets null |
| MountInfo.ReadOnlyStateUnique | apps/web/lib/workspace-runtime-contract.ts:57-104 | that specification admits one answer only |
| MountInfo.ParseRendered | apps/web/lib/workspace-runtime-contract.ts:67-90 | mount point and options of every mount are recovered from its line |
| MountInfo.LineIsRead | apps/web/lib/workspace-runtime-contract.ts:72-90 | one line of the kernel, read |
| MountInfo.RenderedTable | apps/web/lib/workspace-runtime-contract.ts:57-104 | for every list of mounts, the state read from its table, final newline included, is read-only if and only if the innermost mount that holds the target and carries ro or rw has ro, writable if and only if it has rw and not ro, and null if and only if there is none |
| CaddySites.ScanRun | scripts/sync-generated-caddy.ts:109-132 | the inner loop takes the lines up to the closing brace and always moves forward |
| CaddySites.SiteIff | scripts/sync-generated-caddy.ts:118-124 | a line opens the block of a host if and only if it is white space, the host in letters, digits, stars, dots and dashes, white space and a brace |
| CaddySites.SnippetIff | scripts/sync-generated-caddy.ts:107 | a line opens a snippet if and only if its first character, white space aside, is an opening parenthesis |
| CaddySites.SegmentsDivide | scripts/sync-generated-caddy.ts:99-137 | the scan's division loses no line and consists of ignored lines, snippets and braced site blocks |
| CaddySites.DivisionUnique | scripts/sync-generated-caddy.ts:99-137 | a file has only one such division |
| CaddySites.FilterSites | scripts/sync-generated-caddy.ts:96-137 | the loops write exactly the unblocked site blocks of that division, verbatim and in order |
| CaddySites.BlockedSiteIsDropped | scripts/sync-generated-caddy.ts:96-137 | of two closed blocks, one of them blocked, the other is written, whole |
| CaddySites.FilterFile | scripts/sync-generated-caddy.ts:96-148 | the output is the header and those blocks with an empty line between them |
| CaddySites.FilterTwice | scripts/sync-generated-caddy.ts:96-148 | filtering the output again yields the same blocks if and only if every block was closed and no line ends in a carriage return of its own |
| CaddySites.OpenFileGrows | scripts/sync-generated-caddy.ts:96-148 | a file whose only block is never closed comes back a line longer when the output is filtered again |
| EnvFile.WriteSanitizedEnvFile | apps/deployer-rs/src/config.rs:225-291 | the loops write the sanitised source lines, the forced variables and PORT, or nothing if the source cannot be read |
| EnvFile.SanitizeLine | apps/deployer-rs/src/config.rs:243-270 | blank lines, comments and lines without an equals sign are copied; an assignment is written again, normalised, unless its key is PORT, forced or blocked |
| EnvFile.SanitizeLoop | apps/deployer-rs/src/config.rs:243-271 | the loop over the source lines |
| EnvFile.ForcedLoop | apps/deployer-rs/src/config.rs:273-279 | the loop over the forced variables |
| EnvFile.NormalizedValue | apps/deployer-rs/src/config.rs:337-349 | quotes of one kind around a trimmed value come off, once; any other trimmed value stays |
| EnvFile.AssignmentReadsBack | apps/deployer-rs/src/config.rs:261-265 | a line that is written reads back as the assignment it was written for |
| EnvFile.SanitizedFileReads | apps/deployer-rs/src/config.rs:225-291 | for every source and well-formed policy, the last assignment of PORT is the runtime port, of forced keys the forced value, of blocked email keys nothing, and of all others the normalised source value, less one trailing carriage return |
| EnvFile.EachKeyReads | apps/deployer-rs/src/config.rs:225-291 | key by key, in the fields of the policy: forced values, blocked keys and normalised values as they read back |
| EnvFile.PortReadsBack | apps/deployer-rs/src/config.rs:281 | whoever reads the sanitised file finds the runtime port under PORT, as a number |
| EnvFile.SanitizedFileExact | apps/deployer-rs/src/config.rs:337-349 | it is that value itself if and only if the source value is not quoted with a carriage return before the closing quote, or the key is dropped or absent |
| EnvFile.QuotedReturnIsLost | apps/deployer-rs/src/config.rs:225-349 | a whole file that reads back different: the carriage return inside the quotes is lost |
| BuildFingerprint.OrderIrrelevantIff | apps/deployer-rs/src/fingerprint.rs:75 | every order of the secrets sorts to one list if and only if no id stands for two contents |
| BuildFingerprint.SecretOrderIrrelevant | apps/deployer-rs/src/fingerprint.rs:65-123 | secrets with distinct ids may be resolved in any order: with everything else the same, so is the fingerprint |
| BuildFingerprint.SwapShows | apps/deployer-rs/src/fingerprint.rs:75 | with an id used twice, swapping its two contents shows |
| BuildFingerprint.Lexicographic | apps/deployer-rs/src/fingerprint.rs:75 | ids are ordered character by character, a prefix first |
| BuildFingerprint.ChangedSecretShows | apps/deployer-rs/src/fingerprint.rs:65-123 | equal fingerprints come from the same ids with the same contents |
| BuildFingerprint.ComputeBuildFingerprint | apps/deployer-rs/src/fingerprint.rs:58-124 | the loop hashes and sorts all secrets, or names the first that cannot be read |
| StableSort.SortStable | apps/deployer-rs/src/fingerprint.rs:75 | each class of equivalent elements comes out in its old order |
| StableSort.SortedUnique | apps/deployer-rs/src/fingerprint.rs:75 | a sorted list is determined by its classes |
| TruncateDeep.OneNodePerObject | apps/web/lib/utils.ts:163-205 | the copy has as many nodes as objects were newly met, so none is expanded twice, on every graph, cyclic ones included |
| TruncateDeep.CopyIsBounded | apps/web/lib/utils.ts:92-116 | no path is longer than maxDepth, and every string is short, cut short with its remark, or a remark |
| TruncateDeep.ShortenedIsOk | apps/web/lib/utils.ts:110-116 | a string that is too long keeps its first maxLength characters and says how many are gone; any other value stays |
| TruncateDeep.Remarks | apps/web/lib/utils.ts:99-169 | used-up depth and objects met before are replaced by their remarks |
| TruncateDeep.ExpectedIffUnshared | apps/web/lib/utils.ts:163-205 | the copy is the depth-limited one that ignores what was met before, if and only if no object occurs in that twice |
| TruncateDeep.UnsharedFittingIsUnchanged | apps/web/lib/utils.ts:92-205 | an unshared value within depth and with short strings comes out unchanged |
| TruncateDeep.SharedIsCalledCircular | apps/web/lib/utils.ts:165-169 | [x, x] has no cycle, but its second item is reported as one |
| TruncateDeep.Truncator.TruncateDeep | apps/web/lib/utils.ts:92-205 | the recursive method with its shared seen set computes the specification |
| TruncateDeep.Truncator.TruncateItems | apps/web/lib/utils.ts:172-202 | so do its loops over items and keys |
| Text.LinesCut | apps/deployer-rs/src/logging.rs:978 | Rust's lines of a text cut behind a line break are the lines of the two parts |
| Text.LinesOfUnlines | apps/deployer-rs/src/config.rs:243 | reading back lines that were written one by one loses only a carriage return at their ends |
| Text.SplitJoin | apps/web/lib/workspace-runtime-contract.ts:63-93 | splitting at a separator undoes joining with it |
| Text.SplitUnlines | apps/web/lib/workspace-runtime-contract.ts:66 | splitting a text of whole lines at line feeds gives the lines and an empty rest |
| Text.DecimalReads | apps/deployer-rs/src/config.rs:281 | a number reads back from its decimal digits |

## Left out

- Postgres, docker, systemd, HTTP and file calls themselves: each is one atomic step that succeeds or fails.
- Time columns the statements set beside the modelled ones, log paths, hostnames and health-check results of the task rows.
- Enqueueing is one event with a fresh pending row; cancelling a task is done by code that is not part of this model.
- The reconciler's own reading of a row's token: failing a row takes any token, which covers it.
- A renewal that fails for another reason than a lost lease, which ends the work as well.
- The service loop `tick` with its health state and its order of polling.
- A docker command whose waiting future was dropped by a lost lease takes effect at once or never; a crash of the deployer between two commands is not modelled.
- Containers that stop or restart on their own, bind mounts, ports and labels.
- The systemd adapter's rollback, which does nothing for the state it prepares.
- A second systemd activation after a failed one is covered only through its starting layout; concurrent activations are not.
- Times, durations, log files and file errors of the pipeline state; two handles of one stage that are finished at once.
- UTF-8 in the log tail: it works on bytes, and the newline byte occurs in no multi-byte character. A file that changes while it is read.
- Breaking and stealing of a stale directory lock; the lock is exclusive.
- OAuthFiles.ClaudeDir.RunProactiveRefreshTick: does not model the flag that keeps two ticks of one process apart; the runs have more interleavings for it, and the theorems hold of all of them.
- A credentials write that takes effect and then fails, a marker file that cannot be cleared or read, and the log interval of the proactive refresh.
- Collisions of SHA-256: hashes are injective. Lease tokens, row ids and process ids are fresh.
- A marker lookup and the credentials read before it are one step. Within one process no await lies between them; that no other process writes in between is assumed. A login, too, is one step.
- Terminal input and resize messages.
- MountInfo.DecodeEncode: does not model the escape of `#`, which newer kernels write and the reader leaves as it is. The root mount `/` matches only the path `/`, as in the code.
- The collection of the blocked hosts and the command line of the Caddy script: the set of blocked hosts is a parameter, as are the header lines.
- Creating and protecting the sanitised environment file; values are sequences of characters without encoding.
- The serialisation of the fingerprint: two inputs are the same exactly if their records are.
- TruncateDeep.Truncator.TruncateDeep: covers null, undefined, booleans, numbers, strings, arrays and plain objects only.
- TruncateDeep.OneNodePerObject: does not model dates, regular expressions, errors, symbols, big integers, functions, throwing getters, sparse arrays or the key `__proto__`; record keys keep their given order.
- Lengths are counted in characters of the model, which stand for UTF-16 units in JavaScript.
- The cron service, the preview proxy, the API client and user interface code: plumbing or files outside these protocols.
