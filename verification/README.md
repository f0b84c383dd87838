# AegisWeb control plane: a verified model

AegisWeb lets software agents act on vendor websites under policies, with human approval and an audit trail. This
project models the state machines and algorithms of its API and proves what they promise. Database tables are maps
(rows in reading order where the order matters), the job queue is a map keyed by queue and job id, the clock is an
argument of each call, and the digest, the cipher, the redactor and `toLowerCase`/`trim` are function parameters whose
needed properties are written as predicates (`CollisionFree`, `Authenticated`, `TotalPreorder`).

| files | part of the system |
|---|---|
| `Json`, `StableStringify`, `AuditChain`, `AuditLock`, `AuditRows` | the audit hash chain: canonical text, row digest, `record`, replay, and the promise-chain lock per organization |
| `Workflow`, `WorkflowInvariants`, `WorkflowAnswers`, `Expiration`, `ControlPlane`, `ApproveRace`, `ApproveCount`, `ApproveAlone` | workflow runs, approvals and queue jobs: every service call as one step, then `approve` split at its awaits |
| `RateLimit` | the fixed-window limiter over an insertion-ordered, bounded map |
| `RefreshTokens`, `AccessTokens` | one-time refresh tokens under interleaving; the pruned access-token revocation map |
| `Policy`, `Domains`, `Strings` | policy decisions, risk scores, domain matching |
| `AgentIdentifier`, `Decimal` | slugs and the search for a free identifier |
| `Vault`, `Credentials`, `CredentialCalls`, `CredentialHistory`, `CredentialService` | sealed vendor secrets, rotation, grants, release to a workflow run |
| `Users`, `UserAnswers`, `UserService` | roles and the owners of an organization |

Services that update state are classes (`AuditService`, `Services`, `RateLimiter`, `RefreshTokenService`,
`TokenService`, `CredentialsService`, `UsersService`). Each method is proved equal to a function on the state, `UsersService`
and `CredentialsService` also keep an invariant of their rows, and the main results are lemmas about every sequence of
those functions.

## Findings

Properties that turned out false of the code, each with a witness and the exact condition under which it holds.

- Audit chain: two rows written in the same millisecond are ordered by their random ids when the chain is read back.
  A chain built by `record` verifies exactly when the rows were stamped in the order they were made
  (`AuditChain.RecordedAcceptedIffInOrder`, `AuditChain.SameMillisecondRejected`). One row out of place breaks the
  chain for good.
- Audit lock: the map holds `previous.then(...)`, so the comparison at `apps/api/src/audit/audit.service.ts:73` never
  matches and an organization is never removed from the map (`AuditLock.CleanUpNeverMatches`). Exclusion does not
  depend on it.
- `stableStringify` prints all key orders of a value alike exactly when no object inside it holds two different keys
  that `localeCompare` ties, such as U+00E9 and e followed by U+0301 (`StableStringify.PrintsAlikeIffUntied`). A chain
  survives reordering of its payloads' keys under the same condition (`AuditChain.ReorderingHarmlessIffUntied`). What
  the hash commits to needs no condition on the comparison.
- Rewriting the last row of a chain together with its hash is not detected (`AuditChain.RehashedRowReportedNext`).
- A waiting run need not have a pending approval: `createForRun` moves the run before it inserts the approval, and the
  row may be refused: the action attempt already has an approval (`prisma/schema.prisma:541`), the amount exceeds 32 bits
  (`prisma/schema.prisma:547`, unbounded at `apps/api/src/approvals/approvals.controller.ts:26`), a text or the policy
  JSON contains NUL, or the expiry names no day. See `WorkflowInvariants.StrandedRun`,
  `WorkflowInvariants.LargeAmountStrandsRun`, and `WorkflowInvariants.KeepsPendingUnlessStranding` for the exact
  condition.
- A queued run need not have a start job: `cancel` removes the job before it writes the run, whose row refuses a reason
  with NUL (`WorkflowInvariants.QueuedRunLosesJob`, `WorkflowInvariants.KeepsStartJobsUnlessLosing`).
- QUEUED to FAILED is not in the transition table; a change leaves the table exactly when a worker of the organization,
  or the queue, fails a queued run (`WorkflowInvariants.OffTableIffQueuedFails`).
- Resume job ids identify run and approval only because UUID texts have one length
  (`WorkflowInvariants.ResumeJobIdInjective`, `WorkflowInvariants.ResumeJobIdCollides`).
- Racing approvals add one job unless the queue forgets it between them: the job is added exactly as often as it is
  forgotten, and once more if it is in the queue now (`ApproveCount.AddedAsForgotten`,
  `ApproveCount.ForgottenJobIsAddedAgain`).
- A full rate-limit map forgets its oldest bucket even while the window is open; this is the only way a window is lost
  (`RateLimit.KeptOpenUnlessFirstOfFull`).
- Tightening a policy can loosen a decision, exactly for requests that only the last rule denies: requiring approval
  for such an action turns its denial into an approval request (`Policy.MonotoneUnlessDeniedByDefault`).
- An organization always keeps an owner who is not disabled, but not one who is active: invited owners count
  (`Users.ActiveOwnerLostIff`, `Users.InvitedOwnerLeftAlone`).
- Disabling and enabling an invited user makes the user active without an accepted invitation
  (`Users.EnableAfterDisable`), and an owner who stepped down cannot step up again (`Users.RoleChangedBack`).

## Model

| member | source | states |
|---|---|---|
| `Json.ParseStringify` | apps/api/src/audit/audit-hash.service.ts:36-47 | a reader recovers any well-formed value from its printed text, whatever delimiter follows |
| `Json.EscapeMeans` | apps/api/src/audit/audit-hash.service.ts:46 | exactly which characters of a text are escaped, and the short escapes |
| `Json.ControlEscapeMeans` | apps/api/src/audit/audit-hash.service.ts:46 | the other control characters are escaped by four lower-case hexadecimal digits of their code |
| `Json.ParseRoundTrip` | apps/api/src/audit/audit-hash.service.ts:46 | parsing the printed text of a value gives the value back |
| `StableStringify.SortSorts` | apps/api/src/audit/audit-hash.service.ts:42 | for every comparison that is a total preorder, sorting orders the keys and keeps exactly the same entries |
| `StableStringify.StableIsCanonicalText` | apps/api/src/audit/audit-hash.service.ts:36-47 | the recursive printer prints what plain printing gives for the value with keys sorted at every depth |
| `StableStringify.ParseStable` | apps/api/src/audit/audit-hash.service.ts:36-47 | for every comparison a reader recovers, from the stable text followed by any delimiter, the key-sorted value, which is the printed value up to key order |
| `StableStringify.CanonicalIdempotent` | apps/api/src/audit/audit-hash.service.ts:36-47 | sorting the keys of a value twice is sorting them once |
| `StableStringify.SameTextSame` | apps/api/src/audit/audit-hash.service.ts:36-47 | for every comparison, values that print the same are equal up to key order at every depth |
| `StableStringify.SameTextIffSame` | apps/api/src/audit/audit-hash.service.ts:36-47 | for a value none of whose objects holds two different tied keys, another prints the same exactly when it is equal up to key order at every depth |
| `StableStringify.TiedKeysPrintApart` | apps/api/src/audit/audit-hash.service.ts:42 | any value with tied keys, and the same value with its entries in reverse, have different texts |
| `StableStringify.PrintsAlikeIffUntied` | apps/api/src/audit/audit-hash.service.ts:36-47 | all orders of a value's keys print alike exactly when no object inside it holds two different tied keys |
| `AuditChain.DigestIffSameText` | apps/api/src/audit/audit-hash.service.ts:18-34 | for every comparison, rows whose plain columns agree and whose payloads print alike have one digest, and with a collision-free hash only those do |
| `AuditChain.DigestIffSameFields` | apps/api/src/audit/audit-hash.service.ts:18-34 | with a collision-free hash one digest means that all eight hashed fields agree, payloads up to key order; the converse holds for payloads without tied keys |
| `AuditChain.InsertPosition` | apps/api/src/audit/audit.service.ts:43-55 | a new row lands at one place of the reading order, the end exactly when it sorts last |
| `AuditChain.InsertKeepsOrdered` | apps/api/src/audit/audit-chain-verification.service.ts:19-22 | insertion keeps the rows in reading order |
| `AuditChain.VerifyOrganizationChain` | apps/api/src/audit/audit-chain-verification.service.ts:14-61 | the replay loop accepts exactly the chains whose every link holds, and otherwise reports the first broken link with the expected and found hashes |
| `AuditChain.HashesDistinct` | apps/api/src/audit/audit-chain-verification.service.ts:24-60 | no hash occurs twice in an accepted chain |
| `AuditChain.RecordAcceptedIffSortsLast` | apps/api/src/audit/audit.service.ts:23-58 | a record leaves an accepted chain exactly when the chain was accepted and the new row sorts last |
| `AuditChain.RecordedAcceptedIffInOrder` | apps/api/src/audit/audit.service.ts:23-58 | every chain built from empty by records is accepted exactly when the rows were stamped in the order they were made |
| `AuditChain.SameMillisecondRejected` | prisma/schema.prisma:569-589 | two records of one millisecond whose second id is smaller give a rejected chain |
| `AuditChain.ReorderedPayloadsSameVerdict` | apps/api/src/audit/audit-chain-verification.service.ts:24-60 | for payloads without tied keys, keys handed back in another order change no link and no verdict |
| `AuditChain.ReorderingHarmlessIffUntied` | apps/api/src/audit/audit-chain-verification.service.ts:24-60 | an accepted chain stays accepted under every reordering of payload keys exactly when no payload holds two different tied keys |
| `AuditChain.LastHashFixesChain` | apps/api/src/audit/audit-chain-verification.service.ts:24-60 | two accepted chains with one last hash have the same length and agree in every hashed field of every row |
| `AuditChain.TamperedRowReported` | apps/api/src/audit/audit-chain-verification.service.ts:37-49 | changing a row's hashed content without rehashing is reported at that row, unless the new content prints as before: then nothing is |
| `AuditChain.RehashedRowReportedNext` | apps/api/src/audit/audit-chain-verification.service.ts:37-49 | changing and rehashing a row is reported at the next row, and goes unnoticed exactly for the last row |
| `AuditLock.MutualExclusion` | apps/api/src/audit/audit.service.ts:60-77 | in every interleaving at most one call per organization is between reading the latest row and inserting |
| `AuditLock.ArrivalOrder` | apps/api/src/audit/audit.service.ts:60-77 | a call enters only after every earlier call of its organization has released |
| `AuditLock.InterleavingIsAtomic` | apps/api/src/audit/audit.service.ts:19-77 | the rows of any interleaving are those of undisturbed records made in arrival order |
| `AuditRows.RowsHoldCalls` | apps/api/src/audit/audit.service.ts:23-55 | in every interleaving the rows of an organization are, in reading order, one for each of its calls that has written, and each row carries that call's seven columns, its redacted payload and its stamp |
| `AuditRows.InsertionIsWritten` | apps/api/src/audit/audit.service.ts:43-55 | an insertion makes its call one that has written, with the stamp given, for good |
| `AuditRows.UnknownNeverWritten` | apps/api/src/audit/audit.service.ts:24 | a call with an unknown actor or event type never writes |
| `AuditRows.DigestNamesColumns` | apps/api/src/audit/audit-hash.service.ts:18-34 | the digest is the hash of a text that reads back as an object of eight entries naming the columns |
| `AuditLock.InterleavingVerifiesIffInOrder` | apps/api/src/audit/audit.service.ts:19-77 | so the rows verify exactly when they were stamped in arrival order |
| `AuditLock.CleanUpNeverMatches` | apps/api/src/audit/audit.service.ts:66-75 | an organization is in the lock map exactly when a call was made for it, and no step removes it |
| `AuditLock.NoDeadlock` | apps/api/src/audit/audit.service.ts:60-77 | while a call is unfinished some call can move on, without a handler throwing except for unknown enums |
| `AuditLock.EveryRecordFinishes` | apps/api/src/audit/audit.service.ts:60-77 | without new arrivals every way to go on ends after at most five steps a call, and where it ends every call has released |
| `AuditLock.AuditService.Begin` | apps/api/src/audit/audit.service.ts:60-67 | the code up to the await is the arrival step |
| `AuditLock.AuditService.Resume` | apps/api/src/audit/audit.service.ts:68-70 | after the await the call enters, and unknown enums end it without a row |
| `AuditLock.AuditService.Read` | apps/api/src/audit/audit.service.ts:27-31 | reading the latest hash is the read step |
| `AuditLock.AuditService.Write` | apps/api/src/audit/audit.service.ts:26-55 | hashing and inserting the redacted row is the insert step |
| `AuditLock.AuditService.Finally` | apps/api/src/audit/audit.service.ts:71-76 | the finally block is the release step |
| `WorkflowInvariants.ResumeJobIdInjective` | libs/domain/src/queue.ts:36-38 | resume job ids of UUIDs determine the run and the approval |
| `WorkflowInvariants.ResumeJobIdCollides` | libs/domain/src/queue.ts:36-38 | for ids of other lengths they do not |
| `WorkflowInvariants.EveryChangeAllowed` | libs/domain/src/workflows.ts:64-86 | after any run of calls, every further status change is an edge of the table or QUEUED to FAILED |
| `WorkflowInvariants.OffTableIffQueuedFails` | libs/domain/src/workflows.ts:64-86 | a call changes a run along no edge of the table exactly when the run is queued and a worker of its organization, or the queue, fails it |
| `WorkflowInvariants.TerminalIsFinal` | libs/domain/src/workflows.ts:78-81 | a terminal run keeps its status and completion time whatever is called later |
| `WorkflowInvariants.CompletedExactlyWhenTerminal` | apps/api/src/internal-worker/internal-worker.service.ts:135-228 | in every reachable state the completion time is set exactly when the status is terminal |
| `WorkflowInvariants.QueuedRunHasNoApproval` | apps/api/src/approvals/approvals.service.ts:91-185 | in every reachable state the run of an approval is not queued |
| `WorkflowInvariants.ApproveOnlyResumesWaiting` | apps/api/src/approvals/approvals.service.ts:187-242 | a successful approval always resumes a waiting run, though the table also allows queued runs |
| `WorkflowInvariants.ResumptionsAreApprovals` | apps/api/src/approvals/approvals.service.ts:187-242 | per run, changes from waiting to running, approved approvals and resume jobs ever added are equal in number |
| `WorkflowInvariants.KeepsPendingUnlessStranding` | apps/api/src/approvals/approvals.service.ts:119-151 | a call keeps a pending approval at every waiting run exactly when it does not ask, at a running run with none pending, for an approval whose row is refused: by a column or by the unique attempt |
| `WorkflowInvariants.StrandedRun` | apps/api/src/approvals/approvals.service.ts:119-151 | asking twice about one attempt leaves a waiting run without a pending approval |
| `WorkflowInvariants.LargeAmountStrandsRun` | prisma/schema.prisma:547 | so does asking once about any amount beyond 32 bits |
| `WorkflowInvariants.WaitingRunHasPending` | apps/api/src/approvals/approvals.service.ts:91-312 | over runs of calls that never strand a run, every waiting run has a pending approval |
| `WorkflowInvariants.AfterInv` | apps/api/src/approvals/approvals.service.ts:91-312 | every run of service calls keeps the invariant linking runs, approvals and jobs |
| `WorkflowAnswers.ApproveAnswers` | apps/api/src/approvals/approvals.service.ts:187-242 | after any calls, approve answers Done exactly for a pending approval of the caller's organization whose expiry lies ahead and whose run waits, otherwise the error of the first thing wrong; and what it leaves in each case |
| `WorkflowAnswers.RejectAnswers` | apps/api/src/approvals/approvals.service.ts:244-312 | the same for reject |
| `WorkflowAnswers.OrganizationsKeptApart` | apps/api/src/approvals/approvals.service.ts:325-339 | after any calls, one made for an organization leaves every run, approval and job of every other as it was |
| `WorkflowAnswers.AlwaysJobsNamed` | libs/domain/src/queue.ts:32-42 | after any calls every job's id spells the run, and the approval, it carries |
| `WorkflowAnswers.CreateAnswers` | apps/api/src/approvals/approvals.service.ts:91-151 | an approval with the request's expiry is added exactly for askable requests whose row is taken; else the run waits or nothing changes |
| `WorkflowAnswers.CompleteAnswers` | apps/api/src/internal-worker/internal-worker.service.ts:135-180 | exactly a running run of the worker's organization is completed, with COMPLETED and the time |
| `WorkflowAnswers.FailAnswers` | apps/api/src/internal-worker/internal-worker.service.ts:182-228 | exactly an unfinished run of the worker's organization is failed |
| `WorkflowAnswers.GiveUpAnswers` | apps/api/src/queue/workflow-queue.service.ts:192-230 | the queue fails exactly unfinished runs |
| `WorkflowAnswers.CancelAnswers` | apps/api/src/workflow-runs/workflow-runs.service.ts:26-59 | exactly an unfinished run of the user's organization is canceled; its unstarted start job goes, or a cancel job comes |
| `WorkflowAnswers.StartAnswers` | apps/api/src/queue/workflow-queue.service.ts:63-83 | a new run is queued and its start job in the queue |
| `WorkflowAnswers.TableIsWhatServicesDo` | libs/domain/src/workflows.ts:64-86 | the services take every edge of the table and no other, save that a queued run can fail |
| `WorkflowInvariants.KeepsStartJobsUnlessLosing` | apps/api/src/workflow-runs/workflow-runs.service.ts:34-59 | a call keeps the start job of every queued run exactly when the queue does not forget it and the run is not canceled, job unstarted, for a reason its row refuses |
| `WorkflowInvariants.QueuedRunLosesJob` | apps/api/src/workflow-runs/workflow-runs.service.ts:34-59 | canceled for a reason with NUL, a queued run stays queued without its start job |
| `Expiration.SweepTakesBatch` | apps/api/src/approvals/approval-expiration.service.ts:44-102 | a sweep expires the smaller of 100 and the backlog, takes exactly that off it, and leaves no run of an expired approval waiting |
| `Expiration.SweepsDrain` | apps/api/src/approvals/approval-expiration.service.ts:44-60 | k sweeps without arrivals take 100 k off the backlog, or all of it |
| `Expiration.BacklogDrained` | apps/api/src/approvals/approval-expiration.service.ts:44-60 | a backlog of n is gone exactly from the sweep numbered n/100 rounded up |
| `WorkflowAnswers.SweepTakesOverdue` | apps/api/src/approvals/approval-expiration.service.ts:40-60 | a sweep changes only approvals that were pending with `expiresAt` at or before now, earliest first, and only their status; one of fewer than a hundred leaves none overdue |
| `WorkflowAnswers.SweepDenies` | apps/api/src/approvals/approval-expiration.service.ts:62-102 | a run is denied at that time exactly if it waits and one of its approvals is expired |
| `ControlPlane.Services.AddIdempotentJob` | apps/api/src/queue/workflow-queue.service.ts:236-257 | a job whose id is taken is not added; the answer says whether it was |
| `ControlPlane.Services.RemoveStart` | apps/api/src/queue/workflow-queue.service.ts:122-136 | only an unstarted start job is removed |
| `ControlPlane.Services.MarkPermanentFailure` | apps/api/src/queue/workflow-queue.service.ts:192-230 | the statements compute the state of the failure step; the answer says whether the run changed |
| `ControlPlane.Services.CreateForRun` | apps/api/src/approvals/approvals.service.ts:91-185 | the statements compute the state and error of the request step, the moved run of a refused row included |
| `ControlPlane.Services.Approve` | apps/api/src/approvals/approvals.service.ts:187-242 | the statements compute the state and error of the approve step |
| `ControlPlane.Services.Reject` | apps/api/src/approvals/approvals.service.ts:244-312 | the statements compute the state and error of the reject step |
| `ControlPlane.Services.AssertPendingOrExpire` | apps/api/src/approvals/approvals.service.ts:314-323 | a decided or overdue approval is refused, the overdue one after expiring it |
| `ControlPlane.Services.Expire` | apps/api/src/approvals/approval-expiration.service.ts:62-102 | expires the approval and denies its run only while the run waits |
| `ControlPlane.Services.ExpireDue` | apps/api/src/approvals/approval-expiration.service.ts:44-60 | the loop expires one batch of overdue approvals and counts it |
| `ControlPlane.Services.Cancel` | apps/api/src/workflow-runs/workflow-runs.service.ts:26-79 | the statements compute the state and error of the cancel step, the changed queue of a refused reason included |
| `ControlPlane.Services.CompleteRun` | apps/api/src/internal-worker/internal-worker.service.ts:135-180 | the statements compute the state and error of the completion step |
| `ControlPlane.Services.FailRun` | apps/api/src/internal-worker/internal-worker.service.ts:182-228 | the statements compute the state and error of the failure step |
| `ApproveRace.JobOnlyAfterApproval` | apps/api/src/approvals/approvals.service.ts:192-224 | with `approve` split at its awaits and callers stopping anywhere, a resume job exists only if its approval has an approval time and belongs to its run |
| `ApproveRace.ApprovedBeforeAdd` | apps/api/src/approvals/approvals.service.ts:200-209 | a caller about to add a job finds the approval time already written |
| `ApproveRace.EntryOnlyAfterAdd` | apps/api/src/approvals/approvals.service.ts:209-224 | a run entry names a resume job only if that job was added |
| `ApproveCount.AddedAsForgotten` | apps/api/src/queue/workflow-queue.service.ts:236-257 | over any interleaving the jobs naming an approval are added exactly as often as the queue forgets one it holds, and once more if one is in the queue now |
| `ApproveCount.RacersAddOnce` | apps/api/src/queue/workflow-queue.service.ts:236-257 | racing approvals of one request add at most one job, and one more for each purge of its job among the steps |
| `ApproveCount.ForgottenJobIsAddedAgain` | apps/api/src/queue/workflow-queue.service.ts:236-257 | from an empty system, two racers with one purge between them add two jobs |
| `ApproveAlone.UndisturbedIsApprove` | apps/api/src/approvals/approvals.service.ts:187-224 | a caller whom nobody disturbs leaves exactly what approve as one step leaves |
| `RateLimit.RateLimiter.CleanupBuckets` | apps/api/src/rate-limit/rate-limit.middleware.ts:145-155 | the deleting loop leaves a map below the bound as it is, and a full map with its open buckets other than the first |
| `RateLimit.RateLimiter.HitMemoryLimit` | apps/api/src/rate-limit/rate-limit.middleware.ts:90-101 | a hit gives the next count and reset time of the key and the remaining allowance |
| `RateLimit.RateLimiter.Use` | apps/api/src/rate-limit/rate-limit.middleware.ts:57-81 | health paths pass uncounted; any other request is let through exactly within the maximum, otherwise told the seconds to wait |
| `RateLimit.HitDropsAtMostFirst` | apps/api/src/rate-limit/rate-limit.middleware.ts:90-155 | the map never exceeds 20000 buckets, and a hit drops an open bucket only from a full map and only the first |
| `RateLimit.KeptOpenUnlessFirstOfFull` | apps/api/src/rate-limit/rate-limit.middleware.ts:145-155 | an open window is forgotten exactly when the map is full and the bucket is the first one |
| `RateLimit.BoundedCountsAsUnbounded` | apps/api/src/rate-limit/rate-limit.middleware.ts:90-155 | a key never dropped while open counts as if the map were unbounded |
| `RateLimit.OneWindow` | apps/api/src/rate-limit/rate-limit.middleware.ts:90-101 | windows closing in a stretch of one window length accept at most the maximum together |
| `RateLimit.AtMostTwiceMax` | apps/api/src/rate-limit/rate-limit.middleware.ts:68-101 | for one key any interval of one window length lets at most twice the maximum through |
| `RateLimit.TwiceMaxIsReached` | apps/api/src/rate-limit/rate-limit.middleware.ts:90-101 | for every maximum and window some hits in order get twice the maximum through |
| `RateLimit.LimiterAtMostTwiceMax` | apps/api/src/rate-limit/rate-limit.middleware.ts:57-155 | the same bound for the limiter with many keys in the bounded map |
| `RateLimit.WaitingStartsFresh` | apps/api/src/rate-limit/rate-limit.middleware.ts:74-78 | a client that waits the reported time starts a fresh window, whatever the others do |
| `RateLimit.RetryAfterIsLeast` | apps/api/src/rate-limit/rate-limit.middleware.ts:74-78 | the reported time is the least positive number of whole seconds that reaches the end of the window |
| `RefreshTokens.ConsumedAtMostOnce` | apps/api/src/auth/refresh-token.service.ts:38-70 | with the read and the conditional update interleaved freely, each token is consumed at most once |
| `RefreshTokens.SuccessIsRecorded` | apps/api/src/auth/refresh-token.service.ts:38-70 | a successful consumption is recorded in the row at a time before the token's expiry |
| `RefreshTokens.RevokedForGood` | apps/api/src/auth/refresh-token.service.ts:38-116 | a revoked token keeps its revocation time and is never consumed again |
| `RefreshTokens.RevokedByWhom` | apps/api/src/auth/refresh-token.service.ts:38-116 | each row changes exactly by its holder's update or a revocation of its hash, of its user's tokens, or of itself by its user |
| `RefreshTokens.UndisturbedConsume` | apps/api/src/auth/refresh-token.service.ts:38-70 | an undisturbed caller consumes a token exactly when it is not revoked and its expiry lies ahead |
| `RefreshTokens.IssuedToken` | apps/api/src/auth/refresh-token.service.ts:22-36 | a new token has the columns it was issued with, unless its id or hash is taken |
| `RefreshTokens.RefreshTokenService.Issue` | apps/api/src/auth/refresh-token.service.ts:22-36 | issuing adds one unrevoked row that expires after the configured days |
| `RefreshTokens.RefreshTokenService.Consume` | apps/api/src/auth/refresh-token.service.ts:38-70 | undisturbed, a usable token is revoked and returned; any other is refused without a change |
| `RefreshTokens.RefreshTokenService.Revoke` | apps/api/src/auth/refresh-token.service.ts:72-82 | revokes exactly the unrevoked rows of the token |
| `RefreshTokens.RefreshTokenService.RevokeAllForUser` | apps/api/src/auth/refresh-token.service.ts:84-94 | revokes exactly the user's unrevoked rows |
| `RefreshTokens.RefreshTokenService.RevokeForUser` | apps/api/src/auth/refresh-token.service.ts:107-116 | revokes the row only if it is the user's and unrevoked |
| `AccessTokens.TokenService.SignAccessToken` | apps/api/src/auth/token.service.ts:29-42 | a signed token carries the given id, is current when it is issued and expires 900 seconds later |
| `AccessTokens.TokenService.DeleteExpiredRevocations` | apps/api/src/auth/token.service.ts:106-113 | the deleting loop keeps exactly the unexpired entries |
| `AccessTokens.TokenService.VerifyAccessToken` | apps/api/src/auth/token.service.ts:64-84 | claims and expiry first, then pruning, then the revocation check |
| `AccessTokens.TokenService.RevokeAccessToken` | apps/api/src/auth/token.service.ts:87-91 | only a token that verifies is revoked |
| `AccessTokens.PrunedAgreesWithUnpruned` | apps/api/src/auth/token.service.ts:70-113 | after any run of signing, verifying and revoking, the pruned map answers for every signed token like a set that never forgets |
| `AccessTokens.SignedTokenLives` | apps/api/src/auth/token.service.ts:29-84 | a signed token is accepted exactly within 900 seconds and until it is revoked |
| `AccessTokens.RevokedNeverAccepted` | apps/api/src/auth/token.service.ts:44-91 | a revoked token is never accepted again |
| `AccessTokens.RemainingUnexpired` | apps/api/src/auth/token.service.ts:106-113 | what a call on a current token leaves in the map is unexpired |
| `AccessTokens.VerifyMeans` | apps/api/src/auth/token.service.ts:70-84 | any payload is accepted exactly when it is an access token of this issuer and audience, unexpired, and not named by an unexpired revocation |
| `Policy.ScoreRisk` | libs/policy-engine/src/index.ts:116-124 | the loop computes the least level above the action's default and every signal's level |
| `Policy.ScoreMonotone` | libs/policy-engine/src/index.ts:116-124 | more signals never lower the score, and neither order nor repetition matters |
| `Policy.ScoreMeans` | libs/policy-engine/src/index.ts:116-124 | when the score is low, at least high, and critical, by the named actions and signals |
| `Policy.DecisionMeans` | libs/policy-engine/src/index.ts:38-114 | exactly which requests are allowed and which denied, by limits, lists, thresholds, named actions and signals |
| `Policy.EvaluatePolicy` | libs/policy-engine/src/index.ts:38-114 | reports the first rule whose condition holds and the decision that belongs to it |
| `Policy.FirstRuleDecides` | libs/policy-engine/src/index.ts:38-114 | there is one first rule, and its verdict is the decision |
| `Policy.FirstRuleMeans` | libs/policy-engine/src/index.ts:43-94 | what each reported rule says about the request, and which comes first |
| `Policy.MonotoneForAllowedActions` | libs/policy-engine/src/index.ts:38-114 | for an allowed action no tightening of request or policy loosens the decision |
| `Policy.MonotoneUnlessDeniedByDefault` | libs/policy-engine/src/index.ts:102-105 | some tightening loosens the decision exactly for requests denied by the last rule alone |
| `Policy.ExtractRiskSignals` | libs/policy-engine/src/index.ts:126-176 | a signal is reported exactly when its condition holds |
| `Policy.HarmlessIffCalm` | libs/policy-engine/src/index.ts:126-176 | the signals read off a request are harmless exactly when it stays on an allowed domain, submits nothing, uses no unknown vendor's credential, holds no danger keyword and is a mild action |
| `Policy.AllowedIsHarmless` | libs/policy-engine/src/index.ts:38-176 | a request with its own signals is allowed exactly when it breaks no limit, is asked for by nothing, is an allowed action, and is calm or of a small amount |
| `Policy.LowRiskIff` | libs/policy-engine/src/index.ts:116-176 | with its own signals a request is of low risk exactly when it opens, reads or downloads, is calm, and has no amount, credential, first run or sensitive file |
| `Domains.MatchesIffLabelSuffix` | libs/policy-engine/src/index.ts:208-213 | the string test holds exactly when the domain's labels end the host's labels |
| `Domains.MatchingIsOrder` | libs/policy-engine/src/index.ts:208-213 | matching is reflexive, transitive and antisymmetric |
| `Domains.SubdomainsMatch` | libs/policy-engine/src/index.ts:208-213 | an allowed host makes all its subdomains allowed |
| `Domains.MatchesOnlyAcrossDot` | libs/policy-engine/src/index.ts:208-213 | a name that ends in the letters of a domain matches it exactly when nothing or a dot stands before them |
| `Policy.MatchesAnyByLabels` | libs/policy-engine/src/index.ts:208-213 | a host is matched exactly when the labels of some lower-cased domain of the list end its labels |
| `Strings.JoinSplit` | libs/policy-engine/src/index.ts:208-213 | joining the pieces of a split string gives the string back |
| `Strings.SplitJoin` | apps/api/src/agents/agent-identifier.service.ts:35-43 | splitting joined pieces that lack the separator gives the pieces back |
| `AgentIdentifier.SlugIsWords` | apps/api/src/agents/agent-identifier.service.ts:35-43 | a slug is the maximal alphanumeric runs of the name joined by single dashes, or "agent" |
| `AgentIdentifier.SlugIffFixed` | apps/api/src/agents/agent-identifier.service.ts:23-43 | the valid slugs are exactly the strings slugifying leaves alone |
| `AgentIdentifier.ValidIff` | apps/api/src/agents/agent-identifier.service.ts:23-25 | the valid identifiers, by their characters |
| `AgentIdentifier.CandidatesDiffer` | apps/api/src/agents/agent-identifier.service.ts:12-18 | all numbered candidates are different |
| `AgentIdentifier.CandidateIsValid` | apps/api/src/agents/agent-identifier.service.ts:23-25 | every candidate is a valid identifier |
| `AgentIdentifier.Generate` | apps/api/src/agents/agent-identifier.service.ts:10-21 | ends after at most one more probe than there are identifiers in use, with the bare slug if that is free, else the slug with the least number from 2 that is free; the result is valid |
| `Decimal.ValuePrint` | apps/api/src/credentials/credentials.service.ts:418-425 | reading a printed number gives the number |
| `Vault.AadInjective` | libs/vault/src/index.ts:137-147 | the associated data of two contexts agree exactly when organization, credential and key version agree |
| `Vault.OpensIffSameContext` | libs/vault/src/index.ts:35-88 | a sealed secret opens exactly under its own context, or under any if sealed without one; otherwise it is refused as a mismatch |
| `CredentialCalls.SealedPayloadOpens` | libs/vault/src/index.ts:35-58 | a sealed payload carries the associated data of its row and opens, under the key derived from the master key, to the printed secret |
| `CredentialHistory.DoneIffGuard` | apps/api/src/credentials/credentials.service.ts:77-271 | after any calls, create, update, grant, its withdrawal and revoke answer Done exactly under a guard on what the accepted calls before have said, and otherwise change nothing |
| `CredentialHistory.RefusalMeans` | apps/api/src/credentials/credentials.service.ts:77-271 | a refused call answers the first thing that is wrong with it |
| `CredentialHistory.RowsTellLedger` | apps/api/src/credentials/credentials.service.ts:77-271 | after any calls each row has the owner, vendor, name, status and revocation time the ledger of accepted calls says, and holds the secret stored last, sealed for it under a version counting the secrets; grants likewise, one a pair |
| `CredentialHistory.ReleasedIffEntitled` | apps/api/src/credentials/credentials.service.ts:273-354 | a secret is released exactly to a run entitled by the ledger, it is the secret stored last, every other request gets the error of the code, and the only trace is the time of the last use |
| `CredentialCalls.MovedPayloadRefused` | libs/vault/src/index.ts:60-74 | a payload moved to another row, organization or key version is never opened |
| `CredentialHistory.SubstitutedPayloadOpens` | libs/vault/src/index.ts:60-88 | whatever payload stands in a row, short of a forged cipher text: if it opens, some call stored exactly what comes out for that credential, organization and key version |
| `CredentialCalls.CallKeepsInv` | apps/api/src/credentials/credentials.service.ts:77-354 | every call keeps each row sealed for itself and each pair to one grant |
| `CredentialCalls.RowOpens` | apps/api/src/credentials/credentials.service.ts:313-323 | under that invariant a stored secret always opens |
| `Credentials.NextOfVersion` | apps/api/src/credentials/credentials.service.ts:418-425 | the version after the n-th is the one numbered n + 1 |
| `CredentialService.CredentialsService.Create` | apps/api/src/credentials/credentials.service.ts:77-121 | the two writes of the transaction compute the create step and keep the invariant; a refused key leaves nothing behind |
| `CredentialService.CredentialsService.Update` | apps/api/src/credentials/credentials.service.ts:123-166 | computes the update step and keeps every row sealed for itself |
| `CredentialService.CredentialsService.Grant` | apps/api/src/credentials/credentials.service.ts:168-216 | computes the grant step on the one row of the pair and keeps pairs to one row |
| `CredentialService.CredentialsService.RevokeGrant` | apps/api/src/credentials/credentials.service.ts:218-248 | computes the withdrawal step and keeps the invariant |
| `CredentialService.CredentialsService.Revoke` | apps/api/src/credentials/credentials.service.ts:250-271 | computes the revocation step and keeps the invariant |
| `CredentialService.CredentialsService.DecryptForRun` | apps/api/src/credentials/credentials.service.ts:273-354 | computes the release step; with an authenticated cipher it never fails in the vault |
| `Users.AlwaysAnOwner` | apps/api/src/users/users.service.ts:68-278 | from registration on, every run of calls keeps an owner who is not disabled in each organization, and `disabledAt` set exactly for disabled users |
| `Users.OtherOrganizationsUntouched` | apps/api/src/users/users.service.ts:228-245 | a call leaves the users of every other organization as they were |
| `UserAnswers.AlwaysUnique` | prisma/schema.prisma:281 | over every run no two users share an address and no two organizations a domain |
| `UserAnswers.RegisterAnswers` | apps/api/src/auth/auth.service.ts:40-78 | when registration succeeds, and the organization and owner it makes |
| `UserAnswers.InviteAnswers` | apps/api/src/users/users.service.ts:68-85 | who may invite whom, and the invited row |
| `UserAnswers.RoleAnswers` | apps/api/src/users/users.service.ts:110-133 | exactly when a role is changed, and that only the role changes |
| `UserAnswers.DisableAnswers` | apps/api/src/users/users.service.ts:149-166 | exactly when a user is disabled, and the row it leaves |
| `UserAnswers.EnableAnswers` | apps/api/src/users/users.service.ts:182-196 | exactly when a user is enabled, and the row it leaves |
| `UserAnswers.DeleteAnswers` | apps/api/src/compliance/compliance.service.ts:88-126 | exactly when an account is deleted, and the anonymised row it leaves |
| `UserAnswers.ResetAnswers` | apps/api/src/auth/auth.service.ts:114-140 | exactly when a password is reset, and that an invited user becomes active |
| `UserAnswers.DeletedAddressIsFree` | apps/api/src/compliance/compliance.service.ts:109-126 | a deleted account frees its address |
| `Users.DisableRefusedIffOnlyOwner` | apps/api/src/users/users.service.ts:149-180 | asked by an owner, disabling an owner is refused exactly for the only one left |
| `Users.OwnersDescendFromOwners` | apps/api/src/users/users.service.ts:68-147 | over every run, whoever is an owner was made one by registration or by a call from an owner's session |
| `Users.OwnerRowSurvives` | apps/api/src/users/users.service.ts:247-263 | over every run of calls that come neither from an owner's session nor from the owner, an owner's row stays as it was |
| `Users.EnableAfterDisable` | apps/api/src/users/users.service.ts:149-196 | enabling after disabling always succeeds and restores the state exactly for users who were active: invited ones come back active |
| `Users.RoleChangedBack` | apps/api/src/users/users.service.ts:110-147 | a second role change by the same caller undoes the first, except that owners who demoted themselves are refused |
| `Users.ActiveOwnerLostIff` | apps/api/src/users/users.service.ts:265-278 | an organization loses its last active owner exactly when an owner disables or demotes, or the user deletes, that owner while another owner is invited |
| `Users.InvitedOwnerLeftAlone` | apps/api/src/compliance/compliance.service.ts:95-107 | an owner who invited another can delete the account, leaving no active owner |
| `UserService.UsersService.Register` | apps/api/src/auth/auth.service.ts:40-78 | computes the registration step; the new organization has its owner |
| `UserService.UsersService.InviteUser` | apps/api/src/users/users.service.ts:68-85 | computes the invitation step and keeps an owner in every organization |
| `UserService.UsersService.ChangeUserRole` | apps/api/src/users/users.service.ts:110-133 | computes the role step and keeps an owner in every organization |
| `UserService.UsersService.DisableUser` | apps/api/src/users/users.service.ts:149-166 | computes the disabling step and keeps an owner in every organization |
| `UserService.UsersService.EnableUser` | apps/api/src/users/users.service.ts:182-196 | computes the enabling step and keeps an owner in every organization |
| `UserService.UsersService.DeleteAccount` | apps/api/src/compliance/compliance.service.ts:88-126 | computes the account deletion step and keeps an owner in every organization |
| `UserService.UsersService.ResetPassword` | apps/api/src/auth/auth.service.ts:114-140 | a password reset makes an invited user active and refuses a disabled one |
| `UserService.UsersService.OtherOwnerCount` | apps/api/src/users/users.service.ts:265-278 | the count of other owners is zero exactly when the user is the last |

## Left out

- Digest, HMAC, cipher, base64, UTF-8, URL parsing, `toLowerCase`, `trim`, `localeCompare` and random values: parameters,
  with the properties a theorem needs in its `requires`. Strings are sequences of Unicode scalar values: lone
  surrogates are not considered.
- JSON numbers are identified with the text printed for them; `undefined` inside payloads is excluded.
- `SessionAuditService` and the seed also write audit rows, in another format and without the lock; more than one API
  process is excluded for the same reason.
- The redactor is a parameter of `record`. That it returns well-formed JSON is a hypothesis of the chain theorems.
- The worker process (`apps/worker`) writes runs too. Only its move from QUEUED to RUNNING is modelled; its own
  denials, its completion and its `shouldProcessRun` check are not.
- WorkflowInvariants.KeepsPendingUnlessStranding: an insertion that fails for no reason in the request or the tables (a
  lost connection, limits of the driver on size and nesting) is not modelled.
- ControlPlane.Services.Approve: a comment the column refuses fails the first write and changes nothing; likewise error
  messages and outputs given by workers, and credential labels. These refusals are not modelled.
- AccessTokens.RevokedNeverAccepted: one process without restart; the map is lost when the process ends.
- Races other than `approve` split at its awaits: the read-check-write code of cancel, complete, fail, role changes and
  the two account paths is modelled as one step per call, as is the lookup before an insertion in `Generate`.
- ControlPlane.Services.ExpireDue: which of several approvals due at the same time come first is left open, as in the
  query.
- ControlPlane.Services.Expire: its two writes are one step; a crash between them is not modelled.
- Audit rows, notifications, e-mails and metrics that calls produce besides their own rows; error texts; request ids.
- The Redis variant of the limiter, its response headers, and the choice of client, route group and profile
  (`apps/api/src/rate-limit/rate-limit.middleware.ts:103-143`).
- AgentIdentifier.Generate: the set of identifiers in use does not change during the search; suffixes beyond 2^53 are
  exact here. The same holds for key version numbers.
- Vault.OpensIffSameContext: truncated authentication tags and the production form of the master key are not modelled.
- Policy.EvaluatePolicy: the reason texts and the host name taken from a URL are inputs or left out.
- Policy.ExtractRiskSignals: the result is a set; its sorting is left out, and the one body is three methods.
- Credential labels are called `title`, and credential types, creators and creation times are left out.
- Users: the role given to a call is a known role, and names, passwords, MFA and profile changes are left out.
- Controllers, schemas, guards, mappers, pagination, permission tables, upload quotas, receipts and connectors.
