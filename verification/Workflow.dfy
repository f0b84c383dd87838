/** Workflow runs, approvals and queue jobs: what each service call does to them, taken as one step. */
module Workflow {
  import opened Options
  import Json

  /** The text of a UUID. */
  type Uuid = s: string | |s| == 36 witness "00000000-0000-0000-0000-000000000000"

  datatype RunStatus = Queued | Running | WaitingForApproval | Completed | Failed | Canceled | Denied

  datatype ApprovalStatus = Pending | Approved | Rejected | Expired

  /** `WORKFLOW_RUN_TRANSITIONS`. */
  function Transitions(from: RunStatus): seq<RunStatus> {
    match from
    case Queued => [Running, Canceled]
    case Running => [WaitingForApproval, Completed, Failed, Canceled]
    case WaitingForApproval => [Running, Denied, Failed, Canceled]
    case _ => []
  }

  predicate CanTransition(from: RunStatus, to: RunStatus) {
    to in Transitions(from)
  }

  predicate Terminal(status: RunStatus) {
    status in {Completed, Failed, Canceled, Denied}
  }

  // ---------------------------------------------------------------- rows and jobs

  /** An entry of `stateJson.transitions` or `stateJson.workerTransitions`. */
  datatype Change = Change(from: RunStatus, to: RunStatus, approvalId: Option<Uuid>, resumeJobId: Option<string>,
      at: int)

  datatype Run = Run(org: Uuid, status: RunStatus, completedAt: Option<int>, transitions: seq<Change>,
      workerTransitions: seq<Change>)

  datatype Attempt = Attempt(org: Uuid, runId: Uuid, requiresApproval: bool)

  datatype Approval = Approval(
    org: Uuid, runId: Uuid, attemptId: Uuid, status: ApprovalStatus,
    expiresAt: Option<int>, approvedAt: Option<int>, rejectedAt: Option<int>)

  datatype Queue = Runs | Resume | Maintenance

  datatype JobKey = JobKey(queue: Queue, id: string)

  /** `unstarted` when the job is waiting, delayed or prioritized. */
  datatype Job = Job(runId: Uuid, approvalId: Option<Uuid>, unstarted: bool)

  datatype State = State(
    runs: map<Uuid, Run>, attempts: map<Uuid, Attempt>, approvals: map<Uuid, Approval>, jobs: map<JobKey, Job>)

  function StartJobId(runId: string): string { "start-" + runId }

  function ResumeJobId(runId: string, approvalId: string): string { "resume-" + runId + "-" + approvalId }

  function CancelJobId(runId: string): string { "cancel-" + runId }

  function ResumeKey(runId: Uuid, approvalId: Uuid): JobKey {
    JobKey(Resume, ResumeJobId(runId, approvalId))
  }

  /** `addIdempotent`: a job whose id is taken is not added again. */
  function AddIdempotent(jobs: map<JobKey, Job>, key: JobKey, job: Job): map<JobKey, Job> {
    if key in jobs then jobs else jobs[key := job]
  }

  /** `removeStartJob`: only a job that has not started is removed. */
  function RemoveStartJob(jobs: map<JobKey, Job>, runId: Uuid): map<JobKey, Job> {
    var key := JobKey(Runs, StartJobId(runId));
    if key in jobs && jobs[key].unstarted then jobs - {key} else jobs
  }

  function OrElse(at: Option<int>, now: int): Option<int> {
    if at.Some? then at else Some(now)
  }

  // ---------------------------------------------------------------- service calls

  datatype Reason =
    | PermissionDenied | NotFound | ValidationFailed | InvalidTransition | IsolationViolation
    | UniqueViolation | UnstorableRow

  datatype Outcome = Done | Error(reason: Reason)

  /** What a call leaves and what it answers. */
  datatype Effect = Effect(state: State, outcome: Outcome)

  function Start(s: State, org: Uuid, runId: Uuid): Effect {
    if runId in s.runs then Effect(s, Error(UniqueViolation))
    else Effect(s.(runs := s.runs[runId := Run(org, Queued, None, [], [])],
                   jobs := AddIdempotent(s.jobs, JobKey(Runs, StartJobId(runId)), Job(runId, None, true))), Done)
  }

  /** The worker process takes the start job: its only write that is modelled. */
  function WorkerStarts(s: State, runId: Uuid): State {
    if runId !in s.runs || s.runs[runId].status != Queued then s
    else
      var key := JobKey(Runs, StartJobId(runId));
      s.(runs := s.runs[runId := s.runs[runId].(status := Running)],
         jobs := if key in s.jobs then s.jobs[key := s.jobs[key].(unstarted := false)] else s.jobs)
  }

  function RecordAttempt(s: State, attemptId: Uuid, runId: Uuid, requiresApproval: bool): State {
    if attemptId in s.attempts || runId !in s.runs then s
    else s.(attempts := s.attempts[attemptId := Attempt(s.runs[runId].org, runId, requiresApproval)])
  }

  predicate AttemptUsed(s: State, attemptId: Uuid) {
    exists a | a in s.approvals :: s.approvals[a].attemptId == attemptId
  }

  /** `new Date(expiresAt)`: a text of the right form may still name no day. */
  datatype Expiry = Never | At(time: int) | InvalidDate

  /** A request for approval; the amount is checked to be a natural number, and nothing bounds it. */
  datatype Request = Request(
    attemptId: Uuid, summary: string, amountCents: Option<nat>, policyTriggered: Json.Json, screenshotInRun: bool,
    expiresAt: Expiry)

  const MAX_INT32 := 0x7fff_ffff

  predicate TextStorable(t: string) {
    '\0' !in t
  }

  predicate JsonStorable(v: Json.Json) {
    match v
    case String(t) => TextStorable(t)
    case Array(items) => forall i | 0 <= i < |items| :: JsonStorable(items[i])
    case Object(es) => forall i | 0 <= i < |es| :: TextStorable(es[i].key) && JsonStorable(es[i].value)
    case _ => true
  }

  /** What the columns of an approval row take: a 32-bit amount, texts and JSON without NUL, a date. */
  predicate Storable(q: Request) {
    && (q.amountCents.Some? ==> q.amountCents.value <= MAX_INT32)
    && TextStorable(q.summary) && JsonStorable(q.policyTriggered) && !q.expiresAt.InvalidDate?
  }

  function ExpiryTime(e: Expiry): Option<int> {
    if e.At? then Some(e.time) else None
  }

  /** `createForRun`. The run is moved before the approval row is inserted. The insert fails when a column does not
      take its value, and when the action attempt already has an approval: that column is unique. */
  function CreateForRun(s: State, runId: Uuid, q: Request, approvalId: Uuid, now: int): Effect {
    if runId !in s.runs then Effect(s, Error(NotFound))
    else
      var run := s.runs[runId];
      if q.attemptId !in s.attempts || s.attempts[q.attemptId].runId != runId
        || s.attempts[q.attemptId].org != run.org then
        Effect(s, Error(NotFound))
      else if !s.attempts[q.attemptId].requiresApproval then Effect(s, Error(ValidationFailed))
      else if !q.screenshotInRun then Effect(s, Error(IsolationViolation))
      else if run.status != WaitingForApproval && !CanTransition(run.status, WaitingForApproval) then
        Effect(s, Error(InvalidTransition))
      else
        var waiting :=
          if run.status == WaitingForApproval then s
          else s.(runs := s.runs[runId := run.(
                 status := WaitingForApproval,
                 transitions := run.transitions + [Change(run.status, WaitingForApproval, None, None, now)])]);
        if !Storable(q) then Effect(waiting, Error(UnstorableRow))
        else if AttemptUsed(s, q.attemptId) || approvalId in s.approvals then Effect(waiting, Error(UniqueViolation))
        else Effect(waiting.(approvals := s.approvals[approvalId :=
                      Approval(run.org, runId, q.attemptId, Pending, ExpiryTime(q.expiresAt), None, None)]), Done)
  }

  predicate IsExpired(a: Approval, now: int) {
    a.status == Pending && a.expiresAt.Some? && a.expiresAt.value <= now
  }

  /** `expireApproval` of a pending approval. */
  function ExpireApproval(s: State, id: Uuid, now: int): State
    requires id in s.approvals
  {
    var a := s.approvals[id];
    var expired := s.(approvals := s.approvals[id := a.(status := Expired)]);
    if a.runId in s.runs && s.runs[a.runId].org == a.org && s.runs[a.runId].status == WaitingForApproval then
      var run := s.runs[a.runId];
      expired.(runs := s.runs[a.runId := run.(status := Denied, completedAt := OrElse(run.completedAt, now))])
    else expired
  }

  /** The checks `approve` and `reject` share: the approval is in the caller's organization, pending and not expired. */
  function Decidable(s: State, user: Option<Uuid>, id: Uuid, now: int): Option<Effect> {
    if user.None? then Some(Effect(s, Error(PermissionDenied)))
    else if id !in s.approvals || s.approvals[id].org != user.value then Some(Effect(s, Error(NotFound)))
    else if s.approvals[id].status != Pending then Some(Effect(s, Error(InvalidTransition)))
    else if IsExpired(s.approvals[id], now) then Some(Effect(ExpireApproval(s, id, now), Error(ValidationFailed)))
    else if s.approvals[id].runId !in s.runs || s.runs[s.approvals[id].runId].org != user.value then
      Some(Effect(s, Error(NotFound)))
    else None
  }

  function Approve(s: State, user: Option<Uuid>, id: Uuid, now: int): Effect {
    var refused := Decidable(s, user, id, now);
    if refused.Some? then refused.value
    else
      var a := s.approvals[id];
      var run := s.runs[a.runId];
      if !CanTransition(run.status, Running) then Effect(s, Error(InvalidTransition))
      else
        var key := ResumeKey(a.runId, id);
        Effect(s.(approvals := s.approvals[id := a.(status := Approved, approvedAt := Some(now))],
                  jobs := AddIdempotent(s.jobs, key, Job(a.runId, Some(id), true)),
                  runs := s.runs[a.runId := run.(
                    status := Running,
                    transitions := run.transitions + [Change(run.status, Running, Some(id), Some(key.id), now)])]),
                      Done)
  }

  function Reject(s: State, user: Option<Uuid>, id: Uuid, now: int): Effect {
    var refused := Decidable(s, user, id, now);
    if refused.Some? then refused.value
    else
      var a := s.approvals[id];
      var run := s.runs[a.runId];
      if !CanTransition(run.status, Denied) then Effect(s, Error(InvalidTransition))
      else
        Effect(s.(approvals := s.approvals[id := a.(status := Rejected, rejectedAt := Some(now))],
                  runs := s.runs[a.runId := run.(
                    status := Denied, completedAt := OrElse(run.completedAt, now),
                    transitions := run.transitions + [Change(run.status, Denied, Some(id), None, now)])]), Done)
  }

  function ExpireAll(s: State, ids: seq<Uuid>, now: int): (s': State)
    requires forall id | id in ids :: id in s.approvals
    ensures s'.approvals.Keys == s.approvals.Keys
  {
    if ids == [] then s else ExpireApproval(ExpireAll(s, ids[..|ids| - 1], now), ids[|ids| - 1], now)
  }

  /** `cancel`. The queue is changed before the run row, which fails to take a reason with NUL. */
  function Cancel(s: State, user: Option<Uuid>, runId: Uuid, reason: string, now: int): Effect {
    if user.None? then Effect(s, Error(PermissionDenied))
    else if runId !in s.runs || s.runs[runId].org != user.value then Effect(s, Error(NotFound))
    else
      var run := s.runs[runId];
      if !CanTransition(run.status, Canceled) then Effect(s, Error(InvalidTransition))
      else
        var queued :=
          s.(jobs := if run.status == Queued then RemoveStartJob(s.jobs, runId)
                     else AddIdempotent(s.jobs, JobKey(Maintenance, CancelJobId(runId)), Job(runId, None, true)));
        if !TextStorable(reason) then Effect(queued, Error(UnstorableRow))
        else Effect(queued.(runs := s.runs[runId := run.(
               status := Canceled, completedAt := OrElse(run.completedAt, now),
               transitions := run.transitions + [Change(run.status, Canceled, None, None, now)])]), Done)
  }

  function CompleteRun(s: State, org: Uuid, runId: Uuid, now: int): Effect {
    if runId !in s.runs || s.runs[runId].org != org then Effect(s, Error(IsolationViolation))
    else
      var run := s.runs[runId];
      if run.status != Running then Effect(s, Error(InvalidTransition))
      else Effect(s.(runs := s.runs[runId := run.(
             status := Completed, completedAt := Some(now),
             workerTransitions := run.workerTransitions + [Change(run.status, Completed, None, None, now)])]), Done)
  }

  function FailRun(s: State, org: Uuid, runId: Uuid, now: int): Effect {
    if runId !in s.runs || s.runs[runId].org != org then Effect(s, Error(IsolationViolation))
    else
      var run := s.runs[runId];
      if Terminal(run.status) then Effect(s, Error(InvalidTransition))
      else Effect(s.(runs := s.runs[runId := run.(
             status := Failed, completedAt := OrElse(run.completedAt, now),
             workerTransitions := run.workerTransitions + [Change(run.status, Failed, None, None, now)])]), Done)
  }

  /** `markPermanentFailure`; a run that is no longer executable is left alone. */
  function MarkPermanentFailure(s: State, runId: Uuid, now: int): Effect {
    if runId !in s.runs then Effect(s, Error(NotFound))
    else
      var run := s.runs[runId];
      if run.status !in {Queued, Running, WaitingForApproval} then Effect(s, Done)
      else Effect(s.(runs := s.runs[runId := run.(
             status := Failed, completedAt := OrElse(run.completedAt, now),
             transitions := run.transitions + [Change(run.status, Failed, None, None, now)])]), Done)
  }

  // ---------------------------------------------------------------- the due batch

  const SWEEP_BATCH_SIZE := 100

  function Due(s: State, now: int): set<Uuid> {
    set id | id in s.approvals && IsExpired(s.approvals[id], now)
  }

  /** What the sweep's query may answer: the first hundred due approvals in order of expiry.
      The order among equal expiry times is left open. */
  ghost predicate IsDueBatch(s: State, ids: seq<Uuid>, now: int) {
    && (forall i, j | 0 <= i < j < |ids| :: ids[i] != ids[j])
    && (forall i | 0 <= i < |ids| :: ids[i] in Due(s, now))
    && |ids| == (if |Due(s, now)| < SWEEP_BATCH_SIZE then |Due(s, now)| else SWEEP_BATCH_SIZE)
    && (forall i, j | 0 <= i < j < |ids| :: s.approvals[ids[i]].expiresAt.value <= s.approvals[ids[j]].expiresAt.value)
    && (forall id, other | id in ids && other in Due(s, now) && other !in ids ::
          s.approvals[id].expiresAt.value <= s.approvals[other].expiresAt.value)
  }

  // ---------------------------------------------------------------- any sequence of calls

  datatype Call =
    | CStart(org: Uuid, runId: Uuid)
    | CWorkerStarts(runId: Uuid)
    | CRecordAttempt(attemptId: Uuid, runId: Uuid, requiresApproval: bool)
    | CCreateForRun(runId: Uuid, request: Request, approvalId: Uuid, now: int)
    | CApprove(user: Option<Uuid>, id: Uuid, now: int)
    | CReject(user: Option<Uuid>, id: Uuid, now: int)
    | CExpireDue(batch: seq<Uuid>, now: int)
    | CCancel(user: Option<Uuid>, runId: Uuid, reason: string, now: int)
    | CCompleteRun(org: Uuid, runId: Uuid, now: int)
    | CFailRun(org: Uuid, runId: Uuid, now: int)
    | CMarkPermanentFailure(runId: Uuid, now: int)
    | CPurgeJob(key: JobKey)                  // the queue forgets a finished job

  ghost function Apply(s: State, c: Call): State {
    match c
    case CStart(org, runId) => Start(s, org, runId).state
    case CWorkerStarts(runId) => WorkerStarts(s, runId)
    case CRecordAttempt(attemptId, runId, requiresApproval) => RecordAttempt(s, attemptId, runId, requiresApproval)
    case CCreateForRun(runId, request, approvalId, now) => CreateForRun(s, runId, request, approvalId, now).state
    case CApprove(user, id, now) => Approve(s, user, id, now).state
    case CReject(user, id, now) => Reject(s, user, id, now).state
    case CExpireDue(batch, now) => if IsDueBatch(s, batch, now) then ExpireAll(s, batch, now) else s
    case CCancel(user, runId, reason, now) => Cancel(s, user, runId, reason, now).state
    case CCompleteRun(org, runId, now) => CompleteRun(s, org, runId, now).state
    case CFailRun(org, runId, now) => FailRun(s, org, runId, now).state
    case CMarkPermanentFailure(runId, now) => MarkPermanentFailure(s, runId, now).state
    case CPurgeJob(key) => s.(jobs := s.jobs - {key})
  }

  const EMPTY := State(map[], map[], map[], map[])

  ghost function After(calls: seq<Call>): State {
    if calls == [] then EMPTY else Apply(After(calls[..|calls| - 1]), calls[|calls| - 1])
  }
}
