/** The services that write runs, approvals and jobs, statement by statement. */
module ControlPlane {
  import opened Options
  import opened Workflow

  class Services {
    var runs: map<Uuid, Run>
    var attempts: map<Uuid, Attempt>
    var approvals: map<Uuid, Approval>
    var jobs: map<JobKey, Job>

    ghost function View(): State
      reads this
    {
      State(runs, attempts, approvals, jobs)
    }

    constructor ()
      ensures View() == EMPTY
    {
      runs, attempts, approvals, jobs := map[], map[], map[], map[];
    }

    // -------------------------------------------------------------- WorkflowQueueService

    method AddIdempotentJob(key: JobKey, job: Job) returns (created: bool)
      modifies this`jobs
      ensures jobs == AddIdempotent(old(jobs), key, job) && created == (key !in old(jobs)) && key in jobs
    {
      if key in jobs {
        return false;
      }
      jobs := jobs[key := job];
      return true;
    }

    method RemoveStart(runId: Uuid) returns (removed: bool)
      modifies this`jobs
      ensures jobs == RemoveStartJob(old(jobs), runId) && removed == (jobs != old(jobs))
    {
      var key := JobKey(Runs, StartJobId(runId));
      if key !in jobs {
        return false;
      }
      if jobs[key].unstarted {
        jobs := jobs - {key};
        return true;
      }
      return false;
    }

    method MarkPermanentFailure(runId: Uuid, now: int) returns (outcome: Outcome, marked: bool)
      modifies this
      ensures Effect(View(), outcome) == Workflow.MarkPermanentFailure(old(View()), runId, now)
      ensures marked <==> runs != old(runs)
    {
      if runId !in runs {
        return Error(NotFound), false;
      }
      var existing := runs[runId];
      if existing.status != Queued && existing.status != Running && existing.status != WaitingForApproval {
        return Done, false;
      }
      var entry := Change(existing.status, Failed, None, None, now);
      runs := runs[runId := existing.(
        status := Failed,
        completedAt := if existing.completedAt.Some? then existing.completedAt else Some(now),
        transitions := existing.transitions + [entry])];
      assert runs[runId].status != old(runs)[runId].status;
      return Done, true;
    }

    // -------------------------------------------------------------- ApprovalsService

    method CreateForRun(runId: Uuid, q: Request, approvalId: Uuid, now: int) returns (outcome: Outcome)
      modifies this
      ensures Effect(View(), outcome) == Workflow.CreateForRun(old(View()), runId, q, approvalId, now)
    {
      if runId !in runs {
        return Error(NotFound);
      }
      var run := runs[runId];
      if q.attemptId !in attempts || attempts[q.attemptId].runId != runId || attempts[q.attemptId].org != run.org {
        return Error(NotFound);
      }
      if !attempts[q.attemptId].requiresApproval {
        return Error(ValidationFailed);
      }
      if !q.screenshotInRun {
        return Error(IsolationViolation);
      }
      if run.status != WaitingForApproval {
        if !CanTransition(run.status, WaitingForApproval) {
          return Error(InvalidTransition);
        }
        var entry := Change(run.status, WaitingForApproval, None, None, now);
        runs := runs[runId := run.(status := WaitingForApproval, transitions := run.transitions + [entry])];
      }
      if !Storable(q) {
        return Error(UnstorableRow);
      }
      if approvalId in approvals || exists a | a in approvals :: approvals[a].attemptId == q.attemptId {
        return Error(UniqueViolation);
      }
      approvals := approvals[approvalId :=
        Approval(run.org, runId, q.attemptId, Pending, ExpiryTime(q.expiresAt), None, None)];
      return Done;
    }

    method AssertPendingOrExpire(id: Uuid, now: int) returns (outcome: Outcome)
      requires id in approvals
      modifies this
      ensures outcome == (if old(approvals)[id].status != Pending then Error(InvalidTransition)
                          else if IsExpired(old(approvals)[id], now) then Error(ValidationFailed) else Done)
      ensures View() == if outcome == Error(ValidationFailed) then ExpireApproval(old(View()), id, now) else old(View())
    {
      if approvals[id].status != Pending {
        return Error(InvalidTransition);
      }
      if approvals[id].expiresAt.Some? && approvals[id].expiresAt.value <= now {
        Expire(id, now);
        return Error(ValidationFailed);
      }
      return Done;
    }

    method Approve(user: Option<Uuid>, id: Uuid, now: int) returns (outcome: Outcome)
      modifies this
      ensures Effect(View(), outcome) == Workflow.Approve(old(View()), user, id, now)
    {
      if user.None? {
        return Error(PermissionDenied);
      }
      if id !in approvals || approvals[id].org != user.value {
        return Error(NotFound);
      }
      var approval := approvals[id];
      outcome := AssertPendingOrExpire(id, now);
      if outcome != Done {
        return;
      }
      if approval.runId !in runs || runs[approval.runId].org != user.value {
        return Error(NotFound);
      }
      var run := runs[approval.runId];
      if !CanTransition(run.status, Running) {
        return Error(InvalidTransition);
      }
      approvals := approvals[id := approval.(status := Approved, approvedAt := Some(now))];
      var key := ResumeKey(approval.runId, id);
      var created := AddIdempotentJob(key, Job(approval.runId, Some(id), true));
      var entry := Change(run.status, Running, Some(id), Some(key.id), now);
      runs := runs[approval.runId := run.(status := Running, transitions := run.transitions + [entry])];
      return Done;
    }

    method Reject(user: Option<Uuid>, id: Uuid, now: int) returns (outcome: Outcome)
      modifies this
      ensures Effect(View(), outcome) == Workflow.Reject(old(View()), user, id, now)
    {
      if user.None? {
        return Error(PermissionDenied);
      }
      if id !in approvals || approvals[id].org != user.value {
        return Error(NotFound);
      }
      var approval := approvals[id];
      outcome := AssertPendingOrExpire(id, now);
      if outcome != Done {
        return;
      }
      if approval.runId !in runs || runs[approval.runId].org != user.value {
        return Error(NotFound);
      }
      var run := runs[approval.runId];
      if !CanTransition(run.status, Denied) {
        return Error(InvalidTransition);
      }
      approvals := approvals[id := approval.(status := Rejected, rejectedAt := Some(now))];
      var entry := Change(run.status, Denied, Some(id), None, now);
      runs := runs[approval.runId := run.(
        status := Denied,
        completedAt := if run.completedAt.Some? then run.completedAt else Some(now),
        transitions := run.transitions + [entry])];
      return Done;
    }

    // -------------------------------------------------------------- ApprovalExpirationService

    /** `expireApproval` of an approval that was pending when it was read. */
    method Expire(id: Uuid, now: int)
      requires id in approvals
      modifies this
      ensures View() == ExpireApproval(old(View()), id, now)
    {
      var expired := approvals[id].(status := Expired);
      approvals := approvals[id := expired];
      if expired.runId in runs && runs[expired.runId].org == expired.org
        && runs[expired.runId].status == WaitingForApproval {
        var run := runs[expired.runId];
        runs := runs[expired.runId := run.(
          status := Denied, completedAt := if run.completedAt.Some? then run.completedAt else Some(now))];
      }
    }

    /** The query of the sweep: overdue approvals, soonest expiry first, a hundred at most. */
    method FindDue(now: int) returns (due: seq<Uuid>)
      ensures IsDueBatch(View(), due, now)
    {
      var rest := set id | id in approvals && IsExpired(approvals[id], now);
      due := [];
      while |due| < SWEEP_BATCH_SIZE && rest != {}
        invariant |due| <= SWEEP_BATCH_SIZE
        invariant rest <= Due(View(), now) && |due| + |rest| == |Due(View(), now)|
        invariant forall id :: id in Due(View(), now) <==> id in rest || id in due
        invariant forall i | 0 <= i < |due| :: due[i] !in rest
        invariant forall i, j | 0 <= i < j < |due| ::
            due[i] != due[j] && approvals[due[i]].expiresAt.value <= approvals[due[j]].expiresAt.value
        invariant forall i, id | 0 <= i < |due| && id in rest ::
            approvals[due[i]].expiresAt.value <= approvals[id].expiresAt.value
        decreases rest
      {
        var next := Soonest(rest, now);
        due, rest := due + [next], rest - {next};
      }
    }

    method Soonest(ids: set<Uuid>, now: int) returns (first: Uuid)
      requires ids != {} && ids <= Due(View(), now)
      ensures first in ids
      ensures forall id | id in ids :: approvals[first].expiresAt.value <= approvals[id].expiresAt.value
    {
      first :| first in ids;
      var rest := ids - {first};
      while rest != {}
        invariant rest <= ids && first in ids
        invariant forall id | id in ids && id !in rest ::
            approvals[first].expiresAt.value <= approvals[id].expiresAt.value
        decreases rest
      {
        var id :| id in rest;
        if approvals[id].expiresAt.value < approvals[first].expiresAt.value {
          first := id;
        }
        rest := rest - {id};
      }
    }

    method ExpireDue(now: int) returns (expiredCount: nat, ghost due: seq<Uuid>)
      modifies this
      ensures IsDueBatch(old(View()), due, now) && expiredCount == |due|
      ensures View() == Apply(old(View()), CExpireDue(due, now))
    {
      var batch := FindDue(now);
      due := batch;
      expiredCount := 0;
      while expiredCount < |batch|
        invariant 0 <= expiredCount <= |batch|
        invariant View() == ExpireAll(old(View()), batch[..expiredCount], now)
      {
        assert batch[..expiredCount + 1][..expiredCount] == batch[..expiredCount];
        Expire(batch[expiredCount], now);
        expiredCount := expiredCount + 1;
      }
      assert batch[..expiredCount] == batch;
    }

    // -------------------------------------------------------------- WorkflowRunsService, InternalWorkerService

    method Cancel(user: Option<Uuid>, runId: Uuid, reason: string, now: int) returns (outcome: Outcome)
      modifies this
      ensures Effect(View(), outcome) == Workflow.Cancel(old(View()), user, runId, reason, now)
    {
      if user.None? {
        return Error(PermissionDenied);
      }
      if runId !in runs || runs[runId].org != user.value {
        return Error(NotFound);
      }
      var existing := runs[runId];
      if !CanTransition(existing.status, Canceled) {
        return Error(InvalidTransition);
      }
      if existing.status == Queued {
        var removed := RemoveStart(runId);
      }
      if existing.status == Running || existing.status == WaitingForApproval {
        var created := AddIdempotentJob(JobKey(Maintenance, CancelJobId(runId)), Job(runId, None, true));
      }
      if !TextStorable(reason) {
        return Error(UnstorableRow);
      }
      var entry := Change(existing.status, Canceled, None, None, now);
      runs := runs[runId := existing.(
        status := Canceled,
        completedAt := if existing.completedAt.Some? then existing.completedAt else Some(now),
        transitions := existing.transitions + [entry])];
      return Done;
    }

    method CompleteRun(org: Uuid, runId: Uuid, now: int) returns (outcome: Outcome)
      modifies this
      ensures Effect(View(), outcome) == Workflow.CompleteRun(old(View()), org, runId, now)
    {
      if runId !in runs || runs[runId].org != org {
        return Error(IsolationViolation);
      }
      var run := runs[runId];
      if run.status != Running {
        return Error(InvalidTransition);
      }
      var entry := Change(run.status, Completed, None, None, now);
      runs := runs[runId := run.(
        status := Completed, completedAt := Some(now), workerTransitions := run.workerTransitions + [entry])];
      return Done;
    }

    method FailRun(org: Uuid, runId: Uuid, now: int) returns (outcome: Outcome)
      modifies this
      ensures Effect(View(), outcome) == Workflow.FailRun(old(View()), org, runId, now)
    {
      if runId !in runs || runs[runId].org != org {
        return Error(IsolationViolation);
      }
      var run := runs[runId];
      if run.status in {Completed, Failed, Canceled, Denied} {
        return Error(InvalidTransition);
      }
      var entry := Change(run.status, Failed, None, None, now);
      runs := runs[runId := run.(
        status := Failed,
        completedAt := if run.completedAt.Some? then run.completedAt else Some(now),
        workerTransitions := run.workerTransitions + [entry])];
      return Done;
    }
  }
}
