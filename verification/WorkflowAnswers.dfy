/** What each call on a run or an approval answers after any calls before it, and what it leaves, on the rows. */
module WorkflowAnswers {
  import opened Options
  import opened Workflow
  import opened WorkflowInvariants

  // ---------------------------------------------------------------- jobs carry the names of their runs

  /** A job's id spells what it is for. */
  ghost predicate NamedFor(k: JobKey, job: Job) {
    match k.queue
    case Runs => k.id == "start-" + job.runId && job.approvalId == None
    case Resume => job.approvalId.Some? && k.id == "resume-" + job.runId + "-" + job.approvalId.value
    case Maintenance => k.id == "cancel-" + job.runId && job.approvalId == None
  }

  ghost predicate JobsNamed(s: State) {
    forall k | k in s.jobs :: NamedFor(k, s.jobs[k])
  }

  lemma ApproveKeepsJobsNamed(s: State, user: Option<Uuid>, id: Uuid, now: int)
    requires JobsNamed(s)
    ensures JobsNamed(Approve(s, user, id, now).state)
  {
    var s' := Approve(s, user, id, now).state;
    forall k | k in s'.jobs ensures NamedFor(k, s'.jobs[k]) {
      if k in s.jobs { assert NamedFor(k, s.jobs[k]); }
    }
  }

  lemma CancelKeepsJobsNamed(s: State, c: Call)
    requires JobsNamed(s) && (c.CCancel? || c.CStart? || c.CWorkerStarts?)
    ensures JobsNamed(Apply(s, c))
  {
    var s' := Apply(s, c);
    forall k | k in s'.jobs ensures NamedFor(k, s'.jobs[k]) {
      if k in s.jobs { assert NamedFor(k, s.jobs[k]); }
    }
  }

  lemma OtherCallsAddNoJobs(s: State, c: Call)
    requires !c.CApprove? && !c.CCancel? && !c.CStart? && !c.CWorkerStarts? && !c.CExpireDue?
    ensures forall k | k in Apply(s, c).jobs :: k in s.jobs && Apply(s, c).jobs[k] == s.jobs[k]
  {
  }

  lemma CallKeepsJobsNamed(s: State, c: Call)
    requires JobsNamed(s)
    ensures JobsNamed(Apply(s, c))
  {
    if c.CExpireDue? {
      if IsDueBatch(s, c.batch, c.now) { ExpireAllJobs(s, c.batch, c.now); }
    } else if c.CApprove? {
      ApproveKeepsJobsNamed(s, c.user, c.id, c.now);
    } else if c.CCancel? || c.CStart? || c.CWorkerStarts? {
      CancelKeepsJobsNamed(s, c);
    } else {
      OtherCallsAddNoJobs(s, c);
      forall k | k in Apply(s, c).jobs ensures NamedFor(k, Apply(s, c).jobs[k]) {
        assert NamedFor(k, s.jobs[k]);
      }
    }
  }

  /** After any calls every job is named for its run, and a resume job also for its approval. */
  lemma {:induction false} AlwaysJobsNamed(calls: seq<Call>)
    ensures JobsNamed(After(calls))
  {
    if calls != [] {
      AlwaysJobsNamed(calls[..|calls| - 1]);
      CallKeepsJobsNamed(After(calls[..|calls| - 1]), calls[|calls| - 1]);
    }
  }

  // ---------------------------------------------------------------- approve and reject

  /** The expiry, if there is one, lies ahead. */
  predicate InTime(a: Approval, now: int) {
    a.expiresAt.Some? ==> now < a.expiresAt.value
  }

  /** A decision answers Done exactly for a pending approval of the caller's organization whose expiry lies ahead and
      whose run waits; otherwise the first thing that is wrong. */
  function DecisionAnswer(s: State, user: Option<Uuid>, id: Uuid, now: int): Outcome
    requires id in s.approvals ==> s.approvals[id].runId in s.runs
  {
    if user.None? then Error(PermissionDenied)
    else if id !in s.approvals || s.approvals[id].org != user.value then Error(NotFound)
    else if s.approvals[id].status != Pending then Error(InvalidTransition)
    else if !InTime(s.approvals[id], now) then Error(ValidationFailed)
    else if s.runs[s.approvals[id].runId].status != WaitingForApproval then Error(InvalidTransition)
    else Done
  }

  /** A refusal changes nothing, save that it expires an overdue approval and denies its run if that waits. */
  ghost predicate Refused(s: State, s': State, id: Uuid, now: int, expiry: bool) {
    if !expiry then s' == s
    else
      && id in s.approvals && s.approvals[id].runId in s.runs && s'.attempts == s.attempts && s'.jobs == s.jobs
      && s'.approvals == s.approvals[id := s.approvals[id].(status := Expired)]
      && var r := s.approvals[id].runId;
      if s.runs[r].status != WaitingForApproval then s'.runs == s.runs
      else s'.runs == s.runs[r := s.runs[r].(status := Denied, completedAt := Some(now))]
  }

  /** The approval is granted at `now`, its run goes on, and its resume job is in the queue. */
  ghost predicate Granted(s: State, s': State, id: Uuid, now: int) {
    && id in s.approvals && s.approvals[id].runId in s.runs && s'.attempts == s.attempts
    && var r := s.approvals[id].runId;
    && s'.approvals == s.approvals[id := s.approvals[id].(status := Approved, approvedAt := Some(now))]
    && var jobId := "resume-" + r + "-" + id;
    && s'.jobs == s.jobs[JobKey(Resume, jobId) := Job(r, Some(id), true)]
    && var entry := Change(WaitingForApproval, Running, Some(id), Some(jobId), now);
    && s'.runs == s.runs[r := s.runs[r].(status := Running, transitions := s.runs[r].transitions + [entry])]
  }

  /** The approval is rejected at `now` and its run denied. */
  ghost predicate TurnedDown(s: State, s': State, id: Uuid, now: int) {
    && id in s.approvals && s.approvals[id].runId in s.runs && s'.attempts == s.attempts && s'.jobs == s.jobs
    && var r := s.approvals[id].runId;
    && s'.approvals == s.approvals[id := s.approvals[id].(status := Rejected, rejectedAt := Some(now))]
    && var entry := Change(WaitingForApproval, Denied, Some(id), None, now);
    && s'.runs == s.runs[r := s.runs[r].(status := Denied, completedAt := Some(now),
                                         transitions := s.runs[r].transitions + [entry])]
  }

  lemma ApproveOutcome(s: State, user: Option<Uuid>, id: Uuid, now: int)
    requires Inv(s)
    ensures Approve(s, user, id, now).outcome == DecisionAnswer(s, user, id, now)
  {
  }

  lemma RejectOutcome(s: State, user: Option<Uuid>, id: Uuid, now: int)
    requires Inv(s)
    ensures Reject(s, user, id, now).outcome == DecisionAnswer(s, user, id, now)
  {
  }

  lemma ApproveLeaves(s: State, user: Option<Uuid>, id: Uuid, now: int)
    requires Inv(s)
    ensures var e := Approve(s, user, id, now);
            if e.outcome == Done then Granted(s, e.state, id, now)
            else Refused(s, e.state, id, now, e.outcome == Error(ValidationFailed))
  {
    if id in s.approvals && s.approvals[id].status == Pending {
      PendingHasNoJob(s, id);
    }
  }

  lemma RejectLeaves(s: State, user: Option<Uuid>, id: Uuid, now: int)
    requires Inv(s)
    ensures var e := Reject(s, user, id, now);
            if e.outcome == Done then TurnedDown(s, e.state, id, now)
            else Refused(s, e.state, id, now, e.outcome == Error(ValidationFailed))
  {
  }

  /** After any calls: what `approve` answers and what it leaves. */
  lemma ApproveAnswers(calls: seq<Call>, user: Option<Uuid>, id: Uuid, now: int)
    ensures id in After(calls).approvals ==> After(calls).approvals[id].runId in After(calls).runs
    ensures var e := Approve(After(calls), user, id, now);
      && e.outcome == DecisionAnswer(After(calls), user, id, now)
      && if e.outcome == Done then Granted(After(calls), e.state, id, now)
         else Refused(After(calls), e.state, id, now, e.outcome == Error(ValidationFailed))
  {
    AfterInv(calls);
    ApproveOutcome(After(calls), user, id, now);
    ApproveLeaves(After(calls), user, id, now);
  }

  /** After any calls: what `reject` answers and what it leaves. */
  lemma RejectAnswers(calls: seq<Call>, user: Option<Uuid>, id: Uuid, now: int)
    ensures id in After(calls).approvals ==> After(calls).approvals[id].runId in After(calls).runs
    ensures var e := Reject(After(calls), user, id, now);
      && e.outcome == DecisionAnswer(After(calls), user, id, now)
      && if e.outcome == Done then TurnedDown(After(calls), e.state, id, now)
         else Refused(After(calls), e.state, id, now, e.outcome == Error(ValidationFailed))
  {
    AfterInv(calls);
    RejectOutcome(After(calls), user, id, now);
    RejectLeaves(After(calls), user, id, now);
  }

  // ---------------------------------------------------------------- the sweep

  predicate Overdue(a: Approval, now: int) {
    a.status == Pending && a.expiresAt.Some? && a.expiresAt.value <= now
  }

  lemma DueMeans(s: State, now: int)
    ensures forall id :: id in Due(s, now) <==> id in s.approvals && Overdue(s.approvals[id], now)
  {
  }

  /** What a sweep expires was pending with its time up, was not overdue later than what it leaves, and nothing else
      changes about it or about any other approval; a sweep of fewer than a hundred leaves none that is overdue. */
  lemma SweepTakesOverdue(s: State, ids: seq<Uuid>, now: int)
    requires Inv(s) && IsDueBatch(s, ids, now)
    ensures var s' := ExpireAll(s, ids, now);
      && s'.approvals.Keys == s.approvals.Keys
      && (forall id | id in s.approvals ::
            s'.approvals[id] == if id in ids then s.approvals[id].(status := Expired) else s.approvals[id])
    ensures forall id | id in ids :: id in s.approvals && Overdue(s.approvals[id], now)
    ensures forall id, other | id in ids && other in s.approvals && other !in ids && Overdue(s.approvals[other], now) ::
              s.approvals[id].expiresAt.value <= s.approvals[other].expiresAt.value
    ensures |ids| <= 100
    ensures |ids| < 100 ==>
              forall id | id in s.approvals :: !Overdue(ExpireAll(s, ids, now).approvals[id], now)
  {
    DueMeans(s, now);
    assert forall i | 0 <= i < |ids| :: ids[i] in Due(s, now);
    forall id | id in s.approvals
      ensures ExpireAll(s, ids, now).approvals[id]
           == if id in ids then s.approvals[id].(status := Expired) else s.approvals[id]
    {
      ExpireAllApproval(s, ids, now, id);
    }
    if |ids| < 100 {
      AllTaken(s, ids, now);
    }
  }

  lemma AllTaken(s: State, ids: seq<Uuid>, now: int)
    requires IsDueBatch(s, ids, now) && |ids| < 100
    ensures forall id | id in Due(s, now) :: id in ids
  {
    var taken := set id | id in ids;
    TakenSize(ids);
    var rest := Due(s, now) - taken;
    assert taken <= Due(s, now) && |taken| == |Due(s, now)|;
    assert Due(s, now) == taken + rest && |Due(s, now)| == |taken| + |rest|;
    assert rest == {};
  }

  lemma {:induction false} TakenSize(ids: seq<Uuid>)
    requires forall i, j | 0 <= i < j < |ids| :: ids[i] != ids[j]
    ensures |set id | id in ids| == |ids|
  {
    if ids != [] {
      var n := |ids| - 1;
      TakenSize(ids[..n]);
      assert ids == ids[..n] + [ids[n]];
      assert (set id | id in ids) == (set id | id in ids[..n]) + {ids[n]};
    }
  }

  /** A run is touched by a sweep exactly if it waits and one of its approvals is expired: it is denied at that time. */
  lemma SweepDenies(s: State, ids: seq<Uuid>, now: int, r: Uuid)
    requires Inv(s) && IsDueBatch(s, ids, now) && r in s.runs
    ensures r in ExpireAll(s, ids, now).runs
    ensures ExpireAll(s, ids, now).runs[r] ==
              if s.runs[r].status == WaitingForApproval && exists id | id in ids :: s.approvals[id].runId == r
              then s.runs[r].(status := Denied, completedAt := Some(now)) else s.runs[r]
  {
    assert forall i | 0 <= i < |ids| :: ids[i] in Due(s, now);
    ExpireAllRun(s, ids, now, r);
    TouchesIff(s, ids, r);
  }

  // ---------------------------------------------------------------- asking for an approval

  /** The columns of the row take the request's values: an amount of at most 2147483647, texts and JSON without NUL, a
      date that exists; and neither the attempt nor the id of the row has been used. */
  predicate RowTaken(s: State, q: Request, approvalId: Uuid) {
    && (q.amountCents.Some? ==> q.amountCents.value <= 2147483647)
    && '\0' !in q.summary && JsonStorable(q.policyTriggered) && q.expiresAt != InvalidDate
    && approvalId !in s.approvals && (forall a | a in s.approvals :: s.approvals[a].attemptId != q.attemptId)
  }

  /** The request concerns an attempt of this run that needs approval, shows a screenshot of the run, and the run is
      running or waits already. */
  predicate Askable(s: State, r: Uuid, q: Request) {
    && r in s.runs && q.attemptId in s.attempts && s.attempts[q.attemptId] == Attempt(s.runs[r].org, r, true)
    && q.screenshotInRun && s.runs[r].status in {Running, WaitingForApproval}
  }

  /** The run waits, if it did not before. */
  ghost predicate MadeToWait(s: State, s': State, r: Uuid, now: int) {
    && r in s.runs && s'.attempts == s.attempts && s'.jobs == s.jobs
    && if s.runs[r].status == WaitingForApproval then s'.runs == s.runs
       else
         var entry := Change(Running, WaitingForApproval, None, None, now);
         s'.runs == s.runs[r := s.runs[r].(status := WaitingForApproval,
           transitions := s.runs[r].transitions + [entry])]
  }

  /** `createForRun` adds a pending approval with the request's expiry exactly for askable requests whose row is taken;
      if only the row is not taken the run waits all the same; otherwise nothing changes. */
  lemma CreateAnswers(s: State, r: Uuid, q: Request, id: Uuid, now: int)
    ensures var e := CreateForRun(s, r, q, id, now);
      && (e.outcome == Done <==> Askable(s, r, q) && RowTaken(s, q, id))
      && (e.outcome == Error(NotFound) <==>
            r !in s.runs || q.attemptId !in s.attempts
            || s.attempts[q.attemptId].(requiresApproval := true) != Attempt(s.runs[r].org, r, true))
      && (Askable(s, r, q) && !RowTaken(s, q, id) ==> e.outcome in {Error(UnstorableRow), Error(UniqueViolation)})
      && (!Askable(s, r, q) ==> e.state == s)
      && (Askable(s, r, q) ==> MadeToWait(s, e.state, r, now))
      && (Askable(s, r, q) && !RowTaken(s, q, id) ==> e.state.approvals == s.approvals)
      && (e.outcome == Done ==>
            e.state.approvals == s.approvals[id := Approval(s.runs[r].org, r, q.attemptId, Pending,
              match q.expiresAt case At(t) => Some(t) case _ => None, None, None)])
  {
  }

  // ---------------------------------------------------------------- ending a run

  /** The run gets its last status, and the time if it has none yet; approvals and attempts stay. */
  ghost predicate Ended(s: State, s': State, r: Uuid, status: RunStatus, now: int, byWorker: bool) {
    && r in s.runs && s'.approvals == s.approvals && s'.attempts == s.attempts
    && var run, entry := s.runs[r], Change(s.runs[r].status, status, None, None, now);
    && s'.runs == s.runs[r := run.(
         status := status, completedAt := Some(now),
         transitions := if byWorker then run.transitions else run.transitions + [entry],
         workerTransitions := if byWorker then run.workerTransitions + [entry] else run.workerTransitions)]
  }

  predicate Unfinished(s: State, r: Uuid) {
    r in s.runs && s.runs[r].status in {Queued, Running, WaitingForApproval}
  }

  lemma UnfinishedHasNoTime(s: State, r: Uuid)
    requires Inv(s) && Unfinished(s, r)
    ensures s.runs[r].completedAt == None && !Terminal(s.runs[r].status)
  {
  }

  lemma FinishedIsTerminal(s: State, r: Uuid)
    requires r in s.runs && !Unfinished(s, r)
    ensures Terminal(s.runs[r].status)
  {
    var status := s.runs[r].status;
    assert status == Completed || status == Failed || status == Canceled || status == Denied;
  }

  /** After any calls: a worker completes exactly a running run of its organization; the run is COMPLETED. */
  lemma CompleteAnswers(calls: seq<Call>, org: Uuid, r: Uuid, now: int)
    ensures var s, e := After(calls), CompleteRun(After(calls), org, r, now);
      && e.outcome == (if r !in s.runs || s.runs[r].org != org then Error(IsolationViolation)
                       else if s.runs[r].status != Running then Error(InvalidTransition) else Done)
      && if e.outcome == Done then Ended(s, e.state, r, Completed, now, true) && e.state.jobs == s.jobs
         else e.state == s
  {
  }

  lemma FailLeaves(s: State, org: Uuid, r: Uuid, now: int)
    requires Unfinished(s, r) ==> s.runs[r].completedAt == None
    ensures var e := FailRun(s, org, r, now);
      && e.outcome == (if r !in s.runs || s.runs[r].org != org then Error(IsolationViolation)
                       else if !Unfinished(s, r) then Error(InvalidTransition) else Done)
      && if e.outcome == Done then Ended(s, e.state, r, Failed, now, true) && e.state.jobs == s.jobs
         else e.state == s
  {
    if r in s.runs && !Unfinished(s, r) { FinishedIsTerminal(s, r); }
  }

  /** After any calls: a worker fails exactly a run of its organization that has not ended; the run is FAILED. */
  lemma FailAnswers(calls: seq<Call>, org: Uuid, r: Uuid, now: int)
    ensures var s, e := After(calls), FailRun(After(calls), org, r, now);
      && e.outcome == (if r !in s.runs || s.runs[r].org != org then Error(IsolationViolation)
                       else if !Unfinished(s, r) then Error(InvalidTransition) else Done)
      && if e.outcome == Done then Ended(s, e.state, r, Failed, now, true) && e.state.jobs == s.jobs
         else e.state == s
  {
    if Unfinished(After(calls), r) {
      AfterInv(calls);
      UnfinishedHasNoTime(After(calls), r);
    }
    FailLeaves(After(calls), org, r, now);
  }

  lemma GiveUpLeaves(s: State, r: Uuid, now: int)
    requires Unfinished(s, r) ==> s.runs[r].completedAt == None
    ensures var e := MarkPermanentFailure(s, r, now);
      && e.outcome == (if r in s.runs then Done else Error(NotFound))
      && if Unfinished(s, r) then Ended(s, e.state, r, Failed, now, false) && e.state.jobs == s.jobs else e.state == s
  {
  }

  /** After any calls: the queue gives up exactly on runs that have not ended; they are FAILED. */
  lemma GiveUpAnswers(calls: seq<Call>, r: Uuid, now: int)
    ensures var s, e := After(calls), MarkPermanentFailure(After(calls), r, now);
      && e.outcome == (if r in s.runs then Done else Error(NotFound))
      && if Unfinished(s, r) then Ended(s, e.state, r, Failed, now, false) && e.state.jobs == s.jobs else e.state == s
  {
    if Unfinished(After(calls), r) {
      AfterInv(calls);
      UnfinishedHasNoTime(After(calls), r);
    }
    GiveUpLeaves(After(calls), r, now);
  }

  /** The start job of a queued run is taken away if no worker has it yet; any other run gets a cancel job. */
  ghost predicate QueueTold(s: State, s': State, r: Uuid) {
    r in s.runs &&
    var start, stop := JobKey(Runs, "start-" + r), JobKey(Maintenance, "cancel-" + r);
    if s.runs[r].status == Queued
    then s'.jobs == if start in s.jobs && s.jobs[start].unstarted then s.jobs - {start} else s.jobs
    else s'.jobs == if stop in s.jobs then s.jobs else s.jobs[stop := Job(r, None, true)]
  }

  /** The run is the user's organization's, and has not ended. */
  predicate Cancelable(s: State, user: Option<Uuid>, r: Uuid) {
    user.Some? && Unfinished(s, r) && s.runs[r].org == user.value
  }

  function CancelAnswer(s: State, user: Option<Uuid>, r: Uuid, reason: string): Outcome {
    if Cancelable(s, user, r) then if '\0' in reason then Error(UnstorableRow) else Done
    else if user.None? then Error(PermissionDenied)
    else if r in s.runs && s.runs[r].org == user.value then Error(InvalidTransition)
    else Error(NotFound)
  }

  lemma CancelOutcome(s: State, user: Option<Uuid>, r: Uuid, reason: string, now: int)
    ensures Cancel(s, user, r, reason, now).outcome == CancelAnswer(s, user, r, reason)
    ensures !Cancelable(s, user, r) ==> Cancel(s, user, r, reason, now).state == s
  {
  }

  lemma CancelLeaves(s: State, user: Option<Uuid>, r: Uuid, reason: string, now: int)
    requires Cancelable(s, user, r) && s.runs[r].completedAt == None
    ensures var s' := Cancel(s, user, r, reason, now).state;
      && QueueTold(s, s', r)
      && if '\0' in reason then s' == s.(jobs := s'.jobs) else Ended(s, s', r, Canceled, now, false)
  {
  }

  /** After any calls: a user cancels exactly a run of the user's organization that has not ended, for a reason without
      NUL; the run is CANCELED and the queue told. With another reason only the queue is told. */
  lemma CancelAnswers(calls: seq<Call>, user: Option<Uuid>, r: Uuid, reason: string, now: int)
    ensures var s, e := After(calls), Cancel(After(calls), user, r, reason, now);
      && e.outcome == CancelAnswer(s, user, r, reason)
      && (!Cancelable(s, user, r) ==> e.state == s)
      && (Cancelable(s, user, r) ==>
            && QueueTold(s, e.state, r)
            && if '\0' in reason then e.state == s.(jobs := e.state.jobs)
              else Ended(s, e.state, r, Canceled, now, false))
  {
    CancelOutcome(After(calls), user, r, reason, now);
    if Cancelable(After(calls), user, r) {
      AfterInv(calls);
      UnfinishedHasNoTime(After(calls), r);
      CancelLeaves(After(calls), user, r, reason, now);
    }
  }

  /** A new run is queued and its start job in the queue; a worker takes exactly queued runs. */
  lemma StartAnswers(calls: seq<Call>, org: Uuid, r: Uuid)
    ensures var s, e := After(calls), Start(After(calls), org, r);
      && (e.outcome == Done <==> r !in s.runs)
      && if r in s.runs then e.state == s
         else
           var key := JobKey(Runs, "start-" + r);
           && e.state.runs == s.runs[r := Run(org, Queued, None, [], [])]
           && key in e.state.jobs && e.state.jobs[key].runId == r && e.state.jobs - {key} == s.jobs - {key}
           && e.state.approvals == s.approvals && e.state.attempts == s.attempts
  {
    AlwaysJobsNamed(calls);
    var s, key := After(calls), JobKey(Runs, "start-" + r);
    if key in s.jobs {
      assert NamedFor(key, s.jobs[key]);
      assert ("start-" + s.jobs[key].runId)[6..] == s.jobs[key].runId && ("start-" + r)[6..] == r;
    }
  }

  // ---------------------------------------------------------------- organizations are kept apart

  /** The organization a call is made for. */
  function MadeFor(c: Call): Option<Uuid>
    requires c.CApprove? || c.CReject? || c.CCancel? || c.CCompleteRun? || c.CFailRun?
  {
    if c.CCompleteRun? || c.CFailRun? then Some(c.org) else c.user
  }

  ghost predicate RowsKept(s: State, s': State, org: Uuid) {
    && (forall r | r in s.runs && s.runs[r].org == org :: r in s'.runs && s'.runs[r] == s.runs[r])
    && (forall r | r in s'.runs && s'.runs[r].org == org :: r in s.runs)
    && (forall a | a in s.approvals && s.approvals[a].org == org ::
          a in s'.approvals && s'.approvals[a] == s.approvals[a])
    && (forall a | a in s'.approvals && s'.approvals[a].org == org :: a in s.approvals)
  }

  predicate JobOf(s: State, k: JobKey, org: Uuid) {
    k in s.jobs && s.jobs[k].runId in s.runs && s.runs[s.jobs[k].runId].org == org
  }

  ghost predicate JobsKept(s: State, s': State, org: Uuid) {
    && (forall k | JobOf(s, k, org) :: k in s'.jobs && s'.jobs[k] == s.jobs[k])
    && (forall k | JobOf(s', k, org) :: JobOf(s, k, org))
  }

  lemma ApproveKeepsApart(s: State, user: Option<Uuid>, id: Uuid, now: int, org: Uuid)
    requires Inv(s) && user != Some(org)
    ensures RowsKept(s, Approve(s, user, id, now).state, org)
  {
    ApproveOutcome(s, user, id, now);
    ApproveLeaves(s, user, id, now);
  }

  lemma RejectKeepsApart(s: State, user: Option<Uuid>, id: Uuid, now: int, org: Uuid)
    requires Inv(s) && user != Some(org)
    ensures RowsKept(s, Reject(s, user, id, now).state, org)
  {
    RejectOutcome(s, user, id, now);
    RejectLeaves(s, user, id, now);
  }

  lemma CompleteKeepsApart(s: State, caller: Uuid, r: Uuid, now: int, org: Uuid)
    requires caller != org
    ensures RowsKept(s, CompleteRun(s, caller, r, now).state, org)
    ensures JobsKept(s, CompleteRun(s, caller, r, now).state, org)
  {
  }

  lemma FailKeepsApart(s: State, caller: Uuid, r: Uuid, now: int, org: Uuid)
    requires caller != org
    ensures RowsKept(s, FailRun(s, caller, r, now).state, org) && JobsKept(s, FailRun(s, caller, r, now).state, org)
  {
  }

  lemma CancelKeepsApart(s: State, c: Call, org: Uuid)
    requires c.CCancel? && c.user != Some(org)
    ensures RowsKept(s, Apply(s, c), org)
  {
  }

  lemma ApproveKeepsJobs(s: State, user: Option<Uuid>, id: Uuid, now: int, org: Uuid)
    requires Inv(s) && user != Some(org)
    ensures JobsKept(s, Approve(s, user, id, now).state, org)
  {
    ApproveOutcome(s, user, id, now);
    ApproveLeaves(s, user, id, now);
    ApproveKeepsApart(s, user, id, now, org);
    if id in s.approvals && s.approvals[id].status == Pending {
      PendingHasNoJob(s, id);
    }
  }

  lemma CancelKeepsJobs(s: State, c: Call, org: Uuid)
    requires JobsNamed(s) && c.CCancel? && c.user != Some(org)
    ensures JobsKept(s, Apply(s, c), org)
  {
    var start := JobKey(Runs, "start-" + c.runId);
    if start in s.jobs {
      assert NamedFor(start, s.jobs[start]);
      assert ("start-" + s.jobs[start].runId)[6..] == s.jobs[start].runId && ("start-" + c.runId)[6..] == c.runId;
    }
  }

  /** After any calls: one made for an organization leaves every run, approval and job of every other as it was. */
  lemma OrganizationsKeptApart(calls: seq<Call>, c: Call, org: Uuid)
    requires c.CApprove? || c.CReject? || c.CCancel? || c.CCompleteRun? || c.CFailRun?
    requires MadeFor(c) != Some(org)
    ensures RowsKept(After(calls), After(calls + [c]), org)
    ensures JobsKept(After(calls), After(calls + [c]), org)
  {
    var s := After(calls);
    assert (calls + [c])[..|calls|] == calls;
    AfterInv(calls);
    AlwaysJobsNamed(calls);
    if c.CApprove? {
      ApproveKeepsApart(s, c.user, c.id, c.now, org);
      ApproveKeepsJobs(s, c.user, c.id, c.now, org);
    } else if c.CReject? {
      RejectKeepsApart(s, c.user, c.id, c.now, org);
      RejectKeepsJobs(s, c.user, c.id, c.now, org);
    } else if c.CCancel? {
      CancelKeepsApart(s, c, org);
      CancelKeepsJobs(s, c, org);
    } else if c.CCompleteRun? {
      CompleteKeepsApart(s, c.org, c.runId, c.now, org);
    } else {
      FailKeepsApart(s, c.org, c.runId, c.now, org);
    }
  }

  lemma RejectKeepsJobs(s: State, user: Option<Uuid>, id: Uuid, now: int, org: Uuid)
    requires Inv(s) && user != Some(org)
    ensures JobsKept(s, Reject(s, user, id, now).state, org)
  {
    RejectLeaves(s, user, id, now);
  }

  // ---------------------------------------------------------------- the transition table

  /** Some calls bring a run to `from`, and one more takes it to `to`. */
  ghost predicate Taken(from: RunStatus, to: RunStatus) {
    exists calls, c, r :: Moves(calls, c, r, from, to)
  }

  ghost predicate Moves(calls: seq<Call>, c: Call, r: Uuid, from: RunStatus, to: RunStatus) {
    && r in After(calls).runs && After(calls).runs[r].status == from
    && r in Apply(After(calls), c).runs && Apply(After(calls), c).runs[r].status == to
  }

  const ID: Uuid := "00000000-0000-0000-0000-000000000000"

  /** The one run is the caller's and has this status. */
  ghost predicate RunIs(s: State, status: RunStatus) {
    ID in s.runs && s.runs[ID].org == ID && s.runs[ID].status == status
  }

  lemma WorkerMoves(s: State, from: RunStatus)
    requires RunIs(s, from)
    ensures from == Queued ==> RunIs(Apply(s, CWorkerStarts(ID)), Running)
    ensures from == Running ==> RunIs(Apply(s, CCompleteRun(ID, ID, 0)), Completed)
  {
  }

  lemma FailMovesTo(s: State, from: RunStatus)
    requires RunIs(s, from) && from in {Queued, Running, WaitingForApproval}
    ensures RunIs(Apply(s, CFailRun(ID, ID, 0)), Failed)
  {
  }

  lemma CancelMovesTo(s: State, from: RunStatus)
    requires RunIs(s, from) && from in {Queued, Running, WaitingForApproval}
    ensures RunIs(Apply(s, CCancel(Some(ID), ID, "", 0)), Canceled)
  {
  }

  lemma QueuedRun() returns (calls: seq<Call>)
    ensures RunIs(After(calls), Queued)
  {
    calls := [CStart(ID, ID)];
    assert calls[..0] == [] && After(calls) == Apply(EMPTY, calls[0]);
  }

  lemma RunningRun() returns (calls: seq<Call>)
    ensures var s := After(calls);
      RunIs(s, Running) && s.approvals == map[] && s.attempts == map[ID := Attempt(ID, ID, true)]
  {
    calls := Started(ID, ID, ID);
    AskedOnce(ID, ID, ID);
  }

  lemma AskMoves(s: State)
    requires RunIs(s, Running) && s.approvals == map[] && s.attempts == map[ID := Attempt(ID, ID, true)]
    ensures var s' := Apply(s, CCreateForRun(ID, Asking(ID, None), ID, 0));
      && RunIs(s', WaitingForApproval)
      && ID in s'.approvals && s'.approvals[ID] == Approval(ID, ID, ID, Pending, None, None, None)
  {
    AskingStorable(ID);
  }

  lemma WaitingRun() returns (calls: seq<Call>)
    ensures var s := After(calls);
      && RunIs(s, WaitingForApproval)
      && ID in s.approvals && s.approvals[ID] == Approval(ID, ID, ID, Pending, None, None, None)
  {
    var before := RunningRun();
    calls := before + [CCreateForRun(ID, Asking(ID, None), ID, 0)];
    assert calls[..|before|] == before;
    AskMoves(After(before));
  }

  lemma DecisionMoves(s: State)
    requires RunIs(s, WaitingForApproval)
    requires ID in s.approvals && s.approvals[ID] == Approval(ID, ID, ID, Pending, None, None, None)
    ensures RunIs(Apply(s, CApprove(Some(ID), ID, 0)), Running) && RunIs(Apply(s, CReject(Some(ID), ID, 0)), Denied)
  {
  }

  lemma MovesAre(calls: seq<Call>, c: Call, from: RunStatus, to: RunStatus)
    requires RunIs(After(calls), from) && RunIs(Apply(After(calls), c), to)
    ensures Taken(from, to)
  {
    assert Moves(calls, c, ID, from, to);
  }

  lemma QueuedMoves()
    ensures Taken(Queued, Running) && Taken(Queued, Canceled) && Taken(Queued, Failed)
  {
    var calls := QueuedRun();
    WorkerMoves(After(calls), Queued);
    FailMovesTo(After(calls), Queued);
    CancelMovesTo(After(calls), Queued);
    MovesAre(calls, CWorkerStarts(ID), Queued, Running);
    MovesAre(calls, CCancel(Some(ID), ID, "", 0), Queued, Canceled);
    MovesAre(calls, CFailRun(ID, ID, 0), Queued, Failed);
  }

  lemma RunningMoves()
    ensures Taken(Running, WaitingForApproval) && Taken(Running, Completed)
    ensures Taken(Running, Failed) && Taken(Running, Canceled)
  {
    var calls := RunningRun();
    AskMoves(After(calls));
    WorkerMoves(After(calls), Running);
    FailMovesTo(After(calls), Running);
    CancelMovesTo(After(calls), Running);
    MovesAre(calls, CCreateForRun(ID, Asking(ID, None), ID, 0), Running, WaitingForApproval);
    MovesAre(calls, CCompleteRun(ID, ID, 0), Running, Completed);
    MovesAre(calls, CFailRun(ID, ID, 0), Running, Failed);
    MovesAre(calls, CCancel(Some(ID), ID, "", 0), Running, Canceled);
  }

  lemma WaitingMoves()
    ensures Taken(WaitingForApproval, Running) && Taken(WaitingForApproval, Denied)
    ensures Taken(WaitingForApproval, Failed) && Taken(WaitingForApproval, Canceled)
  {
    var calls := WaitingRun();
    DecisionMoves(After(calls));
    FailMovesTo(After(calls), WaitingForApproval);
    CancelMovesTo(After(calls), WaitingForApproval);
    MovesAre(calls, CApprove(Some(ID), ID, 0), WaitingForApproval, Running);
    MovesAre(calls, CReject(Some(ID), ID, 0), WaitingForApproval, Denied);
    MovesAre(calls, CFailRun(ID, ID, 0), WaitingForApproval, Failed);
    MovesAre(calls, CCancel(Some(ID), ID, "", 0), WaitingForApproval, Canceled);
  }

  lemma EdgesTaken(from: RunStatus, to: RunStatus)
    requires CanTransition(from, to) || (from == Queued && to == Failed)
    ensures Taken(from, to)
  {
    if from == Queued {
      assert to == Running || to == Canceled || to == Failed;
      QueuedMoves();
    } else if from == Running {
      assert to == WaitingForApproval || to == Completed || to == Failed || to == Canceled;
      RunningMoves();
    } else {
      assert from == WaitingForApproval && (to == Running || to == Denied || to == Failed || to == Canceled);
      WaitingMoves();
    }
  }

  lemma TakenIsEdge(calls: seq<Call>, c: Call, r: Uuid, from: RunStatus, to: RunStatus)
    requires Moves(calls, c, r, from, to) && from != to
    ensures CanTransition(from, to) || (from == Queued && to == Failed)
  {
    EveryChangeAllowed(calls, c, r);
    assert (calls + [c])[..|calls|] == calls;
  }

  /** The services take every edge of the table and no other, save that a queued run can fail. */
  lemma TableIsWhatServicesDo(from: RunStatus, to: RunStatus)
    requires from != to
    ensures Taken(from, to) <==> CanTransition(from, to) || (from == Queued && to == Failed)
  {
    if CanTransition(from, to) || (from == Queued && to == Failed) {
      EdgesTaken(from, to);
    }
    if calls, c, r :| Moves(calls, c, r, from, to) {
      TakenIsEdge(calls, c, r, from, to);
    }
  }
}
