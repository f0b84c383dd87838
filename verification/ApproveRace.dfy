/** `approve` split at its awaits, run by any number of callers at once and interleaved with every other call.
    A caller may stop for ever at any await, which is what a crash leaves behind. */
module ApproveRace {
  import opened Options
  import opened Workflow
  import opened WorkflowInvariants

  datatype Phase =
    | Called                                  // nothing read yet
    | Overdue                                 // read pending but expired
    | Loaded(approval: Approval)              // read pending
    | Checked(approval: Approval, run: Run)   // run read, transition allowed
    | Marked(approval: Approval, run: Run)    // approval row updated
    | Looked(approval: Approval, run: Run)    // the queue has no such job
    | Enqueued(approval: Approval, run: Run)  // the job was found or added
    | Stopped                                 // refused, or done

  datatype Caller = Caller(org: Uuid, id: Uuid, phase: Phase)

  /** `added` holds every job that has ever been in the queue. */
  datatype Race = Race(plane: State, callers: seq<Caller>, added: set<JobKey>)

  datatype Step =
    | Begin(org: Uuid, id: Uuid)
    | Load(caller: nat, now: int)
    | ExpireLoaded(caller: nat, now: int)
    | CheckRun(caller: nat)
    | Mark(caller: nat, now: int)
    | Look(caller: nat)
    | Add(caller: nat)
    | Finish(caller: nat, now: int)
    | Other(call: Call)

  function Account(s: Race, plane: State): Race {
    s.(plane := plane, added := s.added + plane.jobs.Keys)
  }

  function Goto(s: Race, c: nat, phase: Phase): Race
    requires c < |s.callers|
  {
    s.(callers := s.callers[c := s.callers[c].(phase := phase)])
  }

  function KeyOf(approval: Approval, id: Uuid): JobKey {
    ResumeKey(approval.runId, id)
  }

  /** The run row a finishing caller writes: the JSON state is rebuilt from the run as it was read. */
  function FinishedRun(current: Run, read: Run, approval: Approval, id: Uuid, now: int): Run {
    current.(status := Running,
             transitions := read.transitions
               + [Change(read.status, Running, Some(id), Some(KeyOf(approval, id).id), now)],
             workerTransitions := read.workerTransitions)
  }

  /** The step of one caller; a step that does not fit its phase changes nothing. */
  ghost function CallerStep(s: Race, c: nat, step: Step): Race
    requires c < |s.callers|
  {
    var me, plane := s.callers[c], s.plane;
    match (step, me.phase)
    case (Load(_, now), Called) =>
      if me.id !in plane.approvals || plane.approvals[me.id].org != me.org || plane.approvals[me.id].status != Pending
      then Goto(s, c, Stopped)
      else if IsExpired(plane.approvals[me.id], now) then Goto(s, c, Overdue)
      else Goto(s, c, Loaded(plane.approvals[me.id]))
    case (ExpireLoaded(_, now), Overdue) =>
      if me.id in plane.approvals then Goto(Account(s, ExpireApproval(plane, me.id, now)), c, Stopped) else s
    case (CheckRun(_), Loaded(a)) =>
      if a.runId in plane.runs && plane.runs[a.runId].org == me.org
        && CanTransition(plane.runs[a.runId].status, Running)
      then Goto(s, c, Checked(a, plane.runs[a.runId])) else Goto(s, c, Stopped)
    case (Mark(_, now), Checked(a, run)) =>
      if me.id in plane.approvals then
        Goto(Account(s, plane.(approvals := plane.approvals[me.id :=
          plane.approvals[me.id].(status := Approved, approvedAt := Some(now))])), c, Marked(a, run))
      else s
    case (Look(_), Marked(a, run)) =>
      Goto(s, c, if KeyOf(a, me.id) in plane.jobs then Enqueued(a, run) else Looked(a, run))
    case (Add(_), Looked(a, run)) =>
      Goto(Account(s, plane.(jobs := AddIdempotent(plane.jobs, KeyOf(a, me.id), Job(a.runId, Some(me.id), true)))),
        c, Enqueued(a, run))
    case (Finish(_, now), Enqueued(a, run)) =>
      if a.runId in plane.runs then
        Goto(Account(s, plane.(runs := plane.runs[a.runId := FinishedRun(plane.runs[a.runId], run, a, me.id, now)])),
          c, Stopped)
      else s
    case _ => s
  }

  ghost function Take(s: Race, step: Step): Race {
    match step
    case Begin(org, id) => s.(callers := s.callers + [Caller(org, id, Called)])
    case Other(call) => Account(s, Apply(s.plane, call))
    case _ => if step.caller < |s.callers| then CallerStep(s, step.caller, step) else s
  }

  ghost function After(steps: seq<Step>): Race {
    if steps == [] then Race(EMPTY, [], {})
    else Take(After(steps[..|steps| - 1]), steps[|steps| - 1])
  }

  // ---------------------------------------------------------------- invariant

  /** The approval behind a resume job has had its `approvedAt` written. */
  ghost predicate JobJustified(plane: State, k: JobKey)
    requires k in plane.jobs
  {
    var job := plane.jobs[k];
    && job.approvalId.Some? && job.approvalId.value in plane.approvals
    && plane.approvals[job.approvalId.value].approvedAt.Some?
    && plane.approvals[job.approvalId.value].runId == job.runId
    && k == ResumeKey(job.runId, job.approvalId.value)
  }

  ghost predicate JobsJustified(plane: State) {
    forall k | k in plane.jobs && k.queue == Resume :: JobJustified(plane, k)
  }

  /** Every resume job named in a run's JSON state was added at some time. */
  ghost predicate Named(run: Run, added: set<JobKey>) {
    forall e | (e in run.transitions || e in run.workerTransitions) && e.resumeJobId.Some? ::
      JobKey(Resume, e.resumeJobId.value) in added
  }

  ghost predicate EntriesNamed(plane: State, added: set<JobKey>) {
    forall r | r in plane.runs :: Named(plane.runs[r], added)
  }

  ghost predicate CallerOk(plane: State, added: set<JobKey>, me: Caller) {
    match me.phase
    case Loaded(a) => me.id in plane.approvals && plane.approvals[me.id].runId == a.runId
    case Checked(a, run) => me.id in plane.approvals && plane.approvals[me.id].runId == a.runId && Named(run, added)
    case Marked(a, run) => MarkedOk(plane, added, me, a, run)
    case Looked(a, run) => MarkedOk(plane, added, me, a, run)
    case Enqueued(a, run) => MarkedOk(plane, added, me, a, run) && KeyOf(a, me.id) in added
    case _ => true
  }

  ghost predicate MarkedOk(plane: State, added: set<JobKey>, me: Caller, a: Approval, run: Run) {
    && me.id in plane.approvals && plane.approvals[me.id].runId == a.runId && plane.approvals[me.id].approvedAt.Some?
    && Named(run, added)
  }

  ghost predicate Accounted(s: Race) {
    s.plane.jobs.Keys <= s.added
  }

  ghost predicate Inv(s: Race) {
    && JobsJustified(s.plane) && EntriesNamed(s.plane, s.added) && Accounted(s)
    && forall c | 0 <= c < |s.callers| :: CallerOk(s.plane, s.added, s.callers[c])
  }

  // ---------------------------------------------------------------- how the plane evolves

  ghost predicate ApprovalsGrow(s: State, s': State) {
    forall a | a in s.approvals ::
      a in s'.approvals && s'.approvals[a].runId == s.approvals[a].runId
      && (s.approvals[a].approvedAt.Some? ==> s'.approvals[a].approvedAt.Some?)
  }

  ghost predicate JobsGrow(s: State, s': State) {
    forall k | k in s'.jobs && k.queue == Resume :: (k in s.jobs && s'.jobs[k] == s.jobs[k]) || JobJustified(s', k)
  }

  /** An entry of the new run was in the old one, names no job, or names a job in the queue. */
  ghost predicate EntryKept(s: State, s': State, r: Uuid, e: Change) {
    || e.resumeJobId.None?
    || JobKey(Resume, e.resumeJobId.value) in s'.jobs
    || (r in s.runs && (e in s.runs[r].transitions || e in s.runs[r].workerTransitions))
  }

  ghost predicate RunsGrow(s: State, s': State) {
    forall r, e | r in s'.runs && (e in s'.runs[r].transitions || e in s'.runs[r].workerTransitions) ::
      EntryKept(s, s', r, e)
  }

  ghost predicate Evolves(s: State, s': State) {
    ApprovalsGrow(s, s') && JobsGrow(s, s') && RunsGrow(s, s')
  }

  lemma AccountKeepsJobs(s: Race, plane: State)
    requires JobsJustified(s.plane) && Evolves(s.plane, plane)
    ensures JobsJustified(plane)
  {
    forall k | k in plane.jobs && k.queue == Resume ensures JobJustified(plane, k) {
      if k in s.plane.jobs && plane.jobs[k] == s.plane.jobs[k] { assert JobJustified(s.plane, k); }
    }
  }

  lemma AccountKeepsEntries(s: Race, plane: State)
    requires EntriesNamed(s.plane, s.added) && Accounted(s) && RunsGrow(s.plane, plane)
    ensures EntriesNamed(plane, Account(s, plane).added) && Accounted(Account(s, plane))
  {
    var s' := Account(s, plane);
    assert s.added <= s'.added;
    assert forall k | k in plane.jobs :: k in s'.added;
    forall r | r in plane.runs ensures Named(plane.runs[r], s'.added) {
      forall e | (e in plane.runs[r].transitions || e in plane.runs[r].workerTransitions) && e.resumeJobId.Some?
        ensures JobKey(Resume, e.resumeJobId.value) in s'.added
      {
        assert EntryKept(s.plane, plane, r, e);
        if r in s.plane.runs { assert Named(s.plane.runs[r], s.added); }
      }
    }
  }

  lemma AccountKeeps(s: Race, plane: State)
    requires Inv(s) && Evolves(s.plane, plane)
    ensures Inv(Account(s, plane))
  {
    var s' := Account(s, plane);
    AccountKeepsJobs(s, plane);
    AccountKeepsEntries(s, plane);
    assert s.added <= s'.added;
    forall c | 0 <= c < |s.callers| ensures CallerOk(plane, s'.added, s.callers[c]) {
      assert CallerOk(s.plane, s.added, s.callers[c]);
    }
  }

  lemma ExpireEvolves(s: State, id: Uuid, now: int)
    requires id in s.approvals
    ensures Evolves(s, ExpireApproval(s, id, now))
  {
  }

  lemma ApproveEvolves(s: State, user: Option<Uuid>, id: Uuid, now: int)
    requires JobsJustified(s)
    ensures Evolves(s, Approve(s, user, id, now).state)
  {
    var e := Approve(s, user, id, now);
    if e.outcome == Done {
      ApprovedEvolves(s, e.state, id, now);
    } else if id in s.approvals {
      ExpireEvolves(s, id, now);
    }
  }

  lemma ApprovedEvolves(s: State, s': State, id: Uuid, now: int)
    requires id in s.approvals && s.approvals[id].runId in s.runs
    requires var a := s.approvals[id];
             var key, run := ResumeKey(a.runId, id), s.runs[a.runId];
             && s'.approvals == s.approvals[id := a.(status := Approved, approvedAt := Some(now))]
             && s'.jobs == AddIdempotent(s.jobs, key, Job(a.runId, Some(id), true))
             && s'.runs == s.runs[a.runId := run.(
                  status := Running,
                  transitions := run.transitions + [Change(run.status, Running, Some(id), Some(key.id), now)])]
    ensures Evolves(s, s')
  {
    var key := ResumeKey(s.approvals[id].runId, id);
    if key !in s.jobs { assert JobJustified(s', key); }
  }

  lemma RejectEvolves(s: State, user: Option<Uuid>, id: Uuid, now: int)
    ensures Evolves(s, Reject(s, user, id, now).state)
  {
    var e := Reject(s, user, id, now);
    if e.outcome == Done {
      RejectedEvolves(s, e.state, id, now);
    } else if id in s.approvals {
      ExpireEvolves(s, id, now);
    }
  }

  lemma RejectedEvolves(s: State, s': State, id: Uuid, now: int)
    requires id in s.approvals && s.approvals[id].runId in s.runs
    requires var a := s.approvals[id];
             var run := s.runs[a.runId];
             && s'.approvals == s.approvals[id := a.(status := Rejected, rejectedAt := Some(now))]
             && s'.jobs == s.jobs
             && s'.runs == s.runs[a.runId := run.(
                  status := Denied, completedAt := OrElse(run.completedAt, now),
                  transitions := run.transitions + [Change(run.status, Denied, Some(id), None, now)])]
    ensures Evolves(s, s')
  {
  }

  lemma {:induction false} ExpireAllRuns(s: State, ids: seq<Uuid>, now: int)
    requires forall i | 0 <= i < |ids| :: ids[i] in s.approvals
    ensures var s' := ExpireAll(s, ids, now);
            s'.jobs == s.jobs && s'.runs.Keys == s.runs.Keys &&
            forall r | r in s.runs ::
              s'.runs[r].transitions == s.runs[r].transitions
                && s'.runs[r].workerTransitions == s.runs[r].workerTransitions
  {
    if ids != [] {
      ExpireAllRuns(s, ids[..|ids| - 1], now);
    }
  }

  lemma ExpireAllEvolves(s: State, ids: seq<Uuid>, now: int)
    requires forall i | 0 <= i < |ids| :: ids[i] in s.approvals
    ensures Evolves(s, ExpireAll(s, ids, now))
  {
    ExpireAllRuns(s, ids, now);
    forall a | a in s.approvals
      ensures ExpireAll(s, ids, now).approvals[a]
           == if a in ids then s.approvals[a].(status := Expired) else s.approvals[a]
    {
      ExpireAllApproval(s, ids, now, a);
    }
  }

  lemma RunCallEvolves(s: State, c: Call)
    requires IsQuietCall(c) || IsRunCall(c) || c.CCreateForRun?
    ensures Evolves(s, Apply(s, c))
  {
    if c.CCancel? {
      CancelEvolves(s, c.user, c.runId, c.reason, c.now);
    } else if c.CCreateForRun? {
      CreateEvolves(s, c);
    } else if c.CFailRun? {
      FailEvolves(s, c.org, c.runId, c.now);
    } else if c.CMarkPermanentFailure? {
      FailEvolves(s, c.runId, c.runId, c.now);
    } else {
      PlainEvolves(s, c);
    }
  }

  lemma PlainEvolves(s: State, c: Call)
    requires c.CStart? || c.CRecordAttempt? || c.CPurgeJob? || c.CWorkerStarts? || c.CCompleteRun?
    ensures Evolves(s, Apply(s, c))
  {
    if c.CCompleteRun? {
      CompleteEvolves(s, c.org, c.runId, c.now);
    }
  }

  lemma CompleteEvolves(s: State, org: Uuid, r: Uuid, now: int)
    ensures Evolves(s, CompleteRun(s, org, r, now).state)
  {
  }

  lemma CancelEvolves(s: State, user: Option<Uuid>, r: Uuid, reason: string, now: int)
    ensures Evolves(s, Cancel(s, user, r, reason, now).state)
  {
  }

  lemma CreateEvolves(s: State, c: Call)
    requires c.CCreateForRun?
    ensures Evolves(s, Apply(s, c))
  {
    CreateKeepsRuns(s, c.runId, c.request, c.approvalId, c.now);
  }

  lemma CreateKeepsRuns(s: State, r: Uuid, q: Request, id: Uuid, now: int)
    ensures RunsGrow(s, CreateForRun(s, r, q, id, now).state)
  {
  }

  lemma FailEvolves(s: State, org: Uuid, r: Uuid, now: int)
    ensures Evolves(s, FailRun(s, org, r, now).state)
    ensures Evolves(s, MarkPermanentFailure(s, r, now).state)
  {
  }

  lemma CallEvolves(s: State, c: Call)
    requires JobsJustified(s)
    ensures Evolves(s, Apply(s, c))
  {
    if c.CApprove? {
      ApproveEvolves(s, c.user, c.id, c.now);
    } else if c.CReject? {
      RejectEvolves(s, c.user, c.id, c.now);
    } else if !c.CExpireDue? {
      RunCallEvolves(s, c);
    } else if IsDueBatch(s, c.batch, c.now) {
      ExpireAllEvolves(s, c.batch, c.now);
    }
  }

  // ---------------------------------------------------------------- the invariant is kept

  lemma GotoKeeps(s: Race, c: nat, phase: Phase)
    requires Inv(s) && c < |s.callers| && CallerOk(s.plane, s.added, s.callers[c].(phase := phase))
    ensures Inv(Goto(s, c, phase))
  {
  }

  lemma MarkKeeps(s: Race, c: nat, now: int)
    requires Inv(s) && c < |s.callers| && s.callers[c].phase.Checked?
    ensures Inv(CallerStep(s, c, Mark(c, now)))
  {
    var me := s.callers[c];
    assert CallerOk(s.plane, s.added, me);
    var plane := s.plane.(approvals :=
      s.plane.approvals[me.id := s.plane.approvals[me.id].(status := Approved, approvedAt := Some(now))]);
    assert Evolves(s.plane, plane);
    AccountKeeps(s, plane);
    GotoKeeps(Account(s, plane), c, Marked(me.phase.approval, me.phase.run));
  }

  lemma AddKeeps(s: Race, c: nat)
    requires Inv(s) && c < |s.callers| && s.callers[c].phase.Looked?
    ensures Inv(CallerStep(s, c, Add(c)))
  {
    var me := s.callers[c];
    var a := me.phase.approval;
    assert CallerOk(s.plane, s.added, me);
    var key := KeyOf(a, me.id);
    var plane := s.plane.(jobs := AddIdempotent(s.plane.jobs, key, Job(a.runId, Some(me.id), true)));
    if key !in s.plane.jobs { assert JobJustified(plane, key); }
    assert Evolves(s.plane, plane);
    AccountKeeps(s, plane);
    assert key in Account(s, plane).added;
    GotoKeeps(Account(s, plane), c, Enqueued(a, me.phase.run));
  }

  lemma FinishedNamed(current: Run, read: Run, a: Approval, id: Uuid, now: int, added: set<JobKey>)
    requires Named(read, added) && KeyOf(a, id) in added
    ensures Named(FinishedRun(current, read, a, id, now), added)
  {
  }

  lemma RunRowKeeps(s: Race, r: Uuid, run: Run)
    requires Inv(s) && r in s.plane.runs && Named(run, s.added)
    ensures Inv(Account(s, s.plane.(runs := s.plane.runs[r := run])))
  {
    var plane := s.plane.(runs := s.plane.runs[r := run]);
    var s' := Account(s, plane);
    assert s'.added == s.added;
    forall k | k in plane.jobs && k.queue == Resume ensures JobJustified(plane, k) { assert JobJustified(s.plane, k); }
    forall d | 0 <= d < |s.callers|
      ensures CallerOk(plane, s.added, s.callers[d]) { assert CallerOk(s.plane, s.added, s.callers[d]); }
  }

  lemma StopKeeps(s: Race, c: nat)
    requires Inv(s) && c < |s.callers|
    ensures Inv(Goto(s, c, Stopped))
  {
  }

  lemma EnqueuedOk(s: Race, c: nat)
    requires Inv(s) && c < |s.callers| && s.callers[c].phase.Enqueued?
    ensures Named(s.callers[c].phase.run, s.added) && KeyOf(s.callers[c].phase.approval, s.callers[c].id) in s.added
  {
    assert CallerOk(s.plane, s.added, s.callers[c]);
  }

  lemma FinishKeeps(s: Race, c: nat, now: int)
    requires Inv(s) && c < |s.callers| && s.callers[c].phase.Enqueued?
    ensures Inv(CallerStep(s, c, Finish(c, now)))
  {
    var me, a := s.callers[c], s.callers[c].phase.approval;
    if a.runId in s.plane.runs {
      var current := s.plane.runs[a.runId];
      var run := FinishedRun(current, me.phase.run, a, me.id, now);
      var s1 := Account(s, s.plane.(runs := s.plane.runs[a.runId := run]));
      assert Inv(s1) by {
        EnqueuedOk(s, c);
        FinishedNamed(current, me.phase.run, a, me.id, now, s.added);
        RunRowKeeps(s, a.runId, run);
      }
      assert Inv(Goto(s1, c, Stopped)) by { StopKeeps(s1, c); }
    }
  }

  lemma ReadKeeps(s: Race, c: nat, step: Step)
    requires Inv(s) && c < |s.callers| && (step.Load? || step.CheckRun? || step.Look?)
    ensures Inv(CallerStep(s, c, step))
  {
    assert CallerOk(s.plane, s.added, s.callers[c]);
    var s' := CallerStep(s, c, step);
    if s' != s {
      GotoKeeps(s, c, s'.callers[c].phase);
    }
  }

  lemma ExpireLoadedKeeps(s: Race, c: nat, now: int)
    requires Inv(s) && c < |s.callers| && s.callers[c].phase.Overdue?
    ensures Inv(CallerStep(s, c, ExpireLoaded(c, now)))
  {
    var id := s.callers[c].id;
    if id in s.plane.approvals {
      var plane := ExpireApproval(s.plane, id, now);
      ExpireEvolves(s.plane, id, now);
      AccountKeeps(s, plane);
      GotoKeeps(Account(s, plane), c, Stopped);
    }
  }

  lemma StepKeepsInv(s: Race, step: Step)
    requires Inv(s)
    ensures Inv(Take(s, step))
  {
    if step.Other? {
      CallEvolves(s.plane, step.call);
      AccountKeeps(s, Apply(s.plane, step.call));
    } else if !step.Begin? && step.caller < |s.callers| {
      var c := step.caller;
      var phase := s.callers[c].phase;
      if step.Mark? && phase.Checked? { MarkKeeps(s, c, step.now); }
      if step.Add? && phase.Looked? { AddKeeps(s, c); }
      if step.Finish? && phase.Enqueued? { FinishKeeps(s, c, step.now); }
      if step.ExpireLoaded? && phase.Overdue? { ExpireLoadedKeeps(s, c, step.now); }
      if step.Load? || step.CheckRun? || step.Look? { ReadKeeps(s, c, step); }
    }
  }

  lemma {:induction false} AfterInv(steps: seq<Step>)
    ensures Inv(After(steps))
  {
    if steps != [] {
      AfterInv(steps[..|steps| - 1]);
      StepKeepsInv(After(steps[..|steps| - 1]), steps[|steps| - 1]);
    }
  }

  // ---------------------------------------------------------------- main results

  /** However callers interleave and wherever they stop: a resume job is in the queue only if the
      approval it names belongs to its run and has its approval time written. */
  lemma JobOnlyAfterApproval(steps: seq<Step>, k: JobKey)
    requires k in After(steps).plane.jobs && k.queue == Resume
    ensures JobJustified(After(steps).plane, k)
  {
    AfterInv(steps);
  }

  /** The time was there before the job: a caller about to add finds it already written. */
  lemma ApprovedBeforeAdd(steps: seq<Step>, c: nat)
    requires var s := After(steps); c < |s.callers| && s.callers[c].phase.Looked?
    ensures var s := After(steps);
            s.callers[c].id in s.plane.approvals && s.plane.approvals[s.callers[c].id].approvedAt.Some?
  {
    AfterInv(steps);
    assert CallerOk(After(steps).plane, After(steps).added, After(steps).callers[c]);
  }

  /** A run entry that names a resume job exists only if that job was added. */
  lemma EntryOnlyAfterAdd(steps: seq<Step>, r: Uuid, i: nat)
    requires var s := After(steps);
             r in s.plane.runs && i < |s.plane.runs[r].transitions| && s.plane.runs[r].transitions[i].resumeJobId.Some?
    ensures var s := After(steps); JobKey(Resume, s.plane.runs[r].transitions[i].resumeJobId.value) in s.added
  {
    AfterInv(steps);
    assert Named(After(steps).plane.runs[r], After(steps).added);
  }
}
