/** How often racing approvals add the resume job of one request. */
module ApproveCount {
  import opened Options
  import opened Workflow
  import opened WorkflowInvariants
  import opened ApproveRace

  /** The resume jobs in the queue that name approval `a`. */
  function JobsOf(plane: State, a: Uuid): set<JobKey> {
    set k | k in plane.jobs && k.queue == Resume && plane.jobs[k].approvalId == Some(a)
  }

  /** Resume jobs naming `a` that entered the queue, over all steps. */
  ghost function JobsAdded(steps: seq<Step>, a: Uuid): nat {
    if steps == [] then 0
    else
      var before := steps[..|steps| - 1];
      JobsAdded(before, a) + |JobsOf(ApproveRace.After(steps).plane, a) - JobsOf(ApproveRace.After(before).plane, a)|
  }

  /** The queue forgets a job of `a` that it holds. */
  predicate Forgets(step: Step, plane: State, a: Uuid) {
    step.Other? && step.call.CPurgeJob? && step.call.key in JobsOf(plane, a)
  }

  ghost function TimesForgotten(steps: seq<Step>, a: Uuid): nat {
    if steps == [] then 0
    else
      var n := |steps| - 1;
      TimesForgotten(steps[..n], a) + if Forgets(steps[n], ApproveRace.After(steps[..n]).plane, a) then 1 else 0
  }

  /** Resume jobs stay as they are. */
  ghost predicate ResumeJobsStay(s: State, s': State) {
    forall k | k in s.jobs && k.queue == Resume :: k in s'.jobs && s'.jobs[k] == s.jobs[k]
  }

  lemma CallKeepsResumeJobs(s: State, c: Call)
    requires !c.CPurgeJob?
    ensures ResumeJobsStay(s, Apply(s, c))
  {
    if c.CExpireDue? && IsDueBatch(s, c.batch, c.now) {
      ExpireAllJobs(s, c.batch, c.now);
    }
  }

  /** No step but the queue's own forgetting takes a resume job away. */
  lemma StepKeepsResumeJobs(s: Race, step: Step)
    requires !(step.Other? && step.call.CPurgeJob?)
    ensures ResumeJobsStay(s.plane, Take(s, step).plane)
  {
    if step.Other? {
      CallKeepsResumeJobs(s.plane, step.call);
    }
  }

  lemma AtMostOneJob(plane: State, a: Uuid)
    requires JobsJustified(plane)
    ensures |JobsOf(plane, a)| <= 1
    ensures a in plane.approvals ==> JobsOf(plane, a) <= {ResumeKey(plane.approvals[a].runId, a)}
    ensures a !in plane.approvals ==> JobsOf(plane, a) == {}
  {
    forall k | k in JobsOf(plane, a)
      ensures a in plane.approvals && k == ResumeKey(plane.approvals[a].runId, a)
    {
      assert JobJustified(plane, k);
    }
    if a in plane.approvals {
      SubsetSize(JobsOf(plane, a), {ResumeKey(plane.approvals[a].runId, a)});
    }
  }

  lemma SubsetSize(a: set<JobKey>, b: set<JobKey>)
    requires a <= b
    ensures |a| <= |b|
  {
    assert b == a + (b - a);
  }

  lemma PurgeCounts(s: Race, key: JobKey, a: Uuid)
    ensures var jobs, jobs' := JobsOf(s.plane, a), JobsOf(Take(s, Other(CPurgeJob(key))).plane, a);
            jobs' == jobs - {key} && jobs' - jobs == {}
  {
  }

  lemma StepCounts(s: Race, step: Step, a: Uuid)
    ensures var jobs, jobs' := JobsOf(s.plane, a), JobsOf(Take(s, step).plane, a);
            |jobs| + |jobs' - jobs| == |jobs'| + if Forgets(step, s.plane, a) then 1 else 0
  {
    var jobs, jobs' := JobsOf(s.plane, a), JobsOf(Take(s, step).plane, a);
    if step.Other? && step.call.CPurgeJob? {
      PurgeCounts(s, step.call.key, a);
    } else {
      assert jobs <= jobs' by { StepKeepsResumeJobs(s, step); }
      assert jobs' == jobs + (jobs' - jobs);
    }
  }

  /** Over any interleaving the job of an approval is added exactly as often as the queue forgets it, and once more
      if it is in the queue now, where it is at most once. */
  lemma {:induction false} AddedAsForgotten(steps: seq<Step>, a: Uuid)
    ensures JobsAdded(steps, a) == TimesForgotten(steps, a) + |JobsOf(ApproveRace.After(steps).plane, a)|
    ensures |JobsOf(ApproveRace.After(steps).plane, a)| <= 1
  {
    ApproveRace.AfterInv(steps);
    AtMostOneJob(ApproveRace.After(steps).plane, a);
    if steps != [] {
      var n := |steps| - 1;
      AddedAsForgotten(steps[..n], a);
      StepCounts(ApproveRace.After(steps[..n]), steps[n], a);
    }
  }

  /** The step makes the queue forget a job with an id of approval `a`. */
  ghost predicate Purges(step: Step, a: Uuid) {
    step.Other? && step.call.CPurgeJob? && exists r: Uuid :: step.call.key == ResumeKey(r, a)
  }

  ghost function PurgeCount(steps: seq<Step>, a: Uuid): nat {
    if steps == [] then 0
    else PurgeCount(steps[..|steps| - 1], a) + if Purges(steps[|steps| - 1], a) then 1 else 0
  }

  /** Any number of racing approvals of one request add at most one job, and one more for each purge of its job. */
  lemma {:induction false} RacersAddOnce(steps: seq<Step>, a: Uuid)
    ensures JobsAdded(steps, a) <= 1 + PurgeCount(steps, a)
    ensures (forall i | 0 <= i < |steps| :: !Purges(steps[i], a)) ==> JobsAdded(steps, a) <= 1
  {
    AddedAsForgotten(steps, a);
    ForgottenByPurges(steps, a);
  }

  lemma {:induction false} ForgottenByPurges(steps: seq<Step>, a: Uuid)
    ensures TimesForgotten(steps, a) <= PurgeCount(steps, a)
    ensures (forall i | 0 <= i < |steps| :: !Purges(steps[i], a)) ==> PurgeCount(steps, a) == 0
  {
    if steps != [] {
      var n := |steps| - 1;
      ForgottenByPurges(steps[..n], a);
      if Forgets(steps[n], ApproveRace.After(steps[..n]).plane, a) {
        ApproveRace.AfterInv(steps[..n]);
        assert JobJustified(ApproveRace.After(steps[..n]).plane, steps[n].call.key);
      }
    }
  }

  /** Two callers approve one request; between the first adding the job and the second looking for it the queue
      forgets it. */
  function Asking4(org: Uuid, r: Uuid, attempt: Uuid, id: Uuid): seq<Step> {
    [Other(CStart(org, r)), Other(CWorkerStarts(r)), Other(CRecordAttempt(attempt, r, true)),
     Other(CCreateForRun(r, Asking(attempt, None), id, 0))]
  }

  function BothMarked(org: Uuid, r: Uuid, attempt: Uuid, id: Uuid): seq<Step> {
    Asking4(org, r, attempt, id) + [Begin(org, id), Begin(org, id), Load(0, 1), Load(1, 1)]
    + [CheckRun(0), CheckRun(1), Mark(0, 2), Mark(1, 2)]
  }

  function FirstAdded(org: Uuid, r: Uuid, attempt: Uuid, id: Uuid): seq<Step> {
    BothMarked(org, r, attempt, id) + [Look(0)] + [Add(0)]
  }

  function Racing(org: Uuid, r: Uuid, attempt: Uuid, id: Uuid): seq<Step> {
    FirstAdded(org, r, attempt, id) + [Other(CPurgeJob(ResumeKey(r, id)))] + [Look(1)] + [Add(1)]
  }

  lemma One(steps: seq<Step>, step: Step, a: Uuid)
    ensures ApproveRace.After(steps + [step]) == Take(ApproveRace.After(steps), step)
    ensures TimesForgotten(steps + [step], a)
         == TimesForgotten(steps, a) + if Forgets(step, ApproveRace.After(steps).plane, a) then 1 else 0
  {
    assert (steps + [step])[..|steps|] == steps;
  }

  lemma Two(steps: seq<Step>, x: Step, y: Step)
    ensures ApproveRace.After(steps + [x, y]) == Take(Take(ApproveRace.After(steps), x), y)
  {
    var one, two := steps + [x], steps + [x, y];
    assert two[..|two| - 1] == one && one[..|one| - 1] == steps;
  }

  lemma Four(steps: seq<Step>, x: Step, y: Step, z: Step, w: Step)
    ensures ApproveRace.After(steps + [x, y, z, w]) == Take(Take(Take(Take(ApproveRace.After(steps), x), y), z), w)
  {
    Two(steps, x, y);
    Two(steps + [x, y], z, w);
    assert steps + [x, y, z, w] == steps + [x, y] + [z, w];
  }

  lemma {:induction false} OthersAreCalls(steps: seq<Step>, calls: seq<Call>)
    requires |steps| == |calls| && forall i | 0 <= i < |steps| :: steps[i] == Other(calls[i])
    ensures ApproveRace.After(steps).plane == Workflow.After(calls) && ApproveRace.After(steps).callers == []
  {
    if steps != [] {
      var n := |steps| - 1;
      OthersAreCalls(steps[..n], calls[..n]);
    }
  }

  /** Everybody is in the same phase, and the job is not in the queue. */
  ghost predicate Racers(s: Race, a: Approval, run: Run, id: Uuid, callers: seq<Caller>) {
    && s.callers == callers && id in s.plane.approvals
      && s.plane.approvals[id].(status := Pending, approvedAt := None) == a
    && a.runId in s.plane.runs && s.plane.runs[a.runId] == run && run.org == a.org && run.status == WaitingForApproval
    && a.status == Pending && a.expiresAt == None && KeyOf(a, id) !in s.plane.jobs
  }

  lemma JustAsked(s: State, org: Uuid, r: Uuid, attempt: Uuid, id: Uuid)
    requires s.runs == map[r := Run(org, Running, None, [], [])] && s.approvals == map[]
    requires s.attempts == map[attempt := Attempt(org, r, true)]
    ensures var s' := Apply(s, CCreateForRun(r, Asking(attempt, None), id, 0));
            && s'.approvals == map[id := Approval(org, r, attempt, Pending, None, None, None)]
            && r in s'.runs
            && s'.runs[r]
               == Run(org, WaitingForApproval, None, [Change(Running, WaitingForApproval, None, None, 0)], [])
  {
    AskingStorable(attempt);
  }

  lemma RaceAsked(org: Uuid, r: Uuid, attempt: Uuid, id: Uuid) returns (a: Approval, run: Run)
    ensures Racers(ApproveRace.After(Asking4(org, r, attempt, id)), a, run, id, [])
    ensures ApproveRace.After(Asking4(org, r, attempt, id)).plane.approvals[id] == a && a.runId == r && a.org == org
  {
    var steps, calls := Asking4(org, r, attempt, id), Started(org, r, attempt);
    var all := calls + [CCreateForRun(r, Asking(attempt, None), id, 0)];
    OthersAreCalls(steps, all);
    AskedOnce(org, r, attempt);
    assert all[..3] == calls;
    JustAsked(Workflow.After(calls), org, r, attempt, id);
    a := Approval(org, r, attempt, Pending, None, None, None);
    run := Run(org, WaitingForApproval, None, [Change(Running, WaitingForApproval, None, None, 0)], []);
    ApproveRace.AfterInv(steps);
    UnapprovedHasNoJob(ApproveRace.After(steps).plane, r, id);
  }

  lemma UnapprovedHasNoJob(plane: State, r: Uuid, id: Uuid)
    requires JobsJustified(plane) && id in plane.approvals && plane.approvals[id].approvedAt.None?
    ensures ResumeKey(r, id) !in plane.jobs
  {
    var key := ResumeKey(r, id);
    if key in plane.jobs {
      assert JobJustified(plane, key);
      ResumeJobIdInjective(r, id, plane.jobs[key].runId, plane.jobs[key].approvalId.value);
    }
  }

  lemma RaceLoaded(s: Race, a: Approval, run: Run, id: Uuid)
    requires Racers(s, a, run, id, []) && s.plane.approvals[id] == a
    ensures var me, s' := Caller(a.org, id, Loaded(a)),
              Take(Take(Take(Take(s, Begin(a.org, id)), Begin(a.org, id)), Load(0, 1)), Load(1, 1));
            Racers(s', a, run, id, [me, me])
  {
  }

  lemma RaceMarked(s: Race, a: Approval, run: Run, id: Uuid)
    requires var me := Caller(a.org, id, Loaded(a)); Racers(s, a, run, id, [me, me])
    ensures var me, s' := Caller(a.org, id, Marked(a, run)),
              Take(Take(Take(Take(s, CheckRun(0)), CheckRun(1)), Mark(0, 2)), Mark(1, 2));
            Racers(s', a, run, id, [me, me])
  {
  }

  lemma FirstAdds(s: Race, a: Approval, run: Run, id: Uuid)
    requires var me := Caller(a.org, id, Marked(a, run)); Racers(s, a, run, id, [me, me])
    ensures var s' := Take(Take(s, Look(0)), Add(0));
            && s'.callers == [Caller(a.org, id, Enqueued(a, run)), Caller(a.org, id, Marked(a, run))]
            && KeyOf(a, id) in JobsOf(s'.plane, id)
  {
  }

  lemma SecondAdds(s: Race, a: Approval, run: Run, id: Uuid)
    requires s.callers == [Caller(a.org, id, Enqueued(a, run)), Caller(a.org, id, Marked(a, run))]
    ensures var s' := Take(Take(Take(s, Other(CPurgeJob(KeyOf(a, id)))), Look(1)), Add(1));
            KeyOf(a, id) in JobsOf(s'.plane, id)
  {
    var s2 := Take(s, Other(CPurgeJob(KeyOf(a, id))));
    assert Take(s2, Look(1)).callers[1] == Caller(a.org, id, Looked(a, run));
  }

  lemma RaceStates(org: Uuid, r: Uuid, attempt: Uuid, id: Uuid) returns (a: Approval, run: Run)
    ensures var me := Caller(a.org, id, Marked(a, run));
            a.runId == r && Racers(ApproveRace.After(BothMarked(org, r, attempt, id)), a, run, id, [me, me])
  {
    var s4 := Asking4(org, r, attempt, id);
    var s8 := s4 + [Begin(org, id), Begin(org, id), Load(0, 1), Load(1, 1)];
    a, run := RaceAsked(org, r, attempt, id);
    RaceLoaded(ApproveRace.After(s4), a, run, id);
    Four(s4, Begin(org, id), Begin(org, id), Load(0, 1), Load(1, 1));
    RaceMarked(ApproveRace.After(s8), a, run, id);
    Four(s8, CheckRun(0), CheckRun(1), Mark(0, 2), Mark(1, 2));
  }

  lemma FirstRacer(org: Uuid, r: Uuid, attempt: Uuid, id: Uuid) returns (a: Approval, run: Run)
    ensures var s := ApproveRace.After(FirstAdded(org, r, attempt, id));
            && a.runId == r && s.callers == [Caller(a.org, id, Enqueued(a, run)), Caller(a.org, id, Marked(a, run))]
            && ResumeKey(r, id) in JobsOf(s.plane, id)
  {
    a, run := RaceStates(org, r, attempt, id);
    var steps := BothMarked(org, r, attempt, id);
    FirstAdds(ApproveRace.After(steps), a, run, id);
    One(steps, Look(0), id);
    One(steps + [Look(0)], Add(0), id);
  }

  lemma SecondRacer(org: Uuid, r: Uuid, attempt: Uuid, id: Uuid)
    ensures TimesForgotten(Racing(org, r, attempt, id), id) == TimesForgotten(FirstAdded(org, r, attempt, id), id) + 1
    ensures ResumeKey(r, id) in JobsOf(ApproveRace.After(Racing(org, r, attempt, id)).plane, id)
  {
    var a, run := FirstRacer(org, r, attempt, id);
    var steps, purge := FirstAdded(org, r, attempt, id), Other(CPurgeJob(ResumeKey(r, id)));
    SecondAdds(ApproveRace.After(steps), a, run, id);
    One(steps, purge, id);
    One(steps + [purge], Look(1), id);
    One(steps + [purge] + [Look(1)], Add(1), id);
  }

  /** Without that condition a second job is added: two racers, and one purge between them, add two. */
  lemma ForgottenJobIsAddedAgain(org: Uuid, r: Uuid, attempt: Uuid, id: Uuid)
    ensures JobsAdded(Racing(org, r, attempt, id), id) == 2
  {
    var steps := Racing(org, r, attempt, id);
    SecondRacer(org, r, attempt, id);
    NothingForgottenYet(org, r, attempt, id);
    AddedAsForgotten(steps, id);
    assert JobsOf(ApproveRace.After(steps).plane, id) != {};
  }

  lemma NothingForgottenYet(org: Uuid, r: Uuid, attempt: Uuid, id: Uuid)
    ensures TimesForgotten(FirstAdded(org, r, attempt, id), id) == 0
  {
    var first := FirstAdded(org, r, attempt, id);
    assert forall i | 0 <= i < |first| :: !Purges(first[i], id);
    ForgottenByPurges(first, id);
  }
}
