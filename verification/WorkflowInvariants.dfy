/** What every sequence of service calls keeps. */
module WorkflowInvariants {
  import opened Options
  import opened Workflow
  import Json

  // ---------------------------------------------------------------- job ids

  /** Job ids identify the run and the approval, because UUID texts have one length. */
  lemma ResumeJobIdInjective(r: Uuid, a: Uuid, r': Uuid, a': Uuid)
    requires ResumeJobId(r, a) == ResumeJobId(r', a')
    ensures r == r' && a == a'
  {
    var t, t' := ResumeJobId(r, a), ResumeJobId(r', a');
    assert t[7..43] == r && t'[7..43] == r';
    assert t[44..] == a && t'[44..] == a';
  }

  /** For ids of any length they do not. */
  lemma ResumeJobIdCollides()
    ensures ResumeJobId("a", "b-c") == ResumeJobId("a-b", "c")
  {
    assert ResumeJobId("a", "b-c") == "resume-a-b-c" == ResumeJobId("a-b", "c");
  }

  // ---------------------------------------------------------------- invariant

  ghost predicate Linked(s: State) {
    && (forall a | a in s.approvals ::
      s.approvals[a].runId in s.runs && s.approvals[a].org == s.runs[s.approvals[a].runId].org)
    && (forall a | a in s.attempts :: s.attempts[a].runId in s.runs)
  }

  ghost predicate QueuedHasNoApproval(s: State) {
    forall a | a in s.approvals && s.approvals[a].runId in s.runs :: s.runs[s.approvals[a].runId].status != Queued
  }

  ghost predicate CompletedWhenTerminal(s: State) {
    forall r | r in s.runs :: s.runs[r].completedAt.Some? <==> Terminal(s.runs[r].status)
  }

  /** Every resume job in the queue belongs to an approved approval of its run. */
  ghost predicate ResumeJobsApproved(s: State) {
    forall k | k in s.jobs && k.queue == Resume :: ResumeJobApproved(s, k)
  }

  ghost predicate ResumeJobApproved(s: State, k: JobKey)
    requires k in s.jobs
  {
    var job := s.jobs[k];
    job.approvalId.Some? && job.approvalId.value in s.approvals &&
    var a := s.approvals[job.approvalId.value];
    a.runId == job.runId && a.status == Approved && k == ResumeKey(job.runId, job.approvalId.value)
  }

  ghost predicate ApprovedHasTime(s: State) {
    forall a | a in s.approvals :: s.approvals[a].status == Approved ==> s.approvals[a].approvedAt.Some?
  }

  ghost predicate Inv(s: State) {
    Linked(s) && QueuedHasNoApproval(s) && CompletedWhenTerminal(s) && ResumeJobsApproved(s) && ApprovedHasTime(s)
  }

  predicate AllowedChange(from: RunStatus, to: RunStatus) {
    from == to || CanTransition(from, to) || (from == Queued && to == Failed)
  }

  // ---------------------------------------------------------------- the four shapes of a call's effect

  ghost predicate ResumeJobsFrom(s: State, s': State) {
    forall k | k in s'.jobs && k.queue == Resume :: k in s.jobs && s'.jobs[k] == s.jobs[k]
  }

  /** New runs and attempts may appear; nothing that exists changes. */
  ghost predicate Quiet(s: State, s': State) {
    && s'.approvals == s.approvals && ResumeJobsFrom(s, s')
    && (forall r | r in s.runs :: r in s'.runs && s'.runs[r] == s.runs[r])
    && (forall r | r in s'.runs && r !in s.runs :: s'.runs[r].status == Queued && s'.runs[r].completedAt.None?)
    && (forall a | a in s'.attempts :: s'.attempts[a].runId in s'.runs)
  }

  /** One run moves on without waiting for an approval or being resumed by one. */
  ghost predicate RunMoved(s: State, s': State, r: Uuid) {
    && s'.approvals == s.approvals && s'.attempts == s.attempts && ResumeJobsFrom(s, s')
    && r in s.runs && r in s'.runs && s'.runs == s.runs[r := s'.runs[r]]
    && s'.runs[r].org == s.runs[r].org
    && !Terminal(s.runs[r].status) && s'.runs[r].status !in {s.runs[r].status, Queued, WaitingForApproval}
    && AllowedChange(s.runs[r].status, s'.runs[r].status)
    && !(s.runs[r].status == WaitingForApproval && s'.runs[r].status == Running)
    && (s'.runs[r].completedAt.Some? <==> Terminal(s'.runs[r].status))
  }

  /** A run is made to wait, and an approval of it may be added. */
  ghost predicate Asked(s: State, s': State, r: Uuid, id: Uuid) {
    && s'.attempts == s.attempts && s'.jobs == s.jobs
    && r in s.runs && r in s'.runs && s'.runs == s.runs[r := s'.runs[r]]
    && s'.runs[r].org == s.runs[r].org && s'.runs[r].completedAt == s.runs[r].completedAt
    && s.runs[r].status in {Running, WaitingForApproval} && s'.runs[r].status == WaitingForApproval
    && (s'.approvals == s.approvals ||
        (id !in s.approvals && id in s'.approvals && s'.approvals == s.approvals[id := s'.approvals[id]] &&
         s'.approvals[id].runId == r && s'.approvals[id].org == s.runs[r].org && s'.approvals[id].status == Pending))
  }

  /** A pending approval is approved, rejected or expired, and its run stops waiting. */
  ghost predicate Decided(s: State, s': State, id: Uuid) {
    && id in s.approvals && id in s'.approvals && s'.approvals == s.approvals[id := s'.approvals[id]]
    && s'.attempts == s.attempts
    && var a, a' := s.approvals[id], s'.approvals[id];
    && a.status == Pending && a'.status != Pending && a'.runId == a.runId && a'.org == a.org
    && (a'.status == Approved ==> a'.approvedAt.Some?)
    && a.runId in s.runs && a.runId in s'.runs && s'.runs == s.runs[a.runId := s'.runs[a.runId]]
    && var run, run' := s.runs[a.runId], s'.runs[a.runId];
    && run'.org == run.org
    && (if run.status == WaitingForApproval
        then run'.status == (if a'.status == Approved then Running else Denied)
             && (run'.completedAt.Some? <==> Terminal(run'.status))
        else run' == run && a'.status == Expired)
    && (forall k | k in s'.jobs && k.queue == Resume ::
          if k in s.jobs then s'.jobs[k] == s.jobs[k]
          else k == ResumeKey(a.runId, id) && s'.jobs[k] == Job(a.runId, Some(id), true) && a'.status == Approved)
    && (a'.status == Approved ==> ResumeKey(a.runId, id) in s'.jobs)
  }

  lemma QuietKeepsInv(s: State, s': State)
    requires Inv(s) && Quiet(s, s')
    ensures Inv(s')
  {
    forall k | k in s'.jobs && k.queue == Resume ensures ResumeJobApproved(s', k) {
      assert ResumeJobApproved(s, k);
    }
  }

  lemma RunMovedKeepsInv(s: State, s': State, r: Uuid)
    requires Inv(s) && RunMoved(s, s', r)
    ensures Inv(s')
  {
    forall k | k in s'.jobs && k.queue == Resume ensures ResumeJobApproved(s', k) {
      assert ResumeJobApproved(s, k);
    }
  }

  lemma AskedKeepsInv(s: State, s': State, r: Uuid, id: Uuid)
    requires Inv(s) && Asked(s, s', r, id)
    ensures Inv(s')
  {
    forall k | k in s'.jobs && k.queue == Resume ensures ResumeJobApproved(s', k) {
      assert ResumeJobApproved(s, k);
    }
  }

  lemma DecidedKeepsInv(s: State, s': State, id: Uuid)
    requires Inv(s) && Decided(s, s', id)
    ensures Inv(s')
  {
    forall k | k in s'.jobs && k.queue == Resume ensures ResumeJobApproved(s', k) {
      if k in s.jobs { assert ResumeJobApproved(s, k); }
    }
  }

  // ---------------------------------------------------------------- every call has one of the shapes

  predicate IsQuietCall(c: Call) {
    c.CStart? || c.CRecordAttempt? || c.CPurgeJob? || (c.CCancel? && !TextStorable(c.reason))
  }

  predicate IsRunCall(c: Call) {
    c.CWorkerStarts? || (c.CCancel? && TextStorable(c.reason)) || c.CCompleteRun? || c.CFailRun?
      || c.CMarkPermanentFailure?
  }

  lemma QuietCall(s: State, c: Call)
    requires IsQuietCall(c) && Linked(s)
    ensures Quiet(s, Apply(s, c))
  {
    if c.CCancel? {
      RefusedCancel(s, c.user, c.runId, c.reason, c.now);
    }
  }

  lemma RefusedCancel(s: State, user: Option<Uuid>, r: Uuid, reason: string, now: int)
    requires Linked(s) && !TextStorable(reason)
    ensures Quiet(s, Cancel(s, user, r, reason, now).state)
  {
  }

  lemma FailMoves(s: State, org: Uuid, r: Uuid, now: int)
    requires CompletedWhenTerminal(s)
    ensures var s' := FailRun(s, org, r, now).state; s' == s || RunMoved(s, s', r)
    ensures var s' := MarkPermanentFailure(s, r, now).state; s' == s || RunMoved(s, s', r)
  {
  }

  lemma CancelMoves(s: State, user: Option<Uuid>, r: Uuid, reason: string, now: int)
    requires CompletedWhenTerminal(s) && TextStorable(reason)
    ensures var s' := Cancel(s, user, r, reason, now).state; s' == s || RunMoved(s, s', r)
  {
  }

  lemma WorkMoves(s: State, org: Uuid, r: Uuid, now: int)
    requires CompletedWhenTerminal(s)
    ensures var s' := WorkerStarts(s, r); s' == s || RunMoved(s, s', r)
    ensures var s' := CompleteRun(s, org, r, now).state; s' == s || RunMoved(s, s', r)
  {
  }

  lemma RunCall(s: State, c: Call)
    requires IsRunCall(c) && CompletedWhenTerminal(s)
    ensures Apply(s, c) == s || RunMoved(s, Apply(s, c), c.runId)
  {
    match c
    case CWorkerStarts(r) => WorkMoves(s, r, r, 0);
    case CCancel(user, r, reason, now) => CancelMoves(s, user, r, reason, now);
    case CCompleteRun(org, r, now) => WorkMoves(s, org, r, now);
    case CFailRun(org, r, now) => FailMoves(s, org, r, now);
    case CMarkPermanentFailure(r, now) => FailMoves(s, r, r, now);
  }

  lemma CreateCall(s: State, c: Call)
    requires c.CCreateForRun?
    ensures Apply(s, c) == s || Asked(s, Apply(s, c), c.runId, c.approvalId)
  {
  }

  lemma ExpireDecides(s: State, id: Uuid, now: int)
    requires Linked(s) && CompletedWhenTerminal(s) && id in s.approvals && s.approvals[id].status == Pending
    ensures Decided(s, ExpireApproval(s, id, now), id)
  {
  }

  lemma ApproveDecides(s: State, user: Option<Uuid>, id: Uuid, now: int)
    requires Inv(s)
    ensures var s' := Approve(s, user, id, now).state; s' == s || Decided(s, s', id)
  {
    if id in s.approvals && s.approvals[id].status == Pending {
      ExpireDecides(s, id, now);
    }
  }

  lemma RejectDecides(s: State, user: Option<Uuid>, id: Uuid, now: int)
    requires Inv(s)
    ensures var s' := Reject(s, user, id, now).state; s' == s || (Decided(s, s', id) && ResumeJobsFrom(s, s'))
    ensures id in s.approvals && id in Reject(s, user, id, now).state.approvals ==>
              (Reject(s, user, id, now).state.approvals[id].status == Approved ==> s.approvals[id].status == Approved)
  {
    if id in s.approvals && s.approvals[id].status == Pending {
      ExpireDecides(s, id, now);
    }
  }

  // ---------------------------------------------------------------- expiring a batch

  /** An approval of `ids` belongs to run `r`. */
  predicate Touches(s: State, ids: seq<Uuid>, r: Uuid)
    requires forall i | 0 <= i < |ids| :: ids[i] in s.approvals
  {
    ids != [] && (Touches(s, ids[..|ids| - 1], r) || s.approvals[ids[|ids| - 1]].runId == r)
  }

  lemma {:induction false} TouchesIff(s: State, ids: seq<Uuid>, r: Uuid)
    requires forall i | 0 <= i < |ids| :: ids[i] in s.approvals
    ensures Touches(s, ids, r) <==> exists i :: 0 <= i < |ids| && s.approvals[ids[i]].runId == r
  {
    if ids != [] {
      TouchesIff(s, ids[..|ids| - 1], r);
    }
  }

  lemma {:induction false} ExpireAllApproval(s: State, ids: seq<Uuid>, now: int, a: Uuid)
    requires (forall i | 0 <= i < |ids| :: ids[i] in s.approvals) && a in s.approvals
    ensures ExpireAll(s, ids, now).approvals[a]
         == if a in ids then s.approvals[a].(status := Expired) else s.approvals[a]
    ensures ExpireAll(s, ids, now).jobs == s.jobs
  {
    if ids != [] {
      var n := |ids| - 1;
      assert ids == ids[..n] + [ids[n]];
      ExpireAllApproval(s, ids[..n], now, a);
      if a != ids[n] { ExpireAllApproval(s, ids[..n], now, ids[n]); }
    }
  }

  /** A batch denies exactly the waiting runs it touches, each once. */
  lemma {:induction false} ExpireAllRun(s: State, ids: seq<Uuid>, now: int, r: Uuid)
    requires Linked(s) && (forall i | 0 <= i < |ids| :: ids[i] in s.approvals) && r in s.runs
    ensures r in ExpireAll(s, ids, now).runs
    ensures ExpireAll(s, ids, now).runs[r] ==
      if s.runs[r].status == WaitingForApproval && Touches(s, ids, r)
      then s.runs[r].(status := Denied, completedAt := OrElse(s.runs[r].completedAt, now)) else s.runs[r]
  {
    if ids != [] {
      var n := |ids| - 1;
      ExpireAllRun(s, ids[..n], now, r);
      ExpireAllApproval(s, ids[..n], now, ids[n]);
    }
  }

  lemma {:induction false} ExpireAllKeepsInv(s: State, ids: seq<Uuid>, now: int)
    requires Inv(s) && (forall i | 0 <= i < |ids| :: ids[i] in s.approvals && s.approvals[ids[i]].status == Pending)
    requires forall i, j | 0 <= i < j < |ids| :: ids[i] != ids[j]
    ensures Inv(ExpireAll(s, ids, now))
  {
    if ids != [] {
      var n := |ids| - 1;
      ExpireAllKeepsInv(s, ids[..n], now);
      ExpireAllApproval(s, ids[..n], now, ids[n]);
      var mid := ExpireAll(s, ids[..n], now);
      ExpireDecides(mid, ids[n], now);
      DecidedKeepsInv(mid, ExpireApproval(mid, ids[n], now), ids[n]);
    }
  }

  /** What is known of the state `s'` after call `c`. */
  ghost predicate HasShape(s: State, s': State, c: Call) {
    if IsQuietCall(c) then Quiet(s, s')
    else if s' == s then true
    else if IsRunCall(c) then RunMoved(s, s', c.runId)
    else if c.CCreateForRun? then Asked(s, s', c.runId, c.approvalId)
    else if c.CApprove? then Decided(s, s', c.id)
    else if c.CReject? then Decided(s, s', c.id) && s'.approvals[c.id].status != Approved
    else IsDueBatch(s, c.batch, c.now) && s' == ExpireAll(s, c.batch, c.now)
  }

  lemma ApplyShape(s: State, c: Call)
    requires Inv(s)
    ensures HasShape(s, Apply(s, c), c)
  {
    if IsQuietCall(c) {
      QuietCall(s, c);
    } else if IsRunCall(c) {
      RunCall(s, c);
    } else if c.CCreateForRun? {
      CreateCall(s, c);
    } else if c.CApprove? {
      ApproveDecides(s, c.user, c.id, c.now);
    } else if c.CReject? {
      RejectDecides(s, c.user, c.id, c.now);
    }
  }

  lemma ShapeKeepsInv(s: State, s': State, c: Call)
    requires Inv(s) && HasShape(s, s', c)
    ensures Inv(s')
  {
    if IsQuietCall(c) {
      QuietKeepsInv(s, s');
    } else if s' != s {
      if IsRunCall(c) {
        RunMovedKeepsInv(s, s', c.runId);
      } else if c.CCreateForRun? {
        AskedKeepsInv(s, s', c.runId, c.approvalId);
      } else if c.CExpireDue? {
        ExpireAllKeepsInv(s, c.batch, c.now);
      } else {
        DecidedKeepsInv(s, s', c.id);
      }
    }
  }

  lemma CallKeepsInv(s: State, c: Call)
    requires Inv(s)
    ensures Inv(Apply(s, c))
  {
    ApplyShape(s, c);
    ShapeKeepsInv(s, Apply(s, c), c);
  }

  lemma {:induction false} AfterInv(calls: seq<Call>)
    ensures Inv(After(calls))
  {
    if calls != [] {
      AfterInv(calls[..|calls| - 1]);
      CallKeepsInv(After(calls[..|calls| - 1]), calls[|calls| - 1]);
    }
  }

  // ---------------------------------------------------------------- status changes

  ghost predicate StatusStep(run: Run, run': Run) {
    && AllowedChange(run.status, run'.status) && run'.org == run.org
    && (Terminal(run.status) ==> run'.status == run.status && run'.completedAt == run.completedAt)
  }

  lemma DecidedStatus(s: State, s': State, id: Uuid, r: Uuid)
    requires Inv(s) && Decided(s, s', id) && r in s.runs
    ensures r in s'.runs && StatusStep(s.runs[r], s'.runs[r])
  {
  }

  lemma ExpireAllStatus(s: State, batch: seq<Uuid>, now: int, r: Uuid)
    requires Inv(s) && IsDueBatch(s, batch, now) && r in s.runs
    ensures r in ExpireAll(s, batch, now).runs && StatusStep(s.runs[r], ExpireAll(s, batch, now).runs[r])
  {
    ExpireAllRun(s, batch, now, r);
  }

  lemma ShapeStatus(s: State, s': State, c: Call, r: Uuid)
    requires Inv(s) && r in s.runs && HasShape(s, s', c)
    ensures r in s'.runs && StatusStep(s.runs[r], s'.runs[r])
  {
    if s' != s {
      if c.CExpireDue? {
        ExpireAllStatus(s, c.batch, c.now, r);
      } else if c.CApprove? || c.CReject? {
        DecidedStatus(s, s', c.id, r);
      }
    }
  }

  lemma ApplyStatus(s: State, c: Call, r: Uuid)
    requires Inv(s) && r in s.runs
    ensures r in Apply(s, c).runs && StatusStep(s.runs[r], Apply(s, c).runs[r])
  {
    ApplyShape(s, c);
    ShapeStatus(s, Apply(s, c), c, r);
  }

  /** Every status change is an edge of the table, or QUEUED to FAILED. */
  lemma EveryChangeAllowed(calls: seq<Call>, c: Call, r: Uuid)
    requires r in After(calls).runs
    ensures r in After(calls + [c]).runs
    ensures AllowedChange(After(calls).runs[r].status, After(calls + [c]).runs[r].status)
  {
    assert (calls + [c])[..|calls|] == calls;
    AfterInv(calls);
    ApplyStatus(After(calls), c, r);
  }

  predicate OffTable(from: RunStatus, to: RunStatus) {
    from != to && !CanTransition(from, to)
  }

  predicate FailsRun(c: Call, r: Uuid, org: Uuid) {
    (c.CFailRun? && c.runId == r && c.org == org) || (c.CMarkPermanentFailure? && c.runId == r)
  }

  /** A run changes along no edge of the table exactly when it is queued and one of the two failure paths is called
      for it: by a worker of its organization, or by the queue. */
  lemma OffTableIffQueuedFails(calls: seq<Call>, c: Call, r: Uuid)
    requires r in After(calls).runs
    ensures r in After(calls + [c]).runs
    ensures OffTable(After(calls).runs[r].status, After(calls + [c]).runs[r].status)
       <==> After(calls).runs[r].status == Queued && FailsRun(c, r, After(calls).runs[r].org)
  {
    EveryChangeAllowed(calls, c, r);
    assert (calls + [c])[..|calls|] == calls;
    var s := After(calls);
    if s.runs[r].status == Queued {
      AfterInv(calls);
      QueuedOnlyFails(s, c, r);
    }
  }

  lemma QueuedOnlyFails(s: State, c: Call, r: Uuid)
    requires Inv(s) && r in s.runs && s.runs[r].status == Queued
    ensures r in Apply(s, c).runs && (Apply(s, c).runs[r].status == Failed <==> FailsRun(c, r, s.runs[r].org))
  {
    ApplyStatus(s, c, r);
    if !FailsRun(c, r, s.runs[r].org) {
      ApplyShape(s, c);
      if c.CExpireDue? && Apply(s, c) != s {
        ExpireAllRun(s, c.batch, c.now, r);
      }
    }
  }

  /** A terminal run keeps its status and its completion time whatever is called later. */
  lemma {:induction false} TerminalIsFinal(calls: seq<Call>, later: seq<Call>, r: Uuid)
    requires r in After(calls).runs && Terminal(After(calls).runs[r].status)
    ensures r in After(calls + later).runs
    ensures After(calls + later).runs[r].status == After(calls).runs[r].status
    ensures After(calls + later).runs[r].completedAt == After(calls).runs[r].completedAt
  {
    if later == [] {
      assert calls + later == calls;
    } else {
      var n := |later| - 1;
      assert (calls + later)[..|calls + later| - 1] == calls + later[..n];
      TerminalIsFinal(calls, later[..n], r);
      AfterInv(calls + later[..n]);
      ApplyStatus(After(calls + later[..n]), later[n], r);
    }
  }

  /** `completedAt` is set exactly when the status is terminal. */
  lemma CompletedExactlyWhenTerminal(calls: seq<Call>, r: Uuid)
    requires r in After(calls).runs
    ensures After(calls).runs[r].completedAt.Some? <==> Terminal(After(calls).runs[r].status)
  {
    AfterInv(calls);
  }

  // ---------------------------------------------------------------- approvals resume waiting runs, once each

  /** A queued run has no approvals, so `approve` never takes the edge from QUEUED to RUNNING. */
  lemma ApproveOnlyResumesWaiting(calls: seq<Call>, user: Option<Uuid>, id: Uuid, now: int)
    requires Approve(After(calls), user, id, now).outcome == Done
    ensures var s := After(calls); id in s.approvals && s.runs[s.approvals[id].runId].status == WaitingForApproval
  {
    AfterInv(calls);
  }

  lemma QueuedRunHasNoApproval(calls: seq<Call>, id: Uuid)
    requires id in After(calls).approvals
    ensures var s := After(calls); s.approvals[id].runId in s.runs && s.runs[s.approvals[id].runId].status != Queued
  {
    AfterInv(calls);
  }

  ghost function ApprovedOf(s: State, r: Uuid): set<Uuid> {
    set a | a in s.approvals && s.approvals[a].runId == r && s.approvals[a].status == Approved
  }

  ghost function ResumeJobsOf(s: State, r: Uuid): set<JobKey> {
    set k | k in s.jobs && k.queue == Resume && s.jobs[k].runId == r
  }

  ghost predicate Resumed(s: State, s': State, r: Uuid) {
    r in s.runs && r in s'.runs && s.runs[r].status == WaitingForApproval && s'.runs[r].status == Running
  }

  /** Changes of `r` from WAITING_FOR_APPROVAL to RUNNING. */
  ghost function Resumptions(calls: seq<Call>, r: Uuid): nat {
    if calls == [] then 0
    else
      var n := |calls| - 1;
      Resumptions(calls[..n], r) + if Resumed(After(calls[..n]), After(calls), r) then 1 else 0
  }

  /** Resume jobs of `r` ever added. */
  ghost function ResumeJobsAdded(calls: seq<Call>, r: Uuid): nat {
    if calls == [] then 0
    else
      var n := |calls| - 1;
      ResumeJobsAdded(calls[..n], r) + |ResumeJobsOf(After(calls), r) - ResumeJobsOf(After(calls[..n]), r)|
  }

  /** A pending approval has no resume job yet. */
  lemma PendingHasNoJob(s: State, id: Uuid)
    requires ResumeJobsApproved(s) && id in s.approvals && s.approvals[id].status == Pending
    ensures ResumeKey(s.approvals[id].runId, id) !in s.jobs
  {
    var key := ResumeKey(s.approvals[id].runId, id);
    if key in s.jobs {
      assert ResumeJobApproved(s, key);
      ResumeJobIdInjective(s.approvals[id].runId, id, s.jobs[key].runId, s.jobs[key].approvalId.value);
    }
  }

  lemma ApprovedCount(s: State, s': State, id: Uuid, r: Uuid)
    requires Decided(s, s', id) && s'.approvals[id].status == Approved
    ensures |ApprovedOf(s', r)| == |ApprovedOf(s, r)| + if Resumed(s, s', r) then 1 else 0
  {
    assert ApprovedOf(s', r) == if r == s.approvals[id].runId then ApprovedOf(s, r) + {id} else ApprovedOf(s, r);
  }

  lemma JobsGained(s: State, s': State, id: Uuid, r: Uuid)
    requires Inv(s) && Decided(s, s', id) && s'.approvals[id].status == Approved
    ensures ResumeJobsOf(s', r) - ResumeJobsOf(s, r)
         == (if r == s.approvals[id].runId then {ResumeKey(s.approvals[id].runId, id)} else {})
  {
    PendingHasNoJob(s, id);
  }

  lemma JobCount(s: State, s': State, id: Uuid, r: Uuid)
    requires Inv(s) && Decided(s, s', id) && s'.approvals[id].status == Approved
    ensures |ResumeJobsOf(s', r) - ResumeJobsOf(s, r)| == if Resumed(s, s', r) then 1 else 0
  {
    JobsGained(s, s', id, r);
  }

  ghost predicate NoResumption(s: State, s': State, r: Uuid) {
    !Resumed(s, s', r) && ApprovedOf(s', r) == ApprovedOf(s, r) && ResumeJobsOf(s', r) <= ResumeJobsOf(s, r)
  }

  lemma DecidedOtherwise(s: State, s': State, id: Uuid, r: Uuid)
    requires Decided(s, s', id) && s'.approvals[id].status != Approved
    ensures NoResumption(s, s', r)
  {
  }

  lemma ExpireAllApproved(s: State, ids: seq<Uuid>, now: int, r: Uuid)
    requires forall i | 0 <= i < |ids| :: ids[i] in s.approvals && s.approvals[ids[i]].status == Pending
    ensures ApprovedOf(ExpireAll(s, ids, now), r) == ApprovedOf(s, r)
  {
    var s' := ExpireAll(s, ids, now);
    forall a | a in s.approvals
      ensures s'.approvals[a] == if a in ids then s.approvals[a].(status := Expired) else s.approvals[a]
    {
      ExpireAllApproval(s, ids, now, a);
    }
  }

  lemma ExpireAllDoesNotResume(s: State, ids: seq<Uuid>, now: int, r: Uuid)
    requires Inv(s) && (forall i | 0 <= i < |ids| :: ids[i] in s.approvals && s.approvals[ids[i]].status == Pending)
    ensures NoResumption(s, ExpireAll(s, ids, now), r)
  {
    var s' := ExpireAll(s, ids, now);
    ExpireAllApproved(s, ids, now, r);
    assert s'.jobs == s.jobs by { if ids != [] { ExpireAllApproval(s, ids, now, ids[0]); } }
    assert !Resumed(s, s', r) by { if r in s.runs { ExpireAllRun(s, ids, now, r); } }
  }

  lemma ShapeDoesNotResume(s: State, s': State, c: Call, r: Uuid)
    requires Inv(s) && HasShape(s, s', c)
    requires s' != s && c.CApprove? ==> s'.approvals[c.id].status != Approved
    ensures NoResumption(s, s', r)
  {
    if s' != s {
      if c.CApprove? || c.CReject? {
        DecidedOtherwise(s, s', c.id, r);
      } else if c.CExpireDue? {
        ExpireAllDoesNotResume(s, c.batch, c.now, r);
      }
    }
  }

  lemma CallCounts(s: State, c: Call, r: Uuid)
    requires Inv(s)
    ensures var s' := Apply(s, c);
            var d := if Resumed(s, s', r) then 1 else 0;
            |ApprovedOf(s', r)| == |ApprovedOf(s, r)| + d && |ResumeJobsOf(s', r) - ResumeJobsOf(s, r)| == d
  {
    var s' := Apply(s, c);
    ApplyShape(s, c);
    if s' != s && c.CApprove? && s'.approvals[c.id].status == Approved {
      ApprovedCount(s, s', c.id, r);
      JobCount(s, s', c.id, r);
    } else {
      ShapeDoesNotResume(s, s', c, r);
      assert ResumeJobsOf(s', r) - ResumeJobsOf(s, r) == {};
    }
  }

  /** Per run: resumptions, approved approvals and resume jobs ever added are equal in number. */
  lemma {:induction false} ResumptionsAreApprovals(calls: seq<Call>, r: Uuid)
    ensures Resumptions(calls, r) == |ApprovedOf(After(calls), r)| == ResumeJobsAdded(calls, r)
  {
    if calls == [] {
      assert ApprovedOf(EMPTY, r) == {};
    } else {
      var n := |calls| - 1;
      ResumptionsAreApprovals(calls[..n], r);
      AfterInv(calls[..n]);
      CallCounts(After(calls[..n]), calls[n], r);
    }
  }

  // ---------------------------------------------------------------- waiting runs and pending approvals

  ghost predicate HasPending(s: State, r: Uuid) {
    exists a | a in s.approvals :: s.approvals[a].runId == r && s.approvals[a].status == Pending
  }

  ghost predicate WaitingHasPending(s: State) {
    forall r | r in s.runs && s.runs[r].status == WaitingForApproval :: HasPending(s, r)
  }

  /** The call asks for an approval at a running run with none pending, and the row cannot be inserted: a column does
      not take its value, or the action attempt already has an approval. The run is moved before that shows. */
  ghost predicate StrandsRun(s: State, c: Call) {
    && c.CCreateForRun? && c.runId in s.runs && s.runs[c.runId].status == Running
    && c.request.attemptId in s.attempts
      && s.attempts[c.request.attemptId] == Attempt(s.runs[c.runId].org, c.runId, true)
    && c.request.screenshotInRun
    && (!Storable(c.request) || AttemptUsed(s, c.request.attemptId) || c.approvalId in s.approvals)
    && !HasPending(s, c.runId)
  }

  lemma PendingStays(s: State, s': State, r: Uuid)
    requires HasPending(s, r)
    requires forall a | a in s.approvals && s.approvals[a].runId == r ::
        a in s'.approvals && s'.approvals[a] == s.approvals[a]
    ensures HasPending(s', r)
  {
    var a :| a in s.approvals && s.approvals[a].runId == r && s.approvals[a].status == Pending;
    assert s'.approvals[a].status == Pending;
  }

  lemma SameApprovalsKeepPending(s: State, s': State)
    requires WaitingHasPending(s) && s'.approvals == s.approvals
    requires forall r | r in s'.runs && s'.runs[r].status == WaitingForApproval ::
        r in s.runs && s.runs[r].status == WaitingForApproval
    ensures WaitingHasPending(s')
  {
    forall r | r in s'.runs && s'.runs[r].status == WaitingForApproval ensures HasPending(s', r) {
      PendingStays(s, s', r);
    }
  }

  lemma AskedKeepsPending(s: State, s': State, r: Uuid, id: Uuid)
    requires WaitingHasPending(s) && Asked(s, s', r, id)
    ensures WaitingHasPending(s') <==> !(s'.approvals == s.approvals && !HasPending(s, r))
  {
    if s'.approvals != s.approvals {
      assert s'.approvals[id].runId == r && HasPending(s', r);
      forall q | q in s'.runs && s'.runs[q].status == WaitingForApproval && q != r ensures HasPending(s', q) {
        PendingStays(s, s', q);
      }
    } else if HasPending(s, r) {
      forall q | q in s'.runs && s'.runs[q].status == WaitingForApproval ensures HasPending(s', q) {
        PendingStays(s, s', q);
      }
    } else {
      assert !HasPending(s', r);
    }
  }

  lemma CreateStrands(s: State, c: Call)
    requires WaitingHasPending(s) && c.CCreateForRun?
    ensures StrandsRun(s, c) <==> Apply(s, c) != s && Apply(s, c).approvals == s.approvals && !HasPending(s, c.runId)
  {
    if c.runId in s.runs && s.runs[c.runId].status != WaitingForApproval {
      assert Apply(s, c) != s ==> Apply(s, c).runs[c.runId].status == WaitingForApproval;
    }
  }

  lemma DecidedKeepsPending(s: State, s': State, id: Uuid)
    requires WaitingHasPending(s) && Decided(s, s', id)
    ensures WaitingHasPending(s')
  {
    forall r | r in s'.runs && s'.runs[r].status == WaitingForApproval ensures HasPending(s', r) {
      PendingStays(s, s', r);
    }
  }

  lemma ExpireKeepsPending(s: State, ids: seq<Uuid>, now: int)
    requires Linked(s) && WaitingHasPending(s) && forall i | 0 <= i < |ids| :: ids[i] in s.approvals
    ensures WaitingHasPending(ExpireAll(s, ids, now))
  {
    var s' := ExpireAll(s, ids, now);
    forall r | r in s'.runs && s'.runs[r].status == WaitingForApproval ensures HasPending(s', r) {
      ExpireAllRunKeys(s, ids, now);
      ExpireAllRun(s, ids, now, r);
      TouchesIff(s, ids, r);
      forall a | a in s.approvals && s.approvals[a].runId == r ensures s'.approvals[a] == s.approvals[a] {
        ExpireAllApproval(s, ids, now, a);
      }
      PendingStays(s, s', r);
    }
  }

  lemma {:induction false} ExpireAllRunKeys(s: State, ids: seq<Uuid>, now: int)
    requires forall i | 0 <= i < |ids| :: ids[i] in s.approvals
    ensures ExpireAll(s, ids, now).runs.Keys == s.runs.Keys
  {
    if ids != [] {
      ExpireAllRunKeys(s, ids[..|ids| - 1], now);
    }
  }

  lemma ShapeKeepsPending(s: State, s': State, c: Call)
    requires Inv(s) && WaitingHasPending(s) && HasShape(s, s', c) && !c.CCreateForRun?
    ensures WaitingHasPending(s')
  {
    if IsQuietCall(c) || (s' != s && IsRunCall(c)) {
      SameApprovalsKeepPending(s, s');
    } else if s' != s {
      if c.CExpireDue? {
        ExpireKeepsPending(s, c.batch, c.now);
      } else {
        DecidedKeepsPending(s, s', c.id);
      }
    }
  }

  /** A call keeps a pending approval at every waiting run exactly when it does not strand a run. */
  lemma KeepsPendingUnlessStranding(s: State, c: Call)
    requires Inv(s) && WaitingHasPending(s)
    ensures WaitingHasPending(Apply(s, c)) <==> !StrandsRun(s, c)
  {
    ApplyShape(s, c);
    if !c.CCreateForRun? {
      ShapeKeepsPending(s, Apply(s, c), c);
    } else {
      CreateStrands(s, c);
      if Apply(s, c) != s {
        AskedKeepsPending(s, Apply(s, c), c.runId, c.approvalId);
      }
    }
  }

  lemma AfterStep(calls: seq<Call>, n: nat)
    requires n < |calls|
    ensures After(calls[..n + 1]) == Apply(After(calls[..n]), calls[n])
  {
    assert calls[..n + 1][..n] == calls[..n];
  }

  /** A run that has started, with one action attempt that needs approval. */
  function Started(org: Uuid, r: Uuid, attempt: Uuid): seq<Call> {
    [CStart(org, r), CWorkerStarts(r), CRecordAttempt(attempt, r, true)]
  }

  function Asking(attempt: Uuid, amountCents: Option<nat>): Request {
    Request(attempt, "Pay the invoice", amountCents, Json.Object([]), true, Never)
  }

  lemma AskingStorable(attempt: Uuid)
    ensures Storable(Asking(attempt, None))
  {
    assert forall i | 0 <= i < 15 :: "Pay the invoice"[i] != '\0';
  }

  lemma AskedOnce(org: Uuid, r: Uuid, attempt: Uuid)
    ensures var s := After(Started(org, r, attempt));
            && s.runs == map[r := Run(org, Running, None, [], [])] && s.approvals == map[]
            && s.attempts == map[attempt := Attempt(org, r, true)]
  {
    var calls := Started(org, r, attempt);
    assert calls[..0] == [] && calls[..3] == calls;
    AfterStep(calls, 0); AfterStep(calls, 1); AfterStep(calls, 2);
  }

  lemma ApprovedOnce(s: State, org: Uuid, r: Uuid, attempt: Uuid, first: Uuid)
    requires s.runs == map[r := Run(org, Running, None, [], [])] && s.approvals == map[]
    requires s.attempts == map[attempt := Attempt(org, r, true)]
    ensures var s' := Apply(Apply(s, CCreateForRun(r, Asking(attempt, None), first, 0)), CApprove(Some(org), first, 1));
            && s'.approvals == map[first := Approval(org, r, attempt, Approved, None, Some(1), None)]
            && s'.attempts == s.attempts && r in s'.runs && s'.runs[r].org == org && s'.runs[r].status == Running
  {
    AskingStorable(attempt);
    var s1 := Apply(s, CCreateForRun(r, Asking(attempt, None), first, 0));
    assert s1.approvals == map[first := Approval(org, r, attempt, Pending, None, None, None)];
    assert s1.runs[r].status == WaitingForApproval && s1.runs[r].org == org;
  }

  ghost predicate Stranded(s: State, r: Uuid) {
    r in s.runs && s.runs[r].status == WaitingForApproval && !HasPending(s, r)
  }

  /** A worker that asks twice about one action attempt strands its run: the first approval is granted,
      the second request moves the run to waiting and then fails to insert. */
  lemma StrandedRun(org: Uuid, r: Uuid, attempt: Uuid, first: Uuid, second: Uuid)
    ensures Stranded(After(Started(org, r, attempt) + [CCreateForRun(r, Asking(attempt, None), first, 0),
              CApprove(Some(org), first, 1), CCreateForRun(r, Asking(attempt, None), second, 2)]), r)
  {
    var calls := Started(org, r, attempt) + [CCreateForRun(r, Asking(attempt, None), first, 0),
                   CApprove(Some(org), first, 1), CCreateForRun(r, Asking(attempt, None), second, 2)];
    assert calls[..3] == Started(org, r, attempt);
    AskedOnce(org, r, attempt);
    ApprovedOnce(After(calls[..3]), org, r, attempt, first);
    AfterStep(calls, 3); AfterStep(calls, 4); AfterStep(calls, 5);
    assert calls[..6] == calls;
    AskedAgain(After(calls[..5]), org, r, attempt, first, second);
  }

  lemma AskedAgain(s: State, org: Uuid, r: Uuid, attempt: Uuid, first: Uuid, second: Uuid)
    requires s.approvals == map[first := Approval(org, r, attempt, Approved, None, Some(1), None)]
    requires s.attempts == map[attempt := Attempt(org, r, true)]
    requires r in s.runs && s.runs[r].org == org && s.runs[r].status == Running
    ensures Stranded(Apply(s, CCreateForRun(r, Asking(attempt, None), second, 2)), r)
  {
    assert AttemptUsed(s, attempt) by { assert s.approvals[first].attemptId == attempt; }
  }

  /** So does a worker that asks once, about an amount that needs more than 32 bits. */
  lemma LargeAmountStrandsRun(org: Uuid, r: Uuid, attempt: Uuid, id: Uuid, amount: nat)
    requires amount > MAX_INT32
    ensures Stranded(After(Started(org, r, attempt) + [CCreateForRun(r, Asking(attempt, Some(amount)), id, 0)]), r)
  {
    var calls := Started(org, r, attempt) + [CCreateForRun(r, Asking(attempt, Some(amount)), id, 0)];
    assert calls[..3] == Started(org, r, attempt);
    AskedOnce(org, r, attempt);
    AfterStep(calls, 3);
    assert calls[..4] == calls;
  }

  ghost predicate NeverStrands(calls: seq<Call>) {
    forall i | 0 <= i < |calls| :: !StrandsRun(After(calls[..i]), calls[i])
  }

  /** Over runs of calls none of which strands a run, a waiting run always has a pending approval. */
  lemma {:induction false} WaitingRunHasPending(calls: seq<Call>)
    requires NeverStrands(calls)
    ensures WaitingHasPending(After(calls))
  {
    if calls != [] {
      var n := |calls| - 1;
      forall i | 0 <= i < n ensures !StrandsRun(After(calls[..n][..i]), calls[..n][i]) {
        assert calls[..n][..i] == calls[..i];
      }
      WaitingRunHasPending(calls[..n]);
      AfterInv(calls[..n]);
      KeepsPendingUnlessStranding(After(calls[..n]), calls[n]);
    }
  }

  // ---------------------------------------------------------------- queued runs and start jobs

  function StartKey(r: Uuid): JobKey {
    JobKey(Runs, StartJobId(r))
  }

  ghost predicate QueuedHasJob(s: State) {
    forall r | r in s.runs && s.runs[r].status == Queued :: StartKey(r) in s.jobs
  }

  /** The call takes away the start job of a run that stays queued: the queue forgets it, or the run is canceled
      for a reason its row does not take, after the job has been removed. */
  ghost predicate LosesStartJob(s: State, c: Call) {
    || (c.CPurgeJob? && exists r | r in s.runs && s.runs[r].status == Queued :: c.key == StartKey(r))
    || (c.CCancel? && !TextStorable(c.reason) && c.runId in s.runs && c.user == Some(s.runs[c.runId].org)
        && s.runs[c.runId].status == Queued && StartKey(c.runId) in s.jobs && s.jobs[StartKey(c.runId)].unstarted)
  }

  lemma StartKeyInjective(r: Uuid, q: Uuid)
    requires StartKey(r) == StartKey(q)
    ensures r == q
  {
    assert StartJobId(r)[6..] == r && StartJobId(q)[6..] == q;
  }

  /** Start jobs stay, and no run becomes queued. */
  ghost predicate StartJobsStay(s: State, s': State) {
    && (forall k | k in s.jobs && k.queue == Runs :: k in s'.jobs)
    && (forall r | r in s'.runs && s'.runs[r].status == Queued :: r in s.runs && s.runs[r].status == Queued)
  }

  lemma QuietKeepsStartJobs(s: State, c: Call)
    requires QueuedHasJob(s) && (c.CStart? || c.CRecordAttempt? || c.CPurgeJob?)
    ensures QueuedHasJob(Apply(s, c)) <==> !LosesStartJob(s, c)
  {
  }

  lemma CancelKeepsStartJobs(s: State, c: Call)
    requires QueuedHasJob(s) && c.CCancel?
    ensures QueuedHasJob(Apply(s, c)) <==> !LosesStartJob(s, c)
  {
    var s' := Apply(s, c);
    forall r | r in s.runs && s.runs[r].status == Queued && r != c.runId ensures StartKey(r) in s'.jobs {
      if StartKey(r) == StartKey(c.runId) { StartKeyInjective(r, c.runId); }
    }
  }

  lemma OtherStartJobsStay(s: State, c: Call)
    requires Inv(s) && !IsQuietCall(c) && !c.CCancel?
    ensures StartJobsStay(s, Apply(s, c))
  {
    if c.CExpireDue? {
      if IsDueBatch(s, c.batch, c.now) { ExpireAllStartJobs(s, c.batch, c.now); }
    } else {
      ApplyShape(s, c);
    }
  }

  lemma ExpireAllStartJobs(s: State, ids: seq<Uuid>, now: int)
    requires Inv(s) && IsDueBatch(s, ids, now)
    ensures StartJobsStay(s, ExpireAll(s, ids, now))
  {
    ExpireAllRunKeys(s, ids, now);
    ExpireAllJobs(s, ids, now);
    forall r | r in s.runs ensures ExpireAll(s, ids, now).runs[r].status == Queued ==> s.runs[r].status == Queued {
      ExpireAllRun(s, ids, now, r);
    }
  }

  lemma {:induction false} ExpireAllJobs(s: State, ids: seq<Uuid>, now: int)
    requires forall i | 0 <= i < |ids| :: ids[i] in s.approvals
    ensures ExpireAll(s, ids, now).jobs == s.jobs
  {
    if ids != [] {
      ExpireAllJobs(s, ids[..|ids| - 1], now);
    }
  }

  /** A call keeps the start job of every queued run exactly when it does not lose one. */
  lemma KeepsStartJobsUnlessLosing(s: State, c: Call)
    requires Inv(s) && QueuedHasJob(s)
    ensures QueuedHasJob(Apply(s, c)) <==> !LosesStartJob(s, c)
  {
    if c.CCancel? {
      CancelKeepsStartJobs(s, c);
    } else if IsQuietCall(c) {
      QuietKeepsStartJobs(s, c);
    } else {
      OtherStartJobsStay(s, c);
    }
  }

  /** It happens: canceled for a reason with NUL, a queued run loses its start job and stays queued. */
  lemma QueuedRunLosesJob(org: Uuid, r: Uuid)
    ensures var s := After([CStart(org, r), CCancel(Some(org), r, "\0", 0)]);
            r in s.runs && s.runs[r].status == Queued && StartKey(r) !in s.jobs
  {
    var calls := [CStart(org, r), CCancel(Some(org), r, "\0", 0)];
    assert calls[..0] == [] && calls[..2] == calls;
    AfterStep(calls, 0); AfterStep(calls, 1);
    assert "\0"[0] == '\0';
  }
}
