/** `approve` split at its awaits and run by one caller alone: the steps together are the call. */
module ApproveAlone {
  import opened Options
  import opened Workflow
  import opened ApproveRace

  /** The steps of one caller with nothing in between, at one time. */
  ghost function Alone(s: Race, org: Uuid, id: Uuid, now: int): Race {
    var c := |s.callers|;
    var loaded := Take(Take(s, Begin(org, id)), Load(c, now));
    var marked := Take(Take(Take(loaded, ExpireLoaded(c, now)), CheckRun(c)), Mark(c, now));
    Take(Take(Take(marked, Look(c)), Add(c)), Finish(c, now))
  }

  lemma AloneLoaded(s: Race, org: Uuid, id: Uuid, now: int)
    ensures var c, s' := |s.callers|, Take(Take(s, Begin(org, id)), Load(|s.callers|, now));
      && s'.plane == s.plane && |s'.callers| == c + 1
      && s'.callers[c] == Caller(org, id,
           if id !in s.plane.approvals || s.plane.approvals[id].org != org || s.plane.approvals[id].status != Pending
           then Stopped
           else if IsExpired(s.plane.approvals[id], now) then Overdue else Loaded(s.plane.approvals[id]))
  {
  }

  lemma StoppedStays(s: Race, c: nat, now: int)
    requires c < |s.callers| && s.callers[c].phase.Stopped?
    ensures Take(s, CheckRun(c)) == s && Take(s, Mark(c, now)) == s && Take(s, ExpireLoaded(c, now)) == s
    ensures Take(s, Look(c)) == s && Take(s, Add(c)) == s && Take(s, Finish(c, now)) == s
  {
  }

  lemma OverdueExpires(s: Race, c: nat, now: int)
    requires c < |s.callers| && s.callers[c].phase.Overdue? && s.callers[c].id in s.plane.approvals
    ensures var s' := Take(s, ExpireLoaded(c, now));
      && s'.plane == ExpireApproval(s.plane, s.callers[c].id, now)
      && c < |s'.callers| && s'.callers[c].phase.Stopped?
  {
  }

  lemma LoadedGoesOn(s: Race, c: nat, now: int)
    requires c < |s.callers| && s.callers[c].phase.Loaded?
    ensures Take(s, ExpireLoaded(c, now)) == s
  {
  }

  lemma LoadedMarks(s: Race, c: nat, now: int)
    requires c < |s.callers| && s.callers[c].phase.Loaded? && s.callers[c].id in s.plane.approvals
    ensures var me, s' := s.callers[c], Take(Take(s, CheckRun(c)), Mark(c, now));
      var a := me.phase.approval;
      && |s'.callers| == |s.callers|
      && if a.runId in s.plane.runs && s.plane.runs[a.runId].org == me.org
            && CanTransition(s.plane.runs[a.runId].status, Running)
         then
           && s'.callers[c] == Caller(me.org, me.id, Marked(a, s.plane.runs[a.runId]))
           && s'.plane == s.plane.(approvals := s.plane.approvals[me.id :=
                s.plane.approvals[me.id].(status := Approved, approvedAt := Some(now))])
         else s'.callers[c].phase.Stopped? && s'.plane == s.plane
  {
    var checked := Take(s, CheckRun(c));
    assert checked.plane == s.plane && |checked.callers| == |s.callers|;
  }

  lemma MarkedFinishes(s: Race, c: nat, now: int)
    requires c < |s.callers| && s.callers[c].phase.Marked?
    requires s.callers[c].phase.approval.runId in s.plane.runs
    requires s.plane.runs[s.callers[c].phase.approval.runId] == s.callers[c].phase.run
    ensures var me, s' := s.callers[c], Take(Take(Take(s, Look(c)), Add(c)), Finish(c, now));
      var a, run := me.phase.approval, me.phase.run;
      && s'.plane == s.plane.(
           jobs := AddIdempotent(s.plane.jobs, KeyOf(a, me.id), Job(a.runId, Some(me.id), true)),
           runs := s.plane.runs[a.runId := FinishedRun(run, run, a, me.id, now)])
  {
    var me := s.callers[c];
    var a, run := me.phase.approval, me.phase.run;
    var looked := Take(s, Look(c));
    assert looked.plane == s.plane && |looked.callers| == |s.callers|;
    var added := Take(looked, Add(c));
    assert added.plane == s.plane.(jobs :=
      AddIdempotent(s.plane.jobs, KeyOf(a, me.id), Job(a.runId, Some(me.id), true)));
    assert added.callers[c] == Caller(me.org, me.id, Enqueued(a, run));
  }

  lemma AloneMarks(s: Race, org: Uuid, id: Uuid, now: int) returns (loaded: Race, marked: Race)
    requires id in s.plane.approvals && s.plane.approvals[id].org == org && s.plane.approvals[id].status == Pending
    requires !IsExpired(s.plane.approvals[id], now)
    ensures loaded == Take(Take(s, Begin(org, id)), Load(|s.callers|, now))
    ensures marked == Take(Take(Take(loaded, ExpireLoaded(|s.callers|, now)), CheckRun(|s.callers|)),
        Mark(|s.callers|, now))
    ensures loaded.plane == s.plane && |loaded.callers| == |s.callers| + 1
    ensures loaded.callers[|s.callers|] == Caller(org, id, Loaded(s.plane.approvals[id]))
    ensures marked == Take(Take(loaded, CheckRun(|s.callers|)), Mark(|s.callers|, now))
  {
    var c := |s.callers|;
    AloneLoaded(s, org, id, now);
    loaded := Take(Take(s, Begin(org, id)), Load(c, now));
    LoadedGoesOn(loaded, c, now);
    marked := Take(Take(Take(loaded, ExpireLoaded(c, now)), CheckRun(c)), Mark(c, now));
  }

  lemma AloneApproves(s: Race, org: Uuid, id: Uuid, now: int)
    requires id in s.plane.approvals && s.plane.approvals[id].org == org && s.plane.approvals[id].status == Pending
    requires !IsExpired(s.plane.approvals[id], now)
    ensures Alone(s, org, id, now).plane == Approve(s.plane, Some(org), id, now).state
  {
    var c := |s.callers|;
    var loaded, marked := AloneMarks(s, org, id, now);
    LoadedMarks(loaded, c, now);
    if marked.callers[c].phase.Stopped? {
      StoppedStays(marked, c, now);
    } else {
      MarkedFinishes(marked, c, now);
    }
  }

  /** A caller whom nobody disturbs leaves exactly what `approve` as one step leaves. */
  lemma UndisturbedIsApprove(s: Race, org: Uuid, id: Uuid, now: int)
    ensures Alone(s, org, id, now).plane == Approve(s.plane, Some(org), id, now).state
  {
    var c := |s.callers|;
    AloneLoaded(s, org, id, now);
    var loaded := Take(Take(s, Begin(org, id)), Load(c, now));
    if loaded.callers[c].phase.Stopped? {
      StoppedStays(loaded, c, now);
    } else if loaded.callers[c].phase.Overdue? {
      OverdueExpires(loaded, c, now);
      StoppedStays(Take(loaded, ExpireLoaded(c, now)), c, now);
    } else {
      AloneApproves(s, org, id, now);
    }
  }
}
