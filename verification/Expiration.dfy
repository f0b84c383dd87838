/** How the sweep of overdue approvals works off its backlog. */
module Expiration {
  import opened Options
  import opened Workflow
  import opened WorkflowInvariants

  ghost function Elements(ids: seq<Uuid>): set<Uuid> {
    set id | id in ids
  }

  lemma {:induction false} ElementsSize(ids: seq<Uuid>)
    requires forall i, j | 0 <= i < j < |ids| :: ids[i] != ids[j]
    ensures |Elements(ids)| == |ids|
  {
    if ids != [] {
      var n := |ids| - 1;
      ElementsSize(ids[..n]);
      assert ids == ids[..n] + [ids[n]];
      assert Elements(ids) == Elements(ids[..n]) + {ids[n]};
    }
  }

  lemma DueAfterBatch(s: State, ids: seq<Uuid>, now: int)
    requires forall i | 0 <= i < |ids| :: ids[i] in s.approvals
    ensures Due(ExpireAll(s, ids, now), now) == Due(s, now) - Elements(ids)
  {
    var s' := ExpireAll(s, ids, now);
    forall a | a in s.approvals
      ensures s'.approvals[a] == if a in ids then s.approvals[a].(status := Expired) else s.approvals[a]
    {
      ExpireAllApproval(s, ids, now, a);
    }
  }

  /** One sweep expires the smaller of a hundred and the backlog, takes exactly that many off the backlog,
      and leaves no run of an approval it expired waiting, also when several share a run. */
  lemma SweepTakesBatch(s: State, ids: seq<Uuid>, now: int)
    requires Inv(s) && IsDueBatch(s, ids, now)
    ensures var s' := ExpireAll(s, ids, now);
      && |ids| == (if |Due(s, now)| < 100 then |Due(s, now)| else 100)
      && |Due(s', now)| == |Due(s, now)| - |ids|
      && (forall id | id in ids :: s'.approvals[id].status == Expired && s.approvals[id].runId in s'.runs
                                   && s'.runs[s.approvals[id].runId].status != WaitingForApproval)
  {
    var s' := ExpireAll(s, ids, now);
    DueAfterBatch(s, ids, now);
    ElementsSize(ids);
    assert Elements(ids) <= Due(s, now);
    forall id | id in ids
      ensures s'.approvals[id].status == Expired && s.approvals[id].runId in s'.runs
      ensures s'.runs[s.approvals[id].runId].status != WaitingForApproval
    {
      ExpireAllApproval(s, ids, now, id);
      ExpireAllRun(s, ids, now, s.approvals[id].runId);
      TouchesIff(s, ids, s.approvals[id].runId);
    }
  }

  /** Sweeps one after the other, with nothing in between. */
  ghost predicate Sweeps(s: State, batches: seq<seq<Uuid>>, now: int, s': State)
    decreases batches
  {
    if batches == [] then s' == s
    else IsDueBatch(s, batches[0], now) && Sweeps(ExpireAll(s, batches[0], now), batches[1..], now, s')
  }

  /** With no new arrivals, `k` sweeps take `100 * k` off the backlog, or all of it. */
  lemma {:induction false} SweepsDrain(s: State, batches: seq<seq<Uuid>>, now: int, s': State)
    requires Inv(s) && Sweeps(s, batches, now, s')
    ensures Inv(s')
    ensures |Due(s', now)| == if |Due(s, now)| <= 100 * |batches| then 0 else |Due(s, now)| - 100 * |batches|
    decreases batches
  {
    if batches != [] {
      SweepTakesBatch(s, batches[0], now);
      ExpireAllKeepsInv(s, batches[0], now);
      SweepsDrain(ExpireAll(s, batches[0], now), batches[1..], now, s');
    }
  }

  /** A backlog of `n` is gone after `n / 100` sweeps, rounded up, and not before. */
  lemma BacklogDrained(s: State, batches: seq<seq<Uuid>>, now: int, s': State)
    requires Inv(s) && Sweeps(s, batches, now, s')
    ensures Due(s', now) == {} <==> |batches| >= (|Due(s, now)| + 99) / 100
  {
    SweepsDrain(s, batches, now, s');
  }
}
