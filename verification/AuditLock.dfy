/** The per-organization promise chain that serialises `AuditService.record`.
    A call runs in segments, from one await to the next; any interleaving of segments may happen. */
module AuditLock {
  import opened Options
  import opened AuditChain

  /** The promises a call may wait for: an already resolved one, a call's own `current`,
      or the `previous.then(() => current)` that a call stored in the map. */
  datatype Promise = Resolved | Own(call: nat) | Then(call: nat)

  datatype Stamp = Stamp(id: nat, createdAt: int)

  datatype Phase =
    | Waiting                                 // at `await previous`
    | Entered                                 // handler running, latest row not read yet
    | HasPrevious(prevHash: Option<string>)   // latest row read, new row not inserted yet
    | Finished(written: Option<Stamp>)        // handler settled; None when it threw
    | Released(written: Option<Stamp>)

  /** Calls are numbered in the order in which they arrive. */
  datatype State = State(
    inputs: seq<Input>,
    previous: seq<Promise>,
    phases: seq<Phase>,
    settled: set<nat>,                        // calls whose `Then` promise has settled
    locks: map<string, Promise>,
    rows: map<string, seq<Row>>)

  datatype Step =
    | Arrive(input: Input)
    | Settle(call: nat)
    | Enter(call: nat)
    | ReadLatest(call: nat)
    | Insert(call: nat, id: nat, createdAt: int)
    | Throw(call: nat)
    | Release(call: nat)

  const EMPTY := State([], [], [], {}, map[], map[])

  ghost predicate Shape(s: State) {
    |s.inputs| == |s.previous| == |s.phases|
  }

  function RowsOf(s: State, org: string): seq<Row> {
    if org in s.rows then s.rows[org] else []
  }

  predicate IsSettled(s: State, p: Promise) {
    match p
    case Resolved => true
    case Own(c) => c < |s.phases| && s.phases[c].Released?
    case Then(c) => c in s.settled
  }

  predicate Enabled(s: State, step: Step, config: Config)
    requires Shape(s)
  {
    step.Arrive? ||
    var c := step.call;
    c < |s.inputs| &&
    match step
    case Settle(_) => c !in s.settled && IsSettled(s, s.previous[c]) && s.phases[c].Released?
    case Enter(_) => s.phases[c].Waiting? && IsSettled(s, s.previous[c])
    case ReadLatest(_) => s.phases[c].Entered? && KnownEnums(s.inputs[c], config)
    case Insert(_, _, _) => s.phases[c].HasPrevious?
    case Throw(_) => s.phases[c].Entered? || s.phases[c].HasPrevious?
    case Release(_) => s.phases[c].Finished?
  }

  /** A step that is not enabled changes nothing. */
  function Apply(s: State, step: Step, config: Config): (s': State)
    requires Shape(s)
    ensures Shape(s')
  {
    if !Enabled(s, step, config) then s
    else match step
      case Arrive(input) =>
        var org, n := input.organizationId, |s.inputs|;
        s.(inputs := s.inputs + [input],
           previous := s.previous + [if org in s.locks then s.locks[org] else Resolved],
           phases := s.phases + [Waiting],
           locks := s.locks[org := Then(n)])
      case Settle(c) => s.(settled := s.settled + {c})
      case Enter(c) => s.(phases := s.phases[c := Entered])
      case ReadLatest(c) => s.(phases := s.phases[c := HasPrevious(LatestHash(RowsOf(s, s.inputs[c].organizationId)))])
      case Insert(c, id, createdAt) =>
        var org := s.inputs[c].organizationId;
        var row := MakeRow(s.inputs[c], s.phases[c].prevHash, id, createdAt, config);
        s.(phases := s.phases[c := Finished(Some(Stamp(id, createdAt)))],
          rows := s.rows[org := InsertRow(RowsOf(s, org), row)])
      case Throw(c) => s.(phases := s.phases[c := Finished(None)])
      case Release(c) =>
        var org := s.inputs[c].organizationId;
        s.(phases := s.phases[c := Released(s.phases[c].written)],
           locks := if org in s.locks && s.locks[org] == Own(c) then s.locks - {org} else s.locks)
  }

  /** The state after any interleaving of steps. */
  function Run(steps: seq<Step>, config: Config): (s: State)
    ensures Shape(s)
  {
    if steps == [] then EMPTY
    else Apply(Run(steps[..|steps| - 1], config), steps[|steps| - 1], config)
  }

  // ---------------------------------------------------------------- specification

  /** The last call before `k` for the same organization. */
  ghost function Predecessor(inputs: seq<Input>, k: nat, org: string): (p: Option<nat>)
    requires k <= |inputs|
    ensures p.Some? ==> p.value < k && inputs[p.value].organizationId == org
    ensures forall d | (if p.Some? then p.value + 1 else 0) <= d < k :: inputs[d].organizationId != org
  {
    if k == 0 then None
    else if inputs[k - 1].organizationId == org then Some(k - 1)
    else Predecessor(inputs, k - 1, org)
  }

  ghost function PromiseOf(p: Option<nat>): Promise {
    match p
    case None => Resolved
    case Some(c) => Then(c)
  }

  function Written(p: Phase): Option<Stamp> {
    match p
    case Finished(w) => w
    case Released(w) => w
    case _ => None
  }

  /** The records written for `org` by the first `k` calls, in arrival order. */
  ghost function EventsOf(inputs: seq<Input>, phases: seq<Phase>, org: string, k: nat): seq<Event>
    requires k <= |inputs| == |phases|
  {
    if k == 0 then []
    else
      var before := EventsOf(inputs, phases, org, k - 1);
      if inputs[k - 1].organizationId == org && Written(phases[k - 1]).Some? then
        var w := Written(phases[k - 1]).value;
        before + [Event(inputs[k - 1], w.id, w.createdAt)]
      else before
  }

  ghost function Log(s: State, org: string): seq<Event>
    requires Shape(s)
  {
    EventsOf(s.inputs, s.phases, org, |s.inputs|)
  }

  // ---------------------------------------------------------------- invariant

  ghost predicate LockIsTail(s: State, org: string)
    requires Shape(s)
  {
    var p := Predecessor(s.inputs, |s.inputs|, org);
    if org in s.locks then p.Some? && s.locks[org] == Then(p.value) else p.None?
  }

  ghost predicate LocksAreTails(s: State)
    requires Shape(s)
  {
    forall org :: LockIsTail(s, org)
  }

  ghost predicate WaitsForPredecessor(s: State)
    requires Shape(s)
  {
    forall c {:trigger Predecessor(s.inputs, c, s.inputs[c].organizationId)} | 0 <= c < |s.inputs| ::
      s.previous[c] == PromiseOf(Predecessor(s.inputs, c, s.inputs[c].organizationId))
  }

  ghost predicate SettledInOrder(s: State)
    requires Shape(s)
  {
    && (forall c | c in s.settled :: c < |s.inputs| && s.phases[c].Released? && IsSettled(s, s.previous[c]))
    && (forall c | 0 <= c < |s.inputs| && !s.phases[c].Waiting? :: IsSettled(s, s.previous[c]))
  }

  ghost predicate RowsAreLogs(s: State, config: Config)
    requires Shape(s)
  {
    && (forall org :: RowsOf(s, org) == Recorded(Log(s, org), config))
    && (forall c | 0 <= c < |s.inputs| && s.phases[c].HasPrevious? ::
          s.phases[c].prevHash == LatestHash(RowsOf(s, s.inputs[c].organizationId)))
  }

  ghost predicate Inv(s: State, config: Config) {
    Shape(s) && LocksAreTails(s) && WaitsForPredecessor(s) && SettledInOrder(s) && RowsAreLogs(s, config)
  }

  /** Once a call's `previous` has settled, every earlier call of its organization has released. */
  lemma {:induction false} EarlierReleased(s: State, d: nat, c: nat)
    requires Shape(s) && WaitsForPredecessor(s) && SettledInOrder(s)
    requires d < c < |s.inputs| && s.inputs[d].organizationId == s.inputs[c].organizationId
    requires IsSettled(s, s.previous[c])
    ensures s.phases[d].Released?
    decreases c
  {
    var p := Predecessor(s.inputs, c, s.inputs[c].organizationId);
    assert s.previous[c] == PromiseOf(p);
    assert p.Some? && p.value in s.settled;
    if d < p.value {
      EarlierReleased(s, d, p.value);
    }
  }

  lemma {:induction false} PredecessorPrefix(inputs: seq<Input>, more: seq<Input>, k: nat, org: string)
    requires k <= |inputs| && inputs <= more
    ensures Predecessor(inputs, k, org) == Predecessor(more, k, org)
  {
    if k > 0 {
      PredecessorPrefix(inputs, more, k - 1, org);
    }
  }

  /** The log depends only on what was written. */
  lemma {:induction false} SameEvents(inputs: seq<Input>, phases: seq<Phase>, more: seq<Input>, phases': seq<Phase>,
      org: string, k: nat)
    requires |inputs| == |phases| && |more| == |phases'| && inputs <= more && k <= |inputs|
    requires forall c | 0 <= c < k :: Written(phases[c]) == Written(phases'[c])
    ensures EventsOf(inputs, phases, org, k) == EventsOf(more, phases', org, k)
  {
    if k > 0 {
      SameEvents(inputs, phases, more, phases', org, k - 1);
    }
  }

  lemma {:induction false} NothingWrittenLater(inputs: seq<Input>, phases: seq<Phase>, org: string, c: nat, k: nat)
    requires c <= k <= |inputs| == |phases|
    requires forall d | c <= d < k && inputs[d].organizationId == org :: Written(phases[d]).None?
    ensures EventsOf(inputs, phases, org, k) == EventsOf(inputs, phases, org, c)
  {
    if c < k {
      NothingWrittenLater(inputs, phases, org, c, k - 1);
    }
  }

  /** The call inside the critical section is the last one of its organization to have entered. */
  lemma LaterWait(s: State, c: nat, config: Config)
    requires Inv(s, config) && c < |s.inputs| && !s.phases[c].Waiting? && !s.phases[c].Released?
    ensures forall d | c < d < |s.inputs| && s.inputs[d].organizationId == s.inputs[c].organizationId ::
        s.phases[d].Waiting?
  {
    forall d | c < d < |s.inputs|
      && s.inputs[d].organizationId == s.inputs[c].organizationId ensures s.phases[d].Waiting? {
      if !s.phases[d].Waiting? {
        EarlierReleased(s, c, d);
      }
    }
  }

  // ---------------------------------------------------------------- the invariant is kept

  lemma ArriveKeepsLock(s: State, input: Input, config: Config, org: string)
    requires Shape(s) && LockIsTail(s, org)
    ensures LockIsTail(Apply(s, Arrive(input), config), org)
  {
    PredecessorPrefix(s.inputs, s.inputs + [input], |s.inputs|, org);
  }

  lemma ArriveKeepsLocks(s: State, input: Input, config: Config)
    requires Shape(s) && LocksAreTails(s)
    ensures LocksAreTails(Apply(s, Arrive(input), config))
  {
    forall org ensures LockIsTail(Apply(s, Arrive(input), config), org) {
      assert LockIsTail(s, org);
      ArriveKeepsLock(s, input, config, org);
    }
  }

  lemma ArriveKeepsWaits(s: State, input: Input, config: Config)
    requires Shape(s) && LocksAreTails(s) && WaitsForPredecessor(s)
    ensures WaitsForPredecessor(Apply(s, Arrive(input), config))
  {
    var s' := Apply(s, Arrive(input), config);
    assert LockIsTail(s, input.organizationId);
    forall c: nat | c <= |s.inputs|
      ensures s'.previous[c] == PromiseOf(Predecessor(s'.inputs, c, s'.inputs[c].organizationId))
    {
      PredecessorPrefix(s.inputs, s'.inputs, c, s'.inputs[c].organizationId);
    }
  }

  lemma ArriveKeepsSettled(s: State, input: Input, config: Config)
    requires Shape(s) && SettledInOrder(s)
    ensures SettledInOrder(Apply(s, Arrive(input), config))
  {
    var s' := Apply(s, Arrive(input), config);
    forall p | IsSettled(s, p) ensures IsSettled(s', p) {
    }
  }

  lemma ArriveKeepsRows(s: State, input: Input, config: Config)
    requires Shape(s) && RowsAreLogs(s, config)
    ensures RowsAreLogs(Apply(s, Arrive(input), config), config)
  {
    var s', n := Apply(s, Arrive(input), config), |s.inputs|;
    forall org ensures Log(s', org) == Log(s, org) {
      SameEvents(s.inputs, s.phases, s'.inputs, s'.phases, org, n);
    }
  }

  /** Steps that move one call on without writing a row. */
  lemma PhaseKeepsRows(s: State, s': State, config: Config)
    requires Inv(s, config) && Shape(s') && s'.inputs == s.inputs && s'.rows == s.rows
    requires forall c | 0 <= c < |s.inputs| :: Written(s'.phases[c]) == Written(s.phases[c])
    requires forall c | 0 <= c < |s.inputs| && s'.phases[c].HasPrevious? && s'.phases[c] != s.phases[c] ::
               s'.phases[c].prevHash == LatestHash(RowsOf(s, s.inputs[c].organizationId))
    ensures RowsAreLogs(s', config)
  {
    forall org ensures Log(s', org) == Log(s, org) {
      SameEvents(s.inputs, s.phases, s'.inputs, s'.phases, org, |s.inputs|);
    }
  }

  lemma LocksStay(s: State, step: Step, config: Config)
    requires Shape(s) && LocksAreTails(s) && !step.Arrive?
    ensures Apply(s, step, config).locks == s.locks
  {
    if step.Release? && step.call < |s.inputs| {
      assert LockIsTail(s, s.inputs[step.call].organizationId);
    }
  }

  lemma PhaseKeepsOrder(s: State, step: Step, config: Config)
    requires Shape(s) && LocksAreTails(s) && WaitsForPredecessor(s) && SettledInOrder(s) && !step.Arrive?
    ensures var s' := Apply(s, step, config); LocksAreTails(s') && WaitsForPredecessor(s') && SettledInOrder(s')
  {
    var s' := Apply(s, step, config);
    assert s'.inputs == s.inputs && s'.previous == s.previous;
    LocksStay(s, step, config);
    forall org ensures LockIsTail(s', org) {
      assert LockIsTail(s, org);
    }
    SettledStays(s, step, config);
  }

  lemma SettledStays(s: State, step: Step, config: Config)
    requires Shape(s) && SettledInOrder(s) && !step.Arrive?
    ensures SettledInOrder(Apply(s, step, config))
  {
    var s' := Apply(s, step, config);
    forall p | IsSettled(s, p) ensures IsSettled(s', p) {
    }
    forall c | 0 <= c < |s.inputs| && !s'.phases[c].Waiting? ensures IsSettled(s', s'.previous[c]) {
      assert s'.previous[c] == s.previous[c];
    }
  }

  /** Writing for call `c` appends to the log when no later call of the organization has written. */
  lemma WriteAppends(inputs: seq<Input>, phases: seq<Phase>, c: nat, phase: Phase)
    requires c < |inputs| == |phases| && Written(phase).Some?
    requires forall d | c <= d < |inputs| && inputs[d].organizationId == inputs[c].organizationId ::
        Written(phases[d]).None?
    ensures var org, n, w := inputs[c].organizationId, |inputs|, Written(phase).value;
            EventsOf(inputs, phases[c := phase], org, n)
            == EventsOf(inputs, phases, org, n) + [Event(inputs[c], w.id, w.createdAt)]
  {
    var org, n, phases' := inputs[c].organizationId, |inputs|, phases[c := phase];
    NothingWrittenLater(inputs, phases, org, c, n);
    NothingWrittenLater(inputs, phases', org, c + 1, n);
    SameEvents(inputs, phases, inputs, phases', org, c);
  }

  lemma RecordedStep(events: seq<Event>, event: Event, config: Config)
    ensures Recorded(events + [event], config)
         == Record(Recorded(events, config), event.input, event.id, event.createdAt, config)
  {
    assert (events + [event])[..|events|] == events;
  }

  lemma InsertKeepsPrevious(s: State, c: nat, id: nat, createdAt: int, config: Config)
    requires Inv(s, config) && Enabled(s, Insert(c, id, createdAt), config)
    ensures var s' := Apply(s, Insert(c, id, createdAt), config);
            forall d | 0 <= d < |s'.inputs| && s'.phases[d].HasPrevious? ::
              s'.phases[d].prevHash == LatestHash(RowsOf(s', s'.inputs[d].organizationId))
  {
    var s' := Apply(s, Insert(c, id, createdAt), config);
    LaterWait(s, c, config);
    forall d: nat | d < |s'.inputs| && s'.phases[d].HasPrevious?
      ensures s.inputs[d].organizationId != s.inputs[c].organizationId
    {
      if d < c && s.inputs[d].organizationId == s.inputs[c].organizationId {
        EarlierReleased(s, d, c);
      }
    }
  }

  lemma InsertKeepsRows(s: State, c: nat, id: nat, createdAt: int, config: Config)
    requires Inv(s, config) && Enabled(s, Insert(c, id, createdAt), config)
    ensures RowsAreLogs(Apply(s, Insert(c, id, createdAt), config), config)
  {
    var s', mine := Apply(s, Insert(c, id, createdAt), config), s.inputs[c].organizationId;
    LaterWait(s, c, config);
    WriteAppends(s.inputs, s.phases, c, s'.phases[c]);
    RecordedStep(Log(s, mine), Event(s.inputs[c], id, createdAt), config);
    InsertKeepsPrevious(s, c, id, createdAt, config);
    forall org ensures RowsOf(s', org) == Recorded(Log(s', org), config) {
      if org != mine {
        OtherLogUnchanged(s, c, s'.phases[c], org);
      }
    }
  }

  lemma OtherLogUnchanged(s: State, c: nat, phase: Phase, org: string)
    requires Shape(s) && c < |s.inputs| && s.inputs[c].organizationId != org
    ensures EventsOf(s.inputs, s.phases[c := phase], org, |s.inputs|) == Log(s, org)
  {
    OtherEvents(s.inputs, s.phases, c, phase, org, |s.inputs|);
  }

  lemma {:induction false} OtherEvents(inputs: seq<Input>, phases: seq<Phase>, c: nat, phase: Phase, org: string,
      k: nat)
    requires k <= |inputs| == |phases| && c < |inputs| && inputs[c].organizationId != org
    ensures EventsOf(inputs, phases[c := phase], org, k) == EventsOf(inputs, phases, org, k)
  {
    if k > 0 {
      OtherEvents(inputs, phases, c, phase, org, k - 1);
    }
  }

  lemma OtherStepKeepsRows(s: State, step: Step, config: Config)
    requires Inv(s, config) && !step.Arrive? && !step.Insert?
    ensures RowsAreLogs(Apply(s, step, config), config)
  {
    var s' := Apply(s, step, config);
    forall c | 0 <= c < |s.inputs| ensures Written(s'.phases[c]) == Written(s.phases[c]) {
    }
    PhaseKeepsRows(s, s', config);
  }

  lemma StepKeepsInv(s: State, step: Step, config: Config)
    requires Inv(s, config)
    ensures Inv(Apply(s, step, config), config)
  {
    if step.Arrive? {
      ArriveKeepsLocks(s, step.input, config);
      ArriveKeepsWaits(s, step.input, config);
      ArriveKeepsSettled(s, step.input, config);
      ArriveKeepsRows(s, step.input, config);
    } else {
      PhaseKeepsOrder(s, step, config);
      if !step.Insert? {
        OtherStepKeepsRows(s, step, config);
      } else if Enabled(s, step, config) {
        InsertKeepsRows(s, step.call, step.id, step.createdAt, config);
      }
    }
  }

  lemma {:induction false} RunInv(steps: seq<Step>, config: Config)
    ensures Inv(Run(steps, config), config)
  {
    if steps == [] {
      assert forall org :: Log(EMPTY, org) == [];
    } else {
      RunInv(steps[..|steps| - 1], config);
      StepKeepsInv(Run(steps[..|steps| - 1], config), steps[|steps| - 1], config);
    }
  }

  // ---------------------------------------------------------------- main results

  predicate Critical(p: Phase) {
    p.Entered? || p.HasPrevious?
  }

  /** At most one call of an organization is between entering and inserting. */
  lemma MutualExclusion(steps: seq<Step>, c: nat, d: nat, config: Config)
    requires var s := Run(steps, config);
             && c < |s.inputs| && d < |s.inputs| && s.inputs[c].organizationId == s.inputs[d].organizationId
             && Critical(s.phases[c]) && Critical(s.phases[d])
    ensures c == d
  {
    RunInv(steps, config);
    var s := Run(steps, config);
    if c < d { EarlierReleased(s, c, d); }
    if d < c { EarlierReleased(s, d, c); }
  }

  /** Calls of one organization run in arrival order, also after calls that threw. */
  lemma ArrivalOrder(steps: seq<Step>, d: nat, c: nat, config: Config)
    requires var s := Run(steps, config);
             d < c < |s.inputs| && s.inputs[d].organizationId == s.inputs[c].organizationId && !s.phases[c].Waiting?
    ensures Run(steps, config).phases[d].Released?
  {
    RunInv(steps, config);
    EarlierReleased(Run(steps, config), d, c);
  }

  /** The rows are those of undisturbed records made one after the other in arrival order. */
  lemma InterleavingIsAtomic(steps: seq<Step>, org: string, config: Config)
    ensures var s := Run(steps, config); RowsOf(s, org) == Recorded(Log(s, org), config)
  {
    RunInv(steps, config);
  }

  /** So any interleaving leaves a chain that verifies exactly when the rows were stamped in arrival order. */
  lemma InterleavingVerifiesIffInOrder(steps: seq<Step>, org: string, config: Config)
    requires CollisionFree(config.hash) && PayloadsWellFormed(Log(Run(steps, config), org), config)
    ensures Accepted(RowsOf(Run(steps, config), org), config) <==> InOrder(Log(Run(steps, config), org))
  {
    InterleavingIsAtomic(steps, org, config);
    RecordedAcceptedIffInOrder(Log(Run(steps, config), org), config);
  }

  lemma TailsCleaned(s: State, step: Step, org: string, config: Config)
    requires Shape(s) && LocksAreTails(s)
    ensures org in s.locks <==> exists c :: 0 <= c < |s.inputs| && s.inputs[c].organizationId == org
    ensures org in s.locks ==> s.locks[org].Then? && org in Apply(s, step, config).locks
  {
    assert LockIsTail(s, org);
    var p := Predecessor(s.inputs, |s.inputs|, org);
    if p.Some? { assert s.inputs[p.value].organizationId == org; }
    if !step.Arrive? {
      LocksStay(s, step, config);
    }
  }

  /** The map holds `Then` promises only, so the clean-up after a release never finds its own `current`:
      an organization that was ever recorded stays in the map. */
  lemma CleanUpNeverMatches(steps: seq<Step>, step: Step, org: string, config: Config)
    ensures var s := Run(steps, config);
            && (org in s.locks <==> exists c :: 0 <= c < |s.inputs| && s.inputs[c].organizationId == org)
            && (org in s.locks ==> s.locks[org].Then? && org in Apply(s, step, config).locks)
  {
    RunInv(steps, config);
    TailsCleaned(Run(steps, config), step, org, config);
  }

  /** A step that moves a call on; a handler is made to throw only if it does so itself, for unknown enums. */
  predicate Progress(s: State, step: Step, config: Config)
    requires Shape(s)
  {
    !step.Arrive? && Enabled(s, step, config) && (step.Throw? ==> !KnownEnums(s.inputs[step.call], config))
  }

  /** No call waits for ever: while some call is not released, some call can move on. */
  lemma NoDeadlock(steps: seq<Step>, c: nat, config: Config)
    requires c < |Run(steps, config).inputs| && !Run(steps, config).phases[c].Released?
    ensures exists step: Step :: Progress(Run(steps, config), step, config)
  {
    RunInv(steps, config);
    CanMove(Run(steps, config), c, config);
  }

  lemma {:induction false} CanMove(s: State, c: nat, config: Config)
    requires Inv(s, config) && c < |s.inputs|
    requires !s.phases[c].Released? || c !in s.settled
    ensures exists step: Step :: Progress(s, step, config)
    decreases c
  {
    var phase := s.phases[c];
    if phase.Entered? {
      assert Progress(s, if KnownEnums(s.inputs[c], config) then ReadLatest(c) else Throw(c), config);
    } else if phase.HasPrevious? {
      assert Progress(s, Insert(c, 0, 0), config);
    } else if phase.Finished? {
      assert Progress(s, Release(c), config);
    } else if IsSettled(s, s.previous[c]) {
      assert Progress(s, if phase.Waiting? then Enter(c) else Settle(c), config);
    } else {
      CanMove(s, Predecessor(s.inputs, c, s.inputs[c].organizationId).value, config);
    }
  }

  /** The steps a call has still before it. */
  function Ahead(s: State, c: nat): nat
    requires Shape(s) && c < |s.inputs|
  {
    (match s.phases[c]
     case Waiting => 4
     case Entered => 3
     case HasPrevious(_) => 2
     case Finished(_) => 1
     case Released(_) => 0)
    + if c in s.settled then 0 else 1
  }

  function AllAhead(s: State, n: nat): (sum: nat)
    requires Shape(s) && n <= |s.inputs|
    ensures sum <= 5 * n
  {
    if n == 0 then 0 else AllAhead(s, n - 1) + Ahead(s, n - 1)
  }

  lemma {:induction false} OneMoved(s: State, s': State, c: nat, n: nat)
    requires Shape(s) && Shape(s') && s'.inputs == s.inputs && n <= |s.inputs| && c < |s.inputs|
    requires forall d: nat | d < |s.inputs| && d != c :: Ahead(s', d) == Ahead(s, d)
    requires Ahead(s', c) < Ahead(s, c)
    ensures if c < n then AllAhead(s', n) < AllAhead(s, n) else AllAhead(s', n) == AllAhead(s, n)
  {
    if n > 0 {
      OneMoved(s, s', c, n - 1);
    }
  }

  lemma StepMovesOne(s: State, step: Step, config: Config)
    requires Shape(s) && !step.Arrive? && Enabled(s, step, config)
    ensures var s' := Apply(s, step, config);
            s'.inputs == s.inputs && AllAhead(s', |s.inputs|) < AllAhead(s, |s.inputs|)
  {
    OneMoved(s, Apply(s, step, config), step.call, |s.inputs|);
  }

  /** `more` moves calls on, one enabled step after the other, with no new arrivals. */
  ghost predicate Moves(s: State, more: seq<Step>, config: Config)
    requires Shape(s)
    decreases |more|
  {
    more == [] ||
    (!more[0].Arrive? && Enabled(s, more[0], config) && Moves(Apply(s, more[0], config), more[1..], config))
  }

  ghost function MovedOn(s: State, more: seq<Step>, config: Config): (s': State)
    requires Shape(s)
    ensures Shape(s')
    decreases |more|
  {
    if more == [] then s else MovedOn(Apply(s, more[0], config), more[1..], config)
  }

  lemma {:induction false} MovesEnd(s: State, more: seq<Step>, config: Config)
    requires Inv(s, config) && Moves(s, more, config)
    ensures Inv(MovedOn(s, more, config), config) && MovedOn(s, more, config).inputs == s.inputs
    ensures |more| + AllAhead(MovedOn(s, more, config), |s.inputs|) <= AllAhead(s, |s.inputs|)
    decreases |more|
  {
    if more != [] {
      StepKeepsInv(s, more[0], config);
      StepMovesOne(s, more[0], config);
      MovesEnd(Apply(s, more[0], config), more[1..], config);
    }
  }

  /** Without new arrivals every way to go on ends after at most five steps a call, and where it can go no further
      every call has released its lock and every promise in the chain has settled. */
  lemma EveryRecordFinishes(steps: seq<Step>, more: seq<Step>, config: Config)
    requires Moves(Run(steps, config), more, config)
    ensures |more| <= 5 * |Run(steps, config).inputs|
    ensures var s := MovedOn(Run(steps, config), more, config);
            (forall step: Step :: !Progress(s, step, config)) ==>
              forall c: nat | c < |s.inputs| :: s.phases[c].Released? && c in s.settled
  {
    var s := Run(steps, config);
    RunInv(steps, config);
    MovesEnd(s, more, config);
    var end := MovedOn(s, more, config);
    if forall step: Step :: !Progress(end, step, config) {
      forall c: nat | c < |end.inputs| ensures end.phases[c].Released? && c in end.settled {
        if !end.phases[c].Released? || c !in end.settled { CanMove(end, c, config); }
      }
    }
  }

  // ---------------------------------------------------------------- the service

  /** `AuditService`, one method for each stretch of code between two awaits. */
  class AuditService {
    const config: Config
    var organizationLocks: map<string, Promise>
    var rows: map<string, seq<Row>>
    var inputs: seq<Input>
    var previous: seq<Promise>
    var phases: seq<Phase>
    var settled: set<nat>

    ghost function View(): State
      reads this
    {
      State(inputs, previous, phases, settled, organizationLocks, rows)
    }

    constructor (config: Config)
      ensures View() == EMPTY && this.config == config
    {
      this.config := config;
      organizationLocks, rows := map[], map[];
      inputs, previous, phases, settled := [], [], [], {};
    }

    /** From the call of `record` to `await previous`. */
    method Begin(input: Input) returns (call: nat)
      requires Shape(View())
      modifies this
      ensures call == old(|inputs|)
      ensures View() == Apply(old(View()), Arrive(input), config)
    {
      var org := input.organizationId;
      var before := if org in organizationLocks then organizationLocks[org] else Resolved;
      call := |inputs|;
      inputs, previous, phases := inputs + [input], previous + [before], phases + [Waiting];
      organizationLocks := organizationLocks[org := Then(call)];
    }

    /** `previous` has settled: the handler starts and checks the enums. */
    method Resume(call: nat)
      requires Shape(View()) && Enabled(View(), Enter(call), config)
      modifies this
      ensures inputs == old(inputs)
      ensures var entered := Apply(old(View()), Enter(call), config);
              View() == if KnownEnums(inputs[call], config) then entered else Apply(entered, Throw(call), config)
    {
      phases := phases[call := Entered];
      if inputs[call].actorType !in config.actorTypes || inputs[call].eventType !in config.eventTypes {
        phases := phases[call := Finished(None)];
      }
    }

    /** `findFirst` answers with the latest row. */
    method Read(call: nat)
      requires Shape(View()) && Enabled(View(), ReadLatest(call), config)
      modifies this
      ensures View() == Apply(old(View()), ReadLatest(call), config)
    {
      var org := inputs[call].organizationId;
      var own := if org in rows then rows[org] else [];
      var prevHash := if own == [] then None else Some(own[|own| - 1].eventHash);
      phases := phases[call := HasPrevious(prevHash)];
    }

    /** `create` inserts the hashed row. */
    method Write(call: nat, id: nat, createdAt: int)
      requires Shape(View()) && Enabled(View(), Insert(call, id, createdAt), config)
      modifies this
      ensures View() == Apply(old(View()), Insert(call, id, createdAt), config)
    {
      var input := inputs[call];
      var redacted := (config.redact)(input.eventDataJson);
      var fields := Fields(input.organizationId, input.workflowRunId, input.agentId, input.actorType, input.actorId,
                           input.eventType, redacted, phases[call].prevHash);
      var row := Row(id, createdAt, fields, Digest(fields, config));
      var own := if input.organizationId in rows then rows[input.organizationId] else [];
      rows := rows[input.organizationId := InsertRow(own, row)];
      phases := phases[call := Finished(Some(Stamp(id, createdAt)))];
    }

    /** The `finally` block. */
    method Finally(call: nat)
      requires Shape(View()) && Enabled(View(), Release(call), config)
      modifies this
      ensures View() == Apply(old(View()), Release(call), config)
    {
      phases := phases[call := Released(phases[call].written)];
      var org := inputs[call].organizationId;
      if org in organizationLocks && organizationLocks[org] == Own(call) {
        organizationLocks := organizationLocks - {org};
      }
    }
  }
}
