/** What the audit rows say: each row against the call that wrote it, column by column. */
module AuditRows {
  import opened Options
  import opened Json
  import opened StableStringify
  import opened AuditChain
  import opened AuditLock

  /** The row carries the call's columns, its payload redacted, and the stamp of its insertion. */
  predicate Holds(r: Row, input: Input, id: nat, createdAt: int, config: Config) {
    && r.id == id
    && r.createdAt == createdAt
    && r.fields.organizationId == input.organizationId
    && r.fields.workflowRunId == input.workflowRunId
    && r.fields.agentId == input.agentId
    && r.fields.actorType == input.actorType
    && r.fields.actorId == input.actorId
    && r.fields.eventType == input.eventType
    && r.fields.eventDataJson == (config.redact)(input.eventDataJson)
  }

  /** Rows as the chain is read back: by time, then by id. */
  predicate InReadingOrder(rows: seq<Row>) {
    forall i, j | 0 <= i < j < |rows| ::
      rows[i].createdAt < rows[j].createdAt || (rows[i].createdAt == rows[j].createdAt && rows[i].id <= rows[j].id)
  }

  ghost predicate Distinct(order: seq<nat>) {
    forall i, j | 0 <= i < j < |order| :: order[i] != order[j]
  }

  // ---------------------------------------------------------------- undisturbed records

  lemma {:induction false} InsertInOrder(rows: seq<Row>, r: Row)
    requires InReadingOrder(rows)
    ensures InReadingOrder(InsertRow(rows, r))
  {
    if rows != [] && !Before(rows[|rows| - 1], r) {
      var n := |rows| - 1;
      InsertInOrder(rows[..n], r);
      var front := InsertRow(rows[..n], r);
      forall i | 0 <= i < |front| ensures !Before(rows[n], front[i]) {
        FrontRow(rows[..n], r, i);
      }
    }
  }

  lemma {:induction false} RecordedInOrder(events: seq<Event>, config: Config)
    ensures InReadingOrder(Recorded(events, config))
  {
    if events != [] {
      var n := |events| - 1;
      var rows := Recorded(events[..n], config);
      RecordedInOrder(events[..n], config);
      InsertInOrder(rows, MakeRow(events[n].input, LatestHash(rows), events[n].id, events[n].createdAt, config));
    }
  }

  ghost predicate HoldInOrder(rows: seq<Row>, events: seq<Event>, order: seq<nat>, config: Config) {
    && |rows| == |order| == |events| && Distinct(order)
    && (forall i | 0 <= i < |order| :: order[i] < |events|)
    && (forall i | 0 <= i < |order| && order[i] < |events| ::
          Holds(rows[i], events[order[i]].input, events[order[i]].id, events[order[i]].createdAt, config))
  }

  lemma {:induction false} RecordedHold(events: seq<Event>, config: Config) returns (order: seq<nat>)
    ensures HoldInOrder(Recorded(events, config), events, order, config)
  {
    if events == [] {
      order := [];
    } else {
      var n := |events| - 1;
      var e := events[n];
      var before := RecordedHold(events[..n], config);
      var rows := Recorded(events[..n], config);
      var r := MakeRow(e.input, LatestHash(rows), e.id, e.createdAt, config);
      var p := InsertPosition(rows, r);
      order := before[..p] + [n] + before[p..];
      InsertedHolds(rows, events, before, order, p, r, config);
    }
  }

  lemma InsertedHolds(rows: seq<Row>, events: seq<Event>, before: seq<nat>, order: seq<nat>, p: nat, r: Row,
      config: Config)
    requires events != [] && p <= |before| && order == before[..p] + [|events| - 1] + before[p..]
    requires HoldInOrder(rows, events[..|events| - 1], before, config)
    requires var e := events[|events| - 1]; Holds(r, e.input, e.id, e.createdAt, config)
    ensures HoldInOrder(rows[..p] + [r] + rows[p..], events, order, config)
  {
    var n, rows' := |events| - 1, rows[..p] + [r] + rows[p..];
    forall i | 0 <= i < |order|
      ensures order[i] < |events|
      ensures Holds(rows'[i], events[order[i]].input, events[order[i]].id, events[order[i]].createdAt, config)
    {
      if i != p {
        var j := if i < p then i else i - 1;
        assert order[i] == before[j] && rows'[i] == rows[j] && before[j] < n;
        assert events[..n][before[j]] == events[before[j]];
      }
    }
    forall i, j | 0 <= i < j < |order| ensures order[i] != order[j] {
      if i != p && j != p {
        var k, l := if i < p then i else i - 1, if j < p then j else j - 1;
        assert order[i] == before[k] && order[j] == before[l] && k < l;
      } else {
        var l := if i == p then j - 1 else i;
        assert before[l] < n;
      }
    }
  }

  // ---------------------------------------------------------------- interleavings

  /** The calls for `org` among the first `k` that have written a row. */
  ghost function Writers(s: State, org: string, k: nat): (cs: seq<nat>)
    requires Shape(s) && k <= |s.inputs|
    ensures forall i | 0 <= i < |cs| :: cs[i] < k && IsWriter(s, org, cs[i])
  {
    if k == 0 then [] else Writers(s, org, k - 1) + if IsWriter(s, org, k - 1) then [k - 1] else []
  }

  ghost predicate IsWriter(s: State, org: string, c: nat)
    requires Shape(s)
  {
    c < |s.inputs| && s.inputs[c].organizationId == org && Written(s.phases[c]).Some?
  }

  lemma {:induction false} WritersAre(s: State, org: string, k: nat)
    requires Shape(s) && k <= |s.inputs|
    ensures forall c: nat :: c in Writers(s, org, k) <==> c < k && IsWriter(s, org, c)
    ensures Distinct(Writers(s, org, k))
  {
    if k > 0 {
      WritersAre(s, org, k - 1);
    }
  }

  ghost predicate EventIs(s: State, e: Event, c: nat)
    requires Shape(s)
  {
    && c < |s.inputs| && Written(s.phases[c]).Some? && e.input == s.inputs[c]
    && e.id == Written(s.phases[c]).value.id && e.createdAt == Written(s.phases[c]).value.createdAt
  }

  lemma {:induction false} LogOfWriters(s: State, org: string, k: nat)
    requires Shape(s) && k <= |s.inputs|
    ensures |EventsOf(s.inputs, s.phases, org, k)| == |Writers(s, org, k)|
    ensures forall i | 0 <= i < |Writers(s, org, k)| ::
              EventIs(s, EventsOf(s.inputs, s.phases, org, k)[i], Writers(s, org, k)[i])
  {
    if k > 0 {
      LogOfWriters(s, org, k - 1);
    }
  }

  /** Row `i` is what the call `calls[i]` wrote, and each call of `org` that has written is there once. */
  ghost predicate RowsAreCalls(s: State, org: string, calls: seq<nat>, config: Config)
    requires Shape(s)
  {
    var rows := RowsOf(s, org);
    && |calls| == |rows| && Distinct(calls)
    && (forall c: nat :: c in calls <==> IsWriter(s, org, c))
    && (forall i | 0 <= i < |rows| && i < |calls| && IsWriter(s, org, calls[i]) ::
          Holds(rows[i], s.inputs[calls[i]], Written(s.phases[calls[i]]).value.id,
                Written(s.phases[calls[i]]).value.createdAt, config))
  }

  lemma OrderWriters(s: State, org: string, order: seq<nat>, calls: seq<nat>, config: Config)
    requires Shape(s) && HoldInOrder(RowsOf(s, org), Log(s, org), order, config)
    requires var cs := Writers(s, org, |s.inputs|);
             |cs| == |calls| == |order| && forall i | 0 <= i < |order| :: order[i] < |cs| && calls[i] == cs[order[i]]
    ensures RowsAreCalls(s, org, calls, config)
  {
    var cs := Writers(s, org, |s.inputs|);
    WritersAre(s, org, |s.inputs|);
    LogOfWriters(s, org, |s.inputs|);
    forall c: nat ensures c in calls <==> IsWriter(s, org, c) {
      if IsWriter(s, org, c) {
        assert c in cs;
        var k :| 0 <= k < |cs| && cs[k] == c;
        Onto(order, k);
        var i :| 0 <= i < |order| && order[i] == k;
        assert calls[i] == c;
      }
    }
    forall i | 0 <= i < |calls| && IsWriter(s, org, calls[i])
      ensures Holds(RowsOf(s, org)[i], s.inputs[calls[i]], Written(s.phases[calls[i]]).value.id,
                    Written(s.phases[calls[i]]).value.createdAt, config)
    {
      assert EventIs(s, Log(s, org)[order[i]], cs[order[i]]);
    }
  }

  /** Distinct numbers below their count are all the numbers below it. */
  lemma {:induction false} Onto(order: seq<nat>, k: nat)
    requires Distinct(order) && k < |order| && forall i | 0 <= i < |order| :: order[i] < |order|
    ensures k in order
  {
    var used := set i | 0 <= i < |order| :: order[i];
    UsedSize(order, |order|);
    if k !in order {
      assert used <= Below(|order|) - {k};
      AtMost(used, Below(|order|) - {k});
    }
  }

  ghost function Below(n: nat): (r: set<nat>)
    ensures |r| == n && forall i: nat :: i in r <==> i < n
  {
    if n == 0 then {} else Below(n - 1) + {n - 1}
  }

  lemma {:induction false} UsedSize(order: seq<nat>, n: nat)
    requires Distinct(order) && n <= |order|
    ensures |set i | 0 <= i < n :: order[i]| == n
  {
    if n > 0 {
      UsedSize(order, n - 1);
      assert (set i | 0 <= i < n :: order[i]) == (set i | 0 <= i < n - 1 :: order[i]) + {order[n - 1]};
    }
  }

  lemma AtMost(a: set<nat>, b: set<nat>)
    requires a <= b
    ensures |a| <= |b|
  {
    assert b == a + (b - a);
  }

  /** In every interleaving the rows of an organization are, in reading order, one for each of its calls that has
      written, and each row carries that call's columns, its redacted payload and its stamp. */
  lemma RowsHoldCalls(steps: seq<Step>, org: string, config: Config) returns (calls: seq<nat>)
    ensures RowsAreCalls(Run(steps, config), org, calls, config)
    ensures InReadingOrder(RowsOf(Run(steps, config), org))
  {
    var s := Run(steps, config);
    InterleavingIsAtomic(steps, org, config);
    RecordedInOrder(Log(s, org), config);
    var order := RecordedHold(Log(s, org), config);
    LogOfWriters(s, org, |s.inputs|);
    var cs := Writers(s, org, |s.inputs|);
    calls := seq(|order|, i requires 0 <= i < |order| => cs[order[i]]);
    OrderWriters(s, org, order, calls, config);
  }

  /** An insertion makes its call one that has written, with the stamp it was given; no later step takes that back. */
  lemma InsertionIsWritten(s: State, step: Step, config: Config)
    requires Shape(s) && Enabled(s, step, config)
    ensures step.Insert? ==>
              Written(Apply(s, step, config).phases[step.call]) == Some(Stamp(step.id, step.createdAt))
    ensures forall c | 0 <= c < |s.inputs| && Written(s.phases[c]).Some? ::
              Written(Apply(s, step, config).phases[c]) == Written(s.phases[c])
  {
  }

  ghost predicate OnlyKnownWritten(s: State, config: Config)
    requires Shape(s)
  {
    forall c | 0 <= c < |s.inputs| && (s.phases[c].HasPrevious? || Written(s.phases[c]).Some?) ::
      s.inputs[c].actorType in config.actorTypes && s.inputs[c].eventType in config.eventTypes
  }

  lemma StepKeepsOnlyKnown(s: State, step: Step, config: Config)
    requires Shape(s) && OnlyKnownWritten(s, config)
    ensures OnlyKnownWritten(Apply(s, step, config), config)
  {
    var s' := Apply(s, step, config);
    if !step.Arrive? && Enabled(s, step, config) {
      assert s'.inputs == s.inputs;
      assert forall c | 0 <= c < |s.inputs| && c != step.call :: s'.phases[c] == s.phases[c];
    }
  }

  /** A call with an unknown actor or event type never writes. */
  lemma {:induction false} UnknownNeverWritten(steps: seq<Step>, config: Config)
    ensures OnlyKnownWritten(Run(steps, config), config)
  {
    if steps != [] {
      UnknownNeverWritten(steps[..|steps| - 1], config);
      StepKeepsOnlyKnown(Run(steps[..|steps| - 1], config), steps[|steps| - 1], config);
    }
  }

  // ---------------------------------------------------------------- the hashed text

  function StringOrNull(value: Option<string>): Json {
    if value.Some? then String(value.value) else Null
  }

  /** The digest is the hash of a text that reads back as an object of eight entries, which name the columns. */
  lemma DigestNamesColumns(f: Fields, config: Config) returns (text: string, es: seq<Entry>)
    requires WellFormed(f.eventDataJson)
    ensures Digest(f, config) == (config.hash)(text) && Parse(text) == Some(Object(es)) && |es| == 8
    ensures Entry("organizationId", String(f.organizationId)) in es
    ensures Entry("workflowRunId", StringOrNull(f.workflowRunId)) in es
    ensures Entry("agentId", StringOrNull(f.agentId)) in es
    ensures Entry("actorType", String(f.actorType)) in es
    ensures Entry("actorId", StringOrNull(f.actorId)) in es
    ensures Entry("eventType", String(f.eventType)) in es
    ensures Entry("prevHash", StringOrNull(f.prevHash)) in es
    ensures exists payload :: Entry("eventDataJson", payload) in es && Same(f.eventDataJson, payload)
  {
    text := Stable(FieldsJson(f), config.le);
    FieldsWellFormed(f);
    CanonicalWellFormed(FieldsJson(f), config.le);
    StableIsCanonicalText(FieldsJson(f), config.le);
    ParseRoundTrip(Canonical(FieldsJson(f), config.le));
    var cs := CanonicalEntries(FieldsJson(f).entries, config.le);
    es := SortByKey(cs, config.le);
    FirstColumns(f, config.le);
    LastColumns(f, config.le);
    SameAsCanonical(f.eventDataJson, config.le);
    assert Entry("eventDataJson", Canonical(f.eventDataJson, config.le)) in es;
  }

  lemma FirstColumns(f: Fields, le: KeyOrder)
    ensures var cs := CanonicalEntries(FieldsJson(f).entries, le);
      && |cs| == 8
      && Entry("organizationId", String(f.organizationId)) in cs
      && Entry("workflowRunId", StringOrNull(f.workflowRunId)) in cs
      && Entry("agentId", StringOrNull(f.agentId)) in cs
      && Entry("actorType", String(f.actorType)) in cs
  {
    var cs := CanonicalEntries(FieldsJson(f).entries, le);
    assert cs[0] == Entry("organizationId", String(f.organizationId));
    assert cs[1] == Entry("workflowRunId", StringOrNull(f.workflowRunId));
    assert cs[2] == Entry("agentId", StringOrNull(f.agentId));
    assert cs[3] == Entry("actorType", String(f.actorType));
  }

  lemma LastColumns(f: Fields, le: KeyOrder)
    ensures var cs := CanonicalEntries(FieldsJson(f).entries, le);
      && Entry("actorId", StringOrNull(f.actorId)) in cs
      && Entry("eventType", String(f.eventType)) in cs
      && Entry("eventDataJson", Canonical(f.eventDataJson, le)) in cs
      && Entry("prevHash", StringOrNull(f.prevHash)) in cs
  {
    var cs := CanonicalEntries(FieldsJson(f).entries, le);
    assert cs[4] == Entry("actorId", StringOrNull(f.actorId));
    assert cs[5] == Entry("eventType", String(f.eventType));
    assert cs[6] == Entry("eventDataJson", Canonical(f.eventDataJson, le));
    assert cs[7] == Entry("prevHash", StringOrNull(f.prevHash));
  }
}
