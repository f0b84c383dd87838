/** The hash chain of audit rows: how `record` extends it and how verification replays it. */
module AuditChain {
  import opened Options
  import opened Json
  import opened StableStringify

  /** What the service is configured with. The digest is a parameter: SHA-256 is not modelled. */
  datatype Config = Config(
    hash: string -> string,
    le: KeyOrder,
    redact: Json -> Json,
    actorTypes: set<string>,
    eventTypes: set<string>)

  datatype Input = Input(
    organizationId: string,
    workflowRunId: Option<string>,
    agentId: Option<string>,
    actorType: string,
    actorId: Option<string>,
    eventType: string,
    eventDataJson: Json)

  /** The eight hashed columns of a row. */
  datatype Fields = Fields(
    organizationId: string,
    workflowRunId: Option<string>,
    agentId: Option<string>,
    actorType: string,
    actorId: Option<string>,
    eventType: string,
    eventDataJson: Json,
    prevHash: Option<string>)

  /** An `audit_events` row; `id` is the UUID read as its 128-bit number, which is how it sorts. */
  datatype Row = Row(id: nat, createdAt: int, fields: Fields, eventHash: string)

  predicate KnownEnums(input: Input, config: Config) {
    input.actorType in config.actorTypes && input.eventType in config.eventTypes
  }

  // ---------------------------------------------------------------- the row digest

  function OrNull(s: Option<string>): Json {
    match s
    case None => Null
    case Some(t) => String(t)
  }

  function FieldsJson(f: Fields): Json {
    Object([
      Entry("organizationId", String(f.organizationId)),
      Entry("workflowRunId", OrNull(f.workflowRunId)),
      Entry("agentId", OrNull(f.agentId)),
      Entry("actorType", String(f.actorType)),
      Entry("actorId", OrNull(f.actorId)),
      Entry("eventType", String(f.eventType)),
      Entry("eventDataJson", f.eventDataJson),
      Entry("prevHash", OrNull(f.prevHash))])
  }

  function Digest(f: Fields, config: Config): string {
    (config.hash)(Stable(FieldsJson(f), config.le))
  }

  ghost predicate CollisionFree(h: string -> string) {
    forall s, t :: h(s) == h(t) ==> s == t
  }

  /** Equal in all eight hashed columns, the payload up to the order of object keys. */
  ghost predicate SameFields(f: Fields, g: Fields) {
    f.(eventDataJson := g.eventDataJson) == g && Same(f.eventDataJson, g.eventDataJson)
  }

  lemma FieldKeysDistinct(f: Fields)
    ensures DistinctKeys(FieldsJson(f).entries)
  {
    var es := FieldsJson(f).entries;
    assert |es| == 8;
    assert es[1].key[0] == 'w' && es[6].key[0] == 'e';
    assert es[2].key[1] == 'g' && es[4].key[1] == 'c';
    assert es[3].key[0] == 'a' && es[5].key[0] == 'e';
  }

  lemma FieldsWellFormed(f: Fields)
    requires WellFormed(f.eventDataJson)
    ensures WellFormed(FieldsJson(f))
  {
    FieldKeysDistinct(f);
  }

  /** Entries at one position agree when the objects are the same and keys do not repeat. */
  lemma SameAt(es: seq<Entry>, fs: seq<Entry>, i: nat)
    requires Same(Object(es), Object(fs)) && DistinctKeys(fs)
    requires i < |es| && i < |fs| && es[i].key == fs[i].key
    ensures Same(es[i].value, fs[i].value)
  {
    assert PartnerRight(es[i], fs);
  }

  lemma SameOrNull(s: Option<string>, t: Option<string>)
    requires Same(OrNull(s), OrNull(t))
    ensures s == t
  {
  }

  lemma SameValuesSameFields(f: Fields, g: Fields)
    requires forall i | 0 <= i < 8 :: Same(FieldsJson(f).entries[i].value, FieldsJson(g).entries[i].value)
    ensures SameFields(f, g)
  {
    var es, fs := FieldsJson(f).entries, FieldsJson(g).entries;
    assert Same(es[0].value, fs[0].value) && Same(es[3].value, fs[3].value) && Same(es[5].value, fs[5].value);
    assert Same(es[1].value, fs[1].value) && Same(es[2].value, fs[2].value);
    assert Same(es[4].value, fs[4].value) && Same(es[6].value, fs[6].value) && Same(es[7].value, fs[7].value);
    SameOrNull(f.workflowRunId, g.workflowRunId);
    SameOrNull(f.agentId, g.agentId);
    SameOrNull(f.actorId, g.actorId);
    SameOrNull(f.prevHash, g.prevHash);
  }

  lemma SameJsonFields(f: Fields, g: Fields)
    requires Same(FieldsJson(f), FieldsJson(g))
    ensures SameFields(f, g)
  {
    FieldKeysDistinct(g);
    forall i: nat | i < 8 ensures Same(FieldsJson(f).entries[i].value, FieldsJson(g).entries[i].value) {
      SameAt(FieldsJson(f).entries, FieldsJson(g).entries, i);
    }
    SameValuesSameFields(f, g);
  }

  /** Equal in the seven plain columns, with payloads that print alike. */
  ghost predicate SameText(f: Fields, g: Fields, le: KeyOrder) {
    f.(eventDataJson := g.eventDataJson) == g && Stable(f.eventDataJson, le) == Stable(g.eventDataJson, le)
  }

  lemma SameTextFieldsJson(f: Fields, g: Fields, le: KeyOrder)
    requires WellFormed(f.eventDataJson) && WellFormed(g.eventDataJson) && SameText(f, g, le)
    ensures Canonical(FieldsJson(f), le) == Canonical(FieldsJson(g), le)
  {
    SameTextSameCanonical(f.eventDataJson, g.eventDataJson, le);
    var es, fs := FieldsJson(f).entries, FieldsJson(g).entries;
    assert CanonicalEntries(es, le) == CanonicalEntries(fs, le);
  }

  lemma FieldsJsonSameText(f: Fields, g: Fields, le: KeyOrder)
    requires WellFormed(f.eventDataJson) && WellFormed(g.eventDataJson)
    requires Canonical(FieldsJson(f), le) == Canonical(FieldsJson(g), le)
    ensures SameText(f, g, le)
  {
    CanonicalSame(FieldsJson(f), FieldsJson(g), le);
    SameJsonFields(f, g);
    FieldKeysDistinct(f);
    var cs, ds := CanonicalEntries(FieldsJson(f).entries, le), CanonicalEntries(FieldsJson(g).entries, le);
    EntryValue(cs, ds, 6, 6, le);
    SameTextSameCanonical(f.eventDataJson, g.eventDataJson, le);
  }

  /** Whatever the comparison of keys: rows that print alike have one digest, and with a collision-free hash
      only those do. */
  lemma DigestIffSameText(f: Fields, g: Fields, config: Config)
    requires WellFormed(f.eventDataJson) && WellFormed(g.eventDataJson)
    ensures SameText(f, g, config.le) ==> Digest(f, config) == Digest(g, config)
    ensures CollisionFree(config.hash) && Digest(f, config) == Digest(g, config) ==> SameText(f, g, config.le)
  {
    FieldsWellFormed(f);
    FieldsWellFormed(g);
    SameTextSameCanonical(FieldsJson(f), FieldsJson(g), config.le);
    if SameText(f, g, config.le) {
      SameTextFieldsJson(f, g, config.le);
    }
    if Canonical(FieldsJson(f), config.le) == Canonical(FieldsJson(g), config.le) {
      FieldsJsonSameText(f, g, config.le);
    }
  }

  /** With a collision-free hash one digest means equal columns, the payload up to key order; the converse needs
      a payload without ties. */
  lemma DigestIffSameFields(f: Fields, g: Fields, config: Config)
    requires WellFormed(f.eventDataJson) && WellFormed(g.eventDataJson)
    ensures CollisionFree(config.hash) && Digest(f, config) == Digest(g, config) ==> SameFields(f, g)
    ensures TotalPreorder(config.le) && Untied(f.eventDataJson, config.le) && SameFields(f, g) ==>
              Digest(f, config) == Digest(g, config)
  {
    DigestIffSameText(f, g, config);
    if SameText(f, g, config.le) {
      SameTextSame(f.eventDataJson, g.eventDataJson, config.le);
    }
    if TotalPreorder(config.le) && Untied(f.eventDataJson, config.le) && SameFields(f, g) {
      SameTextIffSame(f.eventDataJson, g.eventDataJson, config.le);
    }
  }

  // ---------------------------------------------------------------- record

  /** The order `(createdAt, id)` in which rows are read. */
  predicate Before(a: Row, b: Row) {
    a.createdAt < b.createdAt || (a.createdAt == b.createdAt && a.id < b.id)
  }

  predicate Ordered(rows: seq<Row>) {
    forall i, j | 0 <= i < j < |rows| :: Before(rows[i], rows[j])
  }

  /** `findFirst` in descending order: the hash of the last row. */
  function LatestHash(rows: seq<Row>): Option<string> {
    if rows == [] then None else Some(rows[|rows| - 1].eventHash)
  }

  function MakeRow(input: Input, prevHash: Option<string>, id: nat, createdAt: int, config: Config): Row {
    var fields := Fields(input.organizationId, input.workflowRunId, input.agentId, input.actorType, input.actorId,
                         input.eventType, (config.redact)(input.eventDataJson), prevHash);
    Row(id, createdAt, fields, Digest(fields, config))
  }

  /** `create`: the table keeps its rows in reading order. */
  function InsertRow(rows: seq<Row>, r: Row): seq<Row> {
    if rows == [] || Before(rows[|rows| - 1], r) then rows + [r]
    else InsertRow(rows[..|rows| - 1], r) + [rows[|rows| - 1]]
  }

  /** One undisturbed `recordLocked`. */
  function Record(rows: seq<Row>, input: Input, id: nat, createdAt: int, config: Config): seq<Row> {
    InsertRow(rows, MakeRow(input, LatestHash(rows), id, createdAt, config))
  }

  predicate SortsLast(rows: seq<Row>, id: nat, createdAt: int) {
    rows == [] ||
    var last := rows[|rows| - 1];
    last.createdAt < createdAt || (last.createdAt == createdAt && last.id < id)
  }

  lemma {:induction false} InsertPosition(rows: seq<Row>, r: Row) returns (p: nat)
    ensures p <= |rows| && InsertRow(rows, r) == rows[..p] + [r] + rows[p..]
    ensures p == |rows| <==> SortsLast(rows, r.id, r.createdAt)
  {
    if SortsLast(rows, r.id, r.createdAt) {
      p := |rows|;
    } else {
      var n := |rows| - 1;
      p := InsertPosition(rows[..n], r);
      assert rows == rows[..n] + [rows[n]];
      assert rows[..n][..p] == rows[..p] && rows[..n][p..] + [rows[n]] == rows[p..];
    }
  }

  lemma {:induction false} InsertKeepsRows(rows: seq<Row>, r: Row)
    ensures multiset(InsertRow(rows, r)) == multiset(rows) + multiset{r}
  {
    if rows != [] && !Before(rows[|rows| - 1], r) {
      InsertKeepsRows(rows[..|rows| - 1], r);
      assert rows == rows[..|rows| - 1] + [rows[|rows| - 1]];
    }
  }

  /** Inserting a row with a fresh `(createdAt, id)` keeps the reading order. */
  lemma {:induction false} InsertKeepsOrdered(rows: seq<Row>, r: Row)
    requires Ordered(rows) && forall x | x in rows :: Before(x, r) || Before(r, x)
    ensures Ordered(InsertRow(rows, r))
  {
    if rows != [] && !Before(rows[|rows| - 1], r) {
      var n := |rows| - 1;
      InsertKeepsOrdered(rows[..n], r);
      var front := InsertRow(rows[..n], r);
      forall i | 0 <= i < |front| ensures Before(front[i], rows[n]) {
        FrontRow(rows[..n], r, i);
      }
    }
  }

  lemma FrontRow(rows: seq<Row>, r: Row, i: nat)
    requires i < |InsertRow(rows, r)|
    ensures InsertRow(rows, r)[i] == r || InsertRow(rows, r)[i] in rows
  {
    InsertKeepsRows(rows, r);
    assert InsertRow(rows, r)[i] in multiset(InsertRow(rows, r));
  }

  // ---------------------------------------------------------------- verification

  predicate LinkHolds(rows: seq<Row>, i: nat, config: Config)
    requires i < |rows|
  {
    && rows[i].fields.prevHash == LatestHash(rows[..i])
    && rows[i].eventHash == Digest(rows[i].fields, config)
  }

  predicate Accepted(rows: seq<Row>, config: Config) {
    forall i | 0 <= i < |rows| :: LinkHolds(rows, i, config)
  }

  datatype Verdict =
    | Valid(checked: nat)
    | Broken(checked: nat, firstBrokenEventId: nat, expectedPrevHash: Option<string>, actualPrevHash: Option<string>,
             expectedEventHash: string, actualEventHash: string)

  /** The report about the row at index `k`. */
  function BrokenAt(rows: seq<Row>, k: nat, config: Config): Verdict
    requires k < |rows|
  {
    Broken(k + 1, rows[k].id, LatestHash(rows[..k]), rows[k].fields.prevHash, Digest(rows[k].fields, config),
      rows[k].eventHash)
  }

  ghost predicate FirstBreak(rows: seq<Row>, k: nat, config: Config) {
    k < |rows| && !LinkHolds(rows, k, config) && forall i | 0 <= i < k :: LinkHolds(rows, i, config)
  }

  datatype Outcome<+T> = Ok(value: T) | PermissionDenied

  /** `verifyOrganizationChain`: the replay loop over the organization's rows. */
  method VerifyOrganizationChain(table: map<string, seq<Row>>, organizationId: Option<string>, config: Config)
    returns (r: Outcome<Verdict>)
    ensures r.PermissionDenied? <==> organizationId.None? || organizationId.value == ""
    ensures r.Ok? ==>
      var rows := if organizationId.value in table then table[organizationId.value] else [];
      match r.value
      case Valid(n) => Accepted(rows, config) && n == |rows|
      case Broken(checked, _, _, _, _, _) =>
        checked > 0 && FirstBreak(rows, checked - 1, config) && r.value == BrokenAt(rows, checked - 1, config)
  {
    if organizationId.None? || organizationId.value == "" {
      return PermissionDenied;
    }
    var rows := if organizationId.value in table then table[organizationId.value] else [];
    var previousHash := None;
    var i := 0;
    while i < |rows|
      invariant 0 <= i <= |rows|
      invariant previousHash == LatestHash(rows[..i])
      invariant forall j | 0 <= j < i :: LinkHolds(rows, j, config)
    {
      var event := rows[i];
      var expected := Digest(event.fields, config);
      if event.fields.prevHash != previousHash || event.eventHash != expected {
        return Ok(Broken(i + 1, event.id, previousHash, event.fields.prevHash, expected, event.eventHash));
      }
      previousHash := Some(event.eventHash);
      i := i + 1;
    }
    return Ok(Valid(|rows|));
  }

  // ---------------------------------------------------------------- chains built by record

  ghost predicate WellFormedRows(rows: seq<Row>) {
    forall i | 0 <= i < |rows| :: WellFormed(rows[i].fields.eventDataJson)
  }

  lemma AcceptedPrefix(rows: seq<Row>, n: nat, config: Config)
    requires Accepted(rows, config) && n <= |rows|
    ensures Accepted(rows[..n], config)
  {
    forall i | 0 <= i < n ensures LinkHolds(rows[..n], i, config) {
      assert LinkHolds(rows, i, config);
      assert rows[..n][..i] == rows[..i];
    }
  }

  /** No hash occurs twice in an accepted chain. */
  lemma {:induction false} HashesDistinct(rows: seq<Row>, i: nat, j: nat, config: Config)
    requires CollisionFree(config.hash) && Accepted(rows, config) && WellFormedRows(rows) && i < j < |rows|
    ensures rows[i].eventHash != rows[j].eventHash
    decreases i
  {
    assert LinkHolds(rows, i, config) && LinkHolds(rows, j, config);
    if rows[i].eventHash == rows[j].eventHash {
      DigestIffSameFields(rows[i].fields, rows[j].fields, config);
      if i > 0 {
        HashesDistinct(rows, i - 1, j - 1, config);
      }
    }
  }

  lemma RecordLastAccepted(rows: seq<Row>, input: Input, id: nat, createdAt: int, config: Config)
    requires Accepted(rows, config) && SortsLast(rows, id, createdAt)
    ensures Accepted(Record(rows, input, id, createdAt, config), config)
    ensures |Record(rows, input, id, createdAt, config)| == |rows| + 1
  {
    var rows' := Record(rows, input, id, createdAt, config);
    forall i | 0 <= i < |rows'| ensures LinkHolds(rows', i, config) {
      assert rows'[..i] == rows[..i];
      if i < |rows| { assert LinkHolds(rows, i, config); }
    }
  }

  lemma NotLastRejected(rows: seq<Row>, input: Input, id: nat, createdAt: int, config: Config)
    requires CollisionFree(config.hash) && WellFormedRows(Record(rows, input, id, createdAt, config))
        && !SortsLast(rows, id, createdAt)
    ensures !Accepted(Record(rows, input, id, createdAt, config), config)
  {
    var r := MakeRow(input, LatestHash(rows), id, createdAt, config);
    var rows' := Record(rows, input, id, createdAt, config);
    var p := InsertPosition(rows, r);
    assert rows'[p] == r && rows'[|rows'| - 1] == rows[|rows| - 1];
    if Accepted(rows', config) {
      assert LinkHolds(rows', p, config);
      assert p > 0 && rows'[..p][p - 1] == rows'[p - 1];
      HashesDistinct(rows', p - 1, |rows'| - 1, config);
    }
  }

  lemma RecordLastWellFormed(rows: seq<Row>, input: Input, id: nat, createdAt: int, config: Config)
    requires WellFormedRows(rows) && WellFormed((config.redact)(input.eventDataJson))
    ensures WellFormedRows(Record(rows, input, id, createdAt, config))
  {
    var p := InsertPosition(rows, MakeRow(input, LatestHash(rows), id, createdAt, config));
  }

  /** A record leaves an accepted chain exactly when the chain was accepted and the new row sorts last: a row put
      before others breaks the chain, and no later record mends it.
      Two rows of one millisecond sort by their random ids, so the code does not ensure this. */
  lemma RecordAcceptedIffSortsLast(rows: seq<Row>, input: Input, id: nat, createdAt: int, config: Config)
    requires CollisionFree(config.hash) && WellFormedRows(rows) && WellFormed((config.redact)(input.eventDataJson))
    ensures Accepted(Record(rows, input, id, createdAt, config), config)
       <==> Accepted(rows, config) && SortsLast(rows, id, createdAt)
  {
    var rows' := Record(rows, input, id, createdAt, config);
    if !SortsLast(rows, id, createdAt) {
      RecordLastWellFormed(rows, input, id, createdAt, config);
      NotLastRejected(rows, input, id, createdAt, config);
    } else {
      if Accepted(rows, config) {
        RecordLastAccepted(rows, input, id, createdAt, config);
      }
      if Accepted(rows', config) {
        AcceptedPrefix(rows', |rows|, config);
        assert rows'[..|rows|] == rows;
      }
    }
  }

  datatype Event = Event(input: Input, id: nat, createdAt: int)

  /** The rows after a sequence of undisturbed records, oldest first. */
  function Recorded(events: seq<Event>, config: Config): seq<Row> {
    if events == [] then []
    else
      var n := |events| - 1;
      Record(Recorded(events[..n], config), events[n].input, events[n].id, events[n].createdAt, config)
  }

  /** The records were stamped in the order they were made. */
  predicate InOrder(events: seq<Event>) {
    forall k | 0 < k < |events| :: Follows(events[k - 1], events[k])
  }

  predicate Follows(a: Event, b: Event) {
    a.createdAt < b.createdAt || (a.createdAt == b.createdAt && a.id < b.id)
  }

  predicate PayloadsWellFormed(events: seq<Event>, config: Config) {
    forall k | 0 <= k < |events| :: WellFormed((config.redact)(events[k].input.eventDataJson))
  }

  lemma InsertGrows(rows: seq<Row>, r: Row)
    ensures |InsertRow(rows, r)| == |rows| + 1
  {
    var p := InsertPosition(rows, r);
  }

  lemma {:induction false} RecordedRows(events: seq<Event>, config: Config)
    ensures |Recorded(events, config)| == |events|
    ensures PayloadsWellFormed(events, config) ==> WellFormedRows(Recorded(events, config))
  {
    if events != [] {
      var n := |events| - 1;
      RecordedRows(events[..n], config);
      var e, rows := events[n], Recorded(events[..n], config);
      InsertGrows(rows, MakeRow(e.input, LatestHash(rows), e.id, e.createdAt, config));
      if PayloadsWellFormed(events, config) {
        RecordLastWellFormed(rows, e.input, e.id, e.createdAt, config);
      }
    }
  }

  /** The last row of records made in order carries the last event's stamp. */
  lemma {:induction false} InOrderStamps(events: seq<Event>, config: Config)
    requires InOrder(events) && events != []
    ensures LastStamp(Recorded(events, config), events[|events| - 1])
  {
    var n := |events| - 1;
    if n > 0 {
      InOrderStamps(events[..n], config);
      assert events[n - 1] == events[..n][n - 1];
      assert Follows(events[n - 1], events[n]);
    }
  }

  predicate LastStamp(rows: seq<Row>, e: Event) {
    rows != [] && rows[|rows| - 1].id == e.id && rows[|rows| - 1].createdAt == e.createdAt
  }

  lemma InOrderPrefix(events: seq<Event>)
    requires events != []
    ensures InOrder(events)
       <==> InOrder(events[..|events| - 1]) && (|events| > 1 ==> Follows(events[|events| - 2], events[|events| - 1]))
  {
    var n := |events| - 1;
    if InOrder(events) {
      forall k | 0 < k < n ensures Follows(events[..n][k - 1], events[..n][k]) {
        assert Follows(events[k - 1], events[k]);
      }
    }
    if InOrder(events[..n]) && (n > 0 ==> Follows(events[n - 1], events[n])) {
      forall k | 0 < k <= n ensures Follows(events[k - 1], events[k]) {
        if k < n { assert Follows(events[..n][k - 1], events[..n][k]); }
      }
    }
  }

  lemma InOrderSplit(events: seq<Event>, config: Config)
    requires events != []
    ensures var before, last := events[..|events| - 1], events[|events| - 1];
            InOrder(events) <==> InOrder(before) && SortsLast(Recorded(before, config), last.id, last.createdAt)
  {
    var n := |events| - 1;
    InOrderPrefix(events);
    if n > 0 && InOrder(events[..n]) {
      InOrderStamps(events[..n], config);
      assert events[..n][n - 1] == events[n - 1];
    }
  }

  /** Every chain built from empty by `record`, whatever the clock and the ids, is accepted exactly when
      the rows were stamped in the order they were made. */
  lemma {:induction false} RecordedAcceptedIffInOrder(events: seq<Event>, config: Config)
    requires CollisionFree(config.hash) && PayloadsWellFormed(events, config)
    ensures Accepted(Recorded(events, config), config) <==> InOrder(events)
  {
    if events != [] {
      var n := |events| - 1;
      var before, last := events[..n], events[n];
      RecordedAcceptedIffInOrder(before, config);
      RecordedRows(before, config);
      RecordAcceptedIffSortsLast(Recorded(before, config), last.input, last.id, last.createdAt, config);
      InOrderSplit(events, config);
    }
  }

  /** Two records in one millisecond whose second id is the smaller one: the chain is rejected. */
  lemma SameMillisecondRejected(first: Input, second: Input, config: Config)
    ensures var events := [Event(first, 2, 0), Event(second, 1, 0)];
            !Accepted(Recorded(events, config), config)
  {
    var events := [Event(first, 2, 0), Event(second, 1, 0)];
    assert events[..1] == [Event(first, 2, 0)] && events[..1][..0] == [];
    var a := MakeRow(first, None, 2, 0, config);
    var b := MakeRow(second, Some(a.eventHash), 1, 0, config);
    assert Recorded(events[..1], config) == [a];
    assert InsertRow([a], b) == [b, a] by { assert [a][..0] == []; }
    assert Recorded(events, config) == [b, a];
    assert !LinkHolds([b, a], 0, config);
  }

  /** The database may hand back payloads with their keys in another order. */
  ghost predicate SameRows(rows: seq<Row>, rows': seq<Row>) {
    |rows| == |rows'| &&
    forall i | 0 <= i < |rows| :: rows[i].eventHash == rows'[i].eventHash && SameFields(rows[i].fields, rows'[i].fields)
  }

  ghost predicate PayloadsUntied(rows: seq<Row>, le: KeyOrder) {
    forall i | 0 <= i < |rows| :: Untied(rows[i].fields.eventDataJson, le)
  }

  lemma ReorderedPayloadsSameVerdict(rows: seq<Row>, rows': seq<Row>, config: Config)
    requires TotalPreorder(config.le) && WellFormedRows(rows) && WellFormedRows(rows')
    requires PayloadsUntied(rows, config.le) && SameRows(rows, rows')
    ensures forall i | 0 <= i < |rows| :: LinkHolds(rows, i, config) <==> LinkHolds(rows', i, config)
    ensures Accepted(rows, config) <==> Accepted(rows', config)
  {
    forall i | 0 <= i < |rows| ensures LinkHolds(rows, i, config) <==> LinkHolds(rows', i, config) {
      DigestIffSameFields(rows[i].fields, rows'[i].fields, config);
      assert LatestHash(rows[..i]) == LatestHash(rows'[..i]) by {
        if i > 0 { assert rows[..i][i - 1] == rows[i - 1] && rows'[..i][i - 1] == rows'[i - 1]; }
      }
    }
  }

  lemma TiedPayloadRejected(rows: seq<Row>, k: nat, config: Config)
    requires CollisionFree(config.hash) && WellFormedRows(rows) && Accepted(rows, config) && k < |rows|
    requires !Untied(rows[k].fields.eventDataJson, config.le)
    ensures var mirrored := rows[k].fields.(eventDataJson := Mirror(rows[k].fields.eventDataJson));
            var rows' := rows[k := rows[k].(fields := mirrored)];
            WellFormedRows(rows') && SameRows(rows, rows') && !LinkHolds(rows', k, config)
  {
    var mirrored := rows[k].fields.(eventDataJson := Mirror(rows[k].fields.eventDataJson));
    TiedKeysPrintApart(rows[k].fields.eventDataJson, config.le);
    DigestIffSameText(mirrored, rows[k].fields, config);
    assert LinkHolds(rows, k, config);
    forall i | 0 <= i < |rows| ensures Same(rows[i].fields.eventDataJson, rows[i].fields.eventDataJson) {
      SameReflexive(rows[i].fields.eventDataJson);
    }
  }

  lemma {:induction false} SameReflexive(v: Json)
    ensures Same(v, v)
  {
    match v
    case Array(items) =>
      forall i | 0 <= i < |items| ensures Same(items[i], items[i]) { SameReflexive(items[i]); }
    case Object(es) =>
      forall i | 0 <= i < |es| ensures PartnerRight(es[i], es) && PartnerLeft(es, es[i]) {
        SameReflexive(es[i].value);
      }
    case _ =>
  }

  /** The verdict on an accepted chain survives every reordering of payload keys exactly when no payload holds
      two different keys that tie. */
  lemma ReorderingHarmlessIffUntied(rows: seq<Row>, config: Config)
    requires TotalPreorder(config.le) && CollisionFree(config.hash) && WellFormedRows(rows) && Accepted(rows, config)
    ensures (forall rows' | WellFormedRows(rows') && SameRows(rows, rows') :: Accepted(rows', config))
       <==> PayloadsUntied(rows, config.le)
  {
    if PayloadsUntied(rows, config.le) {
      forall rows' | WellFormedRows(rows') && SameRows(rows, rows') ensures Accepted(rows', config) {
        ReorderedPayloadsSameVerdict(rows, rows', config);
      }
    } else {
      var k :| 0 <= k < |rows| && !Untied(rows[k].fields.eventDataJson, config.le);
      TiedPayloadRejected(rows, k, config);
    }
  }

  // ---------------------------------------------------------------- what the last hash commits to

  /** Accepted chains with the same last hash have the same length and agree row by row. */
  lemma {:induction false} LastHashFixesChain(rows: seq<Row>, rows': seq<Row>, config: Config)
    requires CollisionFree(config.hash) && WellFormedRows(rows) && WellFormedRows(rows')
    requires Accepted(rows, config) && Accepted(rows', config)
    requires LatestHash(rows) == LatestHash(rows')
    ensures SameRows(rows, rows')
    decreases |rows|
  {
    if rows != [] {
      var n, n' := |rows| - 1, |rows'| - 1;
      assert LinkHolds(rows, n, config) && LinkHolds(rows', n', config);
      DigestIffSameFields(rows[n].fields, rows'[n'].fields, config);
      AcceptedPrefix(rows, n, config);
      AcceptedPrefix(rows', n', config);
      LastHashFixesChain(rows[..n], rows'[..n'], config);
      forall i | 0 <= i < |rows|
        ensures rows[i].eventHash == rows'[i].eventHash && SameFields(rows[i].fields, rows'[i].fields)
      {
        if i < n { assert rows[..n][i] == rows[i] && rows'[..n'][i] == rows'[i]; }
      }
    }
  }

  /** Changing the content of row `k` without rehashing it breaks the chain at exactly that row, unless what is
      hashed prints as before: then nothing breaks. */
  lemma TamperedRowReported(rows: seq<Row>, k: nat, forged: Fields, config: Config)
    requires CollisionFree(config.hash) && WellFormedRows(rows) && Accepted(rows, config) && k < |rows|
    requires WellFormed(forged.eventDataJson)
    ensures var rows' := rows[k := rows[k].(fields := forged)];
            if SameText(forged, rows[k].fields, config.le)
              then Accepted(rows', config) else FirstBreak(rows', k, config)
  {
    var rows' := rows[k := rows[k].(fields := forged)];
    assert LinkHolds(rows, k, config);
    DigestIffSameText(forged, rows[k].fields, config);
    forall i | 0 <= i < |rows| && i != k ensures LinkHolds(rows', i, config) {
      assert LinkHolds(rows, i, config);
      assert LatestHash(rows'[..i]) == LatestHash(rows[..i]) by {
        if i > 0 { assert rows'[..i][i - 1] == rows'[i - 1] && rows[..i][i - 1] == rows[i - 1]; }
      }
    }
    assert rows'[..k] == rows[..k];
  }

  /** Rehashing the forged row moves the break to the next row; only at the last row does it go unnoticed. */
  lemma RehashedRowReportedNext(rows: seq<Row>, k: nat, forged: Fields, config: Config)
    requires CollisionFree(config.hash) && WellFormedRows(rows) && Accepted(rows, config) && k < |rows|
    requires WellFormed(forged.eventDataJson) && !SameText(forged, rows[k].fields, config.le)
    requires forged.prevHash == rows[k].fields.prevHash
    ensures var rows' := rows[k := rows[k].(fields := forged, eventHash := Digest(forged, config))];
            && (k + 1 < |rows| ==> FirstBreak(rows', k + 1, config))
            && (Accepted(rows', config) <==> k + 1 == |rows|)
  {
    var rows' := rows[k := rows[k].(fields := forged, eventHash := Digest(forged, config))];
    assert LinkHolds(rows, k, config);
    DigestIffSameText(forged, rows[k].fields, config);
    forall i | 0 <= i <= k ensures LinkHolds(rows', i, config) {
      assert LinkHolds(rows, i, config) && rows'[..i] == rows[..i];
    }
    if k + 1 < |rows| {
      assert LinkHolds(rows, k + 1, config);
      assert rows[..k + 1][k] == rows[k] && rows'[..k + 1][k] == rows'[k];
      assert !LinkHolds(rows', k + 1, config);
    }
  }
}
