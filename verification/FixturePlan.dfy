/** The deterministic plan of a fixture: one single-event batch per message. */
module FixturePlan {
  import opened Wrappers
  import opened Identity
  import opened Records
  import opened CanonicalJson
  import opened MessageSeries
  import opened Receipts
  import opened Fixtures
  import Cycles
  import History

  datatype Planned = Planned(recorded: RecordedEvent, batch: EventBatch, streamOrdinal: nat)

  datatype PlanError = MissingParent | Envelope

  const FIXTURE_OPERATION_ID_PREFIX: Text := "fixture:"

  /** What planning computes for single messages: fingerprint, payload bytes and admission. */
  datatype Rendering = Rendering(ids: Ids, fingerprint: Message -> Text, payload: Message -> Text, admits: Message -> bool)

  /** What `NewEvent::new` and `RecordedEvent::new` accept, whatever was validated before. */
  predicate EnvelopeAccepts(p: Primitives, name: Text, schemaVersion: nat, streamVersion: nat, payload: Text) {
    && 0 < |name| <= MAX_EVENT_TYPE_LEN && p.trimmed(name) && p.printable(name)
    && schemaVersion != 0 && streamVersion != 0
    && |payload| <= MAX_EVENT_PAYLOAD_LEN
  }

  /** Fingerprints over the canonical document, canonical payload bytes, and the envelope's own checks. */
  function RenderingOf(p: Primitives, f: Fixture): Rendering {
    Rendering(p.ids, (m: Message) => Fingerprint(p, f, m), (m: Message) => Write(m.content.payload),
              (m: Message) => EnvelopeAccepts(p, m.content.name, m.content.schemaVersion, m.content.streamVersion, Write(m.content.payload)))
  }

  function OperationOf(t: Rendering, m: Message): Text {
    FIXTURE_OPERATION_ID_PREFIX + t.fingerprint(m)
  }

  function CommitOf(t: Rendering, m: Message): Text {
    t.ids.commit(m.content.stream, OperationOf(t, m))
  }

  function EventOf(t: Rendering, m: Message): Text {
    t.ids.event(CommitOf(t, m), 0)
  }

  /** The latest earlier message with the identity that message `i` names as its cause. */
  function ParentBefore(ms: seq<Message>, i: nat): Option<nat>
    requires i < |ms|
  {
    if ms[i].causationId.None? then None else IndexBelow(ms, ms[i].causationId.value, i)
  }

  predicate ParentPlanned(ms: seq<Message>, i: nat)
    requires i < |ms|
  {
    ms[i].causationId.Some? ==> ParentBefore(ms, i).Some?
  }

  /** The physical cause: the event identity of the parent message. */
  function CauseOf(t: Rendering, ms: seq<Message>, i: nat): Option<Text>
    requires i < |ms|
  {
    var parent := ParentBefore(ms, i);
    if parent.None? then None else Some(EventOf(t, ms[parent.value]))
  }

  function BatchOf(t: Rendering, m: Message, cause: Option<Text>): EventBatch {
    EventBatch(None, CommitOf(t, m), OperationOf(t, m), t.fingerprint(m),
               [NewEvent(EventOf(t, m), m.content.name, m.content.schemaVersion, t.payload(m))],
               Some(m.correlationId), cause)
  }

  function RecordedOf(t: Rendering, m: Message, cause: Option<Text>): RecordedEvent {
    RecordedEvent(None, m.content.stream, m.content.streamVersion, EventOf(t, m), CommitOf(t, m),
                  OperationOf(t, m), t.fingerprint(m), 0, 1, Some(m.correlationId), cause,
                  m.content.name, m.content.schemaVersion, t.payload(m))
  }

  function PlannedOf(t: Rendering, ms: seq<Message>, i: nat): Planned
    requires i < |ms|
  {
    var cause := CauseOf(t, ms, i);
    Planned(RecordedOf(t, ms[i], cause), BatchOf(t, ms[i], cause), OnStream(ms, ms[i].content.stream, i))
  }

  function Plan(t: Rendering, ms: seq<Message>): (plan: seq<Planned>)
    ensures |plan| == |ms|
    ensures forall i | 0 <= i < |plan| :: plan[i] == PlannedOf(t, ms, i)
  {
    seq(|ms|, i requires 0 <= i < |ms| => PlannedOf(t, ms, i))
  }

  predicate Plannable(t: Rendering, ms: seq<Message>, i: nat)
    requires i < |ms|
  {
    ParentPlanned(ms, i) && t.admits(ms[i])
  }

  /** `physical_ids` after the first `i` messages. */
  ghost predicate PhysicalIds(t: Rendering, ms: seq<Message>, physical: map<Text, Text>, i: nat)
    requires i <= |ms|
  {
    forall id :: (if id in physical then Some(physical[id]) else None) ==
      match IndexBelow(ms, id, i) case None => None case Some(k) => Some(EventOf(t, ms[k]))
  }

  /** `stream_event_counts` after the first `i` messages. */
  ghost predicate StreamCounts(ms: seq<Message>, counts: map<StreamId, nat>, i: nat)
    requires i <= |ms|
  {
    forall s :: (if s in counts then counts[s] else 0) == OnStream(ms, s, i)
  }

  /** `build_plan` fails exactly when a cause has no earlier message or an envelope is refused. */
  method BuildPlan(t: Rendering, ms: seq<Message>) returns (r: Result<seq<Planned>, PlanError>)
    ensures r.Ok? <==> forall i | 0 <= i < |ms| :: Plannable(t, ms, i)
    ensures r.Ok? ==> r.value == Plan(t, ms)
  {
    var plan: seq<Planned> := [];
    var counts: map<StreamId, nat> := map[];
    var physical: map<Text, Text> := map[];
    for i := 0 to |ms|
      invariant |plan| == i && forall k | 0 <= k < i :: plan[k] == PlannedOf(t, ms, k)
      invariant StreamCounts(ms, counts, i) && PhysicalIds(t, ms, physical, i)
      invariant forall k | 0 <= k < i :: Plannable(t, ms, k)
    {
      var planned := PlanMessage(t, ms, i, physical, counts);
      if planned.Err? {
        return Err(planned.error);
      }
      plan := plan + [planned.value];
      counts := CountMessage(ms, counts, i);
      physical := EnterMessage(t, ms, physical, i);
    }
    return Ok(plan);
  }

  method CountMessage(ms: seq<Message>, counts: map<StreamId, nat>, i: nat) returns (next: map<StreamId, nat>)
    requires i < |ms| && StreamCounts(ms, counts, i)
    ensures StreamCounts(ms, next, i + 1)
  {
    var s := ms[i].content.stream;
    next := counts[s := (if s in counts then counts[s] else 0) + 1];
  }

  method EnterMessage(t: Rendering, ms: seq<Message>, physical: map<Text, Text>, i: nat) returns (next: map<Text, Text>)
    requires i < |ms| && PhysicalIds(t, ms, physical, i)
    ensures PhysicalIds(t, ms, next, i + 1)
  {
    next := physical[ms[i].messageId := EventOf(t, ms[i])];
  }

  /** One message of the loop. */
  method PlanMessage(t: Rendering, ms: seq<Message>, i: nat, physical: map<Text, Text>, counts: map<StreamId, nat>) returns (r: Result<Planned, PlanError>)
    requires i < |ms| && StreamCounts(ms, counts, i) && PhysicalIds(t, ms, physical, i)
    ensures r.Ok? <==> Plannable(t, ms, i)
    ensures r.Ok? ==> r.value == PlannedOf(t, ms, i)
  {
    var m := ms[i];
    var cause: Option<Text> := None;
    if m.causationId.Some? {
      var id := m.causationId.value;
      cause := if id in physical then Some(physical[id]) else None;
      assert cause == CauseOf(t, ms, i);
      if cause.None? {
        return Err(MissingParent);
      }
    }
    if !t.admits(m) {
      return Err(Envelope);
    }
    var stream := m.content.stream;
    var ordinal := if stream in counts then counts[stream] else 0;
    return Ok(Planned(RecordedOf(t, m, cause), BatchOf(t, m, cause), ordinal));
  }

  // ----- Validated fixtures always plan -----

  lemma {:induction false} IndexUnique(ms: seq<Message>, id: Text, k: nat, n: nat)
    requires DistinctIds(ms) && k < n <= |ms| && ms[k].messageId == id
    ensures IndexBelow(ms, id, n) == Some(k)
  {
    if k < n - 1 {
      assert ms[n - 1].messageId != id;
      IndexUnique(ms, id, k, n - 1);
    }
  }

  /** In a valid fixture the cause of a message is an earlier message of the same correlation. */
  lemma CauseIsEarlier(ms: seq<Message>, i: nat)
    requires DistinctIds(ms) && i < |ms| && ms[i].causationId.Some? && EdgeSound(ms, i) && Precedes(ms, i)
    ensures var parent := ParentBefore(ms, i);
      && parent.Some? && parent.value < i
      && ms[parent.value].messageId == ms[i].causationId.value
      && ms[parent.value].correlationId == ms[i].correlationId
  {
    var id := ms[i].causationId.value;
    IndexFinds(ms, id, |ms|);
    IndexUnique(ms, id, IndexOf(ms, id).value, i);
  }

  /** A validated fixture never misses a parent identity and every envelope is admitted. */
  lemma ValidatedPlans(p: Primitives, f: Fixture)
    requires Parsed(f) && ValidFixture(p, f)
    ensures forall i | 0 <= i < |f.messages| :: Plannable(RenderingOf(p, f), f.messages, i)
  {
    forall i | 0 <= i < |f.messages| ensures Plannable(RenderingOf(p, f), f.messages, i) {
      assert MessageAdmissible(p, f.messages[i]) && Numbered(f.messages, i);
      if f.messages[i].causationId.Some? {
        assert EdgeSound(f.messages, i) && Precedes(f.messages, i);
        CauseIsEarlier(f.messages, i);
      }
    }
  }

  /** Planned event `j` is the cause of planned event `i`, within one correlation, as the messages say. */
  predicate CausedBy(ms: seq<Message>, plan: seq<Planned>, i: nat, j: nat)
    requires |plan| == |ms| && i < |plan| && j < |plan|
  {
    && plan[i].recorded.causationId == Some(plan[j].recorded.eventId)
    && plan[j].recorded.correlationId == plan[i].recorded.correlationId
    && ms[i].causationId == Some(ms[j].messageId)
  }

  /** Each planned cause is an earlier planned event of the same correlation; only roots have none. */
  lemma PlannedCauses(t: Rendering, p: Primitives, f: Fixture, i: nat)
    requires Parsed(f) && ValidFixture(p, f) && i < |f.messages|
    ensures var plan := Plan(t, f.messages);
      match plan[i].recorded.causationId
      case None => f.messages[i].causationId.None?
      case Some(_) => exists j :: 0 <= j < i && CausedBy(f.messages, plan, i, j)
  {
    if f.messages[i].causationId.Some? {
      assert EdgeSound(f.messages, i) && Precedes(f.messages, i);
      CauseIsEarlier(f.messages, i);
      assert CausedBy(f.messages, Plan(t, f.messages), i, ParentBefore(f.messages, i).value);
    }
  }

  // ----- What planned events carry -----

  /** The recorded event says what the message says: name, schema, place, correlation and canonical payload. */
  predicate Says(r: RecordedEvent, m: Message) {
    && r.eventType == m.content.name
    && r.schemaVersion == m.content.schemaVersion
    && r.streamId == m.content.stream
    && r.streamVersion == m.content.streamVersion
    && r.correlationId == Some(m.correlationId)
    && r.payload == Write(m.content.payload)
    && r.actor == None
  }

  /** Planned event `i` says what message `i` says, under the operation named by the message's document. */
  lemma PlannedSays(p: Primitives, f: Fixture, i: nat)
    requires i < |f.messages|
    ensures var x, m := Plan(RenderingOf(p, f), f.messages)[i], f.messages[i];
      && Says(x.recorded, m)
      && x.recorded.fingerprint == p.sha(Write(Document(f, m)))
      && x.recorded.operationId == "fixture:" + x.recorded.fingerprint
      && x.batch == EventBatch(None, x.recorded.commitId, x.recorded.operationId, x.recorded.fingerprint,
                               [NewEvent(x.recorded.eventId, m.content.name, m.content.schemaVersion, Write(m.content.payload))],
                               Some(m.correlationId), x.recorded.causationId)
  {
    assert Plan(RenderingOf(p, f), f.messages)[i] == PlannedOf(RenderingOf(p, f), f.messages, i);
  }

  /** Planned payloads are equal exactly when the messages' payloads are, up to member order. */
  lemma PlannedPayloads(p: Primitives, f: Fixture, i: nat, j: nat)
    requires Parsed(f) && i < |f.messages| && j < |f.messages|
    ensures var plan := Plan(RenderingOf(p, f), f.messages);
      plan[i].recorded.payload == plan[j].recorded.payload <==> Same(f.messages[i].content.payload, f.messages[j].content.payload)
  {
    PlannedSays(p, f, i);
    PlannedSays(p, f, j);
    CanonicalBytes(f.messages[i].content.payload, f.messages[j].content.payload);
  }

  // ----- Plans as the store sees them -----

  predicate SameStream(plan: seq<Planned>, i: nat, j: nat)
    requires i < |plan| && j < |plan|
  {
    plan[i].recorded.streamId == plan[j].recorded.streamId
  }

  /** How many of the first `n` planned events go to the stream. */
  function CountOn(plan: seq<Planned>, s: StreamId, n: nat): nat
    requires n <= |plan|
  {
    if n == 0 then 0 else CountOn(plan, s, n - 1) + (if plan[n - 1].recorded.streamId == s then 1 else 0)
  }

  /** Entry `i` is one derived single-event batch, and its event is what recording it in its place gives. */
  predicate Sound(ids: Ids, plan: seq<Planned>, i: nat)
    requires i < |plan|
  {
    var x := plan[i];
    && |x.batch.events| == 1 && AdmissibleEvents(x.batch.events)
    && x.batch.commitId == ids.commit(x.recorded.streamId, x.batch.operationId)
    && x.batch.events[0].eventId == ids.event(x.batch.commitId, 0)
    && x.streamOrdinal == CountOn(plan, x.recorded.streamId, i)
    && x.streamOrdinal + 1 < U64_MAX
    && [x.recorded] == Recorded(x.recorded.streamId, x.streamOrdinal, x.batch)
  }

  /** Entries `i` and `j` share no identity. */
  predicate Apart(plan: seq<Planned>, i: nat, j: nat)
    requires i < |plan| && j < |plan|
  {
    && plan[i].recorded.operationId != plan[j].recorded.operationId
    && plan[i].recorded.commitId != plan[j].recorded.commitId
    && plan[i].recorded.eventId != plan[j].recorded.eventId
  }

  predicate GoodPlan(ids: Ids, plan: seq<Planned>) {
    && (forall i | 0 <= i < |plan| :: Sound(ids, plan, i))
    && (forall i, j | 0 <= i < |plan| && 0 <= j < |plan| && i != j && SameStream(plan, i, j) :: Apart(plan, i, j))
  }

  /** The planned events of a stream among the first `n`. */
  function StreamPlan(plan: seq<Planned>, s: StreamId, n: nat): (events: seq<RecordedEvent>)
    requires n <= |plan|
    ensures |events| == CountOn(plan, s, n)
  {
    if n == 0 then []
    else if plan[n - 1].recorded.streamId == s then StreamPlan(plan, s, n - 1) + [plan[n - 1].recorded]
    else StreamPlan(plan, s, n - 1)
  }

  function WholeStream(plan: seq<Planned>, s: StreamId): seq<RecordedEvent> {
    StreamPlan(plan, s, |plan|)
  }

  lemma {:induction false} StreamPlanGrows(plan: seq<Planned>, s: StreamId, m: nat, n: nat)
    requires m <= n <= |plan|
    ensures StreamPlan(plan, s, m) <= StreamPlan(plan, s, n)
  {
    if m < n {
      StreamPlanGrows(plan, s, m, n - 1);
    }
  }

  /** Planned event `i` stands in its stream at its ordinal. */
  lemma PlannedPlace(ids: Ids, plan: seq<Planned>, i: nat)
    requires GoodPlan(ids, plan) && i < |plan|
    ensures var h := WholeStream(plan, plan[i].recorded.streamId);
      plan[i].streamOrdinal < |h| && h[plan[i].streamOrdinal] == plan[i].recorded
  {
    assert Sound(ids, plan, i);
    var s := plan[i].recorded.streamId;
    StreamPlanGrows(plan, s, i + 1, |plan|);
    assert StreamPlan(plan, s, i + 1)[plan[i].streamOrdinal] == plan[i].recorded;
  }

  /** Every event of a planned stream is a planned event at its ordinal. */
  lemma {:induction false} PlaceIsPlanned(ids: Ids, plan: seq<Planned>, s: StreamId, n: nat, k: nat) returns (i: nat)
    requires GoodPlan(ids, plan) && n <= |plan| && k < CountOn(plan, s, n)
    ensures i < n && plan[i].recorded.streamId == s && plan[i].streamOrdinal == k && StreamPlan(plan, s, n)[k] == plan[i].recorded
  {
    if k < CountOn(plan, s, n - 1) {
      i := PlaceIsPlanned(ids, plan, s, n - 1, k);
    } else {
      i := n - 1;
      assert Sound(ids, plan, i);
    }
  }

  lemma NextIsNew(ids: Ids, plan: seq<Planned>, i: nat)
    requires GoodPlan(ids, plan) && i < |plan|
    ensures var s := plan[i].recorded.streamId; History.NewTo(ids, s, StreamPlan(plan, s, i), plan[i].batch)
  {
    var s, b := plan[i].recorded.streamId, plan[i].batch;
    var h := StreamPlan(plan, s, i);
    assert Sound(ids, plan, i);
    assert [plan[i].recorded][0] == Recorded(s, plan[i].streamOrdinal, b)[0];
    forall e | e in h ensures e.operationId != b.operationId && e.commitId != b.commitId && e.eventId != b.events[0].eventId {
      var k :| 0 <= k < |h| && h[k] == e;
      var j := PlaceIsPlanned(ids, plan, s, i, k);
      assert SameStream(plan, i, j) && Apart(plan, i, j);
    }
  }

  /** The planned events of each stream, at every moment of planning, form a valid history. */
  lemma {:induction false} PlannedStreamValid(ids: Ids, plan: seq<Planned>, s: StreamId, n: nat)
    requires GoodPlan(ids, plan) && n <= |plan|
    ensures History.Valid(ids, s, StreamPlan(plan, s, n))
  {
    if n > 0 {
      PlannedStreamValid(ids, plan, s, n - 1);
      if plan[n - 1].recorded.streamId == s {
        assert Sound(ids, plan, n - 1);
        NextIsNew(ids, plan, n - 1);
        History.RecordingKeepsValid(ids, s, StreamPlan(plan, s, n - 1), plan[n - 1].batch);
      }
    }
  }

  // ----- The plan of a validated fixture is good -----

  function CommitFrames(t: Rendering, ms: seq<Message>): set<Text> {
    set i | 0 <= i < |ms| :: Frame(CommitParts(ms[i].content.stream, OperationOf(t, ms[i])))
  }

  function EventFrames(t: Rendering, ms: seq<Message>): set<Text> {
    set i | 0 <= i < |ms| :: Frame(EventParts(CommitOf(t, ms[i]), 0))
  }

  /** The names are derived with a hash that does not collide on the plan; its texts have lengths a machine can hold. */
  ghost predicate Hashable(sha: Sha, t: Rendering, ms: seq<Message>) {
    && DerivedBy(t.ids, sha)
    && CollisionFree(sha, CommitFrames(t, ms)) && CollisionFree(sha, EventFrames(t, ms))
    && forall i | 0 <= i < |ms| ::
         Addressable(CommitParts(ms[i].content.stream, OperationOf(t, ms[i]))) && |CommitOf(t, ms[i])| <= U64_MAX
  }

  /** Different messages have different fingerprints. */
  predicate FingerprintsDiffer(t: Rendering, ms: seq<Message>) {
    forall i, j | 0 <= i < j < |ms| :: t.fingerprint(ms[i]) != t.fingerprint(ms[j])
  }

  function Documents(f: Fixture): set<Text> {
    set i | 0 <= i < |f.messages| :: Write(Document(f, f.messages[i]))
  }

  /** Canonical documents tell messages apart, so without a collision fingerprints do. */
  lemma DocumentsTellApart(p: Primitives, f: Fixture)
    requires Parsed(f) && CollisionFree(p.sha, Documents(f))
    ensures FingerprintsDiffer(RenderingOf(p, f), f.messages)
  {
    var ms := f.messages;
    forall i, j | 0 <= i < j < |ms| ensures Fingerprint(p, f, ms[i]) != Fingerprint(p, f, ms[j]) {
      DocumentsIdentify(f, ms[i], f, ms[j]);
      assert Write(Document(f, ms[i])) in Documents(f) && Write(Document(f, ms[j])) in Documents(f);
    }
  }

  lemma OperationsDiffer(t: Rendering, ms: seq<Message>, i: nat, j: nat)
    requires FingerprintsDiffer(t, ms) && i < |ms| && j < |ms| && i != j
    ensures OperationOf(t, ms[i]) != OperationOf(t, ms[j])
  {
    var n := |FIXTURE_OPERATION_ID_PREFIX|;
    assert OperationOf(t, ms[i])[n..] == t.fingerprint(ms[i]) && OperationOf(t, ms[j])[n..] == t.fingerprint(ms[j]);
  }

  lemma CommitsDiffer(sha: Sha, t: Rendering, ms: seq<Message>, i: nat, j: nat)
    requires FingerprintsDiffer(t, ms) && Hashable(sha, t, ms) && i < |ms| && j < |ms| && i != j
    ensures CommitOf(t, ms[i]) != CommitOf(t, ms[j])
  {
    OperationsDiffer(t, ms, i, j);
    var s, r := ms[i].content.stream, ms[j].content.stream;
    var x, y := OperationOf(t, ms[i]), OperationOf(t, ms[j]);
    assert Frame(CommitParts(s, x)) in CommitFrames(t, ms) && Frame(CommitParts(r, y)) in CommitFrames(t, ms);
    if CommitOf(t, ms[i]) == CommitOf(t, ms[j]) {
      CommitIdsDiffer(sha, s, x, r, y);
    }
  }

  lemma EventsDiffer(sha: Sha, t: Rendering, ms: seq<Message>, i: nat, j: nat)
    requires FingerprintsDiffer(t, ms) && Hashable(sha, t, ms) && i < |ms| && j < |ms| && i != j
    ensures EventOf(t, ms[i]) != EventOf(t, ms[j])
  {
    CommitsDiffer(sha, t, ms, i, j);
    var c, d := CommitOf(t, ms[i]), CommitOf(t, ms[j]);
    assert Frame(EventParts(c, 0)) in EventFrames(t, ms) && Frame(EventParts(d, 0)) in EventFrames(t, ms);
    if EventOf(t, ms[i]) == EventOf(t, ms[j]) {
      EventIdsDiffer(sha, c, 0, d, 0);
    }
  }

  lemma {:induction false} CountsAgree(plan: seq<Planned>, ms: seq<Message>, s: StreamId, n: nat)
    requires n <= |plan| == |ms| && forall i | 0 <= i < |ms| :: plan[i].recorded.streamId == ms[i].content.stream
    ensures CountOn(plan, s, n) == OnStream(ms, s, n)
  {
    if n > 0 {
      CountsAgree(plan, ms, s, n - 1);
    }
  }

  lemma PlannedSound(t: Rendering, ms: seq<Message>, i: nat)
    requires i < |ms| && Numbered(ms, i) && |t.payload(ms[i])| <= MAX_EVENT_PAYLOAD_LEN
    ensures Sound(t.ids, Plan(t, ms), i)
  {
    var m := ms[i];
    var x := PlannedOf(t, ms, i);
    CountsAgree(Plan(t, ms), ms, m.content.stream, i);
    assert PayloadBytes(x.batch.events) == |t.payload(m)| by {
      assert x.batch.events[1..] == [];
    }
    assert Recorded(m.content.stream, x.streamOrdinal, x.batch)[0] == x.recorded;
  }

  /** Numbered messages with different fingerprints have a good plan: all that applying it needs. */
  lemma RenderedPlanIsGood(sha: Sha, t: Rendering, ms: seq<Message>)
    requires FingerprintsDiffer(t, ms) && Hashable(sha, t, ms)
    requires forall i | 0 <= i < |ms| :: Numbered(ms, i) && |t.payload(ms[i])| <= MAX_EVENT_PAYLOAD_LEN
    ensures GoodPlan(t.ids, Plan(t, ms))
  {
    var plan := Plan(t, ms);
    forall i | 0 <= i < |plan| ensures Sound(t.ids, plan, i) {
      PlannedSound(t, ms, i);
    }
    forall i, j | 0 <= i < |plan| && 0 <= j < |plan| && i != j ensures Apart(plan, i, j) {
      OperationsDiffer(t, ms, i, j);
      CommitsDiffer(sha, t, ms, i, j);
      EventsDiffer(sha, t, ms, i, j);
    }
  }

  /** Validation and a hash without collisions make the plan of a fixture good. */
  lemma ValidatedPlanIsGood(p: Primitives, f: Fixture)
    requires Parsed(f) && ValidFixture(p, f) && CollisionFree(p.sha, Documents(f)) && Hashable(p.sha, RenderingOf(p, f), f.messages)
    ensures GoodPlan(p.ids, Plan(RenderingOf(p, f), f.messages))
  {
    DocumentsTellApart(p, f);
    forall i | 0 <= i < |f.messages| ensures |RenderingOf(p, f).payload(f.messages[i])| <= MAX_EVENT_PAYLOAD_LEN {
      assert MessageAdmissible(p, f.messages[i]);
    }
    RenderedPlanIsGood(p.sha, RenderingOf(p, f), f.messages);
  }
}
