/**
 Events, batches, transactions, receipts and completed outcomes as plain values, with the
 constructors' admission rules. Serialization of records is a set of arbitrary functions; the few
 laws they must satisfy are named in `Lawful`.
 */
module Records {
  import opened Wrappers
  import opened Identity

  const MAX_BATCH_PAYLOAD_LEN: nat := 1024 * 1024
  const MAX_EVENTS_PER_BATCH: nat := 100
  const MAX_TRANSACTION_ITEMS: nat := 100
  const MAX_REJECTION_BYTES: nat := 64 * 1024

  datatype ErrorKind =
    | InvalidRequest
    | Conflict
    | IdentityConflict
    | CorruptHistory
    | CapacityExhausted
    | ConfigurationMismatch
    | Unavailable
    | DetailForbidden
    | CompletedDetailsExpired
    | CompletedDetailsUnavailable

  datatype ActorRef = ActorRef(space: Text, id: Text)

  datatype NewEvent = NewEvent(eventId: Text, eventType: Text, schemaVersion: nat, payload: Text)

  datatype EventBatch = EventBatch(
    actor: Option<ActorRef>,
    commitId: Text,
    operationId: Text,
    fingerprint: Text,
    events: seq<NewEvent>,
    correlationId: Option<Text>,
    causationId: Option<Text>)

  datatype RecordedEvent = RecordedEvent(
    actor: Option<ActorRef>,
    streamId: StreamId,
    streamVersion: nat,
    eventId: Text,
    commitId: Text,
    operationId: Text,
    fingerprint: Text,
    ordinal: nat,
    count: nat,
    correlationId: Option<Text>,
    causationId: Option<Text>,
    eventType: Text,
    schemaVersion: nat,
    payload: Text)

  datatype ExpectedVersion = NoStream | Exact(version: nat)

  datatype Participant = Participant(streamId: StreamId, expected: ExpectedVersion, batch: Option<EventBatch>)

  datatype OutcomeEvidence = OutcomeEvidence(
    authorityScope: Option<Text>,
    createdAtMillis: Option<nat>,
    fingerprintVersion: nat,
    commandType: Text,
    commandSchema: nat,
    eventsCausedByCommand: bool,
    originalCausation: Option<Text>)

  datatype EncodedRejection = EncodedRejection(codecId: Text, codecVersion: nat, bytes: Text)

  datatype CommandCompletion = CommandCompletion(
    version: nat,
    evidence: Option<OutcomeEvidence>,
    rejection: Option<EncodedRejection>)

  datatype EventTransaction = EventTransaction(
    actor: Option<ActorRef>,
    securityScope: Option<Text>,
    completion: Option<CommandCompletion>,
    boundedContext: Option<Text>,
    operationId: Text,
    fingerprint: Text,
    correlationId: Option<Text>,
    causationId: Option<Text>,
    participants: seq<Participant>)

  datatype StreamReceipt = StreamReceipt(streamId: StreamId, baseVersion: nat, events: seq<RecordedEvent>)

  datatype TransactionReceipt = TransactionReceipt(
    actor: Option<ActorRef>,
    securityScope: Option<Text>,
    completion: Option<CommandCompletion>,
    boundedContext: Option<Text>,
    operationId: Text,
    fingerprint: Text,
    correlationId: Option<Text>,
    causationId: Option<Text>,
    streams: seq<StreamReceipt>)

  datatype OutcomeKey = OutcomeKey(authority: Text, context: Text, operationId: Text)

  datatype Decision = Accepted | Rejected

  datatype DetailReference = DetailReference(
    key: OutcomeKey,
    securityScope: Option<Text>,
    actor: Option<ActorRef>,
    decision: Decision,
    format: nat,
    length: nat,
    digest: Text)

  datatype ProposalDigest = ProposalDigest(version: nat, digest: Text)

  datatype OutcomeMarker = OutcomeMarker(
    reference: DetailReference,
    revision: Text,
    proposal: ProposalDigest,
    evidence: Option<OutcomeEvidence>,
    integrity: TransactionReceipt)

  datatype DetailHeader = DetailHeader(
    version: nat,
    authority: Text,
    context: Text,
    operation: Text,
    securityScope: Option<Text>,
    actor: Option<ActorRef>,
    completion: Option<CommandCompletion>)

  datatype MarkerManifest = MarkerManifest(
    version: nat,
    authority: Text,
    context: Text,
    operation: Text,
    scope: Option<Text>,
    actor: Option<ActorRef>,
    rejected: bool,
    format: nat,
    length: nat,
    digest: Text,
    proposalVersion: nat,
    proposal: Text,
    revision: Text,
    evidence: Option<OutcomeEvidence>,
    integrity: Text)

  /** What the integrity digest covers of one event: its payload only as a digest, its actor only if the receipt has one. */
  datatype EventRow = EventRow(
    eventId: Text,
    commitId: Text,
    streamVersion: nat,
    ordinal: nat,
    count: nat,
    eventType: Text,
    schemaVersion: nat,
    payloadDigest: Text,
    actor: Option<ActorRef>)

  datatype StreamRow = StreamRow(streamId: StreamId, baseVersion: nat, events: seq<EventRow>)

  /** What the integrity digest covers of a receipt. */
  datatype IntegrityRows = IntegrityRows(
    boundedContext: Option<Text>,
    operationId: Text,
    fingerprint: Text,
    correlationId: Option<Text>,
    causationId: Option<Text>,
    securityScope: Option<Text>,
    actor: Option<ActorRef>,
    streams: seq<StreamRow>)

  /** The hash, the names derived with it, the JSON serializers and the character classes: arbitrary functions. */
  datatype Primitives = Primitives(
    sha: Sha,
    ids: Ids,
    completionJson: Option<CommandCompletion> -> Text,
    headerJson: DetailHeader -> Text,
    parseHeader: Text -> Option<DetailHeader>,
    referenceJson: DetailReference -> Text,
    evidenceJson: Option<OutcomeEvidence> -> Text,
    integrityJson: IntegrityRows -> Text,
    manifestJson: MarkerManifest -> Text,
    parseManifest: Text -> Option<MarkerManifest>,
    printable: Text -> bool,
    trimmed: Text -> bool,
    causation: Text -> bool,
    timestamp: nat -> bool)

  /** The serializers lose nothing: parsing undoes writing, and distinct completions differ as text. */
  ghost predicate Lawful(p: Primitives) {
    && (forall h :: p.parseHeader(p.headerJson(h)) == Some(h))
    && (forall m :: p.parseManifest(p.manifestJson(m)) == Some(m))
    && (forall a, b :: p.completionJson(a) == p.completionJson(b) ==> a == b)
  }

  function PayloadBytes(events: seq<NewEvent>): nat {
    if |events| == 0 then 0 else |events[0].payload| + PayloadBytes(events[1..])
  }

  predicate DistinctEventIds(events: seq<NewEvent>) {
    forall i, j | 0 <= i < j < |events| :: events[i].eventId != events[j].eventId
  }

  /** What `EventBatch::new` admits. */
  predicate AdmissibleEvents(events: seq<NewEvent>) {
    && 0 < |events| <= MAX_EVENTS_PER_BATCH
    && PayloadBytes(events) <= MAX_BATCH_PAYLOAD_LEN
    && DistinctEventIds(events)
  }

  /** Batches exist only through `EventBatch::new`. */
  predicate WellFormedTransaction(t: EventTransaction) {
    forall i | 0 <= i < |t.participants| && t.participants[i].batch.Some? ::
      AdmissibleEvents(t.participants[i].batch.value.events)
  }

  function FromNew(stream: StreamId, version: nat, batch: EventBatch, ordinal: nat, count: nat, event: NewEvent): RecordedEvent {
    RecordedEvent(batch.actor, stream, version, event.eventId, batch.commitId, batch.operationId,
                  batch.fingerprint, ordinal, count, batch.correlationId, batch.causationId,
                  event.eventType, event.schemaVersion, event.payload)
  }

  /** The events a batch becomes when recorded on a stream already at `base`. */
  function Recorded(stream: StreamId, base: nat, batch: EventBatch): (events: seq<RecordedEvent>)
    ensures |events| == |batch.events|
    ensures forall i | 0 <= i < |events| ::
      events[i] == FromNew(stream, base + i + 1, batch, i, |batch.events|, batch.events[i])
  {
    seq(|batch.events|, i requires 0 <= i < |batch.events| =>
      FromNew(stream, base + i + 1, batch, i, |batch.events|, batch.events[i]))
  }

  /** `record_batch`: recording fails only when the 64-bit version space is exhausted. */
  method RecordBatch(stream: StreamId, base: nat, batch: EventBatch) returns (r: Result<seq<RecordedEvent>, ErrorKind>)
    requires |batch.events| > 0
    ensures r == if base + |batch.events| <= U64_MAX then Ok(Recorded(stream, base, batch)) else Err(CapacityExhausted)
  {
    var next := base;
    var recorded: seq<RecordedEvent> := [];
    for ordinal := 0 to |batch.events|
      invariant next == base + ordinal && (ordinal > 0 ==> next <= U64_MAX)
      invariant recorded == Recorded(stream, base, batch)[..ordinal]
    {
      if next >= U64_MAX {
        return Err(CapacityExhausted);
      }
      next := next + 1;
      recorded := recorded + [FromNew(stream, next, batch, ordinal, |batch.events|, batch.events[ordinal])];
    }
    assert recorded == Recorded(stream, base, batch);
    return Ok(recorded);
  }

  predicate EvidenceValid(p: Primitives, e: OutcomeEvidence) {
    && e.fingerprintVersion != 0
    && e.commandSchema != 0
    && 0 < |e.commandType| <= 256
    && p.printable(e.commandType)
    && (e.originalCausation.Some? ==> p.causation(e.originalCausation.value))
    && (e.createdAtMillis.Some? ==> p.timestamp(e.createdAtMillis.value))
    && (e.authorityScope.Some? ==> 0 < |e.authorityScope.value| <= 256 && p.printable(e.authorityScope.value))
  }

  predicate RejectionValid(p: Primitives, r: EncodedRejection) {
    && 0 < |r.codecId| <= 128
    && p.printable(r.codecId)
    && r.codecVersion != 0
    && |r.bytes| <= MAX_REJECTION_BYTES
  }

  predicate CompletionValid(p: Primitives, c: CommandCompletion) {
    && c.version == 1
    && c.evidence.Some?
    && EvidenceValid(p, c.evidence.value)
    && (c.rejection.Some? ==> RejectionValid(p, c.rejection.value))
  }

  predicate IsRejection(c: Option<CommandCompletion>) {
    c.Some? && c.value.rejection.Some?
  }

  /** Command identity: everything but the audit timestamp. */
  predicate SameIdentity(a: OutcomeEvidence, b: OutcomeEvidence) {
    a.(createdAtMillis := None) == b.(createdAtMillis := None)
  }

  /** `validate_completed_transaction`: what `commit_outcome` demands of a proposal. */
  predicate CompletedTransactionValid(p: Primitives, t: EventTransaction) {
    && t.completion.Some?
    && CompletionValid(p, t.completion.value)
    && t.boundedContext.Some?
    && (IsRejection(t.completion) ==> forall i | 0 <= i < |t.participants| :: t.participants[i].batch.None?)
  }

  function EventTotal(ps: seq<Participant>): nat {
    if |ps| == 0 then 0
    else (if ps[0].batch.Some? then |ps[0].batch.value.events| else 0) + EventTotal(ps[1..])
  }

  function GuardTotal(ps: seq<Participant>): nat {
    if |ps| == 0 then 0 else (if ps[0].batch.None? then 1 else 0) + GuardTotal(ps[1..])
  }

  /** `validate_transaction_item_limit`: events, read guards and one receipt within the item limit. */
  predicate WithinItemLimit(t: EventTransaction) {
    EventTotal(t.participants) + GuardTotal(t.participants) + 1 <= MAX_TRANSACTION_ITEMS
  }
}
