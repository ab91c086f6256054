/**
 The in-memory store as a function of its state: what each locked section does to the shared state
 and what it answers. The class in MemoryStore is proved against these functions.
 */
module Store {
  import opened Wrappers
  import opened Identity
  import opened Records
  import opened Proposal
  import opened Receipts
  import opened Outcome

  datatype Provenance = Direct | ByTransaction

  datatype StoredAppend = StoredAppend(batch: EventBatch, events: seq<RecordedEvent>, provenance: Provenance)

  datatype StoredTransaction =
    | Scoped(marker: OutcomeMarker)
    | Unscoped(proposal: ProposalDigest, receipt: TransactionReceipt)
  {
    function Digest(): ProposalDigest {
      if Scoped? then marker.proposal else proposal
    }

    function Receipt(): TransactionReceipt {
      if Scoped? then marker.integrity else receipt
    }
  }

  datatype DetailState = Active(bytes: Text) | Expired

  type TransactionKey = (Option<Text>, Text)

  datatype State = State(
    streams: map<StreamId, seq<RecordedEvent>>,
    operations: map<(StreamId, Text), StoredAppend>,
    commits: map<(StreamId, Text), Text>,
    eventIds: set<(StreamId, Text)>,
    transactions: map<TransactionKey, StoredTransaction>,
    details: map<DetailReference, DetailState>,
    eventCount: nat)

  const EMPTY: State := State(map[], map[], map[], {}, map[], map[], 0)

  /** Capacity belongs to a handle, not to the shared state. */
  datatype Limits = Limits(maximumEvents: nat, maximumOutcomes: nat)

  /** `load`: an absent stream is an empty history. */
  function HistoryOf(S: State, s: StreamId): seq<RecordedEvent> {
    if s in S.streams then S.streams[s] else []
  }

  function VersionOf(h: seq<RecordedEvent>): nat {
    if |h| == 0 then 0 else h[|h| - 1].streamVersion
  }

  function CurrentVersion(S: State, s: StreamId): nat {
    VersionOf(HistoryOf(S, s))
  }

  /** `validate_expected_version`. */
  function ExpectedError(expected: ExpectedVersion, current: nat): Option<ErrorKind> {
    match expected
    case NoStream => if current == 0 then None else Some(Conflict)
    case Exact(version) =>
      if version == 0 then Some(InvalidRequest) else if version == current then None else Some(Conflict)
  }

  predicate ReusesEventId(S: State, s: StreamId, b: EventBatch) {
    exists i :: 0 <= i < |b.events| && (s, b.events[i].eventId) in S.eventIds
  }

  /** Enters one batch into every index. */
  function RecordInto(S: State, s: StreamId, b: EventBatch, events: seq<RecordedEvent>, prov: Provenance): State {
    S.(streams := S.streams[s := HistoryOf(S, s) + events],
       operations := S.operations[(s, b.operationId) := StoredAppend(b, events, prov)],
       commits := S.commits[(s, b.commitId) := b.operationId],
       eventIds := S.eventIds + set i | 0 <= i < |b.events| :: (s, b.events[i].eventId))
  }

  // ----- append -----

  datatype AppendOutcome = AppendOutcome(events: seq<RecordedEvent>, replay: bool)

  function AppendError(p: Primitives, limits: Limits, S: State, s: StreamId, expected: ExpectedVersion, b: EventBatch): Option<ErrorKind> {
    if (s, b.commitId) in S.commits || ReusesEventId(S, s, b) then Some(IdentityConflict)
    else if !DerivedBatch(p, s, b) then Some(InvalidRequest)
    else if ExpectedError(expected, CurrentVersion(S, s)).Some? then ExpectedError(expected, CurrentVersion(S, s))
    else if S.eventCount + |b.events| > limits.maximumEvents || CurrentVersion(S, s) + |b.events| > U64_MAX then
      Some(CapacityExhausted)
    else None
  }

  function Append(p: Primitives, limits: Limits, S: State, s: StreamId, expected: ExpectedVersion, b: EventBatch): (State, Result<AppendOutcome, ErrorKind>) {
    if (s, b.operationId) in S.operations then
      var previous := S.operations[(s, b.operationId)];
      if previous.provenance.Direct? && previous.batch == b then (S, Ok(AppendOutcome(previous.events, true)))
      else (S, Err(IdentityConflict))
    else
      match AppendError(p, limits, S, s, expected, b)
      case Some(e) => (S, Err(e))
      case None =>
        var events := Recorded(s, CurrentVersion(S, s), b);
        (RecordInto(S, s, b, events, Direct).(eventCount := S.eventCount + |b.events|), Ok(AppendOutcome(events, false)))
  }

  // ----- append_transaction_inner -----

  function BatchError(p: Primitives, S: State, t: EventTransaction, s: StreamId, b: EventBatch): Option<ErrorKind> {
    if !BatchOfTransaction(t, b) || !DerivedBatch(p, s, b) then Some(InvalidRequest)
    else if (s, b.operationId) in S.operations || (s, b.commitId) in S.commits || ReusesEventId(S, s, b) then
      Some(IdentityConflict)
    else None
  }

  predicate RepeatsStream(ps: seq<Participant>, i: nat)
    requires i < |ps|
  {
    exists j :: 0 <= j < i && ps[j].streamId == ps[i].streamId
  }

  /** The first error among the first `n` participants, in the order they are tested. */
  function ParticipantsError(p: Primitives, S: State, t: EventTransaction, n: nat): Option<ErrorKind>
    requires n <= |t.participants|
  {
    if n == 0 then None
    else
      var earlier := ParticipantsError(p, S, t, n - 1);
      var x := t.participants[n - 1];
      if earlier.Some? then earlier
      else if RepeatsStream(t.participants, n - 1) then Some(InvalidRequest)
      else if x.batch.None? then None
      else BatchError(p, S, t, x.streamId, x.batch.value)
  }

  function VersionsError(S: State, ps: seq<Participant>, n: nat): Option<ErrorKind>
    requires n <= |ps|
  {
    if n == 0 then None
    else
      var earlier := VersionsError(S, ps, n - 1);
      if earlier.Some? then earlier
      else ExpectedError(ps[n - 1].expected, CurrentVersion(S, ps[n - 1].streamId))
  }

  /** `validate_transaction`. */
  function TransactionError(p: Primitives, S: State, t: EventTransaction): Option<ErrorKind> {
    var n := |t.participants|;
    if ParticipantsError(p, S, t, n).Some? then ParticipantsError(p, S, t, n) else VersionsError(S, t.participants, n)
  }

  function Bases(S: State, ps: seq<Participant>): (bases: seq<nat>)
    ensures |bases| == |ps|
    ensures forall i | 0 <= i < |ps| :: bases[i] == CurrentVersion(S, ps[i].streamId)
  {
    seq(|ps|, i requires 0 <= i < |ps| => CurrentVersion(S, ps[i].streamId))
  }

  predicate VersionSpaceSuffices(S: State, ps: seq<Participant>) {
    forall i | 0 <= i < |ps| && ps[i].batch.Some? ::
      CurrentVersion(S, ps[i].streamId) + |ps[i].batch.value.events| <= U64_MAX
  }

  /** The first `n` participants recorded, each at the version the transaction found. */
  function RecordParticipants(S: State, ps: seq<Participant>, n: nat): State
    requires n <= |ps|
  {
    if n == 0 then S
    else
      var T := RecordParticipants(S, ps, n - 1);
      var x := ps[n - 1];
      match x.batch
      case None => T
      case Some(b) => RecordInto(T, x.streamId, b, EventsOf(x, CurrentVersion(S, x.streamId)), ByTransaction)
  }

  function KeyOf(t: EventTransaction): TransactionKey {
    (t.boundedContext, t.operationId)
  }

  function ReceiptFor(S: State, t: EventTransaction): TransactionReceipt {
    BuildReceipt(t, Bases(S, t.participants))
  }

  /** Every refusal of a transaction whose key is still free, up to marker preparation. */
  function AdmissionError(p: Primitives, limits: Limits, S: State, t: EventTransaction): Option<ErrorKind> {
    if |S.transactions| >= limits.maximumOutcomes then Some(CapacityExhausted)
    else if TransactionError(p, S, t).Some? then TransactionError(p, S, t)
    else if S.eventCount + EventTotal(t.participants) > limits.maximumEvents then Some(CapacityExhausted)
    else if !VersionSpaceSuffices(S, t.participants) then Some(CapacityExhausted)
    else None
  }

  /** The stored record of a new transaction, with its detail slot if it is scoped. */
  function RecordOf(p: Primitives, authority: Text, S: State, t: EventTransaction): Result<(StoredTransaction, Option<Text>), ErrorKind> {
    if t.boundedContext.None? then Ok((Unscoped(DigestOf(p, t), ReceiptFor(S, t)), None))
    else
      match Prepare(p, authority, t, ReceiptFor(S, t))
      case Err(e) => Err(e)
      case Ok((marker, bytes)) => Ok((Scoped(marker), Some(bytes)))
  }

  function Committed(S: State, t: EventTransaction, stored: StoredTransaction, bytes: Option<Text>): State {
    var T := RecordParticipants(S, t.participants, |t.participants|);
    T.(eventCount := S.eventCount + EventTotal(t.participants),
       transactions := S.transactions[KeyOf(t) := stored],
       details := if stored.Scoped? && bytes.Some? then S.details[stored.marker.reference := Active(bytes.value)] else S.details)
  }

  function Transact(p: Primitives, authority: Text, limits: Limits, S: State, t: EventTransaction): (State, Result<(StoredTransaction, bool), ErrorKind>) {
    if !WithinItemLimit(t) || !ActorsAgree(t) then (S, Err(InvalidRequest))
    else if KeyOf(t) in S.transactions then
      var previous := S.transactions[KeyOf(t)];
      if previous.Digest() == DigestOf(p, t) then (S, Ok((previous, true))) else (S, Err(IdentityConflict))
    else
      match AdmissionError(p, limits, S, t)
      case Some(e) => (S, Err(e))
      case None =>
        match RecordOf(p, authority, S, t)
        case Err(e) => (S, Err(e))
        case Ok((stored, bytes)) => (Committed(S, t, stored, bytes), Ok((stored, false)))
  }

  /** `commit_outcome` up to the point where its details are resolved. */
  function Commit(p: Primitives, authority: Text, limits: Limits, S: State, t: EventTransaction): (State, Result<(StoredTransaction, bool), ErrorKind>) {
    if !CompletedTransactionValid(p, t) then (S, Err(InvalidRequest)) else Transact(p, authority, limits, S, t)
  }

  // ----- expire_details -----

  datatype LifecycleError = Missing | RevisionMismatch | StoreFailure(kind: ErrorKind)

  function Expire(authority: Text, S: State, key: OutcomeKey, revision: Text): (State, Option<LifecycleError>) {
    var k: TransactionKey := (Some(key.context), key.operationId);
    if key.authority != authority then (S, Some(StoreFailure(ConfigurationMismatch)))
    else if k !in S.transactions || S.transactions[k].Unscoped? then (S, Some(Missing))
    else
      var marker := S.transactions[k].marker;
      if marker.revision != revision then (S, Some(RevisionMismatch))
      else if marker.reference !in S.details then (S, Some(StoreFailure(CorruptHistory)))
      else (S.(details := S.details[marker.reference := Expired]), None)
  }

  // ----- Every mutation anyone can perform -----

  datatype Operation =
    | DirectAppend(limits: Limits, stream: StreamId, expected: ExpectedVersion, batch: EventBatch)
    | LegacyTransaction(limits: Limits, transaction: EventTransaction)
    | CommitOutcome(limits: Limits, transaction: EventTransaction)
    | ExpireDetails(key: OutcomeKey, revision: Text)

  /** Batches exist only through their constructor, and `append_transaction` refuses completions. */
  predicate Permitted(op: Operation) {
    match op
    case DirectAppend(_, _, _, batch) => AdmissibleEvents(batch.events)
    case LegacyTransaction(_, t) => WellFormedTransaction(t) && t.completion.None?
    case CommitOutcome(_, t) => WellFormedTransaction(t)
    case ExpireDetails(_, _) => true
  }

  function Perform(p: Primitives, authority: Text, S: State, op: Operation): State {
    match op
    case DirectAppend(limits, stream, expected, batch) => Append(p, limits, S, stream, expected, batch).0
    case LegacyTransaction(limits, t) => Transact(p, authority, limits, S, t).0
    case CommitOutcome(limits, t) => Commit(p, authority, limits, S, t).0
    case ExpireDetails(key, revision) => Expire(authority, S, key, revision).0
  }

  function PerformAll(p: Primitives, authority: Text, S: State, ops: seq<Operation>): State
    decreases |ops|
  {
    if |ops| == 0 then S else PerformAll(p, authority, Perform(p, authority, S, ops[0]), ops[1..])
  }
}
