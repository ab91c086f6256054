/**
 The durable command protocol as a step system. Any number of executors, each running one command,
 interleave with direct store mutations; every step is one locked section of the store or a purely
 local one. A handler is an arbitrary deterministic strategy: what it has been shown so far decides
 the next stream it loads or its decision.
 */
module Executor {
  import opened Wrappers
  import opened Identity
  import opened Records
  import opened Proposal
  import opened Receipts
  import opened Outcome
  import opened Store
  import History

  type Events = seq<RecordedEvent>

  datatype Metadata = Metadata(
    actor: Option<ActorRef>,
    securityScope: Option<Text>,
    evidence: Option<OutcomeEvidence>,
    boundedContext: Option<Text>,
    operationId: Text,
    fingerprint: Text,
    correlationId: Option<Text>,
    causationId: Option<Text>)

  // ----- The handler's view -----

  datatype Refusal = WrongContext | AlreadyLoaded | Corrupt | Undecodable

  datatype Response =
    | Loaded(stream: StreamId, history: Events)
    | Refused(stream: StreamId, reason: Refusal)

  type Trace = seq<Response>

  datatype RaisedEvent = RaisedEvent(eventType: Text, schemaVersion: nat, payload: Text)

  datatype Choice =
    | Load(context: Text, stream: StreamId)
    | Accept(raised: seq<seq<RaisedEvent>>)
    | Reject(rejection: EncodedRejection)
    | Abort(kind: ErrorKind)

  /** One call of the executor: normalized metadata, handler, event codec, retry bound and store handle. */
  datatype Command = Command(
    metadata: Metadata,
    handler: Trace -> Choice,
    decodes: RecordedEvent -> bool,
    maximumRetries: nat,
    limits: Limits)

  predicate HasLoaded(trace: Trace, s: StreamId) {
    exists k :: 0 <= k < |trace| && trace[k].Loaded? && trace[k].stream == s
  }

  predicate Decodes(c: Command, h: Events) {
    forall i | 0 <= i < |h| :: c.decodes(h[i])
  }

  /** `CommandExecution::load` against the streams as they are. */
  function Respond(p: Primitives, c: Command, S: State, trace: Trace, context: Text, s: StreamId): Response {
    var h := HistoryOf(S, s);
    if c.metadata.boundedContext != Some(context) then Refused(s, WrongContext)
    else if HasLoaded(trace, s) then Refused(s, AlreadyLoaded)
    else if !History.Valid(p.ids, s, h) then Refused(s, Corrupt)
    else if !Decodes(c, h) then Refused(s, Undecodable)
    else Loaded(s, h)
  }

  // ----- The proposal -----

  /** The successful loads, in order: the participants of the attempt. */
  function Loads(trace: Trace): seq<(StreamId, Events)> {
    if |trace| == 0 then []
    else
      var last := trace[|trace| - 1];
      Loads(trace[..|trace| - 1]) + (if last.Loaded? then [(last.stream, last.history)] else [])
  }

  function ExpectedOf(version: nat): ExpectedVersion {
    if version == 0 then NoStream else Exact(version)
  }

  function NewEventsFor(p: Primitives, m: Metadata, s: StreamId, raised: seq<RaisedEvent>): (events: seq<NewEvent>)
    ensures |events| == |raised|
  {
    var commit := p.ids.commit(s, m.operationId);
    seq(|raised|, i requires 0 <= i < |raised| =>
      NewEvent(p.ids.event(commit, i), raised[i].eventType, raised[i].schemaVersion, raised[i].payload))
  }

  function BatchFor(p: Primitives, m: Metadata, s: StreamId, raised: seq<RaisedEvent>): Option<EventBatch> {
    if raised == [] then None
    else Some(EventBatch(m.actor, p.ids.commit(s, m.operationId), m.operationId, m.fingerprint,
                         NewEventsFor(p, m, s, raised), m.correlationId, m.causationId))
  }

  /** Events raised on participant `k`; none on a rejection. */
  function RaisedOn(choice: Choice, k: nat): seq<RaisedEvent> {
    if choice.Accept? && k < |choice.raised| then choice.raised[k] else []
  }

  function ParticipantsFor(p: Primitives, m: Metadata, loads: seq<(StreamId, Events)>, choice: Choice): (ps: seq<Participant>)
    ensures |ps| == |loads|
    ensures forall k | 0 <= k < |ps| ::
      ps[k] == Participant(loads[k].0, ExpectedOf(VersionOf(loads[k].1)), BatchFor(p, m, loads[k].0, RaisedOn(choice, k)))
  {
    seq(|loads|, k requires 0 <= k < |loads| =>
      Participant(loads[k].0, ExpectedOf(VersionOf(loads[k].1)), BatchFor(p, m, loads[k].0, RaisedOn(choice, k))))
  }

  function Proposed(p: Primitives, c: Command, trace: Trace, choice: Choice): EventTransaction {
    var m := c.metadata;
    EventTransaction(m.actor, m.securityScope,
                     Some(CommandCompletion(1, m.evidence, if choice.Reject? then Some(choice.rejection) else None)),
                     m.boundedContext, m.operationId, m.fingerprint, m.correlationId, m.causationId,
                     ParticipantsFor(p, m, Loads(trace), choice))
  }

  /** The handler's decision as a transaction: rejections must validate, and so must every batch. */
  function Propose(p: Primitives, c: Command, trace: Trace): Result<EventTransaction, ErrorKind> {
    var choice := c.handler(trace);
    match choice
    case Load(_, _) => Err(InvalidRequest)
    case Abort(kind) => Err(kind)
    case Reject(rejection) =>
      if RejectionValid(p, rejection) then Ok(Proposed(p, c, trace, choice)) else Err(InvalidRequest)
    case Accept(_) =>
      if WellFormedTransaction(Proposed(p, c, trace, choice)) then Ok(Proposed(p, c, trace, choice)) else Err(InvalidRequest)
  }

  // ----- Executors -----

  datatype Details = Available(completion: Option<CommandCompletion>) | DetailsExpired | DetailsMissing

  datatype Completion = Completion(marker: OutcomeMarker, details: Details, replay: bool)

  datatype Phase =
    | LookingUp
    | Running(trace: Trace)
    | Submitting(trace: Trace, proposal: EventTransaction)
    | Resolving(marker: OutcomeMarker, replay: bool, admitted: bool)
    | Reconciling(trace: Trace, error: ErrorKind)
    | Finished(result: Result<Completion, ErrorKind>)

  datatype Executor = Executor(command: Command, evaluations: nat, phase: Phase)

  function KeyFor(m: Metadata): TransactionKey {
    (m.boundedContext, m.operationId)
  }

  /** `OutcomeMarker::validate_identity`. */
  predicate IdentityMatches(marker: OutcomeMarker, m: Metadata) {
    var r := marker.integrity;
    && r.boundedContext == m.boundedContext
    && r.operationId == m.operationId
    && r.fingerprint == m.fingerprint
    && r.correlationId == m.correlationId
    && r.causationId == m.causationId
    && marker.reference.actor == m.actor
    && marker.reference.securityScope == m.securityScope
    && (marker.evidence.Some? ==> m.evidence.Some? && SameIdentity(marker.evidence.value, m.evidence.value))
  }

  /** `validate_for` at the consumer boundary, then the result. */
  function Conclude(p: Primitives, authority: Text, m: Metadata, marker: OutcomeMarker, details: Details, replay: bool): Phase {
    if m.boundedContext.None? || marker.reference.key != OutcomeKey(authority, m.boundedContext.value, m.operationId) then
      Finished(Err(CorruptHistory))
    else if !IdentityMatches(marker, m) then Finished(Err(IdentityConflict))
    else if !Integrity(p, marker.integrity) then Finished(Err(CorruptHistory))
    else Finished(Ok(Completion(marker, details, replay)))
  }

  /** A lookup finds a winner, finds nothing, or fails. */
  function LookUp(m: Metadata, S: State, missing: Phase): Phase {
    if m.boundedContext.None? then Finished(Err(InvalidRequest))
    else if KeyFor(m) !in S.transactions then missing
    else
      match S.transactions[KeyFor(m)]
      case Scoped(marker) => Resolving(marker, true, false)
      case Unscoped(_, _) => Finished(Err(CorruptHistory))
  }

  function Submitted(trace: Trace, r: Result<(StoredTransaction, bool), ErrorKind>): Phase {
    match r
    case Ok((Scoped(marker), replay)) => Resolving(marker, replay, false)
    case Ok((Unscoped(_, _), _)) => Finished(Err(InvalidRequest))
    case Err(kind) => if kind == Conflict || kind == IdentityConflict then Reconciling(trace, kind) else Finished(Err(kind))
  }

  /** `BoundedConflictRetries`: retry while the evaluations so far do not exceed the bound. */
  function AfterConflict(e: Executor, error: ErrorKind): Phase {
    if error != Conflict then Finished(Err(error))
    else if e.evaluations <= e.command.maximumRetries then LookingUp
    else Finished(Err(error))
  }

  /** Lifecycle check, then the hot read; an expiry may come between the two. */
  function Resolve(p: Primitives, authority: Text, m: Metadata, S: State, marker: OutcomeMarker, replay: bool, admitted: bool): Phase {
    if marker.reference !in S.details then
      if admitted then Conclude(p, authority, m, marker, DetailsMissing, replay) else Finished(Err(CorruptHistory))
    else
      match S.details[marker.reference]
      case Expired =>
        Conclude(p, authority, m, marker, if admitted then DetailsMissing else DetailsExpired, replay)
      case Active(bytes) =>
        if !admitted then Resolving(marker, replay, true)
        else
          match DecodeDetails(p, marker.reference, bytes)
          case Err(kind) => Finished(Err(kind))
          case Ok(completion) => Conclude(p, authority, m, marker, Available(completion), replay)
  }

  /** One step of one executor. */
  function StepExecutor(p: Primitives, authority: Text, e: Executor, S: State): (Executor, State) {
    var c := e.command;
    match e.phase
    case LookingUp =>
      var next := LookUp(c.metadata, S, Running([]));
      (e.(phase := next, evaluations := if next.Running? then e.evaluations + 1 else e.evaluations), S)
    case Running(trace) =>
      var choice := c.handler(trace);
      if choice.Load? then (e.(phase := Running(trace + [Respond(p, c, S, trace, choice.context, choice.stream)])), S)
      else
        var proposal := Propose(p, c, trace);
        (e.(phase := if proposal.Ok? then Submitting(trace, proposal.value) else Finished(Err(proposal.error))), S)
    case Submitting(trace, t) =>
      var (T, r) := Commit(p, authority, c.limits, S, t);
      (e.(phase := Submitted(trace, r)), T)
    case Resolving(marker, replay, admitted) =>
      (e.(phase := Resolve(p, authority, c.metadata, S, marker, replay, admitted)), S)
    case Reconciling(trace, error) => (e.(phase := LookUp(c.metadata, S, AfterConflict(e, error))), S)
    case Finished(_) => (e, S)
  }

  // ----- The system -----

  datatype System = System(store: State, executors: seq<Executor>)

  datatype Move = Turn(i: nat) | Environment(op: Operation)

  function Step(p: Primitives, authority: Text, sys: System, move: Move): System {
    match move
    case Environment(op) => sys.(store := Perform(p, authority, sys.store, op))
    case Turn(i) =>
      if i < |sys.executors| then
        var (e, S) := StepExecutor(p, authority, sys.executors[i], sys.store);
        System(S, sys.executors[i := e])
      else sys
  }

  /** The system after a schedule; prefixes of the schedule give its earlier states. */
  function Run(p: Primitives, authority: Text, sys: System, moves: seq<Move>): System
    decreases |moves|
  {
    if |moves| == 0 then sys
    else Step(p, authority, Run(p, authority, sys, moves[..|moves| - 1]), moves[|moves| - 1])
  }

  /** Executors at their first lookup over an empty store. */
  predicate Initial(sys: System) {
    && sys.store == EMPTY
    && forall i | 0 <= i < |sys.executors| :: sys.executors[i].phase == LookingUp && sys.executors[i].evaluations == 0
  }

  predicate PermittedMoves(moves: seq<Move>) {
    forall i | 0 <= i < |moves| && moves[i].Environment? :: Permitted(moves[i].op)
  }

  // ----- The atomic reference -----

  /** The trace is what the handler sees when all of it runs against one state. */
  ghost predicate AtomicRun(p: Primitives, c: Command, S: State, trace: Trace) {
    forall k | 0 <= k < |trace| :: AtomicLoad(p, c, S, trace, k)
  }

  predicate AtomicLoad(p: Primitives, c: Command, S: State, trace: Trace, k: nat)
    requires k < |trace|
  {
    var choice := c.handler(trace[..k]);
    choice.Load? && trace[k] == Respond(p, c, S, trace[..k], choice.context, choice.stream)
  }

  /** One atomic execution: the whole handler against `S`, and its decision newly recorded. */
  ghost predicate AtomicExecution(p: Primitives, authority: Text, c: Command, S: State, T: State, trace: Trace) {
    && AtomicRun(p, c, S, trace)
    && Propose(p, c, trace).Ok?
    && var (U, r) := Commit(p, authority, c.limits, S, Propose(p, c, trace).value);
       U == T && r.Ok? && !r.value.1
  }
}
