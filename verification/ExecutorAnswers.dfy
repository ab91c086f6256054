/**
 What an execution answers, field by field: who succeeds under a recorded key, with which completion,
 who is told of a conflict, who retries, and what the recorded events carry.
 */
module ExecutorAnswers {
  import opened Wrappers
  import opened Identity
  import opened Records
  import opened Receipts
  import opened Outcome
  import opened Store
  import opened StoreInvariant
  import opened StoreSteps
  import opened Executor
  import opened ExecutorSteps
  import opened ExecutorRuns
  import Proposal
  import StoreAnswers
  import History

  // ----- The same command -----

  /** Both describe the command, and in the same way apart from when it was created. */
  predicate SameEvidence(a: Option<OutcomeEvidence>, b: Option<OutcomeEvidence>) {
    && a.Some? && b.Some?
    && a.value.authorityScope == b.value.authorityScope
    && a.value.fingerprintVersion == b.value.fingerprintVersion
    && a.value.commandType == b.value.commandType
    && a.value.commandSchema == b.value.commandSchema
    && a.value.eventsCausedByCommand == b.value.eventsCausedByCommand
    && a.value.originalCausation == b.value.originalCausation
  }

  /** Equal metadata, apart from the evidence. */
  predicate SameHeaders(a: Metadata, b: Metadata) {
    && a.boundedContext == b.boundedContext
    && a.operationId == b.operationId
    && a.fingerprint == b.fingerprint
    && a.correlationId == b.correlationId
    && a.causationId == b.causationId
    && a.actor == b.actor
    && a.securityScope == b.securityScope
  }

  predicate SameCommand(a: Metadata, b: Metadata) {
    SameHeaders(a, b) && SameEvidence(a.evidence, b.evidence)
  }

  /**
   Two executors that succeed for one key, at whatever moments, run the same command: their metadata
   are equal field by field, and so is their evidence, creation time apart, wherever the record has evidence.
   */
  lemma SuccessesRunOneCommand(p: Primitives, authority: Text, sys: System, moves: seq<Move>, a: nat, i: nat, b: nat, j: nat)
    requires Lawful(p) && Initial(sys) && PermittedMoves(moves) && a <= b <= |moves|
    requires i < |At(p, authority, sys, moves, a).executors| && j < |At(p, authority, sys, moves, b).executors|
    requires var e := At(p, authority, sys, moves, a).executors[i]; var f := At(p, authority, sys, moves, b).executors[j];
      Succeeded(e) && Succeeded(f) && KeyFor(e.command.metadata) == KeyFor(f.command.metadata)
    ensures var e := At(p, authority, sys, moves, a).executors[i]; var f := At(p, authority, sys, moves, b).executors[j];
      && SameHeaders(e.command.metadata, f.command.metadata)
      && (e.phase.result.value.marker.evidence.Some? ==> SameEvidence(e.command.metadata.evidence, f.command.metadata.evidence))
  {
    ReachableSound(p, authority, sys, moves, b);
    Agreement(p, authority, sys, moves, a, i, b, j);
    var e, f := At(p, authority, sys, moves, a).executors[i], At(p, authority, sys, moves, b).executors[j];
    assert ExecutorInv(p, At(p, authority, sys, moves, b).store, f);
    MatchesAgree(e.phase.result.value.marker, e.command.metadata, f.command.metadata);
  }

  lemma MatchesAgree(marker: OutcomeMarker, a: Metadata, b: Metadata)
    requires IdentityMatches(marker, a) && IdentityMatches(marker, b)
    ensures SameHeaders(a, b) && (marker.evidence.Some? ==> SameEvidence(a.evidence, b.evidence))
  {
  }

  // ----- What a newly recorded command leaves -----

  /** The completion that the decision of the handler commits. */
  function CommittedCompletion(c: Command, trace: Trace): CommandCompletion {
    var choice := c.handler(trace);
    CommandCompletion(1, c.metadata.evidence, if choice.Reject? then Some(choice.rejection) else None)
  }

  /** The marker and slot of a newly recorded command: they belong to exactly this command and hold its completion. */
  ghost predicate Bears(p: Primitives, authority: Text, c: Command, trace: Trace, T: State, marker: OutcomeMarker) {
    && HoldsRecord(T, c.metadata, marker)
    && (forall m: Metadata :: IdentityMatches(marker, m) <==> SameCommand(c.metadata, m))
    && marker.reference in T.details && T.details[marker.reference].Active?
    && DecodeDetails(p, marker.reference, T.details[marker.reference].bytes) == Ok(Some(CommittedCompletion(c, trace)))
  }

  lemma PreparedMatches(p: Primitives, authority: Text, t: EventTransaction, r: TransactionReceipt, m: Metadata)
    requires Prepare(p, authority, t, r).Ok? && t.completion.Some? && t.completion.value.evidence.Some?
    ensures var marker := Prepare(p, authority, t, r).value.0;
      IdentityMatches(marker, m) <==>
        && t.boundedContext == m.boundedContext && t.operationId == m.operationId && t.fingerprint == m.fingerprint
        && t.correlationId == m.correlationId && t.causationId == m.causationId
        && t.actor == m.actor && t.securityScope == m.securityScope
        && SameEvidence(t.completion.value.evidence, m.evidence)
  {
  }

  lemma ProposalSays(p: Primitives, c: Command, trace: Trace)
    requires Propose(p, c, trace).Ok?
    ensures var t := Propose(p, c, trace).value; var m := c.metadata;
      && t.boundedContext == m.boundedContext && t.operationId == m.operationId && t.fingerprint == m.fingerprint
      && t.correlationId == m.correlationId && t.causationId == m.causationId
      && t.actor == m.actor && t.securityScope == m.securityScope
      && t.completion == Some(CommittedCompletion(c, trace))
  {
  }

  /** The state after a new commit: its record and slot are what `prepare` made of the proposal. */
  lemma NewCommitShape(p: Primitives, authority: Text, limits: Limits, S: State, t: EventTransaction)
    requires var r := Commit(p, authority, limits, S, t).1; r.Ok? && !r.value.1
    ensures var T := Commit(p, authority, limits, S, t).0;
      && CompletedTransactionValid(p, t)
      && Prepare(p, authority, t, ReceiptFor(S, t)).Ok?
      && var (marker, bytes) := Prepare(p, authority, t, ReceiptFor(S, t)).value;
         && KeyOf(t) in T.transactions && T.transactions[KeyOf(t)] == Scoped(marker)
         && marker.reference in T.details && T.details[marker.reference] == Active(bytes)
  {
  }

  lemma ExecutionBears(p: Primitives, authority: Text, c: Command, S: State, trace: Trace) returns (marker: OutcomeMarker)
    requires Lawful(p) && Propose(p, c, trace).Ok?
    requires var r := Commit(p, authority, c.limits, S, Propose(p, c, trace).value).1; r.Ok? && !r.value.1
    ensures Bears(p, authority, c, trace, Commit(p, authority, c.limits, S, Propose(p, c, trace).value).0, marker)
  {
    var t := Propose(p, c, trace).value;
    ProposalSays(p, c, trace);
    ProposalIsPermitted(p, c, trace);
    NewCommitShape(p, authority, c.limits, S, t);
    var r := ReceiptFor(S, t);
    marker := Prepare(p, authority, t, r).value.0;
    DetailsRoundTrip(p, authority, t, r);
    forall m: Metadata ensures IdentityMatches(marker, m) <==> SameCommand(c.metadata, m) {
      PreparedMatches(p, authority, t, r, m);
    }
  }

  /** Executor `i` newly records its command's key at move `n`. */
  predicate RecordsAt(p: Primitives, authority: Text, sys: System, moves: seq<Move>, n: nat, i: nat)
    requires n < |moves|
  {
    var now := At(p, authority, sys, moves, n);
    && moves[n] == Turn(i) && i < |now.executors| && now.executors[i].phase.Submitting?
    && KeyFor(now.executors[i].command.metadata) !in now.store.transactions
    && KeyFor(now.executors[i].command.metadata) in At(p, authority, sys, moves, n + 1).store.transactions
  }

  lemma SubmissionBears(p: Primitives, authority: Text, S: State, e: Executor) returns (marker: OutcomeMarker)
    requires Lawful(p) && ExecutorInv(p, S, e) && e.phase.Submitting?
    requires KeyFor(e.command.metadata) !in S.transactions
    requires KeyFor(e.command.metadata) in StepExecutor(p, authority, e, S).1.transactions
    ensures Bears(p, authority, e.command, e.phase.trace, StepExecutor(p, authority, e, S).1, marker)
    ensures StepExecutor(p, authority, e, S).0 == e.(phase := Resolving(marker, false, false))
  {
    RefusedChangesNothing(p, authority, e.command.limits, S, e.phase.proposal);
    marker := ExecutionBears(p, authority, e.command, S, e.phase.trace);
    var r := Commit(p, authority, e.command.limits, S, e.phase.proposal).1;
    ProposalIsPermitted(p, e.command, e.phase.trace);
    NewCommitShape(p, authority, e.command.limits, S, e.phase.proposal);
    NewAnswer(p, authority, e.command.limits, S, e.phase.proposal);
    assert r.value == (Scoped(marker), false);
  }

  lemma NewAnswer(p: Primitives, authority: Text, limits: Limits, S: State, t: EventTransaction)
    requires var r := Commit(p, authority, limits, S, t).1; r.Ok? && !r.value.1
    ensures var (T, r) := Commit(p, authority, limits, S, t);
      KeyOf(t) in T.transactions && r.value.0 == T.transactions[KeyOf(t)]
  {
  }

  lemma RecordingBears(p: Primitives, authority: Text, sys: System, moves: seq<Move>, n: nat, i: nat) returns (marker: OutcomeMarker)
    requires Lawful(p) && Initial(sys) && PermittedMoves(moves) && n < |moves| && RecordsAt(p, authority, sys, moves, n, i)
    ensures var e := At(p, authority, sys, moves, n).executors[i];
      Bears(p, authority, e.command, e.phase.trace, At(p, authority, sys, moves, n + 1).store, marker)
  {
    ReachableSound(p, authority, sys, moves, n);
    AtNext(p, authority, sys, moves, n);
    var now := At(p, authority, sys, moves, n);
    assert ExecutorInv(p, now.store, now.executors[i]);
    marker := SubmissionBears(p, authority, now.store, now.executors[i]);
  }

  /**
   Only the recorded command succeeds: if executor `i` recorded the key, an executor whose metadata
   differs from its in any field, evidence included, creation time apart, never finishes successfully.
   */
  lemma OnlyTheRecordedCommandSucceeds(p: Primitives, authority: Text, sys: System, moves: seq<Move>, n: nat, i: nat, b: nat, j: nat)
    requires Lawful(p) && Initial(sys) && PermittedMoves(moves) && n < |moves| && RecordsAt(p, authority, sys, moves, n, i)
    requires b <= |moves| && j < |At(p, authority, sys, moves, b).executors|
    requires var m := At(p, authority, sys, moves, n).executors[i].command.metadata; var f := At(p, authority, sys, moves, b).executors[j];
      KeyFor(f.command.metadata) == KeyFor(m) && !SameCommand(m, f.command.metadata)
    ensures !Succeeded(At(p, authority, sys, moves, b).executors[j])
  {
    var f := At(p, authority, sys, moves, b).executors[j];
    if Succeeded(f) {
      ReachableSound(p, authority, sys, moves, b);
      assert ExecutorInv(p, At(p, authority, sys, moves, b).store, f);
      var marker := RecordingBears(p, authority, sys, moves, n, i);
      if b <= n {
        StaysRecorded(p, authority, sys, moves, b, n, KeyFor(f.command.metadata));
      } else {
        StoreGrows(p, authority, sys, moves, n + 1, b);
      }
    }
  }

  // ----- The answer of a lookup -----

  /** The details that a resolution sees: the committed completion while the slot is active. */
  function DetailsSeen(slot: DetailState, admitted: bool, completion: CommandCompletion): Details {
    match slot
    case Active(_) => Available(Some(completion))
    case Expired => if admitted then DetailsMissing else DetailsExpired
  }

  lemma ResolveAnswers(p: Primitives, authority: Text, m: Metadata, S: State, marker: OutcomeMarker, replay: bool, admitted: bool, completion: CommandCompletion)
    requires m.boundedContext.Some? && marker.reference.key == OutcomeKey(authority, m.boundedContext.value, m.operationId)
    requires Integrity(p, marker.integrity) && marker.reference in S.details
    requires S.details[marker.reference].Active? ==>
      DecodeDetails(p, marker.reference, S.details[marker.reference].bytes) == Ok(Some(completion))
    ensures var slot := S.details[marker.reference];
      Resolve(p, authority, m, S, marker, replay, admitted) ==
        if slot.Active? && !admitted then Resolving(marker, replay, true)
        else Finished(if IdentityMatches(marker, m) then Ok(Completion(marker, DetailsSeen(slot, admitted, completion), replay)) else Err(IdentityConflict))
  {
  }

  /** What a moment later knows of a newly recorded command. */
  lemma BearsOn(p: Primitives, authority: Text, c: Command, trace: Trace, T: State, U: State, marker: OutcomeMarker, m: Metadata)
    requires Bears(p, authority, c, trace, T, marker) && Evolves(T, U) && KeyFor(m) == KeyFor(c.metadata)
    ensures HoldsRecord(U, m, marker) && marker.reference in U.details
    ensures U.details[marker.reference].Active? ==>
      DecodeDetails(p, marker.reference, U.details[marker.reference].bytes) == Ok(Some(CommittedCompletion(c, trace)))
    ensures IdentityMatches(marker, m) <==> SameCommand(c.metadata, m)
  {
  }

  /**
   The answer under a recorded key: at any later turn of an executor that is resolving it, the same
   command succeeds, with the completion that was committed while its details live and as expired or
   missing afterwards, and any other command gets an identity conflict.
   */
  lemma RecordedKeyAnswers(p: Primitives, authority: Text, sys: System, moves: seq<Move>, n: nat, i: nat, t: nat, j: nat)
    requires Lawful(p) && Initial(sys) && PermittedMoves(moves) && n < t < |moves| && RecordsAt(p, authority, sys, moves, n, i)
    requires moves[t] == Turn(j) && j < |At(p, authority, sys, moves, t).executors| && At(p, authority, sys, moves, t).executors[j].phase.Resolving?
    requires KeyFor(At(p, authority, sys, moves, t).executors[j].command.metadata) == KeyFor(At(p, authority, sys, moves, n).executors[i].command.metadata)
    ensures |At(p, authority, sys, moves, t + 1).executors| == |At(p, authority, sys, moves, t).executors|
    ensures var first := At(p, authority, sys, moves, n).executors[i]; var now := At(p, authority, sys, moves, t); var e := now.executors[j];
      var ref := e.phase.marker.reference;
      && ref in now.store.details
      && At(p, authority, sys, moves, t + 1).executors[j].phase ==
           if now.store.details[ref].Active? && !e.phase.admitted then e.phase.(admitted := true)
           else if SameCommand(first.command.metadata, e.command.metadata) then
             Finished(Ok(Completion(e.phase.marker, DetailsSeen(now.store.details[ref], e.phase.admitted, CommittedCompletion(first.command, first.phase.trace)), e.phase.replay)))
           else Finished(Err(IdentityConflict))
  {
    var first, now := At(p, authority, sys, moves, n).executors[i], At(p, authority, sys, moves, t);
    var e := now.executors[j];
    var marker := RecordingBears(p, authority, sys, moves, n, i);
    StoreGrows(p, authority, sys, moves, n + 1, t);
    BearsOn(p, authority, first.command, first.phase.trace, At(p, authority, sys, moves, n + 1).store, now.store, marker, e.command.metadata);
    ReachableSound(p, authority, sys, moves, t);
    ResolvingHolds(p, now.store, e);
    ScopedKey(p, authority, now.store, e.command.metadata, marker);
    AtNext(p, authority, sys, moves, t);
    ResolvingTurn(p, authority, now, j);
    ResolveAnswers(p, authority, e.command.metadata, now.store, marker, e.phase.replay, e.phase.admitted, CommittedCompletion(first.command, first.phase.trace));
  }

  lemma ResolvingHolds(p: Primitives, S: State, e: Executor)
    requires ExecutorInv(p, S, e) && e.phase.Resolving?
    ensures HoldsRecord(S, e.command.metadata, e.phase.marker)
  {
  }

  lemma ScopedKey(p: Primitives, authority: Text, S: State, m: Metadata, marker: OutcomeMarker)
    requires Inv(p, authority, S) && HoldsRecord(S, m, marker)
    ensures m.boundedContext.Some? && marker.reference.key == OutcomeKey(authority, m.boundedContext.value, m.operationId)
    ensures Integrity(p, marker.integrity) && marker.reference in S.details
  {
    assert TransactionIntact(p, authority, S, KeyFor(m));
  }

  lemma ResolvingTurn(p: Primitives, authority: Text, now: System, j: nat)
    requires j < |now.executors| && now.executors[j].phase.Resolving?
    ensures var e := now.executors[j]; var next := Step(p, authority, now, Turn(j));
      |next.executors| == |now.executors|
      && next.executors[j].phase == Resolve(p, authority, e.command.metadata, now.store, e.phase.marker, e.phase.replay, e.phase.admitted)
  {
  }

  // ----- Expiry over schedules -----

  /** The record is there and its details are gone. */
  predicate ExpiredRecord(S: State, m: Metadata, marker: OutcomeMarker) {
    HoldsRecord(S, m, marker) && marker.reference in S.details && S.details[marker.reference].Expired?
  }

  lemma ExpireExpires(p: Primitives, authority: Text, S: State, m: Metadata, marker: OutcomeMarker)
    requires Inv(p, authority, S) && HoldsRecord(S, m, marker)
    ensures ExpiredRecord(Expire(authority, S, marker.reference.key, marker.revision).0, m, marker)
  {
    ScopedKey(p, authority, S, m, marker);
    StoreAnswers.ExpiryExact(p, authority, S, marker.reference.key, marker.revision);
  }

  lemma ExpiredStays(S: State, T: State, m: Metadata, marker: OutcomeMarker)
    requires ExpiredRecord(S, m, marker) && Evolves(S, T)
    ensures ExpiredRecord(T, m, marker)
  {
  }

  lemma ExpiredNext(p: Primitives, authority: Text, sys: System, moves: seq<Move>, n: nat, m: Metadata, marker: OutcomeMarker)
    requires Lawful(p) && Initial(sys) && PermittedMoves(moves) && n < |moves|
    requires HoldsRecord(At(p, authority, sys, moves, n).store, m, marker)
    requires moves[n] == Environment(ExpireDetails(marker.reference.key, marker.revision))
    ensures ExpiredRecord(At(p, authority, sys, moves, n + 1).store, m, marker)
  {
    ReachableSound(p, authority, sys, moves, n);
    ExpireExpires(p, authority, At(p, authority, sys, moves, n).store, m, marker);
    AtNext(p, authority, sys, moves, n);
  }

  /** Once details were expired by their key and revision, their slot is expired at every later moment. */
  lemma ExpiryTakesEffect(p: Primitives, authority: Text, sys: System, moves: seq<Move>, n: nat, m: Metadata, marker: OutcomeMarker, b: nat)
    requires Lawful(p) && Initial(sys) && PermittedMoves(moves) && n < b <= |moves|
    requires HoldsRecord(At(p, authority, sys, moves, n).store, m, marker)
    requires moves[n] == Environment(ExpireDetails(marker.reference.key, marker.revision))
    ensures ExpiredRecord(At(p, authority, sys, moves, b).store, m, marker)
  {
    ExpiredNext(p, authority, sys, moves, n, m, marker);
    StoreGrows(p, authority, sys, moves, n + 1, b);
    ExpiredStays(At(p, authority, sys, moves, n + 1).store, At(p, authority, sys, moves, b).store, m, marker);
  }

  /**
   Every lookup that begins after the details of its key were expired ends, however late, with the
   recorded marker and expired details, or with an identity conflict.
   */
  lemma LookupAfterExpiry(p: Primitives, authority: Text, sys: System, moves: seq<Move>, n: nat, marker: OutcomeMarker, j: nat, a: nat, b: nat)
    requires Lawful(p) && Initial(sys) && PermittedMoves(moves) && n < a < b < |moves| && j < |sys.executors|
    requires HoldsRecord(At(p, authority, sys, moves, n).store, sys.executors[j].command.metadata, marker)
    requires moves[n] == Environment(ExpireDetails(marker.reference.key, marker.revision))
    requires moves[a] == Turn(j) && moves[b] == Turn(j) && forall k | a < k < b :: moves[k] != Turn(j)
    requires |At(p, authority, sys, moves, a).executors| == |sys.executors|
    requires var e := At(p, authority, sys, moves, a).executors[j]; e.phase.LookingUp? || e.phase.Reconciling?
    ensures |At(p, authority, sys, moves, b + 1).executors| == |sys.executors|
    ensures At(p, authority, sys, moves, b + 1).executors[j].phase == ExpiredAnswer(sys.executors[j].command.metadata, marker)
  {
    ReachableSound(p, authority, sys, moves, n);
    ScopedKey(p, authority, At(p, authority, sys, moves, n).store, sys.executors[j].command.metadata, marker);
    ExpiryTakesEffect(p, authority, sys, moves, n, sys.executors[j].command.metadata, marker, a);
    ExpiredLookupCompletes(p, authority, sys, moves, j, a, b, marker);
  }

  // ----- Retries and refusals -----

  /** At a reconciling turn: the winner if there is one, a retry exactly on a conflict with the bound not used up, and the error otherwise. */
  lemma ReconcilingAnswers(p: Primitives, authority: Text, sys: System, moves: seq<Move>, t: nat, j: nat)
    requires Lawful(p) && Initial(sys) && PermittedMoves(moves) && t < |moves| && moves[t] == Turn(j)
    requires j < |At(p, authority, sys, moves, t).executors| && At(p, authority, sys, moves, t).executors[j].phase.Reconciling?
    requires At(p, authority, sys, moves, t).executors[j].command.metadata.boundedContext.Some?
    ensures |At(p, authority, sys, moves, t + 1).executors| == |At(p, authority, sys, moves, t).executors|
    ensures var now := At(p, authority, sys, moves, t); var e := now.executors[j]; var next := At(p, authority, sys, moves, t + 1).executors[j];
      && next.command == e.command && next.evaluations == e.evaluations
      && if KeyFor(e.command.metadata) in now.store.transactions then
           next.phase.Resolving? && next.phase.replay && HoldsRecord(now.store, e.command.metadata, next.phase.marker)
         else if e.phase.error == Conflict && e.evaluations <= e.command.maximumRetries then next.phase == LookingUp
         else next.phase == Finished(Err(e.phase.error))
  {
    ReachableSound(p, authority, sys, moves, t);
    AtNext(p, authority, sys, moves, t);
    var now := At(p, authority, sys, moves, t);
    ReconcilingStep(p, authority, now.executors[j], now.store);
  }

  lemma ReconcilingStep(p: Primitives, authority: Text, e: Executor, S: State)
    requires Inv(p, authority, S) && e.phase.Reconciling? && e.command.metadata.boundedContext.Some?
    ensures var f := StepExecutor(p, authority, e, S).0;
      && f == e.(phase := f.phase)
      && if KeyFor(e.command.metadata) in S.transactions then
           f.phase.Resolving? && f.phase.replay && HoldsRecord(S, e.command.metadata, f.phase.marker)
         else if e.phase.error == Conflict && e.evaluations <= e.command.maximumRetries then f.phase == LookingUp
         else f.phase == Finished(Err(e.phase.error))
  {
    ReconcilingShape(p, authority, e, S);
    if KeyFor(e.command.metadata) in S.transactions {
      assert TransactionIntact(p, authority, S, KeyFor(e.command.metadata));
    }
  }

  lemma ReconcilingShape(p: Primitives, authority: Text, e: Executor, S: State)
    requires e.phase.Reconciling?
    ensures StepExecutor(p, authority, e, S).0 == e.(phase := LookUp(e.command.metadata, S, AfterConflict(e, e.phase.error)))
  {
  }

  /** At a lookup turn: the winner if there is one, and otherwise a new evaluation with nothing loaded yet. */
  lemma LookingUpAnswers(p: Primitives, authority: Text, e: Executor, S: State)
    requires Inv(p, authority, S) && e.phase.LookingUp? && e.command.metadata.boundedContext.Some?
    ensures var f := StepExecutor(p, authority, e, S).0;
      if KeyFor(e.command.metadata) in S.transactions then
        f == e.(phase := f.phase) && f.phase.Resolving? && f.phase.replay && HoldsRecord(S, e.command.metadata, f.phase.marker)
      else f == e.(phase := Running([]), evaluations := e.evaluations + 1)
  {
    if KeyFor(e.command.metadata) in S.transactions {
      assert TransactionIntact(p, authority, S, KeyFor(e.command.metadata));
    }
  }

  /** A command outside any bounded context is refused at its first turn, before its handler is called. */
  lemma {:induction false} ContextRequired(p: Primitives, authority: Text, sys: System, moves: seq<Move>, i: nat, b: nat)
    requires Initial(sys) && i < |sys.executors| && b <= |moves| && sys.executors[i].command.metadata.boundedContext.None?
    ensures |At(p, authority, sys, moves, b).executors| == |sys.executors|
    ensures var e := At(p, authority, sys, moves, b).executors[i];
      e.evaluations == 0 && (e.phase == LookingUp || e.phase == Finished(Err(InvalidRequest)))
      && e.command == sys.executors[i].command
  {
    CommandsFixed(p, authority, sys, moves, b);
    if b > 0 {
      ContextRequired(p, authority, sys, moves, i, b - 1);
      if moves[b - 1] == Turn(i) {
        TurnSteps(p, authority, sys, moves, b - 1, i);
        RefusedWithoutContext(p, authority, At(p, authority, sys, moves, b - 1).executors[i], At(p, authority, sys, moves, b - 1).store);
      } else {
        IdleNext(p, authority, sys, moves, b - 1, i);
      }
    }
  }

  lemma RefusedWithoutContext(p: Primitives, authority: Text, e: Executor, S: State)
    requires e.command.metadata.boundedContext.None? && (e.phase == LookingUp || e.phase == Finished(Err(InvalidRequest)))
    ensures StepExecutor(p, authority, e, S).0 == e.(phase := Finished(Err(InvalidRequest)))
  {
  }

  // ----- When an attempt is recorded -----

  lemma GuardsCurrent(p: Primitives, authority: Text, c: Command, S: State, trace: Trace)
    requires Inv(p, authority, S) && TraceStands(p, c, S, trace) && Propose(p, c, trace).Ok?
    ensures StoreAnswers.AllCurrent(S, Propose(p, c, trace).value) <==> !Outdated(S, trace)
  {
    var t := Propose(p, c, trace).value;
    ProposalGuards(p, c, trace);
    if !Outdated(S, trace) {
      forall i | 0 <= i < |t.participants|
        ensures ExpectedBase(t.participants[i].expected, |HistoryOf(S, t.participants[i].streamId)|)
      {
        var k := LoadsSound(trace, i);
        GuardBase(p, authority, c, S, trace, i, k);
      }
    } else {
      var k :| 0 <= k < |trace| && trace[k].Loaded? && |trace[k].history| < |HistoryOf(S, trace[k].stream)|;
      var i := LoadsComplete(trace, k);
      GuardBase(p, authority, c, S, trace, i, k);
    }
  }

  lemma ProposalGuards(p: Primitives, c: Command, trace: Trace)
    requires Propose(p, c, trace).Ok?
    ensures var t := Propose(p, c, trace).value;
      |t.participants| == |Loads(trace)|
      && forall i | 0 <= i < |Loads(trace)| ::
        t.participants[i].streamId == Loads(trace)[i].0 && t.participants[i].expected == ExpectedOf(VersionOf(Loads(trace)[i].1))
  {
  }

  lemma GuardBase(p: Primitives, authority: Text, c: Command, S: State, trace: Trace, i: nat, k: nat)
    requires Inv(p, authority, S) && TraceStands(p, c, S, trace)
    requires i < |Loads(trace)| && k < |trace| && trace[k].Loaded? && Loads(trace)[i] == (trace[k].stream, trace[k].history)
    ensures |trace[k].history| <= |HistoryOf(S, trace[k].stream)|
    ensures ExpectedBase(ExpectedOf(VersionOf(trace[k].history)), |HistoryOf(S, trace[k].stream)|)
      <==> |trace[k].history| == |HistoryOf(S, trace[k].stream)|
  {
    assert Stands(p, c, S, trace, k);
    ValidVersion(p, trace[k].stream, trace[k].history);
  }

  lemma ProposalAgrees(p: Primitives, c: Command, trace: Trace)
    requires Propose(p, c, trace).Ok?
    ensures Proposal.ActorsAgree(Propose(p, c, trace).value)
  {
  }

  /**
   Under a free key an attempt is recorded exactly when no stream it loaded has moved on, guards
   included, its events are new to their streams, and it is valid and fits.
   */
  lemma AttemptRecordsExactly(p: Primitives, authority: Text, e: Executor, S: State)
    requires Inv(p, authority, S) && ExecutorInv(p, S, e) && e.phase.Submitting? && KeyFor(e.command.metadata) !in S.transactions
    ensures var t := e.phase.proposal;
      KeyFor(e.command.metadata) in StepExecutor(p, authority, e, S).1.transactions <==>
        && !Outdated(S, e.phase.trace)
        && StoreAnswers.NewParticipants(p, S, t)
        && CompletedTransactionValid(p, t) && WithinItemLimit(t)
        && StoreAnswers.Fits(e.command.limits, S, t) && StoreAnswers.HeaderFits(p, authority, t)
  {
    var c, trace, t := e.command, e.phase.trace, e.phase.proposal;
    ProposalIsPermitted(p, c, trace);
    ProposalAgrees(p, c, trace);
    GuardsCurrent(p, authority, c, S, trace);
    StoreAnswers.CommitRecordsExactly(p, authority, c.limits, S, t);
    RefusedChangesNothing(p, authority, c.limits, S, t);
    RecordedKey(p, authority, c.limits, S, t);
  }

  lemma RecordedKey(p: Primitives, authority: Text, limits: Limits, S: State, t: EventTransaction)
    ensures var (T, r) := Commit(p, authority, limits, S, t); r.Ok? && !r.value.1 ==> KeyOf(t) in T.transactions
  {
  }

  // ----- Who recorded -----

  /** Executor `j` newly recorded its key at one of the first `b` moves. */
  predicate RecordedItself(p: Primitives, authority: Text, sys: System, moves: seq<Move>, j: nat, b: nat)
    requires b <= |moves|
  {
    exists n :: 0 <= n < b && RecordsAt(p, authority, sys, moves, n, j)
  }

  /** The replay flag of a phase, if it has one, is right. */
  predicate FlagRight(phase: Phase, recorded: bool) {
    match phase
    case Resolving(_, replay, _) => replay == !recorded
    case Finished(Ok(completion)) => completion.replay == !recorded
    case Finished(Err(_)) => true
    case _ => !recorded
  }

  lemma StepFlag(p: Primitives, authority: Text, e: Executor, S: State, recorded: bool)
    requires Lawful(p) && Inv(p, authority, S) && ExecutorInv(p, S, e) && FlagRight(e.phase, recorded)
    ensures var (f, T) := StepExecutor(p, authority, e, S);
      FlagRight(f.phase, recorded || (e.phase.Submitting? && KeyFor(e.command.metadata) !in S.transactions && KeyFor(e.command.metadata) in T.transactions))
  {
    if e.phase.Submitting? {
      SubmittedFlag(p, authority, e, S);
    } else if e.phase.Resolving? {
      ResolveFlag(p, authority, e.command.metadata, S, e.phase.marker, e.phase.replay, e.phase.admitted);
    } else {
      OtherFlag(p, authority, e, S);
    }
  }

  lemma SubmittedFlag(p: Primitives, authority: Text, e: Executor, S: State)
    requires Lawful(p) && Inv(p, authority, S) && ExecutorInv(p, S, e) && e.phase.Submitting?
    ensures var (f, T) := StepExecutor(p, authority, e, S);
      FlagRight(f.phase, KeyFor(e.command.metadata) !in S.transactions && KeyFor(e.command.metadata) in T.transactions)
  {
    ProposalIsPermitted(p, e.command, e.phase.trace);
    if KeyFor(e.command.metadata) !in S.transactions && KeyFor(e.command.metadata) in StepExecutor(p, authority, e, S).1.transactions {
      var marker := SubmissionBears(p, authority, S, e);
    } else {
      NotNew(p, authority, e.command.limits, S, e.phase.proposal);
    }
  }

  lemma OtherFlag(p: Primitives, authority: Text, e: Executor, S: State)
    requires FlagRight(e.phase, false) || e.phase.Finished?
    requires !e.phase.Submitting? && !e.phase.Resolving?
    ensures e.phase.Finished? ==> StepExecutor(p, authority, e, S).0 == e
    ensures !e.phase.Finished? ==> FlagRight(StepExecutor(p, authority, e, S).0.phase, false)
  {
  }

  lemma NotNew(p: Primitives, authority: Text, limits: Limits, S: State, t: EventTransaction)
    requires KeyOf(t) in S.transactions || KeyOf(t) !in Commit(p, authority, limits, S, t).0.transactions
    ensures var r := Commit(p, authority, limits, S, t).1; r.Ok? ==> r.value.1
  {
  }

  lemma ResolveFlag(p: Primitives, authority: Text, m: Metadata, S: State, marker: OutcomeMarker, replay: bool, admitted: bool)
    ensures match Resolve(p, authority, m, S, marker, replay, admitted)
      case Resolving(_, replay', _) => replay' == replay
      case Finished(Ok(completion)) => completion.replay == replay
      case Finished(Err(_)) => true
      case _ => false
  {
  }

  lemma {:induction false} FlagsRight(p: Primitives, authority: Text, sys: System, moves: seq<Move>, j: nat, b: nat)
    requires Lawful(p) && Initial(sys) && PermittedMoves(moves) && j < |sys.executors| && b <= |moves|
    ensures |At(p, authority, sys, moves, b).executors| == |sys.executors|
    ensures FlagRight(At(p, authority, sys, moves, b).executors[j].phase, RecordedItself(p, authority, sys, moves, j, b))
  {
    CommandsFixed(p, authority, sys, moves, b);
    if b > 0 {
      FlagsRight(p, authority, sys, moves, j, b - 1);
      FlagMoves(p, authority, sys, moves, j, b - 1);
      RecordedSnoc(p, authority, sys, moves, j, b - 1);
    }
  }

  lemma RecordedSnoc(p: Primitives, authority: Text, sys: System, moves: seq<Move>, j: nat, n: nat)
    requires n < |moves|
    ensures RecordedItself(p, authority, sys, moves, j, n + 1)
      <==> RecordedItself(p, authority, sys, moves, j, n) || RecordsAt(p, authority, sys, moves, n, j)
  {
  }

  lemma FlagMoves(p: Primitives, authority: Text, sys: System, moves: seq<Move>, j: nat, n: nat)
    requires Lawful(p) && Initial(sys) && PermittedMoves(moves) && j < |sys.executors| && n < |moves|
    requires |At(p, authority, sys, moves, n).executors| == |sys.executors|
    requires FlagRight(At(p, authority, sys, moves, n).executors[j].phase, RecordedItself(p, authority, sys, moves, j, n))
    ensures |At(p, authority, sys, moves, n + 1).executors| == |sys.executors|
    ensures FlagRight(At(p, authority, sys, moves, n + 1).executors[j].phase,
                      RecordedItself(p, authority, sys, moves, j, n) || RecordsAt(p, authority, sys, moves, n, j))
  {
    if moves[n] == Turn(j) {
      ReachableSound(p, authority, sys, moves, n);
      AtNext(p, authority, sys, moves, n);
      var now := At(p, authority, sys, moves, n);
      assert ExecutorInv(p, now.store, now.executors[j]);
      StepFlag(p, authority, now.executors[j], now.store, RecordedItself(p, authority, sys, moves, j, n));
    } else {
      IdleNext(p, authority, sys, moves, n, j);
    }
  }

  /** A success says truly whether it is a replay: it is one exactly if the executor did not record the key itself. */
  lemma ReplayIsTruthful(p: Primitives, authority: Text, sys: System, moves: seq<Move>, j: nat, b: nat)
    requires Lawful(p) && Initial(sys) && PermittedMoves(moves) && j < |sys.executors| && b <= |moves|
    ensures |At(p, authority, sys, moves, b).executors| == |sys.executors|
    ensures var e := At(p, authority, sys, moves, b).executors[j];
      Succeeded(e) ==> (e.phase.result.value.replay <==> !RecordedItself(p, authority, sys, moves, j, b))
  {
    FlagsRight(p, authority, sys, moves, j, b);
  }

  // ----- What the recorded events carry -----

  /** In history `g` the raised event `k` stands `k` places after `base`, recorded for the command with metadata `m`. */
  predicate RecordedFor(p: Primitives, m: Metadata, s: StreamId, base: nat, raised: seq<RaisedEvent>, g: Events, k: nat)
    requires k < |raised| && |g| == base + |raised|
  {
    var e := g[base + k];
    && e.eventType == raised[k].eventType && e.schemaVersion == raised[k].schemaVersion && e.payload == raised[k].payload
    && e.streamId == s && e.streamVersion == base + k + 1
    && e.commitId == p.ids.commit(s, m.operationId) && e.eventId == p.ids.event(e.commitId, k)
    && e.ordinal == k && e.count == |raised|
    && e.operationId == m.operationId && e.fingerprint == m.fingerprint
    && e.correlationId == m.correlationId && e.causationId == m.causationId && e.actor == m.actor
  }

  /** The history has grown by exactly the raised events, recorded for the command. */
  predicate GrownBy(p: Primitives, m: Metadata, s: StreamId, h: Events, raised: seq<RaisedEvent>, g: Events) {
    && |g| == |h| + |raised| && g[..|h|] == h
    && forall k | 0 <= k < |raised| :: RecordedFor(p, m, s, |h|, raised, g, k)
  }

  /** After an atomic execution each participant's stream has grown by exactly the events raised on it. */
  lemma RaisedIsRecorded(p: Primitives, authority: Text, c: Command, S: State, T: State, trace: Trace, k: nat)
    requires Inv(p, authority, S) && AtomicExecution(p, authority, c, S, T, trace) && k < |Loads(trace)|
    ensures var s := Loads(trace)[k].0; GrownBy(p, c.metadata, s, HistoryOf(S, s), RaisedOn(c.handler(trace), k), HistoryOf(T, s))
  {
    AtomicEffect(p, authority, c, S, T, trace);
    AdvancedCarries(p, c, S, T, Loads(trace)[k].0, RaisedOn(c.handler(trace), k));
  }

  lemma AdvancedCarries(p: Primitives, c: Command, S: State, T: State, s: StreamId, raised: seq<RaisedEvent>)
    requires StreamAdvanced(p, c, S, T, s, raised)
    ensures GrownBy(p, c.metadata, s, HistoryOf(S, s), raised, HistoryOf(T, s))
  {
    var batch := BatchFor(p, c.metadata, s, raised);
    if batch.Some? {
      BatchCarries(p, c.metadata, s, HistoryOf(S, s), raised, batch.value);
    }
  }

  lemma BatchCarries(p: Primitives, m: Metadata, s: StreamId, h: Events, raised: seq<RaisedEvent>, b: EventBatch)
    requires BatchFor(p, m, s, raised) == Some(b)
    ensures GrownBy(p, m, s, h, raised, h + Recorded(s, |h|, b))
  {
    var r := Recorded(s, |h|, b);
    forall k | 0 <= k < |raised| ensures RecordedFor(p, m, s, |h|, raised, h + r, k) {
      assert (h + r)[|h| + k] == r[k];
      assert b.events[k] == NewEventsFor(p, m, s, raised)[k];
    }
  }
}
