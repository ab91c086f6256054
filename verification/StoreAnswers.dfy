/**
 What the store answers, in terms of what its streams hold: exactly when it records, what a reused
 identity gets for ever after, and what expiry does.
 */
module StoreAnswers {
  import opened Wrappers
  import opened Identity
  import opened Records
  import opened Proposal
  import opened Receipts
  import opened Outcome
  import opened Store
  import opened StoreInvariant
  import opened StoreSteps
  import opened StoreRuns
  import History

  // ----- New and known identities -----

  /** The indexes refuse a batch exactly when its stream already holds one of its identities. */
  lemma UnknownIsNew(p: Primitives, S: State, s: StreamId, b: EventBatch)
    requires StreamIndexed(p, S, s)
    ensures (s, b.operationId) !in S.operations && (s, b.commitId) !in S.commits && !ReusesEventId(S, s, b) && DerivedBatch(p, s, b)
      <==> History.NewTo(p.ids, s, HistoryOf(S, s), b)
  {
    if History.NewTo(p.ids, s, HistoryOf(S, s), b) {
      NewIsUnknown(p, S, s, b);
    } else if (s, b.operationId) !in S.operations && (s, b.commitId) !in S.commits && !ReusesEventId(S, s, b) && DerivedBatch(p, s, b) {
      UnknownOnStream(p, S, s, b);
    }
  }

  lemma NewIsUnknown(p: Primitives, S: State, s: StreamId, b: EventBatch)
    requires StreamIndexed(p, S, s) && History.NewTo(p.ids, s, HistoryOf(S, s), b)
    ensures (s, b.operationId) !in S.operations && (s, b.commitId) !in S.commits && !ReusesEventId(S, s, b)
  {
    var h := HistoryOf(S, s);
    assert b.operationId !in OperationsIn(h) && b.commitId !in CommitsIn(h);
    forall i | 0 <= i < |b.events| ensures (s, b.events[i].eventId) !in S.eventIds {
      assert b.events[i].eventId !in EventIdsIn(h);
    }
  }

  lemma UnknownOnStream(p: Primitives, S: State, s: StreamId, b: EventBatch)
    requires StreamIndexed(p, S, s) && DerivedBatch(p, s, b)
    requires (s, b.operationId) !in S.operations && (s, b.commitId) !in S.commits && !ReusesEventId(S, s, b)
    ensures History.NewTo(p.ids, s, HistoryOf(S, s), b)
  {
    var h := HistoryOf(S, s);
    forall e | e in h
      ensures e.operationId != b.operationId && e.commitId != b.commitId
      ensures forall i | 0 <= i < |b.events| :: e.eventId != b.events[i].eventId
    {
      assert e.operationId in OperationsIn(h) && e.commitId in CommitsIn(h) && e.eventId in EventIdsIn(h);
    }
  }

  // ----- append -----

  predicate NewlyAppended(r: Result<AppendOutcome, ErrorKind>) {
    r.Ok? && !r.value.replay
  }

  /** The batch is derived and new to its stream, expects the stream's length, and fits. */
  predicate Appendable(p: Primitives, limits: Limits, S: State, s: StreamId, expected: ExpectedVersion, b: EventBatch) {
    var h := HistoryOf(S, s);
    && History.NewTo(p.ids, s, h, b)
    && ExpectedBase(expected, |h|)
    && S.eventCount + |b.events| <= limits.maximumEvents && |h| + |b.events| <= U64_MAX
  }

  /** An append records exactly an appendable batch, and then its events stand after what was there. */
  lemma AppendRecordsExactly(p: Primitives, limits: Limits, S: State, s: StreamId, expected: ExpectedVersion, b: EventBatch)
    requires Indexed(p, S)
    ensures var (T, r) := Append(p, limits, S, s, expected, b);
      && (NewlyAppended(r) <==> Appendable(p, limits, S, s, expected, b))
      && (NewlyAppended(r) ==> r.value.events == Recorded(s, |HistoryOf(S, s)|, b) && HistoryOf(T, s) == HistoryOf(S, s) + r.value.events
                               && T.eventCount <= limits.maximumEvents)
      && (!NewlyAppended(r) ==> T == S)
  {
    assert StreamIndexed(p, S, s);
    VersionIsLength(p, S, s);
    UnknownIsNew(p, S, s, b);
  }

  /** A version conflict means that the expectation is not the stream's length. */
  lemma AppendConflictIsStale(p: Primitives, limits: Limits, S: State, s: StreamId, expected: ExpectedVersion, b: EventBatch)
    requires Indexed(p, S) && Append(p, limits, S, s, expected, b).1 == Err(Conflict)
    ensures !ExpectedBase(expected, |HistoryOf(S, s)|)
  {
    assert StreamIndexed(p, S, s);
    VersionIsLength(p, S, s);
  }

  lemma EnteredDirectly(p: Primitives, limits: Limits, S: State, s: StreamId, expected: ExpectedVersion, b: EventBatch)
    requires NewlyAppended(Append(p, limits, S, s, expected, b).1)
    ensures var (T, r) := Append(p, limits, S, s, expected, b);
      (s, b.operationId) in T.operations && T.operations[(s, b.operationId)] == StoredAppend(b, r.value.events, Direct)
  {
  }

  /**
   After a newly recorded direct append and any further operations, another append under its
   operation identity changes nothing: the equal batch gets the original events as a replay, any
   other batch an identity conflict, whatever versions and limits.
   */
  lemma PermanentDirectAnswer(p: Primitives, authority: Text, limits: Limits, S: State, s: StreamId, expected: ExpectedVersion, b: EventBatch,
                              ops: seq<Operation>, limits': Limits, expected': ExpectedVersion, b': EventBatch)
    requires Lawful(p) && Inv(p, authority, S) && AllPermitted(ops) && AdmissibleEvents(b.events)
    requires NewlyAppended(Append(p, limits, S, s, expected, b).1) && b'.operationId == b.operationId
    ensures var (T, r) := Append(p, limits, S, s, expected, b); var U := PerformAll(p, authority, T, ops);
      Append(p, limits', U, s, expected', b') == (U, if b' == b then Ok(AppendOutcome(r.value.events, true)) else Err(IdentityConflict))
  {
    var T := Append(p, limits, S, s, expected, b).0;
    AppendKeeps(p, authority, limits, S, s, expected, b);
    EnteredDirectly(p, limits, S, s, expected, b);
    RunKeeps(p, authority, T, ops);
    DirectAnswer(p, limits', PerformAll(p, authority, T, ops), s, expected', b', b, Append(p, limits, S, s, expected, b).1.value.events);
  }

  lemma DirectAnswer(p: Primitives, limits: Limits, U: State, s: StreamId, expected: ExpectedVersion, b': EventBatch, b: EventBatch, events: seq<RecordedEvent>)
    requires b'.operationId == b.operationId
    requires (s, b.operationId) in U.operations && U.operations[(s, b.operationId)] == StoredAppend(b, events, Direct)
    ensures Append(p, limits, U, s, expected, b') == (U, if b' == b then Ok(AppendOutcome(events, true)) else Err(IdentityConflict))
  {
  }

  /** An operation that a recorded transaction entered into a stream is closed to direct appends for ever. */
  lemma TransactionOperationConflicts(p: Primitives, authority: Text, limits: Limits, S: State, t: EventTransaction, ops: seq<Operation>, i: nat,
                                      limits': Limits, expected': ExpectedVersion, b': EventBatch)
    requires Lawful(p) && Inv(p, authority, S) && AllPermitted(ops) && RecordedIn(p, authority, limits, S, t)
    requires i < |t.participants| && t.participants[i].batch.Some? && b'.operationId == t.operationId
    ensures var U := PerformAll(p, authority, Transact(p, authority, limits, S, t).0, ops);
      Append(p, limits', U, t.participants[i].streamId, expected', b') == (U, Err(IdentityConflict))
  {
    var T := Transact(p, authority, limits, S, t).0;
    RecordedAdmitted(p, authority, limits, S, t);
    TransactKeeps(p, authority, limits, S, t);
    CommittedRecords(p, authority, limits, S, t);
    CommittedFollows(p, authority, S, t);
    AdmittedBatches(p, authority, limits, S, t);
    var R := RecordParticipants(S, t.participants, |t.participants|);
    assert ParticipantRecorded(S, R, t.participants[i]);
    RunKeeps(p, authority, T, ops);
    TransactionAnswer(p, limits', PerformAll(p, authority, T, ops), t.participants[i].streamId, expected', b');
  }

  lemma TransactionAnswer(p: Primitives, limits: Limits, U: State, s: StreamId, expected: ExpectedVersion, b': EventBatch)
    requires (s, b'.operationId) in U.operations && U.operations[(s, b'.operationId)].provenance.ByTransaction?
    ensures Append(p, limits, U, s, expected, b') == (U, Err(IdentityConflict))
  {
  }

  lemma RecordedAdmitted(p: Primitives, authority: Text, limits: Limits, S: State, t: EventTransaction)
    requires RecordedIn(p, authority, limits, S, t)
    ensures Admitted(p, authority, limits, S, t) && Transact(p, authority, limits, S, t).0 == After(p, authority, S, t)
  {
  }

  // ----- append_transaction_inner -----

  /** Participants are distinct streams; each batch belongs to the transaction and is derived and new to its stream. */
  predicate NewParticipants(p: Primitives, S: State, t: EventTransaction) {
    && (forall i, j | 0 <= i < j < |t.participants| :: t.participants[i].streamId != t.participants[j].streamId)
    && forall i | 0 <= i < |t.participants| && t.participants[i].batch.Some? ::
         BatchOfTransaction(t, t.participants[i].batch.value)
         && History.NewTo(p.ids, t.participants[i].streamId, HistoryOf(S, t.participants[i].streamId), t.participants[i].batch.value)
  }

  /** Every participant, guard or not, expects the length of its stream. */
  predicate AllCurrent(S: State, t: EventTransaction) {
    forall i | 0 <= i < |t.participants| :: ExpectedBase(t.participants[i].expected, |HistoryOf(S, t.participants[i].streamId)|)
  }

  predicate Fits(limits: Limits, S: State, t: EventTransaction) {
    && |S.transactions| < limits.maximumOutcomes
    && S.eventCount + EventTotal(t.participants) <= limits.maximumEvents
    && forall i | 0 <= i < |t.participants| && t.participants[i].batch.Some? ::
         |HistoryOf(S, t.participants[i].streamId)| + |t.participants[i].batch.value.events| <= U64_MAX
  }

  lemma {:induction false} ParticipantsPass(p: Primitives, S: State, t: EventTransaction, n: nat)
    requires n <= |t.participants|
    requires forall i | 0 <= i < n ::
      !RepeatsStream(t.participants, i)
      && (t.participants[i].batch.Some? ==> BatchError(p, S, t, t.participants[i].streamId, t.participants[i].batch.value).None?)
    ensures ParticipantsError(p, S, t, n).None?
  {
    if n > 0 {
      ParticipantsPass(p, S, t, n - 1);
    }
  }

  lemma BatchPasses(p: Primitives, S: State, t: EventTransaction, s: StreamId, b: EventBatch)
    requires StreamIndexed(p, S, s)
    ensures BatchError(p, S, t, s, b).None? <==> BatchOfTransaction(t, b) && History.NewTo(p.ids, s, HistoryOf(S, s), b)
  {
    UnknownIsNew(p, S, s, b);
  }

  lemma ParticipantsExact(p: Primitives, S: State, t: EventTransaction)
    requires Indexed(p, S)
    ensures ParticipantsError(p, S, t, |t.participants|).None? <==> NewParticipants(p, S, t)
  {
    var ps := t.participants;
    forall i | 0 <= i < |ps| && ps[i].batch.Some?
      ensures BatchError(p, S, t, ps[i].streamId, ps[i].batch.value).None?
        <==> BatchOfTransaction(t, ps[i].batch.value) && History.NewTo(p.ids, ps[i].streamId, HistoryOf(S, ps[i].streamId), ps[i].batch.value)
    {
      assert StreamIndexed(p, S, ps[i].streamId);
      BatchPasses(p, S, t, ps[i].streamId, ps[i].batch.value);
    }
    if ParticipantsError(p, S, t, |ps|).None? {
      ParticipantsClear(p, S, t, |ps|);
      forall i, j | 0 <= i < j < |ps| ensures ps[i].streamId != ps[j].streamId {
        assert !RepeatsStream(ps, j);
      }
    }
    if NewParticipants(p, S, t) {
      ParticipantsPass(p, S, t, |ps|);
    }
  }

  lemma VersionsExact(p: Primitives, S: State, t: EventTransaction)
    requires Indexed(p, S)
    ensures VersionsError(S, t.participants, |t.participants|).None? <==> AllCurrent(S, t)
    ensures VersionSpaceSuffices(S, t.participants) <==>
      forall i | 0 <= i < |t.participants| && t.participants[i].batch.Some? ::
        |HistoryOf(S, t.participants[i].streamId)| + |t.participants[i].batch.value.events| <= U64_MAX
  {
    VersionsAreLengths(p, S);
    VersionsClear(S, t.participants, |t.participants|);
  }

  /** Admission is exact: nothing is refused that is new, current and fits, and nothing else is let through. */
  lemma AdmissionExact(p: Primitives, limits: Limits, S: State, t: EventTransaction)
    requires Indexed(p, S)
    ensures AdmissionError(p, limits, S, t).None? <==> NewParticipants(p, S, t) && AllCurrent(S, t) && Fits(limits, S, t)
  {
    ParticipantsExact(p, S, t);
    VersionsExact(p, S, t);
  }

  predicate HeaderFits(p: Primitives, authority: Text, t: EventTransaction) {
    t.boundedContext.Some? ==>
      |p.headerJson(HeaderOf(t.completion, OutcomeKey(authority, t.boundedContext.value, t.operationId), t.securityScope, t.actor))| <= U32_MAX
  }

  /** A transaction is newly recorded exactly when its key is free and it is well attributed, new, current and fits. */
  lemma TransactRecordsExactly(p: Primitives, authority: Text, limits: Limits, S: State, t: EventTransaction)
    requires Indexed(p, S) && WellFormedTransaction(t) && (t.completion.Some? ==> CompletedTransactionValid(p, t))
    ensures var r := Transact(p, authority, limits, S, t).1;
      r.Ok? && !r.value.1 <==>
        && KeyOf(t) !in S.transactions && WithinItemLimit(t) && ActorsAgree(t)
        && NewParticipants(p, S, t) && AllCurrent(S, t) && Fits(limits, S, t) && HeaderFits(p, authority, t)
  {
    AdmissionExact(p, limits, S, t);
    if WithinItemLimit(t) && ActorsAgree(t) && AdmissionError(p, limits, S, t).None? {
      PreparationFailsOnlyOnEncoding(p, authority, limits, S, t);
    }
    TransactShape(p, authority, limits, S, t);
  }

  lemma TransactShape(p: Primitives, authority: Text, limits: Limits, S: State, t: EventTransaction)
    ensures var r := Transact(p, authority, limits, S, t).1;
      r.Ok? && !r.value.1 <==>
        && WithinItemLimit(t) && ActorsAgree(t) && KeyOf(t) !in S.transactions
        && AdmissionError(p, limits, S, t).None? && RecordOf(p, authority, S, t).Ok?
  {
  }

  /** The same at the commit of a command, which also refuses an invalid completion. */
  lemma CommitRecordsExactly(p: Primitives, authority: Text, limits: Limits, S: State, t: EventTransaction)
    requires Indexed(p, S) && WellFormedTransaction(t)
    ensures var r := Commit(p, authority, limits, S, t).1;
      r.Ok? && !r.value.1 <==>
        && CompletedTransactionValid(p, t)
        && KeyOf(t) !in S.transactions && WithinItemLimit(t) && ActorsAgree(t)
        && NewParticipants(p, S, t) && AllCurrent(S, t) && Fits(limits, S, t) && HeaderFits(p, authority, t)
  {
    if CompletedTransactionValid(p, t) {
      TransactRecordsExactly(p, authority, limits, S, t);
    }
  }

  /** A handle never records beyond its own limits. */
  lemma RecordedWithinLimits(p: Primitives, authority: Text, limits: Limits, S: State, t: EventTransaction)
    requires Indexed(p, S) && RecordedIn(p, authority, limits, S, t)
    ensures var T := Transact(p, authority, limits, S, t).0;
      T.eventCount == S.eventCount + EventTotal(t.participants) <= limits.maximumEvents && |T.transactions| <= limits.maximumOutcomes
  {
    TransactRecordsExactly(p, authority, limits, S, t);
    RecordedAdmitted(p, authority, limits, S, t);
  }

  // ----- expire_details -----

  /** The record under the addressed key, if any. */
  function RecordFor(S: State, key: OutcomeKey): Option<OutcomeMarker> {
    var k: TransactionKey := (Some(key.context), key.operationId);
    if k in S.transactions && S.transactions[k].Scoped? then Some(S.transactions[k].marker) else None
  }

  /**
   Expiry expires: it succeeds exactly for a key of this authority whose record has the given
   revision, and then that record's slot is expired and nothing else differs; otherwise nothing changes.
   */
  lemma ExpiryExact(p: Primitives, authority: Text, S: State, key: OutcomeKey, revision: Text)
    requires Inv(p, authority, S)
    ensures var (T, error) := Expire(authority, S, key, revision); var record := RecordFor(S, key);
      && (error.None? <==> key.authority == authority && record.Some? && record.value.revision == revision)
      && (error.None? ==>
            && record.value.reference in S.details && record.value.reference in T.details
            && T.details[record.value.reference].Expired?
            && T.details.Keys == S.details.Keys
            && (forall ref | ref in S.details && ref != record.value.reference :: T.details[ref] == S.details[ref])
            && T.(details := S.details) == S)
      && (error.Some? ==> T == S)
      && (error == Some(RevisionMismatch) <==> key.authority == authority && record.Some? && record.value.revision != revision)
      && (error == Some(Missing) <==> key.authority == authority && record.None?)
  {
    var k: TransactionKey := (Some(key.context), key.operationId);
    if k in S.transactions {
      assert TransactionIntact(p, authority, S, k);
    }
  }
}
