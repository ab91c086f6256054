/** Every store mutation keeps the invariant, changes nothing on error and only ever adds. */
module StoreSteps {
  import opened Wrappers
  import opened Identity
  import opened Records
  import opened Proposal
  import opened Receipts
  import opened Outcome
  import opened Store
  import opened StoreInvariant
  import History

  lemma AppliedKept(S: State, T: State, op: Text, sr: StreamReceipt)
    requires Evolves(S, T) && Applied(S, op, sr)
    ensures Applied(T, op, sr)
  {
    var g, h := HistoryOf(S, sr.streamId), HistoryOf(T, sr.streamId);
    assert g <= h;
    assert h[sr.baseVersion..sr.baseVersion + |sr.events|] == g[sr.baseVersion..sr.baseVersion + |sr.events|];
  }

  /** A recorded transaction stays intact while the store evolves. */
  lemma IntactKept(p: Primitives, authority: Text, S: State, T: State, k: TransactionKey)
    requires k in S.transactions && TransactionIntact(p, authority, S, k) && Evolves(S, T)
    ensures TransactionIntact(p, authority, T, k)
  {
    var r := S.transactions[k].Receipt();
    forall i | 0 <= i < |r.streams| ensures Applied(T, r.operationId, r.streams[i]) {
      AppliedKept(S, T, r.operationId, r.streams[i]);
    }
  }

  lemma EntryKept(S: State, T: State, s: StreamId, op: Text)
    requires Evolves(S, T) && (s, op) in S.operations && exists k, i :: EnteredBy(S, s, op, k, i)
    ensures exists k, i :: EnteredBy(T, s, op, k, i)
  {
    var k, i :| EnteredBy(S, s, op, k, i);
    assert EnteredBy(T, s, op, k, i);
  }

  // ----- append -----

  /** The indexes look at no other part of the state. */
  lemma SameIndexes(p: Primitives, S: State, T: State)
    requires Indexed(p, S)
    requires T.streams == S.streams && T.operations == S.operations && T.commits == S.commits && T.eventIds == S.eventIds
    ensures Indexed(p, T)
  {
    forall s ensures StreamIndexed(p, T, s) {
      assert StreamIndexed(p, S, s);
      UntouchedIndexed(p, S, T, s);
    }
  }

  lemma VersionsAreLengths(p: Primitives, S: State)
    requires Indexed(p, S)
    ensures forall s :: CurrentVersion(S, s) == |HistoryOf(S, s)|
  {
    forall s ensures CurrentVersion(S, s) == |HistoryOf(S, s)| {
      assert StreamIndexed(p, S, s);
      VersionIsLength(p, S, s);
    }
  }

  lemma RecordIntoEvolves(S: State, s: StreamId, b: EventBatch, events: seq<RecordedEvent>, prov: Provenance, count: nat)
    requires (s, b.operationId) !in S.operations
    ensures Evolves(S, RecordInto(S, s, b, events, prov).(eventCount := count))
  {
  }

  lemma AppendKeeps(p: Primitives, authority: Text, limits: Limits, S: State, s: StreamId, expected: ExpectedVersion, b: EventBatch)
    requires Inv(p, authority, S) && AdmissibleEvents(b.events)
    ensures var T := Append(p, limits, S, s, expected, b).0; Inv(p, authority, T) && Evolves(S, T)
  {
    if (s, b.operationId) !in S.operations && AppendError(p, limits, S, s, expected, b).None? {
      VersionsAreLengths(p, S);
      AppendEnters(p, limits, S, s, expected, b);
      var R := RecordInto(S, s, b, Recorded(s, |HistoryOf(S, s)|, b), Direct);
      AppendedKeeps(p, authority, S, s, b, R, Append(p, limits, S, s, expected, b).0);
    } else {
      NothingEvolves(S);
    }
  }

  lemma AppendEnters(p: Primitives, limits: Limits, S: State, s: StreamId, expected: ExpectedVersion, b: EventBatch)
    requires CurrentVersion(S, s) == |HistoryOf(S, s)| && AdmissibleEvents(b.events)
    requires (s, b.operationId) !in S.operations && AppendError(p, limits, S, s, expected, b).None?
    ensures Enters(p, S, s, b)
    ensures Append(p, limits, S, s, expected, b).0
      == RecordInto(S, s, b, Recorded(s, |HistoryOf(S, s)|, b), Direct).(eventCount := S.eventCount + |b.events|)
  {
  }

  /** `R` is `S` with the batch recorded directly, and `T` is `R` with the event count moved on. */
  ghost predicate Appended(S: State, s: StreamId, b: EventBatch, R: State, T: State) {
    && R == RecordInto(S, s, b, Recorded(s, |HistoryOf(S, s)|, b), Direct)
    && T == R.(eventCount := S.eventCount + |b.events|)
  }

  lemma AppendedKeeps(p: Primitives, authority: Text, S: State, s: StreamId, b: EventBatch, R: State, T: State)
    requires Inv(p, authority, S) && Enters(p, S, s, b) && Appended(S, s, b, R, T)
    ensures Inv(p, authority, T) && Evolves(S, T)
  {
    AppendedIndexed(p, S, s, b, R, T);
    AppendedLedger(p, authority, S, s, b, R, T);
    CountedInv(p, authority, S, R, T, |b.events|);
  }

  lemma AppendedIndexed(p: Primitives, S: State, s: StreamId, b: EventBatch, R: State, T: State)
    requires Indexed(p, S) && Enters(p, S, s, b) && Appended(S, s, b, R, T)
    ensures Indexed(p, R) && TotalEvents(R.streams) == TotalEvents(S.streams) + |b.events|
  {
    RecordIntoKeepsIndexed(p, S, s, b, Direct);
  }

  lemma AppendedLedger(p: Primitives, authority: Text, S: State, s: StreamId, b: EventBatch, R: State, T: State)
    requires Ledger(p, authority, S) && (s, b.operationId) !in S.operations && Appended(S, s, b, R, T)
    ensures Ledger(p, authority, T) && Evolves(S, T)
  {
    RecordIntoEvolves(S, s, b, Recorded(s, |HistoryOf(S, s)|, b), Direct, S.eventCount + |b.events|);
    DirectKeepsLedger(p, authority, S, T, s, b.operationId);
  }

  lemma CountedInv(p: Primitives, authority: Text, S: State, R: State, T: State, added: nat)
    requires S.eventCount == TotalEvents(S.streams) && TotalEvents(R.streams) == TotalEvents(S.streams) + added
    requires Indexed(p, R) && T == R.(eventCount := S.eventCount + added) && Ledger(p, authority, T)
    ensures Inv(p, authority, T)
  {
    SameIndexes(p, R, T);
  }

  lemma DirectKeepsLedger(p: Primitives, authority: Text, S: State, T: State, s: StreamId, op: Text)
    requires Ledger(p, authority, S) && Evolves(S, T)
    requires T.transactions == S.transactions && T.details == S.details
    requires forall key | key in T.operations :: key in S.operations || (key == (s, op) && T.operations[key].provenance.Direct?)
    ensures Ledger(p, authority, T)
  {
    forall k | k in T.transactions ensures TransactionIntact(p, authority, T, k) {
      IntactKept(p, authority, S, T, k);
    }
    forall ref | ref in T.details ensures SlotOwned(T, ref) {
      assert SlotOwned(S, ref);
    }
    forall s', op' | (s', op') in T.operations && T.operations[(s', op')].provenance.ByTransaction?
      ensures exists k, i :: EnteredBy(T, s', op', k, i)
    {
      EntryKept(S, T, s', op');
    }
  }

  // ----- append_transaction_inner -----

  lemma {:induction false} ParticipantsClear(p: Primitives, S: State, t: EventTransaction, n: nat)
    requires n <= |t.participants| && ParticipantsError(p, S, t, n).None?
    ensures forall i | 0 <= i < n ::
      !RepeatsStream(t.participants, i)
      && (t.participants[i].batch.Some? ==> BatchError(p, S, t, t.participants[i].streamId, t.participants[i].batch.value).None?)
  {
    if n > 0 {
      ParticipantsClear(p, S, t, n - 1);
    }
  }

  lemma {:induction false} VersionsClear(S: State, ps: seq<Participant>, n: nat)
    requires n <= |ps|
    ensures VersionsError(S, ps, n).None? <==>
      forall i | 0 <= i < n :: ExpectedError(ps[i].expected, CurrentVersion(S, ps[i].streamId)).None?
  {
    if n > 0 {
      VersionsClear(S, ps, n - 1);
    }
  }

  /** A transaction the store admits yields a receipt that both receipt validators accept. */
  lemma AdmittedReceiptMatches(p: Primitives, limits: Limits, S: State, t: EventTransaction)
    requires WellFormedTransaction(t) && WithinItemLimit(t) && AdmissionError(p, limits, S, t).None?
    requires t.completion.Some? ==> CompletedTransactionValid(p, t)
    ensures MatchesProposal(p, ReceiptFor(S, t), t)
  {
    AdmittedProper(p, S, t);
    AdmittedBases(S, t);
    BuiltReceiptMatches(p, t, Bases(S, t.participants));
  }

  lemma AdmittedProper(p: Primitives, S: State, t: EventTransaction)
    requires ParticipantsError(p, S, t, |t.participants|).None?
    ensures ProperParticipants(p, t)
  {
    var ps := t.participants;
    ParticipantsClear(p, S, t, |ps|);
    forall i, j | 0 <= i < j < |ps| ensures ps[i].streamId != ps[j].streamId {
      assert !RepeatsStream(ps, j);
    }
  }

  lemma AdmittedBases(S: State, t: EventTransaction)
    requires VersionsError(S, t.participants, |t.participants|).None? && VersionSpaceSuffices(S, t.participants)
    ensures BasesFit(t, Bases(S, t.participants))
  {
    VersionsClear(S, t.participants, |t.participants|);
  }

  /** So preparing the marker fails only when the detail header outgrows its 32-bit length. */
  lemma PreparationFailsOnlyOnEncoding(p: Primitives, authority: Text, limits: Limits, S: State, t: EventTransaction)
    requires WellFormedTransaction(t) && WithinItemLimit(t) && ActorsAgree(t) && AdmissionError(p, limits, S, t).None?
    requires t.completion.Some? ==> CompletedTransactionValid(p, t)
    ensures RecordOf(p, authority, S, t).Ok? <==>
      t.boundedContext.Some? ==>
        |p.headerJson(HeaderOf(t.completion, OutcomeKey(authority, t.boundedContext.value, t.operationId), t.securityScope, t.actor))| <= U32_MAX
    ensures RecordOf(p, authority, S, t).Err? ==> RecordOf(p, authority, S, t).error == CorruptHistory
  {
    AdmittedReceiptMatches(p, limits, S, t);
  }

  /** What recording a transaction does to the stream of participant `x`. */
  ghost predicate ParticipantRecorded(S: State, T: State, x: Participant) {
    var h := HistoryOf(S, x.streamId);
    && HistoryOf(T, x.streamId) == h + EventsOf(x, |h|)
    && (forall o | (x.streamId, o) in T.operations && !(x.batch.Some? && o == x.batch.value.operationId) ::
          (x.streamId, o) in S.operations)
    && (forall o | (x.streamId, o) in S.operations ::
          (x.streamId, o) in T.operations && T.operations[(x.streamId, o)] == S.operations[(x.streamId, o)])
    && (x.batch.Some? ==>
          (x.streamId, x.batch.value.operationId) in T.operations
          && T.operations[(x.streamId, x.batch.value.operationId)] == StoredAppend(x.batch.value, EventsOf(x, |h|), ByTransaction))
  }

  predicate Among(ps: seq<Participant>, n: nat, s: StreamId)
    requires n <= |ps|
  {
    exists i :: 0 <= i < n && ps[i].streamId == s
  }

  /** The state after the first `n` participants: theirs recorded, every other stream untouched. */
  ghost predicate RecordedUpTo(p: Primitives, S: State, T: State, ps: seq<Participant>, n: nat)
    requires n <= |ps|
  {
    && Indexed(p, T)
    && T.transactions == S.transactions && T.details == S.details && T.eventCount == S.eventCount
    && (forall s | !Among(ps, n, s) :: Untouched(S, T, s))
    && (forall i | 0 <= i < n :: ParticipantRecorded(S, T, ps[i]))
  }

  lemma {:induction false} EventTotalSnoc(ps: seq<Participant>, n: nat)
    requires n < |ps|
    ensures EventTotal(ps[..n + 1]) == EventTotal(ps[..n]) + (if ps[n].batch.Some? then |ps[n].batch.value.events| else 0)
  {
    if n > 0 {
      EventTotalSnoc(ps[1..], n - 1);
      assert ps[1..][..n] == ps[..n + 1][1..] && ps[1..][..n - 1] == ps[..n][1..];
    } else {
      assert ps[..1][1..] == [];
    }
  }

  lemma RecordedElsewhere(S: State, T: State, U: State, x: Participant)
    requires ParticipantRecorded(S, T, x) && Untouched(T, U, x.streamId)
    ensures ParticipantRecorded(S, U, x)
  {
  }

  lemma UntouchedTransitive(S: State, T: State, U: State, s: StreamId)
    requires Untouched(S, T, s) && Untouched(T, U, s)
    ensures Untouched(S, U, s)
  {
  }

  lemma EntersKept(p: Primitives, S: State, T: State, t: EventTransaction, s: StreamId, b: EventBatch)
    requires BatchError(p, S, t, s, b).None? && Untouched(S, T, s) && AdmissibleEvents(b.events)
    requires |HistoryOf(S, s)| + |b.events| <= U64_MAX
    ensures Enters(p, T, s, b)
  {
  }

  lemma NothingRecorded(p: Primitives, S: State, ps: seq<Participant>)
    requires Indexed(p, S)
    ensures RecordedUpTo(p, S, S, ps, 0)
  {
    forall s ensures Untouched(S, S, s) {
    }
  }

  /** Nothing can refuse the participants any more. */
  ghost predicate Recordable(p: Primitives, S: State, t: EventTransaction) {
    && Indexed(p, S) && WellFormedTransaction(t)
    && ParticipantsError(p, S, t, |t.participants|).None? && VersionSpaceSuffices(S, t.participants)
  }

  /** One more participant recorded, at the version found in `S`. */
  function RecordOne(S: State, T: State, x: Participant): State {
    match x.batch
    case None => T
    case Some(b) => RecordInto(T, x.streamId, b, EventsOf(x, CurrentVersion(S, x.streamId)), ByTransaction)
  }

  /** The states form a chain of single recordings. */
  predicate Linked(S: State, ps: seq<Participant>, states: seq<State>, i: nat)
    requires i < |ps| && |states| == |ps| + 1
  {
    states[i + 1] == RecordOne(S, states[i], ps[i])
  }

  lemma {:induction false} ChainRecords(p: Primitives, S: State, t: EventTransaction, states: seq<State>, n: nat)
    requires Recordable(p, S, t) && n <= |t.participants| && |states| == |t.participants| + 1 && states[0] == S
    requires forall i | 0 <= i < |t.participants| :: Linked(S, t.participants, states, i)
    ensures RecordedUpTo(p, S, states[n], t.participants, n)
  {
    if n == 0 {
      NothingRecorded(p, S, t.participants);
    } else {
      ChainRecords(p, S, t, states, n - 1);
      assert Linked(S, t.participants, states, n - 1);
      RecordOneMore(p, S, states[n - 1], states[n], t, n - 1);
    }
  }

  lemma RecordParticipantsKeeps(p: Primitives, S: State, t: EventTransaction)
    requires Recordable(p, S, t)
    ensures RecordedUpTo(p, S, RecordParticipants(S, t.participants, |t.participants|), t.participants, |t.participants|)
  {
    var ps := t.participants;
    var states := seq(|ps| + 1, i requires 0 <= i <= |ps| => RecordParticipants(S, ps, i));
    forall i | 0 <= i < |ps| ensures Linked(S, ps, states, i) {
      RecordsNext(S, ps, i);
    }
    ChainRecords(p, S, t, states, |ps|);
  }

  lemma RecordsNext(S: State, ps: seq<Participant>, i: nat)
    requires i < |ps|
    ensures RecordParticipants(S, ps, i + 1) == RecordOne(S, RecordParticipants(S, ps, i), ps[i])
  {
  }

  /** Recording moves the event total by exactly the transaction's events. */
  lemma {:induction false} RecordedTotal(S: State, ps: seq<Participant>, n: nat)
    requires n <= |ps|
    ensures TotalEvents(RecordParticipants(S, ps, n).streams) == TotalEvents(S.streams) + EventTotal(ps[..n])
  {
    if n > 0 {
      RecordedTotal(S, ps, n - 1);
      EventTotalSnoc(ps, n - 1);
      var x := ps[n - 1];
      TotalGrows(RecordParticipants(S, ps, n - 1), x.streamId, EventsOf(x, CurrentVersion(S, x.streamId)));
    }
  }

  lemma RecordOneMore(p: Primitives, S: State, T: State, U: State, t: EventTransaction, n: nat)
    requires Recordable(p, S, t) && n < |t.participants|
    requires RecordedUpTo(p, S, T, t.participants, n) && U == RecordOne(S, T, t.participants[n])
    ensures RecordedUpTo(p, S, U, t.participants, n + 1)
  {
    var ps := t.participants;
    var x := ps[n];
    ParticipantsClear(p, S, t, |ps|);
    assert !RepeatsStream(ps, n);
    VersionsAreLengths(p, S);
    if x.batch.None? {
      GuardRecorded(p, S, T, ps, n);
    } else {
      BatchRecorded(p, S, T, t, n);
    }
  }

  lemma GuardRecorded(p: Primitives, S: State, T: State, ps: seq<Participant>, n: nat)
    requires n < |ps| && RecordedUpTo(p, S, T, ps, n) && ps[n].batch.None? && !RepeatsStream(ps, n)
    ensures RecordedUpTo(p, S, T, ps, n + 1)
  {
    var x := ps[n];
    var h := HistoryOf(S, x.streamId);
    assert !Among(ps, n, x.streamId);
    assert Untouched(S, T, x.streamId);
    assert h + EventsOf(x, |h|) == h;
    assert ParticipantRecorded(S, T, x);
    forall s | !Among(ps, n + 1, s) ensures Untouched(S, T, s) {
      assert !Among(ps, n, s);
    }
  }

  lemma BatchRecorded(p: Primitives, S: State, T: State, t: EventTransaction, n: nat)
    requires n < |t.participants| && RecordedUpTo(p, S, T, t.participants, n)
    requires t.participants[n].batch.Some? && !RepeatsStream(t.participants, n)
    requires var x := t.participants[n]; var b := x.batch.value;
      && BatchError(p, S, t, x.streamId, b).None? && AdmissibleEvents(b.events)
      && |HistoryOf(S, x.streamId)| + |b.events| <= U64_MAX
    ensures var x := t.participants[n];
      RecordedUpTo(p, S, RecordInto(T, x.streamId, x.batch.value, EventsOf(x, |HistoryOf(S, x.streamId)|), ByTransaction), t.participants, n + 1)
  {
    var ps := t.participants;
    var x := ps[n];
    var s, b := x.streamId, x.batch.value;
    var r := EventsOf(x, |HistoryOf(S, s)|);
    var U := RecordInto(T, s, b, r, ByTransaction);
    assert !Among(ps, n, s);
    EnterUntouched(p, S, T, t, x);
    OthersKept(S, T, ps, n, b, r);
  }

  lemma EnterUntouched(p: Primitives, S: State, T: State, t: EventTransaction, x: Participant)
    requires Indexed(p, T) && Untouched(S, T, x.streamId) && x.batch.Some?
    requires BatchError(p, S, t, x.streamId, x.batch.value).None? && AdmissibleEvents(x.batch.value.events)
    requires |HistoryOf(S, x.streamId)| + |x.batch.value.events| <= U64_MAX
    ensures var U := RecordInto(T, x.streamId, x.batch.value, EventsOf(x, |HistoryOf(S, x.streamId)|), ByTransaction);
      && Indexed(p, U)
      && ParticipantRecorded(S, U, x)
  {
    EntersKept(p, S, T, t, x.streamId, x.batch.value);
    RecordIntoKeepsIndexed(p, T, x.streamId, x.batch.value, ByTransaction);
    RecordedHere(S, T, x);
  }

  lemma OthersKept(S: State, T: State, ps: seq<Participant>, n: nat, b: EventBatch, r: seq<RecordedEvent>)
    requires n < |ps| && !RepeatsStream(ps, n)
    requires forall s | !Among(ps, n, s) :: Untouched(S, T, s)
    requires forall i | 0 <= i < n :: ParticipantRecorded(S, T, ps[i])
    ensures var U := RecordInto(T, ps[n].streamId, b, r, ByTransaction);
      && (forall s | !Among(ps, n + 1, s) :: Untouched(S, U, s))
      && (forall i | 0 <= i < n :: ParticipantRecorded(S, U, ps[i]))
  {
    var U := RecordInto(T, ps[n].streamId, b, r, ByTransaction);
    forall i | 0 <= i < n ensures ParticipantRecorded(S, U, ps[i]) {
      RecordIntoElsewhere(T, ps[n].streamId, b, r, ByTransaction, ps[i].streamId);
      RecordedElsewhere(S, T, U, ps[i]);
    }
    forall s | !Among(ps, n + 1, s) ensures Untouched(S, U, s) {
      assert ps[n].streamId != s && !Among(ps, n, s);
      RecordIntoElsewhere(T, ps[n].streamId, b, r, ByTransaction, s);
      UntouchedTransitive(S, T, U, s);
    }
  }

  lemma RecordedHere(S: State, T: State, x: Participant)
    requires Untouched(S, T, x.streamId) && x.batch.Some? && (x.streamId, x.batch.value.operationId) !in S.operations
    ensures var r := EventsOf(x, |HistoryOf(S, x.streamId)|);
      ParticipantRecorded(S, RecordInto(T, x.streamId, x.batch.value, r, ByTransaction), x)
  {
  }

  /** Recording only adds. */
  lemma RecordedEvolves(p: Primitives, S: State, T: State, ps: seq<Participant>)
    requires RecordedUpTo(p, S, T, ps, |ps|)
    ensures Evolves(S, T)
  {
    forall s ensures HistoryOf(S, s) <= HistoryOf(T, s) {
      if Among(ps, |ps|, s) {
        var i :| 0 <= i < |ps| && ps[i].streamId == s;
        assert ParticipantRecorded(S, T, ps[i]);
      } else {
        assert Untouched(S, T, s);
      }
    }
    forall key | key in S.operations ensures key in T.operations && T.operations[key] == S.operations[key] {
      if Among(ps, |ps|, key.0) {
        var i :| 0 <= i < |ps| && ps[i].streamId == key.0;
        assert ParticipantRecorded(S, T, ps[i]);
        assert (ps[i].streamId, key.1) in S.operations;
      } else {
        assert Untouched(S, T, key.0);
        assert (key.0, key.1) in S.operations;
      }
    }
  }

  /** The key is free and the transaction passed every check: the situation in which it is recorded. */
  ghost predicate Admitted(p: Primitives, authority: Text, limits: Limits, S: State, t: EventTransaction) {
    && WellFormedTransaction(t) && WithinItemLimit(t) && ActorsAgree(t)
    && (t.completion.Some? ==> CompletedTransactionValid(p, t))
    && KeyOf(t) !in S.transactions
    && AdmissionError(p, limits, S, t).None?
    && RecordOf(p, authority, S, t).Ok?
  }

  function After(p: Primitives, authority: Text, S: State, t: EventTransaction): State
    requires RecordOf(p, authority, S, t).Ok?
  {
    Committed(S, t, RecordOf(p, authority, S, t).value.0, RecordOf(p, authority, S, t).value.1)
  }

  /** The participants are recorded, whatever is then entered under the transaction's key. */
  lemma CommittedRecords(p: Primitives, authority: Text, limits: Limits, S: State, t: EventTransaction)
    requires Indexed(p, S) && Admitted(p, authority, limits, S, t)
    ensures RecordedUpTo(p, S, RecordParticipants(S, t.participants, |t.participants|), t.participants, |t.participants|)
  {
    RecordParticipantsKeeps(p, S, t);
  }

  lemma ParticipantsEvolve(p: Primitives, authority: Text, limits: Limits, S: State, t: EventTransaction)
    requires Indexed(p, S) && Admitted(p, authority, limits, S, t)
    ensures var R := RecordParticipants(S, t.participants, |t.participants|);
      Evolves(S, R) && R.transactions == S.transactions && R.details == S.details
  {
    CommittedRecords(p, authority, limits, S, t);
    RecordedEvolves(p, S, RecordParticipants(S, t.participants, |t.participants|), t.participants);
  }

  /** `T` is `R` with one new record under key `k`, and perhaps its slot. */
  ghost predicate Follows(S: State, R: State, T: State, k: TransactionKey, stored: StoredTransaction) {
    && T.streams == R.streams && T.operations == R.operations
    && k !in S.transactions && T.transactions == S.transactions[k := stored]
    && (forall ref | ref in S.details :: ref in T.details && T.details[ref] == S.details[ref])
  }

  lemma FollowsEvolves(S: State, R: State, T: State, k: TransactionKey, stored: StoredTransaction)
    requires Evolves(S, R) && Follows(S, R, T, k, stored)
    ensures Evolves(S, T)
  {
    forall s ensures HistoryOf(S, s) <= HistoryOf(T, s) {
      assert HistoryOf(S, s) <= HistoryOf(R, s);
    }
  }

  lemma CommittedFollows(p: Primitives, authority: Text, S: State, t: EventTransaction)
    requires Ledger(p, authority, S) && KeyOf(t) !in S.transactions && RecordOf(p, authority, S, t).Ok?
    ensures Follows(S, RecordParticipants(S, t.participants, |t.participants|), After(p, authority, S, t),
                    KeyOf(t), RecordOf(p, authority, S, t).value.0)
    ensures RecordOf(p, authority, S, t).value.0.Receipt() == ReceiptFor(S, t)
  {
    NewSlot(p, authority, S, t);
    assert ReceiptFor(S, t) == ReceiptFor(S, t).(completion := None);
  }

  lemma CommittedEvolves(p: Primitives, authority: Text, limits: Limits, S: State, t: EventTransaction)
    requires Inv(p, authority, S) && Admitted(p, authority, limits, S, t)
    ensures Evolves(S, After(p, authority, S, t))
  {
    ParticipantsEvolve(p, authority, limits, S, t);
    CommittedFollows(p, authority, S, t);
    FollowsEvolves(S, RecordParticipants(S, t.participants, |t.participants|), After(p, authority, S, t),
                   KeyOf(t), RecordOf(p, authority, S, t).value.0);
  }

  /** The detail slot of a new transaction was never occupied. */
  lemma NewSlot(p: Primitives, authority: Text, S: State, t: EventTransaction)
    requires Ledger(p, authority, S) && KeyOf(t) !in S.transactions && RecordOf(p, authority, S, t).Ok?
    ensures t.boundedContext.Some? ==> RecordOf(p, authority, S, t).value.0.marker.reference !in S.details
  {
    assert forall ref | ref in S.details :: SlotOwned(S, ref);
  }

  lemma NewTransactionIntact(p: Primitives, authority: Text, limits: Limits, S: State, t: EventTransaction)
    requires Lawful(p) && Indexed(p, S) && Admitted(p, authority, limits, S, t)
    ensures TransactionIntact(p, authority, After(p, authority, S, t), KeyOf(t))
  {
    var T := After(p, authority, S, t);
    var r := ReceiptFor(S, t);
    AdmittedReceiptMatches(p, limits, S, t);
    assert r == r.(completion := None);
    CommittedRecords(p, authority, limits, S, t);
    VersionsAreLengths(p, S);
    if t.boundedContext.Some? {
      DetailsRoundTrip(p, authority, t, r);
    }
    var R := RecordParticipants(S, t.participants, |t.participants|);
    ParticipantsClear(p, S, t, |t.participants|);
    forall i | 0 <= i < |r.streams| ensures Applied(T, r.operationId, r.streams[i]) {
      assert ParticipantRecorded(S, R, t.participants[i]);
      RecordedApplied(S, R, T, t.participants[i], t.operationId);
    }
  }

  lemma RecordedApplied(S: State, R: State, T: State, x: Participant, op: Text)
    requires ParticipantRecorded(S, R, x) && (x.batch.Some? ==> x.batch.value.operationId == op)
    requires T.streams == R.streams && T.operations == R.operations
    ensures var n := |HistoryOf(S, x.streamId)|; Applied(T, op, StreamReceipt(x.streamId, n, EventsOf(x, n)))
  {
    var h := HistoryOf(S, x.streamId);
    var g := h + EventsOf(x, |h|);
    assert HistoryOf(T, x.streamId) == g;
    assert g[|h|..|h| + |EventsOf(x, |h|)|] == EventsOf(x, |h|);
  }

  /** Every operation a transaction entered is owned by that transaction. */
  lemma NewEntryOwned(p: Primitives, S: State, R: State, T: State, t: EventTransaction, s: StreamId, op: Text)
    requires RecordedUpTo(p, S, R, t.participants, |t.participants|) && T.operations == R.operations
    requires (s, op) in R.operations && (s, op) !in S.operations
    requires forall i | 0 <= i < |t.participants| && t.participants[i].batch.Some? ::
      t.participants[i].batch.value.operationId == t.operationId
    requires forall x :: CurrentVersion(S, x) == |HistoryOf(S, x)|
    requires KeyOf(t) in T.transactions && T.transactions[KeyOf(t)].Receipt() == ReceiptFor(S, t)
    ensures exists k, i :: EnteredBy(T, s, op, k, i)
  {
    var ps := t.participants;
    assert Among(ps, |ps|, s) || Untouched(S, R, s);
    var i :| 0 <= i < |ps| && ps[i].streamId == s;
    assert ParticipantRecorded(S, R, ps[i]);
    assert (ps[i].streamId, op) in R.operations;
    assert EnteredBy(T, s, op, KeyOf(t), i);
  }

  lemma TransactKeeps(p: Primitives, authority: Text, limits: Limits, S: State, t: EventTransaction)
    requires Lawful(p) && Inv(p, authority, S) && WellFormedTransaction(t)
    requires t.completion.Some? ==> CompletedTransactionValid(p, t)
    ensures var T := Transact(p, authority, limits, S, t).0; Inv(p, authority, T) && Evolves(S, T)
  {
    if Admitted(p, authority, limits, S, t) {
      CommittedKeeps(p, authority, limits, S, t);
    } else {
      assert Transact(p, authority, limits, S, t).0 == S;
      NothingEvolves(S);
    }
  }

  lemma CommittedKeeps(p: Primitives, authority: Text, limits: Limits, S: State, t: EventTransaction)
    requires Lawful(p) && Inv(p, authority, S) && Admitted(p, authority, limits, S, t)
    ensures var T := After(p, authority, S, t); Inv(p, authority, T) && Evolves(S, T)
  {
    CommittedEvolves(p, authority, limits, S, t);
    CommittedRecords(p, authority, limits, S, t);
    RecordedTotal(S, t.participants, |t.participants|);
    assert t.participants[..|t.participants|] == t.participants;
    SameIndexes(p, RecordParticipants(S, t.participants, |t.participants|), After(p, authority, S, t));
    CommittedLedger(p, authority, limits, S, t);
  }

  lemma CommittedLedger(p: Primitives, authority: Text, limits: Limits, S: State, t: EventTransaction)
    requires Lawful(p) && Inv(p, authority, S) && Admitted(p, authority, limits, S, t)
    ensures Ledger(p, authority, After(p, authority, S, t))
  {
    var T := After(p, authority, S, t);
    CommittedEvolves(p, authority, limits, S, t);
    forall k | k in T.transactions ensures TransactionIntact(p, authority, T, k) {
      if k == KeyOf(t) {
        NewTransactionIntact(p, authority, limits, S, t);
      } else {
        IntactKept(p, authority, S, T, k);
      }
    }
    CommittedSlots(p, authority, S, t);
    CommittedEntries(p, authority, limits, S, t);
  }

  lemma CommittedSlots(p: Primitives, authority: Text, S: State, t: EventTransaction)
    requires Ledger(p, authority, S) && KeyOf(t) !in S.transactions && RecordOf(p, authority, S, t).Ok?
    ensures var T := After(p, authority, S, t); forall ref | ref in T.details :: SlotOwned(T, ref)
  {
    var T := After(p, authority, S, t);
    forall ref | ref in T.details ensures SlotOwned(T, ref) {
      if ref in S.details {
        assert SlotOwned(S, ref);
      }
    }
  }

  lemma CommittedEntries(p: Primitives, authority: Text, limits: Limits, S: State, t: EventTransaction)
    requires Indexed(p, S) && Ledger(p, authority, S) && Admitted(p, authority, limits, S, t)
    requires Evolves(S, After(p, authority, S, t))
    ensures var T := After(p, authority, S, t);
      forall s, op | (s, op) in T.operations && T.operations[(s, op)].provenance.ByTransaction? ::
        exists k, i :: EnteredBy(T, s, op, k, i)
  {
    CommittedRecords(p, authority, limits, S, t);
    CommittedFollows(p, authority, S, t);
    AdmittedBatches(p, authority, limits, S, t);
    EntriesOwned(p, authority, S, RecordParticipants(S, t.participants, |t.participants|), After(p, authority, S, t), t,
                 RecordOf(p, authority, S, t).value.0);
  }

  lemma AdmittedBatches(p: Primitives, authority: Text, limits: Limits, S: State, t: EventTransaction)
    requires Indexed(p, S) && Admitted(p, authority, limits, S, t)
    ensures forall i | 0 <= i < |t.participants| && t.participants[i].batch.Some? ::
      t.participants[i].batch.value.operationId == t.operationId
    ensures forall x :: CurrentVersion(S, x) == |HistoryOf(S, x)|
  {
    VersionsAreLengths(p, S);
    ParticipantsClear(p, S, t, |t.participants|);
  }

  lemma EntriesOwned(p: Primitives, authority: Text, S: State, R: State, T: State, t: EventTransaction, stored: StoredTransaction)
    requires Ledger(p, authority, S) && Evolves(S, T)
    requires RecordedUpTo(p, S, R, t.participants, |t.participants|)
    requires Follows(S, R, T, KeyOf(t), stored) && stored.Receipt() == ReceiptFor(S, t)
    requires forall i | 0 <= i < |t.participants| && t.participants[i].batch.Some? ::
      t.participants[i].batch.value.operationId == t.operationId
    requires forall x :: CurrentVersion(S, x) == |HistoryOf(S, x)|
    ensures forall s, op | (s, op) in T.operations && T.operations[(s, op)].provenance.ByTransaction? ::
      exists k, i :: EnteredBy(T, s, op, k, i)
  {
    forall s, op | (s, op) in T.operations && T.operations[(s, op)].provenance.ByTransaction?
      ensures exists k, i :: EnteredBy(T, s, op, k, i)
    {
      if (s, op) in S.operations {
        assert T.operations[(s, op)] == S.operations[(s, op)];
        EntryKept(S, T, s, op);
      } else {
        NewEntryOwned(p, S, R, T, t, s, op);
      }
    }
  }

  // ----- expire_details -----

  lemma ExpireKeeps(p: Primitives, authority: Text, S: State, key: OutcomeKey, revision: Text)
    requires Inv(p, authority, S)
    ensures var T := Expire(authority, S, key, revision).0; Inv(p, authority, T) && Evolves(S, T)
  {
    var T := Expire(authority, S, key, revision).0;
    if T != S {
      SameIndexes(p, S, T);
      var ref := S.transactions[(Some(key.context), key.operationId)].marker.reference;
      WithdrawnEvolves(S, ref);
      SameRecordsLedger(p, authority, S, T);
    } else {
      NothingEvolves(S);
    }
  }

  lemma WithdrawnEvolves(S: State, ref: DetailReference)
    requires ref in S.details
    ensures Evolves(S, S.(details := S.details[ref := Expired]))
  {
    assert forall s :: HistoryOf(S, s) == HistoryOf(S.(details := S.details[ref := Expired]), s);
  }

  lemma NothingEvolves(S: State)
    ensures Evolves(S, S)
  {
  }

  /** Withdrawing details leaves the ledger intact. */
  lemma SameRecordsLedger(p: Primitives, authority: Text, S: State, T: State)
    requires Ledger(p, authority, S) && Evolves(S, T)
    requires T.transactions == S.transactions && T.operations == S.operations && T.details.Keys == S.details.Keys
    ensures Ledger(p, authority, T)
  {
    forall k | k in T.transactions ensures TransactionIntact(p, authority, T, k) {
      IntactKept(p, authority, S, T, k);
    }
    forall ref | ref in T.details ensures SlotOwned(T, ref) {
      assert SlotOwned(S, ref);
    }
    forall s, op | (s, op) in T.operations && T.operations[(s, op)].provenance.ByTransaction?
      ensures exists k, i :: EnteredBy(T, s, op, k, i)
    {
      EntryKept(S, T, s, op);
    }
  }

  // ----- Any mutation -----

  lemma PerformKeeps(p: Primitives, authority: Text, S: State, op: Operation)
    requires Lawful(p) && Inv(p, authority, S) && Permitted(op)
    ensures var T := Perform(p, authority, S, op); Inv(p, authority, T) && Evolves(S, T)
  {
    match op
    case DirectAppend(limits, s, expected, b) => AppendKeeps(p, authority, limits, S, s, expected, b);
    case LegacyTransaction(limits, t) => TransactKeeps(p, authority, limits, S, t);
    case CommitOutcome(limits, t) =>
      if CompletedTransactionValid(p, t) {
        TransactKeeps(p, authority, limits, S, t);
      }
    case ExpireDetails(key, revision) => ExpireKeeps(p, authority, S, key, revision);
  }
}
