/**
 The store as the source builds it: shared mutable indexes behind handles that carry their own
 capacity limits. Each method is one locked section, proved against the functions of Store.
 */
module MemoryStore {
  import opened Wrappers
  import opened Identity
  import opened Records
  import opened Receipts
  import opened Outcome
  import opened Store
  import Proposal

  /** The state every clone of a store shares. */
  class Shared {
    var streams: map<StreamId, seq<RecordedEvent>>
    var operations: map<(StreamId, Text), StoredAppend>
    var commits: map<(StreamId, Text), Text>
    var eventIds: set<(StreamId, Text)>
    var transactions: map<TransactionKey, StoredTransaction>
    var details: map<DetailReference, DetailState>
    var eventCount: nat

    constructor ()
      ensures Snapshot() == EMPTY
    {
      streams, operations, commits, eventIds := map[], map[], map[], {};
      transactions, details, eventCount := map[], map[], 0;
    }

    function Snapshot(): State
      reads this
    {
      State(streams, operations, commits, eventIds, transactions, details, eventCount)
    }

    function History(s: StreamId): seq<RecordedEvent>
      reads this
    {
      HistoryOf(Snapshot(), s)
    }

    /** Enters one recorded batch into every index. */
    method Enter(s: StreamId, b: EventBatch, events: seq<RecordedEvent>, prov: Provenance)
      modifies this
      ensures Snapshot() == RecordInto(old(Snapshot()), s, b, events, prov)
    {
      commits := commits[(s, b.commitId) := b.operationId];
      eventIds := eventIds + set i | 0 <= i < |b.events| :: (s, b.events[i].eventId);
      operations := operations[(s, b.operationId) := StoredAppend(b, events, prov)];
      streams := streams[s := (if s in streams then streams[s] else []) + events];
    }
  }

  method ReusesId(shared: Shared, s: StreamId, b: EventBatch) returns (r: bool)
    ensures r == ReusesEventId(shared.Snapshot(), s, b)
  {
    for i := 0 to |b.events|
      invariant forall k | 0 <= k < i :: (s, b.events[k].eventId) !in shared.eventIds
    {
      if (s, b.events[i].eventId) in shared.eventIds {
        return true;
      }
    }
    return false;
  }

  /** `validate_derived_identities`. */
  method ValidateDerived(p: Primitives, s: StreamId, b: EventBatch) returns (r: bool)
    ensures r == DerivedBatch(p, s, b)
  {
    if b.commitId != p.ids.commit(s, b.operationId) {
      return false;
    }
    for i := 0 to |b.events|
      invariant forall k | 0 <= k < i :: b.events[k].eventId == p.ids.event(b.commitId, k)
    {
      if b.events[i].eventId != p.ids.event(b.commitId, i) {
        return false;
      }
    }
    return true;
  }

  /** `validate_transaction`: identities of every participant first, then every expected version. */
  method ValidateTransaction(p: Primitives, shared: Shared, t: EventTransaction) returns (r: Option<ErrorKind>)
    ensures r == TransactionError(p, shared.Snapshot(), t)
  {
    var S := shared.Snapshot();
    var n := |t.participants|;
    var seen: set<StreamId> := {};
    for i := 0 to n
      invariant S == shared.Snapshot() && ParticipantsError(p, S, t, i).None?
      invariant forall x :: x in seen <==> exists j :: 0 <= j < i && t.participants[j].streamId == x
    {
      var x := t.participants[i];
      var error: Option<ErrorKind> := None;
      if x.streamId in seen {
        error := Some(InvalidRequest);
      } else if x.batch.Some? {
        var derived := ValidateDerived(p, x.streamId, x.batch.value);
        var reused := ReusesId(shared, x.streamId, x.batch.value);
        var b := x.batch.value;
        if !BatchOfTransaction(t, b) || !derived {
          error := Some(InvalidRequest);
        } else if (x.streamId, b.operationId) in shared.operations || (x.streamId, b.commitId) in shared.commits || reused {
          error := Some(IdentityConflict);
        }
      }
      seen := seen + {x.streamId};
      assert error == ParticipantsError(p, S, t, i + 1);
      if error.Some? {
        ErrorStays(p, S, t, i + 1, n);
        return error;
      }
    }
    for i := 0 to n
      invariant S == shared.Snapshot() && VersionsError(S, t.participants, i).None?
    {
      var x := t.participants[i];
      var error := ExpectedError(x.expected, VersionOf(shared.History(x.streamId)));
      if error.Some? {
        VersionErrorStays(S, t.participants, i + 1, n);
        return error;
      }
    }
    return None;
  }

  lemma {:induction false} ErrorStays(p: Primitives, S: State, t: EventTransaction, i: nat, n: nat)
    requires i <= n <= |t.participants| && ParticipantsError(p, S, t, i).Some?
    ensures ParticipantsError(p, S, t, n) == ParticipantsError(p, S, t, i)
    decreases n - i
  {
    if i < n {
      ErrorStays(p, S, t, i + 1, n);
    }
  }

  lemma {:induction false} VersionErrorStays(S: State, ps: seq<Participant>, i: nat, n: nat)
    requires i <= n <= |ps| && VersionsError(S, ps, i).Some?
    ensures VersionsError(S, ps, n) == VersionsError(S, ps, i)
    decreases n - i
  {
    if i < n {
      VersionErrorStays(S, ps, i + 1, n);
    }
  }

  /** `validate_transaction_item_limit`, with the number of domain events. */
  method ItemLimit(t: EventTransaction) returns (events: nat, ok: bool)
    ensures events == EventTotal(t.participants) && ok == WithinItemLimit(t)
  {
    var guards := 0;
    events := 0;
    for i := 0 to |t.participants|
      invariant events + EventTotal(t.participants[i..]) == EventTotal(t.participants)
      invariant guards + GuardTotal(t.participants[i..]) == GuardTotal(t.participants)
    {
      assert t.participants[i..][1..] == t.participants[i + 1..];
      if t.participants[i].batch.Some? {
        events := events + |t.participants[i].batch.value.events|;
      } else {
        guards := guards + 1;
      }
    }
    ok := events + guards + 1 <= MAX_TRANSACTION_ITEMS;
  }

  lemma RecordedNext(S: State, ps: seq<Participant>, i: nat, staged: StreamReceipt)
    requires i < |ps| && staged == StreamReceipts(ps, Bases(S, ps))[i]
    ensures var T := RecordParticipants(S, ps, i); var x := ps[i];
      RecordParticipants(S, ps, i + 1) ==
        if x.batch.None? then T else RecordInto(T, x.streamId, x.batch.value, staged.events, ByTransaction)
  {
    assert staged.events == EventsOf(ps[i], CurrentVersion(S, ps[i].streamId));
  }

  /** A handle: clones share the state and differ only in their limits. */
  class Handle {
    const shared: Shared
    const primitives: Primitives
    const authority: Text
    const limits: Limits

    constructor (shared: Shared, primitives: Primitives, authority: Text, limits: Limits)
      ensures this.shared == shared && this.primitives == primitives && this.authority == authority && this.limits == limits
    {
      this.shared, this.primitives, this.authority, this.limits := shared, primitives, authority, limits;
    }

    method Load(s: StreamId) returns (h: seq<RecordedEvent>)
      ensures h == HistoryOf(shared.Snapshot(), s)
    {
      h := shared.History(s);
    }

    /** `append`: one batch on one stream, all or nothing. */
    method Append(s: StreamId, expected: ExpectedVersion, b: EventBatch) returns (r: Result<AppendOutcome, ErrorKind>)
      requires AdmissibleEvents(b.events)
      modifies shared
      ensures (shared.Snapshot(), r) == Store.Append(primitives, limits, old(shared.Snapshot()), s, expected, b)
      ensures r.Err? ==> shared.Snapshot() == old(shared.Snapshot())
    {
      if (s, b.operationId) in shared.operations {
        var previous := shared.operations[(s, b.operationId)];
        if previous.provenance == Direct && previous.batch == b {
          return Ok(AppendOutcome(previous.events, true));
        }
        return Err(IdentityConflict);
      }
      var reused := ReusesId(shared, s, b);
      if (s, b.commitId) in shared.commits || reused {
        return Err(IdentityConflict);
      }
      var derived := ValidateDerived(primitives, s, b);
      if !derived {
        return Err(InvalidRequest);
      }
      var current := VersionOf(shared.History(s));
      var mismatch := ExpectedError(expected, current);
      if mismatch.Some? {
        return Err(mismatch.value);
      }
      var count := shared.eventCount + |b.events|;
      if count > limits.maximumEvents {
        return Err(CapacityExhausted);
      }
      var recorded := RecordBatch(s, current, b);
      if recorded.Err? {
        return Err(recorded.error);
      }
      shared.Enter(s, b, recorded.value, Direct);
      shared.eventCount := count;
      return Ok(AppendOutcome(recorded.value, false));
    }

    /** Recording every participant at the version the transaction found, before anything changes. */
    method Stage(t: EventTransaction) returns (r: Result<seq<StreamReceipt>, ErrorKind>)
      requires WellFormedTransaction(t)
      ensures var S := shared.Snapshot();
        r == if VersionSpaceSuffices(S, t.participants) then Ok(StreamReceipts(t.participants, Bases(S, t.participants)))
             else Err(CapacityExhausted)
    {
      var S := shared.Snapshot();
      var staged: seq<StreamReceipt> := [];
      for i := 0 to |t.participants|
        invariant staged == StreamReceipts(t.participants, Bases(S, t.participants))[..i]
        invariant forall k | 0 <= k < i && t.participants[k].batch.Some? ::
          CurrentVersion(S, t.participants[k].streamId) + |t.participants[k].batch.value.events| <= U64_MAX
      {
        var x := t.participants[i];
        var base := VersionOf(shared.History(x.streamId));
        var events: seq<RecordedEvent> := [];
        if x.batch.Some? {
          var recorded := RecordBatch(x.streamId, base, x.batch.value);
          if recorded.Err? {
            return Err(recorded.error);
          }
          events := recorded.value;
        }
        staged := staged + [StreamReceipt(x.streamId, base, events)];
      }
      assert staged == StreamReceipts(t.participants, Bases(S, t.participants));
      return Ok(staged);
    }

    /** Entering the staged participants. */
    method EnterAll(t: EventTransaction, staged: seq<StreamReceipt>)
      requires staged == StreamReceipts(t.participants, Bases(shared.Snapshot(), t.participants))
      modifies shared
      ensures shared.Snapshot() == RecordParticipants(old(shared.Snapshot()), t.participants, |t.participants|)
    {
      ghost var S := shared.Snapshot();
      for i := 0 to |t.participants|
        invariant shared.Snapshot() == RecordParticipants(S, t.participants, i)
      {
        var x := t.participants[i];
        RecordedNext(S, t.participants, i, staged[i]);
        EnterOne(x, staged[i].events);
      }
    }

    method EnterOne(x: Participant, events: seq<RecordedEvent>)
      modifies shared
      ensures shared.Snapshot() ==
        if x.batch.None? then old(shared.Snapshot())
        else RecordInto(old(shared.Snapshot()), x.streamId, x.batch.value, events, ByTransaction)
    {
      if x.batch.Some? {
        shared.Enter(x.streamId, x.batch.value, events, ByTransaction);
      }
    }

    /** Everything that can refuse a transaction under a free key, and what it would record. */
    method Admit(t: EventTransaction, total: nat) returns (r: Result<seq<StreamReceipt>, ErrorKind>)
      requires WellFormedTransaction(t) && total == EventTotal(t.participants)
      ensures var S := shared.Snapshot();
        r == match AdmissionError(primitives, limits, S, t)
             case Some(e) => Err(e)
             case None => Ok(StreamReceipts(t.participants, Bases(S, t.participants)))
    {
      if |shared.transactions| >= limits.maximumOutcomes {
        return Err(CapacityExhausted);
      }
      var invalid := ValidateTransaction(primitives, shared, t);
      if invalid.Some? {
        return Err(invalid.value);
      }
      if shared.eventCount + total > limits.maximumEvents {
        return Err(CapacityExhausted);
      }
      r := Stage(t);
    }

    /** The permanent record and, for a scoped transaction, the bytes of its detail slot. */
    method Record(t: EventTransaction, proposal: ProposalDigest, staged: seq<StreamReceipt>) returns (r: Result<(StoredTransaction, Option<Text>), ErrorKind>)
      requires proposal == Proposal.DigestOf(primitives, t)
      requires staged == StreamReceipts(t.participants, Bases(shared.Snapshot(), t.participants))
      ensures r == RecordOf(primitives, authority, shared.Snapshot(), t)
    {
      var receipt := TransactionReceipt(t.actor, t.securityScope, None, t.boundedContext, t.operationId, t.fingerprint,
                                        t.correlationId, t.causationId, staged);
      if t.boundedContext.None? {
        return Ok((Unscoped(proposal, receipt), None));
      }
      var prepared := Prepare(primitives, authority, t, receipt);
      if prepared.Err? {
        return Err(prepared.error);
      }
      return Ok((Scoped(prepared.value.0), Some(prepared.value.1)));
    }

    /** Nothing can fail any more: every index, the record and its slot change together. */
    method Apply(t: EventTransaction, total: nat, staged: seq<StreamReceipt>, stored: StoredTransaction, bytes: Option<Text>)
      requires staged == StreamReceipts(t.participants, Bases(shared.Snapshot(), t.participants))
      requires total == EventTotal(t.participants)
      modifies shared
      ensures shared.Snapshot() == Committed(old(shared.Snapshot()), t, stored, bytes)
    {
      var count, records, slots := shared.eventCount + total, shared.transactions, shared.details;
      EnterAll(t, staged);
      shared.eventCount := count;
      shared.transactions := records[KeyOf(t) := stored];
      shared.details := if stored.Scoped? && bytes.Some? then slots[stored.marker.reference := Active(bytes.value)] else slots;
    }

    /** `append_transaction_inner`: all participants and the permanent record, or nothing. */
    method AppendTransaction(t: EventTransaction) returns (r: Result<(StoredTransaction, bool), ErrorKind>)
      requires WellFormedTransaction(t)
      modifies shared
      ensures (shared.Snapshot(), r) == Transact(primitives, authority, limits, old(shared.Snapshot()), t)
      ensures r.Err? ==> shared.Snapshot() == old(shared.Snapshot())
    {
      var total, within := ItemLimit(t);
      var proposal := Proposal.Of(primitives, t);
      if !within || proposal.Err? {
        return Err(InvalidRequest);
      }
      if KeyOf(t) in shared.transactions {
        var previous := shared.transactions[KeyOf(t)];
        if previous.Digest() == proposal.value {
          return Ok((previous, true));
        }
        return Err(IdentityConflict);
      }
      var staged := Admit(t, total);
      if staged.Err? {
        return Err(staged.error);
      }
      var record := Record(t, proposal.value, staged.value);
      if record.Err? {
        return Err(record.error);
      }
      Apply(t, total, staged.value, record.value.0, record.value.1);
      return Ok((record.value.0, false));
    }

    /** `expire_details`: withdraws the bytes and keeps the slot. */
    method ExpireDetails(key: OutcomeKey, revision: Text) returns (error: Option<LifecycleError>)
      modifies shared
      ensures (shared.Snapshot(), error) == Expire(authority, old(shared.Snapshot()), key, revision)
      ensures error.Some? ==> shared.Snapshot() == old(shared.Snapshot())
    {
      if key.authority != authority {
        return Some(StoreFailure(ConfigurationMismatch));
      }
      var k: TransactionKey := (Some(key.context), key.operationId);
      if k !in shared.transactions || shared.transactions[k].Unscoped? {
        return Some(Missing);
      }
      var marker := shared.transactions[k].marker;
      if marker.revision != revision {
        return Some(RevisionMismatch);
      }
      if marker.reference !in shared.details {
        return Some(StoreFailure(CorruptHistory));
      }
      shared.details := shared.details[marker.reference := Expired];
      return None;
    }
  }
}
