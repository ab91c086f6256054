/**
 What every reachable store satisfies: each stream is a valid history, the redundant indexes are
 exactly those computed from the streams and stored transactions, and detail slots correspond
 one to one to scoped transactions.
 */
module StoreInvariant {
  import opened Wrappers
  import opened Identity
  import opened Records
  import opened Proposal
  import opened Receipts
  import opened Outcome
  import opened Store
  import History

  // ----- Indexes computed from one stream -----

  function EventIdsIn(h: seq<RecordedEvent>): set<Text> {
    set e | e in h :: e.eventId
  }

  function CommitsIn(h: seq<RecordedEvent>): set<Text> {
    set e | e in h :: e.commitId
  }

  function OperationsIn(h: seq<RecordedEvent>): set<Text> {
    set e | e in h :: e.operationId
  }

  /** The commit around event `j` is what the operation index holds for its operation. */
  predicate CommitIndexed(S: State, s: StreamId, h: seq<RecordedEvent>, j: nat)
    requires j < |h|
  {
    var e := h[j];
    && (s, e.commitId) in S.commits && S.commits[(s, e.commitId)] == e.operationId
    && (s, e.operationId) in S.operations
    && var a := S.operations[(s, e.operationId)];
       && e.ordinal <= j && j - e.ordinal + e.count <= |h|
       && a.batch.operationId == e.operationId
       && a.events == h[j - e.ordinal..j - e.ordinal + e.count]
       && a.events == Recorded(s, j - e.ordinal, a.batch)
  }

  /** The stream is a valid history and the three indexes hold exactly its identities. */
  ghost predicate StreamIndexed(p: Primitives, S: State, s: StreamId) {
    var h := HistoryOf(S, s);
    && (s in S.streams ==> |h| > 0)
    && History.Valid(p.ids, s, h)
    && (forall x :: (s, x) in S.eventIds <==> x in EventIdsIn(h))
    && (forall x :: (s, x) in S.commits <==> x in CommitsIn(h))
    && (forall x :: (s, x) in S.operations <==> x in OperationsIn(h))
    && (forall j | 0 <= j < |h| :: CommitIndexed(S, s, h, j))
  }

  ghost predicate Indexed(p: Primitives, S: State) {
    forall s :: StreamIndexed(p, S, s)
  }

  ghost function Pick(streams: map<StreamId, seq<RecordedEvent>>): (s: StreamId)
    requires |streams| > 0
    ensures s in streams
  {
    var s :| s in streams; s
  }

  ghost function TotalEvents(streams: map<StreamId, seq<RecordedEvent>>): nat
    decreases |streams|
  {
    if |streams| == 0 then 0
    else var s := Pick(streams); |streams[s]| + TotalEvents(streams - {s})
  }

  // ----- Transactions and details -----

  /** A receipt's events stand in their stream at their place, entered there by the transaction. */
  predicate Applied(S: State, op: Text, sr: StreamReceipt) {
    var h := HistoryOf(S, sr.streamId);
    && sr.baseVersion + |sr.events| <= |h|
    && h[sr.baseVersion..sr.baseVersion + |sr.events|] == sr.events
    && (|sr.events| > 0 ==>
          (sr.streamId, op) in S.operations
          && S.operations[(sr.streamId, op)].provenance.ByTransaction?
          && S.operations[(sr.streamId, op)].events == sr.events)
  }

  predicate MarkerBound(p: Primitives, authority: Text, S: State, k: TransactionKey, m: OutcomeMarker) {
    && k.0.Some?
    && m.reference.key == OutcomeKey(authority, k.0.value, k.1)
    && m.reference in S.details
    && (S.details[m.reference].Active? ==> DecodeDetails(p, m.reference, S.details[m.reference].bytes).Ok?)
  }

  predicate TransactionIntact(p: Primitives, authority: Text, S: State, k: TransactionKey)
    requires k in S.transactions
  {
    var stored := S.transactions[k];
    var r := stored.Receipt();
    && Integrity(p, r)
    && r.completion.None?
    && (r.boundedContext, r.operationId) == k
    && (k.0.Some? <==> stored.Scoped?)
    && (stored.Scoped? ==> MarkerBound(p, authority, S, k, stored.marker))
    && (forall i | 0 <= i < |r.streams| :: Applied(S, r.operationId, r.streams[i]))
  }

  /** Stream receipt `i` of the transaction under `k` is what entered operation `op` into stream `s`. */
  predicate EnteredBy(S: State, s: StreamId, op: Text, k: TransactionKey, i: nat)
    requires (s, op) in S.operations
  {
    && k in S.transactions
    && k.1 == op
    && var streams := S.transactions[k].Receipt().streams;
       i < |streams| && streams[i].streamId == s && streams[i].events == S.operations[(s, op)].events
  }

  predicate SlotOwned(S: State, ref: DetailReference) {
    var k: TransactionKey := (Some(ref.key.context), ref.key.operationId);
    k in S.transactions && S.transactions[k].Scoped? && S.transactions[k].marker.reference == ref
  }

  ghost predicate Ledger(p: Primitives, authority: Text, S: State) {
    && (forall k | k in S.transactions :: TransactionIntact(p, authority, S, k))
    && (forall ref | ref in S.details :: SlotOwned(S, ref))
    && (forall s, op | (s, op) in S.operations && S.operations[(s, op)].provenance.ByTransaction? ::
          exists k, i :: EnteredBy(S, s, op, k, i))
  }

  /** The store invariant. */
  ghost predicate Inv(p: Primitives, authority: Text, S: State) {
    && Indexed(p, S)
    && S.eventCount == TotalEvents(S.streams)
    && Ledger(p, authority, S)
  }

  // ----- What never changes -----

  /** Streams only grow, records never change, and a detail slot only ever moves from active to expired. */
  ghost predicate Evolves(S: State, T: State) {
    && (forall s :: HistoryOf(S, s) <= HistoryOf(T, s))
    && (forall key | key in S.operations :: key in T.operations && T.operations[key] == S.operations[key])
    && (forall k | k in S.transactions :: k in T.transactions && T.transactions[k] == S.transactions[k])
    && (forall ref | ref in S.details :: ref in T.details && (T.details[ref] == S.details[ref] || T.details[ref].Expired?))
  }

  lemma EvolvesTransitive(S: State, T: State, U: State)
    requires Evolves(S, T) && Evolves(T, U)
    ensures Evolves(S, U)
  {
    forall s ensures HistoryOf(S, s) <= HistoryOf(U, s) {
      assert HistoryOf(S, s) <= HistoryOf(T, s) <= HistoryOf(U, s);
    }
  }

  // ----- Counting -----

  lemma {:induction false} TotalRemove(m: map<StreamId, seq<RecordedEvent>>, s: StreamId)
    requires s in m
    ensures TotalEvents(m) == |m[s]| + TotalEvents(m - {s})
    decreases |m|
  {
    assert s in m.Keys;
    var x := Pick(m);
    if x != s {
      TotalRemove(m - {x}, s);
      TotalRemove(m - {s}, x);
      assert m - {x} - {s} == m - {s} - {x};
    }
  }

  lemma TotalGrows(S: State, s: StreamId, more: seq<RecordedEvent>)
    ensures TotalEvents(S.streams[s := HistoryOf(S, s) + more]) == TotalEvents(S.streams) + |more|
  {
    var m := S.streams[s := HistoryOf(S, s) + more];
    TotalRemove(m, s);
    assert m - {s} == S.streams - {s};
    if s in S.streams {
      TotalRemove(S.streams, s);
    } else {
      assert S.streams - {s} == S.streams;
    }
  }

  // ----- One batch enters the indexes -----

  /** Nothing about stream `s` differs between the two states. */
  ghost predicate Untouched(S: State, T: State, s: StreamId) {
    && (s in S.streams <==> s in T.streams)
    && HistoryOf(S, s) == HistoryOf(T, s)
    && (forall x :: (s, x) in S.eventIds <==> (s, x) in T.eventIds)
    && (forall x :: (s, x) in S.commits <==> (s, x) in T.commits)
    && (forall x | (s, x) in S.commits :: S.commits[(s, x)] == T.commits[(s, x)])
    && (forall x :: (s, x) in S.operations <==> (s, x) in T.operations)
    && (forall x | (s, x) in S.operations :: S.operations[(s, x)] == T.operations[(s, x)])
  }

  lemma UntouchedIndexed(p: Primitives, S: State, T: State, s: StreamId)
    requires StreamIndexed(p, S, s) && Untouched(S, T, s)
    ensures StreamIndexed(p, T, s)
  {
    var h := HistoryOf(S, s);
    forall j | 0 <= j < |h| ensures CommitIndexed(T, s, h, j) {
      assert CommitIndexed(S, s, h, j);
    }
  }

  lemma RecordIntoElsewhere(S: State, s: StreamId, b: EventBatch, events: seq<RecordedEvent>, prov: Provenance, s': StreamId)
    requires s' != s
    ensures Untouched(S, RecordInto(S, s, b, events, prov), s')
  {
  }

  /** The batch is admissible and derived, and brings no identity the stream already knows. */
  predicate Enters(p: Primitives, S: State, s: StreamId, b: EventBatch) {
    && AdmissibleEvents(b.events)
    && DerivedBatch(p, s, b)
    && (s, b.operationId) !in S.operations
    && (s, b.commitId) !in S.commits
    && !ReusesEventId(S, s, b)
    && |HistoryOf(S, s)| + |b.events| <= U64_MAX
  }

  lemma VersionIsLength(p: Primitives, S: State, s: StreamId)
    requires StreamIndexed(p, S, s)
    ensures CurrentVersion(S, s) == |HistoryOf(S, s)|
  {
    var h := HistoryOf(S, s);
    if |h| > 0 {
      assert History.Derived(p.ids, s, h, |h| - 1);
    }
  }

  lemma EntersIsNew(p: Primitives, S: State, s: StreamId, b: EventBatch)
    requires StreamIndexed(p, S, s) && Enters(p, S, s, b)
    ensures History.NewTo(p.ids, s, HistoryOf(S, s), b)
  {
    var h := HistoryOf(S, s);
    forall e | e in h
      ensures e.operationId != b.operationId && e.commitId != b.commitId
      ensures forall i | 0 <= i < |b.events| :: e.eventId != b.events[i].eventId
    {
      assert e.operationId in OperationsIn(h) && e.commitId in CommitsIn(h) && e.eventId in EventIdsIn(h);
    }
  }

  /** The three identity sets grow by the batch. */
  lemma SetsGrow(s: StreamId, h: seq<RecordedEvent>, b: EventBatch)
    requires |b.events| > 0
    ensures var g := h + Recorded(s, |h|, b);
      && EventIdsIn(g) == EventIdsIn(h) + (set i | 0 <= i < |b.events| :: b.events[i].eventId)
      && CommitsIn(g) == CommitsIn(h) + {b.commitId}
      && OperationsIn(g) == OperationsIn(h) + {b.operationId}
  {
    var r := Recorded(s, |h|, b);
    assert r[0] in r;
    IdsOfConcat(h, r);
    assert CommitsIn(r) == {b.commitId} && OperationsIn(r) == {b.operationId};
    RecordedIds(s, |h|, b);
  }

  lemma IdsOfConcat(h: seq<RecordedEvent>, r: seq<RecordedEvent>)
    ensures EventIdsIn(h + r) == EventIdsIn(h) + EventIdsIn(r)
    ensures CommitsIn(h + r) == CommitsIn(h) + CommitsIn(r)
    ensures OperationsIn(h + r) == OperationsIn(h) + OperationsIn(r)
  {
    assert forall e :: e in h + r <==> e in h || e in r;
  }

  lemma RecordedIds(s: StreamId, base: nat, b: EventBatch)
    ensures EventIdsIn(Recorded(s, base, b)) == set i | 0 <= i < |b.events| :: b.events[i].eventId
  {
    var r := Recorded(s, base, b);
    forall i | 0 <= i < |b.events| ensures b.events[i].eventId in EventIdsIn(r) {
      assert r[i] in r;
    }
  }

  lemma EventIdsEntered(S: State, s: StreamId, b: EventBatch, r: seq<RecordedEvent>, prov: Provenance)
    ensures forall x :: (s, x) in RecordInto(S, s, b, r, prov).eventIds <==>
      (s, x) in S.eventIds || x in (set i | 0 <= i < |b.events| :: b.events[i].eventId)
  {
    var T := RecordInto(S, s, b, r, prov);
    forall x | x in (set i | 0 <= i < |b.events| :: b.events[i].eventId) ensures (s, x) in T.eventIds {
      var i :| 0 <= i < |b.events| && b.events[i].eventId == x;
      assert (s, b.events[i].eventId) in T.eventIds;
    }
  }

  /** After the batch entered, the three identity sets are again those of the stream. */
  lemma SetsEntered(p: Primitives, S: State, s: StreamId, b: EventBatch, prov: Provenance)
    requires StreamIndexed(p, S, s) && |b.events| > 0
    ensures var h := HistoryOf(S, s); var r := Recorded(s, |h|, b); var T := RecordInto(S, s, b, r, prov);
      && (forall x :: (s, x) in T.eventIds <==> x in EventIdsIn(h + r))
      && (forall x :: (s, x) in T.commits <==> x in CommitsIn(h + r))
      && (forall x :: (s, x) in T.operations <==> x in OperationsIn(h + r))
  {
    var h := HistoryOf(S, s);
    SetsGrow(s, h, b);
    EventIdsEntered(S, s, b, Recorded(s, |h|, b), prov);
  }

  /** After the batch entered, every commit of the stream is indexed. */
  lemma CommitsEntered(p: Primitives, S: State, s: StreamId, b: EventBatch, prov: Provenance)
    requires StreamIndexed(p, S, s) && Enters(p, S, s, b)
    ensures var h := HistoryOf(S, s); var r := Recorded(s, |h|, b); var T := RecordInto(S, s, b, r, prov);
      forall j | 0 <= j < |h + r| :: CommitIndexed(T, s, h + r, j)
  {
    var h := HistoryOf(S, s);
    var r := Recorded(s, |h|, b);
    var T := RecordInto(S, s, b, r, prov);
    EntersIsNew(p, S, s, b);
    forall j | 0 <= j < |h + r| ensures CommitIndexed(T, s, h + r, j) {
      if j < |h| {
        assert CommitIndexed(S, s, h, j) && h[j] in h;
        assert h[j].operationId != b.operationId && h[j].commitId != b.commitId;
        OldCommitIndexed(S, T, s, h, r, j);
      } else {
        CommitEntered(T, s, h, b, prov, j);
      }
    }
  }

  lemma RecordIntoIndexes(p: Primitives, S: State, s: StreamId, b: EventBatch, prov: Provenance)
    requires StreamIndexed(p, S, s) && Enters(p, S, s, b)
    ensures StreamIndexed(p, RecordInto(S, s, b, Recorded(s, |HistoryOf(S, s)|, b), prov), s)
  {
    var h := HistoryOf(S, s);
    var r := Recorded(s, |h|, b);
    assert HistoryOf(RecordInto(S, s, b, r, prov), s) == h + r;
    EntersIsNew(p, S, s, b);
    History.RecordingKeepsValid(p.ids, s, h, b);
    SetsEntered(p, S, s, b, prov);
    CommitsEntered(p, S, s, b, prov);
  }

  lemma OldCommitIndexed(S: State, T: State, s: StreamId, h: seq<RecordedEvent>, r: seq<RecordedEvent>, j: nat)
    requires j < |h| && CommitIndexed(S, s, h, j)
    requires (s, h[j].commitId) in T.commits && T.commits[(s, h[j].commitId)] == S.commits[(s, h[j].commitId)]
    requires (s, h[j].operationId) in T.operations && T.operations[(s, h[j].operationId)] == S.operations[(s, h[j].operationId)]
    ensures CommitIndexed(T, s, h + r, j)
  {
    var e := h[j];
    assert (h + r)[j] == e;
    assert (h + r)[j - e.ordinal..j - e.ordinal + e.count] == h[j - e.ordinal..j - e.ordinal + e.count];
  }

  lemma CommitEntered(T: State, s: StreamId, h: seq<RecordedEvent>, b: EventBatch, prov: Provenance, j: nat)
    requires |h| <= j < |h| + |b.events|
    requires (s, b.commitId) in T.commits && T.commits[(s, b.commitId)] == b.operationId
    requires (s, b.operationId) in T.operations && T.operations[(s, b.operationId)] == StoredAppend(b, Recorded(s, |h|, b), prov)
    ensures CommitIndexed(T, s, h + Recorded(s, |h|, b), j)
  {
    var r := Recorded(s, |h|, b);
    SliceTail(h, r);
    var e := r[j - |h|];
    assert (h + r)[j] == e;
    assert e == FromNew(s, j + 1, b, j - |h|, |b.events|, b.events[j - |h|]);
    assert j - e.ordinal == |h|;
  }

  lemma SliceTail<T>(a: seq<T>, b: seq<T>)
    ensures (a + b)[|a|..|a| + |b|] == b
  {
  }

  /** Recording a batch keeps all indexes and moves the event total by its length. */
  lemma RecordIntoKeepsIndexed(p: Primitives, S: State, s: StreamId, b: EventBatch, prov: Provenance)
    requires Indexed(p, S) && Enters(p, S, s, b)
    ensures var T := RecordInto(S, s, b, Recorded(s, |HistoryOf(S, s)|, b), prov);
      Indexed(p, T) && TotalEvents(T.streams) == TotalEvents(S.streams) + |b.events|
  {
    var r := Recorded(s, |HistoryOf(S, s)|, b);
    var T := RecordInto(S, s, b, r, prov);
    assert StreamIndexed(p, S, s);
    RecordIntoIndexes(p, S, s, b, prov);
    forall s' ensures StreamIndexed(p, T, s') {
      if s' != s {
        assert StreamIndexed(p, S, s');
        RecordIntoElsewhere(S, s, b, r, prov, s');
        UntouchedIndexed(p, S, T, s');
      }
    }
    TotalGrows(S, s, r);
  }
}
