/** Whole runs of the store: what holds after any sequence of permitted mutations. */
module StoreRuns {
  import opened Wrappers
  import opened Identity
  import opened Records
  import opened Proposal
  import opened Receipts
  import opened Outcome
  import opened Store
  import opened StoreInvariant
  import opened StoreSteps
  import History

  predicate AllPermitted(ops: seq<Operation>) {
    forall i | 0 <= i < |ops| :: Permitted(ops[i])
  }

  lemma EmptyStoreSound(p: Primitives, authority: Text)
    ensures Inv(p, authority, EMPTY)
  {
    forall s ensures StreamIndexed(p, EMPTY, s) {
    }
  }

  /** Any run keeps the invariant and only ever adds. */
  lemma {:induction false} RunKeeps(p: Primitives, authority: Text, S: State, ops: seq<Operation>)
    requires Lawful(p) && Inv(p, authority, S) && AllPermitted(ops)
    ensures var T := PerformAll(p, authority, S, ops); Inv(p, authority, T) && Evolves(S, T)
    decreases |ops|
  {
    if |ops| == 0 {
      NothingEvolves(S);
    } else {
      var T := Perform(p, authority, S, ops[0]);
      PerformKeeps(p, authority, S, ops[0]);
      RunKeeps(p, authority, T, ops[1..]);
      EvolvesTransitive(S, T, PerformAll(p, authority, T, ops[1..]));
    }
  }

  /** Every stream of every reachable store is a history, and the store satisfies its invariant. */
  lemma EveryReachableStoreSound(p: Primitives, authority: Text, ops: seq<Operation>, s: StreamId)
    requires Lawful(p) && AllPermitted(ops)
    ensures Inv(p, authority, PerformAll(p, authority, EMPTY, ops))
    ensures History.IsHistory(p.ids, s, HistoryOf(PerformAll(p, authority, EMPTY, ops), s))
  {
    EmptyStoreSound(p, authority);
    RunKeeps(p, authority, EMPTY, ops);
    var T := PerformAll(p, authority, EMPTY, ops);
    assert StreamIndexed(p, T, s);
    History.ValidIsHistory(p.ids, s, HistoryOf(T, s));
  }

  function EventIndex(streams: map<StreamId, seq<RecordedEvent>>): set<(StreamId, Text)> {
    set s, e | s in streams && e in streams[s] :: (s, e.eventId)
  }

  function CommitIndex(streams: map<StreamId, seq<RecordedEvent>>): set<(StreamId, Text)> {
    set s, e | s in streams && e in streams[s] :: (s, e.commitId)
  }

  function OperationIndex(streams: map<StreamId, seq<RecordedEvent>>): set<(StreamId, Text)> {
    set s, e | s in streams && e in streams[s] :: (s, e.operationId)
  }

  lemma KeysIndexed(p: Primitives, S: State, key: (StreamId, Text))
    requires Indexed(p, S)
    ensures key in S.eventIds <==> key.0 in S.streams && key.1 in EventIdsIn(S.streams[key.0])
    ensures key in S.commits <==> key.0 in S.streams && key.1 in CommitsIn(S.streams[key.0])
    ensures key in S.operations <==> key.0 in S.streams && key.1 in OperationsIn(S.streams[key.0])
  {
    assert StreamIndexed(p, S, key.0) && key == (key.0, key.1);
  }

  lemma KeysComputed(streams: map<StreamId, seq<RecordedEvent>>, key: (StreamId, Text))
    ensures key in EventIndex(streams) <==> key.0 in streams && key.1 in EventIdsIn(streams[key.0])
    ensures key in CommitIndex(streams) <==> key.0 in streams && key.1 in CommitsIn(streams[key.0])
    ensures key in OperationIndex(streams) <==> key.0 in streams && key.1 in OperationsIn(streams[key.0])
  {
    assert key == (key.0, key.1);
  }

  /** The redundant indexes are exactly those computed from the streams. */
  lemma IndexesAreComputed(p: Primitives, authority: Text, S: State)
    requires Inv(p, authority, S)
    ensures S.eventIds == EventIndex(S.streams)
    ensures S.commits.Keys == CommitIndex(S.streams)
    ensures S.operations.Keys == OperationIndex(S.streams)
    ensures S.eventCount == TotalEvents(S.streams)
  {
    forall key
      ensures key in S.eventIds <==> key in EventIndex(S.streams)
      ensures key in S.commits <==> key in CommitIndex(S.streams)
      ensures key in S.operations <==> key in OperationIndex(S.streams)
    {
      KeysIndexed(p, S, key);
      KeysComputed(S.streams, key);
    }
  }

  lemma ReceiptStands(p: Primitives, authority: Text, S: State, k: TransactionKey, i: nat)
    requires Inv(p, authority, S) && k in S.transactions && i < |S.transactions[k].Receipt().streams|
    ensures var sr := S.transactions[k].Receipt().streams[i];
      Applied(S, S.transactions[k].Receipt().operationId, sr) && StreamIndexed(p, S, sr.streamId)
  {
    assert TransactionIntact(p, authority, S, k);
  }

  /** Every event of every recorded transaction stands in its stream at exactly one place. */
  lemma RecordedExactlyOnce(p: Primitives, authority: Text, S: State, k: TransactionKey, i: nat, j: nat)
    requires Inv(p, authority, S) && k in S.transactions
    requires i < |S.transactions[k].Receipt().streams| && j < |S.transactions[k].Receipt().streams[i].events|
    ensures var sr := S.transactions[k].Receipt().streams[i]; var h := HistoryOf(S, sr.streamId);
      && sr.baseVersion + j < |h| && h[sr.baseVersion + j] == sr.events[j]
      && forall m | 0 <= m < |h| && h[m].eventId == sr.events[j].eventId :: m == sr.baseVersion + j
  {
    ReceiptStands(p, authority, S, k, i);
    OnePlace(p, S, S.transactions[k].Receipt().streams[i], j);
  }

  lemma OnePlace(p: Primitives, S: State, sr: StreamReceipt, j: nat)
    requires StreamIndexed(p, S, sr.streamId) && j < |sr.events|
    requires var h := HistoryOf(S, sr.streamId);
      sr.baseVersion + |sr.events| <= |h| && h[sr.baseVersion..sr.baseVersion + |sr.events|] == sr.events
    ensures var h := HistoryOf(S, sr.streamId);
      && h[sr.baseVersion + j] == sr.events[j]
      && forall m | 0 <= m < |h| && h[m].eventId == sr.events[j].eventId :: m == sr.baseVersion + j
  {
    var h := HistoryOf(S, sr.streamId);
    var n := sr.baseVersion + j;
    assert h[n] == h[sr.baseVersion..sr.baseVersion + |sr.events|][j];
    forall m | 0 <= m < |h| && h[m].eventId == h[n].eventId ensures m == n {
      assert History.Fresh(h, m) && History.Fresh(h, n);
    }
  }

  // ----- Permanent exact replay -----

  /** The transaction was newly recorded in `S`. */
  ghost predicate RecordedIn(p: Primitives, authority: Text, limits: Limits, S: State, t: EventTransaction) {
    && WellFormedTransaction(t) && (t.completion.Some? ==> CompletedTransactionValid(p, t))
    && Transact(p, authority, limits, S, t).1.Ok? && !Transact(p, authority, limits, S, t).1.value.1
  }

  lemma RecordedStays(p: Primitives, authority: Text, limits: Limits, S: State, t: EventTransaction, ops: seq<Operation>)
    requires Lawful(p) && Inv(p, authority, S) && AllPermitted(ops) && RecordedIn(p, authority, limits, S, t)
    ensures var (T, r) := Transact(p, authority, limits, S, t); var U := PerformAll(p, authority, T, ops);
      && KeyOf(t) in U.transactions && U.transactions[KeyOf(t)] == r.value.0
      && r.value.0.Digest() == DigestOf(p, t) && WithinItemLimit(t) && ActorsAgree(t)
      && Inv(p, authority, U)
  {
    TransactKeeps(p, authority, limits, S, t);
    RecordedNow(p, authority, limits, S, t);
    RunKeeps(p, authority, Transact(p, authority, limits, S, t).0, ops);
  }

  lemma RecordedNow(p: Primitives, authority: Text, limits: Limits, S: State, t: EventTransaction)
    requires RecordedIn(p, authority, limits, S, t)
    ensures var (T, r) := Transact(p, authority, limits, S, t);
      && KeyOf(t) in T.transactions && T.transactions[KeyOf(t)] == r.value.0
      && r.value.0.Digest() == DigestOf(p, t) && WithinItemLimit(t) && ActorsAgree(t)
  {
    RecordCarriesDigest(p, authority, S, t);
  }

  lemma RecordCarriesDigest(p: Primitives, authority: Text, S: State, t: EventTransaction)
    ensures RecordOf(p, authority, S, t).Ok? ==> RecordOf(p, authority, S, t).value.0.Digest() == DigestOf(p, t)
  {
  }

  /** Equal content, whatever its expected versions, gets the original record back; nothing changes. */
  lemma PermanentReplay(p: Primitives, authority: Text, limits: Limits, S: State, t: EventTransaction, ops: seq<Operation>, limits': Limits, u: EventTransaction)
    requires Lawful(p) && Inv(p, authority, S) && AllPermitted(ops) && RecordedIn(p, authority, limits, S, t)
    requires SameContent(t, u)
    ensures var (T, r) := Transact(p, authority, limits, S, t); var U := PerformAll(p, authority, T, ops);
      Transact(p, authority, limits', U, u) == (U, Ok((r.value.0, true)))
  {
    RecordedStays(p, authority, limits, S, t, ops);
    SameContentSameDigest(p, t, u);
    SameContentFields(t, u);
  }

  /** Different content under the same key is an identity conflict, unless the hash collides. */
  lemma PermanentConflict(p: Primitives, authority: Text, limits: Limits, S: State, t: EventTransaction, ops: seq<Operation>, limits': Limits, u: EventTransaction)
    requires Lawful(p) && Inv(p, authority, S) && AllPermitted(ops) && RecordedIn(p, authority, limits, S, t)
    requires KeyOf(u) == KeyOf(t) && !SameContent(t, u)
    requires WithinItemLimit(u) && ActorsAgree(u) && Machine(p, t) && Machine(p, u)
    requires CollisionFree(p.sha, {Frame(ProposalParts(p, t)), Frame(ProposalParts(p, u))})
    ensures var T := Transact(p, authority, limits, S, t).0; var U := PerformAll(p, authority, T, ops);
      Transact(p, authority, limits', U, u) == (U, Err(IdentityConflict))
  {
    RecordedStays(p, authority, limits, S, t, ops);
    DigestInjective(p, t, u);
  }

  // ----- Expiry -----

  /** Scoped transactions and detail slots correspond one to one. */
  lemma SlotsMatchTransactions(p: Primitives, authority: Text, S: State)
    requires Inv(p, authority, S)
    ensures forall ref :: ref in S.details <==>
      exists k :: k in S.transactions && S.transactions[k].Scoped? && S.transactions[k].marker.reference == ref
    ensures forall k, k' | k in S.transactions && k' in S.transactions && S.transactions[k].Scoped? && S.transactions[k'].Scoped?
        && S.transactions[k].marker.reference == S.transactions[k'].marker.reference :: k == k'
  {
    forall ref | ref in S.details
      ensures exists k :: k in S.transactions && S.transactions[k].Scoped? && S.transactions[k].marker.reference == ref
    {
      assert SlotOwned(S, ref);
      var k: TransactionKey := (Some(ref.key.context), ref.key.operationId);
      assert k in S.transactions && S.transactions[k].Scoped? && S.transactions[k].marker.reference == ref;
    }
    forall k | k in S.transactions && S.transactions[k].Scoped?
      ensures S.transactions[k].marker.reference in S.details
      ensures k == (Some(S.transactions[k].marker.reference.key.context), S.transactions[k].marker.reference.key.operationId)
    {
      assert TransactionIntact(p, authority, S, k);
    }
  }

  /** Once expired, a slot stays expired and its record stays recorded, through any run. */
  lemma ExpiryIsFinal(p: Primitives, authority: Text, S: State, ops: seq<Operation>, k: TransactionKey)
    requires Lawful(p) && Inv(p, authority, S) && AllPermitted(ops)
    requires k in S.transactions && S.transactions[k].Scoped?
    requires var ref := S.transactions[k].marker.reference; ref in S.details && S.details[ref].Expired?
    ensures var T := PerformAll(p, authority, S, ops);
      && k in T.transactions && T.transactions[k] == S.transactions[k]
      && var ref := S.transactions[k].marker.reference; ref in T.details && T.details[ref].Expired?
  {
    RunKeeps(p, authority, S, ops);
  }
}
