/**
 Aggregates: rehydration by folding decoded events. Reading a stream back after an accepted append
 gives exactly the state the handler had in memory.
 */
module Aggregates {
  import opened Wrappers
  import opened Identity
  import opened Records
  import opened Store
  import opened StoreInvariant
  import opened Executor
  import opened ExecutorRuns
  import ExecutorSteps
  import Journal

  /** An aggregate with its event codec. */
  datatype Aggregate<!S, !E> = Aggregate(
    initial: StreamId -> S,
    apply: (S, E) -> S,
    encode: (E, Text) -> Result<NewEvent, Journal.CollectError>,
    decode: RecordedEvent -> Option<E>)

  // ----- Reading a stream back -----

  /** The recorded event carries what the codec produced. */
  predicate Carries(r: RecordedEvent, n: NewEvent) {
    r.eventId == n.eventId && r.eventType == n.eventType && r.schemaVersion == n.schemaVersion && r.payload == n.payload
  }

  /** Decoding undoes encoding, whatever envelope the event was recorded in. */
  ghost predicate LawfulCodec<S, E(!new)>(G: Aggregate<S, E>) {
    forall e, id, r | G.encode(e, id).Ok? && Carries(r, G.encode(e, id).value) :: G.decode(r) == Some(e)
  }

  /** Decodes every event, or fails. */
  function DecodeAll<S, E>(G: Aggregate<S, E>, h: seq<RecordedEvent>): Option<seq<E>> {
    if |h| == 0 then Some([])
    else
      var earlier := DecodeAll(G, h[..|h| - 1]);
      var last := G.decode(h[|h| - 1]);
      if earlier.None? || last.None? then None else Some(earlier.value + [last.value])
  }

  /** The state read back from a recorded history. */
  function Rehydrate<S, E>(G: Aggregate<S, E>, s: StreamId, h: seq<RecordedEvent>): Option<S> {
    var events := DecodeAll(G, h);
    if events.None? then None else Some(Journal.Fold(G.apply, G.initial(s), events.value))
  }

  lemma {:induction false} DecodeConcat<S, E>(G: Aggregate<S, E>, h: seq<RecordedEvent>, r: seq<RecordedEvent>, es: seq<E>)
    requires DecodeAll(G, h).Some? && |r| == |es| && forall i | 0 <= i < |r| :: G.decode(r[i]) == Some(es[i])
    ensures DecodeAll(G, h + r) == Some(DecodeAll(G, h).value + es)
  {
    if |r| == 0 {
      assert h + r == h && DecodeAll(G, h).value + es == DecodeAll(G, h).value;
    } else {
      var n := |r| - 1;
      DecodeConcat(G, h, r[..n], es[..n]);
      assert (h + r)[..|h + r| - 1] == h + r[..n] && (h + r)[|h + r| - 1] == r[n];
      assert DecodeAll(G, h).value + es == DecodeAll(G, h).value + es[..n] + [es[n]];
    }
  }

  lemma {:induction false} FoldConcat<S, E>(apply: (S, E) -> S, base: S, a: seq<E>, b: seq<E>)
    ensures Journal.Fold(apply, base, a + b) == Journal.Fold(apply, Journal.Fold(apply, base, a), b)
  {
    if |b| == 0 {
      assert a + b == a;
    } else {
      var n := |b| - 1;
      FoldConcat(apply, base, a, b[..n]);
      assert (a + b)[..|a + b| - 1] == a + b[..n] && (a + b)[|a + b| - 1] == b[n];
    }
  }

  /** The batch events are the encodings of `es`, in order. */
  predicate EncodedBy<S, E>(G: Aggregate<S, E>, ids: Ids, commit: Text, es: seq<E>, events: seq<NewEvent>) {
    |events| == |es| && forall i | 0 <= i < |es| :: G.encode(es[i], ids.event(commit, i)) == Ok(events[i])
  }

  /** Recorded encodings decode to what was encoded. */
  lemma RecordedDecodes<S, E(!new)>(G: Aggregate<S, E>, ids: Ids, s: StreamId, base: nat, b: EventBatch, es: seq<E>)
    requires LawfulCodec(G) && EncodedBy(G, ids, b.commitId, es, b.events)
    ensures forall i | 0 <= i < |es| :: G.decode(Recorded(s, base, b)[i]) == Some(es[i])
  {
    var r := Recorded(s, base, b);
    forall i | 0 <= i < |es| ensures G.decode(r[i]) == Some(es[i]) {
      var id := ids.event(b.commitId, i);
      assert G.encode(es[i], id) == Ok(b.events[i]) && Carries(r[i], b.events[i]);
    }
  }

  /** Appending the encodings of `es` and reading back is the same as applying `es` in memory. */
  lemma AppendedState<S, E(!new)>(G: Aggregate<S, E>, ids: Ids, s: StreamId, h: seq<RecordedEvent>, b: EventBatch, es: seq<E>)
    requires LawfulCodec(G) && EncodedBy(G, ids, b.commitId, es, b.events) && Rehydrate(G, s, h).Some?
    ensures Rehydrate(G, s, h + Recorded(s, |h|, b)) == Some(Journal.Fold(G.apply, Rehydrate(G, s, h).value, es))
  {
    RecordedDecodes(G, ids, s, |h|, b, es);
    DecodeConcat(G, h, Recorded(s, |h|, b), es);
    FoldConcat(G.apply, G.initial(s), DecodeAll(G, h).value, es);
  }

  // ----- Commands -----

  /** The journal's behaviour for participant `k` is that of the aggregate on its stream. */
  ghost predicate Behaves<S, E(!new)>(A: Journal.Behaviour<S, E>, G: Aggregate<S, E>, ids: Ids, commit: Text, k: nat) {
    A.apply == G.apply && forall i, e :: A.encode(k, i, e) == G.encode(e, ids.event(commit, i))
  }

  lemma CollectedEncodes<S, E(!new)>(A: Journal.Behaviour<S, E>, G: Aggregate<S, E>, ids: Ids, commit: Text, k: nat, es: seq<E>, events: seq<NewEvent>)
    requires Behaves(A, G, ids, commit, k) && Journal.AllEncode(A, k, es) && events == Journal.Encodings(A, k, es)
    ensures EncodedBy(G, ids, commit, es, events)
  {
    forall i | 0 <= i < |es| ensures G.encode(es[i], ids.event(commit, i)) == Ok(events[i]) {
      assert A.encode(k, i, es[i]).Ok?;
    }
  }

  /** What was collected for the loaded stream is what the accepted decision raised on it. */
  ghost predicate Collected<S, E>(p: Primitives, c: Command, A: Journal.Behaviour<S, E>, moves: seq<Journal.Move<S, E>>, k: nat, s: StreamId, raised: seq<RaisedEvent>) {
    var W := Journal.Run(A, moves);
    && k < |W.handles| && k < |W.trackers|
    && Journal.CollectResult(W.trackers[k].journal, W.trackers[k].finalization) == Ok(NewEventsFor(p, c.metadata, s, raised))
  }

  lemma AdvancedState<S, E(!new)>(G: Aggregate<S, E>, p: Primitives, c: Command, S0: State, T: State, s: StreamId, raised: seq<RaisedEvent>, es: seq<E>)
    requires LawfulCodec(G) && StreamAdvanced(p, c, S0, T, s, raised) && Rehydrate(G, s, HistoryOf(S0, s)).Some?
    requires EncodedBy(G, p.ids, p.ids.commit(s, c.metadata.operationId), es, NewEventsFor(p, c.metadata, s, raised))
    ensures Rehydrate(G, s, HistoryOf(T, s)) == Some(Journal.Fold(G.apply, Rehydrate(G, s, HistoryOf(S0, s)).value, es))
  {
    var batch := BatchFor(p, c.metadata, s, raised);
    if batch.Some? {
      AppendedState(G, p.ids, s, HistoryOf(S0, s), batch.value, es);
    } else {
      assert es == [] && HistoryOf(T, s) == HistoryOf(S0, s);
    }
  }

  /** A successful load at an atomic execution saw the stream's own history. */
  lemma LoadSawStream(p: Primitives, c: Command, S0: State, trace: Trace, k: nat)
    requires AtomicRun(p, c, S0, trace) && k < |Loads(trace)|
    ensures Loads(trace)[k].1 == HistoryOf(S0, Loads(trace)[k].0)
  {
    var i := ExecutorSteps.LoadsSound(trace, k);
    ResponseIsHistory(p, c, S0, trace, i);
  }

  lemma ResponseIsHistory(p: Primitives, c: Command, S0: State, trace: Trace, i: nat)
    requires i < |trace| && AtomicLoad(p, c, S0, trace, i) && trace[i].Loaded?
    ensures trace[i].history == HistoryOf(S0, trace[i].stream)
  {
  }

  /** What participant `k`'s handle holds, or last held. */
  function HeldBy<S, E>(W: Journal.World<S, E>, k: nat): Option<Journal.Instance<S, E>> {
    if k < |W.handles| && W.handles[k] < |W.places| then Some(W.places[W.handles[k]].instance) else None
  }

  /**
   Persisted state equals in-memory state: right after an accepted append, rehydrating a
   participant's stream yields exactly the state of the instance the handler raised its events on,
   if that instance was rehydrated from what was loaded.
   */
  lemma PersistedIsInMemory<S, E(!new)>(
      p: Primitives, authority: Text, c: Command, S0: State, T: State, trace: Trace, k: nat,
      G: Aggregate<S, E>, A: Journal.Behaviour<S, E>, moves: seq<Journal.Move<S, E>>, x: Journal.Instance<S, E>)
    requires Inv(p, authority, S0) && AtomicExecution(p, authority, c, S0, T, trace) && c.handler(trace).Accept?
    requires k < |Loads(trace)| && LawfulCodec(G) && HeldBy(Journal.Run(A, moves), k) == Some(x)
    requires var (s, h) := Loads(trace)[k];
      && Rehydrate(G, s, h) == Some(x.base)
      && Behaves(A, G, p.ids, p.ids.commit(s, c.metadata.operationId), k)
      && Collected(p, c, A, moves, k, s, RaisedOn(c.handler(trace), k))
    ensures Rehydrate(G, Loads(trace)[k].0, HistoryOf(T, Loads(trace)[k].0)) == Some(x.state)
  {
    var (s, h) := Loads(trace)[k];
    Journal.CollectExact(A, moves, k);
    LoadSawStream(p, c, S0, trace, k);
    AtomicEffect(p, authority, c, S0, T, trace);
    CollectedEncodes(A, G, p.ids, p.ids.commit(s, c.metadata.operationId), k, x.uncommitted,
                     NewEventsFor(p, c.metadata, s, RaisedOn(c.handler(trace), k)));
    AdvancedState(G, p, c, S0, T, s, RaisedOn(c.handler(trace), k), x.uncommitted);
  }
}
