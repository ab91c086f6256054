/** Checked receipt boundaries: self-contained integrity, and agreement with the proposal. */
module Receipts {
  import opened Wrappers
  import opened Identity
  import opened Records

  // ----- What the two validators decide -----

  /** Event `i` of a stream receipt has the coordinates and provenance its receipt implies. */
  predicate EventIntact(p: Primitives, r: TransactionReceipt, sr: StreamReceipt, i: nat)
    requires i < |sr.events|
  {
    var e := sr.events[i];
    && sr.baseVersion + i + 1 <= U64_MAX
    && e.streamId == sr.streamId
    && e.streamVersion == sr.baseVersion + i + 1
    && e.commitId == p.ids.commit(sr.streamId, r.operationId)
    && e.eventId == p.ids.event(e.commitId, i)
    && e.operationId == r.operationId
    && e.fingerprint == r.fingerprint
    && e.correlationId == r.correlationId
    && e.causationId == r.causationId
    && e.actor == r.actor
    && e.ordinal == i
    && e.count == |sr.events|
  }

  predicate StreamIntact(p: Primitives, r: TransactionReceipt, sr: StreamReceipt) {
    |sr.events| <= U32_MAX && forall i | 0 <= i < |sr.events| :: EventIntact(p, r, sr, i)
  }

  predicate NewStream(r: TransactionReceipt, k: nat)
    requires k < |r.streams|
  {
    forall j | 0 <= j < k :: r.streams[j].streamId != r.streams[k].streamId
  }

  predicate CompletionIntact(p: Primitives, r: TransactionReceipt) {
    && (r.completion.Some? ==> CompletionValid(p, r.completion.value))
    && (IsRejection(r.completion) ==> forall k | 0 <= k < |r.streams| :: r.streams[k].events == [])
  }

  predicate Integrity(p: Primitives, r: TransactionReceipt) {
    && (forall k | 0 <= k < |r.streams| :: NewStream(r, k) && StreamIntact(p, r, r.streams[k]))
    && CompletionIntact(p, r)
  }

  predicate SameEvent(new_: NewEvent, recorded: RecordedEvent) {
    && new_.eventId == recorded.eventId
    && new_.eventType == recorded.eventType
    && new_.schemaVersion == recorded.schemaVersion
    && new_.payload == recorded.payload
  }

  predicate ExpectedBase(expected: ExpectedVersion, base: nat) {
    match expected
    case NoStream => base == 0
    case Exact(version) => version != 0 && version == base
  }

  /** A stream receipt records exactly what its participant proposed. */
  predicate ParticipantMatches(p: Primitives, r: TransactionReceipt, sr: StreamReceipt, x: Participant) {
    && ExpectedBase(x.expected, sr.baseVersion)
    && sr.streamId == x.streamId
    && match x.batch
       case None => sr.events == []
       case Some(b) =>
         && b.operationId == r.operationId
         && b.fingerprint == r.fingerprint
         && b.correlationId == r.correlationId
         && b.causationId == r.causationId
         && b.actor == r.actor
         && b.commitId == p.ids.commit(sr.streamId, r.operationId)
         && |b.events| == |sr.events|
         && forall i | 0 <= i < |b.events| :: SameEvent(b.events[i], sr.events[i])
  }

  predicate HeadersMatch(r: TransactionReceipt, t: EventTransaction) {
    && r.boundedContext == t.boundedContext
    && r.operationId == t.operationId
    && r.fingerprint == t.fingerprint
    && r.correlationId == t.correlationId
    && r.causationId == t.causationId
    && r.actor == t.actor
    && r.securityScope == t.securityScope
    && (r.completion.Some? ==> r.completion == t.completion)
    && |r.streams| == |t.participants|
  }

  predicate MatchesProposal(p: Primitives, r: TransactionReceipt, t: EventTransaction) {
    && (t.completion.Some? ==> CompletedTransactionValid(p, t))
    && WithinItemLimit(t)
    && Integrity(p, r)
    && HeadersMatch(r, t)
    && forall k | 0 <= k < |r.streams| :: ParticipantMatches(p, r, r.streams[k], t.participants[k])
  }

  // ----- The validators -----

  method ValidateStream(p: Primitives, r: TransactionReceipt, sr: StreamReceipt) returns (ok: bool)
    ensures ok <==> StreamIntact(p, r, sr)
  {
    var commit := p.ids.commit(sr.streamId, r.operationId);
    if |sr.events| > U32_MAX {
      return false;
    }
    var version := sr.baseVersion;
    for i := 0 to |sr.events|
      invariant version == sr.baseVersion + i
      invariant forall k | 0 <= k < i :: EventIntact(p, r, sr, k)
    {
      assert StreamIntact(p, r, sr) ==> EventIntact(p, r, sr, i);
      if version >= U64_MAX {
        return false;
      }
      version := version + 1;
      var e := sr.events[i];
      if e.streamId != sr.streamId || e.streamVersion != version || e.commitId != commit
         || e.eventId != p.ids.event(commit, i) || e.operationId != r.operationId || e.fingerprint != r.fingerprint
         || e.correlationId != r.correlationId || e.causationId != r.causationId || e.actor != r.actor
         || e.ordinal != i || e.count != |sr.events|
      {
        return false;
      }
    }
    return true;
  }

  /** `validate_integrity`. */
  method ValidateIntegrity(p: Primitives, r: TransactionReceipt) returns (ok: bool)
    ensures ok <==> Integrity(p, r)
  {
    var streams: set<StreamId> := {};
    for k := 0 to |r.streams|
      invariant forall x :: x in streams <==> exists j :: 0 <= j < k && r.streams[j].streamId == x
      invariant forall j | 0 <= j < k :: NewStream(r, j) && StreamIntact(p, r, r.streams[j])
    {
      var sr := r.streams[k];
      assert Integrity(p, r) ==> NewStream(r, k) && StreamIntact(p, r, sr);
      if sr.streamId in streams {
        return false;
      }
      streams := streams + {sr.streamId};
      var intact := ValidateStream(p, r, sr);
      if !intact {
        return false;
      }
    }
    return CompletionIntact(p, r);
  }

  method ValidateParticipant(p: Primitives, r: TransactionReceipt, sr: StreamReceipt, x: Participant) returns (ok: bool)
    ensures ok <==> ParticipantMatches(p, r, sr, x)
  {
    if !ExpectedBase(x.expected, sr.baseVersion) || sr.streamId != x.streamId {
      return false;
    }
    if x.batch.None? {
      return sr.events == [];
    }
    var b := x.batch.value;
    if b.operationId != r.operationId || b.fingerprint != r.fingerprint || b.correlationId != r.correlationId
       || b.causationId != r.causationId || b.actor != r.actor || b.commitId != p.ids.commit(sr.streamId, r.operationId)
       || |b.events| != |sr.events|
    {
      return false;
    }
    for i := 0 to |b.events|
      invariant forall k | 0 <= k < i :: SameEvent(b.events[k], sr.events[k])
    {
      if !SameEvent(b.events[i], sr.events[i]) {
        return false;
      }
    }
    return true;
  }

  /** `validate_proposal`. */
  method ValidateProposal(p: Primitives, r: TransactionReceipt, t: EventTransaction) returns (ok: bool)
    ensures ok <==> MatchesProposal(p, r, t)
  {
    if (t.completion.Some? && !CompletedTransactionValid(p, t)) || !WithinItemLimit(t) {
      return false;
    }
    var intact := ValidateIntegrity(p, r);
    if !intact || !HeadersMatch(r, t) {
      return false;
    }
    for k := 0 to |r.streams|
      invariant forall j | 0 <= j < k :: ParticipantMatches(p, r, r.streams[j], t.participants[j])
    {
      var matches := ValidateParticipant(p, r, r.streams[k], t.participants[k]);
      if !matches {
        return false;
      }
    }
    return true;
  }

  // ----- The receipt a store builds -----

  function EventsOf(x: Participant, base: nat): seq<RecordedEvent> {
    match x.batch
    case None => []
    case Some(b) => Recorded(x.streamId, base, b)
  }

  function StreamReceipts(ps: seq<Participant>, bases: seq<nat>): (streams: seq<StreamReceipt>)
    requires |ps| == |bases|
    ensures |streams| == |ps|
    ensures forall i | 0 <= i < |ps| :: streams[i] == StreamReceipt(ps[i].streamId, bases[i], EventsOf(ps[i], bases[i]))
  {
    seq(|ps|, i requires 0 <= i < |ps| => StreamReceipt(ps[i].streamId, bases[i], EventsOf(ps[i], bases[i])))
  }

  function BuildReceipt(t: EventTransaction, bases: seq<nat>): TransactionReceipt
    requires |t.participants| == |bases|
  {
    TransactionReceipt(t.actor, t.securityScope, None, t.boundedContext, t.operationId, t.fingerprint,
                       t.correlationId, t.causationId, StreamReceipts(t.participants, bases))
  }

  predicate DerivedBatch(p: Primitives, stream: StreamId, b: EventBatch) {
    && b.commitId == p.ids.commit(stream, b.operationId)
    && forall i | 0 <= i < |b.events| :: b.events[i].eventId == p.ids.event(b.commitId, i)
  }

  predicate BatchOfTransaction(t: EventTransaction, b: EventBatch) {
    && b.operationId == t.operationId
    && b.fingerprint == t.fingerprint
    && b.correlationId == t.correlationId
    && b.causationId == t.causationId
    && b.actor == t.actor
  }

  /** Participants are distinct streams, and each batch belongs to the transaction and its stream. */
  predicate ProperParticipants(p: Primitives, t: EventTransaction) {
    && (forall i, j | 0 <= i < j < |t.participants| :: t.participants[i].streamId != t.participants[j].streamId)
    && forall i | 0 <= i < |t.participants| && t.participants[i].batch.Some? ::
         BatchOfTransaction(t, t.participants[i].batch.value)
         && DerivedBatch(p, t.participants[i].streamId, t.participants[i].batch.value)
  }

  predicate BasesFit(t: EventTransaction, bases: seq<nat>) {
    && |t.participants| == |bases|
    && forall i | 0 <= i < |bases| ::
         ExpectedBase(t.participants[i].expected, bases[i])
         && (t.participants[i].batch.Some? ==> bases[i] + |t.participants[i].batch.value.events| <= U64_MAX)
  }

  /** Whatever passed transaction validation and recording yields a receipt both validators accept. */
  lemma BuiltReceiptMatches(p: Primitives, t: EventTransaction, bases: seq<nat>)
    requires WellFormedTransaction(t) && WithinItemLimit(t) && ProperParticipants(p, t) && BasesFit(t, bases)
    requires t.completion.Some? ==> CompletedTransactionValid(p, t)
    ensures MatchesProposal(p, BuildReceipt(t, bases), t)
  {
    var r := BuildReceipt(t, bases);
    forall k | 0 <= k < |r.streams|
      ensures NewStream(r, k) && StreamIntact(p, r, r.streams[k])
      ensures ParticipantMatches(p, r, r.streams[k], t.participants[k])
    {
      BuiltStreamIntact(p, t, bases, k);
    }
  }

  lemma BuiltStreamIntact(p: Primitives, t: EventTransaction, bases: seq<nat>, k: nat)
    requires WellFormedTransaction(t) && ProperParticipants(p, t) && BasesFit(t, bases) && k < |bases|
    ensures var r := BuildReceipt(t, bases); StreamIntact(p, r, r.streams[k])
    ensures var r := BuildReceipt(t, bases); ParticipantMatches(p, r, r.streams[k], t.participants[k])
  {
    var r := BuildReceipt(t, bases);
    var x := t.participants[k];
    if x.batch.Some? {
      assert AdmissibleEvents(x.batch.value.events);
      forall i | 0 <= i < |r.streams[k].events| ensures EventIntact(p, r, r.streams[k], i) {
        assert x.batch.value.events[i].eventId == p.ids.event(x.batch.value.commitId, i);
      }
    }
  }

  // ----- And nothing else -----

  /** The base versions a receipt speaks of. */
  function BasesOf(r: TransactionReceipt): (bases: seq<nat>)
    ensures |bases| == |r.streams| && forall k | 0 <= k < |bases| :: bases[k] == r.streams[k].baseVersion
  {
    seq(|r.streams|, k requires 0 <= k < |r.streams| => r.streams[k].baseVersion)
  }

  lemma MatchingStreamIsBuilt(p: Primitives, r: TransactionReceipt, t: EventTransaction, k: nat)
    requires MatchesProposal(p, r, t) && k < |r.streams|
    ensures var x, sr := t.participants[k], r.streams[k];
      && sr == StreamReceipt(x.streamId, sr.baseVersion, EventsOf(x, sr.baseVersion))
      && ExpectedBase(x.expected, sr.baseVersion)
      && (x.batch.Some? ==> BatchOfTransaction(t, x.batch.value) && DerivedBatch(p, x.streamId, x.batch.value))
      && (x.batch.Some? && |x.batch.value.events| > 0 ==> sr.baseVersion + |x.batch.value.events| <= U64_MAX)
  {
    var x, sr := t.participants[k], r.streams[k];
    assert ParticipantMatches(p, r, sr, x) && StreamIntact(p, r, sr);
    if x.batch.Some? {
      var b := x.batch.value;
      forall i | 0 <= i < |b.events|
        ensures sr.events[i] == FromNew(x.streamId, sr.baseVersion + i + 1, b, i, |b.events|, b.events[i])
        ensures b.events[i].eventId == p.ids.event(b.commitId, i)
      {
        assert EventIntact(p, r, sr, i) && SameEvent(b.events[i], sr.events[i]);
      }
      assert sr.events == Recorded(x.streamId, sr.baseVersion, b);
      if |b.events| > 0 {
        assert EventIntact(p, r, sr, |b.events| - 1);
      }
    }
  }

  /** A receipt that validates against a proposal is the one that recording the proposal at its bases builds. */
  lemma MatchingIsBuilt(p: Primitives, r: TransactionReceipt, t: EventTransaction)
    requires WellFormedTransaction(t) && MatchesProposal(p, r, t)
    ensures ProperParticipants(p, t) && BasesFit(t, BasesOf(r))
    ensures r.(completion := None) == BuildReceipt(t, BasesOf(r))
  {
    forall k | 0 <= k < |r.streams|
      ensures r.streams[k] == StreamReceipts(t.participants, BasesOf(r))[k]
      ensures ExpectedBase(t.participants[k].expected, BasesOf(r)[k])
      ensures t.participants[k].batch.Some? ==>
        BatchOfTransaction(t, t.participants[k].batch.value)
        && DerivedBatch(p, t.participants[k].streamId, t.participants[k].batch.value)
        && BasesOf(r)[k] + |t.participants[k].batch.value.events| <= U64_MAX
    {
      MatchingStreamIsBuilt(p, r, t, k);
    }
    assert r.streams == StreamReceipts(t.participants, BasesOf(r));
    forall i, j | 0 <= i < j < |t.participants| ensures t.participants[i].streamId != t.participants[j].streamId {
      assert NewStream(r, j);
      assert ParticipantMatches(p, r, r.streams[i], t.participants[i]) && ParticipantMatches(p, r, r.streams[j], t.participants[j]);
    }
  }

  /** `validate_proposal` accepts exactly the receipts that recording a proper proposal at fitting bases builds. */
  lemma ProposalValidatedExactly(p: Primitives, r: TransactionReceipt, t: EventTransaction)
    requires WellFormedTransaction(t) && r.completion.None?
    ensures MatchesProposal(p, r, t) <==>
      && (t.completion.Some? ==> CompletedTransactionValid(p, t)) && WithinItemLimit(t)
      && ProperParticipants(p, t) && BasesFit(t, BasesOf(r)) && r == BuildReceipt(t, BasesOf(r))
  {
    if MatchesProposal(p, r, t) {
      MatchingIsBuilt(p, r, t);
    } else if (t.completion.Some? ==> CompletedTransactionValid(p, t)) && WithinItemLimit(t)
        && ProperParticipants(p, t) && BasesFit(t, BasesOf(r)) && r == BuildReceipt(t, BasesOf(r)) {
      BuiltReceiptMatches(p, t, BasesOf(r));
    }
  }
}
