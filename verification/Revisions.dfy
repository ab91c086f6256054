/** What a marker's revision identifies: without a collision, everything the marker says. */
module Revisions {
  import opened Wrappers
  import opened Identity
  import opened Records
  import opened Receipts
  import opened Outcome
  import Proposal

  /** The serializers behind a revision lose nothing. */
  ghost predicate LawfulRevisions(p: Primitives) {
    && (forall a, b :: p.referenceJson(a) == p.referenceJson(b) ==> a == b)
    && (forall a, b :: p.evidenceJson(a) == p.evidenceJson(b) ==> a == b)
    && (forall a, b :: p.integrityJson(a) == p.integrityJson(b) ==> a == b)
  }

  /** A marker as `prepare` and `restore_manifest` leave it. */
  predicate Revised(p: Primitives, m: OutcomeMarker) {
    && m.revision == MarkerRevision(p, m.reference, m.proposal, m.evidence, m.integrity)
    && Integrity(p, m.integrity) && m.integrity.completion.None?
  }

  /** Lengths and versions fit the fields they are written to. */
  predicate MachineMarker(p: Primitives, m: OutcomeMarker) {
    m.proposal.version <= U16_MAX && Addressable(RevisionParts(p, m.reference, m.proposal, m.evidence, m.integrity))
  }

  function Payloads(r: TransactionReceipt): set<Text> {
    set k, i | 0 <= k < |r.streams| && 0 <= i < |r.streams[k].events| :: r.streams[k].events[i].payload
  }

  /** Everything that is hashed on the way to the marker's revision. */
  function RevisionInputs(p: Primitives, m: OutcomeMarker): set<Text> {
    {Frame(RevisionParts(p, m.reference, m.proposal, m.evidence, m.integrity)), p.integrityJson(RowsOf(p, m.integrity))}
    + Payloads(m.integrity)
  }

  lemma PreparedIsRevised(p: Primitives, authority: Text, t: EventTransaction, r: TransactionReceipt)
    requires Prepare(p, authority, t, r).Ok?
    ensures Revised(p, Prepare(p, authority, t, r).value.0)
  {
    PreparedManifest(p, authority, t, r);
  }

  lemma RestoredIsRevised(p: Primitives, key: OutcomeKey, bytes: Text, integrity: TransactionReceipt)
    requires RestoreManifest(p, key, bytes, integrity).Ok?
    ensures Revised(p, RestoreManifest(p, key, bytes, integrity).value)
  {
  }

  // ----- The rows determine the receipt -----

  /** An intact event is determined by its receipt's headers and its row. */
  lemma RowDeterminesEvent(p: Primitives, a: TransactionReceipt, b: TransactionReceipt, x: StreamReceipt, y: StreamReceipt, i: nat)
    requires i < |x.events| == |y.events| && EventIntact(p, a, x, i) && EventIntact(p, b, y, i)
    requires a.(streams := []) == b.(streams := []) && x.streamId == y.streamId
    requires EventRowOf(p, a, x.events[i]) == EventRowOf(p, b, y.events[i])
    requires p.sha(x.events[i].payload) == p.sha(y.events[i].payload) ==> x.events[i].payload == y.events[i].payload
    ensures x.events[i] == y.events[i]
  {
    var e, f := x.events[i], y.events[i];
    assert EventRowOf(p, a, e).payloadDigest == EventRowOf(p, b, f).payloadDigest;
    assert EventRowOf(p, a, e).eventType == EventRowOf(p, b, f).eventType;
    assert EventRowOf(p, a, e).schemaVersion == EventRowOf(p, b, f).schemaVersion;
    assert EventRowOf(p, a, e).streamVersion == EventRowOf(p, b, f).streamVersion;
  }

  lemma RowDeterminesStream(p: Primitives, a: TransactionReceipt, b: TransactionReceipt, k: nat)
    requires Integrity(p, a) && Integrity(p, b) && k < |a.streams| == |b.streams|
    requires a.(streams := []) == b.(streams := [])
    requires StreamRowOf(p, a, a.streams[k]) == StreamRowOf(p, b, b.streams[k])
    requires CollisionFree(p.sha, Payloads(a) + Payloads(b))
    ensures a.streams[k] == b.streams[k]
  {
    var x, y := a.streams[k], b.streams[k];
    assert |x.events| == |StreamRowOf(p, a, x).events| == |y.events|;
    assert StreamIntact(p, a, x) && StreamIntact(p, b, y);
    forall i | 0 <= i < |x.events| ensures x.events[i] == y.events[i] {
      assert StreamRowOf(p, a, x).events[i] == StreamRowOf(p, b, y).events[i];
      assert x.events[i].payload in Payloads(a) && y.events[i].payload in Payloads(b);
      assert EventIntact(p, a, x, i) && EventIntact(p, b, y, i);
      RowDeterminesEvent(p, a, b, x, y, i);
    }
    assert x.events == y.events;
  }

  /** Intact receipts with the same rows are the same, although the rows leave out most of each event. */
  lemma RowsDetermineReceipt(p: Primitives, a: TransactionReceipt, b: TransactionReceipt)
    requires Integrity(p, a) && Integrity(p, b) && a.completion.None? && b.completion.None?
    requires RowsOf(p, a) == RowsOf(p, b) && CollisionFree(p.sha, Payloads(a) + Payloads(b))
    ensures a == b
  {
    assert |a.streams| == |RowsOf(p, a).streams| == |b.streams|;
    forall k | 0 <= k < |a.streams| ensures a.streams[k] == b.streams[k] {
      assert RowsOf(p, a).streams[k] == RowsOf(p, b).streams[k];
      RowDeterminesStream(p, a, b, k);
    }
    assert a.streams == b.streams;
  }

  // ----- The revision determines the marker -----

  lemma SameParts(p: Primitives, a: OutcomeMarker, b: OutcomeMarker)
    requires LawfulRevisions(p) && MachineMarker(p, a) && MachineMarker(p, b)
    requires RevisionParts(p, a.reference, a.proposal, a.evidence, a.integrity)
      == RevisionParts(p, b.reference, b.proposal, b.evidence, b.integrity)
    ensures a.reference == b.reference && a.proposal == b.proposal && a.evidence == b.evidence
    ensures IntegrityDigest(p, a.integrity) == IntegrityDigest(p, b.integrity)
  {
    var x := RevisionParts(p, a.reference, a.proposal, a.evidence, a.integrity);
    var y := RevisionParts(p, b.reference, b.proposal, b.evidence, b.integrity);
    assert x[1] == y[1] && x[2] == y[2] && x[3] == y[3] && x[4] == y[4] && x[5] == y[5];
    Pow256Widths();
    BigEndianReadsBack(a.proposal.version, 2);
    BigEndianReadsBack(b.proposal.version, 2);
  }

  /** Equal revisions mean equal reference, proposal, evidence and integrity receipt, and so equal markers. */
  lemma RevisionDetermines(p: Primitives, a: OutcomeMarker, b: OutcomeMarker)
    requires LawfulRevisions(p) && Revised(p, a) && Revised(p, b) && MachineMarker(p, a) && MachineMarker(p, b)
    requires CollisionFree(p.sha, RevisionInputs(p, a) + RevisionInputs(p, b))
    ensures a.revision == b.revision <==> a == b
  {
    if a.revision == b.revision {
      var x := RevisionParts(p, a.reference, a.proposal, a.evidence, a.integrity);
      var y := RevisionParts(p, b.reference, b.proposal, b.evidence, b.integrity);
      assert Frame(x) in RevisionInputs(p, a) && Frame(y) in RevisionInputs(p, b);
      FrameInjective(x, y);
      SameParts(p, a, b);
      assert p.integrityJson(RowsOf(p, a.integrity)) in RevisionInputs(p, a);
      assert p.integrityJson(RowsOf(p, b.integrity)) in RevisionInputs(p, b);
      RowsDetermineReceipt(p, a.integrity, b.integrity);
    }
  }
}
