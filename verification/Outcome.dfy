/** Permanent decision evidence (markers) and separately withdrawable details. */
module Outcome {
  import opened Wrappers
  import opened Identity
  import opened Records
  import opened Proposal
  import opened Receipts

  function ActorFormat(actor: Option<ActorRef>): nat {
    if actor.Some? then 2 else 1
  }

  // ----- Detail encoding -----

  /** The completion with its rejection bytes moved out. */
  function WithoutBytes(c: Option<CommandCompletion>): Option<CommandCompletion> {
    if IsRejection(c) then Some(c.value.(rejection := Some(c.value.rejection.value.(bytes := [])))) else c
  }

  function RejectionBytes(c: Option<CommandCompletion>): Text {
    if IsRejection(c) then c.value.rejection.value.bytes else []
  }

  function WithBytes(c: Option<CommandCompletion>, bytes: Text): Option<CommandCompletion> {
    if IsRejection(c) then Some(c.value.(rejection := Some(c.value.rejection.value.(bytes := bytes)))) else c
  }

  function HeaderOf(c: Option<CommandCompletion>, key: OutcomeKey, scope: Option<Text>, actor: Option<ActorRef>): DetailHeader {
    DetailHeader(ActorFormat(actor), key.authority, key.context, key.operationId, scope, actor, WithoutBytes(c))
  }

  /** `EncodedOutcomeDetails::encode`: a length-framed JSON header and then the raw rejection bytes. */
  function EncodeDetails(p: Primitives, c: Option<CommandCompletion>, key: OutcomeKey, scope: Option<Text>, actor: Option<ActorRef>): Result<Text, ErrorKind> {
    var header := p.headerJson(HeaderOf(c, key, scope, actor));
    if |header| > U32_MAX then Err(CorruptHistory)
    else Ok(BigEndian(|header|, 4) + header + RejectionBytes(c))
  }

  predicate HeaderBelongs(h: DetailHeader, ref: DetailReference) {
    && h.version == ref.format
    && h.actor == ref.actor
    && h.authority == ref.key.authority
    && h.context == ref.key.context
    && h.operation == ref.key.operationId
    && h.securityScope == ref.securityScope
  }

  /** `EncodedOutcomeDetails::decode`. */
  function DecodeDetails(p: Primitives, ref: DetailReference, bytes: Text): Result<Option<CommandCompletion>, ErrorKind> {
    if ref.format != ActorFormat(ref.actor) || |bytes| != ref.length || p.sha(bytes) != ref.digest || |bytes| < 4 then
      Err(CorruptHistory)
    else
      var length := FromBigEndian(bytes[..4]);
      if |bytes| - 4 < length then Err(CorruptHistory)
      else
        var payload := bytes[4 + length..];
        match p.parseHeader(bytes[4..4 + length])
        case None => Err(CorruptHistory)
        case Some(header) =>
          var completion := WithBytes(header.completion, payload);
          if !HeaderBelongs(header, ref) then Err(CorruptHistory)
          else if IsRejection(header.completion) && header.completion.value.rejection.value.bytes != [] then Err(CorruptHistory)
          else if !IsRejection(header.completion) && payload != [] then Err(CorruptHistory)
          else if completion.Some? && !CompletionValid(p, completion.value) then Err(CorruptHistory)
          else if IsRejection(completion) != ref.decision.Rejected? then Err(CorruptHistory)
          else Ok(completion)
  }

  // ----- Markers -----

  function EventRowOf(p: Primitives, r: TransactionReceipt, e: RecordedEvent): EventRow {
    EventRow(e.eventId, e.commitId, e.streamVersion, e.ordinal, e.count, e.eventType, e.schemaVersion, p.sha(e.payload),
             if r.actor.Some? then e.actor else None)
  }

  function StreamRowOf(p: Primitives, r: TransactionReceipt, sr: StreamReceipt): (row: StreamRow)
    ensures |row.events| == |sr.events| && forall i | 0 <= i < |sr.events| :: row.events[i] == EventRowOf(p, r, sr.events[i])
  {
    StreamRow(sr.streamId, sr.baseVersion, seq(|sr.events|, i requires 0 <= i < |sr.events| => EventRowOf(p, r, sr.events[i])))
  }

  function RowsOf(p: Primitives, r: TransactionReceipt): (rows: IntegrityRows)
    ensures |rows.streams| == |r.streams| && forall k | 0 <= k < |r.streams| :: rows.streams[k] == StreamRowOf(p, r, r.streams[k])
  {
    IntegrityRows(r.boundedContext, r.operationId, r.fingerprint, r.correlationId, r.causationId, r.securityScope, r.actor,
                  seq(|r.streams|, k requires 0 <= k < |r.streams| => StreamRowOf(p, r, r.streams[k])))
  }

  function IntegrityDigest(p: Primitives, r: TransactionReceipt): Text {
    p.sha(p.integrityJson(RowsOf(p, r)))
  }

  function RevisionParts(p: Primitives, ref: DetailReference, proposal: ProposalDigest, evidence: Option<OutcomeEvidence>, integrity: TransactionReceipt): seq<Text> {
    [if ref.actor.Some? then "rostfrei:outcome-revision:v3" else "rostfrei:outcome-revision:v2",
     p.referenceJson(ref), BigEndian(proposal.version, 2), proposal.digest,
     p.evidenceJson(evidence), IntegrityDigest(p, integrity)]
  }

  function MarkerRevision(p: Primitives, ref: DetailReference, proposal: ProposalDigest, evidence: Option<OutcomeEvidence>, integrity: TransactionReceipt): Text {
    p.sha(Frame(RevisionParts(p, ref, proposal, evidence, integrity)))
  }

  function ReferenceOf(p: Primitives, authority: Text, t: EventTransaction, bytes: Text): DetailReference
    requires t.boundedContext.Some?
  {
    DetailReference(OutcomeKey(authority, t.boundedContext.value, t.operationId), t.securityScope, t.actor,
                    if IsRejection(t.completion) then Rejected else Accepted,
                    ActorFormat(t.actor), |bytes|, p.sha(bytes))
  }

  /** The permanent evidence: the command identity without its retainable timestamp. */
  function EvidenceOf(c: Option<CommandCompletion>): Option<OutcomeEvidence> {
    if c.Some? && c.value.evidence.Some? then Some(c.value.evidence.value.(createdAtMillis := None)) else None
  }

  function MarkerOf(p: Primitives, authority: Text, t: EventTransaction, r: TransactionReceipt, bytes: Text): OutcomeMarker
    requires t.boundedContext.Some?
  {
    var ref := ReferenceOf(p, authority, t, bytes);
    var integrity := r.(completion := None);
    OutcomeMarker(ref, MarkerRevision(p, ref, DigestOf(p, t), EvidenceOf(t.completion), integrity),
                  DigestOf(p, t), EvidenceOf(t.completion), integrity)
  }

  /** `OutcomeMarker::prepare`. */
  function Prepare(p: Primitives, authority: Text, t: EventTransaction, r: TransactionReceipt): Result<(OutcomeMarker, Text), ErrorKind> {
    if !MatchesProposal(p, r, t) || t.boundedContext.None? then Err(InvalidRequest)
    else
      match EncodeDetails(p, t.completion, OutcomeKey(authority, t.boundedContext.value, t.operationId), t.securityScope, t.actor)
      case Err(e) => Err(e)
      case Ok(bytes) =>
        if !ActorsAgree(t) then Err(InvalidRequest)
        else Ok((MarkerOf(p, authority, t, r, bytes), bytes))
  }

  lemma FourByteLength(n: nat)
    requires n <= U32_MAX
    ensures FromBigEndian(BigEndian(n, 4)) == n
  {
    Pow256Widths();
    BigEndianReadsBack(n, 4);
  }

  /** Decoding the detail bytes against the marker's reference returns the original completion. */
  lemma DetailsRoundTrip(p: Primitives, authority: Text, t: EventTransaction, r: TransactionReceipt)
    requires Lawful(p) && Prepare(p, authority, t, r).Ok?
    ensures var (marker, bytes) := Prepare(p, authority, t, r).value;
      DecodeDetails(p, marker.reference, bytes) == Ok(t.completion)
  {
    var (marker, bytes) := Prepare(p, authority, t, r).value;
    var ref := marker.reference;
    var header := HeaderOf(t.completion, ref.key, t.securityScope, t.actor);
    var json := p.headerJson(header);
    FourByteLength(|json|);
    assert bytes[..4] == BigEndian(|json|, 4);
    assert bytes[4..4 + |json|] == json;
    assert bytes[4 + |json|..] == RejectionBytes(t.completion);
    assert p.parseHeader(json) == Some(header);
    assert WithBytes(header.completion, RejectionBytes(t.completion)) == t.completion;
  }

  /**
   Only the prepared bytes decode against a marker's reference: whatever decodes is a collision of
   the hash with them or the very bytes, and then yields the original completion.
   */
  lemma OnlyPreparedBytesDecode(p: Primitives, authority: Text, t: EventTransaction, r: TransactionReceipt, other: Text)
    requires Lawful(p) && Prepare(p, authority, t, r).Ok?
    requires CollisionFree(p.sha, {Prepare(p, authority, t, r).value.1, other})
    ensures var (marker, bytes) := Prepare(p, authority, t, r).value;
      DecodeDetails(p, marker.reference, other) == if other == bytes then Ok(t.completion) else Err(CorruptHistory)
  {
    DetailsRoundTrip(p, authority, t, r);
  }

  /** Detail bytes serve one outcome only: what decodes against two references shows that they are the same. */
  lemma BytesServeOneReference(p: Primitives, a: DetailReference, b: DetailReference, bytes: Text)
    requires DecodeDetails(p, a, bytes).Ok? && DecodeDetails(p, b, bytes).Ok?
    ensures a == b
  {
    var header := p.parseHeader(bytes[4..4 + FromBigEndian(bytes[..4])]).value;
    assert HeaderBelongs(header, a) && HeaderBelongs(header, b);
  }

  // ----- Manifests -----

  function ManifestOf(p: Primitives, m: OutcomeMarker): MarkerManifest {
    MarkerManifest(m.reference.format, m.reference.key.authority, m.reference.key.context, m.reference.key.operationId,
                   m.reference.securityScope, m.reference.actor, m.reference.decision.Rejected?,
                   m.reference.format, m.reference.length, m.reference.digest,
                   m.proposal.version, m.proposal.digest, m.revision, m.evidence, IntegrityDigest(p, m.integrity))
  }

  function EncodeManifest(p: Primitives, m: OutcomeMarker): Text {
    p.manifestJson(ManifestOf(p, m))
  }

  predicate ManifestBelongs(p: Primitives, w: MarkerManifest, key: OutcomeKey, integrity: TransactionReceipt) {
    && w.integrity == IntegrityDigest(p, integrity)
    && w.version == ActorFormat(w.actor)
    && w.format == w.version
    && w.proposalVersion == w.version
    && w.actor == integrity.actor
    && w.length >= 4
    && w.authority == key.authority
    && w.context == key.context
    && w.operation == key.operationId
    && integrity.boundedContext == Some(key.context)
    && integrity.operationId == key.operationId
    && integrity.securityScope == w.scope
    && integrity.completion.None?
    && (w.rejected ==> forall k | 0 <= k < |integrity.streams| :: integrity.streams[k].events == [])
    && (w.evidence.Some? ==> EvidenceValid(p, w.evidence.value) && w.evidence.value.createdAtMillis.None?)
  }

  /** `OutcomeMarker::restore_manifest`. */
  function RestoreManifest(p: Primitives, key: OutcomeKey, bytes: Text, integrity: TransactionReceipt): Result<OutcomeMarker, ErrorKind> {
    match p.parseManifest(bytes)
    case None => Err(CorruptHistory)
    case Some(w) =>
      if !Integrity(p, integrity) || !ManifestBelongs(p, w, key, integrity) then Err(CorruptHistory)
      else
        var ref := DetailReference(key, integrity.securityScope, integrity.actor, if w.rejected then Rejected else Accepted,
                                   w.format, w.length, w.digest);
        var proposal := ProposalDigest(w.proposalVersion, w.proposal);
        var revision := MarkerRevision(p, ref, proposal, w.evidence, integrity);
        if revision != w.revision then Err(CorruptHistory)
        else Ok(OutcomeMarker(ref, revision, proposal, w.evidence, integrity))
  }

  /** Restoring an encoded manifest with the same integrity receipt returns the same marker. */
  lemma ManifestRoundTrip(p: Primitives, authority: Text, t: EventTransaction, r: TransactionReceipt)
    requires Lawful(p) && Prepare(p, authority, t, r).Ok?
    ensures var (marker, _) := Prepare(p, authority, t, r).value;
      RestoreManifest(p, marker.reference.key, EncodeManifest(p, marker), marker.integrity) == Ok(marker)
  {
    PreparedManifest(p, authority, t, r);
    ManifestRestores(p, Prepare(p, authority, t, r).value.0);
  }

  /** The marker's own manifest belongs to it. */
  ghost predicate OwnManifest(p: Primitives, m: OutcomeMarker) {
    && Integrity(p, m.integrity)
    && ManifestBelongs(p, ManifestOf(p, m), m.reference.key, m.integrity)
    && m.reference.securityScope == m.integrity.securityScope && m.reference.actor == m.integrity.actor
    && m.revision == MarkerRevision(p, m.reference, m.proposal, m.evidence, m.integrity)
  }

  lemma PreparedManifest(p: Primitives, authority: Text, t: EventTransaction, r: TransactionReceipt)
    requires Prepare(p, authority, t, r).Ok?
    ensures OwnManifest(p, Prepare(p, authority, t, r).value.0)
  {
    WithoutCompletionIntact(p, r);
    RejectionHasNoEvents(p, t, r);
  }

  lemma ManifestRestores(p: Primitives, m: OutcomeMarker)
    requires Lawful(p) && OwnManifest(p, m)
    ensures RestoreManifest(p, m.reference.key, EncodeManifest(p, m), m.integrity) == Ok(m)
  {
    assert p.parseManifest(EncodeManifest(p, m)) == Some(ManifestOf(p, m));
  }

  lemma RejectionHasNoEvents(p: Primitives, t: EventTransaction, r: TransactionReceipt)
    requires MatchesProposal(p, r, t)
    ensures IsRejection(t.completion) ==> forall k | 0 <= k < |r.streams| :: r.streams[k].events == []
  {
    if IsRejection(t.completion) {
      forall k | 0 <= k < |r.streams| ensures r.streams[k].events == [] {
        assert ParticipantMatches(p, r, r.streams[k], t.participants[k]);
      }
    }
  }

  lemma WithoutCompletionIntact(p: Primitives, r: TransactionReceipt)
    requires Integrity(p, r)
    ensures Integrity(p, r.(completion := None))
  {
    var q := r.(completion := None);
    forall k | 0 <= k < |q.streams| ensures NewStream(q, k) && StreamIntact(p, q, q.streams[k]) {
      assert NewStream(r, k) && StreamIntact(p, r, r.streams[k]);
      forall i | 0 <= i < |q.streams[k].events| ensures EventIntact(p, q, q.streams[k], i) {
        assert EventIntact(p, r, r.streams[k], i);
      }
    }
  }

  /** And nothing else restores: an accepted manifest is the one its marker encodes. */
  lemma RestoredIsEncoded(p: Primitives, key: OutcomeKey, bytes: Text, integrity: TransactionReceipt)
    requires RestoreManifest(p, key, bytes, integrity).Ok?
    ensures var m := RestoreManifest(p, key, bytes, integrity).value;
      p.parseManifest(bytes) == Some(ManifestOf(p, m)) && m.reference.key == key && m.integrity == integrity
  {
  }

  /** What a marker is, whoever made it: bound to its receipt, in one format, with evidence but no timestamp, and named by its revision. */
  predicate MarkerSound(p: Primitives, m: OutcomeMarker) {
    var r, ref := m.integrity, m.reference;
    && Integrity(p, r) && r.completion.None?
    && r.boundedContext == Some(ref.key.context) && r.operationId == ref.key.operationId
    && r.securityScope == ref.securityScope && r.actor == ref.actor
    && ref.format == m.proposal.version == (if ref.actor.Some? then 2 else 1)
    && ref.length >= 4
    && (ref.decision.Rejected? ==> forall k | 0 <= k < |r.streams| :: r.streams[k].events == [])
    && (m.evidence.Some? ==> EvidenceValid(p, m.evidence.value) && m.evidence.value.createdAtMillis.None?)
    && m.revision == MarkerRevision(p, ref, m.proposal, m.evidence, r)
  }

  /** Whatever is prepared is sound. */
  lemma PreparedIsSound(p: Primitives, authority: Text, t: EventTransaction, r: TransactionReceipt)
    requires Prepare(p, authority, t, r).Ok?
    ensures MarkerSound(p, Prepare(p, authority, t, r).value.0)
  {
    PreparedManifest(p, authority, t, r);
  }

  /** A manifest restores to a marker exactly if the marker is sound, belongs to that key and receipt, and the manifest is its own. */
  lemma RestoresExactly(p: Primitives, key: OutcomeKey, bytes: Text, integrity: TransactionReceipt, m: OutcomeMarker)
    ensures RestoreManifest(p, key, bytes, integrity) == Ok(m) <==>
      && p.parseManifest(bytes) == Some(ManifestOf(p, m))
      && MarkerSound(p, m) && m.reference.key == key && m.integrity == integrity
  {
  }
}
