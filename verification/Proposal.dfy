/**
 Proposal equality: a transaction is fed part by part to a hasher. The framing is injective on
 everything but the expected versions, across both framing versions.
 */
module Proposal {
  import opened Wrappers
  import opened Identity
  import opened Records

  function OptionalParts(value: Option<Text>): seq<Text> {
    if value.Some? then ["some", value.value] else ["none"]
  }

  function ActorParts(value: Option<ActorRef>): seq<Text> {
    if value.Some? then ["some", value.value.space, value.value.id] else ["none"]
  }

  function NewEventParts(e: NewEvent): seq<Text> {
    ["event", e.eventId, e.eventType, BigEndian(e.schemaVersion, 4), e.payload]
  }

  function EventsParts(events: seq<NewEvent>): seq<Text> {
    if |events| == 0 then ["end-batch"] else NewEventParts(events[0]) + EventsParts(events[1..])
  }

  function AttributionParts(attributed: bool, actor: Option<ActorRef>): seq<Text> {
    if attributed then ActorParts(actor) else []
  }

  function BatchParts(attributed: bool, batch: Option<EventBatch>): seq<Text> {
    match batch
    case None => ["guard"]
    case Some(b) =>
      ["batch", b.commitId, b.operationId, b.fingerprint]
      + (OptionalParts(b.correlationId)
         + (OptionalParts(b.causationId)
            + (AttributionParts(attributed, b.actor) + EventsParts(b.events))))
  }

  function ParticipantParts(attributed: bool, x: Participant): seq<Text> {
    ["participant", x.streamId.aggregateType, x.streamId.aggregateId] + BatchParts(attributed, x.batch)
  }

  function ParticipantsParts(attributed: bool, ps: seq<Participant>): seq<Text> {
    if |ps| == 0 then ["end-proposal"]
    else ParticipantParts(attributed, ps[0]) + ParticipantsParts(attributed, ps[1..])
  }

  function FramingTag(attributed: bool): Text {
    if attributed then "rostfrei:proposal:v2" else "rostfrei:proposal:v1"
  }

  /** Everything a proposal feeds to the hasher, in order. */
  function ProposalParts(p: Primitives, t: EventTransaction): seq<Text> {
    var attributed := t.actor.Some?;
    [FramingTag(attributed)]
    + (OptionalParts(t.boundedContext)
       + ([t.operationId, t.fingerprint]
          + (OptionalParts(t.correlationId)
             + (OptionalParts(t.causationId)
                + (OptionalParts(t.securityScope)
                   + (AttributionParts(attributed, t.actor)
                      + ([p.completionJson(t.completion)] + ParticipantsParts(attributed, t.participants))))))))
  }

  /** Every batch is attributed to the transaction's actor. */
  predicate ActorsAgree(t: EventTransaction) {
    forall i | 0 <= i < |t.participants| && t.participants[i].batch.Some? ::
      t.participants[i].batch.value.actor == t.actor
  }

  function DigestOf(p: Primitives, t: EventTransaction): ProposalDigest {
    ProposalDigest(if t.actor.Some? then 2 else 1, p.sha(Frame(ProposalParts(p, t))))
  }

  // ----- The hasher -----

  class Hasher {
    var fed: Text
    ghost var parts: seq<Text>

    ghost predicate Valid()
      reads this
    {
      fed == Frame(parts)
    }

    constructor ()
      ensures Valid() && parts == []
    {
      fed := [];
      parts := [];
    }

    method Part(part: Text)
      requires Valid()
      modifies this
      ensures Valid() && parts == old(parts) + [part]
    {
      FrameConcat(parts, [part]);
      assert Frame([part]) == HashPart(part) + Frame([][..]);
      fed := fed + HashPart(part);
      parts := parts + [part];
    }

    method Parts(more: seq<Text>)
      requires Valid()
      modifies this
      ensures Valid() && parts == old(parts) + more
    {
      for i := 0 to |more|
        invariant Valid() && parts == old(parts) + more[..i]
      {
        Part(more[i]);
      }
    }
  }

  method FeedEvents(hash: Hasher, events: seq<NewEvent>)
    requires hash.Valid()
    modifies hash
    ensures hash.Valid() && hash.parts == old(hash.parts) + EventsParts(events)
  {
    for i := 0 to |events|
      invariant hash.Valid() && hash.parts + EventsParts(events[i..]) == old(hash.parts) + EventsParts(events)
    {
      Associative(hash.parts, NewEventParts(events[i]), EventsParts(events[i + 1..]));
      assert events[i..][1..] == events[i + 1..];
      hash.Parts(NewEventParts(events[i]));
    }
    hash.Part("end-batch");
  }

  lemma Associative5<T>(s: seq<T>, a: seq<T>, b: seq<T>, c: seq<T>, d: seq<T>, e: seq<T>)
    ensures s + a + b + c + d + e == s + (a + (b + (c + (d + e))))
  {
    Associative(s + a + b + c, d, e);
    Associative(s + a + b, c, d + e);
    Associative(s + a, b, c + (d + e));
    Associative(s, a, b + (c + (d + e)));
  }

  method FeedBatch(hash: Hasher, attributed: bool, batch: Option<EventBatch>)
    requires hash.Valid()
    modifies hash
    ensures hash.Valid() && hash.parts == old(hash.parts) + BatchParts(attributed, batch)
  {
    if batch.None? {
      hash.Part("guard");
    } else {
      var b := batch.value;
      hash.Parts(["batch", b.commitId, b.operationId, b.fingerprint]);
      hash.Parts(OptionalParts(b.correlationId));
      hash.Parts(OptionalParts(b.causationId));
      hash.Parts(AttributionParts(attributed, b.actor));
      FeedEvents(hash, b.events);
      Associative5(old(hash.parts), ["batch", b.commitId, b.operationId, b.fingerprint], OptionalParts(b.correlationId),
                   OptionalParts(b.causationId), AttributionParts(attributed, b.actor), EventsParts(b.events));
    }
  }

  /** Everything up to the participants, and what a hasher has to be fed after it. */
  method FeedHeader(p: Primitives, hash: Hasher, t: EventTransaction)
    requires hash.Valid() && hash.parts == []
    modifies hash
    ensures hash.Valid()
    ensures hash.parts + ParticipantsParts(t.actor.Some?, t.participants) == ProposalParts(p, t)
  {
    var attributed := t.actor.Some?;
    hash.Part(FramingTag(attributed));
    hash.Parts(OptionalParts(t.boundedContext));
    hash.Parts([t.operationId, t.fingerprint]);
    hash.Parts(OptionalParts(t.correlationId));
    ghost var before := hash.parts;
    hash.Parts(OptionalParts(t.causationId));
    hash.Parts(OptionalParts(t.securityScope));
    hash.Parts(AttributionParts(attributed, t.actor));
    hash.Part(p.completionJson(t.completion));
    Associative5(before, OptionalParts(t.causationId), OptionalParts(t.securityScope), AttributionParts(attributed, t.actor),
                 [p.completionJson(t.completion)], ParticipantsParts(attributed, t.participants));
    HeaderShape(p, t);
  }

  lemma HeaderShape(p: Primitives, t: EventTransaction)
    ensures ProposalParts(p, t)
         == [] + [FramingTag(t.actor.Some?)] + OptionalParts(t.boundedContext) + [t.operationId, t.fingerprint]
            + OptionalParts(t.correlationId)
            + (OptionalParts(t.causationId)
               + (OptionalParts(t.securityScope)
                  + (AttributionParts(t.actor.Some?, t.actor)
                     + ([p.completionJson(t.completion)] + ParticipantsParts(t.actor.Some?, t.participants)))))
  {
    Associative5([], [FramingTag(t.actor.Some?)], OptionalParts(t.boundedContext), [t.operationId, t.fingerprint],
                 OptionalParts(t.correlationId),
                 OptionalParts(t.causationId)
                 + (OptionalParts(t.securityScope)
                    + (AttributionParts(t.actor.Some?, t.actor)
                       + ([p.completionJson(t.completion)] + ParticipantsParts(t.actor.Some?, t.participants)))));
  }

  method FeedParticipants(hash: Hasher, attributed: bool, ps: seq<Participant>)
    requires hash.Valid()
    modifies hash
    ensures hash.Valid() && hash.parts == old(hash.parts) + ParticipantsParts(attributed, ps)
  {
    for i := 0 to |ps|
      invariant hash.Valid()
      invariant hash.parts + ParticipantsParts(attributed, ps[i..]) == old(hash.parts) + ParticipantsParts(attributed, ps)
    {
      var x := ps[i];
      Associative(hash.parts, ["participant", x.streamId.aggregateType, x.streamId.aggregateId], BatchParts(attributed, x.batch));
      Associative(hash.parts, ParticipantParts(attributed, x), ParticipantsParts(attributed, ps[i + 1..]));
      assert ps[i..][1..] == ps[i + 1..];
      hash.Parts(["participant", x.streamId.aggregateType, x.streamId.aggregateId]);
      FeedBatch(hash, attributed, x.batch);
    }
    hash.Part("end-proposal");
  }

  /** `ProposalDigest::of`: rejects mixed attribution, otherwise hashes exactly `ProposalParts`. */
  method Of(p: Primitives, t: EventTransaction) returns (r: Result<ProposalDigest, ErrorKind>)
    ensures r == if ActorsAgree(t) then Ok(DigestOf(p, t)) else Err(InvalidRequest)
  {
    for i := 0 to |t.participants|
      invariant forall k | 0 <= k < i && t.participants[k].batch.Some? :: t.participants[k].batch.value.actor == t.actor
    {
      if t.participants[i].batch.Some? && t.participants[i].batch.value.actor != t.actor {
        return Err(InvalidRequest);
      }
    }
    var attributed := t.actor.Some?;
    var hash := new Hasher();
    FeedHeader(p, hash, t);
    FeedParticipants(hash, attributed, t.participants);
    return Ok(ProposalDigest(if attributed then 2 else 1, p.sha(hash.fed)));
  }

  // ----- Injectivity -----

  /** The transaction with its expected versions forgotten. */
  function Content(t: EventTransaction): EventTransaction {
    t.(participants := seq(|t.participants|, i requires 0 <= i < |t.participants| =>
      t.participants[i].(expected := NoStream)))
  }

  /** Equal apart from expected versions. */
  predicate SameContent(t: EventTransaction, u: EventTransaction) {
    Content(t) == Content(u)
  }

  /** Values fit the machine types that hold them. */
  predicate Machine(p: Primitives, t: EventTransaction) {
    && Addressable(ProposalParts(p, t))
    && forall i | 0 <= i < |t.participants| && t.participants[i].batch.Some? ::
         MachineEvents(t.participants[i].batch.value.events)
  }

  predicate MachineEvents(events: seq<NewEvent>) {
    forall i | 0 <= i < |events| :: events[i].schemaVersion <= U32_MAX
  }

  lemma PrefixCut(a: seq<Text>, b: seq<Text>, x: seq<Text>, y: seq<Text>)
    requires a + x == b + y && |a| == |b|
    ensures a == b && x == y
  {
    assert a == (a + x)[..|a|] && b == (b + y)[..|b|];
    assert x == (a + x)[|a|..] && y == (b + y)[|b|..];
  }

  lemma OptionalCut(a: Option<Text>, b: Option<Text>, x: seq<Text>, y: seq<Text>)
    requires OptionalParts(a) + x == OptionalParts(b) + y
    ensures a == b && x == y
  {
    assert (OptionalParts(a) + x)[0] == OptionalParts(a)[0] && (OptionalParts(b) + y)[0] == OptionalParts(b)[0];
    assert "some"[0] != "none"[0];
    PrefixCut(OptionalParts(a), OptionalParts(b), x, y);
    assert a.Some? ==> OptionalParts(a)[1] == OptionalParts(b)[1];
  }

  lemma ActorCut(attributed: bool, a: Option<ActorRef>, b: Option<ActorRef>, x: seq<Text>, y: seq<Text>)
    requires AttributionParts(attributed, a) + x == AttributionParts(attributed, b) + y
    requires attributed || a == b
    ensures a == b && x == y
  {
    if attributed {
      assert (ActorParts(a) + x)[0] == ActorParts(a)[0] && (ActorParts(b) + y)[0] == ActorParts(b)[0];
      assert "some"[0] != "none"[0];
      PrefixCut(ActorParts(a), ActorParts(b), x, y);
      assert a.Some? ==> ActorParts(a)[1] == ActorParts(b)[1] && ActorParts(a)[2] == ActorParts(b)[2];
    } else {
      assert [] + x == x && [] + y == y;
    }
  }

  lemma {:induction false} EventsCut(a: seq<NewEvent>, b: seq<NewEvent>, x: seq<Text>, y: seq<Text>)
    requires EventsParts(a) + x == EventsParts(b) + y
    requires MachineEvents(a) && MachineEvents(b)
    ensures a == b && x == y
  {
    assert (EventsParts(a) + x)[0] == EventsParts(a)[0] && (EventsParts(b) + y)[0] == EventsParts(b)[0];
    assert "event"[1] != "end-batch"[1];
    if |a| == 0 {
      PrefixCut(["end-batch"], ["end-batch"], x, y);
    } else {
      var ra, rb := EventsParts(a[1..]) + x, EventsParts(b[1..]) + y;
      Associative(NewEventParts(a[0]), EventsParts(a[1..]), x);
      Associative(NewEventParts(b[0]), EventsParts(b[1..]), y);
      PrefixCut(NewEventParts(a[0]), NewEventParts(b[0]), ra, rb);
      EventsCut(a[1..], b[1..], x, y);
      EventCut(a[0], b[0]);
      assert a == [a[0]] + a[1..] && b == [b[0]] + b[1..];
    }
  }

  lemma EventCut(a: NewEvent, b: NewEvent)
    requires NewEventParts(a) == NewEventParts(b) && a.schemaVersion <= U32_MAX && b.schemaVersion <= U32_MAX
    ensures a == b
  {
    var s, t := NewEventParts(a), NewEventParts(b);
    assert s[1] == t[1] && s[2] == t[2] && s[3] == t[3] && s[4] == t[4];
    Pow256Widths();
    BigEndianReadsBack(a.schemaVersion, 4);
    BigEndianReadsBack(b.schemaVersion, 4);
  }

  lemma BatchCut(attributed: bool, a: Option<EventBatch>, b: Option<EventBatch>, x: seq<Text>, y: seq<Text>)
    requires BatchParts(attributed, a) + x == BatchParts(attributed, b) + y
    requires a.Some? ==> MachineEvents(a.value.events)
    requires b.Some? ==> MachineEvents(b.value.events)
    requires a.Some? && b.Some? && !attributed ==> a.value.actor == b.value.actor
    ensures a == b && x == y
  {
    assert (BatchParts(attributed, a) + x)[0] == BatchParts(attributed, a)[0];
    assert (BatchParts(attributed, b) + y)[0] == BatchParts(attributed, b)[0];
    assert "batch"[0] != "guard"[0];
    if a.None? {
      PrefixCut(["guard"], ["guard"], x, y);
    } else {
      FullBatchCut(attributed, a.value, b.value, x, y);
    }
  }

  function BatchTail(attributed: bool, b: EventBatch, x: seq<Text>): seq<Text> {
    OptionalParts(b.correlationId)
    + (OptionalParts(b.causationId) + (AttributionParts(attributed, b.actor) + (EventsParts(b.events) + x)))
  }

  lemma BatchShape(attributed: bool, b: EventBatch, x: seq<Text>)
    ensures BatchParts(attributed, Some(b)) + x
         == ["batch", b.commitId, b.operationId, b.fingerprint] + BatchTail(attributed, b, x)
  {
    var e := EventsParts(b.events);
    var c := AttributionParts(attributed, b.actor);
    var d := OptionalParts(b.causationId);
    var o := OptionalParts(b.correlationId);
    Associative(c, e, x);
    Associative(d, c + e, x);
    Associative(o, d + (c + e), x);
    Associative(["batch", b.commitId, b.operationId, b.fingerprint], o + (d + (c + e)), x);
  }

  lemma FullBatchCut(attributed: bool, a: EventBatch, b: EventBatch, x: seq<Text>, y: seq<Text>)
    requires BatchParts(attributed, Some(a)) + x == BatchParts(attributed, Some(b)) + y
    requires MachineEvents(a.events) && MachineEvents(b.events)
    requires attributed || a.actor == b.actor
    ensures a == b && x == y
  {
    BatchShape(attributed, a, x);
    BatchShape(attributed, b, y);
    var ha, hb := ["batch", a.commitId, a.operationId, a.fingerprint], ["batch", b.commitId, b.operationId, b.fingerprint];
    PrefixCut(ha, hb, BatchTail(attributed, a, x), BatchTail(attributed, b, y));
    assert ha[1] == hb[1] && ha[2] == hb[2] && ha[3] == hb[3];
    var ea, eb := EventsParts(a.events) + x, EventsParts(b.events) + y;
    var ca, cb := AttributionParts(attributed, a.actor) + ea, AttributionParts(attributed, b.actor) + eb;
    OptionalCut(a.correlationId, b.correlationId, OptionalParts(a.causationId) + ca, OptionalParts(b.causationId) + cb);
    OptionalCut(a.causationId, b.causationId, ca, cb);
    ActorCut(attributed, a.actor, b.actor, ea, eb);
    EventsCut(a.events, b.events, x, y);
  }

  predicate AgreeApartFromVersions(a: seq<Participant>, b: seq<Participant>) {
    |a| == |b| && forall i | 0 <= i < |a| :: a[i].streamId == b[i].streamId && a[i].batch == b[i].batch
  }

  predicate MachineParticipants(ps: seq<Participant>, actor: Option<ActorRef>) {
    forall i | 0 <= i < |ps| && ps[i].batch.Some? ::
      MachineEvents(ps[i].batch.value.events) && ps[i].batch.value.actor == actor
  }

  lemma {:induction false} ParticipantsCut(actor: Option<ActorRef>, actor': Option<ActorRef>, a: seq<Participant>, b: seq<Participant>)
    requires actor.Some? == actor'.Some?
    requires ParticipantsParts(actor.Some?, a) == ParticipantsParts(actor.Some?, b)
    requires MachineParticipants(a, actor) && MachineParticipants(b, actor')
    ensures AgreeApartFromVersions(a, b)
  {
    var attributed := actor.Some?;
    assert "participant"[0] != "end-proposal"[0];
    assert ParticipantsParts(attributed, a)[0] == if |a| == 0 then "end-proposal" else "participant";
    assert ParticipantsParts(attributed, b)[0] == if |b| == 0 then "end-proposal" else "participant";
    if |a| > 0 {
      var ra, rb := ParticipantsParts(attributed, a[1..]), ParticipantsParts(attributed, b[1..]);
      var ha := ["participant", a[0].streamId.aggregateType, a[0].streamId.aggregateId];
      var hb := ["participant", b[0].streamId.aggregateType, b[0].streamId.aggregateId];
      Associative(ha, BatchParts(attributed, a[0].batch), ra);
      Associative(hb, BatchParts(attributed, b[0].batch), rb);
      PrefixCut(ha, hb, BatchParts(attributed, a[0].batch) + ra, BatchParts(attributed, b[0].batch) + rb);
      assert ha[1] == hb[1] && ha[2] == hb[2];
      BatchCut(attributed, a[0].batch, b[0].batch, ra, rb);
      ParticipantsCut(actor, actor', a[1..], b[1..]);
      forall i | 0 <= i < |a| ensures a[i].streamId == b[i].streamId && a[i].batch == b[i].batch {
        if i > 0 {
          assert a[i] == a[1..][i - 1] && b[i] == b[1..][i - 1];
        }
      }
    }
  }

  lemma {:induction false} ParticipantsCongruent(attributed: bool, a: seq<Participant>, b: seq<Participant>)
    requires AgreeApartFromVersions(a, b)
    ensures ParticipantsParts(attributed, a) == ParticipantsParts(attributed, b)
  {
    if |a| > 0 {
      assert AgreeApartFromVersions(a[1..], b[1..]) by {
        forall i | 0 <= i < |a| - 1
          ensures a[1..][i].streamId == b[1..][i].streamId && a[1..][i].batch == b[1..][i].batch
        {
          assert a[1..][i] == a[i + 1] && b[1..][i] == b[i + 1];
        }
      }
      ParticipantsCongruent(attributed, a[1..], b[1..]);
    }
  }

  lemma SameContentFields(t: EventTransaction, u: EventTransaction)
    ensures SameContent(t, u) <==>
      t.(participants := []) == u.(participants := []) && AgreeApartFromVersions(t.participants, u.participants)
  {
    if SameContent(t, u) {
      assert t.(participants := []) == Content(t).(participants := []);
      forall i | 0 <= i < |t.participants|
        ensures t.participants[i].streamId == u.participants[i].streamId && t.participants[i].batch == u.participants[i].batch
      {
        assert Content(t).participants[i] == Content(u).participants[i];
      }
    }
    if t.(participants := []) == u.(participants := []) && AgreeApartFromVersions(t.participants, u.participants) {
      assert Content(t).participants == Content(u).participants;
    }
  }

  /**
   Two properly attributed transactions feed the same parts exactly when they are equal apart from
   expected versions.
   */
  lemma PartsInjective(p: Primitives, t: EventTransaction, u: EventTransaction)
    requires Lawful(p) && Machine(p, t) && Machine(p, u) && ActorsAgree(t) && ActorsAgree(u)
    ensures ProposalParts(p, t) == ProposalParts(p, u) <==> SameContent(t, u)
  {
    SameContentFields(t, u);
    if SameContent(t, u) {
      ParticipantsCongruent(t.actor.Some?, t.participants, u.participants);
    }
    if ProposalParts(p, t) == ProposalParts(p, u) {
      PartsDetermine(p, t, u);
    }
  }

  lemma PartsDetermine(p: Primitives, t: EventTransaction, u: EventTransaction)
    requires Lawful(p) && Machine(p, t) && Machine(p, u) && ActorsAgree(t) && ActorsAgree(u)
    requires ProposalParts(p, t) == ProposalParts(p, u)
    ensures t.(participants := []) == u.(participants := []) && AgreeApartFromVersions(t.participants, u.participants)
  {
    var at, au := t.actor.Some?, u.actor.Some?;
    assert ProposalParts(p, t)[0] == FramingTag(at) && ProposalParts(p, u)[0] == FramingTag(au);
    assert "rostfrei:proposal:v2"[19] != "rostfrei:proposal:v1"[19];
    assert at == au;
    var jt, ju := [p.completionJson(t.completion)], [p.completionJson(u.completion)];
    var pt, pu := ParticipantsParts(at, t.participants), ParticipantsParts(at, u.participants);
    var ct, cu := AttributionParts(at, t.actor) + (jt + pt), AttributionParts(at, u.actor) + (ju + pu);
    var st, su := OptionalParts(t.securityScope) + ct, OptionalParts(u.securityScope) + cu;
    var dt, du := OptionalParts(t.causationId) + st, OptionalParts(u.causationId) + su;
    var ot, ou := OptionalParts(t.correlationId) + dt, OptionalParts(u.correlationId) + du;
    var ht, hu := [t.operationId, t.fingerprint], [u.operationId, u.fingerprint];
    PrefixCut([FramingTag(at)], [FramingTag(at)], OptionalParts(t.boundedContext) + (ht + ot), OptionalParts(u.boundedContext) + (hu + ou));
    OptionalCut(t.boundedContext, u.boundedContext, ht + ot, hu + ou);
    PrefixCut(ht, hu, ot, ou);
    assert ht[0] == hu[0] && ht[1] == hu[1];
    OptionalCut(t.correlationId, u.correlationId, dt, du);
    OptionalCut(t.causationId, u.causationId, st, su);
    OptionalCut(t.securityScope, u.securityScope, ct, cu);
    ActorCut(at, t.actor, u.actor, jt + pt, ju + pu);
    PrefixCut(jt, ju, pt, pu);
    assert jt[0] == ju[0];
    ParticipantsCut(t.actor, u.actor, t.participants, u.participants);
  }

  /** The same for the byte stream that reaches the hash, and so for the digest unless it collides. */
  lemma DigestInjective(p: Primitives, t: EventTransaction, u: EventTransaction)
    requires Lawful(p) && Machine(p, t) && Machine(p, u) && ActorsAgree(t) && ActorsAgree(u)
    ensures Frame(ProposalParts(p, t)) == Frame(ProposalParts(p, u)) <==> SameContent(t, u)
    ensures SameContent(t, u) ==> DigestOf(p, t) == DigestOf(p, u)
    ensures DigestOf(p, t) == DigestOf(p, u) && !SameContent(t, u) ==>
      p.sha(Frame(ProposalParts(p, t))) == p.sha(Frame(ProposalParts(p, u)))
      && Frame(ProposalParts(p, t)) != Frame(ProposalParts(p, u))
  {
    PartsInjective(p, t, u);
    if Frame(ProposalParts(p, t)) == Frame(ProposalParts(p, u)) {
      FrameInjective(ProposalParts(p, t), ProposalParts(p, u));
    }
    SameContentFields(t, u);
  }

  /** Replays are recognized without any law on the serializers: equal content gives an equal digest. */
  lemma SameContentSameDigest(p: Primitives, t: EventTransaction, u: EventTransaction)
    requires SameContent(t, u)
    ensures DigestOf(p, t) == DigestOf(p, u)
    ensures ActorsAgree(t) == ActorsAgree(u)
    ensures EventTotal(t.participants) == EventTotal(u.participants)
    ensures GuardTotal(t.participants) == GuardTotal(u.participants)
  {
    SameContentFields(t, u);
    ParticipantsCongruent(t.actor.Some?, t.participants, u.participants);
    TotalsCongruent(t.participants, u.participants);
    var a, b := t.participants, u.participants;
    assert forall i | 0 <= i < |a| :: a[i].batch == b[i].batch;
  }

  lemma {:induction false} TotalsCongruent(a: seq<Participant>, b: seq<Participant>)
    requires AgreeApartFromVersions(a, b)
    ensures EventTotal(a) == EventTotal(b) && GuardTotal(a) == GuardTotal(b)
  {
    if |a| > 0 {
      assert forall i | 0 <= i < |a| - 1 :: a[1..][i] == a[i + 1] && b[1..][i] == b[i + 1];
      TotalsCongruent(a[1..], b[1..]);
    }
  }
}
