/** Fixtures: validation of a domain-event series, and the deterministic plan built from it. */
module Fixtures {
  import opened Wrappers
  import opened Identity
  import opened Records
  import opened CanonicalJson
  import opened MessageSeries
  import opened Receipts
  import Splitting
  import Cycles

  const FIXTURE_SCHEMA_VERSION: nat := 1
  const MAX_EVENT_TYPE_LEN: nat := 128
  const MAX_EVENT_PAYLOAD_LEN: nat := 1024 * 1024

  datatype Content = Content(name: Text, schemaVersion: nat, stream: StreamId, streamVersion: nat, payload: Json)

  type Message = Node<Content>

  datatype Fixture = Fixture(schemaVersion: nat, id: Text, revision: Text, messages: seq<Message>)

  datatype FixtureError = UnsupportedSchemaVersion | InvalidTopology | ParentMustPrecede | InvalidStreamVersion | InvalidMessage

  /** What the document's types already guarantee. */
  predicate Parsed(f: Fixture) {
    && DistinctIds(f.messages)
    && |f.messages| <= MAX_MESSAGE_SERIES_NODES
    && forall i | 0 <= i < |f.messages| :: WellFormed(f.messages[i].content.payload) && f.messages[i].content.schemaVersion != 0
  }

  // ----- Validation -----

  ghost predicate TopologySound(ms: seq<Message>) {
    && (forall i | 0 <= i < |ms| :: EdgeSound(ms, i))
    && (forall i: nat | i < |ms| :: Cycles.ChainEnds(ParentsOf(ms), i))
  }

  predicate Precedes(ms: seq<Message>, i: nat)
    requires i < |ms|
  {
    ParentIndex(ms, i).Some? ==> ParentIndex(ms, i).value < i
  }

  /** How many of the first `n` messages go to the stream. */
  function OnStream(ms: seq<Message>, s: StreamId, n: nat): nat
    requires n <= |ms|
  {
    if n == 0 then 0 else OnStream(ms, s, n - 1) + (if ms[n - 1].content.stream == s then 1 else 0)
  }

  /** The version is the next one of its stream, and the version space goes on. */
  predicate Numbered(ms: seq<Message>, i: nat)
    requires i < |ms|
  {
    ms[i].content.streamVersion == OnStream(ms, ms[i].content.stream, i) + 1 < U64_MAX
  }

  predicate MessageAdmissible(p: Primitives, m: Message) {
    && 0 < |m.content.name| <= MAX_EVENT_TYPE_LEN
    && p.trimmed(m.content.name) && p.printable(m.content.name)
    && |Write(m.content.payload)| <= MAX_EVENT_PAYLOAD_LEN
  }

  ghost predicate ValidFixture(p: Primitives, f: Fixture) {
    && f.schemaVersion == FIXTURE_SCHEMA_VERSION
    && TopologySound(f.messages)
    && (forall i | 0 <= i < |f.messages| :: Precedes(f.messages, i))
    && (forall i | 0 <= i < |f.messages| :: Numbered(f.messages, i))
    && (forall i | 0 <= i < |f.messages| :: MessageAdmissible(p, f.messages[i]))
  }

  method ValidateTopology(ms: seq<Message>) returns (r: Option<FixtureError>)
    ensures r == if TopologySound(ms) then None else Some(InvalidTopology)
  {
    var issues := TopologyIssues(ms);
    ghost var cycles :| Reported(ms, cycles, issues);
    EmptyReportMeansSound(ms, cycles, issues);
    return if |issues| == 0 then None else Some(InvalidTopology);
  }

  method ValidateParentOrder(ms: seq<Message>) returns (r: Option<FixtureError>)
    ensures r == if forall i | 0 <= i < |ms| :: Precedes(ms, i) then None else Some(ParentMustPrecede)
  {
    var indexes := NodeIndexes(ms);
    for i := 0 to |ms|
      invariant forall k | 0 <= k < i :: Precedes(ms, k)
    {
      var child := ms[i];
      if child.causationId.Some? {
        var id := child.causationId.value;
        var parent: Option<nat> := if id in indexes then Some(indexes[id]) else None;
        assert parent == IndexOf(ms, id);
        if parent.Some? && parent.value >= i {
          assert !Precedes(ms, i);
          return Some(ParentMustPrecede);
        }
      }
      assert Precedes(ms, i);
    }
    return None;
  }

  method ValidateStreamVersions(ms: seq<Message>) returns (r: Option<FixtureError>)
    ensures r.None? <==> forall i | 0 <= i < |ms| :: Numbered(ms, i)
    ensures r.Some? ==> r.value == InvalidStreamVersion || r.value == InvalidMessage
  {
    var expected: map<StreamId, nat> := map[];
    for i := 0 to |ms|
      invariant forall k | 0 <= k < i :: Numbered(ms, k)
      invariant forall s :: (if s in expected then expected[s] else 1) == OnStream(ms, s, i) + 1
    {
      var stream := ms[i].content.stream;
      var next := if stream in expected then expected[stream] else 1;
      assert next == OnStream(ms, stream, i) + 1;
      if ms[i].content.streamVersion != next {
        assert !Numbered(ms, i);
        return Some(InvalidStreamVersion);
      }
      if next + 1 > U64_MAX {
        assert !Numbered(ms, i);
        return Some(InvalidMessage);
      }
      expected := expected[stream := next + 1];
    }
    return None;
  }

  method ValidateMessages(p: Primitives, ms: seq<Message>) returns (r: Option<FixtureError>)
    ensures r == if forall i | 0 <= i < |ms| :: MessageAdmissible(p, ms[i]) then None else Some(InvalidMessage)
  {
    for i := 0 to |ms|
      invariant forall k | 0 <= k < i :: MessageAdmissible(p, ms[k])
    {
      var name := ms[i].content.name;
      if |name| == 0 || |name| > MAX_EVENT_TYPE_LEN || !p.trimmed(name) || !p.printable(name) {
        return Some(InvalidMessage);
      }
      var output := new Output();
      WriteCanonical(ms[i].content.payload, output);
      assert output.bytes == Write(ms[i].content.payload);
      if |output.bytes| > MAX_EVENT_PAYLOAD_LEN {
        return Some(InvalidMessage);
      }
    }
    return None;
  }

  /** `Fixture::validate` accepts exactly the valid fixtures. */
  method Validate(p: Primitives, f: Fixture) returns (r: Option<FixtureError>)
    ensures r.None? <==> ValidFixture(p, f)
    ensures r == Some(UnsupportedSchemaVersion) <==> f.schemaVersion != FIXTURE_SCHEMA_VERSION
    ensures r == Some(InvalidTopology) <==> f.schemaVersion == FIXTURE_SCHEMA_VERSION && !TopologySound(f.messages)
    ensures r == Some(ParentMustPrecede) <==>
      f.schemaVersion == FIXTURE_SCHEMA_VERSION && TopologySound(f.messages)
      && !(forall i | 0 <= i < |f.messages| :: Precedes(f.messages, i))
  {
    if f.schemaVersion != FIXTURE_SCHEMA_VERSION {
      return Some(UnsupportedSchemaVersion);
    }
    r := ValidateTopology(f.messages);
    if r.Some? {
      return;
    }
    r := ValidateParentOrder(f.messages);
    if r.Some? {
      return;
    }
    r := ValidateStreamVersions(f.messages);
    if r.Some? {
      return;
    }
    r := ValidateMessages(p, f.messages);
  }

  // ----- Fingerprints -----

  function CausationMember(m: Message): seq<Member> {
    if m.causationId.None? then [] else [("causationId", String(m.causationId.value))]
  }

  function StreamJson(s: StreamId): Json {
    Object([("type", String(s.aggregateType)), ("id", String(s.aggregateId))])
  }

  function ContentMembers(c: Content): seq<Member> {
    [("name", String(c.name)),
     ("schemaVersion", Number(Splitting.Decimal(c.schemaVersion))),
     ("aggregate", StreamJson(c.stream)),
     ("streamVersion", Number(Splitting.Decimal(c.streamVersion))),
     ("payload", c.payload)]
  }

  /** The message as its fixture document states it. */
  function MessageJson(m: Message): Json {
    Object([("kind", String("domain-event")), ("messageId", String(m.messageId)), ("correlationId", String(m.correlationId))]
           + CausationMember(m) + ContentMembers(m.content))
  }

  function Document(f: Fixture, m: Message): Json {
    Object([("format", String("rostfrei-fixture-message-v1")), ("fixtureId", String(f.id)),
            ("fixtureRevision", String(f.revision)), ("message", MessageJson(m))])
  }

  function Fingerprint(p: Primitives, f: Fixture, m: Message): Text {
    p.sha(Write(Document(f, m)))
  }

  lemma DecimalIsNumber(n: nat)
    ensures WellFormed(Number(Splitting.Decimal(n)))
  {
    var text := Splitting.Decimal(n);
    assert forall i | 0 <= i < |text| :: Splitting.IsDigit(text[i]);
  }

  lemma ContentWellFormed(c: Content)
    requires WellFormed(c.payload)
    ensures var ms := ContentMembers(c); forall i | 0 <= i < |ms| :: WellFormed(ms[i].1)
  {
    DecimalIsNumber(c.schemaVersion);
    DecimalIsNumber(c.streamVersion);
    var names := StreamJson(c.stream).members;
    assert names[0].0[0] != names[1].0[0];
    assert DistinctNames(names);
  }

  /** Tells the member names of a message apart. */
  function Tag(name: Text): nat {
    if |name| == 9 then (if name[0] == 'm' then 1 else 6)
    else if |name| == 4 then (if name[0] == 'k' then 0 else 4)
    else if |name| == 13 then (if name[0] == 'c' then 2 else if name[1] == 'c' then 5 else 7)
    else if |name| == 11 then 3
    else 8
  }

  lemma MessageTags(m: Message)
    ensures var ms := MessageJson(m).members;
      (forall i | 0 <= i < 3 :: Tag(ms[i].0) == i)
      && (forall i | 0 <= i < |CausationMember(m)| :: Tag(CausationMember(m)[i].0) == 3)
      && (forall i | 0 <= i < 5 :: Tag(ContentMembers(m.content)[i].0) == i + 4)
  {
  }

  lemma MessageWellFormed(m: Message)
    requires WellFormed(m.content.payload)
    ensures WellFormed(MessageJson(m))
  {
    var ms := MessageJson(m).members;
    var n := |CausationMember(m)|;
    MessageTags(m);
    ContentWellFormed(m.content);
    forall i | 0 <= i < |ms| ensures WellFormed(ms[i].1) && Tag(ms[i].0) == if i < 3 + n then i else i + 1 - n {
      if i >= 3 + n {
        assert ms[i] == ContentMembers(m.content)[i - 3 - n];
      } else if i >= 3 {
        assert ms[i] == CausationMember(m)[i - 3];
      }
    }
  }

  lemma DocumentWellFormed(f: Fixture, m: Message)
    requires WellFormed(m.content.payload)
    ensures WellFormed(Document(f, m))
  {
    MessageWellFormed(m);
    var ms := Document(f, m).members;
    assert |ms[0].0| == 6 && |ms[1].0| == 9 && |ms[2].0| == 15 && |ms[3].0| == 7;
    assert DistinctNames(ms);
  }

  // ----- What a document tells -----

  /** Objects that name the same members in the same places are the same exactly when their values are. */
  lemma SameByPlace(ms: seq<Member>, ns: seq<Member>)
    requires DistinctNames(ms) && DistinctNames(ns) && NamesOf(ms) == NamesOf(ns)
    ensures Same(Object(ms), Object(ns)) <==> forall i | 0 <= i < |ms| :: Same(ms[i].1, ns[i].1)
  {
    var a, b := Object(ms), Object(ns);
    assert |ms| == |NamesOf(ms)| == |NamesOf(ns)| == |ns|;
    assert forall i | 0 <= i < |ms| :: ms[i].0 == NamesOf(ms)[i] == NamesOf(ns)[i] == ns[i].0;
    if Same(a, b) {
      forall i | 0 <= i < |ms| ensures Same(ms[i].1, ns[i].1) {
        assert a.members[i].0 == b.members[i].0;
      }
    }
    if forall i | 0 <= i < |ms| :: Same(ms[i].1, ns[i].1) {
      forall i, j | 0 <= i < |ms| && 0 <= j < |ns| && ms[i].0 == ns[j].0 ensures Same(ms[i].1, ns[j].1) {
        assert ms[i].0 == ms[j].0;
      }
    }
  }

  lemma DecimalsDiffer(m: nat, n: nat)
    ensures Splitting.Decimal(m) == Splitting.Decimal(n) <==> m == n
  {
    Splitting.DecimalReadsBack(m);
    Splitting.DecimalReadsBack(n);
  }

  lemma StreamsSame(s: StreamId, t: StreamId)
    ensures Same(StreamJson(s), StreamJson(t)) <==> s == t
  {
    var ms, ns := StreamJson(s).members, StreamJson(t).members;
    assert ms[0].0[0] != ms[1].0[0] && ns[0].0[0] != ns[1].0[0];
    assert NamesOf(ms) == NamesOf(ns);
    SameByPlace(ms, ns);
    assert Same(ms[0].1, ns[0].1) <==> s.aggregateType == t.aggregateType;
    assert Same(ms[1].1, ns[1].1) <==> s.aggregateId == t.aggregateId;
  }

  /** Equal apart from the member order of the payload. */
  ghost predicate SameContent(c: Content, d: Content) {
    && c.name == d.name && c.schemaVersion == d.schemaVersion && c.stream == d.stream && c.streamVersion == d.streamVersion
    && Same(c.payload, d.payload)
  }

  lemma ContentsSame(c: Content, d: Content)
    ensures (forall i | 0 <= i < 5 :: Same(ContentMembers(c)[i].1, ContentMembers(d)[i].1)) <==> SameContent(c, d)
  {
    var ms, ns := ContentMembers(c), ContentMembers(d);
    DecimalsDiffer(c.schemaVersion, d.schemaVersion);
    DecimalsDiffer(c.streamVersion, d.streamVersion);
    StreamsSame(c.stream, d.stream);
    assert Same(ms[0].1, ns[0].1) <==> c.name == d.name;
    assert Same(ms[1].1, ns[1].1) <==> c.schemaVersion == d.schemaVersion;
    assert Same(ms[2].1, ns[2].1) <==> c.stream == d.stream;
    assert Same(ms[3].1, ns[3].1) <==> c.streamVersion == d.streamVersion;
    assert Same(ms[4].1, ns[4].1) <==> Same(c.payload, d.payload);
  }

  ghost predicate SameMessage(a: Message, b: Message) {
    && a.messageId == b.messageId && a.correlationId == b.correlationId && a.causationId == b.causationId
    && SameContent(a.content, b.content)
  }

  /** Only a message with a cause names one. */
  lemma CauseIsNamed(m: Message)
    ensures "causationId" in NameSet(NamesOf(MessageJson(m).members)) <==> m.causationId.Some?
  {
    var ms := MessageJson(m).members;
    MessageTags(m);
    if m.causationId.Some? {
      assert ms[3] == CausationMember(m)[0] && NamesOf(ms)[3] == "causationId";
    } else {
      forall i | 0 <= i < |ms| ensures Tag(NamesOf(ms)[i]) != 3 {
        assert i >= 3 ==> ms[i] == ContentMembers(m.content)[i - 3];
      }
      assert Tag("causationId") == 3;
    }
  }

  lemma MembersInPlace(a: Message, b: Message)
    requires a.causationId.Some? == b.causationId.Some?
    ensures NamesOf(MessageJson(a).members) == NamesOf(MessageJson(b).members)
  {
    var ms, ns := MessageJson(a).members, MessageJson(b).members;
    var n := 3 + |CausationMember(a)|;
    forall i | 0 <= i < |ms| ensures ms[i].0 == ns[i].0 {
      if i >= n {
        assert ms[i] == ContentMembers(a.content)[i - n] && ns[i] == ContentMembers(b.content)[i - n];
      } else if i >= 3 {
        assert ms[i] == CausationMember(a)[i - 3] && ns[i] == CausationMember(b)[i - 3];
      }
    }
  }

  /** The headers and the cause, place by place. */
  lemma HeadersSame(a: Message, b: Message)
    requires a.causationId.Some? == b.causationId.Some?
    ensures var ms, ns := MessageJson(a).members, MessageJson(b).members;
      (forall i | 0 <= i < 3 + |CausationMember(a)| :: Same(ms[i].1, ns[i].1))
        <==> a.messageId == b.messageId && a.correlationId == b.correlationId && a.causationId == b.causationId
  {
    var ms, ns := MessageJson(a).members, MessageJson(b).members;
    assert Same(ms[0].1, ns[0].1);
    assert Same(ms[1].1, ns[1].1) <==> a.messageId == b.messageId;
    assert Same(ms[2].1, ns[2].1) <==> a.correlationId == b.correlationId;
    if a.causationId.Some? {
      assert ms[3] == CausationMember(a)[0] && ns[3] == CausationMember(b)[0];
      assert Same(ms[3].1, ns[3].1) <==> a.causationId == b.causationId;
    }
  }

  lemma ContentPlaces(m: Message)
    ensures var ms := MessageJson(m).members; var n := 3 + |CausationMember(m)|;
      |ms| == n + 5 && forall i | 0 <= i < 5 :: ms[n + i] == ContentMembers(m.content)[i]
  {
  }

  /** Place by place: headers, the cause if any, and the content. */
  lemma PlacesSame(a: Message, b: Message)
    requires a.causationId.Some? == b.causationId.Some?
    ensures var ms, ns := MessageJson(a).members, MessageJson(b).members;
      |ms| == |ns| && ((forall i | 0 <= i < |ms| :: Same(ms[i].1, ns[i].1)) <==> SameMessage(a, b))
  {
    ContentPlaces(a);
    ContentPlaces(b);
    HeadersSame(a, b);
    ContentsSame(a.content, b.content);
    SplitPlaces(MessageJson(a).members, MessageJson(b).members, ContentMembers(a.content), ContentMembers(b.content), 3 + |CausationMember(a)|);
  }

  lemma SplitPlaces(ms: seq<Member>, ns: seq<Member>, cs: seq<Member>, ds: seq<Member>, n: nat)
    requires |cs| == |ds| && |ms| == |ns| == n + |cs|
    requires forall i | 0 <= i < |cs| :: ms[n + i] == cs[i] && ns[n + i] == ds[i]
    ensures (forall i | 0 <= i < |ms| :: Same(ms[i].1, ns[i].1)) <==>
      (forall i | 0 <= i < n :: Same(ms[i].1, ns[i].1)) && (forall i | 0 <= i < |cs| :: Same(cs[i].1, ds[i].1))
  {
    if forall i | 0 <= i < |ms| :: Same(ms[i].1, ns[i].1) {
      forall i | 0 <= i < |cs| ensures Same(cs[i].1, ds[i].1) {
        assert Same(ms[n + i].1, ns[n + i].1);
      }
    }
    if (forall i | 0 <= i < n :: Same(ms[i].1, ns[i].1)) && (forall i | 0 <= i < |cs| :: Same(cs[i].1, ds[i].1)) {
      forall i | 0 <= i < |ms| ensures Same(ms[i].1, ns[i].1) {
        if i >= n {
          assert Same(cs[i - n].1, ds[i - n].1) && ms[n + (i - n)] == cs[i - n];
        }
      }
    }
  }

  lemma MessagesSame(a: Message, b: Message)
    requires WellFormed(a.content.payload) && WellFormed(b.content.payload)
    ensures Same(MessageJson(a), MessageJson(b)) <==> SameMessage(a, b)
  {
    MessageWellFormed(a);
    MessageWellFormed(b);
    CauseIsNamed(a);
    CauseIsNamed(b);
    if a.causationId.Some? == b.causationId.Some? {
      MembersInPlace(a, b);
      SameByPlace(MessageJson(a).members, MessageJson(b).members);
      PlacesSame(a, b);
    }
  }

  lemma DocumentsSame(f: Fixture, a: Message, g: Fixture, b: Message)
    requires WellFormed(a.content.payload) && WellFormed(b.content.payload)
    ensures Same(Document(f, a), Document(g, b)) <==> f.id == g.id && f.revision == g.revision && SameMessage(a, b)
  {
    DocumentWellFormed(f, a);
    DocumentWellFormed(g, b);
    var ms, ns := Document(f, a).members, Document(g, b).members;
    assert NamesOf(ms) == NamesOf(ns);
    SameByPlace(ms, ns);
    MessagesSame(a, b);
    assert Same(ms[0].1, ns[0].1);
    assert Same(ms[1].1, ns[1].1) <==> f.id == g.id;
    assert Same(ms[2].1, ns[2].1) <==> f.revision == g.revision;
    assert Same(ms[3].1, ns[3].1) <==> Same(MessageJson(a), MessageJson(b));
  }

  /**
   A fingerprint document identifies its content: the bytes are equal exactly when fixture identity,
   revision and message are, up to member order inside the payload.
   */
  lemma DocumentsIdentify(f: Fixture, a: Message, g: Fixture, b: Message)
    requires WellFormed(a.content.payload) && WellFormed(b.content.payload)
    ensures Write(Document(f, a)) == Write(Document(g, b)) <==> f.id == g.id && f.revision == g.revision && SameMessage(a, b)
  {
    DocumentWellFormed(f, a);
    DocumentWellFormed(g, b);
    DocumentsSame(f, a, g, b);
    CanonicalBytes(Document(f, a), Document(g, b));
  }
}
