/**
 Identities, length-framed hashing and derived commit and event identities.

 Text is a sequence of UTF-8 code units, each held in one `char` below 256. SHA-256 is an
 arbitrary function from the hashed bytes to a fingerprint, so every result holds for each hash.
 */
module Identity {

  type Text = string

  /** The hash: hashed bytes to fingerprint text. */
  type Sha = Text -> Text

  const U16_MAX: nat := 0xFFFF
  const U32_MAX: nat := 0xFFFF_FFFF
  const U64_MAX: nat := 0xFFFF_FFFF_FFFF_FFFF

  datatype StreamId = StreamId(aggregateType: Text, aggregateId: Text)

  /** The low `width` bytes of `n`, most significant first. */
  function BigEndian(n: nat, width: nat): (bytes: Text)
    ensures |bytes| == width
  {
    if width == 0 then [] else BigEndian(n / 256, width - 1) + [(n % 256) as char]
  }

  function FromBigEndian(bytes: Text): (n: nat) {
    if |bytes| == 0 then 0
    else FromBigEndian(bytes[..|bytes| - 1]) * 256 + bytes[|bytes| - 1] as int
  }

  function Pow256(width: nat): (p: nat)
    ensures p > 0
  {
    if width == 0 then 1 else 256 * Pow256(width - 1)
  }

  /** Fixed-width big-endian numbers read back, whenever the number fits the width. */
  lemma {:induction false} BigEndianReadsBack(n: nat, width: nat)
    requires n < Pow256(width)
    ensures FromBigEndian(BigEndian(n, width)) == n
  {
    if width > 0 {
      BigEndianReadsBack(n / 256, width - 1);
      assert BigEndian(n, width)[..width - 1] == BigEndian(n / 256, width - 1);
    }
  }

  lemma Pow256Widths()
    ensures Pow256(2) == U16_MAX + 1 && Pow256(4) == U32_MAX + 1 && Pow256(8) == U64_MAX + 1
  {
    assert Pow256(1) == 256;
    assert Pow256(3) == 256 * Pow256(2);
    assert Pow256(5) == 256 * Pow256(4);
    assert Pow256(6) == 256 * Pow256(5);
    assert Pow256(7) == 256 * Pow256(6);
  }

  /** One framed part: an eight-byte length and then the bytes. */
  function HashPart(part: Text): Text {
    BigEndian(|part|, 8) + part
  }

  /** What a hasher has been fed after hashing `parts` one by one. */
  function Frame(parts: seq<Text>): Text {
    if |parts| == 0 then [] else HashPart(parts[0]) + Frame(parts[1..])
  }

  /** Every part has a length a 64-bit machine can hold. */
  predicate Addressable(parts: seq<Text>) {
    forall i | 0 <= i < |parts| :: |parts[i]| <= U64_MAX
  }

  lemma Associative<T>(a: seq<T>, b: seq<T>, c: seq<T>)
    ensures a + (b + c) == a + b + c
  {
  }

  lemma {:induction false} FrameConcat(a: seq<Text>, b: seq<Text>)
    ensures Frame(a + b) == Frame(a) + Frame(b)
  {
    if |a| == 0 {
      assert a + b == b;
    } else {
      FrameConcat(a[1..], b);
      assert (a + b)[1..] == a[1..] + b && (a + b)[0] == a[0];
      Associative(HashPart(a[0]), Frame(a[1..]), Frame(b));
    }
  }

  /** Framing loses nothing: the byte stream determines the sequence of parts. */
  lemma {:induction false} FrameInjective(a: seq<Text>, b: seq<Text>)
    requires Addressable(a) && Addressable(b)
    requires Frame(a) == Frame(b)
    ensures a == b
  {
    if |a| > 0 && |b| > 0 {
      Pow256Widths();
      var x, y := BigEndian(|a[0]|, 8), BigEndian(|b[0]|, 8);
      assert Frame(a)[..8] == x && Frame(b)[..8] == y;
      BigEndianReadsBack(|a[0]|, 8);
      BigEndianReadsBack(|b[0]|, 8);
      assert Frame(a)[8..8 + |a[0]|] == a[0] && Frame(b)[8..8 + |b[0]|] == b[0];
      assert Frame(a)[8 + |a[0]|..] == Frame(a[1..]) && Frame(b)[8 + |b[0]|..] == Frame(b[1..]);
      FrameInjective(a[1..], b[1..]);
      assert a == [a[0]] + a[1..] && b == [b[0]] + b[1..];
    }
  }

  function CommitParts(stream: StreamId, operationId: Text): seq<Text> {
    ["rostfrei:commit:v1", stream.aggregateType, stream.aggregateId, operationId]
  }

  function EventParts(commitId: Text, ordinal: nat): seq<Text> {
    ["rostfrei:event:v1", commitId, BigEndian(ordinal, 4)]
  }

  function DeriveCommitId(sha: Sha, stream: StreamId, operationId: Text): Text {
    "commit:" + sha(Frame(CommitParts(stream, operationId)))
  }

  function DeriveEventId(sha: Sha, commitId: Text, ordinal: nat): Text {
    "event:" + sha(Frame(EventParts(commitId, ordinal)))
  }

  /** How a store names commits and events; arbitrary unless said to be the hash derivation. */
  datatype Ids = Ids(commit: (StreamId, Text) -> Text, event: (Text, nat) -> Text)

  /** The names are the derived ones. */
  ghost predicate DerivedBy(ids: Ids, sha: Sha) {
    && (forall s, op :: ids.commit(s, op) == DeriveCommitId(sha, s, op))
    && (forall c, n :: ids.event(c, n) == DeriveEventId(sha, c, n))
  }

  /** The hash has no collision among the given inputs. */
  ghost predicate CollisionFree(sha: Sha, inputs: set<Text>) {
    forall a, b | a in inputs && b in inputs && sha(a) == sha(b) :: a == b
  }

  /** Without a collision, commit identities differ as soon as stream or operation differ. */
  lemma CommitIdsDiffer(sha: Sha, s: StreamId, op: Text, s': StreamId, op': Text)
    requires Addressable(CommitParts(s, op)) && Addressable(CommitParts(s', op'))
    requires CollisionFree(sha, {Frame(CommitParts(s, op)), Frame(CommitParts(s', op'))})
    requires DeriveCommitId(sha, s, op) == DeriveCommitId(sha, s', op')
    ensures s == s' && op == op'
  {
    var a, b := CommitParts(s, op), CommitParts(s', op');
    assert sha(Frame(a)) == DeriveCommitId(sha, s, op)[7..];
    assert sha(Frame(b)) == DeriveCommitId(sha, s', op')[7..];
    FrameInjective(a, b);
    assert a[1] == b[1] && a[2] == b[2] && a[3] == b[3];
  }

  /** Without a collision, event identities differ as soon as commit or ordinal differ. */
  lemma EventIdsDiffer(sha: Sha, commit: Text, ordinal: nat, commit': Text, ordinal': nat)
    requires ordinal <= U32_MAX && ordinal' <= U32_MAX
    requires |commit| <= U64_MAX && |commit'| <= U64_MAX
    requires CollisionFree(sha, {Frame(EventParts(commit, ordinal)), Frame(EventParts(commit', ordinal'))})
    requires DeriveEventId(sha, commit, ordinal) == DeriveEventId(sha, commit', ordinal')
    ensures commit == commit' && ordinal == ordinal'
  {
    var a, b := EventParts(commit, ordinal), EventParts(commit', ordinal');
    assert sha(Frame(a)) == DeriveEventId(sha, commit, ordinal)[6..];
    assert sha(Frame(b)) == DeriveEventId(sha, commit', ordinal')[6..];
    FrameInjective(a, b);
    assert a[1] == b[1] && a[2] == b[2];
    Pow256Widths();
    BigEndianReadsBack(ordinal, 4);
    BigEndianReadsBack(ordinal', 4);
  }
}
