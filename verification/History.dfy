/**
 The separate validator for loaded histories, and what it accepts: exactly the concatenations of
 complete, distinct, contiguous commits with derived identities.
 */
module History {
  import opened Wrappers
  import opened Identity
  import opened Records

  type Events = seq<RecordedEvent>

  /** A commit ends just before position `i`. */
  predicate Closed(h: Events, i: nat)
    requires i <= |h|
  {
    i == 0 || h[i - 1].ordinal + 1 == h[i - 1].count
  }

  predicate NewCommit(h: Events, i: nat)
    requires i < |h|
  {
    forall j | 0 <= j < i :: h[j].commitId != h[i].commitId
  }

  /** Event `i` continues the open commit, or opens a commit never seen before. */
  predicate Chained(h: Events, i: nat)
    requires i < |h|
  {
    && h[i].ordinal < U32_MAX
    && if Closed(h, i) then h[i].ordinal == 0 && NewCommit(h, i)
       else h[i].commitId == h[i - 1].commitId && h[i].ordinal == h[i - 1].ordinal + 1 && h[i].count == h[i - 1].count
  }

  /** Event `i` is positioned and named as its stream and operation demand. */
  predicate Derived(ids: Ids, stream: StreamId, h: Events, i: nat)
    requires i < |h|
  {
    && h[i].streamId == stream
    && h[i].streamVersion == i + 1 <= U64_MAX
    && h[i].commitId == ids.commit(stream, h[i].operationId)
    && h[i].eventId == ids.event(h[i].commitId, h[i].ordinal)
  }

  predicate SameOperation(a: RecordedEvent, b: RecordedEvent) {
    a.commitId == b.commitId && a.fingerprint == b.fingerprint && a.actor == b.actor
  }

  /** No earlier event shares the identity of event `i`, and its operation means what it meant before. */
  predicate Fresh(h: Events, i: nat)
    requires i < |h|
  {
    forall j | 0 <= j < i ::
      h[j].eventId != h[i].eventId && (h[j].operationId == h[i].operationId ==> SameOperation(h[j], h[i]))
  }

  predicate Identified(ids: Ids, stream: StreamId, h: Events) {
    forall i | 0 <= i < |h| :: Derived(ids, stream, h, i) && Fresh(h, i)
  }

  /** Commits chain event by event, and the last one is complete. */
  predicate Contiguous(h: Events) {
    (forall i | 0 <= i < |h| :: Chained(h, i)) && Closed(h, |h|)
  }

  /** Locally checkable validity: what the loop below tests. */
  predicate Valid(ids: Ids, stream: StreamId, h: Events) {
    Identified(ids, stream, h) && Contiguous(h)
  }

  // ----- The validator loop -----

  function EventIdsBefore(h: Events, i: nat): set<Text>
    requires i <= |h|
  {
    if i == 0 then {} else EventIdsBefore(h, i - 1) + {h[i - 1].eventId}
  }

  function CommitsBefore(h: Events, i: nat): set<Text>
    requires i <= |h|
  {
    if i == 0 then {} else CommitsBefore(h, i - 1) + {h[i - 1].commitId}
  }

  function OperationOf(e: RecordedEvent): (Text, Text, Option<ActorRef>) {
    (e.commitId, e.fingerprint, e.actor)
  }

  function OperationsBefore(h: Events, i: nat): map<Text, (Text, Text, Option<ActorRef>)>
    requires i <= |h|
  {
    if i == 0 then map[] else OperationsBefore(h, i - 1)[h[i - 1].operationId := OperationOf(h[i - 1])]
  }

  lemma {:induction false} EventIdSeen(h: Events, i: nat, x: Text)
    requires i <= |h|
    ensures x in EventIdsBefore(h, i) <==> exists j :: 0 <= j < i && h[j].eventId == x
  {
    if i > 0 {
      EventIdSeen(h, i - 1, x);
      assert h[i - 1].eventId == x ==> exists j :: 0 <= j < i && h[j].eventId == x;
    }
  }

  lemma {:induction false} CommitSeen(h: Events, i: nat, x: Text)
    requires i <= |h|
    ensures x in CommitsBefore(h, i) <==> exists j :: 0 <= j < i && h[j].commitId == x
  {
    if i > 0 {
      CommitSeen(h, i - 1, x);
      assert h[i - 1].commitId == x ==> exists j :: 0 <= j < i && h[j].commitId == x;
    }
  }

  lemma {:induction false} OperationSeen(h: Events, i: nat, x: Text)
    requires i <= |h| && forall k | 0 <= k < i :: Fresh(h, k)
    ensures x in OperationsBefore(h, i) <==> exists j :: 0 <= j < i && h[j].operationId == x
    ensures forall j | 0 <= j < i && h[j].operationId == x :: OperationsBefore(h, i)[x] == OperationOf(h[j])
  {
    if i > 0 {
      OperationSeen(h, i - 1, x);
      assert Fresh(h, i - 1);
      assert h[i - 1].operationId == x ==> exists j :: 0 <= j < i && h[j].operationId == x;
    }
  }

  lemma CommitTested(h: Events, i: nat)
    requires i < |h|
    ensures NewCommit(h, i) <==> h[i].commitId !in CommitsBefore(h, i)
  {
    CommitSeen(h, i, h[i].commitId);
  }

  /** The bookkeeping tests of one loop step decide freshness of the event. */
  lemma FreshnessTested(h: Events, i: nat)
    requires i < |h| && forall k | 0 <= k < i :: Fresh(h, k)
    ensures Fresh(h, i) <==>
      && h[i].eventId !in EventIdsBefore(h, i)
      && (h[i].operationId in OperationsBefore(h, i) ==> OperationsBefore(h, i)[h[i].operationId] == OperationOf(h[i]))
  {
    EventIdSeen(h, i, h[i].eventId);
    OperationSeen(h, i, h[i].operationId);
    if h[i].eventId in EventIdsBefore(h, i) {
      var j :| 0 <= j < i && h[j].eventId == h[i].eventId;
    } else if h[i].operationId in OperationsBefore(h, i) {
      var j :| 0 <= j < i && h[j].operationId == h[i].operationId;
      assert OperationsBefore(h, i)[h[i].operationId] == OperationOf(h[j]);
    }
  }

  /** `validate_history` decides `Valid`. */
  method ValidateHistory(ids: Ids, stream: StreamId, h: Events) returns (ok: bool)
    ensures ok <==> Valid(ids, stream, h)
  {
    var eventIds: set<Text> := {};
    var seenCommits: set<Text> := {};
    var operations: map<Text, (Text, Text, Option<ActorRef>)> := map[];
    var current: Option<(Text, nat, nat)> := None;
    for i := 0 to |h|
      invariant forall k | 0 <= k < i :: Derived(ids, stream, h, k) && Fresh(h, k) && Chained(h, k)
      invariant eventIds == EventIdsBefore(h, i) && operations == OperationsBefore(h, i)
      invariant seenCommits == CommitsBefore(h, i)
      invariant current == if Closed(h, i) then None else Some((h[i - 1].commitId, h[i - 1].ordinal + 1, h[i - 1].count))
    {
      var e := h[i];
      FreshnessTested(h, i);
      CommitTested(h, i);
      assert Valid(ids, stream, h) ==> Derived(ids, stream, h, i) && Fresh(h, i) && Chained(h, i);
      if e.streamId != stream || i >= U64_MAX || e.streamVersion != i + 1 || e.eventId in eventIds {
        return false;
      }
      eventIds := eventIds + {e.eventId};
      var expectedOrdinal, count := 0, e.count;
      match current {
        case Some((commitId, ordinal, total)) =>
          if commitId != e.commitId {
            return false;
          }
          expectedOrdinal, count := ordinal, total;
        case None =>
          if e.ordinal != 0 || e.commitId in seenCommits {
            return false;
          }
      }
      seenCommits := seenCommits + {e.commitId};
      if e.ordinal != expectedOrdinal || e.count != count {
        return false;
      }
      if e.commitId != ids.commit(stream, e.operationId) || e.eventId != ids.event(e.commitId, e.ordinal) {
        return false;
      }
      if e.ordinal >= U32_MAX {
        return false;
      }
      current := if e.ordinal + 1 == count then None else Some((e.commitId, e.ordinal + 1, count));
      if e.operationId in operations && operations[e.operationId] != OperationOf(e) {
        return false;
      }
      operations := operations[e.operationId := OperationOf(e)];
    }
    return current.None?;
  }

  // ----- The independent definition: concatenations of commits -----

  /** A complete commit: one commit identity, ordinals 0, 1, ..., and the right count on every event. */
  predicate IsCommit(c: Events) {
    && 0 < |c| <= U32_MAX
    && forall i | 0 <= i < |c| :: c[i].commitId == c[0].commitId && c[i].ordinal == i && c[i].count == |c|
  }

  function Flatten(commits: seq<Events>): Events {
    if |commits| == 0 then [] else Flatten(commits[..|commits| - 1]) + commits[|commits| - 1]
  }

  predicate DistinctCommits(commits: seq<Events>) {
    && (forall k | 0 <= k < |commits| :: IsCommit(commits[k]))
    && (forall k, l | 0 <= k < l < |commits| :: commits[k][0].commitId != commits[l][0].commitId)
  }

  /** A history in the intended sense: distinct complete commits, one after the other. */
  ghost predicate IsHistory(ids: Ids, stream: StreamId, h: Events) {
    && Identified(ids, stream, h)
    && exists commits :: DistinctCommits(commits) && Flatten(commits) == h
  }

  /** Stepping back from event `i` to the event that opened its commit. */
  lemma {:induction false} CommitStart(h: Events, i: nat)
    requires i < |h| && forall k | 0 <= k <= i :: Chained(h, k)
    ensures h[i].ordinal <= i
    ensures forall k | i - h[i].ordinal <= k <= i ::
      h[k].commitId == h[i].commitId && h[k].ordinal == k - (i - h[i].ordinal) && h[k].count == h[i].count
  {
    assert Chained(h, i);
    if !Closed(h, i) {
      CommitStart(h, i - 1);
    }
  }

  /** Validity of an event depends on the past only. */
  lemma PastOnly(ids: Ids, stream: StreamId, g: Events, h: Events, i: nat)
    requires i < |g| && g <= h
    ensures Chained(g, i) == Chained(h, i)
    ensures Fresh(g, i) == Fresh(h, i)
    ensures Derived(ids, stream, g, i) == Derived(ids, stream, h, i)
  {
    assert forall k | 0 <= k <= i :: g[k] == h[k];
  }

  /** The part of a valid history before a commit boundary is valid. */
  lemma PrefixValid(ids: Ids, stream: StreamId, h: Events, n: nat)
    requires n <= |h| && Closed(h, n)
    ensures Contiguous(h) ==> Contiguous(h[..n])
    ensures Valid(ids, stream, h) ==> Valid(ids, stream, h[..n])
  {
    forall i | 0 <= i < n
      ensures Chained(h[..n], i) == Chained(h, i)
      ensures Fresh(h[..n], i) == Fresh(h, i)
      ensures Derived(ids, stream, h[..n], i) == Derived(ids, stream, h, i)
    {
      PastOnly(ids, stream, h[..n], h, i);
    }
  }

  lemma {:induction false} FlattenMember(commits: seq<Events>, e: RecordedEvent)
    requires DistinctCommits(commits) && e in Flatten(commits)
    ensures exists k :: 0 <= k < |commits| && commits[k][0].commitId == e.commitId
  {
    var n := |commits| - 1;
    if e in commits[n] {
      assert commits[n][0].commitId == e.commitId;
    } else {
      FlattenMember(commits[..n], e);
      var k :| 0 <= k < n && commits[..n][k][0].commitId == e.commitId;
      assert commits[k][0].commitId == e.commitId;
    }
  }

  lemma {:induction false} FlattenCovers(commits: seq<Events>, k: nat)
    requires k < |commits| && IsCommit(commits[k])
    ensures commits[k][0] in Flatten(commits)
  {
    if k < |commits| - 1 {
      FlattenCovers(commits[..|commits| - 1], k);
    }
  }

  /** The last commit of locally chained events, cut off. */
  lemma LastCommit(h: Events) returns (start: nat)
    requires Contiguous(h) && |h| > 0
    ensures start < |h| && IsCommit(h[start..]) && Contiguous(h[..start]) && NewCommit(h, start)
  {
    var last := |h| - 1;
    CommitStart(h, last);
    assert Chained(h, last);
    start := last - h[last].ordinal;
    assert Chained(h, start);
    PrefixValid(Ids((s, x) => x, (x, n) => x), h[0].streamId, h, start);
  }

  /** Locally chained events split into commits, last commit first. */
  lemma {:induction false} SplitIntoCommits(h: Events) returns (commits: seq<Events>)
    requires Contiguous(h)
    ensures DistinctCommits(commits) && Flatten(commits) == h
  {
    if |h| == 0 {
      commits := [];
    } else {
      var start := LastCommit(h);
      var earlier := SplitIntoCommits(h[..start]);
      commits := earlier + [h[start..]];
      assert commits[..|earlier|] == earlier;
      forall k | 0 <= k < |earlier| ensures commits[k][0].commitId != h[start].commitId {
        FlattenCovers(earlier, k);
      }
    }
  }

  /** A complete new commit after chained events chains. */
  lemma CommitChains(g: Events, c: Events, i: nat)
    requires Closed(g, |g|) && IsCommit(c) && |g| <= i < |g| + |c|
    requires forall e | e in g :: e.commitId != c[0].commitId
    ensures Chained(g + c, i)
  {
    assert (g + c)[i] == c[i - |g|];
    if i > |g| {
      assert (g + c)[i - 1] == c[i - 1 - |g|];
    }
  }

  /** Distinct complete commits chain locally. */
  lemma {:induction false} CommitsChain(commits: seq<Events>)
    requires DistinctCommits(commits)
    ensures Contiguous(Flatten(commits))
  {
    if |commits| > 0 {
      var earlier, c := commits[..|commits| - 1], commits[|commits| - 1];
      CommitsChain(earlier);
      var g := Flatten(earlier);
      forall e | e in g ensures e.commitId != c[0].commitId {
        FlattenMember(earlier, e);
      }
      AppendCommit(g, c);
    }
  }

  lemma AppendCommit(g: Events, c: Events)
    requires Contiguous(g) && IsCommit(c)
    requires forall e | e in g :: e.commitId != c[0].commitId
    ensures Contiguous(g + c)
  {
    forall i | 0 <= i < |g + c| ensures Chained(g + c, i) {
      if i < |g| {
        PastOnly(Ids((s, x) => x, (x, n) => x), g[0].streamId, g, g + c, i);
      } else {
        CommitChains(g, c, i);
      }
    }
    assert (g + c)[|g + c| - 1] == c[|c| - 1];
  }

  /** The loop validator accepts exactly the histories. */
  lemma ValidIsHistory(ids: Ids, stream: StreamId, h: Events)
    ensures Valid(ids, stream, h) <==> IsHistory(ids, stream, h)
  {
    if Valid(ids, stream, h) {
      var commits := SplitIntoCommits(h);
    }
    if IsHistory(ids, stream, h) {
      var commits :| DistinctCommits(commits) && Flatten(commits) == h;
      CommitsChain(commits);
    }
  }

  /** The batch is derived from its stream and brings only new identities to it. */
  predicate NewTo(ids: Ids, stream: StreamId, h: Events, batch: EventBatch) {
    && batch.commitId == ids.commit(stream, batch.operationId)
    && (forall i | 0 <= i < |batch.events| :: batch.events[i].eventId == ids.event(batch.commitId, i))
    && (forall e | e in h :: e.operationId != batch.operationId && e.commitId != batch.commitId)
    && (forall e, i | e in h && 0 <= i < |batch.events| :: e.eventId != batch.events[i].eventId)
  }

  /** Recording such a batch on a valid history keeps it valid. */
  lemma RecordingKeepsValid(ids: Ids, stream: StreamId, h: Events, batch: EventBatch)
    requires Valid(ids, stream, h) && AdmissibleEvents(batch.events)
    requires |h| + |batch.events| <= U64_MAX && NewTo(ids, stream, h, batch)
    ensures Valid(ids, stream, h + Recorded(stream, |h|, batch))
  {
    var r := Recorded(stream, |h|, batch);
    assert IsCommit(r);
    AppendCommit(h, r);
    var g := h + r;
    forall i | 0 <= i < |g| ensures Derived(ids, stream, g, i) && Fresh(g, i) {
      if i < |h| {
        PastOnly(ids, stream, h, g, i);
      } else {
        RecordedFresh(ids, stream, h, batch, i);
      }
    }
  }

  lemma RecordedFresh(ids: Ids, stream: StreamId, h: Events, batch: EventBatch, i: nat)
    requires AdmissibleEvents(batch.events) && |h| + |batch.events| <= U64_MAX
    requires NewTo(ids, stream, h, batch) && |h| <= i < |h| + |batch.events|
    ensures var g := h + Recorded(stream, |h|, batch); Derived(ids, stream, g, i) && Fresh(g, i)
  {
    var r := Recorded(stream, |h|, batch);
    var g := h + r;
    assert g[i] == r[i - |h|];
    forall j | 0 <= j < i
      ensures g[j].eventId != g[i].eventId && (g[j].operationId == g[i].operationId ==> SameOperation(g[j], g[i]))
    {
      if j < |h| {
        assert g[j] in h;
      } else {
        assert g[j] == r[j - |h|];
      }
    }
  }
}
