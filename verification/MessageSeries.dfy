/** Insertion-ordered causal graphs of messages, and the exact report of what is wrong with one. */
module MessageSeries {
  import opened Wrappers
  import opened Identity
  import opened Cycles

  const MAX_MESSAGE_SERIES_NODES: nat := 4096

  datatype Node<T> = Node(messageId: Text, correlationId: Text, causationId: Option<Text>, content: T)

  datatype InsertOutcome = Inserted | Duplicate

  datatype SeriesError = IdentityConflict | TooManyEntries

  predicate DistinctIds<T>(nodes: seq<Node<T>>) {
    forall i, j | 0 <= i < j < |nodes| :: nodes[i].messageId != nodes[j].messageId
  }

  predicate HasId<T>(nodes: seq<Node<T>>, id: Text) {
    exists i :: 0 <= i < |nodes| && nodes[i].messageId == id
  }

  class Series<T(==)> {
    var nodes: seq<Node<T>>

    ghost predicate Valid()
      reads this
    {
      DistinctIds(nodes) && |nodes| <= MAX_MESSAGE_SERIES_NODES
    }

    constructor ()
      ensures Valid() && nodes == []
    {
      nodes := [];
    }

    method Get(id: Text) returns (r: Option<Node<T>>)
      requires Valid()
      ensures r.Some? <==> HasId(nodes, id)
      ensures r.Some? ==> r.value in nodes && r.value.messageId == id
    {
      for i := 0 to |nodes|
        invariant forall k | 0 <= k < i :: nodes[k].messageId != id
      {
        if nodes[i].messageId == id {
          return Some(nodes[i]);
        }
      }
      return None;
    }

    method Insert(node: Node<T>) returns (r: Result<InsertOutcome, SeriesError>)
      requires Valid()
      modifies this
      ensures Valid()
      ensures r == Ok(Duplicate) <==> node in old(nodes)
      ensures r == Err(IdentityConflict) <==> HasId(old(nodes), node.messageId) && node !in old(nodes)
      ensures r == Err(TooManyEntries) <==> !HasId(old(nodes), node.messageId) && |old(nodes)| == MAX_MESSAGE_SERIES_NODES
      ensures nodes == if r == Ok(Inserted) then old(nodes) + [node] else old(nodes)
    {
      var existing := Get(node.messageId);
      if existing.Some? {
        return if existing.value == node then Ok(Duplicate) else Err(IdentityConflict);
      }
      if |nodes| == MAX_MESSAGE_SERIES_NODES {
        return Err(TooManyEntries);
      }
      nodes := nodes + [node];
      return Ok(Inserted);
    }
  }

  // ----- Building a series from a list -----

  /** One identity never means two messages. */
  predicate Consistent<T(==)>(input: seq<Node<T>>) {
    forall i, j | 0 <= i < |input| && 0 <= j < |input| && input[i].messageId == input[j].messageId :: input[i] == input[j]
  }

  function NodeSet<T(==)>(input: seq<Node<T>>): set<Node<T>> {
    set n | n in input
  }

  function FirstOccurrences<T(==)>(input: seq<Node<T>>): seq<Node<T>> {
    if |input| == 0 then []
    else
      var earlier := FirstOccurrences(input[..|input| - 1]);
      var last := input[|input| - 1];
      if last in earlier then earlier else earlier + [last]
  }

  lemma {:induction false} FirstOccurrencesCover<T>(input: seq<Node<T>>)
    ensures NodeSet(FirstOccurrences(input)) == NodeSet(input)
    ensures |FirstOccurrences(input)| == |NodeSet(input)|
  {
    if |input| > 0 {
      var earlier, last := input[..|input| - 1], input[|input| - 1];
      FirstOccurrencesCover(earlier);
      assert input == earlier + [last];
      assert NodeSet(input) == NodeSet(earlier) + {last};
      var f := FirstOccurrences(earlier);
      assert last in f <==> last in NodeSet(f);
      assert NodeSet(f + [last]) == NodeSet(f) + {last};
    }
  }

  lemma SetOfPrefix<T>(input: seq<Node<T>>, i: nat)
    requires i < |input|
    ensures NodeSet(input[..i]) + {input[i]} <= NodeSet(input)
  {
  }

  /** Capacity is reached by a message that is new: more distinct messages than fit. */
  lemma Overfull<T>(input: seq<Node<T>>, i: nat)
    requires i < |input| && |FirstOccurrences(input[..i])| == MAX_MESSAGE_SERIES_NODES && input[i] !in FirstOccurrences(input[..i])
    ensures |NodeSet(input)| > MAX_MESSAGE_SERIES_NODES
  {
    FirstOccurrencesCover(input[..i]);
    SetOfPrefix(input, i);
    var s := NodeSet(input[..i]);
    assert input[i] !in NodeSet(FirstOccurrences(input[..i]));
    Subset(s + {input[i]}, NodeSet(input));
  }

  lemma Subset<T>(a: set<T>, b: set<T>)
    requires a <= b
    ensures |a| <= |b|
  {
    assert b == a + (b - a);
  }

  lemma OccursOnce<T>(input: seq<Node<T>>, x: Node<T>)
    ensures x in FirstOccurrences(input) <==> x in input
  {
    FirstOccurrencesCover(input);
    assert x in NodeSet(FirstOccurrences(input)) <==> x in NodeSet(input);
  }

  /** `try_from_nodes`: succeeds exactly on consistent input that fits, keeping each message's first occurrence. */
  method TryFromNodes<T(==)>(input: seq<Node<T>>) returns (r: Result<seq<Node<T>>, SeriesError>)
    ensures r.Ok? <==> Consistent(input) && |NodeSet(input)| <= MAX_MESSAGE_SERIES_NODES
    ensures r.Ok? ==> r.value == FirstOccurrences(input) && DistinctIds(r.value)
  {
    var series := new Series<T>();
    for i := 0 to |input|
      invariant fresh(series) && series.Valid() && series.nodes == FirstOccurrences(input[..i])
      invariant Consistent(input[..i])
    {
      var node := input[i];
      var before := series.nodes;
      var inserted := series.Insert(node);
      assert input[..i + 1][..i] == input[..i] && input[..i + 1][i] == node;
      if inserted.Err? {
        if inserted.error.TooManyEntries? {
          Overfull(input, i);
        } else {
          var k :| 0 <= k < |before| && before[k].messageId == node.messageId;
          OccursOnce(input[..i], before[k]);
          Clash(input, before[k], node);
        }
        return Err(inserted.error);
      }
      Extended(input, i);
      assert inserted.value == Inserted || inserted.value == Duplicate;
      assert FirstOccurrences(input[..i + 1]) == if node in before then before else before + [node];
    }
    assert input[..|input|] == input;
    FirstOccurrencesCover(input);
    return Ok(series.nodes);
  }

  lemma Clash<T>(input: seq<Node<T>>, a: Node<T>, b: Node<T>)
    requires a in input && b in input && a.messageId == b.messageId && a != b
    ensures !Consistent(input)
  {
    var i :| 0 <= i < |input| && input[i] == a;
    var j :| 0 <= j < |input| && input[j] == b;
    assert input[i] != input[j];
  }

  lemma Extended<T>(input: seq<Node<T>>, i: nat)
    requires i < |input| && Consistent(input[..i])
    requires input[i] in FirstOccurrences(input[..i]) || !HasId(FirstOccurrences(input[..i]), input[i].messageId)
    ensures Consistent(input[..i + 1])
  {
    var g := input[..i + 1];
    forall j | 0 <= j < i && g[j].messageId == g[i].messageId ensures g[j] == g[i] {
      OccursOnce(input[..i], g[j]);
      assert input[..i][j] == g[j];
      var f := FirstOccurrences(input[..i]);
      var k :| 0 <= k < |f| && f[k] == g[j];
      OccursOnce(input[..i], g[i]);
      var m :| 0 <= m < i && input[..i][m] == g[i];
    }
    forall a, b | 0 <= a < |g| && 0 <= b < |g| && g[a].messageId == g[b].messageId ensures g[a] == g[b] {
      if a < i && b < i {
        assert g[a] == input[..i][a] && g[b] == input[..i][b];
      }
    }
  }

  // ----- Topology -----

  datatype Issue<T> =
    | UnresolvedParent(child: Node<T>)
    | CrossCorrelation(child: Node<T>, parent: Node<T>)
    | Cycle(nodes: seq<Node<T>>)

  /** The place of an identity among the first `n` nodes; a later entry hides an earlier one. */
  function IndexBelow<T>(nodes: seq<Node<T>>, id: Text, n: nat): (r: Option<nat>)
    requires n <= |nodes|
    ensures r.Some? ==> r.value < n
  {
    if n == 0 then None
    else if nodes[n - 1].messageId == id then Some(n - 1)
    else IndexBelow(nodes, id, n - 1)
  }

  /** The index finds an identity wherever it is. */
  lemma {:induction false} IndexFinds<T>(nodes: seq<Node<T>>, id: Text, n: nat)
    requires n <= |nodes|
    ensures match IndexBelow(nodes, id, n)
      case Some(k) => nodes[k].messageId == id
      case None => forall i | 0 <= i < n :: nodes[i].messageId != id
  {
    if n > 0 {
      IndexFinds(nodes, id, n - 1);
    }
  }

  function IndexOf<T>(nodes: seq<Node<T>>, id: Text): (r: Option<nat>)
    ensures r.Some? ==> r.value < |nodes|
  {
    IndexBelow(nodes, id, |nodes|)
  }

  function ParentIndex<T>(nodes: seq<Node<T>>, i: nat): Option<nat>
    requires i < |nodes|
  {
    if nodes[i].causationId.None? then None else IndexOf(nodes, nodes[i].causationId.value)
  }

  function ParentsOf<T>(nodes: seq<Node<T>>): (parents: Parents)
    ensures |parents| == |nodes|
    ensures forall i | 0 <= i < |nodes| :: parents[i] == ParentIndex(nodes, i)
  {
    seq(|nodes|, i requires 0 <= i < |nodes| => ParentIndex(nodes, i))
  }

  /** What is wrong with the edge from node `i` to its parent. */
  function EdgeIssue<T>(nodes: seq<Node<T>>, i: nat): Option<Issue<T>>
    requires i < |nodes|
  {
    if nodes[i].causationId.None? then None
    else
      match ParentIndex(nodes, i)
      case None => Some(UnresolvedParent(nodes[i]))
      case Some(k) => if nodes[i].correlationId != nodes[k].correlationId then Some(CrossCorrelation(nodes[i], nodes[k])) else None
  }

  function EdgeIssues<T>(nodes: seq<Node<T>>, n: nat): seq<Issue<T>>
    requires n <= |nodes|
  {
    if n == 0 then []
    else
      var issue := EdgeIssue(nodes, n - 1);
      if issue.None? then EdgeIssues(nodes, n - 1) else EdgeIssues(nodes, n - 1) + [issue.value]
  }

  function Members<T>(nodes: seq<Node<T>>, cycle: seq<nat>): seq<Node<T>>
    requires forall k | 0 <= k < |cycle| :: cycle[k] < |nodes|
  {
    seq(|cycle|, k requires 0 <= k < |cycle| => nodes[cycle[k]])
  }

  /** The list of all cycles as `FindCycles` reports them. */
  ghost predicate AllCycles(parents: Parents, cycles: seq<seq<nat>>) {
    (forall c :: c in cycles <==> Canonical(parents, c)) && Nonempty(cycles) && Ordered(cycles)
  }

  /** There is only one such list, so what is reported is determined. */
  lemma {:induction false} AllCyclesUnique(a: seq<seq<nat>>, b: seq<seq<nat>>)
    requires Nonempty(a) && Nonempty(b) && Ordered(a) && Ordered(b) && forall c :: c in a <==> c in b
    ensures a == b
  {
    if |a| > 0 && |b| > 0 {
      FirstIsLeast(a, b);
      FirstIsLeast(b, a);
      assert a[0] in b && b[0] in a;
      var i :| 0 <= i < |b| && b[i] == a[0];
      assert a[0] == b[0];
      RestOf(a);
      RestOf(b);
      AllCyclesUnique(a[1..], b[1..]);
      assert a == [a[0]] + a[1..] && b == [b[0]] + b[1..];
    }
    assert |a| > 0 ==> a[0] in b;
    assert |b| > 0 ==> b[0] in a;
  }

  lemma RestOf(a: seq<seq<nat>>)
    requires |a| > 0 && Nonempty(a) && Ordered(a)
    ensures forall c :: c in a[1..] <==> c in a && c != a[0]
  {
    forall k | 0 < k < |a| ensures a[k] != a[0] {
      assert a[0][0] < a[k][0];
    }
    assert a == [a[0]] + a[1..];
  }

  lemma FirstIsLeast(a: seq<seq<nat>>, b: seq<seq<nat>>)
    requires Nonempty(a) && Nonempty(b) && Ordered(a) && Ordered(b) && |a| > 0 && |b| > 0 && a[0] in b
    ensures b[0][0] <= a[0][0]
  {
    var i :| 0 <= i < |b| && b[i] == a[0];
  }

  predicate InRange<T>(nodes: seq<Node<T>>, cycles: seq<seq<nat>>) {
    forall i, k | 0 <= i < |cycles| && 0 <= k < |cycles[i]| :: cycles[i][k] < |nodes|
  }

  function CycleIssues<T>(nodes: seq<Node<T>>, cycles: seq<seq<nat>>): (issues: seq<Issue<T>>)
    requires InRange(nodes, cycles)
    ensures |issues| == |cycles|
  {
    seq(|cycles|, i requires 0 <= i < |cycles| => Cycle(Members(nodes, cycles[i])))
  }

  ghost predicate Reported<T>(nodes: seq<Node<T>>, cycles: seq<seq<nat>>, issues: seq<Issue<T>>) {
    && AllCycles(ParentsOf(nodes), cycles)
    && InRange(nodes, cycles)
    && issues == EdgeIssues(nodes, |nodes|) + CycleIssues(nodes, cycles)
  }

  method NodeIndexes<T>(nodes: seq<Node<T>>) returns (indexes: map<Text, nat>)
    ensures forall id :: (if id in indexes then Some(indexes[id]) else None) == IndexOf(nodes, id)
  {
    indexes := map[];
    for i := 0 to |nodes|
      invariant forall id :: (if id in indexes then Some(indexes[id]) else None) == IndexBelow(nodes, id, i)
    {
      indexes := indexes[nodes[i].messageId := i];
    }
  }

  /** `topology_issues`: edge issues in child order, then every cycle of the graph once, by earliest member. */
  method TopologyIssues<T(==)>(nodes: seq<Node<T>>) returns (issues: seq<Issue<T>>)
    ensures exists cycles :: Reported(nodes, cycles, issues)
  {
    var parents;
    parents, issues := CheckEdges(nodes);
    var cycles := FindCycles(parents);
    forall i, k | 0 <= i < |cycles| && 0 <= k < |cycles[i]| ensures cycles[i][k] < |nodes| {
      assert cycles[i] in cycles;
    }
    issues := issues + CycleIssues(nodes, cycles);
    assert Reported(nodes, cycles, issues);
  }

  method CheckEdges<T(==)>(nodes: seq<Node<T>>) returns (parents: Parents, issues: seq<Issue<T>>)
    ensures parents == ParentsOf(nodes) && issues == EdgeIssues(nodes, |nodes|)
  {
    var indexes := NodeIndexes(nodes);
    parents, issues := [], [];
    for i := 0 to |nodes|
      invariant issues == EdgeIssues(nodes, i) && parents == ParentsOf(nodes)[..i]
    {
      var child := nodes[i];
      var parent: Option<nat> := None;
      if child.causationId.Some? {
        var id := child.causationId.value;
        parent := if id in indexes then Some(indexes[id]) else None;
        assert parent == IndexOf(nodes, id);
        if parent.None? {
          issues := issues + [UnresolvedParent(child)];
        } else if child.correlationId != nodes[parent.value].correlationId {
          issues := issues + [CrossCorrelation(child, nodes[parent.value])];
        }
      }
      parents := parents + [parent];
    }
  }

  // ----- What an empty report means -----

  /** The node is a root, or its cause is a node of the same correlation. */
  predicate EdgeSound<T>(nodes: seq<Node<T>>, i: nat)
    requires i < |nodes|
  {
    nodes[i].causationId.Some? ==>
      var k := IndexOf(nodes, nodes[i].causationId.value); k.Some? && nodes[k.value].correlationId == nodes[i].correlationId
  }

  lemma NoEdgeIssue<T>(nodes: seq<Node<T>>, i: nat)
    requires i < |nodes|
    ensures EdgeIssue(nodes, i).None? <==> EdgeSound(nodes, i)
  {
  }

  lemma {:induction false} NoEdgeIssues<T>(nodes: seq<Node<T>>, n: nat)
    requires n <= |nodes|
    ensures |EdgeIssues(nodes, n)| == 0 <==> forall i | 0 <= i < n :: EdgeSound(nodes, i)
  {
    if n > 0 {
      NoEdgeIssues(nodes, n - 1);
      NoEdgeIssue(nodes, n - 1);
    }
  }

  /** Nothing is reported exactly when every cause resolves within its correlation and every chain of causes ends at a root. */
  lemma EmptyReportMeansSound<T>(nodes: seq<Node<T>>, cycles: seq<seq<nat>>, issues: seq<Issue<T>>)
    requires Reported(nodes, cycles, issues)
    ensures issues == [] <==>
      && (forall i | 0 <= i < |nodes| :: EdgeSound(nodes, i))
      && (forall i: nat | i < |nodes| :: ChainEnds(ParentsOf(nodes), i))
  {
    NoEdgeIssues(nodes, |nodes|);
    AcyclicIffChainsEnd(ParentsOf(nodes));
    assert |issues| == |EdgeIssues(nodes, |nodes|)| + |cycles|;
    if |cycles| > 0 {
      assert cycles[0] in cycles;
    } else if c :| Canonical(ParentsOf(nodes), c) {
      assert c in cycles;
    }
  }

  // ----- What each issue means -----

  lemma {:induction false} EdgeIssueListed<T>(nodes: seq<Node<T>>, n: nat, issue: Issue<T>)
    requires n <= |nodes|
    ensures issue in EdgeIssues(nodes, n) <==> exists i :: 0 <= i < n && EdgeIssue(nodes, i) == Some(issue)
  {
    if n > 0 {
      EdgeIssueListed(nodes, n - 1, issue);
      assert EdgeIssue(nodes, n - 1) == Some(issue) ==> exists i :: 0 <= i < n && EdgeIssue(nodes, i) == Some(issue);
    }
  }

  /** Place `a` of the edge issues speaks of child `i`. */
  predicate SpeaksOf<T(==)>(nodes: seq<Node<T>>, issues: seq<Issue<T>>, a: nat, i: nat)
    requires a < |issues|
  {
    i < |nodes| && EdgeIssue(nodes, i) == Some(issues[a])
  }

  /** Edge issues come in the order of their children. */
  lemma {:induction false} EdgeIssuesOrdered<T>(nodes: seq<Node<T>>, n: nat) returns (children: seq<nat>)
    requires n <= |nodes|
    ensures |children| == |EdgeIssues(nodes, n)|
    ensures forall a | 0 <= a < |children| :: children[a] < n && SpeaksOf(nodes, EdgeIssues(nodes, n), a, children[a])
    ensures forall a, b | 0 <= a < b < |children| :: children[a] < children[b]
  {
    if n == 0 {
      children := [];
    } else {
      var earlier := EdgeIssuesOrdered(nodes, n - 1);
      forall a | 0 <= a < |earlier| ensures SpeaksOf(nodes, EdgeIssues(nodes, n), a, earlier[a]) {
        assert SpeaksOf(nodes, EdgeIssues(nodes, n - 1), a, earlier[a]);
      }
      children := if EdgeIssue(nodes, n - 1).None? then earlier else earlier + [n - 1];
    }
  }

  lemma {:induction false} FoundAt<T>(nodes: seq<Node<T>>, k: nat, n: nat)
    requires DistinctIds(nodes) && k < n <= |nodes|
    ensures IndexBelow(nodes, nodes[k].messageId, n) == Some(k)
  {
    if k < n - 1 {
      assert nodes[n - 1].messageId != nodes[k].messageId;
      FoundAt(nodes, k, n - 1);
    }
  }

  /** The parent of a node is the node with the identity it names as its cause. */
  lemma ParentIsCause<T>(nodes: seq<Node<T>>, i: nat, k: nat)
    requires DistinctIds(nodes) && i < |nodes| && k < |nodes|
    ensures ParentIndex(nodes, i) == Some(k) <==> nodes[i].causationId == Some(nodes[k].messageId)
  {
    FoundAt(nodes, k, |nodes|);
    if nodes[i].causationId.Some? {
      IndexFinds(nodes, nodes[i].causationId.value, |nodes|);
    }
  }

  lemma MissingExactly<T>(nodes: seq<Node<T>>, id: Text)
    ensures IndexOf(nodes, id).None? <==> !HasId(nodes, id)
  {
    IndexFinds(nodes, id, |nodes|);
  }

  lemma UnresolvedAt<T>(nodes: seq<Node<T>>, i: nat, child: Node<T>)
    requires i < |nodes|
    ensures EdgeIssue(nodes, i) == Some(UnresolvedParent(child)) <==>
      nodes[i] == child && child.causationId.Some? && !HasId(nodes, child.causationId.value)
  {
    if nodes[i].causationId.Some? {
      MissingExactly(nodes, nodes[i].causationId.value);
    }
  }

  /** A parent is reported as unresolved exactly if a node names a cause that no node has. */
  lemma UnresolvedExactly<T>(nodes: seq<Node<T>>, child: Node<T>)
    ensures UnresolvedParent(child) in EdgeIssues(nodes, |nodes|) <==>
      child in nodes && child.causationId.Some? && !HasId(nodes, child.causationId.value)
  {
    EdgeIssueListed(nodes, |nodes|, UnresolvedParent(child));
    if UnresolvedParent(child) in EdgeIssues(nodes, |nodes|) {
      var i :| 0 <= i < |nodes| && EdgeIssue(nodes, i) == Some(UnresolvedParent(child));
      UnresolvedAt(nodes, i, child);
    } else if child in nodes {
      var i :| 0 <= i < |nodes| && nodes[i] == child;
      UnresolvedAt(nodes, i, child);
    }
  }

  /** A crossing edge is reported exactly if a node and the node it names as its cause have different correlations. */
  lemma CrossingExactly<T>(nodes: seq<Node<T>>, child: Node<T>, parent: Node<T>)
    requires DistinctIds(nodes)
    ensures CrossCorrelation(child, parent) in EdgeIssues(nodes, |nodes|) <==>
      && child in nodes && parent in nodes
      && child.causationId == Some(parent.messageId) && child.correlationId != parent.correlationId
  {
    EdgeIssueListed(nodes, |nodes|, CrossCorrelation(child, parent));
    if child in nodes && parent in nodes && child.causationId == Some(parent.messageId) {
      var i :| 0 <= i < |nodes| && nodes[i] == child;
      var k :| 0 <= k < |nodes| && nodes[k] == parent;
      ParentIsCause(nodes, i, k);
    }
    forall i | 0 <= i < |nodes| && EdgeIssue(nodes, i) == Some(CrossCorrelation(child, parent))
      ensures nodes[i] == child && parent in nodes && child.causationId == Some(parent.messageId) && child.correlationId != parent.correlationId
    {
      ParentIsCause(nodes, i, ParentIndex(nodes, i).value);
    }
  }

  function NextOf(c: seq<nat>, k: nat): nat
    requires k < |c|
  {
    if k + 1 < |c| then c[k + 1] else c[0]
  }

  /** The messages at these places, from the earliest on, each name the next as their cause, and the last the first. */
  predicate CausalCycle<T>(nodes: seq<Node<T>>, c: seq<nat>) {
    && |c| > 0 && Distinct(c)
    && (forall k | 0 <= k < |c| :: c[0] <= c[k] < |nodes|)
    && forall k | 0 <= k < |c| :: nodes[c[k]].causationId == Some(nodes[NextOf(c, k)].messageId)
  }

  /** The reported cycles are exactly the causal cycles, with their messages in that order. */
  lemma CyclesExactly<T>(nodes: seq<Node<T>>, c: seq<nat>)
    requires DistinctIds(nodes)
    ensures Canonical(ParentsOf(nodes), c) <==> CausalCycle(nodes, c)
    ensures CausalCycle(nodes, c) ==>
      |Members(nodes, c)| == |c| && forall k | 0 <= k < |c| :: Members(nodes, c)[k] == nodes[c[k]]
  {
    var parents := ParentsOf(nodes);
    if Canonical(parents, c) {
      forall k | 0 <= k < |c| ensures nodes[c[k]].causationId == Some(nodes[NextOf(c, k)].messageId) {
        assert k + 1 < |c| ==> Follows(parents, c[k], c[k + 1]);
        ParentIsCause(nodes, c[k], NextOf(c, k));
      }
    }
    if CausalCycle(nodes, c) {
      forall k | 0 <= k < |c| ensures Follows(parents, c[k], NextOf(c, k)) {
        ParentIsCause(nodes, c[k], NextOf(c, k));
      }
      forall k | 0 < k < |c| ensures Follows(parents, c[k - 1], c[k]) {
        assert NextOf(c, k - 1) == c[k];
      }
      assert NextOf(c, |c| - 1) == c[0];
    }
  }
}
