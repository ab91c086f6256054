/**
 Cycle finding in a causal graph where every node has at most one parent. `FindCycles` returns each
 cycle exactly once, from its smallest index, ordered by that index.
 */
module Cycles {
  import opened Wrappers

  /** Entry `i` is the parent of node `i`; a parent outside the sequence is no node. */
  type Parents = seq<Option<nat>>

  predicate Follows(parents: Parents, a: nat, b: nat) {
    a < |parents| && parents[a] == Some(b)
  }

  /** Nodes of the graph, each the parent of the one before it. */
  predicate IsPath(parents: Parents, path: seq<nat>) {
    && (forall k | 0 <= k < |path| :: path[k] < |parents|)
    && (forall k | 0 < k < |path| :: Follows(parents, path[k - 1], path[k]))
  }

  predicate Distinct(path: seq<nat>) {
    forall i, j | 0 <= i < j < |path| :: path[i] != path[j]
  }

  predicate IsCycle(parents: Parents, c: seq<nat>) {
    |c| > 0 && IsPath(parents, c) && Distinct(c) && Follows(parents, c[|c| - 1], c[0])
  }

  /** A cycle written down from its smallest index. */
  predicate Canonical(parents: Parents, c: seq<nat>) {
    IsCycle(parents, c) && forall k | 0 <= k < |c| :: c[0] <= c[k]
  }

  // ----- Walking -----

  /** Where `n` parent edges lead. */
  function Walk(parents: Parents, x: nat, n: nat): Option<nat> {
    if n == 0 then Some(x)
    else
      var y := Walk(parents, x, n - 1);
      if y.Some? && y.value < |parents| then parents[y.value] else None
  }

  ghost predicate Reaches(parents: Parents, x: nat, y: nat) {
    exists n :: Walk(parents, x, n) == Some(y)
  }

  /** Closed under parents, as far as they are nodes. */
  ghost predicate ClosedSet(parents: Parents, nodes: set<nat>) {
    forall x: nat, y: nat | x in nodes && Follows(parents, x, y) && y < |parents| :: y in nodes
  }

  lemma {:induction false} WalkStays(parents: Parents, nodes: set<nat>, x: nat, n: nat)
    requires ClosedSet(parents, nodes) && x in nodes && Walk(parents, x, n).Some? && Walk(parents, x, n).value < |parents|
    ensures Walk(parents, x, n).value in nodes
  {
    if n > 0 {
      WalkStays(parents, nodes, x, n - 1);
      assert Follows(parents, Walk(parents, x, n - 1).value, Walk(parents, x, n).value);
    }
  }

  lemma {:induction false} WalkAlong(parents: Parents, path: seq<nat>, i: nat, n: nat)
    requires IsPath(parents, path) && i + n < |path|
    ensures Walk(parents, path[i], n) == Some(path[i + n])
  {
    if n > 0 {
      WalkAlong(parents, path, i, n - 1);
      assert Follows(parents, path[i + n - 1], path[i + n]);
    }
  }

  lemma {:induction false} WalkOn(parents: Parents, x: nat, n: nat, y: nat, m: nat)
    requires Walk(parents, x, n) == Some(y)
    ensures Walk(parents, x, n + m) == Walk(parents, y, m)
  {
    if m > 0 {
      WalkOn(parents, x, n, y, m - 1);
    }
  }

  /** Around a cycle every member leads to every member. */
  lemma AroundCycle(parents: Parents, c: seq<nat>, i: nat, j: nat)
    requires IsCycle(parents, c) && i < |c| && j < |c|
    ensures Reaches(parents, c[i], c[j])
  {
    if i <= j {
      WalkAlong(parents, c, i, j - i);
    } else {
      var last := |c| - 1;
      WalkAlong(parents, c, i, last - i);
      assert Walk(parents, c[i], last - i + 1) == Some(c[0]);
      WalkAlong(parents, c, 0, j);
      WalkOn(parents, c[i], last - i + 1, c[0], j);
    }
  }

  lemma CycleClosed(parents: Parents, c: seq<nat>)
    requires IsCycle(parents, c)
    ensures ClosedSet(parents, set x | x in c)
  {
    forall x: nat, y: nat | x in c && Follows(parents, x, y) ensures y in c {
      var k :| 0 <= k < |c| && c[k] == x;
      if k + 1 < |c| {
        assert Follows(parents, c[k], c[k + 1]);
      }
    }
  }

  /** From a member of a cycle one only ever reaches members. */
  lemma ReachedInCycle(parents: Parents, c: seq<nat>, x: nat, y: nat)
    requires IsCycle(parents, c) && x in c && Reaches(parents, x, y) && y < |parents|
    ensures y in c
  {
    CycleClosed(parents, c);
    var n :| Walk(parents, x, n) == Some(y);
    WalkStays(parents, (set z | z in c), x, n);
  }

  /** Cycles that meet have the same members. */
  lemma MeetingCycles(parents: Parents, c: seq<nat>, d: seq<nat>, x: nat)
    requires IsCycle(parents, c) && IsCycle(parents, d) && x in c && x in d
    ensures forall k | 0 <= k < |c| :: c[k] in d
  {
    forall k | 0 <= k < |c| ensures c[k] in d {
      var i :| 0 <= i < |c| && c[i] == x;
      AroundCycle(parents, c, i, k);
      ReachedInCycle(parents, d, x, c[k]);
    }
  }

  /** Canonical cycles that meet are the same sequence. */
  lemma CanonicalUnique(parents: Parents, c: seq<nat>, d: seq<nat>, x: nat)
    requires Canonical(parents, c) && Canonical(parents, d) && x in c && x in d
    ensures c == d
  {
    MeetingCycles(parents, c, d, x);
    MeetingCycles(parents, d, c, x);
    assert c[0] in d && d[0] in c;
    SameStart(parents, c, d);
    SameStart(parents, d, c);
  }

  lemma SameStart(parents: Parents, c: seq<nat>, d: seq<nat>)
    requires IsCycle(parents, c) && IsCycle(parents, d) && c[0] == d[0]
    ensures |c| <= |d| && (|c| == |d| ==> c == d)
  {
    forall k | 0 <= k < |c| && k < |d| ensures c[k] == d[k] {
      WalkAlong(parents, c, 0, k);
      WalkAlong(parents, d, 0, k);
    }
    assert |d| < |c| ==> Follows(parents, c[|d| - 1], c[|d|]);
  }

  // ----- Turning a found cycle -----

  function Rotated(c: seq<nat>, k: nat): (r: seq<nat>)
    requires k <= |c|
    ensures |r| == |c| && forall x :: x in r <==> x in c
  {
    assert c == c[..k] + c[k..];
    c[k..] + c[..k]
  }

  lemma RotatedIsCycle(parents: Parents, c: seq<nat>, k: nat)
    requires IsCycle(parents, c) && k < |c|
    ensures IsCycle(parents, Rotated(c, k))
  {
    var r := Rotated(c, k);
    var shift := |c| - k;
    forall i | 0 < i < |r| ensures Follows(parents, r[i - 1], r[i]) {
      if i < shift {
        assert Follows(parents, c[k + i - 1], c[k + i]);
      } else if i > shift {
        assert Follows(parents, c[i - shift - 1], c[i - shift]);
      }
    }
    if k > 0 {
      assert Follows(parents, c[k - 1], c[k]);
    }
  }

  /** Any cycle can be turned to start at its smallest index. */
  lemma {:induction false} TurnCanonical(parents: Parents, c: seq<nat>, n: nat, k: nat) returns (d: seq<nat>)
    requires IsCycle(parents, c) && n <= |c| && k < |c| && forall i | 0 <= i < n :: c[k] <= c[i]
    ensures Canonical(parents, d) && forall x :: x in d <==> x in c
    decreases |c| - n
  {
    if n == |c| {
      RotatedIsCycle(parents, c, k);
      d := Rotated(c, k);
      forall i | 0 <= i < |d| ensures d[0] <= d[i] {
        assert d[i] in c;
      }
    } else {
      d := TurnCanonical(parents, c, n + 1, if c[n] < c[k] then n else k);
    }
  }

  // ----- Where chains lead -----

  lemma {:induction false} DistinctFits(path: seq<nat>, n: nat)
    requires Distinct(path) && forall k | 0 <= k < |path| :: path[k] < n
    ensures |path| <= n
    decreases n
  {
    assert |path| > 0 ==> path[0] < n;
    if n > 0 {
      var rest := if n - 1 in path then Without(path, n - 1) else path;
      forall k | 0 <= k < |rest| ensures rest[k] < n - 1 {
        assert rest[k] in rest && rest[k] in path;
      }
      DistinctFits(rest, n - 1);
    }
  }

  /** A distinct sequence without one of its members. */
  function Without(path: seq<nat>, x: nat): (rest: seq<nat>)
    requires Distinct(path) && x in path
    ensures |rest| == |path| - 1 && Distinct(rest) && forall y :: y in rest <==> y in path && y != x
  {
    if path[0] == x then path[1..]
    else
      assert x in path[1..];
      var rest := Without(path[1..], x);
      assert forall i | 0 <= i < |rest| :: rest[i] in rest && rest[i] in path[1..];
      [path[0]] + rest
  }

  /** The chain of parents from `x` ends: at a node without parent, or at a parent that is no node. */
  ghost predicate ChainEnds(parents: Parents, x: nat) {
    exists n :: Walk(parents, x, n).None?
  }

  /** Following parents long enough ends, or closes a cycle. */
  lemma {:induction false} EndsOrCloses(parents: Parents, path: seq<nat>) returns (closed: seq<nat>, p: nat)
    requires |path| > 0 && IsPath(parents, path) && Distinct(path) && !ChainEnds(parents, path[0])
    ensures IsCycle(parents, closed) && Walk(parents, path[0], p) == Some(closed[0])
    decreases |parents| - |path|
  {
    DistinctFits(path, |parents|);
    var last := |path| - 1;
    WalkAlong(parents, path, 0, last);
    assert Walk(parents, path[0], last + 1).Some?;
    assert Walk(parents, path[0], last + 2).Some?;
    var next := parents[path[last]].value;
    if next in path {
      p :| 0 <= p < |path| && path[p] == next;
      closed := path[p..];
      SuffixIsCycle(parents, path, p);
      WalkAlong(parents, path, 0, p);
    } else {
      PathGrows(parents, path, next);
      closed, p := EndsOrCloses(parents, path + [next]);
    }
  }

  lemma SuffixIsCycle(parents: Parents, path: seq<nat>, p: nat)
    requires p < |path| && IsPath(parents, path) && Distinct(path) && Follows(parents, path[|path| - 1], path[p])
    ensures IsCycle(parents, path[p..])
  {
    var c := path[p..];
    forall k | 0 < k < |c| ensures Follows(parents, c[k - 1], c[k]) {
      assert Follows(parents, path[p + k - 1], path[p + k]);
    }
  }

  lemma PathGrows(parents: Parents, path: seq<nat>, x: nat)
    requires |path| > 0 && IsPath(parents, path) && Distinct(path) && x !in path && x < |parents|
    requires Follows(parents, path[|path| - 1], x)
    ensures IsPath(parents, path + [x]) && Distinct(path + [x])
  {
    var longer := path + [x];
    forall k | 0 < k < |longer| ensures Follows(parents, longer[k - 1], longer[k]) {
      assert k < |path| ==> Follows(parents, path[k - 1], path[k]);
    }
  }

  /** Without cycles every chain ends, and with one some chain does not. */
  lemma AcyclicIffChainsEnd(parents: Parents)
    ensures (forall x: nat | x < |parents| :: ChainEnds(parents, x)) <==> !exists c :: Canonical(parents, c)
  {
    forall x: nat | x < |parents| && !ChainEnds(parents, x) ensures exists c :: Canonical(parents, c) {
      var closed, p := EndsOrCloses(parents, [x]);
      var d := TurnCanonical(parents, closed, 0, 0);
    }
    if c :| Canonical(parents, c) {
      forall n ensures Walk(parents, c[0], n).Some? {
        NeverEnds(parents, c, n);
      }
      assert !ChainEnds(parents, c[0]);
    }
  }

  lemma {:induction false} NeverEnds(parents: Parents, c: seq<nat>, n: nat)
    requires IsCycle(parents, c)
    ensures Walk(parents, c[0], n).Some? && Walk(parents, c[0], n).value in c
  {
    if n > 0 {
      NeverEnds(parents, c, n - 1);
      var k :| 0 <= k < |c| && c[k] == Walk(parents, c[0], n - 1).value;
      assert k + 1 < |c| ==> Follows(parents, c[k], c[k + 1]);
    }
  }

  /** The chain of parents from `x` comes back to `x`. */
  ghost predicate Returns(parents: Parents, x: nat) {
    exists n :: n > 0 && Walk(parents, x, n) == Some(x)
  }

  lemma {:induction false} ReturnsForever(parents: Parents, x: nat, n: nat, k: nat)
    requires n > 0 && Walk(parents, x, n) == Some(x)
    ensures exists m :: m >= k && Walk(parents, x, m) == Some(x)
  {
    if k == 0 {
      assert Walk(parents, x, 0) == Some(x);
    } else {
      ReturnsForever(parents, x, n, k - 1);
      var m :| m >= k - 1 && Walk(parents, x, m) == Some(x);
      WalkOn(parents, x, m, x, n);
    }
  }

  lemma {:induction false} WalkShorter(parents: Parents, x: nat, n: nat, m: nat)
    requires n <= m && Walk(parents, x, m).Some?
    ensures Walk(parents, x, n).Some?
  {
    if n < m {
      WalkShorter(parents, x, n, m - 1);
    }
  }

  lemma ReturningNeverEnds(parents: Parents, x: nat)
    requires Returns(parents, x)
    ensures !ChainEnds(parents, x)
  {
    var n :| n > 0 && Walk(parents, x, n) == Some(x);
    forall k ensures Walk(parents, x, k).Some? {
      ReturnsForever(parents, x, n, k);
      var m :| m >= k && Walk(parents, x, m) == Some(x);
      WalkShorter(parents, x, k, m);
    }
  }

  /** The canonical cycles cover exactly the nodes whose chain of parents comes back: no tail is in one. */
  lemma OnCycleIffReturns(parents: Parents, x: nat)
    requires x < |parents|
    ensures Returns(parents, x) <==> exists c :: Canonical(parents, c) && x in c
  {
    if Returns(parents, x) {
      ReturningNeverEnds(parents, x);
      var closed, p := EndsOrCloses(parents, [x]);
      var n :| n > 0 && Walk(parents, x, n) == Some(x);
      ReturnsForever(parents, x, n, p);
      var m :| m >= p && Walk(parents, x, m) == Some(x);
      WalkOn(parents, x, p, closed[0], m - p);
      ReachedInCycle(parents, closed, closed[0], x);
      var d := TurnCanonical(parents, closed, 0, 0);
      assert Canonical(parents, d) && x in d;
    }
    if c :| Canonical(parents, c) && x in c {
      var k :| 0 <= k < |c| && c[k] == x;
      var next := if k + 1 < |c| then c[k + 1] else c[0];
      assert Follows(parents, x, next);
      assert Walk(parents, x, 0) == Some(x) && Walk(parents, x, 1) == Some(next);
      AroundCycle(parents, c, if k + 1 < |c| then k + 1 else 0, k);
      var n :| Walk(parents, next, n) == Some(x);
      WalkOn(parents, x, 1, next, n);
    }
  }

  /** The position of `x`. */
  method Position(path: seq<nat>, x: nat) returns (k: Option<nat>)
    ensures k.Some? ==> k.value < |path| && path[k.value] == x
    ensures k.None? ==> x !in path
  {
    for i := 0 to |path|
      invariant x !in path[..i]
    {
      if path[i] == x {
        return Some(i);
      }
    }
    assert path[..|path|] == path;
    return None;
  }

  /** The position of the smallest member. */
  method Earliest(c: seq<nat>) returns (k: nat)
    requires |c| > 0
    ensures k < |c| && forall i | 0 <= i < |c| :: c[k] <= c[i]
  {
    k := 0;
    for i := 1 to |c|
      invariant k < |c| && forall j | 0 <= j < i :: c[k] <= c[j]
    {
      if c[i] < c[k] {
        k := i;
      }
    }
  }

  // ----- Sorting by first member -----

  predicate Nonempty(cycles: seq<seq<nat>>) {
    forall i | 0 <= i < |cycles| :: |cycles[i]| > 0
  }

  predicate Ordered(cycles: seq<seq<nat>>)
    requires Nonempty(cycles)
  {
    forall i, j | 0 <= i < j < |cycles| :: cycles[i][0] < cycles[j][0]
  }

  predicate DistinctFirsts(cycles: seq<seq<nat>>)
    requires Nonempty(cycles)
  {
    forall i, j | 0 <= i < j < |cycles| :: cycles[i][0] != cycles[j][0]
  }

  function InsertByFirst(c: seq<nat>, sorted: seq<seq<nat>>): (r: seq<seq<nat>>)
    requires |c| > 0 && Nonempty(sorted) && Ordered(sorted)
    requires forall i | 0 <= i < |sorted| :: sorted[i][0] != c[0]
    ensures |r| == |sorted| + 1 && Nonempty(r) && Ordered(r)
    ensures forall x :: x in r <==> x == c || x in sorted
  {
    if |sorted| == 0 || c[0] < sorted[0][0] then [c] + sorted
    else
      var rest := InsertByFirst(c, sorted[1..]);
      assert forall i | 0 <= i < |rest| :: rest[i] in rest && (rest[i] == c || rest[i] in sorted[1..]);
      [sorted[0]] + rest
  }

  function SortByFirst(cycles: seq<seq<nat>>): (r: seq<seq<nat>>)
    requires Nonempty(cycles) && DistinctFirsts(cycles)
    ensures |r| == |cycles| && Nonempty(r) && Ordered(r)
    ensures forall x :: x in r <==> x in cycles
  {
    if |cycles| == 0 then []
    else
      var rest := SortByFirst(cycles[1..]);
      assert forall i | 0 <= i < |rest| :: rest[i] in rest && rest[i] in cycles[1..];
      InsertByFirst(cycles[0], rest)
  }

  // ----- The search -----

  const UNVISITED: nat := 0
  const VISITING: nat := 1
  const VISITED: nat := 2

  /** Finished nodes are closed under parents. */
  predicate Settled(parents: Parents, states: seq<nat>)
    requires |states| == |parents|
  {
    forall x, y | 0 <= x < |states| && 0 <= y < |states| && states[x] == VISITED && Follows(parents, x, y) :: states[y] == VISITED
  }

  /** Exactly the canonical cycles among the finished nodes have been collected, each once. */
  ghost predicate Collected(parents: Parents, states: seq<nat>, cycles: seq<seq<nat>>)
    requires |states| == |parents|
  {
    && (forall i | 0 <= i < |cycles| :: Canonical(parents, cycles[i]) && states[cycles[i][0]] == VISITED)
    && (forall i, j | 0 <= i < j < |cycles| :: cycles[i][0] != cycles[j][0])
    && (forall c | Canonical(parents, c) && states[c[0]] == VISITED :: c in cycles)
  }

  /** The path being followed: its nodes are the ones in progress, and `current` comes next. */
  predicate Following(parents: Parents, states: seq<nat>, path: seq<nat>, current: Option<nat>)
    requires |states| == |parents|
  {
    && IsPath(parents, path) && Distinct(path)
    && (forall x | 0 <= x < |states| :: states[x] <= VISITED && (states[x] == VISITING <==> x in path))
    && (|path| > 0 ==> current == parents[path[|path| - 1]])
  }

  /** Nothing more to follow: no parent, no such node, or a node met before. */
  predicate Stopped(states: seq<nat>, current: Option<nat>) {
    current.None? || current.value >= |states| || states[current.value] != UNVISITED
  }

  /** If the path closed on itself, the part from there on is a cycle. */
  lemma ClosedPathIsCycle(parents: Parents, states: seq<nat>, path: seq<nat>, p: nat)
    requires |states| == |parents| && p < |path| && Following(parents, states, path, Some(path[p]))
    ensures IsCycle(parents, path[p..])
  {
    SuffixIsCycle(parents, path, p);
  }

  /** A cycle through the path lies on the part where the path closed on itself. */
  lemma CycleMeetsEnd(parents: Parents, states: seq<nat>, path: seq<nat>, current: Option<nat>, c: seq<nat>)
    requires |states| == |parents| && Settled(parents, states) && Following(parents, states, path, current) && Stopped(states, current)
    requires IsCycle(parents, c) && c[0] in path
    ensures current.Some? && current.value in c && current.value in path
  {
    var a :| 0 <= a < |path| && path[a] == c[0];
    var last := |path| - 1;
    WalkAlong(parents, path, a, last - a);
    ReachedInCycle(parents, c, c[0], path[last]);
    var k :| 0 <= k < |c| && c[k] == path[last];
    var next := if k + 1 < |c| then c[k + 1] else c[0];
    assert Follows(parents, c[k], next);
    assert current == Some(next);
    if states[next] == VISITED {
      var j :| 0 <= j < |c| && c[j] == next;
      AroundCycle(parents, c, j, 0);
      var n :| Walk(parents, next, n) == Some(c[0]);
      WalkStays(parents, (set x | 0 <= x < |states| && states[x] == VISITED), next, n);
    }
  }

  /** The states once the path is finished. */
  predicate Finishes(before: seq<nat>, path: seq<nat>, after: seq<nat>) {
    && |after| == |before|
    && forall x | 0 <= x < |before| :: after[x] == if x in path then VISITED else before[x]
  }

  lemma FinishedSettled(parents: Parents, before: seq<nat>, path: seq<nat>, current: Option<nat>, after: seq<nat>)
    requires |before| == |parents| && Settled(parents, before) && Following(parents, before, path, current) && Stopped(before, current)
    requires Finishes(before, path, after)
    ensures Settled(parents, after)
  {
    forall x, y | 0 <= x < |after| && 0 <= y < |after| && after[x] == VISITED && Follows(parents, x, y) ensures after[y] == VISITED {
      if x in path {
        var k :| 0 <= k < |path| && path[k] == x;
        if k + 1 < |path| {
          assert Follows(parents, path[k], path[k + 1]);
        }
      }
    }
  }

  /** What the path adds to the collection. */
  function Found(path: seq<nat>, p: Option<nat>, k: nat): seq<seq<nat>>
    requires p.Some? ==> p.value < |path| && k < |path| - p.value
  {
    if p.None? then [] else [Rotated(path[p.value..], k)]
  }

  /** The path closed on itself at position `p`, or not at all; `k` is the smallest member from there on. */
  predicate Closing(path: seq<nat>, current: Option<nat>, p: Option<nat>, k: nat) {
    if p.Some? then
      && p.value < |path| && current == Some(path[p.value])
      && k < |path| - p.value && forall i | p.value <= i < |path| :: path[p.value + k] <= path[i]
    else current.None? || current.value !in path
  }

  /** A canonical cycle through the path is the one the path closed. */
  lemma CycleIsFound(parents: Parents, states: seq<nat>, path: seq<nat>, current: Option<nat>, p: Option<nat>, k: nat, c: seq<nat>)
    requires |states| == |parents| && Settled(parents, states) && Following(parents, states, path, current) && Stopped(states, current)
    requires Closing(path, current, p, k) && Canonical(parents, c) && c[0] in path
    ensures c in Found(path, p, k)
  {
    CycleMeetsEnd(parents, states, path, current, c);
    FoundCanonical(parents, states, path, p.value, k);
    var d := Rotated(path[p.value..], k);
    assert path[p.value] == path[p.value..][0] && path[p.value] in d;
    CanonicalUnique(parents, c, d, path[p.value]);
  }

  lemma FinishedCollects(parents: Parents, before: seq<nat>, path: seq<nat>, current: Option<nat>, after: seq<nat>, cycles: seq<seq<nat>>, p: Option<nat>, k: nat)
    requires |before| == |parents| && Settled(parents, before) && Following(parents, before, path, current) && Stopped(before, current)
    requires Finishes(before, path, after) && Collected(parents, before, cycles) && Closing(path, current, p, k)
    ensures Collected(parents, after, cycles + Found(path, p, k))
  {
    if p.Some? {
      FoundCanonical(parents, before, path, p.value, k);
    }
    forall c | Canonical(parents, c) && after[c[0]] == VISITED ensures c in cycles + Found(path, p, k) {
      if c[0] in path {
        CycleIsFound(parents, before, path, current, p, k, c);
      }
    }
  }

  lemma FoundCanonical(parents: Parents, states: seq<nat>, path: seq<nat>, p: nat, k: nat)
    requires |states| == |parents| && p < |path| && Following(parents, states, path, Some(path[p]))
    requires k < |path| - p && forall i | p <= i < |path| :: path[p + k] <= path[i]
    ensures var d := Rotated(path[p..], k); Canonical(parents, d) && d[0] in path
  {
    ClosedPathIsCycle(parents, states, path, p);
    RotatedIsCycle(parents, path[p..], k);
    var d := Rotated(path[p..], k);
    forall i | 0 <= i < |d| ensures d[0] <= d[i] {
      assert d[i] in path[p..];
    }
  }

  ghost function Unvisited(states: seq<nat>): set<nat> {
    set x: nat | x < |states| && states[x] == UNVISITED
  }

  predicate SameVisited(a: seq<nat>, b: seq<nat>) {
    |a| == |b| && forall x | 0 <= x < |a| :: a[x] == VISITED <==> b[x] == VISITED
  }

  /** One step along the path. */
  lemma PathExtends(parents: Parents, states: seq<nat>, path: seq<nat>, x: nat)
    requires |states| == |parents| && Following(parents, states, path, Some(x)) && x < |parents| && states[x] == UNVISITED
    requires Settled(parents, states)
    ensures Following(parents, states[x := VISITING], path + [x], parents[x]) && Settled(parents, states[x := VISITING])
    ensures Unvisited(states[x := VISITING]) == Unvisited(states) - {x} && SameVisited(states, states[x := VISITING])
  {
    assert x !in path;
    var next := path + [x];
    forall k | 0 < k < |next| ensures Follows(parents, next[k - 1], next[k]) {
      if k < |path| {
        assert Follows(parents, path[k - 1], path[k]);
      }
    }
  }

  /** `find_cycles`: exactly the canonical cycles of the graph, strictly ordered by their first member. */
  method FindCycles(parents: Parents) returns (cycles: seq<seq<nat>>)
    ensures forall c :: c in cycles <==> Canonical(parents, c)
    ensures Nonempty(cycles) && Ordered(cycles)
  {
    var states := new nat[|parents|](_ => UNVISITED);
    var found: seq<seq<nat>> := [];
    for start := 0 to |parents|
      invariant states.Length == |parents| && fresh(states)
      invariant forall x | 0 <= x < |parents| :: states[x] == UNVISITED || states[x] == VISITED
      invariant forall x | 0 <= x < start :: states[x] == VISITED
      invariant Settled(parents, states[..]) && Collected(parents, states[..], found)
    {
      if states[start] == UNVISITED {
        found := Explore(parents, states, start, found);
      }
    }
    assert forall i | 0 <= i < |found| :: found[i] in found;
    cycles := SortByFirst(found);
  }

  /** One path from an unvisited node, and the cycle it closes, if any. */
  method Explore(parents: Parents, states: array<nat>, start: nat, found: seq<seq<nat>>) returns (cycles: seq<seq<nat>>)
    requires states.Length == |parents| && start < |parents| && states[start] == UNVISITED
    requires forall x | 0 <= x < |parents| :: states[x] == UNVISITED || states[x] == VISITED
    requires Settled(parents, states[..]) && Collected(parents, states[..], found)
    modifies states
    ensures forall x | 0 <= x < |parents| :: states[x] == UNVISITED || states[x] == VISITED
    ensures forall x | 0 <= x < |parents| && (old(states[x]) == VISITED || x == start) :: states[x] == VISITED
    ensures Settled(parents, states[..]) && Collected(parents, states[..], cycles)
  {
    cycles := found;
    var path, current := FollowPath(parents, states, start);
    ghost var before := states[..];
    FollowingCollected(parents, old(states[..]), before, found);
    var p: Option<nat> := None;
    var k: nat := 0;
    if current.Some? && current.value < states.Length && states[current.value] == VISITING {
      p := Position(path, current.value);
      k := Earliest(path[p.value..]);
      cycles := cycles + [Rotated(path[p.value..], k)];
    }
    Finish(states, path);
    FinishedSettled(parents, before, path, current, states[..]);
    FinishedCollects(parents, before, path, current, states[..], found, p, k);
  }

  /** The collection depends on the visited nodes only. */
  lemma FollowingCollected(parents: Parents, before: seq<nat>, after: seq<nat>, found: seq<seq<nat>>)
    requires |before| == |parents| && Collected(parents, before, found) && SameVisited(before, after)
    ensures Collected(parents, after, found)
  {
  }

  /** Follows parents from an unvisited node until there is nothing more to follow. */
  method FollowPath(parents: Parents, states: array<nat>, start: nat) returns (path: seq<nat>, current: Option<nat>)
    requires states.Length == |parents| && start < |parents| && states[start] == UNVISITED
    requires forall x | 0 <= x < |parents| :: states[x] == UNVISITED || states[x] == VISITED
    requires Settled(parents, states[..])
    modifies states
    ensures SameVisited(old(states[..]), states[..])
    ensures Following(parents, states[..], path, current) && Settled(parents, states[..])
    ensures Stopped(states[..], current) && start in path
  {
    path, current := [], Some(start);
    ghost var start0 := states[..];
    while current.Some? && current.value < states.Length && states[current.value] == UNVISITED
      invariant SameVisited(start0, states[..])
      invariant Following(parents, states[..], path, current) && Settled(parents, states[..])
      invariant if |path| == 0 then current == Some(start) && states[start] == UNVISITED else start in path
      decreases |Unvisited(states[..])|
    {
      var index := current.value;
      ghost var before := states[..];
      PathExtends(parents, before, path, index);
      states[index] := VISITING;
      assert states[..] == before[index := VISITING];
      path := path + [index];
      current := parents[index];
    }
  }

  /** Marks every node of the path as visited. */
  method Finish(states: array<nat>, path: seq<nat>)
    requires forall i | 0 <= i < |path| :: path[i] < states.Length
    modifies states
    ensures Finishes(old(states[..]), path, states[..])
  {
    for i := 0 to |path|
      invariant Finishes(old(states[..]), path[..i], states[..])
    {
      states[path[i]] := VISITED;
    }
    assert path[..|path|] == path;
  }
}
