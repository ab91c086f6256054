/**
 Applying a fixture's plan to the store, concurrently and resumably. Any number of appliers of one
 plan take turns; a crashed applier is one that gets no more turns, a restarted one is another
 applier that starts late. Every step is one store call.
 */
module FixtureRuns {
  import opened Wrappers
  import opened Identity
  import opened Records
  import opened Receipts
  import opened Store
  import opened StoreInvariant
  import opened StoreSteps
  import StoreAnswers
  import opened FixturePlan
  import Fixtures
  import History

  datatype ApplyError = StoreError(kind: ErrorKind) | ConflictingHistory | UnexpectedAppendResult

  type Prefixes = map<StreamId, nat>

  datatype Phase =
    | Preflight(checked: nat, prefixes: Prefixes)
    | Applying(next: nat, prefixes: Prefixes, applied: nat, reused: nat)
    | Done(applied: nat, reused: nat)
    | Failed(error: ApplyError)

  /** One `apply` call: its store handle's limits and the order in which it checks the streams. */
  datatype Applier = Applier(limits: Limits, order: seq<StreamId>, phase: Phase)

  function Min(a: nat, b: nat): nat {
    if a < b then a else b
  }

  predicate Mismatch(h: seq<RecordedEvent>, events: seq<RecordedEvent>) {
    exists i :: 0 <= i < |h| && i < |events| && h[i] != events[i]
  }

  function PrefixOf(prefixes: Prefixes, s: StreamId): nat {
    if s in prefixes then prefixes[s] else 0
  }

  function Sum(order: seq<StreamId>, f: StreamId -> nat): nat {
    if |order| == 0 then 0 else f(order[0]) + Sum(order[1..], f)
  }

  function Expectation(x: Planned): ExpectedVersion {
    if x.recorded.streamVersion <= 1 then NoStream else Exact(x.recorded.streamVersion - 1)
  }

  /** Compares one stream with the plan. */
  function Check(plan: seq<Planned>, a: Applier, S: State): Phase
    requires a.phase.Preflight? && a.phase.checked < |a.order|
  {
    var s := a.order[a.phase.checked];
    var h, events := HistoryOf(S, s), WholeStream(plan, s);
    if Mismatch(h, events) then Failed(ConflictingHistory)
    else Preflight(a.phase.checked + 1, a.phase.prefixes[s := Min(|h|, |events|)])
  }

  /** What the answer to an append means for the report. */
  function Counted(x: Planned, phase: Phase, r: Result<AppendOutcome, ErrorKind>): Phase
    requires phase.Applying?
  {
    match r
    case Err(kind) => Failed(StoreError(kind))
    case Ok(outcome) =>
      if outcome.events != [x.recorded] then Failed(UnexpectedAppendResult)
      else if outcome.replay then phase.(next := phase.next + 1, reused := phase.reused + 1)
      else phase.(next := phase.next + 1, applied := phase.applied + 1)
  }

  /** Skips the next planned event if its stream had it at preflight, and appends it otherwise. */
  function ApplyNext(p: Primitives, plan: seq<Planned>, a: Applier, S: State): (Phase, State)
    requires a.phase.Applying? && a.phase.next < |plan|
  {
    var x := plan[a.phase.next];
    if x.streamOrdinal < PrefixOf(a.phase.prefixes, x.recorded.streamId) then (a.phase.(next := a.phase.next + 1), S)
    else
      var (T, r) := Append(p, a.limits, S, x.recorded.streamId, Expectation(x), x.batch);
      (Counted(x, a.phase, r), T)
  }

  function Step(p: Primitives, plan: seq<Planned>, a: Applier, S: State): (Applier, State) {
    match a.phase
    case Preflight(checked, prefixes) =>
      if checked < |a.order| then (a.(phase := Check(plan, a, S)), S)
      else (a.(phase := Applying(0, prefixes, 0, Sum(a.order, s => PrefixOf(prefixes, s)))), S)
    case Applying(next, _, applied, reused) =>
      if next < |plan| then var (phase, T) := ApplyNext(p, plan, a, S); (a.(phase := phase), T)
      else (a.(phase := Done(applied, reused)), S)
    case Done(_, _) => (a, S)
    case Failed(_) => (a, S)
  }

  datatype System = System(store: State, appliers: seq<Applier>)

  function Turn(p: Primitives, plan: seq<Planned>, sys: System, i: nat): System {
    if i < |sys.appliers| then
      var (a, T) := Step(p, plan, sys.appliers[i], sys.store);
      System(T, sys.appliers[i := a])
    else sys
  }

  function Run(p: Primitives, plan: seq<Planned>, sys: System, turns: seq<nat>): System
    decreases |turns|
  {
    if |turns| == 0 then sys else Turn(p, plan, Run(p, plan, sys, turns[..|turns| - 1]), turns[|turns| - 1])
  }

  // ----- Histories that are not the plan's -----

  /** Neither is a beginning of the other. */
  predicate Diverges(h: seq<RecordedEvent>, events: seq<RecordedEvent>) {
    !(h <= events) && !(events <= h)
  }

  lemma MismatchIsDivergence(h: seq<RecordedEvent>, events: seq<RecordedEvent>)
    ensures Mismatch(h, events) <==> Diverges(h, events)
  {
    if !Mismatch(h, events) {
      if |h| <= |events| {
        assert h == events[..|h|];
      } else {
        assert events == h[..|events|];
      }
    }
  }

  // ----- What holds at every moment -----

  predicate Targeted(plan: seq<Planned>, s: StreamId) {
    exists i :: 0 <= i < |plan| && plan[i].recorded.streamId == s
  }

  /** The order names each target stream once. */
  ghost predicate IsOrder(plan: seq<Planned>, order: seq<StreamId>) {
    && (forall i, j | 0 <= i < j < |order| :: order[i] != order[j])
    && (forall s :: s in order <==> Targeted(plan, s))
  }

  /** Of each target stream and its plan, one is a beginning of the other. */
  ghost predicate Compatible(plan: seq<Planned>, S: State) {
    forall s | Targeted(plan, s) :: !Diverges(HistoryOf(S, s), WholeStream(plan, s))
  }

  /** What a target stream becomes: the plan, unless it already went beyond it. */
  function Goal(plan: seq<Planned>, S0: State, s: StreamId): seq<RecordedEvent> {
    if |HistoryOf(S0, s)| > |WholeStream(plan, s)| then HistoryOf(S0, s) else WholeStream(plan, s)
  }

  /** Every target stream is a beginning of its goal. */
  ghost predicate OnPlan(plan: seq<Planned>, S0: State, S: State) {
    forall s | Targeted(plan, s) :: HistoryOf(S, s) <= Goal(plan, S0, s) && WholeStream(plan, s) <= Goal(plan, S0, s)
  }

  /** Entry `i` is in the store. */
  predicate Present(plan: seq<Planned>, S: State, i: nat)
    requires i < |plan|
  {
    plan[i].streamOrdinal < |HistoryOf(S, plan[i].recorded.streamId)|
  }

  /** Entry `i` was appended directly, with exactly its planned batch. */
  predicate Ours(plan: seq<Planned>, S: State, i: nat)
    requires i < |plan|
  {
    var x := plan[i];
    var key := (x.recorded.streamId, x.batch.operationId);
    key in S.operations && S.operations[key] == StoredAppend(x.batch, [x.recorded], Direct)
  }

  /** Whatever was added since the beginning was added by appliers. */
  ghost predicate AllOurs(plan: seq<Planned>, S0: State, S: State) {
    forall i | 0 <= i < |plan| && Present(plan, S, i) && !Present(plan, S0, i) :: Ours(plan, S, i)
  }

  ghost predicate StoreSound(p: Primitives, authority: Text, plan: seq<Planned>, S0: State, S: State) {
    && Inv(p, authority, S)
    && Evolves(S0, S)
    && OnPlan(plan, S0, S)
    && AllOurs(plan, S0, S)
  }

  /** The prefix counted for `s` lies between what was there at the beginning and what is there now. */
  predicate Between(plan: seq<Planned>, S0: State, S: State, prefixes: Prefixes, s: StreamId) {
    && s in prefixes
    && Min(|HistoryOf(S0, s)|, |WholeStream(plan, s)|) <= prefixes[s] <= Min(|HistoryOf(S, s)|, |WholeStream(plan, s)|)
  }

  ghost predicate PrefixesSound(plan: seq<Planned>, S0: State, S: State, order: seq<StreamId>, checked: nat, prefixes: Prefixes)
    requires checked <= |order|
  {
    forall k | 0 <= k < checked :: Between(plan, S0, S, prefixes, order[k])
  }

  /** How many of the first `n` entries were not skipped. */
  function Handled(plan: seq<Planned>, prefixes: Prefixes, n: nat): nat
    requires n <= |plan|
  {
    if n == 0 then 0
    else
      var skipped := plan[n - 1].streamOrdinal < PrefixOf(prefixes, plan[n - 1].recorded.streamId);
      Handled(plan, prefixes, n - 1) + (if skipped then 0 else 1)
  }

  /** Every target stream has reached its goal. */
  ghost predicate Complete(plan: seq<Planned>, S0: State, S: State) {
    forall s | Targeted(plan, s) :: HistoryOf(S, s) == Goal(plan, S0, s) && WholeStream(plan, s) <= HistoryOf(S, s)
  }

  ghost predicate PhaseSound(plan: seq<Planned>, S0: State, S: State, order: seq<StreamId>, phase: Phase) {
    match phase
    case Preflight(checked, prefixes) => checked <= |order| && PrefixesSound(plan, S0, S, order, checked, prefixes)
    case Applying(next, prefixes, applied, reused) =>
      && next <= |plan| && PrefixesSound(plan, S0, S, order, |order|, prefixes)
      && (forall i | 0 <= i < next :: Present(plan, S, i))
      && applied + reused == Sum(order, s => PrefixOf(prefixes, s)) + Handled(plan, prefixes, next)
    case Done(applied, reused) => applied + reused == |plan| && Complete(plan, S0, S)
    case Failed(error) => error == StoreError(CapacityExhausted)
  }

  ghost predicate ApplierSound(plan: seq<Planned>, S0: State, S: State, a: Applier) {
    IsOrder(plan, a.order) && PhaseSound(plan, S0, S, a.order, a.phase)
  }

  // ----- Other appliers' steps are harmless -----

  lemma PhaseKept(plan: seq<Planned>, S0: State, S: State, T: State, order: seq<StreamId>, phase: Phase)
    requires PhaseSound(plan, S0, S, order, phase) && Evolves(S, T) && OnPlan(plan, S0, T)
    ensures PhaseSound(plan, S0, T, order, phase)
  {
    assert forall s :: HistoryOf(S, s) <= HistoryOf(T, s);
    if phase.Done? {
      forall s | Targeted(plan, s) ensures HistoryOf(T, s) == Goal(plan, S0, s) {
        assert HistoryOf(S, s) <= HistoryOf(T, s) <= Goal(plan, S0, s);
      }
    } else if phase.Applying? {
      forall i | 0 <= i < phase.next ensures Present(plan, T, i) {
        assert Present(plan, S, i) && HistoryOf(S, plan[i].recorded.streamId) <= HistoryOf(T, plan[i].recorded.streamId);
      }
    }
  }

  // ----- Preflight never finds a conflict -----

  lemma CheckSound(plan: seq<Planned>, S0: State, S: State, a: Applier)
    requires ApplierSound(plan, S0, S, a) && a.phase.Preflight? && a.phase.checked < |a.order|
    requires OnPlan(plan, S0, S) && Evolves(S0, S)
    ensures PhaseSound(plan, S0, S, a.order, Check(plan, a, S))
  {
    var k, prefixes := a.phase.checked, a.phase.prefixes;
    var s := a.order[k];
    assert s in a.order && Targeted(plan, s);
    assert HistoryOf(S0, s) <= HistoryOf(S, s) <= Goal(plan, S0, s) && WholeStream(plan, s) <= Goal(plan, S0, s);
    var next := prefixes[s := Min(|HistoryOf(S, s)|, |WholeStream(plan, s)|)];
    forall j | 0 <= j < k + 1 ensures Between(plan, S0, S, next, a.order[j]) {
      if j < k {
        assert Between(plan, S0, S, prefixes, a.order[j]) && a.order[j] != s;
      }
    }
  }

  // ----- An append replays or records; it never conflicts -----

  lemma Ordinals(ids: Ids, plan: seq<Planned>, i: nat, j: nat)
    requires GoodPlan(ids, plan) && i < |plan| && j < |plan| && SameStream(plan, i, j)
    ensures i < j ==> plan[i].streamOrdinal < plan[j].streamOrdinal
    ensures plan[i].streamOrdinal == plan[j].streamOrdinal ==> i == j
  {
    assert Sound(ids, plan, i) && Sound(ids, plan, j);
    if i < j {
      CountGrows(plan, plan[i].recorded.streamId, i, j);
    } else if j < i {
      CountGrows(plan, plan[i].recorded.streamId, j, i);
    }
  }

  lemma {:induction false} CountGrows(plan: seq<Planned>, s: StreamId, i: nat, j: nat)
    requires i < j <= |plan| && plan[i].recorded.streamId == s
    ensures CountOn(plan, s, i) < CountOn(plan, s, j)
  {
    if i < j - 1 {
      CountGrows(plan, s, i, j - 1);
    }
  }

  /** Everything planned before entry `i` on its stream is there, so the stream has reached its place. */
  lemma ReachedPlace(ids: Ids, plan: seq<Planned>, S: State, i: nat)
    requires GoodPlan(ids, plan) && i < |plan| && forall j | 0 <= j < i :: Present(plan, S, j)
    ensures plan[i].streamOrdinal <= |HistoryOf(S, plan[i].recorded.streamId)|
  {
    assert Sound(ids, plan, i);
    var o := plan[i].streamOrdinal;
    if o > 0 {
      var j := PlaceIsPlanned(ids, plan, plan[i].recorded.streamId, i, o - 1);
      assert Present(plan, S, j);
    }
  }

  /** Already there: the store answers with the planned event as a replay. */
  lemma ReplaysPresent(p: Primitives, limits: Limits, plan: seq<Planned>, S: State, i: nat)
    requires i < |plan| && Ours(plan, S, i)
    ensures var x := plan[i];
      Append(p, limits, S, x.recorded.streamId, Expectation(x), x.batch) == (S, Ok(AppendOutcome([x.recorded], true)))
  {
  }

  /** The stream is exactly the plan up to entry `i`. */
  lemma AtPlace(p: Primitives, plan: seq<Planned>, S: State, i: nat)
    requires GoodPlan(p.ids, plan) && i < |plan|
    requires var s := plan[i].recorded.streamId; HistoryOf(S, s) <= WholeStream(plan, s) && |HistoryOf(S, s)| == plan[i].streamOrdinal
    ensures var s := plan[i].recorded.streamId;
      HistoryOf(S, s) == StreamPlan(plan, s, i) && History.NewTo(p.ids, s, HistoryOf(S, s), plan[i].batch)
  {
    var s := plan[i].recorded.streamId;
    assert Sound(p.ids, plan, i);
    StreamPlanGrows(plan, s, i, |plan|);
    NextIsNew(p.ids, plan, i);
  }


  /** Not there yet: the store records it, unless this handle's capacity is exhausted. */
  lemma RecordsNext(p: Primitives, limits: Limits, plan: seq<Planned>, S: State, i: nat)
    requires GoodPlan(p.ids, plan) && i < |plan| && StreamIndexed(p, S, plan[i].recorded.streamId)
    requires var s := plan[i].recorded.streamId; HistoryOf(S, s) <= WholeStream(plan, s) && |HistoryOf(S, s)| == plan[i].streamOrdinal
    ensures var x := plan[i]; var s := x.recorded.streamId;
      Append(p, limits, S, s, Expectation(x), x.batch) ==
        if S.eventCount + 1 > limits.maximumEvents then (S, Err(CapacityExhausted))
        else (RecordInto(S, s, x.batch, [x.recorded], Direct).(eventCount := S.eventCount + 1), Ok(AppendOutcome([x.recorded], false)))
  {
    var x := plan[i];
    var s := x.recorded.streamId;
    AtPlace(p, plan, S, i);
    StoreAnswers.NewIsUnknown(p, S, s, x.batch);
    VersionIsLength(p, S, s);
    assert Sound(p.ids, plan, i);
    assert [x.recorded][0] == Recorded(s, x.streamOrdinal, x.batch)[0];
    assert DerivedBatch(p, s, x.batch);
  }

  /** Recording entry `i` keeps every stream on plan and owns what it added. */
  lemma RecordedOnPlan(p: Primitives, plan: seq<Planned>, S0: State, S: State, i: nat, count: nat)
    requires GoodPlan(p.ids, plan) && i < |plan| && OnPlan(plan, S0, S) && AllOurs(plan, S0, S)
    requires |HistoryOf(S, plan[i].recorded.streamId)| == plan[i].streamOrdinal
    requires (plan[i].recorded.streamId, plan[i].batch.operationId) !in S.operations
    ensures var x := plan[i]; var T := RecordInto(S, x.recorded.streamId, x.batch, [x.recorded], Direct).(eventCount := count);
      OnPlan(plan, S0, T) && AllOurs(plan, S0, T) && Present(plan, T, i)
  {
    var x := plan[i];
    var s := x.recorded.streamId;
    var T := RecordInto(S, s, x.batch, [x.recorded], Direct).(eventCount := count);
    assert Targeted(plan, s);
    PlannedPlace(p.ids, plan, i);
    assert HistoryOf(T, s) == HistoryOf(S, s) + [x.recorded];
    forall r | Targeted(plan, r) ensures HistoryOf(T, r) <= Goal(plan, S0, r) && WholeStream(plan, r) <= Goal(plan, S0, r) {
      assert HistoryOf(S, r) <= Goal(plan, S0, r) && WholeStream(plan, r) <= Goal(plan, S0, r);
    }
    forall j | 0 <= j < |plan| && Present(plan, T, j) && !Present(plan, S0, j) ensures Ours(plan, T, j) {
      if j != i {
        StillOurs(p, plan, S0, S, i, j, count);
      }
    }
  }

  lemma StillOurs(p: Primitives, plan: seq<Planned>, S0: State, S: State, i: nat, j: nat, count: nat)
    requires GoodPlan(p.ids, plan) && i < |plan| && j < |plan| && i != j && AllOurs(plan, S0, S)
    requires |HistoryOf(S, plan[i].recorded.streamId)| == plan[i].streamOrdinal
    requires (plan[i].recorded.streamId, plan[i].batch.operationId) !in S.operations
    requires var x := plan[i]; var T := RecordInto(S, x.recorded.streamId, x.batch, [x.recorded], Direct).(eventCount := count);
      Present(plan, T, j) && !Present(plan, S0, j)
    ensures var x := plan[i]; var T := RecordInto(S, x.recorded.streamId, x.batch, [x.recorded], Direct).(eventCount := count);
      Ours(plan, T, j)
  {
    if SameStream(plan, i, j) {
      Ordinals(p.ids, plan, i, j);
    }
    assert Present(plan, S, j) && Ours(plan, S, j);
  }

  // ----- One append of one applier -----

  /** The answer is a replay that changes nothing, a record in the planned place, or exhausted capacity. */
  ghost predicate Answered(plan: seq<Planned>, S: State, i: nat, T: State, r: Result<AppendOutcome, ErrorKind>)
    requires i < |plan|
  {
    match r
    case Ok(outcome) => outcome.events == [plan[i].recorded] && Present(plan, T, i)
    case Err(kind) => kind == CapacityExhausted && T == S
  }

  lemma AppendSound(p: Primitives, authority: Text, limits: Limits, plan: seq<Planned>, S0: State, S: State, i: nat)
    requires GoodPlan(p.ids, plan) && StoreSound(p, authority, plan, S0, S) && i < |plan|
    requires (forall j | 0 <= j < i :: Present(plan, S, j)) && !Present(plan, S0, i)
    ensures var x := plan[i]; var (T, r) := Append(p, limits, S, x.recorded.streamId, Expectation(x), x.batch);
      Answered(plan, S, i, T, r) && OnPlan(plan, S0, T) && AllOurs(plan, S0, T)
  {
    ReachedPlace(p.ids, plan, S, i);
    if Present(plan, S, i) {
      assert Ours(plan, S, i);
      ReplaysPresent(p, limits, plan, S, i);
    } else {
      var x := plan[i];
      assert Targeted(plan, x.recorded.streamId);
      assert StreamIndexed(p, S, x.recorded.streamId);
      PlannedPlace(p.ids, plan, i);
      assert HistoryOf(S, x.recorded.streamId) <= WholeStream(plan, x.recorded.streamId);
      RecordsNext(p, limits, plan, S, i);
      AtPlace(p, plan, S, i);
      StoreAnswers.NewIsUnknown(p, S, x.recorded.streamId, x.batch);
      RecordedOnPlan(p, plan, S0, S, i, S.eventCount + 1);
    }
  }

  lemma AppendKeepsSound(p: Primitives, authority: Text, limits: Limits, plan: seq<Planned>, S0: State, S: State, i: nat, T: State, r: Result<AppendOutcome, ErrorKind>)
    requires GoodPlan(p.ids, plan) && StoreSound(p, authority, plan, S0, S) && i < |plan|
    requires (forall j | 0 <= j < i :: Present(plan, S, j)) && !Present(plan, S0, i)
    requires (T, r) == Append(p, limits, S, plan[i].recorded.streamId, Expectation(plan[i]), plan[i].batch)
    ensures StoreSound(p, authority, plan, S0, T) && Evolves(S, T) && Answered(plan, S, i, T, r)
  {
    var x := plan[i];
    assert Sound(p.ids, plan, i);
    AppendSound(p, authority, limits, plan, S0, S, i);
    AppendKeeps(p, authority, limits, S, x.recorded.streamId, Expectation(x), x.batch);
    EvolvesTransitive(S0, S, T);
  }

  // ----- The report adds up -----

  lemma {:induction false} SumOne(order: seq<StreamId>, f: StreamId -> nat, g: StreamId -> nat, s: StreamId, d: nat)
    requires forall i, j | 0 <= i < j < |order| :: order[i] != order[j]
    requires forall k | 0 <= k < |order| :: g(order[k]) == f(order[k]) + if order[k] == s then d else 0
    ensures Sum(order, g) == Sum(order, f) + if s in order then d else 0
  {
    if |order| > 0 {
      SumOne(order[1..], f, g, s, d);
      assert s in order <==> s == order[0] || s in order[1..];
    }
  }

  function SeenOf(plan: seq<Planned>, prefixes: Prefixes, n: nat): StreamId -> nat
    requires n <= |plan|
  {
    s => Min(PrefixOf(prefixes, s), CountOn(plan, s, n))
  }

  /** Of the first `n` entries, those skipped are counted in the prefixes and the others are handled. */
  lemma {:induction false} ReportAddsUp(ids: Ids, plan: seq<Planned>, order: seq<StreamId>, prefixes: Prefixes, n: nat)
    requires GoodPlan(ids, plan) && IsOrder(plan, order) && n <= |plan|
    ensures Sum(order, SeenOf(plan, prefixes, n)) + Handled(plan, prefixes, n) == n
  {
    if n == 0 {
      SumZero(order, SeenOf(plan, prefixes, 0));
    } else {
      ReportAddsUp(ids, plan, order, prefixes, n - 1);
      var s := plan[n - 1].recorded.streamId;
      assert Sound(ids, plan, n - 1) && Targeted(plan, s) && s in order;
      var d := if plan[n - 1].streamOrdinal < PrefixOf(prefixes, s) then 1 else 0;
      SumOne(order, SeenOf(plan, prefixes, n - 1), SeenOf(plan, prefixes, n), s, d);
    }
  }

  lemma {:induction false} SumZero(order: seq<StreamId>, f: StreamId -> nat)
    requires forall k | 0 <= k < |order| :: f(order[k]) == 0
    ensures Sum(order, f) == 0
  {
    if |order| > 0 {
      SumZero(order[1..], f);
    }
  }

  lemma {:induction false} SumSame(order: seq<StreamId>, f: StreamId -> nat, g: StreamId -> nat)
    requires forall k | 0 <= k < |order| :: f(order[k]) == g(order[k])
    ensures Sum(order, f) == Sum(order, g)
  {
    if |order| > 0 {
      SumSame(order[1..], f, g);
    }
  }

  lemma EverythingCounted(ids: Ids, plan: seq<Planned>, S0: State, S: State, order: seq<StreamId>, prefixes: Prefixes)
    requires GoodPlan(ids, plan) && IsOrder(plan, order) && PrefixesSound(plan, S0, S, order, |order|, prefixes)
    ensures Sum(order, s => PrefixOf(prefixes, s)) + Handled(plan, prefixes, |plan|) == |plan|
  {
    ReportAddsUp(ids, plan, order, prefixes, |plan|);
    forall k | 0 <= k < |order| ensures SeenOf(plan, prefixes, |plan|)(order[k]) == PrefixOf(prefixes, order[k]) {
      assert Between(plan, S0, S, prefixes, order[k]) && order[k] in order && Targeted(plan, order[k]);
    }
    SumSame(order, SeenOf(plan, prefixes, |plan|), s => PrefixOf(prefixes, s));
  }

  /** When all entries are present, every target stream is the whole plan. */
  lemma AllPresentIsComplete(ids: Ids, plan: seq<Planned>, S0: State, S: State)
    requires GoodPlan(ids, plan) && Evolves(S0, S) && OnPlan(plan, S0, S) && forall i | 0 <= i < |plan| :: Present(plan, S, i)
    ensures Complete(plan, S0, S)
  {
    forall s | Targeted(plan, s) ensures HistoryOf(S, s) == Goal(plan, S0, s) && WholeStream(plan, s) <= HistoryOf(S, s) {
      var n := |WholeStream(plan, s)|;
      assert HistoryOf(S0, s) <= HistoryOf(S, s) <= Goal(plan, S0, s) && WholeStream(plan, s) <= Goal(plan, S0, s);
      if n > 0 {
        var i := PlaceIsPlanned(ids, plan, s, |plan|, n - 1);
        assert Present(plan, S, i);
      }
    }
  }

  // ----- Every step keeps everything -----

  lemma NotPresentAtStart(ids: Ids, plan: seq<Planned>, S0: State, S: State, a: Applier, i: nat)
    requires GoodPlan(ids, plan) && ApplierSound(plan, S0, S, a) && a.phase.Applying? && i < |plan|
    requires plan[i].streamOrdinal >= PrefixOf(a.phase.prefixes, plan[i].recorded.streamId)
    ensures !Present(plan, S0, i)
  {
    var s := plan[i].recorded.streamId;
    PlannedPlace(ids, plan, i);
    assert Targeted(plan, s) && s in a.order;
    var k :| 0 <= k < |a.order| && a.order[k] == s;
    assert Between(plan, S0, S, a.phase.prefixes, a.order[k]);
  }

  lemma SkippedIsPresent(plan: seq<Planned>, S0: State, S: State, a: Applier, i: nat)
    requires ApplierSound(plan, S0, S, a) && a.phase.Applying? && i < |plan|
    requires plan[i].streamOrdinal < PrefixOf(a.phase.prefixes, plan[i].recorded.streamId)
    ensures Present(plan, S, i)
  {
    var s := plan[i].recorded.streamId;
    assert Targeted(plan, s) && s in a.order;
    var k :| 0 <= k < |a.order| && a.order[k] == s;
    assert Between(plan, S0, S, a.phase.prefixes, a.order[k]);
  }

  lemma ApplyNextSound(p: Primitives, authority: Text, plan: seq<Planned>, S0: State, S: State, a: Applier)
    requires GoodPlan(p.ids, plan) && StoreSound(p, authority, plan, S0, S) && ApplierSound(plan, S0, S, a)
    requires a.phase.Applying? && a.phase.next < |plan|
    ensures var (phase, T) := ApplyNext(p, plan, a, S);
      StoreSound(p, authority, plan, S0, T) && Evolves(S, T) && PhaseSound(plan, S0, T, a.order, phase)
  {
    var x := plan[a.phase.next];
    if x.streamOrdinal < PrefixOf(a.phase.prefixes, x.recorded.streamId) {
      SkipSound(plan, S0, S, a);
      NothingEvolves(S);
    } else {
      var (T, r) := Append(p, a.limits, S, x.recorded.streamId, Expectation(x), x.batch);
      AppendingSound(p, authority, plan, S0, S, a, T, r);
    }
  }

  lemma SkipSound(plan: seq<Planned>, S0: State, S: State, a: Applier)
    requires ApplierSound(plan, S0, S, a) && a.phase.Applying? && a.phase.next < |plan|
    requires plan[a.phase.next].streamOrdinal < PrefixOf(a.phase.prefixes, plan[a.phase.next].recorded.streamId)
    ensures PhaseSound(plan, S0, S, a.order, a.phase.(next := a.phase.next + 1))
  {
    SkippedIsPresent(plan, S0, S, a, a.phase.next);
  }

  lemma AppendingSound(p: Primitives, authority: Text, plan: seq<Planned>, S0: State, S: State, a: Applier, T: State, r: Result<AppendOutcome, ErrorKind>)
    requires GoodPlan(p.ids, plan) && StoreSound(p, authority, plan, S0, S) && ApplierSound(plan, S0, S, a)
    requires a.phase.Applying? && a.phase.next < |plan|
    requires plan[a.phase.next].streamOrdinal >= PrefixOf(a.phase.prefixes, plan[a.phase.next].recorded.streamId)
    requires var x := plan[a.phase.next]; (T, r) == Append(p, a.limits, S, x.recorded.streamId, Expectation(x), x.batch)
    ensures StoreSound(p, authority, plan, S0, T) && Evolves(S, T)
    ensures PhaseSound(plan, S0, T, a.order, Counted(plan[a.phase.next], a.phase, r))
  {
    NotPresentAtStart(p.ids, plan, S0, S, a, a.phase.next);
    AppendKeepsSound(p, authority, a.limits, plan, S0, S, a.phase.next, T, r);
    AnsweredSound(plan, S0, S, T, a.order, a.phase, r);
  }

  lemma AnsweredSound(plan: seq<Planned>, S0: State, S: State, T: State, order: seq<StreamId>, phase: Phase, r: Result<AppendOutcome, ErrorKind>)
    requires phase.Applying? && phase.next < |plan| && PhaseSound(plan, S0, S, order, phase) && Evolves(S, T) && OnPlan(plan, S0, T)
    requires plan[phase.next].streamOrdinal >= PrefixOf(phase.prefixes, plan[phase.next].recorded.streamId)
    requires Answered(plan, S, phase.next, T, r)
    ensures PhaseSound(plan, S0, T, order, Counted(plan[phase.next], phase, r))
  {
    PhaseKept(plan, S0, S, T, order, phase);
    CountedSound(plan, S0, S, T, order, phase, r);
  }

  lemma CountedSound(plan: seq<Planned>, S0: State, S: State, T: State, order: seq<StreamId>, phase: Phase, r: Result<AppendOutcome, ErrorKind>)
    requires phase.Applying? && phase.next < |plan| && PhaseSound(plan, S0, T, order, phase)
    requires plan[phase.next].streamOrdinal >= PrefixOf(phase.prefixes, plan[phase.next].recorded.streamId)
    requires Answered(plan, S, phase.next, T, r)
    ensures PhaseSound(plan, S0, T, order, Counted(plan[phase.next], phase, r))
  {
  }

  lemma PreflightSound(p: Primitives, plan: seq<Planned>, S0: State, S: State, a: Applier)
    requires OnPlan(plan, S0, S) && Evolves(S0, S) && ApplierSound(plan, S0, S, a) && a.phase.Preflight?
    ensures var (b, T) := Step(p, plan, a, S); T == S && ApplierSound(plan, S0, S, b)
  {
    if a.phase.checked < |a.order| {
      CheckSound(plan, S0, S, a);
    }
  }

  lemma FinishSound(p: Primitives, plan: seq<Planned>, S0: State, S: State, a: Applier)
    requires GoodPlan(p.ids, plan) && Evolves(S0, S) && OnPlan(plan, S0, S) && ApplierSound(plan, S0, S, a) && a.phase.Applying? && a.phase.next == |plan|
    ensures var (b, T) := Step(p, plan, a, S); T == S && ApplierSound(plan, S0, S, b)
  {
    EverythingCounted(p.ids, plan, S0, S, a.order, a.phase.prefixes);
    AllPresentIsComplete(p.ids, plan, S0, S);
  }

  lemma StepSound(p: Primitives, authority: Text, plan: seq<Planned>, S0: State, S: State, a: Applier)
    requires GoodPlan(p.ids, plan) && StoreSound(p, authority, plan, S0, S) && ApplierSound(plan, S0, S, a)
    ensures var (b, T) := Step(p, plan, a, S);
      StoreSound(p, authority, plan, S0, T) && Evolves(S, T) && ApplierSound(plan, S0, T, b)
  {
    NothingEvolves(S);
    if a.phase.Preflight? {
      PreflightSound(p, plan, S0, S, a);
    } else if a.phase.Applying? && a.phase.next < |plan| {
      ApplyNextSound(p, authority, plan, S0, S, a);
    } else if a.phase.Applying? {
      FinishSound(p, plan, S0, S, a);
    }
  }

  ghost predicate SystemSound(p: Primitives, authority: Text, plan: seq<Planned>, S0: State, sys: System) {
    && StoreSound(p, authority, plan, S0, sys.store)
    && forall i | 0 <= i < |sys.appliers| :: ApplierSound(plan, S0, sys.store, sys.appliers[i])
  }

  lemma TurnSound(p: Primitives, authority: Text, plan: seq<Planned>, S0: State, sys: System, i: nat)
    requires GoodPlan(p.ids, plan) && SystemSound(p, authority, plan, S0, sys)
    ensures SystemSound(p, authority, plan, S0, Turn(p, plan, sys, i))
  {
    if i < |sys.appliers| {
      StepSound(p, authority, plan, S0, sys.store, sys.appliers[i]);
      var next := Turn(p, plan, sys, i);
      forall j | 0 <= j < |next.appliers| ensures ApplierSound(plan, S0, next.store, next.appliers[j]) {
        if j != i {
          PhaseKept(plan, S0, sys.store, next.store, sys.appliers[j].order, sys.appliers[j].phase);
        }
      }
    }
  }

  /** Appliers at their start over a sound store; no target stream diverges from its plan. */
  ghost predicate Initial(p: Primitives, authority: Text, plan: seq<Planned>, sys: System) {
    && Inv(p, authority, sys.store)
    && Compatible(plan, sys.store)
    && forall i | 0 <= i < |sys.appliers| :: IsOrder(plan, sys.appliers[i].order) && sys.appliers[i].phase == Preflight(0, map[])
  }

  lemma StartsOnPlan(plan: seq<Planned>, S0: State)
    requires Compatible(plan, S0)
    ensures OnPlan(plan, S0, S0)
  {
    forall s | Targeted(plan, s) ensures HistoryOf(S0, s) <= Goal(plan, S0, s) && WholeStream(plan, s) <= Goal(plan, S0, s) {
      assert !Diverges(HistoryOf(S0, s), WholeStream(plan, s));
    }
  }

  lemma {:induction false} RunSound(p: Primitives, authority: Text, plan: seq<Planned>, sys: System, turns: seq<nat>)
    requires GoodPlan(p.ids, plan) && Initial(p, authority, plan, sys)
    ensures SystemSound(p, authority, plan, sys.store, Run(p, plan, sys, turns))
    decreases |turns|
  {
    if |turns| == 0 {
      NothingEvolves(sys.store);
      StartsOnPlan(plan, sys.store);
    } else {
      RunSound(p, authority, plan, sys, turns[..|turns| - 1]);
      TurnSound(p, authority, plan, sys.store, Run(p, plan, sys, turns[..|turns| - 1]), turns[|turns| - 1]);
    }
  }

  /**
   Concurrent and resumable application: in every interleaving an applier fails only by exhausting
   its handle's capacity, never by a conflict or an unexpected answer; a finished one has applied or
   reused each planned event once, and each target stream then equals the plan exactly, or is what it
   was if it already contained the plan.
   */
  lemma ConcurrentAppliersAgree(p: Primitives, authority: Text, plan: seq<Planned>, sys: System, turns: seq<nat>, i: nat)
    requires GoodPlan(p.ids, plan) && Initial(p, authority, plan, sys)
    requires i < |Run(p, plan, sys, turns).appliers|
    ensures var now := Run(p, plan, sys, turns); var phase := now.appliers[i].phase;
      && (phase.Failed? ==> phase.error == StoreError(CapacityExhausted))
      && (phase.Done? ==> phase.applied + phase.reused == |plan| && Complete(plan, sys.store, now.store))
      && OnPlan(plan, sys.store, now.store)
  {
    RunSound(p, authority, plan, sys, turns);
    assert ApplierSound(plan, sys.store, Run(p, plan, sys, turns).store, Run(p, plan, sys, turns).appliers[i]);
  }

  /** For a validated fixture: the report covers exactly its messages. */
  lemma ValidatedFixtureApplies(p: Primitives, authority: Text, f: Fixtures.Fixture, sys: System, turns: seq<nat>, i: nat)
    requires Fixtures.Parsed(f) && Fixtures.ValidFixture(p, f)
    requires CollisionFree(p.sha, Documents(f)) && Hashable(p.sha, RenderingOf(p, f), f.messages)
    requires var plan := Plan(RenderingOf(p, f), f.messages);
      Initial(p, authority, plan, sys) && i < |Run(p, plan, sys, turns).appliers|
    ensures var plan := Plan(RenderingOf(p, f), f.messages); var now := Run(p, plan, sys, turns); var phase := now.appliers[i].phase;
      && (phase.Failed? ==> phase.error == StoreError(CapacityExhausted))
      && (phase.Done? ==> phase.applied + phase.reused == |f.messages| && Complete(plan, sys.store, now.store))
  {
    var plan := Plan(RenderingOf(p, f), f.messages);
    ValidatedPlanIsGood(p, f);
    ConcurrentAppliersAgree(p, authority, plan, sys, turns, i);
  }

  // ----- What the report counts -----

  function AppliedSoFar(phase: Phase): nat {
    if phase.Applying? || phase.Done? then phase.applied else 0
  }

  /** Each step adds to the count exactly the events it newly recorded. */
  lemma StepCounts(p: Primitives, plan: seq<Planned>, a: Applier, S: State)
    requires forall i | 0 <= i < |plan| :: |plan[i].batch.events| == 1
    ensures var (b, T) := Step(p, plan, a, S);
      && T.eventCount >= S.eventCount
      && (!b.phase.Failed? ==> AppliedSoFar(b.phase) == AppliedSoFar(a.phase) + T.eventCount - S.eventCount)
  {
  }

  /** How many events the turns of applier `i` newly recorded. */
  function NewlyRecorded(p: Primitives, plan: seq<Planned>, sys: System, turns: seq<nat>, i: nat): int
    decreases |turns|
  {
    if |turns| == 0 then 0
    else
      var earlier := turns[..|turns| - 1];
      NewlyRecorded(p, plan, sys, earlier, i)
      + (if turns[|turns| - 1] == i then Run(p, plan, sys, turns).store.eventCount - Run(p, plan, sys, earlier).store.eventCount else 0)
  }

  /** The reported number of applied events is the number the applier newly recorded, in every interleaving. */
  lemma {:induction false} AppliedIsNewlyRecorded(p: Primitives, plan: seq<Planned>, sys: System, turns: seq<nat>, i: nat)
    requires forall k | 0 <= k < |plan| :: |plan[k].batch.events| == 1
    requires i < |sys.appliers| && sys.appliers[i].phase == Preflight(0, map[])
    ensures |Run(p, plan, sys, turns).appliers| == |sys.appliers|
    ensures var phase := Run(p, plan, sys, turns).appliers[i].phase;
      !phase.Failed? ==> AppliedSoFar(phase) == NewlyRecorded(p, plan, sys, turns, i)
    decreases |turns|
  {
    if |turns| > 0 {
      var earlier := turns[..|turns| - 1];
      AppliedIsNewlyRecorded(p, plan, sys, earlier, i);
      var before := Run(p, plan, sys, earlier);
      if turns[|turns| - 1] == i {
        StepCounts(p, plan, before.appliers[i], before.store);
        if before.appliers[i].phase.Failed? {
          FailedStays(p, plan, before.appliers[i], before.store);
        }
      }
    }
  }

  lemma FailedStays(p: Primitives, plan: seq<Planned>, a: Applier, S: State)
    requires a.phase.Failed?
    ensures Step(p, plan, a, S) == (a, S)
  {
  }

  // ----- Every applier that keeps getting turns finishes -----

  predicate Finished(a: Applier) {
    a.phase.Done? || a.phase.Failed?
  }

  /** The turns an applier still needs. */
  function Remaining(plan: seq<Planned>, a: Applier): nat {
    match a.phase
    case Preflight(checked, _) => (if checked < |a.order| then |a.order| - checked else 0) + |plan| + 2
    case Applying(next, _, _, _) => (if next < |plan| then |plan| - next else 0) + 1
    case Done(_, _) => 0
    case Failed(_) => 0
  }

  lemma StepAdvances(p: Primitives, plan: seq<Planned>, a: Applier, S: State)
    requires !Finished(a)
    ensures Remaining(plan, Step(p, plan, a, S).0) < Remaining(plan, a)
  {
  }

  function TurnsOf(turns: seq<nat>, i: nat): nat {
    if |turns| == 0 then 0 else TurnsOf(turns[..|turns| - 1], i) + (if turns[|turns| - 1] == i then 1 else 0)
  }

  /** After as many turns as it has streams and planned events, and two more, an applier is finished. */
  lemma {:induction false} AppliersFinish(p: Primitives, plan: seq<Planned>, sys: System, turns: seq<nat>, i: nat)
    requires i < |sys.appliers|
    ensures |Run(p, plan, sys, turns).appliers| == |sys.appliers|
    ensures var a := Run(p, plan, sys, turns).appliers[i];
      Finished(a) || TurnsOf(turns, i) + Remaining(plan, a) <= Remaining(plan, sys.appliers[i])
    decreases |turns|
  {
    if |turns| > 0 {
      var earlier := turns[..|turns| - 1];
      AppliersFinish(p, plan, sys, earlier, i);
      var before := Run(p, plan, sys, earlier);
      if !Finished(before.appliers[i]) {
        StepAdvances(p, plan, before.appliers[i], before.store);
      }
    }
  }
}
