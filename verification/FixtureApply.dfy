/**
 `apply` as one uninterrupted call on a store handle: validation, planning, the codec check and the
 loops that the step system cuts into turns.
 */
module FixtureApply {
  import opened Wrappers
  import opened Identity
  import opened Records
  import opened Store
  import opened StoreInvariant
  import opened StoreSteps
  import opened FixturePlan
  import opened FixtureRuns
  import opened Fixtures
  import CanonicalJson
  import MemoryStore

  /** The applier takes all its turns without interruption. */
  function Alone(p: Primitives, plan: seq<Planned>, a: Applier, S: State): (Phase, State)
    decreases Remaining(plan, a)
  {
    if Finished(a) then (a.phase, S)
    else
      StepAdvances(p, plan, a, S);
      var (b, T) := Step(p, plan, a, S);
      Alone(p, plan, b, T)
  }

  /** An uninterrupted call ends sound: done with a report that adds up and complete streams, or out of capacity. */
  lemma {:induction false} AloneSound(p: Primitives, authority: Text, plan: seq<Planned>, S0: State, S: State, a: Applier)
    requires GoodPlan(p.ids, plan) && StoreSound(p, authority, plan, S0, S) && ApplierSound(plan, S0, S, a)
    ensures var (phase, T) := Alone(p, plan, a, S);
      && StoreSound(p, authority, plan, S0, T)
      && match phase
         case Done(applied, reused) => applied + reused == |plan| && Complete(plan, S0, T)
         case Failed(error) => error == StoreError(CapacityExhausted)
         case _ => false
    decreases Remaining(plan, a)
  {
    if !Finished(a) {
      StepAdvances(p, plan, a, S);
      StepSound(p, authority, plan, S0, S, a);
      var (b, T) := Step(p, plan, a, S);
      AloneSound(p, authority, plan, S0, T, b);
    }
  }

  lemma {:induction false} AppendingNeverDiverges(p: Primitives, plan: seq<Planned>, a: Applier, S: State)
    requires a.phase.Applying? || a.phase.Done?
    ensures Alone(p, plan, a, S).0 != Failed(ConflictingHistory)
    decreases Remaining(plan, a)
  {
    if !Finished(a) {
      StepAdvances(p, plan, a, S);
      var (b, T) := Step(p, plan, a, S);
      if !b.phase.Failed? {
        AppendingNeverDiverges(p, plan, b, T);
      }
    }
  }

  /** Some stream from place `from` on diverges from the plan. */
  ghost predicate DivergesFrom(plan: seq<Planned>, S: State, order: seq<StreamId>, from: nat) {
    exists k :: from <= k < |order| && Diverges(HistoryOf(S, order[k]), WholeStream(plan, order[k]))
  }

  lemma {:induction false} PreflightDecides(p: Primitives, plan: seq<Planned>, a: Applier, S: State)
    requires a.phase.Preflight?
    ensures var (phase, T) := Alone(p, plan, a, S);
      && (phase == Failed(ConflictingHistory) <==> DivergesFrom(plan, S, a.order, a.phase.checked))
      && (phase == Failed(ConflictingHistory) ==> T == S)
    decreases Remaining(plan, a)
  {
    StepAdvances(p, plan, a, S);
    var (b, T) := Step(p, plan, a, S);
    if a.phase.checked < |a.order| {
      var s := a.order[a.phase.checked];
      MismatchIsDivergence(HistoryOf(S, s), WholeStream(plan, s));
      if b.phase.Preflight? {
        PreflightDecides(p, plan, b, T);
      }
    } else {
      AppendingNeverDiverges(p, plan, b, T);
    }
  }

  /**
   Without any assumption on the store: a call ends in a conflicting history exactly when some target
   stream and its plan are not one a beginning of the other, and then it has written nothing.
   */
  lemma ConflictExactlyOnDivergence(p: Primitives, plan: seq<Planned>, limits: Limits, order: seq<StreamId>, S: State)
    requires IsOrder(plan, order)
    ensures var (phase, T) := Alone(p, plan, Applier(limits, order, Preflight(0, map[])), S);
      && (phase == Failed(ConflictingHistory) <==>
            exists s :: Targeted(plan, s) && Diverges(HistoryOf(S, s), WholeStream(plan, s)))
      && (phase == Failed(ConflictingHistory) ==> T == S)
  {
    PreflightDecides(p, plan, Applier(limits, order, Preflight(0, map[])), S);
    if s :| Targeted(plan, s) && Diverges(HistoryOf(S, s), WholeStream(plan, s)) {
      assert s in order;
      var k :| 0 <= k < |order| && order[k] == s;
      assert DivergesFrom(plan, S, order, 0);
    }
    if DivergesFrom(plan, S, order, 0) {
      var k :| 0 <= k < |order| && Diverges(HistoryOf(S, order[k]), WholeStream(plan, order[k]));
      assert order[k] in order && Targeted(plan, order[k]);
    }
  }

  /** What the end of the preflight says about the streams. */
  lemma PreflightMeaning(p: Primitives, plan: seq<Planned>, limits: Limits, order: seq<StreamId>, S: State, r: Phase)
    requires r == Failed(ConflictingHistory) || (r.Preflight? && r.checked == |order|)
    requires Alone(p, plan, Applier(limits, order, r), S) == Alone(p, plan, Applier(limits, order, Preflight(0, map[])), S)
    ensures r.Failed? <==> DivergesFrom(plan, S, order, 0)
  {
    PreflightDecides(p, plan, Applier(limits, order, Preflight(0, map[])), S);
    if r.Preflight? {
      PreflightDecides(p, plan, Applier(limits, order, r), S);
    }
  }

  // ----- The loops -----

  /** `events_by_stream`. */
  method GroupByStream(plan: seq<Planned>) returns (groups: map<StreamId, seq<RecordedEvent>>)
    ensures forall s :: (if s in groups then groups[s] else []) == WholeStream(plan, s)
  {
    groups := map[];
    for i := 0 to |plan|
      invariant forall s :: (if s in groups then groups[s] else []) == StreamPlan(plan, s, i)
    {
      var s := plan[i].recorded.streamId;
      groups := groups[s := (if s in groups then groups[s] else []) + [plan[i].recorded]];
    }
  }

  method Differs(h: seq<RecordedEvent>, events: seq<RecordedEvent>) returns (r: bool)
    ensures r == Mismatch(h, events)
  {
    var n := Min(|h|, |events|);
    for i := 0 to n
      invariant forall k | 0 <= k < i :: h[k] == events[k]
    {
      if h[i] != events[i] {
        return true;
      }
    }
    return false;
  }

  method Total(order: seq<StreamId>, prefixes: Prefixes) returns (total: nat)
    ensures total == Sum(order, s => PrefixOf(prefixes, s))
  {
    total := 0;
    ghost var f := (s: StreamId) => PrefixOf(prefixes, s);
    for i := 0 to |order|
      invariant total + Sum(order[i..], f) == Sum(order, f)
    {
      assert order[i..][1..] == order[i + 1..];
      total := total + PrefixOf(prefixes, order[i]);
    }
  }

  /** Every stream is compared with the plan before the first append. */
  method PreflightAll(handle: MemoryStore.Handle, plan: seq<Planned>, order: seq<StreamId>) returns (r: Phase)
    ensures r.Failed? || r.Preflight?
    ensures r.Preflight? ==> r.checked == |order|
    ensures r.Failed? <==> DivergesFrom(plan, handle.shared.Snapshot(), order, 0)
    ensures r.Failed? ==> r.error == ConflictingHistory
    ensures Alone(handle.primitives, plan, Applier(handle.limits, order, r), handle.shared.Snapshot())
      == Alone(handle.primitives, plan, Applier(handle.limits, order, Preflight(0, map[])), handle.shared.Snapshot())
  {
    var groups := GroupByStream(plan);
    r := Preflight(0, map[]);
    for k := 0 to |order|
      invariant r.Preflight? && r.checked == k
      invariant Alone(handle.primitives, plan, Applier(handle.limits, order, r), handle.shared.Snapshot())
        == Alone(handle.primitives, plan, Applier(handle.limits, order, Preflight(0, map[])), handle.shared.Snapshot())
    {
      var s := order[k];
      var h := handle.Load(s);
      var events := if s in groups then groups[s] else [];
      assert events == WholeStream(plan, s);
      var differs := Differs(h, events);
      ghost var before := Applier(handle.limits, order, r);
      r := if differs then Failed(ConflictingHistory) else Preflight(k + 1, r.prefixes[s := Min(|h|, |events|)]);
      assert r == Check(plan, before, handle.shared.Snapshot());
      if differs {
        PreflightMeaning(handle.primitives, plan, handle.limits, order, handle.shared.Snapshot(), r);
        return;
      }
    }
    PreflightMeaning(handle.primitives, plan, handle.limits, order, handle.shared.Snapshot(), r);
  }

  /** One planned event: skipped, or appended and counted. */
  method ApplyOne(handle: MemoryStore.Handle, plan: seq<Planned>, order: seq<StreamId>, phase: Phase) returns (r: Phase)
    requires phase.Applying? && phase.next < |plan| && AdmissibleEvents(plan[phase.next].batch.events)
    modifies handle.shared
    ensures (r, handle.shared.Snapshot())
      == ApplyNext(handle.primitives, plan, Applier(handle.limits, order, phase), old(handle.shared.Snapshot()))
  {
    var x := plan[phase.next];
    var s := x.recorded.streamId;
    if x.streamOrdinal < PrefixOf(phase.prefixes, s) {
      return phase.(next := phase.next + 1);
    }
    var outcome := handle.Append(s, Expectation(x), x.batch);
    if outcome.Err? {
      return Failed(StoreError(outcome.error));
    }
    if outcome.value.events != [x.recorded] {
      return Failed(UnexpectedAppendResult);
    }
    if outcome.value.replay {
      return phase.(next := phase.next + 1, reused := phase.reused + 1);
    }
    return phase.(next := phase.next + 1, applied := phase.applied + 1);
  }

  lemma AloneNext(p: Primitives, plan: seq<Planned>, limits: Limits, order: seq<StreamId>, phase: Phase, S: State, next: Phase, T: State)
    requires phase.Applying? && phase.next < |plan|
    requires (next, T) == ApplyNext(p, plan, Applier(limits, order, phase), S)
    ensures Alone(p, plan, Applier(limits, order, phase), S) == Alone(p, plan, Applier(limits, order, next), T)
    ensures next.Failed? || (next.Applying? && next.next == phase.next + 1)
  {
    assert Step(p, plan, Applier(limits, order, phase), S) == (Applier(limits, order, next), T);
  }

  /** The appends, from the first planned event on. */
  method ApplyAll(handle: MemoryStore.Handle, plan: seq<Planned>, order: seq<StreamId>, start: Phase) returns (r: Phase)
    requires start.Applying? && start.next == 0
    requires forall i | 0 <= i < |plan| :: AdmissibleEvents(plan[i].batch.events)
    modifies handle.shared
    ensures (r, handle.shared.Snapshot())
      == Alone(handle.primitives, plan, Applier(handle.limits, order, start), old(handle.shared.Snapshot()))
  {
    ghost var goal := Alone(handle.primitives, plan, Applier(handle.limits, order, start), handle.shared.Snapshot());
    r := start;
    for i := 0 to |plan|
      invariant r.Applying? && r.next == i
      invariant Alone(handle.primitives, plan, Applier(handle.limits, order, r), handle.shared.Snapshot()) == goal
    {
      ghost var phase, S := r, handle.shared.Snapshot();
      r := ApplyOne(handle, plan, order, r);
      AloneNext(handle.primitives, plan, handle.limits, order, phase, S, r, handle.shared.Snapshot());
      if r.Failed? {
        return;
      }
    }
    r := Done(r.applied, r.reused);
  }

  /** Preflight and appends of `apply` do what its turns do, one after the other. */
  method ApplyPlan(handle: MemoryStore.Handle, plan: seq<Planned>, order: seq<StreamId>) returns (r: Phase)
    requires forall i | 0 <= i < |plan| :: AdmissibleEvents(plan[i].batch.events)
    modifies handle.shared
    ensures (r, handle.shared.Snapshot())
      == Alone(handle.primitives, plan, Applier(handle.limits, order, Preflight(0, map[])), old(handle.shared.Snapshot()))
  {
    r := PreflightAll(handle, plan, order);
    if r.Failed? {
      return;
    }
    var reused := Total(order, r.prefixes);
    r := ApplyAll(handle, plan, order, Applying(0, r.prefixes, 0, reused));
  }

  // ----- The order of the streams -----

  /** The order of the sorted map: by aggregate type and then by identity. */
  predicate Before(a: StreamId, b: StreamId) {
    CanonicalJson.Less(a.aggregateType, b.aggregateType)
    || (a.aggregateType == b.aggregateType && CanonicalJson.Less(a.aggregateId, b.aggregateId))
  }

  predicate NoRepeats(order: seq<StreamId>) {
    forall i, j | 0 <= i < j < |order| :: order[i] != order[j]
  }

  function InsertStream(s: StreamId, order: seq<StreamId>): (r: seq<StreamId>)
    requires NoRepeats(order) && s !in order
    ensures NoRepeats(r) && forall x :: x in r <==> x == s || x in order
  {
    if |order| == 0 || Before(s, order[0]) then [s] + order
    else
      var rest := InsertStream(s, order[1..]);
      assert forall i | 0 <= i < |rest| :: rest[i] in rest && (rest[i] == s || rest[i] in order[1..]);
      [order[0]] + rest
  }

  predicate TargetedBefore(plan: seq<Planned>, n: nat, s: StreamId)
    requires n <= |plan|
  {
    exists i :: 0 <= i < n && plan[i].recorded.streamId == s
  }

  /** The target streams of the first `n` planned events, in order. */
  function StreamOrder(plan: seq<Planned>, n: nat): (order: seq<StreamId>)
    requires n <= |plan|
    ensures NoRepeats(order)
    ensures forall s :: s in order <==> TargetedBefore(plan, n, s)
  {
    if n == 0 then []
    else
      var s, earlier := plan[n - 1].recorded.streamId, StreamOrder(plan, n - 1);
      assert TargetedBefore(plan, n, s) && forall x | TargetedBefore(plan, n - 1, x) :: TargetedBefore(plan, n, x);
      if s in earlier then earlier else InsertStream(s, earlier)
  }

  lemma StreamOrderIsOrder(plan: seq<Planned>)
    ensures IsOrder(plan, StreamOrder(plan, |plan|))
  {
  }

  method OrderStreams(plan: seq<Planned>) returns (order: seq<StreamId>)
    ensures IsOrder(plan, order) && order == StreamOrder(plan, |plan|)
  {
    order := [];
    for i := 0 to |plan|
      invariant order == StreamOrder(plan, i)
    {
      if plan[i].recorded.streamId !in order {
        order := InsertStream(plan[i].recorded.streamId, order);
      }
    }
    StreamOrderIsOrder(plan);
  }

  // ----- The whole call -----

  /** Which aggregate types have a codec, and which events it decodes. */
  datatype Codecs = Codecs(registered: Text -> bool, decodes: RecordedEvent -> bool)

  datatype Refusal = InvalidFixture(error: FixtureError) | UnknownAggregateCodec | Undecodable

  datatype Applied = Refused(reason: Refusal) | Ran(phase: Phase)

  predicate AllRegistered(codecs: Codecs, ms: seq<Message>) {
    forall i | 0 <= i < |ms| :: codecs.registered(ms[i].content.stream.aggregateType)
  }

  predicate AllDecode(codecs: Codecs, plan: seq<Planned>) {
    forall i | 0 <= i < |plan| :: codecs.decodes(plan[i].recorded)
  }

  method CheckRegistered(codecs: Codecs, ms: seq<Message>) returns (ok: bool)
    ensures ok == AllRegistered(codecs, ms)
  {
    for i := 0 to |ms|
      invariant forall k | 0 <= k < i :: codecs.registered(ms[k].content.stream.aggregateType)
    {
      if !codecs.registered(ms[i].content.stream.aggregateType) {
        return false;
      }
    }
    return true;
  }

  method CheckDecodes(codecs: Codecs, plan: seq<Planned>) returns (ok: bool)
    ensures ok == AllDecode(codecs, plan)
  {
    for i := 0 to |plan|
      invariant forall k | 0 <= k < i :: codecs.decodes(plan[k].recorded)
    {
      if !codecs.decodes(plan[i].recorded) {
        return false;
      }
    }
    return true;
  }

  lemma RenderedAdmissible(t: Rendering, ms: seq<Message>)
    requires forall i | 0 <= i < |ms| :: Numbered(ms, i) && |t.payload(ms[i])| <= MAX_EVENT_PAYLOAD_LEN
    ensures forall i | 0 <= i < |ms| :: AdmissibleEvents(Plan(t, ms)[i].batch.events)
  {
    forall i | 0 <= i < |ms| ensures AdmissibleEvents(Plan(t, ms)[i].batch.events) {
      PlannedSound(t, ms, i);
      assert Sound(t.ids, Plan(t, ms), i);
    }
  }

  lemma PlanAdmissible(p: Primitives, f: Fixture)
    requires ValidFixture(p, f)
    ensures forall i | 0 <= i < |f.messages| :: AdmissibleEvents(Plan(RenderingOf(p, f), f.messages)[i].batch.events)
  {
    forall i | 0 <= i < |f.messages| ensures |RenderingOf(p, f).payload(f.messages[i])| <= MAX_EVENT_PAYLOAD_LEN {
      assert MessageAdmissible(p, f.messages[i]);
    }
    RenderedAdmissible(RenderingOf(p, f), f.messages);
  }

  /** What the call answers before it touches the store, if it refuses. */
  ghost function RefusalOf(p: Primitives, f: Fixture, codecs: Codecs): Option<Refusal> {
    if !AllRegistered(codecs, f.messages) then Some(UnknownAggregateCodec)
    else if !AllDecode(codecs, Plan(RenderingOf(p, f), f.messages)) then Some(Undecodable)
    else None
  }

  /**
   `MessageSeriesEngine::apply`: an invalid fixture, a missing codec and an undecodable event are
   refused in this order before anything is written; planning never fails; then the call does what
   its turns do, with the streams in their order.
   */
  method Apply(handle: MemoryStore.Handle, f: Fixture, codecs: Codecs) returns (r: Applied)
    requires Parsed(f)
    modifies handle.shared
    ensures !ValidFixture(handle.primitives, f) <==> r.Refused? && r.reason.InvalidFixture?
    ensures ValidFixture(handle.primitives, f) ==>
      match RefusalOf(handle.primitives, f, codecs)
      case Some(reason) => r == Refused(reason)
      case None => r.Ran?
    ensures r.Refused? ==> handle.shared.Snapshot() == old(handle.shared.Snapshot())
    ensures r.Ran? ==>
      var plan := Plan(RenderingOf(handle.primitives, f), f.messages);
      (r.phase == Failed(ConflictingHistory) <==>
         exists s :: Targeted(plan, s) && Diverges(HistoryOf(old(handle.shared.Snapshot()), s), WholeStream(plan, s)))
    ensures r == Ran(Failed(ConflictingHistory)) ==> handle.shared.Snapshot() == old(handle.shared.Snapshot())
    ensures r.Ran? ==>
      var plan := Plan(RenderingOf(handle.primitives, f), f.messages);
      (r.phase, handle.shared.Snapshot())
        == Alone(handle.primitives, plan, Applier(handle.limits, StreamOrder(plan, |plan|), Preflight(0, map[])), old(handle.shared.Snapshot()))
  {
    var invalid := Validate(handle.primitives, f);
    if invalid.Some? {
      return Refused(InvalidFixture(invalid.value));
    }
    var registered := CheckRegistered(codecs, f.messages);
    if !registered {
      return Refused(UnknownAggregateCodec);
    }
    ValidatedPlans(handle.primitives, f);
    var planned := BuildPlan(RenderingOf(handle.primitives, f), f.messages);
    var plan := planned.value;
    var decodes := CheckDecodes(codecs, plan);
    if !decodes {
      return Refused(Undecodable);
    }
    PlanAdmissible(handle.primitives, f);
    var order := OrderStreams(plan);
    ConflictExactlyOnDivergence(handle.primitives, plan, handle.limits, order, handle.shared.Snapshot());
    var phase := ApplyPlan(handle, plan, order);
    return Ran(phase);
  }

  /** The message stands in its stream at its version, with everything it says. */
  predicate MessageStands(T: State, m: Message) {
    var h := HistoryOf(T, m.content.stream);
    0 < m.content.streamVersion <= |h| && Says(h[m.content.streamVersion - 1], m)
  }

  lemma CompleteStands(p: Primitives, f: Fixture, S: State, T: State, i: nat)
    requires Parsed(f) && ValidFixture(p, f) && CollisionFree(p.sha, Documents(f)) && Hashable(p.sha, RenderingOf(p, f), f.messages)
    requires Complete(Plan(RenderingOf(p, f), f.messages), S, T) && i < |f.messages|
    ensures MessageStands(T, f.messages[i])
  {
    var plan := Plan(RenderingOf(p, f), f.messages);
    ValidatedPlanIsGood(p, f);
    PlannedSays(p, f, i);
    PlannedPlace(p.ids, plan, i);
    assert Sound(p.ids, plan, i);
    assert [plan[i].recorded][0] == Recorded(plan[i].recorded.streamId, plan[i].streamOrdinal, plan[i].batch)[0];
    assert Targeted(plan, plan[i].recorded.streamId);
  }

  lemma AppliedPlanSound(p: Primitives, authority: Text, f: Fixture, plan: seq<Planned>, limits: Limits, S: State)
    requires Parsed(f) && ValidFixture(p, f) && Inv(p, authority, S)
    requires CollisionFree(p.sha, Documents(f)) && Hashable(p.sha, RenderingOf(p, f), f.messages)
    requires plan == Plan(RenderingOf(p, f), f.messages) && Compatible(plan, S)
    ensures var (phase, T) := Alone(p, plan, Applier(limits, StreamOrder(plan, |plan|), Preflight(0, map[])), S);
      match phase
      case Done(applied, reused) => applied + reused == |f.messages| && Complete(plan, S, T)
      case Failed(error) => error == StoreError(CapacityExhausted)
      case _ => false
  {
    ValidatedPlanIsGood(p, f);
    StreamOrderIsOrder(plan);
    NothingEvolves(S);
    StartsOnPlan(plan, S);
    AloneSound(p, authority, plan, S, S, Applier(limits, StreamOrder(plan, |plan|), Preflight(0, map[])));
  }

  lemma AllStand(p: Primitives, f: Fixture, S: State, T: State)
    requires Parsed(f) && ValidFixture(p, f) && CollisionFree(p.sha, Documents(f)) && Hashable(p.sha, RenderingOf(p, f), f.messages)
    requires Complete(Plan(RenderingOf(p, f), f.messages), S, T)
    ensures forall i | 0 <= i < |f.messages| :: MessageStands(T, f.messages[i])
  {
    forall i | 0 <= i < |f.messages| ensures MessageStands(T, f.messages[i]) {
      CompleteStands(p, f, S, T, i);
    }
  }

  /**
   A call that is not refused ends with every message applied or reused, the streams equal to the plan
   and every message standing at its place with everything it says; or out of capacity.
   */
  lemma AppliedFixtureSound(p: Primitives, authority: Text, f: Fixture, plan: seq<Planned>, limits: Limits, S: State, phase: Phase, T: State)
    requires Parsed(f) && ValidFixture(p, f) && Inv(p, authority, S)
    requires CollisionFree(p.sha, Documents(f)) && Hashable(p.sha, RenderingOf(p, f), f.messages)
    requires plan == Plan(RenderingOf(p, f), f.messages) && Compatible(plan, S)
    requires (phase, T) == Alone(p, plan, Applier(limits, StreamOrder(plan, |plan|), Preflight(0, map[])), S)
    ensures match phase
      case Done(applied, reused) =>
        && applied + reused == |f.messages| && Complete(plan, S, T)
        && forall i | 0 <= i < |f.messages| :: MessageStands(T, f.messages[i])
      case Failed(error) => error == StoreError(CapacityExhausted)
      case _ => false
  {
    AppliedPlanSound(p, authority, f, plan, limits, S);
    if phase.Done? {
      AllStand(p, f, S, T);
    }
  }
}
