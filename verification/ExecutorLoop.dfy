/** One execution as an uninterrupted loop over a store handle: the loop that the step system cuts into moves. */
module ExecutorLoop {
  import opened Wrappers
  import opened Identity
  import opened Records
  import opened Outcome
  import opened Store
  import opened StoreInvariant
  import opened Executor
  import opened ExecutorSteps
  import opened ExecutorWork
  import MemoryStore
  import History

  /** The execution after `n` steps without interruption. */
  function Steps(p: Primitives, authority: Text, e: Executor, S: State, n: nat): (Executor, State) {
    if n == 0 then (e, S)
    else
      var (f, T) := Steps(p, authority, e, S, n - 1);
      StepExecutor(p, authority, f, T)
  }

  /** The executor and the store behind it are sound. */
  ghost predicate SoundPair(p: Primitives, authority: Text, x: (Executor, State)) {
    Inv(p, authority, x.1) && ExecutorInv(p, x.1, x.0)
  }

  lemma NextPairSound(p: Primitives, authority: Text, x: (Executor, State), y: (Executor, State))
    requires Lawful(p) && SoundPair(p, authority, x) && y == StepExecutor(p, authority, x.0, x.1)
    ensures SoundPair(p, authority, y)
  {
    ExecutorStepKeeps(p, authority, x.0, x.1);
  }

  /** The pairs lead from one to the next by single steps. */
  ghost predicate Trail(p: Primitives, authority: Text, trail: seq<(Executor, State)>) {
    forall k | 0 < k < |trail| :: trail[k] == StepExecutor(p, authority, trail[k - 1].0, trail[k - 1].1)
  }

  lemma StepsNext(p: Primitives, authority: Text, e: Executor, S: State, k: nat, x: (Executor, State), y: (Executor, State))
    requires k > 0 && x == Steps(p, authority, e, S, k - 1) && y == Steps(p, authority, e, S, k)
    ensures y == StepExecutor(p, authority, x.0, x.1)
  {
  }

  lemma TrailOf(p: Primitives, authority: Text, e: Executor, S: State, n: nat) returns (trail: seq<(Executor, State)>)
    ensures |trail| == n + 1 && Trail(p, authority, trail) && trail[0] == (e, S)
    ensures forall k | 0 <= k <= n :: trail[k] == Steps(p, authority, e, S, k)
  {
    trail := seq(n + 1, k requires 0 <= k <= n => Steps(p, authority, e, S, k));
    forall k | 0 < k < |trail| ensures trail[k] == StepExecutor(p, authority, trail[k - 1].0, trail[k - 1].1) {
      StepsNext(p, authority, e, S, k, trail[k - 1], trail[k]);
    }
  }

  lemma {:induction false} TrailSound(p: Primitives, authority: Text, trail: seq<(Executor, State)>, n: nat)
    requires Lawful(p) && Trail(p, authority, trail) && n < |trail| && SoundPair(p, authority, trail[0])
    ensures SoundPair(p, authority, trail[n])
  {
    if n > 0 {
      TrailSound(p, authority, trail, n - 1);
      NextPairSound(p, authority, trail[n - 1], trail[n]);
    }
  }

  lemma {:induction false} FinishedTrail(p: Primitives, authority: Text, trail: seq<(Executor, State)>, m: nat, n: nat)
    requires Trail(p, authority, trail) && m <= n < |trail| && trail[m].0.phase.Finished?
    ensures trail[n] == trail[m]
  {
    if m < n {
      FinishedTrail(p, authority, trail, m, n - 1);
      FinishedStep(p, authority, trail[n - 1]);
    }
  }

  lemma FinishedStep(p: Primitives, authority: Text, x: (Executor, State))
    requires x.0.phase.Finished?
    ensures StepExecutor(p, authority, x.0, x.1) == x
  {
  }

  /** Once finished, further steps change nothing: the end of an execution is determined. */
  lemma FinishedStays(p: Primitives, authority: Text, e: Executor, S: State, m: nat, n: nat)
    requires m <= n && Steps(p, authority, e, S, m).0.phase.Finished?
    ensures Steps(p, authority, e, S, n) == Steps(p, authority, e, S, m)
  {
    var trail := TrailOf(p, authority, e, S, n);
    assert trail[m] == Steps(p, authority, e, S, m);
    FinishedTrail(p, authority, trail, m, n);
  }

  /** `load` on the handle. */
  method LoadStream(handle: MemoryStore.Handle, c: Command, trace: Trace, context: Text, s: StreamId) returns (r: Response)
    ensures r == Respond(handle.primitives, c, handle.shared.Snapshot(), trace, context, s)
  {
    if c.metadata.boundedContext != Some(context) {
      return Refused(s, WrongContext);
    }
    if HasLoaded(trace, s) {
      return Refused(s, AlreadyLoaded);
    }
    var h := handle.Load(s);
    var ok := History.ValidateHistory(handle.primitives.ids, s, h);
    if !ok {
      return Refused(s, Corrupt);
    }
    for i := 0 to |h|
      invariant forall k | 0 <= k < i :: c.decodes(h[k])
    {
      if !c.decodes(h[i]) {
        return Refused(s, Undecodable);
      }
    }
    return Loaded(s, h);
  }

  /** `append_transaction`: an invalid completion is refused before the store is touched. */
  method Submit(handle: MemoryStore.Handle, trace: Trace, t: EventTransaction) returns (next: Phase)
    requires WellFormedTransaction(t)
    modifies handle.shared
    ensures var (T, r) := Commit(handle.primitives, handle.authority, handle.limits, old(handle.shared.Snapshot()), t);
      handle.shared.Snapshot() == T && next == Submitted(trace, r)
  {
    if !CompletedTransactionValid(handle.primitives, t) {
      return Finished(Err(InvalidRequest));
    }
    var r := handle.AppendTransaction(t);
    return Submitted(trace, r);
  }

  /** One step of the loop on the shared state. */
  method Step(handle: MemoryStore.Handle, e: Executor) returns (f: Executor)
    requires e.phase.Submitting? ==> WellFormedTransaction(e.phase.proposal)
    requires e.command.limits == handle.limits
    modifies handle.shared
    ensures (f, handle.shared.Snapshot()) == StepExecutor(handle.primitives, handle.authority, e, old(handle.shared.Snapshot()))
  {
    var c := e.command;
    match e.phase
    case LookingUp =>
      var next := LookUp(c.metadata, handle.shared.Snapshot(), Running([]));
      f := e.(phase := next, evaluations := if next.Running? then e.evaluations + 1 else e.evaluations);
    case Running(trace) =>
      var choice := c.handler(trace);
      if choice.Load? {
        var response := LoadStream(handle, c, trace, choice.context, choice.stream);
        f := e.(phase := Running(trace + [response]));
      } else {
        var proposal := Propose(handle.primitives, c, trace);
        f := e.(phase := if proposal.Ok? then Submitting(trace, proposal.value) else Finished(Err(proposal.error)));
      }
    case Submitting(trace, t) =>
      var next := Submit(handle, trace, t);
      f := e.(phase := next);
    case Resolving(marker, replay, admitted) =>
      f := e.(phase := Resolve(handle.primitives, handle.authority, c.metadata, handle.shared.Snapshot(), marker, replay, admitted));
    case Reconciling(_, error) =>
      f := e.(phase := LookUp(c.metadata, handle.shared.Snapshot(), AfterConflict(e, error)));
    case Finished(_) =>
      f := e;
  }

  lemma SubmittedWellFormed(p: Primitives, S: State, e: Executor)
    requires ExecutorInv(p, S, e) && e.phase.Submitting?
    ensures WellFormedTransaction(e.phase.proposal)
  {
    ProposalIsPermitted(p, e.command, e.phase.trace);
  }

  /** A step leaves less work, or as much and a handler nearer to its end. */
  lemma StepNearer(p: Primitives, authority: Text, S: State, e: Executor, f: Executor, T: State, k: ORDINAL) returns (k': ORDINAL)
    requires Lawful(p) && Inv(p, authority, S) && ExecutorInv(p, S, e) && !e.phase.Finished?
    requires (f, T) == StepExecutor(p, authority, e, S)
    requires EndsWithin(p, authority, e, k) && Halts(p, authority, e.command, [])
    ensures Inv(p, authority, T) && ExecutorInv(p, T, f) && f.command == e.command && EndsWithin(p, authority, f, k')
    ensures Work(f) < Work(e) || (Work(f) == Work(e) && k' < k)
  {
    ExecutorStepKeeps(p, authority, e, S);
    if Loading(e) {
      LoadStep(p, authority, e, S);
    } else {
      StepProgresses(p, authority, e, S);
    }
    k' := TurnNearer(p, authority, S, 0, e, f, k);
  }

  /**
   `execute`: looks up, evaluates, submits and reconciles until it is finished. With a handler that
   ends, the loop ends, and it does exactly what its steps do one after the other.
   */
  method Execute(handle: MemoryStore.Handle, c: Command) returns (e: Executor, ghost steps: nat)
    requires Lawful(handle.primitives) && Inv(handle.primitives, handle.authority, handle.shared.Snapshot())
    requires Halts(handle.primitives, handle.authority, c, []) && c.limits == handle.limits
    modifies handle.shared
    ensures e.phase.Finished?
    ensures (e, handle.shared.Snapshot())
      == Steps(handle.primitives, handle.authority, Executor(c, 0, LookingUp), old(handle.shared.Snapshot()), steps)
  {
    e, steps := Executor(c, 0, LookingUp), 0;
    ghost var p, authority, S0 := handle.primitives, handle.authority, handle.shared.Snapshot();
    ghost var start := e;
    ghost var k: ORDINAL := 0;
    while !e.phase.Finished?
      invariant Inv(p, authority, handle.shared.Snapshot()) && ExecutorInv(p, handle.shared.Snapshot(), e) && e.command == c
      invariant (e, handle.shared.Snapshot()) == Steps(p, authority, start, S0, steps)
      invariant EndsWithin(p, authority, e, k)
      decreases Work(e), k
    {
      ghost var before, S := e, handle.shared.Snapshot();
      if e.phase.Submitting? {
        SubmittedWellFormed(p, S, e);
      }
      e := Step(handle, e);
      steps := steps + 1;
      k := StepNearer(p, authority, S, before, e, handle.shared.Snapshot(), k);
    }
  }

  // ----- Without interference one evaluation is enough -----

  /** Every loaded history is still the stream's history. */
  predicate Current(S: State, trace: Trace) {
    forall k | 0 <= k < |trace| && trace[k].Loaded? :: trace[k].history == HistoryOf(S, trace[k].stream)
  }

  /** Nothing has gone stale, so at most one evaluation has begun. */
  predicate Undisturbed(S: State, e: Executor) {
    && e.evaluations <= 1
    && match e.phase
       case LookingUp => e.evaluations == 0
       case Running(trace) => Current(S, trace)
       case Submitting(trace, _) => Current(S, trace)
       case Reconciling(_, error) => error != Conflict
       case _ => true
  }

  lemma CurrentNotOutdated(S: State, trace: Trace)
    requires Current(S, trace)
    ensures !Outdated(S, trace)
  {
  }

  lemma LoadStaysCurrent(p: Primitives, c: Command, S: State, trace: Trace, context: Text, s: StreamId)
    requires Current(S, trace)
    ensures Current(S, trace + [Respond(p, c, S, trace, context, s)])
  {
    var r := Respond(p, c, S, trace, context, s);
    assert r.Loaded? ==> r.history == HistoryOf(S, r.stream);
  }

  lemma SubmitUndisturbed(p: Primitives, authority: Text, e: Executor, S: State)
    requires Inv(p, authority, S) && ExecutorInv(p, S, e) && Undisturbed(S, e) && e.phase.Submitting?
    ensures var (f, T) := StepExecutor(p, authority, e, S); Undisturbed(T, f)
  {
    var r := Commit(p, authority, e.command.limits, S, e.phase.proposal).1;
    if r == Err(Conflict) {
      ConflictIsGenuine(p, authority, e.command, S, e.phase.trace);
      CurrentNotOutdated(S, e.phase.trace);
    }
    assert Submitted(e.phase.trace, r).Reconciling? ==> Submitted(e.phase.trace, r).error != Conflict;
  }

  lemma LocalUndisturbed(p: Primitives, authority: Text, e: Executor, S: State)
    requires Inv(p, authority, S) && ExecutorInv(p, S, e) && Undisturbed(S, e) && !e.phase.Submitting?
    ensures Undisturbed(S, StepExecutor(p, authority, e, S).0)
  {
    match e.phase
    case LookingUp => LookUpKeeps(p, authority, e.command.metadata, S, Running([]));
    case Reconciling(_, error) => LookUpKeeps(p, authority, e.command.metadata, S, AfterConflict(e, error));
    case Running(trace) =>
      var choice := e.command.handler(trace);
      if choice.Load? {
        LoadStaysCurrent(p, e.command, S, trace, choice.context, choice.stream);
      }
    case Resolving(marker, replay, admitted) => ResolveKeeps(p, authority, e.command.metadata, S, marker, replay, admitted);
    case Finished(_) =>
  }

  lemma NextPairUndisturbed(p: Primitives, authority: Text, x: (Executor, State), y: (Executor, State))
    requires SoundPair(p, authority, x) && Undisturbed(x.1, x.0) && y == StepExecutor(p, authority, x.0, x.1)
    ensures Undisturbed(y.1, y.0)
  {
    if x.0.phase.Submitting? {
      SubmitUndisturbed(p, authority, x.0, x.1);
    } else {
      LocalStepKeeps(p, authority, x.0, x.1);
      LocalUndisturbed(p, authority, x.0, x.1);
    }
  }

  lemma {:induction false} StaysUndisturbed(p: Primitives, authority: Text, trail: seq<(Executor, State)>, n: nat)
    requires Lawful(p) && Trail(p, authority, trail) && n < |trail| && SoundPair(p, authority, trail[0]) && Undisturbed(trail[0].1, trail[0].0)
    ensures Undisturbed(trail[n].1, trail[n].0)
  {
    if n > 0 {
      StaysUndisturbed(p, authority, trail, n - 1);
      TrailSound(p, authority, trail, n - 1);
      NextPairUndisturbed(p, authority, trail[n - 1], trail[n]);
    }
  }

  /** Without interference an execution evaluates its handler at most once, and what it returns is recorded. */
  lemma UndisturbedOnce(p: Primitives, authority: Text, c: Command, S: State, n: nat)
    requires Lawful(p) && Inv(p, authority, S)
    ensures var (f, T) := Steps(p, authority, Executor(c, 0, LookingUp), S, n);
      && f.evaluations <= 1
      && (f.phase.Finished? && f.phase.result.Ok? ==> HoldsRecord(T, f.command.metadata, f.phase.result.value.marker))
  {
    var trail := TrailOf(p, authority, Executor(c, 0, LookingUp), S, n);
    StaysUndisturbed(p, authority, trail, n);
    TrailSound(p, authority, trail, n);
  }
}
