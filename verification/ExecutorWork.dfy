/** How much an execution does, and that it ends: for every handler, against every schedule. */
module ExecutorWork {
  import opened Wrappers
  import opened Identity
  import opened Records
  import opened Store
  import opened StoreInvariant
  import opened Executor
  import opened ExecutorSteps
  import opened ExecutorRuns

  // ----- Work that is not loading -----

  /** The next step of the executor is a load its handler asks for. */
  predicate Loading(e: Executor) {
    e.phase.Running? && e.command.handler(e.phase.trace).Load?
  }

  predicate Busy(e: Executor) {
    !e.phase.Finished? && !Loading(e)
  }

  function PhaseWork(phase: Phase): nat {
    match phase
    case Running(_) => 6
    case Submitting(_, _) => 5
    case Reconciling(_, _) => 4
    case LookingUp => 3
    case Resolving(_, _, admitted) => if admitted then 1 else 2
    case Finished(_) => 0
  }

  predicate MayEvaluate(phase: Phase) {
    phase.LookingUp? || phase.Running? || phase.Submitting? || phase.Reconciling?
  }

  /** How many steps other than loads the executor has left at most. */
  function Work(e: Executor): nat
    requires e.evaluations <= e.command.maximumRetries + 1
  {
    (if MayEvaluate(e.phase) then 4 * (e.command.maximumRetries + 1 - e.evaluations) else 0) + PhaseWork(e.phase)
  }

  /** Where a step that is not a load can lead. */
  ghost predicate Progresses(e: Executor, f: Executor) {
    && f.command == e.command
    && if e.phase.LookingUp? && f.phase.Running? then f.evaluations == e.evaluations + 1 && f.phase.trace == []
       else
         && f.evaluations == e.evaluations && !f.phase.Running?
         && PhaseWork(f.phase) < PhaseWork(e.phase) && (MayEvaluate(f.phase) ==> MayEvaluate(e.phase))
  }

  lemma LookUpProgresses(p: Primitives, authority: Text, e: Executor, S: State)
    requires Inv(p, authority, S) && (e.phase.LookingUp? || e.phase.Reconciling?)
    ensures Progresses(e, StepExecutor(p, authority, e, S).0)
  {
    LookUpKeeps(p, authority, e.command.metadata, S, if e.phase.LookingUp? then Running([]) else AfterConflict(e, e.phase.error));
  }

  lemma DecisionProgresses(p: Primitives, authority: Text, e: Executor, S: State)
    requires e.phase.Running? && !Loading(e)
    ensures Progresses(e, StepExecutor(p, authority, e, S).0)
  {
    var f := StepExecutor(p, authority, e, S).0;
    assert f == e.(phase := f.phase) && (f.phase.Submitting? || f.phase.Finished?);
  }

  lemma SubmissionProgresses(p: Primitives, authority: Text, e: Executor, S: State)
    requires e.phase.Submitting?
    ensures Progresses(e, StepExecutor(p, authority, e, S).0)
  {
    var f := StepExecutor(p, authority, e, S).0;
    assert f == e.(phase := f.phase) && (f.phase.Resolving? || f.phase.Reconciling? || f.phase.Finished?);
  }

  lemma ResolutionProgresses(p: Primitives, authority: Text, e: Executor, S: State)
    requires e.phase.Resolving? && HoldsRecord(S, e.command.metadata, e.phase.marker)
    ensures Progresses(e, StepExecutor(p, authority, e, S).0)
  {
    ResolveKeeps(p, authority, e.command.metadata, S, e.phase.marker, e.phase.replay, e.phase.admitted);
  }

  lemma StepProgresses(p: Primitives, authority: Text, e: Executor, S: State)
    requires Inv(p, authority, S) && ExecutorInv(p, S, e) && Busy(e)
    ensures Progresses(e, StepExecutor(p, authority, e, S).0)
  {
    match e.phase
    case LookingUp => LookUpProgresses(p, authority, e, S);
    case Reconciling(_, _) => LookUpProgresses(p, authority, e, S);
    case Running(_) => DecisionProgresses(p, authority, e, S);
    case Submitting(_, _) => SubmissionProgresses(p, authority, e, S);
    case Resolving(_, _, _) => ResolutionProgresses(p, authority, e, S);
  }

  lemma LoadStep(p: Primitives, authority: Text, e: Executor, S: State)
    requires Loading(e)
    ensures var choice := e.command.handler(e.phase.trace);
      StepExecutor(p, authority, e, S).0 ==
        e.(phase := Running(e.phase.trace + [Respond(p, e.command, S, e.phase.trace, choice.context, choice.stream)]))
  {
  }

  // ----- Along a schedule -----

  /** At its turn the executor loads, or its remaining work shrinks; at other moves it stays as it is. */
  ghost predicate Advances(p: Primitives, S: State, move: Move, i: nat, e: Executor, f: Executor) {
    if move != Turn(i) || e.phase.Finished? then f == e
    else if Loading(e) then
      var choice := e.command.handler(e.phase.trace);
      f == e.(phase := Running(e.phase.trace + [Respond(p, e.command, S, e.phase.trace, choice.context, choice.stream)]))
    else Progresses(e, f)
  }

  lemma SystemAdvances(p: Primitives, authority: Text, now: System, move: Move, i: nat)
    requires SystemInv(p, authority, now) && i < |now.executors|
    ensures |Step(p, authority, now, move).executors| == |now.executors|
    ensures Advances(p, now.store, move, i, now.executors[i], Step(p, authority, now, move).executors[i])
  {
    var e := now.executors[i];
    assert ExecutorInv(p, now.store, e);
    if move == Turn(i) && Loading(e) {
      LoadStep(p, authority, e, now.store);
    } else if move == Turn(i) && Busy(e) {
      StepProgresses(p, authority, e, now.store);
    }
  }

  lemma MoveAdvances(p: Primitives, authority: Text, sys: System, moves: seq<Move>, n: nat, i: nat)
    requires Lawful(p) && Initial(sys) && PermittedMoves(moves) && n < |moves| && i < |sys.executors|
    ensures |At(p, authority, sys, moves, n).executors| == |At(p, authority, sys, moves, n + 1).executors| == |sys.executors|
    ensures Advances(p, At(p, authority, sys, moves, n).store, moves[n], i,
                     At(p, authority, sys, moves, n).executors[i], At(p, authority, sys, moves, n + 1).executors[i])
  {
    CommandsFixed(p, authority, sys, moves, n);
    ReachableSound(p, authority, sys, moves, n);
    AtNext(p, authority, sys, moves, n);
    SystemAdvances(p, authority, At(p, authority, sys, moves, n), moves[n], i);
  }

  /** However adversarial the schedule and whatever the handler: at most m + 1 evaluations. */
  lemma EvaluationsBounded(p: Primitives, authority: Text, sys: System, moves: seq<Move>, i: nat, b: nat)
    requires Lawful(p) && Initial(sys) && PermittedMoves(moves) && i < |sys.executors| && b <= |moves|
    ensures |At(p, authority, sys, moves, b).executors| == |sys.executors|
    ensures var e := At(p, authority, sys, moves, b).executors[i];
      e.command == sys.executors[i].command && e.evaluations <= sys.executors[i].command.maximumRetries + 1
  {
    CommandsFixed(p, authority, sys, moves, b);
    ReachableSound(p, authority, sys, moves, b);
    assert ExecutorInv(p, At(p, authority, sys, moves, b).store, At(p, authority, sys, moves, b).executors[i]);
  }

  /** How often executor `i` has moved. */
  function Turns(moves: seq<Move>, i: nat, n: nat): nat
    requires n <= |moves|
  {
    if n == 0 then 0 else Turns(moves, i, n - 1) + (if moves[n - 1] == Turn(i) then 1 else 0)
  }

  /** The executor as it is before move `n`. */
  function ExecutorAt(p: Primitives, authority: Text, sys: System, moves: seq<Move>, i: nat, n: nat): Option<Executor>
    requires n <= |moves|
  {
    var now := At(p, authority, sys, moves, n);
    if i < |now.executors| then Some(now.executors[i]) else None
  }

  /** How many of the first `n` moves are loads of executor `i`. */
  function Loads(p: Primitives, authority: Text, sys: System, moves: seq<Move>, i: nat, n: nat): nat
    requires n <= |moves|
  {
    if n == 0 then 0
    else
      var e := ExecutorAt(p, authority, sys, moves, i, n - 1);
      Loads(p, authority, sys, moves, i, n - 1) + (if moves[n - 1] == Turn(i) && e.Some? && Loading(e.value) then 1 else 0)
  }

  /** How many of the first `n` moves are other steps of executor `i` before it is finished. */
  function Others(p: Primitives, authority: Text, sys: System, moves: seq<Move>, i: nat, n: nat): nat
    requires n <= |moves|
  {
    if n == 0 then 0
    else
      var e := ExecutorAt(p, authority, sys, moves, i, n - 1);
      Others(p, authority, sys, moves, i, n - 1) + (if moves[n - 1] == Turn(i) && e.Some? && Busy(e.value) then 1 else 0)
  }

  lemma AdvanceWorks(p: Primitives, S: State, move: Move, i: nat, e: Executor, f: Executor)
    requires Advances(p, S, move, i, e, f)
    requires e.evaluations <= e.command.maximumRetries + 1 && f.evaluations <= f.command.maximumRetries + 1
    ensures Work(f) + (if move == Turn(i) && Busy(e) then 1 else 0) <= Work(e)
  {
  }

  /** Whatever the handler and the schedule, the steps other than loads number at most 4 * (m + 1) + 3. */
  lemma {:induction false} BoundedWork(p: Primitives, authority: Text, sys: System, moves: seq<Move>, i: nat, b: nat)
    requires Lawful(p) && Initial(sys) && PermittedMoves(moves) && i < |sys.executors| && b <= |moves|
    ensures |At(p, authority, sys, moves, b).executors| == |sys.executors|
    ensures var e := At(p, authority, sys, moves, b).executors[i]; var m := sys.executors[i].command.maximumRetries;
      && e.command.maximumRetries == m && e.evaluations <= m + 1
      && Others(p, authority, sys, moves, i, b) + Work(e) <= 4 * (m + 1) + 3
  {
    EvaluationsBounded(p, authority, sys, moves, i, b);
    if b > 0 {
      BoundedWork(p, authority, sys, moves, i, b - 1);
      MoveAdvances(p, authority, sys, moves, b - 1, i);
      AdvanceWorks(p, At(p, authority, sys, moves, b - 1).store, moves[b - 1], i,
                   At(p, authority, sys, moves, b - 1).executors[i], At(p, authority, sys, moves, b).executors[i]);
    }
  }

  /** Until it is finished, every turn of an executor is a load or one of the others. */
  lemma {:induction false} TurnsSplit(p: Primitives, authority: Text, sys: System, moves: seq<Move>, i: nat, b: nat)
    requires Lawful(p) && Initial(sys) && PermittedMoves(moves) && i < |sys.executors| && b <= |moves|
    requires |At(p, authority, sys, moves, b).executors| == |sys.executors|
    requires !At(p, authority, sys, moves, b).executors[i].phase.Finished?
    ensures Turns(moves, i, b) == Loads(p, authority, sys, moves, i, b) + Others(p, authority, sys, moves, i, b)
  {
    if b > 0 {
      MoveAdvances(p, authority, sys, moves, b - 1, i);
      TurnsSplit(p, authority, sys, moves, i, b - 1);
    }
  }

  /** So an executor that has had more turns than its loads and 4 * (m + 1) + 3 is finished, for every handler. */
  lemma FinishedUnlessLoading(p: Primitives, authority: Text, sys: System, moves: seq<Move>, i: nat, b: nat)
    requires Lawful(p) && Initial(sys) && PermittedMoves(moves) && i < |sys.executors| && b <= |moves|
    requires Turns(moves, i, b) >= Loads(p, authority, sys, moves, i, b) + 4 * (sys.executors[i].command.maximumRetries + 1) + 3
    ensures |At(p, authority, sys, moves, b).executors| == |sys.executors|
    ensures At(p, authority, sys, moves, b).executors[i].phase.Finished?
  {
    BoundedWork(p, authority, sys, moves, i, b);
    if !At(p, authority, sys, moves, b).executors[i].phase.Finished? {
      TurnsSplit(p, authority, sys, moves, i, b);
    }
  }

  // ----- Handlers with a uniform bound -----

  /** The handler decides after at most `n` responses. */
  ghost predicate DecidesWithin(c: Command, n: nat) {
    forall trace: Trace | |trace| >= n :: !c.handler(trace).Load?
  }

  /** The loads of `k` evaluations of at most `n` responses each. */
  function Total(k: nat, n: nat): nat {
    if k == 0 then 0 else Total(k - 1, n) + n
  }

  lemma {:induction false} TotalIsProduct(k: nat, n: nat)
    ensures Total(k, n) == k * n
  {
    if k > 0 {
      TotalIsProduct(k - 1, n);
    }
  }

  lemma {:induction false} TotalGrows(k: nat, m: nat, n: nat)
    requires k <= m
    ensures Total(k, n) <= Total(m, n)
  {
    if k < m {
      TotalGrows(k, m - 1, n);
    }
  }

  /** The loads so far fit the evaluations so far. */
  predicate LoadsFit(e: Executor, loads: nat, n: nat) {
    if e.phase.Running? then e.evaluations > 0 && |e.phase.trace| <= n && loads <= Total(e.evaluations - 1, n) + |e.phase.trace|
    else loads <= Total(e.evaluations, n)
  }

  lemma AdvanceFits(p: Primitives, S: State, move: Move, i: nat, e: Executor, f: Executor, loads: nat, n: nat)
    requires Advances(p, S, move, i, e, f) && LoadsFit(e, loads, n) && DecidesWithin(e.command, n)
    ensures LoadsFit(f, loads + (if move == Turn(i) && Loading(e) then 1 else 0), n)
  {
    if Loading(e) {
      assert |e.phase.trace| < n;
    }
  }

  lemma {:induction false} LoadsBounded(p: Primitives, authority: Text, sys: System, moves: seq<Move>, i: nat, n: nat, b: nat)
    requires Lawful(p) && Initial(sys) && PermittedMoves(moves) && i < |sys.executors| && b <= |moves|
    requires DecidesWithin(sys.executors[i].command, n)
    ensures |At(p, authority, sys, moves, b).executors| == |sys.executors|
    ensures LoadsFit(At(p, authority, sys, moves, b).executors[i], Loads(p, authority, sys, moves, i, b), n)
  {
    EvaluationsBounded(p, authority, sys, moves, i, b);
    if b > 0 {
      LoadsBounded(p, authority, sys, moves, i, n, b - 1);
      EvaluationsBounded(p, authority, sys, moves, i, b - 1);
      MoveAdvances(p, authority, sys, moves, b - 1, i);
      AdvanceFits(p, At(p, authority, sys, moves, b - 1).store, moves[b - 1], i, At(p, authority, sys, moves, b - 1).executors[i],
                  At(p, authority, sys, moves, b).executors[i], Loads(p, authority, sys, moves, i, b - 1), n);
    }
  }

  /** With a handler that decides within n responses, (m + 1) * (n + 4) + 3 own steps finish the execution. */
  lemma EventuallyFinished(p: Primitives, authority: Text, sys: System, moves: seq<Move>, i: nat, n: nat, b: nat)
    requires Lawful(p) && Initial(sys) && PermittedMoves(moves) && i < |sys.executors| && b <= |moves|
    requires DecidesWithin(sys.executors[i].command, n)
    requires Turns(moves, i, b) >= (sys.executors[i].command.maximumRetries + 1) * (n + 4) + 3
    ensures |At(p, authority, sys, moves, b).executors| == |sys.executors|
    ensures At(p, authority, sys, moves, b).executors[i].phase.Finished?
  {
    var m := sys.executors[i].command.maximumRetries + 1;
    LoadsBounded(p, authority, sys, moves, i, n, b);
    EvaluationsBounded(p, authority, sys, moves, i, b);
    var e := At(p, authority, sys, moves, b).executors[i];
    LoadsFitTotal(e, Loads(p, authority, sys, moves, i, b), n, m);
    TotalIsProduct(m, n);
    assert m * (n + 4) == m * n + 4 * m;
    FinishedUnlessLoading(p, authority, sys, moves, i, b);
  }

  lemma LoadsFitTotal(e: Executor, loads: nat, n: nat, m: nat)
    requires LoadsFit(e, loads, n) && e.evaluations <= m
    ensures loads <= Total(m, n)
  {
    TotalGrows(e.evaluations, m, n);
  }

  // ----- Handlers that end, without any uniform bound -----

  /**
   The handler ends: however the store stands and grows behind its loads, it asks for finitely many.
   How many may depend on everything it is shown.
   */
  least predicate Halts(p: Primitives, authority: Text, c: Command, trace: Trace) {
    c.handler(trace).Load? ==>
      forall S | Inv(p, authority, S) && TraceStands(p, c, S, trace) :: Halts(p, authority, c, Shown(p, c, S, trace))
  }

  /** The trace with the store's answer to the next load. */
  function Shown(p: Primitives, c: Command, S: State, trace: Trace): Trace
    requires c.handler(trace).Load?
  {
    var choice := c.handler(trace);
    trace + [Respond(p, c, S, trace, choice.context, choice.stream)]
  }

  /** Each load brings the end of the handler nearer. */
  lemma {:induction false} HaltsNearer(p: Primitives, authority: Text, c: Command, trace: Trace, k: ORDINAL, S: State) returns (k': ORDINAL)
    requires Halts#[k](p, authority, c, trace) && c.handler(trace).Load? && Inv(p, authority, S) && TraceStands(p, c, S, trace)
    ensures k' < k && Halts#[k'](p, authority, c, Shown(p, c, S, trace))
    decreases k
  {
    if k.Offset > 0 {
      k' := k - 1;
    } else {
      var j: ORDINAL :| j < k && Halts#[j](p, authority, c, trace);
      k' := HaltsNearer(p, authority, c, trace, j, S);
    }
  }

  /** A schedule without end. */
  type Schedule = nat -> Move

  function Prefix(schedule: Schedule, n: nat): (moves: seq<Move>)
    ensures |moves| == n && forall k | 0 <= k < n :: moves[k] == schedule(k)
  {
    seq(n, k requires 0 <= k < n => schedule(k))
  }

  /** The system after the first `n` moves of an endless schedule. */
  function Moment(p: Primitives, authority: Text, sys: System, schedule: Schedule, n: nat): System {
    Run(p, authority, sys, Prefix(schedule, n))
  }

  ghost predicate PermittedSchedule(schedule: Schedule) {
    forall n: nat | schedule(n).Environment? :: Permitted(schedule(n).op)
  }

  ghost predicate TurnComes(schedule: Schedule, i: nat, n: nat) {
    exists m: nat :: m >= n && schedule(m) == Turn(i)
  }

  /** Executor `i` gets a turn again and again. */
  ghost predicate Fair(schedule: Schedule, i: nat) {
    forall n: nat :: TurnComes(schedule, i, n)
  }

  lemma MomentNext(p: Primitives, authority: Text, sys: System, schedule: Schedule, n: nat, i: nat)
    requires Lawful(p) && Initial(sys) && PermittedSchedule(schedule) && i < |sys.executors|
    ensures var now, next := Moment(p, authority, sys, schedule, n), Moment(p, authority, sys, schedule, n + 1);
      && |now.executors| == |next.executors| == |sys.executors|
      && SystemInv(p, authority, now) && SystemInv(p, authority, next)
      && now.executors[i].command == next.executors[i].command == sys.executors[i].command
      && Advances(p, now.store, schedule(n), i, now.executors[i], next.executors[i])
  {
    var moves := Prefix(schedule, n + 1);
    assert moves[..n] == Prefix(schedule, n) && moves[..n + 1] == moves;
    MoveAdvances(p, authority, sys, moves, n, i);
    ReachableSound(p, authority, sys, moves, n);
    ReachableSound(p, authority, sys, moves, n + 1);
    CommandsFixed(p, authority, sys, moves, n);
    CommandsFixed(p, authority, sys, moves, n + 1);
  }

  /** The next turn of executor `i` finds it as it was. */
  lemma {:induction false} NextTurn(p: Primitives, authority: Text, sys: System, schedule: Schedule, n: nat, m: nat, i: nat) returns (t: nat)
    requires Lawful(p) && Initial(sys) && PermittedSchedule(schedule) && i < |sys.executors|
    requires n <= m && schedule(m) == Turn(i)
    ensures n <= t && schedule(t) == Turn(i)
    ensures |Moment(p, authority, sys, schedule, n).executors| == |Moment(p, authority, sys, schedule, t).executors| == |sys.executors|
    ensures Moment(p, authority, sys, schedule, t).executors[i] == Moment(p, authority, sys, schedule, n).executors[i]
    decreases m - n
  {
    MomentNext(p, authority, sys, schedule, n, i);
    if schedule(n) == Turn(i) {
      t := n;
    } else {
      t := NextTurn(p, authority, sys, schedule, n + 1, m, i);
    }
  }

  /** A running executor's handler ends within `k`; any other phase has nothing to show. */
  ghost predicate EndsWithin(p: Primitives, authority: Text, e: Executor, k: ORDINAL) {
    e.phase.Running? ==> Halts#[k](p, authority, e.command, e.phase.trace)
  }

  /** The executor after its own next turn has less work, or as much and a handler nearer to its end. */
  lemma TurnNearer(p: Primitives, authority: Text, S: State, i: nat, e: Executor, f: Executor, k: ORDINAL) returns (k': ORDINAL)
    requires Inv(p, authority, S) && ExecutorInv(p, S, e) && Advances(p, S, Turn(i), i, e, f) && !e.phase.Finished?
    requires f.evaluations <= f.command.maximumRetries + 1
    requires EndsWithin(p, authority, e, k) && Halts(p, authority, e.command, [])
    ensures EndsWithin(p, authority, f, k') && f.command == e.command
    ensures Work(f) < Work(e) || (Work(f) == Work(e) && k' < k)
  {
    if Loading(e) {
      k' := HaltsNearer(p, authority, e.command, e.phase.trace, k, S);
    } else {
      var j: ORDINAL :| Halts#[j](p, authority, e.command, []);
      k' := j;
    }
  }

  /**
   Every execution ends: with a handler that ends, however many loads that takes, an execution that
   gets a turn again and again is finished at some moment, against any schedule.
   */
  lemma EveryExecutionEnds(p: Primitives, authority: Text, sys: System, schedule: Schedule, i: nat) returns (b: nat)
    requires Lawful(p) && Initial(sys) && PermittedSchedule(schedule) && Fair(schedule, i) && i < |sys.executors|
    requires Halts(p, authority, sys.executors[i].command, [])
    ensures |Moment(p, authority, sys, schedule, b).executors| == |sys.executors|
    ensures Moment(p, authority, sys, schedule, b).executors[i].phase.Finished?
  {
    MomentNext(p, authority, sys, schedule, 0, i);
    assert Prefix(schedule, 0) == [];
    b := EndsFrom(p, authority, sys, schedule, i, 0, 0);
  }

  /** The executor at moment `n` is within its bound and its handler ends within `k`. */
  ghost predicate Ready(p: Primitives, authority: Text, sys: System, schedule: Schedule, i: nat, n: nat, k: ORDINAL) {
    var now := Moment(p, authority, sys, schedule, n);
    && i < |now.executors| == |sys.executors| && now.executors[i].command == sys.executors[i].command
    && now.executors[i].evaluations <= now.executors[i].command.maximumRetries + 1
    && EndsWithin(p, authority, now.executors[i], k)
  }

  lemma {:induction false} EndsFrom(p: Primitives, authority: Text, sys: System, schedule: Schedule, i: nat, n: nat, k: ORDINAL) returns (b: nat)
    requires Lawful(p) && Initial(sys) && PermittedSchedule(schedule) && Fair(schedule, i) && i < |sys.executors|
    requires Halts(p, authority, sys.executors[i].command, []) && Ready(p, authority, sys, schedule, i, n, k)
    ensures |Moment(p, authority, sys, schedule, b).executors| == |sys.executors|
    ensures Moment(p, authority, sys, schedule, b).executors[i].phase.Finished?
    decreases Work(Moment(p, authority, sys, schedule, n).executors[i]), k
  {
    if Moment(p, authority, sys, schedule, n).executors[i].phase.Finished? {
      b := n;
    } else {
      var n', k' := Nearer(p, authority, sys, schedule, i, n, k);
      b := EndsFrom(p, authority, sys, schedule, i, n', k');
    }
  }

  lemma Nearer(p: Primitives, authority: Text, sys: System, schedule: Schedule, i: nat, n: nat, k: ORDINAL) returns (n': nat, k': ORDINAL)
    requires Lawful(p) && Initial(sys) && PermittedSchedule(schedule) && Fair(schedule, i) && i < |sys.executors|
    requires Halts(p, authority, sys.executors[i].command, []) && Ready(p, authority, sys, schedule, i, n, k)
    requires !Moment(p, authority, sys, schedule, n).executors[i].phase.Finished?
    ensures Ready(p, authority, sys, schedule, i, n', k')
    ensures var w, w' := Work(Moment(p, authority, sys, schedule, n).executors[i]), Work(Moment(p, authority, sys, schedule, n').executors[i]);
      w' < w || (w' == w && k' < k)
  {
    assert TurnComes(schedule, i, n);
    var m: nat :| m >= n && schedule(m) == Turn(i);
    var t := NextTurn(p, authority, sys, schedule, n, m, i);
    n' := t + 1;
    k' := NearerAt(p, authority, sys, schedule, i, t, k);
  }

  lemma NearerAt(p: Primitives, authority: Text, sys: System, schedule: Schedule, i: nat, t: nat, k: ORDINAL) returns (k': ORDINAL)
    requires Lawful(p) && Initial(sys) && PermittedSchedule(schedule) && i < |sys.executors| && schedule(t) == Turn(i)
    requires Halts(p, authority, sys.executors[i].command, []) && Ready(p, authority, sys, schedule, i, t, k)
    requires !Moment(p, authority, sys, schedule, t).executors[i].phase.Finished?
    ensures Ready(p, authority, sys, schedule, i, t + 1, k')
    ensures var w, w' := Work(Moment(p, authority, sys, schedule, t).executors[i]), Work(Moment(p, authority, sys, schedule, t + 1).executors[i]);
      w' < w || (w' == w && k' < k)
  {
    MomentNext(p, authority, sys, schedule, t, i);
    var now, next := Moment(p, authority, sys, schedule, t), Moment(p, authority, sys, schedule, t + 1);
    assert ExecutorInv(p, now.store, now.executors[i]) && ExecutorInv(p, next.store, next.executors[i]);
    k' := TurnNearer(p, authority, now.store, i, now.executors[i], next.executors[i], k);
  }

  /** A handler with a uniform bound ends. */
  lemma {:induction false} DecidingHalts(p: Primitives, authority: Text, c: Command, n: nat, trace: Trace)
    requires DecidesWithin(c, n)
    ensures Halts(p, authority, c, trace)
    decreases if |trace| < n then n - |trace| else 0
  {
    if c.handler(trace).Load? {
      forall S | Inv(p, authority, S) && TraceStands(p, c, S, trace) ensures Halts(p, authority, c, Shown(p, c, S, trace)) {
        DecidingHalts(p, authority, c, n, Shown(p, c, S, trace));
      }
    }
  }

  /** A handler that loads one stream and then as many more as that stream has events. */
  function Adaptive(context: Text, stream: StreamId, next: nat -> StreamId): Trace -> Choice {
    (trace: Trace) =>
      if |trace| == 0 then Load(context, stream)
      else if trace[0].Loaded? && |trace| <= |trace[0].history| then Load(context, next(|trace|))
      else Accept([])
  }

  /** It ends, although no number of responses bounds it. */
  lemma {:induction false} AdaptiveHalts(p: Primitives, authority: Text, c: Command, context: Text, stream: StreamId, next: nat -> StreamId, trace: Trace)
    requires c.handler == Adaptive(context, stream, next) && |trace| > 0
    ensures Halts(p, authority, c, trace)
    decreases if trace[0].Loaded? && |trace| <= |trace[0].history| then |trace[0].history| - |trace| + 1 else 0
  {
    if c.handler(trace).Load? {
      forall S | Inv(p, authority, S) && TraceStands(p, c, S, trace) ensures Halts(p, authority, c, Shown(p, c, S, trace)) {
        AdaptiveHalts(p, authority, c, context, stream, next, Shown(p, c, S, trace));
      }
    }
  }

  /** So ending asks for less than a uniform bound does. */
  lemma EndingNeedsNoBound(p: Primitives, authority: Text, c: Command, context: Text, stream: StreamId, next: nat -> StreamId, e: RecordedEvent, n: nat)
    requires c.handler == Adaptive(context, stream, next)
    ensures Halts(p, authority, c, []) && !DecidesWithin(c, n)
  {
    forall S | Inv(p, authority, S) && TraceStands(p, c, S, []) ensures Halts(p, authority, c, Shown(p, c, S, [])) {
      AdaptiveHalts(p, authority, c, context, stream, next, Shown(p, c, S, []));
    }
    var long := Loaded(stream, seq(n + 1, _ => e));
    var trace: Trace := seq(n + 1, _ => long);
    assert trace[0] == long && c.handler(trace).Load?;
  }

  // ----- Retries -----

  lemma RetryStep(p: Primitives, authority: Text, e: Executor, S: State)
    requires ExecutorInv(p, S, e) && !e.phase.LookingUp? && StepExecutor(p, authority, e, S).0.phase.LookingUp?
    ensures e.phase.Reconciling? && e.phase.error == Conflict && Outdated(S, e.phase.trace)
    ensures KeyFor(e.command.metadata) !in S.transactions && e.evaluations <= e.command.maximumRetries
  {
  }

  /**
   In every schedule, a retry happens only on a genuine version conflict for which no winner is
   recorded, with the bound not used up; never on an identity conflict.
   */
  lemma RetryIsGenuine(p: Primitives, authority: Text, sys: System, moves: seq<Move>, n: nat, i: nat)
    requires Lawful(p) && Initial(sys) && PermittedMoves(moves) && n < |moves| && moves[n] == Turn(i) && i < |sys.executors|
    requires |At(p, authority, sys, moves, n).executors| == |At(p, authority, sys, moves, n + 1).executors| == |sys.executors|
    requires !At(p, authority, sys, moves, n).executors[i].phase.LookingUp?
    requires At(p, authority, sys, moves, n + 1).executors[i].phase.LookingUp?
    ensures var now := At(p, authority, sys, moves, n); var e := now.executors[i];
      && e.phase.Reconciling? && e.phase.error == Conflict && Outdated(now.store, e.phase.trace)
      && KeyFor(sys.executors[i].command.metadata) !in now.store.transactions
      && e.evaluations <= sys.executors[i].command.maximumRetries
  {
    ReachableSound(p, authority, sys, moves, n);
    CommandsFixed(p, authority, sys, moves, n);
    TurnSteps(p, authority, sys, moves, n, i);
    var now := At(p, authority, sys, moves, n);
    assert ExecutorInv(p, now.store, now.executors[i]);
    RetryStep(p, authority, now.executors[i], now.store);
  }
}
