/** The guarantees of the durable command protocol, over every schedule of every system. */
module ExecutorRuns {
  import opened Wrappers
  import opened Identity
  import opened Records
  import opened Proposal
  import opened Receipts
  import opened Outcome
  import opened Store
  import opened StoreInvariant
  import opened StoreSteps
  import opened StoreRuns
  import opened Executor
  import opened ExecutorSteps
  import History

  lemma InitialSound(p: Primitives, authority: Text, sys: System)
    requires Initial(sys)
    ensures SystemInv(p, authority, sys)
  {
    EmptyStoreSound(p, authority);
  }

  /** The system after the first `n` moves of the schedule. */
  function At(p: Primitives, authority: Text, sys: System, moves: seq<Move>, n: nat): System
    requires n <= |moves|
  {
    Run(p, authority, sys, moves[..n])
  }

  lemma AtNext(p: Primitives, authority: Text, sys: System, moves: seq<Move>, n: nat)
    requires n < |moves|
    ensures At(p, authority, sys, moves, n + 1) == Step(p, authority, At(p, authority, sys, moves, n), moves[n])
  {
    assert moves[..n + 1][..n] == moves[..n];
  }

  /** Every reachable system satisfies the invariant. */
  lemma {:induction false} ReachableSound(p: Primitives, authority: Text, sys: System, moves: seq<Move>, n: nat)
    requires Lawful(p) && Initial(sys) && PermittedMoves(moves) && n <= |moves|
    ensures SystemInv(p, authority, At(p, authority, sys, moves, n))
  {
    if n == 0 {
      InitialSound(p, authority, sys);
    } else {
      ReachableSound(p, authority, sys, moves, n - 1);
      AtNext(p, authority, sys, moves, n - 1);
      StepKeeps(p, authority, At(p, authority, sys, moves, n - 1), moves[n - 1]);
    }
  }

  /** Between any two moments the store only grows. */
  lemma {:induction false} StoreGrows(p: Primitives, authority: Text, sys: System, moves: seq<Move>, a: nat, b: nat)
    requires Lawful(p) && Initial(sys) && PermittedMoves(moves) && a <= b <= |moves|
    ensures Evolves(At(p, authority, sys, moves, a).store, At(p, authority, sys, moves, b).store)
    decreases b
  {
    if a == b {
      NothingEvolves(At(p, authority, sys, moves, a).store);
    } else {
      StoreGrows(p, authority, sys, moves, a, b - 1);
      ReachableSound(p, authority, sys, moves, b - 1);
      AtNext(p, authority, sys, moves, b - 1);
      StepKeeps(p, authority, At(p, authority, sys, moves, b - 1), moves[b - 1]);
      EvolvesTransitive(At(p, authority, sys, moves, a).store, At(p, authority, sys, moves, b - 1).store, At(p, authority, sys, moves, b).store);
    }
  }

  lemma {:induction false} CommandsFixed(p: Primitives, authority: Text, sys: System, moves: seq<Move>, n: nat)
    requires n <= |moves|
    ensures var now := At(p, authority, sys, moves, n);
      |now.executors| == |sys.executors|
      && forall i | 0 <= i < |sys.executors| :: now.executors[i].command == sys.executors[i].command
  {
    if n > 0 {
      CommandsFixed(p, authority, sys, moves, n - 1);
      AtNext(p, authority, sys, moves, n - 1);
    }
  }

  // ----- Serializability -----

  /**
   What a move may do to the store: a direct mutation is performed as it is; a turn changes nothing,
   or is one atomic execution of that executor's command with exactly what its handler was shown.
   */
  ghost predicate SerialMove(p: Primitives, authority: Text, now: System, move: Move, T: State) {
    match move
    case Environment(op) => T == Perform(p, authority, now.store, op)
    case Turn(i) =>
      || T == now.store
      || (i < |now.executors| && now.executors[i].phase.Submitting?
          && AtomicExecution(p, authority, now.executors[i].command, now.store, T, now.executors[i].phase.trace))
  }

  lemma SubmitIsSerial(p: Primitives, authority: Text, e: Executor, S: State)
    requires Inv(p, authority, S) && ExecutorInv(p, S, e)
    ensures var T := StepExecutor(p, authority, e, S).1;
      T == S || (e.phase.Submitting? && AtomicExecution(p, authority, e.command, S, T, e.phase.trace))
  {
    if e.phase.Submitting? {
      var c, trace, t := e.command, e.phase.trace, e.phase.proposal;
      var (T, r) := Commit(p, authority, c.limits, S, t);
      if r.Ok? && !r.value.1 {
        NewCommitIsAtomic(p, authority, c, S, trace);
        assert AtomicExecution(p, authority, c, S, T, trace);
      } else {
        RefusedChangesNothing(p, authority, c.limits, S, t);
      }
    }
  }

  /** Errors and replays change nothing. */
  lemma RefusedChangesNothing(p: Primitives, authority: Text, limits: Limits, S: State, t: EventTransaction)
    ensures var (T, r) := Commit(p, authority, limits, S, t); r.Err? || r.value.1 ==> T == S
  {
  }

  /**
   Serializability, move by move: whatever the interleaving, each turn of an executor that changes
   the store is a single-step execution of its command: all loads, the decision and the commit.
   */
  lemma EveryMoveIsSerial(p: Primitives, authority: Text, sys: System, moves: seq<Move>, n: nat)
    requires Lawful(p) && Initial(sys) && PermittedMoves(moves) && n < |moves|
    ensures SerialMove(p, authority, At(p, authority, sys, moves, n), moves[n], At(p, authority, sys, moves, n + 1).store)
  {
    ReachableSound(p, authority, sys, moves, n);
    AtNext(p, authority, sys, moves, n);
    SystemMoveIsSerial(p, authority, At(p, authority, sys, moves, n), moves[n]);
  }

  lemma SystemMoveIsSerial(p: Primitives, authority: Text, now: System, move: Move)
    requires SystemInv(p, authority, now)
    ensures SerialMove(p, authority, now, move, Step(p, authority, now, move).store)
  {
    if move.Turn? && move.i < |now.executors| {
      SubmitIsSerial(p, authority, now.executors[move.i], now.store);
    }
  }

  // ----- The whole run as a serial one -----

  /** One entry of a serial run: a direct mutation, or a whole command executed in a single step. */
  datatype Serial = Mutation(op: Operation) | Execution(i: nat, trace: Trace)

  function Commands(sys: System): seq<Command> {
    seq(|sys.executors|, i requires 0 <= i < |sys.executors| => sys.executors[i].command)
  }

  ghost predicate SerialStep(p: Primitives, authority: Text, commands: seq<Command>, S: State, x: Serial, T: State) {
    match x
    case Mutation(op) => T == Perform(p, authority, S, op)
    case Execution(i, trace) => i < |commands| && AtomicExecution(p, authority, commands[i], S, T, trace)
  }

  /** The states lead from one to the next by the entries, as the relation says. */
  predicate LinkedBy(R: (State, Serial, State) -> bool, states: seq<State>, xs: seq<Serial>) {
    |states| == |xs| + 1 && forall k | 0 <= k < |xs| :: R(states[k], xs[k], states[k + 1])
  }

  /** Each state follows from the one before by a direct mutation or one atomic execution. */
  ghost predicate SerialRun(p: Primitives, authority: Text, commands: seq<Command>, states: seq<State>, xs: seq<Serial>) {
    LinkedBy((S, x, T) => SerialStep(p, authority, commands, S, x, T), states, xs)
  }

  function DirectsOf(xs: seq<Serial>): seq<Operation> {
    if |xs| == 0 then []
    else
      var last := xs[|xs| - 1];
      if last.Mutation? then DirectsOf(xs[..|xs| - 1]) + [last.op] else DirectsOf(xs[..|xs| - 1])
  }

  /** The direct mutations of the schedule, in order. */
  function EnvironmentOf(moves: seq<Move>): seq<Operation> {
    if |moves| == 0 then []
    else
      var last := moves[|moves| - 1];
      if last.Environment? then EnvironmentOf(moves[..|moves| - 1]) + [last.op] else EnvironmentOf(moves[..|moves| - 1])
  }

  /** Every executed key is recorded in the state, and no key is executed twice. */
  predicate ExecutedOnce(commands: seq<Command>, xs: seq<Serial>, S: State) {
    && (forall k | 0 <= k < |xs| && xs[k].Execution? ::
          xs[k].i < |commands| && KeyFor(commands[xs[k].i].metadata) in S.transactions)
    && (forall j, k | 0 <= j < k < |xs| && xs[j].Execution? && xs[k].Execution? && xs[j].i < |commands| && xs[k].i < |commands| ::
          KeyFor(commands[xs[j].i].metadata) != KeyFor(commands[xs[k].i].metadata))
  }

  /** A run of the serial kind from the empty store to the given one, with the given direct mutations. */
  ghost predicate Serializes(p: Primitives, authority: Text, commands: seq<Command>, states: seq<State>, xs: seq<Serial>, directs: seq<Operation>, T: State) {
    && SerialRun(p, authority, commands, states, xs)
    && states[0] == EMPTY && states[|xs|] == T
    && DirectsOf(xs) == directs
    && ExecutedOnce(commands, xs, T)
  }

  /**
   Serializability of whole runs: whatever the interleaving, the store is reached from the empty one
   by the schedule's own direct mutations, in order, and whole commands executed one at a time, each
   key at most once.
   */
  lemma {:induction false} EveryRunIsSerial(p: Primitives, authority: Text, sys: System, moves: seq<Move>, n: nat) returns (states: seq<State>, xs: seq<Serial>)
    requires Lawful(p) && Initial(sys) && PermittedMoves(moves) && n <= |moves|
    ensures Serializes(p, authority, Commands(sys), states, xs, EnvironmentOf(moves[..n]), At(p, authority, sys, moves, n).store)
  {
    if n == 0 {
      states, xs := [EMPTY], [];
      NothingSerial(p, authority, sys, moves);
    } else {
      var earlier, ys := EveryRunIsSerial(p, authority, sys, moves, n - 1);
      states, xs := OneMoveMore(p, authority, sys, moves, n, earlier, ys);
    }
  }

  lemma NothingSerial(p: Primitives, authority: Text, sys: System, moves: seq<Move>)
    requires Initial(sys)
    ensures Serializes(p, authority, Commands(sys), [EMPTY], [], EnvironmentOf(moves[..0]), At(p, authority, sys, moves, 0).store)
  {
  }

  /** What a move brings, as far as serial runs are concerned. */
  ghost predicate Moves(p: Primitives, authority: Text, sys: System, now: System, move: Move, T: State) {
    && SerialMove(p, authority, now, move, T) && Evolves(now.store, T)
    && |now.executors| == |sys.executors|
    && forall i | 0 <= i < |sys.executors| :: now.executors[i].command == sys.executors[i].command
  }

  lemma MoveMoves(p: Primitives, authority: Text, sys: System, moves: seq<Move>, n: nat)
    requires Lawful(p) && Initial(sys) && PermittedMoves(moves) && n < |moves|
    ensures Moves(p, authority, sys, At(p, authority, sys, moves, n), moves[n], At(p, authority, sys, moves, n + 1).store)
  {
    EveryMoveIsSerial(p, authority, sys, moves, n);
    StoreGrows(p, authority, sys, moves, n, n + 1);
    CommandsFixed(p, authority, sys, moves, n);
  }

  lemma OneMoveMore(p: Primitives, authority: Text, sys: System, moves: seq<Move>, n: nat, earlier: seq<State>, ys: seq<Serial>)
    returns (states: seq<State>, xs: seq<Serial>)
    requires Lawful(p) && Initial(sys) && PermittedMoves(moves) && 0 < n <= |moves|
    requires Serializes(p, authority, Commands(sys), earlier, ys, EnvironmentOf(moves[..n - 1]), At(p, authority, sys, moves, n - 1).store)
    ensures Serializes(p, authority, Commands(sys), states, xs, EnvironmentOf(moves[..n]), At(p, authority, sys, moves, n).store)
  {
    MoveMoves(p, authority, sys, moves, n - 1);
    EnvironmentSnoc(moves, n - 1);
    states, xs := SerialExtends(p, authority, sys, At(p, authority, sys, moves, n - 1), moves[n - 1],
                                At(p, authority, sys, moves, n).store, earlier, ys, EnvironmentOf(moves[..n - 1]));
  }

  lemma EnvironmentSnoc(moves: seq<Move>, n: nat)
    requires n < |moves|
    ensures EnvironmentOf(moves[..n + 1]) ==
      if moves[n].Environment? then EnvironmentOf(moves[..n]) + [moves[n].op] else EnvironmentOf(moves[..n])
  {
    assert moves[..n + 1][..n] == moves[..n];
  }

  /** One more move of the schedule extends the serial run by at most one entry. */
  lemma SerialExtends(p: Primitives, authority: Text, sys: System, now: System, move: Move, T: State, states: seq<State>, xs: seq<Serial>, directs: seq<Operation>)
    returns (states': seq<State>, xs': seq<Serial>)
    requires Serializes(p, authority, Commands(sys), states, xs, directs, now.store)
    requires Moves(p, authority, sys, now, move, T)
    ensures Serializes(p, authority, Commands(sys), states', xs', if move.Environment? then directs + [move.op] else directs, T)
  {
    if move.Turn? && T == now.store {
      states', xs' := states, xs;
    } else {
      var x := if move.Environment? then Mutation(move.op) else Execution(move.i, now.executors[move.i].phase.trace);
      if x.Execution? {
        ExecutionRecords(p, authority, Commands(sys)[x.i], now.store, T, x.trace);
      }
      states', xs' := states + [T], xs + [x];
      LinkedSnoc((S, y, U) => SerialStep(p, authority, Commands(sys), S, y, U), states, xs, x, T);
      OnceSnoc(Commands(sys), xs, x, now.store, T);
      assert xs'[..|xs|] == xs;
    }
  }

  lemma LinkedSnoc(R: (State, Serial, State) -> bool, states: seq<State>, xs: seq<Serial>, x: Serial, T: State)
    requires LinkedBy(R, states, xs) && R(states[|xs|], x, T)
    ensures LinkedBy(R, states + [T], xs + [x])
  {
    var s, y := states + [T], xs + [x];
    forall k | 0 <= k < |y| ensures R(s[k], y[k], s[k + 1]) {
      if k < |xs| {
        assert R(states[k], xs[k], states[k + 1]);
      }
    }
  }

  lemma OnceSnoc(commands: seq<Command>, xs: seq<Serial>, x: Serial, S: State, T: State)
    requires ExecutedOnce(commands, xs, S) && Evolves(S, T)
    requires x.Execution? ==> x.i < |commands| && KeyFor(commands[x.i].metadata) !in S.transactions && KeyFor(commands[x.i].metadata) in T.transactions
    ensures ExecutedOnce(commands, xs + [x], T)
  {
  }

  /** An execution records its key, which was free before. */
  lemma ExecutionRecords(p: Primitives, authority: Text, c: Command, S: State, T: State, trace: Trace)
    requires AtomicExecution(p, authority, c, S, T, trace)
    ensures KeyFor(c.metadata) !in S.transactions && KeyFor(c.metadata) in T.transactions
  {
    ProposalIsPermitted(p, c, trace);
    NewIsAdmitted(p, authority, c.limits, S, Propose(p, c, trace).value);
  }

  /** What an atomic execution leaves behind: its events on its participants, nothing anywhere else. */
  lemma AtomicEffect(p: Primitives, authority: Text, c: Command, S: State, T: State, trace: Trace)
    requires Inv(p, authority, S) && AtomicExecution(p, authority, c, S, T, trace)
    ensures forall k | 0 <= k < |Loads(trace)| :: StreamAdvanced(p, c, S, T, Loads(trace)[k].0, RaisedOn(c.handler(trace), k))
    ensures forall s | (forall k | 0 <= k < |Loads(trace)| :: Loads(trace)[k].0 != s) :: HistoryOf(T, s) == HistoryOf(S, s)
  {
    var t := Propose(p, c, trace).value;
    ProposalIsPermitted(p, c, trace);
    NewIsAdmitted(p, authority, c.limits, S, t);
    CommittedRecords(p, authority, c.limits, S, t);
    CommittedFollows(p, authority, S, t);
    assert t.participants == ParticipantsFor(p, c.metadata, Loads(trace), c.handler(trace));
    RecordedEffect(p, c, S, RecordParticipants(S, t.participants, |t.participants|), T, Loads(trace), c.handler(trace));
  }

  /** The stream of `T` is that of `S` followed by the recorded batch of the raised events. */
  predicate StreamAdvanced(p: Primitives, c: Command, S: State, T: State, s: StreamId, raised: seq<RaisedEvent>) {
    var batch := BatchFor(p, c.metadata, s, raised);
    HistoryOf(T, s) == HistoryOf(S, s) + (if batch.None? then [] else Records.Recorded(s, |HistoryOf(S, s)|, batch.value))
  }

  lemma RecordedEffect(p: Primitives, c: Command, S: State, R: State, T: State, loads: seq<(StreamId, Events)>, choice: Choice)
    requires var ps := ParticipantsFor(p, c.metadata, loads, choice); RecordedUpTo(p, S, R, ps, |ps|)
    requires T.streams == R.streams
    ensures forall k | 0 <= k < |loads| :: StreamAdvanced(p, c, S, T, loads[k].0, RaisedOn(choice, k))
    ensures forall s | (forall k | 0 <= k < |loads| :: loads[k].0 != s) :: HistoryOf(T, s) == HistoryOf(S, s)
  {
    var ps := ParticipantsFor(p, c.metadata, loads, choice);
    forall k | 0 <= k < |loads| ensures StreamAdvanced(p, c, S, T, loads[k].0, RaisedOn(choice, k)) {
      assert ParticipantRecorded(S, R, ps[k]);
    }
    forall s | forall k | 0 <= k < |loads| :: loads[k].0 != s ensures HistoryOf(T, s) == HistoryOf(S, s) {
      assert !Among(ps, |ps|, s);
      assert Untouched(S, R, s);
    }
  }

  lemma NewIsAdmitted(p: Primitives, authority: Text, limits: Limits, S: State, t: EventTransaction)
    requires WellFormedTransaction(t)
    requires var r := Commit(p, authority, limits, S, t).1; r.Ok? && !r.value.1
    ensures Admitted(p, authority, limits, S, t)
    ensures Commit(p, authority, limits, S, t).0 == After(p, authority, S, t)
  {
  }

  /** New records do happen: a valid command that loads nothing and accepts is recorded on an empty store. */
  lemma AcceptanceIsRecorded(p: Primitives, authority: Text, c: Command)
    requires c.handler([]) == Accept([]) && c.metadata.boundedContext.Some? && c.limits.maximumOutcomes > 0
    requires CompletedTransactionValid(p, Proposed(p, c, [], Accept([])))
    requires var m := c.metadata;
      |p.headerJson(HeaderOf(Some(CommandCompletion(1, m.evidence, None)), OutcomeKey(authority, m.boundedContext.value, m.operationId), m.securityScope, m.actor))| <= U32_MAX
    ensures var t := Proposed(p, c, [], Accept([])); var (T, r) := Commit(p, authority, c.limits, EMPTY, t);
      AtomicExecution(p, authority, c, EMPTY, T, []) && r.Ok? && HoldsRecord(T, c.metadata, r.value.0.marker)
  {
    var t := Proposed(p, c, [], Accept([]));
    assert t.participants == [];
    PreparationFailsOnlyOnEncoding(p, authority, c.limits, EMPTY, t);
  }

  // ----- Single winner and agreement -----

  /** A key is newly recorded at most once in a run. */
  lemma SingleWinner(p: Primitives, authority: Text, sys: System, moves: seq<Move>, a: nat, b: nat, k: TransactionKey)
    requires Lawful(p) && Initial(sys) && PermittedMoves(moves) && a < |moves| && b < |moves|
    requires k !in At(p, authority, sys, moves, a).store.transactions && k in At(p, authority, sys, moves, a + 1).store.transactions
    requires k !in At(p, authority, sys, moves, b).store.transactions && k in At(p, authority, sys, moves, b + 1).store.transactions
    ensures a == b
  {
    if a < b {
      StoreGrows(p, authority, sys, moves, a + 1, b);
    } else if b < a {
      StoreGrows(p, authority, sys, moves, b + 1, a);
    }
  }

  /** The executor finished successfully. */
  predicate Succeeded(e: Executor) {
    e.phase.Finished? && e.phase.result.Ok?
  }

  /** Executors that succeed for one key, at whatever moments, return the same marker: the recorded one. */
  lemma Agreement(p: Primitives, authority: Text, sys: System, moves: seq<Move>, a: nat, i: nat, b: nat, j: nat)
    requires Lawful(p) && Initial(sys) && PermittedMoves(moves) && a <= b <= |moves|
    requires i < |At(p, authority, sys, moves, a).executors| && j < |At(p, authority, sys, moves, b).executors|
    requires var e := At(p, authority, sys, moves, a).executors[i]; var f := At(p, authority, sys, moves, b).executors[j];
      Succeeded(e) && Succeeded(f) && KeyFor(e.command.metadata) == KeyFor(f.command.metadata)
    ensures var e := At(p, authority, sys, moves, a).executors[i]; var f := At(p, authority, sys, moves, b).executors[j];
      && e.phase.result.value.marker == f.phase.result.value.marker
      && HoldsRecord(At(p, authority, sys, moves, b).store, e.command.metadata, e.phase.result.value.marker)
      && IdentityMatches(e.phase.result.value.marker, e.command.metadata)
  {
    ReachableSound(p, authority, sys, moves, a);
    ReachableSound(p, authority, sys, moves, b);
    StoreGrows(p, authority, sys, moves, a, b);
    assert ExecutorInv(p, At(p, authority, sys, moves, a).store, At(p, authority, sys, moves, a).executors[i]);
    assert ExecutorInv(p, At(p, authority, sys, moves, b).store, At(p, authority, sys, moves, b).executors[j]);
  }

  // ----- Expiry never permits reevaluation -----

  lemma NoEvaluationOnceRecorded(p: Primitives, authority: Text, e: Executor, S: State)
    requires Inv(p, authority, S) && KeyFor(e.command.metadata) in S.transactions
    ensures StepExecutor(p, authority, e, S).0.evaluations == e.evaluations
  {
    if KeyFor(e.command.metadata).0.Some? {
      LookUpKeeps(p, authority, e.command.metadata, S, Running([]));
    }
  }

  lemma NoMoveEvaluates(p: Primitives, authority: Text, before: System, move: Move, i: nat)
    requires SystemInv(p, authority, before) && i < |before.executors|
    requires KeyFor(before.executors[i].command.metadata) in before.store.transactions
    ensures var after := Step(p, authority, before, move);
      |after.executors| == |before.executors| && after.executors[i].evaluations == before.executors[i].evaluations
  {
    NoEvaluationOnceRecorded(p, authority, before.executors[i], before.store);
  }

  lemma NotEvaluatedNext(p: Primitives, authority: Text, sys: System, moves: seq<Move>, n: nat, i: nat)
    requires Lawful(p) && Initial(sys) && PermittedMoves(moves) && n < |moves| && i < |sys.executors|
    requires KeyFor(sys.executors[i].command.metadata) in At(p, authority, sys, moves, n).store.transactions
    ensures |At(p, authority, sys, moves, n).executors| == |At(p, authority, sys, moves, n + 1).executors| == |sys.executors|
    ensures At(p, authority, sys, moves, n + 1).executors[i].evaluations == At(p, authority, sys, moves, n).executors[i].evaluations
  {
    CommandsFixed(p, authority, sys, moves, n);
    ReachableSound(p, authority, sys, moves, n);
    AtNext(p, authority, sys, moves, n);
    NoMoveEvaluates(p, authority, At(p, authority, sys, moves, n), moves[n], i);
  }

  lemma StaysRecorded(p: Primitives, authority: Text, sys: System, moves: seq<Move>, a: nat, b: nat, k: TransactionKey)
    requires Lawful(p) && Initial(sys) && PermittedMoves(moves) && a <= b <= |moves|
    requires k in At(p, authority, sys, moves, a).store.transactions
    ensures k in At(p, authority, sys, moves, b).store.transactions
  {
    StoreGrows(p, authority, sys, moves, a, b);
  }

  /** Once a key is recorded, expired or not, no executor ever starts its handler for that key again. */
  lemma {:induction false} RecordedNeverReevaluated(p: Primitives, authority: Text, sys: System, moves: seq<Move>, a: nat, b: nat, i: nat)
    requires Lawful(p) && Initial(sys) && PermittedMoves(moves) && a <= b <= |moves| && i < |sys.executors|
    requires KeyFor(sys.executors[i].command.metadata) in At(p, authority, sys, moves, a).store.transactions
    ensures |At(p, authority, sys, moves, a).executors| == |At(p, authority, sys, moves, b).executors| == |sys.executors|
    ensures At(p, authority, sys, moves, b).executors[i].evaluations == At(p, authority, sys, moves, a).executors[i].evaluations
    decreases b
  {
    CommandsFixed(p, authority, sys, moves, a);
    if a < b {
      RecordedNeverReevaluated(p, authority, sys, moves, a, b - 1, i);
      StaysRecorded(p, authority, sys, moves, a, b - 1, KeyFor(sys.executors[i].command.metadata));
      NotEvaluatedNext(p, authority, sys, moves, b - 1, i);
    }
  }

  /** The answer for a key whose details are gone: completed, or owned by another command; never missing. */
  function ExpiredAnswer(m: Metadata, marker: OutcomeMarker): Phase {
    Finished(if IdentityMatches(marker, m) then Ok(Completion(marker, DetailsExpired, true)) else Err(IdentityConflict))
  }

  lemma {:induction false} Idle(p: Primitives, authority: Text, sys: System, moves: seq<Move>, a: nat, b: nat, i: nat)
    requires a <= b <= |moves| && i < |sys.executors| && forall k | a <= k < b :: moves[k] != Turn(i)
    ensures |At(p, authority, sys, moves, a).executors| == |At(p, authority, sys, moves, b).executors| == |sys.executors|
    ensures At(p, authority, sys, moves, b).executors[i] == At(p, authority, sys, moves, a).executors[i]
  {
    CommandsFixed(p, authority, sys, moves, a);
    if a < b {
      Idle(p, authority, sys, moves, a, b - 1, i);
      IdleNext(p, authority, sys, moves, b - 1, i);
    }
  }

  lemma IdleNext(p: Primitives, authority: Text, sys: System, moves: seq<Move>, n: nat, i: nat)
    requires n < |moves| && moves[n] != Turn(i) && i < |At(p, authority, sys, moves, n).executors|
    ensures |At(p, authority, sys, moves, n + 1).executors| == |At(p, authority, sys, moves, n).executors|
    ensures At(p, authority, sys, moves, n + 1).executors[i] == At(p, authority, sys, moves, n).executors[i]
  {
    AtNext(p, authority, sys, moves, n);
  }

  /** What executor `i` does at its turn. */
  lemma TurnSteps(p: Primitives, authority: Text, sys: System, moves: seq<Move>, n: nat, i: nat)
    requires n < |moves| && moves[n] == Turn(i) && i < |sys.executors|
    ensures |At(p, authority, sys, moves, n).executors| == |At(p, authority, sys, moves, n + 1).executors| == |sys.executors|
    ensures var now := At(p, authority, sys, moves, n);
      At(p, authority, sys, moves, n + 1).executors[i] == StepExecutor(p, authority, now.executors[i], now.store).0
  {
    CommandsFixed(p, authority, sys, moves, n);
    AtNext(p, authority, sys, moves, n);
  }

  /**
   After expiry every lookup completes: if executor `i` looks a recorded key up at turn `a`, when its
   details are already expired, its next turn `b`, however late, ends with the recorded marker and
   expired details, or with an identity conflict; never as missing.
   */
  lemma ExpiredLookupCompletes(p: Primitives, authority: Text, sys: System, moves: seq<Move>, i: nat, a: nat, b: nat, marker: OutcomeMarker)
    requires Lawful(p) && Initial(sys) && PermittedMoves(moves) && a < b < |moves| && i < |sys.executors|
    requires moves[a] == Turn(i) && moves[b] == Turn(i) && forall k | a < k < b :: moves[k] != Turn(i)
    requires |At(p, authority, sys, moves, a).executors| == |sys.executors| && sys.executors[i].command.metadata.boundedContext.Some?
    requires var now := At(p, authority, sys, moves, a);
      && (now.executors[i].phase.LookingUp? || now.executors[i].phase.Reconciling?)
      && HoldsRecord(now.store, sys.executors[i].command.metadata, marker)
      && marker.reference in now.store.details && now.store.details[marker.reference].Expired?
    ensures |At(p, authority, sys, moves, b + 1).executors| == |sys.executors|
    ensures At(p, authority, sys, moves, b + 1).executors[i].phase == ExpiredAnswer(sys.executors[i].command.metadata, marker)
  {
    CommandsFixed(p, authority, sys, moves, a);
    TurnSteps(p, authority, sys, moves, a, i);
    Idle(p, authority, sys, moves, a + 1, b, i);
    TurnSteps(p, authority, sys, moves, b, i);
    ReachableSound(p, authority, sys, moves, a);
    ReachableSound(p, authority, sys, moves, b);
    StoreGrows(p, authority, sys, moves, a, b);
    ExpiredStepsComplete(p, authority, At(p, authority, sys, moves, a).executors[i], At(p, authority, sys, moves, a).store,
                         At(p, authority, sys, moves, b).executors[i], At(p, authority, sys, moves, b).store, marker);
  }

  lemma ExpiredStepsComplete(p: Primitives, authority: Text, e: Executor, S: State, f: Executor, T: State, marker: OutcomeMarker)
    requires Inv(p, authority, S) && Inv(p, authority, T) && Evolves(S, T)
    requires HoldsRecord(S, e.command.metadata, marker) && e.command.metadata.boundedContext.Some?
    requires marker.reference in S.details && S.details[marker.reference].Expired?
    requires e.phase.LookingUp? || e.phase.Reconciling?
    requires f == StepExecutor(p, authority, e, S).0
    ensures StepExecutor(p, authority, f, T).0.phase == ExpiredAnswer(e.command.metadata, marker)
  {
    LookUpFinds(p, authority, e, S, marker);
    MarkerIntact(p, authority, T, e.command.metadata, marker);
    ExpiredResolves(p, authority, f, T, marker);
  }

  lemma LookUpFinds(p: Primitives, authority: Text, e: Executor, S: State, marker: OutcomeMarker)
    requires HoldsRecord(S, e.command.metadata, marker) && e.command.metadata.boundedContext.Some?
    requires e.phase.LookingUp? || e.phase.Reconciling?
    ensures StepExecutor(p, authority, e, S).0 == e.(phase := Resolving(marker, true, false))
  {
  }

  lemma MarkerIntact(p: Primitives, authority: Text, T: State, m: Metadata, marker: OutcomeMarker)
    requires Inv(p, authority, T) && HoldsRecord(T, m, marker) && m.boundedContext.Some?
    ensures marker.reference.key == OutcomeKey(authority, m.boundedContext.value, m.operationId)
    ensures Integrity(p, marker.integrity)
  {
    assert TransactionIntact(p, authority, T, KeyFor(m));
  }

  lemma ExpiredResolves(p: Primitives, authority: Text, f: Executor, T: State, marker: OutcomeMarker)
    requires f.phase == Resolving(marker, true, false)
    requires var m := f.command.metadata;
      m.boundedContext.Some? && marker.reference.key == OutcomeKey(authority, m.boundedContext.value, m.operationId)
    requires Integrity(p, marker.integrity)
    requires marker.reference in T.details && T.details[marker.reference].Expired?
    ensures StepExecutor(p, authority, f, T).0.phase == ExpiredAnswer(f.command.metadata, marker)
  {
  }
}
