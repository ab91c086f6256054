/** What every step of the protocol keeps. */
module ExecutorSteps {
  import opened Wrappers
  import opened Identity
  import opened Records
  import opened Proposal
  import opened Receipts
  import opened Outcome
  import opened Store
  import opened StoreInvariant
  import opened StoreSteps
  import opened Executor
  import History

  // ----- Traces stay meaningful while the store grows -----

  /** Response `k` is still true of the store: a loaded history is a valid beginning of its stream. */
  predicate Stands(p: Primitives, c: Command, S: State, trace: Trace, k: nat)
    requires k < |trace|
  {
    var choice := c.handler(trace[..k]);
    && choice.Load?
    && trace[k].stream == choice.stream
    && match trace[k]
       case Loaded(s, h) =>
         && c.metadata.boundedContext == Some(choice.context) && !HasLoaded(trace[..k], s)
         && h <= HistoryOf(S, s) && History.Valid(p.ids, s, h) && Decodes(c, h)
       case Refused(s, WrongContext) => c.metadata.boundedContext != Some(choice.context)
       case Refused(s, AlreadyLoaded) => c.metadata.boundedContext == Some(choice.context) && HasLoaded(trace[..k], s)
       case Refused(s, Undecodable) =>
         c.metadata.boundedContext == Some(choice.context) && !HasLoaded(trace[..k], s) && !Decodes(c, HistoryOf(S, s))
       case Refused(s, Corrupt) => false
  }

  predicate TraceStands(p: Primitives, c: Command, S: State, trace: Trace) {
    forall k | 0 <= k < |trace| :: Stands(p, c, S, trace, k)
  }

  /** Some loaded stream has moved on since it was loaded. */
  predicate Outdated(S: State, trace: Trace) {
    exists k :: 0 <= k < |trace| && trace[k].Loaded? && |trace[k].history| < |HistoryOf(S, trace[k].stream)|
  }

  predicate HoldsRecord(S: State, m: Metadata, marker: OutcomeMarker) {
    KeyFor(m) in S.transactions && S.transactions[KeyFor(m)] == Scoped(marker)
  }

  /** The executor invariant. */
  ghost predicate ExecutorInv(p: Primitives, S: State, e: Executor) {
    var c := e.command;
    && e.evaluations <= c.maximumRetries + 1
    && match e.phase
       case LookingUp => e.evaluations <= c.maximumRetries
       case Running(trace) => TraceStands(p, c, S, trace)
       case Submitting(trace, t) => TraceStands(p, c, S, trace) && Propose(p, c, trace) == Ok(t)
       case Resolving(marker, _, _) => HoldsRecord(S, c.metadata, marker)
       case Reconciling(trace, error) =>
         && TraceStands(p, c, S, trace)
         && (error == Conflict || error == IdentityConflict)
         && (error == Conflict ==> Outdated(S, trace))
       case Finished(result) =>
         result.Ok? ==> HoldsRecord(S, c.metadata, result.value.marker) && IdentityMatches(result.value.marker, c.metadata)
  }

  ghost predicate SystemInv(p: Primitives, authority: Text, sys: System) {
    && Inv(p, authority, sys.store)
    && forall i | 0 <= i < |sys.executors| :: ExecutorInv(p, sys.store, sys.executors[i])
  }

  lemma StandsKept(p: Primitives, c: Command, S: State, T: State, trace: Trace)
    requires TraceStands(p, c, S, trace) && Evolves(S, T)
    ensures TraceStands(p, c, T, trace)
    ensures Outdated(S, trace) ==> Outdated(T, trace)
  {
    forall k | 0 <= k < |trace| ensures Stands(p, c, T, trace, k) {
      assert Stands(p, c, S, trace, k);
      var s := trace[k].stream;
      assert HistoryOf(S, s) <= HistoryOf(T, s);
      if trace[k].Refused? && trace[k].reason == Undecodable {
        var i :| 0 <= i < |HistoryOf(S, s)| && !c.decodes(HistoryOf(S, s)[i]);
        assert !c.decodes(HistoryOf(T, s)[i]);
      }
    }
    if Outdated(S, trace) {
      var k :| 0 <= k < |trace| && trace[k].Loaded? && |trace[k].history| < |HistoryOf(S, trace[k].stream)|;
      assert HistoryOf(S, trace[k].stream) <= HistoryOf(T, trace[k].stream);
    }
  }

  /** Other parties' steps cannot break an executor. */
  lemma ExecutorKept(p: Primitives, S: State, T: State, e: Executor)
    requires ExecutorInv(p, S, e) && Evolves(S, T)
    ensures ExecutorInv(p, T, e)
  {
    match e.phase
    case Running(trace) => StandsKept(p, e.command, S, T, trace);
    case Submitting(trace, _) => StandsKept(p, e.command, S, T, trace);
    case Reconciling(trace, _) => StandsKept(p, e.command, S, T, trace);
    case _ =>
  }

  // ----- Loading -----

  lemma LoadStands(p: Primitives, authority: Text, c: Command, S: State, trace: Trace)
    requires Inv(p, authority, S) && TraceStands(p, c, S, trace) && c.handler(trace).Load?
    ensures var choice := c.handler(trace);
      TraceStands(p, c, S, trace + [Respond(p, c, S, trace, choice.context, choice.stream)])
  {
    var choice := c.handler(trace);
    var r := Respond(p, c, S, trace, choice.context, choice.stream);
    var next := trace + [r];
    assert StreamIndexed(p, S, choice.stream);
    forall k | 0 <= k < |next| ensures Stands(p, c, S, next, k) {
      assert next[..k] == trace[..k];
      if k < |trace| {
        assert Stands(p, c, S, trace, k);
      } else {
        assert trace[..k] == trace;
      }
    }
  }

  // ----- Participants are exactly the successful loads -----

  lemma {:induction false} LoadsComplete(trace: Trace, k: nat) returns (i: nat)
    requires k < |trace| && trace[k].Loaded?
    ensures i < |Loads(trace)| && Loads(trace)[i] == (trace[k].stream, trace[k].history)
  {
    var n := |trace| - 1;
    if k == n {
      i := |Loads(trace[..n])|;
    } else {
      i := LoadsComplete(trace[..n], k);
    }
  }

  lemma {:induction false} LoadsSound(trace: Trace, i: nat) returns (k: nat)
    requires i < |Loads(trace)|
    ensures k < |trace| && trace[k].Loaded? && Loads(trace)[i] == (trace[k].stream, trace[k].history)
  {
    var n := |trace| - 1;
    if i < |Loads(trace[..n])| {
      k := LoadsSound(trace[..n], i);
    } else {
      k := n;
    }
  }

  lemma ValidVersion(p: Primitives, s: StreamId, h: Events)
    requires History.Valid(p.ids, s, h)
    ensures VersionOf(h) == |h|
  {
    if |h| > 0 {
      assert History.Derived(p.ids, s, h, |h| - 1);
    }
  }

  /** The guard on participant `i` against the store: it holds exactly when nothing was added. */
  lemma GuardMeaning(p: Primitives, authority: Text, c: Command, S: State, trace: Trace, i: nat, k: nat)
    requires Inv(p, authority, S) && TraceStands(p, c, S, trace)
    requires i < |Loads(trace)| && k < |trace| && trace[k].Loaded? && Loads(trace)[i] == (trace[k].stream, trace[k].history)
    ensures var h := trace[k].history; var g := HistoryOf(S, trace[k].stream);
      ExpectedError(ExpectedOf(VersionOf(h)), CurrentVersion(S, trace[k].stream)) ==
        (if h == g then None else Some(Conflict))
      && (h != g ==> |h| < |g|)
  {
    assert Stands(p, c, S, trace, k);
    assert StreamIndexed(p, S, trace[k].stream);
    VersionIsLength(p, S, trace[k].stream);
    ValidVersion(p, trace[k].stream, trace[k].history);
    var h, g := trace[k].history, HistoryOf(S, trace[k].stream);
    if |h| == |g| {
      assert h == g;
    }
  }

  // ----- Submitting -----

  lemma {:induction false} ParticipantsNeverConflict(p: Primitives, S: State, t: EventTransaction, n: nat)
    requires n <= |t.participants|
    ensures ParticipantsError(p, S, t, n) != Some(Conflict)
  {
    if n > 0 {
      ParticipantsNeverConflict(p, S, t, n - 1);
    }
  }

  lemma {:induction false} VersionConflictAt(S: State, ps: seq<Participant>, n: nat) returns (i: nat)
    requires n <= |ps| && VersionsError(S, ps, n) == Some(Conflict)
    ensures i < n && ExpectedError(ps[i].expected, CurrentVersion(S, ps[i].streamId)) == Some(Conflict)
  {
    if VersionsError(S, ps, n - 1).Some? {
      i := VersionConflictAt(S, ps, n - 1);
    } else {
      i := n - 1;
    }
  }

  lemma RecordNeverConflicts(p: Primitives, authority: Text, S: State, t: EventTransaction)
    ensures RecordOf(p, authority, S, t) != Err(Conflict)
  {
  }

  /** A conflict answer means that some participant's version check failed. */
  lemma ConflictAt(p: Primitives, authority: Text, limits: Limits, S: State, t: EventTransaction) returns (i: nat)
    requires Commit(p, authority, limits, S, t).1 == Err(Conflict)
    ensures i < |t.participants|
    ensures ExpectedError(t.participants[i].expected, CurrentVersion(S, t.participants[i].streamId)) == Some(Conflict)
  {
    ParticipantsNeverConflict(p, S, t, |t.participants|);
    RecordNeverConflicts(p, authority, S, t);
    i := VersionConflictAt(S, t.participants, |t.participants|);
  }

  /** So an optimistic conflict is genuine: a loaded stream really moved on. */
  lemma ConflictIsGenuine(p: Primitives, authority: Text, c: Command, S: State, trace: Trace)
    requires Inv(p, authority, S) && TraceStands(p, c, S, trace) && Propose(p, c, trace).Ok?
    requires Commit(p, authority, c.limits, S, Propose(p, c, trace).value).1 == Err(Conflict)
    ensures Outdated(S, trace)
  {
    var i := ConflictAt(p, authority, c.limits, S, Propose(p, c, trace).value);
    var k := LoadsSound(trace, i);
    GuardMeaning(p, authority, c, S, trace, i, k);
  }

  /** A new record means that every version check passed. */
  lemma NewRecordGuards(p: Primitives, authority: Text, limits: Limits, S: State, t: EventTransaction, i: nat)
    requires var r := Commit(p, authority, limits, S, t).1; r.Ok? && !r.value.1
    requires i < |t.participants|
    ensures ExpectedError(t.participants[i].expected, CurrentVersion(S, t.participants[i].streamId)).None?
  {
    VersionsClear(S, t.participants, |t.participants|);
  }

  /** Every history the handler loaded, at whatever moment, is the stream's history at a new commit. */
  lemma LoadedIsCurrent(p: Primitives, authority: Text, c: Command, S: State, trace: Trace, k: nat)
    requires Inv(p, authority, S) && TraceStands(p, c, S, trace) && Propose(p, c, trace).Ok?
    requires var r := Commit(p, authority, c.limits, S, Propose(p, c, trace).value).1; r.Ok? && !r.value.1
    requires k < |trace| && trace[k].Loaded?
    ensures trace[k].history == HistoryOf(S, trace[k].stream)
  {
    var i := LoadsComplete(trace, k);
    NewRecordGuards(p, authority, c.limits, S, Propose(p, c, trace).value, i);
    GuardMeaning(p, authority, c, S, trace, i, k);
  }

  /** Hence a new commit is the commit of an atomic run of the handler. */
  lemma NewCommitIsAtomic(p: Primitives, authority: Text, c: Command, S: State, trace: Trace)
    requires Inv(p, authority, S) && TraceStands(p, c, S, trace) && Propose(p, c, trace).Ok?
    requires var r := Commit(p, authority, c.limits, S, Propose(p, c, trace).value).1; r.Ok? && !r.value.1
    ensures AtomicRun(p, c, S, trace)
  {
    forall k | 0 <= k < |trace| ensures AtomicLoad(p, c, S, trace, k) {
      StreamsValid(p, authority, S, trace[k].stream);
      if trace[k].Loaded? {
        LoadedIsCurrent(p, authority, c, S, trace, k);
      }
      StandsAtomically(p, c, S, trace, k);
    }
  }

  lemma StreamsValid(p: Primitives, authority: Text, S: State, s: StreamId)
    requires Inv(p, authority, S)
    ensures History.Valid(p.ids, s, HistoryOf(S, s))
  {
    assert StreamIndexed(p, S, s);
  }

  lemma StandsAtomically(p: Primitives, c: Command, S: State, trace: Trace, k: nat)
    requires k < |trace| && Stands(p, c, S, trace, k)
    requires History.Valid(p.ids, trace[k].stream, HistoryOf(S, trace[k].stream))
    requires trace[k].Loaded? ==> trace[k].history == HistoryOf(S, trace[k].stream)
    ensures AtomicLoad(p, c, S, trace, k)
  {
  }

  lemma CommittedIsRecorded(p: Primitives, authority: Text, limits: Limits, S: State, t: EventTransaction)
    requires Inv(p, authority, S)
    ensures var (T, r) := Commit(p, authority, limits, S, t);
      r.Ok? ==> r.value.0.Scoped? && KeyOf(t) in T.transactions && T.transactions[KeyOf(t)] == r.value.0
  {
    if KeyOf(t) in S.transactions {
      assert TransactionIntact(p, authority, S, KeyOf(t));
    }
  }

  lemma ProposalIsPermitted(p: Primitives, c: Command, trace: Trace)
    requires Propose(p, c, trace).Ok?
    ensures WellFormedTransaction(Propose(p, c, trace).value)
    ensures KeyOf(Propose(p, c, trace).value) == KeyFor(c.metadata)
  {
  }

  lemma SubmitKeeps(p: Primitives, authority: Text, e: Executor, S: State)
    requires Lawful(p) && Inv(p, authority, S) && ExecutorInv(p, S, e) && e.phase.Submitting?
    ensures var (f, T) := StepExecutor(p, authority, e, S);
      Inv(p, authority, T) && Evolves(S, T) && ExecutorInv(p, T, f)
  {
    var c, trace, t := e.command, e.phase.trace, e.phase.proposal;
    ProposalIsPermitted(p, c, trace);
    PerformKeeps(p, authority, S, CommitOutcome(c.limits, t));
    CommittedIsRecorded(p, authority, c.limits, S, t);
    var (T, r) := Commit(p, authority, c.limits, S, t);
    StandsKept(p, c, S, T, trace);
    if r == Err(Conflict) {
      ConflictIsGenuine(p, authority, c, S, trace);
    }
  }

  // ----- Lookups and resolution -----

  lemma LookUpKeeps(p: Primitives, authority: Text, m: Metadata, S: State, missing: Phase)
    requires Inv(p, authority, S)
    ensures var next := LookUp(m, S, missing);
      next == missing || (next.Resolving? && HoldsRecord(S, m, next.marker)) || (next.Finished? && next.result.Err?)
    ensures m.boundedContext.Some? && KeyFor(m) in S.transactions ==> LookUp(m, S, missing).Resolving?
  {
    if KeyFor(m) in S.transactions {
      assert TransactionIntact(p, authority, S, KeyFor(m));
    }
  }

  lemma ResolveKeeps(p: Primitives, authority: Text, m: Metadata, S: State, marker: OutcomeMarker, replay: bool, admitted: bool)
    requires HoldsRecord(S, m, marker)
    ensures match Resolve(p, authority, m, S, marker, replay, admitted)
      case Resolving(marker', replay', admitted') => marker' == marker && replay' == replay && admitted' && !admitted
      case Finished(result) => result.Ok? ==> result.value.marker == marker && IdentityMatches(marker, m)
      case _ => false
  {
  }

  /** Every step of an executor keeps the store and the executor sound, and the store only grows. */
  lemma ExecutorStepKeeps(p: Primitives, authority: Text, e: Executor, S: State)
    requires Lawful(p) && Inv(p, authority, S) && ExecutorInv(p, S, e)
    ensures var (f, T) := StepExecutor(p, authority, e, S);
      Inv(p, authority, T) && Evolves(S, T) && ExecutorInv(p, T, f)
  {
    if e.phase.Submitting? {
      SubmitKeeps(p, authority, e, S);
    } else {
      NothingEvolves(S);
      LocalStepKeeps(p, authority, e, S);
    }
  }

  lemma LocalStepKeeps(p: Primitives, authority: Text, e: Executor, S: State)
    requires Inv(p, authority, S) && ExecutorInv(p, S, e) && !e.phase.Submitting?
    ensures ExecutorInv(p, S, StepExecutor(p, authority, e, S).0) && StepExecutor(p, authority, e, S).1 == S
  {
    var c := e.command;
    match e.phase
    case LookingUp => LookUpKeeps(p, authority, c.metadata, S, Running([]));
    case Running(trace) =>
      if c.handler(trace).Load? {
        LoadStands(p, authority, c, S, trace);
      }
    case Resolving(marker, replay, admitted) => ResolveKeeps(p, authority, c.metadata, S, marker, replay, admitted);
    case Reconciling(trace, error) => LookUpKeeps(p, authority, c.metadata, S, AfterConflict(e, error));
    case Finished(_) =>
  }

  lemma StepKeeps(p: Primitives, authority: Text, sys: System, move: Move)
    requires Lawful(p) && SystemInv(p, authority, sys) && (move.Environment? ==> Permitted(move.op))
    ensures var next := Step(p, authority, sys, move); SystemInv(p, authority, next) && Evolves(sys.store, next.store)
  {
    var next := Step(p, authority, sys, move);
    match move {
      case Environment(op) => PerformKeeps(p, authority, sys.store, op);
      case Turn(i) =>
        if i < |sys.executors| {
          ExecutorStepKeeps(p, authority, sys.executors[i], sys.store);
        } else {
          NothingEvolves(sys.store);
        }
    }
    forall j | 0 <= j < |next.executors| ensures ExecutorInv(p, next.store, next.executors[j]) {
      if !(move.Turn? && move.i == j) {
        ExecutorKept(p, sys.store, next.store, sys.executors[j]);
      }
    }
  }
}
