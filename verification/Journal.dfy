/**
 The per-attempt event journal. Observers write to the tracker of the participant an instance was
 loaded for, wherever that instance has been moved; dropping a handle records whether it still held
 that instance. Whatever is raised, interrupted, swapped, replaced or leaked, `collect` yields
 events only if nothing about them can have been lost.
 */
module Journal {
  import opened Wrappers
  import opened Identity
  import opened Records

  datatype CollectError =
    | Outlived
    | TrackingLost
    | Interrupted
    | InvalidJournal
    | Encoding(kind: ErrorKind)

  datatype JournalEntry =
    | Started(ordinal: nat)
    | Completed(ordinal: nat, event: Result<NewEvent, CollectError>)

  // ----- Reading a journal -----

  /** The events read so far, and whether one more has been started. */
  datatype Progress = Progress(events: seq<NewEvent>, pending: bool)

  function Consume(p: Progress, entry: JournalEntry): Result<Progress, CollectError> {
    match entry
    case Started(ordinal) =>
      if !p.pending && ordinal == |p.events| then Ok(p.(pending := true)) else Err(InvalidJournal)
    case Completed(ordinal, event) =>
      if event.Err? then Err(event.error)
      else if !p.pending || ordinal != |p.events| then Err(InvalidJournal)
      else Ok(Progress(p.events + [event.value], false))
  }

  function Scan(journal: seq<JournalEntry>): Result<Progress, CollectError> {
    if |journal| == 0 then Ok(Progress([], false))
    else
      match Scan(journal[..|journal| - 1])
      case Err(e) => Err(e)
      case Ok(p) => Consume(p, journal[|journal| - 1])
  }

  lemma ScanSnoc(journal: seq<JournalEntry>, entry: JournalEntry)
    ensures Scan(journal + [entry]) == match Scan(journal) case Err(e) => Err(e) case Ok(p) => Consume(p, entry)
  {
    assert (journal + [entry])[..|journal|] == journal;
  }

  function CollectResult(journal: seq<JournalEntry>, finalization: Option<Result<nat, CollectError>>): Result<seq<NewEvent>, CollectError> {
    match finalization
    case None => Err(Outlived)
    case Some(Err(e)) => Err(e)
    case Some(Ok(count)) =>
      match Scan(journal)
      case Err(e) => Err(e)
      case Ok(p) =>
        if p.pending then Err(Interrupted)
        else if |p.events| != count then Err(InvalidJournal)
        else Ok(p.events)
  }

  function DiscardResult(finalization: Option<Result<nat, CollectError>>): Result<(), CollectError> {
    match finalization
    case None => Err(Outlived)
    case Some(Err(e)) => Err(e)
    case Some(Ok(_)) => Ok(())
  }

  class ParticipantTracker {
    var journal: seq<JournalEntry>
    var finalization: Option<Result<nat, CollectError>>

    constructor ()
      ensures journal == [] && finalization == None
    {
      journal, finalization := [], None;
    }

    method Push(entry: JournalEntry)
      modifies this`journal
      ensures journal == old(journal) + [entry]
    {
      journal := journal + [entry];
    }

    method TakeFinalization() returns (r: Result<nat, CollectError>)
      modifies this`finalization
      ensures finalization == None
      ensures r == match old(finalization) case None => Err(Outlived) case Some(f) => f
    {
      r := match finalization case None => Err(Outlived) case Some(f) => f;
      finalization := None;
    }

    /** `collect`: the finalization is taken once, and the journal is drained unless that already failed. */
    method Collect() returns (r: Result<seq<NewEvent>, CollectError>)
      modifies this
      ensures r == CollectResult(old(journal), old(finalization))
      ensures finalization == None
      ensures journal == if old(finalization).Some? && old(finalization).value.Ok? then [] else old(journal)
    {
      var expected := TakeFinalization();
      if expected.Err? {
        return Err(expected.error);
      }
      var entries := journal;
      journal := [];
      r := ReadEntries(entries, expected.value);
    }

    /** `discard_events`: a rejected decision needs only to know that the instance came back. */
    method Discard() returns (r: Result<(), CollectError>)
      modifies this`finalization
      ensures finalization == None
      ensures r == DiscardResult(old(finalization))
    {
      var expected := TakeFinalization();
      return if expected.Err? then Err(expected.error) else Ok(());
    }

    static method ReadEntries(entries: seq<JournalEntry>, expected: nat) returns (r: Result<seq<NewEvent>, CollectError>)
      ensures r == CollectResult(entries, Some(Ok(expected)))
    {
      var events: seq<NewEvent> := [];
      var encoding: Option<nat> := None;
      for i := 0 to |entries|
        invariant Scan(entries[..i]) == Ok(Progress(events, encoding.Some?))
        invariant encoding.Some? ==> encoding.value == |events|
      {
        ScanSnoc(entries[..i], entries[i]);
        assert entries[..i + 1] == entries[..i] + [entries[i]];
        match entries[i] {
          case Started(ordinal) =>
            if encoding.None? && ordinal == |events| {
              encoding := Some(ordinal);
            } else {
              ScanStops(entries, i + 1);
              return Err(InvalidJournal);
            }
          case Completed(ordinal, event) =>
            if event.Err? {
              ScanStops(entries, i + 1);
              return Err(event.error);
            }
            if encoding != Some(ordinal) {
              ScanStops(entries, i + 1);
              return Err(InvalidJournal);
            }
            events := events + [event.value];
            encoding := None;
        }
      }
      assert entries[..|entries|] == entries;
      if encoding.Some? {
        return Err(Interrupted);
      }
      return if |events| != expected then Err(InvalidJournal) else Ok(events);
    }
  }

  /** The first error is the result, whatever follows. */
  lemma {:induction false} ScanStops(journal: seq<JournalEntry>, n: nat)
    requires n <= |journal| && Scan(journal[..n]).Err?
    ensures Scan(journal) == Scan(journal[..n])
  {
    if n < |journal| {
      assert journal[..|journal| - 1][..n] == journal[..n];
      ScanStops(journal[..|journal| - 1], n);
    } else {
      assert journal[..n] == journal;
    }
  }

  // ----- Everything a handler can do with its instances -----

  /** How events change state, and how participant `k` encodes the event it raises at an ordinal. */
  datatype Behaviour<!S, !E> = Behaviour(apply: (S, E) -> S, encode: (nat, nat, E) -> Result<NewEvent, CollectError>)

  /** An aggregate instance; its token says for which participant it is observed. */
  datatype Instance<S, E> = Instance(token: Option<nat>, base: S, state: S, uncommitted: seq<E>)

  /** Where an instance lives: inside a handle, or loose in a variable. A dropped handle is closed. */
  datatype Place<S, E> = Place(open: bool, instance: Instance<S, E>)

  datatype Tracker = Tracker(journal: seq<JournalEntry>, finalization: Option<Result<nat, CollectError>>)

  /** `handles[k]` is the place of participant `k`'s handle. */
  datatype World<S, E> = World(places: seq<Place<S, E>>, handles: seq<nat>, trackers: seq<Tracker>)

  /** A raise runs to its end, or is interrupted while applying or while encoding. */
  datatype How<S> = Complete | InterruptedApply(partial: S) | InterruptedEncode

  datatype Move<S, E> =
    | Load(base: S)
    | Create(initial: S)
    | Raise(at: nat, event: E, how: How<S>)
    | Swap(from: nat, to: nat)
    | Drop(k: nat)

  function Open<S, E>(W: World<S, E>, at: nat): bool {
    at < |W.places| && W.places[at].open
  }

  function Raised<S, E>(A: Behaviour<S, E>, x: Instance<S, E>, event: E, how: How<S>): Instance<S, E> {
    match how
    case Complete => x.(state := A.apply(x.state, event), uncommitted := x.uncommitted + [event])
    case InterruptedApply(partial) => x.(state := partial)
    case InterruptedEncode => x.(state := A.apply(x.state, event), uncommitted := x.uncommitted + [event])
  }

  /** What the observers write during a raise. */
  function Entries<S, E>(A: Behaviour<S, E>, k: nat, ordinal: nat, event: E, how: How<S>): seq<JournalEntry> {
    if how.Complete? then [Started(ordinal), Completed(ordinal, A.encode(k, ordinal, event))] else [Started(ordinal)]
  }

  function Observe<S, E>(A: Behaviour<S, E>, trackers: seq<Tracker>, x: Instance<S, E>, event: E, how: How<S>): seq<Tracker> {
    if x.token.Some? && x.token.value < |trackers| then
      var k := x.token.value;
      trackers[k := trackers[k].(journal := trackers[k].journal + Entries(A, k, |x.uncommitted|, event, how))]
    else trackers
  }

  /** What dropping handle `k` finds in it. */
  function Finalization<S, E>(k: nat, x: Instance<S, E>): Result<nat, CollectError> {
    if x.token == Some(k) then Ok(|x.uncommitted|) else Err(TrackingLost)
  }

  function Step<S, E>(A: Behaviour<S, E>, W: World<S, E>, move: Move<S, E>): World<S, E> {
    match move
    case Load(base) =>
      World(W.places + [Place(true, Instance(Some(|W.trackers|), base, base, []))],
            W.handles + [|W.places|], W.trackers + [Tracker([], None)])
    case Create(initial) => W.(places := W.places + [Place(true, Instance(None, initial, initial, []))])
    case Raise(at, event, how) =>
      if !Open(W, at) then W
      else
        var x := W.places[at].instance;
        W.(places := W.places[at := Place(true, Raised(A, x, event, how))], trackers := Observe(A, W.trackers, x, event, how))
    case Swap(from, to) =>
      if !Open(W, from) || !Open(W, to) then W
      else W.(places := W.places[from := W.places[to]][to := W.places[from]])
    case Drop(k) =>
      if k >= |W.handles| || k >= |W.trackers| || !Open(W, W.handles[k]) then W
      else
        var at := W.handles[k];
        W.(places := W.places[at := W.places[at].(open := false)],
           trackers := W.trackers[k := W.trackers[k].(finalization := Some(Finalization(k, W.places[at].instance)))])
  }

  function Start<S, E>(): World<S, E> {
    World([], [], [])
  }

  function Run<S, E>(A: Behaviour<S, E>, moves: seq<Move<S, E>>): World<S, E> {
    if |moves| == 0 then Start() else Step(A, Run(A, moves[..|moves| - 1]), moves[|moves| - 1])
  }

  /** The move interrupts a raise on the instance of participant `k`. */
  predicate Interrupts<S, E>(W: World<S, E>, move: Move<S, E>, k: nat) {
    move.Raise? && Open(W, move.at) && W.places[move.at].instance.token == Some(k) && !move.how.Complete?
  }

  /** Some raise on the instance of participant `k` was interrupted. */
  predicate EverInterrupted<S, E>(A: Behaviour<S, E>, moves: seq<Move<S, E>>, k: nat) {
    |moves| > 0 &&
    (EverInterrupted(A, moves[..|moves| - 1], k) || Interrupts(Run(A, moves[..|moves| - 1]), moves[|moves| - 1], k))
  }

  // ----- What the journal says about the instance -----

  /** The state after applying the events in order. */
  function Fold<S, E>(apply: (S, E) -> S, base: S, events: seq<E>): S {
    if |events| == 0 then base else apply(Fold(apply, base, events[..|events| - 1]), events[|events| - 1])
  }

  /** The journal of complete raises of the given events. */
  function FullJournal<S, E>(A: Behaviour<S, E>, k: nat, events: seq<E>): seq<JournalEntry> {
    if |events| == 0 then []
    else
      var n := |events| - 1;
      FullJournal(A, k, events[..n]) + [Started(n), Completed(n, A.encode(k, n, events[n]))]
  }

  predicate AllEncode<S, E>(A: Behaviour<S, E>, k: nat, events: seq<E>) {
    forall i | 0 <= i < |events| :: A.encode(k, i, events[i]).Ok?
  }

  function Encodings<S, E>(A: Behaviour<S, E>, k: nat, events: seq<E>): (r: seq<NewEvent>)
    requires AllEncode(A, k, events)
    ensures |r| == |events|
  {
    seq(|events|, i requires 0 <= i < |events| => A.encode(k, i, events[i]).value)
  }

  /** A journal no continuation of raises can repair. */
  predicate Broken(journal: seq<JournalEntry>) {
    Scan(journal).Err? || Scan(journal).value.pending
  }

  lemma {:induction false} ScanFull<S, E>(A: Behaviour<S, E>, k: nat, events: seq<E>)
    ensures if AllEncode(A, k, events) then Scan(FullJournal(A, k, events)) == Ok(Progress(Encodings(A, k, events), false))
            else Scan(FullJournal(A, k, events)).Err?
  {
    if |events| > 0 {
      var n := |events| - 1;
      var earlier := events[..n];
      ScanFull(A, k, earlier);
      var journal := FullJournal(A, k, earlier);
      ScanSnoc(journal, Started(n));
      ScanSnoc(journal + [Started(n)], Completed(n, A.encode(k, n, events[n])));
      assert FullJournal(A, k, events) == journal + [Started(n)] + [Completed(n, A.encode(k, n, events[n]))];
      if AllEncode(A, k, events) {
        assert Encodings(A, k, events) == Encodings(A, k, earlier) + [A.encode(k, n, events[n]).value];
      }
    }
  }

  lemma BrokenStays<S, E>(A: Behaviour<S, E>, journal: seq<JournalEntry>, k: nat, ordinal: nat, event: E, how: How<S>)
    requires Broken(journal)
    ensures Broken(journal + Entries(A, k, ordinal, event, how))
  {
    ScanSnoc(journal, Started(ordinal));
    if how.Complete? {
      var c := Completed(ordinal, A.encode(k, ordinal, event));
      ScanSnoc(journal + [Started(ordinal)], c);
      assert journal + Entries(A, k, ordinal, event, how) == journal + [Started(ordinal)] + [c];
    }
  }

  lemma InterruptionBreaks<S, E>(A: Behaviour<S, E>, k: nat, events: seq<E>)
    ensures Broken(FullJournal(A, k, events) + [Started(|events|)])
  {
    ScanFull(A, k, events);
    ScanSnoc(FullJournal(A, k, events), Started(|events|));
  }

  lemma CompleteExtends<S, E>(A: Behaviour<S, E>, k: nat, events: seq<E>, event: E)
    ensures FullJournal(A, k, events + [event]) == FullJournal(A, k, events) + Entries(A, k, |events|, event, Complete)
  {
    assert (events + [event])[..|events|] == events;
  }

  lemma FoldExtends<S, E>(apply: (S, E) -> S, base: S, events: seq<E>, event: E)
    ensures Fold(apply, base, events + [event]) == apply(Fold(apply, base, events), event)
  {
    assert (events + [event])[..|events|] == events;
  }

  // ----- The invariant -----

  /** The journal of participant `k` is the faithful record of its instance, unless a raise was interrupted. */
  ghost predicate Faithful<S, E>(A: Behaviour<S, E>, journal: seq<JournalEntry>, x: Instance<S, E>, k: nat, interrupted: bool) {
    if interrupted then Broken(journal)
    else journal == FullJournal(A, k, x.uncommitted) && x.state == Fold(A.apply, x.base, x.uncommitted)
  }

  /** Each participant's instance is in at most one place, and its tracker exists. */
  predicate TokensUnique<S, E>(W: World<S, E>) {
    && (forall p | 0 <= p < |W.places| && W.places[p].instance.token.Some? :: W.places[p].instance.token.value < |W.trackers|)
    && (forall p, q | 0 <= p < q < |W.places| && W.places[p].instance.token.Some? ::
          W.places[p].instance.token != W.places[q].instance.token)
  }

  /** Every handle has its own place. */
  predicate HandlesPlaced<S, E>(W: World<S, E>) {
    && |W.handles| == |W.trackers|
    && (forall k | 0 <= k < |W.handles| :: W.handles[k] < |W.places|)
    && (forall j, k | 0 <= j < k < |W.handles| :: W.handles[j] != W.handles[k])
  }

  /** The finalization is recorded exactly when the handle was dropped, and says what it then held. */
  predicate Finalized<S, E>(W: World<S, E>, k: nat)
    requires HandlesPlaced(W) && k < |W.handles|
  {
    var place := W.places[W.handles[k]];
    W.trackers[k].finalization == if place.open then None else Some(Finalization(k, place.instance))
  }

  /** The instance in place `p` is observed for `k`, and the journal of `k` is faithful to it. */
  ghost predicate FaithfulAt<S, E>(A: Behaviour<S, E>, moves: seq<Move<S, E>>, W: World<S, E>, p: nat)
    requires TokensUnique(W) && p < |W.places|
  {
    W.places[p].instance.token.Some? ==>
      var k := W.places[p].instance.token.value;
      Faithful(A, W.trackers[k].journal, W.places[p].instance, k, EverInterrupted(A, moves, k))
  }

  ghost predicate Inv<S, E>(A: Behaviour<S, E>, moves: seq<Move<S, E>>, W: World<S, E>) {
    && TokensUnique(W) && HandlesPlaced(W)
    && (forall k | 0 <= k < |W.handles| :: Finalized(W, k))
    && (forall p | 0 <= p < |W.places| :: FaithfulAt(A, moves, W, p))
    && (forall k: nat | k >= |W.trackers| :: !EverInterrupted(A, moves, k))
  }

  // ----- Every move keeps the invariant -----

  lemma MovesSnoc<S, E>(A: Behaviour<S, E>, moves: seq<Move<S, E>>, move: Move<S, E>)
    ensures Run(A, moves + [move]) == Step(A, Run(A, moves), move)
    ensures forall k: nat :: EverInterrupted(A, moves + [move], k) <==> EverInterrupted(A, moves, k) || Interrupts(Run(A, moves), move, k)
  {
    assert (moves + [move])[..|moves|] == moves;
  }

  predicate Shaped<S, E>(W: World<S, E>) {
    TokensUnique(W) && HandlesPlaced(W)
  }

  lemma AddedKeepsShape<S, E>(A: Behaviour<S, E>, W: World<S, E>, move: Move<S, E>)
    requires Shaped(W) && (move.Load? || move.Create?)
    ensures Shaped(Step(A, W, move))
  {
  }

  lemma RaiseKeepsShape<S, E>(A: Behaviour<S, E>, W: World<S, E>, move: Move<S, E>)
    requires Shaped(W) && move.Raise?
    ensures Shaped(Step(A, W, move))
  {
  }

  lemma SwapKeepsShape<S, E>(A: Behaviour<S, E>, W: World<S, E>, move: Move<S, E>)
    requires Shaped(W) && move.Swap?
    ensures Shaped(Step(A, W, move))
  {
  }

  lemma DropKeepsShape<S, E>(A: Behaviour<S, E>, W: World<S, E>, move: Move<S, E>)
    requires Shaped(W) && move.Drop?
    ensures Shaped(Step(A, W, move))
  {
  }

  lemma TrackersStay<S, E>(A: Behaviour<S, E>, W: World<S, E>, move: Move<S, E>)
    ensures |Step(A, W, move).trackers| >= |W.trackers|
  {
  }

  /** The shape is kept: tokens stay unique and handles keep their places. */
  lemma ShapeKept<S, E>(A: Behaviour<S, E>, W: World<S, E>, move: Move<S, E>)
    requires Shaped(W)
    ensures Shaped(Step(A, W, move)) && |Step(A, W, move).trackers| >= |W.trackers|
  {
    TrackersStay(A, W, move);
    match move
    case Load(_) => AddedKeepsShape(A, W, move);
    case Create(_) => AddedKeepsShape(A, W, move);
    case Raise(_, _, _) => RaiseKeepsShape(A, W, move);
    case Swap(_, _) => SwapKeepsShape(A, W, move);
    case Drop(_) => DropKeepsShape(A, W, move);
  }

  lemma FinalizationsKept<S, E>(A: Behaviour<S, E>, W: World<S, E>, move: Move<S, E>)
    requires TokensUnique(W) && HandlesPlaced(W) && forall k | 0 <= k < |W.handles| :: Finalized(W, k)
    ensures var V := Step(A, W, move); HandlesPlaced(V) && forall k | 0 <= k < |V.handles| :: Finalized(V, k)
  {
    ShapeKept(A, W, move);
    var V := Step(A, W, move);
    forall k | 0 <= k < |V.handles| ensures Finalized(V, k) {
      if k < |W.handles| {
        assert Finalized(W, k);
      }
    }
  }

  /** Moving instances around changes no journal. */
  lemma MovedFaithful<S, E>(A: Behaviour<S, E>, moves: seq<Move<S, E>>, W: World<S, E>, move: Move<S, E>, p: nat)
    requires Inv(A, moves, W) && W == Run(A, moves) && !move.Raise? && TokensUnique(Step(A, W, move)) && p < |Step(A, W, move).places|
    ensures FaithfulAt(A, moves + [move], Step(A, W, move), p)
  {
    MovesSnoc(A, moves, move);
    var V := Step(A, W, move);
    var from := if move.Swap? && Open(W, move.from) && Open(W, move.to) then
                  (if p == move.to then move.from else if p == move.from then move.to else p)
                else p;
    if from < |W.places| {
      assert V.places[p].instance == W.places[from].instance;
      assert FaithfulAt(A, moves, W, from);
    }
  }

  lemma RaisedFaithful<S, E>(A: Behaviour<S, E>, journal: seq<JournalEntry>, x: Instance<S, E>, k: nat, interrupted: bool, event: E, how: How<S>)
    requires Faithful(A, journal, x, k, interrupted)
    ensures Faithful(A, journal + Entries(A, k, |x.uncommitted|, event, how), Raised(A, x, event, how), k, interrupted || !how.Complete?)
  {
    if interrupted {
      BrokenStays(A, journal, k, |x.uncommitted|, event, how);
    } else if how.Complete? {
      CompleteExtends(A, k, x.uncommitted, event);
      FoldExtends(A.apply, x.base, x.uncommitted, event);
    } else {
      InterruptionBreaks(A, k, x.uncommitted);
    }
  }

  lemma RaiseFaithful<S, E>(A: Behaviour<S, E>, moves: seq<Move<S, E>>, W: World<S, E>, move: Move<S, E>, p: nat)
    requires Inv(A, moves, W) && W == Run(A, moves) && move.Raise? && TokensUnique(Step(A, W, move)) && p < |W.places|
    ensures FaithfulAt(A, moves + [move], Step(A, W, move), p)
  {
    MovesSnoc(A, moves, move);
    assert FaithfulAt(A, moves, W, p);
    if Open(W, move.at) && W.places[p].instance.token.Some? {
      var x, k := W.places[p].instance, W.places[p].instance.token.value;
      if p == move.at {
        RaisedFaithful(A, W.trackers[k].journal, x, k, EverInterrupted(A, moves, k), move.event, move.how);
      } else {
        assert W.places[move.at].instance.token != Some(k);
      }
    }
  }

  lemma NoneInterruptedYet<S, E>(A: Behaviour<S, E>, moves: seq<Move<S, E>>, W: World<S, E>, move: Move<S, E>)
    requires Inv(A, moves, W) && W == Run(A, moves) && |Step(A, W, move).trackers| >= |W.trackers|
    ensures forall k: nat | k >= |Step(A, W, move).trackers| :: !EverInterrupted(A, moves + [move], k)
  {
    MovesSnoc(A, moves, move);
  }

  lemma {:induction false} RunSound<S, E>(A: Behaviour<S, E>, moves: seq<Move<S, E>>)
    ensures Inv(A, moves, Run(A, moves))
  {
    if |moves| > 0 {
      var earlier, move := moves[..|moves| - 1], moves[|moves| - 1];
      RunSound(A, earlier);
      assert moves == earlier + [move];
      StepSound(A, earlier, Run(A, earlier), move);
      MovesSnoc(A, earlier, move);
    }
  }

  lemma StepSound<S, E>(A: Behaviour<S, E>, moves: seq<Move<S, E>>, W: World<S, E>, move: Move<S, E>)
    requires Inv(A, moves, W) && W == Run(A, moves)
    ensures Inv(A, moves + [move], Step(A, W, move))
  {
    var V := Step(A, W, move);
    ShapeKept(A, W, move);
    FinalizationsKept(A, W, move);
    NoneInterruptedYet(A, moves, W, move);
    StepFaithful(A, moves, W, move, V);
  }

  lemma StepFaithful<S, E>(A: Behaviour<S, E>, moves: seq<Move<S, E>>, W: World<S, E>, move: Move<S, E>, V: World<S, E>)
    requires Inv(A, moves, W) && W == Run(A, moves) && V == Step(A, W, move) && TokensUnique(V)
    ensures forall p | 0 <= p < |V.places| :: FaithfulAt(A, moves + [move], V, p)
  {
    forall p | 0 <= p < |V.places| ensures FaithfulAt(A, moves + [move], V, p) {
      if move.Raise? {
        RaiseFaithful(A, moves, W, move, p);
      } else {
        MovedFaithful(A, moves, W, move, p);
      }
    }
  }

  // ----- Collecting -----

  /** What a caller must have done for participant `k` to be collected. */
  predicate Intact<S, E>(A: Behaviour<S, E>, moves: seq<Move<S, E>>, k: nat)
    requires HandlesPlaced(Run(A, moves)) && k < |Run(A, moves).handles|
  {
    var place := Run(A, moves).places[Run(A, moves).handles[k]];
    && !place.open
    && place.instance.token == Some(k)
    && !EverInterrupted(A, moves, k)
    && AllEncode(A, k, place.instance.uncommitted)
  }

  /**
   The journal fails closed: for every sequence of loads, raises, interruptions, swaps and drops,
   `collect` succeeds exactly if the handle was dropped holding its own instance, no raise on that
   instance was interrupted and every event encoded; it then returns the encodings of exactly the
   uncommitted events, in order, and the state is the base state with those events applied.
   */
  lemma CollectExact<S, E>(A: Behaviour<S, E>, moves: seq<Move<S, E>>, k: nat)
    requires k < |Run(A, moves).handles|
    ensures HandlesPlaced(Run(A, moves))
    ensures var W := Run(A, moves); var x := W.places[W.handles[k]].instance;
      var r := CollectResult(W.trackers[k].journal, W.trackers[k].finalization);
      && (r.Ok? <==> Intact(A, moves, k))
      && (r.Ok? ==> r.value == Encodings(A, k, x.uncommitted) && x.state == Fold(A.apply, x.base, x.uncommitted))
  {
    RunSound(A, moves);
    var W := Run(A, moves);
    assert Finalized(W, k);
    var place := W.places[W.handles[k]];
    if place.instance.token == Some(k) {
      assert FaithfulAt(A, moves, W, W.handles[k]);
      assert Faithful(A, W.trackers[k].journal, place.instance, k, EverInterrupted(A, moves, k));
      ScanFull(A, k, place.instance.uncommitted);
    }
  }

  /** Discarding fails closed on the instance alone: it succeeds exactly if the handle was dropped holding its own. */
  lemma DiscardExact<S, E>(A: Behaviour<S, E>, moves: seq<Move<S, E>>, k: nat)
    requires k < |Run(A, moves).handles|
    ensures HandlesPlaced(Run(A, moves))
    ensures var W := Run(A, moves); var place := W.places[W.handles[k]];
      DiscardResult(W.trackers[k].finalization) ==
        if place.open then Err(Outlived) else if place.instance.token == Some(k) then Ok(()) else Err(TrackingLost)
  {
    RunSound(A, moves);
    assert Finalized(Run(A, moves), k);
  }
}
