/**
 Aggregate instances and the handles they are loaded into, as mutable objects: raising tells the
 observers before and after the event is applied, and dropping a handle records what it held. The
 methods are proved against the moves of Journal.
 */
module Instances {
  import opened Wrappers
  import opened Identity
  import opened Records
  import opened Journal
  import opened Aggregates

  class AggregateInstance<S, E> {
    const behaviour: Behaviour<S, E>
    ghost const base: S
    var state: S
    var uncommitted: seq<E>
    var token: Option<nat>
    var tracker: ParticipantTracker?

    /** The observers come with a token. */
    ghost predicate Valid()
      reads this
    {
      token.Some? <==> tracker != null
    }

    ghost function View(): Instance<S, E>
      reads this
    {
      Instance(token, base, state, uncommitted)
    }

    /** `rehydrate`: the events applied in order to the initial state, observed by nobody. */
    constructor (behaviour: Behaviour<S, E>, initial: S, events: seq<E>)
      ensures Valid() && this.behaviour == behaviour
      ensures View() == Instance(None, Fold(behaviour.apply, initial, events), Fold(behaviour.apply, initial, events), [])
    {
      var now := initial;
      for i := 0 to |events|
        invariant now == Fold(behaviour.apply, initial, events[..i])
      {
        assert events[..i + 1] == events[..i] + [events[i]];
        FoldExtends(behaviour.apply, initial, events[..i], events[i]);
        now := behaviour.apply(now, events[i]);
      }
      assert events[..|events|] == events;
      this.behaviour := behaviour;
      base := now;
      state, uncommitted, token, tracker := now, [], None, null;
    }

    /** `observe_raised_events`: from now on raises are written to the tracker of participant `k`. */
    method Observe(k: nat, tracker: ParticipantTracker)
      modifies this
      ensures Valid() && View() == old(View()).(token := Some(k)) && this.tracker == tracker
    {
      token, this.tracker := Some(k), tracker;
    }

    /** `raise`: tells the start, applies, keeps the event, and tells its encoding. */
    method Raise(event: E)
      requires Valid()
      modifies this, tracker
      ensures Valid() && View() == Raised(behaviour, old(View()), event, Complete) && tracker == old(tracker)
      ensures tracker != null ==>
        && tracker.finalization == old(tracker.finalization)
        && tracker.journal == old(tracker.journal) + Entries(behaviour, token.value, |old(uncommitted)|, event, Complete)
    {
      var ordinal := |uncommitted|;
      if tracker != null {
        tracker.Push(Started(ordinal));
      }
      state := behaviour.apply(state, event);
      uncommitted := uncommitted + [event];
      if tracker != null {
        tracker.Push(Completed(ordinal, behaviour.encode(token.value, ordinal, event)));
      }
    }

    method RaiseAll(events: seq<E>)
      requires Valid() && tracker != null && Faithful(behaviour, tracker.journal, View(), token.value, false)
      modifies this, tracker
      ensures Valid() && tracker == old(tracker) && token == old(token)
      ensures uncommitted == old(uncommitted) + events && tracker.finalization == old(tracker.finalization)
      ensures Faithful(behaviour, tracker.journal, View(), token.value, false)
    {
      for i := 0 to |events|
        invariant Valid() && tracker == old(tracker) && token == old(token)
        invariant uncommitted == old(uncommitted) + events[..i] && tracker.finalization == old(tracker.finalization)
        invariant Faithful(behaviour, tracker.journal, View(), token.value, false)
      {
        RaisedFaithful(behaviour, tracker.journal, View(), token.value, false, events[i], Complete);
        Raise(events[i]);
      }
    }
  }

  /** A loaded handle: the instance it holds now, and the participant it was loaded for. */
  class LoadedAggregate<S, E> {
    var aggregate: AggregateInstance<S, E>
    const token: nat
    const participant: ParticipantTracker

    constructor (aggregate: AggregateInstance<S, E>, token: nat, participant: ParticipantTracker)
      ensures this.aggregate == aggregate && this.token == token && this.participant == participant
    {
      this.aggregate, this.token, this.participant := aggregate, token, participant;
    }

    /** Handlers may move instances between handles; observers and tokens move with them. */
    method Swap(other: LoadedAggregate<S, E>)
      modifies this, other
      ensures aggregate == old(other.aggregate) && other.aggregate == old(aggregate)
    {
      aggregate, other.aggregate := other.aggregate, aggregate;
    }

    /** `drop`: records the number of events if the handle still holds its own instance. */
    method Drop()
      modifies participant`finalization
      ensures participant.finalization == Some(Finalization(token, aggregate.View()))
    {
      participant.finalization := Some(if aggregate.token == Some(token) then Ok(|aggregate.uncommitted|) else Err(TrackingLost));
    }
  }

  /** The decoding and enlisting part of `load`: participant `k` with the state its history says. */
  method Load<S, E(!new)>(G: Aggregate<S, E>, behaviour: Behaviour<S, E>, k: nat, s: StreamId, h: seq<RecordedEvent>) returns (r: Option<LoadedAggregate<S, E>>)
    requires behaviour.apply == G.apply
    ensures r.Some? <==> Rehydrate(G, s, h).Some?
    ensures r.Some? ==>
      && fresh(r.value) && fresh(r.value.aggregate) && fresh(r.value.participant) && r.value.token == k
      && r.value.aggregate.Valid() && r.value.aggregate.behaviour == behaviour && r.value.aggregate.tracker == r.value.participant
      && r.value.aggregate.View() == Instance(Some(k), Rehydrate(G, s, h).value, Rehydrate(G, s, h).value, [])
      && r.value.participant.journal == [] && r.value.participant.finalization == None
  {
    var events: seq<E> := [];
    for i := 0 to |h|
      invariant DecodeAll(G, h[..i]) == Some(events)
    {
      assert h[..i + 1][..i] == h[..i];
      var event := G.decode(h[i]);
      if event.None? {
        DecodeFails(G, h, i + 1);
        return None;
      }
      events := events + [event.value];
    }
    assert h[..|h|] == h;
    var instance := new AggregateInstance<S, E>(behaviour, G.initial(s), events);
    var tracker := new ParticipantTracker();
    instance.Observe(k, tracker);
    var loaded := new LoadedAggregate<S, E>(instance, k, tracker);
    return Some(loaded);
  }

  lemma {:induction false} DecodeFails<S, E>(G: Aggregate<S, E>, h: seq<RecordedEvent>, n: nat)
    requires n <= |h| && DecodeAll(G, h[..n]).None?
    ensures DecodeAll(G, h).None?
  {
    if n < |h| {
      assert h[..|h| - 1][..n] == h[..n];
      DecodeFails(G, h[..|h| - 1], n);
    } else {
      assert h[..n] == h;
    }
  }

  /**
   One undisturbed participant from load to collection: what is collected are the encodings of the
   raised events in order, exactly if all of them encode, and the state is the loaded one with them applied.
   */
  method Attempt<S, E(!new)>(G: Aggregate<S, E>, behaviour: Behaviour<S, E>, k: nat, s: StreamId, h: seq<RecordedEvent>, events: seq<E>)
    returns (state: S, collected: Result<seq<NewEvent>, CollectError>)
    requires behaviour.apply == G.apply && Rehydrate(G, s, h).Some?
    ensures collected.Ok? <==> AllEncode(behaviour, k, events)
    ensures collected.Ok? ==> collected.value == Encodings(behaviour, k, events)
    ensures state == Fold(G.apply, Rehydrate(G, s, h).value, events)
  {
    var loaded := Load(G, behaviour, k, s, h);
    var aggregate, participant := loaded.value.aggregate, loaded.value.participant;
    aggregate.RaiseAll(events);
    assert aggregate.uncommitted == events;
    loaded.value.Drop();
    ScanFull(behaviour, k, events);
    collected := participant.Collect();
    state := aggregate.state;
  }
}
