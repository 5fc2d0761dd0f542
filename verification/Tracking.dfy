/**
 The tracking store: a wrapper that remembers every event appended through it,
 with a version worked out from the version that the wrapped store returned.
 */
module Tracking {
  import opened Versions
  import opened EventStore

  /** The entries recorded for a batch, from the version that the append returned. */
  function Entries<E>(id: StreamID, v: Version, events: seq<E>): (entries: seq<Persisted<E>>)
    ensures |entries| == |events|
  {
    seq(|events|, i requires 0 <= i < |events| =>
      Persisted(id, Plus(Plus(Minus(v, |events|), i), 1), events[i]))
  }

  class TrackingStore<E> {
    const store: InMemoryStore<E>
    var recorded: seq<Persisted<E>>

    constructor (store: InMemoryStore<E>)
      ensures this.store == store && recorded == []
    {
      this.store := store;
      recorded := [];
    }

    /** Forwards to the wrapped store; only an append that succeeded is recorded. */
    method Append(id: StreamID, expected: Check, events: seq<E>) returns (r: Appended<E>)
      modifies this, store
      ensures r == AppendTo(old(store.events), id, expected, events)
      ensures Tracked(store.events, recorded)
           == Take(Tracked(old(store.events), old(recorded)), Through(id, expected, events))
    {
      r := store.Append(id, expected, events);
      if r.Rejected? {
        return;
      }
      var previousVersion := Minus(r.version, |events|);
      for i := 0 to |events|
        invariant store.events == r.streams
        invariant recorded == old(recorded) + Entries(id, r.version, events)[..i]
      {
        recorded := recorded + [Persisted(id, Plus(Plus(previousVersion, i), 1), events[i])];
      }
      assert recorded == old(recorded) + Entries(id, r.version, events);
    }
  }

  // ------------------------------------------------------------- runs

  /** The wrapped store's streams and what the tracker has recorded. */
  datatype Tracked<E> = Tracked(streams: Streams<E>, recorded: seq<Persisted<E>>)

  /** Appends go through the tracker or directly to the store it wraps. */
  datatype Act<E> =
    | Through(id: StreamID, expected: Check, events: seq<E>)
    | Direct(id: StreamID, expected: Check, events: seq<E>)

  function Take<E>(t: Tracked<E>, act: Act<E>): Tracked<E> {
    match AppendTo(t.streams, act.id, act.expected, act.events)
    case Rejected(_) => t
    case Accepted(v, streams) =>
      Tracked(streams, if act.Through? then t.recorded + Entries(act.id, v, act.events) else t.recorded)
  }

  function Run<E>(acts: seq<Act<E>>): Tracked<E> {
    if acts == [] then Tracked(map[], []) else Take(Run(acts[..|acts| - 1]), acts[|acts| - 1])
  }

  /** Exactly the appends that went through the tracker and were accepted are recorded, whole. */
  lemma {:induction false} RecordsExactly<E>(t: Tracked<E>, act: Act<E>)
    ensures var r := AppendTo(t.streams, act.id, act.expected, act.events);
            Take(t, act).recorded
            == t.recorded + (if act.Through? && r.Accepted? then Entries(act.id, r.version, act.events) else [])
    ensures t.recorded <= Take(t, act).recorded
  {
  }

  ghost predicate Short<E>(streams: Streams<E>) {
    forall id :: |StreamOf(streams, id)| < WRAP
  }

  /** An entry is the event that its stream holds at its version. */
  ghost predicate Faithful<E>(t: Tracked<E>, entry: Persisted<E>) {
    var log := StreamOf(t.streams, entry.streamID);
    1 <= entry.version <= |log| && log[entry.version - 1] == entry.envelope
  }

  ghost predicate AllFaithful<E>(t: Tracked<E>) {
    forall i :: 0 <= i < |t.recorded| ==> Faithful(t, t.recorded[i])
  }

  /** The versions recorded for one stream only go up. */
  ghost predicate Increasing<E>(recorded: seq<Persisted<E>>) {
    forall i, j :: 0 <= i < j < |recorded| && recorded[i].streamID == recorded[j].streamID ==>
                     recorded[i].version < recorded[j].version
  }

  /** The versions reconstructed for a batch are the positions it was given. */
  lemma {:induction false} EntriesArePositions<E>(id: StreamID, n: nat, events: seq<E>)
    requires n + |events| < WRAP
    ensures forall i :: 0 <= i < |events| ==>
              Entries(id, ToVersion(n + |events|), events)[i] == Persisted(id, n + i + 1, events[i])
  {
    PlusToVersion(n, |events|);
    MinusPlus(ToVersion(n), |events|);
    forall i | 0 <= i < |events|
      ensures Entries(id, ToVersion(n + |events|), events)[i] == Persisted(id, n + i + 1, events[i])
    {
      PlusToVersion(n, i);
      PlusToVersion(n + i, 1);
    }
  }

  /** Streams only grow. */
  lemma {:induction false} TakeGrows<E>(t: Tracked<E>, act: Act<E>)
    ensures forall id :: StreamOf(t.streams, id) <= StreamOf(Take(t, act).streams, id)
    ensures Short(Take(t, act).streams) ==> Short(t.streams)
  {
    AppendMeaning(t.streams, act.id, act.expected, act.events);
    forall id
      ensures StreamOf(t.streams, id) <= StreamOf(Take(t, act).streams, id)
      ensures |StreamOf(t.streams, id)| <= |StreamOf(Take(t, act).streams, id)|
    {
    }
  }

  lemma {:induction false} StaysFaithful<E>(t: Tracked<E>, act: Act<E>, entry: Persisted<E>)
    requires Faithful(t, entry)
    ensures Faithful(Take(t, act), entry) && entry.version <= |StreamOf(t.streams, entry.streamID)|
  {
    TakeGrows(t, act);
    assert StreamOf(t.streams, entry.streamID) <= StreamOf(Take(t, act).streams, entry.streamID);
  }

  lemma {:induction false} NewEntryIsFaithful<E>(t: Tracked<E>, act: Act<E>, i: nat)
    requires act.Through? && AppendTo(t.streams, act.id, act.expected, act.events).Accepted? && i < |act.events|
    requires Short(Take(t, act).streams)
    ensures var entry := Entries(act.id, AppendTo(t.streams, act.id, act.expected, act.events).version, act.events)[i];
            && Faithful(Take(t, act), entry)
            && entry.streamID == act.id && entry.version == |StreamOf(t.streams, act.id)| + i + 1
  {
    var log := StreamOf(t.streams, act.id);
    assert StreamOf(Take(t, act).streams, act.id) == log + act.events;
    EntriesArePositions(act.id, |log|, act.events);
  }

  lemma {:induction false} TakeKeepsFaith<E>(t: Tracked<E>, act: Act<E>)
    requires AllFaithful(t) && Increasing(t.recorded) && Short(Take(t, act).streams)
    ensures AllFaithful(Take(t, act)) && Increasing(Take(t, act).recorded)
  {
    var r := AppendTo(t.streams, act.id, act.expected, act.events);
    forall i | 0 <= i < |t.recorded|
      ensures Faithful(Take(t, act), t.recorded[i])
      ensures t.recorded[i].version <= |StreamOf(t.streams, t.recorded[i].streamID)|
    {
      StaysFaithful(t, act, t.recorded[i]);
    }
    if act.Through? && r.Accepted? {
      forall i | 0 <= i < |act.events|
        ensures var entry := Entries(act.id, r.version, act.events)[i];
                && Faithful(Take(t, act), entry)
                && entry.streamID == act.id && entry.version == |StreamOf(t.streams, act.id)| + i + 1
      {
        NewEntryIsFaithful(t, act, i);
      }
    }
  }

  /**
   Tracking is faithful: in every mix of appends through the tracker and directly
   to the wrapped store that leaves streams shorter than 2^32, each recorded entry
   is the event its stream holds at its version, and the versions recorded for a
   stream strictly increase.
   */
  lemma {:induction false} TrackingIsFaithful<E>(acts: seq<Act<E>>)
    requires Short(Run(acts).streams)
    ensures AllFaithful(Run(acts)) && Increasing(Run(acts).recorded)
  {
    if acts != [] {
      var before, act := Run(acts[..|acts| - 1]), acts[|acts| - 1];
      TakeGrows(before, act);
      TrackingIsFaithful(acts[..|acts| - 1]);
      TakeKeepsFaith(before, act);
    }
  }

  /** The recorded entries of one stream. */
  function OfStream<E>(recorded: seq<Persisted<E>>, id: StreamID): seq<Persisted<E>> {
    if recorded == [] then []
    else
      var last := recorded[|recorded| - 1];
      OfStream(recorded[..|recorded| - 1], id) + (if last.streamID == id then [last] else [])
  }

  lemma {:induction false} OfStreamSplits<E>(a: seq<Persisted<E>>, b: seq<Persisted<E>>, id: StreamID)
    ensures OfStream(a + b, id) == OfStream(a, id) + OfStream(b, id)
  {
    if b == [] {
      assert a + b == a;
    } else {
      assert (a + b)[..|a + b| - 1] == a + b[..|b| - 1];
      OfStreamSplits(a, b[..|b| - 1], id);
    }
  }

  lemma {:induction false} OfOneStream<E>(entries: seq<Persisted<E>>, of: StreamID, id: StreamID)
    requires forall i :: 0 <= i < |entries| ==> entries[i].streamID == of
    ensures OfStream(entries, id) == if id == of then entries else []
  {
    if entries != [] {
      OfOneStream(entries[..|entries| - 1], of, id);
    }
  }

  /** What streaming a whole log yields. */
  function Whole<E>(log: seq<E>, id: StreamID): seq<Persisted<E>> {
    Selected(log, id, 0, |log|)
  }

  /** Iteration and tracking number the events of a batch in the same way, even past 2^32. */
  lemma {:induction false} WholeGrows<E>(log: seq<E>, id: StreamID, events: seq<E>, k: nat)
    requires k <= |events|
    ensures Selected(log + events, id, 0, |log| + k)
         == Whole(log, id) + Entries(id, ToVersion(|log| + |events|), events)[..k]
  {
    if k == 0 {
      SelectedStable(log, events, id, 0, |log|);
    } else {
      WholeGrows(log, id, events, k - 1);
      PlusToVersion(|log|, |events|);
      MinusPlus(ToVersion(|log|), |events|);
      PlusToVersion(|log|, k - 1);
    }
  }

  lemma {:induction false} WholeGrowsBy<E>(log: seq<E>, id: StreamID, events: seq<E>)
    ensures Whole(log + events, id) == Whole(log, id) + Entries(id, ToVersion(|log + events|), events)
  {
    var entries := Entries(id, ToVersion(|log| + |events|), events);
    WholeGrows(log, id, events, |events|);
    assert entries[..|events|] == entries;
  }

  lemma {:induction false} TakeKeepsComplete<E>(t: Tracked<E>, act: Act<E>, id: StreamID)
    requires act.Through?
    requires OfStream(t.recorded, id) == Whole(StreamOf(t.streams, id), id)
    ensures OfStream(Take(t, act).recorded, id) == Whole(StreamOf(Take(t, act).streams, id), id)
  {
    var r := AppendTo(t.streams, act.id, act.expected, act.events);
    if r.Accepted? {
      var entries := Entries(act.id, r.version, act.events);
      OfStreamSplits(t.recorded, entries, id);
      OfOneStream(entries, act.id, id);
      if id == act.id {
        WholeGrowsBy(StreamOf(t.streams, id), id, act.events);
      } else {
        assert OfStream(t.recorded, id) + [] == OfStream(t.recorded, id);
      }
    }
  }

  /** When every append goes through the tracker, what it recorded of a stream is the stream. */
  lemma {:induction false} TrackingIsComplete<E>(acts: seq<Act<E>>, id: StreamID)
    requires forall i :: 0 <= i < |acts| ==> acts[i].Through?
    ensures OfStream(Run(acts).recorded, id) == Whole(StreamOf(Run(acts).streams, id), id)
  {
    if acts != [] {
      var before, act := Run(acts[..|acts| - 1]), acts[|acts| - 1];
      TrackingIsComplete(acts[..|acts| - 1], id);
      TakeKeepsComplete(before, act, id);
    }
  }
}
