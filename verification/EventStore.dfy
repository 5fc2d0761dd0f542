/**
 The in-memory event store: one append-only log per stream identifier, an
 optimistic concurrency check on append, and lazy iteration over a suffix of a
 stream. The read-write lock is modelled in module Concurrency; here every
 method runs with the lock it takes already held.
 */
module EventStore {
  import opened Options
  import opened Versions

  /** Stream names are texts of identifiers; they are only ever compared, so a number stands for each. */
  type StreamID = nat

  type Streams<E> = map<StreamID, seq<E>>

  datatype Persisted<E> = Persisted(streamID: StreamID, version: Version, envelope: E)

  /** Looking up a missing key of the map of logs gives the empty log. */
  function StreamOf<E>(streams: Streams<E>, id: StreamID): seq<E> {
    if id in streams then streams[id] else []
  }

  // ------------------------------------------------------------- appending

  datatype Appended<E> =
    | Accepted(version: Version, streams: Streams<E>)
    | Rejected(conflict: ConflictError)

  function AppendTo<E>(streams: Streams<E>, id: StreamID, expected: Check, events: seq<E>): Appended<E> {
    var current := ToVersion(|StreamOf(streams, id)|);
    if expected.CheckExact? && current != expected.version then
      Rejected(ConflictError(expected.version, current))
    else
      var log := StreamOf(streams, id) + events;
      Accepted(ToVersion(|log|), streams[id := log])
  }

  /**
   What an append does to every stream, and exactly when it is refused: an exact
   check passes when the length differs from the expected version by a multiple
   of 2^32, that is only on equality while streams are shorter than that.
   */
  lemma {:induction false} AppendMeaning<E>(streams: Streams<E>, id: StreamID, expected: Check, events: seq<E>)
    ensures var r := AppendTo(streams, id, expected, events);
            && (r.Rejected? <==> expected.CheckExact? && !Congruent(|StreamOf(streams, id)|, expected.version))
            && (r.Rejected? ==>
                  r.conflict == ConflictError(expected.version, ToVersion(|StreamOf(streams, id)|)))
            && (r.Rejected? && |StreamOf(streams, id)| < WRAP ==> r.conflict.actual == |StreamOf(streams, id)|)
            && (r.Accepted? ==>
                  && r.version == Plus(ToVersion(|StreamOf(streams, id)|), |events|)
                  && StreamOf(r.streams, id) == StreamOf(streams, id) + events
                  && forall other :: other != id ==> StreamOf(r.streams, other) == StreamOf(streams, other))
  {
    if expected.CheckExact? {
      SameVersion(|StreamOf(streams, id)|, expected.version);
    }
    PlusToVersion(|StreamOf(streams, id)|, |events|);
  }

  // ------------------------------------------------------------- selecting

  /** The events among the first n of a log whose version is at least `from`, as they are yielded. */
  function Selected<E>(log: seq<E>, id: StreamID, from: Version, n: nat): seq<Persisted<E>>
    requires n <= |log|
  {
    if n == 0 then []
    else
      var version := Plus(ToVersion(n - 1), 1);
      Selected(log, id, from, n - 1) + (if version < from then [] else [Persisted(id, version, log[n - 1])])
  }

  /** The number of events that a selector leaves out: versions start from 1. */
  function Skipped(from: Version): nat {
    if from == 0 then 0 else from - 1
  }

  /**
   On a stream shorter than 2^32 the selected events are the contiguous suffix
   that starts at the selected version, each with its position as version.
   */
  lemma {:induction false} SelectedIsSuffix<E>(log: seq<E>, id: StreamID, from: Version, n: nat)
    requires n <= |log| && n < WRAP
    ensures var s := Selected(log, id, from, n);
            && |s| == (if n <= Skipped(from) then 0 else n - Skipped(from))
            && forall k :: 0 <= k < |s| ==>
                 s[k] == Persisted(id, Skipped(from) + k + 1, log[Skipped(from) + k])
  {
    if n > 0 {
      SelectedIsSuffix(log, id, from, n - 1);
      PlusToVersion(n - 1, 1);
    }
  }

  /** Selecting looks only at the events it has reached, so appends do not change it. */
  lemma {:induction false} SelectedStable<E>(log: seq<E>, more: seq<E>, id: StreamID, from: Version, n: nat)
    requires n <= |log|
    ensures Selected(log + more, id, from, n) == Selected(log, id, from, n)
  {
    if n > 0 {
      SelectedStable(log, more, id, from, n - 1);
    }
  }

  /** What has been yielded at any point is a prefix of what a complete iteration yields. */
  lemma {:induction false} SelectedPrefix<E>(log: seq<E>, id: StreamID, from: Version, n: nat, m: nat)
    requires n <= m <= |log|
    ensures Selected(log, id, from, n) <= Selected(log, id, from, m)
    decreases m - n
  {
    if n < m {
      SelectedPrefix(log, id, from, n, m - 1);
    }
  }

  /** The events of one stream in an interleaving of streams. */
  function EventsOf<E>(history: seq<Persisted<E>>, id: StreamID): seq<E> {
    if history == [] then []
    else
      var last := history[|history| - 1];
      EventsOf(history[..|history| - 1], id) + (if last.streamID == id then [last.envelope] else [])
  }

  // ------------------------------------------------------------- the store

  class InMemoryStore<E> {
    var events: Streams<E>

    constructor ()
      ensures events == map[]
    {
      events := map[];
    }

    /** Appends under the version check; a refused append changes nothing. */
    method Append(id: StreamID, expected: Check, batch: seq<E>) returns (r: Appended<E>)
      modifies this
      ensures r == AppendTo(old(events), id, expected, batch)
      ensures events == if r.Accepted? then r.streams else old(events)
    {
      var currentVersion := ToVersion(if id in events then |events[id]| else 0);
      match expected {
        case CheckExact(v) =>
          if currentVersion != v {
            return Rejected(ConflictError(v, currentVersion));
          }
        case CheckAny =>
      }
      events := events[id := (if id in events then events[id] else []) + batch];
      r := Accepted(ToVersion(|events[id]|), events);
    }

    /** Opens a stream; nothing is read before its iteration starts. */
    method Stream(id: StreamID, from: Version, cancelAt: Option<nat>) returns (stream: EventStream<E>)
      ensures fresh(stream) && stream.Valid() && stream.store == this && stream.id == id && stream.from == from
      ensures stream.cancelAt == cancelAt && !stream.iterated && !stream.live && stream.err == None
    {
      stream := new EventStream(this, id, from, cancelAt);
    }
  }

  datatype StreamError = ContextDone | AlreadyIterated

  /**
   A single-use stream and the producer that feeds it. The producer is a loop
   that pushes events to the consumer; `Next` runs it up to its next yield, and
   `Break` is the consumer leaving its loop. The context is found done at the
   check before event number `cancelAt` and at every later one.
   */
  class EventStream<E> {
    const store: InMemoryStore<E>
    const id: StreamID
    const from: Version
    const cancelAt: Option<nat>

    var pos: nat
    var iterated: bool
    var live: bool
    var err: Option<StreamError>

    constructor (store: InMemoryStore<E>, id: StreamID, from: Version, cancelAt: Option<nat>)
      ensures this.store == store && this.id == id && this.from == from && this.cancelAt == cancelAt
      ensures Valid() && pos == 0 && !iterated && !live && err == None
    {
      this.store, this.id, this.from, this.cancelAt := store, id, from, cancelAt;
      pos, iterated, live, err := 0, false, false, None;
    }

    ghost function Log(): seq<E>
      reads store
    {
      StreamOf(store.events, id)
    }

    /** How many events the producer looks at before it ends by itself. */
    ghost function Reach(): nat
      reads store
    {
      if cancelAt.Some? && cancelAt.value < |Log()| then cancelAt.value else |Log()|
    }

    ghost predicate Valid()
      reads this, store
    {
      && (live ==> iterated && pos <= Reach())
      && (!iterated ==> err == None)
    }

    /** Where the stream stands after an iteration was offered `next`. */
    ghost predicate Offered(next: Option<Persisted<E>>)
      reads this, store
    {
      && Valid()
      && pos <= Reach()
      && (next.Some? ==>
            live && 0 < pos && next.value.envelope == Log()[pos - 1] && next.value.version == ToVersion(pos))
      && (next.None? ==> pos == Reach() && err == if pos < |Log()| then Some(ContextDone) else None)
    }

    /**
     Only the first call gives the sequence that runs the producer. A later call
     gives an empty one and leaves an error behind; an iteration that is under way
     goes on.
     */
    method Iter() returns (producing: bool)
      requires Valid()
      modifies this
      ensures Valid() && iterated && live == old(live) && pos == old(pos)
      ensures producing <==> !old(iterated)
      ensures err == if old(iterated) then Some(AlreadyIterated) else None
    {
      if iterated {
        err := Some(AlreadyIterated);
        return false;
      }
      iterated := true;
      producing := true;
    }

    /** Every time the producing sequence is ranged over, the producer runs from the start of the stream. */
    method Range()
      requires Valid() && iterated && !live
      modifies this
      ensures Valid() && iterated && live && pos == 0 && err == old(err)
    {
      pos, live := 0, true;
    }

    /**
     The next event, or the end. However it ends, what has been yielded so far is
     the selection among the first `pos` events; it ends without an error only
     after the whole stream.
     */
    method Next() returns (r: Option<Persisted<E>>)
      requires Valid() && live
      modifies this
      ensures Valid() && iterated
      ensures old(pos) <= pos <= Reach()
      ensures Selected(Log(), id, from, pos) ==
              Selected(Log(), id, from, old(pos)) + (if r.Some? then [r.value] else [])
      ensures Offered(r) && (r.Some? <==> live && old(pos) < pos)
      ensures from == 0 ==> pos == old(pos) + (if r.Some? then 1 else 0)
      ensures if r.Some? then err == old(err) else !live
    {
      var events := if id in store.events then store.events[id] else [];
      while pos < |events|
        invariant live && iterated && err == old(err)
        invariant events == Log()
        invariant old(pos) <= pos <= Reach() && (from == 0 ==> pos == old(pos))
        invariant Selected(Log(), id, from, pos) == Selected(Log(), id, from, old(pos))
      {
        if cancelAt.Some? && cancelAt.value <= pos {
          live, err := false, Some(ContextDone);
          return None;
        }
        var eventVersion := Plus(ToVersion(pos), 1);
        PlusToVersion(pos, 1);
        pos := pos + 1;
        if from <= eventVersion {
          return Some(Persisted(id, eventVersion, events[pos - 1]));
        }
      }
      live, err := false, None;
      r := None;
    }

    /** The start of a loop over the stream: its first event, or the end. */
    method First() returns (r: Option<Persisted<E>>)
      requires Valid() && !iterated && !live
      modifies this
      ensures Offered(r) && iterated && (r.None? ==> !live)
      ensures Selected(Log(), id, from, pos) == if r.Some? then [r.value] else []
      ensures from == 0 ==> pos == if r.Some? then 1 else 0
    {
      var producing := Iter();
      Range();
      r := Next();
    }

    /** Leaving the loop is not a failure. */
    method Break()
      requires Valid() && live
      modifies this
      ensures Valid() && !live && err == None && iterated && pos == old(pos)
    {
      live, err := false, None;
    }
  }
}
