/**
 The query scenario: given events are appended to a fresh in-memory store, each
 with an exact check on the version before its own, and fed to the query handler;
 then the query is handled. The handler here is the projection of users by email.
 */
module Scenario {
  import opened Options
  import opened Versions
  import opened EventStore
  import opened Users
  import opened EmailIndex

  // ------------------------------------------------------------- given events

  /** The streams after the given events, or nothing when an append is refused. */
  function Given<E>(given: seq<Persisted<E>>): Option<Streams<E>> {
    if given == [] then Some(map[])
    else
      var last := given[|given| - 1];
      match Given(given[..|given| - 1])
      case None => None
      case Some(streams) =>
        match AppendTo(streams, last.streamID, CheckExact(Minus(last.version, 1)), [last.envelope])
        case Rejected(_) => None
        case Accepted(_, after) => Some(after)
  }

  /** Event number i carries the version of its place in its own stream. */
  predicate NumberedAt<E>(given: seq<Persisted<E>>, i: nat)
    requires i < |given|
  {
    given[i].version == ToVersion(|EventsOf(given[..i], given[i].streamID)| + 1)
  }

  /** Subtracting one from a version gives a length exactly when the version is that of one more. */
  lemma {:induction false} OneBefore(v: Version, n: nat)
    ensures Minus(v, 1) == ToVersion(n) <==> v == ToVersion(n + 1)
  {
    MinusPlus(v, 1);
    MinusPlus(ToVersion(n), 1);
    PlusToVersion(n, 1);
  }

  /**
   The given events are accepted exactly when each carries the version of its
   place in its own stream, and then the store holds exactly them.
   */
  lemma {:induction false} GivensAreAccepted<E>(given: seq<Persisted<E>>)
    ensures Given(given).Some? <==> forall i :: 0 <= i < |given| ==> NumberedAt(given, i)
    ensures Given(given).Some? ==> forall id :: StreamOf(Given(given).value, id) == EventsOf(given, id)
  {
    if given != [] {
      var before, last := given[..|given| - 1], given[|given| - 1];
      GivensAreAccepted(before);
      forall i | 0 <= i < |before|
        ensures NumberedAt(given, i) <==> NumberedAt(before, i)
      {
        assert given[..i] == before[..i];
      }
      assert (forall i :: 0 <= i < |given| ==> NumberedAt(given, i)) <==>
             (forall i :: 0 <= i < |before| ==> NumberedAt(before, i)) && NumberedAt(given, |given| - 1);
      if Given(before).Some? {
        OneBefore(last.version, |EventsOf(before, last.streamID)|);
      }
    }
  }

  lemma {:induction false} EventsOfPrefix<E>(given: seq<Persisted<E>>, n: nat, id: StreamID)
    requires n <= |given|
    ensures EventsOf(given[..n], id) <= EventsOf(given, id)
  {
    if n == |given| {
      assert given[..n] == given;
    } else {
      EventsOfPrefix(given[..|given| - 1], n, id);
      assert given[..|given| - 1][..n] == given[..n];
    }
  }

  /**
   On streams shorter than 2^32 the given events are accepted exactly when each
   version is one more than the number of earlier events of its own stream; in
   particular version 0 is refused, although subtracting from it wraps around.
   */
  lemma {:induction false} GivensOnShortStreams<E>(given: seq<Persisted<E>>)
    requires forall id :: |EventsOf(given, id)| < WRAP
    ensures Given(given).Some? <==>
            forall i :: 0 <= i < |given| ==> given[i].version == |EventsOf(given[..i], given[i].streamID)| + 1
    ensures Given(given).Some? ==> forall i :: 0 <= i < |given| ==> given[i].version != 0
  {
    GivensAreAccepted(given);
    forall i | 0 <= i < |given|
      ensures NumberedAt(given, i) <==> given[i].version == |EventsOf(given[..i], given[i].streamID)| + 1
    {
      EventsOfPrefix(given, i + 1, given[i].streamID);
      assert given[..i + 1][..i] == given[..i];
      SmallVersion(|EventsOf(given[..i], given[i].streamID)| + 1);
    }
  }

  // ------------------------------------------------------------- the scenario

  datatype Outcome = NotAppended | NotProcessed(error: ProcessError) | Queried(view: Option<UserView>)

  datatype Progress = Going(streams: Streams<UserEvent>, index: Index) | Stopped(outcome: Outcome)

  /** The scenario stops at the first event that is not appended or not processed. */
  function Progressed(given: History): Progress {
    if given == [] then Going(map[], EMPTY)
    else
      var last := given[|given| - 1];
      match Progressed(given[..|given| - 1])
      case Stopped(outcome) => Stopped(outcome)
      case Going(streams, index) =>
        match AppendTo(streams, last.streamID, CheckExact(Minus(last.version, 1)), [last.envelope])
        case Rejected(_) => Stopped(NotAppended)
        case Accepted(_, after) =>
          var r := Project(index, last);
          if r.err.Some? then Stopped(NotProcessed(r.err.value)) else Going(after, r.index)
  }

  lemma {:induction false} StoppedStays(given: History, n: nat)
    requires n <= |given| && Progressed(given[..n]).Stopped?
    ensures Progressed(given) == Progressed(given[..n])
  {
    if n == |given| {
      assert given[..n] == given;
    } else {
      assert given[..|given| - 1][..n] == given[..n];
      StoppedStays(given[..|given| - 1], n);
    }
  }

  /** Runs a scenario up to the result that it compares with the expected one. */
  method AssertOn(given: History, email: string) returns (outcome: Outcome)
    ensures outcome == match Progressed(given)
                       case Stopped(o) => o
                       case Going(_, index) => Queried(Lookup(index, email))
  {
    var eventStore := new InMemoryStore<UserEvent>();
    var queryHandler := new GetByEmailHandler();
    for i := 0 to |given|
      invariant Progressed(given[..i]) == Going(eventStore.events, queryHandler.Value())
    {
      var evt := given[i];
      assert given[..i + 1][..i] == given[..i];
      var r := eventStore.Append(evt.streamID, CheckExact(Minus(evt.version, 1)), [evt.envelope]);
      if r.Rejected? {
        StoppedStays(given, i + 1);
        return NotAppended;
      }
      var err := queryHandler.Process(evt);
      if err.Some? {
        StoppedStays(given, i + 1);
        return NotProcessed(err.value);
      }
    }
    assert given[..|given|] == given;
    var view := queryHandler.Handle(email);
    outcome := Queried(view);
  }

  /** A scenario goes through exactly when the store accepts every event and the handler processes every one. */
  lemma {:induction false} GoesThrough(given: History)
    ensures Progressed(given).Going? <==> Given(given).Some? && After(given).err.None?
    ensures Progressed(given).Going? ==> Progressed(given) == Going(Given(given).value, After(given).index)
  {
    if given != [] {
      GoesThrough(given[..|given| - 1]);
    }
  }

  /**
   Why a scenario stops: at the first event that fails, because the store refuses it
   for its version, or, the store having taken it, because the handler refuses it
   with that error.
   */
  lemma {:induction false} StopsBecause(given: History) returns (n: nat)
    requires Progressed(given).Stopped?
    ensures n < |given| && Progressed(given[..n]).Going?
    ensures Progressed(given).outcome == NotAppended <==> !NumberedAt(given, n)
    ensures NumberedAt(given, n) ==>
              var r := Project(After(given[..n]).index, given[n]);
              r.err.Some? && Progressed(given).outcome == NotProcessed(r.err.value)
  {
    var last := |given| - 1;
    if Progressed(given[..last]).Stopped? {
      n := StopsBecause(given[..last]);
      assert given[..last][..n] == given[..n];
    } else {
      n := last;
      GoesThrough(given[..last]);
      GivensAreAccepted(given[..last]);
      OneBefore(given[last].version, |EventsOf(given[..last], given[last].streamID)|);
    }
  }

  lemma {:induction false} InOrderIsNumbered(h: History)
    requires InOrder(h)
    ensures forall i :: 0 <= i < |h| ==> NumberedAt(h, i)
  {
    forall i | 0 <= i < |h|
      ensures NumberedAt(h, i)
    {
      EventAt(h, i);
      SmallVersion(h[i].version);
    }
  }

  /**
   The query side agrees with the write side: after given events in order, with
   emails distinct all along, the store holds each user's events and the query for
   a user's current email answers with what replaying its stored stream gives.
   */
  lemma {:induction false} QueryAgreesWithStore(given: History, id: StreamID)
    requires InOrder(given) && AlwaysDistinct(given) && Exists(given, id)
    ensures var p := Progressed(given);
            && p.Going?
            && StreamOf(p.streams, id) == EventsOf(given, id)
            && Lookup(p.index, Replayed(given, id).email) == Some(ReplayedView(given, id))
  {
    InOrderIsNumbered(given);
    GivensAreAccepted(given);
    IndexAgreesWithReplay(given);
    GoesThrough(given);
  }
}
