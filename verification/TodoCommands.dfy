/** The command handlers as functions of the store: load, decide, save. */
module TodoCommands {
  import opened Options
  import opened Versions
  import opened EventStore
  import opened Aggregates
  import opened Todo

  datatype Got = Found(state: ListState, version: Version) | NotLoaded(error: TodoError)

  /** How many events a load gets to see before the context is done. */
  function Visible(log: seq<Event>, cancelAt: Option<nat>): (n: nat)
    ensures n <= |log|
  {
    if cancelAt.Some? && cancelAt.value < |log| then cancelAt.value else |log|
  }

  /** All or nothing: a root is returned only after folding the entire stream. */
  ghost function Get(streams: Streams<Event>, id: StreamID, cancelAt: Option<nat>): Got {
    var log := StreamOf(streams, id);
    var n := Visible(log, cancelAt);
    if !Replay(TODO, log[..n]).ok then NotLoaded(ApplyFailed)
    else if n < |log| then NotLoaded(Streaming(ContextDone))
    else if ToVersion(|log|) == 0 then NotLoaded(RootNotFound)
    else Found(Replay(TODO, log).state, ToVersion(|log|))
  }

  datatype Handled = Handled(streams: Streams<Event>, error: Option<TodoError>)

  /** Saves the one event that a command recorded on a root. */
  ghost function Commit(streams: Streams<Event>, s: ListState, version: Version, e: Event): Handled {
    var r := SaveTo(streams, ApplyEvent(s, e).state.id, Plus(version, 1), [e]);
    if r.Accepted? then Handled(r.streams, None) else Handled(streams, Some(Conflict(r.conflict)))
  }

  /** Saving one event on a root checks the version the root had before it. */
  lemma {:induction false} SaveOne(streams: Streams<Event>, id: StreamID, version: Version, e: Event)
    ensures SaveTo(streams, id, Plus(version, 1), [e]) == AppendTo(streams, id, CheckExact(version), [e])
  {
    MinusPlus(version, |[e]|);
  }

  ghost function Handle(streams: Streams<Event>, cmd: Command, cancelAt: Option<nat>): Handled {
    if cmd.Create? then
      match Decide(ZERO_LIST, cmd)
      case Refused(error) => Handled(streams, Some(error))
      case Recorded(e) => Commit(streams, ZERO_LIST, 0, e)
    else
      match Get(streams, cmd.listID, cancelAt)
      case NotLoaded(error) => Handled(streams, Some(error))
      case Found(s, version) =>
        match Decide(s, cmd)
        case Refused(error) => Handled(streams, Some(error))
        case Recorded(e) => Commit(streams, s, version, e)
  }

  /** What a command decides applies without error. */
  lemma {:induction false} DecidedApplies(s: ListState, cmd: Command)
    ensures Decide(s, cmd).Recorded? ==> ApplyEvent(s, Decide(s, cmd).event).ok
  {
  }

  ghost predicate AllProduced(streams: Streams<Event>) {
    forall id :: id in streams ==> Produced(id, streams[id])
  }

  /**
   One handler run over a store of produced logs leaves produced logs, and on
   success extends exactly the stream the command names by one event that the
   command decides on the fold of that stream.
   */
  lemma {:induction false} HandleKeepsProduced(streams: Streams<Event>, cmd: Command, cancelAt: Option<nat>)
    requires AllProduced(streams)
    requires |StreamOf(streams, cmd.listID)| < WRAP
    ensures var h := Handle(streams, cmd, cancelAt);
            && AllProduced(h.streams)
            && (h.error.Some? ==> h.streams == streams)
            && (h.error.None? ==>
                  var log := StreamOf(streams, cmd.listID);
                  && Replay(TODO, log).ok
                  && Decide(Replay(TODO, log).state, cmd).Recorded?
                  && h.streams == streams[cmd.listID := log + [Decide(Replay(TODO, log).state, cmd).event]]
                  && Produced(cmd.listID, StreamOf(h.streams, cmd.listID)))
  {
    var h := Handle(streams, cmd, cancelAt);
    var log := StreamOf(streams, cmd.listID);
    if h.error.None? {
      if cmd.Create? {
        var e := Decide(ZERO_LIST, cmd).event;
        assert ApplyEvent(ZERO_LIST, e).state.id == cmd.listID;
        assert log == [];
        assert [] + [e] == [e];
        ProducedFirst(cmd.listID, e);
      } else {
        assert log[..|log|] == log;
        ProducedReplays(cmd.listID, log);
        var s := Replay(TODO, log).state;
        var e := Decide(s, cmd).event;
        LawfulIsDecided(s, e, cmd);
        LawfulKeepsWellFormed(s, e);
        ProducedNext(cmd.listID, log, e);
      }
    }
  }

  // ------------------------------------------------------------- answers

  /** Whether the context is done before the load of a log ends. */
  predicate Stops(log: seq<Event>, cancelAt: Option<nat>) {
    cancelAt.Some? && cancelAt.value < |log|
  }

  /** What a load sees of a log. */
  function Seen(log: seq<Event>, cancelAt: Option<nat>): seq<Event> {
    if cancelAt.Some? && cancelAt.value < |log| then log[..cancelAt.value] else log
  }

  ghost predicate Loads(log: seq<Event>, cancelAt: Option<nat>) {
    !Stops(log, cancelAt) && Replay(TODO, log).ok && ToVersion(|log|) != 0
  }

  /** Which error each failure of a load gives, said over the log and the cancellation. */
  ghost predicate LoadAnswers(log: seq<Event>, cancelAt: Option<nat>, err: Option<TodoError>) {
    && (err == Some(ApplyFailed) <==> !Replay(TODO, Seen(log, cancelAt)).ok)
    && (err == Some(Streaming(ContextDone)) <==> Stops(log, cancelAt) && Replay(TODO, Seen(log, cancelAt)).ok)
    && (err == Some(RootNotFound) <==> !Stops(log, cancelAt) && Replay(TODO, log).ok && ToVersion(|log|) == 0)
  }

  /** The outcome of deciding a command on a list and saving the event at a version. */
  ghost predicate SaveAnswers(streams: Streams<Event>, s: ListState, length: nat, cmd: Command, h: Handled) {
    match Decide(s, cmd)
    case Refused(error) => h == Handled(streams, Some(error))
    case Recorded(e) =>
      var id := ApplyEvent(s, e).state.id;
      var log := StreamOf(streams, id);
      if Congruent(|log|, length) then h == Handled(streams[id := log + [e]], None)
      else h == Handled(streams, Some(Conflict(ConflictError(ToVersion(length), ToVersion(|log|)))))
  }

  /**
   What a handler answers and does, for every store, command and cancellation: the
   error of a load that fails, the refusal of the command on the replayed list, a
   conflict, or one event more.
   */
  ghost predicate Answers(streams: Streams<Event>, cmd: Command, cancelAt: Option<nat>, h: Handled) {
    if cmd.Create? then SaveAnswers(streams, ZERO_LIST, 0, cmd, h)
    else
      var log := StreamOf(streams, cmd.listID);
      && LoadAnswers(log, cancelAt, h.error)
      && if Loads(log, cancelAt) then SaveAnswers(streams, Replay(TODO, log).state, |log|, cmd, h)
         else h.error.Some? && h.streams == streams
  }

  lemma {:induction false} CommitAnswers(streams: Streams<Event>, s: ListState, length: nat, cmd: Command)
    requires Decide(s, cmd).Recorded?
    ensures SaveAnswers(streams, s, length, cmd, Commit(streams, s, ToVersion(length), Decide(s, cmd).event))
  {
    var e := Decide(s, cmd).event;
    var id := ApplyEvent(s, e).state.id;
    SaveOne(streams, id, ToVersion(length), e);
    SameVersion(|StreamOf(streams, id)|, length);
  }

  lemma {:induction false} LoadErrors(streams: Streams<Event>, id: StreamID, cancelAt: Option<nat>)
    ensures var log, got := StreamOf(streams, id), Get(streams, id, cancelAt);
            && LoadAnswers(log, cancelAt, if got.NotLoaded? then Some(got.error) else None)
            && (got.Found? <==> Loads(log, cancelAt))
            && (got.Found? ==> got == Found(Replay(TODO, log).state, ToVersion(|log|)))
  {
    var log := StreamOf(streams, id);
    assert log[..|log|] == log;
  }

  lemma {:induction false} HandleAnswers(streams: Streams<Event>, cmd: Command, cancelAt: Option<nat>)
    ensures Answers(streams, cmd, cancelAt, Handle(streams, cmd, cancelAt))
  {
    if cmd.Create? {
      if Decide(ZERO_LIST, cmd).Recorded? {
        CommitAnswers(streams, ZERO_LIST, 0, cmd);
      }
    } else {
      var log := StreamOf(streams, cmd.listID);
      LoadErrors(streams, cmd.listID, cancelAt);
      var s := Replay(TODO, log).state;
      if Loads(log, cancelAt) && Decide(s, cmd).Recorded? {
        CommitAnswers(streams, s, |log|, cmd);
      }
    }
  }

  // ------------------------------------------------------------- retries

  /** A load of a log that replays and is not a multiple of 2^32 long finds its fold. */
  lemma {:induction false} GetFinds(streams: Streams<Event>, id: StreamID)
    requires Replay(TODO, StreamOf(streams, id)).ok && ToVersion(|StreamOf(streams, id)|) != 0
    ensures Get(streams, id, None)
         == Found(Replay(TODO, StreamOf(streams, id)).state, ToVersion(|StreamOf(streams, id)|))
  {
    var log := StreamOf(streams, id);
    assert log[..|log|] == log;
  }

  /** Loading again after a command succeeded finds the list that it left. */
  lemma {:induction false} GetAgain(streams: Streams<Event>, cmd: Command)
    requires AllProduced(streams) && |StreamOf(streams, cmd.listID)| + 1 < WRAP
    requires Handle(streams, cmd, None).error.None?
    ensures var log := StreamOf(streams, cmd.listID);
            var s := Replay(TODO, log).state;
            && Decide(s, cmd).Recorded?
            && Get(Handle(streams, cmd, None).streams, cmd.listID, None)
               == Found(ApplyEvent(s, Decide(s, cmd).event).state, |log| + 1)
  {
    HandleKeepsProduced(streams, cmd, None);
    var log := StreamOf(streams, cmd.listID);
    var e := Decide(Replay(TODO, log).state, cmd).event;
    var after := Handle(streams, cmd, None).streams;
    assert StreamOf(after, cmd.listID) == log + [e];
    FoldOne(TODO, ZERO_LIST, log, e);
    ProducedReplays(cmd.listID, log + [e]);
    SmallVersion(|log + [e]|);
    GetFinds(after, cmd.listID);
  }

  /** After an item is deleted it is not found; after it is added it is. */
  lemma {:induction false} IndexAfter(s: ListState, e: Event)
    ensures e.ItemWasDeleted? ==> IndexOf(ApplyEvent(s, e).state.items, e.itemID) == |ApplyEvent(s, e).state.items|
    ensures e.ItemWasAdded? ==> IndexOf(ApplyEvent(s, e).state.items, e.itemID) < |ApplyEvent(s, e).state.items|
  {
    if e.ItemWasDeleted? {
      WithoutMeaning(s.items, e.itemID);
    }
    if e.ItemWasAdded? {
      var grown := ApplyEvent(s, e).state.items;
      assert grown[|s.items|].id == e.itemID;
    }
  }

  /** Marking twice is marking once. */
  lemma {:induction false} MarkTwice(s: ListState, e: Event)
    requires e.ItemMarkedAsDone? || e.ItemMarkedAsPending?
    requires IndexOf(s.items, e.itemID) < |s.items|
    ensures var once := ApplyEvent(s, e).state;
            && IndexOf(once.items, e.itemID) < |once.items|
            && ApplyEvent(once, e) == Applied(once, true)
  {
    var once := ApplyEvent(s, e).state;
    var i := IndexOf(s.items, e.itemID);
    assert once.items[i].id == e.itemID;
    assert forall k :: 0 <= k < i ==> once.items[k] == s.items[k];
    assert i == IndexOf(once.items, e.itemID);
    assert once.items[i := once.items[i]] == once.items;
  }

  /** Creating a list whose stream is not empty is a conflict. */
  lemma {:induction false} CreateConflict(streams: Streams<Event>, cmd: Command)
    requires cmd.Create? && Decide(ZERO_LIST, cmd).Recorded?
    requires 0 < |StreamOf(streams, cmd.listID)| < WRAP
    ensures Handle(streams, cmd, None)
         == Handled(streams, Some(Conflict(ConflictError(0, |StreamOf(streams, cmd.listID)|))))
  {
    var e := Decide(ZERO_LIST, cmd).event;
    var s := ApplyEvent(ZERO_LIST, e).state;
    assert s.id == cmd.listID;
    SaveOne(streams, cmd.listID, 0, e);
    SmallVersion(|StreamOf(streams, cmd.listID)|);
  }

  /** The same command handled at another time: the handlers of creations and additions read the clock. */
  function At(cmd: Command, now: Time): Command {
    if cmd.Create? || cmd.AddItem? then cmd.(now := now) else cmd
  }

  /** Creating a list again right after it was created is a conflict, at whatever time. */
  lemma {:induction false} RetryCreate(streams: Streams<Event>, cmd: Command, later: Time)
    requires AllProduced(streams) && |StreamOf(streams, cmd.listID)| < WRAP
    requires cmd.Create? && Handle(streams, cmd, None).error.None?
    ensures var once := Handle(streams, cmd, None).streams;
            Handle(once, At(cmd, later), None) == Handled(once, Some(Conflict(ConflictError(0, 1))))
  {
    HandleKeepsProduced(streams, cmd, None);
    if StreamOf(streams, cmd.listID) != [] {
      CreateConflict(streams, cmd);
    }
    CreateConflict(Handle(streams, cmd, None).streams, At(cmd, later));
  }

  /** Adding or deleting the same item again, at whatever time, is refused without touching the store. */
  lemma {:induction false} RetryAddOrDelete(streams: Streams<Event>, cmd: Command, later: Time)
    requires AllProduced(streams) && |StreamOf(streams, cmd.listID)| + 1 < WRAP
    requires (cmd.AddItem? || cmd.DeleteItem?) && Handle(streams, cmd, None).error.None?
    ensures var once := Handle(streams, cmd, None).streams;
            Handle(once, At(cmd, later), None)
            == Handled(once, Some(if cmd.AddItem? then ItemAlreadyExists else ItemNotFound))
  {
    HandleKeepsProduced(streams, cmd, None);
    GetAgain(streams, cmd);
    var s := Replay(TODO, StreamOf(streams, cmd.listID)).state;
    IndexAfter(s, Decide(s, cmd).event);
  }

  /** Marking the same item again appends an event that leaves the replayed list as it was. */
  lemma {:induction false} RetryMark(streams: Streams<Event>, cmd: Command)
    requires AllProduced(streams) && |StreamOf(streams, cmd.listID)| + 1 < WRAP
    requires (cmd.MarkItemAsDone? || cmd.MarkItemAsPending?) && Handle(streams, cmd, None).error.None?
    ensures var once := Handle(streams, cmd, None).streams;
            var twice := Handle(once, cmd, None);
            && twice.error == None
            && |StreamOf(twice.streams, cmd.listID)| == |StreamOf(once, cmd.listID)| + 1
            && Replay(TODO, StreamOf(twice.streams, cmd.listID)) == Replay(TODO, StreamOf(once, cmd.listID))
  {
    HandleKeepsProduced(streams, cmd, None);
    GetAgain(streams, cmd);
    var log := StreamOf(streams, cmd.listID);
    var s := Replay(TODO, log).state;
    var e := Decide(s, cmd).event;
    var once := Handle(streams, cmd, None).streams;
    var longer := StreamOf(once, cmd.listID);
    assert longer == log + [e];
    MarkTwice(s, e);
    var marked := ApplyEvent(s, e).state;
    FoldOne(TODO, ZERO_LIST, log, e);
    FoldOne(TODO, ZERO_LIST, longer, e);
    assert Decide(marked, cmd) == Recorded(e);
    ProducedReplays(cmd.listID, longer);
    MinusPlus(|longer|, 1);
    AppendMeaning(once, cmd.listID, CheckExact(|longer|), [e]);
  }
}
