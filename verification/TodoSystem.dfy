/** The TodoList handlers run concurrently on one in-memory store. */
module TodoSystem {
  import opened Options
  import opened Versions
  import opened EventStore
  import opened Aggregates
  import opened Todo
  import opened TodoCommands
  import Concurrency

  /** Creating loads nothing; every other command loads the list it names. */
  function Loads(cmd: Command): Option<StreamID> {
    if cmd.Create? then None else Some(cmd.listID)
  }

  function DecideBatch(s: ListState, cmd: Command): Option<seq<Event>> {
    match Decide(s, cmd)
    case Refused(_) => None
    case Recorded(e) => Some([e])
  }

  const TODO_DOMAIN: Concurrency.Domain<ListState, Event, Command> :=
    Concurrency.Domain(TODO, (s: ListState) => s.id, Loads, DecideBatch)

  type Sys = Concurrency.Sys<ListState, Event, Command>
  type Action = Concurrency.Action<Event, Command>

  /** Only the handlers write: nobody appends events of their own making. */
  ghost predicate HandlersOnly(actions: seq<Action>) {
    forall i :: 0 <= i < |actions| ==> !actions[i].AppendDirectly?
  }

  ghost predicate NoDirect(sys: Sys) {
    forall c: nat :: Concurrency.ClientOf(sys, c).Waiting? || Concurrency.ClientOf(sys, c).Writing? ==>
                       Concurrency.ClientOf(sys, c).origin.Handler?
  }

  ghost predicate Short(streams: Streams<Event>) {
    forall id :: |StreamOf(streams, id)| < WRAP
  }

  lemma {:induction false} StepKeepsNoDirect(sys: Sys, a: Action)
    requires NoDirect(sys) && !a.AppendDirectly?
    ensures NoDirect(Concurrency.Step(TODO_DOMAIN, sys, a))
  {
    var next := Concurrency.Step(TODO_DOMAIN, sys, a);
    forall c: nat
      ensures Concurrency.ClientOf(next, c).Waiting? || Concurrency.ClientOf(next, c).Writing? ==>
                Concurrency.ClientOf(next, c).origin.Handler?
    {
      assert c != a.c ==> Concurrency.ClientOf(next, c) == Concurrency.ClientOf(sys, c);
      assert Concurrency.ClientOf(sys, a.c).Waiting? ==> Concurrency.ClientOf(sys, a.c).origin.Handler?;
    }
  }

  /** A batch that a handler is about to append continues a produced log by one event. */
  lemma {:induction false} BatchContinues(streams: Streams<Event>, id: StreamID, expected: Check, batch: seq<Event>,
                                          origin: Concurrency.Origin<Command>)
    requires AllProduced(streams) && |StreamOf(streams, id)| < WRAP && origin.Handler?
    requires Concurrency.BatchOk(TODO_DOMAIN, streams, id, expected, batch, origin)
    requires AppendTo(streams, id, expected, batch).Accepted?
    requires origin.source.Some? ==> |StreamOf(streams, origin.source.value)| < WRAP
    ensures Produced(id, StreamOf(streams, id) + batch)
    ensures origin.source.Some? ==> origin.source.value == id
  {
    var log := StreamOf(streams, id);
    var basis := Concurrency.Basis(streams, origin.source, origin.base);
    var s := Replay(TODO, basis).state;
    assert DecideBatch(s, origin.cmd) == Some(batch);
    var e := batch[0];
    assert batch == [e];
    FoldEvent(s, e);
    SameVersion(|log|, origin.base);
    if origin.source.Some? {
      var source := origin.source.value;
      ProducedPrefix(source, StreamOf(streams, source), origin.base);
      ProducedReplays(source, basis);
      LawfulIsDecided(s, e, origin.cmd);
      LawfulKeepsWellFormed(s, e);
      assert log[..|log|] == log;
      ProducedNext(id, log, e);
    } else {
      assert log == [] && log + batch == [e];
      ProducedFirst(id, e);
    }
  }

  lemma {:induction false} FoldEvent(s: ListState, e: Event)
    ensures Fold(TODO, s, [e]) == ApplyEvent(s, e)
  {
    assert [] + [e] == [e];
    FoldOne(TODO, s, [], e);
  }

  /** Every committed batch is a handler's, on the stream it loaded if it loaded one. */
  ghost predicate OwnStreams(history: seq<Concurrency.Commit<Event, Command>>) {
    forall k :: 0 <= k < |history| ==>
                  && history[k].origin.Handler?
                  && (history[k].origin.source.None? || history[k].origin.source == Some(history[k].id))
  }

  lemma {:induction false} WriteKeepsProduced(sys: Sys, c: nat)
    requires Concurrency.Inv(TODO_DOMAIN, sys) && NoDirect(sys) && Concurrency.ClientOf(sys, c).Writing?
    requires AllProduced(sys.streams) && Short(sys.streams) && OwnStreams(sys.history)
    ensures AllProduced(Concurrency.WriteStep(sys, c).streams)
    ensures OwnStreams(Concurrency.WriteStep(sys, c).history)
  {
    var w := Concurrency.ClientOf(sys, c);
    assert Concurrency.ClientOk(TODO_DOMAIN, sys.streams, sys.history, w);
    if AppendTo(sys.streams, w.id, w.expected, w.batch).Accepted? {
      assert |StreamOf(sys.streams, w.id)| < WRAP;
      BatchContinues(sys.streams, w.id, w.expected, w.batch, w.origin);
    }
  }

  lemma {:induction false} StepKeepsProduced(sys: Sys, a: Action, next: Sys)
    requires Concurrency.Inv(TODO_DOMAIN, sys) && NoDirect(sys)
    requires AllProduced(sys.streams) && Short(sys.streams) && OwnStreams(sys.history)
    requires if a.Write? && Concurrency.ClientOf(sys, a.c).Writing? then next == Concurrency.WriteStep(sys, a.c)
             else next.streams == sys.streams && next.history == sys.history
    ensures AllProduced(next.streams) && OwnStreams(next.history)
  {
    if a.Write? && Concurrency.ClientOf(sys, a.c).Writing? {
      WriteKeepsProduced(sys, a.c);
    }
  }

  lemma {:induction false} StepExtends(sys: Sys, a: Action)
    ensures Concurrency.Extends(sys.streams, Concurrency.Step(TODO_DOMAIN, sys, a).streams)
  {
    var w := Concurrency.ClientOf(sys, a.c);
    if a.Write? && w.Writing? {
      AppendMeaning(sys.streams, w.id, w.expected, w.batch);
    }
  }

  lemma {:induction false} RunKeepsProduced(actions: seq<Action>)
    requires HandlersOnly(actions)
    requires Short(Concurrency.Run(TODO_DOMAIN, actions).streams)
    ensures AllProduced(Concurrency.Run(TODO_DOMAIN, actions).streams)
    ensures NoDirect(Concurrency.Run(TODO_DOMAIN, actions))
    ensures OwnStreams(Concurrency.Run(TODO_DOMAIN, actions).history)
  {
    if actions != [] {
      var front, a := actions[..|actions| - 1], actions[|actions| - 1];
      var before := Concurrency.Run(TODO_DOMAIN, front);
      StepExtends(before, a);
      forall id
        ensures |StreamOf(before.streams, id)| < WRAP
      {
        var after := Concurrency.Run(TODO_DOMAIN, actions).streams;
        assert StreamOf(before.streams, id) <= StreamOf(after, id);
        assert |StreamOf(after, id)| < WRAP;
      }
      RunKeepsProduced(front);
      Concurrency.RunKeepsInv(TODO_DOMAIN, front);
      Concurrency.OnlyWritesChange(TODO_DOMAIN, before, a);
      StepKeepsProduced(before, a, Concurrency.Step(TODO_DOMAIN, before, a));
      StepKeepsNoDirect(before, a);
    }
  }

  /**
   Whole-system safety. In every store reachable by handlers running concurrently,
   with streams shorter than 2^32, each non-empty stream replays without error,
   starts with its only creation, which names that stream, and folds to a list
   with the title and owner of its creation, neither empty, and distinct identified
   items, which are the added items that no later event deletes.
   */
  lemma {:induction false} EveryListIsSound(actions: seq<Action>, id: StreamID)
    requires HandlersOnly(actions)
    requires Short(Concurrency.Run(TODO_DOMAIN, actions).streams)
    requires StreamOf(Concurrency.Run(TODO_DOMAIN, actions).streams, id) != []
    ensures var log := StreamOf(Concurrency.Run(TODO_DOMAIN, actions).streams, id);
            && log[0].WasCreated? && log[0].id == id
            && (forall k :: 1 <= k < |log| ==> !log[k].WasCreated?)
            && Replay(TODO, log).ok
            && WellFormed(Replay(TODO, log).state)
            && Replay(TODO, log).state ==
               ListState(id, log[0].title, log[0].owner, log[0].creationTime, Survivors(log, |log|))
  {
    RunKeepsProduced(actions);
    var log := StreamOf(Concurrency.Run(TODO_DOMAIN, actions).streams, id);
    ProducedReplays(id, log);
    LogMeaning(id, log);
  }

  /**
   No TodoList command is lost or decided on stale state: every committed batch is
   the event its command decides on the fold of exactly the log it was appended
   to, and it is still in its stream there.
   */
  lemma {:induction false} EveryCommandIsSerial(actions: seq<Action>, k: nat)
    requires HandlersOnly(actions)
    requires Short(Concurrency.Run(TODO_DOMAIN, actions).streams)
    requires k < |Concurrency.Run(TODO_DOMAIN, actions).history|
    ensures var end := Concurrency.Run(TODO_DOMAIN, actions);
            var commit := end.history[k];
            var before := Concurrency.LogOf(end.history[..k], commit.id);
            && commit.origin.Handler?
            && Replay(TODO, before).ok
            && Decide(Replay(TODO, before).state, commit.origin.cmd).Recorded?
            && commit.batch == [Decide(Replay(TODO, before).state, commit.origin.cmd).event]
            && before + commit.batch <= StreamOf(end.streams, commit.id)
            && (commit.origin.cmd.Create? <==> before == [])
  {
    RunKeepsProduced(actions);
    var end := Concurrency.Run(TODO_DOMAIN, actions);
    var commit := end.history[k];
    assert |StreamOf(end.streams, commit.id)| < WRAP;
    Concurrency.Serialisable(TODO_DOMAIN, actions, k);
    var before := Concurrency.LogOf(end.history[..k], commit.id);
    assert DecideBatch(Replay(TODO, before).state, commit.origin.cmd) == Some(commit.batch);
    EveryListIsSound(actions, commit.id);
    assert before == [] ==> StreamOf(end.streams, commit.id)[0] == commit.batch[0];
    assert before == [] ==> Replay(TODO, before).state == ZERO_LIST;
    NothingOnZeroList(commit.origin.cmd, commit.batch[0]);
  }

  /** Only adding an item is possible on a list that was never created, and that is no creation. */
  lemma {:induction false} NothingOnZeroList(cmd: Command, e: Event)
    ensures !cmd.Create? && Decide(ZERO_LIST, cmd) == Recorded(e) ==> !e.WasCreated?
  {
  }

  // ------------------------------------------------------------- one handler alone

  /** Starting a handler alone gets it the read lock at once. */
  ghost function Locked(sys: Sys, c: nat, cmd: Command): Sys {
    var started := Concurrency.Step(TODO_DOMAIN, sys, Concurrency.Start(c, cmd));
    Concurrency.Step(TODO_DOMAIN, started, Concurrency.LockRead(c))
  }

  /** The steps of one handler with nobody else about, to the end of its read. */
  ghost function Loading(sys: Sys, c: nat, cmd: Command): Sys {
    if cmd.Create? then Concurrency.Step(TODO_DOMAIN, sys, Concurrency.Start(c, cmd))
    else
      var read := Concurrency.Turns(TODO_DOMAIN, Locked(sys, c, cmd), c, |StreamOf(sys.streams, cmd.listID)|);
      Concurrency.Step(TODO_DOMAIN, read, Concurrency.Finish(c))
  }

  /** And from there to the end of its write. */
  ghost function Saving(sys: Sys, c: nat): Sys {
    var decided := Concurrency.Step(TODO_DOMAIN, sys, Concurrency.Decide(c));
    var locked := Concurrency.Step(TODO_DOMAIN, decided, Concurrency.LockWrite(c));
    Concurrency.Step(TODO_DOMAIN, locked, Concurrency.Write(c))
  }

  /** Nobody holds the lock. */
  predicate Free(sys: Sys) {
    sys.readers == {} && sys.writer == None
  }

  /** A handler alone in the middle of its read, after `pos` events. */
  ghost predicate ReadsAlone(sys: Sys, streams: Streams<Event>, c: nat, cmd: Command, pos: nat) {
    var r := Concurrency.ClientOf(sys, c);
    && Concurrency.Inv(TODO_DOMAIN, sys) && sys.streams == streams && sys.writer == None && sys.readers == {c}
    && r.Reading? && r.goal == Concurrency.ForCommand(cmd) && r.id == cmd.listID && r.pos == pos
  }

  /** A handler that met an event that does not apply. */
  ghost predicate GaveUp(sys: Sys, streams: Streams<Event>, c: nat, cmd: Command) {
    && sys.streams == streams && Free(sys) && Concurrency.ClientOf(sys, c).Idle?
    && !Replay(TODO, StreamOf(streams, cmd.listID)).ok
  }

  /** One turn: the next event is applied, or the handler gives up on a log that does not replay. */
  lemma {:induction false} DeliverOne(sys: Sys, streams: Streams<Event>, c: nat, cmd: Command, pos: nat)
    requires ReadsAlone(sys, streams, c, cmd, pos) && pos < |StreamOf(streams, cmd.listID)|
    ensures var next := Concurrency.Step(TODO_DOMAIN, sys, Concurrency.Deliver(c));
            ReadsAlone(next, streams, c, cmd, pos + 1) || GaveUp(next, streams, c, cmd)
  {
    var r := Concurrency.ClientOf(sys, c);
    var log := StreamOf(sys.streams, r.id);
    assert Concurrency.ClientOk(TODO_DOMAIN, sys.streams, sys.history, r);
    Concurrency.DeliverKeeps(TODO_DOMAIN, sys, c);
    if !ApplyEvent(r.partial, log[r.pos]).ok {
      FoldStops(TODO, ZERO_LIST, log, r.pos);
    }
  }

  /** Where a handler alone is after some turns: that far into its read, or gone. */
  ghost predicate ReadOrGone(sys: Sys, streams: Streams<Event>, c: nat, cmd: Command, pos: nat) {
    ReadsAlone(sys, streams, c, cmd, pos) || GaveUp(sys, streams, c, cmd)
  }

  lemma {:induction false} TurnKeeps(sys: Sys, next: Sys, streams: Streams<Event>, c: nat, cmd: Command, pos: nat)
    requires ReadOrGone(sys, streams, c, cmd, pos) && pos < |StreamOf(streams, cmd.listID)|
    requires next == Concurrency.Step(TODO_DOMAIN, sys, Concurrency.Deliver(c))
    ensures ReadOrGone(next, streams, c, cmd, pos + 1)
  {
    if ReadsAlone(sys, streams, c, cmd, pos) {
      DeliverOne(sys, streams, c, cmd, pos);
    } else {
      assert next == sys;
    }
  }

  lemma {:induction false} DeliversAll(sys: Sys, streams: Streams<Event>, c: nat, cmd: Command, n: nat)
    requires ReadOrGone(sys, streams, c, cmd, 0) && n <= |StreamOf(streams, cmd.listID)|
    ensures ReadOrGone(Concurrency.Turns(TODO_DOMAIN, sys, c, n), streams, c, cmd, n)
    decreases n
  {
    if n > 0 {
      DeliversAll(sys, streams, c, cmd, n - 1);
      TurnKeeps(Concurrency.Turns(TODO_DOMAIN, sys, c, n - 1), Concurrency.Turns(TODO_DOMAIN, sys, c, n),
                streams, c, cmd, n - 1);
    }
  }

  lemma {:induction false} LockedReads(sys: Sys, c: nat, cmd: Command)
    requires Concurrency.Inv(TODO_DOMAIN, sys) && Free(sys) && Concurrency.ClientOf(sys, c).Idle? && !cmd.Create?
    ensures ReadsAlone(Locked(sys, c, cmd), sys.streams, c, cmd, 0)
  {
    var started := Concurrency.Step(TODO_DOMAIN, sys, Concurrency.Start(c, cmd));
    Concurrency.StepKeepsInv(TODO_DOMAIN, sys, Concurrency.Start(c, cmd));
    Concurrency.StepKeepsInv(TODO_DOMAIN, started, Concurrency.LockRead(c));
  }

  /** Finishing a read of a whole log that replays leaves its fold, unless its version reads as 0. */
  lemma {:induction false} FinishedRead(sys: Sys, c: nat, cmd: Command)
    requires ReadsAlone(sys, sys.streams, c, cmd, |StreamOf(sys.streams, cmd.listID)|)
    ensures var log := StreamOf(sys.streams, cmd.listID);
            var end := Concurrency.Step(TODO_DOMAIN, sys, Concurrency.Finish(c));
            && Replay(TODO, log).ok
            && end.streams == sys.streams && Free(end)
            && Concurrency.ClientOf(end, c)
               == if ToVersion(|log|) == 0 then Concurrency.Idle
                  else Concurrency.Loaded(cmd, Some(cmd.listID), |log|, Replay(TODO, log).state, ToVersion(|log|))
  {
    var log := StreamOf(sys.streams, cmd.listID);
    assert log[..|log|] == log;
    assert Concurrency.ClientOk(TODO_DOMAIN, sys.streams, sys.history, Concurrency.ClientOf(sys, c));
  }

  /** After loading, the handler holds what Get finds, or is gone when Get finds nothing. */
  lemma {:induction false} LoadingIsGet(sys: Sys, c: nat, cmd: Command)
    requires Concurrency.Inv(TODO_DOMAIN, sys) && Free(sys) && Concurrency.ClientOf(sys, c).Idle? && !cmd.Create?
    ensures var end := Loading(sys, c, cmd);
            && end.streams == sys.streams && Free(end)
            && match Get(sys.streams, cmd.listID, None)
               case NotLoaded(_) => Concurrency.ClientOf(end, c).Idle?
               case Found(s, version) =>
                 Concurrency.ClientOf(end, c)
                 == Concurrency.Loaded(cmd, Some(cmd.listID), |StreamOf(sys.streams, cmd.listID)|, s, version)
  {
    var log := StreamOf(sys.streams, cmd.listID);
    assert log[..|log|] == log;
    LockedReads(sys, c, cmd);
    DeliversAll(Locked(sys, c, cmd), sys.streams, c, cmd, |log|);
    var read := Concurrency.Turns(TODO_DOMAIN, Locked(sys, c, cmd), c, |log|);
    if ReadsAlone(read, sys.streams, c, cmd, |log|) {
      FinishedRead(read, c, cmd);
    }
  }

  /** Deciding and saving alone is the commit of the command's event. */
  lemma {:induction false} SavingIsCommit(sys: Sys, c: nat)
    requires Free(sys) && Concurrency.ClientOf(sys, c).Loaded?
    ensures var l, end := Concurrency.ClientOf(sys, c), Saving(sys, c);
            && Free(end) && Concurrency.ClientOf(end, c).Idle?
            && end.streams == match Decide(l.root, l.cmd)
                              case Refused(_) => sys.streams
                              case Recorded(e) => Commit(sys.streams, l.root, l.version, e).streams
  {
    var l := Concurrency.ClientOf(sys, c);
    if Decide(l.root, l.cmd).Recorded? {
      var e := Decide(l.root, l.cmd).event;
      DecidedApplies(l.root, l.cmd);
      FoldEvent(l.root, e);
    }
  }

  /**
   The concurrent handlers are the sequential ones: a handler whose steps nobody
   interrupts does to the store exactly what the command handler does as a function.
   */
  lemma {:induction false} AloneIsHandle(sys: Sys, c: nat, cmd: Command)
    requires Concurrency.Inv(TODO_DOMAIN, sys) && Free(sys) && Concurrency.ClientOf(sys, c).Idle?
    ensures var loaded := Loading(sys, c, cmd);
            var end := if Concurrency.ClientOf(loaded, c).Loaded? then Saving(loaded, c) else loaded;
            && end.streams == Handle(sys.streams, cmd, None).streams
            && Free(end) && Concurrency.ClientOf(end, c).Idle?
  {
    if !cmd.Create? {
      LoadingIsGet(sys, c, cmd);
    }
    var loaded := Loading(sys, c, cmd);
    if Concurrency.ClientOf(loaded, c).Loaded? {
      SavingIsCommit(loaded, c);
    }
  }
}
