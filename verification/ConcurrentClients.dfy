/**
 What clients get from the concurrent store: every batch and every read of a run
 was asked for by one of its actions, a client that nobody disturbs gets what the
 store's functions say, and the store never gets stuck.
 */
module ConcurrentClients {
  import opened Options
  import opened Versions
  import opened EventStore
  import Aggregates
  import opened Concurrency

  // ------------------------------------------------------------- what was asked for

  /** A stream is opened by a query for it, or by a handler whose command loads it from its beginning. */
  ghost predicate GoalAsked<S, E, C>(dom: Domain<S, E, C>, actions: seq<Action<E, C>>, c: nat, goal: Goal<C>,
                                     id: StreamID, from: Version) {
    match goal
    case ForQuery => OpenQuery(c, id, from) in actions
    case ForCommand(cmd) => Start(c, cmd) in actions && dom.loads(cmd) == Some(id) && from == 0
  }

  ghost predicate BatchAsked<E, C>(actions: seq<Action<E, C>>, c: nat, id: StreamID, expected: Check, batch: seq<E>,
                                   origin: Origin<C>) {
    match origin
    case Direct => AppendDirectly(c, id, expected, batch) in actions
    case Handler(cmd, _, _) => Start(c, cmd) in actions
  }

  /** What a client is doing was asked of it. */
  ghost predicate Asked<S, E, C>(dom: Domain<S, E, C>, actions: seq<Action<E, C>>, c: nat, client: Client<S, E, C>) {
    match client
    case Idle => true
    case Opened(goal, id, from) => GoalAsked(dom, actions, c, goal, id, from)
    case Reading(goal, id, from, _, _, _, _, _) => GoalAsked(dom, actions, c, goal, id, from)
    case Loaded(cmd, _, _, _, _) => Start(c, cmd) in actions
    case Waiting(id, expected, batch, origin) => BatchAsked(actions, c, id, expected, batch, origin)
    case Writing(id, expected, batch, origin) => BatchAsked(actions, c, id, expected, batch, origin)
  }

  /**
   A committed batch was asked for: a direct one by an append of that very batch to
   that stream, whose exact check, if it had one, was the length of the log at the
   time (up to 2^32); a handler's by the start of its command.
   */
  ghost predicate CommitAsked<E, C>(actions: seq<Action<E, C>>, before: seq<E>, k: Commit<E, C>) {
    match k.origin
    case Direct =>
      exists c: nat, expected: Check ::
        && AppendDirectly(c, k.id, expected, k.batch) in actions
        && (expected.CheckExact? ==> Congruent(|before|, expected.version))
    case Handler(cmd, _, _) => exists c: nat :: Start(c, cmd) in actions
  }

  ghost predicate HistoryAsked<E, C>(actions: seq<Action<E, C>>, history: seq<Commit<E, C>>) {
    forall k :: 0 <= k < |history| ==> CommitAsked(actions, LogOf(history[..k], history[k].id), history[k])
  }

  ghost predicate ClientsAsked<S, E, C>(dom: Domain<S, E, C>, actions: seq<Action<E, C>>, sys: Sys<S, E, C>) {
    forall c: nat :: Asked(dom, actions, c, ClientOf(sys, c))
  }

  lemma {:induction false} AskedInLongerRun<S, E, C>(dom: Domain<S, E, C>, actions: seq<Action<E, C>>, a: Action<E, C>,
                                                     c: nat, client: Client<S, E, C>)
    requires Asked(dom, actions, c, client)
    ensures Asked(dom, actions + [a], c, client)
  {
  }

  /** A step leaves its own client doing what it was asked, now or before. */
  lemma {:induction false} StepAsked<S, E, C>(dom: Domain<S, E, C>, actions: seq<Action<E, C>>, sys: Sys<S, E, C>,
                                              a: Action<E, C>)
    requires Asked(dom, actions, a.c, ClientOf(sys, a.c)) && a in actions
    ensures Asked(dom, actions, a.c, ClientOf(Step(dom, sys, a), a.c))
  {
  }

  lemma {:induction false} OthersStay<S, E, C>(dom: Domain<S, E, C>, sys: Sys<S, E, C>, a: Action<E, C>, c: nat)
    requires c != a.c
    ensures ClientOf(Step(dom, sys, a), c) == ClientOf(sys, c)
  {
  }

  lemma {:induction false} CommitInLongerRun<E, C>(actions: seq<Action<E, C>>, a: Action<E, C>, before: seq<E>,
                                                   k: Commit<E, C>)
    requires CommitAsked(actions, before, k)
    ensures CommitAsked(actions + [a], before, k)
  {
    match k.origin {
      case Direct =>
        var c: nat, expected: Check :| && AppendDirectly(c, k.id, expected, k.batch) in actions
                                       && (expected.CheckExact? ==> Congruent(|before|, expected.version));
        assert AppendDirectly(c, k.id, expected, k.batch) in actions + [a];
      case Handler(cmd, _, _) =>
        var c: nat :| Start(c, cmd) in actions;
        assert Start(c, cmd) in actions + [a];
    }
  }

  /** An accepted write adds a batch that was asked for. */
  lemma {:induction false} WriteAsked<S, E, C>(actions: seq<Action<E, C>>, c: nat, streams: Streams<E>,
                                               w: Client<S, E, C>)
    requires w.Writing? && BatchAsked(actions, c, w.id, w.expected, w.batch, w.origin)
    requires AppendTo(streams, w.id, w.expected, w.batch).Accepted?
    ensures CommitAsked(actions, StreamOf(streams, w.id), Commit(w.id, w.batch, w.origin))
  {
    AppendMeaning(streams, w.id, w.expected, w.batch);
    if w.origin.Direct? {
      assert AppendDirectly(c, w.id, w.expected, w.batch) in actions;
    } else {
      assert Start(c, w.origin.cmd) in actions;
    }
  }

  lemma {:induction false} StepHistoryAsked<S, E, C>(dom: Domain<S, E, C>, actions: seq<Action<E, C>>,
                                                     sys: Sys<S, E, C>, a: Action<E, C>, next: Sys<S, E, C>)
    requires Inv(dom, sys) && HistoryAsked(actions, sys.history) && Asked(dom, actions, a.c, ClientOf(sys, a.c))
    requires if a.Write? && ClientOf(sys, a.c).Writing? then next == WriteStep(sys, a.c)
             else next.streams == sys.streams && next.history == sys.history
    ensures HistoryAsked(actions + [a], next.history)
  {
    forall k | 0 <= k < |next.history|
      ensures CommitAsked(actions + [a], LogOf(next.history[..k], next.history[k].id), next.history[k])
    {
      if k < |sys.history| {
        assert next.history[k] == sys.history[k] && next.history[..k] == sys.history[..k];
      } else {
        var w := ClientOf(sys, a.c);
        assert next.history[..k] == sys.history && StreamOf(sys.streams, w.id) == LogOf(sys.history, w.id);
        WriteAsked(actions, a.c, sys.streams, w);
      }
      CommitInLongerRun(actions, a, LogOf(next.history[..k], next.history[k].id), next.history[k]);
    }
  }

  /** In every run all that clients are doing, and all that was committed, was asked for. */
  lemma {:induction false} EverythingWasAsked<S, E, C>(dom: Domain<S, E, C>, actions: seq<Action<E, C>>)
    ensures ClientsAsked(dom, actions, Run(dom, actions))
    ensures HistoryAsked(actions, Run(dom, actions).history)
  {
    if actions != [] {
      var front, a := actions[..|actions| - 1], actions[|actions| - 1];
      var sys := Run(dom, front);
      EverythingWasAsked(dom, front);
      RunKeepsInv(dom, front);
      assert actions == front + [a];
      OnlyWritesChange(dom, sys, a);
      assert Asked(dom, front, a.c, ClientOf(sys, a.c));
      StepHistoryAsked(dom, front, sys, a, Step(dom, sys, a));
      forall c: nat
        ensures Asked(dom, actions, c, ClientOf(Step(dom, sys, a), c))
      {
        assert Asked(dom, front, c, ClientOf(sys, c));
        AskedInLongerRun(dom, front, a, c, ClientOf(sys, c));
        if c == a.c {
          StepAsked(dom, actions, sys, a);
        } else {
          OthersStay(dom, sys, a, c);
        }
      }
    }
  }

  /** A direct append of a run, and the check it was asked to make. */
  lemma {:induction false} DirectAppendsAreChecked<S, E, C>(dom: Domain<S, E, C>, actions: seq<Action<E, C>>, k: nat)
      returns (n: nat, c: nat, expected: Check)
    requires k < |Run(dom, actions).history| && Run(dom, actions).history[k].origin.Direct?
    ensures var end := Run(dom, actions);
            var commit := end.history[k];
            && n < |actions| && actions[n] == AppendDirectly(c, commit.id, expected, commit.batch)
            && (expected.CheckExact? ==> Congruent(|LogOf(end.history[..k], commit.id)|, expected.version))
  {
    EverythingWasAsked(dom, actions);
    var end := Run(dom, actions);
    var commit := end.history[k];
    var before := LogOf(end.history[..k], commit.id);
    assert CommitAsked(actions, before, commit);
    c, expected :| && AppendDirectly(c, commit.id, expected, commit.batch) in actions
                   && (expected.CheckExact? ==> Congruent(|before|, expected.version));
    n :| 0 <= n < |actions| && actions[n] == AppendDirectly(c, commit.id, expected, commit.batch);
  }

  /**
   Every finished read was asked for before it got the lock: by a query for that
   stream and selector, or by a command that loads that stream.
   */
  lemma {:induction false} ReadsWereAsked<S, E, C>(dom: Domain<S, E, C>, actions: seq<Action<E, C>>, i: nat)
      returns (n: nat, c: nat)
    requires i < |Run(dom, actions).finished|
    ensures var r := Run(dom, actions).finished[i];
            && LockedAt(dom, actions, n, c, r.id, r.from, r.lockedAt)
            && (OpenQuery(c, r.id, r.from) in actions[..n]
                || exists cmd :: Start(c, cmd) in actions[..n] && dom.loads(cmd) == Some(r.id) && r.from == 0)
  {
    n, c := ConsistentReads(dom, actions, i);
    EverythingWasAsked(dom, actions[..n]);
    var client := ClientOf(Run(dom, actions[..n]), c);
    assert Asked(dom, actions[..n], c, client);
    if client.goal.ForCommand? {
      assert Start(c, client.goal.cmd) in actions[..n];
    }
  }

  // ------------------------------------------------------------- a client that nobody disturbs

  /** A direct append, from a state in which nobody holds the lock, is the store's append. */
  lemma {:induction false} LoneAppend<S, E, C>(dom: Domain<S, E, C>, sys: Sys<S, E, C>, c: nat, id: StreamID,
                                               expected: Check, batch: seq<E>)
    requires ClientOf(sys, c).Idle? && sys.readers == {} && sys.writer == None
    ensures var asked := Step(dom, sys, AppendDirectly(c, id, expected, batch));
            var end := Step(dom, Step(dom, asked, LockWrite(c)), Write(c));
            var r := AppendTo(sys.streams, id, expected, batch);
            && end.streams == (if r.Accepted? then r.streams else sys.streams)
            && end.history == sys.history + (if r.Accepted? then [Commit(id, batch, Direct)] else [])
            && ClientOf(end, c).Idle? && end.readers == {} && end.writer == None
  {
  }

  /** What is left to do for a query that reads, after `pos` events of a log. */
  ghost predicate Queries<S, E, C>(dom: Domain<S, E, C>, sys: Sys<S, E, C>, start: Sys<S, E, C>, c: nat, id: StreamID,
                                   from: Version, pos: nat) {
    var log := StreamOf(start.streams, id);
    && pos <= |log|
    && sys.streams == start.streams && sys.history == start.history && sys.finished == start.finished
    && sys.readers == start.readers + {c} && sys.writer == None
    && ClientOf(sys, c)
       == Reading(ForQuery, id, from, |start.history|, pos, Selected(log, id, from, pos), dom.agg.zero, 0)
  }

  lemma {:induction false} QueryTurn<S, E, C>(dom: Domain<S, E, C>, sys: Sys<S, E, C>, start: Sys<S, E, C>, c: nat,
                                              id: StreamID, from: Version, pos: nat)
    requires Queries(dom, sys, start, c, id, from, pos) && pos < |StreamOf(start.streams, id)|
    ensures Queries(dom, Step(dom, sys, Deliver(c)), start, c, id, from, pos + 1)
  {
    PlusToVersion(pos, 1);
  }

  lemma {:induction false} QueryTurns<S, E, C>(dom: Domain<S, E, C>, sys: Sys<S, E, C>, start: Sys<S, E, C>, c: nat,
                                               id: StreamID, from: Version, n: nat)
    requires Queries(dom, sys, start, c, id, from, 0) && n <= |StreamOf(start.streams, id)|
    ensures Queries(dom, Turns(dom, sys, c, n), start, c, id, from, n)
  {
    if n > 0 {
      QueryTurns(dom, sys, start, c, id, from, n - 1);
      QueryTurn(dom, Turns(dom, sys, c, n - 1), start, c, id, from, n - 1);
    }
  }

  /** The state of a query that has just got the read lock. */
  ghost function OpenedAndLocked<S, E, C>(dom: Domain<S, E, C>, sys: Sys<S, E, C>, c: nat, id: StreamID, from: Version)
      : Sys<S, E, C> {
    Step(dom, Step(dom, sys, OpenQuery(c, id, from)), LockRead(c))
  }

  /**
   A query that gets the lock while nobody writes, whoever else reads, and is not
   interrupted yields the whole selection and gives the lock back.
   */
  lemma {:induction false} LoneQuery<S, E, C>(dom: Domain<S, E, C>, sys: Sys<S, E, C>, c: nat, id: StreamID,
                                              from: Version)
    requires ClientOf(sys, c).Idle? && c !in sys.readers && sys.writer == None
    ensures var log := StreamOf(sys.streams, id);
            var end := Step(dom, Turns(dom, OpenedAndLocked(dom, sys, c, id, from), c, |log|), Finish(c));
            && end.finished
               == sys.finished + [Read(id, from, |sys.history|, Selected(log, id, from, |log|), true)]
            && end.streams == sys.streams && end.history == sys.history
            && ClientOf(end, c).Idle? && end.readers == sys.readers && end.writer == None
  {
    var log := StreamOf(sys.streams, id);
    var locked := OpenedAndLocked(dom, sys, c, id, from);
    assert ClientOf(locked, c) == Reading(ForQuery, id, from, |sys.history|, 0, Selected(log, id, from, 0),
                                          dom.agg.zero, 0);
    QueryTurns(dom, locked, sys, c, id, from, |log|);
    assert sys.readers + {c} - {c} == sys.readers;
  }

  /** A reader may leave at any time, or be cancelled while events remain; it gives the lock back with what it saw. */
  lemma {:induction false} ReadersCanLeave<S, E, C>(dom: Domain<S, E, C>, sys: Sys<S, E, C>, c: nat, a: Action<E, C>)
    requires ClientOf(sys, c).Reading?
    requires || (a == Abandon(c) && ClientOf(sys, c).goal.ForQuery?)
             || (a == Cancel(c) && ClientOf(sys, c).pos < |StreamOf(sys.streams, ClientOf(sys, c).id)|)
    ensures var r, next := ClientOf(sys, c), Step(dom, sys, a);
            && ClientOf(next, c).Idle? && next.readers == sys.readers - {c}
            && next.finished == sys.finished + [Read(r.id, r.from, r.lockedAt, r.seen, false)]
  {
  }

  /**
   And it gives up the lock in no other way: as a query that its consumer leaves, where
   its context is done with events left, at the end of the stream, or as a handler at
   an event that does not apply.
   */
  lemma {:induction false} ReadersLeaveOnlySo<S, E, C>(dom: Domain<S, E, C>, sys: Sys<S, E, C>, c: nat, a: Action<E, C>)
    requires ClientOf(sys, c).Reading? && !ClientOf(Step(dom, sys, a), c).Reading?
    ensures var r := ClientOf(sys, c);
            var log := StreamOf(sys.streams, r.id);
            || (a == Abandon(c) && r.goal.ForQuery?)
            || (a == Cancel(c) && r.pos < |log|)
            || (a == Finish(c) && r.pos >= |log|)
            || (&& a == Deliver(c) && r.goal.ForCommand? && r.pos < |log|
                && r.from <= ToVersion(r.pos + 1) && !dom.agg.apply(r.partial, log[r.pos]).ok)
  {
    if a.c != c {
      OthersStay(dom, sys, a, c);
    }
  }

  /**
   What one event more does to a load: as long as the log replays, the handler holds
   its fold so far; at the first event that does not apply it gives the lock back,
   with that event the last that it saw.
   */
  ghost predicate LoadedOneMore<S, E, C>(dom: Domain<S, E, C>, sys: Sys<S, E, C>, c: nat, next: Sys<S, E, C>)
    requires ClientOf(sys, c).Reading? && ClientOf(sys, c).pos < |StreamOf(sys.streams, ClientOf(sys, c).id)|
  {
    var r := ClientOf(sys, c);
    var log, n := StreamOf(sys.streams, r.id), r.pos + 1;
    var folded := Aggregates.Replay(dom.agg, log[..n]);
    if folded.ok then
      && next.readers == sys.readers && next.finished == sys.finished
      && ClientOf(next, c)
         == Reading(r.goal, r.id, 0, r.lockedAt, n, Selected(log, r.id, 0, n), folded.state, ToVersion(n))
    else
      && next.readers == sys.readers - {c} && ClientOf(next, c).Idle?
      && next.finished == sys.finished + [Read(r.id, 0, r.lockedAt, Selected(log, r.id, 0, n), false)]
  }

  lemma {:induction false} LoadsOneMore<S, E, C>(dom: Domain<S, E, C>, sys: Sys<S, E, C>, c: nat)
    requires ClientOf(sys, c).Reading? && ClientOf(sys, c).pos < |StreamOf(sys.streams, ClientOf(sys, c).id)|
    requires ClientOf(sys, c).goal.ForCommand?
    requires ReadingOk(dom, sys.streams, sys.history, ClientOf(sys, c))
    ensures LoadedOneMore(dom, sys, c, DeliverStep(dom, sys, c))
  {
    var r := ClientOf(sys, c);
    var log := StreamOf(sys.streams, r.id);
    PlusToVersion(r.pos, 1);
    assert log[..r.pos + 1][..r.pos] == log[..r.pos];
  }

  /** So it goes in every reachable state with a handler that loads. */
  lemma {:induction false} LoadsEventByEvent<S, E, C>(dom: Domain<S, E, C>, actions: seq<Action<E, C>>, c: nat)
    requires ClientOf(Run(dom, actions), c).Reading? && ClientOf(Run(dom, actions), c).goal.ForCommand?
    requires var sys := Run(dom, actions);
             ClientOf(sys, c).pos < |StreamOf(sys.streams, ClientOf(sys, c).id)|
    ensures LoadedOneMore(dom, Run(dom, actions), c, Run(dom, actions + [Deliver(c)]))
  {
    RunKeepsInv(dom, actions);
    assert (actions + [Deliver(c)])[..|actions|] == actions;
    ReadersKnow(dom, Run(dom, actions), c);
    LoadsOneMore(dom, Run(dom, actions), c);
  }

  lemma {:induction false} ReadersKnow<S, E, C>(dom: Domain<S, E, C>, sys: Sys<S, E, C>, c: nat)
    requires Inv(dom, sys) && ClientOf(sys, c).Reading?
    ensures ReadingOk(dom, sys.streams, sys.history, ClientOf(sys, c))
  {
    assert ClientOk(dom, sys.streams, sys.history, ClientOf(sys, c));
  }

  /** A reader can always move on. */
  lemma {:induction false} ReadersMove<S, E, C>(dom: Domain<S, E, C>, sys: Sys<S, E, C>, c: nat)
    requires ClientOf(sys, c).Reading?
    ensures Step(dom, sys, Deliver(c)) != sys || Step(dom, sys, Finish(c)) != sys
  {
    var r := ClientOf(sys, c);
    if r.pos < |StreamOf(sys.streams, r.id)| {
      assert ClientOf(Step(dom, sys, Deliver(c)), c) != r;
    } else {
      assert ClientOf(Step(dom, sys, Finish(c)), c) != r;
    }
  }

  /** No deadlock: in every reachable state in which some client is busy, some action changes the state. */
  lemma {:induction false} NeverStuck<S, E, C>(dom: Domain<S, E, C>, actions: seq<Action<E, C>>, c: nat)
      returns (a: Action<E, C>)
    requires !ClientOf(Run(dom, actions), c).Idle?
    ensures Step(dom, Run(dom, actions), a) != Run(dom, actions)
  {
    var sys := Run(dom, actions);
    RunKeepsInv(dom, actions);
    var client := ClientOf(sys, c);
    if sys.writer.Some? {
      var w := sys.writer.value;
      assert ClientOf(sys, w).Writing?;
      a := Write(w);
      assert ClientOf(Step(dom, sys, a), w).Idle?;
    } else if sys.readers != {} {
      var r :| r in sys.readers;
      assert ClientOf(sys, r).Reading?;
      ReadersMove(dom, sys, r);
      a := if Step(dom, sys, Deliver(r)) != sys then Deliver(r) else Finish(r);
    } else {
      match client {
        case Opened(_, _, _) =>
          a := LockRead(c);
          assert ClientOf(Step(dom, sys, a), c).Reading?;
        case Loaded(_, _, _, _, _) =>
          a := Decide(c);
          assert !ClientOf(Step(dom, sys, a), c).Loaded?;
        case Waiting(_, _, _, _) =>
          a := LockWrite(c);
          assert ClientOf(Step(dom, sys, a), c).Writing?;
      }
    }
  }
}
