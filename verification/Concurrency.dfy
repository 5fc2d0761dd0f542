/**
 The in-memory store as a concurrent object. Any number of clients run command
 handlers (load, decide, save), read streams, or append directly, and every step
 that takes or releases the read-write lock, delivers one event or writes one
 batch may interleave with the steps of the others.
 */
module Concurrency {
  import opened Options
  import opened Versions
  import opened EventStore
  import opened Aggregates

  /**
   What the handlers of an aggregate do: the stream a command loads (or none, when
   it starts from a zero root), the events it records, and the identifier of a root.
   */
  datatype Domain<!S, !E, !C> =
    Domain(agg: Aggregate<S, E>, idOf: S -> StreamID, loads: C -> Option<StreamID>, decide: (S, C) -> Option<seq<E>>)

  /** A handler applies what it reads to a root; a query only looks at it. */
  datatype Goal<C> = ForCommand(cmd: C) | ForQuery

  /** Who wrote a batch. A handler is remembered with the stream and the number of events it loaded. */
  datatype Origin<C> = Handler(cmd: C, source: Option<StreamID>, base: nat) | Direct

  /** The read lock is held while Reading and the write lock while Writing. */
  datatype Client<S, E, C> =
    | Idle
    | Opened(goal: Goal<C>, id: StreamID, from: Version)
    | Reading(goal: Goal<C>, id: StreamID, from: Version, lockedAt: nat, pos: nat, seen: seq<Persisted<E>>,
              partial: S, reached: Version)
    | Loaded(cmd: C, source: Option<StreamID>, base: nat, root: S, version: Version)
    | Waiting(id: StreamID, expected: Check, batch: seq<E>, origin: Origin<C>)
    | Writing(id: StreamID, expected: Check, batch: seq<E>, origin: Origin<C>)

  datatype Commit<E, C> = Commit(id: StreamID, batch: seq<E>, origin: Origin<C>)

  /** A finished iteration: what it saw, and how many batches were committed when it got the read lock. */
  datatype Read<E> = Read(id: StreamID, from: Version, lockedAt: nat, seen: seq<Persisted<E>>, complete: bool)

  datatype Sys<S, E, C> = Sys(
    streams: Streams<E>,
    clients: map<nat, Client<S, E, C>>,
    readers: set<nat>,
    writer: Option<nat>,
    history: seq<Commit<E, C>>,
    finished: seq<Read<E>>)

  function Init<S, E, C>(): Sys<S, E, C> {
    Sys(map[], map[], {}, None, [], [])
  }

  function ClientOf<S, E, C>(sys: Sys<S, E, C>, c: nat): Client<S, E, C> {
    if c in sys.clients then sys.clients[c] else Idle
  }

  datatype Action<E, C> =
    | Start(c: nat, cmd: C)
    | OpenQuery(c: nat, id: StreamID, from: Version)
    | AppendDirectly(c: nat, id: StreamID, expected: Check, batch: seq<E>)
    | LockRead(c: nat)
    | Deliver(c: nat)
    | Cancel(c: nat)
    | Abandon(c: nat)
    | Finish(c: nat)
    | Decide(c: nat)
    | LockWrite(c: nat)
    | Write(c: nat)

  // ------------------------------------------------------------- steps

  function Become<S, E, C>(sys: Sys<S, E, C>, c: nat, client: Client<S, E, C>): Sys<S, E, C> {
    sys.(clients := sys.clients[c := client])
  }

  /** The end of an iteration: the producer returns and its deferred unlock runs. */
  function Release<S, E, C>(sys: Sys<S, E, C>, c: nat, r: Client<S, E, C>, complete: bool, next: Client<S, E, C>)
      : Sys<S, E, C>
    requires r.Reading?
  {
    Become(sys, c, next).(readers := sys.readers - {c},
                          finished := sys.finished + [Read(r.id, r.from, r.lockedAt, r.seen, complete)])
  }

  /** One turn of the producer's loop: skip an event below the selector, or yield it. */
  ghost function DeliverStep<S, E, C>(dom: Domain<S, E, C>, sys: Sys<S, E, C>, c: nat): Sys<S, E, C>
    requires ClientOf(sys, c).Reading?
  {
    var r := ClientOf(sys, c);
    var log := StreamOf(sys.streams, r.id);
    if r.pos >= |log| then sys
    else
      var version := ToVersion(r.pos + 1);
      if version < r.from then Become(sys, c, r.(pos := r.pos + 1))
      else
        var got := r.(pos := r.pos + 1, seen := r.seen + [Persisted(r.id, version, log[r.pos])]);
        if r.goal.ForQuery? then Become(sys, c, got)
        else
          var applied := dom.agg.apply(r.partial, log[r.pos]);
          if applied.ok then Become(sys, c, got.(partial := applied.state, reached := version))
          else Release(sys, c, got, false, Idle)
  }

  function FinishStep<S, E, C>(sys: Sys<S, E, C>, c: nat): Sys<S, E, C>
    requires ClientOf(sys, c).Reading?
  {
    var r := ClientOf(sys, c);
    if r.pos < |StreamOf(sys.streams, r.id)| then sys
    else
      Release(sys, c, r, true,
              match r.goal
              case ForQuery => Idle
              case ForCommand(cmd) =>
                if r.reached == 0 then Idle else Loaded(cmd, Some(r.id), r.pos, r.partial, r.reached))
  }

  /** The domain method records its events on the root, and Save flushes them and asks for the append. */
  ghost function DecideStep<S, E, C>(dom: Domain<S, E, C>, sys: Sys<S, E, C>, c: nat): Sys<S, E, C>
    requires ClientOf(sys, c).Loaded?
  {
    var l := ClientOf(sys, c);
    match dom.decide(l.root, l.cmd)
    case None => Become(sys, c, Idle)
    case Some(batch) =>
      var recorded := Fold(dom.agg, l.root, batch);
      if !recorded.ok || batch == [] then Become(sys, c, Idle)
      else
        var expected := Minus(Plus(l.version, |batch|), |batch|);
        Become(sys, c, Waiting(dom.idOf(recorded.state), CheckExact(expected), batch, Handler(l.cmd, l.source, l.base)))
  }

  /** The check and the append, and the root is dropped whatever comes of it. */
  function WriteStep<S, E, C>(sys: Sys<S, E, C>, c: nat): Sys<S, E, C>
    requires ClientOf(sys, c).Writing?
  {
    var w := ClientOf(sys, c);
    var r := AppendTo(sys.streams, w.id, w.expected, w.batch);
    var done := Become(sys, c, Idle).(writer := None);
    if r.Rejected? then done
    else done.(streams := r.streams, history := sys.history + [Commit(w.id, w.batch, w.origin)])
  }

  /** One action of one client; an action that is not enabled does nothing. */
  ghost function Step<S, E, C>(dom: Domain<S, E, C>, sys: Sys<S, E, C>, a: Action<E, C>): Sys<S, E, C> {
    var client := ClientOf(sys, a.c);
    match a
    case Start(c, cmd) =>
      if !client.Idle? then sys
      else
        (match dom.loads(cmd)
         case None => Become(sys, c, Loaded(cmd, None, 0, dom.agg.zero, 0))
         case Some(id) => Become(sys, c, Opened(ForCommand(cmd), id, 0)))
    case OpenQuery(c, id, from) => if client.Idle? then Become(sys, c, Opened(ForQuery, id, from)) else sys
    case AppendDirectly(c, id, expected, batch) =>
      if client.Idle? then Become(sys, c, Waiting(id, expected, batch, Direct)) else sys
    case LockRead(c) =>
      if client.Opened? && sys.writer.None? then
        Become(sys, c, Reading(client.goal, client.id, client.from, |sys.history|, 0, [], dom.agg.zero, 0))
          .(readers := sys.readers + {c})
      else sys
    case Deliver(c) => if client.Reading? then DeliverStep(dom, sys, c) else sys
    case Cancel(c) =>
      if client.Reading? && client.pos < |StreamOf(sys.streams, client.id)| then Release(sys, c, client, false, Idle)
      else sys
    case Abandon(c) =>
      if client.Reading? && client.goal.ForQuery? then Release(sys, c, client, false, Idle) else sys
    case Finish(c) => if client.Reading? then FinishStep(sys, c) else sys
    case Decide(c) => if client.Loaded? then DecideStep(dom, sys, c) else sys
    case LockWrite(c) =>
      if client.Waiting? && sys.readers == {} && sys.writer.None? then
        Become(sys, c, Writing(client.id, client.expected, client.batch, client.origin)).(writer := Some(c))
      else sys
    case Write(c) => if client.Writing? then WriteStep(sys, c) else sys
  }

  /** Streams change only when a client that holds the write lock writes. */
  lemma {:induction false} OnlyWritesChange<S, E, C>(dom: Domain<S, E, C>, sys: Sys<S, E, C>, a: Action<E, C>)
    ensures if a.Write? && ClientOf(sys, a.c).Writing? then Step(dom, sys, a) == WriteStep(sys, a.c)
            else Step(dom, sys, a).streams == sys.streams && Step(dom, sys, a).history == sys.history
  {
  }

  ghost function Run<S, E, C>(dom: Domain<S, E, C>, actions: seq<Action<E, C>>): Sys<S, E, C> {
    if actions == [] then Init()
    else Step(dom, Run(dom, actions[..|actions| - 1]), actions[|actions| - 1])
  }

  /** Any number of turns of the loop of one client's producer. */
  ghost function Turns<S, E, C>(dom: Domain<S, E, C>, sys: Sys<S, E, C>, c: nat, n: nat): Sys<S, E, C>
    decreases n
  {
    if n == 0 then sys else Step(dom, Turns(dom, sys, c, n - 1), Deliver(c))
  }

  // ------------------------------------------------------------- history

  /** The log of one stream made by a sequence of committed batches. */
  ghost function LogOf<E, C>(history: seq<Commit<E, C>>, id: StreamID): seq<E> {
    if history == [] then []
    else
      var last := history[|history| - 1];
      LogOf(history[..|history| - 1], id) + (if last.id == id then last.batch else [])
  }

  lemma {:induction false} LogOfOne<E, C>(history: seq<Commit<E, C>>, k: Commit<E, C>, id: StreamID)
    ensures LogOf(history + [k], id) == LogOf(history, id) + (if k.id == id then k.batch else [])
  {
    assert (history + [k])[..|history|] == history;
  }

  lemma {:induction false} LogOfGrows<E, C>(history: seq<Commit<E, C>>, n: nat, id: StreamID)
    requires n <= |history|
    ensures LogOf(history[..n], id) <= LogOf(history, id)
    decreases |history|
  {
    if n == |history| {
      assert history[..n] == history;
    } else {
      var front := history[..|history| - 1];
      LogOfGrows(front, n, id);
      assert front[..n] == history[..n];
    }
  }

  /** A committed batch stays in its stream right after what it was appended to. */
  lemma {:induction false} HistoryContains<E, C>(history: seq<Commit<E, C>>, k: nat)
    requires k < |history|
    ensures LogOf(history[..k], history[k].id) + history[k].batch <= LogOf(history, history[k].id)
  {
    assert history[..k + 1] == history[..k] + [history[k]];
    LogOfOne(history[..k], history[k], history[k].id);
    LogOfGrows(history, k + 1, history[k].id);
  }

  // ------------------------------------------------------------- invariant

  /** The events that a handler had seen when it decided. */
  ghost function Basis<E>(streams: Streams<E>, source: Option<StreamID>, base: nat): seq<E>
    requires source.Some? ==> base <= |StreamOf(streams, source.value)|
  {
    if source.Some? then StreamOf(streams, source.value)[..base] else []
  }

  /** A batch that a handler wants to append was decided on the fold of what it loaded. */
  ghost predicate BatchOk<S, E, C>(dom: Domain<S, E, C>, streams: Streams<E>, id: StreamID, expected: Check,
                                   batch: seq<E>, origin: Origin<C>) {
    origin.Handler? ==>
      && (origin.source.Some? ==> 0 < origin.base <= |StreamOf(streams, origin.source.value)|)
      && (origin.source.None? ==> origin.base == 0)
      && batch != [] && expected == CheckExact(ToVersion(origin.base))
      && var loaded := Replay(dom.agg, Basis(streams, origin.source, origin.base));
         && loaded.ok
         && dom.decide(loaded.state, origin.cmd) == Some(batch)
         && dom.loads(origin.cmd) == origin.source
         && Fold(dom.agg, loaded.state, batch).ok
         && id == dom.idOf(Fold(dom.agg, loaded.state, batch).state)
  }

  ghost predicate ReadingOk<S, E, C>(dom: Domain<S, E, C>, streams: Streams<E>, history: seq<Commit<E, C>>,
                                     r: Client<S, E, C>)
    requires r.Reading?
  {
    var log := StreamOf(streams, r.id);
    && r.pos <= |log|
    && r.lockedAt <= |history| && LogOf(history[..r.lockedAt], r.id) == log
    && r.seen == Selected(log, r.id, r.from, r.pos)
    && (r.goal.ForCommand? ==>
          && r.from == 0
          && dom.loads(r.goal.cmd) == Some(r.id)
          && Replay(dom.agg, log[..r.pos]) == Applied(r.partial, true)
          && r.reached == ToVersion(r.pos))
  }

  ghost predicate LoadedOk<S, E, C>(dom: Domain<S, E, C>, streams: Streams<E>, l: Client<S, E, C>)
    requires l.Loaded?
  {
    && (l.source.Some? ==> 0 < l.base <= |StreamOf(streams, l.source.value)|)
    && (l.source.None? ==> l.base == 0)
    && dom.loads(l.cmd) == l.source
    && Replay(dom.agg, Basis(streams, l.source, l.base)) == Applied(l.root, true)
    && l.version == ToVersion(l.base)
  }

  ghost predicate ClientOk<S, E, C>(dom: Domain<S, E, C>, streams: Streams<E>, history: seq<Commit<E, C>>,
                                    client: Client<S, E, C>) {
    match client
    case Idle => true
    case Opened(goal, id, from) => goal.ForCommand? ==> from == 0 && dom.loads(goal.cmd) == Some(id)
    case Reading(_, _, _, _, _, _, _, _) => ReadingOk(dom, streams, history, client)
    case Loaded(_, _, _, _, _) => LoadedOk(dom, streams, client)
    case Waiting(id, expected, batch, origin) => BatchOk(dom, streams, id, expected, batch, origin)
    case Writing(id, expected, batch, origin) => BatchOk(dom, streams, id, expected, batch, origin)
  }

  /** Readers and a writer never hold the lock together, and the lock knows who they are. */
  ghost predicate LockOk<S, E, C>(sys: Sys<S, E, C>) {
    && (forall c: nat :: c in sys.readers <==> ClientOf(sys, c).Reading?)
    && (forall c: nat :: sys.writer == Some(c) <==> ClientOf(sys, c).Writing?)
    && (sys.writer.Some? ==> sys.readers == {})
  }

  /**
   A committed batch of a handler: the stream it was appended to had the length it
   expected (up to 2^32), and unless that stream is a different one from the stream
   it loaded, it was decided on the fold of exactly the log it was appended to.
   */
  ghost predicate CommitOk<S, E, C>(dom: Domain<S, E, C>, before: seq<E>, k: Commit<E, C>) {
    k.origin.Handler? ==>
      && k.batch != [] && Congruent(|before|, k.origin.base)
      && dom.loads(k.origin.cmd) == k.origin.source
      && (k.origin.source.None? ==> k.origin.base == 0)
      && (|before| < WRAP && (k.origin.source.None? || k.origin.source == Some(k.id)) ==>
            && |before| == k.origin.base
            && Replay(dom.agg, before).ok
            && dom.decide(Replay(dom.agg, before).state, k.origin.cmd) == Some(k.batch))
  }

  /** A finished iteration saw a prefix of the selected suffix of one value of the stream. */
  ghost predicate ReadOk<E, C>(history: seq<Commit<E, C>>, r: Read<E>) {
    && r.lockedAt <= |history|
    && var log := LogOf(history[..r.lockedAt], r.id);
       && r.seen <= Selected(log, r.id, r.from, |log|)
       && (r.complete ==> r.seen == Selected(log, r.id, r.from, |log|))
  }

  ghost predicate HistoryOk<S, E, C>(dom: Domain<S, E, C>, history: seq<Commit<E, C>>) {
    forall k :: 0 <= k < |history| ==> CommitOk(dom, LogOf(history[..k], history[k].id), history[k])
  }

  ghost predicate StreamsOk<S, E, C>(sys: Sys<S, E, C>) {
    forall id :: StreamOf(sys.streams, id) == LogOf(sys.history, id)
  }

  ghost predicate ClientsOk<S, E, C>(dom: Domain<S, E, C>, sys: Sys<S, E, C>) {
    forall c: nat :: ClientOk(dom, sys.streams, sys.history, ClientOf(sys, c))
  }

  ghost predicate ReadsOk<S, E, C>(sys: Sys<S, E, C>) {
    forall i :: 0 <= i < |sys.finished| ==> ReadOk(sys.history, sys.finished[i])
  }

  ghost predicate Inv<S, E, C>(dom: Domain<S, E, C>, sys: Sys<S, E, C>) {
    LockOk(sys) && StreamsOk(sys) && ClientsOk(dom, sys) && HistoryOk(dom, sys.history) && ReadsOk(sys)
  }

  // ------------------------------------------------------------- every step keeps it

  /** A step that only moves one client keeps the invariant when the client's new phase is right. */
  lemma {:induction false} BecomeKeeps<S, E, C>(dom: Domain<S, E, C>, sys: Sys<S, E, C>, c: nat,
                                                client: Client<S, E, C>)
    requires Inv(dom, sys)
    requires ClientOk(dom, sys.streams, sys.history, client)
    requires client.Reading? <==> ClientOf(sys, c).Reading?
    requires !client.Writing? && !ClientOf(sys, c).Writing?
    ensures Inv(dom, Become(sys, c, client))
  {
    var next := Become(sys, c, client);
    forall d: nat
      ensures ClientOf(next, d) == if d == c then client else ClientOf(sys, d)
    {
    }
  }

  lemma {:induction false} ReleaseKeeps<S, E, C>(dom: Domain<S, E, C>, sys: Sys<S, E, C>, c: nat, r: Client<S, E, C>,
                                                 complete: bool, next: Client<S, E, C>)
    requires Inv(dom, sys) && ClientOf(sys, c).Reading?
    requires r.Reading? && ReadOk(sys.history, Read(r.id, r.from, r.lockedAt, r.seen, complete))
    requires ClientOk(dom, sys.streams, sys.history, next) && !next.Reading? && !next.Writing?
    ensures Inv(dom, Release(sys, c, r, complete, next))
  {
    var after := Release(sys, c, r, complete, next);
    forall d: nat
      ensures ClientOf(after, d) == if d == c then next else ClientOf(sys, d)
    {
    }
    assert sys.writer.None?;
  }

  /** What a reader has seen so far is a prefix of the complete selection. */
  lemma {:induction false} ReadingIsRead<S, E, C>(dom: Domain<S, E, C>, streams: Streams<E>, history: seq<Commit<E, C>>,
                                                  r: Client<S, E, C>, complete: bool)
    requires r.Reading? && ReadingOk(dom, streams, history, r)
    requires complete ==> r.pos == |StreamOf(streams, r.id)|
    ensures ReadOk(history, Read(r.id, r.from, r.lockedAt, r.seen, complete))
  {
    var log := StreamOf(streams, r.id);
    SelectedPrefix(log, r.id, r.from, r.pos, |log|);
  }

  lemma {:induction false} DeliverKeeps<S, E, C>(dom: Domain<S, E, C>, sys: Sys<S, E, C>, c: nat)
    requires Inv(dom, sys) && ClientOf(sys, c).Reading?
    ensures Inv(dom, DeliverStep(dom, sys, c))
  {
    var r := ClientOf(sys, c);
    assert ClientOk(dom, sys.streams, sys.history, r);
    var log := StreamOf(sys.streams, r.id);
    if r.pos < |log| {
      var version := ToVersion(r.pos + 1);
      PlusToVersion(r.pos, 1);
      var moved := r.(pos := r.pos + 1);
      var got := moved.(seen := r.seen + [Persisted(r.id, version, log[r.pos])]);
      if version < r.from {
        BecomeKeeps(dom, sys, c, moved);
      } else if r.goal.ForQuery? {
        BecomeKeeps(dom, sys, c, got);
      } else {
        FoldNext(dom.agg, dom.agg.zero, log, r.pos);
        var applied := dom.agg.apply(r.partial, log[r.pos]);
        if applied.ok {
          BecomeKeeps(dom, sys, c, got.(partial := applied.state, reached := version));
        } else {
          SelectedPrefix(log, r.id, r.from, r.pos + 1, |log|);
          ReleaseKeeps(dom, sys, c, got, false, Idle);
        }
      }
    }
  }

  lemma {:induction false} FinishKeeps<S, E, C>(dom: Domain<S, E, C>, sys: Sys<S, E, C>, c: nat)
    requires Inv(dom, sys) && ClientOf(sys, c).Reading?
    ensures Inv(dom, FinishStep(sys, c))
  {
    var r := ClientOf(sys, c);
    assert ClientOk(dom, sys.streams, sys.history, r);
    if r.pos == |StreamOf(sys.streams, r.id)| {
      ReadingIsRead(dom, sys.streams, sys.history, r, true);
      var next: Client<S, E, C> := match r.goal
        case ForQuery => Idle
        case ForCommand(cmd) => if r.reached == 0 then Idle else Loaded(cmd, Some(r.id), r.pos, r.partial, r.reached);
      ReleaseKeeps(dom, sys, c, r, true, next);
    }
  }

  lemma {:induction false} DecideKeeps<S, E, C>(dom: Domain<S, E, C>, sys: Sys<S, E, C>, c: nat)
    requires Inv(dom, sys) && ClientOf(sys, c).Loaded?
    ensures Inv(dom, DecideStep(dom, sys, c))
  {
    var l := ClientOf(sys, c);
    assert ClientOk(dom, sys.streams, sys.history, l);
    match dom.decide(l.root, l.cmd) {
      case None => BecomeKeeps(dom, sys, c, Idle);
      case Some(batch) =>
        var recorded := Fold(dom.agg, l.root, batch);
        if !recorded.ok || batch == [] {
          BecomeKeeps(dom, sys, c, Idle);
        } else {
          MinusPlus(l.version, |batch|);
          BecomeKeeps(dom, sys, c,
            Waiting(dom.idOf(recorded.state), CheckExact(l.version), batch, Handler(l.cmd, l.source, l.base)));
        }
    }
  }

  /** Every stream of the new map extends the same stream of the old one. */
  ghost predicate Extends<E>(streams: Streams<E>, streams': Streams<E>) {
    forall id :: StreamOf(streams, id) <= StreamOf(streams', id)
  }

  /** What a client without the read lock knows stays true when streams grow. */
  lemma {:induction false} ClientOkStable<S, E, C>(dom: Domain<S, E, C>, streams: Streams<E>,
                                                   history: seq<Commit<E, C>>,
                                                   streams': Streams<E>, history': seq<Commit<E, C>>,
                                                   client: Client<S, E, C>)
    requires Extends(streams, streams') && !client.Reading?
    requires ClientOk(dom, streams, history, client)
    ensures ClientOk(dom, streams', history', client)
  {
    if client.Loaded? && client.source.Some? {
      BasisStable(streams, streams', client.source.value, client.base);
    }
    if (client.Waiting? || client.Writing?) && client.origin.Handler? && client.origin.source.Some? {
      BasisStable(streams, streams', client.origin.source.value, client.origin.base);
    }
  }

  lemma {:induction false} BasisStable<E>(streams: Streams<E>, streams': Streams<E>, id: StreamID, base: nat)
    requires Extends(streams, streams') && base <= |StreamOf(streams, id)|
    ensures base <= |StreamOf(streams', id)|
    ensures StreamOf(streams', id)[..base] == StreamOf(streams, id)[..base]
  {
    assert StreamOf(streams, id) <= StreamOf(streams', id);
  }

  /** An accepted write of a handler was decided on the very log it extends. */
  lemma {:induction false} WriteIsCommitOk<S, E, C>(dom: Domain<S, E, C>, streams: Streams<E>, w: Client<S, E, C>)
    requires w.Writing? && BatchOk(dom, streams, w.id, w.expected, w.batch, w.origin)
    requires AppendTo(streams, w.id, w.expected, w.batch).Accepted?
    ensures CommitOk(dom, StreamOf(streams, w.id), Commit(w.id, w.batch, w.origin))
  {
    if w.origin.Handler? {
      var before := StreamOf(streams, w.id);
      SameVersion(|before|, w.origin.base);
      if w.origin.source == Some(w.id) {
        assert before[..|before|] == before;
      }
    }
  }

  lemma {:induction false} WriteKeeps<S, E, C>(dom: Domain<S, E, C>, sys: Sys<S, E, C>, c: nat)
    requires Inv(dom, sys) && ClientOf(sys, c).Writing?
    ensures Inv(dom, WriteStep(sys, c))
  {
    var w := ClientOf(sys, c);
    assert ClientOk(dom, sys.streams, sys.history, w);
    assert sys.writer == Some(c);
    var next := WriteStep(sys, c);
    forall d: nat
      ensures ClientOf(next, d) == if d == c then Idle else ClientOf(sys, d)
    {
    }
    var r := AppendTo(sys.streams, w.id, w.expected, w.batch);
    if r.Accepted? {
      AppendMeaning(sys.streams, w.id, w.expected, w.batch);
      WriteIsCommitOk(dom, sys.streams, w);
      CommitKeepsHistory(dom, sys, Commit(w.id, w.batch, w.origin));
      forall id
        ensures StreamOf(sys.streams, id) <= StreamOf(next.streams, id)
        ensures StreamOf(next.streams, id) == LogOf(next.history, id)
      {
        LogOfOne(sys.history, Commit(w.id, w.batch, w.origin), id);
      }
      forall d: nat
        ensures ClientOk(dom, next.streams, next.history, ClientOf(next, d))
      {
        assert ClientOk(dom, sys.streams, sys.history, ClientOf(sys, d));
        assert !ClientOf(sys, d).Reading?;
        ClientOkStable(dom, sys.streams, sys.history, next.streams, next.history, ClientOf(next, d));
      }
    }
  }

  /** One more commit leaves what was said of earlier commits and reads true. */
  lemma {:induction false} CommitKeepsHistory<S, E, C>(dom: Domain<S, E, C>, sys: Sys<S, E, C>, k: Commit<E, C>)
    requires StreamsOk(sys) && HistoryOk(dom, sys.history) && ReadsOk(sys)
    requires CommitOk(dom, StreamOf(sys.streams, k.id), k)
    ensures HistoryOk(dom, sys.history + [k])
    ensures forall i :: 0 <= i < |sys.finished| ==> ReadOk(sys.history + [k], sys.finished[i])
  {
    var longer := sys.history + [k];
    forall i | 0 <= i < |longer|
      ensures CommitOk(dom, LogOf(longer[..i], longer[i].id), longer[i])
    {
      if i < |sys.history| {
        assert longer[..i] == sys.history[..i];
      } else {
        assert longer[..i] == sys.history;
      }
    }
    forall i | 0 <= i < |sys.finished|
      ensures ReadOk(longer, sys.finished[i])
    {
      assert ReadOk(sys.history, sys.finished[i]);
      assert longer[..sys.finished[i].lockedAt] == sys.history[..sys.finished[i].lockedAt];
    }
  }

  lemma {:induction false} LockReadKeeps<S, E, C>(dom: Domain<S, E, C>, sys: Sys<S, E, C>, c: nat)
    requires Inv(dom, sys) && ClientOf(sys, c).Opened?
    ensures Inv(dom, Step(dom, sys, LockRead(c)))
  {
    var o := ClientOf(sys, c);
    assert ClientOk(dom, sys.streams, sys.history, o);
    if sys.writer.None? {
      var next := Step(dom, sys, LockRead(c));
      var r := ClientOf(next, c);
      assert sys.history[..|sys.history|] == sys.history;
      assert StreamOf(sys.streams, o.id) == LogOf(sys.history, o.id);
      assert StreamOf(sys.streams, o.id)[..0] == [];
      assert ReadingOk(dom, sys.streams, sys.history, r);
      forall d: nat
        ensures ClientOf(next, d) == if d == c then r else ClientOf(sys, d)
      {
      }
    }
  }

  lemma {:induction false} LockWriteKeeps<S, E, C>(dom: Domain<S, E, C>, sys: Sys<S, E, C>, c: nat)
    requires Inv(dom, sys) && ClientOf(sys, c).Waiting?
    ensures Inv(dom, Step(dom, sys, LockWrite(c)))
  {
    var o := ClientOf(sys, c);
    assert ClientOk(dom, sys.streams, sys.history, o);
    if sys.writer.None? && sys.readers == {} {
      var next := Step(dom, sys, LockWrite(c));
      forall d: nat
        ensures ClientOf(next, d) == if d == c then Writing(o.id, o.expected, o.batch, o.origin) else ClientOf(sys, d)
      {
      }
    }
  }

  lemma {:induction false} StepKeepsInv<S, E, C>(dom: Domain<S, E, C>, sys: Sys<S, E, C>, a: Action<E, C>)
    requires Inv(dom, sys)
    ensures Inv(dom, Step(dom, sys, a))
  {
    var client := ClientOf(sys, a.c);
    assert ClientOk(dom, sys.streams, sys.history, client);
    match a {
      case Start(c, cmd) =>
        if client.Idle? {
          if dom.loads(cmd).None? {
            BecomeKeeps(dom, sys, c, Loaded(cmd, None, 0, dom.agg.zero, 0));
          } else {
            BecomeKeeps(dom, sys, c, Opened(ForCommand(cmd), dom.loads(cmd).value, 0));
          }
        }
      case OpenQuery(c, id, from) => if client.Idle? { BecomeKeeps(dom, sys, c, Opened(ForQuery, id, from)); }
      case AppendDirectly(c, id, expected, batch) =>
        if client.Idle? { BecomeKeeps(dom, sys, c, Waiting(id, expected, batch, Direct)); }
      case LockRead(c) => if client.Opened? { LockReadKeeps(dom, sys, c); }
      case Deliver(c) => if client.Reading? { DeliverKeeps(dom, sys, c); }
      case Cancel(c) =>
        if client.Reading? {
          ReadingIsRead(dom, sys.streams, sys.history, client, false);
          ReleaseKeeps(dom, sys, c, client, false, Idle);
        }
      case Abandon(c) =>
        if client.Reading? {
          ReadingIsRead(dom, sys.streams, sys.history, client, false);
          ReleaseKeeps(dom, sys, c, client, false, Idle);
        }
      case Finish(c) => if client.Reading? { FinishKeeps(dom, sys, c); }
      case Decide(c) => if client.Loaded? { DecideKeeps(dom, sys, c); }
      case LockWrite(c) => if client.Waiting? { LockWriteKeeps(dom, sys, c); }
      case Write(c) => if client.Writing? { WriteKeeps(dom, sys, c); }
    }
  }

  lemma {:induction false} RunKeepsInv<S, E, C>(dom: Domain<S, E, C>, actions: seq<Action<E, C>>)
    ensures Inv(dom, Run(dom, actions))
  {
    if actions != [] {
      RunKeepsInv(dom, actions[..|actions| - 1]);
      StepKeepsInv(dom, Run(dom, actions[..|actions| - 1]), actions[|actions| - 1]);
    }
  }

  // ------------------------------------------------------------- theorems

  /**
   Serialisability of optimistic locking. In every run of any number of clients,
   the store is the concatenation of the committed batches, and every batch
   committed by a handler to the stream it loaded was decided on the fold of
   exactly the log it was appended to, as long as that stream stays shorter than
   2^32. A handler that loads nothing commits only to an empty stream, and one
   that recorded nothing commits nothing.
   */
  lemma {:induction false} Serialisable<S, E, C>(dom: Domain<S, E, C>, actions: seq<Action<E, C>>, k: nat)
    requires var end := Run(dom, actions);
             k < |end.history| && |StreamOf(end.streams, end.history[k].id)| < WRAP
    ensures var end := Run(dom, actions);
            var commit := end.history[k];
            var before := LogOf(end.history[..k], commit.id);
            && (forall id :: StreamOf(end.streams, id) == LogOf(end.history, id))
            && before + commit.batch <= StreamOf(end.streams, commit.id)
            && (commit.origin.Handler? ==>
                  commit.batch != [] && dom.loads(commit.origin.cmd) == commit.origin.source)
            && (commit.origin.Handler? && (commit.origin.source.None? || commit.origin.source == Some(commit.id)) ==>
                  && Replay(dom.agg, before).ok
                  && dom.decide(Replay(dom.agg, before).state, commit.origin.cmd) == Some(commit.batch)
                  && (commit.origin.source.None? ==> before == []))
  {
    var end := Run(dom, actions);
    RunKeepsInv(dom, actions);
    var commit := end.history[k];
    HistoryContains(end.history, k);
    assert StreamOf(end.streams, commit.id) == LogOf(end.history, commit.id);
    assert CommitOk(dom, LogOf(end.history[..k], commit.id), commit);
  }

  /**
   At action n of a run a client that had opened a stream got the read lock, with
   no writer about, when that many batches were committed.
   */
  ghost predicate LockedAt<S, E, C>(dom: Domain<S, E, C>, actions: seq<Action<E, C>>, n: nat, c: nat, id: StreamID,
                                    from: Version, lockedAt: nat) {
    && n < |actions| && actions[n] == LockRead(c)
    && var before := Run(dom, actions[..n]);
       var client := ClientOf(before, c);
       && client.Opened? && client.id == id && client.from == from
       && before.writer.None? && lockedAt == |before.history|
  }

  ghost predicate StartedBy<S, E, C>(dom: Domain<S, E, C>, actions: seq<Action<E, C>>, c: nat, id: StreamID,
                                     from: Version, lockedAt: nat) {
    exists n: nat :: LockedAt(dom, actions, n, c, id, from, lockedAt)
  }

  ghost predicate ReadingStarted<S, E, C>(dom: Domain<S, E, C>, actions: seq<Action<E, C>>, c: nat,
                                          r: Client<S, E, C>) {
    r.Reading? ==> StartedBy(dom, actions, c, r.id, r.from, r.lockedAt)
  }

  ghost predicate ReadStarted<S, E, C>(dom: Domain<S, E, C>, actions: seq<Action<E, C>>, r: Read<E>) {
    exists c: nat :: StartedBy(dom, actions, c, r.id, r.from, r.lockedAt)
  }

  /** Every read, under way or finished, began with such a step. */
  ghost predicate ReadsLocked<S, E, C>(dom: Domain<S, E, C>, actions: seq<Action<E, C>>, sys: Sys<S, E, C>) {
    && (forall c: nat :: ReadingStarted(dom, actions, c, ClientOf(sys, c)))
    && (forall i :: 0 <= i < |sys.finished| ==> ReadStarted(dom, actions, sys.finished[i]))
  }

  /** Such a step is still there in a longer run. */
  lemma {:induction false} StartedInLongerRun<S, E, C>(dom: Domain<S, E, C>, actions: seq<Action<E, C>>, c: nat,
                                                       id: StreamID, from: Version, lockedAt: nat)
    requires actions != [] && StartedBy(dom, actions[..|actions| - 1], c, id, from, lockedAt)
    ensures StartedBy(dom, actions, c, id, from, lockedAt)
  {
    var front := actions[..|actions| - 1];
    var n: nat :| LockedAt(dom, front, n, c, id, from, lockedAt);
    assert front[..n] == actions[..n];
    assert LockedAt(dom, actions, n, c, id, from, lockedAt);
  }

  /** One step starts at most the read of its own client, and finishes at most that one. */
  lemma {:induction false} ReadsOfStep<S, E, C>(dom: Domain<S, E, C>, sys: Sys<S, E, C>, a: Action<E, C>)
    ensures var next := Step(dom, sys, a);
            && (forall c: nat :: ClientOf(next, c).Reading? ==>
                  var r := ClientOf(next, c);
                  if ClientOf(sys, c).Reading? then
                    var o := ClientOf(sys, c);
                    r.id == o.id && r.from == o.from && r.lockedAt == o.lockedAt
                  else
                    var o := ClientOf(sys, c);
                    && a == LockRead(c) && o.Opened? && sys.writer.None?
                    && r.id == o.id && r.from == o.from && r.lockedAt == |sys.history|)
            && (next.finished == sys.finished
                || (&& ClientOf(sys, a.c).Reading?
                    && |next.finished| == |sys.finished| + 1 && next.finished[..|sys.finished|] == sys.finished
                    && var o, r := ClientOf(sys, a.c), next.finished[|sys.finished|];
                       r.id == o.id && r.from == o.from && r.lockedAt == o.lockedAt))
  {
    var next := Step(dom, sys, a);
    forall c: nat | c != a.c
      ensures ClientOf(next, c) == ClientOf(sys, c)
    {
    }
  }

  lemma {:induction false} EveryReadLocked<S, E, C>(dom: Domain<S, E, C>, actions: seq<Action<E, C>>)
    ensures ReadsLocked(dom, actions, Run(dom, actions))
  {
    if actions != [] {
      var last := |actions| - 1;
      var front, a := actions[..last], actions[last];
      var sys := Run(dom, front);
      EveryReadLocked(dom, front);
      ReadsOfStep(dom, sys, a);
      var next := Run(dom, actions);
      assert next == Step(dom, sys, a);
      forall c: nat
        ensures ReadingStarted(dom, actions, c, ClientOf(next, c))
      {
        var r := ClientOf(next, c);
        if r.Reading? {
          if ClientOf(sys, c).Reading? {
            assert ReadingStarted(dom, front, c, ClientOf(sys, c));
            StartedInLongerRun(dom, actions, c, r.id, r.from, r.lockedAt);
          } else {
            assert LockedAt(dom, actions, last, c, r.id, r.from, r.lockedAt);
          }
        }
      }
      forall i | 0 <= i < |next.finished|
        ensures ReadStarted(dom, actions, next.finished[i])
      {
        var r := next.finished[i];
        if i < |sys.finished| {
          assert r == sys.finished[i];
          var c: nat :| StartedBy(dom, front, c, r.id, r.from, r.lockedAt);
          StartedInLongerRun(dom, actions, c, r.id, r.from, r.lockedAt);
        } else {
          assert ReadingStarted(dom, front, a.c, ClientOf(sys, a.c));
          StartedInLongerRun(dom, actions, a.c, r.id, r.from, r.lockedAt);
        }
      }
    }
  }

  /** Committed batches stay committed. */
  lemma {:induction false} HistoryGrows<S, E, C>(dom: Domain<S, E, C>, actions: seq<Action<E, C>>, n: nat)
    requires n <= |actions|
    ensures Run(dom, actions[..n]).history <= Run(dom, actions).history
    decreases |actions|
  {
    if n == |actions| {
      assert actions[..n] == actions;
    } else {
      var front := actions[..|actions| - 1];
      HistoryGrows(dom, front, n);
      assert front[..n] == actions[..n];
      OnlyWritesChange(dom, Run(dom, front), actions[|actions| - 1]);
    }
  }

  /** A finished read saw the stream as it was when the read got the lock. */
  lemma {:induction false} SawValueAtLock<S, E, C>(dom: Domain<S, E, C>, actions: seq<Action<E, C>>, i: nat, n: nat,
                                                   c: nat)
    requires i < |Run(dom, actions).finished|
    requires var r := Run(dom, actions).finished[i]; LockedAt(dom, actions, n, c, r.id, r.from, r.lockedAt)
    ensures var r := Run(dom, actions).finished[i];
            var log := StreamOf(Run(dom, actions[..n]).streams, r.id);
            && r.seen <= Selected(log, r.id, r.from, |log|)
            && (r.complete ==> r.seen == Selected(log, r.id, r.from, |log|))
  {
    var end, before := Run(dom, actions), Run(dom, actions[..n]);
    var r := end.finished[i];
    RunKeepsInv(dom, actions);
    RunKeepsInv(dom, actions[..n]);
    HistoryGrows(dom, actions, n);
    assert ReadOk(end.history, r);
    assert end.history[..r.lockedAt] == before.history;
    assert StreamOf(before.streams, r.id) == LogOf(before.history, r.id);
  }

  /** A read saw the events from the selected version on, each with its position; a complete one up to the last. */
  ghost predicate SawPositions<E>(log: seq<E>, r: Read<E>)
    requires |log| < WRAP
  {
    && (forall j :: 0 <= j < |r.seen| ==>
          && Skipped(r.from) + j < |log|
          && r.seen[j] == Persisted(r.id, Skipped(r.from) + j + 1, log[Skipped(r.from) + j]))
    && (r.complete ==> |r.seen| == if |log| <= Skipped(r.from) then 0 else |log| - Skipped(r.from))
  }

  /** What a prefix of a selection is on a stream shorter than 2^32. */
  lemma {:induction false} SawSuffix<E>(log: seq<E>, r: Read<E>)
    requires r.seen <= Selected(log, r.id, r.from, |log|)
    requires r.complete ==> r.seen == Selected(log, r.id, r.from, |log|)
    ensures |log| < WRAP ==> SawPositions(log, r)
  {
    if |log| < WRAP {
      SelectedIsSuffix(log, r.id, r.from, |log|);
    }
  }

  /**
   Consistent reads. A finished iteration, complete or abandoned, saw a prefix of
   the selected suffix of one value of its stream: the one present at the step of
   the run at which the client that had opened it got the read lock, whatever was
   appended between opening the stream and then, or since. A complete one saw all
   of it, with contiguous versions up to the length of that value.
   */
  lemma {:induction false} ConsistentReads<S, E, C>(dom: Domain<S, E, C>, actions: seq<Action<E, C>>, i: nat)
      returns (n: nat, c: nat)
    requires i < |Run(dom, actions).finished|
    ensures var r := Run(dom, actions).finished[i];
            && LockedAt(dom, actions, n, c, r.id, r.from, r.lockedAt)
            && var log := StreamOf(Run(dom, actions[..n]).streams, r.id);
               && r.seen <= Selected(log, r.id, r.from, |log|)
               && (r.complete ==> r.seen == Selected(log, r.id, r.from, |log|))
               && (|log| < WRAP ==> SawPositions(log, r))
  {
    var end := Run(dom, actions);
    var r := end.finished[i];
    EveryReadLocked(dom, actions);
    assert ReadStarted(dom, actions, r);
    c :| StartedBy(dom, actions, c, r.id, r.from, r.lockedAt);
    n :| LockedAt(dom, actions, n, c, r.id, r.from, r.lockedAt);
    SawValueAtLock(dom, actions, i, n, c);
    SawSuffix(StreamOf(Run(dom, actions[..n]).streams, r.id), r);
  }

  /** While anyone reads, no step changes a stream. */
  lemma {:induction false} NoWriteDuringRead<S, E, C>(dom: Domain<S, E, C>, actions: seq<Action<E, C>>, c: nat,
                                                      a: Action<E, C>)
    requires ClientOf(Run(dom, actions), c).Reading?
    ensures Step(dom, Run(dom, actions), a).streams == Run(dom, actions).streams
  {
    RunKeepsInv(dom, actions);
    ReadersExclude(dom, Run(dom, actions), c, a);
  }

  lemma {:induction false} ReadersExclude<S, E, C>(dom: Domain<S, E, C>, sys: Sys<S, E, C>, c: nat, a: Action<E, C>)
    requires LockOk(sys) && ClientOf(sys, c).Reading?
    ensures Step(dom, sys, a).streams == sys.streams
  {
    assert c in sys.readers;
    OnlyWritesChange(dom, sys, a);
  }
}
