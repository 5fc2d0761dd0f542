/**
 The PostgreSQL aggregate repository: a save appends a root's events and writes
 its state as a snapshot row in one transaction. Snapshots are loaded instead of
 replaying events, so they must agree with the log.
 */
module PgSnapshots {
  import opened Options
  import opened Versions
  import opened EventStore
  import opened Aggregates
  import opened PgTables

  datatype Saved<B> = SaveDone(tables: Tables<B>) | SaveRefused(conflict: ConflictError) | SaveFailed

  /** A save transaction that runs alone and loses no connection. */
  ghost function SerialSave<S, M, B>(t: Tables<B>, states: Serde<S, B>, messages: Serde<M, B>, typ: string,
                                     id: StreamID,
                                     state: S, version: Version, batch: seq<Message<M>>,
                                     clock: nat -> string): Saved<B> {
    match SerialAppend(t, messages, id, CheckExact(Minus(version, |batch|)), batch, clock)
    case Refused(c) => SaveRefused(c)
    case Failed => SaveFailed
    case Done(newVersion, t') =>
      if newVersion != version || states.ser(state).None? then SaveFailed
      else
        match UpsertAggregate(t', id, typ, version, states.ser(state).value)
        case None => SaveFailed
        case Some(t'') => SaveDone(t'')
  }

  /**
   The version mismatch that a save looks for after its append never happens, and
   the snapshot row it writes is always allowed: once the append is done, only the
   serialization of the state can fail.
   */
  lemma {:induction false} SaveAfterAppend<S, M, B>(t: Tables<B>, states: Serde<S, B>, messages: Serde<M, B>,
                                                    typ: string,
                                                    id: StreamID, state: S, version: Version, batch: seq<Message<M>>,
                                                    clock: nat -> string)
    requires SerialAppend(t, messages, id, CheckExact(Minus(version, |batch|)), batch, clock).Done?
    ensures var r := SerialAppend(t, messages, id, CheckExact(Minus(version, |batch|)), batch, clock);
            var saved := SerialSave(t, states, messages, typ, id, state, version, batch, clock);
            && r.version == version
            && (saved.SaveFailed? <==> states.ser(state).None?)
            && !saved.SaveRefused?
  {
    MinusPlus(version, |batch|);
    SmallVersion(Header(t, id) + |batch|);
  }

  // ------------------------------------------------------------- aggregates with serdes

  /**
   An aggregate with the serdes of its states and messages. Serialization may lose
   something: `norm` and `normState` are what comes back, on the values that fit.
   */
  datatype Kit<!S, !M, !B> = Kit(
    agg: Aggregate<S, M>, idOf: S -> StreamID, states: Serde<S, B>, messages: Serde<M, B>, typ: string,
    norm: M -> M, normState: S -> S, fits: M -> bool, fitsState: S -> bool)

  ghost predicate SoundMessage<S, M, B>(kit: Kit<S, M, B>, m: M) {
    kit.fits(m) ==>
      && kit.messages.ser(m).Some? && kit.messages.de(kit.messages.ser(m).value) == Some(kit.norm(m))
      && kit.fits(kit.norm(m)) && kit.norm(kit.norm(m)) == kit.norm(m)
  }

  ghost predicate SoundState<S, M, B>(kit: Kit<S, M, B>, s: S) {
    kit.fitsState(s) ==>
      && kit.states.ser(s).Some? && kit.states.de(kit.states.ser(s).value) == Some(kit.normState(s))
      && kit.fitsState(kit.normState(s)) && kit.normState(kit.normState(s)) == kit.normState(s)
      && kit.idOf(kit.normState(s)) == kit.idOf(s)
  }

  ghost predicate SoundApply<S, M, B>(kit: Kit<S, M, B>, s: S, m: M) {
    kit.fitsState(s) && kit.fits(m) && kit.agg.apply(s, m).ok ==>
      && kit.fitsState(kit.agg.apply(s, m).state)
      && kit.agg.apply(kit.normState(s), kit.norm(m)) == Applied(kit.normState(kit.agg.apply(s, m).state), true)
  }

  /** Serialization is a homomorphism of replay, and loses nothing more the second time. */
  ghost predicate Sound<S(!new), M(!new), B>(kit: Kit<S, M, B>) {
    && (forall m :: SoundMessage(kit, m))
    && (forall s :: SoundState(kit, s))
    && kit.fitsState(kit.agg.zero) && kit.normState(kit.agg.zero) == kit.agg.zero
    && (forall s, m :: SoundApply(kit, s, m))
  }

  ghost function Norms<S, M, B>(kit: Kit<S, M, B>, batch: seq<Message<M>>): (ms: seq<M>)
    ensures |ms| == |batch|
    ensures forall i :: 0 <= i < |ms| ==> ms[i] == kit.norm(batch[i].message)
  {
    seq(|batch|, i requires 0 <= i < |batch| => kit.norm(batch[i].message))
  }

  ghost predicate AllFit<S, M, B>(kit: Kit<S, M, B>, batch: seq<Message<M>>) {
    forall i :: 0 <= i < |batch| ==> kit.fits(batch[i].message)
  }

  /**
   Serialization is a homomorphism over replay: encoding and decoding the fold of
   some messages gives the fold of the messages encoded and decoded one by one.
   */
  lemma {:induction false} ReplayHomomorphism<S(!new), M(!new), B>(kit: Kit<S, M, B>, batch: seq<Message<M>>,
                                                                   log: seq<M>)
    requires Sound(kit) && AllFit(kit, batch)
    requires |log| == |batch| && forall i :: 0 <= i < |log| ==> log[i] == batch[i].message
    requires Replay(kit.agg, log).ok
    ensures var s := Replay(kit.agg, log).state;
            && kit.fitsState(s)
            && kit.states.ser(s).Some?
            && Replay(kit.agg, Norms(kit, batch)) == Applied(kit.normState(s), true)
            && kit.states.de(kit.states.ser(s).value) == Some(Replay(kit.agg, Norms(kit, batch)).state)
    decreases |batch|
  {
    if log == [] {
      assert Norms(kit, batch) == [];
    } else {
      var last := |log| - 1;
      FoldPrefix(kit.agg, kit.agg.zero, log, last);
      ReplayHomomorphism(kit, batch[..last], log[..last]);
      var s := Replay(kit.agg, log[..last]).state;
      assert SoundApply(kit, s, log[last]);
      assert Norms(kit, batch)[..last] == Norms(kit, batch[..last]);
    }
    assert SoundState(kit, Replay(kit.agg, log).state);
  }

  // ------------------------------------------------------------- the stored log

  /** The aggregate as a reader sees it that decodes events first: one that does not decode is an error. */
  function Decoding<S, M>(agg: Aggregate<S, M>): Aggregate<S, Option<M>> {
    Aggregate(agg.zero, (s: S, m: Option<M>) => if m.Some? then agg.apply(s, m.value) else Applied(s, false))
  }

  /** What replays without error has been decoded in full, and replays to the same state. */
  lemma {:induction false} DecodingReplays<S, M>(agg: Aggregate<S, M>, events: seq<Option<M>>) returns (log: seq<M>)
    requires Replay(Decoding(agg), events).ok
    ensures |log| == |events| && forall i :: 0 <= i < |log| ==> events[i] == Some(log[i])
    ensures Replay(agg, log) == Replay(Decoding(agg), events)
  {
    if events == [] {
      log := [];
    } else {
      var last := |events| - 1;
      FoldPrefix(Decoding(agg), agg.zero, events, last);
      var front := DecodingReplays(agg, events[..last]);
      log := front + [events[last].value];
      FoldOne(agg, agg.zero, front, events[last].value);
    }
  }

  /** The events of a stream as a reader decodes them. */
  ghost function Log<S, M, B>(kit: Kit<S, M, B>, t: Tables<B>, id: StreamID): (log: seq<Option<M>>)
    requires TableInv(t)
    ensures |log| == Header(t, id)
    ensures forall v: Version {:trigger (id, v) in t.events} :: (id, v) in t.events ==>
              1 <= v <= |log| && log[v - 1] == kit.messages.de(t.events[(id, v)].event)
  {
    seq(Header(t, id), i requires 0 <= i < Header(t, id) =>
      assert (id, (i + 1) as Version) in t.events; kit.messages.de(t.events[(id, (i + 1) as Version)].event))
  }

  /** What a reader will decode of a message once it is stored. */
  function Reread<S, M, B>(kit: Kit<S, M, B>, m: M): Option<M> {
    match kit.messages.ser(m)
    case None => None
    case Some(bytes) => kit.messages.de(bytes)
  }

  ghost function Decoded<S, M, B>(kit: Kit<S, M, B>, batch: seq<Message<M>>): (ms: seq<Option<M>>)
    ensures |ms| == |batch|
    ensures forall i :: 0 <= i < |ms| ==> ms[i] == Reread(kit, batch[i].message)
  {
    seq(|batch|, i requires 0 <= i < |batch| => Reread(kit, batch[i].message))
  }

  lemma {:induction false} FittingSerializes<S(!new), M(!new), B>(kit: Kit<S, M, B>, batch: seq<Message<M>>)
    requires Sound(kit) && AllFit(kit, batch)
    ensures Serializes(kit.messages, batch)
  {
    forall i | 0 <= i < |batch|
      ensures kit.messages.ser(batch[i].message).Some?
    {
      assert SoundMessage(kit, batch[i].message);
    }
  }

  lemma {:induction false} LogIs<S, M, B>(kit: Kit<S, M, B>, t: Tables<B>, id: StreamID, log: seq<Option<M>>)
    requires TableInv(t) && |log| == Header(t, id)
    requires forall v: Version {:trigger (id, v) in t.events} :: (id, v) in t.events && 1 <= v <= |log| ==>
               kit.messages.de(t.events[(id, v)].event) == log[v - 1]
    ensures Log(kit, t, id) == log
  {
    forall i | 0 <= i < |log|
      ensures Log(kit, t, id)[i] == log[i]
    {
      var v: Version := i + 1;
      assert (id, v) in t.events;
    }
  }

  /** A batch is appended to its stream's log as it will be decoded, and other logs stay. */
  lemma {:induction false} LogWhenExtended<S, M, B>(kit: Kit<S, M, B>, t: Tables<B>, t': Tables<B>, id: StreamID,
                                                    batch: seq<Message<M>>, rows: seq<Row<B>>)
    requires Extended(t, t', id, rows) && |rows| == |batch|
    requires forall i :: 0 <= i < |batch| ==> kit.messages.de(rows[i].event) == Reread(kit, batch[i].message)
    ensures Log(kit, t', id) == Log(kit, t, id) + Decoded(kit, batch)
    ensures forall other :: other != id ==> Log(kit, t', other) == Log(kit, t, other)
  {
    LogIs(kit, t', id, Log(kit, t, id) + Decoded(kit, batch));
    forall other | other != id
      ensures Log(kit, t', other) == Log(kit, t, other)
    {
      LogIs(kit, t', other, Log(kit, t, other));
    }
  }

  /** What a committed append does to the logs, whatever its messages decode to. */
  lemma {:induction false} LogAfterExtend<S, M, B>(kit: Kit<S, M, B>, t: Tables<B>, id: StreamID,
                                                   batch: seq<Message<M>>, clock: nat -> string) returns (t': Tables<B>)
    requires TableInv(t) && Serializes(kit.messages, batch) && 0 < Header(t, id) + |batch| < WRAP
    ensures t' == Extend(t, id, RowsOf(kit.messages, batch, Header(t, id) + |batch|, clock))
    ensures TableInv(t')
    ensures Log(kit, t', id) == Log(kit, t, id) + Decoded(kit, batch)
    ensures forall other :: other != id ==> Log(kit, t', other) == Log(kit, t, other)
  {
    var rows := RowsOf(kit.messages, batch, Header(t, id) + |batch|, clock);
    ExtendKeepsInv(t, id, rows);
    t' := Extend(t, id, rows);
    LogWhenExtended(kit, t, t', id, batch, rows);
  }

  lemma {:induction false} SameLogs<S, M, B>(kit: Kit<S, M, B>, t: Tables<B>, t': Tables<B>)
    requires TableInv(t) && t'.streams == t.streams && t'.events == t.events
    requires forall id :: id in t'.aggregates ==> id in t'.streams && 0 < t'.aggregates[id].version
    ensures TableInv(t')
    ensures forall id :: Log(kit, t', id) == Log(kit, t, id)
  {
    assert forall id :: Header(t', id) == Header(t, id);
    forall id
      ensures Log(kit, t', id) == Log(kit, t, id)
    {
      LogIs(kit, t', id, Log(kit, t, id));
    }
  }

  // ------------------------------------------------------------- runs

  /** A root held by a client: its first `base` events are stored, the recorded ones are not. */
  datatype Live<S, M> = Live(state: S, version: Version, recorded: seq<Message<M>>, base: nat)

  datatype Session<S, M, B> = Session(tables: Tables<B>, roots: map<nat, Live<S, M>>)

  /**
   What clients do. An aborted transaction failed at some statement, and a root
   whose save failed is dropped. Direct appends may carry any messages.
   */
  datatype Action<M> =
    | NewRoot(root: nat)
    | LoadRoot(root: nat, id: StreamID)
    | RecordOn(root: nat, message: Message<M>)
    | SaveRoot(root: nat, aborted: bool)
    | AppendOp(op: Op<M>)

  function Drop<S, M>(roots: map<nat, Live<S, M>>, root: nat): map<nat, Live<S, M>> {
    roots - {root}
  }

  ghost function Load<S, M, B>(kit: Kit<S, M, B>, t: Tables<B>, id: StreamID): Option<Live<S, M>> {
    if id !in t.aggregates || t.aggregates[id].typ != kit.typ then None
    else
      match kit.states.de(t.aggregates[id].state)
      case None => None
      case Some(s) => Some(Live(s, t.aggregates[id].version, [], t.aggregates[id].version))
  }

  /** A domain method may record an event that applies and does not rename a root that has events. */
  ghost predicate CanRecord<S, M, B>(kit: Kit<S, M, B>, r: Live<S, M>, m: Message<M>) {
    && kit.fits(m.message)
    && kit.agg.apply(r.state, m.message).ok
    && (r.base + |r.recorded| == 0 || kit.idOf(kit.agg.apply(r.state, m.message).state) == kit.idOf(r.state))
  }

  ghost function SaveOf<S, M, B>(kit: Kit<S, M, B>, t: Tables<B>, r: Live<S, M>, clock: nat -> string): Saved<B> {
    SerialSave(t, kit.states, kit.messages, kit.typ, kit.idOf(r.state), r.state, r.version, r.recorded, clock)
  }

  ghost function Act<S, M, B>(kit: Kit<S, M, B>, w: Session<S, M, B>, a: Action<M>, clock: nat -> string)
      : Session<S, M, B> {
    match a
    case NewRoot(r) => w.(roots := w.roots[r := Live(kit.agg.zero, 0, [], 0)])
    case LoadRoot(r, id) =>
      (match Load(kit, w.tables, id)
       case None => w
       case Some(root) => w.(roots := w.roots[r := root]))
    case RecordOn(r, m) =>
      if r in w.roots && CanRecord(kit, w.roots[r], m) then
        var root := w.roots[r];
        w.(roots := w.roots[r := Live(kit.agg.apply(root.state, m.message).state, Plus(root.version, 1),
                                      root.recorded + [m], root.base)])
      else w
    case SaveRoot(r, aborted) =>
      if r !in w.roots then w
      else if aborted then w.(roots := Drop(w.roots, r))
      else
        var root := w.roots[r];
        (match SaveOf(kit, w.tables, root, clock)
         case SaveDone(t) => Session(t, w.roots[r := root.(recorded := [], base := root.version)])
         case _ => w.(roots := Drop(w.roots, r)))
    case AppendOp(op) => w.(tables := PgStep(kit.messages, w.tables, op, clock).0)
  }

  ghost function Run<S, M, B>(kit: Kit<S, M, B>, actions: seq<Action<M>>, clock: nat -> string): Session<S, M, B> {
    if actions == [] then Session(Tables(map[], map[], map[]), map[])
    else Act(kit, Run(kit, actions[..|actions| - 1], clock), actions[|actions| - 1], clock)
  }

  // ------------------------------------------------------------- invariant

  /** The version of a stream's snapshot; no snapshot counts as version 0. */
  ghost function SnapVersion<B>(t: Tables<B>, id: StreamID): Version {
    if id in t.aggregates then t.aggregates[id].version else 0
  }

  /** A snapshot row decodes to the fold of the first events of its stream, as many as its version says. */
  ghost predicate SnapshotOk<S, M, B>(kit: Kit<S, M, B>, t: Tables<B>, id: StreamID)
    requires TableInv(t) && id in t.aggregates
  {
    var row := t.aggregates[id];
    && row.version <= Header(t, id)
    && var folded := Replay(Decoding(kit.agg), Log(kit, t, id)[..row.version]);
       && folded.ok
       && kit.states.de(row.state) == Some(folded.state)
       && kit.idOf(folded.state) == id && kit.fitsState(folded.state) && kit.normState(folded.state) == folded.state
  }

  /**
   A live root is, up to what serialization loses, the fold of stored events
   followed by its recorded ones; the stored ones are within the snapshot.
   */
  ghost predicate LiveOk<S, M, B>(kit: Kit<S, M, B>, t: Tables<B>, r: Live<S, M>)
    requires TableInv(t)
  {
    var id := kit.idOf(r.state);
    && r.base <= SnapVersion(t, id) && r.base <= Header(t, id)
    && r.version == ToVersion(r.base + |r.recorded|)
    && kit.fitsState(r.state) && AllFit(kit, r.recorded)
    && Replay(Decoding(kit.agg), Log(kit, t, id)[..r.base] + Decoded(kit, r.recorded))
       == Applied(kit.normState(r.state), true)
  }

  ghost predicate Inv<S, M, B>(kit: Kit<S, M, B>, w: Session<S, M, B>) {
    && TableInv(w.tables)
    && (forall id :: id in w.tables.aggregates ==> SnapshotOk(kit, w.tables, id))
    && (forall r :: r in w.roots ==> LiveOk(kit, w.tables, w.roots[r]))
  }

  /** Logs and snapshots only grow. */
  ghost predicate Grows<S, M, B>(kit: Kit<S, M, B>, t: Tables<B>, t': Tables<B>)
    requires TableInv(t) && TableInv(t')
  {
    forall id :: Log(kit, t, id) <= Log(kit, t', id) && SnapVersion(t, id) <= SnapVersion(t', id)
  }

  lemma {:induction false} LiveStable<S, M, B>(kit: Kit<S, M, B>, t: Tables<B>, t': Tables<B>, r: Live<S, M>)
    requires TableInv(t) && TableInv(t') && Grows(kit, t, t') && LiveOk(kit, t, r)
    ensures LiveOk(kit, t', r)
  {
    var id := kit.idOf(r.state);
    assert Log(kit, t, id) <= Log(kit, t', id);
    assert Log(kit, t', id)[..r.base] == Log(kit, t, id)[..r.base];
  }

  lemma {:induction false} SnapshotStable<S, M, B>(kit: Kit<S, M, B>, t: Tables<B>, t': Tables<B>, id: StreamID)
    requires TableInv(t) && TableInv(t') && Grows(kit, t, t')
    requires id in t.aggregates && id in t'.aggregates && t'.aggregates[id] == t.aggregates[id]
    requires SnapshotOk(kit, t, id)
    ensures SnapshotOk(kit, t', id)
  {
    assert Log(kit, t, id) <= Log(kit, t', id);
    var n := t.aggregates[id].version;
    assert Log(kit, t', id)[..n] == Log(kit, t, id)[..n];
  }

  /** Recording one more message on a fold, seen through serialization. */
  lemma {:induction false} ReplayRecorded<S, M, B>(kit: Kit<S, M, B>, stored: seq<Option<M>>,
                                                   recorded: seq<Message<M>>, s: S, m: Message<M>)
    requires SoundApply(kit, s, m.message) && SoundMessage(kit, m.message)
    requires kit.fitsState(s) && kit.fits(m.message) && kit.agg.apply(s, m.message).ok
    requires Replay(Decoding(kit.agg), stored + Decoded(kit, recorded)) == Applied(kit.normState(s), true)
    ensures Replay(Decoding(kit.agg), stored + Decoded(kit, recorded + [m]))
         == Applied(kit.normState(kit.agg.apply(s, m.message).state), true)
  {
    var before, one := stored + Decoded(kit, recorded), [Some(kit.norm(m.message))];
    assert Decoded(kit, recorded + [m]) == Decoded(kit, recorded) + one;
    assert stored + (Decoded(kit, recorded) + one) == before + one;
    FoldOne(Decoding(kit.agg), kit.agg.zero, before, Some(kit.norm(m.message)));
  }

  lemma {:induction false} RecordKeeps<S(!new), M(!new), B>(kit: Kit<S, M, B>, t: Tables<B>, r: Live<S, M>,
                                                            m: Message<M>)
    requires Sound(kit) && TableInv(t) && LiveOk(kit, t, r) && CanRecord(kit, r, m)
    ensures LiveOk(kit, t, Live(kit.agg.apply(r.state, m.message).state, Plus(r.version, 1), r.recorded + [m], r.base))
  {
    assert SoundApply(kit, r.state, m.message) && SoundMessage(kit, m.message);
    var id, id' := kit.idOf(r.state), kit.idOf(kit.agg.apply(r.state, m.message).state);
    var stored := Log(kit, t, id)[..r.base];
    if r.base == 0 {
      assert stored == [] == Log(kit, t, id')[..0];
    }
    ReplayRecorded(kit, stored, r.recorded, r.state, m);
    PlusToVersion(r.base + |r.recorded|, 1);
  }

  // ------------------------------------------------------------- saves

  /**
   A save from a coherent root passes its check exactly when the stream still ends
   where the root was loaded; a save from an outdated root is refused and changes
   nothing.
   */
  lemma {:induction false} SaveChecksBase<S(!new), M(!new), B>(kit: Kit<S, M, B>, t: Tables<B>, r: Live<S, M>,
                                                               clock: nat -> string)
    requires Sound(kit) && TableInv(t) && LiveOk(kit, t, r)
    ensures var saved := SaveOf(kit, t, r, clock);
            && (saved.SaveRefused? <==> Header(t, kit.idOf(r.state)) != r.base)
            && (saved.SaveRefused? ==> saved.conflict == ConflictError(r.base, Header(t, kit.idOf(r.state))))
            && (saved.SaveFailed? <==>
                  Header(t, kit.idOf(r.state)) == r.base && !(0 < r.base + |r.recorded| < WRAP))
  {
    assert SoundState(kit, r.state);
    SmallVersion(r.base);
    PlusToVersion(r.base, |r.recorded|);
    MinusPlus(r.base, |r.recorded|);
    assert Minus(r.version, |r.recorded|) == r.base;
    var id := kit.idOf(r.state);
    if Header(t, id) == r.base && 0 < r.base + |r.recorded| < WRAP {
      FittingSerializes(kit, r.recorded);
      SaveAfterAppend(t, kit.states, kit.messages, kit.typ, id, r.state, r.version, r.recorded, clock);
    }
  }

  /** The snapshot row that a save leaves; an old row keeps its type. */
  function SnapshotRow<B>(t: Tables<B>, id: StreamID, typ: string, v: Version, state: B): Snapshot<B> {
    Snapshot(if id in t.aggregates then t.aggregates[id].typ else typ, v, state)
  }

  /** A successful save is the append followed by the write of one snapshot row. */
  lemma {:induction false} SaveIsUpsert<S, M, B>(t: Tables<B>, states: Serde<S, B>, messages: Serde<M, B>, typ: string,
                                                 id: StreamID, state: S, version: Version, batch: seq<Message<M>>,
                                                 clock: nat -> string, t': Tables<B>)
    requires SerialSave(t, states, messages, typ, id, state, version, batch, clock) == SaveDone(t')
    ensures Serializes(messages, batch) && 0 < Header(t, id) + |batch| == version && states.ser(state).Some?
    ensures t' == Extend(t, id, RowsOf(messages, batch, version, clock))
                    .(aggregates := t.aggregates[id := SnapshotRow(t, id, typ, version, states.ser(state).value)])
  {
    SaveAfterAppend(t, states, messages, typ, id, state, version, batch, clock);
  }

  /** Writing one snapshot row of a stream changes no log. */
  lemma {:induction false} UpsertShape<S, M, B>(kit: Kit<S, M, B>, t: Tables<B>, id: StreamID, row: Snapshot<B>)
    requires TableInv(t) && id in t.streams && 0 < row.version
    ensures var t' := t.(aggregates := t.aggregates[id := row]);
            && TableInv(t')
            && (forall other :: Log(kit, t', other) == Log(kit, t, other))
            && t'.aggregates.Keys == t.aggregates.Keys + {id}
            && (forall other :: other in t.aggregates && other != id ==> t'.aggregates[other] == t.aggregates[other])
  {
    SameLogs(kit, t, t.(aggregates := t.aggregates[id := row]));
  }

  /**
   A successful save, of whatever root, appends the recorded events to the log and
   touches one snapshot row, which decodes to the root's state.
   */
  lemma {:induction false} SaveShape<S, M, B>(kit: Kit<S, M, B>, t: Tables<B>, r: Live<S, M>, clock: nat -> string,
                                              t': Tables<B>)
    requires TableInv(t) && SoundState(kit, r.state) && kit.fitsState(r.state)
    requires SaveOf(kit, t, r, clock) == SaveDone(t')
    ensures var id := kit.idOf(r.state);
            && 0 < Header(t, id) + |r.recorded| == r.version == Header(t', id)
            && TableInv(t')
            && Log(kit, t', id) == Log(kit, t, id) + Decoded(kit, r.recorded)
            && (forall other :: other != id ==> Log(kit, t', other) == Log(kit, t, other))
            && t'.streams.Keys == t.streams.Keys + {id}
            && t'.aggregates.Keys == t.aggregates.Keys + {id}
            && (forall other :: other in t.aggregates && other != id ==> t'.aggregates[other] == t.aggregates[other])
            && t'.aggregates[id].version == r.version
            && kit.states.de(t'.aggregates[id].state) == Some(kit.normState(r.state))
  {
    var id := kit.idOf(r.state);
    SaveIsUpsert(t, kit.states, kit.messages, kit.typ, id, r.state, r.version, r.recorded, clock, t');
    var t1 := LogAfterExtend(kit, t, id, r.recorded, clock);
    var row := SnapshotRow(t, id, kit.typ, r.version, kit.states.ser(r.state).value);
    UpsertShape(kit, t1, id, row);
    assert t' == t1.(aggregates := t1.aggregates[id := row]);
    assert |Log(kit, t', id)| == |Log(kit, t, id)| + |r.recorded|;
  }

  /** After such a save the log grew, and so did the snapshot's version if it was not ahead of the stream. */
  lemma {:induction false} SaveGrows<S, M, B>(kit: Kit<S, M, B>, t: Tables<B>, t': Tables<B>, id: StreamID)
    requires TableInv(t) && TableInv(t')
    requires Log(kit, t, id) <= Log(kit, t', id)
    requires forall other :: other != id ==> Log(kit, t', other) == Log(kit, t, other)
    requires t'.aggregates.Keys == t.aggregates.Keys + {id}
    requires forall other :: other in t.aggregates && other != id ==> t'.aggregates[other] == t.aggregates[other]
    requires SnapVersion(t, id) <= t'.aggregates[id].version
    ensures Grows(kit, t, t')
    ensures forall other :: other != id ==> Header(t', other) == Header(t, other)
  {
    forall other
      ensures Log(kit, t, other) <= Log(kit, t', other) && SnapVersion(t, other) <= SnapVersion(t', other)
      ensures other != id ==> Header(t', other) == Header(t, other)
    {
      if other != id {
        assert |Log(kit, t', other)| == |Log(kit, t, other)|;
        assert other in t'.aggregates <==> other in t.aggregates;
      }
    }
  }

  /** A log that replays to a root's state makes its snapshot and the root itself agree with it. */
  lemma {:induction false} SavedAgrees<S(!new), M(!new), B>(kit: Kit<S, M, B>, t': Tables<B>, r: Live<S, M>)
    requires Sound(kit) && TableInv(t') && kit.fitsState(r.state)
    requires var id := kit.idOf(r.state);
             && id in t'.aggregates && t'.aggregates[id].version == r.version == Header(t', id)
             && kit.states.de(t'.aggregates[id].state) == Some(kit.normState(r.state))
             && Replay(Decoding(kit.agg), Log(kit, t', id)) == Applied(kit.normState(r.state), true)
    ensures SnapshotOk(kit, t', kit.idOf(r.state))
    ensures LiveOk(kit, t', r.(recorded := [], base := r.version))
  {
    assert SoundState(kit, r.state);
    var log := Log(kit, t', kit.idOf(r.state));
    assert log[..r.version] == log && log + Decoded(kit, []) == log;
    SmallVersion(r.version);
  }

  /** A successful save of a coherent root leaves a snapshot of the whole log. */
  lemma {:induction false} SaveKeeps<S(!new), M(!new), B>(kit: Kit<S, M, B>, t: Tables<B>, r: Live<S, M>,
                                                          clock: nat -> string, t': Tables<B>)
    requires Sound(kit) && TableInv(t) && LiveOk(kit, t, r)
    requires SnapVersion(t, kit.idOf(r.state)) <= Header(t, kit.idOf(r.state))
    requires SaveOf(kit, t, r, clock) == SaveDone(t')
    ensures var id := kit.idOf(r.state);
            && TableInv(t') && Grows(kit, t, t')
            && t'.aggregates.Keys == t.aggregates.Keys + {id}
            && t'.streams.Keys == t.streams.Keys + {id}
            && (forall other :: other in t.aggregates && other != id ==> t'.aggregates[other] == t.aggregates[other])
            && (forall other :: other != id ==> Header(t', other) == Header(t, other))
            && t'.aggregates[id].version == Header(t', id) == r.version
            && SnapshotOk(kit, t', id)
            && LiveOk(kit, t', r.(recorded := [], base := r.version))
  {
    assert SoundState(kit, r.state);
    SaveShape(kit, t, r, clock, t');
    SaveChecksBase(kit, t, r, clock);
    var id := kit.idOf(r.state);
    assert Log(kit, t, id)[..r.base] == Log(kit, t, id);
    SavedAgrees(kit, t', r);
    SaveGrows(kit, t, t', id);
  }

  // ------------------------------------------------------------- every action keeps it

  lemma {:induction false} AppendKeeps<S, M, B>(kit: Kit<S, M, B>, t: Tables<B>, op: Op<M>, clock: nat -> string)
    requires TableInv(t)
    ensures var t' := PgStep(kit.messages, t, op, clock).0;
            TableInv(t') && Grows(kit, t, t') && t'.aggregates == t.aggregates
  {
    var r := SerialAppend(t, kit.messages, op.id, op.expected, op.batch, clock);
    if !op.aborted && r.Done? {
      var t' := LogAfterExtend(kit, t, op.id, op.batch, clock);
    }
  }

  /** What was known of roots and of the snapshots of other streams survives growing logs. */
  lemma {:induction false} StableUnder<S, M, B>(kit: Kit<S, M, B>, w: Session<S, M, B>, t': Tables<B>, id: StreamID)
    requires Inv(kit, w) && TableInv(t') && Grows(kit, w.tables, t')
    requires t'.aggregates.Keys <= w.tables.aggregates.Keys + {id}
    requires forall other :: other in w.tables.aggregates && other in t'.aggregates && other != id ==>
               t'.aggregates[other] == w.tables.aggregates[other]
    ensures forall other :: other in t'.aggregates && other != id ==> SnapshotOk(kit, t', other)
    ensures forall r :: r in w.roots ==> LiveOk(kit, t', w.roots[r])
  {
    forall other | other in t'.aggregates && other != id
      ensures SnapshotOk(kit, t', other)
    {
      SnapshotStable(kit, w.tables, t', other);
    }
    forall r | r in w.roots
      ensures LiveOk(kit, t', w.roots[r])
    {
      LiveStable(kit, w.tables, t', w.roots[r]);
    }
  }

  lemma {:induction false} AppendOpKeepsInv<S, M, B>(kit: Kit<S, M, B>, w: Session<S, M, B>, op: Op<M>,
                                                     clock: nat -> string)
    requires Inv(kit, w)
    ensures Inv(kit, w.(tables := PgStep(kit.messages, w.tables, op, clock).0))
  {
    AppendKeeps(kit, w.tables, op, clock);
    var t' := PgStep(kit.messages, w.tables, op, clock).0;
    StableUnder(kit, w, t', op.id);
    if op.id in t'.aggregates {
      SnapshotStable(kit, w.tables, t', op.id);
    }
  }

  /** New tables and one new root that agree with each other leave a session in agreement. */
  lemma {:induction false} SessionAgrees<S, M, B>(kit: Kit<S, M, B>, w: Session<S, M, B>, t': Tables<B>, id: StreamID,
                                                  r: nat, root: Live<S, M>)
    requires Inv(kit, w) && TableInv(t') && Grows(kit, w.tables, t')
    requires t'.aggregates.Keys == w.tables.aggregates.Keys + {id}
    requires forall other :: other in w.tables.aggregates && other != id ==>
               t'.aggregates[other] == w.tables.aggregates[other]
    requires SnapshotOk(kit, t', id) && LiveOk(kit, t', root)
    ensures Inv(kit, Session(t', w.roots[r := root]))
  {
    StableUnder(kit, w, t', id);
  }

  lemma {:induction false} SaveKeepsInv<S(!new), M(!new), B>(kit: Kit<S, M, B>, w: Session<S, M, B>, r: nat,
                                                             clock: nat -> string, t': Tables<B>)
    requires Sound(kit) && Inv(kit, w) && r in w.roots && SaveOf(kit, w.tables, w.roots[r], clock) == SaveDone(t')
    ensures var root := w.roots[r];
            Inv(kit, Session(t', w.roots[r := root.(recorded := [], base := root.version)]))
  {
    var root := w.roots[r];
    SnapshotsBehind(kit, w, kit.idOf(root.state));
    SaveKeeps(kit, w.tables, root, clock, t');
    SessionAgrees(kit, w, t', kit.idOf(root.state), r, root.(recorded := [], base := root.version));
  }

  lemma {:induction false} SnapshotsBehind<S, M, B>(kit: Kit<S, M, B>, w: Session<S, M, B>, id: StreamID)
    requires Inv(kit, w)
    ensures SnapVersion(w.tables, id) <= Header(w.tables, id)
  {
    assert id in w.tables.aggregates ==> SnapshotOk(kit, w.tables, id);
  }

  lemma {:induction false} LoadKeeps<S(!new), M(!new), B>(kit: Kit<S, M, B>, w: Session<S, M, B>, id: StreamID)
    requires Inv(kit, w) && Load(kit, w.tables, id).Some?
    ensures LiveOk(kit, w.tables, Load(kit, w.tables, id).value)
  {
    assert SnapshotOk(kit, w.tables, id);
    var n := w.tables.aggregates[id].version;
    assert Log(kit, w.tables, id)[..n] + Decoded(kit, []) == Log(kit, w.tables, id)[..n];
    SmallVersion(n);
  }

  lemma {:induction false} ActKeepsInv<S(!new), M(!new), B>(kit: Kit<S, M, B>, w: Session<S, M, B>, a: Action<M>,
                                                            clock: nat -> string)
    requires Sound(kit) && Inv(kit, w)
    ensures Inv(kit, Act(kit, w, a, clock))
  {
    var t := w.tables;
    match a {
      case NewRoot(r) =>
        assert Log(kit, t, kit.idOf(kit.agg.zero))[..0] + Decoded(kit, []) == [];
      case LoadRoot(r, id) =>
        if Load(kit, t, id).Some? {
          LoadKeeps(kit, w, id);
        }
      case RecordOn(r, m) =>
        if r in w.roots && CanRecord(kit, w.roots[r], m) {
          RecordKeeps(kit, t, w.roots[r], m);
        }
      case SaveRoot(r, aborted) =>
        if r in w.roots && !aborted && SaveOf(kit, t, w.roots[r], clock).SaveDone? {
          SaveKeepsInv(kit, w, r, clock, SaveOf(kit, t, w.roots[r], clock).tables);
        }
      case AppendOp(op) => AppendOpKeepsInv(kit, w, op, clock);
    }
  }

  lemma {:induction false} RunKeepsInv<S(!new), M(!new), B>(kit: Kit<S, M, B>, actions: seq<Action<M>>,
                                                            clock: nat -> string)
    requires Sound(kit)
    ensures Inv(kit, Run(kit, actions, clock))
  {
    if actions != [] {
      RunKeepsInv(kit, actions[..|actions| - 1], clock);
      ActKeepsInv(kit, Run(kit, actions[..|actions| - 1], clock), actions[|actions| - 1], clock);
    }
  }

  // ------------------------------------------------------------- theorems

  /**
   Snapshot agrees with the log. In every reachable database, under any mix of
   repository saves and direct appends of any messages, every snapshot decodes to
   the fold of its stream's first `version` events, all of which decode, and is not
   ahead of its stream.
   */
  lemma {:induction false} SnapshotsAgree<S(!new), M(!new), B>(kit: Kit<S, M, B>, actions: seq<Action<M>>,
                                                               clock: nat -> string, id: StreamID)
      returns (log: seq<M>)
    requires Sound(kit) && id in Run(kit, actions, clock).tables.aggregates
    ensures var t := Run(kit, actions, clock).tables;
            var row := t.aggregates[id];
            && TableInv(t)
            && |log| == row.version <= Header(t, id)
            && (forall v: Version {:trigger (id, v) in t.events} :: 1 <= v <= row.version ==>
                  (id, v) in t.events && kit.messages.de(t.events[(id, v)].event) == Some(log[v - 1]))
            && Replay(kit.agg, log).ok
            && kit.states.de(row.state) == Some(Replay(kit.agg, log).state)
  {
    var t := Run(kit, actions, clock).tables;
    RunKeepsInv(kit, actions, clock);
    assert SnapshotOk(kit, t, id);
    log := DecodingReplays(kit.agg, Log(kit, t, id)[..t.aggregates[id].version]);
  }

  /**
   A saved root can be loaded: what comes back is its state as stored, at its
   version. Only over a snapshot of another type, which keeps its type, is it not
   found.
   */
  lemma {:induction false} SavedIsLoaded<S, M, B>(kit: Kit<S, M, B>, t: Tables<B>, r: Live<S, M>, clock: nat -> string,
                                                  t': Tables<B>)
    requires SoundState(kit, r.state) && kit.fitsState(r.state)
    requires SaveOf(kit, t, r, clock) == SaveDone(t')
    ensures var id := kit.idOf(r.state);
            Load(kit, t', id) ==
            (if id in t.aggregates && t.aggregates[id].typ != kit.typ then None
             else Some(Live(kit.normState(r.state), r.version, [], r.version)))
  {
    SaveIsUpsert(t, kit.states, kit.messages, kit.typ, kit.idOf(r.state), r.state, r.version, r.recorded, clock, t');
  }

  /** Every snapshot has the type of the aggregate. */
  ghost predicate Typed<S, M, B>(kit: Kit<S, M, B>, t: Tables<B>) {
    forall id :: id in t.aggregates ==> t.aggregates[id].typ == kit.typ
  }

  lemma {:induction false} RunKeepsTypes<S, M, B>(kit: Kit<S, M, B>, actions: seq<Action<M>>, clock: nat -> string)
    ensures Typed(kit, Run(kit, actions, clock).tables)
  {
    if actions != [] {
      var front, a := actions[..|actions| - 1], actions[|actions| - 1];
      RunKeepsTypes(kit, front, clock);
      var w := Run(kit, front, clock);
      if a.SaveRoot? && a.root in w.roots && !a.aborted && SaveOf(kit, w.tables, w.roots[a.root], clock).SaveDone? {
        var r := w.roots[a.root];
        SaveIsUpsert(w.tables, kit.states, kit.messages, kit.typ, kit.idOf(r.state), r.state, r.version, r.recorded,
                     clock, SaveOf(kit, w.tables, r, clock).tables);
      }
    }
  }

  /**
   In every reachable database every snapshot can be loaded, as the fold of its
   stream's first events at the version of the snapshot, and an identifier that was
   never saved is not found.
   */
  lemma {:induction false} EverySnapshotLoads<S(!new), M(!new), B>(kit: Kit<S, M, B>, actions: seq<Action<M>>,
                                                                   clock: nat -> string, id: StreamID)
    requires Sound(kit)
    ensures var t := Run(kit, actions, clock).tables;
            && TableInv(t)
            && (id !in t.aggregates ==> Load(kit, t, id) == None)
            && (id in t.aggregates ==>
                  var v := t.aggregates[id].version;
                  && v <= Header(t, id)
                  && var folded := Replay(Decoding(kit.agg), Log(kit, t, id)[..v]);
                     folded.ok && Load(kit, t, id) == Some(Live(folded.state, v, [], v)))
  {
    RunKeepsInv(kit, actions, clock);
    RunKeepsTypes(kit, actions, clock);
    var t := Run(kit, actions, clock).tables;
    if id in t.aggregates {
      assert SnapshotOk(kit, t, id);
    }
  }

  /** A save that does not succeed drops its root and changes no table. */
  lemma {:induction false} FailedSaveDrops<S, M, B>(kit: Kit<S, M, B>, w: Session<S, M, B>, r: nat, aborted: bool,
                                                    clock: nat -> string)
    requires r in w.roots && (aborted || !SaveOf(kit, w.tables, w.roots[r], clock).SaveDone?)
    ensures var w' := Act(kit, w, SaveRoot(r, aborted), clock);
            w'.tables == w.tables && r !in w'.roots
             && forall other :: other in w.roots && other != r ==> other in w'.roots
  {
  }

  /**
   Work goes on from a snapshot: where the stream ends with its snapshot, loading
   the root, recording a message on it and saving it succeeds, and appends just that
   message.
   */
  lemma {:induction false} LoadRecordSave<S(!new), M(!new), B>(kit: Kit<S, M, B>, w: Session<S, M, B>, r: nat,
                                                               id: StreamID, m: Message<M>, clock: nat -> string)
    requires Sound(kit) && Inv(kit, w) && Load(kit, w.tables, id).Some?
    requires CanRecord(kit, Load(kit, w.tables, id).value, m)
    requires SnapVersion(w.tables, id) == Header(w.tables, id) < WRAP - 1
    ensures var recorded := Act(kit, Act(kit, w, LoadRoot(r, id), clock), RecordOn(r, m), clock);
            && r in recorded.roots && recorded.roots[r].recorded == [m]
            && var saved := SaveOf(kit, recorded.tables, recorded.roots[r], clock);
               && saved.SaveDone? && TableInv(saved.tables)
               && Act(kit, recorded, SaveRoot(r, false), clock).tables == saved.tables
               && Log(kit, saved.tables, id) == Log(kit, w.tables, id) + [Some(kit.norm(m.message))]
  {
    var recorded := Act(kit, Act(kit, w, LoadRoot(r, id), clock), RecordOn(r, m), clock);
    var loaded := Load(kit, w.tables, id).value;
    LoadKeeps(kit, w, id);
    assert SnapshotOk(kit, w.tables, id);
    LoadThenRecord(kit, w, r, id, m, clock, recorded);
    RecordKeeps(kit, w.tables, loaded, m);
    SaveOfRecorded(kit, w.tables, recorded.roots[r], m, clock);
    SaveStepSaves(kit, recorded, r, clock);
  }

  lemma {:induction false} LoadThenRecord<S, M, B>(kit: Kit<S, M, B>, w: Session<S, M, B>, r: nat, id: StreamID,
                                                   m: Message<M>, clock: nat -> string, recorded: Session<S, M, B>)
    requires Load(kit, w.tables, id).Some? && CanRecord(kit, Load(kit, w.tables, id).value, m)
    requires recorded == Act(kit, Act(kit, w, LoadRoot(r, id), clock), RecordOn(r, m), clock)
    ensures var root := Load(kit, w.tables, id).value;
            && recorded.tables == w.tables && r in recorded.roots
            && recorded.roots[r]
               == Live(kit.agg.apply(root.state, m.message).state, Plus(root.version, 1), [m], root.base)
            && root.recorded + [m] == [m]
  {
  }

  lemma {:induction false} SaveStepSaves<S, M, B>(kit: Kit<S, M, B>, w: Session<S, M, B>, r: nat,
                                                  clock: nat -> string)
    requires r in w.roots && SaveOf(kit, w.tables, w.roots[r], clock).SaveDone?
    ensures var w' := Act(kit, w, SaveRoot(r, false), clock);
            && w'.tables == SaveOf(kit, w.tables, w.roots[r], clock).tables
            && r in w'.roots && w'.roots[r] == Live(w.roots[r].state, w.roots[r].version, [], w.roots[r].version)
  {
  }

  /** Clients share nothing but the tables, and nothing but saves and appends changes those. */
  lemma {:induction false} ActsAlone<S, M, B>(kit: Kit<S, M, B>, w: Session<S, M, B>, a: Action<M>,
                                              clock: nat -> string, other: nat)
    requires a.AppendOp? || a.root != other
    ensures var w' := Act(kit, w, a, clock);
            && (other in w'.roots <==> other in w.roots)
            && (other in w.roots ==> w'.roots[other] == w.roots[other])
            && (w'.tables != w.tables ==> a.SaveRoot? || a.AppendOp?)
  {
  }

  lemma {:induction false} SaveOfRecorded<S(!new), M(!new), B>(kit: Kit<S, M, B>, t: Tables<B>, root: Live<S, M>,
                                                               m: Message<M>, clock: nat -> string)
    requires Sound(kit) && TableInv(t) && LiveOk(kit, t, root) && root.recorded == [m]
    requires root.base == Header(t, kit.idOf(root.state)) < WRAP - 1
    ensures var saved := SaveOf(kit, t, root, clock);
            && saved.SaveDone? && TableInv(saved.tables)
            && Log(kit, saved.tables, kit.idOf(root.state))
               == Log(kit, t, kit.idOf(root.state)) + [Some(kit.norm(m.message))]
  {
    SaveChecksBase(kit, t, root, clock);
    assert kit.fits(root.recorded[0].message);
    DecodedOne(kit, m);
    SaveShape(kit, t, root, clock, SaveOf(kit, t, root, clock).tables);
  }

  lemma {:induction false} DecodedOne<S(!new), M(!new), B>(kit: Kit<S, M, B>, m: Message<M>)
    requires SoundMessage(kit, m.message) && kit.fits(m.message)
    ensures Decoded(kit, [m]) == [Some(kit.norm(m.message))]
  {
    var ms := Decoded(kit, [m]);
    assert [m][0] == m && ms == [ms[0]];
  }

  /** Nothing but the repository writes. */
  ghost predicate RepositoryOnly<M>(actions: seq<Action<M>>) {
    forall i :: 0 <= i < |actions| ==> !actions[i].AppendOp?
  }

  /** Every stream has a snapshot of its whole log. */
  ghost predicate Current<B>(t: Tables<B>) {
    && t.aggregates.Keys == t.streams.Keys
    && forall id :: id in t.aggregates ==> t.aggregates[id].version == Header(t, id)
  }

  lemma {:induction false} SaveKeepsCurrent<S(!new), M(!new), B>(kit: Kit<S, M, B>, w: Session<S, M, B>, r: nat,
                                                                 clock: nat -> string, t': Tables<B>)
    requires Sound(kit) && Inv(kit, w) && Current(w.tables)
    requires r in w.roots && SaveOf(kit, w.tables, w.roots[r], clock) == SaveDone(t')
    ensures Current(t')
  {
    SnapshotsBehind(kit, w, kit.idOf(w.roots[r].state));
    SaveKeeps(kit, w.tables, w.roots[r], clock, t');
  }

  /** When all writes go through the repository, every stream has a snapshot of its whole log. */
  lemma {:induction false} SnapshotsAreCurrent<S(!new), M(!new), B>(kit: Kit<S, M, B>, actions: seq<Action<M>>,
                                                                    clock: nat -> string)
    requires Sound(kit) && RepositoryOnly(actions)
    ensures Current(Run(kit, actions, clock).tables)
  {
    if actions != [] {
      var front, a := actions[..|actions| - 1], actions[|actions| - 1];
      SnapshotsAreCurrent(kit, front, clock);
      RunKeepsInv(kit, front, clock);
      var w := Run(kit, front, clock);
      if a.SaveRoot? && a.root in w.roots && !a.aborted && SaveOf(kit, w.tables, w.roots[a.root], clock).SaveDone? {
        SaveKeepsCurrent(kit, w, a.root, clock, SaveOf(kit, w.tables, w.roots[a.root], clock).tables);
      }
    }
  }

  lemma {:induction false} SaveKeepsBatches<S, M, B>(t: Tables<B>, states: Serde<S, B>, messages: Serde<M, B>,
                                                     typ: string, id: StreamID, state: S, version: Version,
                                                     batch: seq<Message<M>>, clock: nat -> string, t': Tables<B>)
    requires TableInv(t) && BatchesOk(t)
    requires SerialSave(t, states, messages, typ, id, state, version, batch, clock) == SaveDone(t')
    ensures TableInv(t') && BatchesOk(t')
  {
    var expected := CheckExact(Minus(version, |batch|));
    SerialAppendKeeps(t, messages, id, expected, batch, clock);
    UpsertKeepsBatches(SerialAppend(t, messages, id, expected, batch, clock).tables, id, typ, version,
                       states.ser(state).value, t');
  }

  lemma {:induction false} UpsertKeepsBatches<B>(t: Tables<B>, id: StreamID, typ: string, v: Version, state: B,
                                                 t': Tables<B>)
    requires TableInv(t) && BatchesOk(t) && UpsertAggregate(t, id, typ, v, state) == Some(t')
    ensures TableInv(t') && BatchesOk(t')
  {
    assert t'.streams == t.streams && t'.events == t.events;
    SameEvents(t, t');
  }

  /** Batch boundaries are a matter of headers and events alone. */
  lemma {:induction false} SameEvents<B>(t: Tables<B>, t': Tables<B>)
    requires BatchesOk(t) && t'.streams == t.streams && t'.events == t.events
    ensures BatchesOk(t')
  {
    forall id: StreamID, v: Version | (id, v) in t'.events
      ensures OverallVersion in t'.events[(id, v)].metadata
      ensures RecordedVersion(t', id, v) == RecordedVersion(t, id, v) && Header(t', id) == Header(t, id)
    {
    }
  }

  lemma {:induction false} ActKeepsBatches<S, M, B>(kit: Kit<S, M, B>, w: Session<S, M, B>, a: Action<M>,
                                                    clock: nat -> string)
    requires TableInv(w.tables) && BatchesOk(w.tables)
    ensures TableInv(Act(kit, w, a, clock).tables) && BatchesOk(Act(kit, w, a, clock).tables)
  {
    match a {
      case SaveRoot(r, aborted) =>
        if r in w.roots && !aborted && SaveOf(kit, w.tables, w.roots[r], clock).SaveDone? {
          var root := w.roots[r];
          SaveKeepsBatches(w.tables, kit.states, kit.messages, kit.typ, kit.idOf(root.state), root.state,
                           root.version, root.recorded, clock, SaveOf(kit, w.tables, root, clock).tables);
        }
      case AppendOp(op) =>
        if !op.aborted && SerialAppend(w.tables, kit.messages, op.id, op.expected, op.batch, clock).Done? {
          SerialAppendKeeps(w.tables, kit.messages, op.id, op.expected, op.batch, clock);
        }
      case _ =>
    }
  }

  /** Recoverable batch boundaries in every reachable database, whoever wrote the events. */
  lemma {:induction false} RunKeepsBatches<S, M, B>(kit: Kit<S, M, B>, actions: seq<Action<M>>, clock: nat -> string)
    ensures TableInv(Run(kit, actions, clock).tables) && BatchesOk(Run(kit, actions, clock).tables)
  {
    if actions != [] {
      RunKeepsBatches(kit, actions[..|actions| - 1], clock);
      ActKeepsBatches(kit, Run(kit, actions[..|actions| - 1], clock), actions[|actions| - 1], clock);
    }
  }

  // ------------------------------------------------------------- behind a snapshot's back

  /** A stream that goes on after its snapshot. */
  ghost predicate Ahead<B>(t: Tables<B>, id: StreamID) {
    SnapVersion(t, id) < Header(t, id)
  }

  /** On such a stream the save of every root is refused. */
  lemma {:induction false} StaleSnapshotBlocksSaves<S(!new), M(!new), B>(kit: Kit<S, M, B>, t: Tables<B>, r: Live<S, M>,
                                                             clock: nat -> string)
    requires Sound(kit) && TableInv(t) && LiveOk(kit, t, r) && Ahead(t, kit.idOf(r.state))
    ensures r.base < Header(t, kit.idOf(r.state))
    ensures SaveOf(kit, t, r, clock) == SaveRefused(ConflictError(r.base, Header(t, kit.idOf(r.state))))
  {
    SaveChecksBase(kit, t, r, clock);
  }

  lemma {:induction false} SaveStaysAhead<S(!new), M(!new), B>(kit: Kit<S, M, B>, w: Session<S, M, B>, r: nat,
                                                               clock: nat -> string, id: StreamID, t': Tables<B>)
    requires Sound(kit) && Inv(kit, w) && Ahead(w.tables, id)
    requires r in w.roots && SaveOf(kit, w.tables, w.roots[r], clock) == SaveDone(t')
    ensures Ahead(t', id)
  {
    var root := w.roots[r];
    if kit.idOf(root.state) == id {
      StaleSnapshotBlocksSaves(kit, w.tables, root, clock);
    } else {
      SnapshotsBehind(kit, w, kit.idOf(root.state));
      SaveKeeps(kit, w.tables, root, clock, t');
      assert id in t'.aggregates <==> id in w.tables.aggregates;
    }
  }

  lemma {:induction false} AppendStaysAhead<S, M, B>(kit: Kit<S, M, B>, t: Tables<B>, op: Op<M>, clock: nat -> string,
                                                     id: StreamID)
    requires TableInv(t) && Ahead(t, id)
    ensures Ahead(PgStep(kit.messages, t, op, clock).0, id)
  {
    AppendKeeps(kit, t, op, clock);
    assert |Log(kit, t, id)| <= |Log(kit, PgStep(kit.messages, t, op, clock).0, id)|;
  }

  /** So it stays ahead. */
  lemma {:induction false} StaysAhead<S(!new), M(!new), B>(kit: Kit<S, M, B>, w: Session<S, M, B>, a: Action<M>,
                                                           clock: nat -> string, id: StreamID)
    requires Sound(kit) && Inv(kit, w) && Ahead(w.tables, id)
    ensures Ahead(Act(kit, w, a, clock).tables, id)
  {
    match a {
      case SaveRoot(r, aborted) =>
        if r in w.roots && !aborted && SaveOf(kit, w.tables, w.roots[r], clock).SaveDone? {
          SaveStaysAhead(kit, w, r, clock, id, SaveOf(kit, w.tables, w.roots[r], clock).tables);
        }
      case AppendOp(op) => AppendStaysAhead(kit, w.tables, op, clock, id);
      case _ =>
    }
  }

  /** A direct append of an event that commits puts its stream ahead. */
  lemma {:induction false} AppendGoesAhead<S, M, B>(kit: Kit<S, M, B>, w: Session<S, M, B>, op: Op<M>,
                                                    clock: nat -> string)
    requires Inv(kit, w) && op.batch != []
    requires !op.aborted && SerialAppend(w.tables, kit.messages, op.id, op.expected, op.batch, clock).Done?
    ensures Ahead(PgStep(kit.messages, w.tables, op, clock).0, op.id)
  {
    assert op.id in w.tables.aggregates ==> SnapshotOk(kit, w.tables, op.id);
  }

  lemma {:induction false} RunStaysAhead<S(!new), M(!new), B>(kit: Kit<S, M, B>, actions: seq<Action<M>>,
                                                              clock: nat -> string, k: nat, id: StreamID)
    requires Sound(kit) && k <= |actions| && Ahead(Run(kit, actions[..k], clock).tables, id)
    ensures Ahead(Run(kit, actions, clock).tables, id)
    decreases |actions|
  {
    if k == |actions| {
      assert actions[..k] == actions;
    } else {
      var front := actions[..|actions| - 1];
      assert front[..k] == actions[..k];
      RunStaysAhead(kit, front, clock, k, id);
      RunKeepsInv(kit, front, clock);
      StaysAhead(kit, Run(kit, front, clock), actions[|actions| - 1], clock, id);
    }
  }

  lemma {:induction false} AheadAfterAppend<S(!new), M(!new), B>(kit: Kit<S, M, B>, actions: seq<Action<M>>,
                                                                 clock: nat -> string, k: nat, op: Op<M>)
    requires Sound(kit) && k < |actions| && actions[k] == AppendOp(op) && op.batch != [] && !op.aborted
    requires SerialAppend(Run(kit, actions[..k], clock).tables, kit.messages, op.id, op.expected, op.batch, clock).Done?
    ensures Ahead(Run(kit, actions, clock).tables, op.id)
  {
    RunKeepsInv(kit, actions[..k], clock);
    AppendGoesAhead(kit, Run(kit, actions[..k], clock), op, clock);
    assert actions[..k + 1][..k] == actions[..k] && actions[..k + 1][k] == actions[k];
    RunStaysAhead(kit, actions, clock, k + 1, op.id);
  }

  /**
   Once a direct append of at least one event to a stream has committed, no save of
   an aggregate of that stream ever succeeds again, in any later state of any run:
   whatever root a client holds, its save is refused.
   */
  lemma {:induction false} DirectAppendEndsSaves<S(!new), M(!new), B>(kit: Kit<S, M, B>, actions: seq<Action<M>>,
                                                                      clock: nat -> string, k: nat, op: Op<M>,
                                                                      root: nat)
    requires Sound(kit) && k < |actions| && actions[k] == AppendOp(op) && op.batch != [] && !op.aborted
    requires SerialAppend(Run(kit, actions[..k], clock).tables, kit.messages, op.id, op.expected, op.batch, clock).Done?
    requires var w := Run(kit, actions, clock);
             root in w.roots && kit.idOf(w.roots[root].state) == op.id
    ensures var w := Run(kit, actions, clock);
            var r := w.roots[root];
            && r.base < Header(w.tables, op.id)
            && SaveOf(kit, w.tables, r, clock) == SaveRefused(ConflictError(r.base, Header(w.tables, op.id)))
  {
    AheadAfterAppend(kit, actions, clock, k, op);
    RunKeepsInv(kit, actions, clock);
    var w := Run(kit, actions, clock);
    StaleSnapshotBlocksSaves(kit, w.tables, w.roots[root], clock);
  }
}
