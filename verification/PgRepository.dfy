/** The PostgreSQL aggregate repository as the source runs it: events and snapshot in one transaction. */
module PgRepository {
  import opened Options
  import opened Versions
  import opened EventStore
  import opened Aggregates
  import opened PgTables
  import opened PgSnapshots
  import opened PgStore

  /**
   The work of a save inside its transaction: flush the root, append its events
   at the version it had before them, and write its state.
   */
  method SaveInTransaction<S, M, B(==)>(tx: Tx<B>, states: Serde<S, B>, messages: Serde<M, B>, typ: string,
                                        id: StreamID,
                                        root: BaseRoot<Envelope<M>>, state: S, clock: nat -> string)
      returns (err: Option<PgError>)
    requires tx.Untouched() && TableInv(tx.committed)
    modifies tx, root, MapsOf(root.recordedEvents)
    ensures root.recordedEvents == [] && root.version == old(root.version)
    ensures var h, batch := Header(tx.committed, id), old(Values(root.recordedEvents));
            var expected := CheckExact(Minus(root.version, |batch|));
            && (err.None? ==>
                  && Passes(messages, h, expected, batch)
                  && root.version == h + |batch|
                  && states.ser(state).Some?
                  && tx.headersRead == {id} && tx.aggregatesRead == {id}
                  && tx.headerWrites == map[id := root.version]
                  && tx.eventWrites == Keyed(id, h, RowsOf(messages, batch, root.version, clock))
                  && tx.aggregateWrites
                     == map[id := SnapshotRow(tx.committed, id, typ, root.version, states.ser(state).value)])
            && (err.Some? && err.value.ConflictError'? ==>
                  h != expected.version && err.value.conflict == ConflictError(expected.version, h))
            && err != Some(VersionMismatch) && err != Some(NotBegun) && err != Some(NotCommitted)
            && (err == Some(Serialization) ==> !Serializes(messages, batch) || states.ser(state).None?)
            && (err == Some(Statement) && tx.faults == {} ==> !(0 < h + |batch| < WRAP))
            && (tx.faults == {} ==>
                  && (Passes(messages, h, expected, batch) && states.ser(state).Some? ==> err.None?)
                  && (h != expected.version ==> err == Some(ConflictError'(ConflictError(expected.version, h)))))
  {
    var events := root.FlushRecordedEvents();
    var expected := Minus(root.version, |events|);
    MinusPlus(root.version, |events|);
    var r := AppendDomainEvents(tx, messages, id, CheckExact(expected), events, clock);
    if r.Err? {
      return Some(r.error);
    }
    SmallVersion(Header(tx.committed, id) + |events|);
    if r.value != root.version {
      return Some(VersionMismatch);
    }
    var bytes := states.ser(state);
    if bytes.None? {
      return Some(Serialization);
    }
    var ok := tx.ExecUpsertAggregate(id, typ, root.version, bytes.value);
    err := if ok then None else Some(Statement);
  }

  /** A serial save, written as its writes on top of the tables. */
  lemma {:induction false} SaveOnTop<S, M, B>(now: Tables<B>, states: Serde<S, B>, messages: Serde<M, B>, typ: string,
                                              id: StreamID,
                                              state: S, version: Version, batch: seq<Message<M>>, clock: nat -> string,
                                              writes: map<EventKey, Row<B>>)
    requires Passes(messages, Header(now, id), CheckExact(Minus(version, |batch|)), batch)
    requires version == Header(now, id) + |batch|
    requires writes == Keyed(id, Header(now, id), RowsOf(messages, batch, version, clock))
    requires states.ser(state).Some?
    ensures SerialSave(now, states, messages, typ, id, state, version, batch, clock)
         == SaveDone(Tables(now.streams + map[id := version], now.events + writes,
                            now.aggregates + map[id := SnapshotRow(now, id, typ, version, states.ser(state).value)]))
  {
    var t := Tables(now.streams + map[id := version], now.events + writes, now.aggregates + map[]);
    SerialOnTop(now, messages, id, CheckExact(Minus(version, |batch|)), batch, clock, version, writes);
    UpsertOnTop(now, t, id, typ, version, states.ser(state).value);
  }

  lemma {:induction false} UpsertOnTop<B>(now: Tables<B>, t: Tables<B>, id: StreamID, typ: string, v: Version, bytes: B)
    requires t.aggregates == now.aggregates + map[] && id in t.streams && v != 0
    ensures UpsertAggregate(t, id, typ, v, bytes)
         == Some(t.(aggregates := now.aggregates + map[id := SnapshotRow(now, id, typ, v, bytes)]))
  {
    assert now.aggregates + map[] == now.aggregates;
    var row := SnapshotRow(now, id, typ, v, bytes);
    assert now.aggregates + map[id := row] == now.aggregates[id := row];
  }

  /** A save whose rows nobody else touched does what it does alone, and keeps the table invariant. */
  lemma {:induction false} SaveCommits<S, M, B>(t: Tables<B>, now: Tables<B>, states: Serde<S, B>,
                                                messages: Serde<M, B>, typ: string, id: StreamID, state: S,
                                                version: Version, batch: seq<Message<M>>, clock: nat -> string,
                                                writes: map<EventKey, Row<B>>, snapshots: map<StreamID, Snapshot<B>>)
    requires TableInv(now) && SameRows(t, now, id) && states.ser(state).Some?
    requires Passes(messages, Header(t, id), CheckExact(Minus(version, |batch|)), batch)
    requires version == Header(t, id) + |batch|
    requires writes == Keyed(id, Header(t, id), RowsOf(messages, batch, version, clock))
    requires snapshots == map[id := SnapshotRow(t, id, typ, version, states.ser(state).value)]
    ensures var t' := Tables(now.streams + map[id := version], now.events + writes, now.aggregates + snapshots);
            && SerialSave(now, states, messages, typ, id, state, version, batch, clock) == SaveDone(t')
            && TableInv(t')
  {
    SaveOnTop(now, states, messages, typ, id, state, version, batch, clock, writes);
    WritesKeepInv(now, id, version, RowsOf(messages, batch, version, clock), snapshots);
  }

  /** Nobody else touched the rows that a save reads. */
  ghost predicate SameRows<B>(t: Tables<B>, now: Tables<B>, id: StreamID) {
    && Header(now, id) == Header(t, id)
    && (id in now.aggregates <==> id in t.aggregates)
    && (id in t.aggregates ==> now.aggregates[id] == t.aggregates[id])
  }

  lemma {:induction false} ReadsAreRows<B>(tx: Tx<B>, now: Tables<B>, id: StreamID)
    requires tx.headersRead == {id} && tx.aggregatesRead == {id}
    ensures tx.ReadsUnchanged(now) <==> SameRows(tx.committed, now, id)
  {
  }

  /**
   Saves a root in one transaction, during which other sessions leave the tables
   as `others`. Whatever they commit and wherever it fails, either it adds nothing
   to that, or it does to those tables exactly what a save does when it runs alone
   at the moment of commit. Once the
   transaction has begun the recorded events are flushed, whatever comes of it,
   and the version mismatch that the code guards against never occurs.
   */
  method Save<S, M, B(==)>(db: Database<B>, states: Serde<S, B>, messages: Serde<M, B>, typ: string, id: StreamID,
                           root: BaseRoot<Envelope<M>>, state: S, clock: nat -> string, begins: bool, faults: set<nat>,
                           others: Tables<B>)
      returns (err: Option<PgError>, ghost now: Tables<B>)
    requires TableInv(db.tables) && TableInv(others)
    modifies db, root, MapsOf(root.recordedEvents)
    ensures now == if begins then others else old(db.tables)
    ensures TableInv(db.tables)
    ensures root.version == old(root.version)
    ensures root.recordedEvents == if begins then [] else old(root.recordedEvents)
    ensures err != Some(VersionMismatch) && (err == Some(NotBegun) <==> !begins)
    ensures err == Some(Serialization) ==>
              !Serializes(messages, old(Values(root.recordedEvents))) || states.ser(state).None?
    ensures err == Some(Statement) && faults == {} ==>
              !(0 < Header(old(db.tables), id) + |old(root.recordedEvents)| < WRAP)
    ensures err.Some? ==> db.tables == now
    ensures err.None? ==>
              SerialSave(now, states, messages, typ, id, state, root.version, old(Values(root.recordedEvents)), clock)
              == SaveDone(db.tables)
    ensures var h, expected := Header(old(db.tables), id), Minus(root.version, |old(root.recordedEvents)|);
            && (err.Some? && err.value.ConflictError'? ==>
                  h != expected && err.value.conflict == ConflictError(expected, h))
            && (begins && faults == {} && SameRows(old(db.tables), now, id) ==>
                  && (err.None? <==>
                        && Passes(messages, h, CheckExact(expected), old(Values(root.recordedEvents)))
                        && states.ser(state).Some?)
                  && (h != expected ==> err == Some(ConflictError'(ConflictError(expected, h)))))
  {
    if !begins {
      return Some(NotBegun), db.tables;
    }
    ghost var batch := old(Values(root.recordedEvents));
    var tx := new Tx(db.tables, faults);
    err := SaveInTransaction(tx, states, messages, typ, id, root, state, clock);
    db.OtherSessions(others);
    now := others;
    if err.None? {
      ReadsAreRows(tx, now, id);
    }
    if err.None? && SameRows(tx.committed, now, id) {
      SaveCommits(tx.committed, now, states, messages, typ, id, state, root.version, batch, clock, tx.eventWrites,
                  tx.aggregateWrites);
    }
    var ok := tx.CommitOrRollback(db, err.Some?);
    if err.None? && !ok {
      err := Some(NotCommitted);
    }
  }

  /** Which way a serial save goes, in terms of its checks. */
  lemma {:induction false} SaveIsDecidedByHeader<S, M, B>(t: Tables<B>, states: Serde<S, B>, messages: Serde<M, B>,
                                                          typ: string,
                                                          id: StreamID, state: S, version: Version,
                                                          batch: seq<Message<M>>,
                                                          clock: nat -> string)
    ensures var saved := SerialSave(t, states, messages, typ, id, state, version, batch, clock);
            var h, expected := Header(t, id), CheckExact(Minus(version, |batch|));
            && (saved.SaveRefused? <==> h != expected.version)
            && (saved.SaveRefused? ==> saved.conflict == ConflictError(expected.version, h))
            && (saved.SaveDone? <==> Passes(messages, h, expected, batch) && states.ser(state).Some?)
  {
    if Passes(messages, Header(t, id), CheckExact(Minus(version, |batch|)), batch) {
      SaveAfterAppend(t, states, messages, typ, id, state, version, batch, clock);
    }
  }

  datatype GetError = NotFound | BadState | FetchFailed

  /** Loads a root from its snapshot; the row's version becomes the root's. */
  method Get<S, B>(db: Database<B>, states: Serde<S, B>, typ: string, id: StreamID, queries: bool)
      returns (state: Option<S>, version: Version, err: Option<GetError>)
    ensures state.Some? <==> err.None?
    ensures err == Some(FetchFailed) <==> !queries
    ensures err == Some(BadState) ==>
              && id in db.tables.aggregates && db.tables.aggregates[id].typ == typ
              && states.de(db.tables.aggregates[id].state).None?
    ensures queries ==>
              (err == Some(NotFound) <==> id !in db.tables.aggregates || db.tables.aggregates[id].typ != typ)
    ensures err.None? ==>
              && id in db.tables.aggregates && db.tables.aggregates[id].typ == typ
              && version == db.tables.aggregates[id].version
              && states.de(db.tables.aggregates[id].state) == state
  {
    version := 0;
    if !queries {
      return None, version, Some(FetchFailed);
    }
    if id !in db.tables.aggregates || db.tables.aggregates[id].typ != typ {
      return None, version, Some(NotFound);
    }
    var row := db.tables.aggregates[id];
    state := states.de(row.state);
    if state.None? {
      return None, version, Some(BadState);
    }
    version, err := row.version, None;
  }

  /** The root that the repository returns is the one that runs of the repository go on with. */
  method GetLive<S, M, B>(db: Database<B>, kit: Kit<S, M, B>, id: StreamID, queries: bool)
      returns (root: Option<Live<S, M>>)
    ensures queries ==> root == Load(kit, db.tables, id)
    ensures root.Some? ==> root == Load(kit, db.tables, id)
  {
    var state, version, err := Get(db, kit.states, kit.typ, id, queries);
    if state.None? {
      assert err.value.NotFound? || err.value.BadState? || err.value.FetchFailed?;
      return None;
    }
    root := Some(Live(state.value, version, [], version));
  }

  /**
   A save is one step of the runs of the repository: in a session with the tables
   as other sessions left them, it does to the tables what saving the root does
   there, aborted when it returned an error, and the session stays in agreement.
   */
  method SaveLive<S(!new), M(!new), B(==)>(db: Database<B>, kit: Kit<S, M, B>, root: BaseRoot<Envelope<M>>, state: S,
                                           clock: nat -> string, begins: bool, faults: set<nat>, others: Tables<B>,
                                           ghost w: Session<S, M, B>, ghost r: nat)
      returns (err: Option<PgError>)
    requires TableInv(db.tables) && TableInv(others)
    requires w.tables == (if begins then others else db.tables) && r in w.roots
    requires w.roots[r].state == state && w.roots[r].version == root.version
    requires w.roots[r].recorded == Values(root.recordedEvents)
    modifies db, root, MapsOf(root.recordedEvents)
    ensures db.tables == Act(kit, w, SaveRoot(r, err.Some?), clock).tables
    ensures err.None? ==> SaveOf(kit, w.tables, w.roots[r], clock) == SaveDone(db.tables)
    ensures err.Some? ==> db.tables == w.tables
    ensures Sound(kit) && Inv(kit, w) ==> Inv(kit, Act(kit, w, SaveRoot(r, err.Some?), clock))
  {
    ghost var now;
    err, now := Save(db, kit.states, kit.messages, kit.typ, kit.idOf(state), root, state, clock, begins, faults,
                     others);
    SavedIsStep(kit, w, r, err.Some?, clock, db.tables);
  }

  lemma {:induction false} SavedIsStep<S(!new), M(!new), B>(kit: Kit<S, M, B>, w: Session<S, M, B>, r: nat,
                                                            aborted: bool, clock: nat -> string, t: Tables<B>)
    requires r in w.roots
    requires if aborted then t == w.tables else SaveOf(kit, w.tables, w.roots[r], clock) == SaveDone(t)
    ensures t == Act(kit, w, SaveRoot(r, aborted), clock).tables
    ensures Sound(kit) && Inv(kit, w) ==> Inv(kit, Act(kit, w, SaveRoot(r, aborted), clock))
  {
    if Sound(kit) && Inv(kit, w) {
      ActKeepsInv(kit, w, SaveRoot(r, aborted), clock);
    }
  }

  /** What is saved is then found, unless it was saved over a snapshot of another type. */
  method SaveThenGet<S(!new), M(!new), B(==)>(db: Database<B>, kit: Kit<S, M, B>, root: BaseRoot<Envelope<M>>, state: S,
                                              clock: nat -> string, faults: set<nat>, others: Tables<B>)
      returns (err: Option<PgError>, loaded: Option<Live<S, M>>)
    requires TableInv(db.tables) && TableInv(others) && Sound(kit) && kit.fitsState(state)
    modifies db, root, MapsOf(root.recordedEvents)
    ensures var id := kit.idOf(state);
            err.None? ==>
              loaded == if id in others.aggregates && others.aggregates[id].typ != kit.typ then None
                        else Some(Live(kit.normState(state), old(root.version), [], old(root.version)))
    ensures err.Some? ==> db.tables == others && loaded == Load(kit, others, kit.idOf(state))
  {
    ghost var r := Live(state, root.version, Values(root.recordedEvents), 0);
    ghost var now;
    err, now := Save(db, kit.states, kit.messages, kit.typ, kit.idOf(state), root, state, clock, true, faults, others);
    if err.None? {
      assert SoundState(kit, state);
      SavedIsLoaded(kit, others, r, clock, db.tables);
    }
    loaded := GetLive(db, kit, kit.idOf(state), true);
  }
}
