/**
 The PostgreSQL event store as the source runs it: statement by statement inside
 a transaction with a private view of the tables, which other sessions may change
 before it commits, and which may fail at any statement.
 */
module PgStore {
  import opened Options
  import opened Versions
  import opened EventStore
  import opened PgTables

  /** The metadata of an envelope: a map that is updated in place. */
  class MetadataMap {
    var entries: Metadata

    constructor ()
      ensures entries == map[]
    {
      entries := map[];
    }
  }

  function Entries(m: MetadataMap?): Metadata
    reads m
  {
    if m == null then map[] else m.entries
  }

  /** Sets a key in the map itself; only a missing map is replaced by a new one. */
  method With(m: MetadataMap?, key: Key, value: string) returns (r: MetadataMap)
    modifies if m == null then {} else {m}
    ensures if m == null then fresh(r) else r == m
    ensures r.entries == old(Entries(m))[key := value]
  {
    if m == null {
      r := new MetadataMap();
    } else {
      r := m;
    }
    r.entries := r.entries[key := value];
  }

  datatype Envelope<M> = Envelope(message: M, metadata: MetadataMap?)

  ghost function MapsOf<M>(events: seq<Envelope<M>>): set<MetadataMap> {
    set i | 0 <= i < |events| && events[i].metadata != null :: events[i].metadata as MetadataMap
  }

  /** Envelopes with the metadata they hold at the moment. */
  ghost function Values<M>(events: seq<Envelope<M>>): (values: seq<Message<M>>)
    reads MapsOf(events)
    ensures |values| == |events|
    ensures forall i :: 0 <= i < |events| ==> values[i] == Message(events[i].message, Entries(events[i].metadata))
  {
    seq(|events|, i requires 0 <= i < |events| reads MapsOf(events) =>
      Message(events[i].message, Entries(events[i].metadata)))
  }

  datatype PgError =
    | NotBegun
    | ConflictError'(conflict: ConflictError)
    | Serialization
    | Statement
    | VersionMismatch
    | NotCommitted

  datatype Result<+T> = Ok(value: T) | Err(error: PgError)

  class Database<B> {
    var tables: Tables<B>

    constructor ()
      ensures tables == Tables(map[], map[], map[]) && TableInv(tables)
    {
      tables := Tables(map[], map[], map[]);
    }

    /** Other sessions commit any transactions and leave these tables. */
    method OtherSessions(others: Tables<B>)
      modifies this
      ensures tables == others
    {
      tables := others;
    }
  }

  /**
   A transaction: the tables as they were when it began, its own writes on top,
   and the rows its outcome depends on. Statement number n fails when n is in
   `faults`, and any statement fails that violates a constraint.
   */
  class Tx<B(==)> {
    const committed: Tables<B>
    const faults: set<nat>
    var statements: nat
    var headersRead: set<StreamID>
    var aggregatesRead: set<StreamID>
    var headerWrites: map<StreamID, Version>
    var eventWrites: map<EventKey, Row<B>>
    var aggregateWrites: map<StreamID, Snapshot<B>>

    constructor (committed: Tables<B>, faults: set<nat>)
      ensures this.committed == committed && this.faults == faults && Untouched()
    {
      this.committed, this.faults, statements := committed, faults, 0;
      headersRead, aggregatesRead := {}, {};
      headerWrites, eventWrites, aggregateWrites := map[], map[], map[];
    }

    predicate Untouched()
      reads this
    {
      && headersRead == {} && aggregatesRead == {}
      && headerWrites == map[] && eventWrites == map[] && aggregateWrites == map[]
    }

    /** No snapshot was read or written. */
    predicate OnlyAppends()
      reads this`aggregatesRead, this`aggregateWrites
    {
      aggregatesRead == {} && aggregateWrites == map[]
    }

    /** The tables that this transaction would leave if it committed on top of some tables. */
    function OnTopOf(t: Tables<B>): Tables<B>
      reads this
    {
      Tables(t.streams + headerWrites, t.events + eventWrites, t.aggregates + aggregateWrites)
    }

    function View(): Tables<B>
      reads this
    {
      OnTopOf(committed)
    }

    /** What this transaction read is the same in other tables. */
    predicate ReadsUnchanged(now: Tables<B>)
      reads this
    {
      && (forall id :: id in headersRead ==> Header(now, id) == Header(committed, id))
      && (forall id :: id in aggregatesRead ==>
            if id in committed.aggregates then id in now.aggregates && now.aggregates[id] == committed.aggregates[id]
            else id !in now.aggregates)
    }

    method QueryHeader(id: StreamID) returns (ok: bool, version: Version)
      modifies this`statements, this`headersRead
      ensures headersRead == old(headersRead) + {id}
      ensures faults == {} ==> ok
      ensures ok ==> version == Header(View(), id)
    {
      ok := statements !in faults;
      statements := statements + 1;
      headersRead := headersRead + {id};
      version := Header(View(), id);
    }

    method ExecUpsertStream(id: StreamID, v: Version) returns (ok: bool)
      modifies this`statements, this`headerWrites
      ensures ok ==> v != 0 && headerWrites == old(headerWrites)[id := v]
      ensures ok ==> UpsertStream(old(View()), id, v) == Some(View())
      ensures !ok ==> headerWrites == old(headerWrites)
      ensures faults == {} ==> (ok <==> UpsertStream(old(View()), id, v).Some?)
    {
      ok := statements !in faults && UpsertStream(View(), id, v).Some?;
      statements := statements + 1;
      if ok {
        assert (committed.streams + headerWrites)[id := v] == committed.streams + headerWrites[id := v];
        headerWrites := headerWrites[id := v];
      }
    }

    method ExecInsertEvent(id: StreamID, v: Version, row: Row<B>) returns (ok: bool)
      modifies this`statements, this`eventWrites
      ensures ok ==> eventWrites == old(eventWrites)[(id, v) := row]
      ensures ok ==> InsertEvent(old(View()), id, v, row) == Some(View())
      ensures !ok ==> eventWrites == old(eventWrites)
      ensures faults == {} ==> (ok <==> InsertEvent(old(View()), id, v, row).Some?)
    {
      ok := statements !in faults && InsertEvent(View(), id, v, row).Some?;
      statements := statements + 1;
      if ok {
        assert (committed.events + eventWrites)[(id, v) := row] == committed.events + eventWrites[(id, v) := row];
        eventWrites := eventWrites[(id, v) := row];
      }
    }

    method ExecUpsertAggregate(id: StreamID, typ: string, v: Version, state: B) returns (ok: bool)
      modifies this`statements, this`aggregatesRead, this`aggregateWrites
      ensures ok ==> UpsertAggregate(old(View()), id, typ, v, state) == Some(View())
      ensures aggregatesRead == old(aggregatesRead) + {id}
      ensures ok ==> id in aggregateWrites && aggregateWrites == old(aggregateWrites)[id := aggregateWrites[id]]
      ensures !ok ==> aggregateWrites == old(aggregateWrites)
      ensures faults == {} ==> (ok <==> UpsertAggregate(old(View()), id, typ, v, state).Some?)
    {
      var r := UpsertAggregate(View(), id, typ, v, state);
      ok := statements !in faults && r.Some?;
      statements := statements + 1;
      aggregatesRead := aggregatesRead + {id};
      if ok {
        var row := r.value.aggregates[id];
        assert (committed.aggregates + aggregateWrites)[id := row] == committed.aggregates + aggregateWrites[id := row];
        aggregateWrites := aggregateWrites[id := row];
      }
    }

    /**
     The end of a transaction: roll back when its work failed, else commit. Under
     serialisable isolation a commit succeeds only if what was read is unchanged.
     */
    method CommitOrRollback(db: Database<B>, failed: bool) returns (ok: bool)
      modifies db
      ensures ok ==> !failed && ReadsUnchanged(old(db.tables)) && db.tables == OnTopOf(old(db.tables))
      ensures !ok ==> db.tables == old(db.tables)
      ensures !failed && faults == {} && ReadsUnchanged(old(db.tables)) ==> ok
    {
      ok := !failed && statements !in faults && ReadsUnchanged(db.tables);
      if ok {
        db.tables := OnTopOf(db.tables);
      }
    }
  }

  // ------------------------------------------------------------- appending

  /**
   Appends inside a transaction: reads the stream's version, checks it, writes the
   new version and inserts the events one by one. It succeeds only if the whole
   append is what a serial one does, and leaves exactly its writes behind. The
   callers' metadata is enriched in place, changing only the two added keys.
   */
  method AppendDomainEvents<M, B(==)>(tx: Tx<B>, serde: Serde<M, B>, id: StreamID, expected: Check,
                                  events: seq<Envelope<M>>, clock: nat -> string) returns (r: Result<Version>)
    requires tx.Untouched() && TableInv(tx.committed)
    modifies tx, MapsOf(events)
    ensures forall m :: m in MapsOf(events) ==> Stripped(m.entries) == Stripped(old(m.entries))
    ensures tx.headersRead == {id} && tx.OnlyAppends()
    ensures var h, batch := Header(tx.committed, id), old(Values(events));
            && (r.Ok? ==>
                  && Passes(serde, h, expected, batch)
                  && r.value == h + |batch|
                  && tx.headerWrites == map[id := r.value]
                  && tx.eventWrites == Keyed(id, h, RowsOf(serde, batch, r.value, clock)))
            && (r.Err? ==> !r.error.VersionMismatch? && !r.error.NotBegun? && !r.error.NotCommitted?)
            && (r == Err(Serialization) ==> !Serializes(serde, batch))
            && (r == Err(Statement) && tx.faults == {} ==> !(0 < h + |batch| < WRAP))
            && (r.Err? && r.error.ConflictError'? ==>
                  && expected.CheckExact? && h != expected.version
                  && r.error.conflict == ConflictError(expected.version, h))
            && (tx.faults == {} ==>
                  && (Passes(serde, h, expected, batch) ==> r.Ok?)
                  && (expected.CheckExact? && h != expected.version ==>
                        r == Err(ConflictError'(ConflictError(expected.version, h)))))
  {
    var ok, oldVersion := tx.QueryHeader(id);
    assert tx.headersRead == {id} && tx.OnlyAppends();
    if !ok {
      return Err(Statement);
    }
    if expected.CheckExact? && oldVersion != expected.version {
      return Err(ConflictError'(ConflictError(expected.version, oldVersion)));
    }
    var n := |events|;
    var newVersion := Plus(oldVersion, n);
    ok := tx.ExecUpsertStream(id, newVersion);
    if !ok {
      ZeroMeansTooLong(oldVersion, n);
      return Err(Statement);
    }
    ghost var batch := old(Values(events));
    var err, rows := InsertEvents(tx, serde, id, oldVersion, newVersion, events, batch, clock);
    if err.Some? {
      return Err(err.value);
    }
    SmallVersion(oldVersion + n);
    assert newVersion == oldVersion + |rows| && 0 < newVersion;
    AllRows(serde, batch, rows, newVersion, clock);
    r := Ok(newVersion);
  }

  /** The writes of an append on top of some tables. */
  lemma {:induction false} OverlayIsExtend<B>(t: Tables<B>, id: StreamID, rows: seq<Row<B>>)
    requires 0 < Header(t, id) + |rows| < WRAP
    ensures Tables(t.streams + map[id := (Header(t, id) + |rows|) as Version],
                   t.events + Keyed(id, Header(t, id), rows), t.aggregates + map[]) == Extend(t, id, rows)
  {
    assert t.streams + map[id := (Header(t, id) + |rows|) as Version] == t.streams[id := Header(t, id) + |rows|];
    assert t.aggregates + map[] == t.aggregates;
  }

  /** The insert loop of an append, after the stream's row has been written. */
  method InsertEvents<M, B(==)>(tx: Tx<B>, serde: Serde<M, B>, id: StreamID, oldVersion: Version, newVersion: Version,
                                events: seq<Envelope<M>>, ghost batch: seq<Message<M>>, clock: nat -> string)
      returns (err: Option<PgError>, ghost rows: seq<Row<B>>)
    requires TableInv(tx.committed) && oldVersion == Header(tx.committed, id) && batch == Values(events)
    requires id in tx.headerWrites && tx.eventWrites == map[]
    modifies tx`statements, tx`eventWrites, MapsOf(events)
    ensures forall m :: m in MapsOf(events) ==> Stripped(m.entries) == Stripped(old(m.entries))
    ensures err.None? ==> |rows| == |events| && RowsSoFar(serde, batch, rows, newVersion, clock)
    ensures err.None? ==> oldVersion + |events| < WRAP && tx.eventWrites == Keyed(id, oldVersion, rows)
    ensures err.Some? ==> err.value.Serialization? || err.value.Statement?
    ensures err == Some(Serialization) ==> !Serializes(serde, batch)
    ensures err == Some(Statement) && tx.faults == {} ==> oldVersion + |events| >= WRAP
    ensures err.Some? && tx.faults == {} ==> oldVersion + |events| >= WRAP || !Serializes(serde, batch)
  {
    rows := [];
    for i := 0 to |events|
      invariant oldVersion + i < WRAP
      invariant forall m :: m in MapsOf(events) ==> Stripped(m.entries) == Stripped(old(m.entries))
      invariant |rows| == i && tx.eventWrites == Keyed(id, oldVersion, rows)
      invariant RowsSoFar(serde, batch, rows, newVersion, clock)
    {
      var data := serde.ser(events[i].message);
      if data.None? {
        assert serde.ser(batch[i].message).None?;
        return Some(Serialization), rows;
      }
      EnrichMeaning(Entries(events[i].metadata), batch[i].metadata, clock(i), newVersion);
      var metadata := EnrichInPlace(events, i, clock(i), newVersion);
      var row := Row(data.value, metadata.entries);
      var ok := AppendDomainEvent(tx, id, oldVersion, i, rows, row);
      if !ok {
        return Some(Statement), rows;
      }
      RowsGrow(serde, batch, rows, newVersion, clock, row);
      rows := rows + [row];
    }
    err := None;
  }

  /** The rows made so far are those of the first events of a batch. */
  ghost predicate RowsSoFar<M, B>(serde: Serde<M, B>, batch: seq<Message<M>>, rows: seq<Row<B>>, newVersion: Version,
                                  clock: nat -> string) {
    && |rows| <= |batch|
    && forall k :: 0 <= k < |rows| ==>
         && serde.ser(batch[k].message).Some?
         && rows[k] == Row(serde.ser(batch[k].message).value, Enrich(batch[k].metadata, clock(k), newVersion))
  }

  lemma {:induction false} RowsGrow<M, B>(serde: Serde<M, B>, batch: seq<Message<M>>, rows: seq<Row<B>>,
                                          newVersion: Version,
                                          clock: nat -> string, row: Row<B>)
    requires RowsSoFar(serde, batch, rows, newVersion, clock) && |rows| < |batch|
    requires serde.ser(batch[|rows|].message) == Some(row.event)
    requires row.metadata == Enrich(batch[|rows|].metadata, clock(|rows|), newVersion)
    ensures RowsSoFar(serde, batch, rows + [row], newVersion, clock)
  {
  }

  lemma {:induction false} AllRows<M, B>(serde: Serde<M, B>, batch: seq<Message<M>>, rows: seq<Row<B>>,
                                         newVersion: Version,
                                         clock: nat -> string)
    requires RowsSoFar(serde, batch, rows, newVersion, clock) && |rows| == |batch|
    ensures Serializes(serde, batch) && rows == RowsOf(serde, batch, newVersion, clock)
  {
    assert Serializes(serde, batch);
    assert rows == RowsOf(serde, batch, newVersion, clock);
  }

  /** Adds the two keys to the metadata of one event, in the caller's own map when there is one. */
  method EnrichInPlace<M>(events: seq<Envelope<M>>, i: nat, stamp: string, newVersion: Version) returns (r: MetadataMap)
    requires i < |events|
    modifies MapsOf(events)
    ensures r.entries == Enrich(old(Entries(events[i].metadata)), stamp, newVersion)
    ensures forall m :: m in MapsOf(events) ==> Stripped(m.entries) == Stripped(old(m.entries))
  {
    var m := events[i].metadata;
    assert m != null ==> m in MapsOf(events);
    EnrichMeaning(Entries(m), Entries(m), stamp, newVersion);
    r := With(m, RecordedAt, stamp);
    r := With(r, OverallVersion, Itoa(newVersion));
  }

  /** Inserts the next event of a batch; the version that follows 2^32 - 1 events is 0, which its check refuses. */
  method AppendDomainEvent<B(==)>(tx: Tx<B>, id: StreamID, oldVersion: Version, i: nat, ghost rows: seq<Row<B>>,
                                  row: Row<B>)
      returns (ok: bool)
    requires TableInv(tx.committed) && oldVersion == Header(tx.committed, id) && |rows| == i && oldVersion + i < WRAP
    requires id in tx.headerWrites && tx.eventWrites == Keyed(id, oldVersion, rows)
    modifies tx`statements, tx`eventWrites
    ensures ok ==> oldVersion + i + 1 < WRAP && tx.eventWrites == Keyed(id, oldVersion, rows + [row])
    ensures tx.faults == {} && oldVersion + i + 1 < WRAP ==> ok
  {
    KeyedMeaning(id, oldVersion, rows);
    PlusAcross(oldVersion, i + 1);
    assert (rows + [row])[..i] == rows;
    ok := tx.ExecInsertEvent(id, Plus(oldVersion, i + 1), row);
  }

  /** The first version that wraps is 0. */
  lemma {:induction false} PlusAcross(v: Version, n: nat)
    requires v + n <= WRAP
    ensures Plus(v, n) == if v + n < WRAP then v + n else 0
  {
  }

  /** A wrapped version of 0 after a stream that exists means 2^32 events, or nothing at all. */
  lemma {:induction false} ZeroMeansTooLong(v: Version, n: nat)
    ensures Plus(v, n) == 0 ==> v + n == 0 || v + n >= WRAP
  {
    if v + n < WRAP {
      SmallVersion(v + n);
    }
  }

  lemma {:induction false} ReadsAreHeader<B>(tx: Tx<B>, now: Tables<B>, id: StreamID)
    requires tx.headersRead == {id} && tx.aggregatesRead == {}
    ensures tx.ReadsUnchanged(now) <==> Header(now, id) == Header(tx.committed, id)
  {
  }

  /**
   The store's append: one transaction, during which other sessions leave the
   tables as `others`. Whatever they commit and wherever it fails, either it adds
   nothing to that, or it does to those tables exactly what the append does when it
   runs alone at the moment of commit. A
   conflict is the one with the stream's version when the transaction begins.
   Without faults, and with that version unchanged, it succeeds exactly when a
   serial append does.
   */
  method Append<M, B(==)>(db: Database<B>, serde: Serde<M, B>, id: StreamID, expected: Check, events: seq<Envelope<M>>,
                          clock: nat -> string, begins: bool, faults: set<nat>, others: Tables<B>)
      returns (r: Result<Version>, ghost now: Tables<B>)
    requires TableInv(db.tables) && TableInv(others)
    modifies db, MapsOf(events)
    ensures now == if begins then others else old(db.tables)
    ensures TableInv(db.tables)
    ensures r == Err(NotBegun) <==> !begins
    ensures r == Err(Serialization) ==> !Serializes(serde, old(Values(events)))
    ensures r == Err(Statement) && faults == {} ==>
              !(0 < Header(old(db.tables), id) + |events| < WRAP)
    ensures r.Err? ==> !r.error.VersionMismatch?
    ensures r.Ok? ==> SerialAppend(now, serde, id, expected, old(Values(events)), clock) == Done(r.value, db.tables)
    ensures r.Err? ==> db.tables == now
    ensures r.Err? && r.error.ConflictError'? ==>
              && expected.CheckExact? && Header(old(db.tables), id) != expected.version
              && r.error.conflict == ConflictError(expected.version, Header(old(db.tables), id))
    ensures begins && faults == {} && Header(now, id) == Header(old(db.tables), id) ==>
              && (r.Ok? <==> Passes(serde, Header(now, id), expected, old(Values(events))))
              && (expected.CheckExact? && Header(now, id) != expected.version ==>
                    r == Err(ConflictError'(ConflictError(expected.version, Header(now, id)))))
    ensures begins && faults == {} && Passes(serde, Header(old(db.tables), id), expected, old(Values(events))) ==>
              r.Ok? || r == Err(NotCommitted)
    ensures forall m :: m in MapsOf(events) ==> Stripped(m.entries) == Stripped(old(m.entries))
  {
    if !begins {
      return Err(NotBegun), db.tables;
    }
    ghost var batch := old(Values(events));
    var tx := new Tx(db.tables, faults);
    r := AppendDomainEvents(tx, serde, id, expected, events, clock);
    db.OtherSessions(others);
    now := others;
    ReadsAreHeader(tx, now, id);
    if r.Ok? && tx.ReadsUnchanged(now) {
      AppendCommits(now, serde, id, expected, batch, clock, r.value, tx.eventWrites);
    }
    var ok := tx.CommitOrRollback(db, r.Err?);
    if r.Ok? && !ok {
      r := Err(NotCommitted);
    }
  }

  /**
   Seen from an in-memory store that the database stands for, the append with all
   that may happen to its transaction is one step of that store, or none at all: a
   committed append is the in-memory one at the moment of commit, with the same
   version; a conflict is the one that memory answers when the transaction begins;
   and every other failure leaves the stores related as they are.
   */
  method AppendRefinesMemory<M, B(==)>(db: Database<B>, serde: Serde<M, B>, id: StreamID, expected: Check,
                                       events: seq<Envelope<M>>, clock: nat -> string, begins: bool, faults: set<nat>,
                                       others: Tables<B>)
      returns (r: Result<Version>, ghost now: Tables<B>)
    requires TableInv(db.tables) && TableInv(others) && RoundTrips(serde, Values(events))
    modifies db, MapsOf(events)
    ensures now == if begins then others else old(db.tables)
    ensures TableInv(db.tables)
    ensures db.tables == PgStep(serde, now, Op(id, expected, old(Values(events)), r.Err?), clock).0
    ensures begins && faults == {} && Header(now, id) == Header(old(db.tables), id) ==>
              && (r.Ok? <==> Passes(serde, Header(now, id), expected, old(Values(events))))
              && (expected.CheckExact? && Header(now, id) != expected.version ==>
                    r == Err(ConflictError'(ConflictError(expected.version, Header(now, id)))))
    ensures forall m :: m in MapsOf(events) ==> Stripped(m.entries) == Stripped(old(m.entries))
    ensures forall streams: Streams<Message<M>> :: Related(serde, now, streams) ==>
              var op := Op(id, expected, old(Values(events)), r.Err?);
              && Related(serde, db.tables, MemStep(streams, op).0)
              && (r.Ok? ==> MemStep(streams, op).1 == Answer.Version(r.value))
    ensures forall streams: Streams<Message<M>> :: Related(serde, old(db.tables), streams) ==>
              r.Err? && r.error.ConflictError'? ==>
                MemStep(streams, Op(id, expected, old(Values(events)), false))
                == (streams, ConflictAnswer(r.error.conflict))
  {
    ghost var batch, before := old(Values(events)), db.tables;
    r, now := Append(db, serde, id, expected, events, clock, begins, faults, others);
    forall streams: Streams<Message<M>> | Related(serde, now, streams)
      ensures var op := Op(id, expected, batch, r.Err?);
              && Related(serde, db.tables, MemStep(streams, op).0)
              && (r.Ok? ==> MemStep(streams, op).1 == Answer.Version(r.value))
    {
      if r.Ok? {
        StepRefines(serde, now, streams, Op(id, expected, batch, false), clock);
      }
    }
    forall streams: Streams<Message<M>> | Related(serde, before, streams)
      ensures r.Err? && r.error.ConflictError'? ==>
                MemStep(streams, Op(id, expected, batch, false)) == (streams, ConflictAnswer(r.error.conflict))
    {
      SmallVersion(Header(before, id));
    }
  }

  // ------------------------------------------------------------- a history of appends

  /** One call of the store's append, and what happens to its transaction. */
  datatype Request<M> = Request(id: StreamID, expected: Check, events: seq<Envelope<M>>, begins: bool, faults: set<nat>)

  ghost function MapsOfAll<M>(requests: seq<Request<M>>): set<MetadataMap> {
    set i, m | 0 <= i < |requests| && m in MapsOf(requests[i].events) :: m
  }

  /** The messages of a call come back from their bytes. */
  ghost predicate ComesBack<M, B>(serde: Serde<M, B>, events: seq<Envelope<M>>) {
    forall i :: 0 <= i < |events| ==>
                  && serde.ser(events[i].message).Some?
                  && serde.de(serde.ser(events[i].message).value) == Some(events[i].message)
  }

  function AnswerOf(r: Result<Version>): Answer {
    match r
    case Ok(v) => Answer.Version(v)
    case Err(error) => if error.ConflictError'? then ConflictAnswer(error.conflict) else Answer.Error
  }

  /** The operation that a call amounts to: with the metadata it was called with, and aborted when it gave no answer. */
  ghost predicate Amounts<M>(request: Request<M>, op: Op<M>, answer: Answer) {
    && op.id == request.id && op.expected == request.expected
    && |op.batch| == |request.events|
    && (forall k :: 0 <= k < |op.batch| ==> op.batch[k].message == request.events[k].message)
    && (op.aborted <==> answer.Error?)
  }

  /** A call gives no answer only when its transaction fails or memory would go out of range. */
  ghost predicate Excused<M>(streams: Streams<Message<M>>, request: Request<M>, op: Op<M>) {
    op.aborted ==> !request.begins || request.faults != {} || !InRange(streams, op.(aborted := false))
  }

  /** The first calls of a history amount to these operations, and memory answers those with these answers. */
  ghost predicate Answered<M>(requests: seq<Request<M>>, ops: seq<Op<M>>, answers: seq<Answer>) {
    && |answers| == |ops| <= |requests|
    && answers == MemRun(ops).1
    && forall i :: 0 <= i < |ops| ==>
         Amounts(requests[i], ops[i], answers[i]) && Excused(MemRun(ops[..i]).0, requests[i], ops[i])
  }

  lemma {:induction false} AnsweredGrows<M>(requests: seq<Request<M>>, ops: seq<Op<M>>, answers: seq<Answer>, op: Op<M>,
                                            answer: Answer)
    requires Answered(requests, ops, answers) && |ops| < |requests|
    requires Amounts(requests[|ops|], op, answer) && Excused(MemRun(ops).0, requests[|ops|], op)
    requires answer == MemStep(MemRun(ops).0, op).1
    ensures Answered(requests, ops + [op], answers + [answer])
    ensures MemRun(ops + [op]).0 == MemStep(MemRun(ops).0, op).0
  {
    var more := ops + [op];
    assert more[..|more| - 1] == ops;
    forall i | 0 <= i < |more|
      ensures Amounts(requests[i], more[i], (answers + [answer])[i])
      ensures Excused(MemRun(more[..i]).0, requests[i], more[i])
    {
      if i < |ops| {
        assert more[..i] == ops[..i];
      }
    }
  }

  /** One call, from a database that stands for an in-memory store. */
  method AppendStep<M, B(==)>(db: Database<B>, serde: Serde<M, B>, request: Request<M>, clock: nat -> string,
                              ghost streams: Streams<Message<M>>) returns (answer: Answer, ghost op: Op<M>)
    requires Related(serde, db.tables, streams) && ComesBack(serde, request.events)
    modifies db, MapsOf(request.events)
    ensures Amounts(request, op, answer) && op.batch == old(Values(request.events))
    ensures Excused(streams, request, op)
    ensures answer == MemStep(streams, op).1 && Related(serde, db.tables, MemStep(streams, op).0)
    ensures forall m :: m in MapsOf(request.events) ==> Stripped(m.entries) == Stripped(old(m.entries))
  {
    var r, now := AppendRefinesMemory(db, serde, request.id, request.expected, request.events, clock, request.begins,
                                      request.faults, db.tables);
    answer := AnswerOf(r);
    op := Op(request.id, request.expected, old(Values(request.events)), answer.Error?);
    SmallVersion(Header(now, request.id));
  }

  /**
   Any history of calls on a new database, any of which may fail at any statement
   or at commit: their answers are those of an in-memory store that is given the
   same appends, without the calls that got no answer, and in the end the database
   stands for that store.
   */
  method AppendAll<M, B(==)>(db: Database<B>, serde: Serde<M, B>, requests: seq<Request<M>>, clock: nat -> string)
      returns (answers: seq<Answer>, ghost ops: seq<Op<M>>)
    requires db.tables == Tables(map[], map[], map[])
    requires forall i :: 0 <= i < |requests| ==> ComesBack(serde, requests[i].events)
    modifies db, MapsOfAll(requests)
    ensures |ops| == |requests| && Answered(requests, ops, answers)
    ensures Related(serde, db.tables, MemRun(ops).0)
    ensures forall m :: m in MapsOfAll(requests) ==> Stripped(m.entries) == Stripped(old(m.entries))
  {
    answers, ops := [], [];
    for n := 0 to |requests|
      invariant |ops| == n && Answered(requests, ops, answers)
      invariant Related(serde, db.tables, MemRun(ops).0)
      invariant forall m :: m in MapsOfAll(requests) ==> Stripped(m.entries) == Stripped(old(m.entries))
    {
      assert MapsOf(requests[n].events) <= MapsOfAll(requests);
      var answer, op := AppendStep(db, serde, requests[n], clock, MemRun(ops).0);
      AnsweredGrows(requests, ops, answers, op, answer);
      answers, ops := answers + [answer], ops + [op];
    }
  }

  /** An append whose row nobody else touched does what it does alone, and keeps the table invariant. */
  lemma {:induction false} AppendCommits<M, B>(now: Tables<B>, serde: Serde<M, B>, id: StreamID, expected: Check,
                                               batch: seq<Message<M>>, clock: nat -> string, v: Version,
                                               writes: map<EventKey, Row<B>>)
    requires TableInv(now) && Passes(serde, Header(now, id), expected, batch) && v == Header(now, id) + |batch|
    requires writes == Keyed(id, Header(now, id), RowsOf(serde, batch, v, clock))
    ensures var t' := Tables(now.streams + map[id := v], now.events + writes, now.aggregates + map[]);
            SerialAppend(now, serde, id, expected, batch, clock) == Done(v, t') && TableInv(t')
  {
    SerialOnTop(now, serde, id, expected, batch, clock, v, writes);
    WritesKeepInv(now, id, v, RowsOf(serde, batch, v, clock), map[]);
  }

  /** A serial append, written as its writes on top of the tables. */
  lemma {:induction false} SerialOnTop<M, B>(now: Tables<B>, serde: Serde<M, B>, id: StreamID, expected: Check,
                                             batch: seq<Message<M>>, clock: nat -> string, v: Version,
                                             writes: map<EventKey, Row<B>>)
    requires Passes(serde, Header(now, id), expected, batch) && v == Header(now, id) + |batch|
    requires writes == Keyed(id, Header(now, id), RowsOf(serde, batch, v, clock))
    ensures SerialAppend(now, serde, id, expected, batch, clock)
         == Done(v, Tables(now.streams + map[id := v], now.events + writes, now.aggregates + map[]))
  {
    var rows := RowsOf(serde, batch, v, clock);
    assert SerialAppend(now, serde, id, expected, batch, clock) == Done(v, Extend(now, id, rows));
    OverlayIsExtend(now, id, rows);
  }

  /** An append and at most one snapshot row of its stream on top of tables keep the table invariant. */
  lemma {:induction false} WritesKeepInv<B>(now: Tables<B>, id: StreamID, v: Version, rows: seq<Row<B>>,
                                            snapshots: map<StreamID, Snapshot<B>>)
    requires TableInv(now) && 0 < v == Header(now, id) + |rows|
    requires forall other :: other in snapshots ==> other == id && 0 < snapshots[other].version
    ensures TableInv(Tables(now.streams + map[id := v], now.events + Keyed(id, Header(now, id), rows),
                            now.aggregates + snapshots))
  {
    ExtendKeepsInv(now, id, rows);
    OverlayIsExtend(now, id, rows);
  }

  // ------------------------------------------------------------- streaming

  datatype StreamFailure = QueryFailed | RowFailed | Undecodable

  /** The iteration ends at this place: the consumer has left, the connection fails, or there is no event to decode. */
  predicate EndsAt<M, B>(serde: Serde<M, B>, rows: seq<(Version, Row<B>)>, limit: Option<nat>, failsAt: Option<nat>,
                         i: nat)
    requires i <= |rows|
  {
    || (0 < i && limit == Some(i))
    || failsAt == Some(i)
    || i == |rows|
    || serde.de(rows[i].1.event).None?
  }

  /**
   Streams a range of events: one query, then row after row. The consumer leaves
   when it has `limit` events, if it does; the connection fails before row
   `failsAt`, or after the last when that is its number. It yields the decoded rows
   up to the first place where the iteration ends, and says why it ended there.
   */
  method Stream<M, B(==)>(db: Database<B>, serde: Serde<M, B>, id: StreamID, from: Version, queries: bool,
                          limit: Option<nat>, failsAt: Option<nat>)
      returns (seen: seq<Persisted<Message<M>>>, err: Option<StreamFailure>)
    ensures !queries ==> seen == [] && err == Some(QueryFailed)
    ensures var rows := QueryRows(db.tables, id, from);
            && |seen| <= |rows|
            && (forall k :: 0 <= k < |seen| ==>
                  && serde.de(rows[k].1.event).Some?
                  && seen[k] == Persisted(id, rows[k].0,
                                          Message(serde.de(rows[k].1.event).value, rows[k].1.metadata)))
            && (queries ==>
                  && EndsAt(serde, rows, limit, failsAt, |seen|)
                  && (forall i :: 0 <= i < |seen| ==> !EndsAt(serde, rows, limit, failsAt, i))
                  && var left := 0 < |seen| && limit == Some(|seen|);
                     && (err.None? <==> left || (|seen| == |rows| && failsAt != Some(|seen|)))
                     && (err == Some(RowFailed) <==> !left && failsAt == Some(|seen|))
                     && (err == Some(Undecodable) <==> !left && failsAt != Some(|seen|) && |seen| < |rows|))
    ensures limit.Some? && 0 < limit.value ==> |seen| <= limit.value
  {
    seen := [];
    if !queries {
      return seen, Some(QueryFailed);
    }
    var rows := QueryRows(db.tables, id, from);
    for i := 0 to |rows|
      invariant |seen| == i
      invariant forall k :: 0 <= k < i ==>
                  && serde.de(rows[k].1.event).Some?
                  && seen[k] == Persisted(id, rows[k].0,
                                          Message(serde.de(rows[k].1.event).value, rows[k].1.metadata))
      invariant forall k :: 0 <= k < i ==> !EndsAt(serde, rows, limit, failsAt, k)
      invariant !(0 < i && limit == Some(i))
      invariant limit.Some? && 0 < limit.value ==> i < limit.value
    {
      if failsAt == Some(i) {
        return seen, Some(RowFailed);
      }
      var message := serde.de(rows[i].1.event);
      if message.None? {
        return seen, Some(Undecodable);
      }
      seen := seen + [Persisted(id, rows[i].0, Message(message.value, rows[i].1.metadata))];
      if limit == Some(i + 1) {
        return seen, None;
      }
    }
    err := if failsAt == Some(|rows|) then Some(RowFailed) else None;
  }
}
