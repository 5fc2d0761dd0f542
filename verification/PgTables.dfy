/**
 The three tables of the PostgreSQL store, the statements run on them with the
 constraints the schema declares, and what a whole append transaction does when
 it runs alone.
 */
module PgTables {
  import opened Options
  import opened Versions
  import opened EventStore

  /** Metadata keys: the two that an append adds, and any other text. */
  datatype Key = RecordedAt | OverallVersion | Other(text: string)

  type Metadata = map<Key, string>

  /** An event row; B is the type of serialized values. */
  datatype Row<B> = Row(event: B, metadata: Metadata)

  /** A row of the aggregates table. */
  datatype Snapshot<B> = Snapshot(typ: string, version: Version, state: B)

  type EventKey = (StreamID, Version)

  datatype Tables<B> = Tables(
    streams: map<StreamID, Version>,
    events: map<EventKey, Row<B>>,
    aggregates: map<StreamID, Snapshot<B>>)

  /** Serialization of messages or of states to bytes and back; either way may fail. */
  datatype Serde<!M, !B> = Serde(ser: M -> Option<B>, de: B -> Option<M>)

  /** A message with its metadata as plain values. */
  datatype Message<M> = Message(message: M, metadata: Metadata)

  // ------------------------------------------------------------- statements

  /** The version of a stream's row; no row reads as version 0. */
  function Header<B>(t: Tables<B>, id: StreamID): Version {
    if id in t.streams then t.streams[id] else 0
  }

  /** INSERT ... ON CONFLICT DO UPDATE into event_streams, with its check. */
  function UpsertStream<B>(t: Tables<B>, id: StreamID, v: Version): Option<Tables<B>> {
    if v == 0 then None else Some(t.(streams := t.streams[id := v]))
  }

  /** INSERT into events, with its check, primary key and foreign key. */
  function InsertEvent<B>(t: Tables<B>, id: StreamID, v: Version, row: Row<B>): Option<Tables<B>> {
    if v == 0 || (id, v) in t.events || id !in t.streams then None
    else Some(t.(events := t.events[(id, v) := row]))
  }

  /** INSERT ... ON CONFLICT DO UPDATE into aggregates; an update keeps the type. */
  function UpsertAggregate<B>(t: Tables<B>, id: StreamID, typ: string, v: Version, state: B): Option<Tables<B>> {
    if v == 0 || id !in t.streams then None
    else
      var kept := if id in t.aggregates then t.aggregates[id].typ else typ;
      Some(t.(aggregates := t.aggregates[id := Snapshot(kept, v, state)]))
  }

  /** The rows of a stream from a version on, ordered by version, as a query returns them. */
  function RowsUpTo<B>(t: Tables<B>, id: StreamID, from: Version, v: Version): seq<(Version, Row<B>)> {
    if v == 0 then (if 0 < from || (id, 0) !in t.events then [] else [(0, t.events[(id, 0)])])
    else
      RowsUpTo(t, id, from, v - 1) + (if v < from || (id, v) !in t.events then [] else [(v, t.events[(id, v)])])
  }

  function QueryRows<B>(t: Tables<B>, id: StreamID, from: Version): seq<(Version, Row<B>)> {
    RowsUpTo(t, id, from, 0xFFFF_FFFF)
  }

  /** The constraints that the schema declares, but for primary keys: checks on versions and foreign keys. */
  ghost predicate Constraints<B>(t: Tables<B>) {
    && (forall id :: id in t.streams ==> 0 < t.streams[id])
    && (forall id: StreamID, v: Version :: (id, v) in t.events ==> 0 < v && id in t.streams)
    && (forall id :: id in t.aggregates ==> 0 < t.aggregates[id].version && id in t.streams)
  }

  /** A statement fails exactly when its row would break a constraint or, for an insert, repeat a primary key. */
  lemma {:induction false} StatementsCheck<B>(t: Tables<B>, id: StreamID, v: Version, row: Row<B>, typ: string,
                                              state: B)
    requires Constraints(t)
    ensures var t' := t.(streams := t.streams[id := v]);
            UpsertStream(t, id, v) == if Constraints(t') then Some(t') else None
    ensures var t' := t.(events := t.events[(id, v) := row]);
            InsertEvent(t, id, v, row) == if (id, v) !in t.events && Constraints(t') then Some(t') else None
    ensures var old_ := if id in t.aggregates then t.aggregates[id].typ else typ;
            var t' := t.(aggregates := t.aggregates[id := Snapshot(old_, v, state)]);
            UpsertAggregate(t, id, typ, v, state) == if Constraints(t') then Some(t') else None
  {
    var t1 := t.(streams := t.streams[id := v]);
    assert t1.streams[id] == v;
    var t2 := t.(events := t.events[(id, v) := row]);
    assert (id, v) in t2.events;
    var typ' := if id in t.aggregates then t.aggregates[id].typ else typ;
    var t3 := t.(aggregates := t.aggregates[id := Snapshot(typ', v, state)]);
    assert t3.aggregates[id].version == v;
  }

  // ------------------------------------------------------------- invariant

  /**
   A stream's row says version v exactly when its events have versions 1 to v,
   once each, and snapshots belong to streams.
   */
  ghost predicate TableInv<B>(t: Tables<B>) {
    && (forall id :: id in t.streams ==> 0 < t.streams[id])
    && (forall id: StreamID, v: Version :: (id, v) in t.events <==> 1 <= v <= Header(t, id))
    && (forall id :: id in t.aggregates ==> id in t.streams && 0 < t.aggregates[id].version)
  }

  // ------------------------------------------------------------- enriched metadata

  /** Decimal text of a number. */
  function Itoa(n: nat): string {
    if n < 10 then [DIGITS[n]] else Itoa(n / 10) + [DIGITS[n % 10]]
  }

  const DIGITS := "0123456789"

  /** The number a decimal text stands for. */
  function Atoi(s: string): nat {
    if s == [] then 0
    else
      var c := s[|s| - 1];
      10 * Atoi(s[..|s| - 1]) + (if '0' <= c <= '9' then c as int - '0' as int else 0)
  }

  lemma {:induction false} AtoiItoa(n: nat)
    ensures Atoi(Itoa(n)) == n
  {
    if n < 10 {
      assert [DIGITS[n]][..0] == "";
    } else {
      AtoiItoa(n / 10);
      var s := Itoa(n);
      assert s[..|s| - 1] == Itoa(n / 10);
    }
  }

  /** Metadata as stored: the caller's, with the time and the stream version after the batch. */
  function Enrich(m: Metadata, stamp: string, newVersion: Version): Metadata {
    m[RecordedAt := stamp][OverallVersion := Itoa(newVersion)]
  }

  /** Metadata without the two keys added on append. */
  function Stripped(m: Metadata): Metadata {
    m - {RecordedAt, OverallVersion}
  }

  /** Enriching ignores what the two keys held before, and stripping undoes it. */
  lemma {:induction false} EnrichMeaning(m: Metadata, m': Metadata, stamp: string, newVersion: Version)
    requires Stripped(m) == Stripped(m')
    ensures Enrich(m, stamp, newVersion) == Enrich(m', stamp, newVersion)
    ensures Stripped(Enrich(m, stamp, newVersion)) == Stripped(m)
    ensures RecordedAt in Enrich(m, stamp, newVersion) && Enrich(m, stamp, newVersion)[RecordedAt] == stamp
    ensures OverallVersion in Enrich(m, stamp, newVersion)
    ensures Atoi(Enrich(m, stamp, newVersion)[OverallVersion]) == newVersion
  {
    AtoiItoa(newVersion);
    forall k
      ensures k in Enrich(m, stamp, newVersion) <==> k in Enrich(m', stamp, newVersion)
      ensures k in Enrich(m, stamp, newVersion) ==> Enrich(m, stamp, newVersion)[k] == Enrich(m', stamp, newVersion)[k]
    {
      assert k in Stripped(m) <==> k in Stripped(m');
      if k in Stripped(m) {
        assert Stripped(m)[k] == Stripped(m')[k];
      }
    }
    assert Stripped(Enrich(m, stamp, newVersion)) == Stripped(m);
  }

  // ------------------------------------------------------------- a serial append

  /** The rows written for a batch. */
  ghost function RowsOf<M, B>(serde: Serde<M, B>, batch: seq<Message<M>>, newVersion: Version, clock: nat -> string)
      : (rows: seq<Row<B>>)
    requires forall i :: 0 <= i < |batch| ==> serde.ser(batch[i].message).Some?
    ensures |rows| == |batch|
  {
    seq(|batch|, i requires 0 <= i < |batch| =>
      Row(serde.ser(batch[i].message).value, Enrich(batch[i].metadata, clock(i), newVersion)))
  }

  /** Rows keyed with consecutive versions after h. */
  ghost function Keyed<B>(id: StreamID, h: Version, rows: seq<Row<B>>): map<EventKey, Row<B>>
    requires h + |rows| < WRAP
  {
    if rows == [] then map[]
    else Keyed(id, h, rows[..|rows| - 1])[(id, h + |rows|) := rows[|rows| - 1]]
  }

  lemma {:induction false} KeyedMeaning<B>(id: StreamID, h: Version, rows: seq<Row<B>>)
    requires h + |rows| < WRAP
    ensures forall id': StreamID, v: Version :: (id', v) in Keyed(id, h, rows) <==> id' == id && h < v <= h + |rows|
    ensures forall v: Version :: h < v <= h + |rows| ==> Keyed(id, h, rows)[(id, v)] == rows[v - h - 1]
  {
    if rows != [] {
      KeyedMeaning(id, h, rows[..|rows| - 1]);
    }
  }

  /** What a committed append adds: the new stream version and one row per event. */
  ghost function Extend<B>(t: Tables<B>, id: StreamID, rows: seq<Row<B>>): Tables<B>
    requires 0 < Header(t, id) + |rows| < WRAP
  {
    t.(streams := t.streams[id := Header(t, id) + |rows|], events := t.events + Keyed(id, Header(t, id), rows))
  }

  datatype Outcome<B> = Done(version: Version, tables: Tables<B>) | Refused(conflict: ConflictError) | Failed

  ghost predicate Serializes<M, B>(serde: Serde<M, B>, batch: seq<Message<M>>) {
    forall i :: 0 <= i < |batch| ==> serde.ser(batch[i].message).Some?
  }

  /** An append transaction that runs alone and loses no connection. */
  ghost function SerialAppend<M, B>(t: Tables<B>, serde: Serde<M, B>, id: StreamID, expected: Check,
                                    batch: seq<Message<M>>, clock: nat -> string): Outcome<B> {
    var h := Header(t, id);
    if expected.CheckExact? && h != expected.version then Refused(ConflictError(expected.version, h))
    else if !(0 < h + |batch| < WRAP) || !Serializes(serde, batch) then Failed
    else Done(h + |batch|, Extend(t, id, RowsOf(serde, batch, h + |batch|, clock)))
  }

  /** When a serial append commits. */
  ghost predicate Passes<M, B>(serde: Serde<M, B>, h: Version, expected: Check, batch: seq<Message<M>>) {
    && (expected.CheckExact? ==> h == expected.version)
    && 0 < h + |batch| < WRAP
    && Serializes(serde, batch)
  }

  /** Tables that differ from others by new rows at the end of one stream. */
  ghost predicate Extended<B>(t: Tables<B>, t': Tables<B>, id: StreamID, rows: seq<Row<B>>) {
    var h := Header(t, id);
    && TableInv(t) && TableInv(t')
    && (forall id' :: Header(t', id') == Header(t, id') + (if id' == id then |rows| else 0))
    && (forall id': StreamID, v: Version {:trigger (id', v) in t'.events} :: (id', v) in t'.events ==>
          if (id', v) in t.events then t'.events[(id', v)] == t.events[(id', v)]
          else id' == id && h < v <= h + |rows| && t'.events[(id', v)] == rows[v - h - 1])
  }

  /** The table invariant survives every committed append, whatever the batch. */
  lemma {:induction false} ExtendKeepsInv<B>(t: Tables<B>, id: StreamID, rows: seq<Row<B>>)
    requires TableInv(t) && 0 < Header(t, id) + |rows| < WRAP
    ensures TableInv(Extend(t, id, rows)) && Extended(t, Extend(t, id, rows), id, rows)
  {
    KeyedMeaning(id, Header(t, id), rows);
  }

  // ------------------------------------------------------------- queries

  /** With the invariant a query returns the contiguous rows from the selected version to the stream's. */
  lemma {:induction false} RowsAreContiguous<B>(t: Tables<B>, id: StreamID, from: Version, v: Version)
    requires TableInv(t)
    ensures var last := if v < Header(t, id) then v else Header(t, id);
            var rows := RowsUpTo(t, id, from, v);
            && |rows| == (if last <= Skipped(from) then 0 else last - Skipped(from))
            && forall k :: 0 <= k < |rows| ==>
                 && (id, Skipped(from) + k + 1) in t.events
                 && rows[k] == (Skipped(from) + k + 1, t.events[(id, Skipped(from) + k + 1)])
    decreases v
  {
    assert (id, 0) !in t.events;
    if v > 0 {
      RowsAreContiguous(t, id, from, v - 1);
      assert (id, v) in t.events <==> v <= Header(t, id);
    }
  }

  // ------------------------------------------------------------- refinement

  /** The database stands for the in-memory store: same lengths, same messages, same metadata but for the added keys. */
  ghost predicate Related<M, B>(serde: Serde<M, B>, t: Tables<B>, streams: Streams<Message<M>>) {
    && TableInv(t)
    && (forall id :: |StreamOf(streams, id)| == Header(t, id))
    && (forall id: StreamID, v: Version {:trigger (id, v) in t.events} :: (id, v) in t.events ==>
          RowStandsFor(serde, t.events[(id, v)], StreamOf(streams, id), v))
  }

  ghost predicate RowStandsFor<M, B>(serde: Serde<M, B>, row: Row<B>, log: seq<Message<M>>, v: nat) {
    && 1 <= v <= |log|
    && serde.de(row.event) == Some(log[v - 1].message)
    && Stripped(row.metadata) == Stripped(log[v - 1].metadata)
  }

  /** Bytes of these messages decode to the same messages. */
  ghost predicate RoundTrips<M, B>(serde: Serde<M, B>, batch: seq<Message<M>>) {
    forall i :: 0 <= i < |batch| ==>
                  && serde.ser(batch[i].message).Some?
                  && serde.de(serde.ser(batch[i].message).value) == Some(batch[i].message)
  }

  /**
   The answers to one append on related stores. The in-memory store accepts what
   PostgreSQL commits, with the same version; both refuse with the same conflict;
   and the only appends PostgreSQL fails while memory accepts them are the empty
   append to a missing stream, one that would take the stream to 2^32 events, and
   one with a message that does not serialize.
   */
  lemma {:induction false} AppendAnswers<M, B>(serde: Serde<M, B>, t: Tables<B>, streams: Streams<Message<M>>,
                                               id: StreamID, expected: Check, batch: seq<Message<M>>,
                                               clock: nat -> string)
    requires Header(t, id) == |StreamOf(streams, id)|
    ensures var pg := SerialAppend(t, serde, id, expected, batch, clock);
            var mem := AppendTo(streams, id, expected, batch);
            && (pg.Refused? <==> mem.Rejected?)
            && (pg.Refused? ==> pg.conflict == mem.conflict)
            && (pg.Failed? <==>
                  mem.Accepted? && (!(0 < |StreamOf(streams, id)| + |batch| < WRAP) || !Serializes(serde, batch)))
            && (pg.Done? ==> pg.version == mem.version)
  {
    SmallVersion(Header(t, id));
    if 0 < Header(t, id) + |batch| < WRAP {
      SmallVersion(Header(t, id) + |batch|);
    }
  }

  /** A committed append leaves the stores related. */
  lemma {:induction false} AppendKeepsRelated<M, B>(serde: Serde<M, B>, t: Tables<B>, streams: Streams<Message<M>>,
                                                    id: StreamID,
                                                    expected: Check, batch: seq<Message<M>>, clock: nat -> string,
                                                    t': Tables<B>)
    requires Related(serde, t, streams) && RoundTrips(serde, batch)
    requires 0 < Header(t, id) + |batch| < WRAP
    requires t' == Extend(t, id, RowsOf(serde, batch, Header(t, id) + |batch|, clock))
    requires AppendTo(streams, id, expected, batch).Accepted?
    ensures Related(serde, t', AppendTo(streams, id, expected, batch).streams)
  {
    AppendMeaning(streams, id, expected, batch);
    var rows := RowsOf(serde, batch, Header(t, id) + |batch|, clock);
    ExtendKeepsInv(t, id, rows);
    RowsStandForBatch(serde, batch, Header(t, id) + |batch|, clock);
    ExtendRelated(serde, t, t', streams, AppendTo(streams, id, expected, batch).streams, id, batch, rows);
  }

  lemma {:induction false} RowsStandForBatch<M, B>(serde: Serde<M, B>, batch: seq<Message<M>>, v: Version,
                                                   clock: nat -> string)
    requires RoundTrips(serde, batch)
    ensures var rows := RowsOf(serde, batch, v, clock);
            forall i :: 0 <= i < |batch| ==> RowStandsFor(serde, rows[i], batch, i + 1)
  {
    var rows := RowsOf(serde, batch, v, clock);
    forall i | 0 <= i < |batch|
      ensures RowStandsFor(serde, rows[i], batch, i + 1)
    {
      EnrichMeaning(batch[i].metadata, batch[i].metadata, clock(i), v);
    }
  }

  lemma {:induction false} StandsInLongerLog<M, B>(serde: Serde<M, B>, row: Row<B>, log: seq<Message<M>>,
                                                   more: seq<Message<M>>, v: nat)
    requires RowStandsFor(serde, row, log, v)
    ensures RowStandsFor(serde, row, log + more, v)
  {
  }

  lemma {:induction false} StandsAtTheEnd<M, B>(serde: Serde<M, B>, row: Row<B>, log: seq<Message<M>>,
                                                more: seq<Message<M>>, v: nat)
    requires RowStandsFor(serde, row, more, v)
    ensures RowStandsFor(serde, row, log + more, |log| + v)
  {
  }

  /** Each row of the extended tables stands for its event: an old row as before, a new one in the batch. */
  lemma {:induction false} RowRelated<M, B>(serde: Serde<M, B>, t: Tables<B>, t': Tables<B>, log: seq<Message<M>>,
                                            id: StreamID, batch: seq<Message<M>>, rows: seq<Row<B>>, id': StreamID,
                                            v: Version)
    requires Extended(t, t', id, rows) && |rows| == |batch| && |log| == Header(t, id') && (id', v) in t'.events
    requires forall i :: 0 <= i < |batch| ==> RowStandsFor(serde, rows[i], batch, i + 1)
    requires (id', v) in t.events ==> RowStandsFor(serde, t.events[(id', v)], log, v)
    ensures RowStandsFor(serde, t'.events[(id', v)], if id' == id then log + batch else log, v)
  {
    if (id', v) in t.events {
      StandsInLongerLog(serde, t.events[(id', v)], log, batch, v);
    } else {
      var k := v - Header(t, id);
      assert id' == id && t'.events[(id', v)] == rows[k - 1];
      StandsAtTheEnd(serde, rows[k - 1], log, batch, k);
    }
  }

  lemma {:induction false} ExtendRelated<M, B>(serde: Serde<M, B>, t: Tables<B>, t': Tables<B>,
                                               streams: Streams<Message<M>>, streams': Streams<Message<M>>,
                                               id: StreamID, batch: seq<Message<M>>, rows: seq<Row<B>>)
    requires Related(serde, t, streams) && Extended(t, t', id, rows) && |rows| == |batch|
    requires forall i :: 0 <= i < |batch| ==> RowStandsFor(serde, rows[i], batch, i + 1)
    requires StreamOf(streams', id) == StreamOf(streams, id) + batch
    requires forall other :: other != id ==> StreamOf(streams', other) == StreamOf(streams, other)
    ensures Related(serde, t', streams')
  {
    forall id': StreamID, v: Version | (id', v) in t'.events
      ensures RowStandsFor(serde, t'.events[(id', v)], StreamOf(streams', id'), v)
    {
      RowRelated(serde, t, t', StreamOf(streams, id'), id, batch, rows, id', v);
    }
  }

  /** Streaming from related stores yields the same versions and messages, from any selector. */
  lemma {:induction false} StreamRefines<M, B>(serde: Serde<M, B>, t: Tables<B>, streams: Streams<Message<M>>,
                                               id: StreamID, from: Version)
    requires Related(serde, t, streams)
    ensures var rows := QueryRows(t, id, from);
            var log := StreamOf(streams, id);
            var yielded := Selected(log, id, from, |log|);
            && |rows| == |yielded|
            && forall k :: 0 <= k < |rows| ==>
                 && rows[k].0 == yielded[k].version
                 && serde.de(rows[k].1.event) == Some(yielded[k].envelope.message)
                 && Stripped(rows[k].1.metadata) == Stripped(yielded[k].envelope.metadata)
  {
    RowsAreContiguous(t, id, from, 0xFFFF_FFFF);
    var log := StreamOf(streams, id);
    SelectedIsSuffix(log, id, from, |log|);
    var rows := QueryRows(t, id, from);
    forall k | 0 <= k < |rows|
      ensures RowStandsFor(serde, rows[k].1, log, rows[k].0)
    {
      assert (id, Skipped(from) + k + 1) in t.events;
    }
  }

  // ------------------------------------------------------------- histories

  /** One append; an aborted one lost its transaction at some statement or at commit. */
  datatype Op<M> = Op(id: StreamID, expected: Check, batch: seq<Message<M>>, aborted: bool)

  datatype Answer = Version(version: Version) | ConflictAnswer(conflict: ConflictError) | Error

  ghost function PgStep<M, B>(serde: Serde<M, B>, t: Tables<B>, op: Op<M>, clock: nat -> string): (Tables<B>, Answer) {
    if op.aborted then (t, Error)
    else
      match SerialAppend(t, serde, op.id, op.expected, op.batch, clock)
      case Done(v, t') => (t', Version(v))
      case Refused(c) => (t, ConflictAnswer(c))
      case Failed => (t, Error)
  }

  /** Which answer an append gets, and that it changes the tables only when it is given a version. */
  lemma {:induction false} StepAnswers<M, B>(serde: Serde<M, B>, t: Tables<B>, op: Op<M>, clock: nat -> string)
    ensures var h, (t', answer) := Header(t, op.id), PgStep(serde, t, op, clock);
            var conflicts := op.expected.CheckExact? && h != op.expected.version;
            && (answer.Version? <==> !op.aborted && Passes(serde, h, op.expected, op.batch))
            && (answer.Version? ==> answer.version == h + |op.batch| == Header(t', op.id))
            && (answer.ConflictAnswer? <==> !op.aborted && conflicts)
            && (answer.ConflictAnswer? ==> answer.conflict == ConflictError(op.expected.version, h))
            && (!answer.Version? ==> t' == t)
  {
  }

  ghost function MemStep<M>(streams: Streams<Message<M>>, op: Op<M>): (Streams<Message<M>>, Answer) {
    if op.aborted then (streams, Error)
    else
      match AppendTo(streams, op.id, op.expected, op.batch)
      case Accepted(v, streams') => (streams', Version(v))
      case Rejected(c) => (streams, ConflictAnswer(c))
  }

  ghost function PgRun<M, B>(serde: Serde<M, B>, ops: seq<Op<M>>, clock: nat -> string): (Tables<B>, seq<Answer>) {
    if ops == [] then (Tables(map[], map[], map[]), [])
    else
      var (t, answers) := PgRun(serde, ops[..|ops| - 1], clock);
      var (t', a) := PgStep(serde, t, ops[|ops| - 1], clock);
      (t', answers + [a])
  }

  ghost function MemRun<M>(ops: seq<Op<M>>): (Streams<Message<M>>, seq<Answer>) {
    if ops == [] then (map[], [])
    else
      var (streams, answers) := MemRun(ops[..|ops| - 1]);
      var (streams', a) := MemStep(streams, ops[|ops| - 1]);
      (streams', answers + [a])
  }

  /**
   Histories on which the two stores are comparable: no empty append to a missing
   stream and none to 2^32 events that memory would accept.
   */
  ghost predicate Comparable<M, B>(serde: Serde<M, B>, ops: seq<Op<M>>)
    decreases |ops|
  {
    ops != [] ==>
      && Comparable(serde, ops[..|ops| - 1])
      && var op := ops[|ops| - 1];
         && RoundTrips(serde, op.batch)
         && InRange(MemRun(ops[..|ops| - 1]).0, op)
  }

  ghost predicate InRange<M>(streams: Streams<Message<M>>, op: Op<M>) {
    !op.aborted && AppendTo(streams, op.id, op.expected, op.batch).Accepted? ==>
      0 < |StreamOf(streams, op.id)| + |op.batch| < WRAP
  }

  /** An append that memory accepts, in range and of messages that come back, commits and leaves the stores related. */
  lemma {:induction false} AcceptedRefines<M, B>(serde: Serde<M, B>, t: Tables<B>, streams: Streams<Message<M>>,
                                                 id: StreamID, expected: Check, batch: seq<Message<M>>,
                                                 clock: nat -> string)
    requires Related(serde, t, streams) && RoundTrips(serde, batch) && AppendTo(streams, id, expected, batch).Accepted?
    requires 0 < |StreamOf(streams, id)| + |batch| < WRAP
    ensures var pg, mem := SerialAppend(t, serde, id, expected, batch, clock), AppendTo(streams, id, expected, batch);
            pg.Done? && pg.version == mem.version && Related(serde, pg.tables, mem.streams)
  {
    assert Serializes(serde, batch);
    AppendAnswers(serde, t, streams, id, expected, batch, clock);
    AppendKeepsRelated(serde, t, streams, id, expected, batch, clock,
                       Extend(t, id, RowsOf(serde, batch, Header(t, id) + |batch|, clock)));
  }

  /** One append on related stores gives the same answer and leaves them related. */
  lemma {:induction false} StepRefines<M, B>(serde: Serde<M, B>, t: Tables<B>, streams: Streams<Message<M>>, op: Op<M>,
                                             clock: nat -> string)
    requires Related(serde, t, streams) && RoundTrips(serde, op.batch)
    requires InRange(streams, op)
    ensures PgStep(serde, t, op, clock).1 == MemStep(streams, op).1
    ensures Related(serde, PgStep(serde, t, op, clock).0, MemStep(streams, op).0)
  {
    if !op.aborted {
      if AppendTo(streams, op.id, op.expected, op.batch).Accepted? {
        AcceptedRefines(serde, t, streams, op.id, op.expected, op.batch, clock);
      } else {
        AppendAnswers(serde, t, streams, op.id, op.expected, op.batch, clock);
      }
    }
  }

  /**
   The PostgreSQL store refines the in-memory store: over every history of appends,
   with transactions aborting anywhere, the answers are the same and the database
   stands for the in-memory store.
   */
  lemma {:induction false} HistoryRefines<M, B>(serde: Serde<M, B>, ops: seq<Op<M>>, clock: nat -> string)
    requires Comparable(serde, ops)
    ensures PgRun(serde, ops, clock).1 == MemRun(ops).1
    ensures Related(serde, PgRun(serde, ops, clock).0, MemRun(ops).0)
  {
    if ops != [] {
      var front := ops[..|ops| - 1];
      HistoryRefines(serde, front, clock);
      StepRefines(serde, PgRun(serde, front, clock).0, MemRun(front).0, ops[|ops| - 1], clock);
    }
  }

  // ------------------------------------------------------------- batch boundaries

  /** The stream version recorded with an event. */
  ghost function RecordedVersion<B>(t: Tables<B>, id: StreamID, v: Version): nat
    requires (id, v) in t.events && OverallVersion in t.events[(id, v)].metadata
  {
    Atoi(t.events[(id, v)].metadata[OverallVersion])
  }

  /**
   The event at version v carries the version n of the last event of its batch:
   v <= n, the events from v to n all carry n, and n never decreases.
   */
  ghost predicate BatchesOk<B>(t: Tables<B>) {
    && (forall id: StreamID, v: Version {:trigger (id, v) in t.events} :: (id, v) in t.events ==>
          OverallVersion in t.events[(id, v)].metadata)
    && (forall id: StreamID, v: Version {:trigger (id, v) in t.events} :: (id, v) in t.events ==>
          v <= RecordedVersion(t, id, v) <= Header(t, id))
    && (forall id: StreamID, v: Version, w: Version {:trigger (id, v) in t.events, (id, w) in t.events} ::
          (id, v) in t.events && (id, w) in t.events && v <= w ==>
            && RecordedVersion(t, id, v) <= RecordedVersion(t, id, w)
            && (w <= RecordedVersion(t, id, v) ==> RecordedVersion(t, id, w) == RecordedVersion(t, id, v)))
  }

  /** The rows of a batch all carry the version after it, whatever metadata the callers supplied, each its own time. */
  lemma {:induction false} RowsCarryVersion<M, B>(serde: Serde<M, B>, batch: seq<Message<M>>, n: Version,
                                                  clock: nat -> string)
    requires Serializes(serde, batch)
    ensures var rows := RowsOf(serde, batch, n, clock);
            forall i :: 0 <= i < |rows| ==>
              && OverallVersion in rows[i].metadata && Atoi(rows[i].metadata[OverallVersion]) == n
              && RecordedAt in rows[i].metadata && rows[i].metadata[RecordedAt] == clock(i)
  {
    var rows := RowsOf(serde, batch, n, clock);
    forall i | 0 <= i < |rows|
      ensures OverallVersion in rows[i].metadata && Atoi(rows[i].metadata[OverallVersion]) == n
      ensures RecordedAt in rows[i].metadata && rows[i].metadata[RecordedAt] == clock(i)
    {
      EnrichMeaning(batch[i].metadata, batch[i].metadata, clock(i), n);
    }
  }

  /** Batch boundaries stay recoverable when a batch is added. */
  lemma {:induction false} ExtendKeepsBatches<B>(t: Tables<B>, t': Tables<B>, id: StreamID, rows: seq<Row<B>>)
    requires BatchesOk(t) && Extended(t, t', id, rows)
    requires forall i :: 0 <= i < |rows| ==>
               OverallVersion in rows[i].metadata && Atoi(rows[i].metadata[OverallVersion]) == Header(t, id) + |rows|
    ensures BatchesOk(t')
  {
    forall id': StreamID, v: Version | (id', v) in t'.events
      ensures OverallVersion in t'.events[(id', v)].metadata
      ensures RecordedVersion(t', id', v) ==
              if (id', v) in t.events then RecordedVersion(t, id', v) else Header(t, id) + |rows|
    {
    }
  }

  /** An append that commits keeps the table invariant and recoverable batch boundaries. */
  lemma {:induction false} SerialAppendKeeps<M, B>(t: Tables<B>, serde: Serde<M, B>, id: StreamID, expected: Check,
                                                   batch: seq<Message<M>>, clock: nat -> string)
    requires TableInv(t) && BatchesOk(t) && SerialAppend(t, serde, id, expected, batch, clock).Done?
    ensures var t' := SerialAppend(t, serde, id, expected, batch, clock).tables;
            TableInv(t') && BatchesOk(t') && t'.aggregates == t.aggregates && id in t'.streams
  {
    var r := SerialAppend(t, serde, id, expected, batch, clock);
    var rows := RowsOf(serde, batch, r.version, clock);
    ExtendKeepsInv(t, id, rows);
    RowsCarryVersion(serde, batch, r.version, clock);
    ExtendKeepsBatches(t, r.tables, id, rows);
  }

  /** The table invariant and batch boundaries hold after every history of appends, comparable or not. */
  lemma {:induction false} HistoryKeepsInv<M, B>(serde: Serde<M, B>, ops: seq<Op<M>>, clock: nat -> string)
    ensures TableInv(PgRun(serde, ops, clock).0)
    ensures BatchesOk(PgRun(serde, ops, clock).0)
  {
    if ops != [] {
      var front, op := ops[..|ops| - 1], ops[|ops| - 1];
      HistoryKeepsInv(serde, front, clock);
      var t := PgRun(serde, front, clock).0;
      if !op.aborted && SerialAppend(t, serde, op.id, op.expected, op.batch, clock).Done? {
        SerialAppendKeeps(t, serde, op.id, op.expected, op.batch, clock);
      }
    }
  }
}
