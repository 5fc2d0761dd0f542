/**
 What happens to a snapshot when a root is saved again after its save was refused.
 The runs of module PgSnapshots drop such roots; this is why.
 */
module PgReuse {
  import opened Options
  import opened Versions
  import opened EventStore
  import opened Aggregates
  import opened PgTables
  import opened PgSnapshots

  /**
   What saving a root again does after its save was refused, with whatever was
   recorded on it since. Its version still counts the events that were lost, so the
   save is accepted exactly when others appended as many. It then overwrites the
   snapshot with the root's own state at the stream's version, and the snapshot
   agrees with the log only if that state happens to be the fold of the log.
   */
  lemma {:induction false} ReusedRootOverwrites<S(!new), M(!new), B>(kit: Kit<S, M, B>, t: Tables<B>, r: Live<S, M>,
                                                                     more: seq<Message<M>>, state: S,
                                                                     clock: nat -> string)
    requires Sound(kit) && TableInv(t) && LiveOk(kit, t, r) && SaveOf(kit, t, r, clock).SaveRefused?
    requires kit.fitsState(state) && AllFit(kit, more) && kit.idOf(state) == kit.idOf(r.state)
    ensures var id, reused := kit.idOf(r.state), Live(state, Plus(r.version, |more|), more, r.base);
            var saved := SaveOf(kit, t, reused, clock);
            && (saved.SaveDone? <==> Header(t, id) == r.version && 0 < Header(t, id) + |more| < WRAP)
            && (saved.SaveDone? ==>
                  && TableInv(saved.tables) && id in saved.tables.aggregates
                  && Log(kit, saved.tables, id) == Log(kit, t, id) + Decoded(kit, more)
                  && saved.tables.aggregates[id].version == Header(saved.tables, id)
                  && kit.states.de(saved.tables.aggregates[id].state) == Some(kit.normState(state))
                  && (SnapshotOk(kit, saved.tables, id) <==>
                        Replay(Decoding(kit.agg), Log(kit, saved.tables, id)) == Applied(kit.normState(state), true)))
  {
    var id, reused := kit.idOf(r.state), Live(state, Plus(r.version, |more|), more, r.base);
    var saved := SaveOf(kit, t, reused, clock);
    MinusPlus(r.version, |more|);
    FittingSerializes(kit, more);
    assert SoundState(kit, state);
    if Header(t, id) == r.version && 0 < Header(t, id) + |more| < WRAP {
      SaveAfterAppend(t, kit.states, kit.messages, kit.typ, id, state, reused.version, more, clock);
    }
    if saved.SaveDone? {
      SaveShape(kit, t, reused, clock, saved.tables);
      SnapshotOkWhole(kit, saved.tables, id, state);
    }
  }

  /** When a snapshot that covers its whole stream agrees with it. */
  lemma {:induction false} SnapshotOkWhole<S, M, B>(kit: Kit<S, M, B>, t: Tables<B>, id: StreamID, state: S)
    requires TableInv(t) && SoundState(kit, state) && kit.fitsState(state) && kit.idOf(state) == id
    requires id in t.aggregates && t.aggregates[id].version == Header(t, id)
    requires kit.states.de(t.aggregates[id].state) == Some(kit.normState(state))
    ensures SnapshotOk(kit, t, id) <==>
            Replay(Decoding(kit.agg), Log(kit, t, id)) == Applied(kit.normState(state), true)
  {
    var log := Log(kit, t, id);
    assert log[..t.aggregates[id].version] == log;
  }

  // ------------------------------------------------------------- a run that shows it

  lemma {:induction false} RunOne<S, M, B>(kit: Kit<S, M, B>, actions: seq<Action<M>>, a: Action<M>,
                                           clock: nat -> string)
    ensures PgSnapshots.Run(kit, actions + [a], clock) == Act(kit, PgSnapshots.Run(kit, actions, clock), a, clock)
  {
    assert (actions + [a])[..|actions + [a]| - 1] == actions;
  }

  /** A message that a new root can record, and what the root is then. */
  ghost predicate Creates<S, M, B>(kit: Kit<S, M, B>, m: Message<M>) {
    kit.fits(m.message) && kit.agg.apply(kit.agg.zero, m.message).ok
  }

  ghost function Created<S, M, B>(kit: Kit<S, M, B>, m: Message<M>): Live<S, M> {
    Live(kit.agg.apply(kit.agg.zero, m.message).state, 1, [m], 0)
  }

  lemma {:induction false} UpdateTwice<T>(roots: map<nat, T>, r: nat, x: T, y: T)
    ensures roots[r := x][r := y] == roots[r := y]
  {
  }

  lemma {:induction false} ActsCreate<S, M, B>(kit: Kit<S, M, B>, w: Session<S, M, B>, r: nat, m: Message<M>,
                                               clock: nat -> string)
    requires Creates(kit, m)
    ensures Act(kit, Act(kit, w, NewRoot(r), clock), RecordOn(r, m), clock)
         == Session(w.tables, w.roots[r := Created(kit, m)])
  {
    var zero: Live<S, M> := Live(kit.agg.zero, 0, [], 0);
    assert zero.recorded + [m] == [m];
    UpdateTwice(w.roots, r, zero, Created(kit, m));
  }

  lemma {:induction false} RunCreates<S, M, B>(kit: Kit<S, M, B>, actions: seq<Action<M>>, r: nat, m: Message<M>,
                                               clock: nat -> string)
    requires Creates(kit, m)
    ensures var w := PgSnapshots.Run(kit, actions, clock);
            PgSnapshots.Run(kit, actions + [NewRoot(r)] + [RecordOn(r, m)], clock)
            == Session(w.tables, w.roots[r := Created(kit, m)])
  {
    ActsCreate(kit, PgSnapshots.Run(kit, actions, clock), r, m, clock);
    RunOne(kit, actions, NewRoot(r), clock);
    RunOne(kit, actions + [NewRoot(r)], RecordOn(r, m), clock);
  }

  /** A coherent root that is not outdated can be saved. */
  lemma {:induction false} UpToDateSaves<S(!new), M(!new), B>(kit: Kit<S, M, B>, t: Tables<B>, r: Live<S, M>,
                                                              clock: nat -> string) returns (t': Tables<B>)
    requires Sound(kit) && TableInv(t) && LiveOk(kit, t, r)
    requires Header(t, kit.idOf(r.state)) == r.base && 0 < r.base + |r.recorded| < WRAP
    ensures SaveOf(kit, t, r, clock) == SaveDone(t')
  {
    SaveChecksBase(kit, t, r, clock);
    t' := SaveOf(kit, t, r, clock).tables;
  }

  lemma {:induction false} LogOfOne<S(!new), M(!new), B>(kit: Kit<S, M, B>, log: seq<Option<M>>, m: Message<M>)
    requires Sound(kit) && kit.fits(m.message) && log == []
    ensures log + Decoded(kit, [m]) == [Some(kit.norm(m.message))]
  {
    assert SoundMessage(kit, m.message);
  }

  lemma {:induction false} SoundStateOf<S(!new), M(!new), B>(kit: Kit<S, M, B>, s: S)
    requires Sound(kit)
    ensures SoundState(kit, s)
  {
  }

  /** The first save of a stream leaves it with that one event. */
  lemma {:induction false} FirstSave<S(!new), M(!new), B>(kit: Kit<S, M, B>, t: Tables<B>, r: Live<S, M>, m: Message<M>,
                                                          clock: nat -> string, t': Tables<B>)
    requires Sound(kit) && TableInv(t) && r.recorded == [m] && kit.fits(m.message) && kit.fitsState(r.state)
    requires SaveOf(kit, t, r, clock) == SaveDone(t') && Header(t, kit.idOf(r.state)) == 0
    ensures TableInv(t') && Log(kit, t', kit.idOf(r.state)) == [Some(kit.norm(m.message))]
  {
    SoundStateOf(kit, r.state);
    SaveShape(kit, t, r, clock, t');
    LogOfOne(kit, Log(kit, t, kit.idOf(r.state)), m);
  }

  lemma {:induction false} ActSaves<S, M, B>(kit: Kit<S, M, B>, w: Session<S, M, B>, r: nat, clock: nat -> string,
                                             t': Tables<B>)
    requires r in w.roots && SaveOf(kit, w.tables, w.roots[r], clock) == SaveDone(t')
    ensures Act(kit, w, SaveRoot(r, false), clock)
         == Session(t', w.roots[r := w.roots[r].(recorded := [], base := w.roots[r].version)])
  {
  }

  /** Of two roots for the same missing stream the second is saved. */
  lemma {:induction false} SecondSaves<S(!new), M(!new), B>(kit: Kit<S, M, B>, w: Session<S, M, B>, id: StreamID,
                                                            m: Message<M>, clock: nat -> string)
    requires Sound(kit) && Inv(kit, w) && Header(w.tables, id) == 0 && Creates(kit, m)
    requires 0 in w.roots && 1 in w.roots && w.roots[1] == Created(kit, m) && kit.idOf(w.roots[1].state) == id
    ensures var w' := Act(kit, w, SaveRoot(1, false), clock);
            && TableInv(w'.tables) && 0 in w'.roots && w'.roots[0] == w.roots[0]
            && Log(kit, w'.tables, id) == [Some(kit.norm(m.message))]
  {
    var r := w.roots[1];
    assert LiveOk(kit, w.tables, r);
    var t' := UpToDateSaves(kit, w.tables, r, clock);
    FirstSave(kit, w.tables, r, m, clock, t');
    ActSaves(kit, w, 1, clock, t');
  }

  /** Two clients create the same stream and the second one saves. */
  lemma {:induction false} TwoCreate<S(!new), M(!new), B>(kit: Kit<S, M, B>, a: Message<M>, b: Message<M>,
                                                          clock: nat -> string) returns (actions: seq<Action<M>>)
    requires Sound(kit) && Creates(kit, a) && Creates(kit, b)
    requires kit.idOf(Created(kit, a).state) == kit.idOf(Created(kit, b).state)
    ensures var w, id := PgSnapshots.Run(kit, actions, clock), kit.idOf(Created(kit, a).state);
            && Inv(kit, w) && 0 in w.roots && w.roots[0] == Created(kit, a)
            && Log(kit, w.tables, id) == [Some(kit.norm(b.message))]
  {
    var first := [] + [NewRoot(0)] + [RecordOn(0, a)];
    var both := first + [NewRoot(1)] + [RecordOn(1, b)];
    actions := both + [SaveRoot(1, false)];
    RunCreates(kit, [], 0, a, clock);
    RunCreates(kit, first, 1, b, clock);
    RunOne(kit, both, SaveRoot(1, false), clock);
    RunKeepsInv(kit, both, clock);
    SecondSaves(kit, PgSnapshots.Run(kit, both, clock), kit.idOf(Created(kit, a).state), b, clock);
    RunKeepsInv(kit, actions, clock);
  }

  lemma {:induction false} ReplayOne<S, M, B>(kit: Kit<S, M, B>, m: M)
    ensures Replay(Decoding(kit.agg), [Some(m)]) == kit.agg.apply(kit.agg.zero, m)
  {
    FoldOne(Decoding(kit.agg), kit.agg.zero, [], Some(m));
    assert [] + [Some(m)] == [Some(m)];
  }

  /**
   A run, for any two different creations of one stream, after which a root whose
   save was refused is saved again, with nothing recorded, without an error: the
   loser's second save puts its own state into the snapshot of the winner's stream.
   */
  lemma {:induction false} SnapshotOverwritten<S(!new), M(!new), B>(kit: Kit<S, M, B>, a: Message<M>, b: Message<M>,
                                                                    clock: nat -> string)
      returns (actions: seq<Action<M>>)
    requires Sound(kit) && Creates(kit, a) && Creates(kit, b)
    requires kit.idOf(Created(kit, a).state) == kit.idOf(Created(kit, b).state)
    requires kit.normState(Created(kit, a).state) != kit.normState(Created(kit, b).state)
    ensures var w, id := PgSnapshots.Run(kit, actions, clock), kit.idOf(Created(kit, a).state);
            && 0 in w.roots && w.roots[0] == Created(kit, a)
            && SaveOf(kit, w.tables, w.roots[0], clock).SaveRefused?
            && var again := SaveOf(kit, w.tables, w.roots[0].(recorded := []), clock);
               && again.SaveDone? && TableInv(again.tables) && id in again.tables.aggregates
               && Log(kit, again.tables, id) == [Some(kit.norm(b.message))]
               && kit.states.de(again.tables.aggregates[id].state) == Some(kit.normState(Created(kit, a).state))
               && !SnapshotOk(kit, again.tables, id)
  {
    actions := TwoCreate(kit, a, b, clock);
    LoserOverwrites(kit, PgSnapshots.Run(kit, actions, clock).tables, a, b, clock);
  }

  lemma {:induction false} LoserOverwrites<S(!new), M(!new), B>(kit: Kit<S, M, B>, t: Tables<B>, a: Message<M>,
                                                                b: Message<M>, clock: nat -> string)
    requires Sound(kit) && Creates(kit, b) && TableInv(t) && LiveOk(kit, t, Created(kit, a))
    requires kit.normState(Created(kit, a).state) != kit.normState(Created(kit, b).state)
    requires var id := kit.idOf(Created(kit, a).state);
             Log(kit, t, id) == [Some(kit.norm(b.message))]
    ensures var id := kit.idOf(Created(kit, a).state);
            && SaveOf(kit, t, Created(kit, a), clock).SaveRefused?
            && var again := SaveOf(kit, t, Created(kit, a).(recorded := []), clock);
               && again.SaveDone? && TableInv(again.tables) && id in again.tables.aggregates
               && Log(kit, again.tables, id) == [Some(kit.norm(b.message))]
               && kit.states.de(again.tables.aggregates[id].state) == Some(kit.normState(Created(kit, a).state))
               && !SnapshotOk(kit, again.tables, id)
  {
    var loser := Created(kit, a);
    assert |Log(kit, t, kit.idOf(loser.state))| == 1;
    SaveChecksBase(kit, t, loser, clock);
    ReusedRootOverwrites(kit, t, loser, [], loser.state, clock);
    assert Plus(loser.version, 0) == loser.version;
    assert Log(kit, t, kit.idOf(loser.state)) + Decoded(kit, []) == [Some(kit.norm(b.message))];
    assert SoundApply(kit, kit.agg.zero, b.message);
    ReplayOne(kit, kit.norm(b.message));
  }
}
