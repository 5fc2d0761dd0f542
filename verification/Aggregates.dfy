/**
 Aggregate roots: the left fold that rebuilds a state from a log, the version and
 the uncommitted events that every root carries, and the repository that saves a
 root with an optimistic check on the version it was loaded at.
 */
module Aggregates {
  import opened Options
  import opened Versions
  import opened EventStore

  /** The state after Apply, and whether Apply returned no error. */
  datatype Applied<+S> = Applied(state: S, ok: bool)

  datatype Aggregate<!S, !E> = Aggregate(zero: S, apply: (S, E) -> Applied<S>)

  // ------------------------------------------------------------- folding

  /** Applies events in order and stops at the first error, as every loop over Apply does. */
  ghost function Fold<S, E>(agg: Aggregate<S, E>, s: S, events: seq<E>): Applied<S> {
    if events == [] then Applied(s, true)
    else
      var before := Fold(agg, s, events[..|events| - 1]);
      if before.ok then agg.apply(before.state, events[|events| - 1]) else before
  }

  /** Rebuilding a root from a stored log starts from the zero value. */
  ghost function Replay<S, E>(agg: Aggregate<S, E>, log: seq<E>): Applied<S> {
    Fold(agg, agg.zero, log)
  }

  lemma {:induction false} FoldSplit<S, E>(agg: Aggregate<S, E>, s: S, a: seq<E>, b: seq<E>)
    ensures Fold(agg, s, a).ok ==> Fold(agg, s, a + b) == Fold(agg, Fold(agg, s, a).state, b)
    ensures !Fold(agg, s, a).ok ==> Fold(agg, s, a + b) == Fold(agg, s, a)
  {
    if b == [] {
      assert a + b == a;
    } else {
      var last := |b| - 1;
      assert (a + b)[..|a + b| - 1] == a + b[..last];
      FoldSplit(agg, s, a, b[..last]);
    }
  }

  lemma {:induction false} FoldOne<S, E>(agg: Aggregate<S, E>, s: S, log: seq<E>, e: E)
    requires Fold(agg, s, log).ok
    ensures Fold(agg, s, log + [e]) == agg.apply(Fold(agg, s, log).state, e)
  {
    assert (log + [e])[..|log + [e]| - 1] == log;
  }

  /** Every prefix of a log that replays without error replays without error. */
  lemma {:induction false} FoldPrefix<S, E>(agg: Aggregate<S, E>, s: S, log: seq<E>, n: nat)
    requires n <= |log| && Fold(agg, s, log).ok
    ensures Fold(agg, s, log[..n]).ok
  {
    assert log == log[..n] + log[n..];
    FoldSplit(agg, s, log[..n], log[n..]);
  }

  // ------------------------------------------------------------- recording

  /** A root as a value: domain state, version, and events not committed yet. */
  datatype Root<S, E> = Root(state: S, version: Version, recorded: seq<E>)

  /** The number of events applied before the first one that fails. */
  ghost function AcceptedCount<S, E>(agg: Aggregate<S, E>, s: S, events: seq<E>): (k: nat)
    ensures k <= |events|
  {
    if events == [] then 0
    else
      var last := |events| - 1;
      var k := AcceptedCount(agg, s, events[..last]);
      if k == last && agg.apply(Fold(agg, s, events[..last]).state, events[last]).ok then k + 1 else k
  }

  lemma {:induction false} AcceptedCountMeaning<S, E>(agg: Aggregate<S, E>, s: S, events: seq<E>)
    ensures var k := AcceptedCount(agg, s, events);
            && Fold(agg, s, events[..k]).ok
            && (k < |events| ==> !agg.apply(Fold(agg, s, events[..k]).state, events[k]).ok)
            && (k == |events| <==> Fold(agg, s, events).ok)
  {
    if events != [] {
      var last := |events| - 1;
      AcceptedCountMeaning(agg, s, events[..last]);
      var k := AcceptedCount(agg, s, events[..last]);
      assert events[..last][..k] == events[..k];
      assert events[..|events|] == events;
    }
  }

  /** A prefix that folds and whose next event fails is as far as the fold gets. */
  lemma {:induction false} FoldStops<S, E>(agg: Aggregate<S, E>, s: S, events: seq<E>, i: nat)
    requires i < |events| && Fold(agg, s, events[..i]).ok
    requires !agg.apply(Fold(agg, s, events[..i]).state, events[i]).ok
    ensures Fold(agg, s, events) == agg.apply(Fold(agg, s, events[..i]).state, events[i])
  {
    FoldNext(agg, s, events, i);
    assert events == events[..i + 1] + events[i + 1..];
    FoldSplit(agg, s, events[..i + 1], events[i + 1..]);
  }

  lemma {:induction false} NotBeyond<S, E>(agg: Aggregate<S, E>, s: S, events: seq<E>, i: nat, k: nat)
    requires i <= |events| && k <= |events|
    requires Fold(agg, s, events[..i]).ok && Fold(agg, s, events[..k]).ok
    requires i < |events| ==> !agg.apply(Fold(agg, s, events[..i]).state, events[i]).ok
    ensures k <= i
  {
    if i < k {
      FoldNext(agg, s, events, i);
      assert events[..k][..i + 1] == events[..i + 1];
      FoldPrefix(agg, s, events[..k], i + 1);
    }
  }

  /** The number of accepted events is the only one at which the fold stops. */
  lemma {:induction false} AcceptedCountIs<S, E>(agg: Aggregate<S, E>, s: S, events: seq<E>, i: nat)
    requires i <= |events| && Fold(agg, s, events[..i]).ok
    requires i < |events| ==> !agg.apply(Fold(agg, s, events[..i]).state, events[i]).ok
    ensures AcceptedCount(agg, s, events) == i
  {
    AcceptedCountMeaning(agg, s, events);
    NotBeyond(agg, s, events, i, AcceptedCount(agg, s, events));
    NotBeyond(agg, s, events, AcceptedCount(agg, s, events), i);
  }

  /** One more event of a list. */
  lemma {:induction false} FoldNext<S, E>(agg: Aggregate<S, E>, s: S, events: seq<E>, i: nat)
    requires i < |events| && Fold(agg, s, events[..i]).ok
    ensures Fold(agg, s, events[..i + 1]) == agg.apply(Fold(agg, s, events[..i]).state, events[i])
  {
    FoldOne(agg, s, events[..i], events[i]);
    assert events[..i] + [events[i]] == events[..i + 1];
  }

  /**
   Recording applies each event and keeps those applied: a failure on a later
   event leaves the earlier ones recorded and counted in the version.
   */
  ghost function Record<S, E>(agg: Aggregate<S, E>, root: Root<S, E>, events: seq<E>): Root<S, E> {
    var k := AcceptedCount(agg, root.state, events);
    Root(Fold(agg, root.state, events).state, Plus(root.version, k), root.recorded + events[..k])
  }

  /** What recording leaves when it stops after i events. */
  lemma {:induction false} RecordStops<S, E>(agg: Aggregate<S, E>, root: Root<S, E>, events: seq<E>, i: nat)
    requires i <= |events| && Fold(agg, root.state, events[..i]).ok
    requires i < |events| ==> !agg.apply(Fold(agg, root.state, events[..i]).state, events[i]).ok
    ensures AcceptedCount(agg, root.state, events) == i
    ensures var s := Fold(agg, root.state, events[..i]).state;
            Record(agg, root, events)
            == Root(if i < |events| then agg.apply(s, events[i]).state else s,
                    Plus(root.version, i), root.recorded + events[..i])
  {
    AcceptedCountIs(agg, root.state, events, i);
    if i == |events| {
      assert events[..i] == events;
    } else {
      FoldStops(agg, root.state, events, i);
    }
  }

  /** An aggregate whose Apply leaves the state alone when it returns an error. */
  ghost predicate AtomicApply<S(!new), E(!new)>(agg: Aggregate<S, E>) {
    forall s, e :: !agg.apply(s, e).ok ==> agg.apply(s, e).state == s
  }

  /** With such an aggregate the state after a failed recording is the fold of exactly the events recorded. */
  lemma {:induction false} PartialRecording<S(!new), E(!new)>(agg: Aggregate<S, E>, root: Root<S, E>, events: seq<E>)
    requires AtomicApply(agg)
    ensures var after := Record(agg, root, events);
            var k := AcceptedCount(agg, root.state, events);
            && Applied(after.state, true) == Fold(agg, root.state, events[..k])
            && after.recorded == root.recorded + events[..k]
  {
    AcceptedCountMeaning(agg, root.state, events);
    RecordStops(agg, root, events, AcceptedCount(agg, root.state, events));
  }

  // ------------------------------------------------------------- saving

  /** The append made by a save: the expected version is the root's version less the recorded events. */
  function SaveTo<E>(streams: Streams<E>, id: StreamID, version: Version, recorded: seq<E>): Appended<E> {
    if recorded == [] then Accepted(version, streams)
    else AppendTo(streams, id, CheckExact(Minus(version, |recorded|)), recorded)
  }

  /** The bookkeeping embedded in every aggregate root. */
  class BaseRoot<E> {
    var version: Version
    var recordedEvents: seq<E>

    constructor ()
      ensures version == 0 && recordedEvents == []
    {
      version, recordedEvents := 0, [];
    }

    method FlushRecordedEvents() returns (flushed: seq<E>)
      modifies this
      ensures flushed == old(recordedEvents) && recordedEvents == [] && version == old(version)
    {
      flushed := recordedEvents;
      recordedEvents := [];
    }

    method SetVersion(v: Version)
      modifies this
      ensures version == v && recordedEvents == old(recordedEvents)
    {
      version := v;
    }

    /** The bookkeeping of one applied event. */
    method Track(event: E)
      modifies this
      ensures version == Plus(old(version), 1) && recordedEvents == old(recordedEvents) + [event]
    {
      recordedEvents := recordedEvents + [event];
      version := Plus(version, 1);
    }
  }

  /**
   Saves a root. The recorded events are flushed before the append is tried, so a
   failed save loses them while version (and state) stay advanced.
   */
  method Save<E>(store: InMemoryStore<E>, id: StreamID, root: BaseRoot<E>) returns (err: Option<ConflictError>)
    modifies store, root
    ensures root.recordedEvents == [] && root.version == old(root.version)
    ensures var r := SaveTo(old(store.events), id, old(root.version), old(root.recordedEvents));
            && err == (if r.Rejected? then Some(r.conflict) else None)
            && store.events == (if r.Accepted? then r.streams else old(store.events))
  {
    var events := root.FlushRecordedEvents();
    if |events| == 0 {
      return None;
    }
    var r := store.Append(id, CheckExact(Minus(root.version, |events|)), events);
    err := if r.Rejected? then Some(r.conflict) else None;
  }

  // ------------------------------------------------------------- coherence

  /**
   One root, the log of its stream, and whether every save of the root so far
   succeeded. Other writers may append to the log at any time.
   */
  datatype World<S, E> = World(root: Root<S, E>, log: seq<E>, reliable: bool)

  datatype Step<E> = RecordStep(events: seq<E>) | SaveStep | OthersStep(events: seq<E>)

  /** Whether a save returns without an error: the version less the recorded events is that of the log. */
  predicate SaveAccepted<S, E>(w: World<S, E>) {
    w.root.recorded == [] || ToVersion(|w.log|) == Minus(w.root.version, |w.root.recorded|)
  }

  ghost function Take<S, E>(agg: Aggregate<S, E>, w: World<S, E>, step: Step<E>): World<S, E> {
    match step
    case RecordStep(events) => w.(root := Record(agg, w.root, events))
    case OthersStep(events) => w.(log := w.log + events)
    case SaveStep =>
      World(w.root.(recorded := []),
            if SaveAccepted(w) then w.log + w.root.recorded else w.log,
            w.reliable && SaveAccepted(w))
  }

  /** A save of a run is the repository's save, to any store whose stream holds the log. */
  lemma {:induction false} SaveStepIsSave<S, E>(agg: Aggregate<S, E>, w: World<S, E>, streams: Streams<E>, id: StreamID)
    requires StreamOf(streams, id) == w.log
    ensures var r := SaveTo(streams, id, w.root.version, w.root.recorded);
            && (r.Accepted? <==> SaveAccepted(w))
            && StreamOf(if r.Accepted? then r.streams else streams, id) == Take(agg, w, SaveStep).log
  {
    if w.root.recorded == [] {
      assert w.log + w.root.recorded == w.log;
    }
  }

  ghost function Run<S, E>(agg: Aggregate<S, E>, w: World<S, E>, steps: seq<Step<E>>): World<S, E> {
    if steps == [] then w
    else Take(agg, Run(agg, w, steps[..|steps| - 1]), steps[|steps| - 1])
  }

  /** A root just returned by Get: the fold of the whole log, nothing recorded. */
  ghost predicate JustLoaded<S, E>(agg: Aggregate<S, E>, w: World<S, E>) {
    && w.reliable
    && Replay(agg, w.log).ok
    && w.root == Root(Replay(agg, w.log).state, ToVersion(|w.log|), [])
  }

  /** The root is the fold of the first `base` stored events followed by its recorded ones. */
  ghost predicate CoherentAt<S, E>(agg: Aggregate<S, E>, w: World<S, E>, base: nat) {
    && base <= |w.log|
    && Replay(agg, w.log[..base] + w.root.recorded) == Applied(w.root.state, true)
    && w.root.version == ToVersion(base + |w.root.recorded|)
  }

  lemma {:induction false} CoherentRecord<S(!new), E(!new)>(agg: Aggregate<S, E>, w: World<S, E>, base: nat,
                                                            events: seq<E>)
    requires AtomicApply(agg) && CoherentAt(agg, w, base)
    ensures CoherentAt(agg, Take(agg, w, RecordStep(events)), base)
  {
    var k := AcceptedCount(agg, w.root.state, events);
    PartialRecording(agg, w.root, events);
    var before := w.log[..base] + w.root.recorded;
    FoldSplit(agg, agg.zero, before, events[..k]);
    assert before + events[..k] == w.log[..base] + (w.root.recorded + events[..k]);
    PlusToVersion(base + |w.root.recorded|, k);
  }

  /**
   A save from a coherent root is accepted exactly when the log still ends where
   the root was loaded (up to 2^32), and then the log is the old log plus the
   recorded events.
   */
  lemma {:induction false} CoherentSave<S, E>(agg: Aggregate<S, E>, w: World<S, E>, base: nat)
    requires CoherentAt(agg, w, base) && w.root.recorded != []
    ensures var after := Take(agg, w, SaveStep);
            && (after.reliable <==> w.reliable && Congruent(|w.log|, base))
            && after.log == (if Congruent(|w.log|, base) then w.log + w.root.recorded else w.log)
    ensures base + |w.root.recorded| < WRAP ==>
              |w.root.recorded| <= w.root.version && Minus(w.root.version, |w.root.recorded|) == base
  {
    PlusToVersion(base, |w.root.recorded|);
    MinusPlus(ToVersion(base), |w.root.recorded|);
    SameVersion(|w.log|, base);
  }

  /** An accepted save on a log shorter than 2^32 leaves the root the fold of the whole new log. */
  lemma {:induction false} CoherentAfterSave<S, E>(agg: Aggregate<S, E>, w: World<S, E>, base: nat)
    requires CoherentAt(agg, w, base) && w.root.recorded != []
    requires Take(agg, w, SaveStep).reliable && |w.log| < WRAP
    ensures base == |w.log| && Take(agg, w, SaveStep).log == w.log + w.root.recorded
    ensures CoherentAt(agg, Take(agg, w, SaveStep), |w.log| + |w.root.recorded|)
  {
    CoherentSave(agg, w, base);
    SameVersion(|w.log|, base);
    var after := Take(agg, w, SaveStep);
    assert w.log[..base] == w.log;
    assert after.log[..|after.log|] + [] == w.log + w.root.recorded;
  }

  lemma {:induction false} CoherentOthers<S, E>(agg: Aggregate<S, E>, w: World<S, E>, base: nat, events: seq<E>)
    requires CoherentAt(agg, w, base)
    ensures CoherentAt(agg, Take(agg, w, OthersStep(events)), base)
  {
    assert (w.log + events)[..base] == w.log[..base];
  }

  lemma {:induction false} LogGrows<S, E>(agg: Aggregate<S, E>, w: World<S, E>, step: Step<E>)
    ensures w.log <= Take(agg, w, step).log
  {
  }

  /** One step of a coherent root. */
  lemma {:induction false} CoherentStep<S(!new), E(!new)>(agg: Aggregate<S, E>, w: World<S, E>, step: Step<E>,
                                                          base: nat) returns (base': nat)
    requires AtomicApply(agg) && CoherentAt(agg, w, base) && |w.log| < WRAP
    requires Take(agg, w, step).reliable
    ensures CoherentAt(agg, Take(agg, w, step), base') && base <= base'
  {
    base' := base;
    match step {
      case RecordStep(events) => CoherentRecord(agg, w, base, events);
      case OthersStep(events) => CoherentOthers(agg, w, base, events);
      case SaveStep =>
        if w.root.recorded == [] {
          assert w.log + [] == w.log;
        } else {
          CoherentAfterSave(agg, w, base);
          base' := |w.log| + |w.root.recorded|;
        }
    }
  }

  /** A root just loaded is coherent, and so is one that was never saved and has recorded nothing. */
  lemma {:induction false} StartsCoherent<S, E>(agg: Aggregate<S, E>, w: World<S, E>)
    ensures JustLoaded(agg, w) ==> CoherentAt(agg, w, |w.log|)
    ensures w.root == Root(agg.zero, 0, []) ==> CoherentAt(agg, w, 0)
  {
    assert w.log[..|w.log|] + [] == w.log;
    assert w.log[..0] + [] == [];
  }

  /**
   Root coherence over every run: from a coherent root, any sequence of recordings
   (that may fail part way), appends by others and saves keeps the root equal to a
   fold of stored events followed by recorded ones, as long as no save failed and
   the log stays shorter than 2^32. Its version is then the number of those events
   and the subtraction made by a save does not wrap, unless the events not saved
   yet reach 2^32 too.
   */
  lemma {:induction false} RootCoherence<S(!new), E(!new)>(agg: Aggregate<S, E>, w: World<S, E>, start: nat,
                                                           steps: seq<Step<E>>)
      returns (base: nat)
    requires AtomicApply(agg) && w.reliable && CoherentAt(agg, w, start)
    requires Run(agg, w, steps).reliable && |Run(agg, w, steps).log| < WRAP
    ensures CoherentAt(agg, Run(agg, w, steps), base) && start <= base
    ensures var root := Run(agg, w, steps).root;
            base + |root.recorded| < WRAP ==>
              root.version == base + |root.recorded| && Minus(root.version, |root.recorded|) == base
    ensures w.log <= Run(agg, w, steps).log
  {
    if steps == [] {
      base := start;
    } else {
      var before := Run(agg, w, steps[..|steps| - 1]);
      LogGrows(agg, before, steps[|steps| - 1]);
      assert |before.log| <= |Run(agg, w, steps).log|;
      base := RootCoherence(agg, w, start, steps[..|steps| - 1]);
      base := CoherentStep(agg, before, steps[|steps| - 1], base);
    }
    var root := Run(agg, w, steps).root;
    if base + |root.recorded| < WRAP {
      SmallVersion(base + |root.recorded|);
      MinusPlus(base, |root.recorded|);
      SmallVersion(|root.recorded|);
    }
  }

  // ------------------------------------------------------------- after a failed save

  /** The number of events that the saves of a run flushed, whatever came of them. */
  ghost function Flushed<S, E>(agg: Aggregate<S, E>, w: World<S, E>, steps: seq<Step<E>>): nat {
    if steps == [] then 0
    else
      var front := steps[..|steps| - 1];
      Flushed(agg, w, front) + (if steps[|steps| - 1].SaveStep? then |Run(agg, w, front).root.recorded| else 0)
  }

  /** A version keeps counting flushed events, whether or not they were stored. */
  lemma {:induction false} VersionCountsFlushed<S, E>(agg: Aggregate<S, E>, w: World<S, E>, base: nat,
                                                      steps: seq<Step<E>>)
    requires w.root.version == ToVersion(base + |w.root.recorded|)
    ensures var end := Run(agg, w, steps);
            end.root.version == ToVersion(base + Flushed(agg, w, steps) + |end.root.recorded|)
  {
    if steps != [] {
      var front := steps[..|steps| - 1];
      VersionCountsFlushed(agg, w, base, front);
      var before := Run(agg, w, front);
      if steps[|steps| - 1].RecordStep? {
        var k := AcceptedCount(agg, before.root.state, steps[|steps| - 1].events);
        PlusToVersion(base + Flushed(agg, w, front) + |before.root.recorded|, k);
      }
    }
  }

  /** A save from a root whose version counts `counted` events besides the recorded ones. */
  lemma {:induction false} SaveWhenCounted<S, E>(agg: Aggregate<S, E>, w: World<S, E>, counted: nat)
    requires w.root.version == ToVersion(counted + |w.root.recorded|)
    ensures var after := Take(agg, w, SaveStep);
            && (SaveAccepted(w) <==> w.root.recorded == [] || Congruent(|w.log|, counted))
            && after.log == (if SaveAccepted(w) then w.log + w.root.recorded else w.log)
            && after.root == w.root.(recorded := [])
  {
    if w.root.recorded != [] {
      PlusToVersion(counted, |w.root.recorded|);
      MinusPlus(ToVersion(counted), |w.root.recorded|);
      SameVersion(|w.log|, counted);
    }
  }

  /**
   When a save is accepted, in every run, whatever failed before it: when nothing
   is recorded, or when the log is as long (up to 2^32) as the root was when it
   was loaded plus all the events that its saves flushed since, stored or lost.
   */
  lemma {:induction false} SaveAfterAnyRun<S, E>(agg: Aggregate<S, E>, w: World<S, E>, base: nat, steps: seq<Step<E>>)
    requires w.root.version == ToVersion(base + |w.root.recorded|)
    ensures var before := Run(agg, w, steps);
            var after := Take(agg, before, SaveStep);
            && (SaveAccepted(before) <==>
                  before.root.recorded == [] || Congruent(|before.log|, base + Flushed(agg, w, steps)))
            && after.log == (if SaveAccepted(before) then before.log + before.root.recorded else before.log)
            && after.root == before.root.(recorded := [])
  {
    VersionCountsFlushed(agg, w, base, steps);
    SaveWhenCounted(agg, Run(agg, w, steps), base + Flushed(agg, w, steps));
  }

  /**
   Reusing a root after a failed save: events recorded on it afterwards are
   accepted exactly when others appended as many events as were lost (up to 2^32),
   before or after the failure. A second save that has nothing recorded returns no
   error, although the events of the first are in no log.
   */
  lemma {:induction false} ReuseAfterFailure<S, E>(agg: Aggregate<S, E>, w: World<S, E>, base: nat, more: seq<E>,
                                                   events: seq<E>)
    requires CoherentAt(agg, w, base) && !SaveAccepted(w)
    requires events != [] && Fold(agg, w.root.state, events).ok
    ensures var failed := Take(agg, w, SaveStep);
            var reused := Take(agg, Take(agg, failed, OthersStep(more)), RecordStep(events));
            var again := Take(agg, reused, SaveStep);
            && failed.log == w.log && failed.root == w.root.(recorded := [])
            && SaveAccepted(failed) && Take(agg, failed, SaveStep).log == w.log
            && (SaveAccepted(reused) <==> Congruent(|w.log| + |more|, base + |w.root.recorded|))
            && again.log == w.log + more + (if SaveAccepted(reused) then events else [])
            && again.root.state == Fold(agg, w.root.state, events).state
            && again.root.recorded == []
  {
    var lost := base + |w.root.recorded|;
    var failed := Take(agg, w, SaveStep);
    SaveWhenCounted(agg, w, base);
    SaveWhenCounted(agg, failed, lost);
    ReusedRoot(agg, failed, lost, more, events);
    var reused := Take(agg, Take(agg, failed, OthersStep(more)), RecordStep(events));
    ReusedSave(agg, reused, lost, |w.log| + |more|);
  }

  /** A root that lost its events, after it recorded others. */
  lemma {:induction false} ReusedRoot<S, E>(agg: Aggregate<S, E>, failed: World<S, E>, lost: nat, more: seq<E>,
                                            events: seq<E>)
    requires failed.root.recorded == [] && failed.root.version == ToVersion(lost)
    requires Fold(agg, failed.root.state, events).ok
    ensures Take(agg, Take(agg, failed, OthersStep(more)), RecordStep(events))
         == World(Root(Fold(agg, failed.root.state, events).state, ToVersion(lost + |events|), events),
                  failed.log + more, failed.reliable)
  {
    RecordAll(agg, failed.root, events);
    assert failed.root.recorded + events == events;
    PlusToVersion(lost, |events|);
  }

  /** Saving it. */
  lemma {:induction false} ReusedSave<S, E>(agg: Aggregate<S, E>, reused: World<S, E>, lost: nat, n: nat)
    requires reused.root.recorded != [] && reused.root.version == ToVersion(lost + |reused.root.recorded|)
    requires |reused.log| == n
    ensures SaveAccepted(reused) <==> Congruent(n, lost)
    ensures Take(agg, reused, SaveStep).log
         == reused.log + (if SaveAccepted(reused) then reused.root.recorded else [])
    ensures Take(agg, reused, SaveStep).root == reused.root.(recorded := [])
  {
    SaveWhenCounted(agg, reused, lost);
    assert reused.log + [] == reused.log;
  }

  /** Recording a list that applies without error. */
  lemma {:induction false} RecordAll<S, E>(agg: Aggregate<S, E>, root: Root<S, E>, events: seq<E>)
    requires Fold(agg, root.state, events).ok
    ensures Record(agg, root, events)
         == Root(Fold(agg, root.state, events).state, Plus(root.version, |events|), root.recorded + events)
  {
    assert events[..|events|] == events;
    RecordStops(agg, root, events, |events|);
  }

  lemma {:induction false} RunTwo<S, E>(agg: Aggregate<S, E>, w: World<S, E>, a: Step<E>, b: Step<E>)
    ensures Run(agg, w, [a, b]) == Take(agg, Take(agg, w, a), b)
  {
    assert [a][..0] == [] && [a, b][..1] == [a];
    assert Run(agg, w, [a]) == Take(agg, w, a);
  }

  lemma {:induction false} RunOne<S, E>(agg: Aggregate<S, E>, w: World<S, E>, steps: seq<Step<E>>, step: Step<E>)
    ensures Run(agg, w, steps + [step]) == Take(agg, Run(agg, w, steps), step)
  {
    assert (steps + [step])[..|steps + [step]| - 1] == steps;
  }

  lemma {:induction false} RecordOne<S, E>(agg: Aggregate<S, E>, root: Root<S, E>, e: E)
    requires agg.apply(root.state, e).ok
    ensures Record(agg, root, [e]) == Root(agg.apply(root.state, e).state, Plus(root.version, 1), root.recorded + [e])
  {
    assert [] + [e] == [e] && [e][..1] == [e];
    FoldOne(agg, root.state, [], e);
  }

  /** A root that lost its creation to another client records one more event and saves again. */
  lemma {:induction false} StaleReuse<S, E>(agg: Aggregate<S, E>, w: World<S, E>, a: E, b: E, e: E)
    requires agg.apply(agg.zero, a).ok && agg.apply(agg.apply(agg.zero, a).state, e).ok
    requires w == World(Root(agg.apply(agg.zero, a).state, 1, [a]), [b], true)
    ensures var failed := Take(agg, w, SaveStep);
            var reused := Take(agg, failed, RecordStep([e]));
            && !SaveAccepted(w) && SaveAccepted(reused) && reused.root.recorded == [e] && reused.log == [b]
            && Take(agg, reused, SaveStep)
               == World(Root(agg.apply(agg.apply(agg.zero, a).state, e).state, 2, []), [b, e], false)
  {
    CoherentFirst(agg, w, a);
    CoherentSave(agg, w, 0);
    FoldOne(agg, w.root.state, [], e);
    assert [] + [e] == [e] && w.log + [] == w.log && w.log + [e] == [b, e];
    ReuseAfterFailure(agg, w, 0, [], [e]);
    assert Take(agg, Take(agg, w, SaveStep), OthersStep([])) == Take(agg, w, SaveStep);
    RecordOne(agg, w.root.(recorded := []), e);
  }

  /**
   A run in which a reused root is accepted on a stream it never read: two clients
   create the same stream, the loser keeps its root and saves again. The log then
   folds to the winner's state with that event, and the root to the loser's.
   */
  lemma {:induction false} StaleRootAccepted<S, E>(agg: Aggregate<S, E>, a: E, b: E, e: E) returns (steps: seq<Step<E>>)
    requires agg.apply(agg.zero, a).ok && agg.apply(agg.apply(agg.zero, a).state, e).ok && agg.apply(agg.zero, b).ok
    ensures var w := World(Root(agg.zero, 0, []), [], true);
            var end := Run(agg, w, steps);
            && JustLoaded(agg, w)
            && |steps| == 5 && steps[2] == steps[4] == SaveStep
            && !SaveAccepted(Run(agg, w, steps[..2])) && SaveAccepted(Run(agg, w, steps[..4]))
            && Run(agg, w, steps[..2]).root.recorded == [a]
            && Run(agg, w, steps[..4]).root.recorded == [e] && Run(agg, w, steps[..4]).log == [b]
            && end.log == [b, e]
            && end.root.state == agg.apply(agg.apply(agg.zero, a).state, e).state
            && Replay(agg, end.log) == agg.apply(agg.apply(agg.zero, b).state, e)
  {
    var w: World<S, E> := World(Root(agg.zero, 0, []), [], true);
    var creations := [RecordStep([a]), OthersStep([b])];
    BothCreate(agg, w, a, b);
    StaleReuse(agg, Run(agg, w, creations), a, b, e);
    steps := RunThree(agg, w, creations, SaveStep, RecordStep([e]), SaveStep);
    ReplayPair(agg, b, e);
  }

  lemma {:induction false} BothCreate<S, E>(agg: Aggregate<S, E>, w: World<S, E>, a: E, b: E)
    requires w == World(Root(agg.zero, 0, []), [], true) && agg.apply(agg.zero, a).ok
    ensures Run(agg, w, [RecordStep([a]), OthersStep([b])])
         == World(Root(agg.apply(agg.zero, a).state, 1, [a]), [b], true)
  {
    RunTwo(agg, w, RecordStep([a]), OthersStep([b]));
    RecordOne(agg, w.root, a);
    assert w.root.recorded + [a] == [a] && w.log + [b] == [b];
  }

  lemma {:induction false} RunThree<S, E>(agg: Aggregate<S, E>, w: World<S, E>, front: seq<Step<E>>, a: Step<E>,
                                          b: Step<E>, c: Step<E>) returns (steps: seq<Step<E>>)
    ensures steps == front + [a] + [b] + [c]
    ensures steps[..|front|] == front && steps[..|front| + 2] == front + [a] + [b]
    ensures Run(agg, w, front + [a] + [b]) == Take(agg, Take(agg, Run(agg, w, front), a), b)
    ensures Run(agg, w, steps) == Take(agg, Take(agg, Take(agg, Run(agg, w, front), a), b), c)
  {
    RunOne(agg, w, front, a);
    RunOne(agg, w, front + [a], b);
    RunOne(agg, w, front + [a] + [b], c);
    steps := front + [a] + [b] + [c];
  }

  lemma {:induction false} CoherentFirst<S, E>(agg: Aggregate<S, E>, w: World<S, E>, e: E)
    requires agg.apply(agg.zero, e).ok
    requires w.root == Root(agg.apply(agg.zero, e).state, 1, [e])
    ensures CoherentAt(agg, w, 0)
  {
    FoldOne(agg, agg.zero, [], e);
    assert w.log[..0] + [e] == [] + [e];
  }

  lemma {:induction false} ReplayPair<S, E>(agg: Aggregate<S, E>, e1: E, e2: E)
    requires agg.apply(agg.zero, e1).ok
    ensures Replay(agg, [e1, e2]) == agg.apply(agg.apply(agg.zero, e1).state, e2)
  {
    assert [] + [e1] == [e1] && [e1] + [e2] == [e1, e2];
    FoldOne(agg, agg.zero, [], e1);
    FoldOne(agg, agg.zero, [e1], e2);
  }
}
