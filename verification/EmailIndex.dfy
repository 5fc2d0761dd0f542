/**
 The projection of users by email: two maps updated by every user event. The
 reference is replay: what the index answers is compared with the fold of each
 user's own events.
 */
module EmailIndex {
  import opened Options
  import opened Versions
  import opened EventStore
  import opened Aggregates
  import opened Users

  /** What a query returns about a user. */
  datatype UserView = UserView(id: StreamID, email: string, firstName: string, lastName: string,
                               birthDate: Time, version: Version)

  datatype Index = Index(data: map<string, UserView>, idToEmail: map<StreamID, string>)

  datatype ProcessError = UnexpectedType | UnknownID | UnknownView | UnexpectedKind

  datatype Projected = Projected(index: Index, err: Option<ProcessError>)

  const EMPTY := Index(map[], map[])

  /** One event. Old emails keep their entries, and an update keeps the version of the view it moves. */
  function Project(ix: Index, evt: Persisted<UserEvent>): Projected {
    match evt.envelope
    case Foreign => Projected(ix, Some(UnexpectedType))
    case Event(id, _, kind) =>
      match kind
      case WasCreated(first, last, birth, email) =>
        Projected(Index(ix.data[email := UserView(id, email, first, last, birth, evt.version)],
                        ix.idToEmail[id := email]), None)
      case EmailWasUpdated(email) =>
        if id !in ix.idToEmail then Projected(ix, Some(UnknownID))
        else if ix.idToEmail[id] !in ix.data then Projected(ix, Some(UnknownView))
        else
          var view := ix.data[ix.idToEmail[id]];
          if view.version >= evt.version then Projected(ix, None)
          else Projected(Index(ix.data[email := view.(email := email)], ix.idToEmail[id := email]), None)
      case Other => Projected(ix, Some(UnexpectedKind))
  }

  class GetByEmailHandler {
    var data: map<string, UserView>
    var idToEmail: map<StreamID, string>

    constructor ()
      ensures Value() == EMPTY
    {
      data, idToEmail := map[], map[];
    }

    ghost function Value(): Index
      reads this
    {
      Index(data, idToEmail)
    }

    method Handle(email: string) returns (r: Option<UserView>)
      ensures r == Lookup(Value(), email)
    {
      r := if email in data then Some(data[email]) else None;
    }

    /** An event that is refused changes nothing. */
    method Process(evt: Persisted<UserEvent>) returns (err: Option<ProcessError>)
      modifies this
      ensures Projected(Value(), err) == Project(old(Value()), evt)
    {
      if evt.envelope.Foreign? {
        return Some(UnexpectedType);
      }
      var id := evt.envelope.id;
      match evt.envelope.kind {
        case WasCreated(first, last, birth, email) =>
          idToEmail := idToEmail[id := email];
          data := data[email := UserView(id, email, first, last, birth, evt.version)];
        case EmailWasUpdated(email) =>
          if id !in idToEmail {
            return Some(UnknownID);
          }
          var previousEmail := idToEmail[id];
          if previousEmail !in data {
            return Some(UnknownView);
          }
          var view := data[previousEmail];
          if view.version >= evt.version {
            return None;
          }
          view := view.(email := email);
          idToEmail := idToEmail[id := view.email];
          data := data[view.email := view];
        case Other => return Some(UnexpectedKind);
      }
      err := None;
    }
  }

  function Lookup(ix: Index, email: string): Option<UserView> {
    if email in ix.data then Some(ix.data[email]) else None
  }

  // ------------------------------------------------------------- histories

  type History = seq<Persisted<UserEvent>>

  /** The index after a history, and the first error met. */
  function After(h: History): Projected {
    if h == [] then Projected(EMPTY, None)
    else
      var before := After(h[..|h| - 1]);
      if before.err.Some? then before else Project(before.index, h[|h| - 1])
  }

  /** The next event of an in-order interleaving of streams that start with their only creation. */
  predicate Follows(h: History, evt: Persisted<UserEvent>) {
    && evt.envelope.Event? && !evt.envelope.kind.Other?
    && evt.envelope.id == evt.streamID
    && evt.version == |EventsOf(h, evt.streamID)| + 1
    && (evt.envelope.kind.WasCreated? <==> evt.version == 1)
  }

  predicate InOrder(h: History) {
    h == [] || (InOrder(h[..|h| - 1]) && Follows(h[..|h| - 1], h[|h| - 1]))
  }

  /**
   Interleavings of streams that the domain methods of a user write, each event
   with the version of its place in its stream, are in order.
   */
  lemma {:induction false} ProducedIsInOrder(h: History)
    requires forall id :: UserProduced(id, EventsOf(h, id))
    requires forall i :: 0 <= i < |h| ==> h[i].version == |EventsOf(h[..i], h[i].streamID)| + 1
    ensures InOrder(h)
  {
    if h != [] {
      var h', last := h[..|h| - 1], h[|h| - 1];
      forall id
        ensures UserProduced(id, EventsOf(h', id))
      {
        assert UserProduced(id, EventsOf(h, id));
        if last.streamID == id {
          assert EventsOf(h, id)[..|EventsOf(h, id)| - 1] == EventsOf(h', id);
        } else {
          assert EventsOf(h, id) == EventsOf(h', id);
        }
      }
      forall i | 0 <= i < |h'|
        ensures h'[i].version == |EventsOf(h'[..i], h'[i].streamID)| + 1
      {
        assert h'[..i] == h[..i] && h'[i] == h[i];
      }
      ProducedIsInOrder(h');
      UserProducedMeaning(last.streamID, EventsOf(h, last.streamID));
      assert EventsOf(h, last.streamID)[|EventsOf(h', last.streamID)|] == last.envelope;
    }
  }

  predicate Exists(h: History, id: StreamID) {
    EventsOf(h, id) != []
  }

  /** A user rebuilt from its own events. */
  ghost function Replayed(h: History, id: StreamID): UserState {
    Replay(USER, EventsOf(h, id)).state
  }

  /** No two users hold the same email at the end of a history. */
  ghost predicate DistinctNow(h: History) {
    forall id, other ::
      Exists(h, id) && Exists(h, other) && id != other ==> Replayed(h, id).email != Replayed(h, other).email
  }

  ghost predicate AlwaysDistinct(h: History) {
    h == [] || (AlwaysDistinct(h[..|h| - 1]) && DistinctNow(h))
  }

  /** The view that replay gives for a user, with the version of its creation. */
  ghost function ReplayedView(h: History, id: StreamID): UserView {
    var s := Replayed(h, id);
    UserView(id, s.email, s.firstName, s.lastName, s.birthDate, 1)
  }

  /** Every user is found under its current email, with the fields that replay gives. */
  ghost predicate Agrees(ix: Index, h: History) {
    forall id :: Exists(h, id) ==> Lookup(ix, Replayed(h, id).email) == Some(ReplayedView(h, id))
  }

  ghost predicate AlwaysAgrees(h: History) {
    h == [] || (AlwaysAgrees(h[..|h| - 1]) && Agrees(After(h).index, h))
  }

  // ------------------------------------------------------------- one event

  /** What one more event does to the rebuilt users. */
  lemma {:induction false} ReplayedNext(h: History, id: StreamID)
    requires h != [] && InOrder(h)
    requires Replay(USER, EventsOf(h[..|h| - 1], id)).ok
    ensures Replay(USER, EventsOf(h, id)).ok
    ensures var last := h[|h| - 1];
            Replayed(h, id) ==
            (if last.streamID == id then ApplyUser(Replayed(h[..|h| - 1], id), last.envelope).state
             else Replayed(h[..|h| - 1], id))
  {
    var last := h[|h| - 1];
    if last.streamID == id {
      FoldOne(USER, ZERO_USER, EventsOf(h[..|h| - 1], id), last.envelope);
    } else {
      assert EventsOf(h, id) == EventsOf(h[..|h| - 1], id);
    }
  }

  /** Every user of an in-order history replays and carries its own identifier. */
  lemma {:induction false} UserReplays(h: History, id: StreamID)
    requires InOrder(h)
    ensures Replay(USER, EventsOf(h, id)).ok
    ensures Exists(h, id) ==> Replayed(h, id).id == id
  {
    if h != [] {
      UserReplays(h[..|h| - 1], id);
      ReplayedNext(h, id);
    }
  }

  /** The index knows exactly the users there are, each by its current email. */
  ghost predicate KnowsUsers(ix: Index, h: History) {
    forall id ::
      && (id in ix.idToEmail <==> Exists(h, id))
      && (Exists(h, id) ==> ix.idToEmail[id] == Replayed(h, id).email)
  }

  /** The email carried by an event that the projection processes. */
  function EmailOf(evt: Persisted<UserEvent>): string
    requires evt.envelope.Event? && !evt.envelope.kind.Other?
  {
    evt.envelope.kind.email
  }

  /** An event touches the entry of its own email only. */
  lemma {:induction false} OtherEntries(ix: Index, evt: Persisted<UserEvent>, email: string)
    requires evt.envelope.Event? && !evt.envelope.kind.Other? && EmailOf(evt) != email
    ensures Lookup(Project(ix, evt).index, email) == Lookup(ix, email)
  {
  }

  /** One event, seen from the user it belongs to. */
  lemma {:induction false} OwnNext(h: History, ix: Index)
    requires h != [] && InOrder(h) && KnowsUsers(ix, h[..|h| - 1]) && Agrees(ix, h[..|h| - 1])
    ensures Follows(h[..|h| - 1], h[|h| - 1])
    ensures var last := h[|h| - 1];
            var u, r := last.streamID, Project(ix, last);
            && r.err == None && r.index.idToEmail == ix.idToEmail[u := EmailOf(last)]
            && Exists(h, u) && Replayed(h, u).email == EmailOf(last)
            && Lookup(r.index, EmailOf(last)) == Some(ReplayedView(h, u))
  {
    var h', last := h[..|h| - 1], h[|h| - 1];
    var u := last.streamID;
    UserReplays(h', u);
    ReplayedNext(h, u);
    if Exists(h', u) {
      assert Lookup(ix, Replayed(h', u).email) == Some(ReplayedView(h', u));
    }
  }

  /** One step of the agreement proof. */
  lemma {:induction false} AgreesNext(h: History, ix: Index)
    requires h != [] && InOrder(h) && DistinctNow(h)
    requires KnowsUsers(ix, h[..|h| - 1]) && Agrees(ix, h[..|h| - 1])
    ensures var r := Project(ix, h[|h| - 1]);
            r.err == None && KnowsUsers(r.index, h) && Agrees(r.index, h)
  {
    var h', last := h[..|h| - 1], h[|h| - 1];
    var u, r := last.streamID, Project(ix, last);
    OwnNext(h, ix);
    forall id | id != u
      ensures Exists(h, id) == Exists(h', id) && Replayed(h, id) == Replayed(h', id)
      ensures Exists(h, id) ==> Lookup(r.index, Replayed(h, id).email) == Some(ReplayedView(h, id))
    {
      assert EventsOf(h, id) == EventsOf(h', id);
      if Exists(h, id) {
        OtherEntries(ix, last, Replayed(h, id).email);
      }
    }
  }

  // ------------------------------------------------------------- all histories

  /**
   The index agrees with replay: after any in-order interleaving of user streams
   in which no two users ever hold the same email at once, every event was
   processed without error, and looking up a user's current email gives the
   replayed fields with the version of the creation.
   */
  lemma {:induction false} IndexAgreesWithReplay(h: History)
    requires InOrder(h) && AlwaysDistinct(h)
    ensures After(h).err == None && KnowsUsers(After(h).index, h) && Agrees(After(h).index, h)
  {
    if h != [] {
      IndexAgreesWithReplay(h[..|h| - 1]);
      AgreesNext(h, After(h[..|h| - 1]).index);
    }
  }

  /** The condition is exact: the index agrees with replay all along just when emails are distinct all along. */
  lemma {:induction false} AgreesExactlyWhenDistinct(h: History)
    requires InOrder(h)
    ensures AlwaysAgrees(h) <==> AlwaysDistinct(h)
  {
    if h != [] {
      AgreesExactlyWhenDistinct(h[..|h| - 1]);
      if AlwaysDistinct(h) {
        IndexAgreesWithReplay(h);
      }
      if AlwaysAgrees(h) {
        forall id, other | Exists(h, id) && Exists(h, other) && id != other
          ensures Replayed(h, id).email != Replayed(h, other).email
        {
          assert ReplayedView(h, id).id == id && ReplayedView(h, other).id == other by {
            UserReplays(h, id);
            UserReplays(h, other);
          }
          assert Lookup(After(h).index, Replayed(h, id).email) == Some(ReplayedView(h, id));
          assert Lookup(After(h).index, Replayed(h, other).email) == Some(ReplayedView(h, other));
        }
      }
    }
  }

  lemma {:induction false} EventAt(h: History, j: nat)
    requires InOrder(h) && j < |h|
    ensures Follows(h[..j], h[j]) && Exists(h, h[j].streamID)
  {
    if j < |h| - 1 {
      EventAt(h[..|h| - 1], j);
      assert h[..|h| - 1][..j] == h[..j];
    }
  }

  /** What an old email key leads to: the user that took it last, under that email, as that user is now called. */
  function LastTaker(h: History, email: string): Option<StreamID>
    requires InOrder(h)
  {
    if h == [] then None
    else if EmailOf(h[|h| - 1]) == email then Some(h[|h| - 1].streamID)
    else LastTaker(h[..|h| - 1], email)
  }

  ghost predicate EntryIs(ix: Index, h: History, email: string)
    requires InOrder(h)
  {
    match LastTaker(h, email)
    case None => email !in ix.data
    case Some(u) => Exists(h, u) && Lookup(ix, email) == Some(ReplayedView(h, u).(email := email))
  }

  lemma {:induction false} NamesNeverChange(h: History, id: StreamID)
    requires h != [] && InOrder(h) && Exists(h[..|h| - 1], id)
    ensures Exists(h, id)
    ensures Replayed(h, id) == Replayed(h[..|h| - 1], id).(email := Replayed(h, id).email)
  {
    UserReplays(h[..|h| - 1], id);
    ReplayedNext(h, id);
    if h[|h| - 1].streamID == id {
      assert !h[|h| - 1].envelope.kind.WasCreated?;
    }
  }

  /** After an event, the entry of its email is the view of its user. */
  lemma {:induction false} OwnEntry(h: History)
    requires h != [] && InOrder(h) && AlwaysDistinct(h)
    ensures Follows(h[..|h| - 1], h[|h| - 1]) && Exists(h, h[|h| - 1].streamID)
    ensures Replayed(h, h[|h| - 1].streamID).email == EmailOf(h[|h| - 1])
    ensures Lookup(After(h).index, EmailOf(h[|h| - 1])) == Some(ReplayedView(h, h[|h| - 1].streamID))
  {
    IndexAgreesWithReplay(h[..|h| - 1]);
    OwnNext(h, After(h[..|h| - 1]).index);
  }

  /** An old entry still stands for its user, whose names are what they were. */
  lemma {:induction false} OldEntry(h: History, u: StreamID, email: string)
    requires h != [] && InOrder(h) && Exists(h[..|h| - 1], u)
    ensures Exists(h, u)
    ensures ReplayedView(h, u).(email := email) == ReplayedView(h[..|h| - 1], u).(email := email)
  {
    NamesNeverChange(h, u);
  }

  /**
   The whole content of the index: it has an entry for every email ever used and
   no other, and each entry is the view of the user that took the email last,
   even long after that user moved to another email.
   */
  lemma {:induction false} EveryEntry(h: History, email: string)
    requires InOrder(h) && AlwaysDistinct(h)
    ensures EntryIs(After(h).index, h, email)
  {
    if h != [] {
      var h', last := h[..|h| - 1], h[|h| - 1];
      OwnEntry(h);
      if EmailOf(last) != email {
        EveryEntry(h', email);
        IndexAgreesWithReplay(h');
        OtherEntries(After(h').index, last, email);
        assert After(h).index == Project(After(h').index, last).index;
        var taker := LastTaker(h', email);
        if taker.Some? {
          OldEntry(h, taker.value, email);
        }
      }
    }
  }

  // ------------------------------------------------------------- refusals

  /** Some event of a history created a user. */
  ghost predicate WasEverCreated(h: History, id: StreamID) {
    exists i :: 0 <= i < |h| && h[i].envelope.Event? && h[i].envelope.id == id && h[i].envelope.kind.WasCreated?
  }

  /** The index knows exactly the users that were created, in any history, and has an entry for each one's email. */
  lemma {:induction false} KnowsTheCreated(h: History)
    requires After(h).err == None
    ensures forall id :: id in After(h).index.idToEmail <==> WasEverCreated(h, id)
    ensures forall id :: id in After(h).index.idToEmail ==> After(h).index.idToEmail[id] in After(h).index.data
  {
    if h != [] {
      var h', last := h[..|h| - 1], h[|h| - 1];
      KnowsTheCreated(h');
      forall id
        ensures WasEverCreated(h, id) <==>
                || WasEverCreated(h', id)
                || (last.envelope.Event? && last.envelope.id == id && last.envelope.kind.WasCreated?)
      {
        if WasEverCreated(h', id) {
          var i :| 0 <= i < |h'| && h'[i].envelope.Event? && h'[i].envelope.id == id && h'[i].envelope.kind.WasCreated?;
          assert h[i] == h'[i];
        }
        if last.envelope.Event? && last.envelope.id == id && last.envelope.kind.WasCreated? {
          assert h[|h| - 1] == last;
        }
      }
    }
  }

  /** Which events an index refuses, whatever it holds, and that it does not change then. */
  lemma {:induction false} RefusedExactly(ix: Index, evt: Persisted<UserEvent>)
    ensures var e, r := evt.envelope, Project(ix, evt);
            && (r.err == Some(UnexpectedType) <==> e.Foreign?)
            && (r.err == Some(UnexpectedKind) <==> e.Event? && e.kind.Other?)
            && (r.err == Some(UnknownID) <==> e.Event? && e.kind.EmailWasUpdated? && e.id !in ix.idToEmail)
            && (r.err == Some(UnknownView) <==>
                  && e.Event? && e.kind.EmailWasUpdated?
                  && e.id in ix.idToEmail && ix.idToEmail[e.id] !in ix.data)
            && (r.err.Some? ==> r.index == ix)
  {
  }

  /**
   Which events are refused, after any history that was processed, in order or not:
   those of another type or kind, and updates of users that were never created. A
   refused event changes nothing, and the view of a known user is never missing.
   */
  lemma {:induction false} Refusals(h: History, evt: Persisted<UserEvent>)
    requires After(h).err == None
    ensures var r := Project(After(h).index, evt);
            && (r.err == Some(UnexpectedType) <==> evt.envelope.Foreign?)
            && (r.err == Some(UnexpectedKind) <==> evt.envelope.Event? && evt.envelope.kind.Other?)
            && (r.err == Some(UnknownID) <==>
                  evt.envelope.Event? && evt.envelope.kind.EmailWasUpdated? && !WasEverCreated(h, evt.envelope.id))
            && r.err != Some(UnknownView)
            && (r.err.Some? ==> r.index == After(h).index)
  {
    KnowsTheCreated(h);
  }

  /**
   An update to another email is ignored exactly when its version is not above that
   of the view; otherwise it moves the view, whose version and names stay.
   */
  lemma {:induction false} UpdatesAreCompared(ix: Index, evt: Persisted<UserEvent>)
    requires evt.envelope.Event? && evt.envelope.kind.EmailWasUpdated?
    requires evt.envelope.id in ix.idToEmail && ix.idToEmail[evt.envelope.id] in ix.data
    requires evt.envelope.kind.email != ix.idToEmail[evt.envelope.id]
    ensures var r := Project(ix, evt);
            var view := ix.data[ix.idToEmail[evt.envelope.id]];
            && r.err == None
            && (r.index == ix <==> evt.version <= view.version)
            && (r.index != ix ==>
                  && r.index.idToEmail == ix.idToEmail[evt.envelope.id := evt.envelope.kind.email]
                  && r.index.data == ix.data[evt.envelope.kind.email := view.(email := evt.envelope.kind.email)])
  {
    var r := Project(ix, evt);
    if evt.version > ix.data[ix.idToEmail[evt.envelope.id]].version {
      assert r.index.idToEmail[evt.envelope.id] != ix.idToEmail[evt.envelope.id];
    }
  }

  /** A creation, even of a user already known, sets that user's email and the entry of the email. */
  lemma {:induction false} CreationsAreTaken(ix: Index, evt: Persisted<UserEvent>)
    requires evt.envelope.Event? && evt.envelope.kind.WasCreated?
    ensures var e, kind := evt.envelope, evt.envelope.kind;
            Project(ix, evt)
            == Projected(Index(ix.data[kind.email := UserView(e.id, kind.email, kind.firstName, kind.lastName,
                                                              kind.birthDate, evt.version)],
                               ix.idToEmail[e.id := kind.email]), None)
  {
  }

  // ------------------------------------------------------------- redelivery

  /** The creation gives a user the fields it keeps. */
  lemma {:induction false} CreationFields(h: History, j: nat)
    requires InOrder(h) && j < |h| && h[j].envelope.Event? && h[j].envelope.kind.WasCreated?
    ensures var kind := h[j].envelope.kind;
            var id := h[j].streamID;
            Replayed(h, id) == UserState(id, kind.firstName, kind.lastName, kind.birthDate, Replayed(h, id).email)
  {
    var id := h[j].streamID;
    EventAt(h, j);
    if j == |h| - 1 {
      UserReplays(h[..j], id);
      ReplayedNext(h, id);
    } else {
      CreationFields(h[..|h| - 1], j);
      EventAt(h[..|h| - 1], j);
      NamesNeverChange(h, id);
    }
  }

  /**
   Processing an event of the history again is harmless exactly when it carries
   the email its user holds now. The version of the view is always that of the
   creation, so comparing it with the event's never keeps an old update out.
   */
  lemma {:induction false} RedeliveryIsIgnored(h: History, j: nat)
    requires InOrder(h) && AlwaysDistinct(h) && j < |h|
    ensures h[j].envelope.Event? && !h[j].envelope.kind.Other?
    ensures Project(After(h).index, h[j]) == After(h) <==> EmailOf(h[j]) == Replayed(h, h[j].streamID).email
  {
    var ix, u := After(h).index, h[j].streamID;
    IndexAgreesWithReplay(h);
    EventAt(h, j);
    assert Lookup(ix, Replayed(h, u).email) == Some(ReplayedView(h, u));
    if h[j].envelope.kind.WasCreated? {
      CreationFields(h, j);
    }
    var r := Project(ix, h[j]);
    assert r.err == None && r.index.idToEmail == ix.idToEmail[u := EmailOf(h[j])];
    if EmailOf(h[j]) == Replayed(h, u).email {
      assert r.index.data == ix.data && r.index.idToEmail == ix.idToEmail;
    } else {
      assert r.index.idToEmail[u] != ix.idToEmail[u];
    }
  }

  /** Processing the latest event twice in a row changes nothing. */
  lemma {:induction false} LatestTwice(h: History)
    requires InOrder(h) && AlwaysDistinct(h) && h != []
    ensures Project(After(h).index, h[|h| - 1]) == After(h)
  {
    var u := h[|h| - 1].streamID;
    RedeliveryIsIgnored(h, |h| - 1);
    EventAt(h, |h| - 1);
    UserReplays(h[..|h| - 1], u);
    ReplayedNext(h, u);
  }

  /**
   A history in which an old event, delivered again, takes the user back to an
   email it no longer holds, although its version is older than the latest one.
   */
  lemma {:induction false} OldUpdateIsReprocessed() returns (h: History)
    ensures InOrder(h) && AlwaysDistinct(h) && |h| == 3
    ensures h[1].version < h[2].version && h[1].streamID == h[2].streamID
    ensures var r := Project(After(h).index, h[1]);
            && r.err == None && h[1].streamID in r.index.idToEmail
            && r.index.idToEmail[h[1].streamID] == EmailOf(h[1]) != Replayed(h, h[1].streamID).email
  {
    var at := Instant(0, UTC);
    var e1 := Persisted(1, 1, Event(1, at, WasCreated("", "", ZERO_TIME, "a")));
    var e2 := Persisted(1, 2, Event(1, at, EmailWasUpdated("b")));
    var e3 := Persisted(1, 3, Event(1, at, EmailWasUpdated("c")));
    h := [] + [e1] + [e2] + [e3];
    OneMore([], e1);
    OneMore([e1], e2);
    assert [e1] + [e2] == [] + [e1] + [e2];
    OneMore([] + [e1] + [e2], e3);
    RedeliveryIsIgnored(h, 1);
    IndexAgreesWithReplay(h);
    EventAt(h, 1);
  }

  /** A history of user 1 alone, grown by one event. */
  lemma {:induction false} OneMore(h: History, evt: Persisted<UserEvent>)
    requires InOrder(h) && Follows(h, evt) && evt.streamID == 1
    requires forall i :: 0 <= i < |h| ==> h[i].streamID == 1
    requires AlwaysDistinct(h)
    ensures var more := h + [evt];
            && InOrder(more) && AlwaysDistinct(more)
            && EventsOf(more, 1) == EventsOf(h, 1) + [evt.envelope]
            && Replayed(more, 1).email == EmailOf(evt)
  {
    var more := h + [evt];
    assert more[..|more| - 1] == h;
    forall id | Exists(more, id)
      ensures id == 1
    {
      OnlyUser(more, id);
    }
    UserReplays(h, 1);
    ReplayedNext(more, 1);
  }

  lemma {:induction false} OnlyUser(h: History, id: StreamID)
    requires forall i :: 0 <= i < |h| ==> h[i].streamID == 1
    requires Exists(h, id)
    ensures id == 1
  {
    if h[|h| - 1].streamID != id {
      OnlyUser(h[..|h| - 1], id);
    }
  }
}
