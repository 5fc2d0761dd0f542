/**
 The TodoList aggregate root as the source keeps it: a mutable object with a list
 of mutable items, changed only by events, and the handlers that load it, decide
 and save it.
 */
module TodoList {
  import opened Options
  import opened Versions
  import opened EventStore
  import opened Aggregates
  import opened Todo
  import opened TodoCommands

  class Item {
    var id: UUID
    var title: string
    var description: string
    var completed: bool
    var dueDate: Time
    var creationTime: Time

    constructor ()
      ensures View() == ZERO_ITEM
    {
      id, title, description, completed, dueDate, creationTime := NIL, "", "", false, ZERO_TIME, ZERO_TIME;
    }

    function View(): ItemState
      reads this
    {
      ItemState(id, title, description, completed, dueDate, creationTime)
    }

    method Apply(e: Event) returns (ok: bool)
      modifies this
      ensures Applied(View(), ok) == ApplyItem(old(View()), e)
    {
      ok := true;
      match e {
        case ItemWasAdded(itemID, title', description', due, created) =>
          id := itemID;
          title := title';
          description := description';
          completed := false;
          dueDate := due;
          creationTime := created;
        case ItemMarkedAsDone(_) => completed := true;
        case ItemMarkedAsPending(_) => completed := false;
        case _ => ok := false;
      }
    }
  }

  /** The values of a list of item objects, in order. */
  function Views(items: seq<Item>): (views: seq<ItemState>)
    reads items
    ensures |views| == |items|
    ensures forall i :: 0 <= i < |items| ==> views[i] == items[i].View()
  {
    seq(|items|, i requires 0 <= i < |items| reads items => items[i].View())
  }

  /** Values are determined pointwise. */
  lemma {:induction false} ViewsAre(items: seq<Item>, views: seq<ItemState>)
    requires |views| == |items|
    requires forall i :: 0 <= i < |items| ==> views[i] == items[i].View()
    ensures Views(items) == views
  {
  }

  lemma {:induction false} IndexOfIs(items: seq<ItemState>, id: UUID, i: nat)
    requires i <= |items|
    requires i < |items| ==> items[i].id == id
    requires forall k :: 0 <= k < i ==> items[k].id != id
    ensures IndexOf(items, id) == i
  {
  }

  class TodoList {
    const base: BaseRoot<Event>
    var id: UUID
    var title: string
    var owner: string
    var creationTime: Time
    var items: seq<Item>
    ghost var Repr: set<Item>

    constructor ()
      ensures fresh(base) && items == [] && Valid() && Repr == {}
      ensures Value() == Root(ZERO_LIST, 0, [])
    {
      base := new BaseRoot();
      id, title, owner, creationTime, items := NIL, "", "", ZERO_TIME, [];
      Repr := {};
    }

    /** The items are objects of the list's own, and none appears twice. */
    ghost predicate Valid()
      reads this
    {
      && (forall i :: 0 <= i < |items| ==> items[i] in Repr)
      && (forall i, j :: 0 <= i < j < |items| ==> items[i] != items[j])
    }

    function View(): ListState
      reads this, items
    {
      ListState(id, title, owner, creationTime, Views(items))
    }

    ghost function Value(): Root<ListState, Event>
      reads this, base, items
    {
      Root(View(), base.version, base.recordedEvents)
    }

    method ItemByID(itemID: UUID) returns (item: Item?)
      ensures var i := IndexOf(View().items, itemID);
              item == if i < |items| then items[i] else null
    {
      for i := 0 to |items|
        invariant forall k :: 0 <= k < i ==> View().items[k].id != itemID
      {
        if items[i].id == itemID {
          IndexOfIs(View().items, itemID, i);
          return items[i];
        }
      }
      IndexOfIs(View().items, itemID, |items|);
      item := null;
    }

    method ApplyItemEvent(itemID: UUID, e: Event) returns (ok: bool)
      requires Valid()
      modifies Repr
      ensures Valid()
      ensures Applied(View(), ok) == ApplyToItemOf(old(View()), itemID, e)
    {
      var item := ItemByID(itemID);
      if item == null {
        return false;
      }
      ghost var i := IndexOf(View().items, itemID);
      ok := item.Apply(e);
      ViewsAre(items, old(View()).items[i := item.View()]);
    }

    /** Replaces the items, and nothing else. */
    method SetItems(items': seq<Item>)
      requires forall i, j :: 0 <= i < j < |items'| ==> items'[i] != items'[j]
      modifies this
      ensures Valid() && items == items' && Repr == old(Repr) + (set item | item in items')
      ensures View() == old(View()).(items := old(Views(items')))
    {
      items := items';
      Repr := Repr + (set item | item in items');
    }

    method SetHeader(id': UUID, title': string, owner': string, created: Time)
      requires Valid()
      modifies this
      ensures Valid() && items == old(items) && Repr == old(Repr)
      ensures View() == old(View()).(id := id', title := title', owner := owner', creationTime := created)
    {
      id := id';
      title := title';
      owner := owner';
      creationTime := created;
    }

    /**
     Changes the list as the event says; on an error it changes nothing. Items
     are the ones already there or newly allocated ones.
     */
    method Apply(e: Event) returns (ok: bool)
      requires Valid()
      modifies this, Repr
      ensures Valid()
      ensures Applied(View(), ok) == ApplyEvent(old(View()), e)
      ensures fresh(Repr - old(Repr))
    {
      ok := true;
      match e {
        case WasCreated(id', title', owner', created) =>
          SetHeader(id', title', owner', created);
        case ItemWasAdded(_, _, _, _, _) =>
          var item := new Item();
          ok := item.Apply(e);
          assert forall k :: 0 <= k < |items| ==> items[k] != item;
          assert Views(items + [item]) == Views(items) + [item.View()];
          SetItems(items + [item]);
        case ItemMarkedAsDone(itemID) => ok := ApplyItemEvent(itemID, e);
        case ItemMarkedAsPending(itemID) => ok := ApplyItemEvent(itemID, e);
        case ItemWasDeleted(itemID) =>
          var kept := ItemsWithout(itemID);
          SetItems(kept);
        case Foreign => ok := false;
      }
    }

    /** The items with another identifier, in order. */
    method ItemsWithout(itemID: UUID) returns (kept: seq<Item>)
      requires Valid()
      ensures forall k :: 0 <= k < |kept| ==> kept[k] in items
      ensures forall p, q :: 0 <= p < q < |kept| ==> kept[p] != kept[q]
      ensures Views(kept) == Without(View().items, itemID)
    {
      kept := [];
      ghost var views := View().items;
      for i := 0 to |items|
        invariant forall k :: 0 <= k < |kept| ==> kept[k] in items[..i]
        invariant forall p, q :: 0 <= p < q < |kept| ==> kept[p] != kept[q]
        invariant Views(kept) == Without(views[..i], itemID)
      {
        assert views[..i + 1][..i] == views[..i] && views[i] == items[i].View();
        if items[i].id != itemID {
          assert items[i] !in items[..i];
          assert Views(kept + [items[i]]) == Views(kept) + [items[i].View()];
          kept := kept + [items[i]];
        }
      }
      assert views[..|items|] == views;
    }

    /** Applies one event and, when that works, records it and counts it in the version. */
    method ApplyAndTrack(e: Event) returns (ok: bool)
      requires Valid()
      modifies this, base, Repr
      ensures Valid()
      ensures Applied(View(), ok) == ApplyEvent(old(View()), e)
      ensures base.version == Plus(old(base.version), if ok then 1 else 0)
      ensures base.recordedEvents == old(base.recordedEvents) + (if ok then [e] else [])
      ensures fresh(Repr - old(Repr))
    {
      ok := Apply(e);
      if ok {
        base.Track(e);
      }
    }

    /** Applies one stored event and takes over its version. */
    method ApplyAndSetVersion(e: Event, version: Version) returns (ok: bool)
      requires Valid()
      modifies this, base, Repr
      ensures Valid()
      ensures Applied(View(), ok) == ApplyEvent(old(View()), e)
      ensures base.version == (if ok then version else old(base.version))
      ensures base.recordedEvents == old(base.recordedEvents)
      ensures fresh(Repr - old(Repr))
    {
      ok := Apply(e);
      if ok {
        base.SetVersion(version);
      }
    }

    /**
     Records events one by one. It stops at the first that does not apply: exactly
     the k events before it are recorded and counted, and the list is the fold of
     just those.
     */
    method RecordThat(events: seq<Event>) returns (ok: bool, ghost k: nat)
      requires Valid()
      modifies this, base, Repr
      ensures Valid()
      ensures k <= |events| && (ok <==> k == |events|)
      ensures Fold(TODO, old(View()), events[..k]) == Applied(View(), true)
      ensures !ok ==> !ApplyEvent(View(), events[k]).ok
      ensures base.version == Plus(old(base.version), k)
      ensures base.recordedEvents == old(base.recordedEvents) + events[..k]
      ensures fresh(Repr - old(Repr))
    {
      ghost var states := [View()];
      for i := 0 to |events|
        invariant Valid()
        invariant fresh(Repr - old(Repr))
        invariant Trace(states, events) && |states| == i + 1 && states[0] == old(View()) && states[i] == View()
        invariant base.version == Plus(old(base.version), i)
        invariant base.recordedEvents == old(base.recordedEvents) + events[..i]
      {
        PlusPlus(old(base.version), i, 1);
        var applied := ApplyAndTrack(events[i]);
        if !applied {
          ok, k := false, i;
          assert base.version == Plus(old(base.version), k);
          assert base.recordedEvents == old(base.recordedEvents) + events[..k];
          TraceIsFold(states, events, k);
          return;
        }
        TraceGrows(states, events, View());
        states := states + [View()];
      }
      ok, k := true, |events|;
      assert base.version == Plus(old(base.version), k);
      assert base.recordedEvents == old(base.recordedEvents) + events[..k];
      TraceIsFold(states, events, k);
    }

    /** Records the one event a command decided on. */
    method RecordDecided(cmd: Command, e: Event) returns (err: Option<TodoError>)
      requires Valid() && Decide(View(), cmd) == Recorded(e)
      modifies this, base, Repr
      ensures Valid() && err == None
      ensures Decided(old(Value()), cmd, Value(), err)
      ensures fresh(Repr - old(Repr))
    {
      DecidedApplies(View(), cmd);
      assert [e][..0] == [] && [e][..0] + [e] == [e][..1];
      FoldNext(TODO, View(), [e], 0);
      var ok, k := RecordThat([e]);
      err := if ok then None else Some(ApplyFailed);
    }

    method AddItem(itemID: UUID, title: string, description: string, dueDate: Time, now: Time)
        returns (err: Option<TodoError>)
      requires Valid()
      modifies this, base, Repr
      ensures Valid()
      ensures Decided(old(Value()), Command.AddItem(old(id), itemID, title, description, dueDate, now), Value(), err)
      ensures fresh(Repr - old(Repr))
    {
      if itemID == NIL {
        return Some(EmptyItemID);
      }
      if title == "" {
        return Some(EmptyItemTitle);
      }
      var item := ItemByID(itemID);
      if item != null {
        return Some(ItemAlreadyExists);
      }
      err := RecordDecided(Command.AddItem(id, itemID, title, description, dueDate, now),
                           ItemWasAdded(itemID, title, description, dueDate, now));
    }

    /** Marking and deleting share their checks and differ in the event. */
    method RecordItemEvent(cmd: Command, itemID: UUID, e: Event) returns (err: Option<TodoError>)
      requires Valid()
      requires Decide(View(), cmd) == DecideOnItem(View(), itemID, e)
      modifies this, base, Repr
      ensures Valid() && Decided(old(Value()), cmd, Value(), err)
      ensures fresh(Repr - old(Repr))
    {
      if itemID == NIL {
        return Some(EmptyItemID);
      }
      var item := ItemByID(itemID);
      if item == null {
        return Some(ItemNotFound);
      }
      err := RecordDecided(cmd, e);
    }

    method MarkItemAsDone(itemID: UUID) returns (err: Option<TodoError>)
      requires Valid()
      modifies this, base, Repr
      ensures Valid() && Decided(old(Value()), Command.MarkItemAsDone(old(id), itemID), Value(), err)
      ensures fresh(Repr - old(Repr))
    {
      err := RecordItemEvent(Command.MarkItemAsDone(id, itemID), itemID, ItemMarkedAsDone(itemID));
    }

    method MarkItemAsPending(itemID: UUID) returns (err: Option<TodoError>)
      requires Valid()
      modifies this, base, Repr
      ensures Valid() && Decided(old(Value()), Command.MarkItemAsPending(old(id), itemID), Value(), err)
      ensures fresh(Repr - old(Repr))
    {
      err := RecordItemEvent(Command.MarkItemAsPending(id, itemID), itemID, ItemMarkedAsPending(itemID));
    }

    method DeleteItem(itemID: UUID) returns (err: Option<TodoError>)
      requires Valid()
      modifies this, base, Repr
      ensures Valid() && Decided(old(Value()), Command.DeleteItem(old(id), itemID), Value(), err)
      ensures fresh(Repr - old(Repr))
    {
      err := RecordItemEvent(Command.DeleteItem(id, itemID), itemID, ItemWasDeleted(itemID));
    }

    /** One turn of that loop: applies an event and asks for the next, or leaves the loop. */
    method ApplyAndAdvance(stream: EventStream<Event>, evt: Persisted<Event>)
        returns (ok: bool, next: Option<Persisted<Event>>)
      requires Valid() && stream.Offered(Some(evt)) && stream.from == 0
      modifies this, base, stream, Repr
      ensures Valid() && fresh(Repr - old(Repr)) && base.recordedEvents == old(base.recordedEvents)
      ensures Applied(View(), ok) == ApplyEvent(old(View()), evt.envelope)
      ensures base.version == if ok then evt.version else old(base.version)
      ensures ok ==> stream.Offered(next) && stream.pos == old(stream.pos) + (if next.Some? then 1 else 0)
    {
      ok := ApplyAndSetVersion(evt.envelope, evt.version);
      if ok {
        next := stream.Next();
      } else {
        stream.Break();
        next := None;
      }
    }

    /** The loop from its first event on, with the states it goes through. */
    method ApplyStream(stream: EventStream<Event>, first: Option<Persisted<Event>>)
        returns (err: Option<TodoError>, ghost states: seq<ListState>)
      requires Valid() && Repr == {} && Value() == Root(ZERO_LIST, 0, [])
      requires stream.Offered(first) && stream.from == 0 && stream.pos == if first.Some? then 1 else 0
      modifies this, base, stream, Repr
      ensures Valid() && base.recordedEvents == [] && fresh(Repr)
      ensures Replaying(states, stream.Log(), View(), base.version)
      ensures Ended(states, stream.Log(), stream.cancelAt, err)
    {
      ghost var log := stream.Log();
      states := [View()];
      var next := first;
      while next.Some?
        invariant Valid() && fresh(Repr) && base.recordedEvents == []
        invariant stream.Offered(next)
        invariant stream.pos == |states| - 1 + (if next.Some? then 1 else 0)
        invariant Replaying(states, log, View(), base.version)
        decreases next.Some?, |log| - stream.pos
      {
        var ok, following := ApplyAndAdvance(stream, next.value);
        if !ok {
          return Some(ApplyFailed), states;
        }
        TraceGrows(states, log, View());
        states := states + [View()];
        next := following;
      }
      err := if stream.err.Some? then Some(Streaming(stream.err.value)) else None;
    }

    /** Applies a stream of stored events and takes over the version of each. */
    method RehydrateFromEvents(stream: EventStream<Event>) returns (err: Option<TodoError>)
      requires Valid() && Value() == Root(ZERO_LIST, 0, [])
      requires Repr == {} && stream.Valid() && !stream.iterated && stream.from == 0
      modifies this, base, stream, Repr
      ensures Valid() && base.recordedEvents == []
      ensures Rehydrated(stream.Log(), stream.cancelAt, View(), base.version, err)
      ensures fresh(Repr - old(Repr))
    {
      var first := stream.First();
      ghost var states;
      err, states := ApplyStream(stream, first);
      EndIsRehydrated(states, stream.Log(), stream.cancelAt, View(), base.version, err);
    }
  }

  /** The states gone through while applying the first events of a list. */
  ghost predicate Trace(states: seq<ListState>, events: seq<Event>) {
    && 0 < |states| <= |events| + 1
    && forall j :: 0 <= j < |states| - 1 ==> StepAt(states, events, j)
  }

  ghost predicate StepAt(states: seq<ListState>, events: seq<Event>, j: nat)
    requires j < |states| - 1 && j < |events|
  {
    ApplyEvent(states[j], events[j]) == Applied(states[j + 1], true)
  }

  /** Where a list stands in the middle of a replay: at the last state gone through, with its version. */
  ghost predicate Replaying(states: seq<ListState>, log: seq<Event>, view: ListState, version: Version) {
    && Trace(states, log) && states[0] == ZERO_LIST && states[|states| - 1] == view
    && version == ToVersion(|states| - 1)
  }

  lemma {:induction false} TraceGrows(states: seq<ListState>, events: seq<Event>, next: ListState)
    requires Trace(states, events) && |states| <= |events|
    requires ApplyEvent(states[|states| - 1], events[|states| - 1]) == Applied(next, true)
    ensures Trace(states + [next], events)
  {
    forall j | 0 <= j < |states|
      ensures StepAt(states + [next], events, j)
    {
      assert j < |states| - 1 ==> StepAt(states, events, j);
    }
  }

  lemma {:induction false} TraceIsFold(states: seq<ListState>, events: seq<Event>, k: nat)
    requires Trace(states, events) && |states| == k + 1
    ensures Fold(TODO, states[0], events[..k]) == Applied(states[k], true)
  {
    if k > 0 {
      assert forall j :: 0 <= j < k - 1 ==> StepAt(states, events, j) ==> StepAt(states[..k], events, j);
      assert StepAt(states, events, k - 1);
      TraceIsFold(states[..k], events, k - 1);
      FoldNext(TODO, states[0], events, k - 1);
    }
  }

  /**
   Rehydration succeeds exactly when the whole log was seen and replays, and then
   gives its fold and its length; otherwise the error is that of the event that
   does not apply or, when there is none among those seen, that of the context.
   */
  ghost predicate Rehydrated(log: seq<Event>, cancelAt: Option<nat>, view: ListState, version: Version,
                             err: Option<TodoError>) {
    var n := Visible(log, cancelAt);
    && (err.None? <==> n == |log| && Replay(TODO, log).ok)
    && (err.None? ==> view == Replay(TODO, log).state && version == ToVersion(|log|))
    && (err.Some? ==> err.value == if Replay(TODO, log[..n]).ok then Streaming(ContextDone) else ApplyFailed)
  }

  /** Why a replay ended where it did: at the end, where the context was done, or at an event that does not apply. */
  ghost predicate Ended(states: seq<ListState>, log: seq<Event>, cancelAt: Option<nat>, err: Option<TodoError>)
    requires Trace(states, log)
  {
    var k, n := |states| - 1, Visible(log, cancelAt);
    || (err == None && k == |log| == n)
    || (err == Some(Streaming(ContextDone)) && k == n < |log|)
    || (err == Some(ApplyFailed) && k < n && !ApplyEvent(states[k], log[k]).ok)
  }

  lemma {:induction false} EndIsRehydrated(states: seq<ListState>, log: seq<Event>, cancelAt: Option<nat>,
                                           view: ListState, version: Version, err: Option<TodoError>)
    requires Replaying(states, log, view, version) && Ended(states, log, cancelAt, err)
    ensures Rehydrated(log, cancelAt, view, version, err)
  {
    var k, n := |states| - 1, Visible(log, cancelAt);
    TraceIsFold(states, log, k);
    if k < n {
      FoldStops(TODO, ZERO_LIST, log, k);
      assert log[..n][..k] == log[..k];
      FoldStops(TODO, ZERO_LIST, log[..n], k);
    } else {
      assert log[..|log|] == log;
    }
  }

  /** What a domain method does to a root: record the decided event, or refuse and change nothing. */
  ghost predicate Decided(before: Root<ListState, Event>, cmd: Command, after: Root<ListState, Event>,
                          err: Option<TodoError>) {
    match Decide(before.state, cmd)
    case Refused(error) => after == before && err == Some(error)
    case Recorded(e) =>
      && err == None
      && after == Root(ApplyEvent(before.state, e).state, Plus(before.version, 1), before.recorded + [e])
  }

  method Create(id: UUID, title: string, owner: string, now: Time) returns (list: TodoList?, err: Option<TodoError>)
    ensures list == null <==> err.Some?
    ensures list != null ==> fresh(list) && fresh(list.base) && list.Valid()
    ensures list != null ==> fresh(list.Repr)
    ensures match Decide(ZERO_LIST, Command.Create(id, title, owner, now))
            case Refused(error) => err == Some(error)
            case Recorded(e) =>
              err == None && list.Value() == Root(ApplyEvent(ZERO_LIST, e).state, 1, [e])
  {
    if id == NIL {
      return null, Some(EmptyID);
    }
    if title == "" {
      return null, Some(EmptyTitle);
    }
    if owner == "" {
      return null, Some(NoOwnerSpecified);
    }
    var created := new TodoList();
    err := created.RecordDecided(Command.Create(id, title, owner, now), WasCreated(id, title, owner, now));
    list := created;
  }

  // ------------------------------------------------------------- repository

  /**
   Loads a list. It is returned only after the whole stream was applied; the
   object and every item in it are newly allocated.
   */
  method GetRoot(store: InMemoryStore<Event>, id: StreamID, cancelAt: Option<nat>)
      returns (list: TodoList?, err: Option<TodoError>)
    ensures list == null <==> err.Some?
    ensures list != null ==> fresh(list) && fresh(list.base) && list.Valid()
    ensures list != null ==> fresh(list.Repr)
    ensures match Get(store.events, id, cancelAt)
            case Found(s, version) => list != null && list.Value() == Root(s, version, [])
            case NotLoaded(error) => err == Some(error)
    ensures var log := StreamOf(store.events, id);
            && LoadAnswers(log, cancelAt, err)
            && (list != null <==> Loads(log, cancelAt))
            && (list != null ==> list.Value() == Root(Replay(TODO, log).state, ToVersion(|log|), []))
  {
    LoadErrors(store.events, id, cancelAt);
    var stream := store.Stream(id, 0, cancelAt);
    var root := new TodoList();
    err := root.RehydrateFromEvents(stream);
    assert StreamOf(store.events, id)[..|StreamOf(store.events, id)|] == StreamOf(store.events, id);
    if err.Some? {
      return null, err;
    }
    if root.base.version == 0 {
      return null, Some(RootNotFound);
    }
    list := root;
  }

  /** Two loads never share an item object. */
  method GetTwice(store: InMemoryStore<Event>, id: StreamID, id': StreamID) returns (a: TodoList?, b: TodoList?)
    ensures a != null && b != null ==>
              && a.Valid() && b.Valid()
              && a != b && a.base != b.base && a.Repr !! b.Repr
              && forall i, j :: 0 <= i < |a.items| && 0 <= j < |b.items| ==> a.items[i] != b.items[j]
  {
    var err;
    a, err := GetRoot(store, id, None);
    b, err := GetRoot(store, id', None);
  }

  // ------------------------------------------------------------- handlers

  /** Saves a root on which one event was decided, under the identifier it now has. */
  method SaveRoot(store: InMemoryStore<Event>, list: TodoList, ghost before: Root<ListState, Event>, ghost cmd: Command)
      returns (err: Option<TodoError>)
    requires before.recorded == [] && Decide(before.state, cmd).Recorded?
    requires Decided(before, cmd, list.Value(), None)
    modifies store, list.base
    ensures Handled(store.events, err)
         == Commit(old(store.events), before.state, before.version, Decide(before.state, cmd).event)
  {
    ghost var e := Decide(before.state, cmd).event;
    assert list.base.recordedEvents == [e];
    var conflict := Save(store, list.id, list.base);
    err := if conflict.Some? then Some(Conflict(conflict.value)) else None;
  }

  method HandleCreate(store: InMemoryStore<Event>, id: UUID, title: string, owner: string, now: Time)
      returns (err: Option<TodoError>)
    modifies store
    ensures Handled(store.events, err) == Handle(old(store.events), Command.Create(id, title, owner, now), None)
    ensures Answers(old(store.events), Command.Create(id, title, owner, now), None,
                    Handled(store.events, err))
  {
    HandleAnswers(store.events, Command.Create(id, title, owner, now), None);
    var list;
    list, err := Create(id, title, owner, now);
    if list != null {
      err := SaveRoot(store, list, Root(ZERO_LIST, 0, []), Command.Create(id, title, owner, now));
    }
  }

  method HandleAddItem(store: InMemoryStore<Event>, cancelAt: Option<nat>, listID: UUID, itemID: UUID,
                       title: string, description: string, dueDate: Time, now: Time)
      returns (err: Option<TodoError>)
    modifies store
    ensures Handled(store.events, err)
         == Handle(old(store.events), AddItem(listID, itemID, title, description, dueDate, now), cancelAt)
    ensures Answers(old(store.events), AddItem(listID, itemID, title, description, dueDate, now), cancelAt,
                    Handled(store.events, err))
  {
    HandleAnswers(store.events, AddItem(listID, itemID, title, description, dueDate, now), cancelAt);
    var list;
    list, err := GetRoot(store, listID, cancelAt);
    if list == null {
      return;
    }
    ghost var before := list.Value();
    err := list.AddItem(itemID, title, description, dueDate, now);
    if err.Some? {
      return;
    }
    err := SaveRoot(store, list, before, AddItem(listID, itemID, title, description, dueDate, now));
  }

  method HandleMarkItemAsDone(store: InMemoryStore<Event>, cancelAt: Option<nat>, listID: UUID, itemID: UUID)
      returns (err: Option<TodoError>)
    modifies store
    ensures Handled(store.events, err) == Handle(old(store.events), MarkItemAsDone(listID, itemID), cancelAt)
    ensures Answers(old(store.events), MarkItemAsDone(listID, itemID), cancelAt,
                    Handled(store.events, err))
  {
    HandleAnswers(store.events, MarkItemAsDone(listID, itemID), cancelAt);
    var list;
    list, err := GetRoot(store, listID, cancelAt);
    if list == null {
      return;
    }
    ghost var before := list.Value();
    err := list.MarkItemAsDone(itemID);
    if err.Some? {
      return;
    }
    err := SaveRoot(store, list, before, MarkItemAsDone(listID, itemID));
  }

  method HandleMarkItemAsPending(store: InMemoryStore<Event>, cancelAt: Option<nat>, listID: UUID, itemID: UUID)
      returns (err: Option<TodoError>)
    modifies store
    ensures Handled(store.events, err) == Handle(old(store.events), MarkItemAsPending(listID, itemID), cancelAt)
    ensures Answers(old(store.events), MarkItemAsPending(listID, itemID), cancelAt,
                    Handled(store.events, err))
  {
    HandleAnswers(store.events, MarkItemAsPending(listID, itemID), cancelAt);
    var list;
    list, err := GetRoot(store, listID, cancelAt);
    if list == null {
      return;
    }
    ghost var before := list.Value();
    err := list.MarkItemAsPending(itemID);
    if err.Some? {
      return;
    }
    err := SaveRoot(store, list, before, MarkItemAsPending(listID, itemID));
  }

  method HandleDeleteItem(store: InMemoryStore<Event>, cancelAt: Option<nat>, listID: UUID, itemID: UUID)
      returns (err: Option<TodoError>)
    modifies store
    ensures Handled(store.events, err) == Handle(old(store.events), DeleteItem(listID, itemID), cancelAt)
    ensures Answers(old(store.events), DeleteItem(listID, itemID), cancelAt,
                    Handled(store.events, err))
  {
    HandleAnswers(store.events, DeleteItem(listID, itemID), cancelAt);
    var list;
    list, err := GetRoot(store, listID, cancelAt);
    if list == null {
      return;
    }
    ghost var before := list.Value();
    err := list.DeleteItem(itemID);
    if err.Some? {
      return;
    }
    err := SaveRoot(store, list, before, DeleteItem(listID, itemID));
  }
}
