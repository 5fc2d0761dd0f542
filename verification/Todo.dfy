/**
 The TodoList aggregate on values: its events, the state they fold to, the
 decisions its commands take, and what a log produced by those commands means.
 Identifiers and times are opaque; the text of an identifier is the identifier.
 */
module Todo {
  import opened Versions
  import opened EventStore
  import opened Aggregates

  type UUID = StreamID

  const NIL: UUID := 0

  type Time = int

  const ZERO_TIME: Time := 0

  /** `Foreign` stands for any event type that the aggregate does not know. */
  datatype Event =
    | WasCreated(id: UUID, title: string, owner: string, creationTime: Time)
    | ItemWasAdded(itemID: UUID, title: string, description: string, dueDate: Time, creationTime: Time)
    | ItemMarkedAsDone(itemID: UUID)
    | ItemMarkedAsPending(itemID: UUID)
    | ItemWasDeleted(itemID: UUID)
    | Foreign

  datatype ItemState =
    ItemState(id: UUID, title: string, description: string, completed: bool, dueDate: Time, creationTime: Time)

  datatype ListState =
    ListState(id: UUID, title: string, owner: string, creationTime: Time, items: seq<ItemState>)

  const ZERO_LIST: ListState := ListState(NIL, "", "", ZERO_TIME, [])

  const ZERO_ITEM: ItemState := ItemState(NIL, "", "", false, ZERO_TIME, ZERO_TIME)

  // ------------------------------------------------------------- applying

  /** The position of the first item with an identifier, or the number of items. */
  function IndexOf(items: seq<ItemState>, id: UUID): (i: nat)
    ensures i <= |items|
    ensures i < |items| ==> items[i].id == id
    ensures forall k :: 0 <= k < i ==> items[k].id != id
  {
    if items == [] || items[0].id == id then 0 else 1 + IndexOf(items[1..], id)
  }

  /** The items with another identifier, in order. */
  function Without(items: seq<ItemState>, id: UUID): seq<ItemState> {
    if items == [] then []
    else
      var rest := Without(items[..|items| - 1], id);
      var last := items[|items| - 1];
      if last.id == id then rest else rest + [last]
  }

  function ApplyItem(item: ItemState, e: Event): Applied<ItemState> {
    match e
    case ItemWasAdded(id, title, description, due, created) =>
      Applied(ItemState(id, title, description, false, due, created), true)
    case ItemMarkedAsDone(_) => Applied(item.(completed := true), true)
    case ItemMarkedAsPending(_) => Applied(item.(completed := false), true)
    case _ => Applied(item, false)
  }

  function ApplyToItemOf(s: ListState, id: UUID, e: Event): Applied<ListState> {
    var i := IndexOf(s.items, id);
    if i == |s.items| then Applied(s, false)
    else
      var r := ApplyItem(s.items[i], e);
      Applied(s.(items := s.items[i := r.state]), r.ok)
  }

  function ApplyEvent(s: ListState, e: Event): Applied<ListState> {
    match e
    case WasCreated(id, title, owner, created) =>
      Applied(s.(id := id, title := title, owner := owner, creationTime := created), true)
    case ItemWasAdded(_, _, _, _, _) => Applied(s.(items := s.items + [ApplyItem(ZERO_ITEM, e).state]), true)
    case ItemMarkedAsDone(id) => ApplyToItemOf(s, id, e)
    case ItemMarkedAsPending(id) => ApplyToItemOf(s, id, e)
    case ItemWasDeleted(id) => Applied(s.(items := Without(s.items, id)), true)
    case Foreign => Applied(s, false)
  }

  const TODO: Aggregate<ListState, Event> := Aggregate(ZERO_LIST, ApplyEvent)

  /** What each event does to an item on its own; any other event is an error that leaves it alone. */
  lemma {:induction false} ItemEffect(item: ItemState, e: Event)
    ensures var r := ApplyItem(item, e);
            && (r.ok <==> e.ItemWasAdded? || e.ItemMarkedAsDone? || e.ItemMarkedAsPending?)
            && (!r.ok ==> r.state == item)
            && (e.ItemWasAdded? ==>
                  && !r.state.completed && r.state.id == e.itemID && r.state.title == e.title
                  && r.state.description == e.description && r.state.dueDate == e.dueDate
                  && r.state.creationTime == e.creationTime)
            && (e.ItemMarkedAsDone? || e.ItemMarkedAsPending? ==>
                  r.state.completed == e.ItemMarkedAsDone?
                  && r.state.(completed := item.completed) == item)
  {
  }

  /** Exactly the events that do not apply to a list: unknown ones, and marks of an item that is not there. */
  lemma {:induction false} ApplyFailsExactly(s: ListState, e: Event)
    ensures !ApplyEvent(s, e).ok <==>
            e.Foreign? || ((e.ItemMarkedAsDone? || e.ItemMarkedAsPending?) && !HasItem(s, e.itemID))
  {
    if e.ItemMarkedAsDone? || e.ItemMarkedAsPending? {
      var i := IndexOf(s.items, e.itemID);
      assert i < |s.items| ==> s.items[i].id == e.itemID;
    }
  }

  lemma {:induction false} ApplyIsAtomic()
    ensures AtomicApply(TODO)
  {
  }

  /** Root coherence for lists, in every run. */
  lemma {:induction false} ListRootCoherence(w: World<ListState, Event>, start: nat, steps: seq<Step<Event>>)
      returns (base: nat)
    requires w.reliable && CoherentAt(TODO, w, start)
    requires Run(TODO, w, steps).reliable && |Run(TODO, w, steps).log| < WRAP
    ensures CoherentAt(TODO, Run(TODO, w, steps), base) && w.log <= Run(TODO, w, steps).log
  {
    ApplyIsAtomic();
    base := RootCoherence(TODO, w, start, steps);
  }

  /**
   Two lists created under one identifier: reusing the root whose save failed adds
   its item to the other list, while the root still shows its own title.
   */
  lemma {:induction false} StaleListAccepted() returns (steps: seq<Step<Event>>)
    ensures var w := World(Root(ZERO_LIST, 0, []), [], true);
            var end := Run(TODO, w, steps);
            && |steps| == 5 && steps[2] == steps[4] == SaveStep
            && !SaveAccepted(Run(TODO, w, steps[..2])) && SaveAccepted(Run(TODO, w, steps[..4]))
            && |Run(TODO, w, steps[..4]).log| == 1 && |Run(TODO, w, steps[..4]).root.recorded| == 1
            && end.log == Run(TODO, w, steps[..4]).log + Run(TODO, w, steps[..4]).root.recorded
            && Replay(TODO, end.log).ok
            && Replay(TODO, end.log).state.title == "b" && end.root.state.title == "a"
            && Replay(TODO, end.log).state.items == end.root.state.items != []
  {
    var a, b := WasCreated(1, "a", "o", 0), WasCreated(1, "b", "o", 0);
    steps := StaleRootAccepted(TODO, a, b, ItemWasAdded(2, "t", "", 0, 0));
  }

  // ------------------------------------------------------------- deciding

  datatype TodoError =
    | EmptyID | EmptyTitle | NoOwnerSpecified
    | EmptyItemID | EmptyItemTitle | ItemAlreadyExists | ItemNotFound
    | RootNotFound
    | ApplyFailed
    | Streaming(cause: StreamError)
    | Conflict(conflict: ConflictError)

  datatype Command =
    | Create(listID: UUID, title: string, owner: string, now: Time)
    | AddItem(listID: UUID, itemID: UUID, title: string, description: string, dueDate: Time, now: Time)
    | MarkItemAsDone(listID: UUID, itemID: UUID)
    | MarkItemAsPending(listID: UUID, itemID: UUID)
    | DeleteItem(listID: UUID, itemID: UUID)

  datatype Decision = Recorded(event: Event) | Refused(error: TodoError)

  function DecideOnItem(s: ListState, id: UUID, e: Event): Decision {
    if id == NIL then Refused(EmptyItemID)
    else if IndexOf(s.items, id) == |s.items| then Refused(ItemNotFound)
    else Recorded(e)
  }

  /** The one event a command records on a list, or the error it returns. */
  function Decide(s: ListState, cmd: Command): Decision {
    match cmd
    case Create(id, title, owner, now) =>
      if id == NIL then Refused(EmptyID)
      else if title == "" then Refused(EmptyTitle)
      else if owner == "" then Refused(NoOwnerSpecified)
      else Recorded(WasCreated(id, title, owner, now))
    case AddItem(_, id, title, description, due, now) =>
      if id == NIL then Refused(EmptyItemID)
      else if title == "" then Refused(EmptyItemTitle)
      else if IndexOf(s.items, id) < |s.items| then Refused(ItemAlreadyExists)
      else Recorded(ItemWasAdded(id, title, description, due, now))
    case MarkItemAsDone(_, id) => DecideOnItem(s, id, ItemMarkedAsDone(id))
    case MarkItemAsPending(_, id) => DecideOnItem(s, id, ItemMarkedAsPending(id))
    case DeleteItem(_, id) => DecideOnItem(s, id, ItemWasDeleted(id))
  }

  /**
   What each command does to a list and when it is refused, said without the
   events: which check fails first, and the list that success leaves.
   */
  lemma {:induction false} CommandEffect(s: ListState, cmd: Command)
    ensures var d := Decide(s, cmd);
            match cmd
            case Create(id, title, owner, now) =>
              && (d.Recorded? <==> id != NIL && title != "" && owner != "")
              && (d == Refused(EmptyID) <==> id == NIL)
              && (d == Refused(EmptyTitle) <==> id != NIL && title == "")
              && (d == Refused(NoOwnerSpecified) <==> id != NIL && title != "" && owner == "")
              && (d.Recorded? ==> ApplyEvent(s, d.event) == Applied(ListState(id, title, owner, now, s.items), true))
            case AddItem(_, id, title, description, due, now) =>
              && (d.Recorded? <==> id != NIL && title != "" && !HasItem(s, id))
              && (d == Refused(EmptyItemID) <==> id == NIL)
              && (d == Refused(EmptyItemTitle) <==> id != NIL && title == "")
              && (d == Refused(ItemAlreadyExists) <==> id != NIL && title != "" && HasItem(s, id))
              && (d.Recorded? ==>
                    ApplyEvent(s, d.event)
                    == Applied(s.(items := s.items + [ItemState(id, title, description, false, due, now)]), true))
            case MarkItemAsDone(_, id) => OnExistingItem(s, id, d) && (d.Recorded? ==> MarksFirst(s, id, true, d.event))
            case MarkItemAsPending(_, id) =>
              OnExistingItem(s, id, d) && (d.Recorded? ==> MarksFirst(s, id, false, d.event))
            case DeleteItem(_, id) =>
              && OnExistingItem(s, id, d)
              && (d.Recorded? ==> ApplyEvent(s, d.event) == Applied(s.(items := Without(s.items, id)), true))
  {
    var id := if cmd.Create? then NIL else cmd.itemID;
    var i := IndexOf(s.items, id);
    assert HasItem(s, id) <==> i < |s.items|;
    if (cmd.MarkItemAsDone? || cmd.MarkItemAsPending?) && id != NIL && i < |s.items| {
      var e := Decide(s, cmd).event;
      var items := ApplyEvent(s, e).state.items;
      assert items[i] == s.items[i].(completed := cmd.MarkItemAsDone?);
    }
  }

  ghost predicate HasItem(s: ListState, id: UUID) {
    exists i :: 0 <= i < |s.items| && s.items[i].id == id
  }

  ghost predicate OnExistingItem(s: ListState, id: UUID, d: Decision) {
    && (d.Recorded? <==> id != NIL && HasItem(s, id))
    && (d == Refused(EmptyItemID) <==> id == NIL)
    && (d == Refused(ItemNotFound) <==> id != NIL && !HasItem(s, id))
  }

  /** An event that sets the mark of the first item with an identifier, and nothing else. */
  ghost predicate MarksFirst(s: ListState, id: UUID, done: bool, e: Event) {
    var r := ApplyEvent(s, e);
    && r.ok && r.state == s.(items := r.state.items) && |r.state.items| == |s.items|
    && exists i :: 0 <= i < |s.items| && s.items[i].id == id
                   && (forall k :: 0 <= k < i ==> s.items[k].id != id)
                   && r.state.items == s.items[i := s.items[i].(completed := done)]
  }

  // ------------------------------------------------------------- produced logs

  ghost predicate Distinct(items: seq<ItemState>) {
    forall i, j :: 0 <= i < j < |items| ==> items[i].id != items[j].id
  }

  /** What the commands promise about a list. */
  ghost predicate WellFormed(s: ListState) {
    && s.id != NIL && s.title != "" && s.owner != ""
    && Distinct(s.items)
    && forall i :: 0 <= i < |s.items| ==> s.items[i].id != NIL && s.items[i].title != ""
  }

  /** An event that may come next on a list, said without the code that decides it. */
  ghost predicate Lawful(s: ListState, e: Event) {
    match e
    case ItemWasAdded(id, title, _, _, _) => id != NIL && title != "" && !HasItem(s, id)
    case ItemMarkedAsDone(id) => id != NIL && HasItem(s, id)
    case ItemMarkedAsPending(id) => id != NIL && HasItem(s, id)
    case ItemWasDeleted(id) => id != NIL && HasItem(s, id)
    case _ => false
  }

  /** The logs of a stream that commands can have written. */
  ghost predicate Produced(id: StreamID, log: seq<Event>)
    decreases |log|
  {
    if log == [] then true
    else
      var last := |log| - 1;
      if last == 0 then
        log[0].WasCreated? && log[0].id == id && id != NIL && log[0].title != "" && log[0].owner != ""
      else
        Produced(id, log[..last]) && Lawful(Replay(TODO, log[..last]).state, log[last])
  }

  lemma {:induction false} WithoutMeaning(items: seq<ItemState>, id: UUID)
    ensures forall k :: 0 <= k < |Without(items, id)| ==>
              Without(items, id)[k].id != id && Without(items, id)[k] in items
    ensures Distinct(items) ==> Distinct(Without(items, id))
  {
    if items != [] {
      WithoutMeaning(items[..|items| - 1], id);
    }
  }

  /** Exactly the items with another identifier are kept, in their order: `at` is where each of them was. */
  lemma {:induction false} WithoutKeepsTheRest(items: seq<ItemState>, id: UUID) returns (at: seq<nat>)
    ensures |at| == |Without(items, id)|
    ensures forall k :: 0 <= k < |at| ==> at[k] < |items| && Without(items, id)[k] == items[at[k]]
    ensures forall j, k :: 0 <= j < k < |at| ==> at[j] < at[k]
    ensures forall i :: 0 <= i < |items| ==> (i in at <==> items[i].id != id)
  {
    if items == [] {
      at := [];
    } else {
      var last := |items| - 1;
      at := WithoutKeepsTheRest(items[..last], id);
      assert forall i :: 0 <= i < last ==> items[..last][i] == items[i];
      if items[last].id != id {
        at := at + [last];
      }
    }
  }

  /** A lawful event applies without error and keeps what the commands promise. */
  lemma {:induction false} LawfulKeepsWellFormed(s: ListState, e: Event)
    requires WellFormed(s) && Lawful(s, e)
    ensures ApplyEvent(s, e).ok && WellFormed(ApplyEvent(s, e).state) && ApplyEvent(s, e).state.id == s.id
  {
    if e.ItemWasDeleted? {
      WithoutMeaning(s.items, e.itemID);
    }
  }

  /** Every produced log replays without error to a well-formed list that names its stream. */
  lemma {:induction false} ProducedReplays(id: StreamID, log: seq<Event>)
    requires Produced(id, log) && log != []
    ensures Replay(TODO, log).ok && WellFormed(Replay(TODO, log).state) && Replay(TODO, log).state.id == id
    ensures log[0].WasCreated? && log[0].id == id
    ensures forall k :: 1 <= k < |log| ==> !log[k].WasCreated?
    decreases |log|
  {
    var last := |log| - 1;
    assert log == log[..last] + [log[last]];
    if last == 0 {
      assert Fold(TODO, ZERO_LIST, log[..0]) == Applied(ZERO_LIST, true);
    } else {
      ProducedReplays(id, log[..last]);
      LawfulKeepsWellFormed(Replay(TODO, log[..last]).state, log[last]);
    }
    FoldOne(TODO, ZERO_LIST, log[..last], log[last]);
  }

  /** Every prefix of a produced log is produced. */
  lemma {:induction false} ProducedPrefix(id: StreamID, log: seq<Event>, n: nat)
    requires Produced(id, log) && n <= |log|
    ensures Produced(id, log[..n])
    decreases |log|
  {
    if n == |log| {
      assert log[..n] == log;
    } else if |log| > 1 {
      ProducedPrefix(id, log[..|log| - 1], n);
      assert log[..|log| - 1][..n] == log[..n];
    }
  }

  /** A command that records a given lawful event. */
  ghost function CommandFor(id: UUID, e: Event): Command {
    match e
    case WasCreated(_, title, owner, now) => Create(id, title, owner, now)
    case ItemWasAdded(item, title, description, due, now) => AddItem(id, item, title, description, due, now)
    case ItemMarkedAsDone(item) => MarkItemAsDone(id, item)
    case ItemMarkedAsPending(item) => MarkItemAsPending(id, item)
    case ItemWasDeleted(item) => DeleteItem(id, item)
    case Foreign => DeleteItem(id, NIL)
  }

  lemma {:induction false} LawfulIsDecided(s: ListState, e: Event, cmd: Command)
    ensures !cmd.Create? && Decide(s, cmd) == Recorded(e) ==> Lawful(s, e)
    ensures Lawful(s, e) ==> !CommandFor(s.id, e).Create? && Decide(s, CommandFor(s.id, e)) == Recorded(e)
  {
  }

  /**
   Produced logs are exactly what the commands write: an event can follow a
   non-empty produced log if and only if some command on the replayed list
   records it.
   */
  lemma {:induction false} ProducedNext(id: StreamID, log: seq<Event>, e: Event)
    requires Produced(id, log) && log != []
    ensures Produced(id, log + [e]) <==>
            exists cmd: Command :: !cmd.Create? && Decide(Replay(TODO, log).state, cmd) == Recorded(e)
  {
    assert (log + [e])[..|log|] == log;
    var s := Replay(TODO, log).state;
    assert Produced(id, log + [e]) <==> Lawful(s, e);
    LawfulIsDecided(s, e, CommandFor(s.id, e));
    forall cmd: Command | !cmd.Create? && Decide(s, cmd) == Recorded(e)
      ensures Lawful(s, e)
    {
      LawfulIsDecided(s, e, cmd);
    }
  }

  /** The first event of a produced log is one that creating that very list records. */
  lemma {:induction false} ProducedFirst(id: StreamID, e: Event)
    ensures Produced(id, [e]) <==>
            exists cmd: Command :: cmd.Create? && cmd.listID == id && Decide(ZERO_LIST, cmd) == Recorded(e)
  {
    if Produced(id, [e]) {
      var cmd := CommandFor(id, e);
      assert cmd.Create? && cmd.listID == id && Decide(ZERO_LIST, cmd) == Recorded(e);
    }
  }

  // ------------------------------------------------------------- meaning of a log

  /** Event i added an item that no later event deletes. */
  ghost predicate Survives(log: seq<Event>, i: nat)
    requires i < |log|
  {
    && log[i].ItemWasAdded?
    && forall j :: i < j < |log| ==> log[j] != ItemWasDeleted(log[i].itemID)
  }

  /** The last mark on an identifier after event i, if there is one, says done. */
  ghost predicate LastMarkIsDone(log: seq<Event>, i: nat, id: UUID) {
    exists j :: i < j < |log| && log[j] == ItemMarkedAsDone(id)
                && forall k :: j < k < |log| ==> log[k] != ItemMarkedAsPending(id)
  }

  ghost function ItemAt(log: seq<Event>, i: nat): ItemState
    requires i < |log| && log[i].ItemWasAdded?
  {
    var e := log[i];
    ItemState(e.itemID, e.title, e.description, LastMarkIsDone(log, i, e.itemID), e.dueDate, e.creationTime)
  }

  /** The surviving items among the first n events, in log order. */
  ghost function Survivors(log: seq<Event>, n: nat): seq<ItemState>
    requires n <= |log|
  {
    if n == 0 then []
    else Survivors(log, n - 1) + (if Survives(log, n - 1) then [ItemAt(log, n - 1)] else [])
  }

  /** Setting the mark of every item with an identifier. */
  ghost function Marked(items: seq<ItemState>, id: UUID, done: bool): seq<ItemState> {
    seq(|items|, i requires 0 <= i < |items| => if items[i].id == id then items[i].(completed := done) else items[i])
  }

  /** How the survivors of a log change when one more event is appended. */
  lemma {:induction false} SurvivorsAfter(log: seq<Event>, e: Event, n: nat)
    requires n <= |log|
    ensures var old_, new_ := Survivors(log, n), Survivors(log + [e], n);
            match e
            case ItemMarkedAsDone(id) => new_ == Marked(old_, id, true)
            case ItemMarkedAsPending(id) => new_ == Marked(old_, id, false)
            case ItemWasDeleted(id) => new_ == Without(old_, id)
            case _ => new_ == old_
  {
    if n > 0 {
      SurvivorsAfter(log, e, n - 1);
      var i, grown := n - 1, log + [e];
      if !Survives(log, i) {
        assert Survivors(log, n) == Survivors(log, i);
      }
      assert grown[i] == log[i] && grown[|log|] == e;
      assert forall j :: 0 <= j < |log| ==> grown[j] == log[j];
      if log[i].ItemWasAdded? {
        SurvivesAfter(log, e, i);
        LastMarkAfter(log, e, i, log[i].itemID);
        if e.ItemWasDeleted? {
          WithoutLast(Survivors(log, i), ItemAt(log, i), e.itemID);
        }
      }
    }
  }

  lemma {:induction false} WithoutLast(items: seq<ItemState>, item: ItemState, id: UUID)
    ensures Without(items + [item], id) == Without(items, id) + (if item.id == id then [] else [item])
  {
    assert (items + [item])[..|items|] == items;
  }

  lemma {:induction false} SurvivesAfter(log: seq<Event>, e: Event, i: nat)
    requires i < |log| && log[i].ItemWasAdded?
    ensures Survives(log + [e], i) <==> Survives(log, i) && e != ItemWasDeleted(log[i].itemID)
  {
    var grown := log + [e];
    assert grown[|log|] == e;
    if Survives(grown, i) {
      forall j | i < j < |log|
        ensures log[j] != ItemWasDeleted(log[i].itemID)
      {
        assert grown[j] == log[j];
      }
    }
  }

  lemma {:induction false} LastMarkAfter(log: seq<Event>, e: Event, i: nat, id: UUID)
    requires i < |log|
    ensures e == ItemMarkedAsDone(id) ==> LastMarkIsDone(log + [e], i, id)
    ensures e == ItemMarkedAsPending(id) ==> !LastMarkIsDone(log + [e], i, id)
    ensures e != ItemMarkedAsDone(id) && e != ItemMarkedAsPending(id) ==>
              (LastMarkIsDone(log + [e], i, id) <==> LastMarkIsDone(log, i, id))
  {
    var grown := log + [e];
    assert grown[|log|] == e;
    assert forall j :: 0 <= j < |log| ==> grown[j] == log[j];
    if e != ItemMarkedAsDone(id) && e != ItemMarkedAsPending(id) {
      if LastMarkIsDone(log, i, id) {
        var j :| i < j < |log| && log[j] == ItemMarkedAsDone(id)
                 && forall k :: j < k < |log| ==> log[k] != ItemMarkedAsPending(id);
        assert grown[j] == ItemMarkedAsDone(id);
        assert forall k :: j < k < |grown| ==> grown[k] != ItemMarkedAsPending(id);
      }
      if LastMarkIsDone(grown, i, id) {
        var j :| i < j < |grown| && grown[j] == ItemMarkedAsDone(id)
                 && forall k :: j < k < |grown| ==> grown[k] != ItemMarkedAsPending(id);
        assert j < |log| && log[j] == ItemMarkedAsDone(id);
        assert forall k :: j < k < |log| ==> grown[k] == log[k];
      }
    }
  }

  /** With distinct identifiers, marking the first match is marking every match. */
  lemma {:induction false} MarkOnce(items: seq<ItemState>, id: UUID, done: bool)
    requires Distinct(items) && IndexOf(items, id) < |items|
    ensures var i := IndexOf(items, id);
            items[i := items[i].(completed := done)] == Marked(items, id, done)
  {
  }

  /**
   The declarative meaning of a log. The replayed list has what its first event
   says and, in log order, the added items that are not deleted later, each
   completed exactly when the last mark after its addition says done.
   */
  lemma {:induction false} LogMeaning(id: StreamID, log: seq<Event>)
    requires Produced(id, log)
    ensures Replay(TODO, log).ok
    ensures Replay(TODO, log).state.items == Survivors(log, |log|)
    ensures log != [] ==>
              && log[0].WasCreated?
              && Replay(TODO, log).state ==
                 ListState(id, log[0].title, log[0].owner, log[0].creationTime, Survivors(log, |log|))
    decreases |log|
  {
    if log != [] {
      var last := |log| - 1;
      var front, e := log[..last], log[last];
      assert log == front + [e];
      ProducedReplays(id, log);
      ProducedPrefix(id, log, last);
      LogMeaning(id, front);
      FoldOne(TODO, ZERO_LIST, front, e);
      SurvivorsAfter(front, e, last);
      var items := Replay(TODO, front).state.items;
      if last > 0 {
        ProducedReplays(id, front);
        if e.ItemMarkedAsDone? || e.ItemMarkedAsPending? {
          MarkOnce(items, e.itemID, e.ItemMarkedAsDone?);
        }
      }
      if e.ItemWasAdded? {
        assert Survives(log, last) && !LastMarkIsDone(log, last, e.itemID);
      }
    }
  }
}
