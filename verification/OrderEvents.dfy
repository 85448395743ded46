/** What the published events say about the table. */
module OrderEvents {
  import opened Common
  import opened Calendars
  import opened OrderForms
  import opened Orders
  import opened Events
  import opened Batching
  import opened OrderStore

  /** What a client of one workspace shows. */
  type View = map<Id, OrderDto>

  function ViewOf(orders: map<Id, Order>, workspace: Id): View {
    map id | id in orders && orders[id].workspace == workspace :: ToDto(orders[id])
  }

  function PutAll(view: View, items: seq<OrderDto>): View
    decreases |items|
  {
    if items == [] then view else PutAll(view[items[0].id := items[0]], items[1..])
  }

  /** A client applies an event to what it shows. A clear with a cut-off date removes the orders
      created on earlier business dates. */
  function Apply(cal: Calendar, view: View, e: Event): View {
    match e
    case Upsert(item) => view[item.id := item]
    case UpsertMany(items) => PutAll(view, items)
    case Deleted(id) => view - {id}
    case Cleared(_, before) =>
      if before.None? then map[]
      else map id | id in view && cal.dateOf(view[id].createdAt * NANOS_PER_SECOND) >= before.value :: view[id]
  }

  function Fold(cal: Calendar, view: View, events: seq<Event>): View
    decreases |events|
  {
    if events == [] then view else Fold(cal, Apply(cal, view, events[0]), events[1..])
  }

  /** The events addressed to one workspace. */
  function Addressed(frames: seq<Frame>, workspace: Id): seq<Event> {
    if frames == [] then []
    else (if frames[0].workspace == workspace then [frames[0].event] else []) + Addressed(frames[1..], workspace)
  }

  lemma {:induction false} FoldAppend(cal: Calendar, view: View, a: seq<Event>, b: seq<Event>)
    ensures Fold(cal, view, a + b) == Fold(cal, Fold(cal, view, a), b)
    decreases |a|
  {
    hide Apply;
    if a == [] {
      assert a + b == b;
    } else {
      assert (a + b)[1..] == a[1..] + b;
      FoldAppend(cal, Apply(cal, view, a[0]), a[1..], b);
    }
  }

  lemma {:induction false} FoldSingles(cal: Calendar, view: View, items: seq<OrderDto>)
    ensures Fold(cal, view, Expand(UpsertMany(items))) == PutAll(view, items)
    decreases |items|
  {
    if items != [] {
      assert Expand(UpsertMany(items))[1..] == Expand(UpsertMany(items[1..]));
      FoldSingles(cal, view[items[0].id := items[0]], items[1..]);
    }
  }

  lemma FoldOne(cal: Calendar, view: View, e: Event)
    ensures Fold(cal, view, [e]) == Apply(cal, view, e)
    ensures Fold(cal, view, Expand(e)) == Apply(cal, view, e)
  {
    if e.UpsertMany? { FoldSingles(cal, view, e.items); }
    assert [e][1..] == [];
  }

  /** A client that is sent single events and one that is sent batches end up showing the same. */
  lemma {:induction false} OpeningIsInvisible(cal: Calendar, view: View, events: seq<Event>)
    ensures Fold(cal, view, Opened(events)) == Fold(cal, view, events)
    decreases |events|
  {
    hide Apply;
    if events != [] {
      FoldAppend(cal, view, Expand(events[0]), Opened(events[1..]));
      FoldOne(cal, view, events[0]);
      OpeningIsInvisible(cal, Apply(cal, view, events[0]), events[1..]);
    }
  }

  // ---- One command ----

  lemma {:induction false} AddressedAll(frames: seq<Frame>, workspace: Id, reader: Id)
    requires forall i :: 0 <= i < |frames| ==> frames[i].workspace == workspace
    ensures Addressed(frames, reader) == if reader == workspace then EventsOf(frames) else []
  {
    if frames != [] {
      AddressedAll(frames[1..], workspace, reader);
      assert EventsOf(frames) == [frames[0].event] + EventsOf(frames[1..]);
    }
  }

  /** Batches of one workspace are published to that workspace. */
  lemma PublishedWorkspace(cost: FrameCost, items: seq<Order>, workspace: Id)
    requires forall i :: 0 <= i < |items| ==> items[i].workspace == workspace
    ensures forall i :: 0 <= i < |Published(cost, items)| ==> Published(cost, items)[i].workspace == workspace
  {
    GreedyIsLegal(cost, items);
    if |items| != 1 {
      var parts: seq<seq<Order>> := Greedy(cost, items);
      forall i | 0 <= i < |parts| ensures parts[i][0].workspace == workspace {
        FlattenHolds(parts, i);
        assert parts[i][0] in items;
      }
    }
  }

  lemma {:induction false} InsertedView(orders: map<Id, Order>, items: seq<Order>, workspace: Id, reader: Id)
    requires Inserted(orders, items).Some?
    requires forall i :: 0 <= i < |items| ==> items[i].workspace == workspace
    ensures ViewOf(Inserted(orders, items).value, reader) ==
            if reader == workspace then PutAll(ViewOf(orders, reader), ToDtos(items)) else ViewOf(orders, reader)
    decreases |items|
  {
    hide ToDto, Storable;
    if items != [] {
      var next := orders[items[0].id := items[0]];
      InsertedView(next, items[1..], workspace, reader);
      assert ToDtos(items)[1..] == ToDtos(items[1..]);
      if reader == workspace {
        PutView(orders, items[0], reader);
      } else {
        assert ViewOf(next, reader) == ViewOf(orders, reader);
      }
    }
  }

  lemma PutView(orders: map<Id, Order>, o: Order, reader: Id)
    requires o.workspace == reader
    ensures ViewOf(orders[o.id := o], reader) == ViewOf(orders, reader)[ToDto(o).id := ToDto(o)]
  {
  }

  lemma CreateEvents(cal: Calendar, cost: FrameCost, db: Db, c: Command, reader: Id)
    requires c.Create? && WellFormed(c)
    ensures var out := ExecCreate(cal, cost, db, c);
            Fold(cal, ViewOf(db.orders, reader), Addressed(out.frames, reader)) == ViewOf(out.db.orders, reader)
  {
    hide Fold, ViewOf, Normalized, Item, Published, Inserted;
    var out := ExecCreate(cal, cost, db, c);
    NothingToFold(cal, ViewOf(db.orders, reader), reader);
    if out.error.None? {
      var form := Normalized(c.form).value;
      var key := CounterKey(c.workspace, cal.dateOf(c.now));
      var items := Items(cal, c, form, Allocated(db.counters, key, c.quantity).value[key] - c.quantity + 1);
      ItemsWorkspace(cal, c, form, Allocated(db.counters, key, c.quantity).value[key] - c.quantity + 1);
      InsertedView(db.orders, items, c.workspace, reader);
      PublishedWorkspace(cost, items, c.workspace);
      AddressedAll(out.frames, c.workspace, reader);
      var view := ViewOf(db.orders, reader);
      OpeningIsInvisible(cal, view, EventsOf(out.frames));
      BatchingRoundTrip(cost, items);
      FoldSingles(cal, view, ToDtos(items));
    }
  }

  lemma ItemsWorkspace(cal: Calendar, c: Command, form: OrderForm, start: nat)
    requires c.Create?
    ensures forall i :: 0 <= i < |c.ids| ==> Items(cal, c, form, start)[i].workspace == c.workspace
  {
  }

  lemma NothingToFold(cal: Calendar, view: View, reader: Id)
    ensures Fold(cal, view, Addressed([], reader)) == view && Fold(cal, view, []) == view
  {
  }

  lemma MutateEvents(cal: Calendar, cost: FrameCost, db: Db, req: Request, reader: Id)
    requires Keyed(db.orders)
    ensures var out := ExecMutate(cost, db, req);
            Fold(cal, ViewOf(db.orders, reader), Addressed(out.frames, reader)) == ViewOf(out.db.orders, reader)
  {
    hide Fold, Decide, Precheck, Storable;
    var out := ExecMutate(cost, db, req);
    NothingToFold(cal, ViewOf(db.orders, reader), reader);
    if out.frames != [] {
      var row := out.db.orders[req.orderId];
      DecideKeepsIdentity(req, db.orders[req.orderId]);
      AddressedAll(out.frames, req.workspace, reader);
      assert EventsOf(out.frames) == [Upsert(ToDto(row))];
      FoldOne(cal, ViewOf(db.orders, reader), Upsert(ToDto(row)));
      if reader == req.workspace {
        PutView(db.orders, row, reader);
      } else {
        assert ViewOf(out.db.orders, reader) == ViewOf(db.orders, reader);
      }
    }
  }

  lemma DecideKeepsIdentity(req: Request, current: Order)
    requires Precheck(req).None?
    ensures Decide(req, current).Write? ==> SameIdentity(Decide(req, current).updated, current)
  {
  }

  lemma RemoveEvents(cal: Calendar, db: Db, workspace: Id, id: Id, reader: Id)
    ensures var out := ExecRemove(db, workspace, id);
            Fold(cal, ViewOf(db.orders, reader), Addressed(out.frames, reader)) == ViewOf(out.db.orders, reader)
  {
    hide Fold;
    var out := ExecRemove(db, workspace, id);
    NothingToFold(cal, ViewOf(db.orders, reader), reader);
    if out.error.None? {
      AddressedAll(out.frames, workspace, reader);
      assert EventsOf(out.frames) == [Deleted(id)];
      FoldOne(cal, ViewOf(db.orders, reader), Deleted(id));
    }
  }

  /** The rows a clear keeps are those a client keeps. */
  lemma SameRowsCleared(cal: Calendar, o: Order, date: int)
    requires cal.Valid()
    ensures o.createdAt < cal.DayStart(date) <==> cal.dateOf(ToDto(o).createdAt * NANOS_PER_SECOND) < date
  {
    BeforeDayStart(cal, o.createdAt, date);
    WholeSecondKeepsDate(cal, o.createdAt);
  }

  lemma ClearedView(cal: Calendar, orders: map<Id, Order>, workspace: Id, before: Option<int>, count: nat, reader: Id)
    requires cal.Valid()
    ensures var cutoff := if before.None? then None else Some(cal.DayStart(before.value));
            ViewOf(ClearOrders(orders, workspace, cutoff), reader) ==
            if reader == workspace then Apply(cal, ViewOf(orders, reader), Cleared(count, before))
            else ViewOf(orders, reader)
  {
    hide ToDto;
    var cutoff := if before.None? then None else Some(cal.DayStart(before.value));
    if before.Some? && reader == workspace { ClearedViewBefore(cal, orders, workspace, before.value, count); }
  }

  lemma ClearedViewBefore(cal: Calendar, orders: map<Id, Order>, workspace: Id, date: int, count: nat)
    requires cal.Valid()
    ensures ViewOf(ClearOrders(orders, workspace, Some(cal.DayStart(date))), workspace) ==
            Apply(cal, ViewOf(orders, workspace), Cleared(count, Some(date)))
  {
    hide ToDto, cal.Valid;
    var kept := ViewOf(ClearOrders(orders, workspace, Some(cal.DayStart(date))), workspace);
    var shown := Apply(cal, ViewOf(orders, workspace), Cleared(count, Some(date)));
    forall id | id in orders ensures id in kept <==> id in shown {
      SameRowsCleared(cal, orders[id], date);
    }
  }

  lemma ClearEvents(cal: Calendar, db: Db, c: Command, reader: Id)
    requires cal.Valid() && c.Clear?
    ensures var out := ExecClear(cal, db, c);
            Fold(cal, ViewOf(db.orders, reader), Addressed(out.frames, reader)) == ViewOf(out.db.orders, reader)
  {
    hide Fold, ViewOf, ClearOrders, ResetCounters, Apply;
    var out := ExecClear(cal, db, c);
    var view := ViewOf(db.orders, reader);
    NothingToFold(cal, view, reader);
    if out.error.None? {
      AddressedAll(out.frames, c.workspace, reader);
      var e := out.frames[0].event;
      assert EventsOf(out.frames) == [e];
      FoldOne(cal, view, e);
      ClearedView(cal, db.orders, c.workspace, e.before, e.count, reader);
    }
  }

  /** Events describe the change completely: for every command, whatever its outcome, folding
      the events it published to a workspace over what a client of that workspace showed gives
      what the table holds for it now. */
  lemma EventsDescribeChange(cal: Calendar, cost: FrameCost, db: Db, c: Command, reader: Id)
    requires cal.Valid() && Keyed(db.orders) && WellFormed(c)
    ensures var out := Exec(cal, cost, db, c);
            Fold(cal, ViewOf(db.orders, reader), Addressed(out.frames, reader)) == ViewOf(out.db.orders, reader)
  {
    hide Fold, ViewOf, ExecCreate, ExecMutate, ExecRemove, ExecClear;
    match c
    case Create(_, _, _, _, _, _) => CreateEvents(cal, cost, db, c, reader);
    case Mutate(req) => MutateEvents(cal, cost, db, req, reader);
    case Remove(workspace, id) => RemoveEvents(cal, db, workspace, id, reader);
    case Clear(_, _, _, _, _) => ClearEvents(cal, db, c, reader);
  }

  // ---- Runs ----

  /** The frames of a run, with commits published in order. */
  function RunFrames(cal: Calendar, cost: FrameCost, db: Db, commands: seq<Command>): seq<Frame>
    requires forall i :: 0 <= i < |commands| ==> WellFormed(commands[i])
    decreases |commands|
  {
    if commands == [] then []
    else
      var out := Exec(cal, cost, db, commands[0]);
      out.frames + RunFrames(cal, cost, out.db, commands[1..])
  }

  lemma {:induction false} AddressedAppend(a: seq<Frame>, b: seq<Frame>, reader: Id)
    ensures Addressed(a + b, reader) == Addressed(a, reader) + Addressed(b, reader)
  {
    if a == [] {
      assert a + b == b;
    } else {
      var rest := a[1..] + b;
      assert a + b == [a[0]] + rest;
      AddressedAppend(a[1..], b, reader);
      AddressedHead(a[0], rest, reader);
      AddressedHead(a[0], a[1..], reader);
      assert a == [a[0]] + a[1..];
    }
  }

  lemma AddressedHead(f: Frame, rest: seq<Frame>, reader: Id)
    ensures Addressed([f] + rest, reader) == (if f.workspace == reader then [f.event] else []) + Addressed(rest, reader)
  {
    assert ([f] + rest)[1..] == rest;
  }

  lemma StoreIsKeyed(cal: Calendar, db: Db)
    requires StoreOk(cal, db)
    ensures Keyed(db.orders)
  {
    forall id | id in db.orders ensures db.orders[id].id == id {
      assert StoredOk(cal, db.counters, id, db.orders[id]);
    }
  }

  /** The same for whole runs. */
  lemma {:induction false} EventsDescribeRun(cal: Calendar, cost: FrameCost, db: Db, commands: seq<Command>, reader: Id)
    requires cal.Valid() && StoreOk(cal, db) && AllFresh(cal, cost, db, commands)
    ensures forall i :: 0 <= i < |commands| ==> WellFormed(commands[i])
    ensures Fold(cal, ViewOf(db.orders, reader), Addressed(RunFrames(cal, cost, db, commands), reader)) ==
            ViewOf(RunAll(cal, cost, db, commands).orders, reader)
    decreases |commands|
  {
    hide StoreOk, Exec, Fold, ViewOf;
    FreshIsWellFormed(cal, cost, db, commands);
    if commands == [] {
      NothingToFold(cal, ViewOf(db.orders, reader), reader);
    } else {
      var c := commands[0];
      var out := Exec(cal, cost, db, c);
      StoreIsKeyed(cal, db);
      EventsDescribeChange(cal, cost, db, c, reader);
      ExecKeepsStore(cal, cost, db, c);
      EventsDescribeRun(cal, cost, out.db, commands[1..], reader);
      var rest := RunFrames(cal, cost, out.db, commands[1..]);
      AddressedAppend(out.frames, rest, reader);
      FoldAppend(cal, ViewOf(db.orders, reader), Addressed(out.frames, reader), Addressed(rest, reader));
    }
  }
}

/** The store, the events and the delivery protocol put together. */
module EndToEnd {
  import opened Common
  import opened Calendars
  import opened Events
  import opened Batching
  import opened OrderStore
  import opened OrderEvents
  import opened OrderForms
  import opened Orders
  import opened FrameSizes
  import Delivery
  import Progress = DeliveryProgress

  /** A connected client that has caught up shows the table: take the store when the client
      subscribed, any run of commands whose events are what was published since, and any
      interleaving of the delivery protocol that has left nothing buffered or half sent. Folding
      what the client was written over what it showed then gives exactly the orders now stored,
      for a client that is sent batches and for one that is not. */
  lemma {:induction false} CaughtUpClientIsCurrent(cal: Calendar, cost: FrameCost, db: Db, commands: seq<Command>,
                                actions: seq<Delivery.Action>, id: Id)
    requires cal.Valid() && StoreOk(cal, db) && AllFresh(cal, cost, db, commands)
    requires forall i :: 0 <= i < |commands| ==> WellFormed(commands[i])
    requires id in Delivery.Run(actions).connections
    requires var s := Delivery.Run(actions);
             var c := s.connections[id];
             && s.lock.Free? && Delivery.Registered(s, id)
             && (c.loop.AtTop? || c.loop.Waiting?) && c.chan.queue == []
             && Delivery.Stream(s, c) == Addressed(RunFrames(cal, cost, db, commands), c.workspace)
    ensures var c := Delivery.Run(actions).connections[id];
            Fold(cal, ViewOf(db.orders, c.workspace), c.written) ==
            ViewOf(RunAll(cal, cost, db, commands).orders, c.workspace)
  {
    hide Delivery.Run, StoreOk, AllFresh, Fold, ViewOf, RunFrames, RunAll;
    var s := Delivery.Run(actions);
    var c := s.connections[id];
    Delivery.NoSilentLoss(actions, id);
    assert Opened(c.written) == Opened(Delivery.Stream(s, c)) by { Delivery.OpenedNothing(); }
    var view := ViewOf(db.orders, c.workspace);
    OpeningIsInvisible(cal, view, c.written);
    OpeningIsInvisible(cal, view, Delivery.Stream(s, c));
    EventsDescribeRun(cal, cost, db, commands, c.workspace);
  }

  /** Such a connection exists whatever the broker has been through: a client that subscribes while nobody
      is publishing can be written all the events of any run of commands, and then shows the table. */
  lemma {:induction false} SomeClientCatchesUp(cal: Calendar, cost: FrameCost, db: Db, commands: seq<Command>,
                                                workspace: Id,
                                                batches: bool, earlier: seq<Delivery.Action>, id: Id)
    returns (actions: seq<Delivery.Action>)
    requires cal.Valid() && StoreOk(cal, db) && AllFresh(cal, cost, db, commands)
    requires Delivery.Run(earlier).lock.Free? && id !in Delivery.Run(earlier).connections
    ensures forall i :: 0 <= i < |commands| ==> WellFormed(commands[i])
    ensures earlier < actions && actions[|earlier|] == Delivery.Subscribe(id, workspace, batches)
    ensures var s := Delivery.Run(actions);
            && Progress.Live(s, id)
            && var c := s.connections[id];
            && c.workspace == workspace && c.batches == batches && c.loop.AtTop? && c.chan.queue == []
            && Delivery.Stream(s, c) == Addressed(RunFrames(cal, cost, db, commands), workspace)
            && Fold(cal, ViewOf(db.orders, workspace), c.written) ==
               ViewOf(RunAll(cal, cost, db, commands).orders, workspace)
  {
    hide Delivery.Run, StoreOk, AllFresh, Fold, ViewOf, RunFrames, RunAll;
    FreshIsWellFormed(cal, cost, db, commands);
    var events := Addressed(RunFrames(cal, cost, db, commands), workspace);
    var subscribed := earlier + [Delivery.Subscribe(id, workspace, batches)];
    Subscribed(earlier, id, workspace, batches);
    var more := Progress.EverythingCanArrive(subscribed, id, events);
    actions := subscribed + more;
    CaughtUpClientIsCurrent(cal, cost, db, commands, actions, id);
  }

  lemma Subscribed(earlier: seq<Delivery.Action>, id: Id, workspace: Id, batches: bool)
    requires Delivery.Run(earlier).lock.Free? && id !in Delivery.Run(earlier).connections
    ensures var s := Delivery.Run(earlier + [Delivery.Subscribe(id, workspace, batches)]);
            && Progress.Live(s, id)
            && var c := s.connections[id];
            && c.workspace == workspace && c.batches == batches && c.since == |Delivery.Log(s, workspace)|
  {
    var a := Delivery.Subscribe(id, workspace, batches);
    assert (earlier + [a])[..|earlier|] == earlier;
    assert Delivery.Run(earlier + [a]) == Delivery.Step(Delivery.Run(earlier), a);
  }

  lemma {:induction false} InsertedAreStorable(orders: map<Id, Order>, items: seq<Order>, i: nat)
    requires Inserted(orders, items).Some? && i < |items|
    ensures Storable(items[i])
    decreases |items|
  {
    hide Storable;
    if i > 0 { InsertedAreStorable(orders[items[0].id := items[0]], items[1..], i - 1); }
  }

  /** Every frame a create publishes is within the frame budget, whatever the note of the form
      and however many orders it makes. */
  lemma CreateFramesFit(cal: Calendar, stamp: StampSize, db: Db, c: Command, k: nat)
    requires cal.Prints() && StoreOk(cal, db) && c.Create? && WellFormed(c) && FreshIds(cal, db, c)
    requires forall t :: stamp(t) <= 25
    requires k < |ExecCreate(cal, x => BatchSize(stamp, x), db, c).frames|
    ensures var e := ExecCreate(cal, x => BatchSize(stamp, x), db, c).frames[k].event;
            (e.Upsert? || e.UpsertMany?) && FrameBytes(stamp, e) <= MAX_FRAME_BYTES
  {
    hide cal.Prints, Published, StoreOk, Normalized, Item, BuildDisplayNo, BatchSize, SingleSize, RowOk, Storable;
    var cost := x => BatchSize(stamp, x);
    var form := Normalized(c.form).value;
    var key := CounterKey(c.workspace, cal.dateOf(c.now));
    var start := Allocated(db.counters, key, c.quantity).value[key] - c.quantity + 1;
    var items := Items(cal, c, form, start);
    forall i | 0 <= i < |items|
      ensures BatchSize(stamp, [ToDto(items[i])]) <= MAX_FRAME_BYTES
              && SingleSize(stamp, ToDto(items[i])) <= MAX_FRAME_BYTES
    {
      InsertedAreStorable(db.orders, items, i);
      ItemFits(cal, stamp, c, start, i);
    }
    FramesFit(stamp, items, k);
  }

  lemma ItemFits(cal: Calendar, stamp: StampSize, c: Command, start: nat, i: nat)
    requires cal.Prints() && c.Create? && Normalized(c.form).Success? && cal.Covers(c.now)
    requires i < |c.ids| && start + i <= MAX_INT32
    requires Storable(Item(cal, c, Normalized(c.form).value, start, i))
    requires forall t :: stamp(t) <= 25
    ensures var d := ToDto(Item(cal, c, Normalized(c.form).value, start, i));
            BatchSize(stamp, [d]) <= MAX_FRAME_BYTES && SingleSize(stamp, d) <= MAX_FRAME_BYTES
  {
    hide Normalized, BuildDisplayNo, BatchSize, SingleSize, RowOk, Storable;
    var civil := cal.civil(cal.dateOf(c.now));
    NewOrderIsOk(c.ids[i], c.workspace, BuildDisplayNo(civil, start + i), c.form, c.user, c.now);
    SingleOrderFits(stamp, Item(cal, c, Normalized(c.form).value, start, i), civil, start + i);
  }
}
