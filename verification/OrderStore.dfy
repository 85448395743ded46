/** The orders table and the daily counters, changed by whole transactions, and the events each
    committed transaction publishes. */
module OrderStore {
  import opened Common
  import opened Calendars
  import opened OrderForms
  import opened Orders
  import opened Events
  import opened Batching

  datatype CounterKey = CounterKey(workspace: Id, date: int)

  datatype Db = Db(orders: map<Id, Order>, counters: map<CounterKey, nat>)

  const EMPTY := Db(map[], map[])

  datatype Error =
    | InvalidQuantity | InvalidInput(error: FormError) | CounterFull | RowRejected
    | Forbidden | Unconfirmed | InvalidMode
    | Mutation(refusal: Refusal)

  datatype Command =
    | Create(workspace: Id, user: Id, quantity: int, form: OrderForm, ids: seq<Id>, now: Instant)
    | Mutate(req: Request)
    | Remove(workspace: Id, id: Id)
    | Clear(workspace: Id, owner: bool, confirm: bool, mode: string, now: Instant)

  /** The database after a command, how it ended, and the frames published after the commit. */
  datatype Outcome = Outcome(db: Db, error: Option<Error>, frames: seq<Frame>)

  function Failed(db: Db, e: Error): Outcome { Outcome(db, Some(e), []) }

  // ---- Rows and counters ----

  function LastSequence(counters: map<CounterKey, nat>, key: CounterKey): nat {
    if key in counters then counters[key] else 0
  }

  /** Counter.Allocate reserves `quantity` consecutive numbers; the column is 32 bits wide. */
  function Allocated(counters: map<CounterKey, nat>, key: CounterKey, quantity: nat): Option<map<CounterKey, nat>> {
    var last := LastSequence(counters, key) + quantity;
    if last > MAX_INT32 then None else Some(counters[key := last])
  }

  /** The counter an order's number was taken from. */
  function CounterOf(cal: Calendar, o: Order): CounterKey { CounterKey(o.workspace, cal.dateOf(o.createdAt)) }

  predicate SameNumber(a: Order, b: Order) {
    a.workspace == b.workspace && a.displayNo == b.displayNo
  }

  /** The database takes one more row unless a key, the unique index on (workspace, display
      number), or a column width refuses it. */
  predicate RowFits(orders: map<Id, Order>, o: Order) {
    o.id !in orders && Storable(o) && forall id :: id in orders ==> !SameNumber(orders[id], o)
  }

  /** A multi-row insert: all rows or none. */
  function Inserted(orders: map<Id, Order>, items: seq<Order>): Option<map<Id, Order>>
    decreases |items|
  {
    if items == [] then Some(orders)
    else if RowFits(orders, items[0]) then Inserted(orders[items[0].id := items[0]], items[1..])
    else None
  }

  function Item(cal: Calendar, c: Command, form: OrderForm, start: nat, i: nat): Order
    requires c.Create? && i < |c.ids|
  {
    NewOrder(c.ids[i], c.workspace, BuildDisplayNo(cal.civil(cal.dateOf(c.now)), start + i), form, c.user, c.now)
  }

  function Items(cal: Calendar, c: Command, form: OrderForm, start: nat): (r: seq<Order>)
    requires c.Create?
    ensures |r| == |c.ids|
  {
    seq(|c.ids|, i requires 0 <= i < |c.ids| => Item(cal, c, form, start, i))
  }

  predicate ClearedCounter(k: CounterKey, workspace: Id, before: Option<int>) {
    k.workspace == workspace && (before.Some? ==> k.date < before.value)
  }

  function ResetCounters(counters: map<CounterKey, nat>, workspace: Id, before: Option<int>): map<CounterKey, nat> {
    map k | k in counters && !ClearedCounter(k, workspace, before) :: counters[k]
  }

  // ---- Commands ----

  function ExecCreate(cal: Calendar, cost: FrameCost, db: Db, c: Command): Outcome
    requires c.Create? && (c.quantity > 0 ==> |c.ids| == c.quantity)
  {
    if c.quantity <= 0 then Failed(db, InvalidQuantity)
    else match Normalized(c.form)
      case Failure(e) => Failed(db, InvalidInput(e))
      case Success(form) =>
        var key := CounterKey(c.workspace, cal.dateOf(c.now));
        match Allocated(db.counters, key, c.quantity)
        case None => Failed(db, CounterFull)
        case Some(counters) =>
          var items := Items(cal, c, form, counters[key] - c.quantity + 1);
          match Inserted(db.orders, items)
          case None => Failed(db, RowRejected)
          case Some(orders) => Outcome(Db(orders, counters), None, Published(cost, items))
  }

  function ExecMutate(cost: FrameCost, db: Db, req: Request): Outcome {
    var bad := Precheck(req);
    if bad.Some? then Failed(db, Mutation(bad.value))
    else if req.orderId !in db.orders || db.orders[req.orderId].workspace != req.workspace
    then Failed(db, Mutation(NotFound))
    else
      var current := db.orders[req.orderId];
      match Decide(req, current)
      case Refuse(r) => Failed(db, Mutation(r))
      case Keep => Outcome(db, None, [])
      case Write(u) =>
        var row := u.(version := current.version + 1);
        if !Storable(row) then Failed(db, Mutation(Unstorable))
        else Outcome(db.(orders := db.orders[req.orderId := row]), None, Published(cost, [row]))
  }

  function ExecRemove(db: Db, workspace: Id, id: Id): Outcome {
    if id !in db.orders || db.orders[id].workspace != workspace then Failed(db, Mutation(NotFound))
    else Outcome(db.(orders := db.orders - {id}), None, [Frame(workspace, Deleted(id))])
  }

  function ClearTx(cal: Calendar, db: Db, workspace: Id, before: Option<int>): Db {
    var cutoff := if before.None? then None else Some(cal.DayStart(before.value));
    Db(ClearOrders(db.orders, workspace, cutoff), ResetCounters(db.counters, workspace, before))
  }

  function ExecClear(cal: Calendar, db: Db, c: Command): Outcome
    requires c.Clear?
  {
    if !c.owner then Failed(db, Forbidden)
    else if !c.confirm then Failed(db, Unconfirmed)
    else if c.mode != "" && c.mode != "all" && c.mode != "before_today" then Failed(db, InvalidMode)
    else
      var before := if c.mode == "before_today" then Some(cal.dateOf(c.now)) else None;
      var after := ClearTx(cal, db, c.workspace, before);
      Outcome(after, None, [Frame(c.workspace, Cleared(|db.orders.Keys - after.orders.Keys|, before))])
  }

  /** A create comes with as many new identifiers as orders. */
  predicate WellFormed(c: Command) {
    c.Create? && c.quantity > 0 ==> |c.ids| == c.quantity
  }

  function Exec(cal: Calendar, cost: FrameCost, db: Db, c: Command): Outcome
    requires WellFormed(c)
  {
    match c
    case Create(_, _, _, _, _, _) => ExecCreate(cal, cost, db, c)
    case Mutate(req) => ExecMutate(cost, db, req)
    case Remove(workspace, id) => ExecRemove(db, workspace, id)
    case Clear(_, _, _, _, _) => ExecClear(cal, db, c)
  }

  // ---- Display numbers ----

  /** A stored order carries the number of its creation date and a sequence its day's counter
      has handed out. */
  predicate NumberOk(cal: Calendar, counters: map<CounterKey, nat>, o: Order) {
    var date, n := cal.dateOf(o.createdAt), ParseSequence(o.displayNo);
    && cal.Covers(o.createdAt)
    && 1 <= n <= LastSequence(counters, CounterKey(o.workspace, date))
    && o.displayNo == BuildDisplayNo(cal.civil(date), n)
  }

  predicate StoredOk(cal: Calendar, counters: map<CounterKey, nat>, id: Id, o: Order) {
    o.id == id && RowOk(o) && Storable(o) && NumberOk(cal, counters, o)
  }

  ghost predicate StoreOk(cal: Calendar, db: Db) {
    && (forall id :: id in db.orders ==> StoredOk(cal, db.counters, id, db.orders[id]))
    && (forall a, b :: a in db.orders && b in db.orders && SameNumber(db.orders[a], db.orders[b]) ==> a == b)
    && (forall k :: k in db.counters ==> db.counters[k] <= MAX_INT32)
  }

  /** Generated identifiers are new, and the clock reads a date that can be printed. */
  predicate FreshIds(cal: Calendar, db: Db, c: Command) {
    c.Create? ==>
      && cal.Covers(c.now)
      && (forall i :: 0 <= i < |c.ids| ==> c.ids[i] !in db.orders)
      && (forall i, j :: 0 <= i < j < |c.ids| ==> c.ids[i] != c.ids[j])
  }

  /** Keeping some of the orders, each with its counter untouched, keeps the store well formed. */
  lemma FewerRowsStayOk(cal: Calendar, db: Db, db': Db)
    requires StoreOk(cal, db)
    requires forall id :: id in db'.orders ==> id in db.orders && db'.orders[id] == db.orders[id]
    requires forall k :: k in db'.counters ==> k in db.counters && db'.counters[k] == db.counters[k]
    requires forall id :: id in db'.orders ==>
               var k := CounterOf(cal, db.orders[id]);
               LastSequence(db'.counters, k) == LastSequence(db.counters, k)
    ensures StoreOk(cal, db')
  {
    hide StoredOk, SameNumber;
    forall id | id in db'.orders ensures StoredOk(cal, db'.counters, id, db'.orders[id]) {
      StoredStaysOk(cal, db.counters, db'.counters, id, db.orders[id]);
    }
  }

  /** A stored row depends on no counter but its own. */
  lemma StoredStaysOk(cal: Calendar, counters: map<CounterKey, nat>, counters': map<CounterKey, nat>, id: Id, o: Order)
    requires StoredOk(cal, counters, id, o)
    requires LastSequence(counters', CounterOf(cal, o)) == LastSequence(counters, CounterOf(cal, o))
    ensures StoredOk(cal, counters', id, o)
  {
    hide RowOk, Storable, BuildDisplayNo, ParseSequence;
  }

  lemma ClearKeepsStore(cal: Calendar, db: Db, workspace: Id, before: Option<int>)
    requires cal.Valid() && StoreOk(cal, db)
    ensures StoreOk(cal, ClearTx(cal, db, workspace, before))
  {
    hide StoredOk;
    var db' := ClearTx(cal, db, workspace, before);
    forall id | id in db'.orders
      ensures var k := CounterOf(cal, db.orders[id]);
              LastSequence(db'.counters, k) == LastSequence(db.counters, k)
    {
      if before.Some? { BeforeDayStart(cal, db.orders[id].createdAt, before.value); }
    }
    FewerRowsStayOk(cal, db, db');
  }

  lemma RemoveKeepsStore(cal: Calendar, db: Db, workspace: Id, id: Id)
    requires StoreOk(cal, db)
    ensures StoreOk(cal, ExecRemove(db, workspace, id).db)
  {
    hide StoredOk;
    FewerRowsStayOk(cal, db, ExecRemove(db, workspace, id).db);
  }

  lemma ReplacingKeepsStore(cal: Calendar, db: Db, id: Id, row: Order)
    requires StoreOk(cal, db) && id in db.orders
    requires RowOk(row) && Storable(row) && SameIdentity(row, db.orders[id])
    ensures StoreOk(cal, db.(orders := db.orders[id := row]))
  {
    hide RowOk, Storable, BuildDisplayNo;
    assert StoredOk(cal, db.counters, id, db.orders[id]);
    forall k | k in db.orders && k != id ensures StoredOk(cal, db.counters, k, db.orders[k]) {
    }
  }

  lemma MutateKeepsStore(cal: Calendar, cost: FrameCost, db: Db, req: Request)
    requires StoreOk(cal, db)
    ensures StoreOk(cal, ExecMutate(cost, db, req).db)
  {
    hide RowOk, Storable, Decide, Precheck, NumberOk;
    var db' := ExecMutate(cost, db, req).db;
    if db' != db {
      var current := db.orders[req.orderId];
      assert StoredOk(cal, db.counters, req.orderId, current);
      RowVersion(current);
      DecideKeepsRow(req, current, current.version + 1);
      ReplacingKeepsStore(cal, db, req.orderId, db'.orders[req.orderId]);
    }
  }

  lemma RowVersion(o: Order)
    requires RowOk(o)
    ensures o.version >= 1
  {
  }

  // ---- Create ----

  /** What the batch needs of the rows already stored: earlier numbers of its day are smaller. */
  ghost predicate BelowBatch(cal: Calendar, orders: map<Id, Order>, workspace: Id, date: int, next: nat) {
    forall id :: id in orders && orders[id].workspace == workspace && cal.dateOf(orders[id].createdAt) == date ==>
                   ParseSequence(orders[id].displayNo) < next
  }

  lemma NextRowFits(cal: Calendar, orders: map<Id, Order>, counters: map<CounterKey, nat>, item: Order, n: nat)
    requires cal.Prints() && StoreOk(cal, Db(orders, counters)) && cal.Covers(item.createdAt)
    requires item.id !in orders && RowOk(item) && Storable(item)
    requires item.displayNo == BuildDisplayNo(cal.civil(cal.dateOf(item.createdAt)), n)
    requires 1 <= n <= LastSequence(counters, CounterKey(item.workspace, cal.dateOf(item.createdAt)))
    requires BelowBatch(cal, orders, item.workspace, cal.dateOf(item.createdAt), n)
    ensures RowFits(orders, item)
    ensures StoreOk(cal, Db(orders[item.id := item], counters))
    ensures BelowBatch(cal, orders[item.id := item], item.workspace, cal.dateOf(item.createdAt), n + 1)
  {
    hide RowOk, Storable, BuildDisplayNo, ParseSequence;
    var date := cal.dateOf(item.createdAt);
    DisplayNoRoundTrip(cal.civil(date), n);
    forall id | id in orders ensures !SameNumber(orders[id], item) {
      var o := orders[id];
      assert StoredOk(cal, counters, id, o);
      if SameNumber(o, item) {
        DisplayNoInjective(cal.civil(cal.dateOf(o.createdAt)), ParseSequence(o.displayNo), cal.civil(date), n);
        assert false;
      }
    }
    var orders' := orders[item.id := item];
    forall id | id in orders' ensures StoredOk(cal, counters, id, orders'[id]) {
      if id != item.id { assert StoredOk(cal, counters, id, orders[id]); }
    }
  }

  lemma {:induction false} BatchFits(cal: Calendar, orders: map<Id, Order>, counters: map<CounterKey, nat>,
                                     c: Command, start: nat, i: nat)
    requires cal.Prints() && StoreOk(cal, Db(orders, counters))
    requires c.Create? && Normalized(c.form).Success? && i <= |c.ids| && cal.Covers(c.now)
    requires forall k :: i <= k < |c.ids| ==> c.ids[k] !in orders
    requires forall k, l :: 0 <= k < l < |c.ids| ==> c.ids[k] != c.ids[l]
    requires 1 <= start && start + |c.ids| - 1 <= LastSequence(counters, CounterKey(c.workspace, cal.dateOf(c.now)))
    requires BelowBatch(cal, orders, c.workspace, cal.dateOf(c.now), start + i)
    requires i < |c.ids| ==> Storable(Item(cal, c, Normalized(c.form).value, start, i))
    ensures var items := Items(cal, c, Normalized(c.form).value, start);
            && Inserted(orders, items[i..]).Some?
            && StoreOk(cal, Db(Inserted(orders, items[i..]).value, counters))
    decreases |c.ids| - i
  {
    hide StoreOk, BelowBatch, Normalized, RowOk, BuildDisplayNo, RowFits;
    var form := Normalized(c.form).value;
    var items := Items(cal, c, form, start);
    if i == |c.ids| {
      assert items[i..] == [];
    } else {
      var item := Item(cal, c, form, start, i);
      assert items[i..][0] == item && items[i..][1..] == items[i + 1..];
      NewOrderIsOk(c.ids[i], c.workspace, item.displayNo, c.form, c.user, c.now);
      NextRowFits(cal, orders, counters, item, start + i);
      BatchFits(cal, orders[item.id := item], counters, c, start, i + 1);
    }
  }

  /** Bumping one counter keeps the store well formed. */
  lemma CounterGrows(cal: Calendar, db: Db, key: CounterKey, quantity: nat)
    requires StoreOk(cal, db) && Allocated(db.counters, key, quantity).Some?
    ensures StoreOk(cal, Db(db.orders, Allocated(db.counters, key, quantity).value))
  {
    hide RowOk, Storable;
    var counters := Allocated(db.counters, key, quantity).value;
    forall id | id in db.orders ensures StoredOk(cal, counters, id, db.orders[id]) {
      assert StoredOk(cal, db.counters, id, db.orders[id]);
    }
  }

  /** The unique index never rejects a create: on any store the service can reach, a create
      with fresh identifiers succeeds exactly when the quantity is positive, the form acceptable,
      the day's counter has room, the price fits its column and the note holds no U+0000; the
      store it leaves is again one whose display numbers are unique and covered by their counters. */
  lemma CreateSucceeds(cal: Calendar, cost: FrameCost, db: Db, c: Command)
    requires cal.Prints() && StoreOk(cal, db) && c.Create? && WellFormed(c) && FreshIds(cal, db, c)
    ensures var out := ExecCreate(cal, cost, db, c);
            && StoreOk(cal, out.db)
            && (out.error.None? <==>
                  && c.quantity > 0
                  && Acceptable(c.form)
                  && LastSequence(db.counters, CounterKey(c.workspace, cal.dateOf(c.now))) + c.quantity <= MAX_INT32
                  && TotalPrice(Canonical(c.form)) <= MAX_INT32
                  && '\0' !in c.form.note)
            && (out.error.Some? ==> out.db == db && out.frames == [])
  {
    hide StoreOk, RowOk, Normalized, TotalPrice, BuildDisplayNo, Acceptable, Canonical;
    NormalizeMeaning(c.form);
    NormalizedIsCanonical(c.form);
    CanonicalNote(c.form);
    if c.quantity > 0 && Normalized(c.form).Success? {
      var form := Normalized(c.form).value;
      var key := CounterKey(c.workspace, cal.dateOf(c.now));
      if Allocated(db.counters, key, c.quantity).Some? {
        var counters := Allocated(db.counters, key, c.quantity).value;
        var start := counters[key] - c.quantity + 1;
        CounterGrows(cal, db, key, c.quantity);
        StoredBelow(cal, db, c.workspace, cal.dateOf(c.now), start);
        var items := Items(cal, c, form, start);
        assert items[0..] == items && items[0] == Item(cal, c, form, start, 0);
        FitsByPrice(items[0]);
        if Storable(items[0]) { BatchFits(cal, db.orders, counters, c, start, 0); }
      }
    }
  }

  lemma NormalizedIsCanonical(f: OrderForm)
    ensures Normalized(f).Success? ==> Normalized(f).value == Canonical(f)
  {
  }

  lemma CanonicalNote(f: OrderForm)
    ensures '\0' in Canonical(f).note <==> '\0' in f.note
  {
    TrimKeepsRunes(f.note, '\0');
  }

  lemma StoredBelow(cal: Calendar, db: Db, workspace: Id, date: int, next: nat)
    requires StoreOk(cal, db) && next > LastSequence(db.counters, CounterKey(workspace, date))
    ensures BelowBatch(cal, db.orders, workspace, date, next)
  {
    hide RowOk, Storable, BuildDisplayNo;
    forall id | id in db.orders && db.orders[id].workspace == workspace && cal.dateOf(db.orders[id].createdAt) == date
      ensures ParseSequence(db.orders[id].displayNo) < next
    {
      assert StoredOk(cal, db.counters, id, db.orders[id]);
    }
  }

  /** The custom price is part of the total, so the total decides whether a row fits. */
  lemma FitsByPrice(o: Order)
    requires o.totalPrice == TotalPrice(o.form) && (NormalForm(o.form) || !Storable(o))
    ensures NormalForm(o.form) ==> (Storable(o) <==> o.totalPrice <= MAX_INT32 && '\0' !in o.form.note)
  {
  }

  // ---- Runs ----

  function RunAll(cal: Calendar, cost: FrameCost, db: Db, commands: seq<Command>): Db
    requires forall i :: 0 <= i < |commands| ==> WellFormed(commands[i])
    decreases |commands|
  {
    if commands == [] then db else RunAll(cal, cost, Exec(cal, cost, db, commands[0]).db, commands[1..])
  }

  /** Every create along the run is given identifiers that are new at that moment. */
  ghost predicate AllFresh(cal: Calendar, cost: FrameCost, db: Db, commands: seq<Command>)
    decreases |commands|
  {
    commands == [] ||
    (WellFormed(commands[0]) && FreshIds(cal, db, commands[0])
     && AllFresh(cal, cost, Exec(cal, cost, db, commands[0]).db, commands[1..]))
  }

  lemma ExecKeepsStore(cal: Calendar, cost: FrameCost, db: Db, c: Command)
    requires cal.Valid() && StoreOk(cal, db) && WellFormed(c) && FreshIds(cal, db, c)
    ensures StoreOk(cal, Exec(cal, cost, db, c).db)
  {
    hide StoreOk, ExecMutate, ExecCreate, ExecRemove, ClearTx;
    match c
    case Create(_, _, _, _, _, _) => CreateSucceeds(cal, cost, db, c);
    case Mutate(req) => MutateKeepsStore(cal, cost, db, req);
    case Remove(workspace, id) => RemoveKeepsStore(cal, db, workspace, id);
    case Clear(_, _, _, _, _) =>
      ClearKeepsStore(cal, db, c.workspace, None);
      ClearKeepsStore(cal, db, c.workspace, Some(cal.dateOf(c.now)));
  }

  lemma {:induction false} FreshIsWellFormed(cal: Calendar, cost: FrameCost, db: Db, commands: seq<Command>)
    requires AllFresh(cal, cost, db, commands)
    ensures forall i :: 0 <= i < |commands| ==> WellFormed(commands[i])
    decreases |commands|
  {
    hide Exec;
    if commands != [] {
      FreshIsWellFormed(cal, cost, Exec(cal, cost, db, commands[0]).db, commands[1..]);
      assert forall i :: 1 <= i < |commands| ==> commands[i] == commands[1..][i - 1];
    }
  }

  /** In every run of creates, mutations, removals and clears from the empty store, display
      numbers are unique within a workspace, every stored order's sequence is at most its day's
      counter, and every stored row is well formed. */
  lemma {:induction false} RunKeepsStore(cal: Calendar, cost: FrameCost, db: Db, commands: seq<Command>)
    requires cal.Valid() && StoreOk(cal, db) && AllFresh(cal, cost, db, commands)
    ensures forall i :: 0 <= i < |commands| ==> WellFormed(commands[i])
    ensures StoreOk(cal, RunAll(cal, cost, db, commands))
    decreases |commands|
  {
    hide StoreOk, Exec;
    FreshIsWellFormed(cal, cost, db, commands);
    if commands != [] {
      ExecKeepsStore(cal, cost, db, commands[0]);
      RunKeepsStore(cal, cost, Exec(cal, cost, db, commands[0]).db, commands[1..]);
    }
  }

  // ---- The clear transaction, statement by statement ----

  /** The counter statement of a clear, run when the orders are whatever they are by then, keeps
      the numbering sound exactly when no order is left on a day whose counter it deletes. */
  lemma ResetIsSoundIff(cal: Calendar, db: Db, workspace: Id, before: Option<int>)
    requires StoreOk(cal, db)
    ensures StoreOk(cal, db.(counters := ResetCounters(db.counters, workspace, before))) <==>
            forall id :: id in db.orders ==>
              !ClearedCounter(CounterOf(cal, db.orders[id]), workspace, before)
  {
    hide RowOk, Storable, BuildDisplayNo;
    var db' := db.(counters := ResetCounters(db.counters, workspace, before));
    if forall id :: id in db.orders ==>
         !ClearedCounter(CounterOf(cal, db.orders[id]), workspace, before)
    {
      FewerRowsStayOk(cal, db, db');
    } else {
      var id :| id in db.orders &&
        ClearedCounter(CounterOf(cal, db.orders[id]), workspace, before);
      assert !StoredOk(cal, db'.counters, id, db'.orders[id]);
    }
  }

  /** A whole clear between whose two statements any other commands commit leaves the numbering sound
      exactly when no order is then stored on a day whose counter it deletes: an order created
      meanwhile, if it clears everything. */
  lemma InterleavedClearIsSoundIff(cal: Calendar, cost: FrameCost, db: Db, workspace: Id, before: Option<int>,
                                   meanwhile: seq<Command>)
    requires cal.Valid() && StoreOk(cal, db)
    requires AllFresh(cal, cost, OrdersCleared(cal, db, workspace, before), meanwhile)
    ensures forall i :: 0 <= i < |meanwhile| ==> WellFormed(meanwhile[i])
    ensures var db' := RunAll(cal, cost, OrdersCleared(cal, db, workspace, before), meanwhile);
            StoreOk(cal, db'.(counters := ResetCounters(db'.counters, workspace, before))) <==>
            forall id :: id in db'.orders ==>
              !ClearedCounter(CounterOf(cal, db'.orders[id]), workspace, before)
  {
    hide StoreOk, AllFresh, RunAll, ClearedCounter;
    var db1 := OrdersCleared(cal, db, workspace, before);
    OrdersClearedIsOk(cal, db, workspace, before);
    RunKeepsStore(cal, cost, db1, meanwhile);
    ResetIsSoundIff(cal, RunAll(cal, cost, db1, meanwhile), workspace, before);
  }

  /** The database after the orders statement of a clear. */
  function OrdersCleared(cal: Calendar, db: Db, workspace: Id, before: Option<int>): Db {
    db.(orders := ClearOrders(db.orders, workspace, if before.None? then None else Some(cal.DayStart(before.value))))
  }

  lemma OrdersClearedIsOk(cal: Calendar, db: Db, workspace: Id, before: Option<int>)
    requires StoreOk(cal, db)
    ensures StoreOk(cal, OrdersCleared(cal, db, workspace, before))
  {
    hide StoredOk;
    FewerRowsStayOk(cal, db, OrdersCleared(cal, db, workspace, before));
  }

  /** A create whose numbers would repeat one already stored is rejected by the unique index. */
  lemma RepeatedNumberRejects(cal: Calendar, cost: FrameCost, db: Db, c: Command, id: Id)
    requires c.Create? && c.quantity == 1 && |c.ids| == 1 && Normalized(c.form).Success? && id in db.orders
    requires var next := LastSequence(db.counters, CounterKey(c.workspace, cal.dateOf(c.now))) + 1;
             && next <= MAX_INT32 && db.orders[id].workspace == c.workspace
             && db.orders[id].displayNo == BuildDisplayNo(cal.civil(cal.dateOf(c.now)), next)
    ensures ExecCreate(cal, cost, db, c).error == Some(RowRejected)
  {
    hide BuildDisplayNo, Normalized, Storable;
    var next := LastSequence(db.counters, CounterKey(c.workspace, cal.dateOf(c.now))) + 1;
    var items := Items(cal, c, Normalized(c.form).value, next);
    assert items[0] == Item(cal, c, Normalized(c.form).value, next, 0);
    assert SameNumber(db.orders[id], items[0]);
  }

  /** If a create commits between the two statements of a clear of everything, the numbering
      breaks: the order it stored keeps its number while the counter forgets it, and the next
      create of the day is rejected. The run: an empty store, a clear of nothing whose orders
      statement has run, a create, the counters statement, and one more create. */
  lemma InterleavedClearBreaksNumbering(cal: Calendar, cost: FrameCost, c1: Command, c2: Command)
    requires cal.Prints() && c1.Create? && c2.Create? && c1.quantity == 1 && c2.quantity == 1
             && |c1.ids| == 1 && |c2.ids| == 1
    requires c1.workspace == c2.workspace && cal.Covers(c1.now) && cal.dateOf(c2.now) == cal.dateOf(c1.now)
    requires c2.ids[0] != c1.ids[0] && Acceptable(c1.form) && Acceptable(c2.form)
    requires TotalPrice(Canonical(c1.form)) <= MAX_INT32 && '\0' !in c1.form.note
    ensures var db1 := EMPTY.(orders := ClearOrders(EMPTY.orders, c1.workspace, None));
            var out1 := ExecCreate(cal, cost, db1, c1);
            var db2 := out1.db.(counters := ResetCounters(out1.db.counters, c1.workspace, None));
            && out1.error.None? && StoreOk(cal, out1.db)
            && !StoreOk(cal, db2)
            && ExecCreate(cal, cost, db2, c2).error == Some(RowRejected)
  {
    hide StoreOk, BuildDisplayNo, Normalized, TotalPrice, Acceptable, RowOk, Canonical;
    var db1 := EMPTY.(orders := ClearOrders(EMPTY.orders, c1.workspace, None));
    assert db1 == EMPTY;
    EmptyIsOk(cal);
    CreateSucceeds(cal, cost, db1, c1);
    NormalizeMeaning(c1.form);
    NormalizeMeaning(c2.form);
    var out1 := ExecCreate(cal, cost, db1, c1);
    var db2 := out1.db.(counters := ResetCounters(out1.db.counters, c1.workspace, None));
    var item := Item(cal, c1, Normalized(c1.form).value, 1, 0);
    assert Items(cal, c1, Normalized(c1.form).value, 1) == [item];
    InsertOne(item);
    assert out1.db.orders == map[item.id := item];
    RepeatedNumberRejects(cal, cost, db2, c2, item.id);
    ResetIsSoundIff(cal, out1.db, c1.workspace, None);
    assert item.id in out1.db.orders;
  }

  lemma InsertOne(item: Order)
    ensures Inserted(map[], [item]).Some? ==> Inserted(map[], [item]).value == map[item.id := item]
  {
    assert [item][1..] == [];
    var m: map<Id, Order> := map[];
    assert m[item.id := item] == map[item.id := item];
  }

  lemma EmptyIsOk(cal: Calendar)
    ensures StoreOk(cal, EMPTY)
  {
  }
}

/** The two granularities agree. */
module AtomicMutations {
  import opened Common
  import opened Calendars
  import opened OrderForms
  import opened Orders
  import opened Batching
  import opened OrderStore
  import OV = OrderVersions

  /** The steps of a mutation that nothing interrupts: begin, read, decide, write, publish. */
  function Alone(s: OV.State, t: Id, req: Request): OV.State {
    var a := OV.Advance(t);
    OV.Step(OV.Step(OV.Step(OV.Step(OV.Step(s, OV.Begin(t, req)), a), a), a), a)
  }

  /** Advancing `t` is a step of that transaction alone. */
  lemma AdvanceIs(s: OV.State, t: Id)
    requires t in s.txns
    ensures OV.Step(s, OV.Advance(t)) == OV.AdvanceTxn(s, t)
  {
    hide OV.AdvanceTxn;
  }

  /** The steps after the read, given the stage it reached. */
  lemma AfterRead(s: OV.State, t: Id, req: Request)
    requires t !in s.txns && Precheck(req).None?
    ensures var s2 := OV.Step(OV.Step(s, OV.Begin(t, req)), OV.Advance(t));
            s2 == s.(txns := s.txns[t := OV.Txn(req, OV.ReadStage(s, req))])
  {
    hide Precheck, OV.ReadStage;
    var s1 := OV.Step(s, OV.Begin(t, req));
    assert s1 == s.(txns := s.txns[t := OV.Txn(req, OV.Started)]);
    AdvanceIs(s1, t);
    assert OV.ReadStage(s1, req) == OV.ReadStage(s, req) by { SameTable(s1, s, req); }
  }

  lemma SameTable(s: OV.State, s': OV.State, req: Request)
    requires s.table == s'.table
    ensures OV.ReadStage(s, req) == OV.ReadStage(s', req)
  {
  }

  lemma Settled(s: OV.State, t: Id)
    requires t in s.txns && (s.txns[t].stage.Refused? || s.txns[t].stage.Unchanged?)
    ensures OV.Step(s, OV.Advance(t)) == s
  {
  }

  /** Run without interference, the steps of a mutation do to the table what the atomic transaction
      does, end the same way, and publish the row the transaction publishes. */
  lemma StepsMakeTransaction(s: OV.State, t: Id, req: Request, cost: FrameCost, counters: map<CounterKey, nat>)
    requires t !in s.txns
    ensures var s', out := Alone(s, t, req), ExecMutate(cost, Db(s.table, counters), req);
            && s'.table == out.db.orders && t in s'.txns
            && (out.error.Some? <==> s'.txns[t].stage.Refused?)
            && (out.error.Some? ==> out.error == Some(Mutation(s'.txns[t].stage.refusal)))
            && (out.frames == [] ==> s'.events == s.events)
            && (out.frames != [] ==>
                  && s'.events == s.events + [s'.table[req.orderId]]
                  && out.frames == Published(cost, [s'.table[req.orderId]]))
  {
    hide Precheck, Decide, Storable, Published, OV.Step;
    var s1 := OV.Step(s, OV.Begin(t, req));
    if Precheck(req).Some? {
      Begun(s, t, req);
      Settled(s1, t);
    } else {
      AfterRead(s, t, req);
      var s2 := OV.Step(s1, OV.Advance(t));
      if !OV.Visible(s, req) {
        Settled(s2, t);
      } else {
        var current := s.table[req.orderId];
        AdvanceIs(s2, t);
        var s3 := OV.Step(s2, OV.Advance(t));
        assert s3 == s.(txns := s.txns[t := OV.Txn(req, OV.DecideStage(req, current))]);
        if !Decide(req, current).Write? {
          Settled(s3, t);
        } else {
          WriteAlone(s, t, req, current, Decide(req, current).updated);
          PublishedOne(cost, Decide(req, current).updated.(version := current.version + 1));
        }
      }
    }
  }

  /** The steps that are not split do what the commands do to the orders. */
  lemma StepsAreCommands(cal: Calendar, s: OV.State, workspace: Id, id: Id, before: Option<int>,
                         counters: map<CounterKey, nat>)
    ensures var db := Db(s.table, counters);
            var cutoff := if before.None? then None else Some(cal.DayStart(before.value));
            && OV.Step(s, OV.Delete(workspace, id)).table == ExecRemove(db, workspace, id).db.orders
            && OV.Step(s, OV.Clear(workspace, cutoff)).table == ClearTx(cal, db, workspace, before).orders
  {
  }

  lemma InsertOneMore(orders: map<Id, Order>, item: Order)
    ensures Inserted(orders, [item]).Some? ==>
              Inserted(orders, [item]).value == orders[item.id := item] && Storable(item)
  {
    assert [item][1..] == [];
  }

  /** A create of one order is an insert. */
  lemma InsertIsCreate(cal: Calendar, cost: FrameCost, s: OV.State, c: Command, counters: map<CounterKey, nat>)
    requires c.Create? && c.quantity == 1 && WellFormed(c) && c.ids[0] !in s.history
    ensures var out := ExecCreate(cal, cost, Db(s.table, counters), c);
            out.error.None? && c.ids[0] in out.db.orders ==>
              var row := out.db.orders[c.ids[0]];
              var s' := OV.Step(s, OV.Insert(c.ids[0], c.workspace, row.displayNo, c.form, c.user, c.now));
              s'.table == out.db.orders && c.ids[0] in s'.created && s'.created[c.ids[0]] == row
  {
    hide Normalized, BuildDisplayNo, TotalPrice, Published, Storable;
    var db := Db(s.table, counters);
    var out := ExecCreate(cal, cost, db, c);
    if out.error.None? {
      var start := LastSequence(counters, CounterKey(c.workspace, cal.dateOf(c.now))) + 1;
      var item := Item(cal, c, Normalized(c.form).value, start, 0);
      assert Items(cal, c, Normalized(c.form).value, start) == [item];
      InsertOneMore(s.table, item);
    }
  }

  /** The write and the publication. */
  lemma WriteAlone(s: OV.State, t: Id, req: Request, current: Order, u: Order)
    requires t !in s.txns && OV.Visible(s, req) && current == s.table[req.orderId]
    requires Precheck(req).None? && Decide(req, current) == Write(u)
    ensures var a, row := OV.Advance(t), u.(version := current.version + 1);
            var s' := OV.Step(OV.Step(s.(txns := s.txns[t := OV.Txn(req, OV.Ready(current, u))]), a), a);
            && t in s'.txns
            && (if Storable(row) then
                  s'.table == s.table[req.orderId := row] && s'.events == s.events + [row]
                  && s'.txns[t].stage.Published?
                else
                  s'.table == s.table && s'.events == s.events && s'.txns[t].stage == OV.Refused(Unstorable))
  {
    hide OV.Step, Storable;
    var s3 := s.(txns := s.txns[t := OV.Txn(req, OV.Ready(current, u))]);
    GuardOfWrite(req, current);
    AdvanceIs(s3, t);
    AdvanceIs(OV.Step(s3, OV.Advance(t)), t);
  }

  lemma PublishedOne(cost: FrameCost, row: Order)
    ensures Published(cost, [row]) != []
  {
  }

  lemma Begun(s: OV.State, t: Id, req: Request)
    requires t !in s.txns
    ensures OV.Step(s, OV.Begin(t, req)) == s.(txns := s.txns[t := OV.Txn(req, OV.BeginStage(req))])
  {
    hide OV.BeginStage;
  }
}
