/** The order service and its two tables as objects: the statements change the tables one after
    another, and a transaction that fails puts them back. */
module OrderService {
  import opened Common
  import opened Calendars
  import opened OrderForms
  import opened Orders
  import opened Batching
  import opened Events
  import opened OrderStore

  class Service {
    const cal: Calendar
    const cost: FrameCost
    var orders: map<Id, Order>
    var counters: map<CounterKey, nat>
    var published: seq<Frame>

    constructor (cal: Calendar, cost: FrameCost)
      ensures this.cal == cal && this.cost == cost && State() == EMPTY && published == []
    {
      this.cal, this.cost := cal, cost;
      orders, counters, published := map[], map[], [];
    }

    function State(): Db
      reads this
    {
      Db(orders, counters)
    }

    // ---- Statements ----

    /** Reserves `quantity` numbers and returns the first. */
    method Allocate(key: CounterKey, quantity: int) returns (start: Result<nat, Error>)
      modifies this`counters
      ensures quantity <= 0 ==> start == Failure(InvalidQuantity) && counters == old(counters)
      ensures quantity > 0 ==>
                match Allocated(old(counters), key, quantity)
                case None => start == Failure(CounterFull)
                   && LastSequence(counters, key) == LastSequence(old(counters), key)
                case Some(after) => counters == after && start == Success(after[key] - quantity + 1)
    {
      if quantity <= 0 { return Failure(InvalidQuantity); }
      if key !in counters {
        counters := counters[key := 0];
      }
      if counters[key] + quantity > MAX_INT32 { return Failure(CounterFull); }
      counters := counters[key := counters[key] + quantity];
      return Success(counters[key] - quantity + 1);
    }

    method InsertMany(items: seq<Order>) returns (ok: bool)
      modifies this`orders
      ensures ok <==> Inserted(old(orders), items).Some?
      ensures orders == if ok then Inserted(old(orders), items).value else old(orders)
    {
      var before := orders;
      for i := 0 to |items|
        invariant Inserted(orders, items[i..]) == Inserted(before, items)
      {
        assert items[i..][1..] == items[i + 1..];
        if items[i].id in orders || !Storable(items[i])
           || exists id | id in orders :: SameNumber(orders[id], items[i]) {
          orders := before;
          return false;
        }
        orders := orders[items[i].id := items[i]];
      }
      assert items[|items|..] == [];
      return true;
    }

    /** The conditional UPDATE: returns the new version, or why no row was changed. */
    method Update(order: Order, expected: Option<int>) returns (version: Result<int, Refusal>)
      modifies this`orders
      ensures var found := order.id in old(orders) && old(orders)[order.id].workspace == order.workspace
                           && (expected.Some? ==> old(orders)[order.id].version == expected.value);
              if !found then version == Failure(if expected.Some? then Conflict else Vanished) && orders == old(orders)
              else
                var row := order.(version := old(orders)[order.id].version + 1);
                if !Storable(row) then version == Failure(Unstorable) && orders == old(orders)
                else version == Success(row.version) && orders == old(orders)[order.id := row]
    {
      if order.id !in orders || orders[order.id].workspace != order.workspace
         || (expected.Some? && orders[order.id].version != expected.value) {
        return Failure(if expected.Some? then Conflict else Vanished);
      }
      var row := order.(version := orders[order.id].version + 1);
      if !Storable(row) { return Failure(Unstorable); }
      orders := orders[order.id := row];
      return Success(row.version);
    }

    method Delete(workspace: Id, id: Id) returns (removed: bool)
      modifies this`orders
      ensures removed <==> id in old(orders) && old(orders)[id].workspace == workspace
      ensures orders == if removed then old(orders) - {id} else old(orders)
    {
      removed := id in orders && orders[id].workspace == workspace;
      if removed { orders := orders - {id}; }
    }

    method DeleteOrders(workspace: Id, before: Option<Instant>) returns (count: nat)
      modifies this`orders
      ensures orders == ClearOrders(old(orders), workspace, before)
      ensures count == |old(orders).Keys - orders.Keys|
    {
      var present := orders.Keys;
      orders := ClearOrders(orders, workspace, before);
      count := |present - orders.Keys|;
    }

    method ResetWorkspace(workspace: Id, before: Option<int>)
      modifies this`counters
      ensures counters == ResetCounters(old(counters), workspace, before)
    {
      counters := ResetCounters(counters, workspace, before);
    }

    // ---- Transactions ----

    /** The loop that fills in one row per ordered item. */
    method BuildItems(c: Command, form: OrderForm, start: nat) returns (items: seq<Order>)
      requires c.Create? && |c.ids| == c.quantity
      ensures items == Items(cal, c, form, start)
    {
      var date := cal.dateOf(c.now);
      var staple, meat, completedAt := InitialStepStatuses(form);
      var total := CalculateTotalPriceCents(form);
      items := [];
      for i := 0 to c.quantity
        invariant items == Items(cal, c, form, start)[..i]
      {
        var item := Order(c.ids[i], c.workspace, BuildDisplayNo(cal.civil(date), start + i), 1, form, total,
                          staple, meat, c.user, c.user, c.now, c.now, completedAt);
        items := items + [item];
      }
    }

    method CreateBatch(c: Command) returns (error: Option<Error>)
      requires c.Create? && WellFormed(c)
      modifies this
      ensures var out := Exec(cal, cost, old(State()), c);
              State() == out.db && error == out.error && published == old(published) + out.frames
    {
      hide Items, Normalized, Inserted, Published;
      if c.quantity <= 0 { return Some(InvalidQuantity); }
      var input := Normalize(c.form);
      if input.Failure? { return Some(InvalidInput(input.error)); }
      var form := input.value;
      var date := cal.dateOf(c.now);
      var begun := State();
      var start := Allocate(CounterKey(c.workspace, date), c.quantity);
      if start.Failure? {
        counters := begun.counters;
        return Some(start.error);
      }
      var items := BuildItems(c, form, start.value);
      var ok := InsertMany(items);
      if !ok {
        orders, counters := begun.orders, begun.counters;
        return Some(RowRejected);
      }
      var frames := PublishUpserts(cost, items);
      published := published + frames;
      return None;
    }

    method GetByID(workspace: Id, id: Id) returns (current: Option<Order>)
      ensures current == if id in orders && orders[id].workspace == workspace then Some(orders[id]) else None
    {
      if id !in orders || orders[id].workspace != workspace { return None; }
      return Some(orders[id]);
    }

    /** The end of a mutation that decided to write: the conditional update, then the event. */
    method Write(req: Request, current: Order, updated: Order) returns (error: Option<Error>)
      requires Keyed(orders) && req.orderId in orders && orders[req.orderId] == current
               && current.workspace == req.workspace
      requires updated.id == current.id && updated.workspace == current.workspace
      requires Precheck(req).None? && Decide(req, current) == Decision.Write(updated.(version := current.version))
      modifies this
      ensures var out := Exec(cal, cost, old(State()), Mutate(req));
              State() == out.db && error == out.error && published == old(published) + out.frames
    {
      hide Decide, Precheck, Storable, Published;
      GuardOfWrite(req, current);
      var expected := if req.guard.ExpectVersion? then Some(req.guard.version) else None;
      var version := Update(updated, expected);
      if version.Failure? { return Some(Mutation(version.error)); }
      var frames := PublishUpserts(cost, [updated.(version := version.value)]);
      published := published + frames;
      return None;
    }

    /** UpdateForm: read, check, rebuild the row from the form, write. */
    method UpdateForm(req: Request) returns (error: Option<Error>)
      requires Keyed(orders) && req.mutation.UpdateForm?
      modifies this
      ensures var out := Exec(cal, cost, old(State()), Mutate(req));
              State() == out.db && error == out.error && published == old(published) + out.frames
    {
      hide Normalized, TotalPrice, Published, Storable;
      var input := Normalize(req.mutation.form);
      if input.Failure? { return Some(Mutation(InvalidForm(input.error))); }
      var form := input.value;
      var found := GetByID(req.workspace, req.orderId);
      if found.None? { return Some(Mutation(NotFound)); }
      var current := found.value;
      if !GuardHolds(req.guard, current) { return Some(Mutation(Conflict)); }
      var staple, meat, completedAt := InitialStepStatuses(form);
      var total := CalculateTotalPriceCents(form);
      var updated := Order(current.id, current.workspace, current.displayNo, 0, form, total, staple, meat,
                           current.createdBy, req.user, current.createdAt, req.now, completedAt);
      error := Write(req, current, updated);
    }

    /** ToggleStep: a toggle that changes no progress writes and publishes nothing. */
    method ToggleStep(req: Request) returns (error: Option<Error>)
      requires Keyed(orders) && req.mutation.ToggleStep?
      modifies this
      ensures var out := Exec(cal, cost, old(State()), Mutate(req));
              State() == out.db && error == out.error && published == old(published) + out.frames
    {
      hide Published, Storable, CanServe;
      var step := req.mutation.step;
      if step != "staple" && step != "meat" { return Some(Mutation(InvalidStep)); }
      var found := GetByID(req.workspace, req.orderId);
      if found.None? { return Some(Mutation(NotFound)); }
      var current := found.value;
      if !GuardHolds(req.guard, current) { return Some(Mutation(Conflict)); }
      var updated := ToggleOneStep(current, step);
      if SameProgress(current, updated) { return None; }
      updated := updated.(updatedBy := req.user, updatedAt := req.now);
      error := Write(req, current, updated);
    }

    /** ToggleServed: only an order with no step to do can be served. */
    method ToggleServed(req: Request) returns (error: Option<Error>)
      requires Keyed(orders) && req.mutation.ToggleServed?
      modifies this
      ensures var out := Exec(cal, cost, old(State()), Mutate(req));
              State() == out.db && error == out.error && published == old(published) + out.frames
    {
      hide Published, Storable, CanServe;
      var found := GetByID(req.workspace, req.orderId);
      if found.None? { return Some(Mutation(NotFound)); }
      var current := found.value;
      if !GuardHolds(req.guard, current) { return Some(Mutation(Conflict)); }
      if !CanServe(current) { return Some(Mutation(CannotServe)); }
      var updated := current;
      if updated.completedAt.None? { updated := updated.(completedAt := Some(req.now)); }
      else { updated := updated.(completedAt := None); }
      updated := updated.(updatedBy := req.user, updatedAt := req.now);
      error := Write(req, current, updated);
    }

    method RemoveOrder(workspace: Id, id: Id) returns (error: Option<Error>)
      modifies this
      ensures var out := Exec(cal, cost, old(State()), Remove(workspace, id));
              State() == out.db && error == out.error && published == old(published) + out.frames
    {
      var removed := Delete(workspace, id);
      if !removed { return Some(Mutation(NotFound)); }
      published := published + [Frame(workspace, Deleted(id))];
      return None;
    }

    method ClearWorkspace(c: Command) returns (error: Option<Error>)
      requires c.Clear?
      modifies this
      ensures var out := Exec(cal, cost, old(State()), c);
              State() == out.db && error == out.error && published == old(published) + out.frames
    {
      if !c.owner { return Some(Forbidden); }
      if !c.confirm { return Some(Unconfirmed); }
      if c.mode != "" && c.mode != "all" && c.mode != "before_today" { return Some(InvalidMode); }
      var before: Option<int> := None;
      if c.mode == "before_today" { before := Some(cal.dateOf(c.now)); }
      var cutoff := if before.None? then None else Some(cal.DayStart(before.value));
      var count := DeleteOrders(c.workspace, cutoff);
      ResetWorkspace(c.workspace, before);
      published := published + [Frame(c.workspace, Cleared(count, before))];
      return None;
    }
  }
}
