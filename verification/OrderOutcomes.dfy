/** What each command of the service does, told in the columns of the rows it leaves: when it succeeds,
    how it is refused otherwise, and what it leaves alone. */
module OrderOutcomes {
  import opened Common
  import opened Calendars
  import opened OrderForms
  import opened Orders
  import opened Events
  import opened Batching
  import opened OrderStore

  /** A staple that is cooked to order: any but rice (4). */
  predicate Cooked(f: OrderForm) { f.stapleType.Some? && f.stapleType.value != 4 }

  // ---- Mutations ----

  /** The order is stored in the workspace of the caller. */
  predicate Found(db: Db, req: Request) {
    req.orderId in db.orders && db.orders[req.orderId].workspace == req.workspace
  }

  /** The version, or the second of the last update, is the one the request expects, if it expects any. */
  predicate AsExpected(db: Db, req: Request)
    requires req.orderId in db.orders
  {
    && (req.guard.ExpectVersion? ==> db.orders[req.orderId].version == req.guard.version)
    && (req.guard.ExpectUpdatedAt? ==>
          db.orders[req.orderId].updatedAt / 1_000_000_000 == req.guard.at / 1_000_000_000)
  }

  /** The whole second an instant lies in. */
  predicate InSecond(t: Instant, second: int) {
    second * 1_000_000_000 <= t < (second + 1) * 1_000_000_000
  }

  /** What clients are sent of a row. */
  predicate Shows(d: OrderDto, o: Order) {
    && d.id == o.id && d.version == o.version && d.displayNo == o.displayNo
    && d.form == o.form && d.totalPrice == o.totalPrice
    && d.stapleStatus == o.stapleStatus && d.meatStatus == o.meatStatus
    && InSecond(o.createdAt, d.createdAt) && InSecond(o.updatedAt, d.updatedAt)
    && (d.completedAt.None? <==> o.completedAt.None?)
    && (o.completedAt.Some? ==> InSecond(o.completedAt.value, d.completedAt.value))
  }

  lemma DtoShows(o: Order)
    ensures Shows(ToDto(o), o)
  {
  }

  /** One row changed, by the caller and now, to the next version; its identity and all else stayed; and
      the row was published to its workspace. */
  predicate OneRowWritten(db: Db, out: Outcome, req: Request)
    requires Found(db, req)
  {
    var id, old' := req.orderId, db.orders[req.orderId];
    && out.db.counters == db.counters && out.db.orders.Keys == db.orders.Keys
    && (forall k | k in db.orders :: k != id ==> out.db.orders[k] == db.orders[k])
    && var new' := out.db.orders[id];
    && new'.id == old'.id && new'.workspace == old'.workspace && new'.displayNo == old'.displayNo
    && new'.createdBy == old'.createdBy && new'.createdAt == old'.createdAt
    && new'.version == old'.version + 1 && new'.updatedBy == req.user && new'.updatedAt == req.now
    && |out.frames| == 1 && out.frames[0].workspace == req.workspace
    && out.frames[0].event.Upsert? && Shows(out.frames[0].event.item, new')
  }

  predicate Unchanged(db: Db, out: Outcome) {
    out.db == db && out.frames == []
  }

  /** An update of the form succeeds exactly when the form is acceptable, the order is found and as
      expected, and the new row can be stored. It then holds the normalized form, its price, its steps not
      started, and no completion time. Otherwise nothing changes, and the first obstacle is reported. */
  lemma UpdateFormOutcome(cost: FrameCost, db: Db, req: Request, form: OrderForm)
    requires req.mutation == UpdateForm(form)
    ensures var out := ExecMutate(cost, db, req);
            var ready := Acceptable(form) && Found(db, req) && AsExpected(db, req);
            && (out.error.None? <==>
                  ready && TotalPrice(Canonical(form)) <= 0x7fff_ffff && '\0' !in form.note)
            && (!Acceptable(form) <==>
                  out.error.Some? && out.error.value.Mutation? && out.error.value.refusal.InvalidForm?)
            && (out.error == Some(Mutation(NotFound)) <==> Acceptable(form) && !Found(db, req))
            && (out.error == Some(Mutation(Conflict)) <==>
                  Acceptable(form) && Found(db, req) && !AsExpected(db, req))
            && (out.error.Some? ==> Unchanged(db, out))
            && (out.error.None? ==>
                  && OneRowWritten(db, out, req)
                  && var row := out.db.orders[req.orderId];
                  && Normalized(form) == Success(row.form) && row.totalPrice == TotalPrice(row.form)
                  && row.stapleStatus == (if Cooked(row.form) then 2 else 1)
                  && row.meatStatus == (if row.form.meats == [] then 1 else 2)
                  && row.completedAt.None?)
  {
    hide NormalForm, Normalized, Canonical, TotalPrice, Acceptable, Storable;
    NormalizeMeaning(form);
    NormalizedIsCanonical(form);
    CanonicalNote(form);
    if Acceptable(form) && Found(db, req) {
      var row := Decide(req, db.orders[req.orderId]);
      if row.Write? { UpdatedFits(row.updated, db.orders[req.orderId].version + 1, form); }
      PublishedAlone(cost);
    }
  }

  lemma UpdatedFits(u: Order, version: int, form: OrderForm)
    requires Normalized(form) == Success(u.form) && u.totalPrice == TotalPrice(u.form)
    ensures Storable(u.(version := version)) <==> u.totalPrice <= 0x7fff_ffff && '\0' !in u.form.note
  {
    hide NormalForm, Normalized, TotalPrice, Storable;
    NormalizeMeaning(form);
    FitsByPrice(u.(version := version));
  }

  /** A single row travels as a single upsert to its workspace. */
  lemma PublishedAlone(cost: FrameCost)
    ensures forall o: Order :: Published(cost, [o]) == [Frame(o.workspace, Upsert(ToDto(o)))]
    ensures forall o: Order :: Shows(ToDto(o), o)
  {
    hide ToDto, Shows;
    forall o: Order ensures Shows(ToDto(o), o) { DtoShows(o); }
  }

  /** A step toggle of a stored order turns the one step round when the order needs it, and takes back the
      completion; the other step stays. When the order does not need the step, nothing happens. */
  lemma ToggleStepOutcome(cost: FrameCost, db: Db, req: Request, step: string)
    requires req.mutation == ToggleStep(step)
    requires Found(db, req) ==> RowOk(db.orders[req.orderId]) && Storable(db.orders[req.orderId])
    ensures var out := ExecMutate(cost, db, req);
            var known := step in ["staple", "meat"];
            && (out.error.None? <==> known && Found(db, req) && AsExpected(db, req))
            && (out.error == Some(Mutation(InvalidStep)) <==> !known)
            && (out.error == Some(Mutation(NotFound)) <==> known && !Found(db, req))
            && (out.error == Some(Mutation(Conflict)) <==> known && Found(db, req) && !AsExpected(db, req))
            && (out.error.Some? ==> Unchanged(db, out))
            && (out.error.None? ==>
                  var was := db.orders[req.orderId];
                  var needed := if step == "staple" then Cooked(was.form) else was.form.meats != [];
                  && (!needed ==> Unchanged(db, out))
                  && (needed ==>
                        && OneRowWritten(db, out, req)
                        && var row := out.db.orders[req.orderId];
                        && row.form == was.form && row.totalPrice == was.totalPrice && row.completedAt.None?
                        && row.stapleStatus == (if step == "staple" then 5 - was.stapleStatus else was.stapleStatus)
                        && row.meatStatus == (if step == "meat" then 5 - was.meatStatus else was.meatStatus)))
  {
    hide NormalForm, TotalPrice, Decide, Storable, Published, OneRowWritten, RowOk;
    if (step == "staple" || step == "meat") && Found(db, req) {
      DecideToggle(req, db.orders[req.orderId], step);
      WriteOutcome(cost, db, req);
      ToggledIsStorable(req, db.orders[req.orderId], step);
    }
  }

  lemma ToggledIsStorable(req: Request, was: Order, step: string)
    requires req.mutation == ToggleStep(step) && Precheck(req).None? && Storable(was)
    ensures Decide(req, was).Write? ==> Storable(Decide(req, was).updated.(version := was.version + 1))
  {
  }

  /** What a step toggle decides on a stored row. */
  lemma DecideToggle(req: Request, was: Order, step: string)
    requires req.mutation == ToggleStep(step) && Precheck(req).None? && RowOk(was)
    ensures var needed := if step == "staple" then Cooked(was.form) else was.form.meats != [];
            && (!GuardHolds(req.guard, was) <==> Decide(req, was) == Refuse(Conflict))
            && (Decide(req, was).Refuse? ==> Decide(req, was) == Refuse(Conflict))
            && (GuardHolds(req.guard, was) && !needed ==> Decide(req, was) == Keep)
            && (GuardHolds(req.guard, was) && needed ==>
                  && Decide(req, was).Write?
                  && var row := Decide(req, was).updated;
                  && row.form == was.form && row.totalPrice == was.totalPrice && row.completedAt.None?
                  && row.stapleStatus == (if step == "staple" then 5 - was.stapleStatus else was.stapleStatus)
                  && row.meatStatus == (if step == "meat" then 5 - was.meatStatus else was.meatStatus))
  {
    hide NormalForm, TotalPrice;
  }

  /** What becomes of the decision to write. */
  lemma WriteOutcome(cost: FrameCost, db: Db, req: Request)
    requires Precheck(req).None? && Found(db, req)
    ensures var out, decision := ExecMutate(cost, db, req), Decide(req, db.orders[req.orderId]);
            decision.Write? && Storable(decision.updated.(version := db.orders[req.orderId].version + 1)) ==>
              && out.error.None? && OneRowWritten(db, out, req)
              && out.db.orders[req.orderId] == decision.updated.(version := db.orders[req.orderId].version + 1)
  {
    hide Storable, NormalForm, TotalPrice, CanServe;
    PublishedAlone(cost);
  }

  /** Serving needs every needed step completed (3); it sets the completion time, and serving again takes
      it back. */
  lemma ToggleServedOutcome(cost: FrameCost, db: Db, req: Request)
    requires req.mutation.ToggleServed?
    requires Found(db, req) ==> RowOk(db.orders[req.orderId]) && Storable(db.orders[req.orderId])
    ensures var out := ExecMutate(cost, db, req);
            && (out.error == Some(Mutation(NotFound)) <==> !Found(db, req))
            && (out.error == Some(Mutation(Conflict)) <==> Found(db, req) && !AsExpected(db, req))
            && (out.error == Some(Mutation(CannotServe)) <==>
                  && Found(db, req) && AsExpected(db, req)
                  && (db.orders[req.orderId].stapleStatus == 2 || db.orders[req.orderId].meatStatus == 2))
            && (out.error.Some? ==>
                  && Unchanged(db, out)
                  && out.error.value in [Mutation(NotFound), Mutation(Conflict), Mutation(CannotServe)])
            && (out.error.None? ==>
                  && Found(db, req) && OneRowWritten(db, out, req)
                  && var was, row := db.orders[req.orderId], out.db.orders[req.orderId];
                  && row.form == was.form && row.totalPrice == was.totalPrice
                  && row.stapleStatus == was.stapleStatus && row.meatStatus == was.meatStatus
                  && row.completedAt == (if was.completedAt.None? then Some(req.now) else None))
  {
    hide NormalForm, TotalPrice;
    PublishedAlone(cost);
  }

  // ---- Create ----

  /** The row of the `i`-th item of a create. */
  predicate CreatedRow(cal: Calendar, c: Command, number: nat, id: Id, row: Order)
    requires c.Create?
  {
    && row.id == id && row.workspace == c.workspace && row.version == 1
    && row.displayNo == BuildDisplayNo(cal.civil(cal.dateOf(c.now)), number)
    && Normalized(c.form) == Success(row.form) && row.totalPrice == TotalPrice(row.form)
    && row.stapleStatus == (if Cooked(row.form) then 2 else 1)
    && row.meatStatus == (if row.form.meats == [] then 1 else 2)
    && row.createdBy == c.user && row.updatedBy == c.user
    && row.createdAt == c.now && row.updatedAt == c.now && row.completedAt.None?
  }

  lemma {:induction false} InsertedRows(orders: map<Id, Order>, items: seq<Order>)
    requires Inserted(orders, items).Some?
    ensures var r := Inserted(orders, items).value;
            && (forall id :: id in r ==> id in orders || exists i :: 0 <= i < |items| && items[i].id == id)
            && (forall id :: id in orders ==> id in r && r[id] == orders[id])
            && (forall i :: 0 <= i < |items| ==>
                  items[i].id !in orders && items[i].id in r && r[items[i].id] == items[i])
    decreases |items|
  {
    hide Storable;
    if items != [] {
      InsertedRows(orders[items[0].id := items[0]], items[1..]);
      var r := Inserted(orders, items).value;
      forall id | id in r ensures id in orders || exists i :: 0 <= i < |items| && items[i].id == id {
        if id !in orders && id != items[0].id {
          var i :| 0 <= i < |items[1..]| && items[1..][i].id == id;
          assert items[i + 1].id == id;
        }
      }
      forall i | 0 <= i < |items| ensures items[i].id !in orders && items[i].id in r && r[items[i].id] == items[i] {
        if i > 0 { assert items[i] == items[1..][i - 1]; }
      }
    }
  }

  /** A create stores one row for each ordered item, numbered on from the last number of the day, and
      advances the day's counter by their number; other rows and counters stay. A refused create changes
      nothing. */
  lemma CreateOutcome(cal: Calendar, cost: FrameCost, db: Db, c: Command)
    requires c.Create? && WellFormed(c)
    ensures var out := ExecCreate(cal, cost, db, c);
            var key := CounterKey(c.workspace, cal.dateOf(c.now));
            var last := if key in db.counters then db.counters[key] else 0;
            && (out.error.Some? ==> Unchanged(db, out))
            && (c.quantity <= 0 <==> out.error == Some(InvalidQuantity))
            && (out.error.Some? && out.error.value.InvalidInput? <==> c.quantity > 0 && !Acceptable(c.form))
            && (out.error == Some(CounterFull) <==>
                  c.quantity > 0 && Acceptable(c.form) && last + c.quantity > 0x7fff_ffff)
            && (out.error.None? ==>
                  && |c.ids| == c.quantity
                  && (forall i :: 0 <= i < |c.ids| ==>
                        && c.ids[i] !in db.orders && c.ids[i] in out.db.orders
                        && CreatedRow(cal, c, last + 1 + i, c.ids[i], out.db.orders[c.ids[i]]))
                  && (forall id :: id in db.orders ==> id in out.db.orders && out.db.orders[id] == db.orders[id])
                  && (forall id :: id in out.db.orders ==> id in db.orders || id in c.ids)
                  && out.db.counters == db.counters[key := last + c.quantity])
  {
    hide NormalForm, Normalized, Acceptable, BuildDisplayNo, TotalPrice, Inserted, Published, CreatedRow, Items;
    NormalizeMeaning(c.form);
    if ExecCreate(cal, cost, db, c).error.None? { CreatedRows(cal, cost, db, c); }
  }

  lemma CreatedRows(cal: Calendar, cost: FrameCost, db: Db, c: Command)
    requires c.Create? && WellFormed(c) && ExecCreate(cal, cost, db, c).error.None?
    ensures var out := ExecCreate(cal, cost, db, c);
            var key := CounterKey(c.workspace, cal.dateOf(c.now));
            var last := if key in db.counters then db.counters[key] else 0;
            && |c.ids| == c.quantity
            && (forall i :: 0 <= i < |c.ids| ==>
                  && c.ids[i] !in db.orders && c.ids[i] in out.db.orders
                  && CreatedRow(cal, c, last + 1 + i, c.ids[i], out.db.orders[c.ids[i]]))
            && (forall id :: id in db.orders ==> id in out.db.orders && out.db.orders[id] == db.orders[id])
            && (forall id :: id in out.db.orders ==> id in db.orders || id in c.ids)
            && out.db.counters == db.counters[key := last + c.quantity]
  {
    hide Normalized, BuildDisplayNo, TotalPrice, Inserted, Published, CreatedRow;
    var form := Normalized(c.form).value;
    var start := LastSequence(db.counters, CounterKey(c.workspace, cal.dateOf(c.now))) + 1;
    var items := Items(cal, c, form, start);
    assert ExecCreate(cal, cost, db, c).db.orders == Inserted(db.orders, items).value;
    InsertedRows(db.orders, items);
    forall i | 0 <= i < |c.ids| ensures items[i].id == c.ids[i] && CreatedRow(cal, c, start + i, c.ids[i], items[i]) {
      ItemIsCreated(cal, c, form, start, i);
    }
  }

  lemma ItemIsCreated(cal: Calendar, c: Command, form: OrderForm, start: nat, i: nat)
    requires c.Create? && i < |c.ids| && Normalized(c.form) == Success(form)
    ensures Items(cal, c, form, start)[i].id == c.ids[i]
    ensures CreatedRow(cal, c, start + i, c.ids[i], Items(cal, c, form, start)[i])
  {
    hide Normalized, BuildDisplayNo, TotalPrice;
    assert Items(cal, c, form, start)[i] == Item(cal, c, form, start, i);
  }

  /** A create publishes to its workspace only: a single order alone, several in batches of at most 64
      that stay within 64 KiB. Opened, they show each stored row once, in the order of their numbers. */
  lemma CreatePublishes(cal: Calendar, cost: FrameCost, db: Db, c: Command)
    requires c.Create? && WellFormed(c) && ExecCreate(cal, cost, db, c).error.None?
    ensures var out := ExecCreate(cal, cost, db, c);
            var sent := Opened(EventsOf(out.frames));
            && (forall f | f in out.frames :: FrameOfCreate(cost, c, f))
            && |sent| == |c.ids| && c.ids != []
            && forall i :: 0 <= i < |c.ids| ==>
                 && c.ids[i] in out.db.orders
                 && sent[i].Upsert? && Shows(sent[i].item, out.db.orders[c.ids[i]])
  {
    hide Normalized, BuildDisplayNo, TotalPrice, Inserted, Published, CreatedRow, Shows, ToDto, FrameOfCreate;
    var form := Normalized(c.form).value;
    var start := LastSequence(db.counters, CounterKey(c.workspace, cal.dateOf(c.now))) + 1;
    var items := Items(cal, c, form, start);
    assert ExecCreate(cal, cost, db, c).db.orders == Inserted(db.orders, items).value;
    InsertedRows(db.orders, items);
    BatchingRoundTrip(cost, items);
    forall i | 0 <= i < |c.ids|
      ensures items[i].id == c.ids[i] && items[i].workspace == c.workspace && Shows(ToDto(items[i]), items[i])
    {
      ItemIsCreated(cal, c, form, start, i);
      DtoShows(items[i]);
    }
    FramesOfCreate(cost, c, items);
  }

  /** A frame a create may publish. */
  predicate FrameOfCreate(cost: FrameCost, c: Command, f: Frame)
    requires c.Create?
  {
    && f.workspace == c.workspace
    && (if c.quantity == 1 then f.event.Upsert?
        else
          && f.event.UpsertMany? && 1 <= |f.event.items| <= 64
          && (|f.event.items| > 1 ==> cost(f.event.items) <= 65536))
  }

  lemma FramesOfCreate(cost: FrameCost, c: Command, items: seq<Order>)
    requires c.Create? && |items| == c.quantity && forall i :: 0 <= i < |items| ==> items[i].workspace == c.workspace
    ensures forall f | f in Published(cost, items) :: FrameOfCreate(cost, c, f)
  {
    hide Published, ToDto;
    PublishedFrames(cost, items);
    forall f | f in Published(cost, items) ensures FrameOfCreate(cost, c, f) {
      if c.quantity != 1 {
        assert TellsOf(cost, f, items);
        assert f.event.items[0] in f.event.items;
      }
    }
  }

  // ---- Remove ----

  /** A removal takes away exactly the order that is found, and says so; otherwise nothing changes. */
  lemma RemoveOutcome(db: Db, workspace: Id, id: Id)
    ensures var out := ExecRemove(db, workspace, id);
            var found := id in db.orders && db.orders[id].workspace == workspace;
            && (found ==>
                  && out.error.None? && out.db.counters == db.counters
                  && out.db.orders.Keys == db.orders.Keys - {id}
                  && (forall k :: k in out.db.orders ==> out.db.orders[k] == db.orders[k])
                  && out.frames == [Frame(workspace, Deleted(id))])
            && (!found ==> out.error == Some(Mutation(NotFound)) && Unchanged(db, out))
  {
  }

  // ---- Clear ----

  /** The workspace's orders and counters that a clear in this mode takes away. */
  predicate Clearable(cal: Calendar, c: Command, workspace: Id, date: int)
    requires c.Clear?
  {
    workspace == c.workspace && (c.mode == "before_today" ==> date < cal.dateOf(c.now))
  }

  /** What a clear leaves: the orders and the counters it does not take away, as they were. */
  ghost predicate OthersKept(cal: Calendar, db: Db, c: Command, after: Db)
    requires c.Clear?
  {
    && (forall id :: id in after.orders <==>
          id in db.orders && !Clearable(cal, c, db.orders[id].workspace, cal.dateOf(db.orders[id].createdAt)))
    && (forall id :: id in after.orders ==> after.orders[id] == db.orders[id])
    && (forall k :: k in after.counters <==> k in db.counters && !Clearable(cal, c, k.workspace, k.date))
    && (forall k :: k in after.counters ==> after.counters[k] == db.counters[k])
  }

  /** A clear asks for an owner, a confirmation and a known mode, in this order. It takes away every order
      and counter of the workspace or, before today, those of earlier dates; everything else stays as it
      is; and the event tells how many orders went, and before which date. */
  lemma ClearOutcome(cal: Calendar, db: Db, c: Command)
    requires cal.Valid() && c.Clear?
    ensures var out := ExecClear(cal, db, c);
            var known := c.mode in ["", "all", "before_today"];
            && (out.error == Some(Forbidden) <==> !c.owner)
            && (out.error == Some(Unconfirmed) <==> c.owner && !c.confirm)
            && (out.error == Some(InvalidMode) <==> c.owner && c.confirm && !known)
            && (out.error.None? <==> c.owner && c.confirm && known)
            && (out.error.Some? ==> Unchanged(db, out))
            && (out.error.None? ==>
                  && OthersKept(cal, db, c, out.db)
                  && |out.db.orders| <= |db.orders|
                  && out.frames == [Frame(c.workspace, Cleared(
                       |db.orders| - |out.db.orders|,
                       if c.mode == "before_today" then Some(cal.dateOf(c.now)) else None))])
  {
    hide cal.Valid, OthersKept, ClearTx;
    if ExecClear(cal, db, c).error.None? {
      var before := if c.mode == "before_today" then Some(cal.dateOf(c.now)) else None;
      AfterClear(cal, db, c, before);
    }
  }

  lemma AfterClear(cal: Calendar, db: Db, c: Command, before: Option<int>)
    requires cal.Valid() && c.Clear? && before == if c.mode == "before_today" then Some(cal.dateOf(c.now)) else None
    ensures var after := ClearTx(cal, db, c.workspace, before);
            && OthersKept(cal, db, c, after)
            && |after.orders| <= |db.orders|
            && |db.orders.Keys - after.orders.Keys| == |db.orders| - |after.orders|
  {
    hide cal.Valid, Clearable, ClearTx;
    OrdersAfterClear(cal, db, c, before);
    CountersAfterClear(cal, db, c, before);
    CountRemoved(db.orders, ClearTx(cal, db, c.workspace, before).orders);
  }

  lemma OrdersAfterClear(cal: Calendar, db: Db, c: Command, before: Option<int>)
    requires cal.Valid() && c.Clear? && before == if c.mode == "before_today" then Some(cal.dateOf(c.now)) else None
    ensures var after := ClearTx(cal, db, c.workspace, before).orders;
            && (forall id :: id in after <==>
                  && id in db.orders
                  && !Clearable(cal, c, db.orders[id].workspace, cal.dateOf(db.orders[id].createdAt)))
            && (forall id :: id in after ==> after[id] == db.orders[id])
  {
    hide cal.Valid;
    if before.Some? {
      forall id | id in db.orders
        ensures db.orders[id].createdAt < cal.DayStart(before.value) <==>
                cal.dateOf(db.orders[id].createdAt) < before.value
      {
        DateOfCut(cal, db.orders[id].createdAt, before.value);
      }
    }
  }

  lemma CountersAfterClear(cal: Calendar, db: Db, c: Command, before: Option<int>)
    requires c.Clear? && before == if c.mode == "before_today" then Some(cal.dateOf(c.now)) else None
    ensures var after := ClearTx(cal, db, c.workspace, before).counters;
            && (forall k :: k in after <==> k in db.counters && !Clearable(cal, c, k.workspace, k.date))
            && (forall k :: k in after ==> after[k] == db.counters[k])
  {
  }

  lemma DateOfCut(cal: Calendar, t: Instant, d: int)
    requires cal.Valid()
    ensures t < cal.DayStart(d) <==> cal.dateOf(t) < d
  {
    BeforeDayStart(cal, t, d);
  }

  lemma CountRemoved(before: map<Id, Order>, after: map<Id, Order>)
    requires after.Keys <= before.Keys
    ensures |before.Keys - after.Keys| == |before| - |after|
  {
  }

  /** With mode all, nothing of the workspace is left. */
  lemma ClearAllLeavesNothing(cal: Calendar, db: Db, c: Command)
    requires cal.Valid() && c.Clear? && c.owner && c.confirm && c.mode in ["", "all"]
    ensures var out := ExecClear(cal, db, c);
            && out.error.None?
            && (forall id :: id in out.db.orders ==> out.db.orders[id].workspace != c.workspace)
            && (forall k :: k in out.db.counters ==> k.workspace != c.workspace)
  {
    hide ExecClear, cal.Valid;
    ClearOutcome(cal, db, c);
  }
}
