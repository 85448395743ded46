/** Orders, the life cycle of one row, and what a mutation decides to write. */
module Orders {
  import opened Common
  import opened OrderForms

  const UNREQUIRED: int16 := 1
  const NOT_STARTED: int16 := 2
  const COMPLETED: int16 := 3

  /** One row of the orders table. `form` groups the fifteen columns copied from the order form. */
  datatype Order = Order(
    id: Id,
    workspace: Id,
    displayNo: string,
    version: int,
    form: OrderForm,
    totalPrice: int,
    stapleStatus: int16,
    meatStatus: int16,
    createdBy: Id,
    updatedBy: Id,
    createdAt: Instant,
    updatedAt: Instant,
    completedAt: Option<Instant>)

  /** What clients are shown of an order; times have whole seconds. */
  datatype OrderDto = OrderDto(
    id: Id,
    version: int,
    displayNo: string,
    form: OrderForm,
    totalPrice: int,
    stapleStatus: int16,
    meatStatus: int16,
    createdAt: int,
    updatedAt: int,
    completedAt: Option<int>)

  function ToDto(o: Order): OrderDto {
    OrderDto(o.id, o.version, o.displayNo, o.form, o.totalPrice, o.stapleStatus, o.meatStatus,
             o.createdAt / NANOS_PER_SECOND, o.updatedAt / NANOS_PER_SECOND,
             if o.completedAt.None? then None else Some(o.completedAt.value / NANOS_PER_SECOND))
  }

  function ToDtos(items: seq<Order>): (r: seq<OrderDto>)
    ensures |r| == |items|
    ensures forall i :: 0 <= i < |items| ==> r[i] == ToDto(items[i])
  {
    seq(|items|, i requires 0 <= i < |items| => ToDto(items[i]))
  }

  // ---- Cooking steps ----

  predicate NeedsStapleStep(f: OrderForm) { f.stapleType.Some? && f.stapleType.value != RICE }

  predicate NeedsMeatStep(f: OrderForm) { |f.meats| > 0 }

  /** The form as the domain rebuilds it from a row: egg and skewer counts are not carried over. */
  function ToFormInput(o: Order): OrderForm {
    o.form.(friedEggs := 0, tofuSkewers := 0)
  }

  /** What rebuilding loses: it gives back the stored form exactly when there are no eggs and no skewers,
      and otherwise a form that is cheaper by their price. */
  lemma RebuiltFormIff(o: Order)
    ensures ToFormInput(o) == o.form <==> o.form.friedEggs == 0 && o.form.tofuSkewers == 0
    ensures TotalPrice(o.form) - TotalPrice(ToFormInput(o)) ==
            200 * (o.form.friedEggs as int + o.form.tofuSkewers as int)
  {
  }

  function InitialStapleStatus(f: OrderForm): int16 { if NeedsStapleStep(f) then NOT_STARTED else UNREQUIRED }

  function InitialMeatStatus(f: OrderForm): int16 { if NeedsMeatStep(f) then NOT_STARTED else UNREQUIRED }

  predicate CanServe(o: Order) {
    && (NeedsStapleStep(ToFormInput(o)) ==> o.stapleStatus == COMPLETED)
    && (NeedsMeatStep(ToFormInput(o)) ==> o.meatStatus == COMPLETED)
  }

  function Toggled(status: int16): int16 { if status == COMPLETED then NOT_STARTED else COMPLETED }

  function ToggleStepOf(o: Order, step: string): Order {
    if step == "staple" then
      if !NeedsStapleStep(ToFormInput(o)) || o.stapleStatus == UNREQUIRED then o
      else Unserve(o.(stapleStatus := Toggled(o.stapleStatus)))
    else if step == "meat" then
      if o.meatStatus == UNREQUIRED then o
      else Unserve(o.(meatStatus := Toggled(o.meatStatus)))
    else o
  }

  /** Clears the completion time of an order that can no longer be served. */
  function Unserve(o: Order): Order {
    if o.completedAt.Some? && !CanServe(o) then o.(completedAt := None) else o
  }

  function ToggleServedOf(o: Order, now: Instant): Order {
    o.(completedAt := if o.completedAt.None? then Some(now) else None)
  }

  method InitialStepStatuses(f: OrderForm) returns (staple: int16, meat: int16, completedAt: Option<Instant>)
    ensures staple == InitialStapleStatus(f) && meat == InitialMeatStatus(f) && completedAt == None
  {
    staple := UNREQUIRED;
    if NeedsStapleStep(f) { staple := NOT_STARTED; }
    meat := UNREQUIRED;
    if NeedsMeatStep(f) { meat := NOT_STARTED; }
    completedAt := None;
  }

  method ToggleOneStep(order: Order, step: string) returns (o: Order)
    ensures o == ToggleStepOf(order, step)
  {
    o := order;
    if step == "staple" {
      if !NeedsStapleStep(ToFormInput(o)) || o.stapleStatus == UNREQUIRED { return; }
      if o.stapleStatus == COMPLETED { o := o.(stapleStatus := NOT_STARTED); }
      else { o := o.(stapleStatus := COMPLETED); }
    } else if step == "meat" {
      if o.meatStatus == UNREQUIRED { return; }
      if o.meatStatus == COMPLETED { o := o.(meatStatus := NOT_STARTED); }
      else { o := o.(meatStatus := COMPLETED); }
    } else {
      return;
    }
    if o.completedAt.Some? && !CanServe(o) { o := o.(completedAt := None); }
  }

  predicate SameProgress(a: Order, b: Order) {
    a.stapleStatus == b.stapleStatus && a.meatStatus == b.meatStatus && a.completedAt == b.completedAt
  }

  // ---- Rows ----

  /** The row CreateBatch inserts for an accepted form. */
  function NewOrder(id: Id, workspace: Id, displayNo: string, form: OrderForm, user: Id, now: Instant): Order {
    Order(id, workspace, displayNo, 1, form, TotalPrice(form), InitialStapleStatus(form), InitialMeatStatus(form),
          user, user, now, now, None)
  }

  predicate StatusOk(required: bool, status: int16) {
    if required then status == NOT_STARTED || status == COMPLETED else status == UNREQUIRED
  }

  /** What holds of every stored row. */
  predicate RowOk(o: Order) {
    && o.version >= 1
    && NormalForm(o.form)
    && o.totalPrice == TotalPrice(o.form)
    && StatusOk(NeedsStapleStep(o.form), o.stapleStatus)
    && StatusOk(NeedsMeatStep(o.form), o.meatStatus)
    && (o.completedAt.Some? ==> CanServe(o) && o.completedAt.value == o.updatedAt)
  }

  /** The columns no mutation may change. */
  predicate SameIdentity(a: Order, b: Order) {
    && a.id == b.id && a.workspace == b.workspace && a.displayNo == b.displayNo
    && a.createdBy == b.createdBy && a.createdAt == b.createdAt
  }

  // ---- Mutations of an existing order ----

  /** The optimistic-concurrency token of a request; a version outranks the legacy timestamp. */
  datatype Guard = Unguarded | ExpectVersion(version: int) | ExpectUpdatedAt(at: Instant)

  datatype Mutation = UpdateForm(form: OrderForm) | ToggleStep(step: string) | ToggleServed

  datatype Request = Request(workspace: Id, user: Id, orderId: Id, guard: Guard, mutation: Mutation, now: Instant)

  /** Vanished is the internal error of an unguarded write whose row was deleted after it was read,
      Unstorable that of a row the columns cannot hold. */
  datatype Refusal = InvalidForm(error: FormError) | InvalidStep | NotFound | Conflict | CannotServe
    | Vanished | Unstorable

  datatype Decision = Refuse(refusal: Refusal) | Keep | Write(updated: Order)

  predicate GuardHolds(g: Guard, current: Order) {
    match g
    case Unguarded => true
    case ExpectVersion(v) => current.version == v
    case ExpectUpdatedAt(t) => current.updatedAt / NANOS_PER_SECOND == t / NANOS_PER_SECOND
  }

  /** Checks that need no row: a malformed request never reaches the database. */
  function Precheck(req: Request): Option<Refusal> {
    match req.mutation
    case UpdateForm(form) =>
      (match Normalized(form) case Success(_) => None case Failure(e) => Some(InvalidForm(e)))
    case ToggleStep(step) => if step == "staple" || step == "meat" then None else Some(InvalidStep)
    case ToggleServed => None
  }

  /** What a well-formed request does with the row it read. The version of `updated` is
      assigned by the database. */
  function Decide(req: Request, current: Order): Decision
    requires Precheck(req).None?
  {
    if !GuardHolds(req.guard, current) then Refuse(Conflict)
    else match req.mutation
      case UpdateForm(form) =>
        var g := Normalized(form).value;
        Write(current.(
          form := g, totalPrice := TotalPrice(g),
          stapleStatus := InitialStapleStatus(g), meatStatus := InitialMeatStatus(g),
          updatedBy := req.user, updatedAt := req.now, completedAt := None))
      case ToggleStep(step) =>
        var toggled := ToggleStepOf(current, step);
        if SameProgress(current, toggled) then Keep
        else Write(toggled.(updatedBy := req.user, updatedAt := req.now))
      case ToggleServed =>
        if !CanServe(current) then Refuse(CannotServe)
        else Write(ToggleServedOf(current, req.now).(updatedBy := req.user, updatedAt := req.now))
  }

  /** The number columns of the table are 32 bits wide, and its text columns cannot hold U+0000; the
      database refuses such a row. */
  predicate Storable(o: Order) {
    && o.totalPrice <= MAX_INT32
    && '\0' !in o.form.note
    && (o.form.customSizePrice.Some? ==> o.form.customSizePrice.value <= MAX_INT32)
  }

  /** The rows of a table carry their own keys. */
  predicate Keyed(orders: map<Id, Order>) {
    forall id | id in orders :: orders[id].id == id
  }

  predicate ClearedRow(o: Order, workspace: Id, before: Option<Instant>) {
    o.workspace == workspace && (before.Some? ==> o.createdAt < before.value)
  }

  /** The rows the DELETE of a clear leaves. */
  function ClearOrders(orders: map<Id, Order>, workspace: Id, before: Option<Instant>): map<Id, Order> {
    map id | id in orders && !ClearedRow(orders[id], workspace, before) :: orders[id]
  }

  /** Every decision preserves the row invariant and the identity of the row, whatever version
      the database gives the result. */
  lemma DecideKeepsRow(req: Request, current: Order, version: int)
    requires Precheck(req).None? && RowOk(current) && version >= 1
    ensures Decide(req, current).Write? ==>
              var u := Decide(req, current).updated;
              RowOk(u.(version := version)) && SameIdentity(u, current)
  {
    hide NormalForm, TotalPrice;
    if req.mutation.UpdateForm? {
      NormalizeMeaning(req.mutation.form);
    }
  }

  lemma NewOrderIsOk(id: Id, workspace: Id, displayNo: string, input: OrderForm, user: Id, now: Instant)
    requires Normalized(input).Success?
    ensures RowOk(NewOrder(id, workspace, displayNo, Normalized(input).value, user, now))
  {
    NormalizeMeaning(input);
  }

  /** For stored rows, being servable is having no step still to do. */
  lemma CanServeMeaning(o: Order)
    requires RowOk(o)
    ensures CanServe(o) <==> o.stapleStatus != NOT_STARTED && o.meatStatus != NOT_STARTED
  {
  }

  /** Toggling a step twice restores both statuses; the one thing it does not give back is the
      completion time of an order whose required step was undone on the way. */
  lemma ToggleStepTwice(o: Order, step: string)
    requires RowOk(o) && (step == "staple" || step == "meat")
    ensures var required := if step == "staple" then NeedsStapleStep(o.form) else NeedsMeatStep(o.form);
            && ToggleStepOf(ToggleStepOf(o, step), step) == (if required then o.(completedAt := None) else o)
            && (SameProgress(o, ToggleStepOf(o, step)) <==> !required)
            && (required && o.completedAt.Some? ==> ToggleStepOf(o, step).completedAt.None?)
  {
  }

  lemma GuardOfWrite(req: Request, current: Order)
    requires Precheck(req).None? && Decide(req, current).Write?
    ensures req.guard.ExpectVersion? ==> current.version == req.guard.version
  {
  }
}
