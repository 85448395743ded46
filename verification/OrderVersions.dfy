/** Concurrent mutations of orders, split into the steps at which they can interleave: read the
    row, decide, write it conditionally and commit, publish. */
module OrderVersions {
  import opened Common
  import opened OrderForms
  import opened Orders

  datatype Stage =
    | Started
    | Loaded(current: Order)
    | Ready(base: Order, updated: Order)
    | Committed(base: Order, row: Order)
    | Published(base: Order, row: Order)
    | Unchanged(current: Order)
    | Refused(refusal: Refusal)

  datatype Txn = Txn(req: Request, stage: Stage)

  /** `created` are the rows inserted whose creation is not published yet, `events` the rows published,
      in the order of publication. `history` and `authors` record, for every id ever inserted, each
      committed row and the transaction that committed it (none for the insert); the service itself
      keeps only `table`. */
  datatype State = State(
    table: map<Id, Order>,
    txns: map<Id, Txn>,
    created: map<Id, Order>,
    events: seq<Order>,
    history: map<Id, seq<Order>>,
    authors: map<Id, seq<Option<Id>>>)

  const INIT := State(map[], map[], map[], [], map[], map[])

  /** Each transaction takes its own steps in order; `Advance` is the next one of `txn`. */
  datatype Action =
    | Begin(txn: Id, req: Request)
    | Advance(txn: Id)
    | Insert(id: Id, workspace: Id, displayNo: string, form: OrderForm, user: Id, now: Instant)
    | Announce(id: Id)
    | Delete(workspace: Id, id: Id)
    | Clear(workspace: Id, before: Option<Instant>)

  function Move(s: State, t: Id, stage: Stage): State
    requires t in s.txns
  {
    s.(txns := s.txns[t := s.txns[t].(stage := stage)])
  }

  /** GetByID finds the committed row, if the id exists in the caller's workspace. */
  predicate Visible(s: State, req: Request) {
    req.orderId in s.table && s.table[req.orderId].workspace == req.workspace
  }

  function BeginStage(req: Request): Stage {
    var refusal := Precheck(req);
    if refusal.Some? then Refused(refusal.value) else Started
  }

  function ReadStage(s: State, req: Request): Stage {
    if Visible(s, req) then Loaded(s.table[req.orderId]) else Refused(NotFound)
  }

  function DecideStage(req: Request, current: Order): Stage
    requires Precheck(req).None?
  {
    match Decide(req, current)
    case Refuse(r) => Refused(r)
    case Keep => Unchanged(current)
    case Write(u) => Ready(current, u)
  }

  /** The conditional UPDATE finds its row only if the workspace and, when one was named, the
      version still match. */
  predicate RowMatches(s: State, req: Request) {
    Visible(s, req) && (req.guard.ExpectVersion? ==> s.table[req.orderId].version == req.guard.version)
  }

  function CommitRow(s: State, t: Id, base: Order, updated: Order): State
    requires t in s.txns
  {
    var req := s.txns[t].req;
    if !RowMatches(s, req) then
      Move(s, t, Refused(if req.guard.ExpectVersion? then Conflict else Vanished))
    else
      var row := updated.(version := s.table[req.orderId].version + 1);
      if !Storable(row) then Move(s, t, Refused(Unstorable))
      else Record(Move(s, t, Committed(base, row)), req.orderId, row, Some(t))
  }

  /** Stores a row, and records that `author` committed it. */
  function Record(s: State, id: Id, row: Order, author: Option<Id>): State {
    s.(table := s.table[id := row],
       history := s.history[id := (if id in s.history then s.history[id] else []) + [row]],
       authors := s.authors[id := (if id in s.authors then s.authors[id] else []) + [author]])
  }

  function InsertRow(s: State, row: Order): State {
    Record(s, row.id, row, None).(created := s.created[row.id := row])
  }

  /** One step. A step that is not possible in `s` leaves it unchanged. */
  function Step(s: State, a: Action): State {
    match a
    case Begin(t, req) =>
      if t in s.txns then s else s.(txns := s.txns[t := Txn(req, BeginStage(req))])
    case Advance(t) => if t in s.txns then AdvanceTxn(s, t) else s
    case Insert(id, workspace, displayNo, form, user, now) =>
      if id in s.history || Normalized(form).Failure? then s
      else
        var row := NewOrder(id, workspace, displayNo, Normalized(form).value, user, now);
        if Storable(row) then InsertRow(s, row) else s
    case Announce(id) =>
      if id in s.created then s.(events := s.events + [s.created[id]], created := s.created - {id}) else s
    case Delete(workspace, id) =>
      if id in s.table && s.table[id].workspace == workspace then s.(table := s.table - {id}) else s
    case Clear(workspace, before) => s.(table := ClearOrders(s.table, workspace, before))
  }

  function AdvanceTxn(s: State, t: Id): State
    requires t in s.txns
  {
    var req := s.txns[t].req;
    match s.txns[t].stage
    case Started => Move(s, t, ReadStage(s, req))
    case Loaded(current) => if Precheck(req).Some? then s else Move(s, t, DecideStage(req, current))
    case Ready(base, updated) => CommitRow(s, t, base, updated)
    case Committed(base, row) => Move(s, t, Published(base, row)).(events := s.events + [row])
    case _ => s
  }

  function Run(actions: seq<Action>): State {
    if actions == [] then INIT else Step(Run(actions[..|actions| - 1]), actions[|actions| - 1])
  }

  // ---- The invariant ----

  /** The rows ever committed under one id: versions count up from one, every row is well
      formed, and its identity is that of the first. */
  predicate LineOk(id: Id, line: seq<Order>) {
    && |line| >= 1
    && (forall k :: 0 <= k < |line| ==>
          RowOk(line[k]) && Storable(line[k]) && line[k].id == id && line[k].version == k + 1
          && SameIdentity(line[k], line[0]))
  }

  /** The row is the one committed under its id and version. */
  predicate Recorded(s: State, row: Order) {
    && row.id in s.history
    && 1 <= row.version <= |s.history[row.id]|
    && s.history[row.id][row.version - 1] == row
  }

  predicate StageOk(s: State, t: Id, req: Request, stage: Stage) {
    match stage
    case Started => Precheck(req).None?
    case Loaded(c) => Precheck(req).None? && Recorded(s, c) && c.id == req.orderId
    case Ready(base, u) =>
      Precheck(req).None? && Recorded(s, base) && base.id == req.orderId && Decide(req, base) == Write(u)
    case Committed(base, row) => CommitOk(s, t, req, base, row)
    case Published(base, row) => CommitOk(s, t, req, base, row)
    case _ => true
  }

  /** What is known of a change that was committed: it is what the request decided on the row
      it had read, under a version at which nobody else committed. */
  predicate CommitOk(s: State, t: Id, req: Request, base: Order, row: Order) {
    && Precheck(req).None?
    && Recorded(s, base) && base.id == req.orderId
    && Recorded(s, row) && row.id == req.orderId && row.version >= 2
    && Decide(req, base).Write?
    && row == Decide(req, base).updated.(version := row.version)
    && (req.guard.ExpectVersion? ==> base.version == req.guard.version && row.version == req.guard.version + 1)
    && row.id in s.authors && row.version <= |s.authors[row.id]|
    && s.authors[row.id][row.version - 1] == Some(t)
  }

  ghost predicate LinesOk(s: State) {
    && s.history.Keys == s.authors.Keys
    && (forall id :: id in s.history ==> LineOk(id, s.history[id]) && |s.authors[id]| == |s.history[id]|)
  }

  /** The table holds the last committed row of each order it holds. */
  ghost predicate TableOk(s: State) {
    forall id :: id in s.table ==>
      id in s.history && s.history[id] != [] && s.table[id] == s.history[id][|s.history[id]| - 1]
  }

  ghost predicate TxnsOk(s: State) {
    forall t :: t in s.txns ==> StageOk(s, t, s.txns[t].req, s.txns[t].stage)
  }

  ghost predicate EventsOk(s: State) {
    && (forall i :: 0 <= i < |s.events| ==> Recorded(s, s.events[i]))
    && (forall id :: id in s.created ==> s.created[id].id == id && Recorded(s, s.created[id]))
  }

  ghost predicate Inv(s: State) {
    LinesOk(s) && TableOk(s) && TxnsOk(s) && EventsOk(s)
  }

  /** Histories only ever grow. */
  ghost predicate Extends(s: State, s': State) {
    && (forall id :: id in s.history ==> id in s'.history && s.history[id] <= s'.history[id])
    && (forall id :: id in s.authors ==> id in s'.authors && s.authors[id] <= s'.authors[id])
  }

  lemma StepExtends(s: State, a: Action)
    ensures Extends(s, Step(s, a))
  {
    hide AdvanceTxn, InsertRow, Storable, Normalized;
    match a
    case Advance(t) => if t in s.txns { AdvanceExtends(s, t); }
    case Insert(id, workspace, displayNo, form, user, now) =>
      if Step(s, a) != s {
        InsertExtends(s, NewOrder(id, workspace, displayNo, Normalized(form).value, user, now));
      }
    case _ =>
  }

  lemma AdvanceExtends(s: State, t: Id)
    requires t in s.txns
    ensures Extends(s, AdvanceTxn(s, t))
  {
    hide Extends, DecideStage, ReadStage, CommitRow, Move, Precheck;
    var req := s.txns[t].req;
    match s.txns[t].stage
    case Started => MoveExtends(s, t, ReadStage(s, req));
    case Loaded(current) =>
      if Precheck(req).None? { MoveExtends(s, t, DecideStage(req, current)); } else { Unextended(s, s); }
    case Ready(base, updated) => CommitExtends(s, t, base, updated);
    case Committed(base, row) => Unextended(s, AdvanceTxn(s, t)) by { SameLines(s, t, Published(base, row)); }
    case _ => Unextended(s, s);
  }

  lemma Unextended(s: State, s': State)
    requires s'.history == s.history && s'.authors == s.authors
    ensures Extends(s, s')
  {
  }

  lemma SameLines(s: State, t: Id, stage: Stage)
    requires t in s.txns
    ensures Move(s, t, stage).history == s.history && Move(s, t, stage).authors == s.authors
  {
  }

  lemma MoveExtends(s: State, t: Id, stage: Stage)
    requires t in s.txns
    ensures Extends(s, Move(s, t, stage))
  {
    hide Extends;
    Unextended(s, Move(s, t, stage));
  }

  lemma CommitExtends(s: State, t: Id, base: Order, updated: Order)
    requires t in s.txns
    ensures Extends(s, CommitRow(s, t, base, updated))
  {
    hide Storable, RowMatches;
  }

  lemma InsertExtends(s: State, row: Order)
    ensures Extends(s, InsertRow(s, row))
  {
  }

  lemma TableIsRecorded(s: State, id: Id)
    requires LinesOk(s) && TableOk(s) && id in s.table
    ensures s.table[id].id == id && s.table[id].version == |s.history[id]| && Recorded(s, s.table[id])
  {
    hide RowOk, Storable;
    assert LineOk(id, s.history[id]);
  }

  lemma StageStaysOk(s: State, s': State, t: Id, req: Request, stage: Stage)
    requires Extends(s, s') && StageOk(s, t, req, stage)
    ensures StageOk(s', t, req, stage)
  {
    hide Decide, Precheck;
  }

  /** Growing the histories and moving at most one transaction, to a stage that is justified,
      keeps everything known of the transactions. */
  lemma TxnsStayOk(s: State, s': State, t: Id)
    requires TxnsOk(s) && Extends(s, s')
    requires forall u :: u in s'.txns && u != t ==> u in s.txns && s'.txns[u] == s.txns[u]
    requires t in s'.txns ==> StageOk(s', t, s'.txns[t].req, s'.txns[t].stage)
    ensures TxnsOk(s')
  {
    hide StageOk, Extends;
    forall u | u in s'.txns && u != t ensures StageOk(s', u, s'.txns[u].req, s'.txns[u].stage) {
      StageStaysOk(s, s', u, s.txns[u].req, s.txns[u].stage);
    }
  }

  lemma EventsStayOk(s: State, s': State)
    requires EventsOk(s) && Extends(s, s') && s.events <= s'.events
    requires forall i :: |s.events| <= i < |s'.events| ==> Recorded(s', s'.events[i])
    requires forall id :: id in s'.created ==>
               (id in s.created && s'.created[id] == s.created[id])
               || (s'.created[id].id == id && Recorded(s', s'.created[id]))
    ensures EventsOk(s')
  {
    forall id | id in s'.created ensures s'.created[id].id == id && Recorded(s', s'.created[id]) {
      if id in s.created && s'.created[id] == s.created[id] { assert Recorded(s, s.created[id]); }
    }
    forall i | 0 <= i < |s'.events| ensures Recorded(s', s'.events[i]) {
      if i < |s.events| { assert Recorded(s, s.events[i]); }
    }
  }

  lemma MoveKeepsInv(s: State, t: Id, stage: Stage)
    requires Inv(s) && t in s.txns && StageOk(s, t, s.txns[t].req, stage)
    ensures Inv(Move(s, t, stage))
  {
    hide StageOk, LineOk, Recorded;
    var s' := Move(s, t, stage);
    StageStaysOk(s, s', t, s.txns[t].req, stage);
    TxnsStayOk(s, s', t);
    EventsStayOk(s, s');
  }

  lemma RecordKeepsLines(s: State, id: Id, row: Order, author: Option<Id>)
    requires LinesOk(s) && TableOk(s)
    requires LineOk(id, (if id in s.history then s.history[id] else []) + [row])
    ensures var s' := Record(s, id, row, author);
            LinesOk(s') && TableOk(s') && Extends(s, s')
  {
    hide LineOk;
    var s' := Record(s, id, row, author);
    LinesWithOneGrown(s, s', id);
    TableWithLastRow(s, s', id);
    RecordExtends(s, id, row, author);
  }

  lemma RecordExtends(s: State, id: Id, row: Order, author: Option<Id>)
    ensures Extends(s, Record(s, id, row, author))
  {
  }

  lemma TableWithLastRow(s: State, s': State, id: Id)
    requires TableOk(s) && id in s'.history && s'.history[id] != []
    requires s'.table == s.table[id := s'.history[id][|s'.history[id]| - 1]]
             && s'.history == s.history[id := s'.history[id]]
    ensures TableOk(s')
  {
  }

  lemma LinesWithOneGrown(s: State, s': State, id: Id)
    requires LinesOk(s) && id in s'.history && id in s'.authors
    requires s'.history == s.history[id := s'.history[id]] && s'.authors == s.authors[id := s'.authors[id]]
    requires LineOk(id, s'.history[id]) && |s'.authors[id]| == |s'.history[id]|
    ensures LinesOk(s')
  {
    hide LineOk;
    forall k | k in s'.history ensures LineOk(k, s'.history[k]) && |s'.authors[k]| == |s'.history[k]| {
      if k != id { assert k in s.history; }
    }
  }

  /** The row an update commits continues the line of its order. */
  lemma NextInLine(s: State, req: Request, base: Order)
    requires LinesOk(s) && TableOk(s) && RowMatches(s, req) && Precheck(req).None?
    requires Recorded(s, base) && base.id == req.orderId && Decide(req, base).Write?
    ensures var row := Decide(req, base).updated.(version := s.table[req.orderId].version + 1);
            && row.id == req.orderId && row.version == |s.history[req.orderId]| + 1
            && (Storable(row) ==> LineOk(req.orderId, s.history[req.orderId] + [row]))
            && (req.guard.ExpectVersion? ==> base.version == req.guard.version && row.version == req.guard.version + 1)
  {
    hide RowOk, Storable, Precheck;
    var id := req.orderId;
    assert LineOk(id, s.history[id]);
    DecideKeepsRow(req, base, s.table[id].version + 1);
    assert SameIdentity(base, s.history[id][0]);
  }

  lemma CommitKeepsInv(s: State, t: Id, base: Order, updated: Order)
    requires Inv(s) && t in s.txns && s.txns[t].stage == Ready(base, updated)
    ensures Inv(CommitRow(s, t, base, updated))
  {
    hide Decide, Storable, Precheck, LineOk, EventsOk, TableOk, LinesOk;
    var req, s' := s.txns[t].req, CommitRow(s, t, base, updated);
    var id := req.orderId;
    assert StageOk(s, t, req, Ready(base, updated));
    if s'.txns[t].stage.Committed? {
      var row := s'.txns[t].stage.row;
      NextInLine(s, req, base);
      LineInfo(s, id);
      RecordKeepsLines(Move(s, t, Committed(base, row)), id, row, Some(t)) by {
        LinesUnmoved(s, Move(s, t, Committed(base, row)));
      }
      assert s'.history[id] == s.history[id] + [row] && s'.authors[id] == s.authors[id] + [Some(t)];
      assert Recorded(s', row);
      TxnsStayOk(s, s', t);
      EventsStayOk(s, s');
    } else {
      MoveKeepsInv(s, t, s'.txns[t].stage);
    }
  }

  lemma LineInfo(s: State, id: Id)
    requires LinesOk(s) && TableOk(s) && id in s.table
    ensures id in s.history && id in s.authors && |s.authors[id]| == |s.history[id]|
  {
    hide LineOk;
  }

  lemma LinesUnmoved(s: State, s': State)
    requires LinesOk(s) && TableOk(s)
    requires s'.table == s.table && s'.history == s.history && s'.authors == s.authors
    ensures LinesOk(s') && TableOk(s')
  {
    hide LineOk;
  }

  lemma PublishKeepsInv(s: State, t: Id, base: Order, row: Order)
    requires Inv(s) && t in s.txns && s.txns[t].stage == Committed(base, row)
    ensures Inv(Move(s, t, Published(base, row)).(events := s.events + [row]))
  {
    hide Decide, Precheck, LineOk, EventsOk;
    assert StageOk(s, t, s.txns[t].req, Committed(base, row));
    var s' := Move(s, t, Published(base, row)).(events := s.events + [row]);
    LinesUnmoved(s, s');
    assert Recorded(s', row);
    TxnsStayOk(s, s', t);
    EventsStayOk(s, s');
  }

  lemma AdvanceKeepsInv(s: State, t: Id)
    requires Inv(s) && t in s.txns
    ensures Inv(AdvanceTxn(s, t))
  {
    hide Decide, Precheck, LineOk, CommitRow, EventsOk, TableOk, LinesOk, CommitOk;
    var req := s.txns[t].req;
    assert StageOk(s, t, req, s.txns[t].stage);
    match s.txns[t].stage
    case Started =>
      if Visible(s, req) { TableIsRecorded(s, req.orderId); }
      MoveKeepsInv(s, t, ReadStage(s, req));
    case Loaded(current) => MoveKeepsInv(s, t, DecideStage(req, current));
    case Ready(base, updated) => CommitKeepsInv(s, t, base, updated);
    case Committed(base, row) => PublishKeepsInv(s, t, base, row);
    case _ =>
  }

  lemma InsertKeepsInv(s: State, row: Order)
    requires Inv(s) && row.id !in s.history && RowOk(row) && Storable(row) && row.version == 1
    ensures Inv(InsertRow(s, row))
  {
    hide StageOk, TableOk, LinesOk, EventsOk;
    var s' := InsertRow(s, row);
    NewLineOk(row);
    assert [] + [row] == [row];
    RecordKeepsLines(s, row.id, row, None);
    LinesUnmoved(Record(s, row.id, row, None), s');
    TxnsOnlyExtended(s, s');
    EventsStayOk(s, s');
  }

  lemma NewLineOk(row: Order)
    requires RowOk(row) && Storable(row) && row.version == 1
    ensures LineOk(row.id, [row])
  {
    hide RowOk, Storable;
  }

  lemma TxnsOnlyExtended(s: State, s': State)
    requires TxnsOk(s) && Extends(s, s') && s'.txns == s.txns
    ensures TxnsOk(s')
  {
    hide StageOk, Extends;
    forall u | u in s'.txns ensures StageOk(s', u, s'.txns[u].req, s'.txns[u].stage) {
      StageStaysOk(s, s', u, s.txns[u].req, s.txns[u].stage);
    }
  }

  lemma TxnsUnmoved(s: State, s': State)
    requires TxnsOk(s) && EventsOk(s) && Extends(s, s') && s'.txns == s.txns
    requires s'.events == s.events && s'.created == s.created
    ensures TxnsOk(s') && EventsOk(s')
  {
    hide TxnsOk, Extends;
    TxnsOnlyExtended(s, s');
    EventsStayOk(s, s');
  }

  lemma AnnounceKeepsInv(s: State, id: Id)
    requires Inv(s) && id in s.created
    ensures Inv(s.(events := s.events + [s.created[id]], created := s.created - {id}))
  {
    hide StageOk, LineOk;
    var s' := s.(events := s.events + [s.created[id]], created := s.created - {id});
    LinesUnmoved(s, s');
    TxnsOnlyExtended(s, s');
    assert Recorded(s, s.created[id]);
    EventsStayOk(s, s');
  }

  lemma BeginKeepsInv(s: State, t: Id, req: Request)
    requires Inv(s) && t !in s.txns
    ensures Inv(s.(txns := s.txns[t := Txn(req, BeginStage(req))]))
  {
    hide LineOk, Precheck, CommitOk, Recorded;
    var s' := s.(txns := s.txns[t := Txn(req, BeginStage(req))]);
    LinesUnmoved(s, s');
    TxnsStayOk(s, s', t);
    EventsStayOk(s, s');
  }

  lemma StepKeepsInv(s: State, a: Action)
    requires Inv(s)
    ensures Inv(Step(s, a))
  {
    hide RowOk, Storable, Normalized, AdvanceTxn, InsertRow, EventsOk, TableOk, LinesOk, TxnsOk, BeginStage;
    var s' := Step(s, a);
    match a
    case Begin(t, req) =>
      if t !in s.txns { BeginKeepsInv(s, t, req); }
    case Advance(t) => if t in s.txns { AdvanceKeepsInv(s, t); }
    case Insert(id, workspace, displayNo, form, user, now) =>
      if s' != s {
        var row := NewOrder(id, workspace, displayNo, Normalized(form).value, user, now);
        NewOrderIsOk(id, workspace, displayNo, form, user, now);
        InsertKeepsInv(s, row);
      }
    case Announce(id) => if id in s.created { AnnounceKeepsInv(s, id); }
    case Delete(_, _) =>
      DeleteKeepsLines(s, s');
      TxnsUnmoved(s, s');
    case Clear(_, _) =>
      DeleteKeepsLines(s, s');
      TxnsUnmoved(s, s');
  }

  lemma DeleteKeepsLines(s: State, s': State)
    requires LinesOk(s) && TableOk(s) && s'.history == s.history && s'.authors == s.authors
    requires forall id :: id in s'.table ==> id in s.table && s'.table[id] == s.table[id]
    ensures LinesOk(s') && TableOk(s')
  {
    hide LineOk;
  }

  lemma {:induction false} RunKeepsInv(actions: seq<Action>)
    ensures Inv(Run(actions))
  {
    hide Step, Inv;
    if actions != [] {
      RunKeepsInv(actions[..|actions| - 1]);
      StepKeepsInv(Run(actions[..|actions| - 1]), actions[|actions| - 1]);
    } else {
      InitOk();
    }
  }

  lemma InitOk()
    ensures Inv(INIT)
  {
  }

  lemma {:induction false} RunExtends(a: seq<Action>, b: seq<Action>)
    ensures Extends(Run(a), Run(a + b))
    decreases |b|
  {
    hide Step;
    if b == [] {
      assert a + b == a;
    } else {
      var front := b[..|b| - 1];
      RunExtends(a, front);
      assert (a + b)[..|a + b| - 1] == a + front;
      StepExtends(Run(a + front), b[|b| - 1]);
    }
  }

  // ---- Main results ----

  ghost predicate Changed(s: State, t: Id) {
    t in s.txns && (s.txns[t].stage.Committed? || s.txns[t].stage.Published?)
  }

  /** Optimistic concurrency, for every interleaving: a mutation naming version v that changed
      its order computed the result from exactly the row committed at v, and left version v+1. */
  lemma {:induction false} NamedVersionIsBase(actions: seq<Action>, t: Id)
    requires Changed(Run(actions), t) && Run(actions).txns[t].req.guard.ExpectVersion?
    ensures var s := Run(actions);
            var req, stage := s.txns[t].req, s.txns[t].stage;
            var v, line := req.guard.version, (if req.orderId in s.history then s.history[req.orderId] else []);
            && 1 <= v < |line|
            && stage.base == line[v - 1] && stage.row == line[v]
            && stage.row.version == v + 1
            && Precheck(req).None?
            && Decide(req, line[v - 1]).Write?
            && line[v] == Decide(req, line[v - 1]).updated.(version := v + 1)
  {
    hide Run, Decide, Precheck, LinesOk, TableOk, EventsOk;
    RunKeepsInv(actions);
    var s := Run(actions);
    assert StageOk(s, t, s.txns[t].req, s.txns[t].stage);
  }

  /** At most one mutation naming the same version of the same order ever commits a change. */
  lemma {:induction false} OneWinnerPerVersion(actions: seq<Action>, t: Id, u: Id)
    requires var s := Run(actions);
             && Changed(s, t) && Changed(s, u)
             && s.txns[t].req.orderId == s.txns[u].req.orderId
             && s.txns[t].req.guard.ExpectVersion? && s.txns[u].req.guard == s.txns[t].req.guard
    ensures t == u
  {
    hide Run, Decide, Precheck, LinesOk, TableOk, EventsOk;
    RunKeepsInv(actions);
    var s := Run(actions);
    assert StageOk(s, t, s.txns[t].req, s.txns[t].stage) && StageOk(s, u, s.txns[u].req, s.txns[u].stage);
  }

  /** The only step of a mutation that touches the table is its commit, which raises the version
      of one row by one and nothing else; a step that refuses the mutation, or finds nothing to
      change, leaves the table as it was. */
  lemma {:induction false} OnlyCommitsChangeRows(actions: seq<Action>, t: Id)
    requires t in Run(actions).txns
    ensures var s, s' := Run(actions), Step(Run(actions), Advance(t));
            var id := s.txns[t].req.orderId;
            && t in s'.txns
            && (s'.table != s.table ==>
                  && s.txns[t].stage.Ready? && s'.txns[t].stage.Committed?
                  && id in s.table && s'.table == s.table[id := s'.txns[t].stage.row]
                  && s'.table[id].version == s.table[id].version + 1
                  && SameIdentity(s'.table[id], s.table[id]))
            && (s.txns[t].stage.Ready? && s'.table == s.table ==> s'.txns[t].stage.Refused?)
  {
    hide Run, Step, AdvanceTxn, Inv;
    RunKeepsInv(actions);
    var s := Run(actions);
    AdvanceIs(s, t);
    AdvanceChangesRow(s, t);
    AdvanceKeepsInv(s, t);
    AdvanceExtends(s, t);
    if s.txns[t].stage.Ready? && AdvanceTxn(s, t).txns[t].stage.Committed? {
      SameIdentityOf(s, AdvanceTxn(s, t), s.txns[t].req.orderId);
    }
  }

  lemma AdvanceIs(s: State, t: Id)
    requires t in s.txns
    ensures Step(s, Advance(t)) == AdvanceTxn(s, t)
  {
    hide AdvanceTxn;
  }

  lemma AdvanceChangesRow(s: State, t: Id)
    requires t in s.txns
    ensures var s', id := AdvanceTxn(s, t), s.txns[t].req.orderId;
            && t in s'.txns && s'.txns[t].req == s.txns[t].req
            && (s'.table != s.table || (s.txns[t].stage.Ready? && s'.txns[t].stage.Committed?) ==>
                  && s.txns[t].stage.Ready? && s'.txns[t].stage.Committed?
                  && id in s.table && s'.table == s.table[id := s'.txns[t].stage.row]
                  && s'.table[id].version == s.table[id].version + 1)
            && (s.txns[t].stage.Ready? && s'.table == s.table ==> s'.txns[t].stage.Refused?)
  {
    hide Decide, Precheck, Storable;
    var s', id := AdvanceTxn(s, t), s.txns[t].req.orderId;
    if s.txns[t].stage.Ready? && s'.txns[t].stage.Committed? {
      assert s'.table[id].version == s.table[id].version + 1;
    }
  }

  /** Rows stored under one id before and after have one identity. */
  lemma SameIdentityOf(s: State, s': State, id: Id)
    requires Inv(s) && Inv(s') && Extends(s, s') && id in s.table && id in s'.table
    ensures SameIdentity(s'.table[id], s.table[id])
  {
    hide LineOk, TxnsOk, EventsOk;
    TableIsRecorded(s, id);
    TableIsRecorded(s', id);
    SameLine(s', s'.table[id], s.table[id]);
  }

  lemma SameLine(s: State, a: Order, b: Order)
    requires LinesOk(s) && Recorded(s, a) && Recorded(s, b) && a.id == b.id
    ensures SameIdentity(a, b)
    ensures a.version == b.version ==> a == b
  {
    hide RowOk, Storable;
    assert LineOk(a.id, s.history[a.id]);
  }

  /** Version identifies content: two published upserts with the same id and version are the
      same row, and that row is the one committed at the version, whatever the mutation that
      published it had read. */
  lemma {:induction false} VersionIdentifiesContent(actions: seq<Action>, i: nat, j: nat)
    requires i < |Run(actions).events| && j < |Run(actions).events|
    ensures var s := Run(actions);
            var row := s.events[i];
            && Recorded(s, row)
            && (row.id == s.events[j].id && row.version == s.events[j].version ==> row == s.events[j])
            && (row.id in s.table && s.table[row.id].version == row.version ==> s.table[row.id] == row)
            && (row.id in s.table ==> row.version <= s.table[row.id].version)
  {
    hide Run, TxnsOk, LineOk, LinesOk, TableOk;
    RunKeepsInv(actions);
    var s := Run(actions);
    assert Recorded(s, s.events[i]) && Recorded(s, s.events[j]);
    if s.events[i].id in s.table { TableIsRecorded(s, s.events[i].id); }
  }

  /** The life cycle of an order, in every reachable table, lost updates included: stored rows
      are well formed, and identity columns are those of the insert for ever after. */
  lemma {:induction false} LifeCycle(actions: seq<Action>, later: seq<Action>, id: Id)
    requires id in Run(actions).table
    ensures var s, s' := Run(actions), Run(actions + later);
            && RowOk(s.table[id]) && Storable(s.table[id]) && s.table[id].id == id
            && (id in s'.table ==>
                  && SameIdentity(s'.table[id], s.table[id])
                  && s'.table[id].version >= s.table[id].version
                  && (s'.table[id].version == s.table[id].version ==> s'.table[id] == s.table[id]))
  {
    hide Run, TxnsOk, EventsOk, RowOk, Storable;
    RunKeepsInv(actions);
    RunKeepsInv(actions + later);
    RunExtends(actions, later);
    var s, s' := Run(actions), Run(actions + later);
    assert LineOk(id, s.history[id]);
    if id in s'.table { assert LineOk(id, s'.history[id]); }
  }
}
