/** Publishers that race: events may be published in another order than their changes were committed.
    A client that keeps the highest version it has seen of each order is current all the same. */
module OrderRaces {
  import opened Common
  import opened OrderForms
  import opened Orders
  import opened OrderVersions

  // ---- Every committed row is published ----

  /** The `k`-th row committed under an id was inserted, or written by a mutation that is still to publish
      it or has published it. */
  predicate AuthorOk(s: State, id: Id, k: nat) {
    && id in s.history && id in s.authors && k < |s.history[id]| && k < |s.authors[id]|
    && var row := s.history[id][k];
    match s.authors[id][k]
    case None => k == 0 && ((id in s.created && s.created[id] == row) || row in s.events)
    case Some(t) =>
      && k >= 1 && t in s.txns
      && match s.txns[t].stage
         case Committed(_, r) => r == row
         case Published(_, r) => r == row && row in s.events
         case _ => false
  }

  ghost predicate AuthorsOk(s: State) {
    forall id: Id, k: nat :: id in s.history && k < |s.history[id]| ==> AuthorOk(s, id, k)
  }

  predicate StageOnward(a: Stage, b: Stage, events: seq<Order>) {
    && (a.Committed? ==> b == a || (b == Published(a.base, a.row) && a.row in events))
    && (a.Published? ==> b == a)
  }

  /** Nothing that is to be published is forgotten. */
  ghost predicate Onward(s: State, s': State) {
    && s.events <= s'.events
    && (forall id :: id in s.created ==>
          (id in s'.created && s'.created[id] == s.created[id]) || s.created[id] in s'.events)
    && (forall t :: t in s.txns ==> t in s'.txns && StageOnward(s.txns[t].stage, s'.txns[t].stage, s'.events))
  }

  lemma StepOnward(s: State, a: Action)
    requires EventsOk(s)
    ensures Onward(s, Step(s, a))
  {
    hide AdvanceTxn, InsertRow, Storable, Normalized;
    match a
    case Advance(t) => if t in s.txns { AdvanceOnward(s, t); }
    case Insert(id, workspace, displayNo, form, user, now) =>
      if Step(s, a) != s {
        InsertOnward(s, NewOrder(id, workspace, displayNo, Normalized(form).value, user, now));
      }
    case Announce(id) =>
      if id in s.created { assert (s.events + [s.created[id]])[|s.events|] == s.created[id]; }
    case _ =>
  }

  lemma AdvanceOnward(s: State, t: Id)
    requires t in s.txns
    ensures Onward(s, AdvanceTxn(s, t))
  {
    hide Onward, DecideStage, ReadStage, CommitRow, Move, Precheck;
    var req := s.txns[t].req;
    match s.txns[t].stage
    case Started => MoveOnward(s, t, ReadStage(s, req));
    case Loaded(current) => if Precheck(req).None? { MoveOnward(s, t, DecideStage(req, current)); } else { NoMove(s); }
    case Ready(base, updated) => CommitOnward(s, t, base, updated);
    case Committed(base, row) => PublishOnward(s, t, base, row);
    case _ => NoMove(s);
  }

  lemma NoMove(s: State)
    ensures Onward(s, s)
  {
  }

  lemma MoveOnward(s: State, t: Id, stage: Stage)
    requires t in s.txns && !s.txns[t].stage.Committed? && !s.txns[t].stage.Published?
    ensures Onward(s, Move(s, t, stage))
  {
  }

  lemma CommitOnward(s: State, t: Id, base: Order, updated: Order)
    requires t in s.txns && s.txns[t].stage == Ready(base, updated)
    ensures Onward(s, CommitRow(s, t, base, updated))
  {
    hide Storable, RowMatches;
  }

  lemma PublishOnward(s: State, t: Id, base: Order, row: Order)
    requires t in s.txns && s.txns[t].stage == Committed(base, row)
    ensures Onward(s, Move(s, t, Published(base, row)).(events := s.events + [row]))
  {
    assert (s.events + [row])[|s.events|] == row;
  }

  lemma InsertOnward(s: State, row: Order)
    requires EventsOk(s) && row.id !in s.history
    ensures Onward(s, InsertRow(s, row))
  {
    hide Recorded;
    forall id | id in s.created ensures id != row.id { CreatedIsStored(s, id); }
  }

  lemma CreatedIsStored(s: State, id: Id)
    requires EventsOk(s) && id in s.created
    ensures id in s.history
  {
  }

  lemma AuthorStays(s: State, s': State, id: Id, k: nat)
    requires Extends(s, s') && Onward(s, s') && AuthorOk(s, id, k)
    ensures AuthorOk(s', id, k)
  {
    var row := s.history[id][k];
    assert row in s.events ==> row in s'.events;
  }

  /** A step adds at most one row, and its author is as it should be. */
  lemma NewAuthor(s: State, a: Action, id: Id, k: nat)
    requires Inv(s) && id in Step(s, a).history && k < |Step(s, a).history[id]|
    requires id in s.history ==> k >= |s.history[id]|
    ensures AuthorOk(Step(s, a), id, k)
  {
    hide AdvanceTxn, InsertRow, Storable, Normalized, LineOk, TxnsOk, EventsOk;
    match a
    case Advance(t) => if t in s.txns { AdvanceAuthor(s, t, id, k); }
    case Insert(i, workspace, displayNo, form, user, now) =>
      if Step(s, a) != s {
        InsertAuthor(s, NewOrder(i, workspace, displayNo, Normalized(form).value, user, now), id, k);
      }
    case _ =>
  }

  lemma AdvanceAuthor(s: State, t: Id, id: Id, k: nat)
    requires LinesOk(s) && TableOk(s) && t in s.txns
             && id in AdvanceTxn(s, t).history && k < |AdvanceTxn(s, t).history[id]|
    requires id in s.history ==> k >= |s.history[id]|
    ensures AuthorOk(AdvanceTxn(s, t), id, k)
  {
    hide Decide, Storable, Precheck, LineOk;
    var req := s.txns[t].req;
    if s.txns[t].stage.Ready? && RowMatches(s, req) { LineInfo(s, req.orderId); }
  }

  lemma InsertAuthor(s: State, row: Order, id: Id, k: nat)
    requires LinesOk(s) && row.id !in s.history
             && id in InsertRow(s, row).history && k < |InsertRow(s, row).history[id]|
    requires id in s.history ==> k >= |s.history[id]|
    ensures AuthorOk(InsertRow(s, row), id, k)
  {
    hide LineOk;
  }

  lemma StepKeepsAuthors(s: State, a: Action)
    requires Inv(s) && AuthorsOk(s)
    ensures AuthorsOk(Step(s, a))
  {
    hide Step, Inv, AuthorOk, Extends, Onward;
    var s' := Step(s, a);
    StepExtends(s, a);
    EventsOfInv(s);
    StepOnward(s, a);
    forall id: Id, k: nat | id in s'.history && k < |s'.history[id]| ensures AuthorOk(s', id, k) {
      if id in s.history && k < |s.history[id]| { AuthorStays(s, s', id, k); } else { NewAuthor(s, a, id, k); }
    }
  }

  lemma EventsOfInv(s: State)
    requires Inv(s)
    ensures EventsOk(s)
  {
    hide LinesOk, TableOk, TxnsOk, EventsOk;
  }

  lemma {:induction false} RunKeepsAuthors(actions: seq<Action>)
    ensures AuthorsOk(Run(actions))
  {
    hide Step, Inv, AuthorsOk;
    if actions == [] {
      NoAuthors();
    } else {
      var front := actions[..|actions| - 1];
      RunKeepsAuthors(front);
      RunKeepsInv(front);
      StepKeepsAuthors(Run(front), actions[|actions| - 1]);
    }
  }

  lemma NoAuthors()
    ensures AuthorsOk(INIT)
  {
  }

  /** Nothing committed is still to be published. */
  ghost predicate Quiet(s: State) {
    s.created == map[] && forall t :: t in s.txns ==> !s.txns[t].stage.Committed?
  }

  /** In every run that has come to rest, each row ever committed has been published, in whatever order. */
  lemma {:induction false} EveryRowIsPublished(actions: seq<Action>, id: Id, k: nat)
    requires Quiet(Run(actions)) && id in Run(actions).history && k < |Run(actions).history[id]|
    ensures Run(actions).history[id][k] in Run(actions).events
  {
    hide Run;
    RunKeepsAuthors(actions);
    assert AuthorOk(Run(actions), id, k);
  }

  // ---- A client that keeps the highest version ----

  type View = map<Id, Order>

  function Newer(view: View, o: Order, workspace: Id): View {
    if o.workspace != workspace || (o.id in view && view[o.id].version >= o.version) then view else view[o.id := o]
  }

  function KeepNewest(view: View, events: seq<Order>, workspace: Id): View {
    if events == [] then view
    else Newer(KeepNewest(view, events[..|events| - 1], workspace), events[|events| - 1], workspace)
  }

  /** Its row of an order is one it was given, and none it was given is newer. */
  lemma {:induction false} KeptIsNewest(view: View, events: seq<Order>, workspace: Id, id: Id)
    requires forall k :: k in view ==> view[k].id == k
    ensures var r := KeepNewest(view, events, workspace);
            && (id in view ==> id in r && r[id].version >= view[id].version)
            && (forall i :: 0 <= i < |events| && events[i].id == id && events[i].workspace == workspace ==>
                  id in r && r[id].version >= events[i].version)
            && (id in r ==> (id in view && r[id] == view[id]) || (r[id] in events && r[id].id == id))
  {
    if events != [] {
      var front, last := events[..|events| - 1], events[|events| - 1];
      KeptIsNewest(view, front, workspace, id);
      assert events == front + [last];
    }
  }

  /** The snapshot of a workspace. */
  function Snapshot(table: map<Id, Order>, workspace: Id): View {
    map id | id in table && table[id].workspace == workspace :: table[id]
  }

  lemma {:induction false} RunOnward(a: seq<Action>, b: seq<Action>)
    ensures Run(a).events <= Run(a + b).events
    decreases |b|
  {
    hide Step, Inv;
    if b == [] {
      assert a + b == a;
    } else {
      var front := b[..|b| - 1];
      RunOnward(a, front);
      assert (a + b)[..|a + b| - 1] == a + front;
      RunKeepsInv(a + front);
      EventsOfInv(Run(a + front));
      StepOnward(Run(a + front), b[|b| - 1]);
    }
  }

  /** A deleted order never comes back. */
  lemma {:induction false} DeletedStaysDeleted(a: seq<Action>, b: seq<Action>, id: Id)
    requires id in Run(a).history && id !in Run(a).table
    ensures id in Run(a + b).history && id !in Run(a + b).table
    decreases |b|
  {
    hide Step;
    if b == [] {
      assert a + b == a;
    } else {
      var front := b[..|b| - 1];
      DeletedStaysDeleted(a, front, id);
      assert (a + b)[..|a + b| - 1] == a + front;
      StepKeepsDeleted(Run(a + front), b[|b| - 1], id);
    }
  }

  lemma StepKeepsDeleted(s: State, a: Action, id: Id)
    requires id in s.history && id !in s.table
    ensures id in Step(s, a).history && id !in Step(s, a).table
  {
    hide Decide, Storable, Precheck, Normalized;
  }

  /** Racing publishers do no harm: take a client that subscribed at one point of a run and loaded a
      snapshot of its workspace at a later one. When the run has come to rest and the client has applied
      the upserts published since it subscribed, in the order of their publication, whatever that was,
      keeping the highest version of each order, it shows every order now stored as it is stored. */
  lemma {:induction false} RacingClientIsCurrent(actions: seq<Action>, subscribed: nat, loaded: nat,
                                                  workspace: Id, id: Id)
    requires subscribed <= loaded <= |actions| && Quiet(Run(actions))
    requires id in Run(actions).table && Run(actions).table[id].workspace == workspace
    ensures var snapshot := Snapshot(Run(actions[..loaded]).table, workspace);
            var missed := |Run(actions[..subscribed]).events|;
            && missed <= |Run(actions).events|
            && var view := KeepNewest(snapshot, Run(actions).events[missed..], workspace);
            && id in view && view[id] == Run(actions).table[id]
  {
    hide Run, Inv, Recorded, Snapshot, KeepNewest, Quiet;
    var s0, s1, s := Run(actions[..subscribed]), Run(actions[..loaded]), Run(actions);
    var snapshot := Snapshot(s1.table, workspace);
    assert actions[..subscribed] + actions[subscribed..] == actions;
    RunOnward(actions[..subscribed], actions[subscribed..]);
    var events := s.events[|s0.events|..];
    SnapshotRows(actions, loaded, workspace, id);
    LatestReaches(actions, subscribed, loaded, workspace, id);
    KeptIsNewest(snapshot, events, workspace, id);
    EventsAreRecorded(actions, id);
    CurrentIsNewest(actions, id);
  }

  lemma SnapshotRows(actions: seq<Action>, loaded: nat, workspace: Id, id: Id)
    requires loaded <= |actions|
    ensures var snapshot := Snapshot(Run(actions[..loaded]).table, workspace);
            && (forall k :: k in snapshot ==> snapshot[k].id == k)
            && (id in snapshot ==> Recorded(Run(actions), snapshot[id]))
  {
    hide Run, LineOk, TxnsOk, EventsOk, Recorded;
    var s1 := Run(actions[..loaded]);
    RunKeepsInv(actions[..loaded]);
    forall k | k in s1.table ensures s1.table[k].id == k { TableIsRecorded(s1, k); }
    if id in s1.table {
      TableIsRecorded(s1, id);
      assert actions[..loaded] + actions[loaded..] == actions;
      RunExtends(actions[..loaded], actions[loaded..]);
      RecordedStays(s1, Run(actions), s1.table[id]);
    }
  }

  lemma RecordedStays(s: State, s': State, row: Order)
    requires Extends(s, s') && Recorded(s, row)
    ensures Recorded(s', row)
  {
  }

  lemma EventsAreRecorded(actions: seq<Action>, id: Id)
    ensures forall i :: 0 <= i < |Run(actions).events| ==> Recorded(Run(actions), Run(actions).events[i])
  {
    hide Run, LinesOk, TableOk, TxnsOk, Recorded;
    RunKeepsInv(actions);
  }

  lemma CurrentIsNewest(actions: seq<Action>, id: Id)
    requires id in Run(actions).table
    ensures var s := Run(actions);
            && s.table[id].id == id && Recorded(s, s.table[id])
            && (forall row :: Recorded(s, row) && row.id == id ==> row.version <= s.table[id].version)
            && (forall row ::
                  Recorded(s, row) && row.id == id && row.version == s.table[id].version ==> row == s.table[id])
  {
    hide Run, LineOk, TxnsOk, EventsOk;
    RunKeepsInv(actions);
    TableIsRecorded(Run(actions), id);
  }

  /** The current row of an order is in the snapshot or among the events since the subscription. */
  lemma LatestReaches(actions: seq<Action>, subscribed: nat, loaded: nat, workspace: Id, id: Id)
    requires subscribed <= loaded <= |actions| && Quiet(Run(actions))
    requires id in Run(actions).table && Run(actions).table[id].workspace == workspace
    requires Run(actions[..subscribed]).events <= Run(actions).events
    ensures var s, row := Run(actions), Run(actions).table[id];
            var snapshot := Snapshot(Run(actions[..loaded]).table, workspace);
            || (id in snapshot && snapshot[id] == row)
            || row in s.events[|Run(actions[..subscribed]).events|..]
  {
    hide Run, Inv, Quiet, Recorded;
    var s0, s := Run(actions[..subscribed]), Run(actions);
    var row := s.table[id];
    CurrentIsPublished(actions, id);
    var i :| 0 <= i < |s.events| && s.events[i] == row;
    if i >= |s0.events| {
      assert s.events[|s0.events|..][i - |s0.events|] == row;
    } else {
      assert s0.events[i] == row;
      EventsAreRecorded(actions[..subscribed], id);
      PublishedBeforeIsLoaded(actions, subscribed, loaded, id);
    }
  }

  lemma CurrentIsPublished(actions: seq<Action>, id: Id)
    requires Quiet(Run(actions)) && id in Run(actions).table
    ensures Run(actions).table[id] in Run(actions).events
  {
    hide Run, LineOk, TxnsOk, EventsOk, Quiet;
    RunKeepsInv(actions);
    TableIsRecorded(Run(actions), id);
    EveryRowIsPublished(actions, id, |Run(actions).history[id]| - 1);
  }

  lemma PublishedBeforeIsLoaded(actions: seq<Action>, subscribed: nat, loaded: nat, id: Id)
    requires subscribed <= loaded <= |actions| && id in Run(actions).table
    requires Recorded(Run(actions[..subscribed]), Run(actions).table[id])
    ensures id in Run(actions[..loaded]).table && Run(actions[..loaded]).table[id] == Run(actions).table[id]
  {
    hide Run, LineOk, TxnsOk, EventsOk, Recorded;
    var s0, s1, s := Run(actions[..subscribed]), Run(actions[..loaded]), Run(actions);
    assert actions[..subscribed] + actions[subscribed..loaded] == actions[..loaded];
    assert actions[..loaded] + actions[loaded..] == actions;
    RunExtends(actions[..subscribed], actions[subscribed..loaded]);
    RunExtends(actions[..loaded], actions[loaded..]);
    CurrentIsNewest(actions, id);
    RecordedStays(s0, s1, s.table[id]);
    RecordedIsKnown(s1, s.table[id]);
    if id !in s1.table { DeletedStaysDeleted(actions[..loaded], actions[loaded..], id); }
    RunKeepsInv(actions[..loaded]);
    CurrentIsNewest(actions[..loaded], id);
    RecordedStays(s1, s, s1.table[id]);
  }

  lemma RecordedIsKnown(s: State, row: Order)
    requires Recorded(s, row)
    ensures row.id in s.history
  {
  }

  // ---- Deleted orders ----

  /** Orders that are no longer stored are another matter: when an order is deleted between the commit and
      the publication of a change, its upsert is published after it is gone. */
  lemma UpsertCanFollowDeletion(s: State, t: Id, workspace: Id)
    requires TxnsOk(s) && t in s.txns && s.txns[t].stage.Committed?
    requires s.txns[t].req.orderId in s.table && s.table[s.txns[t].req.orderId].workspace == workspace
    ensures var id, row := s.txns[t].req.orderId, s.txns[t].stage.row;
            var s' := Step(Step(s, Delete(workspace, id)), Advance(t));
            row.id == id && id !in s'.table && s'.events == s.events + [row]
  {
    hide Decide, Precheck, Storable, Normalized;
    assert StageOk(s, t, s.txns[t].req, s.txns[t].stage);
  }
}
