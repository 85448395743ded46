/** What the delivery protocol can still do from a state: the overflow of a connection ends it, a
    publisher's turn refines the broker's method, and every registered connection can be caught up. */
module DeliveryProgress {
  import opened Common
  import opened Events
  import opened Channels
  import opened Delivery

  // ---- Runs from a state ----

  function Steps(s: State, actions: seq<Action>): State
    decreases |actions|
  {
    if actions == [] then s else Steps(Step(s, actions[0]), actions[1..])
  }

  lemma NoSteps(s: State)
    ensures Steps(s, []) == s
  {
  }

  lemma {:induction false} StepsAppend(s: State, a: seq<Action>, b: seq<Action>)
    ensures Steps(s, a + b) == Steps(Steps(s, a), b)
    decreases |a|
  {
    hide Step;
    if a == [] {
      assert a + b == b;
    } else {
      assert (a + b)[1..] == a[1..] + b;
      StepsAppend(Step(s, a[0]), a[1..], b);
    }
  }

  lemma {:induction false} RunIsSteps(a: seq<Action>, b: seq<Action>)
    ensures Run(a + b) == Steps(Run(a), b)
    decreases |b|
  {
    hide Step;
    if b == [] {
      assert a + b == a;
    } else {
      var front, last := b[..|b| - 1], b[|b| - 1];
      assert (a + b)[..|a + b| - 1] == a + front && b == front + [last];
      RunIsSteps(a, front);
      StepsAppend(Run(a), front, [last]);
      OneStep(Steps(Run(a), front), last);
    }
  }

  lemma OneStep(s: State, a: Action)
    ensures Steps(s, [a]) == Step(s, a)
  {
    hide Step;
    assert Steps(Step(s, a), [a][1..]) == Step(s, a);
  }

  lemma {:induction false} StepsKeepInv(s: State, a: seq<Action>)
    requires Inv(s)
    ensures Inv(Steps(s, a))
    decreases |a|
  {
    hide Step, Inv;
    if a != [] {
      StepKeepsInv(s, a[0]);
      StepsKeepInv(Step(s, a[0]), a[1..]);
    }
  }

  // ---- Overflow ends the connection ----

  /** A write loop can take the step it picked: waiting for a message needs one, or a closed channel,
      and waiting for the overflow signal needs the signal. */
  predicate Enabled(c: Connection, pick: Pick) {
    c.loop.Waiting? ==>
      (pick.Message? ==> c.chan.queue != [] || c.chan.closed) && (pick.Overflow? ==> c.chan.overflow)
  }

  /** How many steps of its own `id` can take along a run. */
  function OwnSteps(s: State, later: seq<Action>, id: Id): nat {
    if later == [] then 0
    else
      var front, a := later[..|later| - 1], later[|later| - 1];
      var now := Steps(s, front);
      OwnSteps(s, front, id)
      + (if a.RunLoop? && a.id == id && id in now.connections && Enabled(now.connections[id], a.pick) then 1 else 0)
  }

  /** The steps a signalled write loop still takes at most. */
  function StepsLeft(l: Loop): nat {
    match l
    case AtTop => 1
    case Waiting => 3
    case Sending(outgoing) => if outgoing == [] then 2 else 1
    case Writing(_) => 3
    case Ended => 0
  }

  lemma LoopRunsOut(c: Connection, pick: Pick)
    requires c.chan.overflow && Enabled(c, pick)
    ensures LoopStep(c, pick).chan.overflow
    ensures if c.loop.Ended? then LoopStep(c, pick).loop.Ended?
            else StepsLeft(LoopStep(c, pick).loop) < StepsLeft(c.loop)
  {
  }

  lemma LoopStaysOver(c: Connection, pick: Pick)
    requires c.chan.overflow && !Enabled(c, pick)
    ensures LoopStep(c, pick) == c
  {
  }

  /** An overflow ends the connection: whatever else happens meanwhile, three steps of its own loop after
      the signal, and it has ended. */
  lemma {:induction false} OverflowEndsConnection(actions: seq<Action>, later: seq<Action>, id: Id)
    requires id in Run(actions).connections && Run(actions).connections[id].chan.overflow
    ensures Run(actions + later) == Steps(Run(actions), later) && id in Run(actions + later).connections
    ensures var c := Run(actions + later).connections[id];
            && c.chan.overflow
            && (c.loop.Ended? || StepsLeft(c.loop) + OwnSteps(Run(actions), later, id) <= 3)
            && (OwnSteps(Run(actions), later, id) >= 3 ==> c.loop.Ended?)
    decreases |later|
  {
    hide Step, Run, Steps, LoopStep, Enabled;
    RunIsSteps(actions, later);
    if later == [] {
      NoSteps(Run(actions));
    } else {
      var front, a := later[..|later| - 1], later[|later| - 1];
      OverflowEndsConnection(actions, front, id);
      assert later == front + [a];
      StepsAppend(Run(actions), front, [a]);
      var s := Steps(Run(actions), front);
      OneStep(s, a);
      if a.RunLoop? && a.id == id {
        OwnStep(s, a);
        if Enabled(s.connections[id], a.pick) { LoopRunsOut(s.connections[id], a.pick); }
        else { LoopStaysOver(s.connections[id], a.pick); }
      } else {
        OthersKeepLoop(s, a, id);
      }
    }
  }

  /** Once it is signalled, a write loop that does not end at once took a message off the queue, is done with
      one, or is in the middle of a write; nothing else is written, and no heartbeat either. */
  lemma OnlyMessagesPostpone(c: Connection, pick: Pick)
    requires c.chan.overflow && Enabled(c, pick) && !LoopStep(c, pick).loop.Ended?
    ensures || (c.loop.Waiting? && pick.Message? && c.chan.queue != [] && LoopStep(c, pick).written == c.written)
            || (c.loop.Sending? && c.loop.outgoing == [] && LoopStep(c, pick).written == c.written)
            || c.loop.Writing?
  {
  }

  // ---- A closed channel is read to its end ----

  /** What a connection has been written, and what it is still to be written if nothing goes wrong. */
  function Owed(c: Connection): seq<Event> {
    Opened(c.written) + Opened(Pending(c.loop)) + Opened(c.chan.queue)
  }

  function Rank(l: Loop): nat {
    match l
    case AtTop => 1
    case Sending(outgoing) => 2 * |outgoing| + 2
    case Writing(outgoing) => 2 * |outgoing| + 1
    case _ => 0
  }

  lemma ReadingOn(c: Connection)
    requires !c.chan.overflow && !c.loop.Ended? && !(c.loop.Waiting? && c.chan.queue == [])
    requires c.loop.Writing? ==> c.loop.outgoing != []
    ensures var c' := LoopStep(c, Message);
            && !c'.loop.Ended? && (c'.loop.Writing? ==> c'.loop.outgoing != [])
            && c'.chan == c.chan.(queue := c'.chan.queue) && c'.taken + c'.chan.queue == c.taken + c.chan.queue
            && (|c'.chan.queue| < |c.chan.queue|
                || (|c'.chan.queue| == |c.chan.queue| && Rank(c'.loop) < Rank(c.loop)))
            && Owed(c') == Owed(c)
  {
    hide Opened, Outgoing, Owed;
    match c.loop
    case Waiting => TakingKeepsOwed(c);
    case Writing(_) => WritingKeepsOwed(c);
    case _ => IdlingKeepsOwed(c);
  }

  lemma TakingKeepsOwed(c: Connection)
    requires c.loop.Waiting? && c.chan.queue != []
    ensures Owed(LoopStep(c, Message)) == Owed(c)
  {
    hide Opened, Outgoing;
    OpenedNothing();
    var m, rest := c.chan.queue[0], c.chan.queue[1..];
    OutgoingOpens(c.batches, m);
    assert c.chan.queue == [m] + rest;
    OpenedAppend([m], rest);
  }

  lemma WritingKeepsOwed(c: Connection)
    requires c.loop.Writing? && c.loop.outgoing != []
    ensures Owed(LoopStep(c, Message)) == Owed(c)
  {
    hide Opened;
    var o := c.loop.outgoing;
    assert o == [o[0]] + o[1..];
    OpenedAppend([o[0]], o[1..]);
    OpenedAppend(c.written, [o[0]]);
  }

  lemma IdlingKeepsOwed(c: Connection)
    requires (c.loop.AtTop? || c.loop.Sending?) && !c.chan.overflow
    ensures Owed(LoopStep(c, Message)) == Owed(c)
  {
    hide Opened;
    OpenedNothing();
  }

  /** A connection whose channel is closed without overflow, as by a cancel, is still written everything
      that was queued if its writes succeed, and then its loop ends. */
  lemma {:induction false} ClosedLoopEnds(s: State, id: Id) returns (more: seq<Action>)
    requires id in s.connections && s.connections[id].chan.closed && !s.connections[id].chan.overflow
    requires !s.connections[id].loop.Ended?
    requires s.connections[id].loop.Writing? ==> s.connections[id].loop.outgoing != []
    ensures forall a :: a in more ==> a == RunLoop(id, Message)
    ensures id in Steps(s, more).connections
    ensures var c, c' := s.connections[id], Steps(s, more).connections[id];
            && c'.loop.Ended? && c'.chan.queue == [] && c'.taken == c.taken + c.chan.queue
            && Opened(c'.written) == Owed(c)
    decreases |s.connections[id].chan.queue|, Rank(s.connections[id].loop)
  {
    hide LoopStep, Owed;
    var c, a := s.connections[id], RunLoop(id, Message);
    var s' := Put(s, id, LoopStep(c, Message));
    assert Step(s, a) == s';
    if c.loop.Waiting? && c.chan.queue == [] {
      LastRead(c);
      more := [a];
      OneStep(s, a);
    } else {
      ReadingOn(c);
      var rest := ClosedLoopEnds(s', id);
      more := [a] + rest;
      OneStep(s, a);
      StepsAppend(s, [a], rest);
    }
  }

  lemma LastRead(c: Connection)
    requires c.chan.closed && c.loop.Waiting? && c.chan.queue == []
    ensures LoopStep(c, Message) == c.(loop := Ended) && Opened(c.written) == Owed(c)
  {
    OpenedNothing();
  }

  /** So it is in every run: what such a connection took and had queued is what it ends up being written. */
  lemma CancelledLoopEnds(actions: seq<Action>, id: Id) returns (more: seq<Action>)
    requires id in Run(actions).connections
    requires var c := Run(actions).connections[id]; c.chan.closed && !c.chan.overflow && !c.loop.Ended?
    ensures forall a :: a in more ==> a == RunLoop(id, Message)
    ensures id in Run(actions + more).connections
    ensures var c, c' := Run(actions).connections[id], Run(actions + more).connections[id];
            c'.loop.Ended? && c'.chan.queue == [] && Opened(c'.written) == Opened(c.taken + c.chan.queue)
  {
    hide Run, Steps, ChannelOk, StreamOk, Opened;
    RunKeepsInv(actions);
    assert ConnectionOk(Run(actions), id);
    var c := Run(actions).connections[id];
    OpenedAppend(c.taken, c.chan.queue);
    more := ClosedLoopEnds(Run(actions), id);
    RunIsSteps(actions, more);
  }

  // ---- The publisher alone ----

  function Drops(n: nat): seq<Action> { seq(n, _ => Drop) }

  /** One subscriber's turn in the publishing loop when nothing interferes. */
  function Turn(id: Id, chan: Subscription): seq<Action> {
    [Offer(id)] + (if |chan.queue| < BUFFER_SIZE then [] else Drops(|chan.queue| + 4))
  }

  lemma DropOnce(s: State, n: nat)
    requires n > 0
    ensures Steps(s, Drops(n)) == Steps(Step(s, Drop), Drops(n - 1))
  {
    assert Drops(n)[1..] == Drops(n - 1);
  }

  /** The state in which the overflow path leaves a drained subscriber. */
  function Dropped(s: State): State
    requires s.lock.Dropping? && s.lock.slow in s.connections && s.lock.workspace in s.registry
  {
    var lock, c := s.lock, s.connections[s.lock.slow];
    Put(s, lock.slow, c.(chan := Subscription([], true, true))).(
      registry := Without(s.registry, lock.workspace, lock.slow, false),
      lock := Publishing(lock.workspace, lock.message, lock.todo - {lock.slow}))
  }

  lemma {:induction false} DrainAlone(s: State)
    requires s.lock.Dropping? && s.lock.phase.Discard? && s.lock.slow in s.connections && s.lock.workspace in s.registry
    requires var chan := s.connections[s.lock.slow].chan; chan.overflow && !chan.closed
    ensures Steps(s, Drops(|s.connections[s.lock.slow].chan.queue| + 3)) == Dropped(s)
    decreases |s.connections[s.lock.slow].chan.queue|
  {
    hide Steps, Drops;
    var id := s.lock.slow;
    var n := |s.connections[id].chan.queue|;
    DropOnce(s, n + 3);
    var s1 := Step(s, Drop);
    if n > 0 {
      DrainAlone(s1);
      assert Dropped(s1) == Dropped(s);
    } else {
      DropOnce(s1, 2);
      DropOnce(Step(s1, Drop), 1);
      NoDrops(Step(Step(s1, Drop), Drop));
      assert Step(Step(s1, Drop), Drop) == Dropped(s);
    }
  }

  lemma NoDrops(s: State)
    ensures Steps(s, Drops(0)) == s
  {
  }

  /** The fine-grained steps refine the broker's Publish: run without interference, a
      subscriber's turn buffers the message or closes the subscription exactly as `Offered`
      says, keeps it registered exactly when it stays open, and touches nobody else. */
  lemma {:induction false} TurnRefinesOffer(s: State, id: Id)
    requires Inv(s) && s.lock.Publishing? && id in s.lock.todo && id in s.connections
    ensures var c, m := s.connections[id], s.lock.message;
            var s' := Steps(s, Turn(id, c.chan));
            && s'.connections == s.connections[id := c.(chan := Offered(c.chan, m))]
            && s'.lock == Publishing(s.lock.workspace, m, s.lock.todo - {id})
            && (forall k :: k in Members(s', s.lock.workspace) <==>
                  k in Members(s, s.lock.workspace) && (k != id || !Offered(c.chan, m).closed))
            && (forall v :: v != s.lock.workspace ==>
                  (v in s'.registry <==> v in s.registry) && Members(s', v) == Members(s, v))
            && s'.log == s.log && s'.panicked == s.panicked
  {
    hide Steps, Step, RegistryOk, ConnectionOk, Inv, Drops;
    var c := s.connections[id];
    DueIsOpen(s, id);
    TurnUnfolds(s, id);
    if |c.chan.queue| >= BUFFER_SIZE {
      var s1 := OfferTo(s, id);
      DropOnce(s1, |c.chan.queue| + 4);
      SignalStep(s1);
      DrainAlone(DropStep(s1));
    }
  }

  lemma DueIsOpen(s: State, id: Id)
    requires Inv(s) && s.lock.Publishing? && id in s.lock.todo && id in s.connections
    ensures var c := s.connections[id];
            !c.chan.closed && !c.chan.overflow && s.lock.workspace in s.registry && c.workspace == s.lock.workspace
  {
    hide StreamOk, WrittenOk;
    assert ConnectionOk(s, id) && RoleOf(s, id) == Due;
  }

  lemma TurnUnfolds(s: State, id: Id)
    requires s.lock.Publishing? && id in s.lock.todo && id in s.connections
    ensures var chan := s.connections[id].chan;
            Steps(s, Turn(id, chan)) ==
            if |chan.queue| < BUFFER_SIZE then OfferTo(s, id) else Steps(OfferTo(s, id), Drops(|chan.queue| + 4))
  {
    hide OfferTo, Drops;
    var chan := s.connections[id].chan;
    var rest := if |chan.queue| < BUFFER_SIZE then [] else Drops(|chan.queue| + 4);
    assert Turn(id, chan)[1..] == rest;
    assert Steps(s, Turn(id, chan)) == Steps(OfferTo(s, id), rest);
  }

  lemma SignalStep(s: State)
    requires s.lock.Dropping? && s.lock.slow in s.connections
    ensures Step(s, Drop) == DropStep(s)
  {
  }

  // ---- A whole publication ----

  /** The turns of the subscribers in some order. */
  function Turns(s: State, order: seq<Id>): seq<Action>
    requires forall x :: x in order ==> x in s.connections
    decreases |order|
  {
    if order == [] then [] else Turn(order[0], s.connections[order[0]].chan) + Turns(s, order[1..])
  }

  ghost predicate Enumerates(order: seq<Id>, members: set<Id>) {
    && (forall x :: x in order <==> x in members)
    && (forall i, j :: 0 <= i < j < |order| ==> order[i] != order[j])
  }

  lemma {:induction false} TurnsDependOnChannels(s: State, s': State, order: seq<Id>)
    requires forall x :: x in order ==>
               x in s.connections && x in s'.connections && s'.connections[x].chan == s.connections[x].chan
    ensures Turns(s', order) == Turns(s, order)
    decreases |order|
  {
    if order != [] { TurnsDependOnChannels(s, s', order[1..]); }
  }

  lemma EnumeratesTail(order: seq<Id>, members: set<Id>)
    requires Enumerates(order, members) && order != []
    ensures Enumerates(order[1..], members - {order[0]}) && order[0] in members
  {
    HasHead(order);
    forall x ensures x in order[1..] <==> x in members - {order[0]} {
      if x in order[1..] { assert x in order; }
    }
  }

  function AfterTurn(c: Connection, m: Event, served: bool): Connection {
    if served then c.(chan := Offered(c.chan, m)) else c
  }

  /** What a publication does to the subscriptions and the registry, given the subscribers it serves. */
  ghost predicate Served(s: State, s': State, w: Id, m: Event, todo: set<Id>) {
    && s'.connections.Keys == s.connections.Keys && todo <= s.connections.Keys
    && (forall x :: x in s.connections ==> s'.connections[x] == AfterTurn(s.connections[x], m, x in todo))
    && (forall x :: x in Members(s', w) <==>
          x in Members(s, w) && (x !in todo || (x in s.connections && !Offered(s.connections[x].chan, m).closed)))
    && (forall v :: v != w ==> (v in s'.registry <==> v in s.registry) && Members(s', v) == Members(s, v))
  }

  /** Taken one after another in any order, undisturbed, the turns serve every subscriber. */
  lemma {:induction false} TurnsRefine(s: State, order: seq<Id>)
    requires Inv(s) && s.lock.Publishing? && Enumerates(order, s.lock.todo)
    requires forall x :: x in order ==> x in s.connections
    ensures var s', w, m := Steps(s, Turns(s, order)), s.lock.workspace, s.lock.message;
            && Inv(s') && Served(s, s', w, m, s.lock.todo)
            && s'.lock == Publishing(w, m, {}) && s'.log == s.log
    decreases |order|
  {
    hide Steps, Step, Inv, Turn, Served, Enumerates;
    var w, m := s.lock.workspace, s.lock.message;
    if order == [] {
      NoSteps(s);
      NobodyServed(s, order);
    } else {
      var x, rest := order[0], order[1..];
      EnumeratesTail(order, s.lock.todo);
      var turn := Turn(x, s.connections[x].chan);
      var s1 := Steps(s, turn);
      DueIsOpen(s, x);
      TurnRefinesOffer(s, x);
      TurnKeepsOthers(s, x);
      StepsKeepInv(s, turn);
      RestIsOther(order, s.lock.todo);
      TurnsDependOnChannels(s, s1, rest);
      StepsAppend(s, turn, Turns(s, rest));
      TurnsRefine(s1, rest);
      ServedOneMore(s, s1, Steps(s1, Turns(s1, rest)), w, m, x, s.lock.todo);
    }
  }

  lemma RestIsOther(order: seq<Id>, members: set<Id>)
    requires Enumerates(order, members) && order != []
    ensures forall x :: x in order[1..] ==> x != order[0] && x in order
  {
  }

  lemma NobodyServed(s: State, order: seq<Id>)
    requires s.lock.Publishing? && order == [] && Enumerates(order, s.lock.todo)
    ensures s.lock.todo == {} && Served(s, s, s.lock.workspace, s.lock.message, s.lock.todo)
  {
  }

  lemma ServedOneMore(s: State, s1: State, s': State, w: Id, m: Event, x: Id, todo: set<Id>)
    requires x in todo && x in s.connections && x in Members(s, w)
    requires Served(s, s1, w, m, {x}) && Served(s1, s', w, m, todo - {x})
    ensures Served(s, s', w, m, todo)
  {
    hide Members, Offered;
  }

  /** A turn leaves the registry of other workspaces alone. */
  lemma TurnKeepsOthers(s: State, x: Id)
    requires Inv(s) && s.lock.Publishing? && x in s.lock.todo && x in s.connections
    ensures var s' := Steps(s, Turn(x, s.connections[x].chan));
            Served(s, s', s.lock.workspace, s.lock.message, {x}) && x in Members(s, s.lock.workspace)
  {
    hide Steps, Step, Inv, Turn;
    TurnRefinesOffer(s, x);
    DueIsMember(s, x);
  }

  lemma DueIsMember(s: State, x: Id)
    requires Inv(s) && s.lock.Publishing? && x in s.lock.todo
    ensures x in Members(s, s.lock.workspace)
  {
    hide ConnectionsOk;
  }

  /** An undisturbed publication: announce, every subscriber's turn, finish. */
  function PublishActions(s: State, w: Id, m: Event, order: seq<Id>): seq<Action>
    requires forall x :: x in order ==> x in s.connections
  {
    [Publish(w, m)] + Turns(s, order) + [Finish]
  }

  /** An undisturbed publication does what the broker's method promises, in whatever order it visits the
      subscribers: each of them buffers the message or, being full, is signalled, drained, closed and
      dropped; exactly the open ones stay registered; a workspace left without any is forgotten; and
      nobody else is touched. */
  lemma PublishRefines(s: State, w: Id, m: Event, order: seq<Id>)
    requires Inv(s) && s.lock.Free? && Enumerates(order, Members(s, w))
    ensures forall x :: x in order ==> x in s.connections
    ensures var s' := Steps(s, PublishActions(s, w, m, order));
            && s'.lock.Free? && !s'.panicked && s'.log == s.log[w := Log(s, w) + [m]]
            && s'.connections.Keys == s.connections.Keys
            && (forall x :: x in s.connections ==>
                  s'.connections[x] == AfterTurn(s.connections[x], m, x in Members(s, w)))
            && (forall x :: x in Members(s', w) <==>
                  x in Members(s, w) && x in s.connections && !Offered(s.connections[x].chan, m).closed)
            && (w in s'.registry ==> Members(s', w) != {})
            && (forall v :: v != w ==> (v in s'.registry <==> v in s.registry) && Members(s', v) == Members(s, v))
  {
    hide Steps, Inv, Turns, Offered;
    MembersConnected(s, w);
    var p := Publish(w, m);
    var s1 := Step(s, p);
    OneStep(s, p);
    StepKeepsInv(s, p);
    TurnsDependOnChannels(s, s1, order);
    TurnsRefine(s1, order);
    var s2 := Steps(s1, Turns(s, order));
    OneStep(s2, Finish);
    StepKeepsInv(s2, Finish);
    StepsAppend(s, [p], Turns(s, order));
    StepsAppend(s, [p] + Turns(s, order), [Finish]);
    NoPanic(Step(s2, Finish));
  }

  /** Outside a publication, subscribing adds one fresh open subscription, to which everything published
      from then on is due. */
  lemma SubscribeRefines(s: State, id: Id, w: Id, batches: bool)
    requires s.lock.Free? && id !in s.connections
    ensures var s' := Step(s, Subscribe(id, w, batches));
            && s'.lock.Free? && s'.log == s.log && s'.panicked == s.panicked
            && s'.connections.Keys == s.connections.Keys + {id}
            && (forall k :: k in s.connections ==> s'.connections[k] == s.connections[k])
            && (var c := s'.connections[id];
                && c.workspace == w && c.batches == batches && !c.cancelled
                && c.chan == FRESH && c.written == [] && c.taken == [] && !c.loop.Ended? && Stream(s', c) == [])
            && Members(s', w) == Members(s, w) + {id}
            && (forall v :: v != w ==> (v in s'.registry <==> v in s.registry) && Members(s', v) == Members(s, v))
  {
  }

  /** The subscription is cancelled, unregistered, and its channel closed, with what is queued still to be
      read; nobody else is touched, and a workspace left without subscribers is forgotten. */
  ghost predicate LeftBy(s: State, s': State, id: Id)
    requires id in s.connections
  {
    var c := s.connections[id];
    && s'.lock.Free? && !s'.panicked && s'.log == s.log
    && s'.connections == s.connections[id := c.(cancelled := true, chan := c.chan.(closed := true))]
    && Members(s', c.workspace) == Members(s, c.workspace) - {id}
    && (c.workspace in s'.registry ==> Members(s', c.workspace) != {})
    && (forall v :: v != c.workspace ==>
          (v in s'.registry <==> v in s.registry) && Members(s', v) == Members(s, v))
  }

  /** Outside a publication, cancelling does what the broker's method promises, whether the subscription
      was registered, had overflowed, or had been cancelled before. */
  lemma CancelRefines(s: State, id: Id)
    requires Inv(s) && s.lock.Free? && id in s.connections && CancelledIsOut(s, id)
    ensures LeftBy(s, Step(s, Cancel(id)), id)
  {
    hide LeftBy, CancelOf;
    ChannelAtRest(s, id);
    if Registered(s, id) {
      assert Step(s, Cancel(id)) == CancelOf(s, id);
      RegisteredLeaves(s, id);
    } else {
      OtherLeaves(s, id);
    }
  }

  lemma ChannelAtRest(s: State, id: Id)
    requires Inv(s) && s.lock.Free? && id in s.connections
    ensures !s.panicked && (Registered(s, id) <==> !s.connections[id].chan.closed)
    ensures forall w :: w in s.registry ==> s.registry[w] != {}
  {
    hide WrittenOk, StreamOk;
    assert ConnectionOk(s, id);
  }

  lemma RegisteredLeaves(s: State, id: Id)
    requires s.lock.Free? && !s.panicked && id in s.connections && Registered(s, id)
    requires !s.connections[id].chan.closed && forall w :: w in s.registry ==> s.registry[w] != {}
    ensures LeftBy(s, CancelOf(s, id), id)
  {
  }

  lemma OtherLeaves(s: State, id: Id)
    requires s.lock.Free? && !s.panicked && id in s.connections && !Registered(s, id)
    requires s.connections[id].chan.closed && forall w :: w in s.registry ==> s.registry[w] != {}
    ensures LeftBy(s, Step(s, Cancel(id)), id)
  {
    assert s.connections[id := s.connections[id]] == s.connections;
  }

  /** A cancelled subscription is not registered. */
  predicate CancelledIsOut(s: State, id: Id) {
    id in s.connections && s.connections[id].cancelled ==> !Registered(s, id)
  }

  lemma {:induction false} CancelledStaysOut(actions: seq<Action>, id: Id)
    ensures CancelledIsOut(Run(actions), id)
  {
    hide Step, Inv, CancelledIsOut;
    if actions == [] {
      NobodyCancelled(id);
    } else {
      var front := actions[..|actions| - 1];
      RunKeepsInv(front);
      CancelledStaysOut(front, id);
      StepKeepsOut(Run(front), actions[|actions| - 1], id);
    }
  }

  lemma NobodyCancelled(id: Id)
    ensures CancelledIsOut(INIT, id)
  {
  }

  lemma StepKeepsOut(s: State, a: Action, id: Id)
    requires Inv(s) && CancelledIsOut(s, id)
    ensures CancelledIsOut(Step(s, a), id)
  {
    hide ConnectionsOk, LoopStep;
    match a
    case RunLoop(k, pick) => if k in s.connections { LoopKeepsSignal(s.connections[k], pick); }
    case _ =>
  }

  lemma NoPanic(s: State)
    requires Inv(s)
    ensures !s.panicked
  {
  }

  lemma MembersConnected(s: State, w: Id)
    requires Inv(s)
    ensures forall x :: x in Members(s, w) ==> x in s.connections
  {
    hide ConnectionsOk;
  }

  lemma {:induction false} Enumerated(members: set<Id>) returns (order: seq<Id>)
    ensures Enumerates(order, members)
    decreases members
  {
    if members == {} {
      order := [];
    } else {
      var x :| x in members;
      var rest := Enumerated(members - {x});
      order := [x] + rest;
    }
  }

  // ---- Everything can arrive ----

  /** A write loop that is not disturbed writes what it has received. */
  lemma {:induction false} WriteOut(s: State, id: Id) returns (more: seq<Action>)
    requires id in s.connections && s.connections[id].loop.Sending? && !s.connections[id].chan.overflow
    ensures var c := s.connections[id];
            Steps(s, more) == Put(s, id, c.(loop := AtTop, written := c.written + c.loop.outgoing))
    decreases |s.connections[id].loop.outgoing|
  {
    hide Steps;
    var c, next := s.connections[id], RunLoop(id, Tick);
    OneStep(s, next);
    if c.loop.outgoing == [] {
      more := [next];
      assert c.written + [] == c.written;
    } else {
      var s1 := Step(s, next);
      var s2 := Step(s1, next);
      OneStep(s1, next);
      StepsAppend(s, [next], [next]);
      var rest := WriteOut(s2, id);
      more := [next] + [next] + rest;
      StepsAppend(s, [next] + [next], rest);
      assert c.written + [c.loop.outgoing[0]] + c.loop.outgoing[1..] == c.written + c.loop.outgoing;
    }
  }

  /** An open connection whose loop runs and that no publisher is busy with. */
  predicate Live(s: State, id: Id) {
    s.lock.Free? && id in s.connections && Registered(s, id) && !s.connections[id].loop.Ended?
  }

  lemma LiveIsOpen(s: State, id: Id)
    requires Inv(s) && Live(s, id)
    ensures var c := s.connections[id];
            !c.chan.overflow && !c.chan.closed && (c.loop.Writing? ==> c.loop.outgoing != [])
            && c.workspace in s.registry
  {
    hide StreamOk;
    assert ConnectionOk(s, id) && RoleOf(s, id) == Idle;
  }

  lemma PutTwice(s: State, id: Id, c: Connection, c': Connection)
    ensures Put(Put(s, id, c), id, c') == Put(s, id, c')
  {
    assert s.connections[id := c][id := c'] == s.connections[id := c'];
  }

  /** An undisturbed write loop gets back to its top. */
  lemma ToTop(s: State, id: Id) returns (more: seq<Action>, c': Connection)
    requires id in s.connections && !s.connections[id].chan.overflow && !s.connections[id].loop.Ended?
    requires s.connections[id].loop.Writing? ==> s.connections[id].loop.outgoing != []
    ensures Steps(s, more) == Put(s, id, c')
    ensures c' == s.connections[id].(loop := AtTop, written := c'.written)
  {
    hide Steps;
    var c, next := s.connections[id], RunLoop(id, Tick);
    OneStep(s, next);
    match c.loop
    case AtTop =>
      more, c' := [], c;
      NoSteps(s);
      assert s.connections[id := c] == s.connections;
    case Waiting =>
      more, c' := [next], c.(loop := AtTop);
    case Sending(outgoing) =>
      more := WriteOut(s, id);
      c' := c.(loop := AtTop, written := c.written + outgoing);
    case Writing(outgoing) =>
      var s1 := Step(s, next);
      var rest := WriteOut(s1, id);
      more := [next] + rest;
      StepsAppend(s, [next], rest);
      c' := c.(loop := AtTop, written := c.written + [outgoing[0]] + outgoing[1..]);
      PutTwice(s, id, s1.connections[id], c');
  }

  /** It receives and writes one buffered message. */
  lemma TakeOne(s: State, id: Id) returns (more: seq<Action>, c': Connection)
    requires id in s.connections && s.connections[id].loop.AtTop? && !s.connections[id].chan.overflow
    requires s.connections[id].chan.queue != []
    ensures Steps(s, more) == Put(s, id, c')
    ensures var c := s.connections[id];
            c' == c.(loop := AtTop, chan := c.chan.(queue := c.chan.queue[1..]),
                     taken := c'.taken, written := c'.written)
  {
    hide Steps, Outgoing;
    var a, b := RunLoop(id, Tick), RunLoop(id, Message);
    var s1 := Step(s, a);
    var s2 := Step(s1, b);
    OneStep(s, a);
    OneStep(s1, b);
    StepsAppend(s, [a], [b]);
    PutTwice(s, id, s1.connections[id], s2.connections[id]);
    var rest := WriteOut(s2, id);
    more := [a] + [b] + rest;
    StepsAppend(s, [a] + [b], rest);
    var c := s2.connections[id];
    c' := c.(loop := AtTop, written := c.written + c.loop.outgoing);
    PutTwice(s, id, c, c');
  }

  /** It empties its queue. */
  lemma {:induction false} EmptyQueue(s: State, id: Id) returns (more: seq<Action>, c': Connection)
    requires id in s.connections && s.connections[id].loop.AtTop? && !s.connections[id].chan.overflow
    ensures Steps(s, more) == Put(s, id, c')
    ensures var c := s.connections[id];
            c' == c.(chan := c.chan.(queue := []), taken := c'.taken, written := c'.written)
    decreases |s.connections[id].chan.queue|
  {
    hide Steps, Step;
    var c := s.connections[id];
    if c.chan.queue == [] {
      more, c' := [], c;
      NoSteps(s);
      assert s.connections[id := c] == s.connections;
    } else {
      var first, c1 := TakeOne(s, id);
      var rest;
      rest, c' := EmptyQueue(Put(s, id, c1), id);
      more := first + rest;
      StepsAppend(s, first, rest);
      PutTwice(s, id, c1, c');
    }
  }

  lemma CatchUp(s: State, id: Id) returns (more: seq<Action>, c': Connection)
    requires Inv(s) && Live(s, id)
    ensures Steps(s, more) == Put(s, id, c')
    ensures var c := s.connections[id];
            c' == c.(loop := AtTop, chan := c.chan.(queue := []), taken := c'.taken, written := c'.written)
  {
    hide Steps, Step, Inv;
    LiveIsOpen(s, id);
    var first, c1 := ToTop(s, id);
    var rest;
    rest, c' := EmptyQueue(Put(s, id, c1), id);
    more := first + rest;
    StepsAppend(s, first, rest);
    PutTwice(s, id, c1, c');
  }

  /** One event is published and buffered for a connection that had caught up. */
  lemma PublishMore(s: State, id: Id, m: Event) returns (more: seq<Action>)
    requires Inv(s) && Live(s, id) && s.connections[id].chan.queue == []
    ensures var s', c := Steps(s, more), s.connections[id];
            && Inv(s') && Live(s', id) && s'.log == s.log[c.workspace := Log(s, c.workspace) + [m]]
            && s'.connections[id] == c.(chan := c.chan.(queue := [m]))
  {
    hide Steps, Step, Inv, PublishActions;
    var c := s.connections[id];
    LiveIsOpen(s, id);
    var order := Enumerated(Members(s, c.workspace));
    MembersConnected(s, c.workspace);
    more := PublishActions(s, c.workspace, m, order);
    PublishRefines(s, c.workspace, m, order);
    StepsKeepInv(s, more);
    assert [] + [m] == [m];
  }

  lemma {:induction false} ArriveFrom(s: State, id: Id, events: seq<Event>) returns (more: seq<Action>)
    requires Inv(s) && Live(s, id)
    ensures var s', c := Steps(s, more), s.connections[id];
            && Inv(s') && Live(s', id)
            && Log(s', c.workspace) == Log(s, c.workspace) + events
            && var c' := s'.connections[id];
            && c'.loop.AtTop? && c'.chan.queue == []
            && c'.workspace == c.workspace && c'.batches == c.batches && c'.since == c.since
    decreases |events|
  {
    hide Steps, Step, Inv;
    var c1;
    if events == [] {
      more, c1 := CatchUp(s, id);
      StepsKeepInv(s, more);
    } else {
      var front, m := events[..|events| - 1], events[|events| - 1];
      var first := ArriveFrom(s, id, front);
      var s1 := Steps(s, first);
      var publish := PublishMore(s1, id, m);
      var s2 := Steps(s1, publish);
      var last;
      last, c1 := CatchUp(s2, id);
      StepsAppend(s, first, publish);
      StepsAppend(s, first + publish, last);
      StepsKeepInv(s2, last);
      more := first + publish + last;
      assert events == front + [m];
    }
  }

  /** Whatever is published to a live connection from now on, whatever happened before, some
      continuation writes all of it, keeps the connection registered and leaves nothing queued. */
  lemma EverythingCanArrive(actions: seq<Action>, id: Id, events: seq<Event>) returns (more: seq<Action>)
    requires Live(Run(actions), id)
    ensures var s, s' := Run(actions), Run(actions + more);
            var c := s.connections[id];
            && Live(s', id)
            && Log(s', c.workspace) == Log(s, c.workspace) + events
            && var c' := s'.connections[id];
            && c'.loop.AtTop? && c'.chan.queue == []
            && c'.workspace == c.workspace && c'.batches == c.batches && c'.since == c.since
            && Opened(c'.written) == Opened(Stream(s', c'))
  {
    hide Run, Steps, Inv;
    RunKeepsInv(actions);
    more := ArriveFrom(Run(actions), id, events);
    RunIsSteps(actions, more);
    NoSilentLoss(actions + more, id);
    OpenedNothing();
  }
}
