/** In which form a client is written what was published: one that opted in to batches the published
    messages themselves, any other no batch at all. */
module DeliveryFormat {
  import opened Common
  import opened Events
  import opened Delivery

  predicate NoBatch(messages: seq<Event>) {
    forall i :: 0 <= i < |messages| ==> !messages[i].UpsertMany?
  }

  /** What is known of the form of a connection's messages. `stream` is everything published to its
      workspace since it subscribed. */
  predicate FormatOk(c: Connection, stream: seq<Event>) {
    && (!c.batches ==> NoBatch(c.written) && NoBatch(Pending(c.loop)))
    && (c.batches ==>
          && (!c.chan.overflow && !c.loop.Ended? ==> c.written + Pending(c.loop) == c.taken)
          && (c.loop.Writing? ==> c.loop.outgoing != [] && c.written + c.loop.outgoing <= stream)
          && c.written <= stream)
  }

  ghost predicate FormatsOk(s: State) {
    forall id :: id in s.connections ==> FormatOk(s.connections[id], Stream(s, s.connections[id]))
  }

  lemma LoopKeepsFormat(c: Connection, stream: seq<Event>, pick: Pick)
    requires FormatOk(c, stream) && (!c.chan.overflow ==> c.taken <= stream)
    ensures FormatOk(LoopStep(c, pick), stream)
  {
    if c.loop.Writing? && c.loop.outgoing != [] {
      var o := c.loop.outgoing;
      assert c.written + o == (c.written + [o[0]]) + o[1..];
    }
  }

  /** A step of anybody else leaves the connection as it is, but for its channel. */
  predicate Undisturbed(c: Connection, c': Connection) {
    && c' == c.(chan := c'.chan, cancelled := c'.cancelled)
    && (c.chan.overflow ==> c'.chan.overflow)
  }

  lemma OthersLeaveAlone(s: State, a: Action, id: Id)
    requires id in s.connections && !(a.RunLoop? && a.id == id)
    ensures id in Step(s, a).connections && Undisturbed(s.connections[id], Step(s, a).connections[id])
  {
    hide LoopStep, CancelOf, OfferTo, DropStep;
    match a
    case Cancel(k) => if k in s.connections { CancelLeavesAlone(s, k, id); }
    case Offer(k) => if s.lock.Publishing? && k in s.connections { OfferLeavesAlone(s, k, id); }
    case Drop => if s.lock.Dropping? && s.lock.slow in s.connections { DropLeavesAlone(s, id); }
    case _ =>
  }

  lemma CancelLeavesAlone(s: State, k: Id, id: Id)
    requires k in s.connections && id in s.connections
    ensures id in CancelOf(s, k).connections && Undisturbed(s.connections[id], CancelOf(s, k).connections[id])
  {
  }

  lemma OfferLeavesAlone(s: State, k: Id, id: Id)
    requires s.lock.Publishing? && k in s.connections && id in s.connections
    ensures id in OfferTo(s, k).connections && Undisturbed(s.connections[id], OfferTo(s, k).connections[id])
  {
  }

  lemma DropLeavesAlone(s: State, id: Id)
    requires s.lock.Dropping? && s.lock.slow in s.connections && id in s.connections
    ensures id in DropStep(s).connections && Undisturbed(s.connections[id], DropStep(s).connections[id])
  {
  }

  lemma LogGrows(s: State, a: Action, w: Id)
    ensures Log(s, w) <= Log(Step(s, a), w)
  {
    hide LoopStep;
  }

  lemma StreamGrows(s: State, a: Action, c: Connection)
    ensures Stream(s, c) <= Stream(Step(s, a), c)
  {
    hide Step;
    LogGrows(s, a, c.workspace);
  }

  lemma UndisturbedKeepsFormat(c: Connection, c': Connection, stream: seq<Event>, stream': seq<Event>)
    requires FormatOk(c, stream) && Undisturbed(c, c') && stream <= stream'
    ensures FormatOk(c', stream')
  {
  }

  /** A connection never receives what was not published. */
  lemma TakenIsPublished(s: State, id: Id)
    requires Inv(s) && id in s.connections
    ensures !s.connections[id].chan.overflow ==> s.connections[id].taken <= Stream(s, s.connections[id])
  {
    hide RegistryOk, ChannelOk, WrittenOk;
    assert ConnectionOk(s, id);
  }

  lemma StepKeepsFormats(s: State, a: Action)
    requires Inv(s) && FormatsOk(s)
    ensures FormatsOk(Step(s, a))
  {
    hide Inv, Step, Stream, FormatOk;
    var s' := Step(s, a);
    forall id | id in s'.connections ensures FormatOk(s'.connections[id], Stream(s', s'.connections[id])) {
      if id in s.connections {
        var c := s.connections[id];
        StreamGrows(s, a, c);
        if a.RunLoop? && a.id == id {
          TakenIsPublished(s, id);
          LoopKeepsFormat(c, Stream(s, c), a.pick);
          OwnStepKeepsStream(s, a);
        } else {
          OthersLeaveAlone(s, a, id);
          UndisturbedKeepsFormat(c, s'.connections[id], Stream(s, c), Stream(s', c));
          SameStream(s', c, s'.connections[id]);
        }
      } else {
        FreshFormat(s, a, id);
      }
    }
  }

  lemma OwnStepKeepsStream(s: State, a: Action)
    requires a.RunLoop? && a.id in s.connections
    ensures var s', c := Step(s, a), s.connections[a.id];
            && a.id in s'.connections && s'.connections[a.id] == LoopStep(c, a.pick)
            && Stream(s', s'.connections[a.id]) == Stream(s, c)
  {
    hide LoopStep;
    LoopStaysPut(s.connections[a.id], a.pick);
  }

  lemma SameStream(s: State, c: Connection, c': Connection)
    requires Undisturbed(c, c')
    ensures Stream(s, c') == Stream(s, c)
  {
  }

  lemma FreshFormat(s: State, a: Action, id: Id)
    requires id !in s.connections && id in Step(s, a).connections
    ensures FormatOk(Step(s, a).connections[id], Stream(Step(s, a), Step(s, a).connections[id]))
  {
    hide LoopStep;
  }

  lemma {:induction false} RunKeepsFormats(actions: seq<Action>)
    ensures FormatsOk(Run(actions))
  {
    hide Step, Inv;
    if actions != [] {
      var front := actions[..|actions| - 1];
      RunKeepsFormats(front);
      RunKeepsInv(front);
      StepKeepsFormats(Run(front), actions[|actions| - 1]);
    }
  }

  /** A client that did not opt in is never written a batch, and is not about to be. */
  lemma {:induction false} NoBatchUnasked(actions: seq<Action>, id: Id)
    requires id in Run(actions).connections && !Run(actions).connections[id].batches
    ensures var c := Run(actions).connections[id];
            && (forall m :: m in c.written ==> !m.UpsertMany?)
            && (c.loop.Sending? || c.loop.Writing? ==> forall m :: m in c.loop.outgoing ==> !m.UpsertMany?)
  {
    hide Run;
    RunKeepsFormats(actions);
    var c := Run(actions).connections[id];
    assert FormatOk(c, Stream(Run(actions), c));
  }

  /** A client that opted in is written the published messages themselves, batches whole, from its
      subscription on and without a gap. */
  lemma {:induction false} BatchesArriveWhole(actions: seq<Action>, id: Id)
    requires id in Run(actions).connections && Run(actions).connections[id].batches
    ensures var s, c := Run(actions), Run(actions).connections[id];
            c.written <= Stream(s, c)
  {
    hide Run;
    RunKeepsFormats(actions);
    var c := Run(actions).connections[id];
    assert FormatOk(c, Stream(Run(actions), c));
  }
}
