/** The delivery protocol at the grain of its channel operations: publishers holding the broker
    mutex, and one write loop per connection, interleaved in any order. */
module Delivery {
  import opened Common
  import opened Events
  import opened Channels

  /** Where a write loop stands. `Sending` is before the overflow re-check that precedes each
      outgoing message, `Writing` after it. */
  datatype Loop =
    | AtTop
    | Waiting
    | Sending(outgoing: seq<Event>)
    | Writing(outgoing: seq<Event>)
    | Ended

  /** A connection. `since` marks the workspace's publications that precede its subscription;
      `taken` and `written` record what its write loop received and wrote. */
  datatype Connection = Connection(
    workspace: Id,
    batches: bool,
    chan: Subscription,
    cancelled: bool,
    loop: Loop,
    since: nat,
    taken: seq<Event>,
    written: seq<Event>)

  datatype Phase = Signal | Discard | CloseChannel | Unregister

  /** Who holds the mutex. `todo` are the subscribers the publishing loop has not finished. */
  datatype Lock =
    | Free
    | Publishing(workspace: Id, message: Event, todo: set<Id>)
    | Dropping(workspace: Id, message: Event, todo: set<Id>, slow: Id, phase: Phase)

  /** `log` records everything published to each workspace. `panicked` is set by a send on a
      closed channel and by a second close. */
  datatype State = State(
    connections: map<Id, Connection>,
    registry: map<Id, set<Id>>,
    lock: Lock,
    log: map<Id, seq<Event>>,
    panicked: bool)

  const INIT := State(map[], map[], Free, map[], false)

  /** What the select of a write loop picks, and whether a write, of a heartbeat too, fails. */
  datatype Pick = Overflow | Message | Tick | WriteFails

  datatype Action =
    | Subscribe(id: Id, workspace: Id, batches: bool)
    | Cancel(id: Id)
    | Publish(workspace: Id, message: Event)
    | Offer(id: Id)
    | Drop
    | Finish
    | RunLoop(id: Id, pick: Pick)

  function Members(s: State, workspace: Id): set<Id> {
    if workspace in s.registry then s.registry[workspace] else {}
  }

  function Log(s: State, workspace: Id): seq<Event> {
    if workspace in s.log then s.log[workspace] else []
  }

  /** Removes a subscriber; `prune` also forgets a workspace left without any. */
  function Without(registry: map<Id, set<Id>>, workspace: Id, id: Id, prune: bool): map<Id, set<Id>>
    requires workspace in registry
  {
    var rest := registry[workspace] - {id};
    if prune && rest == {} then registry - {workspace} else registry[workspace := rest]
  }

  function Put(s: State, id: Id, c: Connection): State {
    s.(connections := s.connections[id := c])
  }

  /** The messages a client is written for one dequeued message. */
  function Outgoing(batches: bool, message: Event): seq<Event> {
    if batches then [message] else Expand(message)
  }

  function LoopStep(c: Connection, pick: Pick): Connection {
    match c.loop
    case AtTop => c.(loop := if c.chan.overflow then Ended else Waiting)
    case Waiting =>
      if pick.Message? then
        if c.chan.queue != [] then
          c.(chan := c.chan.(queue := c.chan.queue[1..]), taken := c.taken + [c.chan.queue[0]],
             loop := Sending(Outgoing(c.batches, c.chan.queue[0])))
        else if c.chan.closed then c.(loop := Ended)
        else c
      else if pick.Overflow? then (if c.chan.overflow then c.(loop := Ended) else c)
      else if pick.Tick? then c.(loop := if c.chan.overflow then Ended else AtTop)
      else c.(loop := Ended)
    case Sending(outgoing) =>
      if outgoing == [] then c.(loop := AtTop)
      else c.(loop := if c.chan.overflow then Ended else Writing(outgoing))
    case Writing(outgoing) =>
      if pick.WriteFails? || outgoing == [] then c.(loop := Ended)
      else c.(written := c.written + [outgoing[0]], loop := Sending(outgoing[1..]))
    case Ended => c
  }

  function CloseOf(s: State, id: Id): State
    requires id in s.connections
  {
    var c := s.connections[id];
    if c.chan.closed then s.(panicked := true) else Put(s, id, c.(chan := c.chan.(closed := true)))
  }

  function OfferTo(s: State, id: Id): State
    requires s.lock.Publishing? && id in s.connections
  {
    var c := s.connections[id];
    if c.chan.closed then s.(panicked := true)
    else if |c.chan.queue| < BUFFER_SIZE then
      Put(s, id, c.(chan := c.chan.(queue := c.chan.queue + [s.lock.message]))).(
        lock := Publishing(s.lock.workspace, s.lock.message, s.lock.todo - {id}))
    else s.(lock := Dropping(s.lock.workspace, s.lock.message, s.lock.todo, id, Signal))
  }

  /** The overflow path on the slow subscriber, one channel operation at a time: close the
      signal, receive what is buffered, close the channel. */
  predicate DropPanics(chan: Subscription, phase: Phase) {
    (phase.Signal? && chan.overflow) || (phase.CloseChannel? && chan.closed)
  }

  function DropChan(chan: Subscription, phase: Phase): Subscription {
    match phase
    case Signal => chan.(overflow := true)
    case Discard => if chan.queue == [] then chan else chan.(queue := chan.queue[1..])
    case CloseChannel => chan.(closed := true)
    case Unregister => chan
  }

  function NextPhase(chan: Subscription, phase: Phase): Phase {
    match phase
    case Signal => Discard
    case Discard => if chan.queue == [] then CloseChannel else Discard
    case _ => Unregister
  }

  function DropStep(s: State): State
    requires s.lock.Dropping? && s.lock.slow in s.connections
  {
    var lock := s.lock;
    var c := s.connections[lock.slow];
    if lock.phase.Unregister? then
      s.(registry := if lock.workspace in s.registry then Without(s.registry, lock.workspace, lock.slow, false)
                         else s.registry,
         lock := Publishing(lock.workspace, lock.message, lock.todo - {lock.slow}))
    else if DropPanics(c.chan, lock.phase) then s.(panicked := true)
    else
      Put(s, lock.slow, c.(chan := DropChan(c.chan, lock.phase))).(
        lock := lock.(phase := NextPhase(c.chan, lock.phase)))
  }

  function CancelOf(s: State, id: Id): State
    requires id in s.connections
  {
    var c := s.connections[id];
    var s' := Put(s, id, c.(cancelled := true));
    if id in Members(s, c.workspace) then
      CloseOf(s', id).(registry := Without(s.registry, c.workspace, id, true))
    else s'
  }

  /** One step. A step that is not possible in `s` leaves it unchanged. */
  function Step(s: State, a: Action): State {
    match a
    case Subscribe(id, w, batches) =>
      if s.lock.Free? && id !in s.connections then
        Put(s, id, Connection(w, batches, FRESH, false, AtTop, |Log(s, w)|, [], [])).(
          registry := s.registry[w := Members(s, w) + {id}])
      else s
    case Cancel(id) =>
      if s.lock.Free? && id in s.connections && !s.connections[id].cancelled then CancelOf(s, id) else s
    case Publish(w, message) =>
      if s.lock.Free? then s.(lock := Publishing(w, message, Members(s, w)), log := s.log[w := Log(s, w) + [message]])
      else s
    case Offer(id) =>
      if s.lock.Publishing? && id in s.lock.todo && id in s.connections then OfferTo(s, id) else s
    case Drop => if s.lock.Dropping? && s.lock.slow in s.connections then DropStep(s) else s
    case Finish =>
      if s.lock.Publishing? && s.lock.todo == {} then
        s.(lock := Free,
           registry := if Members(s, s.lock.workspace) == {} then s.registry - {s.lock.workspace} else s.registry)
      else s
    case RunLoop(id, pick) =>
      if id in s.connections then Put(s, id, LoopStep(s.connections[id], pick)) else s
  }

  function Run(actions: seq<Action>): State {
    if actions == [] then INIT else Step(Run(actions[..|actions| - 1]), actions[|actions| - 1])
  }

  // ---- The invariant ----

  /** The role the mutex holder gives a connection. */
  datatype Role = Idle | Due | Slow(phase: Phase)

  function RoleOf(s: State, id: Id): Role {
    if s.lock.Dropping? && s.lock.slow == id then Slow(s.lock.phase)
    else if !s.lock.Free? && id in s.lock.todo then Due
    else Idle
  }

  predicate Registered(s: State, id: Id) {
    id in s.connections && id in Members(s, s.connections[id].workspace)
  }

  /** Everything published to the connection's workspace since it subscribed. */
  function Stream(s: State, c: Connection): seq<Event> {
    if c.since <= |Log(s, c.workspace)| then Log(s, c.workspace)[c.since..] else []
  }

  function Pending(l: Loop): seq<Event> {
    match l
    case Sending(outgoing) => outgoing
    case Writing(outgoing) => outgoing
    case _ => []
  }

  /** The registration of a connection agrees with its channel. */
  predicate ChannelOk(registered: bool, role: Role, chan: Subscription, cancelled: bool) {
    && |chan.queue| <= BUFFER_SIZE
    && (match role
        case Idle =>
          && (registered <==> !chan.closed)
          && (chan.overflow ==> !registered && chan.queue == [])
          && (!registered ==> chan.overflow || cancelled)
        case Due => registered && !chan.closed && !chan.overflow
        case Slow(phase) =>
          && registered
          && (phase.Signal? ==> !chan.overflow && !chan.closed)
          && (phase.Discard? ==> chan.overflow && !chan.closed)
          && (phase.CloseChannel? ==> chan.overflow && !chan.closed && chan.queue == [])
          && (phase.Unregister? ==> chan.overflow && chan.closed && chan.queue == []))
  }

  /** How far the publications have come: `stream` is everything published since the
      subscription; a connection the publisher has not finished lacks the last message. */
  predicate StreamOk(registered: bool, role: Role, c: Connection, stream: seq<Event>) {
    && (!c.chan.overflow && role.Idle? && registered ==> c.taken + c.chan.queue == stream)
    && (!c.chan.overflow && !role.Idle? ==> stream != [] && c.taken + c.chan.queue == stream[..|stream| - 1])
    && (!c.chan.overflow ==> c.taken + c.chan.queue <= stream)
  }

  /** What has been written, with batches opened up, never leaves the published stream. */
  predicate WrittenOk(c: Connection, stream: seq<Event>) {
    && (!c.chan.overflow && !c.loop.Ended? ==> Opened(c.written) + Opened(Pending(c.loop)) == Opened(c.taken))
    && (c.loop.Writing? ==> c.loop.outgoing != [] && Opened(c.written) + Opened(c.loop.outgoing) <= Opened(stream))
    && Opened(c.written) <= Opened(stream)
  }

  predicate ConnectionOk(s: State, id: Id)
    requires id in s.connections
  {
    var c := s.connections[id];
    && c.since <= |Log(s, c.workspace)|
    && ChannelOk(Registered(s, id), RoleOf(s, id), c.chan, c.cancelled)
    && StreamOk(Registered(s, id), RoleOf(s, id), c, Stream(s, c))
    && WrittenOk(c, Stream(s, c))
  }

  predicate RegistryOk(s: State) {
    && (forall w, id :: w in s.registry && id in s.registry[w] ==>
          id in s.connections && s.connections[id].workspace == w)
    && (forall w :: w in s.registry && (s.lock.Free? || w != s.lock.workspace) ==> s.registry[w] != {})
    && (!s.lock.Free? ==> s.lock.todo <= Members(s, s.lock.workspace))
    && (s.lock.Dropping? ==> s.lock.slow in s.lock.todo)
    && (!s.lock.Free? ==>
          var log := Log(s, s.lock.workspace);
          log != [] && s.lock.message == log[|log| - 1])
  }

  ghost predicate ConnectionsOk(s: State) {
    forall id :: id in s.connections ==> ConnectionOk(s, id)
  }

  ghost predicate Inv(s: State) {
    !s.panicked && RegistryOk(s) && ConnectionsOk(s)
  }

  // ---- One connection ----

  lemma OpenedPrefix(a: seq<Event>, b: seq<Event>)
    requires a <= b
    ensures Opened(a) <= Opened(b)
  {
    OpenedAppend(a, b[|a|..]);
    assert b == a + b[|a|..];
  }

  lemma OutgoingOpens(batches: bool, message: Event)
    ensures Opened(Outgoing(batches, message)) == Opened([message])
  {
    OpenedOne(message);
    OpenedSingles(Expand(message)) by { if !message.UpsertMany? {} }
  }

  lemma LoopKeepsChannel(registered: bool, role: Role, c: Connection, pick: Pick)
    requires ChannelOk(registered, role, c.chan, c.cancelled)
    ensures var c' := LoopStep(c, pick); ChannelOk(registered, role, c'.chan, c'.cancelled)
  {
  }

  lemma LoopKeepsStream(registered: bool, role: Role, c: Connection, stream: seq<Event>, pick: Pick)
    requires StreamOk(registered, role, c, stream)
    ensures StreamOk(registered, role, LoopStep(c, pick), stream)
  {
    var c' := LoopStep(c, pick);
    assert c'.taken + c'.chan.queue == c.taken + c.chan.queue;
  }

  /** A step of the write loop keeps what is known of what it wrote, whatever it picks. */
  lemma LoopKeepsWritten(c: Connection, stream: seq<Event>, pick: Pick)
    requires WrittenOk(c, stream) && (!c.chan.overflow ==> c.taken + c.chan.queue <= stream)
    ensures WrittenOk(LoopStep(c, pick), stream)
  {
    hide Expand, Opened;
    var c' := LoopStep(c, pick);
    match c.loop
    case Waiting =>
      if pick.Message? && c.chan.queue != [] {
        var m := c.chan.queue[0];
        OpenedAppend(c.taken, [m]);
        OutgoingOpens(c.batches, m);
        OpenedNothing();
      }
    case Sending(outgoing) =>
      if outgoing == [] {
        OpenedNothing();
      } else if !c.chan.overflow {
        assert c.taken <= stream;
        OpenedPrefix(c.taken, stream);
      }
    case Writing(outgoing) =>
      if !pick.WriteFails? { WritingKeepsPrefix(c, stream); }
    case _ =>
  }

  lemma OpenedNothing()
    ensures Opened([]) == []
  {
  }

  lemma WritingKeepsPrefix(c: Connection, stream: seq<Event>)
    requires c.loop.Writing? && c.loop.outgoing != [] && WrittenOk(c, stream)
    ensures var o := c.loop.outgoing;
            && Opened(c.written) + Opened(o) == Opened(c.written + [o[0]]) + Opened(o[1..])
            && Opened(c.written + [o[0]]) <= Opened(stream)
  {
    var o := c.loop.outgoing;
    OpenedAppend(c.written, [o[0]]);
    OpenedAppend([o[0]], o[1..]);
    assert o == [o[0]] + o[1..];
  }

  /** A publication reaches a connection's stream before its channel. */
  lemma PublicationExtends(registered: bool, c: Connection, stream: seq<Event>, m: Event)
    requires StreamOk(registered, Idle, c, stream) && WrittenOk(c, stream)
    requires registered ==> !c.chan.overflow
    ensures StreamOk(registered, if registered then Due else Idle, c, stream + [m]) && WrittenOk(c, stream + [m])
  {
    OpenedPrefix(stream, stream + [m]);
    assert (stream + [m])[..|stream|] == stream;
  }

  // ---- Steps ----

  lemma Untouched(s: State, s': State, id: Id)
    requires id in s.connections && ConnectionOk(s, id)
    requires id in s'.connections && s'.connections[id] == s.connections[id]
    requires Registered(s', id) == Registered(s, id) && RoleOf(s', id) == RoleOf(s, id)
    requires Log(s', s.connections[id].workspace) == Log(s, s.connections[id].workspace)
    ensures ConnectionOk(s', id)
  {
    hide ChannelOk, StreamOk, WrittenOk;
  }

  /** A step that concerns one connection leaves the others as they were. */
  lemma OneMoved(s: State, s': State, id: Id)
    requires ConnectionsOk(s) && s'.log == s.log
    requires s'.connections.Keys == s.connections.Keys + {id}
    requires forall k :: k in s.connections && k != id ==> s'.connections[k] == s.connections[k]
    requires forall k, w :: k != id ==> (k in Members(s', w) <==> k in Members(s, w))
    requires forall k :: k != id ==> RoleOf(s', k) == RoleOf(s, k)
    requires id in s'.connections ==> ConnectionOk(s', id)
    ensures ConnectionsOk(s')
  {
    hide ConnectionOk, Members, RoleOf;
    forall k | k in s'.connections && k != id ensures ConnectionOk(s', k) {
      Untouched(s, s', k);
    }
  }

  lemma SubscribeKeepsInv(s: State, id: Id, w: Id, batches: bool)
    requires Inv(s) && s.lock.Free? && id !in s.connections
    ensures Inv(Step(s, Subscribe(id, w, batches)))
  {
    hide ConnectionOk, RegistryOk;
    SubscribeMine(s, id, w, batches);
    SubscribeKeepsRegistry(s, id, w, batches);
    OneMoved(s, Step(s, Subscribe(id, w, batches)), id);
  }

  lemma SubscribeKeepsRegistry(s: State, id: Id, w: Id, batches: bool)
    requires RegistryOk(s) && s.lock.Free? && id !in s.connections
    ensures RegistryOk(Step(s, Subscribe(id, w, batches)))
  {
  }

  lemma SubscribeMine(s: State, id: Id, w: Id, batches: bool)
    requires RegistryOk(s) && s.lock.Free? && id !in s.connections
    ensures ConnectionOk(Step(s, Subscribe(id, w, batches)), id)
  {
    hide WrittenOk;
    var s' := Step(s, Subscribe(id, w, batches));
    assert Stream(s', s'.connections[id]) == [];
    NothingWritten(s'.connections[id]);
  }

  lemma NothingWritten(c: Connection)
    requires c.loop.AtTop? && c.taken == [] && c.written == []
    ensures WrittenOk(c, [])
  {
  }

  lemma CancelKeepsInv(s: State, id: Id)
    requires Inv(s) && s.lock.Free? && id in s.connections
    ensures Inv(CancelOf(s, id))
  {
    hide ConnectionOk;
    CancelMine(s, id);
    OneMoved(s, CancelOf(s, id), id);
  }

  lemma CancelMine(s: State, id: Id)
    requires RegistryOk(s) && s.lock.Free? && id in s.connections && ConnectionOk(s, id)
    ensures !CancelOf(s, id).panicked || s.panicked
    ensures ConnectionOk(CancelOf(s, id), id)
  {
    hide StreamOk, WrittenOk;
    var s' := CancelOf(s, id);
    CancelKeepsStream(s.connections[id], s'.connections[id], Registered(s, id), Stream(s, s.connections[id]));
  }

  lemma CancelKeepsStream(c: Connection, c': Connection, registered: bool, stream: seq<Event>)
    requires StreamOk(registered, Idle, c, stream) && WrittenOk(c, stream)
    requires c' == c.(cancelled := true) || c' == c.(cancelled := true, chan := c.chan.(closed := true))
    ensures StreamOk(false, Idle, c', stream) && WrittenOk(c', stream)
  {
  }

  lemma PublishKeepsInv(s: State, w: Id, m: Event)
    requires Inv(s) && s.lock.Free?
    ensures Inv(Step(s, Publish(w, m)))
  {
    hide ConnectionOk;
    var s' := Step(s, Publish(w, m));
    forall k | k in s'.connections ensures ConnectionOk(s', k) {
      PublishMine(s, w, m, k);
    }
  }

  lemma PublishMine(s: State, w: Id, m: Event, k: Id)
    requires RegistryOk(s) && s.lock.Free? && k in s.connections && ConnectionOk(s, k)
    ensures ConnectionOk(Step(s, Publish(w, m)), k)
  {
    hide StreamOk, WrittenOk;
    var s', c := Step(s, Publish(w, m)), s.connections[k];
    if c.workspace != w {
      assert k !in Members(s, w);
    } else {
      assert Stream(s', c) == Stream(s, c) + [m];
      PublicationExtends(Registered(s, k), c, Stream(s, c), m);
    }
  }

  /** Buffering the message being published settles a subscriber's turn. */
  lemma BufferingSettles(c: Connection, c': Connection, stream: seq<Event>)
    requires StreamOk(true, Due, c, stream) && WrittenOk(c, stream) && !c.chan.overflow && stream != []
    requires c' == c.(chan := c.chan.(queue := c.chan.queue + [stream[|stream| - 1]]))
    ensures StreamOk(true, Idle, c', stream) && WrittenOk(c', stream)
  {
    assert stream[..|stream| - 1] + [stream[|stream| - 1]] == stream;
    assert c'.taken + c'.chan.queue == (c.taken + c.chan.queue) + [stream[|stream| - 1]];
  }

  lemma OfferKeepsInv(s: State, id: Id)
    requires Inv(s) && s.lock.Publishing? && id in s.lock.todo && id in s.connections
    ensures Inv(OfferTo(s, id))
  {
    hide ConnectionOk;
    OfferMine(s, id);
    OneMoved(s, OfferTo(s, id), id);
  }

  lemma OfferMine(s: State, id: Id)
    requires RegistryOk(s) && s.lock.Publishing? && id in s.lock.todo && id in s.connections && ConnectionOk(s, id)
    ensures !OfferTo(s, id).panicked || s.panicked
    ensures ConnectionOk(OfferTo(s, id), id)
  {
    hide StreamOk, WrittenOk;
    var s', c := OfferTo(s, id), s.connections[id];
    var stream := Stream(s, c);
    assert c.workspace == s.lock.workspace && RoleOf(s, id) == Due;
    DueHasMessage(c, stream, Registered(s, id));
    if s'.lock.Publishing? {
      BufferingSettles(c, s'.connections[id], stream);
    } else {
      TurnStarts(c, stream);
    }
  }

  lemma DueHasMessage(c: Connection, stream: seq<Event>, registered: bool)
    requires StreamOk(registered, Due, c, stream) && !c.chan.overflow
    ensures stream != []
  {
  }

  lemma TurnStarts(c: Connection, stream: seq<Event>)
    requires StreamOk(true, Due, c, stream)
    ensures StreamOk(true, Slow(Signal), c, stream)
  {
  }

  lemma DropKeepsInv(s: State)
    requires Inv(s) && s.lock.Dropping? && s.lock.slow in s.connections
    ensures Inv(DropStep(s))
  {
    hide ConnectionOk, RegistryOk, ConnectionsOk;
    DropMine(s) by { assert ConnectionsOk(s); ConnectionIsOk(s, s.lock.slow); }
    DropKeepsRegistry(s);
    DropMovesOne(s);
    OneMoved(s, DropStep(s), s.lock.slow);
  }

  lemma ConnectionIsOk(s: State, id: Id)
    requires ConnectionsOk(s) && id in s.connections
    ensures ConnectionOk(s, id)
  {
  }

  lemma DropKeepsRegistry(s: State)
    requires RegistryOk(s) && s.lock.Dropping? && s.lock.slow in s.connections
    ensures RegistryOk(DropStep(s))
  {
    hide DropPanics, DropChan, NextPhase;
  }

  lemma DropMovesOne(s: State)
    requires RegistryOk(s) && s.lock.Dropping? && s.lock.slow in s.connections
    ensures var s', id := DropStep(s), s.lock.slow;
            && s'.log == s.log && s'.connections.Keys == s.connections.Keys + {id}
            && (forall k :: k in s.connections && k != id ==> s'.connections[k] == s.connections[k])
            && (forall k, w :: k != id ==> (k in Members(s', w) <==> k in Members(s, w)))
            && (forall k :: k != id ==> RoleOf(s', k) == RoleOf(s, k))
  {
    hide DropPanics, DropChan, NextPhase;
  }

  lemma DropMine(s: State)
    requires RegistryOk(s) && s.lock.Dropping? && s.lock.slow in s.connections && ConnectionOk(s, s.lock.slow)
    ensures !DropStep(s).panicked || s.panicked
    ensures ConnectionOk(DropStep(s), s.lock.slow)
  {
    hide WrittenOk, StreamOk;
    var s', c := DropStep(s), s.connections[s.lock.slow];
    assert c.workspace == s.lock.workspace;
    WrittenIgnoresQueue(c, s'.connections[s.lock.slow], Stream(s, c));
    StreamAfterSignal(c, s'.connections[s.lock.slow], RoleOf(s, s.lock.slow), Stream(s, c));
  }

  lemma StreamAfterSignal(c: Connection, c': Connection, role: Role, stream: seq<Event>)
    requires c'.chan.overflow || (c' == c && !c.chan.overflow)
    requires StreamOk(true, role, c, stream)
    ensures c'.chan.overflow ==> forall registered, role' :: StreamOk(registered, role', c', stream)
  {
  }

  lemma WrittenIgnoresQueue(c: Connection, c': Connection, stream: seq<Event>)
    requires WrittenOk(c, stream) && c' == c.(chan := c'.chan) && (c.chan.overflow ==> c'.chan.overflow)
    ensures WrittenOk(c', stream)
  {
  }

  lemma RunLoopKeepsInv(s: State, id: Id, pick: Pick)
    requires Inv(s) && id in s.connections
    ensures Inv(Step(s, RunLoop(id, pick)))
  {
    hide ConnectionOk, LoopStep;
    RunLoopMine(s, id, pick);
    OneMoved(s, Step(s, RunLoop(id, pick)), id);
  }

  lemma RunLoopMine(s: State, id: Id, pick: Pick)
    requires RegistryOk(s) && id in s.connections && ConnectionOk(s, id)
    ensures RegistryOk(Step(s, RunLoop(id, pick))) && ConnectionOk(Step(s, RunLoop(id, pick)), id)
  {
    hide ChannelOk, WrittenOk, LoopStep;
    var c := s.connections[id];
    LoopKeepsChannel(Registered(s, id), RoleOf(s, id), c, pick);
    LoopKeepsStream(Registered(s, id), RoleOf(s, id), c, Stream(s, c), pick);
    LoopKeepsWritten(c, Stream(s, c), pick);
    LoopStaysPut(c, pick);
  }

  lemma LoopStaysPut(c: Connection, pick: Pick)
    ensures LoopStep(c, pick).workspace == c.workspace && LoopStep(c, pick).since == c.since
  {
  }

  lemma FinishKeepsInv(s: State)
    requires Inv(s) && s.lock.Publishing? && s.lock.todo == {}
    ensures Inv(Step(s, Finish))
  {
    hide ChannelOk, StreamOk, WrittenOk;
    var s' := Step(s, Finish);
    forall k | k in s'.connections ensures ConnectionOk(s', k) { Untouched(s, s', k); }
  }

  lemma StepKeepsInv(s: State, a: Action)
    requires Inv(s)
    ensures Inv(Step(s, a))
  {
    hide Inv, CancelOf, OfferTo, DropStep, LoopStep;
    match a
    case Subscribe(id, w, batches) => if s.lock.Free? && id !in s.connections { SubscribeKeepsInv(s, id, w, batches); }
    case Cancel(id) => if s.lock.Free? && id in s.connections { CancelKeepsInv(s, id); }
    case Publish(w, m) => if s.lock.Free? { PublishKeepsInv(s, w, m); }
    case Offer(id) =>
      if s.lock.Publishing? && id in s.lock.todo && id in s.connections { OfferKeepsInv(s, id); }
    case Drop => if s.lock.Dropping? && s.lock.slow in s.connections { DropKeepsInv(s); }
    case Finish => if s.lock.Publishing? && s.lock.todo == {} { FinishKeepsInv(s); }
    case RunLoop(id, pick) => if id in s.connections { RunLoopKeepsInv(s, id, pick); }
  }

  lemma {:induction false} RunKeepsInv(actions: seq<Action>)
    ensures Inv(Run(actions))
  {
    hide Step;
    if actions != [] {
      RunKeepsInv(actions[..|actions| - 1]);
      StepKeepsInv(Run(actions[..|actions| - 1]), actions[|actions| - 1]);
    }
  }

  // ---- Main results ----

  /** No gap: in every interleaving, what a client has been written, with batches opened up, is a
      prefix of what was published to its workspace since it subscribed: nothing missing,
      repeated or reordered, even when a message is dequeued in the middle of the discard. */
  lemma {:induction false} NoGap(actions: seq<Action>, id: Id)
    requires id in Run(actions).connections
    ensures var s := Run(actions);
            Opened(s.connections[id].written) <= Opened(Stream(s, s.connections[id]))
  {
    hide Run, ChannelOk, StreamOk;
    RunKeepsInv(actions);
    assert ConnectionOk(Run(actions), id);
  }

  /** No silent loss: while nobody is publishing, a registered subscription accounts for
      everything published to its workspace since it began, in at most 128 buffered messages;
      unless its connection has ended, each of those events was written, is being written, or is
      still queued. A subscription that is not registered was cancelled or has overflowed. */
  lemma {:induction false} NoSilentLoss(actions: seq<Action>, id: Id)
    requires id in Run(actions).connections && Run(actions).lock.Free?
    ensures var s := Run(actions);
            var c := s.connections[id];
            && |c.chan.queue| <= BUFFER_SIZE
            && (!Registered(s, id) ==> c.cancelled || c.chan.overflow)
            && (Registered(s, id) ==> c.taken + c.chan.queue == Stream(s, c))
            && (Registered(s, id) && !c.loop.Ended? ==>
                  Opened(c.written) + Opened(Pending(c.loop)) + Opened(c.chan.queue) == Opened(Stream(s, c)))
  {
    hide Run;
    RunKeepsInv(actions);
    var s := Run(actions);
    var c := s.connections[id];
    assert ConnectionOk(s, id);
    OpenedAppend(c.taken, c.chan.queue);
  }

  /** At some time along the run, 128 messages were waiting for the connection. */
  ghost predicate Backlogged(actions: seq<Action>, id: Id) {
    exists k :: 0 <= k <= |actions| && WasFull(Run(actions[..k]), id)
  }

  predicate WasFull(s: State, id: Id) {
    id in s.connections && |s.connections[id].chan.queue| == 128
  }

  predicate Overflowing(s: State, id: Id) {
    (s.lock.Dropping? && s.lock.slow == id) || (id in s.connections && s.connections[id].chan.overflow)
  }

  /** Nobody is dropped early: in every run, a connection whose overflow is signalled, or about to be, once
      had 128 messages waiting. */
  lemma {:induction false} OnlyBacklogOverflows(actions: seq<Action>, id: Id)
    requires Overflowing(Run(actions), id)
    ensures Backlogged(actions, id)
  {
    hide Step, Inv, Overflowing, WasFull;
    if actions == [] {
      NobodyOverflows(id);
    } else {
      var front := actions[..|actions| - 1];
      RunKeepsInv(front);
      OverflowBegins(Run(front), actions[|actions| - 1], id);
      assert actions[..|front|] == front == front[..|front|];
      if Overflowing(Run(front), id) {
        OnlyBacklogOverflows(front, id);
        var k :| 0 <= k <= |front| && WasFull(Run(front[..k]), id);
        assert front[..k] == actions[..k];
      }
    }
  }

  lemma NobodyOverflows(id: Id)
    ensures !Overflowing(INIT, id)
  {
  }

  lemma OverflowBegins(s: State, a: Action, id: Id)
    requires Inv(s) && Overflowing(Step(s, a), id)
    ensures Overflowing(s, id) || WasFull(s, id)
  {
    hide Step, Inv, Overflowing;
    match a
    case Offer(k) => OnlyFullIsSlow(s, k, id);
    case Drop => OnlySlowIsSignalled(s, id);
    case RunLoop(k, pick) => LoopSignalsNobody(s, k, pick, id);
    case _ => OthersSignalNobody(s, a, id);
  }

  lemma OthersSignalNobody(s: State, a: Action, id: Id)
    requires !a.Offer? && !a.Drop? && !a.RunLoop?
    ensures Overflowing(Step(s, a), id) ==> Overflowing(s, id)
  {
  }

  lemma OnlyFullIsSlow(s: State, k: Id, id: Id)
    requires Inv(s)
    ensures Overflowing(Step(s, Offer(k)), id) ==> Overflowing(s, id) || WasFull(s, id)
  {
    if k in s.connections { assert ConnectionOk(s, k); }
  }

  lemma OnlySlowIsSignalled(s: State, id: Id)
    ensures Overflowing(Step(s, Drop), id) ==> Overflowing(s, id)
  {
  }

  lemma LoopSignalsNobody(s: State, k: Id, pick: Pick, id: Id)
    ensures Overflowing(Step(s, RunLoop(k, pick)), id) ==> Overflowing(s, id)
  {
    hide LoopStep;
    if k in s.connections { LoopKeepsSignal(s.connections[k], pick); }
  }

  lemma LoopKeepsSignal(c: Connection, pick: Pick)
    ensures LoopStep(c, pick).chan.overflow == c.chan.overflow && LoopStep(c, pick).cancelled == c.cancelled
    ensures LoopStep(c, pick).workspace == c.workspace
  {
  }

  /** Channel safety: no run sends on a closed channel or closes one twice; while nobody is
      publishing, a subscriber is registered exactly when its message channel is open, a closed
      overflow signal means a closed and drained channel, and no workspace is kept without
      subscribers. */
  lemma {:induction false} ChannelSafety(actions: seq<Action>)
    ensures var s := Run(actions);
            && !s.panicked
            && (s.lock.Free? ==>
                  && (forall id :: id in s.connections ==>
                        var chan := s.connections[id].chan;
                        && (Registered(s, id) <==> !chan.closed)
                        && (chan.overflow ==> chan.closed && chan.queue == []))
                  && (forall w :: w in s.registry ==> s.registry[w] != {}))
  {
    hide Run, StreamOk, WrittenOk;
    RunKeepsInv(actions);
    var s := Run(actions);
    if s.lock.Free? {
      forall id | id in s.connections
        ensures Registered(s, id) <==> !s.connections[id].chan.closed
        ensures s.connections[id].chan.overflow ==> s.connections[id].chan.closed && s.connections[id].chan.queue == []
      {
        assert ConnectionOk(s, id);
      }
    }
  }

  /** What a connection may still write once its overflow is signalled. */
  predicate Stopping(before: Connection, now: Connection) {
    && now.chan.overflow
    && (if before.loop.Writing? && before.loop.outgoing != [] then
          || (now.loop == before.loop && now.written == before.written)
          || (!now.loop.Writing? && now.written == before.written)
          || (!now.loop.Writing? && now.written == before.written + [before.loop.outgoing[0]])
        else !(now.loop.Writing? && now.loop.outgoing != []) && now.written == before.written)
  }

  /** After an overflow a client is written at most the one message its loop had already cleared
      for writing, whatever happens next. */
  lemma {:induction false} OverflowStopsWriting(actions: seq<Action>, later: seq<Action>, id: Id)
    requires id in Run(actions).connections && Run(actions).connections[id].chan.overflow
    ensures id in Run(actions + later).connections
    ensures Stopping(Run(actions).connections[id], Run(actions + later).connections[id])
    decreases |later|
  {
    if later == [] {
      assert actions + later == actions;
    } else {
      var front, all := later[..|later| - 1], actions + later;
      assert all[..|all| - 1] == actions + front;
      OverflowStopsWriting(actions, front, id);
      StoppingStep(Run(actions).connections[id], Run(actions + front), later[|later| - 1], id);
    }
  }

  lemma StoppingLoop(before: Connection, now: Connection, pick: Pick)
    requires Stopping(before, now)
    ensures Stopping(before, LoopStep(now, pick))
  {
  }

  lemma StoppingStep(before: Connection, s: State, a: Action, id: Id)
    requires id in s.connections && Stopping(before, s.connections[id])
    ensures id in Step(s, a).connections && Stopping(before, Step(s, a).connections[id])
  {
    hide Step, LoopStep, Stopping;
    if a.RunLoop? && a.id == id {
      OwnStep(s, a);
      StoppingLoop(before, s.connections[id], a.pick);
    } else {
      OthersKeepLoop(s, a, id);
      StoppingElse(before, s.connections[id], Step(s, a).connections[id]);
    }
  }

  lemma OwnStep(s: State, a: Action)
    requires a.RunLoop? && a.id in s.connections
    ensures Step(s, a) == Put(s, a.id, LoopStep(s.connections[a.id], a.pick))
  {
    hide LoopStep;
  }

  /** No step but its own moves a write loop, and no step takes an overflow signal back. */
  predicate LoopKept(c: Connection, c': Connection) {
    c'.loop == c.loop && c'.written == c.written && (c.chan.overflow ==> c'.chan.overflow)
  }

  lemma OthersKeepLoop(s: State, a: Action, id: Id)
    requires id in s.connections && !(a.RunLoop? && a.id == id)
    ensures id in Step(s, a).connections && LoopKept(s.connections[id], Step(s, a).connections[id])
  {
    hide LoopStep, CancelOf, OfferTo, DropStep;
    match a
    case Cancel(k) => if k in s.connections { CancelKeepsLoop(s, k, id); }
    case Offer(k) => if s.lock.Publishing? && k in s.connections { OfferKeepsLoop(s, k, id); }
    case Drop => if s.lock.Dropping? && s.lock.slow in s.connections { DropKeepsLoop(s, id); }
    case _ =>
  }

  lemma CancelKeepsLoop(s: State, k: Id, id: Id)
    requires k in s.connections && id in s.connections
    ensures id in CancelOf(s, k).connections && LoopKept(s.connections[id], CancelOf(s, k).connections[id])
  {
  }

  lemma OfferKeepsLoop(s: State, k: Id, id: Id)
    requires s.lock.Publishing? && k in s.connections && id in s.connections
    ensures id in OfferTo(s, k).connections && LoopKept(s.connections[id], OfferTo(s, k).connections[id])
  {
  }

  lemma DropKeepsLoop(s: State, id: Id)
    requires s.lock.Dropping? && s.lock.slow in s.connections && id in s.connections
    ensures id in DropStep(s).connections && LoopKept(s.connections[id], DropStep(s).connections[id])
  {
  }

  lemma StoppingElse(before: Connection, c: Connection, c': Connection)
    requires Stopping(before, c) && LoopKept(c, c')
    ensures Stopping(before, c')
  {
  }
}
