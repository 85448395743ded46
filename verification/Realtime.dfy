/** Channels between the broker and the write loops. */
module Channels {
  import opened Events

  const BUFFER_SIZE := 128

  /** A subscription as both sides see it: the buffered messages, whether the message channel is
      closed, and whether the overflow signal is. */
  datatype Subscription = Subscription(queue: seq<Event>, closed: bool, overflow: bool)

  const FRESH := Subscription([], false, false)

  /** What one Publish does to a subscription nobody reads from meanwhile. */
  function Offered(c: Subscription, message: Event): Subscription {
    if |c.queue| < BUFFER_SIZE then c.(queue := c.queue + [message]) else Subscription([], true, true)
  }
}

/** The broker, under its mutex. Sending on a closed channel and closing a channel twice panic,
    so both are preconditions of the channel operations. */
module Brokers {
  import opened Common
  import opened Events
  import opened Channels

  class Subscriber {
    var queue: seq<Event>
    var closed: bool
    var overflow: bool

    constructor ()
      ensures View() == FRESH
    {
      queue, closed, overflow := [], false, false;
    }

    function View(): Subscription
      reads this
    {
      Subscription(queue, closed, overflow)
    }

    method TrySend(message: Event) returns (sent: bool)
      requires !closed
      modifies this`queue
      ensures sent == (|old(queue)| < BUFFER_SIZE)
      ensures queue == if sent then old(queue) + [message] else old(queue)
    {
      sent := |queue| < BUFFER_SIZE;
      if sent { queue := queue + [message]; }
    }

    method SignalOverflow()
      requires !overflow
      modifies this`overflow
      ensures overflow
    {
      overflow := true;
    }

    method CloseChannel()
      requires !closed
      modifies this`closed
      ensures closed
    {
      closed := true;
    }

    /** discardQueuedMessages: receive until nothing is buffered. */
    method DiscardQueued()
      modifies this`queue
      ensures queue == []
    {
      while queue != []
        decreases |queue|
      {
        queue := queue[1..];
      }
    }
  }

  class Broker {
    var subscribers: map<Id, set<Subscriber>>

    function Members(workspace: Id): set<Subscriber>
      reads this
    {
      if workspace in subscribers then subscribers[workspace] else {}
    }

    ghost function All(): set<Subscriber>
      reads this
    {
      set w, s | w in subscribers && s in subscribers[w] :: s
    }

    /** Outside the lock: registered subscriptions are open, no subscription belongs to two
        workspaces, and no workspace is kept without subscribers. */
    ghost predicate Valid()
      reads this, All()
    {
      && (forall w :: w in subscribers ==> subscribers[w] != {})
      && (forall w, s :: w in subscribers && s in subscribers[w] ==>
            !s.closed && !s.overflow && |s.queue| <= BUFFER_SIZE)
      && (forall v, w :: v in subscribers && w in subscribers && v != w ==> subscribers[v] !! subscribers[w])
    }

    constructor ()
      ensures Valid() && subscribers == map[]
    {
      subscribers := map[];
    }

    method Subscribe(workspace: Id) returns (s: Subscriber)
      requires Valid()
      modifies this
      ensures Valid() && fresh(s) && s.View() == FRESH
      ensures Members(workspace) == old(Members(workspace)) + {s}
      ensures forall w :: w != workspace ==> Members(w) == old(Members(w))
    {
      s := new Subscriber();
      if workspace !in subscribers {
        subscribers := subscribers[workspace := {}];
      }
      subscribers := subscribers[workspace := subscribers[workspace] + {s}];
    }

    /** The cancel closure of a subscription. Repeating it, or cancelling after an overflow, is
        harmless. */
    method Cancel(workspace: Id, s: Subscriber)
      requires Valid()
      requires s !in Members(workspace) ==> forall w :: s !in Members(w)
      modifies this, s
      ensures Valid()
      ensures Members(workspace) == old(Members(workspace)) - {s}
      ensures forall w :: w != workspace ==> Members(w) == old(Members(w))
      ensures s.View() == old(s.View()).(closed := old(s.closed) || old(s in Members(workspace)))
    {
      if workspace in subscribers {
        if s in subscribers[workspace] {
          subscribers := subscribers[workspace := subscribers[workspace] - {s}];
          s.CloseChannel();
        }
        if subscribers[workspace] == {} {
          subscribers := subscribers - {workspace};
        }
      }
    }

    /** The body of the publishing loop, for one subscriber. */
    method Offer(workspace: Id, s: Subscriber, message: Event)
      requires workspace in subscribers && s in subscribers[workspace] && !s.closed && !s.overflow
      modifies this, s
      ensures s.View() == Offered(old(s.View()), message)
      ensures s.closed ==> subscribers == old(subscribers)[workspace := old(subscribers[workspace]) - {s}]
      ensures !s.closed ==> subscribers == old(subscribers)
    {
      var sent := s.TrySend(message);
      if !sent {
        s.SignalOverflow();
        s.DiscardQueued();
        s.CloseChannel();
        subscribers := subscribers[workspace := subscribers[workspace] - {s}];
      }
    }

    /** The publishing loop: the subscribers are visited in any order. */
    method OfferAll(workspace: Id, message: Event)
      requires workspace in subscribers
      requires forall s :: s in subscribers[workspace] ==> !s.closed && !s.overflow
      modifies this, subscribers[workspace]
      ensures forall s :: s in old(subscribers[workspace]) ==> s.View() == Offered(old(s.View()), message)
      ensures workspace in subscribers && subscribers == old(subscribers)[workspace := subscribers[workspace]]
      ensures forall s :: s in subscribers[workspace] <==> s in old(subscribers[workspace]) && !s.closed
    {
      var members: set<Subscriber> := subscribers[workspace];
      var todo: set<Subscriber> := members;
      while todo != {}
        invariant todo <= members
        invariant workspace in subscribers && subscribers == old(subscribers)[workspace := subscribers[workspace]]
        invariant forall s :: s in todo ==> s.View() == old(s.View())
        invariant forall s :: s in members - todo ==> s.View() == Offered(old(s.View()), message)
        invariant forall s :: s in subscribers[workspace] <==> s in members && !s.closed
        modifies this, members
        decreases todo
      {
        var s: Subscriber :| s in todo;
        todo := todo - {s};
        Offer(workspace, s, message);
      }
    }

    /** Publish, given the encoded message, if the payload could be encoded: every subscriber of
        the workspace either buffers the message or, being full, is signalled, drained, closed
        and dropped; nobody else is touched. */
    method Publish(workspace: Id, encoded: Option<Event>)
      requires Valid()
      modifies this, Members(workspace)
      ensures Valid()
      ensures encoded.None? ==>
                && subscribers == old(subscribers)
                && (forall s :: s in old(Members(workspace)) ==> s.View() == old(s.View()))
      ensures encoded.Some? ==>
                && (forall s :: s in old(Members(workspace)) ==> s.View() == Offered(old(s.View()), encoded.value))
                && (forall s :: s in Members(workspace) <==> s in old(Members(workspace)) && !s.closed)
                && (forall w :: w != workspace ==> Members(w) == old(Members(w)))
    {
      if encoded.None? || workspace !in subscribers { return; }
      OfferAll(workspace, encoded.value);
      if subscribers[workspace] == {} {
        subscribers := subscribers - {workspace};
      }
    }
  }
}
