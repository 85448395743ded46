/** Realtime order events, and how a list of upserted orders is cut into frames. */
module Events {
  import opened Common
  import opened Orders

  /** The payloads the service publishes. `before` is the cut-off date of a before_today clear. */
  datatype Event =
    | Upsert(item: OrderDto)
    | UpsertMany(items: seq<OrderDto>)
    | Deleted(id: Id)
    | Cleared(count: nat, before: Option<int>)

  /** The one-item events a client without the batch capability is sent instead. */
  function Expand(e: Event): seq<Event> {
    if e.UpsertMany? then seq(|e.items|, i requires 0 <= i < |e.items| => Upsert(e.items[i])) else [e]
  }

  /** A stream of events with every batch opened up. */
  function Opened(stream: seq<Event>): seq<Event> {
    if stream == [] then [] else Expand(stream[0]) + Opened(stream[1..])
  }

  lemma {:induction false} OpenedAppend(a: seq<Event>, b: seq<Event>)
    ensures Opened(a + b) == Opened(a) + Opened(b)
  {
    if a == [] {
      assert a + b == b;
    } else {
      assert (a + b)[1..] == a[1..] + b;
      OpenedAppend(a[1..], b);
    }
  }

  lemma OpenedOne(e: Event)
    ensures Opened([e]) == Expand(e)
  {
    assert [e][1..] == [];
  }

  /** Opening what is already open changes nothing. */
  lemma {:induction false} OpenedTwice(stream: seq<Event>)
    ensures Opened(Opened(stream)) == Opened(stream)
    ensures forall i :: 0 <= i < |Opened(stream)| ==> !Opened(stream)[i].UpsertMany?
  {
    if stream != [] {
      OpenedTwice(stream[1..]);
      OpenedSingles(Expand(stream[0]));
      OpenedAppend(Expand(stream[0]), Opened(stream[1..]));
    }
  }

  lemma {:induction false} OpenedSingles(singles: seq<Event>)
    requires forall i :: 0 <= i < |singles| ==> !singles[i].UpsertMany?
    ensures Opened(singles) == singles
  {
    if singles != [] { OpenedSingles(singles[1..]); }
  }

  /** The expander of the write loop. */
  method LegacyOrderUpsertMessages(items: seq<OrderDto>) returns (messages: seq<Event>)
    ensures messages == Expand(UpsertMany(items))
  {
    messages := [];
    for i := 0 to |items|
      invariant messages == Expand(UpsertMany(items))[..i]
    {
      messages := messages + [Upsert(items[i])];
    }
  }
}

module Batching {
  import opened Common
  import opened Orders
  import opened Events

  const MAX_BATCH := 64
  const MAX_FRAME_BYTES := 64 * 1024

  /** Encoded size of a batch frame, as a function of its items. */
  type FrameCost = seq<OrderDto> -> nat

  /** A published frame with the workspace it is published to. */
  datatype Frame = Frame(workspace: Id, event: Event)

  /** A run of orders that may travel in one batch: one workspace, at most 64 items, and within
      the byte budget unless it is a single item. */
  predicate Fits(cost: FrameCost, part: seq<Order>) {
    && 1 <= |part| <= MAX_BATCH
    && (forall i :: 0 <= i < |part| ==> part[i].workspace == part[0].workspace)
    && (|part| > 1 ==> cost(ToDtos(part)) <= MAX_FRAME_BYTES)
  }

  predicate LegalSplit(cost: FrameCost, items: seq<Order>, parts: seq<seq<Order>>) {
    Flatten(parts) == items && forall i :: 0 <= i < |parts| ==> Fits(cost, parts[i])
  }

  /** How far the greedy loop extends a batch that already holds items[..n]. */
  function Grow(cost: FrameCost, items: seq<Order>, n: nat): (end: nat)
    requires 1 <= n <= |items|
    ensures n <= end <= |items|
    decreases |items| - n
  {
    if n < |items| && items[n].workspace == items[0].workspace && n < MAX_BATCH
       && cost(ToDtos(items[..n + 1])) <= MAX_FRAME_BYTES
    then Grow(cost, items, n + 1) else n
  }

  function Greedy(cost: FrameCost, items: seq<Order>): seq<seq<Order>> {
    if items == [] then []
    else
      var n := Grow(cost, items, 1);
      [items[..n]] + Greedy(cost, items[n..])
  }

  function BatchFrame(part: seq<Order>): Frame
    requires part != []
  {
    Frame(part[0].workspace, UpsertMany(ToDtos(part)))
  }

  function BatchFrames(parts: seq<seq<Order>>): seq<Frame>
    requires forall i :: 0 <= i < |parts| ==> parts[i] != []
  {
    seq(|parts|, i requires 0 <= i < |parts| => BatchFrame(parts[i]))
  }

  lemma {:induction false} GrowFits(cost: FrameCost, items: seq<Order>, n: nat)
    requires 1 <= n <= |items| && Fits(cost, items[..n])
    ensures Fits(cost, items[..Grow(cost, items, n)])
    decreases |items| - n
  {
    if Grow(cost, items, n) != n {
      assert Fits(cost, items[..n + 1]) by {
        assert forall i :: 0 <= i < n ==> items[..n + 1][i] == items[..n][i];
      }
      GrowFits(cost, items, n + 1);
    }
  }

  /** Greedy batching is legal: every frame is non-empty, stays in one workspace and within the
      limits, and together the frames hold the input items once each, in order. */
  lemma {:induction false} GreedyIsLegal(cost: FrameCost, items: seq<Order>)
    ensures LegalSplit(cost, items, Greedy(cost, items))
  {
    if items != [] {
      var n := Grow(cost, items, 1);
      GrowFits(cost, items, 1);
      GreedyIsLegal(cost, items[n..]);
      assert items == items[..n] + items[n..];
    }
  }

  // ---- The loops ----

  /** What publishUpserts hands to the publisher for `items`. */
  function Published(cost: FrameCost, items: seq<Order>): seq<Frame> {
    if |items| == 1 then [Frame(items[0].workspace, Upsert(ToDto(items[0])))]
    else
      GreedyIsLegal(cost, items);
      BatchFrames(Greedy(cost, items))
  }

  /** The inner loop of publishUpserts: the batch that begins at `start`. */
  method TakeBatch(cost: FrameCost, items: seq<Order>, start: nat) returns (dtos: seq<OrderDto>, end: nat)
    requires start < |items|
    ensures start < end <= |items|
    ensures end - start == Grow(cost, items[start..], 1)
    ensures dtos == ToDtos(items[start..end])
  {
    var workspace := items[start].workspace;
    dtos := [];
    end := start;
    ghost var rest := items[start..];
    while end < |items| && items[end].workspace == workspace
      invariant start <= end <= |items|
      invariant dtos == ToDtos(rest[..end - start])
      invariant end > start ==> Grow(cost, rest, end - start) == Grow(cost, rest, 1)
    {
      var dto := ToDto(items[end]);
      if |dtos| > 0 && |dtos| >= MAX_BATCH { break; }
      var candidate := dtos + [dto];
      assert candidate == ToDtos(rest[..end - start + 1]);
      if |dtos| > 0 && cost(candidate) > MAX_FRAME_BYTES { break; }
      dtos := candidate;
      end := end + 1;
    }
    if |dtos| == 0 {
      assert false;  // the defensive fallback is never needed: one item is always taken
    }
    assert rest[..end - start] == items[start..end];
  }

  method PublishUpserts(cost: FrameCost, items: seq<Order>) returns (published: seq<Frame>)
    ensures published == Published(cost, items)
  {
    hide Fits, Greedy, Grow, ToDto;
    GreedyIsLegal(cost, items);
    published := [];
    NothingLeft(cost);
    if |items| == 0 {
      assert items == [];
      return;
    }
    var legacySingleEvent := |items| == 1;
    var start := 0;
    ghost var done: seq<seq<Order>> := [];
    assert items[0..] == items;
    while start < |items|
      invariant 0 <= start <= |items|
      invariant legacySingleEvent ==> published == [Frame(items[0].workspace, Upsert(ToDto(items[0])))][..start]
      invariant !legacySingleEvent ==> done + Greedy(cost, items[start..]) == Greedy(cost, items)
      invariant forall i :: 0 <= i < |done| ==> done[i] != []
      invariant !legacySingleEvent ==> published == BatchFrames(done)
    {
      var workspace := items[start].workspace;
      if legacySingleEvent {
        published := published + [Frame(workspace, Upsert(ToDto(items[start])))];
        start := start + 1;
        continue;
      }
      var dtos, end := TakeBatch(cost, items, start);
      published := published + [Frame(workspace, UpsertMany(dtos))];
      ghost var part := items[start..end];
      assert part != [] && part[0] == items[start];
      GreedyUnrolled(cost, items, start, end);
      FramesSnoc(done, part);
      assert done + ([part] + Greedy(cost, items[end..])) == (done + [part]) + Greedy(cost, items[end..]);
      done := done + [part];
      start := end;
    }
    assert items[|items|..] == [];
    assert done + [] == done;
  }

  lemma NothingLeft(cost: FrameCost)
    ensures Greedy(cost, []) == []
  {
  }

  lemma GreedyUnrolled(cost: FrameCost, items: seq<Order>, start: nat, end: nat)
    requires start < end <= |items| && end - start == Grow(cost, items[start..], 1)
    ensures Greedy(cost, items[start..]) == [items[start..end]] + Greedy(cost, items[end..])
  {
    assert items[start..][..end - start] == items[start..end];
    assert items[start..][end - start..] == items[end..];
  }

  lemma FramesSnoc(done: seq<seq<Order>>, part: seq<Order>)
    requires part != [] && forall i :: 0 <= i < |done| ==> done[i] != []
    ensures BatchFrames(done + [part]) == BatchFrames(done) + [BatchFrame(part)]
  {
  }

  /** A frame that tells of a run of orders of its own workspace, within the limits of a batch. */
  predicate TellsOf(cost: FrameCost, f: Frame, items: seq<Order>) {
    && f.event.UpsertMany?
    && 1 <= |f.event.items| <= 64
    && (|f.event.items| > 1 ==> cost(f.event.items) <= 65536)
    && (forall d | d in f.event.items :: exists o | o in items :: o.workspace == f.workspace && d == ToDto(o))
  }

  /** One order is published alone and unbatched, any other number in batches, each to the workspace of its
      orders. */
  lemma PublishedFrames(cost: FrameCost, items: seq<Order>)
    ensures |items| == 1 ==> Published(cost, items) == [Frame(items[0].workspace, Upsert(ToDto(items[0])))]
    ensures |items| != 1 ==> forall f | f in Published(cost, items) :: TellsOf(cost, f, items)
  {
    hide ToDto;
    GreedyIsLegal(cost, items);
    if |items| != 1 {
      var parts := Greedy(cost, items);
      forall f | f in Published(cost, items) ensures TellsOf(cost, f, items) {
        var k :| 0 <= k < |parts| && f == BatchFrame(parts[k]);
        assert Fits(cost, parts[k]);
        FlattenHolds(parts, k);
        forall d | d in f.event.items ensures exists o | o in items :: o.workspace == f.workspace && d == ToDto(o) {
          var i :| 0 <= i < |parts[k]| && d == ToDto(parts[k][i]);
          assert parts[k][i] in parts[k];
        }
      }
    }
  }

  // ---- Round trip ----

  function EventsOf(frames: seq<Frame>): seq<Event> {
    seq(|frames|, i requires 0 <= i < |frames| => frames[i].event)
  }

  function Upserts(items: seq<Order>): seq<Event> {
    Expand(UpsertMany(ToDtos(items)))
  }

  lemma {:induction false} OpenedFrames(parts: seq<seq<Order>>)
    requires forall i :: 0 <= i < |parts| ==> parts[i] != []
    ensures Opened(EventsOf(BatchFrames(parts))) == Upserts(Flatten(parts))
  {
    if parts != [] {
      OpenedFrames(parts[1..]);
      var events := EventsOf(BatchFrames(parts));
      assert events[1..] == EventsOf(BatchFrames(parts[1..]));
      var rest := Flatten(parts[1..]);
      assert Flatten(parts) == parts[0] + rest;
      assert Upserts(parts[0] + rest) == Upserts(parts[0]) + Upserts(rest);
    }
  }

  /** Expanding every frame for a legacy client and concatenating gives each item exactly once,
      in order, whatever the frame cost. */
  lemma BatchingRoundTrip(cost: FrameCost, items: seq<Order>)
    ensures Opened(EventsOf(Published(cost, items))) == Upserts(items)
  {
    GreedyIsLegal(cost, items);
    if |items| == 1 {
      assert EventsOf(Published(cost, items)) == [Upsert(ToDto(items[0]))];
      OpenedOne(Upsert(ToDto(items[0])));
    } else {
      OpenedFrames(Greedy(cost, items));
    }
  }

  // ---- Optimality ----

  /** A part of a batch never costs more than the batch. */
  ghost predicate Monotone(cost: FrameCost) {
    forall s: seq<OrderDto>, i, j :: 0 <= i <= j <= |s| ==> cost(s[i..j]) <= cost(s)
  }

  lemma ShorterFits(cost: FrameCost, part: seq<Order>, i: nat, j: nat)
    requires Monotone(cost) && Fits(cost, part) && i < j <= |part|
    ensures Fits(cost, part[i..j])
  {
    assert ToDtos(part[i..j]) == ToDtos(part)[i..j];
  }

  /** The greedy loop goes at least as far as any batch that fits. */
  lemma {:induction false} GrowReaches(cost: FrameCost, items: seq<Order>, n: nat, k: nat)
    requires Monotone(cost) && 1 <= n <= k <= |items| && Fits(cost, items[..k])
    ensures Grow(cost, items, n) >= k
    decreases k - n
  {
    if n < k {
      ShorterFits(cost, items[..k], 0, n + 1);
      assert items[..k][0..n + 1] == items[..n + 1];
      assert items[..k][n] == items[n];
      GrowReaches(cost, items, n + 1, k);
    }
  }

  /** Greedy on any suffix of the items needs no more frames than any legal split of all of them. */
  lemma {:induction false} GreedyStaysAhead(cost: FrameCost, items: seq<Order>, parts: seq<seq<Order>>, k: nat)
    requires Monotone(cost) && LegalSplit(cost, items, parts) && k <= |items|
    ensures |Greedy(cost, items[k..])| <= |parts|
    decreases |parts|
  {
    hide Fits, Monotone, ToDtos;
    if parts == [] || k == |items| {
      assert items[k..] == [];
    } else {
      var first, tail := parts[0], Flatten(parts[1..]);
      assert items == first + tail;
      assert LegalSplit(cost, tail, parts[1..]);
      if k >= |first| {
        assert items[k..] == tail[k - |first|..];
        GreedyStaysAhead(cost, tail, parts[1..], k - |first|);
      } else {
        var n := FirstStepReaches(cost, first, tail, k);
        assert items[k..] == (first + tail)[k..];
        GreedyStaysAhead(cost, tail, parts[1..], n - (|first| - k));
      }
    }
  }

  /** Started inside a batch that fits, the greedy loop reaches the end of that batch. */
  lemma FirstStepReaches(cost: FrameCost, first: seq<Order>, tail: seq<Order>, k: nat) returns (n: nat)
    requires Monotone(cost) && Fits(cost, first) && k < |first|
    ensures |first| - k <= n <= |first| - k + |tail|
    ensures Greedy(cost, (first + tail)[k..]) == [(first + tail)[k..][..n]] + Greedy(cost, tail[n - (|first| - k)..])
  {
    hide Fits, Monotone, ToDtos, Grow;
    var rest, left := (first + tail)[k..], |first| - k;
    ShorterFits(cost, first, k, |first|);
    assert rest[..left] == first[k..|first|];
    GrowReaches(cost, rest, 1, left);
    n := Grow(cost, rest, 1);
    assert rest[n..] == tail[n - left..];
  }

  /** Greedy batching is optimal: no legal split of the items uses fewer frames. */
  lemma GreedyIsOptimal(cost: FrameCost, items: seq<Order>, parts: seq<seq<Order>>)
    requires Monotone(cost) && LegalSplit(cost, items, parts)
    ensures |Greedy(cost, items)| <= |parts|
  {
    GreedyStaysAhead(cost, items, parts, 0);
    assert items[0..] == items;
  }
}
