/** What the report promises beyond one pass: it does not depend on the order of its input, its
    half hours account for every order placed, and it agrees with the daily query. */
module DailyReports {
  import opened Common
  import opened Calendars
  import opened OrderForms
  import opened Reports

  // ---- Independence of input order ----

  lemma {:induction false} TallyWithout(cal: Calendar, w: Window, m: Measure, orders: seq<ReportOrder>, i: nat)
    requires i < |orders|
    ensures Tally(cal, w, m, orders) ==
            Tally(cal, w, m, orders[..i] + orders[i + 1..]) + (if Counts(cal, w, m, orders[i]) then 1 else 0)
    decreases |orders|
  {
    hide Counts, Tally;
    var n := |orders| - 1;
    var front, last := orders[..n], orders[n];
    assert orders == front + [last];
    TallySnoc(cal, w, m, front, last);
    var rest := orders[..i] + orders[i + 1..];
    if i == n {
      assert rest == front;
    } else {
      var less := front[..i] + front[i + 1..];
      TallyWithout(cal, w, m, front, i);
      assert rest == less + [last];
      TallySnoc(cal, w, m, less, last);
    }
  }

  lemma {:induction false} SumWithout(w: Window, q: Quantity, orders: seq<ReportOrder>, i: nat)
    requires i < |orders|
    ensures Sum(w, q, orders) == Sum(w, q, orders[..i] + orders[i + 1..]) + Amount(w, q, orders[i])
    decreases |orders|
  {
    hide Amount, Sum;
    var n := |orders| - 1;
    var front, last := orders[..n], orders[n];
    assert orders == front + [last];
    SumSnoc(w, q, front, last);
    var rest := orders[..i] + orders[i + 1..];
    if i == n {
      assert rest == front;
    } else {
      var less := front[..i] + front[i + 1..];
      SumWithout(w, q, front, i);
      assert rest == less + [last];
      SumSnoc(w, q, less, last);
    }
  }

  /** Removing the last order of one list and an equal one from the other keeps them permutations. */
  lemma PeelOne(a: seq<ReportOrder>, b: seq<ReportOrder>) returns (i: nat)
    requires a != [] && multiset(a) == multiset(b)
    ensures i < |b| && b[i] == a[|a| - 1]
    ensures multiset(a[..|a| - 1]) == multiset(b[..i] + b[i + 1..])
  {
    var x := a[|a| - 1];
    assert a == a[..|a| - 1] + [x];
    assert x in multiset(a);
    assert x in b;
    i :| 0 <= i < |b| && b[i] == x;
    assert b == b[..i] + [x] + b[i + 1..];
    CancelOne(multiset(a[..|a| - 1]), multiset(b[..i] + b[i + 1..]), x);
  }

  lemma CancelOne(m: multiset<ReportOrder>, n: multiset<ReportOrder>, x: ReportOrder)
    ensures m + multiset{x} == n + multiset{x} ==> m == n
  {
    assert (m + multiset{x}) - multiset{x} == m;
    assert (n + multiset{x}) - multiset{x} == n;
  }

  lemma {:induction false} TallyIgnoresOrder(cal: Calendar, w: Window, m: Measure,
                                           a: seq<ReportOrder>, b: seq<ReportOrder>)
    requires multiset(a) == multiset(b)
    ensures Tally(cal, w, m, a) == Tally(cal, w, m, b)
    decreases |a|
  {
    hide Counts;
    if a == [] {
      assert |multiset(b)| == 0;
    } else {
      var i := PeelOne(a, b);
      TallyWithout(cal, w, m, b, i);
      TallyIgnoresOrder(cal, w, m, a[..|a| - 1], b[..i] + b[i + 1..]);
    }
  }

  lemma {:induction false} SumIgnoresOrder(w: Window, q: Quantity, a: seq<ReportOrder>, b: seq<ReportOrder>)
    requires multiset(a) == multiset(b)
    ensures Sum(w, q, a) == Sum(w, q, b)
    decreases |a|
  {
    hide Amount;
    if a == [] {
      assert |multiset(b)| == 0;
    } else {
      var i := PeelOne(a, b);
      SumWithout(w, q, b, i);
      SumIgnoresOrder(w, q, a[..|a| - 1], b[..i] + b[i + 1..]);
    }
  }

  /** The report depends on which orders it is given, not on their order: every counter is the
      same, hence so is the peak list. */
  lemma ReportIgnoresOrder(cal: Calendar, w: Window, a: seq<ReportOrder>, b: seq<ReportOrder>)
    requires multiset(a) == multiset(b)
    ensures TotalsOf(cal, w, a) == TotalsOf(cal, w, b)
    ensures forall p, q :: TopFive(PeakCounts(cal, w, a), p) && TopFive(PeakCounts(cal, w, b), q) ==> p == q
  {
    hide TopFive;
    forall m: Measure ensures Tally(cal, w, m, a) == Tally(cal, w, m, b) { TallyIgnoresOrder(cal, w, m, a, b); }
    forall q: Quantity ensures Sum(w, q, a) == Sum(w, q, b) { SumIgnoresOrder(w, q, a, b); }
    assert PeakCounts(cal, w, a) == PeakCounts(cal, w, b);
    forall p, q | TopFive(PeakCounts(cal, w, a), p) && TopFive(PeakCounts(cal, w, b), q) ensures p == q {
      TopFiveIsUnique(PeakCounts(cal, w, a), p, q);
    }
  }

  // ---- The half hours account for everything ----

  function Total(s: seq<nat>): nat {
    if s == [] then 0 else Total(s[..|s| - 1]) + s[|s| - 1]
  }

  lemma {:induction false} TotalBumped(s: seq<nat>, t: seq<nat>, b: nat)
    requires |s| == |t| && b < |s|
    requires forall i :: 0 <= i < |s| ==> t[i] == s[i] + (if i == b then 1 else 0)
    ensures Total(t) == Total(s) + 1
  {
    var n := |s| - 1;
    if b == n {
      assert s[..n] == t[..n];
    } else {
      TotalBumped(s[..n], t[..n], b);
    }
  }

  lemma {:induction false} TotalZeros(k: nat)
    ensures Total(seq(k, _ => 0)) == 0
  {
    var z: seq<nat> := seq(k, _ => 0);
    if k > 0 {
      TotalZeros(k - 1);
      assert z[..k - 1] == seq(k - 1, _ => 0);
    }
  }

  /** The 48 half hours together count every validly timed order both placed and completed in the
      window, once each. */
  lemma {:induction false} BucketsAccountForAll(cal: Calendar, w: Window, orders: seq<ReportOrder>)
    requires cal.ClockInRange()
    ensures Total(PeakCounts(cal, w, orders)) == Tally(cal, w, Placed, orders)
  {
    hide cal.ClockInRange, BucketOf, Counts, Total;
    if orders == [] {
      TotalZeros(BUCKETS);
      assert PeakCounts(cal, w, orders) == seq(BUCKETS, _ => 0);
    } else {
      var front, o := orders[..|orders| - 1], orders[|orders| - 1];
      assert orders == front + [o];
      BucketsAccountForAll(cal, w, front);
      var before, after := PeakCounts(cal, w, front), PeakCounts(cal, w, orders);
      forall b | 0 <= b < BUCKETS ensures after[b] == before[b] + (if Counts(cal, w, PlacedIn(b), o) then 1 else 0) {
        TallySnoc(cal, w, PlacedIn(b), front, o);
      }
      TallySnoc(cal, w, Placed, front, o);
      OneBucket(cal, w, o, before, after);
    }
  }

  /** An order placed in the window raises exactly one half hour. */
  lemma OneBucket(cal: Calendar, w: Window, o: ReportOrder, before: seq<nat>, after: seq<nat>)
    requires cal.ClockInRange() && |before| == |after| == BUCKETS
    requires forall b :: 0 <= b < BUCKETS ==> after[b] == before[b] + (if Counts(cal, w, PlacedIn(b), o) then 1 else 0)
    ensures Total(after) == Total(before) + (if Counts(cal, w, Placed, o) then 1 else 0)
  {
    hide cal.ClockInRange, BucketOf;
    if Counts(cal, w, Placed, o) {
      BucketInRange(cal, o);
      TotalBumped(before, after, BucketOf(cal, o));
    } else {
      assert before == after;
    }
  }

  // ---- The counters add up ----

  /** Each completed order is of exactly one staple category and at most one size category, and the union
      of the two customizations counts an order with both only once. */
  lemma CountsAddUp(cal: Calendar, w: Window, orders: seq<ReportOrder>)
    ensures var b, c := BasicsOf(cal, w, orders), ChoicesOf(cal, w, orders);
            && c.staples[0] + c.staples[1] + c.staples[2] + c.staples[3] + c.noStaple + c.unknownStaple == b.completed
            && b.small + b.medium + b.large == b.standardSize && b.standardSize + b.customSize <= b.completed
            && b.takeout <= b.completed && c.customized <= b.completed
            && c.leanMeatOnly <= c.customized && c.noIntestine <= c.customized
            && c.customized <= c.leanMeatOnly + c.noIntestine
  {
    hide Tally;
    StaplesAddUp(cal, w, orders);
    SizesAddUp(cal, w, orders);
    CustomizationsAddUp(cal, w, orders);
  }

  lemma {:induction false} StaplesAddUp(cal: Calendar, w: Window, orders: seq<ReportOrder>)
    ensures Tally(cal, w, StapleIs(RICE_SHEET), orders) + Tally(cal, w, StapleIs(RICE_VERMICELLI), orders)
            + Tally(cal, w, StapleIs(YI_NOODLE), orders) + Tally(cal, w, StapleIs(RICE), orders)
            + Tally(cal, w, NoStaple, orders) + Tally(cal, w, UnknownStaple, orders)
            == Tally(cal, w, AllCompleted, orders)
  {
    hide InWindow;
    if orders != [] { StaplesAddUp(cal, w, orders[..|orders| - 1]); }
  }

  lemma {:induction false} SizesAddUp(cal: Calendar, w: Window, orders: seq<ReportOrder>)
    ensures Tally(cal, w, SizeIs(SMALL), orders) + Tally(cal, w, SizeIs(MEDIUM), orders)
            + Tally(cal, w, SizeIs(LARGE), orders)
            == Tally(cal, w, StandardSize, orders)
    ensures Tally(cal, w, StandardSize, orders) + Tally(cal, w, CustomSize, orders) <=
            Tally(cal, w, AllCompleted, orders)
    ensures Tally(cal, w, Takeout, orders) <= Tally(cal, w, AllCompleted, orders)
  {
    hide InWindow;
    if orders != [] { SizesAddUp(cal, w, orders[..|orders| - 1]); }
  }

  lemma {:induction false} CustomizationsAddUp(cal: Calendar, w: Window, orders: seq<ReportOrder>)
    ensures Tally(cal, w, LeanMeatOnly, orders) <= Tally(cal, w, Customized, orders)
    ensures Tally(cal, w, NoIntestine, orders) <= Tally(cal, w, Customized, orders)
    ensures Tally(cal, w, Customized, orders) <=
            Tally(cal, w, LeanMeatOnly, orders) + Tally(cal, w, NoIntestine, orders)
    ensures Tally(cal, w, Customized, orders) <= Tally(cal, w, AllCompleted, orders)
  {
    hide InWindow, OnlyLean, WithoutIntestine;
    if orders != [] { CustomizationsAddUp(cal, w, orders[..|orders| - 1]); }
  }

  predicate IsShare(r: RatioMetric) { 0.0 <= r.ratio <= 1.0 }

  /** Every ratio of a report lies between zero and one, and the ratios of the standard sizes add up to
      one as soon as there is an order of standard size. */
  lemma RatesAreShares(cal: Calendar, w: Window, orders: seq<ReportOrder>)
    ensures var r, b := RatesOf(TotalsOf(cal, w, orders)), BasicsOf(cal, w, orders);
            && IsShare(r.takeout) && IsShare(r.small) && IsShare(r.medium) && IsShare(r.large)
            && IsShare(r.leanMeatOnly) && IsShare(r.noIntestine) && IsShare(r.customized)
            && (b.standardSize > 0 ==> r.small.ratio + r.medium.ratio + r.large.ratio == 1.0)
  {
    hide Tally, Sum, Rounded;
    CountsAddUp(cal, w, orders);
    var b, c := BasicsOf(cal, w, orders), ChoicesOf(cal, w, orders);
    RatioIsShare(b.takeout, b.completed);
    RatioIsShare(b.small, b.standardSize);
    RatioIsShare(b.medium, b.standardSize);
    RatioIsShare(b.large, b.standardSize);
    RatioIsShare(c.leanMeatOnly, b.completed);
    RatioIsShare(c.noIntestine, b.completed);
    RatioIsShare(c.customized, b.completed);
    if b.standardSize > 0 { SharesAddUp(b.small, b.medium, b.large); }
  }

  lemma RatioIsShare(n: nat, d: nat)
    requires n <= d
    ensures IsShare(Ratio(n, d))
  {
    if d > 0 { assert (n as real / d as real) * d as real == n as real; }
  }

  lemma SharesAddUp(x: nat, y: nat, z: nat)
    requires x + y + z > 0
    ensures var d := x + y + z; Ratio(x, d).ratio + Ratio(y, d).ratio + Ratio(z, d).ratio == 1.0
  {
    var d := (x + y + z) as real;
    assert x as real / d + y as real / d + z as real / d == (x as real + y as real + z as real) / d;
  }

  // ---- Reading the completed orders ----

  /** CompletedOrders selects the rows of the window; the report's own check is then redundant. */
  function CompletedOrders(orders: seq<ReportOrder>, w: Window): seq<ReportOrder> {
    if orders == [] then []
    else
      CompletedOrders(orders[..|orders| - 1], w)
      + (if InWindow(w, orders[|orders| - 1]) then [orders[|orders| - 1]] else [])
  }

  lemma CompletedLast(orders: seq<ReportOrder>, w: Window)
    requires orders != []
    ensures var front, o := orders[..|orders| - 1], orders[|orders| - 1];
            && orders == front + [o]
            && CompletedOrders(orders, w) ==
               if InWindow(w, o) then CompletedOrders(front, w) + [o] else CompletedOrders(front, w)
  {
    hide InWindow;
  }

  lemma {:induction false} SelectionKeepsTally(cal: Calendar, w: Window, m: Measure, orders: seq<ReportOrder>)
    ensures Tally(cal, w, m, CompletedOrders(orders, w)) == Tally(cal, w, m, orders)
  {
    hide Counts, InWindow;
    if orders != [] {
      var front, o := orders[..|orders| - 1], orders[|orders| - 1];
      hide Tally, CompletedOrders;
      SelectionKeepsTally(cal, w, m, front);
      CompletedLast(orders, w);
      TallySnoc(cal, w, m, front, o);
      TallySnoc(cal, w, m, CompletedOrders(front, w), o);
      OnlyInWindowCounts(cal, w, m, o);
    }
  }

  lemma {:induction false} SelectionKeepsSum(w: Window, q: Quantity, orders: seq<ReportOrder>)
    ensures Sum(w, q, CompletedOrders(orders, w)) == Sum(w, q, orders)
  {
    hide InWindow;
    if orders != [] {
      var front, o := orders[..|orders| - 1], orders[|orders| - 1];
      hide Sum, CompletedOrders;
      SelectionKeepsSum(w, q, front);
      CompletedLast(orders, w);
      SumSnoc(w, q, front, o);
      SumSnoc(w, q, CompletedOrders(front, w), o);
    }
  }

  lemma OnlyInWindowCounts(cal: Calendar, w: Window, m: Measure, o: ReportOrder)
    ensures Counts(cal, w, m, o) ==> InWindow(w, o)
  {
  }

  // ---- The daily query ----

  datatype DailyRow = DailyRow(date: int, orderCount: nat, totalPrice: int)

  /** One group of the daily query: the orders of the window completed on a date. */
  predicate InGroup(cal: Calendar, w: Window, date: int, o: ReportOrder) {
    InWindow(w, o) && cal.dateOf(o.completedAt.value) == date
  }

  function GroupCount(cal: Calendar, w: Window, date: int, orders: seq<ReportOrder>): nat {
    if orders == [] then 0
    else
      GroupCount(cal, w, date, orders[..|orders| - 1]) + (if InGroup(cal, w, date, orders[|orders| - 1]) then 1 else 0)
  }

  function GroupSum(cal: Calendar, w: Window, date: int, orders: seq<ReportOrder>): int {
    if orders == [] then 0
    else
      GroupSum(cal, w, date, orders[..|orders| - 1])
      + (if InGroup(cal, w, date, orders[|orders| - 1]) then orders[|orders| - 1].totalPrice else 0)
  }

  /** The series of dates from the window's first instant to its last, latest first, left-joined
      to the groups. */
  function DailyRows(cal: Calendar, w: Window, orders: seq<ReportOrder>): seq<DailyRow> {
    var first, last := cal.dateOf(w.startAt), cal.dateOf(w.endAt - 1);
    seq(if last < first then 0 else last - first + 1,
        i => DailyRow(last - i, GroupCount(cal, w, last - i, orders), GroupSum(cal, w, last - i, orders)))
  }

  function BusinessDateCount(cal: Calendar, from: Instant, to: Instant): int {
    cal.dateOf(to) - cal.dateOf(from) + 1
  }

  const MAX_DAYS := 366

  datatype StatsError = ReversedRange | RangeTooLong | OutOfRange

  /** The daily query casts each group's count and sum to a 32-bit integer. */
  predicate FitsInt32(n: int) { -MAX_INT32 - 1 <= n <= MAX_INT32 }

  /** The daily endpoint. */
  function Daily(cal: Calendar, orders: seq<ReportOrder>, from: Instant, to: Instant):
    Result<seq<DailyRow>, StatsError> {
    match DailyWindow(cal, from, to)
    case None => Failure(ReversedRange)
    case Some(w) =>
      if BusinessDateCount(cal, from, to) > MAX_DAYS then Failure(RangeTooLong)
      else
        var rows := DailyRows(cal, w, orders);
        if forall i :: 0 <= i < |rows| ==> FitsInt32(rows[i].orderCount) && FitsInt32(rows[i].totalPrice)
        then Success(rows)
        else Failure(OutOfRange)
  }

  /** The window of one business date. */
  function Day(cal: Calendar, d: int): Window {
    Window(cal.DayStart(d), cal.NextDay(cal.DayStart(d)))
  }

  /** The window of the dates from `d` to `e`. */
  function Days(cal: Calendar, d: int, e: int): Window {
    Window(cal.DayStart(d), cal.NextDay(cal.DayStart(e)))
  }

  /** Where the windows of the dates from `d` to `e` are those dates, as far as the whole window goes:
      it begins on `d` and ends on `e`, and in between each date's start is its first instant and the end
      of the window before. */
  predicate AgreesOn(cal: Calendar, d: int, e: int) {
    && cal.dateOf(Days(cal, d, e).startAt) == d
    && cal.dateOf(Days(cal, d, e).endAt - 1) == e
    && (forall x :: d < x <= e ==> BoundaryOk(cal, x))
  }

  predicate BoundaryOk(cal: Calendar, x: int) {
    cal.FirstOf(cal.DayStart(x), x) && Day(cal, x - 1).endAt == cal.DayStart(x)
  }

  /** In zones whose midnights are all first instants this is so everywhere. */
  lemma ValidAgrees(cal: Calendar, d: int, e: int)
    requires cal.Valid() && d <= e
    ensures AgreesOn(cal, d, e)
  {
    hide cal.Valid;
    MidnightIsFirst(cal, e + 1);
    NextMidnight(cal, d);
    NextMidnight(cal, e);
    forall x | d < x <= e ensures BoundaryOk(cal, x) {
      MidnightIsFirst(cal, x);
      NextMidnight(cal, x - 1);
    }
  }

  lemma MidnightIsFirst(cal: Calendar, d: int)
    requires cal.Valid()
    ensures cal.FirstOf(cal.DayStart(d), d)
  {
  }

  lemma DailyWindowIsDays(cal: Calendar, from: Instant, to: Instant)
    requires cal.Regular()
    ensures DailyWindow(cal, from, to) ==
            if cal.dateOf(to) < cal.dateOf(from) then None else Some(Days(cal, cal.dateOf(from), cal.dateOf(to)))
  {
    var d, e := cal.dateOf(from), cal.dateOf(to);
    assert d < e ==> cal.DayStart(d) < cal.DayStart(e);
    assert e < d ==> cal.DayStart(e) < cal.DayStart(d);
  }

  /** The start of a date inside the range separates the earlier dates from the others. */
  lemma BoundarySeparates(cal: Calendar, d: int, e: int, x: int, t: Instant)
    requires cal.Monotone() && AgreesOn(cal, d, e) && d < x <= e
    ensures t < cal.DayStart(x) <==> cal.dateOf(t) < x
    ensures Day(cal, x - 1).endAt == cal.DayStart(x)
  {
    assert BoundaryOk(cal, x);
    BeforeDayStart(cal, t, x);
  }

  /** Day windows tile the range: an instant of the whole window is in exactly one day's window, that of
      its own date. */
  lemma DaysTile(cal: Calendar, d: int, e: int, x: int, o: ReportOrder)
    requires cal.Monotone() && AgreesOn(cal, d, e) && d <= x <= e
    ensures InWindow(Day(cal, x), o) <==> InGroup(cal, Days(cal, d, e), x, o)
    ensures InWindow(Days(cal, d, e), o) ==> d <= cal.dateOf(o.completedAt.value) <= e
  {
    if o.completedAt.Some? {
      var t, first, last := o.completedAt.value, Days(cal, d, e).startAt, Days(cal, d, e).endAt - 1;
      assert first <= t ==> d <= cal.dateOf(t);
      assert t <= last ==> cal.dateOf(t) <= e;
      assert last < t ==> e <= cal.dateOf(t);
      assert t < first ==> cal.dateOf(t) <= d;
      if d < x { BoundarySeparates(cal, d, e, x, t); }
      if x < e { BoundarySeparates(cal, d, e, x + 1, t); }
    }
  }

  lemma {:induction false} GroupIsDay(cal: Calendar, d: int, e: int, x: int, orders: seq<ReportOrder>)
    requires cal.Monotone() && AgreesOn(cal, d, e) && d <= x <= e
    ensures GroupCount(cal, Days(cal, d, e), x, orders) == Tally(cal, Day(cal, x), AllCompleted, orders)
    ensures GroupSum(cal, Days(cal, d, e), x, orders) == Sum(Day(cal, x), Revenue, orders)
  {
    hide AgreesOn, InGroup, InWindow;
    if orders != [] {
      GroupIsDay(cal, d, e, x, orders[..|orders| - 1]);
      DaysTile(cal, d, e, x, orders[|orders| - 1]);
    }
  }

  lemma {:induction false} WindowsAdd(cal: Calendar, d: int, e: int, orders: seq<ReportOrder>)
    requires cal.Monotone() && AgreesOn(cal, d, e + 1) && d <= e
    ensures Tally(cal, Days(cal, d, e + 1), AllCompleted, orders) ==
            Tally(cal, Days(cal, d, e), AllCompleted, orders) + Tally(cal, Day(cal, e + 1), AllCompleted, orders)
    ensures Sum(Days(cal, d, e + 1), Revenue, orders) ==
            Sum(Days(cal, d, e), Revenue, orders) + Sum(Day(cal, e + 1), Revenue, orders)
  {
    hide AgreesOn, InGroup, InWindow;
    if orders != [] {
      var o := orders[|orders| - 1];
      WindowsAdd(cal, d, e, orders[..|orders| - 1]);
      OneMoreDay(cal, d, e, o);
    }
  }

  lemma OneMoreDay(cal: Calendar, d: int, e: int, o: ReportOrder)
    requires cal.Monotone() && AgreesOn(cal, d, e + 1) && d <= e
    ensures InWindow(Days(cal, d, e + 1), o) <==> InWindow(Days(cal, d, e), o) || InWindow(Day(cal, e + 1), o)
    ensures !(InWindow(Days(cal, d, e), o) && InWindow(Day(cal, e + 1), o))
  {
    var start, last := cal.DayStart(e + 1), Days(cal, d, e + 1).endAt - 1;
    BoundarySeparates(cal, d, e + 1, e + 1, Days(cal, d, e + 1).startAt);
    BoundarySeparates(cal, d, e + 1, e + 1, last);
  }

  lemma FewerDaysAgree(cal: Calendar, d: int, e: int)
    requires AgreesOn(cal, d, e + 1) && d <= e
    ensures AgreesOn(cal, d, e)
  {
    assert BoundaryOk(cal, e + 1);
  }

  function CountOf(rows: seq<DailyRow>): nat {
    if rows == [] then 0 else rows[0].orderCount + CountOf(rows[1..])
  }

  function PriceOf(rows: seq<DailyRow>): int {
    if rows == [] then 0 else rows[0].totalPrice + PriceOf(rows[1..])
  }

  /** Counts and revenue of the report on one date, aggregated from the orders it reads. */
  function DayReport(cal: Calendar, orders: seq<ReportOrder>, x: int): Basics {
    TotalsOf(cal, Day(cal, x), CompletedOrders(orders, Day(cal, x))).basics
  }

  /** The same for the dates from `d` to `e` taken together. */
  function RangeReport(cal: Calendar, orders: seq<ReportOrder>, d: int, e: int): Basics {
    TotalsOf(cal, Days(cal, d, e), CompletedOrders(orders, Days(cal, d, e))).basics
  }

  lemma ReportMeaning(cal: Calendar, orders: seq<ReportOrder>, w: Window)
    ensures var basics := TotalsOf(cal, w, CompletedOrders(orders, w)).basics;
            basics.completed == Tally(cal, w, AllCompleted, orders) && basics.revenue == Sum(w, Revenue, orders)
  {
    hide Tally, Sum, CompletedOrders;
    SelectionKeepsTally(cal, w, AllCompleted, orders);
    SelectionKeepsSum(w, Revenue, orders);
  }

  /** The rows of the daily query are the reports of the dates. */
  predicate RowsMatch(cal: Calendar, orders: seq<ReportOrder>, d: int, e: int) {
    var rows := DailyRows(cal, Days(cal, d, e), orders);
    && |rows| == e - d + 1
    && (forall i :: 0 <= i < |rows| ==> rows[i] == ReportRow(cal, orders, e - i))
  }

  /** A row as the report of its date would have it. */
  function ReportRow(cal: Calendar, orders: seq<ReportOrder>, x: int): DailyRow {
    DailyRow(x, DayReport(cal, orders, x).completed, DayReport(cal, orders, x).revenue)
  }

  lemma RowsAreReports(cal: Calendar, orders: seq<ReportOrder>, d: int, e: int)
    requires cal.Monotone() && AgreesOn(cal, d, e) && d <= e
    ensures RowsMatch(cal, orders, d, e)
  {
    hide Tally, Sum, GroupCount, GroupSum, CompletedOrders, TotalsOf, Days, Day, BoundaryOk;
    var rows := DailyRows(cal, Days(cal, d, e), orders);
    forall i | 0 <= i < |rows| ensures rows[i] == ReportRow(cal, orders, e - i) {
      GroupIsDay(cal, d, e, e - i, orders);
      ReportMeaning(cal, orders, Day(cal, e - i));
    }
  }

  lemma {:induction false} ReportsAdd(cal: Calendar, orders: seq<ReportOrder>, rows: seq<DailyRow>, d: int, e: int)
    requires cal.Monotone() && AgreesOn(cal, d, e) && d <= e && |rows| == e - d + 1
    requires forall i :: 0 <= i < |rows| ==> rows[i] == ReportRow(cal, orders, e - i)
    ensures CountOf(rows) == RangeReport(cal, orders, d, e).completed
    ensures PriceOf(rows) == RangeReport(cal, orders, d, e).revenue
    decreases e - d
  {
    hide AgreesOn, Tally, Sum, CompletedOrders, TotalsOf;
    ReportMeaning(cal, orders, Day(cal, e));
    ReportMeaning(cal, orders, Days(cal, d, e));
    if d < e {
      FewerDaysAgree(cal, d, e - 1);
      ReportsAdd(cal, orders, rows[1..], d, e - 1);
      ReportMeaning(cal, orders, Days(cal, d, e - 1));
      WindowsAdd(cal, d, e - 1, orders);
    } else {
      assert rows[1..] == [];
      assert Days(cal, d, d) == Day(cal, d);
    }
  }

  /** Daily agrees with Report, for every range on which the windows are the dates. The range is refused
      exactly when it is reversed, spans more than 366 dates, or has a date whose report does not fit
      32-bit integers. Otherwise the daily endpoint gives one row per business date, latest first,
      numbering the dates of the range; each row has the count and revenue of that date's report; and
      the rows add up to the report over the whole range. */
  lemma DailyAgreesWithReport(cal: Calendar, orders: seq<ReportOrder>, from: Instant, to: Instant)
    requires cal.Regular()
    ensures var d, e := cal.dateOf(from), cal.dateOf(to);
            var n := e - d + 1;
            var daily := Daily(cal, orders, from, to);
            && (n < 1 <==> daily == Failure(ReversedRange))
            && (n > 366 <==> daily == Failure(RangeTooLong))
            && (1 <= n <= 366 && AgreesOn(cal, d, e) ==>
                  && (daily.Success? <==> forall x | d <= x <= e ::
                        && DayReport(cal, orders, x).completed < 0x8000_0000
                        && -0x8000_0000 <= DayReport(cal, orders, x).revenue < 0x8000_0000)
                  && (daily.Success? ==>
                        var rows := daily.value;
                        && |rows| == n
                        && (forall i :: 0 <= i < n ==> rows[i] == ReportRow(cal, orders, e - i))
                        && CountOf(rows) == RangeReport(cal, orders, d, e).completed
                        && PriceOf(rows) == RangeReport(cal, orders, d, e).revenue))
  {
    hide AgreesOn, DayReport, RangeReport, DailyRows, Days, FitsInt32;
    DailyWindowIsDays(cal, from, to);
    var n, d, e := BusinessDateCount(cal, from, to), cal.dateOf(from), cal.dateOf(to);
    if 1 <= n <= MAX_DAYS && AgreesOn(cal, d, e) {
      RowsAreReports(cal, orders, d, e);
      var rows := DailyRows(cal, Days(cal, d, e), orders);
      ReportsAdd(cal, orders, rows, d, e);
      forall x | d <= x <= e
        ensures rows[e - x] == DailyRow(x, DayReport(cal, orders, x).completed, DayReport(cal, orders, x).revenue)
      {
      }
      FitsIffReportsFit(cal, orders, rows, d, e);
    }
  }

  lemma FitsIffReportsFit(cal: Calendar, orders: seq<ReportOrder>, rows: seq<DailyRow>, d: int, e: int)
    requires d <= e && |rows| == e - d + 1
    requires forall i :: 0 <= i < |rows| ==> rows[i] == ReportRow(cal, orders, e - i)
    ensures (forall i :: 0 <= i < |rows| ==> FitsInt32(rows[i].orderCount) && FitsInt32(rows[i].totalPrice))
       <==> forall x | d <= x <= e ::
              && DayReport(cal, orders, x).completed < 0x8000_0000
              && -0x8000_0000 <= DayReport(cal, orders, x).revenue < 0x8000_0000
  {
    hide DayReport;
    if forall i :: 0 <= i < |rows| ==> FitsInt32(rows[i].orderCount) && FitsInt32(rows[i].totalPrice) {
      forall x | d <= x <= e
        ensures DayReport(cal, orders, x).completed < 0x8000_0000
        ensures -0x8000_0000 <= DayReport(cal, orders, x).revenue < 0x8000_0000
      {
        assert rows[e - x] == ReportRow(cal, orders, x);
      }
    }
    if forall x | d <= x <= e :: DayReport(cal, orders, x).completed < 0x8000_0000
                                 && -0x8000_0000 <= DayReport(cal, orders, x).revenue < 0x8000_0000 {
      forall i | 0 <= i < |rows| ensures FitsInt32(rows[i].orderCount) && FitsInt32(rows[i].totalPrice) {
        assert d <= e - i <= e;
        assert rows[i] == ReportRow(cal, orders, e - i);
      }
    }
  }

  // ---- Exactly when ----

  /** An order of which only the completion time matters. */
  function CompletedOrder(t: Instant): ReportOrder {
    ReportOrder(1, None, SMALL, 0, DINE_IN, [], t, Some(t))
  }

  /** The window of a date contains exactly the orders completed on that date if and only if it runs from
      the first instant of the date to the first instant of the next. */
  lemma WindowIsDateIff(cal: Calendar, d: int)
    requires cal.Regular()
    ensures (forall o :: InWindow(Day(cal, d), o) <==> o.completedAt.Some? && cal.dateOf(o.completedAt.value) == d)
       <==> cal.FirstOf(Day(cal, d).startAt, d) && cal.FirstOf(Day(cal, d).endAt, d + 1)
  {
    var start, end := Day(cal, d).startAt, Day(cal, d).endAt;
    if cal.FirstOf(start, d) && cal.FirstOf(end, d + 1) {
      forall o ensures InWindow(Day(cal, d), o) <==> o.completedAt.Some? && cal.dateOf(o.completedAt.value) == d {
        if o.completedAt.Some? {
          FirstSeparates(cal, start, d, o.completedAt.value);
          FirstSeparates(cal, end, d + 1, o.completedAt.value);
        }
      }
    }
    if forall o :: InWindow(Day(cal, d), o) <==> o.completedAt.Some? && cal.dateOf(o.completedAt.value) == d {
      forall t ensures start <= t < end <==> cal.dateOf(t) == d {
        assert InWindow(Day(cal, d), CompletedOrder(t)) <==> start <= t < end;
      }
      WindowEnds(cal, start, end, d);
    }
  }

  lemma FirstSeparates(cal: Calendar, first: Instant, d: int, t: Instant)
    requires cal.Monotone() && cal.FirstOf(first, d)
    ensures t < first <==> cal.dateOf(t) < d
  {
    if t < first { assert cal.dateOf(t) <= cal.dateOf(first - 1); }
  }

  lemma WindowEnds(cal: Calendar, start: Instant, end: Instant, d: int)
    requires cal.Regular() && forall t :: start <= t < end <==> cal.dateOf(t) == d
    ensures cal.FirstOf(start, d) && cal.FirstOf(end, d + 1)
  {
    var noon := cal.at(d, NOON);
    assert cal.dateOf(noon) == d;
    assert start <= noon < end;
    assert cal.dateOf(start) == d && cal.dateOf(end - 1) == d;
    assert cal.dateOf(start - 1) != d && cal.dateOf(end) != d;
  }

  /** The daily rows are the reports of the dates, whatever the orders, if and only if the windows of the
      range are its dates. */
  lemma DailyAgreesIff(cal: Calendar, d: int, e: int)
    requires cal.Regular() && d <= e
    ensures (forall orders :: RowsMatch(cal, orders, d, e)) <==> AgreesOn(cal, d, e)
  {
    hide AgreesOn, RowsMatch;
    if AgreesOn(cal, d, e) {
      forall orders ensures RowsMatch(cal, orders, d, e) { RowsAreReports(cal, orders, d, e); }
    }
    if forall orders :: RowsMatch(cal, orders, d, e) {
      MatchingEnds(cal, d, e);
      forall x | d < x <= e ensures BoundaryOk(cal, x) { MatchingBoundary(cal, d, e, x); }
      AgreesFrom(cal, d, e);
    }
  }

  lemma AgreesFrom(cal: Calendar, d: int, e: int)
    requires cal.dateOf(Days(cal, d, e).startAt) == d && cal.dateOf(Days(cal, d, e).endAt - 1) == e
    requires forall x :: d < x <= e ==> BoundaryOk(cal, x)
    ensures AgreesOn(cal, d, e)
  {
  }

  lemma MatchingEnds(cal: Calendar, d: int, e: int)
    requires d <= e && RowsMatch(cal, [], d, e)
    ensures cal.dateOf(Days(cal, d, e).startAt) == d && cal.dateOf(Days(cal, d, e).endAt - 1) == e
  {
    hide Days;
    assert DailyRows(cal, Days(cal, d, e), [])[0].date == e;
  }

  /** What one order shows about the windows. */
  lemma MatchingInstant(cal: Calendar, d: int, e: int, x: int, t: Instant)
    requires d <= x <= e && RowsMatch(cal, [CompletedOrder(t)], d, e)
    ensures InWindow(Day(cal, x), CompletedOrder(t)) <==> InGroup(cal, Days(cal, d, e), x, CompletedOrder(t))
  {
    hide Days, Day, InWindow, InGroup, GroupCount, Tally;
    var o := CompletedOrder(t);
    var rows := DailyRows(cal, Days(cal, d, e), [o]);
    assert rows[e - x] == ReportRow(cal, [o], x);
    ReportMeaning(cal, [o], Day(cal, x));
    OneCounted(cal, Day(cal, x), o);
    OneGrouped(cal, Days(cal, d, e), x, o);
  }

  lemma OneCounted(cal: Calendar, w: Window, o: ReportOrder)
    ensures Tally(cal, w, AllCompleted, [o]) == if InWindow(w, o) then 1 else 0
  {
    hide InWindow;
    assert [o][..0] == [];
  }

  lemma OneGrouped(cal: Calendar, w: Window, x: int, o: ReportOrder)
    ensures GroupCount(cal, w, x, [o]) == if InGroup(cal, w, x, o) then 1 else 0
  {
    hide InGroup;
    assert [o][..0] == [];
  }

  lemma MatchingBoundary(cal: Calendar, d: int, e: int, x: int)
    requires cal.Regular() && d < x <= e && forall orders :: RowsMatch(cal, orders, d, e)
    ensures BoundaryOk(cal, x)
  {
    hide RowsMatch;
    var start, end, s := Days(cal, d, e).startAt, Days(cal, d, e).endAt, cal.DayStart(x);
    MatchingEnds(cal, d, e);
    var inside := if x == e then end - 1 else cal.at(x, NOON);
    assert cal.dateOf(inside) == x && start <= inside < end;
    MatchingInstant(cal, d, e, x, inside);
    MatchingInstant(cal, d, e, x, s);
    MatchingInstant(cal, d, e, x, s - 1);
    assert cal.dateOf(s) == x && start <= s - 1 < end;
    assert cal.dateOf(s - 1) == x - 1;
    MatchingInstant(cal, d, e, x - 1, s - 1);
    MatchingInstant(cal, d, e, x - 1, s);
  }

  /** Where the two disagree: the report adds up revenue in 64 bits, the daily query casts it to
      32. Two orders at the largest price a row can hold, completed on one date, have a report
      and no daily rows. */
  lemma DailyRefusesWhatReportAdds(cal: Calendar, o: ReportOrder)
    requires cal.Valid() && o.completedAt.Some? && o.totalPrice == MAX_INT32
    ensures var t := o.completedAt.value;
            && DayReport(cal, [o, o], cal.dateOf(t)).revenue == 2 * MAX_INT32
            && Daily(cal, [o, o], t, t) == Failure(OutOfRange)
  {
    hide Daily, DayReport, AgreesOn;
    var t := o.completedAt.value;
    var d := cal.dateOf(t);
    ValidAgrees(cal, d, d);
    NextMidnight(cal, d);
    BeforeDayStart(cal, t, d);
    BeforeDayStart(cal, t, d + 1);
    RevenueOfTwo(cal, o, d);
    DailyAgreesWithReport(cal, [o, o], t, t);
    DailyOutcomes(cal, [o, o], t, t);
  }

  lemma RevenueOfTwo(cal: Calendar, o: ReportOrder, d: int)
    requires InWindow(Day(cal, d), o)
    ensures DayReport(cal, [o, o], d).revenue == 2 * o.totalPrice
  {
    hide Sum, CompletedOrders, Day, Tally;
    NothingSummed(Day(cal, d));
    ReportMeaning(cal, [o, o], Day(cal, d));
    SumSnoc(Day(cal, d), Revenue, [o], o);
    SumSnoc(Day(cal, d), Revenue, [], o);
    assert [] + [o] == [o] && [o] + [o] == [o, o];
  }

  lemma NothingSummed(w: Window)
    ensures Sum(w, Revenue, []) == 0
  {
  }

  lemma DailyOutcomes(cal: Calendar, orders: seq<ReportOrder>, from: Instant, to: Instant)
    ensures var daily := Daily(cal, orders, from, to);
            daily.Success? || daily == Failure(ReversedRange) || daily == Failure(RangeTooLong)
            || daily == Failure(OutOfRange)
  {
  }
}
