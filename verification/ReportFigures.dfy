/** What a report says, in the columns of the orders it was given: which orders each counter counts, and
    which counters each ratio and each average divides. */
module ReportFigures {
  import opened Common
  import opened Calendars
  import opened OrderForms
  import opened Reports

  /** Positions of the orders with a property. */
  function Chosen(orders: seq<ReportOrder>, p: ReportOrder -> bool): set<nat> {
    set i: nat | i < |orders| && p(orders[i])
  }

  function Count(orders: seq<ReportOrder>, p: ReportOrder -> bool): nat {
    |Chosen(orders, p)|
  }

  function Total(orders: seq<ReportOrder>, f: ReportOrder -> int): int {
    if orders == [] then 0 else Total(orders[..|orders| - 1], f) + f(orders[|orders| - 1])
  }

  lemma {:induction false} TallyIsCount(
    cal: Calendar, w: Window, m: Measure, orders: seq<ReportOrder>, p: ReportOrder -> bool)
    requires forall o :: p(o) <==> Counts(cal, w, m, o)
    ensures Tally(cal, w, m, orders) == Count(orders, p)
  {
    hide Counts;
    if orders == [] {
      assert Chosen(orders, p) == {};
    } else {
      var n := |orders| - 1;
      var front := orders[..n];
      TallyIsCount(cal, w, m, front, p);
      assert Chosen(orders, p) == Chosen(front, p) + (if p(orders[n]) then {n} else {});
    }
  }

  lemma {:induction false} SumIsTotal(w: Window, q: Quantity, orders: seq<ReportOrder>, f: ReportOrder -> int)
    requires forall o :: f(o) == Amount(w, q, o)
    ensures Sum(w, q, orders) == Total(orders, f)
  {
    hide Amount;
    if orders != [] { SumIsTotal(w, q, orders[..|orders| - 1], f); }
  }

  /** The order was completed in the window. */
  predicate Done(w: Window, o: ReportOrder) {
    match o.completedAt
    case None => false
    case Some(t) => w.startAt <= t && t < w.endAt
  }

  /** Its two times can be trusted: it has a creation time, and not one after its completion. */
  predicate Trusted(o: ReportOrder) {
    o.completedAt.Some? && ZERO_TIME != o.createdAt && !(o.completedAt.value < o.createdAt)
  }

  lemma BasicFigures(cal: Calendar, w: Window, orders: seq<ReportOrder>)
    ensures var b := BasicsOf(cal, w, orders);
            && b.completed == Count(orders, o => Done(w, o))
            && b.revenue == Total(orders, o => if Done(w, o) then o.totalPrice else 0)
            && b.friedEggs == Total(orders, o => if Done(w, o) then o.friedEggs as int else 0)
            && b.takeout == Count(orders, o => Done(w, o) && o.dining == TAKEOUT)
            && b.customSize == Count(orders, o => Done(w, o) && o.size == CUSTOM)
            && b.standardSize == Count(orders, o => Done(w, o) && o.size in {SMALL, MEDIUM, LARGE})
            && b.small == Count(orders, o => Done(w, o) && o.size == SMALL)
            && b.medium == Count(orders, o => Done(w, o) && o.size == MEDIUM)
            && b.large == Count(orders, o => Done(w, o) && o.size == LARGE)
  {
    hide Tally, Sum, Count, Total;
    TallyIsCount(cal, w, AllCompleted, orders, o => Done(w, o));
    SumIsTotal(w, Revenue, orders, o => if Done(w, o) then o.totalPrice else 0);
    SumIsTotal(w, FriedEggs, orders, o => if Done(w, o) then o.friedEggs as int else 0);
    TallyIsCount(cal, w, Takeout, orders, o => Done(w, o) && o.dining == TAKEOUT);
    TallyIsCount(cal, w, CustomSize, orders, o => Done(w, o) && o.size == CUSTOM);
    TallyIsCount(cal, w, StandardSize, orders, o => Done(w, o) && o.size in {SMALL, MEDIUM, LARGE});
    TallyIsCount(cal, w, SizeIs(SMALL), orders, o => Done(w, o) && o.size == SMALL);
    TallyIsCount(cal, w, SizeIs(MEDIUM), orders, o => Done(w, o) && o.size == MEDIUM);
    TallyIsCount(cal, w, SizeIs(LARGE), orders, o => Done(w, o) && o.size == LARGE);
  }

  lemma ChoiceFigures(cal: Calendar, w: Window, orders: seq<ReportOrder>)
    ensures var c := ChoicesOf(cal, w, orders);
            && |c.staples| == 4
            && c.staples[0] == Count(orders, o => Done(w, o) && o.stapleType == Some(RICE_SHEET))
            && c.staples[1] == Count(orders, o => Done(w, o) && o.stapleType == Some(RICE_VERMICELLI))
            && c.staples[2] == Count(orders, o => Done(w, o) && o.stapleType == Some(YI_NOODLE))
            && c.staples[3] == Count(orders, o => Done(w, o) && o.stapleType == Some(RICE))
            && c.noStaple == Count(orders, o => Done(w, o) && o.stapleType == None)
            && c.leanMeatOnly == Count(orders, o => Done(w, o) && o.meats == [LEAN_PORK])
            && c.noIntestine ==
               Count(orders, o => Done(w, o) && LARGE_INTESTINE !in o.meats && SMALL_INTESTINE !in o.meats)
            && c.customized ==
               Count(orders, o => Done(w, o) && (o.meats == [LEAN_PORK] ||
                                                 (LARGE_INTESTINE !in o.meats && SMALL_INTESTINE !in o.meats)))
            && c.unknownStaple ==
               Count(orders, o => Done(w, o) && o.stapleType !in {None, Some(RICE_SHEET), Some(RICE_VERMICELLI),
                                                                  Some(YI_NOODLE), Some(RICE)})
  {
    hide Tally, Count;
    TallyIsCount(cal, w, StapleIs(RICE_SHEET), orders, o => Done(w, o) && o.stapleType == Some(RICE_SHEET));
    TallyIsCount(cal, w, StapleIs(RICE_VERMICELLI), orders, o => Done(w, o) && o.stapleType == Some(RICE_VERMICELLI));
    TallyIsCount(cal, w, StapleIs(YI_NOODLE), orders, o => Done(w, o) && o.stapleType == Some(YI_NOODLE));
    TallyIsCount(cal, w, StapleIs(RICE), orders, o => Done(w, o) && o.stapleType == Some(RICE));
    TallyIsCount(cal, w, NoStaple, orders, o => Done(w, o) && o.stapleType == None);
    TallyIsCount(cal, w, UnknownStaple, orders,
                 o => Done(w, o) && o.stapleType !in {None, Some(RICE_SHEET), Some(RICE_VERMICELLI),
                                                      Some(YI_NOODLE), Some(RICE)});
    TallyIsCount(cal, w, LeanMeatOnly, orders, o => Done(w, o) && o.meats == [LEAN_PORK]);
    TallyIsCount(cal, w, NoIntestine, orders,
                 o => Done(w, o) && LARGE_INTESTINE !in o.meats && SMALL_INTESTINE !in o.meats);
    TallyIsCount(cal, w, Customized, orders,
                 o => Done(w, o) && (o.meats == [LEAN_PORK] ||
                                     (LARGE_INTESTINE !in o.meats && SMALL_INTESTINE !in o.meats)));
  }

  const HALF_HOUR := 1800 * NANOS_PER_SECOND

  /** The wall clock of the order's creation is in the half hour that starts b half hours after 00:00. */
  predicate InHalfHour(cal: Calendar, o: ReportOrder, b: int) {
    b * HALF_HOUR <= cal.clock(o.createdAt) < (b + 1) * HALF_HOUR
  }

  lemma BucketIsHalfHour(cal: Calendar, o: ReportOrder, b: int)
    requires cal.ClockInRange()
    ensures BucketOf(cal, o) == b <==> InHalfHour(cal, o, b)
  {
  }

  lemma TimingFigures(cal: Calendar, w: Window, orders: seq<ReportOrder>)
    requires cal.ClockInRange()
    ensures var t := TimingOf(cal, w, orders);
            && t.timed == Count(orders, o => Done(w, o) && Trusted(o))
            && t.preparationTime ==
               Total(orders, o => if Done(w, o) && Trusted(o) then o.completedAt.value - o.createdAt else 0)
            && |t.peaks| == 48
            && forall b :: 0 <= b < 48 ==>
                 t.peaks[b] ==
                 Count(orders, o => Done(w, o) && Trusted(o) && w.startAt <= o.createdAt && o.createdAt < w.endAt
                                    && InHalfHour(cal, o, b))
  {
    hide Tally, Sum, Count, Total, BucketOf, InHalfHour;
    TallyIsCount(cal, w, Timed, orders, o => Done(w, o) && Trusted(o));
    SumIsTotal(w, PreparationTime, orders,
               o => if Done(w, o) && Trusted(o) then o.completedAt.value - o.createdAt else 0);
    forall b | 0 <= b < 48
      ensures PeakCounts(cal, w, orders)[b] ==
              Count(orders, o => Done(w, o) && Trusted(o) && w.startAt <= o.createdAt && o.createdAt < w.endAt
                                 && InHalfHour(cal, o, b))
    {
      forall o ensures BucketOf(cal, o) == b <==> InHalfHour(cal, o, b) { BucketIsHalfHour(cal, o, b); }
      TallyIsCount(cal, w, PlacedIn(b), orders,
                   o => Done(w, o) && Trusted(o) && w.startAt <= o.createdAt && o.createdAt < w.endAt
                        && InHalfHour(cal, o, b));
    }
  }

  /** A ratio of n to d is shown with both; of nothing it is zero. */
  predicate IsRatio(r: RatioMetric, n: nat, d: nat) {
    r.count == n && r.denominator == d && (if d == 0 then r.ratio == 0.0 else r.ratio * d as real == n as real)
  }

  /** The integer nearest to n / d, the one further from zero when two are equally near. */
  predicate IsNearest(a: int, n: int, d: nat) {
    if d == 0 then a == 0
    else
      var excess := 2 * (a * d - n);
      if n >= 0 then -excess < d && excess <= d else -excess <= d && excess < d
  }

  lemma RatioIsQuotient(n: nat, d: nat)
    ensures IsRatio(Ratio(n, d), n, d)
  {
    if d > 0 { assert (n as real / d as real) * d as real == n as real; }
  }

  lemma RoundedIsNearestTo(n: int, d: nat)
    requires d > 0
    ensures IsNearest(Rounded(n, d), n, d)
  {
    RoundedIsNearest(n, d);
  }

  /** Each ratio and average of the report divides these two figures. */
  lemma RatesMeaning(t: Totals)
    ensures var r, b, c := RatesOf(t), t.basics, t.choices;
            && IsNearest(r.averageValue, b.revenue, b.completed)
            && IsNearest(r.averagePreparationSeconds, t.timing.preparationTime, t.timing.timed * 1_000_000_000)
            && IsRatio(r.takeout, b.takeout, b.completed)
            && IsRatio(r.small, b.small, b.standardSize)
            && IsRatio(r.medium, b.medium, b.standardSize)
            && IsRatio(r.large, b.large, b.standardSize)
            && IsRatio(r.leanMeatOnly, c.leanMeatOnly, b.completed)
            && IsRatio(r.noIntestine, c.noIntestine, b.completed)
            && IsRatio(r.customized, c.customized, b.completed)
  {
    hide Ratio, Rounded, IsRatio, IsNearest;
    var b, c := t.basics, t.choices;
    RatioIsQuotient(b.takeout, b.completed);
    RatioIsQuotient(b.small, b.standardSize);
    RatioIsQuotient(b.medium, b.standardSize);
    RatioIsQuotient(b.large, b.standardSize);
    RatioIsQuotient(c.leanMeatOnly, b.completed);
    RatioIsQuotient(c.noIntestine, b.completed);
    RatioIsQuotient(c.customized, b.completed);
    if b.completed > 0 { RoundedIsNearestTo(b.revenue, b.completed); } else { NothingIsNearest(b.revenue); }
    if t.timing.timed > 0 { RoundedIsNearestTo(t.timing.preparationTime, t.timing.timed * NANOS_PER_SECOND); }
    else { NothingIsNearest(t.timing.preparationTime); }
  }

  lemma NothingIsNearest(n: int)
    ensures IsNearest(0, n, 0)
  {
  }

  // ---- The peak list ----

  /** Busier, or as busy and earlier. */
  predicate Before(a: Peak, count: nat, start: int) {
    count < a.count || (count == a.count && a.startMinute < start)
  }

  /** What the peak list tells: up to five half hours of the day with the number of orders in each, the
      busiest first; what is not listed is empty, or comes after all five. */
  predicate TellsPeaks(counts: seq<nat>, peaks: seq<Peak>)
    requires |counts| == 48
  {
    && |peaks| <= 5
    && (forall p | p in peaks ::
          && p.startMinute % 30 == 0 && 0 <= p.startMinute < 1440 && p.endMinute == p.startMinute + 30
          && p.count == counts[p.startMinute / 30] && p.count > 0)
    && (forall i, j :: 0 <= i < j < |peaks| ==> Before(peaks[i], peaks[j].count, peaks[j].startMinute))
    && (forall b: nat :: b < 48 && counts[b] > 0 && (forall p | p in peaks :: p.startMinute != 30 * b) ==>
          |peaks| == 5 && forall p | p in peaks :: Before(p, counts[b], 30 * b))
  }

  /** The list that a report carries tells the peaks. */
  lemma PeaksMeaning(counts: seq<nat>, best: seq<nat>)
    requires |counts| == 48 && TopFive(counts, best)
    ensures TellsPeaks(counts, PeakList(counts, best))
  {
    hide Before, TopFive;
    AtMostFive(counts, best);
    var peaks := PeakList(counts, best);
    forall p | p in peaks
      ensures p.startMinute % 30 == 0 && 0 <= p.startMinute < 1440 && p.endMinute == p.startMinute + 30
              && p.count == counts[p.startMinute / 30] && p.count > 0
    {
      var i :| 0 <= i < |peaks| && peaks[i] == p;
      ListedPeak(counts, best, i);
    }
    forall i, j | 0 <= i < j < |peaks| ensures Before(peaks[i], peaks[j].count, peaks[j].startMinute) {
      ListedInOrder(counts, best, i, j);
    }
    forall b: nat | b < 48 && counts[b] > 0 && (forall p | p in peaks :: p.startMinute != 30 * b)
      ensures |peaks| == 5 && forall p | p in peaks :: Before(p, counts[b], 30 * b)
    {
      NotListed(counts, best, b);
    }
  }

  lemma AtMostFive(counts: seq<nat>, best: seq<nat>)
    requires TopFive(counts, best)
    ensures |best| <= 5 && Buckets(counts, best)
  {
  }

  lemma ListedPeak(counts: seq<nat>, best: seq<nat>, i: nat)
    requires |counts| == 48 && TopFive(counts, best) && i < |best|
    ensures var p := PeakList(counts, best)[i];
            && p.startMinute % 30 == 0 && 0 <= p.startMinute < 1440 && p.endMinute == p.startMinute + 30
            && p.count == counts[p.startMinute / 30] && p.count > 0
  {
    assert best[i] * 30 / 30 == best[i];
  }

  lemma ListedInOrder(counts: seq<nat>, best: seq<nat>, i: nat, j: nat)
    requires TopFive(counts, best) && i < j < |best|
    ensures var peaks := PeakList(counts, best); Before(peaks[i], peaks[j].count, peaks[j].startMinute)
  {
    assert RanksAbove(counts, best[i], best[j]);
  }

  lemma NotListed(counts: seq<nat>, best: seq<nat>, b: nat)
    requires TopFive(counts, best) && b < |counts| && counts[b] > 0
    requires forall p | p in PeakList(counts, best) :: p.startMinute != 30 * b
    ensures |best| == 5 && forall p | p in PeakList(counts, best) :: Before(p, counts[b], 30 * b)
  {
    hide Before;
    var peaks := PeakList(counts, best);
    assert b !in best by {
      forall i | 0 <= i < |best| ensures best[i] != b { assert peaks[i] in peaks; }
    }
    forall p | p in peaks ensures Before(p, counts[b], 30 * b) {
      var i :| 0 <= i < |peaks| && peaks[i] == p;
      AboveIsBefore(counts, best, i, b);
    }
  }

  lemma AboveIsBefore(counts: seq<nat>, best: seq<nat>, i: nat, b: nat)
    requires Buckets(counts, best) && i < |best| && b < |counts| && RanksAbove(counts, best[i], b)
    ensures Before(PeakList(counts, best)[i], counts[b], 30 * b)
  {
  }
}
