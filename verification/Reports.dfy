/** The report aggregation: every metric of one pass over the orders, and the busiest half hours. */
module Reports {
  import opened Common
  import opened Calendars
  import opened OrderForms

  const BUCKETS := 48
  const MAX_PEAKS := 5

  /** The zero time, 0001-01-01 00:00 UTC. */
  const ZERO_TIME: Instant := -62_135_596_800 * NANOS_PER_SECOND

  datatype ReportOrder = ReportOrder(
    totalPrice: int,
    stapleType: Option<int16>,
    size: int16,
    friedEggs: int16,
    dining: int16,
    meats: seq<int16>,
    createdAt: Instant,
    completedAt: Option<Instant>)

  datatype Window = Window(startAt: Instant, endAt: Instant)

  function DayWindow(cal: Calendar, date: Instant): Window {
    var start := cal.DayStart(cal.dateOf(date));
    Window(start, cal.NextDay(start))
  }

  /** One window for all business dates from `from` to `to`; none when `to` is earlier. */
  function DailyWindow(cal: Calendar, from: Instant, to: Instant): Option<Window> {
    var first, last := DayWindow(cal, from), DayWindow(cal, to);
    if last.startAt < first.startAt then None else Some(first.(endAt := last.endAt))
  }

  predicate InWindow(w: Window, o: ReportOrder) {
    o.completedAt.Some? && w.startAt <= o.completedAt.value < w.endAt
  }

  predicate ValidTiming(o: ReportOrder) {
    o.createdAt != ZERO_TIME && o.completedAt.Some? && o.createdAt <= o.completedAt.value
  }

  function BucketOf(cal: Calendar, o: ReportOrder): int {
    (cal.Hour(o.createdAt) * 60 + cal.Minute(o.createdAt)) / 30
  }

  // ---- What each metric counts ----

  datatype Measure =
    | AllCompleted | Takeout | CustomSize | StandardSize | SizeIs(size: int16)
    | StapleIs(code: int16) | NoStaple | UnknownStaple
    | LeanMeatOnly | NoIntestine | Customized
    | Timed | Placed | PlacedIn(bucket: int)

  predicate OnlyLean(meats: seq<int16>) { meats == [LEAN_PORK] }

  predicate WithoutIntestine(meats: seq<int16>) {
    forall c | c in meats :: c != LARGE_INTESTINE && c != SMALL_INTESTINE
  }

  /** When an order counts for a metric of the report on `w`. */
  predicate Counts(cal: Calendar, w: Window, m: Measure, o: ReportOrder) {
    InWindow(w, o) &&
    match m
    case AllCompleted => true
    case Takeout => o.dining == TAKEOUT
    case CustomSize => o.size == CUSTOM
    case StandardSize => o.size == SMALL || o.size == MEDIUM || o.size == LARGE
    case SizeIs(size) => o.size == size
    case StapleIs(code) => o.stapleType == Some(code)
    case NoStaple => o.stapleType.None?
    case UnknownStaple => o.stapleType.Some? && !(1 <= o.stapleType.value <= 4)
    case LeanMeatOnly => OnlyLean(o.meats)
    case NoIntestine => WithoutIntestine(o.meats)
    case Customized => OnlyLean(o.meats) || WithoutIntestine(o.meats)
    case Timed => ValidTiming(o)
    case Placed => ValidTiming(o) && w.startAt <= o.createdAt < w.endAt
    case PlacedIn(b) => ValidTiming(o) && w.startAt <= o.createdAt < w.endAt && BucketOf(cal, o) == b
  }

  function Tally(cal: Calendar, w: Window, m: Measure, orders: seq<ReportOrder>): nat {
    if orders == [] then 0
    else Tally(cal, w, m, orders[..|orders| - 1]) + (if Counts(cal, w, m, orders[|orders| - 1]) then 1 else 0)
  }

  datatype Quantity = Revenue | FriedEggs | PreparationTime

  function Amount(w: Window, q: Quantity, o: ReportOrder): int {
    if !InWindow(w, o) then 0
    else match q
      case Revenue => o.totalPrice
      case FriedEggs => o.friedEggs
      case PreparationTime => if ValidTiming(o) then o.completedAt.value - o.createdAt else 0
  }

  function Sum(w: Window, q: Quantity, orders: seq<ReportOrder>): int {
    if orders == [] then 0 else Sum(w, q, orders[..|orders| - 1]) + Amount(w, q, orders[|orders| - 1])
  }

  /** The counters of price, dining and size. */
  datatype Basics = Basics(
    completed: nat, revenue: int, friedEggs: int, takeout: nat,
    customSize: nat, standardSize: nat, small: nat, medium: nat, large: nat)

  /** The counters of staples and customizations; `staples` are the four known codes in order. */
  datatype Choices = Choices(
    staples: seq<nat>, noStaple: nat, unknownStaple: nat,
    leanMeatOnly: nat, noIntestine: nat, customized: nat)

  /** The counters of the 48 half hours and of preparation times. */
  datatype Timing = Timing(peaks: seq<nat>, timed: nat, preparationTime: int)

  datatype Totals = Totals(basics: Basics, choices: Choices, timing: Timing)

  const NO_TOTALS := Totals(
    Basics(0, 0, 0, 0, 0, 0, 0, 0, 0),
    Choices([0, 0, 0, 0], 0, 0, 0, 0, 0),
    Timing(seq(BUCKETS, _ => 0), 0, 0))

  function PeakCounts(cal: Calendar, w: Window, orders: seq<ReportOrder>): seq<nat> {
    seq(BUCKETS, b => Tally(cal, w, PlacedIn(b), orders))
  }

  /** What the counters mean. */
  function BasicsOf(cal: Calendar, w: Window, orders: seq<ReportOrder>): Basics {
    Basics(
      Tally(cal, w, AllCompleted, orders), Sum(w, Revenue, orders), Sum(w, FriedEggs, orders),
      Tally(cal, w, Takeout, orders),
      Tally(cal, w, CustomSize, orders), Tally(cal, w, StandardSize, orders),
      Tally(cal, w, SizeIs(SMALL), orders), Tally(cal, w, SizeIs(MEDIUM), orders), Tally(cal, w, SizeIs(LARGE), orders))
  }

  function ChoicesOf(cal: Calendar, w: Window, orders: seq<ReportOrder>): Choices {
    Choices(
      [Tally(cal, w, StapleIs(RICE_SHEET), orders), Tally(cal, w, StapleIs(RICE_VERMICELLI), orders),
       Tally(cal, w, StapleIs(YI_NOODLE), orders), Tally(cal, w, StapleIs(RICE), orders)],
      Tally(cal, w, NoStaple, orders), Tally(cal, w, UnknownStaple, orders),
      Tally(cal, w, LeanMeatOnly, orders), Tally(cal, w, NoIntestine, orders), Tally(cal, w, Customized, orders))
  }

  function TimingOf(cal: Calendar, w: Window, orders: seq<ReportOrder>): Timing {
    Timing(PeakCounts(cal, w, orders), Tally(cal, w, Timed, orders), Sum(w, PreparationTime, orders))
  }

  function TotalsOf(cal: Calendar, w: Window, orders: seq<ReportOrder>): Totals {
    Totals(BasicsOf(cal, w, orders), ChoicesOf(cal, w, orders), TimingOf(cal, w, orders))
  }

  // ---- The pass over the orders ----

  lemma TallySnoc(cal: Calendar, w: Window, m: Measure, orders: seq<ReportOrder>, o: ReportOrder)
    ensures Tally(cal, w, m, orders + [o]) == Tally(cal, w, m, orders) + (if Counts(cal, w, m, o) then 1 else 0)
  {
    assert (orders + [o])[..|orders|] == orders;
  }

  lemma SumSnoc(w: Window, q: Quantity, orders: seq<ReportOrder>, o: ReportOrder)
    ensures Sum(w, q, orders + [o]) == Sum(w, q, orders) + Amount(w, q, o)
  {
    assert (orders + [o])[..|orders|] == orders;
  }

  method CustomizationFlags(selected: seq<int16>) returns (leanMeatOnly: bool, noIntestine: bool)
    ensures leanMeatOnly == OnlyLean(selected) && noIntestine == WithoutIntestine(selected)
  {
    leanMeatOnly := |selected| == 1 && selected[0] == LEAN_PORK;
    for i := 0 to |selected|
      invariant forall k :: 0 <= k < i ==> selected[k] != LARGE_INTESTINE && selected[k] != SMALL_INTESTINE
    {
      if selected[i] == LARGE_INTESTINE || selected[i] == SMALL_INTESTINE {
        assert selected[i] in selected;
        return leanMeatOnly, false;
      }
    }
    return leanMeatOnly, true;
  }

  /** A counter goes up by one exactly when the order counts for its measure. */
  predicate Counted(cal: Calendar, w: Window, m: Measure, o: ReportOrder, before: nat, after: nat) {
    after == before + (if Counts(cal, w, m, o) then 1 else 0)
  }

  predicate BasicsStep(cal: Calendar, w: Window, o: ReportOrder, t: Basics, t': Basics) {
    && Counted(cal, w, AllCompleted, o, t.completed, t'.completed)
    && t'.revenue == t.revenue + Amount(w, Revenue, o)
    && t'.friedEggs == t.friedEggs + Amount(w, FriedEggs, o)
    && Counted(cal, w, Takeout, o, t.takeout, t'.takeout)
    && Counted(cal, w, CustomSize, o, t.customSize, t'.customSize)
    && Counted(cal, w, StandardSize, o, t.standardSize, t'.standardSize)
    && Counted(cal, w, SizeIs(SMALL), o, t.small, t'.small)
    && Counted(cal, w, SizeIs(MEDIUM), o, t.medium, t'.medium)
    && Counted(cal, w, SizeIs(LARGE), o, t.large, t'.large)
  }

  predicate ChoicesStep(cal: Calendar, w: Window, o: ReportOrder, t: Choices, t': Choices) {
    && |t.staples| == |t'.staples| == 4
    && Counted(cal, w, StapleIs(RICE_SHEET), o, t.staples[0], t'.staples[0])
    && Counted(cal, w, StapleIs(RICE_VERMICELLI), o, t.staples[1], t'.staples[1])
    && Counted(cal, w, StapleIs(YI_NOODLE), o, t.staples[2], t'.staples[2])
    && Counted(cal, w, StapleIs(RICE), o, t.staples[3], t'.staples[3])
    && Counted(cal, w, NoStaple, o, t.noStaple, t'.noStaple)
    && Counted(cal, w, UnknownStaple, o, t.unknownStaple, t'.unknownStaple)
    && Counted(cal, w, LeanMeatOnly, o, t.leanMeatOnly, t'.leanMeatOnly)
    && Counted(cal, w, NoIntestine, o, t.noIntestine, t'.noIntestine)
    && Counted(cal, w, Customized, o, t.customized, t'.customized)
  }

  predicate TimingStep(cal: Calendar, w: Window, o: ReportOrder, t: Timing, t': Timing) {
    && |t.peaks| == |t'.peaks| == BUCKETS
    && (forall b :: 0 <= b < BUCKETS ==> Counted(cal, w, PlacedIn(b), o, t.peaks[b], t'.peaks[b]))
    && Counted(cal, w, Timed, o, t.timed, t'.timed)
    && t'.preparationTime == t.preparationTime + Amount(w, PreparationTime, o)
  }

  method CountBasics(cal: Calendar, w: Window, o: ReportOrder, t0: Basics) returns (t: Basics)
    requires InWindow(w, o)
    ensures BasicsStep(cal, w, o, t0, t)
  {
    t := t0.(completed := t0.completed + 1, revenue := t0.revenue + o.totalPrice,
             friedEggs := t0.friedEggs + o.friedEggs);
    if o.dining == TAKEOUT { t := t.(takeout := t.takeout + 1); }
    if o.size == CUSTOM {
      t := t.(customSize := t.customSize + 1);
    } else if o.size == SMALL || o.size == MEDIUM || o.size == LARGE {
      t := t.(standardSize := t.standardSize + 1);
      if o.size == SMALL { t := t.(small := t.small + 1); }
      else if o.size == MEDIUM { t := t.(medium := t.medium + 1); }
      else { t := t.(large := t.large + 1); }
    }
  }

  method CountChoices(cal: Calendar, w: Window, o: ReportOrder, t0: Choices) returns (t: Choices)
    requires InWindow(w, o) && |t0.staples| == 4
    ensures ChoicesStep(cal, w, o, t0, t)
  {
    hide OnlyLean, WithoutIntestine;
    t := t0;
    if o.stapleType.Some? {
      var code: int := o.stapleType.value as int;
      if 1 <= code <= 4 {
        t := t.(staples := t.staples[code - 1 := t.staples[code - 1] + 1]);
      } else {
        t := t.(unknownStaple := t.unknownStaple + 1);
      }
    } else {
      t := t.(noStaple := t.noStaple + 1);
    }
    var leanMeatOnly, noIntestine := CustomizationFlags(o.meats);
    if leanMeatOnly { t := t.(leanMeatOnly := t.leanMeatOnly + 1); }
    if noIntestine { t := t.(noIntestine := t.noIntestine + 1); }
    if leanMeatOnly || noIntestine { t := t.(customized := t.customized + 1); }
  }

  method CountTiming(cal: Calendar, w: Window, o: ReportOrder, t0: Timing) returns (t: Timing)
    requires cal.ClockInRange() && InWindow(w, o) && |t0.peaks| == BUCKETS
    ensures TimingStep(cal, w, o, t0, t)
  {
    t := t0;
    if ValidTiming(o) && !(o.createdAt < w.startAt) && o.createdAt < w.endAt {
      var minutes := cal.Hour(o.createdAt) * 60 + cal.Minute(o.createdAt);
      var bucket := minutes / 30;
      BucketInRange(cal, o);
      if 0 <= bucket < |t.peaks| {
        t := t.(peaks := t.peaks[bucket := t.peaks[bucket] + 1]);
      } else {
        assert false;
      }
    }
    if ValidTiming(o) {
      t := t.(timed := t.timed + 1, preparationTime := t.preparationTime + (o.completedAt.value - o.createdAt));
    }
  }

  predicate TotalsStep(cal: Calendar, w: Window, o: ReportOrder, t: Totals, t': Totals) {
    && BasicsStep(cal, w, o, t.basics, t'.basics)
    && ChoicesStep(cal, w, o, t.choices, t'.choices)
    && TimingStep(cal, w, o, t.timing, t'.timing)
  }

  /** The body of the aggregation loop. */
  method CountOrder(cal: Calendar, w: Window, o: ReportOrder, t0: Totals) returns (t: Totals)
    requires cal.ClockInRange() && |t0.choices.staples| == 4 && |t0.timing.peaks| == BUCKETS
    ensures TotalsStep(cal, w, o, t0, t)
  {
    t := t0;
    if o.completedAt.None? || o.completedAt.value < w.startAt || !(o.completedAt.value < w.endAt) {
      return;
    }
    hide BasicsStep, ChoicesStep, TimingStep;
    var basics := CountBasics(cal, w, o, t.basics);
    var choices := CountChoices(cal, w, o, t.choices);
    var timing := CountTiming(cal, w, o, t.timing);
    t := Totals(basics, choices, timing);
  }

  /** The range guard of the peak counters never fails. */
  lemma BucketInRange(cal: Calendar, o: ReportOrder)
    requires cal.ClockInRange()
    ensures 0 <= BucketOf(cal, o) < BUCKETS
  {
  }

  lemma StepIsSnoc(cal: Calendar, w: Window, orders: seq<ReportOrder>, o: ReportOrder, t: Totals)
    requires TotalsStep(cal, w, o, TotalsOf(cal, w, orders), t)
    ensures t == TotalsOf(cal, w, orders + [o])
  {
    hide Tally, Sum, Counts, Amount;
    forall m: Measure
      ensures Tally(cal, w, m, orders + [o]) == Tally(cal, w, m, orders) + (if Counts(cal, w, m, o) then 1 else 0)
    {
      TallySnoc(cal, w, m, orders, o);
    }
    forall q: Quantity ensures Sum(w, q, orders + [o]) == Sum(w, q, orders) + Amount(w, q, o) {
      SumSnoc(w, q, orders, o);
    }
    var s := TotalsOf(cal, w, orders + [o]);
    assert t.choices.staples == s.choices.staples;
    assert t.timing.peaks == s.timing.peaks;
  }

  // ---- The busiest half hours ----

  datatype Peak = Peak(startMinute: int, endMinute: int, count: nat)

  /** The comparison the buckets are sorted with: busier first, then earlier. */
  predicate RanksAbove(counts: seq<nat>, a: nat, b: nat)
    requires a < |counts| && b < |counts|
  {
    counts[a] > counts[b] || (counts[a] == counts[b] && a < b)
  }

  predicate Buckets(counts: seq<nat>, s: seq<nat>) {
    forall i :: 0 <= i < |s| ==> s[i] < |counts|
  }

  predicate Ranked(counts: seq<nat>, s: seq<nat>)
    requires Buckets(counts, s)
  {
    forall i, j :: 0 <= i < j < |s| ==> RanksAbove(counts, s[i], s[j])
  }

  /** Puts one bucket at its place in a ranking. */
  method InsertRanked(counts: seq<nat>, ranking: seq<nat>, b: nat) returns (r: seq<nat>)
    requires Buckets(counts, ranking) && Ranked(counts, ranking) && b < |counts| && b !in ranking
    ensures Buckets(counts, r) && Ranked(counts, r) && |r| == |ranking| + 1
    ensures forall x :: x in r <==> x in ranking || x == b
  {
    var i := 0;
    while i < |ranking| && RanksAbove(counts, ranking[i], b)
      invariant 0 <= i <= |ranking|
      invariant forall k :: 0 <= k < i ==> RanksAbove(counts, ranking[k], b)
    {
      i := i + 1;
    }
    r := ranking[..i] + [b] + ranking[i..];
    forall k | i <= k < |ranking| ensures RanksAbove(counts, b, ranking[k]) {
      assert ranking[k] in ranking;
      if k > i { assert RanksAbove(counts, ranking[i], ranking[k]); }
    }
    assert forall x :: x in ranking <==> x in ranking[..i] || x in ranking[i..] by {
      assert ranking == ranking[..i] + ranking[i..];
    }
  }

  /** The non-empty buckets, busiest first. */
  method RankBuckets(counts: seq<nat>) returns (ranking: seq<nat>)
    ensures Buckets(counts, ranking) && Ranked(counts, ranking)
    ensures forall b: nat :: b in ranking <==> b < |counts| && counts[b] > 0
  {
    ranking := [];
    for b := 0 to |counts|
      invariant Buckets(counts, ranking) && Ranked(counts, ranking)
      invariant forall x: nat :: x in ranking <==> x < b && counts[x] > 0
    {
      if counts[b] > 0 { ranking := InsertRanked(counts, ranking, b); }
    }
  }

  /** What the peak list means: at most five non-empty half hours, strictly ordered by count and
      then by start; no half hour left out ranks above one that is listed, and none is left out
      while there is room. */
  predicate TopFive(counts: seq<nat>, best: seq<nat>) {
    && |best| <= MAX_PEAKS && Buckets(counts, best) && Ranked(counts, best)
    && (forall i :: 0 <= i < |best| ==> counts[best[i]] > 0)
    && (forall b: nat :: b < |counts| && counts[b] > 0 && b !in best ==>
          |best| == MAX_PEAKS && forall i :: 0 <= i < |best| ==> RanksAbove(counts, best[i], b))
  }

  function PeakList(counts: seq<nat>, best: seq<nat>): seq<Peak>
    requires Buckets(counts, best)
  {
    seq(|best|, i requires 0 <= i < |best| => Peak(best[i] * 30, (best[i] + 1) * 30, counts[best[i]]))
  }

  method PeakBuckets(counts: seq<nat>) returns (peaks: seq<Peak>)
    ensures exists best :: TopFive(counts, best) && peaks == PeakList(counts, best)
  {
    var ranking := RankBuckets(counts);
    var best := if |ranking| > MAX_PEAKS then ranking[..MAX_PEAKS] else ranking;
    RankingIsTopFive(counts, ranking);
    peaks := [];
    for i := 0 to |best|
      invariant peaks == PeakList(counts, best)[..i]
    {
      peaks := peaks + [Peak(best[i] * 30, (best[i] + 1) * 30, counts[best[i]])];
    }
  }

  lemma RankingIsTopFive(counts: seq<nat>, ranking: seq<nat>)
    requires Buckets(counts, ranking) && Ranked(counts, ranking)
    requires forall b: nat :: b in ranking <==> b < |counts| && counts[b] > 0
    ensures TopFive(counts, if |ranking| > MAX_PEAKS then ranking[..MAX_PEAKS] else ranking)
  {
    var best := if |ranking| > MAX_PEAKS then ranking[..MAX_PEAKS] else ranking;
    forall i | 0 <= i < |best| ensures counts[best[i]] > 0 { assert ranking[i] in ranking; }
    assert forall k :: 0 <= k < |best| ==> ranking[k] == best[k] && best[k] in best;
    forall b: nat | b < |counts| && counts[b] > 0 && b !in best
      ensures |best| == MAX_PEAKS && forall i :: 0 <= i < |best| ==> RanksAbove(counts, best[i], b)
    {
      assert b in ranking;
      var k :| 0 <= k < |ranking| && ranking[k] == b;
    }
  }

  /** There is only one top five: the peak list is determined by the counts, not by the order in
      which they were sorted. */
  lemma {:induction false} TopFiveIsUnique(counts: seq<nat>, p: seq<nat>, q: seq<nat>)
    requires TopFive(counts, p) && TopFive(counts, q)
    ensures p == q
  {
    if |p| <= |q| { SameTop(counts, p, q, |p|); SameLength(counts, p, q); }
    else { SameTop(counts, q, p, |q|); SameLength(counts, q, p); }
  }

  lemma {:induction false} SameTop(counts: seq<nat>, p: seq<nat>, q: seq<nat>, n: nat)
    requires TopFive(counts, p) && TopFive(counts, q) && n <= |p| && n <= |q|
    ensures p[..n] == q[..n]
  {
    hide TopFive;
    if n > 0 {
      SameTop(counts, p, q, n - 1);
      assert forall k :: 0 <= k < n - 1 ==> p[k] == p[..n - 1][k] && q[k] == q[..n - 1][k];
      SameNext(counts, p, q, n - 1);
      assert p[..n] == p[..n - 1] + [p[n - 1]] && q[..n] == q[..n - 1] + [q[n - 1]];
    }
  }

  /** A listed bucket ranks above every other non-empty one that is not listed before it. */
  lemma TopRanks(counts: seq<nat>, p: seq<nat>, i: nat, b: nat)
    requires TopFive(counts, p) && i < |p| && b < |counts| && counts[b] > 0
    requires forall k :: 0 <= k <= i ==> p[k] != b
    ensures RanksAbove(counts, p[i], b)
  {
    if b in p {
      var k :| 0 <= k < |p| && p[k] == b;
      assert k > i;
    }
  }

  lemma SameNext(counts: seq<nat>, p: seq<nat>, q: seq<nat>, i: nat)
    requires TopFive(counts, p) && TopFive(counts, q) && i < |p| && i < |q|
    requires forall k :: 0 <= k < i ==> p[k] == q[k]
    ensures p[i] == q[i]
  {
    assert forall k :: 0 <= k < i ==> RanksAbove(counts, p[k], p[i]) && RanksAbove(counts, q[k], q[i]);
    if p[i] != q[i] {
      TopRanks(counts, p, i, q[i]);
      TopRanks(counts, q, i, p[i]);
    }
  }

  lemma NoneRepeats(counts: seq<nat>, q: seq<nat>, n: nat)
    requires Buckets(counts, q) && Ranked(counts, q) && n < |q|
    ensures q[n] !in q[..n]
  {
    assert forall k :: 0 <= k < n ==> RanksAbove(counts, q[k], q[n]);
  }

  lemma SameLength(counts: seq<nat>, p: seq<nat>, q: seq<nat>)
    requires TopFive(counts, p) && TopFive(counts, q) && |p| <= |q| && p == q[..|p|]
    ensures p == q
  {
    if |p| < |q| { NoneRepeats(counts, q, |p|); }
  }

  // ---- Averages and ratios ----

  /** A ratio with its numerator and denominator; zero when there is nothing to divide by. */
  datatype RatioMetric = RatioMetric(count: nat, denominator: nat, ratio: real)

  function Ratio(count: nat, denominator: nat): RatioMetric {
    RatioMetric(count, denominator, if denominator == 0 then 0.0 else count as real / denominator as real)
  }

  /** A quotient rounded to the nearest integer, halves away from zero. */
  function Rounded(n: int, d: nat): int
    requires d > 0
  {
    if n >= 0 then (2 * n + d) / (2 * d) else -((-2 * n + d) / (2 * d))
  }

  datatype Rates = Rates(
    averageValue: int, averagePreparationSeconds: int, takeout: RatioMetric,
    small: RatioMetric, medium: RatioMetric, large: RatioMetric,
    leanMeatOnly: RatioMetric, noIntestine: RatioMetric, customized: RatioMetric)

  /** The derived metrics; times are in nanoseconds, and averages are of nothing when nothing was counted. */
  function RatesOf(t: Totals): Rates {
    var b, c := t.basics, t.choices;
    Rates(
      if b.completed > 0 then Rounded(b.revenue, b.completed) else 0,
      if t.timing.timed > 0 then Rounded(t.timing.preparationTime, t.timing.timed * NANOS_PER_SECOND) else 0,
      Ratio(b.takeout, b.completed),
      Ratio(b.small, b.standardSize), Ratio(b.medium, b.standardSize), Ratio(b.large, b.standardSize),
      Ratio(c.leanMeatOnly, b.completed), Ratio(c.noIntestine, b.completed), Ratio(c.customized, b.completed))
  }

  /** Rounding gives the nearest integer: it is off by at most a half, and by a half only away from zero. */
  lemma RoundedIsNearest(n: int, d: nat)
    requires d > 0
    ensures var excess := 2 * (Rounded(n, d) * d - n);
            if n >= 0 then -excess < d && excess <= d else -excess <= d && excess < d
  {
    var m, k := if n >= 0 then n else -n, 2 * d;
    var q := (2 * m + d) / k;
    assert q * k <= 2 * m + d < q * k + k;
    assert q * k == 2 * (q * d);
    if n < 0 { assert Rounded(n, d) * d == -(q * d); }
  }

  method AggregateReport(cal: Calendar, w: Window, orders: seq<ReportOrder>)
    returns (t: Totals, rates: Rates, peaks: seq<Peak>)
    requires cal.ClockInRange()
    ensures t == TotalsOf(cal, w, orders) && rates == RatesOf(t)
    ensures exists best ::
              TopFive(PeakCounts(cal, w, orders), best) && peaks == PeakList(PeakCounts(cal, w, orders), best)
  {
    t := NO_TOTALS;
    NothingCounted(cal, w);
    for i := 0 to |orders|
      invariant t == TotalsOf(cal, w, orders[..i])
    {
      assert orders[..i + 1] == orders[..i] + [orders[i]];
      var t' := CountOrder(cal, w, orders[i], t);
      StepIsSnoc(cal, w, orders[..i], orders[i], t');
      t := t';
    }
    assert orders[..|orders|] == orders;
    rates := RatesOf(t);
    peaks := PeakBuckets(t.timing.peaks);
  }

  lemma NothingCounted(cal: Calendar, w: Window)
    ensures NO_TOTALS == TotalsOf(cal, w, [])
  {
    assert NO_TOTALS.timing.peaks == PeakCounts(cal, w, []);
  }
}
