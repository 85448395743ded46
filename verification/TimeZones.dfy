/** Zones whose clock is changed once, and what the midnights of such zones do to the reports. */
module TimeZones {
  import opened Common
  import opened Calendars
  import opened Orders
  import opened Events
  import opened Reports
  import opened DailyReports
  import opened OrderEvents

  /** Offsets from UTC before an instant and from it on. */
  datatype Zone = Zone(change: Instant, before: int, after: int) {
    function Offset(t: Instant): int { if t < change then before else after }

    function Wall(t: Instant): int { t + Offset(t) }

    /** The instant that the time library takes for a wall reading: it looks the reading up as if it were
        UTC, subtracts the offset found there, and if that leads to the other side of the change takes the
        offset found there instead. A reading looked up at offset zero is taken as it is. */
    function Resolve(wall: int): Instant {
      var first := Offset(wall);
      if first == 0 then wall else wall - Offset(wall - first)
    }

    function AsCalendar(): Calendar {
      Calendar((d, c) => Resolve(d * NANOS_PER_DAY + c),
               t => Wall(t) / NANOS_PER_DAY, t => Wall(t) % NANOS_PER_DAY, d => Civil(2000, 1, 1))
    }
  }

  // ---- Skipped midnights ----

  predicate MidnightExists(cal: Calendar, d: int) {
    cal.dateOf(cal.DayStart(d)) == d && cal.clock(cal.DayStart(d)) == 0
  }

  /** The clock runs as usual around the end of date `d`, and the instant taken for a skipped midnight of
      `d` is shown as a time on the date before, or as a later time on `d`. */
  ghost predicate RegularEnd(cal: Calendar, d: int) {
    && (forall c :: 0 < c < NANOS_PER_DAY ==> cal.at(d, c) < cal.DayStart(d + 1) < cal.at(d + 1, c))
    && var start := cal.DayStart(d);
    && 0 <= cal.clock(start) < NANOS_PER_DAY
    && (cal.dateOf(start) == d || (cal.dateOf(start) == d - 1 && cal.clock(start) > 0))
  }

  /** The windows of two consecutive dates meet exactly when the midnight of the first exists. If it was
      skipped and is taken to be on the date before, they leave a gap; if later on the date, they overlap. */
  lemma WindowsMeetIff(cal: Calendar, d: int)
    requires RegularEnd(cal, d)
    ensures Day(cal, d).endAt == Day(cal, d + 1).startAt <==> MidnightExists(cal, d)
    ensures Day(cal, d).endAt < Day(cal, d + 1).startAt <==> cal.dateOf(cal.DayStart(d)) == d - 1
    ensures Day(cal, d).endAt > Day(cal, d + 1).startAt <==>
            cal.dateOf(cal.DayStart(d)) == d && cal.clock(cal.DayStart(d)) > 0
  {
    var start := cal.DayStart(d);
    var c := cal.clock(start);
    if c > 0 { assert cal.at(d, c) < cal.DayStart(d + 1) < cal.at(d + 1, c); }
  }

  const HALF_HOUR := NANOS_PER_HOUR / 2

  /** West of UTC: from -3h to -2h at what would be 00:00 of date 0. */
  const WEST := Zone(3 * NANOS_PER_HOUR, -3 * NANOS_PER_HOUR, -2 * NANOS_PER_HOUR)

  /** At UTC and east of it: from 0h to +1h at what would be 00:00 of date 0. */
  const EAST := Zone(0, 0, NANOS_PER_HOUR)

  /** East of UTC, clocks going back from 01:00 of date 0 to 00:00, from +3h to +2h. */
  const REPEATING := Zone(-2 * NANOS_PER_HOUR, 3 * NANOS_PER_HOUR, 2 * NANOS_PER_HOUR)

  /** A zone that does not show the date before again after its change is regular. */
  lemma ZoneIsRegular(z: Zone)
    requires z == WEST || z == EAST || z == REPEATING
    ensures z.AsCalendar().Regular() && z.AsCalendar().ClockInRange()
  {
    var cal := z.AsCalendar();
    forall s, t | s <= t ensures cal.dateOf(s) <= cal.dateOf(t) { DatesAscend(z, s, t); }
    forall s, t | t == s + 1 ensures cal.dateOf(t) <= cal.dateOf(s) + 1 { NoDateSkipped(z, s); }
    forall d ensures cal.dateOf(cal.at(d, NOON)) == d { NoonExists(z, d); }
    forall d, e | d < e ensures cal.DayStart(d) < cal.DayStart(e) { StartsAscend(z, d, e); }
  }

  lemma DatesAscend(z: Zone, s: Instant, t: Instant)
    requires (z == WEST || z == EAST || z == REPEATING) && s <= t
    ensures z.AsCalendar().dateOf(s) <= z.AsCalendar().dateOf(t)
  {
    if z == REPEATING && s < z.change <= t {
      assert z.Wall(s) < NANOS_PER_DAY && z.Wall(t) >= 0;
    } else {
      assert z.Wall(s) <= z.Wall(t);
    }
  }

  lemma NoDateSkipped(z: Zone, s: Instant)
    requires z == WEST || z == EAST || z == REPEATING
    ensures z.AsCalendar().dateOf(s + 1) <= z.AsCalendar().dateOf(s) + 1
  {
    assert z.Wall(s + 1) <= z.Wall(s) + NANOS_PER_DAY;
  }

  lemma NoonExists(z: Zone, d: int)
    requires z == WEST || z == EAST || z == REPEATING
    ensures var cal := z.AsCalendar(); cal.dateOf(cal.at(d, NOON)) == d
  {
    assert z.Wall(z.Resolve(d * NANOS_PER_DAY + NOON)) == d * NANOS_PER_DAY + NOON;
  }

  lemma StartsAscend(z: Zone, d: int, e: int)
    requires (z == WEST || z == EAST || z == REPEATING) && d < e
    ensures z.AsCalendar().DayStart(d) < z.AsCalendar().DayStart(e)
  {
    ReadingsAscend(z, d * NANOS_PER_DAY + 0, e * NANOS_PER_DAY + 0);
  }

  lemma ReadingsAscend(z: Zone, v: int, w: int)
    requires (z == WEST || z == EAST || z == REPEATING) && v + NANOS_PER_DAY <= w
    ensures z.Resolve(v) < z.Resolve(w)
  {
  }

  /** What a wall clock shows, given its reading. */
  lemma Shows(z: Zone, t: Instant, d: int, c: int)
    requires z.Wall(t) == d * NANOS_PER_DAY + c && 0 <= c < NANOS_PER_DAY
    ensures z.AsCalendar().dateOf(t) == d && z.AsCalendar().clock(t) == c
  {
  }

  lemma SkippedMidnightEnds(z: Zone)
    requires z == WEST || z == EAST
    ensures RegularEnd(z.AsCalendar(), 0) && !MidnightExists(z.AsCalendar(), 0)
  {
    var cal := z.AsCalendar();
    var start := cal.DayStart(0);
    if z == WEST { Shows(z, start, -1, 23 * NANOS_PER_HOUR); } else { Shows(z, start, 0, NANOS_PER_HOUR); }
    forall c | 0 < c < NANOS_PER_DAY ensures cal.at(0, c) < cal.DayStart(1) < cal.at(1, c) {
      Readings(z, c);
    }
  }

  lemma Readings(z: Zone, c: int)
    requires (z == WEST || z == EAST) && 0 < c < NANOS_PER_DAY
    ensures z.Resolve(0 * NANOS_PER_DAY + c) < z.Resolve(1 * NANOS_PER_DAY + 0) < z.Resolve(1 * NANOS_PER_DAY + c)
  {
  }

  lemma WesternDay(d: int)
    ensures var w := Day(WEST.AsCalendar(), d);
            && (d < 0 ==> w.endAt <= 2 * NANOS_PER_HOUR)
            && (d == 0 ==> w == Window(2 * NANOS_PER_HOUR, 25 * NANOS_PER_HOUR))
            && (d > 0 ==> w.startAt >= 26 * NANOS_PER_HOUR && w.startAt < w.endAt)
  {
    var start := WEST.Resolve(d * NANOS_PER_DAY);
    assert WEST.AsCalendar().DayStart(d) == start;
    if d == 0 { Shows(WEST, start, -1, 23 * NANOS_PER_HOUR); } else { Shows(WEST, start, d, 0); }
    assert d < 0 ==> d * NANOS_PER_DAY + NANOS_PER_DAY <= 0;
  }

  /** An order completed at 23:30 on the western date whose midnight was skipped is in the report of no
      date, while the daily window over that date and the next contains it. */
  lemma SkippedMidnightLosesOrder(o: ReportOrder)
    requires o.completedAt == Some(25 * NANOS_PER_HOUR + HALF_HOUR)
    ensures var cal := WEST.AsCalendar();
            && cal.Regular() && RegularEnd(cal, 0) && !MidnightExists(cal, 0)
            && cal.dateOf(o.completedAt.value) == 0
            && (forall d :: !InWindow(Day(cal, d), o))
            && InGroup(cal, Days(cal, 0, 1), 0, o)
  {
    hide Day, RegularEnd, MidnightExists;
    ZoneIsRegular(WEST);
    SkippedMidnightEnds(WEST);
    Shows(WEST, o.completedAt.value, 0, 23 * NANOS_PER_HOUR + HALF_HOUR);
    forall d ensures !InWindow(Day(WEST.AsCalendar(), d), o) {
      WesternDay(d);
    }
    WesternDay(0);
    WesternDay(1);
    DaysFromDays(WEST.AsCalendar(), 0, 1);
  }

  lemma DaysFromDays(cal: Calendar, d: int, e: int)
    ensures Days(cal, d, e) == Window(Day(cal, d).startAt, Day(cal, e).endAt)
  {
  }

  /** An order completed at 00:30 on the date after the eastern one whose midnight was skipped is in the
      reports of both. */
  lemma SkippedMidnightRepeatsOrder(o: ReportOrder)
    requires o.completedAt == Some(23 * NANOS_PER_HOUR + HALF_HOUR)
    ensures var cal := EAST.AsCalendar();
            && cal.Regular() && RegularEnd(cal, 0) && !MidnightExists(cal, 0)
            && cal.dateOf(o.completedAt.value) == 1
            && InWindow(Day(cal, 0), o) && InWindow(Day(cal, 1), o)
  {
    hide RegularEnd, MidnightExists;
    ZoneIsRegular(EAST);
    SkippedMidnightEnds(EAST);
    Shows(EAST, o.completedAt.value, 1, HALF_HOUR);
    EasternDays();
  }

  lemma EasternDays()
    ensures Day(EAST.AsCalendar(), 0) == Window(0, 24 * NANOS_PER_HOUR)
    ensures Day(EAST.AsCalendar(), 1) == Window(23 * NANOS_PER_HOUR, 47 * NANOS_PER_HOUR)
  {
    Shows(EAST, 0, 0, NANOS_PER_HOUR);
    Shows(EAST, 23 * NANOS_PER_HOUR, 1, 0);
  }

  // ---- Repeated midnights ----

  lemma RepeatingDays()
    ensures Day(REPEATING.AsCalendar(), -1) == Window(-27 * NANOS_PER_HOUR, -2 * NANOS_PER_HOUR)
    ensures Day(REPEATING.AsCalendar(), 0) == Window(-2 * NANOS_PER_HOUR, 22 * NANOS_PER_HOUR)
  {
    Shows(REPEATING, -27 * NANOS_PER_HOUR, -1, 0);
    Shows(REPEATING, -2 * NANOS_PER_HOUR, 0, 0);
  }

  lemma RepeatedMidnight()
    ensures var cal := REPEATING.AsCalendar();
            MidnightExists(cal, 0) && !cal.FirstOf(cal.DayStart(0), 0) && cal.DayStart(0) == -2 * NANOS_PER_HOUR
  {
    Shows(REPEATING, -2 * NANOS_PER_HOUR, 0, 0);
    Shows(REPEATING, -2 * NANOS_PER_HOUR - 1, 0, NANOS_PER_HOUR - 1);
  }

  /** Where 00:00 is shown twice and the library takes the second, an order completed after the first is
      in the report of the date before, and the daily query groups it under its date. */
  lemma RepeatedMidnightMovesOrder(o: ReportOrder)
    requires o.completedAt == Some(-3 * NANOS_PER_HOUR + HALF_HOUR)
    ensures var cal := REPEATING.AsCalendar();
            && cal.Regular() && MidnightExists(cal, 0) && !cal.FirstOf(cal.DayStart(0), 0)
            && cal.dateOf(o.completedAt.value) == 0
            && InWindow(Day(cal, -1), o) && !InWindow(Day(cal, 0), o)
            && InGroup(cal, Days(cal, -1, 0), 0, o)
  {
    hide MidnightExists, Day;
    ZoneIsRegular(REPEATING);
    RepeatedMidnight();
    RepeatingDays();
    DaysFromDays(REPEATING.AsCalendar(), -1, 0);
    Shows(REPEATING, o.completedAt.value, 0, HALF_HOUR);
  }

  /** A clear of everything before that date deletes an order placed then, which clients keep. */
  lemma RepeatedMidnightClearsTooMuch(o: Order, count: nat)
    requires o.createdAt == -3 * NANOS_PER_HOUR + HALF_HOUR
    ensures var cal, orders := REPEATING.AsCalendar(), map[o.id := o];
            && ClearOrders(orders, o.workspace, Some(cal.DayStart(0))) == map[]
            && Apply(cal, ViewOf(orders, o.workspace), Cleared(count, Some(0))) == ViewOf(orders, o.workspace)
            && o.id in ViewOf(orders, o.workspace)
  {
    RepeatedMidnight();
    Shows(REPEATING, o.createdAt, 0, HALF_HOUR);
    assert ToDto(o).createdAt * NANOS_PER_SECOND == o.createdAt;
  }
}
