/** Business dates and the display numbers built from them. */
module Calendars {
  import opened Common

  /** A calendar date as the service prints it. */
  datatype Civil = Civil(year: nat, month: nat, day: nat) {
    predicate WellFormed() {
      year < 10000 && 1 <= month <= 12 && 1 <= day <= 31
    }
  }

  /** Day ordinals (days since 1970-01-01) of 0000-01-01 and 9999-12-31. */
  const FIRST_DATE := -719528
  const LAST_DATE := 2932896

  const NANOS_PER_HOUR := 3600 * NANOS_PER_SECOND
  const NANOS_PER_DAY := 24 * NANOS_PER_HOUR
  const NOON := 12 * NANOS_PER_HOUR

  /** The business time zone: the instant at which a date's wall clock shows a time of day, the date
      and the time of day that a wall clock shows at an instant, and how a date is written. Times of
      day are counted from 00:00. */
  datatype Calendar = Calendar(
    at: (int, int) -> Instant,
    dateOf: Instant -> int,
    clock: Instant -> int,
    civil: int -> Civil)
  {
    /** 00:00 of a date, or the instant the time library takes for it when the zone skips it. */
    function DayStart(d: int): Instant { at(d, 0) }

    /** The same time of day, one date later. */
    function NextDay(t: Instant): Instant { at(dateOf(t) + 1, clock(t)) }

    function Hour(t: Instant): int { clock(t) / NANOS_PER_HOUR }

    function Minute(t: Instant): int { clock(t) % NANOS_PER_HOUR / (60 * NANOS_PER_SECOND) }

    /** The clock never goes back to an earlier date. */
    ghost predicate Monotone() {
      forall s, t :: s <= t ==> dateOf(s) <= dateOf(t)
    }

    /** No date is skipped or repeated as a whole, and a later date starts later. */
    ghost predicate Regular() {
      && Monotone()
      && (forall s, t :: t == s + 1 ==> dateOf(t) <= dateOf(s) + 1)
      && (forall d :: dateOf(at(d, NOON)) == d)
      && (forall d, e :: d < e ==> DayStart(d) < DayStart(e))
    }

    predicate FirstOf(t: Instant, d: int) {
      dateOf(t) == d && dateOf(t - 1) == d - 1
    }

    ghost predicate ClockInRange() {
      forall t :: 0 <= clock(t) < NANOS_PER_DAY
    }

    /** Different dates of the printable years are printed differently. */
    ghost predicate Prints() {
      && (forall d :: FIRST_DATE <= d <= LAST_DATE ==> civil(d).WellFormed())
      && (forall d, e ::
            FIRST_DATE <= d <= LAST_DATE && FIRST_DATE <= e <= LAST_DATE && civil(d) == civil(e) ==> d == e)
    }

    /** Every date has a 00:00, on a whole second, and what the time library takes for it is the first
        instant of the date. */
    ghost predicate Valid() {
      && Regular() && ClockInRange() && Prints()
      && (forall d :: DayStart(d) % NANOS_PER_SECOND == 0 && clock(DayStart(d)) == 0)
      && (forall d :: FirstOf(DayStart(d), d))
    }

    predicate Covers(t: Instant) {
      FIRST_DATE <= dateOf(t) <= LAST_DATE
    }
  }

  /** Where the midnight of a date is its first instant, comparing with it is comparing dates. */
  lemma BeforeDayStart(cal: Calendar, t: Instant, d: int)
    requires cal.Monotone() && cal.FirstOf(cal.DayStart(d), d)
    ensures t < cal.DayStart(d) <==> cal.dateOf(t) < d
  {
    var start := cal.DayStart(d);
    if t < start { assert cal.dateOf(t) <= cal.dateOf(start - 1); }
  }

  /** And only there: the start of a date separates the earlier dates from the others exactly when it is
      the first instant of its date. */
  lemma StartSeparatesIff(cal: Calendar, d: int)
    requires cal.Regular()
    ensures (forall t :: t < cal.DayStart(d) <==> cal.dateOf(t) < d) <==> cal.FirstOf(cal.DayStart(d), d)
  {
    var start := cal.DayStart(d);
    if cal.FirstOf(start, d) {
      forall t ensures t < start <==> cal.dateOf(t) < d { BeforeDayStart(cal, t, d); }
    }
    if forall t :: t < start <==> cal.dateOf(t) < d {
      assert cal.dateOf(start - 1) < d <= cal.dateOf(start);
    }
  }

  /** The day after a midnight begins at the next midnight. */
  lemma NextMidnight(cal: Calendar, d: int)
    requires cal.Valid()
    ensures cal.dateOf(cal.DayStart(d)) == d && cal.NextDay(cal.DayStart(d)) == cal.DayStart(d + 1)
  {
    assert cal.FirstOf(cal.DayStart(d), d);
  }

  /** Dropping the fraction of a second never changes the business date. */
  lemma WholeSecondKeepsDate(cal: Calendar, t: Instant)
    requires cal.Valid()
    ensures cal.dateOf(t / NANOS_PER_SECOND * NANOS_PER_SECOND) == cal.dateOf(t)
  {
    var s := t / NANOS_PER_SECOND * NANOS_PER_SECOND;
    var d := cal.dateOf(t);
    var start := cal.DayStart(d);
    BeforeDayStart(cal, t, d);
    assert start == start / NANOS_PER_SECOND * NANOS_PER_SECOND;
    assert start / NANOS_PER_SECOND <= t / NANOS_PER_SECOND;
    BeforeDayStart(cal, s, d);
    assert s <= t;
  }

  // ---- Decimal notation ----

  function Digits(n: nat): (s: string)
    ensures |s| >= 1
  {
    if n < 10 then [('0' as int + n) as char] else Digits(n / 10) + [('0' as int + n % 10) as char]
  }

  function Zeros(k: nat): string {
    seq(k, _ => '0')
  }

  /** Zero-padded to at least `width` places, as %04d prints a non-negative number. */
  function Pad(n: nat, width: nat): string {
    var s := Digits(n);
    if |s| < width then Zeros(width - |s|) + s else s
  }

  function ParseDecimal(s: string): int {
    if s == [] then 0 else ParseDecimal(s[..|s| - 1]) * 10 + (s[|s| - 1] as int - '0' as int)
  }

  lemma {:induction false} ParseZeros(k: nat, s: string)
    ensures ParseDecimal(Zeros(k) + s) == ParseDecimal(s)
    decreases k, |s|
  {
    var whole := Zeros(k) + s;
    if s == [] {
      if k > 0 {
        assert whole[..k - 1] == Zeros(k - 1) + [];
        ParseZeros(k - 1, []);
      } else {
        assert whole == s;
      }
    } else {
      assert whole[..|whole| - 1] == Zeros(k) + s[..|s| - 1];
      ParseZeros(k, s[..|s| - 1]);
    }
  }

  lemma {:induction false} ParseDigits(n: nat)
    ensures ParseDecimal(Digits(n)) == n
  {
    if n >= 10 {
      ParseDigits(n / 10);
      assert Digits(n)[..|Digits(n)| - 1] == Digits(n / 10);
    } else {
      assert Digits(n)[..0] == [];
    }
  }

  lemma ParsePad(n: nat, width: nat)
    ensures ParseDecimal(Pad(n, width)) == n
  {
    ParseDigits(n);
    if |Digits(n)| < width { ParseZeros(width - |Digits(n)|, Digits(n)); }
  }

  // ---- Display numbers ----

  function FormatDate(c: Civil): string {
    Pad(c.year, 4) + Pad(c.month, 2) + Pad(c.day, 2)
  }

  function BuildDisplayNo(c: Civil, sequence: nat): string {
    FormatDate(c) + Pad(sequence, 4)
  }

  function ParseSequence(displayNo: string): int {
    if |displayNo| < 8 then -1 else ParseDecimal(displayNo[8..])
  }

  lemma DateWidth(c: Civil)
    requires c.WellFormed()
    ensures |Pad(c.year, 4)| == 4 && |Pad(c.month, 2)| == 2 && |Pad(c.day, 2)| == 2
  {
    var y := c.year;
    assert |Digits(y)| <= 4 by {
      assert y / 10 < 1000 && y / 10 / 10 < 100 && y / 10 / 10 / 10 < 10;
      assert |Digits(y / 10 / 10 / 10)| == 1;
      assert |Digits(y / 10 / 10)| <= 2;
      assert |Digits(y / 10)| <= 3;
    }
    assert c.month / 10 < 10 && c.day / 10 < 10;
    assert |Digits(c.month / 10)| == 1 && |Digits(c.day / 10)| == 1;
  }

  /** At least four places are printed for the sequence, and more only when its digits need them: zeros are
      put in front of a number below 1000, and nothing in front of any other. */
  lemma SequencePlaces(c: Civil, n: nat)
    requires c.WellFormed()
    ensures var s := BuildDisplayNo(c, n)[8..];
            && (if n < 10000 then |s| == 4 else |s| > 4 && s[0] != '0')
            && forall i :: 0 <= i < |s| ==> '0' <= s[i] <= '9'
  {
    DateWidth(c);
    assert BuildDisplayNo(c, n)[8..] == Pad(n, 4);
    DigitsOnly(n);
    DigitCount(n);
  }

  lemma {:induction false} DigitsOnly(n: nat)
    ensures forall i :: 0 <= i < |Digits(n)| ==> '0' <= Digits(n)[i] <= '9'
    ensures n > 0 ==> Digits(n)[0] != '0'
  {
    if n >= 10 { DigitsOnly(n / 10); }
  }

  lemma DigitCount(n: nat)
    ensures |Digits(n)| <= 4 <==> n < 10000
  {
    var a, b, c := n / 10, n / 10 / 10, n / 10 / 10 / 10;
    if n >= 10 {
      assert |Digits(n)| == |Digits(a)| + 1;
      if a >= 10 {
        assert |Digits(a)| == |Digits(b)| + 1;
        if b >= 10 { assert |Digits(b)| == |Digits(c)| + 1; }
      }
    }
  }

  /** Display numbers decode: the date and the sequence are both recoverable, however long
      the sequence grows. */
  lemma DisplayNoRoundTrip(c: Civil, n: nat)
    requires c.WellFormed()
    ensures var s := BuildDisplayNo(c, n);
            && |s| >= 9
            && ParseSequence(s) == n
            && ParseDecimal(s[..4]) == c.year && ParseDecimal(s[4..6]) == c.month && ParseDecimal(s[6..8]) == c.day
  {
    DateWidth(c);
    ParsePad(c.year, 4);
    ParsePad(c.month, 2);
    ParsePad(c.day, 2);
    ParsePad(n, 4);
    var s := BuildDisplayNo(c, n);
    assert s[..4] == Pad(c.year, 4);
    assert s[4..6] == Pad(c.month, 2);
    assert s[6..8] == Pad(c.day, 2);
    assert s[8..] == Pad(n, 4);
  }

  lemma DisplayNoInjective(c: Civil, n: nat, c': Civil, n': nat)
    requires c.WellFormed() && c'.WellFormed()
    ensures BuildDisplayNo(c, n) == BuildDisplayNo(c', n') <==> c == c' && n == n'
  {
    DisplayNoRoundTrip(c, n);
    DisplayNoRoundTrip(c', n');
  }
}
