/** Calendar dates, their UTC day windows and their ISO text. */
module Calendar {
  import opened Domain
  import opened TimeWindows

  datatype Date = Date(year: int, month: int, day: int)

  predicate IsLeap(y: int) {
    y % 4 == 0 && (y % 100 != 0 || y % 400 == 0)
  }

  function DaysInMonth(y: int, m: int): int {
    if m == 2 then (if IsLeap(y) then 29 else 28)
    else if m == 4 || m == 6 || m == 9 || m == 11 then 30
    else 31
  }

  /** A date of some year. */
  predicate Proper(d: Date) {
    1 <= d.month <= 12 && 1 <= d.day <= DaysInMonth(d.year, d.month)
  }

  /** The dates `datetime.date` can hold. */
  predicate Real(d: Date) {
    1 <= d.year <= 9999 && Proper(d)
  }

  function DaysBeforeYear(y: int): int {
    (y - 1) * 365 + (y - 1) / 4 - (y - 1) / 100 + (y - 1) / 400
  }

  function DaysBeforeMonth(y: int, m: int): int
    requires 1 <= m <= 13
  {
    if m == 1 then 0 else DaysBeforeMonth(y, m - 1) + DaysInMonth(y, m - 1)
  }

  /** Proleptic Gregorian ordinal: 1 for 1 January of year 1. */
  function Ordinal(d: Date): int
    requires 1 <= d.month <= 12
  {
    DaysBeforeYear(d.year) + DaysBeforeMonth(d.year, d.month) + d.day
  }

  /** Ordinal of 1 January 1970. */
  const EPOCH := 719163

  const LAST := Date(9999, 12, 31)

  /** `day_window_for`: the half-open window [start, end) in microseconds. */
  function DayWindowFor(d: Date): (int, int)
    requires Real(d)
  {
    var start := (Ordinal(d) - EPOCH) * DAY;
    (start, start + DAY)
  }

  function NextDate(d: Date): Date {
    if d.day < DaysInMonth(d.year, d.month) then Date(d.year, d.month, d.day + 1)
    else if d.month < 12 then Date(d.year, d.month + 1, 1)
    else Date(d.year + 1, 1, 1)
  }

  predicate Before(a: Date, b: Date) {
    a.year < b.year || (a.year == b.year && (a.month < b.month || (a.month == b.month && a.day < b.day)))
  }

  lemma YearLength(y: int)
    ensures DaysBeforeMonth(y, 13) == if IsLeap(y) then 366 else 365
    ensures DaysBeforeYear(y + 1) == DaysBeforeYear(y) + DaysBeforeMonth(y, 13)
  {
    MonthTable(y);
    var n := y - 1;
    assert (n + 1) / 4 == n / 4 + (if (n + 1) % 4 == 0 then 1 else 0);
    assert (n + 1) / 100 == n / 100 + (if (n + 1) % 100 == 0 then 1 else 0);
    assert (n + 1) / 400 == n / 400 + (if (n + 1) % 400 == 0 then 1 else 0);
    assert y % 400 == 0 ==> y % 100 == 0;
    assert y % 100 == 0 ==> y % 4 == 0;
  }

  lemma MonthTable(y: int)
    ensures DaysBeforeMonth(y, 13) == if IsLeap(y) then 366 else 365
  {
    assert DaysBeforeMonth(y, 1) == 0;
    assert DaysBeforeMonth(y, 2) == 31;
    assert DaysBeforeMonth(y, 3) == 31 + DaysInMonth(y, 2);
    assert DaysBeforeMonth(y, 5) == DaysBeforeMonth(y, 3) + 61;
    assert DaysBeforeMonth(y, 7) == DaysBeforeMonth(y, 5) + 61;
    assert DaysBeforeMonth(y, 9) == DaysBeforeMonth(y, 7) + 62;
    assert DaysBeforeMonth(y, 11) == DaysBeforeMonth(y, 9) + 61;
    assert DaysBeforeMonth(y, 13) == DaysBeforeMonth(y, 11) + 61;
  }

  /** The date after a real date has the next ordinal, across month ends, leap
      days, centuries and year ends. */
  lemma NextIsNext(d: Date)
    requires Proper(d)
    ensures Real(d) && d != LAST ==> Real(NextDate(d))
    ensures Proper(NextDate(d)) && Ordinal(NextDate(d)) == Ordinal(d) + 1
  {
    YearLength(d.year);
  }

  lemma {:induction false} MonthsAddUp(y: int, m: int, n: int)
    requires 1 <= m < n <= 13
    ensures DaysBeforeMonth(y, m) + DaysInMonth(y, m) <= DaysBeforeMonth(y, n)
  {
    if m + 1 < n {
      MonthsAddUp(y, m, n - 1);
    }
  }

  lemma {:induction false} YearsAddUp(y: int, z: int)
    requires 1 <= y < z
    ensures DaysBeforeYear(y) + DaysBeforeMonth(y, 13) <= DaysBeforeYear(z)
    decreases z - y
  {
    YearLength(y);
    if y + 1 < z {
      YearsAddUp(y + 1, z);
      MonthTable(y + 1);
    }
  }

  /** Ordinals order dates as the calendar does, so no two dates share one. */
  lemma OrdinalFollowsCalendar(a: Date, b: Date)
    requires Real(a) && Real(b)
    ensures Before(a, b) <==> Ordinal(a) < Ordinal(b)
    ensures a == b <==> Ordinal(a) == Ordinal(b)
  {
    if Before(a, b) {
      EarlierIsSmaller(a, b);
    } else if Before(b, a) {
      EarlierIsSmaller(b, a);
    }
  }

  lemma EarlierIsSmaller(a: Date, b: Date)
    requires Real(a) && Real(b) && Before(a, b)
    ensures Ordinal(a) < Ordinal(b)
  {
    if a.year < b.year {
      YearsAddUp(a.year, b.year);
      MonthsAddUp(a.year, a.month, 13);
      NonNegativeMonths(b.year, b.month);
    } else if a.month < b.month {
      MonthsAddUp(a.year, a.month, b.month);
    }
  }

  lemma {:induction false} NonNegativeMonths(y: int, m: int)
    requires 1 <= m <= 13
    ensures DaysBeforeMonth(y, m) >= 0
  {
    if m > 1 {
      NonNegativeMonths(y, m - 1);
    }
  }

  /** The date with a given ordinal. */
  function FromOrdinal(n: int): (d: Date)
    requires 1 <= n <= Ordinal(LAST)
    ensures Real(d) && Ordinal(d) == n
    decreases n
  {
    if n == 1 then Date(1, 1, 1)
    else
      var e := FromOrdinal(n - 1);
      NextIsNext(e);
      NextDate(e)
  }

  function DayOf(t: int): int {
    t / DAY + EPOCH
  }

  /** `t` lies in day `n` or later, and in day `n` or earlier, as its quotient says. */
  lemma DayBounds(n: int, t: int)
    ensures (n - EPOCH) * DAY <= t <==> n <= DayOf(t)
    ensures t < (n - EPOCH) * DAY + DAY <==> DayOf(t) <= n
    ensures (n - EPOCH) * DAY % DAY == 0
  {
    var k := n - EPOCH;
    assert (t / DAY) * DAY <= t < (t / DAY) * DAY + DAY;
    if k <= t / DAY {
      assert k * DAY <= (t / DAY) * DAY;
    } else {
      assert k * DAY >= (t / DAY + 1) * DAY;
    }
    if t / DAY <= k {
      assert (t / DAY) * DAY <= k * DAY;
    } else {
      assert (t / DAY) * DAY >= (k + 1) * DAY;
    }
  }

  lemma InWindow(d: Date, t: int)
    requires Real(d)
    ensures DayWindowFor(d).0 % DAY == 0
    ensures DayWindowFor(d).0 <= t < DayWindowFor(d).1 <==> DayOf(t) == Ordinal(d)
  {
    DayBounds(Ordinal(d), t);
  }

  /** Day windows leave no gap and do not overlap: the window of the next date
      starts where the window of a date ends. */
  lemma NextWindowFollows(d: Date)
    requires Real(d) && d != LAST
    ensures Real(NextDate(d)) && DayWindowFor(NextDate(d)).0 == DayWindowFor(d).1
  {
    NextIsNext(d);
  }

  /** Every instant of the days `date` can name is in the window of exactly one date. */
  lemma EveryInstantHasOneDate(t: int, d: Date)
    requires 1 <= DayOf(t) <= Ordinal(LAST) && Real(d)
    ensures DayWindowFor(d).0 <= t < DayWindowFor(d).1 <==> d == FromOrdinal(DayOf(t))
  {
    InWindow(d, t);
    OrdinalFollowsCalendar(d, FromOrdinal(DayOf(t)));
  }

  // ---------------------------------------------------------------- ISO text

  function Digit(n: int): char
    requires 0 <= n <= 9
  {
    '0' + n as char
  }

  predicate IsDigit(c: char) {
    '0' <= c <= '9'
  }

  function Value(c: char): int
    requires IsDigit(c)
  {
    c as int - '0' as int
  }

  function Two(n: int): string
    requires 0 <= n <= 99
  {
    [Digit(n / 10), Digit(n % 10)]
  }

  function Four(n: int): string
    requires 0 <= n <= 9999
  {
    Two(n / 100) + Two(n % 100)
  }

  /** `YYYY-MM-DD`. */
  function IsoDate(d: Date): string
    requires Real(d)
  {
    Four(d.year) + "-" + Two(d.month) + "-" + Two(d.day)
  }

  predicate IsoShape(raw: string) {
    && |raw| == 10 && raw[4] == '-' && raw[7] == '-'
    && (forall i :: 0 <= i < 10 && i != 4 && i != 7 ==> IsDigit(raw[i]))
  }

  function Number2(raw: string, i: nat): int
    requires i + 2 <= |raw| && IsDigit(raw[i]) && IsDigit(raw[i + 1])
  {
    Value(raw[i]) * 10 + Value(raw[i + 1])
  }

  /** Shape check, then `date.fromisoformat`. */
  function FromIsoFormat(raw: string): (r: Option<Date>)
    ensures r.Some? ==> Real(r.value)
  {
    if !IsoShape(raw) then None
    else
      var d := Date(Number2(raw, 0) * 100 + Number2(raw, 2), Number2(raw, 5), Number2(raw, 8));
      if Real(d) then Some(d) else None
  }

  lemma TwoDigits(n: int)
    requires 0 <= n <= 99
    ensures |Two(n)| == 2 && IsDigit(Two(n)[0]) && IsDigit(Two(n)[1]) && Number2(Two(n), 0) == n
  {
  }

  lemma DigitsBack(c: char, e: char)
    requires IsDigit(c) && IsDigit(e)
    ensures Two(Value(c) * 10 + Value(e)) == [c, e]
  {
  }

  lemma FourDigits(n: int)
    requires 0 <= n <= 9999
    ensures |Four(n)| == 4 && (forall i :: 0 <= i < 4 ==> IsDigit(Four(n)[i]))
    ensures Number2(Four(n), 0) * 100 + Number2(Four(n), 2) == n
  {
    TwoDigits(n / 100);
    TwoDigits(n % 100);
  }

  lemma WrittenDateReads(d: Date)
    requires Real(d)
    ensures FromIsoFormat(IsoDate(d)) == Some(d)
  {
    FourDigits(d.year);
    TwoDigits(d.month);
    TwoDigits(d.day);
    var raw := IsoDate(d);
    assert raw[..4] == Four(d.year) && raw[5..7] == Two(d.month) && raw[8..10] == Two(d.day);
    assert IsoShape(raw);
  }

  lemma ReadDateWrites(raw: string)
    requires IsoShape(raw) && Real(Date(Number2(raw, 0) * 100 + Number2(raw, 2), Number2(raw, 5), Number2(raw, 8)))
    ensures IsoDate(Date(Number2(raw, 0) * 100 + Number2(raw, 2), Number2(raw, 5), Number2(raw, 8))) == raw
  {
    DigitsBack(raw[0], raw[1]);
    DigitsBack(raw[2], raw[3]);
    DigitsBack(raw[5], raw[6]);
    DigitsBack(raw[8], raw[9]);
    var a, b := Number2(raw, 0), Number2(raw, 2);
    assert (a * 100 + b) / 100 == a && (a * 100 + b) % 100 == b;
  }

  /** Reading and writing ISO dates are inverse: a text is accepted exactly when
      it is the text of a real date, and then it reads as that date. */
  lemma IsoRoundTrip(raw: string, d: Date)
    requires Real(d)
    ensures FromIsoFormat(raw) == Some(d) <==> raw == IsoDate(d)
  {
    WrittenDateReads(d);
    if FromIsoFormat(raw) == Some(d) {
      ReadDateWrites(raw);
    }
  }

  const MAX_LOOKBACK_DAYS := 90
  const MAX_LOOKAHEAD_DAYS := 1

  datatype DailyDateWindow = DailyDateWindow(date: string, dayStart: int, dayEnd: int)

  /** `parse_daily_date`; `None` is the 400 answer, `now` the server clock. */
  function ParseDailyDate(raw: Option<string>, now: int): Option<DailyDateWindow> {
    if raw.None? then None
    else
      var parsed := FromIsoFormat(raw.value);
      if parsed.None? then None
      else if !(DayOf(now) - MAX_LOOKBACK_DAYS <= Ordinal(parsed.value) <= DayOf(now) + MAX_LOOKAHEAD_DAYS) then None
      else
        var (dayStart, dayEnd) := DayWindowFor(parsed.value);
        Some(DailyDateWindow(raw.value, dayStart, dayEnd))
  }

  /** `raw` is the text of real date `d`, whose day begins at most one day after
      `now` and ended at most 90 days before the day of `now`. */
  predicate NamesInRange(raw: Option<string>, now: int, d: Date) {
    && Real(d) && raw == Some(IsoDate(d))
    && DayWindowFor(d).0 - 86_400_000_000 <= now < DayWindowFor(d).0 + 91 * 86_400_000_000
  }

  lemma RangeInDays(d: Date, now: int)
    requires Real(d)
    ensures DayOf(now) - 90 <= Ordinal(d) <= DayOf(now) + 1 <==>
            DayWindowFor(d).0 - 86_400_000_000 <= now < DayWindowFor(d).0 + 91 * 86_400_000_000
  {
    assert DAY == 86_400_000_000;
    DayBounds(Ordinal(d) - 1, now);
    DayBounds(Ordinal(d) + 90, now);
  }

  /** A value is accepted if and only if it names a real date in range, and then its
      window is that of the date; a missing value and every other text is a 400. */
  lemma DailyDateIsExact(raw: Option<string>, now: int)
    ensures var r := ParseDailyDate(raw, now);
            && (r.Some? <==> exists d :: NamesInRange(raw, now, d))
            && forall d :: NamesInRange(raw, now, d) ==>
                 r == Some(DailyDateWindow(raw.value, DayWindowFor(d).0, DayWindowFor(d).1))
  {
    var r := ParseDailyDate(raw, now);
    if raw.Some? && FromIsoFormat(raw.value).Some? {
      var d := FromIsoFormat(raw.value).value;
      IsoRoundTrip(raw.value, d);
      RangeInDays(d, now);
      assert r.Some? ==> NamesInRange(raw, now, d);
    }
    forall d | NamesInRange(raw, now, d)
      ensures r == Some(DailyDateWindow(raw.value, DayWindowFor(d).0, DayWindowFor(d).1))
    {
      IsoRoundTrip(raw.value, d);
      RangeInDays(d, now);
    }
  }

  /** Hour of the UTC day, with 86 400 000 000 microseconds to a day and
      3 600 000 000 to an hour. */
  function HourOf(t: int): (hour: int)
    ensures 0 <= hour < 24
  {
    t % 86_400_000_000 / 3_600_000_000
  }

  /** `datetime.isoformat()` of a window start: a UTC instant on the hour. */
  function FormatWindowStart(w: int): string
    requires 1 <= DayOf(w) <= Ordinal(LAST)
  {
    IsoDate(FromOrdinal(DayOf(w))) + "T" + Two(HourOf(w)) + ":00:00+00:00"
  }

  lemma HourInDay(w: int)
    requires w % 3_600_000_000 == 0
    ensures w == (w / 86_400_000_000) * 86_400_000_000 + HourOf(w) * 3_600_000_000
  {
    var k, d := w / 3_600_000_000, w / 86_400_000_000;
    assert w == k * 3_600_000_000;
    assert w % 86_400_000_000 == (k - d * 24) * 3_600_000_000;
  }

  /** Two window starts print alike only if they are the same. */
  lemma WindowTextIsUnique(v: int, w: int)
    requires v % HOUR == 0 && w % HOUR == 0
    requires 1 <= DayOf(v) <= Ordinal(LAST) && 1 <= DayOf(w) <= Ordinal(LAST)
    ensures FormatWindowStart(v) == FormatWindowStart(w) ==> v == w
  {
    assert DAY == 86_400_000_000 && HOUR == 3_600_000_000;
    HourInDay(v);
    HourInDay(w);
    if FormatWindowStart(v) == FormatWindowStart(w) {
      SameText(FromOrdinal(DayOf(v)), FromOrdinal(DayOf(w)), HourOf(v), HourOf(w));
    }
  }

  lemma SameText(a: Date, b: Date, g: int, h: int)
    requires Real(a) && Real(b) && 0 <= g < 24 && 0 <= h < 24
    requires IsoDate(a) + "T" + Two(g) + ":00:00+00:00" == IsoDate(b) + "T" + Two(h) + ":00:00+00:00"
    ensures a == b && g == h
  {
    var s, t := IsoDate(a) + "T" + Two(g) + ":00:00+00:00", IsoDate(b) + "T" + Two(h) + ":00:00+00:00";
    assert s[..10] == IsoDate(a) && t[..10] == IsoDate(b);
    IsoRoundTrip(IsoDate(a), a);
    IsoRoundTrip(IsoDate(a), b);
    assert s[11..13] == Two(g) && t[11..13] == Two(h);
    TwoDigits(g);
    TwoDigits(h);
  }
}
