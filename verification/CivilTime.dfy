/** The calendar of `Calendar` tied to the lengths of the months, to the Unix epoch
    and to the characters of ISO text. */
module CivilTime {
  import opened Domain
  import opened TimeWindows
  import opened Calendar

  const UNIX := Date(1970, 1, 1)

  /** Days of each month, as section 5.7 of RFC 3339 lists them. */
  lemma MonthLengths(y: int)
    ensures DaysInMonth(y, 1) == 31
    ensures DaysInMonth(y, 2) == if (y % 4 == 0 && y % 100 != 0) || y % 400 == 0 then 29 else 28
    ensures DaysInMonth(y, 3) == 31 && DaysInMonth(y, 4) == 30 && DaysInMonth(y, 5) == 31
    ensures DaysInMonth(y, 6) == 30 && DaysInMonth(y, 7) == 31 && DaysInMonth(y, 8) == 31
    ensures DaysInMonth(y, 9) == 30 && DaysInMonth(y, 10) == 31 && DaysInMonth(y, 11) == 30
    ensures DaysInMonth(y, 12) == 31
  {
  }

  /** The next date is the least real date after `d`. */
  lemma NextDateIsNext(d: Date, e: Date)
    requires Real(d) && Real(e) && d != LAST
    ensures Real(NextDate(d))
    ensures Before(d, e) <==> e == NextDate(d) || Before(NextDate(d), e)
  {
    NextIsNext(d);
    OrdinalFollowsCalendar(d, e);
    OrdinalFollowsCalendar(NextDate(d), e);
  }

  /** `LAST` is the last date of year 9999. */
  lemma LastIsLast(d: Date)
    requires Real(d)
    ensures d == LAST || Before(d, LAST)
    ensures LAST.year == 9999 && LAST.month == 12 && LAST.day == 31
  {
  }

  function Later(d: Date, days: nat): Date {
    if days == 0 then d else NextDate(Later(d, days - 1))
  }

  lemma {:induction false} LaterCounts(d: Date, days: nat)
    requires Proper(d)
    ensures Proper(Later(d, days)) && Ordinal(Later(d, days)) == Ordinal(d) + days
    ensures Real(d) && Ordinal(d) + days <= Ordinal(LAST) ==> Real(Later(d, days))
  {
    if days > 0 {
      LaterCounts(d, days - 1);
      NextIsNext(Later(d, days - 1));
    }
  }

  /** `d` is `n` days after 1 January 1970, or `-n` days before it, counted date by date. */
  predicate DaysFromUnix(d: Date, n: int) {
    if n >= 0 then Later(UNIX, n) == d else Later(d, -n) == UNIX
  }

  lemma UnixOrdinal()
    ensures Real(UNIX) && Ordinal(UNIX) == EPOCH
    ensures DayWindowFor(Date(1970, 1, 1)) == (0, 86_400_000_000)
  {
    assert DaysBeforeYear(1970) == 719162 && DaysBeforeMonth(1970, 1) == 0;
    assert DAY == 86_400_000_000;
  }

  lemma CountIsOrdinal(d: Date, n: int)
    requires Real(d)
    ensures DaysFromUnix(d, n) ==> n == Ordinal(d) - EPOCH
  {
    UnixOrdinal();
    if n >= 0 {
      LaterCounts(UNIX, n);
    } else {
      LaterCounts(d, -n);
    }
  }

  lemma EveryDateIsCounted(d: Date)
    requires Real(d)
    ensures DaysFromUnix(d, Ordinal(d) - EPOCH)
  {
    var n := Ordinal(d) - EPOCH;
    UnixOrdinal();
    LastIsLast(d);
    LastIsLast(UNIX);
    OrdinalFollowsCalendar(d, LAST);
    OrdinalFollowsCalendar(UNIX, LAST);
    if n >= 0 {
      LaterCounts(UNIX, n);
      OrdinalFollowsCalendar(Later(UNIX, n), d);
    } else {
      LaterCounts(d, -n);
      OrdinalFollowsCalendar(Later(d, -n), UNIX);
    }
  }

  /** The window of every date, counted: it starts as many days of 86 400 000 000
      microseconds after the epoch as there are dates in between, and there is
      exactly one such count. */
  lemma WindowIsCounted(d: Date)
    requires Real(d)
    ensures exists n :: DaysFromUnix(d, n)
    ensures forall n :: DaysFromUnix(d, n) ==> DayWindowFor(d) == (n * 86_400_000_000, (n + 1) * 86_400_000_000)
  {
    EveryDateIsCounted(d);
    forall n | DaysFromUnix(d, n)
      ensures DayWindowFor(d) == (n * 86_400_000_000, (n + 1) * 86_400_000_000)
    {
      CountIsOrdinal(d, n);
      assert DAY == 86_400_000_000;
    }
  }

  // ------------------------------------------------------------------- ISO text

  /** Value of the decimal digit with ASCII code 48 and up. */
  predicate IsDecimal(c: char, n: int) {
    0 <= n <= 9 && c as int == 48 + n
  }

  lemma TwoDecimals(n: int)
    requires 0 <= n <= 99
    ensures |Two(n)| == 2 && IsDecimal(Two(n)[0], n / 10) && IsDecimal(Two(n)[1], n % 10)
  {
  }

  /** `YYYY-MM-DD`, character by character. */
  lemma IsoCharacters(d: Date)
    requires Real(d)
    ensures var s := IsoDate(d);
            && |s| == 10 && s[4] == '-' && s[7] == '-'
            && IsDecimal(s[0], d.year / 1000) && IsDecimal(s[1], d.year / 100 % 10)
            && IsDecimal(s[2], d.year / 10 % 10) && IsDecimal(s[3], d.year % 10)
            && IsDecimal(s[5], d.month / 10) && IsDecimal(s[6], d.month % 10)
            && IsDecimal(s[8], d.day / 10) && IsDecimal(s[9], d.day % 10)
  {
    TwoDecimals(d.year / 100);
    TwoDecimals(d.year % 100);
    TwoDecimals(d.month);
    TwoDecimals(d.day);
    YearDigits(d.year);
    var s := IsoDate(d);
    assert s[0..2] == Two(d.year / 100) && s[2..4] == Two(d.year % 100);
    assert s[5..7] == Two(d.month) && s[8..10] == Two(d.day);
  }

  lemma YearDigits(y: int)
    requires 0 <= y <= 9999
    ensures y / 100 / 10 == y / 1000 && y % 100 / 10 == y / 10 % 10 && y % 100 % 10 == y % 10
  {
  }

  lemma DayOfHour(d: Date, h: int)
    requires Real(d) && 0 <= h < 24
    ensures var w := DayWindowFor(d).0 + h * 3_600_000_000;
            DayOf(w) == Ordinal(d) && HourOf(w) == h
  {
    var w, k := DayWindowFor(d).0 + h * 3_600_000_000, Ordinal(d) - EPOCH;
    WindowInLiterals(d);
    HourOfWindow(k, h);
    assert w == k * 86_400_000_000 + h * 3_600_000_000;
    DayInLiterals(w);
  }

  lemma HourLiesInDay(d: Date, h: int)
    requires Real(d) && 0 <= h < 24
    ensures var w := DayWindowFor(d).0 + h * 3_600_000_000;
            1 <= DayOf(w) <= Ordinal(LAST) && FromOrdinal(DayOf(w)) == d && HourOf(w) == h
  {
    DayOfHour(d, h);
    DateOfOrdinal(d);
  }

  lemma DateOfOrdinal(d: Date)
    requires Real(d)
    ensures 1 <= Ordinal(d) <= Ordinal(LAST) && FromOrdinal(Ordinal(d)) == d
  {
    LastIsLast(d);
    FirstIsFirst(d);
    OrdinalFollowsCalendar(d, LAST);
    OrdinalFollowsCalendar(d, FromOrdinal(Ordinal(d)));
  }

  lemma WindowInLiterals(d: Date)
    requires Real(d)
    ensures DayWindowFor(d).0 == (Ordinal(d) - EPOCH) * 86_400_000_000
    ensures DayWindowFor(d).1 == DayWindowFor(d).0 + 86_400_000_000
  {
    assert DAY == 86_400_000_000;
  }

  /** The text of the window that starts at hour `h` of date `d`. */
  lemma WindowText(d: Date, h: int)
    requires Real(d) && 0 <= h < 24
    ensures var w := DayWindowFor(d).0 + h * 3_600_000_000;
            && 1 <= DayOf(w) <= Ordinal(LAST)
            && FormatWindowStart(w) == IsoDate(d) + "T" + Two(h) + ":00:00+00:00"
  {
    HourLiesInDay(d, h);
  }

  lemma FirstIsFirst(d: Date)
    requires Real(d)
    ensures Ordinal(d) >= 1
  {
    OrdinalFollowsCalendar(Date(1, 1, 1), d);
    assert Ordinal(Date(1, 1, 1)) == 1;
  }

  lemma HourOfWindow(day: int, h: int)
    requires 0 <= h < 24
    ensures HourOf(day * 86_400_000_000 + h * 3_600_000_000) == h
    ensures (day * 86_400_000_000 + h * 3_600_000_000) / 86_400_000_000 == day
  {
    var t := day * 86_400_000_000 + h * 3_600_000_000;
    assert t % 86_400_000_000 == h * 3_600_000_000;
  }

  lemma MidnightText(d: Date, t: int)
    requires Real(d) && t == DayWindowFor(d).0
    ensures 1 <= DayOf(t) <= Ordinal(LAST) && FormatWindowStart(t) == IsoDate(d) + "T00:00:00+00:00"
  {
    WindowText(d, 0);
    assert Two(0) == "00";
    assert IsoDate(d) + "T" + "00" + ":00:00+00:00" == IsoDate(d) + "T00:00:00+00:00";
  }

  lemma UnixDate(d: Date)
    requires d == UNIX
    ensures Real(d) && IsoDate(d) == "1970-01-01"
  {
    assert Two(19) == "19" && Two(70) == "70" && Two(1) == "01";
  }

  lemma UnixMidnight(d: Date)
    requires d == UNIX
    ensures Real(d) && DayWindowFor(d).0 == 0
  {
    UnixOrdinal();
  }

  lemma Glued()
    ensures "1970-01-01" + "T00:00:00+00:00" == "1970-01-01T00:00:00+00:00"
  {
  }

  /** The epoch prints as the start of 1970. */
  lemma UnixText(d: Date, t: int)
    requires d.year == 1970 && d.month == 1 && d.day == 1 && t == 0
    ensures 1 <= DayOf(t) <= Ordinal(LAST) && FormatWindowStart(t) == "1970-01-01T00:00:00+00:00"
  {
    UnixDate(d);
    UnixMidnight(d);
    MidnightText(d, t);
    Glued();
  }

  /** Reads the text of a window start back into microseconds. */
  function ReadWindowStart(s: string): Option<int> {
    if |s| != 25 || s[10] != 'T' || !IsDigit(s[11]) || !IsDigit(s[12]) || s[13..] != ":00:00+00:00" then None
    else if FromIsoFormat(s[..10]).None? || Number2(s, 11) >= 24 then None
    else Some(DayWindowFor(FromIsoFormat(s[..10]).value).0 + Number2(s, 11) * 3_600_000_000)
  }

  lemma ReadsText(d: Date, h: int)
    requires Real(d) && 0 <= h < 24
    ensures ReadWindowStart(IsoDate(d) + "T" + Two(h) + ":00:00+00:00") == Some(DayWindowFor(d).0 + h * 3_600_000_000)
  {
    var s := IsoDate(d) + "T" + Two(h) + ":00:00+00:00";
    IsoCharacters(d);
    TwoDigits(h);
    assert s[..10] == IsoDate(d) && s[11..13] == Two(h) && s[13..] == ":00:00+00:00";
    IsoRoundTrip(s[..10], d);
  }

  /** Every window start on the hour is read back from its text. */
  lemma WindowStartRoundTrip(w: int)
    requires w % 3_600_000_000 == 0 && 1 <= DayOf(w) <= Ordinal(LAST)
    ensures ReadWindowStart(FormatWindowStart(w)) == Some(w)
  {
    var d := FromOrdinal(DayOf(w));
    ReadsText(d, HourOf(w));
    HourInDay(w);
    WindowInLiterals(d);
    DayInLiterals(w);
  }

  lemma DayInLiterals(t: int)
    ensures DayOf(t) == t / 86_400_000_000 + EPOCH
  {
    assert DAY == 86_400_000_000;
  }
}
