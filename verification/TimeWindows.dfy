/** Hour windows in UTC and the `Retry-After` value of a quota rejection. */
module TimeWindows {

  const SECOND := 1_000_000
  const HOUR := 3600 * SECOND
  const DAY := 24 * HOUR

  /** A timezone-aware datetime: wall-clock microseconds and the zone's UTC offset. */
  datatype Aware = Aware(wall: int, offset: int) {
    function Utc(): int {
      wall - offset
    }
  }

  /** Start of the UTC hour that holds `utc`. Dafny's `%` floors for a positive divisor. */
  function FloorToHour(utc: int): int {
    utc - utc % HOUR
  }

  function FloorToHourUtc(t: Aware): int {
    FloorToHour(t.Utc())
  }

  function CeilDiv(n: int, d: int): int
    requires d > 0
  {
    -((-n) / d)
  }

  function Max(a: int, b: int): int {
    if a < b then b else a
  }

  /** Whole seconds from `receivedAt` to the end of the hour starting at `windowStart`. */
  function SecondsUntilNextHour(receivedAt: int, windowStart: int): int {
    Max(1, CeilDiv(windowStart + HOUR - receivedAt, SECOND))
  }

  /** The floor is the only UTC hour boundary whose hour holds the instant: shown on
      the wall clock of its zone, which is `offset` ahead of UTC, that boundary is at
      most an hour back. */
  lemma FloorIsTheHour(t: Aware, start: int)
    ensures start == FloorToHourUtc(t) <==>
            start % HOUR == 0 && start + t.offset <= t.wall < start + t.offset + HOUR
  {
    if start % HOUR == 0 && start + t.offset <= t.wall < start + t.offset + HOUR {
      assert t.Utc() == (start / HOUR) * HOUR + (t.Utc() - start);
    }
  }

  /** Two ways of writing one instant floor alike, and in UTC the wall clock counts. */
  lemma OffsetDoesNotMatter(t: Aware, shift: int)
    ensures FloorToHourUtc(Aware(t.wall + shift, t.offset + shift)) == FloorToHourUtc(t)
    ensures FloorToHourUtc(Aware(t.wall, 0)) == t.wall - t.wall % 3_600_000_000
  {
    assert HOUR == 3_600_000_000;
  }

  /** Hour `h` of all time and the day starting with hour `24 * d`, spelt out. */
  lemma HoursOfDay(d: int, h: int, rest: int)
    requires 0 <= rest < 3_600_000_000
    ensures 86_400_000_000 * d <= 3_600_000_000 * h < 86_400_000_000 * d + 86_400_000_000 <==>
            86_400_000_000 * d <= 3_600_000_000 * h + rest < 86_400_000_000 * d + 86_400_000_000
  {
  }

  lemma FloorStaysInDay(t: int, dayStart: int)
    requires dayStart % DAY == 0
    ensures dayStart <= FloorToHour(t) < dayStart + DAY <==> dayStart <= t < dayStart + DAY
  {
    var d, h, rest := dayStart / 86_400_000_000, t / 3_600_000_000, t % 3_600_000_000;
    assert DAY == 86_400_000_000 && HOUR == 3_600_000_000;
    assert dayStart == 86_400_000_000 * d && t == 3_600_000_000 * h + rest;
    HoursOfDay(d, h, rest);
  }

  /** What is left of the hour, `rest` microseconds into it, rounded up to seconds. */
  lemma SecondsLeft(rest: int)
    requires 0 <= rest < 3_600_000_000
    ensures var left := 3_600_000_000 - rest;
            && 1 <= CeilDiv(left, 1_000_000) <= 3600
            && (CeilDiv(left, 1_000_000) - 1) * 1_000_000 < left <= CeilDiv(left, 1_000_000) * 1_000_000
  {
  }

  /** The hint lies in 1..3600, waiting that long reaches the next window, and
      no shorter whole-second wait of at least one second does. */
  lemma QuotaHintIsTight(receivedAt: int)
    ensures
      var start := FloorToHour(receivedAt);
      var hint := SecondsUntilNextHour(receivedAt, start);
      && 1 <= hint <= 3600
      && FloorToHour(receivedAt + hint * SECOND) == start + HOUR
      && forall w :: 1 <= w < hint ==> FloorToHour(receivedAt + w * SECOND) == start
  {
    var start := FloorToHour(receivedAt);
    var hint := SecondsUntilNextHour(receivedAt, start);
    assert HOUR == 3_600_000_000 && SECOND == 1_000_000;
    SecondsLeft(receivedAt - start);
    FloorIsTheHour(Aware(receivedAt, 0), start);
    FloorIsTheHour(Aware(receivedAt + hint * 1_000_000, 0), start + HOUR);
    forall w | 1 <= w < hint
      ensures FloorToHour(receivedAt + w * SECOND) == start
    {
      FloorIsTheHour(Aware(receivedAt + w * 1_000_000, 0), start);
    }
  }
}
