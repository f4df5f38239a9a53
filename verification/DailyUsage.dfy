/** `GET /v1/usage/daily` from the query text to the counts. */
module DailyUsage {
  import opened Domain
  import opened Protocol
  import opened TimeWindows
  import opened Calendar
  import opened CivilTime
  import opened Ordering
  import opened UsageReads

  lemma WindowOfQuery(raw: Option<string>, now: int, d: Date, n: int)
    requires NamesInRange(raw, now, d) && DaysFromUnix(d, n)
    ensures ParseDailyDate(raw, now)
            == Some(DailyDateWindow(raw.value, n * 86_400_000_000, n * 86_400_000_000 + 86_400_000_000))
  {
    DailyDateIsExact(raw, now);
    WindowIsCounted(d);
  }

  lemma WholeDays(n: int)
    ensures n * 86_400_000_000 % 86_400_000_000 == 0
  {
  }

  lemma CountsOfWindow(s: State, schedule: seq<Action>, tenant: nat, start: int, end: int,
                       less: (string, string) -> bool)
    requires Initial(s) && s.tables == Tables([], map[], map[]) && Valid(s, schedule) && StrictTotalOrder(less)
    requires start % 86_400_000_000 == 0 && end == start + 86_400_000_000
    ensures var r := Run(s, schedule);
            ExactDay(AggregateDaily(r.tables.rollup, tenant, start, end, less), r.log, tenant, start, less)
  {
    assert DAY == 86_400_000_000;
    DailyAnswerIsExact(s, schedule, tenant, start, less);
  }

  /** In every reachable state a date in range gets the counts of its own day, which
      lies as many days after the Unix epoch as dates are counted in between. */
  lemma DailyUsageIsExact(s: State, schedule: seq<Action>, tenant: nat, raw: Option<string>, now: int,
                          d: Date, n: int, window: DailyDateWindow, less: (string, string) -> bool)
    requires Initial(s) && s.tables == Tables([], map[], map[]) && Valid(s, schedule) && StrictTotalOrder(less)
    requires NamesInRange(raw, now, d) && DaysFromUnix(d, n) && ParseDailyDate(raw, now) == Some(window)
    ensures window.date == raw.value
    ensures var r := Run(s, schedule);
            ExactDay(AggregateDaily(r.tables.rollup, tenant, window.dayStart, window.dayEnd, less),
                     r.log, tenant, n * 86_400_000_000, less)
  {
    WindowOfQuery(raw, now, d, n);
    WholeDays(n);
    CountsOfWindow(s, schedule, tenant, window.dayStart, window.dayEnd, less);
  }
}
