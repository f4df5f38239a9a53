/** The usage endpoints read the rollup; these are the answers raw events would give. */
module UsageReads {
  import opened Domain
  import opened Protocol
  import opened Invariants
  import opened RollupView
  import opened Idempotency
  import opened Ordering
  import opened TimeWindows

  /** `SELECT total_quantity, event_count ... WHERE` the full primary key. */
  function FindUsageRollup(rollup: map<BucketKey, Counter>, b: BucketKey): Option<Counter> {
    if b in rollup then Some(rollup[b]) else None
  }

  /** `GET /v1/usage`: an absent bucket reads as zeros. */
  function GetUsage(rollup: map<BucketKey, Counter>, k: QuotaKey, window: Aware): Counter {
    match FindUsageRollup(rollup, BucketKey(k, FloorToHourUtc(window)))
    case Some(c) => c
    case None => Counter(0, 0)
  }

  datatype DailyMetricCount = DailyMetricCount(metric: string, eventCount: nat)

  /** `WHERE api_key_id = ? AND window_start >= ? AND window_start < ?`. */
  ghost function DayRows(rollup: map<BucketKey, Counter>, tenant: nat, dayStart: int, dayEnd: int): set<BucketKey> {
    set b | b in rollup && b.quota.tenant == tenant && dayStart <= b.window < dayEnd
  }

  ghost function OfMetric(rows: set<BucketKey>, metric: string): set<BucketKey> {
    set b | b in rows && b.quota.metric == metric
  }

  ghost function Pick(rows: set<BucketKey>): BucketKey
    requires rows != {}
  {
    var b :| b in rows; b
  }

  /** `SUM(event_count)` over a group of rollup rows. */
  ghost function SumCounts(rollup: map<BucketKey, Counter>, rows: set<BucketKey>): nat
    requires rows <= rollup.Keys
  {
    if rows == {} then 0 else rollup[Pick(rows)].count + SumCounts(rollup, rows - {Pick(rows)})
  }

  /** `SELECT metric, SUM(event_count) ... GROUP BY metric ORDER BY metric`, with
      the collation of the database as a parameter. */
  ghost function AggregateDaily(rollup: map<BucketKey, Counter>, tenant: nat, dayStart: int, dayEnd: int,
                                less: (string, string) -> bool): seq<DailyMetricCount>
    requires StrictTotalOrder(less)
  {
    var rows := DayRows(rollup, tenant, dayStart, dayEnd);
    var metrics := Sorted(set b | b in rows :: b.quota.metric, less);
    seq(|metrics|, i requires 0 <= i < |metrics| =>
      DailyMetricCount(metrics[i], SumCounts(rollup, OfMetric(rows, metrics[i]))))
  }

  /** Usage of `k` answered 201 and received in [from, to). */
  function ReceivedQuantity(log: seq<Txn>, k: QuotaKey, from: int, to: int): int {
    if |log| == 0 then 0
    else
      var x := log[|log| - 1];
      ReceivedQuantity(log[..|log| - 1], k, from, to)
      + (if Got201(x) && x.req.Ingest? && x.req.key == k && from <= x.req.receivedAt < to then x.req.quantity else 0)
  }

  /** Requests of `k` answered 201 and received in [from, to). */
  function ReceivedCount(log: seq<Txn>, k: QuotaKey, from: int, to: int): nat {
    if |log| == 0 then 0
    else
      var x := log[|log| - 1];
      ReceivedCount(log[..|log| - 1], k, from, to)
      + (if Got201(x) && x.req.Ingest? && x.req.key == k && from <= x.req.receivedAt < to then 1 else 0)
  }

  /** Requests of a tenant for a metric, any customer, answered 201 and received in [from, to). */
  function ReceivedForMetric(log: seq<Txn>, tenant: nat, metric: string, from: int, to: int): nat {
    if |log| == 0 then 0
    else
      var x := log[|log| - 1];
      ReceivedForMetric(log[..|log| - 1], tenant, metric, from, to)
      + (if Got201(x) && x.req.Ingest? && x.req.key.tenant == tenant && x.req.key.metric == metric
            && from <= x.req.receivedAt < to then 1 else 0)
  }

  /** A log entry that answered 201 answered with its own row. */
  predicate OwnRow(x: Txn) {
    Got201(x) ==> x.req.Ingest? && x.phase.outcome.event == x.Row()
  }

  ghost predicate OwnRows(log: seq<Txn>) {
    forall i :: 0 <= i < |log| ==> OwnRow(log[i])
  }

  /** Events whose bucket is in `rows`. */
  ghost function CountIn(events: seq<Event>, rows: set<BucketKey>): nat {
    if |events| == 0 then 0
    else CountIn(events[..|events| - 1], rows) + (if events[|events| - 1].Bucket() in rows then 1 else 0)
  }

  /** The last log entry adds its row, if any, to each aggregate over the rows. */
  lemma RowsGrow(log: seq<Txn>, b: BucketKey, rows: set<BucketKey>)
    requires |log| > 0
    ensures var x, before, all := log[|log| - 1], CreatedRows(log[..|log| - 1]), CreatedRows(log);
      if Got201(x) then
        var e := x.phase.outcome.event;
        && SumQuantity(all, b) == SumQuantity(before, b) + (if e.Bucket() == b then e.quantity else 0)
        && CountEvents(all, b) == CountEvents(before, b) + (if e.Bucket() == b then 1 else 0)
        && CountIn(all, rows) == CountIn(before, rows) + (if e.Bucket() in rows then 1 else 0)
      else all == before
  {
    var x, before, all := log[|log| - 1], CreatedRows(log[..|log| - 1]), CreatedRows(log);
    if Got201(x) {
      assert all[..|all| - 1] == before;
    } else {
      assert all == before;
    }
  }

  lemma EntryOfHour(x: Txn, k: QuotaKey, start: int)
    requires x.req.Ingest? && start % HOUR == 0
    ensures x.Row().Bucket() == BucketKey(k, start) <==>
            x.req.key == k && start <= x.req.receivedAt < start + HOUR
  {
    FloorIsTheHour(Aware(x.req.receivedAt, 0), start);
  }

  lemma {:induction false} HourOfLog(log: seq<Txn>, k: QuotaKey, start: int)
    requires OwnRows(log) && start % HOUR == 0
    ensures SumQuantity(CreatedRows(log), BucketKey(k, start)) == ReceivedQuantity(log, k, start, start + HOUR)
    ensures CountEvents(CreatedRows(log), BucketKey(k, start)) == ReceivedCount(log, k, start, start + HOUR)
  {
    if |log| > 0 {
      var n := |log| - 1;
      var x := log[n];
      assert OwnRow(x);
      HourOfLog(log[..n], k, start);
      RowsGrow(log, BucketKey(k, start), {});
      if Got201(x) {
        EntryOfHour(x, k, start);
      }
    }
  }

  lemma {:induction false} CountInSplits(events: seq<Event>, rows: set<BucketKey>, b: BucketKey)
    requires b in rows
    ensures CountIn(events, rows) == CountEvents(events, b) + CountIn(events, rows - {b})
  {
    if |events| > 0 {
      CountInSplits(events[..|events| - 1], rows, b);
    }
  }

  lemma {:induction false} CountInNothing(events: seq<Event>)
    ensures CountIn(events, {}) == 0
  {
    if |events| > 0 {
      CountInNothing(events[..|events| - 1]);
    }
  }

  /** Summing the counters of any set of rows counts the events behind them. */
  lemma {:induction false} SumCountsIsCount(events: seq<Event>, rows: set<BucketKey>)
    requires rows <= Backfill(events).Keys
    ensures SumCounts(Backfill(events), rows) == CountIn(events, rows)
  {
    if rows == {} {
      CountInNothing(events);
    } else {
      CountInSplits(events, rows, Pick(rows));
      SumCountsIsCount(events, rows - {Pick(rows)});
    }
  }

  /** The day's rollup rows of a metric hold the row of `x` exactly when `x` was
      received on that day: hour flooring never leaves the day. */
  predicate InDayRows(x: Txn, rows: set<BucketKey>, tenant: nat, metric: string, dayStart: int)
  {
    Got201(x) && x.req.Ingest? ==>
      (x.Row().Bucket() in rows <==>
         x.req.key.tenant == tenant && x.req.key.metric == metric
         && dayStart <= x.req.receivedAt < dayStart + DAY)
  }

  lemma {:induction false} DayOfLog(log: seq<Txn>, rows: set<BucketKey>, tenant: nat, metric: string, dayStart: int)
    requires OwnRows(log)
    requires forall i :: 0 <= i < |log| ==> InDayRows(log[i], rows, tenant, metric, dayStart)
    ensures CountIn(CreatedRows(log), rows) == ReceivedForMetric(log, tenant, metric, dayStart, dayStart + DAY)
  {
    if |log| > 0 {
      var n := |log| - 1;
      assert OwnRow(log[n]) && InDayRows(log[n], rows, tenant, metric, dayStart);
      DayOfLog(log[..n], rows, tenant, metric, dayStart);
      RowsGrow(log, BucketKey(log[n].req.key, 0), rows);
    }
  }

  lemma {:induction false} LoggedAreRows(log: seq<Txn>, x: Txn)
    requires x in log && Got201(x)
    ensures x.phase.outcome.event in CreatedRows(log)
  {
    var n := |log| - 1;
    if x != log[n] {
      assert x in log[..n];
      LoggedAreRows(log[..n], x);
    } else {
      var rows := CreatedRows(log);
      assert rows[|rows| - 1] == x.phase.outcome.event;
    }
  }

  lemma RecordedFromEmpty(r: State)
    requires Recorded(Tables([], map[], map[]), r)
    ensures OwnRows(r.log) && r.tables.events == CreatedRows(r.log)
  {
    assert [] + CreatedRows(r.log) == CreatedRows(r.log);
    forall i | 0 <= i < |r.log|
      ensures OwnRow(r.log[i])
    {
      assert r.log[i] in r.log && r.log[i].Fits();
    }
  }

  /** What every run from an empty database knows about its log and its rollup. */
  lemma LogBehindRollup(s: State, schedule: seq<Action>)
    requires Initial(s) && s.tables == Tables([], map[], map[]) && Valid(s, schedule)
    ensures var r := Run(s, schedule);
            OwnRows(r.log) && r.tables.rollup == Backfill(CreatedRows(r.log))
  {
    InitialInv(s);
    assert s.tables.events + CreatedRows(s.log) == [];
    RunKeepsRecord(s.tables, s, schedule);
    assert Backfill([]) == map[];
    ViewMaintained(s, schedule);
    RecordedFromEmpty(Run(s, schedule));
  }

  /** Single-bucket read, in every reachable state: exactly the sum and the number
      of the 201-answered requests received within the UTC hour from `start` in which
      the queried instant, written with any offset, lies. */
  lemma UsageReadIsExact(s: State, schedule: seq<Action>, k: QuotaKey, window: Aware, start: int)
    requires Initial(s) && s.tables == Tables([], map[], map[]) && Valid(s, schedule)
    requires start % HOUR == 0 && start + window.offset <= window.wall < start + window.offset + HOUR
    ensures var log := Run(s, schedule).log;
            GetUsage(Run(s, schedule).tables.rollup, k, window)
            == Counter(ReceivedQuantity(log, k, start, start + HOUR), ReceivedCount(log, k, start, start + HOUR))
  {
    var r := Run(s, schedule);
    LogBehindRollup(s, schedule);
    FloorIsTheHour(window, start);
    HourOfLog(r.log, k, start);
    if BucketKey(k, start) !in r.tables.rollup {
      EmptyGroup(CreatedRows(r.log), BucketKey(k, start));
    }
  }

  lemma DailyRowIsExact(log: seq<Txn>, rows: set<BucketKey>, tenant: nat, metric: string, dayStart: int)
    requires OwnRows(log) && dayStart % DAY == 0
    requires rows == OfMetric(DayRows(Backfill(CreatedRows(log)), tenant, dayStart, dayStart + DAY), metric)
    ensures SumCounts(Backfill(CreatedRows(log)), rows)
            == ReceivedForMetric(log, tenant, metric, dayStart, dayStart + DAY)
    ensures rows != {} <==> ReceivedForMetric(log, tenant, metric, dayStart, dayStart + DAY) > 0
  {
    var events := CreatedRows(log);
    SumCountsIsCount(events, rows);
    forall i | 0 <= i < |log|
      ensures InDayRows(log[i], rows, tenant, metric, dayStart)
    {
      if Got201(log[i]) {
        assert OwnRow(log[i]);
        LoggedAreRows(log, log[i]);
        FloorStaysInDay(log[i].req.receivedAt, dayStart);
      }
    }
    DayOfLog(log, rows, tenant, metric, dayStart);
    if rows == {} {
      CountInNothing(events);
    } else {
      var b := Pick(rows);
      CountInSplits(events, rows, b);
      NonEmptyGroup(events, b);
    }
  }

  ghost predicate Lists(answer: seq<DailyMetricCount>, metric: string) {
    exists i :: 0 <= i < |answer| && answer[i].metric == metric
  }

  /** Metrics strictly increasing; each count is the number received; listed iff any. */
  ghost predicate ExactDay(answer: seq<DailyMetricCount>, log: seq<Txn>, tenant: nat, dayStart: int,
                           less: (string, string) -> bool) {
    && (forall i, j :: 0 <= i < j < |answer| ==> less(answer[i].metric, answer[j].metric))
    && (forall i :: 0 <= i < |answer| ==>
          answer[i].eventCount == ReceivedForMetric(log, tenant, answer[i].metric, dayStart, dayStart + DAY))
    && (forall m :: Lists(answer, m) <==> ReceivedForMetric(log, tenant, m, dayStart, dayStart + DAY) > 0)
  }

  /** `GROUP BY metric ORDER BY metric`: one row per metric present, in order. */
  lemma AggregateGroups(rollup: map<BucketKey, Counter>, tenant: nat, dayStart: int, dayEnd: int,
                        less: (string, string) -> bool)
    requires StrictTotalOrder(less)
    ensures var rows, answer := DayRows(rollup, tenant, dayStart, dayEnd),
                                AggregateDaily(rollup, tenant, dayStart, dayEnd, less);
            && (forall i, j :: 0 <= i < j < |answer| ==> less(answer[i].metric, answer[j].metric))
            && (forall i :: 0 <= i < |answer| ==>
                  answer[i].eventCount == SumCounts(rollup, OfMetric(rows, answer[i].metric)))
            && (forall m :: Lists(answer, m) <==> OfMetric(rows, m) != {})
  {
    var rows := DayRows(rollup, tenant, dayStart, dayEnd);
    var names := set b | b in rows :: b.quota.metric;
    SortedIsSorted(names, less);
    var metrics := Sorted(names, less);
    var answer := AggregateDaily(rollup, tenant, dayStart, dayEnd, less);
    assert |answer| == |metrics| && forall i :: 0 <= i < |answer| ==> answer[i].metric == metrics[i];
    forall m
      ensures Lists(answer, m) <==> OfMetric(rows, m) != {}
    {
      assert m in metrics <==> m in Elements(metrics);
      if m in names {
        var b :| b in rows && b.quota.metric == m;
        assert b in OfMetric(rows, m);
        var i :| 0 <= i < |metrics| && metrics[i] == m;
        assert answer[i].metric == m;
      }
    }
  }

  lemma AggregateIsExact(log: seq<Txn>, tenant: nat, dayStart: int, less: (string, string) -> bool)
    requires OwnRows(log) && dayStart % DAY == 0 && StrictTotalOrder(less)
    ensures ExactDay(AggregateDaily(Backfill(CreatedRows(log)), tenant, dayStart, dayStart + DAY, less),
                     log, tenant, dayStart, less)
  {
    var rollup := Backfill(CreatedRows(log));
    var rows := DayRows(rollup, tenant, dayStart, dayStart + DAY);
    AggregateGroups(rollup, tenant, dayStart, dayStart + DAY, less);
    forall m
      ensures SumCounts(rollup, OfMetric(rows, m)) == ReceivedForMetric(log, tenant, m, dayStart, dayStart + DAY)
      ensures OfMetric(rows, m) != {} <==> ReceivedForMetric(log, tenant, m, dayStart, dayStart + DAY) > 0
    {
      DailyRowIsExact(log, OfMetric(rows, m), tenant, m, dayStart);
    }
  }

  /** Daily answer, in every reachable state and for every collation: metrics in
      strictly increasing order, each with exactly the number of 201-answered
      requests received on that UTC day; a metric is listed iff it has any. */
  lemma DailyAnswerIsExact(s: State, schedule: seq<Action>, tenant: nat, dayStart: int, less: (string, string) -> bool)
    requires Initial(s) && s.tables == Tables([], map[], map[]) && Valid(s, schedule)
    requires dayStart % DAY == 0 && StrictTotalOrder(less)
    ensures var r := Run(s, schedule);
            ExactDay(AggregateDaily(r.tables.rollup, tenant, dayStart, dayStart + DAY, less),
                     r.log, tenant, dayStart, less)
  {
    LogBehindRollup(s, schedule);
    AggregateIsExact(Run(s, schedule).log, tenant, dayStart, less);
  }
}
