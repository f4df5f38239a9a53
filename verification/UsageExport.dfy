/** The export endpoint over reachable databases: pre-flight, query, stream. */
module UsageExport {
  import opened Domain
  import opened Protocol
  import opened Invariants
  import opened RollupView
  import opened TimeWindows
  import opened Calendar
  import opened CivilTime
  import opened CsvText
  import opened Ordering
  import opened ExportQuery
  import opened ExportStream
  import opened Batching

  /** `prepare_export`: the status of a refusal, if the filtered result is too large. */
  function PrepareExport(rollup: map<BucketKey, Counter>, f: Filter): Option<int> {
    if CountUsageRollups(rollup, f) > MAX_EXPORT_ROWS then Some(422) else None
  }

  /** Every filtered row of the table is there, and nothing else. */
  ghost predicate Complete(rows: seq<ExportRow>, rollup: map<BucketKey, Counter>, f: Filter) {
    && |rows| == CountUsageRollups(rollup, f)
    && (forall i :: 0 <= i < |rows| ==> IsStored(rows[i], rollup, f))
    && (forall b :: b in rollup && Matches(f, b) ==> exists i :: 0 <= i < |rows| && RowKey(rows[i]) == KeyOf(b))
  }

  lemma CompleteIff(rollup: map<BucketKey, Counter>, f: Filter, less: (string, string) -> bool, rows: seq<ExportRow>)
    requires StrictTotalOrder(less) && StreamAnswer(rows, rollup, f, MAX_EXPORT_ROWS, less)
    ensures |rows| <= MAX_EXPORT_ROWS
    ensures Complete(rows, rollup, f) <==> CountUsageRollups(rollup, f) <= MAX_EXPORT_ROWS
    ensures |rows| == MAX_EXPORT_ROWS <==> CountUsageRollups(rollup, f) >= MAX_EXPORT_ROWS
  {
    StreamAgreesWithCount(rollup, f, MAX_EXPORT_ROWS, less, rows);
  }

  /** What an export whose audit record says `completed` delivers, and what its
      `capped` flag can and cannot tell. The text shows the rows under their column
      names. Without the flag these are exactly the matching rows; the flag is set
      exactly if at least 100 000 rows matched, so it is also set on a complete
      export of exactly that many. The pre-flight refuses with 422 exactly if more
      match, and an export that passes it on the same rows is always complete. */
  lemma CompletedExport(rollup: map<BucketKey, Counter>, f: Filter, less: (string, string) -> bool,
                        rows: seq<ExportRow>, brk: Break, chunks: seq<string>, audit: Audit)
    requires StrictTotalOrder(less) && StreamAnswer(rows, rollup, f, MAX_EXPORT_ROWS, less) && AllPrintable(rows)
    requires Streamed(chunks, audit, EncodeRow(HEADER), Lines(Table(rows)), brk) && audit.completed
    ensures ReadsAs(Concat(chunks), rows) && audit.rowCount == |rows|
    ensures !audit.capped ==> Complete(rows, rollup, f)
    ensures audit.capped <==> CountUsageRollups(rollup, f) >= 100_000
    ensures PrepareExport(rollup, f) == if CountUsageRollups(rollup, f) > 100_000 then Some(422) else None
    ensures PrepareExport(rollup, f) == None <==> Complete(rows, rollup, f)
  {
    CompleteIff(rollup, f, less, rows);
    StreamShowsRows(chunks, rows);
  }

  /** Requests as the ingest schema lets them through, received in a year a date can hold. */
  ghost predicate SchemaValid(s: State) {
    forall i :: 0 <= i < |s.txns| && s.txns[i].req.Ingest? ==> SchemaValidRequest(s.txns[i].req)
  }

  ghost predicate SchemaValidRequest(r: Request) {
    r.Ingest? ==>
      && 0 < r.quantity <= 1_000_000_000_000_000_000
      && Ingested(r.key.customer) && Ingested(r.key.metric)
      && 1 <= DayOf(r.receivedAt) <= Ordinal(LAST)
  }

  ghost predicate GoodEvent(e: Event) {
    && 0 < e.quantity <= MAX_QUANTITY
    && Ingested(e.quota.customer) && Ingested(e.quota.metric)
    && e.window % HOUR == 0 && 1 <= DayOf(e.window) <= Ordinal(LAST)
  }

  lemma DayOfHour(h: int, rest: int)
    requires 0 <= rest < 3_600_000_000
    ensures (3_600_000_000 * h + rest) / 86_400_000_000 == h / 24
  {
    var d := h / 24;
    assert 86_400_000_000 * d <= 3_600_000_000 * h + rest < 86_400_000_000 * d + 86_400_000_000;
  }

  lemma HourKeepsDay(t: int)
    ensures FloorToHour(t) % HOUR == 0 && DayOf(FloorToHour(t)) == DayOf(t)
  {
    var h, rest := t / 3_600_000_000, t % 3_600_000_000;
    assert HOUR == 3_600_000_000 && FloorToHour(t) == 3_600_000_000 * h + 0;
    DayOfHour(h, rest);
    DayOfHour(h, 0);
    DayInLiterals(t);
    DayInLiterals(FloorToHour(t));
  }

  lemma RowOfGoodRequest(x: Txn)
    requires x.req.Ingest? && SchemaValidRequest(x.req)
    ensures GoodEvent(x.Row())
  {
    HourKeepsDay(x.req.receivedAt);
  }

  lemma {:induction false} RunKeepsGoodEvents(s: State, schedule: seq<Action>)
    requires Fit(s) && Valid(s, schedule) && SchemaValid(s) && (forall e :: e in s.tables.events ==> GoodEvent(e))
    ensures forall e :: e in Run(s, schedule).tables.events ==> GoodEvent(e)
    decreases |schedule|
  {
    if |schedule| > 0 {
      var a := schedule[0];
      if a.Advance? && s.txns[a.t].phase.Counted? {
        RowOfGoodRequest(s.txns[a.t]);
      }
      ApplyFits(s, a);
      RunKeepsGoodEvents(Apply(s, a), schedule[1..]);
    }
  }

  /** Every row an export of a reachable database can show is printable and made of
      ingested identifiers, so the export loses nothing. */
  lemma ExportedRowsAreGood(s: State, schedule: seq<Action>, f: Filter, less: (string, string) -> bool,
                            rows: seq<ExportRow>)
    requires Initial(s) && s.tables == Tables([], map[], map[]) && Valid(s, schedule) && SchemaValid(s)
    requires StrictTotalOrder(less)
    requires StreamAnswer(rows, Run(s, schedule).tables.rollup, f, MAX_EXPORT_ROWS, less)
    ensures AllPrintable(rows) && AllIngested(rows)
  {
    var r := Run(s, schedule);
    RunKeepsGoodEvents(s, schedule);
    InitialInv(s);
    assert Backfill([]) == map[];
    ViewMaintained(s, schedule);
    StreamAgreesWithCount(r.tables.rollup, f, MAX_EXPORT_ROWS, less, rows);
    forall i | 0 <= i < |rows|
      ensures Printable(rows[i]) && Ingested(rows[i].customer) && Ingested(rows[i].metric)
    {
      assert IsStored(rows[i], r.tables.rollup, f);
      StoredRowIsGood(r.tables.events, rows[i], f);
    }
  }

  lemma StoredRowIsGood(events: seq<Event>, row: ExportRow, f: Filter)
    requires (forall e :: e in events ==> GoodEvent(e)) && IsStored(row, Backfill(events), f)
    ensures Printable(row) && Ingested(row.customer) && Ingested(row.metric)
  {
    var b := BucketOf(f.tenant, RowKey(row));
    var e :| e in events && e.Bucket() == b;
    assert GoodEvent(e);
    assert ValidQuantities(events) by {
      forall d | d in events ensures 0 < d.quantity <= MAX_QUANTITY {
        assert GoodEvent(d);
      }
    }
    GroupBounds(events, b);
  }
}
