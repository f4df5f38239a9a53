/** What the answers of `POST /v1/events` say, in the fields of requests and rows. */
module Answers {
  import opened Domain
  import opened Protocol
  import opened Invariants
  import opened Serialization
  import opened Idempotency
  import TimeWindows

  /** `w` starts the UTC hour in which `t` lies, in microseconds. */
  predicate HourStart(w: int, t: int) {
    w % 3_600_000_000 == 0 && w <= t < w + 3_600_000_000
  }

  /** `seconds` is the least number of whole seconds after `t` to reach the next hour. */
  predicate TightWait(t: int, seconds: int) {
    var left := 3_600_000_000 - t % 3_600_000_000;
    1 <= seconds <= 3600 && (seconds - 1) * 1_000_000 < left <= seconds * 1_000_000
  }

  /** `e` is stored under the idempotency key of request `r`. */
  predicate StoredUnder(e: Event, r: Request)
    requires r.Ingest?
  {
    e.quota.tenant == r.key.tenant && e.idem == r.idem
  }

  /** `e` is what request `r` asks to record. */
  predicate Records(e: Event, r: Request)
    requires r.Ingest?
  {
    e.quota == r.key && e.quantity == r.quantity && e.idem == r.idem && HourStart(e.window, r.receivedAt)
  }

  lemma RowRecords(x: Txn)
    requires x.req.Ingest?
    ensures Records(x.Row(), x.req) && x.Row().id == x.id
    ensures TightWait(x.req.receivedAt, x.Hint())
  {
    var t := x.req.receivedAt;
    assert TimeWindows.HOUR == 3_600_000_000 && TimeWindows.SECOND == 1_000_000;
    TimeWindows.FloorIsTheHour(TimeWindows.Aware(t, 0), x.Row().window);
    TimeWindows.SecondsLeft(t % 3_600_000_000);
  }

  /** What an ingest answers and does when nothing else runs: a key already stored by
      the tenant replays the stored row; else an ingest over the quota is rejected;
      else the row is stored and counted once in its window. */
  lemma AtomicIngest(tables: Tables, x: Txn, w: int)
    requires x.req.Ingest? && HourStart(w, x.req.receivedAt)
    ensures var (after, answer) := Atomic(tables, x);
            var b := BucketKey(x.req.key, w);
            var before := if b in tables.rollup then tables.rollup[b] else Counter(0, 0);
            var fits := x.req.key in tables.quotas ==>
                          before.total + x.req.quantity <= tables.quotas[x.req.key] * 1_000_000;
            if exists e :: e in tables.events && StoredUnder(e, x.req) then
              && answer.Replayed? && answer.original in tables.events && StoredUnder(answer.original, x.req)
              && after == tables
            else if !fits then
              answer.Rejected? && TightWait(x.req.receivedAt, answer.retryAfter) && after == tables
            else
              && answer == Created(Event(x.id, x.req.key, x.req.quantity, x.req.idem, w))
              && after.events == tables.events + [answer.event] && after.quotas == tables.quotas
              && after.rollup == tables.rollup[b := Counter(before.total + x.req.quantity, before.count + 1)]
  {
    RowRecords(x);
    var row := x.Row();
    SameHour(row.window, w, x.req.receivedAt);
    assert MICRO == 1_000_000;
    var found := FindByIdem(tables.events, row.Idem());
    if e :| e in tables.events && StoredUnder(e, x.req) {
      assert e.Idem() == row.Idem();
      assert found.Some? && StoredUnder(found.value, x.req);
    } else if found.Some? {
      assert StoredUnder(found.value, x.req);
    }
  }

  lemma SameHour(v: int, w: int, t: int)
    requires HourStart(v, t) && HourStart(w, t)
    ensures v == w
  {
    var i, j := v / 3_600_000_000, w / 3_600_000_000;
    assert v == i * 3_600_000_000 && w == j * 3_600_000_000;
  }

  /** Quota writes: the row is there afterwards with the limit of the PUT, or is gone. */
  lemma AtomicQuotaWrite(tables: Tables, x: Txn)
    requires !x.req.Ingest?
    ensures var (after, answer) := Atomic(tables, x);
            var k := x.req.key;
            && after.events == tables.events && after.rollup == tables.rollup
            && (forall c :: c != k ==> (c in after.quotas <==> c in tables.quotas))
            && (forall c :: c != k && c in after.quotas ==> after.quotas[c] == tables.quotas[c])
            && (x.req.PutQuota? ==> k in after.quotas && after.quotas[k] == x.req.limit
                                    && answer == (if k in tables.quotas then QuotaReplaced else QuotaCreated))
            && (x.req.DeleteQuota? ==> k !in after.quotas
                                       && answer == (if k in tables.quotas then QuotaRemoved else QuotaAbsent))
  {
  }

  /** An answer, given the rows stored at the end of the run. */
  predicate Fitting(events: seq<Event>, r: Request, answer: Outcome)
    requires r.Ingest?
  {
    match answer
    case Created(e) => e in events && Records(e, r)
    case Replayed(o) => o in events && StoredUnder(o, r)
    case Rejected(h) => TightWait(r.receivedAt, h)
    case _ => false
  }

  lemma FittingAnswers(start: Tables, r: State, x: Txn)
    requires Recorded(start, r) && x in r.log && x.req.Ingest?
    ensures x.phase.Done? && Fitting(r.tables.events, x.req, x.phase.outcome)
  {
    RowRecords(x);
  }

  /** Two ingest requests of one tenant under one idempotency key. */
  predicate SameKey(q: Request, r: Request) {
    q.Ingest? && r.Ingest? && q.key.tenant == r.key.tenant && q.idem == r.idem
  }

  /** Exactly-once recording, over every run and in the fields of the requests. Two
      requests of a tenant with one idempotency key, whatever else they ask for, are
      never both answered 201, and the 200 of one carries the row of the other's
      201. A 201 carries the request's own data, a 200 a row stored under its key, a
      429 the tight wait; an ingest gets no other answer. No tenant has two rows with
      one idempotency key. */
  lemma OneRowPerKey(s: State, schedule: seq<Action>)
    requires Initial(s) && StartTables(s.tables) && Valid(s, schedule)
    ensures var log, events := Run(s, schedule).log, Run(s, schedule).tables.events;
      && (forall x :: x in log && x.req.Ingest? ==> x.phase.Done? && Fitting(events, x.req, x.phase.outcome))
      && (forall i, j :: 0 <= i < j < |log| && SameKey(log[i].req, log[j].req) ==> !(Got201(log[i]) && Got201(log[j])))
      && (forall x, y :: x in log && y in log && SameKey(x.req, y.req) ==> (Got201(x) && Got200(y) ==> SameRow(x, y)))
      && (forall i, j :: 0 <= i < j < |events| ==>
            events[i].quota.tenant != events[j].quota.tenant || events[i].idem != events[j].idem)
  {
    var r := Run(s, schedule);
    var log, events := r.log, r.tables.events;
    InitialInv(s);
    assert s.tables.events + CreatedRows(s.log) == s.tables.events;
    RunKeepsRecord(s.tables, s, schedule);
    forall x | x in log && x.req.Ingest? ensures x.phase.Done? && Fitting(events, x.req, x.phase.outcome) {
      FittingAnswers(s.tables, r, x);
    }
    forall i, j | 0 <= i < j < |log| && SameKey(log[i].req, log[j].req)
      ensures !(Got201(log[i]) && Got201(log[j]))
    {
      assert log[i] in log && log[j] in log;
      if Got201(log[i]) && Got201(log[j]) {
        NoKeyCreatedTwice(s.tables, r, i, j);
      }
    }
    forall x, y | x in log && y in log && SameKey(x.req, y.req) && Got201(x) && Got200(y)
      ensures SameRow(x, y)
    {
      OnlyOne(events, x.phase.outcome.event, y.phase.outcome.original);
    }
  }

  predicate Got200(x: Txn) {
    x.phase.Done? && x.phase.outcome.Replayed?
  }

  predicate SameRow(x: Txn, y: Txn)
    requires Got201(x) && Got200(y)
  {
    y.phase.outcome.original == x.phase.outcome.event
  }

  lemma OnlyOne(events: seq<Event>, e: Event, f: Event)
    requires DistinctIdem(events) && e in events && f in events
    requires e.quota.tenant == f.quota.tenant && e.idem == f.idem
    ensures e == f
  {
    var i :| 0 <= i < |events| && events[i] == e;
    var j :| 0 <= j < |events| && events[j] == f;
    assert i == j;
  }
}
