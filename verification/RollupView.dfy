/** `usage_rollup` as an incrementally maintained view of `events`. */
module RollupView {
  import opened Domain
  import opened Protocol
  import opened Invariants

  /** SUM(quantity) over the events of one group. */
  function SumQuantity(events: seq<Event>, b: BucketKey): int {
    if |events| == 0 then 0
    else SumQuantity(events[..|events| - 1], b)
         + (if events[|events| - 1].Bucket() == b then events[|events| - 1].quantity else 0)
  }

  /** COUNT(*) over the events of one group. */
  function CountEvents(events: seq<Event>, b: BucketKey): nat {
    if |events| == 0 then 0
    else CountEvents(events[..|events| - 1], b) + (if events[|events| - 1].Bucket() == b then 1 else 0)
  }

  /** The aggregate migration 0002 derives the table from: one row per group of
      `events`, with the sum and the count of the group. */
  function Backfill(events: seq<Event>): map<BucketKey, Counter> {
    var groups := set e | e in events :: e.Bucket();
    map b | b in groups :: Counter(SumQuantity(events, b), CountEvents(events, b))
  }

  ghost predicate ViewExact(tables: Tables) {
    tables.rollup == Backfill(tables.events)
  }

  /** A bucket no event falls in contributes nothing. */
  lemma {:induction false} EmptyGroup(events: seq<Event>, b: BucketKey)
    requires forall e :: e in events ==> e.Bucket() != b
    ensures SumQuantity(events, b) == 0 && CountEvents(events, b) == 0
  {
    if |events| > 0 {
      EmptyGroup(events[..|events| - 1], b);
    }
  }

  lemma GroupGrows(events: seq<Event>, e: Event, b: BucketKey)
    ensures SumQuantity(events + [e], b) == SumQuantity(events, b) + (if e.Bucket() == b then e.quantity else 0)
    ensures CountEvents(events + [e], b) == CountEvents(events, b) + (if e.Bucket() == b then 1 else 0)
    ensures b in Backfill(events + [e]) <==> b in Backfill(events) || b == e.Bucket()
  {
    var all := events + [e];
    assert all[..|events|] == events;
    assert all[|events|] == e;
    assert forall x :: x in all <==> x in events || x == e;
  }

  /** One upsert brings the grouped aggregate from a table to the table plus a row. */
  lemma UpsertMaintainsView(events: seq<Event>, e: Event)
    ensures Backfill(events + [e]) == Backfill(events)[e.Bucket() := Bump(Backfill(events), e.Bucket(), e.quantity)]
  {
    var l, r := Backfill(events + [e]), Backfill(events)[e.Bucket() := Bump(Backfill(events), e.Bucket(), e.quantity)];
    if e.Bucket() !in Backfill(events) {
      EmptyGroup(events, e.Bucket());
    }
    forall b
      ensures b in l <==> b in r
      ensures b in l ==> l[b] == r[b]
    {
      GroupGrows(events, e, b);
    }
  }

  lemma NextEvent(events: seq<Event>, n: nat)
    requires n < |events|
    ensures var e, rows := events[n], Backfill(events[..n]);
            Backfill(events[..n + 1]) == rows[e.Bucket() := Bump(rows, e.Bucket(), e.quantity)]
  {
    assert events[..n + 1] == events[..n] + [events[n]];
    UpsertMaintainsView(events[..n], events[n]);
  }

  lemma StepMaintainsView(s: State, a: Action)
    requires Inv(s) && Enabled(s, a) && ViewExact(s.tables)
    ensures ViewExact(Apply(s, a).tables)
  {
    if a.Advance? {
      var x := s.txns[a.t];
      assert Local(s.tables, x);
      if x.phase.Counted? {
        UpsertMaintainsView(s.tables.events, x.Row());
      }
    }
  }

  /** View maintenance: in every state of every run, with no hypothesis on the
      schedule, the rollup is the grouped aggregate of the committed events.
      Aborted and rejected ingests leave no trace and no update is lost. */
  lemma {:induction false} ViewMaintained(s: State, schedule: seq<Action>)
    requires Inv(s) && Valid(s, schedule) && ViewExact(s.tables)
    ensures ViewExact(Run(s, schedule).tables)
    decreases |schedule|
  {
    if |schedule| > 0 {
      StepMaintainsView(s, schedule[0]);
      ApplyKeepsInv(s, schedule[0]);
      ViewMaintained(Apply(s, schedule[0]), schedule[1..]);
    }
  }

  /** Migration 0002 on the table of committed events. */
  class RollupTable {
    const events: seq<Event>
    var present: bool
    var rows: map<BucketKey, Counter>

    constructor (events: seq<Event>, rows: map<BucketKey, Counter>)
      ensures this.events == events && this.rows == rows && present
    {
      this.events, this.rows, this.present := events, rows, true;
    }

    /** `downgrade`: drop the derived table only. */
    method Downgrade()
      requires present
      modifies this
      ensures !present && rows == map[]
    {
      present, rows := false, map[];
    }

    /** `upgrade`: create the table and fill it in one pass over `events`, a group
        at a time as its first event comes up. */
    method Upgrade()
      requires !present
      modifies this
      ensures present && rows == Backfill(events)
    {
      present, rows := true, map[];
      var n := 0;
      while n < |events|
        invariant 0 <= n <= |events| && present && rows == Backfill(events[..n])
      {
        NextEvent(events, n);
        rows := rows[events[n].Bucket() := Bump(rows, events[n].Bucket(), events[n].quantity)];
        n := n + 1;
      }
      assert events[..n] == events;
    }

    /** After any run of the service, dropping the table and deriving it again is
        the identity, if it was exact when the run began. */
    method DownThenUp(ghost s: State, ghost schedule: seq<Action>)
      requires Inv(s) && Valid(s, schedule) && ViewExact(s.tables)
      requires present && events == Run(s, schedule).tables.events && rows == Run(s, schedule).tables.rollup
      modifies this
      ensures present && rows == old(rows)
    {
      ViewMaintained(s, schedule);
      Downgrade();
      Upgrade();
    }
  }

  ghost predicate ValidQuantities(events: seq<Event>) {
    forall e :: e in events ==> 0 < e.quantity <= MAX_QUANTITY
  }

  lemma {:induction false} GroupBounds(events: seq<Event>, b: BucketKey)
    requires ValidQuantities(events)
    ensures CountEvents(events, b) <= SumQuantity(events, b) <= MAX_QUANTITY * CountEvents(events, b)
  {
    if |events| > 0 {
      var n := |events| - 1;
      assert events[n] in events;
      assert ValidQuantities(events[..n]) by {
        assert forall e :: e in events[..n] ==> e in events;
      }
      GroupBounds(events[..n], b);
    }
  }

  lemma {:induction false} RunKeepsQuantities(s: State, schedule: seq<Action>)
    requires Fit(s) && Valid(s, schedule) && ValidRequests(s) && ValidQuantities(s.tables.events)
    ensures ValidQuantities(Run(s, schedule).tables.events)
    decreases |schedule|
  {
    if |schedule| > 0 {
      ApplyFits(s, schedule[0]);
      RunKeepsQuantities(Apply(s, schedule[0]), schedule[1..]);
    }
  }

  lemma {:induction false} NonEmptyGroup(events: seq<Event>, b: BucketKey)
    requires exists e :: e in events && e.Bucket() == b
    ensures CountEvents(events, b) > 0
  {
    var e :| e in events && e.Bucket() == b;
    var n := |events| - 1;
    if events[n].Bucket() != b {
      assert e in events[..n];
      NonEmptyGroup(events[..n], b);
    }
  }

  /** `total_quantity` never outgrows Numeric(38,6) while `event_count` fits a BIGINT. */
  lemma TotalsFitTheColumn(s: State, schedule: seq<Action>, b: BucketKey)
    requires Inv(s) && Valid(s, schedule) && ViewExact(s.tables)
    requires ValidRequests(s) && ValidQuantities(s.tables.events)
    requires b in Run(s, schedule).tables.rollup
    ensures CounterInRange(Run(s, schedule).tables.rollup[b])
  {
    ViewMaintained(s, schedule);
    RunKeepsQuantities(s, schedule);
    GroupInRange(Run(s, schedule).tables.events, b);
  }

  /** 1 to 10^18 micro-units for each event, hence at most 38 digits. */
  predicate CounterInRange(c: Counter) {
    && 0 < c.count <= c.total <= 1_000_000_000_000_000_000 * c.count
    && (c.count < 0x8000_0000_0000_0000 ==> c.total < 100_000_000_000_000_000_000_000_000_000_000_000_000)
  }

  lemma GroupInRange(events: seq<Event>, b: BucketKey)
    requires ValidQuantities(events) && b in Backfill(events)
    ensures CounterInRange(Backfill(events)[b])
  {
    GroupBounds(events, b);
    NonEmptyGroup(events, b);
  }
}
