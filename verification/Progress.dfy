/** Deadlock freedom and termination of every interleaving. */
module Progress {
  import opened Domain
  import opened Protocol
  import TimeWindows

  /** Position of a transaction in the fixed order in which locks are taken:
      idempotency key, quota row, rollup row. */
  function Rank(p: Phase): nat {
    match p
    case Begun => 0
    case Claimed => 1
    case Conflicted => 2
    case Locked(_) => 2
    case Checked(_, _) => 3
    case Unlimited => 3
    case Counted(_, _) => 4
    case QuotaWritten(_) => 4
    case Done(_) => 5
  }

  /** A waiter waits only for a transaction that is strictly further along, so
      the wait-for relation has no cycle. */
  lemma WaitsForLaterPhase(tables: Tables, x: Txn, o: Txn)
    requires x.Fits() && o.Fits() && Blocks(tables, x, o)
    ensures Rank(x.phase) < Rank(o.phase) < 5
  {
  }

  /** Claims the key `(tenant, token)` from its insert to its end. */
  predicate HasClaimed(o: Txn, tenant: nat, token: string) {
    && o.req.Ingest? && o.req.key.tenant == tenant && o.req.idem == token
    && !o.phase.Begun? && !o.phase.Conflicted? && !o.phase.Done?
  }

  /** Has locked or written the quota row, and has not ended. */
  predicate HasQuotaRow(o: Txn, k: QuotaKey) {
    && o.req.key == k
    && (o.phase.Locked? || o.phase.Checked? || o.phase.QuotaWritten? || (o.phase.Counted? && o.phase.under.Some?))
  }

  /** The locks, exactly. A statement waits for `o` if and only if it inserts an event
      under a key that `o` has claimed; or writes a quota row, deletes one that is
      there, or looks up one that is there, and `o` has the row; or counts into an
      hour into which `o` has counted. A quota lookup or a DELETE that finds no row
      waits for nobody, nor does an ingest about to be rejected. */
  lemma WaitsExactly(tables: Tables, x: Txn, o: Txn)
    requires x.Fits() && o.Fits()
    ensures Blocks(tables, x, o) <==>
      || (x.phase.Begun? && x.req.Ingest? && HasClaimed(o, x.req.key.tenant, x.req.idem))
      || (x.phase.Begun? && x.req.PutQuota? && HasQuotaRow(o, x.req.key))
      || (x.phase.Begun? && x.req.DeleteQuota? && x.req.key in tables.quotas && HasQuotaRow(o, x.req.key))
      || (x.phase.Claimed? && x.req.key in tables.quotas && HasQuotaRow(o, x.req.key))
      || (&& (x.phase.Unlimited? ||
              (x.phase.Checked? && x.phase.total + x.req.quantity <= x.phase.limit * 1_000_000))
          && o.phase.Counted? && o.req.key == x.req.key
          && o.req.receivedAt / 3_600_000_000 == x.req.receivedAt / 3_600_000_000)
  {
    assert MICRO == 1_000_000;
    if x.req.Ingest? && o.req.Ingest? {
      SameWindow(x.req.receivedAt, o.req.receivedAt);
    }
  }

  lemma SameWindow(t: int, u: int)
    ensures TimeWindows.FloorToHour(t) == TimeWindows.FloorToHour(u) <==> t / 3_600_000_000 == u / 3_600_000_000
  {
    assert TimeWindows.HOUR == 3_600_000_000;
  }

  /** Some live transaction has the greatest rank among the live ones. */
  lemma {:induction false} FurthestLive(s: State, n: nat) returns (t: nat)
    requires n <= |s.txns| && exists i :: 0 <= i < n && !s.txns[i].phase.Done?
    ensures t < n && !s.txns[t].phase.Done?
    ensures forall i :: 0 <= i < n && !s.txns[i].phase.Done? ==> Rank(s.txns[i].phase) <= Rank(s.txns[t].phase)
  {
    if exists i :: 0 <= i < n - 1 && !s.txns[i].phase.Done? {
      t := FurthestLive(s, n - 1);
      if !s.txns[n - 1].phase.Done? && Rank(s.txns[n - 1].phase) > Rank(s.txns[t].phase) {
        t := n - 1;
      }
    } else {
      t := n - 1;
    }
  }

  /** Deadlock freedom: while a transaction is live, some transaction can run its
      next statement, without any abort. */
  lemma SomeoneCanStep(s: State) returns (t: nat)
    requires Fit(s) && !Final(s)
    ensures Ready(s, t)
  {
    t := FurthestLive(s, |s.txns|);
    forall o | 0 <= o < |s.txns| && o != t
      ensures !Blocks(s.tables, s.txns[t], s.txns[o])
    {
      if Blocks(s.tables, s.txns[t], s.txns[o]) {
        WaitsForLaterPhase(s.tables, s.txns[t], s.txns[o]);
      }
    }
  }

  /** Statements still to run, at most. */
  function Remaining(txns: seq<Txn>): nat {
    if |txns| == 0 then 0 else 5 - Rank(txns[0].phase) + Remaining(txns[1..])
  }

  lemma {:induction false} RemainingUpdate(txns: seq<Txn>, t: nat, x: Txn)
    requires t < |txns|
    ensures Remaining(txns[t := x]) == Remaining(txns) + Rank(txns[t].phase) - Rank(x.phase)
  {
    if t > 0 {
      assert txns[t := x][1..] == txns[1..][t - 1 := x];
      RemainingUpdate(txns[1..], t - 1, x);
    } else {
      assert txns[t := x][1..] == txns[1..];
    }
  }

  lemma EveryStepProgresses(s: State, a: Action)
    requires Fit(s) && Enabled(s, a)
    ensures Remaining(Apply(s, a).txns) < Remaining(s.txns)
  {
    RemainingUpdate(s.txns, a.t, Apply(s, a).txns[a.t]);
  }

  /** Termination: no schedule, fair or not, is longer than the work left. */
  lemma {:induction false} SchedulesAreBounded(s: State, schedule: seq<Action>)
    requires Fit(s) && Valid(s, schedule)
    ensures |schedule| <= Remaining(s.txns) - Remaining(Run(s, schedule).txns)
    decreases |schedule|
  {
    if |schedule| > 0 {
      EveryStepProgresses(s, schedule[0]);
      ApplyFits(s, schedule[0]);
      SchedulesAreBounded(Apply(s, schedule[0]), schedule[1..]);
    }
  }

  lemma {:induction false} RemainingBound(txns: seq<Txn>)
    ensures Remaining(txns) <= 5 * |txns|
  {
    if |txns| > 0 {
      RemainingBound(txns[1..]);
    }
  }

  /** From every state all requests can be answered without a single abort, in at
      most five statements each; and a run that cannot be extended has answered all. */
  lemma {:induction false} AllRequestsFinish(s: State) returns (schedule: seq<Action>)
    requires Fit(s)
    ensures Valid(s, schedule) && Final(Run(s, schedule)) && |schedule| <= 5 * |s.txns|
    ensures forall a :: a in schedule ==> a.Advance?
    ensures (forall t :: !Ready(s, t)) ==> Final(s)
    decreases Remaining(s.txns)
  {
    if Final(s) {
      schedule := [];
    } else {
      var t := SomeoneCanStep(s);
      var a := Advance(t);
      EveryStepProgresses(s, a);
      ApplyFits(s, a);
      var rest := AllRequestsFinish(Apply(s, a));
      schedule := [a] + rest;
      assert schedule[1..] == rest;
      SchedulesAreBounded(s, schedule);
      RemainingBound(s.txns);
    }
  }
}
