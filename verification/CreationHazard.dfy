/** The one case in which a cap can be passed, delimited exactly.

    An ingest that finds no quota row takes no lock. If a PUT then creates the
    row while that ingest is still in flight, the ingest is admitted without a
    check, and an ingest that did check can be overtaken by it. */
module CreationHazard {
  import opened Domain
  import opened Protocol
  import opened Invariants
  import opened CapSafety

  // ------------------------------------------------- runs with further requests

  /** `s` after further requests have arrived. */
  function Arrive(s: State, more: seq<Txn>): State {
    s.(txns := s.txns + more)
  }

  predicate Arrival(x: Txn) {
    x.phase == Begun && (x.req.Ingest? ==> 0 < x.req.quantity <= 1_000_000_000_000_000_000)
  }

  /** A run from `s` plus `more` to `r` in which the row of `k` stays, at most at `m`. */
  ghost predicate Leads(s: State, more: seq<Txn>, schedule: seq<Action>, r: State, k: QuotaKey, m: int) {
    && (forall i :: 0 <= i < |more| ==> Arrival(more[i]))
    && Fit(Arrive(s, more)) && Valid(Arrive(s, more), schedule)
    && Run(Arrive(s, more), schedule) == r && LimitStays(Arrive(s, more), schedule, k, m)
  }

  ghost predicate Reaches(s: State, r: State, k: QuotaKey, m: int) {
    exists more, schedule :: Leads(s, more, schedule, r, k, m)
  }

  /** Some further requests and some schedule take a window of `k` over both its
      present total and `m`, although the row is there all the time, never above `m`. */
  ghost predicate CapCanBreak(s: State, k: QuotaKey, m: int) {
    exists r, window :: Reaches(s, r, k, m) && Broken(s, r, BucketKey(k, window), m)
  }

  ghost predicate Broken(s: State, r: State, b: BucketKey, m: int) {
    Total(r.tables.rollup, b) > Greater(Total(s.tables.rollup, b), m * MICRO)
  }

  lemma ReachNow(s: State, k: QuotaKey, m: int)
    requires Fit(s) && k in s.tables.quotas && s.tables.quotas[k] <= m
    ensures Reaches(s, s, k, m)
  {
    assert Arrive(s, []) == s;
    assert Leads(s, [], [], s, k, m);
  }

  lemma {:induction false} RunAppend(s: State, schedule: seq<Action>, a: Action, k: QuotaKey, m: int)
    requires Fit(s) && Valid(s, schedule) && Enabled(Run(s, schedule), a) && LimitStays(s, schedule, k, m)
    requires var q := Apply(Run(s, schedule), a).tables.quotas; k in q && q[k] <= m
    ensures Valid(s, schedule + [a]) && Run(s, schedule + [a]) == Apply(Run(s, schedule), a)
    ensures LimitStays(s, schedule + [a], k, m)
    decreases |schedule|
  {
    if |schedule| == 0 {
      assert schedule + [a] == [a];
      ApplyFits(s, a);
    } else {
      ApplyFits(s, schedule[0]);
      assert (schedule + [a])[1..] == schedule[1..] + [a];
      RunAppend(Apply(s, schedule[0]), schedule[1..], a, k, m);
    }
  }

  lemma ReachStep(s: State, r: State, t: nat, k: QuotaKey, m: int)
    requires Reaches(s, r, k, m) && Inv(r) && Ready(r, t)
    requires k in Step(r, t).tables.quotas && Step(r, t).tables.quotas[k] <= m
    ensures Reaches(s, Step(r, t), k, m) && Inv(Step(r, t))
  {
    var more, schedule :| Leads(s, more, schedule, r, k, m);
    RunAppend(Arrive(s, more), schedule, Advance(t), k, m);
    assert Leads(s, more, schedule + [Advance(t)], Step(r, t), k, m);
    StepKeepsInv(r, t);
  }

  /** A request that has not started holds nothing, so nobody notices it. */
  lemma ActBeforeArrival(s: State, a: Action, x: Txn)
    requires Fit(s) && Enabled(s, a) && x.phase == Begun
    ensures Fit(Arrive(s, [x])) && Enabled(Arrive(s, [x]), a)
    ensures Apply(Arrive(s, [x]), a) == Arrive(Apply(s, a), [x])
  {
    var e := Arrive(s, [x]);
    assert forall o :: 0 <= o < |e.txns| ==> e.txns[o] == if o < |s.txns| then s.txns[o] else x;
    assert e.txns[a.t := Apply(e, a).txns[a.t]] == s.txns[a.t := Apply(e, a).txns[a.t]] + [x];
  }

  lemma {:induction false} RunBeforeArrival(s: State, schedule: seq<Action>, x: Txn, k: QuotaKey, m: int)
    requires Fit(s) && Valid(s, schedule) && LimitStays(s, schedule, k, m) && x.phase == Begun
    ensures var e := Arrive(s, [x]);
            && Fit(e) && Valid(e, schedule) && Run(e, schedule) == Arrive(Run(s, schedule), [x])
            && LimitStays(e, schedule, k, m)
    decreases |schedule|
  {
    if |schedule| > 0 {
      ActBeforeArrival(s, schedule[0], x);
      ApplyFits(s, schedule[0]);
      RunBeforeArrival(Apply(s, schedule[0]), schedule[1..], x, k, m);
    }
  }

  lemma ArrivalKeepsInv(s: State, x: Txn)
    requires Inv(s) && x.phase == Begun
    ensures Inv(Arrive(s, [x]))
  {
  }

  lemma ReachArrival(s: State, r: State, x: Txn, k: QuotaKey, m: int)
    requires Reaches(s, r, k, m) && Inv(r) && Arrival(x)
    ensures Reaches(s, Arrive(r, [x]), k, m) && Inv(Arrive(r, [x]))
  {
    var more, schedule :| Leads(s, more, schedule, r, k, m);
    RunBeforeArrival(Arrive(s, more), schedule, x, k, m);
    assert Arrive(Arrive(s, more), [x]) == Arrive(s, more + [x]);
    assert Leads(s, more + [x], schedule, Arrive(r, [x]), k, m);
    ArrivalKeepsInv(r, x);
  }

  // --------------------------------------------------------- how a cap is passed

  /** Nobody holds the quota row, which is in force with `limit`. */
  ghost predicate RowFree(s: State, k: QuotaKey, limit: int) {
    && k in s.tables.quotas && s.tables.quotas[k] == limit
    && forall o :: 0 <= o < |s.txns| ==> !s.txns[o].HoldsQuota(k)
  }

  /** Nobody but `u` can hold the rollup row. */
  ghost predicate AloneOn(s: State, b: BucketKey, u: nat)
    requires Fit(s)
  {
    forall o :: 0 <= o < |s.txns| && o != u ==> !s.txns[o].HoldsBucket(b)
  }

  /** `u` found no quota row on its way to bucket `b`. */
  predicate UnlockedOn(x: Txn, b: BucketKey) {
    x.req.Ingest? && x.Row().Bucket() == b && x.Unlocked() && x.req.quantity > 0
  }

  /** `r'` is `r` after transaction `t` has been answered. */
  ghost predicate Answered(r: State, r': State, t: nat)
    requires t < |r.txns|
  {
    && |r'.txns| == |r.txns| && r'.txns == r.txns[t := r'.txns[t]] && r'.txns[t].phase.Done?
    && r'.tables.quotas == r.tables.quotas
  }

  /** An unlocked ingest commits without looking at the cap. */
  lemma FinishUnlocked(s: State, r: State, u: nat, b: BucketKey, m: int) returns (r': State)
    requires Reaches(s, r, b.quota, m) && Inv(r) && b.quota in r.tables.quotas && r.tables.quotas[b.quota] <= m
    requires u < |r.txns| && UnlockedOn(r.txns[u], b) && AloneOn(r, b, u)
    ensures Reaches(s, r', b.quota, m) && Inv(r') && Answered(r, r', u)
    ensures Total(r'.tables.rollup, b) == Total(r.tables.rollup, b) + r.txns[u].req.quantity
  {
    r' := r;
    if r.txns[u].phase.Unlimited? {
      ReachStep(s, r, u, b.quota, m);
      r' := Step(r, u);
    }
    assert Local(r'.tables, r'.txns[u]);
    ReachStep(s, r', u, b.quota, m);
    r' := Step(r', u);
  }

  /** A string no listed transaction or event uses as its idempotency key. */
  lemma {:induction false} FreshKey(events: seq<Event>, txns: seq<Txn>) returns (idem: string)
    ensures forall e :: e in events ==> |e.idem| < |idem|
    ensures forall x :: x in txns && x.req.Ingest? ==> |x.req.idem| < |idem|
    decreases |events| + |txns|
  {
    if |events| > 0 {
      idem := FreshKey(events[1..], txns);
      idem := idem + events[0].idem + "x";
      assert forall e :: e in events ==> e == events[0] || e in events[1..];
    } else if |txns| > 0 {
      idem := FreshKey(events, txns[1..]);
      idem := idem + (if txns[0].req.Ingest? then txns[0].req.idem else "") + "x";
      assert forall x :: x in txns ==> x == txns[0] || x in txns[1..];
    } else {
      idem := "x";
    }
  }

  /** The last transaction, an ingest under a new key, locks the quota row and reads the total. */
  lemma LastChecks(s: State, r: State, b: BucketKey, limit: int) returns (r': State)
    requires Reaches(s, r, b.quota, limit) && Inv(r) && RowFree(r, b.quota, limit) && |r.txns| > 0
    requires var x := r.txns[|r.txns| - 1];
             && x.phase == Begun && x.req.Ingest? && x.Row().Bucket() == b
             && FindByIdem(r.tables.events, x.Row().Idem()).None?
             && forall o :: 0 <= o < |r.txns| - 1 && r.txns[o].req.Ingest? ==> r.txns[o].req.idem != x.req.idem
    ensures Reaches(s, r', b.quota, limit) && Inv(r') && r'.tables == r.tables
    ensures var f := |r.txns| - 1;
            r'.txns == r.txns[f := r.txns[f].(phase := Checked(limit, Total(r.tables.rollup, b)))]
  {
    var f := |r.txns| - 1;
    ReachStep(s, r, f, b.quota, limit);
    r' := Step(r, f);
    assert r'.txns[f].phase == Claimed;
    ReachStep(s, r', f, b.quota, limit);
    r' := Step(r', f);
    ReachStep(s, r', f, b.quota, limit);
    r' := Step(r', f);
  }

  /** A new ingest of `q` micro-units, received at `at`, gets as far as its check. */
  lemma FillerChecks(s: State, r: State, b: BucketKey, at: int, q: int, limit: int) returns (r': State, x: Txn)
    requires Reaches(s, r, b.quota, limit) && Inv(r) && RowFree(r, b.quota, limit)
    requires 0 < q <= MAX_QUANTITY && TimeWindows.FloorToHour(at) == b.window
    ensures Reaches(s, r', b.quota, limit) && Inv(r') && r'.tables == r.tables && r'.txns == r.txns + [x]
    ensures x.phase == Checked(limit, Total(r.tables.rollup, b))
    ensures x.req.Ingest? && x.Row().Bucket() == b && x.req.quantity == q
  {
    var idem := FreshKey(r.tables.events, r.txns);
    var f := Txn(0, Ingest(b.quota, q, idem, at), Begun);
    ReachArrival(s, r, f, b.quota, limit);
    r' := LastChecks(s, Arrive(r, [f]), b, limit);
    x := r'.txns[|r.txns|];
  }

  /** A checked ingest that fitted when it looked commits on top of whatever came since. */
  lemma FinishChecked(s: State, r: State, f: nat, b: BucketKey, limit: int) returns (r': State)
    requires Reaches(s, r, b.quota, limit) && Inv(r) && f < |r.txns| && r.txns[f].req.Ingest?
    requires r.txns[f].phase.Checked? && r.txns[f].Row().Bucket() == b && !r.txns[f].OverLimit()
    requires b.quota in r.tables.quotas && r.tables.quotas[b.quota] <= limit && AloneOn(r, b, f)
    ensures Reaches(s, r', b.quota, limit) && Inv(r') && Answered(r, r', f)
    ensures Total(r'.tables.rollup, b) == Total(r.tables.rollup, b) + r.txns[f].req.quantity
  {
    ReachStep(s, r, f, b.quota, limit);
    r' := Step(r, f);
    ReachStep(s, r', f, b.quota, limit);
    r' := Step(r', f);
  }

  /** A filler that fits is overtaken: it checks, `u` commits, the filler commits. */
  lemma OvertakeCheck(s: State, r: State, u: nat, b: BucketKey, q: int, limit: int) returns (r': State)
    requires Reaches(s, r, b.quota, limit) && Inv(r) && RowFree(r, b.quota, limit)
    requires u < |r.txns| && UnlockedOn(r.txns[u], b) && AloneOn(r, b, u)
    requires 0 < q <= MAX_QUANTITY && Total(r.tables.rollup, b) + q <= limit * MICRO
    ensures Reaches(s, r', b.quota, limit)
    ensures Total(r'.tables.rollup, b) == Total(r.tables.rollup, b) + r.txns[u].req.quantity + q
  {
    var f, x;
    r', x := FillerChecks(s, r, b, r.txns[u].req.receivedAt, q, limit);
    f := |r.txns|;
    assert r'.txns[u] == r.txns[u] && r'.txns[f] == x;
    r' := FinishUnlocked(s, r', u, b, limit);
    assert r'.txns[f] == x;
    r' := FinishChecked(s, r', f, b, limit);
  }

  /** Nobody holds the quota row or the rollup row. */
  ghost predicate BucketFree(r: State, b: BucketKey, limit: int)
    requires Fit(r)
  {
    RowFree(r, b.quota, limit) && forall o :: 0 <= o < |r.txns| ==> !r.txns[o].HoldsBucket(b)
  }

  lemma AnsweredStaysFree(r: State, r': State, t: nat, b: BucketKey, limit: int)
    requires Fit(r) && Fit(r') && t < |r.txns| && Answered(r, r', t) && b.quota in r.tables.quotas
    requires r.tables.quotas[b.quota] == limit
    requires forall o :: 0 <= o < |r.txns| && o != t ==> !r.txns[o].HoldsQuota(b.quota) && !r.txns[o].HoldsBucket(b)
    ensures BucketFree(r', b, limit)
  {
  }

  /** Requests of the largest quantity fill the window of an ingest that waits
      without the lock, until one more request can fill it. */
  lemma {:induction false} FillWindow(s: State, r: State, u: nat, b: BucketKey, limit: int) returns (r': State)
    requires Reaches(s, r, b.quota, limit) && Inv(r) && BucketFree(r, b, limit)
    requires u < |r.txns| && UnlockedOn(r.txns[u], b) && Total(r.tables.rollup, b) <= limit * MICRO
    ensures Reaches(s, r', b.quota, limit) && Inv(r') && BucketFree(r', b, limit)
    ensures u < |r'.txns| && r'.txns[u] == r.txns[u]
    ensures 0 <= limit * MICRO - Total(r'.tables.rollup, b) <= MAX_QUANTITY
    decreases limit * MICRO - Total(r.tables.rollup, b)
  {
    r' := r;
    if limit * MICRO - Total(r.tables.rollup, b) > MAX_QUANTITY {
      var x;
      var c;
      c, x := FillerChecks(s, r, b, r.txns[u].req.receivedAt, MAX_QUANTITY, limit);
      assert c.txns[u] == r.txns[u] && c.txns[|r.txns|] == x;
      var d := FinishChecked(s, c, |r.txns|, b, limit);
      AnsweredStaysFree(c, d, |r.txns|, b, limit);
      r' := FillWindow(s, d, u, b, limit);
    }
  }

  lemma BrokenAt(s: State, r: State, b: BucketKey, m: int)
    requires Reaches(s, r, b.quota, m) && Broken(s, r, b, m)
    ensures CapCanBreak(s, b.quota, m)
  {
    assert b == BucketKey(b.quota, b.window);
  }

  /** An ingest that has not counted yet can wait until the window is full. */
  lemma WaitingIngestBreaks(s: State, r: State, u: nat, b: BucketKey, limit: int)
    requires Reaches(s, r, b.quota, limit) && Inv(r) && BucketFree(r, b, limit)
    requires u < |r.txns| && UnlockedOn(r.txns[u], b)
    requires Total(s.tables.rollup, b) <= Total(r.tables.rollup, b)
    ensures CapCanBreak(s, b.quota, limit)
  {
    var r' := r;
    if Total(r.tables.rollup, b) <= limit * MICRO {
      r' := FillWindow(s, r, u, b, limit);
    }
    var gap := limit * MICRO - Total(r'.tables.rollup, b);
    if gap > 0 {
      r' := OvertakeCheck(s, r', u, b, gap, limit);
    } else {
      r' := FinishUnlocked(s, r', u, b, limit);
    }
    BrokenAt(s, r', b, limit);
  }

  lemma UnlimitedBreaks(s: State, u: nat, b: BucketKey, limit: int)
    requires Inv(s) && RowFree(s, b.quota, limit)
    requires u < |s.txns| && UnlockedOn(s.txns[u], b) && s.txns[u].phase.Unlimited?
    requires forall o :: 0 <= o < |s.txns| && s.txns[o].req.Ingest? ==> s.txns[o].req.quantity > 0
    ensures CapCanBreak(s, b.quota, limit)
  {
    ReachNow(s, b.quota, limit);
    if o :| 0 <= o < |s.txns| && s.txns[o].HoldsBucket(b) {
      forall p | 0 <= p < |s.txns| && p != o ensures !s.txns[p].HoldsBucket(b) {
        assert Compatible(s.txns[o], s.txns[p]);
      }
      assert !s.txns[o].HoldsQuota(b.quota);
      var r := FinishUnlocked(s, s, o, b, limit);
      AnsweredStaysFree(s, r, o, b, limit);
      WaitingIngestBreaks(s, r, u, b, limit);
    } else {
      WaitingIngestBreaks(s, s, u, b, limit);
    }
  }

  lemma CountedBreaks(s: State, u: nat, b: BucketKey, limit: int)
    requires Inv(s) && RowFree(s, b.quota, limit)
    requires u < |s.txns| && UnlockedOn(s.txns[u], b) && s.txns[u].phase.Counted?
    requires Total(s.tables.rollup, b) + s.txns[u].req.quantity + MAX_QUANTITY > limit * MICRO
    ensures CapCanBreak(s, b.quota, limit)
  {
    ReachNow(s, b.quota, limit);
    forall p | 0 <= p < |s.txns| && p != u ensures !s.txns[p].HoldsBucket(b) {
      assert Compatible(s.txns[u], s.txns[p]);
    }
    var gap := limit * MICRO - Total(s.tables.rollup, b);
    var r;
    if gap > 0 {
      r := OvertakeCheck(s, s, u, b, if gap < MAX_QUANTITY then gap else MAX_QUANTITY, limit);
    } else {
      r := FinishUnlocked(s, s, u, b, limit);
    }
    BrokenAt(s, r, b, limit);
  }

  // --------------------------------------------------------- when a cap cannot be

  /** `x` cannot carry its window over `m`, not even by overtaking the largest
      request: if it has been checked, it is about to be rejected or still fits. */
  predicate TameAt(tables: Tables, x: Txn, m: int)
    requires x.Fits()
  {
    x.req.Ingest? ==>
      var total := Total(tables.rollup, x.Row().Bucket());
      && 0 < x.req.quantity <= MAX_QUANTITY && !x.phase.Unlimited?
      && (x.phase.Checked? ==> x.OverLimit() || total + x.req.quantity <= m * MICRO)
      && (x.phase.Counted? && x.phase.under.Some? ==> x.phase.counter.total <= m * MICRO)
      && (x.phase.Counted? && x.phase.under.None? ==> total + x.req.quantity + MAX_QUANTITY <= m * MICRO)
  }

  ghost predicate Tame(s: State, k: QuotaKey, m: int)
    requires Fit(s)
  {
    forall i :: 0 <= i < |s.txns| && s.txns[i].req.key == k ==> TameAt(s.tables, s.txns[i], m)
  }

  lemma OwnStepTame(tables: Tables, x: Txn, m: int)
    requires x.Fits() && !x.phase.Done? && Local(tables, x) && TameAt(tables, x, m)
    requires x.req.key in tables.quotas && tables.quotas[x.req.key] <= m
    ensures var (tables', phase') := Exec(tables, x);
            x.(phase := phase').Fits() && TameAt(tables', x.(phase := phase'), m)
  {
  }

  lemma OtherStepTame(tables: Tables, x: Txn, o: Txn, m: int)
    requires x.Fits() && o.Fits() && !x.phase.Done?
    requires Local(tables, x) && Compatible(x, o)
    requires TameAt(tables, o, m) && (x.req.key == o.req.key ==> TameAt(tables, x, m))
    ensures TameAt(Exec(tables, x).0, o, m)
  {
  }

  lemma StepStaysTame(s: State, a: Action, k: QuotaKey, m: int, window: int)
    requires Inv(s) && Enabled(s, a) && Tame(s, k, m) && k in s.tables.quotas && s.tables.quotas[k] <= m
    ensures Inv(Apply(s, a)) && Tame(Apply(s, a), k, m)
    ensures var b := BucketKey(k, window);
            Total(Apply(s, a).tables.rollup, b) <= Greater(Total(s.tables.rollup, b), m * MICRO)
  {
    ApplyKeepsInv(s, a);
    if a.Advance? {
      var x, s' := s.txns[a.t], Apply(s, a);
      assert Local(s.tables, x);
      if x.req.key == k {
        OwnStepTame(s.tables, x, m);
      }
      forall i | 0 <= i < |s.txns| && i != a.t && s.txns[i].req.key == k
        ensures TameAt(s'.tables, s'.txns[i], m)
      {
        OtherStepTame(s.tables, x, s.txns[i], m);
      }
    }
  }

  lemma {:induction false} TameRunKeepsCap(s: State, schedule: seq<Action>, k: QuotaKey, m: int, window: int)
    requires Inv(s) && Valid(s, schedule) && Tame(s, k, m) && LimitStays(s, schedule, k, m)
    ensures var b := BucketKey(k, window);
            Total(Run(s, schedule).tables.rollup, b) <= Greater(Total(s.tables.rollup, b), m * MICRO)
    decreases |schedule|
  {
    if |schedule| > 0 {
      StepStaysTame(s, schedule[0], k, m, window);
      TameRunKeepsCap(Apply(s, schedule[0]), schedule[1..], k, m, window);
    }
  }

  lemma ArrivalsAreTame(s: State, more: seq<Txn>, k: QuotaKey, m: int)
    requires Inv(s) && forall i :: 0 <= i < |more| ==> Arrival(more[i])
    ensures Inv(Arrive(s, more))
    ensures Tame(s, k, m) ==> Tame(Arrive(s, more), k, m)
    ensures Sound(s, k) ==> Sound(Arrive(s, more), k)
  {
  }

  lemma TameKeepsCap(s: State, k: QuotaKey, m: int)
    requires Inv(s) && Tame(s, k, m)
    ensures !CapCanBreak(s, k, m)
  {
    if CapCanBreak(s, k, m) {
      var r, window :| Reaches(s, r, k, m) && Broken(s, r, BucketKey(k, window), m);
      var more, schedule :| Leads(s, more, schedule, r, k, m);
      ArrivalsAreTame(s, more, k, m);
      TameRunKeepsCap(Arrive(s, more), schedule, k, m, window);
    }
  }

  /** From a sound state no further requests and no schedule pass a cap. */
  lemma CalmCreationKeepsCap(s: State, k: QuotaKey, m: int)
    requires Inv(s) && Sound(s, k)
    ensures !CapCanBreak(s, k, m)
  {
    if CapCanBreak(s, k, m) {
      var r, window :| Reaches(s, r, k, m) && Broken(s, r, BucketKey(k, window), m);
      var more, schedule :| Leads(s, more, schedule, r, k, m);
      ArrivalsAreTame(s, more, k, m);
      CapHolds(Arrive(s, more), schedule, k, m, window);
    }
  }

  // ------------------------------------------------------------ the exact condition

  /** `x` found no quota row of `k`, and has not counted yet or holds a window that
      one more request of the largest quantity carries over `limit`. */
  predicate CanOvertake(tables: Tables, x: Txn, k: QuotaKey, limit: int)
    requires x.Fits()
  {
    && x.req.key == k && x.Unlocked()
    && (x.phase.Unlimited? ||
        Total(tables.rollup, x.Row().Bucket()) + x.req.quantity + MAX_QUANTITY > limit * MICRO)
  }

  /** `x` has been admitted under the lock on what is no longer the total of its
      window, and will carry it over `limit`. */
  predicate OverCommitting(tables: Tables, x: Txn, k: QuotaKey, limit: int)
    requires x.Fits()
  {
    && x.req.key == k
    && (|| (x.phase.Checked? && !x.OverLimit() &&
            Total(tables.rollup, x.Row().Bucket()) + x.req.quantity > limit * MICRO)
        || (x.phase.Counted? && x.phase.under.Some? && x.phase.counter.total > limit * MICRO))
  }

  lemma OvertakerBreaksFreeRow(s: State, u: nat, k: QuotaKey, limit: int)
    requires Inv(s) && ValidRequests(s) && RowFree(s, k, limit)
    requires u < |s.txns| && CanOvertake(s.tables, s.txns[u], k, limit)
    ensures CapCanBreak(s, k, limit)
  {
    var b := s.txns[u].Row().Bucket();
    if s.txns[u].phase.Unlimited? {
      UnlimitedBreaks(s, u, b, limit);
    } else {
      CountedBreaks(s, u, b, limit);
    }
  }

  lemma AbortBeforeArrivals(s: State, t: nat, more: seq<Txn>)
    requires Fit(s) && t < |s.txns| && !s.txns[t].phase.Done? && Fit(Arrive(s, more))
    ensures Enabled(Arrive(s, more), Abort(t))
    ensures Apply(Arrive(s, more), Abort(t)) == Arrive(Apply(s, Abort(t)), more)
  {
    var lost := s.txns[t].(phase := Done(Aborted));
    assert (s.txns + more)[t := lost] == s.txns[t := lost] + more;
  }

  lemma AbortFirst(e: State, t: nat, schedule: seq<Action>, k: QuotaKey, m: int)
    requires Fit(e) && Enabled(e, Abort(t)) && k in e.tables.quotas && e.tables.quotas[k] <= m
    requires Fit(Apply(e, Abort(t))) && Valid(Apply(e, Abort(t)), schedule)
    requires LimitStays(Apply(e, Abort(t)), schedule, k, m)
    ensures Valid(e, [Abort(t)] + schedule) && LimitStays(e, [Abort(t)] + schedule, k, m)
    ensures Run(e, [Abort(t)] + schedule) == Run(Apply(e, Abort(t)), schedule)
  {
    assert ([Abort(t)] + schedule)[1..] == schedule;
  }

  lemma ArrivalsFit(s: State, s': State, more: seq<Txn>)
    requires Fit(s) && Fit(Arrive(s', more)) && |s.txns| == |s'.txns|
    ensures Fit(Arrive(s, more))
  {
    var e, e' := Arrive(s, more), Arrive(s', more);
    forall i | 0 <= i < |e.txns| ensures e.txns[i].Fits() {
      if i >= |s.txns| {
        assert e.txns[i] == e'.txns[i];
      }
    }
  }

  lemma BreaksAfterAbort(s: State, t: nat, k: QuotaKey, limit: int)
    requires Fit(s) && t < |s.txns| && !s.txns[t].phase.Done? && k in s.tables.quotas && s.tables.quotas[k] <= limit
    requires CapCanBreak(Apply(s, Abort(t)), k, limit)
    ensures CapCanBreak(s, k, limit)
  {
    var s' := Apply(s, Abort(t));
    var r, window :| Reaches(s', r, k, limit) && Broken(s', r, BucketKey(k, window), limit);
    var more, schedule :| Leads(s', more, schedule, r, k, limit);
    ArrivalsFit(s, s', more);
    AbortBeforeArrivals(s, t, more);
    AbortFirst(Arrive(s, more), t, schedule, k, limit);
    assert Leads(s, more, [Abort(t)] + schedule, r, k, limit);
    BrokenAt(s, r, BucketKey(k, window), limit);
  }

  /** Whoever holds the quota row may be lost first. */
  lemma OvertakerBreaks(s: State, u: nat, k: QuotaKey, limit: int)
    requires Inv(s) && ValidRequests(s) && k in s.tables.quotas && s.tables.quotas[k] == limit
    requires u < |s.txns| && CanOvertake(s.tables, s.txns[u], k, limit)
    ensures CapCanBreak(s, k, limit)
  {
    if h :| 0 <= h < |s.txns| && s.txns[h].HoldsQuota(k) {
      var s' := Apply(s, Abort(h));
      ApplyKeepsInv(s, Abort(h));
      forall o | 0 <= o < |s.txns| && o != h ensures !s'.txns[o].HoldsQuota(k) {
        assert Compatible(s.txns[h], s.txns[o]);
      }
      assert u != h && s'.txns[u] == s.txns[u];
      OvertakerBreaksFreeRow(s', u, k, limit);
      BreaksAfterAbort(s, h, k, limit);
    } else {
      OvertakerBreaksFreeRow(s, u, k, limit);
    }
  }

  lemma OverCommitterBreaks(s: State, u: nat, k: QuotaKey, limit: int)
    requires Inv(s) && ValidRequests(s) && k in s.tables.quotas && s.tables.quotas[k] == limit
    requires u < |s.txns| && OverCommitting(s.tables, s.txns[u], k, limit)
    ensures CapCanBreak(s, k, limit)
  {
    var b := s.txns[u].Row().Bucket();
    ReachNow(s, k, limit);
    var r := s;
    if s.txns[u].phase.Counted? {
      assert Local(s.tables, s.txns[u]);
      ReachStep(s, s, u, k, limit);
      r := Step(s, u);
    } else {
      if o :| 0 <= o < |s.txns| && s.txns[o].HoldsBucket(b) {
        r := BucketHolderFinishes(s, u, o, b, limit);
      }
      r := FinishChecked(s, r, u, b, limit);
    }
    BrokenAt(s, r, b, limit);
  }

  /** Whoever holds the rollup row beside a locked ingest is unlocked and commits first. */
  lemma BucketHolderFinishes(s: State, u: nat, o: nat, b: BucketKey, limit: int) returns (r: State)
    requires Inv(s) && ValidRequests(s) && Reaches(s, s, b.quota, limit)
    requires b.quota in s.tables.quotas && s.tables.quotas[b.quota] == limit
    requires u < |s.txns| && s.txns[u].HoldsQuota(b.quota) && s.txns[u].phase.Checked?
    requires o < |s.txns| && s.txns[o].HoldsBucket(b)
    ensures Reaches(s, r, b.quota, limit) && Inv(r) && |r.txns| == |s.txns| && r.txns[u] == s.txns[u]
    ensures r.tables.quotas == s.tables.quotas && AloneOn(r, b, u)
    ensures Total(r.tables.rollup, b) >= Total(s.tables.rollup, b)
  {
    assert Compatible(s.txns[u], s.txns[o]);
    forall p | 0 <= p < |s.txns| && p != o ensures !s.txns[p].HoldsBucket(b) {
      assert Compatible(s.txns[o], s.txns[p]);
    }
    r := FinishUnlocked(s, s, o, b, limit);
  }

  /** The exact condition, whoever holds the quota row: a cap in force can be passed
      if and only if an unlocked ingest in flight can overtake a check, or a locked
      one has been overtaken already and no longer fits. */
  lemma CapBreaksIff(s: State, k: QuotaKey, limit: int)
    requires Inv(s) && ValidRequests(s) && k in s.tables.quotas && s.tables.quotas[k] == limit
    ensures CapCanBreak(s, k, limit) <==>
            exists u :: 0 <= u < |s.txns| &&
              (CanOvertake(s.tables, s.txns[u], k, limit) || OverCommitting(s.tables, s.txns[u], k, limit))
  {
    if u :| 0 <= u < |s.txns| && CanOvertake(s.tables, s.txns[u], k, limit) {
      OvertakerBreaks(s, u, k, limit);
    } else if u :| 0 <= u < |s.txns| && OverCommitting(s.tables, s.txns[u], k, limit) {
      OverCommitterBreaks(s, u, k, limit);
    } else {
      forall i | 0 <= i < |s.txns| && s.txns[i].req.key == k ensures TameAt(s.tables, s.txns[i], limit) {
        assert !CanOvertake(s.tables, s.txns[i], k, limit) && !OverCommitting(s.tables, s.txns[i], k, limit);
      }
      TameKeepsCap(s, k, limit);
    }
  }

  /** Nobody else holds the row that has just been created. */
  lemma CreatedRowIsFree(s: State, p: nat)
    requires Inv(s) && Ready(s, p) && CommitsCreation(s.txns[p])
    ensures Inv(Step(s, p)) && RowFree(Step(s, p), s.txns[p].req.key, s.txns[p].req.limit)
  {
    StepKeepsInv(s, p);
    forall o | 0 <= o < |s.txns| && o != p
      ensures !s.txns[o].HoldsQuota(s.txns[p].req.key)
    {
      assert Compatible(s.txns[p], s.txns[o]);
    }
  }

  /** The cap of a freshly created row can be passed if and only if, at the moment
      of creation, an ingest on its key was in flight without the lock that had not
      counted yet, or whose window one more largest request carries over the limit. */
  lemma CapBreaksIffCreatedUnderIngest(s: State, p: nat)
    requires Inv(s) && Ready(s, p) && CommitsCreation(s.txns[p]) && ValidRequests(s)
    ensures var k, limit := s.txns[p].req.key, s.txns[p].req.limit;
            CapCanBreak(Step(s, p), k, limit) <==>
            exists u :: 0 <= u < |s.txns| && CanOvertake(s.tables, s.txns[u], k, limit)
  {
    var k, limit, after := s.txns[p].req.key, s.txns[p].req.limit, Step(s, p);
    CreatedRowIsFree(s, p);
    CapBreaksIff(after, k, limit);
    assert forall u :: 0 <= u < |s.txns| ==> !OverCommitting(after.tables, after.txns[u], k, limit);
    assert !after.txns[p].Unlocked() && !s.txns[p].Unlocked();
    assert forall u :: 0 <= u < |s.txns| && u != p ==> after.txns[u] == s.txns[u];
    assert forall u :: 0 <= u < |s.txns| ==>
      (CanOvertake(after.tables, after.txns[u], k, limit) <==> CanOvertake(s.tables, s.txns[u], k, limit));
  }

  /** For a limit that one request can fill, any unlocked ingest will do. */
  lemma SmallCapBreaksIffCreatedUnderIngest(s: State, p: nat)
    requires Inv(s) && Ready(s, p) && CommitsCreation(s.txns[p]) && ValidRequests(s)
    requires forall b :: b in s.tables.rollup ==> 0 <= s.tables.rollup[b].total
    requires s.txns[p].req.limit * MICRO <= MAX_QUANTITY
    ensures CapCanBreak(Step(s, p), s.txns[p].req.key, s.txns[p].req.limit) <==>
            CreatesUnderIngest(s, Advance(p), s.txns[p].req.key)
  {
    CapBreaksIffCreatedUnderIngest(s, p);
    var k, limit := s.txns[p].req.key, s.txns[p].req.limit;
    forall u | 0 <= u < |s.txns| && s.txns[u].Unlocked() && s.txns[u].req.key == k
      ensures CanOvertake(s.tables, s.txns[u], k, limit)
    {
      assert s.txns[u].Fits() && 0 < s.txns[u].req.quantity;
    }
  }
}
