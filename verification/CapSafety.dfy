/** Quota enforcement over whole runs. */
module CapSafety {
  import opened Domain
  import opened Protocol
  import opened Invariants

  /** The decision `x` has taken so far agrees with the committed tables. */
  predicate SoundAt(tables: Tables, x: Txn)
    requires x.Fits()
  {
    && (x.phase.Checked? ==> x.phase.total == Total(tables.rollup, x.Row().Bucket()))
    && (x.phase.Counted? && x.phase.under.Some? ==> x.phase.counter.total <= x.phase.under.value * MICRO)
    && (x.Unlocked() ==> x.req.key !in tables.quotas)
  }

  /** Every in-flight decision on key `k` is still right: checks are current, and
      an ingest without the lock means there is no row. */
  ghost predicate Sound(s: State, k: QuotaKey)
    requires Fit(s)
  {
    forall i :: 0 <= i < |s.txns| && s.txns[i].req.key == k ==> SoundAt(s.tables, s.txns[i])
  }

  lemma InitialSound(s: State, k: QuotaKey)
    requires Initial(s) && Fit(s)
    ensures Sound(s, k)
  {
  }

  lemma OwnStepSound(tables: Tables, x: Txn)
    requires x.Fits() && !x.phase.Done? && Local(tables, x) && SoundAt(tables, x)
    ensures var (tables', phase') := Exec(tables, x);
            x.(phase := phase').Fits() && SoundAt(tables', x.(phase := phase'))
  {
  }

  lemma OtherStepSound(tables: Tables, x: Txn, o: Txn)
    requires x.Fits() && o.Fits() && !x.phase.Done?
    requires Local(tables, x) && Local(tables, o) && Compatible(x, o)
    requires SoundAt(tables, o) && (x.req.key == o.req.key ==> SoundAt(tables, x))
    requires !(CommitsCreation(x) && x.req.key == o.req.key && o.Unlocked())
    ensures SoundAt(Exec(tables, x).0, o)
  {
  }

  /** Soundness of a key survives a step exactly when the step does not create
      the quota row underneath an unlocked ingest. */
  lemma SoundnessIsLostOnlyByCreation(s: State, a: Action, k: QuotaKey)
    requires Inv(s) && Enabled(s, a) && Sound(s, k)
    ensures Inv(Apply(s, a))
    ensures Sound(Apply(s, a), k) <==> !CreatesUnderIngest(s, a, k)
  {
    ApplyKeepsInv(s, a);
    var s' := Apply(s, a);
    if CreatesUnderIngest(s, a, k) {
      var o :| 0 <= o < |s.txns| && s.txns[o].Unlocked() && s.txns[o].req.key == k;
      assert s'.txns[o] == s.txns[o];
    } else if a.Advance? {
      var x := s.txns[a.t];
      if x.req.key == k {
        OwnStepSound(s.tables, x);
      }
      forall i | 0 <= i < |s.txns| && i != a.t && s.txns[i].req.key == k
        ensures SoundAt(s'.tables, s'.txns[i])
      {
        OtherStepSound(s.tables, x, s.txns[i]);
      }
    }
  }

  lemma {:induction false} RunStaysSound(s: State, schedule: seq<Action>, k: QuotaKey)
    requires Inv(s) && Valid(s, schedule) && Sound(s, k) && Calm(s, schedule, k)
    ensures Sound(Run(s, schedule), k)
    decreases |schedule|
  {
    if |schedule| > 0 {
      SoundnessIsLostOnlyByCreation(s, schedule[0], k);
      RunStaysSound(Apply(s, schedule[0]), schedule[1..], k);
    }
  }

  /** In every state of the run the quota row of `k` exists with a limit of at most `m`. */
  ghost predicate LimitStays(s: State, schedule: seq<Action>, k: QuotaKey, m: int)
    requires Fit(s) && Valid(s, schedule)
    decreases |schedule|
  {
    k in s.tables.quotas && s.tables.quotas[k] <= m &&
    (|schedule| == 0 ||
     (ApplyFits(s, schedule[0]); LimitStays(Apply(s, schedule[0]), schedule[1..], k, m)))
  }

  /** An ingest admitted while the row exists leaves its window at or under the
      limit in force when it commits, and no other window moves. */
  lemma AdmissionWithinLimit(s: State, t: nat)
    requires Inv(s) && Ready(s, t) && Sound(s, s.txns[t].req.key)
    requires Step(s, t).txns[t].phase.Done? && Step(s, t).txns[t].phase.outcome.Created?
    ensures var k, b, r := s.txns[t].req.key, s.txns[t].Row().Bucket(), Step(s, t).tables;
            && (k in s.tables.quotas ==> k in r.quotas && Total(r.rollup, b) <= r.quotas[k] * MICRO)
            && Total(r.rollup, b) == Total(s.tables.rollup, b) + s.txns[t].req.quantity
            && forall c :: c != b ==> Total(r.rollup, c) == Total(s.tables.rollup, c)
  {
  }

  ghost function Greater(a: int, b: int): int {
    if a < b then b else a
  }

  lemma StepKeepsCap(s: State, a: Action, k: QuotaKey, m: int, window: int)
    requires Inv(s) && Enabled(s, a) && Sound(s, k)
    requires k in s.tables.quotas && s.tables.quotas[k] <= m
    ensures var b := BucketKey(k, window);
            Total(Apply(s, a).tables.rollup, b) <= Greater(Total(s.tables.rollup, b), m * MICRO)
    ensures !CreatesUnderIngest(s, a, k)
  {
    if a.Advance? {
      var x := s.txns[a.t];
      assert x.Fits() && Local(s.tables, x);
      if x.req.key == k {
        assert SoundAt(s.tables, x);
      }
    }
  }

  /** Cap safety: from a sound state, in a run in which the row stays and its limit
      is never above `m`, no window total of the key passes the larger of its total
      at the start and `m`. Nothing is asked of the requests, and nothing about
      creations, because a row that exists cannot be created. */
  lemma {:induction false} CapHolds(s: State, schedule: seq<Action>, k: QuotaKey, m: int, window: int)
    requires Inv(s) && Valid(s, schedule) && Sound(s, k) && LimitStays(s, schedule, k, m)
    ensures var b := BucketKey(k, window);
            Total(Run(s, schedule).tables.rollup, b) <= Greater(Total(s.tables.rollup, b), m * MICRO)
    decreases |schedule|
  {
    if |schedule| > 0 {
      var s' := Apply(s, schedule[0]);
      StepKeepsCap(s, schedule[0], k, m, window);
      SoundnessIsLostOnlyByCreation(s, schedule[0], k);
      CapHolds(s', schedule[1..], k, m, window);
    }
  }

  /** The same over a whole run: after any calm beginning, whatever PUTs, DELETEs
      and aborts it held, the cap holds while the row stays. */
  lemma CapHoldsAfterCalm(s: State, before: seq<Action>, after: seq<Action>, k: QuotaKey, m: int, window: int)
    requires Initial(s) && StartTables(s.tables) && Fit(s)
    requires Valid(s, before) && Calm(s, before, k)
    requires Valid(Run(s, before), after) && LimitStays(Run(s, before), after, k, m)
    ensures var mid, b := Run(s, before), BucketKey(k, window);
            Total(Run(mid, after).tables.rollup, b) <= Greater(Total(mid.tables.rollup, b), m * MICRO)
  {
    InitialInv(s);
    InitialSound(s, k);
    RunKeepsInv(s, before);
    RunStaysSound(s, before, k);
    CapHolds(Run(s, before), after, k, m, window);
  }
}
