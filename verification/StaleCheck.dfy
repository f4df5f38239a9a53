/** A cap that is passed although no ingest without the lock is in flight any more.

    `x` finds no quota row. A PUT creates the row with a limit of one unit. `z`
    locks the row and checks an empty window. Then `x` commits its unit. Every
    ingest still in flight holds the lock, but the check of `z` is out of date. */
module StaleCheck {
  import opened Domain
  import opened Protocol
  import opened Invariants
  import opened CapSafety
  import opened CreationHazard

  const KEY := QuotaKey(0, "customer", "metric")

  const X := Txn(0, Ingest(KEY, MICRO, "x", 0), Begun)
  const P := Txn(1, PutQuota(KEY, 1), Begun)
  const Z := Txn(2, Ingest(KEY, MICRO, "z", 0), Begun)

  const STALE: seq<Action> :=
    [Advance(0), Advance(0), Advance(1), Advance(1), Advance(2), Advance(2), Advance(2), Advance(0), Advance(0)]

  function Three(tables: Tables, x: Phase, p: Phase, z: Phase, log: seq<Txn>): State {
    State(tables, [X.(phase := x), P.(phase := p), Z.(phase := z)], log)
  }

  const EMPTY := Tables([], map[], map[])
  const CAPPED := Tables([], map[], map[KEY := 1])
  const DONE_P := P.(phase := Done(QuotaCreated))

  function Start(): State {
    Three(EMPTY, Begun, Begun, Begun, [])
  }

  function End(): State {
    var done := X.(phase := Done(Created(X.Row())));
    Three(Tables([X.Row()], map[X.Row().Bucket() := Counter(MICRO, 1)], map[KEY := 1]),
          done.phase, DONE_P.phase, Checked(1, 0), [DONE_P, done])
  }

  /** `x` counts and commits. */
  lemma LastTwo()
    ensures var s := Three(CAPPED, Unlimited, DONE_P.phase, Checked(1, 0), [DONE_P]);
            Fit(s) && Valid(s, STALE[7..]) && Run(s, STALE[7..]) == End()
  {
    var s := Three(CAPPED, Unlimited, DONE_P.phase, Checked(1, 0), [DONE_P]);
    var t := Three(CAPPED, Counted(None, Counter(MICRO, 1)), DONE_P.phase, Checked(1, 0), [DONE_P]);
    RunsAs(t, End(), [], 0);
    RunsAs(s, t, STALE[8..], 0);
  }

  /** `z` reads the total under its lock. */
  lemma ReadsTotal()
    ensures var s := Three(CAPPED, Unlimited, DONE_P.phase, Locked(1), [DONE_P]);
            Fit(s) && Valid(s, STALE[6..]) && Run(s, STALE[6..]) == End()
  {
    var s := Three(CAPPED, Unlimited, DONE_P.phase, Locked(1), [DONE_P]);
    LastTwo();
    RunsAs(s, Three(CAPPED, Unlimited, DONE_P.phase, Checked(1, 0), [DONE_P]), STALE[7..], 2);
  }

  /** `z` claims its key and locks the row. */
  lemma Locks()
    ensures var s := Three(CAPPED, Unlimited, DONE_P.phase, Begun, [DONE_P]);
            Fit(s) && Valid(s, STALE[4..]) && Run(s, STALE[4..]) == End()
  {
    var s := Three(CAPPED, Unlimited, DONE_P.phase, Begun, [DONE_P]);
    var t := Three(CAPPED, Unlimited, DONE_P.phase, Claimed, [DONE_P]);
    ReadsTotal();
    RunsAs(t, Three(CAPPED, Unlimited, DONE_P.phase, Locked(1), [DONE_P]), STALE[6..], 2);
    RunsAs(s, t, STALE[5..], 2);
  }

  /** The PUT writes the row and commits. */
  lemma PutCreates()
    ensures var s := Three(EMPTY, Unlimited, Begun, Begun, []);
            Fit(s) && Valid(s, STALE[2..]) && Run(s, STALE[2..]) == End()
  {
    var s := Three(EMPTY, Unlimited, Begun, Begun, []);
    var t := Three(EMPTY, Unlimited, QuotaWritten(Upsert(1, true)), Begun, []);
    Locks();
    RunsAs(t, Three(CAPPED, Unlimited, DONE_P.phase, Begun, [DONE_P]), STALE[4..], 1);
    RunsAs(s, t, STALE[3..], 1);
  }

  lemma NineSteps()
    ensures Fit(Start()) && Valid(Start(), STALE) && Run(Start(), STALE) == End()
  {
    var s := Three(EMPTY, Claimed, Begun, Begun, []);
    PutCreates();
    RunsAs(s, Three(EMPTY, Unlimited, Begun, Begun, []), STALE[2..], 0);
    RunsAs(Start(), s, STALE[1..], 0);
  }

  /** Some run leads from `s` to `r`. */
  ghost predicate CanHappen(s: State, r: State)
    requires Fit(s)
  {
    exists schedule :: Valid(s, schedule) && Run(s, schedule) == r
  }

  lemma ReachableInv(s: State, r: State)
    requires Initial(s) && Fit(s) && StartTables(s.tables) && CanHappen(s, r)
    ensures Inv(r)
  {
    var schedule :| Valid(s, schedule) && Run(s, schedule) == r;
    InitialInv(s);
    RunKeepsInv(s, schedule);
  }

  lemma EndHappens()
    ensures Fit(Start()) && CanHappen(Start(), End())
  {
    NineSteps();
  }

  lemma EndBreaks()
    requires Inv(End())
    ensures CapCanBreak(End(), KEY, 1)
  {
    var r := End();
    assert OverCommitting(r.tables, r.txns[2], KEY, 1);
    CapBreaksIff(r, KEY, 1);
  }

  lemma StartIsInitial()
    ensures Initial(Start()) && Start().tables == EMPTY && StartTables(Start().tables)
  {
  }

  lemma EndHoldsNoUnlocked()
    ensures KEY in End().tables.quotas && End().tables.quotas[KEY] == 1
    ensures forall i :: 0 <= i < |End().txns| ==> !End().txns[i].Unlocked()
  {
  }

  /** Reached from empty tables: the row is in force with its limit of one unit, no
      ingest in flight is without the lock, and the cap can be passed. */
  lemma NoUnlockedIngestIsNotEnough()
    ensures Initial(Start()) && Start().tables == EMPTY && Fit(Start()) && CanHappen(Start(), End())
    ensures KEY in End().tables.quotas && End().tables.quotas[KEY] == 1
    ensures forall i :: 0 <= i < |End().txns| ==> !End().txns[i].Unlocked()
    ensures CapCanBreak(End(), KEY, 1)
  {
    EndHappens();
    StartIsInitial();
    EndHoldsNoUnlocked();
    ReachableInv(Start(), End());
    EndBreaks();
  }
}
