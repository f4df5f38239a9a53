/** Every calm interleaving equals running its transactions one at a time. */
module Serialization {
  import opened Domain
  import opened Protocol
  import opened Invariants
  import opened CapSafety

  /** A whole request in one indivisible transaction: the reference the
      statement-by-statement protocol is measured against. */
  function Atomic(tables: Tables, x: Txn): (Tables, Outcome) {
    match x.req
    case Ingest(k, quantity, _, _) => (
      var row := x.Row();
      var original := FindByIdem(tables.events, row.Idem());
      if original.Some? then (tables, Replayed(original.value))
      else if k in tables.quotas && Total(tables.rollup, row.Bucket()) + quantity > tables.quotas[k] * MICRO then
        (tables, Rejected(x.Hint()))
      else
        (Tables(tables.events + [row],
                tables.rollup[row.Bucket() := Bump(tables.rollup, row.Bucket(), quantity)],
                tables.quotas), Created(row)))
    case PutQuota(k, limit) =>
      (tables.(quotas := tables.quotas[k := limit]), if k in tables.quotas then QuotaReplaced else QuotaCreated)
    case DeleteQuota(k) =>
      (tables.(quotas := tables.quotas - {k}), if k in tables.quotas then QuotaRemoved else QuotaAbsent)
  }

  /** Tables after running `log` serially. */
  function Replay(start: Tables, log: seq<Txn>): Tables {
    if |log| == 0 then start else Atomic(Replay(start, log[..|log| - 1]), log[|log| - 1]).0
  }

  /** Every logged transaction answered what the serial run answers. */
  ghost predicate SameOutcomes(start: Tables, log: seq<Txn>) {
    forall i :: 0 <= i < |log| ==>
      log[i].phase.Done? && log[i].phase.outcome == Atomic(Replay(start, log[..i]), log[i]).1
  }

  ghost predicate SerialSoFar(start: Tables, s: State) {
    s.tables == Replay(start, s.log) && SameOutcomes(start, s.log)
  }

  /** A checked ingest has read no more than is committed by now. */
  predicate NotAhead(tables: Tables, x: Txn)
    requires x.Fits()
  {
    x.phase.Checked? ==> x.phase.total <= Total(tables.rollup, x.Row().Bucket())
  }

  /** The next statement of `x` commits an ingest over the limit now in force. */
  predicate OverCommits(tables: Tables, x: Txn) {
    && x.phase.Counted? && x.req.key in tables.quotas
    && x.phase.counter.total > tables.quotas[x.req.key] * MICRO
  }

  lemma ExecIsAtomicIff(tables: Tables, x: Txn)
    requires x.Fits() && !x.phase.Done? && Local(tables, x) && NotAhead(tables, x)
    ensures var (tables', phase') := Exec(tables, x);
            if phase'.Done? then
              && (OverCommits(tables, x) ==> Atomic(tables, x).1 != phase'.outcome)
              && (!OverCommits(tables, x) ==> Atomic(tables, x) == (tables', phase'.outcome))
            else tables' == tables && !OverCommits(tables, x)
  {
    if x.phase.Begun? && x.req.DeleteQuota? && x.req.key !in tables.quotas {
      assert tables.quotas - {x.req.key} == tables.quotas;
    }
  }

  lemma SoundNeverOverCommits(tables: Tables, x: Txn)
    requires x.Fits() && Local(tables, x) && SoundAt(tables, x)
    ensures NotAhead(tables, x) && !OverCommits(tables, x)
  {
  }

  /** The last statement of a transaction is the point at which all of it takes effect. */
  lemma FinishIsAtomic(s: State, t: nat)
    requires Inv(s) && Ready(s, t) && Sound(s, s.txns[t].req.key)
    ensures var x' := Step(s, t).txns[t];
            if x'.phase.Done? then Atomic(s.tables, s.txns[t]) == (Step(s, t).tables, x'.phase.outcome)
            else Step(s, t).tables == s.tables
  {
    var x := s.txns[t];
    assert Local(s.tables, x) && SoundAt(s.tables, x);
    SoundNeverOverCommits(s.tables, x);
    ExecIsAtomicIff(s.tables, x);
  }

  /** One more transaction that ran atomically on the replayed tables. */
  lemma LogGrows(start: Tables, log: seq<Txn>, x: Txn)
    requires SameOutcomes(start, log) && x.phase.Done?
    requires x.phase.outcome == Atomic(Replay(start, log), x).1
    ensures SameOutcomes(start, log + [x]) && Replay(start, log + [x]) == Atomic(Replay(start, log), x).0
  {
    var all := log + [x];
    assert all[..|log|] == log;
    forall i | 0 <= i < |all|
      ensures all[i].phase.Done? && all[i].phase.outcome == Atomic(Replay(start, all[..i]), all[i]).1
    {
      if i < |log| {
        assert all[..i] == log[..i] && all[i] == log[i];
      }
    }
  }

  lemma StepIsSerial(start: Tables, s: State, t: nat)
    requires Inv(s) && Ready(s, t) && SerialSoFar(start, s)
    requires NotAhead(s.tables, s.txns[t]) && !OverCommits(s.tables, s.txns[t])
    ensures SerialSoFar(start, Step(s, t))
  {
    var x, x' := s.txns[t], Step(s, t).txns[t];
    assert Local(s.tables, x);
    ExecIsAtomicIff(s.tables, x);
    if x'.phase.Done? {
      AtomicIgnoresPhase(s.tables, x, x'.phase);
      LogGrows(start, s.log, x');
    }
  }

  lemma AtomicIgnoresPhase(tables: Tables, x: Txn, phase: Phase)
    ensures Atomic(tables, x.(phase := phase)) == Atomic(tables, x)
  {
  }

  ghost predicate CalmForAll(s: State, schedule: seq<Action>)
    requires Fit(s) && Valid(s, schedule)
  {
    forall k :: Calm(s, schedule, k)
  }

  lemma {:induction false} SerialFrom(start: Tables, s: State, schedule: seq<Action>)
    requires Inv(s) && SerialSoFar(start, s) && (forall k :: Sound(s, k))
    requires Valid(s, schedule) && CalmForAll(s, schedule)
    ensures SerialSoFar(start, Run(s, schedule))
    decreases |schedule|
  {
    if |schedule| > 0 {
      var a, s' := schedule[0], Apply(s, schedule[0]);
      if a.Advance? {
        assert Sound(s, s.txns[a.t].req.key) && Local(s.tables, s.txns[a.t]);
        SoundNeverOverCommits(s.tables, s.txns[a.t]);
        StepIsSerial(start, s, a.t);
      }
      ApplyKeepsInv(s, a);
      forall k ensures Sound(s', k) && Calm(s', schedule[1..], k) {
        assert Calm(s, schedule, k);
        SoundnessIsLostOnlyByCreation(s, a, k);
      }
      SerialFrom(start, s', schedule[1..]);
    }
  }

  /** The log and the transaction list tell the same story: each finished,
      non-aborted transaction is logged exactly once. */
  ghost predicate LogExact(s: State) {
    && (forall e :: e in s.log ==> e in s.txns && e.phase.Done? && !e.phase.outcome.Aborted?)
    && (forall i :: 0 <= i < |s.txns| && s.txns[i].phase.Done? && !s.txns[i].phase.outcome.Aborted? ==>
          multiset(s.log)[s.txns[i]] == 1)
  }

  ghost predicate DistinctIds(s: State) {
    forall i, j :: 0 <= i < j < |s.txns| ==> s.txns[i].id != s.txns[j].id
  }

  lemma ApplyKeepsLog(s: State, a: Action)
    requires Fit(s) && Enabled(s, a) && DistinctIds(s) && LogExact(s)
    ensures DistinctIds(Apply(s, a)) && LogExact(Apply(s, a))
  {
    var s', x := Apply(s, a), s.txns[a.t];
    var x' := s'.txns[a.t];
    forall e | e in s.log ensures e in s'.txns && e.id != x'.id {
      var i :| 0 <= i < |s.txns| && s.txns[i] == e;
      assert i != a.t && s'.txns[i] == e;
    }
    assert x' !in s.log;
    assert x' in s'.txns;
  }

  lemma {:induction false} RunKeepsLog(s: State, schedule: seq<Action>)
    requires Fit(s) && Valid(s, schedule) && DistinctIds(s) && LogExact(s)
    ensures LogExact(Run(s, schedule))
    decreases |schedule|
  {
    if |schedule| > 0 {
      ApplyKeepsLog(s, schedule[0]);
      ApplyFits(s, schedule[0]);
      RunKeepsLog(Apply(s, schedule[0]), schedule[1..]);
    }
  }

  /** Serialization at the commit point. From any start with consistent tables,
      every interleaving with aborts anywhere that never creates a quota row under
      an unlocked ingest ends with the tables, and gave every answer, of running
      its finished transactions one at a time in the order they finished. */
  lemma Serializable(s: State, schedule: seq<Action>)
    requires Initial(s) && StartTables(s.tables) && DistinctIds(s)
    requires Valid(s, schedule) && CalmForAll(s, schedule)
    ensures var r := Run(s, schedule);
            r.tables == Replay(s.tables, r.log) && SameOutcomes(s.tables, r.log) && LogExact(r)
  {
    InitialInv(s);
    forall k ensures Sound(s, k) {
      InitialSound(s, k);
    }
    SerialFrom(s.tables, s, schedule);
    RunKeepsLog(s, schedule);
  }

  // ------------------------------------------------ runs with creations, exactly

  /** No ingest of the run commits over the limit in force when it does. */
  ghost predicate NeverOverCommits(s: State, schedule: seq<Action>)
    requires Fit(s) && Valid(s, schedule)
    decreases |schedule|
  {
    |schedule| == 0 ||
    (!(schedule[0].Advance? && OverCommits(s.tables, s.txns[schedule[0].t])) &&
     (ApplyFits(s, schedule[0]); NeverOverCommits(Apply(s, schedule[0]), schedule[1..])))
  }

  ghost predicate NoneAhead(s: State)
    requires Fit(s)
  {
    forall i :: 0 <= i < |s.txns| ==> NotAhead(s.tables, s.txns[i])
  }

  /** Totals only grow, so what has been read is never more than what is there. */
  lemma TotalsGrow(tables: Tables, x: Txn, b: BucketKey)
    requires x.Fits() && !x.phase.Done? && Local(tables, x) && (x.req.Ingest? ==> x.req.quantity > 0)
    ensures Total(Exec(tables, x).0.rollup, b) >= Total(tables.rollup, b)
  {
  }

  lemma ApplyKeepsNoneAhead(s: State, a: Action)
    requires Inv(s) && Enabled(s, a) && NoneAhead(s) && ValidRequests(s)
    ensures Inv(Apply(s, a)) && NoneAhead(Apply(s, a)) && ValidRequests(Apply(s, a))
  {
    ApplyKeepsInv(s, a);
    if a.Advance? {
      var x, s' := s.txns[a.t], Apply(s, a);
      assert Local(s.tables, x);
      forall i | 0 <= i < |s.txns| ensures NotAhead(s'.tables, s'.txns[i]) {
        assert NotAhead(s.tables, s.txns[i]);
        if s'.txns[i].phase.Checked? {
          TotalsGrow(s.tables, x, s'.txns[i].Row().Bucket());
        }
      }
    }
  }

  lemma {:induction false} LogOnlyGrows(s: State, schedule: seq<Action>)
    requires Fit(s) && Valid(s, schedule)
    ensures |s.log| <= |Run(s, schedule).log| && Run(s, schedule).log[..|s.log|] == s.log
    decreases |schedule|
  {
    if |schedule| > 0 {
      var s' := Apply(s, schedule[0]);
      ApplyFits(s, schedule[0]);
      LogOnlyGrows(s', schedule[1..]);
      assert s'.log[..|s.log|] == s.log;
    }
  }

  /** A wrong answer in the log is never mended. */
  lemma WrongAnswerStays(start: Tables, log: seq<Txn>, n: nat)
    requires n < |log| && log[n].phase.Done?
    requires log[n].phase.outcome != Atomic(Replay(start, log[..n]), log[n]).1
    ensures !SameOutcomes(start, log)
  {
  }

  lemma OverCommitIsWrong(start: Tables, s: State, schedule: seq<Action>)
    requires Inv(s) && Valid(s, schedule) && |schedule| > 0 && schedule[0].Advance? && NoneAhead(s)
    requires s.tables == Replay(start, s.log) && OverCommits(s.tables, s.txns[schedule[0].t])
    ensures !SameOutcomes(start, Run(s, schedule).log)
  {
    var t := schedule[0].t;
    var s', x := Step(s, t), s.txns[t];
    assert Local(s.tables, x) && NotAhead(s.tables, x);
    ExecIsAtomicIff(s.tables, x);
    AtomicIgnoresPhase(s.tables, x, s'.txns[t].phase);
    ApplyFits(s, schedule[0]);
    LogOnlyGrows(s', schedule[1..]);
    var log := Run(s, schedule).log;
    assert log == Run(s', schedule[1..]).log;
    assert s'.log == s.log + [s'.txns[t]];
    assert log[|s.log|] == s'.log[|s.log|] == s'.txns[t] && log[..|s.log|] == s'.log[..|s.log|] == s.log;
    WrongAnswerStays(start, log, |s.log|);
  }

  lemma {:induction false} SerialFromIff(start: Tables, s: State, schedule: seq<Action>)
    requires Inv(s) && SerialSoFar(start, s) && NoneAhead(s) && ValidRequests(s) && Valid(s, schedule)
    ensures SerialSoFar(start, Run(s, schedule)) <==> NeverOverCommits(s, schedule)
    decreases |schedule|
  {
    if |schedule| > 0 {
      var a := schedule[0];
      if a.Advance? && OverCommits(s.tables, s.txns[a.t]) {
        OverCommitIsWrong(start, s, schedule);
      } else {
        if a.Advance? {
          assert NotAhead(s.tables, s.txns[a.t]);
          StepIsSerial(start, s, a.t);
        }
        ApplyKeepsNoneAhead(s, a);
        SerialFromIff(start, Apply(s, a), schedule[1..]);
      }
    }
  }

  /** With creations anywhere, a run equals its transactions one at a time, in the
      order they finished, if and only if no ingest commits over the limit in force
      at that moment. */
  lemma SerialIffNeverOverCommitted(s: State, schedule: seq<Action>)
    requires Initial(s) && StartTables(s.tables) && ValidRequests(s) && Valid(s, schedule)
    ensures SerialSoFar(s.tables, Run(s, schedule)) <==> NeverOverCommits(s, schedule)
  {
    InitialInv(s);
    SerialFromIff(s.tables, s, schedule);
  }

  /** The ingest runs up to the statement that finds no quota row, the PUT creates
      the row and commits, the ingest goes on. */
  const OVERTAKEN: seq<Action> :=
    [Advance(0), Advance(0), Advance(1), Advance(1), Advance(0), Advance(0)]

  function Overtaken(tables: Tables, x: Txn, limit: int): State {
    State(tables, [x, Txn(x.id + 1, PutQuota(x.req.key, limit), Begun)], [])
  }

  function AfterOvertaking(tables: Tables, x: Txn, limit: int): State
    requires x.req.Ingest?
  {
    var b := x.Row().Bucket();
    var put := Txn(x.id + 1, PutQuota(x.req.key, limit), Done(QuotaCreated));
    var done := x.(phase := Done(Created(x.Row())));
    State(Tables(tables.events + [x.Row()], tables.rollup[b := Bump(tables.rollup, b, x.req.quantity)],
                 tables.quotas[x.req.key := limit]), [done, put], [put, done])
  }

  /** The two of them alone in the database: the ingest and the PUT. */
  function Pair(tables: Tables, x: Txn, p: Phase, limit: int, q: Phase, log: seq<Txn>): State {
    State(tables, [x.(phase := p), Txn(x.id + 1, PutQuota(x.req.key, limit), q)], log)
  }

  /** The PUT has committed, the ingest is past its quota statement. */
  lemma OvertakenIngestEnds(tables: Tables, x: Txn, limit: int)
    requires x.req.Ingest? && x.req.key !in tables.quotas
    ensures var put := Txn(x.id + 1, PutQuota(x.req.key, limit), Done(QuotaCreated));
            var tables' := tables.(quotas := tables.quotas[x.req.key := limit]);
            var s := Pair(tables', x, Unlimited, limit, put.phase, [put]);
            && Fit(s) && Valid(s, OVERTAKEN[4..]) && Run(s, OVERTAKEN[4..]) == AfterOvertaking(tables, x, limit)
  {
    var put := Txn(x.id + 1, PutQuota(x.req.key, limit), Done(QuotaCreated));
    var tables' := tables.(quotas := tables.quotas[x.req.key := limit]);
    var counted := Counted(None, Bump(tables.rollup, x.Row().Bucket(), x.req.quantity));
    var s5 := Pair(tables', x, counted, limit, put.phase, [put]);
    RunsAs(s5, AfterOvertaking(tables, x, limit), [], 0);
    RunsAs(Pair(tables', x, Unlimited, limit, put.phase, [put]), s5, OVERTAKEN[5..], 0);
  }

  /** The PUT has written the row and commits. */
  lemma OvertakingPutEnds(tables: Tables, x: Txn, limit: int)
    requires x.req.Ingest? && x.req.key !in tables.quotas
    ensures var s := Pair(tables, x, Unlimited, limit, QuotaWritten(Upsert(limit, true)), []);
            && Fit(s) && Valid(s, OVERTAKEN[3..]) && Run(s, OVERTAKEN[3..]) == AfterOvertaking(tables, x, limit)
  {
    var put := Txn(x.id + 1, PutQuota(x.req.key, limit), Done(QuotaCreated));
    var tables' := tables.(quotas := tables.quotas[x.req.key := limit]);
    var s3 := Pair(tables, x, Unlimited, limit, QuotaWritten(Upsert(limit, true)), []);
    OvertakenIngestEnds(tables, x, limit);
    RunsAs(s3, Pair(tables', x, Unlimited, limit, put.phase, [put]), OVERTAKEN[4..], 1);
  }

  lemma OvertakingPutStarts(tables: Tables, x: Txn, limit: int)
    requires x.req.Ingest? && x.req.key !in tables.quotas
    ensures var s := Pair(tables, x, Unlimited, limit, Begun, []);
            && Fit(s) && Valid(s, OVERTAKEN[2..]) && Run(s, OVERTAKEN[2..]) == AfterOvertaking(tables, x, limit)
  {
    var s3 := Pair(tables, x, Unlimited, limit, QuotaWritten(Upsert(limit, true)), []);
    OvertakingPutEnds(tables, x, limit);
    RunsAs(Pair(tables, x, Unlimited, limit, Begun, []), s3, OVERTAKEN[3..], 1);
  }

  lemma OvertakenRuns(tables: Tables, x: Txn, limit: int)
    requires x.req.Ingest? && x.phase == Begun && x.req.key !in tables.quotas
    requires FindByIdem(tables.events, x.Row().Idem()).None?
    ensures var s := Overtaken(tables, x, limit);
            Valid(s, OVERTAKEN) && Run(s, OVERTAKEN) == AfterOvertaking(tables, x, limit)
  {
    var s1 := Pair(tables, x, Claimed, limit, Begun, []);
    OvertakingPutStarts(tables, x, limit);
    RunsAs(s1, Pair(tables, x, Unlimited, limit, Begun, []), OVERTAKEN[2..], 0);
    RunsAs(Overtaken(tables, x, limit), s1, OVERTAKEN[1..], 0);
  }

  lemma ReplayOfTwo(start: Tables, x: Txn, y: Txn)
    ensures Replay(start, [x, y]) == Atomic(Atomic(start, x).0, y).0
    ensures SameOutcomes(start, [x, y]) <==>
            && x.phase.Done? && x.phase.outcome == Atomic(start, x).1
            && y.phase.Done? && y.phase.outcome == Atomic(Atomic(start, x).0, y).1
  {
    var log := [x, y];
    assert log[..0] == [] && log[..1] == [x] && [x][..0] == [];
    assert Replay(start, [x]) == Atomic(start, x).0;
    if SameOutcomes(start, log) {
      assert log[0] == x && log[1] == y;
    }
  }

  /** A calm run is needed: on the overtaking schedule both requests are answered
      201, which is what the commit order PUT, ingest answers if and only if the
      ingest fits under the limit being created. */
  lemma OvertakenIsSerialIffItFits(tables: Tables, x: Txn, limit: int)
    requires x.req.Ingest? && x.phase == Begun && x.req.key !in tables.quotas
    requires FindByIdem(tables.events, x.Row().Idem()).None?
    ensures var s := Overtaken(tables, x, limit);
            var fits := Total(tables.rollup, x.Row().Bucket()) + x.req.quantity <= limit * MICRO;
            Valid(s, OVERTAKEN) && (SerialSoFar(tables, Run(s, OVERTAKEN)) <==> fits)
  {
    OvertakenRuns(tables, x, limit);
    var r := AfterOvertaking(tables, x, limit);
    ReplayOfTwo(tables, r.log[0], r.log[1]);
    assert r.log == [r.log[0], r.log[1]];
    assert Atomic(tables, r.log[0]) == (tables.(quotas := r.tables.quotas), QuotaCreated);
  }
}
