/** Exactly how many of N racing requests a cap admits. */
module Admission {
  import opened Domain
  import opened Protocol
  import opened Invariants
  import opened CapSafety

  function Created201(log: seq<Txn>): nat {
    if |log| == 0 then 0
    else Created201(log[..|log| - 1])
         + (if log[|log| - 1].phase.Done? && log[|log| - 1].phase.outcome.Created? then 1 else 0)
  }

  function Rejected429(log: seq<Txn>): nat {
    if |log| == 0 then 0
    else Rejected429(log[..|log| - 1])
         + (if log[|log| - 1].phase.Done? && log[|log| - 1].phase.outcome.Rejected? then 1 else 0)
  }

  function Live(txns: seq<Txn>): nat {
    if |txns| == 0 then 0 else (if txns[0].phase.Done? then 0 else 1) + Live(txns[1..])
  }

  lemma {:induction false} LiveUpdate(txns: seq<Txn>, t: nat, x: Txn)
    requires t < |txns| && !txns[t].phase.Done?
    ensures Live(txns[t := x]) == Live(txns) - (if x.phase.Done? then 1 else 0)
  {
    if t > 0 {
      assert txns[t := x][1..] == txns[1..][t - 1 := x];
      LiveUpdate(txns[1..], t - 1, x);
    } else {
      assert txns[t := x][1..] == txns[1..];
    }
  }

  lemma {:induction false} AllBegunLive(txns: seq<Txn>)
    requires forall i :: 0 <= i < |txns| ==> txns[i].phase == Begun
    ensures Live(txns) == |txns|
  {
    if |txns| > 0 {
      AllBegunLive(txns[1..]);
    }
  }

  lemma {:induction false} AllDoneLive(txns: seq<Txn>)
    requires forall i :: 0 <= i < |txns| ==> txns[i].phase.Done?
    ensures Live(txns) == 0
  {
    if |txns| > 0 {
      AllDoneLive(txns[1..]);
    }
  }

  /** Every transaction ingests `q` micro-units into bucket `b` under its own key. */
  ghost predicate Contenders(txns: seq<Txn>, b: BucketKey, q: int) {
    && (forall i :: 0 <= i < |txns| ==>
          txns[i].req.Ingest? && txns[i].Row().Bucket() == b && txns[i].req.quantity == q)
    && (forall i, j :: 0 <= i < j < |txns| ==> txns[i].req.idem != txns[j].req.idem)
  }

  predicate InRace(tables: Tables, x: Txn)
    requires x.Fits() && x.req.Ingest?
  {
    && !x.phase.Conflicted? && !x.Unlocked()
    && (x.phase.Begun? ==> FindByIdem(tables.events, x.Row().Idem()).None?)
    && (x.phase.Done? ==> x.phase.outcome.Created? || x.phase.outcome.Rejected?)
  }

  /** The books of a race that began with `r0` micro-units in the window. */
  ghost predicate Books(s: State, b: BucketKey, q: int, limit: int, r0: int) {
    var c, total := Created201(s.log), Total(s.tables.rollup, b);
    && b.quota in s.tables.quotas && s.tables.quotas[b.quota] == limit
    && total == r0 + c * q
    && (c > 0 ==> total <= limit * MICRO)
    && (c < |s.log| ==> total + q > limit * MICRO)
    && c + Rejected429(s.log) == |s.log| == |s.txns| - Live(s.txns)
  }

  ghost predicate Race(s: State, b: BucketKey, q: int, limit: int, r0: int) {
    && Inv(s) && Sound(s, b.quota) && Contenders(s.txns, b, q)
    && (forall i :: 0 <= i < |s.txns| ==> InRace(s.tables, s.txns[i]))
    && Books(s, b, q, limit, r0)
  }

  lemma StepKeepsRunners(s: State, t: nat, b: BucketKey, q: int, limit: int, r0: int)
    requires Race(s, b, q, limit, r0) && Ready(s, t)
    ensures var s' := Step(s, t);
            Fit(s') && forall i :: 0 <= i < |s.txns| ==> InRace(s'.tables, s'.txns[i])
  {
    var x, s' := s.txns[t], Step(s, t);
    OwnStep(s.tables, x);
    assert Local(s.tables, x) && InRace(s.tables, x);
    forall i | 0 <= i < |s.txns| && i != t
      ensures InRace(s'.tables, s'.txns[i])
    {
      var o := s.txns[i];
      assert InRace(s.tables, o) && x.req.idem != o.req.idem;
      if x.phase.Counted? {
        FindAfterAppend(s.tables.events, x.Row(), o.Row().Idem());
      }
    }
  }

  /** What one statement of a racing request does to the window and the log. */
  lemma StepEntries(s: State, t: nat, b: BucketKey, q: int, limit: int, r0: int)
    requires Race(s, b, q, limit, r0) && Ready(s, t)
    ensures var s', total := Step(s, t), Total(s.tables.rollup, b);
            var o := s'.txns[t].phase;
            && s'.tables.quotas == s.tables.quotas
            && s'.log == (if o.Done? then s.log + [s'.txns[t]] else s.log)
            && (o.Done? && o.outcome.Created? ==>
                  Total(s'.tables.rollup, b) == total + q && total + q <= limit * MICRO)
            && (!(o.Done? && o.outcome.Created?) ==> Total(s'.tables.rollup, b) == total)
            && (o.Done? && !o.outcome.Created? ==> o.outcome.Rejected? && total + q > limit * MICRO)
  {
    var x := s.txns[t];
    assert Local(s.tables, x) && SoundAt(s.tables, x) && InRace(s.tables, x);
  }

  lemma LogEntry(log: seq<Txn>, x: Txn)
    requires x.phase.Done?
    ensures Created201(log + [x]) == Created201(log) + (if x.phase.outcome.Created? then 1 else 0)
    ensures Rejected429(log + [x]) == Rejected429(log) + (if x.phase.outcome.Rejected? then 1 else 0)
  {
    assert (log + [x])[..|log|] == log;
  }

  lemma OneMoreWin(c: nat, q: int)
    ensures (c + 1) * q == c * q + q
  {
  }

  /** The books after an answer that moved the window, or did not, as it says. */
  lemma BooksAfterAnswer(s: State, s': State, x: Txn, b: BucketKey, q: int, limit: int, r0: int)
    requires Books(s, b, q, limit, r0) && q > 0 && x.phase.Done?
    requires s'.log == s.log + [x] && s'.tables.quotas == s.tables.quotas
    requires |s'.txns| == |s.txns| && Live(s'.txns) == Live(s.txns) - 1
    requires var total, total' := Total(s.tables.rollup, b), Total(s'.tables.rollup, b);
             if x.phase.outcome.Created? then total' == total + q && total' <= limit * MICRO
             else x.phase.outcome.Rejected? && total' == total && total + q > limit * MICRO
    ensures Books(s', b, q, limit, r0)
  {
    LogEntry(s.log, x);
    OneMoreWin(Created201(s.log), q);
  }

  lemma StepKeepsBooks(s: State, t: nat, b: BucketKey, q: int, limit: int, r0: int)
    requires Race(s, b, q, limit, r0) && Ready(s, t) && q > 0
    ensures Books(Step(s, t), b, q, limit, r0)
  {
    var s' := Step(s, t);
    var x' := s'.txns[t];
    StepEntries(s, t, b, q, limit, r0);
    LiveUpdate(s.txns, t, x');
    if x'.phase.Done? {
      BooksAfterAnswer(s, s', x', b, q, limit, r0);
    }
  }

  lemma {:induction false} RaceGoesOn(s: State, schedule: seq<Action>, b: BucketKey, q: int, limit: int, r0: int)
    requires Race(s, b, q, limit, r0) && q > 0 && Valid(s, schedule)
    requires forall a :: a in schedule ==> a.Advance?
    ensures Race(Run(s, schedule), b, q, limit, r0)
    ensures |Run(s, schedule).txns| == |s.txns|
    decreases |schedule|
  {
    if |schedule| > 0 {
      var a := schedule[0];
      var s' := Apply(s, a);
      StepKeepsRunners(s, a.t, b, q, limit, r0);
      StepKeepsBooks(s, a.t, b, q, limit, r0);
      assert !CreatesUnderIngest(s, a, b.quota);
      SoundnessIsLostOnlyByCreation(s, a, b.quota);
      RaceGoesOn(s', schedule[1..], b, q, limit, r0);
    }
  }

  lemma RaceStarts(s: State, b: BucketKey, q: int, limit: int)
    requires Initial(s) && StartTables(s.tables) && Contenders(s.txns, b, q)
    requires b.quota in s.tables.quotas && s.tables.quotas[b.quota] == limit
    requires forall i :: 0 <= i < |s.txns| ==> FindByIdem(s.tables.events, s.txns[i].Row().Idem()).None?
    ensures Race(s, b, q, limit, Total(s.tables.rollup, b))
  {
    InitialInv(s);
    InitialSound(s, b.quota);
    AllBegunLive(s.txns);
  }

  /** Exact admission, in every interleaving that answers all N requests: with `c`
      admitted the window grew by exactly `c * q`, the other N - c were answered
      429, admitted usage fits the cap, and a rejection means that even the final
      total leaves no room for one more request, so none was spurious. */
  lemma AdmitsExactlyWhatFits(s: State, schedule: seq<Action>, b: BucketKey, q: int, limit: int)
    requires Initial(s) && StartTables(s.tables) && Contenders(s.txns, b, q) && q > 0
    requires b.quota in s.tables.quotas && s.tables.quotas[b.quota] == limit
    requires forall i :: 0 <= i < |s.txns| ==> FindByIdem(s.tables.events, s.txns[i].Row().Idem()).None?
    requires Valid(s, schedule) && (forall a :: a in schedule ==> a.Advance?) && Final(Run(s, schedule))
    ensures var r := Run(s, schedule);
            var c, n, total := Created201(r.log), |s.txns|, Total(r.tables.rollup, b);
            && c + Rejected429(r.log) == n
            && total == Total(s.tables.rollup, b) + c * q
            && (c > 0 ==> total <= limit * MICRO)
            && (c < n ==> total + q > limit * MICRO)
  {
    RaceStarts(s, b, q, limit);
    RaceGoesOn(s, schedule, b, q, limit, Total(s.tables.rollup, b));
    AllDoneLive(Run(s, schedule).txns);
  }

  /** N unit requests race for an empty window under cap L: exactly min(N, L) win,
      the rest are answered 429 and the total is exactly min(N, L) units. */
  lemma UnitRequestsFillTheCap(s: State, schedule: seq<Action>, b: BucketKey, limit: int)
    requires Initial(s) && StartTables(s.tables) && Contenders(s.txns, b, MICRO)
    requires b.quota in s.tables.quotas && s.tables.quotas[b.quota] == limit && limit >= 1
    requires Total(s.tables.rollup, b) == 0
    requires forall i :: 0 <= i < |s.txns| ==> FindByIdem(s.tables.events, s.txns[i].Row().Idem()).None?
    requires Valid(s, schedule) && (forall a :: a in schedule ==> a.Advance?) && Final(Run(s, schedule))
    ensures var r, n := Run(s, schedule), |s.txns|;
            var wins := if n < limit then n else limit;
            && Created201(r.log) == wins
            && Rejected429(r.log) == n - wins
            && Total(r.tables.rollup, b) == wins * MICRO
  {
    AdmitsExactlyWhatFits(s, schedule, b, MICRO, limit);
  }
}
