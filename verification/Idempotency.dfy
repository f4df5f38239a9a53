/** Exactly-once recording per (tenant, idempotency key). */
module Idempotency {
  import opened Domain
  import opened Protocol
  import opened Invariants

  predicate Got201(x: Txn) {
    x.phase.Done? && x.phase.outcome.Created?
  }

  /** Event rows of the 201 answers, in the order they were committed. */
  function CreatedRows(log: seq<Txn>): seq<Event> {
    if |log| == 0 then []
    else
      var x := log[|log| - 1];
      CreatedRows(log[..|log| - 1]) + (if Got201(x) then [x.phase.outcome.event] else [])
  }

  /** Answers match the request they answer. */
  ghost predicate AnswersFit(s: State) {
    forall x :: x in s.log && x.phase.Done? && x.req.Ingest? ==>
      match x.phase.outcome
      case Created(e) => e == x.Row() && e in s.tables.events
      case Replayed(e) => e.Idem() == x.Row().Idem() && e in s.tables.events
      case Rejected(h) => h == x.Hint()
      case _ => false
  }

  ghost predicate Recorded(start: Tables, s: State) {
    && s.tables.events == start.events + CreatedRows(s.log)
    && (forall x :: x in s.log ==> x.phase.Done? && x.Fits())
    && AnswersFit(s)
  }

  /** The answer `x'` of a statement of `x`, over tables that contain the old ones. */
  lemma NewAnswerFits(tables: Tables, x: Txn)
    requires x.Fits() && !x.phase.Done? && Local(tables, x)
    ensures var (tables', phase') := Exec(tables, x);
            && x.(phase := phase').Fits()
            && tables'.events == tables.events + (if x.phase.Counted? then [x.Row()] else [])
            && (x.phase.Counted? <==> phase'.Done? && phase'.outcome.Created?)
            && (x.phase.Counted? ==> phase' == Done(Created(x.Row())))
            && (phase'.Done? && phase'.outcome.Replayed? ==>
                  phase'.outcome.original in tables.events && phase'.outcome.original.Idem() == x.Row().Idem())
            && (x.req.Ingest? && phase'.Done? ==>
                  phase'.outcome.Created? || phase'.outcome.Replayed? || phase' == Done(Rejected(x.Hint())))
  {
    OwnStep(tables, x);
  }

  lemma CreatedRowsGrow(log: seq<Txn>, x: Txn)
    ensures CreatedRows(log + [x]) == CreatedRows(log) + (if Got201(x) then [x.phase.outcome.event] else [])
  {
    assert (log + [x])[..|log|] == log;
  }

  /** One more answer that fits, over a table that has at most grown. */
  lemma AnswersGrow(s: State, s': State, x: Txn)
    requires AnswersFit(s) && s'.log == s.log + [x] && x.phase.Done?
    requires forall e :: e in s.tables.events ==> e in s'.tables.events
    requires x.req.Ingest? ==>
      match x.phase.outcome
      case Created(e) => e == x.Row() && e in s'.tables.events
      case Replayed(e) => e.Idem() == x.Row().Idem() && e in s'.tables.events
      case Rejected(h) => h == x.Hint()
      case _ => false
    ensures AnswersFit(s')
  {
  }

  lemma AnswerIsRecorded(start: Tables, s: State, t: nat)
    requires Inv(s) && Ready(s, t) && Recorded(start, s) && Step(s, t).txns[t].phase.Done?
    ensures Recorded(start, Step(s, t))
  {
    var x, s' := s.txns[t], Step(s, t);
    assert Local(s.tables, x);
    NewAnswerFits(s.tables, x);
    assert s'.log == s.log + [s'.txns[t]];
    CreatedRowsGrow(s.log, s'.txns[t]);
    AnswersGrow(s, s', s'.txns[t]);
  }

  lemma StepKeepsRecord(start: Tables, s: State, a: Action)
    requires Inv(s) && Enabled(s, a) && Recorded(start, s)
    ensures Recorded(start, Apply(s, a))
  {
    if a.Advance? {
      assert Local(s.tables, s.txns[a.t]);
      NewAnswerFits(s.tables, s.txns[a.t]);
      if Step(s, a.t).txns[a.t].phase.Done? {
        AnswerIsRecorded(start, s, a.t);
      }
    }
  }

  lemma {:induction false} RunKeepsRecord(start: Tables, s: State, schedule: seq<Action>)
    requires Inv(s) && Valid(s, schedule) && Recorded(start, s)
    ensures Recorded(start, Run(s, schedule)) && Inv(Run(s, schedule))
    decreases |schedule|
  {
    if |schedule| > 0 {
      StepKeepsRecord(start, s, schedule[0]);
      ApplyKeepsInv(s, schedule[0]);
      RunKeepsRecord(start, Apply(s, schedule[0]), schedule[1..]);
    }
  }

  /** Two different positions of the log that both answered 201 hold two rows of `events`. */
  lemma {:induction false} CreatedAt(log: seq<Txn>, i: nat) returns (at: nat)
    requires i < |log| && Got201(log[i])
    ensures at == |CreatedRows(log[..i])| && at < |CreatedRows(log)|
    ensures CreatedRows(log)[at] == log[i].phase.outcome.event
    ensures forall j :: i < j <= |log| ==> at < |CreatedRows(log[..j])|
  {
    at := |CreatedRows(log[..i])|;
    var n := |log| - 1;
    assert log[..|log|] == log;
    if i < n {
      var inner := CreatedAt(log[..n], i);
      assert log[..n][..i] == log[..i];
      assert at == inner;
      assert at < |CreatedRows(log[..n])|;
      forall j | i < j <= |log|
        ensures at < |CreatedRows(log[..j])|
      {
        assert j <= n ==> log[..n][..j] == log[..j];
      }
    }
  }

  /** No idempotency key is answered 201 twice. */
  lemma NoKeyCreatedTwice(start: Tables, r: State, i: nat, j: nat)
    requires Recorded(start, r) && DistinctIdem(r.tables.events)
    requires i < j < |r.log| && Got201(r.log[i]) && Got201(r.log[j])
    ensures r.log[i].phase.outcome.event.Idem() != r.log[j].phase.outcome.event.Idem()
  {
    var p := CreatedAt(r.log, i);
    var q := CreatedAt(r.log, j);
    var base := |start.events|;
    assert r.tables.events[base + p] == CreatedRows(r.log)[p];
    assert r.tables.events[base + q] == CreatedRows(r.log)[q];
  }

  /** A 200 answer carries the one record of its key. */
  lemma ReplayIsTheRecord(start: Tables, r: State, x: Txn)
    requires Recorded(start, r) && DistinctIdem(r.tables.events)
    requires x in r.log && x.req.Ingest? && x.phase.Done? && x.phase.outcome.Replayed?
    ensures FindByIdem(r.tables.events, x.Row().Idem()) == Some(x.phase.outcome.original)
  {
    FindIsThe(r.tables.events, x.phase.outcome.original);
  }

  /** Idempotency over runs, for every interleaving and every set of aborts:
      the table grows by exactly the 201 rows, no key is ever recorded twice or
      answered 201 twice, every 200 carries the one record of its key whatever
      payload the duplicate had, and `IdempotencyRaceError` cannot happen. */
  lemma ExactlyOnce(s: State, schedule: seq<Action>)
    requires Initial(s) && StartTables(s.tables) && Valid(s, schedule)
    ensures var r := Run(s, schedule);
      && r.tables.events == s.tables.events + CreatedRows(r.log)
      && DistinctIdem(r.tables.events)
      && (forall i, j :: 0 <= i < j < |r.log| && Got201(r.log[i]) && Got201(r.log[j]) ==>
            r.log[i].phase.outcome.event.Idem() != r.log[j].phase.outcome.event.Idem())
      && (forall x :: x in r.log && x.req.Ingest? && x.phase.Done? && x.phase.outcome.Replayed? ==>
            FindByIdem(r.tables.events, x.Row().Idem()) == Some(x.phase.outcome.original))
      && (forall i :: 0 <= i < |r.txns| ==> r.txns[i].phase != Done(RaceError))
  {
    InitialInv(s);
    assert s.tables.events + CreatedRows(s.log) == s.tables.events;
    RunKeepsRecord(s.tables, s, schedule);
    RecordedMeansExactlyOnce(s.tables, Run(s, schedule));
  }

  lemma RecordedMeansExactlyOnce(start: Tables, r: State)
    requires Inv(r) && Recorded(start, r)
    ensures forall i, j :: 0 <= i < j < |r.log| && Got201(r.log[i]) && Got201(r.log[j]) ==>
              r.log[i].phase.outcome.event.Idem() != r.log[j].phase.outcome.event.Idem()
    ensures forall x :: x in r.log && x.req.Ingest? && x.phase.Done? && x.phase.outcome.Replayed? ==>
              FindByIdem(r.tables.events, x.Row().Idem()) == Some(x.phase.outcome.original)
    ensures forall i :: 0 <= i < |r.txns| ==> r.txns[i].phase != Done(RaceError)
  {
    forall i, j | 0 <= i < j < |r.log| && Got201(r.log[i]) && Got201(r.log[j])
      ensures r.log[i].phase.outcome.event.Idem() != r.log[j].phase.outcome.event.Idem()
    {
      NoKeyCreatedTwice(start, r, i, j);
    }
    forall x | x in r.log && x.req.Ingest? && x.phase.Done? && x.phase.outcome.Replayed?
      ensures FindByIdem(r.tables.events, x.Row().Idem()) == Some(x.phase.outcome.original)
    {
      ReplayIsTheRecord(start, r, x);
    }
    forall i | 0 <= i < |r.txns| ensures r.txns[i].phase != Done(RaceError) {
      assert Local(r.tables, r.txns[i]);
    }
  }

  /** A duplicate adds no usage: the statement that answers 200 leaves every table as it was. */
  lemma ReplayAddsNothing(s: State, t: nat)
    requires Inv(s) && Ready(s, t) && Step(s, t).txns[t].phase.Done? && !Step(s, t).txns[t].phase.outcome.Created?
    requires s.txns[t].req.Ingest?
    ensures Step(s, t).tables == s.tables
    ensures s.txns[t].phase.Conflicted? ==> Step(s, t).txns[t].phase.outcome.Replayed?
  {
    assert Local(s.tables, s.txns[t]);
  }
}
