/** What every step of the protocol keeps, proved one pair of transactions at a time. */
module Invariants {
  import opened Domain
  import opened Protocol

  /** No unique key, quota row or rollup row has two holders. */
  predicate Compatible(x: Txn, y: Txn)
    requires x.Fits() && y.Fits()
  {
    && (x.req.Ingest? && y.req.Ingest? && x.HoldsIdem(x.Row().Idem()) ==> !y.HoldsIdem(x.Row().Idem()))
    && (x.HoldsQuota(x.req.key) ==> !y.HoldsQuota(x.req.key))
    && (x.phase.Counted? ==> !y.HoldsBucket(x.Row().Bucket()))
  }

  /** What a transaction has read or written is still true of the committed tables. */
  predicate Local(tables: Tables, x: Txn)
    requires x.Fits()
  {
    && (x.req.Ingest? && x.HoldsIdem(x.Row().Idem()) ==> FindByIdem(tables.events, x.Row().Idem()).None?)
    && match x.phase
       case Conflicted => FindByIdem(tables.events, x.Row().Idem()).Some?
       case Locked(l) => x.req.key in tables.quotas && tables.quotas[x.req.key] == l
       case Checked(l, _) => x.req.key in tables.quotas && tables.quotas[x.req.key] == l
       case Counted(under, c) =>
         && (under.Some? ==> x.req.key in tables.quotas && tables.quotas[x.req.key] == under.value)
         && c == Bump(tables.rollup, x.Row().Bucket(), x.req.quantity)
       case QuotaWritten(Upsert(_, inserted)) => inserted <==> x.req.key !in tables.quotas
       case QuotaWritten(Remove) => x.req.key in tables.quotas
       case Done(o) => !o.RaceError?
       case _ => true
  }

  ghost predicate Inv(s: State) {
    && Fit(s)
    && (forall i :: 0 <= i < |s.txns| ==> Local(s.tables, s.txns[i]))
    && (forall i, j :: 0 <= i < |s.txns| && 0 <= j < |s.txns| && i != j ==> Compatible(s.txns[i], s.txns[j]))
    && DistinctIdem(s.tables.events)
  }

  ghost predicate StartTables(tables: Tables) {
    DistinctIdem(tables.events)
  }

  lemma InitialInv(s: State)
    requires Initial(s) && StartTables(s.tables)
    ensures Inv(s)
  {
  }

  /** Appending a row whose key is new does not disturb other lookups. */
  lemma {:induction false} FindAfterAppend(events: seq<Event>, e: Event, k: IdemKey)
    ensures FindByIdem(events + [e], k) ==
            if FindByIdem(events, k).Some? then FindByIdem(events, k)
            else if e.Idem() == k then Some(e) else None
  {
    if |events| == 0 {
      assert events + [e] == [e];
    } else {
      assert (events + [e])[1..] == events[1..] + [e];
      FindAfterAppend(events[1..], e, k);
    }
  }

  /** With unique keys the lookup finds the row it is asked for. */
  lemma {:induction false} FindIsThe(events: seq<Event>, e: Event)
    requires DistinctIdem(events) && e in events
    ensures FindByIdem(events, e.Idem()) == Some(e)
  {
    var i :| 0 <= i < |events| && events[i] == e;
    var f := FindByIdem(events, e.Idem()).value;
    var j :| 0 <= j < |events| && events[j] == f;
    assert i == j;
  }

  lemma OwnStep(tables: Tables, x: Txn)
    requires x.Fits() && !x.phase.Done? && Local(tables, x)
    ensures var (tables', phase') := Exec(tables, x);
            x.(phase := phase').Fits() && Local(tables', x.(phase := phase'))
  {
  }

  /** A commit of `x` leaves what a transaction with other locks relies on. */
  lemma OtherStep(tables: Tables, x: Txn, o: Txn)
    requires x.Fits() && o.Fits() && !x.phase.Done?
    requires Local(tables, x) && Local(tables, o) && Compatible(x, o)
    ensures Local(Exec(tables, x).0, o)
  {
    if x.phase.Counted? && o.req.Ingest? {
      FindAfterAppend(tables.events, x.Row(), o.Row().Idem());
    }
  }

  /** A lock is taken only when free, so holders stay unique. */
  lemma LocksStayExclusive(tables: Tables, x: Txn, o: Txn)
    requires x.Fits() && o.Fits() && !x.phase.Done?
    requires Local(tables, x) && Local(tables, o)
    requires Compatible(x, o) && Compatible(o, x) && !Blocks(tables, x, o)
    ensures var x' := x.(phase := Exec(tables, x).1);
            x'.Fits() && Compatible(x', o) && Compatible(o, x')
  {
  }

  lemma StepKeepsInv(s: State, t: nat)
    requires Inv(s) && Ready(s, t)
    ensures Inv(Step(s, t))
  {
    var x := s.txns[t];
    var s' := Step(s, t);
    OwnStep(s.tables, x);
    forall i | 0 <= i < |s.txns| && i != t
      ensures Local(s'.tables, s'.txns[i])
      ensures Compatible(s'.txns[t], s'.txns[i]) && Compatible(s'.txns[i], s'.txns[t])
    {
      OtherStep(s.tables, x, s.txns[i]);
      LocksStayExclusive(s.tables, x, s.txns[i]);
    }
    assert DistinctIdem(s'.tables.events) by {
      if x.phase.Counted? {
        forall e | e in s.tables.events
          ensures e.quota.tenant != x.req.key.tenant || e.idem != x.req.idem
        {
          assert e.Idem() != x.Row().Idem();
        }
      }
    }
  }

  lemma ApplyKeepsInv(s: State, a: Action)
    requires Inv(s) && Enabled(s, a)
    ensures Inv(Apply(s, a))
  {
    match a
    case Advance(t) => StepKeepsInv(s, t);
    case Abort(t) =>
  }

  lemma {:induction false} RunKeepsInv(s: State, schedule: seq<Action>)
    requires Inv(s) && Valid(s, schedule)
    ensures Inv(Run(s, schedule))
    decreases |schedule|
  {
    if |schedule| > 0 {
      ApplyKeepsInv(s, schedule[0]);
      RunKeepsInv(Apply(s, schedule[0]), schedule[1..]);
    }
  }
}
