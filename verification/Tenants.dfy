/** Tenant non-interference: purging every other tenant changes nothing a tenant sees. */
module Tenants {
  import opened Domain
  import opened Protocol

  function OwnEvents(events: seq<Event>, a: nat): seq<Event> {
    if |events| == 0 then []
    else if events[0].quota.tenant == a then [events[0]] + OwnEvents(events[1..], a)
    else OwnEvents(events[1..], a)
  }

  function OwnTxns(txns: seq<Txn>, a: nat): seq<Txn> {
    if |txns| == 0 then []
    else OwnTxns(txns[..|txns| - 1], a)
         + (if txns[|txns| - 1].req.key.tenant == a then [txns[|txns| - 1]] else [])
  }

  /** The rows the row-level-security policies let tenant `a` see. */
  function Slice(tables: Tables, a: nat): Tables {
    Tables(OwnEvents(tables.events, a),
           map b | b in tables.rollup && b.quota.tenant == a :: tables.rollup[b],
           map k | k in tables.quotas && k.tenant == a :: tables.quotas[k])
  }

  /** `p` is `s` as it would be had only tenant `a` ever called. */
  ghost predicate Purged(s: State, p: State, a: nat) {
    && p.tables == Slice(s.tables, a)
    && p.log == OwnTxns(s.log, a)
    && |p.txns| == |s.txns|
    && forall i :: 0 <= i < |s.txns| ==>
         && p.txns[i].req == s.txns[i].req && p.txns[i].id == s.txns[i].id
         && (s.txns[i].req.key.tenant == a ==> p.txns[i] == s.txns[i])
         && (s.txns[i].req.key.tenant != a ==> p.txns[i].phase == Begun)
  }

  lemma {:induction false} OwnEventsAppend(events: seq<Event>, e: Event, a: nat)
    ensures OwnEvents(events + [e], a) == OwnEvents(events, a) + (if e.quota.tenant == a then [e] else [])
  {
    if |events| == 0 {
      assert events + [e] == [e];
    } else {
      assert (events + [e])[1..] == events[1..] + [e];
      OwnEventsAppend(events[1..], e, a);
    }
  }

  lemma {:induction false} FindInSlice(events: seq<Event>, k: IdemKey)
    ensures FindByIdem(OwnEvents(events, k.tenant), k) == FindByIdem(events, k)
  {
    if |events| > 0 {
      FindInSlice(events[1..], k);
      if events[0].quota.tenant == k.tenant {
        assert OwnEvents(events, k.tenant)[1..] == OwnEvents(events[1..], k.tenant);
      }
    }
  }

  lemma OwnTxnsAppend(log: seq<Txn>, x: Txn, a: nat)
    ensures OwnTxns(log + [x], a) == OwnTxns(log, a) + (if x.req.key.tenant == a then [x] else [])
  {
    assert (log + [x])[..|log|] == log;
  }

  /** A statement of tenant `a` reads and writes only the slice of `a`. */
  lemma ExecInSlice(tables: Tables, x: Txn)
    requires x.Fits() && !x.phase.Done?
    ensures var a := x.req.key.tenant;
            Exec(Slice(tables, a), x) == (Slice(Exec(tables, x).0, a), Exec(tables, x).1)
  {
    var a := x.req.key.tenant;
    match x.phase
    case Counted(_, counter) =>
      OwnEventsAppend(tables.events, x.Row(), a);
      assert Slice(tables, a).rollup[x.Row().Bucket() := counter] == Slice(Exec(tables, x).0, a).rollup;
    case QuotaWritten(w) =>
      assert Exec(Slice(tables, a), x).0.quotas == Slice(Exec(tables, x).0, a).quotas;
    case Begun =>
      if x.req.Ingest? {
        FindInSlice(tables.events, x.Row().Idem());
      }
    case Conflicted =>
      FindInSlice(tables.events, x.Row().Idem());
    case _ =>
  }

  /** A statement of another tenant leaves the slice of `a` as it was. */
  lemma OthersLeaveSlice(tables: Tables, x: Txn, a: nat)
    requires x.Fits() && !x.phase.Done? && x.req.key.tenant != a
    ensures Slice(Exec(tables, x).0, a) == Slice(tables, a)
  {
    if x.phase.Counted? {
      OwnEventsAppend(tables.events, x.Row(), a);
    }
    assert Slice(Exec(tables, x).0, a).rollup == Slice(tables, a).rollup;
    assert Slice(Exec(tables, x).0, a).quotas == Slice(tables, a).quotas;
  }

  /** Nobody waits for another tenant. */
  lemma BlocksStayInside(tables: Tables, x: Txn, o: Txn)
    requires x.Fits() && o.Fits()
    ensures Blocks(tables, x, o) ==> x.req.key.tenant == o.req.key.tenant
    ensures Blocks(Slice(tables, x.req.key.tenant), x, o) == Blocks(tables, x, o)
  {
  }

  /** The tenant's own statement is enabled in the purged state, too. */
  lemma OwnActionEnabled(s: State, p: State, a: nat, act: Action)
    requires Fit(s) && Fit(p) && Purged(s, p, a) && Enabled(s, act) && s.txns[act.t].req.key.tenant == a
    ensures Enabled(p, act)
  {
    if act.Advance? {
      var x := s.txns[act.t];
      forall o | 0 <= o < |p.txns| && o != act.t
        ensures !Blocks(p.tables, p.txns[act.t], p.txns[o])
      {
        BlocksStayInside(s.tables, x, p.txns[o]);
      }
    }
  }

  lemma OwnStepMatches(s: State, p: State, a: nat, t: nat)
    requires Fit(s) && Fit(p) && Purged(s, p, a) && t < |s.txns| && !s.txns[t].phase.Done?
    requires s.txns[t].req.key.tenant == a
    ensures var s', p' := Step(s, t), Step(p, t);
            && p'.txns[t] == s'.txns[t] && p'.tables == Slice(s'.tables, a) && p'.log == OwnTxns(s'.log, a)
  {
    ExecInSlice(s.tables, s.txns[t]);
    OwnTxnsAppend(s.log, Step(s, t).txns[t], a);
  }

  lemma OwnActionMatches(s: State, p: State, a: nat, act: Action)
    requires Fit(s) && Fit(p) && Purged(s, p, a) && Enabled(s, act)
    requires s.txns[act.t].req.key.tenant == a
    ensures Enabled(p, act) && Purged(Apply(s, act), Apply(p, act), a)
  {
    OwnActionEnabled(s, p, a, act);
    var s', p' := Apply(s, act), Apply(p, act);
    if act.Advance? {
      OwnStepMatches(s, p, a, act.t);
    }
    assert s'.txns[act.t].req == s.txns[act.t].req && s'.txns[act.t].id == s.txns[act.t].id;
    assert s'.txns == s.txns[act.t := s'.txns[act.t]] && p'.txns == p.txns[act.t := s'.txns[act.t]];
  }

  lemma OtherActionVanishes(s: State, p: State, a: nat, act: Action)
    requires Fit(s) && Purged(s, p, a) && Enabled(s, act)
    requires s.txns[act.t].req.key.tenant != a
    ensures Purged(Apply(s, act), p, a)
  {
    if act.Advance? {
      OthersLeaveSlice(s.tables, s.txns[act.t], a);
      OwnTxnsAppend(s.log, Step(s, act.t).txns[act.t], a);
      assert OwnTxns(s.log, a) + [] == OwnTxns(s.log, a);
    }
  }

  /** The schedule with every action of the other tenants removed. */
  ghost function Purge(s: State, schedule: seq<Action>, a: nat): seq<Action> {
    if |schedule| == 0 then []
    else if schedule[0].t < |s.txns| && s.txns[schedule[0].t].req.key.tenant == a then
      [schedule[0]] + Purge(s, schedule[1..], a)
    else Purge(s, schedule[1..], a)
  }

  lemma {:induction false} PurgeIgnoresPhases(s: State, s': State, schedule: seq<Action>, a: nat)
    requires |s.txns| == |s'.txns| && forall i :: 0 <= i < |s.txns| ==> s.txns[i].req == s'.txns[i].req
    ensures Purge(s, schedule, a) == Purge(s', schedule, a)
  {
    if |schedule| > 0 {
      PurgeIgnoresPhases(s, s', schedule[1..], a);
    }
  }

  lemma {:induction false} PurgeFrom(s: State, p: State, schedule: seq<Action>, a: nat)
    requires Fit(s) && Fit(p) && Purged(s, p, a) && Valid(s, schedule)
    ensures Valid(p, Purge(s, schedule, a))
    ensures Purged(Run(s, schedule), Run(p, Purge(s, schedule, a)), a)
    decreases |schedule|
  {
    if |schedule| > 0 {
      var act := schedule[0];
      var s' := Apply(s, act);
      ApplyFits(s, act);
      PurgeIgnoresPhases(s, s', schedule[1..], a);
      if s.txns[act.t].req.key.tenant == a {
        OwnActionMatches(s, p, a, act);
        ApplyFits(p, act);
        PurgeFrom(s', Apply(p, act), schedule[1..], a);
        assert Purge(s, schedule, a)[1..] == Purge(s', schedule[1..], a);
      } else {
        OtherActionVanishes(s, p, a, act);
        PurgeFrom(s', p, schedule[1..], a);
      }
    }
  }

  /** Non-interference: delete every action of every other tenant from a run, and
      start from the tenant's own rows alone. What is left is still a run, and it
      gives the tenant the same rows, the same answers and the same event ids. */
  lemma NonInterference(s: State, schedule: seq<Action>, a: nat)
    requires Initial(s) && Valid(s, schedule)
    ensures var alone := State(Slice(s.tables, a), s.txns, []);
            var mine := Purge(s, schedule, a);
            && Valid(alone, mine)
            && Run(alone, mine).tables == Slice(Run(s, schedule).tables, a)
            && Run(alone, mine).log == OwnTxns(Run(s, schedule).log, a)
  {
    PurgeFrom(s, State(Slice(s.tables, a), s.txns, []), schedule, a);
  }
}
