/** The request handlers: one transaction each, statement after statement. */
module Services {
  import opened Domain
  import opened Protocol
  import opened Serialization
  import opened Database

  function HttpStatus(o: Outcome): int {
    match o
    case Created(_) => 201
    case Replayed(_) => 200
    case Rejected(_) => 429
    case RaceError => 500
    case QuotaCreated => 201
    case QuotaReplaced => 200
    case QuotaRemoved => 204
    case QuotaAbsent => 404
    case Aborted => 500
  }

  /** The request of `t` will not have to wait: what the statements on its way to
      its answer ask for is not held by another transaction. */
  ghost predicate Unobstructed(s: State, t: nat)
    requires Fit(s) && t < |s.txns| && s.txns[t].req.Ingest?
  {
    var x := s.txns[t];
    var answer := Atomic(s.tables, x).1;
    forall o :: 0 <= o < |s.txns| && o != t ==>
      && !s.txns[o].HoldsIdem(x.Row().Idem())
      && (!answer.Replayed? && x.req.key in s.tables.quotas ==> !s.txns[o].HoldsQuota(x.req.key))
      && (answer.Created? ==> !s.txns[o].HoldsBucket(x.Row().Bucket()))
  }

  /** `s` with transaction `t` in phase `p`. */
  function At(s: State, t: nat, p: Phase): State
    requires t < |s.txns|
  {
    s.(txns := s.txns[t := s.txns[t].(phase := p)])
  }

  lemma NextIsReady(s: State, t: nat, p: Phase)
    requires Fit(s) && t < |s.txns| && s.txns[t].req.Ingest? && Unobstructed(s, t)
    requires var answer := Atomic(s.tables, s.txns[t]).1;
             || p.Begun? || p.Conflicted? || (p.Claimed? && !answer.Replayed?)
             || (p.Unlimited? && answer.Created?)
             || (p.Checked? && (s.txns[t].(phase := p).OverLimit() || answer.Created?))
    ensures Fit(At(s, t, p)) && Ready(At(s, t, p), t)
  {
    var s', x := At(s, t, p), s.txns[t].(phase := p);
    forall o | 0 <= o < |s'.txns| && o != t ensures !Blocks(s'.tables, x, s'.txns[o]) {
      assert s'.txns[o] == s.txns[o];
    }
  }

  /** `s` after `t` has counted and committed. */
  function Recorded(s: State, t: nat): State
    requires t < |s.txns| && s.txns[t].req.Ingest?
  {
    var x := s.txns[t];
    var b, done := x.Row().Bucket(), x.(phase := Done(Created(x.Row())));
    State(s.tables.(events := s.tables.events + [x.Row()],
                    rollup := s.tables.rollup[b := Bump(s.tables.rollup, b, x.req.quantity)]),
          s.txns[t := done], s.log + [done])
  }

  predicate Admitted(x: Txn) {
    x.req.Ingest? && (x.phase.Unlimited? || (x.phase.Checked? && !x.OverLimit()))
  }

  lemma RecordedInTwoSteps(s: State, t: nat)
    requires Fit(s) && Ready(s, t) && Admitted(s.txns[t])
    ensures Fit(Step(s, t)) && Ready(Step(s, t), t) && Step(s, t).txns[t].phase.Counted?
    ensures Step(Step(s, t), t) == Recorded(s, t)
  {
  }

  /** The end of an admitted ingest: count it, then commit. */
  method RecordUsage(db: Db, t: nat)
    requires db.Valid() && Ready(db.View(), t) && Admitted(db.txns[t])
    modifies db
    ensures db.Valid() && db.View() == Recorded(old(db.View()), t)
  {
    RecordedInTwoSteps(db.View(), t);
    db.IncrementUsageRollup(t);
    db.Commit(t);
  }

  /** `t`, in state `s`, was answered by the atomic ingest. */
  ghost predicate AnsweredAtomically(s: State, s': State, t: nat, outcome: Outcome)
    requires t < |s.txns|
  {
    var done := s.txns[t].(phase := Done(outcome));
    && (s'.tables, outcome) == Atomic(s.tables, s.txns[t])
    && s'.txns == s.txns[t := done] && s'.log == s.log + [done]
  }

  /** The phase after the quota statements. */
  function Looked(s: State, x: Txn): Phase
    requires x.req.Ingest?
  {
    if x.req.key in s.tables.quotas
    then Checked(s.tables.quotas[x.req.key], Total(s.tables.rollup, x.Row().Bucket()))
    else Unlimited
  }

  lemma VerdictIsAtomic(s: State, t: nat)
    requires Fit(s) && t < |s.txns| && s.txns[t].req.Ingest?
    requires FindByIdem(s.tables.events, s.txns[t].Row().Idem()).None?
    ensures var x := s.txns[t];
            var e := At(s, t, Looked(s, x));
            && e.txns[t].Fits()
            && (if e.txns[t].OverLimit() then AnsweredAtomically(s, Step(e, t), t, Rejected(x.Hint()))
                else Admitted(e.txns[t]) && AnsweredAtomically(s, Recorded(e, t), t, Created(x.Row())))
  {
  }

  /** The handler once its key is claimed: check the quota, then reject or record.
      `s` is the state in which the request began. */
  method AdmitOrReject(db: Db, t: nat, ghost s: State) returns (outcome: Outcome)
    requires db.Valid() && Fit(s) && t < |s.txns| && s.txns[t].req.Ingest? && Unobstructed(s, t)
    requires db.View() == At(s, t, Claimed) && FindByIdem(s.tables.events, s.txns[t].Row().Idem()).None?
    modifies db
    ensures db.Valid() && AnsweredAtomically(s, db.View(), t, outcome)
  {
    NextIsReady(s, t, Claimed);
    var quota := db.ReadTenantQuotaStateLocked(t);
    assert db.View() == At(s, t, Looked(s, s.txns[t]));
    VerdictIsAtomic(s, t);
    NextIsReady(s, t, Looked(s, s.txns[t]));
    var row := db.txns[t].Row();
    if quota.Some? && quota.value.currentTotal + row.quantity > quota.value.limitPerWindow * MICRO {
      db.RollbackRejected(t);
      return db.txns[t].phase.outcome;
    }
    RecordUsage(db, t);
    outcome := Created(row);
  }

  /** `POST /v1/events` while nothing it needs is held by others: the statement
      sequence of the handler is the atomic ingest. */
  method CreateEvent(db: Db, t: nat) returns (status: int, outcome: Outcome)
    requires db.Valid() && t < |db.txns| && db.txns[t].phase.Begun? && db.txns[t].req.Ingest?
    requires Unobstructed(db.View(), t)
    modifies db
    ensures db.Valid() && AnsweredAtomically(old(db.View()), db.View(), t, outcome)
    ensures status == if outcome.Created? then 201 else if outcome.Replayed? then 200 else 429
  {
    ghost var before := db.View();
    assert before == At(before, t, Begun);
    NextIsReady(before, t, Begun);
    var inserted := db.InsertEventIfNew(t);
    if inserted.Some? {
      outcome := AdmitOrReject(db, t, before);
    } else {
      NextIsReady(before, t, Conflicted);
      var original := db.FindEventByIdempotencyKey(t);
      outcome := Replayed(original.value);
    }
    status := HttpStatus(outcome);
  }

  /** `PUT /v1/quotas`. */
  method UpsertTenantQuota(db: Db, t: nat) returns (status: int)
    requires db.Valid() && t < |db.txns| && db.txns[t].phase.Begun? && db.txns[t].req.PutQuota?
    requires Ready(db.View(), t)
    modifies db
    ensures db.Valid() && |db.txns| == |old(db.txns)| && db.txns[t].phase.Done?
    ensures (db.View().tables, db.txns[t].phase.outcome) == Atomic(old(db.View().tables), old(db.txns[t]))
    ensures status == HttpStatus(db.txns[t].phase.outcome)
    ensures status == if old(db.txns[t].req.key) in old(db.quotas) then 200 else 201
  {
    var inserted := db.UpsertQuota(t);
    db.Commit(t);
    status := if inserted then 201 else 200;
  }

  /** `DELETE /v1/quotas`. */
  method DeleteTenantQuota(db: Db, t: nat) returns (status: int)
    requires db.Valid() && t < |db.txns| && db.txns[t].phase.Begun? && db.txns[t].req.DeleteQuota?
    requires Ready(db.View(), t)
    modifies db
    ensures db.Valid() && |db.txns| == |old(db.txns)| && db.txns[t].phase.Done?
    ensures (db.View().tables, db.txns[t].phase.outcome) == Atomic(old(db.View().tables), old(db.txns[t]))
    ensures status == HttpStatus(db.txns[t].phase.outcome)
    ensures status == if old(db.txns[t].req.key) in old(db.quotas) then 204 else 404
  {
    var removed := db.RemoveQuota(t);
    if !removed {
      assert old(db.View().tables.quotas) - {old(db.txns[t].req.key)} == old(db.quotas);
      return 404;
    }
    db.Commit(t);
    status := 204;
  }
}
