/** The tables and the SQL statements of the repositories, changed in place. */
module Database {
  import opened Domain
  import opened Protocol
  import opened Invariants
  import opened Serialization

  datatype QuotaState = QuotaState(limitPerWindow: int, currentTotal: int)

  /** PostgreSQL at READ COMMITTED: the committed tables, the open transactions
      and the identity sequence of `events`. */
  class Db {
    var events: seq<Event>
    var rollup: map<BucketKey, Counter>
    var quotas: map<QuotaKey, int>
    var txns: seq<Txn>
    var nextId: nat
    ghost var log: seq<Txn>

    ghost function View(): State
      reads this
    {
      State(Tables(events, rollup, quotas), txns, log)
    }

    ghost predicate Valid()
      reads this
    {
      && Inv(View()) && DistinctIds(View()) && LogExact(View())
      && (forall i :: 0 <= i < |txns| ==> txns[i].id < nextId)
    }

    /** An empty database. */
    constructor ()
      ensures Valid() && View() == State(Tables([], map[], map[]), [], [])
    {
      events, rollup, quotas, txns, nextId, log := [], map[], map[], [], 0, [];
    }

    /** Opens a transaction for a request. */
    method Begin(req: Request) returns (t: nat)
      requires Valid()
      modifies this
      ensures Valid() && t == old(|txns|)
      ensures View() == old(View()).(txns := old(txns) + [Txn(old(nextId), req, Begun)])
    {
      t := |txns|;
      txns := txns + [Txn(nextId, req, Begun)];
      nextId := nextId + 1;
      assert forall i :: 0 <= i < t ==> txns[i] == old(txns)[i];
    }

    /** Puts transaction `t` in `phase`; a finished transaction is logged. */
    method Enter(t: nat, phase: Phase)
      requires t < |txns|
      modifies this`txns, this`log
      ensures txns == old(txns)[t := old(txns)[t].(phase := phase)]
      ensures log == if phase.Done? then old(log) + [txns[t]] else old(log)
    {
      txns := txns[t := txns[t].(phase := phase)];
      if phase.Done? {
        log := log + [txns[t]];
      }
    }

    twostate lemma StepIsValid(t: nat)
      requires old(Valid()) && Ready(old(View()), t)
      requires View() == Step(old(View()), t) && nextId == old(nextId)
      ensures Valid()
    {
      StepKeepsInv(old(View()), t);
      ApplyKeepsLog(old(View()), Advance(t));
    }

    method InsertEventIfNew(t: nat) returns (inserted: Option<Event>)
      requires Valid() && Ready(View(), t) && txns[t].phase.Begun? && txns[t].req.Ingest?
      modifies this
      ensures Valid() && View() == Step(old(View()), t)
      ensures var row := old(txns[t].Row());
              inserted == if FindByIdem(old(events), row.Idem()).None? then Some(row) else None
    {
      var row := txns[t].Row();
      if FindByIdem(events, row.Idem()).Some? {
        Enter(t, Conflicted);
        inserted := None;
      } else {
        Enter(t, Claimed);
        inserted := Some(row);
      }
      StepIsValid(t);
    }

    method FindEventByIdempotencyKey(t: nat) returns (original: Option<Event>)
      requires Valid() && Ready(View(), t) && txns[t].phase.Conflicted?
      modifies this
      ensures Valid() && View() == Step(old(View()), t)
      ensures original.Some? && original == FindByIdem(old(events), old(txns[t].Row().Idem()))
    {
      original := FindByIdem(events, txns[t].Row().Idem());
      assert Local(View().tables, txns[t]);
      Enter(t, Done(Replayed(original.value)));
      StepIsValid(t);
    }

    /** `SELECT limit_per_window ... FOR UPDATE`: the row is held until the transaction ends. */
    method LockQuotaRow(t: nat) returns (limit: Option<int>)
      requires Valid() && Ready(View(), t) && txns[t].phase.Claimed?
      modifies this
      ensures Valid() && View() == Step(old(View()), t)
      ensures limit == if old(txns[t].req.key) in old(quotas) then Some(old(quotas[txns[t].req.key])) else None
    {
      var k := txns[t].req.key;
      if k in quotas {
        limit := Some(quotas[k]);
        Enter(t, Locked(quotas[k]));
      } else {
        limit := None;
        Enter(t, Unlimited);
      }
      StepIsValid(t);
    }

    /** `SELECT total_quantity FROM usage_rollup`: its own statement, hence a fresh snapshot. */
    method ReadWindowTotal(t: nat) returns (total: int)
      requires Valid() && Ready(View(), t) && txns[t].phase.Locked?
      modifies this
      ensures Valid() && View() == Step(old(View()), t)
      ensures total == Total(old(rollup), old(txns[t].Row().Bucket()))
    {
      total := Total(rollup, txns[t].Row().Bucket());
      Enter(t, Checked(txns[t].phase.limit, total));
      StepIsValid(t);
    }

    method IncrementUsageRollup(t: nat)
      requires Valid() && Ready(View(), t)
      requires txns[t].phase.Unlimited? || (txns[t].phase.Checked? && !txns[t].OverLimit())
      modifies this
      ensures Valid() && View() == Step(old(View()), t)
    {
      var row := txns[t].Row();
      var counter := if row.Bucket() in rollup
        then Counter(rollup[row.Bucket()].total + row.quantity, rollup[row.Bucket()].count + 1)
        else Counter(row.quantity, 1);
      Enter(t, Counted(if txns[t].phase.Checked? then Some(txns[t].phase.limit) else None, counter));
      StepIsValid(t);
    }

    /** `INSERT ... ON CONFLICT DO UPDATE ... RETURNING (xmax = 0)`. */
    method UpsertQuota(t: nat) returns (inserted: bool)
      requires Valid() && Ready(View(), t) && txns[t].phase.Begun? && txns[t].req.PutQuota?
      modifies this
      ensures Valid() && View() == Step(old(View()), t)
      ensures inserted <==> old(txns[t].req.key) !in old(quotas)
    {
      inserted := txns[t].req.key !in quotas;
      Enter(t, QuotaWritten(Upsert(txns[t].req.limit, inserted)));
      StepIsValid(t);
    }

    /** `DELETE ... RETURNING customer_id`. */
    method RemoveQuota(t: nat) returns (removed: bool)
      requires Valid() && Ready(View(), t) && txns[t].phase.Begun? && txns[t].req.DeleteQuota?
      modifies this
      ensures Valid() && View() == Step(old(View()), t)
      ensures removed <==> old(txns[t].req.key) in old(quotas)
    {
      removed := txns[t].req.key in quotas;
      Enter(t, if removed then QuotaWritten(Remove) else Done(QuotaAbsent));
      StepIsValid(t);
    }

    /** Publishes the writes of `t` and releases its locks. */
    method Commit(t: nat)
      requires Valid() && Ready(View(), t) && (txns[t].phase.Counted? || txns[t].phase.QuotaWritten?)
      modifies this
      ensures Valid() && View() == Step(old(View()), t)
    {
      var x := txns[t];
      match x.phase {
        case Counted(_, counter) =>
          events := events + [x.Row()];
          rollup := rollup[x.Row().Bucket() := counter];
          Enter(t, Done(Created(x.Row())));
        case QuotaWritten(Upsert(limit, inserted)) =>
          quotas := quotas[x.req.key := limit];
          Enter(t, Done(if inserted then QuotaCreated else QuotaReplaced));
        case QuotaWritten(Remove) =>
          quotas := quotas - {x.req.key};
          Enter(t, Done(QuotaRemoved));
      }
      StepIsValid(t);
    }

    /** `QuotaExceededError` leaves the `session.begin()` block: everything is undone. */
    method RollbackRejected(t: nat)
      requires Valid() && Ready(View(), t) && txns[t].OverLimit()
      modifies this
      ensures Valid() && View() == Step(old(View()), t)
    {
      Enter(t, Done(Rejected(txns[t].Hint())));
      StepIsValid(t);
    }

    /** A lost connection or a crash at any point. */
    method Lose(t: nat)
      requires Valid() && t < |txns| && !txns[t].phase.Done?
      modifies this
      ensures Valid() && View() == Apply(old(View()), Abort(t))
    {
      txns := txns[t := txns[t].(phase := Done(Aborted))];
      ApplyKeepsInv(old(View()), Abort(t));
      ApplyKeepsLog(old(View()), Abort(t));
    }

    /** Lock the quota row, then read the window total in a second statement. */
    method ReadTenantQuotaStateLocked(t: nat) returns (quota: Option<QuotaState>)
      requires Valid() && Ready(View(), t) && txns[t].phase.Claimed?
      modifies this
      ensures Valid() && |txns| == |old(txns)|
      ensures View() == old(View()).(txns := old(txns)[t := txns[t]])
      ensures var k, b := old(txns[t].req.key), old(txns[t].Row().Bucket());
              if k in old(quotas)
              then quota == Some(QuotaState(old(quotas)[k], Total(old(rollup), b)))
                   && txns[t] == old(txns[t]).(phase := Checked(old(quotas)[k], Total(old(rollup), b)))
              else quota == None && txns[t] == old(txns[t]).(phase := Unlimited)
    {
      var limit := LockQuotaRow(t);
      if limit.None? {
        return None;
      }
      var total := ReadWindowTotal(t);
      quota := Some(QuotaState(limit.value, total));
    }
  }
}
