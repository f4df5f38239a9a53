/** Creates and deletes of a quota row balance. */
module Conservation {
  import opened Domain
  import opened Protocol
  import opened Invariants

  /** 201 creations of the row of `k` minus 204 removals. */
  function Balance(log: seq<Txn>, k: QuotaKey): int {
    if |log| == 0 then 0
    else Balance(log[..|log| - 1], k) + Weight(log[|log| - 1], k)
  }

  function Weight(x: Txn, k: QuotaKey): int {
    if x.req.key != k || !x.phase.Done? then 0
    else match x.phase.outcome
         case QuotaCreated => 1
         case QuotaRemoved => -1
         case _ => 0
  }

  function Rows(tables: Tables, k: QuotaKey): int {
    if k in tables.quotas then 1 else 0
  }

  lemma BalanceGrows(log: seq<Txn>, x: Txn, k: QuotaKey)
    ensures Balance(log + [x], k) == Balance(log, k) + Weight(x, k)
  {
    assert (log + [x])[..|log|] == log;
  }

  /** Exactly the commits of a creation and of a removal change the number of rows. */
  lemma WeightIsChange(tables: Tables, x: Txn, k: QuotaKey)
    requires x.Fits() && !x.phase.Done? && Local(tables, x)
    ensures var (tables', phase') := Exec(tables, x);
            Rows(tables', k) - Rows(tables, k) == Weight(x.(phase := phase'), k)
  {
  }

  lemma StepBalances(s: State, a: Action, k: QuotaKey)
    requires Inv(s) && Enabled(s, a)
    ensures Balance(Apply(s, a).log, k) - Balance(s.log, k) == Rows(Apply(s, a).tables, k) - Rows(s.tables, k)
  {
    if a.Advance? {
      WeightIsChange(s.tables, s.txns[a.t], k);
      BalanceGrows(s.log, Step(s, a.t).txns[a.t], k);
    }
  }

  /** Conservation over runs, whatever the interleaving: 201s minus 204s is the
      change in the number of rows of the key. From an empty table it is 1 if
      the row exists now and 0 otherwise. */
  lemma {:induction false} CreatesMinusDeletes(s: State, schedule: seq<Action>, k: QuotaKey)
    requires Inv(s) && Valid(s, schedule)
    ensures Balance(Run(s, schedule).log, k) - Balance(s.log, k)
            == Rows(Run(s, schedule).tables, k) - Rows(s.tables, k)
    decreases |schedule|
  {
    if |schedule| > 0 {
      StepBalances(s, schedule[0], k);
      ApplyKeepsInv(s, schedule[0]);
      CreatesMinusDeletes(Apply(s, schedule[0]), schedule[1..], k);
    }
  }
}
