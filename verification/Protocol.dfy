/** The ingest and quota protocol as an interleaving of database transactions.

    Every transaction advances one SQL statement at a time. A statement sees the
    tables committed so far (READ COMMITTED) plus what its own transaction holds
    back in `phase`; nothing reaches `Tables` before commit. A statement that
    would wait for a lock is simply not enabled. */
module Protocol {
  import opened Domain
  import TimeWindows

  /** A validated request. `receivedAt` is the server clock at receipt. */
  datatype Request =
    | Ingest(key: QuotaKey, quantity: int, idem: string, receivedAt: int)
    | PutQuota(key: QuotaKey, limit: int)
    | DeleteQuota(key: QuotaKey)

  /** How a request ended: the HTTP answer, or `Aborted` for a transaction lost
      to a connection drop or a crash. */
  datatype Outcome =
    | Created(event: Event)          // 201
    | Replayed(original: Event)      // 200
    | Rejected(retryAfter: int)      // 429 quota_exceeded
    | RaceError                      // IdempotencyRaceError
    | QuotaCreated                   // 201
    | QuotaReplaced                  // 200
    | QuotaRemoved                   // 204
    | QuotaAbsent                    // 404
    | Aborted

  datatype QuotaWrite = Upsert(limit: int, inserted: bool) | Remove

  /** Where a transaction stands between two statements, with its uncommitted writes. */
  datatype Phase =
    | Begun
    | Claimed                                            // event row inserted, key held
    | Conflicted                                         // ON CONFLICT DO NOTHING returned no row
    | Locked(limit: int)                                 // quota row held FOR UPDATE
    | Checked(limit: int, total: int)                    // rollup total read under that lock
    | Unlimited                                          // no quota row found, no lock taken
    | Counted(under: Option<int>, counter: Counter)      // rollup row upserted and held
    | QuotaWritten(write: QuotaWrite)                    // quota row written and held
    | Done(outcome: Outcome)

  /** `id` is the identity value the event INSERT draws; a sequence may leave
      gaps, so it is fixed up front and only has to be unused. */
  datatype Txn = Txn(id: nat, req: Request, phase: Phase) {
    function Row(): Event
      requires req.Ingest?
    {
      Event(id, req.key, req.quantity, req.idem, TimeWindows.FloorToHour(req.receivedAt))
    }

    function Hint(): int
      requires req.Ingest?
    {
      TimeWindows.SecondsUntilNextHour(req.receivedAt, TimeWindows.FloorToHour(req.receivedAt))
    }

    predicate Fits() {
      match phase
      case Begun => true
      case Done(o) => o.Aborted? || (o.Created? || o.Replayed? || o.Rejected? || o.RaceError? <==> req.Ingest?)
      case QuotaWritten(w) => if w.Upsert? then req.PutQuota? && req.limit == w.limit else req.DeleteQuota?
      case _ => req.Ingest?
    }

    /** Holds the not yet committed unique-index entry of `(tenant, idempotency_key)`. */
    predicate HoldsIdem(k: IdemKey)
      requires Fits()
    {
      && req.Ingest? && Row().Idem() == k
      && (phase.Claimed? || phase.Locked? || phase.Checked? || phase.Unlimited? || phase.Counted?)
    }

    /** Holds the quota row, or the unique-index entry of a row being created. */
    predicate HoldsQuota(k: QuotaKey) {
      && req.key == k
      && (phase.Locked? || phase.Checked? || phase.QuotaWritten? || (phase.Counted? && phase.under.Some?))
    }

    predicate HoldsBucket(b: BucketKey)
      requires Fits()
    {
      phase.Counted? && Row().Bucket() == b
    }

    /** In flight past the quota statement without holding the quota row. */
    predicate Unlocked() {
      phase.Unlimited? || (phase.Counted? && phase.under.None?)
    }

    predicate OverLimit() {
      phase.Checked? && req.Ingest? && phase.total + req.quantity > phase.limit * MICRO
    }
  }

  datatype State = State(tables: Tables, txns: seq<Txn>, log: seq<Txn>)

  /** `Advance` runs the next statement of a transaction; `Abort` loses it. */
  datatype Action = Advance(t: nat) | Abort(t: nat)

  /** The next statement of `x` has to wait for `o` to finish. */
  predicate Blocks(tables: Tables, x: Txn, o: Txn)
    requires x.Fits() && o.Fits()
  {
    match x.phase
    case Begun => (
      match x.req
      case Ingest(_, _, _, _) => o.HoldsIdem(x.Row().Idem())
      case PutQuota(k, _) => o.HoldsQuota(k)
      case DeleteQuota(k) => k in tables.quotas && o.HoldsQuota(k))
    case Claimed => x.req.key in tables.quotas && o.HoldsQuota(x.req.key)
    case Checked(_, _) => !x.OverLimit() && o.HoldsBucket(x.Row().Bucket())
    case Unlimited => o.HoldsBucket(x.Row().Bucket())
    case _ => false
  }

  /** Executes the next statement of `x`: the committed tables and the phase after it. */
  function Exec(tables: Tables, x: Txn): (Tables, Phase)
    requires x.Fits() && !x.phase.Done?
  {
    match x.phase
    case Begun => (
      match x.req
      case Ingest(_, _, _, _) =>
        (tables, if FindByIdem(tables.events, x.Row().Idem()).Some? then Conflicted else Claimed)
      case PutQuota(k, limit) => (tables, QuotaWritten(Upsert(limit, k !in tables.quotas)))
      case DeleteQuota(k) => (tables, if k in tables.quotas then QuotaWritten(Remove) else Done(QuotaAbsent)))
    case Conflicted =>
      var original := FindByIdem(tables.events, x.Row().Idem());
      (tables, Done(if original.Some? then Replayed(original.value) else RaceError))
    case Claimed =>
      (tables, if x.req.key in tables.quotas then Locked(tables.quotas[x.req.key]) else Unlimited)
    case Locked(limit) =>
      (tables, Checked(limit, Total(tables.rollup, x.Row().Bucket())))
    case Checked(limit, _) =>
      if x.OverLimit() then (tables, Done(Rejected(x.Hint())))
      else (tables, Counted(Some(limit), Bump(tables.rollup, x.Row().Bucket(), x.req.quantity)))
    case Unlimited =>
      (tables, Counted(None, Bump(tables.rollup, x.Row().Bucket(), x.req.quantity)))
    case Counted(_, counter) =>
      var row := x.Row();
      (tables.(events := tables.events + [row], rollup := tables.rollup[row.Bucket() := counter]), Done(Created(row)))
    case QuotaWritten(Upsert(limit, inserted)) =>
      (tables.(quotas := tables.quotas[x.req.key := limit]), Done(if inserted then QuotaCreated else QuotaReplaced))
    case QuotaWritten(Remove) =>
      (tables.(quotas := tables.quotas - {x.req.key}), Done(QuotaRemoved))
  }

  ghost predicate Fit(s: State) {
    forall i :: 0 <= i < |s.txns| ==> s.txns[i].Fits()
  }

  /** Transaction `t` is live and its next statement does not wait. */
  ghost predicate Ready(s: State, t: nat)
    requires Fit(s)
  {
    && t < |s.txns| && !s.txns[t].phase.Done?
    && forall o :: 0 <= o < |s.txns| && o != t ==> !Blocks(s.tables, s.txns[t], s.txns[o])
  }

  ghost predicate Enabled(s: State, a: Action)
    requires Fit(s)
  {
    match a
    case Advance(t) => Ready(s, t)
    case Abort(t) => t < |s.txns| && !s.txns[t].phase.Done?
  }

  function Step(s: State, t: nat): (r: State)
    requires t < |s.txns| && s.txns[t].Fits() && !s.txns[t].phase.Done?
  {
    var (tables, phase) := Exec(s.tables, s.txns[t]);
    var x := s.txns[t].(phase := phase);
    State(tables, s.txns[t := x], if phase.Done? then s.log + [x] else s.log)
  }

  ghost function Apply(s: State, a: Action): State
    requires Fit(s) && Enabled(s, a)
  {
    match a
    case Advance(t) => Step(s, t)
    case Abort(t) => s.(txns := s.txns[t := s.txns[t].(phase := Done(Aborted))])
  }

  lemma ApplyFits(s: State, a: Action)
    requires Fit(s) && Enabled(s, a)
    ensures Fit(Apply(s, a))
  {
  }

  /** `schedule` is an interleaving the database can take from `s`. */
  ghost predicate Valid(s: State, schedule: seq<Action>)
    requires Fit(s)
    decreases |schedule|
  {
    |schedule| == 0 ||
    (Enabled(s, schedule[0]) && (ApplyFits(s, schedule[0]); Valid(Apply(s, schedule[0]), schedule[1..])))
  }

  ghost function Run(s: State, schedule: seq<Action>): (r: State)
    requires Fit(s) && Valid(s, schedule)
    ensures Fit(r)
    decreases |schedule|
  {
    if |schedule| == 0 then s
    else ApplyFits(s, schedule[0]); Run(Apply(s, schedule[0]), schedule[1..])
  }

  /** A step in front of a run. */
  lemma RunsAs(s: State, s': State, rest: seq<Action>, t: nat)
    requires Fit(s) && Ready(s, t) && s' == Step(s, t) && Fit(s') && Valid(s', rest)
    ensures Valid(s, [Advance(t)] + rest) && Run(s, [Advance(t)] + rest) == Run(s', rest)
  {
    assert ([Advance(t)] + rest)[1..] == rest;
  }

  /** Every request received, none started: the start of a run. */
  ghost predicate Initial(s: State) {
    && (forall i :: 0 <= i < |s.txns| ==> s.txns[i].phase == Begun)
    && s.log == []
  }

  ghost predicate Final(s: State) {
    forall i :: 0 <= i < |s.txns| ==> s.txns[i].phase.Done?
  }

  /** Every ingest asks for a quantity the request schema lets through. */
  ghost predicate ValidRequests(s: State) {
    forall i :: 0 <= i < |s.txns| && s.txns[i].req.Ingest? ==>
      0 < s.txns[i].req.quantity <= 1_000_000_000_000_000_000
  }

  /** `t` is about to commit the creation of a quota row. */
  predicate CommitsCreation(x: Txn) {
    x.phase.QuotaWritten? && x.phase.write.Upsert? && x.phase.write.inserted
  }

  /** The hazard: a quota row created while an ingest on its key is in flight
      that found no row and therefore holds no lock. */
  ghost predicate CreatesUnderIngest(s: State, a: Action, k: QuotaKey) {
    && a.Advance? && a.t < |s.txns|
    && CommitsCreation(s.txns[a.t]) && s.txns[a.t].req.key == k
    && exists o :: 0 <= o < |s.txns| && s.txns[o].Unlocked() && s.txns[o].req.key == k
  }

  /** No step of the schedule creates the quota row of `k` under an unlocked ingest. */
  ghost predicate Calm(s: State, schedule: seq<Action>, k: QuotaKey)
    requires Fit(s) && Valid(s, schedule)
    decreases |schedule|
  {
    |schedule| == 0 ||
    (!CreatesUnderIngest(s, schedule[0], k) &&
     (ApplyFits(s, schedule[0]); Calm(Apply(s, schedule[0]), schedule[1..], k)))
  }
}
