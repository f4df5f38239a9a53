/** Identifiers, rows and tables of the metering database.

    Quantities are integers counted in micro-units (the six decimal places of
    `events.quantity`); instants are integer microseconds since the UTC epoch. */
module Domain {

  /** Micro-units in one whole unit; `limit_per_window` counts whole units. */
  const MICRO := 1_000_000

  /** Largest quantity `EventCreateRequest` lets through: 10^12 units. */
  const MAX_QUANTITY: int := 1_000_000_000_000 * MICRO

  datatype Option<+T> = None | Some(value: T)

  /** Primary key of `quotas`. */
  datatype QuotaKey = QuotaKey(tenant: nat, customer: string, metric: string)

  /** Primary key of `usage_rollup`. */
  datatype BucketKey = BucketKey(quota: QuotaKey, window: int)

  /** The unique constraint of `events`: idempotency keys belong to one tenant. */
  datatype IdemKey = IdemKey(tenant: nat, token: string)

  /** A row of `events`. */
  datatype Event = Event(id: nat, quota: QuotaKey, quantity: int, idem: string, window: int) {
    function Idem(): IdemKey {
      IdemKey(quota.tenant, idem)
    }

    function Bucket(): BucketKey {
      BucketKey(quota, window)
    }
  }

  /** A row of `usage_rollup`. */
  datatype Counter = Counter(total: int, count: nat)

  /** Committed contents of the three tables. `events` is in commit order. */
  datatype Tables = Tables(events: seq<Event>, rollup: map<BucketKey, Counter>, quotas: map<QuotaKey, int>)

  /** `SELECT ... FROM events WHERE api_key_id = ? AND idempotency_key = ?`. */
  function FindByIdem(events: seq<Event>, key: IdemKey): (found: Option<Event>)
    ensures found.Some? ==> found.value in events && found.value.Idem() == key
    ensures found.None? ==> forall e :: e in events ==> e.Idem() != key
  {
    if |events| == 0 then None
    else if events[0].Idem() == key then Some(events[0])
    else FindByIdem(events[1..], key)
  }

  /** Window total as the quota check reads it: zero when there is no row. */
  function Total(rollup: map<BucketKey, Counter>, b: BucketKey): int {
    if b in rollup then rollup[b].total else 0
  }

  /** The row `INSERT ... ON CONFLICT DO UPDATE` leaves for bucket `b`. */
  function Bump(rollup: map<BucketKey, Counter>, b: BucketKey, quantity: int): Counter {
    if b in rollup then Counter(rollup[b].total + quantity, rollup[b].count + 1) else Counter(quantity, 1)
  }

  /** The unique constraint `uq_events_api_key_idempotency_key`. */
  ghost predicate DistinctIdem(events: seq<Event>) {
    forall i, j :: 0 <= i < j < |events| ==>
      events[i].quota.tenant != events[j].quota.tenant || events[i].idem != events[j].idem
  }
}
