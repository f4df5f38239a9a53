/** The count and stream queries behind `GET /v1/usage/export`. */
module ExportQuery {
  import opened Domain
  import opened Ordering

  /** Tenant and the optional filters; both window bounds are inclusive. */
  datatype Filter = Filter(tenant: nat, customer: Option<string>, metric: Option<string>,
                           windowFrom: Option<int>, windowTo: Option<int>)

  predicate Matches(f: Filter, b: BucketKey) {
    && b.quota.tenant == f.tenant
    && (f.customer.Some? ==> b.quota.customer == f.customer.value)
    && (f.metric.Some? ==> b.quota.metric == f.metric.value)
    && (f.windowFrom.Some? ==> b.window >= f.windowFrom.value)
    && (f.windowTo.Some? ==> b.window <= f.windowTo.value)
  }

  datatype Value = Num(n: int) | Text(s: string)

  /** One literal fragment of the WHERE clause: column, operator, bound parameter. */
  datatype Column = ApiKeyId | CustomerId | MetricName | WindowStart
  datatype Operator = Equal | AtLeast | AtMost

  /** Bound parameters `:api_key_id`, `:customer_id`, `:metric`, `:window_from`, `:window_to`. */
  datatype Param = ApiKeyIdParam | CustomerIdParam | MetricParam | WindowFromParam | WindowToParam

  datatype Clause = Clause(column: Column, op: Operator, param: Param)

  function Cell(b: BucketKey, c: Column): Value {
    match c
    case ApiKeyId => Num(b.quota.tenant)
    case CustomerId => Text(b.quota.customer)
    case MetricName => Text(b.quota.metric)
    case WindowStart => Num(b.window)
  }

  predicate Holds(c: Clause, params: map<Param, Value>, b: BucketKey) {
    && c.param in params
    && var l, r := Cell(b, c.column), params[c.param];
       match c.op
       case Equal => l == r
       case AtLeast => l.Num? && r.Num? && l.n >= r.n
       case AtMost => l.Num? && r.Num? && l.n <= r.n
  }

  /** The fragments joined by AND. */
  predicate Where(clauses: seq<Clause>, params: map<Param, Value>, b: BucketKey) {
    forall i :: 0 <= i < |clauses| ==> Holds(clauses[i], params, b)
  }

  /** The clause and its parameters select the rows of `f`, and every parameter is bound. */
  ghost predicate Selects(clauses: seq<Clause>, params: map<Param, Value>, f: Filter) {
    && (forall b :: Where(clauses, params, b) <==> Matches(f, b))
    && (forall c :: c in clauses ==> c.param in params)
    && (forall p :: p in params ==> exists c :: c in clauses && c.param == p)
  }

  /** Appending a fragment under an unused parameter name narrows the selection by it alone. */
  lemma AppendClause(clauses: seq<Clause>, params: map<Param, Value>, f: Filter, c: Clause, v: Value, g: Filter)
    requires Selects(clauses, params, f) && c.param !in params
    requires forall b :: Matches(g, b) <==> Matches(f, b) && Holds(c, params[c.param := v], b)
    ensures Selects(clauses + [c], params[c.param := v], g)
  {
    var cs, ps := clauses + [c], params[c.param := v];
    forall b ensures Where(cs, ps, b) <==> Matches(g, b) {
      assert forall i :: 0 <= i < |clauses| ==> cs[i] == clauses[i] && clauses[i] in clauses;
      assert cs[|clauses|] == c;
      assert forall i :: 0 <= i < |clauses| ==> (Holds(cs[i], ps, b) <==> Holds(clauses[i], params, b));
      if Where(clauses, params, b) && Holds(c, ps, b) {
        assert Where(cs, ps, b);
      }
      if Where(cs, ps, b) {
        assert Where(clauses, params, b);
      }
    }
    forall p | p in ps ensures exists d :: d in cs && d.param == p {
      if p == c.param {
        assert c in cs;
      } else {
        var d :| d in clauses && d.param == p;
        assert d in cs;
      }
    }
  }

  lemma TenantClause(tenant: nat)
    ensures Selects([Clause(ApiKeyId, Equal, ApiKeyIdParam)], map[ApiKeyIdParam := Num(tenant)],
                    Filter(tenant, None, None, None, None))
  {
    var cs, ps := [Clause(ApiKeyId, Equal, ApiKeyIdParam)], map[ApiKeyIdParam := Num(tenant)];
    forall b ensures Where(cs, ps, b) <==> b.quota.tenant == tenant {
      assert Where(cs, ps, b) <==> Holds(cs[0], ps, b);
    }
    assert cs[0] in cs;
  }

  /** `g` is `f` with the one more filter that `c` expresses with value `v`. */
  predicate AddsFilter(f: Filter, g: Filter, c: Clause, v: Value) {
    match c
    case Clause(CustomerId, Equal, CustomerIdParam) => v.Text? && f.customer.None? && g == f.(customer := Some(v.s))
    case Clause(MetricName, Equal, MetricParam) => v.Text? && f.metric.None? && g == f.(metric := Some(v.s))
    case Clause(WindowStart, AtLeast, WindowFromParam) =>
      v.Num? && f.windowFrom.None? && g == f.(windowFrom := Some(v.n))
    case Clause(WindowStart, AtMost, WindowToParam) => v.Num? && f.windowTo.None? && g == f.(windowTo := Some(v.n))
    case _ => false
  }

  lemma Narrowed(clauses: seq<Clause>, params: map<Param, Value>, f: Filter, g: Filter, c: Clause, v: Value)
    requires Selects(clauses, params, f) && c.param !in params && AddsFilter(f, g, c, v)
    ensures Selects(clauses + [c], params[c.param := v], g)
  {
    forall b ensures Matches(g, b) <==> Matches(f, b) && Holds(c, params[c.param := v], b) {
    }
    AppendClause(clauses, params, f, c, v, g);
  }

  /** `_export_filter_clause_and_params`: for every combination of present filters
      the clause selects exactly the matching rows and has one fragment a filter. */
  method ExportFilterClauseAndParams(f: Filter) returns (clauses: seq<Clause>, params: map<Param, Value>)
    ensures Selects(clauses, params, f)
    ensures |clauses| == 1 + (if f.customer.Some? then 1 else 0) + (if f.metric.Some? then 1 else 0)
                           + (if f.windowFrom.Some? then 1 else 0) + (if f.windowTo.Some? then 1 else 0)
  {
    clauses := [Clause(ApiKeyId, Equal, ApiKeyIdParam)];
    params := map[ApiKeyIdParam := Num(f.tenant)];
    ghost var g := Filter(f.tenant, None, None, None, None);
    TenantClause(f.tenant);
    if f.customer.Some? {
      Narrowed(clauses, params, g, g.(customer := f.customer),
               Clause(CustomerId, Equal, CustomerIdParam), Text(f.customer.value));
      clauses := clauses + [Clause(CustomerId, Equal, CustomerIdParam)];
      params := params[CustomerIdParam := Text(f.customer.value)];
    }
    g := g.(customer := f.customer);
    if f.metric.Some? {
      Narrowed(clauses, params, g, g.(metric := f.metric),
               Clause(MetricName, Equal, MetricParam), Text(f.metric.value));
      clauses := clauses + [Clause(MetricName, Equal, MetricParam)];
      params := params[MetricParam := Text(f.metric.value)];
    }
    g := g.(metric := f.metric);
    if f.windowFrom.Some? {
      Narrowed(clauses, params, g, g.(windowFrom := f.windowFrom),
               Clause(WindowStart, AtLeast, WindowFromParam), Num(f.windowFrom.value));
      clauses := clauses + [Clause(WindowStart, AtLeast, WindowFromParam)];
      params := params[WindowFromParam := Num(f.windowFrom.value)];
    }
    g := g.(windowFrom := f.windowFrom);
    if f.windowTo.Some? {
      Narrowed(clauses, params, g, f, Clause(WindowStart, AtMost, WindowToParam), Num(f.windowTo.value));
      clauses := clauses + [Clause(WindowStart, AtMost, WindowToParam)];
      params := params[WindowToParam := Num(f.windowTo.value)];
    }
  }

  /** `SELECT count(*)`. */
  function CountUsageRollups(rollup: map<BucketKey, Counter>, f: Filter): nat {
    |set b | b in rollup && Matches(f, b)|
  }

  /** The ORDER BY columns. */
  datatype SortKey = SortKey(window: int, customer: string, metric: string)

  function KeyOf(b: BucketKey): SortKey {
    SortKey(b.window, b.quota.customer, b.quota.metric)
  }

  function BucketOf(tenant: nat, k: SortKey): BucketKey {
    BucketKey(QuotaKey(tenant, k.customer, k.metric), k.window)
  }

  /** `ORDER BY window_start, customer_id, metric` under the collation `less`. */
  predicate KeyLess(less: (string, string) -> bool, x: SortKey, y: SortKey) {
    || x.window < y.window
    || (x.window == y.window && less(x.customer, y.customer))
    || (x.window == y.window && x.customer == y.customer && less(x.metric, y.metric))
  }

  function OrderBy(less: (string, string) -> bool): (SortKey, SortKey) -> bool {
    (x, y) => KeyLess(less, x, y)
  }

  lemma OrderByIsTotal(less: (string, string) -> bool)
    requires StrictTotalOrder(less)
    ensures StrictTotalOrder(OrderBy(less))
  {
  }

  datatype ExportRow = ExportRow(customer: string, metric: string, window: int, total: int)

  ghost function MatchingKeys(rollup: map<BucketKey, Counter>, f: Filter): set<SortKey> {
    set b | b in rollup && Matches(f, b) :: KeyOf(b)
  }

  /** A possible answer of the stream query: LIMIT rows off the front of a strictly
      increasing listing of the filtered rows. */
  ghost predicate StreamAnswer(rows: seq<ExportRow>, rollup: map<BucketKey, Counter>, f: Filter,
                               limit: nat, less: (string, string) -> bool) {
    exists keys: seq<SortKey> ::
      && Increasing(keys, OrderBy(less)) && Elements(keys) == MatchingKeys(rollup, f)
      && rows == Listed(keys[..if |keys| < limit then |keys| else limit], rollup, f)
  }

  function Listed(keys: seq<SortKey>, rollup: map<BucketKey, Counter>, f: Filter): seq<ExportRow> {
    if |keys| == 0 then []
    else Listed(keys[..|keys| - 1], rollup, f) + [RowOf(keys[|keys| - 1], rollup, f)]
  }

  function RowOf(k: SortKey, rollup: map<BucketKey, Counter>, f: Filter): ExportRow {
    ExportRow(k.customer, k.metric, k.window, Total(rollup, BucketOf(f.tenant, k)))
  }

  lemma {:induction false} ListedAt(keys: seq<SortKey>, rollup: map<BucketKey, Counter>, f: Filter)
    ensures |Listed(keys, rollup, f)| == |keys|
    ensures forall i :: 0 <= i < |keys| ==> Listed(keys, rollup, f)[i] == RowOf(keys[i], rollup, f)
  {
    if |keys| > 0 {
      ListedAt(keys[..|keys| - 1], rollup, f);
    }
  }

  lemma {:induction false} SameSize<A, B>(xs: set<A>, ys: set<B>, f: A -> B)
    requires forall x, y :: x in xs && y in xs && f(x) == f(y) ==> x == y
    requires ys == set x | x in xs :: f(x)
    ensures |xs| == |ys|
  {
    if xs != {} {
      var x :| x in xs;
      assert ys - {f(x)} == set y | y in xs - {x} :: f(y);
      SameSize(xs - {x}, ys - {f(x)}, f);
    } else {
      assert ys == {};
    }
  }

  /** Count and stream see the same rows: within a tenant the sort key is the
      primary key, so the filtered rows and their keys are in bijection. */
  lemma CountIsNumberOfKeys(rollup: map<BucketKey, Counter>, f: Filter)
    ensures CountUsageRollups(rollup, f) == |MatchingKeys(rollup, f)|
  {
    var matching := set b | b in rollup && Matches(f, b);
    SameSize(matching, MatchingKeys(rollup, f), KeyOf);
  }

  lemma {:induction false} LengthOfIncreasing(keys: seq<SortKey>, order: (SortKey, SortKey) -> bool)
    requires StrictTotalOrder(order) && Increasing(keys, order)
    ensures |Elements(keys)| == |keys|
  {
    if |keys| > 0 {
      LengthOfIncreasing(keys[1..], order);
      assert keys[0] !in keys[1..];
      assert Elements(keys) == {keys[0]} + Elements(keys[1..]);
    }
  }

  /** The stream query has exactly one answer, because the primary key leaves no
      ties in the ORDER BY. */
  lemma StreamAnswerIsUnique(rollup: map<BucketKey, Counter>, f: Filter, limit: nat, less: (string, string) -> bool,
                             xs: seq<ExportRow>, ys: seq<ExportRow>)
    requires StrictTotalOrder(less)
    ensures exists rows :: StreamAnswer(rows, rollup, f, limit, less)
    ensures StreamAnswer(xs, rollup, f, limit, less) && StreamAnswer(ys, rollup, f, limit, less) ==> xs == ys
  {
    var order := OrderBy(less);
    OrderByIsTotal(less);
    SortedIsSorted(MatchingKeys(rollup, f), order);
    var keys := Sorted(MatchingKeys(rollup, f), order);
    assert StreamAnswer(Listed(keys[..if |keys| < limit then |keys| else limit], rollup, f), rollup, f, limit, less);
    if StreamAnswer(xs, rollup, f, limit, less) && StreamAnswer(ys, rollup, f, limit, less) {
      var k :| Increasing(k, order) && Elements(k) == MatchingKeys(rollup, f)
               && xs == Listed(k[..if |k| < limit then |k| else limit], rollup, f);
      var l :| Increasing(l, order) && Elements(l) == MatchingKeys(rollup, f)
               && ys == Listed(l[..if |l| < limit then |l| else limit], rollup, f);
      OrderIsUnique(k, l, order);
    }
  }

  /** Query agreement: the stream has min(count, limit) rows, in strictly increasing
      order, each the stored total of a filtered row; and when the pre-flight count
      is within the limit every filtered row is in it. */
  lemma StreamAgreesWithCount(rollup: map<BucketKey, Counter>, f: Filter, limit: nat, less: (string, string) -> bool,
                              rows: seq<ExportRow>)
    requires StrictTotalOrder(less) && StreamAnswer(rows, rollup, f, limit, less)
    ensures var n := CountUsageRollups(rollup, f);
      && |rows| == (if n < limit then n else limit)
      && (forall i, j :: 0 <= i < j < |rows| ==> Follows(less, rows[i], rows[j]))
      && (forall i :: 0 <= i < |rows| ==> IsStored(rows[i], rollup, f))
      && (n <= limit ==> forall b :: b in rollup && Matches(f, b) ==>
            exists i :: 0 <= i < |rows| && RowKey(rows[i]) == KeyOf(b))
  {
    var order := OrderBy(less);
    OrderByIsTotal(less);
    var keys :| Increasing(keys, order) && Elements(keys) == MatchingKeys(rollup, f)
                && rows == Listed(keys[..if |keys| < limit then |keys| else limit], rollup, f);
    LengthOfIncreasing(keys, order);
    CountIsNumberOfKeys(rollup, f);
    var cut := keys[..if |keys| < limit then |keys| else limit];
    ListedAt(cut, rollup, f);
    forall i | 0 <= i < |rows|
      ensures RowKey(rows[i]) == keys[i] && IsStored(rows[i], rollup, f)
    {
      assert keys[i] in Elements(keys);
      var b :| b in rollup && Matches(f, b) && KeyOf(b) == keys[i];
      assert b == BucketOf(f.tenant, keys[i]);
    }
    forall i, j | 0 <= i < j < |rows|
      ensures Follows(less, rows[i], rows[j])
    {
      assert order(keys[i], keys[j]);
    }
    if |keys| <= limit {
      forall b | b in rollup && Matches(f, b)
        ensures exists i :: 0 <= i < |rows| && RowKey(rows[i]) == KeyOf(b)
      {
        assert KeyOf(b) in Elements(keys);
        var i :| 0 <= i < |keys| && keys[i] == KeyOf(b);
        assert RowKey(rows[i]) == KeyOf(b);
      }
    }
  }

  /** `r` comes after `q`: windows never decrease, within a window customers do not,
      and within a customer metrics increase. */
  predicate Follows(less: (string, string) -> bool, q: ExportRow, r: ExportRow) {
    && q.window <= r.window
    && (q.window == r.window ==> q.customer == r.customer || less(q.customer, r.customer))
    && (q.window == r.window && q.customer == r.customer ==> less(q.metric, r.metric))
  }

  function RowKey(r: ExportRow): SortKey {
    SortKey(r.window, r.customer, r.metric)
  }

  /** `r` shows a filtered row of the table with its stored total. */
  predicate IsStored(r: ExportRow, rollup: map<BucketKey, Counter>, f: Filter) {
    var b := BucketOf(f.tenant, RowKey(r));
    b in rollup && Matches(f, b) && r.total == rollup[b].total
  }
}
