/** What a tenant reads depends on its own rows alone. */
module TenantReads {
  import opened Domain
  import opened Protocol
  import opened Tenants
  import opened TimeWindows
  import opened Ordering
  import opened UsageReads
  import opened ExportQuery

  /** The two tables hold the same rollup rows of tenant `a`. */
  ghost predicate SameFor(x: map<BucketKey, Counter>, y: map<BucketKey, Counter>, a: nat) {
    forall b: BucketKey :: b.quota.tenant == a ==> (b in x <==> b in y) && (b in x ==> x[b] == y[b])
  }

  lemma SliceIsSame(tables: Tables, a: nat)
    ensures SameFor(Slice(tables, a).rollup, tables.rollup, a)
  {
  }

  lemma {:induction false} SameSums(x: map<BucketKey, Counter>, y: map<BucketKey, Counter>, rows: set<BucketKey>)
    requires rows <= x.Keys && rows <= y.Keys && forall b :: b in rows ==> x[b] == y[b]
    ensures SumCounts(x, rows) == SumCounts(y, rows)
  {
    if rows != {} {
      SameSums(x, y, rows - {Pick(rows)});
    }
  }

  lemma SameDay(x: map<BucketKey, Counter>, y: map<BucketKey, Counter>, a: nat, dayStart: int, dayEnd: int,
                less: (string, string) -> bool)
    requires SameFor(x, y, a) && StrictTotalOrder(less)
    ensures AggregateDaily(x, a, dayStart, dayEnd, less) == AggregateDaily(y, a, dayStart, dayEnd, less)
  {
    var rows := DayRows(x, a, dayStart, dayEnd);
    assert rows == DayRows(y, a, dayStart, dayEnd);
    forall m ensures SumCounts(x, OfMetric(rows, m)) == SumCounts(y, OfMetric(rows, m)) {
      SameSums(x, y, OfMetric(rows, m));
    }
  }

  lemma SameCount(x: map<BucketKey, Counter>, y: map<BucketKey, Counter>, f: Filter)
    requires SameFor(x, y, f.tenant)
    ensures CountUsageRollups(x, f) == CountUsageRollups(y, f)
    ensures MatchingKeys(x, f) == MatchingKeys(y, f)
  {
    assert (set b | b in x && Matches(f, b)) == (set b | b in y && Matches(f, b));
  }

  lemma {:induction false} SameListing(x: map<BucketKey, Counter>, y: map<BucketKey, Counter>, f: Filter,
                                       keys: seq<SortKey>)
    requires SameFor(x, y, f.tenant)
    ensures Listed(keys, x, f) == Listed(keys, y, f)
  {
    if |keys| > 0 {
      SameListing(x, y, f, keys[..|keys| - 1]);
    }
  }

  lemma SameStream(x: map<BucketKey, Counter>, y: map<BucketKey, Counter>, f: Filter, limit: nat,
                   less: (string, string) -> bool, rows: seq<ExportRow>)
    requires SameFor(x, y, f.tenant) && StreamAnswer(rows, x, f, limit, less)
    ensures StreamAnswer(rows, y, f, limit, less)
  {
    SameCount(x, y, f);
    var keys :| Increasing(keys, OrderBy(less)) && Elements(keys) == MatchingKeys(x, f)
                && rows == Listed(keys[..if |keys| < limit then |keys| else limit], x, f);
    SameListing(x, y, f, keys[..if |keys| < limit then |keys| else limit]);
  }

  /** Every answer tenant `a` can read from `x` is the answer it reads from `y`. */
  ghost predicate ReadsAlike(x: map<BucketKey, Counter>, y: map<BucketKey, Counter>, a: nat) {
    && (forall k: QuotaKey, window :: k.tenant == a ==> GetUsage(x, k, window) == GetUsage(y, k, window))
    && (forall dayStart, dayEnd, less :: StrictTotalOrder(less) ==>
          AggregateDaily(x, a, dayStart, dayEnd, less) == AggregateDaily(y, a, dayStart, dayEnd, less))
    && (forall f: Filter :: f.tenant == a ==> CountUsageRollups(x, f) == CountUsageRollups(y, f))
    && (forall rows, f: Filter, limit, less :: f.tenant == a ==>
          (StreamAnswer(rows, x, f, limit, less) <==> StreamAnswer(rows, y, f, limit, less)))
  }

  lemma SameRowsReadAlike(x: map<BucketKey, Counter>, y: map<BucketKey, Counter>, a: nat)
    requires SameFor(x, y, a)
    ensures ReadsAlike(x, y, a)
  {
    forall dayStart, dayEnd, less | StrictTotalOrder(less)
      ensures AggregateDaily(x, a, dayStart, dayEnd, less) == AggregateDaily(y, a, dayStart, dayEnd, less)
    {
      SameDay(x, y, a, dayStart, dayEnd, less);
    }
    forall f: Filter | f.tenant == a ensures CountUsageRollups(x, f) == CountUsageRollups(y, f) {
      SameCount(x, y, f);
    }
    forall rows, f: Filter, limit, less | f.tenant == a
      ensures StreamAnswer(rows, x, f, limit, less) <==> StreamAnswer(rows, y, f, limit, less)
    {
      if StreamAnswer(rows, x, f, limit, less) {
        SameStream(x, y, f, limit, less, rows);
      }
      if StreamAnswer(rows, y, f, limit, less) {
        SameStream(y, x, f, limit, less, rows);
      }
    }
  }

  /** Non-interference for reads: after any run, everything a tenant can read is what
      it would read had nobody else ever called and nobody else's rows existed. */
  lemma ReadsDoNotInterfere(s: State, schedule: seq<Action>, a: nat)
    requires Initial(s) && Valid(s, schedule)
    ensures var alone, mine := State(Slice(s.tables, a), s.txns, []), Purge(s, schedule, a);
            Valid(alone, mine) && ReadsAlike(Run(alone, mine).tables.rollup, Run(s, schedule).tables.rollup, a)
  {
    NonInterference(s, schedule, a);
    var alone, mine := State(Slice(s.tables, a), s.txns, []), Purge(s, schedule, a);
    SliceIsSame(Run(s, schedule).tables, a);
    SameRowsReadAlike(Run(alone, mine).tables.rollup, Run(s, schedule).tables.rollup, a);
  }
}
