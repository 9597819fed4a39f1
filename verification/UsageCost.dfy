/**
  Cost estimates for AI usage: apps/api/src/modules/ai/ai-pricing.ts, their persistence
  (apps/api/src/modules/review/review-result.persistence.ts) and their aggregation
  (apps/api/src/modules/usage/prisma-usage.repository.ts).
 */
module UsageCost {
  import opened Utf16

  const MAX_SAFE_INTEGER := 9_007_199_254_740_991
  const RATE_DIVISOR := 1_000_000
  const MAX_RATE := 1_000_000_000
  const MAX_TOKENS := 10_000_000

  datatype Usage = Usage(input: int, output: int, total: int, cached: Option<int>)

  datatype Pricing = Pricing(version: Text, inputRate: int, cachedRate: int, outputRate: int)

  predicate InRange(n: int) {
    0 <= n <= MAX_TOKENS
  }

  /** aiUsageSchema. */
  predicate ValidUsage(u: Usage) {
    && InRange(u.input) && InRange(u.output) && InRange(u.total) && (u.cached.Some? ==> InRange(u.cached.value))
    && u.total == u.input + u.output && (u.cached.Some? ==> u.cached.value <= u.input)
  }

  /** `^[A-Za-z0-9][A-Za-z0-9._-]{0,79}$`. */
  predicate IsVersion(t: Text) {
    1 <= |t| <= 80 && IsAlphanumeric(t[0])
    && forall i :: 0 < i < |t| ==> IsAlphanumeric(t[i]) || t[i] == 46 || t[i] == 95 || t[i] == 45
  }

  predicate IsAlphanumeric(u: CodeUnit) {
    IsDigit(u) || 65 <= u <= 90 || 97 <= u <= 122
  }

  predicate ValidPricing(p: Pricing) {
    IsVersion(p.version) && 0 <= p.inputRate <= MAX_RATE && 0 <= p.cachedRate <= MAX_RATE &&
      0 <= p.outputRate <= MAX_RATE
  }

  // ---------------------------------------------------------------- the estimate

  function NonNegative(n: int): nat {
    if n < 0 then 0 else n
  }

  function Numerator(u: Usage, p: Pricing): int {
    var input := NonNegative(u.input);
    var cached := NonNegative(if u.cached.Some? then u.cached.value else 0);
    (if input > cached then input - cached else 0) * p.inputRate + cached * p.cachedRate
      + NonNegative(u.output) * p.outputRate
  }

  /**
    estimateAiUsageCostMicros; BigInt division truncates, and the numerator is not negative. Absent is
    the RangeError.
   */
  function Estimate(u: Usage, p: Pricing): Option<int>
    requires p.inputRate >= 0 && p.cachedRate >= 0 && p.outputRate >= 0
  {
    var micros := Numerator(u, p) / RATE_DIVISOR;
    if micros > MAX_SAFE_INTEGER then None else Some(micros)
  }

  lemma ProductBound(n: nat, rate: int)
    requires 0 <= rate <= MAX_RATE
    ensures 0 <= n * rate <= n * MAX_RATE
  {
  }

  lemma NumeratorBound(u: Usage, p: Pricing)
    requires ValidUsage(u) && ValidPricing(p)
    ensures 0 <= Numerator(u, p) <= u.total * MAX_RATE
  {
    var cached := if u.cached.Some? then u.cached.value else 0;
    ProductBound(u.input - cached, p.inputRate);
    ProductBound(cached, p.cachedRate);
    ProductBound(u.output, p.outputRate);
  }

  /**
    For validated usage and rates the estimate exists, is at most 10^10 micros, and rounds the exact
    price down by less than one micro.
   */
  lemma EstimateIsFloor(u: Usage, p: Pricing)
    requires ValidUsage(u) && ValidPricing(p)
    ensures Estimate(u, p).Some? && 0 <= Estimate(u, p).value <= 10_000_000_000
    ensures var (c, value) := (if u.cached.Some? then u.cached.value else 0, Estimate(u, p).value);
      value * 1_000_000 <= (u.input - c) * p.inputRate + c * p.cachedRate + u.output * p.outputRate
        < (value + 1) * 1_000_000
  {
    NumeratorBound(u, p);
  }

  const LARGEST_USAGE := Usage(MAX_TOKENS, 0, MAX_TOKENS, None)

  function DearestPricing(version: Text): Pricing {
    Pricing(version, MAX_RATE, 0, 0)
  }

  /** The bound is reached. */
  lemma EstimateReachesBound(version: Text)
    requires IsVersion(version)
    ensures ValidUsage(LARGEST_USAGE) && ValidPricing(DearestPricing(version))
    ensures Estimate(LARGEST_USAGE, DearestPricing(version)) == Some(10_000_000_000)
  {
    assert Numerator(LARGEST_USAGE, DearestPricing(version)) == 10_000_000_000_000_000;
  }

  // ---------------------------------------------------------------- storing and loading

  datatype Persisted = Persisted(usage: Usage, cost: Option<int>, version: Option<Text>)

  /** toPersistedAiUsageRecord; absent when the estimate throws. */
  function ToPersisted(u: Usage, p: Option<Pricing>): Option<Persisted>
    requires p.Some? ==> ValidPricing(p.value)
  {
    if p.None? then Some(Persisted(u, None, None))
    else match Estimate(u, p.value)
      case None => None
      case Some(micros) => Some(Persisted(u, Some(micros), Some(p.value.version)))
  }

  /** What is stored for a usage: the price rounded down and the pricing version, or neither without pricing. */
  lemma PersistedCarriesPrice(u: Usage, p: Option<Pricing>)
    requires ValidUsage(u) && (p.Some? ==> ValidPricing(p.value))
    ensures ToPersisted(u, p).Some? && ToPersisted(u, p).value.usage == u
    ensures var r := ToPersisted(u, p).value;
      && (p.None? ==> r.cost.None? && r.version.None?)
      && (p.Some? ==>
            && r.version == Some(p.value.version) && r.cost.Some?
            && var c := if u.cached.Some? then u.cached.value else 0;
               r.cost.value == ((u.input - c) * p.value.inputRate + c * p.value.cachedRate +
                                u.output * p.value.outputRate) / 1_000_000)
  {
    if p.Some? {
      EstimateIsFloor(u, p.value);
    }
  }

  /** The columns of a usage row; absent stands for a database null. */
  datatype StoredUsage = StoredUsage(
    cached: Option<int>, cost: Option<int>, input: int, output: int, version: Option<Text>, total: int)

  function Store(r: Persisted): StoredUsage {
    StoredUsage(r.usage.cached, r.cost, r.usage.input, r.usage.output, r.version, r.usage.total)
  }

  predicate SafeCost(n: int) {
    0 <= n <= MAX_SAFE_INTEGER
  }

  /** toPersistedAiUsageRecordFromStorage; absent when it throws. */
  function Load(row: StoredUsage): Option<Persisted> {
    var u := Usage(row.input, row.output, row.total, row.cached);
    if row.cost.Some? && !SafeCost(row.cost.value) then None
    else if !ValidUsage(u) || (row.cost.None? != row.version.None?) ||
      (row.version.Some? && !IsVersion(row.version.value)) then None
    else Some(Persisted(u, row.cost, row.version))
  }

  /** A validated usage is persisted without error and comes back from storage unchanged. */
  lemma StoreThenLoad(u: Usage, p: Option<Pricing>)
    requires ValidUsage(u) && (p.Some? ==> ValidPricing(p.value))
    ensures var r := ToPersisted(u, p);
      r.Some? && Load(Store(r.value)) == r && r.value.usage == u && (r.value.cost.Some? <==> p.Some?)
  {
    if p.Some? {
      EstimateIsFloor(u, p.value);
    }
  }

  /** Loading accepts exactly the rows that some record is stored as, and storing that record again gives the row. */
  lemma LoadThenStore(row: StoredUsage)
    ensures Load(row).Some? ==> Store(Load(row).value) == row
    ensures Load(row).Some? <==> exists r: Persisted ::
      Store(r) == row && ValidUsage(r.usage) && (r.cost.Some? <==> r.version.Some?)
      && (r.cost.Some? ==> SafeCost(r.cost.value) && IsVersion(r.version.value))
  {
    var r := Persisted(Usage(row.input, row.output, row.total, row.cached), row.cost, row.version);
    assert Store(r) == row;
  }

  // ---------------------------------------------------------------- aggregation

  datatype CostRow = CostRow(cost: Option<int>, version: Option<Text>)

  predicate Known(row: CostRow) {
    row.cost.Some? && SafeCost(row.cost.value) && row.version.Some? && IsVersion(row.version.value)
  }

  datatype Status = AVAILABLE | MIXED | UNAVAILABLE

  datatype Aggregate = Aggregate(status: Status, cost: Option<int>, version: Option<Text>)

  /** The counters of the aggregation loop. */
  datatype Tally = Tally(known: nat, unknown: nat, total: int, versions: set<Text>)

  function Counted(t: Tally, row: CostRow): Tally {
    if Known(row) then Tally(t.known + 1, t.unknown, t.total + row.cost.value, t.versions + {row.version.value})
    else t.(unknown := t.unknown + 1)
  }

  function TallyOf(rows: seq<CostRow>): Tally {
    if rows == [] then Tally(0, 0, 0, {}) else Counted(TallyOf(rows[..|rows| - 1]), rows[|rows| - 1])
  }

  /** mapCostAggregate. */
  method MapCostAggregate(rows: seq<CostRow>) returns (r: Aggregate)
    ensures r.status == AVAILABLE <==> IsAvailable(rows)
    ensures r.status == AVAILABLE ==> r.cost == Some(Total(rows)) && r.version == rows[0].version
    ensures r.status == MIXED <==> IsMixed(rows)
    ensures r.status != AVAILABLE ==> r.cost == None && r.version == None
  {
    var knownCostRows, unknownCostRows, totalCostMicros := 0, 0, 0;
    var pricingVersions: set<Text> := {};
    var i := 0;
    while i < |rows|
      invariant 0 <= i <= |rows|
      invariant Tally(knownCostRows, unknownCostRows, totalCostMicros, pricingVersions) == TallyOf(rows[..i])
    {
      assert rows[..i + 1][..i] == rows[..i];
      if !Known(rows[i]) {
        unknownCostRows := unknownCostRows + 1;
      } else {
        knownCostRows := knownCostRows + 1;
        pricingVersions := pricingVersions + {rows[i].version.value};
        totalCostMicros := totalCostMicros + rows[i].cost.value;
      }
      i := i + 1;
    }
    assert rows[..i] == rows;
    TallyMeans(rows);
    if knownCostRows == 0 {
      return Aggregate(UNAVAILABLE, None, None);
    }
    SizeOfVersions(rows);
    if unknownCostRows > 0 || |pricingVersions| != 1 {
      return Aggregate(MIXED, None, None);
    }
    var version :| version in pricingVersions;
    if totalCostMicros > MAX_SAFE_INTEGER {
      return Aggregate(UNAVAILABLE, None, None);
    }
    r := Aggregate(AVAILABLE, Some(totalCostMicros), Some(version));
  }

  predicate AllKnown(rows: seq<CostRow>) {
    forall i :: 0 <= i < |rows| ==> Known(rows[i])
  }

  predicate OneVersion(rows: seq<CostRow>) {
    forall i, j :: 0 <= i < |rows| && 0 <= j < |rows| && Known(rows[i]) && Known(rows[j]) ==>
      rows[i].version == rows[j].version
  }

  /** The exact sum of the known costs. */
  function Total(rows: seq<CostRow>): int {
    if rows == [] then 0 else Total(rows[..|rows| - 1]) + if Known(rows[|rows| - 1]) then rows[|rows| - 1].cost.value
    else 0
  }

  predicate IsAvailable(rows: seq<CostRow>) {
    rows != [] && AllKnown(rows) && OneVersion(rows) && Total(rows) <= MAX_SAFE_INTEGER
  }

  predicate IsMixed(rows: seq<CostRow>) {
    (exists i :: 0 <= i < |rows| && Known(rows[i])) && (!AllKnown(rows) || !OneVersion(rows))
  }

  lemma {:induction false} TallyMeans(rows: seq<CostRow>)
    ensures var t := TallyOf(rows);
      && t.total == Total(rows)
      && (t.known == 0 <==> forall i :: 0 <= i < |rows| ==> !Known(rows[i]))
      && (t.unknown == 0 <==> AllKnown(rows))
      && (forall v :: v in t.versions <==> exists i :: 0 <= i < |rows| && Known(rows[i]) && rows[i].version == Some(v))
  {
    if rows != [] {
      var n := |rows| - 1;
      TallyMeans(rows[..n]);
      var (before, after) := (TallyOf(rows[..n]), TallyOf(rows));
      forall v | v in after.versions
        ensures exists i :: 0 <= i < |rows| && Known(rows[i]) && rows[i].version == Some(v) {
        if v in before.versions {
          var i :| 0 <= i < n && Known(rows[..n][i]) && rows[..n][i].version == Some(v);
          assert rows[i] == rows[..n][i];
        } else {
          assert rows[n].version == Some(v);
        }
      }
      forall v, i | 0 <= i < |rows| && Known(rows[i]) && rows[i].version == Some(v) ensures v in after.versions {
        if i < n {
          assert rows[..n][i] == rows[i];
        }
      }
    }
  }

  /** Exactly one version occurs among known rows when the set of versions has one element. */
  lemma {:induction false} SizeOfVersions(rows: seq<CostRow>)
    requires exists i :: 0 <= i < |rows| && Known(rows[i])
    ensures |TallyOf(rows).versions| == 1 <==> OneVersion(rows)
  {
    TallyMeans(rows);
    var versions := TallyOf(rows).versions;
    var i :| 0 <= i < |rows| && Known(rows[i]);
    var v := rows[i].version.value;
    assert v in versions;
    if |versions| == 1 {
      SingletonMembers(versions, v);
    }
    if OneVersion(rows) {
      assert versions == {v};
    }
  }

  lemma SingletonMembers(s: set<Text>, v: Text)
    requires |s| == 1 && v in s
    ensures forall w :: w in s ==> w == v
  {
    assert |s - {v}| == 0;
  }

  // ---------------------------------------------------------------- order and rounding

  lemma CountedCommutes(t: Tally, a: CostRow, b: CostRow)
    ensures Counted(Counted(t, a), b) == Counted(Counted(t, b), a)
  {
  }

  /** Any row can be counted last. */
  lemma {:induction false} CountLast(rows: seq<CostRow>, i: nat)
    requires i < |rows|
    ensures TallyOf(rows) == Counted(TallyOf(rows[..i] + rows[i + 1..]), rows[i])
    decreases |rows|
  {
    var n := |rows| - 1;
    if i == n {
      assert rows[..i] + rows[i + 1..] == rows[..n];
    } else {
      var others := rows[..i] + rows[i + 1..];
      CountLast(rows[..n], i);
      assert rows[..n][..i] + rows[..n][i + 1..] == others[..|others| - 1];
      CountedCommutes(TallyOf(others[..|others| - 1]), rows[i], rows[n]);
    }
  }

  lemma RemoveAt(rows: seq<CostRow>, i: nat)
    requires i < |rows|
    ensures multiset(rows[..i] + rows[i + 1..]) == multiset(rows) - multiset{rows[i]}
  {
    assert rows == rows[..i] + [rows[i]] + rows[i + 1..];
    assert multiset(rows) == multiset(rows[..i] + rows[i + 1..]) + multiset{rows[i]};
  }

  /** The counters do not depend on the order in which the database returns the rows. */
  lemma {:induction false} OrderDoesNotMatter(a: seq<CostRow>, b: seq<CostRow>)
    requires multiset(a) == multiset(b)
    ensures TallyOf(a) == TallyOf(b)
  {
    if a == [] {
      assert |multiset(b)| == |b| == 0;
    } else {
      var n := |a| - 1;
      var last := a[n];
      assert last in multiset(b);
      var i :| 0 <= i < |b| && b[i] == last;
      RemoveAt(a, n);
      RemoveAt(b, i);
      assert a[..n] + a[n + 1..] == a[..n];
      OrderDoesNotMatter(a[..n], b[..i] + b[i + 1..]);
      CountLast(b, i);
    }
  }

  /** So neither does the aggregate's total. */
  lemma {:induction false} TotalIsInvariant(a: seq<CostRow>, b: seq<CostRow>)
    requires multiset(a) == multiset(b)
    ensures Total(a) == Total(b)
    ensures IsAvailable(a) <==> IsAvailable(b)
    ensures IsMixed(a) <==> IsMixed(b)
  {
    OrderDoesNotMatter(a, b);
    TallyMeans(a);
    TallyMeans(b);
    KnownTransfers(a, b);
    KnownTransfers(b, a);
    if exists i :: 0 <= i < |a| && Known(a[i]) {
      SizeOfVersions(a);
      SizeOfVersions(b);
    }
  }

  lemma KnownTransfers(a: seq<CostRow>, b: seq<CostRow>)
    requires multiset(a) == multiset(b)
    ensures (exists i :: 0 <= i < |a| && Known(a[i])) ==> exists i :: 0 <= i < |b| && Known(b[i])
    ensures a != [] ==> b != []
  {
    if a != [] {
      assert a[0] in multiset(b);
    }
    if exists i :: 0 <= i < |a| && Known(a[i]) {
      var i :| 0 <= i < |a| && Known(a[i]);
      assert a[i] in multiset(b);
    }
  }

  /** The rows that a list of validated usages is stored as, under one pricing. */
  function RowsOf(us: seq<Usage>, p: Pricing): seq<CostRow>
    requires ValidPricing(p)
  {
    if us == [] then [] else RowsOf(us[..|us| - 1], p) + [CostRow(Estimate(us[|us| - 1], p), Some(p.version))]
  }

  /** The unrounded total, in millionths of a micro: new input, cached input and output, each at its own rate. */
  function ExactTotal(us: seq<Usage>, p: Pricing): int {
    if us == [] then 0
    else
      var u := us[|us| - 1];
      var c := if u.cached.Some? then u.cached.value else 0;
      ExactTotal(us[..|us| - 1], p) + ((u.input - c) * p.inputRate + c * p.cachedRate + u.output * p.outputRate)
  }

  lemma {:induction false} RowsAreKnown(us: seq<Usage>, p: Pricing)
    requires ValidPricing(p) && forall i :: 0 <= i < |us| ==> ValidUsage(us[i])
    ensures |RowsOf(us, p)| == |us|
    ensures forall i :: 0 <= i < |us| ==> Known(RowsOf(us, p)[i]) && RowsOf(us, p)[i].version == Some(p.version)
  {
    if us != [] {
      RowsAreKnown(us[..|us| - 1], p);
      EstimateIsFloor(us[|us| - 1], p);
    }
  }

  lemma {:induction false} TotalOfMore(rows: seq<CostRow>, row: CostRow)
    requires Known(row)
    ensures Total(rows + [row]) == Total(rows) + row.cost.value
  {
    assert (rows + [row])[..|rows|] == rows;
  }

  lemma {:induction false} TotalIsClose(us: seq<Usage>, p: Pricing)
    requires ValidPricing(p) && forall i :: 0 <= i < |us| ==> ValidUsage(us[i])
    ensures Total(RowsOf(us, p)) * RATE_DIVISOR <= ExactTotal(us, p) <= (Total(RowsOf(us, p)) + |us|) * RATE_DIVISOR
    ensures us != [] ==> ExactTotal(us, p) < (Total(RowsOf(us, p)) + |us|) * RATE_DIVISOR
  {
    if us != [] {
      var n := |us| - 1;
      TotalIsClose(us[..n], p);
      EstimateIsFloor(us[n], p);
      TotalOfMore(RowsOf(us[..n], p), CostRow(Estimate(us[n], p), Some(p.version)));
    }
  }

  /**
    Under one pricing the aggregate of n usages is available while it is in the safe range, and is
    less than n micros below the unrounded total, never above it.
   */
  lemma {:induction false} AggregateIsClose(us: seq<Usage>, p: Pricing)
    requires ValidPricing(p) && forall i :: 0 <= i < |us| ==> ValidUsage(us[i])
    ensures IsAvailable(RowsOf(us, p)) <==> us != [] && Total(RowsOf(us, p)) <= MAX_SAFE_INTEGER
    ensures Total(RowsOf(us, p)) * RATE_DIVISOR <= ExactTotal(us, p)
    ensures us != [] ==> ExactTotal(us, p) < (Total(RowsOf(us, p)) + |us|) * RATE_DIVISOR
  {
    RowsAreKnown(us, p);
    TotalIsClose(us, p);
  }
}
