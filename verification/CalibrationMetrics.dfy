/** Aggregating one metric over the seed panel, and the panel's diagnostics. */
module CalibrationMetrics {
  import opened Options
  import opened HalfEven
  import opened CalibrationCandidates
  import opened Permutations

  datatype Status = Observed | ZeroOpportunity | Censored | Unevaluable

  /** A metric of one run: exact counts, and the rate in millionths when observed. */
  datatype Fact = Fact(status: Status, numerator: int, denominator: int, scaled: int)

  /** What the fact constructor guarantees of an observed rate. */
  predicate WellMade(f: Fact) { f.status.Observed? ==> f.denominator > 0 && f.scaled == Rate(f.numerator, f.denominator) }

  datatype Reducer = Pooled | Maximum | Median | Mean

  datatype Outcome = Value(value: int) | Null | Fails

  // ---------------------------------------------------------------- sequences and their order

  function Itself(x: int): int { x }

  lemma {:induction false} SumSplit(a: seq<int>, b: seq<int>)
    ensures Sum(a + b) == Sum(a) + Sum(b)
  {
    if b == [] {
      assert a + b == a;
    } else {
      assert (a + b)[..|a + b| - 1] == a + b[..|b| - 1];
      SumSplit(a, b[..|b| - 1]);
    }
  }

  lemma {:induction false} SumPermuted(a: seq<int>, b: seq<int>)
    requires multiset(a) == multiset(b)
    ensures Sum(a) == Sum(b)
  {
    SameLength(a, b);
    if a != [] {
      var k := |a| - 1;
      var i := Elsewhere(a, b);
      SumPermuted(a[..k], b[..i] + b[i + 1..]);
      SumSplit(b[..i], [b[i]]);
      assert Sum([b[i]]) == b[i] by { assert [b[i]][..0] == []; }
      SumSplit(b[..i] + [b[i]], b[i + 1..]);
      SumSplit(b[..i], b[i + 1..]);
    }
  }

  // ---------------------------------------------------------------- one metric over the panel

  function Numerator(f: Fact): seq<int> { if f.status.Observed? then [f.numerator] else [] }
  function Denominator(f: Fact): seq<int> { if f.status.Observed? then [f.denominator] else [] }
  function ObservedOnly(f: Fact): seq<int> { if f.status.Observed? then [f.scaled] else [] }
  function Scored(f: Fact): seq<int> { [if f.status.ZeroOpportunity? then 0 else f.scaled] }

  /** `conditional` metrics are taken over the runs that observed them. */
  function Aggregate(reducer: Reducer, conditional: bool, fs: seq<Fact>): Outcome {
    if exists f :: f in fs && (f.status.Censored? || f.status.Unevaluable?) then Null
    else if reducer.Pooled? then
      var ns, ds := Collect(fs, Numerator), Collect(fs, Denominator);
      if ns == [] then Value(0)
      else
        var rate := FixedRatio(Sum(ns), Sum(ds));
        if rate.Some? then Value(rate.value) else Fails
    else
      var xs := Sort(Collect(fs, if conditional then ObservedOnly else Scored), Itself);
      if xs == [] then Null
      else
        if reducer.Maximum? then Value(xs[|xs| - 1])
        else if reducer.Mean? then Value(DivideHalfEven(Sum(xs), |xs|))
        else if |xs| % 2 == 1 then Value(xs[(|xs| - 1) / 2])
        else Value(DivideHalfEven(xs[|xs| / 2 - 1] + xs[|xs| / 2], 2))
  }

  /** Aggregation does not depend on the order of the panel. */
  lemma {:induction false} AggregateUnordered(reducer: Reducer, conditional: bool, f: seq<Fact>, g: seq<Fact>)
    requires multiset(f) == multiset(g)
    ensures Aggregate(reducer, conditional, f) == Aggregate(reducer, conditional, g)
  {
    hide DivideHalfEven, FixedRatio, Collect, Sort, Sum, Sorted;
    SameMembers(f, g);
    if reducer.Pooled? {
      CollectPermuted(f, g, Numerator);
      CollectPermuted(f, g, Denominator);
      SumPermuted(Collect(f, Numerator), Collect(g, Numerator));
      SumPermuted(Collect(f, Denominator), Collect(g, Denominator));
      SameLength(Collect(f, Numerator), Collect(g, Numerator));
    } else {
      var p := if conditional then ObservedOnly else Scored;
      CollectPermuted(f, g, p);
      SortedPermutation(Collect(f, p), Itself);
      SortedPermutation(Collect(g, p), Itself);
      SortedUnique(Sort(Collect(f, p), Itself), Sort(Collect(g, p), Itself), Itself);
    }
  }

  // ---------------------------------------------------------------- results lie among the runs' values

  /** What a run contributes to the metric. */
  function Contribution(reducer: Reducer, conditional: bool): Fact -> seq<int> {
    if reducer.Pooled? || conditional then ObservedOnly else Scored
  }

  lemma {:induction false} PooledProjections(fs: seq<Fact>)
    requires forall f :: f in fs ==> WellMade(f)
    ensures var ns, ds, xs := Collect(fs, Numerator), Collect(fs, Denominator), Collect(fs, ObservedOnly);
      |ns| == |ds| == |xs| && forall i :: 0 <= i < |ns| ==> ds[i] > 0 && xs[i] == Rate(ns[i], ds[i])
  {
    hide Rate;
    if fs != [] {
      assert fs[|fs| - 1] in fs;
      assert forall f :: f in fs[..|fs| - 1] ==> f in fs;
      PooledProjections(fs[..|fs| - 1]);
    }
  }

  lemma {:induction false} SumBounds(xs: seq<int>, lo: int, hi: int)
    requires forall i :: 0 <= i < |xs| ==> lo <= xs[i] <= hi
    ensures lo * |xs| <= Sum(xs) <= hi * |xs|
  {
    if xs != [] {
      SumBounds(xs[..|xs| - 1], lo, hi);
      assert lo * |xs| == lo * (|xs| - 1) + lo && hi * |xs| == hi * (|xs| - 1) + hi;
    }
  }

  lemma {:induction false} QuotientBounds(n: int, d: int, lo: int, hi: int)
    requires d > 0 && lo * d <= n <= hi * d
    ensures lo <= DivideHalfEven(n, d) <= hi
  {
    var q := DivideHalfEven(n, d);
    Rounds(n, d);
    assert Nearest(lo, 1, lo) && Nearest(hi, 1, hi);
    NearestMonotone(lo, 1, lo, n, d, q);
    NearestMonotone(n, d, q, hi, 1, hi);
  }

  /** Whatever the reducer, the aggregate lies between the least and the greatest value of the runs it is taken over. */
  lemma {:induction false} AggregateBetween(reducer: Reducer, conditional: bool, fs: seq<Fact>, lo: int, hi: int)
    requires forall f :: f in fs ==> WellMade(f)
    requires forall x :: x in Collect(fs, Contribution(reducer, conditional)) ==> lo <= x <= hi
    requires Collect(fs, Contribution(reducer, conditional)) != [] && Aggregate(reducer, conditional, fs).Value?
    ensures lo <= Aggregate(reducer, conditional, fs).value <= hi
  {
    hide Aggregate, Rate, Collect, Sum;
    if reducer.Pooled? {
      PooledProjections(fs);
      PooledBetween(Collect(fs, Numerator), Collect(fs, Denominator));
      PooledValue(conditional, fs);
      var ns, ds, xs := Collect(fs, Numerator), Collect(fs, Denominator), Collect(fs, ObservedOnly);
      var i :| 0 <= i < |ns| && Rate(ns[i], ds[i]) <= Rate(Sum(ns), Sum(ds));
      var j :| 0 <= j < |ns| && Rate(Sum(ns), Sum(ds)) <= Rate(ns[j], ds[j]);
      assert xs[i] in xs && xs[j] in xs;
    } else {
      SortedBetween(reducer, conditional, fs, lo, hi);
    }
  }

  lemma {:induction false} SortedBetween(reducer: Reducer, conditional: bool, fs: seq<Fact>, lo: int, hi: int)
    requires !reducer.Pooled? && Aggregate(reducer, conditional, fs).Value?
    requires forall x :: x in Collect(fs, Contribution(reducer, conditional)) ==> lo <= x <= hi
    ensures lo <= Aggregate(reducer, conditional, fs).value <= hi
  {
    hide Collect, Sort, DivideHalfEven, Sum, Sorted;
    var ys := Collect(fs, Contribution(reducer, conditional));
    var xs := Sort(ys, Itself);
    SortedPermutation(ys, Itself);
    forall i | 0 <= i < |xs|
      ensures lo <= xs[i] <= hi
    {
      assert xs[i] in multiset(xs);
      assert xs[i] in ys;
    }
    SumBounds(xs, lo, hi);
    QuotientBounds(Sum(xs), |xs|, lo, hi);
    if |xs| % 2 == 0 { QuotientBounds(xs[|xs| / 2 - 1] + xs[|xs| / 2], 2, lo, hi); }
  }

  lemma {:induction false} PooledValue(conditional: bool, fs: seq<Fact>)
    requires Aggregate(Pooled, conditional, fs).Value? && Collect(fs, Numerator) != []
    ensures Sum(Collect(fs, Denominator)) > 0
    ensures Aggregate(Pooled, conditional, fs).value == Rate(Sum(Collect(fs, Numerator)), Sum(Collect(fs, Denominator)))
  {
    hide Collect, Sum, DivideHalfEven;
  }

  // ---------------------------------------------------------------- panel diagnostics

  /** n times the sum of squares less the square of the sum. */
  function Squares(xs: seq<int>): int {
    if xs == [] then 0 else xs[|xs| - 1] * xs[|xs| - 1] + Squares(xs[..|xs| - 1])
  }

  function Spread(xs: seq<int>): int { Squares(xs) * |xs| - Sum(xs) * Sum(xs) }

  /** The sum of the squared differences from x. */
  function Distances(xs: seq<int>, x: int): int {
    if xs == [] then 0 else (xs[|xs| - 1] - x) * (xs[|xs| - 1] - x) + Distances(xs[..|xs| - 1], x)
  }

  lemma {:induction false} DistancesExpand(xs: seq<int>, x: int)
    ensures Distances(xs, x) >= 0
    ensures Distances(xs, x) == Squares(xs) - 2 * (x * Sum(xs)) + |xs| * (x * x)
  {
    if xs != [] {
      var y, ys := xs[|xs| - 1], xs[..|xs| - 1];
      DistancesExpand(ys, x);
      DistancesStep(x, y, Squares(ys), Sum(ys), |ys|);
    }
  }

  lemma {:induction false} DistancesStep(x: int, y: int, q: int, t: int, n: int)
    ensures (y - x) * (y - x) >= 0
    ensures (y - x) * (y - x) + (q - 2 * (x * t) + n * (x * x)) == (y * y + q) - 2 * (x * (y + t)) + (n + 1) * (x * x)
  {
    Difference(y, x);
    Product(x, y, t);
    Product(x * x, n, 1);
  }

  lemma {:induction false} Difference(y: int, x: int)
    ensures (y - x) * (y - x) == y * y - 2 * (x * y) + x * x
    ensures (y - x) * (y - x) >= 0
  {
  }

  lemma {:induction false} Product(x: int, y: int, t: int)
    ensures x * (y + t) == x * y + x * t && (y + t) * x == x * y + x * t
  {
  }

  /** The variance numerator is never negative: each value adds its squared distances from the others. */
  lemma {:induction false} SpreadGrows(xs: seq<int>)
    ensures Spread(xs) >= 0
    ensures xs != [] ==> Spread(xs) == Spread(xs[..|xs| - 1]) + Distances(xs[..|xs| - 1], xs[|xs| - 1])
  {
    if xs != [] {
      var n, x, ys := |xs| - 1, xs[|xs| - 1], xs[..|xs| - 1];
      var q, t := Squares(ys), Sum(ys);
      SpreadGrows(ys);
      DistancesExpand(ys, x);
      SpreadStep(q, t, n, x);
    }
  }

  lemma {:induction false} SpreadStep(q: int, t: int, n: int, x: int)
    ensures (x * x + q) * (n + 1) - (x + t) * (x + t) == q * n - t * t + (q - 2 * (x * t) + n * (x * x))
  {
    Product(n + 1, x * x, q);
    Product(x * x, n, 1);
    Product(q, n, 1);
    Product(x + t, x, t);
    Product(x, x, t);
    Product(t, x, t);
  }

  /** The value a run's fact shows, if it observed one. */
  function Measured(f: Fact): Option<int> { if f.status.Observed? then Some(f.scaled) else None }

  function Passing(row: seq<Fact>, bs: seq<Bounds>): (n: nat)
    requires |row| == |bs|
    ensures n <= |bs|
  {
    if bs == [] then 0
    else
      var k := |bs| - 1;
      Passing(row[..k], bs[..k]) + (if Inside(bs[k], Measured(row[k])) then 1 else 0)
  }

  /** The fewest metrics any seed passes. */
  function Worst(rows: seq<seq<Fact>>, bs: seq<Bounds>): (n: nat)
    requires forall row :: row in rows ==> |row| == |bs|
    ensures n <= |bs| && (forall row :: row in rows ==> n <= Passing(row, bs))
    ensures n == |bs| || exists row :: row in rows && n == Passing(row, bs)
  {
    if rows == [] then |bs|
    else
      var k := |rows| - 1;
      assert rows[k] in rows && rows == rows[..k] + [rows[k]];
      assert forall row :: row in rows[..k] ==> row in rows;
      var rest, last := Worst(rows[..k], bs), Passing(rows[k], bs);
      if last < rest then last else rest
  }

  function Normalizer(b: Bounds): int {
    if b.minimum.Some? && b.maximum.Some? then b.maximum.value - b.minimum.value
    else Width(if b.minimum.Some? then b.minimum.value else if b.maximum.Some? then b.maximum.value else SCALE)
  }

  function Normalized(f: Fact, b: Bounds): int
    requires Normalizer(b) > 0
  {
    DivideHalfEven((if f.status.Observed? then f.scaled else 0) * SCALE, Normalizer(b))
  }

  function Column(rows: seq<seq<Fact>>, bs: seq<Bounds>, m: nat): (c: seq<int>)
    requires m < |bs| && Normalizer(bs[m]) > 0 && forall row :: row in rows ==> |row| == |bs|
    ensures |c| == |rows|
  {
    if rows == [] then [] else Column(rows[..|rows| - 1], bs, m) + [Normalized(rows[|rows| - 1][m], bs[m])]
  }

  function TotalSpread(rows: seq<seq<Fact>>, bs: seq<Bounds>, m: nat): int
    requires m <= |bs| && (forall i :: 0 <= i < m ==> Normalizer(bs[i]) > 0) && forall row :: row in rows ==> |row| == |bs|
  {
    if m == 0 then 0 else TotalSpread(rows, bs, m - 1) + Spread(Column(rows, bs, m - 1))
  }

  lemma {:induction false} TotalSpreadNonNegative(rows: seq<seq<Fact>>, bs: seq<Bounds>, m: nat)
    requires m <= |bs| && (forall i :: 0 <= i < m ==> Normalizer(bs[i]) > 0) && forall row :: row in rows ==> |row| == |bs|
    ensures TotalSpread(rows, bs, m) >= 0
  {
    if m > 0 {
      TotalSpreadNonNegative(rows, bs, m - 1);
      SpreadGrows(Column(rows, bs, m - 1));
    }
  }

  method Passes(row: seq<Fact>, bs: seq<Bounds>) returns (passes: nat)
    requires |row| == |bs|
    ensures passes == Passing(row, bs)
  {
    hide Inside, Measured;
    passes := 0;
    for m := 0 to |bs|
      invariant passes == Passing(row[..m], bs[..m])
    {
      assert row[..m + 1][..m] == row[..m] && bs[..m + 1][..m] == bs[..m];
      if Inside(bs[m], Measured(row[m])) { passes := passes + 1; }
    }
    assert row[..|bs|] == row && bs[..|bs|] == bs;
  }

  method WorstSeed(rows: seq<seq<Fact>>, bs: seq<Bounds>) returns (fewest: nat)
    requires forall row :: row in rows ==> |row| == |bs|
    ensures fewest == Worst(rows, bs)
  {
    hide Passing;
    fewest := |bs|;
    for i := 0 to |rows|
      invariant fewest == Worst(rows[..i], bs)
    {
      assert rows[..i + 1][..i] == rows[..i];
      var passes := Passes(rows[i], bs);
      if passes < fewest { fewest := passes; }
    }
    assert rows[..|rows|] == rows;
  }

  method Values(rows: seq<seq<Fact>>, bs: seq<Bounds>, m: nat) returns (values: seq<int>)
    requires m < |bs| && Normalizer(bs[m]) > 0 && forall row :: row in rows ==> |row| == |bs|
    ensures values == Column(rows, bs, m)
  {
    hide Normalized, Normalizer;
    values := [];
    for i := 0 to |rows|
      invariant values == Column(rows[..i], bs, m)
    {
      assert rows[..i + 1][..i] == rows[..i];
      values := values + [Normalized(rows[i][m], bs[m])];
    }
    assert rows[..|rows|] == rows;
  }

  /** The worst seed's share of passed metrics and the normalized variance across seeds, which is never
      negative; no variance when some metric has no positive scale or the result leaves the safe range. */
  method PanelDiagnostics(rows: seq<seq<Fact>>, bs: seq<Bounds>) returns (worst: Option<int>, variance: Option<int>)
    requires forall row :: row in rows ==> |row| == |bs|
    ensures worst == FixedRatio(Worst(rows, bs), |bs|)
    ensures variance.Some? ==> variance.value >= 0
    ensures (exists i :: 0 <= i < |bs| && Normalizer(bs[i]) <= 0) ==> variance.None?
    ensures (forall i :: 0 <= i < |bs| ==> Normalizer(bs[i]) > 0) ==>
      variance == FixedRatio(TotalSpread(rows, bs, |bs|), |bs| * (|rows| * |rows|) * (SCALE * SCALE))
  {
    hide FixedRatio, Spread, Normalizer, Worst, Column;
    var fewest := WorstSeed(rows, bs);
    worst := FixedRatio(fewest, |bs|);
    var numerator := 0;
    for m := 0 to |bs|
      invariant forall i :: 0 <= i < m ==> Normalizer(bs[i]) > 0
      invariant numerator == TotalSpread(rows, bs, m)
    {
      if Normalizer(bs[m]) <= 0 { return worst, None; }
      var values := Values(rows, bs, m);
      numerator := numerator + Spread(values);
    }
    TotalSpreadNonNegative(rows, bs, |bs|);
    RatioNonNegative(numerator, |bs| * (|rows| * |rows|) * (SCALE * SCALE));
    variance := FixedRatio(numerator, |bs| * (|rows| * |rows|) * (SCALE * SCALE));
  }

  lemma {:induction false} RatioNonNegative(n: int, d: int)
    requires n >= 0
    ensures FixedRatio(n, d).Some? ==> FixedRatio(n, d).value >= 0
  {
    if d > 0 { RatioSign(n, d); }
  }
}
