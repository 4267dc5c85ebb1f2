/** What the aggregates and diagnostics of the seed panel are, said without how they are computed. */
module MetricMeanings {
  import opened Options
  import opened HalfEven
  import opened CalibrationCandidates
  import opened CalibrationMetrics
  import opened Permutations

  // ---------------------------------------------------------------- one metric over the panel

  /** What the runs contribute in order: those that observed the metric their value, those without an opportunity zero,
      unless the metric is taken over observing runs only. */
  function Contributed(conditional: bool, fs: seq<Fact>): seq<int> {
    if fs == [] then []
    else
      var f, before := fs[|fs| - 1], Contributed(conditional, fs[..|fs| - 1]);
      if f.status == Observed then before + [f.scaled]
      else if conditional then before
      else if f.status == ZeroOpportunity then before + [0] else before + [f.scaled]
  }

  /** Numerators and denominators of the runs that observed the metric. */
  function Observing(fs: seq<Fact>): (n: nat)
    ensures n == 0 <==> forall f :: f in fs ==> f.status != Observed
  {
    if fs == [] then 0
    else
      assert fs == fs[..|fs| - 1] + [fs[|fs| - 1]];
      Observing(fs[..|fs| - 1]) + if fs[|fs| - 1].status == Observed then 1 else 0
  }

  function Numerators(fs: seq<Fact>): int {
    if fs == [] then 0 else Numerators(fs[..|fs| - 1]) + if fs[|fs| - 1].status == Observed then fs[|fs| - 1].numerator else 0
  }

  function Denominators(fs: seq<Fact>): int {
    if fs == [] then 0 else Denominators(fs[..|fs| - 1]) + if fs[|fs| - 1].status == Observed then fs[|fs| - 1].denominator else 0
  }

  predicate Unsettled(fs: seq<Fact>) { exists i :: 0 <= i < |fs| && fs[i].status in {Censored, Unevaluable} }

  /** q is the rate n/d in millionths, rounded half to even, and representable. */
  predicate IsRatio(n: int, d: int, q: int) { d > 0 && Nearest(n * SCALE, d, q) && -9007199254740991 <= q <= 9007199254740991 }

  /** Some value is this one and none is beyond it. */
  predicate IsGreatest(xs: seq<int>, m: int) { m in xs && forall x :: x in xs ==> x <= m }

  /** In order, the middle value, or the rounded mean of the middle two. */
  ghost predicate IsMedian(xs: seq<int>, m: int) {
    exists ys: seq<int> :: MedianOf(xs, ys, m)
  }

  predicate MedianOf(xs: seq<int>, ys: seq<int>, m: int) {
    && |xs| > 0 && multiset(ys) == multiset(xs) && |ys| == |xs| && (forall i, j :: 0 <= i < j < |ys| ==> ys[i] <= ys[j])
    && var h := |ys| / 2;
       if |ys| == 2 * h then Nearest(ys[h - 1] + ys[h], 2, m) else m == ys[h]
  }

  predicate IsMean(xs: seq<int>, m: int) { |xs| > 0 && Nearest(Sum(xs), |xs|, m) }

  /** A pooled rate: nothing when a run is unsettled, zero when none observed it, and otherwise the rate of the sums, which
      must be representable. */
  lemma {:induction false} PooledMeans(conditional: bool, fs: seq<Fact>)
    ensures var a := Aggregate(Pooled, conditional, fs);
      && (a.Null? <==> Unsettled(fs))
      && (!Unsettled(fs) && Observing(fs) == 0 ==> a == Value(0))
      && (!Unsettled(fs) && Observing(fs) > 0 ==>
            if a.Value? then IsRatio(Numerators(fs), Denominators(fs), a.value)
            else forall q :: !IsRatio(Numerators(fs), Denominators(fs), q))
  {
    CollectsCounts(fs);
    UnsettledStatus(fs);
    var n, d := Numerators(fs), Denominators(fs);
    hide Collect, DivideHalfEven, Nearest, Numerators, Denominators, Sum, Observing;
    if d > 0 {
      Rounds(n * SCALE, d);
      forall q | Nearest(n * SCALE, d, q)
        ensures q == DivideHalfEven(n * SCALE, d)
      {
        OnlyNearest(n * SCALE, d, q);
      }
    }
  }

  lemma {:induction false} UnsettledStatus(fs: seq<Fact>)
    ensures Unsettled(fs) <==> exists f :: f in fs && (f.status.Censored? || f.status.Unevaluable?)
  {
  }

  lemma {:induction false} CollectsCounts(fs: seq<Fact>)
    ensures Sum(Collect(fs, Numerator)) == Numerators(fs) && Sum(Collect(fs, Denominator)) == Denominators(fs)
    ensures |Collect(fs, Numerator)| == Observing(fs)
  {
    if fs != [] {
      var k := |fs| - 1;
      CollectsCounts(fs[..k]);
      SumSplit(Collect(fs[..k], Numerator), Numerator(fs[k]));
      SumSplit(Collect(fs[..k], Denominator), Denominator(fs[k]));
      SumOne(fs[k].numerator);
      SumOne(fs[k].denominator);
    }
  }

  lemma {:induction false} SumOne(x: int)
    ensures Sum([x]) == x && Sum([]) == 0
  {
    assert [x][..0] == [];
  }

  lemma {:induction false} CollectsValues(conditional: bool, fs: seq<Fact>)
    ensures Collect(fs, if conditional then ObservedOnly else Scored) == Contributed(conditional, fs)
  {
    if fs != [] { CollectsValues(conditional, fs[..|fs| - 1]); }
  }

  /** The other reducers: nothing when a run is unsettled or none contributes, and otherwise the greatest, the median or the
      mean of what the runs contribute. */
  lemma {:induction false} ReducedMeans(reducer: Reducer, conditional: bool, fs: seq<Fact>)
    requires !reducer.Pooled?
    ensures var a, xs := Aggregate(reducer, conditional, fs), Contributed(conditional, fs);
      && !a.Fails? && (a.Null? <==> Unsettled(fs) || xs == [])
      && (a.Value? && reducer.Maximum? ==> IsGreatest(xs, a.value))
      && (a.Value? && reducer.Median? ==> IsMedian(xs, a.value))
      && (a.Value? && reducer.Mean? ==> IsMean(xs, a.value))
  {
    hide Sum, DivideHalfEven, Nearest, Sort, Sorted, Unsettled, Contributed, Aggregate, IsMedian, IsGreatest, IsMean;
    Reduces(reducer, conditional, fs);
    var xs := Contributed(conditional, fs);
    SortLength(xs);
    if xs != [] { SortedMeans(xs, reducer, Aggregate(reducer, conditional, fs)); }
  }

  /** What the reducer does to the sorted values. */
  predicate Reduced(reducer: Reducer, ys: seq<int>, m: int)
    requires |ys| > 0
  {
    match reducer
    case Maximum => m == ys[|ys| - 1]
    case Mean => m == DivideHalfEven(Sum(ys), |ys|)
    case _ => m == if |ys| % 2 == 1 then ys[(|ys| - 1) / 2] else DivideHalfEven(ys[|ys| / 2 - 1] + ys[|ys| / 2], 2)
  }

  lemma {:induction false} Reduces(reducer: Reducer, conditional: bool, fs: seq<Fact>)
    requires !reducer.Pooled?
    ensures var a, ys := Aggregate(reducer, conditional, fs), Sort(Contributed(conditional, fs), Itself);
      && !a.Fails? && (a.Null? <==> Unsettled(fs) || ys == [])
      && (a.Value? ==> ys != [] && Reduced(reducer, ys, a.value))
  {
    UnsettledStatus(fs);
    CollectsValues(conditional, fs);
    hide Sum, DivideHalfEven, FixedRatio, Collect, Sort, Unsettled, Contributed, Scored, ObservedOnly, Itself;
  }

  lemma {:induction false} SortLength(xs: seq<int>)
    ensures |Sort(xs, Itself)| == |xs|
  {
    hide Sort, Sorted;
    SortedPermutation(xs, Itself);
    SameLength(Sort(xs, Itself), xs);
  }

  lemma {:induction false} SortedMeans(xs: seq<int>, reducer: Reducer, a: Outcome)
    requires xs != [] && |Sort(xs, Itself)| == |xs| && !reducer.Pooled? && (a.Value? ==> Reduced(reducer, Sort(xs, Itself), a.value))
    ensures a.Value? && reducer.Maximum? ==> IsGreatest(xs, a.value)
    ensures a.Value? && reducer.Median? ==> IsMedian(xs, a.value)
    ensures a.Value? && reducer.Mean? ==> IsMean(xs, a.value)
  {
    hide Sum, DivideHalfEven, Nearest, Sort, Sorted, IsMedian;
    var ys := Sort(xs, Itself);
    SortedPermutation(xs, Itself);
    if a.Value? {
      match reducer
      case Maximum =>
        SameMembers(ys, xs);
        SortedGreatest(ys);
        assert ys[|ys| - 1] in ys;
      case Mean =>
        SumPermuted(ys, xs);
        Rounds(Sum(ys), |ys|);
      case Median => SortedMedian(xs, ys, a.value);
      case Pooled =>
    }
  }

  lemma {:induction false} SortedGreatest(ys: seq<int>)
    requires Sorted(ys, Itself) && ys != []
    ensures forall y :: y in ys ==> y <= ys[|ys| - 1]
  {
    forall y | y in ys
      ensures y <= ys[|ys| - 1]
    {
      var i :| 0 <= i < |ys| && ys[i] == y;
      assert i < |ys| - 1 ==> Itself(ys[i]) <= Itself(ys[|ys| - 1]);
    }
  }

  lemma {:induction false} SortedMedian(xs: seq<int>, ys: seq<int>, m: int)
    requires |xs| == |ys| > 0 && multiset(xs) == multiset(ys) && Sorted(ys, Itself)
    requires m == if |ys| % 2 == 1 then ys[(|ys| - 1) / 2] else DivideHalfEven(ys[|ys| / 2 - 1] + ys[|ys| / 2], 2)
    ensures IsMedian(xs, m)
  {
    hide DivideHalfEven, Nearest;
    forall i, j | 0 <= i < j < |ys|
      ensures ys[i] <= ys[j]
    {
      assert Itself(ys[i]) <= Itself(ys[j]);
    }
    if |ys| % 2 == 0 { Rounds(ys[|ys| / 2 - 1] + ys[|ys| / 2], 2); }
    assert MedianOf(xs, ys, m);
  }

  // ---------------------------------------------------------------- panel diagnostics

  /** The run observed the metric and its value respects both bounds. */
  predicate PassesAt(row: seq<Fact>, bs: seq<Bounds>, i: nat)
    requires |row| == |bs| && i < |bs|
  {
    && row[i].status == Observed
    && (bs[i].minimum.None? || bs[i].minimum.value <= row[i].scaled) && (bs[i].maximum.None? || row[i].scaled <= bs[i].maximum.value)
  }

  lemma {:induction false} PassingCounts(row: seq<Fact>, bs: seq<Bounds>)
    requires |row| == |bs|
    ensures Passing(row, bs) == |set i: nat | i < |bs| && PassesAt(row, bs, i)|
  {
    var now := set i: nat | i < |bs| && PassesAt(row, bs, i);
    if bs != [] {
      var k := |bs| - 1;
      PassingCounts(row[..k], bs[..k]);
      var before := set i: nat | i < k && PassesAt(row[..k], bs[..k], i);
      assert forall i: nat :: i < k ==> (PassesAt(row[..k], bs[..k], i) <==> PassesAt(row, bs, i));
      assert now == before + if PassesAt(row, bs, k) then {k} else {};
    } else {
      assert now == {};
    }
  }

  /** The scale a metric is compared on: the width between its bounds, or the size of its only bound, at least one. */
  predicate IsScale(b: Bounds, w: int) {
    match (b.minimum, b.maximum)
    case (Some(low), Some(high)) => w == high - low
    case (Some(low), None) => w >= SCALE && (w == SCALE || w == low || w == -low) && w >= low && w >= -low
    case (None, Some(high)) => w >= SCALE && (w == SCALE || w == high || w == -high) && w >= high && w >= -high
    case (None, None) => w == SCALE
  }

  lemma {:induction false} NormalizerScale(b: Bounds)
    ensures IsScale(b, Normalizer(b))
  {
  }

  lemma {:induction false} NormalizedNearest(f: Fact, b: Bounds)
    requires Normalizer(b) > 0
    ensures Nearest((if f.status == Observed then f.scaled else 0) * SCALE, Normalizer(b), Normalized(f, b))
  {
    Rounds((if f.status.Observed? then f.scaled else 0) * SCALE, Normalizer(b));
    hide Nearest, DivideHalfEven, Normalizer;
  }

  /** Each run's value of the metric, zero when it observed none, on the metric's scale in millionths. */
  lemma {:induction false} ColumnMeans(rows: seq<seq<Fact>>, bs: seq<Bounds>, m: nat)
    requires m < |bs| && Normalizer(bs[m]) > 0 && forall row :: row in rows ==> |row| == |bs|
    ensures IsScale(bs[m], Normalizer(bs[m]))
    ensures forall i :: 0 <= i < |rows| ==>
      Nearest((if rows[i][m].status == Observed then rows[i][m].scaled else 0) * SCALE, Normalizer(bs[m]), Column(rows, bs, m)[i])
  {
    hide Nearest, Normalizer, Normalized, IsScale;
    NormalizerScale(bs[m]);
    if rows != [] {
      var k := |rows| - 1;
      assert forall i :: 0 <= i < k ==> rows[..k][i] == rows[i];
      ColumnMeans(rows[..k], bs, m);
      NormalizedNearest(rows[k][m], bs[m]);
      assert forall i :: 0 <= i < k ==> Column(rows, bs, m)[i] == Column(rows[..k], bs, m)[i];
    }
  }

  /** The squared differences of all pairs. */
  function Pairwise(xs: seq<int>): int {
    if xs == [] then 0 else Pairwise(xs[..|xs| - 1]) + SquaresFrom(xs[..|xs| - 1], xs[|xs| - 1])
  }

  function SquaresFrom(xs: seq<int>, x: int): int {
    if xs == [] then 0 else SquaresFrom(xs[..|xs| - 1], x) + (xs[|xs| - 1] - x) * (xs[|xs| - 1] - x)
  }

  lemma {:induction false} DistancesFrom(xs: seq<int>, x: int)
    ensures Distances(xs, x) == SquaresFrom(xs, x)
  {
    if xs != [] { DistancesFrom(xs[..|xs| - 1], x); }
  }

  /** The variance numerator of a metric is the sum of the squared differences between its runs. */
  lemma {:induction false} SpreadIsPairwise(xs: seq<int>)
    ensures Spread(xs) == Pairwise(xs)
  {
    hide Spread, Distances, SquaresFrom;
    SpreadGrows(xs);
    if xs != [] {
      SpreadIsPairwise(xs[..|xs| - 1]);
      DistancesFrom(xs[..|xs| - 1], xs[|xs| - 1]);
    } else {
      NoSpread();
    }
  }

  lemma {:induction false} NoSpread()
    ensures Spread([]) == 0
  {
  }

  function PairwiseSum(rows: seq<seq<Fact>>, bs: seq<Bounds>, m: nat): int
    requires m <= |bs| && (forall i :: 0 <= i < m ==> Normalizer(bs[i]) > 0) && forall row :: row in rows ==> |row| == |bs|
  {
    if m == 0 then 0 else PairwiseSum(rows, bs, m - 1) + Pairwise(Column(rows, bs, m - 1))
  }

  lemma {:induction false} TotalIsPairwise(rows: seq<seq<Fact>>, bs: seq<Bounds>, m: nat)
    requires m <= |bs| && (forall i :: 0 <= i < m ==> Normalizer(bs[i]) > 0) && forall row :: row in rows ==> |row| == |bs|
    ensures TotalSpread(rows, bs, m) == PairwiseSum(rows, bs, m)
  {
    if m > 0 {
      TotalIsPairwise(rows, bs, m - 1);
      SpreadIsPairwise(Column(rows, bs, m - 1));
    }
  }

  // ---------------------------------------------------------------- candidates

  /** The width a distance from a bound is measured by: the bound's size, at least one. */
  predicate IsWidth(bound: int, w: int) { w >= SCALE && w >= bound && w >= -bound && (w == SCALE || w == bound || w == -bound) }

  /** The answer is the ratio of the distance to the bound's width, or nothing when that cannot be represented. */
  ghost predicate Measures(distance: int, bound: int, answer: Option<int>) {
    exists w :: IsWidth(bound, w) && IsRatioOr(distance, w, answer)
  }

  ghost predicate IsRatioOr(n: int, d: int, answer: Option<int>) {
    if answer.Some? then IsRatio(n, d, answer.value) else forall q :: !IsRatio(n, d, q)
  }

  lemma {:induction false} RatioMeasures(distance: int, bound: int)
    ensures Measures(distance, bound, FixedRatio(distance, Width(bound)))
  {
    RatioIs(distance, Width(bound));
    assert IsWidth(bound, Width(bound));
  }

  lemma {:induction false} RatioIs(n: int, d: int)
    requires d > 0
    ensures IsRatioOr(n, d, FixedRatio(n, d))
  {
    Rounds(n * SCALE, d);
    forall q | Nearest(n * SCALE, d, q)
      ensures q == DivideHalfEven(n * SCALE, d)
    {
      OnlyNearest(n * SCALE, d, q);
    }
    hide Nearest, DivideHalfEven;
  }

  predicate Below(b: Bounds, v: int) { b.minimum.Some? && v < b.minimum.value }

  predicate Above(b: Bounds, v: int) { b.maximum.Some? && b.maximum.value < v }

  /** A missing value violates by one; a value inside its bounds by nothing; one outside by its distance from the bound, the
      lower one first, over that bound's width. */
  lemma {:induction false} ViolationMeans(b: Bounds, v: Option<int>)
    ensures v.None? ==> Violation(b, v) == Some(1_000_000)
    ensures v.Some? && !Below(b, v.value) && !Above(b, v.value) ==> Violation(b, v) == Some(0)
    ensures v.Some? && Below(b, v.value) ==> Measures(b.minimum.value - v.value, b.minimum.value, Violation(b, v))
    ensures v.Some? && !Below(b, v.value) && Above(b, v.value) ==> Measures(v.value - b.maximum.value, b.maximum.value, Violation(b, v))
  {
    hide FixedRatio, Width, Measures;
    if v.Some? && b.minimum.Some? { RatioMeasures(b.minimum.value - v.value, b.minimum.value); }
    if v.Some? && b.maximum.Some? { RatioMeasures(v.value - b.maximum.value, b.maximum.value); }
  }

  /** A missing value has the margin minus one; another has one margin per bound, its distance inside it over its width. */
  lemma {:induction false} MarginsMean(b: Bounds, v: Option<int>)
    ensures v.None? ==> Margins(b, v) == Some([-1_000_000])
    ensures v.Some? ==> exists low, high :: MarginsAre(b, v.value, low, high, Margins(b, v))
  {
    hide FixedRatio, Width, Measures;
    if v.Some? {
      var low := if b.minimum.Some? then FixedRatio(v.value - b.minimum.value, Width(b.minimum.value)) else None;
      var high := if b.maximum.Some? then FixedRatio(b.maximum.value - v.value, Width(b.maximum.value)) else None;
      if b.minimum.Some? { RatioMeasures(v.value - b.minimum.value, b.minimum.value); }
      if b.maximum.Some? { RatioMeasures(b.maximum.value - v.value, b.maximum.value); }
      assert MarginsAre(b, v.value, low, high, Margins(b, v));
    }
  }

  ghost predicate MarginsAre(b: Bounds, v: int, low: Option<int>, high: Option<int>, answer: Option<seq<int>>) {
    && (b.minimum.Some? ==> Measures(v - b.minimum.value, b.minimum.value, low))
    && (b.maximum.Some? ==> Measures(b.maximum.value - v, b.maximum.value, high))
    && (answer.None? <==> (b.minimum.Some? && low.None?) || (b.maximum.Some? && high.None?))
    && (answer.Some? && b.minimum.Some? && b.maximum.Some? ==> answer.value == [low.value, high.value])
    && (answer.Some? && b.minimum.Some? && b.maximum.None? ==> answer.value == [low.value])
    && (answer.Some? && b.minimum.None? && b.maximum.Some? ==> answer.value == [high.value])
    && (answer.Some? && b.minimum.None? && b.maximum.None? ==> answer.value == [])
  }

  /** The first margin is wider; no margin at all is the widest. */
  predicate Wider(a: Option<int>, b: Option<int>) { (a.None? && b.Some?) || (a.Some? && b.Some? && b.value < a.value) }

  /** Ahead means: a wider margin; or the same and more passes; or those the same and less variance; or that too and fewer
      changes; or all the same and the lower hash. */
  lemma {:induction false} AheadMeans(a: Candidate, b: Candidate)
    ensures Ahead(a, b) <==>
      || Wider(a.margin, b.margin)
      || (a.margin == b.margin && b.passes < a.passes)
      || (a.margin == b.margin && a.passes == b.passes && a.variance < b.variance)
      || (a.margin == b.margin && a.passes == b.passes && a.variance == b.variance && a.changes < b.changes)
      || (a.margin == b.margin && a.passes == b.passes && a.variance == b.variance && a.changes == b.changes && a.hash < b.hash)
  {
  }
}
