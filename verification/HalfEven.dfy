/** Fixed-point arithmetic: division rounded half to even, and ratios in units of a millionth. */
module HalfEven {
  import opened Options

  const SCALE: int := 1_000_000
  const MAX_SAFE: int := 9007199254740991

  /** BigInt division rounded to nearest, ties to even; the sign is set aside first. */
  function DivideHalfEven(n: int, d: int): (q: int)
    requires d > 0
  {
    var a := if n < 0 then -n else n;
    var q, r := a / d, a % d;
    var up := if 2 * r > d || (2 * r == d && q % 2 == 1) then q + 1 else q;
    if n < 0 then -up else up
  }

  /** q is a nearest integer to n/d, and the even one of two equally near. */
  predicate Nearest(n: int, d: int, q: int) {
    -d <= 2 * (n - q * d) <= d && (2 * (n - q * d) == d || 2 * (n - q * d) == -d ==> q % 2 == 0)
  }

  lemma {:induction false} Distribute(a: int, b: int, w: int)
    ensures (a + b) * w == a * w + b * w && w * (a + b) == w * a + w * b
  {
  }

  lemma {:induction false} Opposite(a: int, b: int)
    ensures (-a) * b == -(a * b)
  {
  }

  lemma {:induction false} Divides(a: int, d: int)
    requires d > 0
    ensures a == a / d * d + a % d && 0 <= a % d < d
  {
  }

  lemma {:induction false} NearestOpposite(n: int, d: int, q: int)
    requires Nearest(n, d, q)
    ensures Nearest(-n, d, -q)
  {
    Opposite(q, d);
  }

  lemma {:induction false} RoundsFrom(a: int, d: int, q: int, r: int)
    requires a == q * d + r && 0 <= r < d
    ensures Nearest(a, d, if 2 * r > d || (2 * r == d && q % 2 == 1) then q + 1 else q)
  {
    Distribute(q, 1, d);
  }

  lemma {:induction false} Rounds(n: int, d: int)
    requires d > 0
    ensures Nearest(n, d, DivideHalfEven(n, d))
  {
    hide Nearest;
    var a := if n < 0 then -n else n;
    Divides(a, d);
    RoundsFrom(a, d, a / d, a % d);
    NearestOpposite(a, d, DivideHalfEven(a, d));
  }

  lemma {:induction false} Scaled(a: int, b: int, w: int)
    requires a <= b && w > 0
    ensures a * w <= b * w
  {
  }

  lemma {:induction false} Cancel(a: int, b: int, w: int)
    requires a * w <= b * w && w > 0
    ensures a <= b
  {
    if a > b { Scaled(b + 1, a, w); }
  }

  lemma {:induction false} CancelEqual(a: int, b: int, w: int)
    requires a * w == b * w && w > 0
    ensures a == b
  {
    Cancel(a, b, w);
    Cancel(b, a, w);
  }

  lemma {:induction false} TieIsEven(n: int, d: int, q: int)
    requires Nearest(n, d, q) && (2 * n == (2 * q - 1) * d || 2 * n == (2 * q + 1) * d)
    ensures q % 2 == 0
  {
    assert (2 * q - 1) * d == 2 * (q * d) - d && (2 * q + 1) * d == 2 * (q * d) + d;
  }

  /** x/(2 d1) <= n1/d1 <= n2/d2 <= y/(2 d2), all times the denominators. */
  lemma {:induction false} Between(x: int, n1: int, d1: int, n2: int, d2: int, y: int)
    requires d1 > 0 && d2 > 0 && n1 * d2 <= n2 * d1 && x * d1 <= 2 * n1 && 2 * n2 <= y * d2
    ensures x <= y
    ensures x == y ==> 2 * n1 == x * d1 && 2 * n2 == y * d2
  {
    var w := d1 * d2;
    Scaled(x * d1, 2 * n1, d2);
    Scaled(2 * n2, y * d2, d1);
    var a, b, l, r := x * d1 * d2, y * d2 * d1, 2 * n1 * d2, 2 * n2 * d1;
    assert l == 2 * (n1 * d2) && r == 2 * (n2 * d1);
    assert a == x * w by { Regroup(x, d1, d2); }
    assert b == y * w by { Regroup(y, d2, d1); }
    Cancel(x, y, w);
    if x == y {
      CancelEqual(2 * n1, x * d1, d2);
      CancelEqual(2 * n2, y * d2, d1);
    }
  }

  lemma {:induction false} Regroup(x: int, a: int, b: int)
    ensures x * a * b == x * (a * b) == x * (b * a)
  {
  }

  /** Nearest quotients follow the order of the rationals they round. */
  lemma {:induction false} NearestMonotone(n1: int, d1: int, q1: int, n2: int, d2: int, q2: int)
    requires d1 > 0 && d2 > 0 && n1 * d2 <= n2 * d1 && Nearest(n1, d1, q1) && Nearest(n2, d2, q2)
    ensures q1 <= q2
  {
    if q1 > q2 {
      assert (2 * q1 - 1) * d1 == 2 * (q1 * d1) - d1 && (2 * q2 + 1) * d2 == 2 * (q2 * d2) + d2;
      Between(2 * q1 - 1, n1, d1, n2, d2, 2 * q2 + 1);
      TieIsEven(n1, d1, q1);
      TieIsEven(n2, d2, q2);
    }
  }

  /** The division is the one nearest quotient with ties to even. */
  lemma {:induction false} OnlyNearest(n: int, d: int, q: int)
    requires d > 0
    ensures Nearest(n, d, q) <==> q == DivideHalfEven(n, d)
  {
    hide DivideHalfEven, Nearest;
    Rounds(n, d);
    if Nearest(n, d, q) {
      NearestMonotone(n, d, q, n, d, DivideHalfEven(n, d));
      NearestMonotone(n, d, DivideHalfEven(n, d), n, d, q);
    }
  }

  /** Rounding is odd and monotone in the rational it rounds. */
  lemma {:induction false} OddAndMonotone(n1: int, d1: int, n2: int, d2: int)
    requires d1 > 0 && d2 > 0
    ensures DivideHalfEven(-n1, d1) == -DivideHalfEven(n1, d1)
    ensures n1 * d2 <= n2 * d1 ==> DivideHalfEven(n1, d1) <= DivideHalfEven(n2, d2)
  {
    hide DivideHalfEven, Nearest;
    Rounds(n1, d1);
    Rounds(n2, d2);
    NearestOpposite(n1, d1, DivideHalfEven(n1, d1));
    OnlyNearest(-n1, d1, -DivideHalfEven(n1, d1));
    if n1 * d2 <= n2 * d1 {
      NearestMonotone(n1, d1, DivideHalfEven(n1, d1), n2, d2, DivideHalfEven(n2, d2));
    }
  }

  /** A ratio in units of a millionth; refused when the denominator or the size is out of range. */
  function FixedRatio(n: int, d: int): Option<int> {
    if d <= 0 then None
    else
      var q := DivideHalfEven(n * SCALE, d);
      if -MAX_SAFE <= q <= MAX_SAFE then Some(q) else None
  }

  /** Rounding never turns a ratio across zero, and takes it to zero exactly within half a unit of it. */
  lemma {:induction false} RatioSign(n: int, d: int)
    requires d > 0
    ensures var q := DivideHalfEven(n * SCALE, d);
      && (n >= 0 ==> q >= 0) && (n <= 0 ==> q <= 0)
      && (q >= 0 <==> -2 * SCALE * n <= d) && (q == 0 <==> -d <= 2 * SCALE * n <= d)
  {
    var q := DivideHalfEven(n * SCALE, d);
    Rounds(n * SCALE, d);
    if q >= 1 { Scaled(1, q, d); }
    if q <= -1 { Scaled(q, -1, d); }
    if q == 0 { assert q * d == 0; }
    if q == 1 { assert 2 * n * SCALE != d; }
    if q == -1 { assert 2 * n * SCALE != -d; }
  }

  // ---------------------------------------------------------------- pooled ratios

  function Sum(xs: seq<int>): int {
    if xs == [] then 0 else xs[|xs| - 1] + Sum(xs[..|xs| - 1])
  }

  lemma {:induction false} SumPositive(ds: seq<int>)
    requires forall i :: 0 <= i < |ds| ==> ds[i] > 0
    ensures Sum(ds) >= |ds|
  {
    if ds != [] { SumPositive(ds[..|ds| - 1]); }
  }

  /** If every ratio is above n/d, so is the pooled one. */
  lemma {:induction false} AllAbove(ns: seq<int>, ds: seq<int>, n: int, d: int)
    requires |ns| == |ds| && d > 0 && forall i :: 0 <= i < |ns| ==> ns[i] * d > n * ds[i]
    ensures Sum(ns) * d >= n * Sum(ds) && (ns != [] ==> Sum(ns) * d > n * Sum(ds))
  {
    if ns != [] {
      var k := |ns| - 1;
      AllAbove(ns[..k], ds[..k], n, d);
      Distribute(ns[k], Sum(ns[..k]), d);
      Distribute(ds[k], Sum(ds[..k]), n);
    }
  }

  lemma {:induction false} Negated(ns: seq<int>)
    ensures Sum(seq(|ns|, i requires 0 <= i < |ns| => -ns[i])) == -Sum(ns)
  {
    var ms := seq(|ns|, i requires 0 <= i < |ns| => -ns[i]);
    if ns != [] {
      var k := |ns| - 1;
      Negated(ns[..k]);
      assert ms[..k] == seq(k, i requires 0 <= i < k => -ns[..k][i]);
    }
  }

  lemma {:induction false} SomeBelow(ns: seq<int>, ds: seq<int>) returns (low: nat)
    requires |ns| == |ds| > 0 && Sum(ds) > 0
    ensures low < |ns| && ns[low] * Sum(ds) <= Sum(ns) * ds[low]
  {
    hide Sum;
    var n, d := Sum(ns), Sum(ds);
    if forall i :: 0 <= i < |ns| ==> ns[i] * d > n * ds[i] {
      AllAbove(ns, ds, n, d);
      assert false;
    }
    low :| 0 <= low < |ns| && ns[low] * d <= n * ds[low];
  }

  /** Some ratio is at most the pooled one and some ratio is at least it. */
  lemma {:induction false} Mediant(ns: seq<int>, ds: seq<int>) returns (low: nat, high: nat)
    requires |ns| == |ds| > 0 && forall i :: 0 <= i < |ds| ==> ds[i] > 0
    ensures low < |ns| && high < |ns| && Sum(ds) > 0
    ensures ns[low] * Sum(ds) <= Sum(ns) * ds[low] && Sum(ns) * ds[high] <= ns[high] * Sum(ds)
  {
    hide Sum;
    SumPositive(ds);
    low := SomeBelow(ns, ds);
    var ms := seq(|ns|, i requires 0 <= i < |ns| => -ns[i]);
    Negated(ns);
    high := SomeBelow(ms, ds);
    Opposite(ns[high], Sum(ds));
    Opposite(Sum(ns), ds[high]);
  }

  /** A rate in millionths. */
  function Rate(n: int, d: int): int
    requires d > 0
  {
    DivideHalfEven(n * SCALE, d)
  }

  lemma {:induction false} RateMonotone(n1: int, d1: int, n2: int, d2: int)
    requires d1 > 0 && d2 > 0 && n1 * d2 <= n2 * d1
    ensures Rate(n1, d1) <= Rate(n2, d2)
  {
    hide DivideHalfEven;
    Scaled(n1 * d2, n2 * d1, SCALE);
    assert n1 * SCALE * d2 == n1 * d2 * SCALE && n2 * SCALE * d1 == n2 * d1 * SCALE;
    OddAndMonotone(n1 * SCALE, d1, n2 * SCALE, d2);
  }

  /** A pooled rate lies between the smallest and the largest of the rates it pools, rounding included. */
  lemma {:induction false} PooledBetween(ns: seq<int>, ds: seq<int>)
    requires |ns| == |ds| > 0 && forall i :: 0 <= i < |ds| ==> ds[i] > 0
    ensures Sum(ds) > 0
    ensures exists i :: 0 <= i < |ns| && Rate(ns[i], ds[i]) <= Rate(Sum(ns), Sum(ds))
    ensures exists i :: 0 <= i < |ns| && Rate(Sum(ns), Sum(ds)) <= Rate(ns[i], ds[i])
  {
    hide Rate;
    var low, high := Mediant(ns, ds);
    RateMonotone(ns[low], ds[low], Sum(ns), Sum(ds));
    RateMonotone(Sum(ns), Sum(ds), ns[high], ds[high]);
  }
}
