/** Comparing calibration candidates: violation vectors, acceptance margins and the final selection.
    Metric values and bounds are in millionths. */
module CalibrationCandidates {
  import opened Options
  import opened HalfEven

  datatype Bounds = Bounds(minimum: Option<int>, maximum: Option<int>)

  /** The scale a distance from a bound is measured in: its size, at least one. */
  function Width(bound: int): (w: int)
    ensures w >= SCALE && w >= bound && w >= -bound
  {
    var a := if bound < 0 then -bound else bound;
    if a < SCALE then SCALE else a
  }

  // ---------------------------------------------------------------- violation vectors

  /** None when the ratio leaves the safe range and the assertion fails. */
  function Violation(b: Bounds, v: Option<int>): Option<int> {
    if v.None? then Some(SCALE)
    else if b.minimum.Some? && v.value < b.minimum.value then FixedRatio(b.minimum.value - v.value, Width(b.minimum.value))
    else if b.maximum.Some? && v.value > b.maximum.value then FixedRatio(v.value - b.maximum.value, Width(b.maximum.value))
    else Some(0)
  }

  /** How far v is outside b, and the width it is measured by. */
  function Excess(b: Bounds, v: int): (int, int) {
    if b.minimum.Some? && v < b.minimum.value then (b.minimum.value - v, Width(b.minimum.value))
    else if b.maximum.Some? && v > b.maximum.value then (v - b.maximum.value, Width(b.maximum.value))
    else (0, SCALE)
  }

  /** A violation is never negative, and is zero exactly when the value is within half a millionth of its bounds' width. */
  lemma {:induction false} ViolationZero(b: Bounds, v: Option<int>)
    requires Violation(b, v).Some?
    ensures Violation(b, v).value >= 0
    ensures Violation(b, v).value == 0 <==> v.Some? && 2 * SCALE * Excess(b, v.value).0 <= Excess(b, v.value).1
  {
    if v.Some? {
      var x := Excess(b, v.value);
      RatioSign(x.0, x.1);
    }
  }

  /** A zero in the incumbent's vector stays zero, and the first difference is an improvement. */
  predicate Better(a: seq<int>, b: seq<int>)
    requires |a| == |b|
  {
    && (forall i :: 0 <= i < |b| && b[i] == 0 ==> a[i] <= 0)
    && LexLess(a, b)
  }

  predicate LexLess(a: seq<int>, b: seq<int>)
    requires |a| == |b|
  {
    exists k :: 0 <= k < |a| && FirstBelow(a, b, k)
  }

  predicate FirstBelow(a: seq<int>, b: seq<int>, k: int)
    requires |a| == |b|
  {
    0 <= k < |a| && a[k] < b[k] && forall j :: 0 <= j < k ==> a[j] == b[j]
  }

  method BetterCandidate(a: seq<int>, b: seq<int>) returns (better: bool)
    requires |a| == |b|
    ensures better <==> Better(a, b)
  {
    if exists i :: 0 <= i < |b| && b[i] == 0 && a[i] > 0 { return false; }
    for i := 0 to |a|
      invariant forall j :: 0 <= j < i ==> a[j] == b[j]
    {
      if a[i] != b[i] {
        assert FirstBelow(a, b, i) <==> a[i] < b[i];
        return a[i] < b[i];
      }
    }
    better := false;
  }

  /** Candidates whose violations are never negative are strictly partially ordered. */
  lemma {:induction false} BetterIsStrictOrder(a: seq<int>, b: seq<int>, c: seq<int>)
    requires |a| == |b| == |c| && forall i :: 0 <= i < |a| ==> a[i] >= 0 && b[i] >= 0 && c[i] >= 0
    ensures !Better(a, a)
    ensures Better(a, b) ==> !Better(b, a)
    ensures Better(a, b) && Better(b, c) ==> Better(a, c)
  {
    if LexLess(a, b) && LexLess(b, c) { LexTransitive(a, b, c); }
    if LexLess(a, b) && LexLess(b, a) { LexTransitive(a, b, a); }
  }

  lemma {:induction false} LexTransitive(a: seq<int>, b: seq<int>, c: seq<int>)
    requires |a| == |b| == |c| && LexLess(a, b) && LexLess(b, c)
    ensures LexLess(a, c)
  {
    var j :| 0 <= j < |a| && FirstBelow(a, b, j);
    var k :| 0 <= k < |b| && FirstBelow(b, c, k);
    assert FirstBelow(a, c, if j < k then j else k);
  }

  // ---------------------------------------------------------------- acceptance

  datatype Relation = Observability | Minimum | Maximum

  function Failures(b: Bounds, v: Option<int>): seq<Relation> {
    if v.None? then [Observability]
    else
      (if b.minimum.Some? && v.value < b.minimum.value then [Minimum] else []) +
      (if b.maximum.Some? && v.value > b.maximum.value then [Maximum] else [])
  }

  /** The normalized distances of a value inside each of its bounds; a missing value counts as minus one. */
  function Margins(b: Bounds, v: Option<int>): Option<seq<int>> {
    if v.None? then Some([-SCALE])
    else
      var low := if b.minimum.Some? then FixedRatio(v.value - b.minimum.value, Width(b.minimum.value)) else Some(0);
      var high := if b.maximum.Some? then FixedRatio(b.maximum.value - v.value, Width(b.maximum.value)) else Some(0);
      if low.None? || high.None? then None
      else Some((if b.minimum.Some? then [low.value] else []) + (if b.maximum.Some? then [high.value] else []))
  }

  function AllMargins(bs: seq<Bounds>, vs: seq<Option<int>>): Option<seq<int>>
    requires |bs| == |vs|
  {
    if bs == [] then Some([])
    else
      var k := |bs| - 1;
      var before, last := AllMargins(bs[..k], vs[..k]), Margins(bs[k], vs[k]);
      if before.None? || last.None? then None else Some(before.value + last.value)
  }

  function AllFailures(bs: seq<Bounds>, vs: seq<Option<int>>): seq<(nat, Relation)>
    requires |bs| == |vs|
  {
    if bs == [] then []
    else
      var k := |bs| - 1;
      var last := Failures(bs[k], vs[k]);
      AllFailures(bs[..k], vs[..k]) + seq(|last|, i requires 0 <= i < |last| => (k, last[i]))
  }

  /** The least of the margins; None stands for infinity. */
  function Least(ms: seq<int>): (m: Option<int>)
    ensures m.None? <==> ms == []
    ensures m.Some? ==> m.value in ms && forall x :: x in ms ==> m.value <= x
  {
    if ms == [] then None
    else
      var rest := Least(ms[..|ms| - 1]);
      var last := ms[|ms| - 1];
      assert ms == ms[..|ms| - 1] + [last];
      if rest.None? || last < rest.value then Some(last) else rest
  }

  datatype Assessed = Assessed(accepted: bool, failures: seq<(nat, Relation)>, margin: Option<int>)

  lemma {:induction false} LeastAppend(a: seq<int>, b: seq<int>)
    ensures Least(a + b) == (if b == [] then Least(a) else if a == [] then Least(b)
                             else if Least(a).value <= Least(b).value then Least(a) else Least(b))
  {
    if b == [] {
      assert a + b == a;
    } else if a == [] {
      assert a + b == b;
    } else {
      assert forall x :: x in a + b <==> x in a || x in b;
    }
  }

  method Assess(bs: seq<Bounds>, vs: seq<Option<int>>) returns (r: Option<Assessed>)
    requires |bs| == |vs|
    ensures r.None? <==> AllMargins(bs, vs).None?
    ensures r.Some? ==> r.value.failures == AllFailures(bs, vs) && r.value.margin == Least(AllMargins(bs, vs).value)
    ensures r.Some? ==> (r.value.accepted <==> AllFailures(bs, vs) == [])
  {
    hide Margins, Failures;
    var failures: seq<(nat, Relation)>, margin: Option<int> := [], None;
    for i := 0 to |bs|
      invariant failures == AllFailures(bs[..i], vs[..i])
      invariant AllMargins(bs[..i], vs[..i]).Some? && margin == Least(AllMargins(bs[..i], vs[..i]).value)
    {
      assert bs[..i + 1][..i] == bs[..i] && vs[..i + 1][..i] == vs[..i];
      var relations, margins := Failures(bs[i], vs[i]), Margins(bs[i], vs[i]);
      if margins.None? {
        NoMargins(bs, vs, i + 1);
        return None;
      }
      failures := failures + seq(|relations|, j requires 0 <= j < |relations| => (i, relations[j]));
      LeastAppend(AllMargins(bs[..i], vs[..i]).value, margins.value);
      var least := Least(margins.value);
      if least.Some? && (margin.None? || least.value < margin.value) { margin := least; }
    }
    assert bs[..|bs|] == bs && vs[..|vs|] == vs;
    r := Some(Assessed(failures == [], failures, margin));
  }

  lemma {:induction false} NoMargins(bs: seq<Bounds>, vs: seq<Option<int>>, n: nat)
    requires |bs| == |vs| && n <= |bs| && AllMargins(bs[..n], vs[..n]).None?
    ensures AllMargins(bs, vs).None?
    decreases |bs|
  {
    if n < |bs| {
      var k := |bs| - 1;
      assert bs[..k][..n] == bs[..n] && vs[..k][..n] == vs[..n];
      NoMargins(bs[..k], vs[..k], n);
    } else {
      assert bs[..n] == bs && vs[..n] == vs;
    }
  }

  /** Within half a unit of every bound, on the scale of that bound. */
  predicate NearlyInside(b: Bounds, v: Option<int>) {
    && v.Some?
    && (b.minimum.Some? ==> 2 * SCALE * (b.minimum.value - v.value) <= Width(b.minimum.value))
    && (b.maximum.Some? ==> 2 * SCALE * (v.value - b.maximum.value) <= Width(b.maximum.value))
  }

  predicate Inside(b: Bounds, v: Option<int>) {
    && v.Some? && (b.minimum.Some? ==> b.minimum.value <= v.value) && (b.maximum.Some? ==> v.value <= b.maximum.value)
  }

  lemma {:induction false} MetricMargins(b: Bounds, v: Option<int>)
    requires Margins(b, v).Some?
    ensures NearlyInside(b, v) <==> forall m :: m in Margins(b, v).value ==> m >= 0
    ensures Inside(b, v) ==> NearlyInside(b, v)
    ensures Inside(b, v) <==> Failures(b, v) == []
  {
    hide DivideHalfEven, Width;
    if v.Some? {
      if b.minimum.Some? { RatioSign(v.value - b.minimum.value, Width(b.minimum.value)); }
      if b.maximum.Some? { RatioSign(b.maximum.value - v.value, Width(b.maximum.value)); }
      var ms := Margins(b, v).value;
      if b.minimum.Some? && b.maximum.Some? {
        assert ms[0] in ms && ms[1] in ms;
      } else if b.minimum.Some? || b.maximum.Some? {
        assert ms[0] in ms;
      }
    } else {
      assert -SCALE in Margins(b, v).value;
    }
  }

  lemma {:induction false} NoFailures(bs: seq<Bounds>, vs: seq<Option<int>>)
    requires |bs| == |vs|
    ensures AllFailures(bs, vs) == [] <==> forall i :: 0 <= i < |bs| ==> Failures(bs[i], vs[i]) == []
  {
    hide Failures;
    if bs != [] {
      var k := |bs| - 1;
      NoFailures(bs[..k], vs[..k]);
      assert forall i :: 0 <= i < k ==> bs[..k][i] == bs[i] && vs[..k][i] == vs[i];
      var last := Failures(bs[k], vs[k]);
      assert seq(|last|, i requires 0 <= i < |last| => (k, last[i])) == [] <==> last == [];
    }
  }

  predicate NoneNegative(ms: seq<int>) { forall m :: m in ms ==> m >= 0 }

  lemma {:induction false} NoNegative(bs: seq<Bounds>, vs: seq<Option<int>>)
    requires |bs| == |vs| && AllMargins(bs, vs).Some?
    ensures forall i :: 0 <= i < |bs| ==> Margins(bs[i], vs[i]).Some?
    ensures NoneNegative(AllMargins(bs, vs).value) <==> forall i :: 0 <= i < |bs| ==> NoneNegative(Margins(bs[i], vs[i]).value)
  {
    hide Margins;
    if bs != [] {
      var k := |bs| - 1;
      NoNegative(bs[..k], vs[..k]);
      assert forall i :: 0 <= i < k ==> bs[..k][i] == bs[i] && vs[..k][i] == vs[i];
      var a, b := AllMargins(bs[..k], vs[..k]).value, Margins(bs[k], vs[k]).value;
      assert AllMargins(bs, vs).value == a + b;
      assert NoneNegative(a + b) <==> NoneNegative(a) && NoneNegative(b) by {
        assert forall m :: m in a + b <==> m in a || m in b;
      }
    }
  }

  /** Acceptance is every value being inside its bounds, and it forces a non-negative margin; the margin
      is non-negative exactly when every value is inside its bounds up to half a unit of rounding. */
  lemma {:induction false} AcceptedMargin(bs: seq<Bounds>, vs: seq<Option<int>>)
    requires |bs| == |vs| && AllMargins(bs, vs).Some?
    ensures AllFailures(bs, vs) == [] <==> forall i :: 0 <= i < |bs| ==> Inside(bs[i], vs[i])
    ensures (forall m :: m in AllMargins(bs, vs).value ==> m >= 0) <==> forall i :: 0 <= i < |bs| ==> NearlyInside(bs[i], vs[i])
    ensures AllFailures(bs, vs) == [] ==> forall m :: m in AllMargins(bs, vs).value ==> m >= 0
  {
    hide Inside, NearlyInside, Margins, Failures, AllMargins, AllFailures;
    NoFailures(bs, vs);
    NoNegative(bs, vs);
    forall i | 0 <= i < |bs|
      ensures NearlyInside(bs[i], vs[i]) <==> NoneNegative(Margins(bs[i], vs[i]).value)
      ensures Inside(bs[i], vs[i]) ==> NearlyInside(bs[i], vs[i])
      ensures Inside(bs[i], vs[i]) <==> Failures(bs[i], vs[i]) == []
    {
      MetricMargins(bs[i], vs[i]);
    }
  }

  /** A rejected candidate can show a zero margin: 9.999999 against a minimum of 10. */
  lemma {:induction false} ZeroMarginRejected()
    ensures var b, v := Bounds(Some(10 * SCALE), None), Some(10 * SCALE - 1);
      Margins(b, v) == Some([0]) && Failures(b, v) == [Minimum] && Violation(b, v) == Some(0)
  {
    assert Width(10 * SCALE) == 10 * SCALE;
    assert DivideHalfEven(-1 * SCALE, 10 * SCALE) == 0 == DivideHalfEven(SCALE, 10 * SCALE);
    assert [0] + [] == [0];
  }

  // ---------------------------------------------------------------- selection

  /** An assessed candidate: hashes compare as the hexadecimal numbers they spell. */
  datatype Candidate = Candidate(hash: nat, accepted: bool, margin: Option<int>, passes: int, variance: int, changes: int)

  predicate MarginAbove(a: Option<int>, b: Option<int>) { b.Some? && (a.None? || a.value > b.value) }

  /** a is listed before b: higher scores first, then the lower hash. */
  predicate Ahead(a: Candidate, b: Candidate) {
    if a.margin != b.margin then MarginAbove(a.margin, b.margin)
    else if a.passes != b.passes then a.passes > b.passes
    else if a.variance != b.variance then a.variance < b.variance
    else if a.changes != b.changes then a.changes < b.changes
    else a.hash < b.hash
  }

  function Select(cs: seq<Candidate>): (s: Option<Candidate>)
    ensures s.Some? ==> s.value in cs && s.value.accepted
    ensures s.None? <==> forall c :: c in cs ==> !c.accepted
  {
    if cs == [] then None
    else
      var k := |cs| - 1;
      var rest, c := Select(cs[..k]), cs[k];
      assert cs == cs[..k] + [c];
      if c.accepted && (rest.None? || Ahead(c, rest.value)) then Some(c) else rest
  }

  lemma {:induction false} AheadTotal(a: Candidate, b: Candidate, c: Candidate)
    ensures !Ahead(a, a) && (Ahead(a, b) ==> !Ahead(b, a)) && (Ahead(a, b) && Ahead(b, c) ==> Ahead(a, c))
    ensures a.hash != b.hash ==> Ahead(a, b) || Ahead(b, a)
  {
  }

  lemma {:induction false} SelectedIsFirst(cs: seq<Candidate>, c: Candidate)
    requires c in cs && c.accepted
    ensures Select(cs).Some? && !Ahead(c, Select(cs).value)
  {
    hide Ahead;
    var k := |cs| - 1;
    assert cs == cs[..k] + [cs[k]];
    if c in cs[..k] {
      SelectedIsFirst(cs[..k], c);
      AheadTotal(c, cs[k], Select(cs[..k]).value);
    }
    AheadTotal(c, c, c);
    if Select(cs[..k]).Some? { AheadTotal(c, Select(cs[..k]).value, c); }
  }

  /** The selection is the one accepted candidate ahead of every other, whatever the order of the input. */
  lemma {:induction false} SelectionUnique(cs: seq<Candidate>, ds: seq<Candidate>)
    requires multiset(cs) == multiset(ds)
    requires forall a, b :: a in cs && b in cs && a.hash == b.hash ==> a == b
    ensures Select(cs) == Select(ds)
    ensures Select(cs).Some? ==> forall c :: c in cs && c.accepted && c != Select(cs).value ==> Ahead(Select(cs).value, c)
  {
    hide Ahead;
    assert forall c :: c in cs <==> c in ds by {
      assert forall c :: c in cs <==> c in multiset(cs);
      assert forall c :: c in ds <==> c in multiset(ds);
    }
    if Select(cs).Some? {
      var s := Select(cs).value;
      forall c | c in cs && c.accepted && c != s
        ensures Ahead(s, c)
      {
        SelectedIsFirst(cs, c);
        AheadTotal(c, s, c);
      }
      SelectedIsFirst(ds, s);
      var t := Select(ds).value;
      SelectedIsFirst(cs, t);
      AheadTotal(s, t, s);
    }
  }
}
