/** Numbered files: a directory of n files that holds each of the numbers below n holds nothing else. */
module Numbering {

  function Below(n: nat): (s: set<nat>)
    ensures |s| == n && forall i: nat :: i in s <==> i < n
  {
    if n == 0 then {} else Below(n - 1) + {n - 1}
  }

  lemma {:induction false} EqualBySize<T>(a: set<T>, b: set<T>)
    requires a <= b && |a| == |b|
    ensures a == b
  {
    assert |b - a| == |b| - |a|;
  }

  lemma {:induction false} Gapless<V>(m: map<nat, V>)
    requires forall i: nat :: i < |m| ==> i in m
    ensures forall i: nat :: i in m <==> i < |m|
  {
    var first := Below(|m|);
    assert first <= m.Keys && |m.Keys| == |m|;
    EqualBySize(first, m.Keys);
    assert forall i: nat :: i in m <==> i in m.Keys;
  }
}
