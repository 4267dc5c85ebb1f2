/** What a redaction takes away and what it leaves, stated on the bundle and its result alone. */
module RedactionReach {
  import opened Options
  import opened Redaction

  // ---------------------------------------------------------------- what the tombstones protect

  /** The artifact of this tombstone is present, so its selection counts. */
  predicate Live(b: Bundle, t: Tombstone) { t in b.tombstones && t.artifact in b.payloads && t.selection.Some? }

  ghost predicate ProtectedText(b: Bundle, n: string) { exists t :: Live(b, t) && n in t.selection.value.texts }
  ghost predicate ProtectedBytes(b: Bundle, n: Bytes) { n != [] && exists t :: Live(b, t) && n in t.selection.value.raw }
  ghost predicate ProtectedField(b: Bundle, f: (string, string)) { exists t :: Live(b, t) && t.selection.value.field == Some(f) }

  /** A tombstone names it, or an earlier redaction removed it. */
  ghost predicate Named(b: Bundle, r: Ref) {
    r in b.removed || exists t :: t in b.tombstones && (r == t.artifact || r in t.derivations)
  }

  ghost predicate IsTombstone(b: Bundle, r: Ref) { exists t :: t in b.tombstones && t.payload == r }

  /** Some stretch of the whole is this part. */
  ghost predicate Holds<T(!new)>(whole: seq<T>, part: seq<T>) { exists before: seq<T>, after: seq<T> :: whole == before + part + after }

  lemma {:induction false} HoldsContains<T(!new)>(whole: seq<T>, part: seq<T>)
    ensures Holds(whole, part) <==> Contains(whole, part)
  {
    if Holds(whole, part) {
      var before: seq<T>, after: seq<T> :| whole == before + part + after;
      assert OccursAt(whole, part, |before|);
    }
    if Contains(whole, part) {
      var i :| 0 <= i <= |whole| - |part| && OccursAt(whole, part, i);
      assert whole == whole[..i] + part + whole[i + |part|..];
    }
  }

  ghost predicate RepeatsText(b: Bundle, strings: set<string>) {
    exists v: string, n: string :: v in strings && ProtectedText(b, n) && Holds(v, n)
  }

  ghost predicate RepeatsBytes(b: Bundle, chunks: set<Bytes>) {
    exists c: Bytes, n: Bytes :: c in chunks && ProtectedBytes(b, n) && Holds(c, n)
  }

  /** The payload repeats something protected, or mentions one of these references. */
  ghost predicate Repeats(b: Bundle, p: Payload) {
    || RepeatsText(b, p.strings) || RepeatsBytes(b, p.chunks)
    || (exists f :: f in p.fields && ProtectedField(b, f))
  }

  ghost predicate Mentions(b: Bundle, r: Ref, v: Ref)
    requires r in b.payloads
  {
    r !in b.audit && v in b.payloads[r].mentions
  }

  /** Present and more than the shared empty output. */
  predicate Substantial(b: Bundle, r: Ref) { r in b.payloads && !b.payloads[r].blank }

  // ---------------------------------------------------------------- targets are what the tombstones say

  ghost predicate TargetsTold(b: Bundle, n: nat, g: Targets)
    requires n <= |b.tombstones|
  {
    && (forall r :: r in g.removed <==> NamedBefore(b, n, r))
    && (forall x :: x in g.texts <==> exists i :: 0 <= i < n && Live(b, b.tombstones[i]) && x in b.tombstones[i].selection.value.texts)
    && (forall x :: x in g.raw <==> exists i :: 0 <= i < n && Live(b, b.tombstones[i]) && x in b.tombstones[i].selection.value.raw)
    && (forall f :: f in g.fields <==> exists i :: 0 <= i < n && Live(b, b.tombstones[i]) && b.tombstones[i].selection.value.field == Some(f))
    && forall i :: 0 <= i < n ==> Grounded(b, i)
  }

  /** What tombstone i names is there, or was removed or named before: its artifact as it says, or by a derivation of its own. */
  ghost predicate Grounded(b: Bundle, i: nat)
    requires i < |b.tombstones|
  {
    var t := b.tombstones[i];
    && (t.artifact in b.payloads ==> t.selection.Some? && b.payloads[t.artifact].digest == t.digest)
    && (t.artifact !in b.payloads ==> NamedBefore(b, i, t.artifact) || t.artifact in t.derivations)
    && (forall r :: r in t.derivations ==> r in b.payloads || NamedBefore(b, i, r))
  }

  ghost predicate NamedBefore(b: Bundle, i: nat, r: Ref)
    requires i <= |b.tombstones|
  {
    r in b.removed || exists j :: 0 <= j < i && (r == b.tombstones[j].artifact || r in b.tombstones[j].derivations)
  }

  lemma {:induction false} TargetsTell(b: Bundle, n: nat)
    requires n <= |b.tombstones| && TargetsOf(b, n).Some?
    ensures TargetsTold(b, n, TargetsOf(b, n).value)
  {
    if n > 0 {
      TargetsTell(b, n - 1);
      TargetTells(b, n, TargetsOf(b, n - 1).value);
    }
  }

  lemma {:induction false} TargetTells(b: Bundle, n: nat, g: Targets)
    requires 0 < n <= |b.tombstones| && TargetsTold(b, n - 1, g) && Target(b, b.tombstones[n - 1], g).Some?
    ensures TargetsTold(b, n, Target(b, b.tombstones[n - 1], g).value)
  {
  }

  /** Tombstones whose artifacts and derivations are present, with the right digest and a selection, are accepted. */
  lemma {:induction false} PresentTargets(b: Bundle, n: nat)
    requires n <= |b.tombstones|
    requires forall t :: t in b.tombstones ==>
      && (forall r :: r in t.derivations ==> r in b.payloads)
      && t.artifact in b.payloads && b.payloads[t.artifact].digest == t.digest && t.selection.Some?
    ensures TargetsOf(b, n).Some?
  {
    if n > 0 { PresentTargets(b, n - 1); }
  }

  // ---------------------------------------------------------------- the reasons something is removed

  /** Why r goes once s is removed: it was named, it was derived from something in s, or it repeats or mentions it. */
  ghost predicate Reason(b: Bundle, s: set<Ref>, r: Ref) {
    || Named(b, r)
    || (exists l, source :: l in b.links && Derived(b, l, source, r) && source in s)
    || (r in b.payloads && !IsTombstone(b, r) && (Repeats(b, b.payloads[r]) || exists v :: v in s && Mentions(b, r, v)))
  }

  predicate Derived(b: Bundle, l: Link, source: Ref, d: Ref) {
    source in l.sources && d in l.derivatives && Substantial(b, source) && Substantial(b, d) && source != d
  }

  lemma {:induction false} ProtectedTold(b: Bundle, g: Targets)
    requires TargetsTold(b, |b.tombstones|, g)
    ensures forall r :: r in g.removed <==> Named(b, r)
    ensures forall n :: n in g.texts <==> ProtectedText(b, n)
    ensures forall n :: n in g.raw && n != [] <==> ProtectedBytes(b, n)
    ensures forall f :: f in g.fields <==> ProtectedField(b, f)
  {
  }

  lemma {:induction false} TextsTold(b: Bundle, g: Targets, strings: set<string>)
    requires TargetsTold(b, |b.tombstones|, g)
    ensures HasText(strings, g.texts) <==> RepeatsText(b, strings)
  {
    ProtectedTold(b, g);
    hide TargetsTold, ProtectedText, Contains, Holds;
    if HasText(strings, g.texts) {
      var v, n :| v in strings && n in g.texts && Contains(v, n);
      HoldsContains(v, n);
    }
    if RepeatsText(b, strings) {
      var v: string, n: string :| v in strings && ProtectedText(b, n) && Holds(v, n);
      HoldsContains(v, n);
      assert n in g.texts;
    }
  }

  lemma {:induction false} BytesTold(b: Bundle, g: Targets, p: Payload)
    requires TargetsTold(b, |b.tombstones|, g)
    ensures HasRaw(p, g.raw) <==> RepeatsBytes(b, p.chunks)
  {
    ProtectedTold(b, g);
    hide TargetsTold, ProtectedBytes, Contains, Holds;
    if HasRaw(p, g.raw) {
      var c: Bytes, n: Bytes :| c in p.chunks && n in g.raw && n != [] && Contains(c, n);
      HoldsContains(c, n);
    }
    if RepeatsBytes(b, p.chunks) {
      var c: Bytes, n: Bytes :| c in p.chunks && ProtectedBytes(b, n) && Holds(c, n);
      HoldsContains(c, n);
      assert n in g.raw && n != [];
    }
  }

  lemma {:induction false} EmbedsRepeats(b: Bundle, g: Targets, r: Ref, s: set<Ref>)
    requires r in b.payloads && TargetsTold(b, |b.tombstones|, g)
    ensures Embeds(b, g, r, s) <==> Repeats(b, b.payloads[r]) || exists v :: v in s && Mentions(b, r, v)
  {
    ProtectedTold(b, g);
    TextsTold(b, g, b.payloads[r].strings);
    BytesTold(b, g, b.payloads[r]);
    hide TargetsTold, RepeatsText, RepeatsBytes, ProtectedField, HasText, HasRaw;
  }

  lemma {:induction false} TombstoneRefs(b: Bundle, r: Ref)
    ensures r in Protected(b) <==> IsTombstone(b, r)
  {
  }

  /** What a redaction removes is closed under the reasons: whatever has one goes. */
  lemma {:induction false} ReasonsFollowed(b: Bundle, r: Ref)
    requires Result(b).Redacted? && Reason(b, Result(b).removed, r)
    ensures r in Result(b).removed
  {
    hide Closure, TargetsOf, Repeats, Embeds, ProtectedClean, TombstonesClean, Protected, IsTombstone;
    var g, s := AllTargets(b).value, Result(b).removed;
    TargetsTell(b, |b.tombstones|);
    ProtectedTold(b, g);
    hide TargetsTold, Named;
    ClosureIsLeast(b, g);
    LeastHolds(b, g, s);
    if r in b.payloads {
      EmbedsRepeats(b, g, r, s);
      TombstoneRefs(b, r);
    }
    if l, source :| l in b.links && Derived(b, l, source, r) && source in s {
      assert Edge(b, source, r);
    }
  }

  /** And nothing else does: everything removed has a reason in the rest of what is removed. */
  lemma {:induction false} RemovedForAReason(b: Bundle, r: Ref)
    requires Result(b).Redacted? && r in Result(b).removed
    ensures Reason(b, Result(b).removed - {r}, r)
  {
    hide Closure, TargetsOf, Repeats, ProtectedClean, TombstonesClean, Protected, IsTombstone;
    var g, s := AllTargets(b).value, Result(b).removed;
    TargetsTell(b, |b.tombstones|);
    ProtectedTold(b, g);
    hide TargetsTold, Named;
    ClosureIsLeast(b, g);
    LeastHolds(b, g, s);
    if !Reason(b, s - {r}, r) {
      hide Embeds;
      assert Enough(b, g, s - {r}) by { StaysEnough(b, g, s, r); }
      LeastWithin(b, g, s, s - {r});
    }
  }

  lemma {:induction false} LeastWithin(b: Bundle, g: Targets, s: set<Ref>, u: set<Ref>)
    requires Least(b, g, s) && Enough(b, g, u)
    ensures s <= u
  {
    hide Enough;
  }

  lemma {:induction false} EdgeDerives(b: Bundle, q: Ref, d: Ref)
    requires Edge(b, q, d)
    ensures exists l :: l in b.links && Derived(b, l, q, d)
  {
    var l :| l in b.links && q in l.sources && d in l.derivatives;
    assert Derived(b, l, q, d);
  }

  lemma {:induction false} StaysEnough(b: Bundle, g: Targets, s: set<Ref>, r: Ref)
    requires TargetsTold(b, |b.tombstones|, g) && g.removed <= s && Closed(b, g, s) && !Reason(b, s - {r}, r)
    ensures Enough(b, g, s - {r})
  {
    ProtectedTold(b, g);
    hide TargetsTold, Repeats, Protected, IsTombstone, Named, Edge, Embeds, Derived;
    forall q, d | q in s - {r} && Edge(b, q, d)
      ensures d in s - {r}
    {
      EdgeDerives(b, q, d);
    }
    forall q | q in b.payloads && q !in Protected(b) && Embeds(b, g, q, s - {r})
      ensures q in s - {r}
    {
      EmbedsMonotone(b, g, q, s - {r}, s);
      EmbedsRepeats(b, g, q, s - {r});
      TombstoneRefs(b, q);
    }
  }

  // ---------------------------------------------------------------- what is left

  /** What is left is every payload not removed, all tombstones among it, and nothing left holds protected bytes, nor,
      tombstones aside, a protected text or field, or a reference that was removed. */
  lemma {:induction false} NothingProtectedLeft(b: Bundle, r: Ref)
    requires Result(b).Redacted? && r in b.payloads
    ensures b.tombstones != [] && Result(b).payloads == map q | q in b.payloads && q !in Result(b).removed :: b.payloads[q]
    ensures IsTombstone(b, r) ==> r !in Result(b).removed
    ensures r !in Result(b).removed ==>
      && !RepeatsBytes(b, b.payloads[r].chunks)
      && (!IsTombstone(b, r) ==> !Repeats(b, b.payloads[r]) && forall v :: v in Result(b).removed ==> !Mentions(b, r, v))
  {
    TombstoneRefs(b, r);
    ResultSpares(b);
    if r !in Result(b).removed {
      if IsTombstone(b, r) { TombstonesHold(b, r); }
      hide Result, Repeats, IsTombstone, Named;
      if !IsTombstone(b, r) && (Repeats(b, b.payloads[r]) || exists v :: v in Result(b).removed && Mentions(b, r, v)) {
        ReasonsFollowed(b, r);
      }
    }
  }

  lemma {:induction false} TombstonesHold(b: Bundle, r: Ref)
    requires Redactable(b) && r in b.payloads && IsTombstone(b, r)
    ensures !RepeatsBytes(b, b.payloads[r].chunks)
  {
    var g := AllTargets(b).value;
    TargetsTell(b, |b.tombstones|);
    BytesTold(b, g, b.payloads[r]);
    TombstoneRefs(b, r);
    hide Closure, Erasable, TargetsOf, TombstonesClean, TargetsTold, RepeatsBytes, HasRaw, IsTombstone, Protected;
  }

  /** No tombstone's own metadata repeats a protected text, and every artifact a tombstone names was there as it says. */
  lemma {:induction false} TombstonesFit(b: Bundle, t: Tombstone)
    requires Result(b).Redacted? && t in b.tombstones
    ensures !RepeatsText(b, t.strings)
    ensures exists i :: 0 <= i < |b.tombstones| && b.tombstones[i] == t && Grounded(b, i)
    ensures t.artifact in Result(b).removed && forall r :: r in t.derivations ==> r in Result(b).removed
  {
    hide Closure, Erasable, TargetsOf, ProtectedClean;
    var g := AllTargets(b).value;
    TargetsTell(b, |b.tombstones|);
    ProtectedTold(b, g);
    var i :| 0 <= i < |b.tombstones| && b.tombstones[i] == t;
    assert Grounded(b, i);
    TextsTold(b, g, t.strings);
    hide TargetsTold, RepeatsText, HasText;
    assert Named(b, t.artifact) && forall r :: r in t.derivations ==> Named(b, r);
    hide Named;
    ReasonsFollowed(b, t.artifact);
    forall r | r in t.derivations
      ensures r in Result(b).removed
    {
      ReasonsFollowed(b, r);
    }
  }
}
