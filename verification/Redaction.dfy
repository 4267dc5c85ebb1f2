/** Redaction of an evidence bundle: what is removed is the least set containing what the tombstones name
    and closed under provenance and under embedding of removed references or protected content. */
module Redaction {
  import opened Options
  import EvidenceChain

  /** Content addresses. */
  type Ref = EvidenceChain.Ref
  type Bytes = seq<nat>

  /** A payload through the scanners' eyes: every string and byte string it decodes to, the references among
      those strings, every field and its canonical value, its own digest, and whether it is the empty raw output. */
  datatype Payload = Payload(digest: Ref, strings: set<string>, mentions: set<Ref>, chunks: set<Bytes>, fields: set<(string, string)>, blank: bool)

  /** What a tombstone's field selects: texts and raw bytes to erase, and the field itself unless everything is selected. */
  datatype Selection = Selection(texts: set<string>, raw: set<Bytes>, field: Option<(string, string)>)

  /** `selection` is None when the field is absent or its encoding is invalid; `strings` is its own metadata. */
  datatype Tombstone = Tombstone(payload: Ref, artifact: Ref, digest: Ref, derivations: seq<Ref>, selection: Option<Selection>,
                                 strings: set<string>)

  /** Derivatives were produced from sources. */
  datatype Link = Link(sources: seq<Ref>, derivatives: seq<Ref>)

  /** `metadataClean` says whether what is left outside payloads is free of protected content. */
  datatype Bundle = Bundle(payloads: map<Ref, Payload>, tombstones: seq<Tombstone>, audit: set<Ref>, removed: set<Ref>,
                           links: seq<Link>, metadataClean: (set<Ref>, Targets) -> bool)

  datatype Targets = Targets(removed: set<Ref>, texts: set<string>, raw: set<Bytes>, fields: set<(string, string)>)

  function Protected(b: Bundle): set<Ref> { set t | t in b.tombstones :: t.payload }

  // ---------------------------------------------------------------- what the tombstones name

  function Target(b: Bundle, t: Tombstone, g: Targets): Option<Targets> {
    if exists r :: r in t.derivations && r !in b.payloads && r !in g.removed then None
    else
      var removed := g.removed + (set r | r in t.derivations);
      if t.artifact !in b.payloads then
        if t.artifact in removed then Some(g.(removed := removed)) else None
      else if b.payloads[t.artifact].digest != t.digest || t.selection.None? then None
      else
        var s := t.selection.value;
        Some(Targets(removed + {t.artifact}, g.texts + s.texts, g.raw + s.raw,
                     g.fields + if s.field.Some? then {s.field.value} else {}))
  }

  function TargetsOf(b: Bundle, n: nat): Option<Targets>
    requires n <= |b.tombstones|
  {
    if n == 0 then Some(Targets(b.removed, {}, {}, {}))
    else
      var before := TargetsOf(b, n - 1);
      if before.None? then None else Target(b, b.tombstones[n - 1], before.value)
  }

  function AllTargets(b: Bundle): Option<Targets> { TargetsOf(b, |b.tombstones|) }

  // ---------------------------------------------------------------- closure

  /** An artifact that takes part in provenance: present, and not the shared empty output. */
  predicate Traced(b: Bundle, r: Ref) { r in b.payloads && !b.payloads[r].blank }

  predicate Edge(b: Bundle, source: Ref, derivative: Ref) {
    && Traced(b, source) && Traced(b, derivative) && source != derivative
    && exists l :: l in b.links && source in l.sources && derivative in l.derivatives
  }

  predicate Contains<T(==)>(whole: seq<T>, part: seq<T>) {
    exists i :: 0 <= i <= |whole| - |part| && OccursAt(whole, part, i)
  }

  predicate OccursAt<T(==)>(whole: seq<T>, part: seq<T>, i: nat) { i + |part| <= |whole| && whole[i..i + |part|] == part }

  /** Raw scanning ignores empty needles. */
  predicate HasRaw(p: Payload, raw: set<Bytes>) {
    exists c: Bytes, n: Bytes :: c in p.chunks && n in raw && n != [] && Contains(c, n)
  }

  predicate HasText(strings: set<string>, texts: set<string>) {
    exists v, n :: v in strings && n in texts && Contains(v, n)
  }

  /** The content predicates that make a payload follow the set `removed`. */
  predicate Embeds(b: Bundle, g: Targets, r: Ref, removed: set<Ref>)
    requires r in b.payloads
  {
    var p := b.payloads[r];
    || (r !in b.audit && exists v :: v in p.mentions && v in removed)
    || HasText(p.strings, g.texts)
    || HasRaw(p, g.raw)
    || exists f :: f in p.fields && f in g.fields
  }

  ghost predicate Closed(b: Bundle, g: Targets, s: set<Ref>) {
    && (forall r, d :: r in s && Edge(b, r, d) ==> d in s)
    && (forall r :: r in b.payloads && r !in Protected(b) && Embeds(b, g, r, s) ==> r in s)
  }

  ghost predicate Enough(b: Bundle, g: Targets, s: set<Ref>) { g.removed <= s && Closed(b, g, s) }

  ghost predicate Least(b: Bundle, g: Targets, s: set<Ref>) {
    Enough(b, g, s) && forall u :: Enough(b, g, u) ==> s <= u
  }

  ghost predicate Necessary(b: Bundle, g: Targets, s: set<Ref>) {
    forall u :: Enough(b, g, u) ==> s <= u
  }

  /** The tombstones can be kept: some sufficient set spares them. */
  ghost predicate Erasable(b: Bundle, g: Targets) {
    exists u :: Enough(b, g, u) && u !! Protected(b)
  }

  lemma {:induction false} EmbedsMonotone(b: Bundle, g: Targets, r: Ref, s: set<Ref>, u: set<Ref>)
    requires r in b.payloads && s <= u && Embeds(b, g, r, s)
    ensures Embeds(b, g, r, u)
  {
    hide HasText, HasRaw;
  }

  lemma {:induction false} LeastUnique(b: Bundle, g: Targets, s: set<Ref>, u: set<Ref>)
    requires Least(b, g, s) && Least(b, g, u)
    ensures s == u
  {
    hide Enough;
  }

  /** Adding what an edge leads to, or what embeds something removed, adds only what is necessary. */
  lemma {:induction false} NecessaryEdge(b: Bundle, g: Targets, s: set<Ref>, r: Ref, d: Ref)
    requires Necessary(b, g, s) && r in s && Edge(b, r, d)
    ensures Necessary(b, g, s + {d})
  {
    hide Edge, Embeds;
  }

  lemma {:induction false} NecessaryEmbedding(b: Bundle, g: Targets, s: set<Ref>, r: Ref)
    requires Necessary(b, g, s) && r in b.payloads && r !in Protected(b) && Embeds(b, g, r, s)
    ensures Necessary(b, g, s + {r})
  {
    hide Edge, Embeds, Protected;
    forall u | Enough(b, g, u)
      ensures s + {r} <= u
    {
      EmbedsMonotone(b, g, r, s, u);
    }
  }

  /** What every sufficient set contains: the least one. */
  ghost function Closure(b: Bundle, g: Targets): set<Ref> {
    set r | r in g.removed + b.payloads.Keys && forall u :: Enough(b, g, u) ==> r in u
  }

  lemma {:induction false} LeastIsClosure(b: Bundle, g: Targets, s: set<Ref>)
    requires Least(b, g, s)
    ensures s == Closure(b, g)
  {
    var all := g.removed + b.payloads.Keys;
    assert Enough(b, g, all) by { hide Embeds, Protected; }
    hide Enough;
    assert s <= all;
  }

  lemma {:induction false} ClosureIsLeast(b: Bundle, g: Targets)
    ensures Least(b, g, Closure(b, g))
  {
    var s := Closure(b, g);
    var all := g.removed + b.payloads.Keys;
    assert Enough(b, g, all) by { hide Embeds, Protected; }
    hide Enough, Protected, Edge, Embeds;
    forall r, d | r in s && Edge(b, r, d)
      ensures d in s
    {
      SpreadsAlong(b, g, r, d);
    }
    forall r | r in b.payloads && r !in Protected(b) && Embeds(b, g, r, s)
      ensures r in s
    {
      forall u | Enough(b, g, u)
        ensures r in u
      {
        assert s <= u;
        EmbedsMonotone(b, g, r, s, u);
        SufficientTakes(b, g, u, r);
      }
    }
    assert Enough(b, g, s) by { SufficientHas(b, g, s); }
  }

  lemma {:induction false} SpreadsAlong(b: Bundle, g: Targets, r: Ref, d: Ref)
    requires r in Closure(b, g) && Edge(b, r, d)
    ensures d in Closure(b, g)
  {
  }

  lemma {:induction false} SufficientTakes(b: Bundle, g: Targets, u: set<Ref>, r: Ref)
    requires Enough(b, g, u) && r in b.payloads && r !in Protected(b) && Embeds(b, g, r, u)
    ensures r in u
  {
    hide Edge, Embeds, Protected;
  }

  lemma {:induction false} SufficientHas(b: Bundle, g: Targets, s: set<Ref>)
    requires s == Closure(b, g) && Closed(b, g, s)
    ensures Enough(b, g, s)
  {
    hide Closed, Edge, Embeds, Protected;
  }

  // ---------------------------------------------------------------- the algorithm

  datatype Outcome = Redacted(removed: set<Ref>, payloads: map<Ref, Payload>) | Rejected

  lemma {:induction false} NothingLeft(a: set<Ref>, b: set<Ref>)
    requires a <= b && b - a == {}
    ensures a == b
  {
    assert forall x :: x in b ==> x in a || x in b - a;
  }

  /** One sweep along provenance edges; references added on the way are swept too. */
  method SweepEdges(b: Bundle, g: Targets, start: set<Ref>) returns (ok: bool, removed: set<Ref>)
    requires Necessary(b, g, start)
    ensures start <= removed && Necessary(b, g, removed) && removed <= start + b.payloads.Keys
    ensures ok ==> forall r, d :: r in removed && Edge(b, r, d) ==> d in removed && d !in Protected(b)
    ensures !ok ==> exists r, d :: r in removed && Edge(b, r, d) && d in Protected(b)
  {
    hide Edge, Necessary, Protected;
    removed := start;
    var visited: set<Ref> := {};
    while visited != removed
      invariant visited <= removed && start <= removed && Necessary(b, g, removed) && removed <= start + b.payloads.Keys
      invariant forall r, d :: r in visited && Edge(b, r, d) ==> d in removed && d !in Protected(b)
      decreases |start + b.payloads.Keys - visited|
    {
      if removed - visited == {} { NothingLeft(visited, removed); }
      var r :| r in removed - visited;
      ghost var before := visited;
      visited := visited + {r};
      assert start + b.payloads.Keys - visited < start + b.payloads.Keys - before;
      var found: bool;
      found, removed := Derivatives(b, g, r, removed);
      if !found { return false, removed; }
    }
    ok := true;
  }

  method Derivatives(b: Bundle, g: Targets, r: Ref, start: set<Ref>) returns (ok: bool, removed: set<Ref>)
    requires Necessary(b, g, start) && r in start
    ensures start <= removed <= start + b.payloads.Keys && Necessary(b, g, removed)
    ensures ok ==> forall d :: Edge(b, r, d) ==> d in removed && d !in Protected(b)
    ensures !ok ==> exists d :: Edge(b, r, d) && d in Protected(b)
  {
    hide Necessary, Protected;
    removed := start;
    var targets := set d | d in b.payloads.Keys && Edge(b, r, d);
    var left := targets;
    while left != {}
      invariant left <= targets && start <= removed <= start + b.payloads.Keys && Necessary(b, g, removed)
      invariant forall d :: d in targets - left ==> d in removed && d !in Protected(b)
    {
      var d :| d in left;
      left := left - {d};
      if d in Protected(b) { return false, removed; }
      NecessaryEdge(b, g, removed, r, d);
      removed := removed + {d};
    }
    assert forall d :: Edge(b, r, d) ==> d in targets;
    ok := true;
  }

  /** One sweep over the payloads' contents. */
  method SweepContents(b: Bundle, g: Targets, start: set<Ref>) returns (removed: set<Ref>)
    requires Necessary(b, g, start)
    ensures start <= removed <= start + b.payloads.Keys && Necessary(b, g, removed)
    ensures removed == start ==> forall r :: r in b.payloads && r !in Protected(b) && Embeds(b, g, r, start) ==> r in start
  {
    hide Necessary, Embeds, Protected;
    removed := start;
    var left := b.payloads.Keys;
    while left != {}
      invariant left <= b.payloads.Keys && start <= removed <= start + b.payloads.Keys && Necessary(b, g, removed)
      invariant removed == start ==>
        forall r :: r in b.payloads.Keys - left && r !in Protected(b) && Embeds(b, g, r, start) ==> r in start
    {
      var r :| r in left;
      left := left - {r};
      if r !in removed && r !in Protected(b) && Embeds(b, g, r, removed) {
        NecessaryEmbedding(b, g, removed, r);
        removed := removed + {r};
      }
    }
  }

  /** Sweeps until nothing changes. */
  method Close(b: Bundle, g: Targets) returns (ok: bool, removed: set<Ref>)
    ensures ok ==> Least(b, g, removed) && removed !! Protected(b)
    ensures ok <==> Erasable(b, g)
  {
    hide Edge, Embeds, Protected;
    removed := g.removed;
    var changed := true;
    ghost var universe := g.removed + b.payloads.Keys;
    while changed
      invariant g.removed <= removed <= universe && Necessary(b, g, removed)
      invariant !changed ==> Closed(b, g, removed)
      decreases |universe - removed|, changed
    {
      var before := removed;
      var swept: bool;
      swept, removed := SweepEdges(b, g, removed);
      if !swept {
        ghost var r, d :| r in removed && Edge(b, r, d) && d in Protected(b);
        NecessaryEdge(b, g, removed, r, d);
        NotErasable(b, g, removed + {d}, d);
        return false, removed;
      }
      removed := SweepContents(b, g, removed);
      changed := removed != before;
      if changed { Shrinks(universe, before, removed); }
    }
    if removed !! Protected(b) {
      assert Enough(b, g, removed);
      ok := true;
    } else {
      ghost var d :| d in removed && d in Protected(b);
      NotErasable(b, g, removed, d);
      ok := false;
    }
  }

  lemma {:induction false} Shrinks(universe: set<Ref>, s: set<Ref>, u: set<Ref>)
    requires s <= u <= universe && s != u
    ensures |universe - u| < |universe - s|
  {
    var more := (universe - s) - (universe - u);
    assert universe - s == (universe - u) + more;
    if u - s == {} { NothingLeft(s, u); }
    var x :| x in u - s;
    assert x in more;
  }

  lemma {:induction false} NotErasable(b: Bundle, g: Targets, s: set<Ref>, d: Ref)
    requires Necessary(b, g, s) && d in s && d in Protected(b)
    ensures !Erasable(b, g)
  {
    hide Closed, Protected;
  }

  // ---------------------------------------------------------------- the whole transformation

  predicate TombstonesClean(b: Bundle, g: Targets) { forall t :: t in b.tombstones ==> !HasText(t.strings, g.texts) }

  /** Tombstones that stay must not themselves contain protected bytes. */
  predicate ProtectedClean(b: Bundle, g: Targets) {
    forall r :: r in b.payloads && r in Protected(b) ==> !HasRaw(b.payloads[r], g.raw)
  }

  /** What redaction demands of a bundle. */
  ghost predicate Redactable(b: Bundle) {
    && b.tombstones != [] && AllTargets(b).Some?
    && var g := AllTargets(b).value;
    && Erasable(b, g) && TombstonesClean(b, g) && ProtectedClean(b, g) && b.metadataClean(Closure(b, g), g)
  }

  /** What redaction makes of a bundle. */
  ghost function Result(b: Bundle): Outcome {
    if Redactable(b) then
      var s := Closure(b, AllTargets(b).value);
      Redacted(s, b.payloads - s)
    else Rejected
  }

  /** A redaction removes what earlier ones removed and no tombstone. */
  lemma {:induction false} ResultSpares(b: Bundle)
    requires Redactable(b)
    ensures var s := Closure(b, AllTargets(b).value); b.removed <= s && s !! Protected(b)
  {
    hide Enough, TombstonesClean, ProtectedClean, Protected;
    var g := AllTargets(b).value;
    ClosureIsLeast(b, g);
    SeedsIncluded(b, |b.tombstones|);
    assert g.removed <= Closure(b, g) by { LeastHolds(b, g, Closure(b, g)); }
    var u :| Enough(b, g, u) && u !! Protected(b);
  }

  method Targeted(b: Bundle) returns (g: Option<Targets>)
    ensures g == AllTargets(b)
  {
    hide Target;
    var found := Targets(b.removed, {}, {}, {});
    for n := 0 to |b.tombstones|
      invariant TargetsOf(b, n) == Some(found)
    {
      var next := Target(b, b.tombstones[n], found);
      if next.None? {
        NoTargets(b, n + 1, |b.tombstones|);
        return None;
      }
      found := next.value;
    }
    g := Some(found);
  }

  lemma {:induction false} NoTargets(b: Bundle, n: nat, m: nat)
    requires n <= m <= |b.tombstones| && TargetsOf(b, n).None?
    ensures TargetsOf(b, m).None?
    decreases m
  {
    if n < m { NoTargets(b, n, m - 1); }
  }

  /** The final scan of retained payloads for protected bytes. */
  method Scan(b: Bundle, g: Targets, retained: map<Ref, Payload>) returns (clean: bool)
    requires forall r :: r in retained ==> r in b.payloads && retained[r] == b.payloads[r]
    ensures clean <==> forall r :: r in retained ==> !HasRaw(retained[r], g.raw)
  {
    hide HasRaw;
    var left := retained.Keys;
    while left != {}
      invariant left <= retained.Keys
      invariant forall r :: r in retained && r !in left ==> !HasRaw(retained[r], g.raw)
    {
      var r :| r in left;
      left := left - {r};
      if HasRaw(retained[r], g.raw) { return false; }
    }
    clean := true;
  }

  /** Redaction succeeds exactly when the targets are found, some sufficient set spares the tombstones, and
      neither tombstones nor metadata repeat protected content; it then removes the least sufficient set,
      which is therefore the same in whatever order references are visited. */
  method Redact(b: Bundle) returns (o: Outcome)
    ensures o.Redacted? <==>
      && b.tombstones != [] && AllTargets(b).Some?
      && var g := AllTargets(b).value;
      && Erasable(b, g) && TombstonesClean(b, g) && ProtectedClean(b, g)
      && forall s :: Least(b, g, s) ==> b.metadataClean(s, g)
    ensures o.Redacted? ==>
      && Least(b, AllTargets(b).value, o.removed) && o.removed !! Protected(b)
      && o.payloads == b.payloads - o.removed
    ensures o == Result(b)
  {
    hide Erasable, Least, TombstonesClean, HasRaw, Protected;
    if b.tombstones == [] { return Rejected; }
    var targets := Targeted(b);
    if targets.None? { return Rejected; }
    var g := targets.value;
    var ok, removed := Close(b, g);
    if !ok { return Rejected; }
    OnlyLeast(b, g, removed);
    LeastIsClosure(b, g, removed);
    if !TombstonesClean(b, g) { return Rejected; }
    var retained := b.payloads - removed;
    var clean := Scan(b, g, retained);
    RetainedClean(b, g, removed);
    assert clean <==> ProtectedClean(b, g) by { ProtectedRetained(b, removed); }
    if !clean || !b.metadataClean(removed, g) { return Rejected; }
    o := Redacted(removed, retained);
  }

  lemma {:induction false} OnlyLeast(b: Bundle, g: Targets, s: set<Ref>)
    requires Least(b, g, s)
    ensures forall u :: Least(b, g, u) ==> u == s
  {
    hide Least;
    forall u | Least(b, g, u)
      ensures u == s
    {
      LeastUnique(b, g, s, u);
    }
  }

  /** The final scan cannot fail on a retained payload that is no tombstone. */
  lemma {:induction false} RetainedClean(b: Bundle, g: Targets, s: set<Ref>)
    requires Least(b, g, s)
    ensures forall r :: r in b.payloads && r !in s && r !in Protected(b) ==> !HasRaw(b.payloads[r], g.raw)
    ensures forall r :: r in b.payloads && r !in s && r !in Protected(b) ==> !HasText(b.payloads[r].strings, g.texts)
  {
    hide Edge, HasRaw, HasText, Protected;
    forall r | r in b.payloads && r !in s && r !in Protected(b)
      ensures !HasRaw(b.payloads[r], g.raw) && !HasText(b.payloads[r].strings, g.texts)
    {
      assert !Embeds(b, g, r, s);
    }
  }

  lemma {:induction false} ProtectedRetained(b: Bundle, s: set<Ref>)
    requires s !! Protected(b)
    ensures forall r :: r in b.payloads && r in Protected(b) ==> r in b.payloads - s
  {
    hide Protected;
  }

  // ---------------------------------------------------------------- redacting again

  /** The redacted bundle, as a later redaction finds it, whatever links it then declares. */
  ghost predicate After(b: Bundle, s: set<Ref>, c: Bundle) {
    c.payloads == b.payloads - s && c.tombstones == b.tombstones && c.audit == b.audit && c.removed == s
  }

  lemma {:induction false} SeedsIncluded(b: Bundle, n: nat)
    requires n <= |b.tombstones| && TargetsOf(b, n).Some?
    ensures var s := TargetsOf(b, n).value.removed;
      b.removed <= s && forall i :: 0 <= i < n ==> b.tombstones[i].artifact in s && forall r :: r in b.tombstones[i].derivations ==> r in s
  {
    if n > 0 { SeedsIncluded(b, n - 1); }
  }

  lemma {:induction false} NoNewTargets(b: Bundle, g: Targets, s: set<Ref>, c: Bundle, n: nat)
    requires AllTargets(b) == Some(g) && Least(b, g, s) && After(b, s, c) && n <= |b.tombstones|
    ensures TargetsOf(c, n) == Some(Targets(s, {}, {}, {}))
  {
    hide Least, Closed;
    assert g.removed <= s by { LeastHolds(b, g, s); }
    SeedsIncluded(b, |b.tombstones|);
    if n > 0 {
      NoNewTargets(b, g, s, c, n - 1);
      var t := c.tombstones[n - 1];
      assert t.artifact in s && forall r :: r in t.derivations ==> r in s;
      assert s + (set r | r in t.derivations) == s;
    }
  }

  lemma {:induction false} LeastHolds(b: Bundle, g: Targets, s: set<Ref>)
    requires Least(b, g, s)
    ensures g.removed <= s && Closed(b, g, s)
  {
    hide Closed;
  }

  /** Redacting a redacted bundle again under the same tombstones removes nothing more. */
  lemma {:induction false} RedactAgain(b: Bundle, s: set<Ref>, c: Bundle)
    requires AllTargets(b).Some? && Least(b, AllTargets(b).value, s) && After(b, s, c)
    ensures AllTargets(c).Some? && Least(c, AllTargets(c).value, s)
  {
    hide Protected;
    var g := AllTargets(b).value;
    NoNewTargets(b, g, s, c, |b.tombstones|);
    var h := AllTargets(c).value;
    assert Closed(c, h, s) by { StillClosed(b, g, s, c); }
  }

  lemma {:induction false} StillClosed(b: Bundle, g: Targets, s: set<Ref>, c: Bundle)
    requires Least(b, g, s) && After(b, s, c)
    ensures Closed(c, Targets(s, {}, {}, {}), s)
  {
    hide HasText, HasRaw, Least;
    LeastHolds(b, g, s);
    var h := Targets(s, {}, {}, {});
    assert Protected(c) == Protected(b);
    forall r | r in c.payloads && r !in Protected(c)
      ensures !Embeds(c, h, r, s)
    {
      NoNeedles(c.payloads[r]);
      assert !Embeds(b, g, r, s);
    }
  }

  lemma {:induction false} NoNeedles(p: Payload)
    ensures !HasText(p.strings, {}) && !HasRaw(p, {})
  {
  }
}
