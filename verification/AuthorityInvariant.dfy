/** What every durable write of the evidence authority keeps. */
module AuthorityInvariant {
  import opened CrashStop
  import opened Numbering
  import opened Options
  import opened AuthorityRecords
  import opened AuthorityProtocol

  // ---------------------------------------------------------------- the invariant

  function LatestOf(heads: map<nat, Head>): Option<HeadRef> {
    if |heads| > 0 && |heads| - 1 in heads then Some(HeadRef(|heads| - 1, OfHead(heads[|heads| - 1]))) else None
  }

  ghost predicate ClaimFits(c: Claim, i: Intent) {
    c.intent == i && c.inputHash.OfInput? && ValidInput(c.inputHash.input) && c == ClaimOf(c.inputHash.input)
  }

  /** A staged record is what finalizing its claimed input stages. */
  ghost predicate PendingFits(id: Identity, claims: map<Intent, Claim>, objects: map<Digest, EvidenceObject>,
                              p: Pending, i: Intent) {
    && i in claims && ClaimFits(claims[i], i)
    && p == PendingOf(id, claims[i].inputHash.input, p.head.generation, p.head.parent)
    && OfObject(ObjectOf(claims[i].inputHash.input)) in objects
  }

  /** The head of a staged record is published, or is the next head of the chain. */
  ghost predicate HeadPlaced(heads: map<nat, Head>, h: Head) {
    var g := h.generation;
    if g < |heads| then g in heads && heads[g] == h
    else g == |heads| && (g == 0 || g - 1 in heads) && h.parent == ParentAt(heads, g)
  }

  ghost predicate HeadStaged(pending: map<Intent, Pending>, h: Head) {
    h.intent in pending && pending[h.intent].head == h
  }

  ghost predicate FinalizationFits(pending: map<Intent, Pending>, published: nat, f: Finalization, i: Intent) {
    i in pending && pending[i].head.generation < published && f == pending[i].finalization
  }

  ghost predicate ClaimsFit(claims: map<Intent, Claim>) {
    forall i :: i in claims ==> ClaimFits(claims[i], i)
  }

  ghost predicate ObjectsFit(claims: map<Intent, Claim>, objects: map<Digest, EvidenceObject>) {
    forall h :: h in objects ==> OfObject(objects[h]) == h && Claimed(claims, h)
  }

  ghost predicate PendingsFit(id: Identity, claims: map<Intent, Claim>, objects: map<Digest, EvidenceObject>,
                              pending: map<Intent, Pending>) {
    forall i :: i in pending ==> PendingFits(id, claims, objects, pending[i], i)
  }

  ghost predicate HeadsPlaced(heads: map<nat, Head>, pending: map<Intent, Pending>) {
    forall i :: i in pending ==> HeadPlaced(heads, pending[i].head)
  }

  ghost predicate HeadsStaged(heads: map<nat, Head>, pending: map<Intent, Pending>) {
    forall g :: g in heads ==> HeadStaged(pending, heads[g])
  }

  ghost predicate FinalizationsFit(pending: map<Intent, Pending>, published: nat,
                                   finalizations: map<Intent, Finalization>) {
    forall i :: i in finalizations ==> FinalizationFits(pending, published, finalizations[i], i)
  }

  ghost predicate AnchorFits(id: Identity, heads: map<nat, Head>, anchor: Anchor) {
    id.anchored ==> anchor.Anchored? && AnchorHolds(heads, anchor.head, LatestOf(heads))
  }

  ghost predicate Incomplete(s: Store, i: Intent) {
    i in s.pending && i !in s.finalizations
  }

  /** Nothing is staged but unfinished: heads and finalizations correspond. */
  ghost predicate Settled(s: Store) {
    forall i :: i in s.pending ==> i in s.finalizations
  }

  ghost predicate Core(id: Identity, s: Store) {
    && ChainOk(id, s.heads)
    && ClaimsFit(s.claims)
    && ObjectsFit(s.claims, s.objects)
    && PendingsFit(id, s.claims, s.objects, s.pending)
    && HeadsPlaced(s.heads, s.pending)
    && HeadsStaged(s.heads, s.pending)
    && FinalizationsFit(s.pending, |s.heads|, s.finalizations)
    && AnchorFits(id, s.heads, s.anchor)
  }

  /** At most one staged record is unfinished, and its head is the last one or the next one. */
  ghost predicate Tight(s: Store) {
    && (forall i, j :: Incomplete(s, i) && Incomplete(s, j) ==> i == j)
    && (forall i :: Incomplete(s, i) ==> s.pending[i].head.generation + 1 >= |s.heads|)
  }

  ghost predicate Inv(id: Identity, s: Store) {
    Core(id, s) && Tight(s)
  }

  // ---------------------------------------------------------------- growth

  ghost predicate Sub<K(!new), V>(m: map<K, V>, m': map<K, V>) {
    forall k :: k in m ==> k in m' && m'[k] == m[k]
  }

  ghost predicate AnchorForward(a: Anchor, b: Anchor) {
    a.Anchored? ==> (b.Anchored? &&
      (a.head.Some? ==> b.head.Some? && a.head.value.generation <= b.head.value.generation))
  }

  /** Records are only added and the anchor only moves forward. */
  ghost predicate Extends(s: Store, s': Store) {
    && Sub(s.intents, s'.intents) && Sub(s.claims, s'.claims) && Sub(s.pending, s'.pending)
    && Sub(s.objects, s'.objects) && Sub(s.heads, s'.heads) && Sub(s.finalizations, s'.finalizations)
    && AnchorForward(s.anchor, s'.anchor)
  }

  // ---------------------------------------------------------------- single writes

  /** The condition under which the protocol performs a write. */
  ghost predicate Legal(id: Identity, s: Store, w: Write) {
    match w
    case WIntent(i, r) => i in s.intents ==> s.intents[i] == r
    case WClaim(i, c) => ClaimFits(c, i) && (i in s.claims ==> s.claims[i] == c)
    case WObject(h, o) => h == OfObject(o) && Claimed(s.claims, h)
    case WPending(i, p) =>
      PendingFits(id, s.claims, s.objects, p, i) && HeadPlaced(s.heads, p.head) &&
      (if i in s.pending then s.pending[i] == p else Settled(s) && p.head.generation == |s.heads|)
    case WHead(g, h) =>
      g == |s.heads| && h.generation == g && HeadStaged(s.pending, h)
    case WFinalization(i, f) =>
      FinalizationFits(s.pending, |s.heads|, f, i)
    case WAnchor(a) =>
      a == LatestOf(s.heads) && s.anchor.Anchored? && AnchorHolds(s.heads, s.anchor.head, a)
  }

  /** A gap-free chain of n heads has exactly the numbers below n. */
  lemma {:induction false} ChainKeys(id: Identity, heads: map<nat, Head>)
    requires ChainOk(id, heads)
    ensures forall g: nat :: g in heads <==> g < |heads|
  {
    forall g: nat | g < |heads|
      ensures g in heads
    {
      assert HeadLinks(id, heads, g);
    }
    Gapless(heads);
  }

  lemma {:induction false} NextHeadLinks(id: Identity, heads: map<nat, Head>, h: Head)
    requires ChainOk(id, heads) && HeadPlaced(heads, h) && h.generation == |heads|
    requires h.signer == id.headKey && h.authority == id.authority
    requires h.evidenceKey == id.evidenceKey && h.headKey == id.headKey
    ensures |heads| !in heads && |heads[|heads| := h]| == |heads| + 1
    ensures ChainOk(id, heads[|heads| := h])
  {
    ChainKeys(id, heads);
    var heads' := heads[|heads| := h];
    forall k: nat | k < |heads'|
      ensures HeadLinks(id, heads', k)
    {
      if k < |heads| { assert HeadLinks(id, heads, k); }
    }
  }

  lemma {:induction false} StagedNextIsIncomplete(s: Store, k: Intent)
    requires FinalizationsFit(s.pending, |s.heads|, s.finalizations) && k in s.pending && s.pending[k].head.generation == |s.heads|
    ensures Incomplete(s, k)
  {
    assert k in s.finalizations ==> FinalizationFits(s.pending, |s.heads|, s.finalizations[k], k);
  }

  lemma {:induction false} HeadWriteKeepsPlaces(id: Identity, s: Store, h: Head)
    requires Inv(id, s) && h.generation == |s.heads| && HeadStaged(s.pending, h) && |s.heads| !in s.heads
    requires |s.heads[|s.heads| := h]| == |s.heads| + 1
    ensures HeadsPlaced(s.heads[|s.heads| := h], s.pending)
  {
    hide ChainOk, ClaimsFit, ObjectsFit, PendingsFit, HeadsStaged, FinalizationsFit, AnchorFits;
    var heads' := s.heads[|s.heads| := h];
    StagedNextIsIncomplete(s, h.intent);
    forall i | i in s.pending
      ensures HeadPlaced(heads', s.pending[i].head)
    {
      assert HeadPlaced(s.heads, s.pending[i].head);
      if s.pending[i].head.generation == |s.heads| { StagedNextIsIncomplete(s, i); }
    }
  }

  lemma {:induction false} StagedHeadIsOurs(id: Identity, s: Store, i: Intent)
    requires i in s.pending && PendingFits(id, s.claims, s.objects, s.pending[i], i)
    ensures var h := s.pending[i].head;
      h.signer == id.headKey && h.authority == id.authority && h.evidenceKey == id.evidenceKey && h.headKey == id.headKey
    ensures s.pending[i].head.intent == i && s.pending[i].intent == i && s.pending[i].finalization.intent == i
  {
  }

  lemma {:induction false} FinalizationsStayFit(pending: map<Intent, Pending>, published: nat, finalizations: map<Intent, Finalization>)
    requires FinalizationsFit(pending, published, finalizations)
    ensures FinalizationsFit(pending, published + 1, finalizations)
  {
    forall i | i in finalizations
      ensures FinalizationFits(pending, published + 1, finalizations[i], i)
    {
      assert FinalizationFits(pending, published, finalizations[i], i);
    }
  }

  lemma {:induction false} HeadsStayStaged(heads: map<nat, Head>, pending: map<Intent, Pending>, g: nat, h: Head)
    requires HeadsStaged(heads, pending) && HeadStaged(pending, h)
    ensures HeadsStaged(heads[g := h], pending)
  {
    hide HeadStaged;
  }

  lemma {:induction false} AnchorStaysFit(id: Identity, heads: map<nat, Head>, anchor: Anchor, h: Head)
    requires AnchorFits(id, heads, anchor) && |heads| !in heads && |heads[|heads| := h]| == |heads| + 1
    ensures AnchorFits(id, heads[|heads| := h], anchor)
  {
  }

  lemma {:induction false} NextHeadPlaced(heads: map<nat, Head>, pending: map<Intent, Pending>, h: Head)
    requires HeadsPlaced(heads, pending) && HeadStaged(pending, h)
    ensures HeadPlaced(heads, h)
  {
    hide HeadPlaced;
  }

  lemma {:induction false} HeadWriteKeepsCore(id: Identity, s: Store, h: Head)
    requires Inv(id, s) && Legal(id, s, WHead(|s.heads|, h))
    ensures Core(id, Apply(s, WHead(|s.heads|, h)))
    ensures |s.heads| !in s.heads && |s.heads[|s.heads| := h]| == |s.heads| + 1
  {
    hide PendingFits, HeadPlaced, ChainOk, ClaimsFit, ObjectsFit, HeadsPlaced, HeadsStaged, FinalizationsFit, AnchorFits, Tight;
    StagedHeadIsOurs(id, s, h.intent);
    NextHeadPlaced(s.heads, s.pending, h);
    NextHeadLinks(id, s.heads, h);
    HeadWriteKeepsPlaces(id, s, h);
    HeadsStayStaged(s.heads, s.pending, |s.heads|, h);
    FinalizationsStayFit(s.pending, |s.heads|, s.finalizations);
    AnchorStaysFit(id, s.heads, s.anchor, h);
  }

  lemma {:induction false} MoreClaimsKeepObjects(claims: map<Intent, Claim>, objects: map<Digest, EvidenceObject>, i: Intent, c: Claim)
    requires ObjectsFit(claims, objects) && (i in claims ==> claims[i] == c)
    ensures ObjectsFit(claims[i := c], objects)
  {
    forall h | h in objects
      ensures OfObject(objects[h]) == h && Claimed(claims[i := c], h)
    {
      assert Claimed(claims, h);
      var k :| k in claims && claims[k].objectHash == h;
      assert k in claims[i := c] && claims[i := c][k].objectHash == h;
    }
  }

  lemma {:induction false} MoreClaimsKeepPending(id: Identity, claims: map<Intent, Claim>, objects: map<Digest, EvidenceObject>,
                                                 pending: map<Intent, Pending>, i: Intent, c: Claim)
    requires PendingsFit(id, claims, objects, pending) && (i in claims ==> claims[i] == c)
    ensures PendingsFit(id, claims[i := c], objects, pending)
  {
    hide ClaimFits, PendingOf;
    forall k | k in pending
      ensures PendingFits(id, claims[i := c], objects, pending[k], k)
    {
      assert PendingFits(id, claims, objects, pending[k], k);
    }
  }

  lemma {:induction false} ClaimWriteKeepsCore(id: Identity, s: Store, i: Intent, c: Claim)
    requires Inv(id, s) && Legal(id, s, WClaim(i, c))
    ensures Core(id, Apply(s, WClaim(i, c)))
  {
    hide ClaimFits, ChainOk, ObjectsFit, PendingsFit, HeadsPlaced, HeadsStaged, FinalizationsFit, AnchorFits, Tight;
    MoreClaimsKeepObjects(s.claims, s.objects, i, c);
    MoreClaimsKeepPending(id, s.claims, s.objects, s.pending, i, c);
  }

  lemma {:induction false} MoreObjectsKeepPending(id: Identity, s: Store, h: Digest, o: EvidenceObject)
    requires PendingsFit(id, s.claims, s.objects, s.pending)
    ensures PendingsFit(id, s.claims, s.objects[h := o], s.pending)
  {
    hide ClaimFits, PendingOf;
    forall k | k in s.pending
      ensures PendingFits(id, s.claims, s.objects[h := o], s.pending[k], k)
    {
      assert PendingFits(id, s.claims, s.objects, s.pending[k], k);
    }
  }

  lemma {:induction false} ObjectWriteKeepsCore(id: Identity, s: Store, h: Digest, o: EvidenceObject)
    requires Inv(id, s) && Legal(id, s, WObject(h, o))
    ensures Core(id, Apply(s, WObject(h, o)))
  {
    hide Claimed, ChainOk, ClaimsFit, PendingsFit, HeadsPlaced, HeadsStaged, FinalizationsFit, AnchorFits, Tight;
    MoreObjectsKeepPending(id, s, h, o);
  }

  lemma {:induction false} MorePendingKeepsOthers(heads: map<nat, Head>, pending: map<Intent, Pending>, published: nat,
                                                 finalizations: map<Intent, Finalization>, i: Intent, p: Pending)
    requires HeadsStaged(heads, pending) && FinalizationsFit(pending, published, finalizations) && i !in pending
    ensures HeadsStaged(heads, pending[i := p]) && FinalizationsFit(pending[i := p], published, finalizations)
  {
    forall g | g in heads
      ensures HeadStaged(pending[i := p], heads[g])
    {
      assert HeadStaged(pending, heads[g]);
    }
    forall k | k in finalizations
      ensures FinalizationFits(pending[i := p], published, finalizations[k], k)
    {
      assert FinalizationFits(pending, published, finalizations[k], k);
    }
  }

  lemma {:induction false} MorePendingFits(id: Identity, s: Store, i: Intent, p: Pending)
    requires PendingsFit(id, s.claims, s.objects, s.pending) && HeadsPlaced(s.heads, s.pending)
    requires PendingFits(id, s.claims, s.objects, p, i) && HeadPlaced(s.heads, p.head)
    ensures PendingsFit(id, s.claims, s.objects, s.pending[i := p]) && HeadsPlaced(s.heads, s.pending[i := p])
  {
    hide PendingFits, HeadPlaced;
  }

  lemma {:induction false} PendingWriteKeepsCore(id: Identity, s: Store, i: Intent, p: Pending)
    requires Inv(id, s) && Legal(id, s, WPending(i, p))
    ensures Core(id, Apply(s, WPending(i, p)))
  {
    hide PendingFits, HeadPlaced, ChainOk, ClaimsFit, ObjectsFit, PendingsFit, HeadsPlaced, HeadsStaged, FinalizationsFit, AnchorFits, Tight, Settled;
    if i in s.pending {
      assert s.pending[i := p] == s.pending;
    } else {
      MorePendingFits(id, s, i, p);
      MorePendingKeepsOthers(s.heads, s.pending, |s.heads|, s.finalizations, i, p);
    }
  }

  lemma {:induction false} FinalizationWriteKeepsCore(id: Identity, s: Store, i: Intent, f: Finalization)
    requires Inv(id, s) && Legal(id, s, WFinalization(i, f))
    ensures Core(id, Apply(s, WFinalization(i, f)))
  {
    hide ChainOk, ClaimsFit, ObjectsFit, PendingsFit, HeadsPlaced, HeadsStaged, FinalizationFits, AnchorFits, Tight;
  }

  lemma {:induction false} AnchorWriteKeepsCore(id: Identity, s: Store, a: Option<HeadRef>)
    requires Inv(id, s) && Legal(id, s, WAnchor(a))
    ensures Core(id, Apply(s, WAnchor(a)))
  {
    hide ChainOk, ClaimsFit, ObjectsFit, PendingsFit, HeadsPlaced, HeadsStaged, FinalizationsFit, Tight;
  }

  lemma {:induction false} WriteKeepsCore(id: Identity, s: Store, w: Write)
    requires Inv(id, s) && Legal(id, s, w)
    ensures Core(id, Apply(s, w))
    ensures w.WHead? ==> |s.heads| !in s.heads && |Apply(s, w).heads| == |s.heads| + 1
  {
    match w
    case WIntent(i, r) =>
      hide ChainOk, ClaimsFit, ObjectsFit, PendingsFit, HeadsPlaced, HeadsStaged, FinalizationsFit, AnchorFits, Tight;
    case WClaim(i, c) => hide *; ClaimWriteKeepsCore(id, s, i, c);
    case WObject(h, o) => hide *; ObjectWriteKeepsCore(id, s, h, o);
    case WPending(i, p) => hide *; PendingWriteKeepsCore(id, s, i, p);
    case WHead(g, h) =>
      hide ChainOk, ClaimsFit, ObjectsFit, PendingsFit, HeadsPlaced, HeadsStaged, HeadStaged, FinalizationsFit, AnchorFits, Tight;
      HeadWriteKeepsCore(id, s, h);
    case WFinalization(i, f) => hide *; FinalizationWriteKeepsCore(id, s, i, f);
    case WAnchor(a) => hide *; AnchorWriteKeepsCore(id, s, a);
  }

  lemma {:induction false} WriteKeepsTight(id: Identity, s: Store, w: Write)
    requires Inv(id, s) && Legal(id, s, w)
    requires w.WHead? ==> |Apply(s, w).heads| == |s.heads| + 1
    ensures Tight(Apply(s, w))
  {
    hide PendingFits, HeadPlaced, ChainOk, ClaimsFit, ObjectsFit, PendingsFit, HeadsPlaced, HeadsStaged, FinalizationsFit, FinalizationFits, AnchorFits;
    var s' := Apply(s, w);
    if w.WPending? && w.intent !in s.pending {
      assert forall i :: Incomplete(s', i) ==> i == w.intent;
    } else {
      assert forall i :: Incomplete(s', i) ==> Incomplete(s, i);
      if w.WHead? { StagedNextIsIncomplete(s, w.head.intent); }
    }
  }

  lemma {:induction false} WriteExtends(id: Identity, s: Store, w: Write)
    requires Inv(id, s) && Legal(id, s, w) && (w.WHead? ==> |s.heads| !in s.heads)
    ensures Extends(s, Apply(s, w))
  {
    hide PendingFits, ClaimFits, HeadPlaced, HeadStaged, ChainOk, ClaimsFit, PendingsFit, HeadsPlaced, HeadsStaged, Claimed, Tight, Settled, LatestOf, ObjectOf;
    assert w.WFinalization? && w.intent in s.finalizations ==>
      FinalizationFits(s.pending, |s.heads|, s.finalizations[w.intent], w.intent);
    assert w.WObject? && w.hash in s.objects ==> OfObject(s.objects[w.hash]) == w.hash;
  }

  /** Each durable write the protocol performs keeps the invariant and only adds. */
  lemma {:induction false} WriteKeepsInv(id: Identity, s: Store, w: Write)
    requires Inv(id, s) && Legal(id, s, w)
    ensures Inv(id, Apply(s, w)) && Extends(s, Apply(s, w))
  {
    hide Core, Tight, Extends, Legal, Apply;
    WriteKeepsCore(id, s, w);
    WriteKeepsTight(id, s, w);
    WriteExtends(id, s, w);
  }

  // ---------------------------------------------------------------- runs of writes

  lemma {:induction false} ExtendsTransitive(a: Store, b: Store, c: Store)
    requires Extends(a, b) && Extends(b, c)
    ensures Extends(a, c)
  {
  }

  lemma {:induction false} ExtendsReflexive(a: Store)
    ensures Extends(a, a)
  {
  }

  ghost predicate LegalAll(id: Identity, s: Store, ws: seq<Write>)
    decreases |ws|
  {
    ws == [] || (Legal(id, s, ws[0]) && LegalAll(id, Apply(s, ws[0]), ws[1..]))
  }

  lemma {:induction false} LegalConcat(id: Identity, s: Store, a: seq<Write>, b: seq<Write>)
    requires LegalAll(id, s, a) && LegalAll(id, Final(s, a), b)
    ensures LegalAll(id, s, a + b)
    decreases |a|
  {
    if a == [] {
      assert a + b == b;
    } else {
      assert (a + b)[0] == a[0] && (a + b)[1..] == a[1..] + b;
      LegalConcat(id, Apply(s, a[0]), a[1..], b);
    }
  }

  /** A crash anywhere in a run of the protocol leaves a store that satisfies the invariant. */
  lemma {:induction false} CrashKeepsInv(id: Identity, s: Store, ws: seq<Write>, k: nat)
    requires Inv(id, s) && LegalAll(id, s, ws) && k <= |ws|
    ensures Inv(id, Final(s, ws[..k])) && Extends(s, Final(s, ws[..k]))
    decreases k
  {
    hide Inv, Legal, Extends, Apply;
    if k == 0 {
      ExtendsReflexive(s);
    } else {
      WriteKeepsInv(id, s, ws[0]);
      CrashKeepsInv(id, Apply(s, ws[0]), ws[1..], k - 1);
      assert ws[..k][1..] == ws[1..][..k - 1];
      ExtendsTransitive(s, Apply(s, ws[0]), Final(s, ws[..k]));
    }
  }

  lemma {:induction false} RunKeepsInv(id: Identity, s: Store, ws: seq<Write>)
    requires Inv(id, s) && LegalAll(id, s, ws)
    ensures Inv(id, Final(s, ws)) && Extends(s, Final(s, ws))
  {
    hide *;
    CrashKeepsInv(id, s, ws, |ws|);
    assert ws[..|ws|] == ws;
  }
}
