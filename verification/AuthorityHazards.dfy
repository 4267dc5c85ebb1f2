/** Stores the invariant does not cover: rolled-back directories, and a process that keeps serving
    after another one (or its own failed call) left a staged finalization behind. */
module AuthorityHazards {
  import opened CrashStop
  import opened Options
  import opened AuthorityRecords
  import opened AuthorityProtocol
  import opened AuthorityInvariant
  import opened AuthoritySafety
  import opened AuthorityRuns

  // ---------------------------------------------------------------- growth on any store at all

  /** Publishes at most new head numbers and stages nothing. */
  ghost predicate Grows(s: Store, w: Write) {
    (w.WHead? ==> w.generation !in s.heads) && !w.WPending?
  }

  ghost predicate GrowsAll(s: Store, ws: seq<Write>)
    decreases |ws|
  {
    ws == [] || (Grows(s, ws[0]) && GrowsAll(Apply(s, ws[0]), ws[1..]))
  }

  ghost predicate Grown(s: Store, s': Store) {
    s'.pending == s.pending && Sub(s.heads, s'.heads) && |s.heads| <= |s'.heads|
  }

  lemma {:induction false} GrowsOne(s: Store, w: Write)
    requires Grows(s, w)
    ensures Grown(s, Apply(s, w))
  {
    if w.WHead? { assert s.heads[w.generation := w.head].Keys == s.heads.Keys + {w.generation}; }
  }

  lemma {:induction false} GrowsPrefix(s: Store, ws: seq<Write>, k: nat)
    requires GrowsAll(s, ws) && k <= |ws|
    ensures Grown(s, Final(s, ws[..k]))
    decreases k
  {
    hide Apply, Grows;
    if k > 0 {
      GrowsOne(s, ws[0]);
      GrowsPrefix(Apply(s, ws[0]), ws[1..], k - 1);
      assert ws[..k][1..] == ws[1..][..k - 1];
    }
  }

  lemma {:induction false} GrowsConcat(s: Store, a: seq<Write>, b: seq<Write>)
    requires GrowsAll(s, a) && GrowsAll(Final(s, a), b)
    ensures GrowsAll(s, a + b)
    decreases |a|
  {
    if a == [] {
      assert a + b == b;
    } else {
      assert (a + b)[0] == a[0] && (a + b)[1..] == a[1..] + b;
      GrowsConcat(Apply(s, a[0]), a[1..], b);
    }
  }

  lemma {:induction false} ThenGrows<T, U>(s: Store, first: Plan<Write, T>, next: Store -> Plan<Write, U>)
    requires GrowsAll(s, first.writes)
    requires first.reply.Ok? ==> GrowsAll(Final(s, first.writes), next(Final(s, first.writes)).writes)
    ensures GrowsAll(s, Then(s, first, next).writes)
    ensures first.reply.Ok? ==>
      Final(s, Then(s, first, next).writes) == Final(Final(s, first.writes), next(Final(s, first.writes)).writes)
  {
    hide Apply, Grows;
    if first.reply.Ok? {
      var second := next(Final(s, first.writes));
      GrowsConcat(s, first.writes, second.writes);
      ReplayConcat(Apply, s, first.writes, second.writes);
    }
  }

  lemma {:induction false} GrowsWhole(s: Store, ws: seq<Write>)
    requires GrowsAll(s, ws)
    ensures Grown(s, Final(s, ws))
  {
    GrowsPrefix(s, ws, |ws|);
    assert ws[..|ws|] == ws;
  }

  /** The anchored head, seen from a store with these heads. */
  ghost predicate AnchorOnChain(anchor: Anchor, heads: map<nat, Head>) {
    anchor.Anchored? && AnchorHolds(heads, anchor.head, LatestOf(heads))
  }

  lemma {:induction false} ReconcileGrows(id: Identity, s: Store)
    ensures var plan := ReconcileLatest(id, s);
      && GrowsAll(s, plan.writes) && Final(s, plan.writes) == s.(anchor := Final(s, plan.writes).anchor)
      && (plan.reply.Ok? && id.anchored ==>
            && AnchorOnChain(s.anchor, s.heads) && Final(s, plan.writes).anchor == Anchored(LatestOf(s.heads)))
  {
    hide HeadLinks;
    if ChainOk(id, s.heads) { LatestKnown(id, s.heads); }
    ReplayOne(Apply, s, WAnchor(LatestOf(s.heads)));
    assert [WAnchor(LatestOf(s.heads))][1..] == [];
  }

  lemma {:induction false} PublishGrows(id: Identity, s: Store, p: Pending)
    ensures var plan := PublishPlan(id, s, p);
      && GrowsAll(s, plan.writes) && Final(s, plan.writes).anchor == s.anchor
      && (plan.reply.Ok? && p.head.generation < |s.heads| ==> p.head.generation in s.heads && s.heads[p.head.generation] == p.head)
  {
    hide HeadLinks;
    if ChainOk(id, s.heads) {
      ChainKeys(id, s.heads);
      LatestKnown(id, s.heads);
      ReplayOne(Apply, s, WHead(|s.heads|, p.head));
      assert [WHead(|s.heads|, p.head)][1..] == [];
    }
  }

  /** Completing anything only grows the store; succeeding, it found the anchor on the final chain. */
  lemma {:induction false} CompleteGrows(id: Identity, s: Store, p: Pending)
    ensures var plan := CompletePlan(id, s, p);
      var s' := Final(s, plan.writes);
      && GrowsAll(s, plan.writes)
      && (plan.reply.Ok? && id.anchored ==> AnchorOnChain(s.anchor, s'.heads) && s'.anchor == Anchored(LatestOf(s'.heads)))
      && (plan.reply.Ok? && p.head.generation < |s.heads| ==>
            p.head.generation in s.heads && s.heads[p.head.generation] == p.head)
  {
    hide HeadLinks, PublishPlan, ReconcileLatest, LatestOf;
    var first := PublishPlan(id, s, p);
    PublishGrows(id, s, p);
    var s1 := Final(s, first.writes);
    var second := RecordPlan(s1, p);
    RecordGrows(s1, p);
    var s2 := Final(s1, second.writes);
    ReconcileGrows(id, s2);
    var last := (t: Store) => ReconcileLatest(id, t);
    ThenGrows(s1, second, last);
    var rest := (t: Store) => Then(t, RecordPlan(t, p), (u: Store) => ReconcileLatest(id, u));
    assert rest(s1) == Then(s1, second, last);
    ThenGrows(s, first, rest);
  }

  lemma {:induction false} RecordGrows(s: Store, p: Pending)
    ensures var plan := RecordPlan(s, p);
      GrowsAll(s, plan.writes) && Final(s, plan.writes) == s.(finalizations := Final(s, plan.writes).finalizations)
  {
    var w := WFinalization(p.intent, p.finalization);
    ReplayOne(Apply, s, w);
    assert [w][1..] == [];
  }

  /** The head at an anchored point stays where it is while the chain grows. */
  lemma {:induction false} AnchorStays(anchor: Anchor, heads: map<nat, Head>, heads': map<nat, Head>)
    requires AnchorOnChain(anchor, heads) && AnchorOnChain(Anchored(LatestOf(heads)), heads') && Sub(heads, heads')
    ensures AnchorOnChain(anchor, heads')
  {
  }

  lemma {:induction false} CompleteAllGrows(id: Identity, s: Store, names: seq<Intent>)
    ensures var plan := CompleteAllPlan(id, s, names);
      var s' := Final(s, plan.writes);
      && GrowsAll(s, plan.writes) && Grown(s, s')
      && (plan.reply.Ok? && id.anchored && names != [] ==>
            AnchorOnChain(s.anchor, s'.heads) && s'.anchor == Anchored(LatestOf(s'.heads)))
      && (plan.reply.Ok? && names == [] ==> s' == s)
    decreases |names|
  {
    hide CompletePlan, GrowsAll, AnchorOnChain, LatestOf, Grows, Apply;
    var plan := CompleteAllPlan(id, s, names);
    assert GrowsAll(s, []) by { GrowsNothing(s); }
    if names != [] && names[0] in s.pending && s.pending[names[0]].intent == names[0] {
      var first := CompletePlan(id, s, s.pending[names[0]]);
      CompleteGrows(id, s, s.pending[names[0]]);
      var s1 := Final(s, first.writes);
      CompleteAllGrows(id, s1, names[1..]);
      GrowsWhole(s, first.writes);
      ThenGrows(s, first, (t: Store) => CompleteAllPlan(id, t, names[1..]));
      if plan.reply.Ok? && id.anchored && names[1..] != [] {
        AnchorStays(s.anchor, s1.heads, Final(s, plan.writes).heads);
      }
    }
    GrowsWhole(s, plan.writes);
  }

  lemma {:induction false} GrowsNothing(s: Store)
    ensures GrowsAll(s, [])
  {
  }

  /** Start-up, on any store whatever was done to its directories, succeeds only when the chain it
      ends with still contains the anchored head. */
  lemma {:induction false} InitChecksAnchor(id: Identity, s: Store, names: seq<Intent>)
    requires id.anchored && InitPlan(id, s, names).reply.Ok?
    ensures AnchorOnChain(s.anchor, Final(s, InitPlan(id, s, names).writes).heads)
    ensures Grown(s, Final(s, InitPlan(id, s, names).writes))
  {
    hide CompleteAllPlan, ReconcileLatest, Verified, HeadLinks, GrowsAll, AnchorOnChain, LatestOf;
    var first := CompleteAllPlan(id, s, names);
    CompleteAllGrows(id, s, names);
    var s1 := Final(s, first.writes);
    ReconcileGrows(id, s1);
    var rest := (t: Store) => if Verified(id, t) then ReconcileLatest(id, t) else Plan<Write, ()>.Plan([], Refused);
    ThenGrows(s, first, rest);
    if names != [] { AnchorStays(s.anchor, s1.heads, s1.heads); }
  }

  // ---------------------------------------------------------------- a stolen generation

  /** Some staged record's generation is taken by a different head. */
  ghost predicate Stolen(s: Store, a: Intent) {
    && a in s.pending && s.pending[a].intent == a && s.pending[a].head.generation < |s.heads|
    && s.pending[a].head.generation in s.heads && s.heads[s.pending[a].head.generation] != s.pending[a].head
  }

  lemma {:induction false} StolenStays(s: Store, s': Store, a: Intent)
    requires Stolen(s, a) && Grown(s, s')
    ensures Stolen(s', a)
  {
  }

  lemma {:induction false} StolenStopsListing(id: Identity, s: Store, names: seq<Intent>, a: Intent)
    requires Stolen(s, a) && a in names
    ensures !CompleteAllPlan(id, s, names).reply.Ok?
    decreases |names|
  {
    hide CompletePlan;
    if names[0] in s.pending && s.pending[names[0]].intent == names[0] {
      CompleteGrows(id, s, s.pending[names[0]]);
      var first := CompletePlan(id, s, s.pending[names[0]]);
      GrowsWhole(s, first.writes);
      if names[0] != a && first.reply.Ok? {
        var s1 := Final(s, first.writes);
        StolenStays(s, s1, a);
        assert names == [names[0]] + names[1..];
        StolenStopsListing(id, s1, names[1..], a);
      }
    }
  }

  /** With a stolen generation no process ever starts again: every call is refused or dies, and the
      store stays that way. */
  lemma {:induction false} StolenIsPermanent(id: Identity, s: Store, call: Call, a: Intent)
    requires Stolen(s, a) && Lists(call.names, s)
    ensures var (sys', reply) := Serve(id, System(s, false), call);
      !reply.Ok? && !sys'.initialized && Stolen(sys'.store, a)
  {
    hide CompleteAllPlan, ReconcileLatest, OperationPlan, HeadLinks, Verified, GrowsAll, Stolen;
    var names := call.names;
    var first := CompleteAllPlan(id, s, names);
    assert a in s.pending by { StolenStaged(s, a); }
    CompleteAllGrows(id, s, names);
    StolenStopsListing(id, s, names, a);
    GrowsNothing(s);
    var plan := ServePlan(id, System(s, false), call.op, names);
    assert plan.writes == (if ChainOk(id, s.heads) then first.writes else []);
    GrowsPrefix(s, plan.writes, if call.fuel <= |plan.writes| then call.fuel else |plan.writes|);
    assert plan.writes[..|plan.writes|] == plan.writes;
    StolenStays(s, Serve(id, System(s, false), call).0.store, a);
  }

  lemma {:induction false} StolenStaged(s: Store, a: Intent)
    requires Stolen(s, a)
    ensures a in s.pending
  {
  }

  // ---------------------------------------------------------------- exactly when a live process is safe

  /** Nothing is recorded for the input's intent yet. */
  ghost predicate Fresh(s: Store, input: Input) {
    && ValidInput(input) && input.intent !in s.intents && input.intent !in s.claims
    && input.intent !in s.pending && input.intent !in s.finalizations
  }

  /** A finalization that is accepted and has to stage its record: its intent and claim may already be stored. */
  ghost predicate Unstaged(s: Store, input: Input) {
    Accepts(s, input, true) && input.intent !in s.pending && input.intent !in s.finalizations
  }

  /** Completing a record staged under the next head, whatever else is staged. */
  lemma {:induction false} CompleteTakesNextHead(id: Identity, s: Store, p: Pending)
    requires ChainOk(id, s.heads) && HeadPlaced(s.heads, p.head) && p.head.generation == |s.heads|
    requires p.intent !in s.finalizations
    ensures var s' := Final(s, CompletePlan(id, s, p).writes);
      && s'.heads == s.heads[|s.heads| := p.head] && |s'.heads| == |s.heads| + 1
      && s'.pending == s.pending && s'.finalizations == s.finalizations[p.intent := p.finalization]
  {
    hide HeadLinks, ReconcileLatest;
    LatestKnown(id, s.heads);
    ChainKeys(id, s.heads);
    var head, record := WHead(|s.heads|, p.head), WFinalization(p.intent, p.finalization);
    ReplayOne(Apply, s, head);
    var s1 := Final(s, [head]);
    ReplayOne(Apply, s1, record);
    var s2 := Final(s1, [record]);
    ReconcileGrows(id, s2);
    var last := (t: Store) => ReconcileLatest(id, t);
    ReplayConcat(Apply, s1, [record], last(s2).writes);
    var rest := (t: Store) => Then(t, RecordPlan(t, p), (u: Store) => ReconcileLatest(id, u));
    ReplayConcat(Apply, s, [head], rest(s1).writes);
  }

  /** Staging and completing under the next head, whatever else is staged. */
  lemma {:induction false} PlaceTakesNextHead(id: Identity, s: Store, input: Input)
    requires ChainOk(id, s.heads) && ValidInput(input) && input.intent !in s.pending && input.intent !in s.finalizations
    ensures var p := StagedOf(id, s, input);
      var s' := Final(s, PlacePlan(id, s, input).writes);
      && s'.heads == s.heads[|s.heads| := p.head] && |s'.heads| == |s.heads| + 1
      && s'.pending == s.pending[input.intent := p] && s'.finalizations == s.finalizations[input.intent := p.finalization]
  {
    hide IsHash, SafeIntent, ResultOf, FinalizationOf, HeadLinks, CompletePlan;
    assert |s.heads| > 0 ==> |s.heads| - 1 in s.heads by { ChainKeys(id, s.heads); }
    var p := StagedOf(id, s, input);
    ReplayOne(Apply, s, WPending(input.intent, p));
    var s1 := Final(s, [WPending(input.intent, p)]);
    CompleteTakesNextHead(id, s1, p);
    ReplayConcat(Apply, s, [WPending(input.intent, p)], CompletePlan(id, s1, p).writes);
  }

  /** Claim and object, stored already or not, and then the record under the next head. */
  lemma {:induction false} CommitTakesNextHead(id: Identity, s: Store, input: Input)
    requires ChainOk(id, s.heads) && ObjectsFit(s.claims, s.objects) && Unstaged(s, input)
    ensures var p := StagedOf(id, s, input);
      var s' := Final(s, CommitPlan(id, s, input).writes);
      && s'.heads == s.heads[|s.heads| := p.head] && |s'.heads| == |s.heads| + 1
      && s'.pending == s.pending[input.intent := p] && s'.finalizations == s.finalizations[input.intent := p.finalization]
  {
    hide IsHash, SafeIntent, PlacePlan, HeadLinks, Claimed;
    var i, o := input.intent, ObjectOf(input);
    ReplayOne(Apply, s, WClaim(i, ClaimOf(input)));
    var s1 := Final(s, [WClaim(i, ClaimOf(input))]);
    assert OfObject(o) in s.objects ==> OfObject(s.objects[OfObject(o)]) == OfObject(o);
    ReplayOne(Apply, s1, WObject(OfObject(o), o));
    var s2 := Final(s1, [WObject(OfObject(o), o)]);
    PlaceTakesNextHead(id, s2, input);
    assert StagedOf(id, s2, input) == StagedOf(id, s, input);
    ReplayConcat(Apply, s1, [WObject(OfObject(o), o)], PlacePlan(id, s2, input).writes);
    ReplayConcat(Apply, s, [WClaim(i, ClaimOf(input))], [WObject(OfObject(o), o)] + PlacePlan(id, s2, input).writes);
  }

  /** A finalization that has to stage its record takes the next head, whatever else is staged. */
  lemma {:induction false} FinalizeTakesNextHead(id: Identity, s: Store, input: Input)
    requires Core(id, s) && Unstaged(s, input)
    ensures var p := StagedOf(id, s, input);
      var s' := Final(s, FinalizePlan(id, s, input, true).writes);
      && s'.heads == s.heads[|s.heads| := p.head] && |s'.heads| == |s.heads| + 1
      && s'.pending == s.pending[input.intent := p] && s'.finalizations == s.finalizations[input.intent := p.finalization]
  {
    hide IsHash, SafeIntent, CommitPlan, PendingsFit, HeadsPlaced, HeadsStaged, FinalizationsFit, AnchorFits, HeadLinks, Claimed;
    var first := IntentPlan(s, input);
    var s1 := Final(s, first.writes);
    ReplayOne(Apply, s, WIntent(input.intent, RecordOf(input)));
    CommitTakesNextHead(id, s1, input);
    assert StagedOf(id, s1, input) == StagedOf(id, s, input) by { SameStaged(id, s, s1, input); }
    ReplayConcat(Apply, s, first.writes, CommitPlan(id, s1, input).writes);
  }

  /** What staging another finalization does to an unfinished record. */
  lemma {:induction false} UnfinishedOvertaken(id: Identity, s: Store, input: Input, a: Intent)
    requires Inv(id, s) && Unstaged(s, input) && Incomplete(s, a)
    ensures var s' := Final(s, FinalizePlan(id, s, input, true).writes);
      && !Inv(id, s')
      && (s.pending[a].head.generation == |s.heads| ==> Stolen(s', a))
  {
    hide IsHash, SafeIntent, FinalizePlan, ChainOk, ClaimFits, ClaimsFit, ObjectsFit, HeadsStaged, FinalizationsFit, AnchorFits, Accepts;
    var s' := Final(s, FinalizePlan(id, s, input, true).writes);
    FinalizeTakesNextHead(id, s, input);
    StagedUnderItsName(id, s, a);
    StagedHeadIsOurs(id, s, a) by { assert PendingFits(id, s.claims, s.objects, s.pending[a], a); }
    assert HeadPlaced(s.heads, s.pending[a].head);
    assert Incomplete(s', a) && s'.pending[a] == s.pending[a];
    if s.pending[a].head.generation == |s.heads| {
      assert !HeadPlaced(s'.heads, s'.pending[a].head);
    }
  }

  /** A process that skips start-up may finalize an intent whose record is not staged exactly when nothing is
      unfinished.  Otherwise the invariant is lost, and if the unfinished record's head was not yet published its
      generation is stolen for good. */
  lemma {:induction false} LiveProcessNeedsSettledStore(id: Identity, s: Store, input: Input)
    requires Inv(id, s) && Unstaged(s, input)
    ensures var s' := Final(s, FinalizePlan(id, s, input, true).writes);
      && (Inv(id, s') <==> Settled(s))
      && (forall a :: Incomplete(s, a) && s.pending[a].head.generation == |s.heads| ==> Stolen(s', a))
  {
    hide Core, Tight, FinalizePlan, LegalAll, Stolen, IsHash, SafeIntent;
    if Settled(s) {
      FinalizeSafe(id, s, input, true);
      RunKeepsInv(id, s, FinalizePlan(id, s, input, true).writes);
    }
    forall a | Incomplete(s, a)
      ensures var s' := Final(s, FinalizePlan(id, s, input, true).writes);
        && !Inv(id, s')
        && (s.pending[a].head.generation == |s.heads| ==> Stolen(s', a))
    {
      UnfinishedOvertaken(id, s, input, a);
    }
  }

  ghost function UpToStaging(id: Identity, s: Store, input: Input): seq<Write>
    requires ValidInput(input) && ChainOk(id, s.heads)
  {
    [WIntent(input.intent, RecordOf(input)), WClaim(input.intent, ClaimOf(input)),
     WObject(OfObject(ObjectOf(input)), ObjectOf(input)), WPending(input.intent, StagedOf(id, s, input))]
  }

  lemma {:induction false} ReplayFour(s: Store, ws: seq<Write>)
    requires |ws| == 4
    ensures Final(s, ws) == Apply(Apply(Apply(Apply(s, ws[0]), ws[1]), ws[2]), ws[3])
  {
    hide Apply;
    var s1 := Apply(s, ws[0]);
    var s2 := Apply(s1, ws[1]);
    var s3 := Apply(s2, ws[2]);
    assert ws[1..][1..] == ws[2..] && ws[2..][1..] == ws[3..] && ws[3..] == [ws[3]];
    ReplayOne(Apply, s3, ws[3]);
    assert Final(s2, ws[2..]) == Final(s3, ws[3..]);
    assert Final(s1, ws[1..]) == Final(s2, ws[2..]);
  }

  lemma {:induction false} ThenStarts<T, U>(s: Store, w: Write, first: Plan<Write, T>, next: Store -> Plan<Write, U>, rest: seq<Write>)
    requires first.writes == [w] && first.reply.Ok? && rest <= next(Apply(s, w)).writes
    ensures [w] + rest <= Then(s, first, next).writes
  {
    hide Apply;
    ReplayOne(Apply, s, w);
  }

  lemma {:induction false} PlaceStarts(id: Identity, s: Store, input: Input)
    requires ChainOk(id, s.heads) && ValidInput(input) && input.intent !in s.pending
    ensures [WPending(input.intent, StagedOf(id, s, input))] <= PlacePlan(id, s, input).writes
  {
    hide ValidInput, StagedOf, CompletePlan, ResultOf, HeadLinks, Apply;
  }

  lemma {:induction false} CommitStarts(id: Identity, s: Store, input: Input)
    requires ChainOk(id, s.heads) && ObjectsFit(s.claims, s.objects) && ValidInput(input)
    requires input.intent !in s.claims && input.intent !in s.pending
    ensures UpToStaging(id, s, input)[1..] <= CommitPlan(id, s, input).writes
  {
    hide ValidInput, StagedOf, PlacePlan, HeadLinks, Claimed, ClaimOf, ObjectOf;
    var ws := UpToStaging(id, s, input);
    var s1 := Apply(s, ws[1]);
    var s2 := Apply(s1, ws[2]);
    assert ws[2].hash in s.objects ==> OfObject(s.objects[ws[2].hash]) == ws[2].hash;
    PlaceStarts(id, s2, input);
    assert StagedOf(id, s2, input) == StagedOf(id, s, input) by { SameStaged(id, s, s2, input); }
    var place := (t: Store) => PlacePlan(id, t, input);
    ThenStarts(s1, ws[2], ObjectPlan(s1, input), place, [ws[3]]);
    var claimed := (t: Store) => Then(t, ObjectPlan(t, input), (u: Store) => PlacePlan(id, u, input));
    assert claimed(s1) == Then(s1, ObjectPlan(s1, input), place);
    ThenStarts(s, ws[1], ClaimPlan(s, input), claimed, [ws[2]] + [ws[3]]);
    assert ws[1..] == [ws[1]] + ([ws[2]] + [ws[3]]);
  }

  lemma {:induction false} SameStaged(id: Identity, s: Store, t: Store, input: Input)
    requires ValidInput(input) && ChainOk(id, s.heads) && t.heads == s.heads
    ensures StagedOf(id, t, input) == StagedOf(id, s, input)
  {
    hide ValidInput, PendingOf, HeadLinks;
  }

  lemma {:induction false} FirstWrites(id: Identity, s: Store, input: Input)
    requires Core(id, s) && Fresh(s, input)
    ensures UpToStaging(id, s, input) <= FinalizePlan(id, s, input, true).writes
  {
    hide ValidInput, StagedOf, CommitPlan, RecordOf, ChainOk, ClaimsFit, ObjectsFit, PendingsFit, HeadsPlaced, HeadsStaged, FinalizationsFit, AnchorFits;
    var ws := UpToStaging(id, s, input);
    var s1 := Apply(s, ws[0]);
    CommitStarts(id, s1, input);
    assert StagedOf(id, s1, input) == StagedOf(id, s, input) by { SameStaged(id, s, s1, input); }
    var next := (t: Store) =>
      if input.intent in t.finalizations then
        if t.finalizations[input.intent].inputHash != OfInput(input) then Plan([], Refused)
        else Plan([], Ok(Receipt(t.finalizations[input.intent].result)))
      else CommitPlan(id, t, input);
    ThenStarts(s, ws[0], IntentPlan(s, input), next, ws[1..]);
    assert ws == [ws[0]] + ws[1..];
  }

  /** A finalization that stops right after staging leaves its head unpublished. */
  lemma {:induction false} StagedUnpublished(id: Identity, s: Store, input: Input)
    requires Core(id, s) && Fresh(s, input)
    ensures var plan := FinalizePlan(id, s, input, true);
      && 4 <= |plan.writes|
      && var s' := Final(s, plan.writes[..4]);
      && s'.heads == s.heads && s'.claims.Keys == s.claims.Keys + {input.intent}
      && s'.intents.Keys == s.intents.Keys + {input.intent} && s'.finalizations == s.finalizations
      && s'.pending == s.pending[input.intent := StagedOf(id, s, input)]
  {
    hide FinalizePlan, Fresh, UpToStaging, Final, StagedOf, ChainOk, ClaimsFit, ObjectsFit, PendingsFit, HeadsPlaced, HeadsStaged, FinalizationsFit, AnchorFits;
    FreshValid(s, input);
    FirstWrites(id, s, input);
    var ws := UpToStaging(id, s, input);
    StagingRuns(id, s, input);
    assert FinalizePlan(id, s, input, true).writes[..4] == ws;
  }

  lemma {:induction false} FreshValid(s: Store, input: Input)
    requires Fresh(s, input)
    ensures ValidInput(input)
  {
  }

  lemma {:induction false} StagingRuns(id: Identity, s: Store, input: Input)
    requires ValidInput(input) && ChainOk(id, s.heads)
    ensures var s' := Final(s, UpToStaging(id, s, input));
      && |UpToStaging(id, s, input)| == 4
      && s'.heads == s.heads && s'.claims.Keys == s.claims.Keys + {input.intent}
      && s'.intents.Keys == s.intents.Keys + {input.intent} && s'.finalizations == s.finalizations
      && s'.pending == s.pending[input.intent := StagedOf(id, s, input)]
  {
    hide ValidInput, ChainOk, StagedOf, ClaimOf, RecordOf, ObjectOf, Apply, Replay;
    ReplayFour(s, UpToStaging(id, s, input));
    StagingWrites(id, s, input);
  }

  lemma {:induction false} StagingWrites(id: Identity, s: Store, input: Input)
    requires ValidInput(input) && ChainOk(id, s.heads)
    ensures var ws := UpToStaging(id, s, input);
      var s' := Apply(Apply(Apply(Apply(s, ws[0]), ws[1]), ws[2]), ws[3]);
      && s'.heads == s.heads && s'.claims == s.claims[input.intent := ClaimOf(input)]
      && s'.intents == s.intents[input.intent := RecordOf(input)] && s'.finalizations == s.finalizations
      && s'.pending == s.pending[input.intent := StagedOf(id, s, input)]
  {
    hide IsHash, SafeIntent, ClaimOf, RecordOf, FinalizationOf, ObjectOf, HeadLinks;
  }

  /** The store in which finalizing a stopped after staging. */
  ghost function Midway(id: Identity, s: Store, a: Input): Store
    requires 4 <= |FinalizePlan(id, s, a, true).writes|
  {
    Final(s, FinalizePlan(id, s, a, true).writes[..4])
  }

  lemma {:induction false} MidwayInv(id: Identity, s: Store, a: Input)
    requires Inv(id, s) && Settled(s) && 4 <= |FinalizePlan(id, s, a, true).writes|
    ensures Inv(id, Midway(id, s, a))
  {
    hide LegalAll, FinalizePlan, Inv, Settled, Final;
    FinalizeSafe(id, s, a, true);
    CrashKeepsInv(id, s, FinalizePlan(id, s, a, true).writes, 4);
  }

  lemma {:induction false} MidwayUnfinished(id: Identity, s: Store, a: Input, b: Input)
    requires Core(id, s) && Fresh(s, a) && Fresh(s, b) && a.intent != b.intent
    ensures 4 <= |FinalizePlan(id, s, a, true).writes|
    ensures var mid := Midway(id, s, a);
      && Fresh(mid, b) && Incomplete(mid, a.intent) && mid.pending[a.intent].head.generation == |mid.heads|
  {
    hide FinalizePlan, Final, ValidInput, ClaimsFit, ObjectsFit, PendingsFit, HeadsPlaced, HeadsStaged, FinalizationsFit, AnchorFits, ChainOk, StagedOf;
    StagedUnpublished(id, s, a);
    StagedNext(id, s, a);
  }

  lemma {:induction false} FreshUnstaged(s: Store, input: Input)
    requires Fresh(s, input)
    ensures Unstaged(s, input)
  {
  }

  /** Two calls suffice: finalizing a stops after staging, and a process that is already initialized
      finalizes b.  From then on no process starts. */
  lemma {:induction false} StolenByTheNextCall(id: Identity, s: Store, a: Input, b: Input)
    requires Inv(id, s) && Settled(s) && Fresh(s, a) && Fresh(s, b) && a.intent != b.intent
    ensures 4 <= |FinalizePlan(id, s, a, true).writes|
    ensures Stolen(Final(Midway(id, s, a), FinalizePlan(id, Midway(id, s, a), b, true).writes), a.intent)
  {
    hide FinalizePlan, Core, Tight, Stolen, Final, Fresh, Midway, Settled;
    MidwayUnfinished(id, s, a, b);
    MidwayInv(id, s, a);
    FreshUnstaged(Midway(id, s, a), b);
    LiveProcessNeedsSettledStore(id, Midway(id, s, a), b);
  }

  lemma {:induction false} StagedNext(id: Identity, s: Store, input: Input)
    requires ValidInput(input) && ChainOk(id, s.heads)
    ensures StagedOf(id, s, input).head.generation == |s.heads|
  {
  }
}
