/** The evidence authority's operations, whole runs and crashes. */
module AuthoritySafety {
  import opened CrashStop
  import opened Options
  import opened AuthorityRecords
  import opened AuthorityProtocol
  import opened AuthorityInvariant

  /** `plan` performs only legal writes from s. */
  ghost predicate Safe<T>(id: Identity, s: Store, plan: Plan<Write, T>) {
    LegalAll(id, s, plan.writes)
  }

  /** The last write of a plan that performs at most one. */
  lemma {:induction false} OneWrite(id: Identity, s: Store, w: Write)
    requires Legal(id, s, w)
    ensures LegalAll(id, s, [w]) && Final(s, [w]) == Apply(s, w)
  {
    hide Legal, Apply;
    assert [w][1..] == [];
    ReplayOne(Apply, s, w);
  }

  lemma {:induction false} NoWrite(id: Identity, s: Store)
    ensures LegalAll(id, s, []) && Final(s, []) == s
  {
  }

  lemma {:induction false} ThenSafe<T, U>(id: Identity, s: Store, first: Plan<Write, T>, next: Store -> Plan<Write, U>)
    requires Safe(id, s, first)
    requires first.reply.Ok? ==> Safe(id, Final(s, first.writes), next(Final(s, first.writes)))
    ensures Safe(id, s, Then(s, first, next))
    ensures first.reply.Ok? ==>
      var second := next(Final(s, first.writes));
      && Then(s, first, next).reply == second.reply
      && Final(s, Then(s, first, next).writes) == Final(Final(s, first.writes), second.writes)
    ensures !first.reply.Ok? ==>
      Then(s, first, next).reply == Refused && Then(s, first, next).writes == first.writes
  {
    hide Legal, Apply;
    if first.reply.Ok? {
      var second := next(Final(s, first.writes));
      LegalConcat(id, s, first.writes, second.writes);
      ReplayConcat(Apply, s, first.writes, second.writes);
    }
  }

  // ---------------------------------------------------------------- completing what is staged

  lemma {:induction false} LatestKnown(id: Identity, heads: map<nat, Head>)
    requires ChainOk(id, heads)
    ensures LatestHead(id, heads) == Ok(LatestOf(heads))
  {
    if |heads| > 0 { assert HeadLinks(id, heads, |heads| - 1); }
  }

  lemma {:induction false} ReconcileSafe(id: Identity, s: Store)
    requires Inv(id, s)
    ensures var plan := ReconcileLatest(id, s);
      && plan.reply == Ok(()) && Safe(id, s, plan)
      && Final(s, plan.writes) == (if id.anchored then s.(anchor := Anchored(LatestOf(s.heads))) else s)
  {
    hide PendingsFit, ClaimsFit, ObjectsFit, HeadsPlaced, HeadsStaged, FinalizationsFit, Tight;
    LatestKnown(id, s.heads);
    var actual := LatestOf(s.heads);
    NoWrite(id, s);
    if id.anchored && s.anchor.head != actual {
      OneWrite(id, s, WAnchor(actual));
    }
  }

  lemma {:induction false} PublishSafe(id: Identity, s: Store, i: Intent)
    requires Inv(id, s) && i in s.pending
    ensures var plan := PublishPlan(id, s, s.pending[i]);
      var s' := Final(s, plan.writes);
      && plan.reply == Ok(()) && Safe(id, s, plan)
      && s' == s.(heads := s'.heads) && s.pending[i].head.generation < |s'.heads|
  {
    hide PendingFits, ClaimsFit, ObjectsFit, FinalizationsFit, Tight;
    LatestKnown(id, s.heads);
    var h := s.pending[i].head;
    assert HeadPlaced(s.heads, h);
    assert PendingFits(id, s.claims, s.objects, s.pending[i], i);
    StagedHeadIsOurs(id, s, i);
    NoWrite(id, s);
    if h.generation == |s.heads| {
      OneWrite(id, s, WHead(|s.heads|, h));
      HeadWriteKeepsCore(id, s, h);
    }
  }

  lemma {:induction false} RecordSafe(id: Identity, s: Store, i: Intent)
    requires Inv(id, s) && i in s.pending && s.pending[i].head.generation < |s.heads|
    ensures var p := s.pending[i];
      var plan := RecordPlan(s, p);
      && p.intent == i && plan.reply == Ok(()) && Safe(id, s, plan)
      && Final(s, plan.writes) == s.(finalizations := s.finalizations[i := p.finalization])
  {
    hide PendingFits, ClaimsFit, ObjectsFit, HeadPlaced, HeadStaged, Tight, ChainOk, AnchorFits;
    assert PendingFits(id, s.claims, s.objects, s.pending[i], i);
    StagedHeadIsOurs(id, s, i);
    assert i in s.finalizations ==> FinalizationFits(s.pending, |s.heads|, s.finalizations[i], i);
    OneWrite(id, s, WFinalization(i, s.pending[i].finalization));
  }

  /** Completing a staged record always succeeds, records it, and settles nothing else. */
  lemma {:induction false} CompleteSafe(id: Identity, s: Store, i: Intent)
    requires Inv(id, s) && i in s.pending
    ensures var plan := CompletePlan(id, s, s.pending[i]);
      var s' := Final(s, plan.writes);
      && plan.reply == Ok(()) && Safe(id, s, plan)
      && s'.pending == s.pending && s'.claims == s.claims && s'.intents == s.intents
      && s'.finalizations == s.finalizations[i := s.pending[i].finalization]
      && (id.anchored ==> s'.anchor == Anchored(LatestOf(s'.heads)))
  {
    hide Inv, Legal, PublishPlan, RecordPlan, ReconcileLatest, LegalAll;
    var p := s.pending[i];
    var first := PublishPlan(id, s, p);
    PublishSafe(id, s, i);
    RunKeepsInv(id, s, first.writes);
    var s1 := Final(s, first.writes);
    var second := RecordPlan(s1, p);
    RecordSafe(id, s1, i);
    RunKeepsInv(id, s1, second.writes);
    var s2 := Final(s1, second.writes);
    ReconcileSafe(id, s2);
    var last := (t: Store) => ReconcileLatest(id, t);
    ThenSafe(id, s1, second, last);
    var rest := (t: Store) => Then(t, RecordPlan(t, p), (u: Store) => ReconcileLatest(id, u));
    assert rest(s1) == Then(s1, second, last);
    ThenSafe(id, s, first, rest);
  }

  // ---------------------------------------------------------------- start-up

  lemma {:induction false} CompleteAllSafe(id: Identity, s: Store, names: seq<Intent>)
    requires Inv(id, s) && forall n :: n in names ==> n in s.pending
    ensures var plan := CompleteAllPlan(id, s, names);
      var s' := Final(s, plan.writes);
      && plan.reply == Ok(()) && Safe(id, s, plan)
      && s'.pending == s.pending && s'.claims == s.claims && s'.intents == s.intents
      && (forall n :: n in names ==> n in s'.finalizations)
    decreases |names|
  {
    hide Legal, CompletePlan, LegalAll, Core, Tight;
    if names == [] {
      NoWrite(id, s);
    } else {
      var i := names[0];
      assert i in names;
      StagedUnderItsName(id, s, i);
      var first := CompletePlan(id, s, s.pending[i]);
      CompleteSafe(id, s, i);
      RunKeepsInv(id, s, first.writes);
      var s1 := Final(s, first.writes);
      assert forall n :: n in names[1..] ==> n in names;
      CompleteAllSafe(id, s1, names[1..]);
      RunKeepsInv(id, s1, CompleteAllPlan(id, s1, names[1..]).writes);
      ThenSafe(id, s, first, (t: Store) => CompleteAllPlan(id, t, names[1..]));
      assert names == [i] + names[1..];
    }
  }

  lemma {:induction false} StagedUnderItsName(id: Identity, s: Store, i: Intent)
    requires Inv(id, s) && i in s.pending
    ensures s.pending[i].intent == i
  {
    hide HeadPlaced, HeadStaged, FinalizationFits, Claimed, HeadLinks, Tight;
    assert PendingFits(id, s.claims, s.objects, s.pending[i], i);
  }

  /** The finalized record under a published head passes every check of the verifier. */
  lemma {:induction false} PublishedHeadVerified(id: Identity, s: Store, g: nat)
    requires Core(id, s) && Settled(s) && g < |s.heads|
    ensures HeadVerified(id, s, g)
  {
    hide HeadPlaced, Claimed;
    assert HeadLinks(id, s.heads, g);
    assert HeadStaged(s.pending, s.heads[g]);
    var i := s.heads[g].intent;
    assert PendingFits(id, s.claims, s.objects, s.pending[i], i);
    assert FinalizationFits(s.pending, |s.heads|, s.finalizations[i], i);
    var input := s.claims[i].inputHash.input;
    assert s.claims[i] == ClaimOf(input);
    assert OfObject(s.objects[OfObject(ObjectOf(input))]) == OfObject(ObjectOf(input));
  }

  ghost function HeadIntents(heads: map<nat, Head>, n: nat): set<Intent>
    requires forall g: nat :: g < n ==> g in heads
  {
    set g: nat | g < n :: heads[g].intent
  }

  /** Distinct heads belong to distinct intents. */
  lemma {:induction false} HeadIntentsDistinct(heads: map<nat, Head>, pending: map<Intent, Pending>, n: nat)
    requires forall g: nat :: g < n ==> g in heads && heads[g].generation == g && HeadStaged(pending, heads[g])
    ensures |HeadIntents(heads, n)| == n
  {
    if n > 0 {
      HeadIntentsDistinct(heads, pending, n - 1);
      assert HeadIntents(heads, n) == HeadIntents(heads, n - 1) + {heads[n - 1].intent};
      assert heads[n - 1].intent !in HeadIntents(heads, n - 1);
    }
  }

  lemma {:induction false} FinalizedUnderItsHead(id: Identity, s: Store, i: Intent)
    requires Core(id, s) && i in s.finalizations
    ensures i in s.pending
    ensures var g := s.pending[i].head.generation; g < |s.heads| && g in s.heads && s.heads[g].intent == i
  {
    hide ClaimFits, Claimed, AnchorHolds, HeadLinks, HeadStaged;
    assert FinalizationFits(s.pending, |s.heads|, s.finalizations[i], i);
    assert HeadPlaced(s.heads, s.pending[i].head);
    StagedHeadIsOurs(id, s, i) by { assert PendingFits(id, s.claims, s.objects, s.pending[i], i); }
  }

  lemma {:induction false} PublishedInOrder(id: Identity, s: Store, g: nat)
    requires Core(id, s) && g < |s.heads|
    ensures g in s.heads && s.heads[g].generation == g && HeadStaged(s.pending, s.heads[g])
  {
    hide PendingFits, ClaimFits, Claimed, AnchorHolds, FinalizationFits, HeadPlaced;
    assert HeadLinks(id, s.heads, g);
  }

  /** Heads and finalizations correspond one to one once nothing is left unfinished. */
  lemma {:induction false} HeadsMatchFinalizations(id: Identity, s: Store)
    requires Core(id, s) && Settled(s)
    ensures |s.finalizations| == |s.heads|
    ensures s.finalizations.Keys == set g | g in s.heads :: s.heads[g].intent
  {
    hide ClaimsFit, ObjectsFit, PendingsFit, HeadsPlaced, FinalizationsFit, AnchorFits, HeadsStaged, ChainOk;
    var n := |s.heads|;
    ChainKeys(id, s.heads);
    forall g: nat | g < n
      ensures g in s.heads && s.heads[g].generation == g && HeadStaged(s.pending, s.heads[g])
    {
      PublishedInOrder(id, s, g);
    }
    forall i | i in s.finalizations
      ensures i in HeadIntents(s.heads, n)
    {
      FinalizedUnderItsHead(id, s, i);
    }
    HeadIntentsDistinct(s.heads, s.pending, n);
    assert HeadIntents(s.heads, n) == s.finalizations.Keys;
    assert |s.finalizations.Keys| == |s.finalizations|;
  }

  /** The independent verifier accepts every settled store. */
  lemma {:induction false} SettledVerifies(id: Identity, s: Store)
    requires Core(id, s) && Settled(s)
    ensures Verified(id, s)
  {
    hide HeadVerified, PendingFits, Claimed, HeadPlaced, HeadStaged, FinalizationFits;
    HeadsMatchFinalizations(id, s);
    forall g: nat | g < |s.heads|
      ensures HeadVerified(id, s, g)
    {
      PublishedHeadVerified(id, s, g);
    }
    assert forall i :: i in s.claims ==> ClaimFits(s.claims[i], i);
  }

  /** `names` lists the pending directory. */
  ghost predicate Lists(names: seq<Intent>, s: Store) {
    forall n :: n in names <==> n in s.pending
  }

  /** Start-up always succeeds on a store a crash left, and leaves every staged record finalized. */
  lemma {:induction false} InitSafe(id: Identity, s: Store, names: seq<Intent>)
    requires Inv(id, s) && Lists(names, s)
    ensures var plan := InitPlan(id, s, names);
      var s' := Final(s, plan.writes);
      && plan.reply == Ok(()) && Safe(id, s, plan) && Settled(s') && Verified(id, s')
      && s'.intents == s.intents && s'.claims == s.claims && s'.pending == s.pending
      && (id.anchored ==> s'.anchor == Anchored(LatestOf(s'.heads)))
  {
    hide Legal, CompleteAllPlan, ReconcileLatest, LegalAll, Tight, Verified;
    hide ClaimsFit, ObjectsFit, PendingsFit, HeadsPlaced, HeadsStaged, FinalizationsFit, AnchorFits;
    CompleteAllSafe(id, s, names);
    var first := CompleteAllPlan(id, s, names);
    RunKeepsInv(id, s, first.writes);
    var s1 := Final(s, first.writes);
    assert Settled(s1);
    SettledVerifies(id, s1);
    ReconcileSafe(id, s1);
    var rest := (t: Store) => if Verified(id, t) then ReconcileLatest(id, t) else Plan<Write, ()>.Plan([], Refused);
    ThenSafe(id, s, first, rest);
    var second := rest(s1);
    RunKeepsInv(id, s1, second.writes);
    SettledVerifies(id, Final(s1, second.writes));
  }
}
