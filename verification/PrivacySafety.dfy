/** What the signed archive keeps over every run: a journalled privacy transaction is completed by whatever
    comes next, and exact and redacted generations never mix. */
module PrivacySafety {
  import opened CrashStop
  import opened Options
  import opened EvidenceBundles
  import opened PrivacyProtocol
  import Canonical

  // ---------------------------------------------------------------- the invariant

  /** What follows m in the chain: a complete generation extends a complete one, and nothing but redaction follows redaction. */
  predicate Succeeds(next: Manifest, m: Manifest) {
    && (next.status.Complete? ==> m.status.Complete? && Extends(next.hash.content.bundle, m.hash.content.bundle))
  }

  ghost predicate Ordered(g: map<nat, Manifest>) {
    forall i: nat {:trigger Consecutive(g, i)} :: i + 1 in g ==> Consecutive(g, i)
  }

  predicate Consecutive(g: map<nat, Manifest>, i: nat) { i in g && i + 1 in g ==> Succeeds(g[i + 1], g[i]) }

  ghost predicate Addressed(objects: map<Hash, Object>) { forall h :: h in objects ==> h == Hash(objects[h]) }

  /** Nothing pending: the latest manifest's object verifies. */
  ghost predicate Quiet(r: Rules, d: Disk) {
    && d.pending.None? && Chain(d.generations) && Ordered(d.generations) && Addressed(d.objects)
    && (Latest(d).Some? ==> Verified(r, d, Latest(d).value))
  }

  /** The latest evidence, while complete, has no event whose own payload counts as redacted. */
  ghost predicate Clear(d: Disk) {
    Latest(d).Some? && Latest(d).value.status.Complete? ==> Unflagged(Latest(d).value.hash.content.bundle)
  }

  ghost predicate Settled(r: Rules, d: Disk) { Quiet(r, d) && Clear(d) }

  /** A journalled redaction, its manifest perhaps already in place. */
  ghost predicate Journalled(r: Rules, d: Disk) {
    && d.pending.Some? && JournalFits(r, d, None, d.pending.value) && Ordered(d.generations) && Addressed(d.objects)
  }

  ghost predicate Good(r: Rules, d: Disk) { Settled(r, d) || Journalled(r, d) }

  /** The disk once what is journalled has been carried out: only the redacted object is left. */
  function Completed(d: Disk): Disk {
    if d.pending.None? then d
    else
      var m := d.pending.value;
      Disk(if m.hash in d.objects then map[m.hash := d.objects[m.hash]] else map[], d.generations[m.generation := m], None)
  }

  // ---------------------------------------------------------------- finishing

  lemma {:induction false} ChainExtends(g: map<nat, Manifest>, m: Manifest)
    requires Chain(g) && m.generation == |g| && m.count > 0
    requires if |g| == 0 then m.parent.None? else |g| - 1 in g && m.parent == Some(Digest(g[|g| - 1]))
    ensures Chain(g[|g| := m]) && |g[|g| := m]| == |g| + 1
  {
    var h, n := g[|g| := m], |g|;
    assert n !in g;
    forall i: nat
      ensures i in h <==> i < |h|
    {
      assert i in g <==> i < |g|;
    }
    forall i: nat | i in h
      ensures InPlace(h, i)
    {
      if i < n { assert InPlace(g, i) && h[i] == g[i]; }
    }
  }

  lemma {:induction false} OrderedExtends(g: map<nat, Manifest>, m: Manifest)
    requires Ordered(g) && |g| !in g && |g| + 1 !in g && (|g| > 0 && |g| - 1 in g ==> Succeeds(m, g[|g| - 1]))
    ensures Ordered(g[|g| := m])
  {
    hide Succeeds;
    var h := g[|g| := m];
    forall i: nat | i + 1 in h
      ensures Consecutive(h, i)
    {
      if i in h {
        assert i + 1 in g ==> Consecutive(g, i);
      }
    }
  }

  lemma {:induction false} UnlinkKeeps(r: Rules, d: Disk, h: Hash)
    requires Journalled(r, d) && h != d.pending.value.hash
    ensures Journalled(r, Apply(d, WUnlink(h))) && Completed(Apply(d, WUnlink(h))) == Completed(d)
  {
  }

  lemma {:induction false} ManifestKeeps(r: Rules, d: Disk)
    requires Journalled(r, d)
    ensures var m := d.pending.value;
      var e := Apply(d, WManifest(m.generation, m));
      && Journalled(r, e) && Completed(e) == Completed(d) && m.generation in e.generations && Latest(e) == Some(m)
      && Anchored(e.generations, None) && |e.generations| == m.generation + 1
  {
    var m := d.pending.value;
    var g := d.generations;
    if |g| == m.generation {
      ChainExtends(g, m);
      OrderedExtends(g, m);
    } else {
      assert g[m.generation := m] == g;
    }
  }

  lemma {:induction false} UnlinksDone(r: Rules, d: Disk, names: seq<Hash>, k: nat)
    requires d.pending.Some? && Journalled(r, d) && k <= |Unlinks(names, d.pending.value.hash)|
    ensures var ws := Unlinks(names, d.pending.value.hash);
      var now := Replay(Apply, d, ws[..k]);
      && Journalled(r, now) && Completed(now) == Completed(d) && now.pending == d.pending && now.generations == d.generations
      && (k == |ws| ==> forall h :: h in now.objects <==> h in d.objects && (h !in names || h == d.pending.value.hash))
    decreases |names|
  {
    hide Journalled;
    var kept := d.pending.value.hash;
    var ws := Unlinks(names, kept);
    if k == 0 {
      assert ws[..0] == [] && Replay(Apply, d, []) == d;
      if ws == [] { NothingToUnlink(names, kept); }
    } else if names[0] == kept {
      assert ws == Unlinks(names[1..], kept);
      UnlinksDone(r, d, names[1..], k);
      assert forall h :: h in names <==> h == names[0] || h in names[1..];
    } else {
      UnlinkKeeps(r, d, names[0]);
      var d1 := Apply(d, ws[0]);
      assert ws[1..] == Unlinks(names[1..], kept) && ws[..k][1..] == ws[1..][..k - 1];
      UnlinksDone(r, d1, names[1..], k - 1);
      assert forall h :: h in names <==> h == names[0] || h in names[1..];
    }
  }

  lemma {:induction false} NothingToUnlink(names: seq<Hash>, kept: Hash)
    requires Unlinks(names, kept) == []
    ensures forall h :: h in names ==> h == kept
  {
    if names != [] {
      assert names[0] == kept && Unlinks(names[1..], kept) == [];
      NothingToUnlink(names[1..], kept);
      assert forall h :: h in names <==> h == names[0] || h in names[1..];
    }
  }

  lemma {:induction false} ClearSettles(r: Rules, d: Disk)
    requires Journalled(r, d) && Latest(d) == Some(d.pending.value) && |d.generations| == d.pending.value.generation + 1
    requires forall h :: h in d.objects ==> h == d.pending.value.hash
    ensures Apply(d, WClear) == Completed(d) && Settled(r, Completed(d))
  {
    var m := d.pending.value;
    assert d.objects == map[m.hash := d.objects[m.hash]];
    assert d.generations == d.generations[m.generation := m];
  }

  /** A good disk's pending transaction, if any, is completed by the next operation: whatever order the
      directory is listed in, and however often it is interrupted, it ends with the redacted object alone. */
  lemma {:induction false} FinishSafe(r: Rules, d: Disk, trusted: Option<Head>, names: seq<Hash>, k: nat)
    requires Good(r, d) && Anchored(d.generations, trusted) && Lists(names, d)
    requires k <= |FinishPlan(r, d, trusted, names).writes|
    ensures var plan := FinishPlan(r, d, trusted, names);
      var now := Replay(Apply, d, plan.writes[..k]);
      && plan.reply == Ok(()) && Good(r, now) && Completed(now) == Completed(d)
      && (k == |plan.writes| ==> now == Completed(d) && Settled(r, now))
  {
    var plan := FinishPlan(r, d, trusted, names);
    if d.pending.None? {
      assert plan.writes[..k] == [] && Replay(Apply, d, []) == d;
    } else {
      var m := d.pending.value;
      assert JournalFits(r, d, trusted, m);
      var w, us := WManifest(m.generation, m), Unlinks(names, m.hash);
      assert plan.writes == [w] + us + [WClear];
      FinishPrefix(r, d, names, k);
    }
  }

  lemma {:induction false} FinishPrefix(r: Rules, d: Disk, names: seq<Hash>, k: nat)
    requires d.pending.Some? && Journalled(r, d) && Lists(names, d)
    requires k <= |Unlinks(names, d.pending.value.hash)| + 2
    ensures var m := d.pending.value;
      var ws := [WManifest(m.generation, m)] + Unlinks(names, m.hash) + [WClear];
      var now := Replay(Apply, d, ws[..k]);
      && Good(r, now) && Completed(now) == Completed(d)
      && (k == |ws| ==> now == Completed(d) && Settled(r, now))
  {
    assert d.pending.Some?;
    hide Journalled, Settled, Completed;
    var m := d.pending.value;
    var us := Unlinks(names, m.hash);
    var ws := [WManifest(m.generation, m)] + us + [WClear];
    if k == 0 {
      assert ws[..0] == [] && Replay(Apply, d, []) == d;
    } else {
      var e := Apply(d, ws[0]);
      ManifestKeeps(r, d);
      assert ws[..k][1..] == (us + [WClear])[..k - 1];
      var j := if k - 1 < |us| then k - 1 else |us|;
      UnlinksDone(r, e, names, j);
      if k < |ws| {
        assert (us + [WClear])[..k - 1] == us[..j];
      } else {
        assert (us + [WClear])[..k - 1] == us + [WClear] && us[..j] == us;
        ReplayConcat(Apply, e, us, [WClear]);
        var f := Replay(Apply, e, us);
        ReplayOne(Apply, f, WClear);
        ClearSettles(r, f);
        CompletedSettled(f);
      }
    }
  }

  lemma {:induction false} CompletedSettled(d: Disk)
    ensures Completed(Completed(d)) == Completed(d)
  {
  }

  // ---------------------------------------------------------------- publications

  /** Every manifest of g is still in its place in h. */
  ghost predicate Grown(g: map<nat, Manifest>, h: map<nat, Manifest>) { forall i :: i in g ==> i in h && h[i] == g[i] }

  lemma {:induction false} ObjectKeeps(r: Rules, d: Disk, o: Object)
    requires Settled(r, d)
    ensures Settled(r, Apply(d, WObject(Hash(o), o)))
  {
  }

  /** The latest generation is complete, holds b, and is the head replied. */
  ghost predicate NowHolds(d: Disk, reply: Outcome, b: Bundle) {
    Latest(d).Some? && reply == Published(HeadOf(Latest(d).value)) && Latest(d).value.status.Complete?
    && Latest(d).value.hash.content.bundle == b
  }

  lemma {:induction false} ManifestPlaced(r: Rules, d: Disk, o: Object)
    requires Settled(r, d) && Hash(o) in d.objects && d.objects[Hash(o)] == o && o.bundle.events != [] && o.bundle.run == r.run
    requires BundleOk(r.catalogue, r.reader, o.bundle, true) && Unflagged(o.bundle)
    requires |d.generations| > 0 ==> Latest(d).Some? && Succeeds(Sealed(d, o, Complete), Latest(d).value)
    ensures var m := Sealed(d, o, Complete);
      var e := Apply(d, WManifest(m.generation, m));
      Settled(r, e) && Latest(e) == Some(m) && Grown(d.generations, e.generations)
  {
    hide BundleOk, Unflagged, Succeeds, Verified;
    var m := Sealed(d, o, Complete);
    LatestThere(d);
    ChainExtends(d.generations, m);
    OrderedExtends(d.generations, m);
    SealedVerifies(r, d, o, Complete);
  }

  /** A publication is atomic, and what it publishes extends what was there. */
  lemma {:induction false} PublishSafe(r: Rules, d: Disk, trusted: Option<Head>, o: Object, expected: Option<Digest>, k: nat)
    requires Settled(r, d) && Admitted(r, Publish(o, expected)) && Unflagged(o.bundle)
    requires k <= |PublishPlan(r, d, trusted, o, expected).writes|
    ensures var plan := PublishPlan(r, d, trusted, o, expected);
      var now := Replay(Apply, d, plan.writes[..k]);
      && Settled(r, now) && Grown(d.generations, now.generations)
      && (k == |plan.writes| && plan.reply.Ok? ==> NowHolds(now, plan.reply.value, o.bundle))
  {
    hide Verified, Follows, Succeeds, Unflagged, BundleOk, IsTombstone, Settled;
    var plan := PublishPlan(r, d, trusted, o, expected);
    if plan.writes == [] {
      assert plan.writes[..k] == [] && Replay(Apply, d, []) == d;
    } else {
      var full, m := plan.writes[0].content, plan.writes[1].manifest;
      assert plan.writes == [WObject(Hash(full), full), WManifest(m.generation, m)];
      ReplayPair(Apply, d, plan.writes[0], plan.writes[1], k);
      ObjectKeeps(r, d, full);
      var d1 := Apply(d, plan.writes[0]);
      if |d.generations| > 0 { ExtendsLatest(r, d, trusted, o, expected); }
      ManifestPlaced(r, d1, full);
    }
  }

  lemma {:induction false} LatestThere(d: Disk)
    requires Chain(d.generations)
    ensures Latest(d).Some? <==> |d.generations| > 0
    ensures |d.generations| > 0 ==> |d.generations| - 1 in d.generations
  {
  }

  lemma {:induction false} ExtendsLatest(r: Rules, d: Disk, trusted: Option<Head>, o: Object, expected: Option<Digest>)
    requires Settled(r, d) && PublishPlan(r, d, trusted, o, expected).writes != [] && |d.generations| > 0
    ensures Latest(d).Some?
    ensures Succeeds(PublishPlan(r, d, trusted, o, expected).writes[1].manifest, Latest(d).value)
  {
    hide Ordered;
    LatestThere(d);
    var h := Latest(d).value.hash;
    assert Hash(d.objects[h]) == h;
  }

  lemma {:induction false} SealedVerifies(r: Rules, d: Disk, o: Object, status: Status)
    requires o.bundle.events != [] && o.bundle.run == r.run && BundleOk(r.catalogue, r.reader, o.bundle, status.Complete?)
    ensures var m := Sealed(d, o, status);
      forall e: Disk :: m.hash in e.objects && e.objects[m.hash] == o ==> Verified(r, e, m)
  {
  }

  // ---------------------------------------------------------------- redactions

  /** What a redaction of the latest evidence produces verifies: unless some event that counts as redacted stays. */
  lemma {:induction false} PreparedVerifies(r: Rules, d: Disk, trusted: Option<Head>, request: Canonical.Json, expected: Option<Digest>)
    requires Quiet(r, d) && PreparePlan(r, d, trusted, request, expected).reply.Ok?
    ensures Latest(d).Some? && |d.generations| - 1 in d.generations
    ensures var prior, plan := Latest(d).value, PreparePlan(r, d, trusted, request, expected);
      && |plan.writes| == 2 && plan.writes == [plan.writes[0], plan.writes[1]] && plan.writes[0].WObject? && plan.writes[1].WPending?
      && var o := plan.writes[0].content;
      && plan.writes[0].hash == Hash(o) && o.bundle.events != [] && o.bundle.run == r.run
      && plan.writes[1].manifest == Sealed(d, o, Redacted) && plan.reply == Ok(plan.writes[1].manifest)
      && (BundleOk(r.catalogue, r.reader, o.bundle, false) <==> FlaggedGone(d.objects[prior.hash].bundle, o.bundle.removed))
      && (Clear(d) ==> BundleOk(r.catalogue, r.reader, o.bundle, false))
  {
    hide Ordered, Chain, Redacting, Unflagged, FlaggedGone, RedactedOk, Intact, HistoryOk;
    var prior := Latest(d).value;
    var b := d.objects[prior.hash].bundle;
    assert Hash(d.objects[prior.hash]) == prior.hash;
    RedactionVerifies(r.catalogue, r.reader, b, prior.status.Complete?, request);
  }

  /** Preparing a redaction: until its journal is written the archive is as it was, and then it is journalled. */
  lemma {:induction false} PrepareSafe(r: Rules, d: Disk, trusted: Option<Head>, request: Canonical.Json, expected: Option<Digest>, k: nat)
    requires Settled(r, d) && k <= |PreparePlan(r, d, trusted, request, expected).writes|
    ensures var plan := PreparePlan(r, d, trusted, request, expected);
      var now := Replay(Apply, d, plan.writes[..k]);
      && Good(r, now) && now.generations == d.generations
      && (k < 2 ==> Settled(r, now)) && (k == 2 ==> now.pending.Some? && Journalled(r, now) && plan.reply == Ok(now.pending.value))
  {
    hide Ordered, Chain, BundleOk, PreparePlan, Unflagged, FlaggedGone;
    var plan := PreparePlan(r, d, trusted, request, expected);
    PrepareWrites(r, d, trusted, request, expected);
    if plan.writes == [] {
      assert plan.writes[..k] == [] && Replay(Apply, d, []) == d;
    } else {
      PreparedVerifies(r, d, trusted, request, expected);
      var o, m := plan.writes[0].content, plan.writes[1].manifest;
      ReplayPair(Apply, d, plan.writes[0], plan.writes[1], k);
      ObjectKeeps(r, d, o);
      assert Verified(r, Apply(Apply(d, plan.writes[0]), plan.writes[1]), m) by { SealedVerifies(r, d, o, Redacted); }
    }
  }

  lemma {:induction false} CompletedGrows(r: Rules, d: Disk)
    requires Good(r, d)
    ensures Good(r, Completed(d)) && Completed(d).pending.None? && Settled(r, Completed(d)) && Grown(d.generations, Completed(d).generations)
    ensures Latest(Completed(d)).Some? && d.pending.Some? ==> Latest(Completed(d)) == d.pending
  {
    if d.pending.Some? {
      ManifestKeeps(r, d);
      var m := d.pending.value;
      var e := Apply(d, WManifest(m.generation, m));
      assert Verified(r, Completed(d), m);
      assert Latest(Completed(d)) == Latest(e);
    }
  }

  /** The object directory as the second listing of a redaction finds it. */
  ghost predicate ListsPrepared(r: Rules, d: Disk, trusted: Option<Head>, again: seq<Hash>, op: Operation) {
    op.Redact? && PreparePlan(r, d, trusted, op.request, op.expected).reply.Ok? ==>
      Lists(again, Replay(Apply, d, PreparePlan(r, d, trusted, op.request, op.expected).writes))
  }

  lemma {:induction false} RedactSafe(r: Rules, d: Disk, trusted: Option<Head>, again: seq<Hash>, op: Operation, k: nat)
    requires op.Redact? && Settled(r, d) && Anchored(d.generations, trusted) && ListsPrepared(r, d, trusted, again, op)
    requires k <= |Body(r, d, trusted, again, op).writes|
    ensures var now := Replay(Apply, d, Body(r, d, trusted, again, op).writes[..k]);
      && Good(r, now) && Grown(d.generations, Completed(now).generations)
      && (k == |Body(r, d, trusted, again, op).writes| && Body(r, d, trusted, again, op).reply.Ok? ==> OnlyRedacted(now))
  {
    hide Settled, Journalled, Verified, FinishPlan, PreparePlan;
    var prepare := PreparePlan(r, d, trusted, op.request, op.expected);
    PrepareSafe(r, d, trusted, op.request, op.expected, |prepare.writes|);
    assert prepare.writes[..|prepare.writes|] == prepare.writes;
    if !prepare.reply.Ok? {
      PrepareSafe(r, d, trusted, op.request, op.expected, k);
      CompletedGrows(r, Replay(Apply, d, prepare.writes[..k]));
    } else {
      assert |prepare.writes| == 2 by { PrepareWrites(r, d, trusted, op.request, op.expected); }
      var mid := Replay(Apply, d, prepare.writes);
      var finish := FinishPlan(r, mid, trusted, again);
      ReplayCut(Apply, d, prepare.writes, finish.writes, k);
      CompletedGrows(r, mid);
      if k <= 2 {
        PrepareSafe(r, d, trusted, op.request, op.expected, k);
        CompletedGrows(r, Replay(Apply, d, prepare.writes[..k]));
      } else {
        FinishSafe(r, mid, trusted, again, k - 2);
        CompletedGrows(r, Replay(Apply, mid, finish.writes[..k - 2]));
      }
      if k == |prepare.writes + finish.writes| {
        FinishSafe(r, mid, trusted, again, |finish.writes|);
        CompletedIsRedacted(r, mid);
        assert finish.writes != [] by { FinishWrites(r, mid, trusted, again); }
      }
    }
  }

  lemma {:induction false} PrepareWrites(r: Rules, d: Disk, trusted: Option<Head>, request: Canonical.Json, expected: Option<Digest>)
    ensures PreparePlan(r, d, trusted, request, expected).reply.Ok? ==> |PreparePlan(r, d, trusted, request, expected).writes| == 2
    ensures PreparePlan(r, d, trusted, request, expected).reply.Ok? <==> PreparePlan(r, d, trusted, request, expected).writes != []
  {
    hide Verified, Redacting;
  }

  lemma {:induction false} FinishWrites(r: Rules, d: Disk, trusted: Option<Head>, names: seq<Hash>)
    requires d.pending.Some? && FinishPlan(r, d, trusted, names).reply.Ok?
    ensures FinishPlan(r, d, trusted, names).writes != []
  {
    hide JournalFits;
  }

  /** The latest generation is redacted and its object is the only one there is. */
  ghost predicate OnlyRedacted(d: Disk) {
    && d.pending.None? && Latest(d).Some? && Latest(d).value.status.Redacted?
    && forall h :: h in d.objects <==> h == Latest(d).value.hash
  }

  lemma {:induction false} CompletedIsRedacted(r: Rules, d: Disk)
    requires Journalled(r, d)
    ensures OnlyRedacted(Completed(d))
  {
    ManifestKeeps(r, d);
    var m := d.pending.value;
    assert Latest(Completed(d)) == Latest(Apply(d, WManifest(m.generation, m)));
  }

  // ---------------------------------------------------------------- any operation, any run

  /** What is published has no event whose payload counts as redacted. */
  predicate Publishes(op: Operation) { op.Publish? ==> Unflagged(op.content.bundle) }

  lemma {:induction false} BodySafe(r: Rules, d: Disk, trusted: Option<Head>, again: seq<Hash>, op: Operation, k: nat)
    requires Settled(r, d) && Anchored(d.generations, trusted) && Admitted(r, op) && Publishes(op)
    requires ListsPrepared(r, d, trusted, again, op) && k <= |Body(r, d, trusted, again, op).writes|
    ensures var now := Replay(Apply, d, Body(r, d, trusted, again, op).writes[..k]);
      && Good(r, now) && Grown(d.generations, Completed(now).generations)
      && (op.Redact? && k == |Body(r, d, trusted, again, op).writes| && Body(r, d, trusted, again, op).reply.Ok? ==> OnlyRedacted(now))
  {
    hide Settled, Verified;
    match op
    case Redact(_, _, _) => RedactSafe(r, d, trusted, again, op, k);
    case Publish(o, expected) => PublishSafe(r, d, trusted, o, expected, k);
      SettledCompleted(r, Replay(Apply, d, PublishPlan(r, d, trusted, o, expected).writes[..k]));
    case _ =>
      assert Body(r, d, trusted, again, op).writes[..k] == [] && Replay(Apply, d, []) == d;
      SettledCompleted(r, d);
  }

  lemma {:induction false} SettledCompleted(r: Rules, d: Disk)
    requires Settled(r, d)
    ensures Good(r, d) && Completed(d) == d
  {
  }

  /** An operation on a good archive, dying after any k of its writes, leaves a good archive whose chain has
      only grown; a redaction that replies leaves the redacted object alone. */
  lemma {:induction false} OperationSafe(r: Rules, d: Disk, trusted: Option<Head>, names: seq<Hash>, again: seq<Hash>, op: Operation, k: nat)
    requires Good(r, d) && Anchored(d.generations, trusted) && Lists(names, d) && Publishes(op)
    requires ListsPrepared(r, Completed(d), trusted, again, op)
    requires k <= |OperationPlan(r, d, trusted, names, again, op).writes|
    ensures var plan := OperationPlan(r, d, trusted, names, again, op);
      var now := Replay(Apply, d, plan.writes[..k]);
      && Good(r, now) && Grown(Completed(d).generations, Completed(now).generations)
      && (op.Redact? && k == |plan.writes| && plan.reply.Ok? ==> OnlyRedacted(now))
  {
    hide Good, Settled, Body, FinishPlan, Completed, OnlyRedacted;
    var plan := OperationPlan(r, d, trusted, names, again, op);
    CompletedGrows(r, d);
    if !Admitted(r, op) {
      assert plan.writes[..k] == [] && Replay(Apply, d, []) == d;
    } else {
      var finish := FinishPlan(r, d, trusted, names);
      FinishSafe(r, d, trusted, names, |finish.writes|);
      assert finish.writes[..|finish.writes|] == finish.writes;
      var mid := Replay(Apply, d, finish.writes);
      var rest := Body(r, mid, trusted, again, op);
      ReplayCut(Apply, d, finish.writes, rest.writes, k);
      if k <= |finish.writes| {
        FinishSafe(r, d, trusted, names, k);
      } else {
        BodySafe(r, mid, trusted, again, op, k - |finish.writes|);
      }
      if k == |plan.writes| { BodySafe(r, mid, trusted, again, op, |rest.writes|); }
      if k == |finish.writes| { assert rest.writes[..0] == [] && Replay(Apply, mid, []) == mid; }
    }
  }

  /** One call: the head its process has seen, the directory listings it gets, and the writes it lives to make. */
  datatype Call = Call(seen: Option<nat>, names: seq<Hash>, again: seq<Hash>, op: Operation, writes: nat)

  function Trusted(d: Disk, seen: Option<nat>): Option<Head> {
    if seen.Some? && seen.value in d.generations then Some(Head(seen.value, Digest(d.generations[seen.value]))) else None
  }

  ghost function After(r: Rules, d: Disk, c: Call): Disk {
    var ws := OperationPlan(r, d, Trusted(d, c.seen), c.names, c.again, c.op).writes;
    Replay(Apply, d, ws[..if c.writes < |ws| then c.writes else |ws|])
  }

  ghost predicate Listed(r: Rules, d: Disk, c: Call) {
    Lists(c.names, d) && ListsPrepared(r, Completed(d), Trusted(d, c.seen), c.again, c.op)
  }

  ghost predicate AllListed(r: Rules, d: Disk, calls: seq<Call>)
    decreases |calls|
  {
    calls == [] || (Listed(r, d, calls[0]) && AllListed(r, After(r, d, calls[0]), calls[1..]))
  }

  ghost function RunCalls(r: Rules, d: Disk, calls: seq<Call>): Disk
    decreases |calls|
  {
    if calls == [] then d else RunCalls(r, After(r, d, calls[0]), calls[1..])
  }

  /** Over any run, by any processes dying anywhere: the archive stays good, and no manifest is ever lost or changed. */
  lemma {:induction false} RunSafe(r: Rules, d: Disk, calls: seq<Call>)
    requires Good(r, d) && AllListed(r, d, calls) && forall i :: 0 <= i < |calls| ==> Publishes(calls[i].op)
    ensures Good(r, RunCalls(r, d, calls)) && Grown(Completed(d).generations, Completed(RunCalls(r, d, calls)).generations)
    decreases |calls|
  {
    hide Good, OperationPlan, Completed, ListsPrepared, Lists;
    if calls != [] {
      var c := calls[0];
      var ws := OperationPlan(r, d, Trusted(d, c.seen), c.names, c.again, c.op).writes;
      OperationSafe(r, d, Trusted(d, c.seen), c.names, c.again, c.op, if c.writes < |ws| then c.writes else |ws|);
      RunSafe(r, After(r, d, c), calls[1..]);
    }
  }

  lemma {:induction false} CompleteExtends(g: map<nat, Manifest>, i: nat, j: nat)
    requires Chain(g) && Ordered(g) && i <= j && j in g && i in g && g[j].status.Complete?
    ensures g[i].status.Complete? && Extends(g[j].hash.content.bundle, g[i].hash.content.bundle)
    decreases j - i
  {
    if i < j {
      assert j - 1 in g;
      assert Consecutive(g, j - 1);
      CompleteExtends(g, i, j - 1);
    }
  }

  /** In every reachable archive, no complete generation follows a redacted one, and every complete
      generation extends every earlier one. */
  lemma {:induction false} NeverUnredacted(r: Rules, d: Disk, i: nat, j: nat)
    requires Good(r, d) && i <= j && i in d.generations && j in d.generations
    ensures d.generations[j].status.Complete? ==>
      && d.generations[i].status.Complete?
      && Extends(d.generations[j].hash.content.bundle, d.generations[i].hash.content.bundle)
  {
    if d.generations[j].status.Complete? { CompleteExtends(d.generations, i, j); }
  }
}
