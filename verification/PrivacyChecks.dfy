/** What an answer of the signed archive says of whatever disk it was given on: no answer without a gap-free signed chain,
    the head seen before, and an object that is what its manifest says. */
module PrivacyChecks {
  import opened CrashStop
  import opened Options
  import opened EvidenceBundles
  import opened PrivacyProtocol
  import Canonical

  /** Manifests are numbered from zero without a gap, none is empty, and each names the one before it. */
  ghost predicate Numbered(g: map<nat, Manifest>) {
    && (forall i: nat :: i in g <==> i < |g|)
    && forall i: nat {:trigger Linked(g, i)} :: i < |g| ==> Linked(g, i)
  }

  ghost predicate Linked(g: map<nat, Manifest>, i: nat) {
    && i in g && g[i].generation == i && g[i].count >= 1
    && (i == 0 ==> g[i].parent == None)
    && (i > 0 ==> i - 1 in g && g[i].parent == Some(Digest(g[i - 1])))
  }

  /** The head seen before is still there, unchanged. */
  ghost predicate Seen(g: map<nat, Manifest>, trusted: Option<Head>) {
    match trusted
    case None => true
    case Some(h) => h.generation in g && h.digest == Digest(g[h.generation])
  }

  /** The object is the one the manifest names, of this run, with as many events as it says, ending at the digest it says. */
  ghost predicate Described(r: Rules, o: Object, m: Manifest) {
    && m.hash == Hash(o) && o.bundle.run == r.run && |o.bundle.events| == m.count && m.count >= 1
    && m.eventHead == o.bundle.events[m.count - 1].hash
    && BundleOk(r.catalogue, r.reader, o.bundle, m.status == Complete)
  }

  ghost predicate IsLast(g: map<nat, Manifest>, m: Manifest) { |g| >= 1 && |g| - 1 in g && g[|g| - 1] == m }

  ghost predicate HeadIs(g: map<nat, Manifest>, h: Head) {
    |g| >= 1 && |g| - 1 in g && h.generation == g[|g| - 1].generation && h.digest == Digest(g[|g| - 1])
  }

  lemma {:induction false} HistoryNumbered(d: Disk, trusted: Option<Head>)
    ensures HistoryOk(d, trusted) <==> Numbered(d.generations) && Seen(d.generations, trusted)
  {
    var g := d.generations;
    assert forall i: nat :: i in g ==> (InPlace(g, i) <==> Linked(g, i));
  }

  lemma {:induction false} VerifiedDescribed(r: Rules, d: Disk, m: Manifest)
    ensures Verified(r, d, m) <==> m.hash in d.objects && Described(r, d.objects[m.hash], m)
  {
    hide BundleOk;
  }

  // ---------------------------------------------------------------- looking

  /** A head is handed out exactly over a good history, and is its last one. */
  lemma {:induction false} HeadChecked(r: Rules, d: Disk, trusted: Option<Head>, names: seq<Hash>)
    ensures var reply, g := Body(r, d, trusted, names, HeadOnly).reply, d.generations;
      && (reply.Ok? <==> Numbered(g) && Seen(g, trusted))
      && (reply.Ok? ==> reply.value.Found? && (reply.value.current.None? <==> |g| == 0)
                        && (reply.value.current.Some? ==> HeadIs(g, reply.value.current.value)))
  {
    HistoryNumbered(d, trusted);
  }

  /** Evidence is handed out exactly when the last manifest of a good history describes it. */
  lemma {:induction false} LoadChecked(r: Rules, d: Disk, trusted: Option<Head>, names: seq<Hash>)
    ensures var reply, g := Body(r, d, trusted, names, Load).reply, d.generations;
      && (reply.Ok? <==>
            && Numbered(g) && Seen(g, trusted) && |g| > 0
            && g[|g| - 1].hash in d.objects && Described(r, d.objects[g[|g| - 1].hash], g[|g| - 1]))
      && (reply.Ok? ==> reply.value.Loaded? && HeadIs(g, reply.value.head) && Described(r, reply.value.content, g[|g| - 1]))
  {
    hide BundleOk;
    HistoryNumbered(d, trusted);
    if Latest(d).Some? { VerifiedDescribed(r, d, Latest(d).value); }
  }

  // ---------------------------------------------------------------- publishing

  /** The later evidence keeps every event of the earlier one at its place, and every payload. */
  ghost predicate Keeps(later: Bundle, earlier: Bundle) {
    && |earlier.events| <= |later.events| && (forall i :: 0 <= i < |earlier.events| ==> later.events[i] == earlier.events[i])
    && (forall p :: p in earlier.payloads ==> p in later.payloads && later.payloads[p] == earlier.payloads[p])
  }

  /** What is published: the content, under the analysis package given, or else under the one there already was. */
  ghost predicate Packaged(full: Object, o: Object, prior: Option<Object>) {
    && full.bundle == o.bundle && full.service == o.service
    && (o.analysis.Some? ==> full.analysis == o.analysis)
    && (o.analysis.None? ==> full.analysis == if prior.Some? then prior.value.analysis else None)
  }

  /** The evidence may follow what is there: that is complete, described by its manifest, kept by the new evidence, and its
      analysis package, if any, is not replaced. */
  ghost predicate MayFollow(r: Rules, d: Disk, o: Object) {
    |d.generations| > 0 ==>
      && |d.generations| - 1 in d.generations
      && var last := d.generations[|d.generations| - 1];
      && last.status == Complete && last.hash in d.objects && Described(r, d.objects[last.hash], last)
      && Keeps(o.bundle, d.objects[last.hash].bundle)
      && (o.analysis.Some? && d.objects[last.hash].analysis.Some? ==> o.analysis == d.objects[last.hash].analysis)
  }

  ghost predicate Expects(g: map<nat, Manifest>, expected: Option<Digest>) {
    expected == if |g| > 0 && |g| - 1 in g then Some(Digest(g[|g| - 1])) else None
  }

  /** The manifest sealing this object after the generations g. */
  ghost predicate SealedAs(g: map<nat, Manifest>, o: Object, m: Manifest, status: Status) {
    && m.generation == |g| && Expects(g, m.parent) && m.hash == Hash(o) && |o.bundle.events| == m.count && m.count >= 1
    && m.eventHead == o.bundle.events[m.count - 1].hash && m.status == status
  }

  /** A publication goes through exactly over a good history, from the expected head, of evidence that may follow; it adds the
      object and then the one manifest that seals it, and answers with that. */
  lemma {:induction false} PublishChecked(r: Rules, d: Disk, trusted: Option<Head>, o: Object, expected: Option<Digest>)
    requires forall h :: h in d.objects ==> h == Hash(d.objects[h])
    ensures var plan, g := PublishPlan(r, d, trusted, o, expected), d.generations;
      && (plan.reply.Ok? <==> Numbered(g) && Seen(g, trusted) && Expects(g, expected) && MayFollow(r, d, o) && o.bundle.events != [])
      && (!plan.reply.Ok? ==> plan.writes == [] && plan.reply == Refused)
      && (plan.reply.Ok? ==> exists full, m :: PublishedAs(d, o, plan, full, m))
  {
    hide BundleOk, Sealed, Analysis;
    HistoryNumbered(d, trusted);
    if Latest(d).Some? { VerifiedDescribed(r, d, Latest(d).value); }
    FollowsKeeps(d, o);
    var plan := PublishPlan(r, d, trusted, o, expected);
    if plan.reply.Ok? {
      var full := o.(analysis := Analysis(o.analysis, if Latest(d).Some? then Some(d.objects[Latest(d).value.hash]) else None));
      PackagedFull(d, o);
      SealedTold(d, full, Complete);
      assert PublishedAs(d, o, plan, full, Sealed(d, full, Complete));
    }
  }

  ghost predicate PublishedAs(d: Disk, o: Object, plan: Plan<Write, Outcome>, full: Object, m: Manifest) {
    && Packaged(full, o, PriorOf(d)) && SealedAs(d.generations, full, m, Complete)
    && plan.writes == [WObject(Hash(full), full), WManifest(m.generation, m)]
    && plan.reply == Ok(Published(Head(m.generation, Digest(m))))
  }

  ghost function PriorOf(d: Disk): Option<Object> {
    if |d.generations| > 0 && |d.generations| - 1 in d.generations && d.generations[|d.generations| - 1].hash in d.objects
    then Some(d.objects[d.generations[|d.generations| - 1].hash]) else None
  }

  lemma {:induction false} FollowsKeeps(d: Disk, o: Object)
    ensures Latest(d).Some? && Latest(d).value.hash in d.objects ==>
      var prior := d.objects[Latest(d).value.hash];
      Follows(o, prior) <==> Keeps(o.bundle, prior.bundle) && (o.analysis.Some? && prior.analysis.Some? ==> o.analysis == prior.analysis)
  {
    if Latest(d).Some? && Latest(d).value.hash in d.objects {
      var a, b := d.objects[Latest(d).value.hash].bundle.events, o.bundle.events;
      if |a| <= |b| && forall i :: 0 <= i < |a| ==> b[i] == a[i] { assert b[..|a|] == a; }
    }
  }

  lemma {:induction false} PackagedFull(d: Disk, o: Object)
    requires Latest(d).Some? ==> Latest(d).value.hash in d.objects
    ensures Packaged(o.(analysis := Analysis(o.analysis, if Latest(d).Some? then Some(d.objects[Latest(d).value.hash]) else None)), o, PriorOf(d))
  {
  }

  lemma {:induction false} SealedTold(d: Disk, o: Object, status: Status)
    requires o.bundle.events != []
    ensures SealedAs(d.generations, o, Sealed(d, o, status), status)
  {
  }

  // ---------------------------------------------------------------- redacting

  /** A redaction is prepared exactly over a good history, from the expected head, of evidence its manifest describes and
      that can be redacted; it adds the redacted object alone, without service state or analysis, and journals the manifest
      that seals it. */
  lemma {:induction false} PrepareChecked(r: Rules, d: Disk, trusted: Option<Head>, request: Canonical.Json, expected: Option<Digest>)
    requires forall h :: h in d.objects ==> h == Hash(d.objects[h])
    ensures var plan, g := PreparePlan(r, d, trusted, request, expected), d.generations;
      && (plan.reply.Ok? <==>
            && Numbered(g) && Seen(g, trusted) && |g| > 0 && Expects(g, expected)
            && g[|g| - 1].hash in d.objects && Described(r, d.objects[g[|g| - 1].hash], g[|g| - 1])
            && Erases(r, d.objects[g[|g| - 1].hash].bundle, g[|g| - 1].status == Complete, request))
      && (!plan.reply.Ok? ==> plan.writes == [] && plan.reply == Refused)
      && (plan.reply.Ok? ==>
            && SealedAs(g, RedactedObject(r, d, request), plan.reply.value, Redacted)
            && plan.writes == [WObject(Hash(RedactedObject(r, d, request)), RedactedObject(r, d, request)), WPending(plan.reply.value)])
  {
    hide BundleOk, Sealed, Redacting;
    HistoryNumbered(d, trusted);
    if Latest(d).Some? { VerifiedDescribed(r, d, Latest(d).value); }
    if PreparePlan(r, d, trusted, request, expected).reply.Ok? { SealedTold(d, RedactedObject(r, d, request), Redacted); }
  }

  ghost predicate Erases(r: Rules, b: Bundle, complete: bool, request: Canonical.Json) {
    Redacting(r.catalogue, r.reader, b, complete, request).Some? && Redacting(r.catalogue, r.reader, b, complete, request).value.events != []
  }

  ghost function RedactedObject(r: Rules, d: Disk, request: Canonical.Json): Object {
    if PriorOf(d).Some? then
      var b := Redacting(r.catalogue, r.reader, PriorOf(d).value.bundle, d.generations[|d.generations| - 1].status == Complete, request);
      Object(if b.Some? then b.value else PriorOf(d).value.bundle, None, None)
    else Object(Bundle(r.run, [], map[], false, {}, []), None, None)
  }

  /** What is journalled is carried out exactly if it is the next manifest, or the last one already, after a predecessor it
      names, and describes its object; then the manifest is in place, every other listed object is gone, and the journal is. */
  lemma {:induction false} FinishChecked(r: Rules, d: Disk, trusted: Option<Head>, names: seq<Hash>)
    requires d.pending.Some?
    ensures var plan, g, m := FinishPlan(r, d, trusted, names), d.generations, d.pending.value;
      && (plan.reply.Ok? <==>
            && m.status == Redacted && Numbered(g) && Seen(g, trusted) && m.generation >= 1
            && m.generation - 1 in g && m.parent == Some(Digest(g[m.generation - 1]))
            && (m.generation == |g| || (m.generation + 1 == |g| && IsLast(g, m)))
            && m.hash in d.objects && Described(r, d.objects[m.hash], m))
      && (!plan.reply.Ok? ==> plan.writes == [] && plan.reply == Refused)
      && (plan.reply.Ok? ==>
            && |plan.writes| >= 2 && plan.writes[0] == WManifest(m.generation, m) && plan.writes[|plan.writes| - 1] == WClear
            && (forall i :: 1 <= i < |plan.writes| - 1 ==> plan.writes[i].WUnlink? && plan.writes[i].hash in names && plan.writes[i].hash != m.hash)
            && forall h :: h in names && h != m.hash ==> WUnlink(h) in plan.writes[1..|plan.writes| - 1])
  {
    hide BundleOk;
    HistoryNumbered(d, trusted);
    VerifiedDescribed(r, d, d.pending.value);
    UnlinksTold(names, d.pending.value.hash);
    hide Numbered, Seen, HistoryOk, Verified, Described, Unlinks;
  }

  lemma {:induction false} UnlinksTold(names: seq<Hash>, kept: Hash)
    ensures forall w :: w in Unlinks(names, kept) ==> w.WUnlink? && w.hash in names && w.hash != kept
    ensures forall h :: h in names && h != kept ==> WUnlink(h) in Unlinks(names, kept)
  {
    if names != [] {
      UnlinksTold(names[1..], kept);
      assert forall h :: h in names <==> h == names[0] || h in names[1..];
    }
  }
}
