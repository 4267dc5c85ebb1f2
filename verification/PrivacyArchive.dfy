/** The signed archive as a process over its directory. */
module PrivacyArchive {
  import opened CrashStop
  import opened Numbering
  import opened Options
  import opened PrivacyProtocol
  import opened EvidenceBundles
  import opened PrivacySafety
  import Canonical

  lemma {:induction false} ReplayNext(d: Disk, ws: seq<Write>, n: nat)
    requires n < |ws|
    ensures Replay(Apply, d, ws[..n + 1]) == Apply(Replay(Apply, d, ws[..n]), ws[n])
  {
    hide Apply;
    assert ws[..n + 1] == ws[..n] + [ws[n]];
    ReplayConcat(Apply, d, ws[..n], [ws[n]]);
    ReplayOne(Apply, Replay(Apply, d, ws[..n]), ws[n]);
  }

  /** The process has made exactly the first n writes of ws. */
  ghost predicate Reached(d: Disk, f: nat, ws: seq<Write>, n: nat, now: Disk, fuel: nat) {
    n <= |ws| && n <= f && fuel == f - n && now == Replay(Apply, d, ws[..n])
  }

  lemma {:induction false} ReachedNext(d: Disk, f: nat, ws: seq<Write>, n: nat, now: Disk, fuel: nat)
    requires Reached(d, f, ws, n, now, fuel) && n < |ws| && fuel > 0
    ensures Reached(d, f, ws, n + 1, Apply(now, ws[n]), fuel - 1)
  {
    hide Apply;
    ReplayNext(d, ws, n);
  }

  lemma {:induction false} ReachedEnds<T>(d: Disk, f: nat, plan: Plan<Write, T>, n: nat, now: Disk, fuel: nat)
    requires Reached(d, f, plan.writes, n, now, fuel)
    ensures n < |plan.writes| && fuel == 0 ==> Ran(Apply, plan, d, f, Died, now, fuel)
    ensures n == |plan.writes| ==> Ran(Apply, plan, d, f, plan.reply, now, fuel)
  {
    hide Apply;
    if n == |plan.writes| { assert plan.writes[..n] == plan.writes; }
  }

  lemma {:induction false} ReachedStart(d: Disk, f: nat, ws: seq<Write>)
    ensures Reached(d, f, ws, 0, d, f)
  {
    hide Apply;
    assert ws[..0] == [];
  }

  lemma {:induction false} UnlinksSplit(names: seq<Hash>, i: nat, kept: Hash)
    requires i < |names|
    ensures Unlinks(names[..i + 1], kept) == Unlinks(names[..i], kept) + (if names[i] == kept then [] else [WUnlink(names[i])])
    ensures Unlinks(names[..i], kept) <= Unlinks(names, kept) && Unlinks(names[..i + 1], kept) <= Unlinks(names, kept)
  {
    UnlinksConcat(names[..i], [names[i]], kept);
    assert names[..i + 1] == names[..i] + [names[i]];
    UnlinksConcat(names[..i], names[i..], kept);
    assert names == names[..i] + names[i..] && names == names[..i + 1] + names[i + 1..];
    UnlinksConcat(names[..i + 1], names[i + 1..], kept);
    assert Unlinks([names[i]], kept) == if names[i] == kept then [] else [WUnlink(names[i])];
  }

  lemma {:induction false} UnlinksConcat(a: seq<Hash>, b: seq<Hash>, kept: Hash)
    ensures Unlinks(a + b, kept) == Unlinks(a, kept) + Unlinks(b, kept)
  {
    if a == [] {
      assert a + b == b;
    } else {
      assert (a + b)[0] == a[0] && (a + b)[1..] == a[1..] + b;
      UnlinksConcat(a[1..], b, kept);
    }
  }

  ghost predicate Walked(g: map<nat, Manifest>, n: nat) {
    && (forall i: nat :: i < n ==> i in g)
    && (forall i: nat {:trigger InPlace(g, i)} :: i in g && i < n ==> InPlace(g, i))
  }

  lemma {:induction false} WalkOn(g: map<nat, Manifest>, n: nat)
    requires Walked(g, n) && n in g && InPlace(g, n)
    ensures Walked(g, n + 1)
  {
    hide InPlace;
  }

  lemma {:induction false} WalkedAll(g: map<nat, Manifest>)
    requires Walked(g, |g|)
    ensures Chain(g)
  {
    hide InPlace;
    Gapless(g);
  }

  lemma {:induction false} Breaks(g: map<nat, Manifest>, i: nat)
    requires i < |g| && (i !in g || !InPlace(g, i))
    ensures !Chain(g)
  {
  }

  /** What a caller may rely on: a good archive stays good whenever the call is cut short, no manifest is lost or
      changed, and a redaction that replies has left the redacted object alone. */
  ghost predicate Answered(r: Rules, before: Disk, t: Option<Head>, names: seq<Hash>, again: seq<Hash>, op: Operation,
                           reply: Reply<Outcome>, after: Disk) {
    && Good(r, before) && Anchored(before.generations, t) && Lists(names, before) && Publishes(op)
    && ListsPrepared(r, Completed(before), t, again, op)
    ==>
    && Good(r, after) && Grown(Completed(before).generations, Completed(after).generations)
    && (op.Redact? && reply.Ok? ==> OnlyRedacted(after))
  }

  lemma {:induction false} RanKeeps(r: Rules, d: Disk, f: nat, t: Option<Head>, names: seq<Hash>, again: seq<Hash>, op: Operation,
                                    reply: Reply<Outcome>, after: Disk, left: nat)
    requires Ran(Apply, OperationPlan(r, d, t, names, again, op), d, f, reply, after, left)
    ensures Answered(r, d, t, names, again, op, reply, after)
  {
    hide Good, Apply, OperationPlan, Completed, Grown, OnlyRedacted, ListsPrepared, Lists, Anchored;
    if Good(r, d) && Anchored(d.generations, t) && Lists(names, d) && Publishes(op) && ListsPrepared(r, Completed(d), t, again, op) {
      var plan := OperationPlan(r, d, t, names, again, op);
      OperationSafe(r, d, t, names, again, op, if f < |plan.writes| then f else |plan.writes|);
      assert plan.writes[..|plan.writes|] == plan.writes;
    }
  }

  class SignedArchive {
    const rules: Rules

    // the directory
    var objects: map<Hash, Object>
    var generations: map<nat, Manifest>
    var pending: Option<Manifest>

    // the process
    var trustedHead: Option<Head>
    var fuel: nat  // durable writes left before the process dies

    constructor (rules: Rules)
      ensures this.rules == rules && Good(rules, Durable()) && Anchored(generations, trustedHead)
    {
      this.rules := rules;
      objects, generations, pending := map[], map[], None;
      trustedHead, fuel := None, 0;
    }

    function Durable(): Disk
      reads this
    {
      Disk(objects, generations, pending)
    }

    /** One durable write, unless the process dies first. */
    method Persist(w: Write) returns (alive: bool)
      modifies this
      ensures alive <==> old(fuel) > 0
      ensures alive ==> Durable() == Apply(old(Durable()), w) && fuel == old(fuel) - 1
      ensures !alive ==> Durable() == old(Durable()) && fuel == old(fuel)
      ensures trustedHead == old(trustedHead)
    {
      if fuel == 0 { return false; }
      fuel := fuel - 1;
      match w {
        case WObject(h, o) => objects := objects[h := o];
        case WManifest(n, m) => generations := generations[n := m];
        case WPending(m) => pending := Some(m);
        case WUnlink(h) => objects := objects - {h};
        case WClear => pending := None;
      }
      alive := true;
    }

    /** Walks the manifests in order, compares them with the trusted head and moves it to the last one. */
    method History() returns (ok: bool)
      modifies this`trustedHead
      ensures ok <==> HistoryOk(Durable(), old(trustedHead))
      ensures trustedHead == if ok && Latest(Durable()).Some? then Some(HeadOf(Latest(Durable()).value)) else old(trustedHead)
    {
      hide InPlace;
      for index := 0 to |generations|
        invariant Walked(generations, index) && (index > 0 ==> index - 1 in generations)
        invariant trustedHead == old(trustedHead)
      {
        if index !in generations || !InPlace(generations, index) {
          Breaks(generations, index);
          return false;
        }
        WalkOn(generations, index);
      }
      WalkedAll(generations);
      if !Anchored(generations, trustedHead) { return false; }
      ok := true;
      LatestNumbered(Durable());
      if |generations| > 0 {
        trustedHead := Some(Head(|generations| - 1, Digest(generations[|generations| - 1])));
      }
    }

    /** The journal's redaction continues the chain and its object is there. */
    method JournalReady(body: Manifest) returns (ok: bool)
      modifies this`trustedHead
      ensures ok <==> JournalFits(rules, Durable(), old(trustedHead), body)
      ensures trustedHead == old(trustedHead) || trustedHead == HeadAfter(Durable())
    {
      hide HistoryOk, Verified;
      if !body.status.Redacted? { return false; }
      ok := History();
      if !ok || (|generations| != body.generation && !(|generations| == body.generation + 1 && Latest(Durable()) == Some(body))) {
        return false;
      }
      if body.generation == 0 || body.generation - 1 !in generations || body.parent != Some(Digest(generations[body.generation - 1])) {
        return false;
      }
      ok := Verified(rules, Durable(), body);
    }

    /** Deletes every listed object but one. */
    method Purge(names: seq<Hash>, kept: Hash, ghost d: Disk, ghost f: nat, ghost plan: Plan<Write, ()>) returns (alive: bool)
      requires |plan.writes| == |Unlinks(names, kept)| + 2 && plan.writes == [plan.writes[0]] + Unlinks(names, kept) + [WClear]
      requires Reached(d, f, plan.writes, 1, Durable(), fuel)
      modifies this
      ensures alive ==> Reached(d, f, plan.writes, |plan.writes| - 1, Durable(), fuel)
      ensures !alive ==> Ran(Apply, plan, d, f, Died, Durable(), fuel)
      ensures generations == old(generations) && trustedHead == old(trustedHead)
    {
      hide Apply, Reached, Ran, Unlinks;
      assert Unlinks(names[..0], kept) == [] by { NoUnlinks(names, kept); }
      for i := 0 to |names|
        invariant |Unlinks(names[..i], kept)| + 2 <= |plan.writes|
        invariant Reached(d, f, plan.writes, 1 + |Unlinks(names[..i], kept)|, Durable(), fuel)
        invariant generations == old(generations) && trustedHead == old(trustedHead)
      {
        UnlinksSplit(names, i, kept);
        if names[i] != kept {
          ghost var n, now, left := 1 + |Unlinks(names[..i], kept)|, Durable(), fuel;
          assert plan.writes[n] == WUnlink(names[i]);
          alive := Persist(WUnlink(names[i]));
          if !alive {
            ReachedEnds(d, f, plan, n, now, left);
            return;
          }
          ReachedNext(d, f, plan.writes, n, now, left);
          WritesTouchUnlink(now, names[i]);
        }
      }
      assert names[..|names|] == names;
      alive := true;
    }

    /** Carries out a journalled redaction: its manifest, the purge of every other object, the journal. */
    method FinishPrivacy(names: seq<Hash>) returns (r: Reply<()>)
      modifies this
      ensures Ran(Apply, FinishPlan(rules, old(Durable()), old(trustedHead), names), old(Durable()), old(fuel), r, Durable(), fuel)
      ensures r.Ok? ==> (HistoryOk(Durable(), trustedHead) <==> HistoryOk(Durable(), old(trustedHead)))
    {
      hide Apply, HistoryOk, Reached, JournalFits, Ran;
      ghost var d, f, t := Durable(), fuel, trustedHead;
      ghost var plan := FinishPlan(rules, d, t, names);
      ReachedStart(d, f, plan.writes);
      ReachedEnds(d, f, plan, 0, d, f);
      if pending.None? { return Ok(()); }
      var body := pending.value;
      var ready := JournalReady(body);
      if !ready { return Refused; }
      var alive := Persist(WManifest(body.generation, body));
      if !alive { return Died; }
      ReachedNext(d, f, plan.writes, 0, d, f);
      WritesTouch(d, body);
      alive := Purge(names, body.hash, d, f, plan);
      if !alive { return Died; }
      ghost var n, now, left := |plan.writes| - 1, Durable(), fuel;
      alive := Persist(WClear);
      ReachedEnds(d, f, plan, n, now, left);
      if !alive { return Died; }
      ReachedNext(d, f, plan.writes, n, now, left);
      ReachedEnds(d, f, plan, n + 1, Durable(), fuel);
      WritesTouch(now, body);
      AnchorsAgree(rules, d, t, Durable());
      r := Ok(());
    }

    method CurrentHead(names: seq<Hash>) returns (r: Reply<Outcome>)
      modifies this
      ensures Ran(Apply, OperationPlan(rules, old(Durable()), old(trustedHead), names, [], HeadOnly), old(Durable()), old(fuel), r, Durable(), fuel)
      ensures Answered(rules, old(Durable()), old(trustedHead), names, [], HeadOnly, r, Durable())
    {
      hide Answered, Apply, HistoryOk, FinishPlan, OperationPlan;
      ghost var d, f, t := Durable(), fuel, trustedHead;
      var finished := FinishPrivacy(names);
      if !finished.Ok? {
        r := if finished.Died? then Died else Refused;
        Stopped(rules, d, f, t, names, [], HeadOnly, finished, Durable(), fuel);
        RanKeeps(rules, d, f, t, names, [], HeadOnly, r, Durable(), fuel);
        return;
      }
      ghost var mid, left, t1 := Durable(), fuel, trustedHead;
      var ok := History();
      r := if !ok then Refused else Ok(Found(HeadAfter(Durable())));
      RanNothing(mid, left, r);
      Performed(rules, d, f, t, names, [], HeadOnly, finished, mid, left, t1, r, Durable(), fuel);
      RanKeeps(rules, d, f, t, names, [], HeadOnly, r, Durable(), fuel);
    }

    method LoadLatest(names: seq<Hash>) returns (r: Reply<Outcome>)
      modifies this
      ensures Ran(Apply, OperationPlan(rules, old(Durable()), old(trustedHead), names, [], Load), old(Durable()), old(fuel), r, Durable(), fuel)
      ensures Answered(rules, old(Durable()), old(trustedHead), names, [], Load, r, Durable())
    {
      hide Answered, Apply, HistoryOk, FinishPlan, OperationPlan;
      ghost var d, f, t := Durable(), fuel, trustedHead;
      var finished := FinishPrivacy(names);
      if !finished.Ok? {
        r := if finished.Died? then Died else Refused;
        Stopped(rules, d, f, t, names, [], Load, finished, Durable(), fuel);
        RanKeeps(rules, d, f, t, names, [], Load, r, Durable(), fuel);
        return;
      }
      ghost var mid, left, t1 := Durable(), fuel, trustedHead;
      var ok := History();
      var head := Latest(Durable());
      if !ok || head.None? || !Verified(rules, Durable(), head.value) {
        r := Refused;
      } else {
        r := Ok(Loaded(objects[head.value.hash], HeadOf(head.value)));
      }
      RanNothing(mid, left, r);
      Performed(rules, d, f, t, names, [], Load, finished, mid, left, t1, r, Durable(), fuel);
      RanKeeps(rules, d, f, t, names, [], Load, r, Durable(), fuel);
    }

    /** The object first, then the manifest that publishes it. */
    method WriteGeneration(full: Object, ghost d: Disk, ghost f: nat, ghost plan: Plan<Write, Outcome>) returns (r: Reply<Outcome>)
      requires full.bundle.events != [] && Durable() == d && fuel == f
      requires var m := Sealed(d, full, Complete);
        plan == Plan([WObject(Hash(full), full), WManifest(m.generation, m)], Ok(Published(HeadOf(m))))
      modifies this
      ensures Ran(Apply, plan, d, f, r, Durable(), fuel) && trustedHead == old(trustedHead)
    {
      hide Apply, Reached;
      ReachedStart(d, f, plan.writes);
      ReachedEnds(d, f, plan, 0, d, f);
      var manifest := Sealed(Durable(), full, Complete);
      var alive := Persist(WObject(Hash(full), full));
      if !alive { return Died; }
      ghost var now, rest := Durable(), fuel;
      ReachedNext(d, f, plan.writes, 0, d, f);
      ReachedEnds(d, f, plan, 1, now, rest);
      alive := Persist(WManifest(manifest.generation, manifest));
      if !alive { return Died; }
      ReachedNext(d, f, plan.writes, 1, now, rest);
      ReachedEnds(d, f, plan, 2, Durable(), fuel);
      r := Ok(Published(HeadOf(manifest)));
    }

    method PublishBundle(content: Object, expected: Option<Digest>, names: seq<Hash>) returns (r: Reply<Outcome>)
      modifies this
      ensures Ran(Apply, OperationPlan(rules, old(Durable()), old(trustedHead), names, [], Publish(content, expected)),
                  old(Durable()), old(fuel), r, Durable(), fuel)
      ensures Answered(rules, old(Durable()), old(trustedHead), names, [], Publish(content, expected), r, Durable())
    {
      hide Answered, Apply, HistoryOk, FinishPlan, OperationPlan, BundleOk, Follows, IsTombstone, Ran;
      ghost var d, f, t, op := Durable(), fuel, trustedHead, Publish(content, expected);
      if !Admitted(rules, Publish(content, expected)) {
        NotAdmitted(rules, d, f, t, names, [], op);
        RanKeeps(rules, d, f, t, names, [], op, Refused, Durable(), fuel);
        return Refused;
      }
      var finished := FinishPrivacy(names);
      if !finished.Ok? {
        r := if finished.Died? then Died else Refused;
        Stopped(rules, d, f, t, names, [], op, finished, Durable(), fuel);
        RanKeeps(rules, d, f, t, names, [], op, r, Durable(), fuel);
        return;
      }
      ghost var mid, left, t1 := Durable(), fuel, trustedHead;
      ghost var plan := PublishPlan(rules, mid, t1, content, expected);
      var ok := History();
      var prior := Latest(Durable());
      if !ok || ParentOf(Durable()) != expected || content.bundle.events == [] ||
         (prior.Some? && (prior.value.status.Redacted? || !Verified(rules, Durable(), prior.value) ||
                          !Follows(content, objects[prior.value.hash]))) {
        r := Refused;
        RanNothing(mid, left, r);
      } else {
        var full := content.(analysis := Analysis(content.analysis, if prior.Some? then Some(objects[prior.value.hash]) else None));
        if Hash(full) in objects && objects[Hash(full)] != full {
          r := Refused;
          RanNothing(mid, left, r);
        } else {
          r := WriteGeneration(full, mid, left, plan);
        }
      }
      Performed(rules, d, f, t, names, [], op, finished, mid, left, t1, r, Durable(), fuel);
      RanKeeps(rules, d, f, t, names, [], op, r, Durable(), fuel);
    }

    /** Until the journal is written nothing of the archive changes but an unadvertised object. */
    method Prepare(request: Canonical.Json, expected: Option<Digest>) returns (r: Reply<Manifest>)
      modifies this
      ensures Ran(Apply, PreparePlan(rules, old(Durable()), old(trustedHead), request, expected), old(Durable()), old(fuel), r, Durable(), fuel)
      ensures generations == old(generations)
      ensures trustedHead == old(trustedHead) || (HistoryOk(old(Durable()), old(trustedHead)) && trustedHead == HeadAfter(old(Durable())))
    {
      hide Apply, HistoryOk, Reached, Redacting, BundleOk;
      ghost var d, f, t := Durable(), fuel, trustedHead;
      ghost var plan := PreparePlan(rules, d, t, request, expected);
      ReachedStart(d, f, plan.writes);
      ReachedEnds(d, f, plan, 0, d, f);
      var ok := History();
      var prior := Latest(Durable());
      if !ok || prior.None? || ParentOf(Durable()) != expected || !Verified(rules, Durable(), prior.value) { return Refused; }
      var bundle := RedactEvidence(rules.catalogue, rules.reader, objects[prior.value.hash].bundle, prior.value.status.Complete?, request);
      if bundle.None? || bundle.value.events == [] { return Refused; }
      var redacted := Object(bundle.value, None, None);
      if Hash(redacted) in objects && objects[Hash(redacted)] != redacted { return Refused; }
      var journal := Sealed(Durable(), redacted, Redacted);
      assert plan == Plan([WObject(Hash(redacted), redacted), WPending(journal)], Ok(journal));
      var alive := Persist(WObject(Hash(redacted), redacted));
      if !alive { return Died; }
      ghost var now, left := Durable(), fuel;
      ReachedNext(d, f, plan.writes, 0, d, f);
      ReachedEnds(d, f, plan, 1, now, left);
      PrepareTouches(d, redacted, journal);
      alive := Persist(WPending(journal));
      if !alive { return Died; }
      ReachedNext(d, f, plan.writes, 1, now, left);
      ReachedEnds(d, f, plan, 2, Durable(), fuel);
      PrepareTouches(now, redacted, journal);
      r := Ok(journal);
    }

    method RedactRun(request: Canonical.Json, expected: Option<Digest>, authorized: bool, names: seq<Hash>, again: seq<Hash>) returns (r: Reply<Outcome>)
      modifies this
      ensures Ran(Apply, OperationPlan(rules, old(Durable()), old(trustedHead), names, again, Redact(request, expected, authorized)),
                  old(Durable()), old(fuel), r, Durable(), fuel)
      ensures Answered(rules, old(Durable()), old(trustedHead), names, again, Redact(request, expected, authorized), r, Durable())
    {
      hide Answered, Apply, HistoryOk, FinishPlan, PreparePlan, OperationPlan;
      ghost var d, f, t, op := Durable(), fuel, trustedHead, Redact(request, expected, authorized);
      if !authorized {
        NotAdmitted(rules, d, f, t, names, again, op);
        RanKeeps(rules, d, f, t, names, again, op, Refused, Durable(), fuel);
        return Refused;
      }
      var finished := FinishPrivacy(names);
      if !finished.Ok? {
        r := if finished.Died? then Died else Refused;
        Stopped(rules, d, f, t, names, again, op, finished, Durable(), fuel);
        RanKeeps(rules, d, f, t, names, again, op, r, Durable(), fuel);
        return;
      }
      ghost var mid, left, t1 := Durable(), fuel, trustedHead;
      var prepared := Prepare(request, expected);
      ghost var journalled, rest, t2 := Durable(), fuel, trustedHead;
      if !prepared.Ok? {
        r := if prepared.Died? then Died else Refused;
        NotPrepared(rules, mid, left, t1, again, op, prepared, journalled, rest);
      } else {
        var purged := FinishPrivacy(again);
        r := if purged.Ok? then Ok(Published(HeadOf(prepared.value))) else if purged.Died? then Died else Refused;
        SameAnchor(mid, t1, journalled, t2);
        RedactRan(rules, mid, left, t1, again, op, prepared, journalled, rest, t2, purged, Durable(), fuel);
      }
      Performed(rules, d, f, t, names, again, op, finished, mid, left, t1, r, Durable(), fuel);
      RanKeeps(rules, d, f, t, names, again, op, r, Durable(), fuel);
    }
  }

  lemma {:induction false} PrepareTouches(d: Disk, o: Object, m: Manifest)
    ensures Apply(d, WObject(Hash(o), o)).generations == d.generations && Apply(d, WPending(m)).generations == d.generations
  {
  }

  lemma {:induction false} RanNothing<T>(d: Disk, fuel: nat, r: Reply<T>)
    ensures Ran(Apply, Plan([], r), d, fuel, r, d, fuel)
  {
    hide Apply;
  }

  lemma {:induction false} NotAdmitted(r: Rules, d: Disk, f: nat, t: Option<Head>, names: seq<Hash>, again: seq<Hash>, op: Operation)
    requires !Admitted(r, op)
    ensures Ran(Apply, OperationPlan(r, d, t, names, again, op), d, f, Refused, d, f)
  {
    hide Apply, FinishPlan, Body;
  }

  lemma {:induction false} Stopped(r: Rules, d: Disk, f: nat, t: Option<Head>, names: seq<Hash>, again: seq<Hash>, op: Operation,
                                   finished: Reply<()>, after: Disk, left: nat)
    requires Admitted(r, op) && !finished.Ok? && Ran(Apply, FinishPlan(r, d, t, names), d, f, finished, after, left)
    ensures Ran(Apply, OperationPlan(r, d, t, names, again, op), d, f, if finished.Died? then Died else Refused, after, left)
  {
    hide Apply, Body, JournalFits;
    var finish := FinishPlan(r, d, t, names);
    if finish.reply.Ok? {
      var rest := Body(r, Replay(Apply, d, finish.writes), t, again, op);
      RanCut(Apply, finish, rest.writes, rest.reply, d, f, after, left);
    }
  }

  /** What an operation does depends on the trusted head only through the history check. */
  lemma {:induction false} SameBody(r: Rules, d: Disk, t: Option<Head>, t1: Option<Head>, again: seq<Hash>, op: Operation)
    requires HistoryOk(d, t) <==> HistoryOk(d, t1)
    ensures Body(r, d, t, again, op) == Body(r, d, t1, again, op)
  {
    hide Verified, Chain, Anchored, Redacting, BundleOk, Follows;
    if op.Redact? {
      var p := PreparePlan(r, d, t, op.request, op.expected);
      assert p == PreparePlan(r, d, t1, op.request, op.expected);
      if p.reply.Ok? {
        var mid := Replay(Apply, d, p.writes);
        assert mid.generations == d.generations by { PreparedGenerations(r, d, t, op.request, op.expected); }
        assert HistoryOk(mid, t) <==> HistoryOk(mid, t1);
      }
    }
  }

  lemma {:induction false} PreparedGenerations(r: Rules, d: Disk, t: Option<Head>, request: Canonical.Json, expected: Option<Digest>)
    requires PreparePlan(r, d, t, request, expected).reply.Ok?
    ensures Replay(Apply, d, PreparePlan(r, d, t, request, expected).writes).generations == d.generations
  {
    hide Verified, Chain, Redacting;
    var ws := PreparePlan(r, d, t, request, expected).writes;
    ReplayPair(Apply, d, ws[0], ws[1], 2);
    assert [ws[0], ws[1]][..2] == ws;
  }

  lemma {:induction false} Performed(r: Rules, d: Disk, f: nat, t: Option<Head>, names: seq<Hash>, again: seq<Hash>, op: Operation,
                                     finished: Reply<()>, mid: Disk, left: nat, t1: Option<Head>, reply: Reply<Outcome>, after: Disk, rest: nat)
    requires Admitted(r, op) && finished.Ok? && Ran(Apply, FinishPlan(r, d, t, names), d, f, finished, mid, left)
    requires HistoryOk(mid, t1) <==> HistoryOk(mid, t)
    requires Ran(Apply, Body(r, mid, t1, again, op), mid, left, reply, after, rest)
    ensures Ran(Apply, OperationPlan(r, d, t, names, again, op), d, f, reply, after, rest)
  {
    hide Apply, HistoryOk, FinishPlan, Body;
    SameBody(r, mid, t, t1, again, op);
    var finish := FinishPlan(r, d, t, names);
    RanThen(Apply, finish, Body(r, mid, t, again, op), d, f, mid, left, reply, after, rest);
  }

  lemma {:induction false} SameAnchor(d: Disk, t: Option<Head>, e: Disk, t1: Option<Head>)
    requires e.generations == d.generations && (t1 == t || (HistoryOk(d, t) && t1 == HeadAfter(d)))
    ensures HistoryOk(e, t) <==> HistoryOk(e, t1)
  {
    if HistoryOk(d, t) { LatestNumbered(d); }
  }

  lemma {:induction false} NotPrepared(r: Rules, d: Disk, f: nat, t: Option<Head>, again: seq<Hash>, op: Operation,
                                       prepared: Reply<Manifest>, after: Disk, left: nat)
    requires op.Redact? && !prepared.Ok? && Ran(Apply, PreparePlan(r, d, t, op.request, op.expected), d, f, prepared, after, left)
    ensures Ran(Apply, Body(r, d, t, again, op), d, f, if prepared.Died? then Died else Refused, after, left)
  {
    hide Apply, HistoryOk, FinishPlan, Verified;
    var prepare := PreparePlan(r, d, t, op.request, op.expected);
    if prepare.reply.Ok? {
      var finish := FinishPlan(r, Replay(Apply, d, prepare.writes), t, again);
      var reply: Reply<Outcome> := if finish.reply.Ok? then Ok(Published(HeadOf(prepare.reply.value))) else Refused;
      RanCut(Apply, prepare, finish.writes, reply, d, f, after, left);
    }
  }

  lemma {:induction false} RedactRan(r: Rules, d: Disk, f: nat, t: Option<Head>, again: seq<Hash>, op: Operation, prepared: Reply<Manifest>,
                                     mid: Disk, left: nat, t1: Option<Head>, purged: Reply<()>, after: Disk, rest: nat)
    requires op.Redact? && prepared.Ok? && Ran(Apply, PreparePlan(r, d, t, op.request, op.expected), d, f, prepared, mid, left)
    requires HistoryOk(mid, t) <==> HistoryOk(mid, t1)
    requires Ran(Apply, FinishPlan(r, mid, t1, again), mid, left, purged, after, rest)
    ensures var reply: Reply<Outcome> :=
        if purged.Ok? then Ok(Published(HeadOf(prepared.value))) else if purged.Died? then Died else Refused;
      Ran(Apply, Body(r, d, t, again, op), d, f, reply, after, rest)
  {
    hide Apply, HistoryOk, PreparePlan;
    var prepare, finish := PreparePlan(r, d, t, op.request, op.expected), FinishPlan(r, mid, t, again);
    assert finish == FinishPlan(r, mid, t1, again) by { SameFinish(r, mid, t, t1, again); }
    var whole: Reply<Outcome> := if finish.reply.Ok? then Ok(Published(HeadOf(prepared.value))) else Refused;
    var reply: Reply<Outcome> := if purged.Ok? then Ok(Published(HeadOf(prepared.value))) else if purged.Died? then Died else Refused;
    assert Ran(Apply, Plan(finish.writes, whole), mid, left, reply, after, rest) by { NeverDies(r, mid, t, again); }
    RanThen(Apply, prepare, Plan(finish.writes, whole), d, f, mid, left, reply, after, rest);
  }

  lemma {:induction false} SameFinish(r: Rules, d: Disk, t: Option<Head>, t1: Option<Head>, names: seq<Hash>)
    requires HistoryOk(d, t) <==> HistoryOk(d, t1)
    ensures FinishPlan(r, d, t, names) == FinishPlan(r, d, t1, names)
  {
    hide HistoryOk, Verified;
  }

  lemma {:induction false} NeverDies(r: Rules, d: Disk, t: Option<Head>, names: seq<Hash>)
    ensures !FinishPlan(r, d, t, names).reply.Died?
  {
    hide JournalFits;
  }

  lemma {:induction false} WritesTouch(d: Disk, m: Manifest)
    ensures Apply(d, WClear).generations == d.generations
    ensures Apply(d, WManifest(m.generation, m)).generations == d.generations[m.generation := m]
  {
  }

  lemma {:induction false} WritesTouchUnlink(d: Disk, h: Hash)
    ensures Apply(d, WUnlink(h)).generations == d.generations
  {
  }

  lemma {:induction false} NoUnlinks(names: seq<Hash>, kept: Hash)
    ensures Unlinks(names[..0], kept) == []
  {
  }

  lemma {:induction false} LatestNumbered(d: Disk)
    requires Chain(d.generations)
    ensures |d.generations| > 0 ==> |d.generations| - 1 in d.generations && d.generations[|d.generations| - 1].generation == |d.generations| - 1
  {
    if |d.generations| > 0 { assert InPlace(d.generations, |d.generations| - 1); }
  }

  function HeadAfter(d: Disk): Option<Head> { if Latest(d).Some? then Some(HeadOf(Latest(d).value)) else None }

  /** After a finished redaction the old and the new trusted head are both on the chain. */
  lemma {:induction false} AnchorsAgree(r: Rules, d: Disk, t: Option<Head>, now: Disk)
    requires d.pending.Some? && JournalFits(r, d, t, d.pending.value)
    requires now.generations == d.generations[d.pending.value.generation := d.pending.value]
    ensures HistoryOk(now, t) && HistoryOk(now, HeadAfter(d))
  {
    hide Verified;
    var m, g := d.pending.value, d.generations;
    LatestNumbered(d);
    if |g| == m.generation {
      ChainExtends(g, m) by { CountPositive(r, d, t); }
    } else {
      assert g[m.generation := m] == g;
    }
  }

  lemma {:induction false} CountPositive(r: Rules, d: Disk, t: Option<Head>)
    requires d.pending.Some? && JournalFits(r, d, t, d.pending.value)
    ensures d.pending.value.count > 0
  {
  }
}
