/** The evidence authority as a process over its directories. */
module AuthorityService {
  import opened CrashStop
  import opened Options
  import opened AuthorityRecords
  import AuthorityProtocol
  import opened AuthorityInvariant
  import opened AuthorityReceipts
  import opened AuthorityRuns
  import opened AuthoritySafety

  type Store = AuthorityRecords.Store

  /** Did not end in success: the same ending, at another answer type. */
  function Failed<T, U>(r: Reply<T>): Reply<U>
    requires !r.Ok?
  {
    if r.Died? then Died else Refused
  }

  lemma {:induction false} RanBind<T, U>(s: Store, first: Plan<Write, T>, next: Store -> Plan<Write, U>, fuel: nat,
                      reply: Reply<T>, mid: Store, midFuel: nat, result: Reply<U>, after: Store, left: nat)
    requires Ran(Apply, first, s, fuel, reply, mid, midFuel) && reply.Ok?
    requires Ran(Apply, next(mid), mid, midFuel, result, after, left)
    ensures Ran(Apply, AuthorityProtocol.Then(s, first, next), s, fuel, result, after, left)
  {
    hide Apply;
    RanThen(Apply, first, next(mid), s, fuel, mid, midFuel, result, after, left);
  }

  lemma {:induction false} RanStop<T, U>(s: Store, first: Plan<Write, T>, next: Store -> Plan<Write, U>, fuel: nat,
                      reply: Reply<T>, after: Store, left: nat)
    requires Ran(Apply, first, s, fuel, reply, after, left) && !reply.Ok? && !first.reply.Died?
    ensures Ran(Apply, AuthorityProtocol.Then(s, first, next), s, fuel, Failed<T, U>(reply), after, left)
  {
    hide Apply;
    if fuel < |first.writes| && first.reply.Ok? {
      var second := next(AuthorityProtocol.Final(s, first.writes));
      RanCut(Apply, first, second.writes, second.reply, s, fuel, after, left);
    }
  }

  class EvidenceAuthority {
    const id: Identity

    // the durable directories
    var intents: map<Intent, IntentRecord>
    var claims: map<Intent, Claim>
    var objects: map<Digest, EvidenceObject>
    var pending: map<Intent, Pending>
    var heads: map<nat, Head>
    var finalizations: map<Intent, Finalization>
    var anchor: Anchor

    // the process
    var initialized: bool
    var fuel: nat  // durable writes left before the process dies

    constructor (id: Identity)
      ensures this.id == id && !initialized
      ensures SystemOk(id, Now())
    {
      this.id := id;
      intents, claims, objects, pending := map[], map[], map[], map[];
      heads, finalizations, anchor := map[], map[], Anchored(None);
      initialized, fuel := false, 0;
      new;
      Provisioned(id);
    }

    ghost function Durable(): Store
      reads this
    {
      Store(intents, claims, objects, pending, heads, finalizations, anchor)
    }

    ghost function Now(): AuthorityProtocol.System
      reads this
    {
      AuthorityProtocol.System(Durable(), initialized)
    }

    /** One durable write, unless the process dies first. */
    method Persist(w: Write) returns (r: Reply<()>)
      modifies this
      ensures Ran(Apply, Plan([w], Ok(())), old(Durable()), old(fuel), r, Durable(), fuel)
      ensures r.Ok? || r.Died?
      ensures initialized == old(initialized)
    {
      if fuel == 0 {
        r := Died;
        assert [w][..0] == [];
        return;
      }
      fuel := fuel - 1;
      match w {
        case WIntent(i, record) => intents := intents[i := record];
        case WClaim(i, c) => claims := claims[i := c];
        case WObject(h, o) => objects := objects[h := o];
        case WPending(i, p) => pending := pending[i := p];
        case WHead(g, h) => heads := heads[g := h];
        case WFinalization(i, f) => finalizations := finalizations[i := f];
        case WAnchor(a) => anchor := Anchored(a);
      }
      ReplayOne(Apply, old(Durable()), w);
      r := Ok(());
    }

    /** Walks the head files in order, checking each against its predecessor. */
    method LatestHead() returns (r: Reply<Option<HeadRef>>)
      ensures r == AuthorityProtocol.LatestHead(id, heads)
    {
      var prior: Option<Digest> := None;
      for index := 0 to |heads|
        invariant forall g: nat :: g < index ==> AuthorityProtocol.HeadLinks(id, heads, g)
        invariant index > 0 ==> index - 1 in heads && prior == Some(OfHead(heads[index - 1]))
        invariant index == 0 ==> prior == None
      {
        if index !in heads {
          assert !AuthorityProtocol.HeadLinks(id, heads, index);
          return Refused;
        }
        var h := heads[index];
        if h.signer != id.headKey || h.authority != id.authority || h.evidenceKey != id.evidenceKey ||
           h.headKey != id.headKey || h.generation != index || h.parent != prior {
          assert !AuthorityProtocol.HeadLinks(id, heads, index);
          return Refused;
        }
        prior := Some(OfHead(h));
      }
      r := Ok(if |heads| == 0 then None else Some(HeadRef(|heads| - 1, prior.value)));
    }

    method ReconcileAnchor(actual: Option<HeadRef>) returns (r: Reply<()>)
      modifies this
      ensures Ran(Apply, AuthorityProtocol.ReconcilePlan(id, old(Durable()), actual), old(Durable()), old(fuel), r, Durable(), fuel)
      ensures initialized == old(initialized)
    {
      if !id.anchored { return Ok(()); }
      if anchor.Missing? { return Refused; }
      var anchored := anchor.head;
      if anchored.Some? {
        if actual.None? || actual.value.generation < anchored.value.generation { return Refused; }
        if anchored.value.generation !in heads { return Refused; }
        if OfHead(heads[anchored.value.generation]) != anchored.value.digest { return Refused; }
      }
      if anchored != actual {
        r := Persist(WAnchor(actual));
      } else {
        r := Ok(());
      }
    }

    method ReconcileLatest() returns (r: Reply<()>)
      modifies this
      ensures Ran(Apply, AuthorityProtocol.ReconcileLatest(id, old(Durable())), old(Durable()), old(fuel), r, Durable(), fuel)
      ensures initialized == old(initialized)
    {
      var latest := LatestHead();
      if !latest.Ok? { return Refused; }
      r := ReconcileAnchor(latest.value);
    }

    method PublishHead(p: Pending) returns (r: Reply<()>)
      modifies this
      ensures Ran(Apply, AuthorityProtocol.PublishPlan(id, old(Durable()), p), old(Durable()), old(fuel), r, Durable(), fuel)
      ensures initialized == old(initialized)
    {
      var current := LatestHead();
      if !current.Ok? { return Refused; }
      var expected := if current.value.Some? then current.value.value.generation + 1 else 0;
      var g := p.head.generation;
      if g > expected { return Refused; }
      if g == expected {
        if p.head.parent != (if current.value.Some? then Some(current.value.value.digest) else None) { return Refused; }
        if g in heads && heads[g] != p.head { return Refused; }
        r := Persist(WHead(expected, p.head));
      } else if g in heads && heads[g] == p.head {
        r := Ok(());
      } else {
        r := Refused;
      }
    }

    method RecordFinalization(p: Pending) returns (r: Reply<()>)
      modifies this
      ensures Ran(Apply, AuthorityProtocol.RecordPlan(old(Durable()), p), old(Durable()), old(fuel), r, Durable(), fuel)
      ensures initialized == old(initialized)
    {
      if p.intent in finalizations && finalizations[p.intent] != p.finalization { return Refused; }
      r := Persist(WFinalization(p.intent, p.finalization));
    }

    /** Head, finalization, anchor, in this order. */
    method CompletePending(p: Pending) returns (r: Reply<()>)
      modifies this
      ensures Ran(Apply, AuthorityProtocol.CompletePlan(id, old(Durable()), p), old(Durable()), old(fuel), r, Durable(), fuel)
      ensures initialized == old(initialized)
    {
      hide Apply, Ran, AuthorityProtocol.PublishPlan, AuthorityProtocol.RecordPlan, AuthorityProtocol.ReconcileLatest;
      ghost var s0, f0 := Durable(), fuel;
      ghost var last := (t: Store) => AuthorityProtocol.ReconcileLatest(id, t);
      ghost var rest := (t: Store) =>
        AuthorityProtocol.Then(t, AuthorityProtocol.RecordPlan(t, p), (u: Store) => AuthorityProtocol.ReconcileLatest(id, u));
      ghost var first := AuthorityProtocol.PublishPlan(id, s0, p);
      NeverDies(id, s0, p);
      r := PublishHead(p);
      if !r.Ok? {
        RanStop(s0, first, rest, f0, r, Durable(), fuel);
        return;
      }
      ghost var s1, f1, r1 := Durable(), fuel, r;
      NeverDies(id, s1, p);
      r := RecordFinalization(p);
      if !r.Ok? {
        RanStop(s1, AuthorityProtocol.RecordPlan(s1, p), last, f1, r, Durable(), fuel);
      } else {
        ghost var s2, f2, r2 := Durable(), fuel, r;
        r := ReconcileLatest();
        RanBind(s1, AuthorityProtocol.RecordPlan(s1, p), last, f1, r2, s2, f2, r, Durable(), fuel);
      }
      RanBind(s0, first, rest, f0, r1, s1, f1, r, Durable(), fuel);
    }

    /** Completes the staged records in the order the directory lists them. */
    method CompleteAll(names: seq<Intent>) returns (r: Reply<()>)
      modifies this
      ensures Ran(Apply, AuthorityProtocol.CompleteAllPlan(id, old(Durable()), names), old(Durable()), old(fuel), r, Durable(), fuel)
      ensures initialized == old(initialized)
    {
      hide Apply, Ran, AuthorityProtocol.CompletePlan;
      ghost var s0, f0 := Durable(), fuel;
      ghost var whole := AuthorityProtocol.CompleteAllPlan(id, s0, names);
      assert names[0..] == names;
      RanNothing(s0, f0);
      for k := 0 to |names|
        invariant initialized == old(initialized)
        // what is left to run from here is what the whole plan has left
        invariant forall q: Reply<()>, after: Store, left: nat ::
          Ran(Apply, AuthorityProtocol.CompleteAllPlan(id, Durable(), names[k..]), Durable(), fuel, q, after, left) ==>
            Ran(Apply, whole, s0, f0, q, after, left)
      {
        ghost var s, f := Durable(), fuel;
        var name := names[k];
        assert names[k..][0] == name && names[k..][1..] == names[k + 1..];
        if name !in pending || pending[name].intent != name {
          RanRefused(s, f);
          return Refused;
        }
        ghost var rest := (t: Store) => AuthorityProtocol.CompleteAllPlan(id, t, names[k..][1..]);
        ghost var step := AuthorityProtocol.CompletePlan(id, s, s.pending[name]);
        assert AuthorityProtocol.CompleteAllPlan(id, s, names[k..]) == AuthorityProtocol.Then(s, step, rest);
        r := CompletePending(pending[name]);
        if !r.Ok? {
          NeverDiesCompleting(id, s, s.pending[name]);
          RanStop(s, step, rest, f, r, Durable(), fuel);
          return;
        }
        forall q: Reply<()>, after: Store, left: nat |
          Ran(Apply, AuthorityProtocol.CompleteAllPlan(id, Durable(), names[k + 1..]), Durable(), fuel, q, after, left)
          ensures Ran(Apply, whole, s0, f0, q, after, left)
        {
          RanBind(s, step, rest, f, r, Durable(), fuel, q, after, left);
        }
      }
      assert names[|names|..] == [];
      RanNothing(Durable(), fuel);
      r := Ok(());
    }

    /** The independent verifier: a walk over the heads, then the inventories. */
    method VerifyAuthority() returns (accepted: bool)
      ensures accepted <==> AuthorityProtocol.Verified(id, Durable())
    {
      hide AuthorityProtocol.HeadVerified;
      for g := 0 to |heads|
        invariant forall k: nat :: k < g ==> AuthorityProtocol.HeadVerified(id, Durable(), k)
      {
        if !AuthorityProtocol.HeadVerified(id, Store(intents, claims, objects, pending, heads, finalizations, anchor), g) {
          return false;
        }
      }
      if |finalizations| != |heads| { return false; }
      var claimedObjects := {};
      var todo := claims.Keys;
      while todo != {}
        invariant todo <= claims.Keys
        invariant forall i :: i in claims && i !in todo ==> claims[i].intent == i && claims[i].objectHash in claimedObjects
        invariant forall h :: h in claimedObjects ==> AuthorityProtocol.Claimed(claims, h)
        decreases |todo|
      {
        var i :| i in todo;
        if claims[i].intent != i { return false; }
        claimedObjects := claimedObjects + {claims[i].objectHash};
        todo := todo - {i};
      }
      accepted := forall h :: h in objects ==> h in claimedObjects;
    }

    method Initialize(names: seq<Intent>) returns (r: Reply<()>)
      modifies this
      ensures Ran(Apply, AuthorityProtocol.InitPlan(id, old(Durable()), names), old(Durable()), old(fuel), r, Durable(), fuel)
      ensures initialized == (old(initialized) || r.Ok?)
    {
      hide Apply, Ran, AuthorityProtocol.CompleteAllPlan, AuthorityProtocol.ReconcileLatest, AuthorityProtocol.Verified;
      ghost var s0, f0 := Durable(), fuel;
      var current := LatestHead();
      if !current.Ok? {
        RanRefused(s0, f0);
        return Refused;
      }
      ghost var first := AuthorityProtocol.CompleteAllPlan(id, s0, names);
      ghost var rest := (t: Store) =>
        if AuthorityProtocol.Verified(id, t) then AuthorityProtocol.ReconcileLatest(id, t) else Plan([], Refused);
      r := CompleteAll(names);
      if !r.Ok? {
        NeverDiesListing(id, s0, names);
        RanStop(s0, first, rest, f0, r, Durable(), fuel);
        return;
      }
      ghost var s1, f1, r1 := Durable(), fuel, r;
      var accepted := VerifyAuthority();
      if accepted {
        r := ReconcileLatest();
      } else {
        RanRefused(s1, f1);
        r := Refused;
      }
      RanBind(s0, first, rest, f0, r1, s1, f1, r, Durable(), fuel);
      if r.Ok? { initialized := true; }
    }

    method GetIntent(i: Intent) returns (r: Reply<AuthorityProtocol.Answer>)
      ensures Ran(Apply, AuthorityProtocol.GetPlan(Durable(), i), Durable(), fuel, r, Durable(), fuel)
    {
      if i in finalizations {
        if finalizations[i].intent != i { return Refused; }
        r := Ok(AuthorityProtocol.FinalRecord(finalizations[i].requestHash, finalizations[i].result));
      } else if i in intents {
        r := Ok(AuthorityProtocol.StoredRecord(intents[i]));
      } else {
        r := Ok(AuthorityProtocol.NoRecord);
      }
    }

    method PutIntent(i: Intent, record: IntentRecord) returns (r: Reply<AuthorityProtocol.Answer>)
      modifies this
      ensures Ran(Apply, AuthorityProtocol.PutPlan(old(Durable()), i, record), old(Durable()), old(fuel), r, Durable(), fuel)
      ensures initialized == old(initialized)
    {
      if !SafeIntent(i) { return Refused; }
      if i in intents && intents[i] != record { return Refused; }
      var written := Persist(WIntent(i, record));
      r := if written.Ok? then Ok(AuthorityProtocol.StoredIdempotent) else Died;
    }

    /** Completes what is staged for the intent before reporting on it. */
    method ObserveIntent(i: Intent) returns (r: Reply<AuthorityProtocol.Answer>)
      modifies this
      ensures Ran(Apply, AuthorityProtocol.ObservePlan(id, old(Durable()), i), old(Durable()), old(fuel), r, Durable(), fuel)
      ensures initialized == old(initialized)
    {
      if !SafeIntent(i) { return Refused; }
      ghost var s0, f0 := Durable(), fuel;
      var settled: Reply<()> := Ok(());
      if i in pending && i !in finalizations {
        if pending[i].intent != i {
          settled := Refused;
        } else {
          settled := CompletePending(pending[i]);
        }
      }
      ghost var first := AuthorityProtocol.SettlePlan(id, s0, i);
      ghost var rest := (t: Store) => AuthorityProtocol.ReportPlan(id, t, i);
      if !settled.Ok? {
        if Incomplete(s0, i) { NeverDiesCompleting(id, s0, s0.pending[i]); }
        RanStop(s0, first, rest, f0, settled, Durable(), fuel);
        r := Failed(settled);
        return;
      }
      ghost var s1, f1 := Durable(), fuel;
      r := Report(i);
      RanBind(s0, first, rest, f0, settled, s1, f1, r, Durable(), fuel);
    }

    method Report(i: Intent) returns (r: Reply<AuthorityProtocol.Answer>)
      ensures Ran(Apply, AuthorityProtocol.ReportPlan(id, Durable(), i), Durable(), fuel, r, Durable(), fuel)
    {
      var state := AuthorityProtocol.Absent;
      if i in finalizations {
        var f := finalizations[i];
        if f.intent != i { return Refused; }
        state := AuthorityProtocol.Finalized(f.requestHash, f.result, OfFinalization(f));
      } else if i in pending {
        state := AuthorityProtocol.FinalizationPending(OfFinalization(pending[i].finalization));
      } else if i in intents {
        state := AuthorityProtocol.IntentStored(intents[i].requestHash);
      }
      var head := LatestHead();
      if !head.Ok? { return Refused; }
      if head.value.None? { return Ok(AuthorityProtocol.Observed(state, None)); }
      if head.value.value.generation !in heads { return Refused; }
      r := Ok(AuthorityProtocol.Observed(state, Some(heads[head.value.value.generation])));
    }

    method RecordIntent(input: Input) returns (r: Reply<()>)
      modifies this
      ensures Ran(Apply, AuthorityProtocol.IntentPlan(old(Durable()), input), old(Durable()), old(fuel), r, Durable(), fuel)
      ensures initialized == old(initialized)
    {
      if input.intent !in intents {
        r := Persist(WIntent(input.intent, RecordOf(input)));
      } else if intents[input.intent].requestHash.Some? && intents[input.intent].requestHash.value != input.requestHash {
        r := Refused;
      } else {
        r := Ok(());
      }
    }

    method WriteClaim(input: Input) returns (r: Reply<()>)
      modifies this
      ensures Ran(Apply, AuthorityProtocol.ClaimPlan(old(Durable()), input), old(Durable()), old(fuel), r, Durable(), fuel)
      ensures initialized == old(initialized)
    {
      if input.intent in claims && claims[input.intent] != ClaimOf(input) { return Refused; }
      r := Persist(WClaim(input.intent, ClaimOf(input)));
    }

    method WriteObject(input: Input) returns (r: Reply<()>)
      modifies this
      ensures Ran(Apply, AuthorityProtocol.ObjectPlan(old(Durable()), input), old(Durable()), old(fuel), r, Durable(), fuel)
      ensures initialized == old(initialized)
    {
      var evidence := ObjectOf(input);
      if OfObject(evidence) in objects && objects[OfObject(evidence)] != evidence { return Refused; }
      r := Persist(WObject(OfObject(evidence), evidence));
    }

    method Stage(input: Input) returns (r: Reply<Pending>)
      requires ValidInput(input)
      modifies this
      ensures Ran(Apply, AuthorityProtocol.StagePlan(id, old(Durable()), input), old(Durable()), old(fuel), r, Durable(), fuel)
      ensures initialized == old(initialized)
    {
      hide IsHash, SafeIntent;
      var current := LatestHead();
      if !current.Ok? { return Refused; }
      var generation := if current.value.Some? then current.value.value.generation + 1 else 0;
      var parent := if current.value.Some? then Some(current.value.value.digest) else None;
      var staged := PendingOf(id, input, generation, parent);
      assert staged == AuthorityProtocol.StagedOf(id, Durable(), input);
      if input.intent in pending && pending[input.intent] != staged { return Refused; }
      var written := Persist(WPending(input.intent, staged));
      r := if written.Ok? then Ok(staged) else Died;
    }

    /** Stages the finalization under the next head and completes it. */
    method Place(input: Input) returns (r: Reply<AuthorityProtocol.Answer>)
      requires ValidInput(input)
      modifies this
      ensures Ran(Apply, AuthorityProtocol.PlacePlan(id, old(Durable()), input), old(Durable()), old(fuel), r, Durable(), fuel)
      ensures initialized == old(initialized)
    {
      hide Apply, AuthorityProtocol.StagePlan, AuthorityProtocol.CompletePlan, IsHash, SafeIntent, ResultOf;
      ghost var s0, f0 := Durable(), fuel;
      ghost var first := AuthorityProtocol.StagePlan(id, s0, input);
      var staged := Stage(input);
      if !staged.Ok? {
        r := Failed(staged);
        StageRefusal(id, s0, input);
        if first.reply.Ok? {
          ghost var stopped := (t: Store) => AuthorityProtocol.Answering(
            AuthorityProtocol.CompletePlan(id, t, first.reply.value), AuthorityProtocol.Receipt(ResultOf(id, input)));
          RanStop(s0, first, stopped, f0, staged, Durable(), fuel);
        }
        return;
      }
      ghost var rest := (t: Store) => AuthorityProtocol.Answering(
        AuthorityProtocol.CompletePlan(id, t, first.reply.value), AuthorityProtocol.Receipt(ResultOf(id, input)));
      ghost var s1, f1 := Durable(), fuel;
      var done := CompletePending(staged.value);
      r := if done.Ok? then Ok(AuthorityProtocol.Receipt(ResultOf(id, input))) else Failed(done);
      NeverDiesCompleting(id, s1, staged.value);
      RanBind(s0, first, rest, f0, staged, s1, f1, r, Durable(), fuel);
    }

    method Commit(input: Input) returns (r: Reply<AuthorityProtocol.Answer>)
      requires ValidInput(input)
      modifies this
      ensures Ran(Apply, AuthorityProtocol.CommitPlan(id, old(Durable()), input), old(Durable()), old(fuel), r, Durable(), fuel)
      ensures initialized == old(initialized)
    {
      hide Apply, Ran, AuthorityProtocol.PlacePlan, AuthorityProtocol.ObjectPlan, AuthorityProtocol.ClaimPlan;
      ghost var s0, f0 := Durable(), fuel;
      ghost var last := (t: Store) => AuthorityProtocol.PlacePlan(id, t, input);
      ghost var rest := (t: Store) => AuthorityProtocol.Then(t, AuthorityProtocol.ObjectPlan(t, input),
                                        (u: Store) => AuthorityProtocol.PlacePlan(id, u, input));
      CommitNeverDies(s0, input);
      var claimed := WriteClaim(input);
      if !claimed.Ok? {
        RanStop(s0, AuthorityProtocol.ClaimPlan(s0, input), rest, f0, claimed, Durable(), fuel);
        r := Failed(claimed);
        return;
      }
      ghost var s1, f1 := Durable(), fuel;
      CommitNeverDies(s1, input);
      var written := WriteObject(input);
      if !written.Ok? {
        RanStop(s1, AuthorityProtocol.ObjectPlan(s1, input), last, f1, written, Durable(), fuel);
        r := Failed(written);
      } else {
        ghost var s2, f2 := Durable(), fuel;
        r := Place(input);
        RanBind(s1, AuthorityProtocol.ObjectPlan(s1, input), last, f1, written, s2, f2, r, Durable(), fuel);
      }
      RanBind(s0, AuthorityProtocol.ClaimPlan(s0, input), rest, f0, claimed, s1, f1, r, Durable(), fuel);
    }

    /** The writes of a finalization, after validation: intent, then claim to anchor unless there is a result already. */
    method Seal(input: Input, authorized: bool) returns (r: Reply<AuthorityProtocol.Answer>)
      modifies this
      ensures Ran(Apply, AuthorityProtocol.FinalizePlan(id, old(Durable()), input, authorized), old(Durable()), old(fuel), r, Durable(), fuel)
      ensures initialized == old(initialized)
    {
      hide Apply, AuthorityProtocol.CommitPlan, AuthorityProtocol.IntentPlan, IsHash, SafeIntent;
      if !authorized || !ValidInput(input) { return Refused; }
      ghost var s0, f0 := Durable(), fuel;
      ghost var rest := (t: Store) =>
        if input.intent in t.finalizations then
          if t.finalizations[input.intent].inputHash != OfInput(input) then Plan([], Refused)
          else Plan([], Ok(AuthorityProtocol.Receipt(t.finalizations[input.intent].result)))
        else AuthorityProtocol.CommitPlan(id, t, input);
      IntentNeverDies(s0, input);
      var recorded := RecordIntent(input);
      if !recorded.Ok? {
        RanStop(s0, AuthorityProtocol.IntentPlan(s0, input), rest, f0, recorded, Durable(), fuel);
        r := Failed(recorded);
        return;
      }
      ghost var s1, f1 := Durable(), fuel;
      if input.intent in finalizations {
        var prior := finalizations[input.intent];
        r := if prior.inputHash != OfInput(input) then Refused else Ok(AuthorityProtocol.Receipt(prior.result));
      } else {
        r := Commit(input);
      }
      RanBind(s0, AuthorityProtocol.IntentPlan(s0, input), rest, f0, recorded, s1, f1, r, Durable(), fuel);
    }

    method Finalize(input: Input, authorized: bool) returns (r: Reply<AuthorityProtocol.Answer>)
      modifies this
      ensures Ran(Apply, AuthorityProtocol.FinalizePlan(id, old(Durable()), input, authorized), old(Durable()), old(fuel), r, Durable(), fuel)
      ensures Sealed(id, old(Durable()), input, authorized, r, Durable())
      ensures initialized == old(initialized)
    {
      hide *;
      ghost var before, budget := Durable(), fuel;
      r := Seal(input, authorized);
      SealedWell(id, before, input, authorized, budget, r, Durable(), fuel);
    }

    method Perform(op: AuthorityProtocol.Operation) returns (r: Reply<AuthorityProtocol.Answer>)
      modifies this
      ensures Ran(Apply, AuthorityProtocol.OperationPlan(id, old(Durable()), op), old(Durable()), old(fuel), r, Durable(), fuel)
      ensures initialized == old(initialized)
    {
      hide Apply, Ran, AuthorityProtocol.FinalizePlan, AuthorityProtocol.ObservePlan, AuthorityProtocol.PutPlan, AuthorityProtocol.GetPlan;
      match op {
        case Get(i) => r := GetIntent(i);
        case Observe(i) => r := ObserveIntent(i);
        case Put(i, record) => r := PutIntent(i, record);
        case Finalize(input, authorized) => r := Finalize(input, authorized);
      }
    }

    /** The call itself: start-up when it is due, then the operation. */
    method Handle(op: AuthorityProtocol.Operation, names: seq<Intent>, budget: nat) returns (r: Reply<AuthorityProtocol.Answer>)
      modifies this
      ensures (Now(), r) == AuthorityProtocol.Serve(id, old(Now()), AuthorityProtocol.Call(op, names, budget))
    {
      hide Apply, AuthorityProtocol.OperationPlan, AuthorityProtocol.InitPlan;
      fuel := budget;
      ghost var sys := old(Now());
      ghost var s0 := Durable();
      ghost var first := AuthorityProtocol.StartPlan(id, sys, names);
      ghost var rest := (t: Store) => AuthorityProtocol.OperationPlan(id, t, op);
      StartNeverDies(id, sys, names);
      var started: Reply<()> := Ok(());
      if !initialized { started := Initialize(names); }
      if !started.Ok? {
        RanStop(s0, first, rest, budget, started, Durable(), fuel);
        r := Failed(started);
      } else {
        ghost var s1, f1 := Durable(), fuel;
        r := Perform(op);
        RanBind(s0, first, rest, budget, started, s1, f1, r, Durable(), fuel);
      }
      assert Ran(Apply, AuthorityProtocol.ServePlan(id, sys, op, names), s0, budget, r, Durable(), fuel);
      PlanAnswers(id, sys, op, names);
      if fuel == 0 || r.Died? {
        ghost var plan := AuthorityProtocol.ServePlan(id, sys, op, names);
        assert plan.writes[..|plan.writes|] == plan.writes;
        initialized := false;
        r := Died;
      }
    }

    /** Serves one call; the process is started first when it has not been, and dies after `budget`
        durable writes, before acknowledging.  A dead process comes back uninitialized. */
    method Serve(op: AuthorityProtocol.Operation, names: seq<Intent>, budget: nat) returns (r: Reply<AuthorityProtocol.Answer>)
      modifies this
      ensures (Now(), r) == AuthorityProtocol.Serve(id, old(Now()), AuthorityProtocol.Call(op, names, budget))
      ensures Served(id, old(Now()), op, names, Now(), r)
    {
      hide *;
      ServedWell(id, Now(), op, names, budget);
      r := Handle(op, names, budget);
    }
  }

  lemma {:induction false} StageRefusal(id: Identity, s: Store, input: Input)
    requires ValidInput(input)
    ensures var plan := AuthorityProtocol.StagePlan(id, s, input);
      !plan.reply.Died? && (!plan.reply.Ok? ==> plan.reply == Refused)
  {
  }

  lemma {:induction false} CommitNeverDies(s: Store, input: Input)
    ensures !AuthorityProtocol.ClaimPlan(s, input).reply.Died? && !AuthorityProtocol.ObjectPlan(s, input).reply.Died?
  {
  }

  lemma {:induction false} IntentNeverDies(s: Store, input: Input)
    ensures !AuthorityProtocol.IntentPlan(s, input).reply.Died?
  {
  }

  lemma {:induction false} StartNeverDies(id: Identity, sys: AuthorityProtocol.System, names: seq<Intent>)
    ensures !AuthorityProtocol.StartPlan(id, sys, names).reply.Died?
  {
    if !sys.initialized && AuthorityProtocol.ChainOk(id, sys.store.heads) {
      NeverDiesListing(id, sys.store, names);
    }
  }

  lemma {:induction false} ObserveNeverDies(id: Identity, s: Store, i: Intent)
    ensures !AuthorityProtocol.ObservePlan(id, s, i).reply.Died?
  {
    hide SafeIntent, AuthorityProtocol.SettlePlan, AuthorityProtocol.LatestHead, AuthorityProtocol.StateOf;
  }

  lemma {:induction false} PlaceNeverDies(id: Identity, s: Store, input: Input)
    requires ValidInput(input)
    ensures !AuthorityProtocol.PlacePlan(id, s, input).reply.Died?
  {
    hide ValidInput, AuthorityProtocol.StagePlan, AuthorityProtocol.CompletePlan, ResultOf;
  }

  lemma {:induction false} FinalizeNeverDies(id: Identity, s: Store, input: Input, authorized: bool)
    ensures !AuthorityProtocol.FinalizePlan(id, s, input, authorized).reply.Died?
  {
    hide ValidInput, AuthorityProtocol.IntentPlan, AuthorityProtocol.ClaimPlan, AuthorityProtocol.ObjectPlan, AuthorityProtocol.PlacePlan;
    if authorized && ValidInput(input) {
      forall t
        ensures !AuthorityProtocol.PlacePlan(id, t, input).reply.Died?
      {
        PlaceNeverDies(id, t, input);
      }
    }
  }

  /** A planned reply is an answer or a refusal; dying is never planned. */
  lemma {:induction false} PlanAnswers(id: Identity, sys: AuthorityProtocol.System, op: AuthorityProtocol.Operation, names: seq<Intent>)
    ensures !AuthorityProtocol.ServePlan(id, sys, op, names).reply.Died?
  {
    hide AuthorityProtocol.ObservePlan, AuthorityProtocol.FinalizePlan, AuthorityProtocol.StartPlan, SafeIntent;
    var first := AuthorityProtocol.StartPlan(id, sys, names);
    var mid := AuthorityProtocol.Final(sys.store, first.writes);
    match op
    case Observe(i) => ObserveNeverDies(id, mid, i);
    case Finalize(input, authorized) => FinalizeNeverDies(id, mid, input, authorized);
    case _ =>
  }

  lemma {:induction false} NeverDiesListing(id: Identity, s: Store, names: seq<Intent>)
    ensures !AuthorityProtocol.CompleteAllPlan(id, s, names).reply.Died?
    decreases |names|
  {
    if names != [] && names[0] in s.pending && s.pending[names[0]].intent == names[0] {
      var first := AuthorityProtocol.CompletePlan(id, s, s.pending[names[0]]);
      NeverDiesListing(id, AuthorityProtocol.Final(s, first.writes), names[1..]);
    }
  }

  lemma {:induction false} RanNothing(s: Store, fuel: nat)
    ensures Ran(Apply, Plan<Write, ()>.Plan([], Ok(())), s, fuel, Ok(()), s, fuel)
  {
  }

  lemma {:induction false} RanRefused(s: Store, fuel: nat)
    ensures Ran(Apply, Plan<Write, ()>.Plan([], Refused), s, fuel, Refused, s, fuel)
  {
  }

  lemma {:induction false} NeverDiesCompleting(id: Identity, s: Store, p: Pending)
    ensures !AuthorityProtocol.CompletePlan(id, s, p).reply.Died?
  {
  }

  lemma {:induction false} NeverDies(id: Identity, s: Store, p: Pending)
    ensures !AuthorityProtocol.PublishPlan(id, s, p).reply.Died? && !AuthorityProtocol.RecordPlan(s, p).reply.Died?
  {
  }

  /** What a caller may rely on: a sound authority stays sound, only adds records and moves its anchor forward, and
      answers what it then has on record. */
  ghost predicate Served(id: Identity, before: AuthorityProtocol.System, op: AuthorityProtocol.Operation, names: seq<Intent>,
                         after: AuthorityProtocol.System, r: Reply<AuthorityProtocol.Answer>) {
    SystemOk(id, before) && Lists(names, before.store) ==>
      SystemOk(id, after) && Extends(before.store, after.store) && (r.Ok? ==> Vouched(id, op, r.value, after.store))
  }

  /** On a sound, settled store a finalization that is not cut short succeeds exactly for authorized, well-formed inputs nothing
      else was claimed for; its receipt passes the archive's and the client's checks and is on record. */
  ghost predicate Sealed(id: Identity, before: Store, input: Input, authorized: bool, r: Reply<AuthorityProtocol.Answer>, after: Store) {
    Inv(id, before) && Settled(before) ==>
      && (!r.Died? ==> (r.Ok? <==> authorized && WellFormed(input) && Free(before, input)))
      && (r.Ok? ==> Receipted(id, input, r.value, after) && IntentKept(before, input, after))
  }

  lemma {:induction false} SealedWell(id: Identity, before: Store, input: Input, authorized: bool, budget: nat,
                                      r: Reply<AuthorityProtocol.Answer>, after: Store, left: nat)
    requires Ran(Apply, AuthorityProtocol.FinalizePlan(id, before, input, authorized), before, budget, r, after, left)
    ensures Sealed(id, before, input, authorized, r, after)
  {
    hide Inv, Settled, AuthorityProtocol.FinalizePlan, Receipted, IntentKept, WellFormed, Free;
    if Inv(id, before) && Settled(before) {
      FinalizeTrusted(id, before, input, authorized);
      FinalizeNeverDies(id, before, input, authorized);
    }
  }

  /** The answer is what the store now records, and a result it hands out passes the archive's and the client's checks. */
  ghost predicate Vouched(id: Identity, op: AuthorityProtocol.Operation, answer: AuthorityProtocol.Answer, s: Store) {
    && Attested(op, answer, s) && UpToDate(op, answer, s)
    && (ResultIn(op, answer).Some? ==> ArchiveTrusted(id, ResultIn(op, answer).value.1))
    && (op.Finalize? ==> answer.Receipt? && ReceiptTrusted(id, op.input, answer.receipt))
  }

  lemma {:induction false} ServedWell(id: Identity, sys: AuthorityProtocol.System, op: AuthorityProtocol.Operation, names: seq<Intent>, budget: nat)
    ensures var (after, r) := AuthorityProtocol.Serve(id, sys, AuthorityProtocol.Call(op, names, budget));
      Served(id, sys, op, names, after, r)
  {
    hide Inv, Settled, Extends, AuthorityProtocol.Serve, Lists, ArchiveTrusted, ReceiptTrusted, UpToDate;
    if SystemOk(id, sys) && Lists(names, sys.store) {
      ServeSafe(id, sys, AuthorityProtocol.Call(op, names, budget));
      var (after, r) := AuthorityProtocol.Serve(id, sys, AuthorityProtocol.Call(op, names, budget));
      if r.Ok? && ResultIn(op, r.value).Some? { AnswerTrusted(id, after.store, op, r.value); }
    }
  }
}
