/** Calls on the evidence authority, alone and in whole runs with crashes. */
module AuthorityRuns {
  import opened CrashStop
  import opened Options
  import opened AuthorityRecords
  import opened AuthorityProtocol
  import opened AuthorityInvariant
  import opened AuthoritySafety

  // ---------------------------------------------------------------- finalize

  lemma {:induction false} StageSafe(id: Identity, s: Store, input: Input)
    requires Inv(id, s) && Settled(s) && ValidInput(input)
    requires input.intent !in s.finalizations
    requires input.intent in s.claims && s.claims[input.intent] == ClaimOf(input)
    requires OfObject(ObjectOf(input)) in s.objects
    ensures var plan := StagePlan(id, s, input);
      var s' := Final(s, plan.writes);
      && plan.reply.Ok? && Safe(id, s, plan)
      && s' == s.(pending := s.pending[input.intent := plan.reply.value])
      && plan.reply.value.finalization == FinalizationOf(id, input)
  {
    hide ObjectsFit, PendingsFit, HeadsPlaced, HeadsStaged, FinalizationsFit, AnchorFits, IsHash, SafeIntent, Tight;
    ChainKeys(id, s.heads);
    assert |s.heads| > 0 ==> HeadLinks(id, s.heads, |s.heads| - 1);
    var p := StagedOf(id, s, input);
    OneWrite(id, s, WPending(input.intent, p));
  }

  lemma {:induction false} PlaceSafe(id: Identity, s: Store, input: Input)
    requires Inv(id, s) && Settled(s) && ValidInput(input)
    requires input.intent !in s.finalizations
    requires input.intent in s.claims && s.claims[input.intent] == ClaimOf(input)
    requires OfObject(ObjectOf(input)) in s.objects
    ensures var plan := PlacePlan(id, s, input);
      var s' := Final(s, plan.writes);
      && plan.reply == Ok(Receipt(ResultOf(id, input))) && Safe(id, s, plan) && Settled(s')
      && input.intent in s'.finalizations && s'.finalizations[input.intent] == FinalizationOf(id, input)
      && (id.anchored ==> s'.anchor == Anchored(LatestOf(s'.heads)))
  {
    hide Legal, LegalAll, Core, Tight, CompletePlan, StagePlan, IsHash, SafeIntent, FinalizationOf, ResultOf;
    var stage := StagePlan(id, s, input);
    StageSafe(id, s, input);
    RunKeepsInv(id, s, stage.writes);
    var s1 := Final(s, stage.writes);
    CompleteSafe(id, s1, input.intent);
    ThenSafe(id, s, stage, (t: Store) => Answering(CompletePlan(id, t, stage.reply.value), Receipt(ResultOf(id, input))));
  }

  /** From a fresh or an interrupted claim, the commit goes through. */
  lemma {:induction false} CommitSafe(id: Identity, s: Store, input: Input)
    requires Inv(id, s) && Settled(s) && ValidInput(input) && input.intent !in s.finalizations
    ensures var plan := CommitPlan(id, s, input);
      var s' := Final(s, plan.writes);
      var i := input.intent;
      && Safe(id, s, plan) && Settled(s')
      && (plan.reply.Ok? <==> (i in s.claims ==> s.claims[i] == ClaimOf(input)))
      && (plan.reply.Ok? ==> plan.reply == Ok(Receipt(ResultOf(id, input))) && i in s'.finalizations
                             && s'.finalizations[i] == FinalizationOf(id, input)
                             && (id.anchored ==> s'.anchor == Anchored(LatestOf(s'.heads))))
      && (!plan.reply.Ok? ==> plan.reply == Refused && plan.writes == [])
  {
    hide Legal, LegalAll, Core, Tight, PlacePlan, ObjectPlan, IsHash, SafeIntent, FinalizationOf, ResultOf, ObjectOf;
    var claim := ClaimPlan(s, input);
    ClaimSafe(id, s, input);
    RunKeepsInv(id, s, claim.writes);
    if claim.reply.Ok? {
      var s1 := Final(s, claim.writes);
      var put := ObjectPlan(s1, input);
      ObjectSafe(id, s1, input);
      RunKeepsInv(id, s1, put.writes);
      PlaceSafe(id, Final(s1, put.writes), input);
      ThenSafe(id, s1, put, (t: Store) => PlacePlan(id, t, input));
    }
    ThenSafe(id, s, claim, (t: Store) => Then(t, ObjectPlan(t, input), (u: Store) => PlacePlan(id, u, input)));
  }

  lemma {:induction false} ClaimSafe(id: Identity, s: Store, input: Input)
    requires Inv(id, s) && ValidInput(input)
    ensures var plan := ClaimPlan(s, input);
      var i := input.intent;
      && Safe(id, s, plan)
      && (plan.reply.Ok? <==> (i in s.claims ==> s.claims[i] == ClaimOf(input)))
      && (plan.reply.Ok? ==> Final(s, plan.writes) == s.(claims := s.claims[i := ClaimOf(input)]))
      && (!plan.reply.Ok? ==> plan.writes == [])
  {
    hide Inv, ValidInput;
    var plan := ClaimPlan(s, input);
    NoWrite(id, s);
    if plan.reply.Ok? {
      assert ClaimFits(ClaimOf(input), input.intent);
      OneWrite(id, s, WClaim(input.intent, ClaimOf(input)));
    }
  }

  lemma {:induction false} ObjectSafe(id: Identity, s: Store, input: Input)
    requires Inv(id, s) && input.intent in s.claims && s.claims[input.intent] == ClaimOf(input)
    ensures var plan := ObjectPlan(s, input);
      && Safe(id, s, plan) && plan.reply == Ok(())
      && Final(s, plan.writes) == s.(objects := s.objects[OfObject(ObjectOf(input)) := ObjectOf(input)])
  {
    hide ClaimsFit, PendingsFit, HeadsPlaced, HeadsStaged, FinalizationsFit, AnchorFits, ChainOk, Tight;
    var h := OfObject(ObjectOf(input));
    assert Claimed(s.claims, h) by { assert s.claims[input.intent].objectHash == h; }
    assert h in s.objects ==> OfObject(s.objects[h]) == h;
    OneWrite(id, s, WObject(h, ObjectOf(input)));
  }

  /** Exactly the inputs a finalization accepts. */
  ghost predicate Accepts(s: Store, input: Input, authorized: bool) {
    && authorized && ValidInput(input)
    && (input.intent in s.intents && s.intents[input.intent].requestHash.Some? ==>
          s.intents[input.intent].requestHash.value == input.requestHash)
    && (input.intent in s.claims ==> s.claims[input.intent] == ClaimOf(input))
  }

  lemma {:induction false} FinalizedFromItsClaim(id: Identity, s: Store, i: Intent)
    requires Inv(id, s) && i in s.finalizations
    ensures i in s.claims && ClaimFits(s.claims[i], i)
    ensures s.finalizations[i] == FinalizationOf(id, s.claims[i].inputHash.input)
  {
    hide HeadPlaced, HeadStaged, Claimed, HeadLinks, AnchorHolds, Tight, IsHash, SafeIntent;
    assert FinalizationFits(s.pending, |s.heads|, s.finalizations[i], i);
    assert PendingFits(id, s.claims, s.objects, s.pending[i], i);
  }

  /** Finalization from a settled store: exactly when it succeeds, what it answers and records. */
  lemma {:induction false} FinalizeSafe(id: Identity, s: Store, input: Input, authorized: bool)
    requires Inv(id, s) && Settled(s)
    ensures var plan := FinalizePlan(id, s, input, authorized);
      var s' := Final(s, plan.writes);
      && Safe(id, s, plan) && Settled(s')
      && (plan.reply.Ok? <==> Accepts(s, input, authorized))
      && (plan.reply.Ok? ==> plan.reply == Ok(Receipt(ResultOf(id, input))) && input.intent in s'.finalizations
                             && s'.finalizations[input.intent] == FinalizationOf(id, input))
      && (!plan.reply.Ok? ==> plan.reply == Refused)
  {
    hide Legal, LegalAll, Core, Tight, CommitPlan, IsHash, SafeIntent, ResultOf, ObjectOf;
    NoWrite(id, s);
    if authorized && ValidInput(input) {
      var record := IntentPlan(s, input);
      IntentSafe(id, s, input);
      RunKeepsInv(id, s, record.writes);
      var s1 := Final(s, record.writes);
      NoWrite(id, s1);
      if record.reply.Ok? {
        if input.intent in s1.finalizations {
          FinalizedFromItsClaim(id, s1, input.intent);
        } else {
          CommitSafe(id, s1, input);
        }
      }
      ThenSafe(id, s, record, (t: Store) =>
        if input.intent in t.finalizations then
          if t.finalizations[input.intent].inputHash != OfInput(input) then Plan([], Refused)
          else Plan([], Ok(Receipt(t.finalizations[input.intent].result)))
        else CommitPlan(id, t, input));
    }
  }

  lemma {:induction false} IntentSafe(id: Identity, s: Store, input: Input)
    requires Inv(id, s)
    ensures var plan := IntentPlan(s, input);
      var s' := Final(s, plan.writes);
      && Safe(id, s, plan)
      && (plan.reply.Ok? <==> (input.intent in s.intents && s.intents[input.intent].requestHash.Some? ==>
                                 s.intents[input.intent].requestHash.value == input.requestHash))
      && s' == s.(intents := s'.intents)
  {
    hide Inv;
    NoWrite(id, s);
    if input.intent !in s.intents { OneWrite(id, s, WIntent(input.intent, RecordOf(input))); }
  }

  // ---------------------------------------------------------------- the other operations

  lemma {:induction false} ObserveSafe(id: Identity, s: Store, i: Intent)
    requires Inv(id, s)
    ensures var plan := ObservePlan(id, s, i);
      var s' := Final(s, plan.writes);
      && Safe(id, s, plan) && (plan.reply.Ok? <==> SafeIntent(i))
      && (Settled(s) ==> s' == s)
      && (plan.reply.Ok? ==> plan.reply.value.Observed? && plan.reply.value.state == StateOf(s', i)
                             && !plan.reply.value.state.FinalizationPending?
                             && plan.reply.value.head == (if |s'.heads| > 0 && |s'.heads| - 1 in s'.heads then Some(s'.heads[|s'.heads| - 1]) else None))
      && (!plan.reply.Ok? ==> plan.reply == Refused)
  {
    hide Legal, LegalAll, Core, Tight, CompletePlan, IsHash, SafeIntent, ReportPlan;
    NoWrite(id, s);
    var settle := SettlePlan(id, s, i);
    if Incomplete(s, i) {
      StagedUnderItsName(id, s, i);
      CompleteSafe(id, s, i);
    }
    RunKeepsInv(id, s, settle.writes);
    var s1 := Final(s, settle.writes);
    ReportSafe(id, s1, i);
    NoWrite(id, s1);
    ThenSafe(id, s, settle, (t: Store) => ReportPlan(id, t, i));
  }

  lemma {:induction false} ReportSafe(id: Identity, s: Store, i: Intent)
    requires Inv(id, s)
    ensures var plan := ReportPlan(id, s, i);
      && plan.writes == [] && plan.reply.Ok? && plan.reply.value.Observed? && plan.reply.value.state == StateOf(s, i)
      && plan.reply.value.head == (if |s.heads| > 0 && |s.heads| - 1 in s.heads then Some(s.heads[|s.heads| - 1]) else None)
  {
    hide HeadPlaced, HeadStaged, Claimed, AnchorHolds, Tight, IsHash, SafeIntent;
    LatestKnown(id, s.heads);
    if i in s.finalizations { FinalizedFromItsClaim(id, s, i); }
    if |s.heads| > 0 { assert HeadLinks(id, s.heads, |s.heads| - 1); }
  }

  /** The final result an answer hands out, and the intent it is for. */
  function ResultIn(op: Operation, answer: Answer): Option<(Intent, Result)> {
    match (op, answer)
    case (Get(i), FinalRecord(_, r)) => Some((i, r))
    case (Observe(i), Observed(Finalized(_, r, _), _)) => Some((i, r))
    case (Finalize(input, _), Receipt(r)) => Some((input.intent, r))
    case _ => None
  }

  /** An answer tells what the store records, and goes on recording. */
  ghost predicate Attested(op: Operation, answer: Answer, s: Store) {
    && (ResultIn(op, answer).Some? ==>
          var (i, r) := ResultIn(op, answer).value;
          i in s.finalizations && s.finalizations[i].result == r)
    && (op.Finalize? ==> answer.Receipt? && op.input.intent in s.finalizations
                         && s.finalizations[op.input.intent].inputHash == OfInput(op.input))
    && (op.Observe? ==> answer.Observed? && ObservationHolds(op.intent, answer.state, s))
    && (op.Put? ==> answer.StoredIdempotent? && op.intent in s.intents && s.intents[op.intent] == op.record)
    && (op.Get? ==>
          match answer
          case NoRecord => true
          case StoredRecord(record) => op.intent in s.intents && s.intents[op.intent] == record
          case FinalRecord(h, _) => s.finalizations[op.intent].requestHash == h
          case _ => false)
  }

  ghost predicate ObservationHolds(i: Intent, state: Observation, s: Store) {
    match state
    case Absent => true
    case IntentStored(h) => i in s.intents && s.intents[i].requestHash == h
    case FinalizationPending(_) => false
    case Finalized(h, r, d) =>
      i in s.finalizations && s.finalizations[i].result == r && s.finalizations[i].requestHash == h && OfFinalization(s.finalizations[i]) == d
  }

  /** What an answer does not mention is not there: an absent or merely stored intent has no final result, an absent one
      no record, and the head an observation shows is the last one. */
  ghost predicate UpToDate(op: Operation, answer: Answer, s: Store) {
    && (op.Get? ==>
          && (!answer.FinalRecord? ==> op.intent !in s.finalizations)
          && (answer.NoRecord? ==> op.intent !in s.intents))
    && (op.Observe? && answer.Observed? ==>
          && (!answer.state.Finalized? ==> op.intent !in s.finalizations && op.intent !in s.pending)
          && (answer.state.Absent? ==> op.intent !in s.intents)
          && answer.head == (if |s.heads| > 0 && |s.heads| - 1 in s.heads then Some(s.heads[|s.heads| - 1]) else None))
  }

  lemma {:induction false} OperationSafe(id: Identity, s: Store, op: Operation)
    requires Inv(id, s) && Settled(s)
    ensures var plan := OperationPlan(id, s, op);
      var s' := Final(s, plan.writes);
      && Safe(id, s, plan) && Settled(s')
      && (plan.reply.Ok? ==> Attested(op, plan.reply.value, s') && UpToDate(op, plan.reply.value, s'))
  {
    hide Legal, LegalAll, Core, Tight, FinalizePlan, ObservePlan, IsHash, SafeIntent, ResultOf;
    NoWrite(id, s);
    match op
    case Get(i) =>
      if i in s.finalizations { FinalizedFromItsClaim(id, s, i); }
    case Observe(i) => ObserveSafe(id, s, i);
    case Put(i, r) =>
      if PutPlan(s, i, r).reply.Ok? {
        assert Legal(id, s, WIntent(i, r)) by { WriteOnce(id, s, i, r); }
        OneWrite(id, s, WIntent(i, r));
      }
    case Finalize(input, authorized) => FinalizeSafe(id, s, input, authorized);
  }

  lemma {:induction false} WriteOnce(id: Identity, s: Store, i: Intent, r: IntentRecord)
    requires i in s.intents ==> s.intents[i] == r
    ensures Legal(id, s, WIntent(i, r))
  {
  }

  // ---------------------------------------------------------------- one call

  /** A live process that has initialized sees nothing unfinished. */
  ghost predicate SystemOk(id: Identity, sys: System) {
    Inv(id, sys.store) && (sys.initialized ==> Settled(sys.store))
  }

  /** Every call, whether the process survives it or dies inside it, keeps the invariant, only adds
      records, moves the anchor only forward, and answers what the store then records. */
  lemma {:induction false} ServeSafe(id: Identity, sys: System, call: Call)
    requires SystemOk(id, sys) && Lists(call.names, sys.store)
    ensures var (sys', reply) := Serve(id, sys, call);
      && SystemOk(id, sys') && Extends(sys.store, sys'.store)
      && (reply.Ok? ==> Attested(call.op, reply.value, sys'.store) && UpToDate(call.op, reply.value, sys'.store))
      && (sys.initialized || reply.Died? || sys'.initialized)
  {
    hide Legal, LegalAll, Inv, OperationPlan, Attested, UpToDate, Extends, InitPlan, Verified;
    var start := StartPlan(id, sys, call.names);
    NoWrite(id, sys.store);
    if !sys.initialized { InitSafe(id, sys.store, call.names); }
    RunKeepsInv(id, sys.store, start.writes);
    OperationSafe(id, Final(sys.store, start.writes), call.op);
    ThenSafe(id, sys.store, start, (t: Store) => OperationPlan(id, t, call.op));
    var plan := ServePlan(id, sys, call.op, call.names);
    if call.fuel <= |plan.writes| {
      CrashKeepsInv(id, sys.store, plan.writes, call.fuel);
    } else {
      RunKeepsInv(id, sys.store, plan.writes);
    }
  }

  // ---------------------------------------------------------------- whole runs

  ghost function After(id: Identity, sys: System, calls: seq<Call>): System
    decreases |calls|
  {
    if calls == [] then sys
    else Serve(id, After(id, sys, calls[..|calls| - 1]), calls[|calls| - 1]).0
  }

  ghost function ReplyAt(id: Identity, sys: System, calls: seq<Call>, k: nat): Reply<Answer>
    requires k < |calls|
  {
    Serve(id, After(id, sys, calls[..k]), calls[k]).1
  }

  /** In every call the process reads the pending directory as it then is. */
  ghost predicate ReadsDirectory(id: Identity, sys: System, calls: seq<Call>) {
    forall k :: 0 <= k < |calls| ==> Lists(calls[k].names, After(id, sys, calls[..k]).store)
  }

  /** Between two points of a run with any crashes: the invariant holds and records are only added. */
  lemma {:induction false} RunSafe(id: Identity, sys: System, calls: seq<Call>, j: nat, k: nat)
    requires SystemOk(id, sys) && ReadsDirectory(id, sys, calls) && j <= k <= |calls|
    ensures SystemOk(id, After(id, sys, calls[..j])) && SystemOk(id, After(id, sys, calls[..k]))
    ensures Extends(After(id, sys, calls[..j]).store, After(id, sys, calls[..k]).store)
    decreases k
  {
    hide SystemOk, Extends, Serve, Lists, Attested;
    if k == 0 {
      ExtendsReflexive(sys.store);
      assert calls[..0] == [];
    } else {
      RunSafe(id, sys, calls, if j < k then j else k - 1, k - 1);
      assert calls[..k][..k - 1] == calls[..k - 1] && calls[..k][k - 1] == calls[k - 1];
      var before := After(id, sys, calls[..k - 1]);
      ServeSafe(id, before, calls[k - 1]);
      assert After(id, sys, calls[..k]) == Serve(id, before, calls[k - 1]).0;
      if j < k {
        ExtendsTransitive(After(id, sys, calls[..j]).store, before.store, After(id, sys, calls[..k]).store);
      } else {
        ExtendsReflexive(After(id, sys, calls[..k]).store);
      }
    }
  }

  lemma {:induction false} AnswerStands(id: Identity, sys: System, calls: seq<Call>, j: nat, k: nat)
    requires SystemOk(id, sys) && ReadsDirectory(id, sys, calls) && j < k <= |calls|
    ensures var reply := ReplyAt(id, sys, calls, j);
      reply.Ok? ==> Attested(calls[j].op, reply.value, After(id, sys, calls[..k]).store)
  {
    hide SystemOk, Serve, Lists;
    var before := After(id, sys, calls[..j]);
    RunSafe(id, sys, calls, j, j);
    ServeSafe(id, before, calls[j]);
    assert calls[..j + 1][..j] == calls[..j] && calls[..j + 1][j] == calls[j];
    assert After(id, sys, calls[..j + 1]) == Serve(id, before, calls[j]).0;
    RunSafe(id, sys, calls, j + 1, k);
  }

  /** Exactly once: whatever crashes, lost acknowledgements and retries a run has, all results
      handed out for one intent are the same result. */
  lemma {:induction false} ExactlyOnce(id: Identity, sys: System, calls: seq<Call>, j: nat, k: nat)
    requires SystemOk(id, sys) && ReadsDirectory(id, sys, calls) && j < |calls| && k < |calls|
    requires ReplyAt(id, sys, calls, j).Ok? && ReplyAt(id, sys, calls, k).Ok?
    requires ResultIn(calls[j].op, ReplyAt(id, sys, calls, j).value).Some?
    requires ResultIn(calls[k].op, ReplyAt(id, sys, calls, k).value).Some?
    ensures var (a, r) := ResultIn(calls[j].op, ReplyAt(id, sys, calls, j).value).value;
      var (b, q) := ResultIn(calls[k].op, ReplyAt(id, sys, calls, k).value).value;
      a == b ==> r == q
  {
    AnswerStands(id, sys, calls, j, |calls|);
    AnswerStands(id, sys, calls, k, |calls|);
  }

  /** Once a claim is written, no finalization of a different input ever succeeds. */
  lemma {:induction false} ClaimBinds(id: Identity, sys: System, calls: seq<Call>, j: nat, k: nat)
    requires SystemOk(id, sys) && ReadsDirectory(id, sys, calls) && j <= k < |calls|
    requires calls[k].op.Finalize? && calls[k].op.input.intent in After(id, sys, calls[..j]).store.claims
    requires ReplyAt(id, sys, calls, k).Ok?
    ensures After(id, sys, calls[..j]).store.claims[calls[k].op.input.intent] == ClaimOf(calls[k].op.input)
  {
    hide Serve, Lists, Core, Tight;
    var i := calls[k].op.input.intent;
    AnswerStands(id, sys, calls, k, k + 1);
    RunSafe(id, sys, calls, j, k + 1);
    FinalizedFromItsClaim(id, After(id, sys, calls[..k + 1]).store, i);
  }

  /** The anchored head is a point of the chain, and over a run its generation never decreases. */
  lemma {:induction false} AnchorMonotone(id: Identity, sys: System, calls: seq<Call>, j: nat, k: nat)
    requires SystemOk(id, sys) && ReadsDirectory(id, sys, calls) && j <= k <= |calls| && id.anchored
    ensures var a := After(id, sys, calls[..j]).store;
      var b := After(id, sys, calls[..k]).store;
      && a.anchor.Anchored? && b.anchor.Anchored?
      && (a.anchor.head.Some? ==>
            var g := a.anchor.head.value.generation;
            && b.anchor.head.Some? && g <= b.anchor.head.value.generation
            && g in b.heads && OfHead(b.heads[g]) == a.anchor.head.value.digest)
  {
    hide Serve, Lists, ClaimsFit, ObjectsFit, PendingsFit, HeadsPlaced, HeadsStaged, FinalizationsFit, Tight;
    RunSafe(id, sys, calls, j, k);
  }

  /** A freshly provisioned authority satisfies the invariant. */
  lemma {:induction false} Provisioned(id: Identity)
    ensures SystemOk(id, System(Store(map[], map[], map[], map[], map[], map[], Anchored(None)), false))
  {
  }
}
