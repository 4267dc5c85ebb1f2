/** Calls by processes that skip start-up: retries of what is staged, and several live processes taking turns. */
module AuthorityProcesses {
  import opened CrashStop
  import opened Options
  import opened AuthorityRecords
  import opened AuthorityProtocol
  import opened AuthorityInvariant
  import opened AuthoritySafety
  import opened AuthorityRuns
  import opened AuthorityHazards

  // ---------------------------------------------------------------- retrying what is staged

  lemma {:induction false} RestageSafe(id: Identity, s: Store, input: Input)
    requires Inv(id, s) && ValidInput(input) && Incomplete(s, input.intent)
    requires input.intent in s.claims && s.claims[input.intent] == ClaimOf(input)
    ensures var plan := StagePlan(id, s, input);
      && Safe(id, s, plan)
      && (plan.reply.Ok? <==> s.pending[input.intent].head.generation == |s.heads|)
      && (plan.reply.Ok? ==> plan.reply.value == s.pending[input.intent])
      && Final(s, plan.writes) == s && (!plan.reply.Ok? ==> plan.reply == Refused)
  {
    hide ClaimsFit, ObjectsFit, HeadsStaged, FinalizationsFit, AnchorFits, IsHash, SafeIntent, Tight, ResultOf, FinalizationOf;
    NoWrite(id, s);
    ChainKeys(id, s.heads);
    assert |s.heads| > 0 ==> HeadLinks(id, s.heads, |s.heads| - 1);
    var i := input.intent;
    assert PendingFits(id, s.claims, s.objects, s.pending[i], i) && HeadPlaced(s.heads, s.pending[i].head);
    if s.pending[i].head.generation == |s.heads| {
      assert StagedOf(id, s, input) == s.pending[i];
      assert s.pending[i := s.pending[i]] == s.pending;
      OneWrite(id, s, WPending(i, s.pending[i]));
    }
  }

  lemma {:induction false} ReplaceSafe(id: Identity, s: Store, input: Input)
    requires Inv(id, s) && ValidInput(input) && Incomplete(s, input.intent)
    requires input.intent in s.claims && s.claims[input.intent] == ClaimOf(input)
    ensures var plan := PlacePlan(id, s, input);
      var s' := Final(s, plan.writes);
      && Safe(id, s, plan)
      && (plan.reply.Ok? <==> s.pending[input.intent].head.generation == |s.heads|)
      && (plan.reply.Ok? ==> plan.reply == Ok(Receipt(ResultOf(id, input))) && Settled(s')
                             && input.intent in s'.finalizations && s'.finalizations[input.intent] == FinalizationOf(id, input))
      && (!plan.reply.Ok? ==> plan.reply == Refused && s' == s)
  {
    hide Legal, LegalAll, Core, CompletePlan, StagePlan, IsHash, SafeIntent, FinalizationOf, ResultOf;
    var stage := StagePlan(id, s, input);
    RestageSafe(id, s, input);
    RunKeepsInv(id, s, stage.writes);
    NoWrite(id, s);
    if stage.reply.Ok? {
      CompleteSafe(id, s, input.intent);
      StagedFinalization(id, s, input);
      OnlyUnfinished(s, input.intent);
      ThenSafe(id, s, stage, (t: Store) => Answering(CompletePlan(id, t, stage.reply.value), Receipt(ResultOf(id, input))));
    }
  }

  lemma {:induction false} StagedFinalization(id: Identity, s: Store, input: Input)
    requires Inv(id, s) && input.intent in s.pending && input.intent in s.claims && s.claims[input.intent] == ClaimOf(input)
    ensures s.pending[input.intent].finalization == FinalizationOf(id, input)
  {
    hide ClaimsFit, ObjectsFit, HeadsPlaced, HeadsStaged, FinalizationsFit, AnchorFits, IsHash, SafeIntent, Tight, ResultOf, ChainOk;
    assert PendingFits(id, s.claims, s.objects, s.pending[input.intent], input.intent);
  }

  lemma {:induction false} OnlyUnfinished(s: Store, i: Intent)
    requires Tight(s) && Incomplete(s, i)
    ensures forall j :: j in s.pending && j != i ==> j in s.finalizations
  {
    forall j | j in s.pending && j != i
      ensures j in s.finalizations
    {
      assert !Incomplete(s, j);
    }
  }

  /** Retrying the claim, object and staging of an unfinished record. */
  lemma {:induction false} RecommitSafe(id: Identity, s: Store, input: Input)
    requires Inv(id, s) && ValidInput(input) && Incomplete(s, input.intent)
    requires input.intent in s.claims && s.claims[input.intent] == ClaimOf(input)
    ensures var plan := CommitPlan(id, s, input);
      var s' := Final(s, plan.writes);
      && Safe(id, s, plan)
      && (plan.reply.Ok? <==> s.pending[input.intent].head.generation == |s.heads|)
      && (plan.reply.Ok? ==> plan.reply == Ok(Receipt(ResultOf(id, input))) && Settled(s')
                             && input.intent in s'.finalizations && s'.finalizations[input.intent] == FinalizationOf(id, input))
      && (!plan.reply.Ok? ==> plan.reply == Refused && s'.heads == s.heads && s'.pending == s.pending && s'.finalizations == s.finalizations)
  {
    hide Legal, LegalAll, Core, Tight, PlacePlan, ObjectPlan, IsHash, SafeIntent, FinalizationOf, ResultOf, ObjectOf;
    var claim := ClaimPlan(s, input);
    ClaimSafe(id, s, input);
    RunKeepsInv(id, s, claim.writes);
    var s1 := Final(s, claim.writes);
    var put := ObjectPlan(s1, input);
    ObjectSafe(id, s1, input);
    RunKeepsInv(id, s1, put.writes);
    ReplaceSafe(id, Final(s1, put.writes), input);
    ThenSafe(id, s1, put, (t: Store) => PlacePlan(id, t, input));
    ThenSafe(id, s, claim, (t: Store) => Then(t, ObjectPlan(t, input), (u: Store) => PlacePlan(id, u, input)));
  }

  /** A process that skips start-up may always retry the staged finalization itself: it succeeds exactly when the staged
      head is not published yet, and otherwise is refused and leaves the record to start-up or an observation. */
  lemma {:induction false} StagedRetry(id: Identity, s: Store, input: Input)
    requires Inv(id, s) && Accepts(s, input, true) && Incomplete(s, input.intent)
    ensures var plan := FinalizePlan(id, s, input, true);
      var s' := Final(s, plan.writes);
      && Safe(id, s, plan) && Inv(id, s')
      && (plan.reply.Ok? <==> s.pending[input.intent].head.generation == |s.heads|)
      && (plan.reply.Ok? ==> plan.reply == Ok(Receipt(ResultOf(id, input))) && Settled(s')
                             && input.intent in s'.finalizations && s'.finalizations[input.intent] == FinalizationOf(id, input))
      && (!plan.reply.Ok? ==> plan.reply == Refused && s'.heads == s.heads && s'.pending == s.pending && s'.finalizations == s.finalizations)
  {
    hide Legal, LegalAll, Core, Tight, CommitPlan, IsHash, SafeIntent, FinalizationOf, ResultOf;
    var record := IntentPlan(s, input);
    IntentSafe(id, s, input);
    RunKeepsInv(id, s, record.writes);
    var s1 := Final(s, record.writes);
    StagedClaimed(id, s, input.intent);
    RecommitSafe(id, s1, input);
    ThenSafe(id, s, record, (t: Store) =>
      if input.intent in t.finalizations then
        if t.finalizations[input.intent].inputHash != OfInput(input) then Plan([], Refused)
        else Plan([], Ok(Receipt(t.finalizations[input.intent].result)))
      else CommitPlan(id, t, input));
    RunKeepsInv(id, s, FinalizePlan(id, s, input, true).writes);
  }

  lemma {:induction false} StagedClaimed(id: Identity, s: Store, i: Intent)
    requires Inv(id, s) && i in s.pending
    ensures i in s.claims
  {
    hide ClaimsFit, ObjectsFit, HeadsPlaced, HeadsStaged, FinalizationsFit, AnchorFits, Tight, ChainOk, ClaimFits;
    assert PendingFits(id, s.claims, s.objects, s.pending[i], i);
  }

  // ---------------------------------------------------------------- any call by a live process

  /** The one kind of call a process may not serve without start-up: staging a record while another is unfinished. */
  ghost predicate Overtakes(s: Store, op: Operation) {
    op.Finalize? && op.authorized && Unstaged(s, op.input) && !Settled(s)
  }

  lemma {:induction false} RefusedSafe(id: Identity, s: Store, input: Input, authorized: bool)
    requires Inv(id, s) && (!Accepts(s, input, authorized) || input.intent in s.finalizations)
    ensures var plan := FinalizePlan(id, s, input, authorized);
      && Safe(id, s, plan)
      && (plan.reply.Ok? ==> Attested(Finalize(input, authorized), plan.reply.value, Final(s, plan.writes)))
  {
    hide Legal, LegalAll, Core, Tight, ObjectPlan, PlacePlan, IsHash, SafeIntent, ResultOf, ObjectOf, ClaimFits;
    NoWrite(id, s);
    if authorized && ValidInput(input) {
      var record := IntentPlan(s, input);
      IntentSafe(id, s, input);
      RunKeepsInv(id, s, record.writes);
      var s1 := Final(s, record.writes);
      NoWrite(id, s1);
      var next := (t: Store) =>
        if input.intent in t.finalizations then
          if t.finalizations[input.intent].inputHash != OfInput(input) then Plan([], Refused)
          else Plan([], Ok(Receipt(t.finalizations[input.intent].result)))
        else CommitPlan(id, t, input);
      ThenSafe(id, s, record, next);
    }
  }

  /** Whatever is unfinished, every other call by a live process is safe and answers what is on record. */
  lemma {:induction false} LiveSafe(id: Identity, s: Store, op: Operation)
    requires Inv(id, s) && !Overtakes(s, op)
    ensures var plan := OperationPlan(id, s, op);
      var s' := Final(s, plan.writes);
      && Safe(id, s, plan) && (Settled(s) ==> Settled(s'))
      && (plan.reply.Ok? ==> Attested(op, plan.reply.value, s') && UpToDate(op, plan.reply.value, s'))
  {
    hide Legal, LegalAll, Core, Tight, FinalizePlan, ObservePlan, IsHash, SafeIntent, ResultOf;
    NoWrite(id, s);
    if Settled(s) {
      OperationSafe(id, s, op);
    } else {
      match op
      case Get(i) =>
        if i in s.finalizations { FinalizedFromItsClaim(id, s, i); }
      case Observe(i) => ObserveSafe(id, s, i);
      case Put(i, r) =>
        if PutPlan(s, i, r).reply.Ok? {
          assert Legal(id, s, WIntent(i, r)) by { WriteOnce(id, s, i, r); }
          OneWrite(id, s, WIntent(i, r));
        }
      case Finalize(input, authorized) =>
        if Accepts(s, input, authorized) && input.intent !in s.finalizations {
          StagedRetry(id, s, input);
        } else {
          RefusedSafe(id, s, input, authorized);
        }
    }
  }

  /** A call by a process that skips start-up keeps the invariant if and only if it does not stage a record while
      another one is unfinished. */
  lemma {:induction false} LiveSafeIff(id: Identity, s: Store, op: Operation)
    requires Inv(id, s)
    ensures Inv(id, Final(s, OperationPlan(id, s, op).writes)) <==> !Overtakes(s, op)
  {
    hide Inv, LegalAll, FinalizePlan, ObservePlan, Unstaged, Settled, Attested;
    if Overtakes(s, op) {
      LiveProcessNeedsSettledStore(id, s, op.input);
    } else {
      LiveSafe(id, s, op);
      RunKeepsInv(id, s, OperationPlan(id, s, op).writes);
    }
  }

  // ---------------------------------------------------------------- several processes taking turns

  /** The store and the processes that have initialized and are still alive. */
  datatype Fleet = Fleet(store: Store, live: set<string>)

  /** A call by a process, which may survive when the call is cut short. */
  datatype Turn = Turn(process: string, call: Call, survives: bool)

  /** The call got past start-up. */
  ghost predicate Started(id: Identity, f: Fleet, t: Turn) {
    var start := StartPlan(id, System(f.store, t.process in f.live), t.call.names);
    start.reply.Ok? && |start.writes| <= t.call.fuel
  }

  /** One process serves one call.  If the call is cut short the process either dies and has to start again, or
      survives and takes itself for initialized once it got past start-up. */
  ghost function Take(id: Identity, f: Fleet, t: Turn): (Fleet, Reply<Answer>) {
    var (sys, reply) := Serve(id, System(f.store, t.process in f.live), t.call);
    (Fleet(sys.store, if sys.initialized || (t.survives && Started(id, f, t)) then f.live + {t.process} else f.live - {t.process}), reply)
  }

  /** The turn may be taken: a start-up reads the directory as it is, and a live process overtakes nothing. */
  ghost predicate Permitted(f: Fleet, t: Turn) {
    Lists(t.call.names, f.store) && (t.process in f.live ==> !Overtakes(f.store, t.call.op))
  }

  lemma {:induction false} LiveServes(id: Identity, s: Store, call: Call)
    requires Inv(id, s) && !Overtakes(s, call.op)
    ensures var (sys', reply) := Serve(id, System(s, true), call);
      && Inv(id, sys'.store) && Extends(s, sys'.store)
      && (reply.Ok? ==> Attested(call.op, reply.value, sys'.store))
      && (Settled(s) && !reply.Died? ==> Settled(sys'.store))
  {
    hide Legal, LegalAll, Inv, OperationPlan, Attested, Extends, Settled, Overtakes;
    var plan := ServePlan(id, System(s, true), call.op, call.names);
    var rest := OperationPlan(id, s, call.op);
    assert [] + rest.writes == rest.writes && Final(s, []) == s;
    assert plan == rest || (!rest.reply.Ok? && plan.writes == rest.writes);
    LiveSafe(id, s, call.op);
    if call.fuel <= |plan.writes| {
      CrashKeepsInv(id, s, plan.writes, call.fuel);
    } else {
      RunKeepsInv(id, s, plan.writes);
    }
  }

  lemma {:induction false} StartServes(id: Identity, s: Store, call: Call)
    requires Inv(id, s) && Lists(call.names, s)
    ensures var (sys', reply) := Serve(id, System(s, false), call);
      && Inv(id, sys'.store) && Extends(s, sys'.store)
      && (reply.Ok? ==> Attested(call.op, reply.value, sys'.store)) && (!reply.Died? ==> Settled(sys'.store))
  {
    hide Serve, Inv, Attested, Extends, Settled, Lists;
    ServeSafe(id, System(s, false), call);
  }

  lemma {:induction false} TurnSafe(id: Identity, f: Fleet, t: Turn)
    requires Inv(id, f.store) && Permitted(f, t)
    ensures var (g, reply) := Take(id, f, t);
      && Inv(id, g.store) && Extends(f.store, g.store)
      && (reply.Ok? ==> Attested(t.call.op, reply.value, g.store))
      && ((t.process in f.live ==> Settled(f.store)) && !reply.Died? ==> Settled(g.store))
  {
    hide Serve, Inv, Attested, Extends, Settled, Lists, Overtakes;
    if t.process in f.live { LiveServes(id, f.store, t.call); } else { StartServes(id, f.store, t.call); }
  }

  ghost function Taken(id: Identity, f: Fleet, turns: seq<Turn>): Fleet
    decreases |turns|
  {
    if turns == [] then f else Take(id, Taken(id, f, turns[..|turns| - 1]), turns[|turns| - 1]).0
  }

  ghost function ReplyOf(id: Identity, f: Fleet, turns: seq<Turn>, k: nat): Reply<Answer>
    requires k < |turns|
  {
    Take(id, Taken(id, f, turns[..k]), turns[k]).1
  }

  ghost predicate AllPermitted(id: Identity, f: Fleet, turns: seq<Turn>) {
    forall k :: 0 <= k < |turns| ==> Permitted(Taken(id, f, turns[..k]), turns[k])
  }

  lemma {:induction false} TakenNext(id: Identity, f: Fleet, turns: seq<Turn>, k: nat)
    requires k < |turns|
    ensures Taken(id, f, turns[..k + 1]) == Take(id, Taken(id, f, turns[..k]), turns[k]).0
  {
    hide Take;
    assert turns[..k + 1][..k] == turns[..k] && turns[..k + 1][k] == turns[k];
  }

  /** Any processes, taking turns, their calls cut short anywhere: as long as no live process overtakes an unfinished record, the
      invariant holds at every point and records are only added. */
  lemma {:induction false} TurnsSafe(id: Identity, f: Fleet, turns: seq<Turn>, j: nat, k: nat)
    requires Inv(id, f.store) && AllPermitted(id, f, turns) && j <= k <= |turns|
    ensures Inv(id, Taken(id, f, turns[..j]).store) && Inv(id, Taken(id, f, turns[..k]).store)
    ensures Extends(Taken(id, f, turns[..j]).store, Taken(id, f, turns[..k]).store)
    decreases k
  {
    hide Inv, Extends, Take, Attested, Permitted, Settled;
    if k == 0 {
      ExtendsReflexive(f.store);
      assert turns[..0] == [];
    } else {
      TurnsSafe(id, f, turns, if j < k then j else k - 1, k - 1);
      var before := Taken(id, f, turns[..k - 1]);
      TurnSafe(id, before, turns[k - 1]);
      TakenNext(id, f, turns, k - 1);
      if j < k {
        ExtendsTransitive(Taken(id, f, turns[..j]).store, before.store, Taken(id, f, turns[..k]).store);
      } else {
        ExtendsReflexive(Taken(id, f, turns[..k]).store);
      }
    }
  }

  lemma {:induction false} TurnAnswered(id: Identity, f: Fleet, turns: seq<Turn>, k: nat)
    requires Inv(id, f.store) && AllPermitted(id, f, turns) && k < |turns|
    ensures var reply := ReplyOf(id, f, turns, k);
      reply.Ok? ==> Attested(turns[k].call.op, reply.value, Taken(id, f, turns).store)
  {
    hide Inv, Take, Permitted, Settled;
    TurnsSafe(id, f, turns, k, k);
    TurnSafe(id, Taken(id, f, turns[..k]), turns[k]);
    TakenNext(id, f, turns, k);
    TurnsSafe(id, f, turns, k + 1, |turns|);
    assert turns[..|turns|] == turns;
  }

  /** Exactly once, across processes: all results they hand out for one intent are the same result. */
  lemma {:induction false} TurnsExactlyOnce(id: Identity, f: Fleet, turns: seq<Turn>, j: nat, k: nat)
    requires Inv(id, f.store) && AllPermitted(id, f, turns) && j < |turns| && k < |turns|
    requires ReplyOf(id, f, turns, j).Ok? && ReplyOf(id, f, turns, k).Ok?
    requires ResultIn(turns[j].call.op, ReplyOf(id, f, turns, j).value).Some?
    requires ResultIn(turns[k].call.op, ReplyOf(id, f, turns, k).value).Some?
    ensures var (a, r) := ResultIn(turns[j].call.op, ReplyOf(id, f, turns, j).value).value;
      var (b, q) := ResultIn(turns[k].call.op, ReplyOf(id, f, turns, k).value).value;
      a == b ==> r == q
  {
    hide Inv, Take, AllPermitted;
    TurnAnswered(id, f, turns, j);
    TurnAnswered(id, f, turns, k);
  }

  /** After a call that was cut short the next one is served by a process that has yet to start. */
  ghost predicate Orderly(id: Identity, f: Fleet, turns: seq<Turn>) {
    forall k :: 0 < k < |turns| && ReplyOf(id, f, turns, k - 1).Died? ==> turns[k].process !in Taken(id, f, turns[..k]).live
  }

  ghost predicate AllListed(id: Identity, f: Fleet, turns: seq<Turn>) {
    forall k :: 0 <= k < |turns| ==> Lists(turns[k].call.names, Taken(id, f, turns[..k]).store)
  }

  lemma {:induction false} OrderlySettled(id: Identity, f: Fleet, turns: seq<Turn>, k: nat)
    requires Inv(id, f.store) && Settled(f.store) && Orderly(id, f, turns) && AllListed(id, f, turns) && k < |turns|
    ensures Inv(id, Taken(id, f, turns[..k]).store) && Permitted(Taken(id, f, turns[..k]), turns[k])
    ensures turns[k].process in Taken(id, f, turns[..k]).live ==> Settled(Taken(id, f, turns[..k]).store)
    decreases k
  {
    hide Inv, Take, Settled, Lists, Attested, Extends;
    if k == 0 {
      assert turns[..0] == [];
    } else {
      var before := Taken(id, f, turns[..k - 1]);
      OrderlySettled(id, f, turns, k - 1);
      TurnSafe(id, before, turns[k - 1]);
      TakenNext(id, f, turns, k - 1);
      assert ReplyOf(id, f, turns, k - 1) == Take(id, before, turns[k - 1]).1;
    }
  }

  /** A rule the processes can follow without looking at the store: whoever comes first after a call
      that was cut short starts up. */
  lemma {:induction false} OrderlyPermitted(id: Identity, f: Fleet, turns: seq<Turn>)
    requires Inv(id, f.store) && Settled(f.store) && Orderly(id, f, turns) && AllListed(id, f, turns)
    ensures AllPermitted(id, f, turns)
  {
    hide Inv, Take, Settled, Lists, Permitted, Orderly, AllListed;
    forall k | 0 <= k < |turns|
      ensures Permitted(Taken(id, f, turns[..k]), turns[k])
    {
      OrderlySettled(id, f, turns, k);
    }
  }
}
