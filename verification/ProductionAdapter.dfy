/** The production adapter: execution and recovery by execution intent, against the authority. */
module ProductionAdapter {
  import opened CrashStop
  import opened Options
  import opened AuthorityRecords
  import opened AuthorityProtocol
  import opened AuthorityInvariant
  import opened AuthoritySafety
  import opened AuthorityReceipts
  import opened AuthorityRuns

  /** World execution and policy binding are functions of the request. */
  datatype Adapter = Adapter(world: Request -> Bundle, bind: Request -> Binding, hash: string, package: string)

  function InputFor(a: Adapter, request: Request): Input {
    Input(request.idempotencyKey, OfRequest(request), request, a.bind(request), a.world(request), a.hash, a.package)
  }

  /** How the authority process fares during one of the adapter's two calls. */
  datatype Contact = Contact(names: seq<Intent>, fuel: nat)

  /** One execution or recovery; `acknowledged` is false when the runner loses the reply. */
  datatype Attempt = Attempt(request: Request, look: Contact, commit: Contact, authorized: bool, acknowledged: bool)

  /** What the adapter does about an observation: return a result, give up, or execute. */
  function Reconcile(request: Request, state: Observation): Reply<Option<Result>> {
    match state
    case Finalized(requestHash, result, _) => if requestHash == OfRequest(request) then Ok(Some(result)) else Refused
    case FinalizationPending(_) => Refused
    case IntentStored(Some(h)) => if h == OfRequest(request) then Ok(None) else Refused
    case IntentStored(None) => Ok(None)
    case Absent => Ok(None)
  }

  ghost function Look(id: Identity, sys: System, attempt: Attempt): (System, Reply<Option<Result>>) {
    var (sys1, seen) := Serve(id, sys, Call(Observe(attempt.request.idempotencyKey), attempt.look.names, attempt.look.fuel));
    (sys1, match seen
           case Ok(Observed(state, _)) => Reconcile(attempt.request, state)
           case Died => Died
           case _ => Refused)
  }

  /** Observe, reconcile, and only then run the world and finalize. */
  ghost function Execute(id: Identity, a: Adapter, sys: System, attempt: Attempt): (System, Reply<Result>) {
    var (sys1, known) := Look(id, sys, attempt);
    match known
    case Ok(Some(result)) => (sys1, Ok(result))
    case Ok(None) =>
      var op := Finalize(InputFor(a, attempt.request), attempt.authorized);
      var (sys2, sealed) := Serve(id, sys1, Call(op, attempt.commit.names, attempt.commit.fuel));
      (sys2, match sealed
             case Ok(Receipt(result)) => if attempt.acknowledged then Ok(result) else Died
             case Died => Died
             case _ => Refused)
    case Died => (sys1, Died)
    case Refused => (sys1, Refused)
  }

  ghost predicate ReadsDirectories(id: Identity, sys: System, attempt: Attempt) {
    Lists(attempt.look.names, sys.store) && Lists(attempt.commit.names, Look(id, sys, attempt).0.store)
  }

  /** A successful execution or recovery returns the result the authority has on record. */
  lemma {:induction false} ExecuteAttested(id: Identity, a: Adapter, sys: System, attempt: Attempt)
    requires SystemOk(id, sys) && ReadsDirectories(id, sys, attempt)
    ensures var (sys', reply) := Execute(id, a, sys, attempt);
      var i := attempt.request.idempotencyKey;
      && SystemOk(id, sys') && Extends(sys.store, sys'.store)
      && (reply.Ok? ==> i in sys'.store.finalizations && sys'.store.finalizations[i].result == reply.value
                        && sys'.store.finalizations[i].requestHash == OfRequest(attempt.request))
  {
    hide UpToDate, SystemOk, Extends, Serve, Lists, IsHash, SafeIntent;
    var look := Call(Observe(attempt.request.idempotencyKey), attempt.look.names, attempt.look.fuel);
    ServeSafe(id, sys, look);
    var sys1 := Look(id, sys, attempt).0;
    var commit := Call(Finalize(InputFor(a, attempt.request), attempt.authorized), attempt.commit.names, attempt.commit.fuel);
    ServeSafe(id, sys1, commit);
    var sys2 := Serve(id, sys1, commit).0;
    ExtendsTransitive(sys.store, sys1.store, sys2.store);
    FinalRequest(id, sys2, commit.op.input);
  }

  /** A finalization of this input is of its request. */
  lemma {:induction false} FinalRequest(id: Identity, sys: System, input: Input)
    requires SystemOk(id, sys)
    ensures input.intent in sys.store.finalizations && sys.store.finalizations[input.intent].inputHash == OfInput(input) ==>
      sys.store.finalizations[input.intent].requestHash == OfRequest(input.request)
  {
    hide Inv, Settled, ArchiveTrusted, ReceiptTrusted, WellFormed;
    if input.intent in sys.store.finalizations { RecordTrusted(id, sys.store, input.intent); }
  }

  // ---------------------------------------------------------------- what an execution does

  /** The observation is a final result of this request. */
  predicate FinalFor(state: Observation, request: Request) { state.Finalized? && state.finalRequestHash == OfRequest(request) }

  /** Nothing stands against executing the request: the intent is unknown, or stored for no other request. */
  predicate Executable(state: Observation, request: Request) {
    state.Absent? || (state.IntentStored? && (state.requestHash.None? || state.requestHash == Some(OfRequest(request))))
  }

  /** An execution observes first.  A final result of this request is returned, another request's or a pending one is refused,
      both without doing anything more; otherwise the world is run once and sealed by one finalization, whose result is
      returned unless the reply is lost. */
  lemma {:induction false} ExecutionTold(id: Identity, a: Adapter, sys: System, attempt: Attempt)
    ensures var r := attempt.request;
      var (seen, answer) := Serve(id, sys, Call(Observe(r.idempotencyKey), attempt.look.names, attempt.look.fuel));
      var (after, reply) := Execute(id, a, sys, attempt);
      && (!answer.Ok? ==> after == seen && !reply.Ok? && (reply.Died? <==> answer.Died?))
      && (answer.Ok? && answer.value.Observed? ==>
            && (FinalFor(answer.value.state, r) ==> after == seen && reply == Ok(answer.value.state.result))
            && (!FinalFor(answer.value.state, r) && !Executable(answer.value.state, r) ==> after == seen && reply == Refused)
            && (Executable(answer.value.state, r) ==> Sealing(id, a, attempt, seen, after, reply)))
  {
    hide Serve, Execute, Sealing;
    var r := attempt.request;
    var (seen, answer) := Serve(id, sys, Call(Observe(r.idempotencyKey), attempt.look.names, attempt.look.fuel));
    LookTold(id, sys, attempt);
    ExecuteTold(id, a, sys, attempt);
  }

  /** What the adapter makes of the answer to its observation. */
  lemma {:induction false} LookTold(id: Identity, sys: System, attempt: Attempt)
    ensures var r := attempt.request;
      var (seen, answer) := Serve(id, sys, Call(Observe(r.idempotencyKey), attempt.look.names, attempt.look.fuel));
      var (after, known) := Look(id, sys, attempt);
      && after == seen
      && (!answer.Ok? ==> !known.Ok? && (known.Died? <==> answer.Died?))
      && (answer.Ok? && answer.value.Observed? ==>
            var state := answer.value.state;
            && (FinalFor(state, r) ==> known == Ok(Some(state.result)))
            && (Executable(state, r) ==> known == Ok(None))
            && (!FinalFor(state, r) && !Executable(state, r) ==> known == Refused))
  {
    hide Serve;
    var r := attempt.request;
    var (seen, answer) := Serve(id, sys, Call(Observe(r.idempotencyKey), attempt.look.names, attempt.look.fuel));
    match answer
    case Ok(Observed(state, _)) => assert Look(id, sys, attempt) == (seen, Reconcile(r, state)); ReconcileTold(r, state);
    case Ok(_) =>
    case Died => assert Look(id, sys, attempt) == (seen, Died);
    case Refused => assert Look(id, sys, attempt) == (seen, Refused);
  }

  lemma {:induction false} ReconcileTold(r: Request, state: Observation)
    ensures FinalFor(state, r) ==> Reconcile(r, state) == Ok(Some(state.result))
    ensures Executable(state, r) ==> Reconcile(r, state) == Ok(None)
    ensures !FinalFor(state, r) && !Executable(state, r) ==> Reconcile(r, state) == Refused
  {
    match state
    case IntentStored(Some(h)) =>
    case IntentStored(None) =>
    case _ =>
  }

  lemma {:induction false} ExecuteTold(id: Identity, a: Adapter, sys: System, attempt: Attempt)
    ensures var (seen, known) := Look(id, sys, attempt);
      var (after, reply) := Execute(id, a, sys, attempt);
      && (!known.Ok? ==> after == seen && !reply.Ok? && (reply.Died? <==> known.Died?))
      && (known.Ok? && known.value.Some? ==> after == seen && reply == Ok(known.value.value))
      && (known.Ok? && known.value.None? ==> Sealing(id, a, attempt, seen, after, reply))
  {
    hide Serve, Look;
    var (seen, known) := Look(id, sys, attempt);
    var (after, reply) := Execute(id, a, sys, attempt);
    if known.Ok? && known.value.None? {
      assert MadeFor(InputFor(a, attempt.request), a, attempt.request);
      var sealed := Serve(id, seen, Call(Finalize(InputFor(a, attempt.request), attempt.authorized), attempt.commit.names, attempt.commit.fuel)).1;
      match sealed
      case Ok(_) => assert Sealed(id, attempt, InputFor(a, attempt.request), seen, after, reply);
      case Refused => assert Sealed(id, attempt, InputFor(a, attempt.request), seen, after, reply);
      case Died => assert Sealed(id, attempt, InputFor(a, attempt.request), seen, after, reply);
    }
  }

  /** One finalization of what this adapter makes of the request. */
  ghost predicate Sealing(id: Identity, a: Adapter, attempt: Attempt, before: System, after: System, reply: Reply<Result>) {
    exists input :: MadeFor(input, a, attempt.request) && Sealed(id, attempt, input, before, after, reply)
  }

  predicate MadeFor(input: Input, a: Adapter, r: Request) {
    && input.intent == r.idempotencyKey && input.request == r && input.requestHash == OfRequest(r)
    && input.binding == a.bind(r) && input.bundle == a.world(r) && input.adapterHash == a.hash && input.adapterPackage == a.package
  }

  ghost predicate Sealed(id: Identity, attempt: Attempt, input: Input, before: System, after: System, reply: Reply<Result>) {
    var (sys, sealed) := Serve(id, before, Call(Finalize(input, attempt.authorized), attempt.commit.names, attempt.commit.fuel));
    && after == sys
    && (reply.Ok? <==> sealed.Ok? && sealed.value.Receipt? && attempt.acknowledged)
    && (reply.Ok? ==> reply.value == sealed.value.receipt)
    && (reply == Refused <==> sealed == Refused || (sealed.Ok? && !sealed.value.Receipt?))
  }

  // ---------------------------------------------------------------- adapters and other clients together

  datatype Action = Direct(call: Call) | Drive(adapter: Adapter, attempt: Attempt)

  ghost function Act(id: Identity, sys: System, action: Action): System {
    match action
    case Direct(call) => Serve(id, sys, call).0
    case Drive(a, attempt) => Execute(id, a, sys, attempt).0
  }

  ghost predicate Grounded(id: Identity, sys: System, action: Action) {
    match action
    case Direct(call) => Lists(call.names, sys.store)
    case Drive(_, attempt) => ReadsDirectories(id, sys, attempt)
  }

  ghost function Reached(id: Identity, sys: System, actions: seq<Action>): System
    decreases |actions|
  {
    if actions == [] then sys
    else Act(id, Reached(id, sys, actions[..|actions| - 1]), actions[|actions| - 1])
  }

  ghost predicate AllGrounded(id: Identity, sys: System, actions: seq<Action>) {
    forall k :: 0 <= k < |actions| ==> Grounded(id, Reached(id, sys, actions[..k]), actions[k])
  }

  lemma {:induction false} ActionsSafe(id: Identity, sys: System, actions: seq<Action>, j: nat, k: nat)
    requires SystemOk(id, sys) && AllGrounded(id, sys, actions) && j <= k <= |actions|
    ensures SystemOk(id, Reached(id, sys, actions[..j])) && SystemOk(id, Reached(id, sys, actions[..k]))
    ensures Extends(Reached(id, sys, actions[..j]).store, Reached(id, sys, actions[..k]).store)
    decreases k
  {
    hide SystemOk, Extends, Serve, Execute, Lists, ReadsDirectories, Attested;
    if k == 0 {
      ExtendsReflexive(sys.store);
      assert actions[..0] == [];
    } else {
      ActionsSafe(id, sys, actions, if j < k then j else k - 1, k - 1);
      assert actions[..k][..k - 1] == actions[..k - 1] && actions[..k][k - 1] == actions[k - 1];
      var before := Reached(id, sys, actions[..k - 1]);
      match actions[k - 1] {
        case Direct(call) => ServeSafe(id, before, call);
        case Drive(a, attempt) => ExecuteAttested(id, a, before, attempt);
      }
      assert Reached(id, sys, actions[..k]) == Act(id, before, actions[k - 1]);
      if j < k {
        ExtendsTransitive(Reached(id, sys, actions[..j]).store, before.store, Reached(id, sys, actions[..k]).store);
      } else {
        ExtendsReflexive(Reached(id, sys, actions[..k]).store);
      }
    }
  }

  ghost function Outcome(id: Identity, sys: System, actions: seq<Action>, k: nat): Reply<Result>
    requires k < |actions| && actions[k].Drive?
  {
    Execute(id, actions[k].adapter, Reached(id, sys, actions[..k]), actions[k].attempt).1
  }

  lemma {:induction false} OutcomeOnRecord(id: Identity, sys: System, actions: seq<Action>, k: nat)
    requires SystemOk(id, sys) && AllGrounded(id, sys, actions) && k < |actions| && actions[k].Drive?
    requires Outcome(id, sys, actions, k).Ok?
    ensures var i := actions[k].attempt.request.idempotencyKey;
      var end := Reached(id, sys, actions).store;
      i in end.finalizations && end.finalizations[i].result == Outcome(id, sys, actions, k).value
  {
    hide SystemOk, Serve, Execute, Lists, ReadsDirectories;
    ActionsSafe(id, sys, actions, k, k);
    ExecuteAttested(id, actions[k].adapter, Reached(id, sys, actions[..k]), actions[k].attempt);
    assert actions[..k + 1][..k] == actions[..k] && actions[..k + 1][k] == actions[k];
    ActionsSafe(id, sys, actions, k + 1, |actions|);
    assert actions[..|actions|] == actions;
  }

  /** Executions and recoveries of one intent, by any adapters, among any other calls, crashes and
      lost acknowledgements: all that succeed return the same result. */
  lemma {:induction false} AdapterExactlyOnce(id: Identity, sys: System, actions: seq<Action>, j: nat, k: nat)
    requires SystemOk(id, sys) && AllGrounded(id, sys, actions)
    requires j < |actions| && k < |actions| && actions[j].Drive? && actions[k].Drive?
    requires actions[j].attempt.request.idempotencyKey == actions[k].attempt.request.idempotencyKey
    requires Outcome(id, sys, actions, j).Ok? && Outcome(id, sys, actions, k).Ok?
    ensures Outcome(id, sys, actions, j) == Outcome(id, sys, actions, k)
  {
    OutcomeOnRecord(id, sys, actions, j);
    OutcomeOnRecord(id, sys, actions, k);
  }

  /** The client trusts every receipt a finalization of its input answers with. */
  lemma {:induction false} ReceiptsTrusted(id: Identity, s: Store, input: Input)
    requires Inv(id, s) && Settled(s) && FinalizePlan(id, s, input, true).reply.Ok?
    ensures var answer := FinalizePlan(id, s, input, true).reply.value;
      answer.Receipt? && ReceiptTrusted(id, input, answer.receipt)
  {
    hide Core, Tight, FinalizePlan, LegalAll, IsHash, SafeIntent, ReceiptTrusted, IntentKept;
    FinalizeTrusted(id, s, input, true);
  }
}
