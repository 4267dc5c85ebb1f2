/** The evidence authority's operations as plans over the durable store: which files each operation
    writes, in which order, and what it answers.  Each plan takes the branches of the service. */
module AuthorityProtocol {
  import opened CrashStop
  import opened Options
  import opened AuthorityRecords

  function Final(s: Store, ws: seq<Write>): Store { Replay(Apply, s, ws) }

  // ---------------------------------------------------------------- heads and anchor

  function ParentAt(heads: map<nat, Head>, g: nat): (parent: Option<Digest>)
    requires g == 0 || g - 1 in heads
  {
    if g == 0 then None else Some(OfHead(heads[g - 1]))
  }

  /** The head file of generation g is there, signed by this authority, and names its predecessor. */
  predicate HeadLinks(id: Identity, heads: map<nat, Head>, g: nat) {
    && g in heads
    && (g == 0 || g - 1 in heads)
    && heads[g].signer == id.headKey && heads[g].authority == id.authority
    && heads[g].evidenceKey == id.evidenceKey && heads[g].headKey == id.headKey
    && heads[g].generation == g && heads[g].parent == ParentAt(heads, g)
  }

  /** The head files are numbered 0, 1, 2, ... without a gap and form one chain. */
  ghost predicate ChainOk(id: Identity, heads: map<nat, Head>) {
    forall g: nat :: g < |heads| ==> HeadLinks(id, heads, g)
  }

  ghost function LatestHead(id: Identity, heads: map<nat, Head>): Reply<Option<HeadRef>> {
    if !ChainOk(id, heads) then Refused
    else if |heads| == 0 then Ok(None)
    else
      assert HeadLinks(id, heads, |heads| - 1);
      Ok(Some(HeadRef(|heads| - 1, OfHead(heads[|heads| - 1]))))
  }

  predicate AnchorHolds(heads: map<nat, Head>, anchored: Option<HeadRef>, actual: Option<HeadRef>) {
    anchored.Some? ==>
      && actual.Some? && actual.value.generation >= anchored.value.generation
      && anchored.value.generation in heads
      && OfHead(heads[anchored.value.generation]) == anchored.value.digest
  }

  function ReconcilePlan(id: Identity, s: Store, actual: Option<HeadRef>): Plan<Write, ()> {
    if !id.anchored then Plan([], Ok(()))
    else if s.anchor.Missing? then Plan([], Refused)
    else if !AnchorHolds(s.heads, s.anchor.head, actual) then Plan([], Refused)
    else if s.anchor.head != actual then Plan([WAnchor(actual)], Ok(()))
    else Plan([], Ok(()))
  }

  ghost function ReconcileLatest(id: Identity, s: Store): Plan<Write, ()> {
    match LatestHead(id, s.heads)
    case Ok(actual) => ReconcilePlan(id, s, actual)
    case _ => Plan([], Refused)
  }

  // ---------------------------------------------------------------- completing a staged finalization

  /** Publishing the staged head, when it is the next one; an already published one must be equal. */
  ghost function PublishPlan(id: Identity, s: Store, p: Pending): Plan<Write, ()> {
    match LatestHead(id, s.heads)
    case Ok(current) =>
      var parent := if current.Some? then Some(current.value.digest) else None;
      if p.head.generation > |s.heads| then Plan([], Refused)
      else if p.head.generation == |s.heads| then
        if p.head.parent != parent then Plan([], Refused)
        else if p.head.generation in s.heads && s.heads[p.head.generation] != p.head then Plan([], Refused)
        else Plan([WHead(|s.heads|, p.head)], Ok(()))
      else if p.head.generation in s.heads && s.heads[p.head.generation] == p.head then Plan([], Ok(()))
      else Plan([], Refused)
    case _ => Plan([], Refused)
  }

  function RecordPlan(s: Store, p: Pending): Plan<Write, ()> {
    if p.intent in s.finalizations && s.finalizations[p.intent] != p.finalization then Plan([], Refused)
    else Plan([WFinalization(p.intent, p.finalization)], Ok(()))
  }

  /** Run `next` on the store that `first` leaves, unless `first` was refused. */
  function Then<T, U>(s: Store, first: Plan<Write, T>, next: Store -> Plan<Write, U>): Plan<Write, U> {
    if first.reply.Ok? then
      var second := next(Final(s, first.writes));
      Plan(first.writes + second.writes, second.reply)
    else Plan(first.writes, Refused)
  }

  ghost function CompletePlan(id: Identity, s: Store, p: Pending): Plan<Write, ()> {
    Then(s, PublishPlan(id, s, p), (s1: Store) => Then(s1, RecordPlan(s1, p), (s2: Store) => ReconcileLatest(id, s2)))
  }

  // ---------------------------------------------------------------- start-up

  ghost function CompleteAllPlan(id: Identity, s: Store, names: seq<Intent>): Plan<Write, ()>
    decreases |names|
  {
    if names == [] then Plan([], Ok(()))
    else if names[0] !in s.pending || s.pending[names[0]].intent != names[0] then Plan([], Refused)
    else Then(s, CompletePlan(id, s, s.pending[names[0]]), (s1: Store) => CompleteAllPlan(id, s1, names[1..]))
  }

  /** The independent verifier's checks on the finalized record under head g. */
  predicate HeadVerified(id: Identity, s: Store, g: nat) {
    && HeadLinks(id, s.heads, g)
    && var head := s.heads[g];
    && head.intent in s.finalizations
    && var f := s.finalizations[head.intent];
    && OfFinalization(f) == head.recordHash
    && f.result.archive.signer == id.evidenceKey && f.result.archive.keyId == id.evidenceKey
    && f.result.archive.runId == head.runId && f.result.archive.objectHash == head.objectHash
    && OfArchive(f.result.archive) == f.result.headReceipt.digest
    && f.result.headReceipt.signer == id.headKey && f.result.adapterReceipt.signer == id.headKey
    && f.result.headReceipt.runId == head.runId && f.result.headReceipt.evidenceKey == id.evidenceKey
    && f.result.headReceipt.generation == 0 && f.result.adapterReceipt.runId == head.runId
    && f.objectHash == head.objectHash && f.runId == head.runId
    && head.objectHash in s.objects
    && var artifact := s.objects[head.objectHash];
    && OfObject(artifact) == head.objectHash
    && f.result.artifact == artifact && f.result.bundle == artifact.bundle && artifact.bundle.intact
    && head.intent in s.claims
    && var c := s.claims[head.intent];
    && c.intent == head.intent && c.requestHash == f.requestHash && c.objectHash == f.objectHash
    && c.inputHash == f.inputHash
    && c.inputHash == OfInput(Input(c.intent, c.requestHash, c.request, c.binding, artifact.bundle, c.adapterHash,
                                    c.adapterPackage))
  }

  ghost predicate Claimed(claims: map<Intent, Claim>, hash: Digest) {
    exists i :: i in claims && claims[i].objectHash == hash
  }

  /** The whole store passes the independent verifier. */
  ghost predicate Verified(id: Identity, s: Store) {
    && (forall g: nat :: g < |s.heads| ==> HeadVerified(id, s, g))
    && |s.finalizations| == |s.heads|
    && (forall i :: i in s.claims ==> s.claims[i].intent == i)
    && (forall h :: h in s.objects ==> Claimed(s.claims, h))
  }

  /** `names` is the listing of the pending directory, in the order the directory is read. */
  ghost function InitPlan(id: Identity, s: Store, names: seq<Intent>): Plan<Write, ()> {
    if !ChainOk(id, s.heads) then Plan([], Refused)
    else
      Then(s, CompleteAllPlan(id, s, names),
           (s1: Store) => if Verified(id, s1) then ReconcileLatest(id, s1) else Plan([], Refused))
  }

  // ---------------------------------------------------------------- the four operations

  datatype Operation =
    | Get(intent: Intent)
    | Observe(intent: Intent)
    | Put(intent: Intent, record: IntentRecord)
    | Finalize(input: Input, authorized: bool)

  datatype Observation = Absent | IntentStored(requestHash: Option<Digest>)
                       | FinalizationPending(pendingHash: Digest)
                       | Finalized(finalRequestHash: Digest, result: Result, finalizationHash: Digest)

  datatype Answer =
    | NoRecord
    | StoredRecord(record: IntentRecord)
    | FinalRecord(requestHash: Digest, final: Result)
    | Observed(state: Observation, head: Option<Head>)
    | StoredIdempotent
    | Receipt(receipt: Result)

  function GetPlan(s: Store, i: Intent): Plan<Write, Answer> {
    if i in s.finalizations then
      if s.finalizations[i].intent != i then Plan([], Refused)
      else Plan([], Ok(FinalRecord(s.finalizations[i].requestHash, s.finalizations[i].result)))
    else if i in s.intents then Plan([], Ok(StoredRecord(s.intents[i])))
    else Plan([], Ok(NoRecord))
  }

  function PutPlan(s: Store, i: Intent, record: IntentRecord): Plan<Write, Answer> {
    if !SafeIntent(i) || (i in s.intents && s.intents[i] != record) then Plan([], Refused)
    else Plan([WIntent(i, record)], Ok(StoredIdempotent))
  }

  /** An observation first completes a staged finalization of the observed intent. */
  ghost function SettlePlan(id: Identity, s: Store, i: Intent): Plan<Write, ()> {
    if i in s.pending && i !in s.finalizations then
      if s.pending[i].intent != i then Plan([], Refused) else CompletePlan(id, s, s.pending[i])
    else Plan([], Ok(()))
  }

  function StateOf(s: Store, i: Intent): Observation {
    if i in s.finalizations then
      var f := s.finalizations[i]; Finalized(f.requestHash, f.result, OfFinalization(f))
    else if i in s.pending then FinalizationPending(OfFinalization(s.pending[i].finalization))
    else if i in s.intents then IntentStored(s.intents[i].requestHash)
    else Absent
  }

  ghost function ReportPlan(id: Identity, s: Store, i: Intent): Plan<Write, Answer> {
    if i in s.finalizations && s.finalizations[i].intent != i then Plan([], Refused)
    else
      match LatestHead(id, s.heads)
      case Ok(None) => Plan([], Ok(Observed(StateOf(s, i), None)))
      case Ok(Some(h)) =>
        if h.generation in s.heads then Plan([], Ok(Observed(StateOf(s, i), Some(s.heads[h.generation]))))
        else Plan([], Refused)
      case _ => Plan([], Refused)
  }

  ghost function ObservePlan(id: Identity, s: Store, i: Intent): Plan<Write, Answer> {
    if !SafeIntent(i) then Plan([], Refused)
    else Then(s, SettlePlan(id, s, i), (s1: Store) => ReportPlan(id, s1, i))
  }

  function IntentPlan(s: Store, input: Input): Plan<Write, ()> {
    if input.intent !in s.intents then Plan([WIntent(input.intent, RecordOf(input))], Ok(()))
    else if s.intents[input.intent].requestHash.Some? && s.intents[input.intent].requestHash.value != input.requestHash
    then Plan([], Refused)
    else Plan([], Ok(()))
  }

  function ClaimPlan(s: Store, input: Input): Plan<Write, ()> {
    if input.intent in s.claims && s.claims[input.intent] != ClaimOf(input) then Plan([], Refused)
    else Plan([WClaim(input.intent, ClaimOf(input))], Ok(()))
  }

  function ObjectPlan(s: Store, input: Input): Plan<Write, ()> {
    var artifact := ObjectOf(input);
    if OfObject(artifact) in s.objects && s.objects[OfObject(artifact)] != artifact then Plan([], Refused)
    else Plan([WObject(OfObject(artifact), artifact)], Ok(()))
  }

  ghost function StagedOf(id: Identity, s: Store, input: Input): Pending
    requires ValidInput(input) && ChainOk(id, s.heads)
  {
    PendingOf(id, input, |s.heads|, assert |s.heads| > 0 ==> HeadLinks(id, s.heads, |s.heads| - 1);
                                    ParentAt(s.heads, |s.heads|))
  }

  ghost function StagePlan(id: Identity, s: Store, input: Input): Plan<Write, Pending>
    requires ValidInput(input)
  {
    if !ChainOk(id, s.heads) then Plan([], Refused)
    else
      var p := StagedOf(id, s, input);
      if input.intent in s.pending && s.pending[input.intent] != p then Plan([], Refused)
      else Plan([WPending(input.intent, p)], Ok(p))
  }

  /** `plan`, answering with `answer` when it succeeds. */
  function Answering(plan: Plan<Write, ()>, answer: Answer): Plan<Write, Answer> {
    Plan(plan.writes, if plan.reply.Ok? then Ok(answer) else Refused)
  }

  ghost function PlacePlan(id: Identity, s: Store, input: Input): Plan<Write, Answer>
    requires ValidInput(input)
  {
    var stage := StagePlan(id, s, input);
    if stage.reply.Ok? then
      Then(s, stage, (s1: Store) => Answering(CompletePlan(id, s1, stage.reply.value), Receipt(ResultOf(id, input))))
    else Plan(stage.writes, Refused)
  }

  /** Claim, object, pending record, then completion. */
  ghost function CommitPlan(id: Identity, s: Store, input: Input): Plan<Write, Answer>
    requires ValidInput(input)
  {
    Then(s, ClaimPlan(s, input), (s1: Store) =>
      Then(s1, ObjectPlan(s1, input), (s2: Store) => PlacePlan(id, s2, input)))
  }

  ghost function FinalizePlan(id: Identity, s: Store, input: Input, authorized: bool): Plan<Write, Answer> {
    if !authorized || !ValidInput(input) then Plan([], Refused)
    else
      Then(s, IntentPlan(s, input), (s1: Store) =>
        if input.intent in s1.finalizations then
          if s1.finalizations[input.intent].inputHash != OfInput(input) then Plan([], Refused)
          else Plan([], Ok(Receipt(s1.finalizations[input.intent].result)))
        else CommitPlan(id, s1, input))
  }

  ghost function OperationPlan(id: Identity, s: Store, op: Operation): Plan<Write, Answer> {
    match op
    case Get(i) => GetPlan(s, i)
    case Observe(i) => ObservePlan(id, s, i)
    case Put(i, r) => PutPlan(s, i, r)
    case Finalize(input, authorized) => FinalizePlan(id, s, input, authorized)
  }

  // ---------------------------------------------------------------- a process serving calls

  /** The authority as its callers see it: the store, and whether the live process has initialized. */
  datatype System = System(store: Store, initialized: bool)

  /** One call; `names` is the pending listing start-up would read, and the process dies instead of
      making its (fuel+1)-st durable write, or before acknowledging after exactly `fuel`. */
  datatype Call = Call(op: Operation, names: seq<Intent>, fuel: nat)

  ghost function StartPlan(id: Identity, sys: System, names: seq<Intent>): Plan<Write, ()> {
    if sys.initialized then Plan([], Ok(())) else InitPlan(id, sys.store, names)
  }

  ghost function ServePlan(id: Identity, sys: System, op: Operation, names: seq<Intent>): Plan<Write, Answer> {
    Then(sys.store, StartPlan(id, sys, names), (s1: Store) => OperationPlan(id, s1, op))
  }

  /** Serving one call.  A death leaves a prefix of the plan and a process to be started anew. */
  ghost function Serve(id: Identity, sys: System, call: Call): (System, Reply<Answer>) {
    var plan := ServePlan(id, sys, call.op, call.names);
    if call.fuel <= |plan.writes| then (System(Final(sys.store, plan.writes[..call.fuel]), false), Died)
    else (System(Final(sys.store, plan.writes), sys.initialized || StartPlan(id, sys, call.names).reply.Ok?), plan.reply)
  }
}
