/** The calibration archive's search state: execution intents, execution attempts and executions,
    and the operations that move one calibration key through its execution attempts. */
module CalibrationState {
  import opened Options

  /** One parameter vector on one seed. */
  datatype Key = Key(vector: string, seed: string)

  /** The id of a key's attempts: the digest the runner derives from the key, or any text a caller gives. */
  datatype LogicalId = Derived(key: Key) | Given(name: string)

  /** Execution attempt identifiers are digests of these tuples. */
  datatype AttemptId = AttemptId(run: string, key: Key, ordinal: nat)

  datatype ExecState = Pending | Dispatching | Running | Recovering
                     | Quarantined | FailedRetryable | FailedTerminal | Succeeded

  predicate Active(s: ExecState) { s.Pending? || s.Dispatching? || s.Running? || s.Recovering? }
  predicate Failed(s: ExecState) { s.FailedRetryable? || s.FailedTerminal? || s.Quarantined? }

  datatype Transition = Transition(sequence: nat, state: ExecState, boundary: string)

  /** Evidence files `evidence/<id>.json`, failure records, and the other places a publication may write. */
  datatype Path = Evidence(id: LogicalId) | ExecutionAttempt(attempt: AttemptId) | Listed(name: string)

  /** A name that stays one file of its directory: not empty, no slash, and no two dots once `.json` is added. */
  predicate SafeName(name: string) {
    && name != ""
    && forall i :: 0 <= i < |name| ==> name[i] != '/' && (name[i] == '.' ==> i + 1 < |name| && name[i + 1] != '.')
  }

  predicate SafeId(id: LogicalId) { id.Given? ==> SafeName(id.name) }

  datatype Intent = Intent(key: Key, logical: LogicalId, request: string, status: ExecState)

  datatype Attempt = Attempt(id: AttemptId, key: Key, logical: LogicalId, parent: Option<AttemptId>, request: string,
                             preflight: string, transitions: seq<Transition>, failure: Option<Failure>,
                             executionPath: Option<Path>, next: Option<AttemptId>)
  {
    function Last(): ExecState { if transitions == [] then Pending else transitions[|transitions| - 1].state }
  }

  /** Where an attempt's failure record is and what it says; its hash is the record, digests being ideal. */
  datatype Failure = Failure(path: Path, record: Value)

  datatype Execution = Execution(key: Key, logical: LogicalId, attempt: AttemptId, path: Path, record: Value)

  datatype Value =
    | FailureRecord(attempt: AttemptId, key: Key, logical: LogicalId, parent: Option<AttemptId>, request: string,
                    preflight: string, transitions: seq<Transition>, classification: Classification)
    | EvidenceRecord(bundle: string, context: string)
    | OtherValue(bytes: string)

  datatype Artifact = Artifact(path: Path, value: Value)

  datatype Classification = ParameterFailure | AcceptedConfiguration | InfrastructureFailure
                          | ImplementationDefect | ProtocolViolation | BlindingBreach | ResearchDesignBlocker

  datatype Status = Ready | Search | FailedSearch | Complete

  /** An item of the other retained lists: attempts, assessments, candidates, quarantined results. */
  datatype Entry = Entry(id: string, body: string)

  datatype State = State(header: string, run: string, status: Status, intents: seq<Intent>, attempts: seq<Attempt>,
                         executions: seq<Execution>, manifests: seq<Entry>, assessments: seq<Entry>,
                         candidates: seq<Entry>, quarantined: seq<Entry>, incidents: seq<Entry>,
                         completed: seq<Key>, visited: seq<string>, result: Option<string>)

  // ---------------------------------------------------------------- lookups

  function IntentOf(intents: seq<Intent>, key: Key): (k: nat)
    ensures k <= |intents| && (k < |intents| ==> intents[k].key == key)
    ensures forall j :: 0 <= j < k ==> intents[j].key != key
  {
    if intents == [] || intents[0].key == key then 0 else 1 + IntentOf(intents[1..], key)
  }

  function AttemptOf(attempts: seq<Attempt>, id: AttemptId): (k: nat)
    ensures k <= |attempts| && (k < |attempts| ==> attempts[k].id == id)
    ensures forall j :: 0 <= j < k ==> attempts[j].id != id
  {
    if attempts == [] || attempts[0].id == id then 0 else 1 + AttemptOf(attempts[1..], id)
  }

  function LatestOf(attempts: seq<Attempt>, key: Key): (k: Option<nat>)
    ensures k.Some? ==> k.value < |attempts| && attempts[k.value].key == key
    ensures k.Some? ==> forall j :: k.value < j < |attempts| ==> attempts[j].key != key
    ensures k.None? ==> forall j :: 0 <= j < |attempts| ==> attempts[j].key != key
  {
    if attempts == [] then None
    else if attempts[|attempts| - 1].key == key then Some(|attempts| - 1)
    else LatestOf(attempts[..|attempts| - 1], key)
  }

  function ExecutionOf(executions: seq<Execution>, key: Key): (k: nat)
    ensures k <= |executions| && (k < |executions| ==> executions[k].key == key)
    ensures forall j :: 0 <= j < k ==> executions[j].key != key
  {
    if executions == [] || executions[0].key == key then 0 else 1 + ExecutionOf(executions[1..], key)
  }

  function CountOf(attempts: seq<Attempt>, key: Key): nat {
    if attempts == [] then 0
    else (if attempts[|attempts| - 1].key == key then 1 else 0) + CountOf(attempts[..|attempts| - 1], key)
  }

  // ---------------------------------------------------------------- the operations

  /** An operation refuses, finds its work already done, or publishes a next state with artifacts. */
  datatype Effect = Refuse | Kept | Publish(next: State, artifacts: seq<Artifact>)

  function RecordIntent(s: State, key: Key, logical: LogicalId, request: string): Effect {
    if s.status.Complete? || s.status.FailedSearch? then Refuse
    else
      var k := IntentOf(s.intents, key);
      if k < |s.intents| then
        if s.intents[k].logical == logical && s.intents[k].request == request then Kept else Refuse
      else Publish(s.(intents := s.intents + [Intent(key, logical, request, Pending)]), [])
  }

  function Opening(initial: ExecState): seq<Transition> {
    if initial.Pending? then
      [Transition(0, Pending, "EXECUTION_ATTEMPT_CREATED"), Transition(1, Dispatching, "ADAPTER_DISPATCH_STARTED"),
       Transition(2, Running, "ADAPTER_INVOCATION_ACTIVE")]
    else
      [Transition(0, Recovering, "AUTHORITY_RECONCILIATION_REQUESTED"), Transition(1, Running, "ADAPTER_INVOCATION_ACTIVE")]
  }

  function BeginAttempt(s: State, key: Key, logical: LogicalId, request: string, recovering: bool, preflight: string): Effect {
    var k := IntentOf(s.intents, key);
    if key in s.completed || k == |s.intents| || s.intents[k].logical != logical || s.intents[k].request != request then Refuse
    else
      var prior := LatestOf(s.attempts, key);
      if prior.Some? && Active(s.attempts[prior.value].Last()) then Kept
      else if prior.Some? && (s.attempts[prior.value].Last().FailedTerminal? || s.attempts[prior.value].Last().Succeeded?) then Refuse
      else
        var id := AttemptId(s.run, key, CountOf(s.attempts, key));
        var initial := if recovering || prior.Some? then Recovering else Pending;
        var attempts := if prior.Some? then s.attempts[prior.value := s.attempts[prior.value].(next := Some(id))] else s.attempts;
        var parent := if prior.Some? then Some(s.attempts[prior.value].id) else None;
        var attempt := Attempt(id, key, logical, parent, request, preflight, Opening(initial), None, None, None);
        var status := if initial.Recovering? then Recovering else Running;
        Publish(s.(attempts := attempts + [attempt], intents := s.intents[k := s.intents[k].(status := status)]), [])
  }

  /** What a failure of this kind, at this boundary, leaves an attempt in. */
  function FailureState(classification: Classification, boundary: Option<string>): ExecState {
    if !classification.InfrastructureFailure? then FailedTerminal
    else if boundary == Some("BEFORE_DISPATCH_AUTHORITY_RECONCILIATION") then FailedRetryable else Quarantined
  }

  function RecordFailure(s: State, id: AttemptId, classification: Classification, boundary: Option<string>): Effect {
    var n := AttemptOf(s.attempts, id);
    if classification.ParameterFailure? || classification.AcceptedConfiguration? || n == |s.attempts|
       || !s.attempts[n].Last().Running? then Refuse
    else
      var a := s.attempts[n];
      var k := IntentOf(s.intents, a.key);
      if k == |s.intents| then Refuse
      else
        var state := FailureState(classification, boundary);
        var transitions := a.transitions + [Transition(|a.transitions|, state,
                             if boundary.Some? then boundary.value else "ADAPTER_FAILURE_RETURNED")];
        var record := FailureRecord(a.id, a.key, a.logical, a.parent, s.intents[k].request, a.preflight, transitions, classification);
        var path := ExecutionAttempt(id);
        Publish(s.(attempts := s.attempts[n := a.(transitions := transitions, failure := Some(Failure(path, record)))],
                   intents := s.intents[k := s.intents[k].(status := state)],
                   status := if state.FailedTerminal? then FailedSearch else s.status),
                [Artifact(path, record)])
  }

  /** `valid` is what evidence loading and the seed check say of the bundle. */
  function RecordEvidence(s: State, key: Key, logical: LogicalId, id: AttemptId, record: Value, valid: bool): Effect {
    if s.status.Complete? then Refuse
    else if ExecutionOf(s.executions, key) < |s.executions| then Kept
    else
      var k, n := IntentOf(s.intents, key), AttemptOf(s.attempts, id);
      if !valid || k == |s.intents| || s.intents[k].logical != logical || n == |s.attempts|
         || s.attempts[n].key != key || !s.attempts[n].Last().Running? then Refuse
      else
        var a := s.attempts[n];
        var path := Evidence(logical);
        var transitions := a.transitions + [Transition(|a.transitions|, Succeeded, "CANONICAL_EVIDENCE_ARCHIVED")];
        Publish(s.(attempts := s.attempts[n := a.(transitions := transitions, executionPath := Some(path))],
                   executions := s.executions + [Execution(key, logical, id, path, record)],
                   intents := s.intents[k := s.intents[k].(status := Succeeded)]),
                [Artifact(path, record)])
  }

  datatype Operation =
    | Record(key: Key, logical: LogicalId, request: string)
    | Begin(key: Key, logical: LogicalId, request: string, recovering: bool, preflight: string)
    | Fail(attempt: AttemptId, classification: Classification, boundary: Option<string>)
    | Succeed(key: Key, logical: LogicalId, attempt: AttemptId, record: Value, valid: bool)

  function Effects(s: State, op: Operation): Effect {
    match op
    case Record(key, logical, request) => RecordIntent(s, key, logical, request)
    case Begin(key, logical, request, recovering, preflight) => BeginAttempt(s, key, logical, request, recovering, preflight)
    case Fail(id, classification, boundary) => RecordFailure(s, id, classification, boundary)
    case Succeed(key, logical, id, record, valid) => RecordEvidence(s, key, logical, id, record, valid)
  }
}
