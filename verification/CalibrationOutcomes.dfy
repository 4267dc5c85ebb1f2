/** What each operation on a calibration key does to the published state, read off that state: which calls publish, what
    an ended attempt ends in, what may follow it, and what stays as it was. */
module CalibrationOutcomes {
  import opened Options
  import opened CalibrationState
  import opened CalibrationLineage
  import opened CalibrationHistory

  // ---------------------------------------------------------------- what changes and what does not

  /** Attempt n got one more transition, to this state at this boundary, and is otherwise the one it was. */
  ghost predicate Advanced(a: Attempt, b: Attempt, last: ExecState, boundary: string) {
    && SameAttempt(a, b) && b.next == a.next
    && b.transitions == a.transitions + [Transition(|a.transitions|, last, boundary)]
  }

  /** Only attempt n and intent k differ, the intent in its status alone. */
  ghost predicate OnlyThese(s: State, next: State, n: nat, k: nat, status: ExecState) {
    && n < |s.attempts| == |next.attempts| && k < |s.intents| == |next.intents|
    && (forall i :: 0 <= i < |s.attempts| && i != n ==> next.attempts[i] == s.attempts[i])
    && (forall i :: 0 <= i < |s.intents| && i != k ==> next.intents[i] == s.intents[i])
    && next.intents[k] == s.intents[k].(status := status)
  }

  /** Nothing but attempts, intents, executions and the archive's status differs. */
  ghost predicate RestKept(s: State, next: State) {
    && next.header == s.header && next.run == s.run && next.manifests == s.manifests && next.assessments == s.assessments
    && next.candidates == s.candidates && next.quarantined == s.quarantined && next.incidents == s.incidents
    && next.completed == s.completed && next.visited == s.visited && next.result == s.result
  }

  /** Intent k is the key's, and was recorded with this id and request. */
  ghost predicate IntentAt(s: State, k: nat, key: Key) {
    k < |s.intents| && s.intents[k].key == key
  }

  lemma {:induction false} IntentFound(s: State, k: nat)
    requires DistinctIntents(s.intents) && k < |s.intents|
    ensures IntentOf(s.intents, s.intents[k].key) == k
  {
  }

  lemma {:induction false} AttemptFound(s: State, n: nat)
    requires Numbered(s.attempts) && n < |s.attempts|
    ensures AttemptOf(s.attempts, s.attempts[n].id) == n
  {
    AttemptOfAt(s.attempts, n);
  }

  // ---------------------------------------------------------------- failures

  const BEFORE_DISPATCH := "BEFORE_DISPATCH_AUTHORITY_RECONCILIATION"

  /** What a failure leaves: the attempt terminal and the search failed unless infrastructure failed; the attempt retryable
      when infrastructure failed before dispatch, and quarantined when it failed later. */
  ghost predicate FailedAs(s: State, next: State, n: nat, classification: Classification, boundary: Option<string>)
    requires n < |s.attempts| && n < |next.attempts|
  {
    var last := next.attempts[n].Last();
    && (!classification.InfrastructureFailure? ==> last == FailedTerminal && next.status == FailedSearch)
    && (classification.InfrastructureFailure? && boundary == Some(BEFORE_DISPATCH) ==> last == FailedRetryable && next.status == s.status)
    && (classification.InfrastructureFailure? && boundary != Some(BEFORE_DISPATCH) ==> last == Quarantined && next.status == s.status)
  }

  /** The failure record tells the attempt's whole story, and is what the publication adds. */
  ghost predicate FailureTold(b: Attempt, classification: Classification, artifacts: seq<Artifact>) {
    && b.failure.Some? && b.failure.value.path == ExecutionAttempt(b.id) && b.failure.value.record.FailureRecord?
    && var r := b.failure.value.record;
    && artifacts == [Artifact(ExecutionAttempt(b.id), r)]
    && r.attempt == b.id && r.key == b.key && r.logical == b.logical && r.parent == b.parent && r.request == b.request
    && r.preflight == b.preflight && r.transitions == b.transitions && r.classification == classification
  }

  ghost predicate FailureLeft(s: State, next: State, artifacts: seq<Artifact>, n: nat, k: nat, classification: Classification,
                              boundary: Option<string>) {
    && n < |s.attempts| == |next.attempts|
    && var a, b := s.attempts[n], next.attempts[n];
    && OnlyThese(s, next, n, k, b.Last()) && RestKept(s, next) && next.executions == s.executions
    && Advanced(a, b, b.Last(), if boundary.Some? then boundary.value else "ADAPTER_FAILURE_RETURNED")
    && FailedAs(s, next, n, classification, boundary) && FailureTold(b, classification, artifacts)
    && b.executionPath == a.executionPath
  }

  /** A failure is published exactly for a running attempt and a failing classification. */
  lemma {:induction false} FailurePublishes(s: State, n: nat, k: nat, classification: Classification, boundary: Option<string>)
    requires Lineage(s) && n < |s.attempts| && IntentAt(s, k, s.attempts[n].key)
    ensures var e := Effects(s, Fail(s.attempts[n].id, classification, boundary));
      && (e.Publish? <==> s.attempts[n].Last().Running? && !classification.ParameterFailure? && !classification.AcceptedConfiguration?)
      && (!e.Publish? ==> e == Refuse)
      && (e.Publish? ==> FailureLeft(s, e.next, e.artifacts, n, k, classification, boundary))
  {
    hide AttemptsOk, Superseded, Parented, StatusesFit, ExecutionsFit, SuccessesFit, IntentOf, AttemptOf;
    AttemptFound(s, n);
    IntentFound(s, k);
    assert Intended(s.intents, s.attempts[n]);
  }

  lemma {:induction false} UnknownFailureRefused(s: State, id: AttemptId, classification: Classification, boundary: Option<string>)
    requires forall n :: 0 <= n < |s.attempts| ==> s.attempts[n].id != id
    ensures Effects(s, Fail(id, classification, boundary)) == Refuse
  {
  }

  // ---------------------------------------------------------------- beginning an attempt

  /** The key's intent is recorded with this id and request, and the key is not completed. */
  ghost predicate Startable(s: State, k: nat, logical: LogicalId, request: string) {
    && k < |s.intents| && s.intents[k].logical == logical && s.intents[k].request == request
    && s.intents[k].key !in s.completed
  }

  /** Every attempt of the key so far may be followed by another one. */
  ghost predicate MayFollow(s: State, key: Key) {
    forall n :: 0 <= n < |s.attempts| && s.attempts[n].key == key ==> Retryable(s.attempts[n].Last())
  }

  ghost predicate RunsNow(s: State, key: Key) {
    exists n :: 0 <= n < |s.attempts| && s.attempts[n].key == key && s.attempts[n].Last().Running?
  }

  /** The states of a new attempt: straight to running after a reconciliation, through dispatch otherwise. */
  ghost predicate Started(a: Attempt, recovering: bool) {
    var ts := a.transitions;
    && (forall t :: 0 <= t < |ts| ==> ts[t].sequence == t)
    && (recovering ==> |ts| == 2 && ts[0].state.Recovering? && ts[0].boundary == "AUTHORITY_RECONCILIATION_REQUESTED")
    && (!recovering ==> |ts| == 3 && ts[0].state.Pending? && ts[0].boundary == "EXECUTION_ATTEMPT_CREATED"
                        && ts[1].state.Dispatching? && ts[1].boundary == "ADAPTER_DISPATCH_STARTED")
    && ts[|ts| - 1].state.Running? && ts[|ts| - 1].boundary == "ADAPTER_INVOCATION_ACTIVE"
  }

  /** The key's last attempt and the new one point at each other; every other attempt is as it was. */
  ghost predicate Chained(s: State, next: State, key: Key) {
    && |next.attempts| == |s.attempts| + 1
    && var a := next.attempts[|s.attempts|];
    && (forall n :: 0 <= n < |s.attempts| && Last(s, key, n) ==>
          a.parent == Some(s.attempts[n].id) && next.attempts[n] == s.attempts[n].(next := Some(a.id)))
    && (forall n :: 0 <= n < |s.attempts| && !Last(s, key, n) ==> next.attempts[n] == s.attempts[n])
    && ((forall n :: 0 <= n < |s.attempts| ==> s.attempts[n].key != key) ==> a.parent.None?)
  }

  ghost predicate Last(s: State, key: Key, n: nat)
    requires n < |s.attempts|
  {
    s.attempts[n].key == key && forall m :: n < m < |s.attempts| ==> s.attempts[m].key != key
  }

  ghost predicate Opened(s: State, next: State, k: nat, recovering: bool, preflight: string)
    requires k < |s.intents|
  {
    var key, t := s.intents[k].key, s.intents[k];
    && Chained(s, next, key)
    && var a := next.attempts[|s.attempts|];
    && a.id.run == s.run && a.id.key == key && (forall n :: 0 <= n < |s.attempts| ==> s.attempts[n].id != a.id)
    && a.key == key && a.logical == t.logical && a.request == t.request && a.preflight == preflight
    && a.failure.None? && a.executionPath.None? && a.next.None?
    && var again := recovering || exists n :: 0 <= n < |s.attempts| && s.attempts[n].key == key;
    && Started(a, again)
    && |next.intents| == |s.intents| && next.intents[k] == t.(status := if again then Recovering else Running)
    && (forall i :: 0 <= i < |s.intents| && i != k ==> next.intents[i] == s.intents[i])
    && next.executions == s.executions && next.status == s.status && RestKept(s, next)
  }

  /** An attempt begins exactly when its intent is recorded as asked and every earlier attempt of the key may be retried;
      a running attempt is handed out again. */
  lemma {:induction false} BeginOpens(s: State, k: nat, logical: LogicalId, request: string, recovering: bool, preflight: string)
    requires Lineage(s) && k < |s.intents|
    ensures var e := Effects(s, Begin(s.intents[k].key, logical, request, recovering, preflight));
      && (e.Publish? <==> Startable(s, k, logical, request) && MayFollow(s, s.intents[k].key))
      && (e.Kept? <==> Startable(s, k, logical, request) && RunsNow(s, s.intents[k].key))
      && (e.Publish? ==> e.artifacts == [] && Opened(s, e.next, k, recovering, preflight))
  {
    hide Effects, Lineage, MayFollow, RunsNow, Startable, Chained, Started, RestKept, CountOf;
    BeginDecides(s, k, logical, request, recovering, preflight);
    if Effects(s, Begin(s.intents[k].key, logical, request, recovering, preflight)).Publish? {
      assert AttemptsOk(s.run, s.attempts) && Numbered(s.attempts) && DistinctIntents(s.intents) by { LineageParts(s); }
      FreshNumber(s, s.intents[k].key);
      IntentFound(s, k);
      BeginStarts(s, k, logical, request, recovering, preflight);
      BeginNames(s, k, logical, request, recovering, preflight);
      BeginChains(s, s.intents[k].key, logical, request, recovering, preflight);
    }
  }

  lemma {:induction false} LineageParts(s: State)
    requires Lineage(s)
    ensures AttemptsOk(s.run, s.attempts) && Numbered(s.attempts) && DistinctIntents(s.intents)
  {
  }

  lemma {:induction false} BeginDecides(s: State, k: nat, logical: LogicalId, request: string, recovering: bool, preflight: string)
    requires Lineage(s) && k < |s.intents|
    ensures var e := Effects(s, Begin(s.intents[k].key, logical, request, recovering, preflight));
      && (e.Publish? <==> Startable(s, k, logical, request) && MayFollow(s, s.intents[k].key))
      && (e.Kept? <==> Startable(s, k, logical, request) && RunsNow(s, s.intents[k].key))
  {
    hide Numbered, Parented, AllIntended, StatusesFit, ExecutionsFit, SuccessesFit, IntentOf;
    IntentFound(s, k);
    var key := s.intents[k].key;
    var prior := LatestOf(s.attempts, key);
    if prior.Some? { assert AttemptOk(s.run, s.attempts[prior.value]); }
    forall n | 0 <= n < |s.attempts| && s.attempts[n].key == key && prior != Some(n)
      ensures Retryable(s.attempts[n].Last())
    {
      assert n < prior.value;
    }
  }

  lemma {:induction false} BeginChains(s: State, key: Key, logical: LogicalId, request: string, recovering: bool, preflight: string)
    requires Effects(s, Begin(key, logical, request, recovering, preflight)).Publish?
    ensures Chained(s, Effects(s, Begin(key, logical, request, recovering, preflight)).next, key)
  {
    hide CountOf, IntentOf, Opening;
  }

  /** Who the new attempt is, and what else changes with it. */
  lemma {:induction false} BeginNames(s: State, k: nat, logical: LogicalId, request: string, recovering: bool, preflight: string)
    requires k < |s.intents| && IntentOf(s.intents, s.intents[k].key) == k
    requires Effects(s, Begin(s.intents[k].key, logical, request, recovering, preflight)).Publish?
    ensures var e, key, t := Effects(s, Begin(s.intents[k].key, logical, request, recovering, preflight)), s.intents[k].key, s.intents[k];
      && e.artifacts == [] && |e.next.attempts| == |s.attempts| + 1
      && var a := e.next.attempts[|s.attempts|];
      && a.id == AttemptId(s.run, key, CountOf(s.attempts, key))
      && a.key == key && a.logical == t.logical && a.request == t.request && a.preflight == preflight
      && a.failure.None? && a.executionPath.None? && a.next.None?
      && var again := recovering || exists n :: 0 <= n < |s.attempts| && s.attempts[n].key == key;
      && |e.next.intents| == |s.intents| && e.next.intents[k] == t.(status := if again then Recovering else Running)
      && (forall i :: 0 <= i < |s.intents| && i != k ==> e.next.intents[i] == s.intents[i])
      && e.next.executions == s.executions && e.next.status == s.status
  {
    hide CountOf, IntentOf, Opening;
  }

  lemma {:induction false} FreshNumber(s: State, key: Key)
    requires Numbered(s.attempts) && AttemptsOk(s.run, s.attempts)
    ensures forall n :: 0 <= n < |s.attempts| ==> s.attempts[n].id != AttemptId(s.run, key, CountOf(s.attempts, key))
  {
    forall n | 0 <= n < |s.attempts|
      ensures s.attempts[n].id != AttemptId(s.run, key, CountOf(s.attempts, key))
    {
      assert AttemptOk(s.run, s.attempts[n]);
    }
  }

  lemma {:induction false} BeginStarts(s: State, k: nat, logical: LogicalId, request: string, recovering: bool, preflight: string)
    requires k < |s.intents| && Effects(s, Begin(s.intents[k].key, logical, request, recovering, preflight)).Publish?
    ensures var next, key := Effects(s, Begin(s.intents[k].key, logical, request, recovering, preflight)).next, s.intents[k].key;
      && next.attempts != []
      && Started(next.attempts[|next.attempts| - 1], recovering || exists n :: 0 <= n < |s.attempts| && s.attempts[n].key == key)
      && RestKept(s, next)
  {
    hide IntentOf;
  }

  /** Whatever the state, a key whose last attempt has begun and not ended gets that attempt again. */
  lemma {:induction false} ActiveKept(s: State, n: nat, logical: LogicalId, request: string, recovering: bool, preflight: string)
    requires n < |s.attempts| && Last(s, s.attempts[n].key, n) && s.attempts[n].Last() in {Pending, Dispatching, Running, Recovering}
    requires s.attempts[n].key !in s.completed
    requires var k := IntentOf(s.intents, s.attempts[n].key);
      k < |s.intents| && s.intents[k].logical == logical && s.intents[k].request == request
    ensures Effects(s, Begin(s.attempts[n].key, logical, request, recovering, preflight)) == Kept
  {
    hide IntentOf;
  }

  /** A begin for a key without an intent is refused. */
  lemma {:induction false} UnrecordedBeginRefused(s: State, key: Key, logical: LogicalId, request: string, recovering: bool, preflight: string)
    requires forall k :: 0 <= k < |s.intents| ==> s.intents[k].key != key
    ensures Effects(s, Begin(key, logical, request, recovering, preflight)) == Refuse
  {
  }

  // ---------------------------------------------------------------- recording intents and evidence

  /** An intent is recorded once per key while the search is open; the same one again changes nothing, another is refused. */
  lemma {:induction false} IntentRecorded(s: State, key: Key, logical: LogicalId, request: string)
    requires DistinctIntents(s.intents)
    ensures var e := Effects(s, Record(key, logical, request));
      var open := !s.status.Complete? && !s.status.FailedSearch?;
      && (e.Publish? <==> open && forall k :: 0 <= k < |s.intents| ==> s.intents[k].key != key)
      && (e.Kept? <==> open && exists k: nat :: IntentAt(s, k, key) && s.intents[k].logical == logical && s.intents[k].request == request)
      && (e.Publish? ==>
            && e.artifacts == [] && |e.next.intents| == |s.intents| + 1 && e.next.intents[..|s.intents|] == s.intents
            && e.next.attempts == s.attempts && e.next.executions == s.executions && e.next.status == s.status && RestKept(s, e.next)
            && var t := e.next.intents[|s.intents|];
               t.key == key && t.logical == logical && t.request == request && t.status.Pending?)
  {
    hide IntentOf;
    var k := IntentOf(s.intents, key);
    if k < |s.intents| { assert IntentAt(s, k, key); }
    forall j: nat | IntentAt(s, j, key)
      ensures j == k
    {
      IntentFound(s, j);
    }
  }

  /** Evidence of a key is recorded once, for its running attempt under its recorded id; asked again, nothing changes. */
  lemma {:induction false} EvidenceRecorded(s: State, k: nat, n: nat, logical: LogicalId, record: Value, valid: bool)
    requires Lineage(s) && n < |s.attempts| && k < |s.intents|
    ensures var key := s.intents[k].key;
      var e := Effects(s, Succeed(key, logical, s.attempts[n].id, record, valid));
      var unexecuted := forall j :: 0 <= j < |s.executions| ==> s.executions[j].key != key;
      && (e.Publish? <==> !s.status.Complete? && unexecuted && valid && s.intents[k].logical == logical
                          && s.attempts[n].key == key && s.attempts[n].Last().Running?)
      && (e.Kept? <==> !s.status.Complete? && !unexecuted)
      && (e.Publish? ==>
            && OnlyThese(s, e.next, n, k, Succeeded) && RestKept(s, e.next) && e.next.status == s.status
            && Advanced(s.attempts[n], e.next.attempts[n], Succeeded, "CANONICAL_EVIDENCE_ARCHIVED")
            && e.next.attempts[n].executionPath == Some(Evidence(logical)) && e.next.attempts[n].failure == s.attempts[n].failure
            && e.artifacts == [Artifact(Evidence(logical), record)]
            && |e.next.executions| == |s.executions| + 1 && e.next.executions[..|s.executions|] == s.executions
            && var x := e.next.executions[|s.executions|];
               x.key == key && x.logical == logical && x.attempt == s.attempts[n].id && x.path == Evidence(logical) && x.record == record)
  {
    hide AttemptsOk, Superseded, Parented, AllIntended, StatusesFit, ExecutionsFit, SuccessesFit, IntentOf, AttemptOf, ExecutionOf;
    AttemptFound(s, n);
    IntentFound(s, k);
  }

  // ---------------------------------------------------------------- after a failure

  /** After a terminal failure no attempt of the key ever begins again, whatever operations follow. */
  ghost predicate Terminal(s: State, key: Key) {
    exists n :: 0 <= n < |s.attempts| && Last(s, key, n) && s.attempts[n].Last().FailedTerminal?
  }

  lemma {:induction false} TerminalRefuses(s: State, key: Key, logical: LogicalId, request: string, recovering: bool, preflight: string)
    requires Terminal(s, key)
    ensures Effects(s, Begin(key, logical, request, recovering, preflight)) == Refuse
  {
    hide IntentOf;
  }

  lemma {:induction false} TerminalStays(s: State, key: Key, op: Operation)
    requires Terminal(s, key) && Effects(s, op).Publish?
    ensures Terminal(Effects(s, op).next, key)
  {
    hide IntentOf, AttemptOf, ExecutionOf, CountOf;
    var n :| 0 <= n < |s.attempts| && Last(s, key, n) && s.attempts[n].Last().FailedTerminal?;
    var next := Effects(s, op).next;
    if op.Begin? && op.key == key { TerminalRefuses(s, key, op.logical, op.request, op.recovering, op.preflight); }
    assert Last(next, key, n);
    if op.Begin? { LinkKeepsLast(s, op, n); }
  }

  lemma {:induction false} LinkKeepsLast(s: State, op: Operation, n: nat)
    requires op.Begin? && Effects(s, op).Publish? && n < |s.attempts|
    ensures Effects(s, op).next.attempts[n].Last() == s.attempts[n].Last()
  {
    hide IntentOf;
  }

  lemma {:induction false} TerminalForever(s: State, key: Key, ops: seq<Operation>, logical: LogicalId, request: string, recovering: bool, preflight: string)
    requires Terminal(s, key)
    ensures var g := Generations(s, ops);
      Effects(g[|g| - 1], Begin(key, logical, request, recovering, preflight)) == Refuse
    decreases |ops|
  {
    hide Effects, Terminal;
    if ops == [] {
      TerminalRefuses(s, key, logical, request, recovering, preflight);
    } else if Effects(s, ops[0]).Publish? {
      TerminalStays(s, key, ops[0]);
      TerminalForever(Effects(s, ops[0]).next, key, ops[1..], logical, request, recovering, preflight);
    } else {
      TerminalForever(s, key, ops[1..], logical, request, recovering, preflight);
    }
  }

  /** What may follow a recorded failure: nothing, ever, after one that was not the infrastructure's; a successor that
      points back at it, under the recorded intent, after one that was. */
  lemma {:induction false} AfterFailure(s: State, n: nat, k: nat, classification: Classification, boundary: Option<string>,
                                        ops: seq<Operation>, recovering: bool, preflight: string)
    requires Lineage(s) && n < |s.attempts| && s.attempts[n].Last().Running? && IntentAt(s, k, s.attempts[n].key)
    requires !classification.ParameterFailure? && !classification.AcceptedConfiguration? && s.intents[k].key !in s.completed
    ensures Effects(s, Fail(s.attempts[n].id, classification, boundary)).Publish?
    ensures var next := Effects(s, Fail(s.attempts[n].id, classification, boundary)).next;
      var t, g := s.intents[k], Generations(next, ops);
      var later := Effects(g[|g| - 1], Begin(t.key, t.logical, t.request, recovering, preflight));
      var again := Effects(next, Begin(t.key, t.logical, t.request, recovering, preflight));
      && (!classification.InfrastructureFailure? ==> later == Refuse)
      && (classification.InfrastructureFailure? ==>
            again.Publish? && |again.next.attempts| == |s.attempts| + 1
            && again.next.attempts[|s.attempts|].parent == Some(s.attempts[n].id) && again.next.attempts[|s.attempts|].Last().Running?)
  {
    hide Effects, Lineage, IntentOf, AttemptOf;
    FailurePublishes(s, n, k, classification, boundary);
    var next := Effects(s, Fail(s.attempts[n].id, classification, boundary)).next;
    var t := s.intents[k];
    OperationKeepsLineage(s, Fail(s.attempts[n].id, classification, boundary));
    LatestRuns(s, n);
    StillLast(s, next, n);
    if classification.InfrastructureFailure? {
      assert Startable(next, k, t.logical, t.request);
      LastDecides(next, n);
      BeginOpens(next, k, t.logical, t.request, recovering, preflight);
    } else {
      assert Terminal(next, t.key);
      TerminalForever(next, t.key, ops, t.logical, t.request, recovering, preflight);
    }
  }

  lemma {:induction false} LatestRuns(s: State, n: nat)
    requires Lineage(s) && n < |s.attempts| && s.attempts[n].Last().Running?
    ensures Last(s, s.attempts[n].key, n)
  {
    hide AttemptsOk, Numbered, Parented, AllIntended, StatusesFit, ExecutionsFit, SuccessesFit, DistinctIntents;
  }

  lemma {:induction false} StillLast(s: State, next: State, n: nat)
    requires n < |s.attempts| == |next.attempts| && Last(s, s.attempts[n].key, n)
    requires (forall i :: 0 <= i < |s.attempts| && i != n ==> next.attempts[i] == s.attempts[i]) && SameAttempt(s.attempts[n], next.attempts[n])
    ensures Last(next, s.attempts[n].key, n)
  {
  }

  lemma {:induction false} LastDecides(s: State, n: nat)
    requires Lineage(s) && n < |s.attempts| && Last(s, s.attempts[n].key, n) && Retryable(s.attempts[n].Last())
    ensures MayFollow(s, s.attempts[n].key)
  {
    hide AttemptsOk, Numbered, Parented, AllIntended, StatusesFit, ExecutionsFit, SuccessesFit, DistinctIntents;
  }
}
