/** The lineage invariants of execution intents, attempts and executions, kept by every operation. */
module CalibrationLineage {
  import opened Options
  import opened CalibrationState

  // ---------------------------------------------------------------- the invariant

  predicate Retryable(s: ExecState) { s.FailedRetryable? || s.Quarantined? }

  /** An attempt on its own: numbered transitions, and its artifact exactly when it is disposed of. */
  ghost predicate AttemptOk(run: string, a: Attempt) {
    && a.id.run == run && a.id.key == a.key
    && a.transitions != [] && (forall t :: 0 <= t < |a.transitions| ==> a.transitions[t].sequence == t)
    && (a.Last().Running? || Failed(a.Last()) || a.Last().Succeeded?)
    && (a.failure.Some? <==> Failed(a.Last())) && (a.executionPath.Some? <==> a.Last().Succeeded?)
    && (a.failure.Some? ==> RecordFits(a))
  }

  predicate RecordFits(a: Attempt)
    requires a.failure.Some?
  {
    var f := a.failure.value;
    && f.path == ExecutionAttempt(a.id) && f.record.FailureRecord?
    && f.record == FailureRecord(a.id, a.key, a.logical, a.parent, a.request, a.preflight, a.transitions, f.record.classification)
  }

  ghost predicate AttemptsOk(run: string, attempts: seq<Attempt>) {
    forall i :: 0 <= i < |attempts| ==> AttemptOk(run, attempts[i])
  }

  ghost predicate Numbered(attempts: seq<Attempt>) {
    && (forall i :: 0 <= i < |attempts| ==> attempts[i].id.ordinal < CountOf(attempts, attempts[i].key))
    && (forall i, j :: 0 <= i < j < |attempts| ==> attempts[i].id != attempts[j].id)
  }

  /** Only the latest attempt of a key may be anything but retryable. */
  ghost predicate Superseded(attempts: seq<Attempt>) {
    forall i, j :: 0 <= i < j < |attempts| && attempts[i].key == attempts[j].key ==> Retryable(attempts[i].Last())
  }

  ghost predicate Parented(attempts: seq<Attempt>) {
    forall i :: 0 <= i < |attempts| && attempts[i].parent.Some? ==> AttemptOf(attempts, attempts[i].parent.value) < |attempts|
  }

  ghost predicate Intended(intents: seq<Intent>, a: Attempt) {
    var k := IntentOf(intents, a.key);
    k < |intents| && intents[k].logical == a.logical && intents[k].request == a.request
  }

  ghost predicate AllIntended(intents: seq<Intent>, attempts: seq<Attempt>) {
    forall i :: 0 <= i < |attempts| ==> Intended(intents, attempts[i])
  }

  predicate DistinctIntents(intents: seq<Intent>) {
    forall i, j :: 0 <= i < j < |intents| ==> intents[i].key != intents[j].key
  }

  /** The intent's status is that of its latest attempt. */
  ghost predicate StatusFits(attempts: seq<Attempt>, t: Intent) {
    match LatestOf(attempts, t.key)
    case None => t.status.Pending?
    case Some(n) =>
      if attempts[n].Last().Running? then t.status.Running? || t.status.Recovering? else t.status == attempts[n].Last()
  }

  ghost predicate StatusesFit(attempts: seq<Attempt>, intents: seq<Intent>) {
    forall k :: 0 <= k < |intents| ==> StatusFits(attempts, intents[k])
  }

  ghost predicate ExecutionFits(attempts: seq<Attempt>, e: Execution) {
    var n := AttemptOf(attempts, e.attempt);
    && n < |attempts| && attempts[n].key == e.key && attempts[n].logical == e.logical
    && attempts[n].Last().Succeeded? && e.path == Evidence(e.logical)
  }

  ghost predicate ExecutionsFit(attempts: seq<Attempt>, executions: seq<Execution>) {
    && (forall k :: 0 <= k < |executions| ==> ExecutionFits(attempts, executions[k]))
    && (forall j, k :: 0 <= j < k < |executions| ==> executions[j].key != executions[k].key)
  }

  ghost predicate SuccessFits(executions: seq<Execution>, a: Attempt) {
    a.Last().Succeeded? ==>
      var k := ExecutionOf(executions, a.key);
      k < |executions| && executions[k].attempt == a.id
  }

  ghost predicate SuccessesFit(executions: seq<Execution>, attempts: seq<Attempt>) {
    forall i :: 0 <= i < |attempts| ==> SuccessFits(executions, attempts[i])
  }

  ghost predicate Lineage(s: State) {
    && AttemptsOk(s.run, s.attempts) && Numbered(s.attempts) && Superseded(s.attempts) && Parented(s.attempts)
    && DistinctIntents(s.intents) && AllIntended(s.intents, s.attempts) && StatusesFit(s.attempts, s.intents)
    && ExecutionsFit(s.attempts, s.executions) && SuccessesFit(s.executions, s.attempts)
  }

  // ---------------------------------------------------------------- lookups under updates

  lemma {:induction false} AttemptOfSame(a: seq<Attempt>, b: seq<Attempt>, id: AttemptId)
    requires |a| <= |b| && forall i :: 0 <= i < |a| ==> a[i].id == b[i].id
    ensures AttemptOf(a, id) < |a| ==> AttemptOf(b, id) == AttemptOf(a, id)
  {
    if a != [] && a[0].id != id { AttemptOfSame(a[1..], b[1..], id); }
  }

  lemma {:induction false} AttemptOfAt(a: seq<Attempt>, n: nat)
    requires n < |a| && forall i, j :: 0 <= i < j < |a| ==> a[i].id != a[j].id
    ensures AttemptOf(a, a[n].id) == n
  {
  }

  lemma {:induction false} LatestSame(a: seq<Attempt>, b: seq<Attempt>, key: Key)
    requires |a| == |b| && forall i :: 0 <= i < |a| ==> a[i].key == b[i].key
    ensures LatestOf(a, key) == LatestOf(b, key) && CountOf(a, key) == CountOf(b, key)
    decreases |a|
  {
    if a != [] { LatestSame(a[..|a| - 1], b[..|b| - 1], key); }
  }

  lemma {:induction false} IntentOfSame(a: seq<Intent>, b: seq<Intent>, key: Key)
    requires |a| <= |b| && forall i :: 0 <= i < |a| ==> a[i].key == b[i].key
    ensures IntentOf(a, key) < |a| ==> IntentOf(b, key) == IntentOf(a, key)
  {
    if a != [] && a[0].key != key { IntentOfSame(a[1..], b[1..], key); }
  }

  lemma {:induction false} ExecutionOfAppended(a: seq<Execution>, e: Execution, key: Key)
    ensures ExecutionOf(a, key) < |a| ==> ExecutionOf(a + [e], key) == ExecutionOf(a, key)
    ensures ExecutionOf(a, key) == |a| ==> ExecutionOf(a + [e], key) == (if e.key == key then |a| else |a| + 1)
  {
    if a != [] && a[0].key != key {
      assert (a + [e])[1..] == a[1..] + [e];
      ExecutionOfAppended(a[1..], e, key);
    } else if a == [] {
      assert (a + [e])[1..] == [];
    }
  }

  // ---------------------------------------------------------------- in-place progress of one attempt

  /** What never changes about an attempt. */
  predicate SameAttempt(a: Attempt, b: Attempt) {
    a.id == b.id && a.key == b.key && a.logical == b.logical && a.parent == b.parent && a.request == b.request
    && a.preflight == b.preflight
  }

  lemma {:induction false} ProgressKeepsLookups(a: seq<Attempt>, n: nat, b: Attempt)
    requires n < |a| && SameAttempt(a[n], b)
    ensures forall key :: LatestOf(a[n := b], key) == LatestOf(a, key) && CountOf(a[n := b], key) == CountOf(a, key)
    ensures forall id :: AttemptOf(a, id) < |a| ==> AttemptOf(a[n := b], id) == AttemptOf(a, id)
  {
    forall key
      ensures LatestOf(a[n := b], key) == LatestOf(a, key) && CountOf(a[n := b], key) == CountOf(a, key)
    {
      LatestSame(a, a[n := b], key);
    }
    forall id | AttemptOf(a, id) < |a|
      ensures AttemptOf(a[n := b], id) == AttemptOf(a, id)
    {
      AttemptOfSame(a, a[n := b], id);
    }
  }

  lemma {:induction false} ProgressKeepsNumbers(a: seq<Attempt>, n: nat, b: Attempt)
    requires Numbered(a) && n < |a| && SameAttempt(a[n], b)
    ensures Numbered(a[n := b])
  {
    ProgressKeepsLookups(a, n, b);
    var a' := a[n := b];
    assert forall i :: 0 <= i < |a| ==> a'[i].id == a[i].id && a'[i].key == a[i].key;
  }

  /** Replacing attempt n by a later version of itself. */
  lemma {:induction false} ProgressKeepsShape(run: string, intents: seq<Intent>, a: seq<Attempt>, n: nat, b: Attempt)
    requires AttemptsOk(run, a) && Numbered(a) && Superseded(a) && Parented(a) && AllIntended(intents, a)
    requires n < |a| && SameAttempt(a[n], b) && AttemptOk(run, b) && (Retryable(a[n].Last()) ==> Retryable(b.Last()))
    ensures var a' := a[n := b];
      AttemptsOk(run, a') && Numbered(a') && Superseded(a') && Parented(a') && AllIntended(intents, a')
  {
    hide AttemptOk, Retryable, Numbered;
    var a' := a[n := b];
    ProgressKeepsNumbers(a, n, b);
    ProgressKeepsLookups(a, n, b);
    assert forall i :: 0 <= i < |a| ==> SameAttempt(a[i], a'[i]);
    forall i | 0 <= i < |a'|
      ensures Intended(intents, a'[i])
    {
      assert Intended(intents, a[i]);
    }
  }

  /** The latest attempt of a key is the only one that can be running. */
  lemma {:induction false} RunningIsLatest(s: State, n: nat)
    requires Superseded(s.attempts) && n < |s.attempts| && s.attempts[n].Last().Running?
    ensures LatestOf(s.attempts, s.attempts[n].key) == Some(n)
  {
  }

  // ---------------------------------------------------------------- settling the running attempt

  lemma {:induction false} IntentProgress(intents: seq<Intent>, k: nat, status: ExecState, attempts: seq<Attempt>)
    requires k < |intents| && DistinctIntents(intents) && AllIntended(intents, attempts)
    ensures var intents' := intents[k := intents[k].(status := status)];
      DistinctIntents(intents') && AllIntended(intents', attempts)
  {
    var intents' := intents[k := intents[k].(status := status)];
    forall i | 0 <= i < |attempts|
      ensures Intended(intents', attempts[i])
    {
      assert Intended(intents, attempts[i]);
      IntentOfSame(intents, intents', attempts[i].key);
    }
  }

  /** Moving the running attempt of a key to a settled state, and its intent with it. */
  lemma {:induction false} SettleKeepsStatuses(a: seq<Attempt>, intents: seq<Intent>, n: nat, b: Attempt, k: nat)
    requires n < |a| && a[n].Last().Running? && SameAttempt(a[n], b) && !b.Last().Running?
    requires Superseded(a) && DistinctIntents(intents) && StatusesFit(a, intents)
    requires k < |intents| && intents[k].key == a[n].key
    ensures StatusesFit(a[n := b], intents[k := intents[k].(status := b.Last())])
  {
    var a', intents' := a[n := b], intents[k := intents[k].(status := b.Last())];
    assert LatestOf(a, a[n].key) == Some(n) by {
      var m := LatestOf(a, a[n].key);
      assert m.value > n ==> Retryable(a[n].Last());
    }
    ProgressKeepsLookups(a, n, b);
    forall j | 0 <= j < |intents'|
      ensures StatusFits(a', intents'[j])
    {
      assert StatusFits(a, intents[j]);
    }
  }

  lemma {:induction false} FailKeepsExecutions(a: seq<Attempt>, executions: seq<Execution>, n: nat, b: Attempt)
    requires n < |a| && a[n].Last().Running? && SameAttempt(a[n], b) && !b.Last().Succeeded?
    requires ExecutionsFit(a, executions) && SuccessesFit(executions, a)
    ensures ExecutionsFit(a[n := b], executions) && SuccessesFit(executions, a[n := b])
  {
    ProgressKeepsLookups(a, n, b);
    forall k | 0 <= k < |executions|
      ensures ExecutionFits(a[n := b], executions[k])
    {
      assert ExecutionFits(a, executions[k]);
    }
    var a' := a[n := b];
    forall i | 0 <= i < |a'|
      ensures SuccessFits(executions, a'[i])
    {
      assert SuccessFits(executions, a[i]);
    }
  }

  lemma {:induction false} FailKeepsLineage(s: State, id: AttemptId, classification: Classification, boundary: Option<string>)
    requires Lineage(s) && RecordFailure(s, id, classification, boundary).Publish?
    ensures Lineage(RecordFailure(s, id, classification, boundary).next)
  {
    hide Numbered, Superseded, Parented, DistinctIntents, StatusesFit, ExecutionsFit, SuccessesFit, AttemptsOk, AllIntended;
    var next := RecordFailure(s, id, classification, boundary).next;
    var n := AttemptOf(s.attempts, id);
    var a, b := s.attempts[n], next.attempts[n];
    var k := IntentOf(s.intents, a.key);
    var state := FailureState(classification, boundary);
    FailedAttemptOk(s, id, classification, boundary);
    ProgressKeepsShape(s.run, s.intents, s.attempts, n, b);
    IntentProgress(s.intents, k, state, next.attempts);
    SettleKeepsStatuses(s.attempts, s.intents, n, b, k);
    FailKeepsExecutions(s.attempts, s.executions, n, b);
  }

  lemma {:induction false} FailedAttemptOk(s: State, id: AttemptId, classification: Classification, boundary: Option<string>)
    requires AttemptsOk(s.run, s.attempts) && AllIntended(s.intents, s.attempts)
    requires RecordFailure(s, id, classification, boundary).Publish?
    ensures var n := AttemptOf(s.attempts, id);
      var b := RecordFailure(s, id, classification, boundary).next.attempts[n];
      && SameAttempt(s.attempts[n], b) && AttemptOk(s.run, b)
      && b.Last() == FailureState(classification, boundary) && !Retryable(s.attempts[n].Last())
      && b.failure.Some? && RecordFailure(s, id, classification, boundary).artifacts == [Artifact(b.failure.value.path, b.failure.value.record)]
  {
    hide AttemptOf, IntentOf;
    var n := AttemptOf(s.attempts, id);
    assert AttemptOk(s.run, s.attempts[n]) && Intended(s.intents, s.attempts[n]);
  }

  lemma {:induction false} SucceedKeepsExecutions(a: seq<Attempt>, executions: seq<Execution>, n: nat, b: Attempt, e: Execution)
    requires n < |a| && a[n].Last().Running? && SameAttempt(a[n], b) && b.Last().Succeeded? && Superseded(a)
    requires ExecutionsFit(a, executions) && SuccessesFit(executions, a)
    requires ExecutionOf(executions, e.key) == |executions| && AttemptOf(a, e.attempt) == n
    requires e.key == b.key && e.logical == b.logical && e.path == Evidence(e.logical)
    ensures ExecutionsFit(a[n := b], executions + [e]) && SuccessesFit(executions + [e], a[n := b])
  {
    hide LatestOf, AttemptOf, ExecutionOf, CountOf;
    ProgressKeepsLookups(a, n, b);
    var a', executions' := a[n := b], executions + [e];
    forall k | 0 <= k < |executions'|
      ensures ExecutionFits(a', executions'[k])
    {
      assert k < |executions| ==> ExecutionFits(a, executions[k]);
    }
    forall i | 0 <= i < |a'|
      ensures SuccessFits(executions', a'[i])
    {
      assert SuccessFits(executions, a[i]);
      ExecutionOfAppended(executions, e, a'[i].key);
    }
  }

  lemma {:induction false} SucceedKeepsLineage(s: State, key: Key, logical: LogicalId, id: AttemptId, record: Value, valid: bool)
    requires Lineage(s) && RecordEvidence(s, key, logical, id, record, valid).Publish?
    ensures Lineage(RecordEvidence(s, key, logical, id, record, valid).next)
  {
    hide Numbered, Superseded, Parented, DistinctIntents, StatusesFit, ExecutionsFit, SuccessesFit;
    var next := RecordEvidence(s, key, logical, id, record, valid).next;
    var n, k := AttemptOf(s.attempts, id), IntentOf(s.intents, key);
    var a, b := s.attempts[n], next.attempts[n];
    assert AttemptOk(s.run, a) && Intended(s.intents, a);
    ProgressKeepsShape(s.run, s.intents, s.attempts, n, b);
    IntentProgress(s.intents, k, Succeeded, next.attempts);
    SettleKeepsStatuses(s.attempts, s.intents, n, b, k);
    SucceedKeepsExecutions(s.attempts, s.executions, n, b, Execution(key, logical, id, Evidence(logical), record));
  }

  // ---------------------------------------------------------------- opening intents and attempts

  lemma {:induction false} UnintendedUnattempted(intents: seq<Intent>, attempts: seq<Attempt>, key: Key)
    requires AllIntended(intents, attempts) && IntentOf(intents, key) == |intents|
    ensures LatestOf(attempts, key) == None
  {
    forall i | 0 <= i < |attempts|
      ensures attempts[i].key != key
    {
      assert Intended(intents, attempts[i]);
    }
  }

  lemma {:induction false} RecordKeepsLineage(s: State, key: Key, logical: LogicalId, request: string)
    requires Lineage(s) && RecordIntent(s, key, logical, request).Publish?
    ensures Lineage(RecordIntent(s, key, logical, request).next)
  {
    hide Numbered, Superseded, Parented, ExecutionsFit, SuccessesFit, AttemptsOk, LatestOf, IntentOf;
    var next := RecordIntent(s, key, logical, request).next;
    UnintendedUnattempted(s.intents, s.attempts, key);
    forall i | 0 <= i < |s.attempts|
      ensures Intended(next.intents, s.attempts[i])
    {
      assert Intended(s.intents, s.attempts[i]);
      IntentOfSame(s.intents, next.intents, s.attempts[i].key);
    }
    forall j | 0 <= j < |next.intents|
      ensures StatusFits(s.attempts, next.intents[j])
    {
      assert j < |s.intents| ==> StatusFits(s.attempts, s.intents[j]);
    }
  }

  lemma {:induction false} AppendedLookups(a: seq<Attempt>, x: Attempt)
    ensures forall key :: CountOf(a + [x], key) == CountOf(a, key) + (if x.key == key then 1 else 0)
    ensures forall key :: LatestOf(a + [x], key) == (if x.key == key then Some(|a|) else LatestOf(a, key))
    ensures forall id :: AttemptOf(a, id) < |a| ==> AttemptOf(a + [x], id) == AttemptOf(a, id)
  {
    assert (a + [x])[..|a|] == a;
    forall id | AttemptOf(a, id) < |a|
      ensures AttemptOf(a + [x], id) == AttemptOf(a, id)
    {
      AttemptOfSame(a, a + [x], id);
    }
  }

  /** Appending the next attempt of a key whose attempts so far are all retryable. */
  lemma {:induction false} AppendKeepsShape(run: string, intents: seq<Intent>, a: seq<Attempt>, x: Attempt)
    requires AttemptsOk(run, a) && Numbered(a) && Superseded(a) && Parented(a) && AllIntended(intents, a)
    requires AttemptOk(run, x) && Intended(intents, x) && x.id == AttemptId(run, x.key, CountOf(a, x.key))
    requires x.parent.Some? ==> AttemptOf(a, x.parent.value) < |a|
    requires forall i :: 0 <= i < |a| && a[i].key == x.key ==> Retryable(a[i].Last())
    ensures var a' := a + [x];
      AttemptsOk(run, a') && Numbered(a') && Superseded(a') && Parented(a') && AllIntended(intents, a')
  {
    hide RecordFits, Retryable, Intended;
    AppendedLookups(a, x);
    assert forall i :: 0 <= i < |a| ==> AttemptOk(run, a[i]);
  }

  lemma {:induction false} AppendKeepsStatuses(a: seq<Attempt>, intents: seq<Intent>, x: Attempt, k: nat, status: ExecState)
    requires k < |intents| && intents[k].key == x.key && DistinctIntents(intents) && StatusesFit(a, intents)
    requires x.Last().Running? && (status.Running? || status.Recovering?)
    ensures StatusesFit(a + [x], intents[k := intents[k].(status := status)])
  {
    AppendedLookups(a, x);
    var intents' := intents[k := intents[k].(status := status)];
    forall j | 0 <= j < |intents'|
      ensures StatusFits(a + [x], intents'[j])
    {
      assert StatusFits(a, intents[j]);
    }
  }

  lemma {:induction false} AppendKeepsExecutions(a: seq<Attempt>, executions: seq<Execution>, x: Attempt)
    requires x.Last().Running? && ExecutionsFit(a, executions) && SuccessesFit(executions, a)
    ensures ExecutionsFit(a + [x], executions) && SuccessesFit(executions, a + [x])
  {
    AppendedLookups(a, x);
    forall k | 0 <= k < |executions|
      ensures ExecutionFits(a + [x], executions[k])
    {
      assert ExecutionFits(a, executions[k]);
    }
    forall i | 0 <= i < |a + [x]|
      ensures SuccessFits(executions, (a + [x])[i])
    {
      assert i < |a| ==> SuccessFits(executions, a[i]);
    }
  }

  /** A version of an attempt in the same last state leaves every status, execution and success as they were. */
  lemma {:induction false} SameStateKeepsFits(a: seq<Attempt>, n: nat, b: Attempt, intents: seq<Intent>, executions: seq<Execution>)
    requires n < |a| && SameAttempt(a[n], b) && b.Last() == a[n].Last()
    requires StatusesFit(a, intents) && ExecutionsFit(a, executions) && SuccessesFit(executions, a)
    ensures StatusesFit(a[n := b], intents) && ExecutionsFit(a[n := b], executions) && SuccessesFit(executions, a[n := b])
  {
    var a' := a[n := b];
    ProgressKeepsLookups(a, n, b);
    assert forall i :: 0 <= i < |a| ==> a'[i].Last() == a[i].Last() && SameAttempt(a[i], a'[i]);
    forall k | 0 <= k < |intents|
      ensures StatusFits(a', intents[k])
    {
      assert StatusFits(a, intents[k]);
    }
    forall k | 0 <= k < |executions|
      ensures ExecutionFits(a', executions[k])
    {
      assert ExecutionFits(a, executions[k]);
    }
    forall i | 0 <= i < |a'|
      ensures SuccessFits(executions, a'[i])
    {
      assert SuccessFits(executions, a[i]);
    }
  }

  /** Linking the superseded attempt to its successor changes nothing the lineage speaks of. */
  lemma {:induction false} LinkKeepsLineage(s: State, n: nat, next: AttemptId)
    requires Lineage(s) && n < |s.attempts|
    ensures Lineage(s.(attempts := s.attempts[n := s.attempts[n].(next := Some(next))]))
    ensures CountOf(s.attempts[n := s.attempts[n].(next := Some(next))], s.attempts[n].key) == CountOf(s.attempts, s.attempts[n].key)
  {
    hide Numbered, Superseded, Parented, DistinctIntents, AllIntended, StatusesFit, ExecutionsFit, SuccessesFit;
    var a, b := s.attempts, s.attempts[n].(next := Some(next));
    assert AttemptOk(s.run, a[n]);
    ProgressKeepsShape(s.run, s.intents, a, n, b);
    ProgressKeepsLookups(a, n, b);
    SameStateKeepsFits(a, n, b, s.intents, s.executions);
  }

  /** The state in which a new attempt's predecessor, if any, already names it. */
  function Linked(s: State, key: Key): State {
    var prior := LatestOf(s.attempts, key);
    if prior.None? then s
    else s.(attempts := s.attempts[prior.value := s.attempts[prior.value].(next := Some(AttemptId(s.run, key, CountOf(s.attempts, key))))])
  }

  lemma {:induction false} LinkedReady(s: State, key: Key)
    requires Lineage(s)
    requires var prior := LatestOf(s.attempts, key);
      prior.Some? ==> var last := s.attempts[prior.value].Last();
        !Active(last) && !last.FailedTerminal? && !last.Succeeded?
    ensures var a := Linked(s, key).attempts;
      && Lineage(Linked(s, key)) && CountOf(a, key) == CountOf(s.attempts, key) && |a| == |s.attempts|
      && (forall i :: 0 <= i < |a| && a[i].key == key ==> Retryable(a[i].Last()))
      && (LatestOf(s.attempts, key).Some? ==> AttemptOf(a, s.attempts[LatestOf(s.attempts, key).value].id) < |a|)
  {
    hide Numbered, Parented, DistinctIntents, AllIntended, StatusesFit, ExecutionsFit, SuccessesFit, RecordFits;
    var prior := LatestOf(s.attempts, key);
    if prior.Some? {
      assert AttemptOk(s.run, s.attempts[prior.value]);
      LinkKeepsLineage(s, prior.value, AttemptId(s.run, key, CountOf(s.attempts, key)));
      var a := Linked(s, key).attempts;
      NumberedDistinct(a);
      AttemptOfAt(a, prior.value);
      assert forall i :: 0 <= i < |a| ==> a[i].Last() == s.attempts[i].Last() && a[i].key == s.attempts[i].key;
    }
  }

  lemma {:induction false} OpeningRuns(initial: ExecState)
    requires initial.Pending? || initial.Recovering?
    ensures var ts := Opening(initial);
      ts != [] && ts[|ts| - 1].state.Running? && forall t :: 0 <= t < |ts| ==> ts[t].sequence == t
  {
  }

  /** What beginning an attempt publishes: the linked attempts and one more, just opened. */
  lemma {:induction false} BeginAppends(s: State, key: Key, logical: LogicalId, request: string, recovering: bool, preflight: string)
    requires BeginAttempt(s, key, logical, request, recovering, preflight).Publish?
    ensures var next := BeginAttempt(s, key, logical, request, recovering, preflight).next;
      var a, k, prior := Linked(s, key).attempts, IntentOf(s.intents, key), LatestOf(s.attempts, key);
      && |a| == |s.attempts| && next.attempts == a + [next.attempts[|a|]] && k < |s.intents| == |next.intents|
      && (prior.Some? ==> var last := s.attempts[prior.value].Last();
            !Active(last) && !last.FailedTerminal? && !last.Succeeded?)
      && next == s.(attempts := next.attempts, intents := s.intents[k := s.intents[k].(status := next.intents[k].status)])
      && (next.intents[k].status.Running? || next.intents[k].status.Recovering?)
      && s.intents[k].logical == logical && s.intents[k].request == request
      && var x := next.attempts[|a|];
      && x.id == AttemptId(s.run, key, CountOf(s.attempts, key)) && x.key == key && x.logical == logical && x.request == request
      && x.parent == (if prior.Some? then Some(s.attempts[prior.value].id) else None)
      && x.failure.None? && x.executionPath.None? && x.Last().Running?
      && x.transitions != [] && forall t :: 0 <= t < |x.transitions| ==> x.transitions[t].sequence == t
  {
    hide LatestOf, IntentOf, CountOf, Opening;
    OpeningRuns(if recovering || LatestOf(s.attempts, key).Some? then Recovering else Pending);
  }

  lemma {:induction false} BeginKeepsLineage(s: State, key: Key, logical: LogicalId, request: string, recovering: bool, preflight: string)
    requires Lineage(s) && BeginAttempt(s, key, logical, request, recovering, preflight).Publish?
    ensures Lineage(BeginAttempt(s, key, logical, request, recovering, preflight).next)
  {
    hide Numbered, Parented, Superseded, DistinctIntents, StatusesFit, ExecutionsFit, SuccessesFit, AttemptsOk, AllIntended;
    hide RecordFits, Retryable, BeginAttempt, Linked, LatestOf, CountOf;
    var next := BeginAttempt(s, key, logical, request, recovering, preflight).next;
    var k := IntentOf(s.intents, key);
    BeginAppends(s, key, logical, request, recovering, preflight);
    LinkedReady(s, key);
    LinkedElsewhere(s, key);
    var a := Linked(s, key).attempts;
    var x := next.attempts[|a|];
    AppendKeepsShape(s.run, s.intents, a, x);
    AppendKeepsStatuses(a, s.intents, x, k, next.intents[k].status);
    AppendKeepsExecutions(a, s.executions, x);
    IntentProgress(s.intents, k, next.intents[k].status, next.attempts);
  }

  lemma {:induction false} LinkedElsewhere(s: State, key: Key)
    ensures Linked(s, key) == s.(attempts := Linked(s, key).attempts)
  {
  }

  lemma {:induction false} NumberedDistinct(a: seq<Attempt>)
    requires Numbered(a)
    ensures forall i, j :: 0 <= i < j < |a| ==> a[i].id != a[j].id
  {
  }

  /** Every operation of the archive keeps the lineage invariants. */
  lemma {:induction false} OperationKeepsLineage(s: State, op: Operation)
    requires Lineage(s) && Effects(s, op).Publish?
    ensures Lineage(Effects(s, op).next)
  {
    hide Lineage;
    match op
    case Record(key, logical, request) => RecordKeepsLineage(s, key, logical, request);
    case Begin(key, logical, request, recovering, preflight) =>
      BeginKeepsLineage(s, key, logical, request, recovering, preflight);
    case Fail(id, classification, boundary) => FailKeepsLineage(s, id, classification, boundary);
    case Succeed(key, logical, id, record, valid) => SucceedKeepsLineage(s, key, logical, id, record, valid);
  }
}
