/** What a later generation of the calibration state must retain of an earlier one, and the lineage
    conditions the archive checks when it is opened. */
module CalibrationHistory {
  import opened Options
  import opened CalibrationState
  import opened CalibrationLineage

  // ---------------------------------------------------------------- retained lists

  /** The entry a map built from xs holds under k: the last one wins. */
  function LastWith<T, K(==)>(xs: seq<T>, key: T -> K, k: K): (found: Option<T>)
    ensures found.Some? ==> found.value in xs && key(found.value) == k
  {
    if xs == [] then None
    else if key(xs[|xs| - 1]) == k then Some(xs[|xs| - 1])
    else LastWith(xs[..|xs| - 1], key, k)
  }

  predicate Keeps<T(==), K(==)>(prior: seq<T>, next: seq<T>, key: T -> K) {
    forall x :: x in prior ==> LastWith(next, key, key(x)) == Some(x)
  }

  ghost predicate Unambiguous<T, K>(xs: seq<T>, key: T -> K) {
    forall x, y :: x in xs && y in xs && key(x) == key(y) ==> x == y
  }

  predicate AttemptRetained(a: Attempt, b: Attempt) {
    SameAttempt(a, b) && a.transitions <= b.transitions && (b.next == a.next || a.next.None?)
  }

  predicate AttemptsRetained(prior: seq<Attempt>, next: seq<Attempt>) {
    forall a :: a in prior ==>
      var b := LastWith(next, (x: Attempt) => x.id, a.id);
      b.Some? && AttemptRetained(a, b.value)
  }

  predicate MayProgress(s: ExecState) {
    s.Pending? || s.Dispatching? || s.Running? || s.Recovering? || s.Quarantined? || s.FailedRetryable?
  }

  predicate IntentRetained(a: Intent, b: Intent) {
    a.key == b.key && a.logical == b.logical && a.request == b.request &&
    (b.status == a.status || (MayProgress(a.status) && !b.status.Pending?))
  }

  predicate IntentsRetained(prior: seq<Intent>, next: seq<Intent>) {
    forall a :: a in prior ==>
      var b := LastWith(next, (x: Intent) => x.key, a.key);
      b.Some? && IntentRetained(a, b.value)
  }

  /** assertRetainedHistory, on a prior and a next state. */
  predicate Retained(prior: State, next: State) {
    && next.header == prior.header && next.run == prior.run
    && Keeps(prior.executions, next.executions, (x: Execution) => x.key)
    && Keeps(prior.quarantined, next.quarantined, (x: Entry) => x.id)
    && Keeps(prior.manifests, next.manifests, (x: Entry) => x.id)
    && Keeps(prior.assessments, next.assessments, (x: Entry) => x.id)
    && Keeps(prior.candidates, next.candidates, (x: Entry) => x.id)
    && Keeps(prior.incidents, next.incidents, (x: Entry) => x)
    && AttemptsRetained(prior.attempts, next.attempts)
    && (forall k :: k in prior.completed ==> k in next.completed)
    && (forall v :: v in prior.visited ==> v in next.visited)
    && IntentsRetained(prior.intents, next.intents)
    && (prior.result.Some? ==> next.result == prior.result)
  }

  // ---------------------------------------------------------------- exactly when it is reflexive; transitive

  lemma {:induction false} LastWithFound<T, K>(xs: seq<T>, key: T -> K, x: T)
    requires x in xs
    ensures LastWith(xs, key, key(x)).Some?
  {
    if key(xs[|xs| - 1]) != key(x) {
      assert xs == xs[..|xs| - 1] + [xs[|xs| - 1]];
      LastWithFound(xs[..|xs| - 1], key, x);
    }
  }

  /** A list retains itself exactly when no two different entries share an identity. */
  lemma {:induction false} KeepsItself<T, K>(xs: seq<T>, key: T -> K)
    ensures Keeps(xs, xs, key) <==> Unambiguous(xs, key)
  {
    forall x | x in xs
      ensures LastWith(xs, key, key(x)).Some?
    {
      LastWithFound(xs, key, x);
    }
    if Keeps(xs, xs, key) {
      forall x, y | x in xs && y in xs && key(x) == key(y)
        ensures x == y
      {
        assert LastWith(xs, key, key(x)) == Some(x) && LastWith(xs, key, key(y)) == Some(y);
      }
    }
  }

  lemma {:induction false} KeepsTransitive<T, K>(a: seq<T>, b: seq<T>, c: seq<T>, key: T -> K)
    requires Keeps(a, b, key) && Keeps(b, c, key)
    ensures Keeps(a, c, key)
  {
    forall x | x in a
      ensures LastWith(c, key, key(x)) == Some(x)
    {
      assert LastWith(b, key, key(x)) == Some(x);
    }
  }

  /** Retention is transitive: what any generation keeps, every later one keeps. */
  lemma {:induction false} RetainedTransitive(a: State, b: State, c: State)
    requires Retained(a, b) && Retained(b, c)
    ensures Retained(a, c)
  {
    hide LastWith;
    KeepsTransitive(a.executions, b.executions, c.executions, (x: Execution) => x.key);
    KeepsTransitive(a.quarantined, b.quarantined, c.quarantined, (x: Entry) => x.id);
    KeepsTransitive(a.manifests, b.manifests, c.manifests, (x: Entry) => x.id);
    KeepsTransitive(a.assessments, b.assessments, c.assessments, (x: Entry) => x.id);
    KeepsTransitive(a.candidates, b.candidates, c.candidates, (x: Entry) => x.id);
    KeepsTransitive(a.incidents, b.incidents, c.incidents, (x: Entry) => x);
    forall x | x in a.attempts
      ensures var y := LastWith(c.attempts, (z: Attempt) => z.id, x.id); y.Some? && AttemptRetained(x, y.value)
    {
      var y := LastWith(b.attempts, (z: Attempt) => z.id, x.id).value;
      assert y in b.attempts;
    }
    forall x | x in a.intents
      ensures var y := LastWith(c.intents, (z: Intent) => z.key, x.key); y.Some? && IntentRetained(x, y.value)
    {
      var y := LastWith(b.intents, (z: Intent) => z.key, x.key).value;
      assert y in b.intents;
    }
  }

  /** The lists no execution operation touches hold no conflicting duplicates. */
  ghost predicate ListsOk(s: State) {
    && Unambiguous(s.quarantined, (x: Entry) => x.id) && Unambiguous(s.manifests, (x: Entry) => x.id)
    && Unambiguous(s.assessments, (x: Entry) => x.id) && Unambiguous(s.candidates, (x: Entry) => x.id)
  }

  // ---------------------------------------------------------------- every operation retains its past

  lemma {:induction false} LastWithAt<T, K>(xs: seq<T>, key: T -> K, i: nat)
    requires i < |xs| && forall j :: i < j < |xs| ==> key(xs[j]) != key(xs[i])
    ensures LastWith(xs, key, key(xs[i])) == Some(xs[i])
    decreases |xs|
  {
    if i < |xs| - 1 { LastWithAt(xs[..|xs| - 1], key, i); }
  }

  /** Attempts at the same places, each a later version, are retained. */
  lemma {:induction false} AttemptsGrow(a: seq<Attempt>, b: seq<Attempt>)
    requires |a| <= |b| && forall i :: 0 <= i < |a| ==> AttemptRetained(a[i], b[i])
    requires forall i, j :: 0 <= i < j < |b| ==> b[i].id != b[j].id
    ensures AttemptsRetained(a, b)
  {
    forall x | x in a
      ensures var y := LastWith(b, (z: Attempt) => z.id, x.id); y.Some? && AttemptRetained(x, y.value)
    {
      var i :| 0 <= i < |a| && a[i] == x;
      LastWithAt(b, (z: Attempt) => z.id, i);
    }
  }

  lemma {:induction false} IntentsGrow(a: seq<Intent>, b: seq<Intent>)
    requires |a| <= |b| && forall i :: 0 <= i < |a| ==> IntentRetained(a[i], b[i])
    requires forall i, j :: 0 <= i < j < |b| ==> b[i].key != b[j].key
    ensures IntentsRetained(a, b)
  {
    forall x | x in a
      ensures var y := LastWith(b, (z: Intent) => z.key, x.key); y.Some? && IntentRetained(x, y.value)
    {
      var i :| 0 <= i < |a| && a[i] == x;
      LastWithAt(b, (z: Intent) => z.key, i);
    }
  }

  lemma {:induction false} ExecutionsGrow(a: seq<Execution>, b: seq<Execution>)
    requires a <= b && forall i, j :: 0 <= i < j < |b| ==> b[i].key != b[j].key
    ensures Keeps(a, b, (x: Execution) => x.key)
  {
    forall x | x in a
      ensures LastWith(b, (z: Execution) => z.key, x.key) == Some(x)
    {
      var i :| 0 <= i < |a| && a[i] == x;
      LastWithAt(b, (z: Execution) => z.key, i);
    }
  }

  lemma {:induction false} UntouchedListsKept(s: State)
    requires ListsOk(s)
    ensures Keeps(s.quarantined, s.quarantined, (x: Entry) => x.id) && Keeps(s.manifests, s.manifests, (x: Entry) => x.id)
    ensures Keeps(s.assessments, s.assessments, (x: Entry) => x.id) && Keeps(s.candidates, s.candidates, (x: Entry) => x.id)
    ensures Keeps(s.incidents, s.incidents, (x: Entry) => x)
  {
    KeepsItself(s.quarantined, (x: Entry) => x.id);
    KeepsItself(s.manifests, (x: Entry) => x.id);
    KeepsItself(s.assessments, (x: Entry) => x.id);
    KeepsItself(s.candidates, (x: Entry) => x.id);
    KeepsItself(s.incidents, (x: Entry) => x);
  }

  ghost predicate Moved(s: State, next: State) {
    && |s.attempts| <= |next.attempts| && |s.intents| <= |next.intents|
    && (forall i :: 0 <= i < |s.attempts| ==> AttemptRetained(s.attempts[i], next.attempts[i]))
    && (forall i :: 0 <= i < |s.intents| ==> IntentRetained(s.intents[i], next.intents[i]))
  }

  /** How an operation moves attempts and intents, place by place. */
  lemma {:induction false} OperationMoves(s: State, op: Operation)
    requires Lineage(s) && OpenEnded(s.attempts) && Effects(s, op).Publish?
    ensures Moved(s, Effects(s, op).next)
  {
    hide Lineage, Moved, OpenEnded;
    match op
    case Record(_, _, _) => RecordMoves(s, op);
    case Begin(_, _, _, _, _) => BeginMoves(s, op);
    case Fail(_, _, _) => SettleMoves(s, op);
    case Succeed(_, _, _, _, _) => SettleMoves(s, op);
  }

  lemma {:induction false} RecordMoves(s: State, op: Operation)
    requires op.Record? && Effects(s, op).Publish?
    ensures Moved(s, Effects(s, op).next)
  {
  }

  /** What settling an attempt publishes: one attempt extended, its intent's status moved on. */
  ghost predicate Settles(s: State, next: State, n: nat, k: nat) {
    && n < |s.attempts| == |next.attempts| && k < |s.intents| == |next.intents|
    && s.attempts[n].Last().Running? && k == IntentOf(s.intents, s.attempts[n].key)
    && AttemptRetained(s.attempts[n], next.attempts[n]) && next.attempts[n].next == s.attempts[n].next
    && !next.intents[k].status.Pending?
    && next.attempts == s.attempts[n := next.attempts[n]]
    && next.intents == s.intents[k := s.intents[k].(status := next.intents[k].status)]
  }

  lemma {:induction false} FailSettles(s: State, op: Operation)
    requires op.Fail? && Effects(s, op).Publish?
    ensures var n := AttemptOf(s.attempts, op.attempt);
      n < |s.attempts| && Settles(s, Effects(s, op).next, n, IntentOf(s.intents, s.attempts[n].key))
  {
    hide IntentOf, AttemptOf;
  }

  lemma {:induction false} SucceedSettles(s: State, op: Operation)
    requires op.Succeed? && Effects(s, op).Publish?
    ensures var n := AttemptOf(s.attempts, op.attempt);
      n < |s.attempts| && Settles(s, Effects(s, op).next, n, IntentOf(s.intents, s.attempts[n].key))
  {
    hide IntentOf, AttemptOf, ExecutionOf;
  }

  lemma {:induction false} SettlingMoves(s: State, next: State, n: nat, k: nat)
    requires Superseded(s.attempts) && StatusesFit(s.attempts, s.intents) && Settles(s, next, n, k)
    ensures Moved(s, next)
  {
    hide Superseded, StatusesFit, IntentOf;
    SettledIntent(s, n);
  }

  lemma {:induction false} SettlingKeepsOpenEnded(s: State, next: State, n: nat, k: nat)
    requires OpenEnded(s.attempts) && Settles(s, next, n, k)
    ensures OpenEnded(next.attempts)
  {
    hide IntentOf, LatestOf;
    forall i | 0 <= i < |next.attempts| && LatestOf(next.attempts, next.attempts[i].key) == Some(i)
      ensures next.attempts[i].next.None?
    {
      LatestSame(s.attempts, next.attempts, s.attempts[i].key);
    }
  }

  lemma {:induction false} SettleMoves(s: State, op: Operation)
    requires Lineage(s) && (op.Fail? || op.Succeed?) && Effects(s, op).Publish?
    ensures Moved(s, Effects(s, op).next)
    ensures OpenEnded(s.attempts) ==> OpenEnded(Effects(s, op).next.attempts)
  {
    hide Moved, OpenEnded, Settles, Effects, Superseded, StatusesFit;
    if op.Fail? { FailSettles(s, op); } else { SucceedSettles(s, op); }
    var n, next := AttemptOf(s.attempts, op.attempt), Effects(s, op).next;
    var k := IntentOf(s.intents, s.attempts[n].key);
    SettlingMoves(s, next, n, k);
    if OpenEnded(s.attempts) { SettlingKeepsOpenEnded(s, next, n, k); }
  }

  /** An operation leaves the header and the lists of other kinds alone, and only ever adds executions. */
  lemma {:induction false} OperationTouches(s: State, op: Operation)
    requires Effects(s, op).Publish?
    ensures var next := Effects(s, op).next;
      && next == s.(attempts := next.attempts, intents := next.intents, executions := next.executions, status := next.status)
      && s.executions <= next.executions
  {
  }

  /** The intent of a running attempt may still progress. */
  lemma {:induction false} SettledIntent(s: State, n: nat)
    requires Superseded(s.attempts) && StatusesFit(s.attempts, s.intents) && n < |s.attempts| && s.attempts[n].Last().Running?
    ensures var k := IntentOf(s.intents, s.attempts[n].key);
      k < |s.intents| ==> MayProgress(s.intents[k].status)
  {
    var k := IntentOf(s.intents, s.attempts[n].key);
    RunningIsLatest(s, n);
    assert k < |s.intents| ==> StatusFits(s.attempts, s.intents[k]);
  }

  /** An attempt names a successor only once it has one. */
  ghost predicate OpenEnded(attempts: seq<Attempt>) {
    forall i :: 0 <= i < |attempts| && LatestOf(attempts, attempts[i].key) == Some(i) ==> attempts[i].next.None?
  }

  lemma {:induction false} RetryableProgresses(s: State, key: Key)
    requires StatusesFit(s.attempts, s.intents) && AttemptsOk(s.run, s.attempts) && IntentOf(s.intents, key) < |s.intents|
    requires var prior := LatestOf(s.attempts, key);
      prior.Some? ==> var last := s.attempts[prior.value].Last();
        !Active(last) && !last.FailedTerminal? && !last.Succeeded?
    ensures MayProgress(s.intents[IntentOf(s.intents, key)].status)
  {
    hide RecordFits, LatestOf, IntentOf;
    assert StatusFits(s.attempts, s.intents[IntentOf(s.intents, key)]);
    forall i | 0 <= i < |s.attempts|
      ensures AttemptOk(s.run, s.attempts[i])
    {
    }
  }

  lemma {:induction false} LinkedRetains(s: State, key: Key)
    requires OpenEnded(s.attempts)
    ensures var a := Linked(s, key).attempts;
      |a| == |s.attempts| && forall i :: 0 <= i < |a| ==> AttemptRetained(s.attempts[i], a[i])
  {
    hide LatestOf, CountOf;
  }

  lemma {:induction false} BeginMoves(s: State, op: Operation)
    requires Lineage(s) && OpenEnded(s.attempts) && op.Begin? && Effects(s, op).Publish?
    ensures Moved(s, Effects(s, op).next)
  {
    hide AttemptsOk, Superseded, StatusesFit, Numbered, Parented, ExecutionsFit, SuccessesFit, DistinctIntents, AllIntended;
    hide BeginAttempt, IntentOf, LatestOf, CountOf, MayProgress, Linked, AttemptRetained, OpenEnded;
    LinkedRetains(s, op.key);
    BeginAppends(s, op.key, op.logical, op.request, op.recovering, op.preflight);
    RetryableProgresses(s, op.key);
  }

  /** Linking the latest attempt of a key is safe once a later attempt of that key follows. */
  lemma {:induction false} LinkThenAppend(a: seq<Attempt>, n: Option<nat>, next: AttemptId, x: Attempt)
    requires OpenEnded(a) && n == LatestOf(a, x.key) && x.next.None?
    ensures OpenEnded((if n.Some? then a[n.value := a[n.value].(next := Some(next))] else a) + [x])
  {
    hide LatestOf;
    var l := if n.Some? then a[n.value := a[n.value].(next := Some(next))] else a;
    AppendedLookups(l, x);
    var b := l + [x];
    forall i | 0 <= i < |b| && LatestOf(b, b[i].key) == Some(i)
      ensures b[i].next.None?
    {
      LatestSame(a, l, b[i].key);
    }
  }

  lemma {:induction false} BeginKeepsOpenEnded(s: State, op: Operation)
    requires OpenEnded(s.attempts) && op.Begin? && Effects(s, op).Publish?
    ensures OpenEnded(Effects(s, op).next.attempts)
  {
    hide OpenEnded, LatestOf, IntentOf, Opening, CountOf;
    var b := Effects(s, op).next.attempts;
    LinkThenAppend(s.attempts, LatestOf(s.attempts, op.key), AttemptId(s.run, op.key, CountOf(s.attempts, op.key)), b[|b| - 1]);
  }

  lemma {:induction false} OperationKeepsOpenEnded(s: State, op: Operation)
    requires Lineage(s) && OpenEnded(s.attempts) && Effects(s, op).Publish?
    ensures OpenEnded(Effects(s, op).next.attempts)
  {
    hide Lineage, OpenEnded;
    match op
    case Record(_, _, _) =>
    case Begin(_, _, _, _, _) => BeginKeepsOpenEnded(s, op);
    case _ => SettleMoves(s, op);
  }

  // ---------------------------------------------------------------- the archive's state, generation by generation

  /** What every generation the operations publish satisfies. */
  ghost predicate Historical(s: State) { Lineage(s) && OpenEnded(s.attempts) && ListsOk(s) }

  /** Every operation keeps the invariant, and what it publishes retains everything before it. */
  lemma {:induction false} OperationRetains(s: State, op: Operation)
    requires Historical(s) && Effects(s, op).Publish?
    ensures Historical(Effects(s, op).next) && Retained(s, Effects(s, op).next)
  {
    hide LastWith, AttemptsOk, Superseded, Parented, AllIntended, StatusesFit, SuccessesFit, Effects, Keeps, AttemptsRetained, IntentsRetained;
    var next := Effects(s, op).next;
    OperationKeepsLineage(s, op);
    OperationKeepsOpenEnded(s, op);
    OperationMoves(s, op);
    OperationTouches(s, op);
    NumberedDistinct(next.attempts);
    AttemptsGrow(s.attempts, next.attempts);
    IntentsGrow(s.intents, next.intents);
    ExecutionsGrow(s.executions, next.executions);
    UntouchedListsKept(s);
  }

  /** The generations a run of operations publishes. */
  function Generations(s: State, ops: seq<Operation>): (g: seq<State>)
    ensures g != [] && g[0] == s
    decreases |ops|
  {
    if ops == [] then [s]
    else if Effects(s, ops[0]).Publish? then [s] + Generations(Effects(s, ops[0]).next, ops[1..])
    else Generations(s, ops[1..])
  }

  ghost predicate AllHistorical(g: seq<State>) { forall i :: 0 <= i < |g| ==> Historical(g[i]) }

  ghost predicate AllRetained(g: seq<State>) { forall i, j :: 0 <= i < j < |g| ==> Retained(g[i], g[j]) }

  lemma {:induction false} RetainedByAll(s: State, g: seq<State>)
    requires AllHistorical(g) && AllRetained(g) && g != [] && Retained(s, g[0]) && Historical(s)
    ensures AllHistorical([s] + g) && AllRetained([s] + g)
  {
    hide Retained, Historical;
    forall j | 0 <= j < |g|
      ensures Retained(s, g[j])
    {
      if j > 0 { RetainedTransitive(s, g[0], g[j]); }
    }
  }

  /** Over a whole run: every generation satisfies the invariant and retains every earlier one. */
  lemma {:induction false} RunRetains(s: State, ops: seq<Operation>)
    requires Historical(s)
    ensures AllHistorical(Generations(s, ops)) && AllRetained(Generations(s, ops))
    decreases |ops|
  {
    if ops != [] {
      if Effects(s, ops[0]).Publish? {
        hide Historical, Retained, AllHistorical, AllRetained;
        OperationRetains(s, ops[0]);
        RunRetains(Effects(s, ops[0]).next, ops[1..]);
        RetainedByAll(s, Generations(Effects(s, ops[0]).next, ops[1..]));
      } else {
        RunRetains(s, ops[1..]);
      }
    }
  }

  // ---------------------------------------------------------------- the archive's own check of a loaded state

  predicate SuccessHasExecution(executions: seq<Execution>, t: Intent) {
    t.status.Succeeded? ==> exists k :: 0 <= k < |executions| && executions[k].key == t.key
  }

  predicate ExecutionHasSuccess(intents: seq<Intent>, attempts: seq<Attempt>, e: Execution) {
    && (exists k :: 0 <= k < |intents| && intents[k].key == e.key && intents[k].status.Succeeded?)
    && (exists n :: 0 <= n < |attempts| && attempts[n].id == e.attempt && attempts[n].key == e.key && attempts[n].Last().Succeeded?)
  }

  predicate AttemptHasIntent(intents: seq<Intent>, a: Attempt) {
    exists k :: 0 <= k < |intents| && intents[k].key == a.key && intents[k].logical == a.logical && intents[k].request == a.request
  }

  predicate AttemptHasParent(attempts: seq<Attempt>, a: Attempt) {
    a.parent.Some? ==> exists n :: 0 <= n < |attempts| && attempts[n].id == a.parent.value
  }

  predicate SuccessIsExecuted(executions: seq<Execution>, a: Attempt) {
    a.Last().Succeeded? ==> exists k :: 0 <= k < |executions| && executions[k].attempt == a.id && executions[k].key == a.key
  }

  predicate Disposed(a: Attempt) {
    && a.transitions != [] && (forall n :: 0 <= n < |a.transitions| ==> a.transitions[n].sequence == n)
    && (Failed(a.Last()) <==> a.failure.Some?) && (a.Last().Succeeded? ==> a.executionPath.Some?)
    && (a.failure.Some? ==> RecordFits(a))
  }

  /** At most one active attempt of a key and at most one success. */
  predicate OneLive(attempts: seq<Attempt>) {
    forall i, j :: 0 <= i < j < |attempts| && attempts[i].key == attempts[j].key ==>
      && !(Active(attempts[i].Last()) && Active(attempts[j].Last()))
      && !(attempts[i].Last().Succeeded? && attempts[j].Last().Succeeded?)
  }

  /** The conditions on intents, attempts and executions that opening the archive insists on. */
  predicate SourceLineage(s: State) {
    && DistinctIntents(s.intents) && OneLive(s.attempts)
    && (forall i, j :: 0 <= i < j < |s.attempts| ==> s.attempts[i].id != s.attempts[j].id)
    && (forall i, j :: 0 <= i < j < |s.executions| ==> s.executions[i].key != s.executions[j].key)
    && (forall k :: 0 <= k < |s.intents| ==> SuccessHasExecution(s.executions, s.intents[k]))
    && (forall k :: 0 <= k < |s.executions| ==> ExecutionHasSuccess(s.intents, s.attempts, s.executions[k]))
    && (forall i :: 0 <= i < |s.attempts| ==> AttemptHasIntent(s.intents, s.attempts[i]) && AttemptHasParent(s.attempts, s.attempts[i]))
    && (forall i :: 0 <= i < |s.attempts| ==> SuccessIsExecuted(s.executions, s.attempts[i]) && Disposed(s.attempts[i]))
  }

  lemma {:induction false} IntentAccepted(s: State, k: nat)
    requires k < |s.intents| && StatusesFit(s.attempts, s.intents) && SuccessesFit(s.executions, s.attempts)
    ensures SuccessHasExecution(s.executions, s.intents[k])
  {
    assert StatusFits(s.attempts, s.intents[k]);
    var n := LatestOf(s.attempts, s.intents[k].key);
    if s.intents[k].status.Succeeded? {
      assert SuccessFits(s.executions, s.attempts[n.value]);
    }
  }

  lemma {:induction false} ExecutionAccepted(s: State, m: nat)
    requires m < |s.executions| && StatusesFit(s.attempts, s.intents) && AllIntended(s.intents, s.attempts)
    requires ExecutionsFit(s.attempts, s.executions) && Superseded(s.attempts)
    ensures ExecutionHasSuccess(s.intents, s.attempts, s.executions[m])
  {
    var e := s.executions[m];
    assert ExecutionFits(s.attempts, e);
    var n := AttemptOf(s.attempts, e.attempt);
    assert Intended(s.intents, s.attempts[n]);
    assert StatusFits(s.attempts, s.intents[IntentOf(s.intents, e.key)]);
    assert LatestOf(s.attempts, e.key) == Some(n);
  }

  lemma {:induction false} AttemptAccepted(s: State, i: nat)
    requires i < |s.attempts| && AttemptsOk(s.run, s.attempts) && Parented(s.attempts)
    requires AllIntended(s.intents, s.attempts) && SuccessesFit(s.executions, s.attempts)
    ensures AttemptHasIntent(s.intents, s.attempts[i]) && AttemptHasParent(s.attempts, s.attempts[i])
    ensures SuccessIsExecuted(s.executions, s.attempts[i]) && Disposed(s.attempts[i])
  {
    var a := s.attempts[i];
    assert AttemptOk(s.run, a) && Intended(s.intents, a) && SuccessFits(s.executions, a);
  }

  /** The invariant the operations keep without looking implies everything the archive checks when it is opened. */
  lemma {:induction false} OpensAfterwards(s: State)
    requires Lineage(s)
    ensures SourceLineage(s)
  {
    hide StatusesFit, AllIntended, AttemptsOk, Parented, SuccessesFit, RecordFits, ExecutionFits;
    hide SuccessHasExecution, ExecutionHasSuccess, AttemptHasIntent, AttemptHasParent, SuccessIsExecuted, Disposed;
    NumberedDistinct(s.attempts);
    forall k | 0 <= k < |s.intents|
      ensures SuccessHasExecution(s.executions, s.intents[k])
    {
      IntentAccepted(s, k);
    }
    forall m | 0 <= m < |s.executions|
      ensures ExecutionHasSuccess(s.intents, s.attempts, s.executions[m])
    {
      ExecutionAccepted(s, m);
    }
    forall i | 0 <= i < |s.attempts|
      ensures AttemptHasIntent(s.intents, s.attempts[i]) && AttemptHasParent(s.attempts, s.attempts[i])
      ensures SuccessIsExecuted(s.executions, s.attempts[i]) && Disposed(s.attempts[i])
    {
      AttemptAccepted(s, i);
    }
  }
}
