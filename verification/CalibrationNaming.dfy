/** Which attempt ids a caller may record: exactly safe file names of which no two keys share one. */
module CalibrationNaming {
  import opened CrashStop
  import opened Options
  import opened CalibrationState
  import opened CalibrationLineage
  import opened CalibrationHistory
  import opened CalibrationPublication
  import opened CalibrationSessions

  /** A published disk whose latest state has a consistent history; nothing is said of its artifacts. */
  ghost predicate Plain(t: Disk) {
    && Clean(t) && HistoryOk(t.generations) && |t.generations| - 1 in t.generations
    && Historical(Latest(t.generations).state)
  }

  function StateOf(t: Disk): State
    requires |t.generations| > 0 && |t.generations| - 1 in t.generations
  {
    Latest(t.generations).state
  }

  /** The publication path of evidence under this name. */
  function EvidencePath(name: string): string { "evidence/" + name + ".json" }

  /** What recovery asks of it: one file name below `evidence/`, and no two dots anywhere. */
  predicate RecoveryAdmits(name: string) {
    var path := EvidencePath(name);
    |name| > 0 && '/' !in name && forall i :: 0 <= i < |path| - 1 ==> !(path[i] == '.' && path[i + 1] == '.')
  }

  lemma {:induction false} SafeNameAdmitted(name: string)
    ensures SafeName(name) <==> RecoveryAdmits(name)
  {
    var path := EvidencePath(name);
    assert forall i :: 0 <= i < |name| ==> path[9 + i] == name[i];
    assert path[9 + |name|..] == ".json";
    assert path[9 + |name|] == '.' && path[8] == '/';
    assert forall i :: 0 <= i < 9 ==> path[i] == "evidence/"[i];
    if RecoveryAdmits(name) {
      forall i | 0 <= i < |name|
        ensures name[i] != '/' && (name[i] == '.' ==> i + 1 < |name| && name[i + 1] != '.')
      {
        assert name[i] in name && path[9 + i] == name[i];
        assert i + 1 < |name| ==> path[9 + i + 1] == name[i + 1];
      }
    }
    if SafeName(name) {
      forall i | 0 <= i < |path| - 1
        ensures !(path[i] == '.' && path[i + 1] == '.')
      {
        if 9 <= i < 9 + |name| { assert path[i] == name[i - 9]; }
        if i >= 9 + |name| { assert path[i] == ".json"[i - 9 - |name|] && path[i + 1] == ".json"[i + 1 - 9 - |name|]; }
      }
    }
  }

  // ---------------------------------------------------------------- uninterrupted calls

  lemma {:induction false} PlainLoads(t: Disk)
    requires Plain(t)
    ensures |t.generations| > 0 && |t.generations| - 1 in t.generations
    ensures LoadPlan(t) == Plan([], Ok(StateOf(t))) && t.pointer == Some(Head(|t.generations| - 1, Digest(Latest(t.generations))))
  {
    hide HistoryOk, Historical;
    CleanTop(t);
    TopJournal(t);
    assert RecoverPlan(t) == Plan([], Ok(()));
  }

  /** An operation on the current head, with writes to spare or dying after `writes` of them. */
  ghost function CallOf(t: Disk, op: Operation, writes: nat): Call
    requires |t.generations| > 0 && |t.generations| - 1 in t.generations
  {
    Call(Some(Digest(Latest(t.generations))), op, writes)
  }

  lemma {:induction false} CallPlan(t: Disk, op: Operation)
    requires Plain(t) && Effects(StateOf(t), op).Publish?
    ensures var e := Effects(StateOf(t), op);
      PerformPlan(t, Some(Digest(Latest(t.generations))), op) == PublishPlan(t, t.pointer, e.next, e.artifacts)
  {
    hide Plain, Effects, PublishPlan, LoadPlan;
    PlainLoads(t);
    if Misclassified(op) { MisclassifiedRefused(StateOf(t), op); }
    var e := Effects(StateOf(t), op);
    var pub := PublishPlan(t, t.pointer, e.next, e.artifacts);
    assert [] + pub.writes == pub.writes;
    assert Replay(Apply, t, []) == t;
  }

  /** A call that publishes and survives leaves the published state. */
  lemma {:induction false} CallPublishes(t: Disk, op: Operation)
    requires Plain(t) && Effects(StateOf(t), op).Publish? && Publishable(t.artifacts, Effects(StateOf(t), op).artifacts)
    ensures var e := Effects(StateOf(t), op);
      var now := AfterCall(t, CallOf(t, op, |e.artifacts| + 3));
      && Plain(now) && |now.generations| > 0 && |now.generations| - 1 in now.generations
      && StateOf(now) == e.next && now.artifacts == Placed(t.artifacts, e.artifacts)
  {
    hide Effects, PublishPlan, Placed, Publishable, Historical, HistoryOk, Retained, PerformPlan;
    var s, e := StateOf(t), Effects(StateOf(t), op);
    CallPlan(t, op);
    PublishAtomic(t, e.next, e.artifacts, 0);
    PublishAtomic(t, e.next, e.artifacts, |e.artifacts| + 3);
    var ws := PublishPlan(t, t.pointer, e.next, e.artifacts).writes;
    assert ws[..|ws|] == ws;
    OperationRetains(s, op);
    PublishedClean(t, e.next, e.artifacts);
    JournalFresh(t, e.next, e.artifacts);
    HistoryExtends(t, e.next, e.artifacts);
  }

  /** A call whose artifacts are not publishable, dying right after its journal, leaves an archive no start can recover. */
  lemma {:induction false} CallBricks(t: Disk, op: Operation)
    requires Plain(t) && Effects(StateOf(t), op).Publish? && !Publishable(t.artifacts, Effects(StateOf(t), op).artifacts)
    ensures var now := AfterCall(t, CallOf(t, op, 1)); Stuck(now) && !Good(now)
  {
    hide Effects, Publishable, Historical, HistoryOk, PerformPlan, Stuck, Partial, Installing, RecoverPlan;
    var e := Effects(StateOf(t), op);
    CallPlan(t, op);
    RecoverableIff(t, e.next, e.artifacts);
    JournalFirst(t, e.next, e.artifacts);
    var now := AfterCall(t, CallOf(t, op, 1));
    StuckIsPermanent(now, 0);
    if Good(now) { PartialIsGood(now, Completed(now)); }
  }

  lemma {:induction false} JournalFirst(t: Disk, next: State, arts: seq<Artifact>)
    requires Clean(t)
    ensures var ws, e := PublishPlan(t, t.pointer, next, arts).writes, Sealed(t.pointer, next);
      |ws| >= 1 && Replay(Apply, t, ws[..1]) == Apply(t, WJournal(e.generation, Journal(e, arts)))
  {
    hide Clean, Installing;
    JournalFresh(t, next, arts);
    var ws, e := PublishPlan(t, t.pointer, next, arts).writes, Sealed(t.pointer, next);
    assert ws[..1] == [WJournal(e.generation, Journal(e, arts))];
    ReplayOne(Apply, t, ws[0]);
  }

  // ---------------------------------------------------------------- bringing a key to its evidence

  /** Nothing has been recorded of this key. */
  ghost predicate Idle(s: State, key: Key) {
    && s.status.Ready? && IntentOf(s.intents, key) == |s.intents| && LatestOf(s.attempts, key) == None && key !in s.completed
    && CountOf(s.attempts, key) == 0 && AttemptOf(s.attempts, AttemptId(s.run, key, 0)) == |s.attempts|
    && ExecutionOf(s.executions, key) == |s.executions|
  }

  /** An attempt of this key runs, and its evidence may be recorded. */
  ghost predicate Awaiting(s: State, key: Key, id: LogicalId) {
    && s.status.Ready? && ExecutionOf(s.executions, key) == |s.executions|
    && var k, n := IntentOf(s.intents, key), AttemptOf(s.attempts, AttemptId(s.run, key, 0));
    && k < |s.intents| && s.intents[k].logical == id && n < |s.attempts| && s.attempts[n].key == key && s.attempts[n].Last().Running?
  }

  function Recording(key: Key, id: LogicalId): Operation { Record(key, id, "") }
  function Beginning(key: Key, id: LogicalId): Operation { Begin(key, id, "", false, "") }
  function Evidencing(s: State, key: Key, id: LogicalId, v: Value): Operation { Succeed(key, id, AttemptId(s.run, key, 0), v, true) }

  lemma {:induction false} RecordIdle(s: State, key: Key, id: LogicalId)
    requires Idle(s, key)
    ensures Effects(s, Recording(key, id)) == Publish(s.(intents := s.intents + [Intent(key, id, "", Pending)]), [])
  {
    hide AttemptOf, LatestOf, ExecutionOf, CountOf, IntentOf;
  }

  lemma {:induction false} IntentAppended(intents: seq<Intent>, t: Intent, key: Key)
    requires IntentOf(intents, t.key) == |intents|
    ensures IntentOf(intents + [t], t.key) == |intents|
    ensures key != t.key && IntentOf(intents, key) == |intents| ==> IntentOf(intents + [t], key) == |intents| + 1
  {
    hide IntentOf;
    var more := intents + [t];
    assert more[|intents|] == t;
    forall j | 0 <= j < |intents|
      ensures more[j] == intents[j] && intents[j].key != t.key
    {
    }
  }

  lemma {:induction false} BeginRecorded(s: State, key: Key, id: LogicalId)
    requires Idle(s, key)
    ensures var recorded := s.(intents := s.intents + [Intent(key, id, "", Pending)]);
      var effect := Effects(recorded, Beginning(key, id));
      effect.Publish? && effect.artifacts == [] && Awaiting(effect.next, key, id) && effect.next.status.Ready?
      && effect.next.run == s.run && effect.next.executions == s.executions && effect.next.completed == s.completed
      && |effect.next.intents| == |s.intents| + 1 && effect.next.intents[..|s.intents|] == s.intents
      && effect.next.intents[|s.intents|].key == key
      && |effect.next.attempts| == |s.attempts| + 1 && effect.next.attempts[..|s.attempts|] == s.attempts
      && effect.next.attempts[|s.attempts|].id == AttemptId(s.run, key, 0) && effect.next.attempts[|s.attempts|].key == key
  {
    hide LatestOf, ExecutionOf, CountOf, IntentOf, AttemptOf;
    IntentAppended(s.intents, Intent(key, id, "", Pending), key);
    var recorded := s.(intents := s.intents + [Intent(key, id, "", Pending)]);
    var next := Effects(recorded, Beginning(key, id)).next;
    OpeningRuns(Pending);
    var x := next.attempts[|s.attempts|];
    assert next.attempts == s.attempts + [x];
    AttemptAppended(s.attempts, x);
    IntentKept(recorded.intents, |s.intents|, next.intents[|s.intents|]);
  }

  lemma {:induction false} AttemptAppended(attempts: seq<Attempt>, x: Attempt)
    requires AttemptOf(attempts, x.id) == |attempts|
    ensures AttemptOf(attempts + [x], x.id) == |attempts|
  {
    hide AttemptOf;
    var more := attempts + [x];
    assert more[|attempts|] == x;
    forall j | 0 <= j < |attempts|
      ensures more[j] == attempts[j] && attempts[j].id != x.id
    {
    }
  }

  lemma {:induction false} IntentKept(intents: seq<Intent>, k: nat, t: Intent)
    requires k < |intents| && IntentOf(intents, intents[k].key) == k && t.key == intents[k].key
    ensures IntentOf(intents[k := t], t.key) == k
  {
    hide IntentOf;
    var more := intents[k := t];
    assert more[k] == t;
    forall j | 0 <= j < k
      ensures more[j] == intents[j] && intents[j].key != t.key
    {
    }
  }

  /** Recording an intent and beginning its attempt, from where the key is idle. */
  lemma {:induction false} Launch(t: Disk, key: Key, id: LogicalId) returns (now: Disk, calls: seq<Call>)
    requires Plain(t) && Idle(StateOf(t), key)
    ensures RunCalls(t, calls) == now && |calls| == 2 && calls[0].op == Recording(key, id) && calls[1].op == Beginning(key, id)
    ensures Plain(now) && now.artifacts == t.artifacts && Awaiting(StateOf(now), key, id) && StateOf(now).run == StateOf(t).run
    ensures StateOf(now).executions == StateOf(t).executions
    ensures forall other :: other != key && Idle(StateOf(t), other) ==> Idle(StateOf(now), other)
  {
    hide Effects, Idle, Awaiting, AfterCall, Clean, HistoryOk, Historical;
    CleanTop(t);
    var s := StateOf(t);
    RecordIdle(s, key, id);
    BeginRecorded(s, key, id);
    var first := CallOf(t, Recording(key, id), 3);
    CallPublishes(t, Recording(key, id));
    var mid := AfterCall(t, first);
    var second := CallOf(mid, Beginning(key, id), 3);
    CallPublishes(mid, Beginning(key, id));
    now, calls := AfterCall(mid, second), [first, second];
    assert calls[1..] == [second];
    RunOne(mid, second);
    forall other | other != key && Idle(s, other)
      ensures Idle(StateOf(now), other)
    {
      StaysIdle(s, StateOf(now), key, other);
    }
  }

  lemma {:induction false} StaysIdle(s: State, next: State, key: Key, other: Key)
    requires other != key && Idle(s, other) && next.status.Ready? && next.run == s.run && next.executions == s.executions
    requires next.completed == s.completed
    requires |next.intents| == |s.intents| + 1 && next.intents[..|s.intents|] == s.intents && next.intents[|s.intents|].key == key
    requires |next.attempts| == |s.attempts| + 1 && next.attempts[..|s.attempts|] == s.attempts
    requires next.attempts[|s.attempts|].key == key && next.attempts[|s.attempts|].id == AttemptId(s.run, key, 0)
    ensures Idle(next, other)
  {
    hide IntentOf, AttemptOf, ExecutionOf;
    var x := next.attempts[|s.attempts|];
    assert next.attempts == s.attempts + [x];
    AppendedLookups(s.attempts, x);
    forall j | 0 <= j < |next.intents|
      ensures next.intents[j].key != other
    {
      assert j < |s.intents| ==> next.intents[j] == s.intents[j] && s.intents[j].key != other;
    }
    forall j | 0 <= j < |next.attempts|
      ensures next.attempts[j].id != AttemptId(s.run, other, 0)
    {
      assert j < |s.attempts| ==> next.attempts[j] == s.attempts[j] && s.attempts[j].id != AttemptId(s.run, other, 0);
    }
  }

  lemma {:induction false} EvidencePublished(s: State, key: Key, id: LogicalId, v: Value)
    requires Awaiting(s, key, id)
    ensures var e := Effects(s, Evidencing(s, key, id, v));
      e.Publish? && e.artifacts == [Artifact(Evidence(id), v)] && e.next.executions == s.executions + [Execution(key, id, AttemptId(s.run, key, 0), Evidence(id), v)]
      && e.next.run == s.run && e.next.status == s.status && e.next.completed == s.completed
      && |e.next.intents| == |s.intents| && (forall k :: 0 <= k < |s.intents| ==> e.next.intents[k].key == s.intents[k].key)
      && |e.next.attempts| == |s.attempts| && (forall n :: 0 <= n < |s.attempts| ==>
            e.next.attempts[n].key == s.attempts[n].key && e.next.attempts[n].id == s.attempts[n].id)
  {
    hide IntentOf, AttemptOf, ExecutionOf;
  }

  lemma {:induction false} OthersIdle(s: State, key: Key, id: LogicalId, v: Value, other: Key)
    requires Awaiting(s, key, id) && Idle(s, other) && other != key
    ensures Idle(Effects(s, Evidencing(s, key, id, v)).next, other)
  {
    hide Effects, IntentOf, AttemptOf, ExecutionOf;
    EvidencePublished(s, key, id, v);
    var next := Effects(s, Evidencing(s, key, id, v)).next;
    LatestSame(s.attempts, next.attempts, other);
    forall k | 0 <= k < |next.intents|
      ensures next.intents[k].key != other
    {
      assert s.intents[k].key != other;
    }
    forall n | 0 <= n < |next.attempts|
      ensures next.attempts[n].id != AttemptId(s.run, other, 0)
    {
      assert s.attempts[n].id != AttemptId(s.run, other, 0);
    }
    forall n | 0 <= n < |next.executions|
      ensures next.executions[n].key != other
    {
      assert n < |s.executions| ==> next.executions[n] == s.executions[n] && s.executions[n].key != other;
    }
  }

  // ---------------------------------------------------------------- the two ways an id bricks the archive

  lemma {:induction false} RunConcat(d: Disk, a: seq<Call>, b: seq<Call>)
    ensures RunCalls(d, a + b) == RunCalls(RunCalls(d, a), b)
    decreases |a|
  {
    hide AfterCall;
    if a == [] {
      assert a + b == b;
    } else {
      assert (a + b)[0] == a[0] && (a + b)[1..] == a[1..] + b;
      RunConcat(AfterCall(d, a[0]), a[1..], b);
    }
  }

  lemma {:induction false} RunOne(d: Disk, c: Call)
    ensures RunCalls(d, [c]) == AfterCall(d, c)
  {
    hide AfterCall;
    assert [c][1..] == [];
  }

  lemma {:induction false} FreshIdle(header: string, run: string, key: Key)
    ensures Plain(FreshDisk(header, run)) && Idle(StateOf(FreshDisk(header, run)), key)
  {
    FreshGood(header, run);
  }

  /** An id that is no safe file name: its evidence is published like any other, but a process dying right after the
      journal of that publication leaves an archive that no process can open again. */
  lemma {:induction false} UnsafeIdBricks(header: string, run: string, key: Key, id: LogicalId, v: Value) returns (calls: seq<Call>)
    requires !SafeId(id)
    ensures |calls| == 3 && calls[0].op == Recording(key, id) && calls[1].op == Beginning(key, id) && calls[2].op.Succeed?
    ensures Stuck(RunCalls(FreshDisk(header, run), calls)) && !Good(RunCalls(FreshDisk(header, run), calls))
  {
    hide Plain, Idle, Awaiting, AfterCall, Stuck, Good, Effects, RunCalls, SafeId;
    var d := FreshDisk(header, run);
    FreshIdle(header, run, key);
    var now, opening := Launch(d, key, id);
    PlainLoads(now);
    var s := StateOf(now);
    var op := Evidencing(s, key, id, v);
    EvidencePublished(s, key, id, v);
    var arts := [Artifact(Evidence(id), v)];
    assert arts[0] in arts;
    CallBricks(now, op);
    var last := CallOf(now, op, 1);
    RunConcat(d, opening, [last]);
    RunOne(now, last);
    calls := opening + [last];
  }

  /** Two keys recorded under one id: when both have evidence, and it differs, the second publication collides with
      the first after its journal is written, and no process can open the archive again. */
  lemma {:induction false} SharedIdBricks(header: string, run: string, key: Key, other: Key, id: LogicalId, v: Value, w: Value) returns (calls: seq<Call>)
    requires SafeId(id) && key != other && v != w
    ensures |calls| == 6 && calls[0].op == Recording(key, id) && calls[1].op == Beginning(key, id) && calls[2].op.Succeed?
    ensures calls[3].op == Recording(other, id) && calls[4].op == Beginning(other, id) && calls[5].op.Succeed?
    ensures Stuck(RunCalls(FreshDisk(header, run), calls)) && !Good(RunCalls(FreshDisk(header, run), calls))
  {
    hide Plain, Idle, Awaiting, AfterCall, Stuck, Good, Effects, RunCalls, SafeId;
    var d := FreshDisk(header, run);
    FreshIdle(header, run, key);
    FreshIdle(header, run, other);
    var t, opening := Launch(d, key, id);
    PlainLoads(t);
    var op := Evidencing(StateOf(t), key, id, v);
    EvidencePublished(StateOf(t), key, id, v);
    OthersIdle(StateOf(t), key, id, v, other);
    var arts := [Artifact(Evidence(id), v)];
    assert arts[1..] == [];
    CallPublishes(t, op);
    var middle := CallOf(t, op, 4);
    var u := AfterCall(t, middle);
    var again, reopening := Launch(u, other, id);
    PlainLoads(again);
    var op' := Evidencing(StateOf(again), other, id, w);
    EvidencePublished(StateOf(again), other, id, w);
    var arts' := [Artifact(Evidence(id), w)];
    assert arts'[0] in arts' && again.artifacts == d.artifacts[Evidence(id) := v];
    CallBricks(again, op');
    var last := CallOf(again, op', 1);
    RunConcat(d, opening, [middle]);
    RunOne(t, middle);
    RunConcat(d, opening + [middle], reopening);
    RunConcat(d, opening + [middle] + reopening, [last]);
    RunOne(again, last);
    calls := opening + [middle] + reopening + [last];
  }

  // ---------------------------------------------------------------- exactly the namings that are safe

  /** Intents are recorded under the ids of this naming. */
  ghost predicate Uses(calls: seq<Call>, naming: Key -> LogicalId) {
    forall i :: 0 <= i < |calls| && calls[i].op.Record? ==> calls[i].op.logical == naming(calls[i].op.key)
  }

  ghost predicate SafeNaming(naming: Key -> LogicalId) {
    && (forall key :: SafeId(naming(key))) && forall j, k :: naming(j) == naming(k) ==> j == k
  }

  ghost predicate AlwaysGood(header: string, run: string, naming: Key -> LogicalId) {
    forall calls :: Uses(calls, naming) ==> Good(RunCalls(FreshDisk(header, run), calls))
  }

  lemma {:induction false} UsesSafely(header: string, run: string, naming: Key -> LogicalId, calls: seq<Call>)
    requires SafeNaming(naming) && Uses(calls, naming)
    ensures Good(RunCalls(FreshDisk(header, run), calls))
  {
    hide Good, Sound, SafeId;
    FreshGood(header, run);
    var d := FreshDisk(header, run);
    SoundIsGood(d);
    assert CurrentState(d).intents == [];
    forall p | p in NamesOf(CurrentState(d), calls)
      ensures p.1 == naming(p.0)
    {
    }
    RunSafe(d, calls);
  }

  /** A way of naming attempts keeps every archive openable, through every run and every interruption, if and only
      if it gives each key a safe file name of its own. */
  lemma {:induction false} SafeNamingIff(header: string, run: string, naming: Key -> LogicalId)
    ensures SafeNaming(naming) <==> AlwaysGood(header, run, naming)
  {
    hide Good, SafeId, RunCalls, Stuck;
    if SafeNaming(naming) {
      forall calls | Uses(calls, naming)
        ensures Good(RunCalls(FreshDisk(header, run), calls))
      {
        UsesSafely(header, run, naming, calls);
      }
    }
    var v, w := OtherValue("v"), OtherValue("w");
    if key :| !SafeId(naming(key)) {
      var calls := UnsafeIdBricks(header, run, key, naming(key), v);
      assert Uses(calls, naming);
    } else if j, k :| naming(j) == naming(k) && j != k {
      var calls := SharedIdBricks(header, run, j, k, naming(j), v, w);
      assert Uses(calls, naming);
    }
  }

  /** The runner's own ids are derived from the keys. */
  lemma {:induction false} RunnerNamesSafely(header: string, run: string)
    ensures AlwaysGood(header, run, (key: Key) => Derived(key))
  {
    SafeNamingIff(header, run, (key: Key) => Derived(key));
  }
}
