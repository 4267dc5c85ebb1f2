/** Whole runs of the calibration archive: any calls, by any processes, each dying after any number of
    its writes.  Calls exclude one another, so a run is a sequence of calls. */
module CalibrationSessions {
  import opened CrashStop
  import opened Options
  import opened CalibrationState
  import opened CalibrationLineage
  import opened CalibrationHistory
  import opened CalibrationPublication

  // ---------------------------------------------------------------- an archive just initialized

  function Fresh(header: string, run: string): State {
    State(header, run, Ready, [], [], [], [], [], [], [], [], [], [], None)
  }

  function FreshDisk(header: string, run: string): Disk {
    var e := Envelope(0, None, Fresh(header, run));
    Disk(map[], map[0 := Journal(e, [])], map[0 := e], Some(Head(0, Digest(e))))
  }

  // ---------------------------------------------------------------- loading

  /** Generations form a chain and each retains its predecessor's history. */
  ghost predicate HistoryOk(g: map<nat, Envelope>) {
    Chain(g) && forall i: nat :: 0 < i < |g| ==> Follows(g, i)
  }

  predicate Follows(g: map<nat, Envelope>, i: nat) {
    0 < i && i - 1 in g && i in g && Retained(g[i - 1].state, g[i].state)
  }

  function Latest(g: map<nat, Envelope>): Envelope
    requires |g| > 0 && |g| - 1 in g
  {
    g[|g| - 1]
  }

  ghost predicate Loads(d: Disk) {
    && HistoryOk(d.generations) && |d.generations| > 0 && |d.generations| - 1 in d.generations
    && d.pointer == Some(Head(|d.generations| - 1, Digest(Latest(d.generations))))
  }

  ghost function LoadPlan(d: Disk): Plan<Write, State> {
    var rec := RecoverPlan(d);
    if !rec.reply.Ok? then Plan(rec.writes, Refused)
    else
      var t := Replay(Apply, d, rec.writes);
      if Loads(t) then Plan(rec.writes, Ok(Latest(t.generations).state)) else Plan(rec.writes, Refused)
  }

  predicate ExecutionArchived(a: map<Path, Value>, e: Execution) { e.path in a && a[e.path] == e.record }

  predicate FailureArchived(a: map<Path, Value>, x: Attempt) {
    x.failure.Some? ==> x.failure.value.path in a && a[x.failure.value.path] == x.failure.value.record
  }

  predicate Owned(s: State, p: Path) {
    && (p.Evidence? ==> exists k :: 0 <= k < |s.executions| && s.executions[k].path == p)
    && (p.ExecutionAttempt? ==>
          exists i :: 0 <= i < |s.attempts| && s.attempts[i].failure.Some? && s.attempts[i].failure.value.path == p)
  }

  /** No orphan and no missing artifact: evidence belongs to executions, failure records to failed attempts. */
  predicate Index(a: map<Path, Value>, s: State) {
    && (forall p :: p in a ==> Owned(s, p))
    && (forall k :: 0 <= k < |s.executions| ==> ExecutionArchived(a, s.executions[k]))
    && (forall i :: 0 <= i < |s.attempts| ==> FailureArchived(a, s.attempts[i]))
  }

  /** Opening also checks the lineage and the artifact index. */
  ghost function OpenPlan(d: Disk): Plan<Write, State> {
    var load := LoadPlan(d);
    if load.reply.Ok? && SourceLineage(load.reply.value) && Index(Replay(Apply, d, load.writes).artifacts, load.reply.value) then load
    else Plan(load.writes, Refused)
  }

  /** A failure that is none: refused before the archive is even loaded. */
  predicate Misclassified(op: Operation) { op.Fail? && (op.classification.ParameterFailure? || op.classification.AcceptedConfiguration?) }

  /** What an operation called with head `expected` does; it skips the lineage and index checks. */
  ghost function PerformPlan(d: Disk, expected: Option<Digest>, op: Operation): Plan<Write, ()> {
    var load := LoadPlan(d);
    if Misclassified(op) then Plan([], Refused)
    else if !load.reply.Ok? then Plan(load.writes, Refused)
    else
      var t := Replay(Apply, d, load.writes);
      if expected != Some(t.pointer.value.digest) then Plan(load.writes, Refused)
      else
        match Effects(load.reply.value, op)
        case Refuse => Plan(load.writes, Refused)
        case Kept => Plan(load.writes, Ok(()))
        case Publish(next, arts) =>
          var pub := PublishPlan(t, t.pointer, next, arts);
          Plan(load.writes + pub.writes, pub.reply)
  }

  // ---------------------------------------------------------------- the invariant of a disk

  /** Recorded attempt ids are safe file names, and no two keys share one. */
  predicate Named(s: State) {
    && (forall k :: 0 <= k < |s.intents| ==> SafeId(s.intents[k].logical))
    && (forall j, k :: 0 <= j < k < |s.intents| ==> s.intents[j].logical != s.intents[k].logical)
  }

  /** An intent is recorded under a safe id that no other key has. */
  predicate OperationNamed(s: State, op: Operation) {
    op.Record? ==>
      SafeId(op.logical) && forall k :: 0 <= k < |s.intents| && s.intents[k].logical == op.logical ==> s.intents[k].key == op.key
  }

  ghost predicate StateOk(s: State) { Historical(s) && Named(s) }

  ghost predicate Sound(t: Disk) {
    && Clean(t) && HistoryOk(t.generations) && |t.generations| - 1 in t.generations
    && StateOk(Latest(t.generations).state) && Index(t.artifacts, Latest(t.generations).state)
  }

  /** The disk once recovery has completed whatever publication it finds journalled. */
  function Completed(d: Disk): Disk { Replay(Apply, d, RecoverPlan(d).writes) }

  ghost predicate Good(d: Disk) { Partial(d, Completed(d)) && Sound(Completed(d)) }

  /** The state a good disk stands for. */
  function CurrentState(d: Disk): State
    requires |Completed(d).generations| > 0 && |Completed(d).generations| - 1 in Completed(d).generations
  {
    Latest(Completed(d).generations).state
  }

  lemma {:induction false} SoundIsGood(t: Disk)
    requires Sound(t)
    ensures Good(t) && Completed(t) == t
  {
    hide Sound, RecoverPlan;
    assert Clean(t) by { SoundClean(t); }
    PartialIsGood(t, t);
  }

  lemma {:induction false} SoundClean(t: Disk)
    requires Sound(t)
    ensures Clean(t) && Loads(t)
  {
    CleanTop(t);
  }

  lemma {:induction false} PartialIsGood(d: Disk, t: Disk)
    requires Partial(d, t) && Sound(t)
    ensures Good(d) && Completed(d) == t && RecoverPlan(d).reply == Ok(())
    ensures forall k: nat :: k <= |RecoverPlan(d).writes| ==> Partial(Replay(Apply, d, RecoverPlan(d).writes[..k]), t)
  {
    hide Sound, Partial, RecoverPlan;
    RecoverCompletes(d, t);
  }

  /** A good disk loads, and its state passes every check of opening it. */
  lemma {:induction false} GoodOpens(d: Disk)
    requires Good(d)
    ensures LoadPlan(d) == Plan(RecoverPlan(d).writes, Ok(Latest(Completed(d).generations).state))
    ensures OpenPlan(d) == LoadPlan(d)
  {
    hide RecoverPlan, Partial, Loads, Index, SourceLineage, HistoryOk, Historical;
    var t := Completed(d);
    PartialIsGood(d, t);
    SoundClean(t);
    OpensAfterwards(Latest(t.generations).state) by { hide *; SoundLineage(t); }
  }

  lemma {:induction false} SoundLineage(t: Disk)
    requires Sound(t)
    ensures Lineage(Latest(t.generations).state)
  {
    hide Lineage, Clean, HistoryOk, Index;
  }

  // ---------------------------------------------------------------- what an operation publishes is publishable

  lemma {:induction false} FailPublishable(a: map<Path, Value>, s: State, op: Operation)
    requires Lineage(s) && Index(a, s) && op.Fail? && Effects(s, op).Publish?
    ensures var e := Effects(s, op); Publishable(a, e.artifacts) && Index(Placed(a, e.artifacts), e.next)
  {
    hide Numbered, Superseded, Parented, StatusesFit, SuccessesFit, AllIntended, DistinctIntents, ExecutionsFit;
    hide Index, RecordFits, FailureState, IntentOf;
    FailArtifact(s, op);
    var n := AttemptOf(s.attempts, op.attempt);
    var e := Effects(s, op);
    var x, b := e.artifacts[0], e.next.attempts[n];
    assert x.path !in a by { FreshFailure(a, s, n); }
    assert e.artifacts == [x] && e.artifacts[1..] == [];
    assert Placed(a, e.artifacts) == a[x.path := x.value];
    FailIndex(a, s, e.next, n, x);
  }

  lemma {:induction false} FailArtifact(s: State, op: Operation)
    requires op.Fail? && Effects(s, op).Publish?
    ensures var e, n := Effects(s, op), AttemptOf(s.attempts, op.attempt);
      && n < |s.attempts| && s.attempts[n].id == op.attempt && s.attempts[n].Last().Running?
      && |e.next.attempts| == |s.attempts| && (forall i :: 0 <= i < |s.attempts| && i != n ==> e.next.attempts[i] == s.attempts[i])
      && e.next.executions == s.executions && |e.artifacts| == 1 && e.artifacts[0].path == ExecutionAttempt(op.attempt)
      && e.next.attempts[n].failure == Some(Failure(e.artifacts[0].path, e.artifacts[0].value))
  {
  }

  /** A running attempt has no failure record yet, so its file is not there. */
  lemma {:induction false} FreshFailure(a: map<Path, Value>, s: State, n: nat)
    requires Numbered(s.attempts) && AttemptsOk(s.run, s.attempts) && Index(a, s) && n < |s.attempts| && s.attempts[n].Last().Running?
    ensures ExecutionAttempt(s.attempts[n].id) !in a
  {
    var p := ExecutionAttempt(s.attempts[n].id);
    assert AttemptOk(s.run, s.attempts[n]);
    NumberedDistinct(s.attempts);
    forall i | 0 <= i < |s.attempts| && s.attempts[i].failure.Some?
      ensures s.attempts[i].failure.value.path != p
    {
      assert AttemptOk(s.run, s.attempts[i]);
    }
    assert p in a ==> Owned(s, p);
  }

  lemma {:induction false} FailIndex(a: map<Path, Value>, s: State, next: State, n: nat, x: Artifact)
    requires Index(a, s) && n < |s.attempts| == |next.attempts| && next.executions == s.executions
    requires forall i :: 0 <= i < |s.attempts| && i != n ==> next.attempts[i] == s.attempts[i]
    requires s.attempts[n].failure.None? && next.attempts[n].failure == Some(Failure(x.path, x.value))
    requires x.path.ExecutionAttempt? && x.path !in a
    ensures Index(a[x.path := x.value], next)
  {
    var b := a[x.path := x.value];
    forall p | p in b
      ensures Owned(next, p)
    {
      if p == x.path {
        assert next.attempts[n].failure.value.path == p;
      } else {
        assert Owned(s, p);
        if p.ExecutionAttempt? {
          var i :| 0 <= i < |s.attempts| && s.attempts[i].failure.Some? && s.attempts[i].failure.value.path == p;
          assert next.attempts[i] == s.attempts[i];
        }
      }
    }
    assert forall k :: 0 <= k < |s.executions| ==> ExecutionArchived(a, s.executions[k]);
    forall i | 0 <= i < |next.attempts|
      ensures FailureArchived(b, next.attempts[i])
    {
      assert FailureArchived(a, s.attempts[i]);
    }
  }

  lemma {:induction false} SucceedArtifact(s: State, op: Operation)
    requires op.Succeed? && Effects(s, op).Publish?
    ensures var e := Effects(s, op);
      && |e.next.attempts| == |s.attempts| && (forall i :: 0 <= i < |s.attempts| ==> e.next.attempts[i].failure == s.attempts[i].failure)
      && |e.artifacts| == 1 && e.artifacts[0].path == Evidence(op.logical)
      && e.next.executions == s.executions + [Execution(op.key, op.logical, op.attempt, e.artifacts[0].path, e.artifacts[0].value)]
      && (forall k :: 0 <= k < |s.executions| ==> s.executions[k].key != op.key)
  {
  }

  /** Evidence of a key without an execution is not there yet: ids are distinct. */
  lemma {:induction false} FreshEvidence(a: map<Path, Value>, s: State, op: Operation)
    requires Lineage(s) && Named(s) && Index(a, s) && op.Succeed? && Effects(s, op).Publish?
    ensures Evidence(op.logical) !in a && SafeId(op.logical)
  {
    hide Numbered, Superseded, Parented, StatusesFit, SuccessesFit, AttemptsOk, Effects, SafeId;
    SucceedArtifact(s, op);
    SucceedNamed(s, op);
    var p := Evidence(op.logical);
    forall k | 0 <= k < |s.executions|
      ensures s.executions[k].path != p
    {
      ExecutionNamed(s, k);
    }
    assert p in a ==> Owned(s, p);
  }

  lemma {:induction false} SucceedNamed(s: State, op: Operation)
    requires op.Succeed? && Effects(s, op).Publish?
    ensures var k := IntentOf(s.intents, op.key);
      k < |s.intents| && s.intents[k].logical == op.logical && s.intents[k].key == op.key
  {
  }

  lemma {:induction false} ExecutionNamed(s: State, n: nat)
    requires AllIntended(s.intents, s.attempts) && ExecutionsFit(s.attempts, s.executions) && n < |s.executions|
    ensures var e := s.executions[n];
      var k := IntentOf(s.intents, e.key);
      e.path == Evidence(e.logical) && k < |s.intents| && s.intents[k].logical == e.logical && s.intents[k].key == e.key
  {
    var e := s.executions[n];
    assert ExecutionFits(s.attempts, e);
    assert Intended(s.intents, s.attempts[AttemptOf(s.attempts, e.attempt)]);
  }

  lemma {:induction false} SucceedIndex(a: map<Path, Value>, s: State, next: State, x: Artifact, e: Execution)
    requires Index(a, s) && |s.attempts| == |next.attempts| && next.executions == s.executions + [e]
    requires forall i :: 0 <= i < |s.attempts| ==> next.attempts[i].failure == s.attempts[i].failure
    requires x.path.Evidence? && x.path !in a && e.path == x.path && e.record == x.value
    ensures Index(a[x.path := x.value], next)
  {
    var b := a[x.path := x.value];
    forall p | p in b
      ensures Owned(next, p)
    {
      if p == x.path {
        assert next.executions[|s.executions|].path == p;
      } else {
        assert Owned(s, p);
        if p.Evidence? {
          var k :| 0 <= k < |s.executions| && s.executions[k].path == p;
          assert next.executions[k].path == p;
        } else if p.ExecutionAttempt? {
          var i :| 0 <= i < |s.attempts| && s.attempts[i].failure.Some? && s.attempts[i].failure.value.path == p;
          assert next.attempts[i].failure.value.path == p;
        }
      }
    }
    forall k | 0 <= k < |next.executions|
      ensures ExecutionArchived(b, next.executions[k])
    {
      assert k < |s.executions| ==> ExecutionArchived(a, s.executions[k]);
    }
    forall i | 0 <= i < |next.attempts|
      ensures FailureArchived(b, next.attempts[i])
    {
      assert FailureArchived(a, s.attempts[i]);
    }
  }

  lemma {:induction false} SucceedPublishable(a: map<Path, Value>, s: State, op: Operation)
    requires Lineage(s) && Named(s) && Index(a, s) && op.Succeed? && Effects(s, op).Publish?
    ensures var e := Effects(s, op); Publishable(a, e.artifacts) && Index(Placed(a, e.artifacts), e.next)
  {
    hide Lineage, Index, Named, Effects;
    SucceedArtifact(s, op);
    var e := Effects(s, op);
    var x := e.artifacts[0];
    FreshEvidence(a, s, op);
    assert e.artifacts == [x] && e.artifacts[1..] == [];
    assert Placed(a, e.artifacts) == a[x.path := x.value];
    SucceedIndex(a, s, e.next, x, e.next.executions[|s.executions|]);
  }

  lemma {:induction false} OpeningIndex(a: map<Path, Value>, s: State, op: Operation)
    requires Index(a, s) && (op.Record? || op.Begin?) && Effects(s, op).Publish?
    ensures Effects(s, op).artifacts == [] && Index(a, Effects(s, op).next)
  {
    hide Opening;
    var next := Effects(s, op).next;
    assert next.executions == s.executions && |s.attempts| <= |next.attempts|;
    assert forall i :: 0 <= i < |s.attempts| ==> next.attempts[i].failure == s.attempts[i].failure;
    assert forall i :: |s.attempts| <= i < |next.attempts| ==> next.attempts[i].failure.None?;
    forall p | p in a
      ensures Owned(next, p)
    {
      assert Owned(s, p);
      if p.ExecutionAttempt? {
        var i :| 0 <= i < |s.attempts| && s.attempts[i].failure.Some? && s.attempts[i].failure.value.path == p;
        assert next.attempts[i].failure.value.path == p;
      }
    }
    forall i | 0 <= i < |next.attempts|
      ensures FailureArchived(a, next.attempts[i])
    {
      assert i < |s.attempts| ==> FailureArchived(a, s.attempts[i]);
    }
  }

  /** Every operation publishes artifacts at safe, free paths, and keeps the artifact index exact. */
  lemma {:induction false} OperationPublishable(a: map<Path, Value>, s: State, op: Operation)
    requires Lineage(s) && Named(s) && Index(a, s) && Effects(s, op).Publish?
    ensures var e := Effects(s, op); Publishable(a, e.artifacts) && Index(Placed(a, e.artifacts), e.next)
  {
    hide Lineage, Named, Index, Effects;
    match op
    case Fail(_, _, _) => FailPublishable(a, s, op);
    case Succeed(_, _, _, _, _) => SucceedPublishable(a, s, op);
    case Record(_, _, _) => OpeningIndex(a, s, op);
    case Begin(_, _, _, _, _) => OpeningIndex(a, s, op);
  }

  lemma {:induction false} OperationKeepsNames(s: State, op: Operation)
    requires Named(s) && DistinctIntents(s.intents) && OperationNamed(s, op) && Effects(s, op).Publish?
    ensures Named(Effects(s, op).next)
  {
    hide Opening, LatestOf, AttemptOf, ExecutionOf;
  }

  // ---------------------------------------------------------------- one call, interrupted anywhere

  /** What an operation publishes from a sound disk is sound. */
  lemma {:induction false} PublishedSound(t: Disk, op: Operation)
    requires Sound(t) && OperationNamed(Latest(t.generations).state, op)
    requires Effects(Latest(t.generations).state, op).Publish?
    ensures var e := Effects(Latest(t.generations).state, op);
      && Publishable(t.artifacts, e.artifacts) && Sound(Published(t, e.next, e.artifacts))
      && Latest(Published(t, e.next, e.artifacts).generations).state == e.next
      && |Published(t, e.next, e.artifacts).generations| == |t.generations| + 1
      && Retained(Latest(t.generations).state, e.next)
  {
    hide Historical, Effects, Index, Named, Publishable, Placed, Retained, Clean;
    var s := Latest(t.generations).state;
    var e := Effects(s, op);
    SoundLineage(t);
    OperationRetains(s, op);
    OperationPublishable(t.artifacts, s, op);
    OperationKeepsNames(s, op);
    PublishedClean(t, e.next, e.artifacts);
    JournalFresh(t, e.next, e.artifacts);
    HistoryExtends(t, e.next, e.artifacts);
  }

  lemma {:induction false} HistoryExtends(t: Disk, next: State, arts: seq<Artifact>)
    requires Clean(t) && HistoryOk(t.generations) && |t.generations| - 1 in t.generations
    requires Retained(Latest(t.generations).state, next) && Clean(Published(t, next, arts))
    ensures HistoryOk(Published(t, next, arts).generations)
  {
    hide Retained;
    JournalFresh(t, next, arts);
    var g, m := t.generations, |t.generations|;
    var h := Published(t, next, arts).generations;
    forall i: nat | 0 < i < |h|
      ensures Follows(h, i)
    {
      if i < m { assert Follows(g, i); }
    }
  }

  /** What an operation would publish from a sound disk, if it publishes at all. */
  function After(t: Disk, op: Operation): Disk
    requires |t.generations| > 0 && |t.generations| - 1 in t.generations
  {
    match Effects(Latest(t.generations).state, op)
    case Publish(next, arts) => Published(t, next, arts)
    case _ => t
  }

  lemma {:induction false} MisclassifiedRefused(s: State, op: Operation)
    requires Misclassified(op)
    ensures Effects(s, op).Refuse?
  {
  }

  /** An operation on a good disk, dying after any k of its writes, leaves a good disk: the published
      state is the old one or the whole new one. */
  lemma {:induction false} PerformSafe(d: Disk, expected: Option<Digest>, op: Operation, k: nat)
    requires Good(d) && OperationNamed(CurrentState(d), op) && k <= |PerformPlan(d, expected, op).writes|
    ensures var plan, t := PerformPlan(d, expected, op), Completed(d);
      var now := Replay(Apply, d, plan.writes[..k]);
      && |t.generations| > 0 && |t.generations| - 1 in t.generations
      && Good(now) && (Completed(now) == t || Completed(now) == After(t, op))
      && (k == |plan.writes| && plan.reply.Ok? ==> Completed(now) == After(t, op))
      && (plan.reply.Ok? <==> expected == Some(Digest(Latest(t.generations))) && !Effects(Latest(t.generations).state, op).Refuse?)
  {
    hide RecoverPlan, PublishPlan, Published, Partial, Sound, Effects, Apply, Index;
    var t := Completed(d);
    var plan := PerformPlan(d, expected, op);
    PartialIsGood(d, t);
    SoundClean(t);
    CleanTop(t);
    GoodOpens(d);
    SoundIsGood(t);
    var rec := RecoverPlan(d).writes;
    var s := Latest(t.generations).state;
    if Misclassified(op) {
      assert Effects(s, op).Refuse? by { MisclassifiedRefused(s, op); }
      assert plan.writes[..k] == [];
    } else if expected == Some(t.pointer.value.digest) && Effects(s, op).Publish? {
      var e := Effects(s, op);
      PublishedSound(t, op);
      var pub := PublishPlan(t, t.pointer, e.next, e.artifacts).writes;
      ReplayCut(Apply, d, rec, pub, k);
      var j := if k <= |rec| then 0 else k - |rec|;
      PublishAtomic(t, e.next, e.artifacts, j);
      PublishAtomic(t, e.next, e.artifacts, |pub|);
      assert pub[..|pub|] == pub;
      var now := Replay(Apply, d, plan.writes[..k]);
      if j > 0 {
        PartialIsGood(now, Published(t, e.next, e.artifacts));
      } else {
        PartialIsGood(now, t);
      }
    } else {
      PartialIsGood(Replay(Apply, d, rec[..k]), t);
      assert rec[..|rec|] == rec;
    }
  }

  // ---------------------------------------------------------------- runs

  /** One call: with the head its process believes current, and the writes it lives to make. */
  datatype Call = Call(expected: Option<Digest>, op: Operation, writes: nat)

  ghost function AfterCall(d: Disk, c: Call): Disk {
    var ws := PerformPlan(d, c.expected, c.op).writes;
    Replay(Apply, d, ws[..if c.writes < |ws| then c.writes else |ws|])
  }

  ghost function RunCalls(d: Disk, calls: seq<Call>): Disk
    decreases |calls|
  {
    if calls == [] then d else RunCalls(AfterCall(d, calls[0]), calls[1..])
  }

  lemma {:induction false} RetainedItself(t: Disk)
    requires Sound(t)
    ensures Retained(Latest(t.generations).state, Latest(t.generations).state)
  {
    hide Index, Clean, HistoryOk, Retained;
    StateRetainsItself(Latest(t.generations).state);
  }

  lemma {:induction false} StateRetainsItself(s: State)
    requires Historical(s)
    ensures Retained(s, s)
  {
    hide AttemptsOk, Superseded, Parented, AllIntended, StatusesFit, SuccessesFit, LastWith;
    NumberedDistinct(s.attempts);
    AttemptsGrow(s.attempts, s.attempts);
    IntentsGrow(s.intents, s.intents);
    ExecutionsGrow(s.executions, s.executions);
    UntouchedListsKept(s);
  }

  /** The ids in use: those recorded, and those the calls will record. */
  function NamesOf(s: State, calls: seq<Call>): set<(Key, LogicalId)> {
    (set k | 0 <= k < |s.intents| :: (s.intents[k].key, s.intents[k].logical))
    + (set i | 0 <= i < |calls| && calls[i].op.Record? :: (calls[i].op.key, calls[i].op.logical))
  }

  /** Every id is a safe file name and belongs to one key. */
  ghost predicate WellNamed(names: set<(Key, LogicalId)>) {
    && (forall p :: p in names ==> SafeId(p.1))
    && (forall p, q :: p in names && q in names && p.1 == q.1 ==> p.0 == q.0)
  }

  lemma {:induction false} CallNamed(s: State, calls: seq<Call>)
    requires calls != [] && WellNamed(NamesOf(s, calls))
    ensures OperationNamed(s, calls[0].op) && WellNamed(NamesOf(s, calls[1..]))
    ensures Effects(s, calls[0].op).Publish? ==> WellNamed(NamesOf(Effects(s, calls[0].op).next, calls[1..]))
  {
    hide SafeId, Effects;
    var op, names := calls[0].op, NamesOf(s, calls);
    assert forall k :: 0 <= k < |s.intents| ==> (s.intents[k].key, s.intents[k].logical) in names;
    assert op.Record? ==> (op.key, op.logical) in names;
    assert NamesOf(s, calls[1..]) <= names;
    if Effects(s, op).Publish? {
      IntentsNamed(s, op);
      assert NamesOf(Effects(s, op).next, calls[1..]) <= names;
    }
  }

  lemma {:induction false} IntentsNamed(s: State, op: Operation)
    requires Effects(s, op).Publish?
    ensures var next := Effects(s, op).next;
      forall k :: 0 <= k < |next.intents| ==>
        (k < |s.intents| && next.intents[k].key == s.intents[k].key && next.intents[k].logical == s.intents[k].logical)
        || (op.Record? && next.intents[k].key == op.key && next.intents[k].logical == op.logical)
  {
    hide Opening, LatestOf, AttemptOf, ExecutionOf;
  }

  lemma {:induction false} CallKeeps(d: Disk, calls: seq<Call>)
    requires Good(d) && calls != [] && WellNamed(NamesOf(CurrentState(d), calls))
    ensures var mid := AfterCall(d, calls[0]);
      && Good(mid) && WellNamed(NamesOf(CurrentState(mid), calls[1..])) && Retained(CurrentState(d), CurrentState(mid))
      && |Completed(d).generations| <= |Completed(mid).generations|
  {
    hide Good, PerformPlan, Completed, Retained, Effects, Published, Apply, WellNamed, NamesOf, OperationNamed;
    var c, t := calls[0], Completed(d);
    var ws := PerformPlan(d, c.expected, c.op).writes;
    CompletedSound(d);
    CallNamed(CurrentState(d), calls);
    PerformSafe(d, c.expected, c.op, if c.writes < |ws| then c.writes else |ws|);
    RetainedItself(t);
    if Completed(AfterCall(d, c)) != t { PublishedSound(t, c.op); }
  }

  /** Over any run of calls, each interrupted anywhere, that records intents under safe ids of their own: the disk
      always opens, its lineage and artifact index are exact, generations are never lost, and the final state
      retains the first one's history. */
  lemma {:induction false} RunSafe(d: Disk, calls: seq<Call>)
    requires Good(d) && WellNamed(NamesOf(CurrentState(d), calls))
    ensures var now := RunCalls(d, calls);
      && Good(now) && OpenPlan(now).reply.Ok? && LoadPlan(d).reply.Ok?
      && |Completed(d).generations| <= |Completed(now).generations|
      && Retained(LoadPlan(d).reply.value, OpenPlan(now).reply.value)
    decreases |calls|
  {
    hide Good, PerformPlan, OpenPlan, LoadPlan, Completed, Retained, WellNamed, NamesOf;
    GoodOpens(d);
    if calls == [] {
      CompletedSound(d);
      RetainedItself(Completed(d));
    } else {
      CallKeeps(d, calls);
      var mid := AfterCall(d, calls[0]);
      RunSafe(mid, calls[1..]);
      GoodOpens(mid);
      GoodOpens(RunCalls(d, calls));
      RetainedTransitive(LoadPlan(d).reply.value, LoadPlan(mid).reply.value, OpenPlan(RunCalls(d, calls)).reply.value);
    }
  }

  lemma {:induction false} CompletedSound(d: Disk)
    requires Good(d)
    ensures Sound(Completed(d))
  {
  }

  lemma {:induction false} FreshGood(header: string, run: string)
    ensures Good(FreshDisk(header, run)) && Sound(FreshDisk(header, run))
  {
    hide RecoverPlan;
    var d := FreshDisk(header, run);
    assert InPlace(d.generations, 0);
    SoundIsGood(d);
  }
}
