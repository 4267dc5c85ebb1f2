/** What a calibration archive that loads or opens is known to be, on any disk whatever: the checks, read off the files. */
module CalibrationChecks {
  import opened CrashStop
  import opened Options
  import opened CalibrationState
  import opened CalibrationLineage
  import opened CalibrationHistory
  import opened CalibrationPublication
  import opened CalibrationSessions

  // ---------------------------------------------------------------- recovery

  /** What the newest journal holds may stand at its place: it is the next generation or the last one, after the one it names. */
  ghost predicate Placeable(d: Disk, n: nat, e: Envelope) {
    && e.generation == n && n <= |d.generations| <= n + 1
    && (n == 0 || (n - 1 in d.generations && e.parent == Some(Digest(d.generations[n - 1]))))
  }

  ghost predicate PointsAt(d: Disk, n: nat, e: Envelope) {
    d.pointer.Some? && d.pointer.value.generation == n && d.pointer.value.digest == Digest(e)
  }

  /** The pointer is missing, or names the generation before and the digest this one has as its parent. */
  ghost predicate PointsBefore(d: Disk, n: nat, e: Envelope) {
    d.pointer.Some? ==> n == d.pointer.value.generation + 1 && e.parent == Some(d.pointer.value.digest)
  }

  /** The writes that carry out a publication: its artifacts in order, the generation, and then the pointer to it. */
  ghost predicate CarriesOut(ws: seq<Write>, arts: seq<Artifact>, e: Envelope) {
    && |ws| == |arts| + 2
    && (forall i :: 0 <= i < |arts| ==> ws[i] == WArtifact(arts[i].path, arts[i].value))
    && ws[|arts|] == WGeneration(e.generation, e) && ws[|arts| + 1] == WPointer(Head(e.generation, Digest(e)))
  }

  lemma {:induction false} InstallingCarriesOut(arts: seq<Artifact>, e: Envelope)
    ensures CarriesOut(Installing(arts, e), arts, e)
  {
    if arts != [] { InstallingCarriesOut(arts[1..], e); }
  }

  lemma {:induction false} WrittenThrough(d: Disk, ws: seq<Write>, checked: bool)
    ensures var p := Writing(d, ws, checked);
      && p.writes <= ws && (p.reply.Ok? <==> p.writes == ws) && (p.reply.Ok? || p.reply == Refused)
    decreases |ws|
  {
    hide Blocked;
    if ws != [] && !Blocked(d, ws[0], checked) { WrittenThrough(Apply(d, ws[0]), ws[1..], checked); }
  }

  /** Recovery writes nothing unless the newest journal may stand at its place and is not pointed at yet; it then writes what
      the journal holds, in order, and answers only when that is all there. */
  lemma {:induction false} RecoverChecked(d: Disk, n: nat)
    requires n in d.journals && forall m :: m in d.journals ==> m <= n
    ensures var p, e, arts := RecoverPlan(d), d.journals[n].envelope, d.journals[n].artifacts;
      && (p.reply.Ok? ==> Placeable(d, n, e) && (PointsAt(d, n, e) || PointsBefore(d, n, e)))
      && (Placeable(d, n, e) && PointsAt(d, n, e) ==> p == Plan([], Ok(())))
      && (Placeable(d, n, e) && !PointsAt(d, n, e) && PointsBefore(d, n, e) ==>
            exists ws :: CarriesOut(ws, arts, e) && p.writes <= ws && (p.reply.Ok? <==> p.writes == ws))
      && (!(Placeable(d, n, e) && (PointsAt(d, n, e) || PointsBefore(d, n, e))) ==> p == Plan([], Refused))
  {
    hide Installing, Writing, CarriesOut;
    assert Greatest(d.journals.Keys) == n;
    InstallingCarriesOut(d.journals[n].artifacts, d.journals[n].envelope);
    WrittenThrough(d, Installing(d.journals[n].artifacts, d.journals[n].envelope), true);
  }

  // ---------------------------------------------------------------- retained history

  /** The last entry of this identity stands at place j. */
  ghost predicate LastNamed<T, K>(xs: seq<T>, key: T -> K, k: K, j: nat) {
    j < |xs| && key(xs[j]) == k && forall m :: j < m < |xs| ==> key(xs[m]) != k
  }

  lemma {:induction false} LastWithIs<T, K>(xs: seq<T>, key: T -> K, k: K)
    ensures LastWith(xs, key, k).Some? <==> exists j: nat :: LastNamed(xs, key, k, j)
    ensures forall j: nat :: LastNamed(xs, key, k, j) ==> LastWith(xs, key, k) == Some(xs[j])
  {
    if xs != [] {
      var n := |xs| - 1;
      LastWithIs(xs[..n], key, k);
      if key(xs[n]) == k {
        assert LastNamed(xs, key, k, n);
      } else {
        forall j: nat
          ensures LastNamed(xs, key, k, j) <==> LastNamed(xs[..n], key, k, j)
        {
        }
      }
    }
  }

  /** Every entry is, unchanged, the last one of its identity. */
  ghost predicate AllKept<T, K>(prior: seq<T>, next: seq<T>, key: T -> K) {
    forall i :: 0 <= i < |prior| ==> KeptAs(next, key, prior[i])
  }

  ghost predicate KeptAs<T, K>(next: seq<T>, key: T -> K, x: T) {
    exists j: nat :: LastNamed(next, key, key(x), j) && next[j] == x
  }

  lemma {:induction false} KeepsAll<T, K>(prior: seq<T>, next: seq<T>, key: T -> K)
    ensures Keeps(prior, next, key) <==> AllKept(prior, next, key)
  {
    forall i | 0 <= i < |prior|
      ensures KeptAs(next, key, prior[i]) <==> LastWith(next, key, key(prior[i])) == Some(prior[i])
    {
      LastWithIs(next, key, key(prior[i]));
    }
    if AllKept(prior, next, key) {
      forall x | x in prior
        ensures LastWith(next, key, key(x)) == Some(x)
      {
        var i :| 0 <= i < |prior| && prior[i] == x;
        assert KeptAs(next, key, prior[i]);
      }
    }
    if Keeps(prior, next, key) {
      assert forall i :: 0 <= i < |prior| ==> prior[i] in prior;
    }
  }

  /** The attempt is still what it was, with all its transitions, and with the successor it had if it had one. */
  ghost predicate AttemptKept(a: Attempt, b: Attempt) {
    && b.id == a.id && b.key == a.key && b.logical == a.logical && b.parent == a.parent && b.request == a.request && b.preflight == a.preflight
    && |a.transitions| <= |b.transitions| && (forall t :: 0 <= t < |a.transitions| ==> b.transitions[t] == a.transitions[t])
    && (a.next.Some? ==> b.next == a.next)
  }

  /** The intent is still what it was, and its status has stayed, or moved on from one that may. */
  ghost predicate IntentKept(a: Intent, b: Intent) {
    && b.key == a.key && b.logical == a.logical && b.request == a.request
    && (b.status != a.status ==> a.status != Succeeded && a.status != FailedTerminal && b.status != Pending)
  }

  ghost predicate AttemptFollowed(next: seq<Attempt>, a: Attempt) {
    exists j: nat :: LastNamed(next, (x: Attempt) => x.id, a.id, j) && AttemptKept(a, next[j])
  }

  ghost predicate IntentFollowed(next: seq<Intent>, a: Intent) {
    exists j: nat :: LastNamed(next, (x: Intent) => x.key, a.key, j) && IntentKept(a, next[j])
  }

  lemma {:induction false} AttemptsFollowed(prior: seq<Attempt>, next: seq<Attempt>)
    ensures AttemptsRetained(prior, next) <==> forall i :: 0 <= i < |prior| ==> AttemptFollowed(next, prior[i])
  {
    forall i | 0 <= i < |prior|
      ensures AttemptFollowed(next, prior[i]) <==>
        var b := LastWith(next, (x: Attempt) => x.id, prior[i].id); b.Some? && AttemptRetained(prior[i], b.value)
    {
      OneAttemptFollowed(prior[i], next);
    }
    if forall i :: 0 <= i < |prior| ==> AttemptFollowed(next, prior[i]) {
      forall a | a in prior
        ensures var b := LastWith(next, (x: Attempt) => x.id, a.id); b.Some? && AttemptRetained(a, b.value)
      {
        var i :| 0 <= i < |prior| && prior[i] == a;
        assert AttemptFollowed(next, prior[i]);
      }
    }
    assert forall i :: 0 <= i < |prior| ==> prior[i] in prior;
  }

  lemma {:induction false} OneAttemptFollowed(a: Attempt, next: seq<Attempt>)
    ensures AttemptFollowed(next, a) <==> var b := LastWith(next, (x: Attempt) => x.id, a.id); b.Some? && AttemptRetained(a, b.value)
  {
    LastWithIs(next, (x: Attempt) => x.id, a.id);
    forall b
      ensures AttemptKept(a, b) <==> AttemptRetained(a, b)
    {
      if AttemptKept(a, b) { assert b.transitions[..|a.transitions|] == a.transitions; }
    }
  }

  lemma {:induction false} IntentsFollowed(prior: seq<Intent>, next: seq<Intent>)
    ensures IntentsRetained(prior, next) <==> forall i :: 0 <= i < |prior| ==> IntentFollowed(next, prior[i])
  {
    forall i | 0 <= i < |prior|
      ensures IntentFollowed(next, prior[i]) <==>
        var b := LastWith(next, (x: Intent) => x.key, prior[i].key); b.Some? && IntentRetained(prior[i], b.value)
    {
      LastWithIs(next, (x: Intent) => x.key, prior[i].key);
    }
    if forall i :: 0 <= i < |prior| ==> IntentFollowed(next, prior[i]) {
      forall a | a in prior
        ensures var b := LastWith(next, (x: Intent) => x.key, a.key); b.Some? && IntentRetained(a, b.value)
      {
        var i :| 0 <= i < |prior| && prior[i] == a;
        assert IntentFollowed(next, prior[i]);
      }
    }
    assert forall i :: 0 <= i < |prior| ==> prior[i] in prior;
  }

  /** Nothing signed is lost: the campaign is the same, every retained entry is unchanged, attempts and intents only went on,
      completed keys, visited vectors and the result stay. */
  ghost predicate NothingLost(prior: State, next: State) {
    && next.header == prior.header && next.run == prior.run
    && AllKept(prior.executions, next.executions, (x: Execution) => x.key)
    && AllKept(prior.quarantined, next.quarantined, (x: Entry) => x.id)
    && AllKept(prior.manifests, next.manifests, (x: Entry) => x.id)
    && AllKept(prior.assessments, next.assessments, (x: Entry) => x.id)
    && AllKept(prior.candidates, next.candidates, (x: Entry) => x.id)
    && AllKept(prior.incidents, next.incidents, (x: Entry) => x)
    && (forall i :: 0 <= i < |prior.attempts| ==> AttemptFollowed(next.attempts, prior.attempts[i]))
    && (forall i :: 0 <= i < |prior.intents| ==> IntentFollowed(next.intents, prior.intents[i]))
    && (forall i :: 0 <= i < |prior.completed| ==> prior.completed[i] in next.completed)
    && (forall i :: 0 <= i < |prior.visited| ==> prior.visited[i] in next.visited)
    && (prior.result != None ==> next.result == prior.result)
  }

  lemma {:induction false} RetainedMeans(prior: State, next: State)
    ensures Retained(prior, next) <==> NothingLost(prior, next)
  {
    KeepsAll(prior.executions, next.executions, (x: Execution) => x.key);
    KeepsAll(prior.quarantined, next.quarantined, (x: Entry) => x.id);
    KeepsAll(prior.manifests, next.manifests, (x: Entry) => x.id);
    KeepsAll(prior.assessments, next.assessments, (x: Entry) => x.id);
    KeepsAll(prior.candidates, next.candidates, (x: Entry) => x.id);
    KeepsAll(prior.incidents, next.incidents, (x: Entry) => x);
    AttemptsFollowed(prior.attempts, next.attempts);
    IntentsFollowed(prior.intents, next.intents);
    hide Keeps, AllKept, AttemptsRetained, IntentsRetained, AttemptFollowed, IntentFollowed;
    assert (forall k :: k in prior.completed ==> k in next.completed) <==> forall i :: 0 <= i < |prior.completed| ==> prior.completed[i] in next.completed by {
      assert forall i :: 0 <= i < |prior.completed| ==> prior.completed[i] in prior.completed;
    }
    assert (forall v :: v in prior.visited ==> v in next.visited) <==> forall i :: 0 <= i < |prior.visited| ==> prior.visited[i] in next.visited by {
      assert forall i :: 0 <= i < |prior.visited| ==> prior.visited[i] in prior.visited;
    }
  }

  // ---------------------------------------------------------------- loading and opening

  /** Generation i is there under its number, after the one it names, and loses nothing of it. */
  ghost predicate FollowsOn(g: map<nat, Envelope>, i: nat) {
    && i in g && g[i].generation == i
    && (i == 0 ==> g[i].parent == None)
    && (i > 0 ==> i - 1 in g && g[i].parent == Some(Digest(g[i - 1])) && NothingLost(g[i - 1].state, g[i].state))
  }

  /** What loads is the state of the last generation, the one on record as current, of a chain that loses nothing. */
  lemma {:induction false} LoadChecked(d: Disk)
    requires LoadPlan(d).reply.Ok?
    ensures var g, s := Replay(Apply, d, LoadPlan(d).writes), LoadPlan(d).reply.value;
      && RecoverPlan(d).reply.Ok? && LoadPlan(d).writes == RecoverPlan(d).writes
      && (forall i: nat :: i in g.generations <==> i < |g.generations|) && |g.generations| > 0
      && (forall i: nat :: i < |g.generations| ==> FollowsOn(g.generations, i))
      && s == g.generations[|g.generations| - 1].state
      && g.pointer == Some(Head(|g.generations| - 1, Digest(g.generations[|g.generations| - 1])))
  {
    hide RecoverPlan, Retained, NothingLost;
    var t := Replay(Apply, d, LoadPlan(d).writes);
    forall i: nat | i < |t.generations|
      ensures FollowsOn(t.generations, i)
    {
      assert InPlace(t.generations, i);
      if i > 0 {
        assert Follows(t.generations, i);
        RetainedMeans(t.generations[i - 1].state, t.generations[i].state);
      }
    }
  }

  /** How keys, intents, attempts and executions of an opened archive belong together. */
  ghost predicate WellOrdered(s: State) {
    && (forall j, k :: 0 <= j < k < |s.intents| ==> s.intents[j].key != s.intents[k].key)
    && (forall i, j :: 0 <= i < j < |s.attempts| ==> s.attempts[i].id != s.attempts[j].id)
    && (forall i, j :: 0 <= i < j < |s.executions| ==> s.executions[i].key != s.executions[j].key)
    && (forall k :: 0 <= k < |s.intents| ==> (s.intents[k].status == Succeeded <==> Executed(s, s.intents[k].key)))
    && (forall e :: 0 <= e < |s.executions| ==> OnlySuccess(s, e))
    && (forall n :: 0 <= n < |s.attempts| ==> Belongs(s, s.attempts[n]) && Told(s.attempts[n]))
    && (forall i, j :: 0 <= i < j < |s.attempts| && s.attempts[i].key == s.attempts[j].key ==> !Open(s.attempts[i]) || !Open(s.attempts[j]))
  }

  /** The attempt has begun and not ended. */
  predicate Open(a: Attempt) { a.Last() in {Pending, Dispatching, Running, Recovering} }

  ghost predicate Executed(s: State, key: Key) { exists e :: 0 <= e < |s.executions| && s.executions[e].key == key }

  /** The execution is of the one attempt of its key that succeeded, and the key has an intent. */
  ghost predicate OnlySuccess(s: State, e: nat)
    requires e < |s.executions|
  {
    && (exists n :: 0 <= n < |s.attempts| && s.attempts[n].id == s.executions[e].attempt && s.attempts[n].key == s.executions[e].key
                    && s.attempts[n].Last() == Succeeded)
    && (forall n :: 0 <= n < |s.attempts| && s.attempts[n].key == s.executions[e].key && s.attempts[n].Last() == Succeeded ==>
          s.attempts[n].id == s.executions[e].attempt)
    && (exists k :: 0 <= k < |s.intents| && s.intents[k].key == s.executions[e].key)
  }

  /** The attempt carries out the intent of its key, follows one that is there, and is executed if it succeeded. */
  ghost predicate Belongs(s: State, a: Attempt) {
    && (exists k :: 0 <= k < |s.intents| && s.intents[k].key == a.key && s.intents[k].logical == a.logical && s.intents[k].request == a.request)
    && (a.parent.Some? ==> exists n :: 0 <= n < |s.attempts| && Some(s.attempts[n].id) == a.parent)
    && (a.Last() == Succeeded ==> Executed(s, a.key))
  }

  /** Its transitions are numbered, and it names a failure record exactly when it failed, and evidence if it succeeded. */
  ghost predicate Told(a: Attempt) {
    && |a.transitions| > 0 && (forall t :: 0 <= t < |a.transitions| ==> a.transitions[t].sequence == t)
    && (a.Last() in {Quarantined, FailedRetryable, FailedTerminal} <==> a.failure.Some?)
    && (a.Last() == Succeeded ==> a.executionPath.Some?)
    && (a.failure.Some? ==> a.failure.value.path == ExecutionAttempt(a.id) && a.failure.value.record.FailureRecord?
                            && a.failure.value.record.attempt == a.id && a.failure.value.record.transitions == a.transitions
                            && a.failure.value.record.key == a.key && a.failure.value.record.logical == a.logical
                            && a.failure.value.record.parent == a.parent && a.failure.value.record.request == a.request
                            && a.failure.value.record.preflight == a.preflight)
  }

  lemma {:induction false} LineageOrdered(s: State)
    requires SourceLineage(s)
    ensures WellOrdered(s)
  {
    forall e | 0 <= e < |s.executions|
      ensures OnlySuccess(s, e)
    {
      ExecutionOnly(s, e);
    }
    forall n | 0 <= n < |s.attempts|
      ensures Belongs(s, s.attempts[n]) && Told(s.attempts[n])
    {
      AttemptBelongs(s, n);
    }
    forall k | 0 <= k < |s.intents|
      ensures s.intents[k].status == Succeeded <==> Executed(s, s.intents[k].key)
    {
      IntentExecuted(s, k);
    }
    hide OnlySuccess, Belongs, Told, Executed, AttemptHasIntent, AttemptHasParent, SuccessIsExecuted, Disposed, SuccessHasExecution, ExecutionHasSuccess;
  }

  lemma {:induction false} AttemptBelongs(s: State, n: nat)
    requires SourceLineage(s) && n < |s.attempts|
    ensures Belongs(s, s.attempts[n]) && Told(s.attempts[n])
  {
    assert AttemptHasIntent(s.intents, s.attempts[n]) && Disposed(s.attempts[n]) && SuccessIsExecuted(s.executions, s.attempts[n]);
    assert AttemptHasParent(s.attempts, s.attempts[n]);
    hide SourceLineage;
  }

  lemma {:induction false} IntentExecuted(s: State, k: nat)
    requires SourceLineage(s) && k < |s.intents|
    ensures s.intents[k].status == Succeeded <==> Executed(s, s.intents[k].key)
  {
    assert SuccessHasExecution(s.executions, s.intents[k]) && DistinctIntents(s.intents);
    if Executed(s, s.intents[k].key) {
      var e :| 0 <= e < |s.executions| && s.executions[e].key == s.intents[k].key;
      assert ExecutionHasSuccess(s.intents, s.attempts, s.executions[e]);
      var j :| 0 <= j < |s.intents| && s.intents[j].key == s.executions[e].key && s.intents[j].status.Succeeded?;
      assert j == k;
    }
  }

  lemma {:induction false} ExecutionOnly(s: State, e: nat)
    requires SourceLineage(s) && e < |s.executions|
    ensures OnlySuccess(s, e)
  {
    assert ExecutionHasSuccess(s.intents, s.attempts, s.executions[e]);
    forall n | 0 <= n < |s.attempts| && s.attempts[n].key == s.executions[e].key && s.attempts[n].Last() == Succeeded
      ensures s.attempts[n].id == s.executions[e].attempt
    {
      assert SuccessIsExecuted(s.executions, s.attempts[n]);
    }
  }

  /** Every evidence file is an execution's, every failure record an attempt's, and what those name is there as they say. */
  ghost predicate NoOrphan(a: map<Path, Value>, s: State) {
    && (forall p :: p in a && p.Evidence? ==> exists e :: 0 <= e < |s.executions| && s.executions[e].path == p)
    && (forall p :: p in a && p.ExecutionAttempt? ==>
          exists n :: 0 <= n < |s.attempts| && s.attempts[n].failure.Some? && s.attempts[n].failure.value.path == p)
    && (forall e :: 0 <= e < |s.executions| ==> s.executions[e].path in a && a[s.executions[e].path] == s.executions[e].record)
    && (forall n :: 0 <= n < |s.attempts| && s.attempts[n].failure.Some? ==>
          s.attempts[n].failure.value.path in a && a[s.attempts[n].failure.value.path] == s.attempts[n].failure.value.record)
  }

  /** What opens is what loads, in good order, and neither lacks an artifact nor has one too many. */
  lemma {:induction false} OpenChecked(d: Disk)
    ensures OpenPlan(d).reply.Ok? ==>
      && OpenPlan(d) == LoadPlan(d) && WellOrdered(LoadPlan(d).reply.value)
      && NoOrphan(Replay(Apply, d, LoadPlan(d).writes).artifacts, LoadPlan(d).reply.value)
  {
    hide LoadPlan, WellOrdered, SourceLineage;
    if OpenPlan(d).reply.Ok? {
      LineageOrdered(LoadPlan(d).reply.value);
      IndexNoOrphan(Replay(Apply, d, LoadPlan(d).writes).artifacts, LoadPlan(d).reply.value);
    }
  }

  lemma {:induction false} IndexNoOrphan(a: map<Path, Value>, s: State)
    requires Index(a, s)
    ensures NoOrphan(a, s)
  {
    assert forall p :: p in a ==> Owned(s, p);
    assert forall e :: 0 <= e < |s.executions| ==> ExecutionArchived(a, s.executions[e]);
    assert forall n :: 0 <= n < |s.attempts| ==> FailureArchived(a, s.attempts[n]);
  }
}
