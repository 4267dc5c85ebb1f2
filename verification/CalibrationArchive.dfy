/** The calibration archive as a process over its directory. */
module CalibrationArchives {
  import opened CrashStop
  import opened Numbering
  import opened Options
  import opened CalibrationState
  import opened CalibrationLineage
  import opened CalibrationHistory
  import opened CalibrationPublication
  import opened CalibrationSessions

  lemma {:induction false} WritingStep(d: Disk, w: Write, ws: seq<Write>, checked: bool)
    requires !Blocked(d, w, checked)
    ensures Writing(d, [w] + ws, checked) ==
            var rest := Writing(Apply(d, w), ws, checked); Plan([w] + rest.writes, rest.reply)
  {
    assert ([w] + ws)[1..] == ws;
  }

  /** One write that survives, and then the rest of a plan. */
  lemma {:induction false} RanStep(d: Disk, w: Write, rest: Plan<Write, ()>, fuel: nat, reply: Reply<()>, after: Disk, left: nat)
    requires fuel > 0 && Ran(Apply, rest, Apply(d, w), fuel - 1, reply, after, left)
    ensures Ran(Apply, Plan([w] + rest.writes, rest.reply), d, fuel, reply, after, left)
  {
    hide Apply;
    ReplayOne(Apply, d, w);
    var u: () := ();
    RanThen(Apply, Plan([w], Ok(u)), rest, d, fuel, Apply(d, w), fuel - 1, reply, after, left);
  }

  lemma {:induction false} RanNothing<T>(d: Disk, reply: Reply<T>, fuel: nat)
    ensures Ran(Apply, Plan([], reply), d, fuel, reply, d, fuel)
  {
    hide Apply;
  }

  /** Dying before the first write of a plan. */
  lemma {:induction false} RanDead<T>(d: Disk, plan: Plan<Write, T>)
    requires plan.writes != []
    ensures Ran(Apply, plan, d, 0, Died, d, 0)
  {
    hide Apply;
    assert plan.writes[..0] == [];
  }

  /** What a walk over the first n generations has established. */
  ghost predicate Walked(g: map<nat, Envelope>, n: nat) {
    && (forall i: nat :: i < n ==> i in g && InPlace(g, i))
    && (forall i: nat :: 0 < i < n ==> Follows(g, i))
  }

  lemma {:induction false} WalkStart(g: map<nat, Envelope>)
    ensures Walked(g, 0)
  {
  }

  lemma {:induction false} WalkOn(g: map<nat, Envelope>, n: nat)
    requires Walked(g, n) && n in g && InPlace(g, n) && (n > 0 ==> Follows(g, n))
    ensures Walked(g, n + 1)
  {
    hide InPlace, Follows;
  }

  lemma {:induction false} WalkedAll(g: map<nat, Envelope>)
    requires Walked(g, |g|)
    ensures HistoryOk(g)
  {
    hide InPlace, Follows;
    Gapless(g);
  }

  lemma {:induction false} Breaks(g: map<nat, Envelope>, i: nat)
    requires i < |g| && (i !in g || !InPlace(g, i) || (0 < i && !Follows(g, i)))
    ensures !HistoryOk(g)
  {
    hide InPlace, Follows;
  }

  /** What the methods below are proved to run keeps the archive good, whenever the process dies;
      a successful reply means the operation's generation is published. */
  lemma {:induction false} PerformedSafe(d: Disk, fuel: nat, expected: Option<Digest>, op: Operation, r: Reply<()>, after: Disk, left: nat)
    requires Good(d) && OperationNamed(CurrentState(d), op) && Ran(Apply, PerformPlan(d, expected, op), d, fuel, r, after, left)
    ensures var t := Completed(d);
      && |t.generations| > 0 && |t.generations| - 1 in t.generations
      && Good(after) && (Completed(after) == t || Completed(after) == CalibrationSessions.After(t, op))
      && (r.Ok? ==> Completed(after) == CalibrationSessions.After(t, op))
  {
    hide Good, PerformPlan, Completed, Effects, Apply;
    var ws := PerformPlan(d, expected, op).writes;
    var k := if fuel < |ws| then fuel else |ws|;
    PerformSafe(d, expected, op, k);
    assert ws[..|ws|] == ws;
  }

  /** What a caller may rely on: a good archive stays good whenever the call is cut short, as it was or with the whole
      operation published, and the operation is published if the call succeeds. */
  ghost predicate Answered(before: Disk, op: Operation, r: Reply<()>, after: Disk) {
    Good(before) && OperationNamed(CurrentState(before), op) ==>
      && Good(after) && (Completed(after) == Completed(before) || Completed(after) == CalibrationSessions.After(Completed(before), op))
      && (r.Ok? ==> Completed(after) == CalibrationSessions.After(Completed(before), op))
  }

  lemma {:induction false} RanKeeps(d: Disk, fuel: nat, expected: Option<Digest>, op: Operation, r: Reply<()>, after: Disk, left: nat)
    requires Ran(Apply, PerformPlan(d, expected, op), d, fuel, r, after, left)
    ensures Answered(d, op, r, after)
  {
    hide PerformPlan, Completed, OperationNamed, Ran, Partial, StateOk, HistoryOk, Index;
    if Good(d) && OperationNamed(CurrentState(d), op) { PerformedSafe(d, fuel, expected, op, r, after, left); }
  }

  /** This campaign's state before anything happened. */
  predicate Untouched(s: State, header: string, run: string) {
    && s.header == header && s.run == run && s.status.Ready? && s.result.None?
    && s.intents == [] && s.attempts == [] && s.executions == [] && s.manifests == [] && s.assessments == [] && s.candidates == []
    && s.quarantined == [] && s.incidents == [] && s.completed == [] && s.visited == []
  }

  class CalibrationArchive {
    // the directory
    var artifacts: map<Path, Value>
    var transactions: map<nat, Journal>
    var generations: map<nat, Envelope>
    var pointer: Option<Head>

    // the process
    var state: Option<State>
    var head: Option<Head>
    var fuel: nat  // durable writes left before the process dies

    /** An archive just initialized. */
    constructor (header: string, run: string)
      ensures Good(Durable())
      ensures generations.Keys == {0} && artifacts == map[] && state == Some(generations[0].state) && Untouched(generations[0].state, header, run)
      ensures head == pointer == Some(Head(0, Digest(generations[0])))
    {
      var first := Fresh(header, run);
      var e := Envelope(0, None, first);
      artifacts, transactions, generations := map[], map[0 := Journal(e, [])], map[0 := e];
      pointer, state, head, fuel := Some(Head(0, Digest(e))), Some(first), Some(Head(0, Digest(e))), 0;
      new;
      FreshGood(header, run);
    }

    ghost function Durable(): Disk
      reads this
    {
      Disk(artifacts, transactions, generations, pointer)
    }

    ghost function Expected(): Option<Digest>
      reads this
    {
      if head.Some? then Some(head.value.digest) else None
    }

    /** One durable write of an immutable file, unless its path holds something else or the process dies first. */
    method Immutable(w: Write, checked: bool) returns (r: Reply<()>)
      modifies this
      ensures Ran(Apply, Writing(old(Durable()), [w], checked), old(Durable()), old(fuel), r, Durable(), fuel)
      ensures r.Ok? <==> !Blocked(old(Durable()), w, checked) && old(fuel) > 0
      ensures r.Ok? ==> Durable() == Apply(old(Durable()), w) && fuel == old(fuel) - 1
      ensures !r.Ok? ==> Durable() == old(Durable())
      ensures r.Died? ==> old(fuel) == 0 && !Blocked(old(Durable()), w, checked)
      ensures state == old(state) && head == old(head)
    {
      ghost var d := Durable();
      var blocked := match w
        case WJournal(n, j) => n in transactions && transactions[n] != j
        case WArtifact(p, v) => (checked && !Safe(p)) || (p in artifacts && artifacts[p] != v)
        case WGeneration(n, e) => n in generations && generations[n] != e
        case WPointer(_) => false;
      if blocked {
        RanNothing<()>(d, Refused, fuel);
        return Refused;
      }
      WritingStep(d, w, [], checked);
      assert [w] + [] == [w];
      assert Writing(Apply(d, w), [], checked) == Plan([], Ok(()));
      if fuel == 0 {
        RanDead(d, Writing(d, [w], checked));
        return Died;
      }
      fuel := fuel - 1;
      match w {
        case WJournal(n, j) => transactions := transactions[n := j];
        case WArtifact(p, v) => artifacts := artifacts[p := v];
        case WGeneration(n, e) => generations := generations[n := e];
        case WPointer(h) => pointer := Some(h);
      }
      ReplayOne(Apply, d, w);
      r := Ok(());
    }

    /** The artifacts of a publication in order, then its generation, then the pointer. */
    method Install(arts: seq<Artifact>, e: Envelope, checked: bool) returns (r: Reply<()>)
      modifies this
      ensures Ran(Apply, Writing(old(Durable()), Installing(arts, e), checked), old(Durable()), old(fuel), r, Durable(), fuel)
      ensures state == old(state) && head == old(head)
      decreases |arts|
    {
      hide Apply, Blocked;
      ghost var d, f := Durable(), fuel;
      var first := if arts == [] then WGeneration(e.generation, e) else WArtifact(arts[0].path, arts[0].value);
      r := Immutable(first, checked);
      ghost var rest := if arts == [] then [WPointer(Head(e.generation, Digest(e)))] else Installing(arts[1..], e);
      assert Installing(arts, e) == [first] + rest;
      if r.Ok? {
        WritingStep(d, first, rest, checked);
        ghost var d1, f1 := Durable(), fuel;
        if arts == [] {
          r := Immutable(WPointer(Head(e.generation, Digest(e))), checked);
        } else {
          r := Install(arts[1..], e, checked);
        }
        RanStep(d, first, Writing(d1, rest, checked), f, r, Durable(), fuel);
      } else if r.Died? {
        WritingStep(d, first, rest, checked);
        RanDead(d, Writing(d, Installing(arts, e), checked));
      }
    }

    method NewestTransaction() returns (n: nat)
      requires transactions != map[]
      ensures n == Greatest(transactions.Keys)
    {
      var left := transactions.Keys;
      n :| n in left;
      left := left - {n};
      while left != {}
        invariant left <= transactions.Keys && n in transactions
        invariant forall k :: k in transactions ==> k in left || k <= n
      {
        var k :| k in left;
        left := left - {k};
        if n < k { n := k; }
      }
    }

    method RecoverTransaction() returns (r: Reply<()>)
      modifies this
      ensures Ran(Apply, RecoverPlan(old(Durable())), old(Durable()), old(fuel), r, Durable(), fuel)
      ensures state == old(state) && head == old(head)
    {
      hide Ran;
      ghost var d := Durable();
      RanNothing<()>(d, Ok(()), fuel);
      RanNothing<()>(d, Refused, fuel);
      if transactions == map[] { return Ok(()); }
      var n := NewestTransaction();
      var j := transactions[n];
      var next := j.envelope;
      if next.generation != n || (|generations| != n && |generations| != n + 1) { return Refused; }
      if n > 0 {
        if n - 1 !in generations || next.parent != Some(Digest(generations[n - 1])) { return Refused; }
      }
      var digest := Digest(next);
      if pointer == Some(Head(n, digest)) { return Ok(()); }
      if pointer.Some? && (pointer.value.generation + 1 != n || Some(pointer.value.digest) != next.parent) { return Refused; }
      r := Install(j.artifacts, next, true);
    }

    /** Walks the generations in order, checking number, parent and retained history. */
    method History() returns (ok: bool)
      ensures ok <==> HistoryOk(generations)
    {
      hide Retained, HistoryOk, Walked;
      assert Walked(generations, 0) by { WalkStart(generations); }
      for index := 0 to |generations|
        invariant Walked(generations, index)
        invariant index > 0 ==> index - 1 in generations
      {
        if index !in generations {
          Breaks(generations, index);
          return false;
        }
        var body := generations[index];
        if body.generation != index || body.parent != (if index == 0 then None else Some(Digest(generations[index - 1]))) {
          Breaks(generations, index);
          return false;
        }
        if index > 0 && !Retained(generations[index - 1].state, body.state) {
          Breaks(generations, index);
          return false;
        }
        WalkOn(generations, index);
      }
      WalkedAll(generations);
      ok := true;
    }

    method LoadLocked() returns (r: Reply<State>)
      modifies this
      ensures Ran(Apply, LoadPlan(old(Durable())), old(Durable()), old(fuel), r, Durable(), fuel)
      ensures r.Ok? ==> state == Some(r.value) && head == pointer && Loads(Durable()) && r.value == Latest(generations).state
      ensures !r.Ok? ==> state == old(state) && head == old(head)
    {
      hide Apply, RecoverPlan, HistoryOk;
      ghost var d, f := Durable(), fuel;
      var recovered := RecoverTransaction();
      if !recovered.Ok? {
        r := if recovered.Died? then Died else Refused;
        LoadDied(d, f, recovered, Durable(), fuel);
        return;
      }
      RecoveredDisk(d, f, recovered, Durable(), fuel);
      var ok := History();
      if !ok || |generations| == 0 { return Refused; }
      var last := |generations| - 1;
      assert last in generations by { LastThere(generations); }
      if pointer != Some(Head(last, Digest(generations[last]))) { return Refused; }
      state, head := Some(generations[last].state), pointer;
      r := Ok(generations[last].state);
    }

    /** Journal first, then what it lists. */
    method Publish(next: State, arts: seq<Artifact>) returns (r: Reply<()>)
      modifies this
      ensures Ran(Apply, PublishPlan(old(Durable()), old(head), next, arts), old(Durable()), old(fuel), r, Durable(), fuel)
      ensures r.Ok? ==> state == Some(next) && head == Some(Head(Sealed(old(head), next).generation, Digest(Sealed(old(head), next))))
      ensures !r.Ok? ==> state == old(state) && head == old(head)
    {
      hide Apply, Blocked;
      ghost var d, f := Durable(), fuel;
      var envelope := if head.None? then Envelope(0, None, next) else Envelope(head.value.generation + 1, Some(head.value.digest), next);
      var journal := WJournal(envelope.generation, Journal(envelope, arts));
      ghost var rest := Installing(arts, envelope);
      r := Immutable(journal, false);
      if r.Ok? {
        WritingStep(d, journal, rest, false);
        ghost var d1, f1 := Durable(), fuel;
        r := Install(arts, envelope, false);
        RanStep(d, journal, Writing(d1, rest, false), f, r, Durable(), fuel);
        if r.Ok? { state, head := Some(next), Some(Head(envelope.generation, Digest(envelope))); }
      } else if r.Died? {
        WritingStep(d, journal, rest, false);
        RanDead(d, Writing(d, [journal] + rest, false));
      }
    }

    /** Opening: load, then check lineage and artifact index. */
    method Open() returns (r: Reply<State>)
      modifies this
      ensures Ran(Apply, OpenPlan(old(Durable())), old(Durable()), old(fuel), r, Durable(), fuel)
    {
      hide Apply, RecoverPlan, LoadPlan, SourceLineage, Index;
      ghost var d, f := Durable(), fuel;
      r := LoadLocked();
      ghost var loaded := r;
      if r.Ok? && (!SourceLineage(r.value) || !Index(artifacts, r.value)) { r := Refused; }
      Opened(d, f, loaded, Durable(), fuel);
    }

    /** Loads the current state for an operation, refusing a stale head. */
    method Current() returns (r: Reply<State>)
      modifies this
      ensures Ran(Apply, CurrentPlan(old(Durable()), old(Expected())), old(Durable()), old(fuel), r, Durable(), fuel)
      ensures r.Ok? ==> state == Some(r.value) && head == pointer
    {
      hide Apply, RecoverPlan, LoadPlan;
      ghost var d, f, expected := Durable(), fuel, Expected();
      var before := head;
      r := LoadLocked();
      ghost var loaded := r;
      if r.Ok? && (before.None? || before.value.digest != pointer.value.digest) { r := Refused; }
      CurrentRan(d, f, expected, loaded, Durable(), fuel);
    }

    method RecordExecutionIntent(key: Key, logical: LogicalId, request: string) returns (r: Reply<()>)
      modifies this
      ensures Ran(Apply, PerformPlan(old(Durable()), old(Expected()), Record(key, logical, request)), old(Durable()), old(fuel), r, Durable(), fuel)
      ensures Answered(old(Durable()), Record(key, logical, request), r, Durable())
    {
      hide Apply, CurrentPlan, PublishPlan, PerformPlan, Answered;
      ghost var d, f, expected, op := Durable(), fuel, Expected(), Record(key, logical, request);
      var s := Current();
      ghost var mid, midFuel := Durable(), fuel;
      if !s.Ok? {
        r := if s.Died? then Died else Refused;
        NotCurrent(d, f, expected, op, s, mid, midFuel);
        RanKeeps(d, f, expected, op, r, Durable(), fuel);
        return;
      }
      var next := s.value;
      var k := IntentOf(next.intents, key);
      if next.status.Complete? || next.status.FailedSearch? {
        r := Refused;
      } else if k < |next.intents| {
        r := if next.intents[k].logical == logical && next.intents[k].request == request then Ok(()) else Refused;
      } else {
        next := next.(intents := next.intents + [Intent(key, logical, request, Pending)]);
        r := Publish(next, []);
      }
      Performed(d, f, expected, op, mid, midFuel, s, r, Durable(), fuel);
      RanKeeps(d, f, expected, op, r, Durable(), fuel);
    }

    method BeginExecutionAttempt(key: Key, logical: LogicalId, request: string, recovering: bool, preflight: string) returns (r: Reply<()>)
      modifies this
      ensures Ran(Apply, PerformPlan(old(Durable()), old(Expected()), Begin(key, logical, request, recovering, preflight)),
                  old(Durable()), old(fuel), r, Durable(), fuel)
      ensures Answered(old(Durable()), Begin(key, logical, request, recovering, preflight), r, Durable())
    {
      hide Apply, CurrentPlan, PublishPlan, PerformPlan, Answered;
      ghost var d, f, expected, op := Durable(), fuel, Expected(), Begin(key, logical, request, recovering, preflight);
      var s := Current();
      ghost var mid, midFuel := Durable(), fuel;
      if !s.Ok? {
        r := if s.Died? then Died else Refused;
        NotCurrent(d, f, expected, op, s, mid, midFuel);
        RanKeeps(d, f, expected, op, r, Durable(), fuel);
        return;
      }
      var next := s.value;
      var k := IntentOf(next.intents, key);
      var prior := LatestOf(next.attempts, key);
      var last := if prior.Some? then next.attempts[prior.value].Last() else Pending;
      if key in next.completed || k == |next.intents| || next.intents[k].logical != logical || next.intents[k].request != request {
        r := Refused;
      } else if prior.Some? && Active(last) {
        r := Ok(());
      } else if prior.Some? && (last.FailedTerminal? || last.Succeeded?) {
        r := Refused;
      } else {
        var id := AttemptId(next.run, key, CountOf(next.attempts, key));
        var attempts := next.attempts;
        if prior.Some? { attempts := attempts[prior.value := attempts[prior.value].(next := Some(id))]; }
        var initial := if recovering || prior.Some? then Recovering else Pending;
        var parent := if prior.Some? then Some(next.attempts[prior.value].id) else None;
        var attempt := Attempt(id, key, logical, parent, request, preflight, Opening(initial), None, None, None);
        var status := if initial.Recovering? then Recovering else Running;
        next := next.(attempts := attempts + [attempt], intents := next.intents[k := next.intents[k].(status := status)]);
        r := Publish(next, []);
      }
      Performed(d, f, expected, op, mid, midFuel, s, r, Durable(), fuel);
      RanKeeps(d, f, expected, op, r, Durable(), fuel);
    }

    method RecordExecutionAttemptFailure(id: AttemptId, classification: Classification, boundary: Option<string>) returns (r: Reply<()>)
      modifies this
      ensures Ran(Apply, PerformPlan(old(Durable()), old(Expected()), Fail(id, classification, boundary)), old(Durable()), old(fuel), r, Durable(), fuel)
      ensures Answered(old(Durable()), Fail(id, classification, boundary), r, Durable())
    {
      hide Apply, CurrentPlan, PublishPlan, PerformPlan, Answered;
      ghost var d, f, expected, op := Durable(), fuel, Expected(), Fail(id, classification, boundary);
      if classification.ParameterFailure? || classification.AcceptedConfiguration? {
        MisclassifiedPlan(d, f, expected, op);
        RanKeeps(d, f, expected, op, Refused, Durable(), fuel);
        return Refused;
      }
      var s := Current();
      ghost var mid, midFuel := Durable(), fuel;
      if !s.Ok? {
        r := if s.Died? then Died else Refused;
        NotCurrent(d, f, expected, op, s, mid, midFuel);
        RanKeeps(d, f, expected, op, r, Durable(), fuel);
        return;
      }
      var next := s.value;
      var n := AttemptOf(next.attempts, id);
      if n == |next.attempts| || !next.attempts[n].Last().Running? {
        r := Refused;
      } else {
        var item := next.attempts[n];
        var k := IntentOf(next.intents, item.key);
        if k == |next.intents| {
          r := Refused;
        } else {
          var disposition := FailureState(classification, boundary);
          var reported := if boundary.Some? then boundary.value else "ADAPTER_FAILURE_RETURNED";
          item := item.(transitions := item.transitions + [Transition(|item.transitions|, disposition, reported)]);
          var record := FailureRecord(item.id, item.key, item.logical, item.parent, next.intents[k].request, item.preflight,
                                      item.transitions, classification);
          var path := ExecutionAttempt(id);
          item := item.(failure := Some(Failure(path, record)));
          next := next.(attempts := next.attempts[n := item],
                        intents := next.intents[k := next.intents[k].(status := disposition)]);
          if disposition.FailedTerminal? { next := next.(status := FailedSearch); }
          r := Publish(next, [Artifact(path, record)]);
        }
      }
      Performed(d, f, expected, op, mid, midFuel, s, r, Durable(), fuel);
      RanKeeps(d, f, expected, op, r, Durable(), fuel);
    }

    method RecordEvidence(key: Key, logical: LogicalId, id: AttemptId, record: Value, valid: bool) returns (r: Reply<()>)
      modifies this
      ensures Ran(Apply, PerformPlan(old(Durable()), old(Expected()), Succeed(key, logical, id, record, valid)), old(Durable()), old(fuel), r, Durable(), fuel)
      ensures Answered(old(Durable()), Succeed(key, logical, id, record, valid), r, Durable())
    {
      hide Apply, CurrentPlan, PublishPlan, PerformPlan, Answered;
      ghost var d, f, expected, op := Durable(), fuel, Expected(), Succeed(key, logical, id, record, valid);
      var s := Current();
      ghost var mid, midFuel := Durable(), fuel;
      if !s.Ok? {
        r := if s.Died? then Died else Refused;
        NotCurrent(d, f, expected, op, s, mid, midFuel);
        RanKeeps(d, f, expected, op, r, Durable(), fuel);
        return;
      }
      var next := s.value;
      var k, n := IntentOf(next.intents, key), AttemptOf(next.attempts, id);
      if next.status.Complete? {
        r := Refused;
      } else if ExecutionOf(next.executions, key) < |next.executions| {
        r := Ok(());
      } else if !valid || k == |next.intents| || next.intents[k].logical != logical || n == |next.attempts| ||
                next.attempts[n].key != key || !next.attempts[n].Last().Running? {
        r := Refused;
      } else {
        var path, item := Evidence(logical), next.attempts[n];
        item := item.(transitions := item.transitions + [Transition(|item.transitions|, Succeeded, "CANONICAL_EVIDENCE_ARCHIVED")]);
        item := item.(executionPath := Some(path));
        next := next.(attempts := next.attempts[n := item]);
        next := next.(executions := next.executions + [Execution(key, logical, id, path, record)]);
        next := next.(intents := next.intents[k := next.intents[k].(status := Succeeded)]);
        r := Publish(next, [Artifact(path, record)]);
      }
      Performed(d, f, expected, op, mid, midFuel, s, r, Durable(), fuel);
      RanKeeps(d, f, expected, op, r, Durable(), fuel);
    }
  }

  lemma {:induction false} Opened(d: Disk, fuel: nat, r: Reply<State>, after: Disk, left: nat)
    requires Ran(Apply, LoadPlan(d), d, fuel, r, after, left)
    ensures var checked: Reply<State> := if r.Ok? && !(SourceLineage(r.value) && Index(after.artifacts, r.value)) then Refused else r;
      Ran(Apply, OpenPlan(d), d, fuel, checked, after, left)
  {
    hide Apply, RecoverPlan, Loads, SourceLineage, Index;
  }

  lemma {:induction false} LoadDied(d: Disk, fuel: nat, recovered: Reply<()>, after: Disk, left: nat)
    requires Ran(Apply, RecoverPlan(d), d, fuel, recovered, after, left) && !recovered.Ok?
    ensures Ran(Apply, LoadPlan(d), d, fuel, if recovered.Died? then Died else Refused, after, left)
  {
    hide Apply, RecoverPlan, Loads;
    RecoverNeverDies(d);
  }

  lemma {:induction false} RecoverNeverDies(d: Disk)
    ensures !RecoverPlan(d).reply.Died?
  {
    if d.journals != map[] {
      var j := d.journals[Greatest(d.journals.Keys)];
      WritingNeverDies(d, Installing(j.artifacts, j.envelope), true);
    }
  }

  lemma {:induction false} WritingNeverDies(d: Disk, ws: seq<Write>, checked: bool)
    ensures !Writing(d, ws, checked).reply.Died?
    decreases |ws|
  {
    hide Apply, Blocked;
    if ws != [] { WritingNeverDies(Apply(d, ws[0]), ws[1..], checked); }
  }

  lemma {:induction false} RecoveredDisk(d: Disk, fuel: nat, recovered: Reply<()>, after: Disk, left: nat)
    requires Ran(Apply, RecoverPlan(d), d, fuel, recovered, after, left) && recovered.Ok?
    ensures RecoverPlan(d).reply.Ok? && after == Replay(Apply, d, RecoverPlan(d).writes)
    ensures |RecoverPlan(d).writes| <= fuel && left == fuel - |RecoverPlan(d).writes|
  {
  }

  lemma {:induction false} LastThere(g: map<nat, Envelope>)
    requires HistoryOk(g) && |g| > 0
    ensures |g| - 1 in g
  {
  }

  /** Loading, then comparing heads. */
  ghost function CurrentPlan(d: Disk, expected: Option<Digest>): Plan<Write, State> {
    var load := LoadPlan(d);
    if load.reply.Ok? && expected == Some(Replay(Apply, d, load.writes).pointer.value.digest) then load else Plan(load.writes, Refused)
  }

  lemma {:induction false} CurrentRan(d: Disk, fuel: nat, expected: Option<Digest>, loaded: Reply<State>, after: Disk, left: nat)
    requires Ran(Apply, LoadPlan(d), d, fuel, loaded, after, left) && (loaded.Ok? ==> Loads(after))
    ensures var r: Reply<State> := if loaded.Ok? && expected != Some(after.pointer.value.digest) then Refused else loaded;
      Ran(Apply, CurrentPlan(d, expected), d, fuel, r, after, left)
  {
    hide Apply, RecoverPlan, HistoryOk;
  }

  /** How an operation ends once the current state s is known. */
  ghost predicate Ends(op: Operation, mid: Disk, midFuel: nat, s: State, r: Reply<()>, after: Disk, left: nat) {
    match Effects(s, op)
    case Refuse => r.Refused? && after == mid && left == midFuel
    case Kept => r == Ok(()) && after == mid && left == midFuel
    case Publish(next, arts) => Ran(Apply, PublishPlan(mid, mid.pointer, next, arts), mid, midFuel, r, after, left)
  }

  lemma {:induction false} Performed(d: Disk, fuel: nat, expected: Option<Digest>, op: Operation, mid: Disk, midFuel: nat,
                                     s: Reply<State>, r: Reply<()>, after: Disk, left: nat)
    requires Ran(Apply, CurrentPlan(d, expected), d, fuel, s, mid, midFuel) && s.Ok? && !Misclassified(op)
    requires Ends(op, mid, midFuel, s.value, r, after, left)
    ensures Ran(Apply, PerformPlan(d, expected, op), d, fuel, r, after, left)
  {
    hide Apply, RecoverPlan, HistoryOk, Effects, PublishPlan;
    var load := LoadPlan(d);
    match Effects(s.value, op)
    case Refuse =>
    case Kept =>
    case Publish(next, arts) =>
      RanThen(Apply, load, PublishPlan(mid, mid.pointer, next, arts), d, fuel, mid, midFuel, r, after, left);
  }

  lemma {:induction false} MisclassifiedPlan(d: Disk, fuel: nat, expected: Option<Digest>, op: Operation)
    requires Misclassified(op)
    ensures Ran(Apply, PerformPlan(d, expected, op), d, fuel, Refused, d, fuel)
  {
    hide Apply;
    RanNothing<()>(d, Refused, fuel);
  }

  lemma {:induction false} NotCurrent(d: Disk, fuel: nat, expected: Option<Digest>, op: Operation, s: Reply<State>, after: Disk, left: nat)
    requires Ran(Apply, CurrentPlan(d, expected), d, fuel, s, after, left) && !s.Ok? && !Misclassified(op)
    ensures Ran(Apply, PerformPlan(d, expected, op), d, fuel, if s.Died? then Died else Refused, after, left)
  {
    hide Apply, RecoverPlan, HistoryOk, PublishPlan;
    var load := LoadPlan(d);
    RecoverNeverDies(d);
    if load.reply.Ok? && fuel < |load.writes| {
      var mid := Replay(Apply, d, load.writes);
      if expected == Some(mid.pointer.value.digest) && Effects(load.reply.value, op).Publish? {
        var e := Effects(load.reply.value, op);
        var pub := PublishPlan(mid, mid.pointer, e.next, e.artifacts);
        RanCut(Apply, load, pub.writes, pub.reply, d, fuel, after, left);
      }
    }
  }
}
