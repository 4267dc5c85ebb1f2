/** The calibration runner's coordinate search, and its reconstruction from archived candidates alone. */
module CalibrationSearch {
  import opened Options
  import opened CalibrationCandidates

  /** Parameter vectors and operations, by their canonical texts. */
  datatype Vector = Vector(text: string)
  datatype Move = Move(text: string)

  datatype Assessment = Assessment(violations: seq<int>, accepted: bool)

  /** The frozen search: its operations in order, what they do to a vector, what evaluating a vector
      yields, and its bounds. */
  datatype Protocol = Protocol(operations: seq<Move>, apply: (Vector, Move) -> Vector, evaluate: Vector -> Assessment,
                               rounds: nat, bound: nat, start: Vector)

  /** An archived candidate. */
  datatype Record = Record(round: nat, index: nat, parent: Vector, vector: Vector, operation: Move, assessment: Assessment)

  datatype Search = Search(round: nat, op: nat, improved: bool, incumbent: Vector, best: Option<Assessment>, records: seq<Record>)

  function Start(p: Protocol): Search { Search(0, 0, false, p.start, None, []) }

  /** The baseline operation is tried in the first round only. */
  function RoundOps(p: Protocol, round: nat): (ops: seq<Move>)
    ensures |ops| <= |p.operations|
  {
    if round == 0 || p.operations == [] then p.operations else p.operations[1..]
  }

  predicate Seen(records: seq<Record>, v: Vector) { exists i :: 0 <= i < |records| && records[i].vector == v }

  predicate AnyAccepted(records: seq<Record>) { exists i :: 0 <= i < |records| && records[i].assessment.accepted }

  predicate Improves(a: Assessment, best: Option<Assessment>) {
    best.None? || (|a.violations| == |best.value.violations| && Better(a.violations, best.value.violations))
  }

  /** The search after candidate v, reached by o, was archived with assessment a. */
  function Recorded(s: Search, v: Vector, o: Move, a: Assessment): Search {
    var admitted := Improves(a, s.best);
    Search(s.round, s.op + 1, s.improved || admitted, if admitted then v else s.incumbent, if admitted then Some(a) else s.best,
           s.records + [Record(s.round, |s.records|, s.incumbent, v, o, a)])
  }

  predicate RoundStops(s: Search) { AnyAccepted(s.records) || !s.improved }

  function NextRound(s: Search): Search { s.(round := s.round + 1, op := 0, improved := false) }

  /** One step of the uninterrupted search; None when it is over. */
  function Next(p: Protocol, s: Search): Option<Search> {
    if s.round >= p.rounds then None
    else if s.op >= |RoundOps(p, s.round)| then if RoundStops(s) then None else Some(NextRound(s))
    else if |s.records| >= p.bound then None
    else
      var o := RoundOps(p, s.round)[s.op];
      var v := p.apply(s.incumbent, o);
      if Seen(s.records, v) then Some(s.(op := s.op + 1)) else Some(Recorded(s, v, o, p.evaluate(v)))
  }

  function RoundsLeft(p: Protocol, s: Search): nat { if s.round < p.rounds then p.rounds - s.round else 0 }
  function OpsLeft(p: Protocol, s: Search): nat { if s.op < |p.operations| then |p.operations| - s.op else 0 }

  function Finish(p: Protocol, s: Search): Search
    decreases RoundsLeft(p, s), OpsLeft(p, s)
  {
    match Next(p, s)
    case None => s
    case Some(t) => Finish(p, t)
  }

  /** The candidates an uninterrupted search archives. */
  function Whole(p: Protocol): seq<Record> { Finish(p, Start(p)).records }

  // ---------------------------------------------------------------- the runner's loop

  /** The search from where it was left: rounds, and operations within a round. */
  method Run(p: Protocol, resume: Search) returns (records: seq<Record>)
    ensures records == Finish(p, resume).records
  {
    hide Seen, Improves;
    var round: nat, op: nat, improved := resume.round, resume.op, resume.improved;
    var incumbent, best := resume.incumbent, resume.best;
    records := resume.records;
    while round < p.rounds
      invariant Finish(p, resume) == Finish(p, Search(round, op, improved, incumbent, best, records))
      decreases p.rounds - round
    {
      var operations := RoundOps(p, round);
      while op < |operations|
        invariant Finish(p, resume) == Finish(p, Search(round, op, improved, incumbent, best, records))
      {
        if |records| >= p.bound { return; }
        var candidate := p.apply(incumbent, operations[op]);
        if !Seen(records, candidate) {
          var assessment := p.evaluate(candidate);
          records := records + [Record(round, |records|, incumbent, candidate, operations[op], assessment)];
          if Improves(assessment, best) { incumbent, best, improved := candidate, Some(assessment), true; }
        }
        op := op + 1;
      }
      if AnyAccepted(records) || !improved { return; }
      round, op, improved := round + 1, 0, false;
    }
  }

  // ---------------------------------------------------------------- reconstruction

  datatype Restored = Refused | Restored(complete: bool, at: Search)

  /** Replaying archived records against the enumeration; `last` is the search right after the last record. */
  function Rebuild(p: Protocol, records: seq<Record>, s: Search, last: Search): Restored
    decreases RoundsLeft(p, s), OpsLeft(p, s)
  {
    if s.round >= p.rounds then Ended(records, s, last)
    else if s.op >= |RoundOps(p, s.round)| then
      if RoundStops(s) then Ended(records, s, last) else Rebuild(p, records, NextRound(s), last)
    else
      var o := RoundOps(p, s.round)[s.op];
      var v := p.apply(s.incumbent, o);
      if Seen(s.records, v) then Rebuild(p, records, s.(op := s.op + 1), last)
      else if |s.records| >= p.bound then Ended(records, s, last)
      else if |s.records| >= |records| then Restored(false, last)
      else
        var r := records[|s.records|];
        var t := Recorded(s, v, o, r.assessment);
        if r != t.records[|s.records|] then Refused else Rebuild(p, records, t, t)
  }

  function Ended(records: seq<Record>, s: Search, last: Search): Restored {
    if |s.records| == |records| then Restored(true, last) else Refused
  }

  function Reconstructed(p: Protocol, records: seq<Record>): Restored { Rebuild(p, records, Start(p), Start(p)) }

  /** The reconstruction loop: no saved cursor or incumbent is trusted. */
  method Reconstruct(p: Protocol, archived: seq<Record>) returns (r: Restored)
    ensures r == Reconstructed(p, archived)
  {
    var last := Start(p);
    var incumbent, assessment, cursor := p.start, None, 0;
    var seen: seq<Record> := [];
    var round := 0;
    while round < p.rounds
      invariant Reconstructed(p, archived) == Rebuild(p, archived, Search(round, 0, false, incumbent, assessment, seen), last)
      invariant cursor == |seen|
    {
      var improved, op := false, 0;
      var operations := RoundOps(p, round);
      while op < |operations|
        invariant Reconstructed(p, archived) == Rebuild(p, archived, Search(round, op, improved, incumbent, assessment, seen), last)
        invariant cursor == |seen|
      {
        var candidate := p.apply(incumbent, operations[op]);
        if !Seen(seen, candidate) {
          if cursor >= p.bound { return if cursor == |archived| then Restored(true, last) else Refused; }
          if cursor >= |archived| { return Restored(false, last); }
          var record := archived[cursor];
          if record.round != round || record.index != cursor || record.parent != incumbent || record.vector != candidate ||
             record.operation != operations[op] {
            return Refused;
          }
          seen := seen + [record];
          cursor := cursor + 1;
          if Improves(record.assessment, assessment) { incumbent, assessment, improved := candidate, Some(record.assessment), true; }
          last := Search(round, op + 1, improved, incumbent, assessment, seen);
        }
        op := op + 1;
      }
      if AnyAccepted(seen) || !improved { return if cursor == |archived| then Restored(true, last) else Refused; }
      round := round + 1;
    }
    return if cursor == |archived| then Restored(true, last) else Refused;
  }

  // ---------------------------------------------------------------- resuming yields the uninterrupted search

  /** Steps only ever append records. */
  lemma {:induction false} FinishExtends(p: Protocol, s: Search)
    ensures s.records <= Finish(p, s).records
    decreases RoundsLeft(p, s), OpsLeft(p, s)
  {
    match Next(p, s)
    case None =>
    case Some(t) => FinishExtends(p, t);
  }

  /** With the bound reached nothing more is archived, whatever is still enumerated. */
  lemma {:induction false} NothingBeyondBound(p: Protocol, s: Search)
    requires |s.records| >= p.bound
    ensures Finish(p, s).records == s.records
    decreases RoundsLeft(p, s), OpsLeft(p, s)
  {
    match Next(p, s)
    case None =>
    case Some(t) => NothingBeyondBound(p, t);
  }

  /** Passing over a seen vector does not change what will be archived. */
  lemma {:induction false} SkipSeen(p: Protocol, s: Search)
    requires s.round < p.rounds && s.op < |RoundOps(p, s.round)|
    requires Seen(s.records, p.apply(s.incumbent, RoundOps(p, s.round)[s.op]))
    ensures Finish(p, s.(op := s.op + 1)).records == Finish(p, s).records
  {
    if |s.records| >= p.bound {
      NothingBeyondBound(p, s);
      NothingBeyondBound(p, s.(op := s.op + 1));
    }
  }

  /** Reconstructing a prefix of what the search archives succeeds, and leads back to that search. */
  lemma {:induction false} RebuildPrefix(p: Protocol, records: seq<Record>, s: Search, last: Search)
    requires s.records <= records <= Finish(p, s).records
    requires last.records == s.records && Finish(p, last).records == Finish(p, s).records
    ensures var r := Rebuild(p, records, s, last);
      && r.Restored? && r.at.records == records && Finish(p, r.at).records == Finish(p, s).records
      && (r.complete <==> records == Finish(p, s).records)
    decreases RoundsLeft(p, s), OpsLeft(p, s)
  {
    hide RoundStops, Seen, Improves;
    if s.round < p.rounds {
      if s.op >= |RoundOps(p, s.round)| {
        if !RoundStops(s) { RebuildPrefix(p, records, NextRound(s), last); }
      } else {
        var o := RoundOps(p, s.round)[s.op];
        var v := p.apply(s.incumbent, o);
        if Seen(s.records, v) {
          SkipSeen(p, s);
          RebuildPrefix(p, records, s.(op := s.op + 1), last);
        } else if |s.records| >= p.bound {
          NothingBeyondBound(p, s);
        } else {
          var t := Recorded(s, v, o, p.evaluate(v));
          FinishExtends(p, t);
          if |s.records| < |records| {
            assert records[|s.records|] == Finish(p, s).records[|s.records|] == t.records[|s.records|];
            RebuildPrefix(p, records, t, t);
          }
        }
      }
    }
  }

  /** Only prefixes are accepted, given that the archived assessments are those evaluation yields. */
  lemma {:induction false} RebuildOnlyPrefix(p: Protocol, records: seq<Record>, s: Search, last: Search)
    requires s.records <= records && Rebuild(p, records, s, last).Restored?
    requires forall i :: 0 <= i < |records| ==> records[i].assessment == p.evaluate(records[i].vector)
    ensures records <= Finish(p, s).records
    decreases RoundsLeft(p, s), OpsLeft(p, s)
  {
    FinishExtends(p, s);
    if s.round < p.rounds {
      if s.op >= |RoundOps(p, s.round)| {
        if !RoundStops(s) { RebuildOnlyPrefix(p, records, NextRound(s), last); }
      } else {
        var o := RoundOps(p, s.round)[s.op];
        var v := p.apply(s.incumbent, o);
        if Seen(s.records, v) {
          SkipSeen(p, s);
          RebuildOnlyPrefix(p, records, s.(op := s.op + 1), last);
        } else if |s.records| < p.bound && |s.records| < |records| {
          var t := Recorded(s, v, o, records[|s.records|].assessment);
          assert t == Recorded(s, v, o, p.evaluate(v));
          RebuildOnlyPrefix(p, records, t, t);
        }
      }
    }
  }

  /** Reconstruction accepts exactly the prefixes of the uninterrupted search, says whether the search is
      over, and the search resumed from it archives exactly the rest. */
  lemma {:induction false} ResumeEquivalence(p: Protocol, records: seq<Record>)
    ensures records <= Whole(p) ==>
      var r := Reconstructed(p, records);
      && r.Restored? && r.at.records == records && Finish(p, r.at).records == Whole(p) && (r.complete <==> records == Whole(p))
    ensures (forall i :: 0 <= i < |records| ==> records[i].assessment == p.evaluate(records[i].vector)) ==>
      (Reconstructed(p, records).Restored? <==> records <= Whole(p))
  {
    hide Rebuild, Finish;
    if records <= Whole(p) { RebuildPrefix(p, records, Start(p), Start(p)); }
    if (forall i :: 0 <= i < |records| ==> records[i].assessment == p.evaluate(records[i].vector)) && Reconstructed(p, records).Restored? {
      RebuildOnlyPrefix(p, records, Start(p), Start(p));
    }
  }

  /** What is archived after a run per entry of `cuts`, each reconstructing, resuming, and dying after that
      many more candidates. */
  function Interrupted(p: Protocol, records: seq<Record>, cuts: seq<nat>): seq<Record>
    decreases |cuts|
  {
    if cuts == [] then records
    else
      var r := Reconstructed(p, records);
      if r.Refused? then records
      else
        var full := Finish(p, r.at).records;
        var n := |records| + cuts[0];
        Interrupted(p, if n < |full| then full[..n] else full, cuts[1..])
  }

  function Added(cuts: seq<nat>): nat
    decreases |cuts|
  {
    if cuts == [] then 0 else cuts[0] + Added(cuts[1..])
  }

  /** However often the search is interrupted, what is archived is a prefix of the uninterrupted search, as long as the
      runs together could make it, and one more run without interruption completes it. */
  lemma {:induction false} InterruptionsHarmless(p: Protocol, records: seq<Record>, cuts: seq<nat>)
    requires records <= Whole(p)
    ensures var now := Interrupted(p, records, cuts);
      && records <= now <= Whole(p)
      && |now| == (if |records| + Added(cuts) < |Whole(p)| then |records| + Added(cuts) else |Whole(p)|)
      && Reconstructed(p, now).Restored? && Finish(p, Reconstructed(p, now).at).records == Whole(p)
    decreases |cuts|
  {
    hide Reconstructed, Finish;
    ResumeEquivalence(p, records);
    if cuts != [] {
      var full := Whole(p);
      var n := |records| + cuts[0];
      InterruptionsHarmless(p, if n < |full| then full[..n] else full, cuts[1..]);
    }
  }

  // ---------------------------------------------------------------- what a search archives

  ghost predicate Ordered(p: Protocol, s: Search) {
    && |s.records| <= p.bound
    && (forall i, j :: 0 <= i < j < |s.records| ==> s.records[i].vector != s.records[j].vector)
    && (forall i :: 0 <= i < |s.records| ==> s.records[i].index == i && s.records[i].round < p.rounds)
    && (forall i :: 0 <= i < |s.records| ==> s.records[i].assessment == p.evaluate(s.records[i].vector))
    && s.best == BestOf(s.records)
  }

  /** The assessment of the incumbent after the given records. */
  function BestOf(records: seq<Record>): Option<Assessment> {
    if records == [] then None
    else
      var k := |records| - 1;
      var before := BestOf(records[..k]);
      if Improves(records[k].assessment, before) then Some(records[k].assessment) else before
  }

  lemma {:induction false} RecordedOrdered(p: Protocol, s: Search, v: Vector, o: Move)
    requires Ordered(p, s) && !Seen(s.records, v) && |s.records| < p.bound && s.round < p.rounds
    ensures Ordered(p, Recorded(s, v, o, p.evaluate(v)))
  {
    hide Improves;
    var k, t := |s.records|, Recorded(s, v, o, p.evaluate(v));
    assert t.records[..k] == s.records;
    assert forall i :: 0 <= i < k ==> t.records[i] == s.records[i];
    assert BestOf(t.records) == t.best;
  }

  lemma {:induction false} StepOrdered(p: Protocol, s: Search)
    requires Ordered(p, s) && Next(p, s).Some?
    ensures Ordered(p, Next(p, s).value)
  {
    hide BestOf, Improves;
    if s.op < |RoundOps(p, s.round)| {
      var o := RoundOps(p, s.round)[s.op];
      var v := p.apply(s.incumbent, o);
      if !Seen(s.records, v) { RecordedOrdered(p, s, v, o); }
    }
  }

  lemma {:induction false} FinishOrdered(p: Protocol, s: Search)
    requires Ordered(p, s)
    ensures Ordered(p, Finish(p, s))
    decreases RoundsLeft(p, s), OpsLeft(p, s)
  {
    hide Ordered;
    match Next(p, s)
    case None =>
    case Some(t) =>
      StepOrdered(p, s);
      FinishOrdered(p, t);
  }

  /** The search evaluates no vector twice, keeps its bound, and numbers its candidates. */
  lemma {:induction false} WholeOrdered(p: Protocol)
    ensures |Whole(p)| <= p.bound
    ensures forall i, j :: 0 <= i < j < |Whole(p)| ==> Whole(p)[i].vector != Whole(p)[j].vector
    ensures forall i :: 0 <= i < |Whole(p)| ==> Whole(p)[i].index == i && Whole(p)[i].round < p.rounds
    ensures forall i :: 0 <= i < |Whole(p)| ==> Whole(p)[i].assessment == p.evaluate(Whole(p)[i].vector)
    ensures Finish(p, Start(p)).best == BestOf(Whole(p))
  {
    hide Finish;
    FinishOrdered(p, Start(p));
  }

  ghost predicate Comparable(p: Protocol, metrics: nat) {
    forall v :: |p.evaluate(v).violations| == metrics && forall i :: 0 <= i < metrics ==> p.evaluate(v).violations[i] >= 0
  }

  ghost predicate AtLeastAsGood(a: Assessment, b: Assessment) {
    a == b || (|a.violations| == |b.violations| && Better(a.violations, b.violations))
  }

  lemma {:induction false} BestEvaluated(p: Protocol, records: seq<Record>)
    requires forall i :: 0 <= i < |records| ==> records[i].assessment == p.evaluate(records[i].vector)
    ensures records != [] ==> BestOf(records).Some? && exists i :: 0 <= i < |records| && BestOf(records) == Some(p.evaluate(records[i].vector))
  {
    if records != [] {
      BestEvaluated(p, records[..|records| - 1]);
    }
  }

  /** Every incumbent beats every earlier one; in particular a metric once without violation stays so. */
  lemma {:induction false} IncumbentsImprove(p: Protocol, metrics: nat, records: seq<Record>, n: nat)
    requires Comparable(p, metrics) && 0 < n <= |records|
    requires forall i :: 0 <= i < |records| ==> records[i].assessment == p.evaluate(records[i].vector)
    ensures BestOf(records[..n]).Some? && BestOf(records).Some?
    ensures AtLeastAsGood(BestOf(records).value, BestOf(records[..n]).value)
    ensures |BestOf(records).value.violations| == |BestOf(records[..n]).value.violations| == metrics
    ensures forall i :: 0 <= i < metrics && BestOf(records[..n]).value.violations[i] == 0 ==> BestOf(records).value.violations[i] == 0
  {
    hide BestOf, Better;
    BestEvaluated(p, records);
    BestEvaluated(p, records[..n]);
    if n == |records| {
      assert records[..n] == records;
    } else {
      var k := |records| - 1;
      IncumbentsImprove(p, metrics, records[..k], n);
      assert records[..k][..n] == records[..n];
      BestStep(records);
      BestEvaluated(p, records[..k]);
      var a, b, c := records[k].assessment.violations, BestOf(records[..k]).value.violations, BestOf(records[..n]).value.violations;
      assert Comparable(p, metrics);
      BetterIsStrictOrder(a, b, c);
      if Improves(records[k].assessment, BestOf(records[..k])) { BetterKeepsZeros(a, b); }
    }
  }

  lemma {:induction false} BestStep(records: seq<Record>)
    requires records != []
    ensures var k := |records| - 1;
      BestOf(records) == if Improves(records[k].assessment, BestOf(records[..k])) then Some(records[k].assessment) else BestOf(records[..k])
  {
  }

  lemma {:induction false} BetterKeepsZeros(a: seq<int>, b: seq<int>)
    requires |a| == |b| && Better(a, b) && forall i :: 0 <= i < |a| ==> a[i] >= 0
    ensures forall i :: 0 <= i < |b| && b[i] == 0 ==> a[i] == 0
  {
  }

  // ---------------------------------------------------------------- the incumbent of the running search

  /** The search after n steps; it stays where it stops. */
  function StepsOf(p: Protocol, n: nat): Search {
    if n == 0 then Start(p)
    else
      var s := StepsOf(p, n - 1);
      if Next(p, s).Some? then Next(p, s).value else s
  }

  lemma {:induction false} StepsOrdered(p: Protocol, n: nat)
    ensures Ordered(p, StepsOf(p, n))
  {
    hide Ordered, Next;
    if n > 0 {
      StepsOrdered(p, n - 1);
      if Next(p, StepsOf(p, n - 1)).Some? { StepOrdered(p, StepsOf(p, n - 1)); }
    } else {
      assert Ordered(p, Start(p)) by { StartOrdered(p); }
    }
  }

  lemma {:induction false} StartOrdered(p: Protocol)
    ensures Ordered(p, Start(p))
  {
  }

  lemma {:induction false} StepsGrow(p: Protocol, m: nat, n: nat)
    requires m <= n
    ensures StepsOf(p, m).records <= StepsOf(p, n).records
    decreases n
  {
    hide Improves, Seen, RoundStops;
    if m < n { StepsGrow(p, m, n - 1); }
  }

  /** Enough steps reach the end of the search. */
  lemma {:induction false} StepsFinish(p: Protocol, k: nat) returns (n: nat)
    ensures n >= k && StepsOf(p, n) == Finish(p, StepsOf(p, k)) && Next(p, StepsOf(p, n)).None?
    decreases RoundsLeft(p, StepsOf(p, k)), OpsLeft(p, StepsOf(p, k))
  {
    hide Improves, Seen, RoundStops;
    if Next(p, StepsOf(p, k)).None? { return k; }
    n := StepsFinish(p, k + 1);
  }

  /** As the search runs, its incumbent's assessment only gets better, and a metric once without violation stays so. */
  lemma {:induction false} SearchImproves(p: Protocol, metrics: nat, m: nat, n: nat)
    requires Comparable(p, metrics) && m <= n && StepsOf(p, m).best.Some?
    ensures StepsOf(p, n).best.Some?
    ensures var before, after := StepsOf(p, m).best.value, StepsOf(p, n).best.value;
      && AtLeastAsGood(after, before) && |before.violations| == |after.violations| == metrics
      && forall i :: 0 <= i < metrics && before.violations[i] == 0 ==> after.violations[i] == 0
  {
    hide Next, Comparable, AtLeastAsGood;
    StepsOrdered(p, m);
    StepsOrdered(p, n);
    StepsGrow(p, m, n);
    var records, k := StepsOf(p, n).records, |StepsOf(p, m).records|;
    assert records[..k] == StepsOf(p, m).records;
    IncumbentsImprove(p, metrics, records, k);
  }
}
