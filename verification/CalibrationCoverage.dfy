/** What the search tries: from which vectors, in which order, and that nothing the enumeration holds is left out. */
module CalibrationCoverage {
  import opened Options
  import opened CalibrationCandidates
  import opened CalibrationSearch

  // ---------------------------------------------------------------- read off the records

  /** The vector the records lead to: that of the last one that beat everything before it. */
  function IncumbentOf(p: Protocol, records: seq<Record>): Vector {
    if records == [] then p.start
    else
      var k := |records| - 1;
      if Improves(records[k].assessment, BestOf(records[..k])) then records[k].vector else IncumbentOf(p, records[..k])
  }

  /** Some candidate of this round beat everything before it. */
  ghost predicate Improved(records: seq<Record>, round: nat) {
    exists j :: 0 <= j < |records| && records[j].round == round && Improves(records[j].assessment, BestOf(records[..j]))
  }

  ghost predicate AcceptedBy(records: seq<Record>, round: nat) {
    exists j :: 0 <= j < |records| && records[j].round <= round && records[j].assessment.accepted
  }

  predicate Earlier(r: nat, i: nat, round: nat, op: nat) { r < round || (r == round && i < op) }

  /** The operations of a round: all of them in the first, all but the baseline later. */
  predicate Enumerated(p: Protocol, round: nat, op: nat) { op < |p.operations| && (round > 0 ==> op > 0) }

  /** Every record was made by the operation at its place, from the incumbent of its time. */
  ghost predicate Placed(p: Protocol, records: seq<Record>, at: seq<nat>) {
    && |at| == |records|
    && (forall n :: 0 <= n < |records| ==> MadeAt(p, records, n, at[n]))
    && (forall m, n :: 0 <= m < n < |records| ==> Earlier(records[m].round, at[m], records[n].round, at[n]))
  }

  ghost predicate MadeAt(p: Protocol, records: seq<Record>, n: nat, op: nat)
    requires n < |records|
  {
    && Enumerated(p, records[n].round, op) && records[n].operation == p.operations[op]
    && records[n].parent == IncumbentOf(p, records[..n])
    && records[n].vector == p.apply(records[n].parent, records[n].operation)
  }

  /** The operation was recorded in this round, or led from the incumbent to a vector already archived. */
  ghost predicate Tried(p: Protocol, records: seq<Record>, at: seq<nat>, round: nat, op: nat)
    requires |at| == |records| && op < |p.operations|
  {
    exists n :: 0 <= n <= |records| && TriedAt(p, records, at, round, op, n)
  }

  ghost predicate TriedAt(p: Protocol, records: seq<Record>, at: seq<nat>, round: nat, op: nat, n: nat)
    requires |at| == |records| && op < |p.operations| && n <= |records|
  {
    && (forall m :: 0 <= m < |records| ==> (m < n <==> Earlier(records[m].round, at[m], round, op)))
    && (|| (n < |records| && records[n].round == round && at[n] == op)
        || Seen(records[..n], p.apply(IncumbentOf(p, records[..n]), p.operations[op])))
  }

  // ---------------------------------------------------------------- kept by every step

  /** The place the search has come to. */
  function Place(s: Search): nat { if s.round > 0 then s.op + 1 else s.op }

  ghost predicate Reached(p: Protocol, s: Search, at: seq<nat>) {
    && |at| == |s.records| && Placed(p, s.records, at)
    && s.incumbent == IncumbentOf(p, s.records) && s.best == BestOf(s.records)
    && (s.improved <==> Improved(s.records, s.round))
    && (s.op > 0 ==> Place(s) <= |p.operations|) && s.round <= p.rounds
    && (forall n :: 0 <= n < |s.records| ==> Earlier(s.records[n].round, at[n], s.round, Place(s)))
    && (forall r, i :: Enumerated(p, r, i) && Earlier(r, i, s.round, Place(s)) ==> Tried(p, s.records, at, r, i))
    && (forall r: nat :: r < s.round ==> Improved(s.records, r) && !AcceptedBy(s.records, r))
  }

  lemma {:induction false} TriedStays(p: Protocol, records: seq<Record>, at: seq<nat>, x: Record, op: nat, round: nat, i: nat)
    requires |at| == |records| && i < |p.operations| && Tried(p, records, at, round, i) && Earlier(round, i, x.round, op)
    ensures Tried(p, records + [x], at + [op], round, i)
  {
    hide IncumbentOf, Seen;
    var n :| 0 <= n <= |records| && TriedAt(p, records, at, round, i, n);
    assert (records + [x])[..n] == records[..n];
    assert TriedAt(p, records + [x], at + [op], round, i, n);
  }

  lemma {:induction false} PlacedStays(p: Protocol, records: seq<Record>, at: seq<nat>, x: Record, op: nat)
    requires Placed(p, records, at) && Enumerated(p, x.round, op) && x.operation == p.operations[op]
    requires x.parent == IncumbentOf(p, records) && x.vector == p.apply(x.parent, x.operation)
    requires forall n :: 0 <= n < |records| ==> Earlier(records[n].round, at[n], x.round, op)
    ensures Placed(p, records + [x], at + [op])
  {
    hide IncumbentOf;
    var more := records + [x];
    assert more[..|records|] == records;
    forall n | 0 <= n < |more|
      ensures MadeAt(p, more, n, (at + [op])[n])
    {
      if n < |records| {
        assert more[..n] == records[..n];
        assert MadeAt(p, records, n, at[n]);
      }
    }
  }

  lemma {:induction false} ImprovedStays(records: seq<Record>, x: Record, round: nat)
    ensures Improved(records + [x], round) <==>
      Improved(records, round) || (x.round == round && Improves(x.assessment, BestOf(records)))
    ensures AcceptedBy(records + [x], round) <==> AcceptedBy(records, round) || (x.round <= round && x.assessment.accepted)
  {
    hide BestOf, Improves;
    var more := records + [x];
    assert more[..|records|] == records && more[|records|] == x;
    assert forall j :: 0 <= j < |records| ==> more[j] == records[j] && more[..j] == records[..j];
  }

  /** A candidate is archived: its operation is recorded at its place. */
  lemma {:induction false} RecordReached(p: Protocol, s: Search, at: seq<nat>)
    requires Reached(p, s, at) && s.round < p.rounds && Place(s) < |p.operations|
    requires var v := p.apply(s.incumbent, p.operations[Place(s)]); !Seen(s.records, v)
    ensures var o := p.operations[Place(s)];
      Reached(p, Recorded(s, p.apply(s.incumbent, o), o, p.evaluate(p.apply(s.incumbent, o))), at + [Place(s)])
  {
    hide Improves, IncumbentOf, BestOf, Seen;
    var o := p.operations[Place(s)];
    var v := p.apply(s.incumbent, o);
    var t := Recorded(s, v, o, p.evaluate(v));
    var x := t.records[|s.records|];
    assert t.records == s.records + [x];
    PlacedStays(p, s.records, at, x, Place(s));
    LastIncumbent(p, s.records, x);
    ImprovedStays(s.records, x, s.round);
    forall r: nat | r < t.round
      ensures Improved(t.records, r) && !AcceptedBy(t.records, r)
    {
      ImprovedStays(s.records, x, r);
    }
    forall r, i | Enumerated(p, r, i) && Earlier(r, i, t.round, Place(t))
      ensures Tried(p, t.records, at + [Place(s)], r, i)
    {
      if Earlier(r, i, s.round, Place(s)) {
        TriedStays(p, s.records, at, x, Place(s), r, i);
      } else {
        assert TriedAt(p, t.records, at + [Place(s)], r, i, |s.records|);
      }
    }
  }

  lemma {:induction false} LastIncumbent(p: Protocol, records: seq<Record>, x: Record)
    ensures IncumbentOf(p, records + [x]) == if Improves(x.assessment, BestOf(records)) then x.vector else IncumbentOf(p, records)
    ensures BestOf(records + [x]) == if Improves(x.assessment, BestOf(records)) then Some(x.assessment) else BestOf(records)
  {
    hide Improves;
    assert (records + [x])[..|records|] == records;
  }

  /** A vector already archived is passed over. */
  lemma {:induction false} SkipReached(p: Protocol, s: Search, at: seq<nat>)
    requires Reached(p, s, at) && Place(s) < |p.operations| && Seen(s.records, p.apply(s.incumbent, p.operations[Place(s)]))
    ensures Reached(p, s.(op := s.op + 1), at)
  {
    hide Placed, IncumbentOf, BestOf, Improved, AcceptedBy, Seen;
    var t := s.(op := s.op + 1);
    forall r, i | Enumerated(p, r, i) && Earlier(r, i, t.round, Place(t))
      ensures Tried(p, t.records, at, r, i)
    {
      if !Earlier(r, i, s.round, Place(s)) {
        assert s.records[..|s.records|] == s.records;
        assert TriedAt(p, s.records, at, r, i, |s.records|);
      }
    }
  }

  /** A round is over and another one follows. */
  lemma {:induction false} RoundReached(p: Protocol, s: Search, at: seq<nat>)
    requires Reached(p, s, at) && s.round < p.rounds && Place(s) >= |p.operations| && !RoundStops(s)
    ensures Reached(p, NextRound(s), at)
  {
    hide Placed, IncumbentOf, BestOf, Improves, Tried;
    var t := NextRound(s);
    assert !Improved(t.records, t.round);
    forall r, i | Enumerated(p, r, i) && Earlier(r, i, t.round, Place(t))
      ensures Tried(p, t.records, at, r, i)
    {
      assert Earlier(r, i, s.round, Place(s));
    }
  }

  /** The place in the list an enumeration step stands for. */
  lemma {:induction false} StepPlace(p: Protocol, s: Search)
    ensures s.op < |RoundOps(p, s.round)| <==> Place(s) < |p.operations|
    ensures s.op < |RoundOps(p, s.round)| ==> RoundOps(p, s.round)[s.op] == p.operations[Place(s)]
  {
  }

  lemma {:induction false} StepReached(p: Protocol, s: Search, at: seq<nat>) returns (more: seq<nat>)
    requires Reached(p, s, at) && Next(p, s).Some?
    ensures Reached(p, Next(p, s).value, more)
  {
    hide Reached, RoundOps, Improves, RoundStops, Seen;
    StepPlace(p, s);
    more := at;
    if s.op >= |RoundOps(p, s.round)| {
      RoundReached(p, s, at);
    } else if Seen(s.records, p.apply(s.incumbent, p.operations[Place(s)])) {
      SkipReached(p, s, at);
    } else {
      RecordReached(p, s, at);
      more := at + [Place(s)];
    }
  }

  lemma {:induction false} FinishReached(p: Protocol, s: Search, at: seq<nat>) returns (more: seq<nat>)
    requires Reached(p, s, at)
    ensures Reached(p, Finish(p, s), more) && Next(p, Finish(p, s)).None?
    decreases RoundsLeft(p, s), OpsLeft(p, s)
  {
    hide Reached;
    match Next(p, s)
    case None => more := at;
    case Some(t) =>
      more := StepReached(p, s, at);
      more := FinishReached(p, t, more);
  }

  // ---------------------------------------------------------------- the whole search

  /** The search starts with the first operation of the list on the starting vector. */
  lemma {:induction false} BaselineFirst(p: Protocol)
    requires p.rounds > 0 && p.bound > 0 && p.operations != []
    ensures Whole(p) != []
    ensures var r, v := Whole(p)[0], p.apply(p.start, p.operations[0]);
      && r.round == 0 && r.index == 0 && r.parent == p.start && r.operation == p.operations[0] && r.vector == v
      && r.assessment == p.evaluate(v)
  {
    hide Improves;
    var v := p.apply(p.start, p.operations[0]);
    var t := Recorded(Start(p), v, p.operations[0], p.evaluate(v));
    assert Next(p, Start(p)) == Some(t);
    FinishExtends(p, t);
    assert Whole(p)[..1] == t.records;
  }

  /** The rounds that were completed: each but the last improved the incumbent and accepted nothing, and the last one is
      the last allowed, or did not improve it, or accepted a candidate. */
  ghost predicate Rounds(p: Protocol, records: seq<Record>, completed: nat) {
    && completed <= p.rounds
    && (forall r: nat :: r + 1 < completed ==> Improved(records, r) && !AcceptedBy(records, r))
    && (completed == p.rounds || (completed > 0 && (AnyAccepted(records) || !Improved(records, completed - 1))))
  }

  /** Every record stands at the place of its operation, in the order of rounds and of the list within a round, made from
      the incumbent of its time; and unless the bound cuts the search, every operation of every round it went through was
      recorded or led to a vector already archived. */
  lemma {:induction false} WholeCovers(p: Protocol) returns (at: seq<nat>, completed: nat)
    ensures Placed(p, Whole(p), at)
    ensures |Whole(p)| < p.bound ==>
      && Rounds(p, Whole(p), completed)
      && forall r: nat, i: nat :: r < completed && Enumerated(p, r, i) ==> Tried(p, Whole(p), at, r, i)
  {
    hide Finish, RoundOps, Improves, Placed, Tried, BestOf, IncumbentOf;
    StartReached(p);
    at := FinishReached(p, Start(p), []);
    var s := Finish(p, Start(p));
    StepPlace(p, s);
    completed := if s.round < p.rounds then s.round + 1 else s.round;
  }

  lemma {:induction false} StartReached(p: Protocol)
    ensures Reached(p, Start(p), [])
  {
  }
}
