/** What the endpoint's numbers count: rows that meet conditions, each said outright. */
module EndpointCounts {
  import opened Options
  import opened EndpointAccounting

  // ---------------------------------------------------------------- one row

  /** Nobody doubts the row: it is eligible and its verdict is definite. */
  predicate Clear(r: Row) { r.eligibility == Eligible && r.verdict != Ambiguous }

  /** The row was observed to its end: a commitment was evaluated, a reciprocity had its five turns, a repair had its chance. */
  predicate Settled(r: Row, endTurn: int) {
    && r.status == Observed && r.verdict != NotEvaluated
    && match r.kind
       case Commitment => r.evaluable && r.verdict != Ongoing
       case Reciprocity => r.source + 5 <= endTurn
       case Repair => r.sufficient
  }

  predicate Opportunity(r: Row, endTurn: int) { Clear(r) && Settled(r, endTurn) }

  /** The opportunity was taken: fulfilled, answered in kind, or acted upon. */
  predicate Taken(r: Row) {
    match r.kind
    case Commitment => r.verdict == Fulfilled
    case Reciprocity => r.positive
    case Repair => r.acts >= 1
  }

  predicate Retaliated(r: Row) { r.kind == Reciprocity && r.negative }

  predicate Doubtful(r: Row) { r.eligibility == AmbiguousRow || (r.eligibility == Eligible && r.verdict == Ambiguous) }

  /** A row is an opportunity or not, taken or not, retaliated or not, doubtful or not, and adds one to each count it is in. */
  lemma {:induction false} RowCounts(r: Row, endTurn: int)
    ensures var c := Contribution(r, endTurn);
      && (c.denominator == 1 <==> Opportunity(r, endTurn)) && c.denominator <= 1
      && (c.primary == 1 <==> Opportunity(r, endTurn) && Taken(r)) && c.primary <= 1
      && (c.negative == 1 <==> Opportunity(r, endTurn) && Retaliated(r)) && c.negative <= 1
      && (c.ambiguity == 1 <==> Doubtful(r)) && c.ambiguity <= 1
  {
  }

  /** The turn a row is attributed to: where it began, unless it is a commitment; that of its disposition for a commitment
      disposed of, a breach counting at the due turn when there is one; otherwise the due turn. */
  predicate AttributedTo(r: Row, turn: int) {
    match r.kind
    case Commitment =>
      if r.verdict == Breached then r.due == Some(turn) || (r.due == None && r.evaluation == Some(turn))
      else if r.verdict in {Fulfilled, Modified, Released} then r.evaluation == Some(turn)
      else r.due == Some(turn)
    case _ => r.source == turn
  }

  lemma {:induction false} TurnAttributed(r: Row)
    ensures forall turn :: AttributedTo(r, turn) <==> WindowTurn(r) == Some(turn)
  {
  }

  // ---------------------------------------------------------------- totals are cardinalities

  /** The window holds the row: the whole run holds every row, another window those attributed to one of its turns while
      observation lasted. */
  predicate InWindow(r: Row, kind: Kind, endTurn: int, lo: int, hi: int) {
    r.kind == kind && ((lo == 1 && hi == 20) || (WindowTurn(r).Some? && AttributedTo(r, WindowTurn(r).value) && lo <= WindowTurn(r).value <= hi
                                                 && WindowTurn(r).value <= endTurn))
  }

  function Matching(rows: seq<Row>, p: Row -> bool): set<nat> { set i: nat | i < |rows| && p(rows[i]) }

  lemma {:induction false} MatchingNext(rows: seq<Row>, r: Row, p: Row -> bool)
    ensures |Matching(rows + [r], p)| == |Matching(rows, p)| + if p(r) then 1 else 0
  {
    var n := |rows|;
    assert forall i: nat :: i < n ==> (rows + [r])[i] == rows[i];
    assert Matching(rows + [r], p) == Matching(rows, p) + if p(r) then {n} else {};
  }

  /** The four numbers of a component over a window are the numbers of its rows there that are opportunities, taken ones,
      retaliated ones, and doubtful ones. */
  lemma {:induction false} TotalCounts(rows: seq<Row>, kind: Kind, endTurn: int, lo: int, hi: int)
    ensures var t := Total(rows, endTurn, Window(kind, lo, hi));
      && t.denominator == |Matching(rows, r => InWindow(r, kind, endTurn, lo, hi) && Opportunity(r, endTurn))|
      && t.primary == |Matching(rows, r => InWindow(r, kind, endTurn, lo, hi) && Opportunity(r, endTurn) && Taken(r))|
      && t.negative == |Matching(rows, r => InWindow(r, kind, endTurn, lo, hi) && Opportunity(r, endTurn) && Retaliated(r))|
      && t.ambiguity == |Matching(rows, r => InWindow(r, kind, endTurn, lo, hi) && Doubtful(r))|
  {
    hide Matching, Contribution, Opportunity, Taken, Retaliated, Doubtful, InWindow;
    var p0 := r => InWindow(r, kind, endTurn, lo, hi) && Opportunity(r, endTurn);
    var p1 := r => InWindow(r, kind, endTurn, lo, hi) && Opportunity(r, endTurn) && Taken(r);
    var p2 := r => InWindow(r, kind, endTurn, lo, hi) && Opportunity(r, endTurn) && Retaliated(r);
    var p3 := r => InWindow(r, kind, endTurn, lo, hi) && Doubtful(r);
    if rows == [] {
      NoneMatching(p0);
      NoneMatching(p1);
      NoneMatching(p2);
      NoneMatching(p3);
    } else {
      var before, r := rows[..|rows| - 1], rows[|rows| - 1];
      assert rows == before + [r];
      TotalCounts(before, kind, endTurn, lo, hi);
      MatchingNext(before, r, p0);
      MatchingNext(before, r, p1);
      MatchingNext(before, r, p2);
      MatchingNext(before, r, p3);
      RowCounts(r, endTurn);
      WindowHolds(r, kind, endTurn, lo, hi);
    }
  }

  lemma {:induction false} NoneMatching(p: Row -> bool)
    ensures |Matching([], p)| == 0
  {
    assert Matching([], p) == {};
  }

  lemma {:induction false} WindowHolds(r: Row, kind: Kind, endTurn: int, lo: int, hi: int)
    ensures Covers(Window(kind, lo, hi), r, endTurn) <==> InWindow(r, kind, endTurn, lo, hi)
  {
    TurnAttributed(r);
  }

  /** The rows listed as unattributed are those of the component without a turn, or with one after observation ended. */
  lemma {:induction false} UnattributedListed(rows: seq<Row>, kind: Kind, endTurn: int, id: string)
    ensures id in Listed(rows, endTurn, Unplaced(kind)) <==>
      exists i :: 0 <= i < |rows| && rows[i].id == id && rows[i].kind == kind
                  && ((forall turn :: !AttributedTo(rows[i], turn)) || exists turn :: turn > endTurn && AttributedTo(rows[i], turn))
  {
    if rows != [] {
      UnattributedListed(rows[..|rows| - 1], kind, endTurn, id);
      TurnAttributed(rows[|rows| - 1]);
      hide AttributedTo, WindowTurn;
    }
  }
}
