/** Accounting of coded episodes into the endpoint's full-run and windowed numerators and denominators. */
module EndpointAccounting {
  import opened Options

  datatype Kind = Commitment | Reciprocity | Repair
  datatype Eligibility = Eligible | Ineligible | AmbiguousRow
  datatype Status = Observed | Censored | Unevaluable | Breach | SystemFailure
  datatype Verdict = Fulfilled | Breached | Modified | Released | NotEvaluated | Ongoing | Ambiguous
                   | Attempted | Accepted | Rejected | NoRepair | NoVerdict

  /** A coded row with the turns of the observations it refers to.  `positive` and `negative` say whether a
      reciprocity row has a response of that polarity; `acts` counts restorative acts. */
  datatype Row = Row(id: string, kind: Kind, eligibility: Eligibility, status: Status, verdict: Verdict, evaluable: bool,
                     source: int, due: Option<int>, evaluation: Option<int>, positive: bool, negative: bool, acts: nat, sufficient: bool)

  /** The conditions of annotation validation that accounting relies on. */
  predicate Validated(r: Row) {
    && r.source >= 1
    && (r.evaluation.Some? ==> r.evaluation.value >= r.source)
    && (r.kind.Commitment? ==>
          && (r.due.Some? ==> r.due.value >= r.source)
          && (r.evaluable ==> r.evaluation.Some? && (r.verdict.Fulfilled? || r.verdict.Breached? || r.verdict.Modified? || r.verdict.Released?))
          && (r.verdict.Breached? ==> r.evaluable))
  }

  /** The turn a row is attributed to: for a commitment that of its disposition or due date. */
  function WindowTurn(r: Row): Option<int> {
    if !r.kind.Commitment? then Some(r.source)
    else if r.verdict.Breached? then if r.due.Some? then r.due else r.evaluation
    else if r.verdict.Fulfilled? || r.verdict.Modified? || r.verdict.Released? then r.evaluation
    else r.due
  }

  datatype Tally = Tally(denominator: nat, primary: nat, negative: nat, ambiguity: nat)

  const NOTHING := Tally(0, 0, 0, 0)

  function Add(a: Tally, b: Tally): Tally {
    Tally(a.denominator + b.denominator, a.primary + b.primary, a.negative + b.negative, a.ambiguity + b.ambiguity)
  }

  function One(b: bool): nat { if b then 1 else 0 }

  /** The status a row counts under, given where observation ended. */
  function Counted(r: Row, endTurn: int): Status {
    var a := if r.status.Observed? && r.kind.Commitment? && r.verdict.Ongoing? then Censored else r.status;
    var b := if r.kind.Repair? && !r.sufficient && a.Observed? then Censored else a;
    var c := if b.Observed? && r.verdict.NotEvaluated? then Unevaluable else b;
    if r.kind.Reciprocity? && r.source + 5 > endTurn && c.Observed? then Censored else c
  }

  /** What a row adds to its component. */
  function Contribution(r: Row, endTurn: int): Tally {
    if r.eligibility.Ineligible? then NOTHING
    else if r.eligibility.AmbiguousRow? || r.verdict.Ambiguous? then Tally(0, 0, 0, 1)
    else if !Counted(r, endTurn).Observed? || (r.kind.Commitment? && !r.evaluable) then NOTHING
    else
      match r.kind
      case Commitment => Tally(1, One(r.verdict.Fulfilled?), 0, 0)
      case Reciprocity => Tally(1, One(r.positive), One(r.negative), 0)
      case Repair => Tally(1, One(r.acts > 0), 0, 0)
  }

  predicate Full(lo: int, hi: int) { lo == 1 && hi == 20 }

  /** Whether a row has no place in a window: no turn to attribute it to, or one after observation ended. */
  predicate Homeless(r: Row, endTurn: int) { WindowTurn(r).None? || WindowTurn(r).value > endTurn }

  predicate Belongs(r: Row, endTurn: int, lo: int, hi: int) {
    Full(lo, hi) || (!Homeless(r, endTurn) && lo <= WindowTurn(r).value <= hi)
  }

  /** Which rows a count is over: a component's rows in a window, its unplaced rows, or the rows without a turn. */
  datatype Scope = Window(kind: Kind, lo: int, hi: int) | Unplaced(kind: Kind) | Turnless

  predicate Covers(scope: Scope, r: Row, endTurn: int) {
    match scope
    case Window(kind, lo, hi) => r.kind == kind && Belongs(r, endTurn, lo, hi)
    case Unplaced(kind) => r.kind == kind && Homeless(r, endTurn)
    case Turnless => WindowTurn(r).None?
  }

  function Share(scope: Scope, r: Row, endTurn: int): Tally {
    if Covers(scope, r, endTurn) then Contribution(r, endTurn) else NOTHING
  }

  function Total(rows: seq<Row>, endTurn: int, scope: Scope): Tally {
    if rows == [] then NOTHING else Add(Total(rows[..|rows| - 1], endTurn, scope), Share(scope, rows[|rows| - 1], endTurn))
  }

  function Listed(rows: seq<Row>, endTurn: int, scope: Scope): seq<string> {
    if rows == [] then []
    else Listed(rows[..|rows| - 1], endTurn, scope) + if Covers(scope, rows[|rows| - 1], endTurn) then [rows[|rows| - 1].id] else []
  }

  lemma {:induction false} AddLaws(a: Tally, b: Tally, c: Tally, d: Tally)
    ensures Add(a, NOTHING) == a == Add(NOTHING, a)
    ensures Add(Add(a, b), Add(c, d)) == Add(Add(a, c), Add(b, d))
  {
  }

  lemma {:induction false} Next(rows: seq<Row>, i: nat, endTurn: int, scope: Scope)
    requires i < |rows|
    ensures Total(rows[..i + 1], endTurn, scope) == Add(Total(rows[..i], endTurn, scope), Share(scope, rows[i], endTurn))
    ensures Listed(rows[..i + 1], endTurn, scope) == Listed(rows[..i], endTurn, scope) + if Covers(scope, rows[i], endTurn) then [rows[i].id] else []
  {
    hide Share, Covers, Add;
    assert rows[..i + 1][..i] == rows[..i];
  }

  /** One component over one window: rows are first placed or listed as unattributed, then counted. */
  method Summarize(rows: seq<Row>, kind: Kind, endTurn: int, lo: int, hi: int) returns (tally: Tally, unattributed: seq<string>)
    ensures tally == Total(rows, endTurn, Window(kind, lo, hi))
    ensures unattributed == if Full(lo, hi) then [] else Listed(rows, endTurn, Unplaced(kind))
  {
    hide Contribution, Homeless, Total, Listed, Add;
    var scope := Window(kind, lo, hi);
    var members: seq<Row> := [];
    unattributed := [];
    NothingCounted(rows, endTurn, scope, Unplaced(kind));
    for i := 0 to |rows|
      invariant unattributed == if Full(lo, hi) then [] else Listed(rows[..i], endTurn, Unplaced(kind))
      invariant forall r :: r in members ==> Covers(scope, r, endTurn)
      invariant Total(members, endTurn, scope) == Total(rows[..i], endTurn, scope)
    {
      var row := rows[i];
      Next(rows, i, endTurn, scope);
      Next(rows, i, endTurn, Unplaced(kind));
      AddLaws(Total(rows[..i], endTurn, scope), NOTHING, NOTHING, NOTHING);
      if row.kind == kind {
        if !Full(lo, hi) && Homeless(row, endTurn) {
          unattributed := unattributed + [row.id];
        } else if Belongs(row, endTurn, lo, hi) {
          Pushed(members, row, endTurn, scope);
          members := members + [row];
        }
      }
    }
    assert rows[..|rows|] == rows;
    tally := NOTHING;
    NothingCounted(members, endTurn, scope, scope);
    for i := 0 to |members|
      invariant tally == Total(members[..i], endTurn, scope)
    {
      Next(members, i, endTurn, scope);
      assert Covers(scope, members[i], endTurn);
      tally := Add(tally, Contribution(members[i], endTurn));
    }
    assert members[..|members|] == members;
  }

  lemma {:induction false} NothingCounted(rows: seq<Row>, endTurn: int, scope: Scope, other: Scope)
    ensures Total([], endTurn, scope) == NOTHING && rows[..0] == [] && Listed([], endTurn, other) == []
  {
  }

  lemma {:induction false} Pushed(rows: seq<Row>, r: Row, endTurn: int, scope: Scope)
    ensures Total(rows + [r], endTurn, scope) == Add(Total(rows, endTurn, scope), Share(scope, r, endTurn))
  {
    hide Share, Add;
    assert (rows + [r])[..|rows|] == rows;
  }

  // ---------------------------------------------------------------- conservation

  /** The single-turn windows 1..n together. */
  function Windows(rows: seq<Row>, kind: Kind, endTurn: int, n: nat): Tally {
    if n == 0 then NOTHING else Add(Windows(rows, kind, endTurn, n - 1), Total(rows, endTurn, Window(kind, n, n)))
  }

  /** What one row adds to the windows 1..n. */
  function Spread(r: Row, kind: Kind, endTurn: int, n: nat): Tally {
    if n == 0 then NOTHING else Add(Spread(r, kind, endTurn, n - 1), Share(Window(kind, n, n), r, endTurn))
  }

  lemma {:induction false} WindowsStep(rows: seq<Row>, r: Row, kind: Kind, endTurn: int, n: nat)
    ensures Windows(rows + [r], kind, endTurn, n) == Add(Windows(rows, kind, endTurn, n), Spread(r, kind, endTurn, n))
  {
    hide Share, Add, Total;
    if n > 0 {
      WindowsStep(rows, r, kind, endTurn, n - 1);
      Pushed(rows, r, endTurn, Window(kind, n, n));
      AddLaws(Windows(rows, kind, endTurn, n - 1), Spread(r, kind, endTurn, n - 1),
              Total(rows, endTurn, Window(kind, n, n)), Share(Window(kind, n, n), r, endTurn));
    } else {
      AddLaws(NOTHING, NOTHING, NOTHING, NOTHING);
    }
  }

  lemma {:induction false} WindowsEmpty(kind: Kind, endTurn: int, n: nat)
    ensures Windows([], kind, endTurn, n) == NOTHING
  {
    if n > 0 { WindowsEmpty(kind, endTurn, n - 1); }
  }

  /** A row is counted in exactly the window of its turn. */
  lemma {:induction false} OneWindow(r: Row, kind: Kind, endTurn: int, n: nat)
    requires n <= 20
    ensures Spread(r, kind, endTurn, n) ==
      if r.kind == kind && !Homeless(r, endTurn) && 1 <= WindowTurn(r).value <= n then Contribution(r, endTurn) else NOTHING
  {
    hide Contribution, WindowTurn, Add;
    if n > 0 {
      OneWindow(r, kind, endTurn, n - 1);
      AddLaws(Contribution(r, endTurn), NOTHING, NOTHING, NOTHING);
      AddLaws(NOTHING, NOTHING, NOTHING, NOTHING);
    }
  }

  lemma {:induction false} ValidatedTurn(r: Row, endTurn: int)
    requires Validated(r)
    ensures WindowTurn(r).Some? ==> WindowTurn(r).value >= 1
    ensures WindowTurn(r).None? ==> Contribution(r, endTurn).denominator == 0
    ensures Contribution(r, endTurn).primary <= Contribution(r, endTurn).denominator
    ensures Contribution(r, endTurn).negative <= Contribution(r, endTurn).denominator
  {
  }

  lemma {:induction false} RowConserved(r: Row, kind: Kind, endTurn: int)
    requires endTurn <= 20 && Validated(r)
    ensures Share(Window(kind, 1, 20), r, endTurn) == Add(Spread(r, kind, endTurn, 20), Share(Unplaced(kind), r, endTurn))
  {
    hide Contribution, WindowTurn, Add, Spread, Validated;
    OneWindow(r, kind, endTurn, 20);
    ValidatedTurn(r, endTurn);
    AddLaws(Contribution(r, endTurn), NOTHING, NOTHING, NOTHING);
    AddLaws(NOTHING, NOTHING, NOTHING, NOTHING);
  }

  /** For every component, the full run's counts are those of the twenty single-turn windows and the rows
      they leave unattributed. */
  lemma {:induction false} Conservation(rows: seq<Row>, kind: Kind, endTurn: int)
    requires endTurn <= 20 && forall r :: r in rows ==> Validated(r)
    ensures Total(rows, endTurn, Window(kind, 1, 20)) ==
            Add(Windows(rows, kind, endTurn, 20), Total(rows, endTurn, Unplaced(kind)))
  {
    hide Share, Add, Validated, Windows, Spread;
    if rows == [] {
      WindowsEmpty(kind, endTurn, 20);
      AddLaws(NOTHING, NOTHING, NOTHING, NOTHING);
    } else {
      var before, r := rows[..|rows| - 1], rows[|rows| - 1];
      assert rows == before + [r];
      Conservation(before, kind, endTurn);
      WindowsStep(before, r, kind, endTurn, 20);
      RowConserved(r, kind, endTurn);
      AddLaws(Windows(before, kind, endTurn, 20), Total(before, endTurn, Unplaced(kind)),
              Spread(r, kind, endTurn, 20), Share(Unplaced(kind), r, endTurn));
    }
  }

  /** Rows without any turn to be attributed to add nothing to a denominator or numerator, only ambiguity. */
  lemma {:induction false} TurnlessCountNothing(rows: seq<Row>, endTurn: int)
    requires forall r :: r in rows ==> Validated(r)
    ensures var t := Total(rows, endTurn, Turnless);
      t.denominator == 0 && t.primary == 0 && t.negative == 0
  {
    hide WindowTurn, Validated, Contribution;
    if rows != [] {
      var before, r := rows[..|rows| - 1], rows[|rows| - 1];
      assert rows == before + [r];
      TurnlessCountNothing(before, endTurn);
      ValidatedTurn(r, endTurn);
    }
  }
}
