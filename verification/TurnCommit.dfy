/** Committing a turn: arrival order gives no priority.  Lists that the record keeps sorted are multisets. */
module TurnCommit {
  import opened Options
  import opened Permutations

  /** Stable identifiers are injective on the tuples they name; `rank` orders their texts. */
  datatype ActionId = ActionId(run: string, turn: nat, actor: string, index: nat, content: string)
  datatype SubmissionId = SubmissionId(run: string, turn: nat, actor: string, sequence: nat)

  datatype Act = Act(id: ActionId, content: string, claims: Option<string>)

  datatype State = Submitted | Validated | Rejected | Accepted

  /** A submission in the ledger. */
  datatype Submission = Submission(id: SubmissionId, run: string, turn: nat, actor: string, session: string, invocation: string,
                                   projection: string, actions: seq<Act>, state: State)

  /** What is handed to the commit: a submission's identity and the actions accepted for it. */
  datatype Item = Item(id: SubmissionId, run: string, turn: nat, actor: string, accepted: seq<Act>)

  datatype Taken = Taken(act: Act, actor: string, submission: SubmissionId, session: string, invocation: string)

  datatype Record = Record(run: string, turn: nat, actions: seq<Taken>, submissions: multiset<SubmissionId>,
                           projections: multiset<string>)

  /** `unit` says which unit a move or an attack claims. */
  function Acts(run: string, turn: nat, actor: string, contents: seq<string>, claims: string -> Option<string>): (acts: seq<Act>)
    ensures |acts| == |contents|
    ensures forall i :: 0 <= i < |acts| ==> acts[i] == Act(ActionId(run, turn, actor, i, contents[i]), contents[i], claims(contents[i]))
  {
    seq(|contents|, i requires 0 <= i < |contents| => Act(ActionId(run, turn, actor, i, contents[i]), contents[i], claims(contents[i])))
  }

  // ---------------------------------------------------------------- the commit

  predicate ItemOk(ledger: map<SubmissionId, Submission>, run: string, turn: nat, item: Item) {
    && item.id in ledger
    && var s := ledger[item.id];
    && s.run == run && s.turn == turn && s.state.Validated?
    && item.actor == s.actor && item.run == s.run && item.turn == s.turn && item.accepted == s.actions
  }

  predicate Distinct<T(==)>(xs: seq<T>) { forall x :: x in xs ==> multiset(xs)[x] == 1 }

  function TakenOf(ledger: map<SubmissionId, Submission>): Item -> seq<Taken> {
    (item: Item) =>
      if item.id !in ledger then []
      else
        var s := ledger[item.id];
        seq(|s.actions|, i requires 0 <= i < |s.actions| => Taken(s.actions[i], s.actor, s.id, s.session, s.invocation))
  }

  function ActorOf(item: Item): seq<string> { [item.actor] }
  function IdOf(item: Item): seq<SubmissionId> { [item.id] }
  function ProjectionOf(ledger: map<SubmissionId, Submission>): Item -> seq<string> {
    (item: Item) => if item.id in ledger then [ledger[item.id].projection] else []
  }
  function ActionIdOf(t: Taken): seq<ActionId> { [t.act.id] }
  function ClaimOf(t: Taken): seq<string> { if t.act.claims.Some? then [t.act.claims.value] else [] }

  /** None when any check fails. */
  function Commit(ledger: map<SubmissionId, Submission>, run: string, turn: nat, items: seq<Item>, rank: Taken -> int): Option<Record> {
    if (exists item :: item in items && !ItemOk(ledger, run, turn, item)) || !Distinct(Collect(items, ActorOf)) then None
    else
      var actions := Sort(Collect(items, TakenOf(ledger)), rank);
      if !Distinct(Collect(actions, ActionIdOf)) || !Distinct(Collect(actions, ClaimOf)) then None
      else Some(Record(run, turn, actions, multiset(Collect(items, IdOf)), multiset(Collect(items, ProjectionOf(ledger)))))
  }

  /** Ranks order action identifiers. */
  ghost predicate OrdersIds(rank: Taken -> int) { forall a, b :: rank(a) == rank(b) <==> a.act.id == b.act.id }

  lemma {:induction false} DistinctPermuted<T>(a: seq<T>, b: seq<T>)
    requires multiset(a) == multiset(b)
    ensures Distinct(a) <==> Distinct(b)
  {
    SameMembers(a, b);
  }

  lemma {:induction false} CollectedOnce<T, U>(xs: seq<T>, f: T -> seq<U>, x: T, u: U)
    requires x in xs && f(x) == [u]
    ensures u in Collect(xs, f)
  {
    if x != xs[|xs| - 1] {
      assert xs == xs[..|xs| - 1] + [xs[|xs| - 1]];
      CollectedOnce(xs[..|xs| - 1], f, x, u);
    }
  }

  lemma {:induction false} CountedTwice<T, U>(xs: seq<T>, f: T -> seq<U>, x: T, u: U)
    requires xs != [] && x in xs[..|xs| - 1] && f(x) == [u] && f(xs[|xs| - 1]) == [u]
    ensures multiset(Collect(xs, f))[u] >= 2
  {
    var k := |xs| - 1;
    CollectedOnce(xs[..k], f, x, u);
    assert multiset(Collect(xs, f)) == multiset(Collect(xs[..k], f)) + multiset{u};
  }

  lemma {:induction false} DistinctBefore<T, U>(xs: seq<T>, f: T -> seq<U>)
    requires xs != [] && Distinct(Collect(xs, f))
    ensures Distinct(Collect(xs[..|xs| - 1], f))
  {
    var before, all := Collect(xs[..|xs| - 1], f), Collect(xs, f);
    assert multiset(all) == multiset(before) + multiset(f(xs[|xs| - 1]));
    forall v | v in before
      ensures multiset(before)[v] == 1
    {
      assert v in all;
    }
  }

  /** Elements whose single keys are all distinct are determined by their keys. */
  lemma {:induction false} KeysRank<T, U>(xs: seq<T>, f: T -> seq<U>, x: T, y: T)
    requires x in xs && y in xs && f(x) == f(y) && |f(x)| == 1 && Distinct(Collect(xs, f))
    ensures x == y
  {
    hide Collect;
    var k := |xs| - 1;
    var u := f(x)[0];
    assert f(x) == [u] && f(y) == [u];
    assert xs == xs[..k] + [xs[k]];
    DistinctBefore(xs, f);
    CollectedOnce(xs, f, x, u);
    if x in xs[..k] && y in xs[..k] {
      KeysRank(xs[..k], f, x, y);
    } else if x in xs[..k] {
      CountedTwice(xs, f, x, u);
    } else if y in xs[..k] {
      CountedTwice(xs, f, y, u);
    }
  }

  /** For a fixed ledger, the committed record is the same for every order in which the submissions arrive. */
  lemma {:induction false} ArrivalIrrelevant(ledger: map<SubmissionId, Submission>, run: string, turn: nat, items: seq<Item>, other: seq<Item>, rank: Taken -> int)
    requires multiset(items) == multiset(other) && OrdersIds(rank)
    ensures Commit(ledger, run, turn, items, rank) == Commit(ledger, run, turn, other, rank)
  {
    hide Collect, Sort, Distinct, ItemOk;
    SameMembers(items, other);
    CollectPermuted(items, other, ActorOf);
    CollectPermuted(items, other, TakenOf(ledger));
    CollectPermuted(items, other, IdOf);
    CollectPermuted(items, other, ProjectionOf(ledger));
    DistinctPermuted(Collect(items, ActorOf), Collect(other, ActorOf));
    SameActions(Collect(items, TakenOf(ledger)), Collect(other, TakenOf(ledger)), rank);
  }

  lemma {:induction false} SameActions(a: seq<Taken>, b: seq<Taken>, rank: Taken -> int)
    requires multiset(a) == multiset(b) && OrdersIds(rank)
    ensures var x, y := Sort(a, rank), Sort(b, rank);
      && (Distinct(Collect(x, ActionIdOf)) <==> Distinct(Collect(y, ActionIdOf)))
      && (Distinct(Collect(x, ActionIdOf)) ==> x == y)
  {
    hide Collect, Sort, Sorted, Distinct;
    var x, y := Sort(a, rank), Sort(b, rank);
    SortedPermutation(a, rank);
    SortedPermutation(b, rank);
    CollectPermuted(x, y, ActionIdOf);
    DistinctPermuted(Collect(x, ActionIdOf), Collect(y, ActionIdOf));
    if Distinct(Collect(x, ActionIdOf)) {
      forall s, t | s in x && t in x && rank(s) == rank(t)
        ensures s == t
      {
        KeysRank(x, ActionIdOf, s, t);
      }
      SortedUnique(x, y, rank);
    }
  }

  // ---------------------------------------------------------------- the ledger

  /** The turn submissions are made for: the units actions claim, how many a submission may have, what the world
      accepts from whom, and whether an actor's projection is the current one. */
  datatype Round = Round(run: string, turn: nat, limit: nat, claims: string -> Option<string>, valid: (string, string) -> bool,
                         current: (string, string) -> bool)

  /** The submission is one of this turn's that has not been settled, made on the actor's current projection. */
  predicate Pending(w: Round, s: Submission) {
    s.run == w.run && s.turn == w.turn && s.state.Submitted? && w.current(s.actor, s.projection)
  }

  predicate Acceptable(w: Round, s: Submission) {
    |s.actions| <= w.limit && forall i :: 0 <= i < |s.actions| ==> w.valid(s.actor, s.actions[i].content)
  }

  function Settled(w: Round, s: Submission): Submission { s.(state := if Acceptable(w, s) then Validated else Rejected) }

  class ActionLedger {
    var submissions: map<SubmissionId, Submission>
    var sequence: nat

    constructor ()
      ensures submissions == map[] && sequence == 0
    {
      submissions, sequence := map[], 0;
    }

    /** A submission gets the next sequence number; its actions' identifiers do not mention it. */
    method Submit(run: string, turn: nat, actor: string, session: string, invocation: string, projection: string,
                  contents: seq<string>, claims: string -> Option<string>) returns (s: Submission)
      modifies this
      ensures s == Submission(SubmissionId(run, turn, actor, old(sequence)), run, turn, actor, session, invocation, projection,
                              Acts(run, turn, actor, contents, claims), Submitted)
      ensures submissions == old(submissions)[s.id := s] && sequence == old(sequence) + 1
    {
      var id := SubmissionId(run, turn, actor, sequence);
      sequence := sequence + 1;
      s := Submission(id, run, turn, actor, session, invocation, projection, Acts(run, turn, actor, contents, claims), Submitted);
      submissions := submissions[id := s];
    }

    /** Settles a pending submission of this ledger, whatever the caller's copy of it says: validated when the world
        accepts every action and there are not too many, rejected otherwise.  Anything else is refused. */
    method Validate(w: Round, id: SubmissionId) returns (r: Option<Submission>, accepted: seq<Act>)
      modifies this`submissions
      ensures r.Some? <==> id in old(submissions) && Pending(w, old(submissions)[id])
      ensures r.Some? ==> r.value.run == w.run && r.value.turn == w.turn && old(submissions)[id].state == Submitted
      ensures r.None? ==> submissions == old(submissions) && accepted == []
      ensures r.Some? ==> r.value == Settled(w, old(submissions)[id]) && submissions == old(submissions)[id := r.value]
      ensures r.Some? && r.value.state.Validated? ==> accepted == r.value.actions
      ensures r.Some? ==> forall a :: a in accepted <==> a in r.value.actions && w.valid(r.value.actor, a.content)
    {
      if id !in submissions || !Pending(w, submissions[id]) { return None, []; }
      var s := submissions[id];
      var errors := |s.actions| > w.limit;
      accepted := [];
      for i := 0 to |s.actions|
        invariant !errors <==> |s.actions| <= w.limit && forall k :: 0 <= k < i ==> w.valid(s.actor, s.actions[k].content)
        invariant !errors ==> accepted == s.actions[..i]
        invariant forall a :: a in accepted <==> a in s.actions[..i] && w.valid(s.actor, a.content)
      {
        if w.valid(s.actor, s.actions[i].content) { accepted := accepted + [s.actions[i]]; } else { errors := true; }
      }
      assert s.actions[..|s.actions|] == s.actions;
      s := s.(state := if errors then Rejected else Validated);
      submissions := submissions[id := s];
      r := Some(s);
    }

    /** Checks every item, then the committed actions; a refused commit changes nothing. */
    method CommitTurn(run: string, turn: nat, items: seq<Item>, rank: Taken -> int) returns (r: Option<Record>)
      modifies this
      ensures r == Commit(old(submissions), run, turn, items, rank)
      ensures r.None? ==> submissions == old(submissions)
      ensures r.Some? ==> submissions.Keys == old(submissions).Keys && forall id :: id in submissions ==>
        submissions[id] == if id in Collect(items, IdOf) then old(submissions)[id].(state := Accepted) else old(submissions)[id]
      ensures sequence == old(sequence)
    {
      hide Collect, Sort, Distinct;
      for i := 0 to |items|
        invariant forall j :: 0 <= j < i ==> ItemOk(submissions, run, turn, items[j])
      {
        if !ItemOk(submissions, run, turn, items[i]) {
          assert items[i] in items;
          return None;
        }
      }
      if !Distinct(Collect(items, ActorOf)) { return None; }
      var actions := Sort(Collect(items, TakenOf(submissions)), rank);
      if !Distinct(Collect(actions, ActionIdOf)) || !Distinct(Collect(actions, ClaimOf)) { return None; }
      r := Some(Record(run, turn, actions, multiset(Collect(items, IdOf)), multiset(Collect(items, ProjectionOf(submissions)))));
      ghost var start := submissions;
      ghost var done: seq<SubmissionId> := [];
      NoIds(items);
      for i := 0 to |items|
        invariant done == Collect(items[..i], IdOf) && submissions.Keys == start.Keys && sequence == old(sequence)
        invariant forall id :: id in submissions ==> submissions[id] == if id in done then start[id].(state := Accepted) else start[id]
      {
        var id := items[i].id;
        NextId(items, i);
        assert ItemOk(start, run, turn, items[i]);
        submissions := submissions[id := submissions[id].(state := Accepted)];
        done := done + [id];
      }
      assert items[..|items|] == items;
    }
  }

  lemma {:induction false} NoIds(items: seq<Item>)
    ensures Collect(items[..0], IdOf) == []
  {
  }

  lemma {:induction false} NextId(items: seq<Item>, i: nat)
    requires i < |items|
    ensures Collect(items[..i + 1], IdOf) == Collect(items[..i], IdOf) + [items[i].id]
  {
    assert items[..i + 1][..i] == items[..i];
  }

  // ---------------------------------------------------------------- arrival order of submissions

  /** What one actor submits. */
  datatype Request = Request(actor: string, session: string, invocation: string, projection: string, contents: seq<string>)

  predicate Passes(w: Round, q: Request) {
    |q.contents| <= w.limit && forall i :: 0 <= i < |q.contents| ==> w.valid(q.actor, q.contents[i])
  }

  /** The submission a request becomes when it is the k-th to arrive, before and after validation. */
  function SubmittedAt(w: Round, q: Request, k: nat): Submission {
    Submission(SubmissionId(w.run, w.turn, q.actor, k), w.run, w.turn, q.actor, q.session, q.invocation, q.projection,
               Acts(w.run, w.turn, q.actor, q.contents, w.claims), Submitted)
  }

  function JudgedAt(w: Round, q: Request, k: nat): Submission {
    SubmittedAt(w, q, k).(state := if Passes(w, q) then Validated else Rejected)
  }

  function ItemAt(w: Round, q: Request, k: nat): Item {
    Item(SubmissionId(w.run, w.turn, q.actor, k), w.run, w.turn, q.actor, Acts(w.run, w.turn, q.actor, q.contents, w.claims))
  }

  /** The ledger after n requests have arrived in this order, of which the first m have been validated. */
  function LedgerOf(w: Round, qs: seq<Request>, n: nat, m: nat): map<SubmissionId, Submission>
    requires n <= |qs|
  {
    if n == 0 then map[]
    else
      var s := if n - 1 < m then JudgedAt(w, qs[n - 1], n - 1) else SubmittedAt(w, qs[n - 1], n - 1);
      LedgerOf(w, qs, n - 1, m)[s.id := s]
  }

  /** The validated submissions among the first n, as they are handed to the commit. */
  function ItemsOf(w: Round, qs: seq<Request>, n: nat): seq<Item>
    requires n <= |qs|
  {
    if n == 0 then []
    else ItemsOf(w, qs, n - 1) + (if Passes(w, qs[n - 1]) then [ItemAt(w, qs[n - 1], n - 1)] else [])
  }

  /** What committing the validated requests makes of the turn. */
  function Outcome(w: Round, qs: seq<Request>, rank: Taken -> int): Option<Record> {
    Commit(LedgerOf(w, qs, |qs|, |qs|), w.run, w.turn, ItemsOf(w, qs, |qs|), rank)
  }

  lemma {:induction false} LedgerHas(w: Round, qs: seq<Request>, n: nat, m: nat)
    requires n <= |qs|
    ensures forall k :: 0 <= k < n ==>
      var s := if k < m then JudgedAt(w, qs[k], k) else SubmittedAt(w, qs[k], k);
      s.id in LedgerOf(w, qs, n, m) && LedgerOf(w, qs, n, m)[s.id] == s
    ensures forall id :: id in LedgerOf(w, qs, n, m) ==> id.sequence < n
  {
    hide Passes, Acts;
    if n > 0 { LedgerHas(w, qs, n - 1, m); }
  }

  lemma {:induction false} LedgerJudges(w: Round, qs: seq<Request>, n: nat, m: nat)
    requires m < n <= |qs|
    ensures LedgerOf(w, qs, n, m + 1) == LedgerOf(w, qs, n, m)[SubmittedAt(w, qs[m], m).id := JudgedAt(w, qs[m], m)]
  {
    hide Passes, Acts;
    if m < n - 1 {
      LedgerJudges(w, qs, n - 1, m);
    } else {
      LedgerSame(w, qs, n - 1, m, m + 1);
    }
  }

  lemma {:induction false} LedgerSame(w: Round, qs: seq<Request>, n: nat, m: nat, k: nat)
    requires n <= |qs| && n <= m <= k
    ensures LedgerOf(w, qs, n, m) == LedgerOf(w, qs, n, k)
  {
    hide Passes, Acts;
    if n > 0 { LedgerSame(w, qs, n - 1, m, k); }
  }

  lemma {:induction false} RequestSettled(w: Round, q: Request, k: nat)
    ensures Settled(w, SubmittedAt(w, q, k)) == JudgedAt(w, q, k)
    ensures Pending(w, SubmittedAt(w, q, k)) <==> w.current(q.actor, q.projection)
  {
    var acts := Acts(w.run, w.turn, q.actor, q.contents, w.claims);
    assert forall i :: 0 <= i < |acts| ==> acts[i].content == q.contents[i];
    if Acceptable(w, SubmittedAt(w, q, k)) {
      forall i | 0 <= i < |q.contents|
        ensures w.valid(q.actor, q.contents[i])
      {
        assert acts[i].content == q.contents[i];
      }
    }
  }

  /** Every projection used is the current one of its actor. */
  predicate AllCurrent(w: Round, qs: seq<Request>) { forall q :: q in qs ==> w.current(q.actor, q.projection) }

  /** Validates the submissions in order of arrival; a projection that is not current stops the turn. */
  method ValidateAll(w: Round, qs: seq<Request>, ledger: ActionLedger, submissions: seq<Submission>) returns (ok: bool, items: seq<Item>)
    requires ledger.submissions == LedgerOf(w, qs, |qs|, 0)
    requires |submissions| == |qs| && forall k :: 0 <= k < |qs| ==> submissions[k] == SubmittedAt(w, qs[k], k)
    modifies ledger
    ensures ok <==> AllCurrent(w, qs)
    ensures ok ==> ledger.submissions == LedgerOf(w, qs, |qs|, |qs|) && items == ItemsOf(w, qs, |qs|)
  {
    hide Passes, Acts, Acceptable, Settled, Pending;
    items := [];
    for m := 0 to |qs|
      invariant ledger.submissions == LedgerOf(w, qs, |qs|, m) && items == ItemsOf(w, qs, m)
      invariant forall k :: 0 <= k < m ==> w.current(qs[k].actor, qs[k].projection)
    {
      LedgerHas(w, qs, |qs|, m);
      LedgerJudges(w, qs, |qs|, m);
      RequestSettled(w, qs[m], m);
      var settled, accepted := ledger.Validate(w, submissions[m].id);
      if settled.None? {
        assert qs[m] in qs;
        return false, [];
      }
      var s := settled.value;
      if s.state.Validated? { items := items + [Item(s.id, s.run, s.turn, s.actor, accepted)]; }
    }
    ok := true;
  }

  /** A turn on a new ledger: every request is submitted in order of arrival, then validated, and what passed is committed. */
  method Play(w: Round, qs: seq<Request>, rank: Taken -> int) returns (r: Option<Record>)
    ensures r == if AllCurrent(w, qs) then Outcome(w, qs, rank) else None
  {
    hide Passes, Acts, Commit, Acceptable, Settled, Pending, AllCurrent;
    var ledger := new ActionLedger();
    var submissions: seq<Submission> := [];
    for n := 0 to |qs|
      invariant ledger.sequence == n && ledger.submissions == LedgerOf(w, qs, n, 0) && fresh(ledger)
      invariant |submissions| == n && forall k :: 0 <= k < n ==> submissions[k] == SubmittedAt(w, qs[k], k)
    {
      var q := qs[n];
      var s := ledger.Submit(w.run, w.turn, q.actor, q.session, q.invocation, q.projection, q.contents, w.claims);
      submissions := submissions + [s];
    }
    var ok, items := ValidateAll(w, qs, ledger, submissions);
    if !ok { return None; }
    r := ledger.CommitTurn(w.run, w.turn, items, rank);
  }

  // ---------------------------------------------------------------- two orders of arrival

  /** An action as it is taken, apart from the submission it came in. */
  function Stripped(t: Taken): Taken { t.(submission := SubmissionId("", 0, "", 0)) }

  function StrippedAll(ts: seq<Taken>): (r: seq<Taken>)
    ensures |r| == |ts| && forall i :: 0 <= i < |ts| ==> r[i] == Stripped(ts[i])
  {
    seq(|ts|, i requires 0 <= i < |ts| => Stripped(ts[i]))
  }

  lemma {:induction false} StrippedConcat(a: seq<Taken>, b: seq<Taken>)
    ensures StrippedAll(a + b) == StrippedAll(a) + StrippedAll(b)
  {
  }

  lemma {:induction false} StrippedPermuted(a: seq<Taken>, b: seq<Taken>)
    requires multiset(a) == multiset(b)
    ensures multiset(StrippedAll(a)) == multiset(StrippedAll(b))
  {
    StrippedCollect(a);
    StrippedCollect(b);
    CollectPermuted(a, b, (t: Taken) => [Stripped(t)]);
  }

  lemma {:induction false} StrippedCollect(a: seq<Taken>)
    ensures StrippedAll(a) == Collect(a, (t: Taken) => [Stripped(t)])
  {
    if a != [] {
      var k := |a| - 1;
      StrippedCollect(a[..k]);
      StrippedConcat(a[..k], [a[k]]);
      assert a == a[..k] + [a[k]];
    }
  }

  /** What the validated submissions contribute is what their requests contribute. */
  lemma {:induction false} ItemsCollect<U>(w: Round, qs: seq<Request>, n: nat, g: Item -> seq<U>, h: Request -> seq<U>)
    requires n <= |qs|
    requires forall k :: 0 <= k < |qs| ==> h(qs[k]) == if Passes(w, qs[k]) then g(ItemAt(w, qs[k], k)) else []
    ensures Collect(ItemsOf(w, qs, n), g) == Collect(qs[..n], h)
  {
    hide Passes, Acts;
    if n > 0 {
      var q := qs[n - 1];
      ItemsCollect(w, qs, n - 1, g, h);
      assert qs[..n][..n - 1] == qs[..n - 1];
      if !Passes(w, q) {
        assert ItemsOf(w, qs, n) == ItemsOf(w, qs, n - 1);
      } else {
        CollectConcat(ItemsOf(w, qs, n - 1), [ItemAt(w, q, n - 1)], g);
        CollectOne(ItemAt(w, q, n - 1), g);
      }
    }
  }

  lemma {:induction false} CollectOne<T, U>(x: T, f: T -> seq<U>)
    ensures Collect([x], f) == f(x)
  {
    assert [x][..0] == [];
  }

  /** What a request contributes, whenever it arrives. */
  function ActorsOf(w: Round): Request -> seq<string> { (q: Request) => if Passes(w, q) then [q.actor] else [] }
  function ProjectionsOf(w: Round): Request -> seq<string> { (q: Request) => if Passes(w, q) then [q.projection] else [] }
  function ActionsOf(w: Round): Request -> seq<Taken> {
    (q: Request) =>
      if Passes(w, q) then
        var acts := Acts(w.run, w.turn, q.actor, q.contents, w.claims);
        seq(|acts|, i requires 0 <= i < |acts| => Taken(acts[i], q.actor, SubmissionId("", 0, "", 0), q.session, q.invocation))
      else []
  }

  lemma {:induction false} ItemsPass(w: Round, qs: seq<Request>, n: nat)
    requires n <= |qs|
    ensures forall item :: item in ItemsOf(w, qs, n) ==> ItemOk(LedgerOf(w, qs, |qs|, |qs|), w.run, w.turn, item)
  {
    hide Passes, Acts;
    LedgerHas(w, qs, |qs|, |qs|);
    if n > 0 { ItemsPass(w, qs, n - 1); }
  }

  lemma {:induction false} StrippedFlat(items: seq<Item>, f: Item -> seq<Taken>)
    ensures StrippedAll(Collect(items, f)) == Collect(items, (x: Item) => StrippedAll(f(x)))
  {
    if items != [] {
      var k := |items| - 1;
      StrippedFlat(items[..k], f);
      StrippedConcat(Collect(items[..k], f), f(items[k]));
    }
  }

  lemma {:induction false} TakenFrom(w: Round, ledger: map<SubmissionId, Submission>, q: Request, k: nat)
    requires Passes(w, q) && ItemAt(w, q, k).id in ledger && ledger[ItemAt(w, q, k).id] == JudgedAt(w, q, k)
    ensures ActionsOf(w)(q) == StrippedAll(TakenOf(ledger)(ItemAt(w, q, k)))
  {
    hide Passes;
    var x, y := ActionsOf(w)(q), StrippedAll(TakenOf(ledger)(ItemAt(w, q, k)));
    assert |x| == |y| && forall i :: 0 <= i < |x| ==> x[i] == y[i];
  }

  /** The actors, actions and projections of a turn, from its requests alone. */
  lemma {:induction false} Contributions(w: Round, qs: seq<Request>)
    ensures var ledger, items := LedgerOf(w, qs, |qs|, |qs|), ItemsOf(w, qs, |qs|);
      && Collect(items, ActorOf) == Collect(qs, ActorsOf(w))
      && Collect(items, ProjectionOf(ledger)) == Collect(qs, ProjectionsOf(w))
      && StrippedAll(Collect(items, TakenOf(ledger))) == Collect(qs, ActionsOf(w))
      && forall item :: item in items ==> ItemOk(ledger, w.run, w.turn, item)
  {
    hide Passes, Collect, Acts;
    var ledger := LedgerOf(w, qs, |qs|, |qs|);
    LedgerHas(w, qs, |qs|, |qs|);
    ItemsPass(w, qs, |qs|);
    assert qs[..|qs|] == qs;
    ItemsCollect(w, qs, |qs|, ActorOf, ActorsOf(w));
    ItemsCollect(w, qs, |qs|, ProjectionOf(ledger), ProjectionsOf(w));
    var g := (item: Item) => StrippedAll(TakenOf(ledger)(item));
    StrippedFlat(ItemsOf(w, qs, |qs|), TakenOf(ledger));
    forall k | 0 <= k < |qs|
      ensures ActionsOf(w)(qs[k]) == if Passes(w, qs[k]) then g(ItemAt(w, qs[k], k)) else []
    {
      if Passes(w, qs[k]) { TakenFrom(w, ledger, qs[k], k); }
    }
    ItemsCollect(w, qs, |qs|, g, ActionsOf(w));
  }

  lemma {:induction false} StrippedSorted(xs: seq<Taken>, rank: Taken -> int)
    requires OrdersIds(rank)
    ensures Sorted(StrippedAll(Sort(xs, rank)), rank) && multiset(StrippedAll(Sort(xs, rank))) == multiset(StrippedAll(xs))
    ensures Collect(StrippedAll(Sort(xs, rank)), ActionIdOf) == Collect(Sort(xs, rank), ActionIdOf)
    ensures Collect(StrippedAll(Sort(xs, rank)), ClaimOf) == Collect(Sort(xs, rank), ClaimOf)
  {
    hide Sort, Collect;
    var ys := Sort(xs, rank);
    SortedPermutation(xs, rank);
    StrippedPermuted(ys, xs);
    assert forall t :: rank(Stripped(t)) == rank(t);
    SameKeys(ys, ActionIdOf);
    SameKeys(ys, ClaimOf);
  }

  lemma {:induction false} SameKeys<U>(xs: seq<Taken>, f: Taken -> seq<U>)
    requires forall t :: f(Stripped(t)) == f(t)
    ensures Collect(StrippedAll(xs), f) == Collect(xs, f)
  {
    if xs != [] {
      SameKeys(xs[..|xs| - 1], f);
      assert StrippedAll(xs)[..|xs| - 1] == StrippedAll(xs[..|xs| - 1]);
    }
  }

  /** Two turns in which the same requests arrive in different orders: both are committed or neither is, with the same
      actions in the same order, by the same actors, apart from the submissions they came in. */
  lemma {:induction false} SubmissionOrderIrrelevant(w: Round, first: seq<Request>, second: seq<Request>, rank: Taken -> int)
    requires multiset(first) == multiset(second) && OrdersIds(rank)
    ensures AllCurrent(w, first) <==> AllCurrent(w, second)
    ensures var r, s := Outcome(w, first, rank), Outcome(w, second, rank);
      && (r.Some? <==> s.Some?)
      && (r.Some? ==> StrippedAll(r.value.actions) == StrippedAll(s.value.actions) && r.value.projections == s.value.projections
                      && r.value.run == s.value.run && r.value.turn == s.value.turn)
  {
    hide Collect, Sort, Sorted, Distinct, ItemOk, LedgerOf, ItemsOf, ActorsOf, ProjectionsOf, ActionsOf, TakenOf, ProjectionOf;
    assert AllCurrent(w, first) <==> AllCurrent(w, second) by { SameMembers(first, second); }
    hide AllCurrent;
    Contributions(w, first);
    Contributions(w, second);
    CollectPermuted(first, second, ActorsOf(w));
    CollectPermuted(first, second, ProjectionsOf(w));
    CollectPermuted(first, second, ActionsOf(w));
    DistinctPermuted(Collect(first, ActorsOf(w)), Collect(second, ActorsOf(w)));
    var a := Collect(ItemsOf(w, first, |first|), TakenOf(LedgerOf(w, first, |first|, |first|)));
    var b := Collect(ItemsOf(w, second, |second|), TakenOf(LedgerOf(w, second, |second|, |second|)));
    StrippedSorted(a, rank);
    StrippedSorted(b, rank);
    var x, y := StrippedAll(Sort(a, rank)), StrippedAll(Sort(b, rank));
    CollectPermuted(x, y, ActionIdOf);
    DistinctPermuted(Collect(x, ActionIdOf), Collect(y, ActionIdOf));
    if Distinct(Collect(x, ActionIdOf)) {
      forall s, t | s in x && t in x && rank(s) == rank(t)
        ensures s == t
      {
        KeysRank(x, ActionIdOf, s, t);
      }
      SortedUnique(x, y, rank);
    }
  }
}
