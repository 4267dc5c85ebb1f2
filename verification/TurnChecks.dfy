/** What a committed turn holds and why a commit is refused, stated on the ledger and the record. */
module TurnChecks {
  import opened Options
  import opened Permutations
  import opened TurnCommit

  /** The item is a submission of this ledger, validated for this run and turn, and repeats what the ledger has of it. */
  predicate Vouched(ledger: map<SubmissionId, Submission>, run: string, turn: nat, item: Item) {
    && item.id in ledger
    && ledger[item.id].run == run && ledger[item.id].turn == turn && ledger[item.id].state == Validated
    && ledger[item.id].actor == item.actor && item.run == run && item.turn == turn && ledger[item.id].actions == item.accepted
  }

  /** No two places of the list hold equal elements. */
  predicate NoneTwice<T(==)>(xs: seq<T>) { forall i, j :: 0 <= i < j < |xs| ==> xs[i] != xs[j] }

  lemma {:induction false} AppendTwice<T>(xs: seq<T>, x: T)
    ensures NoneTwice(xs + [x]) <==> NoneTwice(xs) && x !in xs
  {
    var all := xs + [x];
    assert forall i :: 0 <= i < |xs| ==> all[i] == xs[i];
    assert all[|xs|] == x;
  }

  lemma {:induction false} AppendDistinct<T>(xs: seq<T>, x: T)
    ensures Distinct(xs + [x]) <==> Distinct(xs) && x !in xs
  {
    assert forall y :: multiset(xs + [x])[y] == multiset(xs)[y] + multiset([x])[y];
    assert multiset([x])[x] == 1;
    if Distinct(xs + [x]) {
      forall y | y in xs
        ensures multiset(xs)[y] == 1 && y != x
      {
        assert y in xs + [x] && multiset(xs)[y] >= 1;
      }
    }
  }

  lemma {:induction false} DistinctNoneTwice<T>(xs: seq<T>)
    ensures Distinct(xs) <==> NoneTwice(xs)
  {
    if xs != [] {
      var k := |xs| - 1;
      DistinctNoneTwice(xs[..k]);
      assert xs == xs[..k] + [xs[k]];
      AppendTwice(xs[..k], xs[k]);
      AppendDistinct(xs[..k], xs[k]);
    }
  }

  /** What is taken from a submission: its actions in order, under its actor and lineage. */
  function Contributed(ledger: map<SubmissionId, Submission>, item: Item): (ts: seq<Taken>)
    requires item.id in ledger
    ensures |ts| == |ledger[item.id].actions|
    ensures forall i :: 0 <= i < |ts| ==>
      && ts[i].act == ledger[item.id].actions[i] && ts[i].actor == ledger[item.id].actor && ts[i].submission == ledger[item.id].id
      && ts[i].session == ledger[item.id].session && ts[i].invocation == ledger[item.id].invocation
  {
    seq(|ledger[item.id].actions|, i requires 0 <= i < |ledger[item.id].actions| =>
      Taken(ledger[item.id].actions[i], ledger[item.id].actor, ledger[item.id].id, ledger[item.id].session, ledger[item.id].invocation))
  }

  function AllContributed(ledger: map<SubmissionId, Submission>, items: seq<Item>): seq<Taken>
    requires forall item :: item in items ==> item.id in ledger
  {
    if items == [] then [] else AllContributed(ledger, items[..|items| - 1]) + Contributed(ledger, items[|items| - 1])
  }

  lemma {:induction false} CollectsContributed(ledger: map<SubmissionId, Submission>, items: seq<Item>)
    requires forall item :: item in items ==> item.id in ledger
    ensures Collect(items, TakenOf(ledger)) == AllContributed(ledger, items)
  {
    if items != [] { CollectsContributed(ledger, items[..|items| - 1]); }
  }

  /** Collecting one thing from each lists them in order. */
  lemma {:induction false} CollectsOne<T, U>(xs: seq<T>, f: T -> seq<U>)
    requires forall i :: 0 <= i < |xs| ==> |f(xs[i])| == 1
    ensures |Collect(xs, f)| == |xs| && forall i :: 0 <= i < |xs| ==> Collect(xs, f)[i] == f(xs[i])[0]
  {
    if xs != [] {
      var k := |xs| - 1;
      CollectsOne(xs[..k], f);
      assert Collect(xs, f) == Collect(xs[..k], f) + f(xs[k]);
    }
  }

  /** Two actions claim one unit. */
  predicate ClaimTwice(ts: seq<Taken>) {
    exists i, j :: 0 <= i < j < |ts| && ts[i].act.claims.Some? && ts[i].act.claims == ts[j].act.claims
  }

  predicate Claims(ts: seq<Taken>, u: string) { exists i :: 0 <= i < |ts| && ts[i].act.claims == Some(u) }

  lemma {:induction false} ClaimsStep(ts: seq<Taken>, t: Taken)
    ensures forall u :: Claims(ts + [t], u) <==> Claims(ts, u) || t.act.claims == Some(u)
    ensures ClaimTwice(ts + [t]) <==> ClaimTwice(ts) || (t.act.claims.Some? && Claims(ts, t.act.claims.value))
  {
    var all := ts + [t];
    assert all[|ts|] == t && forall i :: 0 <= i < |ts| ==> all[i] == ts[i];
    forall u
      ensures Claims(all, u) <==> Claims(ts, u) || t.act.claims == Some(u)
    {
      if Claims(ts, u) {
        var i :| 0 <= i < |ts| && ts[i].act.claims == Some(u);
        assert all[i].act.claims == Some(u);
      }
    }
    if t.act.claims.Some? && Claims(ts, t.act.claims.value) {
      var i :| 0 <= i < |ts| && ts[i].act.claims == t.act.claims;
      assert all[i].act.claims == all[|ts|].act.claims;
    }
    if ClaimTwice(ts) {
      var i, j :| 0 <= i < j < |ts| && ts[i].act.claims.Some? && ts[i].act.claims == ts[j].act.claims;
      assert all[i].act.claims == all[j].act.claims;
    }
  }

  lemma {:induction false} CollectsClaims(ts: seq<Taken>)
    ensures forall u :: u in Collect(ts, ClaimOf) <==> Claims(ts, u)
    ensures NoneTwice(Collect(ts, ClaimOf)) <==> !ClaimTwice(ts)
  {
    hide Claims, ClaimTwice, NoneTwice;
    if ts != [] {
      var k := |ts| - 1;
      CollectsClaims(ts[..k]);
      ClaimsStep(ts[..k], ts[k]);
      assert ts == ts[..k] + [ts[k]];
      var before, last := Collect(ts[..k], ClaimOf), ClaimOf(ts[k]);
      assert Collect(ts, ClaimOf) == before + last;
      if last != [] {
        assert last == [last[0]];
        AppendTwice(before, last[0]);
      } else {
        assert before + last == before;
      }
    } else {
      NothingClaimed();
    }
  }

  lemma {:induction false} NothingClaimed()
    ensures !ClaimTwice([]) && NoneTwice<string>([]) && forall u :: !Claims([], u)
  {
  }

  /** A permutation keeps what is twice. */
  lemma {:induction false} TwicePermuted(a: seq<Taken>, b: seq<Taken>)
    requires multiset(a) == multiset(b)
    ensures NoneTwice(Collect(a, ActionIdOf)) <==> NoneTwice(Collect(b, ActionIdOf))
    ensures ClaimTwice(a) <==> ClaimTwice(b)
  {
    hide Collect, NoneTwice, Distinct, ClaimTwice;
    CollectPermuted(a, b, ActionIdOf);
    CollectPermuted(a, b, ClaimOf);
    DistinctPermuted(Collect(a, ActionIdOf), Collect(b, ActionIdOf));
    DistinctPermuted(Collect(a, ClaimOf), Collect(b, ClaimOf));
    DistinctNoneTwice(Collect(a, ActionIdOf));
    DistinctNoneTwice(Collect(b, ActionIdOf));
    DistinctNoneTwice(Collect(a, ClaimOf));
    DistinctNoneTwice(Collect(b, ClaimOf));
    CollectsClaims(a);
    CollectsClaims(b);
  }

  /** Two actions taken have one id. */
  predicate IdTwice(ts: seq<Taken>) { exists i, j :: 0 <= i < j < |ts| && ts[i].act.id == ts[j].act.id }

  lemma {:induction false} IdsTwice(ts: seq<Taken>)
    ensures NoneTwice(Collect(ts, ActionIdOf)) <==> !IdTwice(ts)
  {
    hide Collect;
    CollectsOne(ts, ActionIdOf);
  }

  predicate OneEach(items: seq<Item>) { forall i, j :: 0 <= i < j < |items| ==> items[i].actor != items[j].actor }

  /** A turn is committed exactly when every item is vouched for by the ledger, no actor has two, no action id occurs
      twice and no unit is claimed twice.  The record then holds exactly the actions of these submissions, by rank, and
      names each submission and projection as often as it was handed in. */
  lemma {:induction false} CommitMeans(ledger: map<SubmissionId, Submission>, run: string, turn: nat, items: seq<Item>, rank: Taken -> int)
    ensures var r := Commit(ledger, run, turn, items, rank);
      && (r.Some? <==>
            && (forall item :: item in items ==> Vouched(ledger, run, turn, item)) && OneEach(items)
            && !IdTwice(AllContributed(ledger, items)) && !ClaimTwice(AllContributed(ledger, items)))
      && (r.Some? ==> Recorded(ledger, run, turn, items, rank, r.value))
  {
    if forall item :: item in items ==> Vouched(ledger, run, turn, item) {
      VouchedOk(ledger, run, turn, items);
      VouchedMeans(ledger, run, turn, items, rank);
    } else {
      var item :| item in items && !Vouched(ledger, run, turn, item);
      assert !ItemOk(ledger, run, turn, item);
    }
  }

  lemma {:induction false} VouchedMeans(ledger: map<SubmissionId, Submission>, run: string, turn: nat, items: seq<Item>, rank: Taken -> int)
    requires forall item :: item in items ==> Vouched(ledger, run, turn, item) && ItemOk(ledger, run, turn, item)
    ensures var r, all := Commit(ledger, run, turn, items, rank), AllContributed(ledger, items);
      && (r.Some? <==> OneEach(items) && !IdTwice(all) && !ClaimTwice(all))
      && (r.Some? ==> Recorded(ledger, run, turn, items, rank, r.value))
  {
    hide Collect, Sort, Distinct, IdTwice, ClaimTwice, AllContributed, ItemOk, Ids, Projections;
    var all := AllContributed(ledger, items);
    var sorted := Sort(all, rank);
    CollectsContributed(ledger, items);
    SortedPermutation(all, rank);
    TwicePermuted(all, sorted);
    IdsTwice(all);
    IdsTwice(sorted);
    CollectsClaims(sorted);
    DistinctNoneTwice(Collect(sorted, ActionIdOf));
    DistinctNoneTwice(Collect(sorted, ClaimOf));
    CollectsItems(ledger, items);
    assert Distinct(Collect(items, ActorOf)) <==> OneEach(items);
  }

  lemma {:induction false} CollectsItems(ledger: map<SubmissionId, Submission>, items: seq<Item>)
    requires forall item :: item in items ==> item.id in ledger
    ensures Distinct(Collect(items, ActorOf)) <==> OneEach(items)
    ensures Collect(items, IdOf) == Ids(items) && Collect(items, ProjectionOf(ledger)) == Projections(ledger, items)
  {
    hide Collect, Distinct;
    DistinctNoneTwice(Collect(items, ActorOf));
    CollectsOne(items, ActorOf);
    CollectsOne(items, IdOf);
    CollectsOne(items, ProjectionOf(ledger));
  }

  lemma {:induction false} VouchedOk(ledger: map<SubmissionId, Submission>, run: string, turn: nat, items: seq<Item>)
    requires forall item :: item in items ==> Vouched(ledger, run, turn, item)
    ensures forall item :: item in items ==> ItemOk(ledger, run, turn, item)
  {
  }

  function Ids(items: seq<Item>): (ids: seq<SubmissionId>)
    ensures |ids| == |items| && forall i :: 0 <= i < |items| ==> ids[i] == items[i].id
  {
    seq(|items|, i requires 0 <= i < |items| => items[i].id)
  }

  function Projections(ledger: map<SubmissionId, Submission>, items: seq<Item>): (ps: seq<string>)
    requires forall item :: item in items ==> item.id in ledger
    ensures |ps| == |items| && forall i :: 0 <= i < |items| ==> ps[i] == ledger[items[i].id].projection
  {
    seq(|items|, i requires 0 <= i < |items| => ledger[items[i].id].projection)
  }

  ghost predicate Recorded(ledger: map<SubmissionId, Submission>, run: string, turn: nat, items: seq<Item>, rank: Taken -> int, r: Record)
    requires forall item :: item in items ==> item.id in ledger
  {
    && r.run == run && r.turn == turn
    && multiset(r.actions) == multiset(AllContributed(ledger, items))
    && (forall i, j :: 0 <= i < j < |r.actions| ==> rank(r.actions[i]) <= rank(r.actions[j]))
    && r.submissions == multiset(Ids(items)) && r.projections == multiset(Projections(ledger, items))
  }
}
