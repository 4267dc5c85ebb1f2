/** What the validator accepts and what the retry loop emits, stated entry by entry on the trace itself. */
module RetryHistory {
  import opened Options
  import opened RetryTrace

  // ---------------------------------------------------------------- the validator without its table

  /** Entry j is the last one before n that is about this invocation. */
  predicate LastAbout(trace: seq<Entry>, n: nat, invocation: nat, j: nat) {
    && j < n <= |trace| && trace[j].invocation == invocation
    && forall k :: j < k < n ==> trace[k].invocation != invocation
  }

  predicate Unheard(trace: seq<Entry>, n: nat, invocation: nat)
    requires n <= |trace|
  {
    forall j :: 0 <= j < n ==> trace[j].invocation != invocation
  }

  /** A dispatch is new, pending, the only one open in its session, and a first attempt or a proper retry. */
  ghost predicate DispatchFine(trace: seq<Entry>, i: nat, projection: nat)
    requires i < |trace|
  {
    var e := trace[i];
    && Unheard(trace, i, e.invocation) && e.classification == Pending && !e.parsed
    && (forall x: nat, j: nat :: LastAbout(trace, i, x, j) && trace[j].request.session == e.request.session ==> trace[j].stage.Complete?)
    && (e.retryOf.None? ==> e.attempt == 1 && e.parent == projection)
    && (e.retryOf.Some? ==> exists j: nat :: RetryFine(trace, i, j))
  }

  /** Entry j completed the attempt that entry i retries: an infrastructure failure marked retryable, of the same request and
      deadline, retried by nobody else. */
  ghost predicate RetryFine(trace: seq<Entry>, i: nat, j: nat)
    requires i < |trace| && trace[i].retryOf.Some?
  {
    && LastAbout(trace, i, trace[i].retryOf.value, j)
    && var e, prior := trace[i], trace[j];
    && prior.stage == Complete && prior.classification == Infrastructure && prior.retryable
    && e.attempt == prior.attempt + 1 && e.request == prior.request && e.parent == prior.event
    && e.deadline == prior.deadline && prior.recordedAt <= e.recordedAt
    && forall x: nat, k: nat :: LastAbout(trace, i, x, k) ==> trace[k].retryOf != e.retryOf
  }

  /** A completion follows the dispatch of its invocation, repeats what that said, is not before it, and reports a success
      exactly when something was parsed, and only before the deadline. */
  ghost predicate CompleteFine(trace: seq<Entry>, i: nat, j: nat)
    requires i < |trace|
  {
    && LastAbout(trace, i, trace[i].invocation, j)
    && var e, prior := trace[i], trace[j];
    && prior.stage == Dispatch && e.request == prior.request && e.attempt == prior.attempt && e.retryOf == prior.retryOf
    && e.parent == prior.event && e.deadline == prior.deadline && prior.recordedAt <= e.recordedAt
    && (e.parsed <==> e.classification == Success) && (e.parsed ==> e.recordedAt < e.deadline)
  }

  ghost predicate EntryFine(trace: seq<Entry>, i: nat, projection: nat, maxAttempts: nat)
    requires i < |trace|
  {
    && 0 <= trace[i].recordedAt && trace[i].attempt <= maxAttempts
    && (trace[i].stage == Dispatch ==> DispatchFine(trace, i, projection))
    && (trace[i].stage == Complete ==> exists j: nat :: CompleteFine(trace, i, j))
  }

  /** The validator's table after n entries holds the last entry about each invocation. */
  ghost predicate Tabled(trace: seq<Entry>, n: nat, known: Known)
    requires n <= |trace|
  {
    && (forall x: nat :: x !in known ==> Unheard(trace, n, x))
    && (forall x: nat :: x in known ==> exists j: nat :: LastAbout(trace, n, x, j))
    && (forall x: nat, j: nat :: LastAbout(trace, n, x, j) ==> x in known && known[x] == trace[j])
  }

  /** The table's entry of x is entry j. */
  predicate Holding(trace: seq<Entry>, n: nat, known: Known, x: nat, j: nat) {
    LastAbout(trace, n, x, j) && x in known && known[x] == trace[j]
  }

  lemma {:induction false} TabledNext(trace: seq<Entry>, n: nat, known: Known)
    requires n < |trace| && Tabled(trace, n, known)
    ensures Tabled(trace, n + 1, known[trace[n].invocation := trace[n]])
  {
    var next, m := known[trace[n].invocation := trace[n]], n + 1;
    forall x: nat | x in next
      ensures exists j: nat :: LastAbout(trace, m, x, j)
    {
      if x == trace[n].invocation {
        assert LastAbout(trace, m, x, n);
      } else {
        var j: nat :| LastAbout(trace, n, x, j);
        assert LastAbout(trace, m, x, j);
      }
    }
    forall x: nat, j: nat | LastAbout(trace, m, x, j)
      ensures x in next && next[x] == trace[j]
    {
      if j < n { assert LastAbout(trace, n, x, j); }
    }
  }

  lemma {:induction false} DispatchAgrees(trace: seq<Entry>, i: nat, known: Known, projection: nat)
    requires i < |trace| && Tabled(trace, i, known)
    ensures DispatchOk(known, trace[i], projection) <==> DispatchFine(trace, i, projection)
  {
    var e := trace[i];
    assert Unheard(trace, i, e.invocation) <==> e.invocation !in known by { UnheardAgrees(trace, i, known, e.invocation); }
    if e.retryOf.Some? { RetryAgrees(trace, i, known); }
    forall x: nat | x in known
      ensures exists j: nat :: Holding(trace, i, known, x, j)
    {
      var j: nat :| LastAbout(trace, i, x, j);
      assert Holding(trace, i, known, x, j);
    }
  }

  lemma {:induction false} UnheardAgrees(trace: seq<Entry>, n: nat, known: Known, x: nat)
    requires n <= |trace| && Tabled(trace, n, known)
    ensures Unheard(trace, n, x) <==> x !in known
  {
  }

  lemma {:induction false} RetryAgrees(trace: seq<Entry>, i: nat, known: Known)
    requires i < |trace| && Tabled(trace, i, known) && trace[i].retryOf.Some?
    ensures RetryOk(known, trace[i]) <==> exists j: nat :: RetryFine(trace, i, j)
  {
    hide Unheard;
    var e := trace[i];
    forall x: nat | x in known
      ensures exists j: nat :: Holding(trace, i, known, x, j)
    {
      var j: nat :| LastAbout(trace, i, x, j);
      assert Holding(trace, i, known, x, j);
    }
    if RetryOk(known, e) {
      var j: nat :| LastAbout(trace, i, e.retryOf.value, j);
      assert RetryFine(trace, i, j);
    }
  }

  lemma {:induction false} CompleteAgrees(trace: seq<Entry>, i: nat, known: Known)
    requires i < |trace| && Tabled(trace, i, known)
    ensures CompleteOk(known, trace[i]) <==> exists j: nat :: CompleteFine(trace, i, j)
  {
    hide Unheard;
    if CompleteOk(known, trace[i]) {
      var j: nat :| LastAbout(trace, i, trace[i].invocation, j);
      assert CompleteFine(trace, i, j);
    }
  }

  lemma {:induction false} AcceptsFrom(trace: seq<Entry>, n: nat, known: Known, projection: nat, maxAttempts: nat)
    requires n <= |trace| && Tabled(trace, n, known)
    ensures Accepts(known, trace[n..], projection, maxAttempts) <==>
      forall i :: n <= i < |trace| ==> EntryFine(trace, i, projection, maxAttempts)
    decreases |trace| - n
  {
    hide Tabled, DispatchOk, CompleteOk, DispatchFine, CompleteFine;
    if n < |trace| {
      assert trace[n..][0] == trace[n] && trace[n..][1..] == trace[n + 1..];
      if trace[n].stage.Dispatch? { DispatchAgrees(trace, n, known, projection); } else { CompleteAgrees(trace, n, known); }
      assert Admits(known, trace[n], projection, maxAttempts) <==> EntryFine(trace, n, projection, maxAttempts);
      TabledNext(trace, n, known);
      AcceptsFrom(trace, n + 1, known[trace[n].invocation := trace[n]], projection, maxAttempts);
    }
  }

  /** The validator, started on nothing, accepts exactly the traces all of whose entries are fine. */
  lemma {:induction false} AcceptedIff(trace: seq<Entry>, projection: nat, maxAttempts: nat)
    ensures Accepts(map[], trace, projection, maxAttempts) <==>
      forall i :: 0 <= i < |trace| ==> EntryFine(trace, i, projection, maxAttempts)
  {
    hide Accepts;
    assert Tabled(trace, 0, map[]);
    assert trace[0..] == trace;
    AcceptsFrom(trace, 0, map[], projection, maxAttempts);
  }

  // ---------------------------------------------------------------- the retry loop's entries

  /** Exactly when another attempt follows: the model was asked in time and failed retryably, attempts are left, and the
      clock and the world have not moved past the request. */
  predicate Continues(a: Attempt, n: nat, maxAttempts: nat, deadline: int) {
    && a.before < deadline && a.currentBefore && a.answer.Failure? && a.answer.retryable
    && n + 1 <= maxAttempts && a.later < deadline && a.currentLater
  }

  /** How an attempt ends. */
  predicate EndsAs(a: Attempt, deadline: int, c: Classification, retryable: bool) {
    var asked := a.before < deadline && a.currentBefore;
    && (asked && a.answer.Failure? ==> c == a.answer.classification && (retryable <==> a.answer.retryable))
    && (!(asked && a.answer.Failure?) ==> !retryable)
    && (asked && a.answer.Text? && a.after < deadline && a.currentAfter ==> c == if a.answer.parses then Success else AgentOutput)
    && (!asked || (a.answer.Text? && !(a.after < deadline && a.currentAfter)) ==> c == Infrastructure)
  }

  /** The two entries of the n-th attempt, its events numbered from `event`. */
  predicate Entries(d: Entry, c: Entry, a: Attempt, q: Request, n: nat, retryOf: Option<nat>, parent: nat, event: nat, deadline: int) {
    && d.stage == Dispatch && c.stage == Complete && d.invocation == a.invocation == c.invocation
    && d.request == q == c.request && d.attempt == n == c.attempt && d.retryOf == retryOf == c.retryOf
    && d.event == event && c.event == event + 1 && d.parent == parent && c.parent == event
    && d.recordedAt == a.dispatched && c.recordedAt == a.completed && d.deadline == deadline == c.deadline
    && d.classification == Pending && !d.retryable && !d.parsed
    && EndsAs(a, deadline, c.classification, c.retryable) && (c.parsed <==> c.classification == Success)
  }

  /** The loop makes attempts as long as each one continues, and each makes its two entries: the first under the request's
      projection, the others as retries of the one before. */
  lemma {:induction false} EmittedInOrder(attempts: seq<Attempt>, q: Request, n: nat, retryOf: Option<nat>, parent: nat, event: nat,
                                          maxAttempts: nat, deadline: int)
    requires n <= maxAttempts && attempts != []
    ensures var trace := Emitted(attempts, q, n, retryOf, parent, event, maxAttempts, deadline);
      && 2 <= |trace| <= 2 * |attempts| && |trace| % 2 == 0
      && Entries(trace[0], trace[1], attempts[0], q, n, retryOf, parent, event, deadline)
      && (|trace| > 2 ==> Continues(attempts[0], n, maxAttempts, deadline))
      && (|trace| == 2 && |attempts| > 1 ==> !Continues(attempts[0], n, maxAttempts, deadline))
      && var rest := Emitted(attempts[1..], q, n + 1, Some(attempts[0].invocation), event + 1, event + 2, maxAttempts, deadline);
         |trace| > 2 ==> trace[2..] == rest
  {
    var a := attempts[0];
    var two := [Dispatched(a, q, n, retryOf, parent, event, deadline), Completed(a, q, n, retryOf, event, deadline)];
    if Retries(a, n, maxAttempts, deadline) {
      var rest := Emitted(attempts[1..], q, n + 1, Some(a.invocation), event + 1, event + 2, maxAttempts, deadline);
      assert (two + rest)[2..] == rest;
      if |attempts| > 1 {
        EmittedInOrder(attempts[1..], q, n + 1, Some(a.invocation), event + 1, event + 2, maxAttempts, deadline);
      }
    }
  }

  /** Entries 2i and 2i + 1 are those of attempt i, which retries the one before it. */
  predicate AttemptTold(trace: seq<Entry>, attempts: seq<Attempt>, i: nat, q: Request, n: nat, retryOf: Option<nat>, parent: nat, event: nat,
                        deadline: int) {
    && i < |attempts| && 2 * i + 1 < |trace|
    && Entries(trace[2 * i], trace[2 * i + 1], attempts[i], q, n + i, if i == 0 then retryOf else Some(attempts[i - 1].invocation),
               if i == 0 then parent else event + 2 * i - 1, event + 2 * i, deadline)
  }

  /** Whole runs of the loop: with enough attempts prepared it makes m of them, all but the last of which continue. */
  lemma {:induction false} LoopTold(attempts: seq<Attempt>, q: Request, n: nat, retryOf: Option<nat>, parent: nat, event: nat,
                                    maxAttempts: nat, deadline: int) returns (m: nat)
    requires n <= maxAttempts && |attempts| > maxAttempts - n
    ensures var trace := Emitted(attempts, q, n, retryOf, parent, event, maxAttempts, deadline);
      && 0 < m <= |attempts| && |trace| == 2 * m
      && (forall i :: 0 <= i < m ==> (Continues(attempts[i], n + i, maxAttempts, deadline) <==> i + 1 < m))
      && forall i :: 0 <= i < m ==> AttemptTold(trace, attempts, i, q, n, retryOf, parent, event, deadline)
    decreases maxAttempts - n
  {
    hide Entries, Emitted, Continues;
    EmittedInOrder(attempts, q, n, retryOf, parent, event, maxAttempts, deadline);
    var trace := Emitted(attempts, q, n, retryOf, parent, event, maxAttempts, deadline);
    LastCannot(attempts[0], maxAttempts, deadline);
    if |trace| == 2 {
      m := 1;
    } else {
      var id := attempts[0].invocation;
      var rest := Emitted(attempts[1..], q, n + 1, Some(id), event + 1, event + 2, maxAttempts, deadline);
      var k := LoopTold(attempts[1..], q, n + 1, Some(id), event + 1, event + 2, maxAttempts, deadline);
      m := k + 1;
      forall i | 0 <= i < m
        ensures Continues(attempts[i], n + i, maxAttempts, deadline) <==> i + 1 < m
        ensures AttemptTold(trace, attempts, i, q, n, retryOf, parent, event, deadline)
      {
        if i > 0 {
          assert AttemptTold(rest, attempts[1..], i - 1, q, n + 1, Some(id), event + 1, event + 2, deadline);
          ToldLater(trace, rest, attempts, i, q, n, retryOf, parent, event, deadline);
          assert attempts[i] == attempts[1..][i - 1];
          assert Continues(attempts[1..][i - 1], n + 1 + (i - 1), maxAttempts, deadline) <==> i - 1 + 1 < k;
        }
      }
    }
  }

  lemma {:induction false} LastCannot(a: Attempt, n: nat, deadline: int)
    ensures !Continues(a, n, n, deadline)
  {
  }

  lemma {:induction false} ToldLater(trace: seq<Entry>, rest: seq<Entry>, attempts: seq<Attempt>, i: nat, q: Request, n: nat,
                                     retryOf: Option<nat>, parent: nat, event: nat, deadline: int)
    requires 0 < i < |attempts| && |trace| == |rest| + 2 && trace[2..] == rest
    requires AttemptTold(rest, attempts[1..], i - 1, q, n + 1, Some(attempts[0].invocation), event + 1, event + 2, deadline)
    ensures AttemptTold(trace, attempts, i, q, n, retryOf, parent, event, deadline)
  {
    hide Entries;
    var j := i - 1;
    assert rest[2 * j] == trace[2 * i] && rest[2 * j + 1] == trace[2 * i + 1] && attempts[1..][j] == attempts[i];
    if j > 0 { assert attempts[1..][j - 1] == attempts[i - 1]; }
  }
}
