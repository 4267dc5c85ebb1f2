/** The retry loop around a model call emits a trace of dispatches and completions; the replay validator
    accepts it exactly when no success is stamped at or after the deadline. */
module RetryTrace {
  import opened Options

  datatype Stage = Dispatch | Complete

  datatype Classification = Pending | Success | Infrastructure | AgentOutput | Other

  /** What all events of one request share: session, actor, prompt, projection, configuration. */
  datatype Request = Request(session: string, inputs: string)

  /** A recorded model invocation event and its diagnostic. */
  datatype Entry = Entry(stage: Stage, invocation: nat, event: nat, parent: nat, request: Request, attempt: nat,
                         retryOf: Option<nat>, classification: Classification, retryable: bool, parsed: bool,
                         recordedAt: int, deadline: int)

  // ---------------------------------------------------------------- the validator

  /** Invocations by identifier: their latest stage and entry. */
  type Known = map<nat, Entry>

  /** `projection` is the event that issued this request's projection. */
  predicate Admits(known: Known, e: Entry, projection: nat, maxAttempts: nat) {
    && e.attempt <= maxAttempts && e.recordedAt >= 0
    && match e.stage
       case Dispatch => DispatchOk(known, e, projection)
       case Complete => CompleteOk(known, e)
  }

  predicate DispatchOk(known: Known, e: Entry, projection: nat) {
    && e.invocation !in known
    && (forall i :: i in known ==> !(known[i].stage.Dispatch? && known[i].request.session == e.request.session))
    && e.classification.Pending? && !e.parsed
    && if e.retryOf.None? then e.attempt == 1 && e.parent == projection else RetryOk(known, e)
  }

  predicate RetryOk(known: Known, e: Entry)
    requires e.retryOf.Some?
  {
    && e.retryOf.value in known
    && var prior := known[e.retryOf.value];
    && prior.stage.Complete? && prior.classification.Infrastructure? && prior.retryable && e.attempt == prior.attempt + 1
    && e.request == prior.request && e.parent == prior.event
    && (forall i :: i in known ==> known[i].retryOf != e.retryOf)
    && e.deadline == prior.deadline && e.recordedAt >= prior.recordedAt
  }

  predicate CompleteOk(known: Known, e: Entry) {
    && e.invocation in known
    && var prior := known[e.invocation];
    && prior.stage.Dispatch? && prior.request == e.request && prior.attempt == e.attempt && prior.retryOf == e.retryOf
    && e.parent == prior.event && e.deadline == prior.deadline && e.recordedAt >= prior.recordedAt
    && (e.classification.Success? ==> e.recordedAt < e.deadline)
    && (e.classification.Success? <==> e.parsed)
  }

  predicate Accepts(known: Known, trace: seq<Entry>, projection: nat, maxAttempts: nat)
    decreases |trace|
  {
    trace == [] || (Admits(known, trace[0], projection, maxAttempts) &&
                    Accepts(known[trace[0].invocation := trace[0]], trace[1..], projection, maxAttempts))
  }

  /** The validator's loop over a recorded trace. */
  method Validate(start: Known, trace: seq<Entry>, projection: nat, maxAttempts: nat) returns (ok: bool)
    ensures ok <==> Accepts(start, trace, projection, maxAttempts)
  {
    hide Admits;
    var known: Known := start;
    for i := 0 to |trace|
      invariant Accepts(start, trace, projection, maxAttempts) <==> Accepts(known, trace[i..], projection, maxAttempts)
    {
      if !Admits(known, trace[i], projection, maxAttempts) { return false; }
      known := known[trace[i].invocation := trace[i]];
    }
    ok := true;
  }

  // ---------------------------------------------------------------- the retry loop

  /** What the environment does during one attempt: the clock at each reading, whether the request is still
      current at each check, and how the model answered. */
  datatype Answer = Text(parses: bool) | Failure(classification: Classification, retryable: bool)
  datatype Attempt = Attempt(invocation: nat, dispatched: int, before: int, currentBefore: bool, answer: Answer,
                             after: int, currentAfter: bool, completed: int, later: int, currentLater: bool)

  /** How an attempt is classified: late or superseded before the call, after it, unparsable, or as the model failed. */
  function Verdict(a: Attempt, deadline: int): (Classification, bool) {
    if a.before >= deadline || !a.currentBefore then (Infrastructure, false)
    else if a.answer.Failure? then (a.answer.classification, a.answer.retryable)
    else if a.after >= deadline || !a.currentAfter then (Infrastructure, false)
    else if !a.answer.parses then (AgentOutput, false)
    else (Success, false)
  }

  function Dispatched(a: Attempt, q: Request, n: nat, retryOf: Option<nat>, parent: nat, event: nat, deadline: int): Entry {
    Entry(Dispatch, a.invocation, event, parent, q, n, retryOf, Pending, false, false, a.dispatched, deadline)
  }

  function Completed(a: Attempt, q: Request, n: nat, retryOf: Option<nat>, event: nat, deadline: int): Entry {
    var v := Verdict(a, deadline);
    Entry(Complete, a.invocation, event + 1, event, q, n, retryOf, v.0, v.1, v.0.Success?, a.completed, deadline)
  }

  predicate Retries(a: Attempt, n: nat, maxAttempts: nat, deadline: int) {
    Verdict(a, deadline).1 && n < maxAttempts && a.later < deadline && a.currentLater
  }

  /** The events of attempts n, n+1, ... with event numbers from `event` on. */
  function Emitted(answers: seq<Attempt>, q: Request, n: nat, retryOf: Option<nat>, parent: nat, event: nat, maxAttempts: nat, deadline: int): seq<Entry>
    decreases |answers|
  {
    if answers == [] || n > maxAttempts then []
    else
      var a := answers[0];
      [Dispatched(a, q, n, retryOf, parent, event, deadline), Completed(a, q, n, retryOf, event, deadline)] +
      if Retries(a, n, maxAttempts, deadline)
      then Emitted(answers[1..], q, n + 1, Some(a.invocation), event + 1, event + 2, maxAttempts, deadline) else []
  }

  lemma {:induction false} EmittedStep(attempts: seq<Attempt>, i: nat, q: Request, n: nat, retryOf: Option<nat>, parent: nat, event: nat,
                                       maxAttempts: nat, deadline: int, done: seq<Entry>)
    requires i < |attempts| && n <= maxAttempts
    ensures var a := attempts[i];
      var two := [Dispatched(a, q, n, retryOf, parent, event, deadline), Completed(a, q, n, retryOf, event, deadline)];
      done + Emitted(attempts[i..], q, n, retryOf, parent, event, maxAttempts, deadline) ==
      done + two + (if Retries(a, n, maxAttempts, deadline)
                    then Emitted(attempts[i + 1..], q, n + 1, Some(a.invocation), event + 1, event + 2, maxAttempts, deadline) else [])
  {
    hide Verdict, Retries, Dispatched, Completed;
    assert attempts[i..][0] == attempts[i] && attempts[i..][1..] == attempts[i + 1..];
  }

  /** The loop: dispatch, call, complete, and retry while that is allowed. */
  method Invoke(attempts: seq<Attempt>, q: Request, projection: nat, event: nat, maxAttempts: nat, deadline: int) returns (trace: seq<Entry>)
    requires |attempts| >= maxAttempts
    ensures trace == Emitted(attempts, q, 1, None, projection, event, maxAttempts, deadline)
  {
    hide Verdict, Retries, Dispatched, Completed, Emitted;
    trace := [];
    var retryOf, previous: nat, next: nat := None, projection, event;
    assert attempts[0..] == attempts;
    for n := 1 to maxAttempts + 1
      invariant Emitted(attempts, q, 1, None, projection, event, maxAttempts, deadline) ==
                trace + Emitted(attempts[n - 1..], q, n, retryOf, previous, next, maxAttempts, deadline)
    {
      var a := attempts[n - 1];
      var dispatched := Dispatched(a, q, n, retryOf, previous, next, deadline);
      var completed := Completed(a, q, n, retryOf, next, deadline);
      EmittedStep(attempts, n - 1, q, n, retryOf, previous, next, maxAttempts, deadline, trace);
      trace := trace + [dispatched, completed];
      if !Retries(a, n, maxAttempts, deadline) {
        assert trace + [] == trace;
        return;
      }
      retryOf, previous, next := Some(a.invocation), next + 1, next + 2;
    }
    NoMoreAttempts(attempts[maxAttempts..], q, maxAttempts, retryOf, previous, next, deadline);
    assert trace + [] == trace;
  }

  lemma {:induction false} NoMoreAttempts(attempts: seq<Attempt>, q: Request, maxAttempts: nat, retryOf: Option<nat>, parent: nat, event: nat, deadline: int)
    ensures Emitted(attempts, q, maxAttempts + 1, retryOf, parent, event, maxAttempts, deadline) == []
  {
  }

  // ---------------------------------------------------------------- the trace is accepted

  /** The clock never runs backwards. */
  ghost predicate Monotone(answers: seq<Attempt>) {
    && (forall i :: 0 <= i < |answers| ==> 0 <= answers[i].dispatched <= answers[i].before <= answers[i].after <= answers[i].completed <= answers[i].later)
    && (forall i :: 0 <= i < |answers| - 1 ==> answers[i].later <= answers[i + 1].dispatched)
  }

  /** Invocation identifiers are new. */
  ghost predicate Fresh(answers: seq<Attempt>, known: Known) {
    && (forall i :: 0 <= i < |answers| ==> answers[i].invocation !in known)
    && (forall i, j :: 0 <= i < j < |answers| ==> answers[i].invocation != answers[j].invocation)
  }

  /** Only infrastructure failures are marked retryable. */
  ghost predicate RetryClassified(answers: seq<Attempt>) {
    forall i :: 0 <= i < |answers| && answers[i].answer.Failure? && answers[i].answer.retryable ==> answers[i].answer.classification.Infrastructure?
  }

  ghost predicate NotPretended(answers: seq<Attempt>) {
    forall i :: 0 <= i < |answers| && answers[i].answer.Failure? ==> !answers[i].answer.classification.Success?
  }

  /** No request of the session is unresolved, and retries refer to invocations that are there. */
  ghost predicate Quiet(known: Known, session: string) {
    && (forall i :: i in known ==> !(known[i].stage.Dispatch? && known[i].request.session == session))
    && (forall i :: i in known && known[i].retryOf.Some? ==> known[i].retryOf.value in known)
  }

  /** Every success in the trace is stamped before the deadline. */
  predicate InTime(trace: seq<Entry>) {
    forall i :: 0 <= i < |trace| && trace[i].classification.Success? ==> trace[i].recordedAt < trace[i].deadline
  }

  /** The last completion, as the next attempt finds it. */
  ghost predicate Resumable(known: Known, q: Request, n: nat, retryOf: Option<nat>, parent: nat, now: int, deadline: int) {
    if retryOf.None? then n == 1
    else
      && retryOf.value in known
      && var p := known[retryOf.value];
      && p.stage.Complete? && p.classification.Infrastructure? && p.retryable && n == p.attempt + 1 && p.request == q
      && p.event == parent && p.deadline == deadline && p.recordedAt <= now
      && forall i :: i in known ==> known[i].retryOf != retryOf
  }

  lemma {:induction false} AttemptAdmitted(known: Known, answers: seq<Attempt>, q: Request, n: nat, retryOf: Option<nat>, parent: nat, event: nat,
                                           projection: nat, maxAttempts: nat, deadline: int)
    requires answers != [] && 1 <= n <= maxAttempts && Monotone(answers) && Fresh(answers, known) && Quiet(known, q.session) && NotPretended(answers)
    requires Resumable(known, q, n, retryOf, parent, answers[0].dispatched, deadline) && (retryOf.None? ==> parent == projection)
    ensures var d, c := Dispatched(answers[0], q, n, retryOf, parent, event, deadline), Completed(answers[0], q, n, retryOf, event, deadline);
      && Admits(known, d, projection, maxAttempts)
      && (Admits(known[d.invocation := d], c, projection, maxAttempts) <==> InTime([c]))
  {
    var d, c := Dispatched(answers[0], q, n, retryOf, parent, event, deadline), Completed(answers[0], q, n, retryOf, event, deadline);
    assert [c][0] == c;
  }

  lemma {:induction false} AcceptsTwo(known: Known, d: Entry, c: Entry, rest: seq<Entry>, projection: nat, maxAttempts: nat)
    requires d.invocation == c.invocation
    ensures Accepts(known, [d, c] + rest, projection, maxAttempts) <==>
      && Admits(known, d, projection, maxAttempts) && Admits(known[d.invocation := d], c, projection, maxAttempts)
      && Accepts(known[c.invocation := c], rest, projection, maxAttempts)
  {
    hide Admits;
    assert ([d, c] + rest)[1..] == [c] + rest && ([c] + rest)[1..] == rest;
    assert known[d.invocation := d][c.invocation := c] == known[c.invocation := c];
  }

  lemma {:induction false} InTimeTwo(d: Entry, c: Entry, rest: seq<Entry>)
    requires d.classification.Pending?
    ensures InTime([d, c] + rest) <==> InTime([c]) && InTime(rest)
  {
    var t := [d, c] + rest;
    assert t[0] == d && t[1] == c && [c][0] == c;
    assert forall i :: 0 <= i < |rest| ==> t[i + 2] == rest[i];
    assert forall i :: 2 <= i < |t| ==> t[i] == rest[i - 2];
  }

  lemma {:induction false} EmittedAccepted(known: Known, answers: seq<Attempt>, q: Request, n: nat, retryOf: Option<nat>, parent: nat, event: nat,
                                           projection: nat, maxAttempts: nat, deadline: int)
    requires 1 <= n && Monotone(answers) && Fresh(answers, known) && RetryClassified(answers) && NotPretended(answers) && Quiet(known, q.session)
    requires answers != [] ==> Resumable(known, q, n, retryOf, parent, answers[0].dispatched, deadline)
    requires retryOf.None? ==> parent == projection
    ensures var trace := Emitted(answers, q, n, retryOf, parent, event, maxAttempts, deadline);
      Accepts(known, trace, projection, maxAttempts) <==> InTime(trace)
    decreases |answers|
  {
    hide Admits, Accepts, InTime;
    if answers == [] || n > maxAttempts {
      NothingEmitted(known, projection, maxAttempts);
    } else {
      var a := answers[0];
      var d, c := Dispatched(a, q, n, retryOf, parent, event, deadline), Completed(a, q, n, retryOf, event, deadline);
      AttemptAdmitted(known, answers, q, n, retryOf, parent, event, projection, maxAttempts, deadline);
      var rest := if Retries(a, n, maxAttempts, deadline)
        then Emitted(answers[1..], q, n + 1, Some(a.invocation), event + 1, event + 2, maxAttempts, deadline) else [];
      AcceptsTwo(known, d, c, rest, projection, maxAttempts);
      InTimeTwo(d, c, rest);
      if Retries(a, n, maxAttempts, deadline) {
        AfterAttempt(known, answers, q, n, retryOf, event, maxAttempts, deadline);
        EmittedAccepted(known[c.invocation := c], answers[1..], q, n + 1, Some(a.invocation), event + 1, event + 2, projection, maxAttempts, deadline);
      } else {
        NothingEmitted(known[c.invocation := c], projection, maxAttempts);
      }
    }
  }

  lemma {:induction false} NothingEmitted(known: Known, projection: nat, maxAttempts: nat)
    ensures Accepts(known, [], projection, maxAttempts) && InTime([])
  {
  }

  lemma {:induction false} AfterAttempt(known: Known, answers: seq<Attempt>, q: Request, n: nat, retryOf: Option<nat>, event: nat, maxAttempts: nat, deadline: int)
    requires answers != [] && Monotone(answers) && Fresh(answers, known) && RetryClassified(answers) && Quiet(known, q.session)
    requires Retries(answers[0], n, maxAttempts, deadline) && (retryOf.Some? ==> retryOf.value in known)
    ensures var c := Completed(answers[0], q, n, retryOf, event, deadline);
      var next := known[c.invocation := c];
      && Monotone(answers[1..]) && Fresh(answers[1..], next) && Quiet(next, q.session)
      && (answers[1..] != [] ==> Resumable(next, q, n + 1, Some(answers[0].invocation), event + 1, answers[1].dispatched, deadline))
  {
  }

  /** How many attempts are made, from the n-th on. */
  function Made(attempts: seq<Attempt>, n: nat, maxAttempts: nat, deadline: int): (m: nat)
    ensures m <= |attempts|
  {
    if attempts == [] || n > maxAttempts then 0
    else if Retries(attempts[0], n, maxAttempts, deadline) then 1 + Made(attempts[1..], n + 1, maxAttempts, deadline) else 1
  }

  /** The model's answer came in time, parses, and is for a request still current. */
  predicate Succeeds(a: Attempt, deadline: int) {
    a.before < deadline && a.currentBefore && a.answer.Text? && a.after < deadline && a.currentAfter && a.answer.parses
  }

  /** Every attempt made that succeeds has its record stamped before the deadline. */
  predicate OnTime(attempts: seq<Attempt>, made: nat, deadline: int)
    requires made <= |attempts|
  {
    forall i :: 0 <= i < made && Succeeds(attempts[i], deadline) ==> attempts[i].completed < deadline
  }

  lemma {:induction false} EmittedInTime(answers: seq<Attempt>, q: Request, n: nat, retryOf: Option<nat>, parent: nat, event: nat,
                                         maxAttempts: nat, deadline: int)
    requires NotPretended(answers)
    ensures InTime(Emitted(answers, q, n, retryOf, parent, event, maxAttempts, deadline)) <==>
            OnTime(answers, Made(answers, n, maxAttempts, deadline), deadline)
    decreases |answers|
  {
    hide InTime;
    if answers == [] || n > maxAttempts {
      NothingEmitted(map[], 0, maxAttempts);
    } else {
      var a := answers[0];
      var d, c := Dispatched(a, q, n, retryOf, parent, event, deadline), Completed(a, q, n, retryOf, event, deadline);
      var rest := if Retries(a, n, maxAttempts, deadline)
        then Emitted(answers[1..], q, n + 1, Some(a.invocation), event + 1, event + 2, maxAttempts, deadline) else [];
      InTimeTwo(d, c, rest);
      CompletionInTime(c);
      NothingEmitted(map[], 0, maxAttempts);
      if Retries(a, n, maxAttempts, deadline) {
        EmittedInTime(answers[1..], q, n + 1, Some(a.invocation), event + 1, event + 2, maxAttempts, deadline);
        assert forall i :: 0 <= i < |answers[1..]| ==> answers[1..][i] == answers[i + 1];
        assert forall i :: 1 <= i < |answers| ==> answers[i] == answers[1..][i - 1];
      }
    }
  }

  lemma {:induction false} CompletionInTime(c: Entry)
    ensures InTime([c]) <==> (c.classification.Success? ==> c.recordedAt < c.deadline)
  {
    assert [c][0] == c;
  }

  /** A recorded call's trace is accepted by the validator exactly when the attempt that succeeded, if one did, was
      stamped before the deadline: a clock that is read again for the stamp can pass it after the check. */
  lemma {:induction false} TraceAcceptedIff(known: Known, attempts: seq<Attempt>, q: Request, projection: nat, event: nat, maxAttempts: nat, deadline: int)
    requires Monotone(attempts) && Fresh(attempts, known) && RetryClassified(attempts) && NotPretended(attempts) && Quiet(known, q.session)
    ensures Accepts(known, Emitted(attempts, q, 1, None, projection, event, maxAttempts, deadline), projection, maxAttempts) <==>
            OnTime(attempts, Made(attempts, 1, maxAttempts, deadline), deadline)
  {
    EmittedAccepted(known, attempts, q, 1, None, projection, event, projection, maxAttempts, deadline);
    EmittedInTime(attempts, q, 1, None, projection, event, maxAttempts, deadline);
  }

  /** The smallest rejected trace: the answer arrives at 9, the deadline is 10, and the record is stamped 10. */
  lemma {:induction false} LateStampRejected(q: Request)
    ensures var a := Attempt(1, 0, 0, true, Text(true), 9, true, 10, 10, true);
      var trace := Emitted([a], q, 1, None, 0, 1, 1, 10);
      && Monotone([a]) && |trace| == 2 && trace[1].classification.Success? && !Accepts(map[], trace, 0, 1)
  {
    var a := Attempt(1, 0, 0, true, Text(true), 9, true, 10, 10, true);
    TraceAcceptedIff(map[], [a], q, 0, 1, 1, 10);
    var trace := Emitted([a], q, 1, None, 0, 1, 1, 10);
    assert trace[1].classification.Success? && trace[1].recordedAt == 10;
  }
}
