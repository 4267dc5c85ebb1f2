/** The live memory store: it edits its own records and commits each edit as a canonical event. */
module MemoryStores {
  import opened Options
  import opened MemoryContract
  import opened MemoryEdits
  import opened MemoryReducer

  /** The shared, append-only evidence of a run. */
  class Evidence {
    var log: Log

    constructor (run: string)
      ensures log == Log(run, [], {})
    {
      log := Log(run, [], {});
    }

    method PutPayload(c: Content)
      modifies this
      ensures log == old(log).(payloads := old(log).payloads + {c})
    {
      log := log.(payloads := log.payloads + {c});
    }

    method Append(e: Event)
      modifies this
      ensures log == old(log).(events := old(log).events + [e])
    {
      log := log.(events := log.events + [e]);
    }
  }

  /** The index of the last memory event of `identity`. */
  function LastMemory(events: seq<Event>, identity: string): (k: Option<nat>)
    ensures k.Some? ==> k.value < |events| && IsMemoryOf(events[k.value], identity)
                        && forall j :: k.value < j < |events| ==> !IsMemoryOf(events[j], identity)
    ensures k.None? ==> forall j :: 0 <= j < |events| ==> !IsMemoryOf(events[j], identity)
  {
    if events == [] then None
    else if IsMemoryOf(events[|events| - 1], identity) then Some(|events| - 1)
    else LastMemory(events[..|events| - 1], identity)
  }

  datatype Context = Context(session: Session, invocation: string, turn: nat, inputs: seq<Content>, active: bool)

  /** The event and payloads by which an operation is committed. */
  datatype Commit = Commit(event: Event, payloads: set<Content>)

  function CommitOf(log: Log, identity: string, st: State, next: seq<Record>, request: Request, kind: Kind,
                    context: Context): Commit {
    var before, asked, after := ArchiveOf(st.records), RequestContent(request), ArchiveOf(next);
    var availability := AvailabilityContent(before, context.inputs, context.invocation, context.session, st.head, st.capacity);
    Commit(Memory(identity, context.session, context.invocation, context.turn,
                  if st.head.Some? then [st.head.value] else [],
                  OperationId(log.run, identity, st.sequence), kind, [before, asked] + context.inputs, after, availability,
                  Capacity(st.capacity, Used(st.records)), Capacity(st.capacity, Used(next))),
           {before, asked, after, availability})
  }

  function Committed(log: Log, c: Commit): Log {
    log.(events := log.events + [c.event], payloads := log.payloads + c.payloads)
  }

  /** What an operation other than a recovery owes the model invocation it names. */
  predicate Provenanced(log: Log, identity: string, st: State, request: Request, context: Context) {
    Invoked(log.events, context.invocation, request.Read?) ==>
      && Completed(log.events, identity, context.session, context.invocation, context.turn, request, st.records, st.capacity)
      && forall c :: c in CompletionRefs(log.events, context.invocation) ==> c in context.inputs
  }

  lemma {:induction false} CommitInputs(before: Content, asked: Content, inputs: seq<Content>, stored: set<Content>)
    requires before in stored && asked in stored && forall c :: c in inputs ==> c in stored
    ensures var all := [before, asked] + inputs;
      && all[2..] == inputs
      && (forall c :: c in all ==> c in stored)
      && (forall c :: c in inputs ==> c in all)
  {
    var all := [before, asked] + inputs;
    forall k | 0 <= k < |inputs|
      ensures inputs[k] == all[k + 2]
    {
    }
  }

  /** A commit the store may make is one the reducer replays to the state the store moves to. */
  lemma {:induction false} CommitReplays(log: Log, identity: string, st: State, request: Request, context: Context, after: State)
    requires identity != "" && context.session != "" && context.invocation != "" && context.session == st.owner
    requires forall c :: c in context.inputs ==> c in log.payloads
    requires KindOf(request).Some?
    requires !request.Recover? ==> Provenanced(log, identity, st, request, context)
    requires Reduced(st, request, Issued(log.run, identity, st.sequence)) == Some(after)
    requires Used(after.records) <= st.capacity
    ensures var c := CommitOf(log, identity, st, after.records, request, KindOf(request).value, context);
      Replayed(Committed(log, c), |log.events|, Some(st))
        == Some(after.(sequence := st.sequence + 1, head := Some(|log.events|)))
  {
    var c := CommitOf(log, identity, st, after.records, request, KindOf(request).value, context);
    hide Reduced, Completed, Invoked, CompletionRefs, ArchiveOf, Used;
    var log' := Committed(log, c);
    var e := log'.events[|log.events|];
    assert log'.events[..|log.events|] == log.events;
    CommitInputs(ArchiveOf(st.records), RequestContent(request), context.inputs, log'.payloads);
  }

  /** The last memory event under an id carries it: nothing of this memory follows the head. */
  lemma {:induction false} HeadIsLast(log: Log, identity: string, h: nat)
    requires h < |log.events| && LastMemory(log.events, identity) == Some(h)
    ensures Rebuild(log, identity, |log.events|) == Rebuild(log, identity, h + 1)
  {
    RebuildSkips(log, identity, h + 1, |log.events|);
  }

  class MemoryStore {
    const run: string
    const identity: string
    const capacity: nat
    const evidence: Evidence
    var records: seq<Record>
    var sequence: nat
    var owner: Session  // "" until a session is authorized
    var head: Option<nat>
    var enabled: bool

    /** The store's fields as a reducer state, given the sessions its evidence shows. */
    ghost function Fields(sessions: seq<Session>): State
      reads this
    {
      State(records, sequence, head, owner, capacity, sessions)
    }

    /** The reducer, run on the evidence up to the store's head, gives the store's own fields. */
    ghost predicate Valid()
      reads this, evidence
    {
      if head.None? then records == [] && sequence == 0
      else
        && head.value < |evidence.log.events|
        && var m := Rebuild(evidence.log, identity, head.value + 1);
        m.Rebuilt? && m.state == Fields(m.state.sessions)
    }

    /** No other store of this identity has committed since. */
    predicate Current()
      reads this, evidence
    {
      LastMemory(evidence.log.events, identity) == head
    }

    /** The whole evidence rebuilds exactly this store. */
    ghost predicate InSync()
      reads this, evidence
    {
      var m := Rebuild(evidence.log, identity, |evidence.log.events|);
      m.Rebuilt? && m.state == Fields(m.state.sessions)
    }

    /** The reducer state the store works from. */
    ghost function Base(): State
      requires Valid()
      reads this, evidence
    {
      if head.None? then Fields([owner]) else Rebuild(evidence.log, identity, head.value + 1).state
    }

    /** Opens the memory from canonical evidence; a conflicting capacity or session leaves it unopened. */
    constructor (identity: string, evidence: Evidence, capacity: nat, session: Session)
      requires var m := Rebuild(evidence.log, identity, |evidence.log.events|);
        !m.Corrupt? && (m.Rebuilt? ==> m.state.capacity == capacity && (session == "" || session == m.state.owner))
      ensures this.identity == identity && this.evidence == evidence && this.capacity == capacity
      ensures run == evidence.log.run && Valid() && Current()
      ensures Rebuild(evidence.log, identity, |evidence.log.events|).Rebuilt? ==> InSync()
    {
      this.identity, this.evidence, this.capacity, this.run := identity, evidence, capacity, evidence.log.run;
      enabled := true;
      var m := Rebuild(evidence.log, identity, |evidence.log.events|);
      if m.Rebuilt? {
        records, sequence, head, owner := m.state.records, m.state.sequence, m.state.head, m.state.owner;
      } else {
        records, sequence, head, owner := [], 0, None, session;
      }
      new;
      HeadRebuilt(evidence.log, identity, |evidence.log.events|);
    }

    predicate Admitted(context: Context, recovery: bool)
      reads this, evidence
    {
      && (enabled || (recovery && records == []))
      && context.active && context.session != "" && context.session == owner && context.invocation != ""
      && evidence.log.run == run
    }

    /** Stores the payloads of an operation and appends its event. */
    method RecordOperation(next: seq<Record>, request: Request, context: Context)
      requires KindOf(request).Some? && evidence.log.run == run
      modifies evidence
      ensures evidence.log == Committed(old(evidence.log),
        CommitOf(old(evidence.log), identity, Fields([]), next, request, KindOf(request).value, context))
    {
      hide ArchiveOf, Used, KindOf;
      var current, asked, output := ArchiveOf(records), RequestContent(request), ArchiveOf(next);
      var availability := AvailabilityContent(current, context.inputs, context.invocation, context.session, head, capacity);
      evidence.PutPayload(current);
      evidence.PutPayload(asked);
      evidence.PutPayload(output);
      evidence.PutPayload(availability);
      evidence.Append(Memory(identity, context.session, context.invocation, context.turn,
                             if head.Some? then [head.value] else [], OperationId(run, identity, sequence),
                             KindOf(request).value, [current, asked] + context.inputs, output, availability,
                             Capacity(capacity, Used(records)), Capacity(capacity, Used(next))));
    }

    /** Commits a prepared operation: the event append is the commit point. */
    method Archive(next: seq<Record>, request: Request, context: Context) returns (ok: bool)
      requires Valid() && KindOf(request).Some?
      requires !request.Recover? ==> Provenanced(evidence.log, identity, Base(), request, context)
      requires Current() && context.session == owner ==>
        var after := Reduced(Base(), request, Issued(evidence.log.run, identity, sequence));
        after.Some? && after.value.records == next
      modifies this, evidence
      ensures ok <==> old(Admitted(context, request.Recover?) && Current() && Used(next) <= capacity
                          && forall c :: c in context.inputs ==> c in evidence.log.payloads)
      ensures !ok ==> evidence.log == old(evidence.log) && old(Fields([])) == Fields([])
      ensures enabled == old(enabled)
      ensures ok ==> Current()
      ensures ok ==>
        && evidence.log == Committed(old(evidence.log),
             CommitOf(old(evidence.log), identity, old(Base()), next, request, KindOf(request).value, context))
        && records == next && sequence == old(sequence) + 1 && head == Some(|old(evidence.log).events|) && owner == old(owner)
        && (identity != "" ==>
              Rebuild(evidence.log, identity, |evidence.log.events|) == Rebuilt(
                Reduced(old(Base()), request, Issued(run, identity, old(sequence))).value
                .(sequence := old(sequence) + 1, head := head)))
    {
      hide Replayed, Rebuild, Reduced, Provenanced, Edited, Used, ArchiveOf, LastMemory;
      if !((enabled || (request.Recover? && records == [])) && context.active && context.session != ""
           && context.session == owner && context.invocation != "" && evidence.log.run == run) { return false; }
      if LastMemory(evidence.log.events, identity) != head { return false; }
      if Used(next) > capacity { return false; }
      if exists c :: c in context.inputs && c !in evidence.log.payloads { return false; }
      ghost var before, base := evidence.log, Base();
      ghost var after := Reduced(base, request, Issued(run, identity, sequence)).value;
      ghost var commit := CommitOf(before, identity, base, next, request, KindOf(request).value, context);
      RecordOperation(next, request, context);
      assert evidence.log == Committed(before, commit);
      CommitRebuilds(before, identity, base, head, request, context, after);
      AppendedIsLast(before.events, commit.event, identity);
      records, sequence, head := next, sequence + 1, Some(|evidence.log.events| - 1);
      ok := true;
    }

    /** The context with the references of the completion an operation consumes. */
    function Sourced(context: Context, onlyMemoryPhase: bool): Context
      reads evidence
    {
      if Invoked(evidence.log.events, context.invocation, onlyMemoryPhase)
      then context.(inputs := context.inputs + CompletionRefs(evidence.log.events, context.invocation))
      else context
    }

    /** Exactly when an edit or a read is carried out. */
    predicate Applicable(request: Request, context: Context, onlyMemoryPhase: bool)
      reads this, evidence
    {
      var next := Edited(records, request, Issued(evidence.log.run, identity, sequence));
      && Admitted(context, false) && Current() && !request.Recover?
      && next.Some? && Used(next.value) <= capacity
      && (Invoked(evidence.log.events, context.invocation, onlyMemoryPhase) ==>
            Completed(evidence.log.events, identity, context.session, context.invocation, context.turn, request, records, capacity))
      && forall c :: c in Sourced(context, onlyMemoryPhase).inputs ==> c in evidence.log.payloads
    }

    /** Reading retains the records and is recorded like any other operation. */
    method ReadMemory(context: Context) returns (ok: bool)
      requires Valid()
      modifies this, evidence
      ensures ok <==> old(Applicable(Read(RETRIEVAL), context, true))
      ensures old(Unprompted(evidence.log.events, context.invocation)) ==>
        (ok <==> old(Admitted(context, false) && Current() && Used(records) <= capacity
                     && forall c :: c in context.inputs ==> c in evidence.log.payloads))
      ensures !ok ==> evidence.log == old(evidence.log) && old(Fields([])) == Fields([])
      ensures ok ==>
        && records == old(records)
        && sequence == old(sequence) + 1 && owner == old(owner) && head == Some(|old(evidence.log).events|)
        && old(evidence.log).events <= evidence.log.events && Used(records) <= capacity
        && (identity != "" ==> Valid() && Current() && InSync())
    {
      hide Replayed, Rebuild, Edited, Used, Completed, Invoked, LastMemory;
      ReadNeedsRetrieval(records, Read(RETRIEVAL), Issued(evidence.log.run, identity, sequence));
      UnpromptedReads(evidence.log.events, context.invocation);
      var sourced := context;
      if Invoked(evidence.log.events, context.invocation, true) {
        if !Completed(evidence.log.events, identity, context.session, context.invocation, context.turn, Read(RETRIEVAL), records, capacity) {
          return false;
        }
        sourced := context.(inputs := context.inputs + CompletionRefs(evidence.log.events, context.invocation));
      }
      ok := Archive(records, Read(RETRIEVAL), sourced);
    }

    /** A participant's edit.  It succeeds exactly when applicable, does to the records what the request
        means, and leaves evidence that rebuilds this store; otherwise nothing changes. */
    method Apply(request: Request, context: Context) returns (ok: bool)
      requires Valid()
      modifies this, evidence
      ensures ok <==> old(Applicable(request, context, false))
      ensures !ok ==> evidence.log == old(evidence.log) && old(Fields([])) == Fields([])
      ensures ok ==>
        && Possible(request, old(records)) && Means(request, old(records), records, Issued(run, identity, old(sequence)))
        && Some(records) == Edited(old(records), request, Issued(run, identity, old(sequence)))
        && sequence == old(sequence) + 1 && owner == old(owner) && head == Some(|old(evidence.log).events|)
        && old(evidence.log).events <= evidence.log.events && Used(records) <= capacity
        && (identity != "" ==> Valid() && Current() && InSync())
    {
      hide Replayed, Rebuild, Edited, Used, Completed, Invoked, LastMemory, Means, Possible;
      EditMeans(records, request, Issued(evidence.log.run, identity, sequence));
      ReadNeedsRetrieval(records, request, Issued(evidence.log.run, identity, sequence));
      if !Admitted(context, false) || request.Malformed? || request.Recover? { return false; }
      var sourced := context;
      if Invoked(evidence.log.events, context.invocation, false) {
        if !Completed(evidence.log.events, identity, context.session, context.invocation, context.turn, request, records, capacity) {
          return false;
        }
        sourced := context.(inputs := context.inputs + CompletionRefs(evidence.log.events, context.invocation));
      }
      MemoryPhaseInvoked(evidence.log.events, context.invocation);
      if request.Read? {
        if request.retrieval != RETRIEVAL { return false; }
        ok := ReadMemory(sourced);
        return;
      }
      var next := Edited(records, request, Issued(run, identity, sequence));
      if next.None? { return false; }
      ok := Archive(next.value, request, sourced);
    }

    /** Transfers the memory to a session that never owned it before. */
    method RecoverSession(next: Session, expected: Hash, reason: string, context: Context) returns (ok: bool)
      requires Valid()
      modifies this, evidence
      ensures ok <==> old(Admitted(context, true) && next != "" && next != context.session && Current()
                          && next !in Base().sessions && expected == OfRecords(records)
                          && Used(records) <= capacity && forall c :: c in context.inputs ==> c in evidence.log.payloads)
      ensures !ok ==> evidence.log == old(evidence.log) && old(Fields([])) == Fields([])
      ensures ok ==>
        && records == old(records) && sequence == old(sequence) + 1 && owner == next
        && head == Some(|old(evidence.log).events|) && old(evidence.log).events <= evidence.log.events
        && (identity != "" ==> Valid() && Current() && InSync() && Base().sessions == old(Base()).sessions + [next])
    {
      hide Replayed, Edited, Used, LastMemory;
      if !Admitted(context, true) || next == "" || next == context.session { return false; }
      if LastMemory(evidence.log.events, identity) != head { return false; }
      ghost var base := Base();
      RebuildWhole(evidence.log, identity, head);
      var prior := Rebuild(evidence.log, identity, |evidence.log.events|);
      if prior.Rebuilt? && next in prior.state.sessions { return false; }
      if expected != OfRecords(records) { return false; }
      ok := Archive(records, Recover(context.session, next, expected, reason), context);
      if ok { owner := next; }
    }

    /** A session is authorized once; afterwards only the owner is. */
    method AuthorizeSession(session: Session) returns (ok: bool)
      requires Valid()
      modifies this
      ensures ok <==> evidence.log.run == run && session != "" && old(owner == "" || owner == session)
      ensures ok ==> owner == session
      ensures old(owner) != "" || !ok ==> owner == old(owner)
      ensures records == old(records) && sequence == old(sequence) && head == old(head) && Valid()
    {
      if evidence.log.run != run || session == "" || (owner != "" && owner != session) { return false; }
      ghost var before := Fields([]);
      if head.Some? { RebuiltOk(evidence.log, identity, head.value + 1); }
      if owner == "" { owner := session; }
      ok := true;
    }

    /** Refreshes a stale store from canonical evidence; a transferred memory is not reclaimed. */
    method RestoreCanonical() returns (ok: bool)
      requires Valid() && !Rebuild(evidence.log, identity, |evidence.log.events|).Corrupt?
      modifies this
      ensures var m := Rebuild(evidence.log, identity, |evidence.log.events|);
        ok <==> (m.Rebuilt? ==> m.state.owner == old(owner) && m.state.capacity == capacity)
      ensures Valid() && (ok && head.Some? ==> InSync() && Current())
      ensures !ok ==> Fields([]) == old(Fields([]))
    {
      hide Replayed, Rebuild, LastMemory;
      var m := Rebuild(evidence.log, identity, |evidence.log.events|);
      HeadRebuilt(evidence.log, identity, |evidence.log.events|);
      if m.Untouched? {
        if head.Some? { RebuiltStays(evidence.log, identity, head.value + 1, |evidence.log.events|); }
        return true;
      }
      if m.state.owner != owner || m.state.capacity != capacity { return false; }
      records, sequence, head := m.state.records, m.state.sequence, m.state.head;
      ok := true;
    }
  }

  /** A store whose head is the last event of its memory has the whole evidence behind it. */
  lemma {:induction false} RebuildWhole(log: Log, identity: string, head: Option<nat>)
    requires LastMemory(log.events, identity) == head
    ensures head.None? ==> Rebuild(log, identity, |log.events|).Untouched?
    ensures head.Some? ==> Rebuild(log, identity, |log.events|) == Rebuild(log, identity, head.value + 1)
  {
    if head.Some? {
      HeadIsLast(log, identity, head.value);
    } else {
      RebuildSkips(log, identity, 0, |log.events|);
    }
  }

  lemma {:induction false} MemoryPhaseInvoked(events: seq<Event>, invocation: string)
    ensures Invoked(events, invocation, true) ==> Invoked(events, invocation, false)
  {
  }

  lemma {:induction false} AppendedIsLast(events: seq<Event>, e: Event, identity: string)
    requires IsMemoryOf(e, identity)
    ensures LastMemory(events + [e], identity) == Some(|events|)
  {
  }

  lemma {:induction false} ReadNeedsRetrieval(records: seq<Record>, request: Request, issued: RecordId)
    ensures request.Read? ==> Edited(records, request, issued) == if request.retrieval == RETRIEVAL then Some(records) else None
    ensures request.Malformed? ==> Edited(records, request, issued) == None
  {
  }

  lemma {:induction false} ReplayedHead(log: Log, k: nat, previous: Option<State>)
    requires k < |log.events| && log.events[k].Memory?
    ensures Replayed(log, k, previous).Some? ==> Replayed(log, k, previous).value.head == Some(k)
  {
    hide Reduced, Completed, Invoked, CompletionRefs, ArchiveOf, Used;
  }

  lemma {:induction false} LastMemoryStep(events: seq<Event>, n: nat, identity: string)
    requires 0 < n <= |events|
    ensures LastMemory(events[..n], identity) == if IsMemoryOf(events[n - 1], identity) then Some(n - 1) else LastMemory(events[..n - 1], identity)
  {
    assert events[..n][..n - 1] == events[..n - 1];
  }

  /** A rebuilt memory's head is its last event. */
  lemma {:induction false} HeadRebuilt(log: Log, identity: string, n: nat)
    requires n <= |log.events|
    ensures var m := Rebuild(log, identity, n);
      && (m.Rebuilt? ==> m.state.head.Some? && m.state.head.value < n && IsMemoryOf(log.events[m.state.head.value], identity)
                         && LastMemory(log.events[..n], identity) == m.state.head
                         && Rebuild(log, identity, m.state.head.value + 1) == m)
      && (m.Untouched? ==> LastMemory(log.events[..n], identity) == None)
    ensures log.events[..|log.events|] == log.events
  {
    hide Replayed;
    if n > 0 {
      hide LastMemory;
      HeadRebuilt(log, identity, n - 1);
      LastMemoryStep(log.events, n, identity);
      if IsMemoryOf(log.events[n - 1], identity) {
        var prior := Rebuild(log, identity, n - 1);
        ReplayedHead(log, n - 1, if prior.Rebuilt? then Some(prior.state) else None);
      }
    }
  }

  lemma {:induction false} FreshEntersEmpty(log: Log, n: nat)
    requires n < |log.events| && log.events[n].Memory?
    ensures Replayed(log, n, None) == Replayed(log, n, Some(Entering(None, log.events[n])))
  {
  }

  /** After a commit the whole evidence rebuilds to the state the store moves to. */
  lemma {:induction false} CommitRebuilds(log: Log, identity: string, base: State, head: Option<nat>, request: Request, context: Context, after: State)
    requires LastMemory(log.events, identity) == head && base.head == head
    requires head.None? ==> base == State([], 0, None, base.owner, base.capacity, [base.owner])
    requires head.Some? ==> head.value < |log.events| && Rebuild(log, identity, head.value + 1) == Rebuilt(base)
    requires context.session != "" && context.invocation != "" && context.session == base.owner
    requires forall c :: c in context.inputs ==> c in log.payloads
    requires KindOf(request).Some?
    requires !request.Recover? ==> Provenanced(log, identity, base, request, context)
    requires Reduced(base, request, Issued(log.run, identity, base.sequence)) == Some(after)
    requires Used(after.records) <= base.capacity
    ensures var log' := Committed(log, CommitOf(log, identity, base, after.records, request, KindOf(request).value, context));
      identity != "" ==>
        Rebuild(log', identity, |log'.events|) == Rebuilt(after.(sequence := base.sequence + 1, head := Some(|log.events|)))
  {
    hide Replayed, Reduced, Provenanced, Used, ArchiveOf;
    if identity != "" {
      var n := |log.events|;
      var log' := Committed(log, CommitOf(log, identity, base, after.records, request, KindOf(request).value, context));
      if head.Some? {
        HeadIsLast(log, identity, head.value);
      } else {
        RebuildSkips(log, identity, 0, n);
      }
      RebuildStable(log, log', identity, n);
      CommitReplays(log, identity, base, request, context, after);
      if head.None? { FreshEntersEmpty(log', n); }
    }
  }
}
