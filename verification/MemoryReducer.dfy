/** What the memory reducer guarantees, and its agreement with the parser's pre-check. */
module MemoryReducer {
  import opened Options
  import opened MemoryContract

  // ---------------------------------------------------------------- the parser and the reducer agree

  lemma {:induction false} DraftIndexAgrees(records: seq<Record>, id: RecordId)
    ensures DraftIndex(Drafts(records), id) == IndexOf(records, id)
  {
    if records != [] {
      assert Drafts(records)[1..] == Drafts(records[1..]);
      DraftIndexAgrees(records[1..], id);
    }
  }

  lemma {:induction false} DraftSelectionAgrees(records: seq<Record>, ids: seq<RecordId>)
    ensures DraftFirst(Drafts(records), ids) == FirstSelected(records, ids)
    ensures DraftRemaining(Drafts(records), ids) == Drafts(Survivors(records, ids))
  {
    if records != [] {
      assert Drafts(records)[1..] == Drafts(records[1..]);
      DraftSelectionAgrees(records[1..], ids);
    }
  }

  lemma {:induction false} SurvivorsUnselected(records: seq<Record>, ids: seq<RecordId>)
    ensures forall r :: r in Survivors(records, ids) ==> r in records && r.id !in ids
  {
    if records != [] { SurvivorsUnselected(records[1..], ids); }
  }

  lemma {:induction false} SelectedExists(records: seq<Record>, ids: seq<RecordId>, k: nat)
    requires k < |records| && records[k].id in ids
    ensures FirstSelected(records, ids) <= k
  {
    if records[0].id !in ids { SelectedExists(records[1..], ids, k - 1); }
  }

  /** Every record before the first selected one survives, in place. */
  lemma {:induction false} SurvivorsKeepPrefix(records: seq<Record>, ids: seq<RecordId>)
    ensures var k := FirstSelected(records, ids);
      Survivors(records, ids) == records[..k] + Survivors(records[k..], ids)
  {
    var k := FirstSelected(records, ids);
    if records == [] || records[0].id in ids {
      assert records[..0] == [] && records[0..] == records;
    } else {
      var tail := records[1..];
      SurvivorsKeepPrefix(tail, ids);
      assert records[..k] == [records[0]] + tail[..k - 1];
      assert records[k..] == tail[k - 1..];
      assert Survivors(records, ids) == [records[0]] + Survivors(tail, ids);
    }
  }

  /** Compression puts the replacement where the first selected record was and keeps all unselected
      records in their order: what precedes it is untouched. */
  lemma {:induction false} CompressionInPlace(records: seq<Record>, ids: seq<RecordId>, text: string, issued: RecordId)
    requires Selectable(records, ids)
    ensures var k := FirstSelected(records, ids);
      && k < |records|
      && Edited(records, Compress(ids, text), issued)
         == Some(records[..k] + [Record(issued, text)] + Survivors(records[k..], ids))
  {
    var k, kept := FirstSelected(records, ids), Survivors(records, ids);
    SurvivorsKeepPrefix(records, ids);
    assert Known(records, ids[0]);
    SelectedExists(records, ids, IndexOf(records, ids[0]));
    assert kept[..k] == records[..k] && kept[k..] == Survivors(records[k..], ids);
  }

  lemma {:induction false} RetextDraftMatches(records: seq<Record>, id: RecordId, text: string)
    ensures DraftRetext(Drafts(records), id, text).Some? <==> Retexted(records, id, text).Some?
    ensures DraftRetext(Drafts(records), id, text).Some? ==>
      DraftTexts(DraftRetext(Drafts(records), id, text).value) == Texts(Retexted(records, id, text).value)
  {
    hide DraftIndex, IndexOf;
    DraftIndexAgrees(records, id);
  }

  lemma {:induction false} ForgetDraftMatches(records: seq<Record>, id: RecordId, k: nat)
    requires k < |records|
    ensures DraftTexts(Drafts(records)[..k] + Drafts(records)[k + 1..]) == Texts(records[..k] + records[k + 1..])
  {
  }

  lemma {:induction false} RememberDraftMatches(records: seq<Record>, text: string, issued: RecordId)
    ensures DraftTexts(Drafts(records) + [Draft(None, text)]) == Texts(records + [Record(issued, text)])
    ensures DraftTexts(Drafts(records)) == Texts(records) && DraftTexts([]) == Texts([])
  {
  }

  /** The parser's draft of an edit reads like the records the reducer computes. */
  lemma {:induction false} DraftMatchesEdit(records: seq<Record>, request: Request, issued: RecordId)
    ensures DraftEdit(records, request).Some? <==> Edited(records, request, issued).Some?
    ensures DraftEdit(records, request).Some? ==>
      DraftTexts(DraftEdit(records, request).value) == Texts(Edited(records, request, issued).value)
  {
    if request.Compress? {
      hide *;
      CompressDraftMatches(records, request.ids, request.text, issued);
    } else {
      hide Drafts, DraftTexts, Texts, DraftIndex, IndexOf, DraftRetext, Retexted;
      RememberDraftMatches(records, if request.Remember? then request.text else "", issued);
      match request
      case Edit(id, text) => RetextDraftMatches(records, id, text);
      case Revise(id, text) => RetextDraftMatches(records, id, text);
      case Forget(id) =>
        DraftIndexAgrees(records, id);
        var k := IndexOf(records, id);
        if k < |records| { ForgetDraftMatches(records, id, k); }
      case _ =>
    }
  }

  lemma {:induction false} CompressDraftMatches(records: seq<Record>, ids: seq<RecordId>, text: string, issued: RecordId)
    ensures DraftEdit(records, Compress(ids, text)).Some? <==> Selectable(records, ids)
    ensures Edited(records, Compress(ids, text), issued).Some? <==> Selectable(records, ids)
    ensures Selectable(records, ids) ==>
      DraftTexts(DraftEdit(records, Compress(ids, text)).value) == Texts(Edited(records, Compress(ids, text), issued).value)
  {
    forall id | id in ids
      ensures DraftIndex(Drafts(records), id) < |Drafts(records)| <==> Known(records, id)
    {
      DraftIndexAgrees(records, id);
    }
    hide Distinct, Known, IndexOf, DraftIndex, FirstSelected, DraftFirst, Survivors, DraftRemaining, Texts, DraftTexts;
    if Selectable(records, ids) {
      CompressionInPlace(records, ids, text, issued);
      DraftSelectionAgrees(records, ids);
      assert |Survivors(records, ids)| >= FirstSelected(records, ids) by { SurvivorsKeepPrefix(records, ids); }
      SplicedTexts(Survivors(records, ids), FirstSelected(records, ids), text, issued);
    }
  }

  lemma {:induction false} SplicedTexts(kept: seq<Record>, k: nat, text: string, issued: RecordId)
    requires k <= |kept|
    ensures DraftTexts(Spliced(Drafts(kept), k, Draft(None, text))) == Texts(kept[..k] + [Record(issued, text)] + kept[k..])
  {
  }

  /** The parser accepts a request exactly when the reducer can apply it and the result fits. */
  lemma {:induction false} ParserAgrees(records: seq<Record>, request: Request, capacity: nat, issued: RecordId)
    ensures Parses(request, records, capacity) <==>
      Edited(records, request, issued).Some? && Used(Edited(records, request, issued).value) <= capacity
  {
    DraftMatchesEdit(records, request, issued);
  }

  // ---------------------------------------------------------------- what every rebuilt memory satisfies

  /** Records carry distinct ids issued by earlier operations of this memory. */
  predicate IdsIssued(records: seq<Record>, run: string, identity: string, below: nat) {
    && (forall i, j :: 0 <= i < j < |records| ==> records[i].id != records[j].id)
    && (forall r :: r in records ==> r.id.Issued? && r.id.run == run && r.id.identity == identity && r.id.sequence < below)
  }

  /** The memory fits, its ids are unique, one session owns it, and no session ever returns. */
  predicate MemoryOk(st: State, run: string, identity: string) {
    && Used(st.records) <= st.capacity
    && IdsIssued(st.records, run, identity, st.sequence)
    && Distinct(st.sessions) && st.sessions != [] && st.owner == st.sessions[|st.sessions| - 1] && st.owner != ""
  }

  lemma {:induction false} SurvivorsDistinct(records: seq<Record>, ids: seq<RecordId>)
    requires forall i, j :: 0 <= i < j < |records| ==> records[i].id != records[j].id
    ensures forall i, j :: 0 <= i < j < |Survivors(records, ids)| ==> Survivors(records, ids)[i].id != Survivors(records, ids)[j].id
  {
    if records != [] {
      SurvivorsDistinct(records[1..], ids);
      var kept := Survivors(records[1..], ids);
      SurvivorsUnselected(records[1..], ids);
      forall j | 0 <= j < |kept|
        ensures kept[j].id != records[0].id
      {
        assert kept[j] in records[1..];
      }
    }
  }

  lemma {:induction false} EditKeepsIds(records: seq<Record>, request: Request, run: string, identity: string, n: nat)
    requires IdsIssued(records, run, identity, n)
    ensures var next := Edited(records, request, Issued(run, identity, n));
      next.Some? ==> IdsIssued(next.value, run, identity, n + 1)
  {
    hide Retexted, IdsIssued, IndexOf, Selectable, FirstSelected, Survivors;
    StillIssued(records, run, identity, n);
    match request
    case Remember(text) => PlacedKeepsIds(records, |records|, text, run, identity, n);
    case Edit(id, text) => RetextKeepsIds(records, id, text, run, identity, n);
    case Revise(id, text) => RetextKeepsIds(records, id, text, run, identity, n);
    case Forget(id) =>
      var k := IndexOf(records, id);
      if k < |records| { RemovedKeepsIds(records, k, run, identity, n); }
    case Compress(ids, text) =>
      var first, kept := FirstSelected(records, ids), Survivors(records, ids);
      SurvivorsKeepIds(records, ids, run, identity, n);
      if first <= |kept| { PlacedKeepsIds(kept, first, text, run, identity, n); }
    case Clear => NoneIssued(run, identity, n + 1);
    case _ =>
  }

  lemma {:induction false} NoneIssued(run: string, identity: string, n: nat)
    ensures IdsIssued([], run, identity, n)
  {
  }

  lemma {:induction false} StillIssued(records: seq<Record>, run: string, identity: string, n: nat)
    requires IdsIssued(records, run, identity, n)
    ensures IdsIssued(records, run, identity, n + 1)
  {
  }

  /** A record created under the next id, wherever it is placed, keeps the ids distinct. */
  lemma {:induction false} PlacedKeepsIds(records: seq<Record>, at: nat, text: string, run: string, identity: string, n: nat)
    requires at <= |records| && IdsIssued(records, run, identity, n)
    ensures IdsIssued(records[..at] + [Record(Issued(run, identity, n), text)] + records[at..], run, identity, n + 1)
    ensures at == |records| ==> records[..at] + [Record(Issued(run, identity, n), text)] + records[at..]
                                == records + [Record(Issued(run, identity, n), text)]
  {
    var next := records[..at] + [Record(Issued(run, identity, n), text)] + records[at..];
    forall j | 0 <= j < |next|
      ensures j < at ==> next[j] == records[j] && records[j] in records
      ensures j > at ==> next[j] == records[j - 1] && records[j - 1] in records
    {
    }
  }

  lemma {:induction false} RemovedKeepsIds(records: seq<Record>, k: nat, run: string, identity: string, n: nat)
    requires k < |records| && IdsIssued(records, run, identity, n)
    ensures IdsIssued(records[..k] + records[k + 1..], run, identity, n + 1)
  {
  }

  lemma {:induction false} SurvivorsKeepIds(records: seq<Record>, ids: seq<RecordId>, run: string, identity: string, n: nat)
    requires IdsIssued(records, run, identity, n)
    ensures IdsIssued(Survivors(records, ids), run, identity, n)
  {
    SurvivorsDistinct(records, ids);
    SurvivorsUnselected(records, ids);
  }

  lemma {:induction false} RetextKeepsIds(records: seq<Record>, id: RecordId, text: string, run: string, identity: string, n: nat)
    requires IdsIssued(records, run, identity, n)
    ensures Retexted(records, id, text).Some? ==> IdsIssued(Retexted(records, id, text).value, run, identity, n + 1)
  {
    var k := IndexOf(records, id);
    if k < |records| {
      var next := records[k := Record(id, text)];
      forall r | r in next
        ensures r.id.Issued? && r.id.run == run && r.id.identity == identity && r.id.sequence < n
      {
        var j :| 0 <= j < |next| && next[j] == r;
        assert records[j] in records;
      }
    }
  }

  /** What the reducer's acceptance of an event establishes. */
  lemma {:induction false} ReplayedMeans(log: Log, k: nat, previous: Option<State>)
    requires k < |log.events| && log.events[k].Memory? && Replayed(log, k, previous).Some?
    ensures var e, state := log.events[k], Entering(previous, log.events[k]);
      && |e.inputs| >= 2 && e.inputs[1].RequestContent? && e.session == state.owner && e.session != ""
      && var after := Reduced(state, e.inputs[1].request, Issued(log.run, e.identity, state.sequence));
      && after.Some? && Used(after.value.records) <= state.capacity
      && Replayed(log, k, previous) == Some(after.value.(sequence := state.sequence + 1, head := Some(k)))
  {
    hide Reduced, Completed, Invoked, CompletionRefs, ArchiveOf, Used, Entering;
  }

  lemma {:induction false} ReducedKeepsOk(state: State, request: Request, run: string, identity: string)
    requires IdsIssued(state.records, run, identity, state.sequence)
    requires Distinct(state.sessions) && state.sessions != [] && state.owner == state.sessions[|state.sessions| - 1] && state.owner != ""
    ensures var after := Reduced(state, request, Issued(run, identity, state.sequence));
      after.Some? ==>
        && IdsIssued(after.value.records, run, identity, state.sequence + 1)
        && Distinct(after.value.sessions) && after.value.sessions != []
        && after.value.owner == after.value.sessions[|after.value.sessions| - 1] && after.value.owner != ""
        && state.sessions <= after.value.sessions && after.value.capacity == state.capacity
  {
    hide IdsIssued, Edited;
    EditKeepsIds(state.records, request, run, identity, state.sequence);
    StillIssued(state.records, run, identity, state.sequence);
  }

  /** One replayed operation keeps capacity, id and session discipline. */
  lemma {:induction false} ReplayKeepsOk(log: Log, k: nat, previous: Option<State>)
    requires k < |log.events| && log.events[k].Memory?
    requires previous.Some? ==> MemoryOk(previous.value, log.run, log.events[k].identity)
    ensures var next := Replayed(log, k, previous);
      next.Some? ==>
        && MemoryOk(next.value, log.run, log.events[k].identity)
        && log.events[k].session == Entering(previous, log.events[k]).owner
        && Entering(previous, log.events[k]).sessions <= next.value.sessions
        && next.value.capacity == Entering(previous, log.events[k]).capacity
        && next.value.sequence == Entering(previous, log.events[k]).sequence + 1
  {
    hide Replayed, Reduced, Used, IdsIssued;
    if Replayed(log, k, previous).Some? {
      var e, state := log.events[k], Entering(previous, log.events[k]);
      ReplayedMeans(log, k, previous);
      NoneIssued(log.run, e.identity, 0);
      ReducedKeepsOk(state, e.inputs[1].request, log.run, e.identity);
    }
  }

  /** Every memory rebuilt from evidence is within capacity, with unique issued ids and one owner. */
  lemma {:induction false} RebuiltOk(log: Log, identity: string, n: nat)
    requires n <= |log.events|
    ensures var m := Rebuild(log, identity, n);
      m.Rebuilt? ==> MemoryOk(m.state, log.run, identity)
  {
    if n > 0 {
      RebuiltOk(log, identity, n - 1);
      var prior := Rebuild(log, identity, n - 1);
      if IsMemoryOf(log.events[n - 1], identity) {
        ReplayKeepsOk(log, n - 1, if prior.Rebuilt? then Some(prior.state) else None);
      }
    }
  }

  /** Over the whole history sessions are only appended, so a session once left never owns again. */
  lemma {:induction false} SessionsOnlyGrow(log: Log, identity: string, m: nat, n: nat)
    requires m <= n <= |log.events|
    requires Rebuild(log, identity, m).Rebuilt? && Rebuild(log, identity, n).Rebuilt?
    ensures Rebuild(log, identity, m).state.sessions <= Rebuild(log, identity, n).state.sessions
    ensures Rebuild(log, identity, m).state.capacity == Rebuild(log, identity, n).state.capacity
    decreases n
  {
    hide Replayed, MemoryOk;
    if m < n {
      var prior := Rebuild(log, identity, n - 1);
      if prior.Untouched? { RebuiltStays(log, identity, m, n - 1); }
      SessionsOnlyGrow(log, identity, m, n - 1);
      RebuiltOk(log, identity, n - 1);
      if IsMemoryOf(log.events[n - 1], identity) {
        ReplayKeepsOk(log, n - 1, Some(prior.state));
      }
    }
  }

  lemma {:induction false} RebuiltStays(log: Log, identity: string, m: nat, n: nat)
    requires m <= n <= |log.events| && Rebuild(log, identity, m).Rebuilt?
    ensures !Rebuild(log, identity, n).Untouched?
    decreases n
  {
    if m < n { RebuiltStays(log, identity, m, n - 1); }
  }

  // ---------------------------------------------------------------- growing evidence

  ghost predicate LogExtends(log: Log, log': Log) {
    log.run == log'.run && log.events <= log'.events && log.payloads <= log'.payloads
  }

  lemma {:induction false} ReplayStable(log: Log, log': Log, k: nat, previous: Option<State>)
    requires LogExtends(log, log') && k < |log.events| && log.events[k].Memory?
    requires Replayed(log, k, previous).Some?
    ensures Replayed(log', k, previous) == Replayed(log, k, previous)
  {
    assert log'.events[..k] == log.events[..k];
  }

  /** Evidence already accepted is rebuilt to the same memory after anything is appended. */
  lemma {:induction false} RebuildStable(log: Log, log': Log, identity: string, n: nat)
    requires LogExtends(log, log') && n <= |log.events| && !Rebuild(log, identity, n).Corrupt?
    ensures Rebuild(log', identity, n) == Rebuild(log, identity, n)
  {
    if n > 0 {
      RebuildStable(log, log', identity, n - 1);
      var prior := Rebuild(log, identity, n - 1);
      if IsMemoryOf(log.events[n - 1], identity) {
        ReplayStable(log, log', n - 1, if prior.Rebuilt? then Some(prior.state) else None);
      }
    }
  }

  /** Events of other memories, and other events, leave a memory as it was. */
  lemma {:induction false} RebuildSkips(log: Log, identity: string, m: nat, n: nat)
    requires m <= n <= |log.events| && forall j :: m <= j < n ==> !IsMemoryOf(log.events[j], identity)
    ensures Rebuild(log, identity, n) == Rebuild(log, identity, m)
    decreases n
  {
    hide Replayed;
    if m < n { RebuildSkips(log, identity, m, n - 1); }
  }

  /** The reducer refuses every operation of an unnamed identity: one such event makes its memory unreadable
      for good, so a live store agrees with its evidence exactly when its identity is not empty. */
  lemma {:induction false} AnonymousCorrupt(log: Log, n: nat)
    requires n <= |log.events|
    ensures Rebuild(log, "", n).Corrupt? <==> exists k :: 0 <= k < n && IsMemoryOf(log.events[k], "")
    ensures !Rebuild(log, "", n).Rebuilt?
  {
    if n > 0 { AnonymousCorrupt(log, n - 1); }
  }
}
