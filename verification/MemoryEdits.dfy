/** What the memory operations mean, read off the records before and after, and what an accepted event must come from. */
module MemoryEdits {
  import opened Options
  import opened MemoryContract
  import opened MemoryReducer

  // ---------------------------------------------------------------- each operation on the records

  /** Record k is the first one of this id. */
  predicate NamedAt(records: seq<Record>, id: RecordId, k: nat) {
    k < |records| && records[k].id == id && forall j :: 0 <= j < k ==> records[j].id != id
  }

  ghost predicate Present(records: seq<Record>, id: RecordId) { exists k: nat :: NamedAt(records, id, k) }

  /** The text of record k is this one; everything else is as it was. */
  predicate TextChanged(before: seq<Record>, after: seq<Record>, k: nat, text: string) {
    && |after| == |before| && k < |before| && after[k].text == text && after[k].id == before[k].id
    && forall j :: 0 <= j < |before| && j != k ==> after[j] == before[j]
  }

  /** Record k is gone; the others are there in their order. */
  predicate TakenAway(before: seq<Record>, after: seq<Record>, k: nat) {
    && k < |before| && |after| == |before| - 1
    && (forall j :: 0 <= j < k ==> after[j] == before[j])
    && (forall j :: k < j < |before| ==> after[j - 1] == before[j])
  }

  /** How many of the first n records are not selected. */
  function KeptBefore(records: seq<Record>, ids: seq<RecordId>, n: nat): nat
    requires n <= |records|
  {
    if n == 0 then 0 else (if records[0].id in ids then 0 else 1) + KeptBefore(records[1..], ids, n - 1)
  }

  /** The selected records are replaced by one new record at the place of the first of them, k; the others are there in
      their order. */
  ghost predicate Compressed(before: seq<Record>, after: seq<Record>, ids: seq<RecordId>, text: string, issued: RecordId, k: nat) {
    && k < |before| && before[k].id in ids && (forall j :: 0 <= j < k ==> before[j].id !in ids)
    && |after| == KeptBefore(before, ids, |before|) + 1 && k < |after| && after[k].id == issued && after[k].text == text
    && (forall j :: 0 <= j < |before| && before[j].id !in ids ==> StandsAt(before[j], after, KeptBefore(before, ids, j) + if j > k then 1 else 0))
  }

  predicate StandsAt(r: Record, records: seq<Record>, n: nat) { n < |records| && records[n] == r }

  ghost predicate Means(request: Request, before: seq<Record>, after: seq<Record>, issued: RecordId) {
    match request
    case Remember(text) => |after| == |before| + 1 && after[..|before|] == before && after[|before|].id == issued && after[|before|].text == text
    case Edit(id, text) => exists k: nat :: NamedAt(before, id, k) && TextChanged(before, after, k, text)
    case Revise(id, text) => exists k: nat :: NamedAt(before, id, k) && TextChanged(before, after, k, text)
    case Forget(id) => exists k: nat :: NamedAt(before, id, k) && TakenAway(before, after, k)
    case Compress(ids, text) => exists k: nat :: Compressed(before, after, ids, text, issued, k)
    case Clear => |after| == 0
    case Read(_) => after == before
    case _ => false
  }

  /** The requests that can be carried out on these records, room aside. */
  ghost predicate Possible(request: Request, records: seq<Record>) {
    match request
    case Remember(_) => true
    case Edit(id, _) => Present(records, id)
    case Revise(id, _) => Present(records, id)
    case Forget(id) => Present(records, id)
    case Compress(ids, _) =>
      && |ids| > 0 && (forall i, j :: 0 <= i < j < |ids| ==> ids[i] != ids[j])
      && forall i :: 0 <= i < |ids| ==> Present(records, ids[i])
    case Clear => true
    case Read(retrieval) => retrieval == "all_current_records_in_sequence"
    case _ => false
  }

  lemma {:induction false} NamedIndex(records: seq<Record>, id: RecordId)
    ensures IndexOf(records, id) < |records| <==> Present(records, id)
    ensures IndexOf(records, id) < |records| ==> NamedAt(records, id, IndexOf(records, id))
  {
    if IndexOf(records, id) < |records| { assert NamedAt(records, id, IndexOf(records, id)); }
  }

  /** A survivor's place among the survivors. */
  lemma {:induction false} SurvivorAt(records: seq<Record>, ids: seq<RecordId>, n: nat)
    requires n <= |records|
    ensures KeptBefore(records, ids, n) <= |Survivors(records, ids)| && KeptBefore(records, ids, n) <= n
    ensures n == |records| ==> KeptBefore(records, ids, n) == |Survivors(records, ids)|
    ensures n < |records| && records[n].id !in ids ==> StandsAt(records[n], Survivors(records, ids), KeptBefore(records, ids, n))
  {
    if n > 0 { SurvivorAt(records[1..], ids, n - 1); }
  }

  lemma {:induction false} KeptMonotone(records: seq<Record>, ids: seq<RecordId>, m: nat, n: nat)
    requires m <= n <= |records|
    ensures KeptBefore(records, ids, m) <= KeptBefore(records, ids, n)
  {
    if m > 0 { KeptMonotone(records[1..], ids, m - 1, n - 1); }
  }

  lemma {:induction false} AllKept(records: seq<Record>, ids: seq<RecordId>, n: nat)
    requires n <= |records| && forall j :: 0 <= j < n ==> records[j].id !in ids
    ensures KeptBefore(records, ids, n) == n
  {
    if n > 0 {
      assert forall j :: 0 <= j < n - 1 ==> records[1..][j] == records[j + 1];
      AllKept(records[1..], ids, n - 1);
    }
  }

  lemma {:induction false} FirstSelectedIs(records: seq<Record>, ids: seq<RecordId>)
    ensures var k := FirstSelected(records, ids);
      (forall j :: 0 <= j < k ==> records[j].id !in ids) && (k < |records| ==> records[k].id in ids)
  {
    if records != [] && records[0].id !in ids {
      FirstSelectedIs(records[1..], ids);
      assert forall j :: 0 < j < |records| ==> records[j] == records[1..][j - 1];
    }
  }

  lemma {:induction false} CompressMeans(records: seq<Record>, ids: seq<RecordId>, text: string, issued: RecordId)
    requires Edited(records, Compress(ids, text), issued).Some?
    ensures Means(Compress(ids, text), records, Edited(records, Compress(ids, text), issued).value, issued)
  {
    hide Survivors, FirstSelected, IndexOf, Distinct, KeptBefore, StandsAt;
    CompressionInPlace(records, ids, text, issued);
    FirstSelectedIs(records, ids);
    var k, kept := FirstSelected(records, ids), Survivors(records, ids);
    SurvivorAt(records, ids, |records|);
    var after := Edited(records, Compress(ids, text), issued).value;
    forall j | 0 <= j < |records| && records[j].id !in ids
      ensures StandsAt(records[j], after, KeptBefore(records, ids, j) + if j > k then 1 else 0)
    {
      SurvivorAt(records, ids, j);
      if j < k { AllKept(records, ids, j); } else { AllKept(records, ids, k); KeptMonotone(records, ids, k, j); }
      PlacedAround(kept, k, Record(issued, text), KeptBefore(records, ids, j), records[j]);
    }
    assert Compressed(records, after, ids, text, issued, k);
  }

  lemma {:induction false} PlacedAround(kept: seq<Record>, k: nat, x: Record, n: nat, r: Record)
    requires k <= |kept| && StandsAt(r, kept, n)
    ensures StandsAt(r, kept[..k] + [x] + kept[k..], if n < k then n else n + 1)
  {
  }

  lemma {:induction false} SelectionPossible(records: seq<Record>, ids: seq<RecordId>, text: string, issued: RecordId)
    ensures Edited(records, Compress(ids, text), issued).Some? <==> Possible(Compress(ids, text), records)
  {
    hide IndexOf, Survivors, FirstSelected, Known;
    SelectableIff(records, ids);
    if Selectable(records, ids) { CompressionInPlace(records, ids, text, issued); }
  }

  lemma {:induction false} SelectableIff(records: seq<Record>, ids: seq<RecordId>)
    ensures Selectable(records, ids) <==>
      && |ids| > 0 && (forall i, j :: 0 <= i < j < |ids| ==> ids[i] != ids[j])
      && forall i :: 0 <= i < |ids| ==> Present(records, ids[i])
  {
    hide Known, Present;
    forall i | 0 <= i < |ids|
      ensures Known(records, ids[i]) <==> Present(records, ids[i])
    {
      KnownNamed(records, ids[i]);
    }
    assert (forall id :: id in ids ==> Known(records, id)) <==> forall i :: 0 <= i < |ids| ==> Known(records, ids[i]) by {
      assert forall i :: 0 <= i < |ids| ==> ids[i] in ids;
    }
  }

  lemma {:induction false} KnownNamed(records: seq<Record>, id: RecordId)
    ensures Known(records, id) <==> Present(records, id)
  {
    NamedIndex(records, id);
  }

  /** Every request does to the records what it says, and is carried out exactly when it can be. */
  lemma {:induction false} EditMeans(records: seq<Record>, request: Request, issued: RecordId)
    ensures Edited(records, request, issued).Some? <==> Possible(request, records)
    ensures Edited(records, request, issued).Some? ==> Means(request, records, Edited(records, request, issued).value, issued)
  {
    if request.Compress? {
      hide *;
      SelectionPossible(records, request.ids, request.text, issued);
      if Edited(records, request, issued).Some? { CompressMeans(records, request.ids, request.text, issued); }
    } else {
      hide NamedAt, TextChanged, TakenAway, Retexted, IndexOf;
      match request
      case Edit(id, text) => RetextMeans(records, id, text);
      case Revise(id, text) => RetextMeans(records, id, text);
      case Forget(id) => ForgetMeans(records, id);
      case _ =>
    }
  }

  lemma {:induction false} RetextMeans(records: seq<Record>, id: RecordId, text: string)
    ensures Retexted(records, id, text).Some? <==> Present(records, id)
    ensures Retexted(records, id, text).Some? ==>
      exists k: nat :: NamedAt(records, id, k) && TextChanged(records, Retexted(records, id, text).value, k, text)
  {
    NamedIndex(records, id);
    var k := IndexOf(records, id);
    if k < |records| { assert TextChanged(records, Retexted(records, id, text).value, k, text); }
  }

  lemma {:induction false} ForgetMeans(records: seq<Record>, id: RecordId)
    ensures var k := IndexOf(records, id);
      && (k < |records| <==> Present(records, id))
      && (k < |records| ==> NamedAt(records, id, k) && TakenAway(records, records[..k] + records[k + 1..], k))
  {
    NamedIndex(records, id);
  }

  // ---------------------------------------------------------------- room

  /** The UTF-8 encoding of a scalar value (section 3 of RFC 3629). */
  function Encode(code: nat): (bytes: seq<nat>) {
    if code < 128 then [code]
    else if code < 2048 then [192 + code / 64, 128 + code % 64]
    else if code < 65536 then [224 + code / 4096, 128 + code / 64 % 64, 128 + code % 64]
    else [240 + code / 262144, 128 + code / 4096 % 64, 128 + code / 64 % 64, 128 + code % 64]
  }

  /** How many bytes the first one of an encoding announces. */
  function Announced(first: nat): nat { if first < 128 then 1 else if first < 224 then 2 else if first < 240 then 3 else 4 }

  /** A character's width is the length of its encoding, as its first byte announces. */
  lemma {:induction false} WidthEncodes(c: char)
    ensures Width(c) == |Encode(c as int)| == Announced(Encode(c as int)[0])
  {
  }

  /** The bytes of the texts, without what separates them. */
  function TextBytes(records: seq<Record>): nat {
    if records == [] then 0 else TextBytes(records[..|records| - 1]) + Utf8(records[|records| - 1].text)
  }

  lemma {:induction false} Utf8Concat(a: string, b: string)
    ensures Utf8(a + b) == Utf8(a) + Utf8(b)
  {
    if a == "" {
      assert a + b == b;
    } else {
      assert (a + b)[1..] == a[1..] + b;
      Utf8Concat(a[1..], b);
    }
  }

  lemma {:induction false} TextBytesFirst(records: seq<Record>)
    requires records != []
    ensures TextBytes(records) == Utf8(records[0].text) + TextBytes(records[1..])
  {
    if |records| > 1 {
      TextBytesFirst(records[..|records| - 1]);
      assert records[1..][..|records| - 2] == records[..|records| - 1][1..];
    } else {
      assert records[..0] == [] && records[1..] == [];
    }
  }

  /** A memory takes the bytes of its texts and one more between each two of them. */
  lemma {:induction false} UsedBytes(records: seq<Record>)
    ensures Used(records) == TextBytes(records) + if records == [] then 0 else |records| - 1
  {
    if records != [] {
      var text, rest := records[0].text, records[1..];
      UsedBytes(rest);
      TextBytesFirst(records);
      assert Texts(records)[1..] == Texts(rest);
      if rest != [] {
        Utf8Concat(text + "\n", Joined(Texts(rest)));
        Utf8Concat(text, "\n");
        assert Utf8("\n") == 1 by { assert "\n"[1..] == ""; }
      } else {
        assert Joined(Texts(records)) == text;
      }
    }
  }

  // ---------------------------------------------------------------- what an accepted event came from

  predicate KindFits(request: Request, kind: Kind) {
    && (request.Remember? <==> kind.WriteOp?) && (request.Edit? || request.Revise? <==> kind.EditOp?) && (request.Forget? <==> kind.EvictOp?)
    && (request.Compress? <==> kind.CompressOp?) && (request.Clear? <==> kind.ClearOp?) && (request.Read? <==> kind.ReadOp?)
    && (request.Recover? <==> kind.RecoverOp?)
  }

  /** An event the reducer accepts does to the records what its request means, under the kind of that request and the id of
      its place in the memory. */
  lemma {:induction false} AcceptedMeans(log: Log, k: nat, previous: Option<State>)
    requires k < |log.events| && log.events[k].Memory? && Replayed(log, k, previous).Some?
    ensures var e, st, next := log.events[k], Entering(previous, log.events[k]), Replayed(log, k, previous).value;
      && |e.inputs| > 1 && e.inputs[1].RequestContent? && KindFits(e.inputs[1].request, e.kind)
      && (!e.inputs[1].request.Recover? ==> Means(e.inputs[1].request, st.records, next.records, Issued(log.run, e.identity, st.sequence)))
      && e.output == ArchiveContent(next.records, Joined(Texts(next.records))) && next.head == Some(k)
      && e.inputs[0] == ArchiveContent(st.records, Joined(Texts(st.records)))
      && e.before.used == Used(st.records) && e.after.used == Used(next.records) && e.after.used <= e.after.bytes == st.capacity
      && e.operationId == OperationId(log.run, e.identity, st.sequence)
      && e.parents == (if st.head.None? then [] else [st.head.value])
  {
    hide Edited, Completed, Invoked, CompletionRefs, Used, Means;
    var e, st := log.events[k], Entering(previous, log.events[k]);
    if !e.inputs[1].request.Recover? { EditMeans(st.records, e.inputs[1].request, Issued(log.run, e.identity, st.sequence)); }
  }

  /** No invocation of this name was made in the memory phase. */
  predicate Unprompted(events: seq<Event>, invocation: string) {
    forall j :: 0 <= j < |events| && events[j].Invocation? && events[j].invocation == invocation ==> events[j].phase != "memory_update"
  }

  lemma {:induction false} UnpromptedReads(events: seq<Event>, invocation: string)
    ensures Unprompted(events, invocation) <==> !Invoked(events, invocation, true)
  {
  }

  /** The recorded completion of invocation `k` asked for exactly this. */
  predicate Asked(events: seq<Event>, k: nat, identity: string, session: Session, turn: nat, request: Request)
    requires k < |events|
  {
    && events[k].Invocation? && events[k].phase == "memory_update" && events[k].participant == identity
    && events[k].session == session && events[k].turn == turn && events[k].memoryParser && events[k].success.Some?
    && events[k].success.value.parsed == request && events[k].success.value.raw == request
  }

  /** Event i carries out the completion of invocation k, the last one of its name, and no other edit has come between. */
  predicate Consumed(events: seq<Event>, i: nat, k: nat)
    requires k < i < |events| && events[i].Memory?
  {
    var e := events[i];
    && events[k].Invocation? && events[k].invocation == e.invocation
    && |e.inputs| > 1 && e.inputs[1].RequestContent?
    && Asked(events, k, e.identity, e.session, e.turn, e.inputs[1].request)
    && (forall c :: c in events[k].refs ==> c in e.inputs)
    && (forall m :: k < m < i && events[m].Memory? && events[m].invocation == e.invocation ==> events[m].kind == RecoverOp)
    && (forall m :: k < m < i ==> !(events[m].Invocation? && events[m].invocation == e.invocation))
  }

  /** An accepted edit that names a recorded invocation carries out what the last one of that name was completed with, and
      no other edit has come between. */
  lemma {:induction false} CompletionConsumedOnce(log: Log, i: nat, previous: Option<State>)
    requires i < |log.events| && log.events[i].Memory? && Replayed(log, i, previous).Some? && log.events[i].kind != RecoverOp
    requires exists j :: 0 <= j < i && log.events[j].Invocation? && log.events[j].invocation == log.events[i].invocation
                         && (log.events[i].kind.ReadOp? ==> log.events[j].phase == "memory_update")
    ensures exists k :: 0 <= k < i && Consumed(log.events, i, k)
  {
    var e, events := log.events[i], log.events[..i];
    AcceptedProvenance(log, i, previous);
    hide Edited, Used, ArchiveOf, Reduced, Parses, LastInvocation, Replayed;
    var k := LastInvocation(events, e.invocation);
    LastIsLast(events, e.invocation);
    assert forall m :: 0 <= m < i ==> events[m] == log.events[m];
    assert k < |events| && Consumed(log.events, i, k);
  }

  lemma {:induction false} AcceptedProvenance(log: Log, i: nat, previous: Option<State>)
    requires i < |log.events| && log.events[i].Memory? && Replayed(log, i, previous).Some? && log.events[i].kind != RecoverOp
    requires exists j :: 0 <= j < i && log.events[j].Invocation? && log.events[j].invocation == log.events[i].invocation
                         && (log.events[i].kind.ReadOp? ==> log.events[j].phase == "memory_update")
    ensures var e, st, events := log.events[i], Entering(previous, log.events[i]), log.events[..i];
      && |e.inputs| > 1 && e.inputs[1].RequestContent?
      && Completed(events, e.identity, e.session, e.invocation, e.turn, e.inputs[1].request, st.records, st.capacity)
      && forall c :: c in CompletionRefs(events, e.invocation) ==> c in e.inputs
  {
    hide Edited, Used, ArchiveOf, Reduced, Completed, CompletionRefs, Entering;
    var e, events := log.events[i], log.events[..i];
    assert KindOf(e.inputs[1].request) == Some(e.kind);
    var j :| 0 <= j < i && log.events[j].Invocation? && log.events[j].invocation == e.invocation
             && (e.kind.ReadOp? ==> log.events[j].phase == "memory_update");
    assert events[j].Invocation?;
    assert Invoked(events, e.invocation, e.inputs[1].request.Read?);
  }

  lemma {:induction false} LastIsLast(events: seq<Event>, invocation: string)
    ensures var k := LastInvocation(events, invocation);
      forall m :: k < m < |events| ==> !(events[m].Invocation? && events[m].invocation == invocation)
  {
    if events != [] && !(events[|events| - 1].Invocation? && events[|events| - 1].invocation == invocation) {
      LastIsLast(events[..|events| - 1], invocation);
    }
  }
}
