/** The bundles a run archive holds: hash-chained events and their payloads, what verifying a bundle checks,
    and what recording and carrying out a redaction makes of it.  An object's keys are taken in canonical order,
    so equal values are equal texts. */
module EvidenceBundles {
  import opened Options
  import opened Canonical
  import opened EvidenceChain
  import Redaction

  /** An event's payload: its own value, or the marker a redaction leaves in its place. */
  datatype Inline = Kept(value: Json) | Marker(original: Digest)

  datatype Entry = Entry(run: string, sequence: nat, id: EventId, kind: string, ref: Ref, inline: Inline, causes: seq<EventId>,
                         inputs: seq<Ref>, signer: string, previous: Option<Digest>, hash: Digest)

  /** `incomplete` is the redaction status, `removed` the payloads redactions took away. */
  datatype Bundle = Bundle(run: string, events: seq<Entry>, payloads: map<Ref, Text>, incomplete: bool, removed: set<Ref>,
                           tombstones: seq<EventId>)

  /** What is decoded from texts: the event digest a value says it stands for, a payload as redaction scans it,
      what a tombstone selects, the provenance events declare, and whether what is left outside payloads is clean. */
  datatype Reader = Reader(named: Json -> Option<Digest>, scan: Text -> Redaction.Payload,
                           tombstone: (Entry, map<Ref, Text>) -> Redaction.Tombstone,
                           links: (seq<Entry>, map<Ref, Text>) -> seq<Redaction.Link>,
                           clean: (Bundle, Redaction.Targets) -> bool)

  const TOMBSTONE := "RedactionTombstone"
  const INCIDENT := "SecurityIncident"

  function Ascii(s: string): (t: Text)
    ensures |t| == |s|
  {
    seq(|s|, i requires 0 <= i < |s| => s[i] as nat)
  }

  // ---------------------------------------------------------------- the mark of a redacted event

  function Lookup(fs: seq<Field>, key: Text): (v: Option<Json>)
    ensures v.None? <==> forall i :: 0 <= i < |fs| ==> fs[i].key != key
  {
    if fs == [] then None else if fs[0].key == key then Some(fs[0].value) else Lookup(fs[1..], key)
  }

  /** The value of a payload's own `redacted` field. */
  function MarkOf(v: Json): Option<Json> { if v.Obj? then Lookup(v.fields, Ascii("redacted")) else None }

  /** Values that count as true. */
  predicate Truthy(v: Json) {
    match v
    case Null => false
    case Bool(b) => b
    case Num(digits) => digits != [48]
    case Str(s) => s != []
    case _ => true
  }

  /** Verification takes every event whose `redacted` counts as true for a redacted one. */
  predicate Flagged(e: Entry) { e.inline.Marker? || (MarkOf(e.inline.value).Some? && Truthy(MarkOf(e.inline.value).value)) }

  /** The completeness check asks for the value true itself. */
  predicate Declared(e: Entry) { e.inline.Marker? || MarkOf(e.inline.value) == Some(Bool(true)) }

  predicate IsTombstone(e: Entry) { e.kind == TOMBSTONE }

  predicate Unflagged(b: Bundle) { forall e :: e in b.events ==> !Flagged(e) }

  // ---------------------------------------------------------------- verification

  predicate AllKept(events: seq<Entry>) { forall e :: e in events ==> e.inline.Kept? }

  function EventOf(e: Entry): Event
    requires e.inline.Kept?
  {
    Event(e.run, e.sequence, e.id, e.kind, e.ref, e.inline.value, e.causes, e.inputs, e.signer, e.previous, e.hash)
  }

  function StoreOf(b: Bundle): Store
    requires AllKept(b.events)
  {
    Store(b.run, seq(|b.events|, i requires 0 <= i < |b.events| => EventOf(b.events[i])), b.payloads)
  }

  /** The bundle loads as an evidence store. */
  predicate Loads(c: Catalogue, b: Bundle) { AllKept(b.events) && Verified(c, StoreOf(b)) }

  predicate TombstoneOk(c: Catalogue, run: string, e: Entry) {
    e.run == run && !Flagged(e) && Valid(e.inline.value) && c.admits(e.kind, Canon(e.inline.value))
  }

  /** Evidence integrity: complete evidence is loaded, evidence that says it is redacted must have tombstones. */
  predicate Intact(c: Catalogue, b: Bundle) {
    var marked := b.incomplete || b.removed != {} || exists e :: e in b.events && Declared(e);
    if !marked && forall e :: e in b.events ==> !IsTombstone(e) then Loads(c, b)
    else (exists e :: e in b.events && IsTombstone(e)) && forall e :: e in b.events && IsTombstone(e) ==> TombstoneOk(c, b.run, e)
  }

  function LastHash(events: seq<Entry>): Option<Digest> { if events == [] then None else Some(events[|events| - 1].hash) }

  /** The digest of the event a redacted entry stands for, as the entry has it. */
  function OriginalOf(rd: Reader, e: Entry): Option<Digest> { if e.inline.Marker? then Some(e.inline.original) else rd.named(e.inline.value) }

  predicate KeptOk(payloads: map<Ref, Text>, e: Entry)
    requires e.inline.Kept?
  {
    && Valid(e.inline.value) && e.hash == Digest(EnvelopeOf(EventOf(e)), e.previous)
    && e.ref in payloads && payloads[e.ref] == Canon(e.inline.value)
  }

  predicate EntryOk(rd: Reader, b: Bundle, i: nat)
    requires i < |b.events|
  {
    var e := b.events[i];
    && e.run == b.run && e.previous == LastHash(b.events[..i])
    && if Flagged(e) then e.ref in b.removed && OriginalOf(rd, e) == Some(e.hash) else KeptOk(b.payloads, e)
  }

  predicate TombstoneThere(events: seq<Entry>, id: EventId) {
    exists i :: 0 <= i < |events| && events[i].id == id && IsTombstone(events[i]) && !Flagged(events[i])
  }

  /** The redacted branch of object verification. */
  predicate RedactedOk(rd: Reader, b: Bundle) {
    && b.incomplete && (forall i :: 0 <= i < |b.events| ==> EntryOk(rd, b, i))
    && b.tombstones != [] && forall id :: id in b.tombstones ==> TombstoneThere(b.events, id)
  }

  predicate BundleOk(c: Catalogue, rd: Reader, b: Bundle, complete: bool) {
    PayloadsOk(b.payloads) && if complete then Intact(c, b) else RedactedOk(rd, b)
  }

  // ---------------------------------------------------------------- recording a redaction

  /** The fields of a tombstone; its schema admits no other. */
  const TOMBSTONE_FIELDS := ["schema_version", "tombstone_id", "artifact_ref", "field_or_range", "pre_redaction_digest", "data_class",
                             "reason", "authority", "recorded_at", "effective_logical_time", "replay_behavior", "affected_derivations",
                             "completeness_impact"]

  predicate TombstoneField(key: Text) { exists i :: 0 <= i < |TOMBSTONE_FIELDS| && key == Ascii(TOMBSTONE_FIELDS[i]) }

  predicate TombstoneShaped(t: Json) { t.Obj? && forall i :: 0 <= i < |t.fields| ==> TombstoneField(t.fields[i].key) }

  lemma {:induction false} NotTheMark(key: Text)
    requires TombstoneField(key)
    ensures key != Ascii("redacted")
  {
    assert forall i :: 0 <= i < |TOMBSTONE_FIELDS| ==> |TOMBSTONE_FIELDS[i]| != |"redacted"|;
  }

  lemma {:induction false} ShapedUnmarked(t: Json)
    requires TombstoneShaped(t)
    ensures MarkOf(t).None?
  {
    hide TombstoneField, Ascii;
    forall i | 0 <= i < |t.fields|
      ensures t.fields[i].key != Ascii("redacted")
    {
      NotTheMark(t.fields[i].key);
    }
  }

  /** The canonical event by which a tombstone is recorded. */
  function TombstoneEntry(b: Bundle, t: Json): Entry
    requires Valid(t)
  {
    var n, content := |b.events|, Canon(t);
    var envelope := Envelope(b.run, n, EventId(b.run, n), TOMBSTONE, Ref(content), content, [], [], b.run);
    Entry(b.run, n, EventId(b.run, n), TOMBSTONE, Ref(content), Kept(t), [], [], b.run, LastHash(b.events),
          Digest(envelope, LastHash(b.events)))
  }

  function Recorded(b: Bundle, t: Json): Bundle
    requires Valid(t)
  {
    b.(events := b.events + [TombstoneEntry(b, t)], payloads := b.payloads[Ref(Canon(t)) := Canon(t)])
  }

  // ---------------------------------------------------------------- carrying it out

  function Tombstones(rd: Reader, events: seq<Entry>, payloads: map<Ref, Text>): (ts: seq<Redaction.Tombstone>)
    ensures forall e :: e in events && IsTombstone(e) ==> exists t :: t in ts && t.payload == e.ref
    ensures ts == [] ==> forall e :: e in events ==> !IsTombstone(e)
  {
    if events == [] then []
    else
      var e := events[0];
      assert events == [e] + events[1..];
      (if IsTombstone(e) then [rd.tombstone(e, payloads).(payload := e.ref)] else []) + Tombstones(rd, events[1..], payloads)
  }

  function TombstoneIds(events: seq<Entry>): (ids: seq<EventId>)
    ensures forall id :: id in ids ==> exists i :: 0 <= i < |events| && events[i].id == id && IsTombstone(events[i])
    ensures ids == [] ==> forall e :: e in events ==> !IsTombstone(e)
  {
    if events == [] then []
    else
      var e, rest := events[0], TombstoneIds(events[1..]);
      assert events == [e] + events[1..];
      assert forall i :: 0 <= i < |events[1..]| ==> events[1..][i] == events[i + 1];
      (if IsTombstone(e) then [e.id] else []) + rest
  }

  /** The bundle as the redaction algorithm sees it. */
  function View(rd: Reader, b: Bundle): Redaction.Bundle {
    Redaction.Bundle(map r | r in b.payloads :: rd.scan(b.payloads[r]).(digest := Ref(b.payloads[r])), Tombstones(rd, b.events, b.payloads),
                     set e | e in b.events && e.kind == INCIDENT :: e.ref, b.removed, rd.links(b.events, b.payloads),
                     (s, g) => rd.clean(Erased(b, s), g))
  }

  function ErasedEntry(e: Entry, s: set<Ref>): Entry { if e.ref in s then e.(inline := Marker(e.hash)) else e }

  function Erased(b: Bundle, s: set<Ref>): Bundle {
    Bundle(b.run, seq(|b.events|, i requires 0 <= i < |b.events| => ErasedEntry(b.events[i], s)), b.payloads - s, true, s,
           TombstoneIds(b.events))
  }

  /** What a redaction by tombstone t makes of a verified bundle, if it is carried out. */
  ghost function Redacting(c: Catalogue, rd: Reader, b: Bundle, complete: bool, t: Json): Option<Bundle> {
    if (complete && !Loads(c, b)) || !Valid(t) || !TombstoneShaped(t) || !c.admits(TOMBSTONE, Canon(t)) then None
    else if rd.tombstone(TombstoneEntry(b, t), b.payloads).artifact !in b.payloads then None
    else
      var now := Recorded(b, t);
      match Redaction.Result(View(rd, now))
      case Redacted(s, _) => Some(Erased(now, s))
      case Rejected => None
  }

  method RedactEvidence(c: Catalogue, rd: Reader, b: Bundle, complete: bool, t: Json) returns (r: Option<Bundle>)
    ensures r == Redacting(c, rd, b, complete, t)
  {
    hide Loads, Valid, TombstoneShaped, Canon, Redaction.Result, View;
    if (complete && !Loads(c, b)) || !Valid(t) || !TombstoneShaped(t) || !c.admits(TOMBSTONE, Canon(t)) { return None; }
    if rd.tombstone(TombstoneEntry(b, t), b.payloads).artifact !in b.payloads { return None; }
    var now := Recorded(b, t);
    var outcome := Redaction.Redact(View(rd, now));
    if outcome.Rejected? { return None; }
    var events: seq<Entry> := [];
    for i := 0 to |now.events|
      invariant |events| == i && forall k :: 0 <= k < i ==> events[k] == ErasedEntry(now.events[k], outcome.removed)
    {
      var e := now.events[i];
      if e.ref in outcome.removed { e := e.(inline := Marker(e.hash)); }
      events := events + [e];
    }
    assert events == Erased(now, outcome.removed).events;
    r := Some(Bundle(now.run, events, now.payloads - outcome.removed, true, outcome.removed, TombstoneIds(now.events)));
  }

  // ---------------------------------------------------------------- exactly when the result verifies

  /** Every event that counts as redacted goes with what is removed. */
  predicate FlaggedGone(b: Bundle, s: set<Ref>) { forall e :: e in b.events && Flagged(e) ==> e.ref in s }

  lemma {:induction false} LoadsEntry(c: Catalogue, b: Bundle, i: nat)
    requires Loads(c, b) && i < |b.events|
    ensures var e := b.events[i];
      e.inline.Kept? && e.run == b.run && e.previous == LastHash(b.events[..i]) && KeptOk(b.payloads, e)
  {
    hide Canon, Valid, Present, Earlier, PayloadsOk;
    var s := StoreOf(b);
    assert b.events[i] in b.events;
    assert EventOk(c, s, i);
    assert s.events[i] == EventOf(b.events[i]);
    assert HeadOf(s.events[..i]) == LastHash(b.events[..i]);
  }

  /** What verification has established of each entry, however the bundle was verified. */
  ghost predicate Linked(b: Bundle) {
    forall i :: 0 <= i < |b.events| ==> EntryLinked(b, i)
  }

  ghost predicate EntryLinked(b: Bundle, i: nat)
    requires i < |b.events|
  {
    var e := b.events[i];
    && e.run == b.run && e.previous == LastHash(b.events[..i])
    && (e.ref !in b.removed ==> e.inline.Kept? && KeptOk(b.payloads, e))
  }

  lemma {:induction false} UnflaggedKept(e: Entry)
    ensures !Flagged(e) ==> e.inline.Kept?
  {
  }

  lemma {:induction false} VerifiedLinked(c: Catalogue, rd: Reader, b: Bundle, complete: bool)
    requires BundleOk(c, rd, b, complete) && (complete ==> Loads(c, b))
    ensures Linked(b) && (!complete ==> FlaggedGone(b, b.removed))
  {
    hide Canon, Valid, PayloadsOk, Intact, Loads, Flagged;
    forall i | 0 <= i < |b.events|
      ensures EntryLinked(b, i)
    {
      if complete {
        LoadsEntry(c, b, i);
      } else {
        UnflaggedKept(b.events[i]);
        assert EntryOk(rd, b, i);
      }
    }
    if !complete {
      forall e | e in b.events && Flagged(e)
        ensures e.ref in b.removed
      {
        var i :| 0 <= i < |b.events| && b.events[i] == e;
        assert EntryOk(rd, b, i);
      }
    }
  }

  lemma {:induction false} RecordedLinked(b: Bundle, t: Json)
    requires Linked(b) && Valid(t) && PayloadsOk(b.payloads)
    ensures Linked(Recorded(b, t))
  {
    hide Canon, Valid;
    var now := Recorded(b, t);
    forall i | 0 <= i < |now.events|
      ensures EntryLinked(now, i)
    {
      assert now.events[..i] == b.events[..i];
      if i < |b.events| {
        assert EntryLinked(b, i);
        assert now.events[i] == b.events[i];
        KeptStays(b.payloads, Canon(t), b.events[i]);
      }
    }
  }

  lemma {:induction false} KeptStays(payloads: map<Ref, Text>, bytes: Text, e: Entry)
    requires PayloadsOk(payloads)
    ensures e.inline.Kept? && KeptOk(payloads, e) ==> KeptOk(payloads[Ref(bytes) := bytes], e)
    ensures PayloadsOk(payloads[Ref(bytes) := bytes])
  {
    hide Canon, Valid;
  }

  lemma {:induction false} ErasedEntryOk(rd: Reader, b: Bundle, s: set<Ref>, i: nat)
    requires Linked(b) && b.removed <= s && i < |b.events|
    ensures EntryOk(rd, Erased(b, s), i) <==> (Flagged(b.events[i]) ==> b.events[i].ref in s)
  {
    hide Canon, Valid, MarkOf, Truthy, TombstoneIds;
    var d := Erased(b, s);
    assert EntryLinked(b, i);
    assert LastHash(d.events[..i]) == LastHash(b.events[..i]);
    var e := b.events[i];
    if e.ref !in s { assert d.events[i] == e; }
  }

  lemma {:induction false} ErasedTombstones(b: Bundle, s: set<Ref>)
    requires FlaggedGone(b, s) && forall e :: e in b.events && IsTombstone(e) ==> e.ref !in s
    requires exists e :: e in b.events && IsTombstone(e)
    ensures var d := Erased(b, s); d.tombstones != [] && forall id :: id in d.tombstones ==> TombstoneThere(d.events, id)
  {
    hide Flagged;
    var d := Erased(b, s);
    forall id | id in d.tombstones
      ensures TombstoneThere(d.events, id)
    {
      var i :| 0 <= i < |b.events| && b.events[i].id == id && IsTombstone(b.events[i]);
      assert b.events[i] in b.events;
      assert d.events[i] == b.events[i];
    }
  }

  /** A redaction of linked evidence that spares the tombstones verifies exactly when every event that counts
      as redacted is among those it takes away. */
  lemma {:induction false} ErasedVerifies(rd: Reader, b: Bundle, s: set<Ref>)
    requires Linked(b) && b.removed <= s && forall e :: e in b.events && IsTombstone(e) ==> e.ref !in s
    requires exists e :: e in b.events && IsTombstone(e)
    ensures RedactedOk(rd, Erased(b, s)) <==> FlaggedGone(b, s)
  {
    hide Linked, Flagged, EntryOk, TombstoneThere, IsTombstone;
    var d := Erased(b, s);
    forall i | 0 <= i < |b.events|
      ensures EntryOk(rd, d, i) <==> (Flagged(b.events[i]) ==> b.events[i].ref in s)
    {
      ErasedEntryOk(rd, b, s, i);
    }
    if FlaggedGone(b, s) { ErasedTombstones(b, s); }
    if RedactedOk(rd, d) {
      forall e | e in b.events && Flagged(e)
        ensures e.ref in s
      {
        var i :| 0 <= i < |b.events| && b.events[i] == e;
        assert EntryOk(rd, d, i);
      }
    }
  }

  lemma {:induction false} Spared(rd: Reader, b: Bundle)
    requires Redaction.Redactable(View(rd, b))
    ensures var s := Redaction.Closure(View(rd, b), Redaction.AllTargets(View(rd, b)).value);
      b.removed <= s && forall e :: e in b.events && IsTombstone(e) ==> e.ref !in s
  {
    hide Redaction.Closure, Redaction.AllTargets, IsTombstone;
    var v := View(rd, b);
    assert Redaction.AllTargets(v).Some?;
    Redaction.ResultSpares(v);
    forall e | e in b.events && IsTombstone(e)
      ensures e.ref in Redaction.Protected(v)
    {
      var t :| t in v.tombstones && t.payload == e.ref;
    }
  }

  /** Redacting verified evidence: its events stay a chain under the same digests, and the result verifies
      exactly when no event is left whose own payload counts as redacted. */
  lemma {:induction false} RedactionVerifies(c: Catalogue, rd: Reader, b: Bundle, complete: bool, t: Json)
    requires BundleOk(c, rd, b, complete) && Redacting(c, rd, b, complete, t).Some?
    ensures var d := Redacting(c, rd, b, complete, t).value;
      && PayloadsOk(d.payloads) && d.run == b.run && |d.events| == |b.events| + 1
      && (RedactedOk(rd, d) <==> FlaggedGone(b, d.removed))
      && (!complete || Unflagged(b) ==> RedactedOk(rd, d))
  {
    hide Canon, Valid, Intact, RedactedOk, Loads, Flagged, IsTombstone, View, Redaction.Redactable, Redaction.Closure, TombstoneShaped;
    var now := Recorded(b, t);
    var d := Redacting(c, rd, b, complete, t).value;
    VerifiedLinked(c, rd, b, complete);
    RecordedLinked(b, t);
    KeptStays(b.payloads, Canon(t), TombstoneEntry(b, t));
    Spared(rd, now);
    RecordedFlags(b, t, d.removed);
    ErasedVerifies(rd, now, d.removed);
    assert !complete ==> FlaggedGone(b, d.removed);
  }

  lemma {:induction false} RecordedFlags(b: Bundle, t: Json, s: set<Ref>)
    requires Valid(t) && TombstoneShaped(t)
    ensures FlaggedGone(Recorded(b, t), s) <==> FlaggedGone(b, s)
    ensures exists e :: e in Recorded(b, t).events && IsTombstone(e)
  {
    hide Canon, Valid, TombstoneShaped, MarkOf;
    ShapedUnmarked(t);
    var now := Recorded(b, t);
    assert now.events[|b.events|] == TombstoneEntry(b, t) && IsTombstone(TombstoneEntry(b, t));
    assert forall e :: e in now.events <==> e in b.events || e == TombstoneEntry(b, t);
  }
}
