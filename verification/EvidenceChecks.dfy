/** What the verification of run evidence establishes, and what recording and carrying out a redaction leaves, said of the
    events and payloads themselves. */
module EvidenceChecks {
  import opened Options
  import opened Canonical
  import opened EvidenceChain
  import opened EvidenceBundles
  import Redaction

  // ---------------------------------------------------------------- the mark of a redacted event

  /** The first field of that name. */
  predicate FirstNamed(fs: seq<Field>, key: Text, k: nat) {
    k < |fs| && fs[k].key == key && forall m :: 0 <= m < k ==> fs[m].key != key
  }

  lemma {:induction false} LookupFirst(fs: seq<Field>, key: Text)
    ensures Lookup(fs, key).None? ==> forall k: nat :: !FirstNamed(fs, key, k)
    ensures Lookup(fs, key).Some? ==> exists k: nat :: FirstNamed(fs, key, k) && fs[k].value == Lookup(fs, key).value
  {
    if fs != [] {
      if fs[0].key == key {
        assert FirstNamed(fs, key, 0);
      } else {
        LookupFirst(fs[1..], key);
        if Lookup(fs, key).Some? {
          var k: nat :| FirstNamed(fs[1..], key, k) && fs[1..][k].value == Lookup(fs, key).value;
          assert forall m :: 0 < m < |fs| ==> fs[m] == fs[1..][m - 1];
          assert FirstNamed(fs, key, k + 1);
        }
      }
    }
  }

  /** The event's own `redacted` field has this value. */
  ghost predicate Marked(e: Entry, v: Json) {
    && e.inline.Kept? && e.inline.value.Obj?
    && exists k: nat :: FirstNamed(e.inline.value.fields, Ascii("redacted"), k) && e.inline.value.fields[k].value == v
  }

  /** The event was redacted, or its payload says `redacted` with something that is not false, null, zero or empty. */
  ghost predicate CountsRedacted(e: Entry) {
    e.inline.Marker? || exists v :: Marked(e, v) && v != Null && v != Bool(false) && v != Num(Ascii("0")) && v != Str([])
  }

  ghost predicate SaysRedacted(b: Bundle) {
    b.incomplete || b.removed != {} || exists i :: 0 <= i < |b.events| && (b.events[i].inline.Marker? || Marked(b.events[i], Bool(true)))
  }

  lemma {:induction false} MarkMeans(e: Entry, v: Json)
    requires e.inline.Kept?
    ensures Marked(e, v) <==> MarkOf(e.inline.value) == Some(v)
  {
    hide Ascii;
    if e.inline.value.Obj? {
      var fs, key := e.inline.value.fields, Ascii("redacted");
      LookupFirst(fs, key);
      forall j: nat, k: nat | FirstNamed(fs, key, j) && FirstNamed(fs, key, k)
        ensures j == k
      {
      }
    }
  }

  lemma {:induction false} FlagMeans(e: Entry)
    ensures Flagged(e) <==> CountsRedacted(e)
    ensures Declared(e) <==> e.inline.Marker? || Marked(e, Bool(true))
  {
    assert Ascii("0") == [48];
    if e.inline.Kept? {
      MarkMeans(e, Bool(true));
      if MarkOf(e.inline.value).Some? { MarkMeans(e, MarkOf(e.inline.value).value); }
      forall v | Marked(e, v)
        ensures MarkOf(e.inline.value) == Some(v)
      {
        MarkMeans(e, v);
      }
    }
  }

  // ---------------------------------------------------------------- verification

  ghost predicate TombstoneFine(c: Catalogue, b: Bundle, e: Entry) {
    e.run == b.run && !CountsRedacted(e) && e.inline.Kept? && Valid(e.inline.value) && c.admits(e.kind, Canon(e.inline.value))
  }

  /** Evidence is intact if it loads and nothing in it says it was redacted, or if it has tombstones and they are in order. */
  lemma {:induction false} IntactMeans(c: Catalogue, b: Bundle)
    ensures Intact(c, b) <==>
      if forall i :: 0 <= i < |b.events| ==> b.events[i].kind != "RedactionTombstone" then !SaysRedacted(b) && Loads(c, b)
      else forall i :: 0 <= i < |b.events| && b.events[i].kind == "RedactionTombstone" ==> TombstoneFine(c, b, b.events[i])
  {
    hide Canon, Valid, Loads, MarkOf, Marked, CountsRedacted, Flagged, Declared, TombstoneOk, TombstoneFine;
    TombstonesMean(c, b);
    MarksMean(b);
    assert forall i :: 0 <= i < |b.events| ==> b.events[i] in b.events;
  }

  lemma {:induction false} MarksMean(b: Bundle)
    ensures SaysRedacted(b) <==> b.incomplete || b.removed != {} || exists e :: e in b.events && Declared(e)
  {
    hide Declared, Marked;
    forall e
      ensures Declared(e) <==> e.inline.Marker? || Marked(e, Bool(true))
    {
      FlagMeans(e);
    }
  }

  lemma {:induction false} TombstonesMean(c: Catalogue, b: Bundle)
    ensures forall e :: TombstoneOk(c, b.run, e) <==> TombstoneFine(c, b, e)
  {
    hide Canon, Valid, MarkOf, Marked;
    forall e
      ensures TombstoneOk(c, b.run, e) <==> TombstoneFine(c, b, e)
    {
      FlagMeans(e);
    }
  }

  /** Each event names the one before it by its digest, the first none. */
  predicate ChainedAt(b: Bundle, i: nat)
    requires i < |b.events|
  {
    && b.events[i].run == b.run
    && (i == 0 ==> b.events[i].previous == None) && (i > 0 ==> b.events[i].previous == Some(b.events[i - 1].hash))
  }

  /** A kept event's digest is that of everything in it, and its payload is stored under its reference. */
  predicate KeptFine(b: Bundle, e: Entry) {
    && e.inline.Kept? && Valid(e.inline.value) && e.ref in b.payloads && b.payloads[e.ref] == Canon(e.inline.value)
    && e.hash.previous == e.previous
    && var v := e.hash.envelope;
    && v.run == e.run && v.sequence == e.sequence && v.id == e.id && v.kind == e.kind && v.ref == e.ref
    && v.content == Canon(e.inline.value) && v.causes == e.causes && v.inputs == e.inputs && v.signer == e.signer
  }

  /** An event that counts as redacted is among those taken away and says itself which event it was. */
  predicate GoneFine(rd: Reader, b: Bundle, e: Entry) {
    && e.ref in b.removed
    && (e.inline.Marker? ==> e.inline.original == e.hash) && (e.inline.Kept? ==> rd.named(e.inline.value) == Some(e.hash))
  }

  ghost predicate EventFine(rd: Reader, b: Bundle, i: nat)
    requires i < |b.events|
  {
    var e := b.events[i];
    ChainedAt(b, i) && (CountsRedacted(e) ==> GoneFine(rd, b, e)) && (!CountsRedacted(e) ==> KeptFine(b, e))
  }

  ghost predicate HasTombstone(b: Bundle, id: EventId) {
    exists i :: 0 <= i < |b.events| && b.events[i].id == id && b.events[i].kind == "RedactionTombstone" && !CountsRedacted(b.events[i])
  }

  /** Redacted evidence verifies exactly if it says it is incomplete, its events are a chain, each in order or properly gone,
      and it names tombstones, all of which are there. */
  lemma {:induction false} RedactedMeans(rd: Reader, b: Bundle)
    ensures RedactedOk(rd, b) <==>
      && b.incomplete && (forall i :: 0 <= i < |b.events| ==> EventFine(rd, b, i))
      && |b.tombstones| > 0 && forall id :: id in b.tombstones ==> HasTombstone(b, id)
  {
    hide EntryOk, EventFine, Flagged, CountsRedacted;
    forall i | 0 <= i < |b.events|
      ensures EntryOk(rd, b, i) <==> EventFine(rd, b, i)
    {
      EntryMeans(rd, b, i);
    }
    forall e
      ensures Flagged(e) <==> CountsRedacted(e)
    {
      FlagMeans(e);
    }
  }

  lemma {:induction false} EntryMeans(rd: Reader, b: Bundle, i: nat)
    requires i < |b.events|
    ensures EntryOk(rd, b, i) <==> EventFine(rd, b, i)
  {
    hide Canon, Valid, Flagged, CountsRedacted;
    var e := b.events[i];
    FlagMeans(e);
    UnflaggedKept(e);
  }

  /** A bundle passes the archive's verification if every payload is stored under its own digest, and complete evidence is
      intact, redacted evidence as above. */
  lemma {:induction false} BundleMeans(c: Catalogue, rd: Reader, b: Bundle, complete: bool)
    ensures BundleOk(c, rd, b, complete) <==>
      && (forall r :: r in b.payloads ==> b.payloads[r] == r.bytes) && (complete ==> Intact(c, b))
      && (!complete ==> b.incomplete && (forall i :: 0 <= i < |b.events| ==> EventFine(rd, b, i))
                        && |b.tombstones| > 0 && forall id :: id in b.tombstones ==> HasTombstone(b, id))
  {
    hide Intact, RedactedOk, EventFine, HasTombstone;
    RedactedMeans(rd, b);
  }

  // ---------------------------------------------------------------- what a redaction leaves

  /** The event by which the tombstone is recorded: the next one, of this run, over this content, after the last one. */
  predicate Records(b: Bundle, t: Json, e: Entry)
    requires Valid(t)
  {
    && e.kind == "RedactionTombstone" && e.run == b.run && e.signer == b.run && e.sequence == |b.events| && e.id == EventId(b.run, |b.events|)
    && e.inline == Kept(t) && e.ref == Ref(Canon(t)) && e.causes == [] && e.inputs == []
    && (b.events == [] ==> e.previous == None) && (b.events != [] ==> e.previous == Some(b.events[|b.events| - 1].hash))
    && e.hash.previous == e.previous && e.hash.envelope.content == Canon(t) && e.hash.envelope.kind == e.kind && e.hash.envelope.id == e.id
    && e.hash.envelope.run == e.run && e.hash.envelope.sequence == e.sequence && e.hash.envelope.ref == e.ref
    && e.hash.envelope.causes == [] && e.hash.envelope.inputs == [] && e.hash.envelope.signer == e.signer
  }

  /** Event e as a redaction leaves it: its payload a marker of its digest if that was taken away, and nothing else changed. */
  predicate LeftAs(e: Entry, left: Entry, removed: set<Ref>) {
    && left.run == e.run && left.sequence == e.sequence && left.id == e.id && left.kind == e.kind && left.ref == e.ref
    && left.causes == e.causes && left.inputs == e.inputs && left.signer == e.signer && left.previous == e.previous && left.hash == e.hash
    && left.inline == if e.ref in removed then Marker(e.hash) else e.inline
  }

  /** A redaction of verified evidence adds the tombstone's event, leaves every event at its place, and keeps exactly the
      payloads, the tombstone's included, that were not removed now or before; it names every tombstone there is. */
  lemma {:induction false} RedactionLeaves(c: Catalogue, rd: Reader, b: Bundle, complete: bool, t: Json)
    requires Redacting(c, rd, b, complete, t).Some?
    ensures Valid(t)
    ensures var d := Redacting(c, rd, b, complete, t).value;
      && d.run == b.run && d.incomplete && b.removed <= d.removed && |d.events| == |b.events| + 1
      && (forall i :: 0 <= i < |b.events| ==> LeftAs(b.events[i], d.events[i], d.removed))
      && Records(b, t, d.events[|b.events|])
      && (forall r :: r in d.payloads <==> (r in b.payloads || r == Ref(Canon(t))) && r !in d.removed)
      && (forall r :: r in d.payloads ==> d.payloads[r] == if r == Ref(Canon(t)) then Canon(t) else b.payloads[r])
      && forall id :: id in d.tombstones <==> exists i :: 0 <= i < |d.events| && d.events[i].id == id && d.events[i].kind == "RedactionTombstone"
  {
    hide Canon, Valid, Loads, TombstoneShaped, View, Redaction.Redactable, Redaction.Closure, Erased, Recorded, Records, LeftAs, IsTombstone;
    var now := Recorded(b, t);
    var d := Redacting(c, rd, b, complete, t).value;
    RecordedTold(b, t);
    Spared(rd, now);
    ErasedTold(now, Redaction.Result(View(rd, now)).removed);
    assert now.events[|b.events|] in now.events;
    RecordStays(b, t, now.events[|b.events|], d.events[|b.events|], d.removed);
  }

  lemma {:induction false} RecordStays(b: Bundle, t: Json, e: Entry, left: Entry, removed: set<Ref>)
    requires Valid(t) && Records(b, t, e) && LeftAs(e, left, removed)
    ensures IsTombstone(e)
    ensures e.ref !in removed ==> Records(b, t, left)
  {
    hide Canon, Valid;
  }

  lemma {:induction false} RecordedTold(b: Bundle, t: Json)
    requires Valid(t)
    ensures var now := Recorded(b, t);
      && now.run == b.run && now.removed == b.removed && |now.events| == |b.events| + 1
      && (forall i :: 0 <= i < |b.events| ==> now.events[i] == b.events[i]) && Records(b, t, now.events[|b.events|])
      && (forall r :: r in now.payloads <==> r in b.payloads || r == Ref(Canon(t)))
      && forall r :: r in now.payloads ==> now.payloads[r] == if r == Ref(Canon(t)) then Canon(t) else b.payloads[r]
  {
    hide Canon, Valid;
  }

  lemma {:induction false} ErasedTold(b: Bundle, s: set<Ref>)
    ensures var d := Erased(b, s);
      && d.run == b.run && d.incomplete && d.removed == s && |d.events| == |b.events|
      && (forall i :: 0 <= i < |b.events| ==> LeftAs(b.events[i], d.events[i], s))
      && (forall r :: r in d.payloads <==> r in b.payloads && r !in s) && (forall r :: r in d.payloads ==> d.payloads[r] == b.payloads[r])
      && forall id :: id in d.tombstones <==> exists i :: 0 <= i < |d.events| && d.events[i].id == id && d.events[i].kind == "RedactionTombstone"
  {
    hide TombstoneIds;
    TombstonesListed(b.events);
  }

  lemma {:induction false} TombstonesListed(events: seq<Entry>)
    ensures forall id :: id in TombstoneIds(events) <==> exists i :: 0 <= i < |events| && events[i].id == id && events[i].kind == "RedactionTombstone"
  {
    if events != [] {
      TombstonesListed(events[1..]);
      assert forall i :: 0 < i < |events| ==> events[i] == events[1..][i - 1];
    }
  }

  // ---------------------------------------------------------------- what the redaction algorithm is shown

  /** The tombstones are those of the events at these places, which are all there are, in order. */
  predicate Shown(rd: Reader, events: seq<Entry>, payloads: map<Ref, Text>, ts: seq<Redaction.Tombstone>, at: seq<nat>) {
    && |at| == |ts| && (forall k :: 0 <= k < |at| ==> at[k] < |events|) && (forall j, k :: 0 <= j < k < |at| ==> at[j] < at[k])
    && (forall k :: 0 <= k < |at| ==>
          && events[at[k]].kind == "RedactionTombstone"
          && ts[k] == rd.tombstone(events[at[k]], payloads).(payload := events[at[k]].ref))
    && forall i :: 0 <= i < |events| && events[i].kind == "RedactionTombstone" ==> i in at
  }

  lemma {:induction false} TombstonesShown(rd: Reader, events: seq<Entry>, payloads: map<Ref, Text>) returns (at: seq<nat>)
    ensures Shown(rd, events, payloads, Tombstones(rd, events, payloads), at)
  {
    hide Shown, IsTombstone, Tombstones;
    if events == [] {
      at := [];
      NoneShown(rd, payloads);
    } else {
      at := TombstonesShown(rd, events[..|events| - 1], payloads);
      TombstonesLast(rd, events, payloads);
      ShownNext(rd, events, payloads, Tombstones(rd, events[..|events| - 1], payloads), at);
      at := at + if IsTombstone(events[|events| - 1]) then [|events| - 1] else [];
    }
  }

  lemma {:induction false} NoneShown(rd: Reader, payloads: map<Ref, Text>)
    ensures Shown(rd, [], payloads, Tombstones(rd, [], payloads), [])
  {
  }

  function Own(rd: Reader, e: Entry, payloads: map<Ref, Text>): seq<Redaction.Tombstone> {
    if IsTombstone(e) then [rd.tombstone(e, payloads).(payload := e.ref)] else []
  }

  lemma {:induction false} ShownNext(rd: Reader, events: seq<Entry>, payloads: map<Ref, Text>, ts: seq<Redaction.Tombstone>, at: seq<nat>)
    requires events != [] && Shown(rd, events[..|events| - 1], payloads, ts, at)
    ensures var last := events[|events| - 1];
      Shown(rd, events, payloads, ts + Own(rd, last, payloads), at + if IsTombstone(last) then [|events| - 1] else [])
  {
    var front, last := events[..|events| - 1], events[|events| - 1];
    var all := at + if IsTombstone(last) then [|events| - 1] else [];
    assert forall i :: i in at ==> i in all;
    assert forall k :: 0 <= k < |at| ==> events[at[k]] == front[at[k]];
    forall i | 0 <= i < |events| && events[i].kind == "RedactionTombstone"
      ensures i in all
    {
      if i < |front| { assert front[i] == events[i]; }
    }
  }

  lemma {:induction false} TombstonesLast(rd: Reader, events: seq<Entry>, payloads: map<Ref, Text>)
    requires events != []
    ensures Tombstones(rd, events, payloads) == Tombstones(rd, events[..|events| - 1], payloads) + Own(rd, events[|events| - 1], payloads)
  {
    hide Tombstones, Own;
    TombstonesFirst(rd, events, payloads);
    if |events| == 1 {
      assert events[1..] == events[..0] == [];
      NothingShown(rd, payloads);
    } else {
      var front, rest := events[..|events| - 1], events[1..];
      TombstonesLast(rd, rest, payloads);
      TombstonesFirst(rd, front, payloads);
      assert rest[..|rest| - 1] == front[1..];
    }
  }

  lemma {:induction false} NothingShown(rd: Reader, payloads: map<Ref, Text>)
    ensures Tombstones(rd, [], payloads) == []
  {
  }

  lemma {:induction false} TombstonesFirst(rd: Reader, events: seq<Entry>, payloads: map<Ref, Text>)
    requires events != []
    ensures Tombstones(rd, events, payloads) == Own(rd, events[0], payloads) + Tombstones(rd, events[1..], payloads)
  {
  }

  /** The redaction algorithm sees every payload under its digest, every tombstone, what incident reports say, what was
      removed before, and the links events declare. */
  lemma {:induction false} ViewShown(rd: Reader, b: Bundle) returns (at: seq<nat>)
    ensures var v := View(rd, b);
      && Shown(rd, b.events, b.payloads, v.tombstones, at) && v.removed == b.removed && v.links == rd.links(b.events, b.payloads)
      && (forall s, g :: v.metadataClean(s, g) <==> rd.clean(Erased(b, s), g))
      && (forall r :: r in v.payloads <==> r in b.payloads)
      && (forall r :: r in b.payloads ==> v.payloads[r] == rd.scan(b.payloads[r]).(digest := Ref(b.payloads[r])))
      && forall r :: r in v.audit <==> exists i :: 0 <= i < |b.events| && b.events[i].kind == "SecurityIncident" && b.events[i].ref == r
  {
    hide Shown, Tombstones;
    at := TombstonesShown(rd, b.events, b.payloads);
  }
}
