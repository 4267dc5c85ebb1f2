/** The canonical evidence store: content-addressed payloads and a hash chain of events. */
module EvidenceChain {
  import opened Options
  import opened Canonical

  /** Content address of payload bytes. */
  datatype Ref = Ref(bytes: Text)

  datatype EventId = EventId(run: string, sequence: nat)

  /** Everything an event's digest covers but its predecessor; `content` is the canonical payload. */
  datatype Envelope = Envelope(run: string, sequence: nat, id: EventId, kind: string, ref: Ref, content: Text,
                               causes: seq<EventId>, inputs: seq<Ref>, signer: string)

  /** Digests are injective. */
  datatype Digest = Digest(envelope: Envelope, previous: Option<Digest>)

  datatype Event = Event(run: string, sequence: nat, id: EventId, kind: string, ref: Ref, payload: Json, causes: seq<EventId>,
                         inputs: seq<Ref>, signer: string, previous: Option<Digest>, hash: Digest)

  /** Known event kinds, the content a kind admits, and the further references its content makes. */
  datatype Catalogue = Catalogue(kinds: set<string>, admits: (string, Text) -> bool, refs: (string, Text) -> seq<Ref>)

  datatype Store = Store(run: string, events: seq<Event>, payloads: map<Ref, Text>)

  function EnvelopeOf(e: Event): Envelope
    requires Valid(e.payload)
  {
    Envelope(e.run, e.sequence, e.id, e.kind, e.ref, Canon(e.payload), e.causes, e.inputs, e.signer)
  }

  function HeadOf(events: seq<Event>): Option<Digest> { if events == [] then None else Some(events[|events| - 1].hash) }

  // ---------------------------------------------------------------- verification

  predicate Earlier(events: seq<Event>, n: nat, id: EventId)
    requires n <= |events|
  {
    exists j :: 0 <= j < n && events[j].id == id
  }

  predicate Present(payloads: map<Ref, Text>, refs: seq<Ref>) { forall r :: r in refs ==> r in payloads }

  predicate EventOk(c: Catalogue, s: Store, i: nat)
    requires i < |s.events|
  {
    var e := s.events[i];
    && e.run == s.run && e.sequence == i && e.id == EventId(s.run, i)
    && (forall id :: id in e.causes ==> Earlier(s.events, i, id))
    && e.previous == HeadOf(s.events[..i])
    && Valid(e.payload) && e.hash == Digest(EnvelopeOf(e), e.previous) && e.signer == s.run
    && e.kind in c.kinds && c.admits(e.kind, Canon(e.payload))
    && e.ref in s.payloads && s.payloads[e.ref] == Canon(e.payload)
    && Present(s.payloads, e.inputs) && Present(s.payloads, c.refs(e.kind, Canon(e.payload)))
  }

  predicate PayloadsOk(payloads: map<Ref, Text>) { forall r :: r in payloads ==> r == Ref(payloads[r]) }

  predicate Verified(c: Catalogue, s: Store) {
    PayloadsOk(s.payloads) && forall i :: 0 <= i < |s.events| ==> EventOk(c, s, i)
  }

  // ---------------------------------------------------------------- the head determines the history

  /** The same event, the order of its payload's keys aside. */
  predicate SameEvent(e: Event, f: Event) { Same(e.payload, f.payload) && e.(payload := f.payload) == f }

  lemma {:induction false} SameHash(c: Catalogue, s: Store, t: Store, i: nat, j: nat)
    requires Verified(c, s) && Verified(c, t) && i < |s.events| && j < |t.events| && s.events[i].hash == t.events[j].hash
    ensures i == j && forall k :: 0 <= k <= i ==> SameEvent(s.events[k], t.events[k])
    decreases i
  {
    hide Present, Earlier, Canon, Same;
    var e, f := s.events[i], t.events[j];
    assert EventOk(c, s, i) && EventOk(c, t, j);
    assert EnvelopeOf(e) == EnvelopeOf(f) && e.previous == f.previous;
    CanonExact(e.payload, f.payload);
    if i > 0 { SameHash(c, s, t, i - 1, i - 1); }
  }

  /** Two verified stores with equal head hashes hold the same events, and the same bytes behind every reference. */
  lemma {:induction false} HeadDeterminesHistory(c: Catalogue, s: Store, t: Store)
    requires Verified(c, s) && Verified(c, t) && HeadOf(s.events) == HeadOf(t.events)
    ensures |s.events| == |t.events|
    ensures forall i :: 0 <= i < |s.events| ==> SameEvent(s.events[i], t.events[i])
    ensures forall r :: r in s.payloads && r in t.payloads ==> s.payloads[r] == t.payloads[r]
  {
    hide EventOk, SameEvent;
    if s.events != [] { SameHash(c, s, t, |s.events| - 1, |t.events| - 1); }
  }

  /** A store that still holds an earlier head at its place extends the history that head stood for. */
  lemma {:induction false} HeadAnchorsPrefix(c: Catalogue, s: Store, t: Store, n: nat)
    requires Verified(c, s) && Verified(c, t) && s.events != [] && n < |t.events| && t.events[n].hash == s.events[|s.events| - 1].hash
    ensures |s.events| == n + 1 && forall i :: 0 <= i < |s.events| ==> SameEvent(s.events[i], t.events[i])
  {
    hide EventOk, SameEvent;
    SameHash(c, s, t, |s.events| - 1, n);
  }

  // ---------------------------------------------------------------- appending

  function Sealed(s: Store, kind: string, payload: Json, causes: seq<EventId>, inputs: seq<Ref>): Event
    requires Valid(payload)
  {
    var n, content, previous := |s.events|, Canon(payload), HeadOf(s.events);
    var envelope := Envelope(s.run, n, EventId(s.run, n), kind, Ref(content), content, causes, inputs, s.run);
    Event(s.run, n, EventId(s.run, n), kind, Ref(content), payload, causes, inputs, s.run, previous, Digest(envelope, previous))
  }

  function Appended(s: Store, kind: string, payload: Json, causes: seq<EventId>, inputs: seq<Ref>): Store
    requires Valid(payload)
  {
    Store(s.run, s.events + [Sealed(s, kind, payload, causes, inputs)], s.payloads[Ref(Canon(payload)) := Canon(payload)])
  }

  lemma {:induction false} OldEventsOk(c: Catalogue, s: Store, e: Event, r: Ref, bytes: Text, i: nat)
    requires PayloadsOk(s.payloads) && r == Ref(bytes) && i < |s.events| && EventOk(c, s, i)
    ensures EventOk(c, Store(s.run, s.events + [e], s.payloads[r := bytes]), i)
  {
    hide Canon, Valid;
    var t := Store(s.run, s.events + [e], s.payloads[r := bytes]);
    assert t.events[..i] == s.events[..i] && t.events[i] == s.events[i];
    forall id | id in s.events[i].causes
      ensures Earlier(t.events, i, id)
    {
      assert Earlier(s.events, i, id);
      var j :| 0 <= j < i && s.events[j].id == id;
      assert t.events[j].id == id;
    }
  }

  /** Appending to a verified store keeps it verified exactly when every cause is an event already there and
      every reference resolves; appending itself does not look. */
  lemma {:induction false} AppendVerifies(c: Catalogue, s: Store, kind: string, payload: Json, causes: seq<EventId>, inputs: seq<Ref>)
    requires Verified(c, s) && Valid(payload) && kind in c.kinds && c.admits(kind, Canon(payload))
    ensures Verified(c, Appended(s, kind, payload, causes, inputs)) <==>
      && (forall id :: id in causes ==> id.run == s.run && id.sequence < |s.events|)
      && Present(Appended(s, kind, payload, causes, inputs).payloads, inputs)
      && Present(Appended(s, kind, payload, causes, inputs).payloads, c.refs(kind, Canon(payload)))
  {
    hide EventOk, Canon, Valid, Present;
    var t := Appended(s, kind, payload, causes, inputs);
    var n := |s.events|;
    forall i | 0 <= i < n
      ensures EventOk(c, t, i)
    {
      OldEventsOk(c, s, t.events[n], Ref(Canon(payload)), Canon(payload), i);
    }
    LastEventOk(c, s, kind, payload, causes, inputs);
  }

  lemma {:induction false} LastEventOk(c: Catalogue, s: Store, kind: string, payload: Json, causes: seq<EventId>, inputs: seq<Ref>)
    requires Verified(c, s) && Valid(payload) && kind in c.kinds && c.admits(kind, Canon(payload))
    ensures EventOk(c, Appended(s, kind, payload, causes, inputs), |s.events|) <==>
      && (forall id :: id in causes ==> id.run == s.run && id.sequence < |s.events|)
      && Present(Appended(s, kind, payload, causes, inputs).payloads, inputs)
      && Present(Appended(s, kind, payload, causes, inputs).payloads, c.refs(kind, Canon(payload)))
  {
    hide Canon, Valid, Present;
    var t := Appended(s, kind, payload, causes, inputs);
    var n := |s.events|;
    assert t.events[..n] == s.events;
    forall j | 0 <= j < n
      ensures t.events[j].id == EventId(s.run, j)
    {
      assert EventOk(c, s, j) && t.events[j] == s.events[j];
    }
    forall id
      ensures Earlier(t.events, n, id) <==> id.run == s.run && id.sequence < n
    {
      if id.run == s.run && id.sequence < n { assert t.events[id.sequence].id == id; }
    }
  }

  // ---------------------------------------------------------------- the store object

  class EvidenceStore {
    const runId: string
    const catalogue: Catalogue
    var events: seq<Event>
    var payloads: map<Ref, Text>
    var previousHash: Option<Digest>

    constructor (runId: string, catalogue: Catalogue)
      ensures this.runId == runId && this.catalogue == catalogue && Linked() && Contents() == Store(runId, [], map[])
    {
      this.runId, this.catalogue := runId, catalogue;
      events, payloads, previousHash := [], map[], None;
    }

    function Contents(): Store
      reads this
    {
      Store(runId, events, payloads)
    }

    /** The head hash kept beside the events is theirs. */
    ghost predicate Linked()
      reads this
    {
      previousHash == HeadOf(events)
    }

    method Append(kind: string, payload: Json, causes: seq<EventId>, inputs: seq<Ref>) returns (r: Option<Event>)
      requires Linked() && Valid(payload)
      modifies this
      ensures Linked()
      ensures r.Some? <==> kind in catalogue.kinds && catalogue.admits(kind, Canon(payload))
      ensures r.Some? ==> Contents() == Appended(old(Contents()), kind, payload, causes, inputs) && r.value == events[|events| - 1]
      ensures r.None? ==> Contents() == old(Contents())
    {
      var content := Canon(payload);
      if kind !in catalogue.kinds || !catalogue.admits(kind, content) { return None; }
      var ref := Ref(content);
      payloads := payloads[ref := content];
      var sequence := |events|;
      var id := EventId(runId, sequence);
      var digest := Digest(Envelope(runId, sequence, id, kind, ref, content, causes, inputs, runId), previousHash);
      var event := Event(runId, sequence, id, kind, ref, payload, causes, inputs, runId, previousHash, digest);
      previousHash := Some(digest);
      events := events + [event];
      r := Some(event);
    }

    /** Payload addresses first, then the events in order against a running head. */
    method Verify() returns (ok: bool)
      ensures ok <==> Verified(catalogue, Contents())
    {
      hide Canon, Valid, Present, Earlier;
      var left := payloads.Keys;
      while left != {}
        invariant left <= payloads.Keys
        invariant forall r :: r in payloads && r !in left ==> r == Ref(payloads[r])
      {
        var r :| r in left;
        left := left - {r};
        if r != Ref(payloads[r]) { return false; }
      }
      var previous: Option<Digest> := None;
      for i := 0 to |events|
        invariant previous == HeadOf(events[..i])
        invariant forall k :: 0 <= k < i ==> EventOk(catalogue, Contents(), k)
      {
        var event := events[i];
        if event.run != runId || event.sequence != i || event.id != EventId(runId, i) ||
           (exists id :: id in event.causes && !Earlier(events, i, id)) || event.previous != previous || !Valid(event.payload) {
          assert !EventOk(catalogue, Contents(), i);
          return false;
        }
        var content := Canon(event.payload);
        if event.hash != Digest(EnvelopeOf(event), previous) || event.signer != runId || event.kind !in catalogue.kinds ||
           event.ref !in payloads || payloads[event.ref] != content || !catalogue.admits(event.kind, content) ||
           !Present(payloads, event.inputs) || !Present(payloads, catalogue.refs(event.kind, content)) {
          assert !EventOk(catalogue, Contents(), i);
          return false;
        }
        assert EventOk(catalogue, Contents(), i);
        assert events[..i + 1] == events[..i] + [event];
        previous := Some(event.hash);
      }
      ok := true;
    }
  }
}
