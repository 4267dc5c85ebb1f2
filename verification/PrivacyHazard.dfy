/** Exactly when a journalled redaction can be carried out, and the evidence for which it cannot. */
module PrivacyHazard {
  import opened CrashStop
  import opened Options
  import Canonical
  import opened EvidenceBundles
  import opened PrivacyProtocol
  import opened PrivacySafety
  import EvidenceChain
  import Redaction

  /** Whatever is asked of the archive, it is refused and nothing is written. */
  ghost predicate Blocked(r: Rules, d: Disk) {
    forall trusted, names, again, op :: OperationPlan(r, d, trusted, names, again, op) == Plan([], Refused)
  }

  lemma {:induction false} UnfinishableBlocks(r: Rules, d: Disk)
    requires d.pending.Some? && !Verified(r, d, d.pending.value)
    ensures Blocked(r, d)
  {
    hide Verified, HistoryOk, Body, Admitted;
  }

  /** A redaction whose journal is written is carried out, through any interruptions, exactly when every event
      of the evidence that counts as redacted is among those it takes away; otherwise the archive refuses
      everything from then on. */
  lemma {:induction false} JournalFinishesIff(r: Rules, d: Disk, trusted: Option<Head>, request: Canonical.Json, expected: Option<Digest>)
    requires Quiet(r, d) && PreparePlan(r, d, trusted, request, expected).reply.Ok?
    ensures Latest(d).Some? && Latest(d).value.hash in d.objects
    ensures var plan := PreparePlan(r, d, trusted, request, expected);
      var now := Replay(Apply, d, plan.writes);
      && now.pending.Some?
      && var gone := FlaggedGone(d.objects[Latest(d).value.hash].bundle, now.pending.value.hash.content.bundle.removed);
      && (gone <==> Journalled(r, now)) && (!gone <==> Blocked(r, now))
  {
    hide BundleOk, FlaggedGone, Redacting, Chain, Ordered, Clear, FinishPlan, OperationPlan;
    PreparedVerifies(r, d, trusted, request, expected);
    var plan := PreparePlan(r, d, trusted, request, expected);
    var now := Replay(Apply, d, plan.writes);
    var o, m := plan.writes[0].content, plan.writes[1].manifest;
    ReplayPair(Apply, d, plan.writes[0], plan.writes[1], 2);
    assert plan.writes[..2] == plan.writes;
    if BundleOk(r.catalogue, r.reader, o.bundle, false) {
      SealedVerifies(r, d, o, Redacted);
      assert Journalled(r, now);
      FinishableAnswers(r, now);
    } else {
      UnfinishableBlocks(r, now);
    }
  }

  lemma {:induction false} FinishableAnswers(r: Rules, d: Disk)
    requires Journalled(r, d)
    ensures !Blocked(r, d)
  {
    hide Verified, Chain, Ordered;
    assert FinishPlan(r, d, None, []).reply.Ok?;
    assert OperationPlan(r, d, None, [], [], HeadOnly).writes != [];
  }

  // ---------------------------------------------------------------- evidence that blocks its archive

  function Empty(): Disk { Disk(map[], map[], None) }

  lemma {:induction false} EmptyHistory()
    ensures HistoryOk(Empty(), None) && Latest(Empty()) == None && ParentOf(Empty()) == None
  {
  }

  lemma {:induction false} FirstPublished(r: Rules, o: Object)
    requires Admitted(r, Publish(o, None)) && o.bundle.events != []
    ensures var plan, m := OperationPlan(r, Empty(), None, [], [], Publish(o, None)), Sealed(Empty(), o, Complete);
      && plan.reply == Ok(Published(HeadOf(m)))
      && Replay(Apply, Empty(), plan.writes) == Disk(map[Hash(o) := o], map[0 := m], None)
  {
    hide BundleOk, IsTombstone, Verified, Follows, JournalFits, Unlinks, HistoryOk, PreparePlan;
    var d, m := Empty(), Sealed(Empty(), o, Complete);
    assert FinishPlan(r, d, None, []) == Plan([], Ok(()));
    assert o.(analysis := Analysis(o.analysis, None)) == o;
    var ws := [WObject(Hash(o), o), WManifest(0, m)];
    EmptyHistory();
    assert PublishPlan(r, d, None, o, None) == Plan(ws, Ok(Published(HeadOf(m))));
    assert [] + ws == ws && ws[..2] == ws;
    ReplayPair(Apply, d, ws[0], ws[1], 2);
  }

  lemma {:induction false} FirstQuiet(r: Rules, o: Object)
    requires Admitted(r, Publish(o, None)) && o.bundle.events != []
    ensures var m := Sealed(Empty(), o, Complete);
      var d := Disk(map[Hash(o) := o], map[0 := m], None);
      Quiet(r, d) && Latest(d) == Some(m) && HistoryOk(d, None)
  {
    hide BundleOk, IsTombstone;
    var m := Sealed(Empty(), o, Complete);
    var d := Disk(map[Hash(o) := o], map[0 := m], None);
    assert InPlace(d.generations, 0);
    SealedVerifies(r, Empty(), o, Complete);
  }

  /** Two calls suffice: evidence with an event that counts as redacted is published like any other, and a redaction
      that leaves this event in place then writes its journal, is refused, and blocks the archive for good. */
  lemma {:induction false} FlaggedBlocks(r: Rules, o: Object, request: Canonical.Json, names: seq<Hash>)
    requires Admitted(r, Publish(o, None)) && o.bundle.events != []
    requires var c := Redacting(r.catalogue, r.reader, o.bundle, true, request);
      c.Some? && !FlaggedGone(o.bundle, c.value.removed)
    ensures var publish := OperationPlan(r, Empty(), None, [], [], Publish(o, None));
      var d := Replay(Apply, Empty(), publish.writes);
      var redact := OperationPlan(r, d, None, [], names, Redact(request, ParentOf(d), true));
      publish.reply.Ok? && redact.reply == Refused && Blocked(r, Replay(Apply, d, redact.writes))
  {
    hide BundleOk, FlaggedGone, Redacting, IsTombstone, Quiet, Blocked;
    FirstPublished(r, o);
    FirstQuiet(r, o);
    var m := Sealed(Empty(), o, Complete);
    var d := Disk(map[Hash(o) := o], map[0 := m], None);
    var c := Redacting(r.catalogue, r.reader, o.bundle, true, request).value;
    PreparesFirst(r, o, request);
    JournalFinishesIff(r, d, None, request, ParentOf(d));
    var prepare := PreparePlan(r, d, None, request, ParentOf(d));
    var now := Replay(Apply, d, prepare.writes);
    BlockedRefuses(r, now, names);
    assert FinishPlan(r, d, None, []) == Plan([], Ok(()));
    assert [] + (prepare.writes + []) == prepare.writes;
  }

  lemma {:induction false} PreparesFirst(r: Rules, o: Object, request: Canonical.Json)
    requires Admitted(r, Publish(o, None)) && o.bundle.events != [] && Redacting(r.catalogue, r.reader, o.bundle, true, request).Some?
    ensures var m, c := Sealed(Empty(), o, Complete), Redacting(r.catalogue, r.reader, o.bundle, true, request).value;
      var d := Disk(map[Hash(o) := o], map[0 := m], None);
      var plan := PreparePlan(r, d, None, request, ParentOf(d));
      plan.reply.Ok? && Replay(Apply, d, plan.writes).pending.Some?
      && Replay(Apply, d, plan.writes).pending.value.hash.content.bundle == c
  {
    hide BundleOk, IsTombstone, Redacting;
    FirstQuiet(r, o);
    RedactionVerifies(r.catalogue, r.reader, o.bundle, true, request);
    var m, c := Sealed(Empty(), o, Complete), Redacting(r.catalogue, r.reader, o.bundle, true, request).value;
    var d := Disk(map[Hash(o) := o], map[0 := m], None);
    var e := Object(c, None, None);
    var ws := [WObject(Hash(e), e), WPending(Sealed(d, e, Redacted))];
    assert PreparePlan(r, d, None, request, ParentOf(d)) == Plan(ws, Ok(Sealed(d, e, Redacted)));
    assert ws[..2] == ws;
    ReplayPair(Apply, d, ws[0], ws[1], 2);
  }

  lemma {:induction false} BlockedRefuses(r: Rules, d: Disk, names: seq<Hash>)
    requires Blocked(r, d) && d.pending.Some?
    ensures FinishPlan(r, d, None, names) == Plan([], Refused)
  {
    hide FinishPlan;
    assert OperationPlan(r, d, None, names, [], HeadOnly) == Plan([], Refused);
    FinishOutcomes(r, d, None, names);
    if FinishPlan(r, d, None, names).reply.Ok? { FinishWrites(r, d, None, names); }
  }

  lemma {:induction false} FinishOutcomes(r: Rules, d: Disk, trusted: Option<Head>, names: seq<Hash>)
    ensures var p := FinishPlan(r, d, trusted, names);
      p == Plan([], Refused) || p.reply == Ok(())
  {
    hide JournalFits;
  }

  // ---------------------------------------------------------------- the smallest such evidence

  /** An event payload {"redacted": 1}: counts as redacted, but is not the value true the completeness check looks for. */
  function Flag(): Canonical.Json { Canonical.Obj([Canonical.Field(Ascii("redacted"), Canonical.Num([49]))]) }

  /** The artifact to be erased, the text "x", and a tombstone naming it. */
  function Secret(): Canonical.Json { Canonical.Str(Ascii("x")) }

  function Request(): Canonical.Json { Canonical.Obj([Canonical.Field(Ascii("reason"), Canonical.Str([]))]) }

  lemma {:induction false} RequestShaped()
    ensures TombstoneShaped(Request())
  {
    hide Ascii;
    assert TOMBSTONE_FIELDS[6] == "reason";
    assert TombstoneField(Ascii("reason"));
  }

  lemma {:induction false} TextsDiffer()
    ensures Canonical.Valid(Flag()) && Canonical.Valid(Secret()) && Canonical.Valid(Request())
    ensures Canonical.Canon(Flag()) != Canonical.Canon(Secret()) && Canonical.Canon(Request()) != Canonical.Canon(Secret())
    ensures TombstoneShaped(Request()) && MarkOf(Flag()) == Some(Canonical.Num([49]))
  {
    hide Canonical.Canon, TombstoneShaped;
    RequestShaped();
    assert Ascii("redacted") == [114, 101, 100, 97, 99, 116, 101, 100] && Ascii("x") == [120];
    assert Ascii("reason") == [114, 101, 97, 115, 111, 110];
    Canonical.CanonExact(Flag(), Secret());
    Canonical.CanonExact(Request(), Secret());
  }

  function RefOf(j: Canonical.Json): EvidenceChain.Ref
    requires Canonical.Valid(j)
  {
    EvidenceChain.Ref(Canonical.Canon(j))
  }

  /** What the scanners find in a payload. */
  function Scanned(t: Canonical.Text): Redaction.Payload
    requires Canonical.Valid(Flag()) && Canonical.Valid(Secret())
  {
    if t == Canonical.Canon(Secret()) then Redaction.Payload(EvidenceChain.Ref(t), {"x"}, {}, {[120]}, {}, false)
    else if t == Canonical.Canon(Flag()) then
      Redaction.Payload(EvidenceChain.Ref(t), {"redacted"}, {}, {[114, 101, 100, 97, 99, 116, 101, 100]}, {("redacted", "1")}, false)
    else Redaction.Payload(EvidenceChain.Ref(t), {"reason"}, {}, {[114, 101, 97, 115, 111, 110]}, {("reason", "")}, false)
  }

  ghost function SmallRules(): Rules {
    TextsDiffer();
    var artifact := RefOf(Secret());
    Rules("run", EvidenceChain.Catalogue({"Violation", TOMBSTONE}, (k, t) => true, (k, t) => []),
          Reader(v => None, t => Scanned(t),
                 (e: Entry, ps) => Redaction.Tombstone(e.ref, artifact, artifact, [], Some(Redaction.Selection({"x"}, {[120]}, None)), {"reason"}),
                 (es, ps) => [], (b, g) => true))
  }

  ghost function SmallEvidence(): Bundle {
    TextsDiffer();
    var ref, content := RefOf(Flag()), Canonical.Canon(Flag());
    var id := EvidenceChain.EventId("run", 0);
    var hash := EvidenceChain.Digest(EvidenceChain.Envelope("run", 0, id, "Violation", ref, content, [], [], "run"), None);
    Bundle("run", [Entry("run", 0, id, "Violation", ref, Kept(Flag()), [], [], "run", None, hash)],
           map[ref := content, RefOf(Secret()) := Canonical.Canon(Secret())], false, {}, [])
  }

  lemma {:induction false} SmallAdmitted()
    ensures Admitted(SmallRules(), Publish(Object(SmallEvidence(), None, None), None))
    ensures Loads(SmallRules().catalogue, SmallEvidence())
  {
    hide Canonical.Canon, Canonical.Valid, Scanned;
    TextsDiffer();
    var c, b := SmallRules().catalogue, SmallEvidence();
    var s := StoreOf(b);
    assert s.events[..0] == [];
    assert EvidenceChain.EventOk(c, s, 0);
    assert MarkOf(Flag()) != Some(Canonical.Bool(true));
  }

  ghost predicate ValidTexts() { Canonical.Valid(Flag()) && Canonical.Valid(Secret()) && Canonical.Valid(Request()) }

  /** What redaction sees of this evidence once the tombstone is recorded. */
  ghost predicate Seen(v: Redaction.Bundle)
    requires ValidTexts()
  {
    && v.payloads == map[RefOf(Secret()) := Scanned(Canonical.Canon(Secret())), RefOf(Flag()) := Scanned(Canonical.Canon(Flag())),
                         RefOf(Request()) := Scanned(Canonical.Canon(Request()))]
    && v.links == [] && v.removed == {} && (forall s, g :: v.metadataClean(s, g))
    && v.tombstones == [Redaction.Tombstone(RefOf(Request()), RefOf(Secret()), RefOf(Secret()), [],
                                             Some(Redaction.Selection({"x"}, {[120]}, None)), {"reason"})]
  }

  lemma {:induction false} SmallView()
    ensures ValidTexts()
    ensures var v := View(SmallRules().reader, Recorded(SmallEvidence(), Request()));
      && v.payloads.Keys == {RefOf(Secret()), RefOf(Flag()), RefOf(Request())} && v.links == [] && v.removed == {}
      && v.payloads[RefOf(Secret())] == Scanned(Canonical.Canon(Secret()))
      && v.payloads[RefOf(Flag())] == Scanned(Canonical.Canon(Flag()))
      && v.payloads[RefOf(Request())] == Scanned(Canonical.Canon(Request()))
      && v.tombstones == [Redaction.Tombstone(RefOf(Request()), RefOf(Secret()), RefOf(Secret()), [],
                                               Some(Redaction.Selection({"x"}, {[120]}, None)), {"reason"})]
      && (forall s, g :: v.metadataClean(s, g))
  {
    hide Canonical.Canon, Canonical.Valid;
    TextsDiffer();
    var now := Recorded(SmallEvidence(), Request());
    var e := TombstoneEntry(SmallEvidence(), Request());
    assert now.events == [SmallEvidence().events[0], e];
    assert now.events[1..] == [e] && [e][1..] == [];
    assert Tombstones(SmallRules().reader, [e], now.payloads) == [SmallRules().reader.tombstone(e, now.payloads).(payload := e.ref)];
  }

  lemma {:induction false} SmallSeen()
    ensures ValidTexts() && Seen(View(SmallRules().reader, Recorded(SmallEvidence(), Request())))
  {
    SmallView();
    hide Canonical.Canon, Canonical.Valid, View, Recorded, SmallRules, SmallEvidence, Scanned;
  }

  ghost function SmallTargets(): Redaction.Targets
    requires ValidTexts()
  {
    Redaction.Targets({RefOf(Secret())}, {"x"}, {[120]}, {})
  }

  lemma {:induction false} AbsentUnit<T>(whole: seq<T>, c: T)
    requires c !in whole
    ensures !Redaction.Contains(whole, [c])
  {
    forall i | 0 <= i <= |whole| - 1
      ensures !Redaction.OccursAt(whole, [c], i)
    {
      assert whole[i] in whole && whole[i..i + 1][0] == whole[i];
    }
  }

  lemma {:induction false} NothingEmbedded(t: Canonical.Text)
    requires ValidTexts() && t != Canonical.Canon(Secret())
    ensures !Redaction.HasText(Scanned(t).strings, {"x"}) && !Redaction.HasText({"reason"}, {"x"})
    ensures !Redaction.HasRaw(Scanned(t), {[120]})
  {
    hide Canonical.Canon, Canonical.Valid, Redaction.Contains;
    assert "x" == ['x'];
    AbsentUnit("redacted", 'x');
    AbsentUnit("reason", 'x');
    AbsentUnit<nat>([114, 101, 100, 97, 99, 116, 101, 100], 120);
    AbsentUnit<nat>([114, 101, 97, 115, 111, 110], 120);
    forall c: Redaction.Bytes | c in Scanned(t).chunks
      ensures !Redaction.Contains<nat>(c, [120])
    {
      assert c == [114, 101, 100, 97, 99, 116, 101, 100] || c == [114, 101, 97, 115, 111, 110];
    }
  }

  lemma {:induction false} ScannedPlain(t: Canonical.Text)
    requires ValidTexts()
    ensures Scanned(t).mentions == {} && Scanned(t).digest == EvidenceChain.Ref(t)
  {
  }

  lemma {:induction false} SeenTargets(v: Redaction.Bundle)
    requires ValidTexts() && Seen(v)
    ensures Redaction.AllTargets(v) == Some(SmallTargets()) && Redaction.Protected(v) == {RefOf(Request())}
  {
    hide Canonical.Canon, Canonical.Valid, Scanned;
    ScannedPlain(Canonical.Canon(Secret()));
    var none: set<EvidenceChain.Ref> := {};
    var t := v.tombstones[0];
    var g := Redaction.Targets(none, {}, {}, {});
    assert Redaction.TargetsOf(v, 0) == Some(g);
    assert none + (set r | r in t.derivations) + {t.artifact} == {RefOf(Secret())};
    assert g.texts + {"x"} == {"x"} && g.raw + {[120]} == {[120]} && g.fields + {} == {};
    assert t.artifact in v.payloads && v.payloads[t.artifact].digest == t.digest;
    assert t.derivations == [];
    assert Redaction.Target(v, t, g) == Some(SmallTargets());
  }

  lemma {:induction false} SeenClosed(v: Redaction.Bundle)
    requires ValidTexts() && Seen(v)
    ensures Redaction.Enough(v, SmallTargets(), {RefOf(Secret())}) && Redaction.Closure(v, SmallTargets()) == {RefOf(Secret())}
  {
    hide Canonical.Canon, Canonical.Valid, Scanned, Redaction.HasText, Redaction.HasRaw;
    TextsDiffer();
    SeenTargets(v);
    var secret, g := RefOf(Secret()), SmallTargets();
    forall r | r in v.payloads && r != secret
      ensures !Redaction.Embeds(v, g, r, {secret})
    {
      NothingEmbedded(r.bytes);
      ScannedPlain(r.bytes);
    }
    assert Redaction.Closed(v, g, {secret});
  }

  /** Its redaction takes away the artifact and nothing else. */
  lemma {:induction false} SeenResult(v: Redaction.Bundle)
    requires ValidTexts() && Seen(v)
    ensures Redaction.Result(v) == Redaction.Redacted({RefOf(Secret())}, v.payloads - {RefOf(Secret())})
  {
    hide Canonical.Canon, Canonical.Valid, Scanned, Redaction.HasText, Redaction.HasRaw, Redaction.AllTargets, Redaction.Closure;
    hide Redaction.Enough, Redaction.Protected;
    TextsDiffer();
    SeenTargets(v);
    SeenClosed(v);
    NothingEmbedded(Canonical.Canon(Flag()));
    NothingEmbedded(Canonical.Canon(Request()));
    assert {RefOf(Secret())} !! Redaction.Protected(v);
    assert Redaction.Erasable(v, SmallTargets());
  }

  /** The smallest failing evidence: one event with payload {"redacted": 1}, and one artifact to erase. */
  lemma {:induction false} SmallEvidenceBlocks(names: seq<Hash>)
    ensures var r, o := SmallRules(), Object(SmallEvidence(), None, None);
      var publish := OperationPlan(r, Empty(), None, [], [], Publish(o, None));
      var d := Replay(Apply, Empty(), publish.writes);
      var redact := OperationPlan(r, d, None, [], names, Redact(Request(), ParentOf(d), true));
      publish.reply.Ok? && redact.reply == Refused && Blocked(r, Replay(Apply, d, redact.writes))
  {
    var r, o := SmallRules(), Object(SmallEvidence(), None, None);
    SmallRedacts();
    SmallAdmitted();
    hide SmallRules, OperationPlan, Redacting, FlaggedGone, Blocked, Admitted;
    FlaggedBlocks(r, o, Request(), names);
  }

  lemma {:induction false} SmallRedacts()
    ensures var c := Redacting(SmallRules().catalogue, SmallRules().reader, SmallEvidence(), true, Request());
      c.Some? && !FlaggedGone(SmallEvidence(), c.value.removed)
  {
    hide Canonical.Canon, Canonical.Valid, Scanned, Seen, View, Redaction.Result, Loads;
    TextsDiffer();
    SmallAdmitted();
    SmallSeen();
    SeenResult(View(SmallRules().reader, Recorded(SmallEvidence(), Request())));
    assert Flagged(SmallEvidence().events[0]);
  }
}
