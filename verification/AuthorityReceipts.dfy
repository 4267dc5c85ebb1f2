/** What a caller can check of the authority's results without knowing how they were made: the archive's own trust
    check, the client's receipt check, and the provenance of what is on record. */
module AuthorityReceipts {
  import opened CrashStop
  import opened Options
  import opened AuthorityRecords
  import opened AuthorityProtocol
  import opened AuthorityInvariant
  import opened AuthoritySafety
  import opened AuthorityRuns

  // ---------------------------------------------------------------- the checks

  /** The archive's trust check: its signed manifest names this run, this key, the exported object and its last event,
      and the head receipt attests this manifest. */
  predicate ArchiveTrusted(id: Identity, r: Result) {
    && r.archive.signer == id.evidenceKey && r.archive.keyId == id.evidenceKey && r.archive.runId == r.bundle.runId
    && r.artifact.bundle == r.bundle && r.archive.objectHash == OfObject(r.artifact)
    && |r.artifact.bundle.events| == r.archive.eventCount && r.archive.eventCount > 0
    && r.artifact.bundle.events[r.archive.eventCount - 1] == r.archive.eventHead
    && r.headReceipt.digest == OfArchive(r.archive) && r.headReceipt.generation == 0 && r.headReceipt.evidenceKey == r.archive.keyId
  }

  /** What the authority client checks on a finalization receipt before trusting it. */
  predicate ReceiptTrusted(id: Identity, input: Input, r: Result) {
    && r.headReceipt.signer == id.headKey && r.adapterReceipt.signer == id.headKey
    && r.bundle == input.bundle
    && r.headReceipt.runId == input.bundle.runId && r.headReceipt.adapterHash == input.adapterHash
    && r.adapterReceipt.runId == input.bundle.runId && r.adapterReceipt.seed == input.request.seed
    && r.adapterReceipt.parameterSetHash == input.binding.parameterSetHash
    && r.adapterReceipt.requestHash == OfRequest(input.request)
    && r.adapterReceipt.policyManifestHash == input.binding.policyManifestHash
    && r.adapterReceipt.adapterHash == input.adapterHash && r.adapterReceipt.adapterPackage == input.adapterPackage
    && r.adapterReceipt.evidenceHash == OfBundle(input.bundle)
  }

  /** The two checks leave no room: at most one result passes them for an input. */
  lemma {:induction false} ChecksDetermine(id: Identity, input: Input, r: Result, q: Result)
    requires ArchiveTrusted(id, r) && ReceiptTrusted(id, input, r)
    requires ArchiveTrusted(id, q) && ReceiptTrusted(id, input, q)
    ensures r == q
  {
    assert r.artifact == q.artifact;
    assert r.archive == q.archive;
    assert r.headReceipt == q.headReceipt && r.adapterReceipt == q.adapterReceipt;
  }

  // ---------------------------------------------------------------- how intents and hashes are written

  const DIGITS := "0123456789"
  const LOWER := "abcdefghijklmnopqrstuvwxyz"
  const UPPER := "ABCDEFGHIJKLMNOPQRSTUVWXYZ"

  /** c stands at its place in an alphabet that starts at `first`. */
  lemma {:induction false} Lettered(c: char, alphabet: string, first: char)
    requires forall i :: 0 <= i < |alphabet| ==> alphabet[i] as int == first as int + i
    ensures c in alphabet <==> first as int <= c as int < first as int + |alphabet|
  {
    if first as int <= c as int < first as int + |alphabet| { assert alphabet[c as int - first as int] == c; }
  }

  lemma {:induction false} Alphabets()
    ensures forall c :: c in DIGITS <==> '0' <= c <= '9'
    ensures forall c :: c in LOWER <==> 'a' <= c <= 'z'
    ensures forall c :: c in UPPER <==> 'A' <= c <= 'Z'
    ensures forall c :: c in "abcdef" <==> 'a' <= c <= 'f'
  {
    forall c: char
      ensures (c in DIGITS <==> '0' <= c <= '9') && (c in LOWER <==> 'a' <= c <= 'z') && (c in UPPER <==> 'A' <= c <= 'Z')
      ensures c in "abcdef" <==> 'a' <= c <= 'f'
    {
      Lettered(c, DIGITS, '0');
      Lettered(c, LOWER, 'a');
      Lettered(c, UPPER, 'A');
      Lettered(c, "abcdef", 'a');
    }
  }

  /** A hash is sixty-four lower-case hexadecimal digits. */
  lemma {:induction false} HashWritten(s: string)
    ensures IsHash(s) <==> |s| == 64 && forall i :: 0 <= i < |s| ==> s[i] in DIGITS || s[i] in "abcdef"
  {
    Alphabets();
  }

  /** An intent is at most 192 letters, digits, dots, underscores, colons and hyphens, the first a letter or digit. */
  lemma {:induction false} IntentWritten(s: Intent)
    ensures SafeIntent(s) <==>
      && 0 < |s| < 193 && s[0] in UPPER + LOWER + DIGITS
      && forall i :: 0 <= i < |s| ==> s[i] in UPPER + LOWER + DIGITS + "._:-"
  {
    Alphabets();
  }

  // ---------------------------------------------------------------- what is on record passes them

  /** An input as the service validates it. */
  predicate WellFormed(input: Input) {
    && SafeIntent(input.intent) && input.request.idempotencyKey == input.intent && OfRequest(input.request) == input.requestHash
    && (forall h :: h in [input.adapterHash, input.adapterPackage, input.binding.parameterSetHash, input.binding.policyManifestHash] ==> IsHash(h))
    && input.bundle.runId != "" && |input.bundle.events| > 0 && input.bundle.intact
  }

  /** A finalization on record came from one well-formed input of its intent, is bound to it by digest in its claim, and
      its result passes both checks for it. */
  lemma {:induction false} RecordTrusted(id: Identity, s: Store, i: Intent)
    requires Inv(id, s) && i in s.finalizations
    ensures i in s.claims && s.claims[i].inputHash.OfInput?
    ensures var f, input := s.finalizations[i], s.claims[i].inputHash.input;
      && input.intent == i && WellFormed(input) && f.inputHash == OfInput(input)
      && f.intent == i && f.runId == input.bundle.runId && f.requestHash == OfRequest(input.request)
      && f.objectHash == OfObject(f.result.artifact)
      && ArchiveTrusted(id, f.result) && ReceiptTrusted(id, input, f.result)
  {
    hide Core, Tight, IsHash, SafeIntent;
    FinalizedFromItsClaim(id, s, i);
    hide Inv;
    assert ValidInput(s.claims[i].inputHash.input);
  }

  /** Every result an answer hands out passes the archive check, and a finalization's receipt the client's check. */
  lemma {:induction false} AnswerTrusted(id: Identity, s: Store, op: Operation, answer: Answer)
    requires Inv(id, s) && Attested(op, answer, s) && ResultIn(op, answer).Some?
    ensures var (i, r) := ResultIn(op, answer).value;
      ArchiveTrusted(id, r) && i in s.claims && s.claims[i].inputHash.OfInput? && ReceiptTrusted(id, s.claims[i].inputHash.input, r)
    ensures op.Finalize? ==> ReceiptTrusted(id, op.input, ResultIn(op, answer).value.1)
  {
    hide Inv, ArchiveTrusted, ReceiptTrusted, WellFormed;
    RecordTrusted(id, s, ResultIn(op, answer).value.0);
  }

  // ---------------------------------------------------------------- what is accepted, and what it leaves

  /** The input a claim binds is this one, and the intent was not stored for another request. */
  ghost predicate Free(s: Store, input: Input) {
    && (input.intent in s.claims ==> s.claims[input.intent].inputHash == OfInput(input))
    && (input.intent in s.intents && s.intents[input.intent].requestHash.Some? ==> s.intents[input.intent].requestHash == Some(input.requestHash))
  }

  /** The intent is stored: as it was, or with everything the input says. */
  ghost predicate IntentKept(s: Store, input: Input, s': Store) {
    && input.intent in s'.intents
    && var now := s'.intents[input.intent];
    if input.intent in s.intents then now == s.intents[input.intent]
    else
      && now.requestHash == Some(input.requestHash) && now.request == Some(input.request) && now.binding == Some(input.binding)
      && now.adapterHash == input.adapterHash && now.adapterPackage == input.adapterPackage
  }

  /** The receipt passes both checks and is on record. */
  ghost predicate Receipted(id: Identity, input: Input, answer: Answer, s: Store) {
    && answer.Receipt? && ArchiveTrusted(id, answer.receipt) && ReceiptTrusted(id, input, answer.receipt)
    && input.intent in s.finalizations && s.finalizations[input.intent].result == answer.receipt
  }

  /** From a settled store a finalization succeeds exactly for authorized, well-formed inputs nothing else was claimed for.
      Its receipt passes both checks, and is on record with the intent it is for. */
  lemma {:induction false} FinalizeTrusted(id: Identity, s: Store, input: Input, authorized: bool)
    requires Inv(id, s) && Settled(s)
    ensures var plan := FinalizePlan(id, s, input, authorized);
      var s' := Final(s, plan.writes);
      && (plan.reply.Ok? <==> authorized && WellFormed(input) && Free(s, input))
      && (plan.reply.Ok? ==> Receipted(id, input, plan.reply.value, s') && IntentKept(s, input, s'))
  {
    hide Core, Tight, FinalizePlan, Legal, LegalAll, IsHash, SafeIntent, ArchiveTrusted, ReceiptTrusted, ResultOf, IntentKept;
    FinalizeSafe(id, s, input, authorized);
    AcceptsWellFormed(id, s, input, authorized);
    var plan := FinalizePlan(id, s, input, authorized);
    if plan.reply.Ok? {
      var s' := Final(s, plan.writes);
      RunKeepsInv(id, s, plan.writes);
      RecordTrusted(id, s', input.intent);
      IntentStored(id, s, input);
    }
  }

  lemma {:induction false} AcceptsWellFormed(id: Identity, s: Store, input: Input, authorized: bool)
    requires Inv(id, s)
    ensures Accepts(s, input, authorized) <==> authorized && WellFormed(input) && Free(s, input)
  {
    hide Tight, ObjectsFit, PendingsFit, HeadsPlaced, HeadsStaged, FinalizationsFit, AnchorFits, ChainOk, IsHash, SafeIntent;
    var hs := [input.adapterHash, input.adapterPackage, input.binding.parameterSetHash, input.binding.policyManifestHash];
    assert hs[0] in hs && hs[1] in hs && hs[2] in hs && hs[3] in hs;
    if input.intent in s.claims { assert ClaimFits(s.claims[input.intent], input.intent); }
  }

  lemma {:induction false} IntentStored(id: Identity, s: Store, input: Input)
    requires Inv(id, s) && Settled(s) && FinalizePlan(id, s, input, true).reply.Ok?
    ensures IntentKept(s, input, Final(s, FinalizePlan(id, s, input, true).writes))
  {
    hide Legal, LegalAll, Core, Tight, CommitPlan, IsHash, SafeIntent, ResultOf, ObjectOf, IntentKept, IntentPlan, Extends, FinalizationOf;
    var record := IntentPlan(s, input);
    IntentSafe(id, s, input);
    RunKeepsInv(id, s, record.writes);
    var s1 := Final(s, record.writes);
    NoWrite(id, s1);
    IntentFirst(s, input);
    ExtendsReflexive(s1);
    if input.intent in s1.finalizations {
      FinalizedFromItsClaim(id, s1, input.intent);
    } else {
      CommitSafe(id, s1, input);
      RunKeepsInv(id, s1, CommitPlan(id, s1, input).writes);
      KeptLater(s, input, s1, Final(s1, CommitPlan(id, s1, input).writes));
    }
    ThenSafe(id, s, record, (t: Store) =>
      if input.intent in t.finalizations then
        if t.finalizations[input.intent].inputHash != OfInput(input) then Plan([], Refused)
        else Plan([], Ok(Receipt(t.finalizations[input.intent].result)))
      else CommitPlan(id, t, input));
  }

  lemma {:induction false} IntentFirst(s: Store, input: Input)
    requires IntentPlan(s, input).reply.Ok?
    ensures IntentKept(s, input, Final(s, IntentPlan(s, input).writes))
  {
    var writes := IntentPlan(s, input).writes;
    if input.intent !in s.intents { ReplayOne(AuthorityRecords.Apply, s, writes[0]); }
  }

  lemma {:induction false} KeptLater(s: Store, input: Input, s1: Store, s2: Store)
    requires IntentKept(s, input, s1) && Extends(s1, s2)
    ensures IntentKept(s, input, s2)
  {
  }

  // ---------------------------------------------------------------- what the independent verifier establishes

  /** The claim binds one input to the finalization: its digest is that of an input of this intent, this request and the
      stored object's intact evidence. */
  ghost predicate Bound(s: Store, i: Intent, f: Finalization) {
    && i in s.claims && f.objectHash in s.objects
    && exists input :: f.inputHash == OfInput(input) && BindsAs(s.claims[i], s.objects[f.objectHash], input, f)
  }

  predicate BindsAs(c: Claim, stored: EvidenceObject, input: Input, f: Finalization) {
    && c.intent == input.intent && c.requestHash == input.requestHash && c.request == input.request && c.binding == input.binding
    && c.adapterHash == input.adapterHash && c.adapterPackage == input.adapterPackage
    && c.inputHash == f.inputHash && c.requestHash == f.requestHash && c.objectHash == f.objectHash
    && stored.bundle == input.bundle && input.bundle.intact
  }

  /** The head is the authority's own, the next after its predecessor, and names by digest a finalization on record that its
      claim binds; the result's archive, object and receipts are signed for this run and this evidence. */
  ghost predicate Proven(id: Identity, s: Store, g: nat) {
    && g in s.heads && s.heads[g].generation == g && s.heads[g].authority == id.authority
    && s.heads[g].signer == id.headKey && s.heads[g].headKey == id.headKey && s.heads[g].evidenceKey == id.evidenceKey
    && (g == 0 ==> s.heads[g].parent == None) && (g > 0 ==> g - 1 in s.heads && s.heads[g].parent == Some(OfHead(s.heads[g - 1])))
    && s.heads[g].intent in s.finalizations
    && var h, f := s.heads[g], s.finalizations[s.heads[g].intent];
    && h.recordHash == OfFinalization(f) && h.runId == f.runId && h.objectHash == f.objectHash
    && Bound(s, h.intent, f) && s.claims[h.intent].intent == h.intent
    && f.objectHash == OfObject(s.objects[f.objectHash])
    && f.result.artifact == s.objects[f.objectHash] && f.result.bundle == s.objects[f.objectHash].bundle
    && f.result.archive.objectHash == f.objectHash && f.result.archive.runId == f.runId
    && f.result.archive.signer == id.evidenceKey && f.result.archive.keyId == id.evidenceKey
    && f.result.headReceipt.digest == OfArchive(f.result.archive) && f.result.headReceipt.generation == 0
    && f.result.headReceipt.runId == f.runId && f.result.headReceipt.evidenceKey == id.evidenceKey
    && f.result.headReceipt.signer == id.headKey && f.result.adapterReceipt.signer == id.headKey && f.result.adapterReceipt.runId == f.runId
  }

  lemma {:induction false} VerifiedProven(id: Identity, s: Store, g: nat)
    requires HeadVerified(id, s, g)
    ensures Proven(id, s, g)
  {
    var h := s.heads[g];
    var c, stored := s.claims[h.intent], s.objects[h.objectHash];
    var input := Input(c.intent, c.requestHash, c.request, c.binding, stored.bundle, c.adapterHash, c.adapterPackage);
    assert BindsAs(c, stored, input, s.finalizations[h.intent]);
  }

  /** Whatever store the independent verifier accepts: every head is proven, there are as many finalizations as heads, claims
      stand under their own names, and every stored object is one that some claim names. */
  lemma {:induction false} VerifierEstablishes(id: Identity, s: Store)
    requires Verified(id, s)
    ensures |s.finalizations| == |s.heads| && forall g: nat :: g < |s.heads| ==> Proven(id, s, g)
    ensures forall i :: i in s.claims ==> s.claims[i].intent == i
    ensures forall h :: h in s.objects ==> exists i :: i in s.claims && s.claims[i].objectHash == h
  {
    hide HeadVerified, Proven;
    forall g: nat | g < |s.heads|
      ensures Proven(id, s, g)
    {
      VerifiedProven(id, s, g);
    }
    assert forall h :: h in s.objects ==> Claimed(s.claims, h);
  }
}
