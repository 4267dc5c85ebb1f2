/** The records of the calibration evidence authority.

    Digests are ideal: a digest is a constructor over the value it was taken of, so equal digests
    mean equal values.  A signature is the name of the key that made it. */
module AuthorityRecords {
  import opened Options

  type Intent = string
  type Key = string

  datatype Request = Request(idempotencyKey: Intent, seed: string, content: string)

  datatype Binding = Binding(parameterSetHash: string, policyManifestHash: string, content: string)

  /** `intact` is what the evidence verifier says of these events. */
  datatype Bundle = Bundle(runId: string, events: seq<string>, intact: bool)

  datatype Digest =
    | OfRequest(request: Request)
    | OfBundle(bundle: Bundle)
    | OfObject(artifact: EvidenceObject)
    | OfInput(input: Input)
    | OfArchive(archive: Archive)
    | OfFinalization(finalization: Finalization)
    | OfHead(head: Head)

  datatype Input = Input(intent: Intent, requestHash: Digest, request: Request, binding: Binding, bundle: Bundle,
                         adapterHash: string, adapterPackage: string)

  /** What a caller, or a finalization, stores for an intent; a caller need not name a request hash. */
  datatype IntentRecord = IntentRecord(requestHash: Option<Digest>, request: Option<Request>, binding: Option<Binding>,
                                       adapterHash: string, adapterPackage: string)

  datatype Claim = Claim(intent: Intent, requestHash: Digest, request: Request, binding: Binding,
                         adapterHash: string, adapterPackage: string, inputHash: Digest, objectHash: Digest)

  datatype EvidenceObject = EvidenceObject(bundle: Bundle)

  datatype Archive = Archive(runId: string, keyId: Key, objectHash: Digest, eventCount: nat, eventHead: string, signer: Key)

  datatype HeadReceipt = HeadReceipt(runId: string, evidenceKey: Key, adapterHash: string,
                                     generation: nat, digest: Digest, signer: Key)

  datatype AdapterReceipt = AdapterReceipt(runId: string, seed: string, parameterSetHash: string, requestHash: Digest,
                                           policyManifestHash: string, adapterHash: string, adapterPackage: string,
                                           evidenceHash: Digest, signer: Key)

  datatype Result = Result(bundle: Bundle, archive: Archive, artifact: EvidenceObject,
                           headReceipt: HeadReceipt, adapterReceipt: AdapterReceipt)

  datatype Finalization = Finalization(intent: Intent, runId: string, requestHash: Digest, inputHash: Digest,
                                       objectHash: Digest, result: Result)

  datatype Head = Head(authority: string, generation: nat, parent: Option<Digest>, intent: Intent, runId: string,
                       recordHash: Digest, objectHash: Digest, evidenceKey: Key, headKey: Key, signer: Key)

  datatype Pending = Pending(intent: Intent, finalization: Finalization, head: Head)

  datatype HeadRef = HeadRef(generation: nat, digest: Digest)

  datatype Anchor = Missing | Anchored(head: Option<HeadRef>)

  /** The authority's configuration; `anchored` says whether an external anchor directory is set. */
  datatype Identity = Identity(authority: string, evidenceKey: Key, headKey: Key, anchored: bool)

  /** The durable directories, one map each. */
  datatype Store = Store(intents: map<Intent, IntentRecord>, claims: map<Intent, Claim>,
                         objects: map<Digest, EvidenceObject>, pending: map<Intent, Pending>,
                         heads: map<nat, Head>, finalizations: map<Intent, Finalization>, anchor: Anchor)

  datatype Write =
    | WIntent(intent: Intent, record: IntentRecord)
    | WClaim(intent: Intent, claim: Claim)
    | WObject(hash: Digest, artifact: EvidenceObject)
    | WPending(intent: Intent, pending: Pending)
    | WHead(generation: nat, head: Head)
    | WFinalization(intent: Intent, finalization: Finalization)
    | WAnchor(anchored: Option<HeadRef>)

  function Apply(s: Store, w: Write): Store {
    match w
    case WIntent(i, r) => s.(intents := s.intents[i := r])
    case WClaim(i, c) => s.(claims := s.claims[i := c])
    case WObject(h, o) => s.(objects := s.objects[h := o])
    case WPending(i, p) => s.(pending := s.pending[i := p])
    case WHead(g, h) => s.(heads := s.heads[g := h])
    case WFinalization(i, f) => s.(finalizations := s.finalizations[i := f])
    case WAnchor(a) => s.(anchor := Anchored(a))
  }

  predicate IsHash(s: string) {
    |s| == 64 && forall k :: 0 <= k < 64 ==> ('0' <= s[k] <= '9' || 'a' <= s[k] <= 'f')
  }

  predicate AlphaNumeric(c: char) { '0' <= c <= '9' || 'a' <= c <= 'z' || 'A' <= c <= 'Z' }

  predicate SafeIntent(s: Intent) {
    1 <= |s| <= 192 && AlphaNumeric(s[0]) &&
    forall k :: 0 <= k < |s| ==> AlphaNumeric(s[k]) || s[k] in "._:-"
  }

  /** What a finalization demands of its input. */
  predicate ValidInput(input: Input) {
    && SafeIntent(input.intent)
    && input.request.idempotencyKey == input.intent
    && input.requestHash == OfRequest(input.request)
    && IsHash(input.adapterHash) && IsHash(input.adapterPackage)
    && IsHash(input.binding.parameterSetHash) && IsHash(input.binding.policyManifestHash)
    && input.bundle.runId != "" && input.bundle.events != [] && input.bundle.intact
  }

  function RecordOf(input: Input): IntentRecord {
    IntentRecord(Some(input.requestHash), Some(input.request), Some(input.binding), input.adapterHash, input.adapterPackage)
  }

  function ObjectOf(input: Input): EvidenceObject { EvidenceObject(input.bundle) }

  function ClaimOf(input: Input): Claim {
    Claim(input.intent, input.requestHash, input.request, input.binding, input.adapterHash, input.adapterPackage,
          OfInput(input), OfObject(ObjectOf(input)))
  }

  function ResultOf(id: Identity, input: Input): Result
    requires input.bundle.events != []
  {
    var b := input.bundle;
    var archive := Archive(b.runId, id.evidenceKey, OfObject(ObjectOf(input)), |b.events|, b.events[|b.events| - 1],
                           id.evidenceKey);
    Result(b, archive, ObjectOf(input),
           HeadReceipt(b.runId, id.evidenceKey, input.adapterHash, 0, OfArchive(archive), id.headKey),
           AdapterReceipt(b.runId, input.request.seed, input.binding.parameterSetHash, OfRequest(input.request),
                          input.binding.policyManifestHash, input.adapterHash, input.adapterPackage,
                          OfBundle(b), id.headKey))
  }

  function FinalizationOf(id: Identity, input: Input): Finalization
    requires input.bundle.events != []
  {
    Finalization(input.intent, input.bundle.runId, input.requestHash, OfInput(input), OfObject(ObjectOf(input)),
                 ResultOf(id, input))
  }

  function PendingOf(id: Identity, input: Input, generation: nat, parent: Option<Digest>): Pending
    requires input.bundle.events != []
  {
    var f := FinalizationOf(id, input);
    Pending(input.intent, f, Head(id.authority, generation, parent, input.intent, f.runId, OfFinalization(f), f.objectHash,
                                  id.evidenceKey, id.headKey, id.headKey))
  }
}
