/** The signed run archive: publications, and the privacy transaction that replaces everything by a
    redacted object. */
module PrivacyProtocol {
  import opened CrashStop
  import opened Options
  import opened EvidenceBundles
  import Canonical
  import EvidenceChain

  /** An archived object. */
  datatype Object = Object(bundle: Bundle, service: Option<string>, analysis: Option<string>)

  /** Object hashes and manifest digests are injective. */
  datatype Hash = Hash(content: Object)
  datatype Digest = Digest(manifest: Manifest)

  datatype Status = Complete | Redacted

  datatype Manifest = Manifest(generation: nat, parent: Option<Digest>, hash: Hash, count: nat, eventHead: EvidenceChain.Digest,
                               status: Status)

  datatype Head = Head(generation: nat, digest: Digest)

  datatype Disk = Disk(objects: map<Hash, Object>, generations: map<nat, Manifest>, pending: Option<Manifest>)

  datatype Write =
    | WObject(hash: Hash, content: Object)
    | WManifest(n: nat, manifest: Manifest)
    | WPending(manifest: Manifest)
    | WUnlink(hash: Hash)
    | WClear

  function Apply(d: Disk, w: Write): Disk {
    match w
    case WObject(h, o) => d.(objects := d.objects[h := o])
    case WManifest(n, m) => d.(generations := d.generations[n := m])
    case WPending(m) => d.(pending := Some(m))
    case WUnlink(h) => d.(objects := d.objects - {h})
    case WClear => d.(pending := None)
  }

  /** The run the archive is bound to, the catalogue of events, and what is decoded from texts. */
  datatype Rules = Rules(run: string, catalogue: EvidenceChain.Catalogue, reader: Reader)

  // ---------------------------------------------------------------- checks

  predicate InPlace(g: map<nat, Manifest>, i: nat)
    requires i in g
  {
    && g[i].generation == i && g[i].count > 0
    && if i == 0 then g[i].parent.None? else i - 1 in g && g[i].parent == Some(Digest(g[i - 1]))
  }

  ghost predicate Chain(g: map<nat, Manifest>) {
    && (forall i: nat :: i in g <==> i < |g|)
    && (forall i: nat {:trigger InPlace(g, i)} :: i in g ==> InPlace(g, i))
  }

  /** The process has seen generation `seen`, if any, as a head. */
  predicate Anchored(g: map<nat, Manifest>, trusted: Option<Head>) {
    trusted.Some? ==> trusted.value.generation in g && Digest(g[trusted.value.generation]) == trusted.value.digest
  }

  ghost predicate HistoryOk(d: Disk, trusted: Option<Head>) { Chain(d.generations) && Anchored(d.generations, trusted) }

  /** The manifest's object is there and verifies. */
  predicate Verified(r: Rules, d: Disk, m: Manifest) {
    && m.hash in d.objects && Hash(d.objects[m.hash]) == m.hash
    && var b := d.objects[m.hash].bundle;
    && b.run == r.run && |b.events| == m.count && m.count > 0 && b.events[|b.events| - 1].hash == m.eventHead
    && BundleOk(r.catalogue, r.reader, b, m.status.Complete?)
  }

  function Latest(d: Disk): Option<Manifest> {
    if |d.generations| > 0 && |d.generations| - 1 in d.generations then Some(d.generations[|d.generations| - 1]) else None
  }

  function ParentOf(d: Disk): Option<Digest> {
    if Latest(d).Some? then Some(Digest(Latest(d).value)) else None
  }

  // ---------------------------------------------------------------- finishing a privacy transaction

  function Unlinks(names: seq<Hash>, kept: Hash): seq<Write> {
    if names == [] then []
    else (if names[0] == kept then [] else [WUnlink(names[0])]) + Unlinks(names[1..], kept)
  }

  /** The journal can be carried out. */
  ghost predicate JournalFits(r: Rules, d: Disk, trusted: Option<Head>, m: Manifest) {
    && m.status.Redacted? && HistoryOk(d, trusted)
    && (|d.generations| == m.generation || (|d.generations| == m.generation + 1 && Latest(d) == Some(m)))
    && 0 < m.generation && m.generation - 1 in d.generations && m.parent == Some(Digest(d.generations[m.generation - 1]))
    && Verified(r, d, m)
  }

  /** `names` is the listing of the object directory. */
  ghost function FinishPlan(r: Rules, d: Disk, trusted: Option<Head>, names: seq<Hash>): Plan<Write, ()> {
    if d.pending.None? then Plan([], Ok(()))
    else
      var m := d.pending.value;
      if !JournalFits(r, d, trusted, m) then Plan([], Refused)
      else Plan([WManifest(m.generation, m)] + Unlinks(names, m.hash) + [WClear], Ok(()))
  }

  ghost predicate Lists(names: seq<Hash>, d: Disk) { forall h :: h in d.objects <==> h in names }

  // ---------------------------------------------------------------- publishing and redacting

  datatype Outcome = Found(current: Option<Head>) | Loaded(content: Object, head: Head) | Published(head: Head)

  function HeadOf(m: Manifest): Head { Head(m.generation, Digest(m)) }

  function Sealed(d: Disk, o: Object, status: Status): Manifest
    requires o.bundle.events != []
  {
    Manifest(|d.generations|, ParentOf(d), Hash(o), |o.bundle.events|, o.bundle.events[|o.bundle.events| - 1].hash, status)
  }

  /** The analysis package of a publication: kept from the predecessor unless newly given. */
  function Analysis(given: Option<string>, prior: Option<Object>): Option<string> {
    if given.None? && prior.Some? then prior.value.analysis else given
  }

  /** Later evidence of a run keeps every event in place and every payload. */
  predicate Extends(b: Bundle, prior: Bundle) {
    && prior.events <= b.events
    && (forall p :: p in prior.payloads ==> p in b.payloads && b.payloads[p] == prior.payloads[p])
  }

  /** A publication must extend the object it follows. */
  predicate Follows(o: Object, prior: Object) {
    && (o.analysis.None? || prior.analysis.None? || o.analysis == prior.analysis)
    && Extends(o.bundle, prior.bundle)
  }

  /** Publishing on a disk without pending transaction. */
  ghost function PublishPlan(r: Rules, d: Disk, trusted: Option<Head>, o: Object, expected: Option<Digest>): Plan<Write, Outcome> {
    if !HistoryOk(d, trusted) || ParentOf(d) != expected then Plan([], Refused)
    else if Latest(d).Some? && (Latest(d).value.status.Redacted? || !Verified(r, d, Latest(d).value)
            || !Follows(o, d.objects[Latest(d).value.hash])) then Plan([], Refused)
    else
      var full := o.(analysis := Analysis(o.analysis, if Latest(d).Some? then Some(d.objects[Latest(d).value.hash]) else None));
      if o.bundle.events == [] then Plan([], Refused)
      else if Hash(full) in d.objects && d.objects[Hash(full)] != full then Plan([], Refused)
      else
        var m := Sealed(d, full, Complete);
        Plan([WObject(Hash(full), full), WManifest(m.generation, m)], Ok(Published(HeadOf(m))))
  }

  /** Preparing a redaction on a disk without pending transaction: the redacted object, then the journal. */
  ghost function PreparePlan(r: Rules, d: Disk, trusted: Option<Head>, request: Canonical.Json, expected: Option<Digest>): Plan<Write, Manifest> {
    if !HistoryOk(d, trusted) || Latest(d).None? || ParentOf(d) != expected || !Verified(r, d, Latest(d).value) then Plan([], Refused)
    else
      var b := Redacting(r.catalogue, r.reader, d.objects[Latest(d).value.hash].bundle, Latest(d).value.status.Complete?, request);
      if b.None? || b.value.events == [] then Plan([], Refused)
      else
        var o := Object(b.value, None, None);
        if Hash(o) in d.objects && d.objects[Hash(o)] != o then Plan([], Refused)
        else
          var m := Sealed(d, o, Redacted);
          Plan([WObject(Hash(o), o), WPending(m)], Ok(m))
  }

  /** A redaction request is the tombstone it has recorded. */
  datatype Operation =
    | HeadOnly
    | Load
    | Publish(content: Object, expected: Option<Digest>)
    | Redact(request: Canonical.Json, expected: Option<Digest>, authorized: bool)

  ghost function Body(r: Rules, d: Disk, trusted: Option<Head>, names: seq<Hash>, op: Operation): Plan<Write, Outcome> {
    match op
    case HeadOnly =>
      if HistoryOk(d, trusted) then Plan([], Ok(Found(if Latest(d).Some? then Some(HeadOf(Latest(d).value)) else None))) else Plan([], Refused)
    case Load =>
      if HistoryOk(d, trusted) && Latest(d).Some? && Verified(r, d, Latest(d).value)
      then Plan([], Ok(Loaded(d.objects[Latest(d).value.hash], HeadOf(Latest(d).value)))) else Plan([], Refused)
    case Publish(o, expected) => PublishPlan(r, d, trusted, o, expected)
    case Redact(request, expected, _) =>
      var prepare := PreparePlan(r, d, trusted, request, expected);
      if !prepare.reply.Ok? then Plan(prepare.writes, Refused)
      else
        var finish := FinishPlan(r, Replay(Apply, d, prepare.writes), trusted, names);
        Plan(prepare.writes + finish.writes, if finish.reply.Ok? then Ok(Published(HeadOf(prepare.reply.value))) else Refused)
  }

  /** Evidence is verified, and tombstones are refused, before anything else is done. */
  predicate Admitted(r: Rules, op: Operation) {
    match op
    case Publish(o, _) =>
      o.bundle.run == r.run && BundleOk(r.catalogue, r.reader, o.bundle, true) && forall e :: e in o.bundle.events ==> !IsTombstone(e)
    case Redact(_, _, authorized) => authorized
    case _ => true
  }

  /** Every operation first finishes a pending privacy transaction. */
  ghost function OperationPlan(r: Rules, d: Disk, trusted: Option<Head>, names: seq<Hash>, again: seq<Hash>, op: Operation): Plan<Write, Outcome> {
    if !Admitted(r, op) then Plan([], Refused)
    else
      var finish := FinishPlan(r, d, trusted, names);
      if !finish.reply.Ok? then Plan(finish.writes, Refused)
      else
        var rest := Body(r, Replay(Apply, d, finish.writes), trusted, again, op);
        Plan(finish.writes + rest.writes, rest.reply)
  }
}
