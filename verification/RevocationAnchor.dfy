/** The authority's anchor of the revocation registry: it only moves forward, one generation at a time. */
module RevocationAnchor {
  import opened Options

  /** A revocation registry's status; its hash covers everything in it. */
  datatype Registry = Registry(generation: nat, hash: string, parent: Option<string>, keys: multiset<string>, capabilities: multiset<string>)

  datatype Anchor = Anchor(authority: string, headKey: string, generation: nat, hash: string, keys: multiset<string>, capabilities: multiset<string>)

  function AnchorOf(authority: string, headKey: string, r: Registry): Anchor {
    Anchor(authority, headKey, r.generation, r.hash, r.keys, r.capabilities)
  }

  /** Every revocation in the first list is in the second. */
  predicate Includes(a: multiset<string>, b: multiset<string>) { forall id :: id in a ==> id in b }

  predicate Current(a: Anchor, r: Registry) {
    r.generation == a.generation && r.hash == a.hash && r.keys == a.keys && r.capabilities == a.capabilities
  }

  predicate Follows(a: Anchor, r: Registry) {
    r.generation == a.generation + 1 && r.parent == Some(a.hash) && Includes(a.keys, r.keys) && Includes(a.capabilities, r.capabilities)
  }

  /** What a registry makes of the anchor: the next one replaces it, any other leaves it. */
  function Step(a: Anchor, r: Registry): Anchor {
    if Follows(a, r) && !Current(a, r) then AnchorOf(a.authority, a.headKey, r) else a
  }

  /** The trusted directory's anchor; replacing its file is one atomic rename. */
  class TrustedHead {
    const authority: string
    const headKey: string
    var anchor: Option<Anchor>

    constructor (authority: string, headKey: string, r: Registry)
      ensures anchor == Some(AnchorOf(authority, headKey, r)) && this.authority == authority && this.headKey == headKey
    {
      this.authority, this.headKey := authority, headKey;
      anchor := Some(AnchorOf(authority, headKey, r));
    }

    ghost predicate Provisioned()
      reads this
    {
      anchor.Some? && anchor.value.authority == authority && anchor.value.headKey == headKey
    }

    method Reconcile(r: Registry) returns (ok: bool)
      modifies this
      ensures ok <==> old(Provisioned()) && (Current(old(anchor).value, r) || Follows(old(anchor).value, r))
      ensures ok ==> Provisioned() && Current(anchor.value, r)
      ensures !ok || Current(old(anchor).value, r) ==> anchor == old(anchor)
      ensures old(Provisioned()) ==> anchor == Some(Step(old(anchor).value, r))
    {
      if anchor.None? { return false; }
      var anchored := anchor.value;
      if anchored.authority != authority || anchored.headKey != headKey { return false; }
      if r.generation == anchored.generation {
        return r.hash == anchored.hash && r.keys == anchored.keys && r.capabilities == anchored.capabilities;
      }
      if r.generation != anchored.generation + 1 || r.parent != Some(anchored.hash) { return false; }
      if !Includes(anchored.keys, r.keys) || !Includes(anchored.capabilities, r.capabilities) { return false; }
      anchor := Some(AnchorOf(authority, headKey, r));
      ok := true;
    }
  }

  // ---------------------------------------------------------------- runs

  function RunFrom(a: Anchor, rs: seq<Registry>): Anchor
    decreases |rs|
  {
    if rs == [] then a else RunFrom(Step(a, rs[0]), rs[1..])
  }

  /** A run presents the registries one after the other. */
  lemma {:induction false} RunStep(a: Anchor, rs: seq<Registry>, r: Registry)
    ensures RunFrom(a, []) == a && RunFrom(a, rs + [r]) == Step(RunFrom(a, rs), r)
    decreases |rs|
  {
    hide Step;
    if rs != [] {
      assert (rs + [r])[1..] == rs[1..] + [r];
      RunStep(Step(a, rs[0]), rs[1..], r);
    } else {
      assert ([] + [r])[1..] == [];
    }
  }

  /** Whatever registries are presented, the anchored generation never decreases and nothing revoked is ever unrevoked. */
  lemma {:induction false} AnchorMonotone(a: Anchor, rs: seq<Registry>)
    ensures var b := RunFrom(a, rs);
      && a.generation <= b.generation && b.generation <= a.generation + |rs|
      && Includes(a.keys, b.keys) && Includes(a.capabilities, b.capabilities)
      && (b.generation == a.generation ==> b == a)
    decreases |rs|
  {
    if rs != [] { AnchorMonotone(Step(a, rs[0]), rs[1..]); }
  }

  /** After any run, a registry is accepted only if it revokes everything any earlier anchor had revoked;
      in particular every older registry is refused. */
  lemma {:induction false} NoRollback(a: Anchor, rs: seq<Registry>, r: Registry)
    requires Current(RunFrom(a, rs), r) || Follows(RunFrom(a, rs), r)
    ensures r.generation >= a.generation && Includes(a.keys, r.keys) && Includes(a.capabilities, r.capabilities)
  {
    AnchorMonotone(a, rs);
  }
}
