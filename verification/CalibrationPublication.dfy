/** The archive's write-ahead publication: what `_publish` and `_recoverTransaction` write, and why a
    crash between any two writes leaves a generation that is wholly published or not at all. */
module CalibrationPublication {
  import opened CrashStop
  import opened Options
  import opened CalibrationState

  /** A signed generation; digests are injective. */
  datatype Envelope = Envelope(generation: nat, parent: Option<Digest>, state: State)
  datatype Digest = Digest(envelope: Envelope)
  datatype Head = Head(generation: nat, digest: Digest)
  datatype Journal = Journal(envelope: Envelope, artifacts: seq<Artifact>)

  datatype Disk = Disk(artifacts: map<Path, Value>, journals: map<nat, Journal>, generations: map<nat, Envelope>,
                       pointer: Option<Head>)

  datatype Write =
    | WJournal(n: nat, journal: Journal)
    | WArtifact(path: Path, value: Value)
    | WGeneration(n: nat, envelope: Envelope)
    | WPointer(head: Head)

  function Apply(d: Disk, w: Write): Disk {
    match w
    case WJournal(n, j) => d.(journals := d.journals[n := j])
    case WArtifact(p, v) => d.(artifacts := d.artifacts[p := v])
    case WGeneration(n, e) => d.(generations := d.generations[n := e])
    case WPointer(h) => d.(pointer := Some(h))
  }

  // ---------------------------------------------------------------- what is written

  /** The paths recovery is willing to write. */
  predicate Safe(p: Path) { p.Evidence? ==> SafeId(p.id) }

  /** Immutable files refuse different contents; recovery also refuses unsafe paths. */
  predicate Blocked(d: Disk, w: Write, checked: bool) {
    match w
    case WJournal(n, j) => n in d.journals && d.journals[n] != j
    case WArtifact(p, v) => (checked && !Safe(p)) || (p in d.artifacts && d.artifacts[p] != v)
    case WGeneration(n, e) => n in d.generations && d.generations[n] != e
    case WPointer(_) => false
  }

  /** Performing writes in order up to the first that is blocked. */
  function Writing(d: Disk, ws: seq<Write>, checked: bool): Plan<Write, ()>
    decreases |ws|
  {
    if ws == [] then Plan([], Ok(()))
    else if Blocked(d, ws[0], checked) then Plan([], Refused)
    else
      var rest := Writing(Apply(d, ws[0]), ws[1..], checked);
      Plan([ws[0]] + rest.writes, rest.reply)
  }

  function Installing(arts: seq<Artifact>, e: Envelope): (ws: seq<Write>)
    ensures |ws| == |arts| + 2
  {
    if arts == [] then [WGeneration(e.generation, e), WPointer(Head(e.generation, Digest(e)))]
    else [WArtifact(arts[0].path, arts[0].value)] + Installing(arts[1..], e)
  }

  function Sealed(head: Option<Head>, next: State): Envelope {
    if head.None? then Envelope(0, None, next) else Envelope(head.value.generation + 1, Some(head.value.digest), next)
  }

  function PublishPlan(d: Disk, head: Option<Head>, next: State, arts: seq<Artifact>): Plan<Write, ()> {
    var e := Sealed(head, next);
    Writing(d, [WJournal(e.generation, Journal(e, arts))] + Installing(arts, e), false)
  }

  lemma {:induction false} GreatestExists(keys: set<nat>)
    requires keys != {}
    ensures exists n :: n in keys && forall k :: k in keys ==> k <= n
    decreases |keys|
  {
    var x :| x in keys;
    var rest := keys - {x};
    if rest == {} {
      assert keys == {x};
    } else {
      GreatestExists(rest);
      var y :| y in rest && forall k :: k in rest ==> k <= y;
      var n := if y < x then x else y;
      assert forall k :: k in keys ==> k == x || k in rest;
      assert n in keys;
    }
  }

  function Greatest(keys: set<nat>): (n: nat)
    requires keys != {}
    ensures n in keys && forall k :: k in keys ==> k <= n
  {
    GreatestExists(keys);
    var n :| n in keys && forall k :: k in keys ==> k <= n;
    n
  }

  /** Whether the newest journal n may be carried out, and whether it already has been. */
  predicate JournalFits(d: Disk, n: nat)
    requires n in d.journals
  {
    var e := d.journals[n].envelope;
    && e.generation == n && (|d.generations| == n || |d.generations| == n + 1)
    && (n > 0 ==> n - 1 in d.generations && e.parent == Some(Digest(d.generations[n - 1])))
  }

  predicate JournalDone(d: Disk, n: nat)
    requires n in d.journals
  {
    d.pointer == Some(Head(n, Digest(d.journals[n].envelope)))
  }

  predicate PointerBefore(d: Disk, n: nat)
    requires n in d.journals
  {
    d.pointer.None? || (d.pointer.value.generation + 1 == n && Some(d.pointer.value.digest) == d.journals[n].envelope.parent)
  }

  function RecoverPlan(d: Disk): Plan<Write, ()> {
    if d.journals == map[] then Plan([], Ok(()))
    else
      var n := Greatest(d.journals.Keys);
      var j := d.journals[n];
      if !JournalFits(d, n) then Plan([], Refused)
      else if JournalDone(d, n) then Plan([], Ok(()))
      else if !PointerBefore(d, n) then Plan([], Refused)
      else Writing(d, Installing(j.artifacts, j.envelope), true)
  }

  // ---------------------------------------------------------------- settled disks

  /** Generation i has its own number and the digest of its predecessor. */
  predicate InPlace(g: map<nat, Envelope>, i: nat)
    requires i in g
  {
    && g[i].generation == i
    && if i == 0 then g[i].parent.None? else i - 1 in g && g[i].parent == Some(Digest(g[i - 1]))
  }

  ghost predicate Chain(g: map<nat, Envelope>) {
    && (forall i: nat :: i in g <==> i < |g|)
    && (forall i: nat {:trigger InPlace(g, i)} :: i in g ==> InPlace(g, i))
  }

  ghost predicate Installed(a: map<Path, Value>, arts: seq<Artifact>) {
    forall x :: x in arts ==> Safe(x.path) && x.path in a && a[x.path] == x.value
  }

  /** A published disk: generations form a chain, the pointer and the newest journal are at its end. */
  ghost predicate Clean(t: Disk) {
    var m := |t.generations|;
    && m > 0 && Chain(t.generations) && t.pointer == Some(Head(m - 1, Digest(t.generations[m - 1])))
    && m - 1 in t.journals && (forall i :: i in t.journals ==> i < m)
    && t.journals[m - 1].envelope == t.generations[m - 1] && Installed(t.artifacts, t.journals[m - 1].artifacts)
  }

  ghost predicate Within(a: map<Path, Value>, b: map<Path, Value>) {
    forall p :: p in a ==> p in b && a[p] == b[p]
  }

  ghost predicate Covers(arts: seq<Artifact>, a: map<Path, Value>, b: map<Path, Value>) {
    forall p :: p in b && p !in a ==> exists x :: x in arts && x.path == p
  }

  function Before(t: Disk): Option<Head>
    requires 0 < |t.generations| && (|t.generations| > 1 ==> |t.generations| - 2 in t.generations)
  {
    var m := |t.generations|;
    if m == 1 then None else Some(Head(m - 2, Digest(t.generations[m - 2])))
  }

  /** The journal of t's last generation is written in d, and some of the rest, but not the pointer. */
  ghost predicate InFlight(d: Disk, t: Disk, arts: seq<Artifact>) {
    && Clean(t) && d.journals == t.journals
    && (d.generations == t.generations || d.generations == t.generations - {|t.generations| - 1})
    && d.pointer == Before(t) && Within(d.artifacts, t.artifacts) && Covers(arts, d.artifacts, t.artifacts)
    && Installed(t.artifacts, arts)
  }

  /** d is t, or t but for a publication that has been journalled. */
  ghost predicate Partial(d: Disk, t: Disk) {
    Clean(t) && (d == t || InFlight(d, t, t.journals[|t.generations| - 1].artifacts))
  }

  // ---------------------------------------------------------------- recovery completes what was begun

  lemma {:induction false} CleanTop(t: Disk)
    requires Clean(t)
    ensures var m := |t.generations|;
      && m > 0 && m - 1 in t.generations && m - 1 in t.journals && t.generations[m - 1].generation == m - 1
      && t.journals[m - 1].envelope == t.generations[m - 1]
      && t.pointer == Some(Head(m - 1, Digest(t.generations[m - 1]))) && m !in t.generations && m !in t.journals
      && (m > 1 ==> m - 2 in t.generations && t.generations[m - 1].parent == Some(Digest(t.generations[m - 2])))
  {
    assert InPlace(t.generations, |t.generations| - 1);
  }

  lemma {:induction false} Covered(d: Disk, t: Disk)
    requires Within(d.artifacts, t.artifacts) && Covers([], d.artifacts, t.artifacts)
    ensures d.artifacts == t.artifacts
  {
    assert forall p :: p in t.artifacts ==> p in d.artifacts;
  }

  lemma {:induction false} WritingTwo(d: Disk, g: Write, p: Write, checked: bool)
    requires !Blocked(d, g, checked) && !Blocked(Apply(d, g), p, checked)
    ensures Writing(d, [g, p], checked) == Plan([g, p], Ok(()))
  {
    hide Apply, Blocked;
    assert [g, p][1..] == [p] && [p][1..] == [];
    assert Writing(Apply(Apply(d, g), p), [], checked) == Plan([], Ok(()));
    assert Writing(Apply(d, g), [p], checked) == Plan([p], Ok(()));
  }

  lemma {:induction false} LastSteps(d: Disk, t: Disk)
    requires InFlight(d, t, [])
    ensures |t.generations| > 0 && |t.generations| - 1 in t.generations
    ensures var e := t.generations[|t.generations| - 1];
      var g, p := WGeneration(e.generation, e), WPointer(Head(e.generation, Digest(e)));
      && Installing([], e) == [g, p] && InFlight(Apply(d, g), t, []) && Apply(Apply(d, g), p) == t
      && (forall checked :: !Blocked(d, g, checked) && !Blocked(Apply(d, g), p, checked))
  {
    hide Clean;
    CleanTop(t);
    Covered(d, t);
    var e := t.generations[|t.generations| - 1];
    assert Apply(d, WGeneration(e.generation, e)).generations == t.generations;
  }

  lemma {:induction false} Finish(d: Disk, t: Disk, checked: bool)
    requires InFlight(d, t, [])
    ensures |t.generations| > 0 && |t.generations| - 1 in t.generations
    ensures var ws := Installing([], t.generations[|t.generations| - 1]);
      && Writing(d, ws, checked) == Plan(ws, Ok(())) && Replay(Apply, d, ws) == t
      && (forall k: nat :: k <= |ws| ==> Replay(Apply, d, ws[..k]) == t || InFlight(Replay(Apply, d, ws[..k]), t, []))
  {
    hide InFlight, Apply, Blocked;
    LastSteps(d, t);
    var ws := Installing([], t.generations[|t.generations| - 1]);
    assert ws[..2] == ws;
    WritingTwo(d, ws[0], ws[1], checked);
    forall k: nat | k <= |ws|
      ensures Replay(Apply, d, ws[..k]) == t || InFlight(Replay(Apply, d, ws[..k]), t, [])
    {
      ReplayPair(Apply, d, ws[0], ws[1], k);
    }
    ReplayPair(Apply, d, ws[0], ws[1], 2);
  }

  lemma {:induction false} CoversMore(d: Disk, t: Disk, arts: seq<Artifact>, all: seq<Artifact>)
    requires InFlight(d, t, arts) && Installed(t.artifacts, all) && forall x :: x in arts ==> x in all
    ensures InFlight(d, t, all)
  {
    hide Clean;
  }

  lemma {:induction false} InstallOne(d: Disk, t: Disk, arts: seq<Artifact>)
    requires arts != [] && InFlight(d, t, arts)
    ensures var w := WArtifact(arts[0].path, arts[0].value);
      !Blocked(d, w, true) && InFlight(Apply(d, w), t, arts[1..])
  {
    hide Clean;
    var x := arts[0];
    assert x in arts;
    var d1 := Apply(d, WArtifact(x.path, x.value));
    forall p | p in t.artifacts && p !in d1.artifacts
      ensures exists y :: y in arts[1..] && y.path == p
    {
      var y :| y in arts && y.path == p;
      assert y in arts[1..];
    }
  }

  /** Everything a disk on its way to t may become while the journal is carried out. */
  ghost predicate OnTheWay(d: Disk, t: Disk, arts: seq<Artifact>) { d == t || InFlight(d, t, arts) }

  /** Carrying out the rest of a journal from anywhere in the middle of it ends in t, and stays on the way to t. */
  lemma {:induction false} Install(d: Disk, t: Disk, arts: seq<Artifact>, all: seq<Artifact>, checked: bool)
    requires InFlight(d, t, arts) && Installed(t.artifacts, all) && forall x :: x in arts ==> x in all
    ensures |t.generations| > 0 && |t.generations| - 1 in t.generations
    ensures var ws := Installing(arts, t.generations[|t.generations| - 1]);
      && Writing(d, ws, checked) == Plan(ws, Ok(())) && Replay(Apply, d, ws) == t
      && (forall k: nat :: k <= |ws| ==> OnTheWay(Replay(Apply, d, ws[..k]), t, all))
    decreases |arts|
  {
    CleanTop(t);
    if arts == [] {
      Finish(d, t, checked);
      hide InFlight, Clean;
      var ws := Installing([], t.generations[|t.generations| - 1]);
      forall k: nat | k <= |ws|
        ensures OnTheWay(Replay(Apply, d, ws[..k]), t, all)
      {
        var now := Replay(Apply, d, ws[..k]);
        if now != t { CoversMore(now, t, [], all); }
      }
    } else {
      hide InFlight, Clean, Installed;
      var e := t.generations[|t.generations| - 1];
      var ws, rest := Installing(arts, e), Installing(arts[1..], e);
      var d1 := Apply(d, ws[0]);
      InstallOne(d, t, arts);
      Install(d1, t, arts[1..], all, checked);
      assert ws[1..] == rest;
      forall k: nat | k <= |ws|
        ensures OnTheWay(Replay(Apply, d, ws[..k]), t, all)
      {
        if k == 0 {
          assert ws[..0] == [] && Replay(Apply, d, []) == d;
          CoversMore(d, t, arts, all);
        } else {
          assert ws[..k][1..] == rest[..k - 1];
          assert Replay(Apply, d, ws[..k]) == Replay(Apply, d1, rest[..k - 1]);
        }
      }
    }
  }

  lemma {:induction false} TopJournal(t: Disk)
    requires Clean(t)
    ensures t.journals != map[] && Greatest(t.journals.Keys) == |t.generations| - 1
  {
    var n := Greatest(t.journals.Keys);
    assert |t.generations| - 1 in t.journals.Keys && n in t.journals;
  }

  lemma {:induction false} RecoverReaches(d: Disk, t: Disk)
    requires Partial(d, t) && d != t
    ensures var j := t.journals[|t.generations| - 1];
      RecoverPlan(d) == Writing(d, Installing(j.artifacts, j.envelope), true)
  {
    TopJournal(t);
    CleanTop(t);
    hide Clean, Within, Covers, Installed, Writing;
    var m := |t.generations|;
    assert |t.generations - {m - 1}| == m - 1;
  }

  /** Recovery of an interrupted publication succeeds and completes it, whatever had been written;
      it may itself be interrupted anywhere and run again. */
  lemma {:induction false} RecoverCompletes(d: Disk, t: Disk)
    requires Partial(d, t)
    ensures var plan := RecoverPlan(d);
      && plan.reply == Ok(()) && Replay(Apply, d, plan.writes) == t
      && (forall k: nat :: k <= |plan.writes| ==> Partial(Replay(Apply, d, plan.writes[..k]), t))
  {
    CleanTop(t);
    if d == t {
      TopJournal(t);
      assert RecoverPlan(d) == Plan([], Ok(()));
    } else {
      var all := t.journals[|t.generations| - 1].artifacts;
      RecoverReaches(d, t);
      Install(d, t, all, all, true);
    }
  }

  // ---------------------------------------------------------------- publishing

  function Placed(a: map<Path, Value>, arts: seq<Artifact>): map<Path, Value>
    decreases |arts|
  {
    if arts == [] then a else Placed(a[arts[0].path := arts[0].value], arts[1..])
  }

  /** No artifact differs from what its path already holds or from another artifact of the same path. */
  predicate Consistent(a: map<Path, Value>, arts: seq<Artifact>) {
    && (forall x :: x in arts && x.path in a ==> a[x.path] == x.value)
    && (forall x, y :: x in arts && y in arts && x.path == y.path ==> x.value == y.value)
  }

  predicate AllSafe(arts: seq<Artifact>) { forall x :: x in arts ==> Safe(x.path) }

  predicate Publishable(a: map<Path, Value>, arts: seq<Artifact>) { AllSafe(arts) && Consistent(a, arts) }

  lemma {:induction false} PlacedHolds(a: map<Path, Value>, arts: seq<Artifact>)
    requires Consistent(a, arts)
    ensures var b := Placed(a, arts);
      Within(a, b) && Covers(arts, a, b) && (forall x :: x in arts ==> x.path in b && b[x.path] == x.value)
    decreases |arts|
  {
    if arts != [] {
      var a1 := a[arts[0].path := arts[0].value];
      assert arts[0] in arts && forall x :: x in arts[1..] ==> x in arts;
      PlacedHolds(a1, arts[1..]);
      var b := Placed(a, arts);
      forall p | p in b && p !in a
        ensures exists x :: x in arts && x.path == p
      {
        if p in a1 { assert arts[0].path == p; } else { var x :| x in arts[1..] && x.path == p; }
      }
      assert forall x :: x in arts ==> x == arts[0] || x in arts[1..];
    }
  }

  /** What a publication of `next` makes of d. */
  function Published(d: Disk, next: State, arts: seq<Artifact>): Disk {
    var e := Sealed(d.pointer, next);
    Disk(Placed(d.artifacts, arts), d.journals[e.generation := Journal(e, arts)], d.generations[e.generation := e],
         Some(Head(e.generation, Digest(e))))
  }

  lemma {:induction false} JournalFresh(d: Disk, next: State, arts: seq<Artifact>)
    requires Clean(d)
    ensures var e, t := Sealed(d.pointer, next), Published(d, next, arts);
      && e.generation == |d.generations| && e.generation !in d.journals && e.generation !in d.generations
      && t.generations == d.generations[|d.generations| := e] && |t.generations| == |d.generations| + 1
      && t.journals == d.journals[|d.generations| := Journal(e, arts)] && t.generations - {|d.generations|} == d.generations
      && t.pointer == Some(Head(|d.generations|, Digest(e))) && d.pointer == Before(t)
  {
    var t := Published(d, next, arts);
    assert t.generations - {|d.generations|} == d.generations;
  }

  lemma {:induction false} ChainExtends(g: map<nat, Envelope>, e: Envelope)
    requires Chain(g) && |g| > 0 && e.generation == |g| && |g| - 1 in g && e.parent == Some(Digest(g[|g| - 1]))
    ensures Chain(g[|g| := e])
  {
    var h, n := g[|g| := e], |g|;
    assert n !in g && |h| == n + 1;
    forall i: nat
      ensures i in h <==> i < |h|
    {
      assert i in g <==> i < |g|;
    }
    forall i: nat | i in h
      ensures InPlace(h, i)
    {
      if i < n {
        assert InPlace(g, i) && h[i] == g[i];
      } else {
        assert h[i - 1] == g[i - 1];
      }
    }
  }

  lemma {:induction false} PublishedClean(d: Disk, next: State, arts: seq<Artifact>)
    requires Clean(d) && Publishable(d.artifacts, arts)
    ensures var t := Published(d, next, arts);
      Clean(t) && InFlight(d.(journals := t.journals), t, arts) && Installed(t.artifacts, arts)
  {
    hide Placed;
    PlacedHolds(d.artifacts, arts);
    JournalFresh(d, next, arts);
    var t := Published(d, next, arts);
    assert Installed(t.artifacts, arts);
    ChainExtends(d.generations, Sealed(d.pointer, next));
    assert Clean(t);
  }

  /** A publication is atomic: before its journal nothing has changed, and from the journal on
      every interruption leaves a disk that recovery turns into the published one. */
  lemma {:induction false} PublishAtomic(d: Disk, next: State, arts: seq<Artifact>, k: nat)
    requires Clean(d) && Publishable(d.artifacts, arts) && k <= |PublishPlan(d, d.pointer, next, arts).writes|
    ensures var plan, t := PublishPlan(d, d.pointer, next, arts), Published(d, next, arts);
      && plan.reply == Ok(()) && Replay(Apply, d, plan.writes) == t && |plan.writes| == |arts| + 3
      && var now := Replay(Apply, d, plan.writes[..k]);
      && (k == 0 ==> now == d) && (k > 0 ==> Partial(now, t))
      && RecoverPlan(now).reply == Ok(()) && Replay(Apply, now, RecoverPlan(now).writes) == (if k == 0 then d else t)
  {
    hide InFlight, Publishable, Placed, Installed, RecoverPlan;
    var plan, t := PublishPlan(d, d.pointer, next, arts), Published(d, next, arts);
    var e := Sealed(d.pointer, next);
    var j := WJournal(e.generation, Journal(e, arts));
    PublishedClean(d, next, arts);
    JournalFresh(d, next, arts);
    var d1 := Apply(d, j);
    Install(d1, t, arts, arts, false);
    var rest := Installing(arts, e);
    assert ([j] + rest)[1..] == rest;
    assert plan == Plan([j] + rest, Ok(()));
    var now := Replay(Apply, d, plan.writes[..k]);
    if k > 0 {
      assert plan.writes[..k][1..] == rest[..k - 1];
      assert OnTheWay(now, t, arts);
    }
    RecoverCompletes(now, if k == 0 then d else t);
  }

  // ---------------------------------------------------------------- exactly when a publication can be completed

  /** The artifacts before index i are in place; the rest is still to be written. */
  ghost predicate UpTo(a: map<Path, Value>, arts: seq<Artifact>, i: nat) {
    i <= |arts| && forall n :: 0 <= n < i ==> arts[n].path in a && a[arts[n].path] == arts[n].value
  }

  lemma {:induction false} PlaceOne(a: map<Path, Value>, x: Artifact, arts: seq<Artifact>)
    requires x in arts && (x.path in a ==> a[x.path] == x.value)
    ensures Consistent(a[x.path := x.value], arts) <==> Consistent(a, arts)
  {
  }

  /** Artifacts are written up to the first that differs from what is there, or is unsafe when that is checked. */
  lemma {:induction false} WritingStops(d: Disk, arts: seq<Artifact>, e: Envelope, checked: bool)
    requires e.generation !in d.generations || d.generations[e.generation] == e
    ensures var plan := Writing(d, Installing(arts, e), checked);
      && (plan.reply.Ok? <==> Consistent(d.artifacts, arts) && (checked ==> AllSafe(arts)))
      && (!plan.reply.Ok? ==> plan.reply.Refused? && forall k :: 0 <= k < |plan.writes| ==> IsOneOf(plan.writes[k], arts))
    decreases |arts|
  {
    var ws := Installing(arts, e);
    if arts == [] {
      WritingTwo(d, ws[0], ws[1], checked);
      assert ws == [ws[0], ws[1]];
    } else {
      var x := arts[0];
      assert x in arts;
      assert ws[1..] == Installing(arts[1..], e);
      if !Blocked(d, ws[0], checked) {
        var d1 := Apply(d, ws[0]);
        WritingStops(d1, arts[1..], e, checked);
        PlaceOne(d.artifacts, x, arts);
        assert forall y :: y in arts <==> y == x || y in arts[1..];
        ConsistentTail(d1.artifacts, arts);
        var rest := Writing(d1, ws[1..], checked);
        assert Writing(d, ws, checked).writes == [ws[0]] + rest.writes;
        if !rest.reply.Ok? {
          assert forall k :: 0 <= k < |rest.writes| ==> IsOneOf(rest.writes[k], arts[1..]) && IsOneOf(rest.writes[k], arts);
          assert IsOneOf(ws[0], arts);
        }
      }
    }
  }

  predicate IsOneOf(w: Write, arts: seq<Artifact>) {
    w.WArtifact? && Artifact(w.path, w.value) in arts
  }

  lemma {:induction false} ConsistentTail(a: map<Path, Value>, arts: seq<Artifact>)
    requires arts != [] && arts[0].path in a && a[arts[0].path] == arts[0].value
    ensures Consistent(a, arts) <==> Consistent(a, arts[1..])
  {
    assert forall x :: x in arts <==> x == arts[0] || x in arts[1..];
    if Consistent(a, arts[1..]) {
      forall x, y | x in arts && y in arts && x.path == y.path
        ensures x.value == y.value
      {
      }
    }
  }

  /** Publishing itself succeeds exactly when no artifact collides; it does not look at the paths. */
  lemma {:induction false} PublishSucceeds(d: Disk, next: State, arts: seq<Artifact>)
    requires Clean(d)
    ensures PublishPlan(d, d.pointer, next, arts).reply.Ok? <==> Consistent(d.artifacts, arts)
  {
    hide Clean, Installing;
    JournalFresh(d, next, arts);
    var e := Sealed(d.pointer, next);
    var j := WJournal(e.generation, Journal(e, arts));
    assert ([j] + Installing(arts, e))[1..] == Installing(arts, e);
    WritingStops(Apply(d, j), arts, e, false);
  }

  /** A disk whose newest journal has not been carried out and cannot be. */
  ghost predicate Stuck(d: Disk) {
    && d.journals != map[]
    && var n := Greatest(d.journals.Keys);
    && JournalFits(d, n) && !JournalDone(d, n) && PointerBefore(d, n)
    && (n !in d.generations || d.generations[n] == d.journals[n].envelope)
    && !Publishable(d.artifacts, d.journals[n].artifacts)
  }

  lemma {:induction false} StillStuck(d: Disk, ws: seq<Write>)
    requires Stuck(d) && forall k :: 0 <= k < |ws| ==> IsOneOf(ws[k], d.journals[Greatest(d.journals.Keys)].artifacts)
    requires !Writing(d, ws, true).reply.Refused?
    ensures Stuck(Replay(Apply, d, ws))
    decreases |ws|
  {
    if ws != [] {
      var w, d1 := ws[0], Apply(d, ws[0]);
      PlaceOne(d.artifacts, Artifact(w.path, w.value), d.journals[Greatest(d.journals.Keys)].artifacts);
      StillStuck(d1, ws[1..]);
    }
  }

  /** The writes of a plan, and every prefix of them, are not blocked. */
  lemma {:induction false} PrefixUnblocked(d: Disk, ws: seq<Write>, checked: bool, k: nat)
    requires k <= |Writing(d, ws, checked).writes|
    ensures !Writing(d, Writing(d, ws, checked).writes[..k], checked).reply.Refused?
    decreases |ws|
  {
    if ws != [] && !Blocked(d, ws[0], checked) && k > 0 {
      PrefixUnblocked(Apply(d, ws[0]), ws[1..], checked, k - 1);
      var all := Writing(d, ws, checked).writes;
      assert all[..k][1..] == Writing(Apply(d, ws[0]), ws[1..], checked).writes[..k - 1];
    }
  }

  /** A stuck disk is refused by every start, and nothing a start writes helps. */
  lemma {:induction false} StuckIsPermanent(d: Disk, k: nat)
    requires Stuck(d) && k <= |RecoverPlan(d).writes|
    ensures RecoverPlan(d).reply.Refused? && Stuck(Replay(Apply, d, RecoverPlan(d).writes[..k]))
  {
    var n := Greatest(d.journals.Keys);
    var j := d.journals[n];
    WritingStops(d, j.artifacts, j.envelope, true);
    PrefixUnblocked(d, Installing(j.artifacts, j.envelope), true, k);
    StillStuck(d, RecoverPlan(d).writes[..k]);
  }

  /** Exactly when an interrupted publication can be recovered: a crash right after the journal is
      recovered if every artifact's path is safe and free, and otherwise bricks the archive. */
  lemma {:induction false} RecoverableIff(d: Disk, next: State, arts: seq<Artifact>)
    requires Clean(d)
    ensures var e := Sealed(d.pointer, next);
      var now := Apply(d, WJournal(e.generation, Journal(e, arts)));
      && (Publishable(d.artifacts, arts) <==> RecoverPlan(now).reply.Ok?)
      && (!Publishable(d.artifacts, arts) ==> Stuck(now))
  {
    CleanTop(d);
    JournalFresh(d, next, arts);
    var e := Sealed(d.pointer, next);
    var now := Apply(d, WJournal(e.generation, Journal(e, arts)));
    var n := Greatest(now.journals.Keys);
    TopJournal(d);
    assert e.generation in now.journals.Keys && (n in d.journals.Keys || n == e.generation);
    WritingStops(now, arts, e, true);
  }
}
