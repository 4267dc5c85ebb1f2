/** Crash-stop executions of a durable protocol.

    An operation is described by its plan: the durable writes it performs, in order, and the
    reply it gives when it survives all of them.  A process may die between any two writes, so
    what a crash leaves behind is a prefix of the plan. */
module CrashStop {

  datatype Reply<+T> = Ok(value: T) | Refused | Died

  datatype Plan<+W, +T> = Plan(writes: seq<W>, reply: Reply<T>)

  /** The store after the writes `ws`. */
  function Replay<S, W>(apply: (S, W) -> S, s: S, ws: seq<W>): S {
    if ws == [] then s else Replay(apply, apply(s, ws[0]), ws[1..])
  }

  /** A process with `fuel` writes left ran `plan` from `before`: either it died on a prefix, or
      it gave the planned reply in the planned store. */
  ghost predicate Ran<S, W, T>(apply: (S, W) -> S, plan: Plan<W, T>, before: S, fuel: nat,
                               reply: Reply<T>, after: S, left: nat) {
    if fuel < |plan.writes| then
      reply == Died && left == 0 && after == Replay(apply, before, plan.writes[..fuel])
    else
      reply == plan.reply && left == fuel - |plan.writes| && after == Replay(apply, before, plan.writes)
  }

  lemma {:induction false} ReplayConcat<S, W>(apply: (S, W) -> S, s: S, a: seq<W>, b: seq<W>)
    ensures Replay(apply, s, a + b) == Replay(apply, Replay(apply, s, a), b)
  {
    if a == [] {
      assert a + b == b;
    } else {
      assert (a + b)[0] == a[0] && (a + b)[1..] == a[1..] + b;
      ReplayConcat(apply, apply(s, a[0]), a[1..], b);
    }
  }

  lemma {:induction false} ReplayOne<S, W>(apply: (S, W) -> S, s: S, w: W)
    ensures Replay(apply, s, [w]) == apply(s, w)
  {
    assert [w][1..] == [];
    assert Replay(apply, apply(s, w), []) == apply(s, w);
  }

  lemma {:induction false} ReplayPair<S, W>(apply: (S, W) -> S, s: S, v: W, w: W, k: nat)
    requires k <= 2
    ensures Replay(apply, s, [v, w][..k]) == (if k == 0 then s else if k == 1 then apply(s, v) else apply(apply(s, v), w))
  {
    ReplayOne(apply, s, v);
    ReplayOne(apply, apply(s, v), w);
    if k == 2 { assert [v, w][..k][1..] == [w]; }
    if k == 1 { assert [v, w][..k] == [v]; }
  }

  /** The first k of the writes of two plans in succession. */
  lemma {:induction false} ReplayCut<S, W>(apply: (S, W) -> S, s: S, a: seq<W>, b: seq<W>, k: nat)
    requires k <= |a + b|
    ensures Replay(apply, s, (a + b)[..k]) ==
            if k <= |a| then Replay(apply, s, a[..k]) else Replay(apply, Replay(apply, s, a), b[..k - |a|])
  {
    if k <= |a| {
      assert (a + b)[..k] == a[..k];
    } else {
      assert (a + b)[..k] == a + b[..k - |a|];
      ReplayConcat(apply, s, a, b[..k - |a|]);
    }
  }

  /** Running a plan to its end and then another one is running their concatenation. */
  lemma {:induction false} RanThen<S, W, T, U>(apply: (S, W) -> S, first: Plan<W, T>, second: Plan<W, U>, before: S, fuel: nat,
                            mid: S, midFuel: nat, reply: Reply<U>, after: S, left: nat)
    requires |first.writes| <= fuel
    requires Ran(apply, first, before, fuel, first.reply, mid, midFuel)
    requires Ran(apply, second, mid, midFuel, reply, after, left)
    ensures Ran(apply, Plan(first.writes + second.writes, second.reply), before, fuel, reply, after, left)
  {
    var ws := first.writes + second.writes;
    if fuel < |ws| {
      assert ws[..fuel] == first.writes + second.writes[..midFuel];
      ReplayConcat(apply, before, first.writes, second.writes[..midFuel]);
    } else {
      ReplayConcat(apply, before, first.writes, second.writes);
    }
  }

  /** A process that died in the first of two plans died in their concatenation. */
  lemma {:induction false} RanCut<S, W, T, U>(apply: (S, W) -> S, first: Plan<W, T>, more: seq<W>, whole: Reply<U>, before: S, fuel: nat,
                           after: S, left: nat)
    requires fuel < |first.writes|
    requires Ran(apply, first, before, fuel, Died, after, left)
    ensures Ran(apply, Plan(first.writes + more, whole), before, fuel, Died, after, left)
  {
    assert (first.writes + more)[..fuel] == first.writes[..fuel];
  }
}
