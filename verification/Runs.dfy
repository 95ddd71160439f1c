/** Runs of any system that takes one event at a time. */
module Runs {
  /** The state that the first `k` events lead to. */
  function Along<S, E>(step: (S, E) -> S, s: S, run: seq<E>, k: nat): S
    requires k <= |run|
  {
    if k == 0 then s else step(Along(step, s, run, k - 1), run[k - 1])
  }

  lemma {:induction false} AlongTail<S, E>(step: (S, E) -> S, s: S, run: seq<E>, k: nat)
    requires 1 <= k <= |run|
    ensures Along(step, s, run, k) == Along(step, step(s, run[0]), run[1..], k - 1)
  {
    if k == 1 {
    } else {
      AlongTail(step, s, run, k - 1);
    }
  }

  /** The event takes a state of which `inv` and `ok` hold to one of which `inv` holds. */
  predicate Keeps<S, E>(step: (S, E) -> S, inv: (nat, S) -> bool, ok: (nat, S) -> bool, run: seq<E>, m: nat, s: S) {
    m < |run| && inv(m, s) && ok(m, s) ==> inv(m + 1, step(s, run[m]))
  }

  predicate OkAfter<S, E>(step: (S, E) -> S, ok: (nat, S) -> bool, s: S, run: seq<E>, m: nat) {
    m < |run| ==> ok(m, Along(step, s, run, m))
  }

  /** What holds after `i` events, and what every event keeps as long as it finds the state `ok`, holds after `k`. */
  lemma {:induction false} HoldsWhile<S(!new), E>(step: (S, E) -> S, inv: (nat, S) -> bool, ok: (nat, S) -> bool,
                                                  s: S, run: seq<E>, i: nat, k: nat)
    requires i <= k <= |run| && inv(i, Along(step, s, run, i))
    requires forall m: nat, v: S :: i <= m < k ==> Keeps(step, inv, ok, run, m, v)
    requires forall m: nat :: i <= m < k ==> OkAfter(step, ok, s, run, m)
    ensures inv(k, Along(step, s, run, k))
    decreases k
  {
    if k == i {
    } else {
      HoldsWhile(step, inv, ok, s, run, i, k - 1);
      assert OkAfter(step, ok, s, run, k - 1);
      assert Keeps(step, inv, ok, run, k - 1, Along(step, s, run, k - 1));
    }
  }

  /** One event of the first run, seen through `view`, is the event of the second at the same place. */
  predicate Mirrors<S, T(==), E, F>(step: (S, E) -> S, step': (T, F) -> T, view: S -> T, s: S, run: seq<E>,
                                    run': seq<F>, m: nat) {
    && m < |run| == |run'|
    && view(step(Along(step, s, run, m), run[m])) == step'(view(Along(step, s, run, m)), run'[m])
  }

  /** If each event does, so does the whole run. */
  lemma {:induction false} MirrorsAlong<S, T, E, F>(step: (S, E) -> S, step': (T, F) -> T, view: S -> T, s: S,
                                                    run: seq<E>, run': seq<F>, k: nat)
    requires k <= |run| == |run'|
    requires forall m: nat :: m < k ==> Mirrors(step, step', view, s, run, run', m)
    ensures view(Along(step, s, run, k)) == Along(step', view(s), run', k)
  {
    if k == 0 {
    } else {
      MirrorsAlong(step, step', view, s, run, run', k - 1);
      assert Mirrors(step, step', view, s, run, run', k - 1);
    }
  }
}
