/** A step function repeated, whole or in capped rounds. */
module Iteration {

  function Iterate<S>(step: S -> S, s: S, k: nat): S
    decreases k, s
  {
    if k == 0 then s else Iterate(step, step(s), k - 1)
  }

  lemma {:induction false} IterateAdds<S>(step: S -> S, s: S, j: nat, k: nat)
    ensures Iterate(step, Iterate(step, s, j), k) == Iterate(step, s, j + k)
    decreases j
  {
    if j > 0 {
      IterateAdds(step, step(s), j - 1, k);
    }
  }

  lemma IterateOneMore<S>(step: S -> S, s: S, k: nat)
    ensures Iterate(step, s, k + 1) == step(Iterate(step, s, k))
  {
    IterateAdds(step, s, k, 1);
    var at := Iterate(step, s, k);
    assert Iterate(step, at, 1) == Iterate(step, step(at), 0);
  }

  lemma {:induction false} IterateAtRest<S>(step: S -> S, s: S, k: nat)
    requires step(s) == s
    ensures Iterate(step, s, k) == s
    decreases k
  {
    if k > 0 {
      IterateAtRest(step, s, k - 1);
    }
  }

  /** Once a step changes nothing, no number of steps does. */
  lemma IterateStays<S>(step: S -> S, s: S, k: nat, turns: nat)
    requires k <= turns && step(Iterate(step, s, k)) == Iterate(step, s, k)
    ensures Iterate(step, s, turns) == Iterate(step, s, k)
  {
    IterateAdds(step, s, k, turns - k);
    IterateAtRest(step, Iterate(step, s, k), turns - k);
  }

  /** `n` rounds of `cap` steps each. */
  function Rounds<S>(step: S -> S, cap: nat, s: S, n: nat): S
    decreases n
  {
    if n == 0 then s else Iterate(step, Rounds(step, cap, s, n - 1), cap)
  }

  lemma {:induction false} RoundsAddUp<S>(step: S -> S, cap: nat, s: S, n: nat)
    ensures Rounds(step, cap, s, n) == Iterate(step, s, cap * n)
    decreases n
  {
    if n > 0 {
      RoundsAddUp(step, cap, s, n - 1);
      IterateAdds(step, s, cap * (n - 1), cap);
      assert cap * n == cap * (n - 1) + cap;
    }
  }

  /** What no step changes, no number of steps changes. */
  lemma {:induction false} IteratePreserves<S(!new), R>(step: S -> S, view: S -> R, s: S, k: nat)
    requires forall x :: view(step(x)) == view(x)
    ensures view(Iterate(step, s, k)) == view(s)
    decreases k
  {
    if k > 0 {
      IteratePreserves(step, view, step(s), k - 1);
    }
  }

  /** A description that turns with every step describes any number of steps. */
  lemma {:induction false} IterateFollows<S(!new)>(step: S -> S, spec: (S, nat) -> S, s: S, k: nat)
    requires forall x :: spec(x, 0) == x
    requires forall x, n: nat {:trigger spec(step(x), n)} :: spec(x, n + 1) == spec(step(x), n)
    ensures Iterate(step, s, k) == spec(s, k)
    decreases k
  {
    if k > 0 {
      IterateFollows(step, spec, step(s), k - 1);
      assert spec(s, k - 1 + 1) == spec(step(s), k - 1);
    }
  }
}
