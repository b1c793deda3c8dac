/** Positions reached by equal steps. */
module Strides {

  /** k steps on from base. */
  function At(base: nat, step: nat, k: nat): nat {
    if k == 0 then base else At(base, step, k - 1) + step
  }

  lemma AtNext(base: nat, step: nat, k: nat)
    ensures At(base, step, 0) == base
    ensures At(base, step, k + 1) == At(base, step, k) + step
  {
  }

  lemma {:induction false} AtApart(base: nat, step: nat, j: nat, k: nat)
    requires j < k
    ensures At(base, step, j) + step <= At(base, step, k)
  {
    if j + 1 < k {
      AtApart(base, step, j, k - 1);
    }
  }

  lemma {:induction false} AtIs(base: nat, step: nat, k: nat)
    ensures At(base, step, k) == base + step * k
  {
    if k > 0 {
      AtIs(base, step, k - 1);
      assert step * k == step * (k - 1) + step;
    }
  }

  lemma {:induction false} AtShift(base: nat, step: nat, k: nat)
    ensures At(base, step, k) == base + At(0, step, k)
  {
    if k > 0 {
      AtShift(base, step, k - 1);
    }
  }
}
