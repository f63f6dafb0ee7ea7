/** Real multiplication under a name, so that proofs can hide it, and powers. */
module Reals {

  function Times(x: real, y: real): real {
    x * y
  }

  lemma Associates(x: real, y: real, z: real)
    ensures Times(x, Times(y, z)) == Times(Times(x, y), z)
    ensures Times(x, Times(y, z)) == Times(y, Times(x, z))
  {
  }

  lemma Distributes(k: real, x: real, y: real)
    ensures Times(k, x + y) == Times(k, x) + Times(k, y)
  {
  }

  lemma ProductNonNegative(x: real, y: real)
    requires x >= 0.0 && y >= 0.0
    ensures Times(x, y) >= 0.0
  {
  }

  lemma Units(x: real)
    ensures Times(1.0, x) == x == Times(x, 1.0)
    ensures Times(x, 0.0) == 0.0
  {
  }

  function Power(x: real, k: nat): real {
    if k == 0 then 1.0 else Times(x, Power(x, k - 1))
  }

  lemma {:induction false} PowerNonNegative(x: real, k: nat)
    requires x >= 0.0
    ensures Power(x, k) >= 0.0
  {
    if k > 0 {
      PowerNonNegative(x, k - 1);
      ProductNonNegative(x, Power(x, k - 1));
    }
  }
}
