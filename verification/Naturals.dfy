/** Multiplication of naturals under a name, so that proofs can hide it. */
module Naturals {

  function Product(x: nat, y: nat): nat {
    x * y
  }

  lemma ProductSteps(x: nat, y: nat)
    requires x >= 1
    ensures Product(x, y) == y + Product(x - 1, y)
    ensures Product(1, y) == y
  {
  }

  lemma ProductAdds(x: nat, y: nat, z: nat)
    ensures Product(x, y + z) == Product(x, y) + Product(x, z)
  {
  }

  lemma ProductMonotone(x: nat, x': nat, y: nat, y': nat)
    requires x <= x' && y <= y'
    ensures Product(x, y) <= Product(x', y')
  {
    var p, q := Product(x' - x, y'), Product(x, y' - y);
    assert Product(x', y') == Product(x, y) + q + p;
  }
}
