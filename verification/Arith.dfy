/** Products under a name of their own, so that a proof can keep them closed. */
module Arith {

  function Mul(a: nat, b: nat): nat {
    a * b
  }

  lemma OneMore(j: nat, x: nat)
    ensures Mul(j + 1, x) == Mul(j, x) + x && Mul(x, j + 1) == Mul(j, x) + x && Mul(0, x) == 0 && Mul(1, x) == x
  {
  }

  lemma MulAdd(a: nat, b: nat, c: nat)
    ensures Mul(a + b, c) == Mul(a, c) + Mul(b, c)
  {
  }

  lemma MulAssoc(a: nat, b: nat, c: nat)
    ensures Mul(Mul(a, b), c) == Mul(a, Mul(b, c)) && Mul(a, b) == Mul(b, a)
  {
  }

  lemma {:induction false} MulGrows(a: nat, q: nat, b: nat)
    requires q <= b
    ensures Mul(q, a) <= Mul(a, b)
    decreases b - q
  {
    if q < b {
      OneMore(q, a);
      MulGrows(a, q + 1, b);
    }
  }
}
