/** Real products by name, so that proofs can treat a product as one quantity and cite exactly the
    law they need. */
module Reals {

  function Mul(x: real, y: real): real { x * y }

  lemma MulOrder(a: real, b: real, t: real)
    requires t >= 0.0
    ensures a <= b ==> Mul(a, t) <= Mul(b, t)
    ensures a < b && t > 0.0 ==> Mul(a, t) < Mul(b, t)
  {
  }

  lemma MulAdds(a: real, b: real, t: real)
    ensures Mul(a + b, t) == Mul(a, t) + Mul(b, t)
    ensures Mul(a - b, t) == Mul(a, t) - Mul(b, t)
    ensures Mul(t, a + b) == Mul(t, a) + Mul(t, b)
    ensures Mul(t, a - b) == Mul(t, a) - Mul(t, b)
  {
  }

  lemma MulUnits(t: real)
    ensures Mul(0.0, t) == 0.0 && Mul(t, 0.0) == 0.0 && Mul(1.0, t) == t && Mul(t, 1.0) == t
    ensures forall k: real {:trigger Mul(k, t)} :: Mul(k, t) == Mul(t, k)
  {
  }

  lemma MulAssoc(a: real, b: real, c: real)
    ensures Mul(Mul(a, b), c) == Mul(a, Mul(b, c))
  {
  }

  lemma MulSign(q: real, t: real)
    requires t > 0.0
    ensures Mul(q, t) >= 0.0 <==> q >= 0.0
    ensures Mul(q, t) > 0.0 <==> q > 0.0
  {
  }

  lemma MulDiv(v: real, t: real)
    requires t != 0.0
    ensures Mul(v / t, t) == v && Mul(v, t) / t == v
  {
  }

  lemma FloorAt(x: real, n: int)
    requires n as real <= x < n as real + 1.0
    ensures x.Floor == n
  {
  }
}
