/** Exact integer division of magnitudes, as big.Int.QuoRem performs it, and the few facts
    about products that the other modules need one at a time. */
module Arith {

  function Quo(n: nat, d: nat): (q: nat)
    requires d > 0
    ensures q <= n
  {
    QuoBounds(n, d);
    n / d
  }

  function Rem(n: nat, d: nat): (r: nat)
    requires d > 0
    ensures r < d
  {
    n % d
  }

  lemma QuoBounds(n: nat, d: nat)
    requires d > 0
    ensures 0 <= n / d <= n
  {
    var q := n / d;
    assert n == q * d + n % d;
    if q < 0 { MulMono(q, -1, d); }
    if q > n { MulMono(n + 1, q, d); MulMono(1, d, n + 1); }
  }

  lemma QuoRem(n: nat, d: nat)
    requires d > 0
    ensures n == Quo(n, d) * d + Rem(n, d)
  {
  }

  lemma MulMono(a: int, b: int, d: int)
    requires a <= b && d >= 0
    ensures a * d <= b * d
  {
  }

  lemma MulCancel(a: int, b: int, c: int)
    requires c > 0 && a * c == b * c
    ensures a == b
  {
  }

  lemma QuoRemUnique(n: nat, d: nat, q: int, r: int)
    requires d > 0 && n == q * d + r && 0 <= r < d
    ensures q >= 0 && Quo(n, d) == q && Rem(n, d) == r
  {
    QuoRem(n, d);
    var q', r' := Quo(n, d), Rem(n, d);
    assert (q' - q) * d == r - r';
    if q' > q { MulMono(1, q' - q, d); }
    if q' < q { MulMono(q' - q, -1, d); }
  }

  /** Common factors cancel in a division. */
  lemma QuoRemScale(n: nat, d: nat, c: nat)
    requires d > 0 && c > 0
    ensures c * d > 0
    ensures Quo(c * n, c * d) == Quo(n, d) && Rem(c * n, c * d) == c * Rem(n, d)
  {
    hide Quo, Rem;
    QuoRem(n, d);
    var q, r := Quo(n, d), Rem(n, d);
    MulMono(1, c, d);
    MulMono(r + 1, d, c);
    assert c * n == q * (c * d) + c * r;
    QuoRemUnique(c * n, c * d, q, c * r);
  }
}
