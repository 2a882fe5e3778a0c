// Small functions and facts that several parts count with.
module Numbers {
  function Bit(p: bool): nat { if p then 1 else 0 }

  function Pow2(k: nat): (p: nat)
    ensures p > 0
  {
    if k == 0 then 1 else 2 * Pow2(k - 1)
  }

  lemma DivUnique(m: int, d: int, q: int, r: int)
    requires d > 0 && 0 <= r < d && m == q * d + r
    ensures m / d == q
  {
    assert (m / d - q) * d == r - m % d;
    MulAtLeast(m / d - q, d);
  }

  lemma MulAtLeast(e: int, d: int)
    requires d > 0
    ensures e >= 1 ==> e * d >= d
    ensures e <= -1 ==> e * d <= -d
  {
  }
}
