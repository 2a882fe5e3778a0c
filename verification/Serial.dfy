// Sequence numbers of 32 bits, compared around the wrap as in section 3.2 of RFC 1982.
module Serial {
  const MODULUS := 0x1_0000_0000
  const HALF := 0x8000_0000

  type uint32 = n: int | 0 <= n < 0x1_0000_0000

  // Unsigned subtraction, which wraps.
  function Minus(a: uint32, b: uint32): uint32 {
    (a - b) % MODULUS
  }

  predicate SeqGt(s1: uint32, s2: uint32) {
    (s1 > s2 && s1 - s2 <= 0x7FFF_FFFF) || (s1 < s2 && s2 - s1 > 0x7FFF_FFFF)
  }

  // The 32-bit form of a count that has no bound.
  function Wire(n: nat): uint32 {
    n % MODULUS
  }

  // The definition of RFC 1982, which leaves pairs at distance HALF undefined.
  predicate SerialGreater(s1: uint32, s2: uint32) {
    (s1 < s2 && s2 - s1 > HALF) || (s1 > s2 && s1 - s2 < HALF)
  }

  // The comparison extends that of the RFC: at distance HALF the smaller number is the
  // greater one, so that any two different numbers are ordered one way only.
  lemma SeqGtExtendsSerialGreater(s1: uint32, s2: uint32)
    ensures SeqGt(s1, s2) <==> SerialGreater(s1, s2) || s2 - s1 == HALF
    ensures s1 != s2 ==> (SeqGt(s1, s2) <==> !SeqGt(s2, s1))
    ensures !SeqGt(s1, s1)
  {
  }

  // Less than HALF apart, counts are ordered by their wire forms, and the wrapped
  // difference is the true one.
  lemma SeqGtOrdersNeighbours(a: nat, b: nat)
    requires -HALF < a - b < HALF
    ensures SeqGt(Wire(a), Wire(b)) <==> a > b
    ensures a >= b ==> Minus(Wire(a), Wire(b)) == a - b
    ensures a < b ==> Minus(Wire(a), Wire(b)) == MODULUS - (b - a)
  {
    var qa, qb := a / MODULUS, b / MODULUS;
    assert a == qa * MODULUS + Wire(a) && b == qb * MODULUS + Wire(b);
    assert qa == qb || qa == qb + 1 || qb == qa + 1;
  }
}
