/** The address arithmetic of the obstack macros: rounding a pointer up with a
    bit mask, relative to a base pointer or to zero. */
module Alignment {

  /** x & ~a, computed bit by bit. */
  function AndNot(x: nat, a: nat): nat
    decreases x
  {
    if x == 0 then 0
    else 2 * AndNot(x / 2, a / 2) + (if x % 2 == 1 && a % 2 == 0 then 1 else 0)
  }

  predicate PowerOfTwo(n: nat) {
    n == 1 || (n > 1 && n % 2 == 0 && PowerOfTwo(n / 2))
  }

  /** p lies a whole number of alignment units away from b. */
  predicate Congruent(b: nat, p: int, mask: nat) {
    (p - b) % (mask + 1) == 0
  }

  predicate Aligned(p: int, mask: nat) {
    Congruent(0, p, mask)
  }

  /** __BPTR_ALIGN (B, P, A) */
  function BptrAlign(b: nat, p: nat, mask: nat): nat
    requires b <= p
  {
    b + AndNot(p - b + mask, mask)
  }

  /** __PTR_ALIGN (B, P, A).  `narrow` says that PTR_INT_TYPE is narrower than a pointer. */
  function PtrAlign(narrow: bool, b: nat, p: nat, mask: nat): nat
    requires b <= p
  {
    BptrAlign(if narrow then b else 0, p, mask)
  }

  lemma HalvingRemainder(x: nat, m: nat)
    requires m > 0
    ensures x % (2 * m) == 2 * ((x / 2) % m) + x % 2
  {
    var h, q := x / 2, (x / 2) / m;
    assert x == (2 * m) * q + (2 * (h % m) + x % 2);
    UniqueRemainder(x, 2 * m, q, 2 * (h % m) + x % 2);
  }

  /** The only multiple of m strictly between -m and m is zero. */
  lemma SmallMultiple(m: int, d: int)
    requires -m < m * d < m
    ensures d == 0
  {}

  lemma UniqueRemainder(x: int, m: nat, q: int, r: int)
    requires m > 0 && 0 <= r < m && x == m * q + r
    ensures x % m == r
  {
    var q' := x / m;
    assert m * (q - q') == m * q - m * q';
    SmallMultiple(m, q - q');
  }

  /** Masking with ~a rounds down to a multiple of a + 1. */
  lemma {:induction false} AndNotRoundsDown(x: nat, a: nat)
    requires PowerOfTwo(a + 1)
    ensures AndNot(x, a) == x - x % (a + 1)
    decreases x
  {
    if x != 0 {
      if a == 0 {
        AndNotRoundsDown(x / 2, 0);
      } else {
        assert (a + 1) / 2 == a / 2 + 1;
        AndNotRoundsDown(x / 2, a / 2);
        HalvingRemainder(x, a / 2 + 1);
      }
    }
  }

  lemma DivisionIdentity(x: int, m: int)
    requires m > 0
    ensures x - x % m == m * (x / m) && 0 <= x % m < m
  {}

  lemma BptrAlignQuotient(b: nat, p: nat, mask: nat) returns (k: int)
    requires PowerOfTwo(mask + 1) && b <= p
    ensures BptrAlign(b, p, mask) == b + (mask + 1) * k
    ensures p <= BptrAlign(b, p, mask) <= p + mask
  {
    hide AndNot, PowerOfTwo;
    var x := p - b + mask;
    AndNotRoundsDown(x, mask);
    DivisionIdentity(x, mask + 1);
    k := x / (mask + 1);
  }

  lemma CloseMultiples(m: int, k: int, j: int)
    requires 0 <= m * k - m * j < m
    ensures k == j
  {
    assert m * k - m * j == m * (k - j);
    SmallMultiple(m, k - j);
  }

  lemma BptrAlignBelow(b: nat, p: nat, mask: nat, r: int)
    requires PowerOfTwo(mask + 1) && b <= p <= r && Congruent(b, r, mask)
    ensures BptrAlign(b, p, mask) <= r
  {
    var k := BptrAlignQuotient(b, p, mask);
    var j := (r - b) / (mask + 1);
    assert r - b == (mask + 1) * j;
    if r < BptrAlign(b, p, mask) {
      CloseMultiples(mask + 1, k, j);
    }
  }

  /** The mask expression yields the least address at or above p that is
      congruent to b, for every power-of-two alignment. */
  lemma BptrAlignIsLeast(b: nat, p: nat, mask: nat)
    requires PowerOfTwo(mask + 1) && b <= p
    ensures p <= BptrAlign(b, p, mask) <= p + mask
    ensures Congruent(b, BptrAlign(b, p, mask), mask)
    ensures forall r: int :: p <= r && Congruent(b, r, mask) ==> BptrAlign(b, p, mask) <= r
  {
    var k := BptrAlignQuotient(b, p, mask);
    UniqueRemainder((mask + 1) * k, mask + 1, k, 0);
    forall r: int | p <= r && Congruent(b, r, mask)
      ensures BptrAlign(b, p, mask) <= r
    {
      BptrAlignBelow(b, p, mask, r);
    }
  }

  /** An address that is already congruent stays where it is. */
  lemma BptrAlignFixes(b: nat, p: nat, mask: nat)
    requires PowerOfTwo(mask + 1) && b <= p && Congruent(b, p, mask)
    ensures BptrAlign(b, p, mask) == p
  {
    BptrAlignIsLeast(b, p, mask);
  }

  /** Relative to an aligned base, congruence is plain alignment. */
  lemma CongruentToAligned(b: nat, p: int, mask: nat)
    requires Aligned(b, mask)
    ensures Congruent(b, p, mask) <==> Aligned(p, mask)
  {
    var m := mask + 1;
    var j := b / m;
    assert b == m * j;
    var k, r := (p - b) / m, (p - b) % m;
    assert p == m * (k + j) + r;
    UniqueRemainder(p, m, k + j, r);
  }

  /** From an aligned base, the base-relative and the zero-relative strategies agree. */
  lemma StrategiesAgree(b: nat, p: nat, mask: nat)
    requires PowerOfTwo(mask + 1) && b <= p && Aligned(b, mask)
    ensures PtrAlign(true, b, p, mask) == PtrAlign(false, b, p, mask)
  {
    BptrAlignIsLeast(b, p, mask);
    BptrAlignIsLeast(0, p, mask);
    CongruentToAligned(b, BptrAlign(b, p, mask), mask);
    CongruentToAligned(b, BptrAlign(0, p, mask), mask);
  }

  function Exp2(k: nat): nat {
    if k == 0 then 1 else 2 * Exp2(k - 1)
  }

  /** Every power of two is a possible alignment. */
  lemma {:induction false} EveryPowerOfTwo(k: nat)
    ensures Exp2(k) > 0 && PowerOfTwo(Exp2(k))
  {
    if k > 0 {
      EveryPowerOfTwo(k - 1);
    }
  }

  /** __PTR_ALIGN yields the least address at or above P that is congruent to
      the base it goes by, and pads by less than one unit. */
  lemma PtrAlignIsLeast(narrow: bool, b: nat, p: nat, mask: nat)
    requires PowerOfTwo(mask + 1) && b <= p
    ensures var q, base := PtrAlign(narrow, b, p, mask), if narrow then b else 0;
            && p <= q <= p + mask && Congruent(base, q, mask)
            && forall r: int :: p <= r && Congruent(base, r, mask) ==> q <= r
  {
    BptrAlignIsLeast(if narrow then b else 0, p, mask);
  }
}
