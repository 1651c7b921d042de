/**
 * Unsigned masks and the bit operations on them.  Only |, & and & ~ are used, none of
 * which can set a bit that no operand has, so 32-bit words never overflow.
 */
module Masks {

  type Bit = n: nat | n < 32

  /** NVBIT, which is 1U << h. */
  function NvBit(h: nat): nat {
    if h == 0 then 1 else 2 * NvBit(h - 1)
  }

  /** Bit h of m is set. */
  predicate Has(m: nat, h: nat) {
    if h == 0 then m % 2 == 1 else Has(m / 2, h - 1)
  }

  /** m | n */
  function Or(m: nat, n: nat): nat {
    if m == 0 then n else 2 * Or(m / 2, n / 2) + (if m % 2 == 1 || n % 2 == 1 then 1 else 0)
  }

  /** m & n */
  function And(m: nat, n: nat): nat {
    if m == 0 then 0 else 2 * And(m / 2, n / 2) + (if m % 2 == 1 && n % 2 == 1 then 1 else 0)
  }

  /** m & ~n */
  function AndNot(m: nat, n: nat): nat {
    if m == 0 then 0 else 2 * AndNot(m / 2, n / 2) + (if m % 2 == 1 && n % 2 == 0 then 1 else 0)
  }

  lemma {:induction false} ZeroHasNone(h: nat)
    ensures !Has(0, h)
  {
    if h > 0 { ZeroHasNone(h - 1); }
  }

  /** A mask other than zero has a bit. */
  lemma {:induction false} SomeBit(m: nat) returns (h: nat)
    requires m != 0
    ensures Has(m, h)
  {
    if m % 2 == 1 {
      h := 0;
    } else {
      h := SomeBit(m / 2);
      h := h + 1;
    }
  }

  lemma {:induction false} HasBit(h: nat, g: nat)
    ensures Has(NvBit(h), g) <==> g == h
  {
    if h == 0 && g > 0 {
      ZeroHasNone(g - 1);
    } else if h > 0 && g > 0 {
      HasBit(h - 1, g - 1);
    }
  }

  lemma {:induction false} HasOr(m: nat, n: nat, h: nat)
    ensures Has(Or(m, n), h) <==> Has(m, h) || Has(n, h)
    decreases h
  {
    if m == 0 {
      ZeroHasNone(h);
    } else if h > 0 {
      HasOr(m / 2, n / 2, h - 1);
    }
  }

  lemma {:induction false} HasAnd(m: nat, n: nat, h: nat)
    ensures Has(And(m, n), h) <==> Has(m, h) && Has(n, h)
    decreases h
  {
    if m == 0 {
      ZeroHasNone(h);
    } else if h > 0 {
      HasAnd(m / 2, n / 2, h - 1);
    }
  }

  lemma {:induction false} HasAndNot(m: nat, n: nat, h: nat)
    ensures Has(AndNot(m, n), h) <==> Has(m, h) && !Has(n, h)
    decreases h
  {
    if m == 0 {
      ZeroHasNone(h);
    } else if h > 0 {
      HasAndNot(m / 2, n / 2, h - 1);
    }
  }

  /** Masking with a single bit. */
  lemma TestBit(m: nat, h: nat)
    ensures And(m, NvBit(h)) != 0 <==> Has(m, h)
    ensures And(NvBit(h), m) != 0 <==> Has(m, h)
  {
    HasBit(h, h);
    TestMask(m, NvBit(h), h);
    TestMask(NvBit(h), m, h);
  }

  lemma TestMask(m: nat, n: nat, h: nat)
    requires m == NvBit(h) || n == NvBit(h)
    ensures And(m, n) != 0 <==> Has(m, h) && Has(n, h)
  {
    HasAnd(m, n, h);
    if And(m, n) != 0 {
      var g := SomeBit(And(m, n));
      HasAnd(m, n, g);
      HasBit(h, g);
    } else {
      ZeroHasNone(h);
    }
  }
}
