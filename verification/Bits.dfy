/** Powers of two and the bitwise operators of C on non-negative integers.
    Machine words are modelled as integers below 2^32; the operators are defined
    bit by bit, so every use of `|`, `&` or a shift is reasoned about and not assumed. */
module Bits {

  function Pow2(k: nat): (r: nat)
    ensures r >= 1
  {
    if k == 0 then 1 else 2 * Pow2(k - 1)
  }

  /** The C expression `x << k`, before it is cut to a word. */
  function ShiftUp(x: nat, k: nat): nat
    decreases k
  {
    if k == 0 then x else ShiftUp(2 * x, k - 1)
  }

  /** The C expression `x >> k`. */
  function ShiftDown(x: nat, k: nat): nat
    decreases k
  {
    if k == 0 then x else ShiftDown(x / 2, k - 1)
  }

  /** Bit `i` of `x`. */
  predicate Bit(x: nat, i: nat) {
    if i == 0 then x % 2 == 1 else Bit(x / 2, i - 1)
  }

  /** The C expression `a | b`. */
  function Or(a: nat, b: nat): (r: nat) {
    if a == 0 && b == 0 then 0
    else (if a % 2 == 1 || b % 2 == 1 then 1 else 0) + 2 * Or(a / 2, b / 2)
  }

  /** The C expression `a & ~b`. */
  function AndNot(a: nat, b: nat): (r: nat) {
    if a == 0 then 0
    else (if a % 2 == 1 && b % 2 == 0 then 1 else 0) + 2 * AndNot(a / 2, b / 2)
  }

  lemma {:induction false} Pow2Add(i: nat, j: nat)
    ensures Pow2(i + j) == Pow2(i) * Pow2(j)
  {
    if i == 0 {
    } else {
      Pow2Add(i - 1, j);
      assert Pow2(i + j) == 2 * Pow2(i - 1 + j);
    }
  }

  lemma {:induction false} Pow2Monotone(i: nat, j: nat)
    requires i <= j
    ensures Pow2(i) <= Pow2(j)
    decreases j
  {
    if i < j {
      Pow2Monotone(i, j - 1);
    }
  }

  lemma {:induction false} ShiftUpIsProduct(x: nat, k: nat)
    ensures ShiftUp(x, k) == x * Pow2(k)
    decreases k
  {
    if k > 0 {
      ShiftUpIsProduct(2 * x, k - 1);
      ScaleStep(x, k - 1);
    }
  }

  lemma {:induction false} ShiftDownIsQuotient(x: nat, k: nat)
    ensures ShiftDown(x, k) == x / Pow2(k)
    decreases k
  {
    if k > 0 {
      ShiftDownIsQuotient(x / 2, k - 1);
      HalveThenDivide(x, Pow2(k - 1));
    }
  }

  lemma HalveThenDivide(x: nat, p: nat)
    requires p > 0
    ensures (x / 2) / p == x / (2 * p)
  {
    var q := (x / 2) / p;
    assert q * p <= x / 2 < (q + 1) * p;
    assert q * (2 * p) <= x < (q + 1) * (2 * p);
    QuotientIs(x, 2 * p, q);
  }

  lemma MulMonotone(a: nat, b: nat, p: nat)
    requires a <= b
    ensures a * p <= b * p
  {
    assert (b - a) * p >= 0;
  }

  lemma QuotientIs(x: nat, p: nat, q: nat)
    requires p > 0 && q * p <= x < (q + 1) * p
    ensures x / p == q && x % p == x - q * p
  {
    var k := x / p;
    assert k * p <= x < (k + 1) * p;
    if k < q {
      MulMonotone(k + 1, q, p);
      assert false;
    } else if k > q {
      MulMonotone(q + 1, k, p);
      assert false;
    }
  }

  lemma ModAdd(n: nat, k: nat, w: nat)
    requires w > 0
    ensures (n % w + k) % w == (n + k) % w
  {
    var p, q := n / w, (n % w + k) / w;
    assert (p + q) * w == p * w + q * w;
    assert (p + q + 1) * w == p * w + q * w + w;
    QuotientIs(n + k, w, p + q);
  }

  /** Multiplying by an odd/even split: the step every shift proof takes. */
  lemma ScaleStep(x: nat, k: nat)
    ensures x * Pow2(k + 1) == 2 * (x * Pow2(k))
    ensures x * Pow2(k + 1) / 2 == x * Pow2(k)
  {
    assert Pow2(k + 1) == 2 * Pow2(k);
    assert x * (2 * Pow2(k)) == 2 * (x * Pow2(k));
  }

  /** `|` of a number shifted left by `k` and one below `2^k` is their sum. */
  lemma {:induction false} DisjointOr(x: nat, k: nat, y: nat)
    requires y < Pow2(k)
    ensures Or(x * Pow2(k), y) == x * Pow2(k) + y
  {
    if k == 0 {
      OrZero(x);
    } else {
      ScaleStep(x, k - 1);
      DisjointOr(x, k - 1, y / 2);
    }
  }

  lemma {:induction false} OrZero(x: nat)
    ensures Or(x, 0) == x
  {
    if x > 0 {
      OrZero(x / 2);
    }
  }

  lemma {:induction false} OrCommutes(a: nat, b: nat)
    ensures Or(a, b) == Or(b, a)
  {
    if !(a == 0 && b == 0) {
      OrCommutes(a / 2, b / 2);
    }
  }

  lemma {:induction false} ZeroHasNoBits(i: nat)
    ensures !Bit(0, i)
  {
    if i > 0 {
      ZeroHasNoBits(i - 1);
    }
  }

  lemma {:induction false} OrBit(a: nat, b: nat, i: nat)
    ensures Bit(Or(a, b), i) <==> Bit(a, i) || Bit(b, i)
  {
    if a == 0 && b == 0 {
      ZeroHasNoBits(i);
    } else if i > 0 {
      OrBit(a / 2, b / 2, i - 1);
    }
  }

  lemma {:induction false} AndNotBit(a: nat, b: nat, i: nat)
    ensures Bit(AndNot(a, b), i) <==> Bit(a, i) && !Bit(b, i)
  {
    if a == 0 {
      ZeroHasNoBits(i);
    } else if i > 0 {
      AndNotBit(a / 2, b / 2, i - 1);
    }
  }

  lemma {:induction false} Pow2Bit(p: nat, i: nat)
    ensures Bit(Pow2(p), i) <==> i == p
  {
    if p == 0 {
      if i > 0 {
        ZeroHasNoBits(i - 1);
      }
    } else if i > 0 {
      Pow2Bit(p - 1, i - 1);
    }
  }

  /** Words stay words: `|` and `& ~` never reach past the width of their operands. */
  lemma {:induction false} OrBound(a: nat, b: nat, k: nat)
    requires a < Pow2(k) && b < Pow2(k)
    ensures Or(a, b) < Pow2(k)
  {
    if k > 0 && !(a == 0 && b == 0) {
      OrBound(a / 2, b / 2, k - 1);
    }
  }

  lemma {:induction false} AndNotBound(a: nat, b: nat)
    ensures AndNot(a, b) <= a
  {
    if a > 0 {
      AndNotBound(a / 2, b / 2);
    }
  }

  lemma {:induction false} BitBound(x: nat, k: nat, i: nat)
    requires x < Pow2(k) && Bit(x, i)
    ensures i < k
  {
    if k == 0 {
      ZeroHasNoBits(i);
    } else if i > 0 {
      BitBound(x / 2, k - 1, i - 1);
    }
  }

  /** Two numbers with the same bits are equal. */
  lemma {:induction false} SameBits(a: nat, b: nat)
    requires forall i: nat :: Bit(a, i) <==> Bit(b, i)
    ensures a == b
  {
    if a == 0 && b == 0 {
    } else {
      assert Bit(a, 0) <==> Bit(b, 0);
      forall i: nat ensures Bit(a / 2, i) <==> Bit(b / 2, i) {
        assert Bit(a, i + 1) <==> Bit(b, i + 1);
      }
      SameBits(a / 2, b / 2);
    }
  }

  // ----- positions of bits

  /** `bsf`: the position of the lowest bit that is set. */
  function Bsf(x: nat): (i: nat)
    requires x > 0
    decreases x
  {
    if x % 2 == 1 then 0 else 1 + Bsf(x / 2)
  }

  lemma {:induction false} BsfIsLowest(x: nat, i: nat)
    requires x > 0
    ensures Bit(x, Bsf(x))
    ensures i < Bsf(x) ==> !Bit(x, i)
    decreases x
  {
    if x % 2 == 0 {
      BsfIsLowest(x / 2, if i > 0 then i - 1 else 0);
    }
  }

  /** The position of the highest bit that is set. */
  function TopBit(x: nat): (h: nat)
    requires x > 0
    decreases x
  {
    if x == 1 then 0 else 1 + TopBit(x / 2)
  }

  lemma {:induction false} TopBitBounds(x: nat)
    requires x > 0
    ensures Pow2(TopBit(x)) <= x < Pow2(TopBit(x) + 1) && Bit(x, TopBit(x))
    decreases x
  {
    if x > 1 {
      TopBitBounds(x / 2);
    }
  }

  lemma {:induction false} ShiftDownBit(x: nat, k: nat, i: nat)
    ensures Bit(ShiftDown(x, k), i) <==> Bit(x, i + k)
    decreases k
  {
    if k > 0 {
      ShiftDownBit(x / 2, k - 1, i);
    }
  }

  /** `2^k - 1` has exactly the bits below `k`. */
  lemma {:induction false} OnesBit(k: nat, i: nat)
    ensures Bit(Pow2(k) - 1, i) <==> i < k
  {
    if k == 0 {
      ZeroHasNoBits(i);
    } else if i > 0 {
      assert (Pow2(k) - 1) / 2 == Pow2(k - 1) - 1;
      OnesBit(k - 1, i - 1);
    }
  }

  /** Setting the next bit of a run of ones. */
  lemma OnesGrow(k: nat)
    ensures Or(Pow2(k) - 1, Pow2(k)) == Pow2(k + 1) - 1
  {
    DisjointOr(1, k, Pow2(k) - 1);
    OrCommutes(Pow2(k), Pow2(k) - 1);
  }
}
