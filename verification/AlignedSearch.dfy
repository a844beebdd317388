/** The address arithmetic of aligned allocation: raising an address bit by bit to the next one with
    given low bits. */
module AlignedSearch {
  import opened Bits

  /** `x` and `ofs` agree in their low `bits` bits. */
  predicate Congruent(x: nat, ofs: nat, bits: nat)
    decreases bits
  {
    bits == 0 || (x % 2 == ofs % 2 && Congruent(x / 2, ofs / 2, bits - 1))
  }

  /** Agreeing in the low bits is congruence modulo a power of two. */
  lemma {:induction false} CongruentIsModular(x: nat, ofs: nat, bits: nat)
    ensures Congruent(x, ofs, bits) <==> x % Pow2(bits) == ofs % Pow2(bits)
    decreases bits
  {
    if bits > 0 {
      var m := Pow2(bits - 1);
      CongruentIsModular(x / 2, ofs / 2, bits - 1);
      HalfMod(x, m, 2 * m);
      HalfMod(ofs, m, 2 * m);
      hide Congruent;
      SplitEqual(x % (2 * m), (x / 2) % m, x % 2, ofs % (2 * m), (ofs / 2) % m, ofs % 2);
    }
  }

  lemma SplitEqual(a: nat, b: nat, c: nat, a': nat, b': nat, c': nat)
    requires a == 2 * b + c && a' == 2 * b' + c' && c < 2 && c' < 2
    ensures a == a' <==> b == b' && c == c'
  {
  }

  lemma HalfMod(x: nat, m: nat, m2: nat)
    requires m > 0 && m2 == 2 * m
    ensures x % m2 == 2 * ((x / 2) % m) + x % 2
  {
    var q, s := (x / 2) / m, (x / 2) % m;
    HalfModOf(x, m, m2, x / 2, q, s);
  }

  lemma HalfModOf(x: nat, m: nat, m2: nat, h: nat, q: nat, s: nat)
    requires m > 0 && m2 == 2 * m && h == x / 2 && q == h / m && s == h % m
    ensures x % m2 == 2 * s + x % 2
  {
    assert h == q * m + s;
    assert q * m2 == 2 * (q * m);
    assert (q + 1) * m2 == q * m2 + m2;
    QuotientIs(x, m2, q);
  }

  /** Two different numbers that agree in the low bits are at least a power of two apart. */
  lemma {:induction false} NextMultiple(x: nat, y: nat, ofs: nat, bits: nat)
    requires x < y && Congruent(x, ofs, bits) && Congruent(y, ofs, bits)
    ensures x + Pow2(bits) <= y
    decreases bits
  {
    if bits > 0 {
      NextMultiple(x / 2, y / 2, ofs / 2, bits - 1);
    }
  }

  /** The least number at or above `start` that is `ofs` modulo a power of two. */
  function Raise(start: nat, bits: nat, ofs: nat): (a: nat)
    ensures start <= a < start + Pow2(bits)
  {
    start + (ofs - start) % Pow2(bits)
  }

  lemma RaiseIs(start: nat, bits: nat, ofs: nat, x: nat)
    requires start <= x < start + Pow2(bits) && Congruent(x, ofs, bits)
    ensures x == Raise(start, bits, ofs)
  {
    CongruentIsModular(x, ofs, bits);
    OnlyOne(start, Pow2(bits), ofs, x);
  }

  lemma OnlyOne(start: nat, m: nat, ofs: nat, x: nat)
    requires m > 0 && start <= x < start + m && x % m == ofs % m
    ensures x == start + (ofs - start) % m
  {
    var q := ofs / m - x / m;
    assert ofs - start == q * m + (x - start);
    SameRest(ofs - start, m, q, x - start);
  }

  lemma SameRest(d: int, m: nat, q: int, e: nat)
    requires e < m && d == q * m + e
    ensures d % m == e
  {
    var k := d / m - q;
    assert k * m == e - d % m;
    assert k >= 1 ==> k * m >= m;
    assert k <= -1 ==> k * m <= -(m as int);
  }

  /** One turn of the bit loop settles one more bit. */
  lemma {:induction false} SettleBit(addr: nat, ofs: nat, i: nat)
    requires Congruent(addr, ofs, i)
    ensures Bit(addr, i) == Bit(ofs, i) <==> Congruent(addr, ofs, i + 1)
    ensures Bit(addr, i) != Bit(ofs, i) ==> Congruent(addr + Pow2(i), ofs, i + 1)
    decreases i
  {
    if i == 0 {
      assert Congruent((addr + 1) / 2, ofs / 2, 0) && Congruent(addr / 2, ofs / 2, 0);
    } else {
      SettleBit(addr / 2, ofs / 2, i - 1);
      assert (addr + Pow2(i)) / 2 == addr / 2 + Pow2(i - 1) && (addr + Pow2(i)) % 2 == addr % 2;
    }
  }

  lemma {:induction false} Coarser(y: nat, ofs: nat, i: nat)
    requires Congruent(y, ofs, i + 1)
    ensures Congruent(y, ofs, i)
    decreases i
  {
    if i > 0 {
      Coarser(y / 2, ofs / 2, i - 1);
    }
  }

  const WORD: nat := 0x1_0000_0000

  lemma WordIsPow2()
    ensures Pow2(32) == WORD
  {
    assert Pow2(8) == 256;
    Pow2Add(8, 8);
    Pow2Add(16, 16);
  }

  /** Cutting a number to its low bits leaves those bits alone. */
  lemma {:induction false} LowBit(x: nat, k: nat, i: nat)
    requires i < k
    ensures Bit(x % Pow2(k), i) == Bit(x, i)
    decreases k
  {
    var m := Pow2(k - 1);
    HalfMod(x, m, 2 * m);
    SplitHalf(x % (2 * m), (x / 2) % m, x % 2);
    if i > 0 {
      LowBit(x / 2, k - 1, i - 1);
    }
  }

  lemma SplitHalf(a: nat, b: nat, c: nat)
    requires a == 2 * b + c && c < 2
    ensures a / 2 == b && a % 2 == c
  {
  }

  lemma WrapAdd(x: nat, w: nat, p: nat)
    requires w == x % WORD
    ensures (w + p) % WORD == (x + p) % WORD
  {
  }

  /** The bit loop on 32-bit addresses. The word it ends with is the low word of the least address at or
      above `start`, taken without wrap-around, that has the wanted low bits. */
  method NextAligned(start: nat, bits: nat, ofs: nat) returns (addr: nat, ghost exact: nat)
    requires start < WORD && bits <= 32
    ensures addr == exact % WORD && exact == Raise(start, bits, ofs)
    ensures start <= exact < start + Pow2(bits) && Congruent(exact, ofs, bits)
    ensures forall y: nat :: start <= y && Congruent(y, ofs, bits) ==> exact <= y
  {
    hide Congruent, Bit;
    addr, exact := start, start;
    NoBits(start, ofs);
    WordIsPow2();
    for i := 0 to bits
      invariant addr == exact % WORD
      invariant start <= exact < start + Pow2(i) && Congruent(exact, ofs, i)
      invariant forall y: nat :: start <= y && Congruent(y, ofs, i) ==> exact <= y
    {
      ghost var was, n := exact, i + 1;
      SettleBit(exact, ofs, i);
      LowBit(exact, 32, i);
      if Bit(addr, i) != Bit(ofs, i) {
        WrapAdd(exact, addr, Pow2(i));
        addr := (addr + Pow2(i)) % WORD;
        exact := exact + Pow2(i);
      }
      forall y: nat | start <= y && Congruent(y, ofs, n)
        ensures exact <= y
      {
        Coarser(y, ofs, i);
        if exact != was {
          NextMultiple(was, y, ofs, i);
        }
      }
    }
    RaiseIs(start, bits, ofs, exact);
  }

  lemma NoBits(x: nat, ofs: nat)
    ensures Congruent(x, ofs, 0)
  {
  }
}
