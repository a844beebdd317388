/** Numbers written as base-2^16 digits, most significant digit first, as `__qdivrem` stores them. */
module Digits {
  import opened Bits

  const B: nat := 0x1_0000
  const WORD: nat := 0x1_0000_0000

  function PowB(k: nat): (r: nat)
    ensures r >= 1
  {
    if k == 0 then 1 else B * PowB(k - 1)
  }

  ghost predicate AllDigits(s: seq<nat>) {
    forall i :: 0 <= i < |s| ==> s[i] < B
  }

  /** The number a digit sequence denotes. */
  function Val(s: seq<nat>): nat {
    if s == [] then 0 else Val(s[..|s| - 1]) * B + s[|s| - 1]
  }

  /** The macro COMBINE: `(a << 16) | b` in 32-bit words. */
  function Combine(a: nat, b: nat): (r: nat)
    requires b < B
    ensures a < B ==> r == a * B + b
  {
    assert a < B ==> (a * B) % WORD == a * B;
    assert Or((a * B) % WORD, b) == (a * B) % WORD + b by {
      var hi := (a * B) % WORD;
      assert hi == (hi / B) * B by { assert hi % B == 0 by { WrapKeepsLowDigit(a); } }
      assert Pow2(16) == B by { Pow2Of16(); }
      DisjointOr(hi / B, 16, b);
    }
    Or((a * B) % WORD, b)
  }

  lemma WrapKeepsLowDigit(a: nat)
    ensures ((a * B) % WORD) % B == 0
  {
    assert a * B == (a / B) * WORD + (a % B) * B;
    assert (a * B) % WORD == (a % B) * B;
  }

  lemma Pow2Of16()
    ensures Pow2(16) == B
  {
    assert Pow2(4) == 16;
    Pow2Add(4, 4);
    Pow2Add(8, 8);
  }

  /** `2^sh` and `2^(16-sh)` multiply to the base. */
  lemma SplitBase(sh: nat)
    requires sh <= 16
    ensures Pow2(sh) * Pow2(16 - sh) == B
  {
    Pow2Add(sh, 16 - sh);
    Pow2Of16();
  }

  lemma {:induction false} ValBound(s: seq<nat>)
    requires AllDigits(s)
    ensures Val(s) < PowB(|s|)
  {
    if s != [] {
      ValBound(s[..|s| - 1]);
    }
  }

  lemma {:induction false} PowBAdd(i: nat, j: nat)
    ensures PowB(i + j) == PowB(i) * PowB(j)
  {
    if i == 0 {
    } else {
      PowBAdd(i - 1, j);
      assert PowB(i + j) == B * (PowB(i - 1) * PowB(j));
    }
  }

  lemma ConcatStep(v: nat, p: nat, w: nat, x: nat)
    ensures (v * p + w) * B + x == v * (B * p) + (w * B + x)
  {
  }

  /** Concatenation is a shift and an addition. */
  lemma {:induction false} ValConcat(s: seq<nat>, t: seq<nat>)
    ensures Val(s + t) == Val(s) * PowB(|t|) + Val(t)
  {
    if t == [] {
      assert s + t == s;
    } else {
      var t', x := t[..|t| - 1], t[|t| - 1];
      ValConcat(s, t');
      assert (s + t)[..|s + t| - 1] == s + t';
      ConcatStep(Val(s), PowB(|t'|), Val(t'), x);
    }
  }

  lemma ValLast(s: seq<nat>, x: nat)
    ensures Val(s + [x]) == Val(s) * B + x
  {
    assert (s + [x])[..|s|] == s;
  }

  /** The weight of the leading digit. */
  lemma ValHead(s: seq<nat>)
    requires s != []
    ensures Val(s) == s[0] * PowB(|s| - 1) + Val(s[1..])
  {
    hide Val;
    ValConcat([s[0]], s[1..]);
    assert s == [s[0]] + s[1..];
    OneDigit(s[0]);
    assert [] + [s[0]] == [s[0]];
  }

  lemma OneDigit(x: nat)
    ensures Val([] + [x]) == x
  {
    ValLast([], x);
  }

  lemma SliceHead(s: seq<nat>, lo: nat, hi: nat)
    requires lo < hi <= |s|
    ensures Val(s[lo..hi]) == s[lo] * PowB(hi - lo - 1) + Val(s[lo + 1..hi])
  {
    ValHead(s[lo..hi]);
    assert s[lo..hi][1..] == s[lo + 1..hi];
  }

  lemma SplitVal(s: seq<nat>, lo: nat, mid: nat)
    requires lo <= mid <= |s|
    ensures Val(s[lo..]) == Val(s[lo..mid]) * PowB(|s| - mid) + Val(s[mid..])
  {
    assert s[lo..] == s[lo..mid] + s[mid..];
    ValConcat(s[lo..mid], s[mid..]);
  }

  lemma {:induction false} ValZeros(s: seq<nat>)
    requires forall i :: 0 <= i < |s| ==> s[i] == 0
    ensures Val(s) == 0
  {
    if s != [] {
      ValZeros(s[..|s| - 1]);
    }
  }

  /** A number below `B^(|s|-1)` has a zero leading digit. */
  lemma LeadingZero(s: seq<nat>)
    requires s != [] && Val(s) < PowB(|s| - 1)
    ensures s[0] == 0
  {
    ValHead(s);
    if s[0] > 0 {
      MulMonotone(1, s[0], PowB(|s| - 1));
    }
  }
}
