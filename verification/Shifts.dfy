/** Shifting a digit sequence left or right by less than one digit (steps D1 and D8 of Algorithm D). */
module Shifts {
  import opened Bits
  import opened Digits

  /** `a * s + lo` with `a` and `lo` below the two factors of the base: the parts a shifted digit is made of. */
  lemma OrOfParts(a: nat, t: nat, s: nat, k: nat, lo: nat)
    requires s == Pow2(k) && s * t == B && a < t && lo < s
    ensures Or(a * s, lo) == a * s + lo < B
  {
    DisjointOr(a, k, lo);
    MulMonotone(a + 1, t, s);
  }

  /** Shifting `x` left by `log2 s` and keeping one digit keeps the low bits of `x`. */
  lemma HighPart(x: nat, s: nat, t: nat)
    requires s * t == B && t > 0
    ensures x * s == (x % t) * s + (x / t) * B
    ensures (x * s) % B == (x % t) * s
  {
    var a, b := x / t, x % t;
    assert x == a * t + b;
    assert (a * t + b) * s == a * (s * t) + b * s;
    assert b * s < B by { MulMonotone(b + 1, t, s); }
    QuotientIs(x * s, B, a);
  }

  lemma LowPart(y: nat, s: nat, t: nat)
    requires s * t == B && t > 0 && y < B
    ensures y / t < s
  {
    assert (y / t) * t <= y;
    if y / t >= s {
      MulMonotone(s, y / t, t);
    }
  }

  /** One digit shifted left and cut to 16 bits, and what it carries into the digit before it. */
  lemma ShiftedDigit(x: nat, sh: nat)
    requires x < B && sh <= 16
    ensures var s, t := Pow2(sh), Pow2(16 - sh);
            (ShiftUp(x, sh) % WORD) % B == (x % t) * s && x * s == (x % t) * s + (x / t) * B
  {
    hide Pow2, ShiftUp;
    var s, t := Pow2(sh), Pow2(16 - sh);
    SplitBase(sh);
    ShiftUpIsProduct(x, sh);
    HighPart(x, s, t);
    Pow2Monotone(sh, 16);
    Pow2Of16();
    SmallProduct(x, s, x * s);
  }

  lemma SmallProduct(x: nat, s: nat, p: nat)
    requires x < B && s <= B && p == x * s
    ensures p < WORD && p % WORD == p
  {
    MulMonotone(x, B - 1, s);
    MulMonotone(s, B, B - 1);
  }

  // ----- left shift

  /** The digit `shl` stores for `x` followed by `y`: `LHALF(x << sh) | (y >> (16 - sh))`. */
  function ShlDigit(x: nat, y: nat, sh: nat): (r: nat)
    requires x < B && y < B && 0 < sh < 16
    ensures r < B
  {
    ShlDigitIsSum(x, y, sh);
    Or((ShiftUp(x, sh) % WORD) % B, ShiftDown(y, 16 - sh))
  }

  lemma ShlDigitIsSum(x: nat, y: nat, sh: nat)
    requires x < B && y < B && 0 < sh < 16
    ensures Or((ShiftUp(x, sh) % WORD) % B, ShiftDown(y, 16 - sh))
            == (x % Pow2(16 - sh)) * Pow2(sh) + y / Pow2(16 - sh) < B
  {
    var s, t := Pow2(sh), Pow2(16 - sh);
    ShiftedDigit(x, sh);
    ShiftDownIsQuotient(y, 16 - sh);
    SplitBase(sh);
    LowPart(y, s, t);
    OrOfParts(x % t, t, s, sh, y / t);
  }

  function Shl(s: seq<nat>, sh: nat): (r: seq<nat>)
    requires AllDigits(s) && 0 < sh < 16
    ensures |r| == |s| && AllDigits(r)
  {
    if s == [] then []
    else [ShlDigit(s[0], if |s| > 1 then s[1] else 0, sh)] + Shl(s[1..], sh)
  }

  lemma {:induction false} ShlAt(s: seq<nat>, sh: nat, k: nat)
    requires AllDigits(s) && 0 < sh < 16 && k < |s|
    ensures Shl(s, sh)[k] == ShlDigit(s[k], if k + 1 < |s| then s[k + 1] else 0, sh)
  {
    if k > 0 {
      ShlAt(s[1..], sh, k - 1);
    }
  }

  /** What falls out of the leading digit, plus the shifted number, is the number times `2^sh`. */
  lemma {:induction false} ShlVal(s: seq<nat>, sh: nat)
    requires AllDigits(s) && 0 < sh < 16 && s != []
    ensures Val(Shl(s, sh)) + ShiftDown(s[0], 16 - sh) * PowB(|s|) == Val(s) * Pow2(sh)
  {
    var next := if |s| > 1 then s[1] else 0;
    ShlFirst(s[0], next, sh);
    assert Shl(s, sh)[1..] == Shl(s[1..], sh);
    var rest, carry := Val(Shl(s[1..], sh)), ShiftDown(next, 16 - sh);
    assert rest + carry * PowB(|s| - 1) == Val(s[1..]) * Pow2(sh) by {
      if |s| > 1 {
        ShlVal(s[1..], sh);
      } else {
        ShiftDownIsQuotient(0, 16 - sh);
        assert rest == 0 && carry == 0 && Val(s[1..]) == 0;
      }
    }
    ValHead(Shl(s, sh));
    ValHead(s);
    ShlValStep(s[0], Pow2(sh), ShlDigit(s[0], next, sh), ShiftDown(s[0], 16 - sh), carry,
               PowB(|s| - 1), rest, Val(s[1..]));
  }

  lemma ShlFirst(x: nat, y: nat, sh: nat)
    requires x < B && y < B && 0 < sh < 16
    ensures x * Pow2(sh) + ShiftDown(y, 16 - sh) == ShlDigit(x, y, sh) + ShiftDown(x, 16 - sh) * B
  {
    ShiftedDigit(x, sh);
    ShlDigitIsSum(x, y, sh);
    ShiftDownIsQuotient(x, 16 - sh);
    ShiftDownIsQuotient(y, 16 - sh);
  }

  lemma ShlValStep(x: nat, m: nat, r: nat, c: nat, c': nat, p: nat, shifted: nat, v: nat)
    requires x * m + c' == r + c * B
    requires shifted + c' * p == v * m
    ensures r * p + shifted + c * (B * p) == (x * p + v) * m
  {
    assert (x * p + v) * m == (x * m) * p + v * m;
    assert (x * m + c') * p == (x * m) * p + c' * p;
    assert (r + c * B) * p == r * p + c * (B * p);
  }

  lemma ShlLastDigit(x: nat, sh: nat)
    requires x < B && 0 < sh < 16
    ensures ShlDigit(x, 0, sh) == (ShiftUp(x, sh) % WORD) % B
  {
    ShiftDownIsQuotient(0, 16 - sh);
    OrZero((ShiftUp(x, sh) % WORD) % B);
  }

  /** `shl`: shift the `len+1` digits from offset `o` left by `sh` bits, in place. */
  method ShiftLeft(p: array<nat>, o: nat, len: nat, sh: nat)
    requires o + len < p.Length && AllDigits(p[..]) && 0 < sh < 16
    modifies p
    ensures AllDigits(p[..])
    ensures p[..] == old(p[..])[..o] + Shl(old(p[..])[o..o + len + 1], sh) + old(p[..])[o + len + 1..]
  {
    ghost var p0 := p[..];
    ghost var s := p0[o..o + len + 1];
    var i: nat := 0;
    while i < len
      invariant 0 <= i <= len
      invariant forall k :: 0 <= k < p.Length && !(o <= k < o + i) ==> p[k] == p0[k]
      invariant forall k :: 0 <= k < i ==> p[o + k] == Shl(s, sh)[k]
    {
      ShlAt(s, sh, i);
      p[o + i] := ShlDigit(p[o + i], p[o + i + 1], sh);
      i := i + 1;
    }
    ShlAt(s, sh, len);
    ShlLastDigit(p[o + len], sh);
    p[o + len] := (ShiftUp(p[o + len], sh) % WORD) % B;
    ghost var r := p0[..o] + Shl(s, sh) + p0[o + len + 1..];
    forall k | 0 <= k < p.Length ensures p[k] == r[k] {
      if o <= k <= o + len {
        assert r[k] == Shl(s, sh)[k - o];
        assert k < o + len ==> p[o + (k - o)] == Shl(s, sh)[k - o];
      }
    }
    assert p[..] == r;
  }

  // ----- right shift

  /** The digit the remainder loop stores for `x` preceded by `y`: `(x >> d) | LHALF(y << (16 - d))`. */
  function ShrDigit(x: nat, y: nat, d: nat): (r: nat)
    requires x < B && y < B && 0 < d < 16
    ensures r < B
  {
    ShrDigitIsSum(x, y, d);
    Or(ShiftDown(x, d), (ShiftUp(y, 16 - d) % WORD) % B)
  }

  lemma ShrDigitIsSum(x: nat, y: nat, d: nat)
    requires x < B && y < B && 0 < d < 16
    ensures Or(ShiftDown(x, d), (ShiftUp(y, 16 - d) % WORD) % B)
            == x / Pow2(d) + (y % Pow2(d)) * Pow2(16 - d) < B
  {
    hide Pow2, ShiftUp, ShiftDown, Or;
    var s, t := Pow2(16 - d), Pow2(d);
    ShiftedDigit(y, 16 - d);
    ShiftDownIsQuotient(x, d);
    SplitBase(d);
    LowPart(x, s, t);
    OrOfParts(y % t, t, s, 16 - d, x / t);
    OrCommutes(x / t, (y % t) * s);
  }

  /** The digits after the first, each taking its high bits from the digit before it. */
  function Shr(s: seq<nat>, d: nat): (r: seq<nat>)
    requires s != [] && AllDigits(s) && 0 < d < 16
    ensures |r| == |s| - 1 && AllDigits(r)
  {
    if |s| == 1 then []
    else Shr(s[..|s| - 1], d) + [ShrDigit(s[|s| - 1], s[|s| - 2], d)]
  }

  lemma {:induction false} ShrAt(s: seq<nat>, d: nat, k: nat)
    requires AllDigits(s) && 0 < d < 16 && 0 < k < |s|
    ensures Shr(s, d)[k - 1] == ShrDigit(s[k], s[k - 1], d)
  {
    if k < |s| - 1 {
      ShrAt(s[..|s| - 1], d, k);
    }
  }

  /** With a zero leading digit, the shift right is the exact integer quotient by `2^d`. */
  lemma ShrVal(s: seq<nat>, d: nat)
    requires s != [] && AllDigits(s) && 0 < d < 16 && s[0] == 0
    ensures Val(Shr(s, d)) == Val(s) / Pow2(d)
  {
    hide Val, Pow2, Shr;
    ShrQuotient(s, d);
  }

  function Quotient(x: nat, p: nat): nat
    requires p > 0
  {
    x / p
  }

  lemma {:induction false} ShrQuotient(s: seq<nat>, d: nat)
    requires s != [] && AllDigits(s) && 0 < d < 16 && s[0] == 0
    ensures Val(Shr(s, d)) == Quotient(Val(s), Pow2(d))
  {
    hide Val, Pow2, ShrDigit, Quotient;
    if |s| == 1 {
      ShrOfZero(s, d);
    } else {
      var a := s[..|s| - 1];
      var x, y := s[|s| - 1], s[|s| - 2];
      ShrQuotient(a, d);
      assert s == a + [x];
      ValLast(a, x);
      assert a == a[..|a| - 1] + [y];
      ValLast(a[..|a| - 1], y);
      ShrLast(Val(a), Val(a[..|a| - 1]), x, y, d);
      ValLast(Shr(a, d), ShrDigit(x, y, d));
    }
  }

  lemma ShrOfZero(s: seq<nat>, d: nat)
    requires |s| == 1 && AllDigits(s) && 0 < d < 16 && s[0] == 0
    ensures Val(Shr(s, d)) == Quotient(Val(s), Pow2(d))
  {
    ValZeros(s);
  }

  lemma ShrLast(a: nat, a': nat, x: nat, y: nat, d: nat)
    requires x < B && y < B && 0 < d < 16 && a == a' * B + y
    ensures Quotient(a, Pow2(d)) * B + ShrDigit(x, y, d) == Quotient(a * B + x, Pow2(d))
  {
    SplitBase(d);
    ShrDigitIsSum(x, y, d);
    LowBits(a', y, Pow2(d), Pow2(16 - d));
    ShrValStep(a, x, Pow2(d), Pow2(16 - d));
  }

  lemma LowBits(a: nat, y: nat, s: nat, t: nat)
    requires s * t == B && s > 0
    ensures (a * B + y) % s == y % s
  {
    var k := a * t + y / s;
    assert (a * t) * s == a * B;
    assert k * s == (a * t) * s + (y / s) * s;
    QuotientIs(a * B + y, s, k);
  }

  lemma ShrValStep(a: nat, x: nat, s: nat, t: nat)
    requires s * t == B && s > 0
    ensures (a * B + x) / s == (a / s) * B + (x / s + (a % s) * t)
  {
    var q, r := a / s, a % s;
    assert a == q * s + r;
    assert (q * s + r) * B == (q * B) * s + (r * t) * s;
    assert x == (x / s) * s + x % s;
    var k := q * B + r * t + x / s;
    assert k * s == (q * B) * s + (r * t) * s + (x / s) * s;
    QuotientIs(a * B + x, s, k);
  }

  /** The remainder loop: shift the digits `u[o..o+n]` right by `d` bits, in place, from the last to
      the first; the digit at `o` is then cleared. */
  method ShiftRight(u: array<nat>, o: nat, n: nat, d: nat)
    requires o + n < u.Length && AllDigits(u[..]) && 0 < d < 16
    modifies u
    ensures AllDigits(u[..])
    ensures u[..] == old(u[..])[..o] + [0] + Shr(old(u[..])[o..o + n + 1], d) + old(u[..])[o + n + 1..]
  {
    ghost var u0 := u[..];
    ghost var s := u0[o..o + n + 1];
    var i: nat := n;
    while i > 0
      invariant 0 <= i <= n
      invariant forall k :: 0 <= k < u.Length && !(o + i < k <= o + n) ==> u[k] == u0[k]
      invariant forall k :: i <= k < n ==> u[o + k + 1] == Shr(s, d)[k]
    {
      ShrAt(s, d, i);
      u[o + i] := ShrDigit(u[o + i], u[o + i - 1], d);
      i := i - 1;
    }
    u[o] := 0;
    ghost var r := u0[..o] + [0] + Shr(s, d) + u0[o + n + 1..];
    forall k | 0 <= k < u.Length ensures u[k] == r[k] {
      if o < k <= o + n {
        assert r[k] == Shr(s, d)[k - o - 1];
        assert u[o + (k - o - 1) + 1] == Shr(s, d)[k - o - 1];
      }
    }
    assert u[..] == r;
  }
}
