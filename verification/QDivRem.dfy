/** `__qdivrem`: the whole of 64-bit division with remainder, put together from the steps of
    Algorithm D in `Division` and the shifts in `Shifts`. */
module QDivRem {
  import opened Bits
  import opened Digits
  import opened Shifts
  import opened Division

  const QUAD: nat := 0x1_0000_0000_0000_0000

  /** Division by zero raises the machine's divide fault; everything else returns. */
  datatype Outcome = DivideFault | Divided(quotient: nat, remainder: nat)

  // ----- D1: normalisation

  /** The shift that brings the leading divisor digit into the upper half of the digit range. */
  method ChooseShift(v1: nat) returns (d: nat)
    requires 0 < v1 < B
    ensures d < 16 && B / 2 <= v1 * Pow2(d) < B
  {
    d := 0;
    var t := v1;
    while t < B / 2
      invariant v1 <= t == v1 * Pow2(d) < B && d < 16
      decreases B - t
    {
      ScaleStep(v1, d);
      assert d < 15 by {
        if d >= 15 {
          assert Pow2(15) == B / 2 by { Pow2Of16(); }
          MulMonotone(1, v1, Pow2(d));
        }
      }
      t := 2 * t;
      d := d + 1;
    }
  }

  lemma NoCarryOut(x: nat, sh: nat)
    requires x < B && 0 < sh < 16 && x * Pow2(sh) < B
    ensures ShiftDown(x, 16 - sh) == 0
  {
    hide Pow2, ShiftDown;
    SplitBase(sh);
    ShiftDownIsQuotient(x, 16 - sh);
    BelowFactor(x, Pow2(sh), Pow2(16 - sh));
  }

  lemma BelowFactor(x: nat, s: nat, t: nat)
    requires x * s < s * t && t > 0
    ensures x / t == 0
  {
    if x >= t {
      MulMonotone(t, x, s);
      assert false;
    }
  }

  /** When nothing falls out of the leading digit, `Shl` multiplies. */
  lemma ShlMultiplies(s: seq<nat>, sh: nat)
    requires AllDigits(s) && 0 < sh < 16 && s != [] && s[0] * Pow2(sh) < B
    ensures Val(Shl(s, sh)) == Val(s) * Pow2(sh)
  {
    hide Val, Pow2, ShiftDown, Shl;
    ShlVal(s, sh);
    NoCarryOut(s[0], sh);
  }

  lemma ShlGrows(s: seq<nat>, sh: nat)
    requires AllDigits(s) && 0 < sh < 16 && s != [] && s[0] * Pow2(sh) < B
    ensures Shl(s, sh)[0] >= s[0] * Pow2(sh)
  {
    hide Val;
    NoCarryOut(s[0], sh);
    ShlFirst(s[0], if |s| > 1 then s[1] else 0, sh);
  }

  method Normalise(u: array<nat>, uo: nat, v: array<nat>, vo: nat) returns (d: nat)
    requires u != v && uo < u.Length && vo + 1 < v.Length
    requires AllDigits(u[..]) && AllDigits(v[..]) && u[uo] == 0 && v[vo + 1] > 0
    modifies u, v
    ensures AllDigits(u[..]) && AllDigits(v[..]) && d < 16
    ensures u[..uo] == old(u[..uo])
    ensures v[vo + 1] >= B / 2
    ensures Val(u[uo..]) == old(Val(u[uo..])) * Pow2(d)
    ensures Val(v[vo + 1..]) == old(Val(v[vo + 1..])) * Pow2(d)
  {
    hide Val, Shl;
    ghost var u0, v0 := u[..], v[..];
    d := ChooseShift(v[vo + 1]);
    assert u[uo..] == u0[uo..] && v[vo + 1..] == v0[vo + 1..];
    if d > 0 {
      ShlMultiplies(u0[uo..], d);
      ShlMultiplies(v0[vo + 1..], d);
      ShlGrows(v0[vo + 1..], d);
      ShiftLeft(u, uo, u.Length - uo - 1, d);
      assert u0[uo..uo + (u.Length - uo - 1) + 1] == u0[uo..];
      assert u[uo..] == Shl(u0[uo..], d);
      ShiftLeft(v, vo + 1, v.Length - vo - 2, d);
      assert v0[vo + 1..vo + 1 + (v.Length - vo - 2) + 1] == v0[vo + 1..];
      assert v[vo + 1..] == Shl(v0[vo + 1..], d);
      assert u[uo..] == Shl(u0[uo..], d);
    }
  }

  // ----- D2 and D7: the loop over quotient digits

  /** The state after `j` rounds: the quotient digits so far and the digits still in `u` make up the
      dividend `N`, everything before position `j` of `u` is used up, and the partial remainder is
      below the divisor. */
  ghost predicate RoundsDone(N: nat, V: nat, u: seq<nat>, uo: nat, q: seq<nat>, qo: nat, m: nat, n: nat, j: nat)
    requires j <= m + 1 && |u| == uo + m + n + 1 && qo + m < |q|
  {
    && N == (Val(q[qo..qo + j]) * V) * PowB(m + 1 - j) + Val(u[uo + j..])
    && (forall k :: uo <= k < uo + j ==> u[k] == 0)
    && Val(u[uo + j..uo + j + n]) < V
  }

  lemma RoundsStart(u: seq<nat>, uo: nat, q: seq<nat>, qo: nat, m: nat, n: nat, V: nat)
    requires |u| == uo + m + n + 1 && qo + m < |q| && Val(u[uo..uo + n]) < V
    ensures RoundsDone(Val(u[uo..]), V, u, uo, q, qo, m, n, 0)
  {
    assert q[qo..qo + 0] == [];
  }

  lemma RoundArithmetic(Q: nat, V: nat, p: nat, U: nat, qd: nat, r: nat, rest: nat)
    requires U == qd * V + r
    ensures (Q * V) * (B * p) + (U * p + rest) == ((Q * B + qd) * V) * p + (r * p + rest)
  {
    assert (qd * V + r) * p == (qd * V) * p + r * p;
    assert (Q * B + qd) * V == (Q * V) * B + qd * V;
    assert ((Q * V) * B + qd * V) * p == (Q * V) * (B * p) + (qd * V) * p;
  }

  lemma RoundStep(N: nat, V: nat, u: seq<nat>, u': seq<nat>, uo: nat, q: seq<nat>, qo: nat, m: nat, n: nat, j: nat,
                  qd: nat)
    requires j <= m && |u| == |u'| == uo + m + n + 1 && qo + m < |q| && 0 < V < PowB(n)
    requires RoundsDone(N, V, u, uo, q, qo, m, n, j)
    requires forall k :: 0 <= k < |u| && !(uo + j <= k <= uo + j + n) ==> u'[k] == u[k]
    requires var r := Val(u'[uo + j..uo + j + n + 1]); Val(u[uo + j..uo + j + n + 1]) == qd * V + r && r < V
    ensures RoundsDone(N, V, u', uo, q[qo + j := qd], qo, m, n, j + 1)
  {
    hide Val;
    var lo, hi := uo + j, uo + j + n + 1;
    var U, r, p, Q := Val(u[lo..hi]), Val(u'[lo..hi]), PowB(m - j), Val(q[qo..qo + j]);
    RoundWindow(u', lo, hi, V);
    QuotientDigitAdded(q, qo, j, qd);
    assert Val(u'[lo + 1..]) == r * p + Val(u[hi..]) by {
      assert u'[hi..] == u[hi..];
      SplitVal(u', lo + 1, hi);
    }
    assert N == (Q * V) * (B * p) + (U * p + Val(u[hi..])) by { SplitVal(u, lo, hi); }
    RoundArithmetic(Q, V, p, U, qd, r, Val(u[hi..]));
  }

  lemma RoundWindow(u: seq<nat>, lo: nat, hi: nat, V: nat)
    requires lo < hi <= |u| && Val(u[lo..hi]) < V < PowB(hi - lo - 1)
    ensures u[lo] == 0 && Val(u[lo + 1..hi]) == Val(u[lo..hi])
  {
    hide Val;
    LeadingZero(u[lo..hi]);
    SliceHead(u, lo, hi);
  }

  lemma QuotientDigitAdded(q: seq<nat>, qo: nat, j: nat, qd: nat)
    requires qo + j < |q|
    ensures Val(q[qo + j := qd][qo..qo + j + 1]) == Val(q[qo..qo + j]) * B + qd
  {
    hide Val;
    assert q[qo + j := qd][qo..qo + j + 1] == q[qo..qo + j] + [qd];
    ValLast(q[qo..qo + j], qd);
  }

  /** The loop D3-D7: with a normalised divisor, `m + 1` rounds leave the quotient in `q` and the
      remainder in the last `n` digits of `u`. */
  method DivideRounds(u: array<nat>, uo: nat, v: array<nat>, vo: nat, q: array<nat>, qo: nat, m: nat, n: nat)
    requires u != v && q != u && q != v
    requires 2 <= n && u.Length == uo + m + n + 1 && v.Length == vo + n + 1 && qo + m < q.Length
    requires AllDigits(u[..]) && AllDigits(v[..])
    requires v[vo + 1] >= B / 2 && Val(u[uo..uo + n]) < Val(v[vo + 1..])
    modifies u, q
    ensures AllDigits(u[..])
    ensures u[..uo] == old(u[..uo]) && q[..qo] == old(q[..qo]) && q[qo + m + 1..] == old(q[qo + m + 1..])
    ensures AllDigits(q[qo..qo + m + 1])
    ensures forall k :: uo <= k <= uo + m ==> u[k] == 0
    ensures Val(u[uo + m + 1..]) < Val(v[vo + 1..])
    ensures old(Val(u[uo..])) == Val(q[qo..qo + m + 1]) * Val(v[vo + 1..]) + Val(u[uo + m + 1..])
  {
    hide Val, PowB;
    ghost var u0, q0, d := u[..], q[..], v[..];
    ghost var N, V := Val(u0[uo..]), Val(d[vo + 1..]);
    ValBound(d[vo + 1..]);
    assert d[vo + 1..vo + n + 1] == d[vo + 1..];
    assert u[uo..uo + n] == u0[uo..uo + n] && v[vo + 1..] == d[vo + 1..];
    RoundsStart(u0, uo, q0, qo, m, n, V);
    var j: nat := 0;
    while j <= m
      invariant 0 <= j <= m + 1
      invariant v[..] == d && AllDigits(u[..])
      invariant u[..][..uo] == u0[..uo]
      invariant forall k :: 0 <= k < q.Length && !(qo <= k < qo + j) ==> q[k] == q0[k]
      invariant AllDigits(q[..][qo..qo + j])
      invariant RoundsDone(N, V, u[..], uo, q[..], qo, m, n, j)
    {
      ghost var before, qbefore: seq<nat> := u[..], q[..];
      var digit := DivisionRound(u, uo + j, v, vo, n);
      assert v[..] == d;
      RoundStep(N, V, before, u[..], uo, qbefore, qo, m, n, j, digit);
      assert u[..][..uo] == before[..uo];
      q[qo + j] := digit;
      assert q[..] == qbefore[qo + j := digit];
      assert q[..][qo..qo + j + 1] == qbefore[qo..qo + j] + [digit];
      j := j + 1;
    }
    NoMoreDigits();
    assert u[uo + m + 1..] == u[..][uo + (m + 1)..];
    assert u[..][uo + (m + 1)..uo + (m + 1) + n] == u[uo + m + 1..];
    assert q[qo..qo + m + 1] == q[..][qo..qo + (m + 1)];
    assert u[..uo] == u[..][..uo];
  }

  lemma NoMoreDigits()
    ensures PowB(0) == 1
  {
  }

  // ----- the whole algorithm on digit arrays

  lemma SmallLeadingPart(u: seq<nat>, uo: nat, m: nat, n: nat, V: nat, S: nat, u0: seq<nat>)
    requires |u| == |u0| == uo + m + n + 1 && n >= 1 && AllDigits(u) && AllDigits(u0) && u0[uo] == 0
    requires V >= PowB(n - 1) && S >= 1
    requires Val(u[uo..]) == Val(u0[uo..]) * S
    ensures Val(u[uo..uo + n]) < V * S
  {
    hide Val;
    var p := PowB(m + 1);
    SplitVal(u, uo, uo + n);
    SliceHead(u0, uo, |u0|);
    assert u0[uo..|u0|] == u0[uo..];
    ValBound(u0[uo + 1..]);
    assert u0[uo + 1..|u0|] == u0[uo + 1..];
    PowBAdd(n - 1, m + 1);
    LeadingPartBound(Val(u[uo..uo + n]), p, Val(u[uo + n..]), Val(u0[uo..]), S, V, PowB(n - 1));
  }

  lemma LeadingPartBound(lead: nat, p: nat, low: nat, u0: nat, S: nat, V: nat, w: nat)
    requires lead * p + low == u0 * S && u0 < w * p && w <= V && S >= 1
    ensures lead < V * S
  {
    ScaledBound(V, S, p, w);
    MulMonotone(u0 + 1, w * p, S);
    if lead >= V * S {
      MulMonotone(V * S, lead, p);
      assert false;
    }
  }

  lemma ScaledBound(V: nat, S: nat, p: nat, w: nat)
    requires w <= V
    ensures (w * p) * S <= (V * S) * p
  {
    MulMonotone(w, V, S * p);
    assert (V * S) * p == V * (S * p) && (w * p) * S == w * (S * p);
  }

  /** Undoing the normalisation: the quotient is untouched and the remainder is scaled by `S`. */
  lemma Denormalise(u: nat, v: nat, S: nat, q: nat, r: nat)
    requires S >= 1 && v >= 1
    requires u * S == q * (v * S) + r && r < v * S
    ensures u == q * v + r / S && r / S < v
  {
    assert q * (v * S) == (q * v) * S;
    assert r == (u - q * v) * S;
    var k := u - q * v;
    assert k >= 0 by {
      if k < 0 {
        assert (-k) * S >= 1 * S by { MulMonotone(1, -k, S); }
      }
    }
    QuotientIs(r, S, k);
    if k >= v {
      MulMonotone(v, k, S);
      assert false;
    }
  }

  /** Algorithm D on a dividend of `m + n` digits (with a leading zero digit) and a divisor of
      `n >= 2` digits: `q` receives the quotient and `u` is left holding the remainder. */
  method LongDivide(u: array<nat>, uo: nat, v: array<nat>, vo: nat, q: array<nat>, qo: nat, m: nat, n: nat)
    requires u != v && q != u && q != v
    requires 2 <= n && u.Length == uo + m + n + 1 && v.Length == vo + n + 1 && qo + m < q.Length
    requires AllDigits(u[..]) && AllDigits(v[..]) && u[uo] == 0 && v[vo + 1] > 0
    modifies u, v, q
    ensures AllDigits(u[..]) && AllDigits(q[qo..qo + m + 1])
    ensures u[..uo] == old(u[..uo]) && q[..qo] == old(q[..qo])
    ensures Val(u[uo..]) < old(Val(v[vo + 1..]))
    ensures old(Val(u[uo..])) == Val(q[qo..qo + m + 1]) * old(Val(v[vo + 1..])) + Val(u[uo..])
  {
    hide Val, PowB, Pow2;
    ghost var u0, v0 := u[..], v[..];
    ghost var U0, V0 := Val(u[uo..]), Val(v[vo + 1..]);
    var d := Normalise(u, uo, v, vo);
    ghost var S := Pow2(d);
    DivisorBound(v0, vo, n);
    assert v0[vo + 1..] == old(v[vo + 1..]) && u0[uo..] == old(u[uo..]);
    assert u[..][uo..] == u[uo..];
    SmallLeadingPart(u[..], uo, m, n, V0, S, u0);
    assert u[..][uo..uo + n] == u[uo..uo + n];
    DivideRounds(u, uo, v, vo, q, qo, m, n);
    ghost var r := Val(u[uo + m + 1..]);
    Denormalise(U0, V0, S, Val(q[qo..qo + m + 1]), r);
    RemainderPlace(u[..], uo, m, n);
    if d > 0 {
      ghost var u1 := u[..];
      ShiftRight(u, uo + m, n, d);
      RemainderShifted(u1, u[..], uo, m, n, d);
    } else {
      assert S == 1 by { PowZero(); }
    }
    assert u[..][uo..] == u[uo..];
  }

  lemma PowZero()
    ensures Pow2(0) == 1
  {
  }

  lemma DivisorBound(v: seq<nat>, vo: nat, n: nat)
    requires |v| == vo + n + 1 && n >= 1 && v[vo + 1] > 0
    ensures Val(v[vo + 1..]) >= PowB(n - 1)
  {
    ValHead(v[vo + 1..]);
    MulMonotone(1, v[vo + 1], PowB(n - 1));
  }

  lemma RemainderPlace(u: seq<nat>, uo: nat, m: nat, n: nat)
    requires |u| == uo + m + n + 1 && forall k :: uo <= k <= uo + m ==> u[k] == 0
    ensures Val(u[uo..]) == Val(u[uo + m + 1..])
  {
    hide Val;
    SplitVal(u, uo, uo + m + 1);
    ValZeros(u[uo..uo + m + 1]);
  }

  lemma RemainderShifted(u1: seq<nat>, u: seq<nat>, uo: nat, m: nat, n: nat, d: nat)
    requires |u1| == |u| == uo + m + n + 1 && AllDigits(u1) && 0 < d < 16
    requires forall k :: uo <= k <= uo + m ==> u1[k] == 0
    requires u == u1[..uo + m] + [0] + Shr(u1[uo + m..uo + m + n + 1], d) + u1[uo + m + n + 1..]
    ensures Val(u[uo..]) == Val(u1[uo + m + 1..]) / Pow2(d)
    ensures u[..uo] == u1[..uo]
  {
    hide Val;
    var s := u1[uo + m..uo + m + n + 1];
    ShrVal(s, d);
    ValHead(s);
    assert s[1..] == u1[uo + m + 1..];
    RemainderPlace(u, uo, m, n);
    assert u[uo + m + 1..] == Shr(s, d);
  }

  // ----- __qdivrem

  /** The union `uu` read as four digits: the high and low halves of its two words. */
  function Split(x: nat): (r: seq<nat>)
    requires x < QUAD
    ensures |r| == 4 && AllDigits(r) && Val(r) == x
  {
    var hi, lo := x / WORD, x % WORD;
    var r := [hi / B, hi % B, lo / B, lo % B];
    FourDigits(r);
    r
  }

  /** The union `uu` filled from four digits. */
  function Assemble(d: seq<nat>): (x: nat)
    requires |d| == 4 && AllDigits(d)
    ensures x == Val(d)
  {
    FourDigits(d);
    Combine(d[0], d[1]) * WORD + Combine(d[2], d[3])
  }

  lemma FourDigits(d: seq<nat>)
    requires |d| == 4
    ensures Val(d) == (d[0] * B + d[1]) * WORD + (d[2] * B + d[3])
  {
    assert d == ((([] + [d[0]]) + [d[1]]) + [d[2]]) + [d[3]];
    ValLast([], d[0]);
    ValLast([d[0]], d[1]);
    assert [d[0]] + [d[1]] == [d[0], d[1]];
    ValLast([d[0], d[1]], d[2]);
    assert [d[0], d[1]] + [d[2]] == [d[0], d[1], d[2]];
    ValLast([d[0], d[1], d[2]], d[3]);
  }

  /** One digit of the short path: the running remainder and the next digit give a quotient digit
      and the next remainder; `u` and `q` are the numbers read and produced so far. */
  method ShortStep(ghost u: nat, ghost q: nat, r: nat, t: nat, x: nat) returns (digit: nat, r': nat)
    requires u == q * t + r && r < t < B && x < B
    ensures digit < B && r' < t && u * B + x == (q * B + digit) * t + r'
  {
    digit, r' := DivideDigit(r, x, t);
    ShortStepValue(u, q, r, t, x, digit, r');
  }

  method DivideDigit(r: nat, x: nat, t: nat) returns (digit: nat, r': nat)
    requires r < t < B && x < B
    ensures digit < B && r' < t && r * B + x == digit * t + r'
  {
    hide Combine;
    var rbj := Combine(r, x);
    QuotientIsDigit(r, x, t);
    digit, r' := rbj / t, rbj % t;
    DivModIdentity(rbj, t);
  }

  lemma ShortStepValue(u: nat, q: nat, r: nat, t: nat, x: nat, digit: nat, r': nat)
    requires u == q * t + r && r * B + x == digit * t + r'
    ensures u * B + x == (q * B + digit) * t + r'
  {
    assert (q * t) * B == (q * B) * t;
    assert (q * B + digit) * t == (q * B) * t + digit * t;
  }

  /** The one-digit path: schoolbook division of four digits by one. */
  method ShortDivide(u: seq<nat>, t: nat) returns (q: seq<nat>, r: nat)
    requires |u| == 4 && AllDigits(u) && 0 < t < B
    ensures |q| == 4 && AllDigits(q) && Val(u) == Val(q) * t + r && r < t
  {
    hide Val;
    var q1, r1 := u[0] / t, u[0] % t;
    QuotientIsDigit(0, u[0], t);
    var q2, r2 := ShortStep(u[0], q1, r1, t, u[1]);
    ghost var u2, p2 := u[0] * B + u[1], q1 * B + q2;
    var q3, r3 := ShortStep(u2, p2, r2, t, u[2]);
    ghost var u3, p3 := u2 * B + u[2], p2 * B + q3;
    var q4, r4 := ShortStep(u3, p3, r3, t, u[3]);
    q, r := [q1, q2, q3, q4], r4;
    FourDigits(q);
    FourDigits(u);
    assert Val(q) == p3 * B + q4 && Val(u) == u3 * B + u[3];
  }

  /** Leading zero digits do not count. */
  lemma ZerosDropped(s: seq<nat>, k: nat)
    requires k <= |s| && forall i :: 0 <= i < k ==> s[i] == 0
    ensures Val(s) == Val(s[k..])
  {
    hide Val;
    SplitVal(s, 0, k);
    ValZeros(s[..k]);
    assert s[0..k] == s[..k] && s[0..] == s;
  }

  /** The part of `__qdivrem` after the divisor digits are counted: count the dividend digits, clear
      the leading quotient digits, run Algorithm D and read the results back out of the digit arrays. */
  method LongPath(u: array<nat>, v: array<nat>, vo: nat, n: nat) returns (quotient: nat, remainder: nat)
    requires u != v && u.Length == 5 && v.Length == 5 && vo + n == 4 && n >= 2
    requires AllDigits(u[..]) && AllDigits(v[..]) && u[0] == 0 && v[vo + 1] != 0
    requires Val(u[..]) >= Val(v[vo + 1..]) && Val(u[..]) < QUAD
    modifies u, v
    ensures old(Val(u[..])) == quotient * old(Val(v[vo + 1..])) + remainder && remainder < old(Val(v[vo + 1..]))
  {
    hide Val, PowB;
    ghost var U, V := Val(u[..]), Val(v[vo + 1..]);
    assert v[..][vo + 1..] == v[vo + 1..];
    DivisorBound(v[..], vo, n);
    var m: nat, uo: nat := 4 - n, 0;
    while u[uo + 1] == 0
      invariant 0 <= m && uo + m + n == 4
      invariant forall i :: 0 <= i <= uo ==> u[i] == 0
      decreases m
    {
      assert m > 0 by {
        if m == 0 {
          FewDigits(u[..], uo + 2);
        }
      }
      m := m - 1;
      uo := uo + 1;
    }
    var q := new nat[5];
    var i: nat := 4 - m;
    while i > 0
      invariant 0 <= i <= 4 - m
      invariant forall k :: i <= k < 4 - m ==> q[k] == 0
      modifies q
    {
      i := i - 1;
      q[i] := 0;
    }
    ZerosDropped(u[..], uo);
    assert u[..][uo..] == u[uo..];
    ghost var qs, us := q[..4 - m], u[..uo];
    assert u[..] == old(u[..]) && v[vo + 1..] == old(v[vo + 1..]);
    LongDivide(u, uo, v, vo, q, 4 - m, m, n);
    assert q[4 - m..4 - m + m + 1] == q[4 - m..];
    QuotientBound(Val(q[4 - m..]), V, Val(u[uo..]), U);
    assert forall k :: 0 <= k < uo ==> u[k] == us[k];
    assert forall k :: 0 <= k < 4 - m ==> q[k] == qs[k];
    remainder := ReadBack(u, uo);
    quotient := ReadBack(q, 4 - m);
  }

  lemma QuotientBound(q: nat, v: nat, r: nat, u: nat)
    requires u == q * v + r && r < v
    ensures q <= u
  {
    MulMonotone(1, v, q);
  }

  lemma FewDigits(u: seq<nat>, k: nat)
    requires k <= |u| && AllDigits(u) && forall i :: 0 <= i < k ==> u[i] == 0
    ensures Val(u) < PowB(|u| - k)
  {
    ZerosDropped(u, k);
    ValBound(u[k..]);
  }

  /** Assemble digits 1 to 4 of a digit array whose first `k` digits are zero. */
  method ReadBack(a: array<nat>, k: nat) returns (x: nat)
    requires a.Length == 5 && k <= 5 && AllDigits(a[k..]) && Val(a[k..]) < QUAD
    requires forall i :: 0 <= i < k ==> a[i] == 0
    ensures x == Val(a[k..])
  {
    hide Val;
    assert a[..][k..] == a[k..];
    ZerosDropped(a[..], k);
    QuadLead(a[..]);
    ZerosDropped(a[..], 1);
    assert forall i :: k <= i < 5 ==> a[i] == a[k..][i - k];
    var d := [a[1], a[2], a[3], a[4]];
    assert d == a[..][1..];
    x := Assemble(d);
  }

  /** `__qdivrem(uq, vq, &rem)`: for every dividend and every nonzero divisor, the quotient and the
      remainder of the division; a zero divisor faults. */
  method QuadDivRem(uq: nat, vq: nat) returns (o: Outcome)
    requires uq < QUAD && vq < QUAD
    ensures o.DivideFault? <==> vq == 0
    ensures o.Divided? ==> uq == o.quotient * vq + o.remainder && o.remainder < vq
  {
    hide Val, PowB, Split, Assemble;
    if vq == 0 {
      return DivideFault;
    }
    if uq < vq {
      return Divided(0, uq);
    }
    var ud, vd := Split(uq), Split(vq);
    o := DivideDigits(ud, vd);
  }

  /** Everything past the special cases: count the divisor's leading zeros and take one of the two paths. */
  method DivideDigits(ud: seq<nat>, vd: seq<nat>) returns (o: Outcome)
    requires |ud| == 4 && |vd| == 4 && AllDigits(ud) && AllDigits(vd) && 0 < Val(vd) <= Val(ud) < QUAD
    ensures o.Divided? && Val(ud) == o.quotient * Val(vd) + o.remainder && o.remainder < Val(vd)
  {
    hide Val, PowB, Assemble;
    var u := Digits5(ud);
    var v := Digits5(vd);
    var n: nat, vo: nat := 4, 0;
    while v[vo + 1] == 0
      invariant 2 <= n && vo + n == 4
      invariant v[..] == [0] + vd && forall i :: 0 <= i <= vo ==> v[i] == 0
      decreases n
    {
      n := n - 1;
      if n == 1 {
        LastDigit(v[..]);
        var qs, r := ShortDivide(ud, v[vo + 2]);
        return Divided(Assemble(qs), r);
      }
      vo := vo + 1;
    }
    ZerosDropped(v[..], vo + 1);
    assert v[..][vo + 1..] == v[vo + 1..];
    var quotient, remainder := LongPath(u, v, vo, n);
    o := Divided(quotient, remainder);
  }

  lemma LastDigit(v: seq<nat>)
    requires |v| == 5 && v[0] == 0 && v[1] == 0 && v[2] == 0 && v[3] == 0 && AllDigits(v)
    ensures Val(v) == v[4]
  {
    ZerosDropped(v, 4);
    assert v[4..] == [] + [v[4]];
    OneDigit(v[4]);
  }

  /** A zero and four digits, as the code lays them out. */
  method Digits5(d: seq<nat>) returns (a: array<nat>)
    requires |d| == 4 && AllDigits(d)
    ensures fresh(a) && a.Length == 5 && a[..] == [0] + d && AllDigits(a[..]) && Val(a[..]) == Val(d)
  {
    a := new nat[5];
    a[0], a[1], a[2], a[3], a[4] := 0, d[0], d[1], d[2], d[3];
    assert a[..] == [0] + d;
    ZerosDropped(a[..], 1);
    assert a[..][1..] == d;
  }

  /** `__udivdi3` and `__umoddi3` fault exactly for divisor zero, and otherwise are integer division. */
  method UnsignedDivMod(a: nat, b: nat) returns (o: Outcome)
    requires a < QUAD && b < QUAD
    ensures o == if b == 0 then DivideFault else Divided(a / b, a % b)
  {
    o := QuadDivRem(a, b);
    if b > 0 {
      QuotientIs(a, b, o.quotient);
    }
  }

  lemma QuadLead(s: seq<nat>)
    requires |s| == 5 && Val(s) < QUAD
    ensures s[0] == 0
  {
    assert PowB(4) == B * PowB(3) && PowB(3) == B * PowB(2) && PowB(2) == B * PowB(1) && PowB(1) == B;
    LeadingZero(s);
  }
}
