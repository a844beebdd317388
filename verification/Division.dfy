/** 64-bit unsigned division by Knuth's Algorithm D (section 4.3.1 of The Art of Computer
    Programming, volume 2), as `__qdivrem` runs it on base-2^16 digits held in 32-bit words.

    Each step works for any number of digits; `QDivRem` instantiates it to four. A pointer into
    one of the digit arrays is an array together with an offset. */
module Division {
  import opened Bits
  import opened Digits

  // ----- D3: the quotient digit estimate

  /** The largest digit `q` with `q * v <= u`. */
  ghost predicate IsCappedQuotient(q: nat, u: nat, v: nat) {
    q < B && q * v <= u && (q == B - 1 || (q + 1) * v > u)
  }

  lemma EstimateTooBig(qhat: nat, rhat: nat, uj: nat, uj2: nat, v1: nat, v2: nat)
    requires uj == qhat * v1 + rhat && uj2 < B
    ensures v2 * qhat > rhat * B + uj2 <==> qhat * (v1 * B + v2) > uj * B + uj2
  {
    assert qhat * (v1 * B + v2) == (qhat * v1) * B + v2 * qhat;
  }

  lemma EstimateStartsHigh(qhat: nat, rhat: nat, uj: nat, uj2: nat, v1: nat, v2: nat)
    requires uj == qhat * v1 + rhat && rhat < v1 && uj2 < B
    ensures (qhat + 1) * (v1 * B + v2) > uj * B + uj2
  {
    assert (qhat + 1) * (v1 * B + v2) == (qhat * v1 + v1) * B + (qhat + 1) * v2;
    assert (qhat + 1) * v2 >= 0;
  }

  lemma CompareWithRemainder(rhat: nat, v2: nat, qhat: nat)
    requires rhat >= B && v2 < B && qhat < B
    ensures v2 * qhat <= rhat * B
  {
    MulMonotone(v2, B, qhat);
  }

  /** Step D3: guess the digit from the two leading digits and correct it with the third. The
      result is exactly the capped quotient of the three leading digits by the two of the divisor. */
  method EstimateDigit(uj0: nat, uj1: nat, uj2: nat, v1: nat, v2: nat) returns (qhat: nat)
    requires uj1 < B && uj2 < B && v2 < B && 0 < v1 < B
    requires uj0 <= v1
    ensures IsCappedQuotient(qhat, (uj0 * B + uj1) * B + uj2, v1 * B + v2)
  {
    hide Combine;
    ghost var uj := uj0 * B + uj1;
    ghost var u3, v := uj * B + uj2, v1 * B + v2;
    var rhat: nat;
    var done := false;
    if uj0 == v1 {
      qhat, rhat := B - 1, uj1 + v1;
      done := rhat >= B;
      assert uj == qhat * v1 + rhat;
    } else {
      var nn := Combine(uj0, uj1);
      qhat, rhat := nn / v1, nn % v1;
      DivModIdentity(nn, v1);
      QuotientIsDigit(uj0, uj1, v1);
      EstimateStartsHigh(qhat, rhat, uj, uj2, v1, v2);
    }
    while !done && (v2 * qhat) % WORD > Combine(rhat, uj2)
      invariant uj == qhat * v1 + rhat && qhat < B
      invariant qhat == B - 1 || (qhat + 1) * v > u3
      invariant done <==> rhat >= B
      decreases qhat
    {
      NoWordOverflow(v2, qhat);
      EstimateTooBig(qhat, rhat, uj, uj2, v1, v2);
      assert qhat > 0;
      assert (qhat - 1) * v1 + (rhat + v1) == qhat * v1 + rhat;
      qhat, rhat := qhat - 1, rhat + v1;
      done := rhat >= B;
    }
    NoWordOverflow(v2, qhat);
    if done {
      CompareWithRemainder(rhat, v2, qhat);
    }
    EstimateTooBig(qhat, rhat, uj, uj2, v1, v2);
  }

  lemma NoWordOverflow(a: nat, b: nat)
    requires a < B && b < B
    ensures a * b < WORD && (a * b) % WORD == a * b
  {
    MulMonotone(a, B - 1, b);
    SmallModulo(a * b);
  }

  lemma SmallModulo(p: nat)
    requires p < WORD
    ensures p % WORD == p
  {
  }

  lemma QuotientIsDigit(uj0: nat, uj1: nat, v1: nat)
    requires uj0 < v1 && uj1 < B
    ensures (uj0 * B + uj1) / v1 < B
  {
    var nn := uj0 * B + uj1;
    var q := nn / v1;
    assert q * v1 <= nn < v1 * B;
    if q >= B {
      MulMonotone(B, q, v1);
    }
  }

  /** The numerical bound behind Algorithm D. Write the `n+1` digits being divided as `u3 * w + ul`
      and the divisor as `v2 * w + vl`, with the low parts below `w`. When the divisor is normalised
      the capped estimate from the leading digits is the true quotient digit or one more. */
  lemma EstimateBound(u3: nat, ul: nat, v2: nat, vl: nat, w: nat, qhat: nat, q: nat, r: nat)
    requires ul < w && vl < w && v2 >= B
    requires u3 * w + ul == q * (v2 * w + vl) + r && r < v2 * w + vl && q < B
    requires IsCappedQuotient(qhat, u3, v2)
    ensures q <= qhat <= q + 1
  {
    if q > qhat {
      AboveEstimate(u3, ul, v2, vl, w, qhat, q);
      assert false;
    }
    if qhat > q + 1 {
      BelowEstimate(u3, ul, v2, vl, w, qhat, q);
      assert false;
    }
  }

  lemma DivModIdentity(u: nat, v: nat)
    requires v > 0
    ensures u == (u / v) * v + u % v && u % v < v
  {
  }

  lemma AboveEstimate(u3: nat, ul: nat, v2: nat, vl: nat, w: nat, qhat: nat, q: nat)
    requires ul < w && (qhat + 1) * v2 > u3 && q > qhat
    ensures q * (v2 * w + vl) > u3 * w + ul
  {
    MulMonotone(qhat + 1, q, v2);
    MulMonotone(u3 + 1, q * v2, w);
    assert q * (v2 * w + vl) == (q * v2) * w + q * vl;
  }

  lemma BelowEstimate(u3: nat, ul: nat, v2: nat, vl: nat, w: nat, qhat: nat, q: nat)
    requires vl < w && v2 >= B && qhat < B && qhat * v2 <= u3 && q + 1 < qhat
    ensures (q + 1) * (v2 * w + vl) <= u3 * w
  {
    var v := v2 * w + vl;
    assert v >= 0;
    MulMonotone(q + 2, qhat, v);
    assert (q + 2) * v == (q + 1) * v + v;
    assert qhat * v == (qhat * v2) * w + qhat * vl;
    MulMonotone(qhat * v2, u3, w);
    assert qhat * vl <= v by { MulMonotone(qhat, B, vl); MulMonotone(vl, w, B); MulMonotone(B, v2, w); }
  }

  // ----- D4: multiply and subtract

  /** One wrapped 32-bit subtraction leaves the low digit and, in its upper half, the borrow. */
  lemma BorrowStep(x: int)
    requires -((B - 1) * B) <= x < B
    ensures var w := x % WORD; var t := (B - w / B) % B; x == w % B - t * B
  {
    var w := x % WORD;
    if x >= 0 {
      assert w == x;
    } else {
      assert w == x + WORD;
      assert w / B >= 1;
    }
  }

  lemma SubtractStep(low: int, ui: int, vi: int, q: int, t: int, t': int, p: int, r: int, u: int, v: int)
    requires low == ui - vi * q - t + t' * B
    requires r == u - q * v + t * p
    ensures low * p + r == (ui * p + u) - q * (vi * p + v) + t' * (B * p)
  {
    assert low * p == ui * p - (vi * q) * p - t * p + (t' * B) * p;
    assert q * (vi * p + v) == (vi * q) * p + q * v;
    assert (t' * B) * p == t' * (B * p);
  }

  lemma ProductRange(ui: nat, vi: nat, q: nat, t: nat)
    requires ui < B && vi < B && q < B && t < B
    ensures -((B - 1) * B) <= ui - vi * q - t < B
  {
    MulMonotone(vi, B - 1, q);
    assert vi * q >= 0;
  }

  lemma TopBorrow(x: nat, t: nat, p: nat)
    requires x < B && t < B
    ensures var w := (x - t) % WORD;
            (w / B != 0 <==> x < t) && (w % B) * p == x * p - t * p + if w / B != 0 then B * p else 0
  {
    var w := (x - t) % WORD;
    if x < t {
      assert w == x - t + WORD;
      assert w % B == x - t + B;
      assert (x - t + B) * p == x * p - t * p + B * p;
    } else {
      assert w == x - t;
      assert (x - t) * p == x * p - t * p;
    }
  }

  /** The state of the D4 loop before digit `i`: the digits below have been subtracted, borrowing `t`. */
  ghost predicate Subtracted(u0: seq<nat>, u: seq<nat>, uo: nat, d: seq<nat>, vo: nat, n: nat, i: nat, q: nat, t: nat)
    requires |u| == |u0| && uo + n < |u| && vo + n < |d| && i <= n
  {
    && (forall k :: 0 <= k < |u| && !(uo + i < k <= uo + n) ==> u[k] == u0[k])
    && Val(u[uo + i + 1..uo + n + 1])
       == Val(u0[uo + i + 1..uo + n + 1]) - q * Val(d[vo + i + 1..vo + n + 1]) + t * PowB(n - i)
  }

  lemma SubtractStart(u: seq<nat>, uo: nat, d: seq<nat>, vo: nat, n: nat, q: nat)
    requires uo + n < |u| && vo + n < |d|
    ensures Subtracted(u, u, uo, d, vo, n, n, q, 0)
  {
  }

  /** One digit of step D4: the wrapped 32-bit difference, its low digit and the borrow read from
      its upper half. */
  method SubtractOne(ui: nat, vi: nat, q: nat, t: nat) returns (low: nat, t': nat)
    requires ui < B && vi < B && q < B && t < B
    ensures low < B && t' < B && low == ui - vi * q - t + t' * B
  {
    ProductRange(ui, vi, q, t);
    BorrowStep(ui - vi * q - t);
    var w := (ui - vi * q - t) % WORD;
    low, t' := w % B, (B - w / B) % B;
  }

  lemma SubtractDigit(u0: seq<nat>, u: seq<nat>, uo: nat, d: seq<nat>, vo: nat, n: nat, i: nat, q: nat, t: nat,
                      low: nat, t': nat)
    requires |u| == |u0| && uo + n < |u| && vo + n < |d| && 0 < i <= n
    requires low == u[uo + i] - d[vo + i] * q - t + t' * B
    requires Subtracted(u0, u, uo, d, vo, n, i, q, t)
    ensures Subtracted(u0, u[uo + i := low], uo, d, vo, n, i - 1, q, t')
  {
    hide Val, PowB;
    var u' := u[uo + i := low];
    assert u[uo + i] == u0[uo + i];
    PowBStep(n - i);
    assert u'[uo + i + 1..uo + n + 1] == u[uo + i + 1..uo + n + 1];
    SubtractStep(low, u0[uo + i], d[vo + i], q, t, t', PowB(n - i),
                 Val(u[uo + i + 1..uo + n + 1]), Val(u0[uo + i + 1..uo + n + 1]), Val(d[vo + i + 1..vo + n + 1]));
    SliceHead(u', uo + i, uo + n + 1);
    SliceHead(u0, uo + i, uo + n + 1);
    SliceHead(d, vo + i, vo + n + 1);
  }

  lemma PowBStep(k: nat)
    ensures PowB(k + 1) == B * PowB(k)
  {
  }

  lemma SubtractTop(u0: seq<nat>, u: seq<nat>, uo: nat, d: seq<nat>, vo: nat, n: nat, q: nat, t: nat)
    requires |u| == |u0| && uo + n < |u| && vo + n < |d|
    requires u0[uo] < B && t < B
    requires Subtracted(u0, u, uo, d, vo, n, 0, q, t)
    ensures var w := (u[uo] - t) % WORD;
            Val(u[uo := w % B][uo..uo + n + 1])
            == Val(u0[uo..uo + n + 1]) - q * Val(d[vo + 1..vo + n + 1]) + if w / B != 0 then PowB(n + 1) else 0
  {
    hide Val;
    var w := (u[uo] - t) % WORD;
    var u' := u[uo := w % B];
    assert u'[uo + 1..uo + n + 1] == u[uo + 1..uo + n + 1];
    TopBorrow(u0[uo], t, PowB(n));
    SliceHead(u', uo, uo + n + 1);
    SliceHead(u0, uo, uo + n + 1);
  }

  /** Step D4 on the digits `u[uo..uo+n]`: subtract `qhat` times the divisor modulo `B^(n+1)` and
      report the borrow. */
  method MultiplySubtract(u: array<nat>, uo: nat, v: array<nat>, vo: nat, n: nat, qhat: nat) returns (borrow: bool)
    requires u != v && uo + n < u.Length && vo + n < v.Length && qhat < B
    requires AllDigits(u[..]) && AllDigits(v[..])
    modifies u
    ensures AllDigits(u[..])
    ensures forall k :: 0 <= k < u.Length && !(uo <= k <= uo + n) ==> u[k] == old(u[k])
    ensures Val(u[..][uo..uo + n + 1]) == Val(old(u[..])[uo..uo + n + 1]) - qhat * Val(v[..][vo + 1..vo + n + 1])
                                          + if borrow then PowB(n + 1) else 0
  {
    hide Val;
    ghost var u0, d := u[..], v[..];
    var t: nat := 0;
    var i: nat := n;
    SubtractStart(u0, uo, d, vo, n, qhat);
    while i > 0
      invariant 0 <= i <= n && t < B
      invariant AllDigits(u[..]) && v[..] == d
      invariant Subtracted(u0, u[..], uo, d, vo, n, i, qhat, t)
    {
      ghost var before: seq<nat> := u[..];
      var low, t' := SubtractOne(u[uo + i], v[vo + i], qhat, t);
      SubtractDigit(u0, before, uo, d, vo, n, i, qhat, t, low, t');
      u[uo + i] := low;
      assert u[..] == before[uo + i := low];
      t := t';
      i := i - 1;
    }
    SubtractTop(u0, u[..], uo, d, vo, n, qhat, t);
    ghost var before: seq<nat> := u[..];
    var w: nat := (u[uo] - t) % WORD;
    u[uo] := w % B;
    assert u[..] == before[uo := w % B];
    assert v[..] == d;
    borrow := w / B != 0;
  }

  // ----- D6: add back

  lemma AddStep(low: int, ui: int, vi: int, t: int, t': int, p: int, r: int, u: int, v: int)
    requires low + t' * B == ui + vi + t
    requires r == u + v - t * p
    ensures low * p + r == (ui * p + u) + (vi * p + v) - t' * (B * p)
  {
    assert (low + t' * B) * p == low * p + t' * (B * p);
    assert (ui + vi + t) * p == ui * p + vi * p + t * p;
  }

  /** The state of the D6 loop before digit `i`: the digits below have been added, carrying `t`. */
  ghost predicate Added(u0: seq<nat>, u: seq<nat>, uo: nat, d: seq<nat>, vo: nat, n: nat, i: nat, t: nat)
    requires |u| == |u0| && uo + n < |u| && vo + n < |d| && i <= n
  {
    && (forall k :: 0 <= k < |u| && !(uo + i < k <= uo + n) ==> u[k] == u0[k])
    && Val(u[uo + i + 1..uo + n + 1])
       == Val(u0[uo + i + 1..uo + n + 1]) + Val(d[vo + i + 1..vo + n + 1]) - t * PowB(n - i)
  }

  lemma AddStart(u: seq<nat>, uo: nat, d: seq<nat>, vo: nat, n: nat)
    requires uo + n < |u| && vo + n < |d|
    ensures Added(u, u, uo, d, vo, n, n, 0)
  {
  }

  lemma AddDigit(u0: seq<nat>, u: seq<nat>, uo: nat, d: seq<nat>, vo: nat, n: nat, i: nat, t: nat, low: nat, t': nat)
    requires |u| == |u0| && uo + n < |u| && vo + n < |d| && 0 < i <= n
    requires low + t' * B == u[uo + i] + d[vo + i] + t
    requires Added(u0, u, uo, d, vo, n, i, t)
    ensures Added(u0, u[uo + i := low], uo, d, vo, n, i - 1, t')
  {
    hide Val, PowB;
    var u' := u[uo + i := low];
    assert u[uo + i] == u0[uo + i];
    PowBStep(n - i);
    assert u'[uo + i + 1..uo + n + 1] == u[uo + i + 1..uo + n + 1];
    AddStep(low, u0[uo + i], d[vo + i], t, t', PowB(n - i),
            Val(u[uo + i + 1..uo + n + 1]), Val(u0[uo + i + 1..uo + n + 1]), Val(d[vo + i + 1..vo + n + 1]));
    SliceHead(u', uo + i, uo + n + 1);
    SliceHead(u0, uo + i, uo + n + 1);
    SliceHead(d, vo + i, vo + n + 1);
  }

  lemma TopCarry(x: nat, t: nat, p: nat)
    requires x < B && t <= 1
    ensures var w := (x + t) % WORD;
            w / B <= 1 && (w % B) * p + (if w / B == 1 then B * p else 0) == x * p + t * p
  {
    var w := x + t;
    assert (x + t) * p == x * p + t * p;
    if w >= B {
      assert w == B && t == 1;
    }
  }

  lemma AddTop(u0: seq<nat>, u: seq<nat>, uo: nat, d: seq<nat>, vo: nat, n: nat, t: nat)
    requires |u| == |u0| && uo + n < |u| && vo + n < |d|
    requires u0[uo] < B && t <= 1
    requires Added(u0, u, uo, d, vo, n, 0, t)
    ensures var w: nat := (u[uo] + t) % WORD;
            w / B <= 1 &&
            Val(u[uo := w % B][uo..uo + n + 1]) + (if w / B == 1 then PowB(n + 1) else 0)
            == Val(u0[uo..uo + n + 1]) + Val(d[vo + 1..vo + n + 1])
  {
    hide Val;
    var w: nat := (u[uo] + t) % WORD;
    var u' := u[uo := w % B];
    assert u'[uo + 1..uo + n + 1] == u[uo + 1..uo + n + 1];
    TopCarry(u0[uo], t, PowB(n));
    SliceHead(u', uo, uo + n + 1);
    SliceHead(u0, uo, uo + n + 1);
  }

  /** Step D6: add the divisor to `u[uo..uo+n]` modulo `B^(n+1)`; the carry out of the top is dropped. */
  method AddBack(u: array<nat>, uo: nat, v: array<nat>, vo: nat, n: nat) returns (ghost carry: nat)
    requires u != v && uo + n < u.Length && vo + n < v.Length
    requires AllDigits(u[..]) && AllDigits(v[..])
    modifies u
    ensures AllDigits(u[..])
    ensures forall k :: 0 <= k < u.Length && !(uo <= k <= uo + n) ==> u[k] == old(u[k])
    ensures carry <= 1
    ensures Val(u[..][uo..uo + n + 1]) + (if carry == 1 then PowB(n + 1) else 0)
            == Val(old(u[..])[uo..uo + n + 1]) + Val(v[..][vo + 1..vo + n + 1])
  {
    hide Val;
    ghost var u0, d := u[..], v[..];
    var t: nat := 0;
    var i: nat := n;
    AddStart(u0, uo, d, vo, n);
    while i > 0
      invariant 0 <= i <= n && t <= 1
      invariant AllDigits(u[..]) && v[..] == d
      invariant Added(u0, u[..], uo, d, vo, n, i, t)
    {
      ghost var before: seq<nat> := u[..];
      var w: nat := (t + u[uo + i] + v[vo + i]) % WORD;
      AddDigit(u0, before, uo, d, vo, n, i, t, w % B, w / B);
      u[uo + i] := w % B;
      assert u[..] == before[uo + i := w % B];
      t := w / B;
      i := i - 1;
    }
    AddTop(u0, u[..], uo, d, vo, n, t);
    ghost var before: seq<nat> := u[..];
    carry := ((u[uo] + t) % WORD) / B;
    u[uo] := ((u[uo] + t) % WORD) % B;
    assert u[..] == before[uo := u[uo]];
    assert v[..] == d;
  }

  // ----- D3 to D6: one round

  lemma Lead2(s: seq<nat>, lo: nat, hi: nat)
    requires lo + 2 <= hi <= |s|
    ensures Val(s[lo..hi]) == (s[lo] * B + s[lo + 1]) * PowB(hi - lo - 2) + Val(s[lo + 2..hi])
  {
    hide Val;
    var p := PowB(hi - lo - 2);
    SliceHead(s, lo, hi);
    SliceHead(s, lo + 1, hi);
    assert PowB(hi - lo - 1) == B * p;
    assert s[lo] * (B * p) + s[lo + 1] * p == (s[lo] * B + s[lo + 1]) * p;
  }

  lemma Lead3(s: seq<nat>, lo: nat, hi: nat)
    requires lo + 3 <= hi <= |s|
    ensures Val(s[lo..hi]) == ((s[lo] * B + s[lo + 1]) * B + s[lo + 2]) * PowB(hi - lo - 3) + Val(s[lo + 3..hi])
  {
    hide Val;
    var p := PowB(hi - lo - 3);
    var x := s[lo] * B + s[lo + 1];
    Lead2(s, lo, hi);
    SliceHead(s, lo + 2, hi);
    assert PowB(hi - lo - 2) == B * p;
    assert x * (B * p) + s[lo + 2] * p == (x * B + s[lo + 2]) * p;
  }

  lemma DropLast(s: seq<nat>, lo: nat, hi: nat)
    requires lo <= hi < |s|
    ensures Val(s[lo..hi + 1]) == Val(s[lo..hi]) * B + s[hi]
  {
    assert s[lo..hi + 1] == s[lo..hi] + [s[hi]];
    ValLast(s[lo..hi], s[hi]);
  }

  /** What a round may assume: digits, a normalised divisor of `n >= 2` digits, and a partial
      remainder whose leading `n` digits are below the divisor. */
  ghost predicate RoundReady(u: seq<nat>, uo: nat, v: seq<nat>, vo: nat, n: nat) {
    && 2 <= n && uo + n < |u| && vo + n < |v|
    && AllDigits(u) && AllDigits(v)
    && v[vo + 1] >= B / 2
    && Val(u[uo..uo + n]) < Val(v[vo + 1..vo + n + 1])
  }

  lemma LeadingDigitDecides(a: nat, b: nat, p: nat, x: nat, y: nat)
    requires a > b && y < p
    ensures a * p + x > b * p + y
  {
    MulMonotone(b + 1, a, p);
  }

  lemma LeadingDigitBound(u: seq<nat>, uo: nat, v: seq<nat>, vo: nat, n: nat)
    requires RoundReady(u, uo, v, vo, n)
    ensures u[uo] <= v[vo + 1]
  {
    hide Val;
    SliceHead(u, uo, uo + n);
    SliceHead(v, vo + 1, vo + n + 1);
    ValBound(v[vo + 2..vo + n + 1]);
    if u[uo] > v[vo + 1] {
      LeadingDigitDecides(u[uo], v[vo + 1], PowB(n - 1), Val(u[uo + 1..uo + n]), Val(v[vo + 2..vo + n + 1]));
      assert false;
    }
  }

  /** After step D3 the estimate is the true digit `q` or one more, and the true digit is below the base. */
  lemma RoundEstimate(u: seq<nat>, uo: nat, v: seq<nat>, vo: nat, n: nat, qhat: nat, q: nat, r: nat)
    requires RoundReady(u, uo, v, vo, n)
    requires IsCappedQuotient(qhat, (u[uo] * B + u[uo + 1]) * B + u[uo + 2], v[vo + 1] * B + v[vo + 2])
    requires var V := Val(v[vo + 1..vo + n + 1]); Val(u[uo..uo + n + 1]) == q * V + r && r < V
    ensures q <= qhat <= q + 1 && q < B
  {
    hide Val;
    DropLast(u, uo, uo + n);
    DigitBelowBase(Val(u[uo..uo + n + 1]), Val(v[vo + 1..vo + n + 1]), q, r);
    Lead3(u, uo, uo + n + 1);
    Lead2(v, vo + 1, vo + n + 1);
    ValBound(u[uo + 3..uo + n + 1]);
    ValBound(v[vo + 3..vo + n + 1]);
    EstimateBound((u[uo] * B + u[uo + 1]) * B + u[uo + 2], Val(u[uo + 3..uo + n + 1]),
                  v[vo + 1] * B + v[vo + 2], Val(v[vo + 3..vo + n + 1]), PowB(n - 2), qhat, q, r);
  }

  lemma DigitBelowBase(U: nat, V: nat, q: nat, r: nat)
    requires U == q * V + r && U < V * B
    ensures q < B
  {
    if q >= B {
      MulMonotone(B, q, V);
    }
  }

  /** The borrow out of step D4 is set exactly when the estimate is one too big, and one add-back
      then leaves the true remainder. `p` is `B^(n+1)` and `x` the value step D4 leaves. */
  lemma RoundRemainder(U: nat, V: nat, qhat: nat, p: nat, borrow: bool, x: nat, q: nat, r: nat)
    requires U == q * V + r && r < V && V <= p && x < p
    requires q <= qhat <= q + 1
    requires x == U - qhat * V + if borrow then p else 0
    ensures borrow <==> qhat == q + 1
    ensures !borrow ==> x == r
    ensures borrow ==> x + V == r + p
  {
    assert (q + 1) * V == q * V + V;
    if qhat == q {
    } else {
      assert qhat == q + 1;
    }
  }

  /** Steps D3 to D6 for one quotient digit: the digit is the true quotient and the digits of `u`
      it was computed from hold the true remainder. */
  method DivisionRound(u: array<nat>, uo: nat, v: array<nat>, vo: nat, n: nat) returns (q: nat)
    requires u != v && RoundReady(u[..], uo, v[..], vo, n)
    modifies u
    ensures AllDigits(u[..]) && q < B
    ensures forall k :: 0 <= k < u.Length && !(uo <= k <= uo + n) ==> u[k] == old(u[k])
    ensures var U, V := Val(old(u[..])[uo..uo + n + 1]), Val(v[..][vo + 1..vo + n + 1]);
            U == q * V + Val(u[..][uo..uo + n + 1]) && Val(u[..][uo..uo + n + 1]) < V
  {
    hide Val;
    ghost var u0, d := u[..], v[..];
    ghost var U, V, p := Val(u0[uo..uo + n + 1]), Val(d[vo + 1..vo + n + 1]), PowB(n + 1);
    ghost var tq, tr := U / V, U % V;
    DivModIdentity(U, V);
    LeadingDigitBound(u0, uo, d, vo, n);
    var qhat := EstimateDigit(u[uo], u[uo + 1], u[uo + 2], v[vo + 1], v[vo + 2]);
    RoundEstimate(u0, uo, d, vo, n, qhat, tq, tr);
    var borrow := MultiplySubtract(u, uo, v, vo, n, qhat);
    assert v[..] == d;
    ghost var r := Val(u[..][uo..uo + n + 1]);
    ValBound(u0[uo..uo + n + 1]);
    ValBound(u[..][uo..uo + n + 1]);
    ValBound(d[vo + 1..vo + n + 1]);
    RoundRemainder(U, V, qhat, p, borrow, r, tq, tr);
    q := qhat;
    if borrow {
      q := qhat - 1;
      ghost var carry := AddBack(u, uo, v, vo, n);
      assert v[..] == d;
      ValBound(u[..][uo..uo + n + 1]);
    }
  }
}
