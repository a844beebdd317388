/** The tour on which yield() and make_runnable() look for a thread on the other cores. The number of the
    next core is counted from one but advanced as if it were counted from zero, so a tour moves on by two
    cores at a time. */
module Tours {
  import opened Basics
  import opened Lifecycle
  import opened Protocol
  import opened Placement
  import opened KernelInvariant
  import opened WorkerSteps
  import opened ManagerSteps
  import opened KernelRuns
  import opened Bits

  /** A thread that has found nothing on core `c`, and says so, is sent two cores further. */
  lemma NextStop(s: Sys, t: Tid, c: nat)
    requires Inv(s) && Enabled(s, DoHandle) && s.held == Some(t) && s.threads[t].msg == Tour(c + 1, false)
    ensures var s', d := Next(s, DoHandle), (c + 2) % |s.cores|;
      && s'.outbox == s.outbox + [Send(t, d)]
      && t in s'.threads && s'.threads[t].msg == Tour(d + 1, false)
  {
    hide Inv;
  }

  /** The core where a tour that began on core `start` is after `k` hops. */
  function Stop(start: nat, k: nat, w: nat): (c: nat)
    requires start < w
    ensures c < w
  {
    if k == 0 then start else (Stop(start, k - 1, w) + 2) % w
  }

  lemma {:induction false} StopIs(start: nat, k: nat, w: nat)
    requires start < w
    ensures Stop(start, k, w) == (start + 2 * k) % w
  {
    if k > 0 {
      StopIs(start, k - 1, w);
      ModAdd(start + 2 * (k - 1), 2, w);
    }
  }

  /** Every core is visited before the tour is back where it began. */
  ghost predicate VisitsAll(start: nat, w: nat)
    requires start < w
  {
    forall c :: 0 <= c < w ==> Visits(start, c, w)
  }

  ghost predicate Visits(start: nat, c: nat, w: nat)
    requires start < w
  {
    exists k: nat :: NotBackWithin(start, k, w) && Stop(start, k, w) == c
  }

  /** The tour has not come back within its first `k` hops. */
  ghost predicate NotBackWithin(start: nat, k: nat, w: nat)
    requires start < w
  {
    forall j: nat :: 0 < j <= k ==> Stop(start, j, w) != start
  }

  lemma MulMod(q: nat, x: nat, w: nat)
    requires x < w
    ensures (q * w + x) % w == x
  {
    assert (q + 1) * w == q * w + w;
    QuotientIs(q * w + x, w, q);
  }

  lemma LessMod(n: nat, w: nat, r: nat)
    requires n == r || n == w + r || n == 2 * w + r
    requires r < w
    ensures n % w == r
  {
    MulMod(0, r, w);
    MulMod(1, r, w);
    MulMod(2, r, w);
  }

  /** With an odd number of cores the tour is back after that many hops and no sooner. */
  lemma NotBackYet(start: nat, j: nat, w: nat)
    requires start < w && w % 2 == 1 && 0 < j < w
    ensures Stop(start, j, w) != start
  {
    StopIs(start, j, w);
    var n := start + 2 * j;
    if n % w == start {
      var q := n / w;
      assert q * w == 2 * j;
      BetweenOneAndTwo(q, w, j);
    }
  }

  lemma BetweenOneAndTwo(q: nat, w: nat, j: nat)
    requires q * w == 2 * j && 0 < j < w
    ensures q == 1 && w == 2 * j
  {
    if q >= 2 {
      MulMonotone(2, q, w);
    }
  }

  lemma Halfway(d: nat, w: nat) returns (k: nat)
    requires d < w && w % 2 == 1
    ensures k < w && (2 * k == d || 2 * k == d + w)
  {
    k := if d % 2 == 0 then d / 2 else (d + w) / 2;
  }

  lemma OddFinds(start: nat, c: nat, w: nat) returns (k: nat)
    requires start < w && c < w && w % 2 == 1
    ensures k < w && Stop(start, k, w) == c
  {
    var d := if c >= start then c - start else c + w - start;
    hide Stop;
    k := Halfway(d, w);
    StopIs(start, k, w);
    LessMod(start + 2 * k, w, c);
  }

  lemma {:induction false} ParityStays(start: nat, k: nat, w: nat)
    requires start < w && w % 2 == 0
    ensures Stop(start, k, w) % 2 == start % 2
  {
    if k > 0 {
      ParityStays(start, k - 1, w);
      var c := Stop(start, k - 1, w);
      hide Stop;
      assert Stop(start, k, w) == (c + 2) % w by { StopStep(start, k, w); }
      HopParity(c, w);
    }
  }

  lemma StopStep(start: nat, k: nat, w: nat)
    requires start < w && k > 0
    ensures Stop(start, k, w) == (Stop(start, k - 1, w) + 2) % w
  {
  }

  lemma HopParity(c: nat, w: nat)
    requires c < w && w % 2 == 0
    ensures ((c + 2) % w) % 2 == c % 2
  {
    LessMod(c + 2, w, if c + 2 < w then c + 2 else c + 2 - w);
  }

  /** A tour visits every core if and only if their number is odd. With an even number it never leaves the
      cores of its own parity: of two cores, it never sees the other. */
  lemma VisitsAllIff(start: nat, w: nat)
    requires start < w
    ensures VisitsAll(start, w) <==> w % 2 == 1
  {
    if w % 2 == 1 {
      forall c | 0 <= c < w
        ensures Visits(start, c, w)
      {
        var k := OddFinds(start, c, w);
        forall j: nat | 0 < j <= k
          ensures Stop(start, j, w) != start
        {
          NotBackYet(start, j, w);
        }
        assert NotBackWithin(start, k, w);
      }
    } else {
      var c := if start == 0 then 1 else start - 1;
      forall k: nat
        ensures Stop(start, k, w) != c
      {
        ParityStays(start, k, w);
      }
      assert !Visits(start, c, w);
    }
  }
}
