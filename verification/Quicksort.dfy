/** Bentley and McIlroy's quicksort, on an array of elements. */
module Quicksort {

  /** What a comparison function promises: signs that agree both ways round, and transitivity. */
  ghost predicate TotalPreorder<T(!new)>(cmp: (T, T) -> int) {
    && (forall x, y :: cmp(x, y) < 0 <==> cmp(y, x) > 0)
    && (forall x, y, z :: cmp(x, y) <= 0 && cmp(y, z) <= 0 ==> cmp(x, z) <= 0)
  }

  ghost predicate Sorted<T(!new)>(s: seq<T>, lo: nat, hi: nat, cmp: (T, T) -> int)
    requires hi <= |s|
  {
    forall i, j :: lo <= i < j < hi ==> cmp(s[i], s[j]) <= 0
  }

  /** `t` is `s` with the elements of `lo..hi` rearranged. */
  ghost predicate Rearranged<T(!new)>(s: seq<T>, t: seq<T>, lo: nat, hi: nat) {
    && lo <= hi <= |s| == |t|
    && (forall x :: 0 <= x < |s| && !(lo <= x < hi) ==> t[x] == s[x])
    && multiset(s[lo..hi]) == multiset(t[lo..hi])
  }

  lemma RearrangedChain<T(!new)>(s: seq<T>, t: seq<T>, u: seq<T>, lo: nat, hi: nat)
    requires Rearranged(s, t, lo, hi) && Rearranged(t, u, lo, hi)
    ensures Rearranged(s, u, lo, hi)
  {
  }

  lemma RearrangedSelf<T(!new)>(s: seq<T>, lo: nat, hi: nat)
    requires lo <= hi <= |s|
    ensures Rearranged(s, s, lo, hi)
  {
  }

  lemma RearrangedWider<T(!new)>(s: seq<T>, t: seq<T>, lo: nat, hi: nat, from: nat, to: nat)
    requires Rearranged(s, t, from, to) && lo <= from && to <= hi <= |s|
    ensures Rearranged(s, t, lo, hi)
  {
    assert s[lo..hi] == s[lo..from] + s[from..to] + s[to..hi];
    assert t[lo..hi] == t[lo..from] + t[from..to] + t[to..hi];
    assert s[lo..from] == t[lo..from] && s[to..hi] == t[to..hi];
  }

  function Swapped<T>(s: seq<T>, i: nat, j: nat): seq<T>
    requires i < |s| && j < |s|
  {
    s[i := s[j]][j := s[i]]
  }

  lemma SwappedRearranges<T(!new)>(s: seq<T>, i: nat, j: nat, lo: nat, hi: nat)
    requires lo <= i < hi && lo <= j < hi <= |s|
    ensures Rearranged(s, Swapped(s, i, j), lo, hi)
  {
    var w := s[lo..hi];
    assert Swapped(s, i, j)[lo..hi] == w[i - lo := w[j - lo]][j - lo := w[i - lo]];
  }

  method Swap<T(!new)>(a: array<T>, i: nat, j: nat, ghost lo: nat, ghost hi: nat)
    requires lo <= i < hi && lo <= j < hi <= a.Length
    modifies a
    ensures a[..] == Swapped(old(a[..]), i, j)
    ensures Rearranged(old(a[..]), a[..], lo, hi)
  {
    SwappedRearranges(a[..], i, j, lo, hi);
    a[i], a[j] := a[j], a[i];
  }

  // ----- insertion sort

  /** `lo..hi` is sorted but for element `p`, which may belong further left. */
  ghost predicate SortedBut<T(!new)>(s: seq<T>, lo: nat, hi: nat, p: nat, cmp: (T, T) -> int)
    requires hi <= |s|
  {
    forall i, j :: lo <= i < j < hi && j != p ==> cmp(s[i], s[j]) <= 0
  }

  lemma MoveLeft<T(!new)>(s: seq<T>, lo: nat, hi: nat, p: nat, cmp: (T, T) -> int)
    requires TotalPreorder(cmp) && lo < p < hi <= |s| && SortedBut(s, lo, hi, p, cmp)
    requires cmp(s[p - 1], s[p]) > 0
    ensures SortedBut(Swapped(s, p, p - 1), lo, hi, p - 1, cmp)
  {
    assert cmp(s[p], s[p - 1]) < 0;
  }

  lemma MovedEnough<T(!new)>(s: seq<T>, lo: nat, hi: nat, p: nat, cmp: (T, T) -> int)
    requires TotalPreorder(cmp) && lo <= p < hi <= |s| && SortedBut(s, lo, hi, p, cmp)
    requires p == lo || cmp(s[p - 1], s[p]) <= 0
    ensures Sorted(s, lo, hi, cmp)
  {
    forall i | lo <= i < p
      ensures cmp(s[i], s[p]) <= 0
    {
      if i < p - 1 {
        assert cmp(s[i], s[p - 1]) <= 0;
      }
    }
  }

  lemma NewLast<T(!new)>(s: seq<T>, lo: nat, pm: nat, cmp: (T, T) -> int)
    requires pm < |s| && Sorted(s, lo, pm, cmp)
    ensures SortedBut(s, lo, pm + 1, pm, cmp)
  {
  }

  method Insert<T(!new)>(a: array<T>, lo: nat, pm: nat, ghost hi: nat, cmp: (T, T) -> int)
    requires TotalPreorder(cmp) && lo <= pm < hi <= a.Length && Sorted(a[..], lo, pm, cmp)
    modifies a
    ensures Sorted(a[..], lo, pm + 1, cmp) && Rearranged(old(a[..]), a[..], lo, hi)
  {
    hide TotalPreorder, Sorted, SortedBut, Rearranged, Swapped;
    var pl := pm;
    RearrangedSelf(a[..], lo, hi);
    NewLast(a[..], lo, pm, cmp);
    while pl > lo && cmp(a[pl - 1], a[pl]) > 0
      invariant lo <= pl <= pm && Rearranged(old(a[..]), a[..], lo, hi)
      invariant SortedBut(a[..], lo, pm + 1, pl, cmp)
    {
      ghost var s := a[..];
      MoveLeft(s, lo, pm + 1, pl, cmp);
      Swap(a, pl, pl - 1, lo, hi);
      RearrangedChain(old(a[..]), s, a[..], lo, hi);
      pl := pl - 1;
    }
    MovedEnough(a[..], lo, pm + 1, pl, cmp);
  }

  method InsertionSort<T(!new)>(a: array<T>, lo: nat, hi: nat, cmp: (T, T) -> int)
    requires TotalPreorder(cmp) && lo <= hi <= a.Length
    modifies a
    ensures Sorted(a[..], lo, hi, cmp) && Rearranged(old(a[..]), a[..], lo, hi)
  {
    RearrangedSelf(a[..], lo, hi);
    var pm := lo + 1;
    while pm < hi
      invariant lo < pm && (lo < hi ==> pm <= hi) && Rearranged(old(a[..]), a[..], lo, hi)
      invariant pm <= hi ==> Sorted(a[..], lo, pm, cmp)
    {
      ghost var s := a[..];
      Insert(a, lo, pm, hi, cmp);
      RearrangedChain(old(a[..]), s, a[..], lo, hi);
      pm := pm + 1;
    }
  }

  // ----- choosing the pivot

  /** The index of the median of three elements. */
  function Med3<T(!new)>(s: seq<T>, i: nat, j: nat, k: nat, cmp: (T, T) -> int): (m: nat)
    requires i < |s| && j < |s| && k < |s|
    ensures m == i || m == j || m == k
  {
    if cmp(s[i], s[j]) < 0 then (if cmp(s[j], s[k]) < 0 then j else if cmp(s[i], s[k]) < 0 then k else i)
    else (if cmp(s[j], s[k]) > 0 then j else if cmp(s[i], s[k]) < 0 then i else k)
  }

  predicate Between<T>(s: seq<T>, x: nat, m: nat, y: nat, cmp: (T, T) -> int)
    requires x < |s| && m < |s| && y < |s|
  {
    cmp(s[x], s[m]) <= 0 && cmp(s[m], s[y]) <= 0
  }

  lemma Signs<T(!new)>(cmp: (T, T) -> int, x: T, y: T)
    requires TotalPreorder(cmp)
    ensures cmp(x, y) < 0 <==> cmp(y, x) > 0
    ensures cmp(x, y) > 0 <==> cmp(y, x) < 0
  {
  }

  lemma Med3IsMedian<T(!new)>(s: seq<T>, i: nat, j: nat, k: nat, cmp: (T, T) -> int)
    requires TotalPreorder(cmp) && i < |s| && j < |s| && k < |s|
    ensures var m := Med3(s, i, j, k, cmp);
      || (m == i && (Between(s, j, m, k, cmp) || Between(s, k, m, j, cmp)))
      || (m == j && (Between(s, i, m, k, cmp) || Between(s, k, m, i, cmp)))
      || (m == k && (Between(s, i, m, j, cmp) || Between(s, j, m, i, cmp)))
  {
    hide TotalPreorder;
    Signs(cmp, s[i], s[j]);
    Signs(cmp, s[i], s[k]);
    Signs(cmp, s[j], s[k]);
  }

  // ----- the five zones

  ghost predicate AllLess<T(!new)>(s: seq<T>, lo: nat, hi: nat, v: T, cmp: (T, T) -> int)
    requires hi <= |s|
  {
    forall x :: lo <= x < hi ==> cmp(s[x], v) < 0
  }

  ghost predicate AllEqual<T(!new)>(s: seq<T>, lo: nat, hi: nat, v: T, cmp: (T, T) -> int)
    requires hi <= |s|
  {
    forall x :: lo <= x < hi ==> cmp(s[x], v) == 0
  }

  ghost predicate AllMore<T(!new)>(s: seq<T>, lo: nat, hi: nat, v: T, cmp: (T, T) -> int)
    requires hi <= |s|
  {
    forall x :: lo <= x < hi ==> cmp(s[x], v) > 0
  }

  /** Equal, less, not yet seen, more, equal. The zone `pc + 1 .. pd + 1` is written `c..d`. */
  ghost predicate Zones<T(!new)>(s: seq<T>, lo: nat, pa: nat, pb: nat, c: nat, d: nat, hi: nat, v: T,
                                 cmp: (T, T) -> int) {
    && lo < pa <= pb <= c <= d <= hi <= |s|
    && s[lo] == v
    && AllEqual(s, lo, pa, v, cmp) && AllLess(s, pa, pb, v, cmp)
    && AllMore(s, c, d, v, cmp) && AllEqual(s, d, hi, v, cmp)
  }

  lemma LessJoins<T(!new)>(s: seq<T>, lo: nat, pa: nat, pb: nat, c: nat, d: nat, hi: nat, v: T, cmp: (T, T) -> int)
    requires Zones(s, lo, pa, pb, c, d, hi, v, cmp) && pb < c && cmp(s[pb], v) <= 0
    ensures cmp(s[pb], v) < 0 ==> Zones(s, lo, pa, pb + 1, c, d, hi, v, cmp)
    ensures cmp(s[pb], v) == 0 ==> Zones(Swapped(s, pa, pb), lo, pa + 1, pb + 1, c, d, hi, v, cmp)
  {
  }

  lemma MoreJoins<T(!new)>(s: seq<T>, lo: nat, pa: nat, pb: nat, c: nat, d: nat, hi: nat, v: T, cmp: (T, T) -> int)
    requires Zones(s, lo, pa, pb, c, d, hi, v, cmp) && pb < c && cmp(s[c - 1], v) >= 0
    ensures cmp(s[c - 1], v) > 0 ==> Zones(s, lo, pa, pb, c - 1, d, hi, v, cmp)
    ensures cmp(s[c - 1], v) == 0 ==> Zones(Swapped(s, c - 1, d - 1), lo, pa, pb, c - 1, d - 1, hi, v, cmp)
  {
  }

  lemma BothCross<T(!new)>(s: seq<T>, lo: nat, pa: nat, pb: nat, c: nat, d: nat, hi: nat, v: T, cmp: (T, T) -> int)
    requires Zones(s, lo, pa, pb, c, d, hi, v, cmp) && pb < c && cmp(s[pb], v) > 0 && cmp(s[c - 1], v) < 0
    ensures pb + 1 < c && Zones(Swapped(s, pb, c - 1), lo, pa, pb + 1, c - 1, d, hi, v, cmp)
  {
  }

  lemma ZoneBounds<T(!new)>(s: seq<T>, lo: nat, pa: nat, pb: nat, c: nat, d: nat, hi: nat, v: T, cmp: (T, T) -> int)
    requires Zones(s, lo, pa, pb, c, d, hi, v, cmp)
    ensures lo < pa <= pb <= c <= d <= hi <= |s| && s[lo] == v
  {
  }

  /** The scan from the left: stops at an element greater than the pivot, or when all has been seen. */
  method ScanLeft<T(!new)>(a: array<T>, lo: nat, pa0: nat, pb0: nat, c: nat, ghost d: nat, ghost hi: nat, ghost v: T,
                           cmp: (T, T) -> int)
    returns (pa: nat, pb: nat, swapped: bool)
    requires Zones(a[..], lo, pa0, pb0, c, d, hi, v, cmp)
    modifies a
    ensures Zones(a[..], lo, pa, pb, c, d, hi, v, cmp) && Rearranged(old(a[..]), a[..], lo, hi)
    ensures pb0 <= pb <= c && (pb < c ==> pb < a.Length && cmp(a[pb], v) > 0)
    ensures !swapped ==> a[..] == old(a[..])
  {
    hide Zones, Rearranged, Swapped;
    pa, pb, swapped := pa0, pb0, false;
    ZoneBounds(a[..], lo, pa, pb, c, d, hi, v, cmp);
    RearrangedSelf(a[..], lo, hi);
    while pb < c && cmp(a[pb], a[lo]) <= 0
      invariant Zones(a[..], lo, pa, pb, c, d, hi, v, cmp) && Rearranged(old(a[..]), a[..], lo, hi)
      invariant lo < pa <= pb <= c <= d <= hi <= a.Length && a[lo] == v && pb0 <= pb
      invariant !swapped ==> a[..] == old(a[..])
    {
      ghost var s := a[..];
      LessJoins(s, lo, pa, pb, c, d, hi, v, cmp);
      if cmp(a[pb], a[lo]) == 0 {
        swapped := true;
        Swap(a, pa, pb, lo, hi);
        RearrangedChain(old(a[..]), s, a[..], lo, hi);
        pa := pa + 1;
      }
      pb := pb + 1;
      ZoneBounds(a[..], lo, pa, pb, c, d, hi, v, cmp);
    }
  }

  /** The scan from the right: stops at an element less than the pivot, or when all has been seen. */
  method ScanRight<T(!new)>(a: array<T>, lo: nat, ghost pa: nat, pb: nat, c0: nat, d0: nat, ghost hi: nat, ghost v: T,
                            cmp: (T, T) -> int)
    returns (c: nat, d: nat, swapped: bool)
    requires Zones(a[..], lo, pa, pb, c0, d0, hi, v, cmp)
    modifies a
    ensures Zones(a[..], lo, pa, pb, c, d, hi, v, cmp) && Rearranged(old(a[..]), a[..], lo, hi)
    ensures pb <= c <= c0 && (pb < c ==> c <= a.Length && cmp(a[c - 1], v) < 0)
    ensures pb < c <= a.Length ==> a[pb] == old(a[pb])
    ensures !swapped ==> a[..] == old(a[..])
  {
    hide Zones, Rearranged, Swapped;
    c, d, swapped := c0, d0, false;
    ZoneBounds(a[..], lo, pa, pb, c, d, hi, v, cmp);
    RearrangedSelf(a[..], lo, hi);
    while pb < c && cmp(a[c - 1], a[lo]) >= 0
      invariant Zones(a[..], lo, pa, pb, c, d, hi, v, cmp) && Rearranged(old(a[..]), a[..], lo, hi)
      invariant lo < pa <= pb <= c <= d <= hi <= a.Length && a[lo] == v && c <= c0
      invariant pb < c ==> a[pb] == old(a[pb])
      invariant !swapped ==> a[..] == old(a[..])
    {
      ghost var s := a[..];
      MoreJoins(s, lo, pa, pb, c, d, hi, v, cmp);
      if cmp(a[c - 1], a[lo]) == 0 {
        swapped := true;
        Swap(a, c - 1, d - 1, lo, hi);
        SwappedElsewhere(s, c - 1, d - 1);
        RearrangedChain(old(a[..]), s, a[..], lo, hi);
        d := d - 1;
      }
      c := c - 1;
      assert pb < c ==> a[..][pb] == s[pb];
      ZoneBounds(a[..], lo, pa, pb, c, d, hi, v, cmp);
    }
  }

  lemma SwappedElsewhere<T>(s: seq<T>, i: nat, j: nat)
    requires i < |s| && j < |s|
    ensures forall x :: 0 <= x < |s| && x != i && x != j ==> Swapped(s, i, j)[x] == s[x]
  {
  }

  /** The five-zone partition around the pivot at `lo`; at the end nothing is left unseen. */
  method Partition<T(!new)>(a: array<T>, lo: nat, hi: nat, cmp: (T, T) -> int)
    returns (pa: nat, pb: nat, d: nat, swaps: bool)
    requires TotalPreorder(cmp) && lo < hi <= a.Length
    modifies a
    ensures Zones(a[..], lo, pa, pb, pb, d, hi, old(a[lo]), cmp) && Rearranged(old(a[..]), a[..], lo, hi)
    ensures !swaps ==> a[..] == old(a[..])
  {
    hide Zones, Rearranged, Swapped, TotalPreorder;
    ghost var v := a[lo];
    var c: nat;
    pa, pb, c, d, swaps := lo + 1, lo + 1, hi, hi, false;
    FirstZones(a[..], lo, hi, cmp);
    RearrangedSelf(a[..], lo, hi);
    while true
      invariant Zones(a[..], lo, pa, pb, c, d, hi, v, cmp) && Rearranged(old(a[..]), a[..], lo, hi)
      invariant !swaps ==> a[..] == old(a[..])
      invariant pb <= c
      decreases c - pb
    {
      ghost var s0 := a[..];
      var sw;
      pa, pb, sw := ScanLeft(a, lo, pa, pb, c, d, hi, v, cmp);
      swaps := swaps || sw;
      ghost var s1 := a[..];
      RearrangedChain(old(a[..]), s0, s1, lo, hi);
      ZoneBounds(s1, lo, pa, pb, c, d, hi, v, cmp);
      c, d, sw := ScanRight(a, lo, pa, pb, c, d, hi, v, cmp);
      swaps := swaps || sw;
      ghost var s2 := a[..];
      RearrangedChain(old(a[..]), s1, s2, lo, hi);
      ZoneBounds(s2, lo, pa, pb, c, d, hi, v, cmp);
      if pb >= c {
        return;
      }
      BothCross(s2, lo, pa, pb, c, d, hi, v, cmp);
      Swap(a, pb, c - 1, lo, hi);
      RearrangedChain(old(a[..]), s2, a[..], lo, hi);
      swaps := true;
      pb := pb + 1;
      c := c - 1;
    }
  }

  lemma FirstZones<T(!new)>(s: seq<T>, lo: nat, hi: nat, cmp: (T, T) -> int)
    requires TotalPreorder(cmp) && lo < hi <= |s|
    ensures Zones(s, lo, lo + 1, lo + 1, hi, hi, hi, s[lo], cmp)
  {
    assert cmp(s[lo], s[lo]) == 0;
  }

  // ----- moving the equal elements to the middle

  /** `t` is `s` with the blocks of `n` elements at `i` and at `j` exchanged. */
  ghost predicate BlocksSwapped<T(!new)>(s: seq<T>, t: seq<T>, i: nat, j: nat, n: nat) {
    && |s| == |t| && i + n <= j && j + n <= |s|
    && (forall x :: i <= x < i + n ==> t[x] == s[x - i + j])
    && (forall x :: j <= x < j + n ==> t[x] == s[x - j + i])
    && (forall x :: 0 <= x < |s| && !(i <= x < i + n) && !(j <= x < j + n) ==> t[x] == s[x])
  }

  method VecSwap<T(!new)>(a: array<T>, i: nat, j: nat, n: nat, ghost lo: nat, ghost hi: nat)
    requires lo <= i && i + n <= j && j + n <= hi <= a.Length
    modifies a
    ensures BlocksSwapped(old(a[..]), a[..], i, j, n) && Rearranged(old(a[..]), a[..], lo, hi)
  {
    hide Rearranged, BlocksSwapped, Swapped;
    RearrangedSelf(a[..], lo, hi);
    NoneSwapped(a[..], i, j);
    var k := 0;
    while k < n
      invariant k <= n && BlocksSwapped(old(a[..]), a[..], i, j, k) && Rearranged(old(a[..]), a[..], lo, hi)
    {
      ghost var s := a[..];
      Swap(a, i + k, j + k, lo, hi);
      RearrangedChain(old(a[..]), s, a[..], lo, hi);
      OneMore(old(a[..]), s, a[..], i, j, k);
      k := k + 1;
    }
  }

  lemma NoneSwapped<T(!new)>(s: seq<T>, i: nat, j: nat)
    requires i <= j <= |s|
    ensures BlocksSwapped(s, s, i, j, 0)
  {
  }

  lemma OneMore<T(!new)>(s: seq<T>, t: seq<T>, u: seq<T>, i: nat, j: nat, k: nat)
    requires BlocksSwapped(s, t, i, j, k) && i + k < j && j + k < |s| && u == Swapped(t, i + k, j + k)
    ensures BlocksSwapped(s, u, i, j, k + 1)
  {
  }

  /** Less, equal, more: the sizes are those of the zones that scattered them. */
  ghost predicate ThreeWay<T(!new)>(s: seq<T>, lo: nat, p: nat, q: nat, hi: nat, v: T, cmp: (T, T) -> int) {
    && lo <= p <= q <= hi <= |s|
    && AllLess(s, lo, p, v, cmp) && AllEqual(s, p, q, v, cmp) && AllMore(s, q, hi, v, cmp)
  }

  lemma LeftGathered<T(!new)>(s: seq<T>, t: seq<T>, lo: nat, pa: nat, pb: nat, d: nat, hi: nat, v: T,
                              cmp: (T, T) -> int)
    requires Zones(s, lo, pa, pb, pb, d, hi, v, cmp)
    requires var r := if pa - lo < pb - pa then pa - lo else pb - pa; BlocksSwapped(s, t, lo, pb - r, r)
    ensures AllLess(t, lo, lo + (pb - pa), v, cmp) && AllEqual(t, lo + (pb - pa), pb, v, cmp)
    ensures AllMore(t, pb, d, v, cmp) && AllEqual(t, d, hi, v, cmp)
  {
  }

  lemma RightGathered<T(!new)>(s: seq<T>, t: seq<T>, lo: nat, p: nat, pb: nat, d: nat, hi: nat, v: T,
                               cmp: (T, T) -> int)
    requires lo <= p <= pb <= d <= hi <= |s|
    requires AllLess(s, lo, p, v, cmp) && AllEqual(s, p, pb, v, cmp)
    requires AllMore(s, pb, d, v, cmp) && AllEqual(s, d, hi, v, cmp)
    requires var r := if d - pb < hi - d then d - pb else hi - d; BlocksSwapped(s, t, pb, hi - r, r)
    ensures ThreeWay(t, lo, p, hi - (d - pb), hi, v, cmp)
  {
  }

  /** The two vector swaps. */
  method Gather<T(!new)>(a: array<T>, lo: nat, pa: nat, pb: nat, d: nat, hi: nat, ghost v: T, cmp: (T, T) -> int)
    requires hi <= a.Length && Zones(a[..], lo, pa, pb, pb, d, hi, v, cmp)
    modifies a
    ensures ThreeWay(a[..], lo, lo + (pb - pa), hi - (d - pb), hi, v, cmp) && Rearranged(old(a[..]), a[..], lo, hi)
  {
    hide Rearranged, BlocksSwapped, Zones;
    ghost var s := a[..];
    ZoneBounds(s, lo, pa, pb, pb, d, hi, v, cmp);
    var r := if pa - lo < pb - pa then pa - lo else pb - pa;
    VecSwap(a, lo, pb - r, r, lo, hi);
    ghost var t := a[..];
    LeftGathered(s, t, lo, pa, pb, d, hi, v, cmp);
    r := if d - pb < hi - d then d - pb else hi - d;
    VecSwap(a, pb, hi - r, r, lo, hi);
    RightGathered(t, a[..], lo, lo + (pb - pa), pb, d, hi, v, cmp);
    RearrangedChain(s, t, a[..], lo, hi);
  }

  // ----- sorting the parts sorts the whole

  lemma StillLess<T(!new)>(s: seq<T>, t: seq<T>, lo: nat, hi: nat, v: T, cmp: (T, T) -> int)
    requires Rearranged(s, t, lo, hi) && AllLess(s, lo, hi, v, cmp)
    ensures AllLess(t, lo, hi, v, cmp)
  {
    forall x | lo <= x < hi
      ensures cmp(t[x], v) < 0
    {
      FromBefore(s, t, lo, hi, x);
    }
  }

  lemma StillAbove<T(!new)>(s: seq<T>, t: seq<T>, lo: nat, hi: nat, w: T, cmp: (T, T) -> int)
    requires Rearranged(s, t, lo, hi) && forall x :: lo <= x < hi ==> cmp(w, s[x]) <= 0
    ensures forall x :: lo <= x < hi ==> cmp(w, t[x]) <= 0
  {
    forall x | lo <= x < hi
      ensures cmp(w, t[x]) <= 0
    {
      FromBefore(s, t, lo, hi, x);
    }
  }

  /** Every element after a rearrangement was there before. */
  lemma FromBefore<T(!new)>(s: seq<T>, t: seq<T>, lo: nat, hi: nat, x: nat)
    requires Rearranged(s, t, lo, hi) && lo <= x < hi
    ensures exists y :: lo <= y < hi && s[y] == t[x]
  {
    assert t[lo..hi][x - lo] in multiset(t[lo..hi]);
    assert t[x] in multiset(s[lo..hi]);
    var k :| 0 <= k < hi - lo && s[lo..hi][k] == t[x];
    assert s[lo + k] == t[x];
  }

  /** `from..lo` is final: sorted, and nothing in it is greater than anything in `lo..hi`. */
  ghost predicate Settled<T(!new)>(s: seq<T>, from: nat, lo: nat, hi: nat, cmp: (T, T) -> int)
    requires hi <= |s|
  {
    && from <= lo <= hi
    && Sorted(s, from, lo, cmp)
    && forall i, j :: from <= i < lo <= j < hi ==> cmp(s[i], s[j]) <= 0
  }

  /** Rearranging the part that is not final keeps the rest final. */
  lemma SettledKept<T(!new)>(s: seq<T>, t: seq<T>, from: nat, lo: nat, hi: nat, cmp: (T, T) -> int)
    requires hi <= |s| && Settled(s, from, lo, hi, cmp) && Rearranged(s, t, lo, hi)
    ensures Settled(t, from, lo, hi, cmp)
  {
    forall i | from <= i < lo
      ensures forall j :: lo <= j < hi ==> cmp(t[i], t[j]) <= 0
    {
      StillAbove(s, t, lo, hi, s[i], cmp);
    }
  }

  /** With the smaller part sorted, everything up to the greater part is final. */
  lemma SettledGrows<T(!new)>(s: seq<T>, from: nat, lo: nat, p: nat, q: nat, hi: nat, v: T, cmp: (T, T) -> int)
    requires TotalPreorder(cmp) && hi <= |s| && Settled(s, from, lo, hi, cmp)
    requires ThreeWay(s, lo, p, q, hi, v, cmp) && Sorted(s, lo, p, cmp)
    ensures Settled(s, from, q, hi, cmp)
  {
    forall i, j | from <= i < q && i < j < hi && (j < q || j >= q)
      ensures cmp(s[i], s[j]) <= 0
    {
      if i >= lo {
        ThreeWayOrder(s, lo, p, q, hi, v, cmp, i, j);
      }
    }
  }

  lemma ThreeWayOrder<T(!new)>(s: seq<T>, lo: nat, p: nat, q: nat, hi: nat, v: T, cmp: (T, T) -> int, i: nat, j: nat)
    requires TotalPreorder(cmp) && ThreeWay(s, lo, p, q, hi, v, cmp) && Sorted(s, lo, p, cmp)
    requires lo <= i < j < hi && i < q
    ensures cmp(s[i], s[j]) <= 0
  {
    if p <= j {
      assert cmp(s[i], v) <= 0;
      assert cmp(s[j], v) >= 0;
      Signs(cmp, s[j], v);
      Transitive(cmp, s[i], v, s[j]);
    }
  }

  lemma Transitive<T(!new)>(cmp: (T, T) -> int, x: T, y: T, z: T)
    requires TotalPreorder(cmp) && cmp(x, y) <= 0 && cmp(y, z) <= 0
    ensures cmp(x, z) <= 0
  {
  }

  // ----- the sort

  /** The pivot: the middle element, the median of three, or the median of three medians. */
  method ChoosePivot<T(!new)>(a: array<T>, lo: nat, n: nat, cmp: (T, T) -> int) returns (pm: nat)
    requires n >= 7 && lo + n <= a.Length
    ensures lo <= pm < lo + n
  {
    pm := lo + n / 2;
    if n > 7 {
      var pl, pn := lo, lo + n - 1;
      if n > 40 {
        var d := n / 8;
        pl := Med3(a[..], pl, pl + d, pl + 2 * d, cmp);
        pm := Med3(a[..], pm - d, pm, pm + d, cmp);
        pn := Med3(a[..], pn - 2 * d, pn - d, pn, cmp);
      }
      pm := Med3(a[..], pl, pm, pn, cmp);
    }
  }

  /** One round: either `lo .. lo + n` is sorted outright, by insertion, or it is split three ways. */
  method Round<T(!new)>(a: array<T>, lo: nat, n: nat, cmp: (T, T) -> int)
    returns (done: bool, p: nat, q: nat, ghost v: T)
    requires TotalPreorder(cmp) && lo + n <= a.Length && n > 0
    modifies a
    ensures Rearranged(old(a[..]), a[..], lo, lo + n)
    ensures done ==> Sorted(a[..], lo, lo + n, cmp)
    ensures !done ==>
      ThreeWay(a[..], lo, p, q, lo + n, v, cmp) && lo <= p <= q <= lo + n && p - lo < n && lo + n - q < n
  {
    hide TotalPreorder, Rearranged, Sorted, Zones, Swapped;
    p, q, v, done := lo, lo, a[lo], true;
    var hi := lo + n;
    if n < 7 {
      InsertionSort(a, lo, hi, cmp);
      return;
    }
    var pm := ChoosePivot(a, lo, n, cmp);
    Swap(a, lo, pm, lo, hi);
    ghost var s := a[..];
    v := a[lo];
    var pa, pb, d, swaps := Partition(a, lo, hi, cmp);
    ghost var t := a[..];
    RearrangedChain(old(a[..]), s, t, lo, hi);
    if !swaps {
      InsertionSort(a, lo, hi, cmp);
      RearrangedChain(old(a[..]), t, a[..], lo, hi);
      return;
    }
    ZoneBounds(t, lo, pa, pb, pb, d, hi, v, cmp);
    Gather(a, lo, pa, pb, d, hi, v, cmp);
    RearrangedChain(old(a[..]), t, a[..], lo, hi);
    done, p, q := false, lo + (pb - pa), hi - (d - pb);
  }

  lemma SortingLess<T(!new)>(s: seq<T>, t: seq<T>, lo: nat, p: nat, q: nat, hi: nat, v: T, cmp: (T, T) -> int)
    requires ThreeWay(s, lo, p, q, hi, v, cmp) && Rearranged(s, t, lo, p)
    ensures ThreeWay(t, lo, p, q, hi, v, cmp)
  {
    StillLess(s, t, lo, p, v, cmp);
  }

  /** What is left to do shrinks to nothing, or has been sorted. */
  lemma SettledDone<T(!new)>(s: seq<T>, from: nat, lo: nat, hi: nat, cmp: (T, T) -> int)
    requires hi <= |s| && Settled(s, from, lo, hi, cmp) && Sorted(s, lo, hi, cmp)
    ensures Sorted(s, from, hi, cmp)
  {
  }

  lemma OneSorted<T(!new)>(s: seq<T>, lo: nat, hi: nat, cmp: (T, T) -> int)
    requires hi <= |s| && hi <= lo + 1
    ensures Sorted(s, lo, hi, cmp)
  {
  }

  lemma NothingSettled<T(!new)>(s: seq<T>, lo: nat, hi: nat, cmp: (T, T) -> int)
    requires lo <= hi <= |s|
    ensures Settled(s, lo, lo, hi, cmp)
  {
  }

  /** Sorts `base .. base + count` and touches nothing else. */
  method Sort<T(!new)>(a: array<T>, base: nat, count: nat, cmp: (T, T) -> int)
    requires TotalPreorder(cmp) && base + count <= a.Length
    modifies a
    ensures Sorted(a[..], base, base + count, cmp) && Rearranged(old(a[..]), a[..], base, base + count)
    decreases count
  {
    hide TotalPreorder, Rearranged, Sorted, Settled, ThreeWay;
    var lo, n, hi := base, count, base + count;
    NothingSettled(a[..], lo, hi, cmp);
    RearrangedSelf(a[..], lo, hi);
    while n > 1
      invariant base <= lo && lo + n == hi <= a.Length && n <= count
      invariant Settled(a[..], base, lo, hi, cmp) && Rearranged(old(a[..]), a[..], base, hi)
    {
      ghost var s := a[..];
      var done, p, q;
      ghost var v;
      done, p, q, v := Round(a, lo, n, cmp);
      ghost var t := a[..];
      SettledKept(s, t, base, lo, hi, cmp);
      RearrangedWider(s, t, base, hi, lo, hi);
      RearrangedChain(old(a[..]), s, t, base, hi);
      if done {
        SettledDone(t, base, lo, hi, cmp);
        return;
      }
      if p - lo > 1 {
        Sort(a, lo, p - lo, cmp);
      } else {
        RearrangedSelf(t, lo, p);
        OneSorted(t, lo, p, cmp);
      }
      ghost var u := a[..];
      RearrangedWider(t, u, base, hi, lo, p);
      RearrangedWider(t, u, lo, hi, lo, p);
      RearrangedChain(old(a[..]), t, u, base, hi);
      SettledKept(t, u, base, lo, hi, cmp);
      SortingLess(t, u, lo, p, q, hi, v, cmp);
      SettledGrows(u, base, lo, p, q, hi, v, cmp);
      lo, n := q, hi - q;
    }
    OneSorted(a[..], lo, hi, cmp);
    SettledDone(a[..], base, lo, hi, cmp);
  }
}
