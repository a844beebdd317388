/** The operations of the List Memory Manager on one pool. */
module LmmPool {
  import opened FreeList
  import opened AlignedSearch
  import opened Bits
  import opened Lmm

  /** The region has every attribute asked for: `!(flags & ~reg->flags)`. */
  predicate Matches(flags: nat, r: Region) {
    AndNot(flags, r.flags) == 0
  }

  /** Every bit of `flags` is one of `has`. */
  ghost predicate HasAll(flags: nat, has: nat) {
    forall i: nat :: Bit(flags, i) ==> Bit(has, i)
  }

  lemma MatchesIff(flags: nat, r: Region)
    ensures Matches(flags, r) <==> HasAll(flags, r.flags)
  {
    var d := AndNot(flags, r.flags);
    forall i: nat
      ensures Bit(d, i) <==> Bit(flags, i) && !Bit(r.flags, i)
      ensures !Bit(0, i)
    {
      AndNotBit(flags, r.flags, i);
      ZeroHasNoBits(i);
    }
    if HasAll(flags, r.flags) {
      SameBits(d, 0);
    }
  }

  /** Asking for no attribute admits every region. */
  lemma NoFlagsNeeded(has: nat)
    ensures HasAll(0, has)
  {
    forall i: nat
      ensures !Bit(0, i)
    {
      ZeroHasNoBits(i);
    }
  }

  lemma {:induction false} AndNotSelf(x: nat)
    ensures AndNot(x, x) == 0
  {
    if x > 0 {
      AndNotSelf(x / 2);
    }
  }

  // ----- first fit

  predicate NoneBigEnough(ns: seq<Node>, k: nat, size: nat) {
    forall i :: 0 <= i < k && i < |ns| ==> ns[i].size < size
  }

  /** Node `i` of region `r` is the first, in list order, of at least `size` bytes in a matching region. */
  predicate FirstFit(rs: seq<Region>, size: nat, flags: nat, r: nat, i: nat) {
    && NoFitBefore(rs, size, flags, r)
    && r < |rs| && Matches(flags, rs[r])
    && i < |rs[r].nodes| && rs[r].nodes[i].size >= size
    && NoneBigEnough(rs[r].nodes, i, size)
  }

  predicate NoFitBefore(rs: seq<Region>, size: nat, flags: nat, r: nat) {
    forall q :: 0 <= q < r && q < |rs| && Matches(flags, rs[q]) ==> NoneBigEnough(rs[q].nodes, |rs[q].nodes|, size)
  }

  ghost predicate IsFirstFit(rs: seq<Region>, size: nat, flags: nat, p: nat) {
    exists r: nat, i: nat :: FirstFit(rs, size, flags, r, i) && rs[r].nodes[i].addr == p
  }

  method FindFit(rs: seq<Region>, size: nat, flags: nat) returns (r: nat, i: nat)
    ensures r <= |rs| && NoFitBefore(rs, size, flags, r)
    ensures r < |rs| ==> FirstFit(rs, size, flags, r, i)
  {
    r, i := 0, 0;
    while r < |rs|
      invariant r <= |rs| && NoFitBefore(rs, size, flags, r)
    {
      if Matches(flags, rs[r]) {
        i := 0;
        while i < |rs[r].nodes|
          invariant i <= |rs[r].nodes| && NoneBigEnough(rs[r].nodes, i, size)
        {
          if rs[r].nodes[i].size >= size {
            return;
          }
          i := i + 1;
        }
      }
      r := r + 1;
    }
  }

  // ----- aligned fit inside a range

  /** A block of `size` bytes at `a` lies in node `n` and in `lo..hi` and has the wanted low bits. */
  predicate Room(n: Node, size: nat, bits: nat, ofs: nat, lo: nat, hi: nat, a: nat) {
    && n.addr <= a && a + size <= n.End()
    && lo <= a && a + size <= hi
    && Congruent(a, ofs, bits)
  }

  ghost predicate NoRoom(ns: seq<Node>, k: nat, size: nat, bits: nat, ofs: nat, lo: nat, hi: nat) {
    forall i, a :: 0 <= i < k && i < |ns| ==> !Room(ns[i], size, bits, ofs, lo, hi, a)
  }

  ghost predicate NoRoomBefore(rs: seq<Region>, r: nat, size: nat, flags: nat, bits: nat, ofs: nat, lo: nat, hi: nat) {
    forall q :: 0 <= q < r && q < |rs| && Matches(flags, rs[q]) ==>
      NoRoom(rs[q].nodes, |rs[q].nodes|, size, bits, ofs, lo, hi)
  }

  /** `a` is the lowest place in the first node that has room in the first matching region that has room. */
  ghost predicate FirstRoom(rs: seq<Region>, r: nat, i: nat, a: nat,
                            size: nat, flags: nat, bits: nat, ofs: nat, lo: nat, hi: nat) {
    && NoRoomBefore(rs, r, size, flags, bits, ofs, lo, hi)
    && r < |rs| && Matches(flags, rs[r]) && i < |rs[r].nodes|
    && NoRoom(rs[r].nodes, i, size, bits, ofs, lo, hi)
    && Room(rs[r].nodes[i], size, bits, ofs, lo, hi, a)
    && forall y :: Room(rs[r].nodes[i], size, bits, ofs, lo, hi, y) ==> a <= y
  }

  ghost predicate IsFirstRoom(rs: seq<Region>, a: nat, size: nat, flags: nat, bits: nat, ofs: nat, lo: nat, hi: nat) {
    exists r: nat, i: nat :: FirstRoom(rs, r, i, a, size, flags, bits, ofs, lo, hi)
  }

  /** What a caller can check to know that no 32-bit sum of the search matters: the range does not wrap,
      and neither does the block when its lower bound is raised by the alignment. */
  predicate NoWrap(size: nat, bits: nat, lo: nat, hi: nat) {
    hi < WORD && lo + Pow2(bits) + size <= WORD
  }

  /** The two tests of one node, on words: `addr` starts the lowest candidate, `fits` says that it lies in
      the node and `past` that it ends beyond the range. */
  method Candidate(node: Node, size: nat, bits: nat, ofs: nat, lo: nat, inMax: nat, ghost q: Query)
    returns (addr: nat, fits: bool, past: bool, ghost exact: nat)
    requires q == Query(size, q.flags, bits, ofs, lo, inMax)
    requires node.End() < WORD && lo < WORD && bits <= 32
    ensures Max(node.addr, lo) <= exact < Max(node.addr, lo) + Pow2(bits) && Congruent(exact, ofs, bits)
    ensures forall y: nat :: Max(node.addr, lo) <= y && Congruent(y, ofs, bits) ==> exact <= y
    ensures addr == exact % WORD && exact == q.Start(node) && past == q.Past(node)
    ensures node.size >= size ==> fits == q.Fits(node)
    ensures fits == WrappedFits(node, size, exact) && past == ((addr + size) % WORD > inMax)
  {
    hide Congruent, WrappedFits, Raise, Query.Fits, Query.Past, Query.Start;
    addr, exact := NextAligned(if node.addr < lo then lo else node.addr, bits, ofs);
    CandidateWords(q, node, addr, exact);
    fits := (addr - node.addr + size) % WORD <= node.size;
    past := (addr + size) % WORD > inMax;
  }

  /** Cutting the candidate to a word first changes neither test. */
  lemma CandidateWords(q: Query, node: Node, addr: nat, exact: nat)
    requires exact == Raise(Max(node.addr, q.lo), q.bits, q.ofs) && addr == exact % WORD
    ensures exact == q.Start(node)
    ensures (addr - node.addr + q.size) % WORD <= node.size <==> WrappedFits(node, q.size, exact)
    ensures node.size >= q.size ==> (WrappedFits(node, q.size, exact) <==> q.Fits(node))
    ensures (addr + q.size) % WORD > q.inMax <==> q.Past(node)
  {
    WrapDifference(exact, addr, node.addr, q.size);
    WrapAdd(exact, addr, q.size);
  }

  /** The test `addr - node + size > node->size` fails, as computed on words. */
  predicate WrappedFits(node: Node, size: nat, exact: nat)
    requires node.addr <= exact
  {
    (exact - node.addr + size) % WORD <= node.size
  }

  lemma WrapDifference(x: nat, w: nat, a: nat, size: nat)
    requires w == x % WORD && a <= x
    ensures (w - a + size) % WORD == (x - a + size) % WORD
  {
  }

  /** On words the test agrees with the test on exact numbers unless the sum wraps to a small value. */
  lemma WrappedFitsIff(node: Node, size: nat, exact: nat)
    requires node.addr <= exact && node.End() < WORD
    ensures (WrappedFits(node, size, exact) <==> exact + size <= node.End())
       <==> !(exact - node.addr + size >= WORD && (exact - node.addr + size) % WORD <= node.size)
  {
  }

  // ----- what the search accepts, on words

  /** The arguments of an aligned search, with the end of the range as a word. */
  datatype Query = Query(size: nat, flags: nat, bits: nat, ofs: nat, lo: nat, inMax: nat) {
    /** Where the lowest candidate of a node starts. */
    function Start(n: Node): (a: nat)
      ensures n.addr <= a && lo <= a
    {
      Raise(Max(n.addr, lo), bits, ofs)
    }

    /** The node is not passed over. */
    predicate Fits(n: Node) {
      n.size >= size && WrappedFits(n, size, Start(n))
    }

    /** The candidate seems to end beyond the range, which ends the walk along the region. */
    predicate Past(n: Node) {
      (Start(n) + size) % WORD > inMax
    }

    /** The block accepted does lie in its node. */
    predicate Inside(n: Node) {
      n.addr <= Start(n) % WORD && Start(n) % WORD + size <= n.End()
    }

    predicate Searches(r: Region) {
      Matches(flags, r) && r.min < inMax && lo < r.max
    }

    predicate Stops(ns: seq<Node>, i: nat) {
      i < |ns| && Fits(ns[i]) && forall j :: 0 <= j < i ==> !Fits(ns[j])
    }

    /** The walk along these nodes accepts none of them. */
    predicate Barren(ns: seq<Node>) {
      forall i :: 0 <= i < |ns| && Stops(ns, i) ==> Past(ns[i])
    }

    predicate BarrenBefore(rs: seq<Region>, r: nat) {
      forall q :: 0 <= q < r && q < |rs| && Searches(rs[q]) ==> Barren(rs[q].nodes)
    }

    /** Node `i` of region `r` is the one that passes the tests on words. */
    predicate Accepts(rs: seq<Region>, r: nat, i: nat) {
      && r < |rs| && Searches(rs[r]) && Stops(rs[r].nodes, i) && !Past(rs[r].nodes[i])
      && BarrenBefore(rs, r)
    }
  }

  lemma AcceptsOne(q: Query, rs: seq<Region>, r: nat, i: nat)
    requires q.Accepts(rs, r, i)
    ensures forall s: nat, j: nat :: q.Accepts(rs, s, j) ==> s == r && j == i
  {
    hide Query.Fits, Query.Past, Query.Searches;
    forall s: nat, j: nat | q.Accepts(rs, s, j)
      ensures s == r && j == i
    {
      assert s < r ==> q.Barren(rs[s].nodes);
      assert r < s ==> q.Barren(rs[r].nodes);
    }
  }

  lemma AcceptsMatches(q: Query, rs: seq<Region>, r: nat, i: nat)
    requires q.Accepts(rs, r, i)
    ensures r < |rs| && i < |rs[r].nodes| && Matches(q.flags, rs[r])
  {
  }

  lemma AcceptsNone(q: Query, rs: seq<Region>)
    requires q.BarrenBefore(rs, |rs|)
    ensures forall r: nat, i: nat :: !q.Accepts(rs, r, i)
  {
  }

  /** The call goes wrong: the place that passes the tests is not in its node. */
  ghost predicate GoesWild(rs: seq<Region>, q: Query) {
    exists r: nat, i: nat :: q.Accepts(rs, r, i) && !q.Inside(rs[r].nodes[i])
  }

  /** A pool in order, with 16 KB free at 4 KB, and a request for 8 KB in the last page of memory and the
      first one after it: the sums of range and block both wrap, and the call goes wrong. */
  lemma WildPool()
    ensures var rs := [Region(0, 0xFFFF_FFF8, 0, 0, 0x4000, [Node(0x1000, 0x4000)])];
      Valid(rs) && GoesWild(rs, Query(0x2000, 0, 0, 0, 0xFFFF_F000, (0xFFFF_F000 + 0x2000) % WORD))
  {
    var ns := [Node(0x1000, 0x4000)];
    var rs := [Region(0, 0xFFFF_FFF8, 0, 0, 0x4000, ns)];
    var q := Query(0x2000, 0, 0, 0, 0xFFFF_F000, 0x1000);
    assert Sum(ns) == 0x4000;
    assert Pow2(0) == 1;
    assert q.Start(ns[0]) == 0xFFFF_F000;
    assert q.Stops(rs[0].nodes, 0);
    assert q.Accepts(rs, 0, 0) && !q.Inside(rs[0].nodes[0]);
  }

  /** Without wrap-around the tests on words are the tests on exact numbers. */
  lemma CandidateExact(node: Node, size: nat, bits: nat, lo: nat, hi: nat, exact: nat)
    requires NoWrap(size, bits, lo, hi) && node.End() < WORD && node.addr <= exact < Max(node.addr, lo) + Pow2(bits)
    ensures WrappedFits(node, size, exact) <==> exact + size <= node.End()
    ensures exact + size <= node.End() ==> exact % WORD == exact && (exact % WORD + size) % WORD == exact + size
  {
    var v := exact - node.addr + size;
    assert v < WORD;
  }

  /** The walk along one region's list, on 32-bit words. The early exit, taken when the lowest candidate of
      a node overshoots the range, loses nothing. */
  method FindInRegion(ns: seq<Node>, size: nat, bits: nat, ofs: nat, lo: nat, inMax: nat,
                      ghost hi: nat, ghost min: nat, ghost max: nat, ghost q: Query)
    returns (i: nat, addr: nat)
    requires q == Query(size, q.flags, bits, ofs, lo, inMax)
    requires Canonical(ns, min, max) && max < WORD && lo < WORD && bits <= 32 && inMax == hi % WORD
    ensures i <= |ns| && addr < WORD
    ensures i < |ns| ==> q.Stops(ns, i) && !q.Past(ns[i]) && addr == q.Start(ns[i]) % WORD
    ensures i == |ns| ==> q.Barren(ns)
    ensures NoWrap(size, bits, lo, hi) ==> NoRoom(ns, i, size, bits, ofs, lo, hi)
    ensures NoWrap(size, bits, lo, hi) && i < |ns| ==> Room(ns[i], size, bits, ofs, lo, hi, addr)
    ensures NoWrap(size, bits, lo, hi) && i < |ns| ==> forall y :: Room(ns[i], size, bits, ofs, lo, hi, y) ==> addr <= y
  {
    hide Congruent, WrappedFits, Query.Fits, Query.Past, Query.Start, Query.Barren;
    i, addr := 0, 0;
    while i < |ns|
      invariant i <= |ns| && addr < WORD
      invariant forall j :: 0 <= j < i ==> !q.Fits(ns[j])
      invariant NoWrap(size, bits, lo, hi) ==> NoRoom(ns, i, size, bits, ofs, lo, hi)
    {
      var node := ns[i];
      if node.size >= size {
        NodeFacts(ns, min, max, i);
        var fits, past;
        ghost var exact;
        addr, fits, past, exact := Candidate(node, size, bits, ofs, lo, inMax, q);
        if NoWrap(size, bits, lo, hi) {
          CandidateExact(node, size, bits, lo, hi, exact);
        }
        if fits {
          if !past {
            return;
          }
          if NoWrap(size, bits, lo, hi) {
            Overshoots(ns, i, exact, size, bits, ofs, lo, hi, min, max);
          }
          StopsPast(q, ns, i);
          i := |ns|;
          return;
        }
      }
      TooSmall(q, node);
      i := i + 1;
    }
    NoneFits(q, ns);
  }

  lemma TooSmall(q: Query, n: Node)
    ensures n.size < q.size ==> !q.Fits(n)
  {
  }

  lemma NoneFits(q: Query, ns: seq<Node>)
    requires forall j :: 0 <= j < |ns| ==> !q.Fits(ns[j])
    ensures q.Barren(ns)
  {
  }

  lemma StopsPast(q: Query, ns: seq<Node>, i: nat)
    requires q.Stops(ns, i) && q.Past(ns[i])
    ensures q.Barren(ns)
  {
  }

  /** If the lowest candidate of node `i` ends beyond the range, so does every one of a later node. */
  lemma Overshoots(ns: seq<Node>, i: nat, addr: nat, size: nat, bits: nat, ofs: nat, lo: nat, hi: nat, min: nat,
                   max: nat)
    requires Canonical(ns, min, max) && i < |ns| && NoRoom(ns, i, size, bits, ofs, lo, hi)
    requires addr + size > hi
    requires forall y: nat :: lo <= y && ns[i].addr <= y && Congruent(y, ofs, bits) ==> addr <= y
    ensures NoRoom(ns, |ns|, size, bits, ofs, lo, hi)
  {
    forall k, a | i <= k < |ns|
      ensures !Room(ns[k], size, bits, ofs, lo, hi, a)
    {
      assert ns[i].addr <= ns[k].addr;
    }
  }

  lemma RejectedRegion(r: Region, size: nat, bits: nat, ofs: nat, lo: nat, hi: nat)
    requires RegionOk(r) && size > 0 && (r.min >= hi || r.max <= lo)
    ensures NoRoom(r.nodes, |r.nodes|, size, bits, ofs, lo, hi)
  {
    forall k, a | 0 <= k < |r.nodes|
      ensures !Room(r.nodes[k], size, bits, ofs, lo, hi, a)
    {
      NodeFacts(r.nodes, r.min, r.max, k);
    }
  }

  method FindRoom(rs: seq<Region>, size: nat, flags: nat, bits: nat, ofs: nat, lo: nat, inMax: nat,
                  ghost hi: nat)
    returns (r: nat, i: nat, addr: nat)
    requires Valid(rs) && size > 0 && lo < WORD && bits <= 32 && inMax == hi % WORD
    ensures r <= |rs| && (r < |rs| ==> i < |rs[r].nodes|) && addr < WORD
    ensures var q := Query(size, flags, bits, ofs, lo, inMax);
      && (r < |rs| ==> q.Accepts(rs, r, i) && addr == q.Start(rs[r].nodes[i]) % WORD)
      && (r == |rs| ==> q.BarrenBefore(rs, r))
    ensures NoWrap(size, bits, lo, hi) ==> NoRoomBefore(rs, r, size, flags, bits, ofs, lo, hi)
    ensures NoWrap(size, bits, lo, hi) && r < |rs| ==> FirstRoom(rs, r, i, addr, size, flags, bits, ofs, lo, hi)
  {
    hide NoRoom, Query.Stops, Query.Past, Query.Barren;
    ghost var q := Query(size, flags, bits, ofs, lo, inMax);
    r, i, addr := 0, 0, 0;
    while r < |rs|
      invariant r <= |rs| && addr < WORD
      invariant q.BarrenBefore(rs, r)
      invariant NoWrap(size, bits, lo, hi) ==> NoRoomBefore(rs, r, size, flags, bits, ofs, lo, hi)
    {
      assert RegionOk(rs[r]);
      if rs[r].min >= inMax || rs[r].max <= lo {
        if NoWrap(size, bits, lo, hi) {
          RejectedRegion(rs[r], size, bits, ofs, lo, hi);
        }
      } else if Matches(flags, rs[r]) {
        i, addr := FindInRegion(rs[r].nodes, size, bits, ofs, lo, inMax, hi, rs[r].min, rs[r].max, q);
        if i < |rs[r].nodes| {
          return;
        }
      }
      r := r + 1;
    }
  }

  // ----- the same in terms of free bytes

  /** The `size` bytes from `a` on are free in one region. */
  ghost predicate FreeRun(ns: seq<Node>, a: nat, size: nat) {
    forall x :: a <= x < a + size ==> Covers(ns, x)
  }

  /** No region with the attributes asked for has `size` free bytes in a row. */
  ghost predicate NoRun(rs: seq<Region>, size: nat, flags: nat) {
    forall r, a :: 0 <= r < |rs| && HasAll(flags, rs[r].flags) ==> !FreeRun(rs[r].nodes, a, size)
  }

  /** A block at `a` lies in the range asked for, at an address of the form asked for. */
  predicate Wanted(a: nat, size: nat, bits: nat, ofs: nat, lo: nat, hi: nat) {
    lo <= a && a + size <= hi && a % Pow2(bits) == ofs % Pow2(bits)
  }

  /** No region with the attributes asked for has `size` free bytes in a row where they are wanted. */
  ghost predicate NoPlace(rs: seq<Region>, size: nat, flags: nat, bits: nat, ofs: nat, lo: nat, hi: nat) {
    forall r, a :: 0 <= r < |rs| && HasAll(flags, rs[r].flags) && Wanted(a, size, bits, ofs, lo, hi) ==>
      !FreeRun(rs[r].nodes, a, size)
  }

  /** The region of `p` has the attributes asked for. */
  ghost predicate Suits(rs: seq<Region>, flags: nat, p: nat) {
    exists r :: 0 <= r < |rs| && rs[r].min <= p < rs[r].max && HasAll(flags, rs[r].flags)
  }

  /** Free bytes in a row are in one node. */
  lemma RunInNode(ns: seq<Node>, lo: nat, hi: nat, a: nat, size: nat) returns (i: nat)
    requires Canonical(ns, lo, hi) && size > 0 && FreeRun(ns, a, size)
    ensures i < |ns| && ns[i].addr <= a && a + size <= ns[i].End()
  {
    assert Covers(ns, a);
    i :| 0 <= i < |ns| && ns[i].addr <= a < ns[i].End();
    GapAfter(ns, lo, hi, i);
  }

  lemma GapAfter(ns: seq<Node>, lo: nat, hi: nat, i: nat)
    requires Canonical(ns, lo, hi) && i < |ns|
    ensures !Covers(ns, ns[i].End())
  {
    forall j | 0 <= j < |ns|
      ensures !(ns[j].addr <= ns[i].End() < ns[j].End())
    {
      assert i < j ==> ns[i].End() < ns[j].addr;
    }
  }

  lemma NodeIsRun(ns: seq<Node>, i: nat, a: nat, size: nat)
    requires i < |ns| && ns[i].addr <= a && a + size <= ns[i].End()
    ensures FreeRun(ns, a, size)
  {
  }

  lemma NoFitNoRun(rs: seq<Region>, size: nat, flags: nat)
    requires Valid(rs) && size > 0 && NoFitBefore(rs, AlignUp(size), flags, |rs|)
    ensures NoRun(rs, size, flags)
  {
    forall r, a | 0 <= r < |rs| && HasAll(flags, rs[r].flags)
      ensures !FreeRun(rs[r].nodes, a, size)
    {
      assert RegionOk(rs[r]);
      MatchesIff(flags, rs[r]);
      if FreeRun(rs[r].nodes, a, size) {
        var i := RunInNode(rs[r].nodes, rs[r].min, rs[r].max, a, size);
        NodeFacts(rs[r].nodes, rs[r].min, rs[r].max, i);
        AlignUpFits(size, rs[r].nodes[i].size);
        assert false;
      }
    }
  }

  lemma NothingFits(rs: seq<Region>, size: nat, flags: nat, s: nat)
    requires Valid(rs) && size > 0 && NoFitBefore(rs, s, flags, |rs|)
    ensures s == AlignUp(size) ==> NoRun(rs, size, flags)
    ensures s == AlignUp(size) && flags == 0 ==> forall r, a :: 0 <= r < |rs| ==> !FreeRun(rs[r].nodes, a, size)
  {
    hide Valid, NoFitBefore, HasAll, FreeRun;
    if s == AlignUp(size) {
      NoFitNoRun(rs, size, flags);
      forall r, a | flags == 0 && 0 <= r < |rs|
        ensures !FreeRun(rs[r].nodes, a, size)
      {
        NoFlagsNeeded(rs[r].flags);
      }
    }
  }

  lemma FitIsRun(rs: seq<Region>, size: nat, flags: nat, r: nat, i: nat)
    requires Valid(rs) && size > 0 && FirstFit(rs, AlignUp(size), flags, r, i)
    ensures !NoRun(rs, size, flags) && Suits(rs, flags, rs[r].nodes[i].addr)
  {
    assert RegionOk(rs[r]);
    MatchesIff(flags, rs[r]);
    var n := rs[r].nodes[i];
    NodeFacts(rs[r].nodes, rs[r].min, rs[r].max, i);
    AlignUpFacts(size);
    NodeIsRun(rs[r].nodes, i, n.addr, size);
  }

  lemma RoomHere(n: Node, size: nat, bits: nat, ofs: nat, lo: nat, hi: nat, a: nat)
    requires n.addr <= a && a + size <= n.End() && Wanted(a, size, bits, ofs, lo, hi)
    ensures Room(n, size, bits, ofs, lo, hi, a)
  {
    CongruentIsModular(a, ofs, bits);
  }

  lemma NoRoomNoPlace(rs: seq<Region>, size: nat, flags: nat, bits: nat, ofs: nat, lo: nat, hi: nat)
    requires Valid(rs) && size > 0 && NoRoomBefore(rs, |rs|, size, flags, bits, ofs, lo, hi)
    ensures NoPlace(rs, size, flags, bits, ofs, lo, hi)
  {
    hide Congruent, HasAll;
    forall r, a | 0 <= r < |rs| && HasAll(flags, rs[r].flags) && Wanted(a, size, bits, ofs, lo, hi)
      ensures !FreeRun(rs[r].nodes, a, size)
    {
      assert RegionOk(rs[r]);
      MatchesIff(flags, rs[r]);
      if FreeRun(rs[r].nodes, a, size) {
        var i := RunInNode(rs[r].nodes, rs[r].min, rs[r].max, a, size);
        RoomHere(rs[r].nodes[i], size, bits, ofs, lo, hi, a);
      }
    }
  }

  lemma RoomIsPlace(rs: seq<Region>, r: nat, i: nat, a: nat,
                    size: nat, flags: nat, bits: nat, ofs: nat, lo: nat, hi: nat)
    requires Valid(rs) && FirstRoom(rs, r, i, a, size, flags, bits, ofs, lo, hi)
    ensures !NoPlace(rs, size, flags, bits, ofs, lo, hi)
  {
    hide Congruent, HasAll;
    MatchesIff(flags, rs[r]);
    CongruentIsModular(a, ofs, bits);
    assert Wanted(a, size, bits, ofs, lo, hi);
    NodeIsRun(rs[r].nodes, i, a, size);
  }

  lemma PlaceSuits(rs: seq<Region>, r: nat, i: nat, flags: nat, p: nat)
    requires Valid(rs) && r < |rs| && i < |rs[r].nodes| && Matches(flags, rs[r])
    requires rs[r].nodes[i].addr <= p < rs[r].nodes[i].End()
    ensures Suits(rs, flags, p)
  {
    assert RegionOk(rs[r]);
    MatchesIff(flags, rs[r]);
    NodeFacts(rs[r].nodes, rs[r].min, rs[r].max, i);
  }

  // ----- the lowest free address

  function Max(a: nat, b: nat): nat {
    if a < b then b else a
  }

  /** No node among the first `k` reaches beyond `start` below `lowest`. */
  predicate LowestIn(ns: seq<Node>, k: nat, start: nat, lowest: nat) {
    forall i :: 0 <= i < k && i < |ns| && ns[i].End() > start ==> lowest <= Max(ns[i].addr, start)
  }

  /** The run `lowest .. lowest + size` is what node `i` of region `r` offers at or above `start`. */
  predicate RunOf(rs: seq<Region>, r: nat, i: nat, start: nat, lowest: nat, size: nat, flags: nat) {
    && r < |rs| && i < |rs[r].nodes| && flags == rs[r].flags && size > 0
    && lowest == Max(rs[r].nodes[i].addr, start) && lowest + size == rs[r].nodes[i].End()
  }

  ghost predicate BestSoFar(rs: seq<Region>, r: nat, start: nat, lowest: nat, size: nat, flags: nat) {
    && (forall q :: 0 <= q < r && q < |rs| ==> LowestIn(rs[q].nodes, |rs[q].nodes|, start, lowest))
    && (size == 0 ==> lowest == NO_ADDR)
    && (size > 0 ==> exists q, i :: RunOf(rs, q, i, start, lowest, size, flags))
  }

  lemma ScanDone(ns: seq<Node>, min: nat, max: nat, k: nat, start: nat, lowest: nat)
    requires Canonical(ns, min, max) && k < |ns| && LowestIn(ns, k, start, lowest)
    requires lowest <= Max(ns[k].addr, start)
    ensures LowestIn(ns, |ns|, start, lowest)
  {
    assert forall j :: k < j < |ns| ==> ns[k].addr < ns[j].addr;
  }

  method ScanRegion(reg: Region, start: nat, lowest: nat, size: nat, flags: nat)
    returns (lowest': nat, size': nat, flags': nat)
    requires RegionOk(reg) && start <= lowest
    ensures LowestIn(reg.nodes, |reg.nodes|, start, lowest') && lowest' <= lowest
    ensures (lowest', size', flags') != (lowest, size, flags) ==>
      exists i :: RunOf([reg], 0, i, start, lowest', size', flags')
  {
    lowest', size', flags' := lowest, size, flags;
    var ns := reg.nodes;
    var k: nat := 0;
    while k < |ns|
      invariant k <= |ns| && LowestIn(ns, k, start, lowest)
      invariant (lowest', size', flags') == (lowest, size, flags)
    {
      var node := ns[k];
      NodeFacts(ns, reg.min, reg.max, k);
      if node.addr >= lowest {
        ScanDone(ns, reg.min, reg.max, k, start, lowest);
        return;
      }
      if node.End() > start {
        if node.addr > start {
          lowest', size' := node.addr, node.size;
        } else {
          lowest', size' := start, node.size - (start - node.addr);
        }
        flags' := reg.flags;
        assert RunOf([reg], 0, k, start, lowest', size', flags');
        ScanDone(ns, reg.min, reg.max, k, start, lowest');
        return;
      }
      k := k + 1;
    }
  }

  // ----- what a caller may give back

  /** `a..b` lies in one region and none of it is free. */
  ghost predicate Returnable(rs: seq<Region>, a: nat, b: nat) {
    && (exists r :: 0 <= r < |rs| && rs[r].min <= a && b <= rs[r].max)
    && forall x :: a <= x < b ==> !FreeAt(rs, x)
  }

  /** With nothing asked for, the first fit is the first node there is. */
  lemma NothingThere(rs: seq<Region>, flags: nat, size: nat)
    requires NoFitBefore(rs, size, flags, |rs|)
    ensures size == 0 ==> forall r :: 0 <= r < |rs| && HasAll(flags, rs[r].flags) ==> rs[r].nodes == []
  {
    forall r | size == 0 && 0 <= r < |rs| && HasAll(flags, rs[r].flags)
      ensures rs[r].nodes == []
    {
      MatchesIff(flags, rs[r]);
      SomeBigEnough(rs[r].nodes);
    }
  }

  lemma SomeBigEnough(ns: seq<Node>)
    ensures ns != [] ==> !NoneBigEnough(ns, |ns|, 0)
  {
    if ns != [] {
      assert ns[0].size >= 0;
    }
  }

  lemma SomethingThere(rs: seq<Region>, flags: nat, r: nat, i: nat)
    requires Valid(rs) && r < |rs| && i < |rs[r].nodes| && Matches(flags, rs[r])
    ensures 0 < rs[r].nodes[i].addr && FreeAt(rs, rs[r].nodes[i].addr)
    ensures HasAll(flags, rs[r].flags) && Suits(rs, flags, rs[r].nodes[i].addr)
  {
    assert RegionOk(rs[r]);
    MatchesIff(flags, rs[r]);
    NodeFacts(rs[r].nodes, rs[r].min, rs[r].max, i);
    assert Covers(rs[r].nodes, rs[r].nodes[i].addr);
  }

  // ----- a list read through its links

  /** A list as the code reads it: a node at address 0 is the null pointer, so the list ends before it. */
  function Readable(ns: seq<Node>): seq<Node> {
    if ns == [] || ns[0].addr == 0 then [] else [ns[0]] + Readable(ns[1..])
  }

  lemma {:induction false} ReadableAll(ns: seq<Node>, lo: nat, hi: nat)
    requires Canonical(ns, lo, hi)
    ensures Readable(ns) == ns
  {
    if ns != [] {
      NodeFacts(ns, lo, hi, 0);
      FirstByte(ns, lo, hi);
      ReadableAll(ns[1..], lo, hi);
    }
  }

  lemma GivesReadable(rs: seq<Region>, r: nat, k: nat, a: nat, b: nat)
    requires r < |rs| && k <= |rs[r].nodes| && a < b
    requires Gives(rs, a, b, Replaced(rs, r, Joined(rs[r].nodes, k, a, b)))
    ensures Readable(Joined(rs[r].nodes, k, a, b)) == Joined(rs[r].nodes, k, a, b)
  {
    var ss := Replaced(rs, r, Joined(rs[r].nodes, k, a, b));
    assert RegionOk(ss[r]);
    ReadableAll(Joined(rs[r].nodes, k, a, b), ss[r].min, ss[r].max);
  }

  lemma ListLost(rs: seq<Region>, r: nat, k: nat, b: nat)
    requires Valid(rs) && r < |rs| && Slot(rs[r].nodes, k, 0) && b > 0
    ensures Readable(Joined(rs[r].nodes, k, 0, b)) == []
  {
    var ns := rs[r].nodes;
    SlotAtZero(ns, k);
    assert Joined(ns, k, 0, b)[0] == Merged(ns, k, 0, b);
  }

  lemma SlotAtZero(ns: seq<Node>, k: nat)
    ensures Slot(ns, k, 0) ==> k == 0
  {
    if 0 < k <= |ns| {
      assert ns[0].addr >= 0;
    }
  }

  lemma CountWrong(rs: seq<Region>, r: nat)
    requires r < |rs| && rs[r].nodes == [] && rs[r].free > 0
    ensures !Valid(rs)
  {
    assert !RegionOk(rs[r]);
  }

  lemma ValidNode(rs: seq<Region>, r: nat, i: nat)
    requires Valid(rs) && r < |rs| && i < |rs[r].nodes|
    ensures var n := rs[r].nodes[i]; 0 < n.addr && n.addr % 8 == 0 && n.size % 8 == 0
  {
    assert RegionOk(rs[r]);
    NodeFacts(rs[r].nodes, rs[r].min, rs[r].max, i);
  }

  lemma FirstFitCarves(rs: seq<Region>, size: nat, flags: nat, r: nat, i: nat)
    requires Valid(rs) && size > 0 && size % 8 == 0 && FirstFit(rs, size, flags, r, i)
    ensures var n := rs[r].nodes[i];
      && 0 < n.addr && n.addr % 8 == 0
      && Takes(rs, n.addr, n.addr + size, Replaced(rs, r, Carved(rs[r].nodes, i, n.addr, n.addr + size)))
      && Sum(Carved(rs[r].nodes, i, n.addr, n.addr + size)) == rs[r].free - size
  {
    hide Valid, Takes, Sum, Carved, Replaced, NoFitBefore, NoneBigEnough;
    var n := rs[r].nodes[i];
    ValidNode(rs, r, i);
    AlignedDifference(n.addr, size);
    CarveTakes(rs, r, i, n.addr, n.addr + size);
  }

  /** Any block inside a node can be carved out of it, with the header around it. */
  lemma BlockCarves(rs: seq<Region>, r: nat, i: nat, a: nat, size: nat)
    requires Valid(rs) && size > 0 && r < |rs| && i < |rs[r].nodes|
    requires rs[r].nodes[i].addr <= a && a + size <= rs[r].nodes[i].End()
    ensures var n := rs[r].nodes[i];
      && NodeOk(n, rs[r].min, rs[r].max)
      && 0 < n.addr <= AlignDown(a) <= a < AlignUp(a + size) <= n.End()
      && AlignUp(a + size) - AlignDown(a) == AlignUp(a % 8 + size)
      && Takes(rs, AlignDown(a), AlignUp(a + size),
               Replaced(rs, r, Carved(rs[r].nodes, i, AlignDown(a), AlignUp(a + size))))
      && Sum(Carved(rs[r].nodes, i, AlignDown(a), AlignUp(a + size))) == rs[r].free - AlignUp(a % 8 + size)
  {
    assert RegionOk(rs[r]);
    NodeFacts(rs[r].nodes, rs[r].min, rs[r].max, i);
    Outward(rs[r].nodes[i], a, size);
    CarveTakes(rs, r, i, AlignDown(a), AlignUp(a + size));
  }

  lemma RoomFacts(rs: seq<Region>, r: nat, i: nat, a: nat,
                  size: nat, flags: nat, bits: nat, ofs: nat, lo: nat, hi: nat)
    requires Valid(rs) && FirstRoom(rs, r, i, a, size, flags, bits, ofs, lo, hi)
    ensures r < |rs| && RegionOk(rs[r]) && i < |rs[r].nodes| && NodeOk(rs[r].nodes[i], rs[r].min, rs[r].max)
    ensures Room(rs[r].nodes[i], size, bits, ofs, lo, hi, a)
    ensures IsFirstRoom(rs, a, size, flags, bits, ofs, lo, hi)
  {
    assert RegionOk(rs[r]);
    NodeFacts(rs[r].nodes, rs[r].min, rs[r].max, i);
  }

  lemma TakesValid(rs: seq<Region>, a: nat, b: nat, ss: seq<Region>)
    requires Takes(rs, a, b, ss)
    ensures Valid(ss)
  {
  }

  lemma Outward(n: Node, a: nat, size: nat)
    requires n.addr % 8 == 0 && n.size % 8 == 0 && n.addr <= a && a + size <= n.End() && size > 0
    ensures n.addr <= AlignDown(a) <= a < AlignUp(a + size) <= n.End()
    ensures AlignUp(a + size) - AlignDown(a) == AlignUp(a % 8 + size)
    ensures AlignDown(a) % 8 == 0 && AlignUp(a + size) % 8 == 0
  {
    hide AlignDown, AlignUp;
    Rounded(a, size);
    AlignedDifference(n.addr, n.size);
    AlignDownFits(n.addr, a);
    AlignUpFits(a + size, n.End());
  }

  /** A block rounded outward to whole headers. */
  lemma Rounded(a: nat, size: nat)
    requires size > 0
    ensures AlignDown(a) + AlignUp(a % 8 + size) == AlignUp(a + size)
    ensures AlignDown(a) % 8 == 0 && AlignUp(a + size) % 8 == 0 && AlignUp(a % 8 + size) % 8 == 0
    ensures AlignDown(a) <= a < AlignUp(a + size) && 0 < AlignUp(a % 8 + size)
  {
    assert (a + size + 7) % 8 == (a % 8 + size + 7) % 8;
  }

  lemma AlignUpFacts(x: nat)
    ensures x <= AlignUp(x) && AlignUp(x) % 8 == 0
  {
  }

  /** The largest size or address that can be rounded up without wrapping. */
  const TOP_SIZE: nat := 0xFFFF_FFF8

  lemma RoundedSize(size: nat)
    requires size < WORD
    ensures size <= TOP_SIZE ==>
      size <= AlignUp(size) < WORD && AlignUp(size) % WORD == AlignUp(size) && AlignUp(size) % 8 == 0
    ensures size > TOP_SIZE ==> AlignUp(size) % WORD == 0 && AlignUp(size) == WORD
  {
  }

  lemma RoundedWord(x: nat)
    requires x < WORD
    ensures (AlignUp(x) % WORD) % 8 == 0
  {
    RoundedSize(x);
  }

  lemma FirstHeader(block: nat)
    ensures block >= 8 <==> AlignDown(block) > 0
    ensures block >= 8 ==> AlignDown(block) >= 8
  {
  }

  lemma NotAtZero(block: nat)
    ensures block > 0 ==> AlignUp(block) >= 8
    ensures AlignUp(block) % 8 == 0
  {
  }

  lemma SmallRange(addr: nat, size: nat)
    requires addr + size < WORD
    ensures NoWrap(size, 0, addr, addr + size)
  {
  }

  lemma AlignDownFacts(x: nat)
    ensures AlignDown(x) <= x && AlignDown(x) % 8 == 0
  {
  }

  lemma AlignUpFits(x: nat, y: nat)
    requires x <= y && y % 8 == 0
    ensures AlignUp(x) <= y
  {
  }

  lemma AlignDownFits(x: nat, y: nat)
    requires x <= y && x % 8 == 0
    ensures x <= AlignDown(y)
  {
  }

  // ----- reading BestSoFar as a statement about bytes

  lemma NothingBelow(rs: seq<Region>, start: nat, lowest: nat, x: int)
    requires Valid(rs) && start <= x && FreeAt(rs, x)
    requires forall q :: 0 <= q < |rs| ==> LowestIn(rs[q].nodes, |rs[q].nodes|, start, lowest)
    ensures lowest <= x < NO_ADDR
  {
    var q :| 0 <= q < |rs| && Covers(rs[q].nodes, x);
    RegionCovers(rs, q, x);
    assert RegionOk(rs[q]);
    assert LowestIn(rs[q].nodes, |rs[q].nodes|, start, lowest);
  }

  lemma RunIsFree(rs: seq<Region>, r: nat, i: nat, start: nat, lowest: nat, size: nat, flags: nat, x: int)
    requires Valid(rs) && RunOf(rs, r, i, start, lowest, size, flags) && lowest <= x < lowest + size
    ensures FreeAt(rs, x)
  {
    assert Covers(rs[r].nodes, x);
  }

  lemma RunAligned(rs: seq<Region>, r: nat, i: nat, start: nat, lowest: nat, size: nat, flags: nat)
    requires Valid(rs) && RunOf(rs, r, i, start, lowest, size, flags) && start % 8 == 0
    ensures lowest % 8 == 0 && size % 8 == 0 && 0 < lowest && lowest + size < NO_ADDR && start <= lowest
  {
    assert RegionOk(rs[r]);
    var n := rs[r].nodes[i];
    NodeFacts(rs[r].nodes, rs[r].min, rs[r].max, i);
    AlignedDifference(n.addr, n.size);
    AlignedDifference(n.addr + n.size, lowest);
  }

  /** What `lmm_find_free` reports: the lowest free address at or above `start`, rounded up to a whole
      header, with the rest of the node it lies in. */
  ghost predicate LowestFree(rs: seq<Region>, start: nat, addr: nat, size: nat, flags: nat) {
    && (forall x :: start <= x < addr ==> !FreeAt(rs, x))
    && (size == 0 ==> addr == NO_ADDR && forall x :: start <= x ==> !FreeAt(rs, x))
    && (size > 0 ==>
        && start <= addr && 0 < addr && addr % 8 == 0 && size % 8 == 0
        && (forall x :: addr <= x < addr + size ==> FreeAt(rs, x))
        && exists r: nat, i: nat :: RunOf(rs, r, i, start, addr, size, flags))
  }

  lemma BestIsLowest(rs: seq<Region>, start: nat, addr: nat, size: nat, flags: nat)
    requires Valid(rs) && start % 8 == 0 && BestSoFar(rs, |rs|, start, addr, size, flags)
    ensures LowestFree(rs, start, addr, size, flags)
  {
    hide Valid, RunOf, FreeAt, LowestIn;
    forall x | start <= x && FreeAt(rs, x)
      ensures addr <= x < NO_ADDR
    {
      NothingBelow(rs, start, addr, x);
    }
    if size > 0 {
      var r: nat, i: nat :| RunOf(rs, r, i, start, addr, size, flags);
      RunAligned(rs, r, i, start, addr, size, flags);
      forall x | addr <= x < addr + size
        ensures FreeAt(rs, x)
      {
        RunIsFree(rs, r, i, start, addr, size, flags, x);
      }
    }
  }

  /** Skipping a region, or scanning it, keeps the best run found the best. */
  lemma BestKept(rs: seq<Region>, r: nat, start: nat, lowest: nat, size: nat, flags: nat)
    requires Valid(rs) && r < |rs| && BestSoFar(rs, r, start, lowest, size, flags)
    requires rs[r].nodes == [] || rs[r].max <= start || rs[r].min > lowest
    ensures BestSoFar(rs, r + 1, start, lowest, size, flags)
  {
    assert RegionOk(rs[r]);
    forall i | 0 <= i < |rs[r].nodes|
      ensures rs[r].nodes[i].End() > start ==> lowest <= Max(rs[r].nodes[i].addr, start)
    {
      NodeFacts(rs[r].nodes, rs[r].min, rs[r].max, i);
    }
    assert LowestIn(rs[r].nodes, |rs[r].nodes|, start, lowest);
  }

  lemma BestScanned(rs: seq<Region>, r: nat, start: nat, lowest: nat, size: nat, flags: nat,
                    lowest': nat, size': nat, flags': nat)
    requires Valid(rs) && r < |rs| && BestSoFar(rs, r, start, lowest, size, flags)
    requires LowestIn(rs[r].nodes, |rs[r].nodes|, start, lowest') && lowest' <= lowest
    requires (lowest', size', flags') != (lowest, size, flags) ==>
      exists i: nat :: RunOf([rs[r]], 0, i, start, lowest', size', flags')
    ensures BestSoFar(rs, r + 1, start, lowest', size', flags')
  {
    if (lowest', size', flags') != (lowest, size, flags) {
      var i: nat :| RunOf([rs[r]], 0, i, start, lowest', size', flags');
      assert RunOf(rs, r, i, start, lowest', size', flags');
    }
    forall q | 0 <= q < r + 1
      ensures LowestIn(rs[q].nodes, |rs[q].nodes|, start, lowest')
    {
      if q < r {
        assert LowestIn(rs[q].nodes, |rs[q].nodes|, start, lowest);
      }
    }
  }

  /** The node that holds the reported run has room for any block at its start. */
  lemma RunHasRoom(rs: seq<Region>, start: nat, addr: nat, size: nat, flags: nat, want: nat)
    requires LowestFree(rs, start, addr, size, flags) && 0 < want <= size
    ensures !NoRoomBefore(rs, |rs|, want, flags, 0, 0, addr, addr + want)
  {
    var r: nat, i: nat :| RunOf(rs, r, i, start, addr, size, flags);
    AndNotSelf(flags);
    assert Matches(flags, rs[r]);
    assert Room(rs[r].nodes[i], want, 0, 0, addr, addr + want, addr);
    assert !NoRoom(rs[r].nodes, |rs[r].nodes|, want, 0, 0, addr, addr + want);
  }

  // ----- removing a range

  /** Bytes of `lo..hi` have been taken out and no others; below `upto` none of them is left. */
  ghost predicate Removing(rs: seq<Region>, lo: nat, hi: nat, upto: nat, ss: seq<Region>) {
    && Valid(ss) && SameFrames(rs, ss) && lo <= upto
    && (forall x :: FreeAt(ss, x) ==> FreeAt(rs, x))
    && (forall x :: FreeAt(rs, x) && !(lo <= x < hi) ==> FreeAt(ss, x))
    && (forall x :: lo <= x < upto ==> !FreeAt(ss, x))
  }

  lemma RemoveStart(rs: seq<Region>, lo: nat, hi: nat)
    requires Valid(rs)
    ensures Removing(rs, lo, hi, lo, rs)
  {
  }

  /** A start within seven of 2^32 is rounded to 0. */
  lemma NearTheTop(rs: seq<Region>, block: nat, rend: nat, addr: nat, found: nat, flags: nat)
    requires Valid(rs) && TOP_SIZE < block < rend < WORD && LowestFree(rs, AlignUp(block) % WORD, addr, found, flags)
    ensures addr >= block <==> forall x :: !FreeAt(rs, x)
    ensures forall x :: FreeAt(rs, x) ==> !(AlignUp(block) <= x < AlignUp(rend))
  {
    RoundedSize(block);
    forall x | FreeAt(rs, x)
      ensures 0 <= x < NO_ADDR - 7
    {
      FreeBelowTop(rs, x);
    }
    if found > 0 {
      assert FreeAt(rs, addr);
    }
  }

  lemma FreeBelowTop(rs: seq<Region>, x: int)
    requires Valid(rs) && FreeAt(rs, x)
    ensures 0 <= x < TOP_SIZE
  {
    var q :| 0 <= q < |rs| && Covers(rs[q].nodes, x);
    RegionCovers(rs, q, x);
    assert RegionOk(rs[q]);
    hide Valid, RegionOk;
    EndBelowTop(rs[q].max);
  }

  lemma EndBelowTop(m: nat)
    requires m < NO_ADDR && m % 8 == 0
    ensures m <= TOP_SIZE
  {
  }

  lemma RemovingValid(rs: seq<Region>, lo: nat, hi: nat, upto: nat, ss: seq<Region>)
    requires Removing(rs, lo, hi, upto, ss)
    ensures Valid(ss)
  {
  }

  lemma LowestFacts(rs: seq<Region>, from: nat, addr: nat, size: nat, flags: nat)
    requires LowestFree(rs, AlignUp(from), addr, size, flags)
    ensures size > 0 ==> from <= addr && 0 < addr && FreeAt(rs, addr)
    ensures size > 0 ==> addr % 8 == 0 && AlignUp(addr) == addr && AlignDown(addr) == addr
  {
  }

  lemma RemoveStep(rs: seq<Region>, lo: nat, rend: nat, upto: nat, ss: seq<Region>,
                   addr: nat, found: nat, flags: nat, size: nat, ts: seq<Region>)
    requires Removing(rs, lo, AlignUp(rend), upto, ss) && LowestFree(ss, upto, addr, found, flags)
    requires found > 0 && addr % 8 == 0 && addr + size <= rend && size > 0
    requires Takes(ss, addr, AlignUp(addr + size), ts)
    ensures Removing(rs, lo, AlignUp(rend), addr, ts)
    ensures !FreeAt(ts, addr)
  {
    hide Valid, FreeAt, SameFrames, AlignUp, RunOf;
    AlignUpMonotone(addr + size, rend);
    AlignUpFacts(addr + size);
    FramesChain(rs, ss, ts);
  }

  lemma RemoveDone(rs: seq<Region>, lo: nat, rend: nat, upto: nat, ss: seq<Region>, addr: nat, found: nat, flags: nat)
    requires Removing(rs, lo, AlignUp(rend), upto, ss) && LowestFree(ss, upto, addr, found, flags)
    requires found == 0 || (addr >= rend && addr % 8 == 0)
    ensures Valid(ss) && SameFrames(rs, ss)
    ensures forall x :: FreeAt(ss, x) <==> FreeAt(rs, x) && !(lo <= x < AlignUp(rend))
  {
    if found > 0 {
      AlignUpFits(rend, addr);
    }
    hide Valid, FreeAt, SameFrames, AlignUp;
  }

  lemma AlignUpMonotone(x: nat, y: nat)
    requires x <= y
    ensures AlignUp(x) <= AlignUp(y)
  {
    AlignUpFacts(y);
    AlignUpFits(x, AlignUp(y));
  }

  // ----- adding memory and regions

  predicate InFirst(rs: seq<Region>, r: nat, x: int) {
    exists i :: 0 <= i < r && i < |rs| && rs[i].min <= x < rs[i].max
  }

  /** After the first `r` regions exactly their parts of `lo..hi` have been added. */
  ghost predicate AddedTo(rs: seq<Region>, r: nat, lo: nat, hi: nat, ss: seq<Region>) {
    && Valid(ss) && SameFrames(rs, ss)
    && forall x :: FreeAt(ss, x) <==> FreeAt(rs, x) || (lo <= x < hi && InFirst(rs, r, x))
  }

  /** The part of `lo..hi` in region `r` can be given back while the earlier parts are already free. */
  lemma AddReady(rs: seq<Region>, r: nat, lo: nat, hi: nat, ss: seq<Region>, a: nat, b: nat)
    requires Valid(rs) && AddedTo(rs, r, lo, hi, ss) && r < |rs|
    requires forall x :: lo <= x < hi ==> !FreeAt(rs, x)
    requires lo <= a < b <= hi && rs[r].min <= a && b <= rs[r].max
    ensures Returnable(ss, a, b)
  {
    assert ss[r].min == rs[r].min && ss[r].max == rs[r].max;
    forall x | a <= x < b
      ensures !FreeAt(ss, x)
    {
      NotInFirst(rs, r, x);
    }
  }

  lemma NotInFirst(rs: seq<Region>, r: nat, x: int)
    requires Valid(rs) && r < |rs| && rs[r].min <= x < rs[r].max
    ensures !InFirst(rs, r, x)
  {
    forall i | 0 <= i < r
      ensures !(rs[i].min <= x < rs[i].max)
    {
      assert Apart(rs[i], rs[r]);
    }
  }

  lemma AddStep(rs: seq<Region>, r: nat, lo: nat, hi: nat, ss: seq<Region>, a: nat, b: nat, ts: seq<Region>)
    requires AddedTo(rs, r, lo, hi, ss) && r < |rs|
    requires a == Max(lo, rs[r].min) && b == (if hi > rs[r].max then rs[r].max else hi)
    requires Gives(ss, a, b, ts)
    ensures AddedTo(rs, r + 1, lo, hi, ts) && |ts| == |rs|
  {
    FramesChain(rs, ss, ts);
    forall x: int
      ensures FreeAt(ts, x) <==> FreeAt(rs, x) || (lo <= x < hi && InFirst(rs, r + 1, x))
    {
      InFirstNext(rs, r, x);
    }
  }

  lemma AddStart(rs: seq<Region>, lo: nat, hi: nat)
    requires Valid(rs)
    ensures AddedTo(rs, 0, lo, hi, rs)
  {
  }

  lemma AddFrame(rs: seq<Region>, r: nat, lo: nat, hi: nat, ss: seq<Region>)
    requires AddedTo(rs, r, lo, hi, ss) && r < |rs|
    ensures |ss| == |rs| && ss[r].min == rs[r].min && ss[r].max == rs[r].max && Valid(ss) && RegionOk(ss[r])
  {
  }

  lemma AddEnd0(rs: seq<Region>, lo: nat, ss: seq<Region>)
    requires AddedTo(rs, 0, lo, lo, ss)
    ensures Valid(ss) && SameFrames(rs, ss) && forall x :: FreeAt(ss, x) <==> FreeAt(rs, x)
  {
  }

  lemma AddEnd(rs: seq<Region>, lo: nat, hi: nat, ss: seq<Region>)
    requires AddedTo(rs, |rs|, lo, hi, ss)
    ensures Valid(ss) && SameFrames(rs, ss)
    ensures forall x :: FreeAt(ss, x) <==> FreeAt(rs, x) || (lo <= x < hi && InSomeRegion(rs, x))
  {
    hide FreeAt, Valid, SameFrames;
    assert forall x :: InFirst(rs, |rs|, x) <==> InSomeRegion(rs, x);
  }

  lemma WholeHeaders(a: nat, b: nat)
    requires a % 8 == 0 && b % 8 == 0 && a < b
    ensures AlignDown(a) == a && AlignUp(a + (b - a)) == b
  {
  }

  lemma AddSkip(rs: seq<Region>, r: nat, lo: nat, hi: nat, ss: seq<Region>)
    requires AddedTo(rs, r, lo, hi, ss) && r < |rs| && !(hi > rs[r].min && lo < rs[r].max)
    ensures AddedTo(rs, r + 1, lo, hi, ss)
  {
    forall x: int
      ensures FreeAt(ss, x) <==> FreeAt(rs, x) || (lo <= x < hi && InFirst(rs, r + 1, x))
    {
      InFirstNext(rs, r, x);
    }
  }

  lemma InFirstNext(rs: seq<Region>, r: nat, x: int)
    requires r < |rs|
    ensures InFirst(rs, r + 1, x) <==> InFirst(rs, r, x) || rs[r].min <= x < rs[r].max
  {
  }

  /** `r` comes before a new region `reg`: higher priority, or the same and larger. */
  predicate Precedes(r: Region, reg: Region) {
    r.pri > reg.pri || (r.pri == reg.pri && r.max - r.min > reg.max - reg.min)
  }

  /** The list with `reg` behind the regions that come before it. */
  function Inserted(rs: seq<Region>, reg: Region): seq<Region> {
    if rs == [] || !Precedes(rs[0], reg) then [reg] + rs else [rs[0]] + Inserted(rs[1..], reg)
  }

  lemma {:induction false} InsertedAt(rs: seq<Region>, k: nat, reg: Region)
    requires k <= |rs| && (forall i :: 0 <= i < k ==> Precedes(rs[i], reg)) && (k < |rs| ==> !Precedes(rs[k], reg))
    ensures Inserted(rs, reg) == rs[..k] + [reg] + rs[k..]
  {
    if k > 0 {
      InsertedAt(rs[1..], k - 1, reg);
      assert rs == [rs[0]] + rs[1..];
      assert rs[1..][..k - 1] == rs[1..k] && rs[1..][k - 1..] == rs[k..] && rs[..k] == [rs[0]] + rs[1..k];
    }
  }

  lemma InsertedValid(rs: seq<Region>, k: nat, reg: Region)
    requires Valid(rs) && k <= |rs| && RegionOk(reg)
    requires forall i :: 0 <= i < |rs| ==> Apart(rs[i], reg)
    requires forall i :: 0 <= i < k ==> Before(rs[i], reg)
    requires k < |rs| ==> Before(reg, rs[k])
    ensures Valid(rs[..k] + [reg] + rs[k..])
  {
    var ss := rs[..k] + [reg] + rs[k..];
    hide RegionOk;
    forall i | 0 <= i < |ss|
      ensures RegionOk(ss[i])
    {
      assert ss[i] == if i < k then rs[i] else if i == k then reg else rs[i - 1];
    }
    forall i, j | 0 <= i < j < |ss|
      ensures Apart(ss[i], ss[j]) && Before(ss[i], ss[j])
    {
      if j == k {
        assert Before(rs[i], reg) && Apart(rs[i], reg);
      } else if i == k {
        assert Apart(rs[j - 1], reg);
        assert k < j - 1 ==> Before(rs[k], rs[j - 1]);
      } else {
        var i', j' := if i < k then i else i - 1, if j < k then j else j - 1;
        assert Apart(rs[i'], rs[j']) && Before(rs[i'], rs[j']);
      }
    }
  }

  lemma InsertedFree(rs: seq<Region>, k: nat, reg: Region, x: int)
    requires k <= |rs| && reg.nodes == []
    ensures FreeAt(rs[..k] + [reg] + rs[k..], x) <==> FreeAt(rs, x)
  {
    var ss := rs[..k] + [reg] + rs[k..];
    if FreeAt(rs, x) {
      var i :| 0 <= i < |rs| && Covers(rs[i].nodes, x);
      assert ss[if i < k then i else i + 1] == rs[i];
    }
    if FreeAt(ss, x) {
      var i :| 0 <= i < |ss| && Covers(ss[i].nodes, x);
      assert i != k;
      assert rs[if i < k then i else i - 1] == ss[i];
    }
  }

  /** A pool: the list of its regions. */
  class Pool {
    var regions: seq<Region>

    constructor ()
      ensures Valid(regions) && regions == []
    {
      regions := [];
    }

    /** First fit. Null is returned if and only if no region with all the attributes asked for has so many
        free bytes in a row; with none asked for, no region at all. The size is rounded up on words: one
        within seven of 2^32 becomes zero, and then the first free block is returned while it stays free. */
    method Alloc(size: nat, flags: nat) returns (p: nat)
      requires Valid(regions) && 0 < size < WORD
      modifies this
      ensures Valid(regions)
      ensures size <= TOP_SIZE && p == 0 ==>
        regions == old(regions) && NoFitBefore(old(regions), AlignUp(size), flags, |old(regions)|)
      ensures size <= TOP_SIZE && p != 0 ==> Takes(old(regions), p, p + AlignUp(size), regions)
      ensures size <= TOP_SIZE && p != 0 ==> p % 8 == 0 && IsFirstFit(old(regions), AlignUp(size), flags, p)
      ensures size <= TOP_SIZE ==> (p == 0 <==> NoRun(old(regions), size, flags))
      ensures size <= TOP_SIZE && flags == 0 && p == 0 ==>
        forall r, a :: 0 <= r < |regions| ==> !FreeRun(regions[r].nodes, a, size)
      ensures p != 0 ==> Suits(old(regions), flags, p)
      ensures size > TOP_SIZE ==> regions == old(regions) && (p != 0 ==> FreeAt(regions, p))
      ensures size > TOP_SIZE ==> (p == 0 <==>
        forall r :: 0 <= r < |regions| && HasAll(flags, regions[r].flags) ==> regions[r].nodes == [])
    {
      hide Valid, Takes, NoneBigEnough, NoFitBefore, Canonical, Sum, AlignUp, FreeAt, Carved, HasAll, FreeRun, Suits;
      RoundedSize(size);
      var s := AlignUp(size) % WORD;
      var r, i := FindFit(regions, s, flags);
      if r == |regions| {
        NothingThere(regions, flags, s);
        NothingFits(regions, size, flags, s);
        return 0;
      }
      var reg := regions[r];
      var node := reg.nodes[i];
      if s == 0 {
        SomethingThere(regions, flags, r, i);
        assert reg.nodes == reg.nodes[..i] + [Node(node.addr + s, node.size - s)] + reg.nodes[i + 1..];
        return node.addr;
      }
      FirstFitCarves(regions, s, flags, r, i);
      FitIsRun(regions, size, flags, r, i);
      var nodes := TakeHead(reg.nodes, i, s);
      regions := regions[r := reg.(nodes := nodes, free := reg.free - s)];
      assert regions == Replaced(old(regions), r, nodes);
      TakesValid(old(regions), node.addr, node.addr + s, regions);
      return node.addr;
    }

    /** Node `i` is unlinked, or replaced by its tail. */
    static method TakeHead(ns: seq<Node>, i: nat, size: nat) returns (nodes: seq<Node>)
      requires i < |ns| && 0 < size <= ns[i].size
      ensures nodes == Carved(ns, i, ns[i].addr, ns[i].addr + size)
    {
      if ns[i].size > size {
        nodes := ns[..i] + [Node(ns[i].addr + size, ns[i].size - size)] + ns[i + 1..];
      } else {
        nodes := ns[..i] + ns[i + 1..];
      }
    }

    /** Aligned first fit inside `inMin .. inMin + inSize`, on 32-bit words. Unless a sum wraps, null is
        returned only if no free node of a matching region has room; otherwise the block is the first and
        lowest possible, and the pool loses exactly the aligned bytes around it. `wild` means that the place
        that passes the tests is outside its node, and the code goes on to write its links there. */
    method AllocGen(size: nat, flags: nat, bits: nat, ofs: nat, inMin: nat, inSize: nat) returns (p: nat, wild: bool)
      requires Valid(regions) && 0 < size < WORD && bits <= 32 && inMin < WORD && inSize < WORD
      modifies this
      ensures !wild ==> Valid(regions)
      ensures wild <==> GoesWild(old(regions), Query(size, flags, bits, ofs, inMin, (inMin + inSize) % WORD))
      ensures wild ==> !NoWrap(size, bits, inMin, inMin + inSize)
      ensures var q := Query(size, flags, bits, ofs, inMin, (inMin + inSize) % WORD); forall r: nat, i: nat ::
        q.Accepts(old(regions), r, i) ==> p == q.Start(old(regions)[r].nodes[i]) % WORD
      ensures p == 0 && !wild ==>
        && regions == old(regions)
        && var q := Query(size, flags, bits, ofs, inMin, (inMin + inSize) % WORD); q.BarrenBefore(regions, |regions|)
      ensures p != 0 && !wild ==> Takes(old(regions), AlignDown(p), AlignUp(p + size), regions)
      ensures p != 0 && !wild ==> Suits(old(regions), flags, p)
      ensures NoWrap(size, bits, inMin, inMin + inSize) ==>
                (p == 0 <==> NoPlace(old(regions), size, flags, bits, ofs, inMin, inMin + inSize))
      ensures NoWrap(size, bits, inMin, inMin + inSize) && p == 0 ==>
                NoRoomBefore(old(regions), |old(regions)|, size, flags, bits, ofs, inMin, inMin + inSize)
      ensures NoWrap(size, bits, inMin, inMin + inSize) && p != 0 ==>
                && inMin <= p && p + size <= inMin + inSize && Congruent(p, ofs, bits)
                && IsFirstRoom(old(regions), p, size, flags, bits, ofs, inMin, inMin + inSize)
    {
      hide Valid, Takes, FirstRoom, NoRoomBefore, Canonical, Sum, Carved, AlignDown, AlignUp, Congruent, NoWrap;
      hide Query.Accepts, Query.BarrenBefore, Query.Start, NoPlace, Suits;
      wild := false;
      var inMax := (inMin + inSize) % WORD;
      var r, i, addr := FindRoom(regions, size, flags, bits, ofs, inMin, inMax, inMin + inSize);
      ghost var q := Query(size, flags, bits, ofs, inMin, inMax);
      if r == |regions| {
        AcceptsNone(q, regions);
        if NoWrap(size, bits, inMin, inMin + inSize) {
          NoRoomNoPlace(regions, size, flags, bits, ofs, inMin, inMin + inSize);
        }
        return 0, false;
      }
      AcceptsOne(q, regions, r, i);
      if NoWrap(size, bits, inMin, inMin + inSize) {
        RoomFacts(regions, r, i, addr, size, flags, bits, ofs, inMin, inMin + inSize);
        RoomIsPlace(regions, r, i, addr, size, flags, bits, ofs, inMin, inMin + inSize);
      }
      var reg := regions[r];
      assert q.Inside(reg.nodes[i]) <==> reg.nodes[i].addr <= addr && addr + size <= reg.nodes[i].End();
      if !(reg.nodes[i].addr <= addr && addr + size <= reg.nodes[i].End()) {
        return addr, true;
      }
      BlockCarves(regions, r, i, addr, size);
      AcceptsMatches(q, regions, r, i);
      PlaceSuits(regions, r, i, flags, addr);
      var nodes := Split(reg.nodes, i, addr, size);
      regions := regions[r := reg.(nodes := nodes, free := reg.free - AlignUp(addr % 8 + size))];
      assert regions == Replaced(old(regions), r, nodes);
      TakesValid(old(regions), AlignDown(addr), AlignUp(addr + size), regions);
      return addr, false;
    }

    /** The two-sided split: first the part before the block is cut off, then the part after it. */
    static method Split(ns: seq<Node>, i: nat, addr: nat, size: nat) returns (nodes: seq<Node>)
      requires i < |ns| && ns[i].addr % 8 == 0 && ns[i].size % 8 == 0 && size > 0
      requires ns[i].addr <= addr && addr + size <= ns[i].End()
      ensures ns[i].addr <= AlignDown(addr) < AlignUp(addr + size) <= ns[i].End()
      ensures nodes == Carved(ns, i, AlignDown(addr), AlignUp(addr + size))
    {
      Outward(ns[i], addr, size);
      nodes := ns;
      var k := i;
      var anode := AlignDown(addr);
      if anode > ns[i].addr {
        var splitSize := anode - ns[i].addr;
        nodes := ns[..i] + [Node(ns[i].addr, splitSize), Node(anode, ns[i].size - splitSize)] + ns[i + 1..];
        k := i + 1;
      }
      assert nodes[k] == Node(anode, ns[i].End() - anode);
      assert nodes[k + 1..] == ns[i + 1..];
      var s := AlignUp(addr % 8 + size);
      if nodes[k].size > s {
        nodes := nodes[..k] + [Node(anode + s, nodes[k].size - s)] + nodes[k + 1..];
      } else {
        nodes := nodes[..k] + nodes[k + 1..];
      }
    }

    /** Gives a block back, rounded outward to whole headers. A block in the first header of memory makes a
        node at address 0, which reads as the end of the list: the region's list is lost. */
    method Free(block: nat, size: nat)
      requires Valid(regions) && block > 0 && size > 0
      requires Returnable(regions, AlignDown(block), AlignUp(block + size))
      modifies this
      ensures block >= 8 ==> Gives(old(regions), AlignDown(block), AlignUp(block + size), regions)
      ensures block < 8 ==> !Valid(regions)
    {
      hide AlignDown, AlignUp, Valid, FreeAt, Slot, Joined, Sum, Gives, Canonical;
      Rounded(block, size);
      FirstHeader(block);
      var node, s := AlignDown(block), AlignUp(block % 8 + size);
      var r := FindRegion(regions, node, node + s);
      var reg := regions[r];
      var k := FindSlot(reg.nodes, node, reg.min, reg.max);
      var nodes := Coalesce(reg.nodes, k, node, s);
      if block >= 8 {
        JoinGives(regions, r, k, node, node + s);
        GivesReadable(regions, r, k, node, node + s);
      } else {
        ListLost(regions, r, k, node + s);
      }
      regions := regions[r := reg.(nodes := Readable(nodes), free := reg.free + s)];
      if block >= 8 {
        assert regions == Replaced(old(regions), r, nodes);
      } else {
        CountWrong(regions, r);
      }
    }

    /** The search for the region a block came from. */
    static method FindRegion(rs: seq<Region>, a: nat, b: nat) returns (r: nat)
      requires Valid(rs) && a < b && Returnable(rs, a, b)
      ensures r < |rs| && rs[r].min <= a && b <= rs[r].max && RegionOk(rs[r])
    {
      ghost var home :| 0 <= home < |rs| && rs[home].min <= a && b <= rs[home].max;
      r := 0;
      while !(rs[r].min <= a < rs[r].max)
        invariant r <= home
        decreases home - r
      {
        r := r + 1;
      }
      Disjoint(rs, r, home, a);
    }

    static method FindSlot(ns: seq<Node>, a: nat, ghost lo: nat, ghost hi: nat) returns (k: nat)
      requires Canonical(ns, lo, hi)
      ensures Slot(ns, k, a)
    {
      k := 0;
      while k < |ns| && ns[k].addr < a
        invariant k <= |ns|
        invariant forall i :: 0 <= i < k ==> ns[i].addr < a
      {
        k := k + 1;
      }
    }

    /** Links the new node in at slot `k`, merging it with the neighbours it touches. */
    static method Coalesce(ns: seq<Node>, k: nat, node: nat, size: nat) returns (nodes: seq<Node>)
      requires k <= |ns| && size > 0
      ensures nodes == Joined(ns, k, node, node + size)
    {
      if k > 0 && ns[k - 1].End() >= node {
        if k < |ns| && node + size >= ns[k].addr {
          nodes := ns[..k - 1] + [ns[k - 1].(size := ns[k - 1].size + (size + ns[k].size))] + ns[k + 1..];
        } else {
          nodes := ns[..k - 1] + [ns[k - 1].(size := ns[k - 1].size + size)] + ns[k..];
        }
      } else {
        if k < |ns| && node + size >= ns[k].addr {
          nodes := ns[..k] + [Node(node, size + ns[k].size)] + ns[k + 1..];
        } else {
          nodes := ns[..k] + [Node(node, size)] + ns[k..];
        }
      }
    }

    /** The lowest free address at or above `from`, rounded up on words. */
    method FindFree(from: nat) returns (addr: nat, size: nat, flags: nat)
      requires Valid(regions) && from < WORD
      ensures LowestFree(regions, AlignUp(from) % WORD, addr, size, flags)
    {
      var start := AlignUp(from) % WORD;
      addr, size, flags := NO_ADDR, 0, 0;
      var r: nat := 0;
      while r < |regions|
        invariant r <= |regions| && BestSoFar(regions, r, start, addr, size, flags)
      {
        var reg := regions[r];
        assert RegionOk(reg);
        if reg.nodes == [] || reg.max <= start || reg.min > addr {
          BestKept(regions, r, start, addr, size, flags);
        } else {
          var a, s, f := ScanRegion(reg, start, addr, size, flags);
          BestScanned(regions, r, start, addr, size, flags, a, s, f);
          addr, size, flags := a, s, f;
        }
        r := r + 1;
      }
      RoundedWord(from);
      BestIsLowest(regions, start, addr, size, flags);
    }

    /** Takes every free byte of a range out of the pool: exactly the bytes from the start, rounded up,
        to the end, rounded up. Every inner allocation gets the address that was found. For a start
        within seven of 2^32 the rounding wraps, and unless nothing is free the code's assertion fails. */
    method RemoveFree(block: nat, blockSize: nat) returns (ok: bool)
      requires Valid(regions) && blockSize > 0 && block + blockSize < WORD
      modifies this
      ensures ok <==> block <= TOP_SIZE || forall x :: !FreeAt(old(regions), x)
      ensures Valid(regions) && SameFrames(old(regions), regions)
      ensures forall x :: FreeAt(regions, x) <==>
        FreeAt(old(regions), x) && !(AlignUp(block) <= x < AlignUp(block + blockSize))
    {
      hide Valid, FreeAt, SameFrames, AlignUp, AlignDown, LowestFree, Takes, NoRoomBefore, IsFirstRoom, NoWrap;
      hide Congruent;
      var rstart, rend := block, block + blockSize;
      RemoveStart(regions, AlignUp(block), AlignUp(rend));
      if block > TOP_SIZE {
        var addr, found, flags := FindFree(rstart);
        NearTheTop(regions, block, rend, addr, found, flags);
        return addr >= block;
      }
      RoundedSize(block);
      while rstart < rend
        invariant rstart < rend ==> AlignUp(rstart) < WORD
        invariant block <= rstart
        invariant Removing(old(regions), AlignUp(block), AlignUp(rend), AlignUp(rstart), regions)
        decreases rend - rstart, FreeAt(regions, rstart)
      {
        ghost var before := regions;
        RemovingValid(old(regions), AlignUp(block), AlignUp(rend), AlignUp(rstart), regions);
        var addr, found, flags := FindFree(rstart);
        LowestFacts(regions, rstart, addr, found, flags);
        if found == 0 || addr >= rend {
          RemoveDone(old(regions), AlignUp(block), rend, AlignUp(rstart), regions, addr, found, flags);
          return true;
        }
        var size := if addr + found > rend then rend - addr else found;
        RunHasRoom(regions, AlignUp(rstart), addr, found, flags, size);
        SmallRange(addr, size);
        ghost var from := rstart;
        rstart := addr;
        var ptr, wild := AllocGen(size, flags, 0, 0, rstart, size);
        assert ptr == rstart && !wild;
        RemoveStep(old(regions), AlignUp(block), rend, AlignUp(from), before, addr, found, flags, size, regions);
      }
      AlignUpMonotone(rend, rstart);
      ok := true;
    }

    /** Adds memory to whatever regions it overlaps, shrunk to whole headers; the rest is dropped. */
    method AddFree(block: nat, size: nat)
      requires Valid(regions) && AlignUp(block) <= AlignDown(block + size) && block + size < WORD
      requires block > 0 || forall i :: 0 <= i < |regions| ==> regions[i].min > 0
      requires forall x :: AlignUp(block) <= x < AlignDown(block + size) ==> !FreeAt(regions, x)
      modifies this
      ensures Valid(regions) && SameFrames(old(regions), regions)
      ensures forall x :: FreeAt(regions, x) <==>
        FreeAt(old(regions), x) || (AlignUp(block) <= x < AlignDown(block + size) && InSomeRegion(old(regions), x))
    {
      hide Valid, FreeAt, SameFrames, AlignUp, AlignDown, AddedTo, Returnable, Gives;
      AlignUpFacts(block);
      AlignDownFacts(block + size);
      var min, max := AlignUp(block), AlignDown(block + size);
      if max == min {
        AddStart(regions, min, max);
        AddEnd0(regions, min, regions);
        return;
      }
      AddStart(regions, min, max);
      NotAtZero(block);
      var r: nat := 0;
      while r < |regions|
        invariant |regions| == |old(regions)| && r <= |regions|
        invariant AddedTo(old(regions), r, min, max, regions)
      {
        ghost var before := regions;
        var reg := regions[r];
        AddFrame(old(regions), r, min, max, regions);
        if max > reg.min && min < reg.max {
          var newMin, newMax := if min < reg.min then reg.min else min, if max > reg.max then reg.max else max;
          AddReady(old(regions), r, min, max, regions, newMin, newMax);
          WholeHeaders(newMin, newMax);
          assert newMin >= 8;
          Free(newMin, newMax - newMin);
          AddStep(old(regions), r, min, max, before, newMin, newMax, regions);
        } else {
          AddSkip(old(regions), r, min, max, regions);
        }
        r := r + 1;
      }
      AddEnd(old(regions), min, max, regions);
    }

    /** Puts an empty region in its place: by descending priority, then by descending size. */
    method AddRegion(addr: nat, size: nat, flags: nat, pri: nat)
      requires Valid(regions) && addr + size < WORD
      requires forall i :: 0 <= i < |regions| ==>
        Apart(regions[i], Region(AlignUp(addr), AlignDown(addr + size), flags, pri, 0, []))
      modifies this
      ensures Valid(regions)
      ensures forall x :: FreeAt(regions, x) <==> FreeAt(old(regions), x)
      ensures regions == if AlignDown(addr + size) <= AlignUp(addr) then old(regions)
                         else Inserted(old(regions), Region(AlignUp(addr), AlignDown(addr + size), flags, pri, 0, []))
    {
      hide Valid, FreeAt, AlignUp, AlignDown;
      AlignUpFacts(addr);
      AlignDownFacts(addr + size);
      var min, max := AlignUp(addr), AlignDown(addr + size);
      if max <= min {
        return;
      }
      var reg := Region(min, max, flags, pri, 0, []);
      var k := FindPlace(regions, reg);
      InsertedValid(regions, k, reg);
      forall x: int
        ensures FreeAt(regions[..k] + [reg] + regions[k..], x) <==> FreeAt(regions, x)
      {
        InsertedFree(regions, k, reg, x);
      }
      InsertedAt(regions, k, reg);
      regions := regions[..k] + [reg] + regions[k..];
    }

    /** The search for a region's place in the list. */
    static method FindPlace(rs: seq<Region>, reg: Region) returns (k: nat)
      requires Valid(rs)
      ensures k <= |rs| && (forall i :: 0 <= i < k ==> Precedes(rs[i], reg) && Before(rs[i], reg))
      ensures k < |rs| ==> !Precedes(rs[k], reg) && Before(reg, rs[k])
    {
      k := 0;
      while k < |rs| && (rs[k].pri > reg.pri || (rs[k].pri == reg.pri && rs[k].max - rs[k].min > reg.max - reg.min))
        invariant k <= |rs|
        invariant forall i :: 0 <= i < k ==> Precedes(rs[i], reg) && Before(rs[i], reg)
      {
        k := k + 1;
      }
    }
  }
}
