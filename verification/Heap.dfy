/** The boundary-tag allocator of the C library: one flat memory, walked and rewritten through the tags
    in it. The ghost list of blocks exists only for the proof; no operation reads it. */
module Heap {
  import opened HeapMemory
  import opened HeapBlocks

  const CHUNKSIZE: nat := 4096
  const PAGE: nat := 4096
  const MAX_ADDR: nat := 0xFFFF_FFFF
  const INT_MAX: int := 0x7FFF_FFFF
  const INT_MIN: int := -0x8000_0000

  /** Block `k` is the first free block of at least `asize` bytes; if that is negative, the first free block. */
  predicate FirstFit(bs: seq<Block>, asize: int, k: nat) {
    && k < |bs| && !bs[k].used && bs[k].size >= asize
    && NoFitBefore(bs, asize, k)
  }

  predicate NoFitBefore(bs: seq<Block>, asize: int, k: nat) {
    forall i :: 0 <= i < k && i < |bs| ==> bs[i].used || bs[i].size < asize
  }

  const HUGE: nat := 0x8000_0000

  /** A word as the code's `int`. */
  function Signed(w: nat): int {
    if w < HUGE then w else w - WORDS
  }

  /** How far a walk along the tags gets: a block of 2^31 bytes or more has a negative `int` size, which
      ends the walk as the epilogue does. */
  function Reach(bs: seq<Block>): (n: nat)
    ensures n <= |bs|
  {
    if bs == [] || bs[0].size >= HUGE then 0 else 1 + Reach(bs[1..])
  }

  lemma {:induction false} ReachIs(bs: seq<Block>, k: nat)
    requires k <= |bs| && (forall i :: 0 <= i < k ==> bs[i].size < HUGE) && (k < |bs| ==> bs[k].size >= HUGE)
    ensures Reach(bs) == k
  {
    if k > 0 {
      ReachIs(bs[1..], k - 1);
    }
  }

  /** The largest request whose rounded size is an `int`. */
  const TOP_REQUEST: int := INT_MAX - 15

  /** Division by eight as C does it, towards zero. */
  function Eighth(x: int): (q: int)
    ensures x >= 0 ==> 8 * q <= x < 8 * q + 8
    ensures x < 0 ==> x <= 8 * q < x + 8
  {
    if x >= 0 then x / 8 else -((-x) / 8)
  }

  /** The block size that serves a request: room for the tags, rounded up to eight, at least sixteen. For
      the fifteen largest requests the sum wraps and the result is negative. As a word it is large enough
      for every request. */
  function Adjusted(size: int): (asize: int)
    requires 0 < size <= INT_MAX
    ensures size <= TOP_REQUEST <==> asize > 0
    ensures INT_MIN <= asize <= INT_MAX && AsWord(asize) % 8 == 0
    ensures 16 <= AsWord(asize) && size + 8 <= AsWord(asize) <= HUGE + 16
    ensures AsWord(asize) > 16 ==> AsWord(asize) < size + 16 + if size <= TOP_REQUEST then 0 else 7
  {
    if size <= 8 then 16 else 8 * Eighth(Signed((size + 15) % WORDS))
  }

  /** An `int` as the word that is stored for it. */
  function AsWord(x: int): (w: int)
    requires INT_MIN <= x <= INT_MAX
    ensures 0 <= w < WORDS && Signed(w) == x && w == x % WORDS
  {
    if x < 0 then x + WORDS else x
  }

  // ----- what the four cases of coalescing do to the list of blocks

  function MergeFrom(bs: seq<Block>, k: nat): nat
    requires 0 < k < |bs|
  {
    if bs[k - 1].used then k else k - 1
  }

  function MergeTo(bs: seq<Block>, k: nat): nat
    requires 0 < k < |bs|
  {
    if k + 1 < |bs| && !bs[k + 1].used then k + 2 else k + 1
  }

  /** Block `k` grown over its free neighbours. */
  function MergedBlock(bs: seq<Block>, k: nat): Block
    requires 0 < k < |bs|
  {
    Block(bs[MergeFrom(bs, k)].bp,
          (if bs[k - 1].used then 0 else bs[k - 1].size) + bs[k].size
          + (if k + 1 < |bs| && !bs[k + 1].used then bs[k + 1].size else 0),
          false)
  }

  function Merged(bs: seq<Block>, k: nat): seq<Block>
    requires 0 < k < |bs|
  {
    Splice(bs, MergeFrom(bs, k), MergeTo(bs, k), [MergedBlock(bs, k)])
  }

  /** A free block whose neighbours may be free too. */
  ghost predicate Loose(mem: seq<byte>, bs: seq<Block>, start: nat, brk: nat, k: nat) {
    && Tiled(mem, bs, start, brk)
    && 0 < k < |bs| && !bs[k].used
    && CoalescedBut(bs, k)
  }

  lemma LooseNeighbours(mem: seq<byte>, bs: seq<Block>, start: nat, brk: nat, k: nat)
    requires Loose(mem, bs, start, brk, k)
    ensures var i, j := MergeFrom(bs, k), MergeTo(bs, k);
      && 0 < i <= k < j <= |bs| && bs[i - 1].used && (j < |bs| ==> bs[j].used)
      && (forall t :: i <= t < j ==> !bs[t].used)
  {
    hide Tagged, Chain, Shaped;
    assert bs[0].used;
    if !bs[k - 1].used {
      assert Parted(bs, k - 2);
    }
    if k + 2 < |bs| {
      assert Parted(bs, k + 1);
    }
  }

  lemma MergedShape(mem: seq<byte>, bs: seq<Block>, start: nat, brk: nat, k: nat)
    requires Loose(mem, bs, start, brk, k)
    ensures Shaped(MergedBlock(bs, k))
    ensures MergedBlock(bs, k).End() == Edge(bs, MergeTo(bs, k), brk) <= brk <= |mem| <= WORDS
    ensures bs[k - 1].End() == bs[k].bp
  {
    hide Tagged, CoalescedBut, Pack, Get;
    EdgesAscend(bs, MergeTo(bs, k), |bs|, brk);
    LooseNeighbours(mem, bs, start, brk, k);
    ShapedAt(mem, bs, start, brk, MergeFrom(bs, k));
    ShapedAt(mem, bs, start, brk, MergeTo(bs, k) - 1);
    ShapedAt(mem, bs, start, brk, k);
    hide Tiled, Chain;
    Eights(bs[MergeFrom(bs, k)].size, bs[k].size, bs[MergeTo(bs, k) - 1].size);
  }

  lemma ShapedAt(mem: seq<byte>, bs: seq<Block>, start: nat, brk: nat, k: nat)
    requires Tiled(mem, bs, start, brk) && 0 < k < |bs|
    ensures Shaped(bs[k]) && bs[k].End() == Edge(bs, k + 1, brk) && bs[k - 1].End() == bs[k].bp && brk <= |mem| <= WORDS
  {
    assert Links(bs, k, brk) && Links(bs, k - 1, brk);
  }

  lemma Eights(a: nat, b: nat, c: nat)
    requires a % 8 == 0 && b % 8 == 0 && c % 8 == 0
    ensures (a + b) % 8 == 0 && (b + c) % 8 == 0 && (a + b + c) % 8 == 0
  {
  }

  /** Memory rewritten inside the merged block, and tagged for it, holds a coalesced heap. */
  lemma MergedHeap(m: seq<byte>, n: seq<byte>, bs: seq<Block>, start: nat, brk: nat, k: nat)
    requires Loose(m, bs, start, brk, k)
    requires var b := MergedBlock(bs, k); Tagged(n, b) && SameOutside(m, n, b.bp - 4, b.End() - 4)
    ensures Tiled(n, Merged(bs, k), start, brk) && Coalesced(Merged(bs, k))
    ensures Live(Merged(bs, k)) == Live(bs) && Kept(m, n, Live(bs), start)
    ensures MergeFrom(bs, k) < |Merged(bs, k)| && Merged(bs, k)[MergeFrom(bs, k)] == MergedBlock(bs, k)
  {
    LooseNeighbours(m, bs, start, brk, k);
    MergedShape(m, bs, start, brk, k);
    var i, j, b := MergeFrom(bs, k), MergeTo(bs, k), MergedBlock(bs, k);
    assert Links([b], 0, Edge(bs, j, brk));
    hide Tagged, SameOutside, Live, Kept;
    SpliceTiled(m, n, bs, start, brk, i, j, [b]);
    SpliceLive(bs, i, j, [b]);
    NoneUsed(b);
    FreeWritesKeep(m, n, bs, start, brk, i, j);
    SpliceCoalesced(bs, i, j, [b]);
  }

  lemma NoneUsed(b: Block)
    requires !b.used
    ensures (set t | 0 <= t < |[b]| && [b][t].used :: [b][t]) == {}
  {
  }

  // ----- pointers computed from tags

  /** `FTRP(bp)`. */
  function Ftr(mem: seq<byte>, bp: nat): int
    requires 4 <= bp <= |mem|
  {
    bp + SizeAt(mem, bp - 4) - 8
  }

  /** `NEXT_BLKP(bp)`. */
  function NextBlk(mem: seq<byte>, bp: nat): nat
    requires 4 <= bp <= |mem|
  {
    bp + SizeAt(mem, bp - 4)
  }

  /** `PREV_BLKP(bp)`. */
  function PrevBlk(mem: seq<byte>, bp: nat): int
    requires 8 <= bp <= |mem|
  {
    bp - SizeAt(mem, bp - 8)
  }

  lemma SizeSame(m: seq<byte>, n: seq<byte>, lo: int, hi: int, p: nat)
    requires SameOutside(m, n, lo, hi) && p + 4 <= |m| && (p + 4 <= lo || hi <= p)
    ensures SizeAt(n, p) == SizeAt(m, p) && UsedAt(n, p) == UsedAt(m, p)
  {
    GetSame(m, n, lo, hi, p);
  }

  /** What the tags around a loose block say, and that the merged size fits a word. */
  ghost predicate Around(mem: seq<byte>, bs: seq<Block>, k: nat) {
    && 0 < k < |bs|
    && var b, c, g := bs[k - 1], bs[k], MergedBlock(bs, k);
      && b.End() == c.bp && 8 <= b.size && 8 <= c.size && 8 <= b.bp && c.End() <= |mem|
      && SizeAt(mem, c.bp - 8) == b.size && UsedAt(mem, c.bp - 8) == b.used && SizeAt(mem, b.bp - 4) == b.size
      && SizeAt(mem, c.bp - 4) == c.size
      && UsedAt(mem, c.End() - 4) == (if k + 1 < |bs| then bs[k + 1].used else true)
      && (k + 1 < |bs| ==> var d := bs[k + 1];
            d.bp == c.End() && 8 <= d.size && d.End() <= |mem| && SizeAt(mem, d.bp - 4) == d.size
            && SizeAt(mem, d.End() - 8) == d.size)
      && g.size % 8 == 0 && g.size + 1 < WORDS
      && (!b.used ==> b.size >= 16) && c.size >= 16
  }

  lemma LooseAround(mem: seq<byte>, bs: seq<Block>, start: nat, brk: nat, k: nat)
    requires Loose(mem, bs, start, brk, k)
    ensures Around(mem, bs, k)
  {
    hide Get, SizeAt, UsedAt, Tagged, Chain, CoalescedBut, Pack;
    MergedShape(mem, bs, start, brk, k);
    ReadBlock(mem, bs, start, brk, k - 1);
    ReadBlock(mem, bs, start, brk, k);
    ShapedAt(mem, bs, start, brk, k);
    if k > 1 { ShapedAt(mem, bs, start, brk, k - 1); }
    if k + 1 < |bs| {
      ReadBlock(mem, bs, start, brk, k + 1);
    }
  }

  /** Case 2 of coalescing: the next block is free. */
  method MergeNext(mem: seq<byte>, bp: nat, size0: nat, ghost bs: seq<Block>, ghost k: nat) returns (n: seq<byte>)
    requires Around(mem, bs, k) && bp == bs[k].bp && size0 == bs[k].size
    requires bs[k - 1].used && k + 1 < |bs| && !bs[k + 1].used
    ensures var b := MergedBlock(bs, k); Tagged(n, b) && SameOutside(mem, n, b.bp - 4, b.End() - 4)
  {
    hide Get, Put, SizeAt, UsedAt, SameOutside, Tagged;
    ghost var b := MergedBlock(bs, k);
    var size := size0 + SizeAt(mem, NextBlk(mem, bp) - 4);
    WriteTags(mem, b);
    n := Put(mem, bp - 4, Pack(size, false));
    n := Put(n, Ftr(n, bp), Pack(size, false));
  }

  /** Case 3: the previous block is free. */
  method MergePrev(mem: seq<byte>, bp: nat, size0: nat, ghost bs: seq<Block>, ghost k: nat)
    returns (n: seq<byte>, p: nat)
    requires Around(mem, bs, k) && bp == bs[k].bp && size0 == bs[k].size
    requires !bs[k - 1].used && (k + 1 < |bs| ==> bs[k + 1].used)
    ensures var b := MergedBlock(bs, k); Tagged(n, b) && SameOutside(mem, n, b.bp - 4, b.End() - 4) && p == b.bp
  {
    hide Get, Put, SizeAt, UsedAt, SameOutside, Tagged;
    ghost var b := MergedBlock(bs, k);
    var size := size0 + SizeAt(mem, PrevBlk(mem, bp) - 4);
    WriteTags(mem, b);
    n := Put(mem, Ftr(mem, bp), Pack(size, false));
    SizeSame(mem, n, b.End() - 8, b.End() - 4, bp - 8);
    ghost var n1 := n;
    WriteTags(n1, b);
    n := Put(n, PrevBlk(n, bp) - 4, Pack(size, false));
    SizeSame(n1, n, b.bp - 4, b.bp, bp - 8);
    p := PrevBlk(n, bp);
  }

  /** Case 4: both neighbours are free. */
  method MergeBoth(mem: seq<byte>, bp: nat, size0: nat, ghost bs: seq<Block>, ghost k: nat)
    returns (n: seq<byte>, p: nat)
    requires Around(mem, bs, k) && bp == bs[k].bp && size0 == bs[k].size
    requires !bs[k - 1].used && k + 1 < |bs| && !bs[k + 1].used
    ensures var b := MergedBlock(bs, k); Tagged(n, b) && SameOutside(mem, n, b.bp - 4, b.End() - 4) && p == b.bp
  {
    hide Get, Put, SizeAt, UsedAt, SameOutside, Tagged;
    ghost var b := MergedBlock(bs, k);
    var size := size0 + (SizeAt(mem, PrevBlk(mem, bp) - 4) + SizeAt(mem, Ftr(mem, NextBlk(mem, bp))));
    WriteTags(mem, b);
    n := Put(mem, PrevBlk(mem, bp) - 4, Pack(size, false));
    SizeSame(mem, n, b.bp - 4, b.bp, bp - 4);
    SizeSame(mem, n, b.bp - 4, b.bp, bp - 8);
    SizeSame(mem, n, b.bp - 4, b.bp, bs[k + 1].bp - 4);
    ghost var n1 := n;
    WriteTags(n1, b);
    n := Put(n, Ftr(n, NextBlk(n, bp)), Pack(size, false));
    SizeSame(n1, n, b.End() - 8, b.End() - 4, bp - 8);
    p := PrevBlk(n, bp);
  }

  // ----- placing a block

  /** What becomes of a free block when `asize` bytes of it are to be handed out. It is split if the rest
      is at least sixteen bytes as an `int`: a rest of 2^31 bytes or more is not split off, nor is anything
      of a block that is too small. */
  function Placed(b: Block, asize: nat): (mid: seq<Block>) {
    if asize <= b.size && 16 <= b.size - asize < HUGE
    then [Block(b.bp, asize, true), Block(b.bp + asize, b.size - asize, false)]
    else [Block(b.bp, b.size, true)]
  }

  lemma PlacedHeap(m: seq<byte>, n: seq<byte>, bs: seq<Block>, start: nat, brk: nat, k: nat, asize: nat)
    requires Tiled(m, bs, start, brk) && Coalesced(bs) && 0 < k < |bs| && !bs[k].used
    requires 16 <= asize && asize % 8 == 0
    requires SameOutside(m, n, bs[k].bp - 4, bs[k].End() - 4)
    requires forall t :: 0 <= t < |Placed(bs[k], asize)| ==> Tagged(n, Placed(bs[k], asize)[t])
    ensures var r := Splice(bs, k, k + 1, Placed(bs[k], asize));
      && Tiled(n, r, start, brk) && Coalesced(r)
      && Live(r) == Live(bs) + {Placed(bs[k], asize)[0]}
      && Kept(m, n, Live(bs), start)
  {
    var mid := Placed(bs[k], asize);
    ShapedAt(m, bs, start, brk, k);
    hide Tagged, SameOutside, Live, Kept, Tiled, Coalesced, Splice;
    PlacedChain(bs[k], asize);
    SpliceTiled(m, n, bs, start, brk, k, k + 1, mid);
    FreeWritesKeep(m, n, bs, start, brk, k, k + 1);
    SpliceLive(bs, k, k + 1, mid);
    PlacedUsed(bs[k], asize);
    PlacedCoalesced(bs, k, asize);
  }

  lemma PlacedCoalesced(bs: seq<Block>, k: nat, asize: nat)
    requires Coalesced(bs) && 0 < k < |bs| && !bs[k].used
    ensures Coalesced(Splice(bs, k, k + 1, Placed(bs[k], asize)))
  {
    assert k + 1 < |bs| ==> Parted(bs, k);
    SpliceCoalesced(bs, k, k + 1, Placed(bs[k], asize));
  }

  lemma PlacedChain(b: Block, asize: nat)
    requires Shaped(b) && 16 <= asize && asize % 8 == 0
    ensures var mid := Placed(b, asize);
      && Chain(mid, b.End()) && mid[0].bp == b.bp
      && (forall t :: 0 <= t < |mid| ==> Shaped(mid[t]))
      && (forall t :: 0 <= t < |mid| - 1 ==> Parted(mid, t))
  {
    Eights(b.bp, asize, 0);
    assert (b.size - asize) % 8 == 0;
  }

  lemma PlacedUsed(b: Block, asize: nat)
    ensures var mid := Placed(b, asize); (set t | 0 <= t < |mid| && mid[t].used :: mid[t]) == {mid[0]}
  {
    var mid := Placed(b, asize);
    assert mid[0].used;
  }

  /** The test of `place`, on `int`s that may wrap, splits exactly when `Placed` does. */
  lemma SplitsIff(csize: nat, asize: int)
    requires 16 <= csize < WORDS && INT_MIN <= asize <= INT_MAX && 16 <= AsWord(asize) <= HUGE + 16
    ensures Signed((csize - asize) % WORDS) >= 16
       <==> AsWord(asize) <= csize && 16 <= csize - AsWord(asize) < HUGE
  {
    var d := csize - AsWord(asize);
    assert (csize - asize) % WORDS == if d >= 0 then d else d + WORDS by {
      assert csize - asize == d || csize - asize == d + WORDS;
    }
  }

  /** The tags that placing writes. */
  method PlaceTags(mem: seq<byte>, bp: nat, asize: int, ghost b: Block) returns (n: seq<byte>)
    requires bp == b.bp && Shaped(b) && b.End() <= |mem| <= WORDS && SizeAt(mem, bp - 4) == b.size
    requires INT_MIN <= asize <= INT_MAX && 16 <= AsWord(asize) <= HUGE + 16 && AsWord(asize) % 8 == 0
    ensures SameOutside(mem, n, b.bp - 4, b.End() - 4)
    ensures var mid := Placed(b, AsWord(asize)); forall t :: 0 <= t < |mid| ==> Tagged(n, mid[t])
  {
    hide Get, Put, SizeAt;
    var csize := SizeAt(mem, bp - 4);
    SplitsIff(csize, asize);
    if Signed((csize - asize) % WORDS) >= 16 {
      var word := AsWord(asize);
      ghost var x, y := Block(bp, word, true), Block(bp + word, csize - word, false);
      assert (csize - word) % 8 == 0;
      hide Signed, Tagged, SameOutside, AsWord;
      var n1 := TagBlock(mem, bp, word, true);
      SizeOf(n1, x);
      SameLength(mem, n1, x.bp - 4, x.End() - 4);
      n := TagBlock(n1, NextBlk(n1, bp), csize - word, false);
      TaggedSame(n1, n, y.bp - 4, y.End() - 4, x);
      SameOutsideChain(mem, n1, n, x.bp - 4, x.End() - 4, y.bp - 4, y.End() - 4);
      assert Placed(b, word) == [x, y];
    } else {
      n := TagBlock(mem, bp, csize, true);
    }
  }

  /** Header and footer, the footer found through the header just written. */
  method TagBlock(mem: seq<byte>, bp: nat, size: nat, used: bool) returns (n: seq<byte>)
    requires 4 <= bp && 8 <= size && size % 8 == 0 && bp + size - 4 <= |mem| && Pack(size, used) < WORDS
    ensures Tagged(n, Block(bp, size, used)) && SameOutside(mem, n, bp - 4, bp + size - 4)
  {
    hide Get, Put, SizeAt;
    WriteTags(mem, Block(bp, size, used));
    n := Put(mem, bp - 4, Pack(size, used));
    n := Put(n, Ftr(n, bp), Pack(size, used));
  }

  lemma SameLength(m: seq<byte>, n: seq<byte>, lo: int, hi: int)
    requires SameOutside(m, n, lo, hi)
    ensures |m| == |n|
  {
  }

  lemma SizeOf(mem: seq<byte>, b: Block)
    requires Tagged(mem, b) && b.size % 8 == 0
    ensures SizeAt(mem, b.bp - 4) == b.size
  {
    Unpack(mem, b.bp - 4, b.size, b.used);
  }

  // ----- growing the heap

  lemma TiledGrow(m: seq<byte>, n: seq<byte>, bs: seq<Block>, start: nat, brk: nat)
    requires Tiled(m, bs, start, brk) && m <= n && |n| <= WORDS
    ensures Tiled(n, bs, start, brk)
  {
    forall i | 0 <= i < |bs|
      ensures Tagged(n, bs[i])
    {
      assert Tagged(m, bs[i]);
    }
  }

  lemma EndAligned(mem: seq<byte>, bs: seq<Block>, start: nat, brk: nat)
    requires Tiled(mem, bs, start, brk)
    ensures brk % 8 == 0 && start + 8 <= brk
  {
    var k := |bs| - 1;
    Inside(bs, k, brk);
    assert Links(bs, k, brk);
    assert k > 0 ==> Shaped(bs[k]);
    Eights(bs[k].bp, bs[k].size, 0);
  }

  /** A free block written over the old epilogue, with a new epilogue behind it. */
  lemma ExtendedHeap(m: seq<byte>, n: seq<byte>, bs: seq<Block>, start: nat, brk: nat, size: nat)
    requires Tiled(m, bs, start, brk) && Coalesced(bs) && size >= 16 && size % 8 == 0 && brk + size <= |n|
    requires var b := Block(brk, size, false);
      Tagged(n, b) && SameOutside(m, n, brk - 4, b.End()) && Get(n, b.End() - 4) == Pack(0, true)
    ensures Loose(n, bs + [Block(brk, size, false)], start, brk + size, |bs|)
    ensures Live(bs + [Block(brk, size, false)]) == Live(bs)
    ensures Kept(m, n, Live(bs), start)
  {
    hide Tagged, SameOutside, Live, Kept, Tiled, Shaped;
    var b := Block(brk, size, false);
    var r := bs + [b];
    ExtendedTiled(m, n, bs, start, brk, size);
    forall i | 0 <= i < |r| - 1 && i != |bs| && i + 1 != |bs|
      ensures Parted(r, i)
    {
      assert Parted(bs, i);
    }
    TiledStart(m, bs, start, brk);
    ExtendedLive(bs, b);
    ExtendedKept(m, n, bs, start, brk, size);
  }

  lemma TiledStart(m: seq<byte>, bs: seq<Block>, start: nat, brk: nat)
    requires Tiled(m, bs, start, brk)
    ensures bs != [] && 8 <= start && start + 8 <= brk <= |m| <= WORDS && bs[0] == Block(start, 8, true)
    ensures Chain(bs, brk)
  {
    Inside(bs, 0, brk);
  }

  lemma ExtendedTiled(m: seq<byte>, n: seq<byte>, bs: seq<Block>, start: nat, brk: nat, size: nat)
    requires Tiled(m, bs, start, brk) && size >= 16 && size % 8 == 0 && brk + size <= |n|
    requires var b := Block(brk, size, false);
      Tagged(n, b) && SameOutside(m, n, brk - 4, b.End()) && Get(n, b.End() - 4) == Pack(0, true)
    ensures Tiled(n, bs + [Block(brk, size, false)], start, brk + size)
  {
    hide Tagged, Get, Pack, Chain;
    var b := Block(brk, size, false);
    var r := bs + [b];
    EndAligned(m, bs, start, brk);
    forall i: nat | i < |r|
      ensures Links(r, i, brk + size) && Tagged(n, r[i]) && (i > 0 ==> Shaped(r[i]))
    {
      if i < |bs| {
        InsideLinks(m, bs, start, brk, i);
        TaggedSame(m, n, brk - 4, brk + size, bs[i]);
      }
    }
    assert Chain(r, brk + size) by { LinksChain(r, brk + size); }
  }

  lemma InsideLinks(m: seq<byte>, bs: seq<Block>, start: nat, brk: nat, i: nat)
    requires Tiled(m, bs, start, brk) && i < |bs|
    ensures Links(bs, i, brk) && Tagged(m, bs[i]) && bs[i].End() <= brk && start <= bs[i].bp
  {
    Inside(bs, i, brk);
  }

  lemma LinksChain(bs: seq<Block>, to: nat)
    requires forall i :: 0 <= i < |bs| ==> Links(bs, i, to)
    ensures Chain(bs, to)
  {
  }

  lemma ExtendedKept(m: seq<byte>, n: seq<byte>, bs: seq<Block>, start: nat, brk: nat, size: nat)
    requires Tiled(m, bs, start, brk) && SameOutside(m, n, brk - 4, brk + size)
    ensures Kept(m, n, Live(bs), start)
  {
    EndAligned(m, bs, start, brk);
    forall c, x | c in Live(bs) && c.bp <= x < c.End() - 8 && x < |m|
      ensures n[x] == m[x]
    {
      var i: nat :| 0 < i < |bs| && bs[i] == c;
      InsideLinks(m, bs, start, brk, i);
    }
  }

  lemma ExtendedLive(bs: seq<Block>, b: Block)
    requires bs != [] && !b.used
    ensures Live(bs + [b]) == Live(bs)
  {
    forall c | c in Live(bs)
      ensures c in Live(bs + [b])
    {
      var i :| 0 < i < |bs| && bs[i].used && bs[i] == c;
      assert (bs + [b])[i] == c;
    }
  }

  /** The tags that growing the heap writes: a free block and a new epilogue. */
  method ExtendTags(mem: seq<byte>, bp: nat, size: nat) returns (n: seq<byte>)
    requires 8 <= bp && 16 <= size && size % 8 == 0 && bp + size <= |mem| <= WORDS
    ensures var b := Block(bp, size, false);
      Tagged(n, b) && SameOutside(mem, n, bp - 4, b.End()) && Get(n, b.End() - 4) == Pack(0, true)
  {
    hide Get, Put, SizeAt;
    ghost var b := Block(bp, size, false);
    WriteTags(mem, b);
    n := Put(mem, bp - 4, Pack(size, false));
    n := Put(n, Ftr(n, bp), Pack(size, false));
    SizeOf(n, b);
    ghost var n1 := n;
    var next := NextBlk(n, bp);
    GetPut(n1, next - 4, Pack(0, true));
    n := Put(n, next - 4, Pack(0, true));
    TaggedSame(n1, n, next - 4, next, b);
    SameOutsideChain(mem, n1, n, bp - 4, b.End() - 4, next - 4, next);
  }

  // ----- freeing

  function Unused(b: Block): Block {
    b.(used := false)
  }

  lemma FreedHeap(m: seq<byte>, n: seq<byte>, bs: seq<Block>, start: nat, brk: nat, k: nat)
    requires Tiled(m, bs, start, brk) && Coalesced(bs) && 0 < k < |bs| && bs[k].used
    requires Tagged(n, Unused(bs[k])) && SameOutside(m, n, bs[k].bp - 4, bs[k].End() - 4)
    ensures var r := Splice(bs, k, k + 1, [Unused(bs[k])]);
      && Loose(n, r, start, brk, k) && r[k] == Unused(bs[k])
      && Live(r) == Live(bs) - {bs[k]} && Kept(m, n, Live(r), start)
  {
    var b := Unused(bs[k]);
    var r := Splice(bs, k, k + 1, [b]);
    ShapedAt(m, bs, start, brk, k);
    assert Links([b], 0, Edge(bs, k + 1, brk));
    hide Tagged, SameOutside, Live, Kept;
    SpliceTiled(m, n, bs, start, brk, k, k + 1, [b]);
    hide Tiled;
    assert r == bs[k := b];
    FreedApart(bs, k);
    FreedLive(m, bs, start, brk, k);
    WritesKeep(m, n, bs, start, brk, k, k + 1, Live(r));
  }

  lemma FreedApart(bs: seq<Block>, k: nat)
    requires Coalesced(bs) && k < |bs|
    ensures CoalescedBut(bs[k := Unused(bs[k])], k)
  {
    var r := bs[k := Unused(bs[k])];
    forall i | 0 <= i < |r| - 1 && i != k && i + 1 != k
      ensures Parted(r, i)
    {
      assert Parted(bs, i);
    }
  }

  lemma FreedLive(m: seq<byte>, bs: seq<Block>, start: nat, brk: nat, k: nat)
    requires Tiled(m, bs, start, brk) && 0 < k < |bs| && bs[k].used
    ensures Live(bs[k := Unused(bs[k])]) == Live(bs) - {bs[k]}
    ensures forall b :: b in Live(bs) - {bs[k]} ==> exists i :: 0 < i < |bs| && !(k <= i < k + 1) && bs[i] == b
  {
    var r := bs[k := Unused(bs[k])];
    forall i: nat | 0 < i < |bs| && i != k
      ensures bs[i] != bs[k]
    {
      ShapedAt(m, bs, start, brk, i);
      ShapedAt(m, bs, start, brk, k);
      if i < k {
        Apart(bs, i, k, brk);
      } else {
        Apart(bs, k, i, brk);
      }
    }
    forall b | b in Live(bs) - {bs[k]}
      ensures b in Live(r) && exists i :: 0 < i < |bs| && !(k <= i < k + 1) && bs[i] == b
    {
      var i :| 0 < i < |bs| && bs[i].used && bs[i] == b;
      assert r[i] == b;
    }
    forall b | b in Live(r)
      ensures b in Live(bs) - {bs[k]}
    {
      var i :| 0 < i < |r| && r[i].used && r[i] == b;
      assert i != k && bs[i] == b;
    }
  }
}
