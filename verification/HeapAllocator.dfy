/** The allocator itself: `mm_init`, `mm_malloc`, `mm_free`, `mm_realloc` over memory obtained from
    `mem_sbrk`. Whether the kernel grants new pages is a parameter of each call. */
module HeapAllocator {
  import opened HeapMemory
  import opened HeapBlocks
  import opened Heap

  /** The sum of break and increment does not fit a word. */
  predicate Wraps(brk: nat, incr: int) {
    brk + incr >= WORDS
  }

  /** When a request for `incr` bytes more is refused. The test against the address limit compares a word
      with the largest word and never fails; a sum that wraps asks for no pages at all, unless `top`, the
      end of the memory obtained, has itself wrapped to 0. */
  predicate SbrkFails(brk: nat, top: nat, incr: int, grant: bool) {
    || incr < 0
    || (if Wraps(brk, incr) then top == WORDS && brk + incr > WORDS
        else (brk + incr > top || top == WORDS) && !(grant && top < WORDS && brk + incr - top + (PAGE - 1) <= INT_MAX))
  }

  /** A heap that ends just above 2.25 GB, and a request for 1.75 GB more: it is granted, no page is asked
      for, and the new block would end at an address below 16 MB. */
  lemma GrowthCanWrap()
    ensures !SbrkFails(0x9000_1010, 0x9000_2000, 0x7000_0008, false) && Wraps(0x9000_1010, 0x7000_0008)
    ensures (0x9000_1010 + 0x7000_0008) % WORDS == 0x1018
  {
  }

  /** How many bytes the heap grows by when no block fits. */
  function Growth(asize: int): nat {
    if asize > CHUNKSIZE then asize else CHUNKSIZE
  }

  /** The free block there is after growing by `size` bytes: a free last block is part of it. */
  function GrownBlock(bs: seq<Block>, brk: nat, size: nat): Block
    requires bs != []
  {
    MergedBlock(bs + [Block(brk, size, false)], |bs|)
  }

  function Grown(bs: seq<Block>, brk: nat, size: nat): seq<Block>
    requires bs != []
  {
    Merged(bs + [Block(brk, size, false)], |bs|)
  }

  function Smaller(a: nat, b: nat): nat {
    if a < b then a else b
  }

  ghost predicate HeapOk(mem: seq<byte>, bs: seq<Block>, start: nat, brk: nat) {
    Tiled(mem, bs, start, brk) && Coalesced(bs) && |mem| % PAGE == 0 && brk < WORDS
  }

  /** A write inside one payload leaves every tag, and every other payload, alone. */
  lemma PayloadWrite(m: seq<byte>, n: seq<byte>, bs: seq<Block>, start: nat, brk: nat, b: Block, live: set<Block>)
    requires HeapOk(m, bs, start, brk) && b in Live(bs) && live <= Live(bs) - {b}
    requires SameOutside(m, n, b.bp, b.End() - 8)
    ensures HeapOk(n, bs, start, brk) && Kept(m, n, live, start)
  {
    var k: nat :| 0 < k < |bs| && bs[k].used && bs[k] == b;
    hide Live, Kept, Tagged, Get, SameOutside;
    PayloadTiled(m, n, bs, start, brk, k);
    forall c | c in live
      ensures exists i :: 0 < i < |bs| && !(k <= i < k + 1) && bs[i] == c
    {
      assert c in Live(bs);
      LiveElsewhere(bs, c, k);
    }
    WritesKeep(m, n, bs, start, brk, k, k + 1, live);
  }

  lemma LiveElsewhere(bs: seq<Block>, c: Block, k: nat)
    requires c in Live(bs) && k < |bs| && c != bs[k]
    ensures exists i :: 0 < i < |bs| && !(k <= i < k + 1) && bs[i] == c
  {
    var i :| 0 < i < |bs| && bs[i].used && bs[i] == c;
    assert i != k;
  }

  lemma PayloadTiled(m: seq<byte>, n: seq<byte>, bs: seq<Block>, start: nat, brk: nat, k: nat)
    requires Tiled(m, bs, start, brk) && 0 < k < |bs|
    requires SameOutside(m, n, bs[k].bp, bs[k].End() - 8)
    ensures Tiled(n, bs, start, brk) && |m| == |n| && SameOutside(m, n, bs[k].bp - 4, Edge(bs, k + 1, brk) - 4)
  {
    hide Get, Pack;
    var b := bs[k];
    ShapedAt(m, bs, start, brk, k);
    InsideLinks(m, bs, start, brk, k);
    TiledStart(m, bs, start, brk);
    GetSame(m, n, b.bp, b.End() - 8, brk - 4);
    forall i: nat | i < |bs|
      ensures Tagged(n, bs[i])
    {
      InsideLinks(m, bs, start, brk, i);
      if i == k {
        GetSame(m, n, b.bp, b.End() - 8, b.bp - 4);
        GetSame(m, n, b.bp, b.End() - 8, b.End() - 8);
      } else {
        OthersTagged(m, n, bs, brk, k, k + 1, i);
      }
    }
  }

  /** `memcpy` between ranges that do not overlap. */
  method CopyBytes(mem: seq<byte>, dst: nat, src: nat, len: nat) returns (n: seq<byte>)
    requires dst + len <= |mem| && src + len <= |mem| && (dst + len <= src || src + len <= dst)
    ensures SameOutside(mem, n, dst, dst + len)
    ensures n[dst..dst + len] == mem[src..src + len]
  {
    n := mem;
    for k := 0 to len
      invariant SameOutside(mem, n, dst, dst + k)
      invariant n[dst..dst + k] == mem[src..src + k]
    {
      ghost var before := n;
      assert n[src + k] == mem[src + k];
      n := n[dst + k := n[src + k]];
      assert n[dst..dst + k] == before[dst..dst + k];
      assert n[dst..dst + k + 1] == n[dst..dst + k] + [mem[src + k]];
      assert mem[src..src + k + 1] == mem[src..src + k] + [mem[src + k]];
    }
  }

  class Allocator {
    var mem: seq<byte>            // every byte below `mem_alloctop`
    var brk: nat                  // `mem_brkp`
    var listp: nat                // `heap_listp`
    ghost var blocks: seq<Block>

    /** Blocks tile the heap, headers equal footers, sizes are multiples of eight, free blocks are apart. */
    ghost predicate Valid()
      reads this
    {
      HeapOk(mem, blocks, listp, brk)
    }

    /** `mem_init` has found `base`, a page it could allocate; `below` is the memory under it. */
    constructor (below: seq<byte>)
      requires 0 < |below| <= WORDS - PAGE && |below| % PAGE == 0
      ensures brk == |below| && mem == below + seq(PAGE, i => 0) && listp == 0
    {
      brk := |below|;
      mem := below + seq(PAGE, i => 0);
      listp := 0;
      blocks := [];
    }

    /** Growth on 32-bit words. While the sum does not wrap, the new area starts where the old one ended and
        lies in memory. When it wraps, the call succeeds all the same, but no memory is obtained and the
        break falls below its old value. */
    method Sbrk(incr: int, grant: bool) returns (p: nat)
      requires 0 < brk <= |mem| <= WORDS && brk < WORDS && |mem| % PAGE == 0 && INT_MIN <= incr <= INT_MAX
      modifies this`mem, this`brk
      ensures p == 0 <==> SbrkFails(old(brk), |old(mem)|, incr, grant)
      ensures p == 0 ==> brk == old(brk) && mem == old(mem)
      ensures p != 0 ==> p == old(brk) && (brk == old(brk) + incr <==> !Wraps(old(brk), incr))
      ensures p != 0 && !Wraps(old(brk), incr) ==> brk <= |mem| <= WORDS && |mem| % PAGE == 0
      ensures p != 0 && Wraps(old(brk), incr) ==> brk < old(brk) && mem == old(mem)
      ensures p != 0 && brk <= |old(mem)| ==> mem == old(mem)
      ensures p != 0 && brk > |old(mem)| ==> |mem| < brk + PAGE
      ensures old(mem) <= mem && forall x :: |old(mem)| <= x < |mem| ==> mem[x] == 0
    {
      var oldBrk, sum, top := brk, (brk + incr) % WORDS, |mem| % WORDS;
      if incr < 0 || sum > MAX_ADDR {
        return 0;
      }
      WrappedSum(brk, |mem|, incr);
      if sum > top {
        var allocincr := Signed((sum - top + (PAGE - 1)) % WORDS);
        allocincr := allocincr - allocincr % PAGE;
        PagesWanted(brk, |mem|, incr, sum, top, allocincr);
        if !(grant && NewPagesTakes(top, allocincr)) {
          return 0;
        }
        mem := mem + seq(allocincr, i => 0);
      }
      brk := sum;
      return oldBrk;
    }

    /** Merges a loose free block with its free neighbours, found through the tags. */
    method Coalesce(bp: nat, ghost k: nat) returns (p: nat, ghost at: nat)
      requires Loose(mem, blocks, listp, brk, k) && blocks[k].bp == bp && |mem| % PAGE == 0 && brk < WORDS
      modifies this`mem, this`blocks
      ensures Valid() && Live(blocks) == Live(old(blocks)) && |mem| == |old(mem)|
      ensures Kept(old(mem), mem, Live(old(blocks)), listp)
      ensures blocks == Merged(old(blocks), k)
      ensures 0 < at < |blocks| && blocks[at] == MergedBlock(old(blocks), k) && blocks[at].bp == p
    {
      hide Get, Put, SizeAt, UsedAt, SameOutside, Tagged, Tiled, Live, Kept;
      LooseAround(mem, blocks, listp, brk, k);
      LooseNeighbours(mem, blocks, listp, brk, k);
      ghost var b := MergedBlock(blocks, k);
      var n;
      var prevUsed := UsedAt(mem, Ftr(mem, PrevBlk(mem, bp)));
      var nextUsed := UsedAt(mem, NextBlk(mem, bp) - 4);
      var size := SizeAt(mem, bp - 4);
      if prevUsed && nextUsed {
        n, p := mem, bp;
        AlreadyTagged(mem, blocks, listp, brk, k);
      } else if prevUsed && !nextUsed {
        n := MergeNext(mem, bp, size, blocks, k);
        p := bp;
      } else if !prevUsed && nextUsed {
        n, p := MergePrev(mem, bp, size, blocks, k);
      } else {
        n, p := MergeBoth(mem, bp, size, blocks, k);
      }
      MergedHeap(mem, n, blocks, listp, brk, k);
      SameLength(mem, n, b.bp - 4, b.End() - 4);
      mem := n;
      at := MergeFrom(blocks, k);
      blocks := Merged(blocks, k);
    }

    /** Grows the heap by one free block and merges it with a free last block. `wild` means that the break
        has wrapped, and the code goes on to write the new tags at wrapped addresses. */
    method ExtendHeap(words: nat, grant: bool) returns (p: nat, wild: bool, ghost at: nat)
      requires Valid() && 4 <= words && 4 * (words + words % 2) <= INT_MAX
      modifies this`mem, this`brk, this`blocks
      ensures p == 0 <==> SbrkFails(old(brk), |old(mem)|, 4 * (words + words % 2), grant)
      ensures p == 0 ==> mem == old(mem) && brk == old(brk) && blocks == old(blocks)
      ensures wild <==> p != 0 && Wraps(old(brk), 4 * (words + words % 2))
      ensures !wild ==> Valid() && Live(blocks) == Live(old(blocks)) && Kept(old(mem), mem, Live(old(blocks)), listp)
      ensures p != 0 && !wild ==> brk == old(brk) + 4 * (words + words % 2)
      ensures p != 0 && !wild ==> blocks == Grown(old(blocks), old(brk), 4 * (words + words % 2))
      ensures p != 0 && !wild ==> 0 < at < |blocks| && blocks[at].bp == p
      ensures p != 0 && !wild ==> blocks[at] == GrownBlock(old(blocks), old(brk), 4 * (words + words % 2))
    {
      hide Get, Put, SizeAt, UsedAt, SameOutside, Tagged, Tiled, Live, Kept, Coalesced, SbrkFails;
      var size := if words % 2 == 1 then (words + 1) * 4 else words * 4;
      TiledStart(mem, blocks, listp, brk);
      p := Sbrk(size, grant);
      wild, at := false, 0;
      if p == 0 {
        KeptSelf(mem, Live(blocks), listp);
        return;
      }
      if brk != p + size {
        wild := true;
        return;
      }
      ghost var m := mem;
      TiledGrow(old(mem), m, blocks, listp, p);
      mem := ExtendTags(mem, p, size);
      SameLength(m, mem, p - 4, p + size);
      ExtendedHeap(m, mem, blocks, listp, p, size);
      KeptGrow(old(mem), m, mem, Live(blocks), listp);
      ghost var n := mem;
      blocks := blocks + [Block(p, size, false)];
      p, at := Coalesce(p, |blocks| - 1);
      KeptChain(old(mem), n, mem, Live(blocks), listp);
      MergedPointer(mem, blocks, listp, brk, at);
    }

    /** First-fit search along the tags. It finds the first fit before the first block of 2^31 bytes or more,
        if there is one, and nothing behind that block. */
    method FindFit(asize: int) returns (bp: nat, ghost k: nat)
      requires Valid()
      ensures bp == 0 <==> NoFitBefore(blocks, asize, Reach(blocks))
      ensures bp != 0 ==> exists j: nat :: j < Reach(blocks) && FirstFit(blocks, asize, j) && blocks[j].bp == bp
      ensures bp != 0 ==> 0 < k < Reach(blocks) && FirstFit(blocks, asize, k) && blocks[k].bp == bp
      ensures (forall i :: 0 <= i < |blocks| ==> blocks[i].size < HUGE) ==> Reach(blocks) == |blocks|
    {
      hide Get, SizeAt, UsedAt, Tagged, Shaped, Reach;
      bp, k := listp, 0;
      TiledStart(mem, blocks, listp, brk);
      AllReached(blocks);
      while Signed(SizeAt(mem, bp - 4)) > 0
        invariant k <= |blocks| && bp == Edge(blocks, k, brk) && 8 <= bp <= |mem|
        invariant NoFitBefore(blocks, asize, k)
        invariant forall i :: 0 <= i < k ==> blocks[i].size < HUGE
        decreases |blocks| - k
      {
        MoreBlocks(mem, blocks, listp, brk, k);
        ReadBlock(mem, blocks, listp, brk, k);
        ReachesPast(blocks, k);
        if !UsedAt(mem, bp - 4) && asize <= Signed(SizeAt(mem, bp - 4)) {
          return;
        }
        bp := NextBlk(mem, bp);
        k := k + 1;
      }
      MoreBlocks(mem, blocks, listp, brk, k);
      if k < |blocks| {
        ReadBlock(mem, blocks, listp, brk, k);
      }
      ReachIs(blocks, k);
      bp := 0;
    }

    /** Hands out the start of a free block, or all of it, on `int`s that may have wrapped. */
    method Place(bp: nat, asize: int, ghost k: nat)
      requires Valid() && 0 < k < |blocks| && blocks[k].bp == bp && !blocks[k].used
      requires INT_MIN <= asize <= INT_MAX && 16 <= AsWord(asize) <= HUGE + 16 && AsWord(asize) % 8 == 0
      modifies this`mem, this`blocks
      ensures Valid() && Kept(old(mem), mem, Live(old(blocks)), listp)
      ensures Live(blocks) == Live(old(blocks)) + {Placed(old(blocks[k]), AsWord(asize))[0]}
    {
      hide Get, SizeAt, UsedAt, Tagged, SameOutside, Tiled, Live, Kept, Coalesced, Placed;
      MergedPointer(mem, blocks, listp, brk, k);
      ghost var m := mem;
      mem := PlaceTags(mem, bp, asize, blocks[k]);
      SameLength(m, mem, bp - 4, blocks[k].End() - 4);
      PlacedHeap(m, mem, blocks, listp, brk, k, AsWord(asize));
      blocks := Splice(blocks, k, k + 1, Placed(blocks[k], AsWord(asize)));
    }

    /** A new block. Null means a size that is not positive, or no reachable free block that fits and no
        memory to grow by. Else one more block is live: the start of the first fit, or of the block grown.
        It has the size asked for, unless that is one of the fifteen largest, for which the first free block
        that is reached seems to fit. `wild` means that the break has wrapped. */
    method Malloc(size: int, grant: bool) returns (p: nat, wild: bool, ghost b: Block)
      requires Valid() && INT_MIN <= size <= INT_MAX
      modifies this`mem, this`brk, this`blocks
      ensures wild <==> MallocWraps(old(blocks), old(brk), |old(mem)|, size, grant)
      ensures p == 0 <==> MallocFails(old(blocks), old(brk), |old(mem)|, size, grant)
      ensures p == 0 ==> mem == old(mem) && brk == old(brk) && blocks == old(blocks)
      ensures !wild ==> Valid() && Kept(old(mem), mem, Live(old(blocks)), listp)
      ensures p != 0 && !wild ==> b !in Live(old(blocks)) && Live(blocks) == Live(old(blocks)) + {b}
      ensures p != 0 && !wild ==> b.bp == p && p % 8 == 0
      ensures p != 0 && !wild ==> FromFit(old(blocks), size, b) && FromGrown(old(blocks), old(brk), size, b)
      ensures p != 0 && !wild ==> (b.size - 8 >= size <==> LargeEnough(old(blocks), old(brk), size))
      ensures p != 0 && !wild ==> brk == old(brk) + GrowsBy(old(blocks), size)
      ensures p != 0 && !wild ==>
        b.size < AsWord(Adjusted(size)) + 16 || b.size >= AsWord(Adjusted(size)) + HUGE
    {
      hide Tiled, Live, Kept, Coalesced, SbrkFails, Adjusted, Placed, NoFitBefore, FirstFit, Growth, Reach, GrownBlock;
      hide FromFit, FromGrown, LargeEnough, AsWord, GrowsBy;
      p, wild, b := 0, false, Block(0, 0, false);
      KeptSelf(mem, Live(blocks), listp);
      if size <= 0 {
        return;
      }
      var asize := Adjusted(size);
      ghost var k;
      p, k := FindFit(asize);
      if p != 0 {
        FitFacts(blocks, asize, k);
        MergedPointer(mem, blocks, listp, brk, k);
        b := PlacedFirst(mem, blocks, listp, brk, k, AsWord(asize));
        Place(p, asize, k);
        GrowthIs(old(blocks), size);
        FitGiven(old(blocks), old(brk), size, k, b);
        return;
      }
      var extendsize := Growth(asize);
      GrowthWords(asize);
      p, wild, k := ExtendHeap(extendsize / 4, grant);
      if p == 0 || wild {
        return;
      }
      ghost var m := mem;
      TiledStart(old(mem), old(blocks), listp, old(brk));
      GrownFree(old(blocks), old(brk), extendsize);
      b := PlacedFirst(mem, blocks, listp, brk, k, AsWord(asize));
      Place(p, asize, k);
      KeptChain(old(mem), m, mem, Live(old(blocks)), listp);
      GrowthIs(old(blocks), size);
      GrownGiven(old(blocks), old(brk), size, b);
    }

    /** Gives a live block back. Null is ignored. */
    method Free(bp: nat)
      requires Valid() && (bp == 0 || Holds(blocks, bp))
      modifies this`mem, this`blocks
      ensures Valid() && |mem| == |old(mem)|
      ensures Live(blocks) == Without(Live(old(blocks)), bp)
      ensures Kept(old(mem), mem, Live(blocks), listp)
    {
      hide Get, Put, SizeAt, UsedAt, SameOutside, Tagged, Tiled, Live, Kept, Coalesced, Without, Holds;
      KeptSelf(mem, Live(blocks), listp);
      if bp == 0 {
        NullNotLive(mem, blocks, listp, brk);
        return;
      }
      ghost var k := IndexOf(mem, blocks, listp, brk, bp);
      MergedPointer(mem, blocks, listp, brk, k);
      ghost var m, b := mem, Unused(blocks[k]);
      var size := SizeAt(mem, bp - 4);
      WriteTags(mem, b);
      mem := Put(mem, bp - 4, Pack(size, false));
      mem := Put(mem, Ftr(mem, bp), Pack(size, false));
      FreedHeap(m, mem, blocks, listp, brk, k);
      ghost var n := mem;
      blocks := Splice(blocks, k, k + 1, [b]);
      var _, _ := Coalesce(bp, k);
      KeptChain(m, n, mem, Live(blocks), listp);
    }

    /** Moves a live block to a new one. The new block begins with the old payload, as far as the old block
        and the request reach; the other live payloads are left alone. If there is no memory the old block
        stays. The copy overruns the new block exactly if that is smaller than both. */
    method Realloc(ptr: nat, size: int, grant: bool) returns (p: nat, wild: bool, ghost b: Block)
      requires Valid() && INT_MIN <= size <= INT_MAX && (ptr == 0 || Holds(blocks, ptr))
      modifies this`mem, this`brk, this`blocks
      ensures p == 0 <==> MallocFails(old(blocks), old(brk), |old(mem)|, size, grant)
      ensures p == 0 ==> mem == old(mem) && brk == old(brk) && blocks == old(blocks)
      ensures wild <==>
        || MallocWraps(old(blocks), old(brk), |old(mem)|, size, grant)
        || (p != 0 && exists a :: a in Live(old(blocks)) && a.bp == ptr && a.size > b.size - 8 && size > b.size - 8)
      ensures !wild ==> Valid() && Kept(old(mem), mem, Without(Live(old(blocks)), ptr), listp)
      ensures p != 0 && !MallocWraps(old(blocks), old(brk), |old(mem)|, size, grant) ==>
        && b !in Live(old(blocks)) && b.bp == p && p % 8 == 0
        && FromFit(old(blocks), size, b) && FromGrown(old(blocks), old(brk), size, b)
        && (b.size - 8 >= size <==> LargeEnough(old(blocks), old(brk), size))
      ensures p != 0 && !wild ==> Live(blocks) == Without(Live(old(blocks)), ptr) + {b}
      ensures p != 0 && !wild ==> forall a :: a in Live(old(blocks)) && a.bp == ptr ==>
        SamePrefix(old(mem), ptr, mem, p, a.size - 8, size)
    {
      hide Get, Put, SizeAt, UsedAt, SameOutside, Tagged, Tiled, Live, Kept, Coalesced, Without, Holds, SbrkFails;
      hide Adjusted, NoFitBefore, SamePrefix, MallocWraps, MallocFails, FromFit, FromGrown, LargeEnough;
      ghost var live := Live(blocks);
      p, wild, b := Malloc(size, grant);
      if wild {
        return;
      }
      WithoutLess(old(mem), mem, live, ptr, listp);
      if ptr == 0 {
        NullNotLive(old(mem), old(blocks), listp, old(brk));
      }
      if p == 0 || ptr == 0 {
        return;
      }
      NotRefused(old(blocks), old(brk), |old(mem)|, size, grant);
      ghost var a := BlockAt(old(mem), old(blocks), listp, old(brk), ptr);
      ghost var m1, bs := mem, blocks;
      CopyReady(m1, bs, listp, brk, a, b);
      var oldSize := SizeAt(mem, ptr - 4);
      var len := Smaller(oldSize, size);
      if len > SizeAt(mem, p - 4) - 8 {
        wild := true;
        return;
      }
      mem := CopyBytes(mem, p, ptr, len);
      ghost var m2 := mem;
      NewPayload(m1, m2, bs, listp, brk, a, b, len);
      assert Holds(blocks, ptr) by { HoldsMember(blocks, a); }
      Free(ptr);
      WithoutNew(live, a, b);
      CopiedPrefix(old(mem), m1, m2, mem, live, Live(blocks), a, b, size, listp);
      KeptLess(m2, mem, Live(blocks), Without(live, ptr), listp);
      KeptChain(m1, m2, mem, Without(live, ptr), listp);
      KeptChain(old(mem), m1, mem, Without(live, ptr), listp);
    }

    /** An empty heap: prologue, epilogue and one free chunk between them. If the first page is the last of
        the address space there is no heap at all. */
    method Init(grant: bool) returns (r: int)
      requires 0 < brk && brk % PAGE == 0 && |mem| == brk + PAGE <= WORDS
      modifies this
      ensures |old(mem)| == WORDS ==> r == -1 && listp == 0 && mem == old(mem)
      ensures |old(mem)| < WORDS ==>
        Valid() && Live(blocks) == {} && Kept(old(mem), mem, {}, listp) && listp == old(brk) + 8
      ensures r == 0 ==> blocks == [Block(listp, 8, true), Block(listp + 8, CHUNKSIZE, false)]
      ensures |old(mem)| < WORDS ==> r == if SbrkFails(old(brk) + 16, |old(mem)|, CHUNKSIZE, grant) then -1 else 0
    {
      hide Get, Put, SizeAt, UsedAt, Tiled, Live, Kept;
      ghost var m0 := mem;
      LastPage(brk, |mem|);
      listp := Sbrk(16, grant);
      if listp == 0 {
        return -1;
      }
      InitTags(mem, listp);
      mem := Put(mem, listp, 0);
      mem := Put(mem, listp + 4, Pack(8, true));
      mem := Put(mem, listp + 8, Pack(8, true));
      mem := Put(mem, listp + 12, Pack(0, true));
      listp := listp + 8;
      blocks := [Block(listp, 8, true)];
      ghost var m1 := mem;
      var p, wild, _ := ExtendHeap(CHUNKSIZE / 4, grant);
      KeptChain(m0, m1, mem, {}, listp);
      r := if p == 0 then -1 else 0;
    }
  }

  lemma LastPage(brk: nat, top: nat)
    requires 0 < brk && brk % PAGE == 0 && top == brk + PAGE <= WORDS
    ensures top < WORDS ==> brk + 16 + CHUNKSIZE < WORDS
  {
  }

  // ----- words

  /** No reachable block fits, and the heap must grow by a sum that wraps. */
  predicate MallocWraps(bs: seq<Block>, brk: nat, top: nat, size: int, grant: bool) {
    && 0 < size <= INT_MAX
    && NoFitBefore(bs, Adjusted(size), Reach(bs)) && !SbrkFails(brk, top, Growth(Adjusted(size)), grant)
    && Wraps(brk, Growth(Adjusted(size)))
  }

  predicate MallocFails(bs: seq<Block>, brk: nat, top: nat, size: int, grant: bool)
    requires size <= INT_MAX
  {
    || size <= 0
    || (NoFitBefore(bs, Adjusted(size), Reach(bs)) && SbrkFails(brk, top, Growth(Adjusted(size)), grant))
  }

  /** If a reachable block fits, `b` is what placing makes of the first such block. */
  predicate FromFit(bs: seq<Block>, size: int, b: Block)
    requires 0 < size <= INT_MAX
  {
    forall k: nat :: k < Reach(bs) && FirstFit(bs, Adjusted(size), k) ==> b == Placed(bs[k], AsWord(Adjusted(size)))[0]
  }

  /** If none does, `b` is what placing makes of the block grown. */
  predicate FromGrown(bs: seq<Block>, brk: nat, size: int, b: Block)
    requires bs != [] && 0 < size <= INT_MAX
  {
    var asize := Adjusted(size);
    NoFitBefore(bs, asize, Reach(bs)) ==> b == Placed(GrownBlock(bs, brk, Growth(asize)), AsWord(asize))[0]
  }

  lemma FitGiven(bs: seq<Block>, brk: nat, size: int, k: nat, b: Block)
    requires bs != [] && 0 < size <= INT_MAX && 0 < k < Reach(bs) && FirstFit(bs, Adjusted(size), k)
    requires b == Placed(bs[k], AsWord(Adjusted(size)))[0] && bs[k].size % 8 == 0
    ensures FromFit(bs, size, b) && FromGrown(bs, brk, size, b)
    ensures b.size - 8 >= size <==> LargeEnough(bs, brk, size)
    ensures b.size < AsWord(Adjusted(size)) + 16 || b.size >= AsWord(Adjusted(size)) + HUGE
  {
    ReachedSmall(bs, k);
  }

  lemma GrownGiven(bs: seq<Block>, brk: nat, size: int, b: Block)
    requires bs != [] && 0 < size <= INT_MAX && NoFitBefore(bs, Adjusted(size), Reach(bs))
    requires b == Placed(GrownBlock(bs, brk, Growth(Adjusted(size))), AsWord(Adjusted(size)))[0]
    ensures FromFit(bs, size, b) && FromGrown(bs, brk, size, b)
    ensures b.size - 8 >= size <==> LargeEnough(bs, brk, size)
    ensures b.size < AsWord(Adjusted(size)) + 16 || b.size >= AsWord(Adjusted(size)) + HUGE
  {
    GrownFree(bs, brk, Growth(Adjusted(size)));
  }

  lemma {:induction false} ReachedSmall(bs: seq<Block>, k: nat)
    requires k < Reach(bs)
    ensures bs[k].size < HUGE
  {
    if k > 0 {
      ReachedSmall(bs[1..], k - 1);
    }
  }

  lemma GrownFree(bs: seq<Block>, brk: nat, size: nat)
    requires bs != []
    ensures !GrownBlock(bs, brk, size).used && GrownBlock(bs, brk, size).size >= size
  {
  }

  /** On the heap that `mm_init` leaves, a request for the largest `int` is given the whole first chunk. */
  lemma LargestRequest(start: nat)
    ensures var bs := [Block(start, 8, true), Block(start + 8, CHUNKSIZE, false)];
      && NoFitBefore(bs, Adjusted(INT_MAX), 1) && !LargeEnough(bs, bs[1].End(), INT_MAX)
      && (forall b :: FromFit(bs, INT_MAX, b) <==> b == Block(start + 8, CHUNKSIZE, true))
      && (forall top, grant :: !MallocFails(bs, bs[1].End(), top, INT_MAX, grant))
      && (forall top, grant :: !MallocWraps(bs, bs[1].End(), top, INT_MAX, grant))
  {
    var bs := [Block(start, 8, true), Block(start + 8, CHUNKSIZE, false)];
    ReachIs(bs, 2);
    var asize := Adjusted(INT_MAX);
    assert asize == INT_MIN + 16;
    assert FirstFit(bs, asize, 1);
    assert Placed(bs[1], AsWord(asize))[0] == Block(start + 8, CHUNKSIZE, true);
  }

  /** By how much the break moves for a request: by the rounded size, but by a chunk at least, if no reachable
      block fits. */
  function GrowsBy(bs: seq<Block>, size: int): int
    requires 0 < size <= INT_MAX
  {
    var asize := Adjusted(size);
    if !NoFitBefore(bs, asize, Reach(bs)) then 0 else if asize < 4096 then 4096 else asize
  }

  lemma GrowthIs(bs: seq<Block>, size: int)
    requires 0 < size <= INT_MAX
    ensures GrowsBy(bs, size) == if NoFitBefore(bs, Adjusted(size), Reach(bs)) then Growth(Adjusted(size)) else 0
  {
  }

  /** Exactly when the block given has room for the request. A size above `TOP_REQUEST` gets it only if no
      reachable block is free and the last block, which then has 2^31 bytes or lies behind one that has,
      is large enough together with the chunk added. */
  predicate LargeEnough(bs: seq<Block>, brk: nat, size: int)
    requires bs != [] && 0 < size <= INT_MAX
  {
    || size <= TOP_REQUEST
    || (NoFitBefore(bs, Adjusted(size), Reach(bs)) && GrownBlock(bs, brk, CHUNKSIZE).size >= size + 8)
  }

  lemma NotRefused(bs: seq<Block>, brk: nat, top: nat, size: int, grant: bool)
    requires size <= INT_MAX && !MallocFails(bs, brk, top, size, grant)
    ensures size > 0
  {
  }

  /** The checks `new_pages` makes of a page-aligned base and length before it looks at memory. */
  predicate NewPagesTakes(base: nat, len: int) {
    base > 0 && len > 0 && base + len <= WORDS
  }

  lemma WrappedSum(brk: nat, top: nat, incr: int)
    requires 0 < brk <= top <= WORDS && brk < WORDS && 0 <= incr <= INT_MAX
    ensures (brk + incr) % WORDS == if Wraps(brk, incr) then brk + incr - WORDS else brk + incr
    ensures top % WORDS == if top == WORDS then 0 else top
  {
  }

  /** What the pages asked for come to. */
  lemma PagesWanted(brk: nat, top: nat, incr: int, sum: nat, top': nat, len: int)
    requires 0 < brk <= top <= WORDS && brk < WORDS && top % PAGE == 0 && 0 <= incr <= INT_MAX
    requires sum == (if Wraps(brk, incr) then brk + incr - WORDS else brk + incr)
    requires top' == (if top == WORDS then 0 else top)
    requires sum > top' && var w := Signed((sum - top' + (PAGE - 1)) % WORDS); len == w - w % PAGE
    ensures top < WORDS ==> !Wraps(brk, incr) && (NewPagesTakes(top', len) <==> sum - top + (PAGE - 1) <= INT_MAX)
    ensures NewPagesTakes(top', len) ==> sum <= top + len < sum + PAGE && (top + len) % PAGE == 0 && top < WORDS
  {
  }

  lemma ReachesPast(bs: seq<Block>, k: nat)
    requires k < |bs| && (forall i :: 0 <= i <= k ==> bs[i].size < HUGE)
    ensures k < Reach(bs)
    decreases k
  {
    if k > 0 {
      ReachesPast(bs[1..], k - 1);
    }
  }

  lemma AllReached(bs: seq<Block>)
    ensures (forall i :: 0 <= i < |bs| ==> bs[i].size < HUGE) ==> Reach(bs) == |bs|
  {
    if forall i :: 0 <= i < |bs| ==> bs[i].size < HUGE {
      ReachIs(bs, |bs|);
    }
  }

  /** The block that placing makes live was not live before. */
  function PlacedFirst(m: seq<byte>, bs: seq<Block>, start: nat, brk: nat, k: nat, asize: nat): (b: Block)
    requires Tiled(m, bs, start, brk) && 0 < k < |bs| && !bs[k].used
    ensures b == Placed(bs[k], asize)[0] && b.bp == bs[k].bp && b.bp % 8 == 0
    ensures b !in Live(bs)
  {
    FreshPlace(m, bs, start, brk, k);
    Placed(bs[k], asize)[0]
  }

  lemma FreshPlace(m: seq<byte>, bs: seq<Block>, start: nat, brk: nat, k: nat)
    requires Tiled(m, bs, start, brk) && 0 < k < |bs| && !bs[k].used
    ensures bs[k].bp % 8 == 0
    ensures forall b :: b in Live(bs) ==> b.bp != bs[k].bp
  {
    ShapedAt(m, bs, start, brk, k);
    forall b | b in Live(bs)
      ensures b.bp != bs[k].bp
    {
      var i: nat :| 0 < i < |bs| && bs[i].used && bs[i] == b;
      ShapedAt(m, bs, start, brk, i);
      if i < k {
        Apart(bs, i, k, brk);
      } else {
        Apart(bs, k, i, brk);
      }
    }
  }

  lemma FitFacts(bs: seq<Block>, asize: int, k: nat)
    requires FirstFit(bs, asize, k)
    ensures k < |bs| && !bs[k].used
  {
  }

  /** The epilogue is the only block of size zero. */
  lemma MoreBlocks(m: seq<byte>, bs: seq<Block>, start: nat, brk: nat, k: nat)
    requires Tiled(m, bs, start, brk) && k <= |bs| && 4 <= Edge(bs, k, brk) <= |m|
    ensures k == |bs| <==> SizeAt(m, Edge(bs, k, brk) - 4) == 0
  {
    if k < |bs| {
      ReadBlock(m, bs, start, brk, k);
    } else {
      ReadBlock(m, bs, start, brk, k - 1);
    }
  }

  lemma GrowthWords(asize: int)
    requires INT_MIN <= asize <= INT_MAX && AsWord(asize) % 8 == 0
    ensures Growth(asize) <= INT_MAX
    ensures var w := Growth(asize) / 4; w >= 4 && 4 * w == Growth(asize) && 4 * (w + w % 2) == Growth(asize)
  {
    Halves(Growth(asize), Growth(asize) / 8);
  }

  lemma Halves(g: nat, q: nat)
    requires g == 8 * q
    ensures g / 4 == 2 * q && (g / 4) % 2 == 0
  {
  }

  // ----- callers' blocks

  /** `bp` is the payload pointer of a live block. */
  ghost predicate Holds(bs: seq<Block>, bp: nat) {
    exists b :: b in Live(bs) && b.bp == bp
  }

  ghost function Without(live: set<Block>, bp: nat): set<Block> {
    set b | b in live && b.bp != bp
  }

  /** The bytes from `p` on in `m` are those from `q` on in `n`, for as many as both numbers admit. */
  predicate SamePrefix(m: seq<byte>, p: nat, n: seq<byte>, q: nat, room: int, size: int) {
    forall x :: p <= x < p + room && x < p + size ==> x < |m| && q + (x - p) < |n| && n[q + (x - p)] == m[x]
  }

  ghost function IndexOf(m: seq<byte>, bs: seq<Block>, start: nat, brk: nat, bp: nat): (k: nat)
    requires Tiled(m, bs, start, brk) && Holds(bs, bp)
    ensures 0 < k < |bs| && bs[k].used && bs[k].bp == bp && Live(bs) - {bs[k]} == Without(Live(bs), bp)
  {
    var b :| b in Live(bs) && b.bp == bp;
    var k: nat :| 0 < k < |bs| && bs[k].used && bs[k] == b;
    OneBlockAt(m, bs, start, brk, b);
    k
  }

  lemma OneBlockAt(m: seq<byte>, bs: seq<Block>, start: nat, brk: nat, b: Block)
    requires Tiled(m, bs, start, brk) && b in Live(bs)
    ensures Live(bs) - {b} == Without(Live(bs), b.bp)
  {
    forall c | c in Live(bs)
      ensures c.bp == b.bp ==> c == b
    {
      LiveApart(m, bs, start, brk, b, c);
    }
  }

  ghost function BlockAt(m: seq<byte>, bs: seq<Block>, start: nat, brk: nat, bp: nat): (a: Block)
    requires Tiled(m, bs, start, brk) && Holds(bs, bp)
    ensures a in Live(bs) && a.bp == bp && a.End() <= |m| && forall c :: c in Live(bs) && c.bp == bp ==> c == a
  {
    var k := IndexOf(m, bs, start, brk, bp);
    InsideLinks(m, bs, start, brk, k);
    bs[k]
  }

  lemma NullNotLive(m: seq<byte>, bs: seq<Block>, start: nat, brk: nat)
    requires Tiled(m, bs, start, brk)
    ensures Without(Live(bs), 0) == Live(bs) && forall a :: a in Live(bs) ==> a.bp != 0
  {
    forall a | a in Live(bs)
      ensures a.bp != 0
    {
      LiveApart(m, bs, start, brk, a, a);
    }
  }

  lemma HoldsMember(bs: seq<Block>, a: Block)
    requires a in Live(bs)
    ensures Holds(bs, a.bp)
  {
  }

  lemma WithoutLess(m: seq<byte>, n: seq<byte>, live: set<Block>, bp: nat, start: nat)
    requires Kept(m, n, live, start)
    ensures Kept(m, n, Without(live, bp), start)
  {
  }

  lemma KeptLess(m: seq<byte>, n: seq<byte>, live: set<Block>, less: set<Block>, start: nat)
    requires Kept(m, n, live, start) && less <= live
    ensures Kept(m, n, less, start)
  {
  }

  /** Source and destination of the copy lie apart, also where the copy runs on over the old block's tags. */
  lemma CopyReady(m: seq<byte>, bs: seq<Block>, start: nat, brk: nat, a: Block, b: Block)
    requires Tiled(m, bs, start, brk) && a in Live(bs) && b in Live(bs) && a != b
    ensures 4 <= a.bp <= |m| && SizeAt(m, a.bp - 4) == a.size && 16 <= a.size && a.End() <= |m|
    ensures 4 <= b.bp <= |m| && SizeAt(m, b.bp - 4) == b.size && 16 <= b.size && b.End() <= |m|
    ensures b.End() <= a.bp || a.End() <= b.bp
  {
    LiveApart(m, bs, start, brk, a, b);
    var i: nat :| 0 < i < |bs| && bs[i].used && bs[i] == a;
    var j: nat :| 0 < j < |bs| && bs[j].used && bs[j] == b;
    MergedPointer(m, bs, start, brk, i);
    MergedPointer(m, bs, start, brk, j);
  }

  lemma NewPayload(m: seq<byte>, n: seq<byte>, bs: seq<Block>, start: nat, brk: nat, a: Block, b: Block, len: nat)
    requires HeapOk(m, bs, start, brk) && a in Live(bs) && b in Live(bs) && a != b
    requires SameOutside(m, n, b.bp, b.bp + len) && len <= b.size - 8
    ensures HeapOk(n, bs, start, brk) && Kept(m, n, Live(bs) - {b}, start)
  {
    assert SameOutside(m, n, b.bp, b.End() - 8);
    PayloadWrite(m, n, bs, start, brk, b, Live(bs) - {b});
  }

  lemma WithoutNew(live: set<Block>, a: Block, b: Block)
    requires a in live && b !in live && b.bp != a.bp
    ensures Without(live + {b}, a.bp) == Without(live, a.bp) + {b}
  {
  }

  lemma CopiedPrefix(m0: seq<byte>, m1: seq<byte>, m2: seq<byte>, m3: seq<byte>, live: set<Block>, after: set<Block>,
                     a: Block, b: Block, size: nat, start: nat)
    requires a in live && b in after && Smaller(a.size, size) <= b.size - 8 && 16 <= a.size
    requires a.End() <= |m0| && b.End() <= |m2|
    requires Kept(m0, m1, live, start) && Kept(m2, m3, after, start) && |m1| == |m2|
    requires m2[b.bp..b.bp + Smaller(a.size, size)] == m1[a.bp..a.bp + Smaller(a.size, size)]
    ensures SamePrefix(m0, a.bp, m3, b.bp, a.size - 8, size)
  {
    var len := Smaller(a.size, size);
    forall x | a.bp <= x < a.bp + (a.size - 8) && x < a.bp + size
      ensures x < |m0| && b.bp + (x - a.bp) < |m3| && m3[b.bp + (x - a.bp)] == m0[x]
    {
      assert m1[x] == m1[a.bp..a.bp + len][x - a.bp];
      assert m2[b.bp + (x - a.bp)] == m2[b.bp..b.bp + len][x - a.bp];
    }
  }

  lemma InitTags(m: seq<byte>, p: nat)
    requires 8 <= p && p % PAGE == 0 && p + 16 <= |m| <= WORDS && |m| % PAGE == 0
    ensures var n := Put(Put(Put(Put(m, p, 0), p + 4, Pack(8, true)), p + 8, Pack(8, true)), p + 12, Pack(0, true));
      && HeapOk(n, [Block(p + 8, 8, true)], p + 8, p + 16) && |n| == |m|
      && Live([Block(p + 8, 8, true)]) == {} && Kept(m, n, {}, p + 8)
  {
    hide Get, Put;
    var n1 := Put(m, p, 0);
    var n2 := Put(n1, p + 4, Pack(8, true));
    var n3 := Put(n2, p + 8, Pack(8, true));
    var n4 := Put(n3, p + 12, Pack(0, true));
    GetPut(m, p, 0);
    GetPut(n1, p + 4, Pack(8, true));
    GetPut(n2, p + 8, Pack(8, true));
    GetPut(n3, p + 12, Pack(0, true));
    GetSame(n2, n3, p + 8, p + 12, p + 4);
    GetSame(n3, n4, p + 12, p + 16, p + 4);
    GetSame(n3, n4, p + 12, p + 16, p + 8);
    var bs := [Block(p + 8, 8, true)];
    assert Links(bs, 0, p + 16);
    PageAligned(p);
  }

  lemma ByEight(p: nat, q: nat)
    requires p == 4096 * q
    ensures p % 8 == 0
  {
    assert p == 8 * (512 * q);
  }

  lemma PageAligned(p: nat)
    requires p % PAGE == 0
    ensures p % 8 == 0
  {
    ByEight(p, p / PAGE);
  }

  lemma KeptSelf(m: seq<byte>, live: set<Block>, start: nat)
    ensures Kept(m, m, live, start)
  {
  }

  lemma KeptGrow(a: seq<byte>, b: seq<byte>, c: seq<byte>, live: set<Block>, start: nat)
    requires a <= b && Kept(b, c, live, start)
    ensures Kept(a, c, live, start)
  {
  }

  lemma MergedPointer(m: seq<byte>, bs: seq<Block>, start: nat, brk: nat, k: nat)
    requires Tiled(m, bs, start, brk) && 0 < k < |bs|
    ensures bs[k].bp > 0 && Shaped(bs[k]) && bs[k].End() <= brk <= |m| <= WORDS && SizeAt(m, bs[k].bp - 4) == bs[k].size
  {
    ShapedAt(m, bs, start, brk, k);
    ReadBlock(m, bs, start, brk, k);
  }

  lemma AlreadyTagged(m: seq<byte>, bs: seq<Block>, start: nat, brk: nat, k: nat)
    requires Loose(m, bs, start, brk, k) && bs[k - 1].used && (k + 1 < |bs| ==> bs[k + 1].used)
    ensures var b := MergedBlock(bs, k); b == bs[k] && Tagged(m, b) && SameOutside(m, m, b.bp - 4, b.End() - 4)
  {
  }
}
