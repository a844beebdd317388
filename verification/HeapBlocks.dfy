/** The blocks that tile the boundary-tag heap, and what their tags in memory say. */
module HeapBlocks {
  import opened HeapMemory

  /** A block with payload pointer `bp`. It occupies the bytes from its header at `bp - 4` to the end
      of its footer at `bp + size - 4`. */
  datatype Block = Block(bp: nat, size: nat, used: bool) {
    function End(): nat {
      bp + size
    }
  }

  predicate Shaped(b: Block) {
    8 <= b.bp && b.bp % 8 == 0 && b.size % 8 == 0 && b.size >= 16
  }

  /** Header and footer both hold the block's size and state. */
  predicate Tagged(mem: seq<byte>, b: Block) {
    && 4 <= b.bp && 8 <= b.size && b.End() - 4 <= |mem|
    && Get(mem, b.bp - 4) == Pack(b.size, b.used)
    && Get(mem, b.End() - 8) == Pack(b.size, b.used)
  }

  /** Where block `i` starts, or `to` past the last block. */
  function Edge(bs: seq<Block>, i: nat, to: nat): nat {
    if i < |bs| then bs[i].bp else to
  }

  predicate Links(bs: seq<Block>, i: nat, to: nat)
    requires i < |bs|
  {
    bs[i].End() == Edge(bs, i + 1, to)
  }

  /** Each block ends where the next begins, and the last ends at `to`. */
  predicate Chain(bs: seq<Block>, to: nat) {
    forall i :: 0 <= i < |bs| ==> Links(bs, i, to)
  }

  /** Blocks tile the heap from the prologue to the epilogue, whose header lies just below `brk`. */
  ghost predicate Tiled(mem: seq<byte>, bs: seq<Block>, start: nat, brk: nat) {
    && 8 <= start && start % 8 == 0 && brk <= |mem| <= WORDS
    && |bs| > 0 && bs[0] == Block(start, 8, true)
    && Chain(bs, brk)
    && (forall i :: 0 < i < |bs| ==> Shaped(bs[i]))
    && (forall i :: 0 <= i < |bs| ==> Tagged(mem, bs[i]))
    && brk >= 4 && Get(mem, brk - 4) == Pack(0, true)
  }

  predicate Parted(bs: seq<Block>, i: nat)
    requires i + 1 < |bs|
  {
    bs[i].used || bs[i + 1].used
  }

  /** No two free blocks are adjacent, except perhaps at block `k`. */
  predicate CoalescedBut(bs: seq<Block>, k: int) {
    forall i :: 0 <= i < |bs| - 1 && i != k && i + 1 != k ==> Parted(bs, i)
  }

  predicate Coalesced(bs: seq<Block>) {
    CoalescedBut(bs, -1)
  }

  // ----- order

  lemma {:induction false} EdgesAscend(bs: seq<Block>, i: nat, j: nat, to: nat)
    requires Chain(bs, to) && i <= j <= |bs|
    ensures Edge(bs, i, to) <= Edge(bs, j, to)
    decreases j - i
  {
    if i < j {
      EdgesAscend(bs, i + 1, j, to);
      assert Links(bs, i, to);
    }
  }

  lemma Apart(bs: seq<Block>, i: nat, j: nat, to: nat)
    requires Chain(bs, to) && i < j < |bs|
    ensures bs[i].End() <= bs[j].bp && bs[j].End() <= to
  {
    assert Links(bs, i, to) && Links(bs, j, to);
    EdgesAscend(bs, i + 1, j, to);
    EdgesAscend(bs, j + 1, |bs|, to);
  }

  lemma Inside(bs: seq<Block>, i: nat, to: nat)
    requires Chain(bs, to) && i < |bs|
    ensures bs[0].bp <= bs[i].bp && bs[i].End() <= to
    ensures i > 0 ==> bs[0].End() <= bs[i].bp
  {
    assert Links(bs, 0, to) && Links(bs, i, to);
    EdgesAscend(bs, 0, i, to);
    if i > 0 { EdgesAscend(bs, 1, i, to); }
    EdgesAscend(bs, i + 1, |bs|, to);
  }

  // ----- replacing some blocks by others that cover the same bytes

  function Splice(bs: seq<Block>, i: nat, j: nat, mid: seq<Block>): seq<Block>
    requires i <= j <= |bs|
  {
    bs[..i] + mid + bs[j..]
  }

  lemma SpliceIndex(bs: seq<Block>, i: nat, j: nat, mid: seq<Block>, k: nat)
    requires i <= j <= |bs| && k < |Splice(bs, i, j, mid)|
    ensures Splice(bs, i, j, mid)[k]
         == if k < i then bs[k] else if k < i + |mid| then mid[k - i] else bs[k - i - |mid| + j]
  {
  }

  lemma SpliceEdge(bs: seq<Block>, i: nat, j: nat, mid: seq<Block>, k: nat, to: nat)
    requires i <= j <= |bs| && k <= |Splice(bs, i, j, mid)| && mid != []
    ensures Edge(Splice(bs, i, j, mid), k, to)
         == if k < i then bs[k].bp else if k < i + |mid| then mid[k - i].bp else Edge(bs, k - i - |mid| + j, to)
  {
  }

  lemma SpliceChain(bs: seq<Block>, i: nat, j: nat, mid: seq<Block>, to: nat)
    requires Chain(bs, to) && i < j <= |bs| && mid != []
    requires Chain(mid, Edge(bs, j, to)) && mid[0].bp == bs[i].bp
    ensures Chain(Splice(bs, i, j, mid), to)
  {
    var r := Splice(bs, i, j, mid);
    forall k | 0 <= k < |r|
      ensures Links(r, k, to)
    {
      SpliceIndex(bs, i, j, mid, k);
      SpliceEdge(bs, i, j, mid, k + 1, to);
      if i <= k < i + |mid| {
        assert Links(mid, k - i, Edge(bs, j, to));
      } else if i + |mid| <= k {
        assert Links(bs, k - i - |mid| + j, to);
      } else {
        assert Links(bs, k, to);
      }
    }
  }

  lemma TaggedSame(m: seq<byte>, n: seq<byte>, lo: int, hi: int, b: Block)
    requires SameOutside(m, n, lo, hi) && Tagged(m, b) && (b.End() - 4 <= lo || hi <= b.bp - 4)
    ensures Tagged(n, b)
  {
    GetSame(m, n, lo, hi, b.bp - 4);
    GetSame(m, n, lo, hi, b.End() - 8);
  }

  /** Memory written only inside the replaced blocks, and tagged there for the new ones, is tiled again. */
  lemma SpliceTiled(m: seq<byte>, n: seq<byte>, bs: seq<Block>, start: nat, brk: nat, i: nat, j: nat, mid: seq<Block>)
    requires Tiled(m, bs, start, brk) && 0 < i < j <= |bs| && mid != []
    requires SameOutside(m, n, bs[i].bp - 4, Edge(bs, j, brk) - 4)
    requires Chain(mid, Edge(bs, j, brk)) && mid[0].bp == bs[i].bp
    requires forall k :: 0 <= k < |mid| ==> Shaped(mid[k]) && Tagged(n, mid[k])
    ensures Tiled(n, Splice(bs, i, j, mid), start, brk)
  {
    var r := Splice(bs, i, j, mid);
    SpliceChain(bs, i, j, mid, brk);
    EdgesAscend(bs, j, |bs|, brk);
    Inside(bs, i, brk);
    GetSame(m, n, bs[i].bp - 4, Edge(bs, j, brk) - 4, brk - 4);
    SpliceIndex(bs, i, j, mid, 0);
    hide Tagged, Chain, Edge;
    forall k: nat | k < |r|
      ensures Tagged(n, r[k]) && (k > 0 ==> Shaped(r[k]))
    {
      SpliceIndex(bs, i, j, mid, k);
      if k < i {
        OthersTagged(m, n, bs, brk, i, j, k);
      } else if k < i + |mid| {
        assert Shaped(mid[k - i]) && Tagged(n, mid[k - i]);
      } else {
        OthersTagged(m, n, bs, brk, i, j, k - i - |mid| + j);
      }
    }
  }

  lemma OthersTagged(m: seq<byte>, n: seq<byte>, bs: seq<Block>, brk: nat, i: nat, j: nat, k: nat)
    requires Chain(bs, brk) && i < j <= |bs| && k < |bs| && !(i <= k < j) && Tagged(m, bs[k])
    requires SameOutside(m, n, bs[i].bp - 4, Edge(bs, j, brk) - 4)
    ensures Tagged(n, bs[k])
  {
    if k < i {
      Apart(bs, k, i, brk);
    } else {
      EdgesAscend(bs, j, k, brk);
    }
    TaggedSame(m, n, bs[i].bp - 4, Edge(bs, j, brk) - 4, bs[k]);
  }

  // ----- the blocks in use

  /** The blocks in use, apart from the prologue: what callers hold. */
  ghost function Live(bs: seq<Block>): set<Block> {
    set i | 0 < i < |bs| && bs[i].used :: bs[i]
  }

  lemma SpliceLive(bs: seq<Block>, i: nat, j: nat, mid: seq<Block>)
    requires 0 < i < j <= |bs| && mid != []
    requires forall k :: i <= k < j ==> !bs[k].used
    ensures Live(Splice(bs, i, j, mid)) == Live(bs) + (set k | 0 <= k < |mid| && mid[k].used :: mid[k])
  {
    var r := Splice(bs, i, j, mid);
    forall b | b in Live(bs)
      ensures b in Live(r)
    {
      var k :| 0 < k < |bs| && bs[k].used && bs[k] == b;
      assert r[if k < i then k else k - j + |mid| + i] == b;
    }
    forall k | 0 <= k < |mid| && mid[k].used
      ensures mid[k] in Live(r)
    {
      assert r[k + i] == mid[k];
    }
    forall b | b in Live(r)
      ensures b in Live(bs) + (set k | 0 <= k < |mid| && mid[k].used :: mid[k])
    {
      var k :| 0 < k < |r| && r[k].used && r[k] == b;
      SpliceIndex(bs, i, j, mid, k);
    }
  }

  /** Live payloads are aligned, inside the heap and pairwise disjoint, and hold no tag of any block. */
  lemma LiveApart(mem: seq<byte>, bs: seq<Block>, start: nat, brk: nat, a: Block, b: Block)
    requires Tiled(mem, bs, start, brk) && a in Live(bs) && b in Live(bs)
    ensures a.bp % 8 == 0 && start < a.bp && a.End() - 4 <= brk - 4
    ensures a != b ==> a.End() <= b.bp || b.End() <= a.bp
    ensures a.bp == b.bp ==> a == b
  {
    var i :| 0 < i < |bs| && bs[i].used && bs[i] == a;
    var j :| 0 < j < |bs| && bs[j].used && bs[j] == b;
    Inside(bs, i, brk);
    assert Shaped(bs[i]) && Shaped(bs[j]);
    if i < j {
      Apart(bs, i, j, brk);
    } else if j < i {
      Apart(bs, j, i, brk);
    }
  }

  lemma SpliceCoalesced(bs: seq<Block>, i: nat, j: nat, mid: seq<Block>)
    requires 0 < i < j <= |bs| && mid != []
    requires forall t :: 0 <= t < |bs| - 1 && (t + 1 < i || j <= t) ==> Parted(bs, t)
    requires forall t :: 0 <= t < |mid| - 1 ==> Parted(mid, t)
    requires bs[i - 1].used || mid[0].used
    requires j < |bs| ==> mid[|mid| - 1].used || bs[j].used
    ensures Coalesced(Splice(bs, i, j, mid))
  {
    var r := Splice(bs, i, j, mid);
    forall k | 0 <= k < |r| - 1
      ensures Parted(r, k)
    {
      SpliceIndex(bs, i, j, mid, k);
      SpliceIndex(bs, i, j, mid, k + 1);
      if k + 1 < i {
        assert Parted(bs, k);
      } else if i <= k < i + |mid| - 1 {
        assert Parted(mid, k - i);
      } else if i + |mid| <= k {
        assert Parted(bs, k - i - |mid| + j);
      }
    }
  }

  // ----- what an operation leaves alone

  /** Payloads of `live` blocks, and everything below the heap, hold the same bytes in `n` as in `m`. */
  ghost predicate Kept(m: seq<byte>, n: seq<byte>, live: set<Block>, start: nat) {
    && |m| <= |n|
    && (forall x :: 0 <= x < start - 8 && x < |m| ==> n[x] == m[x])
    && (forall b, x :: b in live && b.bp <= x < b.End() - 8 && x < |m| ==> n[x] == m[x])
  }

  lemma KeptChain(a: seq<byte>, b: seq<byte>, c: seq<byte>, live: set<Block>, start: nat)
    requires Kept(a, b, live, start) && Kept(b, c, live, start)
    ensures Kept(a, c, live, start)
  {
  }

  /** Writing only inside blocks `i..j-1` keeps every live payload outside them. */
  lemma WritesKeep(m: seq<byte>, n: seq<byte>, bs: seq<Block>, start: nat, brk: nat, i: nat, j: nat, live: set<Block>)
    requires Tiled(m, bs, start, brk) && 0 < i < j <= |bs|
    requires SameOutside(m, n, bs[i].bp - 4, Edge(bs, j, brk) - 4)
    requires forall b :: b in live ==> exists k :: 0 < k < |bs| && !(i <= k < j) && bs[k] == b
    ensures Kept(m, n, live, start)
  {
    Inside(bs, i, brk);
    forall b, x | b in live && b.bp <= x < b.End() - 8 && x < |m|
      ensures n[x] == m[x]
    {
      var k :| 0 < k < |bs| && !(i <= k < j) && bs[k] == b;
      if k < i {
        Apart(bs, k, i, brk);
      } else {
        EdgesAscend(bs, j, k, brk);
      }
    }
  }

  /** In particular, writing inside free blocks keeps every live payload. */
  lemma FreeWritesKeep(m: seq<byte>, n: seq<byte>, bs: seq<Block>, start: nat, brk: nat, i: nat, j: nat)
    requires Tiled(m, bs, start, brk) && 0 < i < j <= |bs|
    requires SameOutside(m, n, bs[i].bp - 4, Edge(bs, j, brk) - 4)
    requires forall k :: i <= k < j ==> !bs[k].used
    ensures Kept(m, n, Live(bs), start)
  {
    forall b | b in Live(bs)
      ensures exists k :: 0 < k < |bs| && !(i <= k < j) && bs[k] == b
    {
      var k :| 0 < k < |bs| && bs[k].used && bs[k] == b;
      assert !(i <= k < j);
    }
    WritesKeep(m, n, bs, start, brk, i, j, Live(bs));
  }

  // ----- reading and writing tags

  lemma ReadBlock(mem: seq<byte>, bs: seq<Block>, start: nat, brk: nat, k: nat)
    requires Tiled(mem, bs, start, brk) && k < |bs|
    ensures var b := bs[k];
      && 8 <= b.bp && b.bp % 8 == 0 && 8 <= b.size && b.size % 8 == 0 && b.End() <= brk <= |mem| <= WORDS
      && SizeAt(mem, b.bp - 4) == b.size && UsedAt(mem, b.bp - 4) == b.used
      && SizeAt(mem, b.End() - 8) == b.size && UsedAt(mem, b.End() - 8) == b.used
      && b.End() == Edge(bs, k + 1, brk)
      && SizeAt(mem, b.End() - 4) == (if k + 1 < |bs| then bs[k + 1].size else 0)
      && UsedAt(mem, b.End() - 4) == (if k + 1 < |bs| then bs[k + 1].used else true)
  {
    var b := bs[k];
    Inside(bs, k, brk);
    assert Links(bs, k, brk);
    assert k > 0 ==> Shaped(b);
    assert Tagged(mem, b);
    Unpack(mem, b.bp - 4, b.size, b.used);
    Unpack(mem, b.End() - 8, b.size, b.used);
    if k + 1 < |bs| {
      assert Shaped(bs[k + 1]) && Tagged(mem, bs[k + 1]);
      Unpack(mem, b.End() - 4, bs[k + 1].size, bs[k + 1].used);
    } else {
      Unpack(mem, b.End() - 4, 0, true);
    }
  }

  /** The tags determine the blocks: one memory is tiled in one way only. */
  lemma TagsDetermineBlocks(mem: seq<byte>, bs: seq<Block>, cs: seq<Block>, start: nat, brk: nat)
    requires Tiled(mem, bs, start, brk) && Tiled(mem, cs, start, brk)
    ensures bs == cs
  {
    SameBlocks(mem, bs, cs, start, brk, |bs|);
    SameBlocks(mem, cs, bs, start, brk, |cs|);
    assert bs[..|bs|] == bs && cs[..|cs|] == cs;
  }

  lemma {:induction false} SameBlocks(mem: seq<byte>, bs: seq<Block>, cs: seq<Block>, start: nat, brk: nat, k: nat)
    requires Tiled(mem, bs, start, brk) && Tiled(mem, cs, start, brk) && k <= |bs|
    ensures k <= |cs| && bs[..k] == cs[..k] && Edge(bs, k, brk) == Edge(cs, k, brk)
  {
    hide Tiled, SizeAt, UsedAt;
    StartsAt(mem, bs, start, brk);
    StartsAt(mem, cs, start, brk);
    if k > 0 {
      SameBlocks(mem, bs, cs, start, brk, k - 1);
      ReadBlock(mem, bs, start, brk, k - 1);
      if k - 1 < |cs| {
        ReadBlock(mem, cs, start, brk, k - 1);
        assert bs[..k] == bs[..k - 1] + [bs[k - 1]] && cs[..k] == cs[..k - 1] + [cs[k - 1]];
      }
    }
  }

  lemma StartsAt(mem: seq<byte>, bs: seq<Block>, start: nat, brk: nat)
    requires Tiled(mem, bs, start, brk)
    ensures bs != [] && bs[0].bp == start
  {
  }

  /** Writing a block's header and footer, in either order. */
  lemma WriteTags(m: seq<byte>, b: Block)
    requires 4 <= b.bp && 8 <= b.size && b.size % 8 == 0 && b.End() - 4 <= |m| && Pack(b.size, b.used) < WORDS
    ensures var w := Pack(b.size, b.used);
      && SizeAt(Put(m, b.bp - 4, w), b.bp - 4) == b.size
      && Tagged(Put(Put(m, b.bp - 4, w), b.End() - 8, w), b)
      && SameOutside(m, Put(Put(m, b.bp - 4, w), b.End() - 8, w), b.bp - 4, b.End() - 4)
      && Tagged(Put(Put(m, b.End() - 8, w), b.bp - 4, w), b)
      && SameOutside(m, Put(Put(m, b.End() - 8, w), b.bp - 4, w), b.bp - 4, b.End() - 4)
      && SameOutside(m, Put(m, b.End() - 8, w), b.End() - 8, b.End() - 4)
      && SameOutside(m, Put(m, b.bp - 4, w), b.bp - 4, b.bp)
  {
    var w := Pack(b.size, b.used);
    hide Get, Put, Pack;
    WriteBoth(m, b.bp - 4, b.End() - 8, w);
    WriteBoth(m, b.End() - 8, b.bp - 4, w);
    UnpackPut(m, b.bp - 4, b.size, b.used);
  }

  lemma UnpackPut(m: seq<byte>, p: nat, size: nat, used: bool)
    requires p + 4 <= |m| && size % 8 == 0 && Pack(size, used) < WORDS
    ensures SizeAt(Put(m, p, Pack(size, used)), p) == size
    ensures SameOutside(m, Put(m, p, Pack(size, used)), p, p + 4)
  {
    GetPut(m, p, Pack(size, used));
    Unpack(Put(m, p, Pack(size, used)), p, size, used);
  }

  lemma WriteBoth(m: seq<byte>, p: nat, q: nat, w: nat)
    requires p + 4 <= |m| && q + 4 <= |m| && w < WORDS && (p + 4 <= q || q + 4 <= p)
    ensures var n := Put(Put(m, p, w), q, w);
      && Get(n, p) == w && Get(n, q) == w
      && SameOutside(m, n, if p < q then p else q, if p < q then q + 4 else p + 4)
    ensures SameOutside(m, Put(m, p, w), p, p + 4)
  {
    hide Get, Put;
    GetPut(m, p, w);
    GetPut(Put(m, p, w), q, w);
    GetSame(Put(m, p, w), Put(Put(m, p, w), q, w), q, q + 4, p);
  }
}
