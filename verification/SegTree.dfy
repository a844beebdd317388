/** The segment tree that tracks free physical frames: leaves are 32-frame bitmaps, and each internal
    node holds the least free frame below it. */
module SegTree {
  import opened Bits

  const NAN: nat := 0xFFFF_FFFF
  const WORD: nat := 0x1_0000_0000

  // ----- get_next_pow2

  /** The smearing shifts of `get_next_pow2`. */
  function Smear(x: nat, k: nat): nat {
    Or(x, ShiftDown(x, k))
  }

  function SmearAll(x: nat): nat {
    Smear(Smear(Smear(Smear(Smear(x, 1), 2), 4), 8), 16)
  }

  /** `get_next_pow2`, on 32-bit words. */
  function NextPow2(v: nat): nat
    requires v < WORD
  {
    (SmearAll((v + WORD - 1) % WORD) + 1) % WORD
  }

  /** The `k` bits from position `h` down are set, and none above. */
  ghost predicate TopRun(x: nat, h: nat, k: nat) {
    forall i: nat :: (i > h ==> !Bit(x, i)) && (i <= h < i + k ==> Bit(x, i))
  }

  lemma SmearDoubles(x: nat, h: nat, k: nat)
    requires TopRun(x, h, k)
    ensures TopRun(Smear(x, k), h, 2 * k)
  {
    forall i: nat ensures (i > h ==> !Bit(Smear(x, k), i)) && (i <= h < i + 2 * k ==> Bit(Smear(x, k), i)) {
      OrBit(x, ShiftDown(x, k), i);
      ShiftDownBit(x, k, i);
      assert (i + k > h ==> !Bit(x, i + k)) && (i + k <= h < i + k + k ==> Bit(x, i + k));
    }
  }

  lemma FullRun(x: nat, h: nat, k: nat)
    requires TopRun(x, h, k) && k > h
    ensures x == Pow2(h + 1) - 1
  {
    forall i: nat ensures Bit(x, i) <==> Bit(Pow2(h + 1) - 1, i) {
      OnesBit(h + 1, i);
    }
    SameBits(x, Pow2(h + 1) - 1);
  }

  /** Smearing fills every bit below the highest one. */
  lemma SmearFills(x: nat) returns (h: nat)
    requires 0 < x < WORD
    ensures h < 32 && Pow2(h) <= x < Pow2(h + 1) && SmearAll(x) == Pow2(h + 1) - 1
  {
    h := TopBit(x);
    TopBitBounds(x);
    forall i: nat ensures (i > h ==> !Bit(x, i)) && (i <= h < i + 1 ==> Bit(x, i)) {
      if Bit(x, i) {
        BitBound(x, h + 1, i);
      }
    }
    SmearDoubles(x, h, 1);
    var x1 := Smear(x, 1);
    SmearDoubles(x1, h, 2);
    var x2 := Smear(x1, 2);
    SmearDoubles(x2, h, 4);
    var x3 := Smear(x2, 4);
    SmearDoubles(x3, h, 8);
    var x4 := Smear(x3, 8);
    SmearDoubles(x4, h, 16);
    WordHeight(x, h);
    FullRun(Smear(x4, 16), h, 32);
  }

  /** For every word up to 2^31 the result is the least power of two not below the argument; for 0 and for
      larger words it wraps to 0. */
  lemma NextPow2IsLeast(v: nat) returns (k: nat)
    requires v < WORD
    ensures NextPow2(v) == 0 <==> v == 0 || v > 0x8000_0000
    ensures 0 < v <= 0x8000_0000 ==>
              NextPow2(v) == Pow2(k) && v <= Pow2(k) && (k > 0 ==> Pow2(k - 1) < v) && k <= 31
  {
    hide SmearAll, Pow2;
    Pow2Of31();
    PowZero();
    WordBefore(v);
    if v == 1 {
      k := 0;
      ZeroSmears();
    } else {
      var x := (v + WORD - 1) % WORD;
      var h := SmearFills(x);
      k := h + 1;
      if h < 31 {
        Pow2Monotone(k, 31);
      } else {
        Pow2Monotone(31, h);
      }
    }
  }

  lemma SmallPowers()
    ensures Pow2(0) == 1 && Pow2(1) == 2 && Pow2(4) == 16
  {
  }

  lemma PowZero()
    ensures Pow2(0) == 1
  {
  }

  lemma WordBefore(v: nat)
    requires v < WORD
    ensures (v + WORD - 1) % WORD == if v == 0 then WORD - 1 else v - 1
  {
  }

  lemma ZeroSmears()
    ensures SmearAll(0) == 0
  {
    ShiftDownIsQuotient(0, 1);
    ShiftDownIsQuotient(0, 2);
    ShiftDownIsQuotient(0, 4);
    ShiftDownIsQuotient(0, 8);
    ShiftDownIsQuotient(0, 16);
  }

  lemma WordHeight(x: nat, h: nat)
    requires Pow2(h) <= x < WORD
    ensures h < 32
  {
    if h >= 32 {
      Pow2Monotone(32, h);
      Pow2Of31();
    }
  }

  lemma Pow2Of31()
    ensures Pow2(31) == 0x8000_0000 && Pow2(32) == WORD && Pow2(5) == 32
  {
    assert Pow2(5) == 32;
    Pow2Add(5, 5);
    Pow2Add(10, 10);
    Pow2Add(20, 11);
    Pow2Add(10, 1);
  }

  /** The number of leaves `init_seg_tree` chooses for `num` frames. */
  function SizeFor(num: nat): nat
    requires num < WORD
  {
    ShiftDown(NextPow2(num), 5)
  }

  /** More than 32 frames give a tree with a proper root: a power-of-two number of at least two leaves,
      enough for every frame. With 32 frames or fewer there is no internal node at all. */
  lemma SizeIsPow2(num: nat) returns (d: nat)
    requires num <= 0x8000_0000
    ensures num > 32 <==> SizeFor(num) >= 2
    ensures num > 32 ==> SizeFor(num) == Pow2(d) && d >= 1 && num <= 32 * SizeFor(num) <= 0x8000_0000
    ensures 16 < num <= 32 ==> SizeFor(num) == 1
    ensures num <= 16 ==> SizeFor(num) == 0
  {
    hide NextPow2, ShiftDown, Pow2;
    var k := NextPow2IsLeast(num);
    ShiftDownIsQuotient(NextPow2(num), 5);
    Pow2Of31();
    SmallPowers();
    if num == 0 {
      return 0;
    }
    Pow2Monotone(k, 31);
    d := if k >= 5 then k - 5 else 0;
    if k >= 5 {
      Pow2Add(d, 5);
      assert Pow2(k) == Pow2(d) * 32;
      if k >= 6 {
        Pow2Monotone(1, d);
        Pow2Monotone(5, k - 1);
      }
    } else {
      Pow2Monotone(k, 4);
    }
  }

  // ----- the tree as a sequence of words

  /** Frame `f` is marked free in the bitmap leaves. */
  predicate IsFree(t: seq<nat>, size: nat, f: nat) {
    size + f / 32 < |t| && Bit(t[size + f / 32], f % 32)
  }

  /** The value a parent reads from node `i`. */
  function NodeVal(t: seq<nat>, size: nat, i: nat): nat
    requires i < |t|
  {
    if i < size then t[i]
    else if t[i] == 0 then NAN
    else 32 * (i - size) + Bsf(t[i])
  }

  /** Node `i` agrees with its children, the left one first. */
  predicate Agrees(t: seq<nat>, size: nat, i: nat)
    requires |t| == 2 * size
  {
    0 < i < size ==>
      var left := NodeVal(t, size, 2 * i);
      t[i] == if left != NAN then left else NodeVal(t, size, 2 * i + 1)
  }

  predicate IsAncestor(i: nat, j: nat) {
    i <= j && (i == j || IsAncestor(i, j / 2))
  }

  /** `v` is the least free frame in `[lo, hi)`, or NAN when there is none. */
  ghost predicate IsLeastFree(t: seq<nat>, size: nat, lo: nat, hi: nat, v: nat) {
    if v == NAN then forall f: nat :: lo <= f < hi ==> !IsFree(t, size, f)
    else lo <= v < hi && IsFree(t, size, v) && forall f: nat :: lo <= f < v ==> !IsFree(t, size, f)
  }

  lemma LeafHoldsLeast(t: seq<nat>, size: nat, i: nat)
    requires |t| == 2 * size && size <= i < 2 * size && t[i] < WORD && 32 * size <= NAN
    ensures IsLeastFree(t, size, 32 * (i - size), 32 * (i - size) + 32, NodeVal(t, size, i))
  {
    var lo := 32 * (i - size);
    Pow2Of31();
    if t[i] == 0 {
      forall f: nat | lo <= f < lo + 32 ensures !IsFree(t, size, f) {
        ZeroHasNoBits(f % 32);
      }
    } else {
      BsfIsLowest(t[i], 0);
      BitBound(t[i], 32, Bsf(t[i]));
      forall f: nat | lo <= f < lo + Bsf(t[i]) ensures !IsFree(t, size, f) {
        BsfIsLowest(t[i], f % 32);
      }
    }
  }

  /** When every node agrees with its children, a node at height `h` holds the least free frame of
      all the leaves below it. */
  lemma {:induction false} NodeHoldsLeast(t: seq<nat>, size: nat, i: nat, h: nat)
    requires |t| == 2 * size && 32 * size <= NAN
    requires forall j :: 0 <= j < |t| ==> t[j] < WORD && Agrees(t, size, j)
    requires size <= i * Pow2(h) && (i + 1) * Pow2(h) <= 2 * size
    ensures i < |t|
    ensures IsLeastFree(t, size, 32 * (i * Pow2(h) - size), 32 * ((i + 1) * Pow2(h) - size), NodeVal(t, size, i))
    decreases h
  {
    hide IsLeastFree, IsFree;
    SubtreeInRange(size, i, h);
    if h == 0 {
      LeafHoldsLeast(t, size, i);
    } else {
      Halves(i, h);
      NodeHoldsLeast(t, size, 2 * i, h - 1);
      NodeHoldsLeast(t, size, 2 * i + 1, h - 1);
      assert Agrees(t, size, i);
      LeastOfHalves(t, size, 32 * (i * Pow2(h) - size), 32 * ((2 * i + 1) * Pow2(h - 1) - size),
                    32 * ((i + 1) * Pow2(h) - size),
                    NodeVal(t, size, 2 * i), NodeVal(t, size, 2 * i + 1));
    }
  }

  lemma LeastOfHalves(t: seq<nat>, size: nat, lo: nat, mid: nat, hi: nat, left: nat, right: nat)
    requires lo <= mid <= hi && IsLeastFree(t, size, lo, mid, left) && IsLeastFree(t, size, mid, hi, right)
    ensures IsLeastFree(t, size, lo, hi, if left != NAN then left else right)
  {
  }

  lemma Halves(i: nat, h: nat)
    requires h > 0
    ensures (2 * i) * Pow2(h - 1) == i * Pow2(h)
    ensures (2 * i + 1) * Pow2(h - 1) == i * Pow2(h) + Pow2(h - 1)
    ensures (2 * i + 2) * Pow2(h - 1) == (i + 1) * Pow2(h)
  {
    var p := Pow2(h - 1);
    assert (2 * i) * p == i * (2 * p);
    assert (2 * i + 1) * p == (2 * i) * p + p;
    assert (2 * i + 2) * p == (i + 1) * (2 * p);
  }

  lemma SubtreeInRange(size: nat, i: nat, h: nat)
    requires size <= i * Pow2(h) && (i + 1) * Pow2(h) <= 2 * size
    ensures if h == 0 then size <= i < 2 * size else 0 < i < size
  {
    if h == 0 {
      assert i * 1 == i && (i + 1) * 1 == i + 1;
    } else {
      assert Pow2(h) >= 2;
      MulMonotone(2, Pow2(h), i + 1);
      assert i == 0 ==> i * Pow2(h) == 0;
      assert size > 0 by { MulMonotone(1, i + 1, Pow2(h)); }
    }
  }

  /** What the operations rely on and keep. */
  ghost predicate Sound(t: seq<nat>, size: nat, depth: nat) {
    && size == Pow2(depth) && depth >= 1 && 32 * size <= 0x8000_0000 && |t| == 2 * size
    && (forall j :: 0 <= j < |t| ==> t[j] < WORD)
    && (forall j :: 0 <= j < |t| ==> Agrees(t, size, j))
  }

  /** The root of a sound tree is the least free frame of the whole range. */
  lemma RootHoldsLeast(t: seq<nat>, size: nat, depth: nat)
    requires Sound(t, size, depth)
    ensures IsLeastFree(t, size, 0, 32 * size, t[1])
  {
    assert 1 * Pow2(depth) == size && (1 + 1) * Pow2(depth) == 2 * size;
    NodeHoldsLeast(t, size, 1, depth);
    Pow2Monotone(1, depth);
  }

  // ----- one node rewritten

  /** Rewriting node `i` can only disturb the node itself and its parent. */
  lemma WriteDisturbsParent(t: seq<nat>, size: nat, i: nat, w: nat, j: nat)
    requires |t| == 2 * size && i < |t| && j < |t| && j != i && j != i / 2
    requires Agrees(t, size, j)
    ensures Agrees(t[i := w], size, j)
  {
  }

  lemma {:induction false} AncestorOfHalf(j: nat, i: nat)
    requires i > 0
    ensures IsAncestor(j, i) <==> j == i || IsAncestor(j, i / 2)
  {
    AncestorBelow(j, i / 2);
  }

  lemma {:induction false} AncestorBelow(j: nat, i: nat)
    ensures IsAncestor(j, i) ==> j <= i
  {
  }

  /** The loop of `update_tree` at node `i`: everything but the path from `i` to the root agrees. */
  ghost predicate OffPathAgrees(t: seq<nat>, size: nat, i: nat)
    requires |t| == 2 * size
  {
    forall j :: 0 < j < size && !IsAncestor(j, i) ==> Agrees(t, size, j)
  }

  lemma PathStep(t: seq<nat>, size: nat, i: nat, w: nat)
    requires |t| == 2 * size && 0 < i < size && OffPathAgrees(t, size, i)
    requires var left := NodeVal(t, size, 2 * i);
             w == if left != NAN then left else NodeVal(t, size, 2 * i + 1)
    ensures OffPathAgrees(t[i := w], size, i / 2)
  {
    forall j | 0 < j < size && !IsAncestor(j, i / 2) ensures Agrees(t[i := w], size, j) {
      AncestorOfHalf(j, i);
      if j != i {
        assert IsAncestor(i / 2, i / 2);
        WriteDisturbsParent(t, size, i, w, j);
      }
    }
  }

  lemma LeafWritten(t: seq<nat>, size: nat, i: nat, w: nat)
    requires |t| == 2 * size && size <= i < 2 * size
    requires forall j :: 0 <= j < |t| ==> Agrees(t, size, j)
    ensures OffPathAgrees(t[i := w], size, i / 2)
  {
    forall j | 0 < j < size && !IsAncestor(j, i / 2) ensures Agrees(t[i := w], size, j) {
      assert IsAncestor(i / 2, i / 2);
      WriteDisturbsParent(t, size, i, w, j);
    }
  }

  lemma ValuesAreWords(t: seq<nat>, size: nat, i: nat)
    requires |t| == 2 * size && i < |t| && t[i] < WORD && 32 * size <= 0x8000_0000
    ensures NodeVal(t, size, i) < WORD
  {
    Pow2Of31();
    if i >= size && t[i] > 0 {
      BsfIsLowest(t[i], 0);
      BitBound(t[i], 32, Bsf(t[i]));
    }
  }

  // ----- frames marked and unmarked

  /** Setting or clearing the bit of frame `f` in its leaf changes that frame and no other. */
  lemma FrameBit(t: seq<nat>, size: nat, f: nat, w: nat, g: nat)
    requires |t| == 2 * size && f < 32 * size
    requires w == Or(t[size + f / 32], Pow2(f % 32)) || w == AndNot(t[size + f / 32], Pow2(f % 32))
    ensures IsFree(t[size + f / 32 := w], size, g)
            <==> if g == f then w == Or(t[size + f / 32], Pow2(f % 32)) && Bit(w, f % 32) else IsFree(t, size, g)
  {
    var x := t[size + f / 32];
    OrBit(x, Pow2(f % 32), g % 32);
    AndNotBit(x, Pow2(f % 32), g % 32);
    Pow2Bit(f % 32, g % 32);
    if g / 32 == f / 32 && g != f {
      assert g % 32 != f % 32;
    }
  }

  // ----- initialisation

  /** The value `init_recursive` gives the node whose first leaf is leaf number `lo`. */
  function FirstFrame(lo: nat, num: nat): nat {
    if 32 * lo < num then 32 * lo else NAN
  }

  /** Leaf `j` marks exactly the frames below `num` as free. */
  ghost predicate LeafFresh(t: seq<nat>, size: nat, num: nat, j: nat)
    requires size <= j < |t|
  {
    && t[j] < WORD
    && forall b: nat :: b < 32 ==> (Bit(t[j], b) <==> 32 * (j - size) + b < num)
  }

  /** The subtree of node `i` has been initialised. */
  ghost predicate SubtreeFresh(t: seq<nat>, size: nat, num: nat, i: nat)
    requires |t| == 2 * size
  {
    forall j :: 0 < j < 2 * size && IsAncestor(i, j) ==>
      t[j] < WORD && (if j < size then Agrees(t, size, j) else LeafFresh(t, size, num, j))
  }

  /** The word of a fresh leaf, and the value read from it. */
  lemma FreshLeaf(t: seq<nat>, size: nat, num: nat, j: nat, ones: nat)
    requires |t| == 2 * size && size <= j < 2 * size && 32 * size <= 0x8000_0000
    requires t[j] == Pow2(ones) - 1
    requires ones == if 32 * (j - size) + 32 <= num then 32
                     else if 32 * (j - size) < num then num - 32 * (j - size) else 0
    ensures LeafFresh(t, size, num, j) && NodeVal(t, size, j) == FirstFrame(j - size, num)
  {
    hide Pow2, Bit, Bsf;
    Pow2Of31();
    Pow2Monotone(ones, 32);
    OnesBsf(ones);
    forall b: nat | b < 32 ensures Bit(t[j], b) <==> 32 * (j - size) + b < num {
      OnesBit(ones, b);
    }
  }

  lemma OnesBsf(k: nat)
    ensures k == 0 ==> Pow2(k) == 1
    ensures k > 0 ==> Pow2(k) > 1 && Bsf(Pow2(k) - 1) == 0
  {
    if k > 0 {
      var p := Pow2(k - 1);
      assert Pow2(k) == 2 * p;
      OddBsf(2 * p - 1, p);
    }
  }

  lemma OddBsf(x: nat, p: nat)
    requires x == 2 * p - 1
    ensures x % 2 == 1 && Bsf(x) == 0
  {
    assert x == 2 * (p - 1) + 1;
  }

  lemma {:induction false} SubtreeSplits(i: nat, j: nat)
    requires 0 < i < j
    ensures IsAncestor(i, j) <==> IsAncestor(2 * i, j) || IsAncestor(2 * i + 1, j)
    decreases j
  {
    if j / 2 > i {
      SubtreeSplits(i, j / 2);
    } else {
      AncestorBelow(2 * i, j / 2);
      AncestorBelow(2 * i + 1, j / 2);
      AncestorBelow(i, j / 2);
    }
  }

  lemma {:induction false} SubtreesDisjoint(i: nat, j: nat)
    requires i > 0
    ensures !(IsAncestor(2 * i, j) && IsAncestor(2 * i + 1, j))
    ensures IsAncestor(2 * i, j) ==> j != i
    ensures IsAncestor(2 * i + 1, j) ==> j != i
    decreases j
  {
    AncestorBelow(2 * i, j);
    AncestorBelow(2 * i + 1, j);
    if j > 2 * i + 1 {
      SubtreesDisjoint(i, j / 2);
    }
  }

  /** Both halves of a node are done and the node holds the value of the left half. */
  lemma SubtreeJoins(t: seq<nat>, size: nat, num: nat, i: nat, lo: nat, p: nat)
    requires |t| == 2 * size && 0 < i < size && 32 * size <= 0x8000_0000
    requires SubtreeFresh(t, size, num, 2 * i) && SubtreeFresh(t, size, num, 2 * i + 1)
    requires NodeVal(t, size, 2 * i) == FirstFrame(lo, num) == t[i]
    requires NodeVal(t, size, 2 * i + 1) == FirstFrame(lo + p, num)
    requires 32 * lo <= 0x8000_0000
    ensures SubtreeFresh(t, size, num, i)
  {
    forall j | 0 < j < 2 * size && IsAncestor(i, j)
      ensures t[j] < WORD && (if j < size then Agrees(t, size, j) else LeafFresh(t, size, num, j))
    {
      AncestorBelow(i, j);
      if j > i {
        SubtreeSplits(i, j);
      }
    }
  }

  /** A subtree is untouched by writes outside it. */
  lemma SubtreeFrame(t: seq<nat>, t': seq<nat>, size: nat, num: nat, i: nat)
    requires |t| == |t'| == 2 * size && i > 0 && SubtreeFresh(t, size, num, i)
    requires forall j :: 0 < j < 2 * size && IsAncestor(i, j) ==> t'[j] == t[j]
    ensures SubtreeFresh(t', size, num, i)
  {
    hide IsAncestor;
    forall j | 0 < j < 2 * size && IsAncestor(i, j)
      ensures t'[j] < WORD && (if j < size then Agrees(t', size, j) else LeafFresh(t', size, num, j))
    {
      if j < size {
        AncestorOfHalf(i, 2 * j);
        AncestorOfHalf(i, 2 * j + 1);
      }
    }
  }

  method InitLeaf(tree: array<nat>, size: nat, num: nat, index: nat) returns (r: nat)
    requires tree.Length == 2 * size && size <= index < 2 * size && 32 * size <= 0x8000_0000
    modifies tree
    ensures tree[..] == old(tree[..])[index := tree[index]]
    ensures LeafFresh(tree[..], size, num, index)
    ensures r == FirstFrame(index - size, num) == NodeVal(tree[..], size, index)
  {
    hide Or, Bit, Bsf;
    Pow2Of31();
    ghost var ones := 32;
    if 32 * (index - size + 1) <= num {
      tree[index] := 0xFFFF_FFFF;
    } else {
      tree[index] := 0;
      var mask: nat := 1;
      var i: nat := 0;
      while 32 * (index - size) + i < num
        invariant i <= 31 + 1 && (i > 0 ==> 32 * (index - size) + i <= num)
        invariant mask == Pow2(i) && tree[index] == Pow2(i) - 1
        invariant tree[..] == old(tree[..])[index := tree[index]]
        decreases num - (32 * (index - size) + i)
      {
        OnesGrow(i);
        ghost var before := tree[..];
        tree[index] := Or(tree[index], mask);
        assert tree[..] == before[index := tree[index]];
        i := i + 1;
        mask := 2 * mask;
      }
      ones := i;
    }
    FreshLeaf(tree[..], size, num, index, ones);
    r := if tree[index] == 0 then NAN else 32 * (index - size);
  }

  /** `init_recursive` on the node at height `h` whose leaves start at leaf number `lo`. */
  method InitRecursive(tree: array<nat>, size: nat, num: nat, index: nat, ghost h: nat, ghost lo: nat) returns (r: nat)
    requires tree.Length == 2 * size && 32 * size <= 0x8000_0000
    requires index * Pow2(h) == size + lo && (index + 1) * Pow2(h) <= 2 * size
    modifies tree
    ensures forall j :: 0 <= j < tree.Length && !IsAncestor(index, j) ==> tree[j] == old(tree[j])
    ensures index < tree.Length && SubtreeFresh(tree[..], size, num, index)
    ensures r == FirstFrame(lo, num) == NodeVal(tree[..], size, index)
    decreases h
  {
    SubtreeInRange(size, index, h);
    if index >= size {
      assert index * 1 == index;
      r := InitLeaf(tree, size, num, index);
      forall j | 0 < j < 2 * size && IsAncestor(index, j) ensures j == index {
        LeafHasNoBelow(size, index, j);
      }
    } else {
      Halves(index, h);
      var left := InitRecursive(tree, size, num, 2 * index, h - 1, lo);
      ghost var t1 := tree[..];
      tree[index] := left;
      ghost var t2 := tree[..];
      var right := InitRecursive(tree, size, num, 2 * index + 1, h - 1, lo + Pow2(h - 1));
      InitJoin(t1, t2, tree[..], size, num, index, left, lo, Pow2(h - 1));
      forall j | 0 <= j < tree.Length && !IsAncestor(index, j) ensures tree[j] == old(tree[j]) {
        Outside(index, j);
      }
      r := tree[index];
    }
  }

  lemma {:induction false} LeafHasNoBelow(size: nat, i: nat, j: nat)
    requires size <= i && j < 2 * size && IsAncestor(i, j) && size > 0
    ensures j == i
  {
    AncestorBelow(i, j / 2);
  }

  lemma Outside(i: nat, j: nat)
    requires i > 0 && !IsAncestor(i, j)
    ensures !IsAncestor(2 * i, j) && !IsAncestor(2 * i + 1, j) && j != i
  {
    AncestorBelow(2 * i, j);
    AncestorBelow(2 * i + 1, j);
    if j > i {
      SubtreeSplits(i, j);
    }
  }

  lemma InitJoin(t1: seq<nat>, t2: seq<nat>, t: seq<nat>, size: nat, num: nat, i: nat, left: nat, lo: nat, p: nat)
    requires |t1| == |t2| == |t| == 2 * size && 0 < i < size && 32 * size <= 0x8000_0000 && 32 * lo <= 0x8000_0000
    requires SubtreeFresh(t1, size, num, 2 * i) && left == FirstFrame(lo, num) == NodeVal(t1, size, 2 * i)
    requires t2 == t1[i := left]
    requires forall j :: 0 <= j < 2 * size && !IsAncestor(2 * i + 1, j) ==> t[j] == t2[j]
    requires SubtreeFresh(t, size, num, 2 * i + 1) && NodeVal(t, size, 2 * i + 1) == FirstFrame(lo + p, num)
    ensures SubtreeFresh(t, size, num, i) && t[i] == FirstFrame(lo, num)
  {
    forall j | 0 < j < 2 * size && IsAncestor(2 * i, j) ensures t[j] == t1[j] {
      SubtreesDisjoint(i, j);
    }
    SubtreeFrame(t1, t, size, num, 2 * i);
    AncestorBelow(2 * i + 1, i);
    AncestorBelow(2 * i + 1, 2 * i);
    SubtreeJoins(t, size, num, i, lo, p);
  }

  // ----- the tree of one core

  class FrameTree {
    const tree: array<nat>
    const size: nat
    ghost const depth: nat

    ghost predicate Valid()
      reads this, tree
    {
      tree.Length == 2 * size && Sound(tree[..], size, depth)
    }

    /** The frames marked free. */
    ghost function Free(): set<nat>
      reads this, tree
    {
      set f: nat | f < 32 * size && IsFree(tree[..], size, f)
    }

    /** `init_seg_tree` for more than 32 frames: all of them are free. */
    constructor (num: nat)
      requires 32 < num <= 0x8000_0000
      ensures Valid() && fresh(tree) && size == SizeFor(num)
      ensures forall f: nat :: f in Free() <==> f < num
    {
      var n := ShiftDown(NextPow2(num), 5);
      ghost var d := SizeIsPow2(num);
      size := n;
      depth := d;
      tree := new nat[2 * n](_ => 0);
      new;
      assert 1 * Pow2(d) == size + 0 && (1 + 1) * Pow2(d) == 2 * size;
      var r := InitRecursive(tree, size, num, 1, d, 0);
      RootCovers(size);
      assert forall j :: 0 < j < 2 * size ==> IsAncestor(1, j);
      assert !IsAncestor(1, 0);
      FreshFrames(tree[..], size, num);
    }

    /** `update_tree`: recompute the path from an internal node to the root. */
    method UpdateTree(start: nat)
      requires tree.Length == 2 * size && start < size && size >= 1 && 32 * size <= 0x8000_0000
      requires forall j :: 0 <= j < tree.Length ==> tree[j] < WORD
      requires OffPathAgrees(tree[..], size, start)
      modifies tree
      ensures forall j :: size <= j < 2 * size ==> tree[j] == old(tree[j])
      ensures forall j :: 0 <= j < tree.Length ==> tree[j] < WORD && Agrees(tree[..], size, j)
    {
      var index: nat := start;
      while index != 0
        invariant index < size
        invariant forall j :: size <= j < 2 * size ==> tree[j] == old(tree[j])
        invariant forall j :: 0 <= j < tree.Length ==> tree[j] < WORD
        invariant OffPathAgrees(tree[..], size, index)
        decreases index
      {
        ghost var t: seq<nat> := tree[..];
        var left := NodeVal(tree[..], size, 2 * index);
        var right := NodeVal(tree[..], size, 2 * index + 1);
        ValuesAreWords(t, size, 2 * index);
        ValuesAreWords(t, size, 2 * index + 1);
        PathStep(t, size, index, if left != NAN then left else right);
        tree[index] := if left != NAN then left else right;
        assert tree[..] == t[index := tree[index]];
        index := index / 2;
      }
      assert forall j :: 0 < j < size ==> !IsAncestor(j, 0);
    }

    /** `get_next`: take the least free frame, or report that there is none. */
    method GetNext() returns (rv: nat)
      requires Valid()
      modifies tree
      ensures Valid()
      ensures old(Free()) == {} <==> rv == NAN
      ensures rv == NAN ==> Free() == old(Free())
      ensures rv != NAN ==>
        rv in old(Free()) && (forall f :: f in old(Free()) ==> rv <= f) && Free() == old(Free()) - {rv}
    {
      hide Bit, Or, AndNot, Pow2, Bsf, IsAncestor;
      ghost var t: seq<nat> := tree[..];
      RootHoldsLeast(t, size, depth);
      HasInnerRoot(depth);
      rv := tree[1];
      if rv == NAN {
        assert forall f: nat :: f < 32 * size ==> !IsFree(t, size, f);
        return;
      }
      assert rv in Free();
      var index, pos := rv / 32 + size, rv % 32;
      ghost var w := AndNot(tree[index], Pow2(pos));
      AndNotBound(tree[index], Pow2(pos));
      tree[index] := AndNot(tree[index], Pow2(pos));
      assert tree[..] == t[index := w];
      LeafWritten(t, size, index, w);
      UpdateTree(index / 2);
      FramesCleared(t, tree[..], size, rv);
    }

    /** `put_back`: mark a frame free. */
    method PutBack(f: nat)
      requires Valid() && f < 32 * size
      modifies tree
      ensures Valid() && Free() == old(Free()) + {f}
    {
      hide Bit, Or, AndNot, Pow2, Bsf, IsAncestor;
      ghost var t: seq<nat> := tree[..];
      var index, pos := f / 32 + size, f % 32;
      ghost var w := Or(tree[index], Pow2(pos));
      Pow2Of31();
      Pow2Below(pos);
      OrBound(tree[index], Pow2(pos), 32);
      tree[index] := Or(tree[index], Pow2(pos));
      assert tree[..] == t[index := w];
      LeafWritten(t, size, index, w);
      UpdateTree(index / 2);
      FramesSet(t, tree[..], size, f);
    }
  }

  /** Clearing or setting the bit of `f`, once the path above its leaf has been rewritten. */
  lemma FramesCleared(t: seq<nat>, t': seq<nat>, size: nat, f: nat)
    requires |t| == |t'| == 2 * size && f < 32 * size
    requires forall j :: size <= j < 2 * size ==>
               t'[j] == if j == size + f / 32 then AndNot(t[j], Pow2(f % 32)) else t[j]
    ensures forall g: nat :: g < 32 * size ==> (IsFree(t', size, g) <==> g != f && IsFree(t, size, g))
  {
    forall g: nat | g < 32 * size ensures IsFree(t', size, g) <==> g != f && IsFree(t, size, g) {
      FrameBit(t, size, f, AndNot(t[size + f / 32], Pow2(f % 32)), g);
      ClearedBit(t[size + f / 32], f % 32);
    }
  }

  lemma FramesSet(t: seq<nat>, t': seq<nat>, size: nat, f: nat)
    requires |t| == |t'| == 2 * size && f < 32 * size
    requires forall j :: size <= j < 2 * size ==>
               t'[j] == if j == size + f / 32 then Or(t[j], Pow2(f % 32)) else t[j]
    ensures forall g: nat :: g < 32 * size ==> (IsFree(t', size, g) <==> g == f || IsFree(t, size, g))
  {
    forall g: nat | g < 32 * size ensures IsFree(t', size, g) <==> g == f || IsFree(t, size, g) {
      FrameBit(t, size, f, Or(t[size + f / 32], Pow2(f % 32)), g);
      SetBitIs(t[size + f / 32], f % 32);
    }
  }

  lemma HasInnerRoot(depth: nat)
    requires depth >= 1
    ensures Pow2(depth) >= 2
  {
    Pow2Monotone(1, depth);
  }

  lemma Pow2Below(p: nat)
    requires p < 32
    ensures Pow2(p) < Pow2(32)
  {
    Pow2Monotone(p, 31);
  }

  lemma ClearedBit(x: nat, p: nat)
    ensures !Bit(AndNot(x, Pow2(p)), p)
  {
    AndNotBit(x, Pow2(p), p);
    Pow2Bit(p, p);
  }

  lemma SetBitIs(x: nat, p: nat)
    ensures Bit(Or(x, Pow2(p)), p)
  {
    OrBit(x, Pow2(p), p);
    Pow2Bit(p, p);
  }

  lemma {:induction false} EveryoneBelowRoot(j: nat)
    requires j > 0
    ensures IsAncestor(1, j)
  {
    if j > 1 {
      EveryoneBelowRoot(j / 2);
    }
  }

  lemma RootCovers(size: nat)
    ensures forall j :: 0 < j < 2 * size ==> IsAncestor(1, j)
  {
    forall j | 0 < j < 2 * size ensures IsAncestor(1, j) {
      EveryoneBelowRoot(j);
    }
  }

  lemma FreshFrames(t: seq<nat>, size: nat, num: nat)
    requires |t| == 2 * size && num <= 32 * size
    requires forall j :: size <= j < 2 * size ==> LeafFresh(t, size, num, j)
    ensures forall f: nat :: f < 32 * size ==> (IsFree(t, size, f) <==> f < num)
  {
    forall f: nat | f < 32 * size ensures IsFree(t, size, f) <==> f < num {
      assert LeafFresh(t, size, num, size + f / 32);
      assert 32 * (f / 32) + f % 32 == f;
    }
  }

  // ----- 32 frames or fewer

  /** A core with 17 to 32 frames gets a tree of one leaf, whose bitmap sits where `get_next` expects
      the least free frame; a core with fewer gets no tree at all. So a freshly initialised tree answers
      the first request right exactly when there are more than 32 frames. */
  lemma RootRightIffManyFrames(t: seq<nat>, num: nat)
    requires num <= 0x8000_0000 && |t| == 2 * SizeFor(num) && SubtreeFresh(t, SizeFor(num), num, 1)
    ensures |t| > 1 && t[1] == 0 <==> num > 32
  {
    var size := SizeFor(num);
    var d := SizeIsPow2(num);
    RootCovers(size);
    if num <= 16 {
      assert |t| == 0;
    } else if num <= 32 {
      assert LeafFresh(t, 1, num, 1);
      assert Bit(t[1], 0);
    } else {
      FreshFrames(t, size, num);
      SoundFromFresh(t, size, num, d);
      RootHoldsLeast(t[0 := 0], size, d);
      assert IsFree(t, size, 0);
      assert IsFree(t[0 := 0], size, 0);
    }
  }

  lemma SoundFromFresh(t: seq<nat>, size: nat, num: nat, d: nat)
    requires |t| == 2 * size && size == Pow2(d) && d >= 1 && 32 * size <= 0x8000_0000 && SubtreeFresh(t, size, num, 1)
    ensures Sound(t[0 := 0], size, d)
  {
    RootCovers(size);
    var t' := t[0 := 0];
    forall j | 0 <= j < |t'| ensures Agrees(t', size, j) {
      if 0 < j < size {
        assert IsAncestor(1, j) && Agrees(t, size, j);
      }
    }
  }
}
