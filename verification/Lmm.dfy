/** The List Memory Manager: regions of memory, each with a sorted list of free nodes. Regions end below
    2^32, so the code's all-ones address lies above every node; a region may start at address 0. */
module Lmm {
  import opened FreeList
  import opened AlignedSearch
  import opened Bits

  const NO_ADDR: nat := 0xFFFF_FFFF

  datatype Region = Region(min: nat, max: nat, flags: nat, pri: nat, free: nat, nodes: seq<Node>)

  predicate RegionOk(r: Region) {
    && r.min < r.max < NO_ADDR && r.min % 8 == 0 && r.max % 8 == 0
    && Canonical(r.nodes, r.min, r.max)
    && r.free == Sum(r.nodes)
  }

  predicate Apart(r: Region, s: Region) {
    r.max <= s.min || s.max <= r.min
  }

  /** `r` may stand before `s`: higher priority first, then larger first. */
  predicate Before(r: Region, s: Region) {
    r.pri > s.pri || (r.pri == s.pri && r.max - r.min >= s.max - s.min)
  }

  predicate Valid(rs: seq<Region>) {
    && (forall i :: 0 <= i < |rs| ==> RegionOk(rs[i]))
    && (forall i, j :: 0 <= i < j < |rs| ==> Apart(rs[i], rs[j]) && Before(rs[i], rs[j]))
  }

  /** Byte `x` is free. */
  predicate FreeAt(rs: seq<Region>, x: int) {
    exists i :: 0 <= i < |rs| && Covers(rs[i].nodes, x)
  }

  predicate InSomeRegion(rs: seq<Region>, x: int) {
    exists i :: 0 <= i < |rs| && rs[i].min <= x < rs[i].max
  }

  /** The regions themselves, leaving aside what is free in them. */
  predicate SameFrames(rs: seq<Region>, ss: seq<Region>) {
    && |rs| == |ss|
    && forall i :: 0 <= i < |rs| ==> ss[i] == rs[i].(free := ss[i].free, nodes := ss[i].nodes)
  }

  /** From `rs` to `ss` exactly the bytes `a..b`, all free before, stopped being free. */
  ghost predicate Takes(rs: seq<Region>, a: nat, b: nat, ss: seq<Region>) {
    && Valid(rs) && Valid(ss) && SameFrames(rs, ss) && a < b
    && (forall x :: a <= x < b ==> FreeAt(rs, x))
    && (forall x :: FreeAt(ss, x) <==> FreeAt(rs, x) && !(a <= x < b))
  }

  /** From `rs` to `ss` exactly the bytes `a..b`, none of them free before, became free. */
  ghost predicate Gives(rs: seq<Region>, a: nat, b: nat, ss: seq<Region>) {
    && Valid(rs) && Valid(ss) && SameFrames(rs, ss) && a < b
    && (forall x :: a <= x < b ==> !FreeAt(rs, x))
    && (forall x :: FreeAt(ss, x) <==> FreeAt(rs, x) || a <= x < b)
  }

  // ----- one region's list changes

  lemma RegionCovers(rs: seq<Region>, i: nat, x: int)
    requires Valid(rs) && i < |rs|
    ensures Covers(rs[i].nodes, x) ==> rs[i].min <= x < rs[i].max
  {
    if Covers(rs[i].nodes, x) {
      var k :| 0 <= k < |rs[i].nodes| && rs[i].nodes[k].addr <= x < rs[i].nodes[k].End();
      assert RegionOk(rs[i]);
      NodeFacts(rs[i].nodes, rs[i].min, rs[i].max, k);
    }
  }

  lemma Disjoint(rs: seq<Region>, i: nat, j: nat, x: int)
    requires Valid(rs) && i < |rs| && j < |rs|
    requires rs[i].min <= x < rs[i].max && rs[j].min <= x < rs[j].max
    ensures i == j
  {
    var a, b := rs[i], rs[j];
    assert i < j ==> Apart(a, b);
    assert j < i ==> Apart(b, a);
  }

  /** Inside a region only its own list speaks. */
  lemma FreeInRegion(rs: seq<Region>, i: nat, x: int)
    requires Valid(rs) && i < |rs| && rs[i].min <= x < rs[i].max
    ensures FreeAt(rs, x) <==> Covers(rs[i].nodes, x)
  {
    if FreeAt(rs, x) {
      var k :| 0 <= k < |rs| && Covers(rs[k].nodes, x);
      RegionCovers(rs, k, x);
      assert k == i by { Disjoint(rs, k, i, x); }
    }
  }

  function Replaced(rs: seq<Region>, i: nat, ns: seq<Node>): seq<Region>
    requires i < |rs|
  {
    rs[i := rs[i].(free := Sum(ns), nodes := ns)]
  }

  lemma ReplacedValid(rs: seq<Region>, i: nat, ns: seq<Node>)
    requires Valid(rs) && i < |rs| && Canonical(ns, rs[i].min, rs[i].max)
    ensures Valid(Replaced(rs, i, ns)) && SameFrames(rs, Replaced(rs, i, ns))
  {
    var ss := Replaced(rs, i, ns);
    hide Canonical, Sum;
    forall k | 0 <= k < |ss|
      ensures RegionOk(ss[k])
    {
      assert RegionOk(rs[k]);
    }
    forall k, j | 0 <= k < j < |ss|
      ensures Apart(ss[k], ss[j]) && Before(ss[k], ss[j])
    {
      assert Apart(rs[k], rs[j]) && Before(rs[k], rs[j]);
    }
  }

  lemma ReplacedFree(rs: seq<Region>, i: nat, ns: seq<Node>, x: int)
    requires Valid(rs) && i < |rs| && Canonical(ns, rs[i].min, rs[i].max)
    ensures FreeAt(Replaced(rs, i, ns), x)
       <==> if rs[i].min <= x < rs[i].max then Covers(ns, x) else FreeAt(rs, x)
  {
    hide Canonical, Covers, Valid;
    ReplacedValid(rs, i, ns);
    var ss := Replaced(rs, i, ns);
    if rs[i].min <= x < rs[i].max {
      FreeInRegion(ss, i, x);
    } else {
      RegionCovers(rs, i, x);
      RegionCovers(ss, i, x);
      if FreeAt(rs, x) {
        var k :| 0 <= k < |rs| && Covers(rs[k].nodes, x);
        assert ss[k] == rs[k];
      }
      if FreeAt(ss, x) {
        var k :| 0 <= k < |ss| && Covers(ss[k].nodes, x);
        assert ss[k] == rs[k];
      }
    }
  }

  lemma CarveTakes(rs: seq<Region>, r: nat, i: nat, a: nat, b: nat)
    requires Valid(rs) && r < |rs| && i < |rs[r].nodes|
    requires rs[r].nodes[i].addr <= a < b <= rs[r].nodes[i].End() && a % 8 == 0 && b % 8 == 0
    ensures Takes(rs, a, b, Replaced(rs, r, Carved(rs[r].nodes, i, a, b)))
    ensures Sum(Carved(rs[r].nodes, i, a, b)) == rs[r].free - (b - a)
  {
    var ns := rs[r].nodes;
    assert RegionOk(rs[r]);
    NodeFacts(ns, rs[r].min, rs[r].max, i);
    CarvedRight(ns, rs[r].min, rs[r].max, i, a, b);
    hide Canonical, Covers, Valid, Carved, FreeAt, Sum;
    ReplacedValid(rs, r, Carved(ns, i, a, b));
    forall x: int
      ensures a <= x < b ==> FreeAt(rs, x)
      ensures FreeAt(Replaced(rs, r, Carved(ns, i, a, b)), x) <==> FreeAt(rs, x) && !(a <= x < b)
    {
      ReplacedFree(rs, r, Carved(ns, i, a, b), x);
      if rs[r].min <= x < rs[r].max {
        FreeInRegion(rs, r, x);
      }
    }
  }

  lemma JoinGives(rs: seq<Region>, r: nat, k: nat, a: nat, b: nat)
    requires Valid(rs) && r < |rs| && Slot(rs[r].nodes, k, a)
    requires 0 < a && rs[r].min <= a < b <= rs[r].max && a % 8 == 0 && b % 8 == 0
    requires forall x :: a <= x < b ==> !FreeAt(rs, x)
    ensures Gives(rs, a, b, Replaced(rs, r, Joined(rs[r].nodes, k, a, b)))
    ensures Sum(Joined(rs[r].nodes, k, a, b)) == rs[r].free + (b - a)
  {
    var ns := rs[r].nodes;
    assert RegionOk(rs[r]);
    forall x | a <= x < b
      ensures !Covers(ns, x)
    {
      FreeInRegion(rs, r, x);
    }
    JoinedRight(ns, rs[r].min, rs[r].max, k, a, b);
    hide Canonical, Covers, Valid, Joined, FreeAt, Sum;
    ReplacedValid(rs, r, Joined(ns, k, a, b));
    forall x: int
      ensures FreeAt(Replaced(rs, r, Joined(ns, k, a, b)), x) <==> FreeAt(rs, x) || a <= x < b
    {
      ReplacedFree(rs, r, Joined(ns, k, a, b), x);
      if rs[r].min <= x < rs[r].max {
        FreeInRegion(rs, r, x);
      }
    }
  }

  // ----- the state is determined by the free bytes

  /** The same regions with the same free bytes have the same lists, node for node. */
  lemma SameBytesSameState(rs: seq<Region>, ss: seq<Region>)
    requires Valid(rs) && Valid(ss) && SameFrames(rs, ss)
    requires forall x :: FreeAt(rs, x) <==> FreeAt(ss, x)
    ensures rs == ss
  {
    forall i | 0 <= i < |rs|
      ensures rs[i] == ss[i]
    {
      forall x
        ensures Covers(rs[i].nodes, x) <==> Covers(ss[i].nodes, x)
      {
        RegionCovers(rs, i, x);
        RegionCovers(ss, i, x);
        if rs[i].min <= x < rs[i].max {
          FreeInRegion(rs, i, x);
          FreeInRegion(ss, i, x);
        }
      }
      assert RegionOk(rs[i]) && RegionOk(ss[i]);
      CanonicalUnique(rs[i].nodes, ss[i].nodes, rs[i].min, rs[i].max);
    }
  }

  // ----- any history in which every block comes back

  datatype Block = Block(lo: nat, hi: nat)
  datatype Event = Took(block: Block) | Gave(block: Block)

  ghost predicate Follows(states: seq<seq<Region>>, es: seq<Event>) {
    && |states| == |es| + 1
    && forall i :: 0 <= i < |es| ==> Step(states[i], es[i], states[i + 1])
  }

  function TookOf(es: seq<Event>): multiset<Block> {
    if es == [] then multiset{}
    else TookOf(es[..|es| - 1]) + if es[|es| - 1].Took? then multiset{es[|es| - 1].block} else multiset{}
  }

  function GaveOf(es: seq<Event>): multiset<Block> {
    if es == [] then multiset{}
    else GaveOf(es[..|es| - 1]) + if es[|es| - 1].Gave? then multiset{es[|es| - 1].block} else multiset{}
  }

  function Has(b: Block, x: int): nat {
    if b.lo <= x < b.hi then 1 else 0
  }

  /** How many blocks of the bag contain byte `x`. */
  ghost function Depth(m: multiset<Block>, x: int): nat
    decreases |m|
  {
    if m == multiset{} then 0
    else var b :| b in m; Has(b, x) + Depth(m - multiset{b}, x)
  }

  lemma {:induction false} DepthWithout(m: multiset<Block>, c: Block, x: int)
    requires c in m
    ensures Depth(m, x) == Has(c, x) + Depth(m - multiset{c}, x)
    decreases |m|
  {
    var b :| b in m && Depth(m, x) == Has(b, x) + Depth(m - multiset{b}, x);
    if b != c {
      DepthWithout(m - multiset{b}, c, x);
      DepthWithout(m - multiset{c}, b, x);
      assert m - multiset{b} - multiset{c} == m - multiset{c} - multiset{b};
    }
  }

  lemma DepthWith(m: multiset<Block>, c: Block, x: int)
    ensures Depth(m + multiset{c}, x) == Depth(m, x) + Has(c, x)
  {
    DepthWithout(m + multiset{c}, c, x);
    assert m + multiset{c} - multiset{c} == m;
  }

  function Flag(b: bool): nat {
    if b then 1 else 0
  }

  /** Byte by byte, what is free now plus what was taken equals what was free first plus what was given. */
  lemma {:induction false} Conserved(states: seq<seq<Region>>, es: seq<Event>, x: int)
    requires Follows(states, es)
    ensures Flag(FreeAt(states[|es|], x)) + Depth(TookOf(es), x) == Flag(FreeAt(states[0], x)) + Depth(GaveOf(es), x)
    ensures es != [] ==> SameFrames(states[0], states[|es|]) && Valid(states[0]) && Valid(states[|es|])
    decreases |es|
  {
    hide Valid, FreeAt, Depth, Step, SameFrames;
    if es != [] {
      var n := |es| - 1;
      FollowsPrefix(states, es);
      Conserved(states[..n + 1], es[..n], x);
      assert es[n].Took? ==> GaveOf(es) == GaveOf(es[..n]);
      assert es[n].Gave? ==> TookOf(es) == TookOf(es[..n]);
      if n > 0 {
        FramesChain(states[0], states[n], states[n + 1]);
      }
      ConservedStep(states[n], es[n], states[n + 1], TookOf(es[..n]), GaveOf(es[..n]), x);
    }
  }

  lemma FramesChain(rs: seq<Region>, ss: seq<Region>, ts: seq<Region>)
    ensures SameFrames(rs, ss) && SameFrames(ss, ts) ==> SameFrames(rs, ts)
  {
  }

  ghost predicate Step(rs: seq<Region>, e: Event, ss: seq<Region>) {
    match e
    case Took(b) => Takes(rs, b.lo, b.hi, ss)
    case Gave(b) => Gives(rs, b.lo, b.hi, ss)
  }

  lemma FollowsPrefix(states: seq<seq<Region>>, es: seq<Event>)
    requires es != [] && Follows(states, es)
    ensures Follows(states[..|es|], es[..|es| - 1])
    ensures Step(states[|es| - 1], es[|es| - 1], states[|es|])
  {
    hide Step;
    var n := |es| - 1;
    forall i | 0 <= i < n
      ensures Step(states[..n + 1][i], es[..n][i], states[..n + 1][i + 1])
    {
      assert Step(states[i], es[i], states[i + 1]);
    }
  }

  lemma ConservedStep(rs: seq<Region>, e: Event, ss: seq<Region>, took: multiset<Block>, gave: multiset<Block>, x: int)
    requires Step(rs, e, ss)
    ensures e.Took? ==> Flag(FreeAt(ss, x)) + Depth(took + multiset{e.block}, x) == Flag(FreeAt(rs, x)) + Depth(took, x)
    ensures e.Gave? ==> Flag(FreeAt(ss, x)) + Depth(gave, x) == Flag(FreeAt(rs, x)) + Depth(gave + multiset{e.block}, x)
    ensures Valid(rs) && Valid(ss) && SameFrames(rs, ss)
  {
    hide Valid, FreeAt, SameFrames, Depth;
    DepthWith(took, e.block, x);
    DepthWith(gave, e.block, x);
  }

  /** In any history of allocations and frees, in any order, that ends with every block taken having
      been given back, the free lists are what they were at the start, node for node. */
  lemma AllReturnedRestores(states: seq<seq<Region>>, es: seq<Event>)
    requires Follows(states, es) && TookOf(es) == GaveOf(es)
    ensures states[|es|] == states[0]
  {
    if es != [] {
      forall x
        ensures FreeAt(states[0], x) <==> FreeAt(states[|es|], x)
      {
        Conserved(states, es, x);
      }
      Conserved(states, es, 0);
      SameBytesSameState(states[0], states[|es|]);
    }
  }
}
