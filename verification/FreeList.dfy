/** The list of free nodes of one region of the List Memory Manager. A list in canonical form is
    determined by the bytes it covers, so an operation on it is specified by what it does to bytes. */
module FreeList {

  /** `addr & ~ALIGN_MASK`, where a node header takes eight bytes. */
  function AlignDown(x: nat): nat {
    x - x % 8
  }

  /** `(addr + ALIGN_MASK) & ~ALIGN_MASK`. */
  function AlignUp(x: nat): nat {
    AlignDown(x + 7)
  }

  datatype Node = Node(addr: nat, size: nat) {
    function End(): nat {
      addr + size
    }
  }

  /** Byte `x` is free according to the list. */
  predicate Covers(ns: seq<Node>, x: int) {
    exists i :: 0 <= i < |ns| && ns[i].addr <= x < ns[i].End()
  }

  predicate NodeOk(n: Node, lo: nat, hi: nat) {
    && 0 < n.addr && n.addr % 8 == 0 && n.size % 8 == 0 && n.size > 0
    && lo <= n.addr && n.End() <= hi
  }

  /** Aligned nodes inside `lo..hi`, none at address 0, which is the null pointer, sorted, and coalesced: a gap between
      any two. */
  predicate Canonical(ns: seq<Node>, lo: nat, hi: nat) {
    && (forall i :: 0 <= i < |ns| ==> NodeOk(ns[i], lo, hi))
    && (forall i, j :: 0 <= i < j < |ns| ==> ns[i].End() < ns[j].addr)
  }

  function Sum(ns: seq<Node>): nat {
    if ns == [] then 0 else ns[0].size + Sum(ns[1..])
  }

  lemma {:induction false} SumConcat(a: seq<Node>, b: seq<Node>)
    ensures Sum(a + b) == Sum(a) + Sum(b)
  {
    if a == [] {
      assert a + b == b;
    } else {
      SumConcat(a[1..], b);
      assert (a + b)[1..] == a[1..] + b;
    }
  }

  lemma SumSlices(ns: seq<Node>, i: nat, j: nat)
    requires i <= j <= |ns|
    ensures Sum(ns) == Sum(ns[..i]) + Sum(ns[i..j]) + Sum(ns[j..])
  {
    SumConcat(ns[..i], ns[i..j]);
    SumConcat(ns[..i] + ns[i..j], ns[j..]);
    assert ns[..i] + ns[i..j] + ns[j..] == ns;
  }

  /** Free space never exceeds the region. */
  lemma {:induction false} SumFits(ns: seq<Node>, lo: nat, hi: nat)
    requires lo <= hi && Canonical(ns, lo, hi)
    ensures Sum(ns) <= hi - lo
  {
    if ns != [] {
      assert NodeOk(ns[0], lo, hi);
      assert Canonical(ns[1..], ns[0].End(), hi);
      SumFits(ns[1..], ns[0].End(), hi);
    }
  }

  lemma CoversConcat(a: seq<Node>, b: seq<Node>, x: int)
    ensures Covers(a + b, x) <==> Covers(a, x) || Covers(b, x)
  {
    if Covers(a, x) {
      var i :| 0 <= i < |a| && a[i].addr <= x < a[i].End();
      assert (a + b)[i] == a[i];
    }
    if Covers(b, x) {
      var i :| 0 <= i < |b| && b[i].addr <= x < b[i].End();
      assert (a + b)[|a| + i] == b[i];
    }
  }

  lemma CoversSlices(ns: seq<Node>, i: nat, j: nat, x: int)
    requires i <= j <= |ns|
    ensures Covers(ns, x) <==> Covers(ns[..i], x) || Covers(ns[i..j], x) || Covers(ns[j..], x)
  {
    CoversConcat(ns[..i], ns[i..j], x);
    CoversConcat(ns[..i] + ns[i..j], ns[j..], x);
    assert ns[..i] + ns[i..j] + ns[j..] == ns;
  }

  /** What lies before and after a slice of a canonical list lies strictly beside its bytes. */
  lemma CoversBeside(ns: seq<Node>, lo: nat, hi: nat, i: nat, x: int)
    requires Canonical(ns, lo, hi) && i <= |ns|
    ensures Covers(ns[..i], x) ==> i > 0 && x < ns[i - 1].End()
    ensures Covers(ns[i..], x) ==> i < |ns| && ns[i].addr <= x
  {
    if Covers(ns[..i], x) {
      var k :| 0 <= k < i && ns[..i][k].addr <= x < ns[..i][k].End();
      assert ns[k] == ns[..i][k];
    }
    if Covers(ns[i..], x) {
      var k :| 0 <= k < |ns| - i && ns[i..][k].addr <= x < ns[i..][k].End();
      assert ns[i + k] == ns[i..][k];
    }
  }

  /** Every change of a free list replaces the nodes `i..j-1` by others. */
  function Splice(ns: seq<Node>, i: nat, j: nat, mid: seq<Node>): seq<Node>
    requires i <= j <= |ns|
  {
    ns[..i] + mid + ns[j..]
  }

  lemma SpliceCanonical(ns: seq<Node>, lo: nat, hi: nat, i: nat, j: nat, mid: seq<Node>, a: nat, b: nat)
    requires Canonical(ns, lo, hi) && i <= j <= |ns|
    requires Canonical(mid, a, b) && lo <= a && b <= hi && a <= b
    requires i > 0 ==> ns[i - 1].End() < a
    requires j < |ns| ==> b < ns[j].addr
    ensures Canonical(Splice(ns, i, j, mid), lo, hi)
  {
    var r := Splice(ns, i, j, mid);
    forall k | 0 <= k < |r|
      ensures NodeOk(r[k], lo, hi)
      ensures k < i ==> r[k] == ns[k] && r[k].End() < a
      ensures i <= k < i + |mid| ==> a <= r[k].addr && r[k].End() <= b
      ensures i + |mid| <= k ==> r[k] == ns[k - i - |mid| + j] && b < r[k].addr
    {
      if i <= k < i + |mid| {
        assert NodeOk(mid[k - i], a, b);
      } else if k < i {
        assert NodeOk(ns[k], lo, hi);
        assert k < i - 1 ==> ns[k].End() < ns[i - 1].addr;
      } else {
        assert NodeOk(ns[k - i - |mid| + j], lo, hi);
      }
    }
  }

  lemma SpliceSum(ns: seq<Node>, i: nat, j: nat, mid: seq<Node>)
    requires i <= j <= |ns|
    ensures Sum(Splice(ns, i, j, mid)) + Sum(ns[i..j]) == Sum(ns) + Sum(mid)
  {
    SumSlices(ns, i, j);
    SumConcat(ns[..i], mid);
    SumConcat(ns[..i] + mid, ns[j..]);
  }

  lemma SpliceCovers(ns: seq<Node>, i: nat, j: nat, mid: seq<Node>, x: int)
    requires i <= j <= |ns|
    ensures Covers(Splice(ns, i, j, mid), x) <==> Covers(ns[..i], x) || Covers(mid, x) || Covers(ns[j..], x)
  {
    CoversConcat(ns[..i], mid, x);
    CoversConcat(ns[..i] + mid, ns[j..], x);
  }

  // ----- taking a piece out of one node

  /** What is left of a node when `lo..hi` is taken out of it. */
  function Left(n: Node, lo: nat, hi: nat): seq<Node>
    requires n.addr <= lo < hi <= n.End()
  {
    (if lo > n.addr then [Node(n.addr, lo - n.addr)] else [])
    + (if hi < n.End() then [Node(hi, n.End() - hi)] else [])
  }

  /** The list after taking `lo..hi` out of node `i`. */
  function Carved(ns: seq<Node>, i: nat, lo: nat, hi: nat): seq<Node>
    requires i < |ns| && ns[i].addr <= lo < hi <= ns[i].End()
  {
    Splice(ns, i, i + 1, Left(ns[i], lo, hi))
  }

  lemma LeftFacts(n: Node, lo: nat, hi: nat)
    requires n.addr <= lo < hi <= n.End()
    requires 0 < n.addr && n.addr % 8 == 0 && n.size % 8 == 0 && lo % 8 == 0 && hi % 8 == 0
    ensures Canonical(Left(n, lo, hi), n.addr, n.End())
    ensures Sum(Left(n, lo, hi)) == n.size - (hi - lo)
    ensures forall x :: Covers(Left(n, lo, hi), x) <==> n.addr <= x < n.End() && !(lo <= x < hi)
  {
    hide Canonical, Left, Sum, Covers;
    LeftSum(n, lo, hi);
    LeftCanonical(n, lo, hi);
    forall x: int
      ensures Covers(Left(n, lo, hi), x) <==> n.addr <= x < n.End() && !(lo <= x < hi)
    {
      LeftByte(n, lo, hi, x);
    }
  }

  lemma LeftSum(n: Node, lo: nat, hi: nat)
    requires n.addr <= lo < hi <= n.End()
    ensures Sum(Left(n, lo, hi)) == n.size - (hi - lo)
  {
    SumConcat(if lo > n.addr then [Node(n.addr, lo - n.addr)] else [],
              if hi < n.End() then [Node(hi, n.End() - hi)] else []);
  }

  lemma LeftCanonical(n: Node, lo: nat, hi: nat)
    requires n.addr <= lo < hi <= n.End()
    requires 0 < n.addr && n.addr % 8 == 0 && n.size % 8 == 0 && lo % 8 == 0 && hi % 8 == 0
    ensures Canonical(Left(n, lo, hi), n.addr, n.End())
  {
    AlignedDifference(lo, n.addr);
    AlignedDifference(n.End(), hi);
  }

  lemma AlignedDifference(a: nat, b: nat)
    requires a % 8 == 0 && b % 8 == 0
    ensures (a - b) % 8 == 0 && (a + b) % 8 == 0
  {
    Eighths(a - b, a / 8 - b / 8);
    Eighths(a + b, a / 8 + b / 8);
  }

  lemma Eighths(x: int, q: int)
    requires x == 8 * q
    ensures x % 8 == 0
  {
  }

  lemma LeftByte(n: Node, lo: nat, hi: nat, x: int)
    requires n.addr <= lo < hi <= n.End()
    ensures Covers(Left(n, lo, hi), x) <==> n.addr <= x < n.End() && !(lo <= x < hi)
  {
    var before := if lo > n.addr then [Node(n.addr, lo - n.addr)] else [];
    var after := if hi < n.End() then [Node(hi, n.End() - hi)] else [];
    CoversConcat(before, after, x);
    assert lo > n.addr ==> before[0] == Node(n.addr, lo - n.addr);
    assert hi < n.End() ==> after[0] == Node(hi, n.End() - hi);
  }

  /** Taking an aligned piece out of a node keeps the form, counts the bytes and frees nothing else. */
  lemma CarvedRight(ns: seq<Node>, lo: nat, hi: nat, i: nat, a: nat, b: nat)
    requires Canonical(ns, lo, hi)
    requires i < |ns| && ns[i].addr <= a < b <= ns[i].End() && a % 8 == 0 && b % 8 == 0
    ensures Canonical(Carved(ns, i, a, b), lo, hi)
    ensures Sum(Carved(ns, i, a, b)) == Sum(ns) - (b - a)
    ensures forall x :: Covers(Carved(ns, i, a, b), x) <==> Covers(ns, x) && !(a <= x < b)
    ensures forall x :: a <= x < b ==> Covers(ns, x)
  {
    CarvedCanonical(ns, lo, hi, i, a, b);
    hide Canonical, Covers, Carved, Sum;
    forall x: int
      ensures Covers(Carved(ns, i, a, b), x) <==> Covers(ns, x) && !(a <= x < b)
      ensures a <= x < b ==> Covers(ns, x)
    {
      CarvedByte(ns, lo, hi, i, a, b, x);
    }
  }

  lemma CarvedCanonical(ns: seq<Node>, lo: nat, hi: nat, i: nat, a: nat, b: nat)
    requires Canonical(ns, lo, hi)
    requires i < |ns| && ns[i].addr <= a < b <= ns[i].End() && a % 8 == 0 && b % 8 == 0
    ensures Canonical(Carved(ns, i, a, b), lo, hi)
    ensures Sum(Carved(ns, i, a, b)) == Sum(ns) - (b - a)
  {
    NodeFacts(ns, lo, hi, i);
    hide Canonical, Covers, Left, Sum;
    LeftFacts(ns[i], a, b);
    SpliceCanonical(ns, lo, hi, i, i + 1, Left(ns[i], a, b), ns[i].addr, ns[i].End());
    SpliceSum(ns, i, i + 1, Left(ns[i], a, b));
    SumFew(ns, i);
  }

  lemma NodeFacts(ns: seq<Node>, lo: nat, hi: nat, i: nat)
    requires Canonical(ns, lo, hi) && i < |ns|
    ensures NodeOk(ns[i], lo, hi)
    ensures i > 0 ==> ns[i - 1].End() < ns[i].addr
    ensures i + 1 < |ns| ==> ns[i].End() < ns[i + 1].addr
  {
  }

  lemma CarvedByte(ns: seq<Node>, lo: nat, hi: nat, i: nat, a: nat, b: nat, x: int)
    requires Canonical(ns, lo, hi)
    requires i < |ns| && ns[i].addr <= a < b <= ns[i].End() && a % 8 == 0 && b % 8 == 0
    ensures Covers(Carved(ns, i, a, b), x) <==> Covers(ns, x) && !(a <= x < b)
    ensures a <= x < b ==> Covers(ns, x)
  {
    NodeFacts(ns, lo, hi, i);
    hide Canonical, Covers, Left;
    LeftFacts(ns[i], a, b);
    SpliceCovers(ns, i, i + 1, Left(ns[i], a, b), x);
    CoversSlices(ns, i, i + 1, x);
    CoversFew(ns, i, x);
    CoversBeside(ns, lo, hi, i, x);
    CoversBeside(ns, lo, hi, i + 1, x);
  }

  // ----- giving a block back

  /** `k` is where a block starting at `a` belongs: the nodes before it start below `a`. */
  predicate Slot(ns: seq<Node>, k: nat, a: nat) {
    && k <= |ns|
    && (forall i :: 0 <= i < k ==> ns[i].addr < a)
    && (forall i :: k <= i < |ns| ==> a <= ns[i].addr)
  }

  predicate TouchesPrev(ns: seq<Node>, k: nat, a: nat) {
    0 < k <= |ns| && ns[k - 1].End() >= a
  }

  predicate TouchesNext(ns: seq<Node>, k: nat, b: nat) {
    k < |ns| && b >= ns[k].addr
  }

  /** The block `a..b` grown by whichever neighbours of slot `k` it touches. */
  function Merged(ns: seq<Node>, k: nat, a: nat, b: nat): Node
    requires k <= |ns| && a < b
  {
    Node(if TouchesPrev(ns, k, a) then ns[k - 1].addr else a,
         (if TouchesPrev(ns, k, a) then ns[k - 1].size else 0) + (b - a)
         + (if TouchesNext(ns, k, b) then ns[k].size else 0))
  }

  /** The list after inserting `a..b` at slot `k`, coalesced. */
  function Joined(ns: seq<Node>, k: nat, a: nat, b: nat): seq<Node>
    requires k <= |ns| && a < b
  {
    Splice(ns, if TouchesPrev(ns, k, a) then k - 1 else k, if TouchesNext(ns, k, b) then k + 1 else k,
           [Merged(ns, k, a, b)])
  }

  /** A block none of whose bytes is free touches its neighbours exactly or not at all. */
  lemma SlotNeighbours(ns: seq<Node>, lo: nat, hi: nat, k: nat, a: nat, b: nat)
    requires Canonical(ns, lo, hi) && Slot(ns, k, a) && a < b
    requires forall x :: a <= x < b ==> !Covers(ns, x)
    ensures k > 0 ==> ns[k - 1].End() <= a
    ensures k < |ns| ==> b <= ns[k].addr
  {
    if k > 0 {
      assert !(ns[k - 1].addr <= a < ns[k - 1].End()) by { assert !Covers(ns, a); }
    }
    if k < |ns| && b > ns[k].addr {
      assert NodeOk(ns[k], lo, hi);
      assert Covers(ns, ns[k].addr);
      assert false;
    }
  }

  lemma SpliceOne(ns: seq<Node>, lo: nat, hi: nat, i: nat, j: nat, n: Node)
    requires Canonical(ns, lo, hi) && i <= j <= |ns| && NodeOk(n, lo, hi)
    requires i > 0 ==> ns[i - 1].End() < n.addr
    requires j < |ns| ==> n.End() < ns[j].addr
    ensures Canonical(Splice(ns, i, j, [n]), lo, hi)
    ensures Sum(Splice(ns, i, j, [n])) + Sum(ns[i..j]) == Sum(ns) + n.size
  {
    SpliceCanonical(ns, lo, hi, i, j, [n], n.addr, n.End());
    SpliceSum(ns, i, j, [n]);
  }

  lemma SumFew(ns: seq<Node>, i: nat)
    ensures i < |ns| ==> Sum(ns[i..i + 1]) == ns[i].size
    ensures i + 1 < |ns| ==> Sum(ns[i..i + 2]) == ns[i].size + ns[i + 1].size
    ensures i <= |ns| ==> Sum(ns[i..i]) == 0
  {
    if i < |ns| {
      assert ns[i..i + 1] == [ns[i]];
    }
    if i + 1 < |ns| {
      assert ns[i..i + 2] == [ns[i]] + [ns[i + 1]];
      SumConcat([ns[i]], [ns[i + 1]]);
    }
  }

  lemma CoversFew(ns: seq<Node>, i: nat, x: int)
    ensures i < |ns| ==> (Covers(ns[i..i + 1], x) <==> ns[i].addr <= x < ns[i].End())
    ensures i + 1 < |ns| ==>
      (Covers(ns[i..i + 2], x) <==> ns[i].addr <= x < ns[i].End() || ns[i + 1].addr <= x < ns[i + 1].End())
  {
    if i < |ns| {
      assert ns[i..i + 1] == [ns[i]];
      assert [ns[i]][0] == ns[i];
    }
    if i + 1 < |ns| {
      assert ns[i..i + 2] == [ns[i], ns[i + 1]];
      assert [ns[i], ns[i + 1]][0] == ns[i];
      assert [ns[i], ns[i + 1]][1] == ns[i + 1];
    }
  }

  /** Giving back a block none of whose bytes is free keeps the form and adds exactly its bytes. */
  lemma JoinedRight(ns: seq<Node>, lo: nat, hi: nat, k: nat, a: nat, b: nat)
    requires Canonical(ns, lo, hi) && Slot(ns, k, a)
    requires 0 < a && lo <= a < b <= hi && a % 8 == 0 && b % 8 == 0
    requires forall x :: a <= x < b ==> !Covers(ns, x)
    ensures Canonical(Joined(ns, k, a, b), lo, hi)
    ensures Sum(Joined(ns, k, a, b)) == Sum(ns) + (b - a)
    ensures forall x :: Covers(Joined(ns, k, a, b), x) <==> Covers(ns, x) || a <= x < b
  {
    SlotNeighbours(ns, lo, hi, k, a, b);
    hide Canonical, Covers, Sum, Slot, Splice;
    JoinedCanonical(ns, lo, hi, k, a, b);
    forall x: int
      ensures Covers(Joined(ns, k, a, b), x) <==> Covers(ns, x) || a <= x < b
    {
      JoinedByte(ns, lo, hi, k, a, b, x);
    }
  }

  lemma JoinedByte(ns: seq<Node>, lo: nat, hi: nat, k: nat, a: nat, b: nat, x: int)
    requires Canonical(ns, lo, hi) && k <= |ns|
    requires 0 < a && lo <= a < b <= hi && a % 8 == 0 && b % 8 == 0
    requires k > 0 ==> ns[k - 1].End() <= a
    requires k < |ns| ==> b <= ns[k].addr
    ensures Covers(Joined(ns, k, a, b), x) <==> Covers(ns, x) || a <= x < b
  {
    hide Canonical, Covers, Splice, NodeOk;
    var i := if TouchesPrev(ns, k, a) then k - 1 else k;
    var j := if TouchesNext(ns, k, b) then k + 1 else k;
    MergedFits(ns, lo, hi, k, a, b);
    SpliceCovers(ns, i, j, [Merged(ns, k, a, b)], x);
    CoversSingle(Merged(ns, k, a, b), x);
    CoversSlices(ns, i, j, x);
    CoversFew(ns, i, x);
    assert i == j ==> !Covers(ns[i..j], x) by { assert i == j ==> ns[i..j] == []; CoversNothing(x); }
  }

  lemma CoversSingle(n: Node, x: int)
    ensures Covers([n], x) <==> n.addr <= x < n.End()
  {
    assert [n][0] == n;
  }

  lemma CoversNothing(x: int)
    ensures !Covers([], x)
  {
  }

  lemma JoinedCanonical(ns: seq<Node>, lo: nat, hi: nat, k: nat, a: nat, b: nat)
    requires Canonical(ns, lo, hi) && k <= |ns|
    requires 0 < a && lo <= a < b <= hi && a % 8 == 0 && b % 8 == 0
    requires k > 0 ==> ns[k - 1].End() <= a
    requires k < |ns| ==> b <= ns[k].addr
    ensures Canonical(Joined(ns, k, a, b), lo, hi)
    ensures Sum(Joined(ns, k, a, b)) == Sum(ns) + (b - a)
  {
    hide Canonical, Covers, Sum, Splice;
    var i := if TouchesPrev(ns, k, a) then k - 1 else k;
    MergedFits(ns, lo, hi, k, a, b);
    SpliceOne(ns, lo, hi, i, if TouchesNext(ns, k, b) then k + 1 else k, Merged(ns, k, a, b));
    hide NodeOk;
    SumFew(ns, i);
  }

  lemma MergedFits(ns: seq<Node>, lo: nat, hi: nat, k: nat, a: nat, b: nat)
    requires Canonical(ns, lo, hi) && k <= |ns|
    requires 0 < a && lo <= a < b <= hi && a % 8 == 0 && b % 8 == 0
    requires k > 0 ==> ns[k - 1].End() <= a
    requires k < |ns| ==> b <= ns[k].addr
    ensures NodeOk(Merged(ns, k, a, b), lo, hi)
    ensures Merged(ns, k, a, b).End() == if TouchesNext(ns, k, b) then ns[k].End() else b
    ensures var i := if TouchesPrev(ns, k, a) then k - 1 else k;
      i > 0 ==> ns[i - 1].End() < Merged(ns, k, a, b).addr
    ensures var j := if TouchesNext(ns, k, b) then k + 1 else k;
      j < |ns| ==> Merged(ns, k, a, b).End() < ns[j].addr
  {
    if k > 0 { NodeFacts(ns, lo, hi, k - 1); }
    if k < |ns| { NodeFacts(ns, lo, hi, k); }
    hide Canonical;
    AlignedDifference(b, a);
    AlignedSum(if TouchesPrev(ns, k, a) then ns[k - 1].size else 0, b - a,
               if TouchesNext(ns, k, b) then ns[k].size else 0);
  }

  lemma AlignedSum(a: nat, b: nat, c: nat)
    requires a % 8 == 0 && b % 8 == 0 && c % 8 == 0
    ensures (a + b + c) % 8 == 0
  {
  }

  // ----- the form is unique

  lemma FirstByte(ns: seq<Node>, lo: nat, hi: nat)
    requires ns != [] && Canonical(ns, lo, hi)
    ensures Covers(ns, ns[0].addr) && !Covers(ns, ns[0].End())
    ensures forall x :: Covers(ns, x) ==> ns[0].addr <= x
    ensures forall x :: ns[0].addr <= x < ns[0].End() ==> Covers(ns, x)
    ensures forall x :: Covers(ns[1..], x) <==> Covers(ns, x) && ns[0].End() <= x
    ensures Canonical(ns[1..], lo, hi)
  {
    assert NodeOk(ns[0], lo, hi);
    forall x
      ensures Covers(ns[1..], x) <==> Covers(ns, x) && ns[0].End() <= x
    {
      CoversSlices(ns, 0, 1, x);
      CoversFew(ns, 0, x);
      CoversBeside(ns, lo, hi, 1, x);
    }
  }

  /** Two canonical lists that cover the same bytes are equal node for node. */
  lemma {:induction false} CanonicalUnique(ns: seq<Node>, ms: seq<Node>, lo: nat, hi: nat)
    requires Canonical(ns, lo, hi) && Canonical(ms, lo, hi)
    requires forall x :: Covers(ns, x) <==> Covers(ms, x)
    ensures ns == ms
  {
    if ns == [] {
      if ms != [] {
        FirstByte(ms, lo, hi);
        assert false;
      }
    } else {
      FirstByte(ns, lo, hi);
      assert ms != [] by { assert Covers(ms, ns[0].addr); }
      FirstByte(ms, lo, hi);
      assert ns[0].addr == ms[0].addr by { assert Covers(ms, ns[0].addr) && Covers(ns, ms[0].addr); }
      assert NodeOk(ns[0], lo, hi) && NodeOk(ms[0], lo, hi);
      assert ns[0].End() == ms[0].End() by { assert !Covers(ms, ns[0].End()) && !Covers(ns, ms[0].End()); }
      CanonicalUnique(ns[1..], ms[1..], lo, hi);
      assert ns == [ns[0]] + ns[1..] && ms == [ms[0]] + ms[1..];
    }
  }
}
