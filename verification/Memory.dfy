/** The accounting behind the physical frame manager and the page mapping code: what every operation
    keeps balanced, and the marks that delimit new_pages() regions. */
module Memory {

  /** A page of one address space: the page directory it belongs to and the page number. */
  datatype Key = Key(pd: nat, page: nat)

  /** The parts of a page table entry that matter: the frame, the ZFOD mark, the permission and the
      two marks of a new_pages() region. */
  datatype Entry = Entry(frame: nat, zfod: bool, rw: bool, first: bool, last: bool)

  type Pages = map<Key, Entry>

  // ----- the balance

  /** The pages that own a frame of their own, as opposed to sharing the all-zero frame. */
  function Real(pages: Pages): set<Key> {
    set k | k in pages && !pages[k].zfod
  }

  /** `left` is the reservation counter, `free` the frames not handed out, and `pending` the number of
      reserved pages that an operation in progress has not mapped yet. Every mapped or pending page is
      paid for; every frame is free or owned by exactly one page. */
  ghost predicate Balanced(left: int, free: set<nat>, pages: Pages, total: nat, pending: nat) {
    && left >= 0
    && left + |pages| + pending == total
    && |free| + |Real(pages)| == total
    && (forall f :: f in free ==> f < total)
    && (forall k :: k in Real(pages) ==> pages[k].frame < total && pages[k].frame !in free)
    && OneOwner(pages)
  }

  /** No two real pages have the same frame. */
  ghost predicate OneOwner(pages: Pages) {
    forall j, k :: j in Real(pages) && k in Real(pages) && pages[j].frame == pages[k].frame ==> j == k
  }

  /** The frames still free are exactly those the ZFOD pages, the pending pages and the reservation
      counter can still claim; so whoever holds a reservation finds a frame. */
  lemma FreeCoversReservations(left: int, free: set<nat>, pages: Pages, total: nat, pending: nat)
    requires Balanced(left, free, pages, total, pending)
    ensures |free| == left + pending + |pages.Keys - Real(pages)|
  {
    assert Real(pages) <= pages.Keys;
    CardMinus(pages.Keys, Real(pages));
  }

  lemma CardMinus(a: set<Key>, b: set<Key>)
    requires b <= a
    ensures |a - b| == |a| - |b|
  {
    assert (a - b) + b == a;
  }

  /** No two pages with a frame of their own share it. */
  lemma NoSharing(left: int, free: set<nat>, pages: Pages, total: nat, pending: nat, j: Key, k: Key)
    requires Balanced(left, free, pages, total, pending) && j in pages && k in pages && j != k
    requires !pages[j].zfod && !pages[k].zfod
    ensures pages[j].frame != pages[k].frame
  {
    assert j in Real(pages) && k in Real(pages);
  }

  /** Reserving frames turns counter into pending pages. */
  lemma Reserved(left: int, free: set<nat>, pages: Pages, total: nat, n: nat)
    requires Balanced(left, free, pages, total, 0) && n <= left
    ensures Balanced(left - n, free, pages, total, n)
  {
  }

  /** Once a free frame is thrown away, no value of the counter makes the books balance again. */
  lemma LostFrameUnbalances(left: int, free: set<nat>, pages: Pages, total: nat, pending: nat, f: nat, left': int,
                            pending': nat)
    requires Balanced(left, free, pages, total, pending) && f in free
    ensures !Balanced(left', free - {f}, pages, total, pending')
  {
  }

  /** The counter and the mapped pages add up to the same number before and after anything balanced. */
  lemma CounterIs(left: int, free: set<nat>, pages: Pages, total: nat)
    requires Balanced(left, free, pages, total, 0)
    ensures left == total - |pages|
  {
  }

  /** Mapping a pending page to the shared zero frame. */
  lemma MapZfod(left: int, free: set<nat>, pages: Pages, total: nat, pending: nat, k: Key, e: Entry)
    requires Balanced(left, free, pages, total, pending) && pending > 0 && k !in pages && e.zfod
    ensures Balanced(left, free, pages[k := e], total, pending - 1)
  {
    assert Real(pages[k := e]) == Real(pages);
  }

  /** Mapping a pending page to a frame taken from the free ones. */
  lemma MapReal(left: int, free: set<nat>, pages: Pages, total: nat, pending: nat, k: Key, e: Entry)
    requires Balanced(left, free, pages, total, pending) && pending > 0 && k !in pages && !e.zfod && e.frame in free
    ensures Balanced(left, free - {e.frame}, pages[k := e], total, pending - 1)
  {
    hide OneOwner;
    var pages' := pages[k := e];
    assert Real(pages') == Real(pages) + {k};
    assert |free - {e.frame}| == |free| - 1 && |pages'| == |pages| + 1;
    OwnFrames(left, free, pages, total, pending, k, e);
  }

  /** The new entry's frame is nobody else's. */
  lemma OwnFrames(left: int, free: set<nat>, pages: Pages, total: nat, pending: nat, k: Key, e: Entry)
    requires Balanced(left, free, pages, total, pending) && k !in Real(pages) && !e.zfod && e.frame in free
    ensures OneOwner(pages[k := e])
  {
    var pages' := pages[k := e];
    assert Real(pages') == Real(pages) + {k};
  }

  /** A write to a ZFOD page gives it a frame. */
  lemma ResolveZfod(left: int, free: set<nat>, pages: Pages, total: nat, pending: nat, k: Key, e: Entry)
    requires Balanced(left, free, pages, total, pending) && k in pages && pages[k].zfod && !e.zfod && e.frame in free
    ensures Balanced(left, free - {e.frame}, pages[k := e], total, pending)
  {
    hide OneOwner;
    assert Real(pages[k := e]) == Real(pages) + {k};
    assert k !in Real(pages);
    assert pages[k := e].Keys == pages.Keys;
    OwnFrames(left, free, pages, total, pending, k, e);
  }

  /** Unmapping a page returns its frame, if it has one, and its reservation. */
  lemma Unmap(left: int, free: set<nat>, pages: Pages, total: nat, pending: nat, k: Key)
    requires Balanced(left, free, pages, total, pending) && k in pages
    ensures Balanced(left + 1, if pages[k].zfod then free else free + {pages[k].frame}, pages - {k}, total, pending)
  {
    hide OneOwner;
    var rest := pages - {k};
    assert Real(rest) == Real(pages) - {k};
    assert rest.Keys == pages.Keys - {k};
    FewerOwners(pages, k);
    if !pages[k].zfod {
      assert k in Real(pages);
      assert pages[k].frame !in free && |free + {pages[k].frame}| == |free| + 1;
      forall j | j in Real(rest)
        ensures rest[j].frame != pages[k].frame
      {
        OwnersDiffer(pages, j, k);
      }
    } else {
      assert k !in Real(pages);
    }
  }

  lemma FewerOwners(pages: Pages, k: Key)
    requires OneOwner(pages)
    ensures OneOwner(pages - {k})
  {
    assert Real(pages - {k}) <= Real(pages);
  }

  lemma OwnersDiffer(pages: Pages, j: Key, k: Key)
    requires OneOwner(pages) && j in Real(pages) && k in Real(pages) && j != k
    ensures pages[j].frame != pages[k].frame
  {
  }

  // ----- regions

  /** The pages `lo..hi` of `pd` are a region made by one new_pages(): all mapped, marked as first and
      last at its two ends and nowhere else. */
  ghost predicate IsRegion(pages: Pages, pd: nat, lo: nat, hi: nat) {
    && lo <= hi
    && forall p :: lo <= p <= hi ==>
         Key(pd, p) in pages && (pages[Key(pd, p)].first <==> p == lo) && (pages[Key(pd, p)].last <==> p == hi)
  }

  /** Every first mark starts a region. */
  ghost predicate Marked(pages: Pages) {
    forall k :: k in pages && pages[k].first ==> exists hi :: IsRegion(pages, k.pd, k.page, hi)
  }

  /** Two regions of one address space are the same or have no page in common. */
  lemma RegionsDisjoint(pages: Pages, pd: nat, a: nat, b: nat, c: nat, d: nat, p: nat)
    requires IsRegion(pages, pd, a, b) && IsRegion(pages, pd, c, d) && a <= p <= b && c <= p <= d
    ensures a == c && b == d
  {
    if a != c {
      var x := if a < c then c else a;
      MarksAt(pages, pd, a, b, x);
      MarksAt(pages, pd, c, d, x);
      assert false;
    }
    if b != d {
      var x := if b < d then b else d;
      MarksAt(pages, pd, a, b, x);
      MarksAt(pages, pd, c, d, x);
      assert false;
    }
  }

  lemma MarksAt(pages: Pages, pd: nat, lo: nat, hi: nat, p: nat)
    requires IsRegion(pages, pd, lo, hi) && lo <= p <= hi
    ensures Key(pd, p) in pages && (pages[Key(pd, p)].first <==> p == lo) && (pages[Key(pd, p)].last <==> p == hi)
  {
  }

  /** Adding unmarked pages, or changing entries without touching their marks, keeps every region. */
  lemma MarksKept(pages: Pages, pages': Pages)
    requires Marked(pages) && pages.Keys <= pages'.Keys
    requires forall k :: k in pages ==> pages'[k].first == pages[k].first && pages'[k].last == pages[k].last
    requires forall k :: k in pages' && k !in pages ==> !pages'[k].first
    ensures Marked(pages')
  {
    forall k | k in pages' && pages'[k].first ensures exists hi :: IsRegion(pages', k.pd, k.page, hi) {
      var hi :| IsRegion(pages, k.pd, k.page, hi);
      assert IsRegion(pages', k.pd, k.page, hi);
    }
  }

  /** Adding a whole region of pages that were not mapped before. */
  lemma RegionAdded(pages: Pages, pages': Pages, pd: nat, lo: nat, hi: nat)
    requires Marked(pages) && IsRegion(pages', pd, lo, hi)
    requires forall k :: k in pages ==> k in pages' && pages'[k] == pages[k]
    requires forall k :: k in pages' && k !in pages ==> k.pd == pd && lo <= k.page <= hi
    requires forall p :: lo <= p <= hi ==> Key(pd, p) !in pages
    ensures Marked(pages')
  {
    forall k | k in pages' && pages'[k].first ensures exists h :: IsRegion(pages', k.pd, k.page, h) {
      if k in pages {
        var h :| IsRegion(pages, k.pd, k.page, h);
        assert IsRegion(pages', k.pd, k.page, h);
      } else {
        assert k == Key(pd, k.page);
        assert IsRegion(pages', k.pd, k.page, hi);
      }
    }
  }

  /** The keys of the pages `lo..hi-1` of `pd`. */
  function Span(pd: nat, lo: nat, hi: nat): set<Key> {
    set p | lo <= p < hi :: Key(pd, p)
  }

  /** Removing one whole region leaves every other region alone. */
  lemma RegionRemoved(pages: Pages, pages': Pages, pd: nat, lo: nat, hi: nat)
    requires Marked(pages) && IsRegion(pages, pd, lo, hi) && pages' == pages - Span(pd, lo, hi + 1)
    ensures Marked(pages')
  {
    forall k | k in pages' && pages'[k].first ensures exists h :: IsRegion(pages', k.pd, k.page, h) {
      var h :| IsRegion(pages, k.pd, k.page, h);
      forall p | k.page <= p <= h ensures Key(k.pd, p) in pages' {
        if Key(k.pd, p) in Span(pd, lo, hi + 1) {
          RegionsDisjoint(pages, pd, lo, hi, k.page, h, p);
        }
      }
      assert IsRegion(pages', k.pd, k.page, h);
    }
  }

  /** Dropping a whole address space drops its regions and keeps the others. */
  lemma SpaceRemoved(pages: Pages, pages': Pages, pd: nat)
    requires Marked(pages)
    requires forall k :: k in pages' <==> k in pages && k.pd != pd
    requires forall k :: k in pages' ==> pages'[k] == pages[k]
    ensures Marked(pages')
  {
    forall k | k in pages' && pages'[k].first ensures exists h :: IsRegion(pages', k.pd, k.page, h) {
      var h :| IsRegion(pages, k.pd, k.page, h);
      assert IsRegion(pages', k.pd, k.page, h);
    }
  }
}
