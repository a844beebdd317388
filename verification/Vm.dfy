/** The physical frame manager of one core and the page mapping code on top of it. Each operation runs
    to completion; page tables are assumed to be allocatable. */
module Vm {
  import opened Memory
  import Bits
  import SegTree

  const PAGE_SIZE: nat := 4096
  const USER_PAGE: nat := 0x1000        // page number of USER_MEM_START
  const PAGES: nat := 0x10_0000         // number of pages in a 32-bit address space
  const UINT32: nat := 0x1_0000_0000

  datatype Status = OK | ErrNoMem | ErrBaseNotAligned | ErrLen | ErrOverlap | ErrKernelSpace | ErrBaseNotPrev

  /** How many of the pages `lo..hi-1` are not mapped. */
  function Missing(pages: Pages, pd: nat, lo: nat, hi: nat): nat
    decreases hi - lo
  {
    if lo >= hi then 0
    else (if Key(pd, lo) in pages then 0 else 1) + Missing(pages, pd, lo + 1, hi)
  }

  lemma {:induction false} MissingBelow(a: Pages, b: Pages, pd: nat, lo: nat, hi: nat)
    requires forall p :: lo <= p < hi ==> (Key(pd, p) in a <==> Key(pd, p) in b)
    ensures Missing(a, pd, lo, hi) == Missing(b, pd, lo, hi)
    decreases hi - lo
  {
    if lo < hi {
      MissingBelow(a, b, pd, lo + 1, hi);
    }
  }

  lemma {:induction false} MissingLast(pages: Pages, pd: nat, lo: nat, hi: nat)
    requires lo <= hi
    ensures Missing(pages, pd, lo, hi + 1) == Missing(pages, pd, lo, hi) + if Key(pd, hi) in pages then 0 else 1
    decreases hi - lo
  {
    if lo < hi {
      MissingLast(pages, pd, lo + 1, hi);
    }
  }

  lemma {:induction false} MissingAll(pages: Pages, pd: nat, lo: nat, hi: nat)
    requires lo <= hi
    ensures Missing(pages, pd, lo, hi) <= hi - lo
    ensures (forall p :: lo <= p < hi ==> Key(pd, p) !in pages) ==> Missing(pages, pd, lo, hi) == hi - lo
    decreases hi - lo
  {
    if lo < hi {
      MissingAll(pages, pd, lo + 1, hi);
    }
  }

  /** The error code of a write (bit 1) from user space (bit 2) to a page that is present (bit 0). */
  predicate UserWrite(errorCode: nat) {
    Bits.Bit(errorCode, 0) && Bits.Bit(errorCode, 2) && Bits.Bit(errorCode, 1)
  }

  lemma UserWriteIff(errorCode: nat)
    ensures UserWrite(errorCode) <==> errorCode % 8 == 7
  {
    assert Bits.Bit(errorCode, 1) == Bits.Bit(errorCode / 2, 0);
    assert Bits.Bit(errorCode, 2) == Bits.Bit(errorCode / 2, 1) == Bits.Bit(errorCode / 2 / 2, 0);
  }

  /** The entry `new_region` writes for page `p` of a region `lo..hi`, up to the choice of frame. */
  predicate IsNewEntry(e: Entry, p: nat, lo: nat, hi: nat, rw: bool, isNewPages: bool, isZfod: bool) {
    && e.zfod == isZfod
    && e.rw == (!isZfod && rw)
    && e.first == (isNewPages && p == lo)
    && e.last == (isNewPages && p == hi)
  }

  /** The frames that the given pages own. */
  function FramesOf(pages: Pages, keys: set<Key>): set<nat> {
    set k | k in keys && k in pages && !pages[k].zfod :: pages[k].frame
  }

  class Core {
    const frames: SegTree.FrameTree
    const total: nat
    const lapic: nat              // the frame number of the local APIC, counted from this core's first frame
    var left: int
    var pages: Pages

    ghost predicate Valid()
      reads this, frames, frames.tree
    {
      && frames.Valid()
      && total <= 32 * frames.size && total <= lapic
      && Balanced(left, frames.Free(), pages, total, 0)
      && Marked(pages)
      && forall k :: k in pages ==> USER_PAGE <= k.page < PAGES
    }

    /** `init_pm` for a core with `num` frames. The books balance, and the other operations keep them so if
        the frame of the local APIC, which is skipped but counted, is not among the frames; if it is,
        `TakeAll` shows how they come to be one frame short. */
    constructor (num: nat, lapic: nat)
      requires 32 < num <= 0x8000_0000
      ensures frames.Valid() && fresh(frames) && fresh(frames.tree)
      ensures forall f: nat :: f in frames.Free() <==> f < num
      ensures Balanced(left, frames.Free(), pages, total, 0) && (num <= lapic ==> Valid())
      ensures total == num && left == num && pages == map[] && this.lapic == lapic
    {
      this.lapic := lapic;
      var t := new SegTree.FrameTree(num);
      frames := t;
      total := num;
      left := num;
      pages := map[];
      new;
      ghost var unused := SegTree.SizeIsPow2(num);
      CountBelow(frames.Free(), num);
      assert Real(pages) == {};
    }

    /** `get_frames_raw`: the least free frame, or None for ERROR_NOT_ENOUGH_MEM. The frame of the local APIC
        is thrown away when it comes up. */
    method GetFrame() returns (ok: bool, frame: nat)
      requires frames.Valid()
      modifies frames.tree
      ensures frames.Valid()
      ensures ok <==> old(frames.Free()) - {lapic} != {}
      ensures ok ==> frame in old(frames.Free()) && frame != lapic
      ensures ok ==> forall f :: f in old(frames.Free()) && f != lapic ==> frame <= f
      ensures ok ==> frames.Free() == old(frames.Free()) - {frame} - (if lapic < frame then {lapic} else {})
      ensures ok && lapic !in old(frames.Free()) ==> frames.Free() == old(frames.Free()) - {frame}
      ensures !ok ==> frames.Free() == {}
      decreases |frames.Free()|
    {
      hide SegTree.Sound, SegTree.IsFree;
      ghost var free := frames.Free();
      frame := frames.GetNext();
      ok := frame != SegTree.NAN;
      if ok && frame == lapic {
        ghost var rest := frames.Free();
        SmallerSet(rest, free, frame);
        assert rest - {lapic} == rest == free - {lapic};
        ok, frame := GetFrame();
      } else if ok {
        assert frame in free - {lapic};
        assert forall f :: f in free && f != lapic ==> frame <= f;
      }
    }

    /** Asks for frames until none comes. If the frame of the local APIC was free it is neither free nor taken
        afterwards: free and taken frames are one less than before, and with every frame reserved one
        reservation cannot be met. */
    method TakeAll() returns (taken: set<nat>)
      requires frames.Valid()
      modifies frames.tree
      ensures frames.Valid() && frames.Free() == {}
      ensures taken == old(frames.Free()) - {lapic}
      ensures |frames.Free()| + |taken| == |old(frames.Free())| - if lapic in old(frames.Free()) then 1 else 0
      ensures Balanced(left, old(frames.Free()), pages, total, 0) && lapic in old(frames.Free()) ==>
        |frames.Free()| + |taken| + |Real(pages)| == total - 1
    {
      hide SegTree.Sound, SegTree.IsFree, Parts, Balanced, Real;
      ghost var free := frames.Free();
      ghost var rest := free;
      taken := {};
      var ok := true;
      AllLeft(free, lapic);
      while ok
        invariant frames.Valid() && rest == frames.Free()
        invariant Parts(free, taken, rest, lapic) && (!ok ==> rest == {})
        decreases ok, |rest|
      {
        var frame;
        ok, frame := GetFrame();
        TookOne(free, taken, rest, frames.Free(), lapic, ok, frame);
        rest := frames.Free();
        if ok {
          taken := taken + {frame};
        }
      }
      OneShort(left, free, taken, pages, total, lapic);
    }

    /** `reserve_frames`. */
    method Reserve(count: nat) returns (ok: bool)
      modifies this`left
      ensures ok <==> old(left) >= count
      ensures left == if ok then old(left) - count else old(left)
    {
      left := left - count;
      if left < 0 {
        left := left + count;
        return false;
      }
      return true;
    }

    /** `count_pages_allocated`: how many pages of the region are mapped; for new_pages() it stops at
        the first one. */
    method CountAllocated(pd: nat, lo: nat, hi: nat, isNewPages: bool) returns (num: nat)
      requires lo <= hi
      ensures !isNewPages ==> num + Missing(pages, pd, lo, hi + 1) == hi + 1 - lo
      ensures isNewPages ==> (num == 0 <==> forall p :: lo <= p <= hi ==> Key(pd, p) !in pages)
    {
      num := 0;
      var page := lo;
      while page <= hi
        invariant lo <= page <= hi + 1
        invariant num + Missing(pages, pd, lo, page) == page - lo
        invariant isNewPages ==> num == 0 && forall p :: lo <= p < page ==> Key(pd, p) !in pages
      {
        MissingLast(pages, pd, lo, page);
        if Key(pd, page) in pages {
          num := num + 1;
          if isNewPages {
            return;
          }
        }
        page := page + 1;
      }
    }

    /** The mapping loop of `new_region`: every page of `lo..hi` that is not mapped gets an entry. The
        reservation made before makes every frame request succeed, so its result needs no check. */
    method MapPages(pd: nat, lo: nat, hi: nat, rw: bool, isNewPages: bool, isZfod: bool)
      requires frames.Valid() && lo <= hi && total <= lapic
      requires Balanced(left, frames.Free(), pages, total, Missing(pages, pd, lo, hi + 1))
      modifies this`pages, frames.tree
      ensures frames.Valid()
      ensures Balanced(left, frames.Free(), pages, total, 0)
      ensures forall k :: k in old(pages) ==> k in pages && pages[k] == old(pages)[k]
      ensures forall k :: k in pages && k !in old(pages) ==>
                k.pd == pd && lo <= k.page <= hi && IsNewEntry(pages[k], k.page, lo, hi, rw, isNewPages, isZfod)
      ensures forall p :: lo <= p <= hi ==> Key(pd, p) in pages
      ensures isZfod ==> frames.Free() == old(frames.Free())
    {
      hide Balanced, Real, SegTree.Sound, SegTree.IsFree;
      ghost var before := pages;
      var page := lo;
      while page <= hi
        invariant lo <= page <= hi + 1
        invariant frames.Valid()
        invariant Balanced(left, frames.Free(), pages, total, Missing(before, pd, page, hi + 1))
        invariant forall k :: k in before ==> k in pages && pages[k] == before[k]
        invariant forall k :: k in pages && k !in before ==>
                    k.pd == pd && lo <= k.page < page && IsNewEntry(pages[k], k.page, lo, hi, rw, isNewPages, isZfod)
        invariant forall p :: lo <= p < page ==> Key(pd, p) in pages
        invariant isZfod ==> frames.Free() == old(frames.Free())
      {
        var k := Key(pd, page);
        if k !in pages {
          MapOne(k, lo, hi, rw, isNewPages, isZfod, Missing(before, pd, page, hi + 1));
        }
        page := page + 1;
      }
    }

    method MapOne(k: Key, lo: nat, hi: nat, rw: bool, isNewPages: bool, isZfod: bool, ghost pending: nat)
      requires frames.Valid() && k !in pages && pending > 0 && total <= lapic
      requires Balanced(left, frames.Free(), pages, total, pending)
      modifies this`pages, frames.tree
      ensures frames.Valid()
      ensures k in pages && pages == old(pages)[k := pages[k]]
      ensures IsNewEntry(pages[k], k.page, lo, hi, rw, isNewPages, isZfod)
      ensures Balanced(left, frames.Free(), pages, total, pending - 1)
      ensures isZfod ==> frames.Free() == old(frames.Free())
    {
      var first, last := isNewPages && k.page == lo, isNewPages && k.page == hi;
      ghost var free := frames.Free();
      if isZfod {
        var e := Entry(0, true, false, first, last);
        MapZfod(left, free, pages, total, pending, k, e);
        pages := pages[k := e];
      } else {
        FreeCoversReservations(left, free, pages, total, pending);
        NoLapic(left, free, pages, total, pending, lapic);
        var ok, frame := GetFrame();
        assert ok;
        var e := Entry(frame, false, rw, first, last);
        MapReal(left, free, pages, total, pending, k, e);
        pages := pages[k := e];
      }
    }

    /** `new_region`: map the pages of `va .. va + size - 1` that are not mapped yet, all or nothing. A size
        of 0 at a page boundary asks for every page of user space, and is refused for lack of frames; page
        tables, whose bookkeeping the code overruns before that, are not modelled. */
    method NewRegion(pd: nat, va: nat, size: nat, rw: bool, isNewPages: bool, isZfod: bool) returns (st: Status)
      requires Valid() && AsksForUserPages(va, size) && (size == 0 ==> !isNewPages)
      modifies this, frames.tree
      ensures Valid()
      ensures st in {OK, ErrNoMem, ErrOverlap}
      ensures st != OK ==> pages == old(pages) && left == old(left) && frames.Free() == old(frames.Free())
      ensures var lo, hi := FirstPage(va, size), LastPage(va, size);
              && (st == ErrOverlap <==> isNewPages && exists p :: lo <= p <= hi && Key(pd, p) in old(pages))
              && (st == ErrNoMem <==> st != ErrOverlap && Missing(old(pages), pd, lo, hi + 1) > old(left))
              && (st == OK ==>
                    && left == old(left) - Missing(old(pages), pd, lo, hi + 1)
                    && (forall k :: k in old(pages) ==> k in pages && pages[k] == old(pages)[k])
                    && (forall k :: k in pages && k !in old(pages) ==>
                          k.pd == pd && lo <= k.page <= hi
                          && IsNewEntry(pages[k], k.page, lo, hi, rw, isNewPages, isZfod))
                    && (forall p :: lo <= p <= hi ==> Key(pd, p) in pages)
                    && (isZfod ==> frames.Free() == old(frames.Free())))
      ensures size > 0 ==> (st == ErrOverlap <==> isNewPages && SomeByteMapped(old(pages), pd, va, size))
      ensures size > 0 && st == OK ==> BytesMapped(pages, pd, va, size)
      ensures size > 0 && st == OK ==> forall k :: k in pages && k !in old(pages) ==> HoldsByteOf(k.page, va, size)
      ensures size == 0 && va % PAGE_SIZE != 0 ==> FirstPage(va, size) == va / PAGE_SIZE == LastPage(va, size)
      ensures size == 0 && va % PAGE_SIZE == 0 && total < PAGES - USER_PAGE ==> st == ErrNoMem
    {
      hide Balanced, Real, SegTree.Sound, SegTree.IsFree, FirstPage, LastPage, AsksForUserPages;
      hide HoldsByteOf, SomeByteMapped, BytesMapped;
      var lo, hi := FirstPage(va, size), LastPage(va, size);
      PageBounds(va, size);
      PagesOfBytes(va, size);
      SomeByteIff(pages, pd, va, size);
      EmptySegment(left, frames.Free(), pages, total, pd);
      var num := CountAllocated(pd, lo, hi, isNewPages);
      if isNewPages && num > 0 {
        return ErrOverlap;
      }
      MissingAll(pages, pd, lo, hi + 1);
      ghost var before := pages;
      var ok := Reserve(hi + 1 - lo - num);
      if !ok {
        return ErrNoMem;
      }
      Reserved(old(left), frames.Free(), pages, total, hi + 1 - lo - num);
      MapPages(pd, lo, hi, rw, isNewPages, isZfod);
      if isNewPages {
        assert IsRegion(pages, pd, lo, hi);
        RegionAdded(before, pages, pd, lo, hi);
      } else {
        MarksKept(before, pages);
      }
      AllBytes(pages, pd, va, size);
      return OK;
    }

    /** `new_pages`: the argument checks, in order, and then a ZFOD region. */
    method NewPages(pd: nat, base: nat, len: int) returns (st: Status)
      requires Valid() && base < UINT32 && -0x8000_0000 <= len < 0x8000_0000
      modifies this, frames.tree
      ensures Valid()
      ensures st == ErrBaseNotAligned <==> base % PAGE_SIZE != 0
      ensures base % PAGE_SIZE == 0 ==>
                (st == ErrLen <==> len <= 0 || len % PAGE_SIZE != 0 || base == 0 || base + len > UINT32)
      ensures base % PAGE_SIZE == 0 && st != ErrLen ==> (st == ErrKernelSpace <==> base < USER_PAGE * PAGE_SIZE)
      ensures st !in {ErrBaseNotAligned, ErrLen, ErrKernelSpace} ==>
                var lo, n := base / PAGE_SIZE, len / PAGE_SIZE;
                && (st == ErrOverlap <==> exists p :: lo <= p < lo + n && Key(pd, p) in old(pages))
                && (st == ErrNoMem <==> st != ErrOverlap && n > old(left))
      ensures st != OK ==> pages == old(pages) && left == old(left) && frames.Free() == old(frames.Free())
      ensures st == OK ==>
                var lo, n := base / PAGE_SIZE, len / PAGE_SIZE;
                && n > 0 && lo + n <= PAGES
                && IsRegion(pages, pd, lo, lo + n - 1)
                && (forall p :: lo <= p < lo + n ==> Key(pd, p) !in old(pages) && pages[Key(pd, p)].zfod)
                && pages - Span(pd, lo, lo + n) == old(pages)
                && left == old(left) - n && frames.Free() == old(frames.Free())
    {
      hide Balanced, Real, SegTree.Sound, SegTree.IsFree, FirstPage, LastPage, Missing, Marked;
      if base % PAGE_SIZE != 0 {
        return ErrBaseNotAligned;
      }
      if !(len > 0 && len % PAGE_SIZE == 0) {
        return ErrLen;
      }
      if (UINT32 - 1 - base + 1) % UINT32 < len {
        return ErrLen;
      }
      if base < USER_PAGE * PAGE_SIZE {
        return ErrKernelSpace;
      }
      ghost var before := pages;
      st := NewRegion(pd, base, len, true, true, true);
      ghost var lo, n := base / PAGE_SIZE, len / PAGE_SIZE;
      SpanOf(base, len);
      MissingAll(before, pd, lo, lo + n);
      if st == OK {
        assert pages - Span(pd, lo, lo + n) == before;
      }
    }

    /** `is_page_ZFOD`: give a ZFOD page a frame of its own, if the fault, when that matters, is a write from
        user space to a present page. The frame request cannot fail, so the panic behind it is unreachable. */
    method ResolveFault(pd: nat, va: nat, errorCode: nat, check: bool) returns (fixed: bool)
      requires Valid() && va < UINT32
      modifies this`pages, frames.tree
      ensures Valid()
      ensures var k := Key(pd, va / PAGE_SIZE);
              && (fixed <==> (check ==> errorCode % 8 == 7) && k in old(pages) && old(pages)[k].zfod)
              && (fixed ==> exists f :: f in old(frames.Free()) && frames.Free() == old(frames.Free()) - {f}
                              && pages == old(pages)[k := old(pages)[k].(frame := f, zfod := false, rw := true)])
              && (!fixed ==> pages == old(pages) && frames.Free() == old(frames.Free()))
    {
      hide SegTree.Sound, SegTree.IsFree, UserWrite, Marked, Balanced, Real;
      UserWriteIff(errorCode);
      if check && !UserWrite(errorCode) {
        return false;
      }
      var k := Key(pd, va / PAGE_SIZE);
      if k !in pages || !pages[k].zfod {
        return false;
      }
      ghost var free, before := frames.Free(), pages;
      FrameForPage(left, free, pages, total, k);
      NoLapic(left, free, pages, total, 0, lapic);
      var ok, frame := GetFrame();
      assert ok;
      var e := pages[k].(frame := frame, zfod := false, rw := true);
      ResolveZfod(left, free, pages, total, 0, k, e);
      pages := pages[k := e];
      MarksKept(before, pages);
      return true;
    }

    /** Free the frame of a mapped page, if it has one, return its reservation unless that is done elsewhere,
        and clear its entry. */
    method UnmapOne(k: Key, unreserve: bool, ghost owed: nat)
      requires frames.Valid() && total <= 32 * frames.size && k in pages
      requires Balanced(left + owed, frames.Free(), pages, total, 0)
      modifies this, frames.tree
      ensures frames.Valid()
      ensures Balanced(left + owed + (if unreserve then 0 else 1), frames.Free(), pages, total, 0)
      ensures left == old(left) + (if unreserve then 1 else 0) && pages == old(pages) - {k}
      ensures frames.Free() == old(frames.Free()) + FramesOf(old(pages), {k})
    {
      Unmap(left + owed, frames.Free(), pages, total, 0, k);
      assert !pages[k].zfod ==> k in Real(pages);
      assert FramesOf(pages, {k}) == if pages[k].zfod then {} else {pages[k].frame};
      if !pages[k].zfod {
        frames.PutBack(pages[k].frame);
      }
      if unreserve {
        left := left + 1;
      }
      pages := pages - {k};
    }

    /** `remove_region`: if `va` is the start of a new_pages() region, that region is removed, all of it
        and nothing else; otherwise nothing happens. */
    method RemoveRegion(pd: nat, va: nat) returns (st: Status)
      requires Valid() && va < UINT32
      modifies this, frames.tree
      ensures Valid()
      ensures st in {OK, ErrBaseNotPrev}
      ensures var k := Key(pd, va / PAGE_SIZE); st == OK <==> k in old(pages) && old(pages)[k].first
      ensures st != OK ==> pages == old(pages) && left == old(left) && frames.Free() == old(frames.Free())
      ensures st == OK ==> exists hi ::
        && IsRegion(old(pages), pd, va / PAGE_SIZE, hi)
        && RegionGone(old(pages), old(left), old(frames.Free()), pd, va / PAGE_SIZE, hi)
    {
      hide Balanced, Real, SegTree.Sound, SegTree.IsFree, FramesOf, Span;
      var lo := va / PAGE_SIZE;
      var page := lo;
      if Key(pd, page) !in pages || !pages[Key(pd, page)].first {
        return ErrBaseNotPrev;
      }
      ghost var before := pages;
      ghost var hi: nat :| IsRegion(pages, pd, lo, hi);
      ghost var free := frames.Free();
      PartStart(before, pd, lo, free);
      var finished := false;
      while !finished
        invariant lo <= page <= hi + 1
        invariant finished <==> page == hi + 1
        invariant frames.Valid()
        invariant Balanced(left, frames.Free(), pages, total, 0)
        invariant left == old(left) + page - lo
        invariant pages == before - Span(pd, lo, page)
        invariant frames.Free() == free + FramesOf(before, Span(pd, lo, page))
        decreases hi + 1 - page
      {
        var k := Key(pd, page);
        MarksAt(before, pd, lo, hi, page);
        PartStep(before, pages, pd, lo, page, free, frames.Free());
        if k !in pages {
          return ErrBaseNotPrev;
        }
        finished := pages[k].last;
        UnmapOne(k, true, 0);
        page := page + 1;
      }
      RegionRemoved(before, pages, pd, lo, hi);
      assert RegionGone(before, old(left), free, pd, lo, hi);
      return OK;
    }

    /** The state after the region `lo..hi` has been removed from the given one. */
    ghost predicate RegionGone(before: Pages, beforeLeft: int, free: set<nat>, pd: nat, lo: nat, hi: nat)
      reads this, frames, frames.tree
    {
      && lo <= hi
      && pages == before - Span(pd, lo, hi + 1)
      && left == beforeLeft + (hi - lo + 1)
      && frames.Free() == free + FramesOf(before, Span(pd, lo, hi + 1))
    }

    /** `free_space`: the frames of a user address space, with their reservations unless those are returned
        elsewhere. Of kernel space, which is shared, nothing is freed. */
    method FreeSpace(pd: nat, kernelSpace: bool, unreserve: bool)
      requires Valid()
      modifies this, frames.tree
      ensures kernelSpace ==> pages == old(pages) && left == old(left) && frames.Free() == old(frames.Free())
      ensures !kernelSpace ==> forall k :: k in pages <==> k in old(pages) && k.pd != pd
      ensures forall k :: k in pages ==> pages[k] == old(pages)[k]
      ensures left == old(left) + (if unreserve then |old(pages)| - |pages| else 0)
      ensures Valid() <==> unreserve || |pages| == |old(pages)|
    {
      hide Balanced, Real, SegTree.Sound, SegTree.IsFree, Marked, FramesOf, GoneBelow;
      CounterIs(left, frames.Free(), pages, total);
      if kernelSpace {
        return;
      }
      ghost var before := pages;
      ghost var owed := FreePages(pd, unreserve);
      SpaceGone(before, pages, pd);
      SpaceRemoved(before, pages, pd);
      CounterIs(left + owed, frames.Free(), pages, total);
      OnlyOneCounter(left, owed, frames.Free(), pages, total);
    }

    /** The loop over the pages of an address space. `owed` is what the counter falls short by. */
    method FreePages(pd: nat, unreserve: bool) returns (ghost owed: nat)
      requires Valid()
      modifies this, frames.tree
      ensures frames.Valid() && Balanced(left + owed, frames.Free(), pages, total, 0)
      ensures GoneBelow(old(pages), pages, pd, PAGES)
      ensures if unreserve then owed == 0 else left == old(left)
    {
      hide Balanced, Real, SegTree.Sound, SegTree.IsFree, Marked, FramesOf, GoneBelow;
      ghost var before := pages;
      owed := 0;
      SpaceStart(before, pd);
      var page := USER_PAGE;
      while page < PAGES
        invariant USER_PAGE <= page <= PAGES
        invariant frames.Valid()
        invariant Balanced(left + owed, frames.Free(), pages, total, 0)
        invariant if unreserve then owed == 0 else left == old(left)
        invariant GoneBelow(before, pages, pd, page)
      {
        ghost var now := pages;
        owed := FreePage(Key(pd, page), unreserve, owed);
        PageGone(before, now, pages, pd, page);
        page := page + 1;
      }
    }

    method FreePage(k: Key, unreserve: bool, ghost owed: nat) returns (ghost owed': nat)
      requires frames.Valid() && total <= 32 * frames.size && Balanced(left + owed, frames.Free(), pages, total, 0)
      modifies this, frames.tree
      ensures frames.Valid() && Balanced(left + owed', frames.Free(), pages, total, 0)
      ensures pages == old(pages) - {k}
      ensures if unreserve then owed' == owed else left == old(left)
    {
      hide Balanced, Real, SegTree.Sound, SegTree.IsFree, FramesOf;
      owed' := owed;
      if k in pages {
        UnmapOne(k, unreserve, owed);
        owed' := owed + if unreserve then 0 else 1;
      } else {
        assert pages == pages - {k};
      }
    }
  }

  /** The pages of `pd` below `page` are gone, and no others. */
  ghost predicate GoneBelow(before: Pages, pages: Pages, pd: nat, page: nat) {
    && (forall k :: k in pages <==> k in before && !(k.pd == pd && k.page < page))
    && (forall k :: k in pages ==> pages[k] == before[k])
  }

  lemma SpaceStart(pages: Pages, pd: nat)
    requires forall k :: k in pages ==> USER_PAGE <= k.page < PAGES
    ensures GoneBelow(pages, pages, pd, USER_PAGE)
  {
  }

  lemma SpaceGone(before: Pages, pages: Pages, pd: nat)
    requires GoneBelow(before, pages, pd, PAGES) && forall k :: k in before ==> USER_PAGE <= k.page < PAGES
    ensures forall k :: k in pages <==> k in before && k.pd != pd
    ensures forall k :: k in pages ==> pages[k] == before[k]
  {
  }

  lemma PageGone(before: Pages, now: Pages, pages: Pages, pd: nat, page: nat)
    requires GoneBelow(before, now, pd, page) && pages == now - {Key(pd, page)}
    ensures GoneBelow(before, pages, pd, page + 1)
  {
  }

  lemma OnlyOneCounter(left: int, owed: nat, free: set<nat>, pages: Pages, total: nat)
    requires Balanced(left + owed, free, pages, total, 0)
    ensures Balanced(left, free, pages, total, 0) <==> owed == 0
  {
  }

  lemma PartStart(before: Pages, pd: nat, lo: nat, free: set<nat>)
    ensures before == before - Span(pd, lo, lo)
    ensures free == free + FramesOf(before, Span(pd, lo, lo))
  {
    assert Span(pd, lo, lo) == {};
    assert FramesOf(before, {}) == {};
  }

  /** One more page of a region removed. */
  lemma PartStep(before: Pages, pages: Pages, pd: nat, lo: nat, page: nat, free: set<nat>, freeNow: set<nat>)
    requires lo <= page && Key(pd, page) in before && pages == before - Span(pd, lo, page)
    requires freeNow == free + FramesOf(before, Span(pd, lo, page))
    ensures Key(pd, page) in pages && pages[Key(pd, page)] == before[Key(pd, page)]
    ensures pages - {Key(pd, page)} == before - Span(pd, lo, page + 1)
    ensures freeNow + FramesOf(pages, {Key(pd, page)}) == free + FramesOf(before, Span(pd, lo, page + 1))
  {
    var k := Key(pd, page);
    SpanStep(before, pd, lo, page);
    assert k !in Span(pd, lo, page);
    assert FramesOf(pages, {k}) == FramesOf(before, {k});
  }

  lemma SpanStep(pages: Pages, pd: nat, lo: nat, page: nat)
    requires lo <= page
    ensures Span(pd, lo, page + 1) == Span(pd, lo, page) + {Key(pd, page)}
    ensures FramesOf(pages, Span(pd, lo, page + 1))
         == FramesOf(pages, Span(pd, lo, page)) + FramesOf(pages, {Key(pd, page)})
  {
    assert Span(pd, lo, page + 1) == Span(pd, lo, page) + {Key(pd, page)};
  }

  /** What callers of `new_region` may ask for: user memory, or nothing at all. */
  predicate AsksForUserPages(va: nat, size: nat) {
    && va < UINT32
    && (size > 0 || va % PAGE_SIZE != 0 ==> USER_PAGE * PAGE_SIZE <= va && va + size <= UINT32)
  }

  /** The pages from that of the first byte to that of the last, which for a size of 0 is the byte before
      the first: at a page boundary the count of pages wraps to all 2^20. Those of the kernel are mapped in
      every address space, so the others are all of user space. */
  function FirstPage(va: nat, size: nat): nat {
    if size == 0 && va % PAGE_SIZE == 0 then USER_PAGE else va / PAGE_SIZE
  }

  function LastPage(va: nat, size: nat): int {
    if size == 0 && va % PAGE_SIZE == 0 then PAGES - 1 else (va + size - 1) / PAGE_SIZE
  }

  /** Page `p` holds one of the bytes `va .. va + size - 1`. */
  predicate HoldsByteOf(p: nat, va: nat, size: nat) {
    p * PAGE_SIZE < va + size && va < (p + 1) * PAGE_SIZE
  }

  ghost predicate BytesMapped(pages: Pages, pd: nat, va: nat, size: nat) {
    forall x :: va <= x < va + size ==> Key(pd, x / PAGE_SIZE) in pages
  }

  ghost predicate SomeByteMapped(pages: Pages, pd: nat, va: nat, size: nat) {
    exists x :: va <= x < va + size && Key(pd, x / PAGE_SIZE) in pages
  }

  /** The pages from first to last are exactly those of the bytes asked for. */
  lemma PagesOfBytes(va: nat, size: nat)
    ensures size > 0 ==> forall p: nat :: FirstPage(va, size) <= p <= LastPage(va, size) ==> HoldsByteOf(p, va, size)
    ensures size == 0 && va % PAGE_SIZE != 0 ==> FirstPage(va, size) == va / PAGE_SIZE == LastPage(va, size)
  {
    forall p: nat | size > 0 && FirstPage(va, size) <= p <= LastPage(va, size)
      ensures HoldsByteOf(p, va, size)
    {
      var x := ByteIn(va, size, p);
    }
  }

  lemma AllBytes(pages: Pages, pd: nat, va: nat, size: nat)
    requires size > 0 ==> forall p :: FirstPage(va, size) <= p <= LastPage(va, size) ==> Key(pd, p) in pages
    ensures BytesMapped(pages, pd, va, size)
  {
    forall x | va <= x < va + size
      ensures Key(pd, x / PAGE_SIZE) in pages
    {
      PagesAscend(va, x);
      PagesAscend(x, va + size - 1);
    }
  }

  lemma SomeByteIff(pages: Pages, pd: nat, va: nat, size: nat)
    ensures size > 0 ==> (SomeByteMapped(pages, pd, va, size) <==>
      exists p :: FirstPage(va, size) <= p <= LastPage(va, size) && Key(pd, p) in pages)
  {
    if size > 0 {
      forall p: nat | FirstPage(va, size) <= p <= LastPage(va, size) && Key(pd, p) in pages
        ensures SomeByteMapped(pages, pd, va, size)
      {
        var x := ByteIn(va, size, p);
        assert Key(pd, x / PAGE_SIZE) in pages;
      }
      if x :| va <= x < va + size && Key(pd, x / PAGE_SIZE) in pages {
        PagesAscend(va, x);
        PagesAscend(x, va + size - 1);
      }
    }
  }

  lemma PagesAscend(x: nat, y: nat)
    requires x <= y
    ensures x / PAGE_SIZE <= y / PAGE_SIZE
  {
  }

  lemma ByteIn(va: nat, size: nat, p: nat) returns (x: nat)
    requires size > 0 && va / PAGE_SIZE <= p <= (va + size - 1) / PAGE_SIZE
    ensures HoldsByteOf(p, va, size) && va <= x < va + size && x / PAGE_SIZE == p
  {
    x := if p * PAGE_SIZE < va then va else p * PAGE_SIZE;
    assert x / PAGE_SIZE == p;
  }

  lemma PageBounds(va: nat, size: nat)
    requires AsksForUserPages(va, size)
    ensures USER_PAGE <= FirstPage(va, size) <= LastPage(va, size) < PAGES
    ensures size == 0 && va % PAGE_SIZE == 0 ==> FirstPage(va, size) == USER_PAGE && LastPage(va, size) == PAGES - 1
  {
  }

  /** The mapped pages of one address space in a range. */
  ghost function Mapped(pages: Pages, pd: nat, lo: nat, hi: nat): set<Key> {
    set k | k in pages && k.pd == pd && lo <= k.page < hi
  }

  lemma {:induction false} MissingRest(pages: Pages, pd: nat, lo: nat, hi: nat)
    requires lo <= hi
    ensures Missing(pages, pd, lo, hi) + |Mapped(pages, pd, lo, hi)| == hi - lo
    decreases hi - lo
  {
    if lo < hi {
      MissingRest(pages, pd, lo + 1, hi);
      if Key(pd, lo) in pages {
        assert Mapped(pages, pd, lo, hi) == Mapped(pages, pd, lo + 1, hi) + {Key(pd, lo)};
      } else {
        assert Mapped(pages, pd, lo, hi) == Mapped(pages, pd, lo + 1, hi);
      }
    } else {
      assert Mapped(pages, pd, lo, hi) == {};
    }
  }

  /** With fewer frames than user pages, all of user space can never be reserved. */
  lemma EmptySegment(left: int, free: set<nat>, pages: Pages, total: nat, pd: nat)
    requires Balanced(left, free, pages, total, 0)
    ensures total < PAGES - USER_PAGE ==> Missing(pages, pd, USER_PAGE, PAGES) > left
  {
    CounterIs(left, free, pages, total);
    MissingRest(pages, pd, USER_PAGE, PAGES);
    SubsetSize(Mapped(pages, pd, USER_PAGE, PAGES), pages.Keys);
  }

  lemma FrameForPage(left: int, free: set<nat>, pages: Pages, total: nat, k: Key)
    requires Balanced(left, free, pages, total, 0) && k in pages && pages[k].zfod
    ensures free != {}
  {
    FreeCoversReservations(left, free, pages, total, 0);
    assert k in pages.Keys - Real(pages);
  }

  lemma NoLapic(left: int, free: set<nat>, pages: Pages, total: nat, pending: nat, lapic: nat)
    requires Balanced(left, free, pages, total, pending) && total <= lapic
    ensures lapic !in free && free - {lapic} == free
  {
  }

  /** Some of the `free` frames are taken and some left; only `lapic` may be neither. */
  ghost predicate Parts(free: set<nat>, taken: set<nat>, rest: set<nat>, lapic: nat) {
    lapic !in taken && forall f: nat :: f != lapic ==> (f in free <==> f in taken || f in rest)
  }

  lemma AllLeft(free: set<nat>, lapic: nat)
    ensures Parts(free, {}, free, lapic)
  {
  }

  lemma TookOne(free: set<nat>, taken: set<nat>, rest: set<nat>, rest': set<nat>, lapic: nat, ok: bool, frame: nat)
    requires Parts(free, taken, rest, lapic)
    requires ok <==> rest - {lapic} != {}
    requires if ok
             then frame in rest && frame != lapic && rest' == rest - {frame} - (if lapic < frame then {lapic} else {})
             else rest' == {}
    ensures Parts(free, if ok then taken + {frame} else taken, rest', lapic)
    ensures ok ==> |rest'| < |rest|
  {
    if ok {
      SmallerSet(rest', rest, frame);
    } else {
      assert forall f :: f in rest ==> f in rest - {lapic} || f == lapic;
    }
  }

  lemma OneShort(left: int, free: set<nat>, taken: set<nat>, pages: Pages, total: nat, lapic: nat)
    requires Parts(free, taken, {}, lapic)
    ensures taken == free - {lapic} && |taken| == |free| - if lapic in free then 1 else 0
    ensures Balanced(left, free, pages, total, 0) && lapic in free ==> |taken| + |Real(pages)| == total - 1
  {
    assert taken == free - {lapic};
    assert lapic !in free ==> free - {lapic} == free;
  }

  lemma SmallerSet(a: set<nat>, b: set<nat>, f: nat)
    requires a <= b && f in b - a
    ensures |a| < |b|
  {
    assert a + (b - a) == b;
  }

  lemma SubsetSize(a: set<Key>, b: set<Key>)
    requires a <= b
    ensures |a| <= |b|
  {
    assert b == a + (b - a);
  }

  lemma SpanOf(base: nat, len: nat)
    requires base % PAGE_SIZE == 0 && len > 0 && len % PAGE_SIZE == 0
    ensures FirstPage(base, len) == base / PAGE_SIZE && LastPage(base, len) == base / PAGE_SIZE + len / PAGE_SIZE - 1
  {
    RegionPages(base, len);
  }

  lemma RegionPages(base: nat, len: nat)
    requires base % PAGE_SIZE == 0 && len > 0 && len % PAGE_SIZE == 0
    ensures (base + len - 1) / PAGE_SIZE == base / PAGE_SIZE + len / PAGE_SIZE - 1
  {
  }

  lemma {:induction false} CountBelow(s: set<nat>, n: nat)
    requires forall f: nat :: f in s <==> f < n
    ensures |s| == n
  {
    if n == 0 {
      assert s == {};
    } else {
      CountBelow(s - {n - 1}, n - 1);
    }
  }

  // ----- new_pages() undone by remove_pages()

  /** A fault inside a region changes neither its shape nor the pages around it, and moves one frame
      from the free set to the region. */
  lemma FaultInside(before: Pages, pages: Pages, pages': Pages, pd: nat, lo: nat, hi: nat, page: nat, free: set<nat>,
                    free': set<nat>, f: nat)
    requires IsRegion(pages, pd, lo, hi) && pages - Span(pd, lo, hi + 1) == before && lo <= page <= hi
    requires pages[Key(pd, page)].zfod && f in free && free' == free - {f}
    requires pages' == pages[Key(pd, page) := pages[Key(pd, page)].(frame := f, zfod := false, rw := true)]
    ensures IsRegion(pages', pd, lo, hi) && pages' - Span(pd, lo, hi + 1) == before
    ensures free' + FramesOf(pages', Span(pd, lo, hi + 1)) == free + FramesOf(pages, Span(pd, lo, hi + 1))
  {
    var k := Key(pd, page);
    assert k in Span(pd, lo, hi + 1);
    var a, b := FramesOf(pages, Span(pd, lo, hi + 1)), FramesOf(pages', Span(pd, lo, hi + 1));
    assert pages'[k].frame == f && f in b;
    forall g | g in a ensures g in b {
      var j :| j in Span(pd, lo, hi + 1) && j in pages && !pages[j].zfod && pages[j].frame == g;
      assert pages'[j] == pages[j];
    }
    assert b == a + {f};
  }

  lemma NoFramesYet(pages: Pages, keys: set<Key>)
    requires forall k :: k in keys && k in pages ==> pages[k].zfod
    ensures FramesOf(pages, keys) == {}
  {
  }

  /** new_pages(), any number of faults inside the new region, then remove_pages() of the same base:
      the mapping, the counter and the free frames are what they were before. */
  method NewFaultRemove(core: Core, pd: nat, base: nat, len: int, faults: seq<nat>, codes: seq<nat>)
    returns (st: Status)
    requires core.Valid() && base < UINT32 && -0x8000_0000 <= len < 0x8000_0000
    requires |codes| == |faults| && forall i :: 0 <= i < |faults| ==>
      base <= faults[i] < base + len && faults[i] < UINT32
    modifies core, core.frames.tree
    ensures core.Valid()
    ensures core.pages == old(core.pages) && core.left == old(core.left)
    ensures core.frames.Free() == old(core.frames.Free())
  {
    hide Balanced, Real, SegTree.Sound, SegTree.IsFree, FramesOf, Span;
    st := core.NewPages(pd, base, len);
    if st != OK {
      return;
    }
    ghost var before, left, free := old(core.pages), core.left, core.frames.Free();
    ghost var lo: nat, hi: nat := base / PAGE_SIZE, base / PAGE_SIZE + len / PAGE_SIZE - 1;
    RegionIsZfod(core.pages, pd, lo, hi);
    var i := 0;
    while i < |faults|
      invariant 0 <= i <= |faults|
      invariant core.Valid() && core.left == left
      invariant IsRegion(core.pages, pd, lo, hi) && core.pages - Span(pd, lo, hi + 1) == before
      invariant core.frames.Free() + FramesOf(core.pages, Span(pd, lo, hi + 1)) == free
    {
      ghost var pages, freeNow := core.pages, core.frames.Free();
      FaultPage(base, len, faults[i]);
      var fixed := core.ResolveFault(pd, faults[i], codes[i], true);
      if fixed {
        ghost var k := Key(pd, faults[i] / PAGE_SIZE);
        ghost var f :| f in freeNow && core.frames.Free() == freeNow - {f}
                       && core.pages == pages[k := pages[k].(frame := f, zfod := false, rw := true)];
        FaultInside(before, pages, core.pages, pd, lo, hi, faults[i] / PAGE_SIZE, freeNow, core.frames.Free(), f);
      }
      i := i + 1;
    }
    ghost var pages, freeNow := core.pages, core.frames.Free();
    MarksAt(pages, pd, lo, hi, lo);
    st := core.RemoveRegion(pd, base);
    ghost var hi': nat :| IsRegion(pages, pd, lo, hi') && core.RegionGone(pages, left, freeNow, pd, lo, hi');
    RegionsDisjoint(pages, pd, lo, hi, lo, hi', lo);
  }

  lemma RegionIsZfod(pages: Pages, pd: nat, lo: nat, hi: nat)
    requires lo <= hi && forall p :: lo <= p <= hi ==> Key(pd, p) in pages && pages[Key(pd, p)].zfod
    ensures FramesOf(pages, Span(pd, lo, hi + 1)) == {}
  {
    NoFramesYet(pages, Span(pd, lo, hi + 1));
  }

  lemma FaultPage(base: nat, len: nat, va: nat)
    requires base % PAGE_SIZE == 0 && len > 0 && len % PAGE_SIZE == 0 && base <= va < base + len
    ensures base / PAGE_SIZE <= va / PAGE_SIZE <= base / PAGE_SIZE + len / PAGE_SIZE - 1
  {
  }

  // ----- any sequence of operations

  datatype Op =
    | OpRegion(pd: nat, va: nat, size: nat, rw: bool, zfod: bool)
    | OpNewPages(pd: nat, va: nat, len: int)
    | OpFault(pd: nat, va: nat, errorCode: nat, check: bool)
    | OpRemove(pd: nat, va: nat)
    | OpFreeSpace(pd: nat, kernelSpace: bool)

  predicate OpOk(op: Op) {
    match op
    case OpRegion(_, va, size, _, _) => AsksForUserPages(va, size)
    case OpNewPages(_, va, len) => va < UINT32 && -0x8000_0000 <= len < 0x8000_0000
    case OpFault(_, va, _, _) => va < UINT32
    case OpRemove(_, va) => va < UINT32
    case OpFreeSpace(_, _) => true
  }

  /** After any sequence of operations the books balance: the counter and the mapped pages add up to
      the frames of the core, and so do the free frames and the pages that own one. */
  method RunAll(core: Core, ops: seq<Op>)
    requires core.Valid() && forall i :: 0 <= i < |ops| ==> OpOk(ops[i])
    modifies core, core.frames.tree
    ensures core.Valid()
    ensures core.left + |core.pages| == core.total && |core.frames.Free()| + |Real(core.pages)| == core.total
  {
    for i := 0 to |ops|
      invariant core.Valid()
    {
      match ops[i]
      case OpRegion(pd, va, size, rw, zfod) => var st := core.NewRegion(pd, va, size, rw, false, zfod);
      case OpNewPages(pd, va, len) => var st := core.NewPages(pd, va, len);
      case OpFault(pd, va, code, check) => var fixed := core.ResolveFault(pd, va, code, check);
      case OpRemove(pd, va) => var st := core.RemoveRegion(pd, va);
      case OpFreeSpace(pd, kernel) => core.FreeSpace(pd, kernel, true);
    }
  }
}
