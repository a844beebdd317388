/** What the kernel does with a pool at boot: the three regions of a PC's memory, and the removal of all
    memory that the kernel must not hand out. */
module LmmBoot {
  import opened FreeList
  import opened Lmm
  import opened LmmPool

  const USER_MEM_START: nat := 0x100_0000

  /** The three regions, the first of which starts at address 0. Priorities are unsigned words, so -2 and -1
      are the two largest: high memory, of priority 0, stands last. */
  method BootRegions() returns (pool: Pool)
    ensures Valid(pool.regions) && forall x :: !FreeAt(pool.regions, x)
    ensures pool.regions == [MIDDLE, LOW, HIGH]
  {
    hide Valid, FreeAt, AlignUp, AlignDown, Inserted, Apart;
    pool := new Pool();
    Nothing();
    Whole(0, 0);
    Whole(0x10_0000, 0x2_0000);
    Whole(0x100_0000, 0x20_0000);
    Whole(0xFFFF_FFF8, 0x1FFF_FFFF);
    Order();
    pool.AddRegion(0, 0x10_0000, 3, 0xFFFF_FFFE);
    pool.AddRegion(0x10_0000, 0xF0_0000, 2, 0xFFFF_FFFF);
    pool.AddRegion(0x100_0000, 0xFEFF_FFFF, 0, 0);
  }

  lemma Whole(x: nat, q: nat)
    requires x == 8 * q
    ensures AlignUp(x) == x && AlignDown(x) == x && AlignDown(x + 7) == x
  {
  }

  lemma Order()
    ensures Inserted([], LOW) == [LOW] && Inserted([LOW], MIDDLE) == [MIDDLE, LOW]
    ensures Inserted([MIDDLE, LOW], HIGH) == [MIDDLE, LOW, HIGH]
    ensures Apart(LOW, MIDDLE) && Apart(MIDDLE, HIGH) && Apart(LOW, HIGH)
  {
    assert [MIDDLE, LOW][1..] == [LOW] && [LOW][1..] == [];
    assert Inserted([LOW], HIGH) == [LOW] + Inserted([], HIGH);
  }

  const LOW := Region(0, 0x10_0000, 3, 0xFFFF_FFFE, 0, [])
  const MIDDLE := Region(0x10_0000, 0x100_0000, 2, 0xFFFF_FFFF, 0, [])
  const HIGH := Region(0x100_0000, 0xFFFF_FFF8, 0, 0, 0, [])

  lemma Nothing()
    ensures forall x :: !FreeAt([], x)
  {
  }

  /** `mb_entry` keeps the kernel's pool below user memory and above the first megabyte. */
  method KeepKernelMemory(pool: Pool)
    requires Valid(pool.regions)
    modifies pool
    ensures Valid(pool.regions) && SameFrames(old(pool.regions), pool.regions)
    ensures forall x :: FreeAt(pool.regions, x) <==> FreeAt(old(pool.regions), x) && 0x10_0000 <= x < USER_MEM_START
  {
    hide Valid, FreeAt, SameFrames;
    ghost var before := pool.regions;
    AllBelowTop(before);
    var ok := pool.RemoveFree(0, 0x10_0000);
    assert ok;
    ghost var between := pool.regions;
    ok := pool.RemoveFree(USER_MEM_START, 0x1_0000_0000 - 8 - USER_MEM_START);
    assert ok;
    FramesChain(before, between, pool.regions);
  }

  lemma AllBelowTop(rs: seq<Region>)
    requires Valid(rs)
    ensures forall x :: FreeAt(rs, x) ==> 0 <= x < TOP_SIZE
  {
    forall x | FreeAt(rs, x)
      ensures 0 <= x < TOP_SIZE
    {
      FreeBelowTop(rs, x);
    }
  }
}
