/** The flat byte memory under the boundary-tag heap, and the words read and written in it. */
module HeapMemory {

  type byte = x: int | 0 <= x < 256

  const WORDS: nat := 0x1_0000_0000

  /** `GET(p)`: the little-endian word at `p`. */
  function Get(mem: seq<byte>, p: nat): (w: nat)
    requires p + 4 <= |mem|
    ensures w < WORDS
  {
    var a: int, b: int, c: int, d: int := mem[p], mem[p + 1], mem[p + 2], mem[p + 3];
    a + 0x100 * b + 0x1_0000 * c + 0x100_0000 * d
  }

  /** `PUT(p, w)`. */
  function Put(mem: seq<byte>, p: nat, w: nat): (r: seq<byte>)
    requires p + 4 <= |mem| && w < WORDS
    ensures |r| == |mem|
  {
    mem[p := w % 0x100][p + 1 := w / 0x100 % 0x100][p + 2 := w / 0x1_0000 % 0x100][p + 3 := w / 0x100_0000]
  }

  /** `m` and `n` agree except perhaps on `lo..hi`. */
  predicate SameOutside(m: seq<byte>, n: seq<byte>, lo: int, hi: int) {
    |m| == |n| && forall x :: 0 <= x < |m| && !(lo <= x < hi) ==> m[x] == n[x]
  }

  lemma GetPut(mem: seq<byte>, p: nat, w: nat)
    requires p + 4 <= |mem| && w < WORDS
    ensures Get(Put(mem, p, w), p) == w
    ensures SameOutside(mem, Put(mem, p, w), p, p + 4)
  {
    FourBytes(w);
  }

  lemma FourBytes(w: nat)
    requires w < WORDS
    ensures w / 0x100_0000 < 0x100
    ensures w == w % 0x100 + 0x100 * (w / 0x100 % 0x100)
                 + 0x1_0000 * (w / 0x1_0000 % 0x100) + 0x100_0000 * (w / 0x100_0000)
  {
    assert w / 0x1_0000 == w / 0x100 / 0x100;
    assert w / 0x100_0000 == w / 0x1_0000 / 0x100;
  }

  lemma GetSame(m: seq<byte>, n: seq<byte>, lo: int, hi: int, p: nat)
    requires SameOutside(m, n, lo, hi) && p + 4 <= |m| && (p + 4 <= lo || hi <= p)
    ensures Get(n, p) == Get(m, p)
  {
    assert forall k :: p <= k < p + 4 ==> m[k] == n[k];
  }

  lemma SameOutsideChain(a: seq<byte>, b: seq<byte>, c: seq<byte>, lo: int, mid: int, mid': int, hi: int)
    requires SameOutside(a, b, lo, mid) && SameOutside(b, c, mid', hi)
    requires lo <= mid' && mid <= hi
    ensures SameOutside(a, c, lo, hi)
  {
  }

  /** `PACK(size, alloc)` on a size that is a multiple of eight. */
  function Pack(size: nat, used: bool): nat {
    size + if used then 1 else 0
  }

  /** `GET_SIZE(p)`: the word with its low three bits cleared. */
  function SizeAt(mem: seq<byte>, p: nat): nat
    requires p + 4 <= |mem|
  {
    Get(mem, p) - Get(mem, p) % 8
  }

  /** `GET_ALLOC(p)`. */
  function UsedAt(mem: seq<byte>, p: nat): bool
    requires p + 4 <= |mem|
  {
    Get(mem, p) % 2 == 1
  }

  lemma Unpack(mem: seq<byte>, p: nat, size: nat, used: bool)
    requires p + 4 <= |mem| && size % 8 == 0 && Get(mem, p) == Pack(size, used)
    ensures SizeAt(mem, p) == size && UsedAt(mem, p) == used
  {
  }
}
