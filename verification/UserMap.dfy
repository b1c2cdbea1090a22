/** SOLUTIONS/s_18/lab2_usermap.c: read and write move data page by page between the
    ramdisk and the pages of a page-aligned user buffer.

    The source does not compare lbuf with the size of the ramdisk.  So `mem` is kernel
    memory from the first byte of the ramdisk on, of which the ramdisk is the first
    part.  A transfer is shorter than 2^31 bytes, as the kernel's read and write
    see to, and the memory that it touches is mapped. */
module UserMap {
  const PAGE_SIZE := 4096
  const U64 := 0x1_0000_0000_0000_0000
  const U32 := 0x1_0000_0000
  const INT_LIMIT := 0x8000_0000

  /** The conversion of an unsigned long to int. */
  function ToInt(n: nat): int {
    var m := n % U32;
    if m < INT_LIMIT then m else m - U32
  }

  /** `(lbuf - 1) / PAGE_SIZE + 1`, in size_t and then int. */
  function NPages(lbuf: nat): int {
    ToInt((lbuf - 1) % U64 / PAGE_SIZE + 1)
  }

  /** The pages counted are the pages touched; none for an empty buffer, although
      lbuf - 1 wraps then. */
  lemma NPagesExact(lbuf: nat)
    requires lbuf < INT_LIMIT
    ensures NPages(lbuf) >= 0
    ensures lbuf == 0 ==> NPages(lbuf) == 0
    ensures lbuf > 0 ==> (NPages(lbuf) - 1) * PAGE_SIZE < lbuf <= NPages(lbuf) * PAGE_SIZE
  {
    if lbuf == 0 {
      assert (lbuf - 1) % U64 == U64 - 1;
    } else {
      assert (lbuf - 1) % U64 == lbuf - 1;
    }
  }

  /** The bytes that the j-th turn of the loop copies, at offset j * PAGE_SIZE. */
  function ChunkLength(lbuf: nat, j: nat): nat {
    if j == NPages(lbuf) - 1 then (lbuf - 1) % PAGE_SIZE + 1 else PAGE_SIZE
  }

  /** No chunk leaves a ramdisk of `size` bytes exactly when lbuf does not exceed it,
      which is for the caller to see to: the source has no test. */
  lemma StaysInsideIff(lbuf: nat, size: nat)
    requires lbuf < INT_LIMIT
    ensures (forall j: nat | j < NPages(lbuf) :: j * PAGE_SIZE + ChunkLength(lbuf, j) <= size) <==> lbuf <= size
  {
    NPagesExact(lbuf);
    if lbuf > 0 {
      var last := NPages(lbuf) - 1;
      LastShare(lbuf, last);
      assert last * PAGE_SIZE + ChunkLength(lbuf, last) == lbuf;
    }
  }

  /** The user buffer as one flat memory. */
  ghost function Flat(pages: seq<array<bv8>>): seq<bv8>
    requires forall i :: 0 <= i < |pages| ==> pages[i].Length == PAGE_SIZE
    reads pages
  {
    seq(|pages| * PAGE_SIZE, k requires 0 <= k < |pages| * PAGE_SIZE
                               reads pages
                               requires forall i :: 0 <= i < |pages| ==> pages[i].Length == PAGE_SIZE
                             => pages[k / PAGE_SIZE][k % PAGE_SIZE])
  }

  ghost predicate Mapped(pages: seq<array<bv8>>, mem: array<bv8>) {
    && (forall i :: 0 <= i < |pages| ==> pages[i].Length == PAGE_SIZE && pages[i] != mem)
    && (forall i, j :: 0 <= i < j < |pages| ==> pages[i] != pages[j])
  }

  method Memcpy(dst: array<bv8>, to: nat, src: array<bv8>, from: nat, n: nat)
    requires dst != src && to + n <= dst.Length && from + n <= src.Length
    modifies dst
    ensures forall k :: to <= k < to + n ==> dst[k] == src[from + (k - to)]
    ensures forall k :: 0 <= k < dst.Length && !(to <= k < to + n) ==> dst[k] == old(dst[k])
  {
    forall k | 0 <= k < n {
      dst[to + k] := src[from + k];
    }
  }

  /** The loop of mycdrv_rw for rw == 0: the ramdisk goes to the user.  The lengths of
      the copies sum to lbuf, and byte o of page i comes from byte i * PAGE_SIZE + o. */
  method CopyOut(mem: array<bv8>, pages: seq<array<bv8>>, lbuf: nat, npages: nat) returns (moved: nat)
    requires Mapped(pages, mem) && lbuf <= mem.Length && lbuf < INT_LIMIT
    requires npages == NPages(lbuf) && |pages| == npages
    modifies pages
    ensures moved == lbuf
    ensures forall i, o :: 0 <= i < npages && 0 <= o < PAGE_SIZE ==>
              pages[i][o] == if i * PAGE_SIZE + o < lbuf then mem[i * PAGE_SIZE + o] else old(pages[i][o])
  {
    NPagesExact(lbuf);
    var nb, ktmp := PAGE_SIZE, 0;
    moved := 0;
    for j := 0 to npages
      invariant ktmp == j * PAGE_SIZE
      invariant moved == if j < npages then ktmp else lbuf
      invariant nb == PAGE_SIZE || j == npages
      invariant forall i, o :: 0 <= i < j && 0 <= o < PAGE_SIZE ==>
                  pages[i][o] == if i * PAGE_SIZE + o < lbuf then mem[i * PAGE_SIZE + o] else old(pages[i][o])
      invariant forall i, o :: j <= i < npages && 0 <= o < PAGE_SIZE ==> pages[i][o] == old(pages[i][o])
    {
      if j == npages - 1 {
        nb := (lbuf - 1) % PAGE_SIZE + 1;
        LastShare(lbuf, j);
      }
      assert nb == ChunkLength(lbuf, j);
      Memcpy(pages[j], 0, mem, ktmp, nb);
      moved := moved + nb;
      ktmp := ktmp + PAGE_SIZE;
    }
  }

  lemma LastShare(lbuf: nat, j: nat)
    requires j * PAGE_SIZE < lbuf <= (j + 1) * PAGE_SIZE
    ensures (lbuf - 1) % PAGE_SIZE + 1 == lbuf - j * PAGE_SIZE
  {
  }

  /** The loop for rw == 1: the user's bytes go to the ramdisk. */
  method CopyIn(mem: array<bv8>, pages: seq<array<bv8>>, lbuf: nat, npages: nat) returns (moved: nat)
    requires Mapped(pages, mem) && lbuf <= mem.Length && lbuf < INT_LIMIT
    requires npages == NPages(lbuf) && |pages| == npages
    modifies mem
    ensures moved == lbuf
    ensures forall i, o :: 0 <= i < npages && 0 <= o < PAGE_SIZE && i * PAGE_SIZE + o < lbuf ==>
              mem[i * PAGE_SIZE + o] == pages[i][o]
    ensures forall k :: lbuf <= k < mem.Length ==> mem[k] == old(mem[k])
  {
    NPagesExact(lbuf);
    var nb, ktmp := PAGE_SIZE, 0;
    moved := 0;
    for j := 0 to npages
      invariant ktmp == j * PAGE_SIZE
      invariant moved == if j < npages then ktmp else lbuf
      invariant nb == PAGE_SIZE || j == npages
      invariant forall i, o :: 0 <= i < j && 0 <= o < PAGE_SIZE && i * PAGE_SIZE + o < lbuf ==>
                  mem[i * PAGE_SIZE + o] == pages[i][o]
      invariant forall k :: moved <= k < mem.Length ==> mem[k] == old(mem[k])
    {
      if j == npages - 1 {
        nb := (lbuf - 1) % PAGE_SIZE + 1;
        LastShare(lbuf, j);
      }
      assert nb == ChunkLength(lbuf, j);
      Memcpy(mem, ktmp, pages[j], 0, nb);
      moved := moved + nb;
      ktmp := ktmp + PAGE_SIZE;
    }
  }

  /** mycdrv_rw is one flat copy: exactly the first lbuf bytes move, in the direction
      asked for, whatever number of pages they span; an unknown direction moves
      nothing, and lbuf is returned in every case. */
  method Rw(mem: array<bv8>, pages: seq<array<bv8>>, lbuf: nat, rw: int) returns (r: nat)
    requires Mapped(pages, mem) && lbuf <= mem.Length && lbuf < INT_LIMIT
    requires |pages| == NPages(lbuf)
    modifies mem, pages
    ensures r == lbuf <= |Flat(pages)|
    ensures Flat(pages) == if rw == 0 then mem[..lbuf] + old(Flat(pages))[lbuf..] else old(Flat(pages))
    ensures mem[..] == if rw == 1 then Flat(pages)[..lbuf] + old(mem[..])[lbuf..] else old(mem[..])
  {
    NPagesExact(lbuf);
    var npages := NPages(lbuf);
    if rw == 0 {
      var _ := CopyOut(mem, pages, lbuf, npages);
    } else if rw == 1 {
      var _ := CopyIn(mem, pages, lbuf, npages);
      forall k | 0 <= k < lbuf ensures mem[k] == Flat(pages)[k] {
        assert k == k / PAGE_SIZE * PAGE_SIZE + k % PAGE_SIZE;
      }
    }
    return lbuf;
  }
}
