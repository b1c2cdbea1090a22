/** SOLUTIONS/s_35/lab2_block.c: the request loop of a ramdisk block driver.  The
    block layer hands over requests of one or more chunks; after each chunk the loop
    ends it and goes on with the rest of the request or with the next one.  It hands
    over only what lies within the capacity that the driver has announced.

    Sectors and byte offsets are unsigned ints.  Addresses have 64 bits, except where
    an Arch says otherwise. */
module BlockDevice {
  import opened Options

  const SECTOR_SIZE := 512
  const U32 := 0x1_0000_0000
  const INT_LIMIT := 0x8000_0000

  /** One chunk as a value: what it asks for and the contents of its buffer. */
  datatype Chunk = Chunk(isFs: bool, write: bool, sector: nat, data: seq<bv8>)

  /** `sector * sector_size`, in unsigned ints. */
  function Offset(sector: nat): nat {
    sector % U32 * SECTOR_SIZE % U32
  }

  /** The test that the loop performs. */
  predicate Accepted(size: nat, c: Chunk) {
    c.isFs && Offset(c.sector) + |c.data| <= size
  }

  /** The chunk lies on the device. */
  predicate OnDevice(size: nat, c: Chunk) {
    c.sector * SECTOR_SIZE + |c.data| <= size
  }

  datatype Arch = Bits32 | Bits64

  function AddressLimit(a: Arch): nat {
    match a
    case Bits32 => U32
    case Bits64 => U32 * U32
  }

  /** The test as the machine performs it: `ptr + size` wraps at the address limit. */
  predicate Passes(a: Arch, ramdisk: nat, size: nat, c: Chunk) {
    c.isFs && (ramdisk + Offset(c.sector) + |c.data|) % AddressLimit(a) <= ramdisk + size
  }

  /** The memory of a ramdisk of `size` bytes at address `ramdisk`, with room behind it
      for an offset to be added where addresses are wide. */
  predicate Placed(a: Arch, ramdisk: nat, size: nat) {
    size < INT_LIMIT && ramdisk + size < AddressLimit(a) && (a == Bits64 ==> ramdisk + 2 * U32 < AddressLimit(a))
  }

  /** set_capacity(my_gd, disk_size / sector_size) */
  predicate WithinCapacity(size: nat, c: Chunk) {
    c.sector + |c.data| / SECTOR_SIZE <= size / SECTOR_SIZE && |c.data| % SECTOR_SIZE == 0
  }

  /** Within the capacity the arithmetic is exact: on either machine no chunk of a file
      system request is refused, and none is served at a wrapped address. */
  lemma CapacityIsEnough(a: Arch, ramdisk: nat, size: nat, c: Chunk)
    requires Placed(a, ramdisk, size) && WithinCapacity(size, c)
    ensures Offset(c.sector) == c.sector * SECTOR_SIZE && OnDevice(size, c)
    ensures Passes(a, ramdisk, size, c) <==> Accepted(size, c)
    ensures Accepted(size, c) <==> c.isFs
  {
    var n := |c.data| / SECTOR_SIZE;
    assert (c.sector + n) * SECTOR_SIZE <= size;
    assert |c.data| == n * SECTOR_SIZE;
    assert c.sector % U32 == c.sector;
  }

  /** Beyond it, a 32-bit machine takes the test of a 64-bit one exactly unless the end
      of the chunk wraps to an address no higher than the end of the ramdisk. */
  lemma NarrowTestIff(ramdisk: nat, size: nat, c: Chunk)
    requires Placed(Bits32, ramdisk, size) && c.isFs && |c.data| < INT_LIMIT
    ensures var end := ramdisk + Offset(c.sector) + |c.data|;
            (Passes(Bits32, ramdisk, size, c) <==> Accepted(size, c)) <==>
            !(U32 <= end <= ramdisk + size + U32 || 2 * U32 <= end <= ramdisk + size + 2 * U32)
  {
    var end := ramdisk + Offset(c.sector) + |c.data|;
    assert end < 3 * U32;
    WrapThree(end);
  }

  lemma WrapThree(n: nat)
    requires n < 3 * U32
    ensures n % U32 == if n < U32 then n else if n < 2 * U32 then n - U32 else n - 2 * U32
  {
  }

  /** The test by itself, without the capacity: on every disk and for every chunk it is
      right exactly for the sectors whose byte address fits in 32 bits, and for those
      beyond whose wrapped address is past the end of any disk an int can measure. */
  lemma RangeTestExactIff(sector: nat)
    ensures (forall size: nat, c: Chunk |
               size < INT_LIMIT && c.isFs && c.sector == sector && |c.data| >= SECTOR_SIZE ::
               Accepted(size, c) <==> OnDevice(size, c))
            <==> (sector < 0x80_0000 || Offset(sector) + SECTOR_SIZE >= INT_LIMIT)
  {
    if sector < 0x80_0000 {
      assert sector % U32 == sector;
    } else if Offset(sector) + SECTOR_SIZE < INT_LIMIT {
      var c := WrappedChunk(sector);
      assert !(Accepted(Offset(sector) + SECTOR_SIZE, c) <==> OnDevice(Offset(sector) + SECTOR_SIZE, c));
    }
  }

  /** A chunk beyond the end that the test alone would take for one on the device; no
      disk has the capacity for it. */
  lemma WrappedChunk(sector: nat) returns (c: Chunk)
    requires sector >= 0x80_0000
    ensures c.isFs && |c.data| == SECTOR_SIZE && c.sector == sector
    ensures forall size | Offset(sector) + SECTOR_SIZE <= size < INT_LIMIT ::
              Accepted(size, c) && !OnDevice(size, c) && !WithinCapacity(size, c)
  {
    c := Chunk(true, true, sector, seq(SECTOR_SIZE, _ => 0));
  }

  // ------------------------------------------------------------ what should happen

  function DiskAfterOne(disk: seq<bv8>, c: Chunk): seq<bv8> {
    if c.write && Accepted(|disk|, c) then
      disk[..Offset(c.sector)] + c.data + disk[Offset(c.sector) + |c.data|..]
    else disk
  }

  function DiskAfter(disk: seq<bv8>, cs: seq<Chunk>): (after: seq<bv8>)
    ensures |after| == |disk|
  {
    if cs == [] then disk else DiskAfterOne(DiskAfter(disk, cs[..|cs| - 1]), cs[|cs| - 1])
  }

  /** The buffer of chunk i at the end. */
  function BufferAfter(disk: seq<bv8>, cs: seq<Chunk>, i: nat): seq<bv8>
    requires i < |cs|
  {
    var c := cs[i];
    if !c.write && Accepted(|disk|, c) then
      DiskAfter(disk, cs[..i])[Offset(c.sector)..Offset(c.sector) + |c.data|]
    else c.data
  }

  /** An independent reading of the same: a byte of the disk holds what the last
      accepted write that covers it stored there, or else what it held before. */
  function ByteAfter(disk: seq<bv8>, cs: seq<Chunk>, k: nat): bv8
    requires k < |disk|
  {
    if cs == [] then disk[k] else
    var c := cs[|cs| - 1];
    if c.write && Accepted(|disk|, c) && Offset(c.sector) <= k < Offset(c.sector) + |c.data|
    then c.data[k - Offset(c.sector)]
    else ByteAfter(disk, cs[..|cs| - 1], k)
  }

  /** The in-order fold of the writes is the last-writer memory, byte by byte. */
  lemma {:induction false} LastWriterWins(disk: seq<bv8>, cs: seq<Chunk>, k: nat)
    requires k < |disk|
    ensures DiskAfter(disk, cs)[k] == ByteAfter(disk, cs, k)
  {
    if cs != [] {
      LastWriterWins(disk, cs[..|cs| - 1], k);
    }
  }

  /** The device as the block layer means it: true byte addresses, and no chunk on the
      device refused. */
  function PlainDiskAfterOne(disk: seq<bv8>, c: Chunk): (after: seq<bv8>)
    ensures |after| == |disk|
  {
    var at := c.sector * SECTOR_SIZE;
    if c.write && c.isFs && OnDevice(|disk|, c) then disk[..at] + c.data + disk[at + |c.data|..] else disk
  }

  function PlainDiskAfter(disk: seq<bv8>, cs: seq<Chunk>): (after: seq<bv8>)
    ensures |after| == |disk|
  {
    if cs == [] then disk else PlainDiskAfterOne(PlainDiskAfter(disk, cs[..|cs| - 1]), cs[|cs| - 1])
  }

  /** Whatever is asked for within the capacity, the loop is that device: neither the
      32-bit arithmetic nor the range test shows. */
  lemma {:induction false} CapacityGivesPlainDevice(disk: seq<bv8>, cs: seq<Chunk>)
    requires |disk| < INT_LIMIT && forall c <- cs :: WithinCapacity(|disk|, c)
    ensures forall c <- cs :: OnDevice(|disk|, c)
    ensures DiskAfter(disk, cs) == PlainDiskAfter(disk, cs)
  {
    forall c <- cs ensures OnDevice(|disk|, c) {
      CapacityIsEnough(Bits64, 0, |disk|, c);
    }
    if cs != [] {
      CapacityGivesPlainDevice(disk, cs[..|cs| - 1]);
      CapacityIsEnough(Bits64, 0, |disk|, cs[|cs| - 1]);
    }
  }

  /** And so is what it hands to the readers. */
  lemma CapacityGivesPlainReads(disk: seq<bv8>, before: seq<Chunk>, c: Chunk, after: seq<Chunk>)
    requires |disk| < INT_LIMIT && WithinCapacity(|disk|, c) && c.isFs && !c.write
    requires forall b <- before :: WithinCapacity(|disk|, b)
    ensures (forall b <- before :: OnDevice(|disk|, b)) && OnDevice(|disk|, c)
    ensures BufferAfter(disk, before + [c] + after, |before|) ==
            PlainDiskAfter(disk, before)[c.sector * SECTOR_SIZE..c.sector * SECTOR_SIZE + |c.data|]
  {
    CapacityIsEnough(Bits64, 0, |disk|, c);
    CapacityGivesPlainDevice(disk, before);
    ReadsWhatIsThere(disk, before, c, after);
  }

  lemma ReadsWhatIsThere(disk: seq<bv8>, before: seq<Chunk>, c: Chunk, after: seq<Chunk>)
    requires Accepted(|disk|, c) && !c.write
    ensures BufferAfter(disk, before + [c] + after, |before|) ==
            DiskAfter(disk, before)[Offset(c.sector)..Offset(c.sector) + |c.data|]
  {
    var all := before + [c] + after;
    assert all[..|before|] == before && all[|before|] == c;
  }

  /** Reading a range right after writing it gives it back. */
  lemma ReadAfterWrite(disk: seq<bv8>, cs: seq<Chunk>, w: Chunk, r: Chunk)
    requires w.write && !r.write && w.isFs && r.isFs && w.sector == r.sector && |w.data| == |r.data|
    ensures BufferAfter(disk, cs + [w, r], |cs| + 1) ==
            if Accepted(|disk|, w) then w.data else r.data
  {
    var all := cs + [w, r];
    assert all[..|cs| + 1][..|cs|] == cs && all[..|cs| + 1][|cs|] == w && all[|cs| + 1] == r;
  }
}
