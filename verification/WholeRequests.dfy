/** Requests of the block layer as values: each asks for one stretch of the device, in
    as many chunks as its memory is scattered over.  That it is served chunk by chunk
    does not show. */
module WholeRequests {
  import opened BlockDevice
  import opened Sequences

  /** `datas`: what is in the buffers of the chunks. */
  datatype Asked = Asked(isFs: bool, write: bool, pos: nat, datas: seq<seq<bv8>>)

  function Flat(datas: seq<seq<bv8>>): seq<bv8> {
    if datas == [] then [] else Flat(datas[..|datas| - 1]) + datas[|datas| - 1]
  }

  lemma FlatMore(datas: seq<seq<bv8>>, i: nat)
    requires i < |datas|
    ensures Flat(datas[..i + 1]) == Flat(datas[..i]) + datas[i]
  {
    assert datas[..i + 1][..i] == datas[..i];
  }

  lemma {:induction false} FlatPrefix(datas: seq<seq<bv8>>, i: nat)
    requires i <= |datas|
    ensures |Flat(datas[..i])| <= |Flat(datas)|
    decreases |datas| - i
  {
    if i < |datas| {
      FlatMore(datas, i);
      FlatPrefix(datas, i + 1);
    } else {
      assert datas[..i] == datas;
    }
  }

  ghost predicate Whole(a: Asked) {
    forall i :: 0 <= i < |a.datas| ==> |a.datas[i]| % SECTOR_SIZE == 0
  }

  /** Within the capacity. */
  ghost predicate Inside(size: nat, a: Asked) {
    size < INT_LIMIT && a.pos * SECTOR_SIZE + |Flat(a.datas)| <= size
  }

  /** The chunks it is served in. */
  function ChunkOf(a: Asked, i: nat): Chunk
    requires i < |a.datas|
  {
    Chunk(a.isFs, a.write, a.pos + |Flat(a.datas[..i])| / SECTOR_SIZE, a.datas[i])
  }

  function ChunksUpTo(a: Asked, n: nat): (cs: seq<Chunk>)
    requires n <= |a.datas|
    ensures |cs| == n && forall i :: 0 <= i < n ==> cs[i] == ChunkOf(a, i)
  {
    if n == 0 then [] else ChunksUpTo(a, n - 1) + [ChunkOf(a, n - 1)]
  }

  function ChunksOf(a: Asked): seq<Chunk> {
    ChunksUpTo(a, |a.datas|)
  }

  function AllChunks(reqs: seq<Asked>): seq<Chunk> {
    if reqs == [] then [] else AllChunks(reqs[..|reqs| - 1]) + ChunksOf(reqs[|reqs| - 1])
  }

  /** The device as its user means it. */
  function DiskAfterWhole(disk: seq<bv8>, a: Asked): seq<bv8>
    requires a.isFs && a.write ==> a.pos * SECTOR_SIZE + |Flat(a.datas)| <= |disk|
    ensures |DiskAfterWhole(disk, a)| == |disk|
  {
    if a.isFs && a.write then
      var at, data := a.pos * SECTOR_SIZE, Flat(a.datas);
      disk[..at] + data + disk[at + |data|..]
    else disk
  }

  ghost predicate AllInside(size: nat, reqs: seq<Asked>) {
    forall j :: 0 <= j < |reqs| ==> Whole(reqs[j]) && Inside(size, reqs[j])
  }

  function DiskAfterAll(disk: seq<bv8>, reqs: seq<Asked>): seq<bv8>
    requires AllInside(|disk|, reqs)
    ensures |DiskAfterAll(disk, reqs)| == |disk|
  {
    if reqs == [] then disk else
    var k := |reqs| - 1;
    assert Inside(|disk|, reqs[k]);
    DiskAfterWhole(DiskAfterAll(disk, reqs[..k]), reqs[k])
  }

  // ------------------------------------------------------ the chunks of a request

  /** A chunk is served where its data belong, and within the capacity. */
  lemma ChunkPlaced(size: nat, a: Asked, i: nat)
    requires Whole(a) && Inside(size, a) && i < |a.datas|
    ensures WithinCapacity(size, ChunkOf(a, i))
    ensures ChunkOf(a, i).sector * SECTOR_SIZE == a.pos * SECTOR_SIZE + |Flat(a.datas[..i])|
    ensures a.pos * SECTOR_SIZE + |Flat(a.datas[..i])| + |a.datas[i]| <= size
  {
    FlatWhole(a, i);
    FlatMore(a.datas, i);
    FlatPrefix(a.datas, i + 1);
    InSectors(size, a.pos, |Flat(a.datas[..i])|, |a.datas[i]|);
  }

  lemma InSectors(size: nat, pos: nat, before: nat, n: nat)
    requires before % SECTOR_SIZE == 0 && n % SECTOR_SIZE == 0 && pos * SECTOR_SIZE + before + n <= size
    ensures (pos + before / SECTOR_SIZE) * SECTOR_SIZE == pos * SECTOR_SIZE + before
    ensures pos + before / SECTOR_SIZE + n / SECTOR_SIZE <= size / SECTOR_SIZE
  {
  }

  lemma {:induction false} FlatWhole(a: Asked, i: nat)
    requires Whole(a) && i <= |a.datas|
    ensures |Flat(a.datas[..i])| % SECTOR_SIZE == 0
  {
    if i > 0 {
      FlatWhole(a, i - 1);
      FlatMore(a.datas, i - 1);
      WholeSum(|Flat(a.datas[..i - 1])|, |a.datas[i - 1]|);
    }
  }

  lemma WholeSum(m: nat, n: nat)
    requires m % SECTOR_SIZE == 0 && n % SECTOR_SIZE == 0
    ensures (m + n) % SECTOR_SIZE == 0
  {
  }

  ghost predicate Fit(size: nat, cs: seq<Chunk>) {
    forall c <- cs :: WithinCapacity(size, c)
  }

  /** The chunks of a request, as far as their places go. */
  lemma ChunksFit(size: nat, a: Asked)
    requires Whole(a) && Inside(size, a)
    ensures Fit(size, ChunksOf(a))
  {
    forall i | 0 <= i < |a.datas| ensures WithinCapacity(size, ChunkOf(a, i)) {
      ChunkPlaced(size, a, i);
    }
  }

  lemma {:induction false} AllFit(size: nat, reqs: seq<Asked>)
    requires AllInside(size, reqs)
    ensures Fit(size, AllChunks(reqs))
  {
    if reqs != [] {
      AllFit(size, reqs[..|reqs| - 1]);
      ChunksFit(size, reqs[|reqs| - 1]);
    }
  }

  // -------------------------------------------------------------- one request

  /** The part of the request whose first i chunks have been served. */
  function Part(a: Asked, i: nat): Asked
    requires i <= |a.datas|
  {
    a.(datas := a.datas[..i])
  }

  lemma PartInside(size: nat, a: Asked, i: nat)
    requires Inside(size, a) && i <= |a.datas|
    ensures Inside(size, Part(a, i))
  {
    FlatPrefix(a.datas, i);
  }

  /** After i chunks the device is as if the request had been that much shorter. */
  lemma {:induction false} PartServed(disk: seq<bv8>, a: Asked, i: nat, cs: seq<Chunk>)
    requires Whole(a) && Inside(|disk|, a) && i <= |a.datas| && cs == ChunksOf(a)[..i]
    ensures Inside(|disk|, Part(a, i))
    ensures PlainDiskAfter(disk, cs) == DiskAfterWhole(disk, Part(a, i))
  {
    PartInside(|disk|, a, i);
    if i == 0 {
      NothingWritten(disk, a);
    } else {
      PartServed(disk, a, i - 1, cs[..i - 1]);
      OneMoreChunk(disk, a, i - 1, DiskAfterWhole(disk, Part(a, i - 1)));
    }
  }

  lemma NothingWritten(disk: seq<bv8>, a: Asked)
    requires Inside(|disk|, Part(a, 0))
    ensures DiskAfterWhole(disk, Part(a, 0)) == disk
  {
    assert Flat(a.datas[..0]) == [];
  }

  lemma OneMoreChunk(disk: seq<bv8>, a: Asked, i: nat, now: seq<bv8>)
    requires Whole(a) && Inside(|disk|, a) && i < |a.datas|
    requires Inside(|disk|, Part(a, i)) && Inside(|disk|, Part(a, i + 1))
    requires now == DiskAfterWhole(disk, Part(a, i))
    ensures PlainDiskAfterOne(now, ChunkOf(a, i)) == DiskAfterWhole(disk, Part(a, i + 1))
  {
    ChunkPlaced(|disk|, a, i);
    if a.isFs && a.write {
      FlatMore(a.datas, i);
      ChunkBehind(disk, a.pos * SECTOR_SIZE, Flat(a.datas[..i]), now, ChunkOf(a, i));
    }
  }

  lemma ChunkBehind(disk: seq<bv8>, at: nat, x: seq<bv8>, now: seq<bv8>, c: Chunk)
    requires at + |x| + |c.data| <= |disk| && now == disk[..at] + x + disk[at + |x|..]
    requires c.write && c.isFs && c.sector * SECTOR_SIZE == at + |x|
    ensures PlainDiskAfterOne(now, c) == disk[..at] + (x + c.data) + disk[at + |x + c.data|..]
  {
    Written(disk, at, x, c.data, now);
  }

  lemma Written(disk: seq<bv8>, at: nat, x: seq<bv8>, y: seq<bv8>, now: seq<bv8>)
    requires at + |x| + |y| <= |disk| && now == disk[..at] + x + disk[at + |x|..]
    ensures now[..at + |x|] + y + now[at + |x| + |y|..] == disk[..at] + (x + y) + disk[at + |x + y|..]
  {
    assert now[..at + |x|] == disk[..at] + x;
    assert now[at + |x| + |y|..] == disk[at + |x + y|..];
  }

  // ---------------------------------------------------------------- all of them

  lemma {:induction false} PlainConcat(disk: seq<bv8>, cs: seq<Chunk>, more: seq<Chunk>)
    ensures PlainDiskAfter(disk, cs + more) == PlainDiskAfter(PlainDiskAfter(disk, cs), more)
  {
    if more == [] {
      assert cs + more == cs;
    } else {
      assert (cs + more)[..|cs + more| - 1] == cs + more[..|more| - 1];
      PlainConcat(disk, cs, more[..|more| - 1]);
    }
  }

  /** On the plain device. */
  lemma {:induction false} PlainRequests(disk: seq<bv8>, reqs: seq<Asked>)
    requires AllInside(|disk|, reqs)
    ensures PlainDiskAfter(disk, AllChunks(reqs)) == DiskAfterAll(disk, reqs)
  {
    if reqs != [] {
      var k := |reqs| - 1;
      var a := reqs[k];
      PlainRequests(disk, reqs[..k]);
      PlainConcat(disk, AllChunks(reqs[..k]), ChunksOf(a));
      assert a.datas[..|a.datas|] == a.datas && ChunksOf(a)[..|a.datas|] == ChunksOf(a);
      PartServed(DiskAfterAll(disk, reqs[..k]), a, |a.datas|, ChunksOf(a));
    }
  }

  /** Any list of requests within the capacity leaves the device as if each had been
      carried out whole. */
  lemma ChunksDoNotShow(disk: seq<bv8>, reqs: seq<Asked>)
    requires AllInside(|disk|, reqs) && |disk| < INT_LIMIT
    ensures DiskAfter(disk, AllChunks(reqs)) == DiskAfterAll(disk, reqs)
  {
    AllFit(|disk|, reqs);
    PlainRequests(disk, reqs);
    CapacityGivesPlainDevice(disk, AllChunks(reqs));
  }

  // ----------------------------------------------------------------------- reads

  /** The chunks of a queue around those of request j. */
  lemma {:induction false} AllChunksAt(reqs: seq<Asked>, j: nat) returns (tail: seq<Chunk>)
    requires j < |reqs|
    ensures AllChunks(reqs) == AllChunks(reqs[..j]) + ChunksOf(reqs[j]) + tail
  {
    var most, last := reqs[..|reqs| - 1], reqs[|reqs| - 1];
    if j == |reqs| - 1 {
      tail := [];
    } else {
      assert most[..j] == reqs[..j];
      tail := AllChunksAt(most, j);
      tail := tail + ChunksOf(last);
    }
  }

  /** The i-th share of a stretch of the disk cut as `datas` is. */
  ghost predicate Share(disk: seq<bv8>, at: nat, datas: seq<seq<bv8>>, i: nat, share: seq<bv8>)
    requires i < |datas|
  {
    var from := at + |Flat(datas[..i])|;
    from + |datas[i]| <= |disk| && share == disk[from..from + |datas[i]|]
  }

  /** What a chunk of a read request receives: its share of what the device holds when
      the requests before it have been carried out. */
  lemma ReadShare(disk: seq<bv8>, reqs: seq<Asked>, j: nat, i: nat, k: nat, now: seq<bv8>)
    requires AllInside(|disk|, reqs) && |disk| < INT_LIMIT && j < |reqs| && AllInside(|disk|, reqs[..j])
    requires reqs[j].isFs && !reqs[j].write && i < |reqs[j].datas|
    requires k == |AllChunks(reqs[..j])| + i && now == DiskAfterAll(disk, reqs[..j])
    ensures k < |AllChunks(reqs)|
    ensures Share(now, reqs[j].pos * SECTOR_SIZE, reqs[j].datas, i, BufferAfter(disk, AllChunks(reqs), k))
  {
    assert Whole(reqs[j]) && Inside(|disk|, reqs[j]);
    var before, after := Around(reqs, j, i);
    BeforeFits(|disk|, reqs, j, i, before);
    AsBefore(disk, reqs[..j], reqs[j], i, now);
    ReceivesShare(disk, before, reqs[j], i, after, now, AllChunks(reqs), k);
  }

  /** The chunks of a queue before and behind one of them. */
  lemma Around(reqs: seq<Asked>, j: nat, i: nat) returns (before: seq<Chunk>, after: seq<Chunk>)
    requires j < |reqs| && i < |reqs[j].datas|
    ensures before == AllChunks(reqs[..j]) + ChunksOf(reqs[j])[..i] && |before| == |AllChunks(reqs[..j])| + i
    ensures AllChunks(reqs) == before + [ChunkOf(reqs[j], i)] + after
  {
    var tail := AllChunksAt(reqs, j);
    var mine := ChunksOf(reqs[j]);
    before, after := AllChunks(reqs[..j]) + mine[..i], mine[i + 1..] + tail;
    assert mine == mine[..i] + [ChunkOf(reqs[j], i)] + mine[i + 1..];
  }

  lemma BeforeFits(size: nat, reqs: seq<Asked>, j: nat, i: nat, before: seq<Chunk>)
    requires AllInside(size, reqs) && j < |reqs| && i < |reqs[j].datas|
    requires before == AllChunks(reqs[..j]) + ChunksOf(reqs[j])[..i]
    ensures Fit(size, before)
  {
    AllFit(size, reqs[..j]);
    ChunksFit(size, reqs[j]);
  }

  /** A read request changes nothing on the device. */
  lemma AsBefore(disk: seq<bv8>, reqs: seq<Asked>, a: Asked, i: nat, now: seq<bv8>)
    requires AllInside(|disk|, reqs) && now == DiskAfterAll(disk, reqs)
    requires Whole(a) && Inside(|disk|, a) && !a.write && i <= |a.datas|
    ensures PlainDiskAfter(disk, AllChunks(reqs) + ChunksOf(a)[..i]) == now
  {
    PlainRequests(disk, reqs);
    PlainConcat(disk, AllChunks(reqs), ChunksOf(a)[..i]);
    PartServed(now, a, i, ChunksOf(a)[..i]);
  }

  lemma ReceivesShare(disk: seq<bv8>, before: seq<Chunk>, a: Asked, i: nat, after: seq<Chunk>, now: seq<bv8>,
                      all: seq<Chunk>, k: nat)
    requires Whole(a) && Inside(|disk|, a) && |disk| < INT_LIMIT && a.isFs && !a.write && i < |a.datas|
    requires Fit(|disk|, before) && now == PlainDiskAfter(disk, before)
    requires all == before + [ChunkOf(a, i)] + after && k == |before|
    ensures Share(now, a.pos * SECTOR_SIZE, a.datas, i, BufferAfter(disk, all, k))
  {
    ChunkPlaced(|disk|, a, i);
    ReceivesFrom(disk, before, ChunkOf(a, i), after, all, a.pos * SECTOR_SIZE + |Flat(a.datas[..i])|);
  }

  lemma ReceivesFrom(disk: seq<bv8>, before: seq<Chunk>, c: Chunk, after: seq<Chunk>, all: seq<Chunk>, from: nat)
    requires Fit(|disk|, before) && WithinCapacity(|disk|, c) && |disk| < INT_LIMIT && c.isFs && !c.write
    requires all == before + [c] + after && c.sector * SECTOR_SIZE == from && from + |c.data| <= |disk|
    ensures BufferAfter(disk, all, |before|) == PlainDiskAfter(disk, before)[from..from + |c.data|]
  {
    CapacityGivesPlainReads(disk, before, c, after);
  }

  ghost predicate Shares(disk: seq<bv8>, at: nat, datas: seq<seq<bv8>>, shares: seq<seq<bv8>>) {
    |shares| == |datas| && at <= |disk| && forall k :: 0 <= k < |datas| ==> Share(disk, at, datas, k, shares[k])
  }

  /** In a row they make up the whole. */
  lemma SharesTogether(datas: seq<seq<bv8>>, shares: seq<seq<bv8>>, disk: seq<bv8>, at: nat)
    requires Shares(disk, at, datas, shares)
    ensures at + |Flat(datas)| <= |disk| && Flat(shares) == disk[at..at + |Flat(datas)|]
  {
    SharesFlat(datas, shares, disk, at, |shares|);
    assert datas[..|shares|] == datas && shares[..|shares|] == shares;
  }

  lemma {:induction false} SharesFlat(datas: seq<seq<bv8>>, shares: seq<seq<bv8>>, disk: seq<bv8>, at: nat, i: nat)
    requires Shares(disk, at, datas, shares) && i <= |shares|
    ensures at + |Flat(datas[..i])| <= |disk| && Flat(shares[..i]) == disk[at..at + |Flat(datas[..i])|]
  {
    if i == 0 {
      assert Flat(shares[..0]) == [] == Flat(datas[..0]);
    } else {
      SharesFlat(datas, shares, disk, at, i - 1);
      OneMoreShare(datas, shares, disk, at, i - 1, |Flat(datas[..i - 1])|);
    }
  }

  lemma OneMoreShare(datas: seq<seq<bv8>>, shares: seq<seq<bv8>>, disk: seq<bv8>, at: nat, i: nat, m: nat)
    requires i < |shares| == |datas| && m == |Flat(datas[..i])| && at + m <= |disk|
    requires Share(disk, at, datas, i, shares[i]) && Flat(shares[..i]) == disk[at..at + m]
    ensures at + |Flat(datas[..i + 1])| <= |disk|
    ensures Flat(shares[..i + 1]) == disk[at..at + |Flat(datas[..i + 1])|]
  {
    FlatMore(datas, i);
    FlatMore(shares, i);
    Stretches(disk, at, m, |datas[i]|);
  }

  lemma Stretches(disk: seq<bv8>, at: nat, m: nat, n: nat)
    requires at + m + n <= |disk|
    ensures disk[at..at + m] + disk[at + m..at + m + n] == disk[at..at + m + n]
  {
  }
}
