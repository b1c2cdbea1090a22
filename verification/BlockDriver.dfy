/** The loop of SOLUTIONS/s_35/lab2_block.c over the requests that the block layer
    hands over, and what it comes to for whole requests. */
module BlockDriver {
  import opened BlockDevice
  import opened Sequences
  import opened WholeRequests

  /** `bufs` are the buffers of the chunks still to be served, from sector `pos`. */
  datatype Request = Request(isFs: bool, write: bool, pos: nat, bufs: seq<array<bv8>>)

  datatype Piece = Piece(isFs: bool, write: bool, sector: nat, buf: array<bv8>)

  function Pieces(rq: Request): seq<Piece>
    decreases rq.bufs
  {
    if rq.bufs == [] then [] else
    [Piece(rq.isFs, rq.write, rq.pos, rq.bufs[0])] + Pieces(Served(rq))
  }

  /** The request after its current chunk has been ended. */
  function Served(rq: Request): Request
    requires rq.bufs != []
  {
    Request(rq.isFs, rq.write, rq.pos + rq.bufs[0].Length / SECTOR_SIZE, rq.bufs[1..])
  }

  function AllPieces(queue: seq<Request>): seq<Piece> {
    if queue == [] then [] else Pieces(queue[0]) + AllPieces(queue[1..])
  }

  ghost function Snapshot(ps: seq<Piece>): seq<Chunk>
    reads set p | p in ps :: p.buf
  {
    if ps == [] then [] else
    var k := |ps| - 1;
    Snapshot(ps[..k]) + [Chunk(ps[k].isFs, ps[k].write, ps[k].sector, ps[k].buf[..])]
  }

  lemma {:induction false} SnapshotAt(ps: seq<Piece>)
    ensures |Snapshot(ps)| == |ps|
    ensures forall i :: 0 <= i < |ps| ==>
              Snapshot(ps)[i] == Chunk(ps[i].isFs, ps[i].write, ps[i].sector, ps[i].buf[..])
  {
    if ps != [] {
      SnapshotAt(ps[..|ps| - 1]);
    }
  }

  /** The block layer works in sectors: a chunk is a whole number of them. */
  predicate WholeSectors(p: Piece) {
    p.buf.Length % SECTOR_SIZE == 0
  }

  /** The buffers are whole sectors, and all memory involved is distinct. */
  ghost predicate Apart(ps: seq<Piece>, ramdisk: array<bv8>) {
    && (forall i :: 0 <= i < |ps| ==> ps[i].buf != ramdisk && WholeSectors(ps[i]))
    && (forall i, j :: 0 <= i < j < |ps| ==> ps[i].buf != ps[j].buf)
  }

  // ------------------------------------------------------- where the pieces are

  /** The length of some buffers together. */
  function Bytes(bufs: seq<array<bv8>>): nat {
    if bufs == [] then 0 else bufs[0].Length + Bytes(bufs[1..])
  }

  predicate AllWhole(ps: seq<Piece>) {
    forall i :: 0 <= i < |ps| ==> WholeSectors(ps[i])
  }

  /** Every buffer of a request is served, at the sector behind those before it. */
  lemma {:induction false} PieceOfRequest(rq: Request, i: nat)
    requires AllWhole(Pieces(rq))
    ensures |Pieces(rq)| == |rq.bufs|
    ensures i < |rq.bufs| ==>
              Pieces(rq)[i] == Piece(rq.isFs, rq.write, rq.pos + Bytes(rq.bufs[..i]) / SECTOR_SIZE, rq.bufs[i])
    decreases rq.bufs
  {
    if rq.bufs != [] {
      var rest := Served(rq);
      assert WholeSectors(Pieces(rq)[0]);
      assert Pieces(rest) == Pieces(rq)[1..];
      PieceOfRequest(rest, if i == 0 then 0 else i - 1);
      if 0 < i < |rq.bufs| {
        assert rq.bufs[..i][1..] == rest.bufs[..i - 1];
        SectorsAdd(rq.bufs[0].Length, Bytes(rest.bufs[..i - 1]));
      }
    }
  }

  lemma SectorsAdd(a: nat, b: nat)
    requires a % SECTOR_SIZE == 0
    ensures a / SECTOR_SIZE + b / SECTOR_SIZE == (a + b) / SECTOR_SIZE
  {
  }

  /** The buffers of the requests before one. */
  function Before(queue: seq<Request>): nat {
    if queue == [] then 0 else |queue[0].bufs| + Before(queue[1..])
  }

  /** So it is in a queue: the pieces are the buffers of the requests in their order,
      each at its own place on the device. */
  lemma {:induction false} PieceOfQueue(queue: seq<Request>, j: nat, i: nat)
    requires AllWhole(AllPieces(queue))
    ensures |AllPieces(queue)| == Before(queue)
    ensures j < |queue| && i < |queue[j].bufs| ==>
              && Before(queue[..j]) + i < |AllPieces(queue)|
              && var rq := queue[j];
                 AllPieces(queue)[Before(queue[..j]) + i] ==
                 Piece(rq.isFs, rq.write, rq.pos + Bytes(rq.bufs[..i]) / SECTOR_SIZE, rq.bufs[i])
  {
    if queue != [] {
      SplitWhole(Pieces(queue[0]), AllPieces(queue[1..]));
      PieceOfRequest(queue[0], i);
      PieceOfQueue(queue[1..], if j == 0 then 0 else j - 1, i);
      if 0 < j < |queue| {
        assert queue[..j][1..] == queue[1..][..j - 1];
      }
    }
  }

  lemma SplitWhole(ps: seq<Piece>, more: seq<Piece>)
    requires AllWhole(ps + more)
    ensures AllWhole(ps) && AllWhole(more)
  {
    assert forall i :: 0 <= i < |ps| ==> (ps + more)[i] == ps[i];
    assert forall i :: 0 <= i < |more| ==> (ps + more)[|ps| + i] == more[i];
  }

  // -------------------------------------------------------- requests as values

  ghost function Contents(bufs: seq<array<bv8>>): (datas: seq<seq<bv8>>)
    reads bufs
    ensures |datas| == |bufs| && forall i :: 0 <= i < |bufs| ==> datas[i] == bufs[i][..]
  {
    if bufs == [] then [] else Contents(bufs[..|bufs| - 1]) + [bufs[|bufs| - 1][..]]
  }

  ghost function AskedOf(rq: Request): Asked
    reads rq.bufs
  {
    Asked(rq.isFs, rq.write, rq.pos, Contents(rq.bufs))
  }

  function Memory(queue: seq<Request>): (all: set<array<bv8>>)
    ensures forall j, b :: 0 <= j < |queue| && b in queue[j].bufs ==> b in all
  {
    set rq, b | rq in queue && b in rq.bufs :: b
  }

  ghost function AskedAll(queue: seq<Request>): (reqs: seq<Asked>)
    reads Memory(queue)
    ensures |reqs| == |queue| && forall j :: 0 <= j < |queue| ==> reqs[j] == AskedOf(queue[j])
  {
    if queue == [] then [] else
    var last := queue[|queue| - 1];
    assert forall b <- last.bufs :: b in Memory(queue);
    AskedAll(queue[..|queue| - 1]) + [AskedOf(last)]
  }

  lemma {:induction false} BytesMore(bufs: seq<array<bv8>>, b: array<bv8>)
    ensures Bytes(bufs + [b]) == Bytes(bufs) + b.Length
  {
    if bufs != [] {
      assert (bufs + [b])[1..] == bufs[1..] + [b];
      BytesMore(bufs[1..], b);
    }
  }

  lemma {:induction false} BytesFlat(bufs: seq<array<bv8>>, i: nat)
    requires i <= |bufs|
    ensures |Flat(Contents(bufs)[..i])| == Bytes(bufs[..i])
  {
    if i > 0 {
      BytesFlat(bufs, i - 1);
      FlatMore(Contents(bufs), i - 1);
      assert bufs[..i - 1] + [bufs[i - 1]] == bufs[..i];
      BytesMore(bufs[..i - 1], bufs[i - 1]);
    }
  }

  lemma SnapshotConcat(ps: seq<Piece>, more: seq<Piece>)
    ensures Snapshot(ps + more) == Snapshot(ps) + Snapshot(more)
  {
    SnapshotAt(ps);
    SnapshotAt(more);
    SnapshotAt(ps + more);
  }

  /** The pieces of a request are the chunks that it asks for. */
  lemma SnapshotRequest(rq: Request)
    requires AllWhole(Pieces(rq))
    ensures Snapshot(Pieces(rq)) == ChunksOf(AskedOf(rq))
  {
    SnapshotAt(Pieces(rq));
    PieceOfRequest(rq, 0);
    var asked, got := ChunksOf(AskedOf(rq)), Snapshot(Pieces(rq));
    forall i: nat | i < |rq.bufs| ensures got[i] == asked[i] {
      SnapshotOne(rq, i);
    }
  }

  lemma SnapshotOne(rq: Request, i: nat)
    requires AllWhole(Pieces(rq)) && i < |rq.bufs|
    ensures i < |Snapshot(Pieces(rq))| && Snapshot(Pieces(rq))[i] == ChunkOf(AskedOf(rq), i)
  {
    SnapshotAt(Pieces(rq));
    PieceOfRequest(rq, i);
    BytesFlat(rq.bufs, i);
  }

  lemma {:induction false} AllPiecesLast(queue: seq<Request>)
    requires queue != []
    ensures AllPieces(queue) == AllPieces(queue[..|queue| - 1]) + Pieces(queue[|queue| - 1])
  {
    if |queue| > 1 {
      var k := |queue| - 1;
      assert queue[1..][..k - 1] == queue[..k][1..];
      AllPiecesLast(queue[1..]);
      Associative(Pieces(queue[0]), AllPieces(queue[..k][1..]), Pieces(queue[k]));
    }
  }

  lemma {:induction false} SnapshotQueue(queue: seq<Request>)
    requires AllWhole(AllPieces(queue))
    ensures Snapshot(AllPieces(queue)) == AllChunks(AskedAll(queue))
  {
    if queue != [] {
      var k := |queue| - 1;
      AllPiecesLast(queue);
      SplitWhole(AllPieces(queue[..k]), Pieces(queue[k]));
      SnapshotQueue(queue[..k]);
      SnapshotRequest(queue[k]);
      SnapshotConcat(AllPieces(queue[..k]), Pieces(queue[k]));
      assert AskedAll(queue)[..k] == AskedAll(queue[..k]);
    }
  }

  /** Every request lies within a capacity of `size` bytes. */
  predicate Within(size: nat, queue: seq<Request>) {
    size < INT_LIMIT && forall j :: 0 <= j < |queue| ==> queue[j].pos * SECTOR_SIZE + Bytes(queue[j].bufs) <= size
  }

  /** `reqs` are these requests, whatever is in their buffers. */
  ghost predicate Values(queue: seq<Request>, reqs: seq<Asked>) {
    |reqs| == |queue| && forall j :: 0 <= j < |queue| ==> Value(queue[j], reqs[j])
  }

  ghost predicate Value(rq: Request, a: Asked) {
    && a.isFs == rq.isFs && a.write == rq.write && a.pos == rq.pos && Whole(a)
    && |a.datas| == |rq.bufs| && |Flat(a.datas)| == Bytes(rq.bufs)
  }

  lemma ValueOf(rq: Request)
    requires AllWhole(Pieces(rq))
    ensures Value(rq, AskedOf(rq))
  {
    BytesFlat(rq.bufs, |rq.bufs|);
    assert rq.bufs[..|rq.bufs|] == rq.bufs && Contents(rq.bufs)[..|rq.bufs|] == Contents(rq.bufs);
    forall i | 0 <= i < |rq.bufs| ensures |Contents(rq.bufs)[i]| % SECTOR_SIZE == 0 {
      PieceOfRequest(rq, i);
      assert WholeSectors(Pieces(rq)[i]);
    }
  }

  lemma {:induction false} WholeAt(queue: seq<Request>, j: nat)
    requires AllWhole(AllPieces(queue)) && j < |queue|
    ensures AllWhole(Pieces(queue[j]))
  {
    SplitWhole(Pieces(queue[0]), AllPieces(queue[1..]));
    if j > 0 {
      WholeAt(queue[1..], j - 1);
    }
  }

  lemma ValuesOf(queue: seq<Request>)
    requires AllWhole(AllPieces(queue))
    ensures Values(queue, AskedAll(queue))
  {
    var reqs := AskedAll(queue);
    forall j: nat | j < |queue| ensures Value(queue[j], reqs[j]) {
      WholeAt(queue, j);
      ValueOf(queue[j]);
    }
  }

  lemma {:induction false} ChunksBefore(queue: seq<Request>, reqs: seq<Asked>, j: nat)
    requires Values(queue, reqs) && j <= |queue|
    ensures |AllChunks(reqs[..j])| == Before(queue[..j])
  {
    if j > 0 {
      ChunksBefore(queue, reqs, j - 1);
      assert reqs[..j][..j - 1] == reqs[..j - 1] && queue[..j - 1] + [queue[j - 1]] == queue[..j];
      BeforeMore(queue[..j - 1], queue[j - 1]);
      assert Value(queue[j - 1], reqs[j - 1]);
    }
  }

  lemma {:induction false} BeforeMore(queue: seq<Request>, rq: Request)
    ensures Before(queue + [rq]) == Before(queue) + |rq.bufs|
  {
    if queue != [] {
      assert (queue + [rq])[1..] == queue[1..] + [rq];
      BeforeMore(queue[1..], rq);
    }
  }

  lemma ValuesInside(size: nat, queue: seq<Request>, reqs: seq<Asked>)
    requires Values(queue, reqs) && Within(size, queue)
    ensures AllInside(size, reqs)
  {
    forall j | 0 <= j < |reqs| ensures Whole(reqs[j]) && Inside(size, reqs[j]) {
      assert Value(queue[j], reqs[j]);
    }
  }

  /** The buffers of the pieces are as the chunks were left. */
  ghost predicate Left(ps: seq<Piece>, disk: seq<bv8>, cs: seq<Chunk>)
    reads set p | p in ps :: p.buf
  {
    |cs| == |ps| && forall i :: 0 <= i < |ps| ==> ps[i].buf[..] == BufferAfter(disk, cs, i)
  }

  /** Together the buffers of a read request hold what was at its place on the device
      when the requests before it had been carried out. */
  lemma {:induction false} ReadBack(queue: seq<Request>, ps: seq<Piece>, disk: seq<bv8>, reqs: seq<Asked>, j: nat)
    requires ps == AllPieces(queue) && AllWhole(ps) && Left(ps, disk, AllChunks(reqs))
    requires Values(queue, reqs) && Within(|disk|, queue)
    requires j < |queue| && queue[j].isFs && !queue[j].write && AllInside(|disk|, reqs[..j])
    ensures var rq, now := queue[j], DiskAfterAll(disk, reqs[..j]);
            var at := rq.pos * SECTOR_SIZE;
            at + Bytes(rq.bufs) <= |now| && Flat(Contents(rq.bufs)) == now[at..at + Bytes(rq.bufs)]
  {
    var rq, a, now := queue[j], reqs[j], DiskAfterAll(disk, reqs[..j]);
    ValuesInside(|disk|, queue, reqs);
    assert Value(rq, a);
    ReadBackAll(queue, ps, disk, reqs, j, now, Contents(rq.bufs));
    SharesTogether(a.datas, Contents(rq.bufs), now, rq.pos * SECTOR_SIZE);
  }

  lemma {:induction false} ReadBackAll(queue: seq<Request>, ps: seq<Piece>, disk: seq<bv8>, reqs: seq<Asked>,
                                       j: nat, now: seq<bv8>, shares: seq<seq<bv8>>)
    requires ps == AllPieces(queue) && AllWhole(ps) && Left(ps, disk, AllChunks(reqs))
    requires Values(queue, reqs) && AllInside(|disk|, reqs) && |disk| < INT_LIMIT
    requires j < |queue| && queue[j].isFs && !queue[j].write && AllInside(|disk|, reqs[..j])
    requires now == DiskAfterAll(disk, reqs[..j])
    requires |shares| == |queue[j].bufs| == |reqs[j].datas|
    requires forall i :: 0 <= i < |shares| ==> shares[i] == queue[j].bufs[i][..]
    ensures Shares(now, queue[j].pos * SECTOR_SIZE, reqs[j].datas, shares)
  {
    forall i: nat | i < |shares| ensures Share(now, queue[j].pos * SECTOR_SIZE, reqs[j].datas, i, shares[i]) {
      ReadBackOne(queue, ps, disk, reqs, j, i, now);
    }
  }

  lemma {:induction false} ReadBackOne(queue: seq<Request>, ps: seq<Piece>, disk: seq<bv8>, reqs: seq<Asked>,
                                       j: nat, i: nat, now: seq<bv8>)
    requires ps == AllPieces(queue) && AllWhole(ps) && Left(ps, disk, AllChunks(reqs))
    requires Values(queue, reqs) && AllInside(|disk|, reqs) && |disk| < INT_LIMIT
    requires j < |queue| && queue[j].isFs && !queue[j].write && AllInside(|disk|, reqs[..j])
    requires i < |queue[j].bufs| == |reqs[j].datas| && now == DiskAfterAll(disk, reqs[..j])
    ensures Share(now, queue[j].pos * SECTOR_SIZE, reqs[j].datas, i, queue[j].bufs[i][..])
  {
    assert Value(queue[j], reqs[j]);
    PieceOfQueue(queue, j, i);
    ChunksBefore(queue, reqs, j);
    var k := Before(queue[..j]) + i;
    assert ps[k].buf == queue[j].bufs[i];
    ReadShare(disk, reqs, j, i, k, now);
  }

  /** The requests have been carried out as wholes: the device is as if each had been
      one write, and the buffers of a read, taken together, hold what was at its place
      when its turn came. */
  ghost predicate AsWholes(queue: seq<Request>, disk: seq<bv8>, reqs: seq<Asked>, now: seq<bv8>)
    requires Values(queue, reqs) && Within(|disk|, queue)
    reads Memory(queue)
  {
    && AllInside(|disk|, reqs) && now == DiskAfterAll(disk, reqs)
    && forall j: nat | j < |queue| && queue[j].isFs && !queue[j].write ::
         && AllInside(|disk|, reqs[..j])
         && HoldsRange(queue[j], DiskAfterAll(disk, reqs[..j]))
  }

  ghost predicate HoldsRange(rq: Request, disk: seq<bv8>)
    reads rq.bufs
  {
    var at, n := rq.pos * SECTOR_SIZE, Bytes(rq.bufs);
    at + n <= |disk| && Flat(Contents(rq.bufs)) == disk[at..at + n]
  }

  lemma QueueLeft(queue: seq<Request>, ps: seq<Piece>, disk: seq<bv8>, reqs: seq<Asked>, now: seq<bv8>)
    requires ps == AllPieces(queue) && AllWhole(ps) && Left(ps, disk, AllChunks(reqs))
    requires Values(queue, reqs) && Within(|disk|, queue) && now == DiskAfter(disk, AllChunks(reqs))
    ensures AsWholes(queue, disk, reqs, now)
  {
    ValuesInside(|disk|, queue, reqs);
    ChunksDoNotShow(disk, reqs);
    forall j: nat | j < |queue| && queue[j].isFs && !queue[j].write
      ensures AllInside(|disk|, reqs[..j]) && HoldsRange(queue[j], DiskAfterAll(disk, reqs[..j]))
    {
      ReadBack(queue, ps, disk, reqs, j);
    }
  }

  lemma {:induction false} BuffersArePieces(rq: Request)
    ensures |Pieces(rq)| == |rq.bufs| && forall i :: 0 <= i < |rq.bufs| ==> Pieces(rq)[i].buf == rq.bufs[i]
    decreases rq.bufs
  {
    if rq.bufs != [] {
      BuffersArePieces(Served(rq));
    }
  }

  class Disk {
    const ramdisk: array<bv8>

    constructor (size: nat)
      requires size < INT_LIMIT
      ensures ramdisk.Length == size && fresh(ramdisk)
    {
      ramdisk := new bv8[size];
    }

    /** The body of the loop up to `done`. */
    method Serve(p: Piece)
      requires p.buf != ramdisk && WholeSectors(p)
      modifies ramdisk, p.buf
      ensures var c := Chunk(p.isFs, p.write, p.sector, old(p.buf[..]));
              && ramdisk[..] == DiskAfterOne(old(ramdisk[..]), c)
              && p.buf[..] == (if !c.write && Accepted(ramdisk.Length, c)
                               then old(ramdisk[..])[Offset(c.sector)..Offset(c.sector) + |c.data|]
                               else c.data)
    {
      if !p.isFs {
        return;
      }
      var ptr := Offset(p.sector);
      var nrSectors := p.buf.Length / SECTOR_SIZE;
      var size := nrSectors * SECTOR_SIZE;
      if ptr + size > ramdisk.Length {
        return;
      }
      if p.write {
        forall k | 0 <= k < size {
          ramdisk[ptr + k] := p.buf[k];
        }
        ghost var was := old(ramdisk[..]);
        assert ramdisk[..] == was[..ptr] + p.buf[..] + was[ptr + size..];
      } else {
        forall k | 0 <= k < size {
          p.buf[k] := ramdisk[ptr + k];
        }
      }
    }

    /** The first n pieces have been served. */
    ghost predicate Progress(ps: seq<Piece>, cs: seq<Chunk>, disk: seq<bv8>, n: nat)
      requires n <= |ps| == |cs|
      reads ramdisk, set p | p in ps :: p.buf
    {
      && ramdisk[..] == DiskAfter(disk, cs[..n])
      && (forall i :: 0 <= i < n ==> ps[i].buf[..] == BufferAfter(disk, cs, i))
      && (forall i :: n <= i < |ps| ==> ps[i].buf[..] == cs[i].data)
    }

    method ServeNext(p: Piece, ghost ps: seq<Piece>, ghost cs: seq<Chunk>, ghost disk: seq<bv8>, ghost n: nat)
      requires n < |ps| == |cs| && p == ps[n] && Apart(ps, ramdisk) && Progress(ps, cs, disk, n)
      requires WholeSectors(p) && cs[n] == Chunk(p.isFs, p.write, p.sector, cs[n].data)
      modifies ramdisk, p.buf
      ensures Progress(ps, cs, disk, n + 1)
    {
      Serve(p);
      assert cs[..n + 1][..n] == cs[..n];
    }

    /** One turn of the loop: serve the current chunk, end it, and go on with the rest
        of the request or fetch the next one. */
    method Turn(q: seq<Request>, ghost ps: seq<Piece>, ghost cs: seq<Chunk>, ghost disk: seq<bv8>, ghost n: nat)
      returns (q': seq<Request>)
      requires q != [] && Serviceable(q) && n <= |ps| == |cs| && ps[n..] == AllPieces(q)
      requires Apart(ps, ramdisk) && Progress(ps, cs, disk, n)
      requires forall i :: 0 <= i < |ps| ==> cs[i] == Chunk(ps[i].isFs, ps[i].write, ps[i].sector, cs[i].data)
      modifies ramdisk, q[0].bufs[0]
      ensures n < |ps| && q[0].bufs[0] == ps[n].buf
      ensures Serviceable(q') && ps[n + 1..] == AllPieces(q')
      ensures Progress(ps, cs, disk, n + 1)
    {
      Advance(ps, n, q);
      var rq := q[0];
      ServeNext(Piece(rq.isFs, rq.write, rq.pos, rq.bufs[0]), ps, cs, disk, n);
      var rest := Served(rq);
      q' := if rest.bufs == [] then q[1..] else [rest] + q[1..];
    }

    /** my_request: for every queue the loop terminates, the disk is the in-order fold
        of the accepted writes, and every chunk's buffer is what BufferAfter says.  If
        the requests lie within the capacity they are carried out as wholes. */
    method Requests(queue: seq<Request>)
      requires Serviceable(queue) && Apart(AllPieces(queue), ramdisk)
      modifies ramdisk, set p | p in AllPieces(queue) :: p.buf
      ensures var ps := AllPieces(queue);
              var cs := old(Snapshot(ps));
              && ramdisk[..] == DiskAfter(old(ramdisk[..]), cs)
              && Left(ps, old(ramdisk[..]), cs)
      ensures Values(queue, old(AskedAll(queue)))
      ensures Within(ramdisk.Length, queue) ==>
                AsWholes(queue, old(ramdisk[..]), old(AskedAll(queue)), ramdisk[..])
    {
      ghost var reqs := AskedAll(queue);
      ValuesOf(queue);
      SnapshotQueue(queue);
      ghost var disk := ramdisk[..];
      Loop(queue);
      if Within(ramdisk.Length, queue) {
        QueueLeft(queue, AllPieces(queue), disk, reqs, ramdisk[..]);
      }
    }

    method Loop(queue: seq<Request>)
      requires Serviceable(queue) && Apart(AllPieces(queue), ramdisk)
      modifies ramdisk, set p | p in AllPieces(queue) :: p.buf
      ensures var ps := AllPieces(queue);
              var cs := old(Snapshot(ps));
              && ramdisk[..] == DiskAfter(old(ramdisk[..]), cs)
              && Left(ps, old(ramdisk[..]), cs)
    {
      ghost var ps := AllPieces(queue);
      ghost var cs := Snapshot(ps);
      ghost var disk := ramdisk[..];
      SnapshotAt(ps);
      ghost var n := 0;
      var q := queue;
      assert cs[..0] == [];
      while q != []
        invariant n <= |ps| == |cs| && ps[n..] == AllPieces(q) && Serviceable(q)
        invariant Progress(ps, cs, disk, n)
        decreases |ps| - n
      {
        Advance(ps, n, q);
        assert ps[n] in ps;
        q := Turn(q, ps, cs, disk, n);
        n := n + 1;
      }
      assert cs[..n] == cs;
    }

    /** What the block layer sees of one request within the capacity: a write puts its
        buffers, one behind the other, at its place on the device and changes no other
        byte; the buffers of a read are filled from there; a request that is not a
        file system's changes nothing. */
    method OneRequest(rq: Request)
      requires rq.bufs != [] && forall b <- rq.bufs :: b != ramdisk && b.Length % SECTOR_SIZE == 0
      requires forall i, j :: 0 <= i < j < |rq.bufs| ==> rq.bufs[i] != rq.bufs[j]
      requires rq.pos * SECTOR_SIZE + Bytes(rq.bufs) <= ramdisk.Length < INT_LIMIT
      modifies ramdisk, rq.bufs
      ensures var at, n := rq.pos * SECTOR_SIZE, Bytes(rq.bufs);
              if rq.isFs && rq.write then
                && ramdisk[at..at + n] == old(Flat(Contents(rq.bufs)))
                && ramdisk[..at] == old(ramdisk[..at]) && ramdisk[at + n..] == old(ramdisk[at + n..])
              else ramdisk[..] == old(ramdisk[..])
      ensures var at, n := rq.pos * SECTOR_SIZE, Bytes(rq.bufs);
              if rq.isFs && !rq.write then Flat(Contents(rq.bufs)) == old(ramdisk[at..at + n])
              else Contents(rq.bufs) == old(Contents(rq.bufs))
    {
      ghost var disk, a := ramdisk[..], AskedOf(rq);
      OnePiece(rq, ramdisk);
      OneInQueue(rq);
      SnapshotRequest(rq);
      Requests([rq]);
      OneLeft(rq, disk, a, ramdisk[..]);
      BuffersLeft(rq, disk, a);
    }
  }

  lemma OnePiece(rq: Request, ramdisk: array<bv8>)
    requires forall b <- rq.bufs :: b != ramdisk && b.Length % SECTOR_SIZE == 0
    requires forall i, j :: 0 <= i < j < |rq.bufs| ==> rq.bufs[i] != rq.bufs[j]
    ensures Apart(Pieces(rq), ramdisk) && AllWhole(Pieces(rq))
    ensures forall p <- Pieces(rq) :: p.buf in rq.bufs
  {
    BuffersArePieces(rq);
    forall i: nat | i < |rq.bufs| ensures Pieces(rq)[i].buf in rq.bufs {
      assert Pieces(rq)[i].buf == rq.bufs[i];
    }
  }

  lemma OneInQueue(rq: Request)
    ensures AllPieces([rq]) == Pieces(rq) && AskedAll([rq]) == [AskedOf(rq)]
  {
    assert [rq][1..] == [];
  }

  /** The buffers of a request that reads nothing are as they were. */
  lemma {:induction false} BuffersLeft(rq: Request, disk: seq<bv8>, a: Asked)
    requires |a.datas| == |rq.bufs| && a.write == rq.write && a.isFs == rq.isFs
    requires Left(Pieces(rq), disk, ChunksOf(a))
    ensures !rq.isFs || rq.write ==> Contents(rq.bufs) == a.datas
  {
    BuffersArePieces(rq);
    if !rq.isFs || rq.write {
      forall i: nat | i < |rq.bufs| ensures rq.bufs[i][..] == a.datas[i] {
        assert Pieces(rq)[i].buf[..] == BufferAfter(disk, ChunksOf(a), i);
      }
    }
  }

  lemma {:induction false} OneLeft(rq: Request, disk: seq<bv8>, a: Asked, now: seq<bv8>)
    requires Values([rq], [a]) && Within(|disk|, [rq]) && AsWholes([rq], disk, [a], now)
    ensures var at, n := rq.pos * SECTOR_SIZE, Bytes(rq.bufs);
            && at + n <= |disk| == |now|
            && (rq.isFs && rq.write ==> now[at..at + n] == Flat(a.datas) && now[..at] == disk[..at] &&
                                        now[at + n..] == disk[at + n..])
            && (!rq.isFs || !rq.write ==> now == disk)
            && (rq.isFs && !rq.write ==> Flat(Contents(rq.bufs)) == disk[at..at + n])
  {
    assert Value([rq][0], [a][0]);
    assert [a][..0] == [];
    assert DiskAfterAll(disk, [a]) == DiskAfterWhole(disk, a);
    assert rq.isFs && !rq.write ==> HoldsRange([rq][0], DiskAfterAll(disk, [a][..0]));
  }

  /** Every request the block layer hands over has a current chunk. */
  predicate Serviceable(q: seq<Request>) {
    forall i :: 0 <= i < |q| ==> q[i].bufs != []
  }

  lemma Advance(ps: seq<Piece>, n: nat, q: seq<Request>)
    requires n <= |ps| && ps[n..] == AllPieces(q) && q != [] && q[0].bufs != []
    ensures n < |ps| && ps[n] == Piece(q[0].isFs, q[0].write, q[0].pos, q[0].bufs[0])
    ensures var rest := Served(q[0]);
            ps[n + 1..] == AllPieces(if rest.bufs == [] then q[1..] else [rest] + q[1..])
  {
    Ended(q);
    assert ps[n..][0] == ps[n] && ps[n + 1..] == ps[n..][1..];
  }

  /** Ending a chunk takes one piece off the queue: __blk_end_request_cur says whether
      the request has more, and if not the next one is fetched. */
  lemma Ended(q: seq<Request>)
    requires q != [] && q[0].bufs != []
    ensures var rest := Served(q[0]);
            var q' := if rest.bufs == [] then q[1..] else [rest] + q[1..];
            AllPieces(q) == [Piece(q[0].isFs, q[0].write, q[0].pos, q[0].bufs[0])] + AllPieces(q')
  {
    var rest := Served(q[0]);
    var now := Piece(q[0].isFs, q[0].write, q[0].pos, q[0].bufs[0]);
    NextQueue(rest, q[1..]);
    Associative([now], Pieces(rest), AllPieces(q[1..]));
  }

  lemma NextQueue(rest: Request, tail: seq<Request>)
    ensures AllPieces(if rest.bufs == [] then tail else [rest] + tail) == Pieces(rest) + AllPieces(tail)
  {
    if rest.bufs == [] {
      assert Pieces(rest) == [];
    } else {
      assert ([rest] + tail)[1..] == tail;
    }
  }
}
