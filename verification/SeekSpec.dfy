/** What SOLUTIONS/s_04/lab3_seek.c promises, over a flat memory and any number of
    open files: reads and writes stop at the end of the device, seeks are clamped. */
module SeekSpec {
  import opened Options

  /** Width of size_t: the comparison in mycdrv_lseek depends on it. */
  datatype Arch = Bits32 | Bits64

  datatype Whence = SeekSet | SeekCur | SeekEnd | Other

  /** `pos[f]` is the position of open file f. */
  datatype Device = Device(disk: seq<bv8>, pos: seq<nat>)

  /** `short`: bytes that the copy routine fails to transfer; `junk` is what it leaves
      in their place. */
  datatype Op =
    | Read(f: nat, lbuf: nat, short: nat)
    | Write(f: nat, data: seq<bv8>, short: nat, junk: seq<bv8>)
    | Seek(f: nat, offset: int, whence: Whence)

  const INT_LIMIT := 0x8000_0000
  const LOFF_LIMIT := 0x8000_0000_0000_0000
  const U64 := 0x1_0000_0000_0000_0000

  function Min(a: nat, b: nat): nat {
    if a < b then a else b
  }

  /** bytes_to_do. */
  function ToDo(size: nat, pos: nat, lbuf: nat): nat
    requires pos <= size
  {
    Min(size - pos, lbuf)
  }

  /** nbytes. */
  function Moved(size: nat, pos: nat, lbuf: nat, short: nat): nat
    requires pos <= size
  {
    var todo := ToDo(size, pos, lbuf);
    if short < todo then todo - short else 0
  }

  /** All of it up to the end of the device, short of what the copy fails to transfer. */
  lemma MovedIs(size: nat, pos: nat, lbuf: nat, short: nat)
    requires pos <= size
    ensures var n := Moved(size, pos, lbuf, short);
            && (short == 0 ==> if pos + lbuf <= size then n == lbuf else pos + n == size)
            && n == (if pos + lbuf <= size then lbuf - Min(short, lbuf) else size - pos - Min(short, size - pos))
  {
  }

  /** The same for a copy that stops at byte `fault`. */
  lemma UpToFault(size: nat, pos: nat, lbuf: nat, fault: nat)
    requires pos <= size
    ensures Min(ToDo(size, pos, lbuf), fault) == if pos + lbuf <= size then Min(lbuf, fault) else Min(size - pos, fault)
  {
  }

  /** A 64-bit sum, as loff_t arithmetic gives it. */
  function Wrap64(n: int): (w: int)
    ensures -LOFF_LIMIT <= w < LOFF_LIMIT
  {
    var m := n % U64;
    if m < LOFF_LIMIT then m else m - U64
  }

  /** `testpos < ramdisk_size ? testpos : ramdisk_size`: on 64 bits the comparison is
      unsigned, on 32 bits it is signed; then `testpos >= 0 ? testpos : 0`. */
  function Land(arch: Arch, size: nat, testpos: int): nat {
    var below := if arch == Bits64 then testpos % U64 < size else testpos < size;
    var t := if below then testpos else size;
    if t >= 0 then t else 0
  }

  function Target(size: nat, pos: nat, offset: int, whence: Whence): Option<int> {
    match whence
    case SeekSet => Some(Wrap64(offset))
    case SeekCur => Some(Wrap64(pos + offset))
    case SeekEnd => Some(Wrap64(size + offset))
    case Other => None
  }

  predicate Fits(d: Device) {
    |d.disk| < INT_LIMIT && forall f :: 0 <= f < |d.pos| ==> d.pos[f] <= |d.disk|
  }

  /** What a seek clamped to the device would give. */
  function Clamp(size: nat, testpos: int): nat {
    if testpos < 0 then 0 else if testpos > size then size else testpos
  }

  /** Seeks land on the device; where a clamp would put them, except that on 64 bits
      every position before the start lands at the end of the device. */
  lemma SeekLands(arch: Arch, size: nat, testpos: int)
    requires 0 < size < INT_LIMIT && -LOFF_LIMIT <= testpos < LOFF_LIMIT
    ensures 0 <= Land(arch, size, testpos) <= size
    ensures Land(arch, size, testpos) == Clamp(size, testpos) <==> (arch == Bits32 || testpos >= 0)
    ensures arch == Bits64 && testpos < 0 ==> Land(arch, size, testpos) == size
  {
    if testpos >= 0 {
      assert testpos % U64 == testpos;
    } else {
      assert testpos % U64 == testpos + U64;
    }
  }

  /** The position that an offset is relative to. */
  function Base(size: nat, pos: nat, whence: Whence): nat {
    match whence
    case SeekCur => pos
    case SeekEnd => size
    case _ => 0
  }

  /** A seek to a place on the device goes there, from whichever end it is measured;
      one beyond the end stops at the end. */
  lemma SeekMeans(arch: Arch, size: nat, pos: nat, offset: int, whence: Whence)
    requires pos <= size < INT_LIMIT && whence != Other
    requires 0 <= Base(size, pos, whence) + offset < LOFF_LIMIT
    ensures Target(size, pos, offset, whence).Some?
    ensures var to := Base(size, pos, whence) + offset;
            Land(arch, size, Target(size, pos, offset, whence).value) == if to <= size then to else size
  {
    var to := Base(size, pos, whence) + offset;
    assert to % U64 == to && Wrap64(to) == to;
  }

  // ------------------------------------------------------------------- the device

  function Splice(disk: seq<bv8>, at: nat, bytes: seq<bv8>): seq<bv8>
    requires at + |bytes| <= |disk|
  {
    disk[..at] + bytes + disk[at + |bytes|..]
  }

  lemma SpliceIs(before: seq<bv8>, after: seq<bv8>, at: nat, bytes: seq<bv8>)
    requires |after| == |before| && at + |bytes| <= |before|
    requires forall k :: 0 <= k < |bytes| ==> after[at + k] == bytes[k]
    requires forall k :: 0 <= k < |before| && !(at <= k < at + |bytes|) ==> after[k] == before[k]
    ensures after == Splice(before, at, bytes)
  {
    forall k | 0 <= k < |before| ensures after[k] == Splice(before, at, bytes)[k] {
      if at <= k < at + |bytes| {
        assert after[at + (k - at)] == bytes[k - at];
      }
    }
  }

  /** The bytes are at their place, and nothing outside the stretch has changed. */
  ghost predicate Stored(before: seq<bv8>, after: seq<bv8>, at: nat, bytes: seq<bv8>, stretch: nat) {
    && |after| == |before| && at + |bytes| <= |after|
    && after[at..at + |bytes|] == bytes
    && forall k :: 0 <= k < |before| && !(at <= k < at + stretch) ==> after[k] == before[k]
  }

  /** What is behind the n bytes that get_user has fetched: `junk` where it failed, and
      then what was there. */
  ghost predicate Remains(before: seq<bv8>, at: nat, todo: nat, n: nat, junk: bv8, tail: seq<bv8>)
    requires at + todo <= |before|
  {
    n <= todo && |tail| == todo - n && (n < todo ==> tail == [junk] + before[at + n + 1..at + todo])
  }

  lemma TailIs(before: seq<bv8>, after: seq<bv8>, at: nat, bytes: seq<bv8>, todo: nat, junk: bv8, tail: seq<bv8>)
    requires |after| == |before| && |bytes| <= todo && at + todo <= |before|
    requires forall k :: 0 <= k < |bytes| ==> after[at + k] == bytes[k]
    requires |bytes| < todo ==> after[at + |bytes|] == junk
    requires forall k :: 0 <= k < |before| && !(at <= k < at + |bytes|) && !(|bytes| < todo && k == at + |bytes|) ==>
               after[k] == before[k]
    requires tail == after[at + |bytes|..at + todo]
    ensures Remains(before, at, todo, |bytes|, junk, tail)
    ensures after == Splice(before, at, bytes + tail)
  {
    assert after[at..at + |bytes|] == bytes;
    assert bytes + tail == after[at..at + todo];
    SpliceOf(before, after, at, todo);
  }

  lemma TailStores(before: seq<bv8>, after: seq<bv8>, at: nat, bytes: seq<bv8>, junk: bv8, tail: seq<bv8>)
    requires at + |bytes| + |tail| <= |before| && after == Splice(before, at, bytes + tail)
    requires tail != [] ==> tail == [junk] + before[at + |bytes| + 1..at + |bytes| + |tail|]
    ensures Stored(before, after, at, bytes, if tail != [] then |bytes| + 1 else |bytes|)
  {
    forall k | at + |bytes| < k < at + |bytes| + |tail| ensures after[k] == before[k] {
      assert after[k] == tail[k - at - |bytes|];
    }
  }

  lemma SpliceStores(before: seq<bv8>, after: seq<bv8>, at: nat, bytes: seq<bv8>, n: nat, stretch: nat)
    requires at + |bytes| <= |before| && after == Splice(before, at, bytes) && n <= |bytes| <= stretch
    ensures Stored(before, after, at, bytes[..n], stretch)
  {
  }

  lemma StoresMore(before: seq<bv8>, after: seq<bv8>, at: nat, bytes: seq<bv8>, stretch: nat, more: nat)
    requires Stored(before, after, at, bytes, stretch) && stretch <= more
    ensures Stored(before, after, at, bytes, more)
  {
  }

  /** A change confined to a range is a splice of what is there afterwards. */
  lemma SpliceOf(before: seq<bv8>, after: seq<bv8>, at: nat, n: nat)
    requires |after| == |before| && at + n <= |before|
    requires forall k :: 0 <= k < |before| && !(at <= k < at + n) ==> after[k] == before[k]
    ensures after == Splice(before, at, after[at..at + n])
  {
  }

  /** What a write leaves in the memory it was asked to fill. */
  function Filled(data: seq<bv8>, n: nat, todo: nat, junk: seq<bv8>): seq<bv8>
    requires n <= todo <= |data|
  {
    data[..n] + (if |junk| == todo - n then junk else seq(todo - n, _ => 0))
  }

  function Apply(arch: Arch, d: Device, op: Op): Device
    requires Fits(d)
  {
    if op.f >= |d.pos| then d else
    var size, p := |d.disk|, d.pos[op.f];
    match op
    case Read(f, lbuf, short) =>
      d.(pos := d.pos[f := p + Moved(size, p, lbuf, short)])
    case Write(f, data, short, junk) =>
      var todo := ToDo(size, p, |data|);
      var n := Moved(size, p, |data|, short);
      Device(Splice(d.disk, p, Filled(data, n, todo, junk)), d.pos[f := p + n])
    case Seek(f, offset, whence) =>
      match Target(size, p, offset, whence)
      case None => d
      case Some(t) =>
        d.(pos := d.pos[f := Land(arch, size, t)])
  }

  function Run(arch: Arch, d: Device, ops: seq<Op>): Device
    requires Fits(d)
    ensures Fits(Run(arch, d, ops))
    ensures |Run(arch, d, ops).disk| == |d.disk| && |Run(arch, d, ops).pos| == |d.pos|
  {
    if ops == [] then d else
    var m := Run(arch, d, ops[..|ops| - 1]);
    ApplyFits(arch, m, ops[|ops| - 1]);
    Apply(arch, m, ops[|ops| - 1])
  }

  /** One operation keeps every position on the device, moves only the position of its
      own file, by what it reports, and writes only where it was asked to. */
  lemma ApplyFits(arch: Arch, d: Device, op: Op)
    requires Fits(d)
    ensures var t := Apply(arch, d, op);
            && Fits(t) && |t.disk| == |d.disk| && |t.pos| == |d.pos|
            && (forall f :: 0 <= f < |d.pos| && f != op.f ==> t.pos[f] == d.pos[f])
            && (!op.Write? ==> t.disk == d.disk)
  {
    if op.Seek? && op.f < |d.pos| {
      var size := |d.disk|;
      match Target(size, d.pos[op.f], op.offset, op.whence)
      case None =>
      case Some(t) =>
        LandOnDevice(arch, size, t);
    }
  }

  lemma LandOnDevice(arch: Arch, size: nat, testpos: int)
    requires size < INT_LIMIT && -LOFF_LIMIT <= testpos < LOFF_LIMIT
    ensures Land(arch, size, testpos) <= size
  {
    if testpos >= 0 {
      assert testpos % U64 == testpos;
    }
  }

  // ------------------------------------------------------------------ properties

  /** The bytes a read hands over. */
  function ReadBytes(d: Device, f: nat, lbuf: nat): seq<bv8>
    requires Fits(d) && f < |d.pos|
  {
    d.disk[d.pos[f]..d.pos[f] + ToDo(|d.disk|, d.pos[f], lbuf)]
  }

  function Sum(sizes: seq<nat>): nat {
    if sizes == [] then 0 else sizes[0] + Sum(sizes[1..])
  }

  /** Reads of the given sizes, one after the other, and where they leave the file. */
  function ReadAll(arch: Arch, d: Device, f: nat, sizes: seq<nat>): (seq<bv8>, Device)
    requires Fits(d) && f < |d.pos|
    decreases sizes
  {
    if sizes == [] then ([], d) else
    var op := Read(f, sizes[0], 0);
    ApplyFits(arch, d, op);
    var (rest, t) := ReadAll(arch, Apply(arch, d, op), f, sizes[1..]);
    (ReadBytes(d, f, sizes[0]) + rest, t)
  }

  lemma ToDoInTwo(size: nat, p: nat, a: nat, b: nat)
    requires p <= size
    ensures p + ToDo(size, p, a) <= size
    ensures ToDo(size, p, a + b) == ToDo(size, p, a) + ToDo(size, p + ToDo(size, p, a), b)
  {
  }

  lemma ReadIs(arch: Arch, d: Device, f: nat, lbuf: nat, end: nat)
    requires Fits(d) && f < |d.pos| && end == d.pos[f] + ToDo(|d.disk|, d.pos[f], lbuf)
    ensures Apply(arch, d, Read(f, lbuf, 0)) == Device(d.disk, d.pos[f := end])
    ensures Fits(Device(d.disk, d.pos[f := end]))
  {
    ApplyFits(arch, d, Read(f, lbuf, 0));
  }

  lemma ReadInTwo(arch: Arch, d: Device, f: nat, a: nat, b: nat)
    requires Fits(d) && f < |d.pos|
    ensures var d1 := Apply(arch, d, Read(f, a, 0));
            && Fits(d1) && |d1.pos| == |d.pos|
            && ReadBytes(d, f, a + b) == ReadBytes(d, f, a) + ReadBytes(d1, f, b)
            && Apply(arch, d, Read(f, a + b, 0)) == Apply(arch, d1, Read(f, b, 0))
  {
    var size, p := |d.disk|, d.pos[f];
    ToDoInTwo(size, p, a, b);
    var mid, end := p + ToDo(size, p, a), p + ToDo(size, p, a + b);
    var d1 := Device(d.disk, d.pos[f := mid]);
    ReadIs(arch, d, f, a, mid);
    ReadIs(arch, d, f, a + b, end);
    ReadIs(arch, d1, f, b, end);
    assert d.pos[f := end] == d1.pos[f := end];
    assert d.disk[p..end] == d.disk[p..mid] + d.disk[mid..end];
  }

  /** However a sequential read is split, the bytes and the final position are those
      of one large read, at the end of the device too. */
  lemma {:induction false} SplitReads(arch: Arch, d: Device, f: nat, sizes: seq<nat>)
    requires Fits(d) && f < |d.pos|
    ensures ReadAll(arch, d, f, sizes).0 == ReadBytes(d, f, Sum(sizes))
    ensures ReadAll(arch, d, f, sizes).1 == Apply(arch, d, Read(f, Sum(sizes), 0))
    decreases sizes
  {
    if sizes == [] {
      assert d.pos[f := d.pos[f]] == d.pos;
    } else {
      ReadInTwo(arch, d, f, sizes[0], Sum(sizes[1..]));
      var d1 := Apply(arch, d, Read(f, sizes[0], 0));
      SplitReads(arch, d1, f, sizes[1..]);
      assert ReadAll(arch, d, f, sizes).0 == ReadBytes(d, f, sizes[0]) + ReadAll(arch, d1, f, sizes[1..]).0;
      assert ReadAll(arch, d, f, sizes).1 == ReadAll(arch, d1, f, sizes[1..]).1;
    }
  }

  /** Write, seek back, read: what was written comes back, and the file is where the
      write had left it, also when the write was cut short. */
  lemma WriteSeekRead(arch: Arch, d: Device, f: nat, data: seq<bv8>, short: nat, junk: seq<bv8>)
    requires Fits(d) && f < |d.pos| && 0 < |d.disk|
    ensures var n := Moved(|d.disk|, d.pos[f], |data|, short);
            var d1 := Run(arch, d, [Write(f, data, short, junk), Seek(f, d.pos[f], SeekSet)]);
            && d1.pos[f] == d.pos[f]
            && n <= |data| && ReadBytes(d1, f, n) == data[..n]
            && Apply(arch, d1, Read(f, n, 0)) == Apply(arch, d, Write(f, data, short, junk))
  {
    var p := d.pos[f];
    var n := Moved(|d.disk|, p, |data|, short);
    var w, k := Write(f, data, short, junk), Seek(f, p, SeekSet);
    assert [w, k][..1] == [w] && [w][..0] == [];
    ApplyFits(arch, d, w);
    var d0 := Apply(arch, d, w);
    assert Run(arch, d, [w]) == d0;
    SeekBack(arch, |d.disk|, p);
    var d1 := d0.(pos := d0.pos[f := p]);
    assert Run(arch, d, [w, k]) == d1;
    assert d1.pos[f := p + n] == d0.pos;
    WrittenThere(arch, d, f, data, short, junk);
  }

  lemma WrittenThere(arch: Arch, d: Device, f: nat, data: seq<bv8>, short: nat, junk: seq<bv8>)
    requires Fits(d) && f < |d.pos|
    ensures var p, n := d.pos[f], Moved(|d.disk|, d.pos[f], |data|, short);
            var t := Apply(arch, d, Write(f, data, short, junk));
            && n <= |data| && p + n <= |t.disk| == |d.disk|
            && t.disk[p..p + n] == data[..n]
  {
    var p, n := d.pos[f], Moved(|d.disk|, d.pos[f], |data|, short);
    var filled := Filled(data, n, ToDo(|d.disk|, p, |data|), junk);
    assert filled[..n] == data[..n];
  }

  lemma SeekBack(arch: Arch, size: nat, p: nat)
    requires p <= size < INT_LIMIT
    ensures Target(size, p, p, SeekSet) == Some(p as int) && Land(arch, size, p) == p
  {
  }

  /** A write by one file shows in a read by another exactly where they overlap. */
  lemma OthersSeeTheWrite(arch: Arch, d: Device, op: Op, k: nat)
    requires Fits(d) && op.Write? && op.f < |d.pos| && k < |d.disk|
    ensures var p := d.pos[op.f];
            var n := Moved(|d.disk|, p, |op.data|, op.short);
            var t := Apply(arch, d, op);
            && |t.disk| == |d.disk|
            && (p <= k < p + n ==> t.disk[k] == op.data[k - p])
            && (k < p || k >= p + ToDo(|d.disk|, p, |op.data|) ==> t.disk[k] == d.disk[k])
  {
    var p := d.pos[op.f];
    var todo := ToDo(|d.disk|, p, |op.data|);
    var n := Moved(|d.disk|, p, |op.data|, op.short);
    var filled := Filled(op.data, n, todo, op.junk);
    assert |filled| == todo && filled[..n] == op.data[..n];
  }
}
