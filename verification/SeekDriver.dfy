/** The read, write and lseek entry points of SOLUTIONS/s_04/lab3_seek.c, which copy
    in one go, and the read and write of SOLUTIONS/s_18/lab1_putget.c, which copy
    byte by byte, over the same ramdisk. */
module SeekDriver {
  import opened Options
  import opened SeekSpec

  class Driver {
    const arch: Arch
    const ramdisk: array<bv8>
    /** f_pos of the open files. */
    var pos: seq<nat>

    constructor (arch: Arch, size: nat, files: nat)
      requires 0 < size < INT_LIMIT
      ensures Valid() && this.arch == arch && ramdisk.Length == size && fresh(ramdisk)
      ensures pos == seq(files, _ => 0)
    {
      this.arch := arch;
      ramdisk := new bv8[size];
      pos := seq(files, _ => 0);
    }

    ghost predicate Valid()
      reads this, ramdisk
    {
      0 < ramdisk.Length && Fits(View())
    }

    ghost function View(): Device
      reads this, ramdisk
    {
      Device(ramdisk[..], pos)
    }

    method BytesToDo(f: nat, lbuf: nat) returns (todo: nat)
      requires Valid() && f < |pos|
      ensures todo == ToDo(ramdisk.Length, pos[f], lbuf)
    {
      var maxbytes := ramdisk.Length - pos[f];
      todo := if maxbytes > lbuf then lbuf else maxbytes;
    }

    /** mycdrv_read; copy_to_user fails to copy `short` bytes. */
    method Read(f: nat, buf: array<bv8>, lbuf: nat, short: nat) returns (nbytes: nat)
      requires Valid() && f < |pos| && lbuf <= buf.Length && buf != ramdisk
      modifies this`pos, buf
      ensures Valid() && View() == Apply(arch, old(View()), SeekSpec.Read(f, lbuf, short))
      ensures nbytes == Moved(ramdisk.Length, old(pos)[f], lbuf, short)
      ensures buf[..nbytes] == ReadBytes(old(View()), f, nbytes)
      ensures forall k :: nbytes <= k < buf.Length ==> buf[k] == old(buf[k])
      ensures var p, size := old(pos)[f], ramdisk.Length;
              && (short == 0 ==> if p + lbuf <= size then nbytes == lbuf else p + nbytes == size)
              && nbytes == (if p + lbuf <= size then lbuf - Min(short, lbuf) else size - p - Min(short, size - p))
      ensures pos == old(pos)[f := old(pos)[f] + nbytes]
      ensures buf[..nbytes] == ramdisk[old(pos)[f]..old(pos)[f] + nbytes]
    {
      var todo := BytesToDo(f, lbuf);
      var left := if short < todo then short else todo;
      nbytes := todo - left;
      forall k | 0 <= k < nbytes {
        buf[k] := ramdisk[pos[f] + k];
      }
      ApplyFits(arch, View(), SeekSpec.Read(f, lbuf, short));
      pos := pos[f := pos[f] + nbytes];
    }

    /** memcpy into the ramdisk. */
    method CopyIn(at: nat, bytes: seq<bv8>)
      requires at + |bytes| <= ramdisk.Length
      modifies ramdisk
      ensures ramdisk[..] == Splice(old(ramdisk[..]), at, bytes)
    {
      forall k | 0 <= k < |bytes| {
        ramdisk[at + k] := bytes[k];
      }
      SpliceIs(old(ramdisk[..]), ramdisk[..], at, bytes);
    }

    /** mycdrv_write; what a failing copy leaves is up to the caller. */
    method Write(f: nat, buf: array<bv8>, lbuf: nat, short: nat, junk: seq<bv8>) returns (nbytes: nat)
      requires Valid() && f < |pos| && lbuf <= buf.Length && buf != ramdisk
      modifies this`pos, ramdisk
      ensures Valid()
      ensures View() == Apply(arch, old(View()), SeekSpec.Write(f, buf[..lbuf], short, junk))
      ensures nbytes == Moved(ramdisk.Length, old(pos)[f], lbuf, short)
      ensures var p, size := old(pos)[f], ramdisk.Length;
              && (short == 0 ==> if p + lbuf <= size then nbytes == lbuf else p + nbytes == size)
              && nbytes == (if p + lbuf <= size then lbuf - Min(short, lbuf) else size - p - Min(short, size - p))
      ensures pos == old(pos)[f := old(pos)[f] + nbytes]
      ensures Stored(old(ramdisk[..]), ramdisk[..], old(pos)[f], buf[..nbytes], lbuf)
    {
      ghost var d := View();
      nbytes := PutFromUser(f, buf, lbuf, short, junk);
      PlainCopy(arch, d, f, buf[..lbuf], short, junk, nbytes, View());
      assert buf[..lbuf][..nbytes] == buf[..nbytes];
    }

    method PutFromUser(f: nat, buf: array<bv8>, lbuf: nat, short: nat, junk: seq<bv8>) returns (nbytes: nat)
      requires Valid() && f < |pos| && lbuf <= buf.Length && buf != ramdisk
      modifies this`pos, ramdisk
      ensures Valid()
      ensures View() == Apply(arch, old(View()), SeekSpec.Write(f, buf[..lbuf], short, junk))
      ensures nbytes == Moved(ramdisk.Length, old(pos)[f], lbuf, short)
    {
      var todo := BytesToDo(f, lbuf);
      var left := if short < todo then short else todo;
      nbytes := todo - left;
      var filled := Filled(buf[..lbuf], nbytes, todo, junk);
      ghost var d, op := View(), SeekSpec.Write(f, buf[..lbuf], short, junk);
      ApplyFits(arch, d, op);
      var p := pos[f];
      CopyIn(p, filled);
      pos := pos[f := p + nbytes];
    }

    /** mycdrv_lseek; None stands for -EINVAL. */
    method Lseek(f: nat, offset: int, orig: Whence) returns (r: Option<nat>)
      requires Valid() && f < |pos|
      modifies this`pos
      ensures Valid() && View() == Apply(arch, old(View()), Seek(f, offset, orig))
      ensures r == None <==> orig == Other
      ensures r.Some? ==> pos[f] == r.value <= ramdisk.Length
    {
      ApplyFits(arch, View(), Seek(f, offset, orig));
      var testpos: int;
      match orig {
        case SeekSet => testpos := Wrap64(offset);
        case SeekCur => testpos := Wrap64(pos[f] + offset);
        case SeekEnd => testpos := Wrap64(ramdisk.Length + offset);
        case Other => return None;
      }
      var size := ramdisk.Length;
      var below := if arch == Bits64 then testpos % U64 < size else testpos < size;
      testpos := if below then testpos else size;
      testpos := if testpos >= 0 then testpos else 0;
      pos := pos[f := testpos];
      return Some(testpos);
    }

    /** mycdrv_read of lab1_putget.c: put_user fails at byte `fault`.  It agrees with
        Read when copy_to_user stops at the same byte. */
    method ReadByBytes(f: nat, buf: array<bv8>, lbuf: nat, fault: nat) returns (nbytes: nat)
      requires Valid() && f < |pos| && lbuf <= buf.Length && buf != ramdisk
      modifies this`pos, buf
      ensures var todo := ToDo(ramdisk.Length, old(pos)[f], lbuf);
              && nbytes == Min(todo, fault)
              && View() == Apply(arch, old(View()), SeekSpec.Read(f, lbuf, todo - nbytes))
      ensures Valid() && buf[..nbytes] == ReadBytes(old(View()), f, nbytes)
      ensures forall k :: nbytes <= k < buf.Length ==> buf[k] == old(buf[k])
      ensures var p, size := old(pos)[f], ramdisk.Length;
              nbytes == if p + lbuf <= size then Min(lbuf, fault) else Min(size - p, fault)
      ensures pos == old(pos)[f := old(pos)[f] + nbytes]
      ensures buf[..nbytes] == ramdisk[old(pos)[f]..old(pos)[f] + nbytes]
    {
      nbytes := 0;
      var p := pos[f];
      var tmp := p;
      var todo := BytesToDo(f, lbuf);
      while nbytes < todo && nbytes != fault
        invariant pos == old(pos)
        invariant nbytes <= Min(todo, fault) && tmp == p + nbytes
        invariant buf[..nbytes] == ramdisk[p..tmp]
        invariant forall k :: nbytes <= k < buf.Length ==> buf[k] == old(buf[k])
        decreases todo - nbytes
      {
        buf[nbytes] := ramdisk[tmp];
        nbytes := nbytes + 1;
        tmp := tmp + 1;
      }
      ApplyFits(arch, View(), SeekSpec.Read(f, lbuf, todo - nbytes));
      pos := pos[f := p + nbytes];
    }

    /** mycdrv_write of lab1_putget.c: get_user fails at byte `fault` and stores `junk`
        there; the bytes behind it are not touched. */
    method WriteByBytes(f: nat, buf: array<bv8>, lbuf: nat, fault: nat, junk: bv8)
      returns (nbytes: nat, ghost tail: seq<bv8>)
      requires Valid() && f < |pos| && lbuf <= buf.Length && buf != ramdisk
      modifies this`pos, ramdisk
      ensures Valid()
      ensures var todo := ToDo(ramdisk.Length, old(pos)[f], lbuf);
              && nbytes == Min(todo, fault)
              && View() == Apply(arch, old(View()), SeekSpec.Write(f, buf[..lbuf], todo - nbytes, tail))
              && Remains(old(ramdisk[..]), old(pos)[f], todo, nbytes, junk, tail)
      ensures var p, size := old(pos)[f], ramdisk.Length;
              nbytes == if p + lbuf <= size then Min(lbuf, fault) else Min(size - p, fault)
      ensures pos == old(pos)[f := old(pos)[f] + nbytes]
      ensures Stored(old(ramdisk[..]), ramdisk[..], old(pos)[f], buf[..nbytes],
                     if nbytes < lbuf then nbytes + 1 else nbytes)
    {
      ghost var d := View();
      nbytes, tail := PutBytes(f, buf, lbuf, fault, junk);
      PlainWrite(arch, d, f, buf[..lbuf], fault, junk, nbytes, tail, View());
      assert buf[..lbuf][..nbytes] == buf[..nbytes];
    }

    method PutBytes(f: nat, buf: array<bv8>, lbuf: nat, fault: nat, junk: bv8)
      returns (nbytes: nat, ghost tail: seq<bv8>)
      requires Valid() && f < |pos| && lbuf <= buf.Length && buf != ramdisk
      modifies this`pos, ramdisk
      ensures Valid()
      ensures var todo := ToDo(ramdisk.Length, old(pos)[f], lbuf);
              && nbytes == Min(todo, fault)
              && View() == Apply(arch, old(View()), SeekSpec.Write(f, buf[..lbuf], todo - nbytes, tail))
              && Remains(old(ramdisk[..]), old(pos)[f], todo, nbytes, junk, tail)
    {
      var p := pos[f];
      var todo := BytesToDo(f, lbuf);
      ghost var d := View();
      nbytes, tail := CopyByBytes(p, buf, todo, fault, junk);
      assert buf[..lbuf][..nbytes] == buf[..nbytes];
      WriteIs(arch, d, f, buf[..lbuf], nbytes, tail, ramdisk[..]);
      pos := pos[f := p + nbytes];
    }

    /** The get_user loop; `tail` is what it leaves of the rest of the range. */
    method CopyByBytes(p: nat, buf: array<bv8>, todo: nat, fault: nat, junk: bv8)
      returns (nbytes: nat, ghost tail: seq<bv8>)
      requires p + todo <= ramdisk.Length && todo <= buf.Length && buf != ramdisk
      modifies ramdisk
      ensures nbytes == Min(todo, fault)
      ensures Remains(old(ramdisk[..]), p, todo, nbytes, junk, tail)
      ensures ramdisk[..] == Splice(old(ramdisk[..]), p, buf[..nbytes] + tail)
    {
      nbytes := GetUserLoop(p, buf, todo, fault);
      if nbytes < todo {
        ramdisk[p + nbytes] := junk;
      }
      tail := ramdisk[p + nbytes..p + todo];
      TailIs(old(ramdisk[..]), ramdisk[..], p, buf[..nbytes], todo, junk, tail);
    }

    method GetUserLoop(p: nat, buf: array<bv8>, todo: nat, fault: nat) returns (nbytes: nat)
      requires p + todo <= ramdisk.Length && todo <= buf.Length && buf != ramdisk
      modifies ramdisk
      ensures nbytes == Min(todo, fault)
      ensures forall k :: 0 <= k < nbytes ==> ramdisk[p + k] == buf[k]
      ensures forall k :: 0 <= k < ramdisk.Length && !(p <= k < p + nbytes) ==> ramdisk[k] == old(ramdisk[k])
    {
      nbytes := 0;
      var tmp := p;
      while nbytes < todo && nbytes != fault
        invariant nbytes <= Min(todo, fault) && tmp == p + nbytes
        invariant forall k :: 0 <= k < nbytes ==> ramdisk[p + k] == buf[k]
        invariant forall k :: 0 <= k < ramdisk.Length && !(p <= k < tmp) ==> ramdisk[k] == old(ramdisk[k])
        decreases todo - nbytes
      {
        ramdisk[tmp] := buf[nbytes];
        nbytes := nbytes + 1;
        tmp := tmp + 1;
      }
    }
  }

  /** What a write comes to: the bytes transferred are at their place, no byte outside
      the range asked for has changed, and the position is behind them. */
  lemma PlainCopy(arch: Arch, d: Device, f: nat, data: seq<bv8>, short: nat, junk: seq<bv8>, n: nat, t: Device)
    requires Fits(d) && f < |d.pos| && n == Moved(|d.disk|, d.pos[f], |data|, short)
    requires t == Apply(arch, d, SeekSpec.Write(f, data, short, junk))
    ensures var p, size, lbuf := d.pos[f], |d.disk|, |data|;
            && (short == 0 ==> if p + lbuf <= size then n == lbuf else p + n == size)
            && n == (if p + lbuf <= size then lbuf - Min(short, lbuf) else size - p - Min(short, size - p))
    ensures n <= |data| && t.pos == d.pos[f := d.pos[f] + n]
    ensures Stored(d.disk, t.disk, d.pos[f], data[..n], |data|)
  {
    var p, todo := d.pos[f], ToDo(|d.disk|, d.pos[f], |data|);
    MovedIs(|d.disk|, p, |data|, short);
    var filled := Filled(data, n, todo, junk);
    assert filled[..n] == data[..n];
    SpliceStores(d.disk, t.disk, p, filled, n, |data|);
  }

  /** What that comes to: the bytes fetched are at their place, at most one other byte
      has changed, and the position is behind them. */
  lemma PlainWrite(arch: Arch, d: Device, f: nat, data: seq<bv8>, fault: nat, junk: bv8,
                   n: nat, tail: seq<bv8>, t: Device)
    requires Fits(d) && f < |d.pos|
    requires var todo := ToDo(|d.disk|, d.pos[f], |data|);
             && n == Min(todo, fault) && Remains(d.disk, d.pos[f], todo, n, junk, tail)
             && t == Apply(arch, d, SeekSpec.Write(f, data, todo - n, tail))
    ensures n == if d.pos[f] + |data| <= |d.disk| then Min(|data|, fault) else Min(|d.disk| - d.pos[f], fault)
    ensures t.pos == d.pos[f := d.pos[f] + n]
    ensures Stored(d.disk, t.disk, d.pos[f], data[..n], if n < |data| then n + 1 else n)
  {
    var p, todo := d.pos[f], ToDo(|d.disk|, d.pos[f], |data|);
    UpToFault(|d.disk|, p, |data|, fault);
    assert Filled(data, n, todo, tail) == data[..n] + tail;
    TailStores(d.disk, t.disk, p, data[..n], junk, tail);
    StoresMore(d.disk, t.disk, p, data[..n], if n < todo then n + 1 else n, if n < |data| then n + 1 else n);
  }

  /** A write of n bytes, with the given remains behind them. */
  lemma WriteIs(arch: Arch, d: Device, f: nat, data: seq<bv8>, n: nat, tail: seq<bv8>, disk: seq<bv8>)
    requires Fits(d) && f < |d.pos|
    requires var todo := ToDo(|d.disk|, d.pos[f], |data|);
             && n <= todo <= |data| && |tail| == todo - n && d.pos[f] + todo <= |d.disk|
             && disk == Splice(d.disk, d.pos[f], data[..n] + tail)
    ensures var left := ToDo(|d.disk|, d.pos[f], |data|) - n;
            && Apply(arch, d, SeekSpec.Write(f, data, left, tail)) == Device(disk, d.pos[f := d.pos[f] + n])
            && Fits(Device(disk, d.pos[f := d.pos[f] + n]))
  {
    var todo := ToDo(|d.disk|, d.pos[f], |data|);
    ApplyFits(arch, d, SeekSpec.Write(f, data, todo - n, tail));
    assert Filled(data, n, todo, tail) == data[..n] + tail;
  }
}
