/** The three-byte "microsoft" serial mouse protocol, as both mouse drivers of
    SOLUTIONS/s_21 read it: a frame starts with a byte that has 0x40 set; any other
    byte is dropped while no frame has been started. */
module MouseProtocol {
  import opened Options
  import opened Sequences

  /** Bytes received of the packet being assembled, or a whole packet. */
  type Frame = seq<bv8>

  /** The deltas are kept as the bytes that the driver then reads as signed chars. */
  datatype Packet = Packet(dx: bv8, dy: bv8, left: bool, right: bool)

  const MAGIC: bv8 := 0x40
  const NBYTES := 3

  // ------------------------------------------------------------------ framing

  predicate IsFirst(b: bv8) {
    b & MAGIC != 0
  }

  function Accept(f: Frame, b: bv8): Frame {
    if |f| > 0 || IsFirst(b) then f + [b] else f
  }

  /** The frame under way after byte b. */
  function Step(f: Frame, b: bv8): Frame {
    var g := Accept(f, b);
    if |g| == NBYTES then [] else g
  }

  /** The packet completed by byte b, if any. */
  function Completed(f: Frame, b: bv8): seq<Frame> {
    var g := Accept(f, b);
    if |g| == NBYTES then [g] else []
  }

  function Rest(f: Frame, bytes: seq<bv8>): Frame
    decreases bytes
  {
    if bytes == [] then f else Rest(Step(f, bytes[0]), bytes[1..])
  }

  function Frames(f: Frame, bytes: seq<bv8>): seq<Frame>
    decreases bytes
  {
    if bytes == [] then [] else Completed(f, bytes[0]) + Frames(Step(f, bytes[0]), bytes[1..])
  }

  lemma {:induction false} RestConcat(f: Frame, a: seq<bv8>, b: seq<bv8>)
    ensures Rest(f, a + b) == Rest(Rest(f, a), b)
    decreases a
  {
    if a == [] {
      assert a + b == b;
    } else {
      assert (a + b)[1..] == a[1..] + b;
      RestConcat(Step(f, a[0]), a[1..], b);
    }
  }

  lemma {:induction false} FramesConcat(f: Frame, a: seq<bv8>, b: seq<bv8>)
    ensures Frames(f, a + b) == Frames(f, a) + Frames(Rest(f, a), b)
    decreases a
  {
    if a == [] {
      assert a + b == b;
    } else {
      var g, out := Step(f, a[0]), Completed(f, a[0]);
      assert (a + b)[1..] == a[1..] + b;
      FramesConcat(g, a[1..], b);
      Associative(out, Frames(g, a[1..]), Frames(Rest(g, a[1..]), b));
    }
  }

  /** The framing state depends on the bytes only, not on how they are batched. */
  lemma BatchIndependent(f: Frame, a: seq<bv8>, b: seq<bv8>)
    ensures Rest(f, a + b) == Rest(Rest(f, a), b)
    ensures Frames(f, a + b) == Frames(f, a) + Frames(Rest(f, a), b)
  {
    RestConcat(f, a, b);
    FramesConcat(f, a, b);
  }

  lemma FramesOfOne(f: Frame, b: bv8)
    ensures Rest(f, [b]) == Step(f, b) && Frames(f, [b]) == Completed(f, b)
  {
    assert [b][1..] == [];
  }

  lemma {:induction false} FrameStaysShort(f: Frame, bytes: seq<bv8>)
    requires |f| < NBYTES
    ensures |Rest(f, bytes)| < NBYTES
    ensures forall k :: 0 <= k < |Frames(f, bytes)| ==> |Frames(f, bytes)[k]| == NBYTES
    decreases bytes
  {
    if bytes != [] {
      FrameStaysShort(Step(f, bytes[0]), bytes[1..]);
    }
  }

  // -------------------------------------------------------- self-stabilisation

  /** 0x40 in the first byte and only there. */
  predicate WellFormed(w: Frame) {
    |w| == NBYTES && IsFirst(w[0]) && !IsFirst(w[1]) && !IsFirst(w[2])
  }

  function Flatten(ws: seq<Frame>): seq<bv8> {
    if ws == [] then [] else ws[0] + Flatten(ws[1..])
  }

  /** What one well-formed packet does to a decoder in any state: one packet comes
      out, its own if the decoder was aligned, and the decoder is aligned after. */
  lemma OnePacket(f: Frame, w: Frame)
    requires |f| < NBYTES && WellFormed(w)
    ensures Rest(f, w) == []
    ensures Frames(f, w) == [(f + w)[..NBYTES]]
  {
    ThreeBytes(f, w);
    ThreeSteps(f, w[0], w[1], w[2]);
    assert w == [w[0], w[1], w[2]];
  }

  lemma ThreeSteps(f: Frame, a: bv8, b: bv8, c: bv8)
    requires |f| < NBYTES && IsFirst(a) && !IsFirst(b) && !IsFirst(c)
    ensures var f1 := Step(f, a);
            var f2 := Step(f1, b);
            && Step(f2, c) == []
            && Completed(f, a) + Completed(f1, b) + Completed(f2, c) == [(f + [a, b, c])[..NBYTES]]
  {
    match |f|
    case 0 =>
      assert f == [] && Step(f, a) == [a] && Step([a], b) == [a, b] && Accept([a, b], c) == [a, b, c];
      assert (f + [a, b, c])[..NBYTES] == [a, b, c];
    case 1 =>
      assert f == [f[0]] && Step(f, a) == [f[0], a] && Accept([f[0], a], b) == [f[0], a, b];
      assert (f + [a, b, c])[..NBYTES] == [f[0], a, b];
    case _ =>
      assert f == [f[0], f[1]] && Accept(f, a) == [f[0], f[1], a];
      assert (f + [a, b, c])[..NBYTES] == [f[0], f[1], a];
  }

  lemma ThreeBytes(f: Frame, w: Frame)
    requires |w| == 3
    ensures var f1 := Step(f, w[0]);
            var f2 := Step(f1, w[1]);
            && Rest(f, w) == Step(f2, w[2])
            && Frames(f, w) == Completed(f, w[0]) + Completed(f1, w[1]) + Completed(f2, w[2])
  {
    var f1 := Step(f, w[0]);
    var f2 := Step(f1, w[1]);
    assert w[1..][0] == w[1] && w[1..][1..] == w[2..] && w[2..][0] == w[2] && w[2..][1..] == [];
    assert Rest(f, w) == Rest(f1, w[1..]) == Rest(f2, w[2..]) == Step(f2, w[2]);
    assert Frames(f2, w[2..]) == Completed(f2, w[2]);
    assert Frames(f1, w[1..]) == Completed(f1, w[1]) + Completed(f2, w[2]);
  }

  lemma {:induction false} AlignedStream(ws: seq<Frame>)
    requires forall k :: 0 <= k < |ws| ==> WellFormed(ws[k])
    ensures Rest([], Flatten(ws)) == [] && Frames([], Flatten(ws)) == ws
  {
    if ws != [] {
      AlignedPacket(ws[0]);
      AlignedStream(ws[1..]);
      AndThen([], ws[0], Flatten(ws[1..]), [ws[0]], ws[1..]);
    }
  }

  lemma AlignedPacket(w: Frame)
    requires WellFormed(w)
    ensures Rest([], w) == [] && Frames([], w) == [w]
  {
    OnePacket([], w);
    assert ([] + w)[..NBYTES] == w;
  }

  lemma AndThen(f: Frame, a: seq<bv8>, b: seq<bv8>, ws: seq<Frame>, more: seq<Frame>)
    requires Rest(f, a) == [] && Frames(f, a) == ws && Rest([], b) == [] && Frames([], b) == more
    ensures Rest(f, a + b) == [] && Frames(f, a + b) == ws + more
  {
    BatchIndependent(f, a, b);
  }

  /** From whatever state: one packet comes out while `first` arrives, the packets
      after it come out exactly, and the decoder ends aligned. */
  ghost predicate Realigns(f: Frame, first: Frame, ws: seq<Frame>)
    requires |first| == NBYTES
  {
    && Rest(f, first + Flatten(ws)) == []
    && Frames(f, first + Flatten(ws)) == [(f + first)[..NBYTES]] + ws
  }

  /** Self-stabilisation: one well-formed packet is enough, in any state. */
  lemma Realign(f: Frame, first: Frame, ws: seq<Frame>)
    requires |f| < NBYTES && WellFormed(first)
    requires forall k :: 0 <= k < |ws| ==> WellFormed(ws[k])
    ensures Realigns(f, first, ws)
  {
    OnePacket(f, first);
    AlignedStream(ws);
    BatchIndependent(f, first, Flatten(ws));
  }

  /** So it is after any junk whatever: what comes out is what the junk gave, then one
      packet, then ws.  The one packet is `first` itself if the junk ended at a packet
      boundary (Rest is then empty), and may be spurious otherwise. */
  lemma Resynchronises(junk: seq<bv8>, first: Frame, ws: seq<Frame>, stream: seq<bv8>)
    requires WellFormed(first) && forall k :: 0 <= k < |ws| ==> WellFormed(ws[k])
    requires stream == first + Flatten(ws)
    ensures Realigns(Rest([], junk), first, ws)
    ensures Frames([], junk + stream) == Frames([], junk) + Frames(Rest([], junk), stream)
    ensures Rest([], junk + stream) == Rest(Rest([], junk), stream)
  {
    FrameStaysShort([], junk);
    Realign(Rest([], junk), first, ws);
    BatchIndependent([], junk, stream);
  }

  /** How far out of step, in bytes, a decoder that was out by k is after a packet of
      three bytes of which the first is marked.  Any of the others that is marked can
      be taken for the first of a packet. */
  function SkewAfterOne(k: nat, w: Frame): nat
    requires |w| == NBYTES
  {
    if k == 0 || (!IsFirst(w[1]) && !IsFirst(w[2])) then 0
    else if k == 1 then (if IsFirst(w[2]) then 1 else 0)
    else if IsFirst(w[1]) then 2 else 1
  }

  lemma SkewOfOne(f: Frame, w: Frame)
    requires |f| < NBYTES && |w| == NBYTES && IsFirst(w[0])
    ensures |Rest(f, w)| == SkewAfterOne(|f|, w)
  {
    ThreeBytes(f, w);
    SkewOfSteps(f, w[0], w[1], w[2]);
  }

  lemma SkewOfSteps(f: Frame, a: bv8, b: bv8, c: bv8)
    requires |f| < NBYTES && IsFirst(a)
    ensures |Step(Step(Step(f, a), b), c)| == SkewAfterOne(|f|, [a, b, c])
  {
    if |f| == 0 {
      assert Step(f, a) == [a] && Step([a], b) == [a, b];
    } else if |f| == 1 {
      assert f == [f[0]] && Step(f, a) == [f[0], a];
    } else {
      assert Step(f, a) == [];
    }
  }

  lemma UnmarkedAligns(f: Frame, a: bv8, b: bv8, c: bv8)
    requires |f| < NBYTES && !IsFirst(b) && !IsFirst(c)
    ensures Step(Step(Step(f, a), b), c) == []
  {
    if |f| == 0 {
      assert IsFirst(a) ==> Step(f, a) == [a] && Step([a], b) == [a, b];
    } else if |f| == 1 {
      assert f == [f[0]] && Step(f, a) == [f[0], a];
    } else {
      assert Step(f, a) == [];
    }
  }

  lemma MarkedKeepsOut(f: Frame, a: bv8, b: bv8, c: bv8)
    requires |f| == 2 && (IsFirst(b) || IsFirst(c))
    ensures Step(Step(Step(f, a), b), c) != []
  {
    assert Step(f, a) == [];
  }

  /** Three bytes align every decoder exactly if the last two are not marked; if the
      first is, exactly if they are a well-formed packet. */
  lemma AlignsEverythingIff(w: Frame)
    requires |w| == NBYTES
    ensures (forall f: Frame | |f| < NBYTES :: Rest(f, w) == []) <==> !IsFirst(w[1]) && !IsFirst(w[2])
    ensures IsFirst(w[0]) ==> ((forall f: Frame | |f| < NBYTES :: Rest(f, w) == []) <==> WellFormed(w))
  {
    if !IsFirst(w[1]) && !IsFirst(w[2]) {
      forall f: Frame | |f| < NBYTES ensures Rest(f, w) == [] {
        ThreeBytes(f, w);
        UnmarkedAligns(f, w[0], w[1], w[2]);
      }
    } else {
      var late: Frame := [0, 0];
      ThreeBytes(late, w);
      MarkedKeepsOut(late, w[0], w[1], w[2]);
    }
  }

  ghost predicate Packets(ws: seq<Frame>) {
    forall k :: 0 <= k < |ws| ==> |ws[k]| == NBYTES && IsFirst(ws[k][0])
  }

  function SkewAfter(k: nat, ws: seq<Frame>): nat
    requires forall i :: 0 <= i < |ws| ==> |ws[i]| == NBYTES
  {
    if ws == [] then k else SkewAfter(SkewAfterOne(k, ws[0]), ws[1..])
  }

  /** On any stream of packets, well-formed or not, how far out of step the decoder ends
      depends only on how far out it began and on the marks. */
  lemma {:induction false} SkewOfStream(f: Frame, ws: seq<Frame>)
    requires |f| < NBYTES && Packets(ws)
    ensures |Rest(f, Flatten(ws))| == SkewAfter(|f|, ws)
    decreases ws
  {
    if ws != [] {
      SkewOfOne(f, ws[0]);
      SkewOfStream(Rest(f, ws[0]), ws[1..]);
      RestConcat(f, ws[0], Flatten(ws[1..]));
    }
  }

  /** Some packet's last byte is not marked. */
  ghost predicate LastUnmarked(ws: seq<Frame>)
    requires Packets(ws)
  {
    exists j :: 0 <= j < |ws| && !IsFirst(ws[j][2])
  }

  /** Some packet's middle byte is not marked, and neither is its last or that of a
      later packet. */
  ghost predicate BothUnmarked(ws: seq<Frame>)
    requires Packets(ws)
  {
    exists i, j :: 0 <= i <= j < |ws| && !IsFirst(ws[i][1]) && !IsFirst(ws[j][2])
  }

  lemma LastUnmarkedTail(ws: seq<Frame>)
    requires Packets(ws) && ws != []
    ensures LastUnmarked(ws) <==> !IsFirst(ws[0][2]) || LastUnmarked(ws[1..])
  {
    forall j | 0 <= j < |ws[1..]| && !IsFirst(ws[1..][j][2]) ensures LastUnmarked(ws) {
      assert ws[j + 1] == ws[1..][j];
    }
    forall j | 0 <= j < |ws| && !IsFirst(ws[j][2]) ensures !IsFirst(ws[0][2]) || LastUnmarked(ws[1..]) {
      assert j > 0 ==> ws[1..][j - 1] == ws[j];
    }
  }

  lemma BothUnmarkedTail(ws: seq<Frame>)
    requires Packets(ws) && ws != []
    ensures BothUnmarked(ws) <==> (!IsFirst(ws[0][1]) && LastUnmarked(ws)) || BothUnmarked(ws[1..])
  {
    forall i, j | 0 <= i <= j < |ws[1..]| && !IsFirst(ws[1..][i][1]) && !IsFirst(ws[1..][j][2])
      ensures BothUnmarked(ws)
    {
      assert ws[i + 1] == ws[1..][i] && ws[j + 1] == ws[1..][j];
    }
    forall i, j | 0 <= i <= j < |ws| && !IsFirst(ws[i][1]) && !IsFirst(ws[j][2])
      ensures (!IsFirst(ws[0][1]) && LastUnmarked(ws)) || BothUnmarked(ws[1..])
    {
      assert i > 0 ==> ws[1..][i - 1] == ws[i] && ws[1..][j - 1] == ws[j];
    }
  }

  lemma {:induction false} SkewZeroIff(k: nat, ws: seq<Frame>)
    requires k < NBYTES && Packets(ws)
    ensures SkewAfter(k, ws) == 0 <==>
            k == 0 || (k == 1 && LastUnmarked(ws)) || (k == 2 && BothUnmarked(ws))
  {
    if ws != [] {
      SkewZeroIff(SkewAfterOne(k, ws[0]), ws[1..]);
      LastUnmarkedTail(ws);
      BothUnmarkedTail(ws);
    }
  }

  /** When realignment is certain: a stream of packets whose first bytes are marked
      leaves every decoder aligned, however far out of step it began, exactly if some
      packet's middle byte is not marked and neither is its last or that of a later
      packet.  One well-formed packet is enough; a stream with every byte marked never
      does it. */
  lemma StreamAlignsIff(ws: seq<Frame>)
    requires Packets(ws)
    ensures (forall f: Frame | |f| < NBYTES :: Rest(f, Flatten(ws)) == []) <==> BothUnmarked(ws)
  {
    forall f: Frame | |f| < NBYTES ensures |Rest(f, Flatten(ws))| == SkewAfter(|f|, ws) {
      SkewOfStream(f, ws);
    }
    SkewZeroIff(0, ws);
    SkewZeroIff(1, ws);
    SkewZeroIff(2, ws);
    var late: Frame := [0, 0];
    assert |Rest(late, Flatten(ws))| == SkewAfter(2, ws);
  }

  // ----------------------------------------------------- decoding and encoding

  function DxBits(b0: bv8, b1: bv8): bv8 {
    ((b0 & 0x03) << 6) | (b1 & 0x3f)
  }

  function DyBits(b0: bv8, b2: bv8): bv8 {
    ((b0 & 0x0c) << 4) | (b2 & 0x3f)
  }

  function Decode(w: Frame): Packet
    requires |w| == NBYTES
  {
    Packet(DxBits(w[0], w[1]), DyBits(w[0], w[2]), w[0] & 0x20 != 0, w[0] & 0x10 != 0)
  }

  function FirstByte(x: bv8, y: bv8, left: bool, right: bool): bv8 {
    MAGIC | (if left then 0x20 else 0) | (if right then 0x10 else 0) | ((y >> 4) & 0x0c) | (x >> 6)
  }

  /** What the mouse sends. */
  function Encode(p: Packet): Frame {
    [FirstByte(p.dx, p.dy, p.left, p.right), p.dx & 0x3f, p.dy & 0x3f]
  }

  /** Encoding and decoding a packet gives back every field. */
  lemma RoundTrip(p: Packet)
    ensures WellFormed(Encode(p)) && Decode(Encode(p)) == p
  {
    BitsRoundTrip(p.dx, p.dy, p.left, p.right);
  }

  lemma BitsRoundTrip(x: bv8, y: bv8, left: bool, right: bool)
    ensures var b := FirstByte(x, y, left, right);
            && IsFirst(b)
            && DxBits(b, x & 0x3f) == x && DyBits(b, y & 0x3f) == y
            && (b & 0x20 != 0 <==> left) && (b & 0x10 != 0 <==> right)
    ensures !IsFirst(x & 0x3f) && !IsFirst(y & 0x3f)
  {
  }

  /** The bytes of a packet that the protocol uses: seven bits, 0x40 first only. */
  predicate Canonical(w: Frame) {
    |w| == NBYTES && w[0] & 0xc0 == 0x40 && w[1] & 0xc0 == 0 && w[2] & 0xc0 == 0
  }

  /** Decoding and encoding gives back the bytes: no two canonical packets mean the
      same, and every canonical packet means something. */
  lemma BackRoundTrip(w: Frame)
    requires Canonical(w)
    ensures Encode(Decode(w)) == w
  {
    BackBits(w[0], w[1], w[2]);
  }

  lemma BackBits(b0: bv8, b1: bv8, b2: bv8)
    requires b0 & 0xc0 == 0x40 && b1 & 0xc0 == 0 && b2 & 0xc0 == 0
    ensures FirstByte(DxBits(b0, b1), DyBits(b0, b2), b0 & 0x20 != 0, b0 & 0x10 != 0) == b0
    ensures DxBits(b0, b1) & 0x3f == b1 && DyBits(b0, b2) & 0x3f == b2
  {
  }

  /** Of any three bytes whatever, also of those that a lost byte has brought together,
      decoding reads the low six bits, and every one of them. */
  lemma SameMeaningIff(w: Frame, v: Frame, a0: bv8, a1: bv8, a2: bv8, b0: bv8, b1: bv8, b2: bv8)
    requires w == [a0, a1, a2] && v == [b0, b1, b2]
    ensures Decode(w) == Decode(v) <==> a0 & 0x3f == b0 & 0x3f && a1 & 0x3f == b1 & 0x3f && a2 & 0x3f == b2 & 0x3f
  {
    DecodeBytes(w, a0, a1, a2);
    DecodeBytes(v, b0, b1, b2);
    SameFields(Decode(w), Decode(v), a0, a1, a2, b0, b1, b2);
  }

  lemma DecodeBytes(w: Frame, b0: bv8, b1: bv8, b2: bv8)
    requires w == [b0, b1, b2]
    ensures Decode(w) == Packet(DxBits(b0, b1), DyBits(b0, b2), b0 & 0x20 != 0, b0 & 0x10 != 0)
  {
  }

  lemma SameFields(p: Packet, q: Packet, a0: bv8, a1: bv8, a2: bv8, b0: bv8, b1: bv8, b2: bv8)
    requires p == Packet(DxBits(a0, a1), DyBits(a0, a2), a0 & 0x20 != 0, a0 & 0x10 != 0)
    requires q == Packet(DxBits(b0, b1), DyBits(b0, b2), b0 & 0x20 != 0, b0 & 0x10 != 0)
    ensures p == q <==> a0 & 0x3f == b0 & 0x3f && a1 & 0x3f == b1 & 0x3f && a2 & 0x3f == b2 & 0x3f
  {
    SameBits(a0, a1, a2, b0, b1, b2);
  }

  lemma SameBits(a0: bv8, a1: bv8, a2: bv8, b0: bv8, b1: bv8, b2: bv8)
    ensures DxBits(a0, a1) == DxBits(b0, b1) && DyBits(a0, a2) == DyBits(b0, b2) &&
            (a0 & 0x20 != 0) == (b0 & 0x20 != 0) && (a0 & 0x10 != 0) == (b0 & 0x10 != 0)
            <==> a0 & 0x3f == b0 & 0x3f && a1 & 0x3f == b1 & 0x3f && a2 & 0x3f == b2 & 0x3f
  {
  }

  /** (signed char): a delta lies in -128..127 ... */
  function SignedChar(b: bv8): (d: int)
    ensures -128 <= d < 128
  {
    var n := b as int;
    if n < 128 then n else n - 256
  }

  function ToByte(d: int): bv8
    requires -128 <= d < 128
  {
    var n := if d >= 0 then d else d + 256;
    n as bv8
  }

  /** ... each delta comes from one byte only ... */
  lemma OneByteForADelta(b: bv8)
    ensures ToByte(SignedChar(b)) == b
  {
  }

  lemma NextByte(b: bv8)
    requires b != 0xff
    ensures (b + 1) as int == b as int + 1
  {
  }

  lemma {:induction false} ByteOf(n: nat) returns (b: bv8)
    requires n < 256
    ensures b as int == n
  {
    b := 0;
    if n > 0 {
      var c := ByteOf(n - 1);
      NextByte(c);
      b := c + 1;
    }
  }

  /** ... and every delta in that range does come from one. */
  lemma EveryDeltaHasAByte(d: int) returns (b: bv8)
    requires -128 <= d < 128
    ensures SignedChar(b) == d
  {
    b := ByteOf(if d >= 0 then d else d + 256);
  }

  // ------------------------------------------------------------------- streams

  function EncodeAll(ps: seq<Packet>): seq<Frame> {
    seq(|ps|, k requires 0 <= k < |ps| => Encode(ps[k]))
  }

  function DecodeAll(ws: seq<Frame>): seq<Packet>
    requires forall k :: 0 <= k < |ws| ==> |ws[k]| == NBYTES
  {
    seq(|ws|, k requires 0 <= k < |ws| => Decode(ws[k]))
  }

  /** A stream of packets sent to an aligned decoder comes out field by field. */
  lemma StreamRoundTrip(ps: seq<Packet>)
    ensures var ws := Frames([], Flatten(EncodeAll(ps)));
            (forall k :: 0 <= k < |ws| ==> |ws[k]| == NBYTES) && DecodeAll(ws) == ps
    ensures Rest([], Flatten(EncodeAll(ps))) == []
  {
    var ws := EncodeAll(ps);
    forall k | 0 <= k < |ws| ensures WellFormed(ws[k]) && Decode(ws[k]) == ps[k] {
      RoundTrip(ps[k]);
    }
    AlignedStream(ws);
  }
}
