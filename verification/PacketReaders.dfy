/** SOLUTIONS/s_21/lab4_full_mouse_driver.c as a transition system: the handler takes
    the bytes the port has into one shared buffer and sets `ready` at the end of a
    packet; any number of readers test `ready`, disable the interrupt, copy the
    buffer, clear `ready` and enable the interrupt again, each on its own.

    disable_irq counts, and waits for a handler that is at work to end; a reader that
    sleeps or is signalled changes nothing.  What was received and what was handed
    over is read off the run. */
module PacketReaders {
  import opened MouseProtocol
  import opened Options
  import opened Runs

  /** Past the test of `ready`; past disable_irq; past the copy; past clearing `ready`. */
  datatype Reader = Outside | Passed | Off | Copied | Cleared

  /** `last`: the packet completed most recently; `depth`: how often the interrupt is
      disabled. */
  datatype State = State(
    frame: Frame, last: Option<Frame>, ready: bool, handling: bool, depth: nat, readers: seq<Reader>)

  datatype Act =
    | Irq | Byte(b: bv8) | IrqEnd | OpenOrRelease
    | Test(r: nat) | Disable(r: nat) | Copy(r: nat, faults: bool) | Clear(r: nat) | Enable(r: nat)

  function Init(n: nat): State {
    State([], None, false, false, 0, seq(n, _ => Outside))
  }

  predicate At(s: State, r: nat, pc: Reader) {
    r < |s.readers| && s.readers[r] == pc
  }

  function Move(s: State, r: nat, pc: Reader): State
    requires r < |s.readers|
  {
    s.(readers := s.readers[r := pc])
  }

  /** One byte: the packet that it completes, if any, is announced. */
  function Feed(s: State, b: bv8): State {
    var done := Completed(s.frame, b);
    s.(frame := Step(s.frame, b), last := LastOf(s.last, done), ready := s.ready || done != [])
  }

  function LastOf(before: Option<Frame>, ws: seq<Frame>): Option<Frame> {
    if ws == [] then before else Some(ws[|ws| - 1])
  }

  function Next(s: State, a: Act): Option<State> {
    match a
    case Irq => if s.handling || s.depth > 0 then None else Some(s.(handling := true))
    case Byte(b) => if s.handling then Some(Feed(s, b)) else None
    case IrqEnd => if s.handling then Some(s.(handling := false)) else None
    case OpenOrRelease => Some(s.(ready := false))
    case Test(r) => if At(s, r, Outside) && s.ready then Some(Move(s, r, Passed)) else None
    case Disable(r) => if At(s, r, Passed) then Some(Move(s, r, Off).(depth := s.depth + 1)) else None
    case Copy(r, faults) =>
      if !At(s, r, Off) || s.handling then None else Some(Move(s, r, if faults then Outside else Copied))
    case Clear(r) => if At(s, r, Copied) then Some(Move(s, r, Cleared).(ready := false)) else None
    case Enable(r) =>
      if At(s, r, Cleared) && s.depth > 0 then Some(Move(s, r, Outside).(depth := s.depth - 1)) else None
  }

  function Machine(): (State, Act) -> Option<State> {
    (s, a) => Next(s, a)
  }

  ghost predicate Possible(n: nat, run: seq<Act>) {
    Exec(Machine(), Init(n), run).Some?
  }

  ghost function After(n: nat, run: seq<Act>): State
    requires Possible(n, run)
  {
    Exec(Machine(), Init(n), run).value
  }

  // ---------------------------------------------------------------------- framing

  function Taken(a: Act): seq<bv8> {
    if a.Byte? then [a.b] else []
  }

  /** The bytes the driver has taken, whatever the interrupts that brought them. */
  function BytesOf(run: seq<Act>): seq<bv8> {
    if run == [] then [] else BytesOf(run[..|run| - 1]) + Taken(run[|run| - 1])
  }

  ghost predicate Follows(s: State, bytes: seq<bv8>) {
    && s.frame == Rest([], bytes) && |s.frame| < NBYTES
    && s.last == LastOf(None, Frames([], bytes))
    && (s.last.Some? ==> |s.last.value| == NBYTES)
  }

  lemma FeedFrames(s: State, bytes: seq<bv8>, b: bv8)
    requires Follows(s, bytes)
    ensures Follows(Feed(s, b), bytes + [b])
    ensures Frames([], bytes + [b]) == Frames([], bytes) + Completed(s.frame, b)
  {
    BatchIndependent([], bytes, [b]);
    FramesOfOne(s.frame, b);
  }

  lemma FramesNext(s: State, a: Act, bytes: seq<bv8>)
    requires Follows(s, bytes) && Next(s, a).Some?
    ensures Follows(Next(s, a).value, bytes + Taken(a))
  {
    if a.Byte? {
      FeedFrames(s, bytes, a.b);
    } else {
      assert bytes + Taken(a) == bytes;
    }
  }

  /** In every run the frame under way and the last packet are those that the protocol
      makes of the bytes run together: neither batching nor readers influence them. */
  lemma {:induction false} FramingIgnoresBatching(n: nat, run: seq<Act>)
    requires Possible(n, run)
    ensures Follows(After(n, run), BytesOf(run))
  {
    if run != [] {
      var k := |run| - 1;
      FramingIgnoresBatching(n, run[..k]);
      FramesNext(After(n, run[..k]), run[k], BytesOf(run[..k]));
    }
  }

  /** How many packets have been completed. */
  function Packets(run: seq<Act>): nat {
    |Frames([], BytesOf(run))|
  }

  /** `ready` is set only with a packet. */
  lemma PacketsNext(s: State, a: Act, bytes: seq<bv8>)
    requires Follows(s, bytes) && Next(s, a).Some?
    ensures var before, after := |Frames([], bytes)|, |Frames([], bytes + Taken(a))|;
            && after >= before
            && (!a.Byte? ==> after == before)
            && (Next(s, a).value.ready && !s.ready ==> after > before)
  {
    if a.Byte? {
      FeedFrames(s, bytes, a.b);
    } else {
      assert bytes + Taken(a) == bytes;
    }
  }

  // ----------------------------------------------------------------- how deep, how deaf

  predicate Inside(pc: Reader) {
    pc in {Off, Copied, Cleared}
  }

  function CountInside(readers: seq<Reader>): nat {
    if readers == [] then 0 else
    CountInside(readers[..|readers| - 1]) + (if Inside(readers[|readers| - 1]) then 1 else 0)
  }

  lemma {:induction false} CountAfter(readers: seq<Reader>, r: nat, pc: Reader)
    requires r < |readers|
    ensures CountInside(readers[r := pc]) ==
            CountInside(readers) - (if Inside(readers[r]) then 1 else 0) + (if Inside(pc) then 1 else 0)
  {
    var m := |readers| - 1;
    if r < m {
      assert readers[r := pc][..m] == readers[..m][r := pc];
      CountAfter(readers[..m], r, pc);
    } else {
      assert readers[r := pc][..m] == readers[..m];
    }
  }

  lemma {:induction false} NoneInside(n: nat)
    ensures CountInside(seq(n, _ => Outside)) == 0
  {
    if n > 0 {
      assert seq(n, _ => Outside)[..n - 1] == seq(n - 1, _ => Outside);
      NoneInside(n - 1);
    }
  }

  /** The copies that have failed. */
  function Faults(run: seq<Act>): nat {
    if run == [] then 0 else
    var a := run[|run| - 1];
    Faults(run[..|run| - 1]) + (if a.Copy? && a.faults then 1 else 0)
  }

  lemma DepthNext(s: State, a: Act, faults: nat)
    requires s.depth == CountInside(s.readers) + faults && Next(s, a).Some?
    ensures var t := Next(s, a).value;
            && |t.readers| == |s.readers|
            && t.depth == CountInside(t.readers) + faults + (if a.Copy? && a.faults then 1 else 0)
  {
    match a
    case Test(r) => CountAfter(s.readers, r, Passed);
    case Disable(r) => CountAfter(s.readers, r, Off);
    case Copy(r, faults) => CountAfter(s.readers, r, if faults then Outside else Copied);
    case Clear(r) => CountAfter(s.readers, r, Cleared);
    case Enable(r) => CountAfter(s.readers, r, Outside);
    case _ =>
  }

  /** In every run the interrupt is disabled once for each reader between disable_irq
      and enable_irq, and once for each copy that has ever failed. */
  lemma {:induction false} DepthIs(n: nat, run: seq<Act>)
    requires Possible(n, run)
    ensures |After(n, run).readers| == n
    ensures After(n, run).depth == CountInside(After(n, run).readers) + Faults(run)
  {
    if run == [] {
      NoneInside(n);
    } else {
      var k := |run| - 1;
      DepthIs(n, run[..k]);
      DepthNext(After(n, run[..k]), run[k], Faults(run[..k]));
    }
  }

  /** After this no byte is ever taken again. */
  ghost predicate Deaf(n: nat, run: seq<Act>) {
    forall more | Possible(n, run + more) :: BytesOf(run + more) == BytesOf(run)
  }

  lemma DeafStep(s: State, a: Act)
    requires !s.handling && s.depth > 0 && Next(s, a).Some?
    ensures Taken(a) == [] && !Next(s, a).value.handling
  {
  }

  lemma {:induction false} StaysDeaf(n: nat, run: seq<Act>, more: seq<Act>)
    requires Possible(n, run) && Possible(n, run + more)
    requires Faults(run) > 0 && !After(n, run).handling
    ensures BytesOf(run + more) == BytesOf(run)
    ensures Faults(run + more) > 0 && !After(n, run + more).handling
  {
    if more == [] {
      assert run + more == run;
    } else {
      var all, before := run + more, run + more[..|more| - 1];
      assert all[..|all| - 1] == before;
      StaysDeaf(n, run, more[..|more| - 1]);
      DepthIs(n, before);
      DeafStep(After(n, before), all[|all| - 1]);
    }
  }

  /** With no handler and no reader at work the driver still listens exactly if no copy
      has ever failed: a fault leaves the interrupt disabled for good. */
  lemma DeafIff(n: nat, run: seq<Act>)
    requires Possible(n, run) && !After(n, run).handling && CountInside(After(n, run).readers) == 0
    ensures Deaf(n, run) <==> Faults(run) > 0
  {
    if Faults(run) > 0 {
      forall more | Possible(n, run + more) ensures BytesOf(run + more) == BytesOf(run) {
        StaysDeaf(n, run, more);
      }
    } else {
      DepthIs(n, run);
      var r := GoAct(n, run, Irq);
      r := GoAct(n, r, Byte(0));
      assert r == run + [Irq, Byte(0)];
      assert |BytesOf(r)| > |BytesOf(run)|;
    }
  }

  // ------------------------------------------------------------------ handing over

  lemma GoAct(n: nat, run: seq<Act>, a: Act) returns (r: seq<Act>)
    requires Possible(n, run) && Next(After(n, run), a).Some?
    ensures r == run + [a] && Possible(n, r) && Some(After(n, r)) == Next(After(n, run), a)
    ensures BytesOf(r) == BytesOf(run) + Taken(a)
    ensures Handed(r) == Handed(run) + (if a.Copy? && !a.faults then [Packets(run)] else [])
  {
    r := run + [a];
    ExecSnoc(Machine(), Init(n), run, a);
    assert r[..|run|] == run;
  }

  /** For each read that got its data, the number of packets completed by then: the
      packet that was the last one at its copy. */
  function Handed(run: seq<Act>): seq<nat> {
    if run == [] then [] else
    var before, a := run[..|run| - 1], run[|run| - 1];
    Handed(before) + (if a.Copy? && !a.faults then [Packets(before)] else [])
  }

  ghost predicate Increasing(ks: seq<nat>) {
    forall i, j :: 0 <= i < j < |ks| ==> ks[i] < ks[j]
  }

  function Newest(ks: seq<nat>): nat {
    if ks == [] then 0 else ks[|ks| - 1]
  }

  function Only(s: State): Reader {
    if s.readers == [] then Outside else s.readers[0]
  }

  /** With one reader: what `ready`, and a reader that has seen it, stand for is a
      packet that has not been handed over. */
  ghost predicate Fresh(s: State, packets: nat, handed: nat) {
    && |s.readers| <= 1
    && handed <= packets
    && (s.ready && Only(s) == Outside ==> handed < packets)
    && (Only(s) in {Passed, Off} ==> handed < packets)
    && (Only(s) in {Copied, Cleared} ==> !s.handling)
    && (Inside(Only(s)) ==> s.depth > 0)
    && (Only(s) == Cleared ==> !s.ready)
  }

  lemma FreshNext(s: State, a: Act, packets: nat, handed: nat, packets': nat)
    requires Fresh(s, packets, handed) && Next(s, a).Some?
    requires packets' >= packets && (!a.Byte? ==> packets' == packets)
    requires Next(s, a).value.ready && !s.ready ==> packets' > packets
    ensures Fresh(Next(s, a).value, packets', if a.Copy? && !a.faults then packets else handed)
    ensures a.Copy? && !a.faults ==> handed < packets
  {
  }

  ghost predicate Honest(s: State, packets: nat, handed: seq<nat>) {
    Fresh(s, packets, Newest(handed)) && Increasing(handed) && |handed| <= Newest(handed)
  }

  lemma HonestNext(s: State, a: Act, bytes: seq<bv8>, handed: seq<nat>)
    requires Follows(s, bytes) && Honest(s, |Frames([], bytes)|, handed) && Next(s, a).Some?
    ensures Honest(Next(s, a).value, |Frames([], bytes + Taken(a))|,
                   handed + (if a.Copy? && !a.faults then [|Frames([], bytes)|] else []))
  {
    PacketsNext(s, a, bytes);
    FreshNext(s, a, |Frames([], bytes)|, Newest(handed), |Frames([], bytes + Taken(a))|);
    assert handed + [] == handed;
  }

  lemma {:induction false} OneReader(n: nat, run: seq<Act>)
    requires n <= 1 && Possible(n, run)
    ensures Honest(After(n, run), Packets(run), Handed(run))
  {
    if run != [] {
      var before := run[..|run| - 1];
      OneReader(n, before);
      FramingIgnoresBatching(n, before);
      HonestNext(After(n, before), run[|run| - 1], BytesOf(before), Handed(before));
    }
  }

  /** A step that neither takes a byte nor hands anything over. */
  lemma GoQuiet(n: nat, run: seq<Act>, a: Act, t: State) returns (r: seq<Act>)
    requires Possible(n, run) && !a.Byte? && !a.Copy? && Next(After(n, run), a) == Some(t)
    ensures Possible(n, r) && After(n, r) == t
    ensures BytesOf(r) == BytesOf(run) && Handed(r) == Handed(run)
  {
    r := GoAct(n, run, a);
  }

  lemma GoCopy(n: nat, run: seq<Act>, k: nat) returns (r: seq<Act>)
    requires Possible(n, run) && At(After(n, run), k, Off) && !After(n, run).handling
    ensures Possible(n, r) && After(n, r) == Move(After(n, run), k, Copied)
    ensures BytesOf(r) == BytesOf(run) && Handed(r) == Handed(run) + [Packets(run)]
  {
    r := GoAct(n, run, Copy(k, false));
  }

  lemma GoByte(n: nat, run: seq<Act>, b: bv8, t: State) returns (r: seq<Act>)
    requires Possible(n, run) && After(n, run).handling && t == Feed(After(n, run), b)
    ensures Possible(n, r) && After(n, r) == t
    ensures BytesOf(r) == BytesOf(run) + [b] && Handed(r) == Handed(run)
  {
    r := GoAct(n, run, Byte(b));
  }

  /** Byte k of a packet, but not the last. */
  lemma GoPart(n: nat, run: seq<Act>, w: Frame, k: nat) returns (r: seq<Act>)
    requires |w| == NBYTES && IsFirst(w[0]) && k < 2
    requires Possible(n, run) && After(n, run).handling && After(n, run).frame == w[..k]
    ensures Possible(n, r) && After(n, r) == After(n, run).(frame := w[..k + 1])
    ensures BytesOf(r) == BytesOf(run) + [w[k]] && Handed(r) == Handed(run)
  {
    assert w[..k] + [w[k]] == w[..k + 1];
    r := GoByte(n, run, w[k], After(n, run).(frame := w[..k + 1]));
  }

  lemma GoLast(n: nat, run: seq<Act>, w: Frame) returns (r: seq<Act>)
    requires |w| == NBYTES
    requires Possible(n, run) && After(n, run).handling && After(n, run).frame == w[..2]
    ensures Possible(n, r) && After(n, r) == After(n, run).(frame := [], last := Some(w), ready := true)
    ensures BytesOf(r) == BytesOf(run) + [w[2]] && Handed(r) == Handed(run)
  {
    assert Accept(w[..2], w[2]) == w;
    r := GoByte(n, run, w[2], After(n, run).(frame := [], last := Some(w), ready := true));
  }

  /** A packet comes in. */
  lemma GoPacket(n: nat, run: seq<Act>, w: Frame) returns (r: seq<Act>)
    requires Possible(n, run) && After(n, run).handling && After(n, run).frame == []
    requires |w| == NBYTES && IsFirst(w[0])
    ensures Possible(n, r) && After(n, r) == After(n, run).(last := Some(w), ready := true)
    ensures BytesOf(r) == BytesOf(run) + w && Handed(r) == Handed(run)
  {
    var bytes := BytesOf(run);
    assert bytes + [w[0]] + [w[1]] + [w[2]] == bytes + w;
    r := GoPart(n, run, w, 0);
    r := GoPart(n, r, w, 1);
    r := GoLast(n, r, w);
  }

  /** A packet has come in and the handler has gone. */
  lemma PacketIn(n: nat, w: Frame) returns (run: seq<Act>)
    requires |w| == NBYTES && IsFirst(w[0])
    ensures Possible(n, run) && BytesOf(run) == w && Handed(run) == []
    ensures After(n, run) == Init(n).(last := Some(w), ready := true)
  {
    run := GoQuiet(n, [], Irq, Init(n).(handling := true));
    run := GoPacket(n, run, w);
    run := GoQuiet(n, run, IrqEnd, Init(n).(last := Some(w), ready := true));
  }

  /** Two readers have seen that it is ready. */
  lemma TwoPassed(n: nat, w: Frame) returns (run: seq<Act>)
    requires n >= 2 && |w| == NBYTES && IsFirst(w[0])
    ensures Possible(n, run) && BytesOf(run) == w && Handed(run) == []
    ensures After(n, run) == State([], Some(w), true, false, 0, Init(n).readers[0 := Passed][1 := Passed])
  {
    run := PacketIn(n, w);
    var s := State([], Some(w), true, false, 0, Init(n).readers[0 := Passed]);
    run := GoQuiet(n, run, Test(0), s);
    run := GoQuiet(n, run, Test(1), s.(readers := s.readers[1 := Passed]));
  }

  lemma GoFetch(n: nat, run: seq<Act>, r: nat) returns (run': seq<Act>)
    requires Possible(n, run) && At(After(n, run), r, Passed) && !After(n, run).handling
    ensures var s := After(n, run);
            Possible(n, run') && After(n, run') == Move(Move(s, r, Off).(depth := s.depth + 1), r, Copied)
    ensures BytesOf(run') == BytesOf(run) && Handed(run') == Handed(run) + [Packets(run)]
  {
    var s := After(n, run);
    run' := GoQuiet(n, run, Disable(r), Move(s, r, Off).(depth := s.depth + 1));
    run' := GoCopy(n, run', r);
  }

  lemma GoLeave(n: nat, run: seq<Act>, r: nat) returns (run': seq<Act>)
    requires Possible(n, run) && At(After(n, run), r, Copied) && After(n, run).depth > 0
    ensures var s := After(n, run);
            && Possible(n, run')
            && After(n, run') == Move(Move(s, r, Cleared), r, Outside).(ready := false, depth := s.depth - 1)
    ensures BytesOf(run') == BytesOf(run) && Handed(run') == Handed(run)
  {
    var s := After(n, run);
    run' := GoQuiet(n, run, Clear(r), Move(s, r, Cleared).(ready := false));
    run' := GoQuiet(n, run', Enable(r), Move(Move(s, r, Cleared), r, Outside).(ready := false, depth := s.depth - 1));
  }

  /** One reader hands over what it has seen. */
  lemma GoRead(n: nat, run: seq<Act>, r: nat) returns (run': seq<Act>)
    requires Possible(n, run) && At(After(n, run), r, Passed) && !After(n, run).handling
    ensures Possible(n, run') && After(n, run') == Move(After(n, run), r, Outside).(ready := false)
    ensures BytesOf(run') == BytesOf(run) && Handed(run') == Handed(run) + [Packets(run)]
  {
    var readers := After(n, run).readers;
    run' := GoFetch(n, run, r);
    run' := GoLeave(n, run', r);
    assert readers[r := Off][r := Copied][r := Cleared][r := Outside] == readers[r := Outside];
  }

  const A_PACKET: Frame := [0x40, 0x01, 0x02]

  lemma PacketsOfOne(w: Frame)
    requires WellFormed(w)
    ensures Frames([], w) == [w] && Rest([], w) == []
  {
    OnePacket([], w);
    assert [] + w == w && w[..NBYTES] == w;
  }

  /** Both hand over the same packet. */
  lemma HandedTwice(n: nat) returns (run: seq<Act>)
    requires n >= 2
    ensures Possible(n, run) && Handed(run) == [1, 1] && Packets(run) == 1
  {
    PacketsOfOne(A_PACKET);
    run := TwoPassed(n, A_PACKET);
    var r2 := GoRead(n, run, 0);
    run := GoRead(n, r2, 1);
  }

  /** Each read hands over a packet completed after that of the read before it, so that
      there are never more reads than packets, exactly with at most one reader: nothing
      in the source keeps a second one out. */
  lemma NewPacketEachTimeIff(n: nat)
    ensures (forall run | Possible(n, run) :: Increasing(Handed(run))) <==> n <= 1
    ensures (forall run | Possible(n, run) :: |Handed(run)| <= Packets(run)) <==> n <= 1
  {
    if n <= 1 {
      forall run | Possible(n, run) ensures Increasing(Handed(run)) && |Handed(run)| <= Packets(run) {
        OneReader(n, run);
      }
    } else {
      var run := HandedTwice(n);
      assert Handed(run)[0] == Handed(run)[1];
      assert !Increasing(Handed(run));
    }
  }

  // -------------------------------------------------------------- what is handed over

  /** What is in the first three bytes of the buffer once a packet has come in: the
      newest bytes of the packet under way, and behind them the last one. */
  function Buffer(s: State): seq<bv8>
    requires s.last.Some? && |s.last.value| == NBYTES && |s.frame| < NBYTES
  {
    s.frame + s.last.value[|s.frame|..]
  }

  lemma BufferAgrees(s: State)
    requires s.last.Some? && |s.last.value| == NBYTES && |s.frame| < NBYTES
    ensures Buffer(s) == s.last.value <==> s.frame == s.last.value[..|s.frame|]
  {
    var w, k := s.last.value, |s.frame|;
    assert Buffer(s)[..k] == s.frame && Buffer(s)[k..] == w[k..];
    assert w[..k] + w[k..] == w;
  }

  ghost predicate HasPacket(s: State) {
    (s.ready ==> s.last.Some?) && forall r :: 0 <= r < |s.readers| && s.readers[r] != Outside ==> s.last.Some?
  }

  lemma HasPacketNext(s: State, a: Act)
    requires HasPacket(s) && Next(s, a).Some?
    ensures HasPacket(Next(s, a).value)
  {
  }

  /** A reader that goes past its test always finds a packet in the buffer. */
  lemma {:induction false} ReadersHavePacket(n: nat, run: seq<Act>)
    requires Possible(n, run)
    ensures HasPacket(After(n, run))
  {
    if run != [] {
      ReadersHavePacket(n, run[..|run| - 1]);
      HasPacketNext(After(n, run[..|run| - 1]), run[|run| - 1]);
    }
  }

  /** In every run, a reader that makes its copy gets the last of the packets that have
      come in, whole, exactly when what has come in of the next one happens to agree
      with it; in particular between packets. */
  lemma WholePacketIff(n: nat, run: seq<Act>, r: nat)
    requires Possible(n, run) && Next(After(n, run), Copy(r, false)).Some?
    ensures var s, ws, rest := After(n, run), Frames([], BytesOf(run)), Rest([], BytesOf(run));
            && ws != [] && |ws[|ws| - 1]| == NBYTES && |rest| < NBYTES
            && s.last.Some? && |s.last.value| == NBYTES && |s.frame| < NBYTES
            && (Buffer(s) == ws[|ws| - 1] <==> rest == ws[|ws| - 1][..|rest|])
            && (rest == [] ==> Buffer(s) == ws[|ws| - 1])
  {
    FramingIgnoresBatching(n, run);
    ReadersHavePacket(n, run);
    BufferAgrees(After(n, run));
  }

  const A_MOUSE_MOVE: Frame := [0x60, 0x03, 0x04]

  /** The next packet has begun to come in. */
  lemma SecondUnderWay(n: nat) returns (run: seq<Act>)
    ensures Possible(n, run)
    ensures After(n, run) == Init(n).(last := Some(A_PACKET), ready := true, frame := A_MOUSE_MOVE[..2])
  {
    var s := Init(n).(last := Some(A_PACKET), ready := true);
    run := PacketIn(n, A_PACKET);
    run := GoQuiet(n, run, Irq, s.(handling := true));
    run := GoPart(n, run, A_MOUSE_MOVE, 0);
    run := GoPart(n, run, A_MOUSE_MOVE, 1);
    run := GoQuiet(n, run, IrqEnd, s.(frame := A_MOUSE_MOVE[..2]));
  }

  /** But it can be a mix of two. */
  lemma TornRead(n: nat) returns (run: seq<Act>)
    requires n >= 1
    ensures Possible(n, run)
    ensures var s := After(n, run);
            && At(s, 0, Off) && !s.handling && s.last == Some(A_PACKET) && |s.frame| < NBYTES
            && Buffer(s) == [0x60, 0x03, 0x02]
  {
    run := SecondUnderWay(n);
    run := GoAct(n, run, Test(0));
    run := GoAct(n, run, Disable(0));
    assert After(n, run).frame == [0x60, 0x03];
  }
}
