/** SOLUTIONS/s_21/lab4_full_mouse_driver.c as an object: one shared buffer holds both
    the packet being assembled and the last complete one.  A read is the code of the
    source from test to enable_irq, with the handler, other readers and signals coming
    between any two of its operations. */
module FullMouse {
  import opened MouseProtocol
  import opened PacketReaders
  import opened Options
  import opened Runs
  import opened Hearing

  datatype Result = Invalid | Again | Blocks | Interrupted | Fault | Data(bytes: seq<bv8>)

  predicate Belongs(a: Act, r: nat) {
    (a.Test? || a.Disable? || a.Copy? || a.Clear? || a.Enable?) && a.r == r
  }

  /** Where its step leaves a reader. */
  function Goal(a: Act): Reader {
    match a
    case Test(_) => Passed
    case Disable(_) => Off
    case Copy(_, faults) => if faults then Outside else Copied
    case Clear(_) => Cleared
    case _ => Outside
  }

  /** A reader changes its own place, and `ready` and the depth as its step says. */
  lemma ReaderNext(s: State, a: Act, r: nat)
    requires Next(s, a).Some? && Belongs(a, r)
    ensures r < |s.readers|
    ensures Next(s, a).value ==
            s.(readers := s.readers[r := Goal(a)], ready := s.ready && !a.Clear?,
               depth := if a.Disable? then s.depth + 1
                        else if a.Enable? && s.depth > 0 then s.depth - 1 else s.depth)
    ensures a.Enable? ==> s.depth > 0
  {
  }

  /** Everybody but reader r. */
  function Without(machine: (State, Act) -> Option<State>, r: nat): (State, Act) -> Option<State> {
    (s, a) => if Belongs(a, r) then None else machine(s, a)
  }

  /** The loop of the handler over these bytes. */
  function FeedAll(s: State, bs: seq<bv8>): State
    decreases bs
  {
    if bs == [] then s else FeedAll(Feed(s, bs[0]), bs[1..])
  }

  /** It takes in what the protocol makes of them. */
  lemma {:induction false} FeedAllIs(s: State, bs: seq<bv8>)
    ensures FeedAll(s, bs) ==
            s.(frame := Rest(s.frame, bs), last := LastOf(s.last, Frames(s.frame, bs)),
               ready := s.ready || Frames(s.frame, bs) != [])
    decreases bs
  {
    if bs != [] {
      FeedAllIs(Feed(s, bs[0]), bs[1..]);
      LastOfBoth(s.last, Completed(s.frame, bs[0]), Frames(Step(s.frame, bs[0]), bs[1..]));
    }
  }

  lemma LastOfBoth(before: Option<Frame>, ws: seq<Frame>, more: seq<Frame>)
    ensures LastOf(LastOf(before, ws), more) == LastOf(before, ws + more)
    ensures ws + more != [] <==> ws != [] || more != []
  {
    if more == [] {
      assert ws + more == ws;
    }
  }

  /** The trigger keeps the solver from working out steps that nobody asks about. */
  ghost predicate Faithful(machine: (State, Act) -> Option<State>) {
    forall s, a {:trigger Next(s, a)} :: machine(s, a) == Next(s, a)
  }

  // ---------------------------------------------- a reader and what it meets with

  /** What a read does: its own steps, and in disable_irq it waits for the handler. */
  predicate OfRead(s: State, a: Act, r: nat) {
    Belongs(a, r) || (a == IrqEnd && At(s, r, Off))
  }

  function ReadSteps(r: nat): (State, Act) -> bool {
    (s: State, a: Act) => OfRead(s, a, r)
  }

  function OtherSteps(r: nat): (State, Act) -> bool {
    (s: State, a: Act) => !Belongs(a, r)
  }

  /** Some run leads from s to t that consists of steps of the read and of those of
      `acts` that others could take when they came, in this order. */
  ghost predicate Meets(machine: (State, Act) -> Option<State>, r: nat, s: State, t: State, acts: seq<Act>) {
    exists run: seq<Act> :: Hears(machine, ReadSteps(r), OtherSteps(r), s, run, t, acts)
  }

  lemma MeetsNothing(machine: (State, Act) -> Option<State>, r: nat, s: State)
    ensures Meets(machine, r, s, s, [])
  {
    HearsNothing(machine, ReadSteps(r), OtherSteps(r), s);
  }

  lemma MeetsOwn(machine: (State, Act) -> Option<State>, r: nat, s: State, m: State, acts: seq<Act>, a: Act, t: State)
    requires Meets(machine, r, s, m, acts) && OfRead(m, a, r) && machine(m, a) == Some(t)
    ensures Meets(machine, r, s, t, acts)
  {
    var run: seq<Act> :| Hears(machine, ReadSteps(r), OtherSteps(r), s, run, m, acts);
    HearsOwn(machine, ReadSteps(r), OtherSteps(r), s, run, m, acts, a, t);
  }

  lemma MeetsTaken(machine: (State, Act) -> Option<State>, r: nat, s: State, m: State, acts: seq<Act>, a: Act, t: State)
    requires Meets(machine, r, s, m, acts) && !Belongs(a, r) && machine(m, a) == Some(t)
    ensures Meets(machine, r, s, t, acts + [a])
  {
    var run: seq<Act> :| Hears(machine, ReadSteps(r), OtherSteps(r), s, run, m, acts);
    HearsTaken(machine, ReadSteps(r), OtherSteps(r), s, run, m, acts, a, t);
  }

  lemma MeetsMissed(machine: (State, Act) -> Option<State>, r: nat, s: State, m: State, acts: seq<Act>, a: Act)
    requires Meets(machine, r, s, m, acts) && (Belongs(a, r) || machine(m, a) == None)
    ensures Meets(machine, r, s, m, acts + [a])
  {
    var run: seq<Act> :| Hears(machine, ReadSteps(r), OtherSteps(r), s, run, m, acts);
    HearsMissed(machine, ReadSteps(r), OtherSteps(r), s, run, m, acts, a);
  }

  lemma MeetsThrough(machine: (State, Act) -> Option<State>, r: nat,
                     s: State, m: State, acts: seq<Act>, t: State, more: seq<Act>, all: seq<Act>)
    requires Meets(machine, r, s, m, acts) && Meets(machine, r, m, t, more) && all == acts + more
    ensures Meets(machine, r, s, t, all)
  {
    var run: seq<Act> :| Hears(machine, ReadSteps(r), OtherSteps(r), s, run, m, acts);
    var run2: seq<Act> :| Hears(machine, ReadSteps(r), OtherSteps(r), m, run2, t, more);
    HearsThrough(machine, ReadSteps(r), OtherSteps(r), s, run, m, acts, run2, t, more);
  }

  lemma MeetsReaches(machine: (State, Act) -> Option<State>, r: nat, s: State, t: State, acts: seq<Act>)
    requires Meets(machine, r, s, t, acts)
    ensures Reaches(machine, s, t)
  {
    var run: seq<Act> :| Hears(machine, ReadSteps(r), OtherSteps(r), s, run, t, acts);
    HearsExec(machine, ReadSteps(r), OtherSteps(r), s, run, t, acts);
  }

  /** A read that meets with nothing takes in no byte. */
  lemma MeetsNobody(machine: (State, Act) -> Option<State>, r: nat, s: State, t: State)
    requires Faithful(machine) && Meets(machine, r, s, t, [])
    ensures t.frame == s.frame && t.last == s.last
  {
    var run: seq<Act> :| Hears(machine, ReadSteps(r), OtherSteps(r), s, run, t, []);
    NothingHeard(machine, ReadSteps(r), OtherSteps(r), s, run, t);
    KeepsBuffer(machine, r, s, run);
  }

  lemma {:induction false} KeepsBuffer(machine: (State, Act) -> Option<State>, r: nat, s: State, run: seq<Act>)
    requires Faithful(machine) && Exec(Alone(machine, ReadSteps(r)), s, run).Some?
    ensures var t := Exec(Alone(machine, ReadSteps(r)), s, run).value;
            t.frame == s.frame && t.last == s.last
  {
    if run != [] {
      var before, a := run[..|run| - 1], run[|run| - 1];
      KeepsBuffer(machine, r, s, before);
      var m := Exec(Alone(machine, ReadSteps(r)), s, before).value;
      OwnKeepsBuffer(m, a, r, Exec(Alone(machine, ReadSteps(r)), s, run).value);
    }
  }

  lemma OwnKeepsBuffer(m: State, a: Act, r: nat, t: State)
    requires OfRead(m, a, r) && Next(m, a) == Some(t)
    ensures t.frame == m.frame && t.last == m.last
  {
  }

  class Driver {
    /** The transition system, PacketReaders.Machine(). */
    ghost const machine: (State, Act) -> Option<State>
    const bytes: array<bv8>
    var numByteIn: nat
    var ready: bool
    var handling: bool
    var depth: nat
    /** Where the readers stand in their code. */
    var readers: seq<Reader>
    ghost var last: Option<Frame>

    constructor (n: nat)
      ensures Valid() && View() == Init(n) && fresh(bytes) && machine == Machine()
    {
      NoneInside(n);
      bytes := new bv8[5];
      numByteIn, ready, handling, depth, readers := 0, false, false, 0, seq(n, _ => Outside);
      last, machine := None, Machine();
    }

    /** The buffer holds the newest bytes of the packet under way, and behind them
        what they have not yet overwritten of the last complete one. */
    ghost predicate Valid()
      reads this, bytes
    {
      && bytes.Length == 5 && numByteIn < NBYTES
      && (last.Some? ==> |last.value| == NBYTES && bytes[numByteIn..3] == last.value[numByteIn..])
      && Faithful(machine) && HasPacket(View()) && depth >= CountInside(readers)
    }

    ghost function View(): State
      reads this, bytes
      requires numByteIn <= bytes.Length
    {
      State(bytes[..numByteIn], last, ready, handling, depth, readers)
    }

    /** Some run leads from `start` to where the driver is. */
    ghost predicate After(start: State)
      reads this, bytes
    {
      Valid() && Reaches(machine, start, View())
    }

    lemma BufferIs()
      requires Valid() && last.Some?
      ensures bytes[..3] == Buffer(View())
    {
      assert bytes[..3] == bytes[..numByteIn] + bytes[numByteIn..3];
    }

    // ------------------------------------------------------------ single operations

    /** The body of the loop of my_interrupt. */
    method TakeByte(b: bv8)
      requires Valid() && handling
      modifies this`numByteIn, this`ready, this`last, bytes
      ensures Valid() && Next(old(View()), Byte(b)) == Some(View())
    {
      ghost var f := bytes[..numByteIn];
      if numByteIn > 0 || b & MAGIC != 0 {
        bytes[numByteIn] := b;
        numByteIn := numByteIn + 1;
      }
      assert bytes[..numByteIn] == Accept(f, b);
      if numByteIn == 3 {
        ready := true;
        numByteIn := 0;
        last := Some(bytes[..3]);
      }
    }

    method Step(a: Act)
      requires Valid() && Next(View(), a).Some? && !a.Byte?
      modifies this`ready, this`handling, this`depth, this`readers
      ensures Valid() && Next(old(View()), a) == Some(View())
    {
      if a == Irq {
        handling := true;
      } else if a == IrqEnd {
        handling := false;
      } else if a == OpenOrRelease {
        ready := false;
      } else {
        ReaderStep(a, a.r);
      }
    }

    method ReaderStep(a: Act, r: nat)
      requires Valid() && Next(View(), a).Some? && Belongs(a, r)
      modifies this`ready, this`depth, this`readers
      ensures Valid() && Next(old(View()), a) == Some(View())
    {
      ghost var s := View();
      HasPacketNext(s, a);
      DepthNext(s, a, depth - CountInside(readers));
      ReaderNext(s, a, r);
      readers := readers[r := Goal(a)];
      if a.Disable? {
        depth := depth + 1;
      } else if a.Clear? {
        ready := false;
      } else if a.Enable? {
        depth := depth - 1;
      }
      assert Next(s, a) == Some(View());
    }

    function Enabled(a: Act): (yes: bool)
      requires Valid()
      reads this, bytes
      ensures yes <==> Next(View(), a).Some?
    {
      match a
      case Irq => !handling && depth == 0
      case Byte(_) => handling
      case IrqEnd => handling
      case OpenOrRelease => true
      case Test(r) => r < |readers| && readers[r] == Outside && ready
      case Disable(r) => r < |readers| && readers[r] == Passed
      case Copy(r, _) => r < |readers| && readers[r] == Off && !handling
      case Clear(r) => r < |readers| && readers[r] == Copied
      case Enable(r) => r < |readers| && readers[r] == Cleared && depth > 0
    }

    method Perform(a: Act)
      requires Valid() && Enabled(a)
      modifies this, bytes
      ensures Valid() && Some(View()) == Next(old(View()), a)
      ensures |readers| == |old(readers)|
      ensures forall q :: 0 <= q < |readers| ==>
                readers[q] == if Belongs(a, q) then Goal(a) else old(readers[q])
      ensures handling == if a == Irq then true else if a == IrqEnd then false else old(handling)
    {
      if a.Byte? {
        TakeByte(a.b);
      } else {
        Step(a);
      }
    }

    // ------------------------------------------------------------------ the handler

    method Handle(a: Act, ghost start: State)
      requires After(start) && Enabled(a)
      modifies this, bytes
      ensures After(start) && Some(View()) == Next(old(View()), a)
    {
      ghost var was := View();
      Perform(a);
      ReachesNext(machine, start, was, a);
    }

    /** my_interrupt: the port has these bytes before it reports no more data.  The
        frame under way and the last packet are those of the protocol, `ready` is set
        with a packet, and nothing else has changed. */
    method Interrupt(port: seq<bv8>)
      requires Valid() && Enabled(Irq)
      modifies this, bytes
      ensures After(old(View()))
      ensures View().frame == Rest(old(View()).frame, port)
      ensures var ws := Frames(old(View()).frame, port);
              && last == (if ws == [] then old(last) else Some(ws[|ws| - 1]))
              && ready == (old(ready) || ws != [])
      ensures readers == old(readers) && depth == old(depth) && handling == old(handling)
    {
      ghost var start := View();
      ReachesItself(machine, start);
      Handle(Irq, start);
      TakeAll(port, start);
      Handle(IrqEnd, start);
    }

    method TakeAll(port: seq<bv8>, ghost start: State)
      requires After(start) && handling
      modifies this, bytes
      ensures After(start) && handling
      ensures View().frame == Rest(old(View()).frame, port)
      ensures last == LastOf(old(last), Frames(old(View()).frame, port))
      ensures ready == (old(ready) || Frames(old(View()).frame, port) != [])
      ensures readers == old(readers) && depth == old(depth)
    {
      ghost var begun := View();
      for k := 0 to |port|
        invariant After(start) && handling && FeedAll(View(), port[k..]) == FeedAll(begun, port)
      {
        Handle(Byte(port[k]), start);
        assert port[k..][0] == port[k] && port[k..][1..] == port[k + 1..];
      }
      FeedAllIs(begun, port);
    }

    // --------------------------------------------------------------------- the read

    /** The read has come here from `start`, having met with these acts. */
    ghost predicate Met(r: nat, start: State, acts: seq<Act>)
      reads this, bytes
    {
      Valid() && Meets(machine, r, start, View(), acts)
    }

    /** One step of the read, after this part of `env`. */
    method Do(a: Act, r: nat, ghost start: State, ghost met: seq<Act>)
      requires Met(r, start, met) && Enabled(a) && OfRead(View(), a, r)
      modifies this, bytes
      ensures Met(r, start, met) && Some(View()) == Next(old(View()), a)
      ensures |readers| == |old(readers)| && r < |readers|
      ensures readers[r] == if Belongs(a, r) then Goal(a) else old(readers[r])
      ensures handling == if a == IrqEnd then false else old(handling)
    {
      ghost var was := View();
      Perform(a);
      MeetsOwn(machine, r, start, was, met, a, View());
    }

    /** One act of somebody else, if it is their turn. */
    method Other(a: Act, r: nat, ghost start: State, ghost met: seq<Act>) returns (took: bool)
      requires Met(r, start, met) && r < |readers|
      modifies this, bytes
      ensures Met(r, start, met + [a]) && |readers| == |old(readers)| && readers[r] == old(readers[r])
      ensures if took then Without(machine, r)(old(View()), a) == Some(View()) else View() == old(View())
    {
      took := !Belongs(a, r) && Enabled(a);
      ghost var was := View();
      if took {
        Perform(a);
        MeetsTaken(machine, r, start, was, met, a, View());
      } else {
        MeetsMissed(machine, r, start, was, met, a);
      }
    }

    /** What everybody but reader r does, as far as it is their turn. */
    method Others(acts: seq<Act>, r: nat, ghost start: State, ghost met: seq<Act>)
      requires Met(r, start, met) && r < |readers|
      modifies this, bytes
      ensures Met(r, start, met + acts) && |readers| == |old(readers)| && readers[r] == old(readers[r])
      ensures Reaches(Without(machine, r), old(View()), View())
    {
      ReachesItself(Without(machine, r), View());
      ghost var so := met;
      for k := 0 to |acts|
        invariant so == met + acts[..k] && Met(r, start, so)
        invariant |readers| == |old(readers)| && readers[r] == old(readers[r])
        invariant Reaches(Without(machine, r), old(View()), View())
      {
        ghost var was := View();
        var took := Other(acts[k], r, start, so);
        if took {
          ReachesNext(Without(machine, r), old(View()), was, acts[k]);
        }
        PrefixMore(met, acts, k, so);
        so := so + [acts[k]];
      }
      PrefixAll(met, acts);
    }

    /** The next burst of others, if any is left. */
    method Pause(env: seq<seq<Act>>, e: nat, r: nat, ghost start: State) returns (e': nat)
      requires e <= |env| && Met(r, start, Bursts(env, e)) && r < |readers|
      modifies this, bytes
      ensures e <= e' <= |env| && Met(r, start, Bursts(env, e'))
      ensures |readers| == |old(readers)| && readers[r] == old(readers[r])
    {
      e' := e;
      if e < |env| {
        Others(env[e], r, start, Bursts(env, e));
        e' := e + 1;
      }
    }

    /** Asleep until the next burst. */
    method Sleep(env: seq<seq<Act>>, e: nat, r: nat, ghost start: State) returns (e': nat)
      requires e < |env| && Met(r, start, Bursts(env, e)) && r < |readers|
      requires Reaches(Without(machine, r), start, View())
      modifies this, bytes
      ensures e' == e + 1 && Met(r, start, Bursts(env, e'))
      ensures Reaches(Without(machine, r), start, View())
      ensures |readers| == |old(readers)| && readers[r] == old(readers[r])
    {
      ghost var was := View();
      Others(env[e], r, start, Bursts(env, e));
      ReachesThrough(Without(machine, r), start, was, View());
      e' := e + 1;
    }

    /** The wait for `ready`.  A signal comes with burst number `signal`.  The reader
        sleeps for good if nothing more happens. */
    method WaitReady(r: nat, nonblock: bool, signal: nat, env: seq<seq<Act>>, ghost start: State)
      returns (e: nat, out: Option<Result>)
      requires Valid() && start == View() && r < |readers| && readers[r] == Outside
      modifies this, bytes
      ensures e <= |env| && Met(r, start, Bursts(env, e)) && |readers| == |old(readers)|
      ensures readers[r] == if out == None then Passed else Outside
      ensures out.Some? ==> out.value in {Again, Blocks, Interrupted}
      ensures out.Some? ==> Reaches(Without(machine, r), start, View()) && (e == 0 ==> View() == start)
      ensures out == Some(Again) ==> nonblock && !ready && e == 0
      ensures out == Some(Blocks) ==> !nonblock && !ready && e == |env|
      ensures out == Some(Interrupted) ==> e == signal + 1
    {
      e, out := 0, None;
      MeetsNothing(machine, r, start);
      ReachesItself(Without(machine, r), start);
      while !ready
        invariant e <= |env| && e <= signal && Met(r, start, Bursts(env, e)) && |readers| == |old(readers)|
        invariant readers[r] == Outside && (nonblock || e == 0 ==> View() == start && e == 0)
        invariant Reaches(Without(machine, r), start, View())
        decreases |env| - e
      {
        if nonblock {
          return e, Some(Again);
        }
        if e == |env| {
          return e, Some(Blocks);
        }
        e := Sleep(env, e, r, start);
        if e > signal {
          return e, Some(Interrupted);
        }
      }
      Do(Test(r), r, start, Bursts(env, e));
    }

    /** disable_irq: it waits for a handler that is at work. */
    method DisableIrq(r: nat, env: seq<seq<Act>>, e: nat, ghost start: State) returns (e': nat)
      requires e <= |env| && Met(r, start, Bursts(env, e)) && r < |readers| && readers[r] == Passed
      modifies this, bytes
      ensures e <= e' <= |env| && Met(r, start, Bursts(env, e'))
      ensures |readers| == |old(readers)| && readers[r] == Off && !handling
    {
      e' := Pause(env, e, r, start);
      Do(Disable(r), r, start, Bursts(env, e'));
      e' := Pause(env, e', r, start);
      if handling {
        Do(IrqEnd, r, start, Bursts(env, e'));
      }
    }

    /** `ready` is cleared and the interrupt enabled again. */
    method Leave(r: nat, env: seq<seq<Act>>, ghost start: State) returns (e: nat)
      requires Met(r, start, []) && r < |readers| && readers[r] == Copied
      modifies this, bytes
      ensures e <= |env| && Met(r, start, Bursts(env, e))
      ensures |readers| == |old(readers)| && readers[r] == Outside
    {
      e := Pause(env, 0, r, start);
      Do(Clear(r), r, start, Bursts(env, e));
      e := Pause(env, e, r, start);
      CountAfter(readers, r, Outside);
      Do(Enable(r), r, start, Bursts(env, e));
    }

    /** mymouse_read by reader r: a run of the transition system that consists of its own
        steps and of those of the first `used` bursts of others.  Without data or fault
        it has done no step of its own.  `at` is the state in which the copy is made,
        after `seen` bursts: with data, it is what the buffer held then, padded with
        zeros; after a failing copy the source returns at once, with the interrupt
        disabled. */
    method ReadPacket(r: nat, lbuf: nat, nonblock: bool, faults: bool, signal: nat, env: seq<seq<Act>>)
      returns (result: Result, ghost at: State, ghost seen: nat, ghost used: nat)
      requires Valid() && r < |readers| && readers[r] == Outside
      modifies this, bytes
      ensures After(old(View())) && |readers| == |old(readers)| && readers[r] == Outside
      ensures seen <= used <= |env| && Met(r, old(View()), Bursts(env, used))
      ensures result == Invalid <==> lbuf < 3
      ensures result == Again ==> nonblock && !ready
      ensures result == Blocks ==> !nonblock && !ready && used == |env|
      ensures result == Interrupted ==> used == signal + 1
      ensures !(result.Data? || result.Fault?) ==> Reaches(Without(machine, r), old(View()), View())
      ensures !(result.Data? || result.Fault?) && used == 0 ==> View() == old(View())
      ensures result.Data? || result.Fault? ==>
                && Meets(machine, r, old(View()), at, Bursts(env, seen))
                && Reaches(machine, old(View()), at) && Next(at, Copy(r, faults)).Some?
      ensures result.Fault? ==> faults && Next(at, Copy(r, true)) == Some(View())
      ensures result.Data? ==>
                && !faults && After(Next(at, Copy(r, false)).value)
                && at.last.Some? && |at.last.value| == NBYTES && |at.frame| < NBYTES
                && result.bytes == Buffer(at) + seq(lbuf - 3, _ => 0)
      ensures env == [] ==>
                && View().frame == at.frame == old(View()).frame && last == at.last == old(last)
    {
      ghost var start := View();
      at, seen, used := start, 0, 0;
      MeetsNothing(machine, r, start);
      ReachesItself(machine, start);
      ReachesItself(Without(machine, r), start);
      if lbuf < 3 {
        return Invalid, at, 0, 0;
      }
      var e, out := WaitReady(r, nonblock, signal, env, start);
      if out.Some? {
        result, used := out.value, e;
        FromRead(r, start, Bursts(env, e));
        return;
      }
      result, at, seen, used := Fetch(r, lbuf, faults, env, e, start);
      ThroughHere(r, start, at, Bursts(env, seen));
      FromRead(r, start, Bursts(env, used));
    }

    /** A read is a run; met with nothing, it leaves the buffer alone. */
    lemma FromRead(r: nat, start: State, met: seq<Act>)
      requires Met(r, start, met)
      ensures After(start)
      ensures met == [] ==> View().frame == start.frame && last == start.last
    {
      ThroughHere(r, start, View(), met);
    }

    lemma ThroughHere(r: nat, start: State, at: State, met: seq<Act>)
      requires Valid() && Meets(machine, r, start, at, met)
      ensures Reaches(machine, start, at)
      ensures met == [] ==> at.frame == start.frame && at.last == start.last
    {
      MeetsReaches(machine, r, start, at, met);
      if met == [] {
        MeetsNobody(machine, r, start, at);
      }
    }

    /** From the test of `ready` on. */
    method Fetch(r: nat, lbuf: nat, faults: bool, env: seq<seq<Act>>, e: nat, ghost start: State)
      returns (result: Result, ghost at: State, ghost seen: nat, ghost used: nat)
      requires e <= |env| && Met(r, start, Bursts(env, e)) && r < |readers| && readers[r] == Passed && lbuf >= 3
      modifies this, bytes
      ensures |readers| == |old(readers)| && readers[r] == Outside
      ensures seen <= used <= |env| && Met(r, start, Bursts(env, used))
      ensures Meets(machine, r, start, at, Bursts(env, seen)) && Next(at, Copy(r, faults)).Some?
      ensures if faults then result == Fault && Next(at, Copy(r, true)) == Some(View())
              else After(Next(at, Copy(r, false)).value)
                   && at.last.Some? && |at.last.value| == NBYTES && |at.frame| < NBYTES
                   && result == Data(Buffer(at) + seq(lbuf - 3, _ => 0))
    {
      var e1 := DisableIrq(r, env, e, start);
      at, seen, used := View(), e1, e1;
      if faults {
        Do(Copy(r, true), r, start, Bursts(env, e1));
        result := Fault;
      } else {
        ghost var mid, more;
        result, mid, more := CopyAndLeave(r, lbuf, env[e1..]);
        used := e1 + more;
        BothHalves(r, start, at, mid, env, e1, more);
      }
    }

    lemma BothHalves(r: nat, start: State, at: State, mid: State, env: seq<seq<Act>>, e: nat, more: nat)
      requires e + more <= |env| && Meets(machine, r, start, at, Bursts(env, e))
      requires Next(at, Copy(r, false)) == Some(mid) && Met(r, mid, Bursts(env[e..], more))
      ensures Met(r, start, Bursts(env, e + more))
    {
      MeetsOwn(machine, r, start, at, Bursts(env, e), Copy(r, false), mid);
      BurstsSplit(env, e, more);
      MeetsThrough(machine, r, start, mid, Bursts(env, e), View(), Bursts(env[e..], more), Bursts(env, e + more));
    }

    method CopyAndLeave(r: nat, lbuf: nat, env: seq<seq<Act>>)
      returns (result: Result, ghost mid: State, ghost used: nat)
      requires Valid() && r < |readers| && readers[r] == Off && !handling && lbuf >= 3
      modifies this, bytes
      ensures Next(old(View()), Copy(r, false)) == Some(mid) && used <= |env| && Met(r, mid, Bursts(env, used))
      ensures After(mid) && |readers| == |old(readers)| && readers[r] == Outside
      ensures var at := old(View());
              && at.last.Some? && |at.last.value| == NBYTES && |at.frame| < NBYTES
              && result == Data(Buffer(at) + seq(lbuf - 3, _ => 0))
    {
      BufferIs();
      var copy := Padded(lbuf);
      Step(Copy(r, false));
      mid := View();
      MeetsNothing(machine, r, mid);
      used := Leave(r, env, mid);
      FromRead(r, mid, Bursts(env, used));
      result := Data(copy);
    }

    /** copy_to_user of the packet, and put_user of zeros behind it. */
    method Padded(lbuf: nat) returns (out: seq<bv8>)
      requires Valid() && lbuf >= 3
      ensures out == bytes[..3] + seq(lbuf - 3, _ => 0)
    {
      out := bytes[..3];
      for j := 3 to lbuf
        invariant out == bytes[..3] + seq(j - 3, _ => 0)
      {
        out := out + [0];
      }
    }
  }
}
