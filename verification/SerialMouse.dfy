/** SOLUTIONS/s_21/lab4_serial.c as an object: one interrupt per byte; completed
    packets move a position that user space can read and zero.  Other processors and
    processes interfere between any two accesses to the position. */
module SerialMouse {
  import opened MousePosition
  import opened MouseProtocol
  import opened Options
  import opened Runs
  import opened Hearing
  import opened Sequences

  // ------------------------------------------------------------ undisturbed bytes

  /** The operations of the handler for one byte. */
  function Handled(f: Frame, b: bv8): seq<Act> {
    if Completed(f, b) == [] then [Byte(b)] else [Byte(b)] + ([Load, Store] + [Load, Store])
  }

  function Handling(f: Frame, bs: seq<bv8>): seq<Act> {
    if bs == [] then [] else
    var k := |bs| - 1;
    Handling(f, bs[..k]) + Handled(Rest(f, bs[..k]), bs[k])
  }

  /** Moved by these packets. */
  function Shifted(s: State, f: Frame, ms: seq<Move>): State {
    s.(frame := f, x := s.x + Sum(X, ms), y := s.y + Sum(Y, ms))
  }

  predicate Idle(c: Config, s: State) {
    s.handler == Waiting && (c.sharing == Locked ==> s.zeroing == 0)
  }

  lemma AddX(c: Config, s: State, m: Move)
    requires s.handler == ToLoad(X, m)
    ensures var s1 := s.(handler := ToStore(X, m, s.x));
            Next(c, s, Load) == Some(s1) && Next(c, s1, Store) == Some(s.(x := s.x + m.dx, handler := ToLoad(Y, m)))
  {
  }

  lemma AddY(c: Config, s: State, m: Move)
    requires s.handler == ToLoad(Y, m)
    ensures var s1 := s.(handler := ToStore(Y, m, s.y));
            Next(c, s, Load) == Some(s1) && Next(c, s1, Store) == Some(s.(y := s.y + m.dy, handler := Waiting))
  {
  }

  lemma FourSteps(c: Config, s: State, s1: State, s2: State, s3: State, t: State)
    requires Next(c, s, Load) == Some(s1) && Next(c, s1, Store) == Some(s2)
    requires Next(c, s2, Load) == Some(s3) && Next(c, s3, Store) == Some(t)
    ensures Exec(Machine(c), s, [Load, Store] + [Load, Store]) == Some(t)
  {
    TwoSteps(Machine(c), s, Load, s1, Store, s2);
    TwoSteps(Machine(c), s2, Load, s3, Store, t);
    Through(Machine(c), s, [Load, Store], s2, [Load, Store], t);
  }

  lemma AddRun(c: Config, s: State, m: Move)
    requires s.handler == ToLoad(X, m)
    ensures Exec(Machine(c), s, [Load, Store] + [Load, Store]) ==
            Some(s.(x := s.x + m.dx, y := s.y + m.dy, handler := Waiting))
  {
    var s2 := s.(x := s.x + m.dx, handler := ToLoad(Y, m));
    AddX(c, s, m);
    AddY(c, s2, m);
    FourSteps(c, s, s.(handler := ToStore(X, m, s.x)), s2, s2.(handler := ToStore(Y, m, s.y)),
              s.(x := s.x + m.dx, y := s.y + m.dy, handler := Waiting));
  }

  lemma ByteStep(c: Config, s: State, b: bv8)
    requires Idle(c, s)
    ensures var more := Moves(c, Completed(s.frame, b));
            && |more| <= 1 && (more == [] <==> Completed(s.frame, b) == [])
            && Next(c, s, Byte(b)) == Some(s.(frame := Step(s.frame, b),
                                              handler := if more == [] then Waiting else ToLoad(X, more[0])))
  {
    BeginIs(c, s.frame, b);
  }

  lemma OneByte(c: Config, s: State, b: bv8, s1: State)
    requires Next(c, s, Byte(b)) == Some(s1)
    ensures Exec(Machine(c), s, [Byte(b)]) == Some(s1)
  {
    OneStep(Machine(c), s, Byte(b), s1);
  }

  lemma ShiftedByOne(s: State, f: Frame, m: Move)
    ensures Shifted(s, f, [m]) == s.(frame := f, x := s.x + m.dx, y := s.y + m.dy)
  {
    SumOne(X, m);
    SumOne(Y, m);
  }

  lemma HandledRun(c: Config, s: State, b: bv8)
    requires Idle(c, s)
    ensures Exec(Machine(c), s, Handled(s.frame, b)) ==
            Some(Shifted(s, Step(s.frame, b), Moves(c, Completed(s.frame, b))))
  {
    var f, more := Step(s.frame, b), Moves(c, Completed(s.frame, b));
    ByteStep(c, s, b);
    if more == [] {
      OneByte(c, s, b, s.(frame := f));
    } else {
      var m := more[0];
      var s1 := s.(frame := f, handler := ToLoad(X, m));
      OneByte(c, s, b, s1);
      AddRun(c, s1, m);
      ShiftedByOne(s, f, m);
      assert more == [m];
      Through(Machine(c), s, [Byte(b)], s1, [Load, Store] + [Load, Store], Shifted(s, f, more));
    }
  }

  lemma {:induction false} SumConcat(axis: Axis, a: seq<Move>, b: seq<Move>)
    ensures Sum(axis, a + b) == Sum(axis, a) + Sum(axis, b)
  {
    if b == [] {
      assert a + b == a;
    } else {
      assert (a + b)[..|a + b| - 1] == a + b[..|b| - 1];
      SumConcat(axis, a, b[..|b| - 1]);
    }
  }

  lemma ShiftedTwice(s: State, f: Frame, g: Frame, a: seq<Move>, b: seq<Move>)
    ensures Shifted(Shifted(s, f, a), g, b) == Shifted(s, g, a + b)
  {
    SumConcat(X, a, b);
    SumConcat(Y, a, b);
  }

  lemma OneMoreMove(c: Config, s: State, bs: seq<bv8>, b: bv8)
    ensures var f := Rest(s.frame, bs);
            Shifted(Shifted(s, f, Moves(c, Frames(s.frame, bs))), Step(f, b), Moves(c, Completed(f, b))) ==
            Shifted(s, Rest(s.frame, bs + [b]), Moves(c, Frames(s.frame, bs + [b])))
  {
    var f := Rest(s.frame, bs);
    BatchIndependent(s.frame, bs, [b]);
    FramesOfOne(f, b);
    MovesConcat(c, Frames(s.frame, bs), Completed(f, b));
    ShiftedTwice(s, f, Step(f, b), Moves(c, Frames(s.frame, bs)), Moves(c, Completed(f, b)));
  }

  function AllShifted(c: Config, s: State, bs: seq<bv8>): State {
    Shifted(s, Rest(s.frame, bs), Moves(c, Frames(s.frame, bs)))
  }

  lemma HandlingLast(f: Frame, bs: seq<bv8>)
    requires bs != []
    ensures var k := |bs| - 1;
            Handling(f, bs) == Handling(f, bs[..k]) + Handled(Rest(f, bs[..k]), bs[k])
  {
  }

  lemma AllShiftedMore(c: Config, s: State, before: seq<bv8>, b: bv8, bs: seq<bv8>, s1: State)
    requires bs == before + [b] && s1 == AllShifted(c, s, before)
    ensures AllShifted(c, s, bs) == Shifted(s1, Step(s1.frame, b), Moves(c, Completed(s1.frame, b)))
  {
    OneMoreMove(c, s, before, b);
  }

  lemma AllShiftedLast(c: Config, s: State, bs: seq<bv8>)
    requires bs != []
    ensures var s1, b := AllShifted(c, s, bs[..|bs| - 1]), bs[|bs| - 1];
            AllShifted(c, s, bs) == Shifted(s1, Step(s1.frame, b), Moves(c, Completed(s1.frame, b)))
  {
    var before, b := bs[..|bs| - 1], bs[|bs| - 1];
    AllShiftedMore(c, s, before, b, bs, AllShifted(c, s, before));
  }

  /** Bytes that nothing interferes with: the frame and the position follow the
      protocol. */
  lemma {:induction false} HandlingRun(c: Config, s: State, bs: seq<bv8>)
    requires Idle(c, s)
    ensures Exec(Machine(c), s, Handling(s.frame, bs)) == Some(AllShifted(c, s, bs))
  {
    if bs == [] {
      assert Handling(s.frame, bs) == [];
      assert AllShifted(c, s, bs) == s;
    } else {
      var before, b := bs[..|bs| - 1], bs[|bs| - 1];
      var s1 := AllShifted(c, s, before);
      HandlingRun(c, s, before);
      HandledRun(c, s1, b);
      HandlingLast(s.frame, bs);
      AllShiftedLast(c, s, bs);
      Joined(Machine(c), s, Handling(s.frame, before), s1, Handled(s1.frame, b), AllShifted(c, s, bs),
             Handling(s.frame, bs));
    }
  }

  lemma Joined(next: (State, Act) -> Option<State>,
               s: State, run: seq<Act>, m: State, more: seq<Act>, t: State, all: seq<Act>)
    requires Exec(next, s, run) == Some(m) && Exec(next, m, more) == Some(t) && all == run + more
    ensures Exec(next, s, all) == Some(t)
  {
    Through(next, s, run, m, more, t);
  }

  function PacketMoves(ps: seq<Packet>): seq<Move> {
    seq(|ps|, k requires 0 <= k < |ps| => Move(SignedChar(ps[k].dx), SignedChar(ps[k].dy)))
  }

  lemma MovesDecoded(sharing: Sharing, ws: seq<Frame>)
    requires forall k :: 0 <= k < |ws| ==> |ws[k]| == NBYTES
    ensures Moves(Serial(sharing), ws) == PacketMoves(DecodeAll(ws))
  {
  }

  lemma StreamMoves(sharing: Sharing, f: Frame, ps: seq<Packet>, bs: seq<bv8>)
    requires f == [] && bs == Flatten(EncodeAll(ps))
    ensures Moves(Serial(sharing), Frames(f, bs)) == PacketMoves(ps) && Rest(f, bs) == []
  {
    StreamRoundTrip(ps);
    MovesDecoded(sharing, Frames(f, bs));
  }

  /** Any list of packets sent to an aligned mouse leaves it aligned and moves it by
      exactly the sums of their deltas. */
  lemma StreamMovesBySum(sharing: Sharing, s: State, ps: seq<Packet>, bs: seq<bv8>)
    requires Idle(Serial(sharing), s) && s.frame == [] && bs == Flatten(EncodeAll(ps))
    ensures Exec(Machine(Serial(sharing)), s, Handling(s.frame, bs)) == Some(Shifted(s, [], PacketMoves(ps)))
  {
    StreamMoves(sharing, s.frame, ps, bs);
    HandlingRun(Serial(sharing), s, bs);
  }

  // ----------------------------------------- what comes between somebody's steps

  /** Whose code it is that others come in between of. */
  datatype Who = ByRead | ByHandler | ByIoctl(sharing: Sharing)

  /** A read does nothing to the position; the handler does all but the zeroings; an
      ioctl lets a handler that has interrupted it run to its end. */
  predicate IsOwn(who: Who, a: Act) {
    match who
    case ByRead => false
    case ByHandler => !a.Zero?
    case ByIoctl(sharing) => sharing != ManyCpus && a in {Load, Store}
  }

  /** Others do not finish our own ioctl. */
  predicate IsOther(who: Who, s: State, a: Act) {
    match who
    case ByRead => true
    case ByHandler => a.Zero?
    case ByIoctl(_) => a == Zero(Y) ==> s.zeroing > 1
  }

  function OwnActs(who: Who): (State, Act) -> bool {
    (s: State, a: Act) => IsOwn(who, a)
  }

  function OtherActs(who: Who): (State, Act) -> bool {
    (s: State, a: Act) => IsOther(who, s, a)
  }

  /** The trigger keeps the solver from working out steps that nobody asks about. */
  ghost predicate Faithful(machine: (State, Act) -> Option<State>, c: Config) {
    forall s, a {:trigger Next(c, s, a)} :: machine(s, a) == Next(c, s, a)
  }

  /** `run` leads from s to t and consists of own steps and of those of `acts` that
      could take place when they came, in this order. */
  ghost predicate Heard(machine: (State, Act) -> Option<State>, who: Who,
                        s: State, run: seq<Act>, t: State, acts: seq<Act>)
  {
    Hears(machine, OwnActs(who), OtherActs(who), s, run, t, acts)
  }

  lemma HeardNothing(machine: (State, Act) -> Option<State>, who: Who, s: State)
    ensures Heard(machine, who, s, [], s, [])
  {
    HearsNothing(machine, OwnActs(who), OtherActs(who), s);
  }

  lemma HeardOwn(machine: (State, Act) -> Option<State>, who: Who,
                 s: State, run: seq<Act>, m: State, acts: seq<Act>, a: Act, t: State)
    requires Heard(machine, who, s, run, m, acts) && IsOwn(who, a) && machine(m, a) == Some(t)
    ensures Heard(machine, who, s, run + [a], t, acts)
  {
    HearsOwn(machine, OwnActs(who), OtherActs(who), s, run, m, acts, a, t);
  }

  lemma HeardOther(machine: (State, Act) -> Option<State>, who: Who,
                   s: State, run: seq<Act>, m: State, acts: seq<Act>, a: Act, t: State)
    requires Heard(machine, who, s, run, m, acts) && IsOther(who, m, a) && machine(m, a) == Some(t)
    ensures Heard(machine, who, s, run + [a], t, acts + [a])
  {
    HearsTaken(machine, OwnActs(who), OtherActs(who), s, run, m, acts, a, t);
  }

  lemma HeardMissed(machine: (State, Act) -> Option<State>, who: Who,
                    s: State, run: seq<Act>, m: State, acts: seq<Act>, a: Act)
    requires Heard(machine, who, s, run, m, acts) && !(IsOther(who, m, a) && machine(m, a).Some?)
    ensures Heard(machine, who, s, run, m, acts + [a])
  {
    HearsMissed(machine, OwnActs(who), OtherActs(who), s, run, m, acts, a);
  }

  lemma HeardRuns(machine: (State, Act) -> Option<State>, who: Who,
                  s: State, run: seq<Act>, t: State, acts: seq<Act>)
    requires Heard(machine, who, s, run, t, acts)
    ensures Exec(machine, s, run) == Some(t)
  {
    HearsExec(machine, OwnActs(who), OtherActs(who), s, run, t, acts);
  }

  /** On many processors the ioctls that begin during a read are exactly those that came. */
  lemma ZeroingsTaken(machine: (State, Act) -> Option<State>, c: Config,
                      s: State, run: seq<Act>, t: State, acts: seq<Act>)
    requires Faithful(machine, c) && c.sharing == ManyCpus && Heard(machine, ByRead, s, run, t, acts)
    ensures Count(run, Zero(X)) == Count(acts, Zero(X))
  {
    forall m ensures machine(m, Zero(X)).Some? {
      assert Next(c, m, Zero(X)).Some?;
    }
    HearsEach(machine, OwnActs(ByRead), OtherActs(ByRead), s, run, t, acts, Zero(X));
  }

  /** Left alone, a read does nothing, an ioctl nothing but its two stores, and the
      handler no zeroing. */
  lemma HeardNobody(machine: (State, Act) -> Option<State>, c: Config, who: Who, s: State, run: seq<Act>, t: State)
    requires Faithful(machine, c) && Heard(machine, who, s, run, t, [])
    ensures who == ByRead || (who.ByIoctl? && (who.sharing == ManyCpus || s.handler == Waiting)) ==>
              run == [] && t == s
    ensures who == ByHandler ==> Ours(run) == run
  {
    NothingHeard(machine, OwnActs(who), OtherActs(who), s, run, t);
    AloneRun(machine, c, who, s, run);
  }

  lemma {:induction false} AloneRun(machine: (State, Act) -> Option<State>, c: Config, who: Who,
                                    s: State, run: seq<Act>)
    requires Faithful(machine, c) && Exec(Alone(machine, OwnActs(who)), s, run).Some?
    ensures who == ByRead || (who.ByIoctl? && (who.sharing == ManyCpus || s.handler == Waiting)) ==> run == []
    ensures who == ByHandler ==> Ours(run) == run
  {
    if run != [] {
      var before, a := run[..|run| - 1], run[|run| - 1];
      AloneRun(machine, c, who, s, before);
      assert run == before + [a];
      assert machine(s, a) == Next(c, s, a);
    }
  }

  /** What comes before each of the four accesses of the handler. */
  function AllFour(env: seq<seq<Act>>): seq<Act>
    requires |env| == 4
  {
    env[0] + env[1] + env[2] + env[3]
  }

  // -------------------------------------------------------------------- driver

  const ZERO_IOCTL := 0x6b01

  datatype IoctlResult = Done | Invalid

  class Driver {
    const sharing: Sharing
    const byteIn: array<bv8>
    var nbytesIn: nat
    var xpos: int
    var ypos: int
    /** The locals of the handler: its deltas, and the coordinate it has loaded. */
    var handler: Handler
    /** The transition system, Machine(Serial(sharing)). */
    ghost const machine: (State, Act) -> Option<State>
    /** The ioctls that have stored in xpos and not yet in ypos. */
    var zeroing: nat

    constructor (sharing: Sharing)
      ensures this.sharing == sharing && Valid() && View() == ORIGIN && fresh(byteIn)
      ensures machine == Machine(Serial(sharing))
    {
      machine := Machine(Serial(sharing));
      this.sharing := sharing;
      byteIn := new bv8[NBYTES];
      nbytesIn, xpos, ypos, handler, zeroing := 0, 0, 0, Waiting, 0;
    }

    ghost predicate Valid()
      reads this
    {
      && byteIn.Length == NBYTES && nbytesIn <= NBYTES && (nbytesIn == NBYTES <==> handler != Waiting)
      && Faithful(machine, Serial(sharing))
    }

    ghost function View(): State
      reads this, byteIn
      requires Valid()
    {
      State(if nbytesIn == NBYTES then [] else byteIn[..nbytesIn], xpos, ypos, handler, zeroing)
    }

    /** The driver has come here from `start` by the run, having met with these acts. */
    ghost predicate At(who: Who, start: State, run: seq<Act>, met: seq<Act>)
      reads this, byteIn
    {
      Valid() && Heard(machine, who, start, run, View(), met)
    }

    /** The handler up to its sums. */
    method TakeByte(b: bv8)
      requires Valid() && handler == Waiting && (sharing == Locked ==> zeroing == 0)
      modifies this`nbytesIn, this`handler, byteIn
      ensures Valid() && Next(Serial(sharing), old(View()), Byte(b)) == Some(View())
    {
      ghost var f := byteIn[..nbytesIn];
      if nbytesIn > 0 || b & MAGIC != 0 {
        byteIn[nbytesIn] := b;
        nbytesIn := nbytesIn + 1;
      }
      assert byteIn[..nbytesIn] == Accept(f, b);
      if nbytesIn == 3 {
        assert byteIn[..nbytesIn] == byteIn[..];
        var dx := SignedChar(DxBits(byteIn[0], byteIn[1]));
        var dy := SignedChar(DyBits(byteIn[0], byteIn[2]));
        handler := ToLoad(X, Move(dx, dy));
      }
    }

    /** The first half of `xpos += dx` or `ypos += dy`. */
    method LoadPosition()
      requires Valid() && handler.ToLoad?
      modifies this`handler
      ensures Valid() && Next(Serial(sharing), old(View()), Load) == Some(View())
    {
      handler := ToStore(handler.axis, handler.m, if handler.axis == X then xpos else ypos);
    }

    /** The second half. */
    method StorePosition()
      requires Valid() && handler.ToStore?
      modifies this`xpos, this`ypos, this`handler, this`nbytesIn
      ensures Valid() && Next(Serial(sharing), old(View()), Store) == Some(View())
    {
      if handler.axis == X {
        xpos := handler.loaded + handler.m.dx;
        handler := ToLoad(Y, handler.m);
      } else {
        ypos := handler.loaded + handler.m.dy;
        handler := Waiting;
        nbytesIn := 0;
      }
    }

    method ZeroPosition(axis: Axis)
      requires Valid() && (sharing == ManyCpus || handler == Waiting) && (axis == Y ==> zeroing > 0)
      modifies this`xpos, this`ypos, this`zeroing
      ensures Valid() && Next(Serial(sharing), old(View()), Zero(axis)) == Some(View())
    {
      if axis == X {
        xpos, zeroing := 0, zeroing + 1;
      } else {
        ypos, zeroing := 0, zeroing - 1;
      }
    }

    /** One store of an ioctl of somebody else, if it can come here. */
    method OtherZero(axis: Axis, who: Who) returns (took: bool)
      requires Valid() && (who.ByIoctl? ==> zeroing >= 1)
      modifies this`xpos, this`ypos, this`zeroing
      ensures Valid() && (who.ByIoctl? ==> zeroing >= 1)
      ensures took <==> IsOther(who, old(View()), Zero(axis)) && Next(Serial(sharing), old(View()), Zero(axis)).Some?
      ensures took ==> Next(Serial(sharing), old(View()), Zero(axis)) == Some(View())
      ensures !took ==> View() == old(View())
    {
      took := (sharing == ManyCpus || handler == Waiting) && (axis == Y ==> zeroing > if who.ByIoctl? then 1 else 0);
      if took {
        ZeroPosition(axis);
      }
    }

    /** One step of a handler, if it is its turn. */
    method OtherHandler(a: Act, who: Who) returns (took: bool)
      requires Valid() && !a.Zero?
      modifies this`xpos, this`ypos, this`handler, this`nbytesIn, byteIn
      ensures Valid()
      ensures took <==> IsOther(who, old(View()), a) && Next(Serial(sharing), old(View()), a).Some?
      ensures took ==> Next(Serial(sharing), old(View()), a) == Some(View())
      ensures !took ==> View() == old(View()) && handler == old(handler)
    {
      took := who != ByHandler;
      if took && a.Byte? && handler == Waiting && (sharing != Locked || zeroing == 0) {
        TakeByte(a.b);
      } else if took && a == Load && handler.ToLoad? {
        LoadPosition();
      } else if took && a == Store && handler.ToStore? {
        StorePosition();
      } else {
        took := false;
      }
    }

    /** One act of others. */
    method Other(a: Act, who: Who, ghost start: State, ghost run: seq<Act>, ghost met: seq<Act>)
      returns (ghost run': seq<Act>)
      requires At(who, start, run, met) && (who.ByIoctl? ==> zeroing >= 1)
      modifies this, byteIn
      ensures At(who, start, run', met + [a]) && (who.ByIoctl? ==> zeroing >= 1)
      ensures who == ByHandler ==> handler == old(handler) && Ours(run') == Ours(run)
    {
      ghost var was := View();
      var took;
      if a.Zero? {
        took := OtherZero(a.axis, who);
      } else {
        took := OtherHandler(a, who);
      }
      if took {
        HeardOther(machine, who, start, run, was, met, a, View());
        OursSnoc(run, a);
        run' := run + [a];
      } else {
        HeardMissed(machine, who, start, run, was, met, a);
        run' := run;
      }
    }

    /** What others do between two steps of a process. */
    method Others(acts: seq<Act>, who: Who, ghost start: State, ghost run: seq<Act>, ghost met: seq<Act>)
      returns (ghost run': seq<Act>)
      requires At(who, start, run, met) && (who.ByIoctl? ==> zeroing >= 1)
      modifies this, byteIn
      ensures At(who, start, run', met + acts) && (who.ByIoctl? ==> zeroing >= 1)
    {
      run' := run;
      ghost var so := met;
      for k := 0 to |acts|
        invariant so == met + acts[..k] && At(who, start, run', so) && (who.ByIoctl? ==> zeroing >= 1)
      {
        run' := Other(acts[k], who, start, run', so);
        PrefixMore(met, acts, k, so);
        so := so + [acts[k]];
      }
      PrefixAll(met, acts);
    }

    /** What others do between two steps of the handler. */
    method Zeros(acts: seq<Act>, ghost start: State, ghost run: seq<Act>, ghost met: seq<Act>, ghost h: Handler)
      returns (ghost run': seq<Act>)
      requires At(ByHandler, start, run, met) && handler == h
      modifies this, byteIn
      ensures At(ByHandler, start, run', met + acts) && handler == h && Ours(run') == Ours(run)
    {
      run' := run;
      ghost var so := met;
      for k := 0 to |acts|
        invariant so == met + acts[..k] && At(ByHandler, start, run', so)
        invariant handler == h && Ours(run') == Ours(run)
      {
        run' := Other(acts[k], ByHandler, start, run', so);
        PrefixMore(met, acts, k, so);
        so := so + [acts[k]];
      }
      PrefixAll(met, acts);
    }

    method DoLoad(who: Who, ghost start: State, ghost run: seq<Act>, ghost met: seq<Act>)
      returns (ghost run': seq<Act>)
      requires At(who, start, run, met) && handler.ToLoad? && IsOwn(who, Load)
      modifies this`handler
      ensures At(who, start, run', met) && Ours(run') == Ours(run) + [Load]
      ensures handler.ToStore? && handler.axis == old(handler.axis) && handler.m == old(handler.m)
    {
      ghost var was := View();
      LoadPosition();
      HeardOwn(machine, who, start, run, was, met, Load, View());
      OursSnoc(run, Load);
      run' := run + [Load];
    }

    method DoStore(who: Who, ghost start: State, ghost run: seq<Act>, ghost met: seq<Act>)
      returns (ghost run': seq<Act>)
      requires At(who, start, run, met) && handler.ToStore? && IsOwn(who, Store)
      modifies this`xpos, this`ypos, this`handler, this`nbytesIn
      ensures At(who, start, run', met) && Ours(run') == Ours(run) + [Store]
      ensures handler == if old(handler.axis) == X then ToLoad(Y, old(handler.m)) else Waiting
    {
      ghost var was := View();
      StorePosition();
      HeardOwn(machine, who, start, run, was, met, Store, View());
      OursSnoc(run, Store);
      run' := run + [Store];
    }

    method LoadAfter(acts: seq<Act>, ghost start: State, ghost run: seq<Act>, ghost met: seq<Act>)
      returns (ghost run': seq<Act>)
      requires At(ByHandler, start, run, met) && handler.ToLoad?
      modifies this, byteIn
      ensures At(ByHandler, start, run', met + acts) && Ours(run') == Ours(run) + [Load]
      ensures handler.ToStore? && handler.axis == old(handler.axis) && handler.m == old(handler.m)
    {
      run' := Zeros(acts, start, run, met, handler);
      run' := DoLoad(ByHandler, start, run', met + acts);
    }

    method StoreAfter(acts: seq<Act>, ghost start: State, ghost run: seq<Act>, ghost met: seq<Act>)
      returns (ghost run': seq<Act>)
      requires At(ByHandler, start, run, met) && handler.ToStore?
      modifies this, byteIn
      ensures At(ByHandler, start, run', met + acts) && Ours(run') == Ours(run) + [Store]
      ensures handler == if old(handler.axis) == X then ToLoad(Y, old(handler.m)) else Waiting
    {
      run' := Zeros(acts, start, run, met, handler);
      run' := DoStore(ByHandler, start, run', met + acts);
    }

    /** The handler adds to one coordinate; others come before its load and its store. */
    method AddOne(acts: seq<Act>, more: seq<Act>, ghost start: State, ghost run: seq<Act>, ghost met: seq<Act>)
      returns (ghost run': seq<Act>)
      requires At(ByHandler, start, run, met) && handler.ToLoad?
      modifies this, byteIn
      ensures At(ByHandler, start, run', met + acts + more) && Ours(run') == Ours(run) + [Load, Store]
      ensures handler == if old(handler.axis) == X then ToLoad(Y, old(handler.m)) else Waiting
    {
      assert Ours(run) + [Load] + [Store] == Ours(run) + [Load, Store];
      run' := LoadAfter(acts, start, run, met);
      run' := StoreAfter(more, start, run', met + acts);
    }

    /** my_interrupt, with the byte read from the port: whatever zeroing goes on at the
        same time, its own steps are those of Handled, it runs to its end, and the rest
        of the run are the zeroings of `env`.  With none, the mouse moves by what the
        byte completes. */
    method Interrupt(b: bv8, env: seq<seq<Act>>) returns (ghost run: seq<Act>)
      requires Valid() && handler == Waiting && (sharing == Locked ==> zeroing == 0) && |env| == 4
      modifies this, byteIn
      ensures Valid() && handler == Waiting
      ensures Exec(machine, old(View()), run) == Some(View())
      ensures Ours(run) == Handled(old(View()).frame, b)
      ensures At(ByHandler, old(View()), run, if Completed(old(View()).frame, b) == [] then [] else AllFour(env))
      ensures (forall k :: 0 <= k < 4 ==> env[k] == []) ==>
                && run == Handled(old(View()).frame, b)
                && View() == Shifted(old(View()), Step(old(View()).frame, b),
                                     Moves(Serial(sharing), Completed(old(View()).frame, b)))
    {
      ghost var start := View();
      run := FirstByte(b, start);
      ghost var met := [];
      if nbytesIn == 3 {
        Associative(Ours(run), [Load, Store], [Load, Store]);
        run := AddBoth(env, start, run);
        met := AllFour(env);
      }
      Undisturbed(start, b, run, met, env);
    }

    /** Up to the completion of a packet. */
    method FirstByte(b: bv8, ghost start: State) returns (ghost run: seq<Act>)
      requires Valid() && View() == start && handler == Waiting && (sharing == Locked ==> zeroing == 0)
      modifies this, byteIn
      ensures At(ByHandler, start, run, []) && run == [Byte(b)] == Ours(run)
      ensures if Completed(start.frame, b) == [] then handler == Waiting else handler.ToLoad? && handler.axis == X
    {
      BeginIs(Serial(sharing), start.frame, b);
      HeardNothing(machine, ByHandler, start);
      TakeByte(b);
      HeardOwn(machine, ByHandler, start, [], start, [], Byte(b), View());
      OursSnoc([], Byte(b));
      run := [] + [Byte(b)];
    }

    /** Both sums. */
    method AddBoth(env: seq<seq<Act>>, ghost start: State, ghost run: seq<Act>) returns (ghost run': seq<Act>)
      requires |env| == 4 && At(ByHandler, start, run, []) && handler.ToLoad? && handler.axis == X
      modifies this, byteIn
      ensures At(ByHandler, start, run', AllFour(env)) && handler == Waiting
      ensures Ours(run') == Ours(run) + [Load, Store] + [Load, Store]
    {
      PrefixNone(env[0]);
      run' := AddOne(env[0], env[1], start, run, []);
      run' := AddOne(env[2], env[3], start, run', env[0] + env[1]);
    }

    lemma Undisturbed(start: State, b: bv8, run: seq<Act>, met: seq<Act>, env: seq<seq<Act>>)
      requires At(ByHandler, start, run, met) && Idle(Serial(sharing), start) && |env| == 4
      requires Ours(run) == Handled(start.frame, b)
      requires met == if Completed(start.frame, b) == [] then [] else AllFour(env)
      ensures Exec(machine, start, run) == Some(View())
      ensures (forall k :: 0 <= k < 4 ==> env[k] == []) ==>
                && run == Handled(start.frame, b)
                && View() == Shifted(start, Step(start.frame, b), Moves(Serial(sharing), Completed(start.frame, b)))
    {
      HeardRuns(machine, ByHandler, start, run, View(), met);
      if forall k :: 0 <= k < 4 ==> env[k] == [] {
        assert met == [];
        HeardNobody(machine, Serial(sharing), ByHandler, start, run, View());
        HandledFaithfully(machine, Serial(sharing), start, b, run, View());
      }
    }

    /** A handler that interrupted us runs to its end before we go on. */
    method LetHandlerFinish(who: Who, ghost start: State, ghost run: seq<Act>, ghost met: seq<Act>)
      returns (ghost run': seq<Act>)
      requires At(who, start, run, met) && IsOwn(who, Load) && IsOwn(who, Store)
      modifies this`xpos, this`ypos, this`handler, this`nbytesIn
      ensures At(who, start, run', met) && handler == Waiting
    {
      run' := run;
      if handler.ToStore? {
        run' := DoStore(who, start, run', met);
      }
      while handler.ToLoad?
        invariant At(who, start, run', met) && !handler.ToStore?
        decreases if handler == Waiting then 0 else if handler.axis == Y then 1 else 2
      {
        run' := DoLoad(who, start, run', met);
        run' := DoStore(who, start, run', met);
      }
    }

    /** What comes before ypos = 0. */
    method BeforeSecond(between: seq<Act>) returns (ghost mid: seq<Act>)
      requires Valid() && zeroing > 0 && (sharing != ManyCpus ==> handler == Waiting)
      modifies this, byteIn
      ensures At(ByIoctl(sharing), old(View()), mid, between) && zeroing > 0
      ensures sharing != ManyCpus ==> handler == Waiting
    {
      ghost var start := View();
      HeardNothing(machine, ByIoctl(sharing), start);
      mid := Others(between, ByIoctl(sharing), start, [], []);
      PrefixNone(between);
      if sharing != ManyCpus {
        mid := LetHandlerFinish(ByIoctl(sharing), start, mid, between);
      }
    }

    /** mymouse_unlocked_ioctl: the two stores, with `between` between them and nothing
        else, but for the end of a handler that has begun. */
    method Ioctl(cmd: int, between: seq<Act>) returns (r: IoctlResult, ghost run: seq<Act>)
      requires Valid() && (sharing != ManyCpus ==> handler == Waiting)
      modifies this, byteIn
      ensures Valid() && Exec(machine, old(View()), run) == Some(View())
      ensures r == Done <==> cmd == ZERO_IOCTL
      ensures r == Done ==> ypos == 0 && Zeroed(machine, sharing, old(View()), run, View(), between)
      ensures r == Done && between == [] ==>
                run == [Zero(X), Zero(Y)] && View() == old(View()).(x := 0, y := 0)
      ensures r == Invalid ==> run == [] && View() == old(View())
    {
      ghost var start := View();
      run := [];
      if cmd != ZERO_IOCTL {
        return Invalid, run;
      }
      ZeroPosition(X);
      ghost var first := View();
      ghost var mid := BeforeSecond(between);
      ghost var second := View();
      ZeroPosition(Y);
      run := [Zero(X)] + mid + [Zero(Y)];
      ZeroedIs(machine, Serial(sharing), start, first, mid, second, View(), between);
      r := Done;
    }

    /** mymouse_read: xpos as it is at the first copy, ypos as it is at the second;
        `fault1` and `fault2` are failing copies.  The read itself does nothing to
        either: all that happens is what comes between the two copies. */
    method Read(lbuf: nat, fault1: bool, fault2: bool, between: seq<Act>)
      returns (r: Option<(int, int)>, ghost run: seq<Act>)
      requires Valid()
      modifies this, byteIn
      ensures Valid() && Exec(machine, old(View()), run) == Some(View())
      ensures r.Some? <==> lbuf >= 8 && !fault1 && !fault2
      ensures r.Some? ==> r.value == (old(xpos), ypos)
      ensures At(ByRead, old(View()), run, if lbuf < 8 || fault1 then [] else between)
      ensures sharing == ManyCpus && lbuf >= 8 && !fault1 ==> Count(run, Zero(X)) == Count(between, Zero(X))
      ensures lbuf < 8 || fault1 || between == [] ==> run == [] && View() == old(View())
      ensures r.Some? && between == [] ==> r.value == (old(xpos), old(ypos))
    {
      ghost var start := View();
      run := [];
      HeardNothing(machine, ByRead, start);
      if lbuf < 8 || fault1 {
        return None, run;
      }
      var x := xpos;
      run := Others(between, ByRead, start, run, []);
      PrefixNone(between);
      HeardRuns(machine, ByRead, start, run, View(), between);
      if sharing == ManyCpus {
        ZeroingsTaken(machine, Serial(sharing), start, run, View(), between);
      }
      if between == [] {
        HeardNobody(machine, Serial(sharing), ByRead, start, run, View());
      }
      return if fault2 then None else Some((x, ypos)), run;
    }
  }

  lemma HandledFaithfully(machine: (State, Act) -> Option<State>, c: Config, s: State, b: bv8, run: seq<Act>, t: State)
    requires Faithful(machine, c) && Idle(c, s) && run == Handled(s.frame, b) && Exec(machine, s, run) == Some(t)
    ensures t == Shifted(s, Step(s.frame, b), Moves(c, Completed(s.frame, b)))
  {
    HandledRun(c, s, b);
    SameRun(machine, c, s, run);
  }

  lemma {:induction false} SameRun(machine: (State, Act) -> Option<State>, c: Config, s: State, run: seq<Act>)
    requires Faithful(machine, c)
    ensures Exec(machine, s, run) == Exec(Machine(c), s, run)
  {
    if run != [] {
      var before, a := run[..|run| - 1], run[|run| - 1];
      SameRun(machine, c, s, before);
      if Exec(machine, s, before).Some? {
        SameStep(machine, c, Exec(machine, s, before).value, a);
      }
    }
  }

  lemma SameStep(machine: (State, Act) -> Option<State>, c: Config, m: State, a: Act)
    requires Faithful(machine, c)
    ensures machine(m, a) == Machine(c)(m, a)
  {
    assert machine(m, a) == Next(c, m, a);
  }

  /** The run of an ioctl: xpos = 0, what comes in between, ypos = 0. */
  ghost predicate Zeroed(machine: (State, Act) -> Option<State>, sharing: Sharing,
                         s: State, run: seq<Act>, t: State, between: seq<Act>)
  {
    exists first, mid, second ::
      && machine(s, Zero(X)) == Some(first)
      && Heard(machine, ByIoctl(sharing), first, mid, second, between)
      && machine(second, Zero(Y)) == Some(t)
      && run == [Zero(X)] + mid + [Zero(Y)]
  }

  lemma ZeroedIs(machine: (State, Act) -> Option<State>, c: Config,
                 s: State, first: State, mid: seq<Act>, second: State, t: State, between: seq<Act>)
    requires Faithful(machine, c) && Next(c, s, Zero(X)) == Some(first) && Next(c, second, Zero(Y)) == Some(t)
    requires Heard(machine, ByIoctl(c.sharing), first, mid, second, between)
    ensures var run := [Zero(X)] + mid + [Zero(Y)];
            && Zeroed(machine, c.sharing, s, run, t, between) && Exec(machine, s, run) == Some(t)
            && (between == [] ==> run == [Zero(X), Zero(Y)] && t == s.(x := 0, y := 0))
  {
    HeardRuns(machine, ByIoctl(c.sharing), first, mid, second, between);
    ThreeParts(machine, s, Zero(X), first, mid, second, Zero(Y), t);
    if between == [] {
      NothingBetween(machine, c, s, first, mid, second, t);
    }
  }

  lemma NothingBetween(machine: (State, Act) -> Option<State>, c: Config,
                       s: State, first: State, mid: seq<Act>, second: State, t: State)
    requires Faithful(machine, c) && Next(c, s, Zero(X)) == Some(first) && Next(c, second, Zero(Y)) == Some(t)
    requires Heard(machine, ByIoctl(c.sharing), first, mid, second, [])
    ensures [Zero(X)] + mid + [Zero(Y)] == [Zero(X), Zero(Y)] && t == s.(x := 0, y := 0)
  {
    HeardNobody(machine, c, ByIoctl(c.sharing), first, mid, second);
  }

  lemma ThreeParts(next: (State, Act) -> Option<State>,
                   s: State, a: Act, first: State, mid: seq<Act>, second: State, b: Act, t: State)
    requires next(s, a) == Some(first) && Exec(next, first, mid) == Some(second) && next(second, b) == Some(t)
    ensures Exec(next, s, [a] + mid + [b]) == Some(t)
  {
    OneStep(next, s, a, first);
    Through(next, s, [a], first, mid, second);
    Extend(next, s, [a] + mid, second, b, t);
  }

  /** The steps of a run that are the handler's. */
  function Ours(run: seq<Act>): seq<Act> {
    if run == [] then [] else
    var a := run[|run| - 1];
    Ours(run[..|run| - 1]) + (if a.Zero? then [] else [a])
  }

  lemma OursSnoc(run: seq<Act>, a: Act)
    ensures Ours(run + [a]) == Ours(run) + (if a.Zero? then [] else [a])
  {
    assert (run + [a])[..|run|] == run;
  }
}
