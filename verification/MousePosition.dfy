/** SOLUTIONS/s_21/lab4_serial.c as a transition system: the handler takes a byte and,
    when a packet is complete, adds to xpos and then to ypos, each a load and a store;
    an ioctl stores zero in xpos and then in ypos.  Nothing in the source keeps the
    two apart.  Handlers do not overlap each other; any number of ioctls can be under
    way.  What has been counted into an axis is read off the run, not kept in it. */
module MousePosition {
  import opened MouseProtocol
  import opened Options
  import opened Runs

  /** What may come between what.  ManyCpus: anything.  OneCpu: a handler that has begun
      runs to its end, but may come between the two stores of an ioctl.  Locked: a lock
      that the source does not have keeps it out of there, too. */
  datatype Sharing = ManyCpus | OneCpu | Locked

  /** `decode`: what a packet does to the position.  Little here depends on it. */
  datatype Config = Config(sharing: Sharing, decode: Frame -> Move)

  /** The driver, with the decoding of the source. */
  function Serial(sharing: Sharing): Config {
    Config(sharing, w => MoveOf(w))
  }

  datatype Axis = X | Y

  type Shift = d: int | -128 <= d < 128

  /** What a packet does to the position. */
  datatype Move = Move(dx: Shift, dy: Shift)

  function MoveOf(w: Frame): Move {
    if |w| != NBYTES then Move(0, 0) else Move(SignedChar(Decode(w).dx), SignedChar(Decode(w).dy))
  }

  function Delta(a: Axis, m: Move): Shift {
    if a == X then m.dx else m.dy
  }

  /** ToStore: it has loaded the axis and is about to store the sum. */
  datatype Handler = Waiting | ToLoad(axis: Axis, m: Move) | ToStore(axis: Axis, m: Move, loaded: int)

  /** `zeroing`: ioctls between their two stores. */
  datatype State = State(frame: Frame, x: int, y: int, handler: Handler, zeroing: nat)

  datatype Act = Byte(b: bv8) | Load | Store | Zero(axis: Axis)

  const ORIGIN := State([], 0, 0, Waiting, 0)

  function Value(s: State, a: Axis): int {
    if a == X then s.x else s.y
  }

  function Put(s: State, a: Axis, v: int): State {
    if a == X then s.(x := v) else s.(y := v)
  }

  /** The handler once this byte is accepted or dropped. */
  function Begin(c: Config, f: Frame, b: bv8): Handler {
    var done := Completed(f, b);
    if done == [] then Waiting else ToLoad(X, c.decode(done[0]))
  }

  function Next(c: Config, s: State, a: Act): Option<State> {
    match a
    case Byte(b) =>
      if s.handler != Waiting || (c.sharing == Locked && s.zeroing > 0) then None else
      Some(s.(frame := Step(s.frame, b), handler := Begin(c, s.frame, b)))
    case Load =>
      (match s.handler
       case ToLoad(axis, m) => Some(s.(handler := ToStore(axis, m, Value(s, axis))))
       case _ => None)
    case Store =>
      (match s.handler
       case ToStore(axis, m, v) =>
         Some(Put(s, axis, v + Delta(axis, m)).(handler := if axis == X then ToLoad(Y, m) else Waiting))
       case _ => None)
    case Zero(X) =>
      if c.sharing != ManyCpus && s.handler != Waiting then None else Some(s.(x := 0, zeroing := s.zeroing + 1))
    case Zero(Y) =>
      if (c.sharing != ManyCpus && s.handler != Waiting) || s.zeroing == 0 then None else
      Some(s.(y := 0, zeroing := s.zeroing - 1))
  }

  function Machine(c: Config): (State, Act) -> Option<State> {
    (s, a) => Next(c, s, a)
  }

  ghost predicate Possible(c: Config, run: seq<Act>) {
    Exec(Machine(c), ORIGIN, run).Some?
  }

  ghost function After(c: Config, run: seq<Act>): State
    requires Possible(c, run)
  {
    Exec(Machine(c), ORIGIN, run).value
  }

  // ------------------------------------------------ what the run says of an axis

  function Sum(a: Axis, ms: seq<Move>): int {
    if ms == [] then 0 else Sum(a, ms[..|ms| - 1]) + Delta(a, ms[|ms| - 1])
  }

  /** The packets stored in an axis since its last zeroing, or since the start; whether
      it has been zeroed since the handler last loaded it; and what the last zeroing
      failed to clear, because it came between a load and its store. */
  datatype Tally = Tally(since: seq<Move>, overtaken: bool, revived: int)

  function Note(s: State, a: Act, axis: Axis, t: Tally): Tally {
    if a == Zero(axis) then Tally([], true, 0)
    else if a == Load && s.handler.ToLoad? && s.handler.axis == axis then t.(overtaken := false)
    else if a == Store && s.handler.ToStore? && s.handler.axis == axis then
      t.(since := t.since + [s.handler.m], revived := if t.overtaken then s.handler.loaded else t.revived)
    else t
  }

  ghost function TallyOf(c: Config, run: seq<Act>, axis: Axis): Tally
    requires Possible(c, run)
  {
    if run == [] then Tally([], false, 0) else
    var before := run[..|run| - 1];
    Note(After(c, before), run[|run| - 1], axis, TallyOf(c, before, axis))
  }

  ghost function Since(c: Config, run: seq<Act>, axis: Axis): seq<Move>
    requires Possible(c, run)
  {
    TallyOf(c, run, axis).since
  }

  lemma SumSnoc(a: Axis, ms: seq<Move>, m: Move)
    ensures Sum(a, ms + [m]) == Sum(a, ms) + Delta(a, m)
  {
    assert (ms + [m])[..|ms|] == ms;
  }

  ghost predicate SumsUp(s: State, axis: Axis, t: Tally) {
    && Value(s, axis) == Sum(axis, t.since) + t.revived
    && (s.handler.ToStore? && s.handler.axis == axis ==>
          if t.overtaken then t.since == [] else s.handler.loaded == Value(s, axis))
  }

  lemma SumsUpStore(c: Config, s: State, axis: Axis, t: Tally)
    requires SumsUp(s, axis, t) && Next(c, s, Store).Some?
    ensures SumsUp(Next(c, s, Store).value, axis, Note(s, Store, axis, t))
  {
    SumSnoc(axis, t.since, s.handler.m);
  }

  lemma SumsUpByte(c: Config, s: State, b: bv8, axis: Axis, t: Tally)
    requires SumsUp(s, axis, t) && Next(c, s, Byte(b)).Some?
    ensures SumsUp(Next(c, s, Byte(b)).value, axis, Note(s, Byte(b), axis, t))
  {
  }

  lemma SumsUpNext(c: Config, s: State, a: Act, axis: Axis, t: Tally)
    requires SumsUp(s, axis, t) && Next(c, s, a).Some?
    ensures SumsUp(Next(c, s, a).value, axis, Note(s, a, axis, t))
  {
    match a
    case Byte(b) => SumsUpByte(c, s, b, axis, t);
    case Store => SumsUpStore(c, s, axis, t);
    case Load =>
    case Zero(_) =>
  }

  /** In every run, on any number of processors, each axis is the sum of the deltas
      stored since its last zeroing, plus what that zeroing failed to clear. */
  lemma {:induction false} AxisIsSum(c: Config, run: seq<Act>, axis: Axis)
    requires Possible(c, run)
    ensures var t := TallyOf(c, run, axis);
            Value(After(c, run), axis) == Sum(axis, t.since) + t.revived && SumsUp(After(c, run), axis, t)
  {
    if run != [] {
      var before, a := run[..|run| - 1], run[|run| - 1];
      AxisIsSum(c, before, axis);
      SumsUpNext(c, After(c, before), a, axis, TallyOf(c, before, axis));
    }
  }

  lemma {:induction false} NothingRevived(c: Config, run: seq<Act>, axis: Axis)
    requires c.sharing != ManyCpus && Possible(c, run)
    ensures var t, h := TallyOf(c, run, axis), After(c, run).handler;
            t.revived == 0 && (h.ToStore? && h.axis == axis ==> !t.overtaken)
  {
    if run != [] {
      NothingRevived(c, run[..|run| - 1], axis);
    }
  }

  lemma {:induction false} SumBound(a: Axis, ms: seq<Move>)
    ensures -128 * |ms| <= Sum(a, ms) <= 128 * |ms|
  {
    if ms != [] {
      SumBound(a, ms[..|ms| - 1]);
    }
  }

  ghost predicate IsSum(c: Config, run: seq<Act>, axis: Axis)
    requires Possible(c, run)
  {
    Value(After(c, run), axis) == Sum(axis, Since(c, run, axis))
  }

  ghost predicate Within(c: Config, run: seq<Act>, axis: Axis)
    requires Possible(c, run)
  {
    var n := 128 * |Since(c, run, axis)|;
    -n <= Value(After(c, run), axis) <= n
  }

  // ------------------------------------------------------------- spelling runs out

  lemma GoAct(c: Config, run: seq<Act>, a: Act) returns (r: seq<Act>)
    requires Possible(c, run) && Next(c, After(c, run), a).Some?
    ensures r == run + [a] && Possible(c, r) && Some(After(c, r)) == Next(c, After(c, run), a)
    ensures forall axis :: TallyOf(c, r, axis) == Note(After(c, run), a, axis, TallyOf(c, run, axis))
  {
    r := run + [a];
    ExecSnoc(Machine(c), ORIGIN, run, a);
    assert r[..|run|] == run;
  }

  /** One byte, with the frame and the handler that it leaves. */
  lemma GoByte(c: Config, run: seq<Act>, b: bv8, f: Frame, h: Handler) returns (r: seq<Act>)
    requires Possible(c, run) && After(c, run).handler == Waiting
    requires c.sharing == Locked ==> After(c, run).zeroing == 0
    requires f == Step(After(c, run).frame, b) && h == Begin(c, After(c, run).frame, b)
    ensures r == run + [Byte(b)] && Possible(c, r)
    ensures After(c, r) == After(c, run).(frame := f, handler := h)
    ensures forall axis :: TallyOf(c, r, axis) == TallyOf(c, run, axis)
  {
    r := GoAct(c, run, Byte(b));
  }

  /** Byte n of a packet, but not the last. */
  lemma GoPart(c: Config, run: seq<Act>, w: Frame, n: nat) returns (r: seq<Act>)
    requires |w| == NBYTES && IsFirst(w[0]) && n < 2
    requires Possible(c, run) && After(c, run).handler == Waiting && After(c, run).frame == w[..n]
    requires c.sharing == Locked ==> After(c, run).zeroing == 0
    ensures r == run + [Byte(w[n])] && Possible(c, r) && After(c, r) == After(c, run).(frame := w[..n + 1])
    ensures forall axis :: TallyOf(c, r, axis) == TallyOf(c, run, axis)
  {
    assert w[..n] + [w[n]] == w[..n + 1];
    assert Step(w[..n], w[n]) == w[..n + 1] && Begin(c, w[..n], w[n]) == Waiting;
    r := GoByte(c, run, w[n], w[..n + 1], Waiting);
  }

  lemma GoLast(c: Config, run: seq<Act>, w: Frame) returns (r: seq<Act>)
    requires |w| == NBYTES
    requires Possible(c, run) && After(c, run).handler == Waiting && After(c, run).frame == w[..2]
    requires c.sharing == Locked ==> After(c, run).zeroing == 0
    ensures r == run + [Byte(w[2])] && Possible(c, r)
    ensures After(c, r) == After(c, run).(frame := [], handler := ToLoad(X, c.decode(w)))
    ensures forall axis :: TallyOf(c, r, axis) == TallyOf(c, run, axis)
  {
    assert Accept(w[..2], w[2]) == w;
    r := GoByte(c, run, w[2], [], ToLoad(X, c.decode(w)));
  }

  /** The three bytes of a packet come in. */
  lemma GoPacket(c: Config, run: seq<Act>, w: Frame) returns (r: seq<Act>)
    requires Possible(c, run) && After(c, run).frame == [] && After(c, run).handler == Waiting
    requires c.sharing == Locked ==> After(c, run).zeroing == 0
    requires |w| == NBYTES && IsFirst(w[0])
    ensures r == run + [Byte(w[0]), Byte(w[1]), Byte(w[2])] && Possible(c, r)
    ensures After(c, r) == After(c, run).(handler := ToLoad(X, c.decode(w)))
    ensures forall axis :: TallyOf(c, r, axis) == TallyOf(c, run, axis)
  {
    r := GoPart(c, run, w, 0);
    r := GoPart(c, r, w, 1);
    r := GoLast(c, r, w);
  }

  /** The handler adds to one axis. */
  lemma GoAxis(c: Config, run: seq<Act>, axis: Axis, m: Move) returns (r: seq<Act>)
    requires Possible(c, run) && After(c, run).handler == ToLoad(axis, m)
    ensures r == run + [Load, Store] && Possible(c, r)
    ensures var s := After(c, run);
            After(c, r) == Put(s, axis, Value(s, axis) + Delta(axis, m)).(
                             handler := if axis == X then ToLoad(Y, m) else Waiting)
    ensures Since(c, r, axis) == Since(c, run, axis) + [m]
    ensures forall other | other != axis :: Since(c, r, other) == Since(c, run, other)
  {
    r := GoAct(c, run, Load);
    r := GoAct(c, r, Store);
  }

  /** The handler adds to both axes. */
  lemma GoAdd(c: Config, run: seq<Act>, m: Move) returns (r: seq<Act>)
    requires Possible(c, run) && After(c, run).handler == ToLoad(X, m)
    ensures r == run + [Load, Store, Load, Store] && Possible(c, r)
    ensures var s := After(c, run);
            After(c, r) == s.(x := s.x + m.dx, y := s.y + m.dy, handler := Waiting)
    ensures forall axis :: Since(c, r, axis) == Since(c, run, axis) + [m]
  {
    r := GoAxis(c, run, X, m);
    r := GoAxis(c, r, Y, m);
  }

  // ------------------------------------------------------------- one axis: exactly when

  const FAR_LEFT: Frame := [0x42, 0x00, 0x00]

  /** Two packets, xpos zeroed between the load and the store of the second: the first
      is still there. */
  lemma ZeroLost(c: Config, w: Frame) returns (run: seq<Act>)
    requires c.sharing == ManyCpus && |w| == NBYTES && IsFirst(w[0])
    ensures Possible(c, run) && After(c, run).x == 2 * c.decode(w).dx && Since(c, run, X) == [c.decode(w)]
  {
    run := GoPacket(c, [], w);
    run := GoAdd(c, run, c.decode(w));
    run := GoPacket(c, run, w);
    run := GoAct(c, run, Load);
    run := GoAct(c, run, Zero(X));
    run := GoAct(c, run, Store);
  }

  lemma SumOne(axis: Axis, m: Move)
    ensures Sum(axis, [m]) == Delta(axis, m)
  {
    assert [m][..0] == [];
  }

  lemma FarLeft()
    ensures MoveOf(FAR_LEFT) == Move(-128, 0)
  {
    assert Decode(FAR_LEFT).dx == 0x80 && Decode(FAR_LEFT).dy == 0;
  }

  /** An axis is always the sum of the packets stored since its last zeroing, and so
      within 128 times their number, exactly when no ioctl can run inside the handler:
      the source is right on one processor only. */
  lemma AxisIsSumIff(sharing: Sharing)
    ensures var c := Serial(sharing);
            && ((forall run, axis | Possible(c, run) :: IsSum(c, run, axis)) <==> sharing != ManyCpus)
            && ((forall run, axis | Possible(c, run) :: Within(c, run, axis)) <==> sharing != ManyCpus)
  {
    var c := Serial(sharing);
    if c.sharing != ManyCpus {
      forall run, axis | Possible(c, run) ensures IsSum(c, run, axis) && Within(c, run, axis) {
        AxisIsSum(c, run, axis);
        NothingRevived(c, run, axis);
        SumBound(axis, Since(c, run, axis));
      }
    } else {
      FarLeft();
      var run := ZeroLost(c, FAR_LEFT);
      SumOne(X, Move(-128, 0));
      assert !Within(c, run, X) && !IsSum(c, run, X);
    }
  }

  // ------------------------------------------------------- both axes: exactly when

  function Taken(a: Act): seq<bv8> {
    if a.Byte? then [a.b] else []
  }

  function BytesOf(run: seq<Act>): seq<bv8> {
    if run == [] then [] else BytesOf(run[..|run| - 1]) + Taken(run[|run| - 1])
  }

  predicate IsTail<T(==)>(ws: seq<T>, all: seq<T>) {
    |ws| <= |all| && all[|all| - |ws|..] == ws
  }

  function Moves(c: Config, ws: seq<Frame>): seq<Move> {
    seq(|ws|, k requires 0 <= k < |ws| => c.decode(ws[k]))
  }

  /** Those of the packets completed that have been stored in the axis. */
  function DoneWith(s: State, axis: Axis, all: seq<Move>): seq<Move> {
    if all == [] || s.handler == Waiting || (axis == X && s.handler.axis == Y) then all else all[..|all| - 1]
  }

  /** What has been stored in each axis is the end of what has been decoded. */
  ghost predicate Tracks(s: State, xs: seq<Move>, ys: seq<Move>, all: seq<Move>) {
    && (s.handler != Waiting ==> all != [] && s.handler.m == all[|all| - 1])
    && IsTail(xs, DoneWith(s, X, all)) && IsTail(ys, DoneWith(s, Y, all))
  }

  lemma TailSnoc<T>(ws: seq<T>, all: seq<T>, w: T)
    requires IsTail(ws, all)
    ensures IsTail(ws + [w], all + [w])
  {
    assert (all + [w])[|all| - |ws|..] == all[|all| - |ws|..] + [w];
  }

  lemma MovesConcat(c: Config, a: seq<Frame>, b: seq<Frame>)
    ensures Moves(c, a + b) == Moves(c, a) + Moves(c, b)
  {
  }

  lemma OneMoreByte(c: Config, bytes: seq<bv8>, b: bv8)
    ensures var f := Rest([], bytes);
            && Rest([], bytes + [b]) == Step(f, b)
            && Moves(c, Frames([], bytes + [b])) == Moves(c, Frames([], bytes)) + Moves(c, Completed(f, b))
  {
    var f := Rest([], bytes);
    BatchIndependent([], bytes, [b]);
    FramesOfOne(f, b);
    MovesConcat(c, Frames([], bytes), Completed(f, b));
  }

  lemma BeginIs(c: Config, f: Frame, b: bv8)
    ensures var more := Moves(c, Completed(f, b));
            if more == [] then Begin(c, f, b) == Waiting else |more| == 1 && Begin(c, f, b) == ToLoad(X, more[0])
  {
  }

  /** A byte that completes a packet, or none, has not been stored anywhere yet. */
  lemma TracksByte(s: State, t: State, xs: seq<Move>, ys: seq<Move>, was: seq<Move>, more: seq<Move>)
    requires s.handler == Waiting && Tracks(s, xs, ys, was)
    requires if more == [] then t.handler == Waiting else |more| == 1 && t.handler == ToLoad(X, more[0])
    ensures Tracks(t, xs, ys, was + more)
  {
    if more == [] {
      assert was + more == was;
    } else {
      assert (was + more)[..|was + more| - 1] == was;
    }
  }

  lemma TracksStore(c: Config, s: State, tx: Tally, ty: Tally, all: seq<Move>)
    requires Tracks(s, tx.since, ty.since, all) && Next(c, s, Store).Some?
    ensures Next(c, s, Store).value.frame == s.frame
    ensures Tracks(Next(c, s, Store).value, Note(s, Store, X, tx).since, Note(s, Store, Y, ty).since, all)
  {
    var m := s.handler.m;
    assert all[..|all| - 1] + [m] == all;
    TailSnoc(if s.handler.axis == X then tx.since else ty.since, all[..|all| - 1], m);
  }

  lemma TracksZero(c: Config, s: State, tx: Tally, ty: Tally, all: seq<Move>, axis: Axis)
    requires Tracks(s, tx.since, ty.since, all) && Next(c, s, Zero(axis)).Some?
    ensures Next(c, s, Zero(axis)).value.frame == s.frame
    ensures var a := Zero(axis);
            Tracks(Next(c, s, a).value, Note(s, a, X, tx).since, Note(s, a, Y, ty).since, all)
  {
    assert IsTail([], DoneWith(s, X, all)) && IsTail([], DoneWith(s, Y, all));
  }

  lemma TracksLoad(c: Config, s: State, tx: Tally, ty: Tally, all: seq<Move>)
    requires Tracks(s, tx.since, ty.since, all) && Next(c, s, Load).Some?
    ensures Next(c, s, Load).value.frame == s.frame
    ensures Tracks(Next(c, s, Load).value, Note(s, Load, X, tx).since, Note(s, Load, Y, ty).since, all)
  {
    var h := Next(c, s, Load).value;
    assert h.handler.ToStore? && h.handler.axis == s.handler.axis && h.handler.m == s.handler.m;
    assert DoneWith(h, X, all) == DoneWith(s, X, all) && DoneWith(h, Y, all) == DoneWith(s, Y, all);
    assert Note(s, Load, X, tx).since == tx.since && Note(s, Load, Y, ty).since == ty.since;
  }

  ghost predicate Follows(c: Config, s: State, xs: seq<Move>, ys: seq<Move>, bytes: seq<bv8>) {
    s.frame == Rest([], bytes) && Tracks(s, xs, ys, Moves(c, Frames([], bytes)))
  }

  /** Step a leads from s to t, and the records of both axes and of the bytes grow so. */
  ghost predicate Grows(c: Config, s: State, a: Act, t: State,
                        tx: Tally, ty: Tally, tx': Tally, ty': Tally, bytes: seq<bv8>, bytes': seq<bv8>)
  {
    && Next(c, s, a) == Some(t) && bytes' == bytes + Taken(a)
    && tx' == Note(s, a, X, tx) && ty' == Note(s, a, Y, ty)
  }

  lemma FollowsByte(c: Config, s: State, b: bv8, t: State,
                    tx: Tally, ty: Tally, tx': Tally, ty': Tally, bytes: seq<bv8>, bytes': seq<bv8>)
    requires Follows(c, s, tx.since, ty.since, bytes)
    requires Grows(c, s, Byte(b), t, tx, ty, tx', ty', bytes, bytes')
    ensures Follows(c, t, tx'.since, ty'.since, bytes')
  {
    OneMoreByte(c, bytes, b);
    BeginIs(c, s.frame, b);
    TracksByte(s, t, tx.since, ty.since, Moves(c, Frames([], bytes)), Moves(c, Completed(s.frame, b)));
  }

  lemma FollowsStore(c: Config, s: State, t: State,
                     tx: Tally, ty: Tally, tx': Tally, ty': Tally, bytes: seq<bv8>, bytes': seq<bv8>)
    requires Follows(c, s, tx.since, ty.since, bytes)
    requires Grows(c, s, Store, t, tx, ty, tx', ty', bytes, bytes')
    ensures Follows(c, t, tx'.since, ty'.since, bytes')
  {
    TracksStore(c, s, tx, ty, Moves(c, Frames([], bytes)));
    assert bytes' == bytes;
  }

  lemma FollowsLoad(c: Config, s: State, t: State,
                    tx: Tally, ty: Tally, tx': Tally, ty': Tally, bytes: seq<bv8>, bytes': seq<bv8>)
    requires Follows(c, s, tx.since, ty.since, bytes)
    requires Grows(c, s, Load, t, tx, ty, tx', ty', bytes, bytes')
    ensures Follows(c, t, tx'.since, ty'.since, bytes')
  {
    TracksLoad(c, s, tx, ty, Moves(c, Frames([], bytes)));
    assert bytes' == bytes;
  }

  lemma FollowsZero(c: Config, s: State, axis: Axis, t: State,
                    tx: Tally, ty: Tally, tx': Tally, ty': Tally, bytes: seq<bv8>, bytes': seq<bv8>)
    requires Follows(c, s, tx.since, ty.since, bytes)
    requires Grows(c, s, Zero(axis), t, tx, ty, tx', ty', bytes, bytes')
    ensures Follows(c, t, tx'.since, ty'.since, bytes')
  {
    TracksZero(c, s, tx, ty, Moves(c, Frames([], bytes)), axis);
    assert bytes' == bytes;
  }

  lemma StepFollows(c: Config, s: State, a: Act, t: State,
                    tx: Tally, ty: Tally, tx': Tally, ty': Tally, bytes: seq<bv8>, bytes': seq<bv8>)
    requires Follows(c, s, tx.since, ty.since, bytes)
    requires Grows(c, s, a, t, tx, ty, tx', ty', bytes, bytes')
    ensures Follows(c, t, tx'.since, ty'.since, bytes')
  {
    match a
    case Byte(b) => FollowsByte(c, s, b, t, tx, ty, tx', ty', bytes, bytes');
    case Store => FollowsStore(c, s, t, tx, ty, tx', ty', bytes, bytes');
    case Load => FollowsLoad(c, s, t, tx, ty, tx', ty', bytes, bytes');
    case Zero(axis) => FollowsZero(c, s, axis, t, tx, ty, tx', ty', bytes, bytes');
  }

  /** In every run the packets stored are those decoded from the bytes, in order. */
  lemma {:induction false} StoredAreDecoded(c: Config, run: seq<Act>)
    requires Possible(c, run)
    ensures Follows(c, After(c, run), Since(c, run, X), Since(c, run, Y), BytesOf(run))
  {
    if run != [] {
      var before, a := run[..|run| - 1], run[|run| - 1];
      StoredAreDecoded(c, before);
      var s, tx, ty, bytes := After(c, before), TallyOf(c, before, X), TallyOf(c, before, Y), BytesOf(before);
      StepFollows(c, s, a, After(c, run), tx, ty, TallyOf(c, run, X), TallyOf(c, run, Y), bytes, BytesOf(run));
    }
  }

  /** The packets that were stored between the two stores of the last ioctl. */
  ghost function Between(c: Config, run: seq<Act>): nat
    requires Possible(c, run)
  {
    if run == [] then 0 else
    var before := run[..|run| - 1];
    if run[|run| - 1] == Zero(Y) then |Since(c, before, X)| else Between(c, before)
  }

  ghost predicate Resting(s: State) {
    s.handler == Waiting && s.zeroing == 0
  }

  lemma {:induction false} SinceLengths(c: Config, run: seq<Act>)
    requires c.sharing != ManyCpus && Possible(c, run)
    ensures var s := After(c, run);
            s.zeroing == 0 ==>
              |Since(c, run, X)| == |Since(c, run, Y)| + Between(c, run) +
                                    (if s.handler != Waiting && s.handler.axis == Y then 1 else 0)
  {
    if run != [] {
      SinceLengths(c, run[..|run| - 1]);
    }
  }

  /** With no handler and no ioctl under way, both axes sum over the same packets
      exactly when no packet was stored between the two stores of the last ioctl. */
  lemma SamePacketsIff(c: Config, run: seq<Act>)
    requires c.sharing != ManyCpus && Possible(c, run) && Resting(After(c, run))
    ensures Since(c, run, X) == Since(c, run, Y) <==> Between(c, run) == 0
    ensures IsTail(Since(c, run, Y), Since(c, run, X))
  {
    SinceLengths(c, run);
    StoredAreDecoded(c, run);
    var all, xs, ys := Moves(c, Frames([], BytesOf(run))), Since(c, run, X), Since(c, run, Y);
    assert IsTail(xs, DoneWith(After(c, run), X, all)) && IsTail(ys, DoneWith(After(c, run), Y, all));
    assert xs[|xs| - |ys|..] == all[|all| - |ys|..];
  }

  /** The position is the sum over the latest packets, however many. */
  ghost predicate Joint(c: Config, run: seq<Act>)
    requires Possible(c, run)
  {
    var s := After(c, run);
    exists ms :: IsTail(ms, Moves(c, Frames([], BytesOf(run)))) && s.x == Sum(X, ms) && s.y == Sum(Y, ms)
  }

  lemma {:induction false} NothingBetween(c: Config, run: seq<Act>)
    requires c.sharing == Locked && Possible(c, run)
    ensures Between(c, run) == 0
    ensures After(c, run).zeroing > 0 ==> Since(c, run, X) == [] && After(c, run).handler == Waiting
  {
    if run != [] {
      NothingBetween(c, run[..|run| - 1]);
    }
  }

  const BY_ONE: Frame := [0x40, 0x01, 0x01]

  lemma ByOne()
    ensures MoveOf(BY_ONE) == Move(1, 1)
    ensures Frames([], BY_ONE) == [BY_ONE]
  {
    assert Decode(BY_ONE).dx == 1 && Decode(BY_ONE).dy == 1;
    OnePacket([], BY_ONE);
    assert [] + BY_ONE == BY_ONE && BY_ONE[..NBYTES] == BY_ONE;
  }

  /** A packet comes in between the two stores of an ioctl. */
  lemma Split(c: Config, w: Frame) returns (run: seq<Act>)
    requires c.sharing != Locked && |w| == NBYTES && IsFirst(w[0])
    ensures Possible(c, run) && After(c, run) == State([], c.decode(w).dx, 0, Waiting, 0)
    ensures run == SplitRun(w)
  {
    run := GoAct(c, [], Zero(X));
    run := GoPacket(c, run, w);
    run := GoAdd(c, run, c.decode(w));
    run := GoAct(c, run, Zero(Y));
  }

  function SplitRun(w: Frame): seq<Act>
    requires |w| == NBYTES
  {
    [Zero(X)] + [Byte(w[0]), Byte(w[1]), Byte(w[2])] + [Load, Store, Load, Store] + [Zero(Y)]
  }

  lemma {:induction false} BytesOfConcat(a: seq<Act>, b: seq<Act>)
    ensures BytesOf(a + b) == BytesOf(a) + BytesOf(b)
  {
    if b == [] {
      assert a + b == a;
    } else {
      assert (a + b)[..|a + b| - 1] == a + b[..|b| - 1];
      BytesOfConcat(a, b[..|b| - 1]);
    }
  }

  lemma BytesOfOne(a: Act)
    ensures BytesOf([a]) == Taken(a)
  {
    assert [a][..0] == [];
  }

  lemma {:induction false} BytesOfNone(run: seq<Act>)
    requires forall k :: 0 <= k < |run| ==> !run[k].Byte?
    ensures BytesOf(run) == []
  {
    if run != [] {
      BytesOfNone(run[..|run| - 1]);
    }
  }

  lemma BytesOfThree(w: Frame)
    requires |w| == NBYTES
    ensures BytesOf([Byte(w[0]), Byte(w[1]), Byte(w[2])]) == w
  {
    BytesOfOne(Byte(w[0]));
    BytesOfOne(Byte(w[1]));
    BytesOfOne(Byte(w[2]));
    BytesOfConcat([Byte(w[0])], [Byte(w[1])]);
    BytesOfConcat([Byte(w[0])] + [Byte(w[1])], [Byte(w[2])]);
    assert [Byte(w[0])] + [Byte(w[1])] + [Byte(w[2])] == [Byte(w[0]), Byte(w[1]), Byte(w[2])];
  }

  lemma SplitBytes(w: Frame)
    requires |w| == NBYTES
    ensures BytesOf(SplitRun(w)) == w
  {
    var packet, sums := [Byte(w[0]), Byte(w[1]), Byte(w[2])], [Load, Store, Load, Store];
    BytesOfThree(w);
    BytesOfNone([Zero(X)]);
    BytesOfNone(sums);
    BytesOfNone([Zero(Y)]);
    BytesOfConcat([Zero(X)], packet);
    BytesOfConcat([Zero(X)] + packet, sums);
    BytesOfConcat([Zero(X)] + packet + sums, [Zero(Y)]);
  }

  lemma OnePacketSums(ms: seq<Move>)
    requires IsTail(ms, [Move(1, 1)])
    ensures Sum(X, ms) == Sum(Y, ms)
  {
    if ms != [] {
      assert ms == [Move(1, 1)] && ms[..0] == [];
    }
  }

  /** At rest the position is always the sum over one set of packets, the latest,
      exactly under the lock: without it a packet between the two stores of an ioctl
      counts in xpos and not in ypos. */
  lemma JointIff(sharing: Sharing)
    ensures var c := Serial(sharing);
            (forall run | Possible(c, run) && Resting(After(c, run)) :: Joint(c, run)) <==> sharing == Locked
  {
    var c := Serial(sharing);
    if c.sharing == Locked {
      forall run | Possible(c, run) && Resting(After(c, run)) ensures Joint(c, run) {
        NothingBetween(c, run);
        SamePacketsIff(c, run);
        StoredAreDecoded(c, run);
        AxisIsSumIff(sharing);
        var ms := Since(c, run, X);
        assert IsTail(ms, DoneWith(After(c, run), X, Moves(c, Frames([], BytesOf(run)))));
        assert IsSum(c, run, X) && IsSum(c, run, Y);
      }
    } else {
      ByOne();
      var run := Split(c, BY_ONE);
      SplitBytes(BY_ONE);
      assert Moves(c, Frames([], BytesOf(run))) == [Move(1, 1)];
      forall ms | IsTail(ms, [Move(1, 1)]) ensures Sum(X, ms) == Sum(Y, ms) {
        OnePacketSums(ms);
      }
      assert !Joint(c, run);
    }
  }
}
