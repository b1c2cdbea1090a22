/** What user space gets from mymouse_read of SOLUTIONS/s_21/lab4_serial.c: xpos is
    copied, then ypos, and packets and zeroing ioctls may come in between.  Here they are
    as on one processor: handlers whole, the two stores of an ioctl apart. */
module MouseReading {
  import opened MouseProtocol
  import opened MousePosition
  import opened SerialMouse
  import opened Options
  import opened Runs

  /** One thing that happens between the copies. */
  datatype Item = Arrival(b: bv8) | Zeroing(axis: Axis)

  /** What it changes of the position. */
  datatype Change = Moved(m: Move) | Zeroed(axis: Axis)

  function FrameAfter(f: Frame, items: seq<Item>): Frame {
    if items == [] then f else
    var before := FrameAfter(f, items[..|items| - 1]);
    match items[|items| - 1]
    case Arrival(b) => Step(before, b)
    case Zeroing(_) => before
  }

  /** The operations that an item consists of. */
  function ActsOfOne(f: Frame, item: Item): seq<Act> {
    match item
    case Arrival(b) => Handled(f, b)
    case Zeroing(axis) => [Zero(axis)]
  }

  function ActsOf(f: Frame, items: seq<Item>): seq<Act> {
    if items == [] then [] else
    var before := items[..|items| - 1];
    ActsOf(f, before) + ActsOfOne(FrameAfter(f, before), items[|items| - 1])
  }

  function ChangesOfOne(c: Config, f: Frame, item: Item): (cs: seq<Change>)
    ensures |cs| <= 1
  {
    match item
    case Arrival(b) => if Completed(f, b) == [] then [] else [Moved(c.decode(Completed(f, b)[0]))]
    case Zeroing(axis) => [Zeroed(axis)]
  }

  function ChangesOf(c: Config, f: Frame, items: seq<Item>): seq<Change> {
    if items == [] then [] else
    var before := items[..|items| - 1];
    ChangesOf(c, f, before) + ChangesOfOne(c, FrameAfter(f, before), items[|items| - 1])
  }

  /** One coordinate after these changes. */
  function ValueAfter(axis: Axis, v: int, cs: seq<Change>): int {
    if cs == [] then v else
    var before := ValueAfter(axis, v, cs[..|cs| - 1]);
    match cs[|cs| - 1]
    case Moved(m) => before + Delta(axis, m)
    case Zeroed(a) => if a == axis then 0 else before
  }

  lemma {:induction false} ValueConcat(axis: Axis, v: int, a: seq<Change>, b: seq<Change>)
    ensures ValueAfter(axis, v, a + b) == ValueAfter(axis, ValueAfter(axis, v, a), b)
  {
    if b == [] {
      assert a + b == a;
    } else {
      assert (a + b)[..|a + b| - 1] == a + b[..|b| - 1];
      ValueConcat(axis, v, a, b[..|b| - 1]);
    }
  }

  // ------------------------------------------------- items are runs of the driver

  /** What the driver looks like after these items. */
  ghost predicate LooksLike(c: Config, s: State, items: seq<Item>, t: State) {
    var cs := ChangesOf(c, s.frame, items);
    && t.handler == Waiting && t.frame == FrameAfter(s.frame, items)
    && t.x == ValueAfter(X, s.x, cs) && t.y == ValueAfter(Y, s.y, cs)
  }

  lemma ValueOfOne(axis: Axis, v: int, change: Change)
    ensures ValueAfter(axis, v, [change]) ==
            match change
            case Moved(m) => v + Delta(axis, m)
            case Zeroed(a) => if a == axis then 0 else v
  {
    assert [change][..0] == [];
  }

  lemma ArrivalStep(c: Config, s: State, b: bv8, t: State)
    requires c.sharing != Locked && s.handler == Waiting
    requires Exec(Machine(c), s, Handled(s.frame, b)) == Some(t)
    ensures t.handler == Waiting && t.frame == Step(s.frame, b)
    ensures var more := ChangesOfOne(c, s.frame, Arrival(b));
            t.x == ValueAfter(X, s.x, more) && t.y == ValueAfter(Y, s.y, more)
  {
    HandledRun(c, s, b);
    var ms := Moves(c, Completed(s.frame, b));
    if ms != [] {
      assert ms == [ms[0]];
      SumOne(X, ms[0]);
      SumOne(Y, ms[0]);
      ValueOfOne(X, s.x, Moved(ms[0]));
      ValueOfOne(Y, s.y, Moved(ms[0]));
    }
  }

  lemma ZeroingStep(c: Config, s: State, axis: Axis, t: State)
    requires Exec(Machine(c), s, [Zero(axis)]) == Some(t)
    ensures t.handler == s.handler && t.frame == s.frame
    ensures t.x == ValueAfter(X, s.x, [Zeroed(axis)]) && t.y == ValueAfter(Y, s.y, [Zeroed(axis)])
  {
    assert [Zero(axis)][..0] == [];
    assert Next(c, s, Zero(axis)) == Some(t);
    ValueOfOne(X, s.x, Zeroed(axis));
    ValueOfOne(Y, s.y, Zeroed(axis));
  }

  /** What one item makes of the driver. */
  ghost predicate Effect(c: Config, m: State, item: Item, t: State) {
    var more := ChangesOfOne(c, m.frame, item);
    && t.handler == Waiting && t.frame == (if item.Arrival? then Step(m.frame, item.b) else m.frame)
    && t.x == ValueAfter(X, m.x, more) && t.y == ValueAfter(Y, m.y, more)
  }

  lemma EffectOf(c: Config, m: State, item: Item, t: State)
    requires c.sharing != Locked && m.handler == Waiting
    requires Exec(Machine(c), m, ActsOfOne(m.frame, item)) == Some(t)
    ensures Effect(c, m, item, t)
  {
    match item
    case Arrival(b) => ArrivalStep(c, m, b, t);
    case Zeroing(axis) => ZeroingStep(c, m, axis, t);
  }

  lemma LooksLikeNext(c: Config, s: State, items: seq<Item>, m: State, t: State)
    requires items != [] && LooksLike(c, s, items[..|items| - 1], m) && Effect(c, m, items[|items| - 1], t)
    ensures LooksLike(c, s, items, t)
  {
    var before, item := items[..|items| - 1], items[|items| - 1];
    var cs, more := ChangesOf(c, s.frame, before), ChangesOfOne(c, m.frame, item);
    ValueConcat(X, s.x, cs, more);
    ValueConcat(Y, s.y, cs, more);
  }

  /** Carried out by the driver, the items change the position as ValueAfter says. */
  lemma {:induction false} ItemsRun(c: Config, s: State, items: seq<Item>, t: State)
    requires c.sharing != Locked && s.handler == Waiting
    requires Exec(Machine(c), s, ActsOf(s.frame, items)) == Some(t)
    ensures LooksLike(c, s, items, t)
  {
    if items == [] {
      NoItems(c, s, items, t);
    } else {
      var m := BeforeLast(c, s, items, t);
      ItemsRun(c, s, items[..|items| - 1], m);
      EffectOf(c, m, items[|items| - 1], t);
      LooksLikeNext(c, s, items, m, t);
    }
  }

  lemma NoItems(c: Config, s: State, items: seq<Item>, t: State)
    requires items == [] && s.handler == Waiting && Exec(Machine(c), s, ActsOf(s.frame, items)) == Some(t)
    ensures LooksLike(c, s, items, t)
  {
  }

  lemma BeforeLast(c: Config, s: State, items: seq<Item>, t: State) returns (m: State)
    requires items != [] && Exec(Machine(c), s, ActsOf(s.frame, items)) == Some(t)
    ensures var before := items[..|items| - 1];
            && Exec(Machine(c), s, ActsOf(s.frame, before)) == Some(m)
            && Exec(Machine(c), m, ActsOfOne(FrameAfter(s.frame, before), items[|items| - 1])) == Some(t)
  {
    var before := items[..|items| - 1];
    var last := ActsOfOne(FrameAfter(s.frame, before), items[|items| - 1]);
    ExecPrefix(Machine(c), s, ActsOf(s.frame, before), last);
    m := Exec(Machine(c), s, ActsOf(s.frame, before)).value;
  }

  // ------------------------------------------------------------- moments and cuts

  /** The position at some moment between two items was (x, y). */
  ghost predicate WasPosition(c: Config, s: State, items: seq<Item>, x: int, y: int) {
    exists k: nat :: k <= |items| && PositionAt(c, s, items, k) == (x, y)
  }

  function PositionAt(c: Config, s: State, items: seq<Item>, k: nat): (int, int)
    requires k <= |items|
  {
    var cs := ChangesOf(c, s.frame, items[..k]);
    (ValueAfter(X, s.x, cs), ValueAfter(Y, s.y, cs))
  }

  lemma {:induction false} ChangesConcat(c: Config, f: Frame, a: seq<Item>, b: seq<Item>)
    ensures FrameAfter(f, a + b) == FrameAfter(FrameAfter(f, a), b)
    ensures ChangesOf(c, f, a + b) == ChangesOf(c, f, a) + ChangesOf(c, FrameAfter(f, a), b)
  {
    if b == [] {
      assert a + b == a;
    } else {
      assert (a + b)[..|a + b| - 1] == a + b[..|b| - 1];
      ChangesConcat(c, f, a, b[..|b| - 1]);
    }
  }

  lemma PrefixOfChanges(c: Config, f: Frame, items: seq<Item>, k: nat) returns (j: nat)
    requires k <= |items|
    ensures var cs := ChangesOf(c, f, items);
            j <= |cs| && j == |ChangesOf(c, f, items[..k])| && ChangesOf(c, f, items[..k]) == cs[..j]
  {
    j := |ChangesOf(c, f, items[..k])|;
    ChangesConcat(c, f, items[..k], items[k..]);
    assert items[..k] + items[k..] == items;
  }

  /** Changes come one at a time, so every number of them is met. */
  lemma {:induction false} MomentWith(c: Config, f: Frame, items: seq<Item>, j: nat) returns (k: nat)
    requires j <= |ChangesOf(c, f, items)|
    ensures k <= |items| && |ChangesOf(c, f, items[..k])| == j
  {
    if j == |ChangesOf(c, f, items)| {
      k := |items|;
      assert items[..k] == items;
    } else {
      var before := items[..|items| - 1];
      k := MomentWith(c, f, before, j);
      assert before[..k] == items[..k];
    }
  }

  /** The moves since the axis was last zeroed. */
  function LastMoves(axis: Axis, cs: seq<Change>): seq<Move> {
    if cs == [] then [] else
    var before := cs[..|cs| - 1];
    match cs[|cs| - 1]
    case Moved(m) => LastMoves(axis, before) + [m]
    case Zeroed(a) => if a == axis then [] else LastMoves(axis, before)
  }

  lemma {:induction false} ValueIs(axis: Axis, v: int, cs: seq<Change>)
    ensures ValueAfter(axis, v, cs) == (if Zeroed(axis) in cs then 0 else v) + Sum(axis, LastMoves(axis, cs))
  {
    if cs != [] {
      var before, last := cs[..|cs| - 1], cs[|cs| - 1];
      ValueIs(axis, v, before);
      assert cs == before + [last];
      if last.Moved? {
        SumSnoc(axis, LastMoves(axis, before), last.m);
      }
    }
  }

  /** These changes bring the coordinate back to v: with no zeroing of it among them the
      moves cancel out, and with one those after the last such zeroing add up to v. */
  ghost predicate Still(axis: Axis, v: int, cs: seq<Change>) {
    Sum(axis, LastMoves(axis, cs)) == if Zeroed(axis) in cs then v else 0
  }

  /** The first j changes leave x as it was, and the rest leave y as it is then. */
  ghost predicate Cut(s: State, cs: seq<Change>, j: nat) {
    j <= |cs| && Still(X, s.x, cs[..j]) && Still(Y, ValueAfter(Y, s.y, cs[..j]), cs[j..])
  }

  lemma CutAt(s: State, cs: seq<Change>, j: nat)
    requires j <= |cs|
    ensures Cut(s, cs, j) <==>
            ValueAfter(X, s.x, cs[..j]) == s.x && ValueAfter(Y, s.y, cs[..j]) == ValueAfter(Y, s.y, cs)
  {
    assert cs[..j] + cs[j..] == cs;
    ValueConcat(Y, s.y, cs[..j], cs[j..]);
    ValueIs(X, s.x, cs[..j]);
    ValueIs(Y, ValueAfter(Y, s.y, cs[..j]), cs[j..]);
  }

  /** A read copies x, these items happen, and then it copies y.  What user space gets was
      the position at some moment exactly if the changes can be cut in two so that the
      first part brings x back to what was copied and the rest leaves y alone. */
  lemma PairIsPositionIff(c: Config, s: State, items: seq<Item>)
    ensures var cs := ChangesOf(c, s.frame, items);
            WasPosition(c, s, items, s.x, ValueAfter(Y, s.y, cs)) <==> exists j: nat :: Cut(s, cs, j)
  {
    var cs := ChangesOf(c, s.frame, items);
    var y := ValueAfter(Y, s.y, cs);
    forall k: nat | k <= |items| && PositionAt(c, s, items, k) == (s.x, y) ensures exists j: nat :: Cut(s, cs, j) {
      var j := PrefixOfChanges(c, s.frame, items, k);
      CutAt(s, cs, j);
    }
    forall j: nat | Cut(s, cs, j) ensures WasPosition(c, s, items, s.x, y) {
      var k := MomentWith(c, s.frame, items, j);
      var i := PrefixOfChanges(c, s.frame, items, k);
      CutAt(s, cs, j);
      assert PositionAt(c, s, items, k) == (s.x, y);
    }
  }

  /** A pair that is read across one change was a position, unless that is a packet that
      moves both axes. */
  lemma OneChangeBetween(c: Config, s: State, items: seq<Item>)
    requires |ChangesOf(c, s.frame, items)| == 1
    ensures var cs := ChangesOf(c, s.frame, items);
            WasPosition(c, s, items, s.x, ValueAfter(Y, s.y, cs)) <==>
            cs[0].Zeroed? || cs[0].m.dx == 0 || cs[0].m.dy == 0
  {
    var cs := ChangesOf(c, s.frame, items);
    PairIsPositionIff(c, s, items);
    CutAt(s, cs, 0);
    CutAt(s, cs, 1);
    assert cs[..0] == [] && cs[..1] == cs;
  }

  /** x and y across a whole ioctl, after each number of its stores. */
  lemma IoctlValues(x: int, y: int)
    ensures var cs := [Zeroed(X), Zeroed(Y)];
            && ValueAfter(X, x, cs[..0]) == x && ValueAfter(Y, y, cs[..0]) == y
            && ValueAfter(X, x, cs[..1]) == 0 && ValueAfter(Y, y, cs[..1]) == y
            && ValueAfter(X, x, cs[..2]) == 0 && ValueAfter(Y, y, cs) == ValueAfter(Y, y, cs[..2]) == 0
  {
    var cs := [Zeroed(X), Zeroed(Y)];
    assert cs[..0] == [] && cs[..1][..0] == [] && cs[..2] == cs && cs[..2][..1] == cs[..1];
  }

  /** A pair read across a whole ioctl was a position only if one coordinate was zero
      already. */
  lemma IoctlBetween(c: Config, s: State, items: seq<Item>)
    requires ChangesOf(c, s.frame, items) == [Zeroed(X), Zeroed(Y)]
    ensures WasPosition(c, s, items, s.x, 0) <==> s.x == 0 || s.y == 0
  {
    var cs := [Zeroed(X), Zeroed(Y)];
    IoctlValues(s.x, s.y);
    PairIsPositionIff(c, s, items);
    CutAt(s, cs, 0);
    CutAt(s, cs, 2);
    forall j: nat | Cut(s, cs, j) ensures s.x == 0 || s.y == 0 {
      CutAt(s, cs, j);
      assert j == 0 || j == 1 || j == 2;
    }
  }
}
