/** SOLUTIONS/s_20/lab4_all_workqueue.c: all lines share one work item and one slot
    that remembers the interrupt number.  The work item is queued at most once and
    does not overlap itself.  The lines are claimed as in lab_all_interrupt.h. */
module SharedSlot {
  import opened Options
  import opened Runs
  import L = IrqLines

  /** The worker: idle, about to read the slot, or about to add to bhs[irq]. */
  datatype Worker = Idle | Reading | Adding(irq: nat)

  /** `named[i]`: top halves of line i that have stored i in the slot and not yet
      counted; `counted[i]`: counted and not yet scheduled the work. */
  datatype State = State(
    slot: nat, lines: seq<L.Line>, bhs: seq<int>,
    named: seq<nat>, counted: seq<nat>, queued: bool, worker: Worker)

  datatype Step =
    | Register(irq: nat, act: L.Act)
    | Name(irq: nat) | CountTop(irq: nat) | Schedule(irq: nat) | Start | Read | Add

  function Init(n: nat): State {
    State(0, seq(n, _ => L.FRESH), seq(n, _ => 0), seq(n, _ => 0), seq(n, _ => 0), false, Idle)
  }

  ghost predicate Sized(n: nat, s: State) {
    |s.lines| == |s.bhs| == |s.named| == |s.counted| == n
  }

  function Next(s: State, a: Step): Option<State> {
    match a
    case Register(i, act) =>
      if i >= |s.lines| || act == L.CountTop then None else
      (match L.Next(s.lines[i], act)
       case None => None
       case Some(l) => Some(s.(lines := s.lines[i := l])))
    case Name(i) =>
      if i >= |s.named| || i >= |s.lines| || s.lines[i].phase !in {L.Window, L.Live} then None else
      Some(s.(slot := i, named := s.named[i := s.named[i] + 1]))
    case CountTop(i) =>
      if i >= |s.named| || i >= |s.counted| || i >= |s.lines| || s.named[i] == 0 then None else
      (match L.Next(s.lines[i], L.CountTop)
       case None => None
       case Some(l) => Some(s.(lines := s.lines[i := l],
                               named := s.named[i := s.named[i] - 1],
                               counted := s.counted[i := s.counted[i] + 1])))
    case Schedule(i) =>
      if i >= |s.counted| || s.counted[i] == 0 then None else
      Some(s.(counted := s.counted[i := s.counted[i] - 1], queued := true))
    case Start =>
      if s.queued && s.worker == Idle then Some(s.(queued := false, worker := Reading)) else None
    case Read =>
      if s.worker == Reading then Some(s.(worker := Adding(s.slot))) else None
    case Add =>
      if !s.worker.Adding? || s.worker.irq >= |s.bhs| then None else
      Some(s.(bhs := s.bhs[s.worker.irq := s.bhs[s.worker.irq] + 1], worker := Idle))
  }

  function Machine(): (State, Step) -> Option<State> {
    (s, a) => Next(s, a)
  }

  ghost predicate Reachable(n: nat, s: State) {
    Reaches(Machine(), Init(n), s)
  }

  function Sum(xs: seq<int>): int {
    if xs == [] then 0 else Sum(xs[..|xs| - 1]) + xs[|xs| - 1]
  }

  lemma {:induction false} SumAfter(xs: seq<int>, i: nat, x: int)
    requires i < |xs|
    ensures Sum(xs[i := x]) == Sum(xs) - xs[i] + x
  {
    var k := |xs| - 1;
    if i < k {
      assert xs[i := x][..k] == xs[..k][i := x];
      SumAfter(xs[..k], i, x);
    } else {
      assert xs[i := x][..k] == xs[..k];
    }
  }

  lemma {:induction false} SumOfZeros(n: nat)
    ensures Sum(seq(n, _ => 0)) == 0
  {
    if n > 0 {
      assert seq(n, _ => 0)[..n - 1] == seq(n - 1, _ => 0);
      SumOfZeros(n - 1);
    }
  }

  /** What each line has really seen. */
  function Arrivals(lines: seq<L.Line>): seq<int> {
    seq(|lines|, i requires 0 <= i < |lines| => L.Arrived(lines[i]))
  }

  /** Each pass of the worker is paid for by a counted interrupt. */
  ghost predicate Inv(n: nat, s: State) {
    && Sized(n, s)
    && (forall i :: 0 <= i < n ==> L.Sound(s.lines[i]))
    && Sum(s.bhs) + (if s.queued then 1 else 0) + (if s.worker == Idle then 0 else 1) + Sum(s.counted)
       <= Sum(Arrivals(s.lines))
  }

  lemma LineAfter(lines: seq<L.Line>, i: nat, act: L.Act)
    requires i < |lines| && L.Sound(lines[i]) && L.Next(lines[i], act).Some?
    ensures var l := L.Next(lines[i], act).value;
            && L.Sound(l)
            && Sum(Arrivals(lines[i := l])) == Sum(Arrivals(lines)) + (if act == L.CountTop then 1 else 0)
  {
    L.SoundNext(lines[i], act);
    var l := L.Next(lines[i], act).value;
    assert Arrivals(lines[i := l]) == Arrivals(lines)[i := L.Arrived(l)];
    SumAfter(Arrivals(lines), i, L.Arrived(l));
  }

  lemma CountNext(n: nat, s: State, i: nat)
    requires Inv(n, s) && Next(s, CountTop(i)).Some?
    ensures Inv(n, Next(s, CountTop(i)).value)
  {
    LineAfter(s.lines, i, L.CountTop);
    SumAfter(s.counted, i, s.counted[i] + 1);
  }

  lemma InvNext(n: nat, s: State, a: Step)
    requires Inv(n, s) && Next(s, a).Some?
    ensures Inv(n, Next(s, a).value)
  {
    match a
    case Register(i, act) =>
      LineAfter(s.lines, i, act);
    case CountTop(i) =>
      CountNext(n, s, i);
    case Schedule(i) =>
      SumAfter(s.counted, i, s.counted[i] - 1);
    case Add =>
      SumAfter(s.bhs, s.worker.irq, s.bhs[s.worker.irq] + 1);
    case _ =>
  }

  lemma {:induction false} InvRun(n: nat, run: seq<Step>)
    requires Exec(Machine(), Init(n), run).Some?
    ensures Inv(n, Exec(Machine(), Init(n), run).value)
  {
    if run == [] {
      SumOfZeros(n);
      assert Arrivals(Init(n).lines) == seq(n, _ => 0);
    } else {
      var k := |run| - 1;
      InvRun(n, run[..k]);
      InvNext(n, Exec(Machine(), Init(n), run[..k]).value, run[k]);
    }
  }

  lemma {:induction false} NonNegativeSum(xs: seq<nat>)
    ensures Sum(xs) >= 0
  {
    if xs != [] {
      NonNegativeSum(xs[..|xs| - 1]);
    }
  }

  /** What coalescing keeps: over all lines together no bottom half is invented, with
      registration going on and interrupts coming in from the first grant. */
  lemma TotalNeverAhead(n: nat, s: State)
    requires Reachable(n, s)
    ensures Sized(n, s)
    ensures Sum(s.bhs) + (if s.queued then 1 else 0) <= Sum(Arrivals(s.lines))
  {
    var run :| Exec(Machine(), Init(n), run) == Some(s);
    InvRun(n, run);
    NonNegativeSum(s.counted);
  }

  ghost predicate Quiescent(s: State) {
    && !s.queued && s.worker == Idle
    && (forall l <- s.lines :: l.phase in {L.Refused, L.Live})
    && (forall i :: 0 <= i < |s.named| ==> s.named[i] == 0)
    && (forall i :: 0 <= i < |s.counted| ==> s.counted[i] == 0)
  }

  lemma Go(n: nat, s: State, a: Step) returns (t: State)
    requires Reachable(n, s) && Next(s, a).Some?
    ensures Reachable(n, t) && Next(s, a) == Some(t)
  {
    ReachesNext(Machine(), Init(n), s, a);
    t := Next(s, a).value;
  }

  const QUIET_LINE := L.Line(0, L.Live, 0)

  /** The first k lines are granted and reset before any interrupt comes. */
  lemma {:induction false} Registered(n: nat, k: nat) returns (s: State)
    requires k <= n
    ensures Reachable(n, s)
    ensures s == Init(n).(lines := seq(n, i => if i < k then QUIET_LINE else L.FRESH))
  {
    if k == 0 {
      ReachesItself(Machine(), Init(n));
      s := Init(n);
    } else {
      s := Registered(n, k - 1);
      s := Go(n, s, Register(k - 1, L.Grant));
      s := Go(n, s, Register(k - 1, L.Reset));
    }
  }

  /** A line with one more interrupt. */
  function OneMore(l: L.Line): L.Line {
    l.(interrupts := l.interrupts + 1)
  }

  lemma GoTop(n: nat, s: State, i: nat) returns (t: State)
    requires Reachable(n, s) && Sized(n, s) && i < n && s.named[i] > 0
    requires s.lines[i].phase in {L.Window, L.Live}
    ensures Reachable(n, t)
    ensures t == s.(lines := s.lines[i := OneMore(s.lines[i])],
                    named := s.named[i := s.named[i] - 1], counted := s.counted[i := s.counted[i] + 1])
  {
    t := Go(n, s, CountTop(i));
  }

  lemma GoSchedule(n: nat, s: State, i: nat) returns (t: State)
    requires Reachable(n, s) && Sized(n, s) && i < n && s.counted[i] > 0
    ensures Reachable(n, t) && t == s.(counted := s.counted[i := s.counted[i] - 1], queued := true)
  {
    t := Go(n, s, Schedule(i));
  }

  /** A top half of line i, from any state, up to the scheduling of the work. */
  lemma GoCount(n: nat, s: State, i: nat) returns (t: State)
    requires Reachable(n, s) && Sized(n, s) && i < n && s.named[i] > 0
    requires s.lines[i].phase in {L.Window, L.Live}
    ensures Reachable(n, t)
    ensures t == s.(lines := s.lines[i := OneMore(s.lines[i])],
                    named := s.named[i := s.named[i] - 1], queued := true)
  {
    t := GoTop(n, s, i);
    t := GoSchedule(n, t, i);
    assert t.counted == s.counted;
  }

  /** One pass of the worker, charged to whatever line the slot names. */
  lemma GoWork(n: nat, s: State) returns (t: State)
    requires Reachable(n, s) && Sized(n, s) && s.queued && s.worker == Idle && s.slot < n
    ensures Reachable(n, t)
    ensures t == s.(queued := false, bhs := s.bhs[s.slot := s.bhs[s.slot] + 1])
  {
    t := Go(n, s, Start);
    t := Go(n, t, Read);
    t := Go(n, t, Add);
  }

  /** With two lines the slot is overwritten between the two halves of an event, and
      the wrong line is credited; the error is still there when all is quiet. */
  lemma Misattribution(n: nat) returns (s: State)
    requires n >= 2
    ensures Reachable(n, s) && Sized(n, s) && Quiescent(s)
    ensures s.bhs[1] == 2 && s.lines[1] == L.Line(1, L.Live, 0)
    ensures s.bhs[0] == 0 && s.lines[0] == L.Line(1, L.Live, 0)
    ensures forall l <- s.lines :: l.phase == L.Live && l.wiped == 0
  {
    s := Registered(n, n);
    s := Go(n, s, Name(0));
    s := GoCount(n, s, 0);
    s := Go(n, s, Name(1));
    s := GoWork(n, s);
    s := GoCount(n, s, 1);
    s := GoWork(n, s);
  }

  /** No line is ever credited with more than it received exactly when there is at
      most one line to share the slot. */
  lemma AttributionIff(n: nat)
    ensures (forall s, i: nat | Reachable(n, s) && i < n && i < |s.bhs| && i < |s.lines| ::
               s.bhs[i] <= L.Arrived(s.lines[i])) <==> n <= 1
  {
    if n <= 1 {
      forall s, i: nat | Reachable(n, s) && i < n && i < |s.bhs| && i < |s.lines|
        ensures s.bhs[i] <= L.Arrived(s.lines[i])
      {
        TotalNeverAhead(n, s);
        assert n == 1 && s.bhs[..0] == [] && Arrivals(s.lines)[..0] == [];
      }
    } else {
      var s := Misattribution(n);
      assert !(s.bhs[1] <= L.Arrived(s.lines[1]));
    }
  }

  // ------------------------------------------------------- what the driver prints

  /** The line that a step changes, and what happens to it. */
  function Concerns(a: Step, i: nat): Option<L.Act> {
    match a
    case Register(j, act) => if j == i then Some(act) else None
    case CountTop(j) => if j == i then Some(L.CountTop) else None
    case _ => None
  }

  /** What happened to line i in the run: its registration and its interrupts. */
  function LineActs(run: seq<Step>, i: nat): seq<L.Act> {
    if run == [] then [] else
    var rest := LineActs(run[..|run| - 1], i);
    match Concerns(run[|run| - 1], i)
    case None => rest
    case Some(act) => rest + [act]
  }

  lemma LineStep(s: State, a: Step, i: nat)
    requires Next(s, a).Some? && i < |s.lines|
    ensures var t := Next(s, a).value;
            && |t.lines| == |s.lines|
            && (match Concerns(a, i)
                case None => t.lines[i] == s.lines[i]
                case Some(act) => L.Next(s.lines[i], act) == Some(t.lines[i]))
  {
  }

  lemma {:induction false} LineHistory(n: nat, run: seq<Step>, i: nat)
    requires i < n && Exec(Machine(), Init(n), run).Some?
    ensures var s := Exec(Machine(), Init(n), run).value;
            |s.lines| == n && Exec(L.Machine(), L.FRESH, LineActs(run, i)) == Some(s.lines[i])
  {
    if run != [] {
      var before, a := run[..|run| - 1], run[|run| - 1];
      LineHistory(n, before, i);
      LineStep(Exec(Machine(), Init(n), before).value, a, i);
      var act := Concerns(a, i);
      if act.Some? {
        ExecSnoc(L.Machine(), L.FRESH, LineActs(before, i), act.value);
      }
    }
  }

  /** The interrupts of line i counted between its grant and its reset. */
  function Early(run: seq<Step>, i: nat): nat {
    L.Early(LineActs(run, i))
  }

  /** The counter of a line as the driver prints it; a line that is flagged -1, or whose
      reset is still to come, does not count yet. */
  function Shown(l: L.Line): int {
    if l.phase == L.Live then l.interrupts else 0
  }

  lemma ShownAndEarly(n: nat, run: seq<Step>, i: nat)
    requires i < n && Exec(Machine(), Init(n), run).Some?
    ensures var s := Exec(Machine(), Init(n), run).value;
            i < |s.lines| && L.Arrived(s.lines[i]) == Shown(s.lines[i]) + Early(run, i)
  {
    LineHistory(n, run, i);
    L.History(LineActs(run, i));
  }

  lemma {:induction false} SumAdds(xs: seq<int>, ys: seq<int>, zs: seq<int>)
    requires |xs| == |ys| == |zs| && forall k :: 0 <= k < |xs| ==> xs[k] == ys[k] + zs[k]
    ensures Sum(xs) == Sum(ys) + Sum(zs)
  {
    if xs != [] {
      var k := |xs| - 1;
      SumAdds(xs[..k], ys[..k], zs[..k]);
    }
  }

  function ShownOn(lines: seq<L.Line>): seq<int> {
    seq(|lines|, i requires 0 <= i < |lines| => Shown(lines[i]))
  }

  function EarlyOn(n: nat, run: seq<Step>): seq<int> {
    seq(n, i requires 0 <= i < n => Early(run, i))
  }

  /** In every run the bottom halves and the pending work are covered by the counters
      that are printed and the interrupts that registration wiped from them. */
  lemma TotalAgainstReport(n: nat, run: seq<Step>)
    requires Exec(Machine(), Init(n), run).Some?
    ensures var s := Exec(Machine(), Init(n), run).value;
            && |s.lines| == n
            && Sum(s.bhs) + (if s.queued then 1 else 0) <= Sum(ShownOn(s.lines)) + Sum(EarlyOn(n, run))
  {
    var s := Exec(Machine(), Init(n), run).value;
    assert Reachable(n, s);
    TotalNeverAhead(n, s);
    forall i: nat | i < n ensures Arrivals(s.lines)[i] == ShownOn(s.lines)[i] + EarlyOn(n, run)[i] {
      ShownAndEarly(n, run, i);
    }
    SumAdds(Arrivals(s.lines), ShownOn(s.lines), EarlyOn(n, run));
  }

  /** Line i is credited with no more than is printed for it. */
  ghost predicate Honest(n: nat, run: seq<Step>, i: nat)
    requires i < n && Exec(Machine(), Init(n), run).Some?
  {
    var s := Exec(Machine(), Init(n), run).value;
    i < |s.bhs| && i < |s.lines| && (s.lines[i].phase == L.Live ==> s.bhs[i] <= s.lines[i].interrupts)
  }

  ghost predicate NothingEarly(n: nat, run: seq<Step>) {
    forall j: nat | j < n :: Early(run, j) == 0
  }

  /** With two lines the slot alone is enough to make one of them dishonest. */
  lemma SlotAlone(n: nat) returns (run: seq<Step>)
    requires n >= 2
    ensures Exec(Machine(), Init(n), run).Some? && NothingEarly(n, run) && !Honest(n, run, 1)
  {
    var s := Misattribution(n);
    run :| Exec(Machine(), Init(n), run) == Some(s);
    forall j: nat | j < n ensures Early(run, j) == 0 {
      LineHistory(n, run, j);
      L.History(LineActs(run, j));
      assert s.lines[j] in s.lines;
    }
  }

  /** The two causes apart.  In the runs that wipe nothing, no line is credited with more
      than is printed for it exactly when there is at most one line: that is the slot. */
  lemma SlotIff(n: nat)
    ensures (forall run, i: nat | i < n && Exec(Machine(), Init(n), run).Some? && NothingEarly(n, run) ::
               Honest(n, run, i)) <==> n <= 1
  {
    if n <= 1 {
      forall run, i: nat | i < n && Exec(Machine(), Init(n), run).Some? && NothingEarly(n, run)
        ensures Honest(n, run, i)
      {
        OneLine(n, run, i);
      }
    } else {
      var run := SlotAlone(n);
    }
  }

  /** And with one line it is only the reset: the line can be ahead of what is printed by
      the interrupts that were wiped, and by no more. */
  lemma OneLine(n: nat, run: seq<Step>, i: nat)
    requires n <= 1 && i < n && Exec(Machine(), Init(n), run).Some?
    ensures var s := Exec(Machine(), Init(n), run).value;
            i < |s.bhs| && i < |s.lines| && s.bhs[i] <= Shown(s.lines[i]) + Early(run, i)
  {
    var s := Exec(Machine(), Init(n), run).value;
    assert Reachable(n, s);
    AttributionIff(n);
    TotalNeverAhead(n, s);
    ShownAndEarly(n, run, i);
  }

  /** The bound is met: one line, one interrupt between its grant and its reset. */
  lemma EarlyInterrupt(n: nat) returns (run: seq<Step>)
    requires n >= 1
    ensures Exec(Machine(), Init(n), run).Some? && Early(run, 0) == 1 && !Honest(n, run, 0)
  {
    ReachesItself(Machine(), Init(n));
    var s := Go(n, Init(n), Register(0, L.Grant));
    s := Go(n, s, Name(0));
    s := GoCount(n, s, 0);
    s := GoWork(n, s);
    s := Go(n, s, Register(0, L.Reset));
    run :| Exec(Machine(), Init(n), run) == Some(s);
    LineHistory(n, run, 0);
    L.History(LineActs(run, 0));
  }
}
