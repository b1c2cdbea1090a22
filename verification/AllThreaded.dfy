/** SOLUTIONS/s_20/lab6_all_threaded.c: the unguarded drain of lab6_one_threaded.c
    for every interrupt line at once, over the counter arrays of
    lab_all_interrupt.h. */
module AllThreaded {
  import opened Options
  import opened Runs
  import D = DeferredDrain
  import L = IrqLines

  /** Line i: the registration and reported counter, and the drain behind it, whose
      counter_th is what the line has really seen. */
  datatype Slot = Slot(line: L.Line, drain: D.State)

  type State = seq<Slot>

  datatype Step = Register(irq: nat, act: L.Act) | Work(irq: nat, step: D.Step)

  const ONE := D.ONE_THREADED

  function Init(n: nat): State {
    seq(n, _ => Slot(L.FRESH, D.Init()))
  }

  /** What a step of the drain does to the line: the first increment of the top half
      is the increment of interrupts[irq]. */
  function SlotNext(slot: Slot, step: D.Step): Option<Slot> {
    match D.Next(ONE, slot.drain, step)
    case None => None
    case Some(d) =>
      if step != D.TopFirst then Some(slot.(drain := d)) else
      match L.Next(slot.line, L.CountTop)
      case None => None
      case Some(l) => Some(Slot(l, d))
  }

  function Next(s: State, a: Step): Option<State> {
    if a.irq >= |s| then None else
    match a
    case Register(i, act) =>
      if act == L.CountTop then None else
      (match L.Next(s[i].line, act)
       case None => None
       case Some(l) => Some(s[i := s[i].(line := l)]))
    case Work(i, step) =>
      (match SlotNext(s[i], step)
       case None => None
       case Some(slot) => Some(s[i := slot]))
  }

  function Machine(): (State, Step) -> Option<State> {
    (s, a) => Next(s, a)
  }

  /** The steps of the drain of line i, in their order in the run. */
  function Project(run: seq<Step>, i: nat): seq<D.Step> {
    if run == [] then [] else
    var rest := Project(run[..|run| - 1], i);
    match run[|run| - 1]
    case Work(j, step) => if i == j then rest + [step] else rest
    case Register(_, _) => rest
  }

  /** A run of the one-line driver leads to this slot, and its line is sound. */
  ghost predicate RunsTo(steps: seq<D.Step>, slot: Slot) {
    && Exec(D.Machine(ONE), D.Init(), steps) == Some(slot.drain)
    && L.Sound(slot.line) && L.Arrived(slot.line) == slot.drain.th
  }

  /** Lines do not disturb each other: every run over all lines, seen from line i, is
      a run of the one-line driver, and the registration of the line is sound. */
  lemma {:induction false} EachLineIsOneDriver(n: nat, run: seq<Step>, i: nat)
    requires i < n && Exec(Machine(), Init(n), run).Some?
    ensures var s := Exec(Machine(), Init(n), run).value;
            |s| == n && RunsTo(Project(run, i), s[i])
  {
    if run != [] {
      var before, a := run[..|run| - 1], run[|run| - 1];
      EachLineIsOneDriver(n, before, i);
      StepRunsTo(Exec(Machine(), Init(n), before).value, a, Exec(Machine(), Init(n), run).value, i,
                 Project(before, i), Project(run, i));
    }
  }

  lemma StepRunsTo(s: State, a: Step, t: State, i: nat, steps: seq<D.Step>, steps': seq<D.Step>)
    requires i < |s| && Next(s, a) == Some(t) && RunsTo(steps, s[i])
    requires steps' == if a.Work? && a.irq == i then steps + [a.step] else steps
    ensures |t| == |s| && RunsTo(steps', t[i])
  {
    SlotStep(s, a, t, i);
    if a.Work? && a.irq == i {
      Extend(D.Machine(ONE), D.Init(), steps, s[i].drain, a.step, t[i].drain);
    }
  }

  lemma SlotStep(s: State, a: Step, t: State, i: nat)
    requires i < |s| && Next(s, a) == Some(t)
    requires L.Sound(s[i].line) && L.Arrived(s[i].line) == s[i].drain.th
    ensures |t| == |s|
    ensures if a.Work? && a.irq == i then D.Next(ONE, s[i].drain, a.step) == Some(t[i].drain)
            else t[i].drain == s[i].drain
    ensures L.Sound(t[i].line) && L.Arrived(t[i].line) == t[i].drain.th
  {
  }

  /** What happened to line i in the run: its registration and its interrupts. */
  function LineActs(run: seq<Step>, i: nat): seq<L.Act> {
    if run == [] then [] else
    var rest := LineActs(run[..|run| - 1], i);
    match run[|run| - 1]
    case Work(j, step) => if i == j && step == D.TopFirst then rest + [L.CountTop] else rest
    case Register(j, act) => if i == j then rest + [act] else rest
  }

  lemma {:induction false} LineHistory(n: nat, run: seq<Step>, i: nat)
    requires i < n && Exec(Machine(), Init(n), run).Some?
    ensures var s := Exec(Machine(), Init(n), run).value;
            |s| == n && Exec(L.Machine(), L.FRESH, LineActs(run, i)) == Some(s[i].line)
  {
    if run != [] {
      var before, a := run[..|run| - 1], run[|run| - 1];
      LineHistory(n, before, i);
      var s := Exec(Machine(), Init(n), before).value;
      LineStep(s, a, i);
      var act := if a.Register? then a.act else L.CountTop;
      ExecSnoc(L.Machine(), L.FRESH, LineActs(before, i), act);
    }
  }

  lemma LineStep(s: State, a: Step, i: nat)
    requires i < |s| && Next(s, a).Some?
    ensures var t := Next(s, a).value;
            && |t| == |s|
            && (if a.Register? && a.irq == i then L.Next(s[i].line, a.act) == Some(t[i].line)
                else if a.Work? && a.irq == i && a.step == D.TopFirst
                then L.Next(s[i].line, L.CountTop) == Some(t[i].line)
                else t[i].line == s[i].line)
  {
  }

  /** When line i is at rest the driver reports bhs[i] == interrupts[i] exactly when
      no interrupt was counted between its grant and its reset in the run; otherwise
      the two differ by the number of those, and never meet again. */
  lemma AtRestAgreesIff(n: nat, run: seq<Step>, i: nat)
    requires i < n && Exec(Machine(), Init(n), run).Some?
    requires var s := Exec(Machine(), Init(n), run).value;
             i < |s| && s[i].line.phase == L.Live && D.Quiescent(s[i].drain)
    ensures var s := Exec(Machine(), Init(n), run).value;
            && s[i].drain.bh == s[i].line.interrupts + L.Early(LineActs(run, i))
            && (s[i].drain.bh == s[i].line.interrupts <==> L.Early(LineActs(run, i)) == 0)
  {
    EachLineIsOneDriver(n, run, i);
    var s := Exec(Machine(), Init(n), run).value;
    assert D.Reachable(ONE, s[i].drain);
    D.NoEventLostAtRest(ONE, s[i].drain);
    LineHistory(n, run, i);
    L.History(LineActs(run, i));
  }
}
