/** Handlers whose deferred work is done by a kernel thread asleep on a wait queue:

    - 20_LAB3_kthread_smart/Nirq.c                 COUNT_THREAD: sleeps on the event count
    - SOLUTIONS/s_20/lab3_one_thread_improved.c    FLAG_THREAD: clears `cond`, sleeps on it

    wait_event tests its condition after queueing itself, so the test and the
    going to sleep are one step against wake-ups; waking a thread that is not
    asleep does nothing.  A signal may end the wait at any time. */
module ThreadDrain {
  import opened Options
  import opened Runs
  import D = DeferredDrain

  datatype Config = Config(order: D.Order, onFlag: bool, tallies: bool)

  const COUNT_THREAD := Config(D.CountFirst, false, false)
  const FLAG_THREAD := Config(D.EventFirst, true, true)

  datatype Pc = AtClear | AtTest | Asleep | Woken | AtGuard | AtInc | AtDec | AtTally | AtLoop | Exited

  /** `half`: top halves past their first increment; `counted`: past both;
      `announced`: past setting `cond`, about to wake the thread. */
  datatype State = State(
    th: int, bh: int, nevents: int, catchup: int, drains: nat,
    cond: bool, stop: bool, half: nat, counted: nat, announced: nat, pc: Pc)

  datatype Step =
    | TopFirst | TopSecond | TopAnnounce | TopWake
    | Clear | Test | LeaveWait | Guard | IncBh | Dec | Tally | Loop
    | Signal | Stop

  function Init(c: Config): State {
    State(0, 0, 0, 0, 0, c.onFlag, false, 0, 0, 0, Top(c))
  }

  /** Where the body of the outer loop begins. */
  function Top(c: Config): Pc {
    if c.onFlag then AtClear else AtTest
  }

  predicate Passing(c: Config, s: State) {
    s.stop || (if c.onFlag then s.cond else s.nevents != 0)
  }

  function Wake(s: State): State {
    if s.pc == Asleep then s.(pc := AtTest) else s
  }

  function Next(c: Config, s: State, a: Step): Option<State> {
    match a
    case TopFirst =>
      var s' := if c.order.CountFirst? then s.(th := s.th + 1) else s.(nevents := s.nevents + 1);
      Some(s'.(half := s.half + 1))
    case TopSecond =>
      if s.half == 0 then None else
      var s' := if c.order.CountFirst? then s.(nevents := s.nevents + 1) else s.(th := s.th + 1);
      Some(s'.(half := s.half - 1, counted := s.counted + 1))
    case TopAnnounce =>
      if s.counted == 0 || !c.onFlag then None else
      Some(s.(cond := true, counted := s.counted - 1, announced := s.announced + 1))
    case TopWake =>
      if c.onFlag then
        if s.announced == 0 then None else Some(Wake(s.(announced := s.announced - 1)))
      else
        if s.counted == 0 then None else Some(Wake(s.(counted := s.counted - 1)))
    case Clear =>
      if s.pc != AtClear then None else Some(s.(cond := false, pc := AtTest))
    case Test =>
      if s.pc != AtTest then None else Some(s.(pc := if Passing(c, s) then Woken else Asleep))
    case LeaveWait =>
      if s.pc != Woken then None else Some(s.(pc := if s.stop then Exited else AtGuard))
    case Guard =>
      if s.pc != AtGuard then None else Some(s.(pc := if s.nevents <= 0 then AtLoop else AtInc))
    case IncBh =>
      if s.pc != AtInc then None else Some(s.(bh := s.bh + 1, pc := AtDec))
    case Dec =>
      if s.pc != AtDec then None else
      var s' := s.(nevents := s.nevents - 1);
      if s'.nevents == 0 then Some(s'.(pc := AtLoop, drains := s.drains + 1))
      else Some(s'.(pc := if c.tallies then AtTally else AtInc))
    case Tally =>
      if s.pc != AtTally then None else Some(s.(catchup := s.catchup + 1, pc := AtInc))
    case Loop =>
      if s.pc != AtLoop then None else Some(s.(pc := if s.stop then Exited else Top(c)))
    case Signal =>
      if s.pc != Asleep then None else Some(s.(pc := Woken))
    case Stop =>
      Some(Wake(s.(stop := true)))
  }

  function Machine(c: Config): (State, Step) -> Option<State> {
    (s, a) => Next(c, s, a)
  }

  ghost predicate Reachable(c: Config, s: State) {
    Reaches(Machine(c), Init(c), s)
  }

  lemma Go(c: Config, s: State, a: Step) returns (t: State)
    requires Reachable(c, s) && Next(c, s, a).Some?
    ensures Reachable(c, t) && Next(c, s, a) == Some(t)
  {
    ReachesNext(Machine(c), Init(c), s, a);
    t := Next(c, s, a).value;
  }

  // ---------------------------------------------------------------- invariants

  ghost predicate Conserved(c: Config, s: State) {
    var skew := if c.order.CountFirst? then s.half as int else 0 - s.half;
    s.th - skew == s.bh + s.nevents - (if s.pc == AtDec then 1 else 0)
  }

  ghost predicate Bounded(c: Config, s: State) {
    && s.nevents >= 0
    && (s.pc in {AtInc, AtDec, AtTally} ==> s.nevents >= 1)
    && (s.pc == AtTally ==> c.tallies)
    && (s.pc == AtClear ==> c.onFlag)
    && (s.announced > 0 ==> c.onFlag)
    && (s.pc == Asleep ==> !s.stop)
    && (c.tallies ==> s.bh == s.catchup + s.drains + (if s.pc in {AtDec, AtTally} then 1 else 0))
  }

  /** While the condition it sleeps on holds, a wake-up is on its way. */
  ghost predicate WakePending(c: Config, s: State) {
    s.pc == Asleep && Passing(c, s) ==>
      if c.onFlag then s.announced > 0
      else s.counted > 0 || (c.order.EventFirst? && s.half > 0)
  }

  ghost predicate Inv(c: Config, s: State) {
    Conserved(c, s) && Bounded(c, s) && WakePending(c, s)
  }

  lemma ConservedNext(c: Config, s: State, a: Step)
    requires Conserved(c, s) && Next(c, s, a).Some?
    ensures Conserved(c, Next(c, s, a).value)
  {
  }

  lemma BoundedNext(c: Config, s: State, a: Step)
    requires Bounded(c, s) && Next(c, s, a).Some?
    ensures Bounded(c, Next(c, s, a).value)
  {
  }

  lemma WakePendingNext(c: Config, s: State, a: Step)
    requires Bounded(c, s) && WakePending(c, s) && Next(c, s, a).Some?
    ensures WakePending(c, Next(c, s, a).value)
  {
  }

  lemma InvNext(c: Config, s: State, a: Step)
    requires Inv(c, s) && Next(c, s, a).Some?
    ensures Inv(c, Next(c, s, a).value)
  {
    ConservedNext(c, s, a);
    BoundedNext(c, s, a);
    WakePendingNext(c, s, a);
  }

  lemma InvRun(c: Config, s: State, run: seq<Step>)
    requires Inv(c, s) && Exec(Machine(c), s, run).Some?
    ensures Inv(c, Exec(Machine(c), s, run).value)
  {
    forall t, a | Inv(c, t) && Next(c, t, a).Some? ensures Inv(c, Next(c, t, a).value) {
      InvNext(c, t, a);
    }
    Preserved(Machine(c), t => Inv(c, t), a => true, s, run);
  }

  /** Conservation, non-negativity, the catch-up account and the pending wake-up
      hold in every run of both drivers, signals and a stop included. */
  lemma EveryRunKeepsInv(c: Config, s: State)
    requires Reachable(c, s)
    ensures Inv(c, s)
  {
    var run :| Exec(Machine(c), Init(c), run) == Some(s);
    InvRun(c, Init(c), run);
  }

  ghost predicate NoneInFlight(s: State) {
    s.half == 0 && s.counted == 0 && s.announced == 0
  }

  /** The thread sleeps, no top half is left to wake it, and events are waiting. */
  ghost predicate Stalled(s: State) {
    s.pc == Asleep && NoneInFlight(s) && s.nevents > 0
  }

  /** 20_LAB3_kthread_smart: asleep with work to do, some top half is between its
      increment of todo and its wake-up. */
  lemma NoLostWakeup(s: State)
    requires Reachable(COUNT_THREAD, s) && s.pc == Asleep && s.nevents > 0
    ensures s.counted > 0
  {
    EveryRunKeepsInv(COUNT_THREAD, s);
  }

  /** lab3_one_thread_improved: an event that is counted and announced just before
      the thread clears `cond` is forgotten; one top half in flight is enough. */
  lemma StallWitness(c: Config) returns (s: State)
    requires c.onFlag
    ensures Reachable(c, s) && Stalled(s) && !s.cond && s.nevents == 1 && s.th == 1 && s.bh == 0
  {
    ReachesItself(Machine(c), Init(c));
    s := Go(c, Init(c), TopFirst);
    s := Go(c, s, TopSecond);
    s := Go(c, s, TopAnnounce);
    s := Go(c, s, TopWake);
    s := Go(c, s, Clear);
    s := Go(c, s, Test);
  }

  /** No run stalls exactly when the thread sleeps on the count itself. */
  lemma StallFreeIff(c: Config)
    ensures (forall s | Reachable(c, s) :: !Stalled(s)) <==> !c.onFlag
  {
    if c.onFlag {
      var s := StallWitness(c);
    } else {
      forall s | Reachable(c, s) ensures !Stalled(s) {
        EveryRunKeepsInv(c, s);
      }
    }
  }

  // -------------------------------------------------- when the flag loses events

  /** Since the last clear from state s, and while `cond` is still clear: what has
      been published is still short of its announcement. */
  ghost predicate SinceClear(c: Config, s: State, m: State) {
    && (m.pc == Asleep && m.cond ==> m.announced > 0)
    && (m.pc in {AtTest, Asleep} && !m.cond ==>
          && m.half + m.counted >= s.half + s.counted
          && m.nevents - s.nevents ==
             (if c.order.CountFirst? then m.counted - s.counted
              else m.half + m.counted - s.half - s.counted))
  }

  lemma SinceClearNext(c: Config, s: State, m: State, a: Step)
    requires c.onFlag && SinceClear(c, s, m) && a != Clear && Next(c, m, a).Some?
    ensures SinceClear(c, s, Next(c, m, a).value)
  {
  }

  /** The run starts with a clear of the flag, its only one. */
  ghost predicate OneClear(run: seq<Step>) {
    run != [] && run[0] == Clear && forall k :: 1 <= k < |run| ==> run[k] != Clear
  }

  lemma {:induction false} RunSinceClear(c: Config, s: State, run: seq<Step>)
    requires c.onFlag && s.pc == AtClear && OneClear(run)
    requires Exec(Machine(c), s, run).Some?
    ensures SinceClear(c, s, Exec(Machine(c), s, run).value)
  {
    if |run| == 1 {
      assert run[..0] == [];
    } else {
      var k := |run| - 1;
      RunSinceClear(c, s, run[..k]);
      SinceClearNext(c, s, Exec(Machine(c), s, run[..k]).value, run[k]);
    }
  }

  /** The thread comes to rest with every event handled exactly when the event count
      was zero at its last `atomic_set(&cond, 0)`: the state just before the clear
      decides, whatever happened after it. */
  lemma LastClearDecides(c: Config, s: State, run: seq<Step>, t: State)
    requires c.onFlag && Reachable(c, s) && s.pc == AtClear
    requires OneClear(run) && Exec(Machine(c), s, run) == Some(t)
    requires t.pc == Asleep && NoneInFlight(t)
    ensures t.bh == t.th <==> s.nevents == 0
    ensures Stalled(t) <==> s.nevents > 0
  {
    RunSinceClear(c, s, run);
    EveryRunKeepsInv(c, s);
    InvRun(c, s, run);
  }
}
