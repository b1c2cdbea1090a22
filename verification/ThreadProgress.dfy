/** The sleeping-thread drivers once interrupts stop arriving, and how one more
    interrupt repairs what the flag variant has lost. */
module ThreadProgress {
  import opened Options
  import opened Runs
  import D = DeferredDrain
  import opened ThreadDrain

  /** No new interrupt, no signal, no stop request; the rest may go on. */
  predicate Calm(a: Step) {
    a !in {TopFirst, Signal, Stop}
  }

  ghost predicate Undisturbed(run: seq<Step>) {
    forall k :: 0 <= k < |run| ==> Calm(run[k])
  }

  /** Nothing more happens without a disturbance. */
  ghost predicate Final(c: Config, s: State) {
    forall a | Calm(a) :: Next(c, s, a) == None
  }

  function PcWeight(c: Config, s: State): nat {
    match s.pc
    case AtLoop => 7
    case AtClear => if s.stop then 11 else 6
    case AtTest => if s.nevents <= 0 && Passing(c, s) then 10 else 5
    case Woken => if s.nevents > 0 then 4 else 9
    case AtGuard => if s.nevents > 0 then 3 else 8
    case AtInc => 2
    case AtDec => 1
    case AtTally => 3
    case Asleep => 0
    case Exited => 0
  }

  function Positive(n: int): nat {
    if n > 0 then n else 0
  }

  /** A bound on the steps left when nothing disturbs the system. */
  function StepsLeft(c: Config, s: State): nat
  {
    26 * s.half + 17 * s.counted + 11 * s.announced + 8 * Positive(s.nevents) + PcWeight(c, s)
  }

  lemma SecondDrops(c: Config, s: State)
    requires Bounded(c, s) && s.half > 0
    ensures StepsLeft(c, Next(c, s, TopSecond).value) < StepsLeft(c, s)
  {
    var t := Next(c, s, TopSecond).value;
    assert PcWeight(c, t) <= PcWeight(c, s);
  }

  lemma AnnounceDrops(c: Config, s: State)
    requires Bounded(c, s) && s.counted > 0 && c.onFlag
    ensures StepsLeft(c, Next(c, s, TopAnnounce).value) < StepsLeft(c, s)
  {
    assert PcWeight(c, Next(c, s, TopAnnounce).value) <= PcWeight(c, s) + 5;
  }

  lemma WakeDrops(c: Config, s: State)
    requires Bounded(c, s) && Next(c, s, TopWake).Some?
    ensures StepsLeft(c, Next(c, s, TopWake).value) < StepsLeft(c, s)
  {
    assert PcWeight(c, Next(c, s, TopWake).value) <= PcWeight(c, s) + 10;
  }

  lemma TopStepDrops(c: Config, s: State, a: Step)
    requires Bounded(c, s) && a in {TopSecond, TopAnnounce, TopWake} && Next(c, s, a).Some?
    ensures StepsLeft(c, Next(c, s, a).value) < StepsLeft(c, s)
  {
    if a == TopSecond {
      SecondDrops(c, s);
    } else if a == TopAnnounce {
      AnnounceDrops(c, s);
    } else {
      WakeDrops(c, s);
    }
  }

  lemma ThreadStepDrops(c: Config, s: State, a: Step)
    requires Bounded(c, s) && Calm(a) && a !in {TopSecond, TopAnnounce, TopWake} && Next(c, s, a).Some?
    ensures StepsLeft(c, Next(c, s, a).value) < StepsLeft(c, s)
  {
  }

  lemma StepsLeftDrops(c: Config, s: State, a: Step)
    requires Inv(c, s) && Calm(a) && Next(c, s, a).Some?
    ensures StepsLeft(c, Next(c, s, a).value) < StepsLeft(c, s)
  {
    if a in {TopSecond, TopAnnounce, TopWake} {
      TopStepDrops(c, s, a);
    } else {
      ThreadStepDrops(c, s, a);
    }
  }

  lemma UndisturbedRunIsShort(c: Config, s: State, run: seq<Step>)
    requires Inv(c, s) && Undisturbed(run) && Exec(Machine(c), s, run).Some?
    ensures Inv(c, Exec(Machine(c), s, run).value)
    ensures |run| + StepsLeft(c, Exec(Machine(c), s, run).value) <= StepsLeft(c, s)
  {
    forall t, a | Inv(c, t) && Calm(a) && Next(c, t, a).Some?
      ensures Inv(c, Next(c, t, a).value) && StepsLeft(c, Next(c, t, a).value) < StepsLeft(c, t)
    {
      InvNext(c, t, a);
      StepsLeftDrops(c, t, a);
    }
    Shrinks(Machine(c), t => Inv(c, t), Calm, (t: State) => StepsLeft(c, t), s, run);
  }

  /** Only a thread at rest, with no top half in flight, has nothing left to do. */
  lemma StepAvailable(c: Config, s: State) returns (a: Step)
    requires Inv(c, s) && !(NoneInFlight(s) && s.pc in {Asleep, Exited})
    ensures Calm(a) && Next(c, s, a).Some?
  {
    a := if s.half > 0 then TopSecond
         else if s.counted > 0 then (if c.onFlag then TopAnnounce else TopWake)
         else if s.announced > 0 then TopWake
         else match s.pc
           case AtLoop => Loop
           case AtClear => Clear
           case AtTest => Test
           case Woken => LeaveWait
           case AtGuard => Guard
           case AtInc => IncBh
           case AtDec => Dec
           case _ => Tally;
  }

  lemma FinalMeansResting(c: Config, s: State)
    requires Inv(c, s) && Final(c, s)
    ensures NoneInFlight(s) && s.pc in {Asleep, Exited}
  {
    if !(NoneInFlight(s) && s.pc in {Asleep, Exited}) {
      var a := StepAvailable(c, s);
    }
  }

  lemma RestingMeansFinal(c: Config, s: State)
    requires NoneInFlight(s) && s.pc in {Asleep, Exited}
    ensures Final(c, s)
  {
  }

  /** In both drivers every undisturbed run is bounded and ends with the thread
      asleep or gone; when it sleeps on the count, everything is then handled. */
  lemma ThreadSettles(c: Config, s: State, run: seq<Step>, t: State)
    requires Reachable(c, s) && Undisturbed(run) && Exec(Machine(c), s, run) == Some(t)
    ensures |run| <= StepsLeft(c, s)
    ensures Final(c, t) ==> NoneInFlight(t) && t.pc in {Asleep, Exited}
    ensures Final(c, t) && !c.onFlag && t.pc == Asleep ==> t.nevents == 0 && t.bh == t.th
  {
    EveryRunKeepsInv(c, s);
    UndisturbedRunIsShort(c, s, run);
    if Final(c, t) {
      FinalMeansResting(c, t);
    }
  }

  /** The step with which a top half publishes its event. */
  function Publish(c: Config): Step {
    if c.order.CountFirst? then TopSecond else TopFirst
  }

  lemma {:induction false} AfterExit(c: Config, s: State, run: seq<Step>)
    requires s.pc == Exited && Exec(Machine(c), s, run).Some?
    ensures var t := Exec(Machine(c), s, run).value;
            t.pc == Exited && t.bh == s.bh && t.nevents == s.nevents + Count(run, Publish(c))
  {
    if run != [] {
      AfterExit(c, s, run[..|run| - 1]);
    }
  }

  /** When a stop loses nothing: the thread had left no event when it went, and none
      was published afterwards.  kthread_stop comes before the interrupt line is given
      up, so nothing in the source prevents the one or the other. */
  lemma StopLosesNothingIff(c: Config, s: State, run: seq<Step>, t: State)
    requires Reachable(c, s) && s.pc == Exited
    requires Exec(Machine(c), s, run) == Some(t) && NoneInFlight(t)
    ensures t.bh == t.th <==> s.nevents == 0 && Count(run, Publish(c)) == 0
    ensures t.th - t.bh == s.nevents + Count(run, Publish(c))
  {
    AfterExit(c, s, run);
    EveryRunKeepsInv(c, s);
    InvRun(c, s, run);
  }

  lemma CountedAfterStop(c: Config) returns (s: State)
    requires !c.onFlag
    ensures Reachable(c, s) && s == State(1, 0, 1, 0, 0, false, true, 0, 1, 0, AtTest)
  {
    ReachesItself(Machine(c), Init(c));
    s := Go(c, Init(c), Stop);
    s := Go(c, s, TopFirst);
    s := Go(c, s, TopSecond);
  }

  /** So it can lose events even where the thread sleeps on the count. */
  lemma StopCanLoseEvents(c: Config) returns (s: State)
    requires !c.onFlag
    ensures Reachable(c, s) && Final(c, s) && s.pc == Exited && s.bh != s.th
  {
    s := CountedAfterStop(c);
    s := Go(c, s, TopWake);
    s := Go(c, s, Test);
    s := Go(c, s, LeaveWait);
    RestingMeansFinal(c, s);
    StopLosesNothingIff(c, s, [], s);
  }

  // ------------------------------------------------------------------ recovery

  /** The single new interrupt is still on its way, or the thread is up and will
      not clear the flag or sleep before everything is handled. */
  ghost predicate Recovering(c: Config, m: State) {
    && !m.stop
    && if m.half + m.counted + m.announced > 0 then
         m.half + m.counted + m.announced == 1 && m.pc == Asleep && (m.announced == 1 ==> m.cond)
       else
         && (m.pc in {AtLoop, AtClear, Asleep} ==> m.nevents == 0)
         && (m.pc == AtTest ==> m.cond || m.nevents == 0)
  }

  lemma RecoveringNext(c: Config, m: State, a: Step)
    requires c.onFlag && Inv(c, m) && Recovering(c, m) && Calm(a) && Next(c, m, a).Some?
    ensures Recovering(c, Next(c, m, a).value)
  {
  }

  lemma RecoveringRun(c: Config, s: State, run: seq<Step>)
    requires c.onFlag && Inv(c, s) && Recovering(c, s) && Undisturbed(run) && Exec(Machine(c), s, run).Some?
    ensures Inv(c, Exec(Machine(c), s, run).value) && Recovering(c, Exec(Machine(c), s, run).value)
  {
    forall t, a | Inv(c, t) && Recovering(c, t) && Calm(a) && Next(c, t, a).Some?
      ensures Inv(c, Next(c, t, a).value) && Recovering(c, Next(c, t, a).value)
    {
      InvNext(c, t, a);
      RecoveringNext(c, t, a);
    }
    Preserved(Machine(c), t => Inv(c, t) && Recovering(c, t), Calm, s, run);
  }

  /** However many events were forgotten, one more interrupt brings the thread to
      handle all of them: every undisturbed run that follows it is bounded and
      comes to rest with both counters equal. */
  lemma OneInterruptRecovers(c: Config, s: State, run: seq<Step>, t: State)
    requires c.onFlag && Reachable(c, s) && Stalled(s)
    requires Undisturbed(run)
    requires Exec(Machine(c), Next(c, s, TopFirst).value, run) == Some(t)
    ensures |run| <= StepsLeft(c, Next(c, s, TopFirst).value)
    ensures Final(c, t) ==> t.pc == Asleep && t.nevents == 0 && t.bh == t.th == s.th + 1
  {
    var s1 := Next(c, s, TopFirst).value;
    EveryRunKeepsInv(c, s);
    InvNext(c, s, TopFirst);
    UndisturbedRunIsShort(c, s1, run);
    RecoveringRun(c, s1, run);
    CalmRun(c, s1, run);
    if Final(c, t) {
      FinalMeansResting(c, t);
    }
  }

  /** What the top halves in flight will have brought counter_th to. */
  function Promised(c: Config, s: State): int {
    if c.order.EventFirst? then s.th + s.half else s.th
  }

  lemma CalmNext(c: Config, m: State, a: Step)
    requires Calm(a) && Next(c, m, a).Some?
    ensures var t := Next(c, m, a).value;
            && Promised(c, t) == Promised(c, m)
            && t.stop == m.stop
            && (t.pc == Exited ==> m.stop || m.pc == Exited)
  {
  }

  lemma {:induction false} CalmRun(c: Config, s: State, run: seq<Step>)
    requires !s.stop && s.pc != Exited && Undisturbed(run) && Exec(Machine(c), s, run).Some?
    ensures var t := Exec(Machine(c), s, run).value;
            Promised(c, t) == Promised(c, s) && !t.stop && t.pc != Exited
  {
    if run != [] {
      var k := |run| - 1;
      CalmRun(c, s, run[..k]);
      CalmNext(c, Exec(Machine(c), s, run[..k]).value, run[k]);
    }
  }
}
