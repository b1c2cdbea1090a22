/** What happens once interrupts stop arriving: the guarded drains always come to
    rest with every event handled; the unguarded ones may loop for ever. */
module DrainProgress {
  import opened Options
  import opened Runs
  import opened DeferredDrain

  /** No new interrupt arrives; those in flight may finish. */
  ghost predicate Undisturbed(run: seq<Step>) {
    forall k :: 0 <= k < |run| ==> run[k] != TopFirst
  }

  function PcWeight(pc: BottomPc): nat {
    match pc
    case Idle => 0
    case AtGuard => 3
    case AtInc => 2
    case AtDec => 1
    case AtTally => 3
  }

  function Positive(n: int): nat {
    if n > 0 then n else 0
  }

  /** A bound on the steps left when nothing new arrives. */
  function StepsLeft(s: State): nat
  {
    9 * s.half + 5 * s.counted + (if s.scheduled then 4 else 0) + 3 * Positive(s.nevents) + PcWeight(s.pc)
  }

  lemma StepsLeftDrops(c: Config, s: State, a: Step)
    requires c.guarded && Inv(c, s) && a != TopFirst && Next(c, s, a).Some?
    ensures Inv(c, Next(c, s, a).value)
    ensures StepsLeft(Next(c, s, a).value) < StepsLeft(s)
  {
    InvNext(c, s, a);
  }

  /** Only a quiescent system has nothing left to do. */
  lemma StepAvailable(c: Config, s: State) returns (a: Step)
    requires !Quiescent(s)
    ensures a != TopFirst && Next(c, s, a).Some?
  {
    a := if s.half > 0 then TopSecond else if s.counted > 0 then TopSchedule else
         match s.pc
         case Idle => Enter
         case AtGuard => Guard
         case AtInc => IncBh
         case AtDec => Dec
         case AtTally => Tally;
  }

  lemma UndisturbedRunIsShort(c: Config, s: State, run: seq<Step>)
    requires c.guarded && Inv(c, s) && Undisturbed(run) && Exec(Machine(c), s, run).Some?
    ensures Inv(c, Exec(Machine(c), s, run).value)
    ensures |run| + StepsLeft(Exec(Machine(c), s, run).value) <= StepsLeft(s)
  {
    forall t, a | Inv(c, t) && a != TopFirst && Next(c, t, a).Some?
      ensures Inv(c, Next(c, t, a).value) && StepsLeft(Next(c, t, a).value) < StepsLeft(t)
    {
      StepsLeftDrops(c, t, a);
    }
    Shrinks(Machine(c), t => Inv(c, t), a => a != TopFirst, StepsLeft, s, run);
  }

  /** Under the guard no schedule can starve an event: whatever the order in which
      the pending work is carried out, every undisturbed run is bounded, and one
      that cannot go on has handled every interrupt. */
  lemma GuardedRunsSettle(c: Config, s: State, run: seq<Step>, t: State)
    requires c.guarded && Reachable(c, s) && Undisturbed(run) && Exec(Machine(c), s, run) == Some(t)
    ensures |run| <= StepsLeft(s)
    ensures (forall a | a != TopFirst :: Next(c, t, a) == None) ==>
              Quiescent(t) && t.nevents == 0 && t.bh == t.th
    ensures !Quiescent(t) ==> exists a :: a != TopFirst && Next(c, t, a).Some?
  {
    EveryRunKeepsInv(c, s);
    UndisturbedRunIsShort(c, s, run);
    if !Quiescent(t) {
      var a := StepAvailable(c, t);
    }
  }

  ghost predicate CanSettle(c: Config, s: State) {
    exists run, t :: Undisturbed(run) && Exec(Machine(c), s, run) == Some(t) && Quiescent(t)
  }

  lemma {:induction false} SettlingRun(c: Config, s: State) returns (run: seq<Step>, t: State)
    requires c.guarded && Inv(c, s)
    ensures Undisturbed(run) && Exec(Machine(c), s, run) == Some(t) && Quiescent(t)
    decreases StepsLeft(s)
  {
    run, t := [], s;
    if !Quiescent(s) {
      var a := StepAvailable(c, s);
      StepsLeftDrops(c, s, a);
      var rest;
      rest, t := SettlingRun(c, Next(c, s, a).value);
      ExecCons(Machine(c), s, a, rest);
      run := [a] + rest;
    }
  }

  /** What the loop will find without new interrupts: the events published, and those
      that top halves under way have still to publish. */
  function InStore(c: Config, s: State): int {
    s.nevents + (if c.order.CountFirst? then s.half else 0)
  }

  /** Inside the loop with nothing to do and nobody about to bring work. */
  ghost predicate Runaway(c: Config, s: State) {
    && s.pc in {AtInc, AtDec, AtTally}
    && (if s.pc == AtTally then InStore(c, s) < 0 else InStore(c, s) <= 0)
  }

  lemma RunawayForever(c: Config, s: State, run: seq<Step>)
    requires Runaway(c, s) && Undisturbed(run) && Exec(Machine(c), s, run).Some?
    ensures Runaway(c, Exec(Machine(c), s, run).value)
  {
    Preserved(Machine(c), t => Runaway(c, t), a => a != TopFirst, s, run);
  }

  /** From every reachable state the system can come to rest without help exactly
      when the drain is guarded: 20_LAB6 and lab6_one_threaded can get stuck. */
  lemma SettlesIffGuarded(c: Config)
    ensures (forall s | Reachable(c, s) :: CanSettle(c, s)) <==> c.guarded
  {
    if c.guarded {
      forall s | Reachable(c, s) ensures CanSettle(c, s) {
        EveryRunKeepsInv(c, s);
        var run, t := SettlingRun(c, s);
      }
    } else {
      var s := EntryWithNothingToDo(c);
      forall run, t | Undisturbed(run) && Exec(Machine(c), s, run) == Some(t) ensures !Quiescent(t) {
        RunawayForever(c, s, run);
      }
      assert !CanSettle(c, s);
    }
  }

  // ------------------------------------------------------ the length of a drain

  /** The step with which a top half publishes its event. */
  function Publish(c: Config): Step {
    if c.order.CountFirst? then TopSecond else TopFirst
  }

  lemma {:induction false} Accounting(c: Config, s: State, run: seq<Step>)
    requires Exec(Machine(c), s, run).Some?
    ensures var t := Exec(Machine(c), s, run).value;
            && t.bh == s.bh + Count(run, IncBh)
            && t.nevents == s.nevents + Count(run, Publish(c)) - Count(run, Dec)
            && t.catchup == s.catchup + Count(run, Tally)
  {
    if run != [] {
      Accounting(c, s, run[..|run| - 1]);
    }
  }

  /** The bottom half is entered at most before the run. */
  ghost predicate NoReentry(run: seq<Step>) {
    forall k :: 0 <= k < |run| ==> run[k] != Enter
  }

  /** The loop alternates: one decrement, and one tally unless it exits, for each
      increment. */
  ghost predicate Alternates(c: Config, s: State, t: State, incs: nat, decs: nat, tallies: nat) {
    && t.pc != AtGuard
    && (t.pc == AtTally ==> c.tallies)
    && incs == decs + (if t.pc == AtDec then 1 else 0)
    && (c.tallies ==> decs == tallies + (if t.pc in {Idle, AtTally} then 1 else 0))
    && t.drains == s.drains + (if t.pc == Idle then 1 else 0)
  }

  lemma {:induction false} Alternation(c: Config, s: State, run: seq<Step>)
    requires s.pc == AtInc && NoReentry(run) && Exec(Machine(c), s, run).Some?
    ensures Alternates(c, s, Exec(Machine(c), s, run).value,
                       Count(run, IncBh), Count(run, Dec), Count(run, Tally))
  {
    if run != [] {
      var k := |run| - 1;
      var before := run[..k];
      Alternation(c, s, before);
      var m := Exec(Machine(c), s, before).value;
      assert Exec(Machine(c), s, run) == Next(c, m, run[k]);
      assert forall a :: Count(run, a) == Count(before, a) + if run[k] == a then 1 else 0;
    }
  }

  /** A drain that finds n events, sees k more published before it exits, and does
      exit, has gone round exactly n + k times, left none, and tallied all but one.
      This holds of the guarded and of the unguarded loop. */
  lemma DrainIsExact(c: Config, s: State, run: seq<Step>, t: State)
    requires s.pc == AtInc && NoReentry(run) && Exec(Machine(c), s, run) == Some(t)
    requires run != [] && run[|run| - 1] == Dec && t.pc == Idle
    ensures t.nevents == 0
    ensures t.bh - s.bh == s.nevents + Count(run, Publish(c))
    ensures c.tallies ==> t.catchup - s.catchup == t.bh - s.bh - 1
  {
    Accounting(c, s, run);
    Alternation(c, s, run);
  }

  /** Entered with at least one event, no drain goes round more often than there
      are events, so it terminates whenever finitely many arrive. */
  lemma {:induction false} DrainNeverOverruns(c: Config, s: State, run: seq<Step>)
    requires s.pc == AtInc && s.nevents >= 1 && NoReentry(run) && Exec(Machine(c), s, run).Some?
    ensures var t := Exec(Machine(c), s, run).value;
            && t.pc != AtGuard && t.nevents >= 0
            && (t.pc != Idle ==> t.nevents >= 1)
            && Count(run, Dec) <= s.nevents + Count(run, Publish(c))
  {
    Accounting(c, s, run);
    if run != [] {
      var k := |run| - 1;
      DrainNeverOverruns(c, s, run[..k]);
    }
  }

  ghost predicate CanExit(c: Config, s: State) {
    exists run, t :: Undisturbed(run) && Exec(Machine(c), s, run) == Some(t) && t.pc == Idle
  }

  lemma {:induction false} ExitingRun(c: Config, s: State) returns (run: seq<Step>, t: State)
    requires s.pc == AtInc && s.nevents >= 1
    ensures Undisturbed(run) && Exec(Machine(c), s, run) == Some(t) && t.pc == Idle
    decreases s.nevents
  {
    var s1 := Next(c, s, IncBh).value;
    var s2 := Next(c, s1, Dec).value;
    if s.nevents == 1 {
      run, t := [], s2;
    } else if c.tallies {
      run, t := ExitingRun(c, Next(c, s2, Tally).value);
      ExecCons(Machine(c), s2, Tally, run);
      run := [Tally] + run;
    } else {
      run, t := ExitingRun(c, s2);
    }
    ExecCons(Machine(c), s1, Dec, run);
    ExecCons(Machine(c), s, IncBh, [Dec] + run);
    run := [IncBh] + ([Dec] + run);
  }

  /** All the top halves that have still to publish do so. */
  lemma {:induction false} PublishingRun(c: Config, s: State) returns (run: seq<Step>, t: State)
    requires s.pc == AtInc && c.order.CountFirst?
    ensures Undisturbed(run) && Exec(Machine(c), s, run) == Some(t)
    ensures t.pc == AtInc && t.nevents == InStore(c, s)
    decreases s.half
  {
    run, t := [], s;
    if s.half > 0 {
      run, t := PublishingRun(c, Next(c, s, TopSecond).value);
      ExecCons(Machine(c), s, TopSecond, run);
      run := [TopSecond] + run;
    }
  }

  /** Wherever the top halves stand, the loop can leave without a new interrupt exactly
      when it was entered with something to do, or with somebody about to bring it. */
  lemma LoopExitsIff(c: Config, s: State)
    requires s.pc == AtInc
    ensures CanExit(c, s) <==> InStore(c, s) >= 1
  {
    if InStore(c, s) >= 1 {
      var pre, m := [], s;
      if c.order.CountFirst? {
        pre, m := PublishingRun(c, s);
      }
      var run, t := ExitingRun(c, m);
      ExecConcat(Machine(c), s, pre, run);
      assert Undisturbed(pre + run);
    } else {
      forall run, t | Undisturbed(run) && Exec(Machine(c), s, run) == Some(t) ensures t.pc != Idle {
        RunawayForever(c, s, run);
      }
    }
  }
}
