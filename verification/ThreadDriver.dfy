/** The thread functions of 20_LAB3_kthread_smart/Nirq.c (isr_bottom) and
    SOLUTIONS/s_20/lab3_one_thread_improved.c (thr_fun) as one pass of their outer
    loop, run against top halves and stop requests of other processors, and signals. */
module ThreadDriver {
  import opened Options
  import opened Runs
  import D = DeferredDrain
  import opened ThreadDrain
  import opened Hearing

  /** What other processors do. */
  predicate Foreign(a: Step) {
    a in {TopFirst, TopSecond, TopAnnounce, TopWake, Stop, Signal}
  }

  predicate IsThread(a: Step) {
    a in {Clear, Test, LeaveWait, Guard, IncBh, Dec, Tally, Loop}
  }

  function ThreadSteps(): (State, Step) -> bool {
    (s: State, a: Step) => IsThread(a)
  }

  function ForeignSteps(): (State, Step) -> bool {
    (s: State, a: Step) => Foreign(a)
  }

  /** `run` leads from s to t and consists of steps of the thread and of those of `acts`
      that others could take when they came, in this order. */
  ghost predicate Heard(c: Config, s: State, run: seq<Step>, t: State, acts: seq<Step>) {
    Hears(Machine(c), ThreadSteps(), ForeignSteps(), s, run, t, acts)
  }

  lemma Own(c: Config, s: State, run: seq<Step>, m: State, acts: seq<Step>, a: Step, t: State)
    requires Heard(c, s, run, m, acts) && IsThread(a) && Next(c, m, a) == Some(t)
    ensures Heard(c, s, run + [a], t, acts)
  {
    HearsOwn(Machine(c), ThreadSteps(), ForeignSteps(), s, run, m, acts, a, t);
  }

  lemma Taken(c: Config, s: State, run: seq<Step>, m: State, acts: seq<Step>, a: Step, t: State)
    requires Heard(c, s, run, m, acts) && Foreign(a) && Next(c, m, a) == Some(t)
    ensures Heard(c, s, run + [a], t, acts + [a])
  {
    HearsTaken(Machine(c), ThreadSteps(), ForeignSteps(), s, run, m, acts, a, t);
  }

  lemma Skipped(c: Config, s: State, run: seq<Step>, m: State, acts: seq<Step>, a: Step)
    requires Heard(c, s, run, m, acts) && !(Foreign(a) && Next(c, m, a).Some?)
    ensures Heard(c, s, run, m, acts + [a])
  {
    HearsMissed(Machine(c), ThreadSteps(), ForeignSteps(), s, run, m, acts, a);
  }

  lemma Joined(c: Config, s: State, run: seq<Step>, m: State, acts: seq<Step>,
               more: seq<Step>, t: State, later: seq<Step>)
    requires Heard(c, s, run, m, acts) && Heard(c, m, more, t, later)
    ensures Heard(c, s, run + more, t, acts + later)
  {
    HearsThrough(Machine(c), ThreadSteps(), ForeignSteps(), s, run, m, acts, more, t, later);
  }

  /** The step that makes an event visible to the thread. */
  function Publish(c: Config): Step {
    if c.order == D.CountFirst then TopSecond else TopFirst
  }

  /** Every round handles one event. */
  lemma {:induction false} Accounted(c: Config, s: State, run: seq<Step>)
    requires Exec(Machine(c), s, run).Some?
    ensures var t := Exec(Machine(c), s, run).value;
            t.bh + t.nevents - (if t.pc == AtDec then 1 else 0) ==
            s.bh + s.nevents - (if s.pc == AtDec then 1 else 0) + Count(run, Publish(c))
  {
    if run != [] {
      var before := run[..|run| - 1];
      Accounted(c, s, before);
      AccountedStep(c, Exec(Machine(c), s, before).value, run[|run| - 1], Exec(Machine(c), s, run).value);
    }
  }

  lemma AccountedStep(c: Config, m: State, a: Step, t: State)
    requires Next(c, m, a) == Some(t)
    ensures t.bh + t.nevents - (if t.pc == AtDec then 1 else 0) ==
            m.bh + m.nevents - (if m.pc == AtDec then 1 else 0) + (if a == Publish(c) then 1 else 0)
  {
    match a
    case TopFirst =>
    case TopSecond =>
    case _ =>
  }

  lemma QuietStep(c: Config, m: State, a: Step, t: State)
    requires IsThread(a) && Next(c, m, a) == Some(t)
    ensures SameTops(m, t) && !Foreign(a) && a != Publish(c)
  {
  }

  lemma {:induction false} QuietSteps(c: Config, s: State, run: seq<Step>)
    requires Exec(Alone(Machine(c), ThreadSteps()), s, run).Some?
    ensures SameTops(s, Exec(Alone(Machine(c), ThreadSteps()), s, run).value)
    ensures (forall k :: 0 <= k < |run| ==> !Foreign(run[k])) && Count(run, Publish(c)) == 0
  {
    if run != [] {
      var before := run[..|run| - 1];
      QuietSteps(c, s, before);
      QuietStep(c, Exec(Alone(Machine(c), ThreadSteps()), s, before).value, run[|run| - 1],
                Exec(Alone(Machine(c), ThreadSteps()), s, run).value);
    }
  }

  /** Top halves and stop requests have not moved. */
  ghost predicate SameTops(s: State, t: State) {
    t.th == s.th && t.stop == s.stop && t.half == s.half && t.counted == s.counted && t.announced == s.announced
  }

  /** The books of a stretch of the thread's life; left alone, it counts nothing. */
  lemma Balance(c: Config, s: State, run: seq<Step>, t: State, acts: seq<Step>)
    requires Heard(c, s, run, t, acts) && s.pc != AtDec && t.pc != AtDec
    ensures Exec(Machine(c), s, run) == Some(t)
    ensures t.bh - s.bh == s.nevents + Count(run, Publish(c)) - t.nevents
    ensures Count(run, TopFirst) == Count(acts, TopFirst) && Count(run, Stop) == Count(acts, Stop)
    ensures acts == [] ==>
              SameTops(s, t) && (forall k :: 0 <= k < |run| ==> !Foreign(run[k])) && Count(run, Publish(c)) == 0
  {
    HearsExec(Machine(c), ThreadSteps(), ForeignSteps(), s, run, t, acts);
    Accounted(c, s, run);
    HearsEach(Machine(c), ThreadSteps(), ForeignSteps(), s, run, t, acts, TopFirst);
    HearsEach(Machine(c), ThreadSteps(), ForeignSteps(), s, run, t, acts, Stop);
    if acts == [] {
      NothingHeard(Machine(c), ThreadSteps(), ForeignSteps(), s, run, t);
      QuietSteps(c, s, run);
    }
  }

  /** Of envs[k] the first used[k] bursts have come. */
  predicate Within(envs: seq<seq<seq<Step>>>, used: seq<nat>) {
    |used| <= |envs| && forall k :: 0 <= k < |used| ==> used[k] <= |envs[k]|
  }

  /** What the passes have met with. */
  function Met(envs: seq<seq<seq<Step>>>, used: seq<nat>): seq<Step>
    requires Within(envs, used)
  {
    if used == [] then [] else
    var k := |used| - 1;
    Met(envs, used[..k]) + Bursts(envs[k], used[k])
  }

  lemma MetMore(envs: seq<seq<seq<Step>>>, used: seq<nat>, n: nat, used': seq<nat>)
    requires Within(envs, used) && |used| < |envs| && n <= |envs[|used|]| && used' == used + [n]
    ensures Within(envs, used') && Met(envs, used') == Met(envs, used) + Bursts(envs[|used|], n)
  {
    assert used'[..|used|] == used;
  }

  class Driver {
    const cfg: Config
    var counterTh: int
    var counterBh: int
    var nevents: int
    var catchup: int
    var cond: bool
    var stop: bool
    var half: nat
    var counted: nat
    var announced: nat
    /** The thread is off the run queue until somebody wakes it. */
    var asleep: bool
    /** A signal has taken it out of the wait. */
    var signalled: bool
    ghost var drains: nat

    constructor (cfg: Config)
      ensures this.cfg == cfg && View(Top(cfg)) == Init(cfg)
    {
      this.cfg := cfg;
      counterTh, counterBh, nevents, catchup, drains := 0, 0, 0, 0, 0;
      cond, stop, half, counted, announced := cfg.onFlag, false, 0, 0, 0;
      asleep, signalled := false, false;
    }

    /** The state of the transition system while the thread's code stands at pc; a
        sleeping thread resumes at the test of its condition. */
    ghost function View(pc: Pc): State
      reads this
    {
      State(counterTh, counterBh, nevents, catchup, drains, cond, stop, half, counted, announced,
            if asleep then Asleep else if signalled then Woken else pc)
    }

    predicate Running()
      reads this
    {
      !asleep && !signalled
    }

    /** Where the thread can be off its code: in the wait only. */
    ghost predicate Fits(pc: Pc)
      reads this
    {
      pc != Asleep && !(asleep && signalled) && (asleep || signalled ==> pc == AtTest)
    }

    /** The thread stands at pc after the run, having met with these acts. */
    ghost predicate At(pc: Pc, start: State, run: seq<Step>, acts: seq<Step>)
      reads this
    {
      Heard(cfg, start, run, View(pc), acts)
    }

    /** The condition of wait_event_interruptible, or a stop request. */
    predicate Passes()
      reads this
    {
      stop || (if cfg.onFlag then cond else nevents != 0)
    }

    method FirstIncrement(ghost pc: Pc)
      modifies this
      ensures Next(cfg, old(View(pc)), TopFirst) == Some(View(pc))
      ensures nevents >= old(nevents) && asleep == old(asleep) && signalled == old(signalled)
    {
      if cfg.order == D.CountFirst {
        counterTh := counterTh + 1;
      } else {
        nevents := nevents + 1;
      }
      half := half + 1;
    }

    method SecondIncrement(ghost pc: Pc)
      requires half > 0
      modifies this
      ensures Next(cfg, old(View(pc)), TopSecond) == Some(View(pc))
      ensures nevents >= old(nevents) && asleep == old(asleep) && signalled == old(signalled)
    {
      if cfg.order == D.CountFirst {
        nevents := nevents + 1;
      } else {
        counterTh := counterTh + 1;
      }
      half, counted := half - 1, counted + 1;
    }

    /** atomic_set(&cond, 1) */
    method Announce(ghost pc: Pc)
      requires cfg.onFlag && counted > 0
      modifies this
      ensures Next(cfg, old(View(pc)), TopAnnounce) == Some(View(pc))
      ensures nevents == old(nevents) && asleep == old(asleep) && signalled == old(signalled)
    {
      cond, counted, announced := true, counted - 1, announced + 1;
    }

    /** wake_up_interruptible(&wq) */
    method WakeUp(ghost pc: Pc)
      requires if cfg.onFlag then announced > 0 else counted > 0
      requires Fits(pc)
      modifies this
      ensures Next(cfg, old(View(pc)), TopWake) == Some(View(pc))
      ensures nevents == old(nevents) && !asleep && signalled == old(signalled)
    {
      if cfg.onFlag {
        announced := announced - 1;
      } else {
        counted := counted - 1;
      }
      asleep := false;
    }

    /** kthread_stop */
    method StopThread(ghost pc: Pc)
      requires Fits(pc)
      modifies this
      ensures Next(cfg, old(View(pc)), Stop) == Some(View(pc))
      ensures nevents == old(nevents) && !asleep && signalled == old(signalled)
    {
      stop := true;
      asleep := false;
    }

    /** One step of another processor, if it is its turn. */
    method Other(a: Step, ghost pc: Pc) returns (took: bool)
      requires Fits(pc)
      modifies this
      ensures took <==> Foreign(a) && Next(cfg, old(View(pc)), a).Some?
      ensures took ==> Next(cfg, old(View(pc)), a) == Some(View(pc))
      ensures !took ==> View(pc) == old(View(pc))
      ensures nevents >= old(nevents) && Fits(pc) && (old(Running()) ==> Running())
    {
      took := true;
      if a == TopFirst {
        FirstIncrement(pc);
      } else if a == TopSecond && half > 0 {
        SecondIncrement(pc);
      } else if a == TopAnnounce && cfg.onFlag && counted > 0 {
        Announce(pc);
      } else if a == TopWake && (if cfg.onFlag then announced > 0 else counted > 0) {
        WakeUp(pc);
      } else if a == Stop {
        StopThread(pc);
      } else if a == Signal && asleep {
        asleep, signalled := false, true;
      } else {
        took := false;
      }
    }

    /** The next burst of other processors' steps, if any is left. */
    method Pause(env: seq<seq<Step>>, e: nat, ghost pc: Pc, ghost start: State, ghost run: seq<Step>)
      returns (e': nat, ghost run': seq<Step>)
      requires e <= |env| && At(pc, start, run, Bursts(env, e)) && Fits(pc)
      modifies this
      ensures e' == (if e < |env| then e + 1 else e) && At(pc, start, run', Bursts(env, e'))
      ensures nevents >= old(nevents) && Fits(pc) && (old(Running()) ==> Running())
      ensures e == |env| ==> View(pc) == old(View(pc)) && asleep == old(asleep)
    {
      e', run' := e, run;
      if e < |env| {
        run' := Burst(env[e], pc, start, run, Bursts(env, e));
        e' := e + 1;
      }
    }

    method Burst(acts: seq<Step>, ghost pc: Pc, ghost start: State, ghost run: seq<Step>, ghost met: seq<Step>)
      returns (ghost run': seq<Step>)
      requires At(pc, start, run, met) && Fits(pc)
      modifies this
      ensures At(pc, start, run', met + acts)
      ensures nevents >= old(nevents) && Fits(pc) && (old(Running()) ==> Running())
    {
      run' := run;
      ghost var so := met;
      for k := 0 to |acts|
        invariant so == met + acts[..k] && At(pc, start, run', so)
        invariant nevents >= old(nevents) && Fits(pc) && (old(Running()) ==> Running())
      {
        run' := OneAct(acts[k], pc, start, run', so);
        PrefixMore(met, acts, k, so);
        so := so + [acts[k]];
      }
      PrefixAll(met, acts);
    }

    method OneAct(a: Step, ghost pc: Pc, ghost start: State, ghost run: seq<Step>, ghost met: seq<Step>)
      returns (ghost run': seq<Step>)
      requires At(pc, start, run, met) && Fits(pc)
      modifies this
      ensures At(pc, start, run', met + [a])
      ensures nevents >= old(nevents) && Fits(pc) && (old(Running()) ==> Running())
    {
      ghost var was := View(pc);
      var took := Other(a, pc);
      if took {
        run' := run + [a];
        Taken(cfg, start, run, was, met, a, View(pc));
      } else {
        run' := run;
        Skipped(cfg, start, run, was, met, a);
      }
    }

    /** The test of the condition: on, or to sleep. */
    method TestCondition(ghost start: State, ghost run: seq<Step>, ghost met: seq<Step>)
      returns (passing: bool, ghost run': seq<Step>)
      requires At(AtTest, start, run, met) && Running()
      modifies this`asleep
      ensures passing == old(Passes()) && asleep == !passing
      ensures At(if passing then Woken else AtTest, start, run', met)
    {
      ghost var was := View(AtTest);
      passing := stop || (if cfg.onFlag then cond else nevents != 0);
      asleep := !passing;
      Own(cfg, start, run, was, met, Test, View(if passing then Woken else AtTest));
      run' := run + [Test];
    }

    /** Off the run queue until somebody wakes it or nothing more happens. */
    method Sleep(env: seq<seq<Step>>, e: nat, ghost start: State, ghost run: seq<Step>)
      returns (e': nat, ghost run': seq<Step>)
      requires e <= |env| && At(AtTest, start, run, Bursts(env, e)) && Fits(AtTest) && asleep
      modifies this
      ensures e <= e' <= |env| && (asleep ==> e' == |env|) && (e' == e ==> asleep)
      ensures At(AtTest, start, run', Bursts(env, e')) && Fits(AtTest)
      ensures nevents >= old(nevents) && (e == |env| ==> View(AtTest) == old(View(AtTest)))
    {
      e', run' := e, run;
      while asleep && e' < |env|
        invariant e <= e' <= |env| && At(AtTest, start, run', Bursts(env, e')) && Fits(AtTest)
        invariant nevents >= old(nevents) && (e' == e ==> asleep && View(AtTest) == old(View(AtTest)))
        decreases |env| - e'
      {
        e', run' := Pause(env, e', AtTest, start, run');
      }
    }

    /** wait_event_interruptible: test, sleep, be woken, test again, or be signalled.
        `out` is false if the thread is left sleeping because nothing more happens. */
    method WaitEvent(env: seq<seq<Step>>, e: nat, ghost start: State, ghost run: seq<Step>)
      returns (e': nat, ghost run': seq<Step>, out: bool)
      requires e <= |env| && At(AtTest, start, run, Bursts(env, e)) && Running()
      modifies this
      ensures e <= e' <= |env| && (!out ==> e' == |env|)
      ensures At(if out then Woken else AtTest, start, run', Bursts(env, e'))
      ensures if out then Running() else asleep && Fits(AtTest)
      ensures nevents >= old(nevents)
      ensures e == |env| ==> out == old(Passes()) && stop == old(stop) && nevents == old(nevents)
    {
      e', run' := e, run;
      while true
        invariant e <= e' <= |env| && At(AtTest, start, run', Bursts(env, e')) && Running()
        invariant nevents >= old(nevents)
        invariant e == |env| ==> Passes() == old(Passes()) && stop == old(stop) && nevents == old(nevents)
        decreases |env| - e'
      {
        out, run' := TestCondition(start, run', Bursts(env, e'));
        if out {
          return;
        }
        e', run' := Sleep(env, e', start, run');
        if asleep {
          return;
        }
        if signalled {
          signalled, out := false, true;
          return;
        }
      }
    }

    method CountHandled(ghost start: State, ghost run: seq<Step>, ghost met: seq<Step>) returns (ghost run': seq<Step>)
      requires At(AtInc, start, run, met) && Running()
      modifies this
      ensures At(AtDec, start, run', met) && Running() && nevents == old(nevents)
    {
      ghost var was := View(AtInc);
      counterBh := counterBh + 1;
      Own(cfg, start, run, was, met, IncBh, View(AtDec));
      run' := run + [IncBh];
    }

    method DecAndTest(ghost start: State, ghost run: seq<Step>, ghost met: seq<Step>)
      returns (done: bool, ghost run': seq<Step>)
      requires At(AtDec, start, run, met) && Running()
      modifies this
      ensures nevents == old(nevents) - 1 && done == (nevents == 0) && Running()
      ensures At(if done then AtLoop else if cfg.tallies then AtTally else AtInc, start, run', met)
    {
      ghost var was := View(AtDec);
      nevents := nevents - 1;
      done := nevents == 0;
      if done {
        drains := drains + 1;
      }
      ghost var now := View(if done then AtLoop else if cfg.tallies then AtTally else AtInc);
      DecNext(cfg, was, now);
      Own(cfg, start, run, was, met, Dec, now);
      run' := run + [Dec];
    }

    method CountCatchup(ghost start: State, ghost run: seq<Step>, ghost met: seq<Step>) returns (ghost run': seq<Step>)
      requires At(AtTally, start, run, met) && Running()
      modifies this
      ensures At(AtInc, start, run', met) && Running() && nevents == old(nevents)
    {
      ghost var was := View(AtTally);
      catchup := catchup + 1;
      Own(cfg, start, run, was, met, Tally, View(AtInc));
      run' := run + [Tally];
    }

    /** The inner loop: it ends, and it leaves no event behind. */
    method Drain(env: seq<seq<Step>>, e: nat, ghost start: State, ghost run: seq<Step>)
      returns (e': nat, ghost run': seq<Step>)
      requires e <= |env| && At(AtInc, start, run, Bursts(env, e)) && Running() && nevents >= 1
      modifies this
      ensures e <= e' <= |env| && At(AtLoop, start, run', Bursts(env, e')) && Running() && nevents == 0
    {
      e', run' := e, run;
      while true
        invariant e <= e' <= |env| && At(AtInc, start, run', Bursts(env, e')) && Running() && nevents >= 1
        decreases |env| - e', nevents
      {
        run' := CountHandled(start, run', Bursts(env, e'));
        e', run' := Pause(env, e', AtDec, start, run');
        var done;
        done, run' := DecAndTest(start, run', Bursts(env, e'));
        if done {
          return;
        }
        if cfg.tallies {
          e', run' := Pause(env, e', AtTally, start, run');
          run' := CountCatchup(start, run', Bursts(env, e'));
        }
        e', run' := Pause(env, e', AtInc, start, run');
      }
    }

    /** atomic_set(&cond, 0), where the driver has it. */
    method ClearFlag(ghost start: State) returns (ghost run: seq<Step>)
      requires start == View(Top(cfg)) && Running()
      modifies this`cond
      ensures At(AtTest, start, run, []) && cond == (!cfg.onFlag && old(cond))
    {
      run := [];
      HearsNothing(Machine(cfg), ThreadSteps(), ForeignSteps(), start);
      if cfg.onFlag {
        cond := false;
        Own(cfg, start, run, start, [], Clear, View(AtTest));
        run := run + [Clear];
      }
    }

    /** kthread_should_stop() behind the wait. */
    method LeaveTheWait(ghost start: State, ghost run: seq<Step>, ghost met: seq<Step>)
      returns (gone: bool, ghost run': seq<Step>)
      requires At(Woken, start, run, met) && Running()
      ensures gone == stop && At(if gone then Exited else AtGuard, start, run', met)
    {
      gone, run' := stop, run + [LeaveWait];
      Own(cfg, start, run, View(Woken), met, LeaveWait, View(if gone then Exited else AtGuard));
    }

    /** if (atomic_read(&nevents) <= 0) continue. */
    method TestGuard(ghost start: State, ghost run: seq<Step>, ghost met: seq<Step>)
      returns (skip: bool, ghost run': seq<Step>)
      requires At(AtGuard, start, run, met) && Running()
      ensures skip == (nevents <= 0) && At(if skip then AtLoop else AtInc, start, run', met)
    {
      skip, run' := nevents <= 0, run + [Guard];
      Own(cfg, start, run, View(AtGuard), met, Guard, View(if skip then AtLoop else AtInc));
    }

    /** What follows the wait: the stop test, the guard, the inner loop. */
    method Work(env: seq<seq<Step>>, e: nat, ghost start: State, ghost run: seq<Step>)
      returns (e': nat, ghost run': seq<Step>, gone: bool)
      requires e <= |env| && At(Woken, start, run, Bursts(env, e)) && Running()
      modifies this
      ensures e <= e' <= |env| && Running() && gone == old(stop)
      ensures At(if gone then Exited else AtLoop, start, run', Bursts(env, e'))
      ensures gone || nevents == 0 || (old(nevents) < 0 && nevents < 0)
    {
      e' := e;
      gone, run' := LeaveTheWait(start, run, Bursts(env, e));
      if gone {
        return;
      }
      e', run' := Pause(env, e', AtGuard, start, run');
      var skip;
      skip, run' := TestGuard(start, run', Bursts(env, e'));
      if !skip {
        e', run' := Drain(env, e', start, run');
      }
    }

    /** The pass up to the end of the wait. */
    method Wait(env: seq<seq<Step>>, ghost start: State)
      returns (used: nat, ghost run: seq<Step>, out: bool)
      requires start == View(Top(cfg)) && Running()
      modifies this
      ensures used <= |env| && (!out ==> used == |env|)
      ensures At(if out then Woken else AtTest, start, run, Bursts(env, used))
      ensures if out then Running() else asleep && Fits(AtTest)
      ensures env == [] ==> out == (old(stop) || (!cfg.onFlag && old(nevents) != 0))
      ensures nevents >= old(nevents) && (env == [] ==> stop == old(stop) && nevents == old(nevents))
    {
      used := 0;
      run := ClearFlag(start);
      used, run := Pause(env, used, AtTest, start, run);
      used, run, out := WaitEvent(env, used, start, run);
    }

    /** One pass of the outer loop.  It is a run that consists of the thread's own
        steps and of those of the first `used` bursts, and ends asleep, with nothing
        more to come, gone, or at the loop test, then with no event left.  With
        nothing in between it sleeps unless it was told to stop or found an event
        that it looks at, and it handles exactly what it found. */
    method Pass(env: seq<seq<Step>>) returns (ghost run: seq<Step>, ghost pc: Pc, gone: bool, used: nat)
      requires Running()
      modifies this
      ensures used <= |env| && (asleep ==> used == |env|)
      ensures Heard(cfg, old(View(Top(cfg))), run, View(pc), Bursts(env, used))
      ensures if asleep then pc == AtTest else Running() && pc in {AtLoop, Exited}
      ensures pc == AtLoop ==> nevents == 0 || (nevents < 0 && old(nevents) < 0)
      ensures gone <==> pc == Exited
      ensures counterBh - old(counterBh) == old(nevents) + Count(run, Publish(cfg)) - nevents
      ensures forall a <- [TopFirst, Stop] :: Count(run, a) == Count(Bursts(env, used), a)
      ensures env == [] ==>
                && (forall k :: 0 <= k < |run| ==> !Foreign(run[k]))
                && SameTops(old(View(Top(cfg))), View(pc))
                && gone == old(stop) && (asleep <==> !gone && (cfg.onFlag || old(nevents) == 0))
                && (pc == AtLoop && old(nevents) >= 0 ==> counterBh == old(counterBh) + old(nevents))
    {
      ghost var start := View(Top(cfg));
      var out;
      used, run, out := Wait(env, start);
      gone, pc := false, AtTest;
      if out {
        used, run, gone := Work(env, used, start, run);
        pc := if gone then Exited else AtLoop;
      }
      Balance(cfg, start, run, View(pc), Bursts(env, used));
    }

    /** The test at the end of the outer loop. */
    method LoopTest(ghost start: State, ghost run: seq<Step>, ghost met: seq<Step>)
      returns (leave: bool, ghost run': seq<Step>)
      requires At(AtLoop, start, run, met) && Running()
      ensures leave == stop && At(if leave then Exited else Top(cfg), start, run', met)
    {
      leave, run' := stop, run + [Loop];
      Own(cfg, start, run, View(AtLoop), met, Loop, View(if leave then Exited else Top(cfg)));
    }

    /** One more pass of the loop. */
    method PassMore(envs: seq<seq<seq<Step>>>, ghost start: State, ghost run: seq<Step>, ghost used: seq<nat>, k: nat)
      returns (ghost run': seq<Step>, ghost pc: Pc, gone: bool, ghost used': seq<nat>)
      requires Within(envs, used) && k == |used| < |envs|
      requires At(Top(cfg), start, run, Met(envs, used)) && Running()
      modifies this
      ensures Within(envs, used') && |used'| == k + 1 && At(pc, start, run', Met(envs, used'))
      ensures if asleep then pc == AtTest && used'[k] == |envs[k]| else Running() && pc in {AtLoop, Exited}
      ensures gone <==> pc == Exited
    {
      ghost var was, pass := View(Top(cfg)), [];
      var n;
      pass, pc, gone, n := Pass(envs[k]);
      used', run' := used + [n], run + pass;
      Joined(cfg, start, run, was, Met(envs, used), pass, View(pc), Bursts(envs[k], n));
      MetMore(envs, used, n, used');
    }

    /** The outer loop, one pass for each entry of `envs` at most: the whole life of the
        thread so far is a run that consists of its own steps and of those of the
        bursts it has met.  It ends asleep with nothing more to come, gone, or after
        the last of `envs`. */
    method Life(envs: seq<seq<seq<Step>>>) returns (ghost run: seq<Step>, ghost pc: Pc, ghost used: seq<nat>)
      requires Running()
      modifies this
      ensures Within(envs, used)
      ensures Heard(cfg, old(View(Top(cfg))), run, View(pc), Met(envs, used))
      ensures if asleep then pc == AtTest else Running() && pc in {Top(cfg), Exited}
      ensures asleep ==> used != [] && used[|used| - 1] == |envs[|used| - 1]|
      ensures pc == Top(cfg) && Running() ==> |used| == |envs|
      ensures counterBh - old(counterBh) == old(nevents) + Count(run, Publish(cfg)) - nevents
      ensures forall a <- [TopFirst, Stop] :: Count(run, a) == Count(Met(envs, used), a)
    {
      ghost var start := View(Top(cfg));
      run, pc, used := [], Top(cfg), [];
      HearsNothing(Machine(cfg), ThreadSteps(), ForeignSteps(), start);
      for k := 0 to |envs|
        invariant Within(envs, used) && |used| == k
        invariant At(pc, start, run, Met(envs, used)) && Running() && pc == Top(cfg)
      {
        var gone;
        run, pc, gone, used := PassMore(envs, start, run, used, k);
        if asleep || gone {
          break;
        }
        var leave;
        leave, run := LoopTest(start, run, Met(envs, used));
        pc := if leave then Exited else Top(cfg);
        if leave {
          break;
        }
      }
      Balance(cfg, start, run, View(pc), Met(envs, used));
    }
  }

  lemma DecNext(c: Config, s: State, t: State)
    requires s.pc == AtDec && t.nevents == s.nevents - 1
    requires t == s.(nevents := t.nevents, pc := t.pc, drains := t.drains)
    requires if t.nevents == 0 then t.pc == AtLoop && t.drains == s.drains + 1
             else t.pc == (if c.tallies then AtTally else AtInc) && t.drains == s.drains
    ensures Next(c, s, Dec) == Some(t)
  {
  }
}
