/** The drivers of DeferredDrain as an object: the atomics are fields, the top half
    is one method per atomic operation, and the bottom half is the loop of the
    source, with other processors interfering between any two operations. */
module DrainDriver {
  import opened Options
  import opened Runs
  import opened DeferredDrain
  import opened DrainProgress
  import opened Hearing

  // --------------------------------------- the bottom half and what comes in between

  predicate IsTop(a: Step) {
    a in {TopFirst, TopSecond, TopSchedule}
  }

  predicate IsBottom(a: Step) {
    a in {Guard, IncBh, Dec, Tally}
  }

  function BottomSteps(): (State, Step) -> bool {
    (s: State, a: Step) => IsBottom(a)
  }

  function TopSteps(): (State, Step) -> bool {
    (s: State, a: Step) => IsTop(a)
  }

  /** `run` leads from s to t and consists of steps of the bottom half and of those of
      `acts` that are top halves and had their turn when they came, in this order. */
  ghost predicate Heard(c: Config, s: State, run: seq<Step>, t: State, acts: seq<Step>) {
    Hears(Machine(c), BottomSteps(), TopSteps(), s, run, t, acts)
  }

  lemma Own(c: Config, s: State, run: seq<Step>, m: State, acts: seq<Step>, a: Step, t: State)
    requires Heard(c, s, run, m, acts) && IsBottom(a) && Next(c, m, a) == Some(t)
    ensures Heard(c, s, run + [a], t, acts)
  {
    HearsOwn(Machine(c), BottomSteps(), TopSteps(), s, run, m, acts, a, t);
  }

  lemma Taken(c: Config, s: State, run: seq<Step>, m: State, acts: seq<Step>, a: Step, t: State)
    requires Heard(c, s, run, m, acts) && IsTop(a) && Next(c, m, a) == Some(t)
    ensures Heard(c, s, run + [a], t, acts + [a])
  {
    HearsTaken(Machine(c), BottomSteps(), TopSteps(), s, run, m, acts, a, t);
  }

  lemma Skipped(c: Config, s: State, run: seq<Step>, m: State, acts: seq<Step>, a: Step)
    requires Heard(c, s, run, m, acts) && !(IsTop(a) && Next(c, m, a).Some?)
    ensures Heard(c, s, run, m, acts + [a])
  {
    HearsMissed(Machine(c), BottomSteps(), TopSteps(), s, run, m, acts, a);
  }

  lemma HeardRuns(c: Config, s: State, run: seq<Step>, t: State, acts: seq<Step>)
    requires Heard(c, s, run, t, acts)
    ensures Exec(Machine(c), s, run) == Some(t) && NoReentry(run)
  {
    HearsExec(Machine(c), BottomSteps(), TopSteps(), s, run, t, acts);
    HearsSteps(Machine(c), BottomSteps(), TopSteps(), s, run, t, acts, a => a != Enter);
  }

  /** Exactly the interrupts that came have begun. */
  lemma AllTaken(c: Config, s: State, run: seq<Step>, t: State, acts: seq<Step>)
    requires Heard(c, s, run, t, acts)
    ensures Count(run, TopFirst) == Count(acts, TopFirst)
  {
    HearsEach(Machine(c), BottomSteps(), TopSteps(), s, run, t, acts, TopFirst);
  }

  /** Left alone, the bottom half counts and schedules nothing. */
  lemma QuietRun(c: Config, s: State, run: seq<Step>, t: State)
    requires Heard(c, s, run, t, [])
    ensures t.th == s.th && t.scheduled == s.scheduled && t.half == s.half && t.counted == s.counted
    ensures (forall k :: 0 <= k < |run| ==> !IsTop(run[k])) && Count(run, Publish(c)) == 0
  {
    NothingHeard(Machine(c), BottomSteps(), TopSteps(), s, run, t);
    QuietSteps(c, s, run);
  }

  lemma {:induction false} QuietSteps(c: Config, s: State, run: seq<Step>)
    requires Exec(Alone(Machine(c), BottomSteps()), s, run).Some?
    ensures var t := Exec(Alone(Machine(c), BottomSteps()), s, run).value;
            t.th == s.th && t.scheduled == s.scheduled && t.half == s.half && t.counted == s.counted
    ensures (forall k :: 0 <= k < |run| ==> !IsTop(run[k])) && Count(run, Publish(c)) == 0
  {
    if run != [] {
      QuietSteps(c, s, run[..|run| - 1]);
    }
  }

  class Driver {
    const cfg: Config
    var counterTh: int
    var counterBh: int
    var nevents: int
    var catchup: int
    var scheduled: bool
    var half: nat
    var counted: nat
    ghost var drains: nat

    constructor (cfg: Config)
      ensures this.cfg == cfg && View(Idle) == Init()
    {
      this.cfg := cfg;
      counterTh, counterBh, nevents, catchup := 0, 0, 0, 0;
      scheduled, half, counted, drains := false, 0, 0, 0;
    }

    /** The state of the transition system while the bottom half stands at pc. */
    ghost function View(pc: BottomPc): State
      reads this
    {
      State(counterTh, counterBh, nevents, catchup, drains, scheduled, half, counted, pc)
    }

    method FirstIncrement(ghost pc: BottomPc)
      modifies this
      ensures Next(cfg, old(View(pc)), TopFirst) == Some(View(pc))
      ensures OnlyPublished()
    {
      if cfg.order == CountFirst {
        counterTh := counterTh + 1;
      } else {
        nevents := nevents + 1;
      }
      half := half + 1;
    }

    method SecondIncrement(ghost pc: BottomPc)
      requires half > 0
      modifies this
      ensures Next(cfg, old(View(pc)), TopSecond) == Some(View(pc))
      ensures OnlyPublished()
    {
      if cfg.order == CountFirst {
        nevents := nevents + 1;
      } else {
        counterTh := counterTh + 1;
      }
      half, counted := half - 1, counted + 1;
    }

    method Schedule(ghost pc: BottomPc)
      requires counted > 0
      modifies this
      ensures Next(cfg, old(View(pc)), TopSchedule) == Some(View(pc))
      ensures OnlyPublished()
    {
      counted, scheduled := counted - 1, true;
    }

    /** The bottom half stands at pc after the run, having met with these acts. */
    ghost predicate At(pc: BottomPc, start: State, run: seq<Step>, acts: seq<Step>)
      reads this
    {
      Heard(cfg, start, run, View(pc), acts)
    }

    /** What top halves leave alone. */
    twostate predicate OnlyPublished()
      reads this
    {
      nevents >= old(nevents) && counterBh == old(counterBh) && catchup == old(catchup)
    }

    /** One step of a top half, if it is its turn. */
    method Other(a: Step, ghost pc: BottomPc) returns (took: bool)
      modifies this
      ensures took <==> IsTop(a) && Next(cfg, old(View(pc)), a).Some?
      ensures took ==> Next(cfg, old(View(pc)), a) == Some(View(pc))
      ensures !took ==> View(pc) == old(View(pc))
      ensures OnlyPublished()
    {
      took := true;
      if a == TopFirst {
        FirstIncrement(pc);
      } else if a == TopSecond && half > 0 {
        SecondIncrement(pc);
      } else if a == TopSchedule && counted > 0 {
        Schedule(pc);
      } else {
        took := false;
      }
    }

    /** Other processors carry out the listed steps of top halves, skipping those
        that are not a top half's turn. */
    method Interfere(acts: seq<Step>, ghost pc: BottomPc,
                     ghost start: State, ghost run: seq<Step>, ghost met: seq<Step>)
      returns (ghost run': seq<Step>)
      requires At(pc, start, run, met)
      modifies this
      ensures At(pc, start, run', met + acts) && OnlyPublished()
    {
      run' := run;
      ghost var so := met;
      for k := 0 to |acts|
        invariant so == met + acts[..k] && At(pc, start, run', so) && OnlyPublished()
      {
        ghost var was := View(pc);
        var took := Other(acts[k], pc);
        if took {
          Taken(cfg, start, run', was, so, acts[k], View(pc));
          run' := run' + [acts[k]];
        } else {
          Skipped(cfg, start, run', was, so, acts[k]);
        }
        PrefixMore(met, acts, k, so);
        so := so + [acts[k]];
      }
      PrefixAll(met, acts);
    }

    /** The next burst of interference, if any is left. */
    method Pause(env: seq<seq<Step>>, e: nat, ghost pc: BottomPc, ghost start: State, ghost run: seq<Step>)
      returns (e': nat, ghost run': seq<Step>)
      requires e <= |env| && At(pc, start, run, Bursts(env, e))
      modifies this
      ensures e' == (if e < |env| then e + 1 else e) && At(pc, start, run', Bursts(env, e'))
      ensures OnlyPublished() && (e == |env| ==> nevents == old(nevents))
    {
      e', run' := e, run;
      if e < |env| {
        run' := Interfere(env[e], pc, start, run, Bursts(env, e));
        e' := e + 1;
      }
    }

    /** The kernel runs the bottom half: it clears the bit first. */
    method Dispatch()
      requires scheduled
      modifies this
      ensures Next(cfg, old(View(Idle)), Enter) == Some(View(if cfg.guarded then AtGuard else AtInc))
      ensures !scheduled && nevents == old(nevents) && counterBh == old(counterBh)
    {
      scheduled := false;
    }

    /** atomic_inc(&counter_bh) */
    method CountHandled(ghost start: State, ghost run: seq<Step>, ghost met: seq<Step>) returns (ghost run': seq<Step>)
      requires At(AtInc, start, run, met)
      modifies this
      ensures At(AtDec, start, run', met)
      ensures counterBh == old(counterBh) + 1 && nevents == old(nevents) && catchup == old(catchup)
    {
      ghost var was := View(AtInc);
      counterBh := counterBh + 1;
      Own(cfg, start, run, was, met, IncBh, View(AtDec));
      run' := run + [IncBh];
    }

    /** atomic_dec_and_test(&nevents) */
    method DecAndTest(ghost start: State, ghost run: seq<Step>, ghost met: seq<Step>)
      returns (done: bool, ghost run': seq<Step>)
      requires At(AtDec, start, run, met)
      modifies this
      ensures nevents == old(nevents) - 1 && done == (nevents == 0)
      ensures counterBh == old(counterBh) && catchup == old(catchup)
      ensures At(if done then Idle else if cfg.tallies then AtTally else AtInc, start, run', met)
    {
      ghost var was := View(AtDec);
      nevents := nevents - 1;
      done := nevents == 0;
      if done {
        drains := drains + 1;
      }
      Own(cfg, start, run, was, met, Dec, View(if done then Idle else if cfg.tallies then AtTally else AtInc));
      run' := run + [Dec];
    }

    /** atomic_inc(&catchup) */
    method CountCatchup(ghost start: State, ghost run: seq<Step>, ghost met: seq<Step>) returns (ghost run': seq<Step>)
      requires At(AtTally, start, run, met)
      modifies this
      ensures At(AtInc, start, run', met)
      ensures counterBh == old(counterBh) && nevents == old(nevents) && catchup == old(catchup) + 1
    {
      ghost var was := View(AtTally);
      catchup := catchup + 1;
      Own(cfg, start, run, was, met, Tally, View(AtInc));
      run' := run + [Tally];
    }

    /** if (atomic_read(&nevents) <= 0) return, where the driver has it. */
    method TestGuard(ghost start: State, ghost run: seq<Step>, ghost met: seq<Step>)
      returns (leave: bool, ghost run': seq<Step>)
      requires At(if cfg.guarded then AtGuard else AtInc, start, run, met)
      ensures leave == (cfg.guarded && nevents <= 0) && At(if leave then Idle else AtInc, start, run', met)
    {
      leave, run' := cfg.guarded && nevents <= 0, run;
      if cfg.guarded {
        Own(cfg, start, run, View(AtGuard), met, Guard, View(if leave then Idle else AtInc));
        run' := run + [Guard];
      }
    }

    /** The bottom half (t_fun, isr_bottom, thread_fun), under interference.  It is a
        run from its entry to its exit that consists of its own steps and of the top
        halves of the first `used` bursts; it handles what it found and what was
        published meanwhile, and tallies all but one.  With nothing in between it
        handles exactly what it found and touches nothing of the top half.  An
        unguarded loop entered with nothing may outlast the interference; `spinning`
        says that it does, and LoopExitsIff that it can then not leave by itself. */
    method BottomHalf(env: seq<seq<Step>>) returns (ghost run: seq<Step>, spinning: bool, used: nat)
      modifies this
      ensures used <= |env| && (spinning ==> used == |env|)
      ensures var start := old(View(if cfg.guarded then AtGuard else AtInc));
              Heard(cfg, start, run, View(if spinning then AtInc else Idle), Bursts(env, used))
      ensures var start := old(View(if cfg.guarded then AtGuard else AtInc));
              Exec(Machine(cfg), start, run) == Some(View(if spinning then AtInc else Idle)) && NoReentry(run)
      ensures nevents <= 0 && (!spinning && counterBh != old(counterBh) ==> nevents == 0)
      ensures old(nevents) >= (if cfg.guarded then 0 else 1) ==> nevents == 0
      ensures spinning ==> !cfg.guarded && old(nevents) <= 0
      ensures counterBh - old(counterBh) == old(nevents) + Count(run, Publish(cfg)) - nevents
      ensures Count(run, TopFirst) == Count(Bursts(env, used), TopFirst)
      ensures var handled := counterBh - old(counterBh);
              cfg.tallies ==> catchup - old(catchup) == handled - (if spinning || handled == 0 then 0 else 1)
      ensures env == [] ==>
                && (forall k :: 0 <= k < |run| ==> !IsTop(run[k]))
                && counterTh == old(counterTh) && scheduled == old(scheduled)
                && half == old(half) && counted == old(counted)
                && (old(nevents) >= (if cfg.guarded then 0 else 1) ==>
                      counterBh == old(counterBh) + old(nevents))
    {
      ghost var start := View(if cfg.guarded then AtGuard else AtInc);
      run, spinning, used := [], false, 0;
      HearsNothing(Machine(cfg), BottomSteps(), TopSteps(), start);
      used, run := Pause(env, used, start.pc, start, run);
      var leave;
      leave, run := TestGuard(start, run, Bursts(env, used));
      if leave {
        Balance(cfg, start, run, View(Idle), env, used);
        return;
      }
      while true
        invariant used <= |env| && At(AtInc, start, run, Bursts(env, used))
        invariant cfg.guarded || old(nevents) >= 1 ==> nevents >= 1
        invariant counterBh >= old(counterBh)
        invariant cfg.tallies ==> catchup - old(catchup) == counterBh - old(counterBh)
        decreases |env| - used, if nevents > 0 then nevents else 0
      {
        if used == |env| && nevents <= 0 {
          spinning := true;
          break;
        }
        run := CountHandled(start, run, Bursts(env, used));
        used, run := Pause(env, used, AtDec, start, run);
        var done;
        done, run := DecAndTest(start, run, Bursts(env, used));
        if done {
          break;
        }
        if cfg.tallies {
          used, run := Pause(env, used, AtTally, start, run);
          run := CountCatchup(start, run, Bursts(env, used));
        }
        used, run := Pause(env, used, AtInc, start, run);
      }
      Balance(cfg, start, run, View(if spinning then AtInc else Idle), env, used);
    }
  }

  /** The books of a whole call. */
  lemma Balance(c: Config, s: State, run: seq<Step>, t: State, env: seq<seq<Step>>, used: nat)
    requires s.pc in {AtGuard, AtInc} && t.pc in {AtInc, Idle} && used <= |env|
    requires Heard(c, s, run, t, Bursts(env, used))
    ensures Exec(Machine(c), s, run) == Some(t) && NoReentry(run)
    ensures t.bh - s.bh == s.nevents + Count(run, Publish(c)) - t.nevents
    ensures Count(run, TopFirst) == Count(Bursts(env, used), TopFirst)
    ensures env == [] ==>
              && (forall k :: 0 <= k < |run| ==> !IsTop(run[k])) && Count(run, Publish(c)) == 0
              && t.th == s.th && t.scheduled == s.scheduled && t.half == s.half && t.counted == s.counted
  {
    HeardRuns(c, s, run, t, Bursts(env, used));
    Paired(c, s, run);
    AllTaken(c, s, run, t, Bursts(env, used));
    if env == [] {
      QuietRun(c, s, run, t);
    }
  }

  /** Increments and decrements of the bottom half pair up over a whole call. */
  lemma {:induction false} Paired(c: Config, s: State, run: seq<Step>)
    requires s.pc in {AtGuard, AtInc} && NoReentry(run) && Exec(Machine(c), s, run).Some?
    ensures var t := Exec(Machine(c), s, run).value;
            && Count(run, IncBh) == Count(run, Dec) + (if t.pc == AtDec then 1 else 0)
            && t.bh == s.bh + Count(run, IncBh)
            && t.nevents == s.nevents + Count(run, Publish(c)) - Count(run, Dec)
  {
    Accounting(c, s, run);
    if run != [] {
      Paired(c, s, run[..|run| - 1]);
    }
  }
}
