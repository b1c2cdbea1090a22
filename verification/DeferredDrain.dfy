/** Interrupt handlers that count an event and leave the work to a deferred
    function which catches up on every event it finds.  Four drivers are
    instances of one transition system, one step per atomic operation:

    - SOLUTIONS/s_20/lab3_one_tasklet_improved.c  TASKLET_IMPROVED
    - 20_LAB3_tasklet_smart/Nirq.c                TASKLET_SMART
    - SOLUTIONS/s_20/lab6_one_threaded.c          ONE_THREADED
    - 20_LAB6/Nirq.c                              STUDENT_THREADED

    Kernel primitives taken as given: a tasklet has a "scheduled" bit and a
    threaded handler has a wake bit; the bit is cleared before the function runs
    and the function never overlaps itself.  Any number of top halves may be in
    flight at any point.  Counters are mathematical integers.
 */
module DeferredDrain {
  import opened Options
  import opened Runs

  /** Which counter the top half increments first. */
  datatype Order = CountFirst | EventFirst

  /** `guarded`: the bottom half returns at once when there is nothing to do.
      `tallies`: the bottom half counts the extra events in `catchup`. */
  datatype Config = Config(order: Order, guarded: bool, tallies: bool)

  const TASKLET_IMPROVED := Config(CountFirst, true, true)
  const TASKLET_SMART := Config(EventFirst, true, false)
  const ONE_THREADED := Config(CountFirst, false, false)
  const STUDENT_THREADED := Config(EventFirst, false, false)

  /** Where the bottom half stands: about to test the guard, to increment
      counter_bh, to decrement nevents, to increment catchup, or not running. */
  datatype BottomPc = Idle | AtGuard | AtInc | AtDec | AtTally

  /** `half` top halves have done the first increment only; `counted` have done
      both and have yet to schedule the bottom half.  Top halves carry no data of
      their own, so counting them by position loses nothing.  `drains` is a
      history variable: the drains that ran until nevents reached zero. */
  datatype State = State(
    th: int, bh: int, nevents: int, catchup: int, drains: nat,
    scheduled: bool, half: nat, counted: nat, pc: BottomPc)

  datatype Step =
    | TopFirst | TopSecond | TopSchedule
    | Enter | Guard | IncBh | Dec | Tally

  function Init(): State {
    State(0, 0, 0, 0, 0, false, 0, 0, Idle)
  }

  function CountEvent(s: State): State {
    s.(nevents := s.nevents + 1)
  }

  function CountTop(s: State): State {
    s.(th := s.th + 1)
  }

  /** One atomic operation, or None when it is not the turn of that operation. */
  function Next(c: Config, s: State, a: Step): Option<State> {
    match a
    case TopFirst =>
      var s' := if c.order.CountFirst? then CountTop(s) else CountEvent(s);
      Some(s'.(half := s.half + 1))
    case TopSecond =>
      if s.half == 0 then None else
      var s' := if c.order.CountFirst? then CountEvent(s) else CountTop(s);
      Some(s'.(half := s.half - 1, counted := s.counted + 1))
    case TopSchedule =>
      if s.counted == 0 then None else
      Some(s.(counted := s.counted - 1, scheduled := true))
    case Enter =>
      if s.pc != Idle || !s.scheduled then None else
      Some(s.(scheduled := false, pc := if c.guarded then AtGuard else AtInc))
    case Guard =>
      if s.pc != AtGuard then None else
      Some(s.(pc := if s.nevents <= 0 then Idle else AtInc))
    case IncBh =>
      if s.pc != AtInc then None else
      Some(s.(bh := s.bh + 1, pc := AtDec))
    case Dec =>
      if s.pc != AtDec then None else
      var s' := s.(nevents := s.nevents - 1);
      if s'.nevents == 0 then Some(s'.(pc := Idle, drains := s.drains + 1))
      else Some(s'.(pc := if c.tallies then AtTally else AtInc))
    case Tally =>
      if s.pc != AtTally then None else
      Some(s.(catchup := s.catchup + 1, pc := AtInc))
  }

  function Machine(c: Config): (State, Step) -> Option<State> {
    (s, a) => Next(c, s, a)
  }

  ghost predicate Reachable(c: Config, s: State) {
    Reaches(Machine(c), Init(), s)
  }

  /** One more step of a run being spelled out. */
  lemma Go(c: Config, s: State, a: Step) returns (t: State)
    requires Reachable(c, s) && Next(c, s, a).Some?
    ensures Reachable(c, t) && Next(c, s, a) == Some(t)
  {
    ReachesNext(Machine(c), Init(), s, a);
    t := Next(c, s, a).value;
  }

  // ---------------------------------------------------------------- invariants

  /** Top halves that have counted their event but are still short of the other
      increment, signed: they make counter_th run ahead or behind. */
  function Skew(c: Config, s: State): int {
    if c.order.CountFirst? then s.half as int else 0 - s.half
  }

  /** Every event is in exactly one place: handled, or still in nevents.  While
      the bottom half is between its two updates one event is in both. */
  ghost predicate Conserved(c: Config, s: State) {
    s.th - Skew(c, s) == s.bh + s.nevents - (if s.pc == AtDec then 1 else 0)
  }

  /** Somebody is always committed to looking at a pending event. */
  ghost predicate Covered(c: Config, s: State) {
    s.nevents > 0 ==>
      s.scheduled || s.pc != Idle || s.counted > 0 || (c.order.EventFirst? && s.half > 0)
  }

  ghost predicate Tallied(c: Config, s: State) {
    c.tallies ==> s.bh == s.catchup + s.drains + (if s.pc in {AtDec, AtTally} then 1 else 0)
  }

  /** nevents cannot be negative at rest; under the guard it never is, and the
      drain is inside the loop only while an event is left. */
  ghost predicate Bounded(c: Config, s: State) {
    && (s.pc == Idle ==> s.nevents >= 0)
    && (s.pc == AtTally ==> c.tallies)
    && (s.pc == AtGuard ==> c.guarded)
    && (c.guarded ==> s.nevents >= 0)
    && (c.guarded && s.pc in {AtInc, AtDec, AtTally} ==> s.nevents >= 1)
  }

  ghost predicate Inv(c: Config, s: State) {
    Conserved(c, s) && Covered(c, s) && Tallied(c, s) && Bounded(c, s)
  }

  lemma InvNext(c: Config, s: State, a: Step)
    requires Inv(c, s) && Next(c, s, a).Some?
    ensures Inv(c, Next(c, s, a).value)
  {
  }

  lemma InvRun(c: Config, s: State, run: seq<Step>)
    requires Inv(c, s) && Exec(Machine(c), s, run).Some?
    ensures Inv(c, Exec(Machine(c), s, run).value)
  {
    forall t, a | Inv(c, t) && Next(c, t, a).Some? ensures Inv(c, Next(c, t, a).value) {
      InvNext(c, t, a);
    }
    Preserved(Machine(c), t => Inv(c, t), a => true, s, run);
  }

  /** Conservation, cover, catch-up accounting and bounds hold after every run. */
  lemma EveryRunKeepsInv(c: Config, s: State)
    requires Reachable(c, s)
    ensures Inv(c, s)
  {
    var run :| Exec(Machine(c), Init(), run) == Some(s);
    InvRun(c, Init(), run);
  }

  ghost predicate Quiescent(s: State) {
    s.pc == Idle && !s.scheduled && s.half == 0 && s.counted == 0
  }

  /** No event is lost: at rest everything counted has been handled, in all four
      drivers, and the catch-up statistic is what exceeded one event per drain. */
  lemma NoEventLostAtRest(c: Config, s: State)
    requires Reachable(c, s) && Quiescent(s)
    ensures s.nevents == 0 && s.bh == s.th
    ensures c.tallies ==> s.catchup == s.bh - s.drains
  {
    EveryRunKeepsInv(c, s);
  }

  // ------------------------------------------------------ what the guard buys

  /** Both increments of one top half, up to its scheduling of the bottom half. */
  lemma GoCount(c: Config, s: State) returns (t: State)
    requires Reachable(c, s)
    ensures Reachable(c, t)
    ensures t == s.(th := s.th + 1, nevents := s.nevents + 1, counted := s.counted + 1)
  {
    t := Go(c, s, TopFirst);
    t := Go(c, t, TopSecond);
  }

  /** One pass of the loop that leaves events behind. */
  lemma GoPass(c: Config, s: State) returns (t: State)
    requires Reachable(c, s) && s.pc == AtDec && s.nevents != 1
    ensures Reachable(c, t)
    ensures t == s.(nevents := s.nevents - 1, pc := AtInc,
                    catchup := if c.tallies then s.catchup + 1 else s.catchup)
  {
    t := Go(c, s, Dec);
    if c.tallies {
      t := Go(c, t, Tally);
    }
  }

  /** The first interrupt is complete and its drain has handled it once. */
  lemma FirstHandled(c: Config) returns (s: State)
    ensures Reachable(c, s) && s == State(1, 1, 1, 0, 0, false, 0, 0, AtDec)
  {
    ReachesItself(Machine(c), Init());
    s := GoCount(c, Init());
    s := Go(c, s, TopSchedule);
    s := Go(c, s, Enter);
    if c.guarded {
      s := Go(c, s, Guard);
    }
    s := Go(c, s, IncBh);
  }

  /** An unguarded drain can be entered with nothing to do: an event counted while
      a drain is running is consumed by it, and its own wake-up comes too late.
      Only one top half is ever in flight in this run. */
  lemma EntryWithNothingToDo(c: Config) returns (s: State)
    requires !c.guarded
    ensures Reachable(c, s) && s.pc == AtInc && s.nevents == 0
    ensures s.half == 0 && s.counted == 0 && !s.scheduled && s.bh == s.th
  {
    s := FirstHandled(c);
    s := GoCount(c, s);
    s := GoPass(c, s);
    s := Go(c, s, IncBh);
    s := Go(c, s, Dec);
    s := Go(c, s, TopSchedule);
    s := Go(c, s, Enter);
  }

  /** nevents stays non-negative in every run exactly when the guard is there. */
  lemma NonNegativeIffGuarded(c: Config)
    ensures (forall s | Reachable(c, s) :: s.nevents >= 0) <==> c.guarded
  {
    if c.guarded {
      forall s | Reachable(c, s) ensures s.nevents >= 0 {
        EveryRunKeepsInv(c, s);
      }
    } else {
      var s := EntryWithNothingToDo(c);
      s := Go(c, s, IncBh);
      s := Go(c, s, Dec);
      assert s.nevents == -1;
    }
  }

  /** The handled count never runs ahead of the interrupt count exactly when the
      drain is guarded and the top half counts the interrupt first. */
  lemma NeverAheadIff(c: Config)
    ensures (forall s | Reachable(c, s) :: s.bh <= s.th) <==> (c.guarded && c.order.CountFirst?)
  {
    if c.guarded && c.order.CountFirst? {
      forall s | Reachable(c, s) ensures s.bh <= s.th {
        EveryRunKeepsInv(c, s);
      }
    } else {
      var s := AheadWitness(c);
    }
  }

  lemma AheadWitness(c: Config) returns (s: State)
    requires !(c.guarded && c.order.CountFirst?)
    ensures Reachable(c, s) && s.bh > s.th
  {
    if c.guarded {
      s := FirstHandled(c);
      s := Go(c, s, TopFirst);
      s := GoPass(c, s);
      s := Go(c, s, IncBh);
    } else {
      s := EntryWithNothingToDo(c);
      s := Go(c, s, IncBh);
    }
  }
}
