/** The counter-draining handlers against the one-object-per-event handler: which
    of them cannot be told apart from it by watching counter_th and counter_bh. */
module DrainRefinement {
  import opened Options
  import opened Runs
  import D = DeferredDrain
  import W = EventWork

  /** One value of (counter_th, counter_bh). */
  type Reading = (int, int)

  function DrainReading(s: D.State): Reading {
    (s.th, s.bh)
  }

  function WorkReading(w: W.State): Reading {
    (w.th, w.bh)
  }

  /** Some run gets to state s, having shown exactly these readings on the way. */
  ghost predicate DrainAt(c: D.Config, s: D.State, seen: seq<Reading>) {
    Shows(D.Machine(c), DrainReading, D.Init(), s, seen)
  }

  ghost predicate WorkAt(w: W.State, seen: seq<Reading>) {
    Shows(W.Machine(), WorkReading, W.Init(), w, seen)
  }

  ghost predicate DrainShows(c: D.Config, seen: seq<Reading>) {
    exists s :: DrainAt(c, s, seen)
  }

  ghost predicate WorkShows(seen: seq<Reading>) {
    exists w :: WorkAt(w, seen)
  }

  lemma DrainQuiet(c: D.Config, s: D.State, seen: seq<Reading>, a: D.Step, t: D.State)
    requires DrainAt(c, s, seen) && D.Next(c, s, a) == Some(t) && t.th == s.th && t.bh == s.bh
    ensures DrainAt(c, t, seen)
  {
    ShowsQuiet(D.Machine(c), DrainReading, D.Init(), s, seen, a, t);
  }

  lemma DrainShow(c: D.Config, s: D.State, seen: seq<Reading>, a: D.Step, t: D.State, seen': seq<Reading>)
    requires DrainAt(c, s, seen) && D.Next(c, s, a) == Some(t) && (t.th != s.th || t.bh != s.bh)
    requires seen' == seen + [(t.th, t.bh)]
    ensures DrainAt(c, t, seen')
  {
    ShowsNew(D.Machine(c), DrainReading, D.Init(), s, seen, a, t);
  }

  lemma WorkStep(w: W.State, seen: seq<Reading>, a: W.Step, v: W.State)
    requires WorkAt(w, seen) && W.Next(w, a) == Some(v)
    ensures WorkAt(v, Append(seen, WorkReading(w), WorkReading(v)))
  {
    ShowsStep(W.Machine(), WorkReading, W.Init(), w, seen, a, v);
  }

  // ------------------------------------------- every drain run is a work run

  /** nevents stands for the queued objects; the event being handled between the
      two updates of the bottom half is an object about to be freed. */
  ghost predicate Matches(s: D.State, w: W.State) {
    var handling := if s.pc == D.AtDec then 1 else 0;
    && w.th == s.th && w.bh == s.bh
    && W.Number(w.objs, W.Fresh) == 0
    && W.Number(w.objs, W.Held) == s.half
    && W.Number(w.objs, W.Queued) == s.nevents - handling
    && W.Number(w.objs, W.Taken) == 0
    && W.Number(w.objs, W.Spent) == handling
  }

  lemma Moved(s: W.State, a: W.Step, t: W.State)
    requires W.Next(s, a) == Some(t) && !a.Alloc?
    ensures forall g :: W.Number(t.objs, g) == W.Number(s.objs, g)
              - (if s.objs[a.i] == g then 1 else 0) + (if t.objs[a.i] == g then 1 else 0)
  {
    forall g {
      W.NumberAfter(s.objs, a.i, t.objs[a.i], g);
    }
  }

  lemma AllocAndCount(w: W.State) returns (m: W.State, v: W.State)
    ensures W.Next(w, W.Alloc) == Some(m) && W.Next(m, W.CountTop(|w.objs|)) == Some(v)
    ensures (m.th, m.bh) == (w.th, w.bh) && (v.th, v.bh) == (w.th + 1, w.bh)
    ensures forall g :: W.Number(v.objs, g) == W.Number(w.objs, g) + (if g == W.Held then 1 else 0)
  {
    m := W.Next(w, W.Alloc).value;
    forall g {
      W.NumberAlloc(w.objs, g);
    }
    v := W.Next(m, W.CountTop(|w.objs|)).value;
    Moved(m, W.CountTop(|w.objs|), v);
  }

  lemma TakeAndHandle(w: W.State, i: nat) returns (m: W.State, v: W.State)
    requires W.At(w, i, W.Queued)
    ensures W.Next(w, W.Take(i)) == Some(m) && W.Next(m, W.Handle(i)) == Some(v)
    ensures (m.th, m.bh) == (w.th, w.bh) && (v.th, v.bh) == (w.th, w.bh + 1)
    ensures forall g :: W.Number(v.objs, g) == W.Number(w.objs, g)
              - (if g == W.Queued then 1 else 0) + (if g == W.Spent then 1 else 0)
  {
    m := W.Next(w, W.Take(i)).value;
    Moved(w, W.Take(i), m);
    v := W.Next(m, W.Handle(i)).value;
    Moved(m, W.Handle(i), v);
  }

  /** The work steps that answer one drain step: at most two, of which the last
      carries the visible change. */
  lemma Answer(c: D.Config, s: D.State, a: D.Step, t: D.State, w: W.State)
    returns (steps: seq<W.Step>, m: W.State, v: W.State)
    requires c.guarded && c.order.CountFirst? && D.Bounded(c, s) && D.Next(c, s, a) == Some(t)
    requires Matches(s, w)
    ensures Matches(t, v) && |steps| <= 2
    ensures |steps| == 0 ==> v == w
    ensures |steps| == 1 ==> W.Next(w, steps[0]) == Some(v)
    ensures |steps| == 2 ==> W.Next(w, steps[0]) == Some(m) && W.Next(m, steps[1]) == Some(v)
                             && (m.th, m.bh) == (w.th, w.bh)
  {
    steps, m, v := [], w, w;
    match a {
      case TopFirst =>
        m, v := AllocAndCount(w);
        steps := [W.Alloc, W.CountTop(|w.objs|)];
      case TopSecond =>
        var i := W.Pick(w.objs, W.Held);
        v := W.Next(w, W.Queue(i)).value;
        Moved(w, W.Queue(i), v);
        steps := [W.Queue(i)];
      case IncBh =>
        var i := W.Pick(w.objs, W.Queued);
        m, v := TakeAndHandle(w, i);
        steps := [W.Take(i), W.Handle(i)];
      case Dec =>
        var i := W.Pick(w.objs, W.Spent);
        v := W.Next(w, W.Free(i)).value;
        Moved(w, W.Free(i), v);
        steps := [W.Free(i)];
      case _ =>
    }
  }

  /** Forward simulation: every run of the guarded tasklet is, counter reading by
      counter reading, a run of the version with one object per event, and nevents
      is the number of objects pending there. */
  lemma {:induction false} DrainRefinesWork(c: D.Config, run: seq<D.Step>) returns (w: W.State)
    requires c.guarded && c.order.CountFirst? && Exec(D.Machine(c), D.Init(), run).Some?
    ensures WorkAt(w, Seen(D.Machine(c), DrainReading, D.Init(), run))
    ensures Matches(Exec(D.Machine(c), D.Init(), run).value, w)
  {
    if run == [] {
      w := W.Init();
      assert Exec(W.Machine(), W.Init(), []) == Some(w);
    } else {
      var before := run[..|run| - 1];
      var w0 := DrainRefinesWork(c, before);
      var s, t := Exec(D.Machine(c), D.Init(), before).value, Exec(D.Machine(c), D.Init(), run).value;
      D.InvRun(c, D.Init(), before);
      var steps, m, v := Answer(c, s, run[|run| - 1], t, w0);
      var seen := Seen(D.Machine(c), DrainReading, D.Init(), before);
      if |steps| == 1 {
        WorkStep(w0, seen, steps[0], v);
      } else if |steps| == 2 {
        WorkStep(w0, seen, steps[0], m);
        WorkStep(m, seen, steps[1], v);
      }
      w := v;
    }
  }

  // ------------------------------------------- every work run is a drain run

  /** A drain state between two readings: no top half in flight, the bottom half
      not running or about to go round. */
  ghost predicate Settled(c: D.Config, s: D.State) {
    D.Inv(c, s) && s.half == 0 && s.counted == 0 && s.pc in {D.Idle, D.AtInc}
  }

  /** The rest of a top half, after it has counted the interrupt. */
  lemma QueueUp(c: D.Config, s: D.State, seen: seq<Reading>, t: D.State)
    requires c.order.CountFirst? && D.Inv(c, s) && DrainAt(c, s, seen)
    requires s.half == 1 && s.counted == 0
    requires t == s.(nevents := s.nevents + 1, half := 0, scheduled := true)
    ensures D.Inv(c, t) && DrainAt(c, t, seen)
  {
    var s2 := s.(nevents := s.nevents + 1, half := 0, counted := 1);
    DrainQuiet(c, s, seen, D.TopSecond, s2);
    D.InvNext(c, s, D.TopSecond);
    DrainQuiet(c, s2, seen, D.TopSchedule, t);
    D.InvNext(c, s2, D.TopSchedule);
  }

  /** One whole interrupt shows one new reading. */
  lemma ShowTop(c: D.Config, s: D.State, seen: seq<Reading>) returns (t: D.State)
    requires c.order.CountFirst? && Settled(c, s) && DrainAt(c, s, seen)
    ensures Settled(c, t) && (t.th, t.bh) == (s.th + 1, s.bh)
    ensures DrainAt(c, t, seen + [(t.th, t.bh)])
  {
    var s1 := s.(th := s.th + 1, half := 1);
    t := s1.(nevents := s.nevents + 1, half := 0, scheduled := true);
    var seen' := seen + [(s1.th, s1.bh)];
    DrainShow(c, s, seen, D.TopFirst, s1, seen');
    D.InvNext(c, s, D.TopFirst);
    QueueUp(c, s1, seen', t);
  }

  /** A pending event lets the bottom half get to its increment unseen. */
  lemma ReachLoop(c: D.Config, s: D.State, seen: seq<Reading>) returns (t: D.State)
    requires c.guarded && Settled(c, s) && DrainAt(c, s, seen) && s.nevents > 0
    ensures DrainAt(c, t, seen) && Settled(c, t) && t.pc == D.AtInc
    ensures t == s.(scheduled := t.scheduled, pc := D.AtInc)
  {
    t := s;
    if s.pc == D.Idle {
      var s1 := s.(scheduled := false, pc := D.AtGuard);
      t := s1.(pc := D.AtInc);
      DrainQuiet(c, s, seen, D.Enter, s1);
      DrainQuiet(c, s1, seen, D.Guard, t);
    }
  }

  /** The rest of a pass, after the handled event has been counted. */
  lemma FinishPass(c: D.Config, s: D.State, seen: seq<Reading>) returns (t: D.State)
    requires D.Inv(c, s) && s.half == 0 && s.counted == 0 && s.pc == D.AtDec && DrainAt(c, s, seen)
    ensures Settled(c, t) && (t.th, t.bh) == (s.th, s.bh) && DrainAt(c, t, seen)
  {
    t := D.Next(c, s, D.Dec).value;
    DrainQuiet(c, s, seen, D.Dec, t);
    D.InvNext(c, s, D.Dec);
    if t.pc == D.AtTally {
      var s2 := t;
      t := s2.(catchup := s2.catchup + 1, pc := D.AtInc);
      DrainQuiet(c, s2, seen, D.Tally, t);
      D.InvNext(c, s2, D.Tally);
    }
  }

  /** One pass of the loop shows one new reading. */
  lemma ShowBottom(c: D.Config, s: D.State, seen: seq<Reading>) returns (t: D.State)
    requires c.guarded && Settled(c, s) && DrainAt(c, s, seen) && s.nevents > 0
    ensures Settled(c, t) && (t.th, t.bh) == (s.th, s.bh + 1)
    ensures DrainAt(c, t, seen + [(t.th, t.bh)])
  {
    var s0 := ReachLoop(c, s, seen);
    var s1 := s0.(bh := s.bh + 1, pc := D.AtDec);
    var seen' := seen + [(s1.th, s1.bh)];
    DrainShow(c, s0, seen, D.IncBh, s1, seen');
    t := FinishPass(c, s1, seen');
  }

  /** The drain steps that answer one work step: none unless it is visible. */
  lemma DrainAnswer(c: D.Config, s: D.State, seen: seq<Reading>, w: W.State, a: W.Step) returns (t: D.State)
    requires c.guarded && c.order.CountFirst? && Settled(c, s) && DrainAt(c, s, seen)
    requires (s.th, s.bh) == (w.th, w.bh)
    requires W.Next(w, a).Some? && W.Inv(W.Next(w, a).value)
    ensures Settled(c, t)
    ensures var v := W.Next(w, a).value;
            (t.th, t.bh) == (v.th, v.bh) && DrainAt(c, t, Append(seen, (w.th, w.bh), (v.th, v.bh)))
  {
    match a {
      case CountTop(i) =>
        t := ShowTop(c, s, seen);
      case Handle(i) =>
        t := ShowBottom(c, s, seen);
      case _ =>
        t := s;
    }
  }

  /** Backward: every run of the one-object-per-event handler can be matched,
      reading by reading, by the guarded tasklet. */
  lemma {:induction false} WorkRefinesDrain(c: D.Config, work: seq<W.Step>) returns (s: D.State)
    requires c.guarded && c.order.CountFirst? && Exec(W.Machine(), W.Init(), work).Some?
    ensures DrainAt(c, s, Seen(W.Machine(), WorkReading, W.Init(), work)) && Settled(c, s)
    ensures var w := Exec(W.Machine(), W.Init(), work).value; (s.th, s.bh) == (w.th, w.bh)
  {
    if work == [] {
      s := D.Init();
      assert Exec(D.Machine(c), D.Init(), []) == Some(s);
    } else {
      var before := work[..|work| - 1];
      var seen := Seen(W.Machine(), WorkReading, W.Init(), before);
      s := WorkRefinesDrain(c, before);
      W.InvRun(work);
      s := DrainAnswer(c, s, seen, Exec(W.Machine(), W.Init(), before).value, work[|work| - 1]);
    }
  }

  // ----------------------------------------------------------- the comparison

  /** With the guard and with the interrupt counted first, exactly the readings of
      the one-object-per-event handler can be seen; in the three other drivers
      there is a run that it does not have. */
  lemma SameReadingsIff(c: D.Config)
    ensures (forall seen :: DrainShows(c, seen) <==> WorkShows(seen)) <==> (c.guarded && c.order.CountFirst?)
  {
    if c.guarded && c.order.CountFirst? {
      forall seen ensures DrainShows(c, seen) <==> WorkShows(seen) {
        if DrainShows(c, seen) {
          var s :| DrainAt(c, s, seen);
          var run :| Exec(D.Machine(c), D.Init(), run) == Some(s) &&
                     Seen(D.Machine(c), DrainReading, D.Init(), run) == seen;
          var w := DrainRefinesWork(c, run);
        }
        if WorkShows(seen) {
          var w :| WorkAt(w, seen);
          var work :| Exec(W.Machine(), W.Init(), work) == Some(w) &&
                      Seen(W.Machine(), WorkReading, W.Init(), work) == seen;
          var s := WorkRefinesDrain(c, work);
        }
      }
    } else {
      OnlyDrainShows(c);
    }
  }

  lemma OnlyDrainShows(c: D.Config)
    requires !(c.guarded && c.order.CountFirst?)
    ensures exists seen :: DrainShows(c, seen) && !WorkShows(seen)
  {
    var s := D.AheadWitness(c);
    var run :| Exec(D.Machine(c), D.Init(), run) == Some(s);
    var seen := Seen(D.Machine(c), DrainReading, D.Init(), run);
    assert DrainAt(c, s, seen);
    assert DrainShows(c, seen);
    LastSeen(D.Machine(c), DrainReading, D.Init(), run);
    forall w ensures !WorkAt(w, seen) {
      if WorkAt(w, seen) {
        var work :| Exec(W.Machine(), W.Init(), work) == Some(w) &&
                      Seen(W.Machine(), WorkReading, W.Init(), work) == seen;
        LastSeen(W.Machine(), WorkReading, W.Init(), work);
        W.InvRun(work);
      }
    }
  }
}
