/** Unloading SOLUTIONS/s_20/lab5_all_workqueue_dynamic.c by my_generic_exit of
    lab_all_interrupt.h: the lines are given up, each free_irq waiting for the handler of
    its line, and the page with the counters is freed.  Nobody waits for queued work,
    whose bottom half then counts in the freed page. */
module WorkUnload {
  import opened Options
  import opened Runs
  import W = AttributedWork
  import L = IrqLines

  /** `unloaded`: the page has been freed; `stray`: something was counted in it since. */
  datatype State = State(work: W.State, unloaded: bool, stray: bool)

  datatype Step = Work(a: W.Step) | Unload

  function Init(n: nat): State {
    State(W.Init(n), false, false)
  }

  /** Registration is over, and no handler is at work. */
  predicate CanUnload(s: W.State) {
    && (forall l <- s.lines :: l.phase in {L.Refused, L.Live})
    && (forall k :: 0 <= k < |s.objs| ==> s.objs[k].stage != W.Fresh && s.objs[k].stage != W.Held)
  }

  function Next(u: State, a: Step): Option<State> {
    match a
    case Unload =>
      if u.unloaded || !CanUnload(u.work) then None else Some(u.(unloaded := true))
    case Work(step) =>
      if u.unloaded && (step.Register? || step.Alloc?) then None else
      match W.Next(u.work, step)
      case None => None
      case Some(w) => Some(State(w, u.unloaded, u.stray || (u.unloaded && (step.CountTop? || step.Handle?))))
  }

  function Machine(): (State, Step) -> Option<State> {
    (u, a) => Next(u, a)
  }

  ghost predicate Reachable(n: nat, u: State) {
    Reaches(Machine(), Init(n), u)
  }

  ghost predicate Inv(n: nat, u: State) {
    W.Inv(n, u.work) && (u.stray ==> u.unloaded)
  }

  lemma InvReachable(n: nat, u: State)
    requires Reachable(n, u)
    ensures Inv(n, u)
  {
    var run :| Exec(Machine(), Init(n), run) == Some(u);
    assert W.Inv(n, W.Init(n));
    forall v, a | Inv(n, v) && Next(v, a).Some? ensures Inv(n, Next(v, a).value) {
      if a.Work? {
        W.InvNext(n, v.work, a.a);
      }
    }
    Preserved(Machine(), v => Inv(n, v), a => true, Init(n), run);
  }

  lemma {:induction false} NonePendingIff(objs: seq<W.Object>, irq: nat)
    ensures W.Pending(objs, irq) == 0 <==> forall k :: 0 <= k < |objs| ==> !W.IsPending(objs[k], irq)
  {
    if objs != [] {
      var m := |objs| - 1;
      NonePendingIff(objs[..m], irq);
      assert forall k :: 0 <= k < m ==> objs[..m][k] == objs[k];
    }
  }

  /** All that is left to do is to free objects. */
  ghost predicate OnlyFrees(u: State) {
    u.unloaded && !u.stray && forall k :: 0 <= k < |u.work.objs| ==> u.work.objs[k].stage in {W.Spent, W.Freed}
  }

  lemma OnlyFreesNext(u: State, a: Step)
    requires OnlyFrees(u) && Next(u, a).Some?
    ensures OnlyFrees(Next(u, a).value)
  {
  }

  lemma {:induction false} OnlyFreesRun(u: State, run: seq<Step>)
    requires OnlyFrees(u) && Exec(Machine(), u, run).Some?
    ensures OnlyFrees(Exec(Machine(), u, run).value)
  {
    if run != [] {
      OnlyFreesRun(u, run[..|run| - 1]);
      OnlyFreesNext(Exec(Machine(), u, run[..|run| - 1]).value, run[|run| - 1]);
    }
  }

  lemma HandlesInFreedPage(n: nat, v: State, k: nat) returns (t: State)
    requires W.Inv(n, v.work) && v.unloaded && W.At(v.work, k, W.Taken)
    ensures Next(v, Work(W.Handle(k))) == Some(t) && t.stray
  {
    assert W.Keeps(v.work, k) && W.Handles(v.work, v.work.objs[k].irq);
    t := Next(v, Work(W.Handle(k))).value;
  }

  lemma TakesUp(n: nat, v: State, k: nat) returns (m: State)
    requires W.Inv(n, v.work) && W.At(v.work, k, W.Queued)
    ensures Next(v, Work(W.Take(k))) == Some(m) && m.unloaded == v.unloaded
    ensures W.Inv(n, m.work) && W.At(m.work, k, W.Taken)
  {
    W.InvNext(n, v.work, W.Take(k));
    m := Next(v, Work(W.Take(k))).value;
  }

  /** A bottom half that is queued, or under way, will count in the freed page. */
  lemma CountsInFreedPage(n: nat, v: State, k: nat) returns (run: seq<Step>, t: State)
    requires W.Inv(n, v.work) && v.unloaded && k < |v.work.objs| && v.work.objs[k].stage in {W.Queued, W.Taken}
    ensures Exec(Machine(), v, run) == Some(t) && t.stray
  {
    assert W.Keeps(v.work, k);
    if v.work.objs[k].stage == W.Taken {
      t := HandlesInFreedPage(n, v, k);
      OneStep(Machine(), v, Work(W.Handle(k)), t);
      run := [Work(W.Handle(k))];
    } else {
      var m := TakesUp(n, v, k);
      t := HandlesInFreedPage(n, m, k);
      TwoSteps(Machine(), v, Work(W.Take(k)), m, Work(W.Handle(k)), t);
      run := [Work(W.Take(k)), Work(W.Handle(k))];
    }
  }

  ghost predicate NeverStray(v: State) {
    forall run, t | Exec(Machine(), v, run) == Some(t) :: !t.stray
  }

  lemma NotPending(n: nat, s: W.State, k: nat)
    requires W.Inv(n, s) && CanUnload(s) && k < |s.objs|
    requires forall i: nat | i < n :: W.Pending(s.objs, i) == 0
    ensures s.objs[k].stage in {W.Spent, W.Freed}
  {
    var irq := s.objs[k].irq;
    assert W.Handles(s, irq);
    assert W.Pending(s.objs, irq) == 0;
    NonePendingIff(s.objs, irq);
    assert !W.IsPending(s.objs[k], irq);
    assert s.objs[k].stage != W.Fresh && s.objs[k].stage != W.Held;
    StageOf(s.objs[k]);
  }

  lemma StageOf(o: W.Object)
    ensures o.stage in {W.Spent, W.Freed} <==>
            !W.IsPending(o, o.irq) && o.stage != W.Fresh && o.stage != W.Held
  {
  }

  /** From the moment the page is freed, no run touches it any more exactly when nothing
      was pending on any line at that moment. */
  lemma NoStrayIff(n: nat, u: State, v: State)
    requires Reachable(n, u) && Next(u, Unload) == Some(v)
    ensures NeverStray(v) <==> forall i: nat | i < n :: W.Pending(u.work.objs, i) == 0
  {
    InvReachable(n, u);
    var objs := u.work.objs;
    if forall i: nat | i < n :: W.Pending(objs, i) == 0 {
      forall k: nat | k < |objs| ensures objs[k].stage in {W.Spent, W.Freed} {
        NotPending(n, u.work, k);
      }
      forall run, t | Exec(Machine(), v, run) == Some(t) ensures !t.stray {
        OnlyFreesRun(v, run);
      }
    } else {
      var i: nat :| i < n && W.Pending(objs, i) != 0;
      NonePendingIff(objs, i);
      var k :| 0 <= k < |objs| && W.IsPending(objs[k], i);
      var run, t := CountsInFreedPage(n, v, k);
    }
  }

  /** It does happen: one interrupt, and the page is freed before its work has run. */
  lemma UnloadedTooSoon() returns (u: State)
    ensures Reachable(1, u) && u.stray
  {
    var w := W.WipedAndQueued();
    var steps :| Exec(W.Machine(), W.Init(1), steps) == Some(w);
    var v := Lift(1, steps, w);
    InvReachable(1, v);
    ReachesNext(Machine(), Init(1), v, Unload);
    var unloaded := Next(v, Unload).value;
    var run, t := CountsInFreedPage(1, unloaded, 0);
    assert Reaches(Machine(), unloaded, t);
    ReachesThrough(Machine(), Init(1), unloaded, t);
    u := t;
  }

  /** Until it is unloaded the driver runs as if there were no unloading. */
  lemma {:induction false} Lift(n: nat, steps: seq<W.Step>, w: W.State) returns (u: State)
    requires Exec(W.Machine(), W.Init(n), steps) == Some(w)
    ensures Reachable(n, u) && u == State(w, false, false)
  {
    u := State(w, false, false);
    if steps == [] {
      ReachesItself(Machine(), Init(n));
    } else {
      var k := |steps| - 1;
      var before := Exec(W.Machine(), W.Init(n), steps[..k]).value;
      var v := Lift(n, steps[..k], before);
      ReachesNext(Machine(), Init(n), v, Work(steps[k]));
    }
  }
}
