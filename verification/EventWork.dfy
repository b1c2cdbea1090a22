/** SOLUTIONS/s_20/lab3_one_workqueue_dynamic.c: one heap object per event.  The
    top half allocates it, counts the interrupt and queues it; a worker takes it,
    counts it handled and frees it.  This is the simple form that the
    counter-draining handlers stand for. */
module EventWork {
  import opened Options
  import opened Runs

  /** The life of one object.  `Held`: a top half has counted the interrupt and is
      about to queue it.  `Spent`: handled, about to be freed. */
  datatype Stage = Fresh | Held | Queued | Taken | Spent | Freed

  /** `objs[i]` is the stage of the object of the i-th top half ever started; an
      index is never reused, so an object freed twice or used after free would
      show as a step out of stage. */
  datatype State = State(th: int, bh: int, objs: seq<Stage>)

  datatype Step = Alloc | CountTop(i: nat) | Queue(i: nat) | Take(i: nat) | Handle(i: nat) | Free(i: nat)

  function Init(): State {
    State(0, 0, [])
  }

  predicate At(s: State, i: nat, stage: Stage) {
    i < |s.objs| && s.objs[i] == stage
  }

  function Next(s: State, a: Step): Option<State> {
    match a
    case Alloc => Some(s.(objs := s.objs + [Fresh]))
    case CountTop(i) =>
      if At(s, i, Fresh) then Some(s.(th := s.th + 1, objs := s.objs[i := Held])) else None
    case Queue(i) =>
      if At(s, i, Held) then Some(s.(objs := s.objs[i := Queued])) else None
    case Take(i) =>
      if At(s, i, Queued) then Some(s.(objs := s.objs[i := Taken])) else None
    case Handle(i) =>
      if At(s, i, Taken) then Some(s.(bh := s.bh + 1, objs := s.objs[i := Spent])) else None
    case Free(i) =>
      if At(s, i, Spent) then Some(s.(objs := s.objs[i := Freed])) else None
  }

  function Machine(): (State, Step) -> Option<State> {
    (s, a) => Next(s, a)
  }

  function Number(objs: seq<Stage>, stage: Stage): nat {
    if objs == [] then 0 else
    Number(objs[..|objs| - 1], stage) + (if objs[|objs| - 1] == stage then 1 else 0)
  }

  lemma {:induction false} NumberAfter(objs: seq<Stage>, i: nat, to: Stage, stage: Stage)
    requires i < |objs|
    ensures Number(objs[i := to], stage) ==
            Number(objs, stage) - (if objs[i] == stage then 1 else 0) + (if to == stage then 1 else 0)
  {
    var k := |objs| - 1;
    if i < k {
      assert objs[i := to][..k] == objs[..k][i := to];
      NumberAfter(objs[..k], i, to, stage);
    } else {
      assert objs[i := to][..k] == objs[..k];
    }
  }

  lemma NumberAlloc(objs: seq<Stage>, stage: Stage)
    ensures Number(objs + [Fresh], stage) == Number(objs, stage) + (if stage == Fresh then 1 else 0)
  {
    assert (objs + [Fresh])[..|objs|] == objs;
  }

  /** An object at a stage that somebody is at. */
  lemma {:induction false} Pick(objs: seq<Stage>, stage: Stage) returns (i: nat)
    requires Number(objs, stage) > 0
    ensures i < |objs| && objs[i] == stage
  {
    var k := |objs| - 1;
    if objs[k] == stage {
      i := k;
    } else {
      i := Pick(objs[..k], stage);
    }
  }

  /** Interrupts counted and not yet handled are exactly the objects in between. */
  ghost predicate Inv(s: State) {
    s.th == s.bh + Number(s.objs, Held) + Number(s.objs, Queued) + Number(s.objs, Taken)
  }

  lemma InvNext(s: State, a: Step)
    requires Inv(s) && Next(s, a).Some?
    ensures Inv(Next(s, a).value)
  {
    match a
    case Alloc =>
      NumberAlloc(s.objs, Held);
      NumberAlloc(s.objs, Queued);
      NumberAlloc(s.objs, Taken);
    case _ =>
      var i := a.i;
      var to := Next(s, a).value.objs[i];
      NumberAfter(s.objs, i, to, Held);
      NumberAfter(s.objs, i, to, Queued);
      NumberAfter(s.objs, i, to, Taken);
  }

  lemma {:induction false} InvRun(run: seq<Step>)
    requires Exec(Machine(), Init(), run).Some?
    ensures Inv(Exec(Machine(), Init(), run).value)
  {
    if run != [] {
      InvRun(run[..|run| - 1]);
      InvNext(Exec(Machine(), Init(), run[..|run| - 1]).value, run[|run| - 1]);
    }
  }
}
