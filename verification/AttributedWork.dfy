/** SOLUTIONS/s_20/lab5_all_workqueue_dynamic.c: one heap object per event, tagged
    with its interrupt number, for every line of lab_all_interrupt.h. */
module AttributedWork {
  import opened Options
  import opened Runs
  import L = IrqLines

  /** The life of an object: allocated and tagged; its interrupt counted; queued;
      taken by a worker; its bottom half counted; freed. */
  datatype Stage = Fresh | Held | Queued | Taken | Spent | Freed

  /** `irq`: the line whose top half made the object; `addr`: where it lies. */
  datatype Object = Object(irq: nat, addr: nat, stage: Stage)

  /** `objs[k]` belongs to the k-th top half ever started.  `heap` is the memory that
      is allocated, with the tag stored in it; a freed address may be handed out
      again. */
  datatype State = State(lines: seq<L.Line>, bhs: seq<int>, objs: seq<Object>, heap: map<nat, nat>)

  datatype Step =
    | Register(irq: nat, act: L.Act)
    | Alloc(irq: nat, addr: nat)
    | CountTop(k: nat) | Queue(k: nat) | Take(k: nat) | Handle(k: nat) | Free(k: nat)

  function Init(n: nat): State {
    State(seq(n, _ => L.FRESH), seq(n, _ => 0), [], map[])
  }

  /** Object k stands at this stage, and its memory can be accessed: to touch what is
      not allocated is not a step. */
  predicate At(s: State, k: nat, stage: Stage) {
    k < |s.objs| && s.objs[k].stage == stage && s.objs[k].addr in s.heap
  }

  /** The tag, as the memory has it. */
  function Tag(s: State, k: nat): nat
    requires k < |s.objs| && s.objs[k].addr in s.heap
  {
    s.heap[s.objs[k].addr]
  }

  function Move(s: State, k: nat, stage: Stage): State
    requires k < |s.objs|
  {
    s.(objs := s.objs[k := s.objs[k].(stage := stage)])
  }

  predicate Handles(s: State, irq: nat) {
    irq < |s.lines| && s.lines[irq].phase in {L.Window, L.Live}
  }

  function Next(s: State, a: Step): Option<State> {
    match a
    case Register(irq, act) =>
      if irq >= |s.lines| || act == L.CountTop then None else
      (match L.Next(s.lines[irq], act)
       case None => None
       case Some(l) => Some(s.(lines := s.lines[irq := l])))
    case Alloc(irq, addr) =>
      if !Handles(s, irq) || addr in s.heap then None else
      Some(s.(objs := s.objs + [Object(irq, addr, Fresh)], heap := s.heap[addr := irq]))
    case CountTop(k) =>
      if !At(s, k, Fresh) || Tag(s, k) >= |s.lines| then None else
      (match L.Next(s.lines[Tag(s, k)], L.CountTop)
       case None => None
       case Some(l) => Some(Move(s, k, Held).(lines := s.lines[Tag(s, k) := l])))
    case Queue(k) =>
      if At(s, k, Held) then Some(Move(s, k, Queued)) else None
    case Take(k) =>
      if At(s, k, Queued) then Some(Move(s, k, Taken)) else None
    case Handle(k) =>
      if !At(s, k, Taken) || Tag(s, k) >= |s.bhs| then None else
      Some(Move(s, k, Spent).(bhs := s.bhs[Tag(s, k) := s.bhs[Tag(s, k)] + 1]))
    case Free(k) =>
      if At(s, k, Spent) then Some(Move(s, k, Freed).(heap := s.heap - {s.objs[k].addr})) else None
  }

  function Machine(): (State, Step) -> Option<State> {
    (s, a) => Next(s, a)
  }

  ghost predicate Reachable(n: nat, s: State) {
    Reaches(Machine(), Init(n), s)
  }

  // ------------------------------------------------------------------ ownership

  /** The memory of an object is allocated until it is freed, and keeps its tag. */
  ghost predicate Keeps(s: State, k: nat)
    requires k < |s.objs|
  {
    s.objs[k].stage != Freed ==> s.objs[k].addr in s.heap && Tag(s, k) == s.objs[k].irq
  }

  ghost predicate Disjoint(s: State) {
    forall j, k :: 0 <= j < k < |s.objs| && s.objs[j].stage != Freed && s.objs[k].stage != Freed ==>
      s.objs[j].addr != s.objs[k].addr
  }

  /** No memory is allocated that no object owns. */
  ghost predicate NoLeak(s: State) {
    forall a <- s.heap :: exists k :: 0 <= k < |s.objs| && s.objs[k].stage != Freed && s.objs[k].addr == a
  }

  ghost predicate Owned(s: State) {
    (forall k :: 0 <= k < |s.objs| ==> Keeps(s, k)) && Disjoint(s) && NoLeak(s)
  }

  lemma AllocOwned(s: State, irq: nat, addr: nat)
    requires Owned(s) && Next(s, Alloc(irq, addr)).Some?
    ensures Owned(Next(s, Alloc(irq, addr)).value)
  {
    var t := Next(s, Alloc(irq, addr)).value;
    forall k | 0 <= k < |t.objs| ensures Keeps(t, k) {
      assert k < |s.objs| ==> Keeps(s, k);
    }
    forall j, k | 0 <= j < k < |t.objs| && t.objs[j].stage != Freed && t.objs[k].stage != Freed
      ensures t.objs[j].addr != t.objs[k].addr
    {
      assert Keeps(s, j);
    }
    forall a <- t.heap
      ensures exists k :: 0 <= k < |t.objs| && t.objs[k].stage != Freed && t.objs[k].addr == a
    {
      if a == addr {
        assert t.objs[|s.objs|].addr == a;
      } else {
        var k :| 0 <= k < |s.objs| && s.objs[k].stage != Freed && s.objs[k].addr == a;
        assert t.objs[k] == s.objs[k];
      }
    }
  }

  /** An object that moves on, short of being freed, keeps its memory; so do the others. */
  lemma MoveKeepsObjects(s: State, a: Step)
    requires (a.CountTop? || a.Queue? || a.Take? || a.Handle?) && Next(s, a).Some?
    ensures var t := Next(s, a).value;
            && t.heap == s.heap && |t.objs| == |s.objs|
            && forall k :: 0 <= k < |s.objs| ==>
                 && t.objs[k].addr == s.objs[k].addr && t.objs[k].irq == s.objs[k].irq
                 && (t.objs[k].stage == Freed <==> s.objs[k].stage == Freed)
  {
  }

  lemma MoveOwned(s: State, a: Step)
    requires Owned(s) && (a.CountTop? || a.Queue? || a.Take? || a.Handle?) && Next(s, a).Some?
    ensures Owned(Next(s, a).value)
  {
    MoveKeepsObjects(s, a);
    SameObjectsOwned(s, Next(s, a).value);
  }

  lemma SameObjectsOwned(s: State, t: State)
    requires Owned(s) && t.heap == s.heap && |t.objs| == |s.objs|
    requires forall k :: 0 <= k < |s.objs| ==>
               && t.objs[k].addr == s.objs[k].addr && t.objs[k].irq == s.objs[k].irq
               && (t.objs[k].stage == Freed <==> s.objs[k].stage == Freed)
    ensures Owned(t)
  {
    forall k | 0 <= k < |t.objs| ensures Keeps(t, k) {
      assert Keeps(s, k);
    }
    forall x <- t.heap
      ensures exists k :: 0 <= k < |t.objs| && t.objs[k].stage != Freed && t.objs[k].addr == x
    {
      var k :| 0 <= k < |s.objs| && s.objs[k].stage != Freed && s.objs[k].addr == x;
      assert t.objs[k].addr == x && t.objs[k].stage != Freed;
    }
  }

  lemma FreeOwned(s: State, f: nat)
    requires Owned(s) && Next(s, Free(f)).Some?
    ensures Owned(Next(s, Free(f)).value)
  {
    var t := Next(s, Free(f)).value;
    forall k | 0 <= k < |t.objs| ensures Keeps(t, k) {
      assert Keeps(s, k);
      if k != f && s.objs[k].stage != Freed {
        assert s.objs[k].addr != s.objs[f].addr;
      }
    }
    forall x <- t.heap
      ensures exists k :: 0 <= k < |t.objs| && t.objs[k].stage != Freed && t.objs[k].addr == x
    {
      var k :| 0 <= k < |s.objs| && s.objs[k].stage != Freed && s.objs[k].addr == x;
      assert t.objs[k] == s.objs[k];
    }
  }

  lemma OwnedNext(s: State, a: Step)
    requires Owned(s) && Next(s, a).Some?
    ensures Owned(Next(s, a).value)
  {
    if a.Alloc? {
      AllocOwned(s, a.irq, a.addr);
    } else if a.Free? {
      FreeOwned(s, a.k);
    } else if !a.Register? {
      MoveOwned(s, a);
    } else {
      var t := Next(s, a).value;
      assert forall k :: 0 <= k < |t.objs| ==> Keeps(s, k) ==> Keeps(t, k);
    }
  }

  // ---------------------------------------------------------------- attribution

  /** Objects of line irq whose interrupt is counted and whose bottom half is not. */
  function Pending(objs: seq<Object>, irq: nat): nat {
    if objs == [] then 0 else
    var o := objs[|objs| - 1];
    Pending(objs[..|objs| - 1], irq) + (if IsPending(o, irq) then 1 else 0)
  }

  predicate IsPending(o: Object, irq: nat) {
    o.irq == irq && o.stage in {Held, Queued, Taken}
  }

  lemma {:induction false} PendingAfter(objs: seq<Object>, k: nat, o: Object, irq: nat)
    requires k < |objs|
    ensures Pending(objs[k := o], irq) ==
            Pending(objs, irq) - (if IsPending(objs[k], irq) then 1 else 0) + (if IsPending(o, irq) then 1 else 0)
  {
    var m := |objs| - 1;
    if k < m {
      assert objs[k := o][..m] == objs[..m][k := o];
      PendingAfter(objs[..m], k, o, irq);
    } else {
      assert objs[k := o][..m] == objs[..m];
    }
  }

  ghost predicate Shape(s: State) {
    && |s.bhs| == |s.lines|
    && (forall i :: 0 <= i < |s.lines| ==> L.Sound(s.lines[i]))
    && (forall k :: 0 <= k < |s.objs| ==> Handles(s, s.objs[k].irq))
  }

  ghost predicate Attributed(s: State)
    requires |s.bhs| == |s.lines|
  {
    forall i :: 0 <= i < |s.lines| ==> L.Arrived(s.lines[i]) == s.bhs[i] + Pending(s.objs, i)
  }

  ghost predicate Inv(n: nat, s: State) {
    Owned(s) && Shape(s) && Attributed(s) && |s.lines| == n
  }

  /** The only line that a step changes, and what happens to it. */
  function Concerns(s: State, a: Step, i: nat): Option<L.Act> {
    if a.Register? && a.irq == i then Some(a.act)
    else if a.CountTop? && a.k < |s.objs| && s.objs[a.k].irq == i then Some(L.CountTop)
    else None
  }

  lemma LineStep(s: State, a: Step, i: nat)
    requires Owned(s) && Next(s, a).Some? && i < |s.lines|
    ensures var t := Next(s, a).value;
            && |t.lines| == |s.lines|
            && (match Concerns(s, a, i)
                case None => t.lines[i] == s.lines[i]
                case Some(act) => L.Next(s.lines[i], act) == Some(t.lines[i]))
  {
    if a.CountTop? {
      assert Keeps(s, a.k);
    }
  }

  lemma ShapeNext(s: State, a: Step)
    requires Owned(s) && Shape(s) && Next(s, a).Some?
    ensures Shape(Next(s, a).value)
  {
    var t := Next(s, a).value;
    forall i | 0 <= i < |t.lines|
      ensures L.Sound(t.lines[i]) && (Handles(s, i) ==> Handles(t, i))
    {
      LineStep(s, a, i);
      var act := Concerns(s, a, i);
      if act.Some? {
        L.SoundNext(s.lines[i], act.value);
      }
    }
    forall k | 0 <= k < |t.objs| ensures Handles(t, t.objs[k].irq) {
      assert k < |s.objs| ==> t.objs[k].irq == s.objs[k].irq;
    }
  }

  /** A bottom half is credited to the line of its object. */
  lemma HandleStep(s: State, k: nat, i: nat)
    requires Owned(s) && Shape(s) && Next(s, Handle(k)).Some? && i < |s.lines|
    ensures var t := Next(s, Handle(k)).value;
            && |t.bhs| == |s.lines|
            && t.bhs[i] + Pending(t.objs, i) == s.bhs[i] + Pending(s.objs, i)
  {
    assert Keeps(s, k);
    PendingAfter(s.objs, k, s.objs[k].(stage := Spent), i);
  }

  lemma OtherMove(s: State, a: Step, i: nat)
    requires (a.CountTop? || a.Queue? || a.Take? || a.Free?) && Next(s, a).Some?
    ensures var t := Next(s, a).value;
            && t.bhs == s.bhs
            && Pending(t.objs, i) ==
               Pending(s.objs, i) + (if Concerns(s, a, i) == Some(L.CountTop) then 1 else 0)
  {
    PendingAfter(s.objs, a.k, Next(s, a).value.objs[a.k], i);
  }

  lemma PendingStep(s: State, a: Step, i: nat)
    requires Owned(s) && Shape(s) && Next(s, a).Some? && i < |s.lines|
    ensures var t := Next(s, a).value;
            && |t.bhs| == |s.lines|
            && t.bhs[i] + Pending(t.objs, i) ==
               s.bhs[i] + Pending(s.objs, i) + (if Concerns(s, a, i) == Some(L.CountTop) then 1 else 0)
  {
    if a.Alloc? {
      assert Next(s, a).value.objs[..|s.objs|] == s.objs;
    } else if a.Handle? {
      HandleStep(s, a.k, i);
    } else if a.Register? {
      assert Concerns(s, a, i) != Some(L.CountTop);
    } else {
      OtherMove(s, a, i);
    }
  }

  lemma AttributedNext(s: State, a: Step)
    requires Owned(s) && Shape(s) && Attributed(s) && Next(s, a).Some?
    ensures |Next(s, a).value.bhs| == |Next(s, a).value.lines| && Attributed(Next(s, a).value)
  {
    var t := Next(s, a).value;
    ShapeNext(s, a);
    forall i | 0 <= i < |t.lines| ensures L.Arrived(t.lines[i]) == t.bhs[i] + Pending(t.objs, i) {
      LineStep(s, a, i);
      PendingStep(s, a, i);
      var act := Concerns(s, a, i);
      if act.Some? {
        L.SoundNext(s.lines[i], act.value);
      }
    }
  }

  lemma InvNext(n: nat, s: State, a: Step)
    requires Inv(n, s) && Next(s, a).Some?
    ensures Inv(n, Next(s, a).value)
  {
    OwnedNext(s, a);
    ShapeNext(s, a);
    AttributedNext(s, a);
  }

  lemma {:induction false} InvRun(n: nat, s: State, run: seq<Step>)
    requires Inv(n, s) && Exec(Machine(), s, run).Some?
    ensures Inv(n, Exec(Machine(), s, run).value)
  {
    if run != [] {
      var k := |run| - 1;
      InvRun(n, s, run[..k]);
      InvNext(n, Exec(Machine(), s, run[..k]).value, run[k]);
    }
  }

  lemma InvReachable(n: nat, s: State)
    requires Reachable(n, s)
    ensures Inv(n, s)
  {
    var run :| Exec(Machine(), Init(n), run) == Some(s);
    InvRun(n, Init(n), run);
  }

  /** Every event stays with its line: whatever the interleaving over all lines, what
      a line has seen is what was handled for it plus what is still pending for it. */
  lemma EachLineConserves(n: nat, s: State, i: nat)
    requires Reachable(n, s) && i < n
    ensures |s.lines| == |s.bhs| == n
    ensures L.Sound(s.lines[i]) && L.Arrived(s.lines[i]) == s.bhs[i] + Pending(s.objs, i)
  {
    InvReachable(n, s);
  }

  /** What happened to line i in the run: its registration and its interrupts. */
  function LineActs(n: nat, run: seq<Step>, i: nat): seq<L.Act>
    requires Exec(Machine(), Init(n), run).Some?
  {
    if run == [] then [] else
    var before := run[..|run| - 1];
    var rest := LineActs(n, before, i);
    match Concerns(Exec(Machine(), Init(n), before).value, run[|run| - 1], i)
    case None => rest
    case Some(act) => rest + [act]
  }

  lemma {:induction false} LineHistory(n: nat, run: seq<Step>, i: nat)
    requires i < n && Exec(Machine(), Init(n), run).Some?
    ensures var s := Exec(Machine(), Init(n), run).value;
            |s.lines| == n && Exec(L.Machine(), L.FRESH, LineActs(n, run, i)) == Some(s.lines[i])
  {
    if run != [] {
      var before, a := run[..|run| - 1], run[|run| - 1];
      LineHistory(n, before, i);
      InvRun(n, Init(n), before);
      var s := Exec(Machine(), Init(n), before).value;
      LineStep(s, a, i);
      var act := Concerns(s, a, i);
      if act.Some? {
        ExecSnoc(L.Machine(), L.FRESH, LineActs(n, before, i), act.value);
      }
    }
  }

  /** The counters the driver reports agree, once line i is registered, exactly when
      the run counted no interrupt between the grant of the line and the reset of its
      counter; otherwise bhs[i] is ahead for ever by the number of those. */
  lemma CountersAgreeIff(n: nat, run: seq<Step>, s: State, i: nat)
    requires Exec(Machine(), Init(n), run) == Some(s)
    requires i < n && i < |s.lines| && i < |s.bhs| && s.lines[i].phase == L.Live
    ensures s.bhs[i] + Pending(s.objs, i) == s.lines[i].interrupts + L.Early(LineActs(n, run, i))
    ensures s.lines[i].interrupts == s.bhs[i] + Pending(s.objs, i) <==> L.Early(LineActs(n, run, i)) == 0
  {
    EachLineConserves(n, s, i);
    LineHistory(n, run, i);
    L.History(LineActs(n, run, i));
  }

  lemma Go(n: nat, s: State, a: Step) returns (t: State)
    requires Reachable(n, s) && Next(s, a).Some?
    ensures Reachable(n, t) && Next(s, a) == Some(t)
  {
    ReachesNext(Machine(), Init(n), s, a);
    t := Next(s, a).value;
  }

  /** One interrupt in the window of one line is enough: at rest, everything handled
      and freed, the driver reports one more bottom half than interrupts. */
  lemma WindowWitness() returns (s: State)
    ensures Reachable(1, s) && s == State([L.Line(0, L.Live, 1)], [1], [Object(0, 7, Freed)], map[])
  {
    s := WipedAndQueued();
    s := Go(1, s, Take(0));
    assert s == State([L.Line(0, L.Live, 1)], [0], [Object(0, 7, Taken)], map[7 := 0]);
    s := Go(1, s, Handle(0));
    assert s == State([L.Line(0, L.Live, 1)], [1], [Object(0, 7, Spent)], map[7 := 0]);
    s := Go(1, s, Free(0));
    assert s.heap == map[];
  }

  lemma WipedAndQueued() returns (s: State)
    ensures Reachable(1, s) && s == State([L.Line(0, L.Live, 1)], [0], [Object(0, 7, Queued)], map[7 := 0])
  {
    s := CountedInWindow();
    s := Go(1, s, Register(0, L.Reset));
    assert s == State([L.Line(0, L.Live, 1)], [0], [Object(0, 7, Held)], map[7 := 0]);
    s := Go(1, s, Queue(0));
  }

  lemma CountedInWindow() returns (s: State)
    ensures Reachable(1, s) && s == State([L.Line(0, L.Window, 0)], [0], [Object(0, 7, Held)], map[7 := 0])
  {
    ReachesItself(Machine(), Init(1));
    s := Init(1);
    assert s == State([L.FRESH], [0], [], map[]);
    s := Go(1, s, Register(0, L.Grant));
    assert s == State([L.Line(-1, L.Window, 0)], [0], [], map[]);
    s := Go(1, s, Alloc(0, 7));
    assert s == State([L.Line(-1, L.Window, 0)], [0], [Object(0, 7, Fresh)], map[7 := 0]);
    s := Go(1, s, CountTop(0));
  }

  // ------------------------------------------------------------ object lifetime

  /** The step that object k is waiting for. */
  function Due(s: State, k: nat): Step
    requires k < |s.objs|
  {
    match s.objs[k].stage
    case Fresh => CountTop(k)
    case Held => Queue(k)
    case Queued => Take(k)
    case Taken => Handle(k)
    case Spent => Free(k)
    case Freed => Free(k)
  }

  /** Addresses may be reused, and still nobody uses memory after it is freed or frees
      it twice: an object that is not freed finds its own memory with its own tag,
      and no other object has it. */
  lemma NeverUsedAfterFree(n: nat, s: State, k: nat)
    requires Reachable(n, s) && k < |s.objs| && s.objs[k].stage != Freed
    ensures Next(s, Due(s, k)).Some?
    ensures s.objs[k].addr in s.heap && Tag(s, k) == s.objs[k].irq
    ensures forall j :: 0 <= j < |s.objs| && j != k && s.objs[j].stage != Freed ==>
              s.objs[j].addr != s.objs[k].addr
  {
    InvReachable(n, s);
    assert Keeps(s, k) && Handles(s, s.objs[k].irq);
  }

  function Rank(stage: Stage): nat {
    match stage
    case Fresh => 0
    case Held => 1
    case Queued => 2
    case Taken => 3
    case Spent => 4
    case Freed => 5
  }

  /** No new interrupt, and registration is left alone. */
  predicate Calm(a: Step) {
    !a.Alloc? && !a.Register?
  }

  function StepsLeft(objs: seq<Object>): nat {
    if objs == [] then 0 else StepsLeft(objs[..|objs| - 1]) + 5 - Rank(objs[|objs| - 1].stage)
  }

  lemma {:induction false} StepsLeftAfter(objs: seq<Object>, k: nat, o: Object)
    requires k < |objs|
    ensures StepsLeft(objs[k := o]) == StepsLeft(objs) + Rank(objs[k].stage) - Rank(o.stage)
  {
    var m := |objs| - 1;
    if k < m {
      assert objs[k := o][..m] == objs[..m][k := o];
      StepsLeftAfter(objs[..m], k, o);
    } else {
      assert objs[k := o][..m] == objs[..m];
    }
  }

  lemma CalmStep(s: State, a: Step)
    requires Calm(a) && Next(s, a).Some?
    ensures StepsLeft(Next(s, a).value.objs) < StepsLeft(s.objs)
  {
    StepsLeftAfter(s.objs, a.k, Next(s, a).value.objs[a.k]);
  }

  lemma {:induction false} CalmRun(s: State, run: seq<Step>)
    requires (forall k :: 0 <= k < |run| ==> Calm(run[k])) && Exec(Machine(), s, run).Some?
    ensures |run| + StepsLeft(Exec(Machine(), s, run).value.objs) <= StepsLeft(s.objs)
  {
    if run != [] {
      var k := |run| - 1;
      CalmRun(s, run[..k]);
      CalmStep(Exec(Machine(), s, run[..k]).value, run[k]);
    }
  }

  /** How often object k has been freed, to judge by its stage. */
  function TimesFreed(s: State, k: nat): nat {
    if k < |s.objs| && s.objs[k].stage == Freed then 1 else 0
  }

  lemma FreeStep(s: State, a: Step, t: State, k: nat)
    requires Next(s, a) == Some(t)
    ensures TimesFreed(t, k) == TimesFreed(s, k) + (if a == Free(k) then 1 else 0)
  {
  }

  /** In any run from the start, object k is freed once if it is freed at its end, and
      not at all otherwise. */
  lemma {:induction false} FreeCount(n: nat, run: seq<Step>, k: nat)
    requires Exec(Machine(), Init(n), run).Some?
    ensures Count(run, Free(k)) == TimesFreed(Exec(Machine(), Init(n), run).value, k)
  {
    if run != [] {
      var before := run[..|run| - 1];
      FreeCount(n, before, k);
      FreeStep(Exec(Machine(), Init(n), before).value, run[|run| - 1], Exec(Machine(), Init(n), run).value, k);
    }
  }

  lemma {:induction false} NonePending(objs: seq<Object>, i: nat)
    requires forall o <- objs :: o.stage == Freed
    ensures Pending(objs, i) == 0
  {
    if objs != [] {
      NonePending(objs[..|objs| - 1], i);
    }
  }

  lemma WorkLeft(n: nat, s: State, k: nat) returns (a: Step)
    requires Reachable(n, s) && k < |s.objs| && s.objs[k].stage != Freed
    ensures Calm(a) && Next(s, a).Some?
  {
    NeverUsedAfterFree(n, s, k);
    a := Due(s, k);
  }

  /** Once interrupts stop, every run of the work that is left is bounded, whatever its
      order; when it cannot go on, every object ever allocated has been freed exactly
      once, nothing is allocated, and every interrupt has been handled for its line. */
  lemma FreedExactlyOnce(n: nat, run: seq<Step>, rest: seq<Step>, t: State)
    requires Exec(Machine(), Init(n), run).Some?
    requires forall k :: 0 <= k < |rest| ==> Calm(rest[k])
    requires Exec(Machine(), Init(n), run + rest) == Some(t)
    ensures |rest| <= StepsLeft(Exec(Machine(), Init(n), run).value.objs)
    ensures (forall a | Calm(a) :: Next(t, a) == None) ==>
              && (forall k: nat | k < |t.objs| :: Count(run + rest, Free(k)) == 1)
              && t.heap == map[]
              && |t.lines| == |t.bhs| == n
              && forall i: nat | i < n :: t.bhs[i] == L.Arrived(t.lines[i])
  {
    ExecConcat(Machine(), Init(n), run, rest);
    CalmRun(Exec(Machine(), Init(n), run).value, rest);
    assert Reachable(n, t);
    InvReachable(n, t);
    if forall a | Calm(a) :: Next(t, a) == None {
      forall k: nat | k < |t.objs| ensures t.objs[k].stage == Freed {
        if t.objs[k].stage != Freed {
          var a := WorkLeft(n, t, k);
        }
      }
      forall k: nat | k < |t.objs| ensures Count(run + rest, Free(k)) == 1 {
        FreeCount(n, run + rest, k);
      }
      forall i: nat | i < n ensures t.bhs[i] == L.Arrived(t.lines[i]) {
        NonePending(t.objs, i);
      }
    }
  }
}
