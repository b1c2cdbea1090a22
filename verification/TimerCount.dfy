/** SOLUTIONS/s_11/lab2_multitimer.c: each write allocates a timer and its data and
    counts it in ntimers; the callback frees both and uncounts it; the exit routine
    waits until it reads zero. */
module TimerCount {
  import opened Options
  import opened Runs

  /** How far write k and its callback have got.  `Uncounted`: ntimers decremented,
      the callback has its last statement to run. */
  datatype Stage = Begun | HasTimer | HasBoth | Armed | Firing | TimerFreed | DataFreed | Uncounted | Returned

  datatype Entry = Entry(stage: Stage, timer: nat, data: nat)

  /** `live`: the addresses allocated and not freed; a freed one may be handed out again. */
  datatype State = State(ntimers: int, entries: seq<Entry>, live: set<nat>)

  datatype Step =
    | Begin | AllocTimer(k: nat, addr: nat) | AllocData(k: nat, addr: nat) | Add(k: nat)
    | Expire(k: nat) | FreeTimer(k: nat) | FreeData(k: nat) | Uncount(k: nat) | Return(k: nat)

  function Init(): State {
    State(0, [], {})
  }

  predicate At(s: State, k: nat, stage: Stage) {
    k < |s.entries| && s.entries[k].stage == stage
  }

  function Move(s: State, k: nat, stage: Stage): State
    requires k < |s.entries|
  {
    s.(entries := s.entries[k := s.entries[k].(stage := stage)])
  }

  /** Freeing what is not allocated is not a step: it would be a double free. */
  function Next(s: State, a: Step): Option<State> {
    match a
    case Begin =>
      Some(s.(ntimers := s.ntimers + 1, entries := s.entries + [Entry(Begun, 0, 0)]))
    case AllocTimer(k, addr) =>
      if !At(s, k, Begun) || addr in s.live then None else
      Some(s.(entries := s.entries[k := Entry(HasTimer, addr, 0)], live := s.live + {addr}))
    case AllocData(k, addr) =>
      if !At(s, k, HasTimer) || addr in s.live then None else
      Some(s.(entries := s.entries[k := Entry(HasBoth, s.entries[k].timer, addr)], live := s.live + {addr}))
    case Add(k) => if At(s, k, HasBoth) then Some(Move(s, k, Armed)) else None
    case Expire(k) => if At(s, k, Armed) then Some(Move(s, k, Firing)) else None
    case FreeTimer(k) =>
      if !At(s, k, Firing) || s.entries[k].timer !in s.live then None else
      Some(Move(s, k, TimerFreed).(live := s.live - {s.entries[k].timer}))
    case FreeData(k) =>
      if !At(s, k, TimerFreed) || s.entries[k].data !in s.live then None else
      Some(Move(s, k, DataFreed).(live := s.live - {s.entries[k].data}))
    case Uncount(k) =>
      if At(s, k, DataFreed) then Some(Move(s, k, Uncounted).(ntimers := s.ntimers - 1)) else None
    case Return(k) => if At(s, k, Uncounted) then Some(Move(s, k, Returned)) else None
  }

  function Machine(): (State, Step) -> Option<State> {
    (s, a) => Next(s, a)
  }

  ghost predicate Reachable(s: State) {
    Reaches(Machine(), Init(), s)
  }

  predicate Counted(e: Entry) {
    e.stage !in {Uncounted, Returned}
  }

  function Outstanding(es: seq<Entry>): nat {
    if es == [] then 0 else
    Outstanding(es[..|es| - 1]) + (if Counted(es[|es| - 1]) then 1 else 0)
  }

  lemma {:induction false} OutstandingAfter(es: seq<Entry>, k: nat, e: Entry)
    requires k < |es|
    ensures Outstanding(es[k := e]) ==
            Outstanding(es) - (if Counted(es[k]) then 1 else 0) + (if Counted(e) then 1 else 0)
  {
    var m := |es| - 1;
    if k < m {
      assert es[k := e][..m] == es[..m][k := e];
      OutstandingAfter(es[..m], k, e);
    } else {
      assert es[k := e][..m] == es[..m];
    }
  }

  lemma {:induction false} NoneOutstanding(es: seq<Entry>)
    ensures Outstanding(es) == 0 <==> forall k :: 0 <= k < |es| ==> !Counted(es[k])
  {
    if es != [] {
      NoneOutstanding(es[..|es| - 1]);
      assert forall k :: 0 <= k < |es| - 1 ==> es[..|es| - 1][k] == es[k];
    }
  }

  predicate HoldsTimer(e: Entry) {
    e.stage in {HasTimer, HasBoth, Armed, Firing}
  }

  predicate HoldsData(e: Entry) {
    e.stage in {HasBoth, Armed, Firing, TimerFreed}
  }

  /** How often an entry holds address a, to free it later. */
  function Holds(e: Entry, a: nat): nat {
    (if HoldsTimer(e) && e.timer == a then 1 else 0) + (if HoldsData(e) && e.data == a then 1 else 0)
  }

  function Holders(es: seq<Entry>, a: nat): nat {
    if es == [] then 0 else Holders(es[..|es| - 1], a) + Holds(es[|es| - 1], a)
  }

  lemma {:induction false} HoldersAfter(es: seq<Entry>, k: nat, e: Entry, a: nat)
    requires k < |es|
    ensures Holds(es[k], a) <= Holders(es, a)
    ensures Holders(es[k := e], a) == Holders(es, a) - Holds(es[k], a) + Holds(e, a)
  {
    var m := |es| - 1;
    if k < m {
      assert es[k := e][..m] == es[..m][k := e];
      HoldersAfter(es[..m], k, e, a);
    } else {
      assert es[k := e][..m] == es[..m];
    }
  }

  lemma {:induction false} NothingHeld(es: seq<Entry>, a: nat)
    requires forall k :: 0 <= k < |es| ==> !Counted(es[k])
    ensures Holders(es, a) == 0
  {
    if es != [] {
      NothingHeld(es[..|es| - 1], a);
    }
  }

  /** What is allocated is what the entries hold, and each address is held once. */
  ghost predicate Owned(s: State) {
    forall a: nat :: Holders(s.entries, a) == if a in s.live then 1 else 0
  }

  lemma OwnedAt(s: State, a: Step, x: nat)
    requires Next(s, a).Some? && Holders(s.entries, x) == (if x in s.live then 1 else 0)
    ensures var t := Next(s, a).value;
            Holders(t.entries, x) == if x in t.live then 1 else 0
  {
    var t := Next(s, a).value;
    if a == Begin {
      assert t.entries[..|s.entries|] == s.entries;
    } else {
      HoldersAfter(s.entries, a.k, t.entries[a.k], x);
      HeldChange(s, a, x);
    }
  }

  /** What the step changes at its own entry matches what it allocates or frees. */
  lemma HeldChange(s: State, a: Step, x: nat)
    requires a != Begin && Next(s, a).Some?
    ensures var t := Next(s, a).value;
            && a.k < |t.entries| == |s.entries|
            && t.entries == s.entries[a.k := t.entries[a.k]]
            && Holds(t.entries[a.k], x) - Holds(s.entries[a.k], x) ==
               (if x in t.live then 1 else 0) - (if x in s.live then 1 else 0)
  {
  }

  lemma OwnedNext(s: State, a: Step)
    requires Owned(s) && Next(s, a).Some?
    ensures Owned(Next(s, a).value)
  {
    var t := Next(s, a).value;
    forall x: nat ensures Holders(t.entries, x) == if x in t.live then 1 else 0 {
      OwnedAt(s, a, x);
    }
  }

  ghost predicate Inv(s: State) {
    s.ntimers == Outstanding(s.entries) && Owned(s)
  }

  lemma InvNext(s: State, a: Step)
    requires Inv(s) && Next(s, a).Some?
    ensures Inv(Next(s, a).value)
  {
    OwnedNext(s, a);
    match a
    case Begin =>
      assert (s.entries + [Entry(Begun, 0, 0)])[..|s.entries|] == s.entries;
    case _ =>
      OutstandingAfter(s.entries, a.k, Next(s, a).value.entries[a.k]);
  }

  lemma {:induction false} InvRun(run: seq<Step>)
    requires Exec(Machine(), Init(), run).Some?
    ensures Inv(Exec(Machine(), Init(), run).value)
  {
    if run != [] {
      InvRun(run[..|run| - 1]);
      InvNext(Exec(Machine(), Init(), run[..|run| - 1]).value, run[|run| - 1]);
    }
  }

  lemma InvReachable(s: State)
    requires Reachable(s)
    ensures Inv(s)
  {
    var run :| Exec(Machine(), Init(), run) == Some(s);
    InvRun(run);
  }

  /** Reading zero in the exit loop: every write's callback has run past its frees, no
      timer is pending, nothing is still allocated.  The callbacks have then returned
      exactly if none stands right behind its decrement. */
  lemma ZeroMeansAllDone(s: State)
    requires Reachable(s)
    ensures s.ntimers >= 0
    ensures s.ntimers == 0 <==> forall k :: 0 <= k < |s.entries| ==> s.entries[k].stage in {Uncounted, Returned}
    ensures s.ntimers == 0 ==> s.live == {}
    ensures s.ntimers == 0 ==> ((forall e <- s.entries :: e.stage == Returned) <==>
                                (forall e <- s.entries :: e.stage != Uncounted))
  {
    InvReachable(s);
    NoneOutstanding(s.entries);
    if s.ntimers == 0 {
      forall a: nat ensures a !in s.live {
        NothingHeld(s.entries, a);
        assert Holders(s.entries, a) == if a in s.live then 1 else 0;
      }
    }
  }

  /** Each allocation is freed once: a callback that is due to free something finds it
      allocated, and no one else holds it. */
  lemma NoDoubleFree(s: State, k: nat)
    requires Reachable(s) && k < |s.entries|
    ensures At(s, k, Firing) ==> Next(s, FreeTimer(k)).Some?
    ensures At(s, k, TimerFreed) ==> Next(s, FreeData(k)).Some?
    ensures forall a: nat :: Holds(s.entries[k], a) > 0 ==> Holders(s.entries, a) == 1
  {
    InvReachable(s);
    forall a: nat ensures Holds(s.entries[k], a) > 0 ==> a in s.live && Holders(s.entries, a) == 1 {
      HoldersAfter(s.entries, k, s.entries[k], a);
      assert Holders(s.entries, a) == if a in s.live then 1 else 0;
    }
    assert At(s, k, Firing) ==> Holds(s.entries[k], s.entries[k].timer) > 0;
    assert At(s, k, TimerFreed) ==> Holds(s.entries[k], s.entries[k].data) > 0;
  }

  lemma Go(s: State, a: Step) returns (t: State)
    requires Reachable(s) && Next(s, a).Some?
    ensures Reachable(t) && Next(s, a) == Some(t)
  {
    ReachesNext(Machine(), Init(), s, a);
    t := Next(s, a).value;
  }

  /** What zero does not mean: a callback may still be executing its last statement. */
  lemma CallbackStillRunning() returns (s: State)
    ensures Reachable(s) && s.ntimers == 0 && |s.entries| == 1 && s.entries[0].stage == Uncounted
  {
    ReachesItself(Machine(), Init());
    s := Go(Init(), Begin);
    s := Go(s, AllocTimer(0, 0));
    s := Go(s, AllocData(0, 1));
    assert s == State(1, [Entry(HasBoth, 0, 1)], {0, 1});
    s := Go(s, Add(0));
    s := Go(s, Expire(0));
    assert s == State(1, [Entry(Firing, 0, 1)], {0, 1});
    s := Go(s, FreeTimer(0));
    s := Go(s, FreeData(0));
    assert s == State(1, [Entry(DataFreed, 0, 1)], {});
    s := Go(s, Uncount(0));
  }

  // ------------------------------------------------------------ the exit loop ends

  function Rank(stage: Stage): nat {
    match stage
    case Begun => 0
    case HasTimer => 1
    case HasBoth => 2
    case Armed => 3
    case Firing => 4
    case TimerFreed => 5
    case DataFreed => 6
    case Uncounted => 7
    case Returned => 8
  }

  function StepsLeft(es: seq<Entry>): nat {
    if es == [] then 0 else StepsLeft(es[..|es| - 1]) + 8 - Rank(es[|es| - 1].stage)
  }

  lemma {:induction false} StepsLeftAfter(es: seq<Entry>, k: nat, e: Entry)
    requires k < |es|
    ensures StepsLeft(es[k := e]) == StepsLeft(es) + Rank(es[k].stage) - Rank(e.stage)
  {
    var m := |es| - 1;
    if k < m {
      assert es[k := e][..m] == es[..m][k := e];
      StepsLeftAfter(es[..m], k, e);
    } else {
      assert es[k := e][..m] == es[..m];
    }
  }

  lemma StepsLeftDrops(s: State, a: Step)
    requires a != Begin && Next(s, a).Some?
    ensures StepsLeft(Next(s, a).value.entries) < StepsLeft(s.entries)
  {
    StepsLeftAfter(s.entries, a.k, Next(s, a).value.entries[a.k]);
  }

  ghost predicate NoNewWrite(run: seq<Step>) {
    forall k :: 0 <= k < |run| ==> run[k] != Begin
  }

  lemma {:induction false} ShortRun(s: State, run: seq<Step>)
    requires NoNewWrite(run) && Exec(Machine(), s, run).Some?
    ensures |run| + StepsLeft(Exec(Machine(), s, run).value.entries) <= StepsLeft(s.entries)
  {
    if run != [] {
      var before := run[..|run| - 1];
      ShortRun(s, before);
      StepsLeftDrops(Exec(Machine(), s, before).value, run[|run| - 1]);
    }
  }

  /** There is always an address that is not in use. */
  lemma {:induction false} FreeAddress(live: set<nat>) returns (addr: nat)
    ensures addr !in live && forall a <- live :: a < addr
    decreases |live|
  {
    addr := 0;
    if live != {} {
      var a :| a in live;
      var other := FreeAddress(live - {a});
      addr := if a < other then other else a + 1;
      forall x <- live ensures x < addr {
        assert x == a || x in live - {a};
      }
    }
  }

  /** As long as a callback has not returned, something can still happen. */
  lemma StepAvailable(s: State, k: nat) returns (a: Step)
    requires Reachable(s) && k < |s.entries| && s.entries[k].stage != Returned
    ensures a != Begin && Next(s, a).Some?
  {
    NoDoubleFree(s, k);
    var addr := FreeAddress(s.live);
    a := match s.entries[k].stage
         case Begun => AllocTimer(k, addr)
         case HasTimer => AllocData(k, addr)
         case HasBoth => Add(k)
         case Armed => Expire(k)
         case Firing => FreeTimer(k)
         case TimerFreed => FreeData(k)
         case DataFreed => Uncount(k)
         case _ => Return(k);
  }

  /** Once writes have stopped, every run of what is left, whatever its order, is bounded,
      and when it cannot go on ntimers is zero, all callbacks have returned and nothing
      is allocated: the exit loop ends. */
  lemma ExitLoopEnds(s: State, run: seq<Step>, t: State)
    requires Reachable(s) && NoNewWrite(run) && Exec(Machine(), s, run) == Some(t)
    ensures |run| <= StepsLeft(s.entries)
    ensures (forall a | a != Begin :: Next(t, a) == None) ==>
              t.ntimers == 0 && t.live == {} && forall e <- t.entries :: e.stage == Returned
  {
    ShortRun(s, run);
    var start: seq<Step> :| Exec(Machine(), Init(), start) == Some(s);
    Through(Machine(), Init(), start, s, run, t);
    if forall a | a != Begin :: Next(t, a) == None {
      forall k: nat | k < |t.entries| ensures t.entries[k].stage == Returned {
        if t.entries[k].stage != Returned {
          var a := StepAvailable(t, k);
        }
      }
      ZeroMeansAllDone(t);
    }
  }
}
