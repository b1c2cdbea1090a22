/** SOLUTIONS/s_20/lab7_uio.c: interrupts add to nevents; a read waits for it to be
    positive, loads it, subtracts what it loaded and reports that. */
module EventCount {
  import opened Options
  import opened Runs

  /** A reader: outside, past its wait, or holding the count it has loaded. */
  datatype Reader = Outside | Ready | Holding(nev: int)

  /** `arrived` and `taken` are history variables: interrupts since the counter was
      set to zero, and the sum of everything subtracted. */
  datatype State = State(arrived: nat, nevents: int, taken: int, readers: seq<Reader>)

  datatype Step = Interrupt | Pass(r: nat) | Signalled(r: nat) | Load(r: nat) | Subtract(r: nat)

  function Init(n: nat): State {
    State(0, 0, 0, seq(n, _ => Outside))
  }

  function Next(s: State, a: Step): Option<State> {
    match a
    case Interrupt => Some(s.(arrived := s.arrived + 1, nevents := s.nevents + 1))
    case Pass(r) =>
      if r < |s.readers| && s.readers[r] == Outside && s.nevents > 0
      then Some(s.(readers := s.readers[r := Ready])) else None
    case Signalled(r) =>
      if r < |s.readers| && s.readers[r] == Ready then Some(s.(readers := s.readers[r := Outside])) else None
    case Load(r) =>
      if r < |s.readers| && s.readers[r] == Ready
      then Some(s.(readers := s.readers[r := Holding(s.nevents)])) else None
    case Subtract(r) =>
      if r < |s.readers| && s.readers[r].Holding? then
        var nev := s.readers[r].nev;
        Some(s.(nevents := s.nevents - nev, taken := s.taken + nev, readers := s.readers[r := Outside]))
      else None
  }

  function Machine(): (State, Step) -> Option<State> {
    (s, a) => Next(s, a)
  }

  ghost predicate Reachable(n: nat, s: State) {
    Reaches(Machine(), Init(n), s)
  }

  ghost predicate Inv(n: nat, s: State) {
    && |s.readers| == n
    && s.arrived == s.nevents + s.taken
    && (n <= 1 ==>
          && s.nevents >= 0
          && (forall r :: 0 <= r < n ==>
                && (s.readers[r] == Ready ==> s.nevents > 0)
                && (s.readers[r].Holding? ==> 0 < s.readers[r].nev <= s.nevents)))
  }

  lemma InvNext(n: nat, s: State, a: Step)
    requires Inv(n, s) && Next(s, a).Some?
    ensures Inv(n, Next(s, a).value)
  {
  }

  /** No event is lost or invented by any number of readers: what arrived is what is
      left plus what was taken.  (With several readers, both may go wrong together.) */
  lemma ArrivedIsLeftPlusTaken(n: nat, s: State)
    requires Reachable(n, s)
    ensures Inv(n, s)
  {
    var run :| Exec(Machine(), Init(n), run) == Some(s);
    forall t, a | Inv(n, t) && Next(t, a).Some? ensures Inv(n, Next(t, a).value) {
      InvNext(n, t, a);
    }
    Preserved(Machine(), t => Inv(n, t), a => true, Init(n), run);
  }

  lemma Go(n: nat, s: State, a: Step) returns (t: State)
    requires Reachable(n, s) && Next(s, a).Some?
    ensures Reachable(n, t) && Next(s, a) == Some(t)
  {
    ReachesNext(Machine(), Init(n), s, a);
    t := Next(s, a).value;
  }

  /** One event and two readers past their wait. */
  lemma TwoReady(n: nat) returns (s: State)
    requires n >= 2
    ensures Reachable(n, s) && s == State(1, 1, 0, Init(n).readers[0 := Ready][1 := Ready])
  {
    ReachesItself(Machine(), Init(n));
    s := Go(n, Init(n), Interrupt);
    s := Go(n, s, Pass(0));
    s := Go(n, s, Pass(1));
  }

  /** Both load the same event, and both report it. */
  lemma CountedTwice(n: nat) returns (s: State)
    requires n >= 2
    ensures Reachable(n, s) && s.nevents == -1 && s.taken == 2 && s.arrived == 1
  {
    s := TwoReady(n);
    s := Go(n, s, Load(0));
    s := Go(n, s, Load(1));
    s := Go(n, s, Subtract(0));
    s := Go(n, s, Subtract(1));
  }

  /** One takes the event between the other's wait and its load. */
  lemma NothingLeft(n: nat) returns (s: State)
    requires n >= 2
    ensures Reachable(n, s) && |s.readers| == n && s.readers[1] == Holding(0)
  {
    s := TwoReady(n);
    s := Go(n, s, Load(0));
    s := Go(n, s, Subtract(0));
    s := Go(n, s, Load(1));
  }

  /** The counter never goes negative, and no event is reported twice, exactly when
      there is at most one reader. */
  lemma NeverNegativeIff(n: nat)
    ensures (forall s | Reachable(n, s) :: s.nevents >= 0) <==> n <= 1
    ensures (forall s | Reachable(n, s) :: s.taken <= s.arrived) <==> n <= 1
  {
    if n <= 1 {
      forall s | Reachable(n, s) ensures s.nevents >= 0 && s.taken <= s.arrived {
        ArrivedIsLeftPlusTaken(n, s);
      }
    } else {
      var s := CountedTwice(n);
    }
  }

  ghost predicate ReportsPositive(s: State) {
    forall r :: 0 <= r < |s.readers| && s.readers[r].Holding? ==> s.readers[r].nev > 0
  }

  /** Every read that gets as far as reporting reports at least one event, exactly
      when there is at most one reader. */
  lemma ReportsPositiveIff(n: nat)
    ensures (forall s | Reachable(n, s) :: ReportsPositive(s)) <==> n <= 1
  {
    if n <= 1 {
      forall s | Reachable(n, s) ensures ReportsPositive(s) {
        ArrivedIsLeftPlusTaken(n, s);
      }
    } else {
      var s := NothingLeft(n);
      assert !ReportsPositive(s);
    }
  }
}
