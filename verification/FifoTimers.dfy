/** 11_LAB2/MKtimer.c: every write starts a timer ten seconds ahead and appends its
    node to a list; the callback frees the head of the list, trusting that it belongs
    to the timer that fired.

    A write allocates and computes `expires` (line 62), appends the node with
    list_add_tail (65) and calls add_timer (67).  The list is the kernel's circular one,
    pointer by pointer: list_add_tail is one load and four stores.  The source has
    comments about locks, at lines 23, 36 and 64, and takes none; what a lock of the
    writers would cover, and whether the callback would be kept out of it, are
    parameters.  Callbacks do not overlap; the kernel fires expired timers in the order
    of their expiry, and those with equal expiry in the order they were added. */
module FifoTimers {
  import opened Options
  import opened Runs

  /** A lock of the writers always covers list_add_tail; `fromStamp`: it is taken before
      `expires` is computed; `toArm`: it is held over add_timer.  The comment at line 64
      stands for fromStamp == false. */
  datatype Lock = NoLock | Held(fromStamp: bool, toArm: bool)

  /** Where the callback cannot run: nowhere, inside list_add_tail, or wherever a writer
      holds the lock. */
  datatype Shield = Open | OutOfList | OutOfSection

  datatype Config = Config(hz: nat, lock: Lock, shield: Shield)

  /** Inserting: head->prev has been loaded, and `stores` of the four stores done. */
  datatype Stage = Stamped | Inserting(prev: int, stores: nat) | Linked | Done

  /** Nodes are numbered like the writes that made them. */
  const HEAD: int := -1
  const NULL: int := -2

  /** The pointers of all nodes. */
  datatype Ring = Ring(next: map<int, int>, prev: map<int, int>)

  function NextOf(r: Ring, node: int): int {
    if node in r.next then r.next[node] else NULL
  }

  function PrevOf(r: Ring, node: int): int {
    if node in r.prev then r.prev[node] else NULL
  }

  function SetNext(r: Ring, node: int, to: int): (r': Ring)
    ensures forall x :: NextOf(r', x) == if x == node then to else NextOf(r, x)
    ensures forall x :: PrevOf(r', x) == PrevOf(r, x)
  {
    r.(next := r.next[node := to])
  }

  function SetPrev(r: Ring, node: int, to: int): (r': Ring)
    ensures forall x :: PrevOf(r', x) == if x == node then to else PrevOf(r, x)
    ensures forall x :: NextOf(r', x) == NextOf(r, x)
  {
    r.(prev := r.prev[node := to])
  }

  const EMPTY := Ring(map[HEAD := HEAD], map[HEAD := HEAD])

  /** The four stores of list_add_tail for node k, behind the node `last`. */
  function Store(r: Ring, k: nat, last: int, n: nat): Ring {
    if n == 0 then SetPrev(r, HEAD, k)
    else if n == 1 then SetNext(r, k, HEAD)
    else if n == 2 then SetPrev(r, k, last)
    else SetNext(r, last, k)
  }

  /** The node that the n-th of them writes to. */
  function Target(k: nat, last: int, n: nat): int {
    if n == 0 then HEAD else if n <= 2 then k else last
  }

  /** list_del */
  function Unlink(r: Ring, node: int): Ring {
    SetNext(SetPrev(r, NextOf(r, node), PrevOf(r, node)), PrevOf(r, node), NextOf(r, node))
  }

  /** Timer k belongs to the k-th write.  `wrong` records that some callback freed
      another node than that of its timer, `stray` that a pointer was stored in
      memory already freed. */
  datatype State = State(
    jiffies: nat, expires: seq<nat>, stage: seq<Stage>, ring: Ring,
    armed: seq<nat>, freed: set<int>, wrong: bool, stray: bool)

  datatype Step = Tick(n: nat) | Stamp | Insert(k: nat) | Arm(k: nat) | Fire

  function Init(): State {
    State(0, [], [], EMPTY, [], {}, false, false)
  }

  /** The next operation of list_add_tail for node k. */
  function InsertStep(s: State, k: nat): State
    requires k < |s.stage| && (s.stage[k] == Stamped || s.stage[k].Inserting?)
  {
    if s.stage[k] == Stamped then
      s.(stage := s.stage[k := Inserting(PrevOf(s.ring, HEAD), 0)])
    else
      var last, n := s.stage[k].prev, s.stage[k].stores;
      s.(stage := s.stage[k := if n < 3 then Inserting(last, n + 1) else Linked],
         ring := Store(s.ring, k, last, n),
         stray := s.stray || Target(k, last, n) in s.freed)
  }

  /** The callback of timer k: take the first node, list_del, kfree. */
  function Callback(s: State, k: nat): State {
    var node := NextOf(s.ring, HEAD);
    s.(ring := Unlink(s.ring, node),
       stray := s.stray || NextOf(s.ring, node) in s.freed || PrevOf(s.ring, node) in s.freed,
       freed := s.freed + {node},
       wrong := s.wrong || node != k)
  }

  predicate Busy(s: State) {
    exists k :: 0 <= k < |s.stage| && s.stage[k].Inserting?
  }

  /** A write at this stage holds the lock. */
  predicate Holds(lock: Lock, stage: Stage) {
    lock.Held? &&
    match stage
    case Stamped => lock.fromStamp
    case Inserting(_, _) => true
    case Linked => lock.toArm
    case Done => false
  }

  predicate Free(c: Config, s: State) {
    forall k :: 0 <= k < |s.stage| ==> !Holds(c.lock, s.stage[k])
  }

  predicate FromStamp(c: Config) {
    c.lock.Held? && c.lock.fromStamp
  }

  predicate KeptOut(c: Config, s: State) {
    match c.shield
    case Open => false
    case OutOfList => Busy(s)
    case OutOfSection => Busy(s) || !Free(c, s)
  }

  /** The lock covers the whole of a write from line 62 to line 67. */
  predicate Whole(c: Config) {
    c.lock == Held(true, true)
  }

  predicate Known(s: State, timers: seq<nat>) {
    forall i :: 0 <= i < |timers| ==> timers[i] < |s.expires|
  }

  /** The first of the timers that expire earliest. */
  function Earliest(expires: seq<nat>, armed: seq<nat>): (i: nat)
    requires armed != [] && forall i :: 0 <= i < |armed| ==> armed[i] < |expires|
    ensures i < |armed|
    ensures forall j :: 0 <= j < |armed| ==> expires[armed[i]] <= expires[armed[j]]
    ensures forall j :: 0 <= j < i ==> expires[armed[i]] < expires[armed[j]]
  {
    if |armed| == 1 then 0 else
    var k := |armed| - 1;
    var i := Earliest(expires, armed[..k]);
    if expires[armed[k]] < expires[armed[i]] then k else i
  }

  function Next(c: Config, s: State, a: Step): Option<State> {
    match a
    case Tick(n) => Some(s.(jiffies := s.jiffies + n))
    case Stamp =>
      if FromStamp(c) && !Free(c, s) then None else
      Some(s.(expires := s.expires + [s.jiffies + 10 * c.hz], stage := s.stage + [Stamped]))
    case Insert(k) =>
      if k >= |s.stage| || !(s.stage[k] == Stamped || s.stage[k].Inserting?) then None else
      if s.stage[k] == Stamped && !FromStamp(c) && !Free(c, s) then None else
      Some(InsertStep(s, k))
    case Arm(k) =>
      if k >= |s.stage| || s.stage[k] != Linked then None else
      Some(s.(stage := s.stage[k := Done], armed := s.armed + [k]))
    case Fire =>
      if s.armed == [] || !Known(s, s.armed) || KeptOut(c, s) then None else
      var i := Earliest(s.expires, s.armed);
      if s.expires[s.armed[i]] > s.jiffies then None else
      Some(Callback(s.(armed := s.armed[..i] + s.armed[i + 1..]), s.armed[i]))
  }

  function Machine(c: Config): (State, Step) -> Option<State> {
    (s, a) => Next(c, s, a)
  }

  ghost predicate Reachable(c: Config, s: State) {
    Reaches(Machine(c), Init(), s)
  }

  // ------------------------------------------- whole writes, and no callback inside

  function LinkedCount(s: State): nat {
    if s.stage != [] && s.stage[|s.stage| - 1] !in {Linked, Done} then |s.stage| - 1 else |s.stage|
  }

  function ArmedCount(s: State): nat {
    if s.stage != [] && s.stage[|s.stage| - 1] != Done then |s.stage| - 1 else |s.stage|
  }

  function Range(lo: nat, hi: nat): seq<nat>
    requires lo <= hi
  {
    seq(hi - lo, i => lo + i)
  }

  /** All writes but possibly the last are complete. */
  ghost predicate Serial(s: State) {
    && |s.stage| == |s.expires|
    && forall k :: 0 <= k < |s.stage| - 1 ==> s.stage[k] == Done
  }

  /** Later writes expire no earlier, and none later than ten seconds from now. */
  ghost predicate InOrder(c: Config, s: State) {
    && (forall i, j :: 0 <= i < j < |s.expires| ==> s.expires[i] <= s.expires[j])
    && (forall k :: 0 <= k < |s.expires| ==> s.expires[k] <= s.jiffies + 10 * c.hz)
  }

  function Last(lo: nat, hi: nat): int {
    if lo < hi then hi - 1 else HEAD
  }

  /** The pointers link the nodes lo, lo + 1, ..., hi - 1 in this order; `tail` is where
      the head's prev points. */
  ghost predicate Chain(r: Ring, lo: nat, hi: nat, tail: int) {
    && NextOf(r, HEAD) == (if lo < hi then lo else HEAD)
    && PrevOf(r, HEAD) == tail
    && (forall k :: lo <= k < hi ==> NextOf(r, k) == if k + 1 < hi then k + 1 else HEAD)
    && (forall k :: lo <= k < hi ==> PrevOf(r, k) == if lo < k then k - 1 else HEAD)
  }

  /** Node hi is being appended, and n of the stores are done. */
  ghost predicate Joining(r: Ring, lo: nat, hi: nat, n: nat) {
    && Chain(r, lo, hi, if n >= 1 then hi else Last(lo, hi))
    && (n >= 2 ==> NextOf(r, hi) == HEAD)
    && (n >= 3 ==> PrevOf(r, hi) == Last(lo, hi))
  }

  lemma StoreJoins(r: Ring, lo: nat, hi: nat, n: nat)
    requires lo <= hi && n <= 3 && Joining(r, lo, hi, n)
    ensures var t := Store(r, hi, Last(lo, hi), n);
            if n < 3 then Joining(t, lo, hi, n + 1) else Chain(t, lo, hi + 1, hi)
  {
  }

  /** list_del of the first node of an intact list. */
  lemma UnlinkFirst(r: Ring, lo: nat, hi: nat)
    requires lo < hi && Chain(r, lo, hi, hi - 1)
    ensures Chain(Unlink(r, lo), lo + 1, hi, Last(lo + 1, hi))
    ensures PrevOf(r, lo) == HEAD && (NextOf(r, lo) == HEAD || NextOf(r, lo) == lo + 1)
  {
  }

  /** The ring is intact, but for the insertion of the last node. */
  ghost predicate Intact(s: State, lo: nat) {
    var hi := LinkedCount(s);
    if hi < |s.stage| && s.stage[hi].Inserting? then
      s.stage[hi].prev == Last(lo, hi) && s.stage[hi].stores <= 3 && Joining(s.ring, lo, hi, s.stage[hi].stores)
    else Chain(s.ring, lo, hi, Last(lo, hi))
  }

  /** Timers fire, and their nodes are freed, in the order they were made. */
  ghost predicate Fifo(s: State, fired: nat) {
    && fired <= ArmedCount(s)
    && s.armed == Range(fired, ArmedCount(s))
    && (forall x <- s.freed :: 0 <= x < fired)
    && !s.wrong && !s.stray
  }

  ghost predicate Good(c: Config, s: State, fired: nat) {
    Serial(s) && InOrder(c, s) && Fifo(s, fired) && Intact(s, fired)
  }

  ghost predicate Inv(c: Config, s: State) {
    exists fired :: Good(c, s, fired)
  }

  lemma RangeTail(lo: nat, hi: nat)
    requires lo < hi
    ensures Range(lo, hi)[0] == lo && Range(lo, hi)[1..] == Range(lo + 1, hi)
  {
  }

  /** Of an increasing list of timers whose expiries do not decrease, the first fires. */
  lemma FirstIsEarliest(c: Config, s: State, fired: nat)
    requires InOrder(c, s) && fired < ArmedCount(s) && ArmedCount(s) <= |s.expires|
    requires s.armed == Range(fired, ArmedCount(s))
    ensures Earliest(s.expires, s.armed) == 0
  {
    var i := Earliest(s.expires, s.armed);
    assert s.armed[0] == fired && s.armed[i] == fired + i;
    assert s.expires[s.armed[0]] <= s.expires[s.armed[i]];
  }

  lemma ArmedTail(c: Config, s: State, fired: nat)
    requires Serial(s) && InOrder(c, s) && Fifo(s, fired) && s.armed != []
    ensures fired < ArmedCount(s) <= LinkedCount(s) && Known(s, s.armed)
    ensures Earliest(s.expires, s.armed) == 0 && s.armed[0] == fired
    ensures s.armed[..0] + s.armed[1..] == Range(fired + 1, ArmedCount(s))
  {
    FirstIsEarliest(c, s, fired);
    RangeTail(fired, ArmedCount(s));
    assert s.armed[..0] + s.armed[1..] == s.armed[1..];
  }

  lemma FireState(c: Config, s: State, fired: nat)
    requires Serial(s) && InOrder(c, s) && Fifo(s, fired) && Next(c, s, Fire).Some?
    ensures fired < ArmedCount(s) <= LinkedCount(s)
    ensures Next(c, s, Fire) == Some(Callback(s.(armed := Range(fired + 1, ArmedCount(s))), fired))
  {
    ArmedTail(c, s, fired);
  }

  lemma FireKeepsFifo(c: Config, s: State, fired: nat)
    requires Serial(s) && InOrder(c, s) && Fifo(s, fired) && Next(c, s, Fire).Some?
    requires NextOf(s.ring, HEAD) == fired && PrevOf(s.ring, fired) == HEAD
    requires NextOf(s.ring, fired) == HEAD || NextOf(s.ring, fired) == fired + 1
    ensures var t := Next(c, s, Fire).value;
            Serial(t) && InOrder(c, t) && Fifo(t, fired + 1) && t.stage == s.stage && t.ring == Unlink(s.ring, fired)
  {
    FireState(c, s, fired);
  }

  lemma FireNext(c: Config, s: State, fired: nat)
    requires c.shield != Open && Good(c, s, fired) && Next(c, s, Fire).Some?
    ensures Good(c, Next(c, s, Fire).value, fired + 1)
  {
    FireState(c, s, fired);
    assert !Busy(s);
    UnlinkFirst(s.ring, fired, LinkedCount(s));
    FireKeepsFifo(c, s, fired);
  }

  lemma InsertNext(c: Config, s: State, k: nat, fired: nat)
    requires Whole(c) && Good(c, s, fired) && Next(c, s, Insert(k)).Some?
    ensures Good(c, Next(c, s, Insert(k)).value, fired)
  {
    var t := Next(c, s, Insert(k)).value;
    assert k == |s.stage| - 1 == LinkedCount(s);
    assert ArmedCount(t) == ArmedCount(s) == k;
    if s.stage[k].Inserting? {
      StoreJoins(s.ring, fired, k, s.stage[k].stores);
    }
  }

  lemma StampNext(c: Config, s: State, fired: nat)
    requires Whole(c) && Good(c, s, fired) && Next(c, s, Stamp).Some?
    ensures Good(c, Next(c, s, Stamp).value, fired)
  {
    forall k | 0 <= k < |s.stage| ensures s.stage[k] == Done {
      assert !Holds(c.lock, s.stage[k]);
    }
  }

  lemma ArmNext(c: Config, s: State, k: nat, fired: nat)
    requires Whole(c) && Good(c, s, fired) && Next(c, s, Arm(k)).Some?
    ensures Good(c, Next(c, s, Arm(k)).value, fired)
  {
    var t := Next(c, s, Arm(k)).value;
    assert k == |s.stage| - 1;
    assert t.armed == Range(fired, ArmedCount(t));
  }

  lemma TickNext(c: Config, s: State, n: nat, fired: nat)
    requires Good(c, s, fired)
    ensures Good(c, Next(c, s, Tick(n)).value, fired)
  {
  }

  lemma InvNext(c: Config, s: State, a: Step)
    requires Whole(c) && c.shield != Open && Inv(c, s) && Next(c, s, a).Some?
    ensures Inv(c, Next(c, s, a).value)
  {
    var fired: nat :| Good(c, s, fired);
    match a
    case Tick(n) => TickNext(c, s, n, fired);
    case Stamp => StampNext(c, s, fired);
    case Insert(k) => InsertNext(c, s, k, fired);
    case Arm(k) => ArmNext(c, s, k, fired);
    case Fire => FireNext(c, s, fired);
  }

  lemma InvReachable(c: Config, s: State)
    requires Whole(c) && c.shield != Open && Reachable(c, s)
    ensures Inv(c, s)
  {
    var run :| Exec(Machine(c), Init(), run) == Some(s);
    forall t, a | Inv(c, t) && Next(c, t, a).Some? ensures Inv(c, Next(c, t, a).value) {
      InvNext(c, t, a);
    }
    assert Good(c, Init(), 0);
    Preserved(Machine(c), t => Inv(c, t), a => true, Init(), run);
  }

  /** The pointers form a well-linked list of these nodes, forwards and backwards. */
  ghost predicate IsList(r: Ring, list: seq<nat>) {
    && NextOf(r, HEAD) == (if list == [] then HEAD else list[0])
    && PrevOf(r, HEAD) == (if list == [] then HEAD else list[|list| - 1])
    && (forall i :: 0 <= i < |list| ==> NextOf(r, list[i]) == if i + 1 < |list| then list[i + 1] else HEAD)
    && (forall i :: 0 <= i < |list| ==> PrevOf(r, list[i]) == if i > 0 then list[i - 1] else HEAD)
  }

  /** With whole writes one at a time and the callback kept out of the insertion, ticks and
      callbacks wherever else they fall: the pointers form a list sorted by expiry that
      holds every pending timer, every callback has freed the node of its own timer,
      nothing was stored in freed memory, and no pending timer's node is freed. */
  lemma FreedNodeIsFiredTimer(c: Config, s: State) returns (list: seq<nat>)
    requires Whole(c) && c.shield != Open && Reachable(c, s)
    ensures !s.wrong && !s.stray
    ensures forall k <- s.armed :: k in list && (k as int) !in s.freed
    ensures Known(s, list) && forall i, j :: 0 <= i < j < |list| ==> s.expires[list[i]] <= s.expires[list[j]]
    ensures !Busy(s) ==> IsList(s.ring, list)
  {
    InvReachable(c, s);
    var fired: nat :| Good(c, s, fired);
    list := Range(fired, LinkedCount(s));
    forall k <- s.armed ensures k in list {
      assert fired <= k < ArmedCount(s) <= LinkedCount(s);
      assert list[k - fired] == k;
    }
    if !Busy(s) {
      ListOfChain(s.ring, fired, LinkedCount(s));
    }
  }

  lemma ListOfChain(r: Ring, lo: nat, hi: nat)
    requires lo <= hi && Chain(r, lo, hi, Last(lo, hi))
    ensures IsList(r, Range(lo, hi))
  {
  }

  // --------------------------------------------------- with less, or with nothing

  lemma Go(c: Config, s: State, a: Step) returns (t: State)
    requires Reachable(c, s) && Next(c, s, a).Some?
    ensures Reachable(c, t) && Next(c, s, a) == Some(t)
  {
    ReachesNext(Machine(c), Init(), s, a);
    t := Next(c, s, a).value;
  }

  /** What list_add_tail makes of the ring when nothing comes between its stores. */
  function Appended(r: Ring, k: nat): Ring {
    var last := PrevOf(r, HEAD);
    Store(Store(Store(Store(r, k, last, 0), k, last, 1), k, last, 2), k, last, 3)
  }

  lemma GoStores(c: Config, s: State, k: nat, last: int, n: nat) returns (t: State)
    requires Reachable(c, s) && k < |s.stage| && s.stage[k] == Inserting(last, n) && n <= 3 && s.freed == {}
    ensures Reachable(c, t)
    ensures t == s.(stage := s.stage[k := if n < 3 then Inserting(last, n + 1) else Linked],
                    ring := Store(s.ring, k, last, n))
  {
    t := Go(c, s, Insert(k));
  }

  lemma GoThree(c: Config, s: State, k: nat) returns (t: State)
    requires FromStamp(c) || Free(c, s)
    requires Reachable(c, s) && k < |s.stage| && s.stage[k] == Stamped && s.freed == {}
    ensures Reachable(c, t)
    ensures var last := PrevOf(s.ring, HEAD);
            t == s.(stage := s.stage[k := Inserting(last, 3)],
                    ring := Store(Store(Store(s.ring, k, last, 0), k, last, 1), k, last, 2))
  {
    var last := PrevOf(s.ring, HEAD);
    t := Go(c, s, Insert(k));
    t := GoStores(c, t, k, last, 0);
    t := GoStores(c, t, k, last, 1);
    t := GoStores(c, t, k, last, 2);
  }

  lemma GoInsert(c: Config, s: State, k: nat) returns (t: State)
    requires FromStamp(c) || Free(c, s)
    requires Reachable(c, s) && k < |s.stage| && s.stage[k] == Stamped && s.freed == {}
    ensures Reachable(c, t)
    ensures t == s.(stage := s.stage[k := Linked], ring := Appended(s.ring, k))
  {
    t := GoThree(c, s, k);
    t := GoStores(c, t, k, PrevOf(s.ring, HEAD), 3);
  }

  /** Two writers and no lock over line 62, though perhaps over everything after it: the
      second computes its expiry later and gets into the list first. */
  lemma Overtaken(c: Config) returns (s: State)
    requires !FromStamp(c)
    ensures Reachable(c, s)
    ensures var d := 10 * c.hz;
            s == State(1 + d, [d, 1 + d], [Done, Done], Appended(Appended(EMPTY, 1), 0), [1, 0], {}, false, false)
  {
    ReachesItself(Machine(c), Init());
    s := Go(c, Init(), Stamp);
    s := Go(c, s, Tick(1));
    s := Go(c, s, Stamp);
    var d := 10 * c.hz;
    assert s == State(1, [d, 1 + d], [Stamped, Stamped], EMPTY, [], {}, false, false);
    s := GoInsert(c, s, 1);
    s := Go(c, s, Arm(1));
    assert s == State(1, [d, 1 + d], [Stamped, Done], Appended(EMPTY, 1), [1], {}, false, false);
    s := GoInsert(c, s, 0);
    s := Go(c, s, Arm(0));
    s := Go(c, s, Tick(d));
  }

  /** Then the first timer to fire frees the node of the other, which is pending. */
  lemma PendingTimerFreed(c: Config) returns (s: State)
    requires !FromStamp(c)
    ensures Reachable(c, s) && s.wrong && s.armed == [1] && 1 in s.freed
  {
    var s0 := Overtaken(c);
    var i := Earliest(s0.expires, s0.armed);
    assert s0.armed[0] == 1 && s0.armed[1] == 0;
    assert i == 1;
    assert NextOf(s0.ring, HEAD) == 1;
    s := Go(c, s0, Fire);
  }

  /** The first write, up to add_timer. */
  lemma FirstLinked(c: Config) returns (s: State)
    ensures Reachable(c, s)
    ensures s == State(0, [10 * c.hz], [Linked], Appended(EMPTY, 0), [], {}, false, false)
  {
    ReachesItself(Machine(c), Init());
    s := Go(c, Init(), Stamp);
    assert s == State(0, [10 * c.hz], [Stamped], EMPTY, [], {}, false, false);
    s := GoInsert(c, s, 0);
  }

  /** One process, whose first timer is due at its second write. */
  lemma SecondWrite(c: Config) returns (s: State)
    ensures Reachable(c, s)
    ensures var d := 10 * c.hz;
            s == State(d, [d, d + d], [Done, Stamped], Appended(EMPTY, 0), [0], {}, false, false)
  {
    var d := 10 * c.hz;
    s := FirstLinked(c);
    s := Go(c, s, Arm(0));
    assert s == State(0, [d], [Done], Appended(EMPTY, 0), [0], {}, false, false);
    s := Go(c, s, Tick(d));
    assert s == State(d, [d], [Done], Appended(EMPTY, 0), [0], {}, false, false);
    s := Go(c, s, Stamp);
  }

  /** If the callback runs before the last store of list_add_tail ... */
  lemma CallbackInside(c: Config) returns (s: State)
    requires c.shield == Open
    ensures Reachable(c, s)
    ensures var d := 10 * c.hz;
            && s.jiffies == d && s.expires == [d, d + d] && s.stage == [Done, Inserting(0, 3)]
            && s.armed == [] && s.freed == {0} && NextOf(s.ring, HEAD) == HEAD
  {
    var s0 := SecondWrite(c);
    var last := PrevOf(s0.ring, HEAD);
    assert last == 0;
    s0 := GoThree(c, s0, 1);
    assert NextOf(s0.ring, HEAD) == 0 && NextOf(s0.ring, 0) == HEAD && PrevOf(s0.ring, 0) == HEAD;
    s := Go(c, s0, Fire);
    assert s.armed == [];
  }

  /** ... that store goes into the freed node; the new node is never found ... */
  lemma NodeLost(c: Config) returns (s: State)
    requires c.shield == Open
    ensures Reachable(c, s) && s.stray && NextOf(s.ring, HEAD) == HEAD
    ensures var d := 10 * c.hz;
            s.jiffies == d && s.expires == [d, d + d] && s.stage == [Done, Done] && s.armed == [1]
  {
    s := CallbackInside(c);
    s := Go(c, s, Insert(1));
    assert s.stray && s.stage == [Done, Linked] && s.armed == [] && NextOf(s.ring, HEAD) == HEAD;
    s := Go(c, s, Arm(1));
  }

  /** ... and its timer frees the head of the list itself. */
  lemma HeadFreed(c: Config) returns (s: State)
    requires c.shield == Open
    ensures Reachable(c, s) && s.stray && s.wrong && HEAD in s.freed
  {
    s := NodeLost(c);
    s := Go(c, s, Tick(10 * c.hz));
    assert s.armed == [1] && s.expires[1] == s.jiffies && NextOf(s.ring, HEAD) == HEAD;
    s := Go(c, s, Fire);
  }

  /** Two writers and a lock that is given up before add_timer: the second timer is
      armed while the first node, already at the head of the list, has none. */
  lemma ArmedFirst(c: Config) returns (s: State)
    requires c.lock == Held(true, false)
    ensures Reachable(c, s)
    ensures var d := 10 * c.hz;
            s == State(d, [d, d], [Linked, Done], Appended(Appended(EMPTY, 0), 1), [1], {}, false, false)
  {
    var d := 10 * c.hz;
    s := FirstLinked(c);
    s := Go(c, s, Stamp);
    assert s == State(0, [d, d], [Linked, Stamped], Appended(EMPTY, 0), [], {}, false, false);
    s := GoInsert(c, s, 1);
    assert s == State(0, [d, d], [Linked, Linked], Appended(Appended(EMPTY, 0), 1), [], {}, false, false);
    s := Go(c, s, Arm(1));
    s := Go(c, s, Tick(d));
  }

  /** Then the callback frees a node whose timer is about to be started. */
  lemma UnarmedNodeFreed(c: Config) returns (s: State)
    requires c.lock == Held(true, false)
    ensures Reachable(c, s) && s.wrong && 0 in s.freed && s.stage == [Linked, Done]
  {
    var s0 := ArmedFirst(c);
    assert NextOf(s0.ring, HEAD) == 0;
    s := Go(c, s0, Fire);
  }

  /** The callback always frees the right node exactly when the writers' lock covers
      everything from the computation of `expires` to add_timer, and the callback is
      kept out of list_add_tail.  Taken where the comment at line 64 asks for it, the
      lock is not enough, whatever it keeps out. */
  lemma RightNodeIff(c: Config)
    ensures (forall s | Reachable(c, s) :: !s.wrong) <==> Whole(c) && c.shield != Open
    ensures (forall s | Reachable(c, s) :: !s.wrong && !s.stray) <==> Whole(c) && c.shield != Open
  {
    if !FromStamp(c) {
      var s := PendingTimerFreed(c);
    } else if !c.lock.toArm {
      var s := UnarmedNodeFreed(c);
    } else if c.shield == Open {
      var s := HeadFreed(c);
    } else {
      forall s | Reachable(c, s) ensures !s.wrong && !s.stray {
        var list := FreedNodeIsFiredTimer(c, s);
      }
    }
  }
}
