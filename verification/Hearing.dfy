/** What it means that a piece of code, running step by step, meets with exactly the
    given acts of others: each is taken up in its turn, or missed because it was not
    its turn; nothing else comes from outside, and no act is made up. */
module Hearing {
  import opened Options
  import opened Runs

  /** `run` leads from s to t and consists of own steps and of those of `acts`, in this
      order, that could take place when they came.  `own` says when a step is ours,
      `may` when others may take one.  The cases say what came last: a step of our own,
      an act that took place, or an act that could not. */
  ghost predicate Hears<S, A>(next: (S, A) -> Option<S>, own: (S, A) -> bool, may: (S, A) -> bool,
                              s: S, run: seq<A>, t: S, acts: seq<A>)
    decreases |run| + |acts|
  {
    || (run == [] && acts == [] && s == t)
    || (run != [] && Exec(next, s, run[..|run| - 1]).Some? &&
          var m, a := Exec(next, s, run[..|run| - 1]).value, run[|run| - 1];
          && next(m, a) == Some(t)
          && (|| (own(m, a) && Hears(next, own, may, s, run[..|run| - 1], m, acts))
              || (acts != [] && acts[|acts| - 1] == a && may(m, a) &&
                    Hears(next, own, may, s, run[..|run| - 1], m, acts[..|acts| - 1]))))
    || (acts != [] && !(may(t, acts[|acts| - 1]) && next(t, acts[|acts| - 1]).Some?) &&
          Hears(next, own, may, s, run, t, acts[..|acts| - 1]))
  }

  lemma HearsNothing<S, A>(next: (S, A) -> Option<S>, own: (S, A) -> bool, may: (S, A) -> bool, s: S)
    ensures Hears(next, own, may, s, [], s, [])
  {
  }

  /** It is a run of the system. */
  lemma {:induction false} HearsExec<S, A>(next: (S, A) -> Option<S>, own: (S, A) -> bool, may: (S, A) -> bool,
                                           s: S, run: seq<A>, t: S, acts: seq<A>)
    requires Hears(next, own, may, s, run, t, acts)
    ensures Exec(next, s, run) == Some(t)
    decreases |acts|
  {
    if acts != [] && Hears(next, own, may, s, run, t, acts[..|acts| - 1]) {
      HearsExec(next, own, may, s, run, t, acts[..|acts| - 1]);
    }
  }

  lemma HearsOwn<S, A>(next: (S, A) -> Option<S>, own: (S, A) -> bool, may: (S, A) -> bool,
                       s: S, run: seq<A>, m: S, acts: seq<A>, a: A, t: S)
    requires Hears(next, own, may, s, run, m, acts) && own(m, a) && next(m, a) == Some(t)
    ensures Hears(next, own, may, s, run + [a], t, acts)
  {
    HearsExec(next, own, may, s, run, m, acts);
    assert (run + [a])[..|run|] == run;
  }

  lemma HearsTaken<S, A>(next: (S, A) -> Option<S>, own: (S, A) -> bool, may: (S, A) -> bool,
                         s: S, run: seq<A>, m: S, acts: seq<A>, a: A, t: S)
    requires Hears(next, own, may, s, run, m, acts) && may(m, a) && next(m, a) == Some(t)
    ensures Hears(next, own, may, s, run + [a], t, acts + [a])
  {
    HearsExec(next, own, may, s, run, m, acts);
    assert (run + [a])[..|run|] == run && (acts + [a])[..|acts|] == acts;
  }

  lemma HearsMissed<S, A>(next: (S, A) -> Option<S>, own: (S, A) -> bool, may: (S, A) -> bool,
                          s: S, run: seq<A>, m: S, acts: seq<A>, a: A)
    requires Hears(next, own, may, s, run, m, acts) && !(may(m, a) && next(m, a).Some?)
    ensures Hears(next, own, may, s, run, m, acts + [a])
  {
    assert (acts + [a])[..|acts|] == acts;
  }

  lemma SplitLast<T>(x: seq<T>, y: seq<T>)
    requires y != []
    ensures x + y == (x + y[..|y| - 1]) + [y[|y| - 1]]
  {
  }

  lemma {:induction false} HearsThrough<S, A>(
    next: (S, A) -> Option<S>, own: (S, A) -> bool, may: (S, A) -> bool,
    s: S, run: seq<A>, m: S, acts: seq<A>, more: seq<A>, t: S, later: seq<A>)
    requires Hears(next, own, may, s, run, m, acts) && Hears(next, own, may, m, more, t, later)
    ensures Hears(next, own, may, s, run + more, t, acts + later)
    decreases |more| + |later|, 1
  {
    if more == [] && later == [] && m == t {
      assert run + more == run && acts + later == acts;
    } else if later != [] && !(may(t, later[|later| - 1]) && next(t, later[|later| - 1]).Some?) &&
              Hears(next, own, may, m, more, t, later[..|later| - 1]) {
      HearsThrough(next, own, may, s, run, m, acts, more, t, later[..|later| - 1]);
      HearsMissed(next, own, may, s, run + more, t, acts + later[..|later| - 1], later[|later| - 1]);
      SplitLast(acts, later);
    } else {
      ThroughStep(next, own, may, s, run, m, acts, more, t, later);
    }
  }

  lemma {:induction false} ThroughStep<S, A>(
    next: (S, A) -> Option<S>, own: (S, A) -> bool, may: (S, A) -> bool,
    s: S, run: seq<A>, m: S, acts: seq<A>, more: seq<A>, t: S, later: seq<A>)
    requires Hears(next, own, may, s, run, m, acts) && more != [] && Exec(next, m, more[..|more| - 1]).Some?
    requires var u, a := Exec(next, m, more[..|more| - 1]).value, more[|more| - 1];
             && next(u, a) == Some(t)
             && (|| (own(u, a) && Hears(next, own, may, m, more[..|more| - 1], u, later))
                 || (later != [] && later[|later| - 1] == a && may(u, a) &&
                       Hears(next, own, may, m, more[..|more| - 1], u, later[..|later| - 1])))
    ensures Hears(next, own, may, s, run + more, t, acts + later)
    decreases |more| + |later|, 0
  {
    var k := |more| - 1;
    var u, a := Exec(next, m, more[..k]).value, more[k];
    SplitLast(run, more);
    if own(u, a) && Hears(next, own, may, m, more[..k], u, later) {
      HearsThrough(next, own, may, s, run, m, acts, more[..k], u, later);
      HearsOwn(next, own, may, s, run + more[..k], u, acts + later, a, t);
    } else {
      var l := |later| - 1;
      HearsThrough(next, own, may, s, run, m, acts, more[..k], u, later[..l]);
      HearsTaken(next, own, may, s, run + more[..k], u, acts + later[..l], a, t);
      SplitLast(acts, later);
    }
  }

  /** The system left to our own steps. */
  function Alone<S, A>(next: (S, A) -> Option<S>, own: (S, A) -> bool): (S, A) -> Option<S> {
    (s, a) => if own(s, a) then next(s, a) else None
  }

  /** Where nothing is to be heard, every step is our own. */
  lemma {:induction false} NothingHeard<S, A>(next: (S, A) -> Option<S>, own: (S, A) -> bool, may: (S, A) -> bool,
                                              s: S, run: seq<A>, t: S)
    requires Hears(next, own, may, s, run, t, [])
    ensures Exec(Alone(next, own), s, run) == Some(t)
  {
    if run != [] {
      NothingHeard(next, own, may, s, run[..|run| - 1], Exec(next, s, run[..|run| - 1]).value);
    }
  }

  /** Every step is one of ours or one that others may take. */
  lemma {:induction false} HearsSteps<S(!new), A(!new)>(
    next: (S, A) -> Option<S>, own: (S, A) -> bool, may: (S, A) -> bool,
    s: S, run: seq<A>, t: S, acts: seq<A>, fine: A -> bool)
    requires Hears(next, own, may, s, run, t, acts)
    requires forall m, a :: own(m, a) || may(m, a) ==> fine(a)
    ensures forall k :: 0 <= k < |run| ==> fine(run[k])
    decreases |run| + |acts|
  {
    if acts != [] && Hears(next, own, may, s, run, t, acts[..|acts| - 1]) {
      HearsSteps(next, own, may, s, run, t, acts[..|acts| - 1], fine);
    } else if run != [] {
      var k := |run| - 1;
      var m := Exec(next, s, run[..k]).value;
      if Hears(next, own, may, s, run[..k], m, acts) {
        HearsSteps(next, own, may, s, run[..k], m, acts, fine);
      } else {
        HearsSteps(next, own, may, s, run[..k], m, acts[..|acts| - 1], fine);
      }
      assert fine(run[k]);
    }
  }

  /** Of an act that others can always take, and that is never ours, the run has
      exactly as many as came. */
  lemma {:induction false} HearsEach<S(!new), A>(
    next: (S, A) -> Option<S>, own: (S, A) -> bool, may: (S, A) -> bool,
    s: S, run: seq<A>, t: S, acts: seq<A>, a: A)
    requires Hears(next, own, may, s, run, t, acts)
    requires forall m :: !own(m, a) && may(m, a) && next(m, a).Some?
    ensures Count(run, a) == Count(acts, a)
    decreases |run| + |acts|
  {
    var k, l := |run| - 1, |acts| - 1;
    if run == [] && acts == [] && s == t {
    } else if acts != [] && !(may(t, acts[l]) && next(t, acts[l]).Some?) &&
              Hears(next, own, may, s, run, t, acts[..l]) {
      HearsEach(next, own, may, s, run, t, acts[..l], a);
    } else {
      var m := Exec(next, s, run[..k]).value;
      if own(m, run[k]) && Hears(next, own, may, s, run[..k], m, acts) {
        HearsEach(next, own, may, s, run[..k], m, acts, a);
      } else {
        HearsEach(next, own, may, s, run[..k], m, acts[..l], a);
      }
    }
  }

  // ------------------------------------------------------- acts one by one, in bursts

  lemma PrefixNone<A>(acts: seq<A>)
    ensures [] + acts == acts
  {
  }

  lemma PrefixMore<A>(met: seq<A>, acts: seq<A>, k: nat, so: seq<A>)
    requires k < |acts| && so == met + acts[..k]
    ensures so + [acts[k]] == met + acts[..k + 1]
  {
  }

  lemma PrefixAll<A>(met: seq<A>, acts: seq<A>)
    ensures met + acts[..|acts|] == met + acts
  {
    assert acts[..|acts|] == acts;
  }

  /** The acts of the first e bursts. */
  function Bursts<A>(env: seq<seq<A>>, e: nat): seq<A>
    requires e <= |env|
  {
    if e == 0 then [] else Bursts(env, e - 1) + env[e - 1]
  }

  lemma OneBurst<A>(acts: seq<A>)
    ensures Bursts([acts], 1) == acts
  {
    assert Bursts([acts], 1) == Bursts([acts], 0) + [acts][0];
  }

  lemma {:induction false} BurstsSplit<A>(env: seq<seq<A>>, e: nat, more: nat)
    requires e + more <= |env|
    ensures Bursts(env, e + more) == Bursts(env, e) + Bursts(env[e..], more)
  {
    if more > 0 {
      BurstsSplit(env, e, more - 1);
      assert env[e..][more - 1] == env[e + more - 1];
    }
  }
}
