/** Runs of a transition system given by a partial step function: what it means to
    carry out a sequence of steps, what can be reached, what is seen on the way. */
module Runs {
  import opened Options

  /** The state after a whole run, or None if some step was out of turn. */
  function Exec<S, A>(next: (S, A) -> Option<S>, s: S, run: seq<A>): Option<S> {
    if run == [] then Some(s) else
    match Exec(next, s, run[..|run| - 1])
    case None => None
    case Some(m) => next(m, run[|run| - 1])
  }

  ghost predicate Reaches<S, A(!new)>(next: (S, A) -> Option<S>, s: S, t: S) {
    exists run: seq<A> :: Exec(next, s, run) == Some(t)
  }

  lemma ReachesItself<S, A(!new)>(next: (S, A) -> Option<S>, s: S)
    ensures Reaches(next, s, s)
  {
    assert Exec(next, s, []) == Some(s);
  }

  lemma ExecSnoc<S, A>(next: (S, A) -> Option<S>, s: S, run: seq<A>, a: A)
    requires Exec(next, s, run).Some?
    ensures Exec(next, s, run + [a]) == next(Exec(next, s, run).value, a)
  {
    assert (run + [a])[..|run|] == run;
  }

  lemma Extend<S, A>(next: (S, A) -> Option<S>, s: S, run: seq<A>, m: S, a: A, t: S)
    requires Exec(next, s, run) == Some(m) && next(m, a) == Some(t)
    ensures Exec(next, s, run + [a]) == Some(t)
  {
    ExecSnoc(next, s, run, a);
  }

  lemma ReachesNext<S, A(!new)>(next: (S, A) -> Option<S>, s: S, t: S, a: A)
    requires Reaches(next, s, t) && next(t, a).Some?
    ensures Reaches(next, s, next(t, a).value)
  {
    var run: seq<A> :| Exec(next, s, run) == Some(t);
    ExecSnoc(next, s, run, a);
  }

  lemma {:induction false} ExecConcat<S, A>(next: (S, A) -> Option<S>, s: S, run: seq<A>, more: seq<A>)
    requires Exec(next, s, run).Some?
    ensures Exec(next, s, run + more) == Exec(next, Exec(next, s, run).value, more)
  {
    if more == [] {
      assert run + more == run;
    } else {
      var k := |more| - 1;
      ExecConcat(next, s, run, more[..k]);
      assert (run + more)[..|run + more| - 1] == run + more[..k];
    }
  }

  lemma Through<S, A>(next: (S, A) -> Option<S>, s: S, run: seq<A>, m: S, more: seq<A>, t: S)
    requires Exec(next, s, run) == Some(m) && Exec(next, m, more) == Some(t)
    ensures Exec(next, s, run + more) == Some(t)
  {
    ExecConcat(next, s, run, more);
  }

  lemma OneStep<S, A>(next: (S, A) -> Option<S>, s: S, a: A, t: S)
    requires next(s, a) == Some(t)
    ensures Exec(next, s, [a]) == Some(t)
  {
    assert [a][..0] == [];
  }

  lemma TwoSteps<S, A>(next: (S, A) -> Option<S>, s: S, a: A, m: S, b: A, t: S)
    requires next(s, a) == Some(m) && next(m, b) == Some(t)
    ensures Exec(next, s, [a, b]) == Some(t)
  {
    OneStep(next, s, a, m);
    assert [a, b][..1] == [a];
  }

  lemma ReachesThrough<S, A(!new)>(next: (S, A) -> Option<S>, s: S, m: S, t: S)
    requires Reaches(next, s, m) && Reaches(next, m, t)
    ensures Reaches(next, s, t)
  {
    var run: seq<A> :| Exec(next, s, run) == Some(m);
    var more: seq<A> :| Exec(next, m, more) == Some(t);
    Through(next, s, run, m, more, t);
  }

  lemma {:induction false} ExecPrefix<S, A>(next: (S, A) -> Option<S>, s: S, run: seq<A>, more: seq<A>)
    requires Exec(next, s, run + more).Some?
    ensures Exec(next, s, run).Some?
    ensures Exec(next, Exec(next, s, run).value, more) == Exec(next, s, run + more)
  {
    if more == [] {
      assert run + more == run;
    } else {
      var k := |more| - 1;
      assert (run + more)[..|run + more| - 1] == run + more[..k];
      ExecPrefix(next, s, run, more[..k]);
    }
  }

  /** Exec read from the front. */
  lemma ExecCons<S, A>(next: (S, A) -> Option<S>, s: S, a: A, rest: seq<A>)
    requires next(s, a).Some?
    ensures Exec(next, s, [a] + rest) == Exec(next, next(s, a).value, rest)
  {
    assert [a][..0] == [];
    ExecConcat(next, s, [a], rest);
  }

  /** What every step of a run keeps, the run keeps. */
  lemma {:induction false} Preserved<S(!new), A(!new)>(
    next: (S, A) -> Option<S>, inv: S -> bool, allowed: A -> bool, s: S, run: seq<A>)
    requires inv(s) && Exec(next, s, run).Some?
    requires forall k :: 0 <= k < |run| ==> allowed(run[k])
    requires forall t, a :: inv(t) && allowed(a) && next(t, a).Some? ==> inv(next(t, a).value)
    ensures inv(Exec(next, s, run).value)
  {
    if run != [] {
      Preserved(next, inv, allowed, s, run[..|run| - 1]);
    }
  }

  /** Carried out step by step, a run that every step of which makes `measure` smaller
      is no longer than the measure at its start. */
  lemma {:induction false} Shrinks<S(!new), A(!new)>(
    next: (S, A) -> Option<S>, inv: S -> bool, allowed: A -> bool, measure: S -> nat, s: S, run: seq<A>)
    requires inv(s) && Exec(next, s, run).Some?
    requires forall k :: 0 <= k < |run| ==> allowed(run[k])
    requires forall t, a :: inv(t) && allowed(a) && next(t, a).Some? ==>
               inv(next(t, a).value) && measure(next(t, a).value) < measure(t)
    ensures inv(Exec(next, s, run).value)
    ensures |run| + measure(Exec(next, s, run).value) <= measure(s)
  {
    if run != [] {
      Shrinks(next, inv, allowed, measure, s, run[..|run| - 1]);
    }
  }

  // ------------------------------------------------------------- what is seen

  /** The successive values of `view`, each new one as it appears. */
  function Seen<S, A, V(==)>(next: (S, A) -> Option<S>, view: S -> V, s: S, run: seq<A>): seq<V>
    requires Exec(next, s, run).Some?
  {
    if run == [] then [] else
    var k := |run| - 1;
    var before := Exec(next, s, run[..k]).value;
    var after := Exec(next, s, run).value;
    Append(Seen(next, view, s, run[..k]), view(before), view(after))
  }

  function Append<V(==)>(seen: seq<V>, before: V, after: V): seq<V> {
    if before == after then seen else seen + [after]
  }

  /** Some run from s gets to t having shown exactly `seen`. */
  ghost predicate Shows<S, A(!new), V>(next: (S, A) -> Option<S>, view: S -> V, s: S, t: S, seen: seq<V>) {
    exists run: seq<A> :: Exec(next, s, run) == Some(t) && Seen(next, view, s, run) == seen
  }

  lemma ShowsStep<S, A(!new), V>(
    next: (S, A) -> Option<S>, view: S -> V, s: S, t: S, seen: seq<V>, a: A, u: S)
    requires Shows(next, view, s, t, seen) && next(t, a) == Some(u)
    ensures Shows(next, view, s, u, Append(seen, view(t), view(u)))
  {
    var run: seq<A> :| Exec(next, s, run) == Some(t) && Seen(next, view, s, run) == seen;
    ExecSnoc(next, s, run, a);
    assert (run + [a])[..|run|] == run;
  }

  lemma ShowsQuiet<S, A(!new), V>(
    next: (S, A) -> Option<S>, view: S -> V, s: S, t: S, seen: seq<V>, a: A, u: S)
    requires Shows(next, view, s, t, seen) && next(t, a) == Some(u) && view(u) == view(t)
    ensures Shows(next, view, s, u, seen)
  {
    ShowsStep(next, view, s, t, seen, a, u);
  }

  lemma ShowsNew<S, A(!new), V>(
    next: (S, A) -> Option<S>, view: S -> V, s: S, t: S, seen: seq<V>, a: A, u: S)
    requires Shows(next, view, s, t, seen) && next(t, a) == Some(u) && view(u) != view(t)
    ensures Shows(next, view, s, u, seen + [view(u)])
  {
    ShowsStep(next, view, s, t, seen, a, u);
  }

  function Last<V>(seen: seq<V>, first: V): V {
    if seen == [] then first else seen[|seen| - 1]
  }

  /** The last value shown is the current one. */
  lemma {:induction false} LastSeen<S, A, V>(next: (S, A) -> Option<S>, view: S -> V, s: S, run: seq<A>)
    requires Exec(next, s, run).Some?
    ensures Last(Seen(next, view, s, run), view(s)) == view(Exec(next, s, run).value)
  {
    if run != [] {
      LastSeen(next, view, s, run[..|run| - 1]);
    }
  }

  // ------------------------------------------------------------------ counting

  function Count<A(==)>(run: seq<A>, a: A): nat {
    if run == [] then 0 else
    Count(run[..|run| - 1], a) + (if run[|run| - 1] == a then 1 else 0)
  }
}
