/** The loops of SOLUTIONS/s_20/lab_all_interrupt.h (get_irqs, freeup_irqs) over the
    shared page, with interrupts and bottom halves coming between any two stores.  The
    page is an array of words: interrupts at the bottom, bhs right above it. */
module IrqTable {
  import opened Runs

  /** interrupts[irq] and bhs[irq], as addresses in the page. */
  function InterruptsAt(irq: nat): nat {
    irq
  }

  function BhsAt(n: nat, irq: nat): nat {
    n + irq
  }

  /** The arrays never overlap, and they stay inside the page exactly when
      2 * NCOPY <= PAGE_SIZE. */
  lemma LayoutIff(n: nat, words: nat)
    ensures (forall irq: nat | irq < n :: InterruptsAt(irq) < words && BhsAt(n, irq) < words) <==> 2 * n <= words
    ensures forall i: nat, j: nat | i < n && j < n :: InterruptsAt(i) != BhsAt(n, j)
  {
    if n > 0 {
      assert BhsAt(n, n - 1) == 2 * n - 1;
    }
  }

  /** One run of the handler of a line, or of its bottom half. */
  datatype Event = Top(irq: nat) | Bottom(irq: nat)

  /** How often e occurs before and after the resets of lines lo to hi - 1. */
  function Occurs(early: seq<seq<Event>>, late: seq<seq<Event>>, lo: nat, hi: nat, e: Event): nat
    requires hi <= |early| == |late|
  {
    if hi <= lo then 0 else
    Occurs(early, late, lo, hi - 1, e) + Count(early[hi - 1], e) + Count(late[hi - 1], e)
  }

  class Table {
    const n: nat
    const page: array<int>
    const nevents: array<int>
    /** The kernel's side: the lines on which our handler is installed, and those on
        which it has ever been, whose bottom halves may still be pending. */
    var installed: set<nat>
    var claimed: set<nat>

    /** `words` is PAGE_SIZE / sizeof(atomic_t); every counter must lie in the page. */
    constructor (n: nat, words: nat)
      requires forall irq: nat | irq < n :: InterruptsAt(irq) < words && BhsAt(n, irq) < words
      ensures this.n == n && page.Length == words && Fits() && installed == {} == claimed
      ensures fresh(page) && fresh(nevents)
    {
      LayoutIff(n, words);
      this.n := n;
      page := new int[words];
      nevents := new int[n];
      installed, claimed := {}, {};
    }

    ghost predicate Fits()
      reads this
    {
      && 2 * n <= page.Length && nevents.Length == n && page != nevents
      && installed <= claimed && forall l <- claimed :: l < n
    }

    /** What these events add to word k of the page: a handler that is installed counts
        in `interrupts`, a bottom half of a line once granted in `bhs`. */
    ghost function Gain(events: seq<Event>, k: int): nat
      reads this`installed, this`claimed
    {
      if k in installed then Count(events, Top(k))
      else if k - n in claimed then Count(events, Bottom(k - n))
      else 0
    }

    /** The listed handlers and bottom halves run, as far as they can. */
    method Arrive(events: seq<Event>)
      requires Fits()
      modifies page
      ensures forall k :: 0 <= k < page.Length ==> page[k] == old(page[k]) + Gain(events, k)
    {
      ghost var so := [];
      for j := 0 to |events|
        invariant so == events[..j]
        invariant forall k :: 0 <= k < page.Length ==> page[k] == old(page[k]) + Gain(so, k)
      {
        ArriveOne(events[j], so);
        so := so + [events[j]];
      }
      assert so == events;
    }

    method ArriveOne(e: Event, ghost so: seq<Event>)
      requires Fits()
      modifies page
      ensures forall k :: 0 <= k < page.Length ==> page[k] == old(page[k]) + Gain(so + [e], k) - Gain(so, k)
    {
      CountMore(so, e);
      if e.Top? && e.irq in installed {
        page[InterruptsAt(e.irq)] := page[InterruptsAt(e.irq)] + 1;
      } else if e.Bottom? && e.irq in claimed {
        page[BhsAt(n, e.irq)] := page[BhsAt(n, e.irq)] + 1;
      }
    }

    /** request_irq: the kernel grants or refuses, as `granted` says. */
    method Request(irq: nat, granted: bool)
      requires irq < n && irq !in installed
      modifies this`installed, this`claimed
      ensures installed == if granted then old(installed) + {irq} else old(installed)
      ensures claimed == if granted then old(claimed) + {irq} else old(claimed)
    {
      if granted {
        installed, claimed := installed + {irq}, claimed + {irq};
      }
    }

    /** free_irq. */
    method Release(irq: nat)
      requires irq in installed
      modifies this`installed
      ensures installed == old(installed) - {irq}
    {
      installed := installed - {irq};
    }

    /** The lines below `upto` that were granted. */
    ghost function Granted(outcome: seq<bool>, upto: nat): set<nat>
      requires upto <= |outcome|
    {
      set i: nat | i < upto && outcome[i]
    }

    /** The body of the loop of get_irqs: it starts the counters of its line, and the
        lines granted before it go on counting. */
    method Claim(irq: nat, granted: bool, early: seq<Event>, late: seq<Event>)
      requires Fits() && irq < n && forall l <- claimed :: l < irq
      modifies this`installed, this`claimed, page, nevents
      ensures Fits()
      ensures installed == if granted then old(installed) + {irq} else old(installed)
      ensures claimed == if granted then old(claimed) + {irq} else old(claimed)
      ensures page[InterruptsAt(irq)] == if granted then Count(late, Top(irq)) else -1
      ensures page[BhsAt(n, irq)] == if granted then Count(early, Bottom(irq)) + Count(late, Bottom(irq)) else 0
      ensures nevents[irq] == 0 && forall i :: 0 <= i < n && i != irq ==> nevents[i] == old(nevents[i])
      ensures forall k :: 0 <= k < page.Length && k != irq && k != n + irq ==>
                page[k] == old(page[k]) + Gain(early, k) + Gain(late, k)
    {
      page[InterruptsAt(irq)] := -1;
      page[BhsAt(n, irq)] := 0;
      nevents[irq] := 0;
      Request(irq, granted);
      Arrive(early);
      if granted {
        page[InterruptsAt(irq)] := 0;
      }
      Arrive(late);
    }

    /** Every line is tried; whatever the pattern of refusals and whatever comes
        meanwhile, a counter ends up non-negative exactly on the granted lines.  There,
        `interrupts` has counted what came on the line since its reset to 0, and `bhs`
        what came since it was granted. */
    method GetIrqs(outcome: seq<bool>, early: seq<seq<Event>>, late: seq<seq<Event>>)
      requires Fits() && claimed == {}
      requires |outcome| == |early| == |late| == n
      modifies this`installed, this`claimed, page, nevents
      ensures Fits() && installed == claimed == Granted(outcome, n)
      ensures forall i :: 0 <= i < n ==> (page[InterruptsAt(i)] >= 0 <==> i in installed)
      ensures forall i :: 0 <= i < n ==> (page[InterruptsAt(i)] == -1 <==> i !in installed)
      ensures forall i: nat :: i < n && outcome[i] ==>
                && page[InterruptsAt(i)] == Count(late[i], Top(i)) + Occurs(early, late, i + 1, n, Top(i))
                && page[BhsAt(n, i)] == Occurs(early, late, i, n, Bottom(i))
      ensures forall i: nat :: i < n && !outcome[i] ==> page[InterruptsAt(i)] == -1 && page[BhsAt(n, i)] == 0
      ensures forall i :: 0 <= i < n ==> nevents[i] == 0
      ensures forall k :: 2 * n <= k < page.Length ==> page[k] == old(page[k])
    {
      for irq := 0 to n
        invariant Fits() && installed == claimed == Granted(outcome, irq)
        invariant Counted(outcome, early, late, irq)
        invariant forall i :: 0 <= i < irq ==> nevents[i] == 0
        invariant forall k :: 2 * n <= k < page.Length ==> page[k] == old(page[k])
      {
        ClaimNext(irq, outcome, early, late);
      }
    }

    /** What the counters of the lines below `upto` are after so many turns. */
    ghost predicate Counted(outcome: seq<bool>, early: seq<seq<Event>>, late: seq<seq<Event>>, upto: nat)
      requires |outcome| == |early| == |late| == n && upto <= n && Fits()
      reads this, page
    {
      forall i: nat :: i < upto ==> CountedOne(outcome[i], early, late, i, upto)
    }

    ghost predicate CountedOne(granted: bool, early: seq<seq<Event>>, late: seq<seq<Event>>, i: nat, upto: nat)
      requires |early| == |late| == n && i < upto <= n && Fits()
      reads this, page
    {
      if granted then
        && page[InterruptsAt(i)] == Count(late[i], Top(i)) + Occurs(early, late, i + 1, upto, Top(i))
        && page[BhsAt(n, i)] == Occurs(early, late, i, upto, Bottom(i))
      else page[InterruptsAt(i)] == -1 && page[BhsAt(n, i)] == 0
    }

    method ClaimNext(irq: nat, outcome: seq<bool>, early: seq<seq<Event>>, late: seq<seq<Event>>)
      requires Fits() && |outcome| == |early| == |late| == n && irq < n
      requires installed == claimed == Granted(outcome, irq) && Counted(outcome, early, late, irq)
      modifies this`installed, this`claimed, page, nevents
      ensures Fits() && installed == claimed == Granted(outcome, irq + 1) && Counted(outcome, early, late, irq + 1)
      ensures nevents[irq] == 0 && forall i :: 0 <= i < n && i != irq ==> nevents[i] == old(nevents[i])
      ensures forall k :: 2 * n <= k < page.Length ==> page[k] == old(page[k])
    {
      Claim(irq, outcome[irq], early[irq], late[irq]);
      GrantedMore(outcome, irq);
      forall i: nat | i < irq ensures CountedOne(outcome[i], early, late, i, irq + 1) {
        assert old(CountedOne(outcome[i], early, late, i, irq));
        GoesOn(outcome[i], early, late, i, irq, old(page[..]));
      }
      assert CountedOne(outcome[irq], early, late, irq, irq + 1);
    }

    lemma GrantedMore(outcome: seq<bool>, irq: nat)
      requires irq < |outcome|
      ensures Granted(outcome, irq + 1) == Granted(outcome, irq) + if outcome[irq] then {irq} else {}
    {
    }

    /** A line claimed before goes on counting. */
    lemma GoesOn(granted: bool, early: seq<seq<Event>>, late: seq<seq<Event>>, i: nat, irq: nat, was: seq<int>)
      requires Fits() && |early| == |late| == n && i < irq < n && |was| == page.Length
      requires granted <==> i in installed
      requires installed == claimed
      requires page[i] == was[i] + Gain(early[irq], i) + Gain(late[irq], i)
      requires page[n + i] == was[n + i] + Gain(early[irq], n + i) + Gain(late[irq], n + i)
      requires if granted then
                 && was[i] == Count(late[i], Top(i)) + Occurs(early, late, i + 1, irq, Top(i))
                 && was[n + i] == Occurs(early, late, i, irq, Bottom(i))
               else was[i] == -1 && was[n + i] == 0
      ensures CountedOne(granted, early, late, i, irq + 1)
    {
    }

    /** Strictly increasing, so no line occurs twice. */
    ghost predicate Ascending(lines: seq<nat>) {
      forall i, j :: 0 <= i < j < |lines| ==> lines[i] < lines[j]
    }

    /** The release loop looks at the counters only, and frees each granted line once
        and no other, interrupts and bottom halves coming all the while. */
    method FreeupIrqs(env: seq<seq<Event>>) returns (freed: seq<nat>)
      requires Fits() && |env| == n
      requires forall i :: 0 <= i < n ==> (page[InterruptsAt(i)] >= 0 <==> i in installed)
      modifies this`installed, page
      ensures installed == {} && Fits()
      ensures Ascending(freed) && (set l | l in freed) == old(installed)
      ensures forall k :: 2 * n <= k < page.Length ==> page[k] == old(page[k])
    {
      freed := [];
      ghost var all := installed;
      for irq := 0 to n
        invariant Fits() && forall l <- installed :: irq <= l < n
        invariant forall i :: irq <= i < n ==> (page[i] >= 0 <==> i in installed)
        invariant Ascending(freed) && forall j :: 0 <= j < |freed| ==> freed[j] < irq
        invariant installed !! (set l | l in freed) && installed + (set l | l in freed) == all
        invariant forall k :: 2 * n <= k < page.Length ==> page[k] == old(page[k])
      {
        Arrive(env[irq]);
        if page[InterruptsAt(irq)] >= 0 {
          Release(irq);
          ghost var before := set l | l in freed;
          freed := freed + [irq];
          assert (set l | l in freed) == before + {irq};
        }
      }
    }

    /** The life of the driver: claim, work, release.  For every pattern of refusals,
        and whatever runs before, between and during the two loops, exactly the lines
        that were granted are released, each once, and nothing outside the two
        arrays is written. */
    method LoadAndUnload(outcome: seq<bool>, early: seq<seq<Event>>, late: seq<seq<Event>>,
                         work: seq<Event>, leaving: seq<seq<Event>>)
      returns (freed: seq<nat>)
      requires Fits() && claimed == {}
      requires |outcome| == |early| == |late| == |leaving| == n
      modifies this`installed, this`claimed, page, nevents
      ensures installed == {}
      ensures Ascending(freed) && forall l: nat :: l in freed <==> l < n && outcome[l]
      ensures forall k :: 2 * n <= k < page.Length ==> page[k] == old(page[k])
    {
      GetIrqs(outcome, early, late);
      Arrive(work);
      freed := FreeupIrqs(leaving);
      assert (set l | l in freed) == Granted(outcome, n);
      assert forall l: nat :: l in freed <==> l in Granted(outcome, n);
    }
  }

  lemma CountMore(so: seq<Event>, e: Event)
    ensures forall x :: Count(so + [e], x) == Count(so, x) + if x == e then 1 else 0
  {
    assert (so + [e])[..|so|] == so;
  }
}
