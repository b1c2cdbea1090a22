/** SOLUTIONS/s_20/lab_all_interrupt.h: claiming every interrupt line.  get_irqs
    stores -1 in interrupts[irq] as a flag, requests the line, and stores 0 once
    the request is granted; freeup_irqs releases the lines whose counter is not
    negative.  The handler may run between the grant and the store of 0. */
module IrqLines {
  import opened Options
  import opened Runs

  /** Window: granted, interrupts[irq] not yet set to 0. */
  datatype Phase = Flagged | Refused | Window | Live

  /** `interrupts` is the shared counter; `wiped` is a history variable, what the
      counter had recorded when it was set to 0. */
  datatype Line = Line(interrupts: int, phase: Phase, wiped: int)

  datatype Act = Grant | Refuse | Reset | CountTop

  const FRESH := Line(-1, Flagged, 0)

  function Next(l: Line, a: Act): Option<Line> {
    match a
    case Grant =>
      if l.phase == Flagged then Some(l.(phase := Window)) else None
    case Refuse =>
      if l.phase == Flagged then Some(l.(phase := Refused)) else None
    case Reset =>
      if l.phase != Window then None else
      Some(Line(0, Live, l.interrupts + 1))
    case CountTop =>
      if l.phase in {Window, Live} then Some(l.(interrupts := l.interrupts + 1)) else None
  }

  /** What the line has really seen. */
  function Arrived(l: Line): int {
    match l.phase
    case Live => l.interrupts + l.wiped
    case _ => l.interrupts + 1
  }

  ghost predicate Sound(l: Line) {
    && (l.phase == Live ==> l.interrupts >= 0 && l.wiped >= 0)
    && (l.phase == Window ==> l.interrupts >= -1)
    && (l.phase in {Flagged, Refused} ==> l.interrupts == -1)
  }

  lemma SoundNext(l: Line, a: Act)
    requires Sound(l) && Next(l, a).Some?
    ensures Sound(Next(l, a).value)
    ensures Arrived(Next(l, a).value) == Arrived(l) + (if a == CountTop then 1 else 0)
  {
  }

  function Machine(): (Line, Act) -> Option<Line> {
    (l, a) => Next(l, a)
  }

  /** The interrupts counted before the reset of the counter, which is to say between
      the grant of the line and the store of 0. */
  function Early(acts: seq<Act>): nat {
    if acts == [] then 0 else
    var before := acts[..|acts| - 1];
    Early(before) + (if acts[|acts| - 1] == CountTop && Reset !in before then 1 else 0)
  }

  /** What the counters of a line say of its history: Arrived is the number of its
      interrupts, and the reset has wiped exactly the early ones. */
  lemma {:induction false} History(acts: seq<Act>)
    requires Exec(Machine(), FRESH, acts).Some?
    ensures var l := Exec(Machine(), FRESH, acts).value;
            && Sound(l) && Arrived(l) == Count(acts, CountTop)
            && (l.phase == Live <==> Reset in acts)
            && (l.phase == Live ==> l.wiped == Early(acts))
            && (l.phase != Live ==> l.interrupts + 1 == Early(acts))
  {
    if acts != [] {
      var k := |acts| - 1;
      History(acts[..k]);
      SoundNext(Exec(Machine(), FRESH, acts[..k]).value, acts[k]);
      assert acts == acts[..k] + [acts[k]];
    }
  }
}
