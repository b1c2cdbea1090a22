# Device driver labs: a verified model

The repository is a set of Linux driver exercises. Its interesting code is small and
concurrent: interrupt handlers that leave work to a tasklet, a thread or a work queue; a
byte-at-a-time serial mouse decoder; ramdisk copy routines; timers that free themselves.
This project models those algorithms in Dafny and proves what they keep over every run,
when they terminate, which of them are interchangeable, and, where one of them is wrong,
exactly when.

## How the model is built

- Handlers whose operations interleave with other processors are transition systems, one
  step per atomic operation (`Next` in each module), with any number of top halves in
  flight. `Runs.dfy` says what a run is and what can be seen of it. Results that hold "in
  every run" quantify over all sequences of steps from the initial state.
- The bodies with loops, and the objects whose fields they change, are also classes over
  the same fields (`DrainDriver`, `ThreadDriver`, `IrqTable`, `SerialMouse`, `FullMouse`,
  `SeekDriver`, `BlockDriver`); `UserMap` has its loops as methods on arrays. For the
  concurrent ones, interference is a parameter: bursts of steps of other processors,
  readers or processes between any two operations. Each call is proved to be a run of
  the transition system that consists of its own steps and of exactly those acts of the
  bursts that could take place when they came, in their order (`Hears` in
  `Hearing.dfy`). That as many interrupts begin as came, and what a call does when nobody
  interferes, is stated besides.
- Kernel primitives taken as given: a tasklet or wake bit is cleared before the function
  runs and the function does not overlap itself; `wait_event` tests after queueing itself,
  so test-then-sleep is one step; a work item that is queued stays queued once;
  `disable_irq` counts and waits for a handler that is at work; timers fire in the order
  of expiry, ties first come first served, and their callbacks do not overlap.
- Top halves of one line carry no data, so they are counted by position. A real line does
  not re-enter its handler; the model allows it, and every run given as a counterexample
  keeps at most one top half of a line in flight.
- Where the source takes no lock, none is assumed: positions of the serial mouse are
  loads and stores, a read of the full mouse driver is five steps, `list_add_tail` is one
  load and four stores. What a lock would buy is a parameter (`Sharing`, the number of
  readers, `Lock` and `Shield`), and the theorems say which values are right.
- Atomic counters are mathematical integers. 32- and 64-bit arithmetic is written out
  where it decides something: seeks, page counts, sector addresses, pointer sums.

## What was found

| drivers | guard | first increment | nevents >= 0 | bh <= th | always comes to rest | same readings as one object per event |
|---|---|---|---|---|---|---|
| `lab3_one_tasklet_improved.c` | yes | counter_th | yes | yes | yes | yes |
| `20_LAB3_tasklet_smart/Nirq.c` | yes | todo | yes | no | yes | no |
| `lab6_one_threaded.c` | no | counter_th | no | no | no | no |
| `20_LAB6/Nirq.c` | no | todo | no | no | no | no |

Each column is one theorem with both directions (`NonNegativeIffGuarded`, `NeverAheadIff`,
`SettlesIffGuarded`, `SameReadingsIff`); the last two rows answer the question of
`20_LAB6/README`. All four lose nothing at rest.

Further results that a reader would not expect from the code's comments:

- `lab3_one_thread_improved.c` can sleep on a counted event for ever; the number of events
  at the last `atomic_set(&cond, 0)` decides. One more interrupt repairs everything.
- Stopping a thread loses nothing exactly if it had left no event when it went and none was
  published afterwards; both drivers stop it before they give up the line.
- Interrupts between the grant of a line and the store of 0 in `lab_all_interrupt.h` are
  wiped, so `bhs[irq]` stays ahead of `interrupts[irq]` by exactly their number.
- `lab4_serial.c` is right about each coordinate on one processor only, and about the pair
  not even there: a packet between the two stores of the zeroing ioctl counts in `xpos` and
  not in `ypos`. A read can return a pair that was never a position.
- `lab4_full_mouse_driver.c` hands over one packet twice to two readers, can hand over a mix
  of two packets, and is deaf for good after one faulting read. Its comments speak of five
  bytes; the code, and this model, use three.
- `MKtimer.c` needs more than its comments ask for. A lock taken at line 64, even if it is
  held over `add_timer` and keeps the callback out, still lets a callback free a pending
  timer's node: the lock must cover the computation of `expires`, too. And a callback
  inside `list_add_tail` makes the next one free the head of the list.
- `lab4_all_workqueue.c` credits a line with too much for two separate reasons: the shared
  slot, which needs two lines, and the reset of the counters, which needs one.
- `lab5_all_workqueue_dynamic.c` frees the page with its counters without waiting for queued
  work; nothing touches the freed page exactly if nothing was pending at that moment.
- The mouse protocol realigns every decoder exactly if some packet's second byte is not
  marked and neither is its third or that of a later packet.
- `lab7_uio.c` reports events twice, or reports none, with two readers.
- `lab3_seek.c` on 64 bits sends every seek before the start to the end of the device.
- `lab2_block.c` is exact for everything within the capacity that it announces. Its own
  range test would not be enough: it takes sector 0x800000 for sector 0.
- `lab2_usermap.c` does not compare the length of a transfer with the size of the ramdisk.

## Model

| member | source | states |
|---|---|---|
| DeferredDrain.EveryRunKeepsInv | SOLUTIONS/s_20/lab3_one_tasklet_improved.c:38-72 | in every run of the four drain drivers each event is in exactly one place (handled, or in nevents, both while the bottom half is between its two updates), a pending event always has somebody committed to it, and counter_bh is catchup plus finished drains plus the undecided iteration |
| DeferredDrain.NoEventLostAtRest | 20_LAB3_tasklet_smart/Nirq.c:18-48 | at rest every counted interrupt has been handled, and the catch-up statistic is what exceeded one event per drain |
| DeferredDrain.NonNegativeIffGuarded | SOLUTIONS/s_20/lab3_one_tasklet_improved.c:42-44 | nevents is never negative in any run exactly for the drivers with the guard |
| DeferredDrain.NeverAheadIff | 20_LAB3_tasklet_smart/Nirq.c:36-48 | the handled count never passes the interrupt count exactly when the drain is guarded and the interrupt is counted first |
| DeferredDrain.EntryWithNothingToDo | 20_LAB6/Nirq.c:19-39 | with one interrupt in flight at a time, an unguarded drain can be entered with no event left |
| DrainProgress.GuardedRunsSettle | SOLUTIONS/s_20/lab3_one_tasklet_improved.c:42-57 | under the guard every undisturbed run, in any order, is bounded and cannot stop before every interrupt is handled |
| DrainProgress.SettlesIffGuarded | SOLUTIONS/s_20/lab6_one_threaded.c:49-61 | from every reachable state the system can come to rest by itself exactly when the drain is guarded |
| DrainProgress.DrainIsExact | SOLUTIONS/s_20/lab6_one_threaded.c:57-61 | a drain that finds n events and sees k more before it exits goes round exactly n + k times, leaves none, and tallies all but one |
| DrainProgress.DrainNeverOverruns | 20_LAB6/Nirq.c:19-27 | entered with an event, neither loop goes round more often than there are events |
| DrainProgress.LoopExitsIff | SOLUTIONS/s_20/lab6_one_threaded.c:59-61 | wherever the top halves stand, the loop can leave without a new interrupt exactly when nevents, with what top halves under way have still to publish, is at least one |
| DrainDriver.Driver.FirstIncrement | SOLUTIONS/s_20/lab3_one_tasklet_improved.c:66 | the first increment of the top half is that step of the transition system, in the order the driver has |
| DrainDriver.Driver.SecondIncrement | SOLUTIONS/s_20/lab3_one_tasklet_improved.c:67 | likewise the second increment |
| DrainDriver.Driver.Schedule | SOLUTIONS/s_20/lab3_one_tasklet_improved.c:69 | likewise the scheduling of the bottom half |
| DrainDriver.Driver.Dispatch | SOLUTIONS/s_20/lab3_one_tasklet_improved.c:60-61 | the tasklet is entered with its bit cleared, at the guard if it has one |
| DrainDriver.Driver.BottomHalf | SOLUTIONS/s_20/lab3_one_tasklet_improved.c:38-58 | under interference the loop of the source is a run from entry to exit whose top halves are exactly those of the bursts that came; it handles what it found plus what was published and tallies all but one; left alone it handles exactly what it found and touches neither counter_th nor the schedule bit; it spins only when every burst is used up |
| DrainRefinement.DrainRefinesWork | SOLUTIONS/s_20/lab3_one_tasklet_improved.c:46-57 | forward simulation: every run of the guarded tasklet shows the counter readings of a run with one object per event, nevents being the number of queued objects |
| DrainRefinement.WorkRefinesDrain | SOLUTIONS/s_20/lab3_one_workqueue_dynamic.c:35-57 | every run with one object per event is matched, reading by reading, by the guarded tasklet |
| DrainRefinement.SameReadingsIff | SOLUTIONS/s_20/lab3_one_workqueue_dynamic.c:35-57 | a drain driver shows exactly the readings of the one-object-per-event driver iff it is guarded and counts the interrupt first |
| EventWork.InvRun | SOLUTIONS/s_20/lab3_one_workqueue_dynamic.c:35-57 | with one object per event, interrupts minus handled events are the objects in between |
| ThreadDrain.EveryRunKeepsInv | SOLUTIONS/s_20/lab3_one_thread_improved.c:43-85 | conservation, non-negativity, the catch-up account and a pending wake-up for a true condition hold in every run of both thread drivers, signals and a stop included |
| ThreadDrain.NoLostWakeup | 20_LAB3_kthread_smart/Nirq.c:24-54 | a thread asleep on the count with events pending has a top half between its increment of todo and its wake-up |
| ThreadDrain.StallWitness | SOLUTIONS/s_20/lab3_one_thread_improved.c:62-65 | the flag variant has a run, with a single interrupt, that ends asleep on a counted event with nobody left to wake it |
| ThreadDrain.StallFreeIff | SOLUTIONS/s_20/lab3_one_thread_improved.c:62-65 | no run stalls exactly when the thread sleeps on the count itself |
| ThreadDrain.LastClearDecides | SOLUTIONS/s_20/lab3_one_thread_improved.c:63 | the thread comes to rest with everything handled iff nevents was zero at its last clearing of cond |
| ThreadProgress.ThreadSettles | 20_LAB3_kthread_smart/Nirq.c:38-66 | every undisturbed run of either thread is bounded and ends with the thread at rest; when it sleeps on the count everything is then handled |
| ThreadProgress.StopLosesNothingIff | 20_LAB3_kthread_smart/Nirq.c:38-94 | once the thread is gone and no top half is in flight, everything is handled iff it had left no event and none was published afterwards; the difference is the number of those |
| ThreadProgress.StopCanLoseEvents | 20_LAB3_kthread_smart/Nirq.c:89-94 | a run in which the stop loses an event, the thread sleeping on the count |
| ThreadProgress.OneInterruptRecovers | SOLUTIONS/s_20/lab3_one_thread_improved.c:71-83 | from any stalled state, after one more interrupt every undisturbed run is bounded and ends with both counters equal |
| ThreadDriver.Driver.WaitEvent | 20_LAB3_kthread_smart/Nirq.c:42 | the wait ends with the condition seen true or with a signal, or leaves the thread asleep with no burst left; it is a run that meets with exactly the bursts used; with none left it passes iff the condition holds |
| ThreadDriver.Driver.Drain | 20_LAB3_kthread_smart/Nirq.c:57-62 | the inner loop under interference terminates and leaves no event, as a run that meets with exactly the bursts used |
| ThreadDriver.Driver.Pass | 20_LAB3_kthread_smart/Nirq.c:40-63 | one pass of the outer loop is a run of the thread's own steps and exactly the steps of others that came, and ends asleep with nothing more to come, gone, or at the loop test with no event left; left alone, it is known from the state which of these, and the events found are those handled |
| ThreadDriver.Driver.Life | 20_LAB3_kthread_smart/Nirq.c:38-66 | any number of passes is a run from the start of the thread that meets with exactly the bursts used, and every event found or published is handled or left |
| IrqLines.SoundNext | SOLUTIONS/s_20/lab_all_interrupt.h:77-91 | the -1 flag, the counter and what the reset wiped stay consistent in every step of a line, and only an interrupt changes what the line has seen |
| IrqLines.History | SOLUTIONS/s_20/lab_all_interrupt.h:77-91 | from the acts on a line alone: Arrived is the number of its interrupts, and the reset has wiped exactly those counted between grant and reset |
| IrqTable.Table.LoadAndUnload | SOLUTIONS/s_20/lab_all_interrupt.h:54-93 | for any refusals and whatever handlers and bottom halves run before, between and during both loops, exactly the granted lines are released, each once, and nothing outside the two arrays is written |
| IrqTable.Table.GetIrqs | SOLUTIONS/s_20/lab_all_interrupt.h:71-93 | for any refusals and any interrupts and bottom halves during registration, a counter ends non-negative exactly on the granted lines; there `interrupts` is what came since its reset and `bhs` what came since the grant, elsewhere -1 and 0 |
| IrqTable.Table.FreeupIrqs | SOLUTIONS/s_08/lab2_interrupt.c:65-76 | the release loop frees every granted line once and no other, interrupts arriving meanwhile |
| AttributedWork.EachLineConserves | SOLUTIONS/s_20/lab5_all_workqueue_dynamic.c:35-55 | in every interleaving over all lines, what a line has seen is what was handled for it plus its pending objects |
| AttributedWork.CountersAgreeIff | SOLUTIONS/s_20/lab5_all_workqueue_dynamic.c:35-55 | the reported counters of a registered line agree iff the run has no count step of that line between its grant and its reset; otherwise they differ by the number of those |
| AttributedWork.WindowWitness | SOLUTIONS/s_20/lab_all_interrupt.h:85-89 | one interrupt in that window leaves bhs one ahead of interrupts with everything handled and freed |
| AttributedWork.NeverUsedAfterFree | SOLUTIONS/s_20/lab5_all_workqueue_dynamic.c:35-55 | with addresses handed out again after a free, every object that is not freed still has its own memory with its own tag, which no other object has, and its next step is possible |
| AttributedWork.FreedExactlyOnce | SOLUTIONS/s_20/lab5_all_workqueue_dynamic.c:35-40 | once interrupts stop, every run of the remaining work is bounded, and at its end every object ever allocated has been freed exactly once, nothing is allocated and every interrupt is handled for its line |
| WorkUnload.NoStrayIff | SOLUTIONS/s_20/lab_all_interrupt.h:139-146 | once the page with the counters is freed, no run counts in it exactly when nothing was pending on any line at that moment |
| WorkUnload.UnloadedTooSoon | SOLUTIONS/s_20/lab5_all_workqueue_dynamic.c:35-40 | a run in which a queued bottom half counts in the freed page |
| AllThreaded.EachLineIsOneDriver | SOLUTIONS/s_20/lab6_all_threaded.c:47-66 | every run over all lines, seen from one line, is a run of the one-line threaded driver |
| AllThreaded.AtRestAgreesIff | SOLUTIONS/s_20/lab6_all_threaded.c:55-66 | at rest bhs equals interrupts for a line iff the run counted no interrupt of it between its grant and its reset; otherwise it is ahead by the number of those |
| SharedSlot.TotalNeverAhead | SOLUTIONS/s_20/lab4_all_workqueue.c:35-50 | with one shared slot, bottom halves plus pending work never exceed what has arrived over all lines together, registration going on included |
| SharedSlot.Misattribution | SOLUTIONS/s_20/lab4_all_workqueue.c:43-46 | with two lines a run ends quiescent with one line credited with more than it received |
| SharedSlot.AttributionIff | SOLUTIONS/s_20/lab4_all_workqueue.c:35-50 | no line is ever credited with more than has arrived on it exactly when at most one line exists |
| SharedSlot.TotalAgainstReport | SOLUTIONS/s_20/lab_all_interrupt.h:85-91 | in every run bottom halves plus pending work never exceed the printed counters plus what the run counted between grants and resets |
| SharedSlot.SlotIff | SOLUTIONS/s_20/lab4_all_workqueue.c:35-50 | in the runs that count nothing between a grant and its reset, no registered line is ever credited with more than is printed for it exactly when at most one line exists |
| SharedSlot.OneLine | SOLUTIONS/s_20/lab_all_interrupt.h:85-91 | with one line the credit exceeds what is printed by no more than the interrupts counted between grant and reset |
| SharedSlot.EarlyInterrupt | SOLUTIONS/s_20/lab_all_interrupt.h:85-91 | and one such interrupt is enough to make it exceed |
| MouseProtocol.BatchIndependent | SOLUTIONS/s_21/lab4_full_mouse_driver.c:287-321 | frame under way and completed packets depend on the bytes only, not on how they are batched |
| MouseProtocol.Realign | SOLUTIONS/s_21/lab4_serial.c:164-171 | from any state one well-formed packet realigns the decoder, exactly one packet comes out meanwhile, and all later packets come out exactly |
| MouseProtocol.Resynchronises | SOLUTIONS/s_21/lab4_serial.c:162-196 | the same after any junk bytes whatever from a decoder that started aligned |
| MouseProtocol.SkewOfStream | SOLUTIONS/s_21/lab4_serial.c:164-171 | on any stream of packets, well-formed or not, how far out of step the decoder ends depends only on how far out it began and on which bytes are marked |
| MouseProtocol.StreamAlignsIff | SOLUTIONS/s_21/lab4_serial.c:164-171 | a stream of packets aligns every decoder iff some packet's second byte is unmarked and its third or that of a later packet is, too |
| MouseProtocol.AlignsEverythingIff | SOLUTIONS/s_21/lab4_serial.c:169-171 | three bytes align every decoder iff the last two are unmarked; with the first marked, iff they are a well-formed packet |
| MouseProtocol.RoundTrip | SOLUTIONS/s_21/lab4_serial.c:177-186 | decoding an encoded packet gives back both deltas and both buttons |
| MouseProtocol.BackRoundTrip | SOLUTIONS/s_21/lab4_serial.c:177-186 | encoding a decoded canonical packet gives back its three bytes |
| MouseProtocol.OneByteForADelta | SOLUTIONS/s_21/lab4_serial.c:178 | a signed char delta comes from one byte only |
| MouseProtocol.EveryDeltaHasAByte | SOLUTIONS/s_21/lab4_serial.c:178 | every delta in -128..127 comes from a byte |
| MouseProtocol.SameMeaningIff | SOLUTIONS/s_21/lab4_serial.c:178-186 | any two byte triples decode alike iff they agree in the low six bits of each byte, also triples that a lost byte brought together |
| MouseProtocol.StreamRoundTrip | SOLUTIONS/s_21/lab4_serial.c:162-196 | any list of packets, encoded and fed to an aligned decoder, comes out field by field |
| MousePosition.AxisIsSum | SOLUTIONS/s_21/lab4_serial.c:128-199 | in every run of loads, stores and zeroings, on any number of processors, each coordinate is the sum of the deltas stored since its last zeroing plus what that zeroing failed to clear |
| MousePosition.AxisIsSumIff | SOLUTIONS/s_21/lab4_serial.c:134-189 | each coordinate is always the sum of the packets stored since its last zeroing, and within 128 times their number, exactly when no ioctl can run inside the handler |
| MousePosition.StoredAreDecoded | SOLUTIONS/s_21/lab4_serial.c:169-196 | in every run the packets stored in either coordinate are the latest of those that the protocol makes of the bytes, in order |
| MousePosition.SamePacketsIff | SOLUTIONS/s_21/lab4_serial.c:134-135 | on one processor, at rest, both coordinates sum over the same packets iff none was stored between the two stores of the last ioctl |
| MousePosition.JointIff | SOLUTIONS/s_21/lab4_serial.c:134-135 | at rest the position is always the sum over one set of packets, the latest, exactly when the handler is kept out of the ioctl |
| SerialMouse.StreamMovesBySum | SOLUTIONS/s_21/lab4_serial.c:187-189 | a list of packets moves an aligned mouse by exactly the sums of their deltas and leaves it aligned |
| SerialMouse.Driver.Interrupt | SOLUTIONS/s_21/lab4_serial.c:144-199 | the handler on its static buffer is a run to its end whose own steps are those of its byte and whose others are exactly the zeroings that came; with none, the run is the four accesses and the mouse moves by what the byte completes |
| SerialMouse.Driver.Ioctl | SOLUTIONS/s_21/lab4_serial.c:127-142 | only the zeroing command acts: the store in xpos, exactly what came in between and the end of a handler that had begun, the store in ypos; with nothing in between, both coordinates are zero and nothing else has changed |
| MouseReading.PairIsPositionIff | SOLUTIONS/s_21/lab4_serial.c:112-114 | what a read returns was the position at some moment iff the packets and zeroings between its two copies can be cut so that the first part brings x back to what was copied and the rest leaves y alone |
| MouseReading.OneChangeBetween | SOLUTIONS/s_21/lab4_serial.c:112-114 | across one change, iff that is not a packet that moves both axes |
| MouseReading.IoctlBetween | SOLUTIONS/s_21/lab4_serial.c:112-135 | across a whole zeroing ioctl, iff one coordinate was zero already |
| MouseReading.ItemsRun | SOLUTIONS/s_21/lab4_serial.c:128-199 | packets and zeroings carried out by the driver change the position as those conditions reckon |
| SerialMouse.Driver.Read | SOLUTIONS/s_21/lab4_serial.c:101-117 | a read does nothing itself: between its copies there happens exactly what came, it gives xpos before and ypos after that, and the position as it was if nothing came; an error for a short buffer or a fault |
| PacketReaders.FramingIgnoresBatching | SOLUTIONS/s_21/lab4_full_mouse_driver.c:280-323 | in every run of handlers and readers the frame under way and the last packet are those of the bytes taken, run together |
| PacketReaders.NewPacketEachTimeIff | SOLUTIONS/s_21/lab4_full_mouse_driver.c:197-232 | each read hands over a packet completed after that of the read before, so reads never exceed packets, exactly with at most one reader |
| PacketReaders.DepthIs | SOLUTIONS/s_21/lab4_full_mouse_driver.c:213-232 | in every run the interrupt is disabled once for each reader between disable_irq and enable_irq and once for each copy that ever failed |
| PacketReaders.WholePacketIff | SOLUTIONS/s_21/lab4_full_mouse_driver.c:213-217 | in every run, a reader that makes its copy gets the last packet of the bytes taken, whole, iff what was taken since agrees with it, in particular between packets |
| PacketReaders.TornRead | SOLUTIONS/s_21/lab4_full_mouse_driver.c:197-217 | a reader that is told a packet is ready can get a mix of two |
| PacketReaders.DeafIff | SOLUTIONS/s_21/lab4_full_mouse_driver.c:213-217 | with no handler and no reader at work, no byte will ever be taken again iff some copy has failed |
| FullMouse.Driver.Interrupt | SOLUTIONS/s_21/lab4_full_mouse_driver.c:280-323 | the loop over the port leaves the frame under way that the protocol makes of all its bytes, the last of the packets in them in the buffer and `ready` set if there is one, and nothing else changed, as a run of the system |
| PacketReaders.ReadersHavePacket | SOLUTIONS/s_21/lab4_full_mouse_driver.c:159-217 | opens and releases at any time included, a reader past its test always finds a complete packet in the buffer |
| FullMouse.Driver.ReadPacket | SOLUTIONS/s_21/lab4_full_mouse_driver.c:185-235 | a read against the handler, other readers and signals is a run of its own steps and exactly the acts that came; with data, it is what the buffer held at the copy padded with zeros; without data or fault the reader has done no step; a read that meets with nobody leaves the buffer alone |
| SeekSpec.ApplyFits | SOLUTIONS/s_04/lab3_seek.c:74-127 | every operation keeps all positions on the device and moves no other file |
| SeekSpec.SeekLands | SOLUTIONS/s_04/lab3_seek.c:122-123 | a seek lands on the device, and where a clamp would put it iff size_t has 32 bits or the target is not negative |
| SeekSpec.SeekMeans | SOLUTIONS/s_04/lab3_seek.c:109-126 | a seek to a place on the device goes there, from start, position or end |
| SeekSpec.SplitReads | SOLUTIONS/s_04/lab3_seek.c:74-87 | any split of a sequential read gives the bytes and the position of one large read |
| SeekSpec.WriteSeekRead | SOLUTIONS/s_04/lab3_seek.c:89-127 | write, seek back, read returns what was written and the position the write left, also for short writes |
| SeekSpec.OthersSeeTheWrite | SOLUTIONS/s_04/lab3_seek.c:89-104 | a write changes exactly the bytes it transferred, apart from an untransferred tail |
| SeekDriver.Driver.Read | SOLUTIONS/s_04/lab3_seek.c:74-87 | hands over the bytes of the device from the position on, all that was asked for or all up to the end, less what a fault fails to copy; the position ends behind them |
| SeekDriver.Driver.Write | SOLUTIONS/s_04/lab3_seek.c:89-104 | puts as many bytes at the position and moves it behind them; no byte outside the range asked for changes |
| SeekDriver.Driver.Lseek | SOLUTIONS/s_04/lab3_seek.c:106-127 | reports the new position, or an error for an unknown origin and no change |
| SeekDriver.Driver.ReadByBytes | SOLUTIONS/s_18/lab1_putget.c:32-49 | the put_user loop hands over the same bytes up to the fault or the end and agrees with the one-go read on result, position and bytes for a fault at the same byte |
| SeekDriver.Driver.WriteByBytes | SOLUTIONS/s_18/lab1_putget.c:51-69 | the get_user loop puts the same bytes up to the fault or the end and agrees with the one-go write, except that a fault changes one byte behind them at most |
| UserMap.NPagesExact | SOLUTIONS/s_18/lab2_usermap.c:49 | the page count covers the request exactly, and is zero for an empty one although the subtraction wraps |
| UserMap.CopyOut | SOLUTIONS/s_18/lab2_usermap.c:67-102 | the chunk lengths of a read sum to lbuf and each byte comes from its flat address |
| UserMap.CopyIn | SOLUTIONS/s_18/lab2_usermap.c:67-102 | the chunk lengths of a write sum to lbuf and each byte goes to its flat address |
| UserMap.Rw | SOLUTIONS/s_18/lab2_usermap.c:40-108 | the page loop is one flat copy of exactly the first lbuf bytes in either direction and changes no other byte, for any length, also past the ramdisk |
| UserMap.StaysInsideIff | SOLUTIONS/s_18/lab2_usermap.c:67-102 | no chunk leaves the ramdisk exactly when lbuf does not exceed its size |
| BlockDevice.CapacityIsEnough | SOLUTIONS/s_35/lab2_block.c:104-113 | for every chunk within the capacity, on 32- and 64-bit machines, the byte address is exact, lies on the device and passes the test |
| BlockDevice.CapacityGivesPlainDevice | SOLUTIONS/s_35/lab2_block.c:97-127 | every list of chunks within the capacity lies on the device, and the disk is that of a device with true addresses that refuses none of them |
| BlockDevice.CapacityGivesPlainReads | SOLUTIONS/s_35/lab2_block.c:119-123 | and what a read chunk receives is what lies at its true address on that device |
| BlockDevice.RangeTestExactIff | SOLUTIONS/s_35/lab2_block.c:107-113 | the test by itself, with 64-bit addresses, is right for all disks and chunks of a sector iff its byte address fits in 32 bits or wraps past every disk |
| BlockDevice.NarrowTestIff | SOLUTIONS/s_35/lab2_block.c:107-113 | a 32-bit machine performs the same test on a chunk iff the end of the chunk does not wrap to an address up to the end of the ramdisk |
| BlockDevice.LastWriterWins | SOLUTIONS/s_35/lab2_block.c:115-118 | each byte of the final disk is what the last accepted write covering it stored, or what was there |
| BlockDevice.ReadAfterWrite | SOLUTIONS/s_35/lab2_block.c:115-123 | a read right after a write of the same range gives back what was written |
| WholeRequests.ChunksDoNotShow | SOLUTIONS/s_35/lab2_block.c:97-127 | any list of requests within the capacity, each cut into chunks in any way, leaves the device as if each had been one write |
| WholeRequests.ReadShare | SOLUTIONS/s_35/lab2_block.c:104-123 | what a chunk of a read receives is its share of what the requests before it left |
| BlockDriver.PieceOfRequest | SOLUTIONS/s_35/lab2_block.c:104-126 | every buffer of a request is served, at the first sector plus the sectors of the buffers before it |
| BlockDriver.PieceOfQueue | SOLUTIONS/s_35/lab2_block.c:97-127 | so it is in a queue: the pieces served are the buffers of the requests in order, each at its own sector |
| BlockDriver.Disk.Serve | SOLUTIONS/s_35/lab2_block.c:99-124 | one chunk: an accepted write changes its range, an accepted read its buffer, anything else nothing |
| BlockDriver.Disk.Requests | SOLUTIONS/s_35/lab2_block.c:97-127 | for every queue of multi-chunk requests the loop terminates, the disk is the in-order fold of the accepted writes and each read chunk holds what earlier chunks left; within the capacity the requests are carried out as wholes |
| BlockDriver.Disk.OneRequest | SOLUTIONS/s_35/lab2_block.c:97-127 | one request within the capacity: a write leaves its buffers, one behind the other, at its place and every other byte as it was; a read fills its buffers from there and changes no byte of the device; one that is not a file system's changes nothing |
| FifoTimers.FreedNodeIsFiredTimer | 11_LAB2/MKtimer.c:28-40 | with the lock over lines 62 to 67 and the callback kept out of list_add_tail, the pointers form a list sorted by expiry with every pending timer, every callback frees the node of its own timer, and freed memory is never written |
| FifoTimers.PendingTimerFreed | 11_LAB2/MKtimer.c:59-67 | with no lock over line 62, whatever is locked after it, a callback can free another, pending timer |
| FifoTimers.UnarmedNodeFreed | 11_LAB2/MKtimer.c:62-67 | with the lock given up before add_timer, a callback can free a node whose timer is about to be started |
| FifoTimers.HeadFreed | 11_LAB2/MKtimer.c:36-65 | one process and two writes are enough: a callback before the last store of list_add_tail makes that store go into freed memory and a later callback free the head |
| FifoTimers.RightNodeIff | 11_LAB2/MKtimer.c:62-67 | in all runs the right node is freed exactly when the writers' lock covers everything from expires to add_timer and the callback is kept out of list_add_tail |
| TimerCount.ZeroMeansAllDone | SOLUTIONS/s_11/lab2_multitimer.c:103-112 | ntimers reads zero iff every callback has run past its frees; nothing is allocated then, and all callbacks have returned iff none stands right behind its decrement |
| TimerCount.ExitLoopEnds | SOLUTIONS/s_11/lab2_multitimer.c:103-112 | once writes have stopped every run is bounded, and when it cannot go on ntimers is zero, all callbacks have returned and nothing is allocated |
| TimerCount.NoDoubleFree | SOLUTIONS/s_11/lab2_multitimer.c:51-61 | with addresses handed out again after a free, a callback always finds what it frees allocated and held by itself alone |
| TimerCount.CallbackStillRunning | SOLUTIONS/s_11/lab2_multitimer.c:59-60 | zero can be read while a callback has its last statement to run |
| EventCount.ArrivedIsLeftPlusTaken | SOLUTIONS/s_20/lab7_uio.c:58-82 | for any number of readers interrupts since the reset are nevents plus everything subtracted; with one reader its load is positive and covered |
| EventCount.NeverNegativeIff | SOLUTIONS/s_20/lab7_uio.c:76-78 | nevents stays non-negative, and no event is counted twice, exactly with at most one reader |
| EventCount.ReportsPositiveIff | SOLUTIONS/s_20/lab7_uio.c:71-82 | every report is of at least one event exactly with at most one reader |

## Left out

- Module loading, device registration, `/proc`, udev, debugfs, kprobes, USB, PCI, DMA and network code: calls into a kernel that is not modelled.
- Messages, timestamps and busy delays: a delay is only a point where other steps may come.
- Allocation failure and counter overflow at 32 bits.
- The tasklet-dynamic drivers: the callback frees the structure that holds the tasklet, so the outcome depends on kernel internals.
- AttributedWork.EachLineConserves: lines may be registered in any order; the loop of the source takes them in ascending order, which IrqTable.Table.GetIrqs models.
- DrainDriver.Driver.BottomHalf: the interference is a finite list; an unguarded loop that outlasts it with nothing to do stops the method with `spinning`, where the source would go on for ever.
- ThreadDriver.Driver.Life: a finite number of passes, each against a finite list of bursts; runs without end are in ThreadDrain. An act of a burst that is not possible when it comes is dropped, not kept for later; the same holds of the other drivers.
- Event work, timers, event counts and the slot of `lab4_all_workqueue.c` are transition systems only, on values: every operation of theirs is one step and has no loop of its own. The memory that they free and the pointers that they store are in the state.
- FifoTimers.FreedNodeIsFiredTimer: list_del and kfree of one callback are one step; a callback on another processor in the middle of an insertion is a run like any other, but two callbacks at once are not.
- MousePosition.AxisIsSumIff: the handler does not overlap itself, as one interrupt line does not; loads and stores happen in the order of the source.
- MouseReading.PairIsPositionIff: handlers come in between as wholes, as on one processor; parts of handlers in between are in SerialMouse.Driver.Read.
- WorkUnload.NoStrayIff: what is freed is the page with the counters; that the code of the module goes away as well is not modelled.
- PacketReaders.NewPacketEachTimeIff: the last store of a byte, `ready` and numByteIn are one step of the handler: a reader may test `ready` while a handler is at work, but looks at the buffer only when none is.
- What a faulting copy leaves behind is a parameter of the write operations.
- pread, pwrite and asynchronous offsets that bypass the file position.
- Event reads: what `lab7_uio.c` has subtracted is lost to the reader if its copy then faults.
- Pinning user pages: `lab2_usermap.c` ignores how many it got; the model gives it all of them, and maps the memory behind the ramdisk.
- User-space buffers that do not start on a page boundary in `lab2_usermap.c`, which the source excludes.
- `HDIO_GETGEO`: the geometry is invented and truncated.
- Blocking labs, semaphores and poll: little beyond the primitive's own contract.
