# Models of the kernel, the translator, the librarian and the small codecs

This project models the parts of the repository whose correctness is hardest to see and proves what they promise. Each part is a group of modules; a specification (functions, predicates, a transition system) comes first, the imperative form that the source has is proved against it, and the theorems are about the specification.

**The ARM/CCSP kernel** (`ClockTime`, `Ccsp*`, `Kernel`). `CcspState` holds the state as mathematics: the run queue and the timer queue as sequences, a descriptor for each process with its pointer word and a ghost phase, a word for each channel with the messages sent and received so far, and buffers of bytes. Every kernel call is a function on that state. `CcspInv` states the occam discipline as the guard of each call (one reader and one writer for a channel, equal byte counts, bracketed ALT calls over one set of channels, a child started only when it is nowhere else) together with the invariant; `CcspSteps` and `CcspRuns` prove that every call, and every waking of an idle scheduler, keeps it. `CcspTimers`, `CcspTheorems`, `CcspTraffic`, `CcspAlt` and `CcspWaits` draw the conclusions over whole runs: rendezvous, deadlock, alternatives, barriers, the run queue, and who waits for how long. `Kernel` has the real data: process descriptors linked by `link` and `tlink`, `fptr`, `bptr` (stale when the queue is empty) and `tptr`, channel words that point to processes, pointer words that hold a sentinel or an address, barriers. Its methods are the kernel functions, each proved to do to the pointers what the function of `CcspState` does to the state.

`ccsp_schedule` never returns to its caller: `ProcessResume` branches away. A call that reschedules is therefore the last thing its kernel function does, and what follows an inner `ccsp_schedule` in `ccsp_chanout` cannot be reached. The comment on `Time_AFTER(t1, t2)` says that it tests whether t1 is before t2; its code, and every call of it, mean that t2 is before t1. The code is followed.

**The i386 sequences** (`Machine386`, `Words64`, `Arith386`, `Inline386`, `Sweep386`, `Compose386`, `Emitted386`). A machine with 32-bit registers, flags, word memory, buffer bytes and a stack of its own runs chains of the instructions that tranx86 emits, numeric labels being resolved forward. The emitted scheduler, channel and ALT sequences are proved to do to this machine what the kernel functions of `CcspState` do to the state, in every case, and the long arithmetic to be exact. `Compose386` is the translator's side: an object that appends to the instruction chain, allocates labels and registers and folds constants, proved to emit those chains. `Emitted386` puts the two together: what a compose function appends, run behind whatever has been composed before, does to a reachable kernel state what the kernel call does. Registers are the translator's virtual ones, so the directives that hold an operand in a particular register have no effect; string moves go upwards.

**The PowerPC prevalidation** (`Ppc*`). A semantics for the instructions the pass looks at, the pass as a function on instructions and on lists, and as the imperative redo loop over a block. Lists are run from any machine state; the rewritten list is proved to end where the original ends, in the same state but for fresh registers. `PpcEmit` says which instructions the assembler stage (`translator/tranx86/asmppc.c`) has a form for, and exactly for which lists the pass leaves nothing else.

**The librarian** (`Tcoff`, `Ilibr*`). Records, the numbers and bytes they are written in, the index with its running size total, the weeding, sorting and writing of the index, and the copying of the inputs.

**The codecs and schedulers.** `Tenc*`: TEnc trees, their dump and the recursive parser. `Rcx`, `RcxImage`: infrared frames sent and received in arbitrary portions, firmware images and their blocks. `Tokens`: the quoted-argument tokeniser. `Packages`: the package table and the build order. `bin/ilibr/arg.h` (lines 109-113) promises that malformed tokens are replaced by an empty string and the others processed normally; in the code (`arg.c`, lines 344-350) a malformed token has no end, so `parse_string` goes on with a null pointer and the rest of the string is dropped. The model follows the code.

Clock readings, the portions a device reads or writes at a time, and the order in which a dictionary yields its keys are parameters, and the theorems hold for all of them. Nothing was executed.

Some properties are false of the code, and their exact conditions are proved:

- `Time_AFTER` decides which of two times is later exactly while they are less than 2^31 apart (`TimeAfterIsAfter`, `TimeAfterFails`).
- The PowerPC pass drops the displacement when a constant or a register is stored to a named location; it is right exactly when the displacement is zero modulo 2^32 (`NameDisplacement`). No compose function of tranx86 stores to a name with a displacement, so this concerns what the pass accepts, not what it is given. A constant byte stored to a named location goes to the address that the constant is, because the register holding the address is overwritten first; it is right exactly when the two coincide (`ByteToName`).
- The PowerPC pass does not bring every instruction into a form that can be written out. It leaves: an address whose displacement fits neither half of an immediate (tranx86 emits such an LEA for any distant local, etcrtl.c:3434), a register stepped with its flags, a multiplication or division by a constant that is short or has a high half only, an OR or XOR with a short negative constant, a comparison or memory operation with what a name holds, and operands of the wrong kind. `Codable` is the condition for one instruction, and the list comes out clean if and only if every instruction meets it (`PassEmits`, with inputs in `LeftOver`).
- With 32-bit words a TEnc dump comes back exactly when every string has even length, or leaves one modulo four and is the last of its list (`LargeDocsExactly`). The only-if half needs that no tag repeats its first two bytes: a one-byte string followed by an element whose tag is `"\0B\0B"` can survive the wrong padding, because the bytes that remain spell the same tag again (`UnsafeSurvives`).
- An S-record file without data records gives an image of one zero byte at the last address, because the difference of the untouched bounds wraps around (`NoDataImage`).

## Model

| member | source | states |
|---|---|---|
| `ClockTime.TimeAfterIsAfter` | runtime/armccsp/armccsp_if.h:336-345 | for true times at most 2^31 apart (exclusive above), the comparison of their low 32 bits tells which is later |
| `ClockTime.TimeAfterFails` | runtime/armccsp/armccsp_if.h:336-345 | from 2^31 to 2^32 apart it tells the opposite |
| `CcspRuns.StepInv` | runtime/armccsp/kernel.c:102-587 | every admissible kernel call, and every waking of an idle scheduler, keeps the invariant of queues, phases, channel words, buffers, ALTs and barriers |
| `CcspInv.ScheduleInv` | runtime/armccsp/kernel.c:545-587 | from any good state in which nobody runs, the scheduler ends in a good state: somebody runs, it sleeps for a timer, or it reports deadlock |
| `CcspRuns.WalkSplits` | runtime/armccsp/kernel.c:355-361 | the walk along the timer queue passes only strictly earlier times and stops in front of one that is not |
| `CcspRuns.SlotSplits` | runtime/armccsp/kernel.c:345-363 | the place where ccsp_tin inserts keeps the timer queue in the order of the true times, for every queue and time |
| `CcspRuns.TinInv` | runtime/armccsp/kernel.c:330-365 | every ccsp_tin keeps the invariant, the time order of the queue included |
| `CcspTimers.DueExactly` | runtime/armccsp/kernel.c:136-143 | on a queue in time order the processes that are released are exactly those whose true time is strictly before now |
| `CcspTimers.ProcessTimersFires` | runtime/armccsp/kernel.c:132-145 | the released processes join the run queue in time order, each once, with nothing else changed, although only low 32 bits are compared |
| `CcspTimers.FiresExactly` | runtime/armccsp/kernel.c:132-145 | a process on the timer queue leaves it, and is on the run queue afterwards, if and only if its time is strictly before now |
| `CcspTimers.SleepsUntilDue` | runtime/armccsp/kernel.c:555-564 | an idle scheduler sleeps, in seconds and microseconds, exactly until the first time on the timer queue, nobody having an earlier one, and does not sleep exactly when that time has come |
| `CcspTimers.ScheduleDoes` | runtime/armccsp/kernel.c:545-587 | deadlock is reported exactly when both queues are empty; otherwise the head of the run queue, after the timers, runs, or the scheduler sleeps |
| `CcspTheorems.NeverFaults` | runtime/armccsp/kernel.c:153-226 | in no reachable state has a sentinel been followed as a data address, a buffer overrun, or a barrier decremented that nobody waits at |
| `CcspTheorems.OnePlace` | runtime/armccsp/kernel.c:102-587 | a live process is in exactly one place, counted over running, run queue, timer queue, channel words, ALT and barrier; an ended one in none |
| `CcspTheorems.Rendezvous` | runtime/armccsp/kernel.c:153-226 | what has been received is a prefix of what was sent, at most one message is outstanding, and then it is the one in the blocked outputter's buffer |
| `CcspTheorems.OneSided` | runtime/armccsp/kernel.c:153-226 | a committed writer and a committed or waiting reader are never both blocked on one channel |
| `CcspTraffic.RunMoves` | runtime/armccsp/kernel.c:153-226 | over every run, what has been sent on a channel is what the output calls offered, and what has been received is what was found in the readers' buffers, both in order |
| `CcspTraffic.Delivery` | runtime/armccsp/kernel.c:153-226 | from the start, what the readers found is a prefix of what the writers offered, at most one message short |
| `CcspTheorems.SenderReleasedByCopy` | runtime/armccsp/kernel.c:202-226 | a sender that waits is released by nothing but the ChanIn that copies its message, unchanged, into the reader's buffer |
| `CcspTheorems.ReceiverReleasedByCopy` | runtime/armccsp/kernel.c:153-197 | a receiver that waits is released by nothing but the ChanOut that puts its message in the receiver's buffer |
| `CcspTheorems.TestChanReady` | runtime/armccsp/kernel.c:528-540 | on a channel nobody else reads, TestChan is true exactly when an outputter is blocked in it |
| `CcspTheorems.DeadlockMeans` | runtime/armccsp/kernel.c:545-587 | when deadlock is reported both queues are empty, every process that has not ended is blocked, and no channel has both its ends waiting |
| `CcspTheorems.Bystander` | runtime/armccsp/kernel.c:102-432 | whatever the running process does, another process changes only in the listed ways |
| `CcspTheorems.AltSafety` | runtime/armccsp/kernel.c:371-432 | over every run in which the ALTer does not run: while it waits all its channels hold it and it is on no queue; once ready some channel holds an outputter and it is queued or running exactly once |
| `CcspTheorems.BarrierSafety` | runtime/armccsp/kfunc.c:88-111 | over every run, the parent stays at its barrier until the last child has ended, and is then on the run queue or running exactly once, for every number of children and interleaving |
| `CcspTheorems.ProcParWaits` | runtime/armccsp/kfunc.c:232-250 | after ProcPar the parent waits for exactly its children; with none it goes straight on |
| `CcspTheorems.RunFifo` | runtime/armccsp/kernel.c:545-587 | over every run, the processes queued at its beginning are started in queue order and before any that are queued later |
| `CcspWaits.ReadingWakes` | runtime/armccsp/kernel.c:132-145 | one clock reading wakes a sleeper exactly when it is later than the time slept for |
| `CcspWaits.TinWaits` | runtime/armccsp/kernel.c:330-365 | ccsp_tin returns to its caller at once exactly when the time is past; otherwise the caller is on the timer queue for that time, and neither runs nor is queued, exactly as long as the scheduler has read no later time |
| `CcspWaits.SleepRun` | runtime/armccsp/kernel.c:132-145 | over every run, a sleeper stays on the timer queue until a time later than its own is read, whatever the others do, and runs or is queued after that |
| `CcspWaits.TinRun` | runtime/armccsp/kernel.c:330-365 | the same from the call of ccsp_tin on |
| `CcspWaits.PauseYields` | runtime/armccsp/kernel.c:242-250 | after ccsp_pause the head of the run queue runs, the rest keeps its order, and the caller is behind everybody |
| `CcspWaits.Fairness` | runtime/armccsp/kernel.c:545-587 | over every run, the process at place i of the run queue, and those before it, have been started in order once the processor has been given up i + 1 times, by a pause or any call that ends in the scheduler |
| `CcspWaits.InWaits` | runtime/armccsp/kernel.c:202-226 | ccsp_chanin goes on with the message exactly when a process is in the channel; otherwise the caller waits there |
| `CcspWaits.OutWaits` | runtime/armccsp/kernel.c:153-197 | ccsp_chanout goes on exactly when the reader waits in the channel, with the message in its buffer; otherwise the caller waits there |
| `CcspWaits.AltWaits` | runtime/armccsp/kernel.c:426-433 | ccsp_altwt goes on exactly when an enabled channel holds an outputter |
| `CcspWaits.EndStops` | runtime/armccsp/kfunc.c:88-111 | a process that ends is on no queue afterwards |
| `CcspAlt.AltReturns` | runtime/armccsp/kfunc.c:304-328 | the disabling loop finds a ready guard, the least one; afterwards no channel word refers to the ALTer and nothing else has changed |
| `CcspAlt.EnableDoes` | runtime/armccsp/kfunc.c:284-294 | the enabling loop takes every channel of the list into the ALTer's care |
| `CcspAlt.OpensOrStops` | runtime/armccsp/kfunc.c:296-302 | ProcAlt stops with an error if and only if its list is empty |
| `CcspAlt.ProcAltNeverFails` | runtime/armccsp/kfunc.c:275-391 | ProcAlt and ProcPriAlt on a non-empty list of channels nobody else reads never report "no ready guard at end" and return the least ready index, whatever the others do meanwhile |
| `Kernel.Sched.First` | runtime/armccsp/kernel.c:606-637 | initialisation and the first process: a valid heap that represents the start state |
| `Kernel.Sched.LinkProc` | runtime/armccsp/kernel.c:102-114 | the pointer queue represents the old sequence with the process behind it, also when bptr is stale |
| `Kernel.Sched.Dispatch` | runtime/armccsp/kernel.c:571-586 | the head of the queue runs and the pointers represent the rest |
| `Kernel.Sched.ProcessTimers` | runtime/armccsp/kernel.c:132-145 | the loop over tptr does what ProcessTimers does to the two sequences |
| `Kernel.Sched.Pass` | runtime/armccsp/kernel.c:545-587 | one pass from the restart label, and how long the sleep before the next one is: SleepFor of the state |
| `Kernel.Sched.Schedule` | runtime/armccsp/kernel.c:545-587 | the scheduler loop computes Schedule of the represented state |
| `Kernel.Sched.ChanOut` | runtime/armccsp/kernel.c:153-197 | refines the step Out, including the ALT cases and the two places it reschedules |
| `Kernel.Sched.ChanIn` | runtime/armccsp/kernel.c:202-226 | refines the step In |
| `Kernel.Sched.TestChan` | runtime/armccsp/kernel.c:528-540 | reads the channel word only |
| `Kernel.Sched.Pause` | runtime/armccsp/kernel.c:242-250 | refines the step Pause |
| `Kernel.Sched.Alt` | runtime/armccsp/kernel.c:371-375 | refines the step Alt |
| `Kernel.Sched.Enbc` | runtime/armccsp/kernel.c:389-403 | refines the step Enbc, with its result |
| `Kernel.Sched.Disc` | runtime/armccsp/kernel.c:408-421 | refines the step Disc; the result says whether an outputter is in the channel |
| `Kernel.Sched.AltWt` | runtime/armccsp/kernel.c:426-433 | refines the step AltWt |
| `Kernel.Sched.AltEnd` | runtime/armccsp/kernel.c:380-384 | refines the step AltEnd |
| `Kernel.Sched.Walk` | runtime/armccsp/kernel.c:355-358 | the pointer walk stops at the element that the walk over the sequence stops at |
| `Kernel.Sched.LinkTimer` | runtime/armccsp/kernel.c:344-363 | the pointer insertion is insertion at that place of the sequence |
| `Kernel.Sched.Tin` | runtime/armccsp/kernel.c:330-365 | refines the step Tin |
| `Kernel.Sched.StartKids` | runtime/armccsp/kfunc.c:240-246 | the loop over the children queues them in order, each with the parent's barrier |
| `Kernel.Sched.Par` | runtime/armccsp/kfunc.c:232-250 | refines the step Par |
| `Kernel.Sched.End` | runtime/armccsp/kfunc.c:88-111 | refines the step End: count down, run the successor at zero, stop |
| `Kernel.Sched.EnableLoop` | runtime/armccsp/kfunc.c:284-294 | enables the channels of the list in order |
| `Kernel.Sched.DisableLoop` | runtime/armccsp/kfunc.c:304-320 | disables them in order and keeps the first that fired |
| `Kernel.Sched.AltOpen` | runtime/armccsp/kfunc.c:275-302 | ProcAlt up to AltWait: enables the list in order and waits, or stops with an error when nothing was enabled |
| `Kernel.Sched.AltSelect` | runtime/armccsp/kfunc.c:304-329 | after AltWait: returns the least index of a channel with a blocked outputter, never -1 |
| `Kernel.Sched.FirstReady` | runtime/armccsp/kfunc.c:404-420 | the least index of a channel in which an outputter is blocked, or -1 when there is none |
| `Kernel.Sched.AltSkip` | runtime/armccsp/kfunc.c:398-427 | ProcPriAltSkip: takes nothing from the channels, and reschedules exactly when none is ready |
| `Arith386.LshlExact` | translator/tranx86/arch386.c:2520-2556 | the exact 64-bit left shift of the pair for every 32-bit count |
| `Arith386.LshrExact` | translator/tranx86/arch386.c:2520-2556 | the exact 64-bit logical right shift of the pair for every 32-bit count |
| `Arith386.LmulExact` | translator/tranx86/arch386.c:2504-2517 | high and low word together are a*b+c, no carry lost |
| `Arith386.LsumExact` | translator/tranx86/arch386.c:2466-2484 | carry and word together are a+b plus the low bit of c, whatever the flags were |
| `Arith386.LdiffExact` | translator/tranx86/arch386.c:2485-2501 | borrow and word are those of b-a minus the low bit of c |
| `Arith386.LdtimerExact` | translator/tranx86/arch386.c:443-479 | the time is floor(tsc * factor / 2^32) modulo 2^32 for every 64-bit counter value |
| `Inline386.EnqueueRuns` | translator/tranx86/arch386.c:654-696 | the linked list represents the queue with the process behind it, whose link is null; both the empty and the non-empty path |
| `Inline386.QuickReschedules` | translator/tranx86/arch386.c:487-504 | the head of the queue runs and the rest is the queue, or the kernel is entered when it is empty |
| `Inline386.FullRuns` | translator/tranx86/arch386.c:571-646 | with sync activity the process is queued and the kernel entered; alone it goes on; otherwise the head runs and the process is behind the last, one-element path included |
| `Inline386.CopyRuns` | translator/tranx86/arch386.c:990-1004 | the copying code moves exactly the bytes asked for and no others |
| `Inline386.LongMessage` | translator/tranx86/arch386.c:1005-1030 | a message of more than 16 bytes, or of a size in a register, zero included, is copied by a string move of exactly its bytes; both queue registers and the stack are as before |
| `Inline386.InRuns` | translator/tranx86/arch386.c:898-1034 | the inline input makes the changes of ccsp_chanin, whether the channel is empty or holds an outputter, for every size: known and short, known and a multiple of four, known otherwise, or in a register |
| `Inline386.EnbcRuns` | translator/tranx86/arch386.c:1407-1468 | the inline ENBC makes the changes of ccsp_enbc for guards in registers and constant guards |
| `Inline386.AltwtRuns` | translator/tranx86/arch386.c:1639-1671 | the inline ALTWT makes the changes of ccsp_altwt and sets the Temp slot to none selected |
| `Inline386.DiscRuns` | translator/tranx86/arch386.c:1560-1632 | the inline DISC and NDISC make the changes of ccsp_disc, and write the process offset when the guard is ready and nothing has been selected |
| `Sweep386.SweepRuns` | translator/tranx86/arch386.c:1560-1632 | a sequence of emitted DISCs disables all channels and selects the first ready guard |
| `Sweep386.SweepSelects` | translator/tranx86/arch386.c:1560-1671 | in every state the kernel can be in when the ALTer runs after ALTWT, the Temp slot ends with the offset of the first ready guard |
| `Compose386.Translator.QuickReschedule` | translator/tranx86/arch386.c:487-504 | emits the quick reschedule chain |
| `Compose386.Translator.Enqueue` | translator/tranx86/arch386.c:654-696 | emits the enqueue chain |
| `Compose386.Translator.FullReschedule` | translator/tranx86/arch386.c:571-646 | emits the full reschedule chain, with new registers |
| `Compose386.Translator.Copy` | translator/tranx86/arch386.c:990-1004 | the two loops emit the copy of any size |
| `Compose386.Translator.In` | translator/tranx86/arch386.c:898-1034 | emits the input chain for a width, a constant size or a size in a register, with as many new registers as the size needs |
| `Compose386.Translator.Enbc` | translator/tranx86/arch386.c:1407-1468 | for ENBC: emits the chain, folding a constant guard, with two new labels |
| `Compose386.Translator.Disc` | translator/tranx86/arch386.c:1560-1632 | emits the DISC or NDISC chain, folding a constant guard |
| `Compose386.Translator.Altwt` | translator/tranx86/arch386.c:1639-1671 | emits the ALTWT chain |
| `Compose386.Translator.Ldtimer` | translator/tranx86/arch386.c:443-479 | emits the timer chain |
| `Compose386.Translator.ComposeLongOp` | translator/tranx86/arch386.c:2465-2556 | for LSUM, LDIFF, LMUL, LSHL and LSHR: emits the chain of the operation and names the registers of the result |
| `Emitted386.InputReachable` | translator/tranx86/arch386.c:898-1034 | in every state that satisfies the kernel invariant and admits the input, the emitted input makes the changes of ccsp_chanin: that the channel holds an outputter with its message is not assumed |
| `Emitted386.ComposedIn` | translator/tranx86/arch386.c:898-1034 | the input composed by the translator, run behind any code composed before, does so too |
| `Emitted386.ComposedEnbc` | translator/tranx86/arch386.c:1407-1468 | the ENBC composed by the translator makes the changes of ccsp_enbc and leaves the guard as its result |
| `Emitted386.ComposedAltwt` | translator/tranx86/arch386.c:1639-1671 | the ALTWT composed by the translator makes the changes of ccsp_altwt wherever it is admissible |
| `Emitted386.ComposedDisc` | translator/tranx86/arch386.c:1560-1632 | the DISC or NDISC composed by the translator makes the changes of ccsp_disc and leaves in its result register whether the guard has fired |
| `Emitted386.ComposedReschedule` | translator/tranx86/arch386.c:571-646 | the full reschedule composed by the translator, run where ccsp_pause is admissible, does one of the three things FullRuns says |
| `Emitted386.LongRuns` | translator/tranx86/arch386.c:2465-2556 | every long operation with the registers the translator chooses leaves its exact result in the registers named |
| `Emitted386.ComposedLongOp` | translator/tranx86/arch386.c:2465-2556 | the long operation composed by the translator leaves its exact result, the high word in the second register of the new stack |
| `Emitted386.ComposedLdtimer` | translator/tranx86/arch386.c:443-479 | the timer sequence composed by the translator leaves the scaled counter in the first register of the new stack |
| `PpcKeeps.KeepsMeaning` | translator/tranx86/archppc.c:2289-2972 | every rewritten instruction that is supported and does not jump does what the original does, fresh registers aside |
| `PpcPass.Lighter` | translator/tranx86/archppc.c:2289-2972 | what is put behind an instruction weighs less than the instruction, so looking at it again comes to an end |
| `PpcList.WhitherMoved` | translator/tranx86/archppc.c:2913-2937 | jumps to numeric and named labels go to the same places after the pass |
| `PpcList.PassKeeps` | translator/tranx86/archppc.c:2289-2972 | for every list the pass is meant for and every start: same end, memory, flags, registers and target; and a list that does not end still does not |
| `PpcEmit.Widths` | translator/tranx86/rtlops.c:2365-2393 | the width computed bit by bit says whether a constant is short, in numbers |
| `PpcEmit.InsComes` | translator/tranx86/archppc.c:2289-2972 | what the pass makes of one instruction is written out, or will be, if and only if the instruction is codable |
| `PpcEmit.PassEmits` | translator/tranx86/archppc.c:2289-2972 | every instruction the pass leaves has a form in the assembler stage (asmppc.c:365-937) if and only if every instruction of the list is codable |
| `PpcEmit.LeftOver` | translator/tranx86/archppc.c:2298-2912 | four inputs for which something is left that cannot be written out |
| `PpcLimits.NameDisplacement` | translator/tranx86/archppc.c:2402-2514 | a constant or a register stored to a name with displacement is stored in the right place on all machines if and only if the displacement is zero modulo 2^32 |
| `PpcLimits.ByteToName` | translator/tranx86/archppc.c:2348-2401 | a constant byte stored to a name is right on all machines if and only if the address is the constant itself |
| `PpcBlock.Block.DoLea` | translator/tranx86/archppc.c:2298-2347 | the LEA case splices what Rewrite says |
| `PpcBlock.Block.DoMoveB` | translator/tranx86/archppc.c:2348-2401 | the byte move cases |
| `PpcBlock.Block.DoMove` | translator/tranx86/archppc.c:2402-2514 | the move cases |
| `PpcBlock.Block.DoAlu` | translator/tranx86/archppc.c:2515-2588 | the arithmetic cases, SUB of a constant becoming ADD |
| `PpcBlock.Block.DoNot` | translator/tranx86/archppc.c:2589-2608 | NOT becomes XOR with all ones |
| `PpcBlock.Block.DoStep` | translator/tranx86/archppc.c:2736-2784 | INC and DEC of registers and of memory |
| `PpcBlock.Block.DoCmp` | translator/tranx86/archppc.c:2867-2912 | the comparison, operands exchanged or fetched as needed |
| `PpcBlock.Block.DoJump` | translator/tranx86/archppc.c:2913-2937 | a conditional jump to a name becomes the opposite jump over an unconditional one |
| `PpcBlock.Block.DoSwap` | translator/tranx86/archppc.c:2938-2967 | SWAP becomes three moves through a fresh register |
| `PpcBlock.Block.Prevalidate` | translator/tranx86/archppc.c:2289-2972 | the redo loop ends after at most one more round with what Rewrite says |
| `PpcBlock.Block.PrevalidateAll` | translator/tranx86/rtlops.c:1037-1062 | going along the list, through everything that is put behind an instruction, ends with the list of the pass |
| `Tcoff.NumberRoundTrip` | bin/ilibr/tcofflib/tcoff_io.c:58-232 | every number a long can hold takes exactly sizel bytes and is read back |
| `Tcoff.ReadsAll` | bin/ilibr/tcofflib/tcoff_io.c:58-146 | any list of records is read back from its bytes |
| `Tcoff.NumberIsWritten` | bin/ilibr/tcofflib/tcoff_io.c:58-146 | a number is written as a byte up to 250, else in the fewest of 1, 2, 4 or 8 bytes, low byte first, behind 251 to 254; a negative one behind 255 |
| `Tcoff.KeyRoundTrip` | bin/ilibr/ilibr.c:560-575 | the fields of an index entry are read back in their order, the position modulo 2^32 |
| `Ilibr.ScanAccounted` | bin/ilibr/ilibr.c:580-846 | after any records, the running total is the size of all entries and each entry knows its own size, descriptors filled in later included |
| `Ilibr.StripKeeps` | bin/ilibr/ilibr.c:516-546 | the weeding keeps exactly the entries whose symbol was defined |
| `Ilibr.HeaderBytes` | bin/ilibr/ilibr.c:548-577 | the index written takes exactly the bytes that write_index has computed beforehand, whatever the positions are |
| `IlibrTheorems.ScanItems` | bin/ilibr/ilibr.c:580-846 | indexing well-bracketed records adds exactly the entries of their modules |
| `IlibrTheorems.SurvivorsAre` | bin/ilibr/ilibr.c:516-846 | what is left in the index are exactly the symbols that their modules export and define |
| `IlibrUsage.ExportedBits` | bin/ilibr/tcofflib/tcoff.h:94-100 | for every set of bits whose powers of two add up to the usage word, the symbol is indexed exactly when bit 1 is in it and 3, 4 and 5 are not, and is an origin symbol exactly when bit 7 is |
| `IlibrUsage.SurvivorsByUsage` | bin/ilibr/ilibr.c:516-846 | what is left in the index, said by the bits of the usage words alone, negative ones included |
| `IlibrUsage.NoDescriptors` | bin/ilibr/ilibr.c:697-780 | without descriptors no entry has one, and none is in a language of occam |
| `IlibrUsage.ScanStops` | bin/ilibr/ilibr.c:580-846 | indexing stops with an error if and only if some record is outside a module, of the wrong kind of file, or a second descriptor of its symbol |
| `IlibrTheorems.FilesScan` | bin/ilibr/ilibr.c:978-1018 | indexing the files one by one, each in its own coordinates, finds the same as indexing the copied bodies as one list |
| `IlibrTheorems.PositionsPoint` | bin/ilibr/ilibr.c:490-1043 | header size, total and offsets agree: every entry, its position taken as an unbounded number, points at the start record of the module that declares its symbol, and every such symbol has its entry |
| `IlibrTheorems.StoredIs` | bin/ilibr/ilibr.c:558-575 | what is stored of a position in the index entry is the position, moved by the size of the index, modulo 2^32 |
| `IlibrTheorems.PositionsStored` | bin/ilibr/ilibr.c:490-1043 | in every output shorter than 2^32 bytes the four bytes of each entry decode to the offset of that start record; in longer ones they wrap around |
| `IlibrTheorems.RerunStable` | bin/ilibr/ilibr.c:490-1018 | a library used as input, alone or before further files, gives the same entries with the same positions, the same index size and the same body |
| `IlibrRun.CmpIsOrder` | bin/ilibr/ilibr.c:863-921 | the comparison of entries is a total preorder: total, antisymmetric in sign, transitive |
| `IlibrRun.CmpMeans` | bin/ilibr/ilibr.c:895-921 | in the sorted index origin symbols come first, names ascend in dictionary order, and of one name those with the input and output attribute come first |
| `IlibrRun.OneBitsCount` | bin/ilibr/ilibr.c:849-860 | the number of bits counted is the size of the set of bits |
| `IlibrRun.Librarian.IndexModule` | bin/ilibr/ilibr.c:580-846 | the record loop computes Scan, with the same failures |
| `IlibrRun.Librarian.StripIndex` | bin/ilibr/ilibr.c:516-546 | computes Strip and takes what is removed off the total |
| `IlibrRun.Librarian.SortIndex` | bin/ilibr/ilibr.c:923-953 | the index is a permutation of the old one in the order of cmp |
| `IlibrRun.Librarian.WriteIndex` | bin/ilibr/ilibr.c:548-577 | writes the header with every position moved by the size of the header itself |
| `IlibrRun.Librarian.Fcopy` | bin/ilibr/ilibr.c:490-513 | copies the whole file, or what is behind the index of a library |
| `IlibrRun.Librarian.ReadFiles` | bin/ilibr/ilibr.c:978-1018 | the reading loop, fstart being taken back for libraries, computes ScanFiles |
| `IlibrRun.Librarian.CopyFiles` | bin/ilibr/ilibr.c:1030-1042 | the copying loop writes the copied bodies, in order |
| `IlibrRun.Librarian.MkIndex` | bin/ilibr/ilibr.c:955-1045 | the whole run: on success the output is header and bodies for a sorted permutation of the entries found; it fails when a file is badly formed or nothing is left |
| `Tenc.WordBack` | build-tools/tenctool/tenclib.py:49-61 | a number that fits a word takes exactly a word and is read back |
| `Tenc.WordIs` | build-tools/tenctool/tenclib.py:55-61 | the bytes of a word are those of the number, most significant first |
| `TencTheorems.DocHeader` | build-tools/tenctool/tenclib.py:72-80 | a document begins with the name of its word size and a word with the number of bytes behind it |
| `TencTheorems.SignedIs` | build-tools/tenctool/tenclib.py:236-259 | a signed element is read as an unsigned number |
| `TencTheorems.SmallDocs` | build-tools/tenctool/tenclib.py:49-273 | with 16-bit words every tree that fits comes back from its dump |
| `TencTheorems.LargeDocs` | build-tools/tenctool/tenclib.py:49-273 | with 32-bit words every safe tree comes back, in particular when all lengths are even |
| `TencTheorems.OnlySafe` | build-tools/tenctool/tenclib.py:224-273 | with 32-bit words and no repeating tags, a list that comes back is safe |
| `TencTheorems.LargeDocsExactly` | build-tools/tenctool/tenclib.py:49-273 | with no repeating tags, a document comes back if and only if it is safe |
| `TencTheorems.UnsafeSurvives` | build-tools/tenctool/tenclib.py:224-273 | a concrete unsafe document that comes back all the same, so the condition on tags is needed |
| `TencRun.EncodeInt` | build-tools/tenctool/tenclib.py:55-61 | the digit loop and the padding compute IntToBytes |
| `TencRun.DecodeInt` | build-tools/tenctool/tenclib.py:49-53 | the loop over the bytes computes BytesToInt |
| `TencRun.Encode` | build-tools/tenctool/tenclib.py:96-156 | the bytes methods compute Dump |
| `TencRun.EncodeDoc` | build-tools/tenctool/tenclib.py:72-80 | dump_bytes computes DumpDoc |
| `TencRun.Parser.Parse` | build-tools/tenctool/tenclib.py:181-187 | parse computes ParseDoc and ends on every input |
| `TencRun.Parser.Header` | build-tools/tenctool/tenclib.py:189-202 | the header chooses the word size or is refused |
| `TencRun.Parser.Element` | build-tools/tenctool/tenclib.py:204-273 | parse_element and the methods it chooses compute ParseElement |
| `TencRun.Parser.Elements` | build-tools/tenctool/tenclib.py:239-249 | the loop over a list computes ParseAll |
| `Rcx.FrameDecodes` | platform/brickload/rcx.c:100-211 | the frame of a payload is decoded to that payload |
| `Rcx.FrameIs` | platform/brickload/rcx.c:100-121 | a byte sequence is the frame of a payload if and only if it has the header, each payload byte and then the low byte of their sum, and behind each of these the byte that makes it 255 |
| `Rcx.SumDecides` | platform/brickload/rcx.c:182-205 | the bytes received are accepted exactly when their sum agrees with the byte behind them modulo 256 |
| `Rcx.Compose` | platform/brickload/rcx.c:100-121 | the composing loop fills the buffer with the frame, byte for byte what is wanted on the wire |
| `Rcx.Send` | platform/brickload/rcx.c:100-142 | if the device takes something each time the whole frame goes out, as it should be on the wire, however it is divided; on failure a prefix has gone out |
| `Rcx.Search` | platform/brickload/rcx.c:171-179 | the search drops bytes up to the first header, or until it is too short to tell |
| `Rcx.Receive` | platform/brickload/rcx.c:144-211 | for any division of the reads: exactly the bytes up to the end of the first frame are read, and the result is what they decode to |
| `Rcx.Check` | platform/brickload/rcx.c:182-205 | the payload if the sum is right, otherwise failure |
| `Rcx.RoundTrip` | platform/brickload/rcx.c:100-211 | garbage without a header, then the frame of a payload, then anything: the payload is returned and the rest is unread |
| `Rcx.Blocks` | platform/brickload/rcx.c:486-534 | the messages carry the image in order and completely, numbered, full but the last, which has number zero |
| `Rcx.BlockSays` | platform/brickload/rcx.c:498-522 | the message of a block: operation with its toggle, number or zero, length, data, low byte of their sum |
| `Rcx.BlocksToggle` | platform/brickload/rcx.c:498-499 | messages that follow each other differ in the operation |
| `RcxImage.Encloses` | platform/brickload/rcx.c:353-360 | every data record lies within the bounds |
| `RcxImage.Attained` | platform/brickload/rcx.c:353-360 | if there is a data record, both bounds are those of some data record |
| `RcxImage.NoDataImage` | platform/brickload/rcx.c:313-396 | without data records the image is one zero byte at the last address |
| `RcxImage.ImageHolds` | platform/brickload/rcx.c:376-393 | every data record is inside the image, and its bytes are at its address unless a later record overlaps it |
| `RcxImage.StartIs` | platform/brickload/rcx.c:329-364 | the start address is that of the last record of kind 9, or zero |
| `RcxImage.ImageRefused` | platform/brickload/rcx.c:366-375 | a file with data records is refused exactly when two of them span more than 0x7000 bytes |
| `RcxImage.Bounds` | platform/brickload/rcx.c:329-364 | the bounds and the start address after all lines |
| `RcxImage.Assemble` | platform/brickload/rcx.c:313-396 | the image is zero but for the data records copied in file order; no records, or a span over 0x7000, is an error |
| `RcxImage.Upload` | platform/brickload/rcx.c:313-534 | what the brick collects from the blocks is the image of the file |
| `Tokens.RenderBack` | bin/ilibr/arg.c:237-355 | any list of tokens, rendered with quotes where needed or anywhere else and with any whitespace, is taken apart into that list |
| `Tokens.AcceptedIs` | bin/ilibr/arg.c:237-355 | every string that is taken apart without error is a rendering of its tokens by the quoting rules, up to its zero character |
| `Tokens.SpaceCodes` | bin/ilibr/arg.c:254-328 | whitespace is the blank and the codes 9 to 13 |
| `Tokens.QuotedSpan` | bin/ilibr/arg.c:237-307 | between the opening quote and the end of a quoted token lies the token with its quotes doubled |
| `Tokens.Arguments.ScanToken` | bin/ilibr/arg.c:237-273 | finds the end of the token, or reports the token in error |
| `Tokens.Arguments.CopyToken` | bin/ilibr/arg.c:279-307 | copies what the token means, quotes undoubled |
| `Tokens.Arguments.ParseString` | bin/ilibr/arg.c:315-355 | counts on the way in and fills on the way out: argv ends up with exactly the tokens, argc with their number |
| `Tokens.Arguments.ParseRendered` | bin/ilibr/arg.c:315-355 | parsing a rendering gives argc and argv of the rendered tokens |
| `Packages.UniqHolds` | packaging/windows/package.py:18-21 | uniq leaves every element, once |
| `Packages.UniqOrder` | packaging/windows/package.py:18-21 | elements stay in the order in which they occur first |
| `Packages.UniqueOf` | packaging/windows/package.py:18-21 | the comprehension with its dictionary computes Uniq |
| `Packages.Declared` | packaging/windows/package.py:265-279 | a package added with dependencies that exist keeps the table closed, acyclic and free of repeated dependencies |
| `Packages.Registry.Declare` | packaging/windows/package.py:265-279 | a new name is added with its dependencies, each once; a known one is refused; the class-wide table can be ordered ever after |
| `Packages.EmptiedOnlyIf` | packaging/windows/package.py:353-361 | what the loop can do: if removing ready packages one after another empties a table, the table was closed, acyclic and without repeated dependencies, and the order has every package once, after its dependencies |
| `Packages.SomeReady` | packaging/windows/package.py:353-361 | in a table of declared packages one is always ready, until all are built |
| `Packages.BuildTable` | packaging/windows/package.py:353-361 | on such a table the nested loops end, with every package once, after all its dependencies |
| `Packages.Registry.BuildOrder` | packaging/windows/package.py:330-362 | whatever packages have been declared, the build order has every one once, after all its dependencies |
| `Packages.DepsOf` | packaging/windows/package.py:292-298 | the recursion computes the list of dependencies |
| `Packages.DepsInOrder` | packaging/windows/package.py:292-298 | every package of the list comes after all its dependencies |
| `Packages.Builder.constructor` | packaging/windows/package.py:369-377 | the dictionary holds exactly what is needed: the least set with the package that is closed under dependencies |
| `Packages.Needed` | packaging/windows/package.py:340-352 | the work list, to which dependencies are added again each time, still ends, with the least closed part of the table around the package |
| `Packages.Registry.BuildOrderFor` | packaging/windows/package.py:330-362 | the order for one package has exactly the packages it needs, each once, after its dependencies |

## Left out

- Inline assembly, stack switching and external calls of the ARM kernel: only "save, switch, never return" is modelled.
- The timed ALT (ccsp_talt, ccsp_enbt, ccsp_dist, ccsp_taltwt): its wait is unfinished in the source.
- Barriers driven by separate LightProcStart and LightProcBarrierWait calls: the last child runs the successor whether or not the parent has stopped. ProcPar is modelled, and RunP through it; the barrier is kept with the parent, which has at most one.
- Each clock reading is a parameter, near the times on the timer queue; that the sleep lasts as long as was asked for is not modelled.
- Memory allocation, error and shutdown calls other than the end of a run, and the process free list of the ARM kernel.
- Channel data are addressed by whole buffers: a message is the first n bytes of a buffer.
- Inline386.QuickReschedules: the sequence looks at no timers until the run queue is empty, so it is related to the dispatch step and to the kernel entry, not to the whole scheduler.
- Compose386.Translator.In: with a negative constant size the copying loop of the translator would not end, so a constant size is not negative; widths are zero or whole bytes.
- Compose386.Translator.Enbc: ENBC3, which jumps when the guard is ready, is not modelled; neither are pre-enable, process priorities, inline mobile input and output, and reduced polling.
- Compose386.Translator.ComposeLongOp: LADD, LSUB and LDIV, whose overflow is tested by other code, are not modelled.
- Sweep386.SweepSelects: assumes that no process offset equals the constant for none selected.
- PpcEmit.PassEmits: says that there is a form, not that the text of the form means the same.
- Register allocation and register constraints, floating point, debug tables and the text output of the translators; virtual registers are distinct.
- The MIPS back end.
- PpcKeeps.KeepsMeaning: is for supported instructions: a constant or register stored to a name with a displacement, a constant byte stored to a name, and zero extension into anything but a register are excluded, `PpcLimits` saying when the first two go wrong.
- PpcList.PassKeeps: excludes the same, and PUSH and POP, the scaled-index and sign-extension cases, and lists that use numeric label 7 themselves; carry and overflow after SUB has become ADD are not modelled; addresses of names are arbitrary constants.
- Librarian warnings, malformed or nested modules, names with zero characters, negative attribute words, and the order of entries that compare equal. That all inputs have the same kind of first record is assumed; the source stops otherwise.
- TEnc signed integers, which have no serialiser, and the positions kept in parsed elements.
- TencTheorems.LargeDocsExactly: the only-if half is for trees in which no tag consists of the same two bytes twice; it is false otherwise, as `TencTheorems.UnsafeSurvives` shows.
- Rcx: retries, timeouts and the progress output of the upload; the text of S-record lines, so a record is what load_srec returns.
- Packages: building, downloading, environment variables and command lines; Declare refuses known names only, not missing archives or names that are Python globals. The search for what a package needs compares package objects with names, so it never skips a package it has checked; it is modelled so, and ends all the same.
- File, console and USB access, packaging scripts, the Windows stub, documentation tools and wiki parsers.
