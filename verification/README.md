# Verification of the packet processor, its arithmetic, the MIPS32 pipeline and two hardware cores

A Dafny model of five parts of the repository, with proofs about all inputs, all runs and all programs.

**The AQL packet processor** (`Protocol`, `SlotSafety`, `AqlEntries`, `SecondSight`, `DispatchOrder`,
`InOrderRetirement`, `Runs`, `Progress`, `BarrierWait`, `Buffers`). A state machine whose events are the critical
sections of the main loop, the interrupt handlers and the producers' writes, over any window size, number of cores and
queue length. `RingQueue`, `PacketProcessor` and `Refinement` hold the arrays, counters, rings and registers, with
64-bit wrap-around, as classes that are updated in place, and show that they carry out the state machine. `Memory`,
`Dma`, `LaunchMeaning`, `EndToEnd`, `DataSteps`, `DataFlow` and `DataOrigin` add the command processor that copies the
data, the accelerator cores and the shared memory, and follow the bytes of every packet from source to destination.
The protocol is that of section 2.9 of the HSA Platform System Architecture Specification 1.1.

**Software arithmetic** (`Bits`, `Division`, `WideDivision`, `Multiplication`): 32- and 64-bit division and
multiplication, loop by loop and case by case, on explicit machine words. Shifts by the word width or more are given
an arbitrary result.

**The MIPS32 pipeline** (`MipsIsa`, `MipsUnits`, `SubwordMemory`, `MipsPipeline`, `MipsRefinement`, `MipsExecution`,
`MipsAssembly`, `MipsStallExample`, `MipsCpu`). `MipsIsa` is the sequential machine over byte-addressed memory, after
chapter 3 of MIPS32 Architecture for Programmers, Volume II, and `MipsAssembly` the same from mnemonics and operands;
the pipeline with its stage registers, forwarding, stalls and read-modify-write stores is proved to do the same.

**The interrupt arbiter** (`InterruptArbiter`), for any number of lanes, and **the width-converting two-port RAM**
(`DualPortRam`, `DualclockBram`), for any power-of-two widths.

## What the proofs rest on

- Handlers and critical sections are atomic: nested interrupts are masked, and critical sections disable interrupts.
- The increment of READ_INDEX after a barrier packet (lines 132 and 162), which is outside any critical section, is
  not interrupted by a handler that increments it too.
- Outside a barrier wait a pass over the queue head (lines 58-88) sees the queue as it is at one moment.
- The window has fewer than 2^16 slots (`PacketProcessor.FillEndsIff`).
- Each outstanding request gets exactly one interrupt, and producers write only entries whose header is INVALID.
- Where a result says so, and the data results do, every packet is taken from the queue once: what is admitted is
  marked as a kernel packet at that moment and is not in flight (`Protocol.FirstSights`, and `NotTwice` in a run of
  the whole system). `InOrderRetirement.RetiresInOrder` derives this for one core, all packets signalled and a window
  no longer than the queue; `AqlEntries.FirstSightsIff` says exactly when it holds.
- `malloc` returns a block that overlaps no live one; it does not fail.
- The host keeps a packet's result buffer apart from the other packets' result buffers and from completion signals,
  all host buffers lie below the on-board memory, images are smaller than 2^31 bytes, and a custom filter is named by
  its exact 64-bit code. `EndToEnd.HostOk` states this.
- The data memory of the pipeline answers in one cycle and the bus shows anything at all when nothing was read. There
  are no exceptions; the overflow exception is switched off, as it is by default.
- Accesses at the two ports of the RAM happen one after the other.

## What the code does that its documentation or intent does not say

- A barrier packet with a completion signal puts its queue index where a slot number belongs (lines 125 and 155), so
  the slot invariant never survives one (`SlotSafety.SignalledBarrierBreaksSlots`). The state machine leaves such
  packets out.
- Vendor, agent and unknown packets advance the packet counter but never READ_INDEX: a later barrier bit then waits
  for ever (`SlotSafety.SkippedBlocksBarriers`).
- The barrier wait (line 66) keeps the main loop from serving its queues: a barrier bit met while a packet in flight
  still waits for a transfer, a core or its signal to be started is never got past (`BarrierWait.WaitEndsIff`).
- A packet without a completion signal retires ahead of older ones whose signals are still being sent
  (`DispatchOrder.RetiresOldest` says exactly when).
- The main loop may take a packet a second time: when a younger packet without signal, or on another core, ends first,
  a packet in flight can be a full queue length behind the packet counter, and its entry, still valid, is then met at
  the head and dispatched again (`SecondSight.TakenTwice`; `AqlEntries.NewUnlessLapped` says exactly when). For this
  AQL_LEFT must still be set: a producer has reserved the next packet number, or rings the doorbell late.
- If that entry has its barrier bit set, the type is read before the barrier wait and used after it (lines 62, 66 and
  70): the packet has ended by then and is dispatched again from an invalid entry (`SecondSight.TakenAfterWait`,
  `AqlEntries.TakenAfterItsEnd`; `AqlEntries.TakesAgainIff` says exactly when).
- A load-use stall lasts two cycles while a byte or halfword store is being finished (`MipsExecution.StallsAgainIff`).
- A transfer whose destination starts inside its source spreads the first bytes instead of copying
  (`Dma.TransferredIff`).
- The image size is a 32-bit product stored in an `int` and sign-extended: from 2^31 bytes on it is not the image's
  size, or so large that the 32-bit loop counter of the copy never reaches it (`EndToEnd.ImageSizeExact`).
- The comment on the argument layout (lines 76-77) puts the custom mask behind a four-byte normalization field, at
  offset 24; the code takes it from offset 20, where the normalization is. The model does the same.
- The argument block's size is chosen by the full 64-bit kernel object, the kernel by its low 16 bits.
- The arbiter loses a rising edge that arrives while its lane is pending or being reported
  (`InterruptArbiter.EdgesConserved`, `InterruptArbiter.EdgeLostWhenReported`).

## Model

| member | source | states |
|---|---|---|
| `SlotSafety.PlacesConserved` | lib/packet_processor/sw/core/src/packet_processor.c:58-359 | No event of the main loop or a handler creates, loses or duplicates a slot number, counted over the free stack, the three rings and the three kinds of engine |
| `SlotSafety.SlotInvKept` | lib/packet_processor/sw/core/src/packet_processor.c:58-359 | Every event keeps: each slot is in exactly one place, its status is the one of that place, an admitted packet and one in the barrier wait still find a free slot although line 58 is not repeated at line 90, and READ_INDEX plus slots in flight plus skipped packets is the packet counter |
| `SlotSafety.SlotInvReachable` | lib/packet_processor/sw/core/src/packet_processor.c:43-54 | The same in every state of every run from power-up, for any window that the initialisation loop gets through, any number of cores and any queue length |
| `SlotSafety.RingsFit` | lib/packet_processor/sw/core/src/packet_processor.c:97-104 | Free stack, rings and engines together always hold exactly as many entries as the window has slots, so no ring outgrows it |
| `SlotSafety.BarrierWaitMeaning` | lib/packet_processor/sw/core/src/packet_processor.c:64-66 | The barrier wait ends if and only if nothing is in flight and no packet of a skipped type has gone by |
| `SlotSafety.SkippedBlocksBarriers` | lib/packet_processor/sw/core/src/packet_processor.c:71-71 | Once a vendor, agent or unknown packet has been passed, the barrier wait never ends again, in any continuation of any run |
| `SlotSafety.SignalledBarrierBreaksSlots` | lib/packet_processor/sw/core/src/packet_processor.c:121-128 | A barrier packet with a completion signal always breaks the one-place invariant: its queue index is taken for a slot number |
| `AqlEntries.EntriesKept` | lib/packet_processor/sw/core/src/packet_processor.c:94-96 | Each packet in flight has its own AQL entry, at its number modulo the queue length, still marked as a kernel dispatch; kept by every event but the admission of a packet that has been taken before |
| `AqlEntries.SecondSightShares` | lib/packet_processor/sw/core/src/packet_processor.c:58-105 | And such an admission always breaks it: after admission and dispatch, behind a barrier wait or not, the entries are separate and valid if and only if the packet was taken for the first time |
| `AqlEntries.NewUnlessLapped` | lib/packet_processor/sw/core/src/packet_processor.c:60-62 | The packet at the head is new if and only if no packet in flight is exactly a queue length behind the packet counter |
| `AqlEntries.TakesAgainIff` | lib/packet_processor/sw/core/src/packet_processor.c:62-70 | An admission takes a packet that has been taken before if and only if a packet in flight is exactly a queue length behind; or, after a barrier wait, if one was when the wait began and no kernel packet has come into its place |
| `AqlEntries.FirstSightsIff` | lib/packet_processor/sw/core/src/packet_processor.c:58-105 | A run from power-up takes every packet for the first time if and only if no admission in it is of this kind |
| `AqlEntries.StillNewAlong` | lib/packet_processor/sw/core/src/packet_processor.c:62-70 | A barrier wait that begins on a new kernel packet goes on with that packet, whatever ends or is written in the meantime |
| `AqlEntries.TakenAfterItsEnd` | lib/packet_processor/sw/core/src/packet_processor.c:62-105 | A barrier wait that begins on a packet in flight and is left before a producer has written the entry dispatches this packet again, after its end and from an invalid entry |
| `AqlEntries.NeverFurtherBehind` | lib/packet_processor/sw/core/src/packet_processor.c:94-96 | In every state of a run from power-up that takes no packet twice the packets in flight have their entries and none is more than a queue length behind the packet counter |
| `SecondSight.TakenTwice` | lib/packet_processor/sw/core/src/packet_processor.c:58-105 | Such runs exist: from power-up with one core, a window as long as the queue and producers that write invalid entries only, a packet without signal overtakes one with a signal, which is then admitted again while in flight; the packet counter stays at 2 or below, so that AQL_LEFT is not cleared if a third number has been reserved |
| `SecondSight.TakenAfterWait` | lib/packet_processor/sw/core/src/packet_processor.c:58-105 | The same with a barrier bit: the packet ends during the wait and is dispatched a second time, although no packet is ever admitted while it is in flight; the packet counter is at 2 or below until then |
| `AqlEntries.PacketStable` | lib/packet_processor/sw/core/src/packet_processor.c:246-296 | While a packet is in flight no event, a producer's write included, changes the queue entry behind it |
| `AqlEntries.EndInvalidates` | lib/packet_processor/sw/core/src/packet_processor.c:315-318 | A packet that ends leaves its own entry invalid for the producers, advances READ_INDEX by one and changes no other entry |
| `AqlEntries.BarrierInvalidates` | lib/packet_processor/sw/core/src/packet_processor.c:130-133 | So does a barrier packet without completion signal with its own entry; it advances both counters |
| `AqlEntries.OnlyTheseChange` | lib/packet_processor/sw/core/src/packet_processor.c:58-359 | Nothing else changes a queue entry: only a producer's write, the end of a barrier packet, and the end of the packet behind it; a packet of a skipped type leaves its entry as it is |
| `DispatchOrder.LineAfter` | lib/packet_processor/sw/core/src/packet_processor.c:177-359 | With one core an event appends the new packet at the end of the line of stages, removes one packet from it, or leaves it as it is: nothing overtakes |
| `DispatchOrder.SortedKept` | lib/packet_processor/sw/core/src/packet_processor.c:177-359 | Packet numbers strictly increase from the front of the line to its end, whatever the mix of packets |
| `DispatchOrder.RetiresOldest` | lib/packet_processor/sw/core/src/packet_processor.c:301-319 | With one core the packet that ends is the oldest in flight if and only if it has a completion signal or no signal is outstanding: this is when retirement is in order |
| `DispatchOrder.RetirementOrder` | lib/packet_processor/sw/core/src/packet_processor.c:301-359 | Over any run with one core a packet that ends that way ends before every packet with a higher number |
| `InOrderRetirement.RetiresInOrder` | lib/packet_processor/sw/core/src/packet_processor.c:177-359 | With one core, a completion signal on every kernel packet dispatched, the barrier bit on every barrier packet, no packet of a skipped type, and a window no longer than the queue or else no packet taken twice: in every run the packet that ends is number READ_INDEX, so retirement is exactly in dispatch order, and no packet is taken twice |
| `InOrderRetirement.EndsInNumberOrder` | lib/packet_processor/sw/core/src/packet_processor.c:177-359 | With one core, all kernel packets with a completion signal or all without, and no packet taken twice: of any two packets that end in a run the one with the lower number ends first, whatever barrier packets and skipped types go by |
| `InOrderRetirement.OlderIsAhead` | lib/packet_processor/sw/core/src/packet_processor.c:177-359 | An older packet is at the same stage as a younger one or further, and ahead of it in the line |
| `InOrderRetirement.HeadIsNewIff` | lib/packet_processor/sw/core/src/packet_processor.c:60-62 | In every state of such a run the packet at the head is new if and only if fewer packets lie between the counters than the queue has entries |
| `InOrderRetirement.HeadIsNew` | lib/packet_processor/sw/core/src/packet_processor.c:60-62 | So with no more slots than queue entries and a slot free it is new in every state of such a run: one core, a signal on every kernel packet in flight, nothing skipped, packets in flight in order |
| `Progress.OneStepOff` | lib/packet_processor/sw/core/src/packet_processor.c:177-359 | Every event but a dispatch takes exactly one off the remaining steps of the packet it works on and leaves all other packets' alone |
| `Progress.PotentialFalls` | lib/packet_processor/sw/core/src/packet_processor.c:89-105 | The weighted sum of remaining steps strictly falls with every dispatch, engine start and interrupt; a non-dispatch lowers it by exactly one |
| `Progress.SomethingEnabled` | lib/packet_processor/sw/core/src/packet_processor.c:177-359 | While a packet is in flight or admitted some working event can happen, given at least one core and no barrier wait going on |
| `BarrierWait.WaitEndsIff` | lib/packet_processor/sw/core/src/packet_processor.c:66-66 | The barrier wait, during which no queue is served, can end if and only if no packet of a skipped type has gone by and every packet in flight is at its very last step: only then do the counters ever agree |
| `BarrierWait.WaitForEver` | lib/packet_processor/sw/core/src/packet_processor.c:66-66 | With one packet in flight that still needs the main loop, no run ever leaves the wait, and the counters never agree |
| `BarrierWait.WaitCanEnd` | lib/packet_processor/sw/core/src/packet_processor.c:66-66 | Otherwise the interrupts that are due make them agree |
| `BarrierWait.GoesOn` | lib/packet_processor/sw/core/src/packet_processor.c:66-172 | Then the main loop goes on with the type it read before the wait: admission, end of a barrier packet without completion signal, skip, or nothing |
| `Progress.RunsEnd` | lib/packet_processor/sw/core/src/packet_processor.c:49-54 | A run of working events has no more events than the potential of the state it starts in |
| `Progress.EverythingEnds` | lib/packet_processor/sw/core/src/packet_processor.c:49-359 | From every state with a core and outside a barrier wait, working events lead to a state in which every packet in flight or admitted has ended |
| `Progress.OnlyDoneStops` | lib/packet_processor/sw/core/src/packet_processor.c:49-359 | A run of working events from such a state that cannot be continued has come that far |
| `Progress.ExactlyTenSteps` | lib/packet_processor/sw/core/src/packet_processor.c:89-359 | Between its dispatch and its end a packet is worked on exactly ten times with a completion signal and eight times without, in every run that takes no packet twice |
| `Buffers.BuffersKept` | lib/packet_processor/sw/core/src/packet_processor.c:86-86 | Argument and image buffers of packets in flight are live, pairwise distinct, and with the admitted packet's one they are all there are |
| `Buffers.FreedWhileLive` | lib/packet_processor/sw/core/src/packet_processor.c:313-314 | A packet frees exactly its two buffers, both live at that time and gone afterwards; no other event frees any |
| `Buffers.NothingLeaks` | lib/packet_processor/sw/core/src/packet_processor.c:351-352 | With no packet in flight or admitted, no buffer is left |
| `Buffers.RequestsKept` | lib/packet_processor/sw/core/src/packet_processor.c:257-299 | Every transfer or launch, waiting or running, names the buffers of its own packet |
| `Buffers.NoUseAfterFree` | lib/packet_processor/sw/core/src/packet_processor.c:177-225 | The buffer that a waiting or running request names has not been freed |
| `Buffers.BuffersReachable` | lib/packet_processor/sw/core/src/packet_processor.c:43-54 | All of this in every state of every run from power-up |
| `RingQueue.EntriesPush` | lib/packet_processor/sw/core/src/packet_processor.c:97-104 | A write at the masked index of a ring that is not full appends to the FIFO sequence and disturbs no entry, also when the 64-bit indices wrap |
| `RingQueue.EntriesPop` | lib/packet_processor/sw/core/src/packet_processor.c:181-190 | The entry at the masked read index is the oldest one, and advancing the index removes it alone |
| `RingQueue.FullRingOverwrites` | lib/packet_processor/sw/core/src/packet_processor.c:97-104 | In a full ring the next write would land on the oldest entry: the bound on the rings is needed |
| `RingQueue.CellsDistinct` | lib/packet_processor/sw/core/src/packet_processor.c:97-97 | Up to a ring length of consecutive 64-bit indices use different cells, across the wrap |
| `RingQueue.CounterModulo` | lib/packet_processor/sw/core/src/packet_processor.c:60-60 | A counter kept modulo 2^64 and masked gives the true count modulo the queue length |
| `RingQueue.Ring.Push` | lib/packet_processor/sw/core/src/packet_processor.c:97-104 | The array ring refines appending to a sequence |
| `RingQueue.Ring.Pop` | lib/packet_processor/sw/core/src/packet_processor.c:181-190 | The array ring refines removing the first element |
| `PacketProcessor.Processor.constructor` | lib/packet_processor/sw/core/src/packet_processor.c:43-48 | Globals and free stack after initialisation |
| `PacketProcessor.FillFreeSlots` | lib/packet_processor/sw/core/src/packet_processor.c:45-47 | The initialisation loop leaves slot i at position i of the stack, its 16-bit counter not wrapping below 2^16 slots |
| `PacketProcessor.FillEndsIff` | lib/packet_processor/sw/core/src/packet_processor.c:45-47 | That counter reaches the window size if and only if it is below 2^16 |
| `PacketProcessor.Processor.ProcessAqlPacket` | lib/packet_processor/sw/core/src/packet_processor.c:56-172 | A pass over the queue head: window check, barrier bit and start of the barrier wait with the type that was read, or the branch for the type; all else unchanged |
| `PacketProcessor.Processor.ProcessType` | lib/packet_processor/sw/core/src/packet_processor.c:69-172 | The branches for the packet types, the type possibly read before a barrier wait; all else unchanged |
| `PacketProcessor.Processor.PassBarrier` | lib/packet_processor/sw/core/src/packet_processor.c:121-138 | The end of a barrier packet: with a completion signal its queue index goes into the decrement ring, without one its entry is invalidated and READ_INDEX advances; all else unchanged |
| `PacketProcessor.Processor.LookAtReadIndex` | lib/packet_processor/sw/core/src/packet_processor.c:66-172 | One look at READ_INDEX in the barrier wait and, when the counters agree, the branch for the type read before |
| `PacketProcessor.Processor.Dispatch` | lib/packet_processor/sw/core/src/packet_processor.c:89-105 | The critical section of a dispatch: slot popped, bookkeeping written, transfer queued; all else unchanged |
| `PacketProcessor.Processor.ProcessDmaQueue` | lib/packet_processor/sw/core/src/packet_processor.c:177-193 | The oldest transfer request goes to an idle DMA engine; all else unchanged |
| `PacketProcessor.Processor.ProcessLaunchQueue` | lib/packet_processor/sw/core/src/packet_processor.c:195-227 | The scan finds the first idle core, which gets the oldest launch request; all else unchanged |
| `PacketProcessor.Processor.ProcessDecQueue` | lib/packet_processor/sw/core/src/packet_processor.c:229-242 | The oldest decrement request goes to an idle completion engine; all else unchanged |
| `PacketProcessor.Processor.InterruptTransfer` | lib/packet_processor/sw/core/src/packet_processor.c:244-325 | The transfer handler, stage by stage; all else unchanged |
| `PacketProcessor.Processor.RequestImageLoad` | lib/packet_processor/sw/core/src/packet_processor.c:246-265 | Its first stage: image buffer recorded and image transfer queued |
| `PacketProcessor.Processor.RequestCore` | lib/packet_processor/sw/core/src/packet_processor.c:266-300 | Its second stage: the launch request queued has the packet's kernel and sizes, the arguments' threshold, colours and border, the image buffer, the mask pointer, and a normalization that fits the kernel |
| `LaunchMeaning.NormalizationScales` | lib/packet_processor/sw/core/src/packet_processor.c:276-284 | The normalization of a fixed Gauss filter scales down by the sum of its coefficients, that of a custom filter is the one in its arguments, and any other kernel has 0 |
| `LaunchMeaning.LaunchIsRight` | lib/packet_processor/sw/core/src/packet_processor.c:266-300 | Every launch request made for a packet is the configuration that the packet and its arguments ask for |
| `LaunchMeaning.LengthsAreRight` | lib/packet_processor/sw/include/hsa_fpga.h:58-64 | An argument block has 20 bytes, and for a custom filter four of normalization and four for each of the 9 or 25 coefficients; a pixel has two bytes of gray, three of colour, or one |
| `LaunchMeaning.DispatchFetches` | lib/packet_processor/sw/core/src/packet_processor.c:75-103 | A dispatch asks for exactly this block at the packet's argument address, into the buffer allocated for it, and keeps buffer, PASID and number |
| `PacketProcessor.Processor.FinishTransfer` | lib/packet_processor/sw/core/src/packet_processor.c:301-320 | Its third stage: a decrement request, or the end of a packet without signal |
| `PacketProcessor.Processor.ReleaseSlot` | lib/packet_processor/sw/core/src/packet_processor.c:315-318 | Slot pushed, queue entry invalidated, READ_INDEX advanced |
| `PacketProcessor.Processor.InterruptKernel` | lib/packet_processor/sw/core/src/packet_processor.c:327-348 | The core handler: result transfer queued, core idle |
| `PacketProcessor.Processor.InterruptCompletion` | lib/packet_processor/sw/core/src/packet_processor.c:350-359 | The completion handler: the slot released, the engine idle |
| `PacketProcessor.Processor.Perform` | lib/packet_processor/sw/core/src/packet_processor.c:43-359 | Any sequence of these calls and of producer writes that is within bounds leaves the arrays, rings and registers as the run of the machine, which Refinement.EveryRunFromStart takes to the state machine |
| `Refinement.PollAgrees` | lib/packet_processor/sw/core/src/packet_processor.c:56-88 | A pass over the queue head is the matching step of the state machine, a packet met a second time included; a barrier packet here has no completion signal |
| `Refinement.LookAgrees` | lib/packet_processor/sw/core/src/packet_processor.c:66-172 | So is a look at READ_INDEX in the barrier wait, with the type read before |
| `Refinement.SignalledBarrierAgrees` | lib/packet_processor/sw/core/src/packet_processor.c:121-128 | On a barrier packet with a completion signal the pass does what SlotSafety.SignalledBarrierBreaksSlots is about |
| `Refinement.BarrierComparison` | lib/packet_processor/sw/core/src/packet_processor.c:66-66 | Comparing the two 64-bit counters decides the barrier wait while fewer than 2^64 packets lie between them |
| `Refinement.DispatchAgrees` | lib/packet_processor/sw/core/src/packet_processor.c:89-105 | The dispatch critical section finds a free slot and room in the ring, and is the dispatch step |
| `Refinement.TransferAgrees` | lib/packet_processor/sw/core/src/packet_processor.c:244-325 | The transfer handler stays in bounds, finds room in the rings, and is the transfer step |
| `Refinement.EveryActionRefines` | lib/packet_processor/sw/core/src/packet_processor.c:43-359 | Every action on arrays, counters, rings and registers is in bounds, finds room in the rings, and is a step of the state machine |
| `Refinement.EveryRunRefines` | lib/packet_processor/sw/core/src/packet_processor.c:43-359 | Any interleaving of main loop, handlers and producers stays in bounds and is a run of the state machine: its states, its events, and a last state that the arrays, counters and rings stand for |
| `Refinement.EveryRunFromStart` | lib/packet_processor/sw/core/src/packet_processor.c:43-359 | So from power-up: what is proved about all runs of the state machine holds of the arrays |
| `Memory.CopyFurther` | lib/fpga_cmd_processor/sw/core/src/fpga_cmd_processor.c:113-125 | Copying piece by piece is copying at once when the destination does not start inside the source |
| `Memory.NumberByte` | lib/packet_processor/sw/core/src/packet_processor.c:248-250 | Byte k of a stored number is its k-th least significant one: words in memory are little-endian |
| `Dma.CommandProcessor.InterruptTransfer` | lib/fpga_cmd_processor/sw/core/src/fpga_cmd_processor.c:101-127 | Doubleword steps, then byte steps, in the direction asked for, overlapping ranges included, for every length at which the loop ends |
| `Dma.TransferredIff` | lib/fpga_cmd_processor/sw/core/src/fpga_cmd_processor.c:101-127 | Such a transfer copies exactly the payload, in every memory, if and only if the destination does not start inside the source or the payload is one doubleword |
| `Dma.CopyEndsIff` | lib/fpga_cmd_processor/sw/core/src/fpga_cmd_processor.c:114-114 | The wrapping 32-bit counter of the loop reaches the number of doublewords if and only if the length is below 2^35 bytes |
| `Dma.CommandProcessor.CopyWords` | lib/fpga_cmd_processor/sw/core/src/fpga_cmd_processor.c:114-118 | The doubleword loop, with its wrapping counter, ends and copies piece after piece, each read after the pieces before it were written |
| `Dma.CommandProcessor.CopyRest` | lib/fpga_cmd_processor/sw/core/src/fpga_cmd_processor.c:121-125 | So does the byte loop with the rest |
| `Dma.ForwardByte` | lib/fpga_cmd_processor/sw/core/src/fpga_cmd_processor.c:114-125 | Each byte stored is the one at its source after the pieces before its own |
| `Dma.CommandProcessor.InterruptCompletion` | lib/fpga_cmd_processor/sw/core/src/fpga_cmd_processor.c:129-132 | The 64-bit word at the signal is one less modulo 2^64 than before, no other byte changes |
| `Dma.DecrementedMeaning` | lib/fpga_cmd_processor/sw/core/src/fpga_cmd_processor.c:129-132 | The same of the memory function that the system step uses |
| `EndToEnd.ImageSizeExact` | lib/packet_processor/sw/core/src/packet_processor.c:251-252 | The transferred size is the size of the image, and short enough for the copy loop to end, if and only if the image is smaller than 2^31 bytes |
| `EndToEnd.ArgsAreSaid` | lib/packet_processor/sw/core/src/packet_processor.c:248-273 | What the handlers read from an argument block: source in bytes 0-7, destination in 8-15, colour model 16, border 17, threshold 18-19, custom normalization 20-21 |
| `EndToEnd.TaskIsSaid` | lib/packet_processor/sw/core/src/packet_processor.c:266-300 | The task of a core in terms of the same bytes, custom mask from byte 20 on |
| `DataSteps.ReadyKeptInside` | lib/packet_processor/sw/core/src/packet_processor.c:43-359 | Every event of the processor keeps all packets' data in place: requests name the right addresses and sizes, buffers hold what was loaded or computed |
| `DataFlow.ReadyKept` | lib/fpga_cmd_processor/sw/core/src/fpga_cmd_processor.c:101-132 | So does every copy, computation, decrement and host write |
| `DataFlow.TransferAllowed` | lib/fpga_cmd_processor/sw/core/src/fpga_cmd_processor.c:101-127 | Every transfer asked for has disjoint source and destination and a length for which the copy loop ends, so that the command processor's loops do the copy that the system step makes |
| `DataFlow.RecordIsLoaded` | lib/packet_processor/sw/core/src/packet_processor.c:93-103 | What is recorded as loaded is what the DMA read: the argument block from the packet's address, the image from the address in bytes 0-7 of that block |
| `DataFlow.RecordStays` | lib/packet_processor/sw/core/src/packet_processor.c:244-348 | No other step changes what was loaded for a packet in flight |
| `DataFlow.RecordSays` | lib/packet_processor/sw/core/src/packet_processor.c:246-300 | What has been loaded for a packet in flight is a block of the right length, read byte for byte as said |
| `DataFlow.EndsWithResult` | lib/packet_processor/sw/core/src/packet_processor.c:301-359 | When a packet ends, the destination in host memory that bytes 8-15 of its argument block name holds the kernel applied to the loaded image, for the task that this block describes; its signal, if any, has been decremented exactly once |
| `DataFlow.EveryPacketDelivers` | lib/packet_processor/sw/core/src/packet_processor.c:43-359 | The same for every packet in every run of processor, DMA, cores and host that takes no packet twice, for disjoint buffers and images below 2^31 bytes |
| `DataOrigin.EveryPacketDeliversItsImage` | lib/packet_processor/sw/core/src/packet_processor.c:43-359 | The same in terms of memory alone: with m the memory at an earlier copy of the packet's argument block from address a, the image was copied from the 64-bit address at a, the result is at the one at a + 8, colour model, border, threshold, normalization and mask are what m holds from a + 16 on, and exactly one step has decremented the word at the packet's signal by one |
| `Division.SignDecides` | lib/packet_processor/sw/core/system/system.c:83-98 | Normalisation keeps r below twice the divisor and d - r - 1 inside the signed range, so its sign bit decides r >= d |
| `Division.Iteration` | lib/packet_processor/sw/core/system/system.c:83-98 | One pass brings down a bit of the dividend and adds a bit to the quotient, and keeps the normalisation |
| `Division.UDivSI3` | lib/packet_processor/sw/core/system/system.c:60-101 | The exact quotient of any two 32-bit words, 0 for divisor 0 |
| `Division.UModSI3` | lib/packet_processor/sw/core/system/system.c:105-135 | The exact remainder by a different algorithm, 0 for divisor 0 |
| `Bits.QuotRem` | lib/packet_processor/sw/core/system/system.c:60-135 | n = quotient * d + remainder with remainder below d, so the two routines agree |
| `Bits.QuotIsDivision` | lib/packet_processor/sw/core/system/system.c:60-135 | Quotient and remainder by repeated subtraction are those of integer division |
| `Bits.SignedMeaning` | lib/packet_processor/sw/core/system/system.c:49-58 | The signed reading of a word is the one number in range that differs from it by nothing or by 2^w |
| `Division.DivSI3` | lib/packet_processor/sw/core/system/system.c:49-58 | The quotient truncated toward zero in 32-bit two's complement, for every nonzero divisor |
| `Division.SignedQuotient` | lib/packet_processor/sw/core/system/system.c:49-58 | Read as a signed number it is the truncated quotient, except that the most negative value divided by -1 gives itself |
| `WideDivision.MaskedQMeaning` | lib/packet_processor/sw/core/system/system.c:293-299 | The masked quotient start value is the dividend shifted left, whatever shifts by 32 or more bits yield |
| `WideDivision.MaskedRMeaning` | lib/packet_processor/sw/core/system/system.c:300-306 | The masked remainder start value is the dividend shifted right, whatever such shifts yield |
| `WideDivision.HighWordsOnly` | lib/packet_processor/sw/core/system/system.c:194-207 | Dividend and divisor without low word |
| `WideDivision.HighWordGeneral` | lib/packet_processor/sw/core/system/system.c:222-242 | A divisor without low word that is no power of two |
| `WideDivision.SmallDividend` | lib/packet_processor/sw/core/system/system.c:160-179 | The cases of a dividend without high word |
| `WideDivision.LowWordsOnly` | lib/packet_processor/sw/core/system/system.c:160-171 | Dividend and divisor without high word |
| `WideDivision.HighWordDivisor` | lib/packet_processor/sw/core/system/system.c:194-242 | The cases of a divisor without low word |
| `WideDivision.OneWordDivisor` | lib/packet_processor/sw/core/system/system.c:245-307 | The cases of a divisor without high word |
| `WideDivision.TwoWordDivisor` | lib/packet_processor/sw/core/system/system.c:308-344 | The case of a divisor with high word |
| `WideDivision.MainLoop` | lib/packet_processor/sw/core/system/system.c:346-374 | The shared loop produces the exact quotient and remainder |
| `WideDivision.DivideWords` | lib/packet_processor/sw/core/system/system.c:148-375 | All branches together: exact quotient and remainder of any operands, (0, 0) for divisor 0 |
| `WideDivision.UDivModDI4` | lib/packet_processor/sw/core/system/system.c:148-375 | Exact quotient and remainder for every 64-bit dividend and nonzero divisor, (0, 0) for divisor 0, with and without a remainder pointer, whatever out-of-range shifts yield |
| `WideDivision.DivDI3` | lib/packet_processor/sw/core/system/system.c:137-146 | The quotient truncated toward zero in 64-bit two's complement, for every nonzero divisor |
| `Multiplication.MulSI3` | lib/packet_processor/sw/core/system/system.c:37-47 | The shift-add loop gives the product modulo 2^w for any register width w |
| `Multiplication.MulDSI3` | lib/packet_processor/sw/core/system/system.c:389-407 | The full 64-bit product of any two 32-bit words, no carry lost |
| `Multiplication.MulDI3` | lib/packet_processor/sw/core/system/system.c:412-422 | The product modulo 2^64 |
| `Multiplication.SignedProduct` | lib/packet_processor/sw/core/system/system.c:412-422 | Read as signed numbers this is the product modulo 2^64 of every signed pair |
| `MipsUnits.RegisterOpCorrect` | lib/ext/mips32/execute.vhd:314-392 | Decoder and arithmetic unit compute what the manual says for every register instruction modelled |
| `MipsUnits.ImmediateOpCorrect` | lib/ext/mips32/execute.vhd:314-392 | The same for every immediate instruction modelled, the decode unit's extension of the immediate included |
| `MipsUnits.ExtensionMeaning` | lib/ext/mips32/instruction_decode.vhd:341-342 | The decode unit's sign extension of 16 bits keeps the signed value of the immediate |
| `MipsUnits.AddressAdds` | lib/ext/mips32/execute.vhd:255-309 | The arithmetic unit's sum for a load or store is base plus signed offset modulo 2^32 |
| `Bits.AndBit` | lib/ext/mips32/execute.vhd:314-392 | Each bit of the conjunction, as the arithmetic unit and the division's masks use it |
| `Bits.OrBit` | lib/ext/mips32/execute.vhd:314-392 | Each bit of the disjunction |
| `Bits.XorBit` | lib/ext/mips32/execute.vhd:314-392 | Each bit of the exclusive disjunction |
| `Bits.BitsDecide` | lib/ext/mips32/execute.vhd:314-392 | The bits decide the word, so these are the operators |
| `MipsAssembly.RegisterFields` | lib/ext/mips32/instruction_decode.vhd:291-347 | The fields of a word put together in the register format are those it was put together from |
| `MipsAssembly.ImmediateFields` | lib/ext/mips32/instruction_decode.vhd:338-347 | The same for the immediate format |
| `MipsAssembly.AssembledMeaning` | lib/ext/mips32/decoder_unit.vhd:148-505 | Every instruction as an assembler writes it, encoded as in the manual, is a modelled one; the sequential machine does what it means, defined from mnemonic and operands, and it must be aligned exactly when its address is no multiple of its width |
| `MipsAssembly.AssembledCost` | lib/ext/mips32/hazard_detection_unit.vhd:89-114 | The instructions that MipsExecution.IssueRate counts as costing a cycle more are the loads and the stores of a byte or halfword |
| `MipsUnits.ShrSignedMeaning` | lib/ext/mips32/execute.vhd:328-336 | The arithmetic shift divides the two's complement value by a power of two, rounding down |
| `MipsRefinement.DecodedWrites` | lib/ext/mips32/decoder_unit.vhd:148-505 | Which control bits the decoder sets for each class of modelled instruction |
| `SubwordMemory.LoadSeesPiece` | lib/ext/mips32/write_back.vhd:75-133 | An aligned load of 1, 2 or 4 bytes from byte memory is the selected piece of its word |
| `SubwordMemory.StoreMerges` | lib/ext/mips32/memory_access.vhd:220-293 | An aligned store of 1, 2 or 4 bytes into byte memory is the merge into its word, byte for byte |
| `SubwordMemory.MergedByte` | lib/ext/mips32/memory_access.vhd:252-293 | Each byte of a merged word is the stored one or the old one |
| `MipsRefinement.ExtractCorrect` | lib/ext/mips32/write_back.vhd:75-136 | Selection and sign extension in write back give the loaded value the manual asks for |
| `MipsRefinement.ForwardMeaning` | lib/ext/mips32/execute.vhd:277-309 | Forwarding delivers the sequential machine's register value, EX/MEM before MEM/WB before what was read, unless a load in memory access sets the register |
| `MipsRefinement.ReadMeaning` | lib/ext/mips32/forwarding_unit.vhd:77-118 | The decode stage's read, write-through and forwarding deliver the sequential value, except behind a load |
| `MipsRefinement.OperandArrives` | lib/ext/mips32/instruction_decode.vhd:345-422 | An operand read in decode is right when it is used in execute, a load's address forwarded in between corrected by the forwarding from write back |
| `MipsRefinement.NoStallMeans` | lib/ext/mips32/hazard_detection_unit.vhd:70-116 | Where the hazard unit does not stall, execute holds no load of a register that decode reads |
| `MipsRefinement.ExecuteHandsOn` | lib/ext/mips32/execute.vhd:255-309 | Execute hands on the right result, aligned address, byte offset and store data |
| `MipsRefinement.MemoryHandsOn` | lib/ext/mips32/memory_access.vhd:205-306 | Memory access hands on instruction and word so that write back produces the right value |
| `MipsRefinement.FetchStep` | lib/ext/mips32/memory_access.vhd:220-231 | A byte or halfword store first reads its word; its effect is then pending in full |
| `MipsRefinement.MemoryKept` | lib/ext/mips32/memory_access.vhd:157-306 | At every cycle the word memory, an unfinished store applied, is the byte memory of the sequential machine |
| `MipsRefinement.BusyMeans` | lib/ext/mips32/cpu_top.vhd:1111-1122 | The pipeline freezes only behind an unfinished byte or halfword store, and nothing is written back meanwhile |
| `MipsRefinement.FollowsKept` | lib/ext/mips32/cpu_top.vhd:1108-1123 | Every cycle, stalled, frozen or not, keeps all stages in step with the sequential execution |
| `MipsExecution.PipelineIsSequential` | lib/ext/mips32/cpu_top.vhd:700-1151 | For every program of the modelled instructions with aligned accesses, registers and memory end up exactly as after executing the instructions one at a time |
| `MipsAssembly.PipelineRunsPrograms` | lib/ext/mips32/cpu_top.vhd:700-1151 | For every program written in mnemonics whose accesses are aligned, after twice as many cycles as instructions and three, the registers and every byte of the word memory are what the instructions mean, one after the other |
| `MipsExecution.StallsAgainIff` | lib/ext/mips32/hazard_detection_unit.vhd:89-114 | In any state a load-use stall lasts another cycle if and only if memory access is busy: the bubble clears the write flag it tests, but a frozen pipeline lets no bubble in |
| `MipsExecution.StallsTwiceAtMost` | lib/ext/mips32/cpu_top.vhd:1111-1122 | In any state a load-use stall lasts at most two cycles |
| `MipsStallExample.StallsTwice` | lib/ext/mips32/cpu_top.vhd:1111-1122 | Two do occur: a load right behind a byte store, then a load and its use, from reset |
| `MipsExecution.StallsIff` | lib/ext/mips32/hazard_detection_unit.vhd:70-116 | At every point of a program decode stalls if and only if execute holds a load whose destination it reads |
| `MipsExecution.BusyIff` | lib/ext/mips32/memory_access.vhd:205-306 | And memory access is busy if and only if an access meets an unfinished byte or halfword store |
| `MipsExecution.BusyOnce` | lib/ext/mips32/memory_access.vhd:205-306 | Memory access never freezes the pipeline two cycles running |
| `MipsExecution.IssueRate` | lib/ext/mips32/hazard_detection_unit.vhd:89-114 | n cycles let through at least n instructions less one for each load and each byte or halfword store among them, so n instructions need at most 2n cycles |
| `MipsCpu.StageIdEx.Clock` | lib/ext/mips32/stage_id_ex.vhd:143-193 | The register holds its operands on op_nop and its second operand when an immediate replaces it |
| `MipsCpu.StageExMem.Clock` | lib/ext/mips32/stage_ex_mem.vhd:120-159 | The register holds address and data when no access takes place |
| `MipsPipeline.OperandsHeld` | lib/ext/mips32/stage_id_ex.vhd:143-193 | What the two registers hold and what they take over, field by field |
| `MipsCpu.StageMemWb.Clock` | lib/ext/mips32/stage_mem_wb.vhd:116-142 | The register in front of write back |
| `MipsCpu.MemoryAccess.Clock` | lib/ext/mips32/memory_access.vhd:157-203 | State, init flag and saved store |
| `MipsPipeline.StoreSaved` | lib/ext/mips32/memory_access.vhd:157-203 | A byte or halfword store is saved in the cycle that fetches its word, and in no other; the machine is back to normal after one |
| `MipsCpu.RegisterFile.Clock` | lib/ext/mips32/instruction_decode.vhd:413-422 | Register 0 is never written, all others keep their value unless selected |
| `MipsCpu.Cpu.Clock` | lib/ext/mips32/cpu_top.vhd:700-1123 | One rising edge of all clocked parts is the cycle function of the refinement |
| `MipsCpu.Cpu.RunProgram` | lib/ext/mips32/cpu_top.vhd:700-1151 | Clocked through a program, the registers and memory of the class are those of the sequential machine |
| `InterruptArbiter.PlusOneAdds` | lib/common/interrupts/interrupt_arbiter.vhd:57-57 | The ripple increment is addition of one modulo 2^N |
| `InterruptArbiter.OneHotIsLeast` | lib/common/interrupts/interrupt_arbiter.vhd:57-57 | INTS AND (NOT INTS + 1) has exactly the bit of the least pending lane |
| `InterruptArbiter.Arbiter.Encode` | lib/common/interrupts/interrupt_arbiter.vhd:58-65 | The scan yields the least pending lane and whether there is one |
| `InterruptArbiter.Arbiter.Clock` | lib/common/interrupts/interrupt_arbiter.vhd:44-79 | A clock edge with reset, enabled or not, on any number of lanes |
| `InterruptArbiter.LeavesOnlyReported` | lib/common/interrupts/interrupt_arbiter.vhd:57-68 | Without reset a lane leaves the pending set if and only if it is reported, and the reported lane is the least pending one |
| `InterruptArbiter.EdgesConserved` | lib/common/interrupts/interrupt_arbiter.vhd:66-76 | Per lane: rising edges of the inputs, high in a cycle and low in the one before, are reports plus what is still pending plus edges that met a pending lane |
| `InterruptArbiter.NoSpuriousReports` | lib/common/interrupts/interrupt_arbiter.vhd:44-79 | With any resets, reports plus pending never exceed the rising edges of the inputs, a reset counting as low |
| `InterruptArbiter.FromReset` | lib/common/interrupts/interrupt_arbiter.vhd:44-79 | Both laws from reset on, in terms of inputs and reports alone |
| `InterruptArbiter.Remembers` | lib/common/interrupts/interrupt_arbiter.vhd:69-73 | The arbiter remembers the lanes of the cycle before |
| `InterruptArbiter.ResponseIsDelayed` | lib/common/interrupts/interrupt_arbiter.vhd:70-76 | In every run the response is the lanes of the cycle before, low behind and during a reset |
| `InterruptArbiter.ReportIsLeast` | lib/common/interrupts/interrupt_arbiter.vhd:57-66 | There is a report if and only if the cycle is enabled and a lane was pending; its number is the least such lane, and 0 without one |
| `InterruptArbiter.ReportedInTime` | lib/common/interrupts/interrupt_arbiter.vhd:44-79 | A pending lane is reported within one more enabled cycle than there are lower lanes pending, at most i + 1, if no lower lane rises |
| `InterruptArbiter.EdgeLostWhenReported` | lib/common/interrupts/interrupt_arbiter.vhd:68-68 | An edge in an enabled cycle leaves its lane not pending if and only if the lane is the one being reported |
| `DualPortRam.NarrowWrites` | lib/common/mem_router/dualclock_bram.vhd:159-165 | On the flat byte array an access at the narrower port writes one aligned word in place and nothing else |
| `DualPortRam.WideWrites` | lib/common/mem_router/dualclock_bram.vhd:150-157 | An access at the wider port writes one aligned line in place and nothing else |
| `DualPortRam.NarrowReads` | lib/common/mem_router/dualclock_bram.vhd:165-166 | An enabled access at the narrower port shows the aligned word then in the flat array, through the delayed bank selection |
| `DualPortRam.WideReads` | lib/common/mem_router/dualclock_bram.vhd:150-157 | An enabled access at the wider port shows the aligned line then in the flat array |
| `DualPortRam.OutputsHeld` | lib/common/mem_router/dualclock_bram.vhd:150-166 | Without enable neither port changes the memory; the wide output is kept, the narrow one shows the last output of the bank that the delayed address selects |
| `DualPortRam.PortsApart` | lib/common/mem_router/dualclock_bram.vhd:150-166 | An access at one port leaves what the other shows |
| `DualPortRam.RamIsFlat` | lib/common/mem_router/dualclock_bram.vhd:72-209 | For any power-of-two widths, size and interleaving of accesses, all enabled accesses show what a flat little-endian byte array shows |
| `DualclockBram.BramTdp.ClockWide` | lib/common/mem_router/bram_tdp.vhd:103-113 | One port of a bank, write first |
| `DualclockBram.BramTdp.ClockNarrow` | lib/common/mem_router/bram_tdp.vhd:116-126 | The other port of a bank |
| `DualclockBram.Converter.ClockWide` | lib/common/mem_router/dualclock_bram.vhd:147-157 | An edge at the wider port reaches every bank with its slice of the data |
| `DualclockBram.Converter.ClockNarrow` | lib/common/mem_router/dualclock_bram.vhd:105-166 | An edge at the narrower port writes at most the selected bank and delays the address |
| `DualclockBram.Converter.Perform` | lib/common/mem_router/dualclock_bram.vhd:72-209 | Any sequence of accesses to the banks shows what a flat byte array shows |

## Left out

- Barrier packets with a completion signal: the machine handles them, but the state machine has no step for them; shown is only what they break.
- The waiting loops on dependency signals of barrier packets (lines 111-120 and 140-150), which serve no queue either: a barrier packet is passed once they are over.
- Progress.SomethingEnabled: nothing is claimed during a barrier wait, for which BarrierWait.WaitEndsIff says what happens.
- The registers AQL_LEFT and WRITE_INDEX, doorbells and the interrupts sent between the processors: hardware registers whose source is not part of this model.
- `malloc` failing and the allocator itself: on-board memory is unbounded.
- Alignment exceptions on 64-bit accesses of the packet processor and the command processor.
- The filter masks that `write_mask_to_core` copies for fixed kernels: part of what a kernel computes.
- Custom filters whose kernel object has bits above the low 16: the handlers then read past the argument block.
- Refinement.PollAgrees: assumes that fewer than 2^64 packets of skipped types have gone by, since the counters wrap.
- Dma.CommandProcessor.InterruptTransfer: transfers of 2^35 bytes and more, for which the copy loop does not end.
- The packet processor's `num` field in kernel_info_t does not exist in the source: it names the packet that kp_addr stands for.
- `__umoddi3` and `__udivdi3`: they only call `__udivmoddi4`.
- Branches, delay slots, traps, `movz` and `movn`, coprocessor 0, exceptions, interrupts, standby and ASIP units of the pipeline.
- Instruction fetch: the next instruction is offered in time; busy memories and the first cycles after reset, in which the stage enables rise one after the other, are not modelled.
- The forwarding unit's registered copy of operand two, which only serves moves to coprocessor 0.
- MipsExecution.PipelineIsSequential: accesses that are not aligned are excluded.
- Initialisation of the RAM from a file, addresses beyond its size, and simultaneous access to one location.
- The width of the arbiter's index output for a single lane.
- Reserved-instruction emulation, AXI, test benches, file conversion tools and top-level wiring.
