/** The packet processor's own data structures: arrays, counters, rings and idle registers, updated in place by the
    main loop and the interrupt handlers. Machine is their contents as a value. */
module PacketProcessor {
  import opened Options
  import opened Bits
  import opened Protocol
  import opened LaunchMeaning
  import opened RingQueue

  /** core_info_t, with the configuration last written to the core. */
  datatype Core = Core(running: bool, packet: nat, config: LaunchRequest)

  /** The globals of packet_processor.c and the registers it writes. */
  datatype Machine = Machine(
    pending: seq<KernelInfo>, freeSlots: seq<Slot>, remaining: nat,
    dmaQ: seq<DmaRequest>, currentDma: nat, dmaRegisters: DmaRequest,
    launchQ: seq<LaunchRequest>, coreUsage: seq<Core>,
    decQ: seq<DecRequest>, currentCmpl: nat, cmplRegisters: DecRequest,
    aql: seq<AqlSlot>, number: U64, readIndex: U64, phase: Phase)

  /** UINT32_MAX in a packet register: the engine is idle. */
  const IDLE: nat := 0xFFFF_FFFF

  /** The accesses of a handler that works on this slot are in bounds. */
  predicate SlotOk(m: Machine, slot: nat) { slot < |m.pending| && m.pending[slot].kp < |m.aql| }

  function KernelOf(m: Machine, slot: nat): KernelPacket
    requires SlotOk(m, slot)
  {
    m.aql[m.pending[slot].kp].packet
  }

  function HeadIndex(m: Machine): nat
    requires |m.aql| > 0
  {
    m.number % |m.aql|
  }

  /** process_aql_packets from line 69 on for a packet of this type, without the critical section of a kernel dispatch.
      For a barrier packet with a completion signal the queue index goes where a slot number belongs. */
  function Continue(m: Machine, kind: Kind, block: Address, pasid: U32): Machine
    requires |m.aql| > 0
  {
    var index := HeadIndex(m);
    var entry, p := m.aql[index], m.(phase := Polling);
    match kind
    case Invalid => p
    case KernelDispatch => m.(phase := Admitted(block, pasid))
    case Barrier =>
      if entry.packet.signal != 0 then
        p.(decQ := m.decQ + [DecRequest(index, entry.packet.signal, pasid)], number := Increment(m.number))
      else
        p.(aql := m.aql[index := Cleared(entry)], readIndex := Increment(m.readIndex), number := Increment(m.number))
    case Other => p.(number := Increment(m.number))
  }

  /** process_aql_packets as far as that, or into the barrier wait with the type it has read. */
  function Poll(m: Machine, block: Address, pasid: U32): Machine
    requires |m.aql| > 0
  {
    var entry := m.aql[HeadIndex(m)];
    if m.remaining == 0 then m
    else if entry.barrierBit && m.number != m.readIndex then m.(phase := Waiting(entry.kind))
    else Continue(m, entry.kind, block, pasid)
  }

  /** One look at READ_INDEX in the barrier wait, and what follows its last. */
  function WaitStep(m: Machine, block: Address, pasid: U32): Machine
    requires |m.aql| > 0
  {
    if m.phase.Waiting? && m.number == m.readIndex then Continue(m, m.phase.kind, block, pasid) else m
  }

  /** The critical section of lines 89 to 105, and the packet counter. */
  function DispatchStep(m: Machine): Machine
    requires |m.aql| > 0 && m.phase.Admitted? && 0 < m.remaining <= |m.freeSlots|
    requires m.freeSlots[m.remaining - 1] < |m.pending|
  {
    var slot, index := m.freeSlots[m.remaining - 1], HeadIndex(m);
    var kp := m.aql[index].packet;
    m.(remaining := m.remaining - 1,
       pending := m.pending[slot := KernelInfo(0, index, GetKernarg, m.phase.pasid, m.phase.kernarg, m.pending[slot].image)],
       dmaQ := m.dmaQ + [DmaRequest(slot, kp.kernargAddress, m.phase.kernarg, KernargSize(kp.kernelObject), LoadData, m.phase.pasid)],
       number := Increment(m.number), phase := Polling)
  }

  function DmaStep(m: Machine): Machine {
    if m.dmaQ != [] && m.currentDma == IDLE then
      m.(dmaRegisters := m.dmaQ[0], currentDma := m.dmaQ[0].slot, dmaQ := m.dmaQ[1..])
    else m
  }

  function NextCore(cores: seq<Core>): (c: nat)
    ensures c <= |cores|
    ensures forall i :: 0 <= i < c ==> cores[i].running
    ensures c < |cores| ==> !cores[c].running
  {
    if cores == [] || !cores[0].running then 0 else 1 + NextCore(cores[1..])
  }

  function LaunchStep(m: Machine): Machine {
    var c := NextCore(m.coreUsage);
    if m.launchQ != [] && c < |m.coreUsage| then
      m.(coreUsage := m.coreUsage[c := Core(true, m.launchQ[0].slot, m.launchQ[0])], launchQ := m.launchQ[1..])
    else m
  }

  function DecStep(m: Machine): Machine {
    if m.decQ != [] && m.currentCmpl == IDLE then
      m.(cmplRegisters := m.decQ[0], currentCmpl := m.decQ[0].slot, decQ := m.decQ[1..])
    else m
  }

  /** Slot pushed, AQL entry invalidated, READ_INDEX advanced. */
  function Release(m: Machine, slot: nat): Machine
    requires SlotOk(m, slot) && m.remaining < |m.freeSlots|
  {
    var kp := m.pending[slot].kp;
    m.(freeSlots := m.freeSlots[m.remaining := slot], remaining := m.remaining + 1,
       aql := m.aql[kp := Cleared(m.aql[kp])], readIndex := Increment(m.readIndex))
  }

  /** interrupt_transfer: args are the kernel arguments in on-board memory, block is the new image buffer. */
  function TransferStep(m: Machine, args: KernArgs, block: Address): Machine
    requires SlotOk(m, m.currentDma) && m.remaining < |m.freeSlots|
  {
    var slot := m.currentDma;
    var i, kp := m.pending[slot], KernelOf(m, slot);
    match i.status
    case GetKernarg =>
      m.(pending := m.pending[slot := i.(image := block, status := GetImage)],
         dmaQ := m.dmaQ + [DmaRequest(slot, args.src, block, ImageSize(kp, args.colorModel), LoadData, i.pasid)],
         currentDma := IDLE)
    case GetImage =>
      m.(pending := m.pending[slot := i.(status := Processing)],
         launchQ := m.launchQ + [LaunchFor(slot, kp, args, i.kernarg, i.image)], currentDma := IDLE)
    case StoreImage =>
      if kp.signal != 0 then
        m.(pending := m.pending[slot := i.(status := Completion)],
           decQ := m.decQ + [DecRequest(slot, kp.signal, i.pasid)], currentDma := IDLE)
      else Release(m, slot).(currentDma := IDLE)
    case _ => m.(currentDma := IDLE)
  }

  /** interrupt_kernel from core c */
  function KernelStep(m: Machine, c: nat, args: KernArgs): Machine
    requires c < |m.coreUsage| && SlotOk(m, m.coreUsage[c].packet)
  {
    var slot := m.coreUsage[c].packet;
    var i := m.pending[slot];
    m.(dmaQ := m.dmaQ + [DmaRequest(slot, args.dst, i.image, ImageSize(KernelOf(m, slot), args.colorModel), StoreData, i.pasid)],
       pending := m.pending[slot := i.(status := StoreImage)],
       coreUsage := m.coreUsage[c := Core(false, IDLE, m.coreUsage[c].config)])
  }

  /** interrupt_completion */
  function CompletionStep(m: Machine): Machine
    requires SlotOk(m, m.currentCmpl) && m.remaining < |m.freeSlots|
  {
    Release(m, m.currentCmpl).(currentCmpl := IDLE)
  }

  function InitialMachine(window: nat, cores: nat, queue: nat): Machine {
    Machine(seq(window, _ => KernelInfo(0, 0, GetKernarg, 0, 0, 0)), seq(window, i => i), window,
            [], IDLE, DmaRequest(0, 0, 0, 0, LoadData, 0),
            [], seq(cores, _ => Core(false, 0, LaunchRequest(0, 0, 0, 0, 0, 0, 0, 0, 0, 0, None))),
            [], IDLE, DecRequest(0, 0, 0),
            seq(queue, _ => AqlSlot(Invalid, false, KernelPacket(0, 0, 0, 0, 0))), 0, 0, Polling)
  }

  /** The accesses of InterruptTransfer and InterruptCompletion are in bounds and the rings have room. */
  ghost predicate HandlerSafe(m: Machine, slot: nat) {
    && SlotOk(m, slot) && m.remaining < |m.freeSlots|
    && |m.dmaQ| < |m.pending| && |m.launchQ| < |m.pending| && |m.decQ| < |m.pending|
  }

  /** What the processor does on its own accord or on an interrupt, and a producer's write to the queue. */
  datatype Action =
    | PollQueue(block: Address, pasid: U32)
    | LookAgain(block: Address, pasid: U32)
    | DispatchPacket
    | ServeDma
    | ServeLaunch
    | ServeDec
    | TransferInterrupt(args: KernArgs, block: Address)
    | KernelInterrupt(core: nat, args: KernArgs)
    | CompletionInterrupt
    | ProducerWrite(index: nat, entry: AqlSlot)

  /** In bounds, and room in the rings that are written. */
  ghost predicate ActionSafe(m: Machine, a: Action) {
    match a
    case PollQueue(_, _) => |m.aql| > 0 && (m.remaining > 0 ==> |m.decQ| < |m.pending|)
    case LookAgain(_, _) => |m.aql| > 0 && (m.phase.Waiting? ==> |m.decQ| < |m.pending|)
    case DispatchPacket =>
      && |m.aql| > 0 && m.phase.Admitted? && 0 < m.remaining <= |m.freeSlots|
      && m.freeSlots[m.remaining - 1] < |m.pending| && |m.dmaQ| < |m.pending|
    case TransferInterrupt(_, _) => HandlerSafe(m, m.currentDma)
    case KernelInterrupt(c, _) => c < |m.coreUsage| && HandlerSafe(m, m.coreUsage[c].packet)
    case CompletionInterrupt => HandlerSafe(m, m.currentCmpl)
    case ProducerWrite(i, _) => i < |m.aql|
    case _ => true
  }

  ghost function Act(m: Machine, a: Action): Machine
    requires ActionSafe(m, a)
  {
    match a
    case PollQueue(block, pasid) => Poll(m, block, pasid)
    case LookAgain(block, pasid) => WaitStep(m, block, pasid)
    case DispatchPacket => DispatchStep(m)
    case ServeDma => DmaStep(m)
    case ServeLaunch => LaunchStep(m)
    case ServeDec => DecStep(m)
    case TransferInterrupt(args, block) => TransferStep(m, args, block)
    case KernelInterrupt(c, args) => KernelStep(m, c, args)
    case CompletionInterrupt => CompletionStep(m)
    case ProducerWrite(i, entry) => m.(aql := m.aql[i := entry])
  }

  /** No action of the sequence leaves an array's bounds or overfills a ring. */
  ghost predicate AllSafe(m: Machine, actions: seq<Action>)
    decreases |actions|
  {
    actions == [] || (ActionSafe(m, actions[0]) && AllSafe(Act(m, actions[0]), actions[1..]))
  }

  ghost function RunMachine(m: Machine, actions: seq<Action>): Machine
    requires AllSafe(m, actions)
    decreases |actions|
  {
    if actions == [] then m else RunMachine(Act(m, actions[0]), actions[1..])
  }

  class Processor {
    const windowBits: nat
    const queueBits: nat
    const pending: array<KernelInfo>
    const freeSlots: array<Slot>
    const coreUsage: array<Core>
    const aql: array<AqlSlot>
    const dmaRing: Ring<DmaRequest>
    const launchRing: Ring<LaunchRequest>
    const decRing: Ring<DecRequest>
    var remaining: nat
    var currentDma: nat
    var dmaRegisters: DmaRequest
    var currentCmpl: nat
    var cmplRegisters: DecRequest
    var number: U64
    var readIndex: U64
    var phase: Phase

    ghost predicate Valid()
      reads dmaRing, launchRing, decRing
    {
      && windowBits < 64 && queueBits < 64
      && pending.Length == freeSlots.Length == Pow2(windowBits) && aql.Length == Pow2(queueBits)
      && dmaRing.Valid() && launchRing.Valid() && decRing.Valid()
      && dmaRing.bits == launchRing.bits == decRing.bits == windowBits
    }

    ghost function View(): Machine
      reads this, pending, freeSlots, coreUsage, aql
      reads dmaRing, dmaRing.data, launchRing, launchRing.data, decRing, decRing.data
      requires Valid()
    {
      Machine(pending[..], freeSlots[..], remaining,
              dmaRing.Contents(), currentDma, dmaRegisters,
              launchRing.Contents(), coreUsage[..],
              decRing.Contents(), currentCmpl, cmplRegisters,
              aql[..], number, readIndex, phase)
    }

    /** The initial values of the globals and the first lines of main. */
    constructor (window: nat, cores: nat, queue: nat)
      requires window < 16 && queue < 64
      ensures Valid() && View() == InitialMachine(Pow2(window), cores, Pow2(queue))
      ensures fresh(pending) && fresh(freeSlots) && fresh(coreUsage) && fresh(aql)
      ensures fresh(dmaRing) && fresh(launchRing) && fresh(decRing)
      ensures fresh(dmaRing.data) && fresh(launchRing.data) && fresh(decRing.data)
    {
      var packets := NoPackets(Pow2(window));
      var idle := IdleCores(cores);
      var entries := EmptyQueue(Pow2(queue));
      windowBits, queueBits := window, queue;
      pending, coreUsage, aql := packets, idle, entries;
      freeSlots := new Slot[Pow2(window)];
      dmaRing := new Ring<DmaRequest>(window);
      launchRing := new Ring<LaunchRequest>(window);
      decRing := new Ring<DecRequest>(window);
      remaining, currentDma, currentCmpl := Pow2(window), IDLE, IDLE;
      dmaRegisters := DmaRequest(0, 0, 0, 0, LoadData, 0);
      cmplRegisters := DecRequest(0, 0, 0);
      number, readIndex, phase := 0, 0, Polling;
      new;
      WindowCounts(window);
      FillFreeSlots(freeSlots);
    }

    /** The packet counter masked to the queue length. */
    method Head() returns (index: nat)
      requires Valid()
      ensures index == HeadIndex(View())
    {
      index := Cell(number, queueBits);
      MaskOfCounter(number, queueBits);
    }

    method ProcessAqlPacket(block: Address, pasid: U32)
      requires Valid() && (remaining > 0 ==> |decRing.Contents()| < Pow2(windowBits))
      modifies this`number, this`readIndex, this`phase, aql, decRing`writeIndex, decRing.data
      ensures Valid() && View() == Poll(old(View()), block, pasid)
    {
      if remaining > 0 {
        var index := Head();
        var entry := aql[index];
        if entry.barrierBit && number != readIndex {
          phase := Waiting(entry.kind);
        } else {
          ProcessType(entry.kind, block, pasid);
        }
      }
    }

    /** The branches for the packet types; the entry is read again for all but its type. */
    method ProcessType(kind: Kind, block: Address, pasid: U32)
      requires Valid() && |decRing.Contents()| < Pow2(windowBits)
      modifies this`number, this`readIndex, this`phase, aql, decRing`writeIndex, decRing.data
      ensures Valid() && View() == Continue(old(View()), kind, block, pasid)
    {
      phase := Polling;
      match kind
      case Invalid =>
      case KernelDispatch => phase := Admitted(block, pasid);
      case Barrier =>
        var index := Head();
        PassBarrier(index, pasid);
      case Other => number := Increment(number);
    }

    /** The end of the branches for barrier packets, their dependency signals being set. */
    method PassBarrier(index: nat, pasid: U32)
      requires Valid() && index < aql.Length && |decRing.Contents()| < Pow2(windowBits)
      modifies this`number, this`readIndex, aql, decRing`writeIndex, decRing.data
      ensures Valid()
      ensures View() == if old(aql[index].packet.signal) != 0
        then old(View()).(decQ := old(View()).decQ + [DecRequest(index, old(aql[index].packet.signal), pasid)],
                          number := Increment(old(number)))
        else old(View()).(aql := old(View()).aql[index := Cleared(old(aql[index]))],
                          readIndex := Increment(old(readIndex)), number := Increment(old(number)))
    {
      var entry := aql[index];
      if entry.packet.signal != 0 {
        decRing.Push(DecRequest(index, entry.packet.signal, pasid));
      } else {
        aql[index] := Cleared(entry);
        readIndex := Increment(readIndex);
      }
      number := Increment(number);
    }

    /** One pass of the waiting loop: the main loop goes on once the counters agree, with the type read before. */
    method LookAtReadIndex(block: Address, pasid: U32)
      requires Valid() && (phase.Waiting? ==> |decRing.Contents()| < Pow2(windowBits))
      modifies this`number, this`readIndex, this`phase, aql, decRing`writeIndex, decRing.data
      ensures Valid() && View() == WaitStep(old(View()), block, pasid)
    {
      if phase.Waiting? && number == readIndex {
        ProcessType(phase.kind, block, pasid);
      }
    }

    method Dispatch()
      requires Valid() && phase.Admitted? && 0 < remaining <= freeSlots.Length
      requires freeSlots[remaining - 1] < pending.Length && |dmaRing.Contents()| < Pow2(windowBits)
      modifies this`remaining, this`number, this`phase, pending, dmaRing`writeIndex, dmaRing.data
      ensures Valid() && View() == DispatchStep(old(View()))
    {
      var index := Head();
      remaining := remaining - 1;
      var slot, kp := freeSlots[remaining], aql[index].packet;
      pending[slot] := KernelInfo(0, index, GetKernarg, phase.pasid, phase.kernarg, pending[slot].image);
      dmaRing.Push(DmaRequest(slot, kp.kernargAddress, phase.kernarg, KernargSize(kp.kernelObject), LoadData, phase.pasid));
      number := Increment(number);
      phase := Polling;
    }

    /** An idle transfer engine is given the oldest waiting request. */
    method ProcessDmaQueue()
      requires Valid()
      modifies this`currentDma, this`dmaRegisters, dmaRing`readIndex
      ensures Valid() && View() == DmaStep(old(View()))
    {
      var waiting := dmaRing.NonEmpty();
      if waiting && currentDma == IDLE {
        dmaRegisters := dmaRing.Pop();
        currentDma := dmaRegisters.slot;
      }
    }

    method ProcessLaunchQueue()
      requires Valid()
      modifies launchRing`readIndex, coreUsage
      ensures Valid() && View() == LaunchStep(old(View()))
    {
      var next := 0;
      while next < coreUsage.Length && coreUsage[next].running
        invariant next <= coreUsage.Length
        invariant forall c :: 0 <= c < next ==> coreUsage[c].running
      {
        next := next + 1;
      }
      NextCoreUnique(coreUsage[..], next);
      var waiting := launchRing.NonEmpty();
      if waiting && next < coreUsage.Length {
        var request := launchRing.Pop();
        coreUsage[next] := Core(true, request.slot, request);
      }
    }

    method ProcessDecQueue()
      requires Valid()
      modifies this`currentCmpl, this`cmplRegisters, decRing`readIndex
      ensures Valid() && View() == DecStep(old(View()))
    {
      var waiting := decRing.NonEmpty();
      if waiting && currentCmpl == IDLE {
        cmplRegisters := decRing.Pop();
        currentCmpl := cmplRegisters.slot;
      }
    }

    /** The last lines of a packet, shared by interrupt_transfer and interrupt_completion. */
    method ReleaseSlot(slot: nat)
      requires Valid() && slot < pending.Length && pending[slot].kp < aql.Length && remaining < freeSlots.Length
      modifies this`remaining, this`readIndex, freeSlots, aql
      ensures Valid() && View() == Release(old(View()), slot)
    {
      freeSlots[remaining] := slot;
      remaining := remaining + 1;
      var kp := pending[slot].kp;
      aql[kp] := Cleared(aql[kp]);
      readIndex := Increment(readIndex);
    }

    method InterruptCompletion()
      requires Valid() && SlotOk(View(), currentCmpl) && remaining < freeSlots.Length
      modifies this`remaining, this`readIndex, this`currentCmpl, freeSlots, aql
      ensures Valid() && View() == CompletionStep(old(View()))
    {
      ReleaseSlot(currentCmpl);
      currentCmpl := IDLE;
    }

    method InterruptKernel(c: nat, args: KernArgs)
      requires Valid() && c < coreUsage.Length && SlotOk(View(), coreUsage[c].packet)
      requires |dmaRing.Contents()| < Pow2(windowBits)
      modifies pending, coreUsage, dmaRing`writeIndex, dmaRing.data
      ensures Valid() && View() == KernelStep(old(View()), c, args)
    {
      var slot := coreUsage[c].packet;
      var i := pending[slot];
      var kp := aql[i.kp].packet;
      dmaRing.Push(DmaRequest(slot, args.dst, i.image, ImageSize(kp, args.colorModel), StoreData, i.pasid));
      pending[slot] := i.(status := StoreImage);
      coreUsage[c] := Core(false, IDLE, coreUsage[c].config);
    }

    /** GET_KERNARG: the kernel arguments have arrived. */
    method RequestImageLoad(args: KernArgs, block: Address)
      requires Valid() && SlotOk(View(), currentDma) && pending[currentDma].status == GetKernarg
      requires |dmaRing.Contents()| < Pow2(windowBits) && remaining < freeSlots.Length
      modifies this`currentDma, pending, dmaRing`writeIndex, dmaRing.data
      ensures Valid() && View() == TransferStep(old(View()), args, block)
    {
      var slot := currentDma;
      var i := pending[slot];
      var kp := aql[i.kp].packet;
      pending[slot] := i.(image := block, status := GetImage);
      dmaRing.Push(DmaRequest(slot, args.src, block, ImageSize(kp, args.colorModel), LoadData, i.pasid));
      currentDma := IDLE;
    }

    /** GET_IMAGE: the image has arrived. */
    method RequestCore(args: KernArgs, ghost block: Address)
      requires Valid() && SlotOk(View(), currentDma) && pending[currentDma].status == GetImage
      requires |launchRing.Contents()| < Pow2(windowBits) && remaining < freeSlots.Length
      modifies this`currentDma, pending, launchRing`writeIndex, launchRing.data
      ensures Valid() && View() == TransferStep(old(View()), args, block)
      ensures |launchRing.Contents()| > 0
      ensures var slot := old(currentDma);
        RightLaunch(launchRing.Contents()[|launchRing.Contents()| - 1], slot, KernelOf(View(), slot), args,
                    pending[slot].kernarg, pending[slot].image)
    {
      var slot := currentDma;
      var i := pending[slot];
      pending[slot] := i.(status := Processing);
      launchRing.Push(LaunchFor(slot, aql[i.kp].packet, args, i.kernarg, i.image));
      LaunchIsRight(slot, aql[i.kp].packet, args, i.kernarg, i.image);
      currentDma := IDLE;
    }

    /** STORE_IMAGE: the result has been stored. */
    method FinishTransfer(ghost args: KernArgs, ghost block: Address)
      requires Valid() && SlotOk(View(), currentDma) && pending[currentDma].status == StoreImage
      requires |decRing.Contents()| < Pow2(windowBits) && remaining < freeSlots.Length
      modifies this`currentDma, this`remaining, this`readIndex, pending, freeSlots, aql, decRing`writeIndex, decRing.data
      ensures Valid() && View() == TransferStep(old(View()), args, block)
    {
      var slot := currentDma;
      var i := pending[slot];
      var signal := aql[i.kp].packet.signal;
      if signal != 0 {
        pending[slot] := i.(status := Completion);
        decRing.Push(DecRequest(slot, signal, i.pasid));
      } else {
        ReleaseSlot(slot);
      }
      currentDma := IDLE;
    }

    method InterruptTransfer(args: KernArgs, block: Address)
      requires Valid() && SlotOk(View(), currentDma) && remaining < freeSlots.Length
      requires |dmaRing.Contents()| < Pow2(windowBits) && |launchRing.Contents()| < Pow2(windowBits)
      requires |decRing.Contents()| < Pow2(windowBits)
      modifies this, pending, freeSlots, aql, dmaRing`writeIndex, dmaRing.data
      modifies launchRing`writeIndex, launchRing.data, decRing`writeIndex, decRing.data
      ensures Valid() && View() == TransferStep(old(View()), args, block)
    {
      match pending[currentDma].status
      case GetKernarg => RequestImageLoad(args, block);
      case GetImage => RequestCore(args, block);
      case StoreImage => FinishTransfer(args, block);
      case _ => currentDma := IDLE;
    }

    /** A producer writes an entry of the queue. */
    method WriteEntry(index: nat, entry: AqlSlot)
      requires Valid() && index < aql.Length
      modifies aql
      ensures Valid() && View() == old(View()).(aql := old(View()).aql[index := entry])
    {
      aql[index] := entry;
    }

    /** One action. */
    method Do(a: Action)
      requires Valid() && ActionSafe(View(), a)
      modifies this, pending, freeSlots, coreUsage, aql, dmaRing, dmaRing.data, launchRing, launchRing.data
      modifies decRing, decRing.data
      ensures Valid() && View() == Act(old(View()), a)
    {
      match a
      case PollQueue(block, pasid) => ProcessAqlPacket(block, pasid);
      case LookAgain(block, pasid) => LookAtReadIndex(block, pasid);
      case DispatchPacket => Dispatch();
      case ServeDma => ProcessDmaQueue();
      case ServeLaunch => ProcessLaunchQueue();
      case ServeDec => ProcessDecQueue();
      case TransferInterrupt(args, block) => InterruptTransfer(args, block);
      case KernelInterrupt(c, args) => InterruptKernel(c, args);
      case CompletionInterrupt => InterruptCompletion();
      case ProducerWrite(i, entry) => WriteEntry(i, entry);
    }

    /** Any interleaving of the main loop, the handlers and the producers. */
    method Perform(actions: seq<Action>)
      requires Valid() && AllSafe(View(), actions)
      modifies this, pending, freeSlots, coreUsage, aql, dmaRing, dmaRing.data, launchRing, launchRing.data
      modifies decRing, decRing.data
      ensures Valid() && View() == RunMachine(old(View()), actions)
    {
      var i := 0;
      while i < |actions|
        invariant i <= |actions| && Valid() && AllSafe(View(), actions[i..])
        invariant RunMachine(View(), actions[i..]) == RunMachine(old(View()), actions)
      {
        assert actions[i..][1..] == actions[i + 1..];
        Do(actions[i]);
        i := i + 1;
      }
    }
  }

  lemma NextCoreUnique(cores: seq<Core>, c: nat)
    requires c <= |cores| && (forall i :: 0 <= i < c ==> cores[i].running) && (c < |cores| ==> !cores[c].running)
    ensures NextCore(cores) == c
  {
    var first := NextCore(cores);
    assert first < |cores| ==> !cores[first].running;
  }

  method NoPackets(n: nat) returns (a: array<KernelInfo>)
    ensures fresh(a) && a[..] == seq(n, _ => KernelInfo(0, 0, GetKernarg, 0, 0, 0))
  {
    a := new KernelInfo[n](_ => KernelInfo(0, 0, GetKernarg, 0, 0, 0));
  }

  method IdleCores(n: nat) returns (a: array<Core>)
    ensures fresh(a) && a[..] == seq(n, _ => Core(false, 0, LaunchRequest(0, 0, 0, 0, 0, 0, 0, 0, 0, 0, None)))
  {
    a := new Core[n](_ => Core(false, 0, LaunchRequest(0, 0, 0, 0, 0, 0, 0, 0, 0, 0, None)));
  }

  method EmptyQueue(n: nat) returns (a: array<AqlSlot>)
    ensures fresh(a) && a[..] == seq(n, _ => AqlSlot(Invalid, false, KernelPacket(0, 0, 0, 0, 0)))
  {
    a := new AqlSlot[n](_ => AqlSlot(Invalid, false, KernelPacket(0, 0, 0, 0, 0)));
  }

  /** The stack of free slots at power-up: every slot once. */
  method FillFreeSlots(a: array<Slot>)
    requires a.Length < HALFWORD
    modifies a
    ensures a[..] == seq(a.Length, i => i)
  {
    var i := 0;
    while i < a.Length
      invariant 0 <= i <= a.Length && i == Counter(i, HALFWORD) && forall j :: 0 <= j < i ==> a[j] == j
      decreases a.Length - i
    {
      a[i] := i;
      i := (i + 1) % HALFWORD;
    }
  }

  const HALFWORD: nat := 0x1_0000

  lemma WindowCounts(bits: nat)
    requires bits < 16
    ensures Pow2(bits) < HALFWORD
  {
    WordPowers();
    Pow2Monotone(bits, 15);
  }

  /** The 16-bit counter gets through a window of fewer than 2^16 slots, and through no larger one. */
  lemma FillEndsIff(window: nat)
    ensures (exists passes: nat :: Counter(passes, HALFWORD) >= window) <==> window < HALFWORD
  {
    CounterReaches(window, HALFWORD);
  }
}
