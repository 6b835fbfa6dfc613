/** The arrays, counters and registers carry out the state machine. */
module Refinement {
  import opened Options
  import opened Bits
  import opened Protocol
  import opened SlotSafety
  import opened RingQueue
  import opened PacketProcessor
  import opened Runs

  function DmaJob(id: nat, registers: DmaRequest): Option<DmaRequest> {
    if id == IDLE then None else Some(registers.(slot := id))
  }

  function DecJob(id: nat, registers: DecRequest): Option<DecRequest> {
    if id == IDLE then None else Some(registers.(slot := id))
  }

  function CoreJob(core: Core): Option<LaunchRequest> {
    if core.running then Some(core.config.(slot := core.packet)) else None
  }

  /** kernel_info_t holds the address of the AQL entry, not the packet number. */
  function Stored(i: KernelInfo): KernelInfo { i.(num := 0) }

  ghost predicate WindowAgrees(s: State, m: Machine) {
    && |m.pending| == |s.info| < IDLE
    && (forall i :: 0 <= i < |s.info| ==> m.pending[i] == Stored(s.info[i]))
    && |m.freeSlots| == |s.info| && m.remaining <= |m.freeSlots| && s.free == m.freeSlots[..m.remaining]
  }

  ghost predicate EnginesAgree(s: State, m: Machine) {
    && s.dmaQ == m.dmaQ && s.launchQ == m.launchQ && s.decQ == m.decQ
    && s.dma == DmaJob(m.currentDma, m.dmaRegisters) && s.cmpl == DecJob(m.currentCmpl, m.cmplRegisters)
    && |m.coreUsage| == |s.cores| && (forall c :: 0 <= c < |s.cores| ==> s.cores[c] == CoreJob(m.coreUsage[c]))
  }

  /** The 64-bit counters are the unbounded ones modulo 2^64; the queue length divides 2^64. */
  ghost predicate QueueAgrees(s: State, m: Machine, k: nat) {
    && s.aql == m.aql && |s.aql| == Pow2(k) && k < 64 && s.phase == m.phase
    && m.number == s.current % DWORD && m.readIndex == s.read % DWORD
  }

  ghost predicate Agrees(s: State, m: Machine, k: nat) {
    WindowAgrees(s, m) && EnginesAgree(s, m) && QueueAgrees(s, m, k)
  }

  lemma InitialAgrees(window: nat, cores: nat, k: nat)
    requires window < IDLE && k < 64
    ensures Agrees(Initial(window, cores, Pow2(k)), InitialMachine(window, cores, Pow2(k)), k)
  {
  }

  lemma HeadAgrees(s: State, m: Machine, k: nat)
    requires QueueAgrees(s, m, k)
    ensures HeadIndex(m) == s.current % |s.aql|
  {
    DivModWitness(s.current, DWORD);
    CounterModulo(s.current, m.number, s.current / DWORD, k);
  }

  lemma IncrementAgrees(x: nat)
    ensures Increment(x % DWORD) == (x + 1) % DWORD
  {
  }

  /** The comparison of the two 64-bit counters decides the barrier wait as long as fewer than 2^64 packets lie
      between them. */
  lemma BarrierComparison(s: State, m: Machine, k: nat)
    requires SlotInv(s) && Agrees(s, m, k) && |s.info| + s.skipped < DWORD
    ensures m.number == m.readIndex <==> s.current == s.read
  {
  }

  /** One pass of the main loop over the queue head, or its end after a barrier wait, seen on the state machine. */
  ghost function Polled(s: State, block: Address, pasid: U32): State
    requires WellFormed(s)
  {
    if Enabled(s, Admit(block, pasid)) then Next(s, Admit(block, pasid))
    else if Enabled(s, RetireBarrier) then Next(s, RetireBarrier)
    else if Enabled(s, Skip) then Next(s, Skip)
    else if Enabled(s, Wait) then Next(s, Wait)
    else if Enabled(s, Resume) then Next(s, Resume)
    else s
  }

  /** The packet type that the pass works with. */
  function TypeRead(s: State): Kind
    requires |s.aql| > 0
  {
    if s.phase.Waiting? then s.phase.kind else Head(s).kind
  }

  /** What the environment owes a pass: a fresh block from malloc, and no barrier packet with a completion signal. */
  ghost predicate PollAssumption(s: State, block: Address) {
    && |s.aql| > 0
    && (TypeRead(s) == KernelDispatch ==> FreshBlock(s.heap, block, KernargSize(Head(s).packet.kernelObject)))
    && (TypeRead(s) == Barrier ==> Head(s).packet.signal == 0)
  }

  lemma ContinueAgrees(s: State, m: Machine, k: nat, block: Address, pasid: U32)
    requires WellFormed(s) && Agrees(s, m, k) && PollAssumption(s, block) && Past(s, TypeRead(s))
    ensures Agrees(Polled(s, block, pasid), Continue(m, TypeRead(s), block, pasid), k)
  {
    PassTaken(s, block, pasid);
    HeadAgrees(s, m, k);
    IncrementAgrees(s.current);
    IncrementAgrees(s.read);
  }

  /** The step of the state machine for each type. */
  lemma PassTaken(s: State, block: Address, pasid: U32)
    requires WellFormed(s) && PollAssumption(s, block) && Past(s, TypeRead(s))
    ensures Polled(s, block, pasid) == match TypeRead(s)
      case Invalid => s.(phase := Polling)
      case KernelDispatch => Next(s, Admit(block, pasid))
      case Barrier => Next(s, RetireBarrier)
      case Other => Next(s, Skip)
  {
  }

  /** The window is full, or the barrier bit is set and an earlier packet not complete. */
  lemma HeldBackAgrees(s: State, m: Machine, k: nat, block: Address, pasid: U32)
    requires SlotInv(s) && Agrees(s, m, k) && s.phase.Polling? && |s.info| + s.skipped < DWORD
    requires |s.free| == 0 || !PastBarrier(s)
    ensures Agrees(Polled(s, block, pasid), Poll(m, block, pasid), k)
  {
    HeadAgrees(s, m, k);
    BarrierComparison(s, m, k);
  }

  lemma PollAgrees(s: State, m: Machine, k: nat, block: Address, pasid: U32)
    requires SlotInv(s) && Agrees(s, m, k) && s.phase.Polling? && PollAssumption(s, block)
    requires |s.info| + s.skipped < DWORD
    ensures ActionSafe(m, PollQueue(block, pasid)) && Agrees(Polled(s, block, pasid), Poll(m, block, pasid), k)
  {
    RingsFit(s);
    if |s.free| > 0 && PastBarrier(s) {
      HeadAgrees(s, m, k);
      BarrierComparison(s, m, k);
      ContinueAgrees(s, m, k, block, pasid);
    } else {
      HeldBackAgrees(s, m, k, block, pasid);
    }
  }

  /** A look at READ_INDEX in the wait: nothing happens, or the pass is completed with the type read before. */
  lemma LookAgrees(s: State, m: Machine, k: nat, block: Address, pasid: U32)
    requires SlotInv(s) && Agrees(s, m, k) && s.phase.Waiting? && PollAssumption(s, block)
    requires |s.info| + s.skipped < DWORD
    ensures ActionSafe(m, LookAgain(block, pasid)) && Agrees(Polled(s, block, pasid), WaitStep(m, block, pasid), k)
  {
    RingsFit(s);
    BarrierComparison(s, m, k);
    if s.current == s.read { ContinueAgrees(s, m, k, block, pasid); }
  }

  /** A barrier packet with a completion signal, past the barrier wait: the machine does what breaks the slot
      invariant. */
  lemma SignalledBarrierAgrees(s: State, m: Machine, k: nat, block: Address, pasid: U32)
    requires SlotInv(s) && Agrees(s, m, k) && |s.info| + s.skipped < DWORD
    requires Past(s, Barrier) && Head(s).packet.signal != 0
    ensures Agrees(SignalledBarrier(s, Head(s).packet.signal, pasid),
                   if s.phase.Waiting? then WaitStep(m, block, pasid) else Poll(m, block, pasid), k)
  {
    HeadAgrees(s, m, k);
    BarrierComparison(s, m, k);
    IncrementAgrees(s.current);
  }

  lemma DispatchAgrees(s: State, m: Machine, k: nat)
    requires SlotInv(s) && Agrees(s, m, k) && s.phase.Admitted?
    ensures 0 < m.remaining && m.freeSlots[m.remaining - 1] < |m.pending| && |m.dmaQ| < |m.pending|
    ensures Agrees(DispatchNext(s), DispatchStep(m), k)
  {
    DispatchSafe(s, m, k);
    HeadAgrees(s, m, k);
    DispatchWindow(s, m);
    DispatchEngines(s, m);
    IncrementAgrees(s.current);
  }

  lemma DispatchSafe(s: State, m: Machine, k: nat)
    requires SlotInv(s) && Agrees(s, m, k) && s.phase.Admitted?
    ensures 0 < m.remaining && m.freeSlots[m.remaining - 1] < |m.pending| && |m.dmaQ| < |m.pending|
  {
    RingsFit(s);
  }

  ghost predicate CanDispatch(s: State, m: Machine) {
    && |s.aql| > 0 && s.phase.Admitted? && |s.free| > 0 && s.free[|s.free| - 1] < |s.info|
    && WindowAgrees(s, m) && m.phase == s.phase && m.aql == s.aql && HeadIndex(m) == s.current % |s.aql|
  }

  lemma DispatchWindow(s: State, m: Machine)
    requires CanDispatch(s, m)
    ensures WindowAgrees(DispatchNext(s), DispatchStep(m))
  {
  }

  lemma DispatchEngines(s: State, m: Machine)
    requires CanDispatch(s, m) && EnginesAgree(s, m)
    ensures EnginesAgree(DispatchNext(s), DispatchStep(m))
  {
  }

  lemma StartDmaAgrees(s: State, m: Machine, k: nat)
    requires SlotInv(s) && Agrees(s, m, k) && s.phase.Polling?
    ensures Agrees(if Enabled(s, StartDma) then Next(s, StartDma) else s, DmaStep(m), k)
  {
  }

  lemma StartDecAgrees(s: State, m: Machine, k: nat)
    requires SlotInv(s) && Agrees(s, m, k) && s.phase.Polling?
    ensures Agrees(if Enabled(s, StartDec) then Next(s, StartDec) else s, DecStep(m), k)
  {
  }

  lemma NextCoreAgrees(s: State, m: Machine)
    requires EnginesAgree(s, m)
    ensures NextCore(m.coreUsage) == FirstIdle(s.cores)
  {
    var c := FirstIdle(s.cores);
    assert forall i :: 0 <= i < c ==> s.cores[i].Some?;
    NextCoreUnique(m.coreUsage, c);
  }

  lemma StartKernelAgrees(s: State, m: Machine, k: nat)
    requires SlotInv(s) && Agrees(s, m, k) && s.phase.Polling?
    ensures Agrees(if Enabled(s, StartKernel) then Next(s, StartKernel) else s, LaunchStep(m), k)
  {
    NextCoreAgrees(s, m);
  }

  lemma TransferSafe(s: State, m: Machine, k: nat)
    requires SlotInv(s) && Agrees(s, m, k) && s.dma.Some?
    ensures HandlerSafe(m, m.currentDma)
  {
    RingsFit(s);
  }

  lemma CompletionSafe(s: State, m: Machine, k: nat)
    requires SlotInv(s) && Agrees(s, m, k) && s.cmpl.Some?
    ensures HandlerSafe(m, m.currentCmpl)
  {
    RingsFit(s);
  }

  lemma KernelSafe(s: State, m: Machine, k: nat, c: nat)
    requires SlotInv(s) && Agrees(s, m, k) && c < |s.cores| && s.cores[c].Some?
    ensures c < |m.coreUsage| && HandlerSafe(m, m.coreUsage[c].packet)
  {
    RingsFit(s);
    CoreMember(s.cores, c);
    assert CoreSlots(s.cores) != [];
  }

  lemma ReleaseAgrees(s: State, m: Machine, k: nat, slot: Slot)
    requires WellFormed(s) && Agrees(s, m, k) && SlotOk(m, slot) && m.remaining < |m.freeSlots|
    ensures Agrees(Retire(s, slot), Release(m, slot), k)
  {
    IncrementAgrees(s.read);
    var m' := Release(m, slot);
    assert m'.freeSlots[..m'.remaining] == m.freeSlots[..m.remaining] + [slot];
  }

  lemma RequestImageAgrees(s: State, m: Machine, k: nat, args: KernArgs, block: Address)
    requires SlotInv(s) && Agrees(s, m, k) && s.dma.Some? && HandlerSafe(m, m.currentDma)
    requires s.info[s.dma.value.slot].status == GetKernarg
    ensures Agrees(RequestImage(s, args, block), TransferStep(m, args, block), k)
  {
  }

  lemma RequestLaunchAgrees(s: State, m: Machine, k: nat, args: KernArgs, block: Address)
    requires SlotInv(s) && Agrees(s, m, k) && s.dma.Some? && HandlerSafe(m, m.currentDma)
    requires s.info[s.dma.value.slot].status == GetImage
    ensures Agrees(RequestLaunch(s, args), TransferStep(m, args, block), k)
  {
  }

  lemma FinishStoreAgrees(s: State, m: Machine, k: nat, args: KernArgs, block: Address)
    requires SlotInv(s) && Agrees(s, m, k) && s.dma.Some? && HandlerSafe(m, m.currentDma)
    requires s.info[s.dma.value.slot].status == StoreImage
    ensures Agrees(FinishStore(s), TransferStep(m, args, block), k)
  {
    if PacketOf(s, s.dma.value.slot).signal == 0 {
      ReleaseAgrees(s, m, k, s.dma.value.slot);
    }
  }

  lemma TransferAgrees(s: State, m: Machine, k: nat, args: KernArgs, block: Address)
    requires SlotInv(s) && Agrees(s, m, k) && s.dma.Some?
    ensures HandlerSafe(m, m.currentDma) && Agrees(TransferNext(s, args, block), TransferStep(m, args, block), k)
  {
    TransferSafe(s, m, k);
    match s.info[s.dma.value.slot].status
    case GetKernarg => RequestImageAgrees(s, m, k, args, block);
    case GetImage => RequestLaunchAgrees(s, m, k, args, block);
    case StoreImage => FinishStoreAgrees(s, m, k, args, block);
    case _ => assert false;
  }

  lemma KernelAgrees(s: State, m: Machine, k: nat, c: nat, args: KernArgs)
    requires SlotInv(s) && Agrees(s, m, k) && c < |s.cores| && s.cores[c].Some?
    ensures c < |m.coreUsage| && HandlerSafe(m, m.coreUsage[c].packet)
    ensures Agrees(KernelDoneNext(s, c, args), KernelStep(m, c, args), k)
  {
    KernelSafe(s, m, k, c);
  }

  lemma CompletionAgrees(s: State, m: Machine, k: nat)
    requires SlotInv(s) && Agrees(s, m, k) && s.cmpl.Some?
    ensures HandlerSafe(m, m.currentCmpl) && Agrees(Next(s, Signalled), CompletionStep(m), k)
  {
    CompletionSafe(s, m, k);
    ReleaseAgrees(s, m, k, s.cmpl.value.slot);
  }

  /** When the action can happen: where the main loop is, which engines are busy, and what malloc and the producers
      promise. */
  ghost predicate CanAct(s: State, m: Machine, a: Action) {
    match a
    case PollQueue(block, _) => m.phase.Polling? && PollAssumption(s, block) && |s.info| + s.skipped < DWORD
    case LookAgain(block, _) => m.phase.Waiting? && PollAssumption(s, block) && |s.info| + s.skipped < DWORD
    case DispatchPacket => m.phase.Admitted?
    case ServeDma | ServeLaunch | ServeDec => m.phase.Polling?
    case TransferInterrupt(args, block) => m.currentDma != IDLE && Enabled(s, Transfer(args, block))
    case KernelInterrupt(c, _) => c < |m.coreUsage| && m.coreUsage[c].running
    case CompletionInterrupt => m.currentCmpl != IDLE
    case ProducerWrite(i, _) => i < |m.aql| && m.aql[i].kind == Invalid
  }

  /** The step of the state machine that the action stands for; a pass that finds nothing to do stands for none. */
  ghost function Abstract(s: State, a: Action): State
    requires SlotInv(s)
  {
    match a
    case PollQueue(block, pasid) => Polled(s, block, pasid)
    case LookAgain(block, pasid) => Polled(s, block, pasid)
    case DispatchPacket => if Enabled(s, Dispatch) then Next(s, Dispatch) else s
    case ServeDma => if Enabled(s, StartDma) then Next(s, StartDma) else s
    case ServeLaunch => if Enabled(s, StartKernel) then Next(s, StartKernel) else s
    case ServeDec => if Enabled(s, StartDec) then Next(s, StartDec) else s
    case TransferInterrupt(args, block) => if s.dma.Some? then TransferNext(s, args, block) else s
    case KernelInterrupt(c, args) => if c < |s.cores| && s.cores[c].Some? then KernelDoneNext(s, c, args) else s
    case CompletionInterrupt => if s.cmpl.Some? then Next(s, Signalled) else s
    case ProducerWrite(i, entry) => if Enabled(s, Produce(i, entry)) then Next(s, Produce(i, entry)) else s
  }

  lemma ServeRefines(s: State, m: Machine, k: nat, a: Action)
    requires SlotInv(s) && Agrees(s, m, k) && CanAct(s, m, a)
    requires a.ServeDma? || a.ServeLaunch? || a.ServeDec?
    ensures ActionSafe(m, a) && Agrees(Abstract(s, a), Act(m, a), k)
  {
    match a
    case ServeDma => StartDmaAgrees(s, m, k);
    case ServeLaunch => StartKernelAgrees(s, m, k);
    case ServeDec => StartDecAgrees(s, m, k);
  }

  lemma WriteRefines(s: State, m: Machine, k: nat, i: nat, entry: AqlSlot)
    requires SlotInv(s) && Agrees(s, m, k) && CanAct(s, m, ProducerWrite(i, entry))
    ensures ActionSafe(m, ProducerWrite(i, entry))
    ensures Agrees(Abstract(s, ProducerWrite(i, entry)), Act(m, ProducerWrite(i, entry)), k)
  {
  }

  lemma InterruptRefines(s: State, m: Machine, k: nat, a: Action)
    requires SlotInv(s) && Agrees(s, m, k) && CanAct(s, m, a)
    requires a.TransferInterrupt? || a.KernelInterrupt? || a.CompletionInterrupt?
    ensures ActionSafe(m, a) && Agrees(Abstract(s, a), Act(m, a), k)
  {
    match a
    case TransferInterrupt(args, block) => TransferAgrees(s, m, k, args, block);
    case KernelInterrupt(c, args) => KernelAgrees(s, m, k, c, args);
    case CompletionInterrupt => CompletionAgrees(s, m, k);
  }

  /** Every action the processor can take is in bounds, finds room in the rings it writes, and is a step of the
      state machine. */
  lemma EveryActionRefines(s: State, m: Machine, k: nat, a: Action)
    requires SlotInv(s) && Agrees(s, m, k) && CanAct(s, m, a)
    ensures ActionSafe(m, a) && Agrees(Abstract(s, a), Act(m, a), k)
  {
    match a
    case PollQueue(block, pasid) => PollAgrees(s, m, k, block, pasid);
    case LookAgain(block, pasid) => LookAgrees(s, m, k, block, pasid);
    case DispatchPacket => DispatchAgrees(s, m, k);
    case ServeDma | ServeLaunch | ServeDec => ServeRefines(s, m, k, a);
    case TransferInterrupt(_, _) | KernelInterrupt(_, _) | CompletionInterrupt => InterruptRefines(s, m, k, a);
    case ProducerWrite(i, entry) => WriteRefines(s, m, k, i, entry);
  }

  lemma AbstractKeeps(s: State, m: Machine, k: nat, a: Action)
    requires SlotInv(s) && Agrees(s, m, k) && CanAct(s, m, a)
    ensures SlotInv(Abstract(s, a))
  {
    match a
    case PollQueue(block, pasid) => PollKeeps(s, block, pasid);
    case LookAgain(block, pasid) => PollKeeps(s, block, pasid);
    case DispatchPacket => SlotInvKept(s, Dispatch);
    case ServeDma | ServeLaunch | ServeDec => ServeKeeps(s, a);
    case TransferInterrupt(args, block) => SlotInvKept(s, Transfer(args, block));
    case KernelInterrupt(c, args) => SlotInvKept(s, KernelDone(c, args));
    case CompletionInterrupt => SlotInvKept(s, Signalled);
    case ProducerWrite(i, entry) => SlotInvKept(s, Produce(i, entry));
  }

  lemma ServeKeeps(s: State, a: Action)
    requires SlotInv(s) && (a.ServeDma? || a.ServeLaunch? || a.ServeDec?)
    ensures SlotInv(Abstract(s, a))
  {
    match a
    case ServeDma => if Enabled(s, StartDma) { SlotInvKept(s, StartDma); }
    case ServeLaunch => if Enabled(s, StartKernel) { SlotInvKept(s, StartKernel); }
    case ServeDec => if Enabled(s, StartDec) { SlotInvKept(s, StartDec); }
  }

  lemma PollKeeps(s: State, block: Address, pasid: U32)
    requires SlotInv(s)
    ensures SlotInv(Polled(s, block, pasid))
  {
    if Enabled(s, Admit(block, pasid)) {
      SlotInvKept(s, Admit(block, pasid));
    } else if Enabled(s, RetireBarrier) {
      SlotInvKept(s, RetireBarrier);
    } else if Enabled(s, Skip) {
      SlotInvKept(s, Skip);
    } else if Enabled(s, Wait) {
      SlotInvKept(s, Wait);
    } else if Enabled(s, Resume) {
      SlotInvKept(s, Resume);
    }
  }

  /** Each action of the sequence can happen when its turn comes. */
  ghost predicate Plausible(s: State, m: Machine, actions: seq<Action>)
    decreases |actions|
  {
    actions == [] ||
    (CanAct(s, m, actions[0]) &&
     (SlotInv(s) && ActionSafe(m, actions[0]) ==> Plausible(Abstract(s, actions[0]), Act(m, actions[0]), actions[1..])))
  }

  ghost predicate StandsFor(s: State, a: Action, e: Event)
    requires SlotInv(s)
  {
    Step(s, e, Abstract(s, a))
  }

  /** The event that the action stands for, unless it changes nothing. */
  lemma EventOf(s: State, m: Machine, k: nat, a: Action) returns (e: Option<Event>)
    requires SlotInv(s) && Agrees(s, m, k) && CanAct(s, m, a)
    ensures if e.Some? then StandsFor(s, a, e.value) else Abstract(s, a) == s
  {
    match a
    case PollQueue(block, pasid) => e := EventOfPoll(s, block, pasid);
    case LookAgain(block, pasid) => e := EventOfPoll(s, block, pasid);
    case DispatchPacket => e := Some(Dispatch);
    case ServeDma | ServeLaunch | ServeDec => e := EventOfService(s, a);
    case TransferInterrupt(_, _) | KernelInterrupt(_, _) | CompletionInterrupt => e := EventOfInterrupt(s, m, k, a);
    case ProducerWrite(i, entry) => e := Some(Produce(i, entry));
  }

  lemma EventOfService(s: State, a: Action) returns (e: Option<Event>)
    requires SlotInv(s) && (a.ServeDma? || a.ServeLaunch? || a.ServeDec?)
    ensures if e.Some? then StandsFor(s, a, e.value) else Abstract(s, a) == s
  {
    var start := if a.ServeDma? then StartDma else if a.ServeLaunch? then StartKernel else StartDec;
    e := if Enabled(s, start) then Some(start) else None;
  }

  lemma EventOfInterrupt(s: State, m: Machine, k: nat, a: Action) returns (e: Option<Event>)
    requires SlotInv(s) && Agrees(s, m, k) && CanAct(s, m, a)
    requires a.TransferInterrupt? || a.KernelInterrupt? || a.CompletionInterrupt?
    ensures e.Some? && StandsFor(s, a, e.value)
  {
    match a
    case TransferInterrupt(args, block) => e := Some(Transfer(args, block));
    case KernelInterrupt(c, args) => e := Some(KernelDone(c, args));
    case CompletionInterrupt => e := Some(Signalled);
  }

  lemma EventOfPoll(s: State, block: Address, pasid: U32) returns (e: Option<Event>)
    requires SlotInv(s)
    ensures if e.Some? then Step(s, e.value, Polled(s, block, pasid)) else Polled(s, block, pasid) == s
  {
    e := if Enabled(s, Admit(block, pasid)) then Some(Admit(block, pasid))
      else if Enabled(s, RetireBarrier) then Some(RetireBarrier)
      else if Enabled(s, Skip) then Some(Skip)
      else if Enabled(s, Wait) then Some(Wait)
      else if Enabled(s, Resume) then Some(Resume)
      else None;
  }

  /** Any interleaving of the main loop's steps with the handlers and the producers stays in bounds, and is a run of
      the state machine: what is proved about all runs holds of the arrays, counters and rings. */
  lemma {:induction false} EveryRunRefines(s: State, m: Machine, k: nat, actions: seq<Action>)
    returns (t: State, states: seq<State>, events: seq<Event>)
    requires SlotInv(s) && Agrees(s, m, k) && Plausible(s, m, actions)
    ensures AllSafe(m, actions) && Path(states, events, s, t) && SlotInv(t) && Agrees(t, RunMachine(m, actions), k)
    decreases |actions|
  {
    if actions == [] {
      Stay(s);
      t, states, events := s, [s], [];
    } else {
      var a := actions[0];
      EveryActionRefines(s, m, k, a);
      AbstractKeeps(s, m, k, a);
      t, states, events := EveryRunRefines(Abstract(s, a), Act(m, a), k, actions[1..]);
      var e := EventOf(s, m, k, a);
      if e.Some? {
        Prepend(s, e.value, states, events, t);
        states, events := [s] + states, [e.value] + events;
      }
    }
  }

  /** From power-up on. */
  lemma EveryRunFromStart(window: nat, cores: nat, k: nat, actions: seq<Action>)
    returns (t: State, states: seq<State>, events: seq<Event>)
    requires window < IDLE && k < 64
    requires Plausible(Initial(window, cores, Pow2(k)), InitialMachine(window, cores, Pow2(k)), actions)
    ensures AllSafe(InitialMachine(window, cores, Pow2(k)), actions)
    ensures Path(states, events, Initial(window, cores, Pow2(k)), t)
    ensures Agrees(t, RunMachine(InitialMachine(window, cores, Pow2(k)), actions), k)
  {
    InitialAgrees(window, cores, k);
    InitialSlots(window, cores, Pow2(k));
    t, states, events := EveryRunRefines(Initial(window, cores, Pow2(k)), InitialMachine(window, cores, Pow2(k)), k, actions);
  }
}
