/** The AQL packet processor as a state machine: one event is one critical section of the main loop,
    one interrupt handler, or a packet written by a producer. Rings are sequences here; the class
    PacketProcessor holds the arrays and counters that represent them. */
module Protocol {
  import opened Options
  import opened Bits

  type Slot = nat
  type Address = int

  datatype Status = GetKernarg | GetImage | Processing | StoreImage | Completion

  datatype Direction = LoadData | StoreData

  /** Fields of a kernel dispatch packet that the processor reads. */
  datatype KernelPacket = KernelPacket(kernelObject: U64, kernargAddress: U64, gridX: U32, gridY: U32, signal: U64)

  datatype Kind = Invalid | KernelDispatch | Barrier | Other

  /** One entry of the AQL queue. Barrier covers barrier-and and barrier-or packets, Other the
      vendor-specific, agent-dispatch and unknown types. */
  datatype AqlSlot = AqlSlot(kind: Kind, barrierBit: bool, packet: KernelPacket)

  /** kernel_info_t; `num` is the packet number that kp_addr stands for. */
  datatype KernelInfo = KernelInfo(num: nat, kp: nat, status: Status, pasid: U32, kernarg: Address, image: Address)

  datatype DmaRequest = DmaRequest(slot: Slot, host: Address, device: Address, size: nat, direction: Direction, pasid: U32)

  datatype LaunchRequest = LaunchRequest(slot: Slot, kernel: nat, normalization: nat, threshold: nat, colorModel: nat,
    border: nat, sizeX: nat, sizeY: nat, src: Address, dst: Address, mask: Option<Address>)

  datatype DecRequest = DecRequest(slot: Slot, signal: U64, pasid: U32)

  /** The kernel arguments as read from on-board memory. */
  datatype KernArgs = KernArgs(src: U64, dst: U64, colorModel: nat, border: nat, threshold: nat, normalization: nat)

  /** Where the main loop is: serving the queues; caught in the barrier wait of line 66, in which it serves none of them
      and after which it goes on with the packet type read before; or past line 86 with a kernel packet admitted. */
  datatype Phase = Polling | Waiting(kind: Kind) | Admitted(kernarg: Address, pasid: U32)

  datatype State = State(
    info: seq<KernelInfo>,
    free: seq<Slot>,
    dmaQ: seq<DmaRequest>, dma: Option<DmaRequest>,
    launchQ: seq<LaunchRequest>, cores: seq<Option<LaunchRequest>>,
    decQ: seq<DecRequest>, cmpl: Option<DecRequest>,
    aql: seq<AqlSlot>,
    phase: Phase,
    heap: map<Address, nat>,
    current: nat, read: nat, skipped: nat)

  const CUSTOM_FILTER3X3: nat := 0x31
  const CUSTOM_FILTER5X5: nat := 0x32
  const GAUSS3X3: nat := 0x11
  const GAUSS5X5: nat := 0x12

  function KernargSize(kernelObject: U64): nat {
    if kernelObject == CUSTOM_FILTER3X3 then 60
    else if kernelObject == CUSTOM_FILTER5X5 then 124
    else 20
  }

  function PixelStorage(colorModel: nat): nat {
    if colorModel == 0 then 2 else if colorModel == 1 then 3 else 1
  }

  /** The unsigned 32-bit product, converted to int and sign-extended to the 64-bit payload size. */
  function ImageSize(kp: KernelPacket, colorModel: nat): (size: nat) {
    var product := kp.gridX * kp.gridY % WORD * PixelStorage(colorModel) % WORD;
    if product < 0x8000_0000 then product else product + DWORD - WORD
  }

  function Normalization(kernel: nat, args: KernArgs): nat {
    if kernel == CUSTOM_FILTER3X3 || kernel == CUSTOM_FILTER5X5 then args.normalization
    else if kernel == GAUSS3X3 then 4
    else if kernel == GAUSS5X5 then 8
    else 0
  }

  predicate Custom(kernel: nat) { kernel == CUSTOM_FILTER3X3 || kernel == CUSTOM_FILTER5X5 }

  function LaunchFor(slot: Slot, kp: KernelPacket, args: KernArgs, kernarg: Address, image: Address): LaunchRequest {
    var kernel := kp.kernelObject % 0x1_0000;
    LaunchRequest(slot, kernel, Normalization(kernel, args), args.threshold, args.colorModel, args.border,
                  kp.gridX, kp.gridY, image, image, if Custom(kernel) then Some(kernarg + 20) else None)
  }

  datatype Event =
    | Admit(block: Address, pasid: U32)
    | Dispatch
    | RetireBarrier
    | Skip
    | Wait
    | Resume
    | StartDma
    | StartKernel
    | StartDec
    | Transfer(args: KernArgs, block: Address)
    | KernelDone(core: nat, args: KernArgs)
    | Signalled
    | Produce(index: nat, entry: AqlSlot)

  /** The events about the queue head, and the producers' writes: no packet in flight moves. */
  predicate AtHead(e: Event) { e.Admit? || e.RetireBarrier? || e.Skip? || e.Wait? || e.Resume? || e.Produce? }

  function Initial(window: nat, cores: nat, queue: nat): State {
    State(seq(window, _ => KernelInfo(0, 0, GetKernarg, 0, 0, 0)), seq(window, i => i),
          [], None, [], seq(cores, _ => None), [], None,
          seq(queue, _ => AqlSlot(Invalid, false, KernelPacket(0, 0, 0, 0, 0))), Polling, map[], 0, 0, 0)
  }

  /** Every slot number held anywhere indexes the window, every kp the AQL queue. */
  ghost predicate WellFormed(s: State) {
    && |s.aql| > 0
    && (forall i :: 0 <= i < |s.info| ==> s.info[i].kp < |s.aql|)
    && (forall i :: 0 <= i < |s.free| ==> s.free[i] < |s.info|)
    && (forall i :: 0 <= i < |s.dmaQ| ==> s.dmaQ[i].slot < |s.info|)
    && (forall i :: 0 <= i < |s.launchQ| ==> s.launchQ[i].slot < |s.info|)
    && (forall i :: 0 <= i < |s.decQ| ==> s.decQ[i].slot < |s.info|)
    && (forall c :: 0 <= c < |s.cores| && s.cores[c].Some? ==> s.cores[c].value.slot < |s.info|)
    && (s.dma.Some? ==> s.dma.value.slot < |s.info|)
    && (s.cmpl.Some? ==> s.cmpl.value.slot < |s.info|)
  }

  /** The queue entry the processor looks at next. */
  function Head(s: State): AqlSlot
    requires |s.aql| > 0
  {
    s.aql[s.current % |s.aql|]
  }

  function PacketOf(s: State, slot: Slot): KernelPacket
    requires slot < |s.info| && s.info[slot].kp < |s.aql|
  {
    s.aql[s.info[slot].kp].packet
  }

  /** Slot x holds a kernel packet. */
  predicate InFlight(s: State, x: Slot) { x < |s.info| && x !in s.free }

  function InFlightCount(s: State): int { |s.info| - |s.free| }

  function FirstIdle(cores: seq<Option<LaunchRequest>>): (c: nat)
    ensures c <= |cores|
    ensures forall i :: 0 <= i < c ==> cores[i].Some?
    ensures c < |cores| ==> cores[c].None?
  {
    if cores == [] then 0 else if cores[0].None? then 0 else 1 + FirstIdle(cores[1..])
  }

  /** malloc: the block overlaps no live one and lies in on-board memory. */
  ghost predicate FreshBlock(heap: map<Address, nat>, block: Address, size: nat) {
    && block !in heap
    && DEVICE_BASE <= block
    && forall a :: a in heap ==> a + heap[a] <= block || block + size <= a
  }

  const DEVICE_BASE: Address := 0x0001_0000_0000_0000

  /** The condition of the barrier wait of line 66: no barrier bit, or the packet number equals READ_INDEX. */
  predicate PastBarrier(s: State)
    requires |s.aql| > 0
  {
    Head(s).barrierBit ==> s.current == s.read
  }

  /** The entry at the queue head is not that of a packet still in flight. Nothing in the main loop checks this. */
  ghost predicate NewPacket(s: State) {
    |s.aql| > 0 && forall x: Slot :: InFlight(s, x) ==> s.info[x].kp != s.current % |s.aql|
  }

  /** What is admitted is a kernel packet that has not been taken from the queue before: neither one that is in flight
      nor, after a barrier wait, one that has ended since its type was read. */
  ghost predicate FirstSight(s: State, e: Event) { e.Admit? ==> NewPacket(s) && Head(s).kind == KernelDispatch }

  /** The main loop is past line 66 with a packet of this type, which it may have read before a barrier wait. */
  predicate Past(s: State, kind: Kind)
    requires |s.aql| > 0
  {
    if s.phase.Waiting? then s.phase.kind == kind && s.current == s.read
    else s.phase.Polling? && |s.free| > 0 && Head(s).kind == kind && PastBarrier(s)
  }

  ghost predicate Enabled(s: State, e: Event) {
    WellFormed(s) &&
    match e
    case Admit(block, _) =>
      Past(s, KernelDispatch) && FreshBlock(s.heap, block, KernargSize(Head(s).packet.kernelObject))
    case Dispatch => s.phase.Admitted? && |s.free| > 0
    case RetireBarrier => Past(s, Barrier) && Head(s).packet.signal == 0
    case Skip => Past(s, Other)
    case Wait => s.phase.Polling? && |s.free| > 0 && !PastBarrier(s)
    case Resume => s.phase.Waiting? && Past(s, Invalid)
    case StartDma => s.phase.Polling? && s.dmaQ != [] && s.dma.None?
    case StartKernel => s.phase.Polling? && s.launchQ != [] && FirstIdle(s.cores) < |s.cores|
    case StartDec => s.phase.Polling? && s.decQ != [] && s.cmpl.None?
    case Transfer(args, block) =>
      && s.dma.Some?
      && (s.info[s.dma.value.slot].status == GetKernarg ==>
            FreshBlock(s.heap, block, ImageSize(PacketOf(s, s.dma.value.slot), args.colorModel)))
    case KernelDone(c, _) => c < |s.cores| && s.cores[c].Some?
    case Signalled => s.cmpl.Some?
    case Produce(i, _) => i < |s.aql| && s.aql[i].kind == Invalid
  }

  function DispatchNext(s: State): State
    requires |s.aql| > 0 && s.phase.Admitted? && |s.free| > 0 && s.free[|s.free| - 1] < |s.info|
  {
    var n := |s.free| - 1;
    var slot, index := s.free[n], s.current % |s.aql|;
    var kp := s.aql[index].packet;
    var request := DmaRequest(slot, kp.kernargAddress, s.phase.kernarg, KernargSize(kp.kernelObject), LoadData, s.phase.pasid);
    s.(free := s.free[..n],
       info := s.info[slot := KernelInfo(s.current, index, GetKernarg, s.phase.pasid, s.phase.kernarg, s.info[slot].image)],
       dmaQ := s.dmaQ + [request], phase := Polling, current := s.current + 1)
  }

  /** header = HSA_PACKET_TYPE_INVALID: the type is invalid and the barrier bit clear. */
  function Cleared(entry: AqlSlot): AqlSlot { entry.(kind := Invalid, barrierBit := false) }

  /** The common end of a packet: both buffers freed, the slot pushed, the AQL entry invalidated. */
  function Retire(s: State, slot: Slot): State
    requires slot < |s.info| && s.info[slot].kp < |s.aql|
  {
    var i := s.info[slot];
    s.(heap := s.heap - {i.kernarg, i.image}, free := s.free + [slot],
       aql := s.aql[i.kp := Cleared(s.aql[i.kp])], read := s.read + 1)
  }

  ghost predicate DmaActive(s: State) {
    s.dma.Some? && s.dma.value.slot < |s.info| && s.info[s.dma.value.slot].kp < |s.aql|
  }

  /** The kernel arguments have arrived: allocate the image and ask for it. */
  function RequestImage(s: State, args: KernArgs, block: Address): State
    requires DmaActive(s)
  {
    var slot := s.dma.value.slot;
    var i, size := s.info[slot], ImageSize(PacketOf(s, slot), args.colorModel);
    s.(heap := s.heap[block := size], info := s.info[slot := i.(image := block, status := GetImage)],
       dmaQ := s.dmaQ + [DmaRequest(slot, args.src, block, size, LoadData, i.pasid)], dma := None)
  }

  /** The image has arrived: ask for a core. */
  function RequestLaunch(s: State, args: KernArgs): State
    requires DmaActive(s)
  {
    var slot := s.dma.value.slot;
    var i := s.info[slot];
    s.(info := s.info[slot := i.(status := Processing)],
       launchQ := s.launchQ + [LaunchFor(slot, PacketOf(s, slot), args, i.kernarg, i.image)], dma := None)
  }

  /** The result has been stored: signal completion, or retire a packet without a signal. */
  function FinishStore(s: State): State
    requires DmaActive(s)
  {
    var slot := s.dma.value.slot;
    var i, signal := s.info[slot], PacketOf(s, slot).signal;
    if signal != 0 then
      s.(info := s.info[slot := i.(status := Completion)], decQ := s.decQ + [DecRequest(slot, signal, i.pasid)], dma := None)
    else
      Retire(s, slot).(dma := None)
  }

  /** interrupt_transfer */
  function TransferNext(s: State, args: KernArgs, block: Address): State
    requires DmaActive(s)
  {
    match s.info[s.dma.value.slot].status
    case GetKernarg => RequestImage(s, args, block)
    case GetImage => RequestLaunch(s, args)
    case StoreImage => FinishStore(s)
    case _ => s.(dma := None)
  }

  /** interrupt_kernel */
  function KernelDoneNext(s: State, c: nat, args: KernArgs): State
    requires c < |s.cores| && s.cores[c].Some? && s.cores[c].value.slot < |s.info|
    requires s.info[s.cores[c].value.slot].kp < |s.aql|
  {
    var slot := s.cores[c].value.slot;
    var i, kp := s.info[slot], PacketOf(s, slot);
    var request := DmaRequest(slot, args.dst, i.image, ImageSize(kp, args.colorModel), StoreData, i.pasid);
    s.(dmaQ := s.dmaQ + [request], info := s.info[slot := i.(status := StoreImage)], cores := s.cores[c := None])
  }

  function Next(s: State, e: Event): State
    requires Enabled(s, e)
  {
    match e
    case Admit(block, pasid) =>
      s.(phase := Admitted(block, pasid), heap := s.heap[block := KernargSize(Head(s).packet.kernelObject)])
    case Dispatch => DispatchNext(s)
    case RetireBarrier =>
      var index := s.current % |s.aql|;
      s.(aql := s.aql[index := Cleared(s.aql[index])], read := s.read + 1, current := s.current + 1, phase := Polling)
    case Skip => s.(current := s.current + 1, skipped := s.skipped + 1, phase := Polling)
    case Wait => s.(phase := Waiting(Head(s).kind))
    case Resume => s.(phase := Polling)
    case StartDma => s.(dma := Some(s.dmaQ[0]), dmaQ := s.dmaQ[1..])
    case StartKernel => s.(cores := s.cores[FirstIdle(s.cores) := Some(s.launchQ[0])], launchQ := s.launchQ[1..])
    case StartDec => s.(cmpl := Some(s.decQ[0]), decQ := s.decQ[1..])
    case Transfer(args, block) => TransferNext(s, args, block)
    case KernelDone(c, args) => KernelDoneNext(s, c, args)
    case Signalled => Retire(s, s.cmpl.value.slot).(cmpl := None)
    case Produce(i, entry) => s.(aql := s.aql[i := entry])
  }

  /** A finite run: states[i] steps to states[i + 1] by events[i]. */
  ghost predicate IsRun(states: seq<State>, events: seq<Event>) {
    && |states| == |events| + 1
    && forall i :: 0 <= i < |events| ==> Enabled(states[i], events[i]) && states[i + 1] == Next(states[i], events[i])
  }

  /** The run takes no packet from the queue twice while it is in flight. */
  ghost predicate FirstSights(states: seq<State>, events: seq<Event>) {
    forall i :: 0 <= i < |events| && i < |states| ==> FirstSight(states[i], events[i])
  }
}
