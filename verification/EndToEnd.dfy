/** The packet processor together with the devices it drives and the memory they share: what a packet that ends has
    done to host memory. */
module EndToEnd {
  import opened Bits
  import opened Memory
  import opened Dma
  import opened Protocol
  import opened LaunchMeaning
  import opened SlotSafety
  import opened AqlEntries
  import opened Buffers

  /** Everything a core is told. */
  datatype Task = Task(kernel: nat, normalization: nat, threshold: nat, colorModel: nat, border: nat,
    sizeX: nat, sizeY: nat, mask: seq<Byte>)

  /** What an accelerator core computes, on an image in place. */
  type Kernel = (Task, seq<Byte>) -> seq<Byte>

  /** What the DMA loaded for a packet, and how often its signal has been decremented. */
  datatype Record = Record(kernargs: seq<Byte>, image: seq<Byte>, signals: nat)

  /** dmaDone, computed and sent: the engine has done its work, the interrupt is still to be handled. */
  datatype System = System(p: State, mem: Memory, dmaDone: bool, tasks: seq<Task>, computed: seq<bool>, sent: bool,
    hist: seq<Record>)

  datatype Step =
    | Internal(e: Event)
    | Copies
    | Computes(core: nat)
    | Decrements
    | HostWrites(address: int, value: Byte)

  function Get(b: seq<Byte>, i: nat): Byte { if i < |b| then b[i] else 0 }

  function Field(b: seq<Byte>, i: nat, n: nat): (s: seq<Byte>)
    ensures |s| == n
  {
    seq<Byte>(n, j requires 0 <= j < n => Get(b, i + j))
  }

  /** The argument block as the handlers read it. Packets without a normalization field have 20 bytes only. */
  function ArgsOf(b: seq<Byte>): KernArgs {
    KernArgs(Word(Field(b, 0, 8)), Word(Field(b, 8, 8)), Get(b, 16), Get(b, 17), Number(Field(b, 18, 2)),
             if |b| > 20 then Number(Field(b, 20, 2)) else 0)
  }

  function Word(b: seq<Byte>): U64
    requires |b| == 8
  {
    NumberBound(b);
    WordPowers();
    Number(b)
  }

  function MaskLength(kernel: nat): nat { if kernel == CUSTOM_FILTER3X3 then 36 else if kernel == CUSTOM_FILTER5X5 then 100 else 0 }

  /** The configuration that write_mask_to_core and its caller put into a core's registers. */
  function TaskAtLaunch(mem: Memory, r: LaunchRequest): Task {
    Task(r.kernel, r.normalization, r.threshold, r.colorModel, r.border, r.sizeX, r.sizeY,
         if r.mask.Some? then Bytes(mem, r.mask.value, MaskLength(r.kernel)) else [])
  }

  /** The task that a packet and its argument block describe. */
  function TaskFor(kp: KernelPacket, b: seq<Byte>): Task {
    var kernel, args := kp.kernelObject % 0x1_0000, ArgsOf(b);
    Task(kernel, Normalization(kernel, args), args.threshold, args.colorModel, args.border, kp.gridX, kp.gridY,
         if Custom(kernel) then Field(b, 20, MaskLength(kernel)) else [])
  }

  /** The bytes of the image, without overflow. */
  function PixelBytes(kp: KernelPacket, colorModel: nat): nat { kp.gridX * kp.gridY * PixelStorage(colorModel) }

  function BytesAtCore(r: LaunchRequest): nat { r.sizeX * r.sizeY * PixelStorage(r.colorModel) }

  function Kp(z: System, x: Slot): KernelPacket {
    if x < |z.p.info| && z.p.info[x].kp < |z.p.aql| then PacketOf(z.p, x) else KernelPacket(0, 0, 0, 0, 0)
  }

  function Rec(z: System, x: Slot): Record { if x < |z.hist| then z.hist[x] else Record([], [], 0) }

  function Args(z: System, x: Slot): KernArgs { ArgsOf(Rec(z, x).kernargs) }

  function ArgSize(z: System, x: Slot): nat { KernargSize(Kp(z, x).kernelObject) }

  function Size(z: System, x: Slot): nat { ImageSize(Kp(z, x), Args(z, x).colorModel) }

  function Result(z: System, x: Slot, f: Kernel): seq<Byte> { f(TaskFor(Kp(z, x), Rec(z, x).kernargs), Rec(z, x).image) }

  predicate DmaServed(z: System, x: Slot) { z.dmaDone && z.p.dma.Some? && z.p.dma.value.slot == x }

  ghost predicate CoreServed(z: System, x: Slot) {
    exists c :: 0 <= c < |z.p.cores| && c < |z.computed| && z.computed[c] && z.p.cores[c].Some? && z.p.cores[c].value.slot == x
  }

  predicate SignalSent(z: System, x: Slot) { z.sent && z.p.cmpl.Some? && z.p.cmpl.value.slot == x }

  /** 0 nothing loaded, 1 arguments on board, 2 image on board, 3 computed, 4 stored. */
  ghost function PhaseOf(z: System, x: Slot): nat
    requires x < |z.p.info|
  {
    match z.p.info[x].status
    case GetKernarg => if DmaServed(z, x) then 1 else 0
    case GetImage => if DmaServed(z, x) then 2 else 1
    case Processing => if CoreServed(z, x) then 3 else 2
    case StoreImage => if DmaServed(z, x) then 4 else 3
    case Completion => 4
  }

  /** What memory holds for the packet in slot x at phase ph. */
  ghost predicate Holding(z: System, x: Slot, ph: nat, f: Kernel)
    requires x < |z.p.info|
  {
    var i := z.p.info[x];
    && (ph >= 1 ==> Bytes(z.mem, i.kernarg, ArgSize(z, x)) == Rec(z, x).kernargs)
    && (ph == 2 ==> Bytes(z.mem, i.image, Size(z, x)) == Rec(z, x).image)
    && (ph == 3 ==> Bytes(z.mem, i.image, Size(z, x)) == Result(z, x, f))
    && (ph == 4 ==> Bytes(z.mem, Args(z, x).dst, Size(z, x)) == Result(z, x, f))
    && Rec(z, x).signals == if SignalSent(z, x) then 1 else 0
  }

  function ExpectedDma(z: System, x: Slot): DmaRequest
    requires x < |z.p.info|
  {
    var i := z.p.info[x];
    match i.status
    case GetKernarg => DmaRequest(x, Kp(z, x).kernargAddress, i.kernarg, ArgSize(z, x), LoadData, i.pasid)
    case GetImage => DmaRequest(x, Args(z, x).src, i.image, Size(z, x), LoadData, i.pasid)
    case _ => DmaRequest(x, Args(z, x).dst, i.image, Size(z, x), StoreData, i.pasid)
  }

  function ExpectedLaunch(z: System, x: Slot): LaunchRequest
    requires x < |z.p.info|
  {
    LaunchFor(x, Kp(z, x), Args(z, x), z.p.info[x].kernarg, z.p.info[x].image)
  }

  predicate DmaExpected(z: System, r: DmaRequest) { r.slot < |z.p.info| && r == ExpectedDma(z, r.slot) }

  predicate LaunchExpected(z: System, r: LaunchRequest) { r.slot < |z.p.info| && r == ExpectedLaunch(z, r.slot) }

  predicate DecExpected(z: System, r: DecRequest) {
    r.slot < |z.p.info| && r.signal == Kp(z, r.slot).signal != 0 && r.pasid == z.p.info[r.slot].pasid
  }

  /** Every request is the one its packet calls for. */
  ghost predicate RequestsOk(z: System) {
    && (forall i :: 0 <= i < |z.p.dmaQ| ==> DmaExpected(z, z.p.dmaQ[i]))
    && (z.p.dma.Some? ==> DmaExpected(z, z.p.dma.value))
    && (forall i :: 0 <= i < |z.p.launchQ| ==> LaunchExpected(z, z.p.launchQ[i]))
    && (forall i :: 0 <= i < |z.p.decQ| ==> DecExpected(z, z.p.decQ[i]))
    && (z.p.cmpl.Some? ==> DecExpected(z, z.p.cmpl.value))
    && |z.tasks| == |z.computed| == |z.p.cores|
    && (forall c :: 0 <= c < |z.p.cores| && z.p.cores[c].Some? ==> CoreExpected(z, c))
  }

  ghost predicate CoreExpected(z: System, c: nat)
    requires c < |z.p.cores| && z.p.cores[c].Some? && |z.tasks| == |z.p.cores|
  {
    var r := z.p.cores[c].value;
    LaunchExpected(z, r) && z.tasks[c] == TaskFor(Kp(z, r.slot), Rec(z, r.slot).kernargs)
  }

  ghost predicate BlocksApart(heap: map<Address, nat>) {
    && (forall a :: a in heap ==> DEVICE_BASE <= a)
    && (forall a, b :: a in heap && b in heap && a != b ==> Disjoint(a, heap[a], b, heap[b]))
  }

  /** The blocks have the sizes that are copied into them. */
  ghost predicate BlockSizes(z: System, x: Slot)
    requires x < |z.p.info|
  {
    var i := z.p.info[x];
    && (i.kernarg in z.p.heap ==> z.p.heap[i.kernarg] == ArgSize(z, x))
    && (HasImage(z.p, x) && i.image in z.p.heap ==> z.p.heap[i.image] == Size(z, x))
  }

  ghost predicate BlocksInv(z: System) {
    && BlocksApart(z.p.heap)
    && (forall x: Slot :: InFlight(z.p, x) ==> BlockSizes(z, x))
    && (z.p.phase.Admitted? && |z.p.aql| > 0 && z.p.phase.kernarg in z.p.heap ==>
          z.p.heap[z.p.phase.kernarg] == KernargSize(Head(z.p).packet.kernelObject))
  }

  ghost predicate Sound(s: State) { SlotInv(s) && EntriesInv(s) && BufferInv(s) }

  ghost predicate Ready(z: System, f: Kernel) {
    && Sound(z.p) && |z.hist| == |z.p.info| && BlocksInv(z) && RequestsOk(z)
    && (forall x: Slot :: InFlight(z.p, x) ==> Holding(z, x, PhaseOf(z, x), f))
  }

  /** The host buffer of the result. */
  ghost predicate DstApart(z: System, x: Slot, a: int, n: nat) { Disjoint(Args(z, x).dst, Size(z, x), a, n) }

  ghost predicate InHost(a: int, n: nat) { 0 <= a && a + n <= DEVICE_BASE }

  /** What the host promises about one packet: its buffers lie in host memory, its image is smaller than 2^31 bytes,
      and a custom filter is named by its exact code. */
  ghost predicate PacketOk(z: System, x: Slot) {
    && InHost(Kp(z, x).kernargAddress, ArgSize(z, x))
    && InHost(Args(z, x).src, Size(z, x)) && InHost(Args(z, x).dst, Size(z, x)) && InHost(Kp(z, x).signal, 8)
    && PixelBytes(Kp(z, x), Args(z, x).colorModel) < 0x8000_0000
    && (Custom(Kp(z, x).kernelObject % 0x1_0000) ==> Kp(z, x).kernelObject < 0x1_0000)
  }

  /** Result buffers are disjoint from each other and from the completion signals. */
  ghost predicate HostOk(z: System) {
    && (forall x: Slot :: InFlight(z.p, x) && PhaseOf(z, x) >= 1 ==> PacketOk(z, x))
    && (forall x: Slot :: InFlight(z.p, x) ==>
          InHost(Kp(z, x).kernargAddress, ArgSize(z, x)))
    && (forall x: Slot, y: Slot :: InFlight(z.p, x) && InFlight(z.p, y) && PhaseOf(z, x) >= 1 && PhaseOf(z, y) >= 1 ==>
          (x != y ==> DstApart(z, x, Args(z, y).dst, Size(z, y))) && DstApart(z, x, Kp(z, y).signal, 8))
  }

  ghost predicate CanStep(z: System, step: Step) {
    match step
    case Internal(e) =>
      && Enabled(z.p, e)
      && (e.Transfer? ==> z.dmaDone && ArgsSeen(z, z.p.dma.value.slot, e.args))
      && (e.KernelDone? ==> e.core < |z.computed| && z.computed[e.core] && ArgsSeen(z, z.p.cores[e.core].value.slot, e.args))
      && (e.Signalled? ==> z.sent)
    case Copies => z.p.dma.Some? && !z.dmaDone
    case Computes(c) => c < |z.p.cores| && c < |z.computed| && z.p.cores[c].Some? && !z.computed[c]
    case Decrements => z.p.cmpl.Some? && !z.sent
    case HostWrites(a, _) =>
      && InHost(a, 1)
      && forall x: Slot :: InFlight(z.p, x) && PhaseOf(z, x) == 4 ==> DstApart(z, x, a, 1)
  }

  /** The handler reads the arguments from the block on board. */
  predicate ArgsSeen(z: System, x: Slot, args: KernArgs) {
    x < |z.p.info| && args == ArgsOf(Bytes(z.mem, z.p.info[x].kernarg, ArgSize(z, x)))
  }

  ghost function AfterInternal(z: System, e: Event): System
    requires Enabled(z.p, e)
  {
    var p := Next(z.p, e);
    match e
    case Dispatch =>
      var top := z.p.free[|z.p.free| - 1];
      z.(p := p, hist := if top < |z.hist| then z.hist[top := Record([], [], 0)] else z.hist)
    case StartDma => z.(p := p, dmaDone := false)
    case StartKernel =>
      var c := FirstIdle(z.p.cores);
      if c < |z.tasks| && c < |z.computed| then
        z.(p := p, tasks := z.tasks[c := TaskAtLaunch(z.mem, z.p.launchQ[0])], computed := z.computed[c := false])
      else z.(p := p)
    case StartDec => z.(p := p, sent := false)
    case _ => z.(p := p)
  }

  /** The bytes are moved; what was loaded is remembered. */
  function AfterCopy(z: System): System
    requires z.p.dma.Some?
  {
    var r := z.p.dma.value;
    var x := r.slot;
    var mem := if r.direction == LoadData then Copy(z.mem, r.device, r.host, r.size) else Copy(z.mem, r.host, r.device, r.size);
    var loaded := Bytes(z.mem, r.host, r.size);
    if x < |z.hist| && x < |z.p.info| then
      match z.p.info[x].status
      case GetKernarg => z.(mem := mem, dmaDone := true, hist := z.hist[x := z.hist[x].(kernargs := loaded)])
      case GetImage => z.(mem := mem, dmaDone := true, hist := z.hist[x := z.hist[x].(image := loaded)])
      case _ => z.(mem := mem, dmaDone := true)
    else z.(mem := mem, dmaDone := true)
  }

  function AfterCompute(z: System, c: nat, f: Kernel): System
    requires c < |z.p.cores| && c < |z.computed| && c < |z.tasks| && z.p.cores[c].Some?
  {
    var r := z.p.cores[c].value;
    z.(mem := Write(z.mem, r.dst, f(z.tasks[c], Bytes(z.mem, r.src, BytesAtCore(r)))), computed := z.computed[c := true])
  }

  function AfterDecrement(z: System): System
    requires z.p.cmpl.Some?
  {
    var x := z.p.cmpl.value.slot;
    z.(mem := Decremented(z.mem, z.p.cmpl.value.signal), sent := true,
       hist := if x < |z.hist| then z.hist[x := z.hist[x].(signals := z.hist[x].signals + 1)] else z.hist)
  }

  ghost function After(z: System, step: Step, f: Kernel): System
    requires CanStep(z, step) && |z.tasks| == |z.computed|
  {
    match step
    case Internal(e) => AfterInternal(z, e)
    case Copies => AfterCopy(z)
    case Computes(c) => AfterCompute(z, c, f)
    case Decrements => AfterDecrement(z)
    case HostWrites(a, v) => z.(mem := Write(z.mem, a, [v]))
  }

  // ---- what an argument block says ----

  /** Source and destination, colour model, border handling, threshold, and for a custom filter the normalization. */
  predicate BlockSays(args: KernArgs, b: seq<Byte>) {
    && (|b| == 20 || |b| >= 22)
    && args.src == Number(b[..8]) && args.dst == Number(b[8..16]) && args.colorModel == b[16] && args.border == b[17]
    && args.threshold == Number(b[18..20]) && args.normalization == if |b| == 20 then 0 else Number(b[20..22])
  }

  lemma FieldIsSlice(b: seq<Byte>, i: nat, n: nat)
    requires i + n <= |b|
    ensures Field(b, i, n) == b[i..i + n]
  {
    forall j | 0 <= j < n ensures Field(b, i, n)[j] == b[i..i + n][j] { assert Get(b, i + j) == b[i + j]; }
  }

  lemma ArgsAreSaid(b: seq<Byte>)
    requires |b| == 20 || |b| >= 22
    ensures BlockSays(ArgsOf(b), b)
  {
    FieldIsSlice(b, 0, 8);
    FieldIsSlice(b, 8, 8);
    FieldIsSlice(b, 18, 2);
    if |b| > 20 { FieldIsSlice(b, 20, 2); }
  }

  /** The task that a packet and its argument block ask for. */
  predicate TaskSays(task: Task, kp: KernelPacket, b: seq<Byte>) {
    && |b| >= 20 && task.kernel == kp.kernelObject % 0x1_0000 && task.sizeX == kp.gridX && task.sizeY == kp.gridY
    && task.colorModel == b[16] && task.border == b[17] && task.threshold == Number(b[18..20])
    && Scales(task.kernel, task.normalization, if |b| >= 22 then Number(b[20..22]) else 0)
    && (kp.kernelObject == 0x31 ==> |b| == 60 && task.mask == b[20..56])
    && (kp.kernelObject == 0x32 ==> |b| == 124 && task.mask == b[20..120])
    && (task.kernel != 0x31 && task.kernel != 0x32 ==> task.mask == [])
  }

  lemma TaskIsSaid(kp: KernelPacket, b: seq<Byte>)
    requires |b| == KernargSize(kp.kernelObject)
    ensures TaskSays(TaskFor(kp, b), kp, b)
  {
    ArgsAreSaid(b);
    NormalizationScales(kp.kernelObject % 0x1_0000, ArgsOf(b));
    if kp.kernelObject == 0x31 { FieldIsSlice(b, 20, 36); }
    if kp.kernelObject == 0x32 { FieldIsSlice(b, 20, 100); }
  }

  /** The transferred size is the image's size, and short enough for the copy loop to end, exactly below 2^31 bytes. */
  lemma ImageSizeExact(kp: KernelPacket, colorModel: nat)
    ensures ImageSize(kp, colorModel) == PixelBytes(kp, colorModel) && ImageSize(kp, colorModel) < 0x8_0000_0000
      <==> PixelBytes(kp, colorModel) < 0x8000_0000
  {
    AreaWraps(kp.gridX * kp.gridY, PixelStorage(colorModel));
  }

  lemma AreaWraps(area: nat, storage: nat)
    requires 1 <= storage <= 3
    ensures area % WORD * storage % WORD == area * storage % WORD
  {
    var q, r := area / WORD, area % WORD;
    DivModWitness(area, WORD);
    var c, e := r * storage / WORD, r * storage % WORD;
    DivModWitness(r * storage, WORD);
    assert area * storage == (q * storage + c) * WORD + e;
    DivModUnique(area * storage, WORD, q * storage + c, e);
  }
}
