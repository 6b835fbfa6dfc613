/** Where the data of a packet that ends came from, over whole runs of the system. */
module DataOrigin {
  import opened Bits
  import opened Memory
  import opened Dma
  import opened Protocol
  import opened LaunchMeaning
  import opened SlotSafety
  import opened AqlEntries
  import opened EndToEnd
  import opened DataSteps
  import opened DataFlow

  /** At step j the DMA engine copies for slot x, whose packet is at the given stage. */
  ghost predicate CopiesFor(z: System, step: Step, x: Slot, status: Status) {
    step.Copies? && z.p.dma.Some? && z.p.dma.value.slot == x && x < |z.p.info| && z.p.info[x].status == status
  }

  /** The packet in slot x at z is the one that is there at z'. */
  ghost predicate SamePacket(z: System, z': System, x: Slot) {
    x < |z.p.info| == |z'.p.info| && InFlight(z.p, x) && z.p.info[x].num == z'.p.info[x].num && Kp(z, x) == Kp(z', x)
  }

  /** What is recorded as the argument block at z' was read from the packet's argument address at z. */
  ghost predicate ArgsFrom(z: System, step: Step, z': System, x: Slot) {
    && CopiesFor(z, step, x, GetKernarg) && SamePacket(z, z', x)
    && Rec(z', x).kernargs == Bytes(z.mem, Kp(z', x).kernargAddress, ArgSize(z', x))
  }

  /** What is recorded as the image at z' was read from the source address at z. */
  ghost predicate ImageFrom(z: System, step: Step, z': System, x: Slot) {
    && CopiesFor(z, step, x, GetImage) && SamePacket(z, z', x)
    && Rec(z', x).image == Bytes(z.mem, Args(z', x).src, Size(z', x))
  }

  /** The packet is the same and what was loaded for it is unchanged. */
  ghost predicate Carries(z: System, z': System, x: Slot) {
    SamePacket(z, z', x) && Rec(z', x).kernargs == Rec(z, x).kernargs && Rec(z', x).image == Rec(z, x).image
  }

  lemma ArgsCarried(z: System, step: Step, y: System, y': System, x: Slot)
    requires ArgsFrom(z, step, y, x) && SamePacket(y, y', x) && Rec(y', x).kernargs == Rec(y, x).kernargs
    ensures ArgsFrom(z, step, y', x)
  {
  }

  lemma ImageCarried(z: System, step: Step, y: System, y': System, x: Slot)
    requires ImageFrom(z, step, y, x) && Carries(y, y', x)
    ensures ImageFrom(z, step, y', x)
  {
  }

  lemma PacketStays(z: System, step: Step, x: Slot, f: Kernel)
    requires Ready(z, f) && CanStep(z, step) && InFlight(z.p, x)
    ensures SamePacket(z, After(z, step, f), x)
  {
    match step
    case Internal(e) =>
      PacketStable(z.p, e, x);
      InternalShape(z, e, x);
      KpKept(z, AfterInternal(z, e), e, x);
      InfoTouched(z.p, e, x);
    case _ =>
  }

  /** A step that copies nothing for the packet carries everything on, and does not add to what is on board. */
  lemma StepCarries(z: System, step: Step, x: Slot, f: Kernel)
    requires Ready(z, f) && CanStep(z, step) && InFlight(z.p, x) && InFlight(After(z, step, f).p, x)
    requires step.Copies? ==> z.p.dma.value.slot != x
    ensures var z' := After(z, step, f);
      Carries(z, z', x) && (PhaseOf(z', x) >= 1 ==> PhaseOf(z, x) >= 1) && (PhaseOf(z', x) >= 2 ==> PhaseOf(z, x) >= 2)
  {
    PacketStays(z, step, x, f);
    RecordStays(z, step, x, f);
    PhasesCarry(z, step, x, f);
  }

  /** The phase advances only by a copy for the packet or by a computation, and no other step loads anything. */
  lemma PhasesCarry(z: System, step: Step, x: Slot, f: Kernel)
    requires Ready(z, f) && CanStep(z, step) && InFlight(z.p, x) && InFlight(After(z, step, f).p, x)
    requires step.Copies? ==> z.p.dma.value.slot != x
    ensures var z' := After(z, step, f);
      (PhaseOf(z', x) >= 1 ==> PhaseOf(z, x) >= 1) && (PhaseOf(z', x) >= 2 ==> PhaseOf(z, x) >= 2)
  {
    match step
    case Internal(e) =>
      HistoryKept(z, e);
      PhaseKept(z, e, x);
    case Copies => OtherPhases(z, x);
    case Computes(c) => ComputeCarries(z, c, x, f);
    case Decrements => SamePhases(z, AfterDecrement(z), x);
    case HostWrites(a, v) => SamePhases(z, z.(mem := Write(z.mem, a, [v])), x);
  }

  /** A core computes on what is on board. */
  lemma ComputeCarries(z: System, c: nat, x: Slot, f: Kernel)
    requires Ready(z, f) && CanStep(z, Computes(c)) && InFlight(z.p, x)
    ensures var z' := AfterCompute(z, c, f);
      (PhaseOf(z', x) >= 1 ==> PhaseOf(z, x) >= 1) && (PhaseOf(z', x) >= 2 ==> PhaseOf(z, x) >= 2)
  {
    ComputePhases(z, c, f, x);
    if x == z.p.cores[c].value.slot { NotYetServed(z, c); assert z.p.info[x].status == Processing; }
  }

  /** A copy for the packet is the origin of what is recorded. */
  lemma CopyIsOrigin(z: System, x: Slot, f: Kernel)
    requires Ready(z, f) && CanStep(z, Copies) && z.p.dma.value.slot == x
    ensures var z' := AfterCopy(z);
      && InFlight(z.p, x) && SamePacket(z, z', x)
      && (z.p.info[x].status == GetKernarg ==> ArgsFrom(z, Copies, z', x) && PhaseOf(z', x) == 1)
      && (z.p.info[x].status == GetImage ==>
            ImageFrom(z, Copies, z', x) && Rec(z', x).kernargs == Rec(z, x).kernargs && PhaseOf(z, x) == 1)
      && (z.p.info[x].status == StoreImage ==> Rec(z', x) == Rec(z, x) && PhaseOf(z, x) == 3)
      && z.p.info[x].status in {GetKernarg, GetImage, StoreImage}
  {
    EngineRequest(z, f);
    RecordIsLoaded(z, f);
  }

  ghost predicate HasArgs(zs: seq<System>, steps: seq<Step>, z: System, x: Slot, i: nat) {
    i <= |zs| && i <= |steps| && exists j :: 0 <= j < i && ArgsFrom(zs[j], steps[j], z, x)
  }

  ghost predicate HasPicture(zs: seq<System>, steps: seq<Step>, z: System, x: Slot, i: nat) {
    i <= |zs| && i <= |steps| && exists j :: 0 <= j < i && ImageFrom(zs[j], steps[j], z, x)
  }

  /** What is on board for the packet at z, state i of the run, was read by earlier steps. */
  ghost predicate Origins(zs: seq<System>, steps: seq<Step>, z: System, x: Slot, i: nat)
    requires x < |z.p.info|
  {
    && (PhaseOf(z, x) >= 1 ==> HasArgs(zs, steps, z, x, i))
    && (PhaseOf(z, x) >= 2 ==> HasPicture(zs, steps, z, x, i))
  }

  lemma ArgsGoOn(zs: seq<System>, steps: seq<Step>, z: System, z': System, x: Slot, i: nat)
    requires i < |zs| && i < |steps| && HasArgs(zs, steps, z, x, i)
    requires SamePacket(z, z', x) && Rec(z', x).kernargs == Rec(z, x).kernargs
    ensures HasArgs(zs, steps, z', x, i + 1)
  {
    var j :| 0 <= j < i && ArgsFrom(zs[j], steps[j], z, x);
    ArgsCarried(zs[j], steps[j], z, z', x);
  }

  lemma PictureGoesOn(zs: seq<System>, steps: seq<Step>, z: System, z': System, x: Slot, i: nat)
    requires i < |zs| && i < |steps| && HasPicture(zs, steps, z, x, i) && Carries(z, z', x)
    ensures HasPicture(zs, steps, z', x, i + 1)
  {
    var j :| 0 <= j < i && ImageFrom(zs[j], steps[j], z, x);
    ImageCarried(zs[j], steps[j], z, z', x);
  }

  lemma NewPacketEmpty(z: System, e: Event, x: Slot, f: Kernel)
    requires Ready(z, f) && CanStep(z, Internal(e)) && InFlight(AfterInternal(z, e).p, x) && !InFlight(z.p, x)
    ensures x < |AfterInternal(z, e).p.info| && PhaseOf(AfterInternal(z, e), x) == 0
  {
    FlightBefore(z.p, e, x);
    DispatchPhase(z);
  }

  /** The copy itself. */
  lemma CopyOrigins(zs: seq<System>, steps: seq<Step>, x: Slot, i: nat, f: Kernel)
    requires i < |zs| && i < |steps| && Ready(zs[i], f) && steps[i].Copies? && CanStep(zs[i], Copies) && zs[i].p.dma.value.slot == x
    requires InFlight(zs[i].p, x) && Origins(zs, steps, zs[i], x, i)
    ensures Origins(zs, steps, AfterCopy(zs[i]), x, i + 1)
  {
    var z, z' := zs[i], AfterCopy(zs[i]);
    CopyIsOrigin(z, x, f);
    match z.p.info[x].status
    case GetKernarg => assert ArgsFrom(zs[i], steps[i], z', x);
    case GetImage =>
      assert ImageFrom(zs[i], steps[i], z', x);
      ArgsGoOn(zs, steps, z, z', x, i);
    case _ =>
      ArgsGoOn(zs, steps, z, z', x, i);
      PictureGoesOn(zs, steps, z, z', x, i);
  }

  lemma OriginsKept(zs: seq<System>, steps: seq<Step>, x: Slot, i: nat, f: Kernel)
    requires i < |zs| && i < |steps| && Ready(zs[i], f) && CanStep(zs[i], steps[i])
    requires InFlight(After(zs[i], steps[i], f).p, x)
    requires InFlight(zs[i].p, x) ==> Origins(zs, steps, zs[i], x, i)
    ensures Origins(zs, steps, After(zs[i], steps[i], f), x, i + 1)
  {
    var z, step := zs[i], steps[i];
    var z' := After(z, step, f);
    if !InFlight(z.p, x) {
      NewPacketEmpty(z, step.e, x, f);
    } else if step.Copies? && z.p.dma.value.slot == x {
      CopyOrigins(zs, steps, x, i, f);
    } else {
      StepCarries(z, step, x, f);
      if PhaseOf(z', x) >= 1 { ArgsGoOn(zs, steps, z, z', x, i); }
      if PhaseOf(z', x) >= 2 { PictureGoesOn(zs, steps, z, z', x, i); }
    }
  }

  ghost predicate AllOrigins(zs: seq<System>, steps: seq<Step>, i: nat)
    requires i < |zs|
  {
    forall x: Slot :: InFlight(zs[i].p, x) ==> Origins(zs, steps, zs[i], x, i)
  }

  lemma OriginsAlong(zs: seq<System>, steps: seq<Step>, f: Kernel, i: nat)
    requires SystemRun(zs, steps, f) && InPlace(f) && Ready(zs[0], f) && i <= |steps|
    requires forall x: Slot :: !InFlight(zs[0].p, x)
    ensures AllOrigins(zs, steps, i)
  {
    ReadyAlong(zs, steps, f);
    for k := 0 to i
      invariant AllOrigins(zs, steps, k)
    {
      var z := zs[k + 1];
      forall x: Slot | InFlight(z.p, x) ensures Origins(zs, steps, z, x, k + 1) { OriginsKept(zs, steps, x, k, f); }
    }
  }

  lemma TracedToCopies(zs: seq<System>, steps: seq<Step>, f: Kernel, window: nat, cores: nat, queue: nat,
                       mem: Memory, i: nat, x: Slot) returns (a: nat, b: nat)
    requires queue > 0 && SystemRun(zs, steps, f) && InPlace(f) && zs[0] == InitialSystem(window, cores, queue, mem)
    requires i < |steps| && steps[i].Internal? && Ends(zs[i].p, steps[i].e, x)
    ensures a < i && b < i && x < |zs[i].p.info|
    ensures CopiesFor(zs[a], steps[a], x, GetKernarg) && SamePacket(zs[a], zs[i], x)
    ensures CopiesFor(zs[b], steps[b], x, GetImage) && SamePacket(zs[b], zs[i], x)
    ensures Ready(zs[i], f) && PacketOk(zs[i], x)
    ensures var kp := Kp(zs[i], x);
      var block := Bytes(zs[a].mem, kp.kernargAddress, KernargSize(kp.kernelObject));
      var args := ArgsOf(block);
      var size := ImageSize(kp, args.colorModel);
      && Rec(zs[i], x).kernargs == block
      && Bytes(zs[i].mem, args.dst, size) == f(TaskFor(kp, block), Bytes(zs[b].mem, args.src, size))
  {
    InitialReady(window, cores, queue, mem, f);
    ReadyAlong(zs, steps, f);
    NothingAtFirst(window, cores, queue, mem);
    OriginsAlong(zs, steps, f, i);
    EndsWithResult(zs[i], steps[i].e, x, f);
    EndingPhase(zs[i], steps[i].e, x, f);
    a, b := OriginsOf(zs, steps, zs[i], x, i);
  }

  lemma OriginsOf(zs: seq<System>, steps: seq<Step>, z: System, x: Slot, i: nat) returns (a: nat, b: nat)
    requires x < |z.p.info| && Origins(zs, steps, z, x, i) && PhaseOf(z, x) >= 2
    ensures a < i <= |zs| && b < i <= |steps| && ArgsFrom(zs[a], steps[a], z, x) && ImageFrom(zs[b], steps[b], z, x)
  {
    a :| a < i && ArgsFrom(zs[a], steps[a], z, x);
    b :| b < i && ImageFrom(zs[b], steps[b], z, x);
  }

  lemma NothingAtFirst(window: nat, cores: nat, queue: nat, mem: Memory)
    ensures forall x: Slot :: !InFlight(InitialSystem(window, cores, queue, mem).p, x)
  {
    var p := InitialSystem(window, cores, queue, mem).p;
    forall x: Slot ensures !InFlight(p, x) { if x < window { assert p.free[x] == x; } }
  }

  // ---- in terms of memory alone ----

  /** The task that packet kp and the argument block at address a ask for. */
  ghost predicate TaskAt(task: Task, kp: KernelPacket, m: Memory, a: int) {
    && task.kernel == kp.kernelObject % 0x1_0000 && task.sizeX == kp.gridX && task.sizeY == kp.gridY
    && task.colorModel == Read(m, a + 16) && task.border == Read(m, a + 17) && task.threshold == Load(m, a + 18, 2)
    && Scales(task.kernel, task.normalization, Load(m, a + 20, 2))
    && task.mask == (if task.kernel == 0x31 then Bytes(m, a + 20, 4 * (3 * 3))
                     else if task.kernel == 0x32 then Bytes(m, a + 20, 4 * (5 * 5)) else [])
  }

  lemma SliceOfBytes(m: Memory, a: int, n: nat, i: nat, k: nat)
    requires i + k <= n
    ensures Bytes(m, a, n)[i..i + k] == Bytes(m, a + i, k) && Number(Bytes(m, a, n)[i..i + k]) == Load(m, a + i, k)
  {
    var slice, part := Bytes(m, a, n)[i..i + k], Bytes(m, a + i, k);
    forall j | 0 <= j < k ensures slice[j] == part[j] { assert Bytes(m, a, n)[i + j] == Read(m, a + (i + j)); }
  }

  lemma ArgsInMemory(m: Memory, a: int, n: nat)
    requires n == 20 || n >= 22
    ensures var args := ArgsOf(Bytes(m, a, n));
      args.src == Load64(m, a) && args.dst == Load64(m, a + 8) && args.colorModel == Read(m, a + 16)
  {
    var width := 8;
    ArgsAreSaid(Bytes(m, a, n));
    SliceOfBytes(m, a, n, 0, width);
    SliceOfBytes(m, a, n, 8, width);
  }

  lemma TaskInMemory(kp: KernelPacket, m: Memory, a: int)
    requires Custom(kp.kernelObject % 0x1_0000) ==> kp.kernelObject < 0x1_0000
    ensures TaskAt(TaskFor(kp, Bytes(m, a, KernargSize(kp.kernelObject))), kp, m, a)
  {
    var n := KernargSize(kp.kernelObject);
    TaskIsSaid(kp, Bytes(m, a, n));
    SliceOfBytes(m, a, n, 18, 2);
    if n > 20 { SliceOfBytes(m, a, n, 20, 2); }
    if n == 60 { SliceOfBytes(m, a, n, 20, 36); }
    if n == 124 { SliceOfBytes(m, a, n, 20, 100); }
  }

  /** At the destination address that the argument block in m gives there is the result of the task that this block
      describes, on the image that was in n at the source address. */
  ghost predicate Delivered(now: Memory, kp: KernelPacket, m: Memory, n: Memory, task: Task, f: Kernel) {
    var at := kp.kernargAddress;
    var size := kp.gridX * kp.gridY * PixelLength(Read(m, at + 16));
    && TaskAt(task, kp, m, at)
    && Bytes(now, Load64(m, at + 8), size) == f(task, Bytes(n, Load64(m, at), size))
  }

  // ---- the completion signal ----

  /** At this step the signal of the packet that is in slot x at z' is decremented. */
  ghost predicate SendsFor(z: System, step: Step, z': System, x: Slot) {
    step.Decrements? && z.p.cmpl.Some? && z.p.cmpl.value.slot == x && SamePacket(z, z', x)
  }

  /** Before step i the packet's signal has been decremented as often as recorded: not at all, or at one step only. */
  ghost predicate SentBefore(zs: seq<System>, steps: seq<Step>, z: System, x: Slot, i: nat) {
    && i <= |zs| && i <= |steps| && Rec(z, x).signals <= 1
    && (Rec(z, x).signals == 0 ==> forall j :: 0 <= j < i ==> !SendsFor(zs[j], steps[j], z, x))
    && (Rec(z, x).signals == 1 ==> exists j :: 0 <= j < i && OnlySend(zs, steps, z, x, i, j))
  }

  ghost predicate OnlySend(zs: seq<System>, steps: seq<Step>, z: System, x: Slot, i: nat, j: nat)
    requires j < i <= |zs| && i <= |steps|
  {
    SendsFor(zs[j], steps[j], z, x) && forall k :: 0 <= k < i && SendsFor(zs[k], steps[k], z, x) ==> k == j
  }

  /** Step c, and no other before i, has decremented the packet's signal by one; none has if it has no signal. */
  ghost predicate SignalledOnce(zs: seq<System>, steps: seq<Step>, x: Slot, i: nat, c: nat)
    requires i < |steps| && i < |zs|
  {
    var signal := Kp(zs[i], x).signal;
    if signal == 0 then forall j :: 0 <= j < i ==> !SendsFor(zs[j], steps[j], zs[i], x)
    else c < i && OnlySend(zs, steps, zs[i], x, i, c) && OneLess(zs[c].mem, zs[c + 1].mem, signal)
  }

  lemma SendsSame(z: System, step: Step, y: System, y': System, x: Slot)
    requires SamePacket(y, y', x)
    ensures SendsFor(z, step, y, x) <==> SendsFor(z, step, y', x)
  {
  }

  /** No earlier step was for a packet that has only now been dispatched. */
  lemma NotSentBefore(z: System, step: Step, y: System, x: Slot)
    requires EntriesInv(z.p) && x < |y.p.info| && z.p.current <= y.p.info[x].num
    ensures !SendsFor(z, step, y, x)
  {
    if InFlight(z.p, x) { assert OwnEntry(z.p, x); }
  }

  /** How a step changes the number of decrements recorded for a packet in flight. */
  lemma SignalsCount(z: System, step: Step, x: Slot, f: Kernel)
    requires Ready(z, f) && CanStep(z, step) && InFlight(z.p, x)
    ensures var z' := After(z, step, f);
      && SamePacket(z, z', x)
      && Rec(z', x).signals == Rec(z, x).signals + (if SendsFor(z, step, z', x) then 1 else 0)
      && (SendsFor(z, step, z', x) ==> Rec(z, x).signals == 0)
  {
    PacketStays(z, step, x, f);
    assert Holding(z, x, PhaseOf(z, x), f);
    if step.Internal? { InternalShape(z, step.e, x); }
  }

  lemma DispatchedNow(z: System, e: Event, x: Slot, f: Kernel)
    requires Ready(z, f) && CanStep(z, Internal(e)) && InFlight(AfterInternal(z, e).p, x) && !InFlight(z.p, x)
    ensures x < |AfterInternal(z, e).p.info| && AfterInternal(z, e).p.info[x].num == z.p.current
    ensures Rec(AfterInternal(z, e), x).signals == 0
  {
    FlightBefore(z.p, e, x);
  }

  lemma SentKept(zs: seq<System>, steps: seq<Step>, x: Slot, i: nat, f: Kernel)
    requires i < |zs| && i < |steps| && Ready(zs[i], f) && CanStep(zs[i], steps[i])
    requires forall j :: 0 <= j <= i ==> EntriesInv(zs[j].p) && zs[j].p.current <= zs[i].p.current
    requires InFlight(After(zs[i], steps[i], f).p, x)
    requires InFlight(zs[i].p, x) ==> SentBefore(zs, steps, zs[i], x, i)
    ensures SentBefore(zs, steps, After(zs[i], steps[i], f), x, i + 1)
  {
    var z, z' := zs[i], After(zs[i], steps[i], f);
    if !InFlight(z.p, x) {
      DispatchedNow(z, steps[i].e, x, f);
      NeverSent(zs, steps, z', x, i);
    } else {
      SignalsCount(z, steps[i], x, f);
      SentGoesOn(zs, steps, z, z', x, i);
    }
  }

  lemma NeverSent(zs: seq<System>, steps: seq<Step>, y: System, x: Slot, i: nat)
    requires i < |zs| && i < |steps| && x < |y.p.info| && Rec(y, x).signals == 0
    requires forall j :: 0 <= j <= i ==> EntriesInv(zs[j].p) && zs[j].p.current <= y.p.info[x].num
    ensures SentBefore(zs, steps, y, x, i + 1)
  {
    forall j | 0 <= j < i + 1 ensures !SendsFor(zs[j], steps[j], y, x) { NotSentBefore(zs[j], steps[j], y, x); }
  }

  lemma SentGoesOn(zs: seq<System>, steps: seq<Step>, z: System, z': System, x: Slot, i: nat)
    requires i < |zs| && i < |steps| && SentBefore(zs, steps, z, x, i) && SamePacket(z, z', x)
    requires Rec(z', x).signals == Rec(z, x).signals + (if SendsFor(zs[i], steps[i], z', x) then 1 else 0)
    requires SendsFor(zs[i], steps[i], z', x) ==> Rec(z, x).signals == 0
    ensures SentBefore(zs, steps, z', x, i + 1)
  {
    forall j | 0 <= j < i ensures SendsFor(zs[j], steps[j], z', x) <==> SendsFor(zs[j], steps[j], z, x) {
      SendsSame(zs[j], steps[j], z, z', x);
    }
    if SendsFor(zs[i], steps[i], z', x) {
      assert OnlySend(zs, steps, z', x, i + 1, i);
    } else if Rec(z, x).signals == 1 {
      var j :| 0 <= j < i && OnlySend(zs, steps, z, x, i, j);
      assert OnlySend(zs, steps, z', x, i + 1, j);
    }
  }

  lemma CounterNeverFalls(z: System, step: Step, f: Kernel)
    requires Ready(z, f) && CanStep(z, step)
    ensures z.p.current <= After(z, step, f).p.current
  {
    if step.Internal? { HistoryKept(z, step.e); }
  }

  lemma SentAlong(zs: seq<System>, steps: seq<Step>, f: Kernel, i: nat)
    requires SystemRun(zs, steps, f) && InPlace(f) && Ready(zs[0], f) && i <= |steps|
    requires forall x: Slot :: !InFlight(zs[0].p, x)
    ensures forall x: Slot :: InFlight(zs[i].p, x) ==> SentBefore(zs, steps, zs[i], x, i)
  {
    ReadyAlong(zs, steps, f);
    for k := 0 to i
      invariant forall j :: 0 <= j <= k ==> EntriesInv(zs[j].p) && zs[j].p.current <= zs[k].p.current
      invariant forall x: Slot :: InFlight(zs[k].p, x) ==> SentBefore(zs, steps, zs[k], x, k)
    {
      CounterNeverFalls(zs[k], steps[k], f);
      var z := zs[k + 1];
      forall x: Slot | InFlight(z.p, x) ensures SentBefore(zs, steps, z, x, k + 1) { SentKept(zs, steps, x, k, f); }
    }
  }

  /** The word at the packet's signal after the step that is for it. */
  lemma SendDecrements(z: System, step: Step, z': System, x: Slot, f: Kernel)
    requires Ready(z, f) && CanStep(z, step) && SendsFor(z, step, z', x)
    ensures Kp(z', x).signal != 0 && OneLess(z.mem, After(z, step, f).mem, Kp(z', x).signal)
  {
    assert DecExpected(z, z.p.cmpl.value);
    DecrementedOnce(z.mem, z.p.cmpl.value.signal);
  }

  /** In every run, for every packet that ends: at some earlier step a the DMA engine copied the argument block from the
      packet's argument address; at some earlier step b it copied the image from the source address that this block held
      in its first eight bytes at step a; and what is now at the destination address from its next eight bytes is the
      kernel's result on that image for the task that the block described. If the packet has a completion signal, exactly
      one step c decremented the word there for it, and no step did if it has none. */
  lemma EveryPacketDeliversItsImage(zs: seq<System>, steps: seq<Step>, f: Kernel, window: nat, cores: nat, queue: nat,
                                    mem: Memory, i: nat, x: Slot) returns (a: nat, b: nat, c: nat, task: Task)
    requires queue > 0 && SystemRun(zs, steps, f) && InPlace(f) && zs[0] == InitialSystem(window, cores, queue, mem)
    requires i < |steps| && steps[i].Internal? && Ends(zs[i].p, steps[i].e, x)
    ensures a < i && b < i && c <= i && x < |zs[i].p.info|
    ensures CopiesFor(zs[a], steps[a], x, GetKernarg) && SamePacket(zs[a], zs[i], x)
    ensures CopiesFor(zs[b], steps[b], x, GetImage) && SamePacket(zs[b], zs[i], x)
    ensures zs[a].p.dma.value.host == Kp(zs[i], x).kernargAddress
    ensures zs[a].p.dma.value.size == BlockLength(Kp(zs[i], x).kernelObject)
    ensures Delivered(zs[i].mem, Kp(zs[i], x), zs[a].mem, zs[b].mem, task, f)
    ensures SignalledOnce(zs, steps, x, i, c)
  {
    a, b := TracedToCopies(zs, steps, f, window, cores, queue, mem, i, x);
    RequestOfFetch(zs, steps, f, window, cores, queue, mem, a, x);
    task := ResultInMemory(zs[i], zs[a].mem, zs[b].mem, x, f);
    c := SentAtEnd(zs, steps, f, window, cores, queue, mem, i, x);
  }

  /** The copy of the argument block is from the packet's argument address and of the block's length. */
  lemma RequestOfFetch(zs: seq<System>, steps: seq<Step>, f: Kernel, window: nat, cores: nat, queue: nat, mem: Memory, a: nat, x: Slot)
    requires queue > 0 && SystemRun(zs, steps, f) && InPlace(f) && zs[0] == InitialSystem(window, cores, queue, mem)
    requires a < |steps| && CopiesFor(zs[a], steps[a], x, GetKernarg)
    ensures zs[a].p.dma.value.host == Kp(zs[a], x).kernargAddress
    ensures zs[a].p.dma.value.size == BlockLength(Kp(zs[a], x).kernelObject)
  {
    InitialReady(window, cores, queue, mem, f);
    ReadyAlong(zs, steps, f);
    EngineRequest(zs[a], f);
    LengthsAreRight(Kp(zs[a], x).kernelObject, 0);
  }

  /** The result, with all that the argument block says read from memory m, and the image from memory n. */
  lemma ResultInMemory(z: System, m: Memory, n: Memory, x: Slot, f: Kernel) returns (task: Task)
    requires x < |z.p.info| && PacketOk(z, x) && Rec(z, x).kernargs == Bytes(m, Kp(z, x).kernargAddress, KernargSize(Kp(z, x).kernelObject))
    requires var kp, block := Kp(z, x), Rec(z, x).kernargs;
      var args := ArgsOf(block);
      var size := ImageSize(kp, args.colorModel);
      Bytes(z.mem, args.dst, size) == f(TaskFor(kp, block), Bytes(n, args.src, size))
    ensures Delivered(z.mem, Kp(z, x), m, n, task, f)
  {
    var kp := Kp(z, x);
    LengthsAreRight(kp.kernelObject, Read(m, kp.kernargAddress + 16));
    ArgsInMemory(m, kp.kernargAddress, KernargSize(kp.kernelObject));
    TaskInMemory(kp, m, kp.kernargAddress);
    ImageSizeExact(kp, Args(z, x).colorModel);
    task := TaskFor(kp, Bytes(m, kp.kernargAddress, KernargSize(kp.kernelObject)));
  }

  lemma SentAtEnd(zs: seq<System>, steps: seq<Step>, f: Kernel, window: nat, cores: nat, queue: nat, mem: Memory, i: nat, x: Slot)
    returns (c: nat)
    requires queue > 0 && SystemRun(zs, steps, f) && InPlace(f) && zs[0] == InitialSystem(window, cores, queue, mem)
    requires i < |steps| && steps[i].Internal? && Ends(zs[i].p, steps[i].e, x)
    ensures c <= i && SignalledOnce(zs, steps, x, i, c)
  {
    InitialReady(window, cores, queue, mem, f);
    ReadyAlong(zs, steps, f);
    NothingAtFirst(window, cores, queue, mem);
    SentAlong(zs, steps, f, i);
    EndingPhase(zs[i], steps[i].e, x, f);
    EndsWithResult(zs[i], steps[i].e, x, f);
    assert SentBefore(zs, steps, zs[i], x, i);
    c := i;
    if Kp(zs[i], x).signal != 0 {
      c :| 0 <= c < i && OnlySend(zs, steps, zs[i], x, i, c);
      SendDecrements(zs[c], steps[c], zs[i], x, f);
    }
  }
}
