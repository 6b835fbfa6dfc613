/** The devices' steps, and what holds over whole runs of the system: a packet that ends has left the kernel's result
    in host memory and has had its signal decremented once. */
module DataFlow {
  import opened Options
  import opened Memory
  import opened Dma
  import opened Protocol
  import opened LaunchMeaning
  import opened SlotSafety
  import opened AqlEntries
  import opened Buffers
  import opened EndToEnd
  import opened DataSteps

  /** A core's result is as long as its image. */
  ghost predicate InPlace(f: Kernel) { forall t: Task, b: seq<Byte> :: |f(t, b)| == |b| }

  /** A write that misses everything slot y relies on at phase ph. */
  ghost predicate Misses(z: System, y: Slot, ph: nat, a: int, n: nat)
    requires y < |z.p.info|
  {
    && (ph >= 1 ==> Disjoint(a, n, z.p.info[y].kernarg, ArgSize(z, y)))
    && (2 <= ph <= 3 ==> Disjoint(a, n, z.p.info[y].image, Size(z, y)))
    && (ph == 4 ==> Disjoint(a, n, Args(z, y).dst, Size(z, y)))
  }

  lemma HoldingApart(z: System, z': System, y: Slot, ph: nat, a: int, s: seq<Byte>, f: Kernel)
    requires y < |z.p.info| && Holding(z, y, ph, f) && Misses(z, y, ph, a, |s|)
    requires z'.p == z.p && z'.mem == Write(z.mem, a, s) && Rec(z', y) == Rec(z, y) && (SignalSent(z', y) <==> SignalSent(z, y))
    ensures Holding(z', y, ph, f)
  {
    if ph >= 1 { BytesApart(z.mem, a, s, z.p.info[y].kernarg, ArgSize(z, y)); }
    if 2 <= ph <= 3 { BytesApart(z.mem, a, s, z.p.info[y].image, Size(z, y)); }
    if ph == 4 { BytesApart(z.mem, a, s, Args(z, y).dst, Size(z, y)); }
  }

  lemma ImageFromPhaseTwo(z: System, y: Slot)
    requires y < |z.p.info| && PhaseOf(z, y) >= 2
    ensures HasImage(z.p, y)
  {
  }

  /** A write into one packet's block misses all that another relies on. */
  lemma BlockMissesOther(z: System, x: Slot, a: Address, n: nat, y: Slot, f: Kernel)
    requires Ready(z, f) && HostOk(z) && InFlight(z.p, x) && InFlight(z.p, y) && x != y
    requires a in Holds(z.p, x) && z.p.heap[a] == n
    ensures Misses(z, y, PhaseOf(z, y), a, n)
  {
    assert Live(z.p, x) && Live(z.p, y) && Separate(z.p, x, y) && BlockSizes(z, y);
    if PhaseOf(z, y) >= 2 { ImageFromPhaseTwo(z, y); }
    if PhaseOf(z, y) == 4 { assert PacketOk(z, y); }
  }

  /** A write into host memory misses all blocks. */
  lemma HostMisses(z: System, y: Slot, a: int, n: nat, f: Kernel)
    requires Ready(z, f) && HostOk(z) && InFlight(z.p, y) && InHost(a, n)
    requires PhaseOf(z, y) == 4 ==> DstApart(z, y, a, n)
    ensures Misses(z, y, PhaseOf(z, y), a, n)
  {
    assert Live(z.p, y) && BlockSizes(z, y);
    if PhaseOf(z, y) >= 2 { ImageFromPhaseTwo(z, y); }
  }

  /** The invariant without the contents of memory. */
  ghost predicate Frame(z: System) {
    Sound(z.p) && |z.hist| == |z.p.info| && BlocksInv(z) && RequestsOk(z)
  }

  /** Only the memory, the flags of the devices and one packet's record differ. */
  ghost predicate DeviceStep(z: System, z': System, x: Slot) {
    && z'.p == z.p && z'.tasks == z.tasks && |z'.computed| == |z.computed| && |z'.hist| == |z.hist|
    && (forall y: Slot :: y < |z.p.info| && y != x ==> Rec(z', y) == Rec(z, y))
    && (Rec(z', x).kernargs == Rec(z, x).kernargs || (z.p.dma.Some? && z.p.dma.value.slot == x && x < |z.p.info| && !HasImage(z.p, x)))
  }

  lemma DeviceExpected(z: System, z': System, x: Slot, y: Slot)
    requires DeviceStep(z, z', x) && y < |z.p.info|
    requires y != x || Rec(z', x).kernargs == Rec(z, x).kernargs
    ensures ExpectedDma(z', y) == ExpectedDma(z, y) && ExpectedLaunch(z', y) == ExpectedLaunch(z, y) && Kp(z', y) == Kp(z, y)
  {
  }

  lemma DeviceRequests(z: System, z': System, x: Slot)
    requires Frame(z) && DeviceStep(z, z', x)
    ensures RequestsOk(z')
  {
    if z.p.dma.Some? { DmaAlone(z.p); }
    forall i | 0 <= i < |z.p.dmaQ| ensures DmaExpected(z', z'.p.dmaQ[i]) { DeviceExpected(z, z', x, z.p.dmaQ[i].slot); }
    forall i | 0 <= i < |z.p.launchQ| ensures LaunchExpected(z', z'.p.launchQ[i]) { DeviceExpected(z, z', x, z.p.launchQ[i].slot); }
    forall c | 0 <= c < |z.p.cores| && z.p.cores[c].Some? ensures CoreExpected(z', c) {
      assert CoreExpected(z, c);
      DeviceExpected(z, z', x, z.p.cores[c].value.slot);
    }
    forall i | 0 <= i < |z.p.decQ| ensures DecExpected(z', z'.p.decQ[i]) { assert DecExpected(z, z.p.decQ[i]); }
  }

  lemma DeviceFrame(z: System, z': System, x: Slot)
    requires Frame(z) && DeviceStep(z, z', x)
    ensures Frame(z')
  {
    DeviceRequests(z, z', x);
    forall y: Slot | InFlight(z'.p, y) ensures BlockSizes(z', y) { assert BlockSizes(z, y); }
  }

  /** Which request the engine has, and where its packet stands. */
  lemma EngineRequest(z: System, f: Kernel)
    requires Ready(z, f) && z.p.dma.Some?
    ensures var x := z.p.dma.value.slot;
      && InFlight(z.p, x) && z.p.dma.value == ExpectedDma(z, x) && Live(z.p, x) && BlockSizes(z, x)
      && z.p.info[x].status in {GetKernarg, GetImage, StoreImage}
  {
    DmaAlone(z.p);
    assert DmaExpected(z, z.p.dma.value);
    assert InFlight(z.p, z.p.dma.value.slot);
  }

  lemma OtherPhases(z: System, y: Slot)
    requires z.p.dma.Some? && !z.dmaDone && y < |z.p.info| && y != z.p.dma.value.slot
    ensures PhaseOf(AfterCopy(z), y) == PhaseOf(z, y)
  {
    SameServes(z, AfterCopy(z), y);
  }

  /** The arguments arrive. */
  lemma CopyKernarg(z: System, f: Kernel)
    requires Ready(z, f) && HostOk(z) && CanStep(z, Copies) && z.p.info[z.p.dma.value.slot].status == GetKernarg
    ensures DeviceStep(z, AfterCopy(z), z.p.dma.value.slot) && AllHolding(AfterCopy(z), f)
  {
    var z', x, r := AfterCopy(z), z.p.dma.value.slot, z.p.dma.value;
    EngineRequest(z, f);
    var loaded := Bytes(z.mem, r.host, r.size);
    BytesWritten(z.mem, r.device, loaded);
    forall y: Slot | InFlight(z'.p, y) ensures Holding(z', y, PhaseOf(z', y), f) {
      if y != x {
        OtherPhases(z, y);
        BlockMissesOther(z, x, r.device, r.size, y, f);
        HoldingApart(z, z', y, PhaseOf(z, y), r.device, loaded, f);
      } else {
        assert Holding(z, x, PhaseOf(z, x), f);
      }
    }
  }

  /** The image arrives. */
  lemma CopyImage(z: System, f: Kernel)
    requires Ready(z, f) && HostOk(z) && CanStep(z, Copies) && z.p.info[z.p.dma.value.slot].status == GetImage
    ensures DeviceStep(z, AfterCopy(z), z.p.dma.value.slot) && AllHolding(AfterCopy(z), f)
  {
    var z', x, r := AfterCopy(z), z.p.dma.value.slot, z.p.dma.value;
    EngineRequest(z, f);
    var loaded := Bytes(z.mem, r.host, r.size);
    BytesWritten(z.mem, r.device, loaded);
    forall y: Slot | InFlight(z'.p, y) ensures Holding(z', y, PhaseOf(z', y), f) {
      if y != x {
        OtherPhases(z, y);
        BlockMissesOther(z, x, r.device, r.size, y, f);
        HoldingApart(z, z', y, PhaseOf(z, y), r.device, loaded, f);
      } else {
        assert Holding(z, x, PhaseOf(z, x), f);
        BytesApart(z.mem, r.device, loaded, z.p.info[x].kernarg, ArgSize(z, x));
      }
    }
  }

  /** The engine stores the result of slot x. */
  ghost predicate Stores(z: System, x: Slot) {
    CanStep(z, Copies) && z.p.dma.value.slot == x && x < |z.p.info| && z.p.info[x].status == StoreImage
  }

  lemma StoreRequest(z: System, x: Slot, f: Kernel)
    requires Ready(z, f) && HostOk(z) && Stores(z, x)
    ensures InFlight(z.p, x) && PhaseOf(z, x) == 3 && PacketOk(z, x) && z.p.dma.value == ExpectedDma(z, x)
    ensures Live(z.p, x) && BlockSizes(z, x) && Holding(z, x, 3, f)
  {
    EngineRequest(z, f);
    assert Holding(z, x, PhaseOf(z, x), f);
  }

  lemma StoreMissesOther(z: System, x: Slot, y: Slot, f: Kernel)
    requires Ready(z, f) && HostOk(z) && Stores(z, x) && InFlight(z.p, y) && y != x
    ensures Misses(z, y, PhaseOf(z, y), Args(z, x).dst, Size(z, x))
  {
    StoreRequest(z, x, f);
    HostMisses(z, y, Args(z, x).dst, Size(z, x), f);
  }

  lemma OwnResult(z: System, z': System, x: Slot, f: Kernel)
    requires x < |z.p.info| && Holding(z, x, 3, f) && z'.p == z.p && z'.hist == z.hist && z'.sent == z.sent
    requires z'.mem == Copy(z.mem, Args(z, x).dst, z.p.info[x].image, Size(z, x))
    requires Disjoint(Args(z, x).dst, Size(z, x), z.p.info[x].kernarg, ArgSize(z, x))
    ensures Holding(z', x, 4, f)
  {
    var moved := Bytes(z.mem, z.p.info[x].image, Size(z, x));
    BytesWritten(z.mem, Args(z, x).dst, moved);
    BytesApart(z.mem, Args(z, x).dst, moved, z.p.info[x].kernarg, ArgSize(z, x));
  }

  /** The result is stored. */
  lemma CopyResult(z: System, f: Kernel)
    requires Ready(z, f) && HostOk(z) && CanStep(z, Copies) && z.p.info[z.p.dma.value.slot].status == StoreImage
    ensures DeviceStep(z, AfterCopy(z), z.p.dma.value.slot) && AllHolding(AfterCopy(z), f)
  {
    var z', x := AfterCopy(z), z.p.dma.value.slot;
    StoreRequest(z, x, f);
    OwnResult(z, z', x, f);
    forall y: Slot | InFlight(z'.p, y) ensures Holding(z', y, PhaseOf(z', y), f) {
      if y != x {
        OtherPhases(z, y);
        StoreMissesOther(z, x, y, f);
        HoldingApart(z, z', y, PhaseOf(z, y), Args(z, x).dst, Bytes(z.mem, z.p.info[x].image, Size(z, x)), f);
      }
    }
  }

  lemma NotYetServed(z: System, c: nat)
    requires OnePlaceEach(z.p) && CanStep(z, Computes(c))
    ensures !CoreServed(z, z.p.cores[c].value.slot)
  {
    CoreAlone(z.p, c);
    var x, others := z.p.cores[c].value.slot, z.p.cores[c := None];
    forall d | 0 <= d < |z.p.cores| && d < |z.computed| && z.computed[d] && z.p.cores[d].Some?
      ensures z.p.cores[d].value.slot != x
    {
      assert others[d] == z.p.cores[d];
    }
  }

  lemma ComputeShape(z: System, c: nat, f: Kernel)
    requires Ready(z, f) && HostOk(z) && CanStep(z, Computes(c))
    ensures var r, x := z.p.cores[c].value, z.p.cores[c].value.slot;
      && InFlight(z.p, x) && z.p.info[x].status == Processing && PhaseOf(z, x) == 2 && Live(z.p, x) && BlockSizes(z, x)
      && r.src == r.dst == z.p.info[x].image && BytesAtCore(r) == Size(z, x) && z.tasks[c] == TaskFor(Kp(z, x), Rec(z, x).kernargs)
  {
    var x := z.p.cores[c].value.slot;
    CoreAlone(z.p, c);
    assert CoreExpected(z, c);
    NotYetServed(z, c);
    assert InFlight(z.p, x) && PacketOk(z, x);
    ImageSizeExact(Kp(z, x), Args(z, x).colorModel);
  }

  lemma ComputePhases(z: System, c: nat, f: Kernel, y: Slot)
    requires Ready(z, f) && CanStep(z, Computes(c)) && InFlight(z.p, y)
    ensures PhaseOf(AfterCompute(z, c, f), y) == if y == z.p.cores[c].value.slot then 3 else PhaseOf(z, y)
  {
    var z', x := AfterCompute(z, c, f), z.p.cores[c].value.slot;
    if y == x {
      assert z'.computed[c] && z'.p.cores[c].value.slot == x;
      assert z.p.info[x].status == Processing;
    } else {
      OtherCores(z, z', c, y);
    }
  }

  lemma OtherCores(z: System, z': System, c: nat, y: Slot)
    requires z'.p.cores == z.p.cores && c < |z.computed| && z'.computed == z.computed[c := true]
    requires c < |z.p.cores| && z.p.cores[c].Some? && y != z.p.cores[c].value.slot
    ensures CoreServed(z', y) <==> CoreServed(z, y)
  {
    if d :| 0 <= d < |z.p.cores| && d < |z.computed| && z.computed[d] && z.p.cores[d].Some? && z.p.cores[d].value.slot == y {
      assert z'.computed[d];
    }
    if d :| 0 <= d < |z.p.cores| && d < |z.computed| && z'.computed[d] && z.p.cores[d].Some? && z.p.cores[d].value.slot == y {
      assert z.computed[d];
    }
  }

  /** A core replaces the image by the result. */
  lemma ComputeHolds(z: System, c: nat, f: Kernel)
    requires Ready(z, f) && HostOk(z) && InPlace(f) && CanStep(z, Computes(c))
    ensures DeviceStep(z, AfterCompute(z, c, f), z.p.cores[c].value.slot) && AllHolding(AfterCompute(z, c, f), f)
  {
    var z', x, r := AfterCompute(z, c, f), z.p.cores[c].value.slot, z.p.cores[c].value;
    ComputeShape(z, c, f);
    var result := f(z.tasks[c], Bytes(z.mem, r.src, BytesAtCore(r)));
    BytesWritten(z.mem, r.dst, result);
    forall y: Slot | InFlight(z'.p, y) ensures Holding(z', y, PhaseOf(z', y), f) {
      ComputePhases(z, c, f, y);
      if y != x {
        BlockMissesOther(z, x, r.dst, |result|, y, f);
        HoldingApart(z, z', y, PhaseOf(z, y), r.dst, result, f);
      } else {
        assert Holding(z, x, PhaseOf(z, x), f);
        BytesApart(z.mem, r.dst, result, z.p.info[x].kernarg, ArgSize(z, x));
      }
    }
  }

  lemma SamePhases(z: System, z': System, y: Slot)
    requires z'.p == z.p && z'.dmaDone == z.dmaDone && z'.computed == z.computed && y < |z.p.info|
    ensures PhaseOf(z', y) == PhaseOf(z, y)
  {
    SameServes(z, z', y);
  }

  lemma DecrementMisses(z: System, y: Slot, f: Kernel)
    requires Ready(z, f) && HostOk(z) && CanStep(z, Decrements) && InFlight(z.p, y)
    ensures Misses(z, y, PhaseOf(z, y), z.p.cmpl.value.signal, 8)
  {
    SignalRequest(z, f);
    HostMisses(z, y, z.p.cmpl.value.signal, 8, f);
  }

  lemma SignalRequest(z: System, f: Kernel)
    requires Ready(z, f) && HostOk(z) && CanStep(z, Decrements)
    ensures var x := z.p.cmpl.value.slot;
      InFlight(z.p, x) && PhaseOf(z, x) == 4 && PacketOk(z, x) && z.p.cmpl.value.signal == Kp(z, x).signal
  {
    CmplAlone(z.p);
    assert DecExpected(z, z.p.cmpl.value);
  }

  lemma QuietHolds(z: System, quiet: System, y: Slot, bytes: seq<Byte>, f: Kernel)
    requires Ready(z, f) && HostOk(z) && CanStep(z, Decrements) && InFlight(z.p, y) && |bytes| == 8
    requires quiet == z.(mem := Write(z.mem, z.p.cmpl.value.signal, bytes))
    ensures Holding(quiet, y, PhaseOf(z, y), f)
  {
    DecrementMisses(z, y, f);
    HoldingApart(z, quiet, y, PhaseOf(z, y), z.p.cmpl.value.signal, bytes, f);
  }

  /** The step with the bytes it writes made explicit. */
  function SignalWritten(z: System, bytes: seq<Byte>): System
    requires z.p.cmpl.Some? && z.p.cmpl.value.slot < |z.hist|
  {
    var x := z.p.cmpl.value.slot;
    z.(mem := Write(z.mem, z.p.cmpl.value.signal, bytes), sent := true,
       hist := z.hist[x := z.hist[x].(signals := z.hist[x].signals + 1)])
  }

  lemma DecrementWrites(z: System) returns (bytes: seq<Byte>)
    requires z.p.cmpl.Some? && z.p.cmpl.value.slot < |z.hist|
    ensures |bytes| == 8 && AfterDecrement(z) == SignalWritten(z, bytes)
  {
    var width := 8;
    bytes := Digits(Decrement(Load64(z.mem, z.p.cmpl.value.signal)), width);
  }

  lemma CountedHolds(z: System, quiet: System, z': System, y: Slot, bytes: seq<Byte>, f: Kernel)
    requires z.p.cmpl.Some? && !z.sent && z.p.cmpl.value.slot < |z.hist| && z' == SignalWritten(z, bytes)
    requires quiet == z.(mem := Write(z.mem, z.p.cmpl.value.signal, bytes))
    requires y < |z.p.info| == |z.hist| && Holding(quiet, y, PhaseOf(z, y), f)
    ensures Holding(z', y, PhaseOf(z', y), f)
  {
    SamePhases(z, z', y);
    SignalsCounted(quiet, z', y, PhaseOf(z, y), f);
  }

  lemma WrittenHolds(z: System, z': System, bytes: seq<Byte>, f: Kernel)
    requires Ready(z, f) && HostOk(z) && CanStep(z, Decrements) && |bytes| == 8 && z.p.cmpl.value.slot < |z.hist|
    requires z' == SignalWritten(z, bytes)
    ensures AllHolding(z', f)
  {
    var quiet := z.(mem := Write(z.mem, z.p.cmpl.value.signal, bytes));
    forall y: Slot | InFlight(z'.p, y) ensures Holding(z', y, PhaseOf(z', y), f) {
      QuietHolds(z, quiet, y, bytes, f);
      CountedHolds(z, quiet, z', y, bytes, f);
    }
  }

  /** The signal is decremented: the packets' results stay in place. */
  lemma DecrementHolds(z: System, f: Kernel)
    requires Ready(z, f) && HostOk(z) && CanStep(z, Decrements)
    ensures AllHolding(AfterDecrement(z), f)
  {
    assert z.p.cmpl.value.slot < |z.p.info|;
    var bytes := DecrementWrites(z);
    WrittenHolds(z, AfterDecrement(z), bytes, f);
  }

  lemma SignalsCounted(z: System, z': System, y: Slot, ph: nat, f: Kernel)
    requires y < |z.p.info| == |z.hist| && Holding(z, y, ph, f) && z.p.cmpl.Some? && !z.sent
    requires var x := z.p.cmpl.value.slot;
      x < |z.hist| && z' == z.(sent := true, hist := z.hist[x := z.hist[x].(signals := z.hist[x].signals + 1)])
    ensures Holding(z', y, ph, f)
  {
  }

  lemma HostWriteHolds(z: System, a: int, v: Byte, f: Kernel)
    requires Ready(z, f) && HostOk(z) && CanStep(z, HostWrites(a, v))
    ensures AllHolding(z.(mem := Write(z.mem, a, [v])), f)
  {
    var z' := z.(mem := Write(z.mem, a, [v]));
    forall y: Slot | InFlight(z'.p, y) ensures Holding(z', y, PhaseOf(z', y), f) {
      SamePhases(z, z', y);
      HostMisses(z, y, a, 1, f);
      HoldingApart(z, z', y, PhaseOf(z, y), a, [v], f);
    }
  }

  lemma CopyHolds(z: System, f: Kernel)
    requires Ready(z, f) && HostOk(z) && CanStep(z, Copies)
    ensures DeviceStep(z, AfterCopy(z), z.p.dma.value.slot) && AllHolding(AfterCopy(z), f)
  {
    EngineRequest(z, f);
    match z.p.info[z.p.dma.value.slot].status
    case GetKernarg => CopyKernarg(z, f);
    case GetImage => CopyImage(z, f);
    case _ => CopyResult(z, f);
  }

  /** The step does not take a packet in flight from the queue again. */
  ghost predicate NotTwice(z: System, step: Step) { step.Internal? ==> FirstSight(z.p, step.e) }

  /** Every step of the processor, of a device or of the host keeps the invariant. */
  lemma ReadyKept(z: System, step: Step, f: Kernel)
    requires Ready(z, f) && HostOk(z) && InPlace(f) && CanStep(z, step) && NotTwice(z, step)
    ensures Ready(After(z, step, f), f)
  {
    match step
    case Internal(e) => ReadyKeptInside(z, e, f);
    case Copies =>
      CopyHolds(z, f);
      DeviceReady(z, AfterCopy(z), z.p.dma.value.slot, f);
    case Computes(c) =>
      ComputeHolds(z, c, f);
      DeviceReady(z, AfterCompute(z, c, f), z.p.cores[c].value.slot, f);
    case Decrements =>
      DecrementHolds(z, f);
      DeviceReady(z, AfterDecrement(z), z.p.cmpl.value.slot, f);
    case HostWrites(a, v) =>
      HostWriteHolds(z, a, v, f);
      DeviceReady(z, z.(mem := Write(z.mem, a, [v])), 0, f);
  }

  lemma DeviceReady(z: System, z': System, x: Slot, f: Kernel)
    requires Ready(z, f) && DeviceStep(z, z', x) && AllHolding(z', f)
    ensures Ready(z', f)
  {
    DeviceFrame(z, z', x);
  }

  function InitialSystem(window: nat, cores: nat, queue: nat, mem: Memory): System {
    System(Initial(window, cores, queue), mem, false,
           seq(cores, _ => Task(0, 0, 0, 0, 0, 0, 0, [])), seq(cores, _ => false), false,
           seq(window, _ => Record([], [], 0)))
  }

  lemma InitialReady(window: nat, cores: nat, queue: nat, mem: Memory, f: Kernel)
    requires queue > 0
    ensures Ready(InitialSystem(window, cores, queue, mem), f)
  {
    InitialSlots(window, cores, queue);
    InitialEntries(window, cores, queue);
    InitialBuffers(window, cores, queue);
    var z := InitialSystem(window, cores, queue, mem);
    forall x: Slot ensures !InFlight(z.p, x) { if x < window { assert z.p.free[x] == x; } }
  }

  /** The event that ends the packet in slot x. */
  ghost predicate Ends(s: State, e: Event, x: Slot) { Enabled(s, e) && Freeing(s, e) == Some(x) }

  lemma EndingPhase(z: System, e: Event, x: Slot, f: Kernel)
    requires Ready(z, f) && CanStep(z, Internal(e)) && Ends(z.p, e, x)
    ensures InFlight(z.p, x) && PhaseOf(z, x) == 4
    ensures e.Signalled? ==> SignalSent(z, x) && Kp(z, x).signal != 0
    ensures !e.Signalled? ==> !SignalSent(z, x) && Kp(z, x).signal == 0
  {
    if e.Signalled? {
      CmplAlone(z.p);
      assert DecExpected(z, z.p.cmpl.value);
    } else {
      DmaAlone(z.p);
    }
  }

  /** When a packet ends, its destination in host memory holds the kernel applied to the image that was loaded, and
      its completion signal, if it has one, has been decremented exactly once. */
  lemma EndsWithResult(z: System, e: Event, x: Slot, f: Kernel)
    requires Ready(z, f) && CanStep(z, Internal(e)) && Ends(z.p, e, x)
    ensures x < |z.hist| && Bytes(z.mem, Args(z, x).dst, Size(z, x)) == f(TaskFor(Kp(z, x), z.hist[x].kernargs), z.hist[x].image)
    ensures z.hist[x].signals == if Kp(z, x).signal != 0 then 1 else 0
    ensures BlockSays(Args(z, x), z.hist[x].kernargs) && TaskSays(TaskFor(Kp(z, x), z.hist[x].kernargs), Kp(z, x), z.hist[x].kernargs)
  {
    EndingPhase(z, e, x, f);
    HeldAtEnd(z, x, f);
    RecordSays(z, x, f);
  }

  /** What has been loaded for a packet is an argument block of its length, and is read as such. */
  lemma RecordSays(z: System, x: Slot, f: Kernel)
    requires Ready(z, f) && InFlight(z.p, x) && PhaseOf(z, x) >= 1
    ensures x < |z.hist| && |Rec(z, x).kernargs| == BlockLength(Kp(z, x).kernelObject)
    ensures BlockSays(Args(z, x), z.hist[x].kernargs) && TaskSays(TaskFor(Kp(z, x), z.hist[x].kernargs), Kp(z, x), z.hist[x].kernargs)
  {
    assert Holding(z, x, PhaseOf(z, x), f);
    LengthsAreRight(Kp(z, x).kernelObject, 0);
    ArgsAreSaid(z.hist[x].kernargs);
    TaskIsSaid(Kp(z, x), z.hist[x].kernargs);
  }

  lemma HeldAtEnd(z: System, x: Slot, f: Kernel)
    requires Ready(z, f) && InFlight(z.p, x) && PhaseOf(z, x) == 4
    ensures x < |z.hist| && Bytes(z.mem, Args(z, x).dst, Size(z, x)) == f(TaskFor(Kp(z, x), z.hist[x].kernargs), z.hist[x].image)
    ensures z.hist[x].signals == if SignalSent(z, x) then 1 else 0
  {
    assert Holding(z, x, PhaseOf(z, x), f);
  }

  /** The record is of what the DMA really read: the argument block from the address in the packet, the image from
      the source address in the arguments. */
  lemma RecordIsLoaded(z: System, f: Kernel)
    requires Ready(z, f) && CanStep(z, Copies)
    ensures var x, z' := z.p.dma.value.slot, AfterCopy(z);
      && (z.p.info[x].status == GetKernarg ==> Rec(z', x).kernargs == Bytes(z.mem, Kp(z, x).kernargAddress, ArgSize(z, x)))
      && (z.p.info[x].status == GetImage ==>
            Rec(z', x).kernargs == Rec(z, x).kernargs && Rec(z', x).image == Bytes(z.mem, Args(z, x).src, Size(z, x)))
      && (z.p.info[x].status == StoreImage ==> Rec(z', x) == Rec(z, x))
      && (z.p.info[x].status != GetKernarg ==> BlockSays(Args(z, x), Rec(z, x).kernargs))
  {
    EngineRequest(z, f);
    if z.p.info[z.p.dma.value.slot].status != GetKernarg { RecordSays(z, z.p.dma.value.slot, f); }
  }

  /** Nothing else touches what was loaded for a packet in flight. */
  lemma RecordStays(z: System, step: Step, x: Slot, f: Kernel)
    requires Ready(z, f) && CanStep(z, step) && InFlight(z.p, x)
    requires step.Copies? ==> z.p.dma.value.slot != x
    ensures var z' := After(z, step, f);
      Rec(z', x).kernargs == Rec(z, x).kernargs && Rec(z', x).image == Rec(z, x).image
  {
    if step.Internal? {
      InternalShape(z, step.e, x);
    }
  }

  /** A run of the whole system during which the host keeps its promises and no packet in flight is taken again. */
  ghost predicate SystemRun(zs: seq<System>, steps: seq<Step>, f: Kernel) {
    && |zs| == |steps| + 1
    && forall i :: 0 <= i < |steps| ==>
         HostOk(zs[i]) && CanStep(zs[i], steps[i]) && NotTwice(zs[i], steps[i]) && |zs[i].tasks| == |zs[i].computed| && zs[i + 1] == After(zs[i], steps[i], f)
  }

  lemma ReadyAlong(zs: seq<System>, steps: seq<Step>, f: Kernel)
    requires SystemRun(zs, steps, f) && InPlace(f) && Ready(zs[0], f)
    ensures forall i :: 0 <= i < |zs| ==> Ready(zs[i], f)
  {
    for k := 0 to |steps|
      invariant forall i :: 0 <= i <= k ==> Ready(zs[i], f)
    {
      ReadyKept(zs[k], steps[k], f);
    }
  }

  /** In every run, every packet that ends leaves its result behind. */
  lemma EveryPacketDelivers(zs: seq<System>, steps: seq<Step>, f: Kernel, window: nat, cores: nat, queue: nat, mem: Memory,
                            i: nat, x: Slot)
    requires queue > 0 && SystemRun(zs, steps, f) && InPlace(f) && zs[0] == InitialSystem(window, cores, queue, mem)
    requires i < |steps| && steps[i].Internal? && Ends(zs[i].p, steps[i].e, x)
    ensures var z := zs[i];
      && x < |z.hist|
      && Bytes(z.mem, Args(z, x).dst, Size(z, x)) == f(TaskFor(Kp(z, x), z.hist[x].kernargs), z.hist[x].image)
      && (z.hist[x].signals == if Kp(z, x).signal != 0 then 1 else 0)
      && BlockSays(Args(z, x), z.hist[x].kernargs) && TaskSays(TaskFor(Kp(z, x), z.hist[x].kernargs), Kp(z, x), z.hist[x].kernargs)
  {
    InitialReady(window, cores, queue, mem, f);
    ReadyAlong(zs, steps, f);
    EndsWithResult(zs[i], steps[i].e, x, f);
  }

  /** The copy that is asked for is one that the command processor completes: source and destination are disjoint
      and the loop counter does not wrap. */
  lemma TransferAllowed(z: System, f: Kernel)
    requires Ready(z, f) && HostOk(z) && CanStep(z, Copies)
    ensures var r := z.p.dma.value;
      r.size < 0x8_0000_0000 && Disjoint(r.host, r.size, r.device, r.size)
    ensures var r := z.p.dma.value;
      AfterCopy(z).mem == if r.direction == LoadData then Transferred(z.mem, r.device, r.host, r.size)
                          else Transferred(z.mem, r.host, r.device, r.size)
  {
    var r := z.p.dma.value;
    RangesApart(z, f);
    if r.direction == LoadData {
      TransferCopies(z.mem, r.device, r.host, r.size);
    } else {
      TransferCopies(z.mem, r.host, r.device, r.size);
    }
  }

  lemma RangesApart(z: System, f: Kernel)
    requires Ready(z, f) && HostOk(z) && CanStep(z, Copies)
    ensures var r := z.p.dma.value;
      r.size < 0x8_0000_0000 && Disjoint(r.host, r.size, r.device, r.size)
  {
    var x := z.p.dma.value.slot;
    EngineRequest(z, f);
    if z.p.info[x].status != GetKernarg {
      assert PhaseOf(z, x) >= 1 && PacketOk(z, x);
      ImageSizeExact(Kp(z, x), Args(z, x).colorModel);
    }
  }
}
