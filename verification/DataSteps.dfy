/** The processor's own events keep every packet's data in place. */
module DataSteps {
  import opened Options
  import opened Memory
  import opened Protocol
  import opened SlotSafety
  import opened AqlEntries
  import opened Buffers
  import opened EndToEnd

  /** The slot whose bookkeeping the event changes. */
  ghost function Touched(s: State, e: Event): Option<Slot>
    requires Enabled(s, e)
  {
    match e
    case Dispatch => Some(s.free[|s.free| - 1])
    case Transfer(_, _) => Some(s.dma.value.slot)
    case KernelDone(c, _) => Some(s.cores[c].value.slot)
    case _ => None
  }

  /** Nothing recorded about the packet has changed. */
  predicate Same(z: System, z': System, x: Slot) {
    && x < |z.p.info| == |z'.p.info| && z'.p.info[x] == z.p.info[x]
    && Kp(z', x) == Kp(z, x) && Rec(z', x) == Rec(z, x)
  }

  ghost predicate AllHeld(s: State) {
    && (forall i :: 0 <= i < |s.dmaQ| ==> InFlight(s, s.dmaQ[i].slot))
    && (forall i :: 0 <= i < |s.launchQ| ==> InFlight(s, s.launchQ[i].slot))
    && (forall i :: 0 <= i < |s.decQ| ==> InFlight(s, s.decQ[i].slot))
    && (forall c :: 0 <= c < |s.cores| && s.cores[c].Some? ==> InFlight(s, s.cores[c].value.slot))
    && (s.dma.Some? ==> InFlight(s, s.dma.value.slot))
    && (s.cmpl.Some? ==> InFlight(s, s.cmpl.value.slot))
  }

  lemma HeldInFlight(s: State)
    requires SlotInv(s)
    ensures AllHeld(s)
  {
    forall i | 0 <= i < |s.dmaQ| ensures InFlight(s, s.dmaQ[i].slot) {
      assert DmaSlots(s.dmaQ)[i] == s.dmaQ[i].slot;
      CountMember(DmaSlots(s.dmaQ), s.dmaQ[i].slot);
      WaitsInFlight(s, s.dmaQ[i].slot);
    }
    forall i | 0 <= i < |s.launchQ| ensures InFlight(s, s.launchQ[i].slot) {
      assert LaunchSlots(s.launchQ)[i] == s.launchQ[i].slot;
      CountMember(LaunchSlots(s.launchQ), s.launchQ[i].slot);
      WaitsInFlight(s, s.launchQ[i].slot);
    }
    forall i | 0 <= i < |s.decQ| ensures InFlight(s, s.decQ[i].slot) {
      assert DecSlots(s.decQ)[i] == s.decQ[i].slot;
      CountMember(DecSlots(s.decQ), s.decQ[i].slot);
      WaitsInFlight(s, s.decQ[i].slot);
    }
    forall c | 0 <= c < |s.cores| && s.cores[c].Some? ensures InFlight(s, s.cores[c].value.slot) {
      CoreAlone(s, c);
    }
    if s.dma.Some? { DmaAlone(s); }
    if s.cmpl.Some? { CmplAlone(s); }
  }

  lemma WaitsInFlight(s: State, x: Slot)
    requires SlotInv(s) && Count(DmaSlots(s.dmaQ), x) + Count(LaunchSlots(s.launchQ), x) + Count(DecSlots(s.decQ), x) > 0
    ensures InFlight(s, x)
  {
    assert Places(s, x) == 1;
    CountMember(s.free, x);
  }

  lemma InfoUntouched(s: State, e: Event, x: Slot)
    requires Enabled(s, e) && x < |s.info| && Touched(s, e) != Some(x)
    ensures |Next(s, e).info| == |s.info| && Next(s, e).info[x] == s.info[x]
  {
  }

  lemma InfoTouched(s: State, e: Event, x: Slot)
    requires SlotInv(s) && Enabled(s, e) && InFlight(s, x)
    ensures var i, s' := s.info[x], Next(s, e);
      && |s'.info| == |s.info| && s'.info[x].kernarg == i.kernarg && s'.info[x].pasid == i.pasid
      && (!(e.Transfer? && i.status == GetKernarg) ==> s'.info[x].image == i.image)
  {
    if e.Dispatch? { FreeAlone(s); }
  }

  lemma RecordKeptInside(z: System, e: Event, x: Slot)
    requires SlotInv(z.p) && |z.hist| == |z.p.info| && Enabled(z.p, e) && InFlight(z.p, x)
    ensures Rec(AfterInternal(z, e), x) == Rec(z, x)
  {
    if e.Dispatch? { FreeAlone(z.p); }
  }

  /** Memory, and the record of every packet in flight, are as before. */
  lemma InternalShape(z: System, e: Event, x: Slot)
    requires SlotInv(z.p) && |z.hist| == |z.p.info| && CanStep(z, Internal(e)) && InFlight(z.p, x)
    ensures var z' := AfterInternal(z, e);
      z'.p == Next(z.p, e) && z'.mem == z.mem && |z'.hist| == |z.hist| && Rec(z', x) == Rec(z, x)
  {
    RecordKeptInside(z, e, x);
  }

  lemma KpKept(z: System, z': System, e: Event, x: Slot)
    requires Sound(z.p) && Enabled(z.p, e) && InFlight(z.p, x) && z'.p == Next(z.p, e)
    ensures Kp(z', x) == Kp(z, x)
  {
    PacketStable(z.p, e, x);
    SlotInvKept(z.p, e);
  }

  lemma UntouchedSame(z: System, e: Event, x: Slot)
    requires Sound(z.p) && |z.hist| == |z.p.info| && CanStep(z, Internal(e)) && InFlight(z.p, x)
    requires Touched(z.p, e) != Some(x)
    ensures Same(z, AfterInternal(z, e), x)
  {
    InfoUntouched(z.p, e, x);
    InternalShape(z, e, x);
    KpKept(z, AfterInternal(z, e), e, x);
  }

  /** The touched packet keeps its arguments, its record and its argument block. */
  predicate Keeps(z: System, z': System, x: Slot, imageToo: bool) {
    && x < |z.p.info| == |z'.p.info| && Kp(z', x) == Kp(z, x) && Rec(z', x) == Rec(z, x)
    && z'.p.info[x].kernarg == z.p.info[x].kernarg && z'.p.info[x].pasid == z.p.info[x].pasid
    && (imageToo ==> z'.p.info[x].image == z.p.info[x].image)
  }

  lemma TouchedKeeps(z: System, e: Event, x: Slot)
    requires Sound(z.p) && |z.hist| == |z.p.info| && CanStep(z, Internal(e)) && InFlight(z.p, x)
    ensures Keeps(z, AfterInternal(z, e), x, !(e.Transfer? && z.p.info[x].status == GetKernarg))
  {
    InfoTouched(z.p, e, x);
    InternalShape(z, e, x);
    KpKept(z, AfterInternal(z, e), e, x);
  }

  /** No core has slot x. */
  lemma NotServed(z: System, x: Slot)
    requires NoCore(z.p, x)
    ensures !CoreServed(z, x)
  {
  }

  lemma StartKernelServes(z: System, x: Slot)
    requires SlotInv(z.p) && |z.tasks| == |z.computed| == |z.p.cores| && Enabled(z.p, StartKernel)
    ensures CoreServed(AfterInternal(z, StartKernel), x) <==> CoreServed(z, x)
  {
    var z', free := AfterInternal(z, StartKernel), FirstIdle(z.p.cores);
    if c :| 0 <= c < |z.p.cores| && z.computed[c] && z.p.cores[c].Some? && z.p.cores[c].value.slot == x {
      assert z'.computed[c] && z'.p.cores[c] == z.p.cores[c];
    }
    if c :| 0 <= c < |z'.p.cores| && z'.computed[c] && z'.p.cores[c].Some? && z'.p.cores[c].value.slot == x {
      assert c != free;
      assert z.computed[c] && z.p.cores[c] == z'.p.cores[c];
    }
  }

  lemma KernelDoneServes(z: System, e: Event, x: Slot)
    requires SlotInv(z.p) && |z.tasks| == |z.computed| == |z.p.cores| && CanStep(z, Internal(e)) && e.KernelDone?
    requires x != z.p.cores[e.core].value.slot
    ensures CoreServed(AfterInternal(z, e), x) <==> CoreServed(z, x)
  {
    var z' := AfterInternal(z, e);
    if c :| 0 <= c < |z.p.cores| && z.computed[c] && z.p.cores[c].Some? && z.p.cores[c].value.slot == x {
      assert c != e.core && z'.computed[c] && z'.p.cores[c] == z.p.cores[c];
    }
    if c :| 0 <= c < |z'.p.cores| && z'.computed[c] && z'.p.cores[c].Some? && z'.p.cores[c].value.slot == x {
      assert z.computed[c] && z.p.cores[c] == z'.p.cores[c];
    }
  }

  /** The slot that the engine has worked for: its stage and the engine's flag move on together. */
  lemma ServedPhase(z: System, z': System, x: Slot)
    requires x < |z.p.info| == |z'.p.info| && DmaServed(z, x) && !DmaServed(z', x) && NoCore(z.p, x) && NoCore(z'.p, x)
    requires match z.p.info[x].status
      case GetKernarg => z'.p.info[x].status == GetImage
      case GetImage => z'.p.info[x].status == Processing
      case StoreImage => z'.p.info[x].status == Completion
      case _ => false
    ensures PhaseOf(z', x) == PhaseOf(z, x)
  {
    NotServed(z, x);
    NotServed(z', x);
  }

  lemma UnservedPhase(z: System, z': System, x: Slot)
    requires x < |z.p.info| == |z'.p.info| && z'.p.info[x] == z.p.info[x] && !DmaServed(z, x) && !DmaServed(z', x)
    requires z'.p.cores == z.p.cores && z'.computed == z.computed
    ensures PhaseOf(z', x) == PhaseOf(z, x)
  {
    SameServes(z, z', x);
  }

  lemma TransferPhase(z: System, e: Event, x: Slot)
    requires SlotInv(z.p) && CanStep(z, Internal(e)) && e.Transfer? && InFlight(z.p, x) && InFlight(Next(z.p, e), x)
    ensures x < |AfterInternal(z, e).p.info| && PhaseOf(AfterInternal(z, e), x) == PhaseOf(z, x)
  {
    DmaAlone(z.p);
    if x == z.p.dma.value.slot {
      ServedPhase(z, AfterInternal(z, e), x);
    } else {
      InfoUntouched(z.p, e, x);
      UnservedPhase(z, AfterInternal(z, e), x);
    }
  }

  lemma KernelDonePhase(z: System, e: Event, x: Slot)
    requires SlotInv(z.p) && |z.tasks| == |z.computed| == |z.p.cores| && CanStep(z, Internal(e)) && e.KernelDone?
    requires InFlight(z.p, x)
    ensures x < |AfterInternal(z, e).p.info| && PhaseOf(AfterInternal(z, e), x) == PhaseOf(z, x)
  {
    CoreAlone(z.p, e.core);
    if x == z.p.cores[e.core].value.slot {
      assert CoreServed(z, x);
    } else {
      InfoUntouched(z.p, e, x);
      KernelDoneServes(z, e, x);
    }
  }

  /** No event of the processor changes how far the data of a packet has come. */
  lemma PhaseKept(z: System, e: Event, x: Slot)
    requires SlotInv(z.p) && |z.tasks| == |z.computed| == |z.p.cores| && CanStep(z, Internal(e))
    requires InFlight(z.p, x) && InFlight(Next(z.p, e), x)
    ensures x < |AfterInternal(z, e).p.info| && PhaseOf(AfterInternal(z, e), x) == PhaseOf(z, x)
  {
    match e
    case Transfer(_, _) => TransferPhase(z, e, x);
    case KernelDone(_, _) => KernelDonePhase(z, e, x);
    case StartKernel => StartKernelServes(z, x);
    case StartDma => SameServes(z, AfterInternal(z, e), x);
    case Dispatch | StartDec | Signalled | Admit(_, _) | RetireBarrier | Skip | Wait | Resume | Produce(_, _) => OtherPhase(z, e, x);
  }

  lemma OtherPhase(z: System, e: Event, x: Slot)
    requires SlotInv(z.p) && CanStep(z, Internal(e)) && InFlight(z.p, x)
    requires e.Dispatch? || e.StartDec? || e.Signalled? || AtHead(e)
    ensures x < |AfterInternal(z, e).p.info| && PhaseOf(AfterInternal(z, e), x) == PhaseOf(z, x)
  {
    if e.Dispatch? { FreeAlone(z.p); }
    SameServes(z, AfterInternal(z, e), x);
  }

  lemma SameServes(z: System, z': System, x: Slot)
    requires z'.p.cores == z.p.cores && z'.computed == z.computed
    ensures CoreServed(z', x) <==> CoreServed(z, x)
  {
  }

  /** A packet just dispatched has nothing on board. */
  lemma DispatchPhase(z: System)
    requires SlotInv(z.p) && CanStep(z, Internal(Dispatch))
    ensures var top := z.p.free[|z.p.free| - 1];
      top < |AfterInternal(z, Dispatch).p.info| && PhaseOf(AfterInternal(z, Dispatch), top) == 0
  {
    FreeAlone(z.p);
  }

  lemma SentKept(z: System, e: Event, x: Slot)
    requires SlotInv(z.p) && CanStep(z, Internal(e)) && InFlight(z.p, x) && InFlight(Next(z.p, e), x)
    ensures SignalSent(AfterInternal(z, e), x) <==> SignalSent(z, x)
  {
  }

  lemma HoldingFrom(z: System, z': System, x: Slot, ph: nat, f: Kernel)
    requires x < |z.p.info| && Holding(z, x, ph, f) && Keeps(z, z', x, ph >= 2) && z'.mem == z.mem
    requires SignalSent(z', x) <==> SignalSent(z, x)
    ensures Holding(z', x, ph, f)
  {
  }

  lemma HoldingKept(z: System, e: Event, x: Slot, f: Kernel)
    requires Ready(z, f) && CanStep(z, Internal(e)) && InFlight(z.p, x) && InFlight(Next(z.p, e), x)
    ensures var z' := AfterInternal(z, e);
      x < |z'.p.info| && Holding(z', x, PhaseOf(z', x), f)
  {
    var z' := AfterInternal(z, e);
    PhaseKept(z, e, x);
    SentKept(z, e, x);
    TouchedKeeps(z, e, x);
    InternalShape(z, e, x);
    if e.Transfer? && z.p.info[x].status == GetKernarg {
      PhaseOne(z, z', x, f);
    } else {
      HoldingFrom(z, z', x, PhaseOf(z, x), f);
    }
  }

  lemma PhaseOne(z: System, z': System, x: Slot, f: Kernel)
    requires x < |z.p.info| && PhaseOf(z, x) <= 1 && Holding(z, x, PhaseOf(z, x), f) && Keeps(z, z', x, false) && z'.mem == z.mem
    requires SignalSent(z', x) <==> SignalSent(z, x)
    ensures Holding(z', x, PhaseOf(z, x), f)
  {
    HoldingFrom(z, z', x, PhaseOf(z, x), f);
  }

  lemma SameExpected(z: System, z': System, x: Slot)
    requires Same(z, z', x)
    ensures ExpectedDma(z', x) == ExpectedDma(z, x) && ExpectedLaunch(z', x) == ExpectedLaunch(z, x)
  {
  }

  /** Requests of untouched packets stay right. */
  ghost predicate OthersSame(z: System, z': System, t: Option<Slot>) {
    forall x: Slot :: InFlight(z.p, x) && t != Some(x) ==> Same(z, z', x)
  }

  lemma OthersSameAfter(z: System, e: Event)
    requires Sound(z.p) && |z.hist| == |z.p.info| && CanStep(z, Internal(e))
    ensures OthersSame(z, AfterInternal(z, e), Touched(z.p, e))
  {
    forall x: Slot | InFlight(z.p, x) && Touched(z.p, e) != Some(x) ensures Same(z, AfterInternal(z, e), x) {
      UntouchedSame(z, e, x);
    }
  }

  lemma OldDma(z: System, z': System, t: Option<Slot>, r: DmaRequest)
    requires OthersSame(z, z', t) && DmaExpected(z, r) && InFlight(z.p, r.slot) && t != Some(r.slot)
    ensures DmaExpected(z', r)
  {
    SameExpected(z, z', r.slot);
  }

  lemma OldLaunch(z: System, z': System, t: Option<Slot>, r: LaunchRequest)
    requires OthersSame(z, z', t) && LaunchExpected(z, r) && InFlight(z.p, r.slot) && t != Some(r.slot)
    ensures LaunchExpected(z', r)
  {
    SameExpected(z, z', r.slot);
  }

  lemma OldDec(z: System, z': System, t: Option<Slot>, r: DecRequest)
    requires OthersSame(z, z', t) && DecExpected(z, r) && InFlight(z.p, r.slot) && t != Some(r.slot)
    ensures DecExpected(z', r)
  {
    assert Same(z, z', r.slot);
  }

  lemma OldCore(z: System, z': System, t: Option<Slot>, c: nat)
    requires OthersSame(z, z', t) && c < |z.p.cores| && z.p.cores[c].Some? && |z.tasks| == |z.p.cores| && CoreExpected(z, c)
    requires InFlight(z.p, z.p.cores[c].value.slot) && t != Some(z.p.cores[c].value.slot)
    requires c < |z'.p.cores| == |z'.tasks| && z'.p.cores[c] == z.p.cores[c] && z'.tasks[c] == z.tasks[c]
    ensures CoreExpected(z', c)
  {
    OldLaunch(z, z', t, z.p.cores[c].value);
    assert Same(z, z', z.p.cores[c].value.slot);
  }

  /** What is left in the rings and engines after an event that touches slot t. */
  ghost predicate Leftover(z: System, z': System, t: Option<Slot>) {
    && (forall i :: 0 <= i < |z'.p.dmaQ| ==> z'.p.dmaQ[i] in z.p.dmaQ && t != Some(z'.p.dmaQ[i].slot))
    && (forall i :: 0 <= i < |z'.p.launchQ| ==> z'.p.launchQ[i] in z.p.launchQ && t != Some(z'.p.launchQ[i].slot))
    && (forall i :: 0 <= i < |z'.p.decQ| ==> z'.p.decQ[i] in z.p.decQ && t != Some(z'.p.decQ[i].slot))
    && (z'.p.dma.Some? ==> (z'.p.dma == z.p.dma || z'.p.dma.value in z.p.dmaQ) && t != Some(z'.p.dma.value.slot))
    && (z'.p.cmpl.Some? ==> (z'.p.cmpl == z.p.cmpl || z'.p.cmpl.value in z.p.decQ) && t != Some(z'.p.cmpl.value.slot))
    && |z'.tasks| == |z'.computed| == |z'.p.cores| == |z.p.cores| == |z.tasks|
    && (forall c :: 0 <= c < |z'.p.cores| && z'.p.cores[c].Some? ==>
          z'.p.cores[c] == z.p.cores[c] && z'.tasks[c] == z.tasks[c] && t != Some(z'.p.cores[c].value.slot))
  }

  lemma LeftoverDma(z: System, z': System, t: Option<Slot>)
    requires AllHeld(z.p) && RequestsOk(z) && OthersSame(z, z', t) && Leftover(z, z', t)
    ensures forall i :: 0 <= i < |z'.p.dmaQ| ==> DmaExpected(z', z'.p.dmaQ[i])
    ensures z'.p.dma.Some? ==> DmaExpected(z', z'.p.dma.value)
  {
    forall i | 0 <= i < |z'.p.dmaQ| ensures DmaExpected(z', z'.p.dmaQ[i]) {
      OldDma(z, z', t, z'.p.dmaQ[i]);
    }
    if z'.p.dma.Some? { OldDma(z, z', t, z'.p.dma.value); }
  }

  lemma LeftoverDec(z: System, z': System, t: Option<Slot>)
    requires AllHeld(z.p) && RequestsOk(z) && OthersSame(z, z', t) && Leftover(z, z', t)
    ensures forall i :: 0 <= i < |z'.p.decQ| ==> DecExpected(z', z'.p.decQ[i])
    ensures z'.p.cmpl.Some? ==> DecExpected(z', z'.p.cmpl.value)
  {
    forall i | 0 <= i < |z'.p.decQ| ensures DecExpected(z', z'.p.decQ[i]) {
      OldDec(z, z', t, z'.p.decQ[i]);
    }
    if z'.p.cmpl.Some? { OldDec(z, z', t, z'.p.cmpl.value); }
  }

  lemma LeftoverCores(z: System, z': System, t: Option<Slot>)
    requires AllHeld(z.p) && RequestsOk(z) && OthersSame(z, z', t) && Leftover(z, z', t)
    ensures forall i :: 0 <= i < |z'.p.launchQ| ==> LaunchExpected(z', z'.p.launchQ[i])
    ensures forall c :: 0 <= c < |z'.p.cores| && z'.p.cores[c].Some? ==> CoreExpected(z', c)
  {
    forall i | 0 <= i < |z'.p.launchQ| ensures LaunchExpected(z', z'.p.launchQ[i]) {
      OldLaunch(z, z', t, z'.p.launchQ[i]);
    }
    forall c | 0 <= c < |z'.p.cores| && z'.p.cores[c].Some? ensures CoreExpected(z', c) {
      OldCore(z, z', t, c);
    }
  }

  lemma LeftoverOk(z: System, z': System, t: Option<Slot>)
    requires AllHeld(z.p) && RequestsOk(z) && OthersSame(z, z', t) && Leftover(z, z', t)
    ensures RequestsOk(z')
  {
    LeftoverDma(z, z', t);
    LeftoverDec(z, z', t);
    LeftoverCores(z, z', t);
  }

  /** Events that only move or drop requests. */
  lemma MovesOk(z: System, e: Event)
    requires Sound(z.p) && |z.hist| == |z.p.info| && RequestsOk(z) && CanStep(z, Internal(e))
    requires e.StartDma? || e.StartDec? || e.Signalled? || AtHead(e)
    ensures RequestsOk(AfterInternal(z, e))
  {
    HeldInFlight(z.p);
    OthersSameAfter(z, e);
    MovesLeftover(z, e);
    LeftoverOk(z, AfterInternal(z, e), None);
  }

  lemma HeadLeftover(z: System, e: Event)
    requires RequestsOk(z) && CanStep(z, Internal(e)) && AtHead(e)
    ensures Leftover(z, AfterInternal(z, e), None)
  {
  }

  lemma MovesLeftover(z: System, e: Event)
    requires RequestsOk(z) && CanStep(z, Internal(e))
    requires e.StartDma? || e.StartDec? || e.Signalled? || AtHead(e)
    ensures Leftover(z, AfterInternal(z, e), None)
  {
    match e
    case StartDma => LeftRing(z.p.dmaQ);
    case StartDec => LeftRing(z.p.decQ);
    case Signalled =>
    case Admit(_, _) | RetireBarrier | Skip | Wait | Resume | Produce(_, _) => HeadLeftover(z, e);
  }

  lemma LeftRing<T>(q: seq<T>)
    requires q != []
    ensures forall i :: 0 <= i < |q[1..]| ==> q[1..][i] in q
  {
  }

  /** The system without the requests added behind the first d, l and k entries of the rings. */
  function Trim(z: System, d: nat, l: nat, k: nat): System
    requires d <= |z.p.dmaQ| && l <= |z.p.launchQ| && k <= |z.p.decQ|
  {
    z.(p := z.p.(dmaQ := z.p.dmaQ[..d], launchQ := z.p.launchQ[..l], decQ := z.p.decQ[..k]))
  }

  lemma AddBack(z: System, d: nat, l: nat, k: nat)
    requires d <= |z.p.dmaQ| && l <= |z.p.launchQ| && k <= |z.p.decQ| && RequestsOk(Trim(z, d, l, k))
    requires forall i :: d <= i < |z.p.dmaQ| ==> DmaExpected(z, z.p.dmaQ[i])
    requires forall i :: l <= i < |z.p.launchQ| ==> LaunchExpected(z, z.p.launchQ[i])
    requires forall i :: k <= i < |z.p.decQ| ==> DecExpected(z, z.p.decQ[i])
    ensures RequestsOk(z)
  {
    var w := Trim(z, d, l, k);
    forall i | 0 <= i < |z.p.dmaQ| ensures DmaExpected(z, z.p.dmaQ[i]) {
      if i < d { assert DmaExpected(w, w.p.dmaQ[i]); SameExpected(w, z, z.p.dmaQ[i].slot); }
    }
    forall i | 0 <= i < |z.p.launchQ| ensures LaunchExpected(z, z.p.launchQ[i]) {
      if i < l { assert LaunchExpected(w, w.p.launchQ[i]); SameExpected(w, z, z.p.launchQ[i].slot); }
    }
    forall i | 0 <= i < |z.p.decQ| ensures DecExpected(z, z.p.decQ[i]) {
      if i < k { assert DecExpected(w, w.p.decQ[i]); }
    }
    EnginesBack(w, z);
  }

  /** The rings aside, the two systems are the same. */
  lemma EnginesBack(w: System, z: System)
    requires RequestsOk(w) && z == w.(p := w.p.(dmaQ := z.p.dmaQ, launchQ := z.p.launchQ, decQ := z.p.decQ))
    ensures z.p.dma.Some? ==> DmaExpected(z, z.p.dma.value)
    ensures z.p.cmpl.Some? ==> DecExpected(z, z.p.cmpl.value)
    ensures forall c :: 0 <= c < |z.p.cores| && z.p.cores[c].Some? ==> CoreExpected(z, c)
  {
    if z.p.dma.Some? { SameExpected(w, z, z.p.dma.value.slot); }
    forall c | 0 <= c < |z.p.cores| && z.p.cores[c].Some? ensures CoreExpected(z, c) {
      assert CoreExpected(w, c);
      SameExpected(w, z, z.p.cores[c].value.slot);
    }
  }

  lemma TrimSame(z: System, z': System, t: Option<Slot>, d: nat, l: nat, k: nat)
    requires d <= |z'.p.dmaQ| && l <= |z'.p.launchQ| && k <= |z'.p.decQ| && OthersSame(z, z', t)
    ensures OthersSame(z, Trim(z', d, l, k), t)
  {
    var w := Trim(z', d, l, k);
    forall x: Slot | InFlight(z.p, x) && t != Some(x) ensures Same(z, w, x) {
      assert Same(z, z', x);
    }
  }

  /** An event leaves the requests of others alone and adds right ones. */
  lemma AddsOk(z: System, e: Event, d: nat, l: nat, k: nat)
    requires Sound(z.p) && |z.hist| == |z.p.info| && RequestsOk(z) && CanStep(z, Internal(e))
    requires var z' := AfterInternal(z, e);
      && d <= |z'.p.dmaQ| && l <= |z'.p.launchQ| && k <= |z'.p.decQ|
      && Leftover(z, Trim(z', d, l, k), Touched(z.p, e))
      && (forall i :: d <= i < |z'.p.dmaQ| ==> DmaExpected(z', z'.p.dmaQ[i]))
      && (forall i :: l <= i < |z'.p.launchQ| ==> LaunchExpected(z', z'.p.launchQ[i]))
      && (forall i :: k <= i < |z'.p.decQ| ==> DecExpected(z', z'.p.decQ[i]))
    ensures RequestsOk(AfterInternal(z, e))
  {
    var z' := AfterInternal(z, e);
    HeldInFlight(z.p);
    OthersSameAfter(z, e);
    TrimSame(z, z', Touched(z.p, e), d, l, k);
    LeftoverOk(z, Trim(z', d, l, k), Touched(z.p, e));
    AddBack(z', d, l, k);
  }

  lemma DispatchOk(z: System)
    requires Sound(z.p) && |z.hist| == |z.p.info| && RequestsOk(z) && CanStep(z, Internal(Dispatch))
    ensures RequestsOk(AfterInternal(z, Dispatch))
  {
    DispatchShape(z.p);
    DispatchLeftover(z);
    DispatchRequest(z);
    AddsOk(z, Dispatch, |z.p.dmaQ|, |z.p.launchQ|, |z.p.decQ|);
  }

  /** What a dispatch changes of the queues, the engines and the cores. */
  lemma DispatchShape(s: State)
    requires |s.aql| > 0 && s.phase.Admitted? && |s.free| > 0 && s.free[|s.free| - 1] < |s.info|
    ensures var s' := DispatchNext(s);
      && s'.dma == s.dma && s'.launchQ == s.launchQ && s'.decQ == s.decQ && s'.cmpl == s.cmpl && s'.cores == s.cores
      && |s'.dmaQ| == |s.dmaQ| + 1 && s'.dmaQ[..|s.dmaQ|] == s.dmaQ
  {
  }

  lemma DispatchLeftover(z: System)
    requires Sound(z.p) && |z.hist| == |z.p.info| && RequestsOk(z) && CanStep(z, Internal(Dispatch))
    ensures Leftover(z, Trim(AfterInternal(z, Dispatch), |z.p.dmaQ|, |z.p.launchQ|, |z.p.decQ|), Touched(z.p, Dispatch))
  {
    FreeAlone(z.p);
    DispatchShape(z.p);
  }

  lemma DispatchRequest(z: System)
    requires Sound(z.p) && |z.hist| == |z.p.info| && CanStep(z, Internal(Dispatch))
    ensures var z' := AfterInternal(z, Dispatch);
      |z'.p.dmaQ| == |z.p.dmaQ| + 1 && DmaExpected(z', z'.p.dmaQ[|z.p.dmaQ|])
  {
  }

  /** The arguments that a handler reads are the ones that were loaded. */
  lemma ArgsRead(z: System, x: Slot, args: KernArgs, f: Kernel)
    requires Ready(z, f) && InFlight(z.p, x) && PhaseOf(z, x) >= 1 && ArgsSeen(z, x, args)
    ensures args == Args(z, x)
  {
  }

  /** What asking for the image, or for a core, changes of the queues, the engines and the cores. */
  lemma RequestShape(s: State, args: KernArgs, block: Address)
    requires DmaActive(s) && s.info[s.dma.value.slot].status in {GetKernarg, GetImage}
    ensures var s' := TransferNext(s, args, block);
      && s'.dma.None? && s'.decQ == s.decQ && s'.cmpl == s.cmpl && s'.cores == s.cores
      && |s'.dmaQ| >= |s.dmaQ| && s'.dmaQ[..|s.dmaQ|] == s.dmaQ
      && |s'.launchQ| >= |s.launchQ| && s'.launchQ[..|s.launchQ|] == s.launchQ
  {
  }

  lemma RequestLeftover(z: System, e: Event)
    requires SlotInv(z.p) && RequestsOk(z) && CanStep(z, Internal(e)) && e.Transfer?
    requires z.p.info[z.p.dma.value.slot].status in {GetKernarg, GetImage}
    ensures var z' := AfterInternal(z, e);
      |z.p.dmaQ| <= |z'.p.dmaQ| && |z.p.launchQ| <= |z'.p.launchQ| && z'.p.decQ == z.p.decQ
      && Leftover(z, Trim(z', |z.p.dmaQ|, |z.p.launchQ|, |z.p.decQ|), Touched(z.p, e))
  {
    DmaAlone(z.p);
    RequestShape(z.p, e.args, e.block);
    var z' := AfterInternal(z, e);
    assert z' == z.(p := TransferNext(z.p, e.args, e.block));
    WithoutSlot(z, Trim(z', |z.p.dmaQ|, |z.p.launchQ|, |z.p.decQ|), z.p.dma.value.slot);
  }

  lemma RequestImageOk(z: System, e: Event, f: Kernel)
    requires Ready(z, f) && CanStep(z, Internal(e)) && e.Transfer? && z.p.info[z.p.dma.value.slot].status == GetKernarg
    ensures RequestsOk(AfterInternal(z, e))
  {
    DmaAlone(z.p);
    ArgsRead(z, z.p.dma.value.slot, e.args, f);
    TouchedKeeps(z, e, z.p.dma.value.slot);
    RequestLeftover(z, e);
    AddsOk(z, e, |z.p.dmaQ|, |z.p.launchQ|, |z.p.decQ|);
  }

  lemma RequestLaunchOk(z: System, e: Event, f: Kernel)
    requires Ready(z, f) && CanStep(z, Internal(e)) && e.Transfer? && z.p.info[z.p.dma.value.slot].status == GetImage
    ensures RequestsOk(AfterInternal(z, e))
  {
    DmaAlone(z.p);
    ArgsRead(z, z.p.dma.value.slot, e.args, f);
    TouchedKeeps(z, e, z.p.dma.value.slot);
    RequestLeftover(z, e);
    AddsOk(z, e, |z.p.dmaQ|, |z.p.launchQ|, |z.p.decQ|);
  }

  lemma FinishStoreOk(z: System, e: Event, f: Kernel)
    requires Ready(z, f) && CanStep(z, Internal(e)) && e.Transfer? && z.p.info[z.p.dma.value.slot].status == StoreImage
    ensures RequestsOk(AfterInternal(z, e))
  {
    DmaAlone(z.p);
    TouchedKeeps(z, e, z.p.dma.value.slot);
    FinishStoreLeftover(z, e);
    AddsOk(z, e, |z.p.dmaQ|, |z.p.launchQ|, |z.p.decQ|);
  }

  lemma KernelDoneRequest(z: System, e: Event, f: Kernel)
    requires Ready(z, f) && CanStep(z, Internal(e)) && e.KernelDone?
    ensures var z' := AfterInternal(z, e);
      && |z'.p.dmaQ| == |z.p.dmaQ| + 1 && DmaExpected(z', z'.p.dmaQ[|z.p.dmaQ|])
      && z'.p.launchQ == z.p.launchQ && z'.p.decQ == z.p.decQ
  {
    var x := z.p.cores[e.core].value.slot;
    CoreAlone(z.p, e.core);
    assert CoreServed(z, x);
    ArgsRead(z, x, e.args, f);
    TouchedKeeps(z, e, x);
  }

  lemma KernelDoneOk(z: System, e: Event, f: Kernel)
    requires Ready(z, f) && CanStep(z, Internal(e)) && e.KernelDone?
    ensures RequestsOk(AfterInternal(z, e))
  {
    KernelDoneRequest(z, e, f);
    KernelDoneLeftover(z, e);
    AddsOk(z, e, |z.p.dmaQ|, |z.p.launchQ|, |z.p.decQ|);
  }

  /** Where slot x is nowhere in z', and z' has lost nothing but what an engine or a core did. */
  lemma WithoutSlot(z: System, z': System, x: Slot)
    requires |z.tasks| == |z.computed| == |z.p.cores|
    requires z'.p.dmaQ == z.p.dmaQ && z'.p.launchQ == z.p.launchQ && z'.p.decQ == z.p.decQ
    requires z'.tasks == z.tasks && z'.computed == z.computed && |z'.p.cores| == |z.p.cores|
    requires z'.p.dma in {None, z.p.dma} && z'.p.cmpl in {None, z.p.cmpl}
    requires forall c :: 0 <= c < |z'.p.cores| ==> z'.p.cores[c] in {None, z.p.cores[c]}
    requires Elsewhere(z.p, x) && DmaIdleFor(z'.p, x) && CmplIdleFor(z'.p, x) && NoCore(z'.p, x)
    ensures Leftover(z, z', Some(x))
  {
  }

  /** What a kernel interrupt changes of the queues, the engines and the cores. */
  lemma KernelDoneShape(s: State, c: nat, args: KernArgs)
    requires c < |s.cores| && s.cores[c].Some? && s.cores[c].value.slot < |s.info|
    requires s.info[s.cores[c].value.slot].kp < |s.aql|
    ensures var s' := KernelDoneNext(s, c, args);
      && s'.dma == s.dma && s'.launchQ == s.launchQ && s'.decQ == s.decQ && s'.cmpl == s.cmpl && s'.cores == s.cores[c := None]
      && |s'.dmaQ| >= |s.dmaQ| && s'.dmaQ[..|s.dmaQ|] == s.dmaQ
  {
  }

  lemma KernelDoneLeftover(z: System, e: Event)
    requires SlotInv(z.p) && RequestsOk(z) && CanStep(z, Internal(e)) && e.KernelDone?
    ensures Leftover(z, Trim(AfterInternal(z, e), |z.p.dmaQ|, |z.p.launchQ|, |z.p.decQ|), Touched(z.p, e))
  {
    CoreAlone(z.p, e.core);
    KernelDoneShape(z.p, e.core, e.args);
    var z' := AfterInternal(z, e);
    assert z' == z.(p := KernelDoneNext(z.p, e.core, e.args));
    WithoutSlot(z, Trim(z', |z.p.dmaQ|, |z.p.launchQ|, |z.p.decQ|), z.p.cores[e.core].value.slot);
  }

  lemma FinishStoreShape(s: State)
    requires WellFormed(s) && s.dma.Some?
    ensures var s' := FinishStore(s);
      && s'.dma.None? && s'.dmaQ == s.dmaQ && s'.launchQ == s.launchQ && s'.cores == s.cores && s'.cmpl == s.cmpl
      && |s'.decQ| >= |s.decQ| && s'.decQ[..|s.decQ|] == s.decQ
  {
  }

  lemma FinishStoreLeftover(z: System, e: Event)
    requires SlotInv(z.p) && RequestsOk(z) && CanStep(z, Internal(e)) && e.Transfer?
    requires z.p.info[z.p.dma.value.slot].status == StoreImage
    ensures |z.p.decQ| <= |AfterInternal(z, e).p.decQ| && AfterInternal(z, e).p.dmaQ == z.p.dmaQ
    ensures AfterInternal(z, e).p.launchQ == z.p.launchQ
    ensures Leftover(z, Trim(AfterInternal(z, e), |z.p.dmaQ|, |z.p.launchQ|, |z.p.decQ|), Touched(z.p, e))
  {
    DmaAlone(z.p);
    FinishStoreShape(z.p);
    assert AfterInternal(z, e) == z.(p := FinishStore(z.p));
  }

  /** The mask that the core gets is the one in the packet's argument block. */
  lemma MaskRead(z: System, x: Slot)
    requires x < |z.p.info| && PacketOk(z, x) && Bytes(z.mem, z.p.info[x].kernarg, ArgSize(z, x)) == Rec(z, x).kernargs
    ensures TaskAtLaunch(z.mem, ExpectedLaunch(z, x)) == TaskFor(Kp(z, x), Rec(z, x).kernargs)
  {
    var kp, b := Kp(z, x), Rec(z, x).kernargs;
    var kernel := kp.kernelObject % 0x1_0000;
    if Custom(kernel) {
      assert kernel == kp.kernelObject && 20 + MaskLength(kernel) <= |b|;
      var mask := Bytes(z.mem, z.p.info[x].kernarg + 20, MaskLength(kernel));
      forall j | 0 <= j < |mask| ensures mask[j] == Field(b, 20, MaskLength(kernel))[j] {
        assert b[20 + j] == Read(z.mem, z.p.info[x].kernarg + (20 + j));
      }
    }
  }

  /** The launch ring has lost its head, which no core has got yet. */
  ghost function Between(z: System): System
    requires CanStep(z, Internal(StartKernel))
  {
    z.(p := z.p.(launchQ := z.p.launchQ[1..]))
  }

  lemma BetweenOk(z: System)
    requires RequestsOk(z) && CanStep(z, Internal(StartKernel))
    ensures RequestsOk(Between(z))
  {
    var w := Between(z);
    EnginesBack(z, w);
    forall i | 0 <= i < |w.p.dmaQ| ensures DmaExpected(w, w.p.dmaQ[i]) {
      assert DmaExpected(z, z.p.dmaQ[i]);
      SameExpected(z, w, w.p.dmaQ[i].slot);
    }
    forall i | 0 <= i < |w.p.launchQ| ensures LaunchExpected(w, w.p.launchQ[i]) {
      assert LaunchExpected(z, z.p.launchQ[i + 1]);
      SameExpected(z, w, w.p.launchQ[i].slot);
    }
    forall i | 0 <= i < |w.p.decQ| ensures DecExpected(w, w.p.decQ[i]) { assert DecExpected(z, z.p.decQ[i]); }
  }

  lemma StartKernelOk(z: System, f: Kernel)
    requires Ready(z, f) && HostOk(z) && CanStep(z, Internal(StartKernel))
    ensures RequestsOk(AfterInternal(z, StartKernel))
  {
    var w, r := Between(z), z.p.launchQ[0];
    BetweenOk(z);
    HeldInFlight(z.p);
    LaunchedTask(z, r, f);
    SameExpected(z, w, r.slot);
    CoreJoins(w, AfterInternal(z, StartKernel), FirstIdle(z.p.cores), r);
  }

  lemma LaunchedTask(z: System, r: LaunchRequest, f: Kernel)
    requires Ready(z, f) && HostOk(z) && r in z.p.launchQ && InFlight(z.p, r.slot)
    ensures LaunchExpected(z, r) && TaskAtLaunch(z.mem, r) == TaskFor(Kp(z, r.slot), Rec(z, r.slot).kernargs)
  {
    assert z.p.info[r.slot].status == Processing;
    assert PacketOk(z, r.slot);
    assert Holding(z, r.slot, PhaseOf(z, r.slot), f);
    MaskRead(z, r.slot);
  }

  lemma CoreJoins(w: System, z: System, c: nat, r: LaunchRequest)
    requires RequestsOk(w) && c < |w.p.cores| == |z.tasks| == |z.computed|
    requires z.p == w.p.(cores := w.p.cores[c := Some(r)]) && z.tasks == w.tasks[c := z.tasks[c]] && z.hist == w.hist
    requires LaunchExpected(w, r) && z.tasks[c] == TaskFor(Kp(w, r.slot), Rec(w, r.slot).kernargs)
    ensures RequestsOk(z)
  {
    forall i | 0 <= i < |z.p.dmaQ| ensures DmaExpected(z, z.p.dmaQ[i]) { SameExpected(w, z, z.p.dmaQ[i].slot); }
    forall i | 0 <= i < |z.p.launchQ| ensures LaunchExpected(z, z.p.launchQ[i]) { SameExpected(w, z, z.p.launchQ[i].slot); }
    if z.p.dma.Some? { SameExpected(w, z, z.p.dma.value.slot); }
    forall d | 0 <= d < |z.p.cores| && z.p.cores[d].Some? ensures CoreExpected(z, d) {
      SameExpected(w, z, z.p.cores[d].value.slot);
      if d != c { assert CoreExpected(w, d); }
    }
  }

  lemma RequestsOkKept(z: System, e: Event, f: Kernel)
    requires Ready(z, f) && HostOk(z) && CanStep(z, Internal(e))
    ensures RequestsOk(AfterInternal(z, e))
  {
    match e
    case Dispatch => DispatchOk(z);
    case StartKernel => StartKernelOk(z, f);
    case KernelDone(_, _) => KernelDoneOk(z, e, f);
    case Transfer(_, _) =>
      match z.p.info[z.p.dma.value.slot].status {
        case GetKernarg => RequestImageOk(z, e, f);
        case GetImage => RequestLaunchOk(z, e, f);
        case StoreImage => FinishStoreOk(z, e, f);
        case _ => assert false;
      }
    case _ => MovesOk(z, e);
  }

  /** The heap only gains one fresh block or loses blocks. */
  ghost predicate HeapChange(heap: map<Address, nat>, heap': map<Address, nat>) {
    && (forall a :: a in heap && a in heap' ==> heap'[a] == heap[a])
    && (forall a :: a in heap' && a !in heap ==> FreshBlock(heap, a, heap'[a]))
    && (forall a, b :: a in heap' && b in heap' && a !in heap && b !in heap ==> a == b)
  }

  lemma HeapAfterTransfer(s: State, args: KernArgs, block: Address)
    requires Enabled(s, Transfer(args, block))
    ensures HeapChange(s.heap, TransferNext(s, args, block).heap)
  {
  }

  lemma HeapAfter(z: System, e: Event)
    requires CanStep(z, Internal(e))
    ensures HeapChange(z.p.heap, Next(z.p, e).heap)
  {
    if e.Transfer? { HeapAfterTransfer(z.p, e.args, e.block); }
  }

  lemma ApartKept(heap: map<Address, nat>, heap': map<Address, nat>)
    requires BlocksApart(heap) && HeapChange(heap, heap')
    ensures BlocksApart(heap')
  {
    forall a, b | a in heap' && b in heap' && a != b ensures Disjoint(a, heap'[a], b, heap'[b]) {
      if a in heap && b in heap {
        assert Disjoint(a, heap[a], b, heap[b]);
      }
    }
  }

  /** A packet keeps the sizes of its blocks. */
  lemma SizesKept(z: System, z': System, x: Slot)
    requires x < |z.p.info| && Keeps(z, z', x, HasImage(z.p, x)) && BlockSizes(z, x) && Holds(z.p, x) <= z.p.heap.Keys
    requires forall a :: a in z.p.heap && a in z'.p.heap ==> z'.p.heap[a] == z.p.heap[a]
    requires !HasImage(z.p, x) ==> !HasImage(z'.p, x)
    ensures BlockSizes(z', x)
  {
  }

  lemma ImageSizes(z: System, e: Event, f: Kernel)
    requires Ready(z, f) && CanStep(z, Internal(e)) && e.Transfer? && z.p.info[z.p.dma.value.slot].status == GetKernarg
    ensures BlockSizes(AfterInternal(z, e), z.p.dma.value.slot)
  {
    var x := z.p.dma.value.slot;
    DmaAlone(z.p);
    ArgsRead(z, x, e.args, f);
    TouchedKeeps(z, e, x);
    assert Live(z.p, x) && BlockSizes(z, x);
    assert z.p.info[x].kernarg != e.block;
  }

  lemma DispatchSizes(z: System, f: Kernel)
    requires Ready(z, f) && CanStep(z, Internal(Dispatch))
    ensures BlockSizes(AfterInternal(z, Dispatch), z.p.free[|z.p.free| - 1])
  {
    FreeAlone(z.p);
  }

  lemma ImageAfter(s: State, e: Event, x: Slot)
    requires SlotInv(s) && Enabled(s, e) && InFlight(s, x) && !HasImage(s, x)
    requires !(e.Transfer? && x == s.dma.value.slot)
    ensures x < |Next(s, e).info| && !HasImage(Next(s, e), x)
  {
    if e.Dispatch? { FreeAlone(s); }
    if e.KernelDone? { assert s.info[s.cores[e.core].value.slot].status == Processing; }
  }

  lemma BlockSizesKept(z: System, e: Event, x: Slot, f: Kernel)
    requires Ready(z, f) && CanStep(z, Internal(e)) && InFlight(Next(z.p, e), x)
    ensures BlockSizes(AfterInternal(z, e), x)
  {
    FlightBefore(z.p, e, x);
    if !InFlight(z.p, x) {
      DispatchSizes(z, f);
    } else if e.Transfer? && x == z.p.dma.value.slot && z.p.info[x].status == GetKernarg {
      ImageSizes(z, e, f);
    } else {
      HeapAfter(z, e);
      assert Live(z.p, x);
      TouchedKeeps(z, e, x);
      InternalShape(z, e, x);
      if !HasImage(z.p, x) { ImageAfter(z.p, e, x); }
      SizesKept(z, AfterInternal(z, e), x);
    }
  }

  lemma FlightBefore(s: State, e: Event, x: Slot)
    requires SlotInv(s) && Enabled(s, e) && InFlight(Next(s, e), x)
    ensures x < |s.info| && (InFlight(s, x) || (e.Dispatch? && x == s.free[|s.free| - 1]))
  {
    if e.Dispatch? {
      DispatchTakes(s, x);
    }
  }

  lemma HeadKept(s: State, e: Event)
    requires Sound(s) && Enabled(s, e) && s.phase.Admitted? && Next(s, e).phase.Admitted?
    ensures Next(s, e).phase == s.phase && |Next(s, e).aql| == |s.aql| && Head(Next(s, e)).packet == Head(s).packet
  {
  }

  lemma PendingKept(z: System, e: Event)
    requires Sound(z.p) && BlocksInv(z) && CanStep(z, Internal(e)) && Next(z.p, e).phase.Admitted?
    ensures var p' := Next(z.p, e);
      |p'.aql| > 0 && (p'.phase.kernarg in p'.heap ==> p'.heap[p'.phase.kernarg] == KernargSize(Head(p').packet.kernelObject))
  {
    if z.p.phase.Admitted? {
      HeadKept(z.p, e);
      HeapAfter(z, e);
      assert z.p.phase.kernarg in Pending(z.p);
    }
  }

  lemma BlocksKept(z: System, e: Event, f: Kernel)
    requires Ready(z, f) && CanStep(z, Internal(e))
    ensures BlocksInv(AfterInternal(z, e))
  {
    var z' := AfterInternal(z, e);
    HeapAfter(z, e);
    ApartKept(z.p.heap, Next(z.p, e).heap);
    forall x: Slot | InFlight(z'.p, x) ensures BlockSizes(z', x) { BlockSizesKept(z, e, x, f); }
    if Next(z.p, e).phase.Admitted? { PendingKept(z, e); }
  }

  lemma NewHolding(z: System, f: Kernel)
    requires Ready(z, f) && CanStep(z, Internal(Dispatch))
    ensures var z', top := AfterInternal(z, Dispatch), z.p.free[|z.p.free| - 1];
      top < |z'.p.info| && Holding(z', top, PhaseOf(z', top), f)
  {
    DispatchPhase(z);
    FreeAlone(z.p);
  }

  lemma SoundKept(s: State, e: Event)
    requires Sound(s) && Enabled(s, e) && FirstSight(s, e)
    ensures Sound(Next(s, e))
  {
    SlotInvKept(s, e);
    EntriesKept(s, e);
    BuffersKept(s, e);
  }

  ghost predicate AllHolding(z: System, f: Kernel) {
    forall x: Slot :: InFlight(z.p, x) ==> Holding(z, x, PhaseOf(z, x), f)
  }

  lemma AllHoldingKept(z: System, e: Event, f: Kernel)
    requires Ready(z, f) && CanStep(z, Internal(e))
    ensures AllHolding(AfterInternal(z, e), f)
  {
    var z' := AfterInternal(z, e);
    forall x: Slot | InFlight(z'.p, x) ensures Holding(z', x, PhaseOf(z', x), f) {
      FlightBefore(z.p, e, x);
      if InFlight(z.p, x) {
        HoldingKept(z, e, x, f);
      } else {
        NewHolding(z, f);
      }
    }
  }

  lemma HistoryKept(z: System, e: Event)
    requires Enabled(z.p, e)
    ensures AfterInternal(z, e).p == Next(z.p, e) && |AfterInternal(z, e).hist| == |z.hist|
    ensures |Next(z.p, e).info| == |z.p.info|
  {
  }

  /** Every event of the processor keeps the whole invariant. */
  lemma ReadyKeptInside(z: System, e: Event, f: Kernel)
    requires Ready(z, f) && HostOk(z) && CanStep(z, Internal(e)) && FirstSight(z.p, e)
    ensures Ready(AfterInternal(z, e), f)
  {
    SoundKept(z.p, e);
    RequestsOkKept(z, e, f);
    BlocksKept(z, e, f);
    AllHoldingKept(z, e, f);
    HistoryKept(z, e);
    ReadyFrom(AfterInternal(z, e), f);
  }

  lemma ReadyFrom(z: System, f: Kernel)
    requires Sound(z.p) && |z.hist| == |z.p.info| && BlocksInv(z) && RequestsOk(z) && AllHolding(z, f)
    ensures Ready(z, f)
  {
  }
}
