/** The kernel-argument and image buffers on the board. */
module Buffers {
  import opened Options
  import opened Protocol
  import opened SlotSafety
  import opened AqlEntries

  /** The packet's image buffer exists from the end of its first transfer on. */
  predicate HasImage(s: State, x: Slot)
    requires x < |s.info|
  {
    s.info[x].status != GetKernarg
  }

  /** The buffers of the packet in slot x. */
  function Holds(s: State, x: Slot): set<Address>
    requires x < |s.info|
  {
    if HasImage(s, x) then {s.info[x].kernarg, s.info[x].image} else {s.info[x].kernarg}
  }

  /** The buffer of the packet that has been admitted but not yet given a slot. */
  function Pending(s: State): set<Address> { if s.phase.Admitted? then {s.phase.kernarg} else {} }

  ghost predicate Live(s: State, x: Slot)
    requires x < |s.info|
  {
    Holds(s, x) <= s.heap.Keys && (HasImage(s, x) ==> s.info[x].kernarg != s.info[x].image)
  }

  ghost predicate Separate(s: State, x: Slot, y: Slot)
    requires x < |s.info| && y < |s.info|
  {
    Holds(s, x) !! Holds(s, y)
  }

  ghost predicate Owned(s: State, a: Address) { a in Pending(s) || exists x: Slot :: InFlight(s, x) && a in Holds(s, x) }

  /** Every packet's buffers are live and its own alone, and there are no others. */
  ghost predicate BufferInv(s: State) {
    && (forall x: Slot :: InFlight(s, x) ==> Live(s, x) && Holds(s, x) !! Pending(s))
    && (forall x: Slot, y: Slot :: InFlight(s, x) && InFlight(s, y) && x != y ==> Separate(s, x, y))
    && Pending(s) <= s.heap.Keys
    && (forall a :: a in s.heap ==> Owned(s, a))
  }

  /** Every request that waits or runs names a buffer of its own packet. */
  ghost predicate RequestsInv(s: State)
    requires WellFormed(s)
  {
    && (forall i :: 0 <= i < |s.dmaQ| ==> DmaTarget(s, s.dmaQ[i]))
    && (s.dma.Some? ==> DmaTarget(s, s.dma.value))
    && (forall i :: 0 <= i < |s.launchQ| ==> LaunchTarget(s, s.launchQ[i]))
    && (forall c :: 0 <= c < |s.cores| && s.cores[c].Some? ==> LaunchTarget(s, s.cores[c].value))
  }

  predicate DmaTarget(s: State, r: DmaRequest)
    requires r.slot < |s.info|
  {
    r.device == if HasImage(s, r.slot) then s.info[r.slot].image else s.info[r.slot].kernarg
  }

  predicate LaunchTarget(s: State, r: LaunchRequest)
    requires r.slot < |s.info|
  {
    var i := s.info[r.slot];
    r.src == i.image && r.dst == i.image && (r.mask.Some? ==> r.mask.value == i.kernarg + 20)
  }

  /** Only the slots, their buffers and the pending one matter. */
  lemma FrameBuffers(s: State, s': State)
    requires BufferInv(s) && s'.heap == s.heap && Pending(s') == Pending(s) && |s'.info| == |s.info| && s'.free == s.free
    requires forall x: Slot :: InFlight(s, x) ==> Holds(s', x) == Holds(s, x) && (HasImage(s', x) <==> HasImage(s, x))
    requires forall x: Slot :: InFlight(s, x) ==> s'.info[x].kernarg == s.info[x].kernarg
    ensures BufferInv(s')
  {
    forall x: Slot | InFlight(s', x) ensures Live(s', x) && Holds(s', x) !! Pending(s') { assert InFlight(s, x) && Live(s, x); }
    forall x: Slot, y: Slot | InFlight(s', x) && InFlight(s', y) && x != y ensures Separate(s', x, y) {
      assert InFlight(s, x) && InFlight(s, y) && Separate(s, x, y);
    }
    forall a | a in s'.heap ensures Owned(s', a) {
      assert Owned(s, a);
      if a !in Pending(s) {
        var x: Slot :| InFlight(s, x) && a in Holds(s, x);
        assert InFlight(s', x) && a in Holds(s', x);
      }
    }
  }

  lemma AdmitBuffers(s: State, block: Address, pasid: int)
    requires SlotInv(s) && BufferInv(s) && 0 <= pasid < 0x1_0000_0000 && Enabled(s, Admit(block, pasid))
    ensures BufferInv(Next(s, Admit(block, pasid)))
  {
    var s' := Next(s, Admit(block, pasid));
    forall x: Slot | InFlight(s', x) ensures Live(s', x) && Holds(s', x) !! Pending(s') { assert InFlight(s, x) && Live(s, x); }
    forall x: Slot, y: Slot | InFlight(s', x) && InFlight(s', y) && x != y ensures Separate(s', x, y) {
      assert InFlight(s, x) && InFlight(s, y) && Separate(s, x, y);
    }
    forall a | a in s'.heap ensures Owned(s', a) {
      if a != block {
        assert Owned(s, a);
        var x: Slot :| InFlight(s, x) && a in Holds(s, x);
        assert InFlight(s', x) && a in Holds(s', x);
      }
    }
  }

  lemma DispatchBuffers(s: State)
    requires SlotInv(s) && BufferInv(s) && Enabled(s, Dispatch)
    ensures BufferInv(DispatchNext(s))
  {
    var s', top := DispatchNext(s), s.free[|s.free| - 1];
    FreeAlone(s);
    forall x: Slot ensures InFlight(s', x) <==> InFlight(s, x) || x == top { DispatchTakes(s, x); }
    forall x: Slot | InFlight(s', x) ensures Live(s', x) && Holds(s', x) !! Pending(s') {
      if x != top { assert InFlight(s, x) && Live(s, x); }
    }
    forall x: Slot, y: Slot | InFlight(s', x) && InFlight(s', y) && x != y ensures Separate(s', x, y) {
      DispatchSeparates(s, x, y);
    }
    forall a | a in s'.heap ensures Owned(s', a) {
      assert Owned(s, a);
      if a in Pending(s) {
        assert InFlight(s', top) && a in Holds(s', top);
      } else {
        var x: Slot :| InFlight(s, x) && a in Holds(s, x);
        assert InFlight(s', x) && a in Holds(s', x);
      }
    }
  }

  lemma DispatchSeparates(s: State, x: Slot, y: Slot)
    requires SlotInv(s) && BufferInv(s) && Enabled(s, Dispatch) && x != y
    requires InFlight(DispatchNext(s), x) && InFlight(DispatchNext(s), y)
    ensures Separate(DispatchNext(s), x, y)
  {
    DispatchTakes(s, x);
    DispatchTakes(s, y);
    if InFlight(s, x) && InFlight(s, y) {
      assert Separate(s, x, y);
    }
  }

  lemma RequestImageBuffers(s: State, args: KernArgs, block: Address)
    requires SlotInv(s) && BufferInv(s) && Enabled(s, Transfer(args, block))
    requires s.info[s.dma.value.slot].status == GetKernarg
    ensures BufferInv(RequestImage(s, args, block))
  {
    var s', slot := RequestImage(s, args, block), s.dma.value.slot;
    DmaAlone(s);
    assert Holds(s', slot) == Holds(s, slot) + {block};
    forall x: Slot | InFlight(s', x) ensures Live(s', x) && Holds(s', x) !! Pending(s') { assert InFlight(s, x) && Live(s, x); }
    forall x: Slot, y: Slot | InFlight(s', x) && InFlight(s', y) && x != y ensures Separate(s', x, y) {
      assert InFlight(s, x) && InFlight(s, y) && Separate(s, x, y) && Live(s, x) && Live(s, y);
    }
    forall a | a in s'.heap ensures Owned(s', a) {
      if a == block {
        assert InFlight(s', slot) && a in Holds(s', slot);
      } else {
        assert Owned(s, a);
        if a !in Pending(s) {
          var x: Slot :| InFlight(s, x) && a in Holds(s, x);
          assert InFlight(s', x) && a in Holds(s', x);
        }
      }
    }
  }

  lemma RetireBuffers(s: State, slot: Slot)
    requires WellFormed(s) && BufferInv(s) && InFlight(s, slot) && HasImage(s, slot)
    ensures BufferInv(Retire(s, slot))
  {
    var s' := Retire(s, slot);
    forall x: Slot | InFlight(s', x) ensures Live(s', x) && Holds(s', x) !! Pending(s') {
      assert InFlight(s, x) && x != slot && Live(s, x) && Separate(s, x, slot);
    }
    forall x: Slot, y: Slot | InFlight(s', x) && InFlight(s', y) && x != y ensures Separate(s', x, y) {
      assert InFlight(s, x) && InFlight(s, y) && Separate(s, x, y);
    }
    assert InFlight(s, slot) && Holds(s, slot) !! Pending(s);
    forall a | a in s'.heap ensures Owned(s', a) {
      assert Owned(s, a);
      if a !in Pending(s) {
        var x: Slot :| InFlight(s, x) && a in Holds(s, x);
        assert x != slot;
        assert InFlight(s', x) && a in Holds(s', x);
      }
    }
  }

  lemma TransferBuffers(s: State, args: KernArgs, block: Address)
    requires SlotInv(s) && BufferInv(s) && Enabled(s, Transfer(args, block))
    ensures BufferInv(TransferNext(s, args, block))
  {
    var slot := s.dma.value.slot;
    DmaAlone(s);
    match s.info[slot].status
    case GetKernarg => RequestImageBuffers(s, args, block);
    case StoreImage =>
      if PacketOf(s, slot).signal == 0 {
        RetireBuffers(s, slot);
        FrameBuffers(Retire(s, slot), TransferNext(s, args, block));
      } else {
        FrameBuffers(s, TransferNext(s, args, block));
      }
    case GetImage => FrameBuffers(s, TransferNext(s, args, block));
    case _ => assert false;
  }

  lemma KernelDoneBuffers(s: State, c: nat, args: KernArgs)
    requires SlotInv(s) && BufferInv(s) && Enabled(s, KernelDone(c, args))
    ensures BufferInv(KernelDoneNext(s, c, args))
  {
    FrameBuffers(s, KernelDoneNext(s, c, args));
  }

  lemma SignalledBuffers(s: State)
    requires SlotInv(s) && BufferInv(s) && Enabled(s, Signalled)
    ensures BufferInv(Next(s, Signalled))
  {
    CmplAlone(s);
    RetireBuffers(s, s.cmpl.value.slot);
    FrameBuffers(Retire(s, s.cmpl.value.slot), Next(s, Signalled));
  }

  lemma BuffersKept(s: State, e: Event)
    requires SlotInv(s) && BufferInv(s) && Enabled(s, e)
    ensures BufferInv(Next(s, e))
  {
    match e
    case Admit(block, pasid) => AdmitBuffers(s, block, pasid);
    case Dispatch => DispatchBuffers(s);
    case Transfer(args, block) => TransferBuffers(s, args, block);
    case KernelDone(c, args) => KernelDoneBuffers(s, c, args);
    case Signalled => SignalledBuffers(s);
    case StartDma | StartKernel | StartDec | RetireBarrier | Skip | Wait | Resume | Produce(_, _) => FrameBuffers(s, Next(s, e));
  }

  lemma InitialBuffers(window: nat, cores: nat, queue: nat)
    requires queue > 0
    ensures BufferInv(Initial(window, cores, queue))
  {
    var s := Initial(window, cores, queue);
    forall x: Slot ensures !InFlight(s, x) { if x < window { assert s.free[x] == x; } }
  }

  lemma BuffersAlong(states: seq<State>, events: seq<Event>)
    requires IsRun(states, events) && SlotInv(states[0]) && BufferInv(states[0])
    ensures forall i :: 0 <= i < |states| ==> SlotInv(states[i]) && BufferInv(states[i])
  {
    SlotInvAlong(states, events);
    for k := 0 to |events|
      invariant forall i :: 0 <= i <= k ==> BufferInv(states[i])
    {
      BuffersKept(states[k], events[k]);
    }
  }

  /** When nothing is in flight and nothing admitted, no buffer is left. */
  lemma NothingLeaks(s: State)
    requires BufferInv(s) && s.phase.Polling? && forall x: Slot :: !InFlight(s, x)
    ensures s.heap == map[]
  {
    forall a ensures a !in s.heap {
      assert a in s.heap ==> Owned(s, a);
    }
    assert s.heap == map[];
  }

  /** The slot whose buffers the event frees. */
  function Freeing(s: State, e: Event): Option<Slot> {
    if e.Signalled? && s.cmpl.Some? then Some(s.cmpl.value.slot)
    else if e.Transfer? && s.dma.Some? && s.dma.value.slot < |s.info| && s.info[s.dma.value.slot].kp < |s.aql|
            && s.info[s.dma.value.slot].status == StoreImage && PacketOf(s, s.dma.value.slot).signal == 0 then
      Some(s.dma.value.slot)
    else None
  }

  /** A packet's two buffers are both live when it frees them, they alone go, and only then: with BuffersKept and
      FreshBlock every buffer is freed once for each time it was allocated. */
  lemma FreedWhileLive(s: State, e: Event)
    requires SlotInv(s) && BufferInv(s) && Enabled(s, e)
    ensures Freeing(s, e).Some? ==>
      var x := Freeing(s, e).value;
      && x < |s.info| && InFlight(s, x) && !InFlight(Next(s, e), x)
      && Next(s, e).heap.Keys == s.heap.Keys - Holds(s, x) && |Holds(s, x)| == 2 && Holds(s, x) <= s.heap.Keys
    ensures Freeing(s, e).None? ==> s.heap.Keys <= Next(s, e).heap.Keys
  {
    match e
    case Signalled =>
      CmplAlone(s);
      assert Live(s, s.cmpl.value.slot);
    case Transfer(args, block) =>
      DmaAlone(s);
      assert InFlight(s, s.dma.value.slot) && Live(s, s.dma.value.slot);
    case _ =>
  }

  lemma DispatchRequests(s: State)
    requires SlotInv(s) && RequestsInv(s) && Enabled(s, Dispatch)
    ensures WellFormed(DispatchNext(s)) && RequestsInv(DispatchNext(s))
  {
    FreeAlone(s);
    DispatchKeepsStatus(s);
  }

  lemma RequestImageRequests(s: State, args: KernArgs, block: Address)
    requires SlotInv(s) && RequestsInv(s) && s.dma.Some? && s.info[s.dma.value.slot].status == GetKernarg
    ensures WellFormed(RequestImage(s, args, block)) && RequestsInv(RequestImage(s, args, block))
  {
    RequestImageKeepsStatus(s, args, block);
    DmaAlone(s);
  }

  lemma RequestLaunchRequests(s: State, args: KernArgs)
    requires SlotInv(s) && RequestsInv(s) && s.dma.Some? && s.info[s.dma.value.slot].status == GetImage
    ensures WellFormed(RequestLaunch(s, args)) && RequestsInv(RequestLaunch(s, args))
  {
    RequestLaunchKeepsStatus(s, args);
    DmaAlone(s);
  }

  lemma FinishStoreRequests(s: State)
    requires SlotInv(s) && RequestsInv(s) && s.dma.Some? && s.info[s.dma.value.slot].status == StoreImage
    ensures WellFormed(FinishStore(s)) && RequestsInv(FinishStore(s))
  {
    FinishStoreKeepsStatus(s);
    DmaAlone(s);
  }

  lemma TransferRequests(s: State, args: KernArgs, block: Address)
    requires SlotInv(s) && RequestsInv(s) && Enabled(s, Transfer(args, block))
    ensures WellFormed(TransferNext(s, args, block)) && RequestsInv(TransferNext(s, args, block))
  {
    match s.info[s.dma.value.slot].status
    case GetKernarg => RequestImageRequests(s, args, block);
    case GetImage => RequestLaunchRequests(s, args);
    case StoreImage => FinishStoreRequests(s);
    case _ => assert false;
  }

  lemma KernelDoneRequests(s: State, c: nat, args: KernArgs)
    requires SlotInv(s) && RequestsInv(s) && Enabled(s, KernelDone(c, args))
    ensures WellFormed(KernelDoneNext(s, c, args)) && RequestsInv(KernelDoneNext(s, c, args))
  {
    KernelDoneKeepsStatus(s, c, args);
    CoreAlone(s, c);
    var s' := KernelDoneNext(s, c, args);
    assert forall d :: 0 <= d < |s'.cores| && s'.cores[d].Some? ==> s'.cores[d] == s.cores[d];
  }

  lemma StartDmaRequests(s: State)
    requires SlotInv(s) && RequestsInv(s) && Enabled(s, StartDma)
    ensures WellFormed(Next(s, StartDma)) && RequestsInv(Next(s, StartDma))
  {
    StartKeepsStatus(s, StartDma);
  }

  lemma StartKernelRequests(s: State)
    requires SlotInv(s) && RequestsInv(s) && Enabled(s, StartKernel)
    ensures WellFormed(Next(s, StartKernel)) && RequestsInv(Next(s, StartKernel))
  {
    StartKeepsStatus(s, StartKernel);
  }

  lemma StartDecRequests(s: State)
    requires SlotInv(s) && RequestsInv(s) && Enabled(s, StartDec)
    ensures WellFormed(Next(s, StartDec)) && RequestsInv(Next(s, StartDec))
  {
    StartKeepsStatus(s, StartDec);
  }

  lemma SignalledRequests(s: State)
    requires SlotInv(s) && RequestsInv(s) && Enabled(s, Signalled)
    ensures WellFormed(Next(s, Signalled)) && RequestsInv(Next(s, Signalled))
  {
    SignalledKeepsStatus(s);
  }

  lemma HeadRequests(s: State, e: Event)
    requires SlotInv(s) && RequestsInv(s) && Enabled(s, e) && AtHead(e)
    ensures WellFormed(Next(s, e)) && RequestsInv(Next(s, e))
  {
    HeadKeepsStatus(s, e);
  }

  lemma RequestsKept(s: State, e: Event)
    requires SlotInv(s) && RequestsInv(s) && Enabled(s, e)
    ensures WellFormed(Next(s, e)) && RequestsInv(Next(s, e))
  {
    match e
    case Dispatch => DispatchRequests(s);
    case Transfer(args, block) => TransferRequests(s, args, block);
    case KernelDone(c, args) => KernelDoneRequests(s, c, args);
    case StartDma => StartDmaRequests(s);
    case StartKernel => StartKernelRequests(s);
    case StartDec => StartDecRequests(s);
    case Signalled => SignalledRequests(s);
    case Admit(_, _) | RetireBarrier | Skip | Wait | Resume | Produce(_, _) => HeadRequests(s, e);
  }

  /** No transfer or launch, waiting or running, names a buffer that has been freed. */
  lemma NoUseAfterFree(s: State)
    requires SlotInv(s) && BufferInv(s) && RequestsInv(s)
    ensures s.dma.Some? ==> s.dma.value.device in s.heap
    ensures forall i :: 0 <= i < |s.dmaQ| ==> s.dmaQ[i].device in s.heap
    ensures forall i :: 0 <= i < |s.launchQ| ==> s.launchQ[i].src in s.heap && s.launchQ[i].dst in s.heap
    ensures forall c :: 0 <= c < |s.cores| && s.cores[c].Some? ==>
      var r := s.cores[c].value;
      r.src in s.heap && r.dst in s.heap && (r.mask.Some? ==> r.mask.value - 20 in s.heap)
  {
    if s.dma.Some? { DmaAlone(s); assert Live(s, s.dma.value.slot); }
    forall i | 0 <= i < |s.dmaQ| ensures s.dmaQ[i].device in s.heap {
      assert DmaSlots(s.dmaQ)[i] == s.dmaQ[i].slot;
      CountMember(DmaSlots(s.dmaQ), s.dmaQ[i].slot);
      RingInFlight(s, s.dmaQ[i].slot);
      assert Live(s, s.dmaQ[i].slot);
    }
    forall i | 0 <= i < |s.launchQ| ensures s.launchQ[i].src in s.heap && s.launchQ[i].dst in s.heap {
      assert LaunchSlots(s.launchQ)[i] == s.launchQ[i].slot;
      CountMember(LaunchSlots(s.launchQ), s.launchQ[i].slot);
      RingInFlight(s, s.launchQ[i].slot);
      assert Live(s, s.launchQ[i].slot);
    }
    forall c | 0 <= c < |s.cores| && s.cores[c].Some?
      ensures var r := s.cores[c].value;
        r.src in s.heap && r.dst in s.heap && (r.mask.Some? ==> r.mask.value - 20 in s.heap)
    {
      CoreAlone(s, c);
      assert Live(s, s.cores[c].value.slot);
    }
  }

  lemma RingInFlight(s: State, x: Slot)
    requires SlotInv(s) && (Count(DmaSlots(s.dmaQ), x) > 0 || Count(LaunchSlots(s.launchQ), x) > 0)
    ensures InFlight(s, x)
  {
    assert Places(s, x) == 1;
    CountMember(s.free, x);
  }

  lemma RequestsAlong(states: seq<State>, events: seq<Event>)
    requires IsRun(states, events) && SlotInv(states[0]) && RequestsInv(states[0])
    ensures forall i :: 0 <= i < |states| ==> SlotInv(states[i]) && RequestsInv(states[i])
  {
    SlotInvAlong(states, events);
    for k := 0 to |events|
      invariant forall i :: 0 <= i <= k ==> WellFormed(states[i]) && RequestsInv(states[i])
    {
      RequestsKept(states[k], events[k]);
    }
  }

  /** In every reachable state the buffers in use are live, unshared and all accounted for. */
  lemma BuffersReachable(states: seq<State>, events: seq<Event>, window: nat, cores: nat, queue: nat)
    requires queue > 0 && IsRun(states, events) && states[0] == Initial(window, cores, queue)
    ensures forall i :: 0 <= i < |states| ==> SlotInv(states[i]) && BufferInv(states[i]) && RequestsInv(states[i])
  {
    InitialSlots(window, cores, queue);
    InitialBuffers(window, cores, queue);
    BuffersAlong(states, events);
    RequestsAlong(states, events);
  }
}
