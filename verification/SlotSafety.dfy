/** Where the window slots are: every event moves at most one of them, so each is always in one place. */
module SlotSafety {
  import opened Options
  import opened Bits
  import opened Protocol

  function DmaSlots(q: seq<DmaRequest>): (r: seq<Slot>) { seq(|q|, i requires 0 <= i < |q| => q[i].slot) }

  function LaunchSlots(q: seq<LaunchRequest>): (r: seq<Slot>) { seq(|q|, i requires 0 <= i < |q| => q[i].slot) }

  function DecSlots(q: seq<DecRequest>): (r: seq<Slot>) { seq(|q|, i requires 0 <= i < |q| => q[i].slot) }

  function DmaSlot(o: Option<DmaRequest>): seq<Slot> { if o.Some? then [o.value.slot] else [] }

  function CoreSlot(o: Option<LaunchRequest>): seq<Slot> { if o.Some? then [o.value.slot] else [] }

  function DecSlot(o: Option<DecRequest>): seq<Slot> { if o.Some? then [o.value.slot] else [] }

  function CoreSlots(cores: seq<Option<LaunchRequest>>): seq<Slot> {
    if cores == [] then [] else CoreSlot(cores[0]) + CoreSlots(cores[1..])
  }

  function Count(q: seq<Slot>, x: Slot): nat { multiset(q)[x] }

  /** In how many places slot x is: the free stack, the three rings, the three kinds of engine. */
  function Places(s: State, x: Slot): nat {
    Count(s.free, x) + Count(DmaSlots(s.dmaQ), x) + Count(DmaSlot(s.dma), x) + Count(LaunchSlots(s.launchQ), x)
    + Count(CoreSlots(s.cores), x) + Count(DecSlots(s.decQ), x) + Count(DecSlot(s.cmpl), x)
  }

  /** Each window slot is in exactly one place, and nothing else is anywhere. */
  ghost predicate OnePlaceEach(s: State) {
    forall x: Slot :: Places(s, x) == if x < |s.info| then 1 else 0
  }

  lemma CountPush(q: seq<Slot>, y: Slot, x: Slot)
    ensures Count(q + [y], x) == Count(q, x) + Count([y], x)
  {
  }

  lemma CountPop(q: seq<Slot>, x: Slot)
    requires q != []
    ensures Count(q, x) == Count(q[1..], x) + Count([q[0]], x)
  {
    assert q == [q[0]] + q[1..];
  }

  lemma CountJoin(p: seq<Slot>, q: seq<Slot>, x: Slot)
    ensures Count(p + q, x) == Count(p, x) + Count(q, x)
  {
  }

  lemma CountMember(q: seq<Slot>, x: Slot)
    ensures x in q <==> Count(q, x) > 0
  {
  }

  lemma TailUpdated<T>(q: seq<T>, c: nat, v: T)
    requires c < |q|
    ensures q[c := v][1..] == if c == 0 then q[1..] else q[1..][c - 1 := v]
  {
  }

  lemma CountCores(cores: seq<Option<LaunchRequest>>, x: Slot)
    requires cores != []
    ensures Count(CoreSlots(cores), x) == Count(CoreSlot(cores[0]), x) + Count(CoreSlots(cores[1..]), x)
  {
    CountJoin(CoreSlot(cores[0]), CoreSlots(cores[1..]), x);
  }

  lemma {:induction false} CoreCount(cores: seq<Option<LaunchRequest>>, c: nat, o: Option<LaunchRequest>, x: Slot)
    requires c < |cores|
    ensures Count(CoreSlots(cores[c := o]), x) + Count(CoreSlot(cores[c]), x)
      == Count(CoreSlots(cores), x) + Count(CoreSlot(o), x)
  {
    var changed := cores[c := o];
    CountCores(cores, x);
    CountCores(changed, x);
    TailUpdated(cores, c, o);
    if c > 0 {
      CoreCount(cores[1..], c - 1, o, x);
    }
  }

  lemma CoreMember(cores: seq<Option<LaunchRequest>>, c: nat)
    requires c < |cores| && cores[c].Some?
    ensures Count(CoreSlots(cores), cores[c].value.slot) > 0
  {
    CoreCount(cores, c, None, cores[c].value.slot);
  }

  lemma DispatchMoves(s: State, x: Slot)
    requires Enabled(s, Dispatch)
    ensures Places(DispatchNext(s), x) == Places(s, x)
  {
    var n := |s.free| - 1;
    assert s.free == s.free[..n] + [s.free[n]];
    CountPush(s.free[..n], s.free[n], x);
    DmaPush(s.dmaQ, DispatchNext(s).dmaQ[|s.dmaQ|], x);
  }

  lemma DmaPush(q: seq<DmaRequest>, r: DmaRequest, x: Slot)
    ensures Count(DmaSlots(q + [r]), x) == Count(DmaSlots(q), x) + Count([r.slot], x)
  {
    assert DmaSlots(q + [r]) == DmaSlots(q) + [r.slot];
    CountPush(DmaSlots(q), r.slot, x);
  }

  lemma StartDmaMoves(s: State, x: Slot)
    requires Enabled(s, StartDma)
    ensures Places(Next(s, StartDma), x) == Places(s, x)
  {
    assert DmaSlots(s.dmaQ)[1..] == DmaSlots(s.dmaQ[1..]);
    CountPop(DmaSlots(s.dmaQ), x);
  }

  lemma LaunchPop(q: seq<LaunchRequest>, x: Slot)
    requires q != []
    ensures Count(LaunchSlots(q), x) == Count(LaunchSlots(q[1..]), x) + Count([q[0].slot], x)
  {
    assert LaunchSlots(q)[1..] == LaunchSlots(q[1..]);
    CountPop(LaunchSlots(q), x);
  }

  lemma StartKernelMoves(s: State, x: Slot)
    requires Enabled(s, StartKernel)
    ensures Places(Next(s, StartKernel), x) == Places(s, x)
  {
    LaunchPop(s.launchQ, x);
    CoreCount(s.cores, FirstIdle(s.cores), Some(s.launchQ[0]), x);
  }

  lemma StartDecMoves(s: State, x: Slot)
    requires Enabled(s, StartDec)
    ensures Places(Next(s, StartDec), x) == Places(s, x)
  {
    assert DecSlots(s.decQ)[1..] == DecSlots(s.decQ[1..]);
    CountPop(DecSlots(s.decQ), x);
  }

  lemma RequestImageMoves(s: State, args: KernArgs, block: Address, x: Slot)
    requires DmaActive(s)
    ensures Places(RequestImage(s, args, block), x) == Places(s, x)
  {
    DmaPush(s.dmaQ, RequestImage(s, args, block).dmaQ[|s.dmaQ|], x);
  }

  lemma RequestLaunchMoves(s: State, args: KernArgs, x: Slot)
    requires DmaActive(s)
    ensures Places(RequestLaunch(s, args), x) == Places(s, x)
  {
    var slot := s.dma.value.slot;
    assert LaunchSlots(RequestLaunch(s, args).launchQ) == LaunchSlots(s.launchQ) + [slot];
    CountPush(LaunchSlots(s.launchQ), slot, x);
  }

  lemma FinishStoreMoves(s: State, x: Slot)
    requires DmaActive(s)
    ensures Places(FinishStore(s), x) == Places(s, x)
  {
    var slot := s.dma.value.slot;
    if PacketOf(s, slot).signal != 0 {
      assert DecSlots(FinishStore(s).decQ) == DecSlots(s.decQ) + [slot];
      CountPush(DecSlots(s.decQ), slot, x);
    } else {
      CountPush(s.free, slot, x);
    }
  }

  lemma TransferMoves(s: State, args: KernArgs, block: Address, x: Slot)
    requires DmaActive(s) && s.info[s.dma.value.slot].status in {GetKernarg, GetImage, StoreImage}
    ensures Places(TransferNext(s, args, block), x) == Places(s, x)
  {
    match s.info[s.dma.value.slot].status
    case GetKernarg => RequestImageMoves(s, args, block, x);
    case GetImage => RequestLaunchMoves(s, args, x);
    case StoreImage => FinishStoreMoves(s, x);
  }

  lemma KernelDoneMoves(s: State, c: nat, args: KernArgs, x: Slot)
    requires Enabled(s, KernelDone(c, args))
    ensures Places(KernelDoneNext(s, c, args), x) == Places(s, x)
  {
    DmaPush(s.dmaQ, KernelDoneNext(s, c, args).dmaQ[|s.dmaQ|], x);
    CoreCount(s.cores, c, None, x);
  }

  /** No event creates, loses or duplicates a slot number. */
  lemma PlacesConserved(s: State, e: Event, x: Slot)
    requires Enabled(s, e)
    requires s.dma.Some? ==> s.info[s.dma.value.slot].status in {GetKernarg, GetImage, StoreImage}
    ensures Places(Next(s, e), x) == Places(s, x)
  {
    match e
    case Dispatch => DispatchMoves(s, x);
    case StartDma => StartDmaMoves(s, x);
    case StartKernel => StartKernelMoves(s, x);
    case StartDec => StartDecMoves(s, x);
    case Transfer(args, block) => TransferMoves(s, args, block, x);
    case KernelDone(c, args) => KernelDoneMoves(s, c, args, x);
    case Signalled => CountPush(s.free, s.cmpl.value.slot, x);
    case _ =>
  }

  /** A slot's status is the one of the place it is in. */
  ghost predicate StatusMatches(s: State)
    requires WellFormed(s)
  {
    && (forall i :: 0 <= i < |s.dmaQ| ==> DmaStatus(s, s.dmaQ[i]))
    && (s.dma.Some? ==> DmaStatus(s, s.dma.value))
    && (forall i :: 0 <= i < |s.launchQ| ==> s.info[s.launchQ[i].slot].status == Processing)
    && (forall c :: 0 <= c < |s.cores| && s.cores[c].Some? ==> s.info[s.cores[c].value.slot].status == Processing)
    && (forall i :: 0 <= i < |s.decQ| ==> s.info[s.decQ[i].slot].status == Completion)
    && (s.cmpl.Some? ==> s.info[s.cmpl.value.slot].status == Completion)
  }

  predicate DmaStatus(s: State, r: DmaRequest)
    requires r.slot < |s.info|
  {
    var status := s.info[r.slot].status;
    if r.direction == StoreData then status == StoreImage else status == GetKernarg || status == GetImage
  }

  /** The check of line 58 is not repeated at line 90, and need not be. */
  ghost predicate RoomAhead(s: State) { !s.phase.Polling? ==> |s.free| > 0 }

  /** READ_INDEX counts completions: everything passed is completed, in flight, or of a type never completed. */
  ghost predicate Accounted(s: State) { s.read + InFlightCount(s) + s.skipped == s.current }

  ghost predicate SlotInv(s: State) {
    WellFormed(s) && OnePlaceEach(s) && StatusMatches(s) && RoomAhead(s) && Accounted(s)
  }

  /** No queued or running entry other than the given engine's holds slot x. */
  ghost predicate Elsewhere(s: State, x: Slot) {
    && (forall i :: 0 <= i < |s.dmaQ| ==> s.dmaQ[i].slot != x)
    && (forall i :: 0 <= i < |s.launchQ| ==> s.launchQ[i].slot != x)
    && (forall i :: 0 <= i < |s.decQ| ==> s.decQ[i].slot != x)
  }

  lemma NotHeld(s: State, x: Slot)
    requires Count(DmaSlots(s.dmaQ), x) == 0 && Count(LaunchSlots(s.launchQ), x) == 0 && Count(DecSlots(s.decQ), x) == 0
    ensures Elsewhere(s, x)
  {
    CountMember(DmaSlots(s.dmaQ), x);
    CountMember(LaunchSlots(s.launchQ), x);
    CountMember(DecSlots(s.decQ), x);
    forall i | 0 <= i < |s.dmaQ| ensures s.dmaQ[i].slot != x { assert DmaSlots(s.dmaQ)[i] == s.dmaQ[i].slot; }
    forall i | 0 <= i < |s.launchQ| ensures s.launchQ[i].slot != x { assert LaunchSlots(s.launchQ)[i] == s.launchQ[i].slot; }
    forall i | 0 <= i < |s.decQ| ensures s.decQ[i].slot != x { assert DecSlots(s.decQ)[i] == s.decQ[i].slot; }
  }

  ghost predicate NoCore(s: State, x: Slot) {
    forall c :: 0 <= c < |s.cores| && s.cores[c].Some? ==> s.cores[c].value.slot != x
  }

  lemma NotOnCores(s: State, x: Slot)
    requires Count(CoreSlots(s.cores), x) == 0
    ensures NoCore(s, x)
  {
    forall c | 0 <= c < |s.cores| && s.cores[c].Some? ensures s.cores[c].value.slot != x {
      CoreMember(s.cores, c);
    }
  }

  ghost predicate DmaIdleFor(s: State, x: Slot) { s.dma.Some? ==> s.dma.value.slot != x }

  ghost predicate CmplIdleFor(s: State, x: Slot) { s.cmpl.Some? ==> s.cmpl.value.slot != x }

  lemma DmaAlone(s: State)
    requires OnePlaceEach(s) && s.dma.Some?
    ensures var x := s.dma.value.slot;
      x < |s.info| && x !in s.free && Elsewhere(s, x) && NoCore(s, x) && CmplIdleFor(s, x)
  {
    var x := s.dma.value.slot;
    assert Count(DmaSlot(s.dma), x) == 1 && Places(s, x) == 1;
    NotHeld(s, x);
    NotOnCores(s, x);
    CountMember(s.free, x);
    CountMember(DecSlot(s.cmpl), x);
  }

  lemma CoreAlone(s: State, c: nat)
    requires OnePlaceEach(s) && c < |s.cores| && s.cores[c].Some?
    ensures var x := s.cores[c].value.slot;
      && x < |s.info| && x !in s.free && Elsewhere(s, x) && DmaIdleFor(s, x) && CmplIdleFor(s, x)
      && NoCore(s.(cores := s.cores[c := None]), x)
  {
    var x := s.cores[c].value.slot;
    CoreMember(s.cores, c);
    assert Places(s, x) == 1;
    NotHeld(s, x);
    CoreCount(s.cores, c, None, x);
    NotOnCores(s.(cores := s.cores[c := None]), x);
    CountMember(s.free, x);
    CountMember(DmaSlot(s.dma), x);
    CountMember(DecSlot(s.cmpl), x);
  }

  lemma CmplAlone(s: State)
    requires OnePlaceEach(s) && s.cmpl.Some?
    ensures var x := s.cmpl.value.slot;
      x < |s.info| && x !in s.free && Elsewhere(s, x) && NoCore(s, x) && DmaIdleFor(s, x)
  {
    var x := s.cmpl.value.slot;
    assert Count(DecSlot(s.cmpl), x) == 1 && Places(s, x) == 1;
    NotHeld(s, x);
    NotOnCores(s, x);
    CountMember(s.free, x);
    CountMember(DmaSlot(s.dma), x);
  }

  lemma FreeAlone(s: State)
    requires OnePlaceEach(s) && |s.free| > 0
    ensures var n := |s.free| - 1;
      var x := s.free[n];
      && x < |s.info| && x !in s.free[..n] && Elsewhere(s, x) && NoCore(s, x) && DmaIdleFor(s, x) && CmplIdleFor(s, x)
  {
    var n := |s.free| - 1;
    var x := s.free[n];
    assert s.free == s.free[..n] + [x];
    CountPush(s.free[..n], x, x);
    assert Places(s, x) == 1;
    NotHeld(s, x);
    NotOnCores(s, x);
    CountMember(s.free[..n], x);
    CountMember(DmaSlot(s.dma), x);
    CountMember(DecSlot(s.cmpl), x);
  }

  lemma DispatchKeepsStatus(s: State)
    requires SlotInv(s) && Enabled(s, Dispatch)
    ensures WellFormed(DispatchNext(s)) && StatusMatches(DispatchNext(s))
  {
    FreeAlone(s);
  }

  lemma RequestImageKeepsStatus(s: State, args: KernArgs, block: Address)
    requires SlotInv(s) && s.dma.Some? && s.info[s.dma.value.slot].status == GetKernarg
    ensures WellFormed(RequestImage(s, args, block)) && StatusMatches(RequestImage(s, args, block))
  {
    DmaAlone(s);
  }

  lemma RequestLaunchKeepsStatus(s: State, args: KernArgs)
    requires SlotInv(s) && s.dma.Some? && s.info[s.dma.value.slot].status == GetImage
    ensures WellFormed(RequestLaunch(s, args)) && StatusMatches(RequestLaunch(s, args))
  {
    DmaAlone(s);
  }

  lemma FinishStoreKeepsStatus(s: State)
    requires SlotInv(s) && s.dma.Some? && s.info[s.dma.value.slot].status == StoreImage
    ensures WellFormed(FinishStore(s)) && StatusMatches(FinishStore(s))
  {
    DmaAlone(s);
  }

  lemma KernelDoneKeepsStatus(s: State, c: nat, args: KernArgs)
    requires SlotInv(s) && Enabled(s, KernelDone(c, args))
    ensures WellFormed(KernelDoneNext(s, c, args)) && StatusMatches(KernelDoneNext(s, c, args))
  {
    CoreAlone(s, c);
    var s' := KernelDoneNext(s, c, args);
    assert forall d :: 0 <= d < |s'.cores| && s'.cores[d].Some? ==> s'.cores[d] == s.cores[d];
  }

  lemma StartKeepsStatus(s: State, e: Event)
    requires SlotInv(s) && Enabled(s, e) && (e.StartDma? || e.StartKernel? || e.StartDec?)
    ensures WellFormed(Next(s, e)) && StatusMatches(Next(s, e))
  {
  }

  lemma SignalledKeepsStatus(s: State)
    requires SlotInv(s) && Enabled(s, Signalled)
    ensures WellFormed(Next(s, Signalled)) && StatusMatches(Next(s, Signalled))
  {
  }

  lemma TransferKeepsStatus(s: State, args: KernArgs, block: Address)
    requires SlotInv(s) && Enabled(s, Transfer(args, block))
    ensures WellFormed(TransferNext(s, args, block)) && StatusMatches(TransferNext(s, args, block))
  {
    match s.info[s.dma.value.slot].status
    case GetKernarg => RequestImageKeepsStatus(s, args, block);
    case GetImage => RequestLaunchKeepsStatus(s, args);
    case StoreImage => FinishStoreKeepsStatus(s);
    case _ => assert false;
  }

  lemma HeadKeepsStatus(s: State, e: Event)
    requires SlotInv(s) && Enabled(s, e) && AtHead(e)
    ensures WellFormed(Next(s, e)) && StatusMatches(Next(s, e))
  {
  }

  lemma StatusKept(s: State, e: Event)
    requires SlotInv(s) && Enabled(s, e)
    ensures WellFormed(Next(s, e)) && StatusMatches(Next(s, e))
  {
    match e
    case Dispatch => DispatchKeepsStatus(s);
    case Transfer(args, block) => TransferKeepsStatus(s, args, block);
    case KernelDone(c, args) => KernelDoneKeepsStatus(s, c, args);
    case Signalled => SignalledKeepsStatus(s);
    case StartDma | StartKernel | StartDec => StartKeepsStatus(s, e);
    case Admit(_, _) | RetireBarrier | Skip | Wait | Resume | Produce(_, _) => HeadKeepsStatus(s, e);
  }

  /** Every event keeps the invariant. */
  lemma SlotInvKept(s: State, e: Event)
    requires SlotInv(s) && Enabled(s, e)
    ensures SlotInv(Next(s, e))
  {
    forall x: Slot ensures Places(Next(s, e), x) == Places(s, x) {
      PlacesConserved(s, e, x);
    }
    StatusKept(s, e);
    assert |Next(s, e).info| == |s.info|;
  }

  lemma InitialSlots(window: nat, cores: nat, queue: nat)
    requires queue > 0
    ensures SlotInv(Initial(window, cores, queue))
  {
    var s := Initial(window, cores, queue);
    NoCores(s.cores);
    forall x: Slot ensures Places(s, x) == if x < window then 1 else 0 {
      IdentityCount(window, x);
    }
  }

  lemma {:induction false} NoCores(cores: seq<Option<LaunchRequest>>)
    requires forall c :: 0 <= c < |cores| ==> cores[c].None?
    ensures CoreSlots(cores) == []
  {
    if cores != [] {
      NoCores(cores[1..]);
    }
  }

  lemma {:induction false} IdentityCount(n: nat, x: Slot)
    ensures Count(seq(n, i => i), x) == if x < n then 1 else 0
  {
    if n > 0 {
      IdentityCount(n - 1, x);
      assert seq(n, i => i) == seq(n - 1, i => i) + [n - 1];
      CountPush(seq(n - 1, i => i), n - 1, x);
    }
  }

  /** In every reachable state. */
  lemma SlotInvReachable(states: seq<State>, events: seq<Event>, window: nat, cores: nat, queue: nat)
    requires queue > 0 && IsRun(states, events) && states[0] == Initial(window, cores, queue)
    ensures forall i :: 0 <= i < |states| ==> SlotInv(states[i])
  {
    InitialSlots(window, cores, queue);
    SlotInvAlong(states, events);
  }

  lemma SlotInvAlong(states: seq<State>, events: seq<Event>)
    requires IsRun(states, events) && SlotInv(states[0])
    ensures forall i :: 0 <= i < |states| ==> SlotInv(states[i])
  {
    for k := 0 to |events|
      invariant forall i :: 0 <= i <= k ==> SlotInv(states[i])
    {
      SlotInvKept(states[k], events[k]);
    }
  }

  /** Everything held anywhere, end to end. */
  function Held(s: State): seq<Slot> {
    s.free + DmaSlots(s.dmaQ) + DmaSlot(s.dma) + LaunchSlots(s.launchQ) + CoreSlots(s.cores) + DecSlots(s.decQ) + DecSlot(s.cmpl)
  }

  lemma HeldCount(s: State, x: Slot)
    ensures Count(Held(s), x) == Places(s, x)
  {
    var a := s.free + DmaSlots(s.dmaQ);
    var b := a + DmaSlot(s.dma);
    var c := b + LaunchSlots(s.launchQ);
    var d := c + CoreSlots(s.cores);
    var e := d + DecSlots(s.decQ);
    CountJoin(s.free, DmaSlots(s.dmaQ), x);
    CountJoin(a, DmaSlot(s.dma), x);
    CountJoin(b, LaunchSlots(s.launchQ), x);
    CountJoin(c, CoreSlots(s.cores), x);
    CountJoin(d, DecSlots(s.decQ), x);
    CountJoin(e, DecSlot(s.cmpl), x);
  }

  lemma SameCounts(p: seq<Slot>, q: seq<Slot>)
    requires forall x: Slot :: Count(p, x) == Count(q, x)
    ensures |p| == |q|
  {
    assert multiset(p) == multiset(q) by {
      forall x: Slot ensures multiset(p)[x] == multiset(q)[x] { assert Count(p, x) == Count(q, x); }
    }
    assert |multiset(p)| == |p| && |multiset(q)| == |q|;
  }

  /** The free stack, the three rings and the engines together always hold exactly as many entries as the
      window has slots, so no ring ever overflows. */
  lemma RingsFit(s: State)
    requires SlotInv(s)
    ensures |s.free| + |s.dmaQ| + |DmaSlot(s.dma)| + |s.launchQ| + |CoreSlots(s.cores)| + |s.decQ| + |DecSlot(s.cmpl)|
      == |s.info|
  {
    forall x: Slot ensures Count(Held(s), x) == Count(seq(|s.info|, i => i), x) {
      HeldCount(s, x);
      IdentityCount(|s.info|, x);
    }
    SameCounts(Held(s), seq(|s.info|, i => i));
  }

  /** A packet that passes the barrier wait finds every earlier one complete, and none of a skipped type before it. */
  lemma BarrierWaitMeaning(s: State)
    requires SlotInv(s)
    ensures s.current == s.read <==> (forall x: Slot :: !InFlight(s, x)) && s.skipped == 0
  {
    RingsFit(s);
    if forall x: Slot :: !InFlight(s, x) {
      AllFree(s);
    }
    if x: Slot :| InFlight(s, x) {
      SomethingHeld(s, x);
    }
  }

  lemma AllFree(s: State)
    requires SlotInv(s) && forall x: Slot :: !InFlight(s, x)
    ensures |s.free| == |s.info|
  {
    forall x: Slot ensures Count(s.free, x) == Count(seq(|s.info|, i => i), x) {
      IdentityCount(|s.info|, x);
      CountMember(s.free, x);
      assert !InFlight(s, x);
      assert Places(s, x) <= 1;
    }
    SameCounts(s.free, seq(|s.info|, i => i));
  }

  lemma SomethingHeld(s: State, x: Slot)
    requires SlotInv(s) && InFlight(s, x)
    ensures |s.free| < |s.info|
  {
    CountMember(s.free, x);
    assert Places(s, x) == 1;
    RingsFit(s);
  }

  lemma SkippedStays(s: State, e: Event)
    requires Enabled(s, e)
    ensures Next(s, e).skipped >= s.skipped
  {
  }

  /** Once a packet of a skipped type has gone by, a barrier bit blocks the queue for good. */
  lemma SkippedBlocksBarriers(states: seq<State>, events: seq<Event>, k: nat)
    requires IsRun(states, events) && k < |states| && SlotInv(states[0]) && states[k].skipped > 0
    ensures forall i :: k <= i < |states| ==> states[i].current != states[i].read
  {
    SlotInvAlong(states, events);
    BarrierWaitMeaning(states[k]);
    for i := k to |events|
      invariant states[i].skipped > 0
      invariant forall j :: k <= j <= i ==> states[j].current != states[j].read
    {
      SkippedStays(states[i], events[i]);
      BarrierWaitMeaning(states[i + 1]);
    }
  }

  /** What the main loop does with a barrier packet that has a completion signal: the queue index stands where a
      slot number is expected. */
  function SignalledBarrier(s: State, signal: U64, pasid: U32): State
    requires |s.aql| > 0
  {
    s.(decQ := s.decQ + [DecRequest(s.current % |s.aql|, signal, pasid)], current := s.current + 1, phase := Polling)
  }

  /** So the index is then held once too often, or is no slot at all: the invariant never survives such a packet. */
  lemma SignalledBarrierBreaksSlots(s: State, signal: U64, pasid: U32)
    requires SlotInv(s)
    ensures !OnePlaceEach(SignalledBarrier(s, signal, pasid))
  {
    var s', x := SignalledBarrier(s, signal, pasid), s.current % |s.aql|;
    assert DecSlots(s'.decQ) == DecSlots(s.decQ) + [x];
    CountPush(DecSlots(s.decQ), x, x);
    assert Places(s', x) == Places(s, x) + 1;
  }
}
