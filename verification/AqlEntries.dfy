/** The AQL entries behind the packets in flight. */
module AqlEntries {
  import opened Bits
  import opened Protocol
  import opened SlotSafety

  /** Each packet in flight has its own entry, still marked as a kernel dispatch, at its number modulo the queue length. */
  ghost predicate EntriesInv(s: State) {
    && |s.aql| > 0
    && (forall x: Slot :: InFlight(s, x) ==> OwnEntry(s, x))
    && (forall x: Slot, y: Slot :: InFlight(s, x) && InFlight(s, y) && x != y ==> Apart(s, x, y))
    && (s.phase.Admitted? ==> Head(s).kind == KernelDispatch && NewPacket(s))
  }

  ghost predicate OwnEntry(s: State, x: Slot)
    requires |s.aql| > 0 && x < |s.info|
  {
    var i := s.info[x];
    i.kp == i.num % |s.aql| && s.aql[i.kp].kind == KernelDispatch && i.num < s.current
  }

  ghost predicate Apart(s: State, x: Slot, y: Slot)
    requires x < |s.info| && y < |s.info|
  {
    s.info[x].kp != s.info[y].kp
  }

  /** The top of the free stack becomes a slot in flight. */
  lemma DispatchTakes(s: State, x: Slot)
    requires SlotInv(s) && Enabled(s, Dispatch)
    ensures InFlight(DispatchNext(s), x) <==> InFlight(s, x) || x == s.free[|s.free| - 1]
  {
    FreeAlone(s);
    var n := |s.free| - 1;
    assert s.free == s.free[..n] + [s.free[n]];
  }

  lemma DispatchKeepsOwn(s: State, x: Slot)
    requires SlotInv(s) && EntriesInv(s) && Enabled(s, Dispatch) && InFlight(DispatchNext(s), x)
    ensures OwnEntry(DispatchNext(s), x)
  {
    DispatchTakes(s, x);
  }

  lemma DispatchKeepsApart(s: State, x: Slot, y: Slot)
    requires SlotInv(s) && EntriesInv(s) && Enabled(s, Dispatch)
    requires InFlight(DispatchNext(s), x) && InFlight(DispatchNext(s), y) && x != y
    ensures Apart(DispatchNext(s), x, y)
  {
    DispatchTakes(s, x);
    DispatchTakes(s, y);
    if InFlight(s, x) && InFlight(s, y) {
      assert Apart(s, x, y);
    }
  }

  lemma DispatchKeepsEntries(s: State)
    requires SlotInv(s) && EntriesInv(s) && Enabled(s, Dispatch)
    ensures EntriesInv(DispatchNext(s))
  {
    var s' := DispatchNext(s);
    forall x: Slot | InFlight(s', x) ensures OwnEntry(s', x) { DispatchKeepsOwn(s, x); }
    forall x: Slot, y: Slot | InFlight(s', x) && InFlight(s', y) && x != y ensures Apart(s', x, y) {
      DispatchKeepsApart(s, x, y);
    }
  }

  lemma RetireKeepsEntries(s: State, slot: Slot)
    requires WellFormed(s) && EntriesInv(s) && InFlight(s, slot)
    ensures EntriesInv(Retire(s, slot))
  {
    var s' := Retire(s, slot);
    forall x: Slot | InFlight(s', x) ensures OwnEntry(s', x) {
      assert InFlight(s, x) && x != slot;
      assert Apart(s, x, slot);
    }
    forall x: Slot, y: Slot | InFlight(s', x) && InFlight(s', y) && x != y ensures Apart(s', x, y) {
      assert InFlight(s, x) && InFlight(s, y);
      assert Apart(s, x, y);
    }
    if s.phase.Admitted? {
      assert s.info[slot].kp != s.current % |s.aql|;
      assert forall x: Slot :: InFlight(s', x) ==> InFlight(s, x);
    }
  }

  /** An event that leaves the free stack, the numbers and the entry kinds alone keeps the invariant. */
  lemma FrameKeepsEntries(s: State, s': State)
    requires EntriesInv(s)
    requires s'.free == s.free && |s'.info| == |s.info| && s'.aql == s.aql && s'.current == s.current && s'.phase == s.phase
    requires forall x: Slot :: x < |s.info| ==> s'.info[x].num == s.info[x].num && s'.info[x].kp == s.info[x].kp
    ensures EntriesInv(s')
  {
    forall x: Slot | InFlight(s', x) ensures OwnEntry(s', x) { assert InFlight(s, x) && OwnEntry(s, x); }
    forall x: Slot, y: Slot | InFlight(s', x) && InFlight(s', y) && x != y ensures Apart(s', x, y) {
      assert InFlight(s, x) && InFlight(s, y) && Apart(s, x, y);
    }
    assert s.phase.Admitted? ==> forall x: Slot :: InFlight(s', x) ==> InFlight(s, x);
  }

  /** Steps of the main loop that only consume a packet number, and the producers' writes. */
  lemma HeadKeepsEntries(s: State, e: Event)
    requires SlotInv(s) && EntriesInv(s) && Enabled(s, e) && AtHead(e) && FirstSight(s, e)
    ensures EntriesInv(Next(s, e))
  {
    var s' := Next(s, e);
    BarrierWaitMeaning(s);
    forall x: Slot | InFlight(s', x) ensures OwnEntry(s', x) { assert InFlight(s, x) && OwnEntry(s, x); }
    forall x: Slot, y: Slot | InFlight(s', x) && InFlight(s', y) && x != y ensures Apart(s', x, y) {
      assert InFlight(s, x) && InFlight(s, y) && Apart(s, x, y);
    }
  }

  lemma TransferKeepsEntries(s: State, args: KernArgs, block: Address)
    requires SlotInv(s) && EntriesInv(s) && s.dma.Some?
    ensures EntriesInv(TransferNext(s, args, block))
  {
    DmaAlone(s);
    var slot := s.dma.value.slot;
    if s.info[slot].status == StoreImage && PacketOf(s, slot).signal == 0 {
      RetireKeepsEntries(s, slot);
      FrameKeepsEntries(Retire(s, slot), TransferNext(s, args, block));
    } else {
      FrameKeepsEntries(s, TransferNext(s, args, block));
    }
  }

  lemma EntriesKept(s: State, e: Event)
    requires SlotInv(s) && EntriesInv(s) && Enabled(s, e) && FirstSight(s, e)
    ensures EntriesInv(Next(s, e))
  {
    match e
    case Dispatch => DispatchKeepsEntries(s);
    case Transfer(args, block) => TransferKeepsEntries(s, args, block);
    case Signalled =>
      CmplAlone(s);
      RetireKeepsEntries(s, s.cmpl.value.slot);
      FrameKeepsEntries(Retire(s, s.cmpl.value.slot), Next(s, e));
    case Admit(_, _) | RetireBarrier | Skip | Wait | Resume | Produce(_, _) => HeadKeepsEntries(s, e);
    case StartDma | StartKernel | StartDec => FrameKeepsEntries(s, Next(s, e));
    case KernelDone(c, args) => FrameKeepsEntries(s, Next(s, e));
  }

  lemma EntriesAlong(states: seq<State>, events: seq<Event>)
    requires IsRun(states, events) && FirstSights(states, events) && SlotInv(states[0]) && EntriesInv(states[0])
    ensures forall i :: 0 <= i < |states| ==> SlotInv(states[i]) && EntriesInv(states[i])
  {
    SlotInvAlong(states, events);
    for k := 0 to |events|
      invariant forall i :: 0 <= i <= k ==> EntriesInv(states[i])
    {
      EntriesKept(states[k], events[k]);
    }
  }

  lemma InitialEntries(window: nat, cores: nat, queue: nat)
    requires queue > 0
    ensures EntriesInv(Initial(window, cores, queue))
  {
    var s := Initial(window, cores, queue);
    forall x: Slot ensures !InFlight(s, x) { if x < window { assert s.free[x] == x; } }
  }

  /** While a packet is in flight its entry's contents do not change, whatever the producers do. */
  lemma PacketStable(s: State, e: Event, x: Slot)
    requires SlotInv(s) && EntriesInv(s) && Enabled(s, e) && InFlight(s, x)
    ensures PacketOf(Next(s, e), x) == PacketOf(s, x)
    ensures Next(s, e).info[x].num == s.info[x].num && Next(s, e).info[x].kp == s.info[x].kp
  {
    assert OwnEntry(s, x);
    match e
    case Dispatch => FreeAlone(s);
    case _ =>
  }

  /** A packet that ends leaves an invalid entry for the producers, advances READ_INDEX by one and changes no other
      entry. */
  lemma EndInvalidates(s: State, e: Event, x: Slot)
    requires SlotInv(s) && EntriesInv(s) && Enabled(s, e) && InFlight(s, x) && !InFlight(Next(s, e), x)
    ensures var s', kp := Next(s, e), s.info[x].kp;
      && s'.aql == s.aql[kp := Cleared(s.aql[kp])] && s'.aql[kp].kind == Invalid && !s'.aql[kp].barrierBit
      && s'.read == s.read + 1
  {
    match e
    case Dispatch => DispatchTakes(s, x);
    case Transfer(_, _) => DmaAlone(s);
    case Signalled => CmplAlone(s);
    case _ =>
  }

  /** No event changes an entry of the queue but a producer's write, the end of a barrier packet at the head, and the end
      of the packet in flight behind the entry: a packet of a skipped type stays where it is. */
  lemma OnlyTheseChange(s: State, e: Event, k: nat)
    requires SlotInv(s) && Enabled(s, e) && k < |s.aql|
    ensures |Next(s, e).aql| == |s.aql|
    ensures Next(s, e).aql[k] == s.aql[k] || (e.Produce? && e.index == k) || (e.RetireBarrier? && k == s.current % |s.aql|)
      || exists x: Slot :: InFlight(s, x) && !InFlight(Next(s, e), x) && s.info[x].kp == k
  {
    match e
    case Transfer(_, _) => EndsAt(s, e, s.dma.value.slot, k);
    case Signalled => EndsAt(s, e, s.cmpl.value.slot, k);
    case _ =>
  }

  lemma EndsAt(s: State, e: Event, x: Slot, k: nat)
    requires SlotInv(s) && Enabled(s, e) && (e.Transfer? || e.Signalled?) && k < |s.aql|
    requires x == if e.Signalled? then s.cmpl.value.slot else s.dma.value.slot
    ensures Next(s, e).aql[k] == s.aql[k] || (InFlight(s, x) && !InFlight(Next(s, e), x) && s.info[x].kp == k)
  {
    if e.Signalled? { CmplAlone(s); } else { DmaAlone(s); }
  }

  /** A barrier packet without completion signal leaves an invalid entry, advances both counters and changes nothing
      else of the queue. */
  lemma BarrierInvalidates(s: State)
    requires Enabled(s, RetireBarrier)
    ensures var s', index := Next(s, RetireBarrier), s.current % |s.aql|;
      && |s'.aql| == |s.aql| && s'.aql[index].kind == Invalid && !s'.aql[index].barrierBit
      && (forall k :: 0 <= k < |s.aql| && k != index ==> s'.aql[k] == s.aql[k])
      && s'.read == s.read + 1 && s'.current == s.current + 1
  {
  }

  /** A packet that is taken a second time shares its entry with itself or, having ended, has an invalid one: admitting
      and dispatching keeps the invariant if and only if the packet is taken for the first time. */
  lemma SecondSightShares(s: State, e: Event)
    requires SlotInv(s) && EntriesInv(s) && e.Admit? && Enabled(s, e)
    ensures var s1 := Next(s, e);
      Enabled(s1, Dispatch) && (EntriesInv(DispatchNext(s1)) <==> FirstSight(s, e))
  {
    var s1 := Next(s, e);
    SlotInvKept(s, e);
    if FirstSight(s, e) {
      EntriesKept(s, e);
      EntriesKept(s1, Dispatch);
    } else if NewPacket(s) {
      var top := s1.free[|s1.free| - 1];
      DispatchTakes(s1, top);
      assert !OwnEntry(DispatchNext(s1), top);
    } else {
      var x: Slot :| InFlight(s, x) && s.info[x].kp == s.current % |s.aql|;
      var top := s1.free[|s1.free| - 1];
      FreeAlone(s1);
      DispatchTakes(s1, x);
      DispatchTakes(s1, top);
      assert !Apart(DispatchNext(s1), x, top);
    }
  }

  // ---- when the packet at the head is new ----

  /** No packet in flight is more than a queue length behind the packet counter. */
  ghost predicate WithinQueue(s: State) {
    forall x: Slot :: InFlight(s, x) ==> s.current <= s.info[x].num + |s.aql|
  }

  /** The packet in slot x is exactly a queue length behind. */
  predicate Lapped(s: State, x: Slot) { x < |s.info| && s.current == s.info[x].num + |s.aql| }

  lemma ModuloApart(a: nat, b: nat, m: nat)
    requires a < b <= a + m && m > 0
    ensures a % m == b % m <==> b == a + m
  {
    var k := b / m - a / m;
    DivModWitness(a, m);
    DivModWitness(b, m);
    Distribute(b / m, -(a / m), m);
    Multiples(k, m);
    if b == a + m {
      Distribute(a / m, 1, m);
      DivModUnique(b, m, a / m + 1, a % m);
    }
  }

  lemma Multiples(k: int, m: nat)
    ensures k >= 1 ==> k * m >= m
    ensures k <= 0 ==> k * m <= 0
  {
  }

  lemma AgeDecides(s: State, x: Slot)
    requires SlotInv(s) && EntriesInv(s) && WithinQueue(s) && InFlight(s, x)
    ensures s.info[x].kp == s.current % |s.aql| <==> Lapped(s, x)
  {
    assert OwnEntry(s, x);
    ModuloApart(s.info[x].num, s.current, |s.aql|);
  }

  /** The packet at the head is new if and only if no packet in flight is exactly a queue length behind. */
  lemma NewUnlessLapped(s: State)
    requires SlotInv(s) && EntriesInv(s) && WithinQueue(s)
    ensures NewPacket(s) <==> forall x: Slot :: InFlight(s, x) ==> !Lapped(s, x)
  {
    forall x: Slot | InFlight(s, x) ensures s.info[x].kp == s.current % |s.aql| <==> Lapped(s, x) { AgeDecides(s, x); }
  }

  /** A barrier packet, or one of a skipped type, does not sit on the entry of a packet in flight. */
  lemma OtherHeadNew(s: State, x: Slot)
    requires SlotInv(s) && EntriesInv(s) && WithinQueue(s) && InFlight(s, x) && Head(s).kind != KernelDispatch
    ensures !Lapped(s, x)
  {
    AgeDecides(s, x);
    assert OwnEntry(s, x);
  }

  lemma PassedKeepsWithin(s: State, e: Event, x: Slot)
    requires SlotInv(s) && EntriesInv(s) && WithinQueue(s) && Enabled(s, e) && InFlight(s, x)
    ensures Next(s, e).current <= s.info[x].num + |s.aql|
  {
    match e
    case Dispatch => NewUnlessLapped(s);
    case RetireBarrier | Skip =>
      BarrierWaitMeaning(s);
      OtherHeadNew(s, x);
    case _ =>
  }

  lemma WithinKept(s: State, e: Event)
    requires SlotInv(s) && EntriesInv(s) && WithinQueue(s) && Enabled(s, e)
    ensures WithinQueue(Next(s, e))
  {
    var s' := Next(s, e);
    forall x: Slot | InFlight(s', x) ensures s'.current <= s'.info[x].num + |s'.aql| {
      if e.Dispatch? { DispatchTakes(s, x); }
      if InFlight(s, x) {
        PassedKeepsWithin(s, e, x);
        PacketStable(s, e, x);
      }
    }
  }

  ghost predicate Guarded(s: State) { SlotInv(s) && EntriesInv(s) && WithinQueue(s) }

  lemma GuardedKept(s: State, e: Event)
    requires Guarded(s) && Enabled(s, e) && FirstSight(s, e)
    ensures Guarded(Next(s, e))
  {
    SlotInvKept(s, e);
    EntriesKept(s, e);
    WithinKept(s, e);
  }

  lemma InitialGuarded(window: nat, cores: nat, queue: nat)
    requires queue > 0
    ensures Guarded(Initial(window, cores, queue))
  {
    InitialSlots(window, cores, queue);
    InitialEntries(window, cores, queue);
    var s := Initial(window, cores, queue);
    forall x: Slot ensures !InFlight(s, x) { if x < window { assert s.free[x] == x; } }
  }

  // ---- which runs take a packet twice ----

  ghost predicate SomeLapped(s: State) { exists x: Slot :: InFlight(s, x) && Lapped(s, x) }

  /** The barrier wait that goes on in state i began with event j. */
  ghost predicate WaitsFrom(states: seq<State>, events: seq<Event>, j: nat, i: nat)
    requires |states| == |events| + 1
  {
    j < i < |states| && events[j].Wait? && forall k :: j < k <= i ==> states[k].phase.Waiting?
  }

  /** Event i admits what has been taken before: without a wait, a packet in flight a full queue length behind; after a
      wait, one that was so when the wait began, if no kernel packet has come into its place. */
  ghost predicate TakesAgain(states: seq<State>, events: seq<Event>, i: nat)
    requires |states| == |events| + 1 && i < |events|
  {
    && events[i].Admit? && |states[i].aql| > 0
    && if states[i].phase.Polling? then SomeLapped(states[i])
       else Head(states[i]).kind != KernelDispatch && exists j: nat :: WaitsFrom(states, events, j, i) && SomeLapped(states[j])
  }

  /** The type that the wait goes on with is still that of a packet at the head, taken for the first time. */
  ghost predicate StillNew(s: State) {
    |s.aql| > 0 && (s.phase == Waiting(KernelDispatch) ==> Head(s).kind == KernelDispatch && NewPacket(s))
  }

  /** Only a dispatch takes a slot. */
  lemma OnlyDispatchTakes(s: State, e: Event, x: Slot)
    requires Enabled(s, e) && !e.Dispatch? && InFlight(Next(s, e), x)
    ensures InFlight(s, x)
  {
  }

  lemma HeadStays(s: State, e: Event)
    requires SlotInv(s) && EntriesInv(s) && Enabled(s, e) && s.phase.Waiting? && Next(s, e).phase.Waiting?
    requires Head(s).kind == KernelDispatch && NewPacket(s)
    ensures Head(Next(s, e)) == Head(s)
  {
    match e
    case Transfer(_, _) => DmaAlone(s);
    case Signalled => CmplAlone(s);
    case _ =>
  }

  lemma StillNewKept(s: State, e: Event)
    requires SlotInv(s) && EntriesInv(s) && Enabled(s, e) && s.phase.Waiting? && Next(s, e).phase.Waiting? && StillNew(s)
    ensures StillNew(Next(s, e)) && Next(s, e).phase == s.phase
  {
    var s' := Next(s, e);
    if s.phase == Waiting(KernelDispatch) {
      HeadStays(s, e);
      forall x: Slot | InFlight(s', x) ensures s'.info[x].kp != s'.current % |s'.aql| {
        OnlyDispatchTakes(s, e, x);
        PacketStable(s, e, x);
      }
    }
  }

  lemma WaitGoesBack(s: State, e: Event)
    requires Enabled(s, e) && !e.Wait? && Next(s, e).phase.Waiting?
    ensures s.phase.Waiting?
  {
  }

  lemma WaitGoesOn(s: State, e: Event)
    requires Enabled(s, e) && s.phase.Waiting? && Next(s, e).phase.Waiting?
    ensures Next(s, e).phase == s.phase && Next(s, e).current == s.current && !e.Admit? && !e.Dispatch?
  {
  }

  lemma WaitBegan(states: seq<State>, events: seq<Event>, i: nat) returns (j: nat)
    requires IsRun(states, events) && i < |states| && !states[0].phase.Waiting? && states[i].phase.Waiting?
    ensures WaitsFrom(states, events, j, i)
  {
    j := i;
    while states[j].phase.Waiting?
      invariant 0 <= j <= i && forall k :: j < k <= i ==> states[k].phase.Waiting?
      invariant states[j].phase.Waiting? || (j < i && events[j].Wait?)
      decreases if states[j].phase.Waiting? then j + 1 else 0
    {
      assert states[j] == Next(states[j - 1], events[j - 1]);
      j := j - 1;
    }
  }

  lemma WaitStarts(s: State)
    requires Enabled(s, Wait) && NewPacket(s)
    ensures StillNew(Next(s, Wait))
  {
    forall x: Slot | InFlight(Next(s, Wait), x) ensures s.info[x].kp != s.current % |s.aql| { assert InFlight(s, x); }
  }

  lemma WaitStep(states: seq<State>, events: seq<Event>, j: nat, i: nat, k: nat)
    requires IsRun(states, events) && WaitsFrom(states, events, j, i) && j < k < i
    ensures Enabled(states[k], events[k]) && states[k + 1] == Next(states[k], events[k])
    ensures states[k].phase.Waiting? && states[k + 1].phase.Waiting?
  {
  }

  /** A wait that begins on a new packet goes on with it. */
  lemma StillNewAlong(states: seq<State>, events: seq<Event>, j: nat, i: nat)
    requires IsRun(states, events) && WaitsFrom(states, events, j, i) && NewPacket(states[j])
    requires forall k :: j <= k <= i ==> SlotInv(states[k]) && EntriesInv(states[k])
    ensures StillNew(states[i])
  {
    assert states[j + 1] == Next(states[j], events[j]);
    WaitStarts(states[j]);
    for k := j + 1 to i
      invariant StillNew(states[k])
    {
      WaitStep(states, events, j, i, k);
      StillNewKept(states[k], events[k]);
    }
  }

  lemma TakesAgainIff(states: seq<State>, events: seq<Event>, i: nat)
    requires IsRun(states, events) && states[0].phase.Polling? && i < |events|
    requires forall k :: 0 <= k <= i ==> Guarded(states[k])
    ensures TakesAgain(states, events, i) <==> !FirstSight(states[i], events[i])
  {
    var s := states[i];
    if events[i].Admit? && s.phase.Polling? {
      NewUnlessLapped(s);
    } else if events[i].Admit? {
      BarrierWaitMeaning(s);
      var j := WaitBegan(states, events, i);
      NewUnlessLapped(states[j]);
      if NewPacket(states[j]) { StillNewAlong(states, events, j, i); }
    }
  }

  /** A run from power-up takes every packet for the first time if and only if it never admits one in this way. */
  lemma FirstSightsIff(states: seq<State>, events: seq<Event>, window: nat, cores: nat, queue: nat)
    requires queue > 0 && IsRun(states, events) && states[0] == Initial(window, cores, queue)
    ensures FirstSights(states, events) <==> forall i :: 0 <= i < |events| ==> !TakesAgain(states, events, i)
  {
    InitialGuarded(window, cores, queue);
    var k := 0;
    while k < |events| && FirstSight(states[k], events[k])
      invariant k <= |events| && forall i :: 0 <= i <= k ==> Guarded(states[i])
      invariant forall i :: 0 <= i < k ==> FirstSight(states[i], events[i]) && !TakesAgain(states, events, i)
    {
      TakesAgainIff(states, events, k);
      GuardedKept(states[k], events[k]);
      k := k + 1;
    }
    if k < |events| { TakesAgainIff(states, events, k); }
  }

  /** In a run that takes no packet twice no packet in flight ever falls more than a queue length behind. */
  lemma NeverFurtherBehind(states: seq<State>, events: seq<Event>, window: nat, cores: nat, queue: nat)
    requires queue > 0 && IsRun(states, events) && states[0] == Initial(window, cores, queue) && FirstSights(states, events)
    ensures forall i :: 0 <= i < |states| ==> Guarded(states[i])
  {
    InitialGuarded(window, cores, queue);
    for k := 0 to |events|
      invariant forall i :: 0 <= i <= k ==> Guarded(states[i])
    {
      GuardedKept(states[k], events[k]);
    }
  }

  // ---- what a wait that began on a packet in flight goes on with ----

  /** The entry of packet x, with contents h when the wait began. */
  ghost predicate EntryEnded(s: State, x: Slot, h: AqlSlot) {
    && SlotInv(s) && EntriesInv(s) && h.kind == KernelDispatch
    && (InFlight(s, x) ==> s.info[x].kp == s.current % |s.aql|)
    && Head(s) == if InFlight(s, x) then h else Cleared(h)
  }

  lemma EntryEndedKept(s: State, e: Event, x: Slot, h: AqlSlot)
    requires EntryEnded(s, x, h) && Enabled(s, e) && s.phase.Waiting? && Next(s, e).phase.Waiting?
    requires e.Produce? ==> e.index != s.current % |s.aql|
    ensures EntryEnded(Next(s, e), x, h)
    ensures Next(s, e).current == s.current && |Next(s, e).aql| == |s.aql|
  {
    var s' := Next(s, e);
    WaitGoesOn(s, e);
    SlotInvKept(s, e);
    EntriesKept(s, e);
    if InFlight(s', x) {
      OnlyDispatchTakes(s, e, x);
      PacketStable(s, e, x);
    }
    match e
    case Transfer(_, _) => EndElsewhere(s, e, s.dma.value.slot, x, h);
    case Signalled => EndElsewhere(s, e, s.cmpl.value.slot, x, h);
    case _ =>
  }

  /** The end of packet y clears the head if y is x, and leaves it as it is if not. */
  lemma EndElsewhere(s: State, e: Event, y: Slot, x: Slot, h: AqlSlot)
    requires EntryEnded(s, x, h) && Enabled(s, e) && (e.Transfer? || e.Signalled?)
    requires y == if e.Signalled? then s.cmpl.value.slot else s.dma.value.slot
    ensures Head(Next(s, e)) == if InFlight(Next(s, e), x) then h else Cleared(h)
  {
    if e.Signalled? { CmplAlone(s); } else { DmaAlone(s); }
    assert OwnEntry(s, y);
    if InFlight(s, x) && x != y { assert Apart(s, x, y); }
  }

  lemma EntryEndedFirst(s: State, x: Slot)
    requires Guarded(s) && Enabled(s, Wait) && InFlight(s, x) && Lapped(s, x)
    ensures EntryEnded(Next(s, Wait), x, Head(s)) && s.info[x].kp == s.current % |s.aql|
  {
    AgeDecides(s, x);
    assert OwnEntry(s, x);
    SlotInvKept(s, Wait);
    EntriesKept(s, Wait);
  }

  lemma EntryEndedAlong(states: seq<State>, events: seq<Event>, j: nat, i: nat, x: Slot, h: AqlSlot, index: nat)
    requires IsRun(states, events) && WaitsFrom(states, events, j, i) && EntryEnded(states[j + 1], x, h)
    requires |states[j + 1].aql| > 0 && index == states[j + 1].current % |states[j + 1].aql|
    requires forall k :: j < k < i && events[k].Produce? ==> events[k].index != index
    ensures EntryEnded(states[i], x, h) && states[i].phase.Waiting?
  {
    for k := j + 1 to i
      invariant EntryEnded(states[k], x, h) && states[k].current % |states[k].aql| == index
    {
      WaitStep(states, events, j, i, k);
      EntryEndedKept(states[k], events[k], x, h);
    }
  }

  /** If the wait is left and no producer has written the entry in the meantime, what is admitted is the packet that
      was in flight when the wait began and has ended since: it is dispatched a second time. */
  lemma TakenAfterItsEnd(states: seq<State>, events: seq<Event>, j: nat, i: nat, x: Slot)
    requires IsRun(states, events) && WaitsFrom(states, events, j, i) && i < |events| && events[i].Admit?
    requires Guarded(states[j]) && InFlight(states[j], x) && Lapped(states[j], x)
    requires forall k :: j <= k < i && events[k].Produce? ==> events[k].index != states[j].info[x].kp
    ensures |states[i].aql| > 0 && !InFlight(states[i], x) && Head(states[i]).kind == Invalid
    ensures Head(states[i]).packet == PacketOf(states[j], x) && TakesAgain(states, events, i)
  {
    var s := states[j];
    assert states[j + 1] == Next(s, events[j]);
    EntryEndedFirst(s, x);
    EntryEndedAlong(states, events, j, i, x, Head(s), s.info[x].kp);
    BarrierWaitMeaning(states[i]);
    assert SomeLapped(s);
  }
}
