/** Progress: how many steps each packet in flight still has to take. */
module Progress {
  import opened Options
  import opened Bits
  import opened Protocol
  import opened SlotSafety
  import opened AqlEntries
  import opened DispatchOrder
  import opened Runs

  /** In how many rings slot x waits. */
  function Queued(s: State, x: Slot): nat {
    Count(DmaSlots(s.dmaQ), x) + Count(LaunchSlots(s.launchQ), x) + Count(DecSlots(s.decQ), x)
  }

  /** Steps left once an engine has taken the packet up at this stage. */
  function Base(status: Status, signals: bool): nat {
    var tail := if signals then 2 else 0;
    match status
    case GetKernarg => 7 + tail
    case GetImage => 5 + tail
    case Processing => 3 + tail
    case StoreImage => 1 + tail
    case Completion => 1
  }

  /** Steps left to the packet in slot x: waiting in a ring costs one more than being worked on. */
  function Remaining(s: State, x: Slot): nat {
    if !InFlight(s, x) || s.info[x].kp >= |s.aql| then 0
    else Base(s.info[x].status, PacketOf(s, x).signal != 0) + Queued(s, x)
  }

  /** The slot whose packet the event works on. */
  ghost function Actor(s: State, e: Event): Option<Slot>
    requires Enabled(s, e)
  {
    match e
    case StartDma => Some(s.dmaQ[0].slot)
    case StartKernel => Some(s.launchQ[0].slot)
    case StartDec => Some(s.decQ[0].slot)
    case Transfer(_, _) => Some(s.dma.value.slot)
    case KernelDone(c, _) => Some(s.cores[c].value.slot)
    case Signalled => Some(s.cmpl.value.slot)
    case _ => None
  }

  ghost predicate Acts(s: State, e: Event, x: Slot) { Enabled(s, e) && Actor(s, e) == Some(x) }

  lemma QueuedOnce(s: State, x: Slot)
    requires OnePlaceEach(s)
    ensures Queued(s, x) <= 1
  {
    assert Places(s, x) <= 1;
  }

  /** An engine's packet waits in no ring. */
  lemma ActiveNotQueued(s: State, e: Event, x: Slot)
    requires SlotInv(s) && Acts(s, e, x) && (e.Transfer? || e.KernelDone? || e.Signalled?)
    ensures Queued(s, x) == 0 && InFlight(s, x)
  {
    if e.KernelDone? { CoreMember(s.cores, e.core); }
    assert Places(s, x) == 1;
    CountMember(s.free, x);
  }

  lemma QueuedInFlight(s: State, x: Slot)
    requires SlotInv(s) && Queued(s, x) > 0
    ensures InFlight(s, x)
  {
    assert Places(s, x) == 1;
    CountMember(s.free, x);
  }

  lemma StartQueued(s: State, e: Event, x: Slot)
    requires SlotInv(s) && Enabled(s, e) && (e.StartDma? || e.StartKernel? || e.StartDec?)
    ensures Queued(Next(s, e), x) + One(Acts(s, e, x)) == Queued(s, x)
  {
    match e
    case StartDma => DmaPop(s.dmaQ, x);
    case StartKernel => LaunchPop(s.launchQ, x);
    case StartDec => DecPop(s.decQ, x);
  }

  lemma DmaPop(q: seq<DmaRequest>, x: Slot)
    requires q != []
    ensures Count(DmaSlots(q), x) == Count(DmaSlots(q[1..]), x) + One(q[0].slot == x)
  {
    assert DmaSlots(q)[1..] == DmaSlots(q[1..]);
    CountPop(DmaSlots(q), x);
  }

  lemma DecPop(q: seq<DecRequest>, x: Slot)
    requires q != []
    ensures Count(DecSlots(q), x) == Count(DecSlots(q[1..]), x) + One(q[0].slot == x)
  {
    assert DecSlots(q)[1..] == DecSlots(q[1..]);
    CountPop(DecSlots(q), x);
  }

  /** A ring's packet is taken up by its engine: one step less, for it alone. */
  lemma StartRemaining(s: State, e: Event, x: Slot)
    requires SlotInv(s) && Enabled(s, e) && (e.StartDma? || e.StartKernel? || e.StartDec?)
    ensures Remaining(Next(s, e), x) + One(Acts(s, e, x)) == Remaining(s, x)
  {
    StartQueued(s, e, x);
    if Acts(s, e, x) { QueuedInFlight(s, x); }
  }

  lemma RequestImageRemaining(s: State, args: KernArgs, block: Address, x: Slot)
    requires SlotInv(s) && Enabled(s, Transfer(args, block)) && s.info[s.dma.value.slot].status == GetKernarg
    ensures Remaining(RequestImage(s, args, block), x) + One(x == s.dma.value.slot) == Remaining(s, x)
  {
    var slot := s.dma.value.slot;
    ActiveNotQueued(s, Transfer(args, block), slot);
    DmaPush(s.dmaQ, RequestImage(s, args, block).dmaQ[|s.dmaQ|], x);
  }

  lemma RequestLaunchRemaining(s: State, args: KernArgs, block: Address, x: Slot)
    requires SlotInv(s) && Enabled(s, Transfer(args, block)) && s.info[s.dma.value.slot].status == GetImage
    ensures Remaining(RequestLaunch(s, args), x) + One(x == s.dma.value.slot) == Remaining(s, x)
  {
    var slot := s.dma.value.slot;
    ActiveNotQueued(s, Transfer(args, block), slot);
    assert LaunchSlots(RequestLaunch(s, args).launchQ) == LaunchSlots(s.launchQ) + [slot];
    CountPush(LaunchSlots(s.launchQ), slot, x);
  }

  lemma FinishStoreRemaining(s: State, args: KernArgs, block: Address, x: Slot)
    requires SlotInv(s) && EntriesInv(s) && Enabled(s, Transfer(args, block)) && s.info[s.dma.value.slot].status == StoreImage
    ensures Remaining(FinishStore(s), x) + One(x == s.dma.value.slot) == Remaining(s, x)
  {
    ActiveNotQueued(s, Transfer(args, block), s.dma.value.slot);
    if PacketOf(s, s.dma.value.slot).signal != 0 {
      SignalRemaining(s, x);
    } else {
      EndRemaining(s, x);
    }
  }

  lemma SignalRemaining(s: State, x: Slot)
    requires SlotInv(s) && s.dma.Some? && s.info[s.dma.value.slot].status == StoreImage
    requires PacketOf(s, s.dma.value.slot).signal != 0 && Queued(s, s.dma.value.slot) == 0 && InFlight(s, s.dma.value.slot)
    ensures Remaining(FinishStore(s), x) + One(x == s.dma.value.slot) == Remaining(s, x)
  {
    var slot := s.dma.value.slot;
    assert DecSlots(FinishStore(s).decQ) == DecSlots(s.decQ) + [slot];
    CountPush(DecSlots(s.decQ), slot, x);
  }

  lemma EndRemaining(s: State, x: Slot)
    requires SlotInv(s) && s.dma.Some? && s.info[s.dma.value.slot].status == StoreImage && EntriesInv(s)
    requires PacketOf(s, s.dma.value.slot).signal == 0 && Queued(s, s.dma.value.slot) == 0 && InFlight(s, s.dma.value.slot)
    ensures Remaining(FinishStore(s), x) + One(x == s.dma.value.slot) == Remaining(s, x)
  {
  }

  lemma KernelDoneRemaining(s: State, c: nat, args: KernArgs, x: Slot)
    requires SlotInv(s) && Enabled(s, KernelDone(c, args))
    ensures Remaining(KernelDoneNext(s, c, args), x) + One(x == s.cores[c].value.slot) == Remaining(s, x)
  {
    ActiveNotQueued(s, KernelDone(c, args), s.cores[c].value.slot);
    DmaPush(s.dmaQ, KernelDoneNext(s, c, args).dmaQ[|s.dmaQ|], x);
  }

  lemma SignalledRemaining(s: State, x: Slot)
    requires SlotInv(s) && Enabled(s, Signalled)
    ensures Remaining(Next(s, Signalled), x) + One(x == s.cmpl.value.slot) == Remaining(s, x)
  {
    ActiveNotQueued(s, Signalled, s.cmpl.value.slot);
  }

  /** Dispatch gives the new packet ten steps if it has a signal to send, else eight. */
  lemma DispatchRemaining(s: State, x: Slot)
    requires SlotInv(s) && EntriesInv(s) && Enabled(s, Dispatch)
    ensures Remaining(DispatchNext(s), x)
      == if x == s.free[|s.free| - 1] then Price(Head(s).packet) else Remaining(s, x)
  {
    DispatchTakes(s, x);
    DmaPush(s.dmaQ, DispatchNext(s).dmaQ[|s.dmaQ|], x);
    var top := s.free[|s.free| - 1];
    CountMember(s.free, top);
    assert Places(s, top) == 1;
  }

  function Price(kp: KernelPacket): nat { if kp.signal != 0 then 10 else 8 }

  lemma HeadRemaining(s: State, e: Event, x: Slot)
    requires SlotInv(s) && EntriesInv(s) && Enabled(s, e) && AtHead(e)
    ensures Remaining(Next(s, e), x) == Remaining(s, x)
  {
    if InFlight(s, x) {
      PacketStable(s, e, x);
    }
  }

  lemma TransferRemaining(s: State, args: KernArgs, block: Address, x: Slot)
    requires SlotInv(s) && EntriesInv(s) && Enabled(s, Transfer(args, block))
    ensures Remaining(TransferNext(s, args, block), x) + One(x == s.dma.value.slot) == Remaining(s, x)
  {
    match s.info[s.dma.value.slot].status
    case GetKernarg => RequestImageRemaining(s, args, block, x);
    case GetImage => RequestLaunchRemaining(s, args, block, x);
    case StoreImage => FinishStoreRemaining(s, args, block, x);
    case _ => assert false;
  }

  /** Each event but a dispatch takes exactly one step off the packet it works on, and leaves all others alone. */
  lemma OneStepOff(s: State, e: Event, x: Slot)
    requires SlotInv(s) && EntriesInv(s) && Enabled(s, e) && !e.Dispatch?
    ensures Remaining(Next(s, e), x) + One(Acts(s, e, x)) == Remaining(s, x)
  {
    match e
    case StartDma | StartKernel | StartDec => StartRemaining(s, e, x);
    case Transfer(args, block) => TransferRemaining(s, args, block, x);
    case KernelDone(c, args) => KernelDoneRemaining(s, c, args, x);
    case Signalled => SignalledRemaining(s, x);
    case Admit(_, _) | RetireBarrier | Skip | Wait | Resume | Produce(_, _) => HeadRemaining(s, e, x);
  }

  /** A packet in flight always has a step left, and one out of flight none. */
  lemma RemainingMeansInFlight(s: State, x: Slot)
    ensures Remaining(s, x) > 0 ==> InFlight(s, x)
    ensures WellFormed(s) && InFlight(s, x) ==> Remaining(s, x) > 0
  {
  }

  /** The steps left to the packets in slots below n. */
  function Total(s: State, n: nat): nat {
    if n == 0 then 0 else Total(s, n - 1) + Remaining(s, n - 1)
  }

  lemma {:induction false} TotalChange(s: State, s': State, n: nat, x: Slot, off: nat, on: nat)
    requires forall y: Slot :: y < n && y != x ==> Remaining(s', y) == Remaining(s, y)
    requires x < n ==> Remaining(s', x) + off == Remaining(s, x) + on
    ensures Total(s', n) + (if x < n then off else 0) == Total(s, n) + (if x < n then on else 0)
  {
    if n > 0 {
      TotalChange(s, s', n - 1, x, off, on);
    }
  }

  /** The sum over all slots, and eleven more while an admitted packet waits for its slot. */
  function Potential(s: State): nat {
    Total(s, |s.info|) + if s.phase.Admitted? then 11 else 0
  }

  /** A step of the main loop that completes a dispatch, starts an engine, or an interrupt. */
  predicate Working(e: Event) { !AtHead(e) }

  lemma ActorInWindow(s: State, e: Event)
    requires SlotInv(s) && Enabled(s, e) && Working(e) && !e.Dispatch?
    ensures Actor(s, e).Some? && Actor(s, e).value < |s.info|
  {
  }

  /** Every working event lowers the potential. */
  lemma PotentialFalls(s: State, e: Event)
    requires SlotInv(s) && EntriesInv(s) && Enabled(s, e) && Working(e)
    ensures Potential(Next(s, e)) < Potential(s)
    ensures !e.Dispatch? ==> Total(Next(s, e), |s.info|) + 1 == Total(s, |s.info|)
  {
    var s' := Next(s, e);
    if e.Dispatch? {
      DispatchFalls(s);
    } else {
      ActorInWindow(s, e);
      var x := Actor(s, e).value;
      OthersStay(s, e, x);
      TotalChange(s, s', |s.info|, x, 1, 0);
      PhaseStays(s, e);
    }
  }

  lemma OthersStay(s: State, e: Event, x: Slot)
    requires SlotInv(s) && EntriesInv(s) && Acts(s, e, x)
    ensures Remaining(Next(s, e), x) + 1 == Remaining(s, x)
    ensures forall y: Slot :: y != x ==> Remaining(Next(s, e), y) == Remaining(s, y)
  {
    OneStepOff(s, e, x);
    forall y: Slot | y != x ensures Remaining(Next(s, e), y) == Remaining(s, y) { OneStepOff(s, e, y); }
  }

  lemma PhaseStays(s: State, e: Event)
    requires Enabled(s, e) && Working(e) && !e.Dispatch?
    ensures Next(s, e).phase == s.phase && |Next(s, e).info| == |s.info|
  {
  }

  lemma DispatchFalls(s: State)
    requires SlotInv(s) && EntriesInv(s) && Enabled(s, Dispatch)
    ensures Potential(DispatchNext(s)) < Potential(s)
  {
    var s', x := DispatchNext(s), s.free[|s.free| - 1];
    FreeTop(s);
    forall y: Slot ensures Remaining(s', y) == if y == x then Price(Head(s).packet) else Remaining(s, y) {
      DispatchRemaining(s, y);
    }
    TotalChange(s, s', |s.info|, x, 0, Price(Head(s).packet));
  }

  /** A bound that no live block reaches. */
  lemma {:induction false} Limit(heap: map<Address, nat>) returns (bound: Address)
    ensures forall a :: a in heap ==> a + heap[a] < bound
    decreases |heap|
  {
    if a: Address :| a in heap {
      var rest := heap - {a};
      assert rest.Keys == heap.Keys - {a};
      bound := Limit(rest);
      if bound <= a + heap[a] { bound := a + heap[a] + 1; }
      forall b | b in heap ensures b + heap[b] < bound { if b != a { assert b in rest; } }
    } else {
      bound := 0;
    }
  }

  /** On-board memory is unbounded here: a fresh block can always be had. */
  lemma FreshExists(heap: map<Address, nat>, size: nat) returns (block: Address)
    ensures FreshBlock(heap, block, size)
  {
    var bound := Limit(heap);
    block := if bound > DEVICE_BASE then bound else DEVICE_BASE;
  }

  /** A slot in flight is in a ring or an engine. */
  lemma Located(s: State, x: Slot)
    requires SlotInv(s) && InFlight(s, x)
    ensures s.dma.Some? || s.cmpl.Some? || (exists c :: 0 <= c < |s.cores| && s.cores[c].Some?)
      || s.dmaQ != [] || s.launchQ != [] || s.decQ != []
  {
    CountMember(s.free, x);
    assert Places(s, x) == 1;
    if forall c :: 0 <= c < |s.cores| ==> s.cores[c].None? {
      NoCores(s.cores);
    }
  }

  /** While a packet is in flight, or one is admitted, some working event can happen, unless the main loop is caught
      in a barrier wait. */
  lemma SomethingEnabled(s: State, args: KernArgs) returns (e: Event)
    requires SlotInv(s) && |s.cores| > 0 && !s.phase.Waiting?
    requires s.phase.Admitted? || exists x: Slot :: InFlight(s, x)
    ensures Enabled(s, e) && Working(e)
  {
    if s.phase.Admitted? {
      e := Dispatch;
    } else {
      var x: Slot :| InFlight(s, x);
      Located(s, x);
      if s.dma.Some? {
        var block := FreshExists(s.heap, ImageSize(PacketOf(s, s.dma.value.slot), args.colorModel));
        e := Transfer(args, block);
      } else if s.cmpl.Some? {
        e := Signalled;
      } else if c :| 0 <= c < |s.cores| && s.cores[c].Some? {
        e := KernelDone(c, args);
      } else {
        e := if s.dmaQ != [] then StartDma else if s.launchQ != [] then StartKernel else StartDec;
      }
    }
  }

  lemma WorkingKeeps(s: State, e: Event)
    requires SlotInv(s) && EntriesInv(s) && Enabled(s, e) && Working(e)
    ensures SlotInv(Next(s, e)) && EntriesInv(Next(s, e)) && |Next(s, e).cores| == |s.cores|
    ensures !s.phase.Waiting? ==> !Next(s, e).phase.Waiting?
  {
    SlotInvKept(s, e);
    EntriesKept(s, e);
  }

  /** A run of working events is no longer than the potential it starts with. */
  lemma RunsEnd(states: seq<State>, events: seq<Event>)
    requires IsRun(states, events) && SlotInv(states[0]) && EntriesInv(states[0])
    requires forall i :: 0 <= i < |events| ==> Working(events[i])
    ensures |events| <= Potential(states[0])
  {
    for k := 0 to |events|
      invariant SlotInv(states[k]) && EntriesInv(states[k])
      invariant k + Potential(states[k]) <= Potential(states[0])
    {
      PotentialFalls(states[k], events[k]);
      WorkingKeeps(states[k], events[k]);
    }
  }

  /** Nothing is in flight and nothing admitted. */
  ghost predicate Done(s: State) { s.phase.Polling? && forall x: Slot :: !InFlight(s, x) }

  /** From every state with a core and no barrier wait going on, working events lead to a state in which every packet
      has ended. */
  lemma {:induction false} EverythingEnds(s: State, args: KernArgs) returns (t: State, states: seq<State>, events: seq<Event>)
    requires SlotInv(s) && EntriesInv(s) && |s.cores| > 0 && !s.phase.Waiting?
    ensures Path(states, events, s, t) && All(events, Working) && Done(t)
    decreases Potential(s)
  {
    if Done(s) {
      Stay(s);
      t, states, events := s, [s], [];
    } else {
      var e := SomethingEnabled(s, args);
      PotentialFalls(s, e);
      WorkingKeeps(s, e);
      var rest, later;
      t, rest, later := EverythingEnds(Next(s, e), args);
      Prepend(s, e, rest, later, t);
      AllPrepend(e, later, Working);
      states, events := [s] + rest, [e] + later;
    }
  }

  /** And a run of working events that has not come that far can go on. */
  lemma OnlyDoneStops(states: seq<State>, events: seq<Event>, args: KernArgs)
    requires IsRun(states, events) && SlotInv(states[0]) && EntriesInv(states[0])
    requires |states[0].cores| > 0 && !states[0].phase.Waiting? && forall i :: 0 <= i < |events| ==> Working(events[i])
    ensures Done(states[|events|]) || exists e: Event :: Enabled(states[|events|], e) && Working(e)
  {
    for k := 0 to |events|
      invariant SlotInv(states[k]) && EntriesInv(states[k]) && |states[k].cores| > 0 && !states[k].phase.Waiting?
    {
      WorkingKeeps(states[k], events[k]);
    }
    if !Done(states[|events|]) {
      var e := SomethingEnabled(states[|events|], args);
    }
  }

  /** How many of n events from number i on work on slot x. */
  ghost function OwnSteps(states: seq<State>, events: seq<Event>, x: Slot, i: nat, n: nat): nat
    requires |states| > i + n && |events| >= i + n
  {
    if n == 0 then 0 else OwnSteps(states, events, x, i, n - 1) + One(Acts(states[i + n - 1], events[i + n - 1], x))
  }

  lemma RemainingAfter(s: State, e: Event, x: Slot)
    requires SlotInv(s) && EntriesInv(s) && Enabled(s, e) && InFlight(s, x)
    ensures Remaining(Next(s, e), x) + One(Acts(s, e, x)) == Remaining(s, x)
  {
    if e.Dispatch? {
      FreeTop(s);
      DispatchRemaining(s, x);
    } else {
      OneStepOff(s, e, x);
    }
  }

  ghost predicate StepsOff(s: State, e: Event, s': State, x: Slot) {
    Remaining(s', x) + One(Acts(s, e, x)) == Remaining(s, x)
  }

  lemma {:induction false} StepsSoFar(states: seq<State>, events: seq<Event>, x: Slot, i: nat, n: nat)
    requires |states| > i + n && |events| >= i + n
    requires forall k :: i <= k < i + n ==> StepsOff(states[k], events[k], states[k + 1], x)
    ensures OwnSteps(states, events, x, i, n) + Remaining(states[i + n], x) == Remaining(states[i], x)
  {
    if n > 0 {
      StepsSoFar(states, events, x, i, n - 1);
      assert StepsOff(states[i + n - 1], events[i + n - 1], states[i + n], x);
    }
  }

  lemma StepsInRun(states: seq<State>, events: seq<Event>, x: Slot, k: nat)
    requires IsRun(states, events) && FirstSights(states, events) && SlotInv(states[0]) && EntriesInv(states[0])
    requires k < |events| && InFlight(states[k], x)
    ensures StepsOff(states[k], events[k], states[k + 1], x)
  {
    EntriesAlong(states, events);
    RemainingAfter(states[k], events[k], x);
  }

  lemma StartOfRun(states: seq<State>, events: seq<Event>, x: Slot, i: nat)
    requires IsRun(states, events) && FirstSights(states, events) && SlotInv(states[0]) && EntriesInv(states[0])
    requires i < |events| && Takes(states[i], events[i], x)
    ensures Remaining(states[i + 1], x) == Price(Head(states[i]).packet)
  {
    EntriesAlong(states, events);
    DispatchRemaining(states[i], x);
  }

  /** The event dispatches a packet into slot x. */
  predicate Takes(s: State, e: Event, x: Slot) {
    e.Dispatch? && |s.aql| > 0 && |s.free| > 0 && x == s.free[|s.free| - 1]
  }

  ghost predicate AllOff(states: seq<State>, events: seq<Event>, x: Slot, i: nat, n: nat) {
    && |states| > i + n && |events| >= i + n
    && forall k :: i <= k < i + n ==> StepsOff(states[k], events[k], states[k + 1], x)
  }

  /** Slot x is in flight in n states from number i on, and no longer in the next. */
  ghost predicate FliesFor(states: seq<State>, x: Slot, i: nat, n: nat) {
    && |states| > i + n && !InFlight(states[i + n], x)
    && forall k :: i <= k < i + n ==> InFlight(states[k], x)
  }

  lemma AllStepsOff(states: seq<State>, events: seq<Event>, x: Slot, i: nat, n: nat)
    requires IsRun(states, events) && FirstSights(states, events) && SlotInv(states[0]) && EntriesInv(states[0]) && FliesFor(states, x, i, n)
    ensures AllOff(states, events, x, i, n)
  {
    forall k | i <= k < i + n ensures StepsOff(states[k], events[k], states[k + 1], x) {
      StepsInRun(states, events, x, k);
    }
  }

  lemma StepsToNone(states: seq<State>, events: seq<Event>, x: Slot, i: nat, n: nat)
    requires AllOff(states, events, x, i, n) && FliesFor(states, x, i, n)
    ensures OwnSteps(states, events, x, i, n) == Remaining(states[i], x)
  {
    StepsSoFar(states, events, x, i, n);
    RemainingMeansInFlight(states[i + n], x);
  }

  /** From its dispatch at event i until it leaves n events later, a packet is worked on exactly ten times if it has
      a completion signal and eight times if it has none, whatever happens in between. */
  lemma ExactlyTenSteps(states: seq<State>, events: seq<Event>, i: nat, n: nat, x: Slot)
    requires IsRun(states, events) && FirstSights(states, events) && SlotInv(states[0]) && EntriesInv(states[0])
    requires i < |events| && Takes(states[i], events[i], x) && FliesFor(states, x, i + 1, n)
    ensures OwnSteps(states, events, x, i + 1, n) == Price(Head(states[i]).packet)
  {
    StartOfRun(states, events, x, i);
    AllStepsOff(states, events, x, i + 1, n);
    StepsToNone(states, events, x, i + 1, n);
  }
}
