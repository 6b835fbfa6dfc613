/** One core, every kernel packet with a completion signal: packets end one by one in packet order. */
module InOrderRetirement {
  import opened Options
  import opened Protocol
  import opened SlotSafety
  import opened AqlEntries
  import opened DispatchOrder

  /** n, n + 1, …, n + count - 1 */
  function Consecutive(n: nat, count: nat): seq<nat> { seq(count, i => n + i) }

  /** The packets in flight are exactly those from READ_INDEX to the newest, lined up in this order. */
  ghost predicate InOrder(s: State) { Covers(Numbers(s), s.read, s.current) }

  predicate Covers(q: seq<nat>, read: nat, current: nat) {
    read <= current && q == Consecutive(read, current - read)
  }

  /** Every packet in flight carries a completion signal, or none does and no signal is being sent. */
  ghost predicate Alike(s: State, signals: bool)
    requires WellFormed(s)
  {
    && (forall x: Slot :: InFlight(s, x) ==> (PacketOf(s, x).signal != 0 <==> signals))
    && (!signals ==> s.decQ == [] && s.cmpl.None?)
  }

  ghost predicate OrderInv(s: State) {
    SlotInv(s) && EntriesInv(s) && |s.cores| == 1 && s.skipped == 0 && Alike(s, true) && InOrder(s)
  }

  /** Dispatched kernel packets carry a signal, barrier packets their barrier bit, and no packet is of a skipped type. */
  ghost predicate Ordinary(s: State, e: Event)
    requires |s.aql| > 0
  {
    && (e.Dispatch? ==> Head(s).packet.signal != 0)
    && (e.RetireBarrier? && s.phase.Polling? ==> Head(s).barrierBit)
    && !e.Skip?
  }

  lemma FlightAfter(s: State, e: Event, x: Slot)
    requires SlotInv(s) && Enabled(s, e) && InFlight(Next(s, e), x)
    ensures InFlight(s, x) || (e.Dispatch? && x == s.free[|s.free| - 1])
  {
    if e.Dispatch? {
      DispatchTakes(s, x);
    }
  }

  lemma AlikeKept(s: State, e: Event, signals: bool)
    requires SlotInv(s) && EntriesInv(s) && Enabled(s, e) && Alike(s, signals)
    requires e.Dispatch? ==> (Head(s).packet.signal != 0 <==> signals)
    ensures WellFormed(Next(s, e)) && Alike(Next(s, e), signals)
  {
    SlotInvKept(s, e);
    forall x: Slot | InFlight(Next(s, e), x) ensures PacketOf(Next(s, e), x).signal != 0 <==> signals {
      FlightAfter(s, e, x);
      if InFlight(s, x) {
        PacketStable(s, e, x);
      }
    }
    if !signals && e.Transfer? {
      DmaAlone(s);
      assert InFlight(s, s.dma.value.slot);
    }
  }

  lemma NeverLeaves(s: State, e: Event)
    requires SlotInv(s) && Alike(s, true) && Enabled(s, e)
    ensures !Leaves(s, e)
  {
    if s.dma.Some? {
      DmaAlone(s);
      assert InFlight(s, s.dma.value.slot);
    }
  }

  lemma DropFirst(n: nat, count: nat)
    requires count > 0
    ensures Without(Consecutive(n, count), 0) == Consecutive(n + 1, count - 1)
  {
  }

  lemma AddLast(n: nat, count: nat)
    ensures Consecutive(n, count) + [n + count] == Consecutive(n, count + 1)
  {
  }

  lemma ReadAfter(s: State, e: Event)
    requires SlotInv(s) && Enabled(s, e)
    ensures Next(s, e).read == s.read + if e.RetireBarrier? || Retires(s, e) then 1 else 0
  {
  }

  /** Effect of an event on the number sequence, given what it does to the two counters. */
  lemma CoversStep(q: seq<nat>, q': seq<nat>, read: nat, current: nat, read': nat, current': nat, grows: bool, shrinks: bool)
    requires Covers(q, read, current) && !(grows && shrinks) && (shrinks ==> |q| > 0)
    requires q' == if grows then q + [current] else if shrinks then Cut(q) else q
    requires read' == read + (if shrinks then 1 else 0) && current' == current + if grows then 1 else 0
    ensures Covers(q', read', current')
  {
    if grows {
      AddLast(read, current - read);
    } else if shrinks {
      DropFirst(read, current - read);
    }
  }

  lemma OrdinaryCounters(s: State, e: Event)
    requires OrderInv(s) && Enabled(s, e) && Ordinary(s, e) && !e.RetireBarrier?
    ensures Next(s, e).current == s.current + if e.Dispatch? then 1 else 0
    ensures Next(s, e).read == s.read + if e.Signalled? then 1 else 0
  {
    NeverLeaves(s, e);
    ReadAfter(s, e);
  }

  lemma OrdinaryNumbers(s: State, e: Event)
    requires OrderInv(s) && Enabled(s, e) && Ordinary(s, e)
    ensures Numbers(Next(s, e))
      == if e.Dispatch? then Numbers(s) + [s.current] else if e.Signalled? then Cut(Numbers(s)) else Numbers(s)
    ensures e.Signalled? ==> |Numbers(s)| > 0
    ensures Retires(s, e) <==> e.Signalled?
    ensures Retires(s, e) ==> |Numbers(s)| > 0 && Retired(s, e) == Numbers(s)[0]
  {
    NeverLeaves(s, e);
    NumbersAlongLine(s, e);
  }

  function Cut(q: seq<nat>): seq<nat> { if q == [] then [] else Without(q, 0) }

  lemma InOrderFrom(s: State, s': State, grows: bool, shrinks: bool)
    requires InOrder(s) && !(grows && shrinks) && (shrinks ==> |Numbers(s)| > 0)
    requires Numbers(s') == if grows then Numbers(s) + [s.current] else if shrinks then Cut(Numbers(s)) else Numbers(s)
    requires s'.current == s.current + if grows then 1 else 0
    requires s'.read == s.read + if shrinks then 1 else 0
    ensures InOrder(s')
  {
    CoversStep(Numbers(s), Numbers(s'), s.read, s.current, s'.read, s'.current, grows, shrinks);
  }

  lemma InOrderKept(s: State, e: Event)
    requires OrderInv(s) && Enabled(s, e) && Ordinary(s, e) && !e.RetireBarrier?
    ensures InOrder(Next(s, e))
  {
    OrdinaryCounters(s, e);
    OrdinaryNumbers(s, e);
    InOrderFrom(s, Next(s, e), e.Dispatch?, e.Signalled?);
  }

  lemma RetiresRead(s: State, e: Event)
    requires OrderInv(s) && Enabled(s, e) && Ordinary(s, e) && Retires(s, e)
    ensures Retired(s, e) == s.read
  {
    OrdinaryNumbers(s, e);
    assert Covers(Numbers(s), s.read, s.current);
  }

  lemma BothAdvance(s: State, s': State)
    requires InOrder(s) && s.current == s.read && Numbers(s') == Numbers(s) && s'.current == s'.read
    ensures InOrder(s')
  {
  }

  /** A barrier packet with its barrier bit ends only when nothing is in flight. */
  lemma BarrierInOrder(s: State)
    requires OrderInv(s) && Enabled(s, RetireBarrier) && Ordinary(s, RetireBarrier)
    ensures InOrder(Next(s, RetireBarrier))
  {
    OrdinaryNumbers(s, RetireBarrier);
    BothAdvance(s, Next(s, RetireBarrier));
  }

  lemma OrderKept(s: State, e: Event)
    requires OrderInv(s) && Enabled(s, e) && Ordinary(s, e) && FirstSight(s, e)
    ensures OrderInv(Next(s, e))
    ensures Retires(s, e) ==> Retired(s, e) == s.read
  {
    SlotInvKept(s, e);
    EntriesKept(s, e);
    AlikeKept(s, e, true);
    CurrentAfter(s, e);
    if e.RetireBarrier? {
      BarrierInOrder(s);
    } else {
      InOrderKept(s, e);
    }
    if Retires(s, e) {
      RetiresRead(s, e);
    }
  }

  lemma InitialOrder(window: nat, queue: nat)
    requires queue > 0
    ensures OrderInv(Initial(window, 1, queue))
  {
    InitialSlots(window, 1, queue);
    InitialEntries(window, 1, queue);
    InitialLine(window, queue);
    var s := Initial(window, 1, queue);
    forall x: Slot ensures !InFlight(s, x) { if x < window { assert s.free[x] == x; } }
  }

  lemma {:induction false} ByStatusHas(info: seq<KernelInfo>, q: seq<Slot>, status: Status, x: Slot)
    requires x in q && x < |info| && info[x].status == status
    ensures x in ByStatus(info, q, status)
  {
    if x != q[0] {
      ByStatusHas(info, q[1..], status, x);
    }
  }

  /** The line misses no packet in flight. */
  lemma FlightInLine(s: State, x: Slot)
    requires SlotInv(s) && InFlight(s, x)
    ensures x in Line(s)
  {
    CountMember(s.free, x);
    assert Places(s, x) == 1;
    CountJoin(DmaSlot(s.dma), DmaSlots(s.dmaQ), x);
    CountMember(DmaLine(s), x);
    CountJoin(CoreSlots(s.cores), LaunchSlots(s.launchQ), x);
    CountMember(Running(s), x);
    CountJoin(DecSlot(s.cmpl), DecSlots(s.decQ), x);
    CountMember(Completing(s), x);
    if x in DmaLine(s) {
      InDmaStage(s, x);
    }
  }

  lemma InDmaStage(s: State, x: Slot)
    requires SlotInv(s) && x in DmaLine(s)
    ensures x in Storing(s) || x in Loading(s) || x in Fetching(s)
  {
    DmaLineStatus(s, x);
    ByStatusHas(s.info, DmaLine(s), s.info[x].status, x);
  }

  lemma DmaLineStatus(s: State, x: Slot)
    requires SlotInv(s) && x in DmaLine(s)
    ensures x < |s.info| && s.info[x].status in {GetKernarg, GetImage, StoreImage}
  {
    if x in DmaSlots(s.dmaQ) {
      var i :| 0 <= i < |s.dmaQ| && DmaSlots(s.dmaQ)[i] == x;
      assert DmaStatus(s, s.dmaQ[i]);
    }
  }

  lemma FlightNumber(s: State, x: Slot)
    requires OrderInv(s) && InFlight(s, x)
    ensures s.read <= s.info[x].num < s.current
  {
    FlightInLine(s, x);
    var i :| 0 <= i < |Line(s)| && Line(s)[i] == x;
    assert Numbers(s)[i] == s.info[x].num;
  }

  /** The packet with number n is in flight. */
  lemma NumberInFlight(s: State, n: nat) returns (x: Slot)
    requires OrderInv(s) && s.read <= n < s.current
    ensures InFlight(s, x) && s.info[x].num == n
  {
    x := Line(s)[n - s.read];
    LineInFlight(s, x);
    assert Numbers(s)[n - s.read] == n;
  }

  /** The packet at the head is new if and only if fewer packets are in flight than the queue has entries. */
  lemma HeadIsNewIff(s: State)
    requires OrderInv(s)
    ensures NewPacket(s) <==> s.current - s.read < |s.aql|
  {
    if s.current - s.read < |s.aql| {
      forall x: Slot | InFlight(s, x) ensures s.info[x].kp != s.current % |s.aql| {
        FlightNumber(s, x);
        assert OwnEntry(s, x);
        ModuloApart(s.info[x].num, s.current, |s.aql|);
      }
    } else {
      var x := NumberInFlight(s, s.current - |s.aql|);
      assert OwnEntry(s, x);
      ModuloApart(s.info[x].num, s.current, |s.aql|);
    }
  }

  /** So it always is when the window has no more slots than the queue entries. */
  lemma HeadIsNew(s: State)
    requires OrderInv(s) && |s.free| > 0 && |s.info| <= |s.aql|
    ensures NewPacket(s)
  {
    assert s.current - s.read == InFlightCount(s);
    HeadIsNewIff(s);
  }

  lemma OrdinaryFirstSight(s: State, e: Event)
    requires OrderInv(s) && Enabled(s, e) && |s.info| <= |s.aql| && StillNew(s)
    ensures FirstSight(s, e)
  {
    if e.Admit? { HeadIsNew(s); }
  }

  lemma OrdinaryStillNew(s: State, e: Event)
    requires OrderInv(s) && Enabled(s, e) && |s.info| <= |s.aql| && StillNew(s)
    ensures StillNew(Next(s, e))
  {
    if e.Wait? {
      WaitsOnNew(s);
    } else if Next(s, e).phase.Waiting? {
      WaitGoesBack(s, e);
      StillNewKept(s, e);
    } else {
      SizesStay(s, e);
    }
  }

  lemma WaitsOnNew(s: State)
    requires OrderInv(s) && Enabled(s, Wait) && |s.info| <= |s.aql|
    ensures StillNew(Next(s, Wait))
  {
    HeadIsNew(s);
    WaitStarts(s);
  }

  lemma SizesStay(s: State, e: Event)
    requires Enabled(s, e)
    ensures |Next(s, e).info| == |s.info| && |Next(s, e).aql| == |s.aql|
  {
  }

  ghost predicate Ahead(s: State, window: nat, queue: nat) {
    OrderInv(s) && |s.info| == window && |s.aql| == queue && (window <= queue ==> StillNew(s))
  }

  lemma AheadKept(s: State, e: Event, window: nat, queue: nat)
    requires Ahead(s, window, queue) && Enabled(s, e) && Ordinary(s, e) && (window <= queue || FirstSight(s, e))
    ensures FirstSight(s, e) && Ahead(Next(s, e), window, queue)
  {
    if window <= queue {
      OrdinaryFirstSight(s, e);
      OrdinaryStillNew(s, e);
    }
    OrderKept(s, e);
    SizesStay(s, e);
  }

  lemma {:induction false} AheadAt(states: seq<State>, events: seq<Event>, window: nat, queue: nat, k: nat)
    requires IsRun(states, events) && states[0] == Initial(window, 1, queue) && queue > 0 && k <= |events|
    requires window <= queue || FirstSights(states, events)
    requires forall i :: 0 <= i < |events| ==> Ordinary(states[i], events[i])
    ensures Ahead(states[k], window, queue) && (k < |events| ==> FirstSight(states[k], events[k]))
  {
    if k == 0 {
      InitialOrder(window, queue);
    } else {
      AheadAt(states, events, window, queue, k - 1);
      AheadKept(states[k - 1], events[k - 1], window, queue);
    }
    if k < |events| { AheadKept(states[k], events[k], window, queue); }
  }

  /** In every run the packet that ends is number READ_INDEX: no packet ends before an older one. With no more slots
      than queue entries no packet is ever taken twice; with more this must be known. */
  lemma RetiresInOrder(states: seq<State>, events: seq<Event>, window: nat, queue: nat)
    requires queue > 0 && IsRun(states, events) && states[0] == Initial(window, 1, queue)
    requires window <= queue || FirstSights(states, events)
    requires forall i :: 0 <= i < |events| ==> Ordinary(states[i], events[i])
    ensures FirstSights(states, events)
    ensures forall i :: 0 <= i < |states| ==> OrderInv(states[i])
    ensures forall i :: 0 <= i < |events| ==> (Retires(states[i], events[i]) ==> Retired(states[i], events[i]) == states[i].read)
  {
    forall k | 0 <= k < |states| ensures OrderInv(states[k]) && (k < |events| ==> FirstSight(states[k], events[k])) {
      AheadAt(states, events, window, queue, k);
    }
    forall i | 0 <= i < |events| ensures Retires(states[i], events[i]) ==> Retired(states[i], events[i]) == states[i].read {
      OrderKept(states[i], events[i]);
    }
  }

  lemma EndsWithTurn(s: State, e: Event, signals: bool)
    requires SlotInv(s) && Alike(s, signals) && Enabled(s, e) && Retires(s, e)
    ensures e.Signalled? || (s.cmpl.None? && s.decQ == [])
  {
    if signals { NeverLeaves(s, e); }
  }

  /** Whatever barrier packets and skipped types go by: when all kernel packets carry a signal, or none does, they end
      in the order of their numbers. */
  lemma EndsInNumberOrder(states: seq<State>, events: seq<Event>, window: nat, queue: nat, signals: bool, i: nat, j: nat)
    requires queue > 0 && IsRun(states, events) && states[0] == Initial(window, 1, queue) && FirstSights(states, events)
    requires forall k :: 0 <= k < |events| && events[k].Dispatch? ==> (Head(states[k]).packet.signal != 0 <==> signals)
    requires i < j < |events|
    requires WellFormed(states[i]) && Retires(states[i], events[i]) && WellFormed(states[j]) && Retires(states[j], events[j])
    ensures Retired(states[i], events[i]) < Retired(states[j], events[j])
  {
    InitialOrder(window, queue);
    EntriesAlong(states, events);
    for k := 0 to i
      invariant Alike(states[k], signals)
    {
      AlikeKept(states[k], events[k], signals);
    }
    EndsWithTurn(states[i], events[i], signals);
    RetirementOrder(states, events, i, j);
  }

  /** How far a packet has come. */
  function Rank(status: Status): nat {
    match status
    case GetKernarg => 0
    case GetImage => 1
    case Processing => 2
    case StoreImage => 3
    case Completion => 4
  }

  ghost predicate AllRank(s: State, q: seq<Slot>, r: nat) {
    forall i :: 0 <= i < |q| ==> q[i] < |s.info| && Rank(s.info[q[i]].status) == r
  }

  lemma DmaStageRank(s: State, status: Status)
    ensures AllRank(s, ByStatus(s.info, DmaLine(s), status), Rank(status))
  {
    var q := ByStatus(s.info, DmaLine(s), status);
    forall i | 0 <= i < |q| ensures q[i] < |s.info| && Rank(s.info[q[i]].status) == Rank(status) {
      ByStatusMember(s.info, DmaLine(s), status, q[i]);
    }
  }

  lemma CompletingRank(s: State)
    requires SlotInv(s)
    ensures AllRank(s, Completing(s), 4)
  {
    forall i | 0 <= i < |Completing(s)| ensures Completing(s)[i] < |s.info| && s.info[Completing(s)[i]].status == Completion {
      if i >= |DecSlot(s.cmpl)| {
        assert s.info[s.decQ[i - |DecSlot(s.cmpl)|].slot].status == Completion;
      }
    }
  }

  lemma {:induction false} OnSomeCore(cores: seq<Option<LaunchRequest>>, i: nat) returns (c: nat)
    requires i < |CoreSlots(cores)|
    ensures c < |cores| && cores[c].Some? && cores[c].value.slot == CoreSlots(cores)[i]
  {
    if i < |CoreSlot(cores[0])| {
      c := 0;
    } else {
      c := OnSomeCore(cores[1..], i - |CoreSlot(cores[0])|);
      c := c + 1;
    }
  }

  lemma RunningRank(s: State)
    requires SlotInv(s)
    ensures AllRank(s, Running(s), 2)
  {
    forall i | 0 <= i < |Running(s)| ensures Running(s)[i] < |s.info| && s.info[Running(s)[i]].status == Processing {
      if i < |CoreSlots(s.cores)| {
        var c := OnSomeCore(s.cores, i);
      } else {
        assert s.info[s.launchQ[i - |CoreSlots(s.cores)|].slot].status == Processing;
      }
    }
  }

  ghost predicate Falling(s: State, q: seq<Slot>, low: nat) {
    && (forall i :: 0 <= i < |q| ==> q[i] < |s.info| && Rank(s.info[q[i]].status) >= low)
    && (forall i, j :: 0 <= i <= j < |q| && q[i] < |s.info| && q[j] < |s.info| ==>
          Rank(s.info[q[i]].status) >= Rank(s.info[q[j]].status))
  }

  lemma FallingJoin(s: State, p: seq<Slot>, q: seq<Slot>, low: nat, r: nat)
    requires Falling(s, p, low) && AllRank(s, q, r) && r <= low
    ensures Falling(s, p + q, r)
  {
  }

  /** With one core, at every moment of every run: a packet dispatched earlier is at the same stage as a later one
      or further, and among packets of the same stage the earlier one is ahead in the queue. */
  lemma OlderIsAhead(s: State, x: Slot, y: Slot)
    requires SlotInv(s) && |s.cores| == 1 && Sorted(s) && InFlight(s, x) && InFlight(s, y)
    requires s.info[x].num < s.info[y].num
    ensures Rank(s.info[x].status) >= Rank(s.info[y].status)
    ensures exists i, j :: 0 <= i < j < |Line(s)| && Line(s)[i] == x && Line(s)[j] == y
  {
    FlightInLine(s, x);
    FlightInLine(s, y);
    var i :| 0 <= i < |Line(s)| && Line(s)[i] == x;
    var j :| 0 <= j < |Line(s)| && Line(s)[j] == y;
    assert Numbers(s)[i] < Numbers(s)[j];
    LineFalls(s);
  }

  lemma LineFalls(s: State)
    requires SlotInv(s)
    ensures Falling(s, Line(s), 0)
  {
    CompletingRank(s);
    DmaStageRank(s, StoreImage);
    RunningRank(s);
    DmaStageRank(s, GetImage);
    DmaStageRank(s, GetKernarg);
    FallingJoin(s, Completing(s), Storing(s), 4, 3);
    FallingJoin(s, Completing(s) + Storing(s), Running(s), 3, 2);
    FallingJoin(s, Completing(s) + Storing(s) + Running(s), Loading(s), 2, 1);
    FallingJoin(s, Completing(s) + Storing(s) + Running(s) + Loading(s), Fetching(s), 1, 0);
  }
}
