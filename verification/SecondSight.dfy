/** Runs in which a packet without a completion signal ends before an older one with a signal, after which the main loop
    finds the older packet, still in flight, at the head of the queue again. */
module SecondSight {
  import opened Options
  import opened Protocol
  import opened Runs

  const P0 := KernelPacket(0, 0, 0, 0, 1)
  const P1 := KernelPacket(0, 0, 0, 0, 0)
  const ARGS := KernArgs(0, 0, 0, 0, 0, 0)

  /** The older packet's entry, with or without the barrier bit. */
  function E0(b: bool): AqlSlot { AqlSlot(KernelDispatch, b, P0) }

  const E1 := AqlSlot(KernelDispatch, false, P1)
  const EMPTY := AqlSlot(Invalid, false, KernelPacket(0, 0, 0, 0, 0))

  /** The on-board buffers of packet n. */
  function Block(n: nat): Address { DEVICE_BASE + 100 * n }

  function Image(n: nat): Address { DEVICE_BASE + 1000 + 100 * n }

  function Info(n: nat, status: Status): KernelInfo {
    KernelInfo(n, n, status, 0, Block(n), if status == GetKernarg then 0 else Image(n))
  }

  function Fetch(slot: Slot, n: nat): DmaRequest { DmaRequest(slot, 0, Block(n), 20, LoadData, 0) }

  function LoadIt(slot: Slot, n: nat): DmaRequest { DmaRequest(slot, 0, Image(n), 0, LoadData, 0) }

  function StoreIt(slot: Slot, n: nat): DmaRequest { DmaRequest(slot, 0, Image(n), 0, StoreData, 0) }

  function Launch(slot: Slot, n: nat): LaunchRequest { LaunchRequest(slot, 0, 0, 0, 0, 0, 0, 0, Image(n), Image(n), None) }

  /** Packet 0 in slot 1 and packet 1 in slot 0, both in flight. */
  function Both(b: bool, one: Status, zero: Status, dmaQ: seq<DmaRequest>, dma: Option<DmaRequest>,
                launchQ: seq<LaunchRequest>, core: Option<LaunchRequest>, decQ: seq<DecRequest>, images: nat): State {
    State([Info(1, one), Info(0, zero)], [], dmaQ, dma, launchQ, [core], decQ, None, [E0(b), E1], Polling,
          if images == 0 then map[Block(0) := 20, Block(1) := 20]
          else if images == 1 then map[Block(0) := 20, Block(1) := 20, Image(0) := 0]
          else map[Block(0) := 20, Block(1) := 20, Image(0) := 0, Image(1) := 0], 2, 0, 0)
  }

  const UNUSED := KernelInfo(0, 0, GetKernarg, 0, 0, 0)

  function Early(one: KernelInfo, zero: KernelInfo, free: seq<Slot>, dmaQ: seq<DmaRequest>, aql: seq<AqlSlot>, phase: Phase,
                 heap: map<Address, nat>, current: nat): State {
    State([one, zero], free, dmaQ, None, [], [None], [], None, aql, phase, heap, current, 0, 0)
  }

  /** The state after i events. */
  function T(b: bool, i: nat): State {
    match i
    case 0 => Early(UNUSED, UNUSED, [0, 1], [], [EMPTY, EMPTY], Polling, map[], 0)
    case 1 => Early(UNUSED, UNUSED, [0, 1], [], [E0(b), EMPTY], Polling, map[], 0)
    case 2 => Early(UNUSED, UNUSED, [0, 1], [], [E0(b), E1], Polling, map[], 0)
    case 3 => Early(UNUSED, UNUSED, [0, 1], [], [E0(b), E1], Admitted(Block(0), 0), map[Block(0) := 20], 0)
    case 4 => Early(UNUSED, Info(0, GetKernarg), [0], [Fetch(1, 0)], [E0(b), E1], Polling, map[Block(0) := 20], 1)
    case 5 => Early(UNUSED, Info(0, GetKernarg), [0], [Fetch(1, 0)], [E0(b), E1], Admitted(Block(1), 0),
                    map[Block(0) := 20, Block(1) := 20], 1)
    case 6 => Both(b, GetKernarg, GetKernarg, [Fetch(1, 0), Fetch(0, 1)], None, [], None, [], 0)
    case 7 => Both(b, GetKernarg, GetKernarg, [Fetch(0, 1)], Some(Fetch(1, 0)), [], None, [], 0)
    case 8 => Both(b, GetKernarg, GetImage, [Fetch(0, 1), LoadIt(1, 0)], None, [], None, [], 1)
    case 9 => Both(b, GetKernarg, GetImage, [LoadIt(1, 0)], Some(Fetch(0, 1)), [], None, [], 1)
    case 10 => Both(b, GetImage, GetImage, [LoadIt(1, 0), LoadIt(0, 1)], None, [], None, [], 2)
    case 11 => Both(b, GetImage, GetImage, [LoadIt(0, 1)], Some(LoadIt(1, 0)), [], None, [], 2)
    case 12 => Both(b, GetImage, Processing, [LoadIt(0, 1)], None, [Launch(1, 0)], None, [], 2)
    case 13 => Both(b, GetImage, Processing, [], Some(LoadIt(0, 1)), [Launch(1, 0)], None, [], 2)
    case 14 => Both(b, Processing, Processing, [], None, [Launch(1, 0), Launch(0, 1)], None, [], 2)
    case 15 => Both(b, Processing, Processing, [], None, [Launch(0, 1)], Some(Launch(1, 0)), [], 2)
    case 16 => Both(b, Processing, StoreImage, [StoreIt(1, 0)], None, [Launch(0, 1)], None, [], 2)
    case 17 => Both(b, Processing, StoreImage, [StoreIt(1, 0)], None, [], Some(Launch(0, 1)), [], 2)
    case 18 => Both(b, StoreImage, StoreImage, [StoreIt(1, 0), StoreIt(0, 1)], None, [], None, [], 2)
    case 19 => Both(b, StoreImage, StoreImage, [StoreIt(0, 1)], Some(StoreIt(1, 0)), [], None, [], 2)
    case 20 => Both(b, StoreImage, Completion, [StoreIt(0, 1)], None, [], None, [DecRequest(1, 1, 0)], 2)
    case 21 => Both(b, StoreImage, Completion, [], Some(StoreIt(0, 1)), [], None, [DecRequest(1, 1, 0)], 2)
    case _ => State([Info(1, StoreImage), Info(0, Completion)], [0], [], None, [], [None], [DecRequest(1, 1, 0)], None,
                    [E0(b), Cleared(E1)], Polling, map[Block(0) := 20, Image(0) := 0], 2, 1, 0)
  }

  function Events(b: bool): seq<Event> {
    [Produce(0, E0(b)), Produce(1, E1), Admit(Block(0), 0), Dispatch, Admit(Block(1), 0), Dispatch,
     StartDma, Transfer(ARGS, Image(0)), StartDma, Transfer(ARGS, Image(1)), StartDma, Transfer(ARGS, 0), StartDma,
     Transfer(ARGS, 0), StartKernel, KernelDone(0, ARGS), StartKernel, KernelDone(0, ARGS), StartDma, Transfer(ARGS, 0),
     StartDma, Transfer(ARGS, 0)]
  }

  lemma Starts(b: bool)
    ensures T(b, 0) == Initial(2, 1, 2)
    ensures Step(T(b, 0), Produce(0, E0(b)), T(b, 1)) && Step(T(b, 1), Produce(1, E1), T(b, 2))
  {
    var s := Initial(2, 1, 2);
    assert s.info == [UNUSED, UNUSED] && s.free == [0, 1] && s.cores == [None] && s.aql == [EMPTY, EMPTY];
  }

  lemma FirstTaken(b: bool)
    ensures Step(T(b, 2), Admit(Block(0), 0), T(b, 3)) && Step(T(b, 3), Dispatch, T(b, 4))
  {
  }

  lemma SecondAdmitted(b: bool)
    ensures Step(T(b, 4), Admit(Block(1), 0), T(b, 5))
  {
  }

  lemma SecondTaken(b: bool)
    ensures Step(T(b, 5), Dispatch, T(b, 6))
  {
  }

  lemma FirstArgumentsStart(b: bool)
    ensures Step(T(b, 6), StartDma, T(b, 7))
  {
  }

  lemma SecondArgumentsStart(b: bool)
    ensures Step(T(b, 8), StartDma, T(b, 9))
  {
  }

  lemma FirstImageStarts(b: bool)
    ensures Step(T(b, 10), StartDma, T(b, 11))
  {
  }

  lemma SecondImageStarts(b: bool)
    ensures Step(T(b, 12), StartDma, T(b, 13))
  {
  }

  lemma FirstStoreStarts(b: bool)
    ensures Step(T(b, 18), StartDma, T(b, 19))
  {
  }

  lemma SecondStoreStarts(b: bool)
    ensures Step(T(b, 20), StartDma, T(b, 21))
  {
  }

  lemma FirstArgumentsDue(b: bool)
    ensures Enabled(T(b, 7), Transfer(ARGS, Image(0)))
  {
  }

  lemma FirstArguments(b: bool)
    ensures Step(T(b, 7), Transfer(ARGS, Image(0)), T(b, 8))
  {
    FirstArgumentsDue(b);
  }

  lemma SecondArgumentsDue(b: bool)
    ensures Enabled(T(b, 9), Transfer(ARGS, Image(1)))
  {
  }

  lemma SecondArguments(b: bool)
    ensures Step(T(b, 9), Transfer(ARGS, Image(1)), T(b, 10))
  {
    SecondArgumentsDue(b);
  }

  lemma FirstImage(b: bool)
    ensures Step(T(b, 11), Transfer(ARGS, 0), T(b, 12))
  {
  }

  lemma SecondImage(b: bool)
    ensures Step(T(b, 13), Transfer(ARGS, 0), T(b, 14))
  {
  }

  lemma CoreStarts(b: bool)
    ensures Step(T(b, 14), StartKernel, T(b, 15))
  {
  }

  lemma CoreStartsAgain(b: bool)
    ensures Step(T(b, 16), StartKernel, T(b, 17))
  {
  }

  lemma FirstComputed(b: bool)
    ensures Step(T(b, 15), KernelDone(0, ARGS), T(b, 16))
  {
  }

  lemma SecondComputedDue(b: bool)
    ensures Enabled(T(b, 17), KernelDone(0, ARGS))
  {
  }

  lemma SecondComputed(b: bool)
    ensures Step(T(b, 17), KernelDone(0, ARGS), T(b, 18))
  {
    SecondComputedDue(b);
  }

  /** Packet 0 now waits for its signal. */
  lemma FirstStored(b: bool)
    ensures Step(T(b, 19), Transfer(ARGS, 0), T(b, 20))
  {
  }

  lemma SecondEndsDue(b: bool)
    ensures Enabled(T(b, 21), Transfer(ARGS, 0))
  {
  }

  /** Packet 1 has none and ends. */
  lemma SecondEnds(b: bool)
    ensures Step(T(b, 21), Transfer(ARGS, 0), T(b, 22))
  {
    SecondEndsDue(b);
    assert T(b, 21).heap - {Block(1), Image(1)} == map[Block(0) := 20, Image(0) := 0];
    assert [E0(b), E1][1 := Cleared(E1)] == [E0(b), Cleared(E1)];
  }

  lemma Producing(b: bool, i: nat)
    requires i < 2
    ensures Step(T(b, i), Events(b)[i], T(b, i + 1))
  {
    Starts(b);
  }

  lemma Dispatching(b: bool, i: nat)
    requires 2 <= i < 6
    ensures Step(T(b, i), Events(b)[i], T(b, i + 1))
  {
    if i < 4 { FirstTaken(b); }
    else if i == 4 { SecondAdmitted(b); }
    else { SecondTaken(b); }
  }

  lemma LoadingFirst(b: bool, i: nat)
    requires 6 <= i < 8
    ensures Step(T(b, i), Events(b)[i], T(b, i + 1))
  {
    if i == 6 { FirstArgumentsStart(b); } else { FirstArguments(b); }
  }

  lemma LoadingSecond(b: bool, i: nat)
    requires 8 <= i < 10
    ensures Step(T(b, i), Events(b)[i], T(b, i + 1))
  {
    if i == 8 { SecondArgumentsStart(b); } else { SecondArguments(b); }
  }

  lemma LoadingImages(b: bool, i: nat)
    requires 10 <= i < 14
    ensures Step(T(b, i), Events(b)[i], T(b, i + 1))
  {
    if i == 10 { FirstImageStarts(b); }
    else if i == 11 { FirstImage(b); }
    else if i == 12 { SecondImageStarts(b); }
    else { SecondImage(b); }
  }

  lemma Computing(b: bool, i: nat)
    requires 14 <= i < 18
    ensures Step(T(b, i), Events(b)[i], T(b, i + 1))
  {
    if i == 14 { CoreStarts(b); }
    else if i == 15 { FirstComputed(b); }
    else if i == 16 { CoreStartsAgain(b); }
    else { SecondComputed(b); }
  }

  lemma Finishing(b: bool, i: nat)
    requires 18 <= i < 22
    ensures Step(T(b, i), Events(b)[i], T(b, i + 1))
  {
    if i == 18 { FirstStoreStarts(b); }
    else if i == 19 { FirstStored(b); }
    else if i == 20 { SecondStoreStarts(b); }
    else { SecondEnds(b); }
  }

  lemma EveryStep(b: bool, i: nat)
    requires i < 22
    ensures Step(T(b, i), Events(b)[i], T(b, i + 1))
  {
    if i < 2 { Producing(b, i); }
    else if i < 6 { Dispatching(b, i); }
    else if i < 8 { LoadingFirst(b, i); }
    else if i < 10 { LoadingSecond(b, i); }
    else if i < 14 { LoadingImages(b, i); }
    else if i < 18 { Computing(b, i); }
    else { Finishing(b, i); }
  }

  lemma NewAtFirst(b: bool)
    ensures FirstSight(T(b, 2), Events(b)[2])
  {
    assert T(b, 2).free == [0, 1] && !InFlight(T(b, 2), 0) && !InFlight(T(b, 2), 1);
  }

  lemma NewAtSecond(b: bool)
    ensures FirstSight(T(b, 4), Events(b)[4])
  {
    assert T(b, 4).free == [0] && !InFlight(T(b, 4), 0) && T(b, 4).info[1].kp == 0 && T(b, 4).current % |T(b, 4).aql| == 1;
  }

  lemma AdmitsAt(b: bool, i: nat)
    requires i < 22 && Events(b)[i].Admit?
    ensures i == 2 || i == 4
  {
  }

  lemma EachFirstSight(b: bool, i: nat)
    requires i < 22
    ensures FirstSight(T(b, i), Events(b)[i])
  {
    if Events(b)[i].Admit? {
      AdmitsAt(b, i);
      NewAtFirst(b);
      NewAtSecond(b);
    }
  }

  /** The first 22 steps. */
  lemma FirstSteps(b: bool) returns (states: seq<State>)
    ensures Path(states, Events(b), Initial(2, 1, 2), T(b, 22)) && FirstSights(states, Events(b))
  {
    Starts(b);
    states := seq(23, i requires 0 <= i < 23 => T(b, i));
    forall i | 0 <= i < 22 ensures Step(states[i], Events(b)[i], states[i + 1]) && FirstSight(states[i], Events(b)[i]) {
      EveryStep(b, i);
      EachFirstSight(b, i);
    }
    StepsMakeRun(states, Events(b));
  }

  lemma FoundAgain(last: Event)
    requires last == Admit(BLOCK, 0)
    ensures Enabled(T(false, 22), last) && InFlight(T(false, 22), 1) && T(false, 22).info[1].kp == T(false, 22).current % 2
    ensures !NewPacket(T(false, 22))
  {
    assert InFlight(T(false, 22), 1) && T(false, 22).info[1].kp == 0 && T(false, 22).current % 2 == 0;
  }

  const BLOCK: Address := DEVICE_BASE + 5000

  /** From power-up, with one core, a queue as long as the window, and producers that write invalid entries only, the
      main loop can come to admit a packet that is still in flight. The packet counter does not pass 2: AQL_LEFT stays
      set if a third packet number has been reserved. */
  lemma TakenTwice() returns (states: seq<State>, events: seq<Event>)
    ensures IsRun(states, events) && states[0] == Initial(2, 1, 2) && |events| > 0
    ensures events[|events| - 1].Admit? && !NewPacket(states[|events| - 1])
    ensures forall i :: 0 <= i < |events| - 1 ==> FirstSight(states[i], events[i])
    ensures forall i :: 0 <= i < |states| ==> states[i].current <= 2
  {
    var s, last := T(false, 22), Admit(BLOCK, 0);
    FoundAgain(last);
    var before := FirstSteps(false);
    states, events := LastAdmit(before, Events(false), s, last);
  }

  lemma LastAdmit(before: seq<State>, past: seq<Event>, s: State, last: Event) returns (states: seq<State>, events: seq<Event>)
    requires Path(before, past, Initial(2, 1, 2), s) && FirstSights(before, past)
    requires last.Admit? && Enabled(s, last) && !NewPacket(s)
    ensures IsRun(states, events) && states[0] == Initial(2, 1, 2) && |events| > 0
    ensures events[|events| - 1].Admit? && !NewPacket(states[|events| - 1])
    ensures forall i :: 0 <= i < |events| - 1 ==> FirstSight(states[i], events[i])
    ensures forall i :: 0 <= i < |states| ==> states[i].current <= s.current
  {
    var t := Next(s, last);
    Extend(before, past, Initial(2, 1, 2), s, [s, t], [last]);
    states, events := before + [t], past + [last];
    assert [s, t][1..] == [t];
    forall i | 0 <= i < |states| ensures states[i].current <= s.current { CounterGrows(states, events, i, |events|); }
  }

  // ---- the same with a barrier bit ----

  /** After the 22 steps packet 0's signal is sent while the main loop waits at its entry. */
  function W(i: nat): State {
    match i
    case 0 => T(true, 22)
    case 1 => W(0).(decQ := [], cmpl := Some(DecRequest(1, 1, 0)))
    case 2 => W(1).(phase := Waiting(KernelDispatch))
    case 3 => State([Info(1, StoreImage), Info(0, Completion)], [0, 1], [], None, [], [None], [], None,
                    [Cleared(E0(true)), Cleared(E1)], Waiting(KernelDispatch), map[], 2, 2, 0)
    case 4 => W(3).(phase := Admitted(BLOCK, 0), heap := map[BLOCK := 20])
    case _ => W(4).(free := [0], info := [Info(1, StoreImage), KernelInfo(2, 0, GetKernarg, 0, BLOCK, Image(0))],
                    dmaQ := [DmaRequest(1, 0, BLOCK, 20, LoadData, 0)], phase := Polling, current := 3)
  }

  const LATER: seq<Event> := [StartDec, Wait, Signalled, Admit(BLOCK, 0), Dispatch]

  lemma SignalStarts()
    ensures Step(W(0), StartDec, W(1))
  {
  }

  lemma WaitBegins()
    ensures Step(W(1), Wait, W(2))
  {
  }

  lemma OlderEnds()
    ensures Step(W(2), Signalled, W(3))
  {
    assert W(2).heap - {Block(0), Image(0)} == map[];
    assert [E0(true), Cleared(E1)][0 := Cleared(E0(true))] == [Cleared(E0(true)), Cleared(E1)];
  }

  lemma AdmittedAgain()
    ensures Step(W(3), Admit(BLOCK, 0), W(4))
  {
    assert Head(W(3)) == Cleared(E0(true));
  }

  lemma DispatchedAgain()
    ensures Step(W(4), Dispatch, W(5))
  {
    assert [0, 1][..1] == [0];
  }

  lemma LaterStep(i: nat)
    requires i < 5
    ensures Step(W(i), LATER[i], W(i + 1))
  {
    if i == 0 { SignalStarts(); }
    else if i == 1 { WaitBegins(); }
    else if i == 2 { OlderEnds(); }
    else if i == 3 { AdmittedAgain(); }
    else { DispatchedAgain(); }
  }

  /** The states of these steps, and what is to be seen in them. */
  lemma LaterStates() returns (w: seq<State>)
    ensures |w| == 6 && w[0] == T(true, 22)
    ensures forall i :: 0 <= i < 5 ==> Step(w[i], LATER[i], w[i + 1])
    ensures InFlight(w[1], 1) && |w[1].aql| > 0 && w[1].info[1].kp < |w[1].aql| && PacketOf(w[1], 1) == P0
    ensures !InFlight(w[3], 1) && NewPacket(w[3]) && Head(w[3]).kind == Invalid && w[3].current == 2
    ensures InFlight(w[5], 1) && w[5].info[1].kp < |w[5].aql| && PacketOf(w[5], 1) == P0
  {
    w := seq(6, i requires 0 <= i < 6 => W(i));
    forall i | 0 <= i < 5 ensures Step(w[i], LATER[i], w[i + 1]) { LaterStep(i); }
    assert w[1] == W(1) && w[3] == W(3) && w[5] == W(5);
    InFlightBefore();
    EndedMeanwhile();
    InFlightAgain();
  }

  lemma InFlightBefore()
    ensures InFlight(W(1), 1) && |W(1).aql| > 0 && W(1).info[1].kp < |W(1).aql| && PacketOf(W(1), 1) == P0
  {
  }

  lemma EndedMeanwhile()
    ensures !InFlight(W(3), 1) && NewPacket(W(3)) && Head(W(3)).kind == Invalid && W(3).current == 2
  {
    assert !InFlight(W(3), 0) && !InFlight(W(3), 1);
  }

  lemma InFlightAgain()
    ensures InFlight(W(5), 1) && W(5).info[1].kp < |W(5).aql| && PacketOf(W(5), 1) == P0
  {
  }

  /** A barrier wait that begins at the entry of a packet in flight goes on, when this packet has ended, with the type
      read before: the packet is dispatched a second time, from an entry that is invalid. No packet is ever admitted
      while it is in flight in this run. */
  lemma TakenAfterWait() returns (states: seq<State>, events: seq<Event>)
    ensures IsRun(states, events) && states[0] == Initial(2, 1, 2) && |events| == 27
    ensures events[22..] == [StartDec, Wait, Signalled, Admit(BLOCK, 0), Dispatch]
    ensures InFlight(states[23], 1) && WellFormed(states[23]) && PacketOf(states[23], 1) == P0
    ensures !InFlight(states[25], 1) && WellFormed(states[25]) && Head(states[25]).kind == Invalid
    ensures InFlight(states[27], 1) && states[27].info[1].kp < |states[27].aql| && PacketOf(states[27], 1) == P0
    ensures P0.signal != 0 && forall i :: 0 <= i < |events| && events[i].Admit? ==> NewPacket(states[i])
    ensures forall i :: 0 <= i <= 25 ==> states[i].current <= 2
  {
    var before := FirstSteps(true);
    var w := LaterStates();
    Extend(before, Events(true), Initial(2, 1, 2), w[0], w, LATER);
    states, events := before + w[1..], Events(true) + LATER;
    assert states[23] == w[1] && states[25] == w[3] && states[27] == w[5];
    forall i | 0 <= i < |events| && events[i].Admit? ensures NewPacket(states[i]) {
      if i < 22 { assert FirstSight(before[i], Events(true)[i]); } else { assert LATER[i - 22].Admit?; }
    }
    forall i | 0 <= i <= 25 ensures states[i].current <= 2 { CounterGrows(states, events, i, 25); }
  }
}
