/** The barrier wait of the main loop serves no queue while it lasts. Which waits end, and which never do. */
module BarrierWait {
  import opened Options
  import opened Protocol
  import opened SlotSafety
  import opened AqlEntries
  import opened Progress
  import opened Runs

  /** An odd number of steps is left to a packet that an engine works on, an even one to a packet in a ring. */
  lemma StepParity(s: State, x: Slot)
    requires SlotInv(s) && InFlight(s, x)
    ensures Remaining(s, x) % 2 == 1 <==> Queued(s, x) == 0
  {
    QueuedOnce(s, x);
  }

  /** With two or more steps to go a packet stays that way during the wait: the step below is a ring's turn. */
  lemma StuckKept(s: State, e: Event, x: Slot)
    requires SlotInv(s) && EntriesInv(s) && Enabled(s, e) && s.phase.Waiting? && Remaining(s, x) >= 2
    ensures Next(s, e).phase.Waiting? && Remaining(Next(s, e), x) >= 2
  {
    RemainingMeansInFlight(s, x);
    SomethingHeld(s, x);
    NotResumed(s, e, x);
    OneStepOff(s, e, x);
    if Acts(s, e, x) {
      ActiveNotQueued(s, e, x);
      StepParity(s, x);
    }
  }

  lemma NotResumed(s: State, e: Event, x: Slot)
    requires SlotInv(s) && Enabled(s, e) && s.phase.Waiting? && InFlight(s, x)
    ensures s.current != s.read && Next(s, e).phase.Waiting?
  {
    BarrierWaitMeaning(s);
  }

  ghost predicate Stuck(s: State, x: Slot) {
    SlotInv(s) && EntriesInv(s) && s.phase.Waiting? && Remaining(s, x) >= 2
  }

  lemma StuckMeans(s: State, x: Slot)
    requires Stuck(s, x)
    ensures s.current != s.read
  {
    RemainingMeansInFlight(s, x);
    BarrierWaitMeaning(s);
  }

  lemma StuckOn(s: State, e: Event, x: Slot)
    requires Stuck(s, x) && Enabled(s, e)
    ensures Stuck(Next(s, e), x) && Next(s, e).current != Next(s, e).read
  {
    StuckMeans(s, x);
    StuckKept(s, e, x);
    SlotInvKept(s, e);
    EntriesKept(s, e);
    StuckMeans(Next(s, e), x);
  }

  /** Then the wait never ends, whatever interrupts and producers do. */
  lemma WaitForEver(states: seq<State>, events: seq<Event>, x: Slot)
    requires IsRun(states, events) && SlotInv(states[0]) && EntriesInv(states[0])
    requires states[0].phase.Waiting? && Remaining(states[0], x) >= 2
    ensures forall i :: 0 <= i < |states| ==> states[i].phase.Waiting? && states[i].current != states[i].read
  {
    StuckMeans(states[0], x);
    for k := 0 to |events|
      invariant Stuck(states[k], x)
      invariant forall i :: 0 <= i <= k ==> states[i].phase.Waiting? && states[i].current != states[i].read
    {
      StuckOn(states[k], events[k], x);
    }
  }

  /** The packet needs no more service from the main loop: its signal is being sent, or it has none and its result is
      being stored. */
  ghost predicate LastStep(s: State, x: Slot)
    requires WellFormed(s)
  {
    || (s.cmpl.Some? && s.cmpl.value.slot == x)
    || (s.dma.Some? && s.dma.value.slot == x && s.info[x].status == StoreImage && PacketOf(s, x).signal == 0)
  }

  lemma WhereActive(s: State, x: Slot)
    requires SlotInv(s) && InFlight(s, x) && Queued(s, x) == 0
    ensures (s.dma.Some? && s.dma.value.slot == x) || (s.cmpl.Some? && s.cmpl.value.slot == x)
      || s.info[x].status == Processing
  {
    CountMember(s.free, x);
    assert Places(s, x) == 1;
    CountMember(DmaSlot(s.dma), x);
    CountMember(DecSlot(s.cmpl), x);
    CountMember(CoreSlots(s.cores), x);
    if x in CoreSlots(s.cores) { OnCore(s, s.cores, 0, x); }
  }

  lemma {:induction false} OnCore(s: State, cores: seq<Option<LaunchRequest>>, c: nat, x: Slot)
    requires SlotInv(s) && c <= |s.cores| && cores == s.cores[c..] && x in CoreSlots(cores)
    ensures x < |s.info| && s.info[x].status == Processing
    decreases |cores|
  {
    if x !in CoreSlot(cores[0]) {
      OnCore(s, cores[1..], c + 1, x);
    } else {
      assert s.cores[c] == cores[0];
    }
  }

  lemma OneStepMeans(s: State, x: Slot)
    requires SlotInv(s)
    ensures Remaining(s, x) == 1 <==> InFlight(s, x) && LastStep(s, x)
  {
    RemainingMeansInFlight(s, x);
    if InFlight(s, x) {
      QueuedOnce(s, x);
      if Queued(s, x) == 0 { WhereActive(s, x); }
      ActiveAlone(s, x);
    }
  }

  lemma ActiveAlone(s: State, x: Slot)
    requires SlotInv(s) && InFlight(s, x)
    ensures s.dma.Some? && s.dma.value.slot == x ==> Queued(s, x) == 0 && s.info[x].status in {GetKernarg, GetImage, StoreImage}
    ensures s.cmpl.Some? && s.cmpl.value.slot == x ==> Queued(s, x) == 0 && s.info[x].status == Completion
  {
    assert Places(s, x) == 1;
    CountMember(DmaSlot(s.dma), x);
    CountMember(DecSlot(s.cmpl), x);
  }

  /** A run after which the two counters agree, so that the main loop goes on. */
  ghost predicate EndsWait(s: State, states: seq<State>, events: seq<Event>) {
    IsRun(states, events) && states[0] == s && states[|events|].current == states[|events|].read
  }

  /** It goes on with the type it has read before, except that the end of a barrier packet with a completion signal is
      not a step of the state machine. */
  lemma GoesOn(s: State) returns (e: Event)
    requires SlotInv(s) && s.phase.Waiting? && s.current == s.read
    requires s.phase.kind == Barrier ==> Head(s).packet.signal == 0
    ensures Enabled(s, e) && !Next(s, e).phase.Waiting?
  {
    match s.phase.kind
    case Invalid => e := Resume;
    case KernelDispatch =>
      var block := FreshExists(s.heap, KernargSize(Head(s).packet.kernelObject));
      e := Admit(block, 0);
    case Barrier => e := RetireBarrier;
    case Other => e := Skip;
  }

  /** The interrupt that ends packet x. */
  lemma LastInterrupt(s: State, x: Slot) returns (e: Event)
    requires SlotInv(s) && InFlight(s, x) && LastStep(s, x)
    ensures Enabled(s, e) && Working(e) && !e.Dispatch?
    ensures Next(s, e).phase == s.phase && Next(s, e).skipped == s.skipped
  {
    if s.cmpl.Some? && s.cmpl.value.slot == x {
      e := Signalled;
    } else {
      e := Transfer(KernArgs(0, 0, 0, 0, 0, 0), 0);
    }
  }

  ghost predicate AllLast(s: State) { s.skipped == 0 && forall x: Slot :: Remaining(s, x) <= 1 }

  lemma AllLastKept(s: State, e: Event)
    requires SlotInv(s) && EntriesInv(s) && AllLast(s) && Enabled(s, e) && !e.Dispatch? && Next(s, e).skipped == s.skipped
    ensures AllLast(Next(s, e))
  {
    forall x: Slot ensures Remaining(Next(s, e), x) <= 1 { OneStepOff(s, e, x); }
  }

  /** When every packet in flight is at its last step the interrupts that are due end the wait. */
  lemma {:induction false} WaitCanEnd(s: State) returns (states: seq<State>, events: seq<Event>)
    requires SlotInv(s) && EntriesInv(s) && s.phase.Waiting? && AllLast(s)
    ensures EndsWait(s, states, events)
    decreases Total(s, |s.info|)
  {
    BarrierWaitMeaning(s);
    if s.current == s.read {
      Stay(s);
      states, events := [s], [];
    } else {
      var x: Slot :| InFlight(s, x);
      RemainingMeansInFlight(s, x);
      OneStepMeans(s, x);
      var e := LastInterrupt(s, x);
      PotentialFalls(s, e);
      SlotInvKept(s, e);
      EntriesKept(s, e);
      AllLastKept(s, e);
      SameWindow(s, e);
      var rest, later := WaitCanEnd(Next(s, e));
      Prepend(s, e, rest, later, rest[|later|]);
      states, events := [s] + rest, [e] + later;
    }
  }

  lemma SameWindow(s: State, e: Event)
    requires Enabled(s, e)
    ensures |Next(s, e).info| == |s.info|
  {
  }

  lemma WithoutEnd(s: State, states: seq<State>, events: seq<Event>)
    requires SlotInv(s) && EntriesInv(s) && s.phase.Waiting? && !AllLast(s) && IsRun(states, events) && states[0] == s
    ensures states[|events|].phase.Waiting? && states[|events|].current != states[|events|].read
  {
    if s.skipped > 0 {
      SkippedWaits(states, events);
    } else {
      var x: Slot :| Remaining(s, x) > 1;
      WaitForEver(states, events, x);
    }
  }

  lemma SkippedWaits(states: seq<State>, events: seq<Event>)
    requires IsRun(states, events) && SlotInv(states[0]) && states[0].phase.Waiting? && states[0].skipped > 0
    ensures forall i :: 0 <= i < |states| ==> states[i].phase.Waiting? && states[i].current != states[i].read
  {
    SkippedBlocksBarriers(states, events, 0);
    for k := 0 to |events|
      invariant forall i :: 0 <= i <= k ==> states[i].phase.Waiting?
    {
      StillWaiting(states[k], events[k]);
    }
  }

  lemma StillWaiting(s: State, e: Event)
    requires Enabled(s, e) && s.phase.Waiting? && s.current != s.read
    ensures Next(s, e).phase.Waiting?
  {
  }

  /** The barrier wait can end if and only if no packet of a skipped type has gone by and every packet in flight is at
      its very last step; in every other case it lasts for ever. */
  lemma WaitEndsIff(s: State)
    requires SlotInv(s) && EntriesInv(s) && s.phase.Waiting?
    ensures (exists states, events :: EndsWait(s, states, events))
      <==> s.skipped == 0 && forall x: Slot :: InFlight(s, x) ==> LastStep(s, x)
  {
    LastSteps(s);
    if AllLast(s) {
      var states, events := WaitCanEnd(s);
    } else {
      forall states, events | IsRun(states, events) && states[0] == s ensures !EndsWait(s, states, events) {
        WithoutEnd(s, states, events);
      }
    }
  }

  lemma LastSteps(s: State)
    requires SlotInv(s)
    ensures AllLast(s) <==> s.skipped == 0 && forall x: Slot :: InFlight(s, x) ==> LastStep(s, x)
  {
    forall x: Slot ensures Remaining(s, x) <= 1 <==> (InFlight(s, x) ==> LastStep(s, x)) {
      OneStepMeans(s, x);
      RemainingMeansInFlight(s, x);
    }
  }
}
