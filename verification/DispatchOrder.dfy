/** Order of packets with one accelerator core: nothing overtakes inside the processor. */
module DispatchOrder {
  import opened Options
  import opened Protocol
  import opened SlotSafety

  function ByStatus(info: seq<KernelInfo>, q: seq<Slot>, status: Status): seq<Slot> {
    if q == [] then []
    else (if q[0] < |info| && info[q[0]].status == status then [q[0]] else []) + ByStatus(info, q[1..], status)
  }

  /** The DMA engine's packet and the queued ones behind it, of all stages mixed. */
  function DmaLine(s: State): seq<Slot> { DmaSlot(s.dma) + DmaSlots(s.dmaQ) }

  function Storing(s: State): seq<Slot> { ByStatus(s.info, DmaLine(s), StoreImage) }

  function Loading(s: State): seq<Slot> { ByStatus(s.info, DmaLine(s), GetImage) }

  function Fetching(s: State): seq<Slot> { ByStatus(s.info, DmaLine(s), GetKernarg) }

  /** Packets waiting for their completion signal. */
  function Completing(s: State): seq<Slot> { DecSlot(s.cmpl) + DecSlots(s.decQ) }

  /** Packets waiting for a core or running on one. */
  function Running(s: State): seq<Slot> { CoreSlots(s.cores) + LaunchSlots(s.launchQ) }

  /** The stages end to end, the furthest one first. */
  function Stages(completing: seq<Slot>, storing: seq<Slot>, running: seq<Slot>, loading: seq<Slot>, fetching: seq<Slot>): seq<Slot> {
    completing + storing + running + loading + fetching
  }

  /** All packets in flight, the furthest stage first and each stage in FIFO order. */
  function Line(s: State): seq<Slot> { Stages(Completing(s), Storing(s), Running(s), Loading(s), Fetching(s)) }

  function NumberOf(s: State, x: Slot): nat { if x < |s.info| then s.info[x].num else 0 }

  /** The packet numbers along the line. */
  function Numbers(s: State): (r: seq<nat>)
    ensures |r| == |Line(s)|
  {
    Map(s, Line(s))
  }

  function Map(s: State, q: seq<Slot>): (r: seq<nat>)
    ensures |r| == |q|
  {
    seq(|q|, i requires 0 <= i < |q| => NumberOf(s, q[i]))
  }

  /** Strictly increasing and below a bound. */
  ghost predicate Increasing(q: seq<nat>, bound: nat) {
    && (forall i :: 0 <= i < |q| ==> q[i] < bound)
    && (forall i, j :: 0 <= i < j < |q| ==> q[i] < q[j])
  }

  /** Packet numbers increase along the line: older packets are ahead. */
  ghost predicate Sorted(s: State) { Increasing(Numbers(s), s.current) }

  lemma {:induction false} ByStatusAppend(info: seq<KernelInfo>, q: seq<Slot>, x: Slot, status: Status)
    requires x < |info|
    ensures ByStatus(info, q + [x], status) == ByStatus(info, q, status) + (if info[x].status == status then [x] else [])
  {
    if q == [] {
      assert [x][1..] == [];
    } else {
      assert (q + [x])[1..] == q[1..] + [x];
      ByStatusAppend(info, q[1..], x, status);
    }
  }

  lemma {:induction false} ByStatusFrame(info: seq<KernelInfo>, q: seq<Slot>, x: Slot, i: KernelInfo, status: Status)
    requires x < |info| && x !in q
    ensures ByStatus(info[x := i], q, status) == ByStatus(info, q, status)
  {
    if q != [] {
      ByStatusFrame(info, q[1..], x, i, status);
    }
  }

  lemma AvoidDma(s: State, x: Slot)
    requires Elsewhere(s, x)
    ensures x !in DmaSlots(s.dmaQ)
  {
  }

  /** Starting a transfer moves the head of the ring into the engine. */
  lemma StartDmaKeepsLine(s: State)
    requires Enabled(s, StartDma)
    ensures Line(Next(s, StartDma)) == Line(s)
  {
    assert DmaLine(Next(s, StartDma)) == DmaLine(s);
  }

  lemma OneCore(cores: seq<Option<LaunchRequest>>)
    requires |cores| == 1
    ensures CoreSlots(cores) == CoreSlot(cores[0])
  {
    assert cores[1..] == [] && CoreSlots(cores[1..]) == [];
  }

  lemma StartKernelKeepsLine(s: State)
    requires |s.cores| == 1 && Enabled(s, StartKernel)
    ensures Line(Next(s, StartKernel)) == Line(s)
  {
    var s' := Next(s, StartKernel);
    OneCore(s.cores);
    OneCore(s'.cores);
    assert Running(s') == Running(s);
  }

  lemma StartDecKeepsLine(s: State)
    requires Enabled(s, StartDec)
    ensures Line(Next(s, StartDec)) == Line(s)
  {
    assert Completing(Next(s, StartDec)) == Completing(s);
  }

  /** The DMA engine's packet is the first of its stage. */
  lemma EngineHead(s: State, status: Status)
    requires s.dma.Some? && s.dma.value.slot < |s.info|
    ensures ByStatus(s.info, DmaLine(s), status)
      == (if s.info[s.dma.value.slot].status == status then [s.dma.value.slot] else [])
         + ByStatus(s.info, DmaSlots(s.dmaQ), status)
  {
    assert DmaLine(s)[1..] == DmaSlots(s.dmaQ);
  }

  lemma FetchedMoves(c: seq<Slot>, s: seq<Slot>, r: seq<Slot>, l: seq<Slot>, x: Slot, f: seq<Slot>)
    ensures Stages(c, s, r, l, [x] + f) == Stages(c, s, r, l + [x], f)
  {
  }

  lemma LoadedMoves(c: seq<Slot>, s: seq<Slot>, r: seq<Slot>, x: Slot, l: seq<Slot>, f: seq<Slot>)
    ensures Stages(c, s, r, [x] + l, f) == Stages(c, s, r + [x], l, f)
  {
    assert c + s + r + ([x] + l) == c + s + (r + [x]) + l;
  }

  lemma RanMoves(c: seq<Slot>, s: seq<Slot>, x: Slot, r: seq<Slot>, l: seq<Slot>, f: seq<Slot>)
    ensures Stages(c, s, [x] + r, l, f) == Stages(c, s + [x], r, l, f)
  {
    assert c + s + ([x] + r) == c + (s + [x]) + r;
  }

  lemma StoredMoves(c: seq<Slot>, x: Slot, s: seq<Slot>, r: seq<Slot>, l: seq<Slot>, f: seq<Slot>)
    ensures Stages(c, [x] + s, r, l, f) == Stages(c + [x], s, r, l, f)
  {
    assert c + ([x] + s) == (c + [x]) + s;
  }

  lemma StoredLeaves(c: seq<Slot>, x: Slot, s: seq<Slot>, r: seq<Slot>, l: seq<Slot>, f: seq<Slot>)
    ensures |c| < |Stages(c, [x] + s, r, l, f)| && Stages(c, [x] + s, r, l, f)[|c|] == x
    ensures Stages(c, s, r, l, f) == Without(Stages(c, [x] + s, r, l, f), |c|)
  {
    var rest := s + r + l + f;
    assert Stages(c, [x] + s, r, l, f) == c + ([x] + rest);
    assert Stages(c, s, r, l, f) == c + rest;
    CutMiddle(c, x, rest);
  }

  lemma CutMiddle(c: seq<Slot>, x: Slot, rest: seq<Slot>)
    ensures Without(c + ([x] + rest), |c|) == c + rest
  {
    var whole := c + ([x] + rest);
    assert whole[..|c|] == c;
    assert whole[|c| + 1..] == rest;
  }

  function Without<T>(q: seq<T>, n: nat): seq<T>
    requires n < |q|
  {
    q[..n] + q[n + 1..]
  }

  lemma CompletedLeaves(x: Slot, c: seq<Slot>, s: seq<Slot>, r: seq<Slot>, l: seq<Slot>, f: seq<Slot>)
    ensures Stages([x] + c, s, r, l, f) == [x] + Stages(c, s, r, l, f)
  {
    assert [x] + c + s + r == [x] + (c + s + r);
  }

  /** The engine's packet has left the DMA stages. */
  lemma LeftDma(s: State, s': State)
    requires SlotInv(s) && s.dma.Some? && s'.dma.None? && s'.dmaQ == s.dmaQ
    requires |s'.info| == |s.info| && s'.info == s.info[s.dma.value.slot := s'.info[s.dma.value.slot]]
    ensures Storing(s') == ByStatus(s.info, DmaSlots(s.dmaQ), StoreImage)
    ensures Loading(s') == ByStatus(s.info, DmaSlots(s.dmaQ), GetImage)
    ensures Fetching(s') == ByStatus(s.info, DmaSlots(s.dmaQ), GetKernarg)
  {
    var x := s.dma.value.slot;
    DmaAlone(s);
    AvoidDma(s, x);
    assert DmaLine(s') == DmaSlots(s.dmaQ);
    ByStatusFrame(s.info, DmaSlots(s.dmaQ), x, s'.info[x], GetKernarg);
    ByStatusFrame(s.info, DmaSlots(s.dmaQ), x, s'.info[x], GetImage);
    ByStatusFrame(s.info, DmaSlots(s.dmaQ), x, s'.info[x], StoreImage);
  }

  function If(c: bool, x: Slot): seq<Slot> { if c then [x] else [] }

  /** Slot x joins the back of the DMA packets q of the old state. */
  lemma JoinedDma(s: State, s': State, q: seq<Slot>, x: Slot)
    requires x < |s.info| == |s'.info| && s'.info == s.info[x := s'.info[x]] && x !in q && DmaLine(s') == q + [x]
    ensures Storing(s') == ByStatus(s.info, q, StoreImage) + If(s'.info[x].status == StoreImage, x)
    ensures Loading(s') == ByStatus(s.info, q, GetImage) + If(s'.info[x].status == GetImage, x)
    ensures Fetching(s') == ByStatus(s.info, q, GetKernarg) + If(s'.info[x].status == GetKernarg, x)
  {
    forall status: Status
      ensures ByStatus(s'.info, q + [x], status) == ByStatus(s.info, q, status) + If(s'.info[x].status == status, x)
    {
      ByStatusAppend(s'.info, q, x, status);
      ByStatusFrame(s.info, q, x, s'.info[x], status);
    }
  }

  lemma RequestImageKeepsLine(s: State, args: KernArgs, block: Address)
    requires SlotInv(s) && s.dma.Some? && s.info[s.dma.value.slot].status == GetKernarg
    ensures Line(RequestImage(s, args, block)) == Line(s)
  {
    var x, s' := s.dma.value.slot, RequestImage(s, args, block);
    Fetched(s, args, block);
    FetchedMoves(Completing(s), Storing(s), Running(s), Loading(s), x, Fetching(s'));
  }

  /** The engine's packet goes from fetching to loading. */
  lemma Fetched(s: State, args: KernArgs, block: Address)
    requires SlotInv(s) && s.dma.Some? && s.info[s.dma.value.slot].status == GetKernarg
    ensures var x, s' := s.dma.value.slot, RequestImage(s, args, block);
      && Storing(s') == Storing(s) && Loading(s') == Loading(s) + [x] && Fetching(s) == [x] + Fetching(s')
  {
    var x, s', q := s.dma.value.slot, RequestImage(s, args, block), DmaSlots(s.dmaQ);
    DmaAlone(s);
    AvoidDma(s, x);
    assert DmaLine(s') == q + [x];
    JoinedDma(s, s', q, x);
    EngineHead(s, GetKernarg);
    EngineHead(s, GetImage);
    EngineHead(s, StoreImage);
  }

  lemma RequestLaunchKeepsLine(s: State, args: KernArgs)
    requires SlotInv(s) && s.dma.Some? && s.info[s.dma.value.slot].status == GetImage
    ensures Line(RequestLaunch(s, args)) == Line(s)
  {
    var x, s' := s.dma.value.slot, RequestLaunch(s, args);
    LeftDma(s, s');
    EngineHead(s, GetKernarg);
    EngineHead(s, GetImage);
    EngineHead(s, StoreImage);
    assert LaunchSlots(s'.launchQ) == LaunchSlots(s.launchQ) + [x];
    assert Running(s') == Running(s) + [x];
    LoadedMoves(Completing(s), Storing(s), Running(s), x, Loading(s'), Fetching(s));
  }

  /** The stages once the engine's stored packet has left the DMA stages. */
  lemma StoreDone(s: State, s': State)
    requires SlotInv(s) && s.dma.Some? && s.info[s.dma.value.slot].status == StoreImage && s'.dma.None? && s'.dmaQ == s.dmaQ
    requires |s'.info| == |s.info| && s'.info == s.info[s.dma.value.slot := s'.info[s.dma.value.slot]]
    ensures Storing(s) == [s.dma.value.slot] + Storing(s') && Loading(s) == Loading(s') && Fetching(s) == Fetching(s')
  {
    LeftDma(s, s');
    EngineHead(s, GetKernarg);
    EngineHead(s, GetImage);
    EngineHead(s, StoreImage);
  }

  /** Without a signal the stored packet leaves the line. */
  lemma UnsignalledLeaves(s: State)
    requires SlotInv(s) && s.dma.Some? && s.info[s.dma.value.slot].status == StoreImage
    requires PacketOf(s, s.dma.value.slot).signal == 0
    ensures var n := |Completing(s)|;
      n < |Line(s)| && Line(s)[n] == s.dma.value.slot && Line(FinishStore(s)) == Without(Line(s), n)
  {
    var s' := FinishStore(s);
    StoreDone(s, s');
    assert Completing(s') == Completing(s) && Running(s') == Running(s);
    StoredLeaves(Completing(s), s.dma.value.slot, Storing(s'), Running(s), Loading(s), Fetching(s));
  }

  /** With a signal it goes to the back of the completing ones. */
  lemma SignalledStays(s: State)
    requires SlotInv(s) && s.dma.Some? && s.info[s.dma.value.slot].status == StoreImage
    requires PacketOf(s, s.dma.value.slot).signal != 0
    ensures Line(FinishStore(s)) == Line(s)
  {
    var x, s' := s.dma.value.slot, FinishStore(s);
    StoreDone(s, s');
    assert DecSlots(s'.decQ) == DecSlots(s.decQ) + [x];
    assert Completing(s') == Completing(s) + [x] && Running(s') == Running(s);
    StoredMoves(Completing(s), x, Storing(s'), Running(s), Loading(s), Fetching(s));
  }

  lemma KernelDoneKeepsLine(s: State, args: KernArgs)
    requires SlotInv(s) && |s.cores| == 1 && s.cores[0].Some?
    ensures Line(KernelDoneNext(s, 0, args)) == Line(s)
  {
    var x, s' := s.cores[0].value.slot, KernelDoneNext(s, 0, args);
    CoreAlone(s, 0);
    AvoidDma(s, x);
    StoresAfterCore(s, s', x);
  }

  /** The core's packet joins the DMA ring as the last one to store. */
  lemma StoresAfterCore(s: State, s': State, x: Slot)
    requires x < |s.info| == |s'.info| && s'.info == s.info[x := s'.info[x]] && s'.info[x].status == StoreImage
    requires x !in DmaLine(s) && DmaSlots(s'.dmaQ) == DmaSlots(s.dmaQ) + [x] && s'.dma == s.dma
    requires |s.cores| == |s'.cores| == 1 && CoreSlot(s.cores[0]) == [x] && s'.cores[0].None?
    requires s'.decQ == s.decQ && s'.cmpl == s.cmpl && s'.launchQ == s.launchQ
    ensures Line(s') == Line(s)
  {
    assert DmaLine(s') == DmaLine(s) + [x];
    JoinedDma(s, s', DmaLine(s), x);
    OneCore(s.cores);
    OneCore(s'.cores);
    assert Running(s) == [x] + Running(s');
    RanMoves(Completing(s), Storing(s), x, Running(s'), Loading(s), Fetching(s));
  }

  lemma FetchingGrows(c: seq<Slot>, s: seq<Slot>, r: seq<Slot>, l: seq<Slot>, f: seq<Slot>, x: Slot)
    ensures Stages(c, s, r, l, f + [x]) == Stages(c, s, r, l, f) + [x]
  {
  }

  lemma DispatchExtendsLine(s: State)
    requires SlotInv(s) && Enabled(s, Dispatch)
    ensures Line(DispatchNext(s)) == Line(s) + [s.free[|s.free| - 1]]
  {
    var x, s' := s.free[|s.free| - 1], DispatchNext(s);
    FreeAlone(s);
    AvoidDma(s, x);
    LastFetches(s, s', x);
  }

  lemma LastFetches(s: State, s': State, x: Slot)
    requires x < |s.info| == |s'.info| && s'.info == s.info[x := s'.info[x]] && s'.info[x].status == GetKernarg
    requires x !in DmaLine(s) && DmaSlots(s'.dmaQ) == DmaSlots(s.dmaQ) + [x] && s'.dma == s.dma
    requires s'.decQ == s.decQ && s'.cmpl == s.cmpl && s'.launchQ == s.launchQ && s'.cores == s.cores
    ensures Line(s') == Line(s) + [x]
  {
    assert DmaLine(s') == DmaLine(s) + [x];
    JoinedDma(s, s', DmaLine(s), x);
    FetchingGrows(Completing(s), Storing(s), Running(s), Loading(s), Fetching(s), x);
  }

  lemma SignalledShortensLine(s: State)
    requires SlotInv(s) && s.cmpl.Some?
    ensures Line(s) != [] && Line(s)[0] == s.cmpl.value.slot && Line(Next(s, Signalled)) == Line(s)[1..]
  {
    FirstCompletes(s, Next(s, Signalled));
  }

  lemma FirstCompletes(s: State, s': State)
    requires s.cmpl.Some? && s'.cmpl.None? && s'.decQ == s.decQ && s'.info == s.info && s'.dma == s.dma && s'.dmaQ == s.dmaQ
    requires s'.launchQ == s.launchQ && s'.cores == s.cores
    ensures Line(s) == [s.cmpl.value.slot] + Line(s')
  {
    CompletedLeaves(s.cmpl.value.slot, Completing(s'), Storing(s), Running(s), Loading(s), Fetching(s));
  }

  lemma TransferLine(s: State, args: KernArgs, block: Address)
    requires SlotInv(s) && s.dma.Some?
    ensures if Leaves(s, Transfer(args, block))
      then |Completing(s)| < |Line(s)| && Line(s)[|Completing(s)|] == s.dma.value.slot
        && Line(TransferNext(s, args, block)) == Without(Line(s), |Completing(s)|)
      else Line(TransferNext(s, args, block)) == Line(s)
  {
    match s.info[s.dma.value.slot].status
    case GetKernarg => RequestImageKeepsLine(s, args, block);
    case GetImage => RequestLaunchKeepsLine(s, args);
    case StoreImage =>
      if PacketOf(s, s.dma.value.slot).signal == 0 {
        UnsignalledLeaves(s);
      } else {
        SignalledStays(s);
      }
  }

  /** What one event does to the line, with one core. */
  lemma LineAfter(s: State, e: Event)
    requires SlotInv(s) && |s.cores| == 1 && Enabled(s, e)
    ensures LineMoves(s, Line(s), Line(Next(s, e)), e)
  {
    match e
    case Dispatch => DispatchExtendsLine(s);
    case StartDma => StartDmaKeepsLine(s);
    case StartKernel => StartKernelKeepsLine(s);
    case StartDec => StartDecKeepsLine(s);
    case Transfer(args, block) => TransferLine(s, args, block);
    case KernelDone(c, args) => KernelDoneKeepsLine(s, args);
    case Signalled => SignalledShortensLine(s);
    case _ =>
  }

  ghost predicate LineMoves(s: State, line: seq<Slot>, line': seq<Slot>, e: Event)
    requires WellFormed(s)
  {
    if e.Dispatch? then |s.free| > 0 && line' == line + [s.free[|s.free| - 1]]
    else if e.Signalled? then s.cmpl.Some? && line != [] && line[0] == s.cmpl.value.slot && line' == line[1..]
    else if Leaves(s, e) then
      var n := |Completing(s)|;
      n < |line| && line[n] == s.dma.value.slot && line' == Without(line, n)
    else line' == line
  }

  /** The event ends a packet that has no completion signal. */
  ghost predicate Leaves(s: State, e: Event)
    requires WellFormed(s)
  {
    && e.Transfer? && s.dma.Some? && s.info[s.dma.value.slot].status == StoreImage
    && PacketOf(s, s.dma.value.slot).signal == 0
  }

  /** Packet numbers and the packet counter over one event. */
  lemma NumbersAfter(s: State, e: Event, x: Slot)
    requires Enabled(s, e) && x < |s.info|
    ensures NumberOf(Next(s, e), x) == if e.Dispatch? && x == s.free[|s.free| - 1] then s.current else NumberOf(s, x)
    ensures Next(s, e).current >= s.current && (e.Dispatch? ==> Next(s, e).current == s.current + 1)
  {
  }

  /** Where the slots of the line can be: nowhere in the free stack. */
  lemma {:induction false} ByStatusMember(info: seq<KernelInfo>, q: seq<Slot>, status: Status, x: Slot)
    requires x in ByStatus(info, q, status)
    ensures x in q && x < |info| && info[x].status == status
  {
    if !(q[0] < |info| && info[q[0]].status == status && x == q[0]) {
      ByStatusMember(info, q[1..], status, x);
    }
  }

  lemma LineInFlight(s: State, x: Slot)
    requires SlotInv(s) && x in Line(s)
    ensures InFlight(s, x)
  {
    if x in Storing(s) { ByStatusMember(s.info, DmaLine(s), StoreImage, x); }
    if x in Loading(s) { ByStatusMember(s.info, DmaLine(s), GetImage, x); }
    if x in Fetching(s) { ByStatusMember(s.info, DmaLine(s), GetKernarg, x); }
    CountJoin(DmaSlot(s.dma), DmaSlots(s.dmaQ), x);
    CountMember(DmaLine(s), x);
    CountJoin(CoreSlots(s.cores), LaunchSlots(s.launchQ), x);
    CountMember(Running(s), x);
    CountJoin(DecSlot(s.cmpl), DecSlots(s.decQ), x);
    CountMember(Completing(s), x);
    CountMember(s.free, x);
    assert Places(s, x) == if x < |s.info| then 1 else 0;
  }

  lemma FreeTop(s: State)
    requires SlotInv(s) && |s.free| > 0
    ensures s.free[|s.free| - 1] < |s.info| && !InFlight(s, s.free[|s.free| - 1])
  {
  }

  lemma MapCut(s: State, q: seq<Slot>, n: nat)
    requires n < |q|
    ensures Map(s, Without(q, n)) == Without(Map(s, q), n)
  {
  }

  lemma MapSame(s: State, s': State, q: seq<Slot>)
    requires forall x: Slot :: x in q ==> NumberOf(s', x) == NumberOf(s, x)
    ensures Map(s', q) == Map(s, q)
  {
  }

  lemma MapPush(s: State, q: seq<Slot>, x: Slot)
    ensures Map(s, q + [x]) == Map(s, q) + [NumberOf(s, x)]
  {
  }

  lemma OldNumbersKept(s: State, e: Event)
    requires SlotInv(s) && Enabled(s, e)
    ensures Map(Next(s, e), Line(s)) == Map(s, Line(s))
  {
    forall x: Slot | x in Line(s) ensures NumberOf(Next(s, e), x) == NumberOf(s, x) {
      LineInFlight(s, x);
      NumbersAfter(s, e, x);
      if e.Dispatch? { FreeTop(s); }
    }
    MapSame(s, Next(s, e), Line(s));
  }

  /** What one event does to the numbers along the line, with one core. */
  ghost predicate NumbersMove(s: State, e: Event, q: seq<nat>, q': seq<nat>)
    requires WellFormed(s)
  {
    if e.Dispatch? then q' == q + [s.current]
    else if Retires(s, e) then RetireIndex(s, e) < |q| && q' == Without(q, RetireIndex(s, e))
    else q' == q
  }

  /** The event ends a packet. */
  ghost predicate Retires(s: State, e: Event)
    requires WellFormed(s)
  {
    (e.Signalled? && s.cmpl.Some?) || Leaves(s, e)
  }

  /** The position in the line of the packet that the event ends. */
  function RetireIndex(s: State, e: Event): nat { if e.Signalled? then 0 else |Completing(s)| }

  /** The number of the packet that the event ends. */
  ghost function Retired(s: State, e: Event): nat
    requires WellFormed(s) && Retires(s, e)
  {
    NumberOf(s, if e.Signalled? then s.cmpl.value.slot else s.dma.value.slot)
  }

  lemma NumbersAlongLine(s: State, e: Event)
    requires SlotInv(s) && |s.cores| == 1 && Enabled(s, e)
    ensures NumbersMove(s, e, Numbers(s), Numbers(Next(s, e)))
    ensures Retires(s, e) ==> RetireIndex(s, e) < |Line(s)| && Retired(s, e) == Numbers(s)[RetireIndex(s, e)]
  {
    LineAfter(s, e);
    OldNumbersKept(s, e);
    if e.Dispatch? {
      FreeTop(s);
      NumbersAfter(s, e, s.free[|s.free| - 1]);
      MapPush(Next(s, e), Line(s), s.free[|s.free| - 1]);
    } else if Retires(s, e) {
      assert Line(Next(s, e)) == Without(Line(s), RetireIndex(s, e));
      MapCut(Next(s, e), Line(s), RetireIndex(s, e));
    }
  }

  lemma CutIncreases(q: seq<nat>, n: nat, bound: nat)
    requires Increasing(q, bound) && n < |q|
    ensures Increasing(Without(q, n), bound)
  {
    var r := Without(q, n);
    forall i, j | 0 <= i < j < |r| ensures r[i] < r[j] {
      assert r[i] == q[if i < n then i else i + 1];
      assert r[j] == q[if j < n then j else j + 1];
    }
  }

  lemma CurrentAfter(s: State, e: Event)
    requires Enabled(s, e)
    ensures Next(s, e).current == s.current + if e.Dispatch? || e.RetireBarrier? || e.Skip? then 1 else 0
    ensures |Next(s, e).cores| == |s.cores|
  {
  }

  /** With one core, whatever the mix of packets, every event keeps the line in packet order. */
  lemma SortedKept(s: State, e: Event)
    requires SlotInv(s) && |s.cores| == 1 && Sorted(s) && Enabled(s, e)
    ensures Sorted(Next(s, e))
  {
    NumbersAlongLine(s, e);
    CurrentAfter(s, e);
    if Retires(s, e) {
      CutIncreases(Numbers(s), RetireIndex(s, e), s.current);
    }
  }

  lemma SortedAlong(states: seq<State>, events: seq<Event>)
    requires IsRun(states, events) && SlotInv(states[0]) && |states[0].cores| == 1 && Sorted(states[0])
    ensures forall i :: 0 <= i < |states| ==> SlotInv(states[i]) && |states[i].cores| == 1 && Sorted(states[i])
  {
    SlotInvAlong(states, events);
    for k := 0 to |events|
      invariant forall i :: 0 <= i <= k ==> |states[i].cores| == 1 && Sorted(states[i])
    {
      SortedKept(states[k], events[k]);
      CurrentAfter(states[k], events[k]);
    }
  }

  lemma InitialLine(window: nat, queue: nat)
    ensures Line(Initial(window, 1, queue)) == []
  {
    NoCores(Initial(window, 1, queue).cores);
  }

  /** A packet that ends is the oldest in flight exactly when it has a completion signal or none is waiting for
      one: a packet without a signal overtakes those whose signals are still being sent. */
  lemma RetiresOldest(s: State, e: Event)
    requires SlotInv(s) && |s.cores| == 1 && Sorted(s) && Enabled(s, e) && Retires(s, e)
    ensures (forall i :: 0 <= i < |Numbers(s)| ==> Retired(s, e) <= Numbers(s)[i])
      <==> e.Signalled? || (s.cmpl.None? && s.decQ == [])
  {
    NumbersAlongLine(s, e);
    if e.Signalled? || |Completing(s)| == 0 {
    } else {
      assert Numbers(s)[0] < Numbers(s)[|Completing(s)|];
    }
  }

  /** Everything in flight is younger than packet n. */
  ghost predicate Younger(s: State, n: nat) {
    n < s.current && forall i :: 0 <= i < |Numbers(s)| ==> n < Numbers(s)[i]
  }

  lemma YoungerKept(s: State, e: Event, n: nat)
    requires SlotInv(s) && |s.cores| == 1 && Enabled(s, e) && Younger(s, n)
    ensures Younger(Next(s, e), n)
    ensures Retires(s, e) ==> n < Retired(s, e)
  {
    NumbersAlongLine(s, e);
    CurrentAfter(s, e);
  }

  lemma OldestLeavesYounger(s: State, e: Event)
    requires SlotInv(s) && |s.cores| == 1 && Sorted(s) && Enabled(s, e) && Retires(s, e)
    requires e.Signalled? || (s.cmpl.None? && s.decQ == [])
    ensures Younger(Next(s, e), Retired(s, e))
  {
    NumbersAlongLine(s, e);
    CurrentAfter(s, e);
  }

  /** Over any run with one core: a packet that ends by its completion signal, or while no signal is outstanding,
      ends before every packet with a higher number. */
  lemma RetirementOrder(states: seq<State>, events: seq<Event>, i: nat, j: nat)
    requires IsRun(states, events) && SlotInv(states[0]) && |states[0].cores| == 1 && Sorted(states[0])
    requires i < j < |events|
    requires WellFormed(states[i]) && Retires(states[i], events[i]) && WellFormed(states[j]) && Retires(states[j], events[j])
    requires events[i].Signalled? || (states[i].cmpl.None? && states[i].decQ == [])
    ensures Retired(states[i], events[i]) < Retired(states[j], events[j])
  {
    SortedAlong(states, events);
    var n := Retired(states[i], events[i]);
    OldestLeavesYounger(states[i], events[i]);
    for k := i + 1 to j
      invariant Younger(states[k], n)
    {
      YoungerKept(states[k], events[k], n);
    }
    YoungerKept(states[j], events[j], n);
  }
}
