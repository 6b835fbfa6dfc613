/** Whole programs on the pipeline: the result, and how many cycles it takes. */
module MipsExecution {
  import opened Bits
  import opened Memory
  import opened MipsIsa
  import opened MipsUnits
  import opened SubwordMemory
  import opened MipsPipeline
  import opened MipsRefinement

  /** In any state a load-use stall lasts another cycle if and only if memory access is busy: the bubble clears the
      write flag that the stall is decided by, but a frozen pipeline lets no bubble in. */
  lemma StallsAgainIff(p: Pipeline, next: U32, junk: U32)
    requires Stalls(p)
    ensures Stalls(Cycle(p, next, junk)) <==> Busy(p)
  {
  }

  /** And then it is over: no stall lasts three cycles. */
  lemma StallsTwiceAtMost(p: Pipeline, next: U32, junk: U32, next': U32, junk': U32)
    requires Stalls(p)
    ensures !Stalls(Cycle(Cycle(p, next, junk), next', junk'))
      || !Stalls(Cycle(p, next, junk))
  {
    if Busy(p) {
      BusyOnce(p, next, junk);
      StallsAgainIff(Cycle(p, next, junk), next', junk');
    } else {
      StallsAgainIff(p, next, junk);
    }
  }

  /** Memory access is never busy twice running. */
  lemma BusyOnce(p: Pipeline, next: U32, junk: U32)
    requires Busy(p)
    ensures !Busy(Cycle(p, next, junk))
  {
  }

  /** The pipeline and how many instructions have left decode. */
  datatype Run = Run(p: Pipeline, issued: nat)

  /** n cycles of the program; the bus shows junk(k) in cycle k when nothing was read. */
  function RunFor(program: seq<U32>, p: Pipeline, junk: nat -> U32, n: nat): Run {
    if n == 0 then Run(p, 0)
    else
      OneMore(RunFor(program, p, junk, n - 1), program, junk(n - 1))
  }

  function OneMore(r: Run, program: seq<U32>, junk: U32): Run {
    Run(Cycle(r.p, Fetch(program, r.issued + 1), junk), r.issued + if Issues(r.p) then 1 else 0)
  }

  lemma OneCycleMore(program: seq<U32>, p: Pipeline, junk: nat -> U32, n: nat)
    ensures RunFor(program, p, junk, n + 1) == OneMore(RunFor(program, p, junk, n), program, junk(n))
  {
  }

  /** The stage holds instruction k of the program, or, when it is a bubble, waits for it. */
  ghost predicate Holds(g: Stage, program: seq<U32>, start: Arch, k: nat) {
    g.s == After(program, start, k) && (g.full ==> g.i == Fetch(program, k))
  }

  function Behind(g: Stage, k: nat): nat { if g.full then k + 1 else k }

  /** The stages hold consecutive instructions, write back instruction k. */
  ghost predicate Places(t: Trace, program: seq<U32>, start: Arch, k: nat) {
    var m := Behind(t.w, k);
    var e := Behind(t.m, m);
    Holds(t.w, program, start, k) && Holds(t.m, program, start, m) && Holds(t.e, program, start, e)
    && Holds(t.d, program, start, Behind(t.e, e)) && t.d.full
  }

  function Position(t: Trace, k: nat): nat { Behind(t.e, Behind(t.m, Behind(t.w, k))) }

  lemma ProperStage(program: seq<U32>, start: Arch, k: nat)
    requires MipsIsa.Proper(program, start)
    ensures Supported(Fetch(program, k)) && Aligned(Fetch(program, k), After(program, start, k))
  {
    if k < |program| { assert MipsIsa.Fits(program, start, k); }
  }

  lemma PlacedNear(t: Trace, program: seq<U32>, start: Arch, k: nat)
    requires MipsIsa.Proper(program, start) && Places(t, program, start, k)
    ensures Near(t)
  {
    var m := Behind(t.w, k);
    var e := Behind(t.m, m);
    ProperStage(program, start, k);
    ProperStage(program, start, m);
    ProperStage(program, start, e);
    ProperStage(program, start, Behind(t.e, e));
  }

  /** The number of instructions among the first n that can cost an extra cycle: loads, byte and halfword stores. */
  function Costly(program: seq<U32>, n: nat): nat {
    if n == 0 then 0 else Costly(program, n - 1) + One(MayWait(Fetch(program, n - 1)))
  }

  predicate MayWait(i: U32) { IsLoad(i) || (IsStore(i) && Subword(i)) }

  /** Extra cycles that the instructions on their way can still cause. */
  function Owed(t: Trace, unaligned: bool): nat {
    One(t.e.full && MayWait(t.e.i)) + One(t.m.full && IsStore(t.m.i) && Subword(t.m.i)) + One(unaligned)
  }

  lemma UnalignedAfter(r: Run, program: seq<U32>, junk: U32) returns (unaligned: bool, issued: nat)
    ensures unaligned == (!r.p.access.unaligned && MustFetch(r.p.access, r.p.exMem)) && issued == r.issued + if Issues(r.p) then 1 else 0
    ensures OneMore(r, program, junk).p.access.unaligned == unaligned && OneMore(r, program, junk).issued == issued
  {
    unaligned := !r.p.access.unaligned && MustFetch(r.p.access, r.p.exMem);
    issued := r.issued + if Issues(r.p) then 1 else 0;
  }

  lemma NextPlace(t: Trace, p: Pipeline, program: seq<U32>, start: Arch, k: nat, next: U32) returns (k': nat)
    requires Places(t, program, start, k) && next == Fetch(program, Position(t, k) + 1)
    ensures var t' := Moved(p, t, next);
      Places(t', program, start, k') && Position(t', k') == Position(t, k) + if Issues(p) then 1 else 0
  {
    k' := if Busy(p) then k else Behind(t.w, k);
    if Issues(p) { NextHolds(t.d, program, start, Position(t, k), next); }
  }

  lemma NextHolds(g: Stage, program: seq<U32>, start: Arch, k: nat, next: U32)
    requires g.full && Holds(g, program, start, k) && next == Fetch(program, k + 1)
    ensures Holds(Stage(true, next, Execute(g.i, g.s)), program, start, k + 1)
  {
  }

  lemma StallMeansLoad(p: Pipeline, t: Trace)
    requires Near(t) && Follows(p, t) && Stalls(p)
    ensures t.e.full && IsLoad(t.e.i)
  {
    if t.e.full { DecodedWrites(t.e.i); }
  }

  /** Decode stalls exactly behind a load in execute whose destination it reads, register 0 included. */
  lemma StallsIff(p: Pipeline, t: Trace)
    requires Near(t) && Follows(p, t)
    ensures Stalls(p) <==> t.e.full && IsLoad(t.e.i) && (Dest(t.e.i) == Rs(t.d.i) || Dest(t.e.i) == Rt(t.d.i))
  {
    if t.e.full { DecodedWrites(t.e.i); }
  }

  /** Memory access is busy exactly when an access meets an unfinished byte or halfword store. */
  lemma BusyIff(p: Pipeline, t: Trace)
    requires Near(t) && Follows(p, t)
    ensures Busy(p) <==> p.access.unaligned && t.m.full && (IsLoad(t.m.i) || IsStore(t.m.i))
  {
    if t.m.full { DecodedWrites(t.m.i); }
  }

  lemma FetchMeansStore(p: Pipeline, t: Trace)
    requires Near(t) && Follows(p, t) && MustFetch(p.access, p.exMem)
    ensures t.m.full && IsStore(t.m.i) && Subword(t.m.i)
  {
    if t.m.full { DecodedWrites(t.m.i); }
  }

  /** The arithmetic of one cycle. */
  lemma CostPaid(program: seq<U32>, n: nat, issued: nat, owed: nat, owed': nat, issues: bool)
    requires n + owed <= issued + Costly(program, issued)
    requires owed' + 1 <= owed + if issues then 1 + One(MayWait(Fetch(program, issued))) else 0
    ensures var issued' := issued + if issues then 1 else 0;
      n + 1 + owed' <= issued' + Costly(program, issued')
  {
  }

  /** A cycle in which nothing issues takes one off what is owed. */
  lemma OwedFalls(p: Pipeline, t: Trace, next: U32)
    requires Near(t) && Follows(p, t)
    ensures Owed(Moved(p, t, next), !p.access.unaligned && MustFetch(p.access, p.exMem)) + 1
      <= Owed(t, p.access.unaligned) + if Issues(p) then 1 + One(MayWait(t.d.i)) else 0
  {
    if Stalls(p) { StallMeansLoad(p, t); }
    if MustFetch(p.access, p.exMem) { FetchMeansStore(p, t); }
  }

  /** In step with the program: the pipeline, the stages, and the number of cycles accounted for. */
  ghost predicate OnTrack(r: Run, program: seq<U32>, start: Arch, n: nat, t: Trace, k: nat) {
    && Follows(r.p, t) && Places(t, program, start, k) && Position(t, k) == r.issued
    && Accounted(program, n, r.issued, t, r.p.access.unaligned)
  }

  predicate Accounted(program: seq<U32>, n: nat, issued: nat, t: Trace, unaligned: bool) {
    n + Owed(t, unaligned) <= issued + Costly(program, issued)
  }

  lemma CycleFollows(r: Run, program: seq<U32>, t: Trace, junk: U32, t': Trace)
    requires Near(t) && Follows(r.p, t) && t' == Moved(r.p, t, Fetch(program, r.issued + 1))
    ensures Follows(OneMore(r, program, junk).p, t')
  {
    FollowsKept(r.p, t, Fetch(program, r.issued + 1), junk);
  }

  lemma MoveAccounts(p: Pipeline, issued: nat, program: seq<U32>, n: nat, t: Trace, next: U32, t': Trace, issued': nat, unaligned: bool)
    requires Near(t) && Follows(p, t) && t.d.i == Fetch(program, issued) && Accounted(program, n, issued, t, p.access.unaligned)
    requires t' == Moved(p, t, next) && issued' == issued + if Issues(p) then 1 else 0
    requires unaligned == (!p.access.unaligned && MustFetch(p.access, p.exMem))
    ensures Accounted(program, n + 1, issued', t', unaligned)
  {
    OwedFalls(p, t, next);
    CostPaid(program, n, issued, Owed(t, p.access.unaligned), Owed(t', unaligned), Issues(p));
  }

  lemma OneCycle(r: Run, program: seq<U32>, start: Arch, n: nat, t: Trace, k: nat, junk: U32) returns (t': Trace, k': nat)
    requires MipsIsa.Proper(program, start) && OnTrack(r, program, start, n, t, k)
    ensures OnTrack(OneMore(r, program, junk), program, start, n + 1, t', k')
  {
    PlacedNear(t, program, start, k);
    t' := Moved(r.p, t, Fetch(program, r.issued + 1));
    k' := NextPlace(t, r.p, program, start, k, Fetch(program, r.issued + 1));
    CycleFollows(r, program, t, junk, t');
    var unaligned, issued := UnalignedAfter(r, program, junk);
    MoveAccounts(r.p, r.issued, program, n, t, Fetch(program, r.issued + 1), t', issued, unaligned);
  }

  lemma ResetOnTrack(program: seq<U32>, start: Arch, words: Words, din: U32) returns (t: Trace)
    requires Agrees(start.mem, words)
    ensures OnTrack(Run(Reset(Fetch(program, 0), start.regs, words, din), 0), program, start, 0, t, 0)
  {
    var bubble := Stage(false, 0, start);
    t := Trace(bubble, bubble, bubble, Stage(true, Fetch(program, 0), start));
  }

  lemma {:induction false} TrackFrom(program: seq<U32>, start: Arch, p: Pipeline, junk: nat -> U32, n: nat, t0: Trace)
    returns (t: Trace, k: nat)
    requires MipsIsa.Proper(program, start) && OnTrack(Run(p, 0), program, start, 0, t0, 0)
    ensures OnTrack(RunFor(program, p, junk, n), program, start, n, t, k)
  {
    if n == 0 {
      t, k := t0, 0;
    } else {
      t, k := TrackFrom(program, start, p, junk, n - 1, t0);
      t, k := OneCycle(RunFor(program, p, junk, n - 1), program, start, n - 1, t, k, junk(n - 1));
    }
  }

  /** At every cycle of every program the pipeline is in step with the sequential execution. */
  lemma AlwaysOnTrack(program: seq<U32>, start: Arch, words: Words, din: U32, junk: nat -> U32, n: nat)
    returns (t: Trace, k: nat)
    requires MipsIsa.Proper(program, start) && Agrees(start.mem, words)
    ensures OnTrack(RunFor(program, Reset(Fetch(program, 0), start.regs, words, din), junk, n), program, start, n, t, k)
  {
    var t0 := ResetOnTrack(program, start, words, din);
    t, k := TrackFrom(program, start, Reset(Fetch(program, 0), start.regs, words, din), junk, n, t0);
  }

  lemma NopIdles(s: Arch)
    ensures Execute(0, s) == s && IsRegister(0) && !IsStore(0) && !MayWait(0)
  {
  }

  lemma {:induction false} AfterTheEnd(program: seq<U32>, start: Arch, k: nat)
    requires k >= |program|
    ensures After(program, start, k) == After(program, start, |program|)
    ensures Costly(program, k) == Costly(program, |program|)
  {
    if k > |program| {
      AfterTheEnd(program, start, k - 1);
      NopIdles(After(program, start, k - 1));
    }
  }

  lemma {:induction false} CostlyBound(program: seq<U32>, n: nat)
    ensures Costly(program, n) <= n
  {
    if n > 0 {
      CostlyBound(program, n - 1);
    }
  }

  lemma {:induction false} CostlyGrows(program: seq<U32>, m: nat, n: nat)
    requires m <= n
    ensures Costly(program, m) <= Costly(program, n)
  {
    if m < n {
      CostlyGrows(program, m, n - 1);
    }
  }

  /** The first n cycles let at least n instructions through, less one for each load and each byte or halfword store
      among them: at least half of n. */
  lemma IssueRate(program: seq<U32>, start: Arch, words: Words, din: U32, junk: nat -> U32, n: nat)
    requires MipsIsa.Proper(program, start) && Agrees(start.mem, words)
    ensures var issued := RunFor(program, Reset(Fetch(program, 0), start.regs, words, din), junk, n).issued;
      n <= issued + Costly(program, issued) && n <= 2 * issued
  {
    var t, k := AlwaysOnTrack(program, start, words, din, junk, n);
    CostlyBound(program, RunFor(program, Reset(Fetch(program, 0), start.regs, words, din), junk, n).issued);
  }

  /** Registers and memory are those of the sequential execution. */
  ghost predicate Same(p: Pipeline, s: Arch) { p.regs == s.regs && !p.access.unaligned && Agrees(s.mem, p.words) }

  lemma DrainedSame(r: Run, program: seq<U32>, start: Arch, n: nat, t: Trace, k: nat)
    requires OnTrack(r, program, start, n, t, k) && r.issued >= |program| + 3
    ensures Same(r.p, After(program, start, |program|))
  {
    AfterTheEnd(program, start, k);
    AfterTheEnd(program, start, Behind(t.w, k));
    NopIdles(start);
  }

  lemma IssuedEnough(program: seq<U32>, issued: nat, n: nat)
    requires n <= issued + Costly(program, issued) && n >= |program| + 3 + Costly(program, |program|)
    ensures issued >= |program| + 3
  {
    if issued >= |program| {
      AfterTheEnd(program, Arch(seq<U32>(32, _ => 0), map[]), issued);
    } else {
      CostlyGrows(program, issued, |program|);
    }
  }

  /** Every program of the modelled instructions, whatever the bus shows between reads: once each instruction has had
      its cycle, each load and each byte or halfword store one more, and the pipeline three to drain, registers and
      memory are exactly what executing the instructions one at a time leaves. */
  lemma PipelineIsSequential(program: seq<U32>, start: Arch, words: Words, din: U32, junk: nat -> U32, n: nat)
    requires MipsIsa.Proper(program, start) && Agrees(start.mem, words)
    requires n >= |program| + 3 + Costly(program, |program|)
    ensures Same(RunFor(program, Reset(Fetch(program, 0), start.regs, words, din), junk, n).p, After(program, start, |program|))
  {
    var r := RunFor(program, Reset(Fetch(program, 0), start.regs, words, din), junk, n);
    var t, k := AlwaysOnTrack(program, start, words, din, junk, n);
    IssuedEnough(program, r.issued, n);
    DrainedSame(r, program, start, n, t, k);
  }
}
