/** The interrupt arbiter: rising edges are latched per lane, and each enabled cycle reports and clears the least
    pending one. */
module InterruptArbiter {
  import opened Bits

  type Lanes = seq<bool>

  /** INTS, ACKS and the registered outputs INT_NUM, INT_SIG and INT_LANES_RESPONSE. */
  datatype State = State(ints: Lanes, acks: Lanes, num: nat, sig: bool, response: Lanes)

  /** One cycle's inputs; re = false resets. */
  datatype Input = Input(lanes: Lanes, en: bool, re: bool)

  predicate Sized(s: State, n: nat) { |s.ints| == n && |s.acks| == n && |s.response| == n }

  predicate Fits(s: State, x: Input) { Sized(s, |s.ints|) && |x.lanes| == |s.ints| }

  /** The least pending lane, or the number of lanes if none is pending. */
  function Least(ints: Lanes): (k: nat)
    ensures k <= |ints| && (k < |ints| ==> ints[k]) && forall i :: 0 <= i < k ==> !ints[i]
  {
    if ints == [] || ints[0] then 0 else 1 + Least(ints[1..])
  }

  /** The lane rises: it is high and was low in the cycle before. */
  predicate Rises(s: State, x: Input, i: nat)
    requires Fits(s, x) && i < |s.ints|
  {
    x.lanes[i] && !s.acks[i]
  }

  function Latched(s: State, x: Input): Lanes
    requires Fits(s, x)
  {
    seq(|s.ints|, i requires 0 <= i < |s.ints| => s.ints[i] || Rises(s, x, i))
  }

  function None(n: nat): Lanes { seq(n, _ => false) }

  function Step(s: State, x: Input): (s': State)
    requires Fits(s, x)
    ensures Sized(s', |s.ints|)
  {
    var n, k := |s.ints|, Least(s.ints);
    if !x.re then State(None(n), None(n), 0, false, None(n))
    else if x.en then
      State(if k < n then Latched(s, x)[k := false] else Latched(s, x), x.lanes, if k < n then k else 0, k < n, s.acks)
    else State(Latched(s, x), x.lanes, 0, false, s.acks)
  }

  // ---- the one-hot trick ----

  function Complement(b: Lanes): (r: Lanes)
    ensures |r| == |b|
  {
    seq(|b|, i requires 0 <= i < |b| => !b[i])
  }

  /** Adding one, lowest bit first; the carry out is dropped. */
  function PlusOne(b: Lanes): (r: Lanes)
    ensures |r| == |b|
  {
    if b == [] then [] else if b[0] then [false] + PlusOne(b[1..]) else [true] + b[1..]
  }

  function ValueOf(b: Lanes): nat { if b == [] then 0 else (if b[0] then 1 else 0) + 2 * ValueOf(b[1..]) }

  /** PlusOne is addition modulo 2^n. */
  lemma {:induction false} PlusOneAdds(b: Lanes)
    ensures ValueOf(b) < Pow2(|b|)
    ensures ValueOf(PlusOne(b)) == if ValueOf(b) + 1 == Pow2(|b|) then 0 else ValueOf(b) + 1
  {
    if b != [] {
      PlusOneAdds(b[1..]);
      if b[0] {
        assert PlusOne(b)[1..] == PlusOne(b[1..]);
      }
    }
  }

  /** INTS AND (NOT INTS + 1) */
  function OneHot(ints: Lanes): (r: Lanes)
    ensures |r| == |ints|
  {
    var plus := PlusOne(Complement(ints));
    seq(|ints|, i requires 0 <= i < |ints| => ints[i] && plus[i])
  }

  /** The expression isolates the lowest set bit. */
  lemma {:induction false} OneHotIsLeast(ints: Lanes, i: nat)
    requires i < |ints|
    ensures OneHot(ints)[i] <==> i == Least(ints)
  {
    var c := Complement(ints);
    if ints[0] {
      assert PlusOne(c) == [true] + c[1..];
    } else {
      assert c[1..] == Complement(ints[1..]);
      assert PlusOne(c) == [false] + PlusOne(c[1..]);
      if i > 0 {
        OneHotIsLeast(ints[1..], i - 1);
        assert OneHot(ints)[i] == OneHot(ints[1..])[i - 1];
      }
    }
  }

  class Arbiter {
    var ints: Lanes
    var acks: Lanes
    var num: nat
    var sig: bool
    var response: Lanes

    function View(): State
      reads this
    {
      State(ints, acks, num, sig, response)
    }

    constructor (n: nat)
      ensures Sized(View(), n) && View() == State(None(n), None(n), 0, false, None(n))
    {
      ints, acks, response := None(n), None(n), None(n);
      num, sig := 0, false;
    }

    /** Scans the lanes with the one-hot vector. */
    method Encode(oneHot: Lanes) returns (encoded: nat, sigint: bool)
      requires oneHot == OneHot(ints)
      ensures sigint == (Least(ints) < |ints|) && encoded == if sigint then Least(ints) else 0
    {
      encoded, sigint := 0, false;
      for i := 0 to |ints|
        invariant sigint == (Least(ints) < i) && encoded == if sigint then Least(ints) else 0
      {
        OneHotIsLeast(ints, i);
        sigint := ints[i] || sigint;
        if oneHot[i] {
          encoded := i;
        }
      }
    }

    method Clock(lanes: Lanes, en: bool, re: bool)
      requires Fits(View(), Input(lanes, en, re))
      modifies this
      ensures View() == Step(old(View()), Input(lanes, en, re))
    {
      var n, x, pending, last := |ints|, Input(lanes, en, re), ints, acks;
      if !re {
        ints, acks, response := None(n), None(n), None(n);
        num, sig := 0, false;
      } else if en {
        var oneHot := OneHot(ints);
        var encoded, sigint := Encode(oneHot);
        var latched := seq(n, i requires 0 <= i < n => pending[i] || (lanes[i] && !last[i]));
        var cleared := seq(n, i requires 0 <= i < n => latched[i] && !oneHot[i]);
        ClearedIs(View(), x, cleared);
        num, sig := encoded, sigint;
        response := acks;
        ints, acks := cleared, lanes;
      } else {
        response := acks;
        ints := seq(n, i requires 0 <= i < n => pending[i] || (lanes[i] && !last[i]));
        acks := lanes;
        num, sig := 0, false;
      }
    }
  }

  lemma ClearedIs(s: State, x: Input, cleared: Lanes)
    requires Fits(s, x) && x.re && x.en && |cleared| == |s.ints|
    requires forall i :: 0 <= i < |s.ints| ==> cleared[i] == (Latched(s, x)[i] && !OneHot(s.ints)[i])
    ensures cleared == Step(s, x).ints
  {
    forall i | 0 <= i < |s.ints| ensures cleared[i] == Step(s, x).ints[i] {
      OneHotIsLeast(s.ints, i);
    }
  }

  // ---- what happens to one lane ----

  predicate Reports(s': State, i: nat) { s'.sig && s'.num == i }

  /** Without reset a lane leaves the pending set only in a cycle that reports it, and what is reported is the least
      pending lane. */
  lemma LeavesOnlyReported(s: State, x: Input, i: nat)
    requires Fits(s, x) && i < |s.ints| && x.re
    ensures s.ints[i] && !Step(s, x).ints[i] <==> Reports(Step(s, x), i)
    ensures Reports(Step(s, x), i) ==> s.ints[i] && x.en && forall j :: 0 <= j < i ==> !s.ints[j]
  {
  }

  predicate AllFit(inputs: seq<Input>, n: nat) { forall k :: 0 <= k < |inputs| ==> |inputs[k].lanes| == n }

  function Run(s: State, inputs: seq<Input>): (s': State)
    requires Sized(s, |s.ints|) && AllFit(inputs, |s.ints|)
    ensures Sized(s', |s.ints|)
    decreases |inputs|
  {
    if inputs == [] then s else Run(Step(s, inputs[0]), inputs[1..])
  }

  /** How often lane i is reported. */
  function ReportsOf(s: State, inputs: seq<Input>, i: nat): nat
    requires Sized(s, |s.ints|) && AllFit(inputs, |s.ints|)
    decreases |inputs|
  {
    if inputs == [] then 0
    else One(Reports(Step(s, inputs[0]), i)) + ReportsOf(Step(s, inputs[0]), inputs[1..], i)
  }

  /** How often lane i rises over the inputs alone: high in a cycle and low in the one before, a cycle of reset counting
      as low; `before` says whether it was high before the first. */
  function RisingEdges(inputs: seq<Input>, i: nat, before: bool): nat
    requires forall k :: 0 <= k < |inputs| ==> i < |inputs[k].lanes|
  {
    if inputs == [] then 0
    else
      var high := inputs[0].re && inputs[0].lanes[i];
      One(high && !before) + RisingEdges(inputs[1..], i, high)
  }

  /** Edges that find their lane pending already, the cycle in which it is reported included: they are not seen. */
  function MergedOf(s: State, inputs: seq<Input>, i: nat): nat
    requires Sized(s, |s.ints|) && AllFit(inputs, |s.ints|) && i < |s.ints|
    decreases |inputs|
  {
    if inputs == [] then 0
    else One(Rises(s, inputs[0], i) && s.ints[i]) + MergedOf(Step(s, inputs[0]), inputs[1..], i)
  }

  predicate NoReset(inputs: seq<Input>) { forall k :: 0 <= k < |inputs| ==> inputs[k].re }

  /** The arbiter remembers the lanes of the cycle before, those of a reset as low. */
  lemma Remembers(s: State, x: Input)
    requires Fits(s, x)
    ensures forall i :: 0 <= i < |s.ints| ==> Step(s, x).acks[i] == (x.re && x.lanes[i])
  {
  }

  /** Every edge is reported, still pending, or merged into one that is. */
  lemma {:induction false} EdgesConserved(s: State, inputs: seq<Input>, i: nat)
    requires Sized(s, |s.ints|) && AllFit(inputs, |s.ints|) && i < |s.ints| && NoReset(inputs)
    ensures One(s.ints[i]) + RisingEdges(inputs, i, s.acks[i])
      == ReportsOf(s, inputs, i) + One(Run(s, inputs).ints[i]) + MergedOf(s, inputs, i)
    decreases |inputs|
  {
    if inputs != [] {
      LeavesOnlyReported(s, inputs[0], i);
      Remembers(s, inputs[0]);
      EdgesConserved(Step(s, inputs[0]), inputs[1..], i);
    }
  }

  /** With any number of resets a lane is never reported more often than it rises. */
  lemma {:induction false} NoSpuriousReports(s: State, inputs: seq<Input>, i: nat)
    requires Sized(s, |s.ints|) && AllFit(inputs, |s.ints|) && i < |s.ints|
    ensures ReportsOf(s, inputs, i) + One(Run(s, inputs).ints[i]) <= One(s.ints[i]) + RisingEdges(inputs, i, s.acks[i])
    decreases |inputs|
  {
    if inputs != [] {
      if inputs[0].re { LeavesOnlyReported(s, inputs[0], i); }
      Remembers(s, inputs[0]);
      NoSpuriousReports(Step(s, inputs[0]), inputs[1..], i);
    }
  }

  function AfterReset(n: nat): State { State(None(n), None(n), 0, false, None(n)) }

  /** From reset on nothing is pending and all lanes were low: the laws in terms of inputs and reports alone. */
  lemma FromReset(n: nat, inputs: seq<Input>, i: nat)
    requires AllFit(inputs, n) && i < n
    ensures var s := AfterReset(n);
      && ReportsOf(s, inputs, i) + One(Run(s, inputs).ints[i]) <= RisingEdges(inputs, i, false)
      && (NoReset(inputs) ==>
            RisingEdges(inputs, i, false) == ReportsOf(s, inputs, i) + One(Run(s, inputs).ints[i]) + MergedOf(s, inputs, i))
  {
    NoSpuriousReports(AfterReset(n), inputs, i);
    if NoReset(inputs) { EdgesConserved(AfterReset(n), inputs, i); }
  }

  lemma {:induction false} RunAppend(s: State, inputs: seq<Input>, x: Input)
    requires Sized(s, |s.ints|) && AllFit(inputs, |s.ints|) && |x.lanes| == |s.ints|
    ensures AllFit(inputs + [x], |s.ints|) && Run(s, inputs + [x]) == Step(Run(s, inputs), x)
    decreases |inputs|
  {
    if inputs != [] {
      assert (inputs + [x])[1..] == inputs[1..] + [x];
      RunAppend(Step(s, inputs[0]), inputs[1..], x);
    } else {
      assert Run(s, [x]) == Run(Step(s, x), []);
    }
  }

  /** The response in a cycle is the lanes of the cycle before, low behind a reset and during one. */
  lemma ResponseIsDelayed(s: State, inputs: seq<Input>, x: Input, y: Input, i: nat)
    requires Sized(s, |s.ints|) && AllFit(inputs, |s.ints|) && |x.lanes| == |y.lanes| == |s.ints| && i < |s.ints|
    ensures AllFit(inputs + [x] + [y], |s.ints|)
    ensures Run(s, inputs + [x] + [y]).response[i] == (y.re && x.re && x.lanes[i])
  {
    RunAppend(s, inputs, x);
    RunAppend(s, inputs + [x], y);
  }

  /** In a reported cycle the number is that of a lane, the least one that was pending; without one it is 0. */
  lemma ReportIsLeast(s: State, x: Input)
    requires Fits(s, x)
    ensures var s' := Step(s, x);
      && (s'.sig <==> x.re && x.en && exists i :: 0 <= i < |s.ints| && s.ints[i])
      && (s'.sig ==> s'.num < |s.ints| && s.ints[s'.num] && forall j :: 0 <= j < s'.num ==> !s.ints[j])
      && (!s'.sig ==> s'.num == 0)
  {
  }

  /** How many of the lanes are pending. */
  function Pending(ints: Lanes): (c: nat)
    ensures c <= |ints|
  {
    if ints == [] then 0 else Pending(ints[..|ints| - 1]) + One(ints[|ints| - 1])
  }

  function EnabledCycles(inputs: seq<Input>): nat {
    if inputs == [] then 0 else One(inputs[0].en) + EnabledCycles(inputs[1..])
  }

  /** No lane below i rises. */
  predicate QuietBelow(s: State, inputs: seq<Input>, i: nat)
    requires Sized(s, |s.ints|) && AllFit(inputs, |s.ints|) && i < |s.ints|
    decreases |inputs|
  {
    inputs == [] ||
    ((forall j :: 0 <= j < i ==> !Rises(s, inputs[0], j)) && QuietBelow(Step(s, inputs[0]), inputs[1..], i))
  }

  lemma {:induction false} PendingCleared(ints: Lanes, k: nat)
    requires k < |ints| && ints[k]
    ensures Pending(ints[k := false]) + 1 == Pending(ints)
  {
    var n, cleared := |ints| - 1, ints[k := false];
    if k < n {
      PendingCleared(ints[..n], k);
      assert cleared[..n] == ints[..n][k := false];
    } else {
      assert cleared[..n] == ints[..n];
    }
  }

  /** A cycle with lane i pending, no lower lane rising: enabled, it reports i or leaves one lower lane less. */
  lemma OneLess(s: State, x: Input, i: nat)
    requires Fits(s, x) && i < |s.ints| && x.re && s.ints[i] && forall j :: 0 <= j < i ==> !Rises(s, x, j)
    ensures var s' := Step(s, x);
      Reports(s', i) || (s'.ints[i] && Pending(s'.ints[..i]) + One(x.en) == Pending(s.ints[..i]))
  {
    var s', k := Step(s, x), Least(s.ints);
    assert k <= i;
    if x.en && k < i {
      PendingCleared(s.ints[..i], k);
      assert s'.ints[..i] == s.ints[..i][k := false];
    } else if !x.en {
      assert s'.ints[..i] == s.ints[..i];
    }
  }

  /** A pending lane is reported within one more enabled cycle than there are lower lanes pending, so within i + 1,
      if no lower lane rises meanwhile. */
  lemma {:induction false} ReportedInTime(s: State, inputs: seq<Input>, i: nat)
    requires Sized(s, |s.ints|) && AllFit(inputs, |s.ints|) && i < |s.ints| && NoReset(inputs)
    requires s.ints[i] && QuietBelow(s, inputs, i) && EnabledCycles(inputs) >= Pending(s.ints[..i]) + 1
    ensures ReportsOf(s, inputs, i) >= 1
    ensures Pending(s.ints[..i]) + 1 <= i + 1
    decreases |inputs|
  {
    OneLess(s, inputs[0], i);
    if !Reports(Step(s, inputs[0]), i) {
      ReportedInTime(Step(s, inputs[0]), inputs[1..], i);
    }
  }

  /** An edge in the very cycle that reports its lane is lost: the lane is not pending afterwards. */
  lemma EdgeLostWhenReported(s: State, x: Input, i: nat)
    requires Fits(s, x) && i < |s.ints| && x.re && x.en && Rises(s, x, i)
    ensures !Step(s, x).ints[i] <==> i == Least(s.ints)
  {
  }
}
