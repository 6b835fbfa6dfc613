/** The RAM as objects: banks with a shared array and two clocked ports, and the width converter around them. */
module DualclockBram {
  import opened Bits
  import opened Memory
  import opened DualPortRam

  class BramTdp {
    const ram: array<Word>
    var wideOut: Word
    var narrowOut: Word

    function View(): Bank
      reads this, ram
    {
      Bank(ram[..], wideOut, narrowOut)
    }

    constructor (lines: nat, width: nat)
      ensures fresh(ram) && BankOk(View(), width, lines)
      ensures forall l :: 0 <= l < lines ==> View().ram[l] == seq<Byte>(Pow2(width), _ => 0)
    {
      ram := new Word[lines](_ => seq<Byte>(Pow2(width), _ => 0));
      wideOut := seq<Byte>(Pow2(width), _ => 0);
      narrowOut := seq<Byte>(Pow2(width), _ => 0);
    }

    method ClockWide(en: bool, wr: bool, line: nat, din: Word)
      requires line < ram.Length
      modifies ram, this`wideOut
      ensures View() == BankWide(old(View()), en, wr, line, din)
    {
      if en {
        if wr {
          ram[line] := din;
        }
        wideOut := ram[line];
      }
    }

    method ClockNarrow(en: bool, wr: bool, line: nat, din: Word)
      requires line < ram.Length
      modifies ram, this`narrowOut
      ensures View() == BankNarrow(old(View()), en, wr, line, din)
    {
      if en {
        if wr {
          ram[line] := din;
        }
        narrowOut := ram[line];
      }
    }
  }

  class Converter {
    const q: nat
    const p: nat
    const lines: nat
    const banks: seq<BramTdp>
    var delayed: nat

    ghost predicate Separate() {
      && (forall i, j :: 0 <= i < j < |banks| ==> banks[i] != banks[j] && banks[i].ram != banks[j].ram)
      && (forall i :: 0 <= i < |banks| ==> banks[i].ram.Length == lines)
    }

    function View(): Ram
      reads this, banks, set b <- banks :: b.ram
    {
      Ram(q, p, lines, seq(|banks|, i requires 0 <= i < |banks| reads banks, set b <- banks :: b.ram => banks[i].View()), delayed)
    }

    /** All bytes zero, as without an initialisation file. */
    constructor (wordBits: nat, bankBits: nat, size: nat)
      ensures Separate() && DualPortRam.Valid(View()) && fresh(banks)
      ensures q == wordBits && p == bankBits && lines == size
    {
      q, p, lines, delayed := wordBits, bankBits, size, 0;
      var made: seq<BramTdp> := [];
      while |made| < Pow2(bankBits)
        invariant |made| <= Pow2(bankBits) && fresh(made) && (forall b <- made :: fresh(b.ram))
        invariant forall i, j :: 0 <= i < j < |made| ==> made[i] != made[j] && made[i].ram != made[j].ram
        invariant forall i :: 0 <= i < |made| ==> made[i].ram.Length == size && BankOk(made[i].View(), wordBits, size)
      {
        var bank := new BramTdp(size, wordBits);
        made := made + [bank];
      }
      banks := made;
    }

    /** A clock edge at the wide port reaches every bank. */
    method ClockWide(en: bool, wr: bool, a: nat, din: Word)
      requires Separate() && DualPortRam.Valid(View()) && a < Size(View()) && |din| == Scale(Pow2(p), q)
      modifies banks, set b <- banks :: b.ram
      ensures View() == Wide(old(View()), en, wr, a, din)
    {
      ghost var before := View();
      LineExists(before, a);
      var line := LineOf(View(), a);
      for i := 0 to |banks|
        invariant forall j :: 0 <= j < i ==> banks[j].View() == BankWide(before.banks[j], en, wr, line, Slice(before, din, j))
        invariant forall j :: i <= j < |banks| ==> banks[j].View() == before.banks[j]
      {
        SliceFits(before, i);
        banks[i].ClockWide(en, wr, line, din[Scale(i, q)..Scale(i, q) + Pow2(q)]);
      }
    }

    /** A clock edge at the narrow port writes at most the selected bank; the address is delayed for the output. */
    method ClockNarrow(en: bool, wr: bool, a: nat, din: Word)
      requires Separate() && DualPortRam.Valid(View()) && a < Size(View()) && |din| == Pow2(q)
      modifies banks, set b <- banks :: b.ram, this`delayed
      ensures View() == Narrow(old(View()), en, wr, a, din)
    {
      ghost var before := View();
      LineExists(before, a);
      var line, selected := LineOf(View(), a), BankOf(View(), a);
      for i := 0 to |banks|
        invariant forall j :: 0 <= j < i ==> banks[j].View() == BankNarrow(before.banks[j], en, wr && selected == j, line, din)
        invariant forall j :: i <= j < |banks| ==> banks[j].View() == before.banks[j]
      {
        banks[i].ClockNarrow(en, wr && selected == i, line, din);
      }
      delayed := a;
    }

    /** One access at either port; what it shows if it is enabled. */
    method Access(op: Op) returns (shown: seq<Word>)
      requires Separate() && DualPortRam.Valid(View()) && OpFits(View(), op)
      modifies banks, set b <- banks :: b.ram, this`delayed
      ensures View() == Apply(old(View()), op) && shown == Shown(old(View()), op)
    {
      if op.wide {
        ClockWide(op.en, op.wr, op.a, op.din);
      } else {
        ClockNarrow(op.en, op.wr, op.a, op.din);
      }
      if op.en {
        shown := [if op.wide then WideOut(View()) else NarrowOut(View())];
      } else {
        shown := [];
      }
    }

    /** Any sequence of accesses, one after the other. */
    method Collect(ops: seq<Op>) returns (outs: seq<Word>)
      requires Separate() && DualPortRam.Valid(View()) && AllFit(View(), ops)
      modifies banks, set b <- banks :: b.ram, this`delayed
      ensures outs == DualPortRam.Outputs(old(View()), ops)
    {
      outs := [];
      var i := 0;
      ghost var d := View();
      ghost var first := d;
      ghost var rest := ops;
      while i < |ops|
        invariant i <= |ops| && rest == ops[i..] && d == View() && DualPortRam.Valid(d) && AllFit(d, rest)
        invariant outs + DualPortRam.Outputs(d, rest) == DualPortRam.Outputs(first, ops)
      {
        assert rest[0] == ops[i] && rest[1..] == ops[i + 1..];
        FirstOutput(d, rest);
        var shown := Access(ops[i]);
        JoinedOutputs(outs, shown, DualPortRam.Outputs(Apply(d, rest[0]), rest[1..]));
        outs, i := outs + shown, i + 1;
        d, rest := View(), rest[1..];
      }
    }

    /** Any sequence of accesses: the enabled ones show what a flat byte array would show. */
    method Perform(ops: seq<Op>) returns (outs: seq<Word>)
      requires Separate() && DualPortRam.Valid(View()) && AllFit(View(), ops)
      modifies banks, set b <- banks :: b.ram, this`delayed
      ensures outs == FlatOutputs(old(View()), Flat(old(View())), ops)
    {
      RamIsFlat(View(), ops);
      outs := Collect(ops);
    }
  }

  lemma JoinedOutputs(a: seq<Word>, b: seq<Word>, c: seq<Word>)
    ensures a + (b + c) == (a + b) + c
  {
  }
}
