/**
 * The flat instruction language the statement lowerer appends to: the few
 * Jimple statement kinds it creates itself (conditional jump on zero, goto,
 * nop marker, return) plus opaque instructions emitted by the expression
 * lowerer.
 */
module Ir {
  import opened Wrappers

  /** The identity of a nop marker; jumps name their target by it. */
  type Label = nat

  /** A value produced by the expression lowerer. */
  datatype Value = Local(name: string) | IntConst(n: int)

  /** An instruction emitted by the expression lowerer, opaque to the statement lowerer. */
  datatype Op = Op(text: string)

  datatype Instr =
    | Compute(op: Op)                          // emitted while lowering an expression
    | IfEqZeroGoto(cond: Value, target: Label)  // if cond == 0 goto target
    | Goto(target: Label)
    | Nop(target: Label)                        // marker: where jumps to target land
    | Ret(result: Option<Value>)               // return v; or return;
  {
    predicate HasLabel() { IfEqZeroGoto? || Goto? || Nop? }
    predicate IsJump() { IfEqZeroGoto? || Goto? }
  }

  /** Every label that an instruction of `code` mentions lies in [lo, hi) or in `extra`. */
  predicate LabelsWithin(code: seq<Instr>, lo: Label, hi: Label, extra: set<Label>)
  {
    forall i | 0 <= i < |code| && code[i].HasLabel() ::
      lo <= code[i].target < hi || code[i].target in extra
  }

  /** The instructions the expression lowerer appends, in order. */
  function Computes(ops: seq<Op>): (code: seq<Instr>)
    ensures |code| == |ops|
    ensures forall i | 0 <= i < |ops| :: code[i] == Compute(ops[i])
  {
    if ops == [] then [] else [Compute(ops[0])] + Computes(ops[1..])
  }

  /** How many times the marker for `l` occurs in `code`. */
  function NopCount(code: seq<Instr>, l: Label): nat
  {
    if code == [] then 0
    else (if code[0] == Nop(l) then 1 else 0) + NopCount(code[1..], l)
  }

  /** One more than the label `ins` mentions, or 0 when it mentions none. */
  function Bound(ins: Instr): Label
  {
    if ins.HasLabel() then ins.target + 1 else 0
  }

  function Max(a: Label, b: Label): Label { if a < b then b else a }

  /** One plus the largest label `code` mentions: every label from here on is unused. */
  function FirstFree(code: seq<Instr>): Label
  {
    if code == [] then 0
    else Max(FirstFree(code[..|code| - 1]), Bound(code[|code| - 1]))
  }

  /** FirstFree(code) is the least n such that every label `code` mentions is below n. */
  lemma {:induction false} FirstFreeLeast(code: seq<Instr>, n: Label)
    ensures FirstFree(code) <= n <==> LabelsWithin(code, 0, n, {})
  {
    if code != [] {
      var init, last := code[..|code| - 1], code[|code| - 1];
      assert code == init + [last];
      FirstFreeLeast(init, n);
      LabelsWithinSnoc(init, last, 0, n, {});
    }
  }

  lemma LabelsWithinSnoc(init: seq<Instr>, last: Instr, lo: Label, hi: Label, extra: set<Label>)
    ensures LabelsWithin(init + [last], lo, hi, extra)
        <==> LabelsWithin(init, lo, hi, extra) && (last.HasLabel() ==> lo <= last.target < hi || last.target in extra)
  {
    var code := init + [last];
    assert forall i | 0 <= i < |init| :: code[i] == init[i];
    assert code[|init|] == last;
  }

  lemma Assoc(u: seq<Instr>, acc: seq<Instr>, more: seq<Instr>)
    ensures u + acc + more == u + (acc + more)
  {
  }

  lemma Assoc4(u: seq<Instr>, a: seq<Instr>, b: seq<Instr>, c: seq<Instr>, d: seq<Instr>)
    ensures u + a + b + c + d == u + (a + b + c + d)
  {
    calc {
      u + a + b + c + d;
      u + (a + b + c) + d;
      u + (a + b + c + d);
    }
  }

  lemma Assoc6(u: seq<Instr>, a: seq<Instr>, b: seq<Instr>, c: seq<Instr>, d: seq<Instr>,
               e: seq<Instr>, f: seq<Instr>)
    ensures u + a + b + c + d + e + f == u + (a + b + c + d + e + f)
  {
    Assoc4(u, a, b, c, d);
    Assoc(u, a + b + c + d, e);
    Assoc(u, a + b + c + d + e, f);
  }

  lemma Assoc3(u: seq<Instr>, a: seq<Instr>, b: seq<Instr>, c: seq<Instr>)
    ensures u + a + b + c == u + (a + b + c)
  {
    Assoc(u, a, b);
    Assoc(u, a + b, c);
  }

  lemma {:induction false} NopCountConcat(a: seq<Instr>, b: seq<Instr>, l: Label)
    ensures NopCount(a + b, l) == NopCount(a, l) + NopCount(b, l)
  {
    if a == [] {
      assert a + b == b;
    } else {
      assert (a + b)[1..] == a[1..] + b;
      NopCountConcat(a[1..], b, l);
    }
  }

  lemma NopCountSingle(ins: Instr, l: Label)
    ensures NopCount([ins], l) == if ins == Nop(l) then 1 else 0
  {
    assert [ins][1..] == [];
  }

  lemma NopCountConcat4(a: seq<Instr>, b: seq<Instr>, c: seq<Instr>, d: seq<Instr>, l: Label)
    ensures NopCount(a + b + c + d, l) == NopCount(a, l) + NopCount(b, l) + NopCount(c, l) + NopCount(d, l)
  {
    NopCountConcat(a, b, l);
    NopCountConcat(a + b, c, l);
    NopCountConcat(a + b + c, d, l);
  }

  lemma NopCountConcat6(a: seq<Instr>, b: seq<Instr>, c: seq<Instr>, d: seq<Instr>, e: seq<Instr>,
                        f: seq<Instr>, l: Label)
    ensures NopCount(a + b + c + d + e + f, l)
         == NopCount(a, l) + NopCount(b, l) + NopCount(c, l) + NopCount(d, l) + NopCount(e, l) + NopCount(f, l)
  {
    NopCountConcat4(a, b, c, d, l);
    NopCountConcat(a + b + c + d, e, l);
    NopCountConcat(a + b + c + d + e, f, l);
  }

  lemma {:induction false} NopCountAbsent(code: seq<Instr>, l: Label)
    requires forall i | 0 <= i < |code| :: code[i] != Nop(l)
    ensures NopCount(code, l) == 0
  {
    if code != [] {
      assert forall i | 0 <= i < |code| - 1 :: code[1..][i] == code[i + 1];
      NopCountAbsent(code[1..], l);
    }
  }

  lemma LabelsWithinConcat(a: seq<Instr>, b: seq<Instr>, lo: Label, hi: Label, extra: set<Label>)
    requires LabelsWithin(a, lo, hi, extra) && LabelsWithin(b, lo, hi, extra)
    ensures LabelsWithin(a + b, lo, hi, extra)
  {
    forall i | 0 <= i < |a + b| && (a + b)[i].HasLabel()
      ensures lo <= (a + b)[i].target < hi || (a + b)[i].target in extra
    {
      if i >= |a| { assert (a + b)[i] == b[i - |a|]; }
    }
  }

  lemma LabelsWithinConcat5(a: seq<Instr>, b: seq<Instr>, c: seq<Instr>, d: seq<Instr>, e: seq<Instr>,
                            lo: Label, hi: Label, extra: set<Label>)
    requires LabelsWithin(a, lo, hi, extra) && LabelsWithin(b, lo, hi, extra)
    requires LabelsWithin(c, lo, hi, extra) && LabelsWithin(d, lo, hi, extra)
    requires LabelsWithin(e, lo, hi, extra)
    ensures LabelsWithin(a + b + c + d + e, lo, hi, extra)
  {
    LabelsWithinConcat(a, b, lo, hi, extra);
    LabelsWithinConcat(a + b, c, lo, hi, extra);
    LabelsWithinConcat(a + b + c, d, lo, hi, extra);
    LabelsWithinConcat(a + b + c + d, e, lo, hi, extra);
  }

  lemma LabelsWithinConcat6(a: seq<Instr>, b: seq<Instr>, c: seq<Instr>, d: seq<Instr>, e: seq<Instr>,
                            f: seq<Instr>, lo: Label, hi: Label, extra: set<Label>)
    requires LabelsWithin(a, lo, hi, extra) && LabelsWithin(b, lo, hi, extra)
    requires LabelsWithin(c, lo, hi, extra) && LabelsWithin(d, lo, hi, extra)
    requires LabelsWithin(e, lo, hi, extra) && LabelsWithin(f, lo, hi, extra)
    ensures LabelsWithin(a + b + c + d + e + f, lo, hi, extra)
  {
    LabelsWithinConcat5(a, b, c, d, e, lo, hi, extra);
    LabelsWithinConcat(a + b + c + d + e, f, lo, hi, extra);
  }

  lemma LabelsWithinWiden(code: seq<Instr>, lo: Label, hi: Label, extra: set<Label>,
                          lo': Label, hi': Label, extra': set<Label>)
    requires LabelsWithin(code, lo, hi, extra)
    requires lo' <= lo && hi <= hi'
    requires forall x | x in extra :: lo' <= x < hi' || x in extra'
    ensures LabelsWithin(code, lo', hi', extra')
  {
  }

  lemma NopCountComputes(ops: seq<Op>, l: Label)
    ensures NopCount(Computes(ops), l) == 0
  {
    NopCountAbsent(Computes(ops), l);
  }
}
