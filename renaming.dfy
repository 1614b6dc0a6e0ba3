/**
 * Lowering does not depend on which labels newNopStmt happens to hand out:
 * lowering the same statement with the label counter started d further on
 * (and the registered exit markers moved by d) appends the same
 * instructions with every label moved by d. Two lowerings of one tree into
 * different unit chains therefore agree up to a consistent renaming of
 * their markers.
 */
module Renaming {
  import opened Wrappers
  import opened Ir
  import opened Ast
  import opened Lowering

  /** `ins` with the label it mentions moved by d. */
  function Rename(ins: Instr, d: nat): Instr
  {
    match ins
    case IfEqZeroGoto(v, l) => IfEqZeroGoto(v, l + d)
    case Goto(l) => Goto(l + d)
    case Nop(l) => Nop(l + d)
    case _ => ins
  }

  function RenameCode(code: seq<Instr>, d: nat): seq<Instr>
  {
    seq(|code|, i requires 0 <= i < |code| => Rename(code[i], d))
  }

  /** `m2` registers the same loops as `m`, each at its exit marker moved by d. */
  predicate Shifted(m: map<LoopId, Label>, m2: map<LoopId, Label>, d: nat)
  {
    m2.Keys == m.Keys && forall k | k in m :: m2[k] == m[k] + d
  }

  /** `g2` is `g` with every label moved by d. */
  predicate RenamedGen(g: Gen, g2: Gen, d: nat)
  {
    g2.code == RenameCode(g.code, d) && g2.next == g.next + d && Shifted(g.targets, g2.targets, d)
  }

  lemma ShiftedUpdate(m: map<LoopId, Label>, m2: map<LoopId, Label>, d: nat, id: LoopId, l: Label)
    requires Shifted(m, m2, d)
    ensures Shifted(m[id := l], m2[id := l + d], d)
  {
  }

  lemma RenameConcat(a: seq<Instr>, b: seq<Instr>, d: nat)
    ensures RenameCode(a + b, d) == RenameCode(a, d) + RenameCode(b, d)
  {
    assert forall i | 0 <= i < |a + b| :: RenameCode(a + b, d)[i] == (RenameCode(a, d) + RenameCode(b, d))[i];
  }

  /** The expression lowerer's instructions mention no label. */
  lemma RenameComputes(ops: seq<Op>, d: nat)
    ensures RenameCode(Computes(ops), d) == Computes(ops)
  {
  }

  lemma RenamedSequence(h: Gen, t: Gen, h2: Gen, t2: Gen, d: nat)
    requires RenamedGen(h, h2, d) && RenamedGen(t, t2, d)
    ensures RenamedGen(Gen(h.code + t.code, t.next, t.targets), Gen(h2.code + t2.code, t2.next, t2.targets), d)
  {
    RenameConcat(h.code, t.code, d);
  }

  /* The three shapes of code LowerIf and LowerWhile build, renamed part by part. */

  lemma RenameIfShape(ops: seq<Op>, v: Value, thn: seq<Instr>, thn2: seq<Instr>, l: Label, d: nat)
    requires thn2 == RenameCode(thn, d)
    ensures RenameCode(Computes(ops) + [IfEqZeroGoto(v, l)] + thn + [Nop(l)], d)
         == Computes(ops) + [IfEqZeroGoto(v, l + d)] + thn2 + [Nop(l + d)]
  {
    RenameComputes(ops, d);
    RenameConcat(Computes(ops), [IfEqZeroGoto(v, l)], d);
    RenameConcat(Computes(ops) + [IfEqZeroGoto(v, l)], thn, d);
    RenameConcat(Computes(ops) + [IfEqZeroGoto(v, l)] + thn, [Nop(l)], d);
  }

  lemma RenameIfElseShape(ops: seq<Op>, v: Value, thn: seq<Instr>, thn2: seq<Instr>, join: Label,
                          els: seq<Instr>, els2: seq<Instr>, l: Label, d: nat)
    requires thn2 == RenameCode(thn, d) && els2 == RenameCode(els, d)
    ensures RenameCode(Computes(ops) + [IfEqZeroGoto(v, l)] + thn + [Goto(join)] + [Nop(l)] + els + [Nop(join)], d)
         == Computes(ops) + [IfEqZeroGoto(v, l + d)] + thn2 + [Goto(join + d)] + [Nop(l + d)] + els2 + [Nop(join + d)]
  {
    var p1 := Computes(ops) + [IfEqZeroGoto(v, l)];
    var p2 := p1 + thn + [Goto(join)] + [Nop(l)];
    RenameComputes(ops, d);
    RenameConcat(Computes(ops), [IfEqZeroGoto(v, l)], d);
    RenameConcat(p1, thn, d);
    RenameConcat(p1 + thn, [Goto(join)], d);
    RenameConcat(p1 + thn + [Goto(join)], [Nop(l)], d);
    RenameConcat(p2, els, d);
    RenameConcat(p2 + els, [Nop(join)], d);
  }

  lemma RenamedIfElse(e: Expr, t: Gen, t2: Gen, f: Gen, f2: Gen, l: Label, d: nat)
    requires RenamedGen(t, t2, d) && RenamedGen(f, f2, d)
    ensures RenamedGen(
      Gen(Computes(e.ops) + [IfEqZeroGoto(e.value, l)] + t.code + [Goto(t.next)] + [Nop(l)] + f.code + [Nop(t.next)],
          f.next, f.targets),
      Gen(Computes(e.ops) + [IfEqZeroGoto(e.value, l + d)] + t2.code + [Goto(t2.next)] + [Nop(l + d)] + f2.code + [Nop(t2.next)],
          f2.next, f2.targets),
      d)
  {
    RenameIfElseShape(e.ops, e.value, t.code, t2.code, t.next, f.code, f2.code, l, d);
  }

  lemma RenameWhileShape(ops: seq<Op>, v: Value, body: seq<Instr>, body2: seq<Instr>, l: Label, d: nat)
    requires body2 == RenameCode(body, d)
    ensures RenameCode([Nop(l)] + Computes(ops) + [IfEqZeroGoto(v, l + 1)] + body + [Goto(l)] + [Nop(l + 1)], d)
         == [Nop(l + d)] + Computes(ops) + [IfEqZeroGoto(v, l + d + 1)] + body2 + [Goto(l + d)] + [Nop(l + d + 1)]
  {
    var p1 := [Nop(l)] + Computes(ops);
    var p2 := p1 + [IfEqZeroGoto(v, l + 1)];
    RenameComputes(ops, d);
    RenameConcat([Nop(l)], Computes(ops), d);
    RenameConcat(p1, [IfEqZeroGoto(v, l + 1)], d);
    RenameConcat(p2, body, d);
    RenameConcat(p2 + body, [Goto(l)], d);
    RenameConcat(p2 + body + [Goto(l)], [Nop(l + 1)], d);
  }

  /**
   * Starting the label counter d further on, with every registered exit
   * marker moved by d, renames every label of the appended code, the next
   * unused label and the map left behind by d, and changes nothing else.
   */
  lemma {:induction false} LowerRenamed(s: Stmt, next: Label, bt: map<LoopId, Label>, bt2: map<LoopId, Label>, d: nat)
    requires BreaksBound(s, bt.Keys) && Shifted(bt, bt2, d)
    ensures BreaksBound(s, bt2.Keys)
    ensures var r, r2 := Lower(s, next, bt), Lower(s, next + d, bt2);
      RenamedGen(r, r2, d)
    decreases Size(s), 1
  {
    match s
    case Block(ss) => LowerAllRenamed(ss, next, bt, bt2, d);
    case ExprStmt(e) => RenameComputes(e.ops, d);
    case Return(None) =>
    case Return(Some(e)) =>
      RenameComputes(e.ops, d);
      RenameConcat(Computes(e.ops), [Ret(Some(e.value))], d);
    case If(e, thn, None) => IfRenamed(e, thn, next, bt, bt2, d);
    case If(e, thn, Some(els)) => IfElseRenamed(e, thn, els, next, bt, bt2, d);
    case While(id, e, body) => WhileRenamed(id, e, body, next, bt, bt2, d);
    case Break(id) =>
  }

  lemma {:induction false} IfRenamed(e: Expr, thn: Stmt, next: Label, bt: map<LoopId, Label>,
                                     bt2: map<LoopId, Label>, d: nat)
    requires BreaksBound(thn, bt.Keys) && Shifted(bt, bt2, d)
    ensures BreaksBound(thn, bt2.Keys)
    ensures var r, r2 := LowerIf(e, thn, None, next, bt), LowerIf(e, thn, None, next + d, bt2);
      RenamedGen(r, r2, d)
    decreases Size(If(e, thn, None)), 0
  {
    LowerRenamed(thn, next + 1, bt, bt2, d);
    var t, t2 := Lower(thn, next + 1, bt), Lower(thn, next + d + 1, bt2);
    RenameIfShape(e.ops, e.value, t.code, t2.code, next, d);
  }

  lemma {:induction false} IfElseRenamed(e: Expr, thn: Stmt, els: Stmt, next: Label, bt: map<LoopId, Label>,
                                         bt2: map<LoopId, Label>, d: nat)
    requires BreaksBound(thn, bt.Keys) && BreaksBound(els, bt.Keys) && Shifted(bt, bt2, d)
    ensures BreaksBound(thn, bt2.Keys) && BreaksBound(els, bt2.Keys)
    ensures var r, r2 := LowerIf(e, thn, Some(els), next, bt), LowerIf(e, thn, Some(els), next + d, bt2);
      RenamedGen(r, r2, d)
    decreases Size(If(e, thn, Some(els))), 0
  {
    LowerRenamed(thn, next + 1, bt, bt2, d);
    var t, t2 := Lower(thn, next + 1, bt), Lower(thn, next + d + 1, bt2);
    BreaksBoundMono(els, bt.Keys, t.targets.Keys);
    LowerRenamed(els, t.next + 1, t.targets, t2.targets, d);
    var f, f2 := Lower(els, t.next + 1, t.targets), Lower(els, t2.next + 1, t2.targets);
    RenamedIfElse(e, t, t2, f, f2, next, d);
  }

  lemma {:induction false} WhileRenamed(id: LoopId, e: Expr, body: Stmt, next: Label, bt: map<LoopId, Label>,
                                        bt2: map<LoopId, Label>, d: nat)
    requires BreaksBound(body, bt.Keys + {id}) && Shifted(bt, bt2, d)
    ensures BreaksBound(body, bt2.Keys + {id})
    ensures var r, r2 := LowerWhile(id, e, body, next, bt), LowerWhile(id, e, body, next + d, bt2);
      RenamedGen(r, r2, d)
    decreases Size(While(id, e, body)), 0
  {
    var m, m2 := bt[id := next + 1], bt2[id := next + d + 1];
    assert m.Keys == bt.Keys + {id};
    ShiftedUpdate(bt, bt2, d, id, next + 1);
    LowerRenamed(body, next + 2, m, m2, d);
    var b, b2 := Lower(body, next + 2, m), Lower(body, next + d + 2, m2);
    RenameWhileShape(e.ops, e.value, b.code, b2.code, next, d);
  }

  lemma {:induction false} LowerAllRenamed(ss: seq<Stmt>, next: Label, bt: map<LoopId, Label>,
                                           bt2: map<LoopId, Label>, d: nat)
    requires BreaksBoundAll(ss, bt.Keys) && Shifted(bt, bt2, d)
    ensures BreaksBoundAll(ss, bt2.Keys)
    ensures var r, r2 := LowerAll(ss, next, bt), LowerAll(ss, next + d, bt2);
      RenamedGen(r, r2, d)
    decreases SizeAll(ss), 2
  {
    if ss != [] {
      LowerRenamed(ss[0], next, bt, bt2, d);
      var h, h2 := Lower(ss[0], next, bt), Lower(ss[0], next + d, bt2);
      BreaksBoundAllMono(ss[1..], bt.Keys, h.targets.Keys);
      LowerAllRenamed(ss[1..], h.next, h.targets, h2.targets, d);
      var t, t2 := LowerAll(ss[1..], h.next, h.targets), LowerAll(ss[1..], h2.next, h2.targets);
      RenamedSequence(h, t, h2, t2, d);
    }
  }
}
