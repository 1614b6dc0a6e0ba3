/**
 * Concrete lowerings, with an expression lowerer that turns a variable or
 * an integer literal into that value without emitting any instruction.
 * Labels are numbered from 0 in the order newNopStmt hands them out.
 */
module Scenarios {
  import opened Wrappers
  import opened Ir
  import opened Ast
  import opened Lowering
  import Backend

  function Var(name: string): Expr { Expr([], Local(name)) }
  function Lit(n: int): Expr { Expr([], IntConst(n)) }

  /** if (x) { return 1; } */
  lemma IfWithoutElse()
    ensures LowerBody(If(Var("x"), Block([Return(Some(Lit(1)))]), None), 0).code
         == [IfEqZeroGoto(Local("x"), 0), Ret(Some(IntConst(1))), Nop(0)]
  {
  }

  /** if (x) { return 1; } else { return 2; } */
  lemma IfWithElse()
    ensures LowerBody(If(Var("x"), Block([Return(Some(Lit(1)))]), Some(Block([Return(Some(Lit(2)))]))), 0).code
         == [IfEqZeroGoto(Local("x"), 0), Ret(Some(IntConst(1))), Goto(1), Nop(0), Ret(Some(IntConst(2))), Nop(1)]
  {
  }

  /** while (x) { if (y) break; } */
  lemma WhileWithBreak()
    ensures var s := While(0, Var("x"), Block([If(Var("y"), Break(0), None)]));
      BreaksBound(s, {})
      && LowerBody(s, 0).code
         == [Nop(0), IfEqZeroGoto(Local("x"), 1), IfEqZeroGoto(Local("y"), 2), Goto(1), Nop(2), Goto(0), Nop(1)]
  {
    assert {} + {0} == {0};
    var none: map<LoopId, Label> := map[];
    var m := none[0 := 1];
    var inner := If(Var("y"), Break(0), None);
    assert m.Keys == {0};
    assert Lower(inner, 2, m).code == [IfEqZeroGoto(Local("y"), 2), Goto(1), Nop(2)];
    assert [inner][1..] == [];
    assert BreaksBoundAll([inner], m.Keys);
    var h := Lower(inner, 2, m);
    assert LowerAll([], h.next, h.targets).code == [] && h.code + [] == h.code;
    assert Lower(Block([inner]), 2, m).code == Lower(inner, 2, m).code;
  }

  /** { } */
  lemma EmptyBlockScenario()
    ensures LowerBody(Block([]), 0).code == []
  {
  }

  /** return; */
  lemma ReturnVoid()
    ensures LowerBody(Return(None), 0).code == [Ret(None)]
  {
  }

  /**
   * while (x) { while (y) { break; } break; }: the inner break jumps to the
   * inner exit marker (3), the outer one to the outer exit marker (1).
   */
  lemma NestedBreaks()
    ensures var s := While(0, Var("x"), Block([While(1, Var("y"), Break(1)), Break(0)]));
      BreaksBound(s, {})
      && LowerBody(s, 0).code
         == [Nop(0), IfEqZeroGoto(Local("x"), 1),
               Nop(2), IfEqZeroGoto(Local("y"), 3), Goto(3), Goto(2), Nop(3),
             Goto(1), Goto(0), Nop(1)]
  {
    assert {} + {0} == {0} && {0} + {1} == {0, 1};
    var none: map<LoopId, Label> := map[];
    var m := none[0 := 1];
    var m' := m[1 := 3];
    var inner := While(1, Var("y"), Break(1));
    assert m.Keys == {0} && m'.Keys == {0, 1};
    var i := Lower(inner, 2, m);
    assert i.code == [Nop(2), IfEqZeroGoto(Local("y"), 3), Goto(3), Goto(2), Nop(3)];
    assert i.targets == m' && i.next == 4;
    assert [inner, Break(0)][1..] == [Break(0)] && [Break(0)][1..] == [];
    assert BreaksBoundAll([Break(0)], m'.Keys);
    assert BreaksBoundAll([inner, Break(0)], m.Keys);
    assert LowerAll([Break(0)], i.next, i.targets).code == [Goto(1)];
    assert Lower(Block([inner, Break(0)]), 2, m).code == i.code + [Goto(1)];
  }

  /**
   * The generator itself on an empty function body, lowering
   * while (x) { if (y) break; } and then return;.
   */
  method GenerateLoopThenReturn() returns (units: seq<Instr>)
    ensures units == [Nop(0), IfEqZeroGoto(Local("x"), 1), IfEqZeroGoto(Local("y"), 2), Goto(1), Nop(2),
                      Goto(0), Nop(1), Ret(None)]
  {
    var loop := While(0, Var("x"), Block([If(Var("y"), Break(0), None)]));
    WhileWithBreak();
    var g := new Backend.StmtCodeGenerator([]);
    assert g.nextLabel == 0 && g.breakTargets.Keys == {};
    assert [loop, Return(None)][1..] == [Return(None)] && [Return(None)][1..] == [];
    assert BreaksBoundAll([loop, Return(None)], g.breakTargets.Keys);
    g.VisitBlock([loop, Return(None)]);
    var h := Lower(loop, 0, map[]);
    assert h.code == LowerBody(loop, 0).code;
    assert LowerAll([Return(None)], h.next, h.targets).code == [Ret(None)];
    units := g.units;
  }

  /** Lowering into a chain that already mentions labels 0..4 draws fresh labels from 5 on. */
  method GenerateAfterExistingCode() returns (units: seq<Instr>)
    ensures units == [Nop(4), Goto(4), IfEqZeroGoto(Local("x"), 5), Ret(None), Nop(5)]
  {
    var g := new Backend.StmtCodeGenerator([Nop(4), Goto(4)]);
    g.VisitIfStmt(Var("x"), Return(None), None);
    units := g.units;
  }
}
