/**
 * The statement lowerer itself (package backend, class StmtCodeGenerator):
 * an object that appends instructions for a statement to the unit chain of
 * the enclosing function body, keeping a map from while loops to their exit
 * markers.
 */
module Backend {
  import opened Wrappers
  import opened Ir
  import opened Ast
  import opened Lowering
  import Labels
  import Markers

  class StmtCodeGenerator {
    /** The instructions appended so far: the chain of the function body being lowered. */
    var units: seq<Instr>

    /** The exit marker registered for each while loop lowered so far. */
    var breakTargets: map<LoopId, Label>

    /** The label the next newNopStmt hands out. */
    var nextLabel: Label

    /** Freshness of newNopStmt (Labels.Fresh) for the generator's state. */
    ghost predicate Valid()
      reads this
    {
      Labels.Fresh(units, nextLabel, breakTargets)
    }

    constructor (body: seq<Instr>)
      ensures Valid()
      ensures units == body && breakTargets == map[] && nextLabel == FirstFree(body)
    {
      units := body;
      breakTargets := map[];
      nextLabel := FirstFree(body);
      FirstFreeLeast(body, FirstFree(body));
    }

    /** Stands in for Jimple's newNopStmt: hands out the next unused label. */
    method NewNop() returns (l: Label)
      modifies this
      ensures l == old(nextLabel) && nextLabel == l + 1
      ensures units == old(units) && breakTargets == old(breakTargets)
    {
      l := nextLabel;
      nextLabel := nextLabel + 1;
    }

    /** units.add */
    method Emit(ins: Instr)
      modifies this
      ensures units == old(units) + [ins]
      ensures nextLabel == old(nextLabel) && breakTargets == old(breakTargets)
    {
      units := units + [ins];
    }

    /** The call into ExprCodeGenerator.generate: appends the expression's code, returns its value. */
    method GenerateExpr(e: Expr) returns (v: Value)
      modifies this
      ensures units == old(units) + Computes(e.ops) && v == e.value
      ensures nextLabel == old(nextLabel) && breakTargets == old(breakTargets)
    {
      units := units + Computes(e.ops);
      v := e.value;
    }

    /** Lowers any statement: the visitor's double dispatch (stmt.accept(this)). */
    method Accept(s: Stmt)
      requires BreaksBound(s, breakTargets.Keys)
      modifies this
      ensures var r := Lower(s, old(nextLabel), old(breakTargets));
        units == old(units) + r.code && nextLabel == r.next && breakTargets == r.targets
      // lowering a statement keeps the generator valid, and then each label drawn
      // is placed by exactly one marker in the whole chain
      ensures old(Valid()) ==> Valid()
      ensures old(Valid()) ==> forall l | old(nextLabel) <= l < nextLabel :: NopCount(units, l) == 1
      decreases Size(s), 2
    {
      ghost var u0, n0, bt0 := units, nextLabel, breakTargets;
      match s {
        case Block(ss) => VisitBlock(ss);
        case ExprStmt(e) => VisitExprStmt(e);
        case Return(e) => VisitReturnStmt(e);
        case If(e, thn, els) => VisitIfStmt(e, thn, els);
        case While(id, e, body) => VisitWhileStmt(id, e, body);
        case Break(id) => VisitBreakStmt(id);
      }
      if Labels.Fresh(u0, n0, bt0) {
        Labels.LowerKeepsFresh(s, u0, n0, bt0);
        forall l | n0 <= l < nextLabel
          ensures NopCount(units, l) == 1
        {
          Markers.ChainMarkersPlacedOnce(s, u0, n0, bt0, l);
        }
      }
    }

    /** Appends exactly what the expression lowerer appends and discards the value. */
    method VisitExprStmt(e: Expr)
      modifies this
      ensures units == old(units) + Computes(e.ops)
      ensures nextLabel == old(nextLabel) && breakTargets == old(breakTargets)
      ensures var r := Lower(ExprStmt(e), old(nextLabel), old(breakTargets));
        units == old(units) + r.code && nextLabel == r.next && breakTargets == r.targets
    {
      var _ := GenerateExpr(e);
    }

    /** Appends one jump to the exit marker registered for the enclosing loop. */
    method VisitBreakStmt(loop: LoopId)
      requires loop in breakTargets
      modifies this
      ensures units == old(units) + [Goto(old(breakTargets)[loop])]
      ensures nextLabel == old(nextLabel) && breakTargets == old(breakTargets)
      ensures var r := Lower(Break(loop), old(nextLabel), old(breakTargets));
        units == old(units) + r.code && nextLabel == r.next && breakTargets == r.targets
    {
      var exitLabel := breakTargets[loop];
      Emit(Goto(exitLabel));
    }

    method VisitBlock(stmts: seq<Stmt>)
      requires BreaksBoundAll(stmts, breakTargets.Keys)
      modifies this
      ensures var r := Lower(Block(stmts), old(nextLabel), old(breakTargets));
        units == old(units) + r.code && nextLabel == r.next && breakTargets == r.targets
      decreases Size(Block(stmts)), 1
    {
      ghost var whole := LowerAll(stmts, nextLabel, breakTargets);
      var i := 0;
      while i < |stmts|
        invariant 0 <= i <= |stmts|
        invariant BreaksBoundAll(stmts[i..], breakTargets.Keys)
        invariant var rest := LowerAll(stmts[i..], nextLabel, breakTargets);
          old(units) + whole.code == units + rest.code
          && rest.next == whole.next && rest.targets == whole.targets
      {
        assert stmts[i..][0] == stmts[i] && stmts[i..][1..] == stmts[i + 1..];
        ghost var u, bt := units, breakTargets;
        ghost var h := Lower(stmts[i], nextLabel, breakTargets);
        BreaksBoundAllMono(stmts[i + 1..], bt.Keys, h.targets.Keys);
        ghost var rest := LowerAll(stmts[i + 1..], h.next, h.targets);
        assert LowerAll(stmts[i..], nextLabel, breakTargets)
            == Gen(h.code + rest.code, rest.next, rest.targets);
        SizeElement(stmts, i);
        Accept(stmts[i]);
        Assoc(u, h.code, rest.code);
        i := i + 1;
      }
    }

    /** Appends the returned expression's code, if any, and then exactly one return. */
    method VisitReturnStmt(value: Option<Expr>)
      modifies this
      ensures value.Some? ==> units == old(units) + Computes(value.value.ops) + [Ret(Some(value.value.value))]
      ensures value.None? ==> units == old(units) + [Ret(None)]
      ensures nextLabel == old(nextLabel) && breakTargets == old(breakTargets)
      ensures var r := Lower(Return(value), old(nextLabel), old(breakTargets));
        units == old(units) + r.code && nextLabel == r.next && breakTargets == r.targets
    {
      ghost var u0 := units;
      var stmt: Instr;
      if value.Some? {
        var v := GenerateExpr(value.value);
        stmt := Ret(Some(v));
      } else {
        stmt := Ret(None);
      }
      Emit(stmt);
      Assoc(u0, if value.Some? then Computes(value.value.ops) else [], [stmt]);
    }

    method VisitIfStmt(cond: Expr, thn: Stmt, els: Option<Stmt>)
      requires BreaksBound(thn, breakTargets.Keys)
      requires els.Some? ==> BreaksBound(els.value, breakTargets.Keys)
      modifies this
      ensures var r := LowerIf(cond, thn, els, old(nextLabel), old(breakTargets));
        units == old(units) + r.code && nextLabel == r.next && breakTargets == r.targets
      decreases Size(If(cond, thn, els)), 1
    {
      ghost var u0, n0, bt0 := units, nextLabel, breakTargets;
      // `head` is what the code appended so far looks like when the join marker is added
      ghost var head: seq<Instr>;
      var v := GenerateExpr(cond);
      var join := NewNop();
      Emit(IfEqZeroGoto(v, join));
      ghost var u1 := units;
      ghost var t := Lower(thn, n0 + 1, bt0);
      Accept(thn);
      assert units == u1 + t.code;
      if els.Some? {
        var elseEntry := join;
        join := NewNop();
        Emit(Goto(join));
        Emit(Nop(elseEntry));
        BreaksBoundMono(els.value, bt0.Keys, breakTargets.Keys);
        ghost var u2 := units;
        ghost var f := Lower(els.value, t.next + 1, t.targets);
        Accept(els.value);
        assert units == u2 + f.code;
        head := Computes(cond.ops) + [IfEqZeroGoto(cond.value, n0)] + t.code
          + [Goto(t.next)] + [Nop(n0)] + f.code;
        Assoc6(u0, Computes(cond.ops), [IfEqZeroGoto(cond.value, n0)], t.code,
               [Goto(t.next)], [Nop(n0)], f.code);
        assert units == u0 + head;
      } else {
        head := Computes(cond.ops) + [IfEqZeroGoto(cond.value, n0)] + t.code;
        Assoc3(u0, Computes(cond.ops), [IfEqZeroGoto(cond.value, n0)], t.code);
        assert units == u0 + head;
      }
      assert LowerIf(cond, thn, els, n0, bt0) == Gen(head + [Nop(join)], nextLabel, breakTargets);
      Emit(Nop(join));
      Assoc(u0, head, [Nop(join)]);
    }

    method VisitWhileStmt(id: LoopId, cond: Expr, body: Stmt)
      requires BreaksBound(body, breakTargets.Keys + {id})
      modifies this
      ensures var r := LowerWhile(id, cond, body, old(nextLabel), old(breakTargets));
        units == old(units) + r.code && nextLabel == r.next && breakTargets == r.targets
      decreases Size(While(id, cond, body)), 1
    {
      ghost var u0, n0, bt0 := units, nextLabel, breakTargets;
      // the code appended before the body, and what lowering the body appends
      ghost var head := [Nop(n0)] + Computes(cond.ops) + [IfEqZeroGoto(cond.value, n0 + 1)];
      assert bt0[id := n0 + 1].Keys == bt0.Keys + {id};
      ghost var b := Lower(body, n0 + 2, bt0[id := n0 + 1]);
      ghost var r := LowerWhile(id, cond, body, n0, bt0);
      assert r == Gen(head + b.code + [Goto(n0)] + [Nop(n0 + 1)], b.next, b.targets);
      Assoc3(u0, [Nop(n0)], Computes(cond.ops), [IfEqZeroGoto(cond.value, n0 + 1)]);
      Assoc3(u0, head, b.code, [Goto(n0)]);
      Assoc(u0, head + b.code + [Goto(n0)], [Nop(n0 + 1)]);
      assert Size(body) < Size(While(id, cond, body));

      var within := NewNop();
      Emit(Nop(within));
      var following := NewNop();
      breakTargets := breakTargets[id := following];
      assert units == u0 + [Nop(n0)] && following == n0 + 1;
      var v := GenerateExpr(cond);
      Emit(IfEqZeroGoto(v, following));
      assert units == u0 + head && nextLabel == n0 + 2;
      Accept(body);
      assert units == u0 + head + b.code && nextLabel == r.next && breakTargets == r.targets;
      Emit(Goto(within));
      Emit(Nop(following));
      assert units == u0 + r.code && nextLabel == r.next && breakTargets == r.targets;
    }
  }
}
