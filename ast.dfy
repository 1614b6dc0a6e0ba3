/**
 * The statement tree the lowerer walks (ast.Block, ast.ExprStmt, ast.ReturnStmt,
 * ast.IfStmt, ast.WhileStmt, ast.BreakStmt) and the well-formedness facts the
 * earlier semantic pass establishes about it.
 */
module Ast {
  import opened Wrappers
  import opened Ir

  /** The identity of a while statement; a break names its enclosing loop by it. */
  type LoopId = nat

  /**
   * An expression, seen through what ExprCodeGenerator.generate does with
   * it: the instructions it appends to the unit chain and the value it
   * hands back to the statement lowerer.
   */
  datatype Expr = Expr(ops: seq<Op>, value: Value)

  datatype Stmt =
    | Block(stmts: seq<Stmt>)
    | ExprStmt(expr: Expr)
    | Return(value: Option<Expr>)
    | If(cond: Expr, thn: Stmt, els: Option<Stmt>)
    | While(id: LoopId, cond: Expr, body: Stmt)
    | Break(loop: LoopId)

  /** A measure for the mutual recursion between a statement and a block's children. */
  function Size(s: Stmt): nat
  {
    match s
    case Block(ss) => 1 + SizeAll(ss)
    case If(_, t, None) => 1 + Size(t)
    case If(_, t, Some(e)) => 1 + Size(t) + Size(e)
    case While(_, _, b) => 1 + Size(b)
    case _ => 1
  }

  function SizeAll(ss: seq<Stmt>): nat
  {
    if ss == [] then 0 else Size(ss[0]) + SizeAll(ss[1..])
  }

  /** The identities of the while statements in `s`, nested ones included. */
  function LoopIds(s: Stmt): set<LoopId>
  {
    match s
    case Block(ss) => LoopIdsAll(ss)
    case If(_, t, None) => LoopIds(t)
    case If(_, t, Some(e)) => LoopIds(t) + LoopIds(e)
    case While(id, _, b) => {id} + LoopIds(b)
    case _ => {}
  }

  function LoopIdsAll(ss: seq<Stmt>): set<LoopId>
  {
    if ss == [] then {} else LoopIds(ss[0]) + LoopIdsAll(ss[1..])
  }

  /**
   * Every break in `s` names a loop in `scope` or a while of `s` that encloses it:
   * what the semantic pass guarantees before lowering starts.
   */
  predicate BreaksBound(s: Stmt, scope: set<LoopId>)
  {
    match s
    case Block(ss) => BreaksBoundAll(ss, scope)
    case If(_, t, None) => BreaksBound(t, scope)
    case If(_, t, Some(e)) => BreaksBound(t, scope) && BreaksBound(e, scope)
    case While(id, _, b) => BreaksBound(b, scope + {id})
    case Break(id) => id in scope
    case _ => true
  }

  predicate BreaksBoundAll(ss: seq<Stmt>, scope: set<LoopId>)
  {
    ss == [] || (BreaksBound(ss[0], scope) && BreaksBoundAll(ss[1..], scope))
  }

  /** No two while statements of `s` share an identity (object identity in the source). */
  predicate DistinctLoops(s: Stmt)
  {
    match s
    case Block(ss) => DistinctLoopsAll(ss)
    case If(_, t, None) => DistinctLoops(t)
    case If(_, t, Some(e)) => DistinctLoops(t) && DistinctLoops(e) && LoopIds(t) !! LoopIds(e)
    case While(id, _, b) => id !in LoopIds(b) && DistinctLoops(b)
    case _ => true
  }

  predicate DistinctLoopsAll(ss: seq<Stmt>)
  {
    ss == [] || (DistinctLoops(ss[0]) && LoopIds(ss[0]) !! LoopIdsAll(ss[1..]) && DistinctLoopsAll(ss[1..]))
  }

  lemma {:induction false} SizeElement(ss: seq<Stmt>, i: nat)
    requires i < |ss|
    ensures Size(ss[i]) <= SizeAll(ss)
  {
    if i > 0 { SizeElement(ss[1..], i - 1); }
  }

  /** Widening the scope keeps every break bound. */
  lemma {:induction false} BreaksBoundMono(s: Stmt, small: set<LoopId>, large: set<LoopId>)
    requires BreaksBound(s, small) && small <= large
    ensures BreaksBound(s, large)
    decreases Size(s), 1
  {
    match s
    case Block(ss) => BreaksBoundAllMono(ss, small, large);
    case If(_, t, None) => BreaksBoundMono(t, small, large);
    case If(_, t, Some(e)) =>
      BreaksBoundMono(t, small, large);
      BreaksBoundMono(e, small, large);
    case While(id, _, b) => BreaksBoundMono(b, small + {id}, large + {id});
    case _ =>
  }

  lemma {:induction false} BreaksBoundAllMono(ss: seq<Stmt>, small: set<LoopId>, large: set<LoopId>)
    requires BreaksBoundAll(ss, small) && small <= large
    ensures BreaksBoundAll(ss, large)
    decreases SizeAll(ss), 2
  {
    if ss != [] {
      BreaksBoundMono(ss[0], small, large);
      BreaksBoundAllMono(ss[1..], small, large);
    }
  }

  /** The children of a block split into two runs keep their breaks bound. */
  lemma {:induction false} BreaksBoundAllConcat(ss1: seq<Stmt>, ss2: seq<Stmt>, scope: set<LoopId>)
    ensures BreaksBoundAll(ss1 + ss2, scope) <==> BreaksBoundAll(ss1, scope) && BreaksBoundAll(ss2, scope)
    decreases |ss1|
  {
    if ss1 != [] {
      assert (ss1 + ss2)[0] == ss1[0] && (ss1 + ss2)[1..] == ss1[1..] + ss2;
      BreaksBoundAllConcat(ss1[1..], ss2, scope);
    } else {
      assert ss1 + ss2 == ss2;
    }
  }
}
