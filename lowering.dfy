/**
 * What lowering one statement appends, as a function of the statement, the
 * next unused label and the break-target map. StmtCodeGenerator's methods
 * are proved to append exactly this; the lemmas here state what the appended
 * code looks like.
 */
module Lowering {
  import opened Wrappers
  import opened Ir
  import opened Ast

  /** The outcome of lowering: appended code, next unused label, break-target map. */
  datatype Gen = Gen(code: seq<Instr>, next: Label, targets: map<LoopId, Label>)

  /**
   * Lowering `s` when labels from `next` on are unused and `bt` maps the
   * loops seen so far to their exit markers. Labels are drawn in the order
   * the source calls newNopStmt. The map only grows: each while registers
   * its own exit and nothing is removed.
   */
  function Lower(s: Stmt, next: Label, bt: map<LoopId, Label>): (r: Gen)
    requires BreaksBound(s, bt.Keys)
    ensures next <= r.next && bt.Keys <= r.targets.Keys
    decreases Size(s), 1
  {
    match s
    case Block(ss) => LowerAll(ss, next, bt)
    case ExprStmt(e) => Gen(Computes(e.ops), next, bt)
    case Return(None) => Gen([Ret(None)], next, bt)
    case Return(Some(e)) => Gen(Computes(e.ops) + [Ret(Some(e.value))], next, bt)
    case If(e, thn, els) => LowerIf(e, thn, els, next, bt)
    case While(id, e, body) => LowerWhile(id, e, body, next, bt)
    case Break(id) => Gen([Goto(bt[id])], next, bt)
  }

  /**
   * An if statement: the condition, a conditional jump to the first marker
   * drawn, the then branch; with an else branch, a jump over it to a second
   * marker drawn after the then branch, the first marker, the else branch;
   * and last the join marker.
   */
  function LowerIf(e: Expr, thn: Stmt, els: Option<Stmt>, next: Label, bt: map<LoopId, Label>): (r: Gen)
    requires BreaksBound(thn, bt.Keys)
    requires els.Some? ==> BreaksBound(els.value, bt.Keys)
    ensures next <= r.next && bt.Keys <= r.targets.Keys
    decreases Size(If(e, thn, els)), 0
  {
    var t := Lower(thn, next + 1, bt);
    match els
    case None =>
      var join := next;
      Gen(Computes(e.ops) + [IfEqZeroGoto(e.value, join)] + t.code + [Nop(join)],
          t.next, t.targets)
    case Some(f) =>
      var elseEntry := next;
      var join := t.next;
      BreaksBoundMono(f, bt.Keys, t.targets.Keys);
      var g := Lower(f, join + 1, t.targets);
      Gen(Computes(e.ops) + [IfEqZeroGoto(e.value, elseEntry)] + t.code
            + [Goto(join)] + [Nop(elseEntry)] + g.code + [Nop(join)],
          g.next, g.targets)
  }

  /**
   * A while statement: the loop-head marker, the condition, a conditional
   * jump to the exit marker, the body (where breaks of this loop jump to the
   * exit marker), the jump back and the exit marker.
   */
  function LowerWhile(id: LoopId, e: Expr, body: Stmt, next: Label, bt: map<LoopId, Label>): (r: Gen)
    requires BreaksBound(body, bt.Keys + {id})
    ensures next <= r.next && bt.Keys <= r.targets.Keys && id in r.targets
    decreases Size(While(id, e, body)), 0
  {
    var within := next;
    var following := next + 1;
    assert bt[id := following].Keys == bt.Keys + {id};
    var b := Lower(body, next + 2, bt[id := following]);
    Gen([Nop(within)] + Computes(e.ops) + [IfEqZeroGoto(e.value, following)] + b.code
          + [Goto(within)] + [Nop(following)],
        b.next, b.targets)
  }

  /** Lowering the children of a block one after the other, threading the state. */
  function LowerAll(ss: seq<Stmt>, next: Label, bt: map<LoopId, Label>): (r: Gen)
    requires BreaksBoundAll(ss, bt.Keys)
    ensures next <= r.next && bt.Keys <= r.targets.Keys
    decreases SizeAll(ss), 2
  {
    if ss == [] then Gen([], next, bt)
    else
      var h := Lower(ss[0], next, bt);
      BreaksBoundAllMono(ss[1..], bt.Keys, h.targets.Keys);
      var t := LowerAll(ss[1..], h.next, h.targets);
      Gen(h.code + t.code, t.next, t.targets)
  }

  /** Lowering a whole function body: a fresh generator has no loop registered. */
  function LowerBody(s: Stmt, next: Label): (r: Gen)
    requires BreaksBound(s, {})
    ensures next <= r.next
  {
    var none: map<LoopId, Label> := map[];
    assert none.Keys == {};
    Lower(s, next, none)
  }
}
