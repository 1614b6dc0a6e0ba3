/**
 * Where a break jumps. The generator keeps one break-target map for the
 * whole function body: each while adds its exit marker before its body is
 * lowered and nothing is ever removed. The reference here passes the
 * enclosing loops' exits down the tree instead, so a break can only see the
 * loops around it, the innermost binding first. For loops with distinct
 * identities the two agree, so every break jumps to the exit marker of its
 * own enclosing while.
 */
module Scoped {
  import opened Wrappers
  import opened Ir
  import opened Ast
  import opened Lowering

  /** Appended code and next unused label. */
  datatype Emitted = Emitted(code: seq<Instr>, next: Label)

  /**
   * Lowering with the exits of the enclosing loops passed down: a while
   * binds its own exit for its body only, and siblings see the same
   * bindings as their parent.
   */
  function LowerScoped(s: Stmt, next: Label, env: map<LoopId, Label>): (r: Emitted)
    requires BreaksBound(s, env.Keys)
    ensures next <= r.next
    decreases Size(s), 1
  {
    match s
    case Block(ss) => LowerScopedAll(ss, next, env)
    case ExprStmt(e) => Emitted(Computes(e.ops), next)
    case Return(None) => Emitted([Ret(None)], next)
    case Return(Some(e)) => Emitted(Computes(e.ops) + [Ret(Some(e.value))], next)
    case If(e, thn, els) => ScopedIf(e, thn, els, next, env)
    case While(id, e, body) => ScopedWhile(id, e, body, next, env)
    case Break(id) => Emitted([Goto(env[id])], next)
  }

  function ScopedIf(e: Expr, thn: Stmt, els: Option<Stmt>, next: Label, env: map<LoopId, Label>): (r: Emitted)
    requires BreaksBound(thn, env.Keys)
    requires els.Some? ==> BreaksBound(els.value, env.Keys)
    ensures next <= r.next
    decreases Size(If(e, thn, els)), 0
  {
    var t := LowerScoped(thn, next + 1, env);
    match els
    case None =>
      Emitted(Computes(e.ops) + [IfEqZeroGoto(e.value, next)] + t.code + [Nop(next)], t.next)
    case Some(f) =>
      var g := LowerScoped(f, t.next + 1, env);
      Emitted(Computes(e.ops) + [IfEqZeroGoto(e.value, next)] + t.code
                + [Goto(t.next)] + [Nop(next)] + g.code + [Nop(t.next)],
              g.next)
  }

  /** The loop's own exit is bound for its body only. */
  function ScopedWhile(id: LoopId, e: Expr, body: Stmt, next: Label, env: map<LoopId, Label>): (r: Emitted)
    requires BreaksBound(body, env.Keys + {id})
    ensures next <= r.next
    decreases Size(While(id, e, body)), 0
  {
    assert env[id := next + 1].Keys == env.Keys + {id};
    var b := LowerScoped(body, next + 2, env[id := next + 1]);
    Emitted([Nop(next)] + Computes(e.ops) + [IfEqZeroGoto(e.value, next + 1)] + b.code
              + [Goto(next)] + [Nop(next + 1)],
            b.next)
  }

  function LowerScopedAll(ss: seq<Stmt>, next: Label, env: map<LoopId, Label>): (r: Emitted)
    requires BreaksBoundAll(ss, env.Keys)
    ensures next <= r.next
    decreases SizeAll(ss), 2
  {
    if ss == [] then Emitted([], next)
    else
      var h := LowerScoped(ss[0], next, env);
      var t := LowerScopedAll(ss[1..], h.next, env);
      Emitted(h.code + t.code, t.next)
  }

  /**
   * `after` is `before` with entries for the loops in `loops` added or
   * replaced, and every other entry left as it was.
   */
  predicate Registers(before: map<LoopId, Label>, after: map<LoopId, Label>, loops: set<LoopId>)
  {
    after.Keys == before.Keys + loops
    && forall k | k in before && k !in loops :: after[k] == before[k]
  }

  /**
   * Lowering `s` registers exactly the loops of `s` in the break-target map
   * and leaves the entry of every other loop as it was.
   */
  lemma {:induction false} LowerTargets(s: Stmt, next: Label, bt: map<LoopId, Label>)
    requires BreaksBound(s, bt.Keys)
    ensures Registers(bt, Lower(s, next, bt).targets, LoopIds(s))
    decreases Size(s), 1
  {
    match s
    case Block(ss) => LowerAllTargets(ss, next, bt);
    case ExprStmt(_) =>
    case Return(_) =>
    case If(e, thn, None) =>
      assert LowerIf(e, thn, None, next, bt).targets == Lower(thn, next + 1, bt).targets;
      LowerTargets(thn, next + 1, bt);
    case If(e, thn, Some(els)) => IfElseTargets(e, thn, els, next, bt);
    case While(id, e, body) => WhileTargets(id, e, body, next, bt);
    case Break(_) =>
  }

  lemma {:induction false} IfElseTargets(e: Expr, thn: Stmt, els: Stmt, next: Label, bt: map<LoopId, Label>)
    requires BreaksBound(thn, bt.Keys) && BreaksBound(els, bt.Keys)
    ensures Registers(bt, LowerIf(e, thn, Some(els), next, bt).targets, LoopIds(thn) + LoopIds(els))
    decreases Size(If(e, thn, Some(els))), 0
  {
    var t := Lower(thn, next + 1, bt);
    LowerTargets(thn, next + 1, bt);
    BreaksBoundMono(els, bt.Keys, t.targets.Keys);
    var f := Lower(els, t.next + 1, t.targets);
    LowerTargets(els, t.next + 1, t.targets);
    RegisterTwice(bt, t.targets, f.targets, LoopIds(thn), LoopIds(els));
  }

  lemma {:induction false} WhileTargets(id: LoopId, e: Expr, body: Stmt, next: Label, bt: map<LoopId, Label>)
    requires BreaksBound(body, bt.Keys + {id})
    ensures Registers(bt, LowerWhile(id, e, body, next, bt).targets, {id} + LoopIds(body))
    decreases Size(While(id, e, body)), 0
  {
    var bt' := bt[id := next + 1];
    assert bt'.Keys == bt.Keys + {id};
    assert LowerWhile(id, e, body, next, bt).targets == Lower(body, next + 2, bt').targets;
    LowerTargets(body, next + 2, bt');
  }

  lemma {:induction false} LowerAllTargets(ss: seq<Stmt>, next: Label, bt: map<LoopId, Label>)
    requires BreaksBoundAll(ss, bt.Keys)
    ensures Registers(bt, LowerAll(ss, next, bt).targets, LoopIdsAll(ss))
    decreases SizeAll(ss), 2
  {
    if ss != [] {
      var h := Lower(ss[0], next, bt);
      LowerTargets(ss[0], next, bt);
      BreaksBoundAllMono(ss[1..], bt.Keys, h.targets.Keys);
      LowerAllTargets(ss[1..], h.next, h.targets);
      RegisterTwice(bt, h.targets, LowerAll(ss, next, bt).targets, LoopIds(ss[0]), LoopIdsAll(ss[1..]));
    }
  }

  /** Two lowerings in a row register the loops of both and keep the other entries. */
  lemma RegisterTwice(bt: map<LoopId, Label>, mid: map<LoopId, Label>, last: map<LoopId, Label>,
                      first: set<LoopId>, second: set<LoopId>)
    requires Registers(bt, mid, first) && Registers(mid, last, second)
    ensures Registers(bt, last, first + second)
  {
  }

  /**
   * The generator's lowering agrees with the scoped reference when no loop
   * of `s` is registered yet, loop identities are distinct, and the
   * generator's map holds the reference's bindings (plus, possibly, the exits
   * of loops already lowered elsewhere).
   */
  lemma {:induction false} ScopedAgrees(s: Stmt, next: Label, m: map<LoopId, Label>, env: map<LoopId, Label>)
    requires BreaksBound(s, env.Keys) && BreaksBound(s, m.Keys)
    requires DistinctLoops(s) && LoopIds(s) !! env.Keys
    requires Extends(m, env)
    ensures Lower(s, next, m).code == LowerScoped(s, next, env).code
    ensures Lower(s, next, m).next == LowerScoped(s, next, env).next
    decreases Size(s), 1
  {
    match s
    case Block(ss) => ScopedAgreesAll(ss, next, m, env);
    case ExprStmt(_) =>
    case Return(_) =>
    case If(e, thn, None) => ScopedAgreesIf(e, thn, next, m, env);
    case If(e, thn, Some(els)) => ScopedAgreesIfElse(e, thn, els, next, m, env);
    case While(id, e, body) => ScopedAgreesWhile(id, e, body, next, m, env);
    case Break(_) =>
  }

  lemma {:induction false} ScopedAgreesIf(e: Expr, thn: Stmt, next: Label,
                                          m: map<LoopId, Label>, env: map<LoopId, Label>)
    requires BreaksBound(thn, env.Keys) && BreaksBound(thn, m.Keys)
    requires DistinctLoops(thn) && LoopIds(thn) !! env.Keys
    requires Extends(m, env)
    ensures LowerIf(e, thn, None, next, m).code == ScopedIf(e, thn, None, next, env).code
    ensures LowerIf(e, thn, None, next, m).next == ScopedIf(e, thn, None, next, env).next
    decreases Size(If(e, thn, None)), 0
  {
    ScopedAgrees(thn, next + 1, m, env);
  }

  lemma {:induction false} ScopedAgreesIfElse(e: Expr, thn: Stmt, els: Stmt, next: Label,
                                              m: map<LoopId, Label>, env: map<LoopId, Label>)
    requires BreaksBound(thn, env.Keys) && BreaksBound(els, env.Keys)
    requires BreaksBound(thn, m.Keys) && BreaksBound(els, m.Keys)
    requires DistinctLoops(thn) && DistinctLoops(els)
    requires LoopIds(thn) !! env.Keys && LoopIds(els) !! env.Keys
    requires Extends(m, env)
    ensures LowerIf(e, thn, Some(els), next, m).code == ScopedIf(e, thn, Some(els), next, env).code
    ensures LowerIf(e, thn, Some(els), next, m).next == ScopedIf(e, thn, Some(els), next, env).next
    decreases Size(If(e, thn, Some(els))), 0
  {
    var t := Lower(thn, next + 1, m);
    ScopedAgrees(thn, next + 1, m, env);
    LowerTargets(thn, next + 1, m);
    ExtendsAfter(m, t.targets, LoopIds(thn), env);
    BreaksBoundMono(els, m.Keys, t.targets.Keys);
    ScopedAgrees(els, t.next + 1, t.targets, env);
  }

  lemma {:induction false} ScopedAgreesWhile(id: LoopId, e: Expr, body: Stmt, next: Label,
                                             m: map<LoopId, Label>, env: map<LoopId, Label>)
    requires BreaksBound(body, env.Keys + {id}) && BreaksBound(body, m.Keys + {id})
    requires DistinctLoops(body) && id !in LoopIds(body) && ({id} + LoopIds(body)) !! env.Keys
    requires Extends(m, env)
    ensures LowerWhile(id, e, body, next, m).code == ScopedWhile(id, e, body, next, env).code
    ensures LowerWhile(id, e, body, next, m).next == ScopedWhile(id, e, body, next, env).next
    decreases Size(While(id, e, body)), 0
  {
    var m', env' := m[id := next + 1], env[id := next + 1];
    assert m'.Keys == m.Keys + {id} && env'.Keys == env.Keys + {id};
    ScopedAgrees(body, next + 2, m', env');
  }

  lemma {:induction false} ScopedAgreesAll(ss: seq<Stmt>, next: Label, m: map<LoopId, Label>, env: map<LoopId, Label>)
    requires BreaksBoundAll(ss, env.Keys) && BreaksBoundAll(ss, m.Keys)
    requires DistinctLoopsAll(ss) && LoopIdsAll(ss) !! env.Keys
    requires Extends(m, env)
    ensures LowerAll(ss, next, m).code == LowerScopedAll(ss, next, env).code
    ensures LowerAll(ss, next, m).next == LowerScopedAll(ss, next, env).next
    decreases SizeAll(ss), 2
  {
    if ss != [] {
      var h := Lower(ss[0], next, m);
      ScopedAgrees(ss[0], next, m, env);
      LowerTargets(ss[0], next, m);
      ExtendsAfter(m, h.targets, LoopIds(ss[0]), env);
      BreaksBoundAllMono(ss[1..], m.Keys, h.targets.Keys);
      ScopedAgreesAll(ss[1..], h.next, h.targets, env);
    }
  }

  /** Every binding of `env` is also in `m`. */
  predicate Extends(m: map<LoopId, Label>, env: map<LoopId, Label>)
  {
    forall k | k in env :: k in m && m[k] == env[k]
  }

  /** Registering loops that `env` does not bind keeps every binding of `env`. */
  lemma ExtendsAfter(m: map<LoopId, Label>, m': map<LoopId, Label>, loops: set<LoopId>, env: map<LoopId, Label>)
    requires Extends(m, env) && Registers(m, m', loops) && loops !! env.Keys
    ensures Extends(m', env)
  {
  }

  /**
   * A function body lowered by a fresh generator (empty break-target map)
   * comes out exactly as the scoped reference lowers it: every break jumps
   * to the exit of its own enclosing while, never to an outer one.
   */
  lemma BodyBreaksResolveLocally(s: Stmt, next: Label)
    requires BreaksBound(s, {}) && DistinctLoops(s)
    ensures var none: map<LoopId, Label> := map[];
      BreaksBound(s, none.Keys) && Lower(s, next, none).code == LowerScoped(s, next, none).code
  {
    var none: map<LoopId, Label> := map[];
    assert none.Keys == {};
    ScopedAgrees(s, next, none, none);
  }
}
