/**
 * Label discipline of the lowering: every label it mentions is one it drew
 * fresh or an exit marker already registered, and every label it draws is
 * placed by exactly one marker.
 */
module Labels {
  import opened Wrappers
  import opened Ir
  import opened Ast
  import opened Lowering

  lemma ValuesUpdate(bt: map<LoopId, Label>, id: LoopId, v: Label)
    ensures forall x | x in bt[id := v].Values :: x == v || x in bt.Values
  {
    forall x | x in bt[id := v].Values ensures x == v || x in bt.Values {
      var k :| k in bt[id := v] && bt[id := v][k] == x;
      if k != id { assert bt[k] == x; }
    }
  }

  lemma ValuesWithin(m: map<LoopId, Label>, lo: Label, hi: Label, extra: set<Label>)
    requires forall k | k in m :: lo <= m[k] < hi || m[k] in extra
    ensures forall x | x in m.Values :: lo <= x < hi || x in extra
  {
    forall x | x in m.Values ensures lo <= x < hi || x in extra {
      var k :| k in m && m[k] == x;
    }
  }

  /* The three shapes of code LowerIf and LowerWhile build, with the labels they place around the parts. */

  lemma IfShapeLabels(ops: seq<Op>, v: Value, thn: seq<Instr>, next: Label, hi: Label, extra: set<Label>)
    requires LabelsWithin(thn, next, hi, extra) && next < hi
    ensures LabelsWithin(Computes(ops) + [IfEqZeroGoto(v, next)] + thn + [Nop(next)], next, hi, extra)
  {
    LabelsWithinConcat(Computes(ops), [IfEqZeroGoto(v, next)], next, hi, extra);
    LabelsWithinConcat(Computes(ops) + [IfEqZeroGoto(v, next)], thn, next, hi, extra);
    LabelsWithinConcat(Computes(ops) + [IfEqZeroGoto(v, next)] + thn, [Nop(next)], next, hi, extra);
  }

  lemma IfElseShapeLabels(ops: seq<Op>, v: Value, thn: seq<Instr>, join: Label, els: seq<Instr>,
                          next: Label, hi: Label, extra: set<Label>)
    requires LabelsWithin(thn, next, hi, extra) && LabelsWithin(els, next, hi, extra)
    requires next <= join < hi
    ensures LabelsWithin(Computes(ops) + [IfEqZeroGoto(v, next)] + thn + [Goto(join)] + [Nop(next)]
                         + els + [Nop(join)], next, hi, extra)
  {
    assert LabelsWithin(Computes(ops), next, hi, extra);
    LabelsWithinConcat6(Computes(ops), [IfEqZeroGoto(v, next)], thn, [Goto(join)], [Nop(next)], els,
                        next, hi, extra);
    LabelsWithinConcat(Computes(ops) + [IfEqZeroGoto(v, next)] + thn + [Goto(join)] + [Nop(next)] + els,
                       [Nop(join)], next, hi, extra);
  }

  lemma WhileShapeLabels(ops: seq<Op>, v: Value, body: seq<Instr>, next: Label, hi: Label, extra: set<Label>)
    requires LabelsWithin(body, next, hi, extra) && next + 2 <= hi
    ensures LabelsWithin([Nop(next)] + Computes(ops) + [IfEqZeroGoto(v, next + 1)] + body
                         + [Goto(next)] + [Nop(next + 1)], next, hi, extra)
  {
    assert LabelsWithin(Computes(ops), next, hi, extra);
    LabelsWithinConcat6([Nop(next)], Computes(ops), [IfEqZeroGoto(v, next + 1)], body,
                        [Goto(next)], [Nop(next + 1)], next, hi, extra);
  }

  /**
   * Lowering mentions only labels it drew (from `next` up to the returned
   * next) and exit markers already in the break-target map; the map it
   * leaves behind holds only such labels too.
   */
  lemma {:induction false} LowerLabels(s: Stmt, next: Label, bt: map<LoopId, Label>)
    requires BreaksBound(s, bt.Keys)
    ensures var r := Lower(s, next, bt);
      LabelsWithin(r.code, next, r.next, bt.Values)
      && forall k | k in r.targets :: next <= r.targets[k] < r.next || r.targets[k] in bt.Values
    decreases Size(s), 1
  {
    var r := Lower(s, next, bt);
    match s
    case Block(ss) => LowerAllLabels(ss, next, bt);
    case ExprStmt(e) =>
    case Return(None) =>
    case Return(Some(e)) =>
      LabelsWithinConcat(Computes(e.ops), [Ret(Some(e.value))], next, r.next, bt.Values);
    case If(e, thn, None) => IfLabels(e, thn, next, bt);
    case If(e, thn, Some(els)) => IfElseLabels(e, thn, els, next, bt);
    case While(id, e, body) => WhileLabels(id, e, body, next, bt);
    case Break(id) =>
      assert bt[id] in bt.Values;
  }

  lemma {:induction false} IfLabels(e: Expr, thn: Stmt, next: Label, bt: map<LoopId, Label>)
    requires BreaksBound(thn, bt.Keys)
    ensures var r := LowerIf(e, thn, None, next, bt);
      LabelsWithin(r.code, next, r.next, bt.Values)
      && forall k | k in r.targets :: next <= r.targets[k] < r.next || r.targets[k] in bt.Values
    decreases Size(If(e, thn, None)), 0
  {
    var r := LowerIf(e, thn, None, next, bt);
    var t := Lower(thn, next + 1, bt);
    LowerLabels(thn, next + 1, bt);
    LabelsWithinWiden(t.code, next + 1, t.next, bt.Values, next, t.next, bt.Values);
    assert r.code == Computes(e.ops) + [IfEqZeroGoto(e.value, next)] + t.code + [Nop(next)];
    IfShapeLabels(e.ops, e.value, t.code, next, r.next, bt.Values);
  }

  lemma {:induction false} IfElseLabels(e: Expr, thn: Stmt, els: Stmt, next: Label, bt: map<LoopId, Label>)
    requires BreaksBound(thn, bt.Keys) && BreaksBound(els, bt.Keys)
    ensures var r := LowerIf(e, thn, Some(els), next, bt);
      LabelsWithin(r.code, next, r.next, bt.Values)
      && forall k | k in r.targets :: next <= r.targets[k] < r.next || r.targets[k] in bt.Values
    decreases Size(If(e, thn, Some(els))), 0
  {
    var r := LowerIf(e, thn, Some(els), next, bt);
    var t := Lower(thn, next + 1, bt);
    BreaksBoundMono(els, bt.Keys, t.targets.Keys);
    var f := Lower(els, t.next + 1, t.targets);
    assert r.code == Computes(e.ops) + [IfEqZeroGoto(e.value, next)] + t.code
                     + [Goto(t.next)] + [Nop(next)] + f.code + [Nop(t.next)];
    assert r.next == f.next && r.targets == f.targets;
    LowerLabels(thn, next + 1, bt);
    assert LabelsWithin(t.code, next, r.next, bt.Values) by {
      LabelsWithinWiden(t.code, next + 1, t.next, bt.Values, next, r.next, bt.Values);
    }
    ValuesWithin(t.targets, next, r.next, bt.Values);
    assert LabelsWithin(f.code, next, r.next, bt.Values)
      && forall k | k in f.targets :: next <= f.targets[k] < r.next || f.targets[k] in bt.Values
    by {
      LowerLabels(els, t.next + 1, t.targets);
      LabelsWithinWiden(f.code, t.next + 1, f.next, t.targets.Values, next, r.next, bt.Values);
    }
    IfElseShapeLabels(e.ops, e.value, t.code, t.next, f.code, next, r.next, bt.Values);
  }

  lemma {:induction false} WhileLabels(id: LoopId, e: Expr, body: Stmt, next: Label, bt: map<LoopId, Label>)
    requires BreaksBound(body, bt.Keys + {id})
    ensures var r := LowerWhile(id, e, body, next, bt);
      LabelsWithin(r.code, next, r.next, bt.Values)
      && forall k | k in r.targets :: next <= r.targets[k] < r.next || r.targets[k] in bt.Values
    decreases Size(While(id, e, body)), 0
  {
    var r := LowerWhile(id, e, body, next, bt);
    var bt' := bt[id := next + 1];
    assert bt'.Keys == bt.Keys + {id};
    var b := Lower(body, next + 2, bt');
    assert r.code == [Nop(next)] + Computes(e.ops) + [IfEqZeroGoto(e.value, next + 1)] + b.code
                     + [Goto(next)] + [Nop(next + 1)];
    assert r.next == b.next && r.targets == b.targets;
    assert LabelsWithin(b.code, next, r.next, bt.Values)
      && forall k | k in b.targets :: next <= b.targets[k] < r.next || b.targets[k] in bt.Values
    by {
      LowerLabels(body, next + 2, bt');
      ValuesUpdate(bt, id, next + 1);
      LabelsWithinWiden(b.code, next + 2, b.next, bt'.Values, next, r.next, bt.Values);
    }
    WhileShapeLabels(e.ops, e.value, b.code, next, r.next, bt.Values);
  }

  lemma {:induction false} LowerAllLabels(ss: seq<Stmt>, next: Label, bt: map<LoopId, Label>)
    requires BreaksBoundAll(ss, bt.Keys)
    ensures var r := LowerAll(ss, next, bt);
      LabelsWithin(r.code, next, r.next, bt.Values)
      && forall k | k in r.targets :: next <= r.targets[k] < r.next || r.targets[k] in bt.Values
    decreases SizeAll(ss), 2
  {
    if ss != [] {
      var r := LowerAll(ss, next, bt);
      var h := Lower(ss[0], next, bt);
      LowerLabels(ss[0], next, bt);
      BreaksBoundAllMono(ss[1..], bt.Keys, h.targets.Keys);
      var t := LowerAll(ss[1..], h.next, h.targets);
      LowerAllLabels(ss[1..], h.next, h.targets);
      LabelsWithinWiden(h.code, next, h.next, bt.Values, next, r.next, bt.Values);
      ValuesWithin(h.targets, next, r.next, bt.Values);
      LabelsWithinWiden(t.code, h.next, t.next, h.targets.Values, next, r.next, bt.Values);
      LabelsWithinConcat(h.code, t.code, next, r.next, bt.Values);
    }
  }

  /**
   * Freshness of newNopStmt: no instruction of the chain and no registered
   * break target mentions `next` or any label after it.
   */
  predicate Fresh(units: seq<Instr>, next: Label, bt: map<LoopId, Label>)
  {
    LabelsWithin(units, 0, next, {}) && forall k | k in bt :: bt[k] < next
  }

  /** The generator's freshness invariant survives lowering. */
  lemma LowerKeepsFresh(s: Stmt, units: seq<Instr>, next: Label, bt: map<LoopId, Label>)
    requires BreaksBound(s, bt.Keys) && Fresh(units, next, bt)
    ensures var r := Lower(s, next, bt); Fresh(units + r.code, r.next, r.targets)
  {
    var r := Lower(s, next, bt);
    LowerLabels(s, next, bt);
    ValuesWithin(bt, 0, next, {});
    LabelsWithinWiden(r.code, next, r.next, bt.Values, 0, r.next, {});
    LabelsWithinWiden(units, 0, next, {}, 0, r.next, {});
    LabelsWithinConcat(units, r.code, 0, r.next, {});
  }
}

/** Every label the lowering draws is placed by exactly one marker, and no other marker is placed. */
module Markers {
  import opened Wrappers
  import opened Ir
  import opened Ast
  import opened Lowering
  import Labels

  /* How many markers for l the three shapes of LowerIf and LowerWhile place around their parts. */

  lemma IfShapeNops(ops: seq<Op>, v: Value, thn: seq<Instr>, next: Label, l: Label)
    ensures NopCount(Computes(ops) + [IfEqZeroGoto(v, next)] + thn + [Nop(next)], l)
         == NopCount(thn, l) + (if l == next then 1 else 0)
  {
    NopCountComputes(ops, l);
    NopCountConcat4(Computes(ops), [IfEqZeroGoto(v, next)], thn, [Nop(next)], l);
  }

  lemma IfElseShapeNops(ops: seq<Op>, v: Value, thn: seq<Instr>, join: Label, els: seq<Instr>,
                        next: Label, l: Label)
    ensures NopCount(Computes(ops) + [IfEqZeroGoto(v, next)] + thn + [Goto(join)] + [Nop(next)]
                     + els + [Nop(join)], l)
         == NopCount(thn, l) + (if l == next then 1 else 0) + NopCount(els, l) + (if l == join then 1 else 0)
  {
    NopCountComputes(ops, l);
    NopCountSingle(IfEqZeroGoto(v, next), l);
    NopCountSingle(Goto(join), l);
    NopCountSingle(Nop(next), l);
    NopCountSingle(Nop(join), l);
    NopCountConcat6(Computes(ops), [IfEqZeroGoto(v, next)], thn, [Goto(join)], [Nop(next)], els, l);
    NopCountConcat(Computes(ops) + [IfEqZeroGoto(v, next)] + thn + [Goto(join)] + [Nop(next)] + els,
                   [Nop(join)], l);
  }

  lemma WhileShapeNops(ops: seq<Op>, v: Value, body: seq<Instr>, next: Label, l: Label)
    ensures NopCount([Nop(next)] + Computes(ops) + [IfEqZeroGoto(v, next + 1)] + body
                     + [Goto(next)] + [Nop(next + 1)], l)
         == (if l == next then 1 else 0) + NopCount(body, l) + (if l == next + 1 then 1 else 0)
  {
    NopCountComputes(ops, l);
    NopCountSingle(IfEqZeroGoto(v, next + 1), l);
    NopCountSingle(Goto(next), l);
    NopCountSingle(Nop(next + 1), l);
    NopCountSingle(Nop(next), l);
    NopCountConcat6([Nop(next)], Computes(ops), [IfEqZeroGoto(v, next + 1)], body,
                    [Goto(next)], [Nop(next + 1)], l);
  }

  lemma {:induction false} MarkersPlacedOnce(s: Stmt, next: Label, bt: map<LoopId, Label>, l: Label)
    requires BreaksBound(s, bt.Keys)
    ensures var r := Lower(s, next, bt);
      NopCount(r.code, l) == if next <= l < r.next then 1 else 0
    decreases Size(s), 1
  {
    match s
    case Block(ss) => AllMarkersPlacedOnce(ss, next, bt, l);
    case ExprStmt(e) => NopCountComputes(e.ops, l);
    case Return(None) =>
    case Return(Some(e)) =>
      NopCountComputes(e.ops, l);
      NopCountConcat(Computes(e.ops), [Ret(Some(e.value))], l);
    case If(e, thn, None) =>
        var t := Lower(thn, next + 1, bt);
      MarkersPlacedOnce(thn, next + 1, bt, l);
      IfShapeNops(e.ops, e.value, t.code, next, l);
    case If(e, thn, Some(els)) => IfElseMarkers(e, thn, els, next, bt, l);
    case While(id, e, body) => WhileMarkers(id, e, body, next, bt, l);
    case Break(id) =>
  }

  lemma {:induction false} IfElseMarkers(e: Expr, thn: Stmt, els: Stmt,
                                         next: Label, bt: map<LoopId, Label>, l: Label)
    requires BreaksBound(thn, bt.Keys) && BreaksBound(els, bt.Keys)
    ensures var r := LowerIf(e, thn, Some(els), next, bt);
      NopCount(r.code, l) == if next <= l < r.next then 1 else 0
    decreases Size(If(e, thn, Some(els))), 0
  {
    var r := LowerIf(e, thn, Some(els), next, bt);
    var t := Lower(thn, next + 1, bt);
    BreaksBoundMono(els, bt.Keys, t.targets.Keys);
    var f := Lower(els, t.next + 1, t.targets);
    assert r.code == Computes(e.ops) + [IfEqZeroGoto(e.value, next)] + t.code
                     + [Goto(t.next)] + [Nop(next)] + f.code + [Nop(t.next)];
    assert r.next == f.next;
    IfElseShapeNops(e.ops, e.value, t.code, t.next, f.code, next, l);
    MarkersPlacedOnce(thn, next + 1, bt, l);
    MarkersPlacedOnce(els, t.next + 1, t.targets, l);
  }

  lemma {:induction false} WhileMarkers(id: LoopId, e: Expr, body: Stmt,
                                        next: Label, bt: map<LoopId, Label>, l: Label)
    requires BreaksBound(body, bt.Keys + {id})
    ensures var r := LowerWhile(id, e, body, next, bt);
      NopCount(r.code, l) == if next <= l < r.next then 1 else 0
    decreases Size(While(id, e, body)), 0
  {
    var r := LowerWhile(id, e, body, next, bt);
    var bt' := bt[id := next + 1];
    assert bt'.Keys == bt.Keys + {id};
    var b := Lower(body, next + 2, bt');
    assert r.code == [Nop(next)] + Computes(e.ops) + [IfEqZeroGoto(e.value, next + 1)] + b.code
                     + [Goto(next)] + [Nop(next + 1)];
    assert r.next == b.next;
    WhileShapeNops(e.ops, e.value, b.code, next, l);
    MarkersPlacedOnce(body, next + 2, bt', l);
  }

  lemma {:induction false} AllMarkersPlacedOnce(ss: seq<Stmt>, next: Label,
                                                bt: map<LoopId, Label>, l: Label)
    requires BreaksBoundAll(ss, bt.Keys)
    ensures var r := LowerAll(ss, next, bt);
      NopCount(r.code, l) == if next <= l < r.next then 1 else 0
    decreases SizeAll(ss), 2
  {
    if ss != [] {
      var h := Lower(ss[0], next, bt);
      MarkersPlacedOnce(ss[0], next, bt, l);
      BreaksBoundAllMono(ss[1..], bt.Keys, h.targets.Keys);
      var t := LowerAll(ss[1..], h.next, h.targets);
      AllMarkersPlacedOnce(ss[1..], h.next, h.targets, l);
      NopCountConcat(h.code, t.code, l);
    }
  }

  /**
   * Lowering into a chain whose labels all lie below `next`: in the whole
   * chain afterwards every label drawn is placed by exactly one marker, and
   * the markers already in the chain are neither duplicated nor removed.
   */
  lemma ChainMarkersPlacedOnce(s: Stmt, units: seq<Instr>, next: Label, bt: map<LoopId, Label>, l: Label)
    requires BreaksBound(s, bt.Keys) && Labels.Fresh(units, next, bt)
    ensures var r := Lower(s, next, bt);
      && (next <= l < r.next ==> NopCount(units + r.code, l) == 1)
      && (l < next ==> NopCount(units + r.code, l) == NopCount(units, l))
  {
    var r := Lower(s, next, bt);
    MarkersPlacedOnce(s, next, bt, l);
    NopCountConcat(units, r.code, l);
    if next <= l {
      assert forall i | 0 <= i < |units| :: units[i] != Nop(l);
      NopCountAbsent(units, l);
    }
  }
}

