/**
 * What each statement kind appends, position by position, and which fresh
 * labels it places: the jumps land on markers drawn for this statement
 * only, and each of these markers is placed exactly once.
 */
module Shapes {
  import opened Wrappers
  import opened Ir
  import opened Ast
  import opened Lowering
  import opened Labels
  import opened Markers

  /** No instruction of `code` mentions label `l`. */
  predicate Avoids(code: seq<Instr>, l: Label)
  {
    forall i | 0 <= i < |code| && code[i].HasLabel() :: code[i].target != l
  }

  lemma AvoidsOutside(code: seq<Instr>, lo: Label, hi: Label, extra: set<Label>, l: Label)
    requires LabelsWithin(code, lo, hi, extra)
    requires (l < lo || hi <= l) && l !in extra
    ensures Avoids(code, l)
  {
  }

  /** Code lowered from `from` on avoids every label below `from` that the map does not hold. */
  lemma LowerAvoids(s: Stmt, from: Label, bt: map<LoopId, Label>, l: Label)
    requires BreaksBound(s, bt.Keys)
    requires l < from && l !in bt.Values
    ensures Avoids(Lower(s, from, bt).code, l)
  {
    LowerLabels(s, from, bt);
    AvoidsOutside(Lower(s, from, bt).code, from, Lower(s, from, bt).next, bt.Values, l);
  }

  /**
   * A block appends no code of its own: lowering the children of one block
   * is lowering a first run of them and then the rest, and a block of one
   * statement lowers as that statement.
   */
  lemma {:induction false} BlockConcat(ss1: seq<Stmt>, ss2: seq<Stmt>, next: Label, bt: map<LoopId, Label>)
    requires BreaksBoundAll(ss1 + ss2, bt.Keys)
    ensures BreaksBoundAll(ss1, bt.Keys)
    ensures var a := LowerAll(ss1, next, bt);
      BreaksBoundAll(ss2, a.targets.Keys)
      && var b := LowerAll(ss2, a.next, a.targets);
         LowerAll(ss1 + ss2, next, bt) == Gen(a.code + b.code, b.next, b.targets)
    decreases |ss1|
  {
    BreaksBoundAllConcat(ss1, ss2, bt.Keys);
    var a := LowerAll(ss1, next, bt);
    BreaksBoundAllMono(ss2, bt.Keys, a.targets.Keys);
    if ss1 == [] {
      assert ss1 + ss2 == ss2;
    } else {
      assert (ss1 + ss2)[0] == ss1[0] && (ss1 + ss2)[1..] == ss1[1..] + ss2;
      var h := Lower(ss1[0], next, bt);
      BreaksBoundAllMono(ss1[1..] + ss2, bt.Keys, h.targets.Keys);
      BlockConcat(ss1[1..], ss2, h.next, h.targets);
      var a' := LowerAll(ss1[1..], h.next, h.targets);
      var b := LowerAll(ss2, a'.next, a'.targets);
      var rest := LowerAll(ss1[1..] + ss2, h.next, h.targets);
      assert LowerAll(ss1 + ss2, next, bt) == Gen(h.code + rest.code, rest.next, rest.targets);
      assert a == Gen(h.code + a'.code, a'.next, a'.targets);
      Assoc(h.code, a'.code, b.code);
    }
  }

  lemma EmptyBlock(next: Label, bt: map<LoopId, Label>)
    ensures Lower(Block([]), next, bt) == Gen([], next, bt)
  {
  }

  lemma SingletonBlock(s: Stmt, next: Label, bt: map<LoopId, Label>)
    requires BreaksBound(s, bt.Keys)
    ensures BreaksBound(Block([s]), bt.Keys)
    ensures Lower(Block([s]), next, bt) == Lower(s, next, bt)
  {
    assert [s][0] == s && [s][1..] == [];
    var h := Lower(s, next, bt);
    assert LowerAll([s], next, bt) == Gen(h.code + [], h.next, h.targets);
    assert h.code + [] == h.code;
  }

  /**
   * An if without else: the condition, one conditional jump to a fresh label,
   * the then branch, and the marker for that label last. The then branch
   * never mentions the label, and the marker is placed once.
   */
  lemma IfShape(e: Expr, thn: Stmt, next: Label, bt: map<LoopId, Label>)
    requires BreaksBound(thn, bt.Keys)
    requires forall k | k in bt :: bt[k] < next
    ensures var r := LowerIf(e, thn, None, next, bt);
      var t := Lower(thn, next + 1, bt);
      var join := next;
      Avoids(t.code, join) && NopCount(r.code, join) == 1
  {
    var r := LowerIf(e, thn, None, next, bt);
    var t := Lower(thn, next + 1, bt);
    LowerAvoids(thn, next + 1, bt, next);
    MarkersPlacedOnce(If(e, thn, None), next, bt, next);
  }

  /**
   * The then-branch of an if-else avoids the else-entry and join labels,
   * and leaves no exit marker at the else-entry.
   */
  lemma ThenAvoids(thn: Stmt, next: Label, bt: map<LoopId, Label>)
    requires BreaksBound(thn, bt.Keys)
    requires forall k | k in bt :: bt[k] < next
    ensures var t := Lower(thn, next + 1, bt);
      Avoids(t.code, next) && Avoids(t.code, t.next)
      && forall k | k in t.targets :: t.targets[k] < next || next < t.targets[k] < t.next
  {
    ValuesWithin(bt, 0, next, {});
    var t := Lower(thn, next + 1, bt);
    LowerLabels(thn, next + 1, bt);
    AvoidsOutside(t.code, next + 1, t.next, bt.Values, next);
    AvoidsOutside(t.code, next + 1, t.next, bt.Values, t.next);
  }

  /** The else-branch, lowered after the join label, avoids both labels the map does not hold. */
  lemma ElseAvoids(els: Stmt, elseEntry: Label, join: Label, m: map<LoopId, Label>)
    requires BreaksBound(els, m.Keys)
    requires elseEntry < join
    requires forall k | k in m :: m[k] < elseEntry || elseEntry < m[k] < join
    ensures var f := Lower(els, join + 1, m);
      Avoids(f.code, elseEntry) && Avoids(f.code, join)
  {
    assert elseEntry !in m.Values && join !in m.Values by {
      forall l | l in m.Values ensures l != elseEntry && l != join {
        var k :| k in m && m[k] == l;
      }
    }
    LowerAvoids(els, join + 1, m, elseEntry);
    LowerAvoids(els, join + 1, m, join);
  }

  /**
   * An if with else: two distinct fresh labels, the else entry drawn first
   * and the join drawn after the then branch. The then branch sits between
   * the conditional jump and the jump to the join, the else branch between
   * the two markers; neither branch mentions either label, and each marker
   * is placed once.
   */
  lemma IfElseShape(e: Expr, thn: Stmt, els: Stmt, next: Label, bt: map<LoopId, Label>)
    requires BreaksBound(thn, bt.Keys) && BreaksBound(els, bt.Keys)
    requires forall k | k in bt :: bt[k] < next
    ensures var r := LowerIf(e, thn, Some(els), next, bt);
      var t := Lower(thn, next + 1, bt);
      BreaksBound(els, t.targets.Keys)
      && var f := Lower(els, t.next + 1, t.targets);
         var elseEntry, join := next, t.next;
         elseEntry != join
         && Avoids(t.code, elseEntry) && Avoids(t.code, join)
         && Avoids(f.code, elseEntry) && Avoids(f.code, join)
         && NopCount(r.code, elseEntry) == 1 && NopCount(r.code, join) == 1
  {
    var t := Lower(thn, next + 1, bt);
    ThenAvoids(thn, next, bt);
    BreaksBoundMono(els, bt.Keys, t.targets.Keys);
    ElseAvoids(els, next, t.next, t.targets);
    IfElseMarkers(e, thn, els, next, bt, next);
    IfElseMarkers(e, thn, els, next, bt, t.next);
  }

  /**
   * A while: the loop-head marker, the condition, a conditional jump to the
   * exit label, the body (lowered with that exit registered for this loop),
   * the back edge to the head and the exit marker last. The body never
   * mentions the head label and never places the exit marker; each marker
   * is placed once.
   */
  lemma WhileShape(id: LoopId, e: Expr, body: Stmt, next: Label, bt: map<LoopId, Label>)
    requires BreaksBound(body, bt.Keys + {id})
    requires forall k | k in bt :: bt[k] < next
    ensures var r := LowerWhile(id, e, body, next, bt);
      var within, following := next, next + 1;
      BreaksBound(body, bt[id := following].Keys)
      && var b := Lower(body, next + 2, bt[id := following]);
         Avoids(b.code, within) && NopCount(b.code, following) == 0
         && NopCount(r.code, within) == 1 && NopCount(r.code, following) == 1
  {
    var bt' := bt[id := next + 1];
    assert bt'.Keys == bt.Keys + {id};
    assert next !in bt'.Values by { ValuesUpdate(bt, id, next + 1); }
    LowerAvoids(body, next + 2, bt', next);
    MarkersPlacedOnce(body, next + 2, bt', next + 1);
    WhileMarkers(id, e, body, next, bt, next);
    WhileMarkers(id, e, body, next, bt, next + 1);
  }

  /**
   * A function body lowered by a fresh generator: every jump lands on a
   * marker placed exactly once, and every label drawn is placed.
   */
  lemma JumpsLandOnce(s: Stmt, next: Label)
    requires BreaksBound(s, {})
    ensures var none: map<LoopId, Label> := map[];
      BreaksBound(s, none.Keys)
      && var r := Lower(s, next, none);
         (forall i | 0 <= i < |r.code| && r.code[i].IsJump() :: NopCount(r.code, r.code[i].target) == 1)
         && forall l | next <= l < r.next :: NopCount(r.code, l) == 1
  {
    var none: map<LoopId, Label> := map[];
    assert none.Keys == {} && none.Values == {};
    var r := Lower(s, next, none);
    LowerLabels(s, next, none);
    forall l | next <= l < r.next ensures NopCount(r.code, l) == 1 {
      MarkersPlacedOnce(s, next, none, l);
    }
    forall i | 0 <= i < |r.code| && r.code[i].IsJump() ensures NopCount(r.code, r.code[i].target) == 1 {
      MarkersPlacedOnce(s, next, none, r.code[i].target);
    }
  }
}
