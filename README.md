# Statement lowering to Jimple-style jump code

This project models the statement code generator of a small compiler back end
(`lab4/src/backend/StmtCodeGenerator.java`). The generator walks a structured
statement tree (block, expression statement, return, if/else, while, break)
and appends flat instructions to the unit chain of the enclosing function
body: conditional jumps on zero, gotos, nop markers that serve as jump
targets, returns, and whatever the expression lowerer emits. It keeps one map
from each while loop to its exit marker, so that a `break` can jump there.

The model has three layers.

- **The generator itself** (`generator.dfy`, module `Backend`). A class
  `StmtCodeGenerator` with the fields `units` (the chain), `breakTargets` (the
  loop-to-exit map) and `nextLabel` (the counter that stands in for
  `newNopStmt`). Each `visit*` method updates them in place, in the source's
  order, through `NewNop` (`newNopStmt`), `Emit` (`units.add`) and
  `GenerateExpr` (the expression lowerer). The map grows only by `put`.
  `VisitBlock` loops over the children as the source does.
- **A specification function** (`lowering.dfy`). `Lower(s, next, bt)` gives
  the code appended, the next unused label and the map left behind. Every
  visit method is proved to append exactly `Lower(...).code` to the old chain,
  leaving the counter and the map as `Lower` says.
- **Properties of that function**:
  - `shapes.dfy`, `labels.dfy`: the layout of each statement kind, which
    labels its code mentions, and that each marker is placed exactly once.
  - `scoped.dfy`: where breaks jump. An independent reference lowering passes
    the enclosing loops' exits down the tree. It agrees with the generator's
    single map whenever loop identities are distinct, so every break reaches
    the exit of its own innermost while.
  - `renaming.dfy`: lowering is independent of which labels are handed out.
  - `scenarios.dfy`: concrete lowerings.

Labels are natural numbers drawn in the order the source calls `newNopStmt`:

- an if without else draws its join label before the then branch;
- an if with else draws the else-entry label first and the join label after
  the then branch;
- a while draws its head and exit labels before the condition.

An expression is represented by what the expression lowerer does with it: the
instructions it appends (`Compute` instructions, opaque to the statement
lowerer) and the value it hands back.

## Model

| member | source | states |
|---|---|---|
| Backend.StmtCodeGenerator.constructor | lab4/src/backend/StmtCodeGenerator.java:32-40 | The chain is the function body's, the break-target map starts empty, and the label counter starts past every label the body mentions, so labels handed out are fresh (Valid). |
| Backend.StmtCodeGenerator.NewNop | lab4/src/backend/StmtCodeGenerator.java:85 | Hands out the current label and advances the counter; the chain and the map are untouched. |
| Backend.StmtCodeGenerator.Emit | lab4/src/backend/StmtCodeGenerator.java:57 | `units.add`: the instruction is appended at the end and nothing else changes. |
| Backend.StmtCodeGenerator.GenerateExpr | lab4/src/backend/StmtCodeGenerator.java:45 | The expression lowerer appends the expression's instructions and returns its value; no label is drawn and the map is untouched. |
| Backend.StmtCodeGenerator.Accept | lab4/src/backend/StmtCodeGenerator.java:65 | Lowering any statement leaves the old chain as an unchanged prefix and appends exactly `Lower(s).code`; the counter and the map become Lower's. A valid generator stays valid, and every label drawn is then placed by exactly one marker in the whole chain. |
| Backend.StmtCodeGenerator.VisitExprStmt | lab4/src/backend/StmtCodeGenerator.java:44-47 | Appends exactly the expression lowerer's instructions and nothing more; the value is discarded; counter and map unchanged. |
| Backend.StmtCodeGenerator.VisitBreakStmt | lab4/src/backend/StmtCodeGenerator.java:51-58 | Appends exactly one goto, to the exit marker registered for the break's loop; counter and map unchanged. |
| Backend.StmtCodeGenerator.VisitBlock | lab4/src/backend/StmtCodeGenerator.java:63-66 | The loop over the children appends the concatenation of their lowerings in order, threading counter and map; proved by a loop invariant against LowerAll. |
| Backend.StmtCodeGenerator.VisitReturnStmt | lab4/src/backend/StmtCodeGenerator.java:71-78 | With an expression: its instructions, then exactly one return of its value; without: exactly one void return. |
| Backend.StmtCodeGenerator.VisitIfStmt | lab4/src/backend/StmtCodeGenerator.java:83-96 | Appends LowerIf's layout: condition, conditional jump to the first label drawn, then branch; with else, a goto to a second label drawn after the then branch, the first marker, the else branch; the join marker last. |
| Backend.StmtCodeGenerator.VisitWhileStmt | lab4/src/backend/StmtCodeGenerator.java:101-125 | Appends LowerWhile's layout: head marker, condition, conditional jump to the exit, the body lowered with the exit registered for this loop, the back edge to the head, the exit marker; the map keeps the new entry. |
| Lowering.Lower | lab4/src/backend/StmtCodeGenerator.java:113 | Lowering never reuses a label (the counter only grows) and never removes a loop from the break-target map. |
| Lowering.LowerIf | lab4/src/backend/StmtCodeGenerator.java:85-90 | Drawing the if's labels only advances the counter; the map only grows. |
| Lowering.LowerWhile | lab4/src/backend/StmtCodeGenerator.java:106-113 | Drawing the loop's two labels only advances the counter; the loop is registered in the map left behind, which keeps every loop registered before. |
| Lowering.LowerAll | lab4/src/backend/StmtCodeGenerator.java:64-65 | Lowering children in turn only advances the counter and only grows the map. |
| Shapes.BlockConcat | lab4/src/backend/StmtCodeGenerator.java:63-66 | A block adds no code of its own: lowering a run of children followed by another is the first run's code followed by the second's, lowered from where the first left off. |
| Shapes.EmptyBlock | lab4/src/backend/StmtCodeGenerator.java:63-66 | An empty block appends nothing, draws no label and registers no loop. |
| Shapes.SingletonBlock | lab4/src/backend/StmtCodeGenerator.java:63-66 | A block of one statement lowers exactly as that statement. |
| Shapes.IfShape | lab4/src/backend/StmtCodeGenerator.java:84-95 | Without else, the then branch never mentions the join label, and its marker occurs exactly once, after the then branch. |
| Shapes.ThenAvoids | lab4/src/backend/StmtCodeGenerator.java:85-90 | The then branch of an if-else mentions neither the else-entry label nor the join label drawn after it. |
| Shapes.ElseAvoids | lab4/src/backend/StmtCodeGenerator.java:90-93 | The else branch mentions neither the else-entry label nor the join label. |
| Shapes.IfElseShape | lab4/src/backend/StmtCodeGenerator.java:85-95 | With else, the else-entry and join labels are distinct, neither branch mentions either, and each of the two markers occurs exactly once. |
| Shapes.WhileShape | lab4/src/backend/StmtCodeGenerator.java:106-124 | The body never mentions the head label and never places the exit marker; head and exit markers each occur exactly once. |
| Shapes.LowerAvoids | lab4/src/backend/StmtCodeGenerator.java:85-124 | Code lowered from a label on mentions no older label that is not a registered exit. |
| Shapes.JumpsLandOnce | lab4/src/backend/StmtCodeGenerator.java:83-125 | In a function body lowered by a fresh generator, every jump targets a marker that occurs exactly once, and every label drawn is placed exactly once. |
| Labels.LowerLabels | lab4/src/backend/StmtCodeGenerator.java:83-125 | Every label the appended code mentions was drawn by this lowering or is an exit already registered; the map left behind holds only such labels. |
| Labels.IfLabels | lab4/src/backend/StmtCodeGenerator.java:84-95 | The same for an if without else. |
| Labels.IfElseLabels | lab4/src/backend/StmtCodeGenerator.java:84-95 | The same for an if with else. |
| Labels.WhileLabels | lab4/src/backend/StmtCodeGenerator.java:106-124 | The same for a while. |
| Labels.LowerAllLabels | lab4/src/backend/StmtCodeGenerator.java:64-65 | The same for the children of a block. |
| Labels.LowerKeepsFresh | lab4/src/backend/StmtCodeGenerator.java:85 | newNopStmt stays fresh: after lowering, no instruction of the chain and no registered exit mentions the counter or a label after it. |
| Markers.MarkersPlacedOnce | lab4/src/backend/StmtCodeGenerator.java:95 | Each label a lowering draws is placed by exactly one marker in its code, and no other label is. |
| Markers.IfElseMarkers | lab4/src/backend/StmtCodeGenerator.java:92-95 | The same for an if with else. |
| Markers.WhileMarkers | lab4/src/backend/StmtCodeGenerator.java:107-124 | The same for a while. |
| Markers.AllMarkersPlacedOnce | lab4/src/backend/StmtCodeGenerator.java:64-65 | The same for the children of a block. |
| Markers.ChainMarkersPlacedOnce | lab4/src/backend/StmtCodeGenerator.java:83-125 | Lowering into a chain whose labels all lie below the counter: afterwards every label drawn is placed by exactly one marker in the whole chain, and the count of every older marker is unchanged. |
| Scoped.LowerScoped | lab4/src/backend/StmtCodeGenerator.java:53-57 | Reference lowering where a break sees only the loops around it: the counter only grows. |
| Scoped.LowerTargets | lab4/src/backend/StmtCodeGenerator.java:113 | Lowering registers exactly the loops of the statement and leaves every other loop's entry as it was. |
| Scoped.IfElseTargets | lab4/src/backend/StmtCodeGenerator.java:87-93 | The same for an if with else. |
| Scoped.WhileTargets | lab4/src/backend/StmtCodeGenerator.java:113-120 | The same for a while. |
| Scoped.LowerAllTargets | lab4/src/backend/StmtCodeGenerator.java:64-65 | The same for the children of a block. |
| Scoped.RegisterTwice | lab4/src/backend/StmtCodeGenerator.java:113 | Two lowerings in a row register the loops of both and keep every other entry. |
| Scoped.ExtendsAfter | lab4/src/backend/StmtCodeGenerator.java:113 | Registering loops that are not enclosing ones keeps every enclosing loop's binding. |
| Scoped.ScopedAgrees | lab4/src/backend/StmtCodeGenerator.java:53-57 | With distinct loop identities, the generator's single growing map sends every break to the same marker as the scoped reference: the exit of its own innermost enclosing while. |
| Scoped.ScopedAgreesIf | lab4/src/backend/StmtCodeGenerator.java:84-95 | The same for an if without else. |
| Scoped.ScopedAgreesIfElse | lab4/src/backend/StmtCodeGenerator.java:84-95 | The same for an if with else. |
| Scoped.ScopedAgreesWhile | lab4/src/backend/StmtCodeGenerator.java:113-120 | The same for a while: registering the exit before the body is what makes its breaks land there. |
| Scoped.ScopedAgreesAll | lab4/src/backend/StmtCodeGenerator.java:64-65 | The same for the children of a block. |
| Scoped.BodyBreaksResolveLocally | lab4/src/backend/StmtCodeGenerator.java:35 | A function body lowered from an empty map comes out exactly as the scoped reference lowers it; an inner break never targets an outer loop's exit. |
| Renaming.LowerRenamed | lab4/src/backend/StmtCodeGenerator.java:85-108 | Starting the counter d labels later, with registered exits moved by d, yields the same code with every label moved by d. Lowering a tree twice gives the same instructions up to a consistent renaming of the markers. |
| Renaming.IfRenamed | lab4/src/backend/StmtCodeGenerator.java:84-95 | The same for an if without else. |
| Renaming.IfElseRenamed | lab4/src/backend/StmtCodeGenerator.java:84-95 | The same for an if with else. |
| Renaming.WhileRenamed | lab4/src/backend/StmtCodeGenerator.java:106-124 | The same for a while. |
| Renaming.LowerAllRenamed | lab4/src/backend/StmtCodeGenerator.java:64-65 | The same for the children of a block. |
| Scenarios.IfWithoutElse | lab4/src/backend/StmtCodeGenerator.java:83-96 | `if (x) { return 1; }` lowers to a conditional jump to L0, `return 1`, marker L0. |
| Scenarios.IfWithElse | lab4/src/backend/StmtCodeGenerator.java:83-96 | `if (x) { return 1; } else { return 2; }` lowers to conditional jump to L0, `return 1`, goto L1, marker L0, `return 2`, marker L1. |
| Scenarios.WhileWithBreak | lab4/src/backend/StmtCodeGenerator.java:101-125 | `while (x) { if (y) break; }` lowers to marker L0, jump to L1 if x is zero, jump to L2 if y is zero, goto L1, marker L2, goto L0, marker L1. |
| Scenarios.EmptyBlockScenario | lab4/src/backend/StmtCodeGenerator.java:63-66 | `{ }` lowers to no instruction. |
| Scenarios.ReturnVoid | lab4/src/backend/StmtCodeGenerator.java:71-78 | `return;` lowers to exactly one void return. |
| Scenarios.NestedBreaks | lab4/src/backend/StmtCodeGenerator.java:51-58 | In nested loops the inner break jumps to the inner exit and the outer break to the outer exit. |
| Scenarios.GenerateLoopThenReturn | lab4/src/backend/StmtCodeGenerator.java:63-66 | The generator object, given an empty body and a block of a loop and a return, leaves exactly the expected chain. |
| Scenarios.GenerateAfterExistingCode | lab4/src/backend/StmtCodeGenerator.java:83-96 | On a chain that already uses labels, the if's marker gets the first unused label and the old instructions stay in front. |

## Left out

- The Soot/Jimple API (`Jimple.v()`, `newIfStmt`, `newEqExpr`, `newGotoStmt`, `newNopStmt`, `Chain<Unit>`). Statements are values of the `Instr` datatype. A nop statement's object identity is a natural-number label drawn from a counter. `if cond == 0` is one instruction.
- `ExprCodeGenerator.generate` and `FunctionCodeGenerator` are not part of this model. An expression carries the instructions the expression lowerer would append and the value it would return. Those instructions are opaque `Compute` instructions, so the model does not cover an expression lowerer that emits jumps or draws labels itself.
- Visitor double dispatch (`Visitor<Void>`, `accept(this)`) is a `match` over the closed `Stmt` datatype, in `Accept` and in `Lower`.
- `getEnclosingLoop()` is not modelled: a `Break` carries the identity of its enclosing while directly. Loops are identified by `LoopId` numbers rather than by node identity. The agreement with the scoped reference therefore assumes distinct identities (`DistinctLoops`), which object identity gives the source for free.
- Backend.StmtCodeGenerator.VisitBreakStmt: requires the loop to be registered. The source calls `HashMap.get` without a check and would append a goto to `null` for an unregistered loop. Every lowering function and method takes "each break names an enclosing loop" (`BreaksBound`) as a precondition instead of modelling that path.
- Backend.StmtCodeGenerator.Accept: states the freshness invariant `Valid()` as kept (`old(Valid()) ==> Valid()`) rather than required, and the visit methods do not restate it. The source never checks it; for each visit method it follows from `Labels.LowerKeepsFresh` applied to the equation the method ensures.
- Entries of `breakTargets` are never removed, as in the source. The map only grows (`Lowering.Lower`, `Scoped.LowerTargets`).
- `lab1/lab1/Lab1/src/test/LexerTests.java` is not part of this model. It tests a lexer whose code is not among the modelled files.
