# Calculator engine: operation stack and replay evaluator

This project models the engine of an iOS calculator (`CalculatorModel`). The key-pad
records operands and operations on an ordered operation stack. On demand, `evaluate`
replays that stack from scratch against an optional snapshot of variable values. It
returns the accumulator, whether a binary operation still waits for its second
operand, and an infix description such as `"2 + 3 +"`.

Files:

- `entries.dfy` (`Entries`): the `Operand` and `Operation` enums, the variable snapshot
  type, and the stack invariant `NoReset`.
- `catalog.dfy` (`Catalog`): the token-to-operation dictionary. The numeric primitives
  that real arithmetic cannot express exactly are collected in a `Libm` record:
  π, e, `sqrt`, `cos`, `sin`, the random draw, and the value of a division by zero.
  `+`, `-`, `×` and `±` are real arithmetic (`Add`, `Subtract`, `Multiply`, `Negate`).
  `÷` is real division when the divisor is non-zero (`Divide`, closed over the platform
  as `Quotient`).
- `evaluator.dfy` (`Evaluator`): one loop iteration as a pure `Step` on the four loop
  variables, `Replay` as the left-to-right fold, `Evaluate`, and the lemmas about them.
- `entry_stack.dfy` (`EntryStack`): what `undo` and `performOperation` do to the
  stack, as values, and what evaluation then sees.
- `calculator.dfy` (`Calculator`): the class `CalculatorModel`. Its field
  `operationsStack` is changed in place by `SetOperand`, `SetOperandVariable`,
  `PerformOperation`, `Undo` and `ResetCalculator`. `Evaluate` is the source's `for`
  loop over local variables. It is proved to return `Evaluator.Evaluate` of the
  stack, and it has no `modifies` clause, so it never changes the stack.
- `scenarios.dfy` (`Scenarios`): concrete key sequences, and a client that drives
  the class.

Numbers are `real`. The number formatter is a function `format: real -> string`,
fixed when the calculator is constructed.

## Model

| member | source | states |
|---|---|---|
| `Catalog.Operations` | Calculator/CalculatorModel.swift:37-51 | the catalog has exactly the thirteen tokens π, e, √, cos, sin, +, -, ×, ÷, ±, =, 0～1, C |
| `Catalog.OnlyClearResets` | Calculator/CalculatorModel.swift:37-51 | "C" is the only token that maps to `Reset`; every other entry carries its own token as its description |
| `Catalog.OperationKinds` | Calculator/CalculatorModel.swift:38-49 | π and e are constants; √, cos, sin and ± are unary; + - × ÷ are binary; = is `Equals`; 0～1 takes no argument |
| `Catalog.EntryValues` | Calculator/CalculatorModel.swift:40-48 | "+" is the binary entry with the addition closure, "÷" the binary entry with the division closure, "=" is `Equals`, "√" the unary entry with `sqrt` |
| `Catalog.BinaryOperandOrder` | Calculator/CalculatorModel.swift:43-47 | binary closures take the first operand on the left (`first - second`, `first / second`), and ± negates |
| `Catalog.Add` | Calculator/CalculatorModel.swift:43 | the closure of "+": the result less the second operand is the first |
| `Catalog.Subtract` | Calculator/CalculatorModel.swift:44 | the closure of "-": the result plus the second operand is the first |
| `Catalog.Multiply` | Calculator/CalculatorModel.swift:45 | the closure of "×": for a non-zero second operand, the result divided by it is the first |
| `Catalog.Negate` | Calculator/CalculatorModel.swift:47 | the closure of "±": the result plus the operand is 0 |
| `Catalog.Quotient` | Calculator/CalculatorModel.swift:46 | the closure of "÷" agrees with `Divide` on every pair of operands |
| `Catalog.Divide` | Calculator/CalculatorModel.swift:46 | for a non-zero divisor the result times the divisor is the dividend |
| `Evaluator.ExecutePendingOperation` | Calculator/CalculatorModel.swift:58-69 | there is a result iff an operation is pending; the result is `f(firstOperand, operand)`; the outcome is never pending; its description is the given one followed by a space when an operation was pending, and empty otherwise |
| `Evaluator.Lookup` | Calculator/CalculatorModel.swift:113-117 | a bound variable has its snapshot value; an unbound one, or any variable with no snapshot, is 0 |
| `Evaluator.Step` | Calculator/CalculatorModel.swift:99-169 | one iteration of the loop: a binary entry leaves an operation pending; `Equals` and an argument-less entry clear the pending register; every other entry keeps it as it was |
| `Evaluator.Replay` | Calculator/CalculatorModel.swift:92-170 | the loop over the whole stack: no entries leave the initial state `(0, "", "", nil)`; a stack with no binary entry ends with nothing pending |
| `Evaluator.Evaluate` | Calculator/CalculatorModel.swift:92-96 | an empty stack evaluates to `(0, false, "")` |
| `Evaluator.ReplayAppend` | Calculator/CalculatorModel.swift:98-170 | appending an entry to the stack runs exactly one more loop iteration on the previous loop state |
| `Evaluator.IsPendingIff` | Calculator/CalculatorModel.swift:142-147 | `isPending` holds iff some binary entry has no later `Equals` or argument-less entry |
| `Evaluator.PendingResolution` | Calculator/CalculatorModel.swift:131-163 | a binary or `Equals` entry turns a pending `{f, a}` into accumulator `f(a, acc)` and keeps the accumulator when nothing is pending; a binary entry then records that accumulator as its first operand; `Equals` clears the register |
| `Evaluator.VariableResolution` | Calculator/CalculatorModel.swift:111-117 | a variable entry takes its snapshot value, or 0 when unbound, and its description is the variable's name either way |
| `Evaluator.DescriptionBuffers` | Calculator/CalculatorModel.swift:100-155 | unary, argument-less and `Equals` entries empty the dangling operand text; an operand with nothing pending resets the description to "" and keeps it when something is pending; a constant keeps it; a binary entry keeps the dangling operand text; a number is described by `format` |
| `Evaluator.UnaryDescription` | Calculator/CalculatorModel.swift:123-130 | a unary entry applies its function to the accumulator; it wraps the whole description when no operand dangles, otherwise it appends `" name(operand)"` |
| `Evaluator.SnapshotIrrelevant` | Calculator/CalculatorModel.swift:92-172 | a stack with no variable entries evaluates the same against any two snapshots |
| `EntryStack.Undone` | Calculator/CalculatorModel.swift:85-90 | undo keeps an empty stack; otherwise re-appending the removed last entry gives back the old stack; undo keeps the no-`Reset` invariant |
| `EntryStack.Performed` | Calculator/CalculatorModel.swift:75-83 | an unknown token leaves the stack as it was; a `Reset` entry empties it; any other entry is appended after the unchanged old stack |
| `EntryStack.UndoAfterAppend` | Calculator/CalculatorModel.swift:19-25 | undo after an append restores the stack exactly, and with it every evaluation |
| `EntryStack.UndoAfterPerform` | Calculator/CalculatorModel.swift:75-90 | undo after an appended catalog operation restores the stack |
| `EntryStack.PerformKeepsNoReset` | Calculator/CalculatorModel.swift:75-83 | performing any token keeps `Reset` off the stack, whatever the catalog holds |
| `EntryStack.ClearEvaluatesToZero` | Calculator/CalculatorModel.swift:71-83 | "C" empties the stack, which then evaluates to `(0, false, "")` |
| `Calculator.CalculatorModel.constructor` | Calculator/CalculatorModel.swift:11-12 | a new calculator has an empty stack and the fixed catalog |
| `Calculator.CalculatorModel.SetOperand` | Calculator/CalculatorModel.swift:19-21 | appends exactly one number operand at the end and changes nothing else |
| `Calculator.CalculatorModel.SetOperandVariable` | Calculator/CalculatorModel.swift:23-25 | appends exactly one variable operand, labelled "Var", at the end |
| `Calculator.CalculatorModel.ResetCalculator` | Calculator/CalculatorModel.swift:71-73 | empties the stack |
| `Calculator.CalculatorModel.PerformOperation` | Calculator/CalculatorModel.swift:75-83 | an unknown token leaves the stack unchanged; a `Reset` entry empties it; any other entry is appended; the stack never holds `Reset` |
| `Calculator.CalculatorModel.Undo` | Calculator/CalculatorModel.swift:85-90 | a no-op on an empty stack; otherwise removes only the last entry |
| `Calculator.CalculatorModel.Evaluate` | Calculator/CalculatorModel.swift:92-172 | the loop returns the replay of the whole stack and leaves the stack unchanged; its `Reset` branch is unreachable |
| `Calculator.CalculatorModel.Result` | Calculator/CalculatorModel.swift:174-180 | the result of evaluating without a snapshot |
| `Calculator.CalculatorModel.DisplayValue` | Calculator/CalculatorModel.swift:189-194 | the formatted result of evaluating without a snapshot |
| `Calculator.CalculatorModel.ResultIsPending` | Calculator/CalculatorModel.swift:196-202 | whether evaluation without a snapshot leaves a binary operation pending |
| `Calculator.CalculatorModel.Description` | Calculator/CalculatorModel.swift:204-210 | the description from evaluating without a snapshot |
| `Scenarios.TwoPlusThreeEquals` | Calculator/CalculatorModel.swift:98-171 | `2 + 3 =` evaluates to `(5, false, "2 + 3")` |
| `Scenarios.TwoPlusThreePlus` | Calculator/CalculatorModel.swift:131-145 | `2 + 3 +` evaluates to `(5, true, "2 + 3 +")` |
| `Scenarios.TwoPlusThreeOpen` | Calculator/CalculatorModel.swift:103-145 | `2 + 3` leaves the addition pending, described as `"2 +"` |
| `Scenarios.SquareRootOfFresh` | Calculator/CalculatorModel.swift:123-130 | `4 √` is described as `" √(4)"`, with a leading space |
| `Scenarios.EqualsAfterOperand` | Calculator/CalculatorModel.swift:151-155 | `2 =` is described as `" 2"`, with a leading space |
| `Scenarios.DivisionOrder` | Calculator/CalculatorModel.swift:46 | `10 ÷ 2 =` with the catalog's division entry gives 5: the first operand is the dividend |
| `Scenarios.VariableAtEvaluationTime` | Calculator/CalculatorModel.swift:111-121 | the same variable entry evaluates to 0 against an empty snapshot and to 7 against `{x: 7}` |
| `Scenarios.PressTwoPlusThree` | Calculator/CalculatorModel.swift:19-172 | on a fresh calculator, the key presses 2, +, 3, = evaluate to `(5, false, "2 + 3")`; after one undo the addition is pending again and the description is `"2 +"` |

Two behaviours of the code that a reader might not expect:

- `evaluate` always returns the accumulator, so an empty stack gives 0, not "no result".
  The result is therefore modelled as `real`, not as an optional.
- The `Reset` branch of `evaluate` empties both description buffers and the stored
  stack. It does not reset the accumulator or the pending operation. The pure `Step`
  clears only the two buffers, because it has no stack to clear. The branch is
  unreachable anyway: `performOperation` never stores `Reset`.

## Left out

- Calculator/ViewController.swift is not part of this model. It is the UIKit layer:
  outlets, digit entry, backspace, the error banner, and its own variable dictionary.
- `formatNumber` depends on the locale through `NumberFormatter`. It is a parameter
  `format: real -> string`; the scenarios assume only the values they need.
- Floating point: numbers are exact reals. Rounding, overflow, Infinity and NaN are
  not modelled. The value of a division by zero is the opaque `Libm.divideByZero`.
  The values of π, e, `sqrt`, `cos` and `sin` are opaque too.
- The random `0～1` operation is the function `Libm.random`. In the source, every
  evaluation draws a fresh value from `arc4random`. In the model, every evaluation of
  the same stack sees the same value.
- Calculator.CalculatorModel.Evaluate: the `Reset` branch is `assert false`. It does
  not clear the stack during evaluation, because the class invariant rules the branch out.
- The dead assignment `pendingOperation = nil` just before the new pending operation
  is stored, in the binary branch of `evaluate`, is not repeated.
