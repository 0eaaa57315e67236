/** The typed entries the calculator records on its operation stack. */
module Entries {

  datatype Option<+T> = None | Some(value: T)

  /** An operand: a literal number, or a variable resolved only when the
      stack is evaluated. */
  datatype Operand = Number(number: real) | Variable(name: string)

  /** One entry of the operation stack. Every shape except `Reset` carries
      the text it contributes to the description (its `symbol`); an operand
      entry carries a label ("" for numbers, "Var" for variables) that the
      evaluator ignores. The closures stand for the Swift closures of the
      operation catalog. */
  datatype Operation =
    | Constant(symbol: string, value: real)
    | OperationWithoutArgument(symbol: string, nullary: () -> real)
    | UnaryOperation(symbol: string, unary: real -> real)
    | BinaryOperation(symbol: string, binary: (real, real) -> real)
    | OperandEntry(symbol: string, operand: Operand)
    | Equals(symbol: string)
    | Reset

  /** The variable snapshot a caller may hand to the evaluator. */
  type Variables = Option<map<string, real>>

  /** The stack invariant: `Reset` is never stored, it empties the stack
      when it is performed. */
  predicate NoReset(stack: seq<Operation>)
  {
    forall i :: 0 <= i < |stack| ==> !stack[i].Reset?
  }
}
