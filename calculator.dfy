/** The calculator model: an operation stack changed in place by the key-pad
    and replayed on demand by `Evaluate`. */
module Calculator {
  import opened Entries
  import Catalog
  import Evaluator
  import EntryStack

  class CalculatorModel {
    var operationsStack: seq<Operation>
    const operations: map<string, Operation>
    /** The number formatter used for operand descriptions. */
    const format: real -> string

    /** `Reset` is never stored on the stack. */
    ghost predicate Valid()
      reads this
    {
      NoReset(operationsStack)
    }

    constructor (lib: Catalog.Libm, format: real -> string)
      ensures Valid()
      ensures operationsStack == [] && operations == Catalog.Operations(lib) && this.format == format
    {
      operationsStack := [];
      operations := Catalog.Operations(lib);
      this.format := format;
    }

    /** Appends a number operand. */
    method SetOperand(operand: real)
      requires Valid()
      modifies this
      ensures Valid()
      ensures operationsStack == old(operationsStack) + [OperandEntry("", Number(operand))]
    {
      operationsStack := operationsStack + [OperandEntry("", Number(operand))];
    }

    /** Appends a variable operand; its value is looked up only when the
        stack is evaluated. */
    method SetOperandVariable(named: string)
      requires Valid()
      modifies this
      ensures Valid()
      ensures operationsStack == old(operationsStack) + [OperandEntry("Var", Variable(named))]
    {
      operationsStack := operationsStack + [OperandEntry("Var", Variable(named))];
    }

    method ResetCalculator()
      modifies this
      ensures Valid() && operationsStack == []
    {
      operationsStack := [];
    }

    /** Looks the token up in the catalog: an unknown token is ignored,
        `Reset` empties the stack, anything else is appended. */
    method PerformOperation(operationString: string)
      requires Valid()
      modifies this
      ensures Valid()
      ensures operationsStack == EntryStack.Performed(old(operationsStack), operations, operationString)
      ensures operationString !in operations ==> operationsStack == old(operationsStack)
      ensures operationString in operations && operations[operationString].Reset? ==> operationsStack == []
      ensures operationString in operations && !operations[operationString].Reset? ==>
                operationsStack == old(operationsStack) + [operations[operationString]]
    {
      if operationString in operations {
        var currOperation := operations[operationString];
        if currOperation.Reset? {
          ResetCalculator();
        } else {
          EntryStack.PerformKeepsNoReset(operationsStack, operations, operationString);
          operationsStack := operationsStack + [currOperation];
        }
      }
    }

    /** Removes the last entry; does nothing on an empty stack. */
    method Undo()
      requires Valid()
      modifies this
      ensures Valid()
      ensures operationsStack == EntryStack.Undone(old(operationsStack))
      ensures old(operationsStack) == [] ==> operationsStack == []
      ensures old(operationsStack) != [] ==> operationsStack == old(operationsStack)[..|old(operationsStack)| - 1]
    {
      if |operationsStack| == 0 {
        return;
      }
      operationsStack := operationsStack[..|operationsStack| - 1];
    }

    /** Replays the stack against the variable snapshot. It changes nothing
        (no `modifies`), and since the stack holds no `Reset` the branch that
        would clear the stack is never taken. */
    method Evaluate(variables: Variables) returns (result: real, isPending: bool, description: string)
      requires Valid()
      ensures Evaluator.Evaluation(result, isPending, description)
              == Evaluator.Evaluate(operationsStack, variables, format)
    {
      var accumulator := 0.0;
      var calculatorDescription := "";
      var accumulatorDescription := "";
      var pendingOperation: Option<Evaluator.PendingBinaryOperationInfo> := None;
      for i := 0 to |operationsStack|
        invariant Evaluator.EvalState(accumulator, calculatorDescription, accumulatorDescription, pendingOperation)
                  == Evaluator.Replay(operationsStack[..i], variables, format)
      {
        var currOperation := operationsStack[i];
        Evaluator.ReplayAppend(operationsStack[..i], currOperation, variables, format);
        assert operationsStack[..i + 1] == operationsStack[..i] + [currOperation];
        match currOperation
        case Constant(d, value) =>
          accumulator := value;
          accumulatorDescription := d;
        case OperandEntry(_, operand) =>
          match operand {
            case Number(number) =>
              accumulator := number;
              accumulatorDescription := format(number);
              if pendingOperation.None? {
                calculatorDescription := "";
              }
            case Variable(varName) =>
              accumulatorDescription := varName;
              if variables.Some? && varName in variables.value {
                accumulator := variables.value[varName];
              } else {
                accumulator := 0.0;
              }
              if pendingOperation.None? {
                calculatorDescription := "";
              }
          }
        case UnaryOperation(d, fn) =>
          accumulator := fn(accumulator);
          if accumulatorDescription == "" {
            calculatorDescription := d + "(" + calculatorDescription + ")";
          } else {
            calculatorDescription := calculatorDescription + " " + d + "(" + accumulatorDescription + ")";
          }
          accumulatorDescription := "";
        case BinaryOperation(d, fn) =>
          if calculatorDescription != "" && accumulatorDescription != "" {
            calculatorDescription := calculatorDescription + " ";
          }
          calculatorDescription := calculatorDescription + accumulatorDescription;
          var operationResult := Evaluator.ExecutePendingOperation(pendingOperation, accumulator, calculatorDescription);
          if operationResult.result.Some? {
            accumulator := operationResult.result.value;
          }
          pendingOperation := Some(Evaluator.PendingBinaryOperationInfo(fn, accumulator));
          calculatorDescription := calculatorDescription + " " + d;
        case OperationWithoutArgument(d, fn) =>
          pendingOperation := None;
          accumulator := fn();
          calculatorDescription := d + "(" + accumulatorDescription + ")";
          accumulatorDescription := "";
        case Equals(_) =>
          if accumulatorDescription != "" {
            calculatorDescription := calculatorDescription + " " + accumulatorDescription;
            accumulatorDescription := "";
          }
          var operationResult := Evaluator.ExecutePendingOperation(pendingOperation, accumulator, calculatorDescription);
          if operationResult.result.Some? {
            accumulator := operationResult.result.value;
          }
          pendingOperation := None;
        case Reset =>
          assert false;
      }
      assert operationsStack[..|operationsStack|] == operationsStack;
      result, isPending, description := accumulator, pendingOperation.Some?, calculatorDescription;
    }

    /** The result of evaluating without a variable snapshot. */
    method Result() returns (r: real)
      requires Valid()
      ensures r == Evaluator.Evaluate(operationsStack, None, format).result
    {
      var pending, description;
      r, pending, description := Evaluate(None);
    }

    /** The formatted result of evaluating without a variable snapshot. */
    method DisplayValue() returns (s: string)
      requires Valid()
      ensures s == format(Evaluator.Evaluate(operationsStack, None, format).result)
    {
      var r := Result();
      s := format(r);
    }

    /** Whether a binary operation waits, evaluating without a snapshot. */
    method ResultIsPending() returns (b: bool)
      requires Valid()
      ensures b == Evaluator.Evaluate(operationsStack, None, format).isPending
    {
      var result, description;
      result, b, description := Evaluate(None);
    }

    /** The description, evaluating without a variable snapshot. */
    method Description() returns (s: string)
      requires Valid()
      ensures s == Evaluator.Evaluate(operationsStack, None, format).description
    {
      var result, pending;
      result, pending, s := Evaluate(None);
    }
  }
}
