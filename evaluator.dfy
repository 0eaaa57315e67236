/** The evaluator as a pure left-to-right fold over the operation stack. The
    class in calculator.dfy runs the same fold as a loop and is proved to
    return what `Evaluate` gives. */
module Evaluator {
  import opened Entries

  /** The one-slot register of a deferred binary operation. */
  datatype PendingBinaryOperationInfo =
    PendingBinaryOperationInfo(binaryFunction: (real, real) -> real, firstOperand: real)

  /** What `executePendingOperation` returns. */
  datatype PendingOutcome = PendingOutcome(result: Option<real>, isPending: bool, description: string)

  /** What an evaluation returns: the accumulator, whether a binary operation
      still waits for its second operand, and the running description. */
  datatype Evaluation = Evaluation(result: real, isPending: bool, description: string)

  /** The four values the evaluation loop carries from entry to entry. */
  datatype EvalState = EvalState(
    accumulator: real,
    calculatorDescription: string,
    accumulatorDescription: string,
    pendingOperation: Option<PendingBinaryOperationInfo>)

  const Initial := EvalState(0.0, "", "", None)

  /** Resolves a pending binary operation against the current operand, with
      the recorded first operand on the left. */
  function ExecutePendingOperation(pending: Option<PendingBinaryOperationInfo>, operand: real,
                                   description: string): (r: PendingOutcome)
    ensures r.result.Some? <==> pending.Some?
    ensures pending.Some? ==>
      r.result.value == pending.value.binaryFunction(pending.value.firstOperand, operand)
    ensures !r.isPending
    ensures r.description == (if pending.Some? then description + " " else "")
  {
    match pending
    case None => PendingOutcome(None, false, "")
    case Some(p) => PendingOutcome(Some(p.binaryFunction(p.firstOperand, operand)), false, description + " ")
  }

  /** The value a variable has in the snapshot, 0 when it is unbound or when
      there is no snapshot at all. */
  function Lookup(variables: Variables, name: string): (v: real)
    ensures variables.Some? && name in variables.value ==> v == variables.value[name]
    ensures (variables.None? || name !in variables.value) ==> v == 0.0
  {
    match variables
    case None => 0.0
    case Some(m) => if name in m then m[name] else 0.0
  }

  /** One iteration of the evaluation loop. */
  function Step(st: EvalState, op: Operation, variables: Variables, format: real -> string): (r: EvalState)
    ensures op.BinaryOperation? ==> r.pendingOperation.Some?
    ensures ClosesPending(op) ==> r.pendingOperation.None?
    ensures !op.BinaryOperation? && !ClosesPending(op) ==> r.pendingOperation == st.pendingOperation
  {
    match op
    case Constant(d, value) =>
      st.(accumulator := value, accumulatorDescription := d)
    case OperandEntry(_, Number(n)) =>
      EvalState(n, if st.pendingOperation.None? then "" else st.calculatorDescription,
                format(n), st.pendingOperation)
    case OperandEntry(_, Variable(name)) =>
      EvalState(Lookup(variables, name), if st.pendingOperation.None? then "" else st.calculatorDescription,
                name, st.pendingOperation)
    case UnaryOperation(d, f) =>
      var desc := if st.accumulatorDescription == "" then d + "(" + st.calculatorDescription + ")"
                  else st.calculatorDescription + " " + d + "(" + st.accumulatorDescription + ")";
      EvalState(f(st.accumulator), desc, "", st.pendingOperation)
    case BinaryOperation(d, f) =>
      var joined := if st.calculatorDescription != "" && st.accumulatorDescription != ""
                    then st.calculatorDescription + " " else st.calculatorDescription;
      var desc := joined + st.accumulatorDescription;
      var outcome := ExecutePendingOperation(st.pendingOperation, st.accumulator, desc);
      var acc := if outcome.result.Some? then outcome.result.value else st.accumulator;
      EvalState(acc, desc + " " + d, st.accumulatorDescription, Some(PendingBinaryOperationInfo(f, acc)))
    case OperationWithoutArgument(d, f) =>
      EvalState(f(), d + "(" + st.accumulatorDescription + ")", "", None)
    case Equals(_) =>
      var desc := if st.accumulatorDescription != "" then st.calculatorDescription + " " + st.accumulatorDescription
                  else st.calculatorDescription;
      var outcome := ExecutePendingOperation(st.pendingOperation, st.accumulator, desc);
      var acc := if outcome.result.Some? then outcome.result.value else st.accumulator;
      EvalState(acc, desc, "", None)
    case Reset =>
      st.(calculatorDescription := "", accumulatorDescription := "")
  }

  /** The loop state after the entries of `ops`, in order. */
  function Replay(ops: seq<Operation>, variables: Variables, format: real -> string): (r: EvalState)
    ensures ops == [] ==> r == Initial
    ensures (forall i :: 0 <= i < |ops| ==> !ops[i].BinaryOperation?) ==> r.pendingOperation.None?
    decreases |ops|
  {
    if ops == [] then Initial
    else Step(Replay(ops[..|ops| - 1], variables, format), ops[|ops| - 1], variables, format)
  }

  /** Evaluates a stack against a variable snapshot; an empty stack gives
      `(0, false, "")`. */
  function Evaluate(ops: seq<Operation>, variables: Variables, format: real -> string): (r: Evaluation)
    ensures ops == [] ==> r == Evaluation(0.0, false, "")
  {
    var st := Replay(ops, variables, format);
    Evaluation(st.accumulator, st.pendingOperation.Some?, st.calculatorDescription)
  }

  /** Appending an entry runs exactly one more iteration. */
  lemma ReplayAppend(ops: seq<Operation>, op: Operation, variables: Variables, format: real -> string)
    ensures Replay(ops + [op], variables, format) == Step(Replay(ops, variables, format), op, variables, format)
  {
    assert (ops + [op])[..|ops|] == ops;
  }

  /** An entry that clears the pending register. */
  predicate ClosesPending(op: Operation)
  {
    op.Equals? || op.OperationWithoutArgument?
  }

  /** The binary entry at `i` has no `Equals` or nullary entry after it. */
  ghost predicate OpenAt(ops: seq<Operation>, i: int)
  {
    0 <= i < |ops| && ops[i].BinaryOperation? &&
    forall j :: i < j < |ops| ==> !ClosesPending(ops[j])
  }

  /** Some binary entry has no `Equals` or nullary entry after it. */
  ghost predicate HasOpenBinary(ops: seq<Operation>)
  {
    exists i :: OpenAt(ops, i)
  }

  /** `isPending` holds exactly when some binary entry has no `Equals` or
      nullary entry after it. */
  lemma {:induction false} IsPendingIff(ops: seq<Operation>, variables: Variables, format: real -> string)
    ensures Evaluate(ops, variables, format).isPending <==> HasOpenBinary(ops)
    decreases |ops|
  {
    if ops != [] {
      var n := |ops| - 1;
      var prefix, last := ops[..n], ops[n];
      assert ops == prefix + [last];
      IsPendingIff(prefix, variables, format);
      if last.BinaryOperation? {
        assert OpenAt(ops, n);
      } else if !ClosesPending(last) {
        if HasOpenBinary(ops) {
          var i :| OpenAt(ops, i);
          assert OpenAt(prefix, i);
        }
        if HasOpenBinary(prefix) {
          var i :| OpenAt(prefix, i);
          assert OpenAt(ops, i);
        }
      }
    }
  }

  /** A binary or `Equals` entry first resolves the pending operation
      `{f, a}` to `f(a, accumulator)` and leaves the accumulator alone when
      nothing is pending; a binary entry then records the new accumulator as
      the first operand of its own pending operation, `Equals` clears it. */
  lemma PendingResolution(ops: seq<Operation>, op: Operation, variables: Variables, format: real -> string)
    requires op.BinaryOperation? || op.Equals?
    ensures var before, after := Replay(ops, variables, format), Replay(ops + [op], variables, format);
      && (before.pendingOperation.None? ==> after.accumulator == before.accumulator)
      && (before.pendingOperation.Some? ==>
            after.accumulator == before.pendingOperation.value.binaryFunction(
              before.pendingOperation.value.firstOperand, before.accumulator))
      && (op.BinaryOperation? ==>
            after.pendingOperation == Some(PendingBinaryOperationInfo(op.binary, after.accumulator)))
      && (op.Equals? ==> after.pendingOperation.None?)
  {
    ReplayAppend(ops, op, variables, format);
  }

  /** A variable entry takes its value from the snapshot at evaluation time,
      0 when unbound, and is described by its name either way. */
  lemma VariableResolution(ops: seq<Operation>, tag: string, name: string, variables: Variables,
                           format: real -> string)
    ensures var after := Replay(ops + [OperandEntry(tag, Variable(name))], variables, format);
      && after.accumulatorDescription == name
      && (variables.Some? && name in variables.value ==> after.accumulator == variables.value[name])
      && (variables.None? || name !in variables.value ==> after.accumulator == 0.0)
  {
    ReplayAppend(ops, OperandEntry(tag, Variable(name)), variables, format);
  }

  /** How each kind of entry treats the two description buffers. */
  lemma DescriptionBuffers(ops: seq<Operation>, op: Operation, variables: Variables, format: real -> string)
    ensures var before, after := Replay(ops, variables, format), Replay(ops + [op], variables, format);
      && (op.UnaryOperation? || op.OperationWithoutArgument? || op.Equals? ==> after.accumulatorDescription == "")
      && (op.OperandEntry? && before.pendingOperation.None? ==> after.calculatorDescription == "")
      && (op.OperandEntry? && before.pendingOperation.Some? ==>
            after.calculatorDescription == before.calculatorDescription)
      && (op.Constant? ==> after.calculatorDescription == before.calculatorDescription)
      && (op.BinaryOperation? ==> after.accumulatorDescription == before.accumulatorDescription)
      && (op.OperandEntry? && op.operand.Number? ==> after.accumulatorDescription == format(op.operand.number))
  {
    ReplayAppend(ops, op, variables, format);
  }

  /** A unary entry folds the dangling operand into the description as
      `name(operand)`, after a space; with no dangling operand it wraps the
      whole description instead. */
  lemma UnaryDescription(ops: seq<Operation>, d: string, f: real -> real, variables: Variables,
                         format: real -> string)
    ensures var before, after := Replay(ops, variables, format),
                                 Replay(ops + [UnaryOperation(d, f)], variables, format);
      && after.accumulator == f(before.accumulator)
      && (before.accumulatorDescription == "" ==>
            after.calculatorDescription == d + "(" + before.calculatorDescription + ")")
      && (before.accumulatorDescription != "" ==>
            after.calculatorDescription == before.calculatorDescription + " " + d + "(" + before.accumulatorDescription + ")")
  {
    ReplayAppend(ops, UnaryOperation(d, f), variables, format);
  }

  /** The stack mentions no variable. */
  predicate NoVariables(ops: seq<Operation>)
  {
    forall i :: 0 <= i < |ops| ==> !(ops[i].OperandEntry? && ops[i].operand.Variable?)
  }

  /** The snapshot is consulted only by variable entries: a stack without
      them evaluates the same against any two snapshots. */
  lemma {:induction false} SnapshotIrrelevant(ops: seq<Operation>, v1: Variables, v2: Variables,
                                              format: real -> string)
    requires NoVariables(ops)
    ensures Evaluate(ops, v1, format) == Evaluate(ops, v2, format)
    ensures Replay(ops, v1, format) == Replay(ops, v2, format)
    decreases |ops|
  {
    if ops != [] {
      var n := |ops| - 1;
      assert NoVariables(ops[..n]);
      SnapshotIrrelevant(ops[..n], v1, v2, format);
    }
  }
}
