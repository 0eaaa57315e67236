/** Concrete key sequences and what evaluating them gives. Each proof
    spells out the loop state after every entry. */
module Scenarios {
  import opened Entries
  import Catalog
  import Evaluator
  import Calculator

  function Num(n: real): Operation
  {
    OperandEntry("", Number(n))
  }

  /** The catalog's "+" and "=" entries (see `Catalog.EntryValues`). */
  const Plus := BinaryOperation("+", Catalog.Add)
  const Eq := Equals("=")

  /** Replaying two entries is stepping through them in order. */
  lemma Replay2(a: Operation, b: Operation, variables: Variables, format: real -> string)
    ensures Evaluator.Replay([a, b], variables, format)
            == Evaluator.Step(Evaluator.Step(Evaluator.Initial, a, variables, format), b, variables, format)
  {
    Evaluator.ReplayAppend([], a, variables, format);
    assert [] + [a] == [a];
    Evaluator.ReplayAppend([a], b, variables, format);
    assert [a] + [b] == [a, b];
  }

  /** Replaying three entries is one more step after the first two. */
  lemma Replay3(a: Operation, b: Operation, c: Operation, variables: Variables, format: real -> string)
    ensures Evaluator.Replay([a, b, c], variables, format)
            == Evaluator.Step(Evaluator.Replay([a, b], variables, format), c, variables, format)
  {
    Evaluator.ReplayAppend([a, b], c, variables, format);
    assert [a, b] + [c] == [a, b, c];
  }

  /** Replaying four entries is one more step after the first three. */
  lemma Replay4(a: Operation, b: Operation, c: Operation, d: Operation, variables: Variables,
                format: real -> string)
    ensures Evaluator.Replay([a, b, c, d], variables, format)
            == Evaluator.Step(Evaluator.Replay([a, b, c], variables, format), d, variables, format)
  {
    Evaluator.ReplayAppend([a, b, c], d, variables, format);
    assert [a, b, c] + [d] == [a, b, c, d];
  }

  /** The loop state after `2 +`. */
  lemma AfterTwoPlus(variables: Variables, format: real -> string)
    requires format(2.0) == "2"
    ensures Evaluator.Step(Evaluator.Step(Evaluator.Initial, Num(2.0), variables, format), Plus, variables, format)
            == Evaluator.EvalState(2.0, "2 +", "2", Some(Evaluator.PendingBinaryOperationInfo(Catalog.Add, 2.0)))
  {
    var st1 := Evaluator.Step(Evaluator.Initial, Num(2.0), variables, format);
    assert st1 == Evaluator.EvalState(2.0, "", "2", None);
    assert "2" + " " + "+" == "2 +";
  }

  /** `2 + 3 =` gives 5, nothing pending, description "2 + 3". */
  lemma TwoPlusThreeEquals(variables: Variables, format: real -> string)
    requires format(2.0) == "2" && format(3.0) == "3"
    ensures Evaluator.Evaluate([Num(2.0), Plus, Num(3.0), Eq], variables, format)
            == Evaluator.Evaluation(5.0, false, "2 + 3")
  {
    Replay2(Num(2.0), Plus, variables, format);
    Replay3(Num(2.0), Plus, Num(3.0), variables, format);
    Replay4(Num(2.0), Plus, Num(3.0), Eq, variables, format);
    AfterTwoPlus(variables, format);
    var pending := Some(Evaluator.PendingBinaryOperationInfo(Catalog.Add, 2.0));
    var st2 := Evaluator.EvalState(2.0, "2 +", "2", pending);
    var st3 := Evaluator.Step(st2, Num(3.0), variables, format);
    assert st3 == Evaluator.EvalState(3.0, "2 +", "3", pending);
    assert "2 +" + " " + "3" == "2 + 3";
    assert Evaluator.Step(st3, Eq, variables, format) == Evaluator.EvalState(5.0, "2 + 3", "", None);
  }

  /** `2 + 3 +` shows the intermediate 5 with a second addition pending and
      description "2 + 3 +". */
  lemma TwoPlusThreePlus(variables: Variables, format: real -> string)
    requires format(2.0) == "2" && format(3.0) == "3"
    ensures Evaluator.Evaluate([Num(2.0), Plus, Num(3.0), Plus], variables, format)
            == Evaluator.Evaluation(5.0, true, "2 + 3 +")
  {
    Replay2(Num(2.0), Plus, variables, format);
    Replay3(Num(2.0), Plus, Num(3.0), variables, format);
    Replay4(Num(2.0), Plus, Num(3.0), Plus, variables, format);
    AfterTwoPlus(variables, format);
    var pending := Some(Evaluator.PendingBinaryOperationInfo(Catalog.Add, 2.0));
    var st2 := Evaluator.EvalState(2.0, "2 +", "2", pending);
    var st3 := Evaluator.Step(st2, Num(3.0), variables, format);
    assert st3 == Evaluator.EvalState(3.0, "2 +", "3", pending);
    assert "2 +" + " " + "3" == "2 + 3";
    assert "2 + 3" + " " + "+" == "2 + 3 +";
    var outcome := Evaluator.ExecutePendingOperation(pending, 3.0, "2 + 3");
    assert outcome.result == Some(5.0);
    assert Evaluator.Step(st3, Plus, variables, format)
           == Evaluator.EvalState(5.0, "2 + 3 +", "3", Some(Evaluator.PendingBinaryOperationInfo(Catalog.Add, 5.0)));
  }

  /** `2 + 3` without a closing key leaves the addition pending, described
      as "2 +". */
  lemma TwoPlusThreeOpen(variables: Variables, format: real -> string)
    requires format(2.0) == "2"
    ensures var e := Evaluator.Evaluate([Num(2.0), Plus, Num(3.0)], variables, format);
      e.isPending && e.description == "2 +"
  {
    Replay2(Num(2.0), Plus, variables, format);
    Replay3(Num(2.0), Plus, Num(3.0), variables, format);
    AfterTwoPlus(variables, format);
  }

  /** A unary operation right after a fresh operand keeps a leading space:
      `4 √` is described as " √(4)". */
  lemma SquareRootOfFresh(lib: Catalog.Libm, variables: Variables, format: real -> string)
    requires format(4.0) == "4"
    ensures Evaluator.Evaluate([Num(4.0), UnaryOperation("√", lib.sqrt)], variables, format)
            == Evaluator.Evaluation(lib.sqrt(4.0), false, " √(4)")
  {
    var root := UnaryOperation("√", lib.sqrt);
    Replay2(Num(4.0), root, variables, format);
    var st1 := Evaluator.Step(Evaluator.Initial, Num(4.0), variables, format);
    assert st1 == Evaluator.EvalState(4.0, "", "4", None);
    assert "" + " " + "√" + "(" + "4" + ")" == " √(4)";
    assert Evaluator.Step(st1, root, variables, format) == Evaluator.EvalState(lib.sqrt(4.0), " √(4)", "", None);
  }

  /** `=` after a bare operand is described with a leading space: " 2". */
  lemma EqualsAfterOperand(variables: Variables, format: real -> string)
    requires format(2.0) == "2"
    ensures Evaluator.Evaluate([Num(2.0), Eq], variables, format) == Evaluator.Evaluation(2.0, false, " 2")
  {
    Replay2(Num(2.0), Eq, variables, format);
    var st1 := Evaluator.Step(Evaluator.Initial, Num(2.0), variables, format);
    assert st1 == Evaluator.EvalState(2.0, "", "2", None);
    assert "" + " " + "2" == " 2";
    assert Evaluator.Step(st1, Eq, variables, format) == Evaluator.EvalState(2.0, " 2", "", None);
  }

  /** `10 ÷ 2 =` with the catalog's "÷" entry is 5: the first-entered
      operand is the dividend. */
  lemma DivisionOrder(lib: Catalog.Libm, variables: Variables, format: real -> string)
    ensures Evaluator.Evaluate([Num(10.0), Catalog.Operations(lib)["÷"], Num(2.0), Eq], variables, format).result == 5.0
  {
    Catalog.EntryValues(lib);
    var divide := BinaryOperation("÷", Catalog.Quotient(lib));
    assert Catalog.Operations(lib)["÷"] == divide;
    Replay2(Num(10.0), divide, variables, format);
    Replay3(Num(10.0), divide, Num(2.0), variables, format);
    Replay4(Num(10.0), divide, Num(2.0), Eq, variables, format);
    var st1 := Evaluator.Step(Evaluator.Initial, Num(10.0), variables, format);
    var st2 := Evaluator.Step(st1, divide, variables, format);
    assert st2.accumulator == 10.0 && st2.pendingOperation.Some?;
    assert st2.pendingOperation.value == Evaluator.PendingBinaryOperationInfo(Catalog.Quotient(lib), 10.0);
    var st3 := Evaluator.Step(st2, Num(2.0), variables, format);
    assert st3.accumulator == 2.0 && st3.pendingOperation == st2.pendingOperation;
    assert Catalog.Quotient(lib)(10.0, 2.0) == 5.0;
  }

  /** The same variable entry evaluates to 0 against an empty snapshot and to
      the bound value against a snapshot that binds it. */
  lemma VariableAtEvaluationTime(format: real -> string)
    ensures Evaluator.Evaluate([OperandEntry("Var", Variable("x"))], Some(map[]), format)
            == Evaluator.Evaluation(0.0, false, "")
    ensures Evaluator.Evaluate([OperandEntry("Var", Variable("x"))], Some(map["x" := 7.0]), format)
            == Evaluator.Evaluation(7.0, false, "")
  {
    Evaluator.VariableResolution([], "Var", "x", Some(map[]), format);
    Evaluator.VariableResolution([], "Var", "x", Some(map["x" := 7.0]), format);
  }

  /** The key presses 2, +, 3, = on a fresh calculator, then an undo of the
      `=`: the first evaluation completes the sum, the second shows the
      addition still pending. */
  method PressTwoPlusThree(lib: Catalog.Libm, format: real -> string)
    returns (complete: Evaluator.Evaluation, afterUndo: Evaluator.Evaluation)
    requires format(2.0) == "2" && format(3.0) == "3"
    ensures complete == Evaluator.Evaluation(5.0, false, "2 + 3")
    ensures afterUndo.isPending && afterUndo.description == "2 +"
  {
    Catalog.EntryValues(lib);
    var model := new Calculator.CalculatorModel(lib, format);
    model.SetOperand(2.0);
    model.PerformOperation("+");
    assert model.operationsStack == [Num(2.0), Plus];
    model.SetOperand(3.0);
    model.PerformOperation("=");
    assert model.operationsStack == [Num(2.0), Plus, Num(3.0), Eq];
    TwoPlusThreeEquals(None, format);
    var result, isPending, description := model.Evaluate(None);
    complete := Evaluator.Evaluation(result, isPending, description);
    model.Undo();
    assert model.operationsStack == [Num(2.0), Plus, Num(3.0)];
    TwoPlusThreeOpen(None, format);
    result, isPending, description := model.Evaluate(None);
    afterUndo := Evaluator.Evaluation(result, isPending, description);
  }
}
