/** The fixed table from key-pad tokens to operation entries. */
module Catalog {
  import opened Entries

  /** The numeric primitives the catalog takes from the platform. Only the
      operations that real arithmetic cannot express exactly are left opaque:
      the two constants, the square root, the trigonometric functions, the
      random draw and the IEEE value of a division by zero. */
  datatype Libm = Libm(
    pi: real,
    e: real,
    sqrt: real -> real,
    cos: real -> real,
    sin: real -> real,
    random: () -> real,
    divideByZero: real -> real)

  /** The closure of "+": the sum, less the second operand, is the first. */
  function Add(first: real, second: real): (r: real)
    ensures r - second == first
  {
    first + second
  }

  /** The closure of "-": the second operand is taken from the first. */
  function Subtract(first: real, second: real): (r: real)
    ensures r + second == first
  {
    first - second
  }

  /** The closure of "×": for a non-zero second operand, dividing the
      product by it gives back the first. */
  function Multiply(first: real, second: real): (r: real)
    ensures second != 0.0 ==> r / second == first
  {
    first * second
  }

  /** The closure of "±": the additive inverse. */
  function Negate(x: real): (r: real)
    ensures r + x == 0.0
  {
    -x
  }

  /** The division closure of the catalog: `first / second`. */
  function Divide(lib: Libm, first: real, second: real): (r: real)
    ensures second != 0.0 ==> r * second == first
  {
    if second != 0.0 then first / second else lib.divideByZero(first)
  }

  /** `Divide` with the platform fixed, as a closure. */
  function Quotient(lib: Libm): (q: (real, real) -> real)
    ensures forall first, second :: q(first, second) == Divide(lib, first, second)
  {
    (first: real, second: real) => Divide(lib, first, second)
  }

  /** The catalog: thirteen tokens, built once. */
  function Operations(lib: Libm): (ops: map<string, Operation>)
    ensures ops.Keys == {"π", "e", "√", "cos", "sin", "+", "-", "×", "÷", "±", "=", "0～1", "C"}
  {
    map[
      "π" := Constant("π", lib.pi),
      "e" := Constant("e", lib.e),
      "√" := UnaryOperation("√", lib.sqrt),
      "cos" := UnaryOperation("cos", lib.cos),
      "sin" := UnaryOperation("sin", lib.sin),
      "+" := BinaryOperation("+", Add),
      "-" := BinaryOperation("-", Subtract),
      "×" := BinaryOperation("×", Multiply),
      "÷" := BinaryOperation("÷", Quotient(lib)),
      "±" := UnaryOperation("±", Negate),
      "=" := Equals("="),
      "0～1" := OperationWithoutArgument("0～1", lib.random),
      "C" := Reset
    ]
  }

  /** "C" is the only token that maps to `Reset`, and every other entry is
      labelled with its own token. */
  lemma {:induction false} OnlyClearResets(lib: Libm)
    ensures forall t :: t in Operations(lib) ==> (Operations(lib)[t].Reset? <==> t == "C")
    ensures forall t :: t in Operations(lib) && t != "C" ==> Operations(lib)[t].symbol == t
  {
    var ops := Operations(lib);
    forall t | t in ops
      ensures ops[t].Reset? <==> t == "C"
      ensures t != "C" ==> ops[t].symbol == t
    {
      if t == "π" {} else if t == "e" {} else if t == "√" {} else if t == "cos" {}
      else if t == "sin" {} else if t == "+" {} else if t == "-" {} else if t == "×" {}
      else if t == "÷" {} else if t == "±" {} else if t == "=" {} else if t == "0～1" {}
      else { assert t == "C"; }
    }
  }

  /** The entries the scenarios use, as values. */
  lemma EntryValues(lib: Libm)
    ensures Operations(lib)["+"] == BinaryOperation("+", Add)
    ensures Operations(lib)["÷"] == BinaryOperation("÷", Quotient(lib))
    ensures Operations(lib)["="] == Equals("=")
    ensures Operations(lib)["√"] == UnaryOperation("√", lib.sqrt)
  {
  }

  /** Which shape each token has. */
  lemma OperationKinds(lib: Libm)
    ensures Operations(lib)["π"].Constant? && Operations(lib)["e"].Constant?
    ensures Operations(lib)["√"].UnaryOperation? && Operations(lib)["cos"].UnaryOperation?
    ensures Operations(lib)["sin"].UnaryOperation? && Operations(lib)["±"].UnaryOperation?
    ensures Operations(lib)["+"].BinaryOperation? && Operations(lib)["-"].BinaryOperation?
    ensures Operations(lib)["×"].BinaryOperation? && Operations(lib)["÷"].BinaryOperation?
    ensures Operations(lib)["="].Equals? && Operations(lib)["0～1"].OperationWithoutArgument?
  {
  }

  /** Binary closures take the first-entered operand as their left argument:
      "-" is `first - second` and "÷" is `first / second`. */
  lemma BinaryOperandOrder(lib: Libm, first: real, second: real)
    ensures Operations(lib)["+"].binary(first, second) == first + second
    ensures Operations(lib)["-"].binary(first, second) == first - second
    ensures Operations(lib)["×"].binary(first, second) == first * second
    ensures second != 0.0 ==> Operations(lib)["÷"].binary(first, second) == first / second
    ensures Operations(lib)["±"].unary(first) == -first
  {
  }
}
