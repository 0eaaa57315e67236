/** What `undo` and `performOperation` do to the operation stack, as values,
    and what evaluation then sees. */
module EntryStack {
  import opened Entries
  import Catalog
  import Evaluator

  /** The stack after `undo`: the last entry removed, an empty stack kept. */
  function Undone(stack: seq<Operation>): (r: seq<Operation>)
    ensures stack == [] ==> r == []
    ensures stack != [] ==> r + [stack[|stack| - 1]] == stack
    ensures NoReset(stack) ==> NoReset(r)
  {
    if stack == [] then [] else stack[..|stack| - 1]
  }

  /** The stack after `performOperation(token)` against the catalog `ops`:
      an unknown token changes nothing, `Reset` empties the stack, any other
      catalog entry is appended. */
  function Performed(stack: seq<Operation>, ops: map<string, Operation>, token: string): (r: seq<Operation>)
    ensures token !in ops ==> r == stack
    ensures token in ops && ops[token].Reset? ==> r == []
    ensures token in ops && !ops[token].Reset? ==>
              |r| == |stack| + 1 && r[..|stack|] == stack && r[|stack|] == ops[token]
  {
    if token !in ops then stack
    else if ops[token].Reset? then []
    else stack + [ops[token]]
  }

  /** Undo after an append restores the stack exactly, and with it every
      evaluation of it. */
  lemma UndoAfterAppend(stack: seq<Operation>, op: Operation, variables: Variables, format: real -> string)
    ensures Undone(stack + [op]) == stack
    ensures Evaluator.Evaluate(Undone(stack + [op]), variables, format) == Evaluator.Evaluate(stack, variables, format)
  {
    assert (stack + [op])[..|stack|] == stack;
  }

  /** Undo after an operation that was appended restores the stack. */
  lemma UndoAfterPerform(stack: seq<Operation>, ops: map<string, Operation>, token: string)
    requires token in ops && !ops[token].Reset?
    ensures Undone(Performed(stack, ops, token)) == stack
  {
    assert (stack + [ops[token]])[..|stack|] == stack;
  }

  /** No operation, whatever the catalog holds, puts `Reset` on the stack. */
  lemma {:induction false} PerformKeepsNoReset(stack: seq<Operation>, ops: map<string, Operation>, token: string)
    requires NoReset(stack)
    ensures NoReset(Performed(stack, ops, token))
  {
    var r := Performed(stack, ops, token);
    if token in ops && !ops[token].Reset? {
      forall i | 0 <= i < |r| ensures !r[i].Reset? {
        if i < |stack| { assert r[i] == stack[i]; }
      }
    }
  }

  /** "C" empties the stack, which then evaluates to `(0, false, "")`. */
  lemma ClearEvaluatesToZero(stack: seq<Operation>, lib: Catalog.Libm, variables: Variables, format: real -> string)
    ensures Performed(stack, Catalog.Operations(lib), "C") == []
    ensures Evaluator.Evaluate(Performed(stack, Catalog.Operations(lib), "C"), variables, format)
            == Evaluator.Evaluation(0.0, false, "")
  {
  }
}
