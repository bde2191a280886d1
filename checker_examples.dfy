/**
 * Checks of small programs, written as the trees the parser builds: which error
 * stops each one, and what the annotations of a successful one are.
 */
module CheckerExamples {
  import opened Wrappers
  import opened Ast
  import opened CheckerSpec

  /** `loop { break; }` is accepted; `loop { } break;` is not: inLoop holds only inside the loop. */
  lemma BreakOnlyInLoop()
    ensures CheckProgram(Program([Loop([Break])])).Success?
    ensures CheckProgram(Program([Loop([]), Break])) == Failure(UnexpectedBreak)
  {
  }

  /** `function simple() { } return 1;`: a return outside any function. */
  lemma ReturnOutsideFunction()
    ensures CheckProgram(Program([FunctionDefinition("simple", [], []), Return(LiteralNumber(1))]))
         == Failure(UnexpectedReturn)
  {
  }

  /** `function foo() { } function foo() { }`, and a definition of the builtin `print`. */
  lemma DuplicateDefinitions()
    ensures CheckProgram(Program([FunctionDefinition("foo", [], []), FunctionDefinition("foo", [], [])]))
         == Failure(AlreadyDefined("foo"))
    ensures CheckProgram(Program([FunctionDefinition("print", ["x"], [])])) == Failure(AlreadyDefined("print"))
  {
  }

  /** `foo := 1; function foo() { }`: the name is already a variable. */
  lemma DefinitionAfterAssignment()
    ensures CheckProgram(Program([Assignment("foo", LiteralNumber(1), None), FunctionDefinition("foo", [], [])]))
         == Failure(DefinedAsVariable("foo"))
  {
  }

  /** `x := x;` at the top level: the target is declared before its right-hand side is checked. */
  lemma SelfAssignment()
    ensures CheckProgram(Program([Assignment("x", Identifier("x", None), None)]))
         == Success(Program([Assignment("x", Identifier("x", Some(Global)), Some(Global))]))
  {
    var sc := InitialScope().(globals := ["x"]);
    var s := Assignment("x", Identifier("x", Some(Global)), Some(Global));
    assert InitialScope().globals + ["x"] == ["x"];
    assert CheckStatement(InitialScope(), Assignment("x", Identifier("x", None), None)) == Success(Checked(sc, s));
    assert CheckStatements(sc, []) == Success(Checked(sc, []));
    assert [s] + [] == [s];
  }

  /** `function simple() { one := 1; } two := one + 1;`: a function's locals are not visible afterwards. */
  lemma LocalsDoNotEscape()
    ensures CheckProgram(Program([
              FunctionDefinition("simple", [], [Assignment("one", LiteralNumber(1), None)]),
              Assignment("two", Operation(Add, Identifier("one", None), LiteralNumber(1)), None)]))
         == Failure(UndefinedIdentifier("one"))
  {
  }

  /** `if (1) { one := 1; } two := one + 1;`: a block opens no scope of its own. */
  lemma NoBlockScope()
    ensures CheckProgram(Program([
              If(LiteralNumber(1), [Assignment("one", LiteralNumber(1), None)]),
              Assignment("two", Operation(Add, Identifier("one", None), LiteralNumber(1)), None)]))
         == Success(Program([
              If(LiteralNumber(1), [Assignment("one", LiteralNumber(1), Some(Global))]),
              Assignment("two", Operation(Add, Identifier("one", Some(Global)), LiteralNumber(1)), Some(Global))]))
  {
    var one := Assignment("one", LiteralNumber(1), Some(Global));
    var two := Assignment("two", Operation(Add, Identifier("one", Some(Global)), LiteralNumber(1)), Some(Global));
    var sc1 := InitialScope().(globals := ["one"]);
    var sc2 := InitialScope().(globals := ["one", "two"]);
    assert InitialScope().globals + ["one"] == ["one"] && ["one"] + ["two"] == ["one", "two"];
    assert [Assignment("one", LiteralNumber(1), None)][1..] == [] && [one] + [] == [one];
    assert [Assignment("two", Operation(Add, Identifier("one", None), LiteralNumber(1)), None)][1..] == [];
    assert [two] + [] == [two];
    assert CheckStatements(InitialScope(), [Assignment("one", LiteralNumber(1), None)]) == Success(Checked(sc1, [one]));
    assert CheckStatement(InitialScope(), If(LiteralNumber(1), [Assignment("one", LiteralNumber(1), None)]))
        == Success(Checked(sc1, If(LiteralNumber(1), [one])));
    assert CheckStatement(sc1, Assignment("two", Operation(Add, Identifier("one", None), LiteralNumber(1)), None))
        == Success(Checked(sc2, two));
    assert CheckStatements(sc2, []) == Success(Checked(sc2, []));
    assert CheckStatements(sc1, [Assignment("two", Operation(Add, Identifier("one", None), LiteralNumber(1)), None)])
        == Success(Checked(sc2, [two]));
    var ss := [If(LiteralNumber(1), [Assignment("one", LiteralNumber(1), None)]),
               Assignment("two", Operation(Add, Identifier("one", None), LiteralNumber(1)), None)];
    assert ss[1..] == [Assignment("two", Operation(Add, Identifier("one", None), LiteralNumber(1)), None)];
    assert [If(LiteralNumber(1), [one])] + [two] == [If(LiteralNumber(1), [one]), two];
    assert CheckStatements(InitialScope(), ss) == Success(Checked(sc2, [If(LiteralNumber(1), [one]), two]));
  }

  /** `one := 1; one();` and `function simple() { } simple := 42;`: variables and functions do not mix. */
  lemma VariablesAndFunctions()
    ensures CheckProgram(Program([Assignment("one", LiteralNumber(1), None),
                                  ExpressionStatement(FunctionCall("one", [], None))]))
         == Failure(NotAFunction("one"))
    ensures CheckProgram(Program([FunctionDefinition("simple", [], []), Assignment("simple", LiteralNumber(42), None)]))
         == Failure(NotAVariable("simple"))
  {
  }

  /** `print(1);` calls the builtin; `print(1, 2);` has one actual too many; `fubar();` is unknown. */
  lemma BuiltinPrint()
    ensures CheckProgram(Program([ExpressionStatement(FunctionCall("print", [LiteralNumber(1)], None))]))
         == Success(Program([ExpressionStatement(FunctionCall("print", [LiteralNumber(1)], Some(Builtin)))]))
    ensures CheckProgram(Program([ExpressionStatement(FunctionCall("print", [LiteralNumber(1), LiteralNumber(2)], None))]))
         == Failure(WrongNumberOfArguments("print", 1, 2))
    ensures CheckProgram(Program([ExpressionStatement(FunctionCall("fubar", [], None))]))
         == Failure(UndefinedFunction("fubar"))
  {
    var call := FunctionCall("print", [LiteralNumber(1)], Some(Builtin));
    assert [LiteralNumber(1)][1..] == [] && [LiteralNumber(1)] + [] == [LiteralNumber(1)];
    assert CheckExpressions(InitialScope(), [LiteralNumber(1)]) == Success([LiteralNumber(1)]);
    assert CheckStatement(InitialScope(), ExpressionStatement(FunctionCall("print", [LiteralNumber(1)], None)))
        == Success(Checked(InitialScope(), ExpressionStatement(call)));
    assert CheckStatements(InitialScope(), []) == Success(Checked(InitialScope(), []));
    assert [ExpressionStatement(call)] + [] == [ExpressionStatement(call)];
  }

  /** `function f(n) { return f(n); }`: a function is registered before its body is checked. */
  lemma Recursion()
    ensures CheckProgram(Program([FunctionDefinition("f", ["n"], [Return(FunctionCall("f", [Identifier("n", None)], None))])]))
         == Success(Program([FunctionDefinition("f", ["n"],
              [Return(FunctionCall("f", [Identifier("n", Some(Local))], Some(UserDefined)))])]))
  {
    var inner := InitialScope().(functions := InitialScope().functions["f" := 1], locals := Some(["n"]));
    var ret := Return(FunctionCall("f", [Identifier("n", Some(Local))], Some(UserDefined)));
    assert [Identifier("n", None)][1..] == [];
    assert [Identifier("n", Some(Local))] + [] == [Identifier("n", Some(Local))];
    assert CheckExpressions(inner, [Identifier("n", None)]) == Success([Identifier("n", Some(Local))]);
    assert CheckStatement(inner, Return(FunctionCall("f", [Identifier("n", None)], None))) == Success(Checked(inner, ret));
    assert CheckStatements(inner, []) == Success(Checked(inner, []));
    assert [Return(FunctionCall("f", [Identifier("n", None)], None))][1..] == [] && [ret] + [] == [ret];
    assert CheckStatements(inner, [Return(FunctionCall("f", [Identifier("n", None)], None))]) == Success(Checked(inner, [ret]));
    var outer := inner.(locals := None);
    var def := FunctionDefinition("f", ["n"], [ret]);
    assert CheckStatement(InitialScope(), FunctionDefinition("f", ["n"], [Return(FunctionCall("f", [Identifier("n", None)], None))]))
        == Success(Checked(outer, def));
    assert CheckStatements(outer, []) == Success(Checked(outer, []));
    assert [def] + [] == [def];
  }
}
