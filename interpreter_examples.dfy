/**
 * Concrete runs of the interpreter on annotated trees: expression values (operators
 * associate to the right), what `print` writes and returns, globals, `if`, a loop
 * left by `break`, a `return` that leaves a loop and a call, and a `break` that
 * escapes the program.
 */
module InterpreterExamples {
  import opened Wrappers
  import opened Ast
  import opened Semantics

  function Num(v: int): Expression { LiteralNumber(v) }

  function Print(e: Expression): Expression { FunctionCall("print", [e], Some(Builtin)) }

  function GlobalRead(x: string): Expression { Identifier(x, Some(Global)) }

  /** `11 - (12 + 13)` is -14; `20 + 21 - (22 + 23 - 24)` is 20 + (21 - 21); `31 == 32 - 1` is 1. */
  lemma EvaluateArithmetic()
    ensures Evaluate(0, Operation(Subtract, Num(11), Operation(Add, Num(12), Num(13)))) == Success(-14)
    ensures Evaluate(0, Operation(Add, Num(20), Operation(Subtract, Num(21),
              Operation(Add, Num(22), Operation(Subtract, Num(23), Num(24)))))) == Success(20)
    ensures Evaluate(0, Operation(Equals, Num(31), Operation(Subtract, Num(32), Num(1)))) == Success(1)
    ensures Evaluate(0, Operation(Subtract, Operation(Equals, Num(33), Num(34)), Num(1))) == Success(-1)
  {
  }

  /** `print(1337)` is worth 0. */
  lemma EvaluatePrint()
    ensures Evaluate(0, Print(Num(1337))) == Success(0)
  {
  }

  /** The empty program prints nothing. */
  lemma InterpretNothing(fuel: nat)
    ensures Interpret(fuel, Program([])) == Success("")
  {
  }

  /** `print(1)` writes "1" and is worth 0. */
  lemma PrintOneRuns(env: Env)
    requires env == EmptyEnv()
    ensures EvalExpression(0, env, Print(Num(1))) == Success(Ran(env.(output := ["1\n"]), Value(0)))
  {
    assert Line(1) == "1\n" && env.output + ["1\n"] == ["1\n"];
  }

  /** `print(print(1));` writes "1", then the inner call's value 0. */
  lemma PrintPrintRuns(env: Env)
    requires env == EmptyEnv()
    ensures ExecStatement(0, env, ExpressionStatement(Print(Print(Num(1)))))
         == Success(Ran(env.(output := ["1\n", "0\n"]), Normal))
  {
    PrintOneRuns(env);
    assert Line(0) == "0\n" && ["1\n"] + ["0\n"] == ["1\n", "0\n"];
  }

  /** The program `print(print(1));` prints 1, then 0. */
  lemma PrintPrint(p: Program)
    requires p == Program([ExpressionStatement(Print(Print(Num(1))))])
    ensures Interpret(0, p) == Success("1\n0\n")
  {
    var ss := p.statements;
    PrintPrintRuns(EmptyEnv());
    assert ss[1..] == [];
    assert ExecStatements(0, EmptyEnv(), ss) == Success(Ran(EmptyEnv().(output := ["1\n", "0\n"]), Normal));
    assert Join(["1\n", "0\n"]) == "1\n0\n";
  }

  /** `a := a + a;` with `a` at 19 sets it to 38. */
  lemma DoubleRuns(env: Env)
    requires env == EmptyEnv().(globals := map["a" := 19])
    ensures ExecStatement(0, env, Assignment("a", Operation(Add, GlobalRead("a"), GlobalRead("a")), Some(Global)))
         == Success(Ran(EmptyEnv().(globals := map["a" := 38]), Normal))
  {
    assert EvalExpression(0, env, Operation(Add, GlobalRead("a"), GlobalRead("a"))) == Success(Ran(env, Value(38)));
    assert map["a" := 19]["a" := 38] == map["a" := 38];
  }

  /** `print(a);` with `a` at 38 prints 38. */
  lemma PrintGlobalRuns(env: Env)
    requires env == EmptyEnv().(globals := map["a" := 38])
    ensures ExecStatement(0, env, ExpressionStatement(Print(GlobalRead("a")))) == Success(Ran(env.(output := ["38\n"]), Normal))
  {
    assert Line(38) == "38\n" && env.output + ["38\n"] == ["38\n"];
  }

  /** `a := 19; a := a + a; print(a);` prints 38. */
  lemma Globals(p: Program)
    requires p == Program([Assignment("a", Num(19), Some(Global)),
                           Assignment("a", Operation(Add, GlobalRead("a"), GlobalRead("a")), Some(Global)),
                           ExpressionStatement(Print(GlobalRead("a")))])
    ensures Interpret(0, p) == Success("38\n")
  {
    var ss := p.statements;
    var env1 := EmptyEnv().(globals := map["a" := 19]);
    var env2 := EmptyEnv().(globals := map["a" := 38]);
    var env3 := env2.(output := ["38\n"]);
    assert ExecStatement(0, EmptyEnv(), ss[0]) == Success(Ran(env1, Normal));
    DoubleRuns(env1);
    PrintGlobalRuns(env2);
    assert ss[2..][1..] == [] && ss[2..][0] == ss[2];
    assert ExecStatements(0, env2, ss[2..]) == Success(Ran(env3, Normal));
    assert ss[1..][1..] == ss[2..] && ss[1..][0] == ss[1];
    assert ExecStatements(0, env1, ss[1..]) == Success(Ran(env3, Normal));
    assert Join(["38\n"]) == "38\n";
  }

  /** `if (0) { print(1); } print(2);`: a zero condition skips the block. */
  lemma IfZero(p: Program)
    requires p == Program([If(Num(0), [ExpressionStatement(Print(Num(1)))]), ExpressionStatement(Print(Num(2)))])
    ensures Interpret(0, p) == Success("2\n")
  {
    var ss := p.statements;
    var env := EmptyEnv().(output := ["2\n"]);
    assert ExecStatement(0, EmptyEnv(), ss[0]) == Success(Ran(EmptyEnv(), Normal));
    assert ExecStatement(0, EmptyEnv(), ss[1]) == Success(Ran(env, Normal)) by {
      assert Line(2) == "2\n" && EmptyEnv().output + ["2\n"] == ["2\n"];
    }
    assert ss[1..][1..] == [] && ss[1..][0] == ss[1];
    assert ExecStatements(0, EmptyEnv(), ss[1..]) == Success(Ran(env, Normal));
    assert Join(["2\n"]) == "2\n";
  }

  /** `loop { print(7); break; }`: one pass, then the Break ends the loop and the program goes on. */
  lemma LoopBreak()
    ensures Interpret(1, Program([Loop([ExpressionStatement(Print(Num(7))), Break])])) == Success("7\n")
  {
    var block := [ExpressionStatement(Print(Num(7))), Break];
    var env := EmptyEnv().(output := ["7\n"]);
    assert block[1..] == [Break] && block[1..][1..] == [];
    assert Line(7) == "7\n" && EmptyEnv().output + ["7\n"] == ["7\n"];
    assert ExecStatement(0, EmptyEnv(), block[0]) == Success(Ran(env, Normal));
    assert ExecStatements(0, EmptyEnv(), block) == Success(Ran(env, BreakSig));
    assert Join(["7\n"]) == "7\n";
  }

  /** The body of `f` below: `loop { return n + 1; }`. */
  function LoopReturn(): seq<Statement>
  {
    [Loop([Return(Operation(Add, Identifier("n", Some(Local)), Num(1)))])]
  }

  /** With `n` bound to 5, the body of `f` returns 6 from inside its loop. */
  lemma LoopReturnRuns(inside: Env)
    requires inside == EmptyEnv().(functions := map["f" := Definition(["n"], LoopReturn())], locals := Some(map["n" := 5]))
    ensures ExecStatements(1, inside, LoopReturn()) == Success(Ran(inside, ReturnSig(6)))
  {
    var block := [Return(Operation(Add, Identifier("n", Some(Local)), Num(1)))];
    assert ExecStatements(0, inside, block) == Success(Ran(inside, ReturnSig(6)));
    assert ExecLoop(1, inside, block) == Success(Ran(inside, ReturnSig(6)));
  }

  /** `f(5)` is worth 6, and the caller's State is as before. */
  lemma CallReturns(env: Env)
    requires env == EmptyEnv().(functions := map["f" := Definition(["n"], LoopReturn())])
    ensures EvalExpression(2, env, FunctionCall("f", [Num(5)], Some(UserDefined))) == Success(Ran(env, Value(6)))
  {
    assert BindActuals(2, env, "f", ["n"], [Num(5)], 0, map[]) == Success(Ran(env, Some(map["n" := 5])));
    LoopReturnRuns(env.(locals := Some(map["n" := 5])));
  }

  /** `print(f(5));` prints 6. */
  lemma PrintCallRuns(env: Env)
    requires env == EmptyEnv().(functions := map["f" := Definition(["n"], LoopReturn())])
    ensures ExecStatement(2, env, ExpressionStatement(Print(FunctionCall("f", [Num(5)], Some(UserDefined)))))
         == Success(Ran(env.(output := ["6\n"]), Normal))
  {
    CallReturns(env);
    assert Line(6) == "6\n" && env.output + ["6\n"] == ["6\n"];
  }

  /** `function f(n) { loop { return n + 1; } } print(f(5));`: a Return leaves the loop and the call. */
  lemma ReturnFromLoop(p: Program)
    requires p == Program([FunctionDefinition("f", ["n"], LoopReturn()),
                           ExpressionStatement(Print(FunctionCall("f", [Num(5)], Some(UserDefined))))])
    ensures Interpret(2, p) == Success("6\n")
  {
    var env := EmptyEnv().(functions := map["f" := Definition(["n"], LoopReturn())]);
    var ss := p.statements;
    assert ExecStatement(2, EmptyEnv(), ss[0]) == Success(Ran(env, Normal));
    PrintCallRuns(env);
    assert ss[1..][0] == ss[1] && ss[1..][1..] == [];
    assert ExecStatements(2, env, ss[1..]) == Success(Ran(env.(output := ["6\n"]), Normal));
    assert Join(["6\n"]) == "6\n";
  }

  /** `break;` outside any loop: the Break escapes and interpreter() throws. */
  lemma BreakEscapes()
    ensures Interpret(0, Program([Break])) == Failure(UncaughtBreak)
  {
  }
}
