/**
 * What holds of every run: a run that did not run out of fuel gives the same result
 * with any larger fuel (so the fuel bound only cuts runs short, never changes them),
 * a statement list runs as its parts in sequence up to the first Break or Return,
 * and the output only ever receives lines of the form "<decimal>\n".
 */
module InterpreterProperties {
  import opened Wrappers
  import opened Ast
  import opened Semantics

  // ---------------------------------------------------------------------------
  // More fuel changes nothing

  lemma {:induction false} EvalMoreFuel(fuel: nat, more: nat, env: Env, e: Expression)
    requires fuel <= more
    requires EvalExpression(fuel, env, e) != Failure(OutOfFuel)
    ensures EvalExpression(more, env, e) == EvalExpression(fuel, env, e)
    decreases fuel, e, 1
  {
    match e
    case Operation(_, left, right) =>
      EvalMoreFuel(fuel, more, env, left);
      var l := EvalExpression(fuel, env, left);
      if l.Success? && l.value.result.Value? {
        EvalMoreFuel(fuel, more, l.value.env, right);
      }
    case FunctionCall(f, actuals, location) =>
      if location == Some(Builtin) {
        PrintMoreFuel(fuel, more, env, f, actuals);
      } else if f in env.functions {
        CallMoreFuel(fuel, more, env, f, actuals, location);
      }
    case Identifier(_, _) =>
    case LiteralNumber(_) =>
  }

  lemma {:induction false} PrintMoreFuel(fuel: nat, more: nat, env: Env, f: string, actuals: seq<Expression>)
    requires fuel <= more
    requires EvalExpression(fuel, env, FunctionCall(f, actuals, Some(Builtin))) != Failure(OutOfFuel)
    ensures EvalExpression(more, env, FunctionCall(f, actuals, Some(Builtin)))
         == EvalExpression(fuel, env, FunctionCall(f, actuals, Some(Builtin)))
    decreases fuel, FunctionCall(f, actuals, Some(Builtin)), 0
  {
    if |actuals| > 0 {
      EvalMoreFuel(fuel, more, env, actuals[0]);
    }
  }

  lemma {:induction false} CallMoreFuel(fuel: nat, more: nat, env: Env, f: string, actuals: seq<Expression>,
                                        location: Option<CallLocation>)
    requires fuel <= more && location != Some(Builtin) && f in env.functions
    requires EvalExpression(fuel, env, FunctionCall(f, actuals, location)) != Failure(OutOfFuel)
    ensures EvalExpression(more, env, FunctionCall(f, actuals, location))
         == EvalExpression(fuel, env, FunctionCall(f, actuals, location))
    decreases fuel, FunctionCall(f, actuals, location), 0
  {
    var definition := env.functions[f];
    BindMoreFuel(fuel, more, env, f, definition.formals, actuals, 0, map[]);
    var bound := BindActuals(fuel, env, f, definition.formals, actuals, 0, map[]);
    if bound.Success? && bound.value.result.Some? && fuel > 0 {
      ExecStatementsMoreFuel(fuel - 1, more - 1, bound.value.env.(locals := bound.value.result), definition.body);
    }
  }

  lemma {:induction false} BindMoreFuel(fuel: nat, more: nat, env: Env, f: string, formals: seq<string>,
                                        actuals: seq<Expression>, k: nat, frame: map<string, int>)
    requires fuel <= more && k <= |formals|
    requires BindActuals(fuel, env, f, formals, actuals, k, frame) != Failure(OutOfFuel)
    ensures BindActuals(more, env, f, formals, actuals, k, frame) == BindActuals(fuel, env, f, formals, actuals, k, frame)
    decreases fuel, actuals, |formals| - k
  {
    if k < |formals| && k < |actuals| {
      EvalMoreFuel(fuel, more, env, actuals[k]);
      var a := EvalExpression(fuel, env, actuals[k]);
      if a.Success? && a.value.result.Value? {
        BindMoreFuel(fuel, more, a.value.env, f, formals, actuals, k + 1, frame[formals[k] := a.value.result.value]);
      }
    }
  }

  lemma {:induction false} ExecStatementMoreFuel(fuel: nat, more: nat, env: Env, s: Statement)
    requires fuel <= more
    requires ExecStatement(fuel, env, s) != Failure(OutOfFuel)
    ensures ExecStatement(more, env, s) == ExecStatement(fuel, env, s)
    decreases fuel, s, 0
  {
    match s
    case Assignment(_, e, location) =>
      if location == Some(Global) || env.locals.Some? {
        EvalMoreFuel(fuel, more, env, e);
      }
    case If(c, block) =>
      EvalMoreFuel(fuel, more, env, c);
      var a := EvalExpression(fuel, env, c);
      if a.Success? && a.value.result.Value? && a.value.result.value != 0 {
        ExecStatementsMoreFuel(fuel, more, a.value.env, block);
      }
    case Loop(block) =>
      ExecLoopMoreFuel(fuel, more, env, block);
    case Break =>
    case Return(e) =>
      EvalMoreFuel(fuel, more, env, e);
    case FunctionDefinition(_, _, _) =>
    case ExpressionStatement(e) =>
      EvalMoreFuel(fuel, more, env, e);
  }

  lemma {:induction false} ExecStatementsMoreFuel(fuel: nat, more: nat, env: Env, ss: seq<Statement>)
    requires fuel <= more
    requires ExecStatements(fuel, env, ss) != Failure(OutOfFuel)
    ensures ExecStatements(more, env, ss) == ExecStatements(fuel, env, ss)
    decreases fuel, ss, 0
  {
    if |ss| > 0 {
      ExecStatementMoreFuel(fuel, more, env, ss[0]);
      var first := ExecStatement(fuel, env, ss[0]);
      if first.Success? && first.value.result == Normal {
        ExecStatementsMoreFuel(fuel, more, first.value.env, ss[1..]);
      }
    }
  }

  lemma {:induction false} ExecLoopMoreFuel(fuel: nat, more: nat, env: Env, block: seq<Statement>)
    requires fuel <= more
    requires ExecLoop(fuel, env, block) != Failure(OutOfFuel)
    ensures ExecLoop(more, env, block) == ExecLoop(fuel, env, block)
    decreases fuel, block, 0
  {
    ExecStatementsMoreFuel(fuel - 1, more - 1, env, block);
    var pass := ExecStatements(fuel - 1, env, block);
    if pass.Success? && pass.value.result == Normal {
      ExecLoopMoreFuel(fuel - 1, more - 1, pass.value.env, block);
    }
  }

  /** A program that runs to an answer within some fuel gives that answer with any more fuel. */
  lemma InterpretMoreFuel(fuel: nat, more: nat, p: Program)
    requires fuel <= more
    requires Interpret(fuel, p) != Failure(OutOfFuel)
    ensures Interpret(more, p) == Interpret(fuel, p)
  {
    ExecStatementsMoreFuel(fuel, more, EmptyEnv(), p.statements);
  }

  // ---------------------------------------------------------------------------
  // Statement lists run in sequence

  /**
   * Running ss1 + ss2 runs ss1, and then ss2 from where ss1 left the State only when
   * ss1 ended normally; a Break, a Return or a fault in ss1 skips ss2.
   */
  lemma {:induction false} ExecStatementsAppend(fuel: nat, env: Env, ss1: seq<Statement>, ss2: seq<Statement>)
    ensures ExecStatements(fuel, env, ss1 + ss2)
         == match ExecStatements(fuel, env, ss1)
            case Success(Ran(env', Normal)) => ExecStatements(fuel, env', ss2)
            case other => other
    decreases ss1
  {
    if |ss1| == 0 {
      assert ss1 + ss2 == ss2;
    } else {
      assert (ss1 + ss2)[0] == ss1[0];
      assert (ss1 + ss2)[1..] == ss1[1..] + ss2;
      var first := ExecStatement(fuel, env, ss1[0]);
      if first.Success? && first.value.result == Normal {
        ExecStatementsAppend(fuel, first.value.env, ss1[1..], ss2);
      }
    }
  }

  // ---------------------------------------------------------------------------
  // The output is made of printed lines

  ghost predicate IsLine(s: string)
  {
    exists v: int :: s == Line(v)
  }

  ghost predicate AllLines(lines: seq<string>)
  {
    forall k :: 0 <= k < |lines| ==> IsLine(lines[k])
  }

  lemma {:induction false} EvalPrintsLines(fuel: nat, env: Env, e: Expression)
    requires AllLines(env.output)
    ensures EvalExpression(fuel, env, e).Success? ==> AllLines(EvalExpression(fuel, env, e).value.env.output)
    decreases fuel, e, 1
  {
    match e
    case Operation(_, left, right) =>
      EvalPrintsLines(fuel, env, left);
      var l := EvalExpression(fuel, env, left);
      if l.Success? && l.value.result.Value? {
        EvalPrintsLines(fuel, l.value.env, right);
      }
    case FunctionCall(f, actuals, location) =>
      CallPrintsLines(fuel, env, f, actuals, location);
    case Identifier(_, _) =>
    case LiteralNumber(_) =>
  }

  lemma PrintKeepsLines(lines: seq<string>, v: int)
    requires AllLines(lines)
    ensures AllLines(lines + [Line(v)])
  {
    var out := lines + [Line(v)];
    assert IsLine(out[|out| - 1]);
  }

  lemma {:induction false} CallPrintsLines(fuel: nat, env: Env, f: string, actuals: seq<Expression>, location: Option<CallLocation>)
    requires AllLines(env.output)
    ensures EvalExpression(fuel, env, FunctionCall(f, actuals, location)).Success? ==>
              AllLines(EvalExpression(fuel, env, FunctionCall(f, actuals, location)).value.env.output)
    decreases fuel, FunctionCall(f, actuals, location), 0
  {
    if location == Some(Builtin) {
      if |actuals| > 0 {
        EvalPrintsLines(fuel, env, actuals[0]);
        var a := EvalExpression(fuel, env, actuals[0]);
        if a.Success? && a.value.result.Value? {
          PrintKeepsLines(a.value.env.output, a.value.result.value);
        }
      }
    } else if f in env.functions {
      var definition := env.functions[f];
      BindPrintsLines(fuel, env, f, definition.formals, actuals, 0, map[]);
      var bound := BindActuals(fuel, env, f, definition.formals, actuals, 0, map[]);
      if bound.Success? && bound.value.result.Some? && fuel > 0 {
        ExecStatementsPrintLines(fuel - 1, bound.value.env.(locals := bound.value.result), definition.body);
      }
    }
  }

  lemma {:induction false} BindPrintsLines(fuel: nat, env: Env, f: string, formals: seq<string>,
                                           actuals: seq<Expression>, k: nat, frame: map<string, int>)
    requires k <= |formals| && AllLines(env.output)
    ensures BindActuals(fuel, env, f, formals, actuals, k, frame).Success? ==>
              AllLines(BindActuals(fuel, env, f, formals, actuals, k, frame).value.env.output)
    decreases fuel, actuals, |formals| - k
  {
    if k < |formals| && k < |actuals| {
      EvalPrintsLines(fuel, env, actuals[k]);
      var a := EvalExpression(fuel, env, actuals[k]);
      if a.Success? && a.value.result.Value? {
        BindPrintsLines(fuel, a.value.env, f, formals, actuals, k + 1, frame[formals[k] := a.value.result.value]);
      }
    }
  }

  lemma {:induction false} ExecStatementPrintsLines(fuel: nat, env: Env, s: Statement)
    requires AllLines(env.output)
    ensures ExecStatement(fuel, env, s).Success? ==> AllLines(ExecStatement(fuel, env, s).value.env.output)
    decreases fuel, s, 0
  {
    match s
    case Assignment(_, e, _) =>
      EvalPrintsLines(fuel, env, e);
    case If(c, block) =>
      EvalPrintsLines(fuel, env, c);
      var a := EvalExpression(fuel, env, c);
      if a.Success? && a.value.result.Value? {
        ExecStatementsPrintLines(fuel, a.value.env, block);
      }
    case Loop(block) =>
      ExecLoopPrintsLines(fuel, env, block);
    case Break =>
    case Return(e) =>
      EvalPrintsLines(fuel, env, e);
    case FunctionDefinition(_, _, _) =>
    case ExpressionStatement(e) =>
      EvalPrintsLines(fuel, env, e);
  }

  lemma {:induction false} ExecStatementsPrintLines(fuel: nat, env: Env, ss: seq<Statement>)
    requires AllLines(env.output)
    ensures ExecStatements(fuel, env, ss).Success? ==> AllLines(ExecStatements(fuel, env, ss).value.env.output)
    decreases fuel, ss, 0
  {
    if |ss| > 0 {
      ExecStatementPrintsLines(fuel, env, ss[0]);
      var first := ExecStatement(fuel, env, ss[0]);
      if first.Success? && first.value.result == Normal {
        ExecStatementsPrintLines(fuel, first.value.env, ss[1..]);
      }
    }
  }

  lemma {:induction false} ExecLoopPrintsLines(fuel: nat, env: Env, block: seq<Statement>)
    requires AllLines(env.output)
    ensures ExecLoop(fuel, env, block).Success? ==> AllLines(ExecLoop(fuel, env, block).value.env.output)
    decreases fuel, block, 0
  {
    if fuel > 0 {
      ExecStatementsPrintLines(fuel - 1, env, block);
      var pass := ExecStatements(fuel - 1, env, block);
      if pass.Success? && pass.value.result == Normal {
        ExecLoopPrintsLines(fuel - 1, pass.value.env, block);
      }
    }
  }

  /** interpreter() answers with the printed lines, "<decimal>\n" each, joined in the order printed. */
  lemma InterpretPrintsLines(fuel: nat, p: Program)
    ensures Interpret(fuel, p).Success? ==>
              exists lines :: AllLines(lines) && Interpret(fuel, p).value == Join(lines)
  {
    ExecStatementsPrintLines(fuel, EmptyEnv(), p.statements);
    var run := ExecStatements(fuel, EmptyEnv(), p.statements);
    if run.Success? && run.value.result == Normal {
      assert AllLines(run.value.env.output);
    }
  }
}
