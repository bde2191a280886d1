/**
 * The hand-off from checker.ts to interpreter.ts. A checked tree is Safe when:
 * - every `break` stands inside a loop;
 * - every `return` and every local variable stands inside a function body;
 * - every `print` has an actual;
 * - every other call names a function defined before it, with as many actuals as formals;
 * - definitions stand only at the top level.
 * The checker gives Safe trees for programs whose definitions stand only at the top
 * level, which are exactly what the parser builds. A run of a Safe tree never lets
 * a Break or Return escape, never uses the locals outside a call, and never calls
 * an unknown function or one with too few actuals. What is left is running out of
 * fuel, or reading a variable never assigned.
 */
module CheckedRuns {
  import opened Wrappers
  import opened Ast
  import opened CheckerSpec
  import opened Semantics
  import ParserSpec
  import ParserShape
  import Tokens

  // ---------------------------------------------------------------------------
  // Safe trees

  /** A variable annotation that a run can follow: global, or local inside a function body. */
  predicate SafeLocation(location: Option<VarLocation>, inFunction: bool)
  {
    location == Some(Global) || (location == Some(Local) && inFunction)
  }

  /**
   * `arities` knows f as a user function of n formals (the builtin `print` is
   * stored as -1, as in the checker's scope, and is never resolved this way).
   */
  predicate Calls(arities: map<string, int>, f: string, n: nat)
  {
    f in arities && arities[f] == n
  }

  predicate SafeExpression(e: Expression, inFunction: bool, arities: map<string, int>)
    decreases e
  {
    match e
    case Operation(_, l, r) => SafeExpression(l, inFunction, arities) && SafeExpression(r, inFunction, arities)
    case FunctionCall(f, actuals, kind) =>
      (if kind == Some(Builtin) then |actuals| > 0 else kind == Some(UserDefined) && Calls(arities, f, |actuals|)) &&
      SafeExpressions(actuals, inFunction, arities)
    case Identifier(_, location) => SafeLocation(location, inFunction)
    case LiteralNumber(_) => true
  }

  predicate SafeExpressions(es: seq<Expression>, inFunction: bool, arities: map<string, int>)
    decreases es
  {
    forall k :: 0 <= k < |es| ==> SafeExpression(es[k], inFunction, arities)
  }

  /** The arities after s: a definition adds its function. */
  function Defines(arities: map<string, int>, s: Statement): (r: map<string, int>)
    ensures s.FunctionDefinition? ==> Calls(r, s.identifier, |s.formals|)
    ensures !s.FunctionDefinition? ==> r == arities
  {
    if s.FunctionDefinition? then arities[s.identifier := |s.formals|] else arities
  }

  /**
   * s is Safe at a place inside a loop or not, inside a function body or not, at the
   * top level or not, where `arities` are the functions defined so far.
   */
  predicate SafeStatement(s: Statement, inLoop: bool, inFunction: bool, top: bool, arities: map<string, int>)
    decreases s
  {
    match s
    case Assignment(_, e, location) => SafeLocation(location, inFunction) && SafeExpression(e, inFunction, arities)
    case If(c, block) => SafeExpression(c, inFunction, arities) && SafeStatements(block, inLoop, inFunction, false, arities)
    case Loop(block) => SafeStatements(block, true, inFunction, false, arities)
    case Break => inLoop
    case Return(e) => inFunction && SafeExpression(e, inFunction, arities)
    case FunctionDefinition(f, formals, body) =>
      top && f !in arities && SafeStatements(body, false, true, false, arities[f := |formals|])
    case ExpressionStatement(e) => SafeExpression(e, inFunction, arities)
  }

  /** Each statement Safe with the functions the statements before it defined. */
  predicate SafeStatements(ss: seq<Statement>, inLoop: bool, inFunction: bool, top: bool, arities: map<string, int>)
    decreases ss
  {
    |ss| == 0 ||
    (SafeStatement(ss[0], inLoop, inFunction, top, arities) &&
     SafeStatements(ss[1..], inLoop, inFunction, top, Defines(arities, ss[0])))
  }

  // ---------------------------------------------------------------------------
  // A successful check gives a Safe tree

  lemma {:induction false} CheckExpressionSafe(sc: Scope, e: Expression)
    ensures CheckExpression(sc, e).Success? ==> SafeExpression(CheckExpression(sc, e).value, sc.locals.Some?, sc.functions)
    decreases e, 1
  {
    match e
    case Operation(_, l, r) =>
      CheckExpressionSafe(sc, l);
      CheckExpressionSafe(sc, r);
    case FunctionCall(_, actuals, _) =>
      CheckExpressionsSafe(sc, actuals);
    case Identifier(_, _) =>
    case LiteralNumber(_) =>
  }

  lemma {:induction false} CheckExpressionsSafe(sc: Scope, es: seq<Expression>)
    ensures CheckExpressions(sc, es).Success? ==>
              |CheckExpressions(sc, es).value| == |es| &&
              SafeExpressions(CheckExpressions(sc, es).value, sc.locals.Some?, sc.functions)
    decreases es, 0
  {
    if |es| > 0 && CheckExpressions(sc, es).Success? {
      CheckExpressionSafe(sc, es[0]);
      CheckExpressionsSafe(sc, es[1..]);
      var e := CheckExpression(sc, es[0]).value;
      var rest := CheckExpressions(sc, es[1..]).value;
      assert ([e] + rest)[0] == e && ([e] + rest)[1..] == rest;
    }
  }

  /**
   * A checked statement is Safe where it stands, the scope after it knows the
   * functions it defines and no others, and `inLoop` and the presence of locals are kept.
   */
  lemma {:induction false} CheckStatementSafe(sc: Scope, s: Statement, top: bool)
    requires if top then TopLevelShape(s) && !sc.inLoop else NoDefinitionIn(s)
    ensures CheckStatement(sc, s).Success? ==>
              var r := CheckStatement(sc, s).value;
              SafeStatement(r.node, sc.inLoop, sc.locals.Some?, top, sc.functions) &&
              r.scope.functions == Defines(sc.functions, r.node) &&
              r.scope.inLoop == sc.inLoop && r.scope.locals.Some? == sc.locals.Some?
    decreases s
  {
    match s
    case Assignment(x, e, _) =>
      if DeclareTarget(sc, x).Success? {
        CheckExpressionSafe(DeclareTarget(sc, x).value.scope, e);
      }
    case If(c, block) =>
      CheckExpressionSafe(sc, c);
      CheckStatementsSafe(sc, block, false);
    case Loop(block) =>
      CheckStatementsSafe(sc.(inLoop := true), block, false);
    case Break =>
    case Return(e) =>
      CheckExpressionSafe(sc, e);
    case FunctionDefinition(f, formals, body) =>
      CheckStatementsSafe(sc.(functions := sc.functions[f := |formals|], locals := Some(formals)), body, false);
    case ExpressionStatement(e) =>
      CheckExpressionSafe(sc, e);
  }

  lemma {:induction false} CheckStatementsSafe(sc: Scope, ss: seq<Statement>, top: bool)
    requires if top then DefinitionsAtTopLevel(ss) && !sc.inLoop else NoDefinitions(ss)
    ensures CheckStatements(sc, ss).Success? ==>
              var r := CheckStatements(sc, ss).value;
              SafeStatements(r.node, sc.inLoop, sc.locals.Some?, top, sc.functions) &&
              r.scope.inLoop == sc.inLoop && r.scope.locals.Some? == sc.locals.Some? &&
              (!top ==> r.scope.functions == sc.functions)
    decreases ss
  {
    if |ss| > 0 && CheckStatements(sc, ss).Success? {
      CheckStatementSafe(sc, ss[0], top);
      var first := CheckStatement(sc, ss[0]).value;
      CheckStatementsSafe(first.scope, ss[1..], top);
      var rest := CheckStatements(first.scope, ss[1..]).value;
      assert ([first.node] + rest.node)[0] == first.node && ([first.node] + rest.node)[1..] == rest.node;
    }
  }

  /** checker() on a program with definitions only at the top level gives a Safe program. */
  lemma CheckProgramSafe(p: Program)
    requires DefinitionsAtTopLevel(p.statements)
    ensures CheckProgram(p).Success? ==>
              SafeStatements(CheckProgram(p).value.statements, false, false, true, InitialScope().functions)
  {
    CheckStatementsSafe(InitialScope(), p.statements, true);
  }

  // ---------------------------------------------------------------------------
  // A Safe tree runs without the faults the checker rules out

  /** The faults a run of a checked program can still meet. */
  predicate Tolerated(fault: Fault)
  {
    fault == OutOfFuel || fault.Unassigned?
  }

  /** The number of formals of each registered function. */
  function Arities(functions: map<string, Definition>): map<string, int>
  {
    map f | f in functions :: |functions[f].formals|
  }

  /** Every user function that `arities` knows is registered in `outer`, with that arity. */
  predicate Within(arities: map<string, int>, outer: map<string, int>)
  {
    forall f :: f in arities && arities[f] >= 0 ==> f in outer && outer[f] == arities[f]
  }

  /** Every registered body is Safe as a function body, calling registered functions. */
  predicate Registered(functions: map<string, Definition>)
  {
    forall f :: f in functions ==> SafeStatements(functions[f].body, false, true, false, Arities(functions))
  }

  /** Only functions that `arities` knows are registered (true at the top level). */
  predicate Introduced(functions: map<string, Definition>, arities: map<string, int>)
  {
    forall f :: f in functions ==> f in arities
  }

  /** How a Safe statement list can end: a Break only in a loop, a Return only in a function. */
  predicate Ends(result: Flow, inLoop: bool, inFunction: bool)
  {
    (result == BreakSig ==> inLoop) && (result.ReturnSig? ==> inFunction)
  }

  lemma {:induction false} SafeExpressionWider(e: Expression, inFunction: bool, arities: map<string, int>, outer: map<string, int>)
    requires SafeExpression(e, inFunction, arities) && Within(arities, outer)
    ensures SafeExpression(e, inFunction, outer)
    decreases e, 1
  {
    match e
    case Operation(_, l, r) =>
      SafeExpressionWider(l, inFunction, arities, outer);
      SafeExpressionWider(r, inFunction, arities, outer);
    case FunctionCall(_, actuals, _) =>
      SafeExpressionsWider(actuals, inFunction, arities, outer);
    case Identifier(_, _) =>
    case LiteralNumber(_) =>
  }

  lemma {:induction false} SafeExpressionsWider(es: seq<Expression>, inFunction: bool, arities: map<string, int>, outer: map<string, int>)
    requires SafeExpressions(es, inFunction, arities) && Within(arities, outer)
    ensures SafeExpressions(es, inFunction, outer)
    decreases es, 0
  {
    forall k | 0 <= k < |es|
      ensures SafeExpression(es[k], inFunction, outer)
    {
      SafeExpressionWider(es[k], inFunction, arities, outer);
    }
  }

  lemma {:induction false} SafeStatementWider(s: Statement, inLoop: bool, inFunction: bool, arities: map<string, int>, outer: map<string, int>)
    requires SafeStatement(s, inLoop, inFunction, false, arities) && Within(arities, outer)
    ensures SafeStatement(s, inLoop, inFunction, false, outer)
    decreases s
  {
    match s
    case Assignment(_, e, _) =>
      SafeExpressionWider(e, inFunction, arities, outer);
    case If(c, block) =>
      SafeExpressionWider(c, inFunction, arities, outer);
      SafeStatementsWider(block, inLoop, inFunction, arities, outer);
    case Loop(block) =>
      SafeStatementsWider(block, true, inFunction, arities, outer);
    case Break =>
    case Return(e) =>
      SafeExpressionWider(e, inFunction, arities, outer);
    case ExpressionStatement(e) =>
      SafeExpressionWider(e, inFunction, arities, outer);
  }

  /** A nested block stays Safe when more functions are registered around it. */
  lemma {:induction false} SafeStatementsWider(ss: seq<Statement>, inLoop: bool, inFunction: bool, arities: map<string, int>, outer: map<string, int>)
    requires SafeStatements(ss, inLoop, inFunction, false, arities) && Within(arities, outer)
    ensures SafeStatements(ss, inLoop, inFunction, false, outer)
    decreases ss
  {
    if |ss| > 0 {
      SafeStatementWider(ss[0], inLoop, inFunction, arities, outer);
      SafeStatementsWider(ss[1..], inLoop, inFunction, arities, outer);
    }
  }

  /** Registering a new Safe function keeps every registered body Safe. */
  lemma Register(functions: map<string, Definition>, arities: map<string, int>, f: string, formals: seq<string>, body: seq<Statement>)
    requires Registered(functions) && Within(arities, Arities(functions)) && Introduced(functions, arities)
    requires f !in arities && SafeStatements(body, false, true, false, arities[f := |formals|])
    ensures var functions' := functions[f := Definition(formals, body)];
            Registered(functions') && Within(arities[f := |formals|], Arities(functions')) &&
            Introduced(functions', arities[f := |formals|])
  {
    var functions' := functions[f := Definition(formals, body)];
    assert Within(Arities(functions), Arities(functions'));
    assert Within(arities[f := |formals|], Arities(functions'));
    forall g | g in functions'
      ensures SafeStatements(functions'[g].body, false, true, false, Arities(functions'))
    {
      if g == f {
        SafeStatementsWider(body, false, true, arities[f := |formals|], Arities(functions'));
      } else {
        SafeStatementsWider(functions[g].body, false, true, Arities(functions), Arities(functions'));
      }
    }
  }

  lemma {:induction false} EvalSafe(fuel: nat, env: Env, e: Expression, inFunction: bool, arities: map<string, int>)
    requires SafeExpression(e, inFunction, arities) && Within(arities, Arities(env.functions)) && Registered(env.functions)
    requires inFunction ==> env.locals.Some?
    ensures var r := EvalExpression(fuel, env, e);
            (r.Failure? ==> Tolerated(r.error)) &&
            (r.Success? ==> r.value.result.Value? && r.value.env.functions == env.functions)
    decreases fuel, e, 2
  {
    match e
    case Operation(_, left, right) =>
      EvalSafe(fuel, env, left, inFunction, arities);
      var l := EvalExpression(fuel, env, left);
      if l.Success? {
        EvalSafe(fuel, l.value.env, right, inFunction, arities);
      }
    case FunctionCall(f, actuals, location) =>
      CallSafe(fuel, env, f, actuals, location, inFunction, arities);
    case Identifier(_, _) =>
    case LiteralNumber(_) =>
  }

  lemma {:induction false} CallSafe(fuel: nat, env: Env, f: string, actuals: seq<Expression>, location: Option<CallLocation>,
                                    inFunction: bool, arities: map<string, int>)
    requires SafeExpression(FunctionCall(f, actuals, location), inFunction, arities)
    requires Within(arities, Arities(env.functions)) && Registered(env.functions)
    requires inFunction ==> env.locals.Some?
    ensures var r := EvalExpression(fuel, env, FunctionCall(f, actuals, location));
            (r.Failure? ==> Tolerated(r.error)) &&
            (r.Success? ==> r.value.result.Value? && r.value.env.functions == env.functions)
    decreases fuel, FunctionCall(f, actuals, location), 1
  {
    if location == Some(Builtin) {
      EvalSafe(fuel, env, actuals[0], inFunction, arities);
    } else {
      UserCallSafe(fuel, env, f, actuals, location, inFunction, arities);
    }
  }

  /** A call of a registered function: the actuals bind every formal and the Safe body lets no Break out. */
  lemma {:induction false} UserCallSafe(fuel: nat, env: Env, f: string, actuals: seq<Expression>, location: Option<CallLocation>,
                                        inFunction: bool, arities: map<string, int>)
    requires location != Some(Builtin) && Calls(arities, f, |actuals|) && SafeExpressions(actuals, inFunction, arities)
    requires Within(arities, Arities(env.functions)) && Registered(env.functions)
    requires inFunction ==> env.locals.Some?
    ensures var r := EvalExpression(fuel, env, FunctionCall(f, actuals, location));
            (r.Failure? ==> Tolerated(r.error)) &&
            (r.Success? ==> r.value.result.Value? && r.value.env.functions == env.functions)
    decreases fuel, FunctionCall(f, actuals, location), 0
  {
    assert f in env.functions;
    var definition := env.functions[f];
    BindSafe(fuel, env, f, definition.formals, actuals, 0, map[], inFunction, arities);
    var bound := BindActuals(fuel, env, f, definition.formals, actuals, 0, map[]);
    if bound.Success? && fuel > 0 {
      var inside := bound.value.env.(locals := bound.value.result);
      var body := ExecStatements(fuel - 1, inside, definition.body);
      assert inside.functions == env.functions;
      ExecStatementsSafe(fuel - 1, inside, definition.body, false, true, false, Arities(env.functions));
      ReturnedSafe(body, bound.value.env.locals, env.functions);
      assert EvalExpression(fuel, env, FunctionCall(f, actuals, location)) == Returned(body, bound.value.env.locals);
    }
  }

  /** The end of a call whose body let no Break out is worth a value. */
  lemma ReturnedSafe(body: Result<Ran<Flow>, Fault>, caller: Option<map<string, int>>, functions: map<string, Definition>)
    requires body.Failure? ==> Tolerated(body.error)
    requires body.Success? ==> Ends(body.value.result, false, true) && body.value.env.functions == functions
    ensures var r := Returned(body, caller);
            (r.Failure? ==> Tolerated(r.error)) && (r.Success? ==> r.value.result.Value? && r.value.env.functions == functions)
  {
  }

  lemma {:induction false} BindSafe(fuel: nat, env: Env, f: string, formals: seq<string>, actuals: seq<Expression>,
                                    k: nat, frame: map<string, int>, inFunction: bool, arities: map<string, int>)
    requires k <= |formals| <= |actuals|
    requires SafeExpressions(actuals, inFunction, arities)
    requires Within(arities, Arities(env.functions)) && Registered(env.functions)
    requires inFunction ==> env.locals.Some?
    ensures var r := BindActuals(fuel, env, f, formals, actuals, k, frame);
            (r.Failure? ==> Tolerated(r.error)) &&
            (r.Success? ==> r.value.result.Some? && r.value.env.functions == env.functions)
    decreases fuel, actuals, |formals| - k
  {
    if k < |formals| {
      EvalSafe(fuel, env, actuals[k], inFunction, arities);
      var a := EvalExpression(fuel, env, actuals[k]);
      if a.Success? {
        BindSafe(fuel, a.value.env, f, formals, actuals, k + 1, frame[formals[k] := a.value.result.value], inFunction, arities);
      }
    }
  }

  lemma {:induction false} ExecStatementSafe(fuel: nat, env: Env, s: Statement, inLoop: bool, inFunction: bool, top: bool,
                                             arities: map<string, int>)
    requires SafeStatement(s, inLoop, inFunction, top, arities)
    requires Within(arities, Arities(env.functions)) && Registered(env.functions)
    requires inFunction ==> env.locals.Some?
    requires top ==> Introduced(env.functions, arities)
    ensures var r := ExecStatement(fuel, env, s);
            (r.Failure? ==> Tolerated(r.error)) &&
            (r.Success? ==>
               Ends(r.value.result, inLoop, inFunction) &&
               Registered(r.value.env.functions) && Within(Defines(arities, s), Arities(r.value.env.functions)) &&
               r.value.env.locals.Some? == env.locals.Some? &&
               (top ==> Introduced(r.value.env.functions, Defines(arities, s))) &&
               (!top ==> r.value.env.functions == env.functions))
    decreases fuel, s, 1
  {
    match s
    case Assignment(_, e, _) =>
      EvalSafe(fuel, env, e, inFunction, arities);
    case If(c, block) =>
      IfSafe(fuel, env, c, block, inLoop, inFunction, arities);
    case Loop(block) =>
      ExecLoopSafe(fuel, env, block, inFunction, arities);
    case Break =>
    case Return(e) =>
      EvalSafe(fuel, env, e, inFunction, arities);
    case FunctionDefinition(f, formals, body) =>
      Register(env.functions, arities, f, formals, body);
    case ExpressionStatement(e) =>
      EvalSafe(fuel, env, e, inFunction, arities);
  }

  lemma {:induction false} IfSafe(fuel: nat, env: Env, c: Expression, block: seq<Statement>, inLoop: bool, inFunction: bool,
                                  arities: map<string, int>)
    requires SafeExpression(c, inFunction, arities) && SafeStatements(block, inLoop, inFunction, false, arities)
    requires Within(arities, Arities(env.functions)) && Registered(env.functions)
    requires inFunction ==> env.locals.Some?
    ensures var r := ExecStatement(fuel, env, If(c, block));
            (r.Failure? ==> Tolerated(r.error)) &&
            (r.Success? ==>
               Ends(r.value.result, inLoop, inFunction) && Registered(r.value.env.functions) &&
               r.value.env.locals.Some? == env.locals.Some? && r.value.env.functions == env.functions)
    decreases fuel, If(c, block), 0
  {
    EvalSafe(fuel, env, c, inFunction, arities);
    var a := EvalExpression(fuel, env, c);
    if a.Success? {
      ExecStatementsSafe(fuel, a.value.env, block, inLoop, inFunction, false, arities);
    }
  }

  /** A Safe statement list ends as Ends says and keeps the registered functions Safe. */
  lemma {:induction false} ExecStatementsSafe(fuel: nat, env: Env, ss: seq<Statement>, inLoop: bool, inFunction: bool, top: bool,
                                              arities: map<string, int>)
    requires SafeStatements(ss, inLoop, inFunction, top, arities)
    requires Within(arities, Arities(env.functions)) && Registered(env.functions)
    requires inFunction ==> env.locals.Some?
    requires top ==> Introduced(env.functions, arities)
    ensures var r := ExecStatements(fuel, env, ss);
            (r.Failure? ==> Tolerated(r.error)) &&
            (r.Success? ==>
               Ends(r.value.result, inLoop, inFunction) && Registered(r.value.env.functions) &&
               r.value.env.locals.Some? == env.locals.Some? &&
               (!top ==> r.value.env.functions == env.functions))
    decreases fuel, ss, 0
  {
    if |ss| > 0 {
      ExecStatementSafe(fuel, env, ss[0], inLoop, inFunction, top, arities);
      var first := ExecStatement(fuel, env, ss[0]);
      if first.Success? && first.value.result == Normal {
        ExecStatementsSafe(fuel, first.value.env, ss[1..], inLoop, inFunction, top, Defines(arities, ss[0]));
      }
    }
  }

  lemma {:induction false} ExecLoopSafe(fuel: nat, env: Env, block: seq<Statement>, inFunction: bool, arities: map<string, int>)
    requires SafeStatements(block, true, inFunction, false, arities)
    requires Within(arities, Arities(env.functions)) && Registered(env.functions)
    requires inFunction ==> env.locals.Some?
    ensures var r := ExecLoop(fuel, env, block);
            (r.Failure? ==> Tolerated(r.error)) &&
            (r.Success? ==>
               Ends(r.value.result, false, inFunction) &&
               r.value.env.locals.Some? == env.locals.Some? && r.value.env.functions == env.functions)
    decreases fuel, block, 0
  {
    if fuel > 0 {
      ExecStatementsSafe(fuel - 1, env, block, true, inFunction, false, arities);
      var pass := ExecStatements(fuel - 1, env, block);
      if pass.Success? && pass.value.result == Normal {
        ExecLoopSafe(fuel - 1, pass.value.env, block, inFunction, arities);
      }
    }
  }

  /** A Safe program never throws an escaping Break or Return, nor any fault but the tolerated ones. */
  lemma InterpretSafe(fuel: nat, p: Program)
    requires SafeStatements(p.statements, false, false, true, InitialScope().functions)
    ensures Interpret(fuel, p).Failure? ==> Tolerated(Interpret(fuel, p).error)
  {
    ExecStatementsSafe(fuel, EmptyEnv(), p.statements, false, false, true, InitialScope().functions);
  }

  // ---------------------------------------------------------------------------
  // The pipeline

  /**
   * checker() then interpreter(): a checked program with definitions only at the top
   * level fails only by running out of fuel or reading a variable never assigned.
   */
  lemma CheckedProgramRuns(p: Program, fuel: nat)
    requires DefinitionsAtTopLevel(p.statements) && CheckProgram(p).Success?
    ensures Interpret(fuel, CheckProgram(p).value).Failure? ==>
              Interpret(fuel, CheckProgram(p).value).error == OutOfFuel ||
              Interpret(fuel, CheckProgram(p).value).error.Unassigned?
  {
    CheckProgramSafe(p);
    InterpretSafe(fuel, CheckProgram(p).value);
  }

  /** Every parsed program that the checker accepts runs with only the tolerated faults. */
  lemma ParsedProgramRuns(ts: seq<Tokens.Token>, fuel: nat)
    requires ParserSpec.ParseProgram(ts).Success? && CheckProgram(ParserSpec.ParseProgram(ts).value).Success?
    ensures var q := CheckProgram(ParserSpec.ParseProgram(ts).value).value;
            Interpret(fuel, q).Failure? ==> Tolerated(Interpret(fuel, q).error)
  {
    ParserShape.ParsedShape(ts);
    CheckedProgramRuns(ParserSpec.ParseProgram(ts).value, fuel);
  }

  // ---------------------------------------------------------------------------
  // Why definitions must stand at the top level

  /**
   * `loop { function f() { break; } break; } f();`, a tree the parser never builds:
   * the checked body of f inherits `inLoop` from the loop around the definition.
   */
  lemma NestedDefinitionChecks(p: Program)
    requires p == Program([Loop([FunctionDefinition("f", [], [Break]), Break]),
                           ExpressionStatement(FunctionCall("f", [], None))])
    ensures CheckProgram(p) == Success(Program([Loop([FunctionDefinition("f", [], [Break]), Break]),
                                                ExpressionStatement(FunctionCall("f", [], Some(UserDefined)))]))
  {
    var inLoop := InitialScope().(inLoop := true);
    var functions := map["print" := -1, "f" := 0];
    var inner := inLoop.(functions := functions, locals := Some([]));
    var definition := FunctionDefinition("f", [], [Break]);
    assert [Break][1..] == [] && [Break] + [] == [Break];
    assert CheckStatements(inner, [Break]) == Success(Checked(inner, [Break]));
    assert CheckStatement(inLoop, definition) == Success(Checked(inLoop.(functions := functions), definition));
    assert CheckStatements(inLoop.(functions := functions), [Break]) == Success(Checked(inLoop.(functions := functions), [Break]));
    assert [definition, Break][1..] == [Break] && [definition] + [Break] == [definition, Break];
    assert CheckStatements(inLoop, [definition, Break]) == Success(Checked(inLoop.(functions := functions), [definition, Break]));
    var after := InitialScope().(functions := functions);
    var call := ExpressionStatement(FunctionCall("f", [], Some(UserDefined)));
    assert CheckStatement(after, ExpressionStatement(FunctionCall("f", [], None))) == Success(Checked(after, call));
    assert [call] + [] == [call];
    assert CheckStatements(after, [ExpressionStatement(FunctionCall("f", [], None))]) == Success(Checked(after, [call]));
    assert p.statements[1..] == [ExpressionStatement(FunctionCall("f", [], None))];
    assert [Loop([definition, Break])] + [call] == [Loop([definition, Break]), call];
  }

  /** Running that checked tree lets the Break in f escape the program. */
  lemma NestedDefinitionEscapes(q: Program)
    requires q == Program([Loop([FunctionDefinition("f", [], [Break]), Break]),
                           ExpressionStatement(FunctionCall("f", [], Some(UserDefined)))])
    ensures Interpret(1, q) == Failure(UncaughtBreak)
  {
  }
}
