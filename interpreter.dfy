/**
 * interpreter.ts as it runs: one State object whose output list, function table,
 * globals and locals are updated in place while the tree is walked. A call gives
 * the callee a State that shares everything with the caller's except a fresh locals
 * map; here the one object swaps in the callee's locals for the body and puts the
 * caller's back afterwards. Break and Return travel as the returned Flow rather than
 * as exceptions. Every method is proved to agree with the functions of Semantics,
 * started from the State the object holds on entry.
 */
module Interpreter {
  import opened Wrappers
  import opened Ast
  import opened Semantics

  /** The method result r, with the object's State left at `env`, is the semantic result s. */
  ghost predicate Agrees<A>(r: Result<A, Fault>, s: Result<Ran<A>, Fault>, env: Env)
  {
    match s
    case Success(ran) => r == Success(ran.result) && env == ran.env
    case Failure(f) => r == Failure(f)
  }

  lemma StatementsStep(fuel: nat, env: Env, ss: seq<Statement>, k: nat)
    requires k < |ss|
    requires ExecStatement(fuel, env, ss[k]).Success? && ExecStatement(fuel, env, ss[k]).value.result == Normal
    ensures ExecStatements(fuel, env, ss[k..]) == ExecStatements(fuel, ExecStatement(fuel, env, ss[k]).value.env, ss[k + 1..])
  {
    assert ss[k..][1..] == ss[k + 1..];
  }

  class Interpreter {
    var output: seq<string>
    var functions: map<string, Definition>
    var globals: map<string, int>
    var locals: Option<map<string, int>>

    /** The State the object holds, as a value. */
    function Env(): Env
      reads this
    {
      Semantics.Env(output, functions, globals, locals)
    }

    /** The State interpreter() starts from: no output, no functions, no variables. */
    constructor ()
      ensures Env() == EmptyEnv()
    {
      output := [];
      functions := map[];
      globals := map[];
      locals := None;
    }

    /** interpretExpression. */
    method InterpretExpression(fuel: nat, e: Expression) returns (r: Result<Eval, Fault>)
      modifies this
      ensures Agrees(r, EvalExpression(fuel, old(Env()), e), Env())
      decreases fuel, e, 1
    {
      match e
      case Operation(op, left, right) =>
        var l :- InterpretExpression(fuel, left);
        if l.Broke? {
          return Success(Broke);
        }
        var r' :- InterpretExpression(fuel, right);
        if r'.Broke? {
          return Success(Broke);
        }
        return Success(Value(Apply(op, l.value, r'.value)));
      case FunctionCall(f, actuals, location) =>
        if location == Some(Builtin) {
          r := Print(fuel, f, actuals);
        } else {
          r := Call(fuel, f, actuals, location);
        }
      case Identifier(x, location) =>
        if location == Some(Global) {
          if x !in globals {
            return Failure(Unassigned(x));
          }
          return Success(Value(globals[x]));
        }
        if locals.None? {
          return Failure(NoLocals(x));
        }
        if x !in locals.value {
          return Failure(Unassigned(x));
        }
        return Success(Value(locals.value[x]));
      case LiteralNumber(v) =>
        return Success(Value(v));
    }

    /** The builtin branch of interpretExpression: print the first actual, worth 0. */
    method Print(fuel: nat, f: string, actuals: seq<Expression>) returns (r: Result<Eval, Fault>)
      modifies this
      ensures Agrees(r, EvalExpression(fuel, old(Env()), FunctionCall(f, actuals, Some(Builtin))), Env())
      decreases fuel, FunctionCall(f, actuals, Some(Builtin)), 0
    {
      if |actuals| == 0 {
        return Failure(MissingActual(f));
      }
      var a :- InterpretExpression(fuel, actuals[0]);
      if a.Broke? {
        return Success(Broke);
      }
      output := output + [Line(a.value)];
      return Success(Value(0));
    }

    /**
     * The user-defined branch of interpretExpression: bind the actuals to the formals
     * in a fresh locals map, run the body with it, and give the caller its locals back.
     */
    method Call(fuel: nat, f: string, actuals: seq<Expression>, location: Option<CallLocation>) returns (r: Result<Eval, Fault>)
      requires location != Some(Builtin)
      modifies this
      ensures Agrees(r, EvalExpression(fuel, old(Env()), FunctionCall(f, actuals, location)), Env())
      decreases fuel, FunctionCall(f, actuals, location), 0
    {
      if f !in functions {
        return Failure(UnknownFunction(f));
      }
      var definition := functions[f];
      var bound :- Bind(fuel, f, definition.formals, actuals);
      if bound.None? {
        return Success(Broke);
      }
      if fuel == 0 {
        return Failure(OutOfFuel);
      }
      var caller := locals;
      locals := bound;
      var flow :- InterpretStatements(fuel - 1, definition.body);
      locals := caller;
      match flow {
        case Normal => return Success(Value(0));
        case ReturnSig(v) => return Success(Value(v));
        case BreakSig => return Success(Broke);
      }
    }

    /**
     * The loop of a call that fills the callee's fresh locals: each formal bound to
     * the actual at its position, evaluated in the caller's State; None when a Break
     * escaped from an actual.
     */
    method Bind(fuel: nat, f: string, formals: seq<string>, actuals: seq<Expression>)
      returns (r: Result<Option<map<string, int>>, Fault>)
      modifies this
      ensures Agrees(r, BindActuals(fuel, old(Env()), f, formals, actuals, 0, map[]), Env())
      decreases fuel, actuals, 0
    {
      var frame: map<string, int> := map[];
      for k := 0 to |formals|
        invariant BindActuals(fuel, old(Env()), f, formals, actuals, 0, map[])
               == BindActuals(fuel, Env(), f, formals, actuals, k, frame)
      {
        if k >= |actuals| {
          return Failure(MissingActual(f));
        }
        var a :- InterpretExpression(fuel, actuals[k]);
        if a.Broke? {
          return Success(None);
        }
        frame := frame[formals[k] := a.value];
      }
      return Success(Some(frame));
    }

    /** interpretStatements: runs the statements in order until one ends with Break or Return. */
    method InterpretStatements(fuel: nat, ss: seq<Statement>) returns (r: Result<Flow, Fault>)
      modifies this
      ensures Agrees(r, ExecStatements(fuel, old(Env()), ss), Env())
      decreases fuel, ss, 1
    {
      assert ss[0..] == ss;
      for k := 0 to |ss|
        invariant ExecStatements(fuel, old(Env()), ss) == ExecStatements(fuel, Env(), ss[k..])
      {
        ghost var before := Env();
        var flow :- InterpretStatement(fuel, ss[k]);
        if flow != Normal {
          return Success(flow);
        }
        StatementsStep(fuel, before, ss, k);
      }
      assert ss[|ss|..] == [];
      return Success(Normal);
    }

    /** One pass of the loop in interpretStatements. */
    method InterpretStatement(fuel: nat, s: Statement) returns (r: Result<Flow, Fault>)
      modifies this
      ensures Agrees(r, ExecStatement(fuel, old(Env()), s), Env())
      decreases fuel, s, 0
    {
      match s
      case Assignment(x, e, location) =>
        if location != Some(Global) && locals.None? {
          return Failure(NoLocals(x));
        }
        var a :- InterpretExpression(fuel, e);
        if a.Broke? {
          return Success(BreakSig);
        }
        if location == Some(Global) {
          globals := globals[x := a.value];
        } else {
          locals := Some(locals.value[x := a.value]);
        }
        return Success(Normal);
      case If(c, block) =>
        var a :- InterpretExpression(fuel, c);
        if a.Broke? {
          return Success(BreakSig);
        }
        if a.value != 0 {
          r := InterpretStatements(fuel, block);
          return;
        }
        return Success(Normal);
      case Loop(block) =>
        var budget: nat := fuel;
        while true
          invariant budget <= fuel
          invariant ExecStatement(fuel, old(Env()), s) == ExecLoop(budget, Env(), block)
          decreases budget
        {
          if budget == 0 {
            return Failure(OutOfFuel);
          }
          var flow :- InterpretStatements(budget - 1, block);
          if flow == BreakSig {
            return Success(Normal);
          }
          if flow != Normal {
            return Success(flow);
          }
          budget := budget - 1;
        }
      case Break =>
        return Success(BreakSig);
      case Return(e) =>
        var a :- InterpretExpression(fuel, e);
        if a.Broke? {
          return Success(BreakSig);
        }
        return Success(ReturnSig(a.value));
      case FunctionDefinition(f, formals, body) =>
        functions := functions[f := Definition(formals, body)];
        return Success(Normal);
      case ExpressionStatement(e) =>
        var a :- InterpretExpression(fuel, e);
        return Success(if a.Broke? then BreakSig else Normal);
    }
  }

  /** interpreter(ast): runs the program from the empty State and joins the output. */
  method Run(fuel: nat, p: Program) returns (r: Result<string, Fault>)
    ensures r == Interpret(fuel, p)
  {
    var interpreter := new Interpreter();
    var flow :- interpreter.InterpretStatements(fuel, p.statements);
    match flow
    case Normal => return Success(Join(interpreter.output));
    case BreakSig => return Failure(UncaughtBreak);
    case ReturnSig(v) => return Failure(UncaughtReturn(v));
  }

  /** evaluateExpression(expression): the value in a fresh State. */
  method EvaluateExpression(fuel: nat, e: Expression) returns (r: Result<int, Fault>)
    ensures r == Evaluate(fuel, e)
  {
    var interpreter := new Interpreter();
    var a :- interpreter.InterpretExpression(fuel, e);
    if a.Broke? {
      return Failure(UncaughtBreak);
    }
    return Success(a.value);
  }
}
