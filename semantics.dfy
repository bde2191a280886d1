/**
 * What interpreter.ts computes, as functions over an environment value. The State
 * of the source (the output lines, the function definitions met so far, the global
 * variables and the locals of the running call) is an Env; the Break and Return
 * exceptions are the Flow a statement ends with, and a Break that escapes a call
 * is the Broke result of an expression. Where JavaScript would carry on with
 * `undefined` or throw a TypeError the model stops with a Fault, and a `fuel`
 * count bounds loop passes and calls so that every run is finite.
 */
module Semantics {
  import opened Wrappers
  import opened Ast
  import Numerals

  /** A registered function: what the function-definition node holds. */
  datatype Definition = Definition(formals: seq<string>, body: seq<Statement>)

  /** The State record; `locals` is None outside any call. */
  datatype Env = Env(output: seq<string>, functions: map<string, Definition>, globals: map<string, int>, locals: Option<map<string, int>>)

  /** How a statement list ends: normally, or with the Break or the Return exception. */
  datatype Flow = Normal | BreakSig | ReturnSig(value: int)

  /** An expression's value, or Broke when a Break escaped from a call inside it. */
  datatype Eval = Value(value: int) | Broke

  /** A result together with the environment after it. */
  datatype Ran<+A> = Ran(env: Env, result: A)

  datatype Fault =
    | OutOfFuel                     // the run needs more loop passes or calls than allowed
    | Unassigned(name: string)      // a variable read before any assignment (undefined in JavaScript)
    | NoLocals(name: string)        // a local read or written outside any call (a TypeError)
    | UnknownFunction(name: string) // a call of a function never registered (a TypeError)
    | MissingActual(name: string)   // fewer actuals than formals, or `print()` (a TypeError)
    | UncaughtBreak                 // a Break escaping the whole program
    | UncaughtReturn(value: int)    // a Return escaping the whole program

  /** The State interpreter() and evaluateExpression() start from. */
  function EmptyEnv(): (env: Env)
    ensures env.output == [] && env.functions == map[] && env.globals == map[] && env.locals.None?
  {
    Env([], map[], map[], None)
  }

  /** The line the builtin `print` appends: the value in decimal and a newline. */
  function Line(v: int): (s: string)
    ensures |s| >= 2 && s[|s| - 1] == '\n' && s[..|s| - 1] == Numerals.IntToString(v)
  {
    Numerals.IntToString(v) + "\n"
  }

  /** output.join(''). */
  function Join(lines: seq<string>): string
  {
    if |lines| == 0 then "" else lines[0] + Join(lines[1..])
  }

  /**
   * env' is env after more of the run: the output extended at the end, and every
   * function and global variable still there (a later definition or assignment may
   * have replaced its value).
   */
  predicate Grows(env: Env, env': Env)
  {
    env.output <= env'.output && env.functions.Keys <= env'.functions.Keys && env.globals.Keys <= env'.globals.Keys
  }

  /** The value of a binary operation: `equals` gives 1 or 0, the others sum and difference. */
  function Apply(op: OpKind, a: int, b: int): (r: int)
    ensures op == Equals ==> (r == 1 <==> a == b) && (r == 0 <==> a != b)
    ensures op == Add ==> r - b == a
    ensures op == Subtract ==> r + b == a
  {
    match op
    case Equals => if a == b then 1 else 0
    case Add => a + b
    case Subtract => a - b
  }

  /** An identifier read: the globals when annotated global, the current locals otherwise. */
  function ReadVariable(env: Env, x: string, location: Option<VarLocation>): (r: Result<int, Fault>)
    ensures r.Success? <==>
              if location == Some(Global) then x in env.globals else env.locals.Some? && x in env.locals.value
  {
    if location == Some(Global) then
      if x in env.globals then Success(env.globals[x]) else Failure(Unassigned(x))
    else if env.locals.None? then Failure(NoLocals(x))
    else if x in env.locals.value then Success(env.locals.value[x])
    else Failure(Unassigned(x))
  }

  /** An assignment's store, into the map its annotation selects. */
  function WriteVariable(env: Env, x: string, location: Option<VarLocation>, v: int): (env': Env)
    requires location == Some(Global) || env.locals.Some?
    ensures ReadVariable(env', x, location) == Success(v)
    ensures forall y :: y != x ==> ReadVariable(env', y, location) == ReadVariable(env, y, location)
    ensures env'.output == env.output && env'.functions == env.functions && env'.locals.Some? == env.locals.Some?
  {
    if location == Some(Global) then env.(globals := env.globals[x := v])
    else env.(locals := Some(env.locals.value[x := v]))
  }

  /**
   * interpretExpression. Operands are evaluated left to right. A builtin call prints
   * its first actual and is worth 0; any other call evaluates the actuals for the
   * formals in the caller's State, runs the body with those as its only locals, and
   * is worth the returned value, or 0 when the body ends without `return`.
   */
  function EvalExpression(fuel: nat, env: Env, e: Expression): (r: Result<Ran<Eval>, Fault>)
    ensures r.Success? ==> Grows(env, r.value.env) && r.value.env.locals == env.locals
    decreases fuel, e, 0
  {
    match e
    case Operation(op, left, right) =>
      var l :- EvalExpression(fuel, env, left);
      if l.result.Broke? then Success(l)
      else
        var r :- EvalExpression(fuel, l.env, right);
        if r.result.Broke? then Success(r)
        else Success(Ran(r.env, Value(Apply(op, l.result.value, r.result.value))))
    case FunctionCall(f, actuals, location) =>
      if location == Some(Builtin) then
        if |actuals| == 0 then Failure(MissingActual(f))
        else
          var a :- EvalExpression(fuel, env, actuals[0]);
          if a.result.Broke? then Success(a)
          else Success(Ran(a.env.(output := a.env.output + [Line(a.result.value)]), Value(0)))
      else if f !in env.functions then Failure(UnknownFunction(f))
      else
        var definition := env.functions[f];
        var bound :- BindActuals(fuel, env, f, definition.formals, actuals, 0, map[]);
        if bound.result.None? then Success(Ran(bound.env, Broke))
        else if fuel == 0 then Failure(OutOfFuel)
        else
          Returned(ExecStatements(fuel - 1, bound.env.(locals := bound.result), definition.body), bound.env.locals)
    case Identifier(x, location) =>
      var v :- ReadVariable(env, x, location);
      Success(Ran(env, Value(v)))
    case LiteralNumber(v) =>
      Success(Ran(env, Value(v)))
  }

  /**
   * The end of a call: the body's run with the caller's locals put back, worth the
   * returned value, or 0 when the body ends without `return`; a Break goes on outwards.
   */
  function Returned(body: Result<Ran<Flow>, Fault>, caller: Option<map<string, int>>): (r: Result<Ran<Eval>, Fault>)
    ensures r.Success? ==> body.Success? && r.value.env == body.value.env.(locals := caller)
  {
    var run :- body;
    var back := run.env.(locals := caller);
    match run.result
    case Normal => Success(Ran(back, Value(0)))
    case ReturnSig(v) => Success(Ran(back, Value(v)))
    case BreakSig => Success(Ran(back, Broke))
  }

  /**
   * The loop that fills a call's fresh locals: formals k onwards, each bound to the
   * actual at the same position. The result is None when a Break escaped from an actual.
   */
  function BindActuals(fuel: nat, env: Env, f: string, formals: seq<string>, actuals: seq<Expression>,
                       k: nat, frame: map<string, int>): (r: Result<Ran<Option<map<string, int>>>, Fault>)
    requires k <= |formals|
    ensures r.Success? ==> Grows(env, r.value.env) && r.value.env.locals == env.locals
    ensures r.Success? && r.value.result.Some? ==>
              forall j :: 0 <= j < |formals| ==> formals[j] in frame || k <= j ==> formals[j] in r.value.result.value
    decreases fuel, actuals, |formals| - k
  {
    if k == |formals| then Success(Ran(env, Some(frame)))
    else if k >= |actuals| then Failure(MissingActual(f))
    else
      var a :- EvalExpression(fuel, env, actuals[k]);
      if a.result.Broke? then Success(Ran(a.env, None))
      else BindActuals(fuel, a.env, f, formals, actuals, k + 1, frame[formals[k] := a.result.value])
  }

  /** One pass of the loop in interpretStatements. */
  function ExecStatement(fuel: nat, env: Env, s: Statement): (r: Result<Ran<Flow>, Fault>)
    ensures r.Success? ==> Grows(env, r.value.env)
    decreases fuel, s, 0
  {
    match s
    case Assignment(x, e, location) =>
      if location != Some(Global) && env.locals.None? then Failure(NoLocals(x))
      else
        var a :- EvalExpression(fuel, env, e);
        if a.result.Broke? then Success(Ran(a.env, BreakSig))
        else Success(Ran(WriteVariable(a.env, x, location, a.result.value), Normal))
    case If(c, block) =>
      var a :- EvalExpression(fuel, env, c);
      if a.result.Broke? then Success(Ran(a.env, BreakSig))
      else if a.result.value != 0 then ExecStatements(fuel, a.env, block)
      else Success(Ran(a.env, Normal))
    case Loop(block) =>
      ExecLoop(fuel, env, block)
    case Break =>
      Success(Ran(env, BreakSig))
    case Return(e) =>
      var a :- EvalExpression(fuel, env, e);
      if a.result.Broke? then Success(Ran(a.env, BreakSig))
      else Success(Ran(a.env, ReturnSig(a.result.value)))
    case FunctionDefinition(f, formals, body) =>
      Success(Ran(env.(functions := env.functions[f := Definition(formals, body)]), Normal))
    case ExpressionStatement(e) =>
      var a :- EvalExpression(fuel, env, e);
      Success(Ran(a.env, if a.result.Broke? then BreakSig else Normal))
  }

  /** interpretStatements: the statements in order, up to the first Break or Return. */
  function ExecStatements(fuel: nat, env: Env, ss: seq<Statement>): (r: Result<Ran<Flow>, Fault>)
    ensures r.Success? ==> Grows(env, r.value.env)
    decreases fuel, ss, 0
  {
    if |ss| == 0 then Success(Ran(env, Normal))
    else
      var first :- ExecStatement(fuel, env, ss[0]);
      if first.result != Normal then Success(first)
      else ExecStatements(fuel, first.env, ss[1..])
  }

  /**
   * The `while (true)` of a loop statement, one pass of the block per unit of fuel:
   * a Break ends the loop normally, a Return ends it and goes on outwards.
   */
  function ExecLoop(fuel: nat, env: Env, block: seq<Statement>): (r: Result<Ran<Flow>, Fault>)
    ensures r.Success? ==> Grows(env, r.value.env) && r.value.result != BreakSig
    decreases fuel, block, 0
  {
    if fuel == 0 then Failure(OutOfFuel)
    else
      var pass :- ExecStatements(fuel - 1, env, block);
      match pass.result
      case Normal => ExecLoop(fuel - 1, pass.env, block)
      case BreakSig => Success(Ran(pass.env, Normal))
      case ReturnSig(_) => Success(pass)
  }

  /** interpreter(ast): the printed lines joined; a Break or Return escaping the program is thrown. */
  function Interpret(fuel: nat, p: Program): Result<string, Fault>
  {
    var run :- ExecStatements(fuel, EmptyEnv(), p.statements);
    match run.result
    case Normal => Success(Join(run.env.output))
    case BreakSig => Failure(UncaughtBreak)
    case ReturnSig(v) => Failure(UncaughtReturn(v))
  }

  /** evaluateExpression(expression): the value in an empty State, the output discarded. */
  function Evaluate(fuel: nat, e: Expression): Result<int, Fault>
  {
    var a :- EvalExpression(fuel, EmptyEnv(), e);
    if a.result.Broke? then Failure(UncaughtBreak) else Success(a.result.value)
  }
}
