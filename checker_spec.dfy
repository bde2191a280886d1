/**
 * The name resolution of checker.ts as functions over a scope value. A check
 * either fails with the first error, or gives the annotated tree together with the
 * scope as the statements left it. In the source the scope is one mutable record
 * whose arrays and map are shared with the copies made for a loop body and a
 * function body; a copy differs only in `inLoop` (loop) or in a fresh `locals`
 * array (function definition), which is what the scopes below pass down and take back.
 */
module CheckerSpec {
  import opened Wrappers
  import opened Ast

  /**
   * The State record: whether a `break` is allowed, the arity of each function
   * (`print` as -1), the global variables, and the locals of the function being
   * checked (None at the top level).
   */
  datatype Scope = Scope(inLoop: bool, functions: map<string, int>, globals: seq<string>, locals: Option<seq<string>>)

  datatype CheckError =
    | UnexpectedBreak
    | UnexpectedReturn
    | DefinedAsVariable(name: string)         // "Function already defined as variable"
    | AlreadyDefined(name: string)            // "Function already defined"
    | NotAVariable(name: string)
    | NotAFunction(name: string)
    | UndefinedFunction(name: string)
    | WrongNumberOfArguments(name: string, expected: nat, got: nat)
    | UndefinedIdentifier(name: string)

  /** A checked node and the scope after it. */
  datatype Checked<+A> = Checked(scope: Scope, node: A)

  /** The scope checker() starts from: only the builtin `print`, of arity 1 stored as -1. */
  function InitialScope(): (sc: Scope)
    ensures sc.functions.Keys == {"print"} && sc.globals == [] && sc.locals.None? && !sc.inLoop
  {
    Scope(false, map["print" := -1], [], None)
  }

  predicate IsLocal(sc: Scope, x: string)
  {
    sc.locals.Some? && x in sc.locals.value
  }

  predicate IsGlobal(sc: Scope, x: string)
  {
    x in sc.globals
  }

  function Abs(n: int): (m: nat)
    ensures m == n || m == -n
  {
    if n < 0 then -n else n
  }

  /** An identifier read: a local, else a global; a function name or an unknown name is an error. */
  function ResolveRead(sc: Scope, x: string): (r: Result<VarLocation, CheckError>)
    ensures r == Success(Local) <==> IsLocal(sc, x)
    ensures r == Success(Global) <==> !IsLocal(sc, x) && IsGlobal(sc, x)
  {
    if IsLocal(sc, x) then Success(Local)
    else if IsGlobal(sc, x) then Success(Global)
    else if x in sc.functions then Failure(NotAVariable(x))
    else Failure(UndefinedIdentifier(x))
  }

  /**
   * An assignment target: a known local, else a known global; a function name is an
   * error; a new name is declared as a local inside a function and as a global outside.
   */
  function DeclareTarget(sc: Scope, x: string): (r: Result<Checked<VarLocation>, CheckError>)
    ensures r.Failure? <==> !IsLocal(sc, x) && !IsGlobal(sc, x) && x in sc.functions
    ensures r.Success? ==> ResolveRead(r.value.scope, x) == Success(r.value.node)
  {
    if IsLocal(sc, x) then Success(Checked(sc, Local))
    else if IsGlobal(sc, x) then Success(Checked(sc, Global))
    else if x in sc.functions then Failure(NotAVariable(x))
    else if sc.locals.Some? then Success(Checked(sc.(locals := Some(sc.locals.value + [x])), Local))
    else Success(Checked(sc.(globals := sc.globals + [x]), Global))
  }

  /** checkExpression: the expression with its identifiers and calls annotated. */
  function CheckExpression(sc: Scope, e: Expression): Result<Expression, CheckError>
    decreases e
  {
    match e
    case Operation(op, l, r) =>
      var l' :- CheckExpression(sc, l);
      var r' :- CheckExpression(sc, r);
      Success(Operation(op, l', r'))
    case FunctionCall(f, actuals, _) =>
      if IsLocal(sc, f) || IsGlobal(sc, f) then Failure(NotAFunction(f))
      else if f !in sc.functions then Failure(UndefinedFunction(f))
      else if Abs(sc.functions[f]) != |actuals| then Failure(WrongNumberOfArguments(f, Abs(sc.functions[f]), |actuals|))
      else
        var kind := if sc.functions[f] < 0 then Builtin else UserDefined;
        var actuals' :- CheckExpressions(sc, actuals);
        Success(FunctionCall(f, actuals', Some(kind)))
    case Identifier(x, _) =>
      var location :- ResolveRead(sc, x);
      Success(Identifier(x, Some(location)))
    case LiteralNumber(_) => Success(e)
  }

  /** The actuals of a call, checked left to right. */
  function CheckExpressions(sc: Scope, es: seq<Expression>): Result<seq<Expression>, CheckError>
    decreases es
  {
    if |es| == 0 then Success([])
    else
      var e :- CheckExpression(sc, es[0]);
      var rest :- CheckExpressions(sc, es[1..]);
      Success([e] + rest)
  }

  /** One pass of the loop in checkStatements. */
  function CheckStatement(sc: Scope, s: Statement): Result<Checked<Statement>, CheckError>
    decreases s
  {
    match s
    case Assignment(x, e, _) =>
      var target :- DeclareTarget(sc, x);
      var e' :- CheckExpression(target.scope, e);
      Success(Checked(target.scope, Assignment(x, e', Some(target.node))))
    case If(c, block) =>
      var c' :- CheckExpression(sc, c);
      var b :- CheckStatements(sc, block);
      Success(Checked(b.scope, If(c', b.node)))
    case Loop(block) =>
      var b :- CheckStatements(sc.(inLoop := true), block);
      Success(Checked(b.scope.(inLoop := sc.inLoop), Loop(b.node)))
    case Break =>
      if !sc.inLoop then Failure(UnexpectedBreak) else Success(Checked(sc, Break))
    case Return(e) =>
      if sc.locals.None? then Failure(UnexpectedReturn)
      else
        var e' :- CheckExpression(sc, e);
        Success(Checked(sc, Return(e')))
    case FunctionDefinition(f, formals, body) =>
      if IsLocal(sc, f) || IsGlobal(sc, f) then Failure(DefinedAsVariable(f))
      else if f in sc.functions then Failure(AlreadyDefined(f))
      else
        var inner := sc.(functions := sc.functions[f := |formals|], locals := Some(formals));
        var b :- CheckStatements(inner, body);
        Success(Checked(b.scope.(locals := sc.locals), FunctionDefinition(f, formals, b.node)))
    case ExpressionStatement(e) =>
      var e' :- CheckExpression(sc, e);
      Success(Checked(sc, ExpressionStatement(e')))
  }

  /** checkStatements: the statements checked in order, each in the scope the previous left. */
  function CheckStatements(sc: Scope, ss: seq<Statement>): Result<Checked<seq<Statement>>, CheckError>
    decreases ss
  {
    if |ss| == 0 then Success(Checked(sc, []))
    else
      var first :- CheckStatement(sc, ss[0]);
      var rest :- CheckStatements(first.scope, ss[1..]);
      Success(Checked(rest.scope, [first.node] + rest.node))
  }

  /** checker(ast): the whole program from the initial scope; the result is the annotated tree. */
  function CheckProgram(p: Program): Result<Program, CheckError>
  {
    var r :- CheckStatements(InitialScope(), p.statements);
    Success(Program(r.node))
  }
}
