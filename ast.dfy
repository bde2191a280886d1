/**
 * The abstract syntax tree shared by the parser, the checker and the interpreter
 * (common.ts). Three kinds of node carry an optional annotation that the checker
 * fills in and the interpreter reads: assignments and identifiers say whether the
 * variable is global or local, calls say whether the callee is the builtin.
 */
module Ast {
  import opened Wrappers

  datatype VarLocation = Global | Local

  datatype CallLocation = Builtin | UserDefined

  datatype OpKind = Equals | Add | Subtract

  datatype Expression =
    | Operation(op: OpKind, left: Expression, right: Expression)
    | FunctionCall(identifier: string, actuals: seq<Expression>, calleeKind: Option<CallLocation>)
    | Identifier(name: string, location: Option<VarLocation>)
    | LiteralNumber(value: int)

  /** A bare expression used as a statement is wrapped in ExpressionStatement. */
  datatype Statement =
    | Assignment(identifier: string, expression: Expression, location: Option<VarLocation>)
    | If(condition: Expression, block: seq<Statement>)
    | Loop(block: seq<Statement>)
    | Break
    | Return(expression: Expression)
    | FunctionDefinition(identifier: string, formals: seq<string>, body: seq<Statement>)
    | ExpressionStatement(expression: Expression)

  datatype Program = Program(statements: seq<Statement>)

  /** The tree with every annotation removed: what the parser produces. */
  function EraseExpression(e: Expression): Expression
  {
    match e
    case Operation(op, l, r) => Operation(op, EraseExpression(l), EraseExpression(r))
    case FunctionCall(f, actuals, _) => FunctionCall(f, EraseExpressions(actuals), None)
    case Identifier(x, _) => Identifier(x, None)
    case LiteralNumber(n) => e
  }

  function EraseExpressions(es: seq<Expression>): (r: seq<Expression>)
    ensures |r| == |es|
  {
    if |es| == 0 then [] else [EraseExpression(es[0])] + EraseExpressions(es[1..])
  }

  function EraseStatement(s: Statement): Statement
  {
    match s
    case Assignment(x, e, _) => Assignment(x, EraseExpression(e), None)
    case If(c, block) => If(EraseExpression(c), EraseStatements(block))
    case Loop(block) => Loop(EraseStatements(block))
    case Break => Break
    case Return(e) => Return(EraseExpression(e))
    case FunctionDefinition(f, formals, body) => FunctionDefinition(f, formals, EraseStatements(body))
    case ExpressionStatement(e) => ExpressionStatement(EraseExpression(e))
  }

  function EraseStatements(ss: seq<Statement>): (r: seq<Statement>)
    ensures |r| == |ss|
  {
    if |ss| == 0 then [] else [EraseStatement(ss[0])] + EraseStatements(ss[1..])
  }

  /** Every identifier and call of the expression carries its annotation. */
  predicate AnnotatedExpression(e: Expression)
  {
    match e
    case Operation(_, l, r) => AnnotatedExpression(l) && AnnotatedExpression(r)
    case FunctionCall(_, actuals, kind) => kind.Some? && AnnotatedExpressions(actuals)
    case Identifier(_, loc) => loc.Some?
    case LiteralNumber(_) => true
  }

  predicate AnnotatedExpressions(es: seq<Expression>)
  {
    forall k :: 0 <= k < |es| ==> AnnotatedExpression(es[k])
  }

  /** Every assignment, identifier and call of the statement carries its annotation. */
  predicate AnnotatedStatement(s: Statement)
  {
    match s
    case Assignment(_, e, loc) => loc.Some? && AnnotatedExpression(e)
    case If(c, block) => AnnotatedExpression(c) && AnnotatedStatements(block)
    case Loop(block) => AnnotatedStatements(block)
    case Break => true
    case Return(e) => AnnotatedExpression(e)
    case FunctionDefinition(_, _, body) => AnnotatedStatements(body)
    case ExpressionStatement(e) => AnnotatedExpression(e)
  }

  predicate AnnotatedStatements(ss: seq<Statement>)
  {
    forall k :: 0 <= k < |ss| ==> AnnotatedStatement(ss[k])
  }

  /** No annotation anywhere: the shape of a freshly parsed tree. */
  predicate BareExpression(e: Expression)
  {
    match e
    case Operation(_, l, r) => BareExpression(l) && BareExpression(r)
    case FunctionCall(_, actuals, kind) => kind.None? && BareExpressions(actuals)
    case Identifier(_, loc) => loc.None?
    case LiteralNumber(_) => true
  }

  predicate BareExpressions(es: seq<Expression>)
  {
    forall k :: 0 <= k < |es| ==> BareExpression(es[k])
  }

  predicate BareStatement(s: Statement)
  {
    match s
    case Assignment(_, e, loc) => loc.None? && BareExpression(e)
    case If(c, block) => BareExpression(c) && BareStatements(block)
    case Loop(block) => BareStatements(block)
    case Break => true
    case Return(e) => BareExpression(e)
    case FunctionDefinition(_, _, body) => BareStatements(body)
    case ExpressionStatement(e) => BareExpression(e)
  }

  predicate BareStatements(ss: seq<Statement>)
  {
    forall k :: 0 <= k < |ss| ==> BareStatement(ss[k])
  }

  /** No function definition anywhere in the statement. */
  predicate NoDefinitionIn(s: Statement)
  {
    match s
    case FunctionDefinition(_, _, _) => false
    case If(_, block) => NoDefinitions(block)
    case Loop(block) => NoDefinitions(block)
    case _ => true
  }

  predicate NoDefinitions(ss: seq<Statement>)
  {
    forall k :: 0 <= k < |ss| ==> NoDefinitionIn(ss[k])
  }

  /** A top-level statement: a definition whose body defines nothing, or a statement that defines nothing. */
  predicate TopLevelShape(s: Statement)
  {
    match s
    case FunctionDefinition(_, _, body) => NoDefinitions(body)
    case _ => NoDefinitionIn(s)
  }

  /** Function definitions occur only at the top level, as the parser's grammar has it. */
  predicate DefinitionsAtTopLevel(ss: seq<Statement>)
  {
    forall k :: 0 <= k < |ss| ==> TopLevelShape(ss[k])
  }
}
