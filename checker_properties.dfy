/**
 * What a successful check guarantees: the tree keeps its shape and gains every
 * annotation, the scope only grows (and a function body leaves no trace in the
 * globals or in the enclosing locals), `print` stays the only builtin, and no
 * name is both a global variable and a function.
 */
module CheckerProperties {
  import opened Wrappers
  import opened Ast
  import opened CheckerSpec

  // ---------------------------------------------------------------------------
  // The checked tree is the input tree with every annotation filled in

  lemma {:induction false} CheckExpressionAnnotates(sc: Scope, e: Expression)
    ensures CheckExpression(sc, e).Success? ==>
              EraseExpression(CheckExpression(sc, e).value) == EraseExpression(e) &&
              AnnotatedExpression(CheckExpression(sc, e).value)
    decreases e
  {
    match e
    case Operation(_, l, r) =>
      CheckExpressionAnnotates(sc, l);
      CheckExpressionAnnotates(sc, r);
    case FunctionCall(_, actuals, _) =>
      CheckExpressionsAnnotate(sc, actuals);
    case _ =>
  }

  lemma {:induction false} CheckExpressionsAnnotate(sc: Scope, es: seq<Expression>)
    ensures CheckExpressions(sc, es).Success? ==>
              EraseExpressions(CheckExpressions(sc, es).value) == EraseExpressions(es) &&
              AnnotatedExpressions(CheckExpressions(sc, es).value)
    decreases es
  {
    if |es| > 0 && CheckExpressions(sc, es).Success? {
      CheckExpressionAnnotates(sc, es[0]);
      CheckExpressionsAnnotate(sc, es[1..]);
      var e := CheckExpression(sc, es[0]).value;
      var rest := CheckExpressions(sc, es[1..]).value;
      assert ([e] + rest)[1..] == rest;
    }
  }

  lemma {:induction false} CheckStatementAnnotates(sc: Scope, s: Statement)
    ensures CheckStatement(sc, s).Success? ==>
              EraseStatement(CheckStatement(sc, s).value.node) == EraseStatement(s) &&
              AnnotatedStatement(CheckStatement(sc, s).value.node)
    decreases s
  {
    match s
    case Assignment(x, e, _) =>
      if DeclareTarget(sc, x).Success? {
        CheckExpressionAnnotates(DeclareTarget(sc, x).value.scope, e);
      }
    case If(c, block) =>
      CheckExpressionAnnotates(sc, c);
      CheckStatementsAnnotate(sc, block);
    case Loop(block) =>
      CheckStatementsAnnotate(sc.(inLoop := true), block);
    case Break =>
    case Return(e) =>
      CheckExpressionAnnotates(sc, e);
    case FunctionDefinition(f, formals, body) =>
      CheckStatementsAnnotate(sc.(functions := sc.functions[f := |formals|], locals := Some(formals)), body);
    case ExpressionStatement(e) =>
      CheckExpressionAnnotates(sc, e);
  }

  lemma {:induction false} CheckStatementsAnnotate(sc: Scope, ss: seq<Statement>)
    ensures CheckStatements(sc, ss).Success? ==>
              EraseStatements(CheckStatements(sc, ss).value.node) == EraseStatements(ss) &&
              AnnotatedStatements(CheckStatements(sc, ss).value.node)
    decreases ss
  {
    if |ss| > 0 && CheckStatements(sc, ss).Success? {
      CheckStatementAnnotates(sc, ss[0]);
      var first := CheckStatement(sc, ss[0]).value;
      CheckStatementsAnnotate(first.scope, ss[1..]);
      var rest := CheckStatements(first.scope, ss[1..]).value;
      assert ([first.node] + rest.node)[1..] == rest.node;
    }
  }

  /** On success every assignment, identifier and call carries its annotation, and nothing else changed. */
  lemma CheckProgramAnnotates(p: Program)
    ensures CheckProgram(p).Success? ==>
              EraseStatements(CheckProgram(p).value.statements) == EraseStatements(p.statements) &&
              AnnotatedStatements(CheckProgram(p).value.statements)
  {
    CheckStatementsAnnotate(InitialScope(), p.statements);
  }

  // ---------------------------------------------------------------------------
  // The scope only grows

  /**
   * sc' extends sc: the same `inLoop`, every function kept with its arity, the
   * globals and the locals extended at the end, and no locals appear at the top level.
   */
  predicate Extends(sc: Scope, sc': Scope)
  {
    sc'.inLoop == sc.inLoop &&
    (forall f :: f in sc.functions ==> f in sc'.functions && sc'.functions[f] == sc.functions[f]) &&
    sc.globals <= sc'.globals &&
    sc'.locals.Some? == sc.locals.Some? &&
    (sc.locals.Some? ==> sc.locals.value <= sc'.locals.value && sc'.globals == sc.globals)
  }

  lemma ExtendsTransitive(a: Scope, b: Scope, c: Scope)
    requires Extends(a, b) && Extends(b, c)
    ensures Extends(a, c)
  {
    if a.locals.Some? {
      assert a.locals.value <= c.locals.value;
    }
  }

  lemma {:induction false} CheckStatementExtends(sc: Scope, s: Statement)
    ensures CheckStatement(sc, s).Success? ==> Extends(sc, CheckStatement(sc, s).value.scope)
    decreases s
  {
    match s
    case If(c, block) =>
      CheckStatementsExtend(sc, block);
    case Loop(block) =>
      CheckStatementsExtend(sc.(inLoop := true), block);
    case FunctionDefinition(f, formals, body) =>
      var inner := sc.(functions := sc.functions[f := |formals|], locals := Some(formals));
      CheckStatementsExtend(inner, body);
    case _ =>
  }

  /**
   * Checking statements only adds to the scope. Inside a function the globals stay as
   * they are, and the locals a function body declares are gone once the definition is checked.
   */
  lemma {:induction false} CheckStatementsExtend(sc: Scope, ss: seq<Statement>)
    ensures CheckStatements(sc, ss).Success? ==> Extends(sc, CheckStatements(sc, ss).value.scope)
    decreases ss
  {
    if |ss| > 0 && CheckStatements(sc, ss).Success? {
      CheckStatementExtends(sc, ss[0]);
      var first := CheckStatement(sc, ss[0]).value;
      CheckStatementsExtend(first.scope, ss[1..]);
      ExtendsTransitive(sc, first.scope, CheckStatements(first.scope, ss[1..]).value.scope);
    }
  }

  // ---------------------------------------------------------------------------
  // `print` is the only builtin, and functions and globals do not share names

  /**
   * A scope that checker() can reach: `print` is stored as -1, every other function
   * with its (non-negative) number of formals, and no global is a function name.
   */
  predicate Consistent(sc: Scope)
  {
    "print" in sc.functions && sc.functions["print"] == -1 &&
    (forall f :: f in sc.functions && f != "print" ==> sc.functions[f] >= 0) &&
    (forall x :: x in sc.globals ==> x !in sc.functions)
  }

  lemma InitialConsistent()
    ensures Consistent(InitialScope())
  {
  }

  lemma {:induction false} CheckStatementKeepsConsistent(sc: Scope, s: Statement)
    requires Consistent(sc)
    ensures CheckStatement(sc, s).Success? ==> Consistent(CheckStatement(sc, s).value.scope)
    decreases s
  {
    match s
    case If(c, block) =>
      CheckStatementsKeepConsistent(sc, block);
    case Loop(block) =>
      CheckStatementsKeepConsistent(sc.(inLoop := true), block);
    case FunctionDefinition(f, formals, body) =>
      var inner := sc.(functions := sc.functions[f := |formals|], locals := Some(formals));
      if CheckStatement(sc, s).Success? {
        assert Consistent(inner);
        CheckStatementsKeepConsistent(inner, body);
      }
    case _ =>
  }

  lemma {:induction false} CheckStatementsKeepConsistent(sc: Scope, ss: seq<Statement>)
    requires Consistent(sc)
    ensures CheckStatements(sc, ss).Success? ==> Consistent(CheckStatements(sc, ss).value.scope)
    decreases ss
  {
    if |ss| > 0 && CheckStatements(sc, ss).Success? {
      CheckStatementKeepsConsistent(sc, ss[0]);
      CheckStatementsKeepConsistent(CheckStatement(sc, ss[0]).value.scope, ss[1..]);
    }
  }

  /**
   * In a consistent scope a call is annotated as the builtin exactly when it calls
   * `print`, and a call of `print` passes exactly one actual.
   */
  lemma CallKind(sc: Scope, f: string, actuals: seq<Expression>, kind: Option<CallLocation>)
    requires Consistent(sc)
    ensures CheckExpression(sc, FunctionCall(f, actuals, kind)).Success? ==>
              (CheckExpression(sc, FunctionCall(f, actuals, kind)).value.calleeKind == Some(Builtin) <==> f == "print") &&
              (f == "print" ==> |actuals| == 1)
  {
  }
}
