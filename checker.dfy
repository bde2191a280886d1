/**
 * checker.ts as it runs: one mutable State whose `inLoop` flag, function map and
 * variable lists are updated while the statements are walked in order. The loop
 * case and the function-definition case check their block with a copy of the State
 * that differs in `inLoop` or in `locals` and shares everything else; here the one
 * object changes that field for the block and puts the old value back afterwards.
 * Every method is proved to agree with the functions of CheckerSpec, started from
 * the scope the object holds on entry.
 */
module Checker {
  import opened Wrappers
  import opened Ast
  import opened CheckerSpec

  /** The checked actuals s, with the actuals `xs` checked before them in front. */
  ghost function PrependActuals(xs: seq<Expression>, s: Result<seq<Expression>, CheckError>): Result<seq<Expression>, CheckError>
  {
    match s
    case Success(ys) => Success(xs + ys)
    case Failure(e) => Failure(e)
  }

  /** The checked statements s, with the statements `xs` checked before them in front. */
  ghost function PrependChecked(xs: seq<Statement>, s: Result<Checked<seq<Statement>>, CheckError>): Result<Checked<seq<Statement>>, CheckError>
  {
    match s
    case Success(c) => Success(Checked(c.scope, xs + c.node))
    case Failure(e) => Failure(e)
  }

  /** The method result r, with the object's scope left at `sc`, is the checker result s. */
  ghost predicate Agrees<A>(r: Result<A, CheckError>, s: Result<Checked<A>, CheckError>, sc: Scope)
  {
    match s
    case Success(c) => r == Success(c.node) && sc == c.scope
    case Failure(e) => r == Failure(e)
  }

  lemma PrependActualsNothing(s: Result<seq<Expression>, CheckError>)
    ensures PrependActuals([], s) == s
  {
    if s.Success? {
      assert [] + s.value == s.value;
    }
  }

  lemma PrependCheckedNothing(s: Result<Checked<seq<Statement>>, CheckError>)
    ensures PrependChecked([], s) == s
  {
    if s.Success? {
      assert [] + s.value.node == s.value.node;
    }
  }

  lemma ActualsStep(sc: Scope, es: seq<Expression>, k: nat, xs: seq<Expression>)
    requires k < |es|
    requires CheckExpression(sc, es[k]).Success?
    ensures PrependActuals(xs, CheckExpressions(sc, es[k..]))
         == PrependActuals(xs + [CheckExpression(sc, es[k]).value], CheckExpressions(sc, es[k + 1..]))
  {
    assert es[k..][1..] == es[k + 1..];
    var rest := CheckExpressions(sc, es[k + 1..]);
    if rest.Success? {
      var e := CheckExpression(sc, es[k]).value;
      assert xs + ([e] + rest.value) == (xs + [e]) + rest.value;
    }
  }

  lemma StatementsStep(sc: Scope, ss: seq<Statement>, k: nat, xs: seq<Statement>)
    requires k < |ss|
    requires CheckStatement(sc, ss[k]).Success?
    ensures PrependChecked(xs, CheckStatements(sc, ss[k..]))
         == PrependChecked(xs + [CheckStatement(sc, ss[k]).value.node],
                           CheckStatements(CheckStatement(sc, ss[k]).value.scope, ss[k + 1..]))
  {
    assert ss[k..][1..] == ss[k + 1..];
    var first := CheckStatement(sc, ss[k]).value;
    var rest := CheckStatements(first.scope, ss[k + 1..]);
    if rest.Success? {
      assert xs + ([first.node] + rest.value.node) == (xs + [first.node]) + rest.value.node;
    }
  }

  class Checker {
    var inLoop: bool
    var functions: map<string, int>
    var globals: seq<string>
    var locals: Option<seq<string>>

    /** The State the object holds, as a value. */
    function Scope(): Scope
      reads this
    {
      CheckerSpec.Scope(inLoop, functions, globals, locals)
    }

    /** The State checker() starts from: outside any loop and function, only `print` known. */
    constructor ()
      ensures Scope() == InitialScope()
    {
      inLoop := false;
      functions := map["print" := -1];
      globals := [];
      locals := None;
    }

    /** checkExpression: annotates the expression against the current State and changes nothing. */
    method CheckExpression(e: Expression) returns (r: Result<Expression, CheckError>)
      ensures r == CheckerSpec.CheckExpression(Scope(), e)
      decreases e
    {
      match e
      case Operation(op, left, right) =>
        var left' :- CheckExpression(left);
        var right' :- CheckExpression(right);
        return Success(Operation(op, left', right'));
      case FunctionCall(f, actuals, _) =>
        if (locals.Some? && f in locals.value) || f in globals {
          return Failure(NotAFunction(f));
        } else if f !in functions {
          return Failure(UndefinedFunction(f));
        } else if Abs(functions[f]) != |actuals| {
          return Failure(WrongNumberOfArguments(f, Abs(functions[f]), |actuals|));
        }
        var kind := if functions[f] < 0 then Builtin else UserDefined;
        var checked: seq<Expression> := [];
        assert actuals[0..] == actuals;
        PrependActualsNothing(CheckExpressions(Scope(), actuals));
        for k := 0 to |actuals|
          invariant CheckExpressions(Scope(), actuals) == PrependActuals(checked, CheckExpressions(Scope(), actuals[k..]))
        {
          var actual :- CheckExpression(actuals[k]);
          ActualsStep(Scope(), actuals, k, checked);
          checked := checked + [actual];
        }
        assert actuals[|actuals|..] == [] && checked + [] == checked;
        return Success(FunctionCall(f, checked, Some(kind)));
      case Identifier(x, _) =>
        if locals.Some? && x in locals.value {
          return Success(Identifier(x, Some(Local)));
        } else if x in globals {
          return Success(Identifier(x, Some(Global)));
        } else if x in functions {
          return Failure(NotAVariable(x));
        }
        return Failure(UndefinedIdentifier(x));
      case LiteralNumber(_) =>
        return Success(e);
    }

    /**
     * checkStatements: the statements checked in order, each against the State the
     * previous one left; on success the State is the one CheckerSpec computes.
     */
    method CheckStatements(ss: seq<Statement>) returns (r: Result<seq<Statement>, CheckError>)
      modifies this
      ensures Agrees(r, CheckerSpec.CheckStatements(old(Scope()), ss), Scope())
      decreases ss, 1
    {
      var checked: seq<Statement> := [];
      assert ss[0..] == ss;
      PrependCheckedNothing(CheckerSpec.CheckStatements(Scope(), ss));
      for k := 0 to |ss|
        invariant CheckerSpec.CheckStatements(old(Scope()), ss)
               == PrependChecked(checked, CheckerSpec.CheckStatements(Scope(), ss[k..]))
      {
        ghost var before := Scope();
        var statement :- CheckStatement(ss[k]);
        StatementsStep(before, ss, k, checked);
        checked := checked + [statement];
      }
      assert ss[|ss|..] == [] && checked + [] == checked;
      return Success(checked);
    }

    /** One pass of the loop in checkStatements. */
    method CheckStatement(s: Statement) returns (r: Result<Statement, CheckError>)
      modifies this
      ensures Agrees(r, CheckerSpec.CheckStatement(old(Scope()), s), Scope())
      decreases s, 0
    {
      match s
      case Assignment(x, e, _) =>
        var location: VarLocation;
        if locals.Some? && x in locals.value {
          location := Local;
        } else if x in globals {
          location := Global;
        } else if x in functions {
          return Failure(NotAVariable(x));
        } else if locals.Some? {
          location := Local;
          locals := Some(locals.value + [x]);
        } else {
          location := Global;
          globals := globals + [x];
        }
        var e' :- CheckExpression(e);
        return Success(Assignment(x, e', Some(location)));
      case If(c, block) =>
        var c' :- CheckExpression(c);
        var block' :- CheckStatements(block);
        return Success(If(c', block'));
      case Loop(block) =>
        var outer := inLoop;
        inLoop := true;
        var block' :- CheckStatements(block);
        inLoop := outer;
        return Success(Loop(block'));
      case Break =>
        if !inLoop {
          return Failure(UnexpectedBreak);
        }
        return Success(Break);
      case Return(e) =>
        if locals.None? {
          return Failure(UnexpectedReturn);
        }
        var e' :- CheckExpression(e);
        return Success(Return(e'));
      case FunctionDefinition(f, formals, body) =>
        if (locals.Some? && f in locals.value) || f in globals {
          return Failure(DefinedAsVariable(f));
        } else if f in functions {
          return Failure(AlreadyDefined(f));
        }
        functions := functions[f := |formals|];
        var outer := locals;
        locals := Some(formals);
        var body' :- CheckStatements(body);
        locals := outer;
        return Success(Statement.FunctionDefinition(f, formals, body'));
      case ExpressionStatement(e) =>
        var e' :- CheckExpression(e);
        return Success(ExpressionStatement(e'));
    }
  }

  /** checker(ast): the program checked from the initial State. */
  method Check(p: Program) returns (r: Result<Program, CheckError>)
    ensures r == CheckProgram(p)
  {
    var checker := new Checker();
    var statements :- checker.CheckStatements(p.statements);
    return Success(Program(statements));
  }
}
