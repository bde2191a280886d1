/**
 * What every successful parse produces: a tree without annotations (the checker
 * adds those later), in which function definitions stand only at the top level.
 * Together with the round trip of ParserProperties this says the grammar reads
 * exactly the annotation-free programs with top-level definitions.
 */
module ParserShape {
  import opened Wrappers
  import opened Ast
  import opened ParserSpec
  import opened ParserProperties
  import T = Tokens

  lemma {:induction false} SubExpressionBare(ts: seq<T.Token>, i: nat)
    requires i <= |ts|
    ensures SubExpressionAt(ts, i).Success? ==> BareExpression(SubExpressionAt(ts, i).value.node)
    decreases |ts| - i, 0
  {
    if SubExpressionAt(ts, i).Success? {
      if ts[i].tokenType == T.LeftParen {
        ExpressionBare(ts, i + 1);
      } else if i + 2 <= |ts| {
        ActualsBare(ts, i + 2);
      }
    }
  }

  lemma {:induction false} ExpressionBare(ts: seq<T.Token>, i: nat)
    requires i <= |ts|
    ensures ExpressionAt(ts, i).Success? ==> BareExpression(ExpressionAt(ts, i).value.node)
    decreases |ts| - i, 1
  {
    SubExpressionBare(ts, i);
    var left := SubExpressionAt(ts, i);
    if left.Success? && left.value.next + 1 <= |ts| {
      ExpressionBare(ts, left.value.next + 1);
    }
  }

  lemma {:induction false} ActualsBare(ts: seq<T.Token>, i: nat)
    requires i <= |ts|
    ensures ActualsAt(ts, i).Success? ==> BareExpressions(ActualsAt(ts, i).value.node)
    decreases |ts| - i, 2
  {
    ExpressionBare(ts, i);
    var e := ExpressionAt(ts, i);
    if ActualsAt(ts, i).Success? && e.value.next + 1 <= |ts| {
      ActualsBare(ts, e.value.next + 1);
    }
  }

  lemma {:induction false} StatementsShape(ts: seq<T.Token>, i: nat, toplevel: bool)
    requires i <= |ts|
    ensures StatementsAt(ts, i, toplevel).Success? ==>
              BareStatements(StatementsAt(ts, i, toplevel).value.node) &&
              AllPlaced(StatementsAt(ts, i, toplevel).value.node, toplevel)
    decreases |ts| - i, 4
  {
    if i < |ts| {
      StatementShape(ts, i, toplevel);
      var step := StatementAt(ts, i, toplevel);
      if step.Success? && step.value.Item? {
        StatementsShape(ts, step.value.next, toplevel);
      }
    }
  }

  lemma {:induction false} StatementShape(ts: seq<T.Token>, i: nat, toplevel: bool)
    requires i < |ts|
    ensures StatementAt(ts, i, toplevel).Success? && StatementAt(ts, i, toplevel).value.Item? ==>
              BareStatement(StatementAt(ts, i, toplevel).value.statement) &&
              Placed(StatementAt(ts, i, toplevel).value.statement, toplevel)
    decreases |ts| - i, 3
  {
    var r := StatementAt(ts, i, toplevel);
    if r.Success? && r.value.Item? {
      if MatchAt(ts, i, T.Identifier, None, Some(T.Assignment)) == Success(true) {
        ExpressionBare(ts, i + 2);
      } else if IsKeywordAt(ts, i, "if") {
        ExpressionBare(ts, i + 2);
        var c := ExpressionAt(ts, i + 2);
        StatementsShape(ts, c.value.next + 2, false);
      } else if IsKeywordAt(ts, i, "loop") {
        StatementsShape(ts, i + 2, false);
      } else if IsKeywordAt(ts, i, "break") {
      } else if IsKeywordAt(ts, i, "return") {
        ExpressionBare(ts, i + 1);
      } else if toplevel && IsKeywordAt(ts, i, "function") {
        FunctionDefinitionShape(ts, i);
      } else {
        ExpressionBare(ts, i);
      }
    }
  }

  lemma {:induction false} FunctionDefinitionShape(ts: seq<T.Token>, i: nat)
    requires i <= |ts|
    ensures FunctionDefinitionAt(ts, i).Success? ==>
              BareStatement(FunctionDefinitionAt(ts, i).value.node) &&
              TopLevelShape(FunctionDefinitionAt(ts, i).value.node)
    decreases |ts| - i, 2
  {
    if FunctionDefinitionAt(ts, i).Success? {
      var k := i + 3;
      var formals := if ts[k].tokenType == T.RightParen then Success(Parsed([], k + 1)) else FormalsAt(ts, k);
      StatementsShape(ts, formals.value.next + 1, false);
    }
  }

  /** A parsed program has no annotations and defines functions only at the top level. */
  lemma ParsedShape(ts: seq<T.Token>)
    ensures ParseProgram(ts).Success? ==>
              BareStatements(ParseProgram(ts).value.statements) &&
              DefinitionsAtTopLevel(ParseProgram(ts).value.statements)
  {
    StatementsShape(ts, 0, true);
  }
}
