/**
 * Concrete parses that pin the grammar down: operators associate to the right,
 * parentheses group a left operand, no tokens is the empty program, and the three
 * ways a parse stops early (the tokens run out, a block is never closed, a function
 * definition inside a block).
 */
module ParserExamples {
  import opened Wrappers
  import opened Ast
  import opened ParserSpec
  import opened ParserProperties
  import T = Tokens

  /** No tokens: a program without statements. */
  lemma ParseNothing()
    ensures ParseProgram([]) == Success(Program([]))
  {
  }

  /** `1 - 2 + 3;` is `1 - (2 + 3)`: no precedence, right associative. */
  lemma ParseRightAssociative(ts: seq<T.Token>)
    requires ts == [T.NumberToken(1), T.Plain(T.Subtract), T.NumberToken(2), T.Plain(T.Add),
                    T.NumberToken(3), T.Plain(T.Semicolon)]
    ensures ParseProgram(ts) == Success(Program([ExpressionStatement(
              Operation(Subtract, LiteralNumber(1), Operation(Add, LiteralNumber(2), LiteralNumber(3))))]))
  {
    var right := Operation(Add, LiteralNumber(2), LiteralNumber(3));
    var s := ExpressionStatement(Operation(Subtract, LiteralNumber(1), right));
    assert BareStatement(s) && TopLevelShape(s);
    assert PrintExpression(right) == [T.NumberToken(2), T.Plain(T.Add), T.NumberToken(3)];
    assert [s][1..] == [] && PrintStatements([]) == [];
    assert PrintStatements([s]) == PrintStatement(s) + PrintStatements([]);
    assert PrintProgram(Program([s])) == ts;
    ParsePrinted(Program([s]));
  }

  /** `(1 - 2) + 3;`: the parenthesised expression is the left operand, unchanged. */
  lemma ParseParenthesised(ts: seq<T.Token>)
    requires ts == [T.Plain(T.LeftParen), T.NumberToken(1), T.Plain(T.Subtract), T.NumberToken(2),
                    T.Plain(T.RightParen), T.Plain(T.Add), T.NumberToken(3), T.Plain(T.Semicolon)]
    ensures ParseProgram(ts) == Success(Program([ExpressionStatement(
              Operation(Add, Operation(Subtract, LiteralNumber(1), LiteralNumber(2)), LiteralNumber(3)))]))
  {
    var left := Operation(Subtract, LiteralNumber(1), LiteralNumber(2));
    var s := ExpressionStatement(Operation(Add, left, LiteralNumber(3)));
    assert BareStatement(s) && TopLevelShape(s);
    assert PrintExpression(left) == [T.NumberToken(1), T.Plain(T.Subtract), T.NumberToken(2)];
    assert PrintOperand(left) == [T.Plain(T.LeftParen)] + PrintExpression(left) + [T.Plain(T.RightParen)];
    assert [s][1..] == [] && PrintStatements([]) == [];
    assert PrintStatements([s]) == PrintStatement(s) + PrintStatements([]);
    assert PrintProgram(Program([s])) == ts;
    ParsePrinted(Program([s]));
  }

  /** `f(x, 1); g();`: calls with a list of actuals and with none. */
  lemma ParseCalls(ts: seq<T.Token>)
    requires ts == [T.IdentifierToken("f"), T.Plain(T.LeftParen), T.IdentifierToken("x"), T.Plain(T.Comma),
                    T.NumberToken(1), T.Plain(T.RightParen), T.Plain(T.Semicolon),
                    T.IdentifierToken("g"), T.Plain(T.LeftParen), T.Plain(T.RightParen), T.Plain(T.Semicolon)]
    ensures ParseProgram(ts) == Success(Program([
              ExpressionStatement(FunctionCall("f", [Identifier("x", None), LiteralNumber(1)], None)),
              ExpressionStatement(FunctionCall("g", [], None))]))
  {
    var f := ExpressionStatement(FunctionCall("f", [Identifier("x", None), LiteralNumber(1)], None));
    var g := ExpressionStatement(FunctionCall("g", [], None));
    assert BareStatement(f) && TopLevelShape(f);
    assert BareStatement(g) && TopLevelShape(g);
    assert PrintActuals([Identifier("x", None), LiteralNumber(1)])
        == [T.IdentifierToken("x"), T.Plain(T.Comma), T.NumberToken(1)];
    assert PrintStatement(f) == ts[..7];
    assert PrintStatement(g) == ts[7..];
    assert [g][1..] == [] && [f, g][1..] == [g] && PrintStatements([]) == [];
    assert PrintStatements([g]) == PrintStatement(g) + PrintStatements([]);
    assert PrintStatements([f, g]) == PrintStatement(f) + PrintStatements([g]);
    assert PrintProgram(Program([f, g])) == ts;
    ParsePrinted(Program([f, g]));
  }

  /** `x := 1` without its semicolon: the parser reads past the last token. */
  lemma ParseMissingSemicolon()
    ensures ParseProgram([T.IdentifierToken("x"), T.Plain(T.Assignment), T.NumberToken(1)]) == Failure(UnexpectedEnd)
  {
  }

  /** `loop { break;`: the input ends inside a block. */
  lemma ParseUnclosedBlock()
    ensures ParseProgram([T.KeywordToken("loop"), T.Plain(T.LeftBrace), T.KeywordToken("break"), T.Plain(T.Semicolon)])
         == Failure(ExpectedClosingBrace)
  {
    var ts := [T.KeywordToken("loop"), T.Plain(T.LeftBrace), T.KeywordToken("break"), T.Plain(T.Semicolon)];
    assert StatementAt(ts, 2, false) == Success(Item(Break, 4));
  }

  /** `if (1) { function f() { } }`: inside a block `function` cannot start a statement. */
  lemma ParseNestedDefinition()
    ensures ParseProgram([T.KeywordToken("if"), T.Plain(T.LeftParen), T.NumberToken(1), T.Plain(T.RightParen),
                          T.Plain(T.LeftBrace), T.KeywordToken("function"), T.IdentifierToken("f"),
                          T.Plain(T.LeftParen), T.Plain(T.RightParen), T.Plain(T.LeftBrace),
                          T.Plain(T.RightBrace), T.Plain(T.RightBrace)])
         == Failure(UnexpectedToken(T.Keyword))
  {
    var ts := [T.KeywordToken("if"), T.Plain(T.LeftParen), T.NumberToken(1), T.Plain(T.RightParen),
               T.Plain(T.LeftBrace), T.KeywordToken("function"), T.IdentifierToken("f"),
               T.Plain(T.LeftParen), T.Plain(T.RightParen), T.Plain(T.LeftBrace),
               T.Plain(T.RightBrace), T.Plain(T.RightBrace)];
    assert SubExpressionAt(ts, 5) == Failure(UnexpectedToken(T.Keyword));
    assert StatementsAt(ts, 5, false) == Failure(UnexpectedToken(T.Keyword));
  }
}
