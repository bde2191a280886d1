/**
 * The Parser class of Parser.ts: a cursor `i` over a fixed token list, advanced by
 * mutually recursive methods that throw on the first error. Each method is proved
 * to agree with the grammar functions of ParserSpec: entered at cursor position p,
 * it returns what the grammar parses at p and leaves the cursor just after it, or
 * it returns the error the grammar reports there.
 */
module Parser {
  import opened Wrappers
  import opened Ast
  import T = Tokens
  import opened ParserSpec

  /** The method result r, with the cursor left at `cursor`, is the grammar result s. */
  ghost predicate Agrees<A>(r: Result<A, ParseError>, s: Result<Parsed<A>, ParseError>, cursor: nat)
  {
    match s
    case Success(p) => r == Success(p.node) && cursor == p.next
    case Failure(e) => r == Failure(e)
  }

  /** The grammar result s of a list, with the items `xs` collected before it in front. */
  ghost function Prepend<A>(xs: seq<A>, s: Result<Parsed<seq<A>>, ParseError>): Result<Parsed<seq<A>>, ParseError>
  {
    match s
    case Success(p) => Success(Parsed(xs + p.node, p.next))
    case Failure(e) => Failure(e)
  }

  lemma PrependNothing<A>(s: Result<Parsed<seq<A>>, ParseError>)
    ensures Prepend([], s) == s
  {
    if s.Success? {
      assert [] + s.value.node == s.value.node;
    }
  }

  lemma PrependTwice<A>(xs: seq<A>, ys: seq<A>, s: Result<Parsed<seq<A>>, ParseError>)
    ensures Prepend(xs, Prepend(ys, s)) == Prepend(xs + ys, s)
  {
    if s.Success? {
      assert xs + (ys + s.value.node) == (xs + ys) + s.value.node;
    }
  }

  class Parser {
    const tokens: seq<T.Token>
    var i: nat

    constructor (tokens: seq<T.Token>)
      ensures this.tokens == tokens && i == 0
    {
      this.tokens := tokens;
      i := 0;
    }

    /** parse(): the statements of the whole program, from the cursor to the end. */
    method Parse() returns (r: Result<Program, ParseError>)
      requires i <= |tokens|
      modifies this
      ensures r == (var p :- StatementsAt(tokens, old(i), true); Success(Program(p.node)))
    {
      var statements :- Statements(true);
      return Success(Program(statements));
    }

    /** match(type, name, nextType); a read past the end of the tokens is an error. */
    method Match(tt: T.TokenType, name: Option<string>, nextType: Option<T.TokenType>) returns (r: Result<bool, ParseError>)
      ensures r == MatchAt(tokens, i, tt, name, nextType)
    {
      if i >= |tokens| {
        return Failure(UnexpectedEnd);
      }
      if tokens[i].tokenType != tt || (name.Some? && tokens[i].name != name) {
        return Success(false);
      }
      if nextType.None? {
        return Success(true);
      }
      if i + 1 >= |tokens| {
        return Failure(UnexpectedEnd);
      }
      return Success(tokens[i + 1].tokenType == nextType.value);
    }

    /** expect(type, name, nextType): step over the matched token(s) or fail. */
    method Expect(tt: T.TokenType, name: Option<string>, nextType: Option<T.TokenType>) returns (r: Outcome<ParseError>)
      modifies this
      ensures match ExpectAt(tokens, old(i), tt, name, nextType)
              case Success(j) => r == Pass && i == j
              case Failure(e) => r == Fail(e)
    {
      var m := Match(tt, name, nextType);
      if m.Failure? {
        return Fail(m.error);
      }
      if m.value {
        i := i + if nextType.Some? then 2 else 1;
        return Pass;
      }
      return Fail(Expected(tt, tokens[i].tokenType));
    }

    method CurrentValueAsString() returns (r: Result<string, ParseError>)
      requires i < |tokens|
      ensures r == StringAt(tokens, i)
    {
      if tokens[i].value.Some? && tokens[i].value.value.Text? {
        return Success(tokens[i].value.value.text);
      }
      return Failure(NotAString);
    }

    method CurrentValueAsNumber() returns (r: Result<int, ParseError>)
      requires i < |tokens|
      ensures r == NumberAt(tokens, i)
    {
      if tokens[i].value.Some? && tokens[i].value.value.Number? {
        return Success(tokens[i].value.value.number);
      }
      return Failure(NotANumber);
    }

    /** statements(toplevel): the loop that collects statements until the end or `}`. */
    method Statements(toplevel: bool) returns (r: Result<seq<Statement>, ParseError>)
      requires i <= |tokens|
      modifies this
      ensures Agrees(r, StatementsAt(tokens, old(i), toplevel), i)
      decreases |tokens| - i, 5
    {
      ghost var start := i;
      var statements: seq<Statement> := [];
      PrependNothing(StatementsAt(tokens, i, toplevel));
      while i < |tokens|
        invariant start <= i <= |tokens|
        invariant StatementsAt(tokens, start, toplevel) == Prepend(statements, StatementsAt(tokens, i, toplevel))
        decreases |tokens| - i
      {
        ghost var here := i;
        var step :- NextStatement(toplevel);
        match step {
          case Close(_) =>
            assert statements + [] == statements;
            return Success(statements);
          case Item(s, _) =>
            assert StatementsAt(tokens, here, toplevel) == Prepend([s], StatementsAt(tokens, i, toplevel));
            PrependTwice(statements, [s], StatementsAt(tokens, i, toplevel));
            statements := statements + [s];
        }
      }
      if !toplevel {
        return Failure(ExpectedClosingBrace);
      }
      assert statements + [] == statements;
      return Success(statements);
    }

    /** One pass of the loop body of statements(toplevel): a statement, or the closing brace. */
    method NextStatement(toplevel: bool) returns (r: Result<Step, ParseError>)
      requires i < |tokens|
      modifies this
      ensures r == StatementAt(tokens, old(i), toplevel)
      ensures r.Success? ==> i == r.value.next
      decreases |tokens| - i, 4
    {
      var isAssignment :- Match(T.Identifier, None, Some(T.Assignment));
      if isAssignment {
        r := AssignmentStatement(toplevel);
        return;
      }
      // From here on the cursor is known to be on a token, so match cannot fail.
      var isIf := Match(T.Keyword, Some("if"), None);
      if isIf.value {
        r := IfStatement(toplevel);
        return;
      }
      var isLoop := Match(T.Keyword, Some("loop"), None);
      if isLoop.value {
        r := LoopStatement(toplevel);
        return;
      }
      var isBreak := Match(T.Keyword, Some("break"), None);
      if isBreak.value {
        i := i + 1;
        :- Expect(T.Semicolon, None, None);
        return Success(Item(Break, i));
      }
      var isReturn := Match(T.Keyword, Some("return"), None);
      if isReturn.value {
        r := ReturnStatement(toplevel);
        return;
      }
      var isFunction := Match(T.Keyword, Some("function"), None);
      if toplevel && isFunction.value {
        var definition :- FunctionDefinition();
        return Success(Item(definition, i));
      }
      var isClose := Match(T.RightBrace, None, None);
      if !toplevel && isClose.value {
        i := i + 1;
        return Success(Close(i));
      }
      r := BareExpressionStatement(toplevel);
    }

    /** The assignment branch of the statement loop: `name := expression;`. */
    method AssignmentStatement(toplevel: bool) returns (r: Result<Step, ParseError>)
      requires MatchAt(tokens, i, T.Identifier, None, Some(T.Assignment)) == Success(true)
      modifies this
      ensures r == StatementAt(tokens, old(i), toplevel)
      ensures r.Success? ==> i == r.value.next
      decreases |tokens| - i, 3
    {
      var identifier :- CurrentValueAsString();
      i := i + 2;
      var expression :- Expression();
      :- Expect(T.Semicolon, None, None);
      return Success(Item(Assignment(identifier, expression, None), i));
    }

    /** The `if (condition) { block }` branch of the statement loop. */
    method IfStatement(toplevel: bool) returns (r: Result<Step, ParseError>)
      requires MatchAt(tokens, i, T.Identifier, None, Some(T.Assignment)) == Success(false)
      requires i < |tokens| && IsKeywordAt(tokens, i, "if")
      modifies this
      ensures r == StatementAt(tokens, old(i), toplevel)
      ensures r.Success? ==> i == r.value.next
      decreases |tokens| - i, 3
    {
      i := i + 1;
      :- Expect(T.LeftParen, None, None);
      var condition :- Expression();
      :- Expect(T.RightParen, None, None);
      :- Expect(T.LeftBrace, None, None);
      var block :- Statements(false);
      return Success(Item(If(condition, block), i));
    }

    /** The `loop { block }` branch of the statement loop. */
    method LoopStatement(toplevel: bool) returns (r: Result<Step, ParseError>)
      requires MatchAt(tokens, i, T.Identifier, None, Some(T.Assignment)) == Success(false)
      requires i < |tokens| && !IsKeywordAt(tokens, i, "if") && IsKeywordAt(tokens, i, "loop")
      modifies this
      ensures r == StatementAt(tokens, old(i), toplevel)
      ensures r.Success? ==> i == r.value.next
      decreases |tokens| - i, 3
    {
      i := i + 1;
      :- Expect(T.LeftBrace, None, None);
      var block :- Statements(false);
      return Success(Item(Loop(block), i));
    }

    /** The `return expression;` branch of the statement loop. */
    method ReturnStatement(toplevel: bool) returns (r: Result<Step, ParseError>)
      requires MatchAt(tokens, i, T.Identifier, None, Some(T.Assignment)) == Success(false)
      requires i < |tokens| && !IsKeywordAt(tokens, i, "if") && !IsKeywordAt(tokens, i, "loop")
      requires !IsKeywordAt(tokens, i, "break") && IsKeywordAt(tokens, i, "return")
      modifies this
      ensures r == StatementAt(tokens, old(i), toplevel)
      ensures r.Success? ==> i == r.value.next
      decreases |tokens| - i, 3
    {
      i := i + 1;
      var expression :- Expression();
      :- Expect(T.Semicolon, None, None);
      return Success(Item(Return(expression), i));
    }

    /** The last branch of the statement loop: an expression followed by `;`. */
    method BareExpressionStatement(toplevel: bool) returns (r: Result<Step, ParseError>)
      requires MatchAt(tokens, i, T.Identifier, None, Some(T.Assignment)) == Success(false)
      requires i < |tokens| && !IsKeywordAt(tokens, i, "if") && !IsKeywordAt(tokens, i, "loop")
      requires !IsKeywordAt(tokens, i, "break") && !IsKeywordAt(tokens, i, "return")
      requires !(toplevel && IsKeywordAt(tokens, i, "function")) && !(!toplevel && tokens[i].tokenType == T.RightBrace)
      modifies this
      ensures r == StatementAt(tokens, old(i), toplevel)
      ensures r.Success? ==> i == r.value.next
      decreases |tokens| - i, 3
    {
      var expression :- Expression();
      :- Expect(T.Semicolon, None, None);
      return Success(Item(ExpressionStatement(expression), i));
    }

    /** functionDefinition(): the keyword, a name, its formals in parentheses and a braced body. */
    method FunctionDefinition() returns (r: Result<Statement, ParseError>)
      requires i <= |tokens|
      modifies this
      ensures Agrees(r, FunctionDefinitionAt(tokens, old(i)), i)
      decreases |tokens| - i, 3
    {
      var identifier: string;
      :- Expect(T.Keyword, Some("function"), None);
      var isName :- Match(T.Identifier, None, None);
      if !isName {
        return Failure(ExpectedFunctionName(tokens[i].tokenType));
      }
      identifier :- CurrentValueAsString();
      i := i + 1;
      :- Expect(T.LeftParen, None, None);
      var formals :- FormalList();
      :- Expect(T.LeftBrace, None, None);
      var body :- Statements(false);
      return Success(Statement.FunctionDefinition(identifier, formals, body));
    }

    /** The parameters after `(`: none when `)` follows at once, else the formals loop. */
    method FormalList() returns (r: Result<seq<string>, ParseError>)
      requires i <= |tokens|
      modifies this
      ensures Agrees(r, FormalListAt(tokens, old(i)), i)
    {
      var closeNow :- Match(T.RightParen, None, None);
      if closeNow {
        i := i + 1;
        return Success([]);
      }
      r := Formals();
    }

    /**
     * The formals loop of functionDefinition(): names separated by commas, up to and
     * including the closing parenthesis (the step over it follows the loop in the source).
     */
    method Formals() returns (r: Result<seq<string>, ParseError>)
      requires i <= |tokens|
      modifies this
      ensures Agrees(r, FormalsAt(tokens, old(i)), i)
    {
      ghost var start := i;
      var formals: seq<string> := [];
      PrependNothing(FormalsAt(tokens, i));
      while true
        invariant start <= i <= |tokens|
        invariant FormalsAt(tokens, start) == Prepend(formals, FormalsAt(tokens, i))
        decreases |tokens| - i
      {
        ghost var here := i;
        var isFormal :- Match(T.Identifier, None, None);
        if !isFormal {
          return Failure(ExpectedFormal(tokens[i].tokenType));
        }
        var name :- CurrentValueAsString();
        formals := formals + [name];
        i := i + 1;
        var close :- Match(T.RightParen, None, None);
        if close {
          assert FormalsAt(tokens, here) == Success(Parsed([name], i + 1));
          break;
        }
        :- Expect(T.Comma, None, None);
        assert FormalsAt(tokens, here) == Prepend([name], FormalsAt(tokens, i));
        PrependTwice(formals[..|formals| - 1], [name], FormalsAt(tokens, i));
      }
      i := i + 1;
      return Success(formals);
    }

    /** expression(): a sub-expression, then possibly an operator and, recursively, an expression. */
    method Expression() returns (r: Result<Expression, ParseError>)
      requires i <= |tokens|
      modifies this
      ensures Agrees(r, ExpressionAt(tokens, old(i)), i)
      decreases |tokens| - i, 2
    {
      var left :- SubExpression();
      var isEquals :- Match(T.Equals, None, None);
      var isAdd := Match(T.Add, None, None);
      var isSubtract := Match(T.Subtract, None, None);
      if isEquals || isAdd.value || isSubtract.value {
        var op := OpKindOf(tokens[i].tokenType).value;
        i := i + 1;
        var right :- Expression();
        return Success(Operation(op, left, right));
      }
      return Success(left);
    }

    /** subExpression(): a parenthesised expression, a call, an identifier or a number. */
    method SubExpression() returns (r: Result<Expression, ParseError>)
      requires i <= |tokens|
      modifies this
      ensures Agrees(r, SubExpressionAt(tokens, old(i)), i)
      decreases |tokens| - i, 1
    {
      var paren :- Match(T.LeftParen, None, None);
      if paren {
        i := i + 1;
        var expression :- Expression();
        :- Expect(T.RightParen, None, None);
        return Success(expression);
      }
      var isCall :- Match(T.Identifier, None, Some(T.LeftParen));
      if isCall {
        r := CallExpression();
        return;
      }
      var isIdentifier := Match(T.Identifier, None, None);
      if isIdentifier.value {
        var value :- CurrentValueAsString();
        i := i + 1;
        return Success(Identifier(value, None));
      }
      var isNumber := Match(T.LiteralNumber, None, None);
      if isNumber.value {
        var value :- CurrentValueAsNumber();
        i := i + 1;
        return Success(LiteralNumber(value));
      }
      return Failure(UnexpectedToken(tokens[i].tokenType));
    }

    /** The call branch of subExpression(): `name(actuals)`, entered at the name. */
    method CallExpression() returns (r: Result<Expression, ParseError>)
      requires MatchAt(tokens, i, T.LeftParen, None, None) == Success(false)
      requires MatchAt(tokens, i, T.Identifier, None, Some(T.LeftParen)) == Success(true)
      modifies this
      ensures Agrees(r, SubExpressionAt(tokens, old(i)), i)
      decreases |tokens| - i, 0
    {
      var identifier :- CurrentValueAsString();
      i := i + 1;
      // The match above has seen the parenthesis, so this expect cannot fail.
      var _ := Expect(T.LeftParen, None, None);
      var actuals :- ActualList();
      return Success(FunctionCall(identifier, actuals, None));
    }

    /** The arguments after `(`: none when `)` follows at once, else the actuals loop. */
    method ActualList() returns (r: Result<seq<Expression>, ParseError>)
      requires i <= |tokens|
      modifies this
      ensures Agrees(r, ActualListAt(tokens, old(i)), i)
      decreases |tokens| - i, 4
    {
      var closeNow :- Match(T.RightParen, None, None);
      if closeNow {
        i := i + 1;
        return Success([]);
      }
      r := Actuals();
    }

    /** The actuals loop of subExpression(): expressions separated by commas, then `)`. */
    method Actuals() returns (r: Result<seq<Expression>, ParseError>)
      requires i <= |tokens|
      modifies this
      ensures Agrees(r, ActualsAt(tokens, old(i)), i)
      decreases |tokens| - i, 3
    {
      ghost var start := i;
      var actuals: seq<Expression> := [];
      PrependNothing(ActualsAt(tokens, i));
      while true
        invariant start <= i <= |tokens|
        invariant ActualsAt(tokens, start) == Prepend(actuals, ActualsAt(tokens, i))
        decreases |tokens| - i
      {
        ghost var here := i;
        var expression :- Expression();
        actuals := actuals + [expression];
        var close :- Match(T.RightParen, None, None);
        if close {
          assert ActualsAt(tokens, here) == Success(Parsed([expression], i + 1));
          break;
        }
        :- Expect(T.Comma, None, None);
        assert ActualsAt(tokens, here) == Prepend([expression], ActualsAt(tokens, i));
        PrependTwice(actuals[..|actuals| - 1], [expression], ActualsAt(tokens, i));
      }
      i := i + 1;
      return Success(actuals);
    }
  }

  /** new Parser(tokens).parse(): the program the grammar reads from the whole token list. */
  method ParseTokens(tokens: seq<T.Token>) returns (r: Result<Program, ParseError>)
    ensures r == ParseProgram(tokens)
  {
    var parser := new Parser(tokens);
    r := parser.Parse();
  }
}
