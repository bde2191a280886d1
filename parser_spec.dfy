/**
 * The grammar that the recursive-descent Parser of Parser.ts accepts, written as
 * functions over a token sequence and a cursor position. Each function returns the
 * node it parsed and the position after it, or the error the source throws.
 * Binary operators have no precedence and associate to the right; function
 * definitions are recognised only at the top level.
 */
module ParserSpec {
  import opened Wrappers
  import opened Ast
  import T = Tokens

  datatype ParseError =
    | UnexpectedEnd                          // a read of tokens[i] past the end (a TypeError in the source)
    | Expected(expected: T.TokenType, got: T.TokenType)
    | NotAString                             // currentValueAsString on a token without a string value
    | NotANumber                             // currentValueAsNumber on a token without a number value
    | ExpectedClosingBrace
    | ExpectedFunctionName(got: T.TokenType)
    | ExpectedFormal(got: T.TokenType)
    | UnexpectedToken(got: T.TokenType)

  /** A parsed node and the cursor position just after it. */
  datatype Parsed<+A> = Parsed(node: A, next: nat)

  /** One statement of a block, or the closing brace that ends the block. */
  datatype Step = Item(statement: Statement, next: nat) | Close(next: nat)

  /** match(type, name, nextType): does the token at i (and the one after it) fit? */
  function MatchAt(ts: seq<T.Token>, i: nat, tt: T.TokenType, name: Option<string>, nextType: Option<T.TokenType>)
    : (r: Result<bool, ParseError>)
    ensures r.Success? ==> i < |ts|
    ensures r == Success(true) ==> ts[i].tokenType == tt && (nextType.Some? ==> i + 1 < |ts| && ts[i + 1].tokenType == nextType.value)
  {
    if i >= |ts| then Failure(UnexpectedEnd)
    else if ts[i].tokenType != tt then Success(false)
    else if name.Some? && ts[i].name != name then Success(false)
    else if nextType.None? then Success(true)
    else if i + 1 >= |ts| then Failure(UnexpectedEnd)
    else Success(ts[i + 1].tokenType == nextType.value)
  }

  /** expect(type, name, nextType): the position after the matched token(s), or an error. */
  function ExpectAt(ts: seq<T.Token>, i: nat, tt: T.TokenType, name: Option<string>, nextType: Option<T.TokenType>)
    : (r: Result<nat, ParseError>)
    ensures r.Success? ==> r.value == i + (if nextType.Some? then 2 else 1) <= |ts|
  {
    var m :- MatchAt(ts, i, tt, name, nextType);
    if m then Success(i + (if nextType.Some? then 2 else 1))
    else Failure(Expected(tt, ts[i].tokenType))
  }

  /** match('keyword', name) at a position that holds a token. */
  predicate IsKeywordAt(ts: seq<T.Token>, i: nat, name: string)
    requires i < |ts|
  {
    ts[i].tokenType == T.Keyword && ts[i].name == Some(name)
  }

  function StringAt(ts: seq<T.Token>, i: nat): Result<string, ParseError>
    requires i < |ts|
  {
    if ts[i].value.Some? && ts[i].value.value.Text? then Success(ts[i].value.value.text) else Failure(NotAString)
  }

  function NumberAt(ts: seq<T.Token>, i: nat): Result<int, ParseError>
    requires i < |ts|
  {
    if ts[i].value.Some? && ts[i].value.value.Number? then Success(ts[i].value.value.number) else Failure(NotANumber)
  }

  function OpKindOf(tt: T.TokenType): Option<OpKind>
  {
    match tt
    case Equals => Some(Equals)
    case Add => Some(Add)
    case Subtract => Some(Subtract)
    case _ => None
  }

  /** The operator that continues an expression at i, if any (Parser.ts:122). */
  function OperatorAt(ts: seq<T.Token>, i: nat): Result<Option<OpKind>, ParseError>
  {
    if i >= |ts| then Failure(UnexpectedEnd) else Success(OpKindOf(ts[i].tokenType))
  }

  /** program: the top-level statements up to the end of the tokens. */
  function ParseProgram(ts: seq<T.Token>): (r: Result<Program, ParseError>)
  {
    var p :- StatementsAt(ts, 0, true);
    Success(Program(p.node))
  }

  /**
   * statements(toplevel): statements up to the end of the tokens (top level) or up to
   * and including the closing brace (a block).
   */
  function StatementsAt(ts: seq<T.Token>, i: nat, toplevel: bool): (r: Result<Parsed<seq<Statement>>, ParseError>)
    requires i <= |ts|
    ensures r.Success? ==> i <= r.value.next <= |ts|
    ensures r.Success? && toplevel ==> r.value.next == |ts|
    decreases |ts| - i, 4
  {
    if i >= |ts| then
      if toplevel then Success(Parsed([], i)) else Failure(ExpectedClosingBrace)
    else
      var step :- StatementAt(ts, i, toplevel);
      match step
      case Close(j) => Success(Parsed([], j))
      case Item(s, j) =>
        var rest :- StatementsAt(ts, j, toplevel);
        Success(Parsed([s] + rest.node, rest.next))
  }

  /** One pass of the loop in statements(toplevel), Parser.ts:45-81. */
  function StatementAt(ts: seq<T.Token>, i: nat, toplevel: bool): (r: Result<Step, ParseError>)
    requires i < |ts|
    ensures r.Success? ==> i < r.value.next <= |ts|
    ensures r.Success? && r.value.Close? ==> !toplevel
    decreases |ts| - i, 3
  {
    var isAssignment :- MatchAt(ts, i, T.Identifier, None, Some(T.Assignment));
    if isAssignment then
      var x :- StringAt(ts, i);
      var e :- ExpressionAt(ts, i + 2);
      var j :- ExpectAt(ts, e.next, T.Semicolon, None, None);
      Success(Item(Assignment(x, e.node, None), j))
    else if IsKeywordAt(ts, i, "if") then
      var j :- ExpectAt(ts, i + 1, T.LeftParen, None, None);
      var c :- ExpressionAt(ts, j);
      var k :- ExpectAt(ts, c.next, T.RightParen, None, None);
      var l :- ExpectAt(ts, k, T.LeftBrace, None, None);
      var block :- StatementsAt(ts, l, false);
      Success(Item(If(c.node, block.node), block.next))
    else if IsKeywordAt(ts, i, "loop") then
      var j :- ExpectAt(ts, i + 1, T.LeftBrace, None, None);
      var block :- StatementsAt(ts, j, false);
      Success(Item(Loop(block.node), block.next))
    else if IsKeywordAt(ts, i, "break") then
      var j :- ExpectAt(ts, i + 1, T.Semicolon, None, None);
      Success(Item(Break, j))
    else if IsKeywordAt(ts, i, "return") then
      var e :- ExpressionAt(ts, i + 1);
      var j :- ExpectAt(ts, e.next, T.Semicolon, None, None);
      Success(Item(Return(e.node), j))
    else if toplevel && IsKeywordAt(ts, i, "function") then
      var d :- FunctionDefinitionAt(ts, i);
      Success(Item(d.node, d.next))
    else if !toplevel && ts[i].tokenType == T.RightBrace then
      Success(Close(i + 1))
    else
      var e :- ExpressionAt(ts, i);
      var j :- ExpectAt(ts, e.next, T.Semicolon, None, None);
      Success(Item(ExpressionStatement(e.node), j))
  }

  /** functionDefinition(), Parser.ts:89-118, entered at the `function` keyword. */
  function FunctionDefinitionAt(ts: seq<T.Token>, i: nat): (r: Result<Parsed<Statement>, ParseError>)
    requires i <= |ts|
    ensures r.Success? ==> i < r.value.next <= |ts| && r.value.node.FunctionDefinition?
    decreases |ts| - i, 2
  {
    var j :- ExpectAt(ts, i, T.Keyword, Some("function"), None);
    var isName :- MatchAt(ts, j, T.Identifier, None, None);
    if !isName then Failure(ExpectedFunctionName(ts[j].tokenType))
    else
      var name :- StringAt(ts, j);
      var k :- ExpectAt(ts, j + 1, T.LeftParen, None, None);
      var formals :- FormalListAt(ts, k);
      var l :- ExpectAt(ts, formals.next, T.LeftBrace, None, None);
      var body :- StatementsAt(ts, l, false);
      Success(Parsed(FunctionDefinition(name, formals.node, body.node), body.next))
  }

  /** What follows the `(` of a definition: `)` at once, or the formals loop. */
  function FormalListAt(ts: seq<T.Token>, k: nat): (r: Result<Parsed<seq<string>>, ParseError>)
    requires k <= |ts|
    ensures r.Success? ==> k < r.value.next <= |ts|
  {
    var closeNow :- MatchAt(ts, k, T.RightParen, None, None);
    if closeNow then Success(Parsed([], k + 1)) else FormalsAt(ts, k)
  }

  /** The formals loop of Parser.ts:100-114: names separated by commas, then `)`. */
  function FormalsAt(ts: seq<T.Token>, i: nat): (r: Result<Parsed<seq<string>>, ParseError>)
    requires i <= |ts|
    ensures r.Success? ==> i < r.value.next <= |ts|
    decreases |ts| - i
  {
    var isName :- MatchAt(ts, i, T.Identifier, None, None);
    if !isName then Failure(ExpectedFormal(ts[i].tokenType))
    else
      var name :- StringAt(ts, i);
      var close :- MatchAt(ts, i + 1, T.RightParen, None, None);
      if close then Success(Parsed([name], i + 2))
      else
        var k :- ExpectAt(ts, i + 1, T.Comma, None, None);
        var rest :- FormalsAt(ts, k);
        Success(Parsed([name] + rest.node, rest.next))
  }

  /** expression(): a sub-expression, optionally followed by an operator and an expression. */
  function ExpressionAt(ts: seq<T.Token>, i: nat): (r: Result<Parsed<Expression>, ParseError>)
    requires i <= |ts|
    ensures r.Success? ==> i < r.value.next <= |ts|
    decreases |ts| - i, 1
  {
    var left :- SubExpressionAt(ts, i);
    var op :- OperatorAt(ts, left.next);
    if op.None? then Success(left)
    else
      var right :- ExpressionAt(ts, left.next + 1);
      Success(Parsed(Operation(op.value, left.node, right.node), right.next))
  }

  /** subExpression(): a parenthesised expression, a call, an identifier or a literal. */
  function SubExpressionAt(ts: seq<T.Token>, i: nat): (r: Result<Parsed<Expression>, ParseError>)
    requires i <= |ts|
    ensures r.Success? ==> i < r.value.next <= |ts|
    decreases |ts| - i, 0
  {
    var paren :- MatchAt(ts, i, T.LeftParen, None, None);
    if paren then
      var e :- ExpressionAt(ts, i + 1);
      var j :- ExpectAt(ts, e.next, T.RightParen, None, None);
      Success(Parsed(e.node, j))
    else
      var isCall :- MatchAt(ts, i, T.Identifier, None, Some(T.LeftParen));
      if isCall then
        var name :- StringAt(ts, i);
        var j :- ExpectAt(ts, i + 1, T.LeftParen, None, None);
        var actuals :- ActualListAt(ts, j);
        Success(Parsed(FunctionCall(name, actuals.node, None), actuals.next))
      else if ts[i].tokenType == T.Identifier then
        var name :- StringAt(ts, i);
        Success(Parsed(Identifier(name, None), i + 1))
      else if ts[i].tokenType == T.LiteralNumber then
        var n :- NumberAt(ts, i);
        Success(Parsed(LiteralNumber(n), i + 1))
      else
        Failure(UnexpectedToken(ts[i].tokenType))
  }

  /** What follows the `(` of a call: `)` at once, or the actuals loop. */
  function ActualListAt(ts: seq<T.Token>, j: nat): (r: Result<Parsed<seq<Expression>>, ParseError>)
    requires j <= |ts|
    ensures r.Success? ==> j < r.value.next <= |ts|
    decreases |ts| - j, 3
  {
    var closeNow :- MatchAt(ts, j, T.RightParen, None, None);
    if closeNow then Success(Parsed([], j + 1)) else ActualsAt(ts, j)
  }

  /** The actuals loop of Parser.ts:143-152: expressions separated by commas, then `)`. */
  function ActualsAt(ts: seq<T.Token>, i: nat): (r: Result<Parsed<seq<Expression>>, ParseError>)
    requires i <= |ts|
    ensures r.Success? ==> i < r.value.next <= |ts|
    decreases |ts| - i, 2
  {
    var e :- ExpressionAt(ts, i);
    var close :- MatchAt(ts, e.next, T.RightParen, None, None);
    if close then Success(Parsed([e.node], e.next + 1))
    else
      var k :- ExpectAt(ts, e.next, T.Comma, None, None);
      var rest :- ActualsAt(ts, k);
      Success(Parsed([e.node] + rest.node, rest.next))
  }
}
