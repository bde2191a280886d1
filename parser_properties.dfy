/**
 * A printer from syntax trees back to tokens, and the round trip through the
 * grammar of ParserSpec: parsing the printed tokens of an annotation-free program
 * whose function definitions are all at the top level gives that program back.
 * The printer parenthesises an operation only where it is a left operand, which is
 * exactly where the right-associative grammar needs it.
 */
module ParserProperties {
  import opened Wrappers
  import opened Ast
  import opened ParserSpec
  import T = Tokens

  /** The token of an operator: the one the parser reads back as that operator. */
  function OpToken(op: OpKind): (t: T.Token)
    ensures OpKindOf(t.tokenType) == Some(op)
  {
    match op
    case Equals => T.Plain(T.Equals)
    case Add => T.Plain(T.Add)
    case Subtract => T.Plain(T.Subtract)
  }

  /** A token that can start an expression. */
  predicate StartsExpression(t: T.Token)
  {
    t.tokenType == T.Identifier || t.tokenType == T.LiteralNumber || t.tokenType == T.LeftParen
  }

  /**
   * The printed form of an expression: it starts like an expression, and its second
   * token (if any) is not `:=`, so that it is never taken for an assignment.
   */
  predicate ExpressionShaped(ts: seq<T.Token>)
  {
    0 < |ts| && StartsExpression(ts[0]) && (|ts| > 1 ==> ts[1].tokenType != T.Assignment)
  }

  function PrintExpression(e: Expression): (ts: seq<T.Token>)
    ensures ExpressionShaped(ts)
    decreases e, 0
  {
    match e
    case Operation(op, l, r) => PrintOperand(l) + [OpToken(op)] + PrintExpression(r)
    case FunctionCall(f, actuals, _) =>
      [T.IdentifierToken(f), T.Plain(T.LeftParen)] + PrintActuals(actuals) + [T.Plain(T.RightParen)]
    case Identifier(x, _) => [T.IdentifierToken(x)]
    case LiteralNumber(n) => [T.NumberToken(n)]
  }

  /** A left operand: in parentheses when it is itself an operation. */
  function PrintOperand(e: Expression): (ts: seq<T.Token>)
    ensures ExpressionShaped(ts)
    decreases e, 1
  {
    if e.Operation? then [T.Plain(T.LeftParen)] + PrintExpression(e) + [T.Plain(T.RightParen)]
    else PrintExpression(e)
  }

  /** Expressions separated by commas. */
  function PrintActuals(es: seq<Expression>): (ts: seq<T.Token>)
    ensures |es| == 0 <==> |ts| == 0
    ensures |es| > 0 ==> StartsExpression(ts[0])
    decreases es, 0
  {
    if |es| == 0 then []
    else if |es| == 1 then PrintExpression(es[0])
    else PrintExpression(es[0]) + [T.Plain(T.Comma)] + PrintActuals(es[1..])
  }

  /** Names separated by commas. */
  function PrintFormals(fs: seq<string>): (ts: seq<T.Token>)
    ensures |fs| == 0 <==> |ts| == 0
    ensures |fs| > 0 ==> ts[0] == T.IdentifierToken(fs[0])
  {
    if |fs| == 0 then []
    else if |fs| == 1 then [T.IdentifierToken(fs[0])]
    else [T.IdentifierToken(fs[0]), T.Plain(T.Comma)] + PrintFormals(fs[1..])
  }

  function PrintStatement(s: Statement): (ts: seq<T.Token>)
    ensures 0 < |ts|
  {
    match s
    case Assignment(x, e, _) =>
      [T.IdentifierToken(x), T.Plain(T.Assignment)] + PrintExpression(e) + [T.Plain(T.Semicolon)]
    case If(c, block) =>
      [T.KeywordToken("if"), T.Plain(T.LeftParen)] + PrintExpression(c) +
      [T.Plain(T.RightParen), T.Plain(T.LeftBrace)] + PrintStatements(block) + [T.Plain(T.RightBrace)]
    case Loop(block) =>
      [T.KeywordToken("loop"), T.Plain(T.LeftBrace)] + PrintStatements(block) + [T.Plain(T.RightBrace)]
    case Break => [T.KeywordToken("break"), T.Plain(T.Semicolon)]
    case Return(e) => [T.KeywordToken("return")] + PrintExpression(e) + [T.Plain(T.Semicolon)]
    case FunctionDefinition(f, formals, body) =>
      [T.KeywordToken("function"), T.IdentifierToken(f), T.Plain(T.LeftParen)] + PrintFormals(formals) +
      [T.Plain(T.RightParen), T.Plain(T.LeftBrace)] + PrintStatements(body) + [T.Plain(T.RightBrace)]
    case ExpressionStatement(e) => PrintExpression(e) + [T.Plain(T.Semicolon)]
  }

  function PrintStatements(ss: seq<Statement>): seq<T.Token>
  {
    if |ss| == 0 then [] else PrintStatement(ss[0]) + PrintStatements(ss[1..])
  }

  function PrintProgram(p: Program): seq<T.Token>
  {
    PrintStatements(p.statements)
  }

  // ---------------------------------------------------------------------------
  // Token sequences that contain a given piece at a given position

  /** The tokens of `piece` stand in `ts` from position i on. */
  predicate Occurs(ts: seq<T.Token>, i: nat, piece: seq<T.Token>)
  {
    i + |piece| <= |ts| && forall k :: 0 <= k < |piece| ==> ts[i + k] == piece[k]
  }

  lemma OccursSplit(ts: seq<T.Token>, i: nat, a: seq<T.Token>, b: seq<T.Token>)
    requires Occurs(ts, i, a + b)
    ensures Occurs(ts, i, a) && Occurs(ts, i + |a|, b)
  {
    forall k | 0 <= k < |a|
      ensures ts[i + k] == a[k]
    {
      assert (a + b)[k] == a[k];
    }
    forall k | 0 <= k < |b|
      ensures ts[i + |a| + k] == b[k]
    {
      assert (a + b)[|a| + k] == b[k];
    }
  }

  lemma OccursAt(ts: seq<T.Token>, i: nat, piece: seq<T.Token>, k: nat)
    requires Occurs(ts, i, piece) && k < |piece|
    ensures i + k < |ts| && ts[i + k] == piece[k]
  {
  }

  lemma HeadTail<X>(s: seq<X>)
    requires |s| > 0
    ensures [s[0]] + s[1..] == s
    ensures |s| == 1 ==> [s[0]] == s
  {
  }

  lemma OccursThree(ts: seq<T.Token>, i: nat, a: seq<T.Token>, b: seq<T.Token>, c: seq<T.Token>)
    requires Occurs(ts, i, a + b + c)
    ensures Occurs(ts, i, a) && Occurs(ts, i + |a|, b) && Occurs(ts, i + |a| + |b|, c)
  {
    OccursSplit(ts, i, a + b, c);
    OccursSplit(ts, i, a, b);
  }

  lemma OccursOne(ts: seq<T.Token>, i: nat, t: T.Token)
    requires Occurs(ts, i, [t])
    ensures i < |ts| && ts[i] == t
  {
    OccursAt(ts, i, [t], 0);
  }

  /** A token that may follow a whole expression: `;`, `)` or `,`. */
  predicate EndsExpression(ts: seq<T.Token>, j: nat)
  {
    j < |ts| && (ts[j].tokenType == T.Semicolon || ts[j].tokenType == T.RightParen || ts[j].tokenType == T.Comma)
  }

  /** A token that may follow an operand: the end of an expression or an operator. */
  predicate EndsOperand(ts: seq<T.Token>, j: nat)
  {
    EndsExpression(ts, j) || (j < |ts| && OpKindOf(ts[j].tokenType).Some?)
  }

  // ---------------------------------------------------------------------------
  // One step of each parsing function, given the tokens it looks at. Each takes the
  // position where the step ends as a parameter, so that callers pass it unchanged.

  lemma SubExpressionIdentifier(ts: seq<T.Token>, i: nat, x: string, next: nat)
    requires i + 1 < |ts| && ts[i] == T.IdentifierToken(x) && ts[i + 1].tokenType != T.LeftParen
    requires next == i + 1
    ensures SubExpressionAt(ts, i) == Success(Parsed(Identifier(x, None), next))
  {
  }

  lemma SubExpressionLiteral(ts: seq<T.Token>, i: nat, n: int, next: nat)
    requires i < |ts| && ts[i] == T.NumberToken(n) && next == i + 1
    ensures SubExpressionAt(ts, i) == Success(Parsed(LiteralNumber(n), next))
  {
  }

  lemma SubExpressionParen(ts: seq<T.Token>, i: nat, e: Expression, j: nat, next: nat)
    requires i < |ts| && ts[i] == T.Plain(T.LeftParen)
    requires ExpressionAt(ts, i + 1) == Success(Parsed(e, j))
    requires j < |ts| && ts[j] == T.Plain(T.RightParen) && next == j + 1
    ensures SubExpressionAt(ts, i) == Success(Parsed(e, next))
  {
  }

  lemma SubExpressionCall(ts: seq<T.Token>, i: nat, f: string, actuals: seq<Expression>, next: nat)
    requires i + 2 < |ts| && ts[i] == T.IdentifierToken(f) && ts[i + 1] == T.Plain(T.LeftParen)
    requires |actuals| == 0 ==> next == i + 3 && ts[next - 1] == T.Plain(T.RightParen)
    requires |actuals| > 0 ==> ts[i + 2].tokenType != T.RightParen && ActualsAt(ts, i + 2) == Success(Parsed(actuals, next))
    ensures SubExpressionAt(ts, i) == Success(Parsed(FunctionCall(f, actuals, None), next))
  {
    assert ExpectAt(ts, i + 1, T.LeftParen, None, None) == Success(i + 2);
  }

  lemma ExpressionSingle(ts: seq<T.Token>, i: nat, e: Expression, j: nat)
    requires i <= |ts| && SubExpressionAt(ts, i) == Success(Parsed(e, j))
    requires j < |ts| && OpKindOf(ts[j].tokenType).None?
    ensures ExpressionAt(ts, i) == Success(Parsed(e, j))
  {
  }

  lemma ExpressionBinary(ts: seq<T.Token>, i: nat, op: OpKind, l: Expression, j: nat, r: Expression, k: nat)
    requires i <= |ts| && SubExpressionAt(ts, i) == Success(Parsed(l, j))
    requires j < |ts| && ts[j] == OpToken(op)
    requires ExpressionAt(ts, j + 1) == Success(Parsed(r, k))
    ensures ExpressionAt(ts, i) == Success(Parsed(Operation(op, l, r), k))
  {
    assert OperatorAt(ts, j) == Success(Some(op));
  }

  lemma ActualsLast(ts: seq<T.Token>, i: nat, e: Expression, j: nat, next: nat)
    requires i <= |ts| && ExpressionAt(ts, i) == Success(Parsed(e, j))
    requires next == j + 1 && next <= |ts| && ts[next - 1] == T.Plain(T.RightParen)
    ensures ActualsAt(ts, i) == Success(Parsed([e], next))
  {
  }

  lemma ActualsMore(ts: seq<T.Token>, i: nat, e: Expression, j: nat, rest: seq<Expression>, k: nat)
    requires i <= |ts| && ExpressionAt(ts, i) == Success(Parsed(e, j))
    requires j + 1 <= |ts| && j < |ts| && ts[j] == T.Plain(T.Comma)
    requires ActualsAt(ts, j + 1) == Success(Parsed(rest, k))
    ensures ActualsAt(ts, i) == Success(Parsed([e] + rest, k))
  {
    assert ExpectAt(ts, j, T.Comma, None, None) == Success(j + 1);
  }

  // ---------------------------------------------------------------------------
  // Expressions

  /** The number of nodes, the measure of the induction over expressions below. */
  function Size(e: Expression): (n: nat)
    ensures n > 0
  {
    match e
    case Operation(_, l, r) => 1 + Size(l) + Size(r)
    case FunctionCall(_, actuals, _) => 1 + Sizes(actuals)
    case _ => 1
  }

  function Sizes(es: seq<Expression>): nat
  {
    if |es| == 0 then 0 else Size(es[0]) + Sizes(es[1..])
  }

  /** A call, an identifier or a literal, followed by the end of an operand. */
  lemma {:induction false} AtomPrinted(ts: seq<T.Token>, i: nat, e: Expression, next: nat)
    requires !e.Operation? && BareExpression(e)
    requires Occurs(ts, i, PrintExpression(e)) && next == i + |PrintExpression(e)| && EndsOperand(ts, next)
    ensures SubExpressionAt(ts, i) == Success(Parsed(e, next))
    decreases Size(e), 0
  {
    match e
    case Identifier(x, _) =>
      OccursAt(ts, i, [T.IdentifierToken(x)], 0);
      SubExpressionIdentifier(ts, i, x, next);
    case LiteralNumber(n) =>
      OccursAt(ts, i, [T.NumberToken(n)], 0);
      SubExpressionLiteral(ts, i, n, next);
    case FunctionCall(f, actuals, _) =>
      CallSplit(ts, i, f, actuals, next);
      if |actuals| > 0 {
        ActualsPrinted(ts, i + 2, actuals, next);
      }
      SubExpressionCall(ts, i, f, actuals, next);
  }

  lemma CallSplit(ts: seq<T.Token>, i: nat, f: string, actuals: seq<Expression>, next: nat)
    requires Occurs(ts, i, PrintExpression(FunctionCall(f, actuals, None)))
    requires next == i + |PrintExpression(FunctionCall(f, actuals, None))|
    ensures i + 2 < |ts| && ts[i] == T.IdentifierToken(f) && ts[i + 1] == T.Plain(T.LeftParen)
    ensures Occurs(ts, i + 2, PrintActuals(actuals))
    ensures next == i + 2 + |PrintActuals(actuals)| + 1 && next <= |ts|
    ensures ts[next - 1] == T.Plain(T.RightParen)
  {
    var head := [T.IdentifierToken(f), T.Plain(T.LeftParen)];
    var pa := PrintActuals(actuals);
    OccursThree(ts, i, head, pa, [T.Plain(T.RightParen)]);
    OccursAt(ts, i, head, 0);
    OccursAt(ts, i, head, 1);
    OccursOne(ts, i + 2 + |pa|, T.Plain(T.RightParen));
  }

  /** A left operand (parenthesised when it is an operation), followed by the end of an operand. */
  lemma {:induction false} OperandPrinted(ts: seq<T.Token>, i: nat, e: Expression, next: nat)
    requires BareExpression(e)
    requires Occurs(ts, i, PrintOperand(e)) && next == i + |PrintOperand(e)| && EndsOperand(ts, next)
    ensures SubExpressionAt(ts, i) == Success(Parsed(e, next))
    decreases Size(e), 2
  {
    if e.Operation? {
      var j := ParenSplit(ts, i, e, next);
      ExpressionPrinted(ts, i + 1, e, j);
      SubExpressionParen(ts, i, e, j, next);
    } else {
      AtomPrinted(ts, i, e, next);
    }
  }

  lemma ParenSplit(ts: seq<T.Token>, i: nat, e: Expression, next: nat) returns (j: nat)
    requires e.Operation? && Occurs(ts, i, PrintOperand(e)) && next == i + |PrintOperand(e)|
    ensures j == i + 1 + |PrintExpression(e)| && next == j + 1
    ensures i < |ts| && ts[i] == T.Plain(T.LeftParen)
    ensures Occurs(ts, i + 1, PrintExpression(e))
    ensures j < |ts| && ts[j] == T.Plain(T.RightParen) && EndsExpression(ts, j)
  {
    var p := PrintExpression(e);
    j := i + 1 + |p|;
    OccursThree(ts, i, [T.Plain(T.LeftParen)], p, [T.Plain(T.RightParen)]);
    OccursOne(ts, i, T.Plain(T.LeftParen));
    OccursOne(ts, j, T.Plain(T.RightParen));
  }

  /** Parsing the printed expression, followed by `;`, `)` or `,`, gives the expression back. */
  lemma {:induction false} ExpressionPrinted(ts: seq<T.Token>, i: nat, e: Expression, next: nat)
    requires BareExpression(e)
    requires Occurs(ts, i, PrintExpression(e)) && next == i + |PrintExpression(e)| && EndsExpression(ts, next)
    ensures ExpressionAt(ts, i) == Success(Parsed(e, next))
    decreases Size(e), 1
  {
    if e.Operation? {
      var j := OperationSplit(ts, i, e, next);
      OperandPrinted(ts, i, e.left, j);
      ExpressionPrinted(ts, j + 1, e.right, next);
      ExpressionBinary(ts, i, e.op, e.left, j, e.right, next);
    } else {
      AtomPrinted(ts, i, e, next);
      ExpressionSingle(ts, i, e, next);
    }
  }

  lemma OperationSplit(ts: seq<T.Token>, i: nat, e: Expression, next: nat) returns (j: nat)
    requires e.Operation? && BareExpression(e)
    requires Occurs(ts, i, PrintExpression(e)) && next == i + |PrintExpression(e)|
    ensures j == i + |PrintOperand(e.left)|
    ensures BareExpression(e.left) && BareExpression(e.right)
    ensures Occurs(ts, i, PrintOperand(e.left)) && j < |ts| && ts[j] == OpToken(e.op) && EndsOperand(ts, j)
    ensures Occurs(ts, j + 1, PrintExpression(e.right)) && next == j + 1 + |PrintExpression(e.right)|
    ensures e == Operation(e.op, e.left, e.right)
  {
    var pl := PrintOperand(e.left);
    var pr := PrintExpression(e.right);
    j := i + |pl|;
    OccursThree(ts, i, pl, [OpToken(e.op)], pr);
    OccursOne(ts, j, OpToken(e.op));
  }

  /** Parsing printed actuals followed by `)` gives them back, and the position after the `)`. */
  lemma {:induction false} ActualsPrinted(ts: seq<T.Token>, i: nat, es: seq<Expression>, next: nat)
    requires |es| > 0 && BareExpressions(es) && Occurs(ts, i, PrintActuals(es))
    requires next == i + |PrintActuals(es)| + 1 && next <= |ts| && ts[next - 1] == T.Plain(T.RightParen)
    ensures ActualsAt(ts, i) == Success(Parsed(es, next))
    decreases Sizes(es), 3
  {
    if |es| == 1 {
      var j := i + |PrintExpression(es[0])|;
      ExpressionPrinted(ts, i, es[0], j);
      ActualsLast(ts, i, es[0], j, next);
      HeadTail(es);
    } else {
      MoreActualsPrinted(ts, i, es, next);
    }
  }

  /** The case of ActualsPrinted with a comma after the first actual. */
  lemma {:induction false} MoreActualsPrinted(ts: seq<T.Token>, i: nat, es: seq<Expression>, next: nat)
    requires |es| > 1 && BareExpressions(es) && Occurs(ts, i, PrintActuals(es))
    requires next == i + |PrintActuals(es)| + 1 && next <= |ts| && ts[next - 1] == T.Plain(T.RightParen)
    ensures ActualsAt(ts, i) == Success(Parsed(es, next))
    decreases Sizes(es), 2
  {
    var j := ActualsSplit(ts, i, es);
    ExpressionPrinted(ts, i, es[0], j);
    ActualsPrinted(ts, j + 1, es[1..], next);
    ActualsMore(ts, i, es[0], j, es[1..], next);
  }

  lemma ActualsSplit(ts: seq<T.Token>, i: nat, es: seq<Expression>) returns (j: nat)
    requires |es| > 1 && BareExpressions(es) && Occurs(ts, i, PrintActuals(es))
    ensures j == i + |PrintExpression(es[0])|
    ensures BareExpression(es[0]) && Occurs(ts, i, PrintExpression(es[0]))
    ensures j < |ts| && ts[j] == T.Plain(T.Comma) && EndsExpression(ts, j)
    ensures BareExpressions(es[1..]) && Occurs(ts, j + 1, PrintActuals(es[1..]))
    ensures j + 1 + |PrintActuals(es[1..])| == i + |PrintActuals(es)|
    ensures [es[0]] + es[1..] == es
  {
    var p := PrintExpression(es[0]);
    var rest := PrintActuals(es[1..]);
    j := i + |p|;
    assert PrintActuals(es) == p + [T.Plain(T.Comma)] + rest;
    OccursThree(ts, i, p, [T.Plain(T.Comma)], rest);
    OccursOne(ts, j, T.Plain(T.Comma));
    HeadTail(es);
  }

  // ---------------------------------------------------------------------------
  // Statements

  lemma StatementAssignment(ts: seq<T.Token>, i: nat, toplevel: bool, x: string, e: Expression, j: nat, next: nat)
    requires i + 1 < |ts| && ts[i] == T.IdentifierToken(x) && ts[i + 1] == T.Plain(T.Assignment)
    requires ExpressionAt(ts, i + 2) == Success(Parsed(e, j))
    requires j < |ts| && ts[j] == T.Plain(T.Semicolon) && next == j + 1
    ensures StatementAt(ts, i, toplevel) == Success(Item(Assignment(x, e, None), next))
  {
    assert ExpectAt(ts, j, T.Semicolon, None, None) == Success(j + 1);
  }

  lemma StatementIf(ts: seq<T.Token>, i: nat, toplevel: bool, c: Expression, j: nat, block: seq<Statement>, k: nat)
    requires i + 1 < |ts| && ts[i] == T.KeywordToken("if") && ts[i + 1] == T.Plain(T.LeftParen)
    requires ExpressionAt(ts, i + 2) == Success(Parsed(c, j))
    requires j + 1 < |ts| && ts[j] == T.Plain(T.RightParen) && ts[j + 1] == T.Plain(T.LeftBrace)
    requires StatementsAt(ts, j + 2, false) == Success(Parsed(block, k))
    ensures StatementAt(ts, i, toplevel) == Success(Item(If(c, block), k))
  {
    assert MatchAt(ts, i, T.Identifier, None, Some(T.Assignment)) == Success(false);
    assert IsKeywordAt(ts, i, "if");
    assert ExpectAt(ts, i + 1, T.LeftParen, None, None) == Success(i + 2);
    assert ExpectAt(ts, j, T.RightParen, None, None) == Success(j + 1);
    assert ExpectAt(ts, j + 1, T.LeftBrace, None, None) == Success(j + 2);
  }

  lemma StatementLoop(ts: seq<T.Token>, i: nat, toplevel: bool, block: seq<Statement>, k: nat)
    requires i + 1 < |ts| && ts[i] == T.KeywordToken("loop") && ts[i + 1] == T.Plain(T.LeftBrace)
    requires StatementsAt(ts, i + 2, false) == Success(Parsed(block, k))
    ensures StatementAt(ts, i, toplevel) == Success(Item(Loop(block), k))
  {
    assert ExpectAt(ts, i + 1, T.LeftBrace, None, None) == Success(i + 2);
  }

  lemma StatementBreak(ts: seq<T.Token>, i: nat, toplevel: bool, next: nat)
    requires i + 1 < |ts| && ts[i] == T.KeywordToken("break") && ts[i + 1] == T.Plain(T.Semicolon)
    requires next == i + 2
    ensures StatementAt(ts, i, toplevel) == Success(Item(Break, next))
  {
    assert ExpectAt(ts, i + 1, T.Semicolon, None, None) == Success(i + 2);
  }

  lemma StatementReturn(ts: seq<T.Token>, i: nat, toplevel: bool, e: Expression, j: nat, next: nat)
    requires i < |ts| && ts[i] == T.KeywordToken("return")
    requires ExpressionAt(ts, i + 1) == Success(Parsed(e, j))
    requires j < |ts| && ts[j] == T.Plain(T.Semicolon) && next == j + 1
    ensures StatementAt(ts, i, toplevel) == Success(Item(Return(e), next))
  {
    assert ExpectAt(ts, j, T.Semicolon, None, None) == Success(j + 1);
  }

  lemma StatementDefinition(ts: seq<T.Token>, i: nat, d: Statement, k: nat)
    requires i < |ts| && ts[i] == T.KeywordToken("function")
    requires FunctionDefinitionAt(ts, i) == Success(Parsed(d, k))
    ensures StatementAt(ts, i, true) == Success(Item(d, k))
  {
  }

  lemma StatementExpression(ts: seq<T.Token>, i: nat, toplevel: bool, e: Expression, j: nat, next: nat)
    requires i < |ts| && StartsExpression(ts[i])
    requires i + 1 < |ts| ==> ts[i + 1].tokenType != T.Assignment
    requires ExpressionAt(ts, i) == Success(Parsed(e, j))
    requires j < |ts| && ts[j] == T.Plain(T.Semicolon) && next == j + 1
    ensures StatementAt(ts, i, toplevel) == Success(Item(ExpressionStatement(e), next))
  {
    assert ExpectAt(ts, j, T.Semicolon, None, None) == Success(j + 1);
  }

  lemma FunctionDefinitionStep(ts: seq<T.Token>, i: nat, f: string, formals: seq<string>, j: nat, body: seq<Statement>, k: nat)
    requires i + 3 < |ts| && ts[i] == T.KeywordToken("function") && ts[i + 1] == T.IdentifierToken(f)
    requires ts[i + 2] == T.Plain(T.LeftParen)
    requires |formals| == 0 ==> ts[i + 3] == T.Plain(T.RightParen) && j == i + 4
    requires |formals| > 0 ==> ts[i + 3].tokenType != T.RightParen && FormalsAt(ts, i + 3) == Success(Parsed(formals, j))
    requires j < |ts| && ts[j] == T.Plain(T.LeftBrace)
    requires StatementsAt(ts, j + 1, false) == Success(Parsed(body, k))
    ensures FunctionDefinitionAt(ts, i) == Success(Parsed(FunctionDefinition(f, formals, body), k))
  {
    assert ExpectAt(ts, i, T.Keyword, Some("function"), None) == Success(i + 1);
    assert ExpectAt(ts, i + 2, T.LeftParen, None, None) == Success(i + 3);
    assert ExpectAt(ts, j, T.LeftBrace, None, None) == Success(j + 1);
  }

  lemma FormalsLast(ts: seq<T.Token>, i: nat, x: string, next: nat)
    requires i < |ts| && ts[i] == T.IdentifierToken(x)
    requires next == i + 2 && next <= |ts| && ts[next - 1] == T.Plain(T.RightParen)
    ensures FormalsAt(ts, i) == Success(Parsed([x], next))
  {
  }

  lemma FormalsMore(ts: seq<T.Token>, i: nat, x: string, rest: seq<string>, k: nat)
    requires i + 1 < |ts| && ts[i] == T.IdentifierToken(x) && ts[i + 1] == T.Plain(T.Comma)
    requires FormalsAt(ts, i + 2) == Success(Parsed(rest, k))
    ensures FormalsAt(ts, i) == Success(Parsed([x] + rest, k))
  {
    assert ExpectAt(ts, i + 1, T.Comma, None, None) == Success(i + 2);
  }

  lemma StatementsEnd(ts: seq<T.Token>, i: nat, next: nat)
    requires i == |ts| && next == i
    ensures StatementsAt(ts, i, true) == Success(Parsed([], next))
  {
  }

  lemma StatementsClose(ts: seq<T.Token>, i: nat, next: nat)
    requires next == i + 1 && next <= |ts| && ts[next - 1] == T.Plain(T.RightBrace)
    ensures StatementsAt(ts, i, false) == Success(Parsed([], next))
  {
    assert StatementAt(ts, i, false) == Success(Close(i + 1));
  }

  lemma StatementsCons(ts: seq<T.Token>, i: nat, toplevel: bool, s: Statement, j: nat, rest: seq<Statement>, k: nat)
    requires i < |ts| && StatementAt(ts, i, toplevel) == Success(Item(s, j))
    requires j <= |ts| && StatementsAt(ts, j, toplevel) == Success(Parsed(rest, k))
    ensures StatementsAt(ts, i, toplevel) == Success(Parsed([s] + rest, k))
  {
  }

  /** The number of statements, nested ones included: the measure of the induction below. */
  function StatementSize(s: Statement): (n: nat)
    ensures n > 0
  {
    match s
    case If(_, block) => 1 + StatementsSize(block)
    case Loop(block) => 1 + StatementsSize(block)
    case FunctionDefinition(_, _, body) => 1 + StatementsSize(body)
    case _ => 1
  }

  function StatementsSize(ss: seq<Statement>): nat
  {
    if |ss| == 0 then 0 else StatementSize(ss[0]) + StatementsSize(ss[1..])
  }

  /** Where a statement may stand: a function definition only at the top level. */
  predicate Placed(s: Statement, toplevel: bool)
  {
    if toplevel then TopLevelShape(s) else NoDefinitionIn(s)
  }

  predicate AllPlaced(ss: seq<Statement>, toplevel: bool)
  {
    if toplevel then DefinitionsAtTopLevel(ss) else NoDefinitions(ss)
  }

  /**
   * How a sequence of statements ends just before position `next`: at the end of the
   * tokens at the top level, with `}` in a block.
   */
  predicate Closed(ts: seq<T.Token>, next: nat, toplevel: bool)
  {
    if toplevel then next == |ts| else 0 < next <= |ts| && ts[next - 1] == T.Plain(T.RightBrace)
  }

  lemma OccursFive(ts: seq<T.Token>, i: nat, a: seq<T.Token>, b: seq<T.Token>, c: seq<T.Token>, d: seq<T.Token>, e: seq<T.Token>)
    requires Occurs(ts, i, a + b + c + d + e)
    ensures Occurs(ts, i, a) && Occurs(ts, i + |a|, b) && Occurs(ts, i + |a| + |b|, c)
    ensures Occurs(ts, i + |a| + |b| + |c|, d) && Occurs(ts, i + |a| + |b| + |c| + |d|, e)
  {
    OccursSplit(ts, i, a + b + c + d, e);
    OccursSplit(ts, i, a + b + c, d);
    OccursThree(ts, i, a, b, c);
  }

  /** Parsing printed formals followed by `)` gives them back, and the position after the `)`. */
  lemma {:induction false} FormalsPrinted(ts: seq<T.Token>, i: nat, fs: seq<string>, next: nat)
    requires |fs| > 0 && Occurs(ts, i, PrintFormals(fs))
    requires next == i + |PrintFormals(fs)| + 1 && next <= |ts| && ts[next - 1] == T.Plain(T.RightParen)
    ensures FormalsAt(ts, i) == Success(Parsed(fs, next))
    decreases |fs|
  {
    if |fs| == 1 {
      OccursOne(ts, i, T.IdentifierToken(fs[0]));
      FormalsLast(ts, i, fs[0], next);
      HeadTail(fs);
    } else {
      var head := [T.IdentifierToken(fs[0]), T.Plain(T.Comma)];
      OccursSplit(ts, i, head, PrintFormals(fs[1..]));
      OccursAt(ts, i, head, 0);
      OccursAt(ts, i, head, 1);
      FormalsPrinted(ts, i + 2, fs[1..], next);
      FormalsMore(ts, i, fs[0], fs[1..], next);
      HeadTail(fs);
    }
  }

  /**
   * Parsing printed statements, followed by the end of the tokens (top level) or by
   * `}` (a block), gives them back, and the position after the `}` in a block.
   */
  lemma {:induction false} StatementsPrinted(ts: seq<T.Token>, i: nat, ss: seq<Statement>, toplevel: bool, next: nat)
    requires BareStatements(ss) && AllPlaced(ss, toplevel) && Occurs(ts, i, PrintStatements(ss))
    requires next == i + |PrintStatements(ss)| + (if toplevel then 0 else 1) && Closed(ts, next, toplevel)
    ensures StatementsAt(ts, i, toplevel) == Success(Parsed(ss, next))
    decreases StatementsSize(ss), 4
  {
    if |ss| == 0 {
      assert ss == [];
      if toplevel {
        StatementsEnd(ts, i, next);
      } else {
        StatementsClose(ts, i, next);
      }
    } else {
      MoreStatementsPrinted(ts, i, ss, toplevel, next);
    }
  }

  /** The case of StatementsPrinted with at least one statement. */
  lemma {:induction false} MoreStatementsPrinted(ts: seq<T.Token>, i: nat, ss: seq<Statement>, toplevel: bool, next: nat)
    requires |ss| > 0 && BareStatements(ss) && AllPlaced(ss, toplevel) && Occurs(ts, i, PrintStatements(ss))
    requires next == i + |PrintStatements(ss)| + (if toplevel then 0 else 1) && Closed(ts, next, toplevel)
    ensures StatementsAt(ts, i, toplevel) == Success(Parsed(ss, next))
    decreases StatementsSize(ss), 3
  {
    var j := StatementsSplit(ts, i, ss, toplevel);
    StatementPrinted(ts, i, ss[0], toplevel, j);
    StatementsPrinted(ts, j, ss[1..], toplevel, next);
    StatementsCons(ts, i, toplevel, ss[0], j, ss[1..], next);
  }

  lemma StatementsSplit(ts: seq<T.Token>, i: nat, ss: seq<Statement>, toplevel: bool) returns (j: nat)
    requires |ss| > 0 && BareStatements(ss) && AllPlaced(ss, toplevel) && Occurs(ts, i, PrintStatements(ss))
    ensures j == i + |PrintStatement(ss[0])|
    ensures BareStatement(ss[0]) && Placed(ss[0], toplevel) && Occurs(ts, i, PrintStatement(ss[0]))
    ensures BareStatements(ss[1..]) && AllPlaced(ss[1..], toplevel) && Occurs(ts, j, PrintStatements(ss[1..]))
    ensures j + |PrintStatements(ss[1..])| == i + |PrintStatements(ss)|
    ensures [ss[0]] + ss[1..] == ss
  {
    var p := PrintStatement(ss[0]);
    var rest := PrintStatements(ss[1..]);
    j := i + |p|;
    assert PrintStatements(ss) == p + rest;
    OccursSplit(ts, i, p, rest);
    HeadTail(ss);
  }

  /** Parsing a printed statement gives it back, and the position after it. */
  lemma {:induction false} StatementPrinted(ts: seq<T.Token>, i: nat, s: Statement, toplevel: bool, next: nat)
    requires BareStatement(s) && Placed(s, toplevel) && Occurs(ts, i, PrintStatement(s))
    requires next == i + |PrintStatement(s)|
    ensures StatementAt(ts, i, toplevel) == Success(Item(s, next))
    decreases StatementSize(s), 2
  {
    match s
    case Assignment(_, _, _) => AssignmentPrinted(ts, i, s, toplevel, next);
    case If(_, _) => IfPrinted(ts, i, s, toplevel, next);
    case Loop(_) => LoopPrinted(ts, i, s, toplevel, next);
    case Break =>
      var bt := [T.KeywordToken("break"), T.Plain(T.Semicolon)];
      OccursAt(ts, i, bt, 0);
      OccursAt(ts, i, bt, 1);
      StatementBreak(ts, i, toplevel, next);
    case Return(_) => ReturnPrinted(ts, i, s, toplevel, next);
    case FunctionDefinition(_, _, _) =>
      DefinitionPrinted(ts, i, s, next);
      StatementDefinition(ts, i, s, next);
    case ExpressionStatement(_) => ExpressionStatementPrinted(ts, i, s, toplevel, next);
  }

  lemma AssignmentPrinted(ts: seq<T.Token>, i: nat, s: Statement, toplevel: bool, next: nat)
    requires s.Assignment? && BareStatement(s) && Occurs(ts, i, PrintStatement(s)) && next == i + |PrintStatement(s)|
    ensures StatementAt(ts, i, toplevel) == Success(Item(s, next))
  {
    var j := AssignmentParts(ts, i, s, next);
    StatementAssignment(ts, i, toplevel, s.identifier, s.expression, j, next);
  }

  lemma AssignmentParts(ts: seq<T.Token>, i: nat, s: Statement, next: nat) returns (j: nat)
    requires s.Assignment? && BareStatement(s) && Occurs(ts, i, PrintStatement(s)) && next == i + |PrintStatement(s)|
    ensures i + 1 < |ts| && ts[i] == T.IdentifierToken(s.identifier) && ts[i + 1] == T.Plain(T.Assignment)
    ensures ExpressionAt(ts, i + 2) == Success(Parsed(s.expression, j))
    ensures j < |ts| && ts[j] == T.Plain(T.Semicolon) && next == j + 1
    ensures s == Assignment(s.identifier, s.expression, None)
  {
    j := AssignmentSplit(ts, i, s, next);
    ExpressionPrinted(ts, i + 2, s.expression, j);
  }

  lemma AssignmentSplit(ts: seq<T.Token>, i: nat, s: Statement, next: nat) returns (j: nat)
    requires s.Assignment? && Occurs(ts, i, PrintStatement(s)) && next == i + |PrintStatement(s)|
    ensures j == i + 2 + |PrintExpression(s.expression)|
    ensures i + 1 < |ts| && ts[i] == T.IdentifierToken(s.identifier) && ts[i + 1] == T.Plain(T.Assignment)
    ensures Occurs(ts, i + 2, PrintExpression(s.expression))
    ensures j < |ts| && ts[j] == T.Plain(T.Semicolon) && EndsExpression(ts, j) && next == j + 1
  {
    var head := [T.IdentifierToken(s.identifier), T.Plain(T.Assignment)];
    var pe := PrintExpression(s.expression);
    j := i + 2 + |pe|;
    OccursThree(ts, i, head, pe, [T.Plain(T.Semicolon)]);
    OccursAt(ts, i, head, 0);
    OccursAt(ts, i, head, 1);
    OccursOne(ts, j, T.Plain(T.Semicolon));
  }

  lemma ReturnPrinted(ts: seq<T.Token>, i: nat, s: Statement, toplevel: bool, next: nat)
    requires s.Return? && BareStatement(s) && Occurs(ts, i, PrintStatement(s)) && next == i + |PrintStatement(s)|
    ensures StatementAt(ts, i, toplevel) == Success(Item(s, next))
  {
    var j := ReturnParts(ts, i, s, next);
    StatementReturn(ts, i, toplevel, s.expression, j, next);
  }

  lemma ReturnParts(ts: seq<T.Token>, i: nat, s: Statement, next: nat) returns (j: nat)
    requires s.Return? && BareStatement(s) && Occurs(ts, i, PrintStatement(s)) && next == i + |PrintStatement(s)|
    ensures i < |ts| && ts[i] == T.KeywordToken("return")
    ensures ExpressionAt(ts, i + 1) == Success(Parsed(s.expression, j))
    ensures j < |ts| && ts[j] == T.Plain(T.Semicolon) && next == j + 1
    ensures s == Return(s.expression)
  {
    var pe := PrintExpression(s.expression);
    j := i + 1 + |pe|;
    OccursThree(ts, i, [T.KeywordToken("return")], pe, [T.Plain(T.Semicolon)]);
    OccursOne(ts, i, T.KeywordToken("return"));
    OccursOne(ts, j, T.Plain(T.Semicolon));
    ExpressionPrinted(ts, i + 1, s.expression, j);
  }

  lemma ExpressionStatementPrinted(ts: seq<T.Token>, i: nat, s: Statement, toplevel: bool, next: nat)
    requires s.ExpressionStatement? && BareStatement(s) && Occurs(ts, i, PrintStatement(s))
    requires next == i + |PrintStatement(s)|
    ensures StatementAt(ts, i, toplevel) == Success(Item(s, next))
  {
    var j := ExpressionStatementParts(ts, i, s, next);
    StatementExpression(ts, i, toplevel, s.expression, j, next);
  }

  lemma ExpressionStatementParts(ts: seq<T.Token>, i: nat, s: Statement, next: nat) returns (j: nat)
    requires s.ExpressionStatement? && BareStatement(s) && Occurs(ts, i, PrintStatement(s))
    requires next == i + |PrintStatement(s)|
    ensures i < |ts| && StartsExpression(ts[i])
    ensures i + 1 < |ts| ==> ts[i + 1].tokenType != T.Assignment
    ensures ExpressionAt(ts, i) == Success(Parsed(s.expression, j))
    ensures j < |ts| && ts[j] == T.Plain(T.Semicolon) && next == j + 1
    ensures s == ExpressionStatement(s.expression)
  {
    var pe := PrintExpression(s.expression);
    j := i + |pe|;
    OccursSplit(ts, i, pe, [T.Plain(T.Semicolon)]);
    OccursOne(ts, j, T.Plain(T.Semicolon));
    OccursAt(ts, i, pe, 0);
    if |pe| > 1 {
      OccursAt(ts, i, pe, 1);
    }
    ExpressionPrinted(ts, i, s.expression, j);
  }

  lemma {:induction false} IfPrinted(ts: seq<T.Token>, i: nat, s: Statement, toplevel: bool, next: nat)
    requires s.If? && BareStatement(s) && Placed(s, toplevel) && Occurs(ts, i, PrintStatement(s))
    requires next == i + |PrintStatement(s)|
    ensures StatementAt(ts, i, toplevel) == Success(Item(s, next))
    decreases StatementSize(s), 1
  {
    var j := IfParts(ts, i, s, toplevel, next);
    StatementIf(ts, i, toplevel, s.condition, j, s.block, next);
  }

  lemma {:induction false} IfParts(ts: seq<T.Token>, i: nat, s: Statement, toplevel: bool, next: nat) returns (j: nat)
    requires s.If? && BareStatement(s) && Placed(s, toplevel) && Occurs(ts, i, PrintStatement(s))
    requires next == i + |PrintStatement(s)|
    ensures i + 1 < |ts| && ts[i] == T.KeywordToken("if") && ts[i + 1] == T.Plain(T.LeftParen)
    ensures ExpressionAt(ts, i + 2) == Success(Parsed(s.condition, j))
    ensures j + 1 < |ts| && ts[j] == T.Plain(T.RightParen) && ts[j + 1] == T.Plain(T.LeftBrace)
    ensures StatementsAt(ts, j + 2, false) == Success(Parsed(s.block, next))
    ensures s == If(s.condition, s.block)
    decreases StatementSize(s), 0
  {
    j := IfSplit(ts, i, s, next);
    ExpressionPrinted(ts, i + 2, s.condition, j);
    StatementsPrinted(ts, j + 2, s.block, false, next);
  }

  lemma IfSplit(ts: seq<T.Token>, i: nat, s: Statement, next: nat) returns (j: nat)
    requires s.If? && Occurs(ts, i, PrintStatement(s)) && next == i + |PrintStatement(s)|
    ensures j == i + 2 + |PrintExpression(s.condition)|
    ensures i + 1 < |ts| && ts[i] == T.KeywordToken("if") && ts[i + 1] == T.Plain(T.LeftParen)
    ensures Occurs(ts, i + 2, PrintExpression(s.condition)) && EndsExpression(ts, j)
    ensures j + 1 < |ts| && ts[j] == T.Plain(T.RightParen) && ts[j + 1] == T.Plain(T.LeftBrace)
    ensures Occurs(ts, j + 2, PrintStatements(s.block))
    ensures next == j + 2 + |PrintStatements(s.block)| + 1 && Closed(ts, next, false)
  {
    var head := [T.KeywordToken("if"), T.Plain(T.LeftParen)];
    var pc := PrintExpression(s.condition);
    var mid := [T.Plain(T.RightParen), T.Plain(T.LeftBrace)];
    var pb := PrintStatements(s.block);
    j := i + 2 + |pc|;
    OccursFive(ts, i, head, pc, mid, pb, [T.Plain(T.RightBrace)]);
    OccursAt(ts, i, head, 0);
    OccursAt(ts, i, head, 1);
    OccursAt(ts, j, mid, 0);
    OccursAt(ts, j, mid, 1);
    OccursOne(ts, j + 2 + |pb|, T.Plain(T.RightBrace));
  }

  lemma {:induction false} LoopPrinted(ts: seq<T.Token>, i: nat, s: Statement, toplevel: bool, next: nat)
    requires s.Loop? && BareStatement(s) && Placed(s, toplevel) && Occurs(ts, i, PrintStatement(s))
    requires next == i + |PrintStatement(s)|
    ensures StatementAt(ts, i, toplevel) == Success(Item(s, next))
    decreases StatementSize(s), 1
  {
    LoopParts(ts, i, s, toplevel, next);
    StatementLoop(ts, i, toplevel, s.block, next);
  }

  lemma {:induction false} LoopParts(ts: seq<T.Token>, i: nat, s: Statement, toplevel: bool, next: nat)
    requires s.Loop? && BareStatement(s) && Placed(s, toplevel) && Occurs(ts, i, PrintStatement(s))
    requires next == i + |PrintStatement(s)|
    ensures i + 1 < |ts| && ts[i] == T.KeywordToken("loop") && ts[i + 1] == T.Plain(T.LeftBrace)
    ensures StatementsAt(ts, i + 2, false) == Success(Parsed(s.block, next))
    ensures s == Loop(s.block)
    decreases StatementSize(s), 0
  {
    LoopSplit(ts, i, s, next);
    StatementsPrinted(ts, i + 2, s.block, false, next);
  }

  lemma LoopSplit(ts: seq<T.Token>, i: nat, s: Statement, next: nat)
    requires s.Loop? && Occurs(ts, i, PrintStatement(s)) && next == i + |PrintStatement(s)|
    ensures i + 1 < |ts| && ts[i] == T.KeywordToken("loop") && ts[i + 1] == T.Plain(T.LeftBrace)
    ensures Occurs(ts, i + 2, PrintStatements(s.block))
    ensures next == i + 2 + |PrintStatements(s.block)| + 1 && Closed(ts, next, false)
  {
    var head := [T.KeywordToken("loop"), T.Plain(T.LeftBrace)];
    var pb := PrintStatements(s.block);
    OccursThree(ts, i, head, pb, [T.Plain(T.RightBrace)]);
    OccursAt(ts, i, head, 0);
    OccursAt(ts, i, head, 1);
    OccursOne(ts, i + 2 + |pb|, T.Plain(T.RightBrace));
  }

  lemma {:induction false} DefinitionPrinted(ts: seq<T.Token>, i: nat, s: Statement, next: nat)
    requires s.FunctionDefinition? && BareStatement(s) && TopLevelShape(s) && Occurs(ts, i, PrintStatement(s))
    requires next == i + |PrintStatement(s)|
    ensures i < |ts| && ts[i] == T.KeywordToken("function")
    ensures FunctionDefinitionAt(ts, i) == Success(Parsed(s, next))
    decreases StatementSize(s), 1
  {
    var j := DefinitionSplit(ts, i, s, next);
    DefinitionFormals(ts, i, s.formals, j);
    StatementsPrinted(ts, j + 1, s.body, false, next);
    FunctionDefinitionStep(ts, i, s.identifier, s.formals, j, s.body, next);
  }

  lemma DefinitionFormals(ts: seq<T.Token>, i: nat, fs: seq<string>, j: nat)
    requires j == i + 4 + |PrintFormals(fs)| && j <= |ts|
    requires Occurs(ts, i + 3, PrintFormals(fs)) && ts[j - 1] == T.Plain(T.RightParen)
    requires |fs| > 0 ==> ts[i + 3] == T.IdentifierToken(fs[0])
    ensures |fs| == 0 ==> ts[i + 3] == T.Plain(T.RightParen) && j == i + 4
    ensures |fs| > 0 ==> ts[i + 3].tokenType != T.RightParen && FormalsAt(ts, i + 3) == Success(Parsed(fs, j))
  {
    if |fs| > 0 {
      FormalsPrinted(ts, i + 3, fs, j);
    }
  }

  lemma DefinitionSplit(ts: seq<T.Token>, i: nat, s: Statement, next: nat) returns (j: nat)
    requires s.FunctionDefinition? && Occurs(ts, i, PrintStatement(s)) && next == i + |PrintStatement(s)|
    ensures j == i + 4 + |PrintFormals(s.formals)|
    ensures i + 3 < |ts| && ts[i] == T.KeywordToken("function") && ts[i + 1] == T.IdentifierToken(s.identifier)
    ensures ts[i + 2] == T.Plain(T.LeftParen)
    ensures Occurs(ts, i + 3, PrintFormals(s.formals))
    ensures |s.formals| > 0 ==> ts[i + 3] == T.IdentifierToken(s.formals[0])
    ensures j < |ts| && ts[j - 1] == T.Plain(T.RightParen) && ts[j] == T.Plain(T.LeftBrace)
    ensures Occurs(ts, j + 1, PrintStatements(s.body))
    ensures next == j + 1 + |PrintStatements(s.body)| + 1 && Closed(ts, next, false)
  {
    var head := [T.KeywordToken("function"), T.IdentifierToken(s.identifier), T.Plain(T.LeftParen)];
    var pf := PrintFormals(s.formals);
    var mid := [T.Plain(T.RightParen), T.Plain(T.LeftBrace)];
    var pb := PrintStatements(s.body);
    var m := i + 3 + |pf|;
    j := m + 1;
    OccursFive(ts, i, head, pf, mid, pb, [T.Plain(T.RightBrace)]);
    OccursAt(ts, i, head, 0);
    OccursAt(ts, i, head, 1);
    OccursAt(ts, i, head, 2);
    if |pf| > 0 {
      OccursAt(ts, i + 3, pf, 0);
    }
    OccursAt(ts, m, mid, 0);
    OccursAt(ts, m, mid, 1);
    OccursOne(ts, m + 2 + |pb|, T.Plain(T.RightBrace));
  }

  /**
   * The round trip: the parser reads back every annotation-free program whose function
   * definitions are all at the top level from its printed tokens.
   */
  lemma ParsePrinted(p: Program)
    requires BareStatements(p.statements) && DefinitionsAtTopLevel(p.statements)
    ensures ParseProgram(PrintProgram(p)) == Success(p)
  {
    var ts := PrintProgram(p);
    assert Occurs(ts, 0, ts);
    StatementsPrinted(ts, 0, p.statements, true, |ts|);
  }
}
