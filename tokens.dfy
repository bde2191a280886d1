/**
 * The token record of common.ts: a type tag, an optional keyword name and an
 * optional string or number payload. The parser consults the type and the name;
 * the payload is the identifier's text or the literal's value.
 */
module Tokens {
  import opened Wrappers

  datatype TokenType =
    | Keyword
    | Identifier
    | LiteralNumber
    | LeftParen
    | RightParen
    | LeftBrace
    | RightBrace
    | Comma
    | Semicolon
    | Assignment
    | Equals
    | Add
    | Subtract

  datatype TokenValue = Text(text: string) | Number(number: int)

  datatype Token = Token(tokenType: TokenType, name: Option<string>, value: Option<TokenValue>)

  function KeywordToken(name: string): Token
  {
    Token(Keyword, Some(name), None)
  }

  function IdentifierToken(s: string): Token
  {
    Token(Identifier, None, Some(Text(s)))
  }

  function NumberToken(n: int): Token
  {
    Token(LiteralNumber, None, Some(Number(n)))
  }

  /** A token that carries neither a name nor a payload (punctuation and operators). */
  function Plain(t: TokenType): Token
  {
    Token(t, None, None)
  }
}
