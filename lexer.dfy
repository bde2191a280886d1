/**
 * The character scanner of lexer.ts. LexSpec is the specification, one token at a
 * time over the rest of the text; Lex is the scanning loop of the source, proved to
 * compute it. Render spells a token list back as text, and the round trip
 * LexSpec(Render(ts)) == Success(ts) holds for every token this lexer can produce.
 */
module Lexer {
  import opened Wrappers
  import opened Tokens
  import opened Numerals

  /** The only failure: a character no token starts with ("Unexpected: c"). */
  datatype LexError = Unexpected(c: char)

  predicate IsBlank(c: char)
  {
    c == ' ' || c == '\t' || c == '\n'
  }

  predicate IsLower(c: char)
  {
    'a' <= c <= 'z'
  }

  predicate IsKeyword(w: string)
  {
    w == "loop" || w == "if" || w == "break"
  }

  /** A maximal run of lower-case letters: a keyword or an identifier. */
  function WordToken(w: string): Token
  {
    if IsKeyword(w) then KeywordToken(w) else IdentifierToken(w)
  }

  /** The token types spelled by a single character. */
  function PunctuationType(c: char): Option<TokenType>
  {
    if c == '(' then Some(LeftParen)
    else if c == ')' then Some(RightParen)
    else if c == '{' then Some(LeftBrace)
    else if c == '}' then Some(RightBrace)
    else if c == ',' then Some(Comma)
    else if c == ';' then Some(Semicolon)
    else None
  }

  /** The length of the longest prefix of s made of lower-case letters. */
  function WordLength(s: string): (n: nat)
    ensures n <= |s|
    ensures forall k :: 0 <= k < n ==> IsLower(s[k])
    ensures n == |s| || !IsLower(s[n])
  {
    if s == [] || !IsLower(s[0]) then 0 else 1 + WordLength(s[1..])
  }

  /** The length of the longest prefix of s made of decimal digits. */
  function DigitsLength(s: string): (n: nat)
    ensures n <= |s|
    ensures forall k :: 0 <= k < n ==> IsDigit(s[k])
    ensures n == |s| || !IsDigit(s[n])
  {
    if s == [] || !IsDigit(s[0]) then 0 else 1 + DigitsLength(s[1..])
  }

  /** t in front of the tokens of r, or r's failure unchanged. */
  function Prepend(t: Token, r: Result<seq<Token>, LexError>): Result<seq<Token>, LexError>
  {
    match r
    case Success(ts) => Success([t] + ts)
    case Failure(e) => Failure(e)
  }

  /** The tokens already emitted, in front of the tokens of r. */
  function Extend(done: seq<Token>, r: Result<seq<Token>, LexError>): Result<seq<Token>, LexError>
  {
    match r
    case Success(ts) => Success(done + ts)
    case Failure(e) => Failure(e)
  }

  /** What the scanner does at the first character of a non-empty text. */
  datatype Step = Skip(width: nat) | Emit(token: Token, width: nat) | Stop(c: char)

  /** One step of the scanner: skip a blank, emit one token, or stop at a stray character. */
  function Scan(s: string): (st: Step)
    requires s != []
    ensures !st.Stop? ==> 0 < st.width <= |s|
  {
    if IsBlank(s[0]) then Skip(1)
    else if IsLower(s[0]) then
      var n := WordLength(s);
      Emit(WordToken(s[..n]), n)
    else if IsDigit(s[0]) then
      var n := DigitsLength(s);
      Emit(NumberToken(DecimalValue(s[..n])), n)
    else if PunctuationType(s[0]).Some? then Emit(Plain(PunctuationType(s[0]).value), 1)
    else if s[0] == ':' && 1 < |s| && s[1] == '=' then Emit(Plain(Assignment), 2)
    else if s[0] == '=' && 1 < |s| && s[1] == '=' then Emit(Plain(Equals), 2)
    else Stop(s[0])
  }

  /** The tokens of s, in order. */
  function LexSpec(s: string): Result<seq<Token>, LexError>
    decreases |s|
  {
    if s == [] then Success([])
    else
      match Scan(s)
      case Skip(n) => LexSpec(s[n..])
      case Emit(t, n) => Prepend(t, LexSpec(s[n..]))
      case Stop(c) => Failure(Unexpected(c))
  }

  /** Every token consumes at least one character, so there are never more tokens than characters. */
  lemma {:induction false} LexSpecLength(s: string)
    ensures LexSpec(s).Success? ==> |LexSpec(s).value| <= |s|
    decreases |s|
  {
    if s != [] {
      match Scan(s)
      case Skip(n) => LexSpecLength(s[n..]);
      case Emit(t, n) => LexSpecLength(s[n..]);
      case Stop(c) =>
    }
  }

  /**
   * The source tests /[a-z]/ on text[i]; past the end text[i] is undefined, whose
   * string form "undefined" matches, so a word running to the end never stops.
   */
  predicate LowerAt(text: string, i: nat)
  {
    i >= |text| || IsLower(text[i])
  }

  lemma ExtendPrepend(done: seq<Token>, t: Token, r: Result<seq<Token>, LexError>)
    ensures Extend(done, Prepend(t, r)) == Extend(done + [t], r)
  {
    if r.Success? {
      assert done + ([t] + r.value) == (done + [t]) + r.value;
    }
  }

  // Sequence facts stated apart: asserted next to LexSpec terms they are costly.

  lemma DropDrop<A>(s: seq<A>, i: nat, n: nat)
    requires i + n <= |s|
    ensures s[i..][n..] == s[i + n..]
  {
  }

  lemma DropAll<A>(s: seq<A>)
    ensures s[|s|..] == [] && s[0..] == s
  {
  }

  lemma AppendNil<A>(s: seq<A>)
    ensures s + [] == s && [] + s == s
  {
  }

  /** done, followed by the tokens of text[i..], are goal: the tokens of the whole text. */
  predicate Accounted(goal: Result<seq<Token>, LexError>, text: string, i: nat, done: seq<Token>)
  {
    i <= |text| && goal == Extend(done, LexSpec(text[i..]))
  }

  /** A scanner step at text[i..] that emits t and resumes n characters on. */
  lemma EmitStep(goal: Result<seq<Token>, LexError>, text: string, i: nat, n: nat, t: Token, done: seq<Token>)
    requires i < |text| && Scan(text[i..]) == Emit(t, n) && Accounted(goal, text, i, done)
    ensures Accounted(goal, text, i + n, done + [t])
  {
    DropDrop(text, i, n);
    ExtendPrepend(done, t, LexSpec(text[i + n..]));
  }

  /** A scanner step at text[i..] that skips n characters. */
  lemma SkipStep(goal: Result<seq<Token>, LexError>, text: string, i: nat, n: nat, done: seq<Token>)
    requires i < |text| && Scan(text[i..]) == Skip(n) && Accounted(goal, text, i, done)
    ensures Accounted(goal, text, i + n, done)
  {
    DropDrop(text, i, n);
  }

  /** The tokens so far after a step that does not stop: with the emitted token, if any. */
  function Emitted(done: seq<Token>, step: Step): seq<Token>
  {
    if step.Emit? then done + [step.token] else done
  }

  /** A scanner step at text[i..] that skips or emits: the tokens of the whole text are still accounted for. */
  lemma MoveAccounted(goal: Result<seq<Token>, LexError>, text: string, i: nat, done: seq<Token>, step: Step)
    requires i < |text| && step == Scan(text[i..]) && !step.Stop? && Accounted(goal, text, i, done)
    ensures 0 < step.width && Accounted(goal, text, i + step.width, Emitted(done, step))
  {
    if step.Emit? {
      EmitStep(goal, text, i, step.width, step.token, done);
    } else {
      SkipStep(goal, text, i, step.width, done);
    }
  }

  /** A scanner step at text[i..] that stops at a character no token starts with. */
  lemma StopStep(goal: Result<seq<Token>, LexError>, text: string, i: nat, c: char, done: seq<Token>)
    requires i < |text| && Scan(text[i..]) == Stop(c) && Accounted(goal, text, i, done)
    ensures goal == Failure(Unexpected(c))
  {
  }

  /** The run text[start..i] is the maximal word at start. */
  lemma ScanWord(text: string, start: nat, i: nat)
    requires start < i <= |text|
    requires forall k :: start <= k < i ==> IsLower(text[k])
    requires i == |text| || !IsLower(text[i])
    ensures Scan(text[start..]) == Emit(WordToken(text[start..i]), i - start)
  {
    var rest := text[start..];
    assert rest[..i - start] == text[start..i];
  }

  /** The run text[start..i] is the maximal digit run at start. */
  lemma ScanDigits(text: string, start: nat, i: nat)
    requires start < i <= |text|
    requires forall k :: start <= k < i ==> IsDigit(text[k])
    requires i == |text| || !IsDigit(text[i])
    ensures Scan(text[start..]) == Emit(NumberToken(DecimalValue(text[start..i])), i - start)
  {
    var rest := text[start..];
    assert rest[..i - start] == text[start..i];
  }

  /** The inner loop over a word: the first position after start whose character is not a-z. */
  method WordEnd(text: string, start: nat) returns (i: nat)
    requires start < |text| && IsLower(text[start]) && !IsLower(text[|text| - 1])
    ensures start < i < |text| && !IsLower(text[i])
    ensures forall k :: start <= k < i ==> IsLower(text[k])
  {
    i := start;
    while LowerAt(text, i)
      invariant start <= i < |text|
      invariant forall k :: start <= k < i ==> IsLower(text[k])
      decreases |text| - i
    {
      i := i + 1;
    }
  }

  /** The inner loop over a number: the first position after start that holds no digit. */
  method DigitsEnd(text: string, start: nat) returns (i: nat)
    requires start < |text| && IsDigit(text[start])
    ensures start < i <= |text| && (i == |text| || !IsDigit(text[i]))
    ensures forall k :: start <= k < i ==> IsDigit(text[k])
  {
    i := start;
    while i < |text| && IsDigit(text[i])
      invariant start <= i <= |text|
      invariant forall k :: start <= k < i ==> IsDigit(text[k])
      decreases |text| - i
    {
      i := i + 1;
    }
  }

  /**
   * One pass of the scanning loop of lexer(): the character at i is skipped, starts
   * a token, or is unexpected.
   */
  method ScanAt(text: string, i: nat) returns (step: Step)
    requires i < |text| && !IsLower(text[|text| - 1])
    ensures !step.Stop? ==> 0 < step.width <= |text| - i
    ensures step == Scan(text[i..])
  {
    var c := text[i];
    assert text[i..][0] == c;
    assert 1 < |text[i..]| ==> text[i..][1] == text[i + 1];
    if IsBlank(c) {
      return Skip(1);
    } else if IsLower(c) {
      var j := WordEnd(text, i);
      ScanWord(text, i, j);
      return Emit(WordToken(text[i..j]), j - i);
    } else if IsDigit(c) {
      var j := DigitsEnd(text, i);
      ScanDigits(text, i, j);
      return Emit(NumberToken(DecimalValue(text[i..j])), j - i);
    } else if PunctuationType(c).Some? {
      return Emit(Plain(PunctuationType(c).value), 1);
    } else if c == ':' && i + 1 < |text| && text[i + 1] == '=' {
      return Emit(Plain(Assignment), 2);
    } else if c == '=' && i + 1 < |text| && text[i + 1] == '=' {
      return Emit(Plain(Equals), 2);
    } else {
      return Stop(c);
    }
  }

  /**
   * One pass of the scanning loop: the tokens so far and the position after the
   * pass, or the error that ends the run.
   */
  method Advance(ghost goal: Result<seq<Token>, LexError>, text: string, i: nat, tokens: seq<Token>)
    returns (tokens': seq<Token>, next: nat, failure: Option<LexError>)
    requires i < |text| && !IsLower(text[|text| - 1]) && Accounted(goal, text, i, tokens)
    ensures failure.Some? ==> goal == Failure(failure.value)
    ensures failure.None? ==> i < next && Accounted(goal, text, next, tokens')
  {
    var step := ScanAt(text, i);
    if step.Stop? {
      StopStep(goal, text, i, step.c, tokens);
      return tokens, i, Some(Unexpected(step.c));
    }
    MoveAccounted(goal, text, i, tokens, step);
    return Emitted(tokens, step), i + step.width, None;
  }

  lemma LexStart(text: string)
    ensures Accounted(LexSpec(text), text, 0, [])
  {
    DropAll(text);
    if LexSpec(text).Success? { AppendNil(LexSpec(text).value); }
  }

  lemma LexEnd(goal: Result<seq<Token>, LexError>, text: string, i: nat, tokens: seq<Token>)
    requires i == |text| && Accounted(goal, text, i, tokens)
    ensures goal == Success(tokens)
  {
    DropAll(text);
    AppendNil(tokens);
  }

  /**
   * lexer(text). The source loops forever on a text that ends in a lower-case
   * letter (see LowerAt), hence the precondition.
   */
  method Lex(text: string) returns (r: Result<seq<Token>, LexError>)
    requires text == [] || !IsLower(text[|text| - 1])
    ensures r == LexSpec(text)
  {
    var tokens: seq<Token> := [];
    var i: nat := 0;
    LexStart(text);
    while i < |text|
      invariant Accounted(LexSpec(text), text, i, tokens)
      decreases |text| - i
    {
      var failure;
      tokens, i, failure := Advance(LexSpec(text), text, i, tokens);
      match failure
      case Some(e) => return Failure(e);
      case None =>
    }
    LexEnd(LexSpec(text), text, i, tokens);
    return Success(tokens);
  }

  // ---------------------------------------------------------------------------
  // Properties of the specification

  predicate IsWord(w: string)
  {
    0 < |w| && forall k :: 0 <= k < |w| ==> IsLower(w[k])
  }

  /** Exactly the tokens this lexer can produce. */
  predicate Lexable(t: Token)
  {
    match t
    case Token(Keyword, Some(n), None) => IsKeyword(n)
    case Token(Identifier, None, Some(Text(w))) => IsWord(w) && !IsKeyword(w)
    case Token(LiteralNumber, None, Some(Number(n))) => n >= 0
    case Token(tt, None, None) =>
      tt.LeftParen? || tt.RightParen? || tt.LeftBrace? || tt.RightBrace? ||
      tt.Comma? || tt.Semicolon? || tt.Assignment? || tt.Equals?
    case _ => false
  }

  /** The text of a token that the lexer reads back as that token. */
  function Spell(t: Token): (s: string)
    requires Lexable(t)
    ensures 0 < |s|
  {
    match t.tokenType
    case Keyword => t.name.value
    case Identifier => t.value.value.text
    case LiteralNumber => NatToDecimal(t.value.value.number)
    case LeftParen => "("
    case RightParen => ")"
    case LeftBrace => "{"
    case RightBrace => "}"
    case Comma => ","
    case Semicolon => ";"
    case Assignment => ":="
    case Equals => "=="
  }

  /** Each token spelled out and followed by a space. */
  function Render(ts: seq<Token>): (s: string)
    requires forall k :: 0 <= k < |ts| ==> Lexable(ts[k])
    ensures s == [] || s[|s| - 1] == ' '
  {
    if ts == [] then [] else Spell(ts[0]) + " " + Render(ts[1..])
  }

  /** Blanks before the text produce no tokens. */
  lemma {:induction false} LeadingBlanks(blanks: string, s: string)
    requires forall k :: 0 <= k < |blanks| ==> IsBlank(blanks[k])
    ensures LexSpec(blanks + s) == LexSpec(s)
  {
    if blanks != [] {
      var t := blanks + s;
      assert t[0] == blanks[0];
      assert Scan(t) == Skip(1);
      assert t[1..] == blanks[1..] + s;
      LeadingBlanks(blanks[1..], s);
    } else {
      assert blanks + s == s;
    }
  }

  /** A word followed by a blank is read as one keyword or identifier token. */
  lemma LexSpelledWord(w: string, rest: string)
    requires IsWord(w)
    ensures LexSpec(w + " " + rest) == Prepend(WordToken(w), LexSpec(rest))
  {
    var s := w + " " + rest;
    assert s[0] == w[0];
    ScanWord(s, 0, |w|);
    assert s[0..] == s && s[0..|w|] == w;
    assert s[|w|..] == " " + rest;
    assert Scan(" " + rest) == Skip(1);
    assert (" " + rest)[1..] == rest;
  }

  /** A decimal spelling followed by a blank is read as one number token. */
  lemma LexSpelledNumber(n: nat, rest: string)
    ensures LexSpec(NatToDecimal(n) + " " + rest) == Prepend(NumberToken(n), LexSpec(rest))
  {
    var w := NatToDecimal(n);
    var s := w + " " + rest;
    assert s[0] == w[0];
    ScanDigits(s, 0, |w|);
    assert s[0..] == s && s[0..|w|] == w;
    DecimalRoundTrip(n);
    assert s[|w|..] == " " + rest;
    assert Scan(" " + rest) == Skip(1);
    assert (" " + rest)[1..] == rest;
  }

  /** One or two punctuation characters followed by a blank are read as one token. */
  lemma LexSpelledPunctuation(t: Token, rest: string)
    requires Lexable(t) && t.tokenType !in {Keyword, Identifier, LiteralNumber}
    ensures LexSpec(Spell(t) + " " + rest) == Prepend(t, LexSpec(rest))
  {
    var w := Spell(t);
    var s := w + " " + rest;
    assert s[0] == w[0];
    assert Scan(s) == Emit(t, |w|) by {
      if |w| == 2 { assert s[1] == w[1]; }
    }
    assert s[|w|..] == " " + rest;
    assert Scan(" " + rest) == Skip(1);
    assert (" " + rest)[1..] == rest;
  }

  /** One token, spelled and followed by a blank, is read back as that token. */
  lemma LexSpelledToken(t: Token, rest: string)
    requires Lexable(t)
    ensures LexSpec(Spell(t) + " " + rest) == Prepend(t, LexSpec(rest))
  {
    match t.tokenType
    case Keyword =>
      assert IsWord(t.name.value);
      LexSpelledWord(t.name.value, rest);
    case Identifier =>
      LexSpelledWord(t.value.value.text, rest);
    case LiteralNumber =>
      LexSpelledNumber(t.value.value.number, rest);
    case _ =>
      LexSpelledPunctuation(t, rest);
  }

  /** Reading back the rendering of a token list gives the same list. */
  lemma {:induction false} LexRender(ts: seq<Token>)
    requires forall k :: 0 <= k < |ts| ==> Lexable(ts[k])
    ensures LexSpec(Render(ts)) == Success(ts)
  {
    if ts != [] {
      var tail := Render(ts[1..]);
      assert Render(ts) == Spell(ts[0]) + " " + tail;
      LexSpelledToken(ts[0], tail);
      LexRender(ts[1..]);
      assert [ts[0]] + ts[1..] == ts;
    }
  }

  /** A scanner step that emits a token emits one the lexer can produce. */
  lemma ScanLexable(s: string)
    requires s != [] && Scan(s).Emit?
    ensures Lexable(Scan(s).token)
  {
    if !IsBlank(s[0]) && IsLower(s[0]) {
      var n := WordLength(s);
      assert IsWord(s[..n]);
    }
  }

  /** Every token of a successful lex is Lexable, so LexRender covers all the lexer outputs. */
  lemma {:induction false} LexSpecLexable(s: string)
    ensures LexSpec(s).Success? ==> forall k :: 0 <= k < |LexSpec(s).value| ==> Lexable(LexSpec(s).value[k])
    decreases |s|
  {
    if s != [] {
      match Scan(s)
      case Skip(n) =>
        LexSpecLexable(s[n..]);
      case Emit(t, n) =>
        ScanLexable(s);
        LexSpecLexable(s[n..]);
      case Stop(_) =>
    }
  }

  /** Rendering what the lexer read and lexing that text again gives the same tokens. */
  lemma Relex(s: string)
    requires LexSpec(s).Success?
    ensures var ts := LexSpec(s).value;
            (forall k :: 0 <= k < |ts| ==> Lexable(ts[k])) && LexSpec(Render(ts)) == Success(ts)
  {
    LexSpecLexable(s);
    LexRender(LexSpec(s).value);
  }

  /** A character that starts no token, whatever follows it. */
  predicate Stray(c: char)
  {
    !IsBlank(c) && !IsLower(c) && !IsDigit(c) && PunctuationType(c).None? && c != ':' && c != '='
  }

  /** After any well-formed prefix, the first stray character is reported. */
  lemma {:induction false} LexStray(ts: seq<Token>, c: char, rest: string)
    requires forall k :: 0 <= k < |ts| ==> Lexable(ts[k])
    requires Stray(c)
    ensures LexSpec(Render(ts) + [c] + rest) == Failure(Unexpected(c))
  {
    if ts == [] {
      assert Render(ts) + [c] + rest == [c] + rest;
    } else {
      assert Render(ts) + [c] + rest == Spell(ts[0]) + " " + (Render(ts[1..]) + [c] + rest);
      LexSpelledToken(ts[0], Render(ts[1..]) + [c] + rest);
      LexStray(ts[1..], c, rest);
    }
  }

  /**
   * The word loop of the source as written, with `fuel` bounding its passes: the
   * position where LowerAt first fails, or None when the fuel runs out first.
   */
  function WordEndAsWritten(text: string, i: nat, fuel: nat): (r: Option<nat>)
    ensures r.Some? ==> i <= r.value < |text| && !IsLower(text[r.value])
    decreases fuel
  {
    if !LowerAt(text, i) then Some(i)
    else if fuel == 0 then None
    else WordEndAsWritten(text, i + 1, fuel - 1)
  }

  /**
   * A word that runs to the end of the text never ends as written: past the end
   * the test still succeeds, so no amount of fuel is enough.
   */
  lemma {:induction false} WordAtEndNeverStops(text: string, i: nat, fuel: nat)
    requires forall k :: i <= k < |text| ==> IsLower(text[k])
    ensures WordEndAsWritten(text, i, fuel) == None
    decreases fuel
  {
    assert LowerAt(text, i);
    if fuel > 0 {
      WordAtEndNeverStops(text, i + 1, fuel - 1);
    }
  }

  /** The intended reading: a word at the very end of the text is one token. */
  lemma LexTrailingWord(w: string)
    requires IsWord(w)
    ensures LexSpec(w) == Success([WordToken(w)])
  {
    ScanWord(w, 0, |w|);
    assert w[0..] == w && w[0..|w|] == w && w[|w|..] == [];
    assert [WordToken(w)] + [] == [WordToken(w)];
  }

  lemma LexAnswerNumber()
    ensures LexSpec("42;") == Success([NumberToken(42), Plain(Semicolon)])
  {
    var d := "42;";
    ScanDigits(d, 0, 2);
    assert d[0..] == d && d[0..2] == "42" && d[2..] == ";";
    assert DecimalValue("42") == 42 by {
      assert "42"[..1] == "4";
      assert "4"[..0] == [];
    }
    assert Scan(d) == Emit(NumberToken(42), 2);
    assert LexSpec(d) == Prepend(NumberToken(42), LexSpec(";"));
    assert Scan(";") == Emit(Plain(Semicolon), 1);
    var empty: string := [];
    assert ";"[1..] == empty;
    assert LexSpec(empty) == Success([]);
    assert [Plain(Semicolon)] + [] == [Plain(Semicolon)];
    assert LexSpec(";") == Prepend(Plain(Semicolon), LexSpec(empty));
    assert [NumberToken(42)] + [Plain(Semicolon)] == [NumberToken(42), Plain(Semicolon)];
  }

  lemma LexAnswerTail(rest: string)
    requires rest == ":= 42;"
    ensures LexSpec(rest) == Success([Plain(Assignment), NumberToken(42), Plain(Semicolon)])
  {
    assert rest == Spell(Plain(Assignment)) + " " + "42;";
    LexSpelledToken(Plain(Assignment), "42;");
    LexAnswerNumber();
    assert [Plain(Assignment)] + [NumberToken(42), Plain(Semicolon)] ==
      [Plain(Assignment), NumberToken(42), Plain(Semicolon)];
  }

  /**
   * The example of the lexer's tests: `answer := 42;`. The texts are parameters so
   * that the verifier does not unfold the scanner over a literal on its own.
   */
  lemma LexAnswer(text: string)
    requires text == "answer := 42;"
    ensures LexSpec(text) ==
      Success([IdentifierToken("answer"), Plain(Assignment), NumberToken(42), Plain(Semicolon)])
  {
    var rest := Success([Plain(Assignment), NumberToken(42), Plain(Semicolon)]);
    assert LexSpec(text) == Prepend(IdentifierToken("answer"), rest) by {
      assert text == "answer" + " " + ":= 42;";
      assert IsWord("answer") && !IsKeyword("answer");
      LexSpelledWord("answer", ":= 42;");
      LexAnswerTail(":= 42;");
    }
    assert [IdentifierToken("answer")] + [Plain(Assignment), NumberToken(42), Plain(Semicolon)] ==
      [IdentifierToken("answer"), Plain(Assignment), NumberToken(42), Plain(Semicolon)];
  }
}
