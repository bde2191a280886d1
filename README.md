# A tiny language, from text to output

This project models the pipeline of a tiny imperative language written in
TypeScript. The language has assignments, `if`, `loop`/`break`, functions with
`return`, calls, and the operators `==`, `+` and `-`. The pipeline has four stages:

- **lexer** (`lexer.ts`): turns the program text into tokens.
- **parser** (`Parser.ts`): a recursive-descent parser with a cursor over the tokens. It builds an unannotated syntax tree.
- **checker** (`checker.ts`): walks the tree with a mutable scope state. It annotates every variable as local or global and every call as builtin or user-defined, and rejects ill-scoped programs.
- **interpreter** (`interpreter.ts`): walks the annotated tree with a mutable run-time state. It returns the text printed by the builtin `print`.

Each stage is written the way its source is written.

- `lexer.ts` is a scanning loop. `Lexer.Lex` is a method with that loop. It is proved equal to `Lexer.LexSpec`, a function that reads one token at a time.
- `Parser.ts` is a class whose methods advance a cursor. `Parser.Parser` is a Dafny class with the same methods and a mutable `i`.
  - Each method is proved to agree with a function of `ParserSpec`.
  - Each such function takes the start position and returns the node and the next position.
- `checker.ts` and `interpreter.ts` mutate a state record. `Checker.Checker` and `Interpreter.Interpreter` are classes holding that record's fields.
  - Their methods are proved to agree with the functions of `CheckerSpec` and `Semantics`.
  - The spread copies the source makes for a nested block, `{ ...state, inLoop: true }` and `{ ...state, locals }`, share every other field. The classes therefore change that one field for the block and restore it afterwards.
- The properties are lemmas about the specification functions:
  - the lexer and parser round trips;
  - that the checker annotates without changing the program;
  - that the checker's scope only grows and stays consistent;
  - fuel monotonicity of the interpreter;
  - that the output is a sequence of printed lines;
  - that a checked program with definitions only at the top level fails at run time only by running out of fuel or reading a variable never assigned.

Values in the interpreter are unbounded integers. A `fuel` count bounds loop passes and calls. Break and Return, which the source throws as exceptions, are modelled as a `Flow` result.

Files:

| file | contents |
|---|---|
| `wrappers.dfy` | `Option`, `Result`, `Outcome` |
| `ast.dfy` | the syntax tree of `common.ts`, with erasure of annotations and shape predicates |
| `tokens.dfy` | the `Token` record of `common.ts` |
| `numerals.dfy` | decimal text of naturals and integers (`Number(...)`, `toString()`) |
| `lexer.dfy` | `lexer.ts` |
| `parser_spec.dfy`, `parser.dfy` | `Parser.ts`: specification functions and the class |
| `parser_properties.dfy`, `parser_shape.dfy`, `parser_examples.dfy` | printer and round trip, shape of parsed trees, and the test cases |
| `checker_spec.dfy`, `checker.dfy` | `checker.ts`: specification functions and the class |
| `checker_properties.dfy`, `checker_examples.dfy` | annotation, scope growth and consistency, and the test cases |
| `semantics.dfy`, `interpreter.dfy` | `interpreter.ts`: specification functions and the class |
| `interpreter_properties.dfy`, `interpreter_examples.dfy` | fuel, sequencing, output shape, and the test cases |
| `checked_runs.dfy` | from the checker to the interpreter: the faults a checked program can still meet |

Where the documented behaviour of the language and the code disagree, the model follows the code:

- The lexer's keywords are only `loop`, `if` and `break` (`lexer.ts:21`). It has no token for `+` or `-`.
  - `return`, `function`, `+` and `-` are lexed as identifiers, or rejected as unexpected characters.
  - The parser handles `return`, `function`, `add` and `subtract` tokens anyway. The parser model works on any token list, so those branches are modelled too.
- A function body is checked with `{ ...state, locals }` (`checker.ts:71`), so it inherits the caller's `inLoop` flag. A `break` directly in the body of a function defined inside a loop therefore passes the checker, and a call of that function lets the Break escape the program (`CheckedRuns.NestedDefinitionChecks`, `CheckedRuns.NestedDefinitionEscapes`). The parser accepts definitions only at the top level (`ParserShape.ParsedShape`). For such programs, `CheckedRuns.CheckedProgramRuns` proves that a checked program never lets a Break or Return escape.
- The documentation calls the interpreter's failures internal faults. The model names each one with a `Fault` variant.

## Model

| member | source | states |
|---|---|---|
| Numerals.DecimalRoundTrip | lexer.ts:31 | the digits of a natural number, read back as a number literal, give that number |
| Numerals.IntToStringRoundTrip | interpreter.ts:81 | the decimal text `toString()` gives for an integer (a `-` sign, then digits) reads back as that integer |
| Numerals.IntToStringInjective | interpreter.ts:81 | different integers print differently |
| Numerals.NatToDecimal | lexer.ts:26-31 | the spelling of a number is a non-empty run of digits, one digit exactly below ten |
| Lexer.WordLength | lexer.ts:15-20 | the longest run of lower-case letters at the start: all letters, stopped by the end or a non-letter |
| Lexer.DigitsLength | lexer.ts:26-30 | the longest run of digits at the start: all digits, stopped by the end or a non-digit |
| Lexer.Scan | lexer.ts:13-58 | each step that does not stop consumes at least one character and no more than are left |
| Lexer.LexSpecLength | lexer.ts:8-62 | a successful lex has no more tokens than the text has characters |
| Lexer.WordEnd | lexer.ts:16-19 | the inner word loop stops at the first position after the start that holds no lower-case letter, and everything it passed is a letter |
| Lexer.DigitsEnd | lexer.ts:27-30 | the inner number loop stops at the end or at the first non-digit after the start, and everything it passed is a digit |
| Lexer.ScanAt | lexer.ts:13-58 | one pass of the if-chain returns exactly the scanner step of the specification at the current position; a step that goes on consumes between one character and the rest of the text |
| Lexer.Advance | lexer.ts:12-58 | one pass of the loop keeps the loop invariant: the tokens so far, followed by the tokens of the rest, are the tokens of the whole text; a stop is exactly the failure of the specification |
| Lexer.Lex | lexer.ts:8-62 | the scanning loop returns exactly the tokens, or the first unexpected character, of the specification |
| Lexer.LeadingBlanks | lexer.ts:13-14 | spaces, tabs and newlines before a text add no tokens |
| Lexer.LexSpelledToken | lexer.ts:15-55 | every token the lexer can produce, spelled and followed by a blank, is read back as that one token |
| Lexer.LexRender | lexer.ts:8-62 | round trip: lexing the rendering of any list of producible tokens gives that list back |
| Lexer.LexSpecLexable | lexer.ts:8-62 | every token of a successful lex is one the lexer can produce, spelled back by the token printer |
| Lexer.Relex | lexer.ts:8-62 | rendering the tokens of any successful lex and lexing that text again gives the same tokens |
| Lexer.LexStray | lexer.ts:56-58 | after any well-formed prefix, a character that starts no token is reported as unexpected |
| Lexer.WordEndAsWritten | lexer.ts:17-19 | the word loop as written stops only on a non-letter inside the text |
| Lexer.WordAtEndNeverStops | lexer.ts:17-19 | as written, a word that runs to the end of the text never ends, whatever the bound on passes |
| Lexer.LexTrailingWord | lexer.ts:15-25 | as intended, a word at the very end of the text is one keyword or identifier token |
| Lexer.LexAnswer | testLexer.ts:11-19 | `answer := 42;` gives an identifier, `:=`, the number 42 and `;` |
| ParserSpec.MatchAt | Parser.ts:12-16 | a match succeeds only on a token of the asked type, with the asked next token when one is named |
| ParserSpec.ExpectAt | Parser.ts:18-24 | an expectation met moves past one token, or two when a next type is named, and stays within the tokens |
| ParserSpec.StatementsAt | Parser.ts:42-87 | a statement list ends within the tokens, and at the top level only at the end of the tokens |
| ParserSpec.StatementAt | Parser.ts:44-81 | each statement consumes at least one token; a closing brace ends only a nested list |
| ParserSpec.FunctionDefinitionAt | Parser.ts:89-118 | a definition consumes tokens and yields a function-definition node |
| ParserSpec.FormalsAt | Parser.ts:98-114 | the formal list consumes tokens through its closing parenthesis |
| ParserSpec.FormalListAt | Parser.ts:98-114 | the parameters after `(`: an immediate `)` gives none, otherwise the formal list; either way the cursor ends past the `)` and within the tokens |
| ParserSpec.ExpressionAt | Parser.ts:120-130 | an expression consumes at least one token and stays within the tokens |
| ParserSpec.SubExpressionAt | Parser.ts:132-165 | an operand consumes at least one token and stays within the tokens |
| ParserSpec.ActualsAt | Parser.ts:143-152 | the actual list consumes tokens through its closing parenthesis |
| ParserSpec.ActualListAt | Parser.ts:141-152 | the arguments after `(`: an immediate `)` gives none, otherwise the actual list; either way the cursor ends past the `)` and within the tokens |
| Parser.Parser.constructor | Parser.ts:4-6 | the parser starts at the first token |
| Parser.Parser.Parse | Parser.ts:8-10 | parse() returns the top-level statement list as a program, or the parse error |
| Parser.Parser.Match | Parser.ts:12-16 | match() is the specification's match at the cursor, and the cursor does not move |
| Parser.Parser.Expect | Parser.ts:18-24 | expect() moves the cursor as the specification says, or fails with its error |
| Parser.Parser.CurrentValueAsString | Parser.ts:26-32 | the current token's text value, or an internal error |
| Parser.Parser.CurrentValueAsNumber | Parser.ts:34-40 | the current token's number value, or an internal error |
| Parser.Parser.Statements | Parser.ts:42-87 | the loop returns the specification's statement list and leaves the cursor after it |
| Parser.Parser.NextStatement | Parser.ts:44-81 | one pass of that loop is the specification's statement step |
| Parser.Parser.AssignmentStatement | Parser.ts:45-50 | at `name :=`, the assignment and the cursor after its `;` are those of the specification's statement step |
| Parser.Parser.IfStatement | Parser.ts:51-58 | at `if`, the condition, the block and the cursor after it are those of the specification's statement step |
| Parser.Parser.LoopStatement | Parser.ts:59-63 | at `loop`, the block and the cursor after it are those of the specification's statement step |
| Parser.Parser.ReturnStatement | Parser.ts:68-72 | at `return`, the expression and the cursor after its `;` are those of the specification's statement step |
| Parser.Parser.BareExpressionStatement | Parser.ts:78-81 | when no other branch applies, the expression statement and the cursor after its `;` are those of the specification's statement step |
| Parser.Parser.FunctionDefinition | Parser.ts:89-118 | the definition and the cursor after it are those of the specification |
| Parser.Parser.FormalList | Parser.ts:98-114 | the parameter list and the cursor past its `)` are the specification's |
| Parser.Parser.Formals | Parser.ts:98-114 | the formal-argument loop gives the specification's formals and cursor |
| Parser.Parser.Expression | Parser.ts:120-130 | the expression and the cursor after it are those of the specification |
| Parser.Parser.SubExpression | Parser.ts:132-165 | the operand and the cursor after it are those of the specification |
| Parser.Parser.CallExpression | Parser.ts:138-153 | at `name(`, the call with its actuals and the cursor past its `)` are those of the specification's operand |
| Parser.Parser.ActualList | Parser.ts:141-152 | the argument list and the cursor past its `)` are the specification's |
| Parser.Parser.Actuals | Parser.ts:143-152 | the actual-argument loop gives the specification's actuals and cursor |
| Parser.ParseTokens | Parser.ts:8-10 | `new Parser(tokens).parse()` computes exactly the specification's program |
| ParserProperties.ParsePrinted | Parser.ts:42-165 | round trip: every unannotated program with definitions only at the top level is parsed back from its printed tokens |
| ParserShape.ExpressionBare | Parser.ts:120-130 | parsed expressions carry no annotations |
| ParserShape.StatementsShape | Parser.ts:42-87 | parsed statement lists carry no annotations, and definitions occur only where `toplevel` is set |
| ParserShape.ParsedShape | Parser.ts:73-74 | a parsed program carries no annotations and defines functions only at the top level |
| ParserExamples.ParseNothing | testParser.ts:7-10 | no tokens give the empty program |
| ParserExamples.ParseRightAssociative | Parser.ts:120-130 | `1 - 2 + 3;` parses as `1 - (2 + 3)`: no precedence, right associative |
| ParserExamples.ParseParenthesised | Parser.ts:133-137 | `(1 - 2) + 3;` keeps the parenthesised operation as the left operand |
| ParserExamples.ParseCalls | Parser.ts:138-153 | calls with a list of actuals and with none |
| ParserExamples.ParseMissingSemicolon | Parser.ts:13-15 | reading past the last token is an error |
| ParserExamples.ParseUnclosedBlock | Parser.ts:83-85 | a block still open at the end of the tokens is an error |
| ParserExamples.ParseNestedDefinition | Parser.ts:73-81 | inside a block, `function` does not start a definition, so the parse fails |
| CheckerSpec.InitialScope | checker.ts:16-21 | checking starts outside any loop and function, with no globals and only `print` known |
| CheckerSpec.ResolveRead | checker.ts:111-121 | an identifier is local exactly when it is a current local, and global exactly when it is a global and not a local |
| CheckerSpec.DeclareTarget | checker.ts:29-41 | an assignment target fails exactly when it names a function and no variable, and otherwise reads back at the location it was given |
| Checker.Checker.constructor | checker.ts:16-21 | the object starts in the initial scope |
| Checker.Checker.CheckExpression | checker.ts:80-127 | checkExpression annotates exactly as the specification and changes no state |
| Checker.Checker.CheckStatements | checker.ts:25-78 | the loop annotates as the specification and leaves the scope the specification computes |
| Checker.Checker.CheckStatement | checker.ts:27-76 | one statement is annotated and the scope updated as the specification says, with inLoop and locals restored after a nested block |
| Checker.Check | checker.ts:15-23 | checker() computes exactly the specification's checked program |
| CheckerProperties.CheckExpressionAnnotates | checker.ts:80-127 | a checked expression is the input with annotations added, and every identifier and call in it is annotated |
| CheckerProperties.CheckStatementsAnnotate | checker.ts:25-78 | a checked statement list is the input with annotations added, and fully annotated |
| CheckerProperties.CheckProgramAnnotates | checker.ts:15-23 | a checked program erases to the input program and is fully annotated |
| CheckerProperties.CheckStatementsExtend | checker.ts:25-78 | checking only adds variables and functions to the scope, never changes a function's arity or inLoop, and inside a function adds no globals |
| CheckerProperties.CheckStatementsKeepConsistent | checker.ts:62-70 | `print` stays the only builtin, user functions have non-negative arity, and no global shares a function's name |
| CheckerProperties.CallKind | checker.ts:101-106 | in a consistent scope a call is annotated builtin exactly when it calls `print`, which then has one actual |
| CheckerExamples.BreakOnlyInLoop | testChecker.ts:9-18 | `break` is accepted in a loop and rejected after it |
| CheckerExamples.ReturnOutsideFunction | testChecker.ts:26-29 | `return` outside a function is rejected |
| CheckerExamples.DuplicateDefinitions | testChecker.ts:33-36 | a second definition of a name, or a definition of `print`, is rejected |
| CheckerExamples.DefinitionAfterAssignment | testChecker.ts:131-134 | a definition of a name already used as a variable is rejected |
| CheckerExamples.SelfAssignment | checker.ts:28-42 | the target is declared before the right-hand side is checked, so `x := x;` is accepted |
| CheckerExamples.LocalsDoNotEscape | testChecker.ts:65-68 | a function's locals are not visible after it |
| CheckerExamples.NoBlockScope | testChecker.ts:84-87 | a variable assigned in an `if` block is visible after the block |
| CheckerExamples.VariablesAndFunctions | testChecker.ts:96-109 | a variable cannot be called and a function cannot be assigned |
| CheckerExamples.BuiltinPrint | testChecker.ts:153-166 | `print(1)` resolves to the builtin; a wrong number of actuals and an unknown function are rejected |
| CheckerExamples.Recursion | checker.ts:70-72 | a function is registered before its body is checked, so it may call itself |
| Semantics.EmptyEnv | interpreter.ts:17-21 | the run starts with no output, no functions and no variables |
| Semantics.Line | interpreter.ts:81 | a printed line is the value's decimal text followed by a newline |
| Semantics.Apply | interpreter.ts:73-78 | `==` gives 1 exactly on equal operands and 0 otherwise; `+` and `-` are sum and difference |
| Semantics.ReadVariable | interpreter.ts:102-107 | a read succeeds exactly when the name is set in the map its annotation selects |
| Semantics.WriteVariable | interpreter.ts:30-34 | after a store the name reads back as the value, every other name reads as before, and output and functions are untouched |
| Semantics.EvalExpression | interpreter.ts:71-113 | evaluation only appends to the output and adds functions and globals, and a call gives the caller back its own locals |
| Semantics.BindActuals | interpreter.ts:84-90 | binding evaluates actuals in the caller's state and, unless a Break escapes, binds every formal |
| Semantics.ExecStatement | interpreter.ts:27-63 | a statement only appends output and adds functions and globals |
| Semantics.ExecStatements | interpreter.ts:26-65 | a statement list only appends output and adds functions and globals |
| Semantics.ExecLoop | interpreter.ts:41-53 | a loop never ends with a Break: the Break is caught and the loop ends normally |
| Interpreter.Interpreter.constructor | interpreter.ts:17-21 | the object starts in the empty state |
| Interpreter.Interpreter.InterpretExpression | interpreter.ts:71-113 | interpretExpression gives the specification's value and leaves the state the specification computes |
| Interpreter.Interpreter.Print | interpreter.ts:80-82 | the builtin `print` gives the specification's value 0 and appends the specification's line, or stops as it does |
| Interpreter.Interpreter.Call | interpreter.ts:83-101 | a user call gives the specification's value and state, with the caller's locals restored |
| Interpreter.Interpreter.Bind | interpreter.ts:84-90 | the loop over the formals binds exactly the frame of the specification, in the state it leaves |
| Interpreter.Interpreter.InterpretStatements | interpreter.ts:26-65 | the statement loop gives the specification's flow and state, stopping at the first Break or Return |
| Interpreter.Interpreter.InterpretStatement | interpreter.ts:27-63 | one statement, the `while (true)` of a loop included, runs as the specification says |
| Interpreter.Run | interpreter.ts:16-24 | interpreter() returns exactly the specification's output, or its fault |
| Interpreter.EvaluateExpression | interpreter.ts:67-69 | evaluateExpression() returns exactly the specification's value in a fresh state |
| InterpreterProperties.EvalMoreFuel | interpreter.ts:71-113 | an evaluation that did not run out of fuel gives the same result with any larger fuel |
| InterpreterProperties.CallMoreFuel | interpreter.ts:83-101 | a user call that did not run out of fuel gives the same result with any larger fuel |
| InterpreterProperties.ExecStatementsMoreFuel | interpreter.ts:26-65 | a statement list that did not run out of fuel gives the same result with any larger fuel |
| InterpreterProperties.ExecLoopMoreFuel | interpreter.ts:41-53 | a loop that ended within its fuel ends the same way with more |
| InterpreterProperties.InterpretMoreFuel | interpreter.ts:16-24 | a program's output, once reached, is the same for every larger fuel |
| InterpreterProperties.ExecStatementsAppend | interpreter.ts:26-65 | running `ss1 + ss2` runs `ss1`, then `ss2` only if `ss1` ended normally |
| InterpreterProperties.EvalPrintsLines | interpreter.ts:81 | evaluation appends only printed lines to an output made of printed lines |
| InterpreterProperties.ExecStatementsPrintLines | interpreter.ts:26-65 | running statements appends only printed lines |
| InterpreterProperties.InterpretPrintsLines | interpreter.ts:23 | a program's output is the concatenation of lines, each an integer's decimal text and a newline |
| InterpreterExamples.EvaluateArithmetic | testInterpreter.ts:47-53 | `11 - (12 + 13)` is -14, `20 + 21 - (22 + 23 - 24)` is 20, `31 == 32 - 1` is 1, `(33 == 34) - 1` is -1 |
| InterpreterExamples.EvaluatePrint | testInterpreter.ts:63 | `print(1337)` is worth 0 |
| InterpreterExamples.InterpretNothing | testInterpreter.ts:56-58 | the empty program prints nothing |
| InterpreterExamples.PrintPrint | testInterpreter.ts:66 | `print(print(1));` prints `1` then `0` |
| InterpreterExamples.Globals | testInterpreter.ts:74 | `a := 19; a := a + a; print(a);` prints 38 |
| InterpreterExamples.IfZero | interpreter.ts:36-40 | a zero condition skips the block |
| InterpreterExamples.LoopBreak | interpreter.ts:41-53 | a Break ends the loop and the program goes on |
| InterpreterExamples.ReturnFromLoop | interpreter.ts:91-99 | a Return leaves the loop and the call with its value |
| InterpreterExamples.BreakEscapes | interpreter.ts:54-55 | a `break` outside any loop escapes the whole program |
| CheckedRuns.CheckExpressionSafe | checker.ts:80-127 | a checked expression reads locals only inside a function body, calls `print` with an actual and other functions with as many actuals as their formals, as registered before it |
| CheckedRuns.CheckStatementSafe | checker.ts:25-78 | a checked statement puts `break` only inside a loop and `return` only inside a function body; its scope afterwards knows exactly the functions it defines |
| CheckedRuns.CheckStatementsSafe | checker.ts:25-78 | a checked statement list is Safe in order, each statement with the functions the ones before it defined |
| CheckedRuns.CheckProgramSafe | checker.ts:15-23 | a program with definitions only at the top level that the checker accepts is Safe |
| CheckedRuns.EvalSafe | interpreter.ts:71-113 | a Safe expression evaluates to a value or fails only by fuel or an unassigned variable; no Break leaves it and the registered functions are unchanged |
| CheckedRuns.UserCallSafe | interpreter.ts:83-101 | a call of a registered function binds every formal, and its Safe body lets no Break out, so the call is worth a value |
| CheckedRuns.ExecStatementSafe | interpreter.ts:26-65 | a Safe statement ends with a Break only in a loop and a Return only in a function, and keeps every registered body Safe |
| CheckedRuns.ExecStatementsSafe | interpreter.ts:26-65 | a Safe statement list ends with a Break only in a loop and a Return only in a function |
| CheckedRuns.ExecLoopSafe | interpreter.ts:41-53 | a loop over a Safe block never ends with a Break |
| CheckedRuns.InterpretSafe | interpreter.ts:16-24 | a Safe program fails only by running out of fuel or reading a variable never assigned |
| CheckedRuns.CheckedProgramRuns | checker.ts:15-23 | checking then running a program with definitions only at the top level never meets an escaping Break or Return, a local outside a call, an unknown function or a missing actual |
| CheckedRuns.ParsedProgramRuns | Parser.ts:8-10 | the same for every parsed program that the checker accepts |
| CheckedRuns.NestedDefinitionChecks | checker.ts:71 | `loop { function f() { break; } break; } f();` passes the checker, because the body inherits `inLoop` |
| CheckedRuns.NestedDefinitionEscapes | interpreter.ts:54-55 | running that checked tree lets the Break in `f` escape the program |

## Left out

- JavaScript numbers are IEEE doubles. The model uses unbounded integers: number literals are `Number(digits)` without rounding, and `+`, `-` and `toString()` are exact.
- Semantics.EvalExpression: reading a variable that was never assigned gives `undefined` in the source. The run goes on with `NaN` arithmetic, printed as `NaN`; printing the `undefined` value itself throws a TypeError (`interpreter.ts:81`). The model stops with the fault `Unassigned` instead.
- Semantics.EvalExpression: a call with fewer actuals than formals, `print()`, or a call of an unregistered function throws a TypeError in the source. The model stops with the faults `MissingActual` and `UnknownFunction`.
- Semantics.ExecStatement: a local assignment outside any call is a TypeError in the source, thrown only after the right-hand side has run. The model reports `NoLocals` before evaluating the right-hand side, so any output of that right-hand side is not modelled.
- Semantics.ExecLoop: the source loops without bound. A `fuel` count bounds loop passes and calls, and running out is the fault `OutOfFuel`. The fuel lemmas show the result does not depend on the fuel once it suffices. Non-termination itself is not modelled.
- The Break and Return exceptions are modelled as a `Flow` result and an expression's `Broke` result. Other JavaScript exceptions are faults.
- The objects the source uses as maps (`{}`) also answer for inherited keys such as `constructor`. The model's maps hold only what was stored.
- Error messages are reduced to error kinds with the offending name. Their text is not modelled.
- Checker.Checker.CheckStatements: on an error, the checker object's state is left unspecified. The source also leaves a half-updated state, which no caller reuses.
- Checker.Checker.CheckStatement: the source annotates the tree in place. The model returns an annotated copy, so the partial annotations left behind by a failed check are not modelled.
- Parser.Parser.Statements: reading a token past the end of the list is a TypeError in the source. The model reports it as the parse error `UnexpectedEnd`.
- Lexer.Lex: the source never finishes on a text ending in a lower-case letter (see Findings). The method requires that the text does not end so. The specification `LexSpec` gives the intended result for every text.
- `never()` in `common.ts:8-10` is not modelled: Dafny's `match` is exhaustive.
- index.ts, debug.ts and the test harness are not part of this model. The test files appear only through the examples cited above.
- Some tests expect a lexer with more keywords and with `+` and `-` tokens. This `lexer.ts` does not have them, so only tests that this lexer can serve are stated over its output. The other tests are stated over token lists or syntax trees.

## Findings

| source | as written | input that shows it | evidently intended | confidence | as-written member | corrected member |
|---|---|---|---|---|---|---|
| lexer.ts:17-19 | the word loop tests `/[a-z]/.test(text[i])`; past the end `text[i]` is `undefined`, whose text `"undefined"` matches, so the loop never stops | `answer` (any text ending in a lower-case letter) | the word ends at the end of the text and is emitted as one token | not executed | Lexer.WordAtEndNeverStops | Lexer.LexTrailingWord |
