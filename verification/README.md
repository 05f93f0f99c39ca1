# Monkey lexer and parser, modelled in Dafny

This project models the front end of a Rust interpreter for the Monkey
language: the lexer of `src/lexer.rs`, the Pratt-style parser of
`src/parser.rs`, and `Program::token_literal` of `src/ast.rs`.

**The lexer.** It is a byte cursor over the source text (`Lexing.Lexer`). The
cursor holds:
- the input;
- `position`;
- `read_position`;
- the current byte `ch`, which is 0 past the end.

Every Rust method that moves the cursor is a pure function from one cursor
state to the next. They are threaded through `next_token`: skip whitespace,
then classify one token.

Next to the code sits a declarative statement of the lexical rule:
- `Lexing.LexesAt` gives the token that begins at an index, and where the next
  scan begins;
- `Lexing.Tokenizes` applies that rule token after token.

The model proves that `next_token` follows the rule, and that the rule fixes
the token stream uniquely.

**The parser.** Its state is:
- the lexer;
- the window `current_token` / `peek_token`;
- a list of errors that only grows.

Errors are a small datatype (`PeekError`, `NoPrefix`, `IntParse`) instead of
formatted strings. A parsing step returns an `Outcome`, which is either
`Ok(state, value)` or one of the two ways the Rust code never returns:
- `Panicked`: the `unwrap` in `parse_prefix_expression` when the operand has
  no prefix function;
- `Diverged`: the skip-to-`;` loops of `let` and `return` when no `;` is left,
  since the lexer then yields Eof forever.

Both are reachable, and the model proves exactly when they happen.

**Reasoning over tokens.** `Parsing.TokenAt(p, i)` is the `i`th token the
parser will see: the window, then the lexer's remaining stream, then Eof
forever. `Parsing.Ahead(p, q, n)` says that `q` sees the stream of `p` moved
on by `n` tokens. Most parser properties are stated in these terms.

`ProgramProperties` lifts them to whole token sequences: which program, and
which errors, a parser produces from a given sequence of tokens.
`ParserExamples` then follows the source's own test inputs through the lexer and
the parser, from the bytes to the program.

The precedence constants of `src/parser.rs:11-17` are the constants `LOWEST`
to `CALL` of module `Parsing`. The parser never reads them, because no infix
operator is parsed, and `ParserProperties.ParseExpressionIgnoresPrecedence`
states that.

Behaviour of the code worth knowing, which the model keeps:
- **The Eof literal.** Its literal is the one byte 0 (`"\0"`, as the lexer
  test expects at `src/lexer.rs:247`).
- **Identifiers.** An identifier is a maximal run of letters and `_` only. A
  digit ends it, so `x1` is `Ident "x"` then `Int "1"`
  (`LexerExamples.LettersThenDigits`).
- **Parser failures.** The parser can panic (`-;`, see
  `ParserExamples.MinusWithoutOperandPanics`). It can also never end
  (`return 5` without `;`, see `ParserExamples.ReturnWithoutSemicolonDiverges`).
- **An embedded 0 byte** yields an Eof token in the middle of the input, and
  lexing goes on after it. The program loop stops at the first Eof it sees.

## Model

| member | source | states |
|---|---|---|
| Lexing.ReadChar | src/lexer.rs:33-41 | From any state, reading a byte re-establishes the cursor invariant: the read position is one past the position, and `ch` is the byte there, or 0 past the end. |
| Lexing.New | src/lexer.rs:22-31 | A new lexer satisfies the cursor invariant at position 0, with `ch` the first byte or 0 for empty input. |
| Lexing.PeekPredictsRead | src/lexer.rs:43-49 | Peeking returns the byte after the current one, 0 past the end, and exactly the byte the next `read_char` brings under the cursor. |
| Lexing.Run | src/lexer.rs:51-77 | The shared read-while loop stops after the maximal run of class bytes: every byte it passes is in the class, the byte it stops on is not, and it stays within the input. |
| Lexing.ReadIdentifier | src/lexer.rs:51-58 | The returned slice is the maximal run of letters from the start, and the cursor ends just past it. |
| Lexing.ReadNumber | src/lexer.rs:60-67 | The returned slice is the maximal run of digits from the start, and the cursor ends just past it. |
| Lexing.SkipEndsAt | src/lexer.rs:69-77 | Skipping whitespace stops exactly at the first byte that is not whitespace. |
| Lexing.Scan | src/lexer.rs:82-131 | Classifying one token from a non-whitespace byte follows the lexical rule and moves the cursor forward. The token is well formed: its literal agrees with its kind. |
| Lexing.NextToken | src/lexer.rs:79-132 | `next_token` skips exactly the maximal whitespace run and returns the token the lexical rule gives there. The cursor then sits where that token ends. The position strictly increases on every call, including at Eof. |
| Lexing.LexesAtUnique | src/lexer.rs:79-132 | The lexical rule is deterministic: the start index fixes the token and where it ends. |
| Lexing.NextTokenIs | src/lexer.rs:79-132 | Conversely, if only whitespace lies before `start` and the rule gives `tok` ending at `end`, then `next_token` returns `tok` with the cursor on `end`. |
| Lexing.Stream | src/lexer.rs:79-132 | The tokens still to come are all well formed, and there are no more of them than bytes left. |
| Lexing.StreamStep | src/lexer.rs:115-131 | One call takes the head of the remaining stream. Once the stream is exhausted, every later call returns Eof and the stream stays exhausted. |
| Lexing.StreamTokenizes | src/lexer.rs:79-132 | The lexer's stream is a tokenization of the rest of the input under the declarative rule. |
| Lexing.TokenizesUnique | src/lexer.rs:79-132 | Tokenizations are unique: the input fixes the tokens and their spans. |
| Lexing.TokenizesStream | src/lexer.rs:79-132 | Any tokenization of the rest of the input is the lexer's stream. |
| Tokens.LookupIdent | src/lexer.rs:117-119 | A run of letters maps to the keyword it spells, or to Ident when it spells none of `fn let true false if else return`. |
| Tokens.LookupSpelling | src/lexer.rs:117-119 | Every keyword's own spelling looks up to that keyword. |
| Tokens.Punctuator | src/lexer.rs:103-114 | Each of `; ( ) , + { } - / * < >` maps to the kind whose fixed spelling is that one byte. |
| Tokens.PunctuatorComplete | src/lexer.rs:103-114 | Every one-byte spelling other than `=` and `!` is mapped by the punctuator table. |
| LexerProperties.LexesEqualsSign | src/lexer.rs:83-92 | `=` followed by `=` is one Eq token `==` covering two bytes. Otherwise it is Assign `=`, covering one byte. |
| LexerProperties.LexesExclamation | src/lexer.rs:93-102 | `!` followed by `=` is one NotEq token `!=` covering two bytes. Otherwise it is Bang `!`, covering one byte. |
| LexerProperties.LexesPunctuator | src/lexer.rs:103-114 | A punctuator byte is a token of its own, whatever follows it. |
| LexerProperties.LexesKeyword | src/lexer.rs:117-119 | A maximal run of letters that spells a keyword is that keyword's token. |
| LexerProperties.LexesIdentifier | src/lexer.rs:117-119 | Any other maximal run of letters is an Ident token holding the run. |
| LexerProperties.LexesNumber | src/lexer.rs:120-122 | A maximal run of digits is one Int token holding the digits. |
| LexerProperties.TokenizesAppend | src/lexer.rs:69-80 | Lexing splits at whitespace: the tokens of `a + b`, where `a` ends in whitespace, are those of `a` and then those of `b`. |
| LexerExamples.LettersThenDigits | src/lexer.rs:51-58 | `x1` lexes as `Ident "x"` then `Int "1"`: an identifier stops at the first digit. |
| LexerExamples.AssignThenNotEq | src/lexer.rs:83-102 | `=!==` lexes as Assign, NotEq and Assign. |
| Ast.TokenLiteral | src/ast.rs:17-25 | A program's literal is the empty string when it has no statements, and otherwise its first statement's literal. It is total. |
| Ast.TokenLiteralAppend | src/ast.rs:18-20 | Statements appended to a non-empty program do not change its literal. |
| Decimal.ParseI64 | src/parser.rs:220-228 | Parsing as `i64` succeeds only for an optionally signed, non-empty run of digits, and only with a value inside the 64-bit signed range. |
| Decimal.ParseDigitRun | src/parser.rs:220-228 | On a pure run of digits, which is all an Int token holds, parsing fails exactly when the value exceeds the largest 64-bit value. Otherwise it gives the run's value. |
| Decimal.ParseFormatRoundTrip | src/parser.rs:524-539 | Parsing the decimal rendering of any 64-bit value gives the value back. |
| Parsing.New | src/parser.rs:35-46 | A new parser's window holds the lexer's first two tokens, the tokens after them are the rest of the lexer's stream, and there are no errors. |
| Parsing.Advance | src/parser.rs:66-69 | Advancing makes the peek token current and pulls exactly one new token, so the window slides one token along the stream. Errors are unchanged. Away from Eof, the termination measure drops. |
| Parsing.PeekErrorOf | src/parser.rs:55-62 | A peek error appends exactly one error naming the expected kind and the peek token's kind, and changes nothing else. |
| Parsing.ExpectPeek | src/parser.rs:98-107 | On a matching peek token it advances one token, adds no error and returns true. Otherwise it appends exactly one PeekError, leaves the window where it was and returns false. |
| Parsing.PrefixParseFn | src/parser.rs:183-191 | Exactly Ident, Int, `!` and `-` have a prefix function, and only `!` and `-` use the prefix-expression parser. |
| Parsing.ParseIdentifier | src/parser.rs:213-218 | An identifier expression carries the current token and its literal. |
| Parsing.ParseIntegerLiteral | src/parser.rs:220-231 | The node is built in every case. Its value is the digits' value when it fits in 64 bits. Otherwise the value is absent and exactly one IntParse error is appended. |
| Parsing.NoPrefixParseFnError | src/parser.rs:233-236 | Appends exactly one NoPrefix error for the kind, and changes nothing else. |
| Parsing.ParseExpression | src/parser.rs:201-211 | Never diverges. It yields nothing, with one NoPrefix error and no other change, exactly when the current kind has no prefix function. A built expression is well formed, begins with the current token, and leaves the parser on an identifier or integer token; `ParserProperties.ParseExpressionLands` pins which one. |
| Parsing.ParsePrefixExpression | src/parser.rs:238-247 | On success it yields a well-formed prefix node for the current `!`/`-` token and strictly lowers the termination measure. It never diverges. |
| Parsing.SkipToSemicolon | src/parser.rs:138-140 | When it ends, it ends on a `;` with the errors unchanged. It never panics. |
| Parsing.ParseLetStatement | src/parser.rs:120-145 | A kept let statement is named by the peek token, has no value, adds no error and ends on a `;`. A dropped one adds exactly one error. |
| Parsing.ParseReturnStatement | src/parser.rs:147-161 | When it ends, it yields `Return(token, None)` with the errors unchanged, and stands on a `;`. |
| Parsing.ParseExpressionStatement | src/parser.rs:163-177 | It always returns a statement, holding the expression result even when that is absent. It panics exactly when the expression panics, and never leaves a non-Eof start on Eof. |
| Parsing.ParseStatement | src/parser.rs:112-118 | A statement it returns is well formed and starts with the current token. It is a let statement exactly when the current token is `let`, a return statement exactly when it is `return`, and an expression statement otherwise. Errors only grow. |
| Parsing.ParseProgram | src/parser.rs:73-85 | When the loop ends, it stands on Eof with every kept statement well formed and the errors only grown. An Eof start gives the empty program. |
| ParserProperties.SkipToSemicolonDiverges | src/parser.rs:138-140 | The skip loop never ends exactly when no `;` lies ahead. |
| ParserProperties.SkipLands | src/parser.rs:138-140 | When the first `;` is `k` tokens ahead, the skip loop ends on it, `k` tokens further along the stream. |
| ParserProperties.ParseLetNoName | src/parser.rs:120-125 | `let` not followed by an identifier is dropped with `PeekError(Ident, kind)`, and the parser does not move. |
| ParserProperties.ParseLetNoAssign | src/parser.rs:127-134 | `let` and a name not followed by `=` is dropped with `PeekError(Assign, kind)`, and the parser stops on the name. |
| ParserProperties.ParseLetDiverges | src/parser.rs:136-140 | `let`, a name and `=` never end exactly when no `;` follows the `=`. |
| ParserProperties.ParseLetLands | src/parser.rs:120-145 | `let`, a name, `=` and a later `;` give a let statement named by the identifier, with no value and no error, that stops on the first such `;`. |
| ParserProperties.ParseReturnDiverges | src/parser.rs:147-156 | A return statement never ends exactly when no `;` follows the `return`. |
| ParserProperties.ParseReturnLands | src/parser.rs:147-161 | A return statement yields `Return(token, None)` with no error, and stops on the first `;` after `return`. |
| ParserProperties.ParseExpressionPanics | src/parser.rs:238-247 | After `k` prefix operators, the operand token decides the outcome. Without a prefix function the parse panics exactly when `k > 0`, and yields nothing exactly when `k == 0`. |
| ParserProperties.PrefixStep | src/parser.rs:238-247 | A prefix operator panics exactly when its operand panics or is absent, and otherwise always yields an expression. |
| ParserProperties.ParseExpressionLands | src/parser.rs:201-247 | With a prefix function for the operand, the expression parses and stops on the operand, `k` tokens on. The only error added is the operand's 64-bit overflow. |
| ParserProperties.ParseExpressionTokens | src/parser.rs:238-247 | The parsed expression is built from exactly the `k + 1` tokens of the operator run and its operand, in order. |
| ParserProperties.ParseExpressionIgnoresPrecedence | src/parser.rs:201-211 | The precedence argument has no effect on the result. |
| ParserProperties.ExpressionStatementSemicolon | src/parser.rs:163-177 | An expression statement steps onto a trailing `;` only when the token after the expression is one. |
| ParserProperties.ExpressionStatementNoPrefix | src/parser.rs:163-177 | Without a prefix function the statement is still kept, holding no expression, and exactly one NoPrefix error is added. |
| ParserProperties.StatementLiteral | src/parser.rs:312-316 | The literal of a parsed let or return statement is the keyword itself. |
| ParserProperties.ParseProgramSkipsFailures | src/parser.rs:76-82 | One loop round: a statement that yields nothing is dropped, and the loop goes on after it. |
| ParserProperties.ParseProgramKeepsOrder | src/parser.rs:76-82 | One loop round: a statement that parses comes first in the program, ahead of everything parsed after it. |
| ParserProperties.ParseProgramAborts | src/parser.rs:73-85 | One loop round: a statement that panics or never ends takes the whole parse with it, in the same way. |
| ParserProperties.ReturnDivergesProgram | src/parser.rs:147-161 | A `return` with no `;` anywhere after it makes the whole parse never end. |
| ParserProperties.StartsOn | src/parser.rs:35-46 | A parser started on a text sees exactly the text's tokens under the lexical rule, then Eof forever. |
| ProgramProperties.ParseExpressionValue | src/parser.rs:238-247 | The expression parsed from a run of prefix operators and its operand nests the operators around the operand, in source order. |
| ProgramProperties.ParsesLet | src/parser.rs:120-145 | `let`, a name, `=`, tokens without `;`, then `;`: one let statement for the name is put in front of what follows, and no error is added. |
| ProgramProperties.ParsesReturn | src/parser.rs:147-161 | `return`, tokens without `;`, then `;`: one return statement is put in front of what follows, and no error is added. |
| ProgramProperties.ParsesExpression | src/parser.rs:163-177 | Prefix operators, an identifier or integer, then `;`: an expression statement holding the nested expression, plus the overflow error when the integer does not fit. |
| ProgramProperties.ParsesLetWithoutName | src/parser.rs:120-125 | `let` without a name: no statement, and one peek error in front of the later errors. |
| ProgramProperties.ParsesLetWithoutAssign | src/parser.rs:127-134 | `let` and a name without `=`: no statement, and one peek error in front of the later errors. |
| ProgramProperties.ParsesWithoutPrefix | src/parser.rs:201-208 | A token without a prefix function, not followed by `;`: a statement without an expression, and one NoPrefix error. |
| ParserExamples.LetStatements | src/parser.rs:277-309 | The three-line let text parses to three let statements named `x`, `y` and `foobar`, with no errors. |
| ParserExamples.ReturnStatements | src/parser.rs:343-381 | The three-line return text parses to three return statements, with no errors. |
| ParserExamples.LetStatementErrors | src/parser.rs:272-276 | The broken let text gives the errors `PeekError(Assign, Int)`, `PeekError(Ident, Assign)`, `NoPrefix(Assign)` and `PeekError(Ident, Int)`, in that order. It yields four expression statements: 5, one without an expression for `=`, 10 and 838383. Every `let` is dropped. |
| ParserExamples.IdentifierExpression | src/parser.rs:402-435 | `foobar;` parses to one expression statement holding the identifier `foobar`. |
| ParserExamples.IntegerLiteralExpression | src/parser.rs:438-471 | `5;` parses to one expression statement holding the integer 5. |
| ParserExamples.BangPrefixExpression | src/parser.rs:489-521 | `!5;` parses to the operator `!` applied to the integer 5. |
| ParserExamples.MinusPrefixExpression | src/parser.rs:489-521 | `-15;` parses to the operator `-` applied to the integer 15. |
| ParserExamples.IntegerOverflow | src/parser.rs:220-231 | `9223372036854775808;` is kept as an integer literal without a value, with one IntParse error. |
| ParserExamples.MinusWithoutOperandPanics | src/parser.rs:244 | `-;` panics at the operand's unwrap. |
| ParserExamples.ReturnWithoutSemicolonDiverges | src/parser.rs:154-156 | `return 5` never ends: the skip loop finds no `;`. |

## Left out

- `src/repl.rs` is not part of this model. It is a read-print loop over standard input and output, with nothing to verify.
- `src/token.rs` is not part of this model. It declares string constants (`const EOF: &str` and the like) that `src/lexer.rs` does not use. The token kinds, `Token::new_from_byte`, `Token::new_from_str` and `Token::lookup_ident` are defined from their uses in `src/lexer.rs` (module `Tokens`).
- `src/ast.rs` declares `Program` over `Box<dyn Statement>` trait objects. The statement and expression shapes are taken from how `src/parser.rs` builds them, and only `Program::token_literal` is modelled from `src/ast.rs`.
- `infix_parse_fns` (`src/parser.rs:194-198`) always returns nothing and is never called. Precedence climbing is not implemented in the source, so it is not modelled.
- `Parser::errors` (`src/parser.rs:51-53`) only clones the error list; the model reads the `errors` field directly.
- The text of error messages (`format!`) is not modelled; errors are the structured datatype `ParseError`.
- Input is a sequence of bytes. UTF-8 handling of Rust strings is not modelled. All slicing happens at ASCII letter and digit runs.
- Positions are unbounded naturals, so `usize` overflow of `read_position` is not modelled.
- The Rust call stack is not modelled. A very long run of prefix operators parses here, where the recursive Rust parser could overflow its stack.
- The lexer test's full text (`src/lexer.rs:150-276`) is not worked through token by token. Every token class in it is covered by the `LexerProperties.Lexes*` lemmas. Whole-text lexing is shown on the lines of the parser tests and on `LexerExamples`.
