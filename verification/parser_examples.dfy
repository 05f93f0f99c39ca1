/**
 Whole texts run through the lexer and the parser. For each text the parse
 is first stated at the level of tokens: the ProgramProperties lemmas put
 the statements in front of one another, from the last one back. The tokens
 of the text come from the lexer's declarative rule (LineTokens), and
 StartsOn makes them what a freshly started parser sees. Texts are byte
 lists; the comment above each lemma shows the text, with line feeds
 written \n.
 */
module ParserExamples {
  import opened Optional
  import opened Tokens
  import opened Decimal
  import Lexing
  import LexerProperties
  import opened LineTokens
  import opened Ast
  import opened Parsing
  import opened ParserProperties
  import opened ProgramProperties

  // "5"
  lemma IntValue5(s: seq<Byte>)
    requires s == [53]
    ensures ParseI64(s) == Some(5)
  {
    assert s[..0] == [];
    DigitsValuePrefix(s, 1);
    assert s[..1] == s;
    ParseDigitRun(s);
  }

  // "10"
  lemma IntValue10(s: seq<Byte>)
    requires s == [49, 48]
    ensures ParseI64(s) == Some(10)
  {
    assert s[..0] == [];
    DigitsValuePrefix(s, 1);
    DigitsValuePrefix(s, 2);
    assert s[..2] == s;
    ParseDigitRun(s);
  }

  // "15"
  lemma IntValue15(s: seq<Byte>)
    requires s == [49, 53]
    ensures ParseI64(s) == Some(15)
  {
    assert s[..0] == [];
    DigitsValuePrefix(s, 1);
    DigitsValuePrefix(s, 2);
    assert s[..2] == s;
    ParseDigitRun(s);
  }

  lemma IntValue838383UpTo4(s: seq<Byte>)
    requires s == [56, 51, 56, 51, 56, 51]
    ensures DigitsValue(s[..4]) == 8383
  {
    assert s[..0] == [];
    DigitsValuePrefix(s, 1);
    DigitsValuePrefix(s, 2);
    DigitsValuePrefix(s, 3);
    DigitsValuePrefix(s, 4);
  }

  // "838383"
  lemma IntValue838383(s: seq<Byte>)
    requires s == [56, 51, 56, 51, 56, 51]
    ensures ParseI64(s) == Some(838383)
  {
    IntValue838383UpTo4(s);
    DigitsValuePrefix(s, 5);
    DigitsValuePrefix(s, 6);
    assert s[..6] == s;
    ParseDigitRun(s);
  }

  lemma IntValueTooBigUpTo4(s: seq<Byte>)
    requires s == [57, 50, 50, 51, 51, 55, 50, 48, 51, 54, 56, 53, 52, 55, 55, 53, 56, 48, 56]
    ensures DigitsValue(s[..4]) == 9223
  {
    assert s[..0] == [];
    DigitsValuePrefix(s, 1);
    DigitsValuePrefix(s, 2);
    DigitsValuePrefix(s, 3);
    DigitsValuePrefix(s, 4);
  }

  lemma IntValueTooBigUpTo8(s: seq<Byte>)
    requires s == [57, 50, 50, 51, 51, 55, 50, 48, 51, 54, 56, 53, 52, 55, 55, 53, 56, 48, 56]
    ensures DigitsValue(s[..8]) == 92233720
  {
    IntValueTooBigUpTo4(s);
    DigitsValuePrefix(s, 5);
    DigitsValuePrefix(s, 6);
    DigitsValuePrefix(s, 7);
    DigitsValuePrefix(s, 8);
  }

  lemma IntValueTooBigUpTo12(s: seq<Byte>)
    requires s == [57, 50, 50, 51, 51, 55, 50, 48, 51, 54, 56, 53, 52, 55, 55, 53, 56, 48, 56]
    ensures DigitsValue(s[..12]) == 922337203685
  {
    IntValueTooBigUpTo8(s);
    DigitsValuePrefix(s, 9);
    DigitsValuePrefix(s, 10);
    DigitsValuePrefix(s, 11);
    DigitsValuePrefix(s, 12);
  }

  lemma IntValueTooBigUpTo16(s: seq<Byte>)
    requires s == [57, 50, 50, 51, 51, 55, 50, 48, 51, 54, 56, 53, 52, 55, 55, 53, 56, 48, 56]
    ensures DigitsValue(s[..16]) == 9223372036854775
  {
    IntValueTooBigUpTo12(s);
    DigitsValuePrefix(s, 13);
    DigitsValuePrefix(s, 14);
    DigitsValuePrefix(s, 15);
    DigitsValuePrefix(s, 16);
  }

  // "9223372036854775808"
  lemma IntValueTooBig(s: seq<Byte>)
    requires s == [57, 50, 50, 51, 51, 55, 50, 48, 51, 54, 56, 53, 52, 55, 55, 53, 56, 48, 56]
    ensures ParseI64(s) == None
  {
    IntValueTooBigUpTo16(s);
    DigitsValuePrefix(s, 17);
    DigitsValuePrefix(s, 18);
    DigitsValuePrefix(s, 19);
    assert s[..19] == s;
    ParseDigitRun(s);
  }

  // line 1, "\nlet x = 5;\n"
  lemma LetStatementsLine1(rest: seq<Token>, prog: Program, errs: seq<ParseError>)
    requires ParsesTokens(rest, prog, errs)
    ensures ParsesTokens([Token(Let, [108, 101, 116]), Token(Ident, [120]), Token(Assign, [61]), Token(Int, [53]), Token(Semicolon, [59])] + rest,
      [LetNamed(Token(Let, [108, 101, 116]), Token(Ident, [120]))] + prog,
      errs)
  {
    ParsesLet([Token(Let, [108, 101, 116]), Token(Ident, [120]), Token(Assign, [61]), Token(Int, [53]), Token(Semicolon, [59])], rest, prog, errs);
  }

  // line 2, "let y = 10;\n"
  lemma LetStatementsLine2(rest: seq<Token>, prog: Program, errs: seq<ParseError>)
    requires ParsesTokens(rest, prog, errs)
    ensures ParsesTokens([Token(Let, [108, 101, 116]), Token(Ident, [121]), Token(Assign, [61]), Token(Int, [49, 48]), Token(Semicolon, [59])] + rest,
      [LetNamed(Token(Let, [108, 101, 116]), Token(Ident, [121]))] + prog,
      errs)
  {
    ParsesLet([Token(Let, [108, 101, 116]), Token(Ident, [121]), Token(Assign, [61]), Token(Int, [49, 48]), Token(Semicolon, [59])], rest, prog, errs);
  }

  // line 3, "let foobar = 838383;\n"
  lemma LetStatementsLine3(rest: seq<Token>, prog: Program, errs: seq<ParseError>)
    requires ParsesTokens(rest, prog, errs)
    ensures ParsesTokens([Token(Let, [108, 101, 116]), Token(Ident, [102, 111, 111, 98, 97, 114]), Token(Assign, [61]), Token(Int, [56, 51, 56, 51, 56, 51]), Token(Semicolon, [59])] + rest,
      [LetNamed(Token(Let, [108, 101, 116]), Token(Ident, [102, 111, 111, 98, 97, 114]))] + prog,
      errs)
  {
    ParsesLet([Token(Let, [108, 101, 116]), Token(Ident, [102, 111, 111, 98, 97, 114]), Token(Assign, [61]), Token(Int, [56, 51, 56, 51, 56, 51]), Token(Semicolon, [59])], rest, prog, errs);
  }

  /** The tokens of three complete let statements: the three statements, no errors. */
  lemma LetStatementsTokens()
    ensures ParsesTokens([Token(Let, [108, 101, 116]), Token(Ident, [120]), Token(Assign, [61]), Token(Int, [53]), Token(Semicolon, [59])] + [Token(Let, [108, 101, 116]), Token(Ident, [121]), Token(Assign, [61]), Token(Int, [49, 48]), Token(Semicolon, [59])] + [Token(Let, [108, 101, 116]), Token(Ident, [102, 111, 111, 98, 97, 114]), Token(Assign, [61]), Token(Int, [56, 51, 56, 51, 56, 51]), Token(Semicolon, [59])],
      [LetNamed(Token(Let, [108, 101, 116]), Token(Ident, [120])), LetNamed(Token(Let, [108, 101, 116]), Token(Ident, [121])), LetNamed(Token(Let, [108, 101, 116]), Token(Ident, [102, 111, 111, 98, 97, 114]))],
      [])
  {
    ParsesNothing();
    var rest: seq<Token>, prog: Program, errs: seq<ParseError> := [], [], [];
    LetStatementsLine3(rest, prog, errs);
    rest, prog, errs := [Token(Let, [108, 101, 116]), Token(Ident, [102, 111, 111, 98, 97, 114]), Token(Assign, [61]), Token(Int, [56, 51, 56, 51, 56, 51]), Token(Semicolon, [59])] + rest, [LetNamed(Token(Let, [108, 101, 116]), Token(Ident, [102, 111, 111, 98, 97, 114]))] + prog, errs;
    LetStatementsLine2(rest, prog, errs);
    rest, prog, errs := [Token(Let, [108, 101, 116]), Token(Ident, [121]), Token(Assign, [61]), Token(Int, [49, 48]), Token(Semicolon, [59])] + rest, [LetNamed(Token(Let, [108, 101, 116]), Token(Ident, [121]))] + prog, errs;
    LetStatementsLine1(rest, prog, errs);
    rest, prog, errs := [Token(Let, [108, 101, 116]), Token(Ident, [120]), Token(Assign, [61]), Token(Int, [53]), Token(Semicolon, [59])] + rest, [LetNamed(Token(Let, [108, 101, 116]), Token(Ident, [120]))] + prog, errs;
    assert rest == [Token(Let, [108, 101, 116]), Token(Ident, [120]), Token(Assign, [61]), Token(Int, [53]), Token(Semicolon, [59])] + [Token(Let, [108, 101, 116]), Token(Ident, [121]), Token(Assign, [61]), Token(Int, [49, 48]), Token(Semicolon, [59])] + [Token(Let, [108, 101, 116]), Token(Ident, [102, 111, 111, 98, 97, 114]), Token(Assign, [61]), Token(Int, [56, 51, 56, 51, 56, 51]), Token(Semicolon, [59])];
    assert prog == [LetNamed(Token(Let, [108, 101, 116]), Token(Ident, [120])), LetNamed(Token(Let, [108, 101, 116]), Token(Ident, [121])), LetNamed(Token(Let, [108, 101, 116]), Token(Ident, [102, 111, 111, 98, 97, 114]))];
    assert errs == [];
  }

  lemma LetStatementsSees(a1: seq<Byte>, a2: seq<Byte>, a3: seq<Byte>)
    requires a1 == [10, 108, 101, 116, 32, 120, 32, 61, 32, 53, 59, 10]
    requires a2 == [108, 101, 116, 32, 121, 32, 61, 32, 49, 48, 59, 10]
    requires a3 == [108, 101, 116, 32, 102, 111, 111, 98, 97, 114, 32, 61, 32, 56, 51, 56, 51, 56, 51, 59, 10]
    ensures Sees(New(Lexing.New(a1 + a2 + a3)), [Token(Let, [108, 101, 116]), Token(Ident, [120]), Token(Assign, [61]), Token(Int, [53]), Token(Semicolon, [59])] + [Token(Let, [108, 101, 116]), Token(Ident, [121]), Token(Assign, [61]), Token(Int, [49, 48]), Token(Semicolon, [59])] + [Token(Let, [108, 101, 116]), Token(Ident, [102, 111, 111, 98, 97, 114]), Token(Assign, [61]), Token(Int, [56, 51, 56, 51, 56, 51]), Token(Semicolon, [59])])
  {
    LetX(a1);
    var t1, s1 := [Token(Let, [108, 101, 116]), Token(Ident, [120]), Token(Assign, [61]), Token(Int, [53]), Token(Semicolon, [59])], [(1, 4), (5, 6), (7, 8), (9, 10), (10, 11)];
    LetY(a2);
    var t2, s2 := [Token(Let, [108, 101, 116]), Token(Ident, [121]), Token(Assign, [61]), Token(Int, [49, 48]), Token(Semicolon, [59])], [(0, 3), (4, 5), (6, 7), (8, 10), (10, 11)];
    LetFoobar(a3);
    var t3, s3 := [Token(Let, [108, 101, 116]), Token(Ident, [102, 111, 111, 98, 97, 114]), Token(Assign, [61]), Token(Int, [56, 51, 56, 51, 56, 51]), Token(Semicolon, [59])], [(0, 3), (4, 10), (11, 12), (13, 19), (19, 20)];
    LexerProperties.TokenizesAppend(a1, a2, 0, t1, s1, t2, s2);
    LexerProperties.TokenizesAppend(a1 + a2, a3, 0, t1 + t2, s1 + LexerProperties.Shift(s2, |a1|), t3, s3);
    StartsOn(a1 + a2 + a3, t1 + t2 + t3, s1 + LexerProperties.Shift(s2, |a1|) + LexerProperties.Shift(s3, |a1 + a2|));
  }

  /** "\nlet x = 5;\nlet y = 10;\nlet foobar = 838383;\n": three let statements
      named x, y and foobar, and no errors. */
  lemma LetStatements(a1: seq<Byte>, a2: seq<Byte>, a3: seq<Byte>)
    requires a1 == [10, 108, 101, 116, 32, 120, 32, 61, 32, 53, 59, 10]
    requires a2 == [108, 101, 116, 32, 121, 32, 61, 32, 49, 48, 59, 10]
    requires a3 == [108, 101, 116, 32, 102, 111, 111, 98, 97, 114, 32, 61, 32, 56, 51, 56, 51, 56, 51, 59, 10]
    ensures var r := Parse(a1 + a2 + a3);
      && r.Ok? && r.state.errors == []
      && r.value == [LetNamed(Token(Let, [108, 101, 116]), Token(Ident, [120])), LetNamed(Token(Let, [108, 101, 116]), Token(Ident, [121])), LetNamed(Token(Let, [108, 101, 116]), Token(Ident, [102, 111, 111, 98, 97, 114]))]
  {
    LetStatementsSees(a1, a2, a3);
    LetStatementsTokens();
  }

  // line 1, "\nreturn 5;\n"
  lemma ReturnStatementsLine1(rest: seq<Token>, prog: Program, errs: seq<ParseError>)
    requires ParsesTokens(rest, prog, errs)
    ensures ParsesTokens([Token(Return, [114, 101, 116, 117, 114, 110]), Token(Int, [53]), Token(Semicolon, [59])] + rest,
      [ReturnStatement(Token(Return, [114, 101, 116, 117, 114, 110]), None)] + prog,
      errs)
  {
    ParsesReturn([Token(Return, [114, 101, 116, 117, 114, 110]), Token(Int, [53]), Token(Semicolon, [59])], rest, prog, errs);
  }

  // line 2, "return 10;\n"
  lemma ReturnStatementsLine2(rest: seq<Token>, prog: Program, errs: seq<ParseError>)
    requires ParsesTokens(rest, prog, errs)
    ensures ParsesTokens([Token(Return, [114, 101, 116, 117, 114, 110]), Token(Int, [49, 48]), Token(Semicolon, [59])] + rest,
      [ReturnStatement(Token(Return, [114, 101, 116, 117, 114, 110]), None)] + prog,
      errs)
  {
    ParsesReturn([Token(Return, [114, 101, 116, 117, 114, 110]), Token(Int, [49, 48]), Token(Semicolon, [59])], rest, prog, errs);
  }

  // line 3, "return 993322;\n"
  lemma ReturnStatementsLine3(rest: seq<Token>, prog: Program, errs: seq<ParseError>)
    requires ParsesTokens(rest, prog, errs)
    ensures ParsesTokens([Token(Return, [114, 101, 116, 117, 114, 110]), Token(Int, [57, 57, 51, 51, 50, 50]), Token(Semicolon, [59])] + rest,
      [ReturnStatement(Token(Return, [114, 101, 116, 117, 114, 110]), None)] + prog,
      errs)
  {
    ParsesReturn([Token(Return, [114, 101, 116, 117, 114, 110]), Token(Int, [57, 57, 51, 51, 50, 50]), Token(Semicolon, [59])], rest, prog, errs);
  }

  /** The tokens of three return statements: the three statements, no errors. */
  lemma ReturnStatementsTokens()
    ensures ParsesTokens([Token(Return, [114, 101, 116, 117, 114, 110]), Token(Int, [53]), Token(Semicolon, [59])] + [Token(Return, [114, 101, 116, 117, 114, 110]), Token(Int, [49, 48]), Token(Semicolon, [59])] + [Token(Return, [114, 101, 116, 117, 114, 110]), Token(Int, [57, 57, 51, 51, 50, 50]), Token(Semicolon, [59])],
      [ReturnStatement(Token(Return, [114, 101, 116, 117, 114, 110]), None), ReturnStatement(Token(Return, [114, 101, 116, 117, 114, 110]), None), ReturnStatement(Token(Return, [114, 101, 116, 117, 114, 110]), None)],
      [])
  {
    ParsesNothing();
    var rest: seq<Token>, prog: Program, errs: seq<ParseError> := [], [], [];
    ReturnStatementsLine3(rest, prog, errs);
    rest, prog, errs := [Token(Return, [114, 101, 116, 117, 114, 110]), Token(Int, [57, 57, 51, 51, 50, 50]), Token(Semicolon, [59])] + rest, [ReturnStatement(Token(Return, [114, 101, 116, 117, 114, 110]), None)] + prog, errs;
    ReturnStatementsLine2(rest, prog, errs);
    rest, prog, errs := [Token(Return, [114, 101, 116, 117, 114, 110]), Token(Int, [49, 48]), Token(Semicolon, [59])] + rest, [ReturnStatement(Token(Return, [114, 101, 116, 117, 114, 110]), None)] + prog, errs;
    ReturnStatementsLine1(rest, prog, errs);
    rest, prog, errs := [Token(Return, [114, 101, 116, 117, 114, 110]), Token(Int, [53]), Token(Semicolon, [59])] + rest, [ReturnStatement(Token(Return, [114, 101, 116, 117, 114, 110]), None)] + prog, errs;
    assert rest == [Token(Return, [114, 101, 116, 117, 114, 110]), Token(Int, [53]), Token(Semicolon, [59])] + [Token(Return, [114, 101, 116, 117, 114, 110]), Token(Int, [49, 48]), Token(Semicolon, [59])] + [Token(Return, [114, 101, 116, 117, 114, 110]), Token(Int, [57, 57, 51, 51, 50, 50]), Token(Semicolon, [59])];
    assert prog == [ReturnStatement(Token(Return, [114, 101, 116, 117, 114, 110]), None), ReturnStatement(Token(Return, [114, 101, 116, 117, 114, 110]), None), ReturnStatement(Token(Return, [114, 101, 116, 117, 114, 110]), None)];
    assert errs == [];
  }

  lemma ReturnStatementsSees(a1: seq<Byte>, a2: seq<Byte>, a3: seq<Byte>)
    requires a1 == [10, 114, 101, 116, 117, 114, 110, 32, 53, 59, 10]
    requires a2 == [114, 101, 116, 117, 114, 110, 32, 49, 48, 59, 10]
    requires a3 == [114, 101, 116, 117, 114, 110, 32, 57, 57, 51, 51, 50, 50, 59, 10]
    ensures Sees(New(Lexing.New(a1 + a2 + a3)), [Token(Return, [114, 101, 116, 117, 114, 110]), Token(Int, [53]), Token(Semicolon, [59])] + [Token(Return, [114, 101, 116, 117, 114, 110]), Token(Int, [49, 48]), Token(Semicolon, [59])] + [Token(Return, [114, 101, 116, 117, 114, 110]), Token(Int, [57, 57, 51, 51, 50, 50]), Token(Semicolon, [59])])
  {
    ReturnFive(a1);
    var t1, s1 := [Token(Return, [114, 101, 116, 117, 114, 110]), Token(Int, [53]), Token(Semicolon, [59])], [(1, 7), (8, 9), (9, 10)];
    ReturnTen(a2);
    var t2, s2 := [Token(Return, [114, 101, 116, 117, 114, 110]), Token(Int, [49, 48]), Token(Semicolon, [59])], [(0, 6), (7, 9), (9, 10)];
    ReturnBig(a3);
    var t3, s3 := [Token(Return, [114, 101, 116, 117, 114, 110]), Token(Int, [57, 57, 51, 51, 50, 50]), Token(Semicolon, [59])], [(0, 6), (7, 13), (13, 14)];
    LexerProperties.TokenizesAppend(a1, a2, 0, t1, s1, t2, s2);
    LexerProperties.TokenizesAppend(a1 + a2, a3, 0, t1 + t2, s1 + LexerProperties.Shift(s2, |a1|), t3, s3);
    StartsOn(a1 + a2 + a3, t1 + t2 + t3, s1 + LexerProperties.Shift(s2, |a1|) + LexerProperties.Shift(s3, |a1 + a2|));
  }

  /** "\nreturn 5;\nreturn 10;\nreturn 993322;\n": three return statements, no errors. */
  lemma ReturnStatements(a1: seq<Byte>, a2: seq<Byte>, a3: seq<Byte>)
    requires a1 == [10, 114, 101, 116, 117, 114, 110, 32, 53, 59, 10]
    requires a2 == [114, 101, 116, 117, 114, 110, 32, 49, 48, 59, 10]
    requires a3 == [114, 101, 116, 117, 114, 110, 32, 57, 57, 51, 51, 50, 50, 59, 10]
    ensures var r := Parse(a1 + a2 + a3);
      && r.Ok? && r.state.errors == []
      && r.value == [ReturnStatement(Token(Return, [114, 101, 116, 117, 114, 110]), None), ReturnStatement(Token(Return, [114, 101, 116, 117, 114, 110]), None), ReturnStatement(Token(Return, [114, 101, 116, 117, 114, 110]), None)]
  {
    ReturnStatementsSees(a1, a2, a3);
    ReturnStatementsTokens();
  }

  /** The values in line 1 of LetStatementErrors, and the line's statements joined. */
  lemma LetStatementErrorsLine1Values(rest: seq<Token>, prog: Program, errs: seq<ParseError>)
    ensures [Token(Int, [53]), Token(Semicolon, [59])][..1] == [Token(Int, [53])]
    ensures ExpressionOf([Token(Int, [53])]) == IntegerLiteral(Token(Int, [53]), Some(5))
    ensures IntErrors(Token(Int, [53])) == []
    ensures [Token(Let, [108, 101, 116]), Token(Ident, [120])] + ([Token(Int, [53]), Token(Semicolon, [59])] + rest) == [Token(Let, [108, 101, 116]), Token(Ident, [120]), Token(Int, [53]), Token(Semicolon, [59])] + rest
    ensures [ExpressionStatement(Token(Int, [53]), Some(ExpressionOf([Token(Int, [53])])))] + prog == [ExpressionStatement(Token(Int, [53]), Some(IntegerLiteral(Token(Int, [53]), Some(5))))] + prog
    ensures [PeekError(Assign, Int)] + (IntErrors(Token(Int, [53])) + errs) == [PeekError(Assign, Int)] + errs
  {
    IntValue5([53]);
  }

  // line 1, "\nlet x 5;\n"
  lemma LetStatementErrorsLine1(rest: seq<Token>, prog: Program, errs: seq<ParseError>)
    requires ParsesTokens(rest, prog, errs)
    ensures ParsesTokens([Token(Let, [108, 101, 116]), Token(Ident, [120]), Token(Int, [53]), Token(Semicolon, [59])] + rest,
      [ExpressionStatement(Token(Int, [53]), Some(IntegerLiteral(Token(Int, [53]), Some(5))))] + prog,
      [PeekError(Assign, Int)] + errs)
  {
    var r, pr, er := rest, prog, errs;
    ParsesExpression([Token(Int, [53]), Token(Semicolon, [59])], r, pr, er);
    r, pr, er := [Token(Int, [53]), Token(Semicolon, [59])] + r, [ExpressionStatement(Token(Int, [53]), Some(ExpressionOf([Token(Int, [53])])))] + pr, IntErrors(Token(Int, [53])) + er;
    ParsesLetWithoutAssign(Token(Let, [108, 101, 116]), Token(Ident, [120]), r, pr, er);
    LetStatementErrorsLine1Values(rest, prog, errs);
  }

  /** The values in line 2 of LetStatementErrors, and the line's statements joined. */
  lemma LetStatementErrorsLine2Values(rest: seq<Token>, prog: Program, errs: seq<ParseError>)
    ensures [Token(Int, [49, 48]), Token(Semicolon, [59])][..1] == [Token(Int, [49, 48])]
    ensures ExpressionOf([Token(Int, [49, 48])]) == IntegerLiteral(Token(Int, [49, 48]), Some(10))
    ensures IntErrors(Token(Int, [49, 48])) == []
    ensures [Token(Let, [108, 101, 116])] + ([Token(Assign, [61])] + ([Token(Int, [49, 48]), Token(Semicolon, [59])] + rest)) == [Token(Let, [108, 101, 116]), Token(Assign, [61]), Token(Int, [49, 48]), Token(Semicolon, [59])] + rest
    ensures [ExpressionStatement(Token(Assign, [61]), None)] + ([ExpressionStatement(Token(Int, [49, 48]), Some(ExpressionOf([Token(Int, [49, 48])])))] + prog) == [ExpressionStatement(Token(Assign, [61]), None), ExpressionStatement(Token(Int, [49, 48]), Some(IntegerLiteral(Token(Int, [49, 48]), Some(10))))] + prog
    ensures [PeekError(Ident, Assign)] + ([NoPrefix(Assign)] + (IntErrors(Token(Int, [49, 48])) + errs)) == [PeekError(Ident, Assign), NoPrefix(Assign)] + errs
  {
    IntValue10([49, 48]);
  }

  // line 2, "let = 10;\n"
  lemma LetStatementErrorsLine2(rest: seq<Token>, prog: Program, errs: seq<ParseError>)
    requires ParsesTokens(rest, prog, errs)
    ensures ParsesTokens([Token(Let, [108, 101, 116]), Token(Assign, [61]), Token(Int, [49, 48]), Token(Semicolon, [59])] + rest,
      [ExpressionStatement(Token(Assign, [61]), None), ExpressionStatement(Token(Int, [49, 48]), Some(IntegerLiteral(Token(Int, [49, 48]), Some(10))))] + prog,
      [PeekError(Ident, Assign), NoPrefix(Assign)] + errs)
  {
    var r, pr, er := rest, prog, errs;
    ParsesExpression([Token(Int, [49, 48]), Token(Semicolon, [59])], r, pr, er);
    r, pr, er := [Token(Int, [49, 48]), Token(Semicolon, [59])] + r, [ExpressionStatement(Token(Int, [49, 48]), Some(ExpressionOf([Token(Int, [49, 48])])))] + pr, IntErrors(Token(Int, [49, 48])) + er;
    ParsesWithoutPrefix(Token(Assign, [61]), r, pr, er);
    r, pr, er := [Token(Assign, [61])] + r, [ExpressionStatement(Token(Assign, [61]), None)] + pr, [NoPrefix(Assign)] + er;
    ParsesLetWithoutName(Token(Let, [108, 101, 116]), r, pr, er);
    LetStatementErrorsLine2Values(rest, prog, errs);
  }

  /** The values in line 3 of LetStatementErrors, and the line's statements joined. */
  lemma LetStatementErrorsLine3Values(rest: seq<Token>, prog: Program, errs: seq<ParseError>)
    ensures [Token(Int, [56, 51, 56, 51, 56, 51]), Token(Semicolon, [59])][..1] == [Token(Int, [56, 51, 56, 51, 56, 51])]
    ensures ExpressionOf([Token(Int, [56, 51, 56, 51, 56, 51])]) == IntegerLiteral(Token(Int, [56, 51, 56, 51, 56, 51]), Some(838383))
    ensures IntErrors(Token(Int, [56, 51, 56, 51, 56, 51])) == []
    ensures [Token(Let, [108, 101, 116])] + ([Token(Int, [56, 51, 56, 51, 56, 51]), Token(Semicolon, [59])] + rest) == [Token(Let, [108, 101, 116]), Token(Int, [56, 51, 56, 51, 56, 51]), Token(Semicolon, [59])] + rest
    ensures [ExpressionStatement(Token(Int, [56, 51, 56, 51, 56, 51]), Some(ExpressionOf([Token(Int, [56, 51, 56, 51, 56, 51])])))] + prog == [ExpressionStatement(Token(Int, [56, 51, 56, 51, 56, 51]), Some(IntegerLiteral(Token(Int, [56, 51, 56, 51, 56, 51]), Some(838383))))] + prog
    ensures [PeekError(Ident, Int)] + (IntErrors(Token(Int, [56, 51, 56, 51, 56, 51])) + errs) == [PeekError(Ident, Int)] + errs
  {
    IntValue838383([56, 51, 56, 51, 56, 51]);
  }

  // line 3, "let 838383;\n"
  lemma LetStatementErrorsLine3(rest: seq<Token>, prog: Program, errs: seq<ParseError>)
    requires ParsesTokens(rest, prog, errs)
    ensures ParsesTokens([Token(Let, [108, 101, 116]), Token(Int, [56, 51, 56, 51, 56, 51]), Token(Semicolon, [59])] + rest,
      [ExpressionStatement(Token(Int, [56, 51, 56, 51, 56, 51]), Some(IntegerLiteral(Token(Int, [56, 51, 56, 51, 56, 51]), Some(838383))))] + prog,
      [PeekError(Ident, Int)] + errs)
  {
    var r, pr, er := rest, prog, errs;
    ParsesExpression([Token(Int, [56, 51, 56, 51, 56, 51]), Token(Semicolon, [59])], r, pr, er);
    r, pr, er := [Token(Int, [56, 51, 56, 51, 56, 51]), Token(Semicolon, [59])] + r, [ExpressionStatement(Token(Int, [56, 51, 56, 51, 56, 51]), Some(ExpressionOf([Token(Int, [56, 51, 56, 51, 56, 51])])))] + pr, IntErrors(Token(Int, [56, 51, 56, 51, 56, 51])) + er;
    ParsesLetWithoutName(Token(Let, [108, 101, 116]), r, pr, er);
    LetStatementErrorsLine3Values(rest, prog, errs);
  }

  /** The tokens of three broken let statements: every `let` is dropped with one
      peek error, `=` gets a NoPrefix error, and the integers are expression
      statements. */
  lemma LetStatementErrorsTokens()
    ensures ParsesTokens([Token(Let, [108, 101, 116]), Token(Ident, [120]), Token(Int, [53]), Token(Semicolon, [59])] + [Token(Let, [108, 101, 116]), Token(Assign, [61]), Token(Int, [49, 48]), Token(Semicolon, [59])] + [Token(Let, [108, 101, 116]), Token(Int, [56, 51, 56, 51, 56, 51]), Token(Semicolon, [59])],
      [ExpressionStatement(Token(Int, [53]), Some(IntegerLiteral(Token(Int, [53]), Some(5)))), ExpressionStatement(Token(Assign, [61]), None), ExpressionStatement(Token(Int, [49, 48]), Some(IntegerLiteral(Token(Int, [49, 48]), Some(10)))), ExpressionStatement(Token(Int, [56, 51, 56, 51, 56, 51]), Some(IntegerLiteral(Token(Int, [56, 51, 56, 51, 56, 51]), Some(838383))))],
      [PeekError(Assign, Int), PeekError(Ident, Assign), NoPrefix(Assign), PeekError(Ident, Int)])
  {
    ParsesNothing();
    var rest: seq<Token>, prog: Program, errs: seq<ParseError> := [], [], [];
    LetStatementErrorsLine3(rest, prog, errs);
    rest, prog, errs := [Token(Let, [108, 101, 116]), Token(Int, [56, 51, 56, 51, 56, 51]), Token(Semicolon, [59])] + rest, [ExpressionStatement(Token(Int, [56, 51, 56, 51, 56, 51]), Some(IntegerLiteral(Token(Int, [56, 51, 56, 51, 56, 51]), Some(838383))))] + prog, [PeekError(Ident, Int)] + errs;
    LetStatementErrorsLine2(rest, prog, errs);
    rest, prog, errs := [Token(Let, [108, 101, 116]), Token(Assign, [61]), Token(Int, [49, 48]), Token(Semicolon, [59])] + rest, [ExpressionStatement(Token(Assign, [61]), None), ExpressionStatement(Token(Int, [49, 48]), Some(IntegerLiteral(Token(Int, [49, 48]), Some(10))))] + prog, [PeekError(Ident, Assign), NoPrefix(Assign)] + errs;
    LetStatementErrorsLine1(rest, prog, errs);
    rest, prog, errs := [Token(Let, [108, 101, 116]), Token(Ident, [120]), Token(Int, [53]), Token(Semicolon, [59])] + rest, [ExpressionStatement(Token(Int, [53]), Some(IntegerLiteral(Token(Int, [53]), Some(5))))] + prog, [PeekError(Assign, Int)] + errs;
    assert rest == [Token(Let, [108, 101, 116]), Token(Ident, [120]), Token(Int, [53]), Token(Semicolon, [59])] + [Token(Let, [108, 101, 116]), Token(Assign, [61]), Token(Int, [49, 48]), Token(Semicolon, [59])] + [Token(Let, [108, 101, 116]), Token(Int, [56, 51, 56, 51, 56, 51]), Token(Semicolon, [59])];
    assert prog == [ExpressionStatement(Token(Int, [53]), Some(IntegerLiteral(Token(Int, [53]), Some(5)))), ExpressionStatement(Token(Assign, [61]), None), ExpressionStatement(Token(Int, [49, 48]), Some(IntegerLiteral(Token(Int, [49, 48]), Some(10)))), ExpressionStatement(Token(Int, [56, 51, 56, 51, 56, 51]), Some(IntegerLiteral(Token(Int, [56, 51, 56, 51, 56, 51]), Some(838383))))];
    assert errs == [PeekError(Assign, Int), PeekError(Ident, Assign), NoPrefix(Assign), PeekError(Ident, Int)];
  }

  lemma LetStatementErrorsSees(a1: seq<Byte>, a2: seq<Byte>, a3: seq<Byte>)
    requires a1 == [10, 108, 101, 116, 32, 120, 32, 53, 59, 10]
    requires a2 == [108, 101, 116, 32, 61, 32, 49, 48, 59, 10]
    requires a3 == [108, 101, 116, 32, 56, 51, 56, 51, 56, 51, 59, 10]
    ensures Sees(New(Lexing.New(a1 + a2 + a3)), [Token(Let, [108, 101, 116]), Token(Ident, [120]), Token(Int, [53]), Token(Semicolon, [59])] + [Token(Let, [108, 101, 116]), Token(Assign, [61]), Token(Int, [49, 48]), Token(Semicolon, [59])] + [Token(Let, [108, 101, 116]), Token(Int, [56, 51, 56, 51, 56, 51]), Token(Semicolon, [59])])
  {
    LetNoAssign(a1);
    var t1, s1 := [Token(Let, [108, 101, 116]), Token(Ident, [120]), Token(Int, [53]), Token(Semicolon, [59])], [(1, 4), (5, 6), (7, 8), (8, 9)];
    LetNoName(a2);
    var t2, s2 := [Token(Let, [108, 101, 116]), Token(Assign, [61]), Token(Int, [49, 48]), Token(Semicolon, [59])], [(0, 3), (4, 5), (6, 8), (8, 9)];
    LetNoNameInt(a3);
    var t3, s3 := [Token(Let, [108, 101, 116]), Token(Int, [56, 51, 56, 51, 56, 51]), Token(Semicolon, [59])], [(0, 3), (4, 10), (10, 11)];
    LexerProperties.TokenizesAppend(a1, a2, 0, t1, s1, t2, s2);
    LexerProperties.TokenizesAppend(a1 + a2, a3, 0, t1 + t2, s1 + LexerProperties.Shift(s2, |a1|), t3, s3);
    StartsOn(a1 + a2 + a3, t1 + t2 + t3, s1 + LexerProperties.Shift(s2, |a1|) + LexerProperties.Shift(s3, |a1 + a2|));
  }

  /** "\nlet x 5;\nlet = 10;\nlet 838383;\n": each broken let is dropped with a
      peek error, and what follows it is read as expression statements. */
  lemma LetStatementErrors(a1: seq<Byte>, a2: seq<Byte>, a3: seq<Byte>)
    requires a1 == [10, 108, 101, 116, 32, 120, 32, 53, 59, 10]
    requires a2 == [108, 101, 116, 32, 61, 32, 49, 48, 59, 10]
    requires a3 == [108, 101, 116, 32, 56, 51, 56, 51, 56, 51, 59, 10]
    ensures var r := Parse(a1 + a2 + a3);
      && r.Ok? && r.state.errors == [PeekError(Assign, Int), PeekError(Ident, Assign), NoPrefix(Assign), PeekError(Ident, Int)]
      && r.value == [ExpressionStatement(Token(Int, [53]), Some(IntegerLiteral(Token(Int, [53]), Some(5)))), ExpressionStatement(Token(Assign, [61]), None), ExpressionStatement(Token(Int, [49, 48]), Some(IntegerLiteral(Token(Int, [49, 48]), Some(10)))), ExpressionStatement(Token(Int, [56, 51, 56, 51, 56, 51]), Some(IntegerLiteral(Token(Int, [56, 51, 56, 51, 56, 51]), Some(838383))))]
  {
    LetStatementErrorsSees(a1, a2, a3);
    LetStatementErrorsTokens();
  }

  /** The values in IdentifierExpression. */
  lemma IdentifierExpressionTokensValues(rest: seq<Token>, prog: Program, errs: seq<ParseError>)
    ensures [Token(Ident, [102, 111, 111, 98, 97, 114]), Token(Semicolon, [59])][..1] == [Token(Ident, [102, 111, 111, 98, 97, 114])]
    ensures ExpressionOf([Token(Ident, [102, 111, 111, 98, 97, 114])]) == Identifier(Token(Ident, [102, 111, 111, 98, 97, 114]), [102, 111, 111, 98, 97, 114])
    ensures IntErrors(Token(Ident, [102, 111, 111, 98, 97, 114])) == []
    ensures [ExpressionStatement(Token(Ident, [102, 111, 111, 98, 97, 114]), Some(ExpressionOf([Token(Ident, [102, 111, 111, 98, 97, 114])])))] + prog == [ExpressionStatement(Token(Ident, [102, 111, 111, 98, 97, 114]), Some(Identifier(Token(Ident, [102, 111, 111, 98, 97, 114]), [102, 111, 111, 98, 97, 114])))] + prog
    ensures IntErrors(Token(Ident, [102, 111, 111, 98, 97, 114])) + errs == errs
  {
  }

  /** An identifier and `;`: an expression statement for the identifier. */
  lemma IdentifierExpressionTokens(rest: seq<Token>, prog: Program, errs: seq<ParseError>)
    requires ParsesTokens(rest, prog, errs)
    ensures ParsesTokens([Token(Ident, [102, 111, 111, 98, 97, 114]), Token(Semicolon, [59])] + rest,
      [ExpressionStatement(Token(Ident, [102, 111, 111, 98, 97, 114]), Some(Identifier(Token(Ident, [102, 111, 111, 98, 97, 114]), [102, 111, 111, 98, 97, 114])))] + prog,
      errs)
  {
    ParsesExpression([Token(Ident, [102, 111, 111, 98, 97, 114]), Token(Semicolon, [59])], rest, prog, errs);
    IdentifierExpressionTokensValues(rest, prog, errs);
  }

  lemma IdentifierExpressionSees(input: seq<Byte>)
    requires input == [102, 111, 111, 98, 97, 114, 59]
    ensures Sees(New(Lexing.New(input)), [Token(Ident, [102, 111, 111, 98, 97, 114]), Token(Semicolon, [59])])
  {
    Foobar(input);
    var t1, s1 := [Token(Ident, [102, 111, 111, 98, 97, 114]), Token(Semicolon, [59])], [(0, 6), (6, 7)];
    StartsOn(input, t1, s1);
  }

  // "foobar;"
  lemma IdentifierExpression(input: seq<Byte>)
    requires input == [102, 111, 111, 98, 97, 114, 59]
    ensures var r := Parse(input);
      && r.Ok? && r.state.errors == []
      && r.value == [ExpressionStatement(Token(Ident, [102, 111, 111, 98, 97, 114]), Some(Identifier(Token(Ident, [102, 111, 111, 98, 97, 114]), [102, 111, 111, 98, 97, 114])))]
  {
    IdentifierExpressionSees(input);
    ParsesNothing();
    IdentifierExpressionTokens([], [], []);
    assert [Token(Ident, [102, 111, 111, 98, 97, 114]), Token(Semicolon, [59])] + [] == [Token(Ident, [102, 111, 111, 98, 97, 114]), Token(Semicolon, [59])];
  }

  /** The values in IntegerLiteralExpression. */
  lemma IntegerLiteralExpressionTokensValues(rest: seq<Token>, prog: Program, errs: seq<ParseError>)
    ensures [Token(Int, [53]), Token(Semicolon, [59])][..1] == [Token(Int, [53])]
    ensures ExpressionOf([Token(Int, [53])]) == IntegerLiteral(Token(Int, [53]), Some(5))
    ensures IntErrors(Token(Int, [53])) == []
    ensures [ExpressionStatement(Token(Int, [53]), Some(ExpressionOf([Token(Int, [53])])))] + prog == [ExpressionStatement(Token(Int, [53]), Some(IntegerLiteral(Token(Int, [53]), Some(5))))] + prog
    ensures IntErrors(Token(Int, [53])) + errs == errs
  {
    IntValue5([53]);
  }

  /** An integer and `;`: an expression statement for its value. */
  lemma IntegerLiteralExpressionTokens(rest: seq<Token>, prog: Program, errs: seq<ParseError>)
    requires ParsesTokens(rest, prog, errs)
    ensures ParsesTokens([Token(Int, [53]), Token(Semicolon, [59])] + rest,
      [ExpressionStatement(Token(Int, [53]), Some(IntegerLiteral(Token(Int, [53]), Some(5))))] + prog,
      errs)
  {
    ParsesExpression([Token(Int, [53]), Token(Semicolon, [59])], rest, prog, errs);
    IntegerLiteralExpressionTokensValues(rest, prog, errs);
  }

  lemma IntegerLiteralExpressionSees(input: seq<Byte>)
    requires input == [53, 59]
    ensures Sees(New(Lexing.New(input)), [Token(Int, [53]), Token(Semicolon, [59])])
  {
    Five(input);
    var t1, s1 := [Token(Int, [53]), Token(Semicolon, [59])], [(0, 1), (1, 2)];
    StartsOn(input, t1, s1);
  }

  // "5;"
  lemma IntegerLiteralExpression(input: seq<Byte>)
    requires input == [53, 59]
    ensures var r := Parse(input);
      && r.Ok? && r.state.errors == []
      && r.value == [ExpressionStatement(Token(Int, [53]), Some(IntegerLiteral(Token(Int, [53]), Some(5))))]
  {
    IntegerLiteralExpressionSees(input);
    ParsesNothing();
    IntegerLiteralExpressionTokens([], [], []);
    assert [Token(Int, [53]), Token(Semicolon, [59])] + [] == [Token(Int, [53]), Token(Semicolon, [59])];
  }

  /** The values in BangPrefixExpression. */
  lemma BangPrefixExpressionTokensValues(rest: seq<Token>, prog: Program, errs: seq<ParseError>)
    ensures [Token(Bang, [33]), Token(Int, [53]), Token(Semicolon, [59])][..2] == [Token(Bang, [33]), Token(Int, [53])]
    ensures ExpressionOf([Token(Bang, [33]), Token(Int, [53])]) == PrefixExpression(Token(Bang, [33]), [33], IntegerLiteral(Token(Int, [53]), Some(5)))
    ensures IntErrors(Token(Int, [53])) == []
    ensures [ExpressionStatement(Token(Bang, [33]), Some(ExpressionOf([Token(Bang, [33]), Token(Int, [53])])))] + prog == [ExpressionStatement(Token(Bang, [33]), Some(PrefixExpression(Token(Bang, [33]), [33], IntegerLiteral(Token(Int, [53]), Some(5)))))] + prog
    ensures IntErrors(Token(Int, [53])) + errs == errs
  {
    IntValue5([53]);
    assert ExpressionOf([Token(Int, [53])]) == IntegerLiteral(Token(Int, [53]), Some(5));
    assert [Token(Bang, [33]), Token(Int, [53])][1..] == [Token(Int, [53])];
  }

  /** `!`, an integer and `;`: the operator applied to the integer. */
  lemma BangPrefixExpressionTokens(rest: seq<Token>, prog: Program, errs: seq<ParseError>)
    requires ParsesTokens(rest, prog, errs)
    ensures ParsesTokens([Token(Bang, [33]), Token(Int, [53]), Token(Semicolon, [59])] + rest,
      [ExpressionStatement(Token(Bang, [33]), Some(PrefixExpression(Token(Bang, [33]), [33], IntegerLiteral(Token(Int, [53]), Some(5)))))] + prog,
      errs)
  {
    ParsesExpression([Token(Bang, [33]), Token(Int, [53]), Token(Semicolon, [59])], rest, prog, errs);
    BangPrefixExpressionTokensValues(rest, prog, errs);
  }

  lemma BangPrefixExpressionSees(input: seq<Byte>)
    requires input == [33, 53, 59]
    ensures Sees(New(Lexing.New(input)), [Token(Bang, [33]), Token(Int, [53]), Token(Semicolon, [59])])
  {
    NotFive(input);
    var t1, s1 := [Token(Bang, [33]), Token(Int, [53]), Token(Semicolon, [59])], [(0, 1), (1, 2), (2, 3)];
    StartsOn(input, t1, s1);
  }

  // "!5;"
  lemma BangPrefixExpression(input: seq<Byte>)
    requires input == [33, 53, 59]
    ensures var r := Parse(input);
      && r.Ok? && r.state.errors == []
      && r.value == [ExpressionStatement(Token(Bang, [33]), Some(PrefixExpression(Token(Bang, [33]), [33], IntegerLiteral(Token(Int, [53]), Some(5)))))]
  {
    BangPrefixExpressionSees(input);
    ParsesNothing();
    BangPrefixExpressionTokens([], [], []);
    assert [Token(Bang, [33]), Token(Int, [53]), Token(Semicolon, [59])] + [] == [Token(Bang, [33]), Token(Int, [53]), Token(Semicolon, [59])];
  }

  /** The values in MinusPrefixExpression. */
  lemma MinusPrefixExpressionTokensValues(rest: seq<Token>, prog: Program, errs: seq<ParseError>)
    ensures [Token(Minus, [45]), Token(Int, [49, 53]), Token(Semicolon, [59])][..2] == [Token(Minus, [45]), Token(Int, [49, 53])]
    ensures ExpressionOf([Token(Minus, [45]), Token(Int, [49, 53])]) == PrefixExpression(Token(Minus, [45]), [45], IntegerLiteral(Token(Int, [49, 53]), Some(15)))
    ensures IntErrors(Token(Int, [49, 53])) == []
    ensures [ExpressionStatement(Token(Minus, [45]), Some(ExpressionOf([Token(Minus, [45]), Token(Int, [49, 53])])))] + prog == [ExpressionStatement(Token(Minus, [45]), Some(PrefixExpression(Token(Minus, [45]), [45], IntegerLiteral(Token(Int, [49, 53]), Some(15)))))] + prog
    ensures IntErrors(Token(Int, [49, 53])) + errs == errs
  {
    IntValue15([49, 53]);
    assert ExpressionOf([Token(Int, [49, 53])]) == IntegerLiteral(Token(Int, [49, 53]), Some(15));
    assert [Token(Minus, [45]), Token(Int, [49, 53])][1..] == [Token(Int, [49, 53])];
  }

  /** `-`, an integer and `;`: the operator applied to the integer. */
  lemma MinusPrefixExpressionTokens(rest: seq<Token>, prog: Program, errs: seq<ParseError>)
    requires ParsesTokens(rest, prog, errs)
    ensures ParsesTokens([Token(Minus, [45]), Token(Int, [49, 53]), Token(Semicolon, [59])] + rest,
      [ExpressionStatement(Token(Minus, [45]), Some(PrefixExpression(Token(Minus, [45]), [45], IntegerLiteral(Token(Int, [49, 53]), Some(15)))))] + prog,
      errs)
  {
    ParsesExpression([Token(Minus, [45]), Token(Int, [49, 53]), Token(Semicolon, [59])], rest, prog, errs);
    MinusPrefixExpressionTokensValues(rest, prog, errs);
  }

  lemma MinusPrefixExpressionSees(input: seq<Byte>)
    requires input == [45, 49, 53, 59]
    ensures Sees(New(Lexing.New(input)), [Token(Minus, [45]), Token(Int, [49, 53]), Token(Semicolon, [59])])
  {
    MinusFifteen(input);
    var t1, s1 := [Token(Minus, [45]), Token(Int, [49, 53]), Token(Semicolon, [59])], [(0, 1), (1, 3), (3, 4)];
    StartsOn(input, t1, s1);
  }

  // "-15;"
  lemma MinusPrefixExpression(input: seq<Byte>)
    requires input == [45, 49, 53, 59]
    ensures var r := Parse(input);
      && r.Ok? && r.state.errors == []
      && r.value == [ExpressionStatement(Token(Minus, [45]), Some(PrefixExpression(Token(Minus, [45]), [45], IntegerLiteral(Token(Int, [49, 53]), Some(15)))))]
  {
    MinusPrefixExpressionSees(input);
    ParsesNothing();
    MinusPrefixExpressionTokens([], [], []);
    assert [Token(Minus, [45]), Token(Int, [49, 53]), Token(Semicolon, [59])] + [] == [Token(Minus, [45]), Token(Int, [49, 53]), Token(Semicolon, [59])];
  }

  /** The values in IntegerOverflow. */
  lemma IntegerOverflowTokensValues(rest: seq<Token>, prog: Program, errs: seq<ParseError>)
    ensures [Token(Int, [57, 50, 50, 51, 51, 55, 50, 48, 51, 54, 56, 53, 52, 55, 55, 53, 56, 48, 56]), Token(Semicolon, [59])][..1] == [Token(Int, [57, 50, 50, 51, 51, 55, 50, 48, 51, 54, 56, 53, 52, 55, 55, 53, 56, 48, 56])]
    ensures ExpressionOf([Token(Int, [57, 50, 50, 51, 51, 55, 50, 48, 51, 54, 56, 53, 52, 55, 55, 53, 56, 48, 56])]) == IntegerLiteral(Token(Int, [57, 50, 50, 51, 51, 55, 50, 48, 51, 54, 56, 53, 52, 55, 55, 53, 56, 48, 56]), None)
    ensures IntErrors(Token(Int, [57, 50, 50, 51, 51, 55, 50, 48, 51, 54, 56, 53, 52, 55, 55, 53, 56, 48, 56])) == [IntParse([57, 50, 50, 51, 51, 55, 50, 48, 51, 54, 56, 53, 52, 55, 55, 53, 56, 48, 56])]
    ensures [ExpressionStatement(Token(Int, [57, 50, 50, 51, 51, 55, 50, 48, 51, 54, 56, 53, 52, 55, 55, 53, 56, 48, 56]), Some(ExpressionOf([Token(Int, [57, 50, 50, 51, 51, 55, 50, 48, 51, 54, 56, 53, 52, 55, 55, 53, 56, 48, 56])])))] + prog == [ExpressionStatement(Token(Int, [57, 50, 50, 51, 51, 55, 50, 48, 51, 54, 56, 53, 52, 55, 55, 53, 56, 48, 56]), Some(IntegerLiteral(Token(Int, [57, 50, 50, 51, 51, 55, 50, 48, 51, 54, 56, 53, 52, 55, 55, 53, 56, 48, 56]), None)))] + prog
    ensures IntErrors(Token(Int, [57, 50, 50, 51, 51, 55, 50, 48, 51, 54, 56, 53, 52, 55, 55, 53, 56, 48, 56])) + errs == [IntParse([57, 50, 50, 51, 51, 55, 50, 48, 51, 54, 56, 53, 52, 55, 55, 53, 56, 48, 56])] + errs
  {
    IntValueTooBig([57, 50, 50, 51, 51, 55, 50, 48, 51, 54, 56, 53, 52, 55, 55, 53, 56, 48, 56]);
  }

  /** An integer too large for 64 bits: kept without a value, with an error. */
  lemma IntegerOverflowTokens(rest: seq<Token>, prog: Program, errs: seq<ParseError>)
    requires ParsesTokens(rest, prog, errs)
    ensures ParsesTokens([Token(Int, [57, 50, 50, 51, 51, 55, 50, 48, 51, 54, 56, 53, 52, 55, 55, 53, 56, 48, 56]), Token(Semicolon, [59])] + rest,
      [ExpressionStatement(Token(Int, [57, 50, 50, 51, 51, 55, 50, 48, 51, 54, 56, 53, 52, 55, 55, 53, 56, 48, 56]), Some(IntegerLiteral(Token(Int, [57, 50, 50, 51, 51, 55, 50, 48, 51, 54, 56, 53, 52, 55, 55, 53, 56, 48, 56]), None)))] + prog,
      [IntParse([57, 50, 50, 51, 51, 55, 50, 48, 51, 54, 56, 53, 52, 55, 55, 53, 56, 48, 56])] + errs)
  {
    ParsesExpression([Token(Int, [57, 50, 50, 51, 51, 55, 50, 48, 51, 54, 56, 53, 52, 55, 55, 53, 56, 48, 56]), Token(Semicolon, [59])], rest, prog, errs);
    IntegerOverflowTokensValues(rest, prog, errs);
  }

  lemma IntegerOverflowSees(input: seq<Byte>)
    requires input == [57, 50, 50, 51, 51, 55, 50, 48, 51, 54, 56, 53, 52, 55, 55, 53, 56, 48, 56, 59]
    ensures Sees(New(Lexing.New(input)), [Token(Int, [57, 50, 50, 51, 51, 55, 50, 48, 51, 54, 56, 53, 52, 55, 55, 53, 56, 48, 56]), Token(Semicolon, [59])])
  {
    TooBig(input);
    var t1, s1 := [Token(Int, [57, 50, 50, 51, 51, 55, 50, 48, 51, 54, 56, 53, 52, 55, 55, 53, 56, 48, 56]), Token(Semicolon, [59])], [(0, 19), (19, 20)];
    StartsOn(input, t1, s1);
  }

  /** "9223372036854775808;": one more than the largest 64-bit value; the
      literal is kept without a value and an error is recorded. */
  lemma IntegerOverflow(input: seq<Byte>)
    requires input == [57, 50, 50, 51, 51, 55, 50, 48, 51, 54, 56, 53, 52, 55, 55, 53, 56, 48, 56, 59]
    ensures var r := Parse(input);
      && r.Ok? && r.state.errors == [IntParse([57, 50, 50, 51, 51, 55, 50, 48, 51, 54, 56, 53, 52, 55, 55, 53, 56, 48, 56])]
      && r.value == [ExpressionStatement(Token(Int, [57, 50, 50, 51, 51, 55, 50, 48, 51, 54, 56, 53, 52, 55, 55, 53, 56, 48, 56]), Some(IntegerLiteral(Token(Int, [57, 50, 50, 51, 51, 55, 50, 48, 51, 54, 56, 53, 52, 55, 55, 53, 56, 48, 56]), None)))]
  {
    IntegerOverflowSees(input);
    ParsesNothing();
    IntegerOverflowTokens([], [], []);
    assert [Token(Int, [57, 50, 50, 51, 51, 55, 50, 48, 51, 54, 56, 53, 52, 55, 55, 53, 56, 48, 56]), Token(Semicolon, [59])] + [] == [Token(Int, [57, 50, 50, 51, 51, 55, 50, 48, 51, 54, 56, 53, 52, 55, 55, 53, 56, 48, 56]), Token(Semicolon, [59])];
  }

  lemma MinusWithoutOperandSees(input: seq<Byte>)
    requires input == [45, 59]
    ensures Sees(New(Lexing.New(input)), [Token(Minus, [45]), Token(Semicolon, [59])])
  {
    MinusAlone(input);
    StartsOn(input, [Token(Minus, [45]), Token(Semicolon, [59])], [(0, 1), (1, 2)]);
  }

  lemma MinusWithoutOperandOn(p: Parser)
    requires Sees(p, [Token(Minus, [45]), Token(Semicolon, [59])])
    ensures ParseProgram(p).Panicked?
  {
    assert TokenAt(p, 0) == p.current;
    assert TokenAt(p, 1).kind == Semicolon;
    ParseExpressionPanics(p, LOWEST, 1);
    ParseProgramAborts(p);
  }

  /** "-;": a prefix operator without an operand panics. */
  lemma MinusWithoutOperandPanics(input: seq<Byte>)
    requires input == [45, 59]
    ensures Parse(input).Panicked?
  {
    MinusWithoutOperandSees(input);
    MinusWithoutOperandOn(New(Lexing.New(input)));
  }

  lemma ReturnWithoutSemicolonSees(input: seq<Byte>)
    requires input == [114, 101, 116, 117, 114, 110, 32, 53]
    ensures Sees(New(Lexing.New(input)), [Token(Return, [114, 101, 116, 117, 114, 110]), Token(Int, [53])])
  {
    ReturnNoSemicolon(input);
    StartsOn(input, [Token(Return, [114, 101, 116, 117, 114, 110]), Token(Int, [53])], [(0, 6), (7, 8)]);
  }

  lemma ReturnWithoutSemicolonOn(p: Parser)
    requires Sees(p, [Token(Return, [114, 101, 116, 117, 114, 110]), Token(Int, [53])])
    ensures ParseProgram(p).Diverged?
  {
    assert TokenAt(p, 0) == p.current;
    assert NoSemicolonFrom(p, 1) by {
      forall i: nat | 1 <= i ensures TokenAt(p, i).kind != Semicolon {
      }
    }
    ReturnDivergesProgram(p);
  }

  /** "return 5": with no `;` left the return statement never ends. */
  lemma ReturnWithoutSemicolonDiverges(input: seq<Byte>)
    requires input == [114, 101, 116, 117, 114, 110, 32, 53]
    ensures Parse(input).Diverged?
  {
    ReturnWithoutSemicolonSees(input);
    ReturnWithoutSemicolonOn(New(Lexing.New(input)));
  }
}
