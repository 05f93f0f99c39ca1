/**
 The program loop read at the level of tokens: which program, and which
 errors, a parser produces from a given token sequence. Each lemma puts one
 statement's tokens in front of a token sequence whose parse is already
 known, so the parse of a whole text follows statement by statement.
 */
module ProgramProperties {
  import opened Optional
  import opened Tokens
  import opened Decimal
  import opened Ast
  import opened Parsing
  import opened ParserProperties

  /** The first token of a sequence, or Eof when it is empty. */
  function First(ts: seq<Token>): Token {
    if |ts| > 0 then ts[0] else EOF_TOKEN
  }

  /** A let statement as the parser builds it from the `let` token and the name. */
  function LetNamed(letToken: Token, name: Token): (s: Statement)
    ensures s.LetStatement? && s.token == letToken && s.name.token == name && s.value.None?
    ensures s.name.Identifier? && s.name.value == name.literal
  {
    LetStatement(letToken, Identifier(name, name.literal), None)
  }

  /** The expression a run of prefix operators followed by an operand stands for. */
  function ExpressionOf(run: seq<Token>): (e: Expression)
    requires 0 < |run|
    ensures e.token == run[0]
    decreases |run|
  {
    if |run| == 1 then
      if run[0].kind == Ident then Identifier(run[0], run[0].literal)
      else IntegerLiteral(run[0], ParseI64(run[0].literal))
    else PrefixExpression(run[0], run[0].literal, ExpressionOf(run[1..]))
  }

  /**
   The expression parsed from a run of prefix operators and its operand is
   the one those tokens stand for: the operators nest around the operand, in
   order.
   */
  lemma {:induction false} ParseExpressionValue(p: Parser, precedence: int, run: seq<Token>)
    requires Valid(p) && 0 < |run| && OperatorRun(p, |run| - 1)
    requires PrefixParseFn(run[|run| - 1].kind).Some?
    requires forall j | 0 <= j < |run| :: TokenAt(p, j) == run[j]
    ensures ParseExpression(p, precedence).Ok?
    ensures ParseExpression(p, precedence).value == Some(ExpressionOf(run))
    decreases |run|
  {
    if |run| == 1 {
      OperandValue(p, precedence, run);
    } else {
      OperatorRunStep(p, |run| - 1);
      RunAfterAdvance(p, run);
      ParseExpressionValue(Advance(p), PREFIX, run[1..]);
      PrefixValueStep(p, precedence, run);
    }
  }

  /** The base of ParseExpressionValue: a lone operand. */
  lemma OperandValue(p: Parser, precedence: int, run: seq<Token>)
    requires Valid(p) && |run| == 1 && TokenAt(p, 0) == run[0]
    requires PrefixParseFn(run[0].kind).Some? && !IsPrefixOperator(run[0].kind)
    ensures ParseExpression(p, precedence).Ok?
    ensures ParseExpression(p, precedence).value == Some(ExpressionOf(run))
  {
    assert TokenAt(p, 0) == p.current;
  }

  /** The step of ParseExpressionValue: an operator in front of its operand's expression. */
  lemma PrefixValueStep(p: Parser, precedence: int, run: seq<Token>)
    requires Valid(p) && 1 < |run| && TokenAt(p, 0) == run[0] && IsPrefixOperator(run[0].kind)
    requires ParseExpression(Advance(p), PREFIX).Ok?
    requires ParseExpression(Advance(p), PREFIX).value == Some(ExpressionOf(run[1..]))
    ensures ParseExpression(p, precedence).Ok?
    ensures ParseExpression(p, precedence).value == Some(ExpressionOf(run))
  {
    assert TokenAt(p, 0) == p.current;
    PrefixBuilds(p, precedence);
  }

  /** After one token the run, less its first token, is still what the parser sees. */
  lemma RunAfterAdvance(p: Parser, run: seq<Token>)
    requires Valid(p) && 1 < |run|
    requires forall j | 0 <= j < |run| :: TokenAt(p, j) == run[j]
    ensures forall j | 0 <= j < |run| - 1 :: TokenAt(Advance(p), j) == run[1..][j]
  {
    forall j | 0 <= j < |run| - 1 ensures TokenAt(Advance(p), j) == run[1..][j] {
      assert TokenAt(Advance(p), j) == TokenAt(p, j + 1);
    }
  }

  /** Parsing from `p` succeeds with `prog` and adds exactly `errs` to the errors. */
  ghost predicate ParsesTo(p: Parser, prog: Program, errs: seq<ParseError>)
    requires Valid(p)
  {
    var r := ParseProgram(p);
    r.Ok? && r.value == prog && r.state.errors == p.errors + errs
  }

  /** Every parser that sees exactly `ts` parses `prog` and adds `errs`. */
  ghost predicate ParsesTokens(ts: seq<Token>, prog: Program, errs: seq<ParseError>) {
    forall p: Parser | Sees(p, ts) :: ParsesTo(p, prog, errs)
  }

  /** No tokens: the empty program, and no errors. */
  lemma ParsesNothing()
    ensures ParsesTokens([], [], [])
  {
    forall p: Parser | Sees(p, []) ensures ParsesTo(p, [], []) {
      assert TokenAt(p, 0) == p.current;
    }
  }

  /** A parser that sees a statement and then more sees the statement first. */
  lemma SeesStatement(p: Parser, stmt: seq<Token>, rest: seq<Token>)
    requires Sees(p, stmt + rest)
    ensures forall j: nat | j < |stmt| :: TokenAt(p, j) == stmt[j]
  {
    forall j: nat | j < |stmt| ensures TokenAt(p, j) == stmt[j] {
      assert (stmt + rest)[j] == stmt[j];
    }
  }

  /** `n` tokens past a statement of `n` tokens, the parser sees what follows it. */
  lemma SeesRest(p: Parser, q: Parser, stmt: seq<Token>, rest: seq<Token>, n: nat)
    requires Sees(p, stmt + rest) && Valid(q) && Ahead(p, q, n) && n == |stmt|
    ensures Sees(q, rest)
  {
    SeesAhead(p, q, stmt + rest, n);
    assert (stmt + rest)[n..] == rest;
  }

  lemma LetOn(p: Parser, stmt: seq<Token>, rest: seq<Token>, prog: Program, errs: seq<ParseError>)
    requires Sees(p, stmt + rest)
    requires 4 <= |stmt| && stmt[0].kind == Let && stmt[1].kind == Ident && stmt[2].kind == Assign
    requires stmt[|stmt| - 1].kind == Semicolon
    requires forall j | 3 <= j < |stmt| - 1 :: stmt[j].kind != Semicolon
    requires ParsesTokens(rest, prog, errs)
    ensures ParsesTo(p, [LetNamed(stmt[0], stmt[1])] + prog, errs)
  {
    var k := |stmt| - 1;
    SeesStatement(p, stmt, rest);
    assert TokenAt(p, 0) == p.current;
    assert FirstSemicolonFrom(p, 3, k);
    LetStatementStep(p, k);
    var q := Advance(ParseStatement(p).state);
    SeesRest(p, q, stmt, rest, k + 1);
    ParseProgramKeepsOrder(p);
  }

  /** `let`, a name, `=`, anything without `;`, then `;`: a let statement for the name. */
  lemma ParsesLet(stmt: seq<Token>, rest: seq<Token>, prog: Program, errs: seq<ParseError>)
    requires 4 <= |stmt| && stmt[0].kind == Let && stmt[1].kind == Ident && stmt[2].kind == Assign
    requires stmt[|stmt| - 1].kind == Semicolon
    requires forall j | 3 <= j < |stmt| - 1 :: stmt[j].kind != Semicolon
    requires ParsesTokens(rest, prog, errs)
    ensures ParsesTokens(stmt + rest, [LetNamed(stmt[0], stmt[1])] + prog, errs)
  {
    forall p: Parser | Sees(p, stmt + rest) ensures ParsesTo(p, [LetNamed(stmt[0], stmt[1])] + prog, errs) {
      LetOn(p, stmt, rest, prog, errs);
    }
  }

  lemma ReturnOn(p: Parser, stmt: seq<Token>, rest: seq<Token>, prog: Program, errs: seq<ParseError>)
    requires Sees(p, stmt + rest)
    requires 2 <= |stmt| && stmt[0].kind == Return && stmt[|stmt| - 1].kind == Semicolon
    requires forall j | 1 <= j < |stmt| - 1 :: stmt[j].kind != Semicolon
    requires ParsesTokens(rest, prog, errs)
    ensures ParsesTo(p, [ReturnStatement(stmt[0], None)] + prog, errs)
  {
    var k := |stmt| - 1;
    SeesStatement(p, stmt, rest);
    assert TokenAt(p, 0) == p.current;
    assert FirstSemicolonFrom(p, 1, k);
    ReturnStatementStep(p, k);
    var q := Advance(ParseStatement(p).state);
    SeesRest(p, q, stmt, rest, k + 1);
    ParseProgramKeepsOrder(p);
  }

  /** `return`, anything without `;`, then `;`: a return statement. */
  lemma ParsesReturn(stmt: seq<Token>, rest: seq<Token>, prog: Program, errs: seq<ParseError>)
    requires 2 <= |stmt| && stmt[0].kind == Return && stmt[|stmt| - 1].kind == Semicolon
    requires forall j | 1 <= j < |stmt| - 1 :: stmt[j].kind != Semicolon
    requires ParsesTokens(rest, prog, errs)
    ensures ParsesTokens(stmt + rest, [ReturnStatement(stmt[0], None)] + prog, errs)
  {
    forall p: Parser | Sees(p, stmt + rest) ensures ParsesTo(p, [ReturnStatement(stmt[0], None)] + prog, errs) {
      ReturnOn(p, stmt, rest, prog, errs);
    }
  }

  /** Concatenation of error lists regroups freely. */
  lemma AppendAssoc(a: seq<ParseError>, b: seq<ParseError>, c: seq<ParseError>)
    ensures (a + b) + c == a + (b + c)
  {
  }

  /** One round of the program loop over an expression statement built from `run`. */
  lemma ExpressionValueStep(p: Parser, run: seq<Token>)
    requires Valid(p) && 0 < |run| && OperatorRun(p, |run| - 1)
    requires PrefixParseFn(run[|run| - 1].kind).Some?
    requires forall j | 0 <= j < |run| :: TokenAt(p, j) == run[j]
    requires TokenAt(p, |run|).kind == Semicolon
    ensures var s := ParseStatement(p);
      && s.Ok?
      && s.value == Some(ExpressionStatement(run[0], Some(ExpressionOf(run))))
      && Advance(s.state).errors == p.errors + IntErrors(run[|run| - 1])
      && Ahead(p, Advance(s.state), |run| + 1)
  {
    assert TokenAt(p, 0) == p.current;
    if |run| > 1 {
      assert IsPrefixOperator(TokenAt(p, 0).kind);
    }
    assert PrefixParseFn(p.current.kind).Some?;
    ExpressionStatementStep(p, |run| - 1);
    ParseExpressionValue(p, LOWEST, run);
  }

  lemma ExpressionOn(p: Parser, stmt: seq<Token>, rest: seq<Token>, prog: Program, errs: seq<ParseError>)
    requires Sees(p, stmt + rest) && 2 <= |stmt| && stmt[|stmt| - 1].kind == Semicolon
    requires forall j | 0 <= j < |stmt| - 2 :: IsPrefixOperator(stmt[j].kind)
    requires stmt[|stmt| - 2].kind == Ident || stmt[|stmt| - 2].kind == Int
    requires ParsesTokens(rest, prog, errs)
    ensures ParsesTo(p, [ExpressionStatement(stmt[0], Some(ExpressionOf(stmt[..|stmt| - 1])))] + prog,
                     IntErrors(stmt[|stmt| - 2]) + errs)
  {
    var k := |stmt| - 2;
    SeesStatement(p, stmt, rest);
    ExpressionValueStep(p, stmt[..k + 1]);
    var q := Advance(ParseStatement(p).state);
    SeesRest(p, q, stmt, rest, k + 2);
    AppendAssoc(p.errors, IntErrors(stmt[k]), errs);
    ParseProgramKeepsOrder(p);
  }

  /**
   Prefix operators, an identifier or integer, then `;`: an expression
   statement holding the expression those tokens stand for, and the overflow
   error if the integer does not fit in 64 bits.
   */
  lemma ParsesExpression(stmt: seq<Token>, rest: seq<Token>, prog: Program, errs: seq<ParseError>)
    requires 2 <= |stmt| && stmt[|stmt| - 1].kind == Semicolon
    requires forall j | 0 <= j < |stmt| - 2 :: IsPrefixOperator(stmt[j].kind)
    requires stmt[|stmt| - 2].kind == Ident || stmt[|stmt| - 2].kind == Int
    requires ParsesTokens(rest, prog, errs)
    ensures ParsesTokens(stmt + rest,
      [ExpressionStatement(stmt[0], Some(ExpressionOf(stmt[..|stmt| - 1])))] + prog,
      IntErrors(stmt[|stmt| - 2]) + errs)
  {
    forall p: Parser | Sees(p, stmt + rest)
      ensures ParsesTo(p, [ExpressionStatement(stmt[0], Some(ExpressionOf(stmt[..|stmt| - 1])))] + prog,
                       IntErrors(stmt[|stmt| - 2]) + errs)
    {
      ExpressionOn(p, stmt, rest, prog, errs);
    }
  }

  lemma LetWithoutNameOn(p: Parser, t: Token, rest: seq<Token>, prog: Program, errs: seq<ParseError>)
    requires Sees(p, [t] + rest) && t.kind == Let && First(rest).kind != Ident
    requires ParsesTokens(rest, prog, errs)
    ensures ParsesTo(p, prog, [PeekError(Ident, First(rest).kind)] + errs)
  {
    assert TokenAt(p, 0) == p.current == t;
    assert TokenAt(p, 1) == First(rest);
    LetMissingNameStep(p);
    var q := Advance(ParseStatement(p).state);
    SeesRest(p, q, [t], rest, 1);
    AppendAssoc(p.errors, [PeekError(Ident, First(rest).kind)], errs);
    ParseProgramSkipsFailures(p);
  }

  /** `let` not followed by a name: dropped, with a peek error. */
  lemma ParsesLetWithoutName(t: Token, rest: seq<Token>, prog: Program, errs: seq<ParseError>)
    requires t.kind == Let && First(rest).kind != Ident
    requires ParsesTokens(rest, prog, errs)
    ensures ParsesTokens([t] + rest, prog, [PeekError(Ident, First(rest).kind)] + errs)
  {
    forall p: Parser | Sees(p, [t] + rest) ensures ParsesTo(p, prog, [PeekError(Ident, First(rest).kind)] + errs) {
      LetWithoutNameOn(p, t, rest, prog, errs);
    }
  }

  lemma LetWithoutAssignOn(p: Parser, t: Token, name: Token, rest: seq<Token>, prog: Program, errs: seq<ParseError>)
    requires Sees(p, [t, name] + rest) && t.kind == Let && name.kind == Ident && First(rest).kind != Assign
    requires ParsesTokens(rest, prog, errs)
    ensures ParsesTo(p, prog, [PeekError(Assign, First(rest).kind)] + errs)
  {
    assert TokenAt(p, 0) == p.current == t;
    assert TokenAt(p, 1) == name && TokenAt(p, 2) == First(rest);
    LetMissingAssignStep(p);
    var q := Advance(ParseStatement(p).state);
    SeesRest(p, q, [t, name], rest, 2);
    AppendAssoc(p.errors, [PeekError(Assign, First(rest).kind)], errs);
    ParseProgramSkipsFailures(p);
  }

  /** `let` and a name not followed by `=`: dropped, with a peek error. */
  lemma ParsesLetWithoutAssign(t: Token, name: Token, rest: seq<Token>, prog: Program, errs: seq<ParseError>)
    requires t.kind == Let && name.kind == Ident && First(rest).kind != Assign
    requires ParsesTokens(rest, prog, errs)
    ensures ParsesTokens([t, name] + rest, prog, [PeekError(Assign, First(rest).kind)] + errs)
  {
    forall p: Parser | Sees(p, [t, name] + rest) ensures ParsesTo(p, prog, [PeekError(Assign, First(rest).kind)] + errs) {
      LetWithoutAssignOn(p, t, name, rest, prog, errs);
    }
  }

  lemma WithoutPrefixOn(p: Parser, t: Token, rest: seq<Token>, prog: Program, errs: seq<ParseError>)
    requires Sees(p, [t] + rest) && t.kind != Eof && t.kind != Let && t.kind != Return && PrefixParseFn(t.kind).None?
    requires First(rest).kind != Semicolon
    requires ParsesTokens(rest, prog, errs)
    ensures ParsesTo(p, [ExpressionStatement(t, None)] + prog, [NoPrefix(t.kind)] + errs)
  {
    assert TokenAt(p, 0) == p.current == t;
    assert TokenAt(p, 1) == First(rest);
    NoPrefixStep(p);
    var q := Advance(ParseStatement(p).state);
    SeesRest(p, q, [t], rest, 1);
    AppendAssoc(p.errors, [NoPrefix(t.kind)], errs);
    ParseProgramKeepsOrder(p);
  }

  /** A token that cannot begin an expression, not followed by `;`: an
      expression statement without an expression, and a NoPrefix error. */
  lemma ParsesWithoutPrefix(t: Token, rest: seq<Token>, prog: Program, errs: seq<ParseError>)
    requires t.kind != Eof && t.kind != Let && t.kind != Return && PrefixParseFn(t.kind).None?
    requires First(rest).kind != Semicolon
    requires ParsesTokens(rest, prog, errs)
    ensures ParsesTokens([t] + rest, [ExpressionStatement(t, None)] + prog, [NoPrefix(t.kind)] + errs)
  {
    forall p: Parser | Sees(p, [t] + rest) ensures ParsesTo(p, [ExpressionStatement(t, None)] + prog, [NoPrefix(t.kind)] + errs) {
      WithoutPrefixOn(p, t, rest, prog, errs);
    }
  }
}
