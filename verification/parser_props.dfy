/**
 Properties of the parser stated over the token stream it reads: where the
 skip loops stop and when they never do, what a let or return statement
 consumes, exactly when a prefix expression panics, and that an expression
 holds the tokens it was parsed from.
 */
module ParserProperties {
  import opened Optional
  import opened Tokens
  import opened Decimal
  import Lexing
  import opened Ast
  import opened Parsing

  lemma AheadNone(p: Parser)
    requires Valid(p)
    ensures Ahead(p, p, 0)
  {
  }

  lemma AheadTrans(p: Parser, q: Parser, r: Parser, a: nat, b: nat)
    requires Valid(p) && Valid(q) && Valid(r)
    requires Ahead(p, q, a) && Ahead(q, r, b)
    ensures Ahead(p, r, a + b)
  {
    forall i: nat ensures TokenAt(r, i) == TokenAt(p, i + (a + b)) {
      assert TokenAt(r, i) == TokenAt(q, i + b);
      assert TokenAt(q, i + b) == TokenAt(p, i + b + a);
    }
  }

  /** AheadTrans with the total given, so that it matches a goal stated in it. */
  lemma AheadThen(p: Parser, q: Parser, r: Parser, a: nat, n: nat)
    requires Valid(p) && Valid(q) && Valid(r) && a <= n
    requires Ahead(p, q, a) && Ahead(q, r, n - a)
    ensures Ahead(p, r, n)
  {
    AheadTrans(p, q, r, a, n - a);
  }

  /** One token on, and `n - 1` more, is `n` tokens on. */
  lemma AheadStep(p: Parser, r: Parser, n: nat)
    requires Valid(p) && Valid(r) && 0 < n && Ahead(Advance(p), r, n - 1)
    ensures Ahead(p, r, n)
  {
    AheadThen(p, Advance(p), r, 1, n);
  }

  /** The errors recorded play no part in what the parser sees. */
  lemma AheadErrors(p: Parser, q: Parser, n: nat, errors: seq<ParseError>)
    requires Valid(p) && Valid(q) && Ahead(p, q, n)
    ensures Valid(q.(errors := errors)) && Ahead(p, q.(errors := errors), n)
  {
    var r := q.(errors := errors);
    assert Window(r) == Window(q);
    forall i: nat ensures TokenAt(r, i) == TokenAt(p, i + n) {
      assert TokenAt(r, i) == TokenAt(q, i);
    }
  }

  /** No `;` at or after index `from`. */
  ghost predicate NoSemicolonFrom(p: Parser, from: nat)
    requires Valid(p)
  {
    forall i: nat | from <= i :: TokenAt(p, i).kind != Semicolon
  }

  /** `k` is the first `;` at or after index `from`. */
  ghost predicate FirstSemicolonFrom(p: Parser, from: nat, k: nat)
    requires Valid(p)
  {
    && from <= k
    && TokenAt(p, k).kind == Semicolon
    && forall j: nat | from <= j < k :: TokenAt(p, j).kind != Semicolon
  }

  /** The index of the first `;` in a token sequence, or its length if none. */
  function FirstSemicolon(w: seq<Token>): (k: nat)
    ensures k <= |w|
    ensures forall j | 0 <= j < k :: w[j].kind != Semicolon
    ensures k < |w| ==> w[k].kind == Semicolon
  {
    if |w| == 0 then 0
    else if w[0].kind == Semicolon then 0
    else 1 + FirstSemicolon(w[1..])
  }

  /** Either a first `;` lies ahead at or after `from`, or none does. */
  lemma SemicolonOrNot(p: Parser, from: nat)
    requires Valid(p)
    ensures NoSemicolonFrom(p, from) || exists k :: FirstSemicolonFrom(p, from, k)
  {
    var w := Window(p);
    if from < |w| {
      var k := from + FirstSemicolon(w[from..]);
      if k < |w| {
        assert TokenAt(p, k) == w[k];
        forall j: nat | from <= j < k ensures TokenAt(p, j).kind != Semicolon {
          assert TokenAt(p, j) == w[from..][j - from];
        }
        assert FirstSemicolonFrom(p, from, k);
      } else {
        forall i: nat | from <= i ensures TokenAt(p, i).kind != Semicolon {
          if i < |w| {
            assert TokenAt(p, i) == w[from..][i - from];
          }
        }
      }
    }
  }

  /** Away from a `;` the skip loop takes one step, one token nearer to the `;`. */
  lemma SkipStep(p: Parser, k: nat)
    requires Valid(p) && FirstSemicolonFrom(p, 0, k) && 0 < k
    ensures SkipToSemicolon(p) == SkipToSemicolon(Advance(p))
    ensures FirstSemicolonFrom(Advance(p), 0, k - 1)
  {
    assert TokenAt(p, 0) == p.current;
    var w := Window(p);
    assert k < |w| && w[k] == TokenAt(p, k);
    var q := Advance(p);
    assert TokenAt(q, k - 1) == TokenAt(p, k);
    forall j: nat | j < k - 1 ensures TokenAt(q, j).kind != Semicolon {
      assert TokenAt(q, j) == TokenAt(p, j + 1);
    }
  }

  /** The skip loop stops on the first `;`, `k` tokens further on. */
  lemma {:induction false} SkipLands(p: Parser, k: nat)
    requires Valid(p) && FirstSemicolonFrom(p, 0, k)
    ensures SkipToSemicolon(p).Ok?
    ensures Ahead(p, SkipToSemicolon(p).state, k)
    decreases k
  {
    if k == 0 {
      assert TokenAt(p, 0) == p.current;
      AheadNone(p);
    } else {
      SkipStep(p, k);
      SkipLands(Advance(p), k - 1);
      AheadStep(p, SkipToSemicolon(p).state, k);
    }
  }

  /** With no `;` left the skip loop never ends. */
  lemma SkipDiverges(p: Parser)
    requires Valid(p) && NoSemicolonFrom(p, 0)
    ensures SkipToSemicolon(p).Diverged?
  {
    assert TokenAt(p, 0) == p.current;
    var w := Window(p);
    forall i | 0 <= i < |w| ensures w[i].kind != Semicolon {
      assert TokenAt(p, i) == w[i];
    }
  }

  /** The skip loop diverges exactly when no `;` lies ahead. */
  lemma SkipToSemicolonDiverges(p: Parser)
    requires Valid(p)
    ensures SkipToSemicolon(p).Diverged? <==> NoSemicolonFrom(p, 0)
  {
    SemicolonOrNot(p, 0);
    if NoSemicolonFrom(p, 0) {
      SkipDiverges(p);
    } else {
      var k :| FirstSemicolonFrom(p, 0, k);
      SkipLands(p, k);
    }
  }

  lemma ShiftFirstSemicolon(p: Parser, q: Parser, n: nat, from: nat, k: nat)
    requires Valid(p) && Valid(q) && Ahead(p, q, n) && n <= from
    requires FirstSemicolonFrom(p, from, k)
    ensures FirstSemicolonFrom(q, from - n, k - n)
  {
    assert TokenAt(q, k - n) == TokenAt(p, k);
    forall j: nat | from - n <= j < k - n ensures TokenAt(q, j).kind != Semicolon {
      assert TokenAt(q, j) == TokenAt(p, j + n);
    }
  }

  lemma ShiftNoSemicolon(p: Parser, q: Parser, n: nat, from: nat)
    requires Valid(p) && Valid(q) && Ahead(p, q, n) && n <= from
    ensures NoSemicolonFrom(q, from - n) <==> NoSemicolonFrom(p, from)
  {
    if NoSemicolonFrom(p, from) {
      forall i: nat | from - n <= i ensures TokenAt(q, i).kind != Semicolon {
        assert TokenAt(q, i) == TokenAt(p, i + n);
      }
    }
    if NoSemicolonFrom(q, from - n) {
      forall i: nat | from <= i ensures TokenAt(p, i).kind != Semicolon {
        assert TokenAt(q, i - n) == TokenAt(p, i);
      }
    }
  }

  /** A let statement without a name is dropped with one peek error, and the
      parser does not move. */
  lemma ParseLetNoName(p: Parser)
    requires Valid(p) && TokenAt(p, 1).kind != Ident
    ensures ParseLetStatement(p) == Ok(p.(errors := p.errors + [PeekError(Ident, TokenAt(p, 1).kind)]), None)
  {
    assert TokenAt(p, 1) == p.peek;
  }

  /** A let statement with a name but no `=` is dropped with one peek error,
      and the parser stops on the name. */
  lemma ParseLetNoAssign(p: Parser)
    requires Valid(p) && TokenAt(p, 1).kind == Ident && TokenAt(p, 2).kind != Assign
    ensures var r := ParseLetStatement(p);
      && r.Ok? && r.value.None?
      && r.state.errors == p.errors + [PeekError(Assign, TokenAt(p, 2).kind)]
      && Ahead(p, r.state, 1)
  {
    assert TokenAt(p, 1) == p.peek;
    var p1 := Advance(p);
    assert TokenAt(p1, 1) == TokenAt(p, 2);
    AheadErrors(p, p1, 1, p1.errors + [PeekError(Assign, p1.peek.kind)]);
  }

  /** A let statement with a name and `=` never ends unless a `;` follows. */
  lemma ParseLetDiverges(p: Parser)
    requires Valid(p) && TokenAt(p, 1).kind == Ident && TokenAt(p, 2).kind == Assign
    ensures ParseLetStatement(p).Diverged? <==> NoSemicolonFrom(p, 3)
  {
    assert TokenAt(p, 1) == p.peek;
    var p1 := Advance(p);
    assert TokenAt(p1, 1) == TokenAt(p, 2);
    var p2 := Advance(p1);
    AheadTrans(p, p1, p2, 1, 1);
    SkipToSemicolonDiverges(p2);
    ShiftNoSemicolon(p, p2, 2, 3);
    assert TokenAt(p2, 0) == TokenAt(p, 2);
    assert NoSemicolonFrom(p2, 0) <==> NoSemicolonFrom(p2, 1);
  }

  /** A let statement with a `;` after its `=` is kept, named by the
      identifier, and leaves the parser on the first such `;`. */
  lemma ParseLetLands(p: Parser, k: nat)
    requires Valid(p)
    requires TokenAt(p, 1).kind == Ident && TokenAt(p, 2).kind == Assign
    requires FirstSemicolonFrom(p, 3, k)
    ensures var r := ParseLetStatement(p);
      && r.Ok?
      && r.value == Some(LetStatement(p.current, Identifier(TokenAt(p, 1), TokenAt(p, 1).literal), None))
      && r.state.errors == p.errors
      && Ahead(p, r.state, k)
  {
    LetSkipLands(p, k);
    ParseLetShape(p);
  }

  /** The skip loop started after the `=` stops on the first `;` after it. */
  lemma LetSkipLands(p: Parser, k: nat)
    requires Valid(p) && TokenAt(p, 2).kind == Assign && FirstSemicolonFrom(p, 3, k)
    ensures var s := SkipToSemicolon(Advance(Advance(p)));
      s.Ok? && Ahead(p, s.state, k)
  {
    var p1 := Advance(p);
    var p2 := Advance(p1);
    AheadThen(p, p1, p2, 1, 2);
    assert FirstSemicolonFrom(p2, 0, k - 2) by {
      ShiftFirstSemicolon(p, p2, 2, 3, k);
      assert TokenAt(p2, 0) == TokenAt(p, 2);
    }
    SkipLands(p2, k - 2);
    AheadThen(p, p2, SkipToSemicolon(p2).state, 2, k);
  }

  /** With a name and `=`, a let statement ends where the skip loop does. */
  lemma ParseLetShape(p: Parser)
    requires Valid(p)
    requires TokenAt(p, 1).kind == Ident && TokenAt(p, 2).kind == Assign
    ensures var s := SkipToSemicolon(Advance(Advance(p)));
      s.Ok? ==> (ParseLetStatement(p) ==
        Ok(s.state, Some(LetStatement(p.current, Identifier(TokenAt(p, 1), TokenAt(p, 1).literal), None))))
  {
    var p1 := Advance(p);
    var p2 := Advance(p1);
    assert TokenAt(p, 1) == p.peek;
    assert ExpectPeek(p, Ident) == (p1, true);
    assert TokenAt(p, 2) == TokenAt(p1, 1) == p1.peek;
    assert ExpectPeek(p1, Assign) == (p2, true);
  }


  /** A return statement never ends unless a `;` follows the `return`. */
  lemma ParseReturnDiverges(p: Parser)
    requires Valid(p)
    ensures ParseReturnStatement(p).Diverged? <==> NoSemicolonFrom(p, 1)
  {
    var q := Advance(p);
    SkipToSemicolonDiverges(q);
    ShiftNoSemicolon(p, q, 1, 1);
  }

  /** A return statement leaves the parser on the first `;` after `return`. */
  lemma ParseReturnLands(p: Parser, k: nat)
    requires Valid(p) && FirstSemicolonFrom(p, 1, k)
    ensures var r := ParseReturnStatement(p);
      && r.Ok?
      && r.value == Some(ReturnStatement(p.current, None))
      && r.state.errors == p.errors
      && Ahead(p, r.state, k)
  {
    ReturnSkipLands(p, k);
  }

  /** The skip loop started after `return` stops on the first `;` after it. */
  lemma ReturnSkipLands(p: Parser, k: nat)
    requires Valid(p) && FirstSemicolonFrom(p, 1, k)
    ensures var s := SkipToSemicolon(Advance(p));
      s.Ok? && Ahead(p, s.state, k)
  {
    var q := Advance(p);
    ShiftFirstSemicolon(p, q, 1, 1, k);
    SkipLands(q, k - 1);
    AheadStep(p, SkipToSemicolon(q).state, k);
  }

  predicate IsPrefixOperator(k: TokenType) {
    k == Bang || k == Minus
  }

  /** The tokens ahead start with exactly `k` prefix operators. */
  ghost predicate OperatorRun(p: Parser, k: nat)
    requires Valid(p)
  {
    && (forall j: nat | j < k :: IsPrefixOperator(TokenAt(p, j).kind))
    && !IsPrefixOperator(TokenAt(p, k).kind)
  }

  /** The error an integer literal token adds: one when it does not fit in 64 bits. */
  function IntErrors(t: Token): seq<ParseError> {
    if t.kind == Int && ParseI64(t.literal).None? then [IntParse(t.literal)] else []
  }

  /** Advancing over a leading prefix operator leaves a run one shorter. */
  lemma OperatorRunStep(p: Parser, k: nat)
    requires Valid(p) && OperatorRun(p, k) && 0 < k
    ensures OperatorRun(Advance(p), k - 1)
    ensures TokenAt(Advance(p), k - 1) == TokenAt(p, k)
  {
    var q := Advance(p);
    assert TokenAt(q, k - 1) == TokenAt(p, k);
    forall j: nat | j < k - 1 ensures IsPrefixOperator(TokenAt(q, j).kind) {
      assert TokenAt(q, j) == TokenAt(p, j + 1);
    }
  }

  /**
   `parse_expression` after `k` prefix operators: the token after them (the
   operand) decides the outcome. Without a prefix function for it the parse
   records NoPrefix when k is 0 and panics otherwise.
   */
  lemma {:induction false} ParseExpressionPanics(p: Parser, precedence: int, k: nat)
    requires Valid(p) && OperatorRun(p, k)
    ensures var r := ParseExpression(p, precedence);
      var operand := TokenAt(p, k);
      && (r.Panicked? <==> 0 < k && PrefixParseFn(operand.kind).None?)
      && (r.Ok? && r.value.None? <==> k == 0 && PrefixParseFn(operand.kind).None?)
    decreases k
  {
    if k == 0 {
      OperandPanics(p, precedence);
    } else {
      assert TokenAt(p, 0) == p.current;
      OperatorRunStep(p, k);
      ParseExpressionPanics(Advance(p), PREFIX, k - 1);
      PrefixPanicsStep(p, precedence, k, TokenAt(p, k).kind);
    }
  }

  /** The base of ParseExpressionPanics: an operand never panics, and without a
      prefix function it yields nothing. */
  lemma OperandPanics(p: Parser, precedence: int)
    requires Valid(p) && !IsPrefixOperator(TokenAt(p, 0).kind)
    ensures var r := ParseExpression(p, precedence);
      && !r.Panicked?
      && (r.Ok? && r.value.None? <==> PrefixParseFn(TokenAt(p, 0).kind).None?)
  {
    assert TokenAt(p, 0) == p.current;
  }

  /** The step of ParseExpressionPanics: an operator panics exactly when the
      operand `t` after the whole run has no prefix function. */
  lemma PrefixPanicsStep(p: Parser, precedence: int, k: nat, t: TokenType)
    requires Valid(p) && IsPrefixOperator(p.current.kind) && 0 < k
    requires var right := ParseExpression(Advance(p), PREFIX);
      && (right.Panicked? <==> 0 < k - 1 && PrefixParseFn(t).None?)
      && (right.Ok? && right.value.None? <==> k - 1 == 0 && PrefixParseFn(t).None?)
    ensures var r := ParseExpression(p, precedence);
      && (r.Panicked? <==> PrefixParseFn(t).None?)
      && !(r.Ok? && r.value.None?)
  {
    PrefixStep(p, precedence);
  }

  /** A prefix operator panics exactly when its operand panics or is absent,
      and otherwise always yields an expression. */
  lemma PrefixStep(p: Parser, precedence: int)
    requires Valid(p) && IsPrefixOperator(p.current.kind)
    ensures var r := ParseExpression(p, precedence);
      var right := ParseExpression(Advance(p), PREFIX);
      && (r.Panicked? <==> right.Panicked? || (right.Ok? && right.value.None?))
      && (r.Ok? ==> r.value.Some?)
  {
  }

  /** A prefix operator whose operand parses wraps the operand in a prefix node. */
  lemma PrefixBuilds(p: Parser, precedence: int)
    requires Valid(p) && IsPrefixOperator(p.current.kind)
    requires ParseExpression(Advance(p), PREFIX).Ok? && ParseExpression(Advance(p), PREFIX).value.Some?
    ensures var right := ParseExpression(Advance(p), PREFIX);
      ParseExpression(p, precedence) ==
        Ok(right.state, Some(PrefixExpression(p.current, p.current.literal, right.value.value)))
  {
  }

  /**
   With a prefix function for the operand, the expression parses, the parser
   stops on the operand, and the only error possible is the operand's integer
   overflow.
   */
  lemma {:induction false} ParseExpressionLands(p: Parser, precedence: int, k: nat)
    requires Valid(p) && OperatorRun(p, k) && PrefixParseFn(TokenAt(p, k).kind).Some?
    ensures var r := ParseExpression(p, precedence);
      && r.Ok? && r.value.Some?
      && Ahead(p, r.state, k)
      && r.state.errors == p.errors + IntErrors(TokenAt(p, k))
    decreases k
  {
    assert TokenAt(p, 0) == p.current;
    if k == 0 {
      AheadNone(p);
      if p.current.kind == Int {
        ParseDigitRun(p.current.literal);
      }
    } else {
      OperatorRunStep(p, k);
      var q := Advance(p);
      ParseExpressionLands(q, PREFIX, k - 1);
      PrefixLandsStep(p, precedence);
      AheadStep(p, ParseExpression(p, precedence).state, k);
    }
  }

  /** The step of ParseExpressionLands: an operator lands where its operand does. */
  lemma PrefixLandsStep(p: Parser, precedence: int)
    requires Valid(p) && IsPrefixOperator(p.current.kind)
    requires ParseExpression(Advance(p), PREFIX).Ok? && ParseExpression(Advance(p), PREFIX).value.Some?
    ensures ParseExpression(p, precedence).Ok? && ParseExpression(p, precedence).value.Some?
    ensures ParseExpression(p, precedence).state == ParseExpression(Advance(p), PREFIX).state
  {
    PrefixBuilds(p, precedence);
  }

  /** The expression is built from exactly the `k + 1` tokens of the run and its operand. */
  lemma {:induction false} ParseExpressionTokens(p: Parser, precedence: int, k: nat)
    requires Valid(p) && OperatorRun(p, k) && PrefixParseFn(TokenAt(p, k).kind).Some?
    ensures var r := ParseExpression(p, precedence);
      && r.Ok? && r.value.Some?
      && |r.value.value.Tokens()| == k + 1
      && (forall j | 0 <= j <= k :: r.value.value.Tokens()[j] == TokenAt(p, j))
    decreases k
  {
    assert TokenAt(p, 0) == p.current;
    if k > 0 {
      OperatorRunStep(p, k);
      ParseExpressionTokens(Advance(p), PREFIX, k - 1);
      PrefixTokensStep(p, precedence, k);
    }
  }

  /** The step of ParseExpressionTokens: an operator puts its own token in front of its operand's. */
  lemma PrefixTokensStep(p: Parser, precedence: int, k: nat)
    requires Valid(p) && IsPrefixOperator(p.current.kind) && 0 < k
    requires var right := ParseExpression(Advance(p), PREFIX);
      && right.Ok? && right.value.Some?
      && |right.value.value.Tokens()| == k
      && (forall j | 0 <= j < k :: right.value.value.Tokens()[j] == TokenAt(Advance(p), j))
    ensures var r := ParseExpression(p, precedence);
      && r.Ok? && r.value.Some?
      && |r.value.value.Tokens()| == k + 1
      && (forall j | 0 <= j <= k :: r.value.value.Tokens()[j] == TokenAt(p, j))
  {
    var q := Advance(p);
    var right := ParseExpression(q, PREFIX).value.value;
    PrefixBuilds(p, precedence);
    var ts := PrefixExpression(p.current, p.current.literal, right).Tokens();
    assert ts == [p.current] + right.Tokens();
    assert TokenAt(p, 0) == p.current;
    forall j | 0 < j <= k ensures ts[j] == TokenAt(p, j) {
      assert TokenAt(q, j - 1) == TokenAt(p, j);
    }
  }

  /** The precedence argument has no effect, since no infix operator is parsed. */
  lemma ParseExpressionIgnoresPrecedence(p: Parser, a: int, b: int)
    requires Valid(p)
    ensures ParseExpression(p, a) == ParseExpression(p, b)
  {
  }

  /**
   An expression statement: it is kept even when its expression is absent,
   and it steps onto a trailing `;` only when the token after the expression
   is one.
   */
  lemma ExpressionStatementSemicolon(p: Parser, k: nat)
    requires Valid(p) && OperatorRun(p, k) && PrefixParseFn(TokenAt(p, k).kind).Some?
    ensures var r := ParseExpressionStatement(p);
      && r.Ok?
      && r.value.value.expression.Some?
      && (TokenAt(p, k + 1).kind == Semicolon ==> Ahead(p, r.state, k + 1))
      && (TokenAt(p, k + 1).kind != Semicolon ==> Ahead(p, r.state, k))
  {
    ParseExpressionLands(p, LOWEST, k);
    var e := ParseExpression(p, LOWEST);
    assert TokenAt(e.state, 1) == TokenAt(p, k + 1);
    if e.state.peek.kind == Semicolon {
      AheadTrans(p, e.state, Advance(e.state), k, 1);
    }
  }

  /** An expression statement with no prefix function keeps the statement, with
      no expression, and records one NoPrefix error. */
  lemma ExpressionStatementNoPrefix(p: Parser)
    requires Valid(p) && PrefixParseFn(p.current.kind).None?
    ensures var r := ParseExpressionStatement(p);
      && r.Ok?
      && r.value == Some(ExpressionStatement(p.current, None))
      && r.state.errors == p.errors + [NoPrefix(p.current.kind)]
  {
  }

  /** The literal of a parsed let or return statement is the keyword itself. */
  lemma StatementLiteral(s: Statement)
    requires WellFormedStmt(s)
    ensures s.LetStatement? ==> s.TokenLiteral() == Spelling(Let).value
    ensures s.ReturnStatement? ==> s.TokenLiteral() == Spelling(Return).value
  {
  }

  /**
   Step lemma: one round of the program loop in which the statement fails to
   parse. It is dropped and the loop goes on. Whole token sequences are
   covered by `ProgramProperties`.
   */
  lemma ParseProgramSkipsFailures(p: Parser)
    requires Valid(p) && p.current.kind != Eof
    requires ParseStatement(p).Ok? && ParseStatement(p).value.None?
    ensures ParseProgram(p) == ParseProgram(Advance(ParseStatement(p).state))
  {
    DropNothing(ParseProgram(Advance(ParseStatement(p).state)));
  }

  /** Putting no statements in front of an outcome leaves it as it is. */
  lemma DropNothing(r: Outcome<Program>)
    ensures r.Ok? ==> Ok(r.state, [] + r.value) == r
    ensures !r.Ok? ==> r.Propagate() == r
  {
    if r.Ok? {
      assert [] + r.value == r.value;
    }
  }

  /**
   Step lemma: one round of the program loop in which the statement parses.
   It becomes the first statement of the program, ahead of all later ones.
   */
  lemma ParseProgramKeepsOrder(p: Parser)
    requires Valid(p) && p.current.kind != Eof
    requires ParseStatement(p).Ok? && ParseStatement(p).value.Some?
    requires ParseProgram(Advance(ParseStatement(p).state)).Ok?
    ensures ParseProgram(p).Ok?
    ensures ParseProgram(p).value ==
      [ParseStatement(p).value.value] + ParseProgram(Advance(ParseStatement(p).state)).value
  {
  }

  /**
   One round of the program loop over a complete let statement: the
   statement is kept, no error is added, and the loop resumes on the token
   after its `;`.
   */
  lemma LetStatementStep(p: Parser, k: nat)
    requires Valid(p) && p.current.kind == Let
    requires TokenAt(p, 1).kind == Ident && TokenAt(p, 2).kind == Assign
    requires FirstSemicolonFrom(p, 3, k)
    ensures var s := ParseStatement(p);
      && s.Ok?
      && s.value == Some(LetStatement(p.current, Identifier(TokenAt(p, 1), TokenAt(p, 1).literal), None))
      && Advance(s.state).errors == p.errors
      && Ahead(p, Advance(s.state), k + 1)
  {
    ParseLetLands(p, k);
    var s := ParseLetStatement(p);
    assert ParseStatement(p) == s;
    AheadThen(p, s.state, Advance(s.state), k, k + 1);
  }

  /** One round of the program loop over a return statement that has a `;`. */
  lemma ReturnStatementStep(p: Parser, k: nat)
    requires Valid(p) && p.current.kind == Return
    requires FirstSemicolonFrom(p, 1, k)
    ensures var s := ParseStatement(p);
      && s.Ok?
      && s.value == Some(ReturnStatement(p.current, None))
      && Advance(s.state).errors == p.errors
      && Ahead(p, Advance(s.state), k + 1)
  {
    ParseReturnLands(p, k);
    var s := ParseReturnStatement(p);
    assert ParseStatement(p) == s;
    AheadThen(p, s.state, Advance(s.state), k, k + 1);
  }

  /**
   One round of the program loop over an expression statement closed by a
   `;`: `k` prefix operators, an operand, the `;`, and the loop resumes on the
   token after it.
   */
  lemma ExpressionStatementStep(p: Parser, k: nat)
    requires Valid(p) && p.current.kind != Let && p.current.kind != Return
    requires OperatorRun(p, k) && PrefixParseFn(TokenAt(p, k).kind).Some?
    requires TokenAt(p, k + 1).kind == Semicolon
    ensures var s := ParseStatement(p);
      && s.Ok?
      && s.value == Some(ExpressionStatement(p.current, ParseExpression(p, LOWEST).value))
      && Advance(s.state).errors == p.errors + IntErrors(TokenAt(p, k))
      && Ahead(p, Advance(s.state), k + 2)
  {
    ParseExpressionLands(p, LOWEST, k);
    ExpressionStatementSemicolon(p, k);
    var s := ParseExpressionStatement(p);
    assert ParseStatement(p) == s;
    AheadThen(p, s.state, Advance(s.state), k + 1, k + 2);
  }

  /** The parser sees exactly `ts`, then Eof forever. */
  ghost predicate Sees(p: Parser, ts: seq<Token>) {
    Valid(p) && forall i: nat :: TokenAt(p, i) == (if i < |ts| then ts[i] else EOF_TOKEN)
  }

  /** A parser `n` tokens further on sees what is left of the tokens. */
  lemma SeesAhead(p: Parser, q: Parser, ts: seq<Token>, n: nat)
    requires Sees(p, ts) && Valid(q) && Ahead(p, q, n) && n <= |ts|
    ensures Sees(q, ts[n..])
  {
    forall i: nat ensures TokenAt(q, i) == (if i < |ts[n..]| then ts[n..][i] else EOF_TOKEN) {
      assert TokenAt(q, i) == TokenAt(p, i + n);
    }
  }

  /** A parser started on a text sees exactly the text's tokens, then Eof forever. */
  lemma StartsOn(input: seq<Byte>, ts: seq<Token>, spans: seq<(nat, nat)>)
    requires Lexing.Tokenizes(input, 0, ts, spans)
    ensures Sees(New(Lexing.New(input)), ts)
  {
    Lexing.TokenizesStream(Lexing.New(input), ts, spans);
  }

  /** One round of the program loop over `let` without a name: the statement is
      dropped with a peek error and the loop resumes on the token after `let`. */
  lemma LetMissingNameStep(p: Parser)
    requires Valid(p) && p.current.kind == Let && TokenAt(p, 1).kind != Ident
    ensures var s := ParseStatement(p);
      && s.Ok? && s.value.None?
      && Advance(s.state).errors == p.errors + [PeekError(Ident, TokenAt(p, 1).kind)]
      && Ahead(p, Advance(s.state), 1)
  {
    ParseLetNoName(p);
  }

  /** One round of the program loop over `let` and a name without `=`: the
      statement is dropped with a peek error and the loop resumes after the name. */
  lemma LetMissingAssignStep(p: Parser)
    requires Valid(p) && p.current.kind == Let
    requires TokenAt(p, 1).kind == Ident && TokenAt(p, 2).kind != Assign
    ensures var s := ParseStatement(p);
      && s.Ok? && s.value.None?
      && Advance(s.state).errors == p.errors + [PeekError(Assign, TokenAt(p, 2).kind)]
      && Ahead(p, Advance(s.state), 2)
  {
    ParseLetNoAssign(p);
    var s := ParseLetStatement(p);
    AheadTrans(p, s.state, Advance(s.state), 1, 1);
  }

  /** One round of the program loop over a token that cannot begin an
      expression: an expression statement without an expression is kept, with
      a NoPrefix error, and the loop resumes on the next token, or past it if it
      is a `;`. */
  lemma NoPrefixStep(p: Parser)
    requires Valid(p) && p.current.kind != Let && p.current.kind != Return
    requires PrefixParseFn(p.current.kind).None?
    ensures var s := ParseStatement(p);
      && s.Ok?
      && s.value == Some(ExpressionStatement(p.current, None))
      && Advance(s.state).errors == p.errors + [NoPrefix(p.current.kind)]
      && Ahead(p, Advance(s.state), if TokenAt(p, 1).kind == Semicolon then 2 else 1)
  {
    var e := p.(errors := p.errors + [NoPrefix(p.current.kind)]);
    NoPrefixStatement(p);
    AheadNone(p);
    AheadErrors(p, p, 0, e.errors);
    var e1 := Advance(e);
    AheadTrans(p, e, e1, 0, 1);
    if TokenAt(p, 1).kind == Semicolon {
      AheadTrans(p, e1, Advance(e1), 1, 1);
    }
  }

  /** The statement a token without a prefix function gives, and where it leaves the parser. */
  lemma NoPrefixStatement(p: Parser)
    requires Valid(p) && p.current.kind != Let && p.current.kind != Return
    requires PrefixParseFn(p.current.kind).None?
    ensures var e := p.(errors := p.errors + [NoPrefix(p.current.kind)]);
      ParseStatement(p) ==
        Ok(if TokenAt(p, 1).kind == Semicolon then Advance(e) else e, Some(ExpressionStatement(p.current, None)))
  {
    assert TokenAt(p, 1) == p.peek;
  }

  /**
   Step lemma: one round of the program loop in which the statement panics or
   never ends. The whole program does the same.
   */
  lemma ParseProgramAborts(p: Parser)
    requires Valid(p) && p.current.kind != Eof && !ParseStatement(p).Ok?
    ensures ParseProgram(p).Panicked? <==> ParseStatement(p).Panicked?
    ensures ParseProgram(p).Diverged? <==> ParseStatement(p).Diverged?
  {
  }

  /** A `return` with no `;` anywhere after it: the whole parse never ends. */
  lemma ReturnDivergesProgram(p: Parser)
    requires Valid(p) && p.current.kind == Return && NoSemicolonFrom(p, 1)
    ensures ParseProgram(p).Diverged?
  {
    ParseReturnDiverges(p);
    ParseProgramAborts(p);
  }
}
