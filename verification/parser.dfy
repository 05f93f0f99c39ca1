/**
 The Pratt-style parser. Its state is the lexer it drives, a two-token
 window (the current token and the peek token) and a list of errors that
 only grows. Every parsing step is a pure function from one state to the
 next. Two behaviours of the code that are not values in the source become
 values here: the `unwrap` in the prefix-expression parser, which panics
 (Panicked), and the skip-to-semicolon loops, which never end when no `;`
 is left (Diverged).
 */
module Parsing {
  import opened Optional
  import opened Tokens
  import opened Decimal
  import Lexing
  import opened Ast

  // Operator precedences, lowest first.
  const LOWEST: int := 1
  const EQUALS: int := 2       // == and !=
  const LESSGREATER: int := 3  // < and >
  const SUM: int := 4          // + and -
  const PRODUCT: int := 5      // * and /
  const PREFIX: int := 6       // -x and !x
  const CALL: int := 7         // f(x)

  datatype ParseError =
    | PeekError(expected: TokenType, got: TokenType)
    | NoPrefix(kind: TokenType)
    | IntParse(literal: seq<Byte>)

  datatype Parser = Parser(lexer: Lexing.Lexer, current: Token, peek: Token, errors: seq<ParseError>)

  /** The result of a parsing step: the new state and a value, or one of the
      two ways the source's parse never returns. */
  datatype Outcome<T> = Ok(state: Parser, value: T) | Panicked | Diverged
  {
    function Propagate<U>(): (r: Outcome<U>)
      requires !Ok?
      ensures r.Panicked? <==> Panicked?
      ensures r.Diverged? <==> Diverged?
    {
      if Panicked? then Panicked else Diverged
    }
  }

  predicate Valid(p: Parser) {
    Lexing.Valid(p.lexer) && WellFormedToken(p.current) && WellFormedToken(p.peek)
  }

  /** The tokens the parser will see from now on: the window, then the rest of
      the lexer's stream. */
  function Window(p: Parser): (w: seq<Token>)
    requires Valid(p)
    ensures 2 <= |w| && w[0] == p.current && w[1] == p.peek
  {
    [p.current, p.peek] + Lexing.Stream(p.lexer)
  }

  /** The `i`th token from the current one on; past the window only Eof comes. */
  function TokenAt(p: Parser, i: nat): Token
    requires Valid(p)
  {
    var w := Window(p);
    if i < |w| then w[i] else EOF_TOKEN
  }

  /** `q` sees the token stream of `p` moved on by `n` tokens. */
  ghost predicate Ahead(p: Parser, q: Parser, n: nat)
    requires Valid(p) && Valid(q)
  {
    forall i: nat :: TokenAt(q, i) == TokenAt(p, i + n)
  }

  /** A termination measure: every advance from a non-Eof current token lowers it. */
  function Remaining(p: Parser): nat
    requires Valid(p)
  {
    2 * |Lexing.Stream(p.lexer)|
      + (if p.current.kind == Eof then 0 else 1)
      + (if p.peek.kind == Eof then 0 else 1)
  }

  lemma StartWindow(l: Lexing.Lexer)
    requires Lexing.Valid(l)
    ensures var (l1, current) := Lexing.NextToken(l);
      var (l2, peek) := Lexing.NextToken(l1);
      var p := Parser(l2, current, peek, []);
      Valid(p) && forall i: nat :: TokenAt(p, i) == Lexing.StreamAt(l, i)
  {
    var (l1, current) := Lexing.NextToken(l);
    var (l2, peek) := Lexing.NextToken(l1);
    var p := Parser(l2, current, peek, []);
    Lexing.StreamStep(l);
    Lexing.StreamStep(l1);
    forall i: nat ensures TokenAt(p, i) == Lexing.StreamAt(l, i) {
    }
  }

  /** `Parser::new`: the window holds the lexer's first two tokens, and no errors. */
  function New(l: Lexing.Lexer): (p: Parser)
    requires Lexing.Valid(l)
    ensures Valid(p) && p.errors == []
    ensures forall i: nat :: TokenAt(p, i) == Lexing.StreamAt(l, i)
  {
    StartWindow(l);
    var (l1, current) := Lexing.NextToken(l);
    var (l2, peek) := Lexing.NextToken(l1);
    Parser(l2, current, peek, [])
  }

  lemma SlideWindow(p: Parser)
    requires Valid(p)
    ensures var (l, t) := Lexing.NextToken(p.lexer);
      var q := Parser(l, p.peek, t, p.errors);
      && Valid(q)
      && (forall i: nat :: TokenAt(q, i) == TokenAt(p, i + 1))
      && |Window(q)| == (if |Window(p)| > 2 then |Window(p)| - 1 else 2)
      && Remaining(q) <= Remaining(p)
      && (p.current.kind != Eof ==> Remaining(q) < Remaining(p))
  {
    var (l, t) := Lexing.NextToken(p.lexer);
    var q := Parser(l, p.peek, t, p.errors);
    Lexing.StreamStep(p.lexer);
    forall i: nat ensures TokenAt(q, i) == TokenAt(p, i + 1) {
      SlideTokenAt(p, i);
    }
  }

  /** One token of the slid window. */
  lemma SlideTokenAt(p: Parser, i: nat)
    requires Valid(p)
    ensures var (l, t) := Lexing.NextToken(p.lexer);
      var q := Parser(l, p.peek, t, p.errors);
      Valid(q) && TokenAt(q, i) == TokenAt(p, i + 1)
  {
    var (l, t) := Lexing.NextToken(p.lexer);
    var q := Parser(l, p.peek, t, p.errors);
    TokenAtStream(q, i);
    TokenAtStream(p, i + 1);
    if i >= 1 {
      Lexing.StreamAtStep(p.lexer, i - 1);
    }
  }

  /** The window's tokens are the current one, the peek one, then the lexer's. */
  lemma TokenAtStream(p: Parser, i: nat)
    requires Valid(p)
    ensures TokenAt(p, i) == if i == 0 then p.current else if i == 1 then p.peek else Lexing.StreamAt(p.lexer, i - 2)
  {
  }

  /** `next_token`: the peek token becomes current and exactly one new token is
      pulled from the lexer, so the window slides one token along the stream. */
  function Advance(p: Parser): (r: Parser)
    requires Valid(p)
    ensures Valid(r) && r.errors == p.errors && r.current == p.peek
    ensures Ahead(p, r, 1)
    ensures |Window(r)| == (if |Window(p)| > 2 then |Window(p)| - 1 else 2)
    ensures Remaining(r) <= Remaining(p)
    ensures p.current.kind != Eof ==> Remaining(r) < Remaining(p)
  {
    SlideWindow(p);
    var (l, t) := Lexing.NextToken(p.lexer);
    Parser(l, p.peek, t, p.errors)
  }

  /** `peek_error`: record that the peek token is not the expected kind. */
  function PeekErrorOf(p: Parser, t: TokenType): (r: Parser)
    ensures r.errors == p.errors + [PeekError(t, p.peek.kind)]
    ensures r.lexer == p.lexer && r.current == p.current && r.peek == p.peek
  {
    p.(errors := p.errors + [PeekError(t, p.peek.kind)])
  }

  /** `expect_peek`: advance when the peek token has the expected kind;
      otherwise record one peek error and stay put. */
  function ExpectPeek(p: Parser, t: TokenType): (r: (Parser, bool))
    requires Valid(p)
    ensures Valid(r.0)
    ensures r.1 <==> p.peek.kind == t
    ensures r.1 ==> Ahead(p, r.0, 1) && r.0.current.kind == t && r.0.errors == p.errors
    ensures r.1 ==> Remaining(r.0) <= Remaining(p)
    ensures !r.1 ==> r.0.lexer == p.lexer && r.0.current == p.current && r.0.peek == p.peek
    ensures !r.1 ==> r.0.errors == p.errors + [PeekError(t, p.peek.kind)]
  {
    if p.peek.kind == t then (Advance(p), true)
    else (PeekErrorOf(p, t), false)
  }

  // Prefix parse functions and the table that dispatches on token kinds.

  datatype PrefixFn = ParseIdentifierFn | ParseIntegerLiteralFn | ParsePrefixExpressionFn

  /** `prefix_parse_fns`: only identifiers, integers, `!` and `-` can begin an expression. */
  function PrefixParseFn(k: TokenType): (f: Option<PrefixFn>)
    ensures f.Some? <==> k in {Ident, Int, Bang, Minus}
    ensures f == Some(ParsePrefixExpressionFn) <==> k in {Bang, Minus}
  {
    match k
    case Ident => Some(ParseIdentifierFn)
    case Int => Some(ParseIntegerLiteralFn)
    case Bang => Some(ParsePrefixExpressionFn)
    case Minus => Some(ParsePrefixExpressionFn)
    case _ => None
  }

  /** What a parsed expression looks like: every node agrees with its token. */
  ghost predicate WellFormedExpr(e: Expression) {
    WellFormedToken(e.token) &&
    match e
    case Identifier(t, v) => t.kind == Ident && v == t.literal
    case IntegerLiteral(t, v) => t.kind == Int && v == ParseI64(t.literal)
    case PrefixExpression(t, op, right) =>
      t.kind in {Bang, Minus} && op == t.literal && WellFormedExpr(right)
  }

  /** What a parsed statement looks like. Let and return values are never built. */
  ghost predicate WellFormedStmt(s: Statement) {
    WellFormedToken(s.token) &&
    match s
    case LetStatement(t, name, value) =>
      t.kind == Let && name.token.kind == Ident && name.value == name.token.literal
      && WellFormedToken(name.token) && value.None?
    case ReturnStatement(t, value) => t.kind == Return && value.None?
    case ExpressionStatement(t, e) =>
      match e
      case None => PrefixParseFn(t.kind).None?
      case Some(x) => WellFormedExpr(x) && x.token == t
  }

  /** `parse_identifier`. */
  function ParseIdentifier(p: Parser): (e: Expression)
    requires Valid(p) && p.current.kind == Ident
    ensures WellFormedExpr(e) && e.Identifier? && e.token == p.current
  {
    Identifier(p.current, p.current.literal)
  }

  /** `parse_integer_literal`: the node is built whether or not the literal fits
      in 64 bits; an overflow adds one error. */
  function ParseIntegerLiteral(p: Parser): (r: (Parser, Expression))
    requires Valid(p) && p.current.kind == Int
    ensures WellFormedExpr(r.1) && r.1.IntegerLiteral? && r.1.token == p.current
    ensures r.1.integer.None? <==> DigitsValue(p.current.literal) > I64_MAX
    ensures r.1.integer.Some? ==> r.1.integer.value == DigitsValue(p.current.literal)
    ensures r.0.lexer == p.lexer && r.0.current == p.current && r.0.peek == p.peek
    ensures r.0.errors == p.errors + (if r.1.integer.None? then [IntParse(p.current.literal)] else [])
  {
    ParseDigitRun(p.current.literal);
    var value := ParseI64(p.current.literal);
    var q := if value.None? then p.(errors := p.errors + [IntParse(p.current.literal)]) else p;
    (q, IntegerLiteral(p.current, value))
  }

  /** `no_prefix_parse_fn_error`. */
  function NoPrefixParseFnError(p: Parser, t: TokenType): (r: Parser)
    ensures r.errors == p.errors + [NoPrefix(t)]
    ensures r.lexer == p.lexer && r.current == p.current && r.peek == p.peek
  {
    p.(errors := p.errors + [NoPrefix(t)])
  }

  /**
   `parse_expression`: dispatch on the current token's prefix function. The
   precedence is not consulted, since no infix operators are parsed. Without
   a prefix function the result is None plus one error.
   */
  function ParseExpression(p: Parser, precedence: int): (r: Outcome<Option<Expression>>)
    requires Valid(p)
    ensures !r.Diverged?
    ensures r.Ok? ==> Valid(r.state) && p.errors <= r.state.errors && Remaining(r.state) <= Remaining(p)
    ensures PrefixParseFn(p.current.kind).None? <==> r.Ok? && r.value.None?
    ensures r.Ok? && r.value.None? ==>
      r.state == p.(errors := p.errors + [NoPrefix(p.current.kind)])
    ensures r.Ok? && r.value.Some? ==>
      && WellFormedExpr(r.value.value)
      && r.value.value.token == p.current
      && r.state.current.kind in {Ident, Int}
    decreases Remaining(p), 1
  {
    match PrefixParseFn(p.current.kind)
    case None => Ok(NoPrefixParseFnError(p, p.current.kind), None)
    case Some(ParseIdentifierFn) => Ok(p, Some(ParseIdentifier(p)))
    case Some(ParseIntegerLiteralFn) =>
      var (q, e) := ParseIntegerLiteral(p);
      Ok(q, Some(e))
    case Some(ParsePrefixExpressionFn) =>
      var r := ParsePrefixExpression(p);
      if r.Ok? then Ok(r.state, Some(r.value)) else r.Propagate()
  }

  /**
   `parse_prefix_expression`: take the operator, advance, and parse the
   operand recursively. The source unwraps the operand, so an operand token
   without a prefix function panics.
   */
  function ParsePrefixExpression(p: Parser): (r: Outcome<Expression>)
    requires Valid(p) && p.current.kind in {Bang, Minus}
    ensures !r.Diverged?
    ensures r.Ok? ==> Valid(r.state) && p.errors <= r.state.errors && Remaining(r.state) < Remaining(p)
    ensures r.Ok? ==>
      && WellFormedExpr(r.value)
      && r.value.PrefixExpression?
      && r.value.token == p.current
      && r.state.current.kind in {Ident, Int}
    decreases Remaining(p), 0
  {
    var token := p.current;
    var operator := p.current.literal;
    var q := Advance(p);
    var right := ParseExpression(q, PREFIX);
    if !right.Ok? then right.Propagate()
    else if right.value.None? then Panicked
    else Ok(right.state, PrefixExpression(token, operator, right.value.value))
  }

  /** Whether a `;` is anywhere in the tokens still to come. */
  predicate SemicolonAhead(p: Parser)
    requires Valid(p)
  {
    exists i | 0 <= i < |Window(p)| :: Window(p)[i].kind == Semicolon
  }

  /**
   The loop `while !cur_token_is(Semicolon) { next_token() }` of the let and
   return parsers. It ends on the first `;`; when none is left it never ends,
   because past the end of the input the lexer only yields Eof.
   */
  function SkipToSemicolon(p: Parser): (r: Outcome<()>)
    requires Valid(p)
    ensures !r.Panicked?
    ensures r.Ok? ==> Valid(r.state) && r.state.errors == p.errors && r.state.current.kind == Semicolon
    ensures r.Ok? ==> Remaining(r.state) <= Remaining(p)
    decreases |Window(p)| + (if p.current.kind == Semicolon then 0 else 1)
  {
    if p.current.kind == Semicolon then Ok(p, ())
    else if !SemicolonAhead(p) then Diverged
    else SkipToSemicolon(Advance(p))
  }

  /**
   `parse_let_statement`: `let` must be followed by an identifier and then
   `=`; otherwise the statement is dropped with one peek error. The value is
   skipped up to the next `;` and not built.
   */
  function ParseLetStatement(p: Parser): (r: Outcome<Option<Statement>>)
    requires Valid(p)
    ensures !r.Panicked?
    ensures r.Ok? ==> Valid(r.state) && p.errors <= r.state.errors && Remaining(r.state) <= Remaining(p)
    ensures r.Ok? ==> r.state.current.kind in {p.current.kind, Ident, Semicolon}
    ensures r.Ok? && r.value.None? ==> |r.state.errors| == |p.errors| + 1
    ensures r.Ok? && r.value.Some? ==>
      && r.value.value == LetStatement(p.current, Identifier(p.peek, p.peek.literal), None)
      && r.state.errors == p.errors
      && r.state.current.kind == Semicolon
  {
    var letToken := p.current;
    var (p1, ok1) := ExpectPeek(p, Ident);
    if !ok1 then Ok(p1, None)
    else
      var name := Identifier(p1.current, p1.current.literal);
      var (p2, ok2) := ExpectPeek(p1, Assign);
      if !ok2 then Ok(p2, None)
      else
        var s := SkipToSemicolon(p2);
        if !s.Ok? then s.Propagate()
        else Ok(s.state, Some(LetStatement(letToken, name, None)))
  }

  /** `parse_return_statement`: skip everything after `return` up to the next
      `;`; the value is not built. */
  function ParseReturnStatement(p: Parser): (r: Outcome<Option<Statement>>)
    requires Valid(p)
    ensures !r.Panicked?
    ensures r.Ok? ==>
      && Valid(r.state) && r.state.errors == p.errors && Remaining(r.state) <= Remaining(p)
      && r.value == Some(ReturnStatement(p.current, None))
      && r.state.current.kind == Semicolon
  {
    var returnToken := p.current;
    var q := Advance(p);
    var s := SkipToSemicolon(q);
    if !s.Ok? then s.Propagate()
    else Ok(s.state, Some(ReturnStatement(returnToken, None)))
  }

  /**
   `parse_expression_statement`: parse one expression at the lowest
   precedence and step onto a following `;` if there is one. A statement is
   returned even when the expression is absent.
   */
  function ParseExpressionStatement(p: Parser): (r: Outcome<Option<Statement>>)
    requires Valid(p)
    ensures !r.Diverged?
    ensures r.Panicked? <==> ParseExpression(p, LOWEST).Panicked?
    ensures r.Ok? ==> Valid(r.state) && p.errors <= r.state.errors && Remaining(r.state) <= Remaining(p)
    ensures r.Ok? ==>
      && r.value.Some? && r.value.value.ExpressionStatement?
      && r.value.value.token == p.current
      && r.value.value.expression == ParseExpression(p, LOWEST).value
      && r.state.errors == ParseExpression(p, LOWEST).state.errors
    ensures r.Ok? && p.current.kind != Eof ==> r.state.current.kind != Eof
  {
    var token := p.current;
    var e := ParseExpression(p, LOWEST);
    if !e.Ok? then e.Propagate()
    else
      var q := if e.state.peek.kind == Semicolon then Advance(e.state) else e.state;
      Ok(q, Some(ExpressionStatement(token, e.value)))
  }

  /** `parse_statement`: dispatch on the current token. */
  function ParseStatement(p: Parser): (r: Outcome<Option<Statement>>)
    requires Valid(p)
    ensures r.Ok? ==> Valid(r.state) && p.errors <= r.state.errors && Remaining(r.state) <= Remaining(p)
    ensures r.Ok? && p.current.kind != Eof ==> r.state.current.kind != Eof
    ensures r.Ok? && r.value.Some? ==> WellFormedStmt(r.value.value) && r.value.value.token == p.current
    ensures r.Ok? && r.value.Some? ==>
      && (r.value.value.LetStatement? <==> p.current.kind == Let)
      && (r.value.value.ReturnStatement? <==> p.current.kind == Return)
  {
    match p.current.kind
    case Let => ParseLetStatement(p)
    case Return => ParseReturnStatement(p)
    case _ => ParseExpressionStatement(p)
  }

  /**
   `parse_program`: parse statements until the current token is Eof, keeping
   the ones that parsed in order, dropping the rest, and advancing one token
   after each.
   */
  function ParseProgram(p: Parser): (r: Outcome<Program>)
    requires Valid(p)
    ensures r.Ok? ==> Valid(r.state) && r.state.current.kind == Eof && p.errors <= r.state.errors
    ensures r.Ok? ==> forall s | s in r.value :: WellFormedStmt(s)
    ensures p.current.kind == Eof ==> r == Ok(p, [])
    decreases Remaining(p)
  {
    if p.current.kind == Eof then Ok(p, [])
    else
      var s := ParseStatement(p);
      if !s.Ok? then s.Propagate()
      else
        var rest := ParseProgram(Advance(s.state));
        if !rest.Ok? then rest.Propagate()
        else Ok(rest.state, (if s.value.Some? then [s.value.value] else []) + rest.value)
  }

  /** Lex and parse a whole source text. */
  function Parse(input: seq<Byte>): (r: Outcome<Program>)
  {
    ParseProgram(New(Lexing.New(input)))
  }
}
