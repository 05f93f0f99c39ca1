/**
 The syntax tree the parser builds. Every node keeps the token that
 introduced it; children are owned outright, so the tree is a plain value.
 */
module Ast {
  import opened Optional
  import opened Tokens

  datatype Expression =
    | Identifier(token: Token, value: seq<Byte>)
    | IntegerLiteral(token: Token, integer: Option<int>)
    | PrefixExpression(token: Token, operator: seq<Byte>, right: Expression)
  {
    /** The tokens the expression was built from, in source order. */
    function Tokens(): (ts: seq<Token>)
      ensures 0 < |ts| && ts[0] == token
    {
      match this
      case PrefixExpression(t, _, right) => [t] + right.Tokens()
      case _ => [token]
    }
  }

  /** The name slot of a `let` statement holds an identifier and nothing else. */
  type IdentifierExpression = e: Expression | e.Identifier? witness Identifier(EOF_TOKEN, [])

  datatype Statement =
    | LetStatement(token: Token, name: IdentifierExpression, value: Option<Expression>)
    | ReturnStatement(token: Token, returnValue: Option<Expression>)
    | ExpressionStatement(token: Token, expression: Option<Expression>)
  {
    function TokenLiteral(): seq<Byte> {
      token.literal
    }
  }

  /** A program is its top-level statements in source order. */
  type Program = seq<Statement>

  /** `Program::token_literal`: the first statement's literal, or the empty string. */
  function TokenLiteral(program: Program): (r: seq<Byte>)
    ensures |program| == 0 ==> r == []
    ensures |program| > 0 ==> r == program[0].token.literal
  {
    if |program| > 0 then program[0].TokenLiteral() else []
  }

  /** Statements added after the first one never change the program's literal. */
  lemma TokenLiteralAppend(program: Program, more: Program)
    requires |program| > 0
    ensures TokenLiteral(program + more) == TokenLiteral(program)
  {
  }
}
