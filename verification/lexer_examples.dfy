/**
 Concrete tokenizations of short texts, each stated as the declarative
 Tokenizes relation and turned into the lexer's actual token stream by
 TokenizesStream. Texts are byte lists; the comment above each lemma shows
 the text, with line feeds written \n. Longer texts are put together line by
 line with TokenizesAppend, which needs each line to end in whitespace.
 */
module LexerExamples {
  import opened Tokens
  import opened Lexing
  import opened LexerProperties
  import opened LineTokens

  /** "x1": letters and digits never share a token, so an identifier stops at
      the first digit. */
  lemma LettersThenDigits(input: seq<Byte>)
    requires input == [120, 49]
    ensures Stream(New(input)) ==
      [Token(Ident, [120]), Token(Int, [49])]
  {
    LettersThenDigitsLine(input);
    TokenizesStream(New(input), [Token(Ident, [120]), Token(Int, [49])], [(0, 1), (1, 2)]);
  }

  /** "=!==": `=` followed by `!` is a lone `=`; then `!=`, then `=`. */
  lemma AssignThenNotEq(input: seq<Byte>)
    requires input == [61, 33, 61, 61]
    ensures Stream(New(input)) ==
      [Token(Assign, [61]), Token(NotEq, [33, 61]), Token(Assign, [61])]
  {
    AssignThenNotEqLine(input);
    TokenizesStream(New(input), [Token(Assign, [61]), Token(NotEq, [33, 61]), Token(Assign, [61])], [(0, 1), (1, 3), (3, 4)]);
  }

}
