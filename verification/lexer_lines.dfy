/**
 Tokenizations of short texts, proved token by token against the
 declarative Tokenizes relation of the lexer. Each text is a byte list; the
 comment above its lemma shows it, with line feeds written \n. A line with
 more than three tokens is proved from its fourth token on by a second
 lemma (and so on), which keeps each proof small.
 */
module LineTokens {
  import opened Tokens
  import opened Lexing
  import opened LexerProperties

  // "\nlet x = 5;\n"
  lemma LetX(input: seq<Byte>)
    requires input == [10, 108, 101, 116, 32, 120, 32, 61, 32, 53, 59, 10]
    ensures Tokenizes(input, 0, [Token(Let, [108, 101, 116]), Token(Ident, [120]), Token(Assign, [61]), Token(Int, [53]), Token(Semicolon, [59])], [(1, 4), (5, 6), (7, 8), (9, 10), (10, 11)])
  {
    LetXFrom3(input);
    assert input[1..4] == [108, 101, 116];
    LexesKeyword(input, 1, 4, Let);
    assert input[5..6] == [120];
    LexesIdentifier(input, 5, 6);
    LexesEqualsSign(input, 7);
    TokenizesCons(input, 6, [Token(Assign, [61]), Token(Int, [53]), Token(Semicolon, [59])], [(7, 8), (9, 10), (10, 11)]);
    TokenizesCons(input, 4, [Token(Ident, [120]), Token(Assign, [61]), Token(Int, [53]), Token(Semicolon, [59])], [(5, 6), (7, 8), (9, 10), (10, 11)]);
    TokenizesCons(input, 0, [Token(Let, [108, 101, 116]), Token(Ident, [120]), Token(Assign, [61]), Token(Int, [53]), Token(Semicolon, [59])], [(1, 4), (5, 6), (7, 8), (9, 10), (10, 11)]);
  }

  lemma LetXFrom3(input: seq<Byte>)
    requires input == [10, 108, 101, 116, 32, 120, 32, 61, 32, 53, 59, 10]
    ensures Tokenizes(input, 8, [Token(Int, [53]), Token(Semicolon, [59])], [(9, 10), (10, 11)])
  {
    LexesNumber(input, 9, 10);
    LexesPunctuator(input, 10);
    TokenizesCons(input, 10, [Token(Semicolon, [59])], [(10, 11)]);
    TokenizesCons(input, 8, [Token(Int, [53]), Token(Semicolon, [59])], [(9, 10), (10, 11)]);
  }

  // "let y = 10;\n"
  lemma LetY(input: seq<Byte>)
    requires input == [108, 101, 116, 32, 121, 32, 61, 32, 49, 48, 59, 10]
    ensures Tokenizes(input, 0, [Token(Let, [108, 101, 116]), Token(Ident, [121]), Token(Assign, [61]), Token(Int, [49, 48]), Token(Semicolon, [59])], [(0, 3), (4, 5), (6, 7), (8, 10), (10, 11)])
  {
    LetYFrom3(input);
    assert input[0..3] == [108, 101, 116];
    LexesKeyword(input, 0, 3, Let);
    assert input[4..5] == [121];
    LexesIdentifier(input, 4, 5);
    LexesEqualsSign(input, 6);
    TokenizesCons(input, 5, [Token(Assign, [61]), Token(Int, [49, 48]), Token(Semicolon, [59])], [(6, 7), (8, 10), (10, 11)]);
    TokenizesCons(input, 3, [Token(Ident, [121]), Token(Assign, [61]), Token(Int, [49, 48]), Token(Semicolon, [59])], [(4, 5), (6, 7), (8, 10), (10, 11)]);
    TokenizesCons(input, 0, [Token(Let, [108, 101, 116]), Token(Ident, [121]), Token(Assign, [61]), Token(Int, [49, 48]), Token(Semicolon, [59])], [(0, 3), (4, 5), (6, 7), (8, 10), (10, 11)]);
  }

  lemma LetYFrom3(input: seq<Byte>)
    requires input == [108, 101, 116, 32, 121, 32, 61, 32, 49, 48, 59, 10]
    ensures Tokenizes(input, 7, [Token(Int, [49, 48]), Token(Semicolon, [59])], [(8, 10), (10, 11)])
  {
    LexesNumber(input, 8, 10);
    assert input[8..10] == [49, 48];
    LexesPunctuator(input, 10);
    TokenizesCons(input, 10, [Token(Semicolon, [59])], [(10, 11)]);
    TokenizesCons(input, 7, [Token(Int, [49, 48]), Token(Semicolon, [59])], [(8, 10), (10, 11)]);
  }

  // "let foobar = 838383;\n"
  lemma LetFoobar(input: seq<Byte>)
    requires input == [108, 101, 116, 32, 102, 111, 111, 98, 97, 114, 32, 61, 32, 56, 51, 56, 51, 56, 51, 59, 10]
    ensures Tokenizes(input, 0, [Token(Let, [108, 101, 116]), Token(Ident, [102, 111, 111, 98, 97, 114]), Token(Assign, [61]), Token(Int, [56, 51, 56, 51, 56, 51]), Token(Semicolon, [59])], [(0, 3), (4, 10), (11, 12), (13, 19), (19, 20)])
  {
    LetFoobarFrom3(input);
    assert input[0..3] == [108, 101, 116];
    LexesKeyword(input, 0, 3, Let);
    assert input[4..10] == [102, 111, 111, 98, 97, 114];
    LexesIdentifier(input, 4, 10);
    LexesEqualsSign(input, 11);
    TokenizesCons(input, 10, [Token(Assign, [61]), Token(Int, [56, 51, 56, 51, 56, 51]), Token(Semicolon, [59])], [(11, 12), (13, 19), (19, 20)]);
    TokenizesCons(input, 3, [Token(Ident, [102, 111, 111, 98, 97, 114]), Token(Assign, [61]), Token(Int, [56, 51, 56, 51, 56, 51]), Token(Semicolon, [59])], [(4, 10), (11, 12), (13, 19), (19, 20)]);
    TokenizesCons(input, 0, [Token(Let, [108, 101, 116]), Token(Ident, [102, 111, 111, 98, 97, 114]), Token(Assign, [61]), Token(Int, [56, 51, 56, 51, 56, 51]), Token(Semicolon, [59])], [(0, 3), (4, 10), (11, 12), (13, 19), (19, 20)]);
  }

  lemma LetFoobarFrom3(input: seq<Byte>)
    requires input == [108, 101, 116, 32, 102, 111, 111, 98, 97, 114, 32, 61, 32, 56, 51, 56, 51, 56, 51, 59, 10]
    ensures Tokenizes(input, 12, [Token(Int, [56, 51, 56, 51, 56, 51]), Token(Semicolon, [59])], [(13, 19), (19, 20)])
  {
    LexesNumber(input, 13, 19);
    assert input[13..19] == [56, 51, 56, 51, 56, 51];
    LexesPunctuator(input, 19);
    TokenizesCons(input, 19, [Token(Semicolon, [59])], [(19, 20)]);
    TokenizesCons(input, 12, [Token(Int, [56, 51, 56, 51, 56, 51]), Token(Semicolon, [59])], [(13, 19), (19, 20)]);
  }

  // "\nreturn 5;\n"
  lemma ReturnFive(input: seq<Byte>)
    requires input == [10, 114, 101, 116, 117, 114, 110, 32, 53, 59, 10]
    ensures Tokenizes(input, 0, [Token(Return, [114, 101, 116, 117, 114, 110]), Token(Int, [53]), Token(Semicolon, [59])], [(1, 7), (8, 9), (9, 10)])
  {
    assert input[1..7] == [114, 101, 116, 117, 114, 110];
    LexesKeyword(input, 1, 7, Return);
    LexesNumber(input, 8, 9);
    LexesPunctuator(input, 9);
    TokenizesCons(input, 9, [Token(Semicolon, [59])], [(9, 10)]);
    TokenizesCons(input, 7, [Token(Int, [53]), Token(Semicolon, [59])], [(8, 9), (9, 10)]);
    TokenizesCons(input, 0, [Token(Return, [114, 101, 116, 117, 114, 110]), Token(Int, [53]), Token(Semicolon, [59])], [(1, 7), (8, 9), (9, 10)]);
  }

  // "return 10;\n"
  lemma ReturnTen(input: seq<Byte>)
    requires input == [114, 101, 116, 117, 114, 110, 32, 49, 48, 59, 10]
    ensures Tokenizes(input, 0, [Token(Return, [114, 101, 116, 117, 114, 110]), Token(Int, [49, 48]), Token(Semicolon, [59])], [(0, 6), (7, 9), (9, 10)])
  {
    assert input[0..6] == [114, 101, 116, 117, 114, 110];
    LexesKeyword(input, 0, 6, Return);
    LexesNumber(input, 7, 9);
    assert input[7..9] == [49, 48];
    LexesPunctuator(input, 9);
    TokenizesCons(input, 9, [Token(Semicolon, [59])], [(9, 10)]);
    TokenizesCons(input, 6, [Token(Int, [49, 48]), Token(Semicolon, [59])], [(7, 9), (9, 10)]);
    TokenizesCons(input, 0, [Token(Return, [114, 101, 116, 117, 114, 110]), Token(Int, [49, 48]), Token(Semicolon, [59])], [(0, 6), (7, 9), (9, 10)]);
  }

  // "return 993322;\n"
  lemma ReturnBig(input: seq<Byte>)
    requires input == [114, 101, 116, 117, 114, 110, 32, 57, 57, 51, 51, 50, 50, 59, 10]
    ensures Tokenizes(input, 0, [Token(Return, [114, 101, 116, 117, 114, 110]), Token(Int, [57, 57, 51, 51, 50, 50]), Token(Semicolon, [59])], [(0, 6), (7, 13), (13, 14)])
  {
    assert input[0..6] == [114, 101, 116, 117, 114, 110];
    LexesKeyword(input, 0, 6, Return);
    LexesNumber(input, 7, 13);
    assert input[7..13] == [57, 57, 51, 51, 50, 50];
    LexesPunctuator(input, 13);
    TokenizesCons(input, 13, [Token(Semicolon, [59])], [(13, 14)]);
    TokenizesCons(input, 6, [Token(Int, [57, 57, 51, 51, 50, 50]), Token(Semicolon, [59])], [(7, 13), (13, 14)]);
    TokenizesCons(input, 0, [Token(Return, [114, 101, 116, 117, 114, 110]), Token(Int, [57, 57, 51, 51, 50, 50]), Token(Semicolon, [59])], [(0, 6), (7, 13), (13, 14)]);
  }

  // "\nlet x 5;\n"
  lemma LetNoAssign(input: seq<Byte>)
    requires input == [10, 108, 101, 116, 32, 120, 32, 53, 59, 10]
    ensures Tokenizes(input, 0, [Token(Let, [108, 101, 116]), Token(Ident, [120]), Token(Int, [53]), Token(Semicolon, [59])], [(1, 4), (5, 6), (7, 8), (8, 9)])
  {
    LetNoAssignFrom3(input);
    assert input[1..4] == [108, 101, 116];
    LexesKeyword(input, 1, 4, Let);
    assert input[5..6] == [120];
    LexesIdentifier(input, 5, 6);
    LexesNumber(input, 7, 8);
    TokenizesCons(input, 6, [Token(Int, [53]), Token(Semicolon, [59])], [(7, 8), (8, 9)]);
    TokenizesCons(input, 4, [Token(Ident, [120]), Token(Int, [53]), Token(Semicolon, [59])], [(5, 6), (7, 8), (8, 9)]);
    TokenizesCons(input, 0, [Token(Let, [108, 101, 116]), Token(Ident, [120]), Token(Int, [53]), Token(Semicolon, [59])], [(1, 4), (5, 6), (7, 8), (8, 9)]);
  }

  lemma LetNoAssignFrom3(input: seq<Byte>)
    requires input == [10, 108, 101, 116, 32, 120, 32, 53, 59, 10]
    ensures Tokenizes(input, 8, [Token(Semicolon, [59])], [(8, 9)])
  {
    LexesPunctuator(input, 8);
    TokenizesCons(input, 8, [Token(Semicolon, [59])], [(8, 9)]);
  }

  // "let = 10;\n"
  lemma LetNoName(input: seq<Byte>)
    requires input == [108, 101, 116, 32, 61, 32, 49, 48, 59, 10]
    ensures Tokenizes(input, 0, [Token(Let, [108, 101, 116]), Token(Assign, [61]), Token(Int, [49, 48]), Token(Semicolon, [59])], [(0, 3), (4, 5), (6, 8), (8, 9)])
  {
    LetNoNameFrom3(input);
    assert input[0..3] == [108, 101, 116];
    LexesKeyword(input, 0, 3, Let);
    LexesEqualsSign(input, 4);
    LexesNumber(input, 6, 8);
    assert input[6..8] == [49, 48];
    TokenizesCons(input, 5, [Token(Int, [49, 48]), Token(Semicolon, [59])], [(6, 8), (8, 9)]);
    TokenizesCons(input, 3, [Token(Assign, [61]), Token(Int, [49, 48]), Token(Semicolon, [59])], [(4, 5), (6, 8), (8, 9)]);
    TokenizesCons(input, 0, [Token(Let, [108, 101, 116]), Token(Assign, [61]), Token(Int, [49, 48]), Token(Semicolon, [59])], [(0, 3), (4, 5), (6, 8), (8, 9)]);
  }

  lemma LetNoNameFrom3(input: seq<Byte>)
    requires input == [108, 101, 116, 32, 61, 32, 49, 48, 59, 10]
    ensures Tokenizes(input, 8, [Token(Semicolon, [59])], [(8, 9)])
  {
    LexesPunctuator(input, 8);
    TokenizesCons(input, 8, [Token(Semicolon, [59])], [(8, 9)]);
  }

  // "let 838383;\n"
  lemma LetNoNameInt(input: seq<Byte>)
    requires input == [108, 101, 116, 32, 56, 51, 56, 51, 56, 51, 59, 10]
    ensures Tokenizes(input, 0, [Token(Let, [108, 101, 116]), Token(Int, [56, 51, 56, 51, 56, 51]), Token(Semicolon, [59])], [(0, 3), (4, 10), (10, 11)])
  {
    assert input[0..3] == [108, 101, 116];
    LexesKeyword(input, 0, 3, Let);
    LexesNumber(input, 4, 10);
    assert input[4..10] == [56, 51, 56, 51, 56, 51];
    LexesPunctuator(input, 10);
    TokenizesCons(input, 10, [Token(Semicolon, [59])], [(10, 11)]);
    TokenizesCons(input, 3, [Token(Int, [56, 51, 56, 51, 56, 51]), Token(Semicolon, [59])], [(4, 10), (10, 11)]);
    TokenizesCons(input, 0, [Token(Let, [108, 101, 116]), Token(Int, [56, 51, 56, 51, 56, 51]), Token(Semicolon, [59])], [(0, 3), (4, 10), (10, 11)]);
  }

  // "foobar;"
  lemma Foobar(input: seq<Byte>)
    requires input == [102, 111, 111, 98, 97, 114, 59]
    ensures Tokenizes(input, 0, [Token(Ident, [102, 111, 111, 98, 97, 114]), Token(Semicolon, [59])], [(0, 6), (6, 7)])
  {
    assert input[0..6] == [102, 111, 111, 98, 97, 114];
    LexesIdentifier(input, 0, 6);
    LexesPunctuator(input, 6);
    TokenizesCons(input, 6, [Token(Semicolon, [59])], [(6, 7)]);
    TokenizesCons(input, 0, [Token(Ident, [102, 111, 111, 98, 97, 114]), Token(Semicolon, [59])], [(0, 6), (6, 7)]);
  }

  // "5;"
  lemma Five(input: seq<Byte>)
    requires input == [53, 59]
    ensures Tokenizes(input, 0, [Token(Int, [53]), Token(Semicolon, [59])], [(0, 1), (1, 2)])
  {
    LexesNumber(input, 0, 1);
    LexesPunctuator(input, 1);
    TokenizesCons(input, 1, [Token(Semicolon, [59])], [(1, 2)]);
    TokenizesCons(input, 0, [Token(Int, [53]), Token(Semicolon, [59])], [(0, 1), (1, 2)]);
  }

  // "!5;"
  lemma NotFive(input: seq<Byte>)
    requires input == [33, 53, 59]
    ensures Tokenizes(input, 0, [Token(Bang, [33]), Token(Int, [53]), Token(Semicolon, [59])], [(0, 1), (1, 2), (2, 3)])
  {
    LexesExclamation(input, 0);
    LexesNumber(input, 1, 2);
    LexesPunctuator(input, 2);
    TokenizesCons(input, 2, [Token(Semicolon, [59])], [(2, 3)]);
    TokenizesCons(input, 1, [Token(Int, [53]), Token(Semicolon, [59])], [(1, 2), (2, 3)]);
    TokenizesCons(input, 0, [Token(Bang, [33]), Token(Int, [53]), Token(Semicolon, [59])], [(0, 1), (1, 2), (2, 3)]);
  }

  // "-15;"
  lemma MinusFifteen(input: seq<Byte>)
    requires input == [45, 49, 53, 59]
    ensures Tokenizes(input, 0, [Token(Minus, [45]), Token(Int, [49, 53]), Token(Semicolon, [59])], [(0, 1), (1, 3), (3, 4)])
  {
    LexesPunctuator(input, 0);
    LexesNumber(input, 1, 3);
    assert input[1..3] == [49, 53];
    LexesPunctuator(input, 3);
    TokenizesCons(input, 3, [Token(Semicolon, [59])], [(3, 4)]);
    TokenizesCons(input, 1, [Token(Int, [49, 53]), Token(Semicolon, [59])], [(1, 3), (3, 4)]);
    TokenizesCons(input, 0, [Token(Minus, [45]), Token(Int, [49, 53]), Token(Semicolon, [59])], [(0, 1), (1, 3), (3, 4)]);
  }

  // "-;"
  lemma MinusAlone(input: seq<Byte>)
    requires input == [45, 59]
    ensures Tokenizes(input, 0, [Token(Minus, [45]), Token(Semicolon, [59])], [(0, 1), (1, 2)])
  {
    LexesPunctuator(input, 0);
    LexesPunctuator(input, 1);
    TokenizesCons(input, 1, [Token(Semicolon, [59])], [(1, 2)]);
    TokenizesCons(input, 0, [Token(Minus, [45]), Token(Semicolon, [59])], [(0, 1), (1, 2)]);
  }

  // "return 5"
  lemma ReturnNoSemicolon(input: seq<Byte>)
    requires input == [114, 101, 116, 117, 114, 110, 32, 53]
    ensures Tokenizes(input, 0, [Token(Return, [114, 101, 116, 117, 114, 110]), Token(Int, [53])], [(0, 6), (7, 8)])
  {
    assert input[0..6] == [114, 101, 116, 117, 114, 110];
    LexesKeyword(input, 0, 6, Return);
    LexesNumber(input, 7, 8);
    TokenizesCons(input, 6, [Token(Int, [53])], [(7, 8)]);
    TokenizesCons(input, 0, [Token(Return, [114, 101, 116, 117, 114, 110]), Token(Int, [53])], [(0, 6), (7, 8)]);
  }

  // "9223372036854775808;"
  lemma TooBig(input: seq<Byte>)
    requires input == [57, 50, 50, 51, 51, 55, 50, 48, 51, 54, 56, 53, 52, 55, 55, 53, 56, 48, 56, 59]
    ensures Tokenizes(input, 0, [Token(Int, [57, 50, 50, 51, 51, 55, 50, 48, 51, 54, 56, 53, 52, 55, 55, 53, 56, 48, 56]), Token(Semicolon, [59])], [(0, 19), (19, 20)])
  {
    LexesNumber(input, 0, 19);
    assert input[0..19] == [57, 50, 50, 51, 51, 55, 50, 48, 51, 54, 56, 53, 52, 55, 55, 53, 56, 48, 56];
    LexesPunctuator(input, 19);
    TokenizesCons(input, 19, [Token(Semicolon, [59])], [(19, 20)]);
    TokenizesCons(input, 0, [Token(Int, [57, 50, 50, 51, 51, 55, 50, 48, 51, 54, 56, 53, 52, 55, 55, 53, 56, 48, 56]), Token(Semicolon, [59])], [(0, 19), (19, 20)]);
  }

  lemma LettersThenDigitsLine(input: seq<Byte>)
    requires input == [120, 49]
    ensures Tokenizes(input, 0, [Token(Ident, [120]), Token(Int, [49])], [(0, 1), (1, 2)])
  {
    assert input[0..1] == [120];
    LexesIdentifier(input, 0, 1);
    LexesNumber(input, 1, 2);
    TokenizesCons(input, 1, [Token(Int, [49])], [(1, 2)]);
    TokenizesCons(input, 0, [Token(Ident, [120]), Token(Int, [49])], [(0, 1), (1, 2)]);
  }

  lemma AssignThenNotEqLine(input: seq<Byte>)
    requires input == [61, 33, 61, 61]
    ensures Tokenizes(input, 0, [Token(Assign, [61]), Token(NotEq, [33, 61]), Token(Assign, [61])], [(0, 1), (1, 3), (3, 4)])
  {
    LexesEqualsSign(input, 0);
    LexesExclamation(input, 1);
    LexesEqualsSign(input, 3);
    TokenizesCons(input, 3, [Token(Assign, [61])], [(3, 4)]);
    TokenizesCons(input, 1, [Token(NotEq, [33, 61]), Token(Assign, [61])], [(1, 3), (3, 4)]);
    TokenizesCons(input, 0, [Token(Assign, [61]), Token(NotEq, [33, 61]), Token(Assign, [61])], [(0, 1), (1, 3), (3, 4)]);
  }
}
